/** The COC commands: the `.en` growth check and the `.coc` character
    generator's parameter parsing.  Dice rolls, JavaScript's `parseFloat`
    and the rendering of a JavaScript number are inputs. */
module Coc {
  import opened Wrappers
  import opened Text
  import opened OrderedMaps
  import opened JsValues
  import Adapter

  datatype GrowthArgs = GrowthArgs(
    skillName: string, skillValue: Option<real>, growthFormula: Option<string>, reason: Option<string>)

  /** `\d*[dD]\d+` matched against the whole of `t`. */
  predicate IsDiceTerm(t: string) {
    var i := |DigitPrefix(t)|;
    i + 1 < |t| && (t[i] == 'd' || t[i] == 'D') && AllDigits(t[i + 1..])
  }

  lemma DiceTermNoSlash(t: string)
    requires IsDiceTerm(t)
    ensures '/' !in t
  {
    var i := |DigitPrefix(t)|;
    assert forall k :: 0 <= k < i ==> IsDigit(t[k]);
    assert forall k :: i < k < |t| ==> t[k] == t[i + 1..][k - i - 1];
  }

  /** `^\+(\d*[dD]\d+)\/(\d*[dD]\d+)$`: the two captured dice terms. */
  function MatchFormula(s: string): (m: Option<(string, string)>)
    ensures m.Some? ==> IsDiceTerm(m.value.0) && IsDiceTerm(m.value.1)
    ensures m.Some? ==> s == "+" + m.value.0 + "/" + m.value.1
  {
    if s == [] || s[0] != '+' then None
    else
      var body := s[1..];
      var j := IndexOfChar(body, '/');
      if j < |body| && IsDiceTerm(body[..j]) && IsDiceTerm(body[j + 1..]) then
        assert s == "+" + body[..j] + "/" + body[j + 1..];
        Some((body[..j], body[j + 1..]))
      else None
  }

  /** Every `+A/B` built from two dice terms matches, with `A` and `B` captured. */
  lemma MatchFormulaComplete(a: string, b: string)
    requires IsDiceTerm(a) && IsDiceTerm(b)
    ensures MatchFormula("+" + a + "/" + b) == Some((a, b))
  {
    var s := "+" + a + "/" + b;
    var body := s[1..];
    assert body == a + "/" + b;
    DiceTermNoSlash(a);
    assert forall k :: 0 <= k < |a| ==> body[k] == a[k];
    IndexOfCharAt(body, '/', |a|);
    assert body[..|a|] == a;
    assert body[|a| + 1..] == b;
  }

  /** What `parseGrowthCommand` makes of non-empty arguments. */
  function GrowthArgsOf(args: seq<string>, parseFloat: string -> Option<real>): (p: GrowthArgs)
    requires args != []
    ensures p.skillName == args[0]
    ensures p.growthFormula.Some? ==> MatchFormula(p.growthFormula.value).Some?
  {
    if |args| == 1 then GrowthArgs(args[0], None, None, None)
    else
      var rest := if |args| > 2 then Some(Join(args[2..], " ")) else None;
      if MatchFormula(args[1]).Some? then GrowthArgs(args[0], None, Some(args[1]), rest)
      else if parseFloat(args[1]).Some? then GrowthArgs(args[0], parseFloat(args[1]), None, rest)
      else GrowthArgs(args[0], None, None, Some(Join(args[1..], " ")))
  }

  /** `parseGrowthCommand`: no arguments give nothing; the first is the
      skill; a second that is a growth formula or a number is kept as such
      and the rest is the reason; any other second argument starts the reason. */
  method ParseGrowthCommand(args: seq<string>, parseFloat: string -> Option<real>) returns (r: Option<GrowthArgs>)
    ensures r.None? <==> args == []
    ensures r.Some? ==> r.value == GrowthArgsOf(args, parseFloat)
    ensures r.Some? ==> r.value.skillName == args[0]
    ensures |args| == 1 ==> r == Some(GrowthArgs(args[0], None, None, None))
    ensures r.Some? ==> r.value.skillValue.None? || r.value.growthFormula.None?
    ensures r.Some? && r.value.growthFormula.Some? ==>
      MatchFormula(r.value.growthFormula.value).Some? && r.value.growthFormula == Some(args[1])
    ensures |args| >= 2 && MatchFormula(args[1]).Some? ==> r.value.growthFormula == Some(args[1])
    ensures |args| >= 2 && MatchFormula(args[1]).None? ==>
      r.value.growthFormula == None && r.value.skillValue == parseFloat(args[1])
    ensures |args| >= 2 && MatchFormula(args[1]).None? && parseFloat(args[1]).None? ==>
      r.value.reason == Some(Join(args[1..], " "))
    ensures |args| >= 2 && (MatchFormula(args[1]).Some? || parseFloat(args[1]).Some?) ==>
      r.value.reason == (if |args| > 2 then Some(Join(args[2..], " ")) else None)
  {
    if |args| == 0 {
      return None;
    }
    var result := GrowthArgs(args[0], None, None, None);
    if |args| == 1 {
      return Some(result);
    }
    var secondArg := args[1];
    if MatchFormula(secondArg).Some? {
      result := result.(growthFormula := Some(secondArg));
      if |args| > 2 {
        result := result.(reason := Some(Join(args[2..], " ")));
      }
      return Some(result);
    }
    var skillValueNum := parseFloat(secondArg);
    if skillValueNum.Some? {
      result := result.(skillValue := skillValueNum);
      if |args| > 2 {
        result := result.(reason := Some(Join(args[2..], " ")));
      }
      return Some(result);
    }
    result := result.(reason := Some(Join(args[1..], " ")));
    r := Some(result);
  }

  /** The skill value to check: the one given, else `attributes[skillName]`
      on the card's attributes object, with whether it came from the card.
      The `in` test also finds the members every object inherits. */
  function Resolve(parsed: GrowthArgs, attributes: Option<seq<(string, real)>>): (v: Option<(Lookup<real>, bool)>)
    ensures parsed.skillValue.Some? ==> v == Some((Own(parsed.skillValue.value), false))
    ensures parsed.skillValue.None? && attributes.Some? && parsed.skillName in Keys(attributes.value) ==>
      v == Some((Own(Get(attributes.value, parsed.skillName).value), true))
    ensures (parsed.skillValue.None? && attributes.Some? && parsed.skillName !in Keys(attributes.value)
             && parsed.skillName in ObjectPrototypeMembers)
      ==> v == Some((Inherited(parsed.skillName), true))
    ensures v.None? <==>
      (parsed.skillValue.None?
       && (attributes.None? || (parsed.skillName !in Keys(attributes.value) && parsed.skillName !in ObjectPrototypeMembers)))
  {
    if parsed.skillValue.Some? then Some((Own(parsed.skillValue.value), false))
    else if attributes.None? then None
    else
      match ReadProperty(attributes.value, parsed.skillName)
      case None => None
      case Some(found) => Some((found, true))
  }

  const GrowthCap: real := 99.0

  function RealMin(a: real, b: real): real { if a <= b then a else b }

  /** An inherited member compares with numbers as `NaN`: never below 0,
      above 1000 or below a roll. */
  predicate OutOfRangeValue(current: Lookup<real>)
  {
    current.Own? && (current.value < 0.0 || current.value > 1000.0)
  }

  predicate RollExceeds(total: int, current: Lookup<real>)
  {
    current.Own? && total as real > current.value
  }

  datatype GrowthOutcome =
    | Missing
    | OutOfRange(current: real)
    | CheckFailed(errorMsg: string)
    | GrowthDiceFailed
    | NoGrowth(roll: int, shown: Lookup<real>)
    | Grown(roll: int, current: real, growth: int, detail: string, newValue: real, fromCard: bool)

  /** The growth roll: the larger of the formula's two rolls, or `1d10`,
      with its detail text; `None` when a roll the engine made failed. */
  function GrowthRoll(formula: Option<string>, roll: (nat, string, int) -> Adapter.RollResult): (g: Option<(int, string)>)
    requires formula.Some? ==> MatchFormula(formula.value).Some?
    ensures formula.None? ==> (g.None? <==> roll(1, "1d10", 10).errorCode != 0)
    ensures formula.None? && g.Some? ==> g.value.0 == roll(1, "1d10", 10).total
    ensures formula.Some? ==> var (a, b) := MatchFormula(formula.value).value;
      (g.None? <==> roll(1, a, 100).errorCode != 0 || roll(2, b, 100).errorCode != 0)
      && (g.Some? ==> g.value.0 >= roll(1, a, 100).total && g.value.0 >= roll(2, b, 100).total
                      && (g.value.0 == roll(1, a, 100).total || g.value.0 == roll(2, b, 100).total))
  {
    if formula.Some? then
      var (dice1, dice2) := MatchFormula(formula.value).value;
      var result1 := roll(1, dice1, 100);
      var result2 := roll(2, dice2, 100);
      if result1.errorCode != 0 || result2.errorCode != 0 then None
      else Some((Max(result1.total, result2.total),
                 dice1 + "=" + IntToString(result1.total) + " / " + dice2 + "=" + IntToString(result2.total)))
    else
      var growthResult := roll(1, "1d10", 10);
      if growthResult.errorCode != 0 then None
      else Some((growthResult.total, "1d10=" + IntToString(growthResult.total)))
  }

  /** The outcome of the growth check on a parsed command.  `roll(k, e, d)`
      is the engine's result for the `k`-th roll of the command, of
      expression `e` with `d` faces by default. */
  function Outcome(parsed: GrowthArgs, attributes: Option<seq<(string, real)>>,
                   roll: (nat, string, int) -> Adapter.RollResult): GrowthOutcome
    requires parsed.growthFormula.Some? ==> MatchFormula(parsed.growthFormula.value).Some?
  {
    match Resolve(parsed, attributes)
    case None => Missing
    case Some((current, fromCard)) =>
      if OutOfRangeValue(current) then OutOfRange(current.value)
      else
        var check := roll(0, "1d100", 100);
        if check.errorCode != 0 then CheckFailed(check.errorMsg)
        else if !RollExceeds(check.total, current) then NoGrowth(check.total, current)
        else match GrowthRoll(parsed.growthFormula, roll)
          case None => GrowthDiceFailed
          case Some((growth, detail)) =>
            Grown(check.total, current.value, growth, detail, RealMin(current.value + growth as real, GrowthCap), fromCard)
  }

  /** Each outcome happens exactly under its condition on the skill value
      and the rolls. */
  lemma OutcomeSpec(parsed: GrowthArgs, attributes: Option<seq<(string, real)>>,
                    roll: (nat, string, int) -> Adapter.RollResult)
    requires parsed.growthFormula.Some? ==> MatchFormula(parsed.growthFormula.value).Some?
    ensures var o := Outcome(parsed, attributes, roll);
      var v := Resolve(parsed, attributes);
      var check := roll(0, "1d100", 100);
      var checked := v.Some? && !OutOfRangeValue(v.value.0) && check.errorCode == 0;
      && (o == Missing <==> v.None?)
      && (o.OutOfRange? <==> v.Some? && OutOfRangeValue(v.value.0))
      && (o.CheckFailed? <==> v.Some? && !OutOfRangeValue(v.value.0) && check.errorCode != 0)
      && (o.CheckFailed? ==> o.errorMsg == check.errorMsg)
      && (o.NoGrowth? <==> checked && !RollExceeds(check.total, v.value.0))
      && (o.GrowthDiceFailed? <==> checked && RollExceeds(check.total, v.value.0)
                                   && GrowthRoll(parsed.growthFormula, roll).None?)
      && (o.Grown? <==> checked && RollExceeds(check.total, v.value.0)
                        && GrowthRoll(parsed.growthFormula, roll).Some?)
      && (o.NoGrowth? ==> o.roll == check.total && o.shown == v.value.0)
      && (o.Grown? ==> o.roll == check.total && o.current == v.value.0.value && o.fromCard == v.value.1
                       && o.growth == GrowthRoll(parsed.growthFormula, roll).value.0
                       && o.newValue == RealMin(o.current + o.growth as real, GrowthCap))
  {
  }

  /** A skill the card lacks but every object inherits is never out of
      range and never grows. */
  lemma InheritedNeverGrows(parsed: GrowthArgs, attributes: seq<(string, real)>,
                            roll: (nat, string, int) -> Adapter.RollResult)
    requires parsed.growthFormula.Some? ==> MatchFormula(parsed.growthFormula.value).Some?
    requires parsed.skillValue.None? && parsed.skillName !in Keys(attributes)
    requires parsed.skillName in ObjectPrototypeMembers
    ensures var o := Outcome(parsed, Some(attributes), roll);
      o.CheckFailed? || o == NoGrowth(roll(0, "1d100", 100).total, Inherited(parsed.skillName))
  {
  }

  /** The growth check as the command runs it. */
  method Growth(parsed: GrowthArgs, attributes: Option<seq<(string, real)>>,
                roll: (nat, string, int) -> Adapter.RollResult) returns (o: GrowthOutcome)
    requires parsed.growthFormula.Some? ==> MatchFormula(parsed.growthFormula.value).Some?
    ensures o == Outcome(parsed, attributes, roll)
  {
    var resolved := Resolve(parsed, attributes);
    if resolved.None? {
      return Missing;
    }
    var currentValue := resolved.value.0;
    var shouldUpdateCard := resolved.value.1;
    if OutOfRangeValue(currentValue) {
      return OutOfRange(currentValue.value);
    }
    var checkResult := roll(0, "1d100", 100);
    if checkResult.errorCode != 0 {
      return CheckFailed(checkResult.errorMsg);
    }
    var rollValue := checkResult.total;
    if RollExceeds(rollValue, currentValue) {
      var growth: int;
      var growthDetail: string;
      if parsed.growthFormula.Some? {
        var (dice1, dice2) := MatchFormula(parsed.growthFormula.value).value;
        var result1 := roll(1, dice1, 100);
        var result2 := roll(2, dice2, 100);
        if result1.errorCode != 0 || result2.errorCode != 0 {
          return GrowthDiceFailed;
        }
        growth := Max(result1.total, result2.total);
        growthDetail := dice1 + "=" + IntToString(result1.total) + " / " + dice2 + "=" + IntToString(result2.total);
      } else {
        var growthResult := roll(1, "1d10", 10);
        if growthResult.errorCode != 0 {
          return GrowthDiceFailed;
        }
        growth := growthResult.total;
        growthDetail := "1d10=" + IntToString(growth);
      }
      var newValue := RealMin(currentValue.value + growth as real, GrowthCap);
      o := Grown(rollValue, currentValue.value, growth, growthDetail, newValue, shouldUpdateCard);
    } else {
      o := NoGrowth(rollValue, currentValue);
    }
  }

  function Max(a: int, b: int): int { if a >= b then a else b }

  /** A grown value never exceeds the cap, and it is the full growth
      whenever that stays under the cap. */
  lemma GrowthCapped(current: real, growth: int)
    ensures RealMin(current + growth as real, GrowthCap) <= GrowthCap
    ensures current + growth as real <= GrowthCap ==> RealMin(current + growth as real, GrowthCap) == current + growth as real
    ensures current <= GrowthCap && growth >= 0 ==> current <= RealMin(current + growth as real, GrowthCap)
  {
  }

  const GrowthUsage: string := "请指定技能名称\n用法: .en [技能名称]([技能值]) [原因]"

  /** The header line: the user, the skill, the reason when non-empty, and `成长检定`. */
  function GrowthHeader(username: string, parsed: GrowthArgs): string {
    var reason := if parsed.reason.Some? && parsed.reason.value != [] then [parsed.reason.value] else [];
    Join([username, parsed.skillName] + reason + ["成长检定"], " ")
  }

  /** A skill value in a template literal; `show` renders a JavaScript number. */
  function ShowValue(v: Lookup<real>, show: real -> string): string
  {
    match v
    case Own(x) => show(x)
    case Inherited(m) => InheritedText(m)
  }

  /** The reply for an outcome. */
  function GrowthReply(username: string, parsed: GrowthArgs, o: GrowthOutcome, show: real -> string): string {
    match o
    case Missing =>
      "未找到技能 " + parsed.skillName + "，请先使用 .st.set " + parsed.skillName + " <值> 设置，或直接指定技能值"
    case OutOfRange(_) => "技能值必须在0-1000之间"
    case CheckFailed(msg) => "检定失败: " + msg
    case GrowthDiceFailed => "成长骰子投掷失败"
    case NoGrowth(r, c) =>
      GrowthHeader(username, parsed) + "\n" + IntToString(r) + "/" + ShowValue(c, show) + " 失败\n" + parsed.skillName + " 未能成长"
    case Grown(r, c, g, detail, v, _) =>
      GrowthHeader(username, parsed) + "\n" + IntToString(r) + "/" + show(c) + " 成功\n"
      + parsed.skillName + " 增长 " + IntToString(g) + " 点 (" + detail + "): " + show(c) + " → " + show(v)
  }

  /** The attribute the command writes back: only a value taken from the
      card that grew. */
  function WriteBack(skillName: string, o: GrowthOutcome): Option<(string, real)>
  {
    if o.Grown? && o.fromCard then Some((skillName, o.newValue)) else None
  }

  /** The `.en` command: the reply, and the attribute written back to the
      card when a value taken from the card grew. */
  method GrowthCommand(username: string, args: seq<string>, parseFloat: string -> Option<real>,
                       attributes: Option<seq<(string, real)>>, roll: (nat, string, int) -> Adapter.RollResult,
                       show: real -> string)
    returns (reply: string, update: Option<(string, real)>)
    ensures args == [] ==> reply == GrowthUsage && update == None
    ensures args != [] ==> var p := GrowthArgsOf(args, parseFloat);
      reply == GrowthReply(username, p, Outcome(p, attributes, roll), show)
      && update == WriteBack(args[0], Outcome(p, attributes, roll))
    ensures update.Some? ==>
      (args != [] && update.value.0 == args[0]
       && attributes.Some? && args[0] in Keys(attributes.value)
       && 0.0 <= Get(attributes.value, args[0]).value <= 1000.0
       && update.value.1 <= GrowthCap
       && roll(0, "1d100", 100).errorCode == 0
       && roll(0, "1d100", 100).total as real > Get(attributes.value, args[0]).value)
  {
    var parsed := ParseGrowthCommand(args, parseFloat);
    if parsed.None? {
      return GrowthUsage, None;
    }
    var o := Growth(parsed.value, attributes, roll);
    reply := GrowthReply(username, parsed.value, o, show);
    if o.Grown? && o.fromCard {
      GrowthWritesBack(parsed.value, attributes, roll);
      update := Some((parsed.value.skillName, o.newValue));
    } else {
      update := None;
    }
  }

  /** A write-back happens exactly when a card value in 0..1000 was
      exceeded by the skill roll and the growth roll succeeded; it writes
      the card value plus the growth, capped at 99. */
  lemma GrowthWritesBack(parsed: GrowthArgs, attributes: Option<seq<(string, real)>>,
                         roll: (nat, string, int) -> Adapter.RollResult)
    requires parsed.growthFormula.Some? ==> MatchFormula(parsed.growthFormula.value).Some?
    ensures var o := Outcome(parsed, attributes, roll);
      var check := roll(0, "1d100", 100);
      var g := GrowthRoll(parsed.growthFormula, roll);
      (WriteBack(parsed.skillName, o).Some? <==>
         parsed.skillValue.None? && attributes.Some? && parsed.skillName in Keys(attributes.value)
         && 0.0 <= Get(attributes.value, parsed.skillName).value <= 1000.0
         && check.errorCode == 0 && check.total as real > Get(attributes.value, parsed.skillName).value
         && g.Some?)
      && (WriteBack(parsed.skillName, o).Some? ==>
            WriteBack(parsed.skillName, o)
              == Some((parsed.skillName, RealMin(Get(attributes.value, parsed.skillName).value + g.value.0 as real, GrowthCap)))
            && WriteBack(parsed.skillName, o).value.1 <= GrowthCap)
  {
    OutcomeSpec(parsed, attributes, roll);
    var o := Outcome(parsed, attributes, roll);
    if o.Grown? {
      GrowthCapped(o.current, o.growth);
    }
  }

  /** A requested count is kept only when it is a number in 1..10. */
  function AcceptCount(n: Option<int>): (c: nat)
    ensures 1 <= c <= 10
    ensures n.Some? && 1 <= n.value <= 10 ==> c == n.value
    ensures !(n.Some? && 1 <= n.value <= 10) ==> c == 1
  {
    if n.Some? && 0 < n.value <= 10 then n.value else 1
  }

  /** The number after the version in `6 N` or `7 N`. */
  function SecondWord(s: string): Option<int> {
    var parts := Words(s, IsJsSpace);
    if |parts| > 1 then ParseIntJs(parts[1]) else None
  }

  /** A version followed by a count is none of the detailed forms. */
  lemma CountFormsNotDetailed(p: string)
    requires StartsWith(p, "6 ") || StartsWith(p, "7 ")
    ensures p != "d" && p != "7d" && p != "6d"
  {
    assert p[1] == ' ';
    assert "7d"[1] == 'd' && "6d"[1] == 'd';
  }

  /** The `.coc [param]` parameter: a version, a count and whether the
      detailed sheet is wanted, lower-cased and trimmed first. */
  method ParseCocParam(param: string) returns (version: nat, count: nat, detailed: bool)
    ensures version == 6 || version == 7
    ensures 1 <= count <= 10
    ensures detailed ==> count == 1
    ensures var p := TrimJs(ToLowerAscii(param));
      (version == 6 <==> p == "6" || StartsWith(p, "6 ") || p == "6d")
      && (detailed <==> p == "d" || p == "7d" || p == "6d")
      && (p == "6" || StartsWith(p, "6 ") || p == "7" || StartsWith(p, "7 ") ==> count == AcceptCount(SecondWord(p)))
      && (!(p == "6" || StartsWith(p, "6 ") || p == "7" || StartsWith(p, "7 ")) && !(p == "d" || p == "7d" || p == "6d") ==>
            count == AcceptCount(ParseIntJs(p)))
  {
    version := 7;
    count := 1;
    detailed := false;
    var paramLower := TrimJs(ToLowerAscii(param));
    if paramLower == "6" || StartsWith(paramLower, "6 ") {
      if paramLower != "6" {
        CountFormsNotDetailed(paramLower);
      }
      version := 6;
      count := AcceptCount(SecondWord(paramLower));
    } else if paramLower == "7" || StartsWith(paramLower, "7 ") {
      if paramLower != "7" {
        CountFormsNotDetailed(paramLower);
      }
      version := 7;
      count := AcceptCount(SecondWord(paramLower));
    } else if paramLower == "d" || paramLower == "7d" {
      version := 7;
      detailed := true;
    } else if paramLower == "6d" {
      version := 6;
      detailed := true;
    } else {
      count := AcceptCount(ParseIntJs(paramLower));
    }
  }

  /** The `.coc6 [count]` and `.coc7 [count]` parameter: `d` asks for the
      detailed sheet, otherwise a count in 1..10. */
  method ParseVersionCount(param: string) returns (count: nat, detailed: bool)
    ensures 1 <= count <= 10
    ensures detailed <==> TrimJs(ToLowerAscii(param)) == "d"
    ensures detailed ==> count == 1
    ensures !detailed ==> count == AcceptCount(ParseIntJs(TrimJs(ToLowerAscii(param))))
  {
    count := 1;
    detailed := false;
    var countLower := TrimJs(ToLowerAscii(param));
    if countLower == "d" {
      detailed := true;
    } else {
      count := AcceptCount(ParseIntJs(countLower));
    }
  }

  /** Which engine generator a request calls. */
  datatype Sheet = Detailed(version: nat) | Multiple(version: nat, count: nat) | Single(version: nat)

  function SheetFor(version: nat, count: nat, detailed: bool): (s: Sheet)
    ensures s.version == version
    ensures s.Multiple? <==> !detailed && count > 1
  {
    if detailed then Detailed(version) else if count > 1 then Multiple(version, count) else Single(version)
  }

  /** The `.coc [param]` reply; `generate` is the engine's sheet generator. */
  method CocCommand(username: string, param: string, generate: Sheet -> string) returns (reply: string)
    ensures exists v: nat, n: nat, d: bool ::
      ((v == 6 || v == 7) && 1 <= n <= 10 &&
       reply == username + " 的COC" + NatToString(v) + "版人物:\n" + generate(SheetFor(v, n, d)))
  {
    var version, count, detailed := ParseCocParam(param);
    reply := username + " 的COC" + NatToString(version) + "版人物:\n" + generate(SheetFor(version, count, detailed));
  }
}
