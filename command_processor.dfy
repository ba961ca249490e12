/** wasm/src/core/command_processor.cpp: the `.r` and `.ra` argument parsers.
    Both assign their output parameters step by step, and some outputs keep
    the value the caller put there; those are in-out parameters here.  The
    C++ works on UTF-8 bytes and this model on characters: every pattern and
    prefix involved is either ASCII or a whole UTF-8 sequence, and the byte
    counts 12 and 6 dropped after the keywords are the UTF-8 lengths of
    `自动成功` and of the two-character keywords (see `Utf8.KeywordLengths`). */
module CommandProcessor {
  import opened Wrappers
  import opened Text
  import CoreUtils
  import CheckHandler

  /** The characters `.` does not match in a `std::regex`. */
  predicate IsLineBreak(c: char) { c == '\n' || c == '\r' }

  predicate NoLineBreak(s: string) { forall k :: 0 <= k < |s| ==> !IsLineBreak(s[k]) }

  /** The expression's character class: decimal digits, white space, the
      letters `dpbkDPBK` and `#`, `+`, `-`, `*`, `/`, `(`, `)`. */
  predicate IsDiceChar(c: char) {
    IsDigit(c) || c in "#dpbkDPBK+-*/()" || IsCSpace(c)
  }

  /** The `^(\d+)#(.+)$` prefix: the digits before the first `#` and the
      non-empty rest, when the whole string has that shape. */
  function RoundsPrefix(t: string): (r: Option<(string, string)>)
    ensures r.Some? ==> (r.value.0 != [] && AllDigits(r.value.0) && r.value.1 != []
      && t == r.value.0 + "#" + r.value.1 && NoLineBreak(r.value.1))
  {
    var h := CoreUtils.FirstIndexOf(t, '#');
    if 1 <= h && h + 1 < |t| && AllDigits(t[..h]) && NoLineBreak(t[h + 1..]) then
      assert t == t[..h] + "#" + t[h + 1..];
      Some((t[..h], t[h + 1..]))
    else None
  }

  /** The expression regex of `parseRollExpression`: the greedy leading run of dice
      characters and the rest, provided the rest has no line break. */
  function DiceSplit(t: string): (r: Option<(string, string)>)
    ensures r.Some? ==> (r.value.0 != [] && t == r.value.0 + r.value.1
      && (forall k :: 0 <= k < |r.value.0| ==> IsDiceChar(r.value.0[k]))
      && (r.value.1 == [] || !IsDiceChar(r.value.1[0])))
    ensures r.None? && t != [] && IsDiceChar(t[0]) ==> !NoLineBreak(t[|TakeWord(t, NotDiceChar)|..])
  {
    var run := TakeWord(t, NotDiceChar);
    if run != [] && NoLineBreak(t[|run|..]) then
      assert t == run + t[|run|..];
      Some((run, t[|run|..]))
    else None
  }

  predicate NotDiceChar(c: char) { !IsDiceChar(c) }

  function DefaultExpression(defaultDice: int): string { "1d" + IntToString(defaultDice) }

  datatype RollParse = RollParse(expression: string, reason: string, rounds: int)

  /** The expression and reason `parseRollExpression` settles on for the text
      `t` left after the rounds prefix: the trimmed dice run and the trimmed
      rest, except that a bare number, or text that does not start with a
      dice run, is all reason; an empty expression becomes the default. */
  function RollFields(t: string, defaultDice: int): (r: (string, string))
    ensures r.0 != []
  {
    match DiceSplit(t)
    case None => (DefaultExpression(defaultDice), t)
    case Some(p) =>
      var e := TrimC(p.0);
      if e != [] && AllDigits(e) then (DefaultExpression(defaultDice), t)
      else if e == [] then (DefaultExpression(defaultDice), TrimC(p.1))
      else (e, TrimC(p.1))
  }

  /** `parseRollExpression`.  `rounds0` is the caller's `rounds`, which is
      kept unless the input is empty or has an `N#` prefix.  An `N` outside
      `int` makes `std::stoi` throw out of the parser; that is `Err`. */
  method ParseRollExpression(input: string, rounds0: int, defaultDice: int) returns (r: Result<RollParse, string>)
    ensures TrimC(input) == [] ==> r == Ok(RollParse(DefaultExpression(defaultDice), "", 1))
    ensures r.Err? ==> RoundsPrefix(TrimC(input)).Some? && Stoi(RoundsPrefix(TrimC(input)).value.0).Err?
    ensures r.Ok? && TrimC(input) != [] ==>
      && (match RoundsPrefix(TrimC(input))
          case None => r.value.rounds == rounds0
          case Some(p) => Stoi(p.0).Ok? && r.value.rounds == Clamp(Stoi(p.0).value, 1, 10))
      && (r.value.expression, r.value.reason) == RollFields(AfterRounds(TrimC(input)), defaultDice)
  {
    var t := TrimC(input);
    if t == [] {
      return Ok(RollParse(DefaultExpression(defaultDice), "", 1));
    }
    var rounds := rounds0;
    match RoundsPrefix(t) {
      case Some(p) =>
        match Stoi(p.0) {
          case Err(e) => return Err(e);
          case Ok(n) => rounds := Clamp(n, 1, 10);
        }
        t := p.1;
      case None =>
    }
    var expression, reason;
    match DiceSplit(t) {
      case Some(p) =>
        expression := TrimC(p.0);
        reason := TrimC(p.1);
        if expression != [] && AllDigits(expression) {
          reason := t;
          expression := "";
        }
      case None =>
        reason := t;
        expression := "";
    }
    if expression == [] {
      expression := DefaultExpression(defaultDice);
    }
    r := Ok(RollParse(expression, reason, rounds));
  }

  /** The text left once an `N#` prefix is removed. */
  function AfterRounds(t: string): (u: string)
    ensures |u| <= |t|
  {
    match RoundsPrefix(t)
    case None => t
    case Some(p) => p.1
  }

  function Clamp(n: int, lo: int, hi: int): (r: int)
    requires lo <= hi
    ensures lo <= r <= hi
    ensures lo <= n <= hi ==> r == n
  {
    if n > hi then hi else if n < lo then lo else n
  }

  /** A trimmed expression of dice characters that is not a bare number is
      taken whole, with no reason, and the caller's rounds are kept. */
  lemma PlainExpressionTakenWhole(t: string, defaultDice: int)
    requires t != [] && TrimC(t) == t && RoundsPrefix(t).None?
    requires forall k :: 0 <= k < |t| ==> IsDiceChar(t[k])
    requires !AllDigits(t)
    ensures RollFields(t, defaultDice) == (t, "")
  {
    TakeWordAll(t, NotDiceChar);
    assert DiceSplit(t) == Some((t, ""));
    assert TrimC("") == "";
  }

  /** A bare number is a reason, and the default die is rolled. */
  lemma BareNumberIsReason(t: string, defaultDice: int)
    requires t != [] && AllDigits(t)
    ensures RollFields(t, defaultDice) == (DefaultExpression(defaultDice), t)
  {
    assert forall k :: 0 <= k < |t| ==> IsDiceChar(t[k]);
    TakeWordAll(t, NotDiceChar);
    assert DiceSplit(t) == Some((t, ""));
    assert TrimC(t) == t by {
      TrimStartNoSpace(t, IsCSpace);
      assert TrimEnd(t, IsCSpace) == t;
    }
  }

  lemma {:induction false} TakeWordAll(s: string, ws: char -> bool)
    requires forall k :: 0 <= k < |s| ==> !ws(s[k])
    ensures TakeWord(s, ws) == s
  {
    if s != [] { TakeWordAll(s[1..], ws); }
  }

  /** A reason with no dice character at its head is split off the expression. */
  lemma ExpressionThenReason(e: string, reason: string, defaultDice: int)
    requires e != [] && forall k :: 0 <= k < |e| ==> IsDiceChar(e[k])
    requires reason != [] && !IsDiceChar(reason[0]) && NoLineBreak(reason)
    requires !AllDigits(TrimC(e))
    ensures RollFields(e + reason, defaultDice)
         == (if TrimC(e) == [] then DefaultExpression(defaultDice) else TrimC(e), TrimC(reason))
  {
    var t := e + reason;
    TakeWordConcat(e, reason, NotDiceChar);
    assert t[|e|..] == reason;
    assert DiceSplit(t) == Some((e, reason));
  }

  lemma {:induction false} TakeWordConcat(a: string, b: string, ws: char -> bool)
    requires forall k :: 0 <= k < |a| ==> !ws(a[k])
    requires b != [] && ws(b[0])
    ensures TakeWord(a + b, ws) == a
  {
    if a == [] {
      assert a + b == b;
    } else {
      assert (a + b)[1..] == a[1..] + b;
      TakeWordConcat(a[1..], b, ws);
    }
  }

  /** The `^(\d+)#([pb]?)(.+)$` prefix of `.ra` (case-insensitive): the digits,
      the bonus (-1 for `p`, +1 for `b`) and the text after them.  `[pb]?`
      takes the letter only when something is left after it for `.+`. */
  function CheckRoundsPrefix(t: string): (r: Option<(string, Option<int>, string)>)
    ensures r.Some? ==> (r.value.0 != [] && AllDigits(r.value.0) && r.value.2 != [])
  {
    var h := CoreUtils.FirstIndexOf(t, '#');
    if 1 <= h && h + 1 < |t| && AllDigits(t[..h]) && NoLineBreak(t[h + 1..]) then
      var after := t[h + 1..];
      if |after| >= 2 && after[0] in "pP" then Some((t[..h], Some(-1), after[1..]))
      else if |after| >= 2 && after[0] in "bB" then Some((t[..h], Some(1), after[1..]))
      else Some((t[..h], None, after))
    else None
  }

  function AfterCheckRounds(t: string): string {
    match CheckRoundsPrefix(t)
    case None => t
    case Some(p) => p.2
  }

  /** The difficulty keyword at the head of the expression, if any: the
      auto-success flag, the difficulty it selects and the text after it. */
  function Keyword(e: string): (r: (bool, Option<CheckHandler.Difficulty>, string))
    ensures r.0 ==> r.1.None?
    ensures !r.0 && r.1.None? ==> r.2 == e
    ensures |r.2| <= |e|
  {
    if StartsWith(e, "自动成功") then (true, None, e[4..])
    else if StartsWith(e, "困难") then (false, Some(CheckHandler.Hard), e[2..])
    else if StartsWith(e, "极难") || StartsWith(e, "极限") then (false, Some(CheckHandler.Extreme), e[2..])
    else (false, None, e)
  }

  /** `s.find_last_of(c)`, with `|s|` standing for `npos`. */
  function LastIndexOf(s: string, c: char): (i: nat)
    ensures i <= |s| && (i < |s| ==> s[i] == c)
    ensures i < |s| ==> forall k :: i < k < |s| ==> s[k] != c
    ensures i == |s| ==> forall k :: 0 <= k < |s| ==> s[k] != c
  {
    var j := LastBefore(s, c, |s|);
    if j < 0 then |s| else j
  }

  /** The last position before `n` that holds `c`, or -1. */
  function LastBefore(s: string, c: char, n: nat): (i: int)
    requires n <= |s|
    ensures -1 <= i < n && (0 <= i ==> s[i] == c)
    ensures forall k :: i < k < n ==> s[k] != c
  {
    if n == 0 then -1
    else if s[n - 1] == c then n - 1
    else LastBefore(s, c, n - 1)
  }

  /** The skill name and value: the text after the last space is read with
      `std::stoi`; when it does not read, or there is no space, the whole
      expression is the name and the value is -1. */
  function SplitSkill(e: string): (r: (string, int))
  {
    var sp := LastIndexOf(e, ' ');
    if sp == |e| then (e, -1)
    else
      match Stoi(TrimC(e[sp + 1..]))
      case Ok(v) => (TrimC(e[..sp]), v)
      case Err(_) => (e, -1)
  }

  /** When the text after the last space reads as a number, it is the
      value and the trimmed text before the space is the name. */
  lemma SplitSkillNumber(e: string, sp: nat, v: int)
    requires sp == LastIndexOf(e, ' ') && sp < |e| && Stoi(TrimC(e[sp + 1..])) == Ok(v)
    ensures SplitSkill(e) == (TrimC(e[..sp]), v)
  {
  }

  /** When it does not read, the whole expression is the name. */
  lemma SplitSkillNoNumber(e: string, sp: nat)
    requires sp == LastIndexOf(e, ' ') && sp < |e| && Stoi(TrimC(e[sp + 1..])).Err?
    ensures SplitSkill(e) == (e, -1)
  {
  }

  /** The last step of `parseCheckExpression`, as the C++ assigns it. */
  method SkillNameAndValue(expr: string) returns (skillName: string, skillValue: int)
    ensures (skillName, skillValue) == SplitSkill(expr)
  {
    var sp := LastIndexOf(expr, ' ');
    if sp == |expr| {
      return expr, -1;
    }
    var parsed := Stoi(TrimC(expr[sp + 1..]));
    if parsed.Ok? {
      skillName, skillValue := TrimC(expr[..sp]), parsed.value;
      SplitSkillNumber(expr, sp, parsed.value);
    } else {
      skillName, skillValue := expr, -1;
      SplitSkillNoNumber(expr, sp);
    }
  }

  datatype CheckParse = CheckParse(skillName: string, skillValue: int, rounds: int, bonusDice: int,
                                   difficulty: CheckHandler.Difficulty, autoSuccess: bool)

  /** `parseCheckExpression`.  `rounds0`, `bonus0`, `difficulty0` and `auto0`
      are what the caller put in the corresponding in-out parameters.  An `N`
      outside `int` makes `std::stoi` throw out of the parser; that is `Err`. */
  method ParseCheckExpression(input: string, rounds0: int, bonus0: int,
                              difficulty0: CheckHandler.Difficulty, auto0: bool)
    returns (r: Result<CheckParse, string>)
    ensures r.Err? <==> CheckRoundsPrefix(TrimC(input)).Some? && Stoi(CheckRoundsPrefix(TrimC(input)).value.0).Err?
    ensures r.Ok? ==>
      && (match CheckRoundsPrefix(TrimC(input))
          case None => r.value.rounds == rounds0 && r.value.bonusDice == bonus0
          case Some(p) =>
            && r.value.rounds == (if Stoi(p.0).value < 10 then Stoi(p.0).value else 10)
            && r.value.bonusDice == p.1.GetOr(bonus0))
      && var k := Keyword(TrimC(AfterCheckRounds(TrimC(input))));
         && r.value.autoSuccess == (k.0 || auto0)
         && r.value.difficulty == k.1.GetOr(difficulty0)
         && (r.value.skillName, r.value.skillValue) == SplitSkill(TrimC(k.2))
  {
    var expr := TrimC(input);
    var rounds, bonus, difficulty, autoSuccess := rounds0, bonus0, difficulty0, auto0;
    match CheckRoundsPrefix(expr) {
      case Some(p) =>
        match Stoi(p.0) {
          case Err(e) => return Err(e);
          case Ok(n) => rounds := if n < 10 then n else 10;
        }
        if p.1.Some? {
          bonus := p.1.value;
        }
        expr := p.2;
      case None =>
    }
    assert expr == AfterCheckRounds(TrimC(input));
    expr, difficulty, autoSuccess := StripKeyword(TrimC(expr), difficulty, autoSuccess);
    expr := TrimC(expr);
    var skillName, skillValue := SkillNameAndValue(expr);
    r := Ok(CheckParse(skillName, skillValue, rounds, bonus, difficulty, autoSuccess));
  }

  /** The keyword step of `parseCheckExpression`: a leading keyword sets the
      auto-success flag or the difficulty and is cut off. */
  method StripKeyword(e: string, difficulty0: CheckHandler.Difficulty, auto0: bool)
    returns (rest: string, difficulty: CheckHandler.Difficulty, autoSuccess: bool)
    ensures var k := Keyword(e);
      rest == k.2 && autoSuccess == (k.0 || auto0) && difficulty == k.1.GetOr(difficulty0)
  {
    rest, difficulty, autoSuccess := e, difficulty0, auto0;
    if StartsWith(e, "自动成功") {
      autoSuccess := true;
      rest := e[4..];
    } else if StartsWith(e, "困难") {
      difficulty := CheckHandler.Hard;
      rest := e[2..];
    } else if StartsWith(e, "极难") || StartsWith(e, "极限") {
      difficulty := CheckHandler.Extreme;
      rest := e[2..];
    }
  }

  /** A skill name without spaces followed by a space and a rendered `int`
      reads back as that name and value. */
  lemma SplitSkillRoundTrip(name: string, v: int)
    requires TrimC(name) == name
    requires forall k :: 0 <= k < |name| ==> name[k] != ' '
    requires IntMin <= v <= IntMax
    ensures SplitSkill(name + " " + IntToString(v)) == (name, v)
  {
    var digits := IntToString(v);
    var e := name + " " + digits;
    assert LastIndexOf(e, ' ') == |name| by {
      NoSpaceInRendering(v);
      LastIndexOfAt(e, ' ', |name|);
    }
    assert e[..|name|] == name;
    assert e[|name| + 1..] == digits;
    assert Stoi(TrimC(digits)) == Ok(v) by {
      CoreUtils.RenderingTrimmed(v);
      StoiOfRendering(v);
    }
  }

  lemma NoSpaceInRendering(v: int)
    ensures forall k :: 0 <= k < |IntToString(v)| ==> IntToString(v)[k] != ' '
  {
    var s := IntToString(v);
    if v < 0 { assert s[1..] == NatToString(-v); }
    forall k | 0 <= k < |s| ensures s[k] != ' ' {
      if v < 0 && k > 0 { assert s[k] == NatToString(-v)[k - 1]; }
    }
  }

  lemma LastIndexOfAt(s: string, c: char, i: nat)
    requires i < |s| && s[i] == c && forall k :: i < k < |s| ==> s[k] != c
    ensures LastIndexOf(s, c) == i
  {
  }

  /** With no space at all, the whole expression is the name and the value
      is to be looked up on the character card (-1). */
  lemma SplitSkillWithoutSpace(e: string)
    requires forall k :: 0 <= k < |e| ==> e[k] != ' '
    ensures SplitSkill(e) == (e, -1)
  {
  }
}
