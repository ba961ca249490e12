/** src/commands/game.ts: the `.game` subcommands over the game-session
    service.  Each handler is a function of the service state that gives the
    new state and the reply; the rule prefix of a new game's name, the
    roulette pool and the GM-only gating are the logic of their own. */
module GameCommands {
  import opened Wrappers
  import opened Text
  import JsValues
  import opened OrderedMaps
  import GS = GameSessions

  /** The alternatives of `^(COC7?|DND5?E?|Maid)-(.+)$`. */
  const RuleNames: seq<string> := ["COC7", "COC", "DND5E", "DND5", "DNDE", "DND", "Maid"]

  /** The characters `.` does not match in a JavaScript regular expression. */
  predicate IsLineTerminator(c: char)
  {
    c == '\n' || c == '\r' || c == '\U{2028}' || c == '\U{2029}'
  }

  predicate NoLineBreak(s: string)
  {
    forall k :: 0 <= k < |s| ==> !IsLineTerminator(s[k])
  }

  /** `rule-rest` for the first rule of `rules` that the name starts with,
      the rest being non-empty and on one line. */
  function SplitRuleFrom(name: string, rules: seq<string>): (r: Option<(string, string)>)
    ensures r.Some? ==> r.value.0 in rules && name == r.value.0 + "-" + r.value.1
                        && r.value.1 != [] && NoLineBreak(r.value.1)
  {
    if rules == [] then None
    else
      var rule := rules[0];
      if StartsWith(name, rule + "-") && |name| > |rule| + 1 && NoLineBreak(name[|rule| + 1..]) then
        assert name == name[..|rule| + 1] + name[|rule| + 1..];
        Some((rule, name[|rule| + 1..]))
      else SplitRuleFrom(name, rules[1..])
  }

  /** The match of the rule pattern against a new game's name: the rule
      and the game name. */
  function SplitRule(name: string): (r: Option<(string, string)>)
    ensures r.Some? ==> r.value.0 in RuleNames && name == r.value.0 + "-" + r.value.1
                        && r.value.1 != [] && NoLineBreak(r.value.1)
  {
    SplitRuleFrom(name, RuleNames)
  }

  predicate NoDash(s: string) { forall k :: 0 <= k < |s| ==> s[k] != '-' }

  lemma RuleNamesHaveNoDash()
    ensures forall r :: r in RuleNames ==> NoDash(r)
  {
    assert NoDash("COC7") && NoDash("COC") && NoDash("DND5E") && NoDash("DND5");
    assert NoDash("DNDE") && NoDash("DND") && NoDash("Maid");
  }

  /** A rule name without `-` followed by `-` is the only dash-free word
      that, followed by `-`, starts the string. */
  lemma OnlyOneRuleFits(a: string, b: string, rest: string)
    requires NoDash(a) && NoDash(b) && a != b
    ensures !StartsWith(a + "-" + rest, b + "-")
  {
    var s := a + "-" + rest;
    if |b| + 1 <= |s| {
      if |b| < |a| {
        assert s[|b|] == a[|b|];
      } else if |b| > |a| {
        assert s[|a|] == '-';
        assert (b + "-")[|a|] == b[|a|];
      } else {
        assert s[..|b|] == a;
        assert (b + "-")[..|b|] == b;
      }
    }
  }

  lemma {:induction false} SplitRuleFromFinds(rules: seq<string>, rule: string, rest: string)
    requires rule in rules && forall r :: r in rules ==> NoDash(r)
    requires rest != [] && NoLineBreak(rest)
    ensures SplitRuleFrom(rule + "-" + rest, rules) == Some((rule, rest))
    decreases |rules|
  {
    var name := rule + "-" + rest;
    if rules[0] == rule {
      assert name[..|rule| + 1] == rule + "-";
      assert name[|rule| + 1..] == rest;
    } else {
      OnlyOneRuleFits(rule, rules[0], rest);
      SplitRuleFromFinds(rules[1..], rule, rest);
    }
  }

  /** Every `rule-name` with a rule of the pattern and a one-line name
      splits back into that rule and that name. */
  lemma SplitRuleRoundTrip(rule: string, rest: string)
    requires rule in RuleNames && rest != [] && NoLineBreak(rest)
    ensures SplitRule(rule + "-" + rest) == Some((rule, rest))
  {
    RuleNamesHaveNoDash();
    SplitRuleFromFinds(RuleNames, rule, rest);
  }

  const NoGame: string := "当前窗口没有进行中的游戏"

  /** The game of the session's window, `None` when there is none. */
  function CurrentGame(s: GS.ServiceState, session: GS.Session): Option<GS.Game>
  {
    match GS.SessionOf(s.table, session.platform, GS.WindowOf(session))
    case None => None
    case Some(i) => Some(s.table[i])
  }

  /** `.game new [name]`: refused when the window has a game; otherwise the
      game is created (named after the part behind a rule prefix), the rule
      stored in its configuration and the creator made its GM. */
  function NewGame(s: GS.ServiceState, session: GS.Session, name: Option<string>): (GS.ServiceState, string)
  {
    match CurrentGame(s, session)
    case Some(existing) => (s, "当前窗口已有游戏「" + existing.name + "」，请先使用 .game over 结束")
    case None =>
      var split := if GS.Truthy(name) then SplitRule(name.value) else None;
      var gameName := if split.Some? then Some(split.value.1) else name;
      var (s1, created) := GS.CreateSession(s, session, gameName);
      match created
      case Err(message) => (s1, "创建游戏失败: " + message)
      case Ok(game) =>
        var t2 := if split.Some? then GS.SetConfig(s1.table, game.id, "rule", JsValues.Str(split.value.0)) else s1.table;
        var t3 := GS.AddMember(t2, game.id, GS.GMs, session.userId).0;
        (s1.(table := t3),
         "已创建游戏「" + game.name + "」" + (if split.Some? then "，规则：" + split.value.0 else "") + "\n你已成为 GM")
  }

  /** A new game is the last row, its creator is its only GM, and a rule
      prefix of its name is stored as the `rule` setting. */
  lemma NewGameSpec(s: GS.ServiceState, session: GS.Session, name: string)
    requires GS.IdsFresh(s) && CurrentGame(s, session).None?
    requires name != []
    requires GS.SessionByName(s.table, if SplitRule(name).Some? then SplitRule(name).value.1 else name,
                              session.platform).None?
    ensures var s' := NewGame(s, session, Some(name)).0;
      |s'.table| == |s.table| + 1
      && s'.table[|s.table|].gmList == [session.userId]
      && s'.table[|s.table|].areas == [GS.WindowOf(session)]
      && (SplitRule(name).None? ==> s'.table[|s.table|].name == name)
      && (SplitRule(name).Some? ==>
            Get(s'.table[|s.table|].config, "rule") == Some(JsValues.Str(SplitRule(name).value.0)))
  {
    var split := SplitRule(name);
    var gameName := if split.Some? then Some(split.value.1) else Some(name);
    var (s1, created) := GS.CreateSession(s, session, gameName);
    GS.CreateSessionSpec(s, session, gameName);
    assert created.Ok?;
    var g := created.value;
    var n := |s.table|;
    assert GS.FindGame(s1.table, g.id) == Some(n);
    var t2 := if split.Some? then GS.SetConfig(s1.table, g.id, "rule", JsValues.Str(split.value.0)) else s1.table;
    if split.Some? {
      GS.FindGameAfterUpdate(s1.table, n, s1.table[n].(config := Put(s1.table[n].config, "rule", JsValues.Str(split.value.0))), g.id);
    }
    assert GS.FindGame(t2, g.id) == Some(n);
    GS.AddMemberSpec(t2, g.id, GS.GMs, session.userId);
  }

  /** A roster as `.game state` lists it: the ids joined by `, `, or `无`
      when that text is empty. */
  function RosterText(l: seq<string>): (r: string)
    ensures l == [] ==> r == "无"
    ensures l != [] && l[0] != [] ==> r == Join(l, ", ")
  {
    var joined := Join(l, ", ");
    if joined == [] then "无" else joined
  }

  /** A setting `.game state` shows when it is truthy. */
  function SettingLine(config: JsValues.Fields, key: string, caption: string): seq<string>
  {
    match Get(config, key)
    case Some(v) => if JsValues.Truthy(v) then [caption + JsValues.ToJsString(v)] else []
    case None => []
  }

  /** The lines of `.game state` for a game. */
  function StateLines(g: GS.Game): seq<string>
  {
    ["游戏「" + g.name + "」",
     "GM (" + NatToString(|g.gmList|) + "): " + RosterText(g.gmList),
     "玩家 (" + NatToString(|g.playerList|) + "): " + RosterText(g.playerList),
     "旁观 (" + NatToString(|g.observerList|) + "): " + RosterText(g.observerList),
     "区域 (" + NatToString(|g.areas|) + "): " + NatToString(|g.areas|) + " 个窗口"]
    + SettingLine(g.config, "rule", "规则: ") + SettingLine(g.config, "rr_rc", "检定房规: ")
  }

  /** `.game state`: the window's game described line by line; it changes
      nothing. */
  function State(s: GS.ServiceState, session: GS.Session): string
  {
    match CurrentGame(s, session)
    case None => NoGame
    case Some(game) => Join(StateLines(game), "\n")
  }

  /** `.game master`: a user not yet GM becomes one. */
  function Master(s: GS.ServiceState, session: GS.Session): (GS.ServiceState, string)
  {
    match CurrentGame(s, session)
    case None => (s, NoGame)
    case Some(game) =>
      if GS.IsGM(game, session.userId) then (s, "你已经是 GM 了")
      else (s.(table := GS.AddMember(s.table, game.id, GS.GMs, session.userId).0), "你已成为 GM")
  }

  /** `.game join`: the user joins the players. */
  function JoinGame(s: GS.ServiceState, session: GS.Session): (GS.ServiceState, string)
  {
    match CurrentGame(s, session)
    case None => (s, NoGame)
    case Some(game) =>
      var (t, ok) := GS.AddMember(s.table, game.id, GS.Players, session.userId);
      (s.(table := t), if ok then "你已加入游戏" else "你已经在游戏中了")
  }

  /** `.game exit`: the user leaves the players and then the GMs. */
  function Exit(s: GS.ServiceState, session: GS.Session): (GS.ServiceState, string)
  {
    match CurrentGame(s, session)
    case None => (s, NoGame)
    case Some(game) =>
      var (t1, removedPlayer) := GS.RemoveMember(s.table, game.id, GS.Players, session.userId);
      var (t2, removedGM) := GS.RemoveMember(t1, game.id, GS.GMs, session.userId);
      (s.(table := t2), if removedPlayer || removedGM then "你已退出游戏" else "你不在游戏中")
  }

  /** An @-mention of one user. */
  function Mention(uid: string): string
  {
    "<at id=\"" + uid + "\"/>"
  }

  /** `playerList.map(uid => <at id="uid"/>)` */
  function MentionsOf(l: seq<string>): (ms: seq<string>)
    ensures |ms| == |l| && forall k :: 0 <= k < |l| ==> ms[k] == Mention(l[k])
  {
    seq(|l|, k requires 0 <= k < |l| => Mention(l[k]))
  }

  /** `.game call`: GM only; every player is mentioned. */
  function Call(s: GS.ServiceState, session: GS.Session): string
  {
    match CurrentGame(s, session)
    case None => NoGame
    case Some(game) =>
      if !GS.IsGM(game, session.userId) then GMOnly("呼叫玩家")
      else if game.playerList == [] then "当前游戏没有玩家"
      else Join(MentionsOf(game.playerList), " ") + "\nGM 呼叫全体玩家"
  }

  /** `.game open <name>`: a GM or player of the named game on this
      platform adds the current window to its areas. */
  function Open(s: GS.ServiceState, session: GS.Session, gameName: Option<string>): (GS.ServiceState, string)
  {
    if !GS.Truthy(gameName) then (s, "请指定游戏名称")
    else
      match GS.SessionByName(s.table, gameName.value, session.platform)
      case None => (s, "游戏「" + gameName.value + "」不存在")
      case Some(i) =>
        var game := s.table[i];
        if !GS.IsGM(game, session.userId) && !GS.IsPlayer(game, session.userId) then
          (s, "只有 GM 或玩家可以打开游戏窗口")
        else
          (s.(table := GS.AddMember(s.table, game.id, GS.Areas, GS.WindowOf(session)).0),
           "当前窗口已加入游戏「" + game.name + "」")
  }

  /** The reply of a GM-only command to a user who is not GM. */
  function GMOnly(action: string): string
  {
    "只有 GM 可以" + action
  }

  /** `.game kick <userId>`: GM only; the user is taken off the players
      and the observers. */
  function Kick(s: GS.ServiceState, session: GS.Session, target: Option<string>): (GS.ServiceState, string)
  {
    match CurrentGame(s, session)
    case None => (s, NoGame)
    case Some(game) =>
      if !GS.IsGM(game, session.userId) then (s, GMOnly("踢出玩家"))
      else if !GS.Truthy(target) then (s, "请指定要踢出的玩家 ID")
      else
        var (t1, removedPlayer) := GS.RemoveMember(s.table, game.id, GS.Players, target.value);
        var (t2, removedOb) := GS.RemoveMember(t1, game.id, GS.Observers, target.value);
        (s.(table := t2), if removedPlayer || removedOb then "已将 " + target.value + " 踢出游戏"
                         else target.value + " 不在游戏中")
  }

  /** A setting as the reply shows it: `(未设置)` for `undefined`. */
  function ConfigText(v: Option<JsValues.Lookup<JsValues.Value>>): string
  {
    match v
    case None => "(未设置)"
    case Some(Own(x)) => JsValues.ToJsString(x)
    case Some(Inherited(m)) => JsValues.InheritedText(m)
  }

  /** `.game set <key> [value]`: GM only; without a value it shows the
      setting, with one it stores it. */
  function SetCommand(s: GS.ServiceState, session: GS.Session, key: Option<string>, value: Option<string>)
    : (GS.ServiceState, string)
  {
    match CurrentGame(s, session)
    case None => (s, NoGame)
    case Some(game) =>
      if !GS.IsGM(game, session.userId) then (s, GMOnly("设置游戏配置"))
      else if !GS.Truthy(key) then (s, "请指定配置项")
      else if value.None? then
        var v := GS.GetConfig(s.table, game.id, key.value);
        (s, key.value + " = " + ConfigText(v))
      else
        (s.(table := GS.SetConfig(s.table, game.id, key.value, JsValues.Str(value.value))),
         "已设置 " + key.value + " = " + value.value)
  }

  /** `.game close`: GM only; the window leaves the game's areas. */
  function Close(s: GS.ServiceState, session: GS.Session): (GS.ServiceState, string)
  {
    match CurrentGame(s, session)
    case None => (s, NoGame)
    case Some(game) =>
      if !GS.IsGM(game, session.userId) then (s, GMOnly("关闭游戏窗口"))
      else
        (s.(table := GS.RemoveMember(s.table, game.id, GS.Areas, GS.WindowOf(session)).0),
         "已将当前窗口从游戏「" + game.name + "」移除")
  }

  /** `.game over`: GM only; the game is destroyed. */
  function Over(s: GS.ServiceState, session: GS.Session): (GS.ServiceState, string)
  {
    match CurrentGame(s, session)
    case None => (s, NoGame)
    case Some(game) =>
      if !GS.IsGM(game, session.userId) then (s, GMOnly("销毁游戏"))
      else (s.(table := GS.Destroy(s.table, game.id)), "游戏「" + game.name + "」已结束")
  }

  /** `^(\d+)(?:\*(\d+))?$`: the face count and the copy count, which is 1
      when the `*n` part is absent. */
  function RouletteArgs(action: string): (r: Option<(nat, nat)>)
  {
    var d := DigitPrefix(action);
    var rest := action[|d|..];
    if d == [] then None
    else if rest == [] then Some((DigitsValue(d), 1))
    else if rest[0] == '*' && |rest| > 1 && AllDigits(rest[1..]) then Some((DigitsValue(d), DigitsValue(rest[1..])))
    else None
  }

  /** The action forms `face` and `face*copy` read back as written. */
  lemma RouletteArgsRoundTrip(face: nat, copy: nat)
    ensures RouletteArgs(NatToString(face)) == Some((face, 1))
    ensures RouletteArgs(NatToString(face) + "*" + NatToString(copy)) == Some((face, copy))
  {
    var f := NatToString(face);
    var c := NatToString(copy);
    NatToStringValue(face);
    NatToStringValue(copy);
    DigitPrefixAll(f);
    assert f[|f|..] == [];
    DigitPrefixStops(f, "*" + c);
    assert f + "*" + c == f + ("*" + c);
    assert (f + "*" + c)[|f|..] == "*" + c;
    assert ("*" + c)[1..] == c;
  }

  /** The value `v` written `n` times. */
  function Repeat(v: int, n: nat): (r: seq<int>)
    ensures |r| == n && forall k :: 0 <= k < n ==> r[k] == v
  {
    seq(n, k => v)
  }

  /** The pool: each face 1..face, `copy` times, in ascending order. */
  function Pool(face: nat, copy: nat): (r: seq<int>)
  {
    if face == 0 then [] else Pool(face - 1, copy) + Repeat(face, copy)
  }

  /** The pool holds face times copy values, in ascending order, each
      between 1 and face, and each face exactly copy times. */
  lemma {:induction false} PoolShape(face: nat, copy: nat)
    ensures |Pool(face, copy)| == face * copy
    ensures forall k :: 0 <= k < |Pool(face, copy)| ==> 1 <= Pool(face, copy)[k] <= face
    ensures forall a, b :: 0 <= a < b < |Pool(face, copy)| ==> Pool(face, copy)[a] <= Pool(face, copy)[b]
    ensures forall v :: 1 <= v <= face ==> multiset(Pool(face, copy))[v] == copy
    ensures forall v :: !(1 <= v <= face) ==> multiset(Pool(face, copy))[v] == 0
    decreases face
  {
    if face > 0 {
      var p := Pool(face - 1, copy);
      var q := Repeat(face, copy);
      PoolShape(face - 1, copy);
      assert Pool(face, copy) == p + q;
      assert |p + q| == (face - 1) * copy + copy == face * copy;
      assert multiset(p + q) == multiset(p) + multiset(q);
      RepeatCount(face, copy);
      forall a, b | 0 <= a < b < |p + q| ensures (p + q)[a] <= (p + q)[b] {
        if b < |p| {
          assert (p + q)[a] == p[a] && (p + q)[b] == p[b];
        } else if a < |p| {
          assert (p + q)[a] == p[a] && (p + q)[b] == face;
        }
      }
    }
  }

  lemma {:induction false} RepeatCount(v: int, n: nat)
    ensures multiset(Repeat(v, n))[v] == n
    ensures forall w :: w != v ==> multiset(Repeat(v, n))[w] == 0
    decreases n
  {
    if n > 0 {
      RepeatCount(v, n - 1);
      assert Repeat(v, n) == Repeat(v, n - 1) + [v];
    }
  }

  /** The nested loops that fill the pool. */
  method BuildPool(face: nat, copy: nat) returns (pool: seq<int>)
    ensures pool == Pool(face, copy)
  {
    pool := [];
    var i := 1;
    while i <= face
      invariant 1 <= i <= face + 1
      invariant pool == Pool(i - 1, copy)
    {
      var j := 0;
      while j < copy
        invariant 0 <= j <= copy
        invariant pool == Pool(i - 1, copy) + Repeat(i, j)
      {
        assert Repeat(i, j + 1) == Repeat(i, j) + [i];
        pool := pool + [i];
        j := j + 1;
      }
      i := i + 1;
    }
  }

  /** The validation of a roulette: 2..100 faces, at most 100 values. */
  function RouletteCheck(face: nat, copy: nat): (r: Option<string>)
    ensures r.None? <==> 2 <= face <= 100 && face * copy <= 100
  {
    if face > 100 || face < 2 then Some("骰子面数必须在 2-100 之间")
    else if face * copy > 100 then Some("总数不能超过 100")
    else None
  }

  /** The stored roulette: `{ face, copy, pool, sizRes }`. */
  function RouletteData(face: nat, copy: nat): JsValues.Value
  {
    var pool := Pool(face, copy);
    JsValues.Obj([("face", JsValues.Num(face)), ("copy", JsValues.Num(copy)),
                  ("pool", JsValues.Arr(seq(|pool|, k requires 0 <= k < |pool| => JsValues.Num(pool[k])))),
                  ("sizRes", JsValues.Num(|pool|))])
  }

  /** The reply of `.game rou`; `History` is the listing of `hist`, which is
      display only. */
  datatype RouReply = Text(text: string) | History(game: GS.Game)

  /** `.game rou <action>`. */
  function Rou(s: GS.ServiceState, session: GS.Session, action: Option<string>): (GS.ServiceState, RouReply)
  {
    match CurrentGame(s, session)
    case None => (s, Text(NoGame))
    case Some(game) =>
      if !GS.Truthy(action) then (s, Text("请指定操作：数字、hist、reset 或 clr"))
      else if action.value == "hist" then
        (s, if game.roulette == [] then Text("当前没有轮盘骰") else History(game))
      else if !GS.IsGM(game, session.userId) then (s, Text(GMOnly("设置轮盘骰")))
      else if action.value == "reset" then (s, Text("轮盘骰已重置"))
      else if action.value == "clr" || action.value == "clear" then
        (s.(table := GS.ClearRoulette(s.table, game.id)), Text("轮盘骰已清空"))
      else match RouletteArgs(action.value)
        case None => (s, Text("无效的参数，请使用数字、hist、reset 或 clr"))
        case Some((face, copy)) =>
          match RouletteCheck(face, copy)
          case Some(error) => (s, Text(error))
          case None =>
            (s.(table := GS.SetRoulette(s.table, game.id, face, RouletteData(face, copy))),
             Text("已设置 D" + NatToString(face) + (if copy > 1 then "*" + NatToString(copy) else "") + " 轮盘骰"))
  }

  /** A user who is not the window's GM changes nothing with kick, set,
      close, over or any roulette action, is told so, and cannot call the players. */
  lemma NonGMChangesNothing(s: GS.ServiceState, session: GS.Session, target: Option<string>,
                            key: Option<string>, value: Option<string>, action: Option<string>)
    requires CurrentGame(s, session).Some? && !GS.IsGM(CurrentGame(s, session).value, session.userId)
    ensures Kick(s, session, target) == (s, GMOnly("踢出玩家"))
    ensures SetCommand(s, session, key, value) == (s, GMOnly("设置游戏配置"))
    ensures Close(s, session) == (s, GMOnly("关闭游戏窗口"))
    ensures Over(s, session) == (s, GMOnly("销毁游戏"))
    ensures Call(s, session) == GMOnly("呼叫玩家")
    ensures Rou(s, session, action).0 == s
    ensures GS.Truthy(action) && action.value != "hist" ==> Rou(s, session, action).1 == Text(GMOnly("设置轮盘骰"))
  {
  }

  /** `.game kick` by the GM takes one occurrence of the user off the
      players and one off the observers of the window's game, leaves its GMs
      alone, and says whether the user was in the game. */
  lemma KickByGM(s: GS.ServiceState, session: GS.Session, target: string)
    requires GS.UniqueIds(s.table)
    requires CurrentGame(s, session).Some? && GS.IsGM(CurrentGame(s, session).value, session.userId)
    requires target != []
    ensures var g := CurrentGame(s, session).value;
      var i := GS.SessionOf(s.table, session.platform, GS.WindowOf(session)).value;
      var (s', reply) := Kick(s, session, Some(target));
      |s'.table| == |s.table|
      && multiset(s'.table[i].playerList) == multiset(g.playerList) - multiset{target}
      && multiset(s'.table[i].observerList) == multiset(g.observerList) - multiset{target}
      && s'.table[i].gmList == g.gmList
      && (forall j :: 0 <= j < |s.table| && j != i ==> s'.table[j] == s.table[j])
      && ((target in g.playerList || target in g.observerList) ==> reply == "已将 " + target + " 踢出游戏")
      && (!(target in g.playerList || target in g.observerList) ==> reply == target + " 不在游戏中")
  {
    var g := CurrentGame(s, session).value;
    var i := GS.SessionOf(s.table, session.platform, GS.WindowOf(session)).value;
    CurrentGameRow(s, session);
    var (t1, p) := GS.RemoveMember(s.table, g.id, GS.Players, target);
    var (t2, o) := GS.RemoveMember(t1, g.id, GS.Observers, target);
    RemoveFromBoth(s.table, i, g.id, target);
    assert Kick(s, session, Some(target))
      == (s.(table := t2), if p || o then "已将 " + target + " 踢出游戏" else target + " 不在游戏中");
  }

  /** Taking a user off the players and then off the observers of the game in
      row `i`: each roster loses one occurrence, and each removal reports
      whether the user was on that roster. */
  lemma RemoveFromBoth(t: GS.Table, i: nat, id: int, x: string)
    requires GS.FindGame(t, id) == Some(i)
    ensures var (t1, p) := GS.RemoveMember(t, id, GS.Players, x);
      var (t2, o) := GS.RemoveMember(t1, id, GS.Observers, x);
      |t2| == |t|
      && multiset(t2[i].playerList) == multiset(t[i].playerList) - multiset{x}
      && multiset(t2[i].observerList) == multiset(t[i].observerList) - multiset{x}
      && t2[i].gmList == t[i].gmList
      && (forall j :: 0 <= j < |t| && j != i ==> t2[j] == t[j])
      && (p <==> x in t[i].playerList)
      && (o <==> x in t[i].observerList)
  {
    var (t1, p) := GS.RemoveMember(t, id, GS.Players, x);
    RemoveOneRoster(t, i, id, GS.Players, x);
    GS.FindGameSameIds(t, t1, id);
    RemoveOneRoster(t1, i, id, GS.Observers, x);
  }

  /** One removal from roster `r` of the game in row `i`, in the terms
      `RemoveFromBoth` needs. */
  lemma RemoveOneRoster(t: GS.Table, i: nat, id: int, r: GS.Roster, x: string)
    requires GS.FindGame(t, id) == Some(i)
    ensures var (t', ok) := GS.RemoveMember(t, id, r, x);
      |t'| == |t|
      && multiset(GS.Members(t'[i], r)) == multiset(GS.Members(t[i], r)) - multiset{x}
      && (forall other :: other != r ==> GS.Members(t'[i], other) == GS.Members(t[i], other))
      && (forall j :: 0 <= j < |t| ==> t'[j].id == t[j].id)
      && (forall j :: 0 <= j < |t| && j != i ==> t'[j] == t[j])
      && (ok <==> x in GS.Members(t[i], r))
      && (!ok ==> t' == t)
  {
    GS.RemoveMemberSpec(t, id, r, x);
    if x !in GS.Members(t[i], r) {
      assert x !in multiset(GS.Members(t[i], r));
    }
  }

  /** `.game close` by the GM takes the window off the game's areas and
      changes no other row. */
  lemma CloseByGM(s: GS.ServiceState, session: GS.Session)
    requires GS.UniqueIds(s.table)
    requires CurrentGame(s, session).Some? && GS.IsGM(CurrentGame(s, session).value, session.userId)
    ensures var g := CurrentGame(s, session).value;
      var i := GS.SessionOf(s.table, session.platform, GS.WindowOf(session)).value;
      var s' := Close(s, session).0;
      |s'.table| == |s.table|
      && multiset(s'.table[i].areas) == multiset(g.areas) - multiset{GS.WindowOf(session)}
      && |s'.table[i].areas| == |g.areas| - 1
      && (forall j :: 0 <= j < |s.table| && j != i ==> s'.table[j] == s.table[j])
  {
    var g := CurrentGame(s, session).value;
    CurrentGameRow(s, session);
    GS.RemoveMemberSpec(s.table, g.id, GS.Areas, GS.WindowOf(session));
    var i := GS.SessionOf(s.table, session.platform, GS.WindowOf(session)).value;
    var s' := Close(s, session).0;
    assert |multiset(s'.table[i].areas)| == |multiset(g.areas)| - 1;
  }

  /** `.game over` by the GM leaves no row of the game. */
  lemma OverByGMRemovesGame(s: GS.ServiceState, session: GS.Session)
    requires CurrentGame(s, session).Some? && GS.IsGM(CurrentGame(s, session).value, session.userId)
    ensures forall g :: g in Over(s, session).0.table ==> g.id != CurrentGame(s, session).value.id
  {
  }

  /** An argument that starts with a digit is none of the keywords. */
  lemma NumericNotKeyword(action: string)
    requires action != [] && IsDigit(action[0])
    ensures action != "hist" && action != "reset" && action != "clr" && action != "clear"
  {
  }

  /** A roulette set by the GM stores its pool under the face; faces
      outside 2..100 or more than 100 values are refused without change. */
  lemma RouletteSetByGM(s: GS.ServiceState, session: GS.Session, face: nat, copy: nat)
    requires GS.UniqueIds(s.table)
    requires CurrentGame(s, session).Some? && GS.IsGM(CurrentGame(s, session).value, session.userId)
    ensures var s' := Rou(s, session, Some(NatToString(face) + "*" + NatToString(copy))).0;
      (2 <= face <= 100 && face * copy <= 100 ==>
         GS.GetRoulette(s'.table, CurrentGame(s, session).value.id, face) == Some(RouletteData(face, copy)))
      && (!(2 <= face <= 100 && face * copy <= 100) ==> s' == s)
  {
    var action := NatToString(face) + "*" + NatToString(copy);
    RouletteArgsRoundTrip(face, copy);
    NumericNotKeyword(action);
    var game := CurrentGame(s, session).value;
    var i := GS.SessionOf(s.table, session.platform, GS.WindowOf(session)).value;
    assert GS.FindGame(s.table, game.id) == Some(i) by {
      var f := GS.FindGame(s.table, game.id);
      assert f.Some?;
      assert s.table[i].id == game.id;
    }
    if 2 <= face <= 100 && face * copy <= 100 {
      GS.SetRouletteThenGet(s.table, game.id, face, RouletteData(face, copy));
    }
  }

  /** Every part of a joined text occurs in it. */
  lemma {:induction false} JoinContains(parts: seq<string>, sep: string, k: nat)
    requires k < |parts|
    ensures Contains(Join(parts, sep), parts[k])
    decreases |parts|
  {
    var r := Join(parts, sep);
    if k == 0 {
      assert r[0..] == r;
    } else {
      var head := parts[0] + sep;
      var rest := Join(parts[1..], sep);
      assert r == head + rest;
      JoinContains(parts[1..], sep, k - 1);
      var i :| 0 <= i <= |rest| - |parts[k]| && StartsWith(rest[i..], parts[k]);
      assert r[|head| + i..] == rest[i..];
    }
  }

  /** `.game state` lists every id of every roster. */
  lemma RosterListsEveryone(l: seq<string>, k: nat)
    requires k < |l|
    ensures Contains(RosterText(l), l[k])
  {
    if Join(l, ", ") == [] {
      assert |l[k]| == 0 by { JoinContains(l, ", ", k); }
      assert StartsWith(RosterText(l)[0..], l[k]);
    } else {
      JoinContains(l, ", ", k);
    }
  }

  /** `.game state` shows the `规则` line exactly when the game's `rule`
      setting is truthy, and never changes anything: it returns a reply only. */
  lemma StateShowsRule(g: GS.Game)
    ensures (exists k :: 0 <= k < |StateLines(g)| && StartsWith(StateLines(g)[k], "规则: "))
      <==> Get(g.config, "rule").Some? && JsValues.Truthy(Get(g.config, "rule").value)
    ensures |StateLines(g)| >= 5 && StateLines(g)[0] == "游戏「" + g.name + "」"
  {
    var ls := StateLines(g);
    var rule := SettingLine(g.config, "rule", "规则: ");
    var rr := SettingLine(g.config, "rr_rc", "检定房规: ");
    if rule != [] {
      assert ls[5] == rule[0];
    }
    forall k | 0 <= k < |ls| && StartsWith(ls[k], "规则: ")
      ensures rule != []
    {
      assert ls[k][0] == '规';
    }
  }

  /** `.game master` makes a user who is not GM the last GM, changing nothing
      else; a GM is told so and nothing changes. */
  lemma MasterSpec(s: GS.ServiceState, session: GS.Session)
    requires GS.UniqueIds(s.table) && CurrentGame(s, session).Some?
    ensures var g := CurrentGame(s, session).value;
      var i := GS.SessionOf(s.table, session.platform, GS.WindowOf(session)).value;
      var (s', reply) := Master(s, session);
      (GS.IsGM(g, session.userId) ==> s' == s && reply == "你已经是 GM 了")
      && (!GS.IsGM(g, session.userId) ==>
            reply == "你已成为 GM"
            && |s'.table| == |s.table| && s'.table[i].gmList == g.gmList + [session.userId]
            && (forall r :: r != GS.GMs ==> GS.Members(s'.table[i], r) == GS.Members(g, r))
            && (forall j :: 0 <= j < |s.table| && j != i ==> s'.table[j] == s.table[j])
            && GS.IsGM(s'.table[i], session.userId))
  {
    var g := CurrentGame(s, session).value;
    CurrentGameRow(s, session);
    GS.AddMemberSpec(s.table, g.id, GS.GMs, session.userId);
  }

  /** `.game join` appends a new user to the players and says so; a player
      already there is told so and nothing changes. */
  lemma JoinSpec(s: GS.ServiceState, session: GS.Session)
    requires GS.UniqueIds(s.table) && CurrentGame(s, session).Some?
    ensures var g := CurrentGame(s, session).value;
      var i := GS.SessionOf(s.table, session.platform, GS.WindowOf(session)).value;
      var (s', reply) := JoinGame(s, session);
      (reply == "你已加入游戏" <==> session.userId !in g.playerList)
      && (session.userId in g.playerList ==> s' == s && reply == "你已经在游戏中了")
      && (session.userId !in g.playerList ==>
            |s'.table| == |s.table| && s'.table[i].playerList == g.playerList + [session.userId]
            && (forall r :: r != GS.Players ==> GS.Members(s'.table[i], r) == GS.Members(g, r))
            && (forall j :: 0 <= j < |s.table| && j != i ==> s'.table[j] == s.table[j]))
  {
    var g := CurrentGame(s, session).value;
    CurrentGameRow(s, session);
    GS.AddMemberSpec(s.table, g.id, GS.Players, session.userId);
  }

  /** `.game exit` takes one occurrence of the user off the players and one
      off the GMs, leaves the observers and areas alone, and says whether the
      user was in the game; with duplicate-free rosters the user then takes
      no part in it. */
  lemma ExitSpec(s: GS.ServiceState, session: GS.Session)
    requires GS.UniqueIds(s.table) && CurrentGame(s, session).Some?
    ensures var g := CurrentGame(s, session).value;
      var i := GS.SessionOf(s.table, session.platform, GS.WindowOf(session)).value;
      var u := session.userId;
      var (s', reply) := Exit(s, session);
      |s'.table| == |s.table|
      && multiset(s'.table[i].playerList) == multiset(g.playerList) - multiset{u}
      && multiset(s'.table[i].gmList) == multiset(g.gmList) - multiset{u}
      && s'.table[i].observerList == g.observerList && s'.table[i].areas == g.areas
      && (forall j :: 0 <= j < |s.table| && j != i ==> s'.table[j] == s.table[j])
      && (reply == "你已退出游戏" <==> GS.IsParticipant(g, u))
      && (!GS.IsParticipant(g, u) ==> s' == s && reply == "你不在游戏中")
      && (GS.RostersDistinct(s.table) ==> !GS.IsParticipant(s'.table[i], u))
  {
    var g := CurrentGame(s, session).value;
    var i := GS.SessionOf(s.table, session.platform, GS.WindowOf(session)).value;
    CurrentGameRow(s, session);
    RemoveFromPlayersAndGMs(s.table, i, g.id, session.userId);
    if GS.RostersDistinct(s.table) {
      ExitLeavesGame(s.table, i, g.id, session.userId);
    }
  }

  /** Taking a user off the players and then off the GMs of the game in row
      `i`, as `.game exit` does. */
  lemma RemoveFromPlayersAndGMs(t: GS.Table, i: nat, id: int, x: string)
    requires GS.FindGame(t, id) == Some(i)
    ensures var (t1, p) := GS.RemoveMember(t, id, GS.Players, x);
      var (t2, m) := GS.RemoveMember(t1, id, GS.GMs, x);
      |t2| == |t|
      && multiset(t2[i].playerList) == multiset(t[i].playerList) - multiset{x}
      && multiset(t2[i].gmList) == multiset(t[i].gmList) - multiset{x}
      && t2[i].observerList == t[i].observerList && t2[i].areas == t[i].areas
      && (forall j :: 0 <= j < |t| && j != i ==> t2[j] == t[j])
      && (p || m <==> GS.IsParticipant(t[i], x))
      && (!(p || m) ==> t2 == t)
  {
    var (t1, p) := GS.RemoveMember(t, id, GS.Players, x);
    RemoveOneRoster(t, i, id, GS.Players, x);
    GS.FindGameSameIds(t, t1, id);
    RemoveOneRoster(t1, i, id, GS.GMs, x);
  }

  /** With duplicate-free rosters, a user who exits takes no part in the
      game any more. */
  lemma ExitLeavesGame(t: GS.Table, i: nat, id: int, x: string)
    requires GS.FindGame(t, id) == Some(i) && GS.RostersDistinct(t)
    ensures var t1 := GS.RemoveMember(t, id, GS.Players, x).0;
      !GS.IsParticipant(GS.RemoveMember(t1, id, GS.GMs, x).0[i], x)
  {
    var t1 := GS.RemoveMember(t, id, GS.Players, x).0;
    GS.RemoveMemberKeepsDistinct(t, id, GS.Players, x);
    RemoveOneRoster(t, i, id, GS.Players, x);
    GS.FindGameSameIds(t, t1, id);
    GS.RemoveMemberKeepsDistinct(t1, id, GS.GMs, x);
    RemoveOneRoster(t1, i, id, GS.GMs, x);
  }

  /** `.game call` by the GM of a game with players mentions every player;
      without players it says so. */
  lemma CallByGM(s: GS.ServiceState, session: GS.Session)
    requires CurrentGame(s, session).Some? && GS.IsGM(CurrentGame(s, session).value, session.userId)
    ensures var g := CurrentGame(s, session).value;
      (g.playerList == [] ==> Call(s, session) == "当前游戏没有玩家")
      && (g.playerList != [] ==>
            EndsWith(Call(s, session), "\nGM 呼叫全体玩家")
            && forall k :: 0 <= k < |g.playerList| ==> Contains(Call(s, session), Mention(g.playerList[k])))
  {
    var g := CurrentGame(s, session).value;
    if g.playerList != [] {
      var ms := Join(MentionsOf(g.playerList), " ");
      var tail := "\nGM 呼叫全体玩家";
      assert Call(s, session) == ms + tail;
      forall k | 0 <= k < |g.playerList| ensures Contains(Call(s, session), Mention(g.playerList[k])) {
        JoinContains(MentionsOf(g.playerList), " ", k);
        var i :| 0 <= i <= |ms| - |Mention(g.playerList[k])| && StartsWith(ms[i..], Mention(g.playerList[k]));
        assert (ms + tail)[i..][..|Mention(g.playerList[k])|] == ms[i..][..|Mention(g.playerList[k])|];
      }
    }
  }

  /** With unique ids, the row `SessionByName` finds is the row `FindGame`
      finds for its id. */
  lemma NamedGameRow(t: GS.Table, name: string, platform: string)
    requires GS.UniqueIds(t) && GS.SessionByName(t, name, platform).Some?
    ensures var i := GS.SessionByName(t, name, platform).value; GS.FindGame(t, t[i].id) == Some(i)
  {
    var i := GS.SessionByName(t, name, platform).value;
    assert GS.FindGame(t, t[i].id).Some?;
  }

  /** `.game open <name>` by a GM or player of the named game puts the
      window among its areas and changes nothing else; anyone else, a
      missing name or an unknown game changes nothing. */
  lemma OpenSpec(s: GS.ServiceState, session: GS.Session, name: string)
    requires GS.UniqueIds(s.table) && name != []
    ensures var (s', reply) := Open(s, session, Some(name));
      var found := GS.SessionByName(s.table, name, session.platform);
      (found.None? ==> s' == s && reply == "游戏「" + name + "」不存在")
      && (found.Some? && !GS.IsParticipant(s.table[found.value], session.userId) ==>
            s' == s && reply == "只有 GM 或玩家可以打开游戏窗口")
      && (found.Some? && GS.IsParticipant(s.table[found.value], session.userId) ==>
            var i := found.value;
            reply == "当前窗口已加入游戏「" + name + "」"
            && |s'.table| == |s.table| && GS.WindowOf(session) in s'.table[i].areas
            && (forall r :: r != GS.Areas ==> GS.Members(s'.table[i], r) == GS.Members(s.table[i], r))
            && (forall j :: 0 <= j < |s.table| && j != i ==> s'.table[j] == s.table[j]))
  {
    var found := GS.SessionByName(s.table, name, session.platform);
    if found.Some? {
      var i := found.value;
      NamedGameRow(s.table, name, session.platform);
      GS.AddMemberSpec(s.table, s.table[i].id, GS.Areas, GS.WindowOf(session));
      var t' := GS.AddMember(s.table, s.table[i].id, GS.Areas, GS.WindowOf(session)).0;
      if GS.WindowOf(session) !in s.table[i].areas {
        assert GS.Members(t'[i], GS.Areas)[|s.table[i].areas|] == GS.WindowOf(session);
      }
    }
  }

  /** The window's game is the row `SessionOf` finds, and with unique ids
      that is also the row `FindGame` finds for its id. */
  lemma CurrentGameRow(s: GS.ServiceState, session: GS.Session)
    requires GS.UniqueIds(s.table) && CurrentGame(s, session).Some?
    ensures var i := GS.SessionOf(s.table, session.platform, GS.WindowOf(session)).value;
      GS.FindGame(s.table, CurrentGame(s, session).value.id) == Some(i)
  {
    var i := GS.SessionOf(s.table, session.platform, GS.WindowOf(session)).value;
    var f := GS.FindGame(s.table, s.table[i].id);
    assert f.Some?;
  }

  /** A setting the GM stores is what showing that key then replies.  The
      key `__proto__` is not stored (see `JsValues.StoresOwn`): the set changes
      nothing and the show prints the inherited prototype. */
  lemma SetThenShow(s: GS.ServiceState, session: GS.Session, key: string, value: string)
    requires GS.UniqueIds(s.table)
    requires CurrentGame(s, session).Some? && GS.IsGM(CurrentGame(s, session).value, session.userId)
    requires key != []
    ensures var s' := SetCommand(s, session, Some(key), Some(value)).0;
      JsValues.StoresOwn(CurrentGame(s, session).value.config, key) ==>
        SetCommand(s', session, Some(key), None) == (s', key + " = " + value)
    ensures var s' := SetCommand(s, session, Some(key), Some(value)).0;
      !JsValues.StoresOwn(CurrentGame(s, session).value.config, key) ==>
        s' == s && SetCommand(s', session, Some(key), None) == (s, "__proto__" + " = " + "[object Object]")
  {
    if JsValues.StoresOwn(CurrentGame(s, session).value.config, key) {
      StoredSetThenShow(s, session, key, value);
    } else {
      ProtoSetThenShow(s, session, value);
    }
  }

  /** Setting `__proto__` on a game without such an own setting leaves the
      service as it was, and showing it prints `[object Object]`. */
  lemma ProtoSetThenShow(s: GS.ServiceState, session: GS.Session, value: string)
    requires GS.UniqueIds(s.table)
    requires CurrentGame(s, session).Some? && GS.IsGM(CurrentGame(s, session).value, session.userId)
    requires "__proto__" !in Keys(CurrentGame(s, session).value.config)
    ensures var s' := SetCommand(s, session, Some("__proto__"), Some(value)).0;
      s' == s && SetCommand(s', session, Some("__proto__"), None) == (s, "__proto__" + " = " + "[object Object]")
  {
    CurrentGameRow(s, session);
    var game := CurrentGame(s, session).value;
    GS.SetConfigThenGet(s.table, game.id, "__proto__", JsValues.Str(value), "__proto__");
    assert ConfigText(Some(JsValues.Inherited("__proto__"))) == "[object Object]";
  }

  lemma StoredSetThenShow(s: GS.ServiceState, session: GS.Session, key: string, value: string)
    requires GS.UniqueIds(s.table)
    requires CurrentGame(s, session).Some? && GS.IsGM(CurrentGame(s, session).value, session.userId)
    requires key != [] && JsValues.StoresOwn(CurrentGame(s, session).value.config, key)
    ensures var s' := SetCommand(s, session, Some(key), Some(value)).0;
      SetCommand(s', session, Some(key), None) == (s', key + " = " + value)
  {
    var game := CurrentGame(s, session).value;
    var i := GS.SessionOf(s.table, session.platform, GS.WindowOf(session)).value;
    CurrentGameRow(s, session);
    var t' := GS.SetConfig(s.table, game.id, key, JsValues.Str(value));
    assert t' == s.table[i := s.table[i].(config := Put(s.table[i].config, key, JsValues.Str(value)))];
    assert GS.SessionOf(t', session.platform, GS.WindowOf(session)) == Some(i) by {
      var j := GS.SessionOf(t', session.platform, GS.WindowOf(session));
      assert t'[i].platform == session.platform && GS.WindowOf(session) in t'[i].areas;
      assert forall k :: 0 <= k < i ==> t'[k] == s.table[k];
    }
    GS.SetConfigThenGet(s.table, game.id, key, JsValues.Str(value), key);
    GS.FindGameAfterUpdate(s.table, i, t'[i], game.id);
  }

  /** A key that is not set but names a member every object inherits shows
      that member rather than `(未设置)`. */
  lemma ShowUnsetConstructor(s: GS.ServiceState, session: GS.Session)
    requires GS.UniqueIds(s.table)
    requires CurrentGame(s, session).Some? && GS.IsGM(CurrentGame(s, session).value, session.userId)
    requires "constructor" !in Keys(CurrentGame(s, session).value.config)
    ensures SetCommand(s, session, Some("constructor"), None)
      == (s, "constructor" + " = " + "function Object() { [native code] }")
  {
    CurrentGameRow(s, session);
    var game := CurrentGame(s, session).value;
    assert "constructor" in JsValues.ObjectPrototypeMembers;
    assert GS.GetConfig(s.table, game.id, "constructor") == Some(JsValues.Inherited("constructor"));
    assert ConfigText(Some(JsValues.Inherited("constructor"))) == "function Object() { [native code] }";
    assert SetCommand(s, session, Some("constructor"), None)
      == (s, "constructor" + " = " + ConfigText(Some(JsValues.Inherited("constructor"))));
  }
}
