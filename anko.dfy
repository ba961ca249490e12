/** Anko sessions (`.ak`): per channel, a titled list of options that users
    add to, delete from and finally draw one of at random, which ends the
    session.  The clock and `Math.random()` are inputs. */
module Anko {
  import opened Wrappers
  import opened Text

  datatype AnkoSession = AnkoSession(title: string, options: seq<string>, channelId: string, createdAt: int)

  const DefaultTitle: string := "未命名分歧"

  /** `s.split(c)` for a one-character separator. */
  function SplitChar(s: string, c: char): (parts: seq<string>)
    ensures parts != []
    ensures forall k :: 0 <= k < |parts| ==> c !in parts[k]
    decreases |s|
  {
    var i := IndexOfChar(s, c);
    if i == |s| then [s] else [s[..i]] + SplitChar(s[i + 1..], c)
  }

  /** Splitting and joining again with the separator gives the text back. */
  lemma {:induction false} JoinSplit(s: string, c: char)
    ensures Join(SplitChar(s, c), [c]) == s
    decreases |s|
  {
    var i := IndexOfChar(s, c);
    if i < |s| {
      var rest := SplitChar(s[i + 1..], c);
      JoinSplit(s[i + 1..], c);
      assert Join([s[..i]] + rest, [c]) == s[..i] + [c] + Join(rest, [c]);
      assert s == s[..i] + [c] + s[i + 1..];
    }
  }

  lemma SplitCharAt(s: string, c: char, i: nat)
    requires i < |s| && s[i] == c && forall k :: 0 <= k < i ==> s[k] != c
    ensures SplitChar(s, c) == [s[..i]] + SplitChar(s[i + 1..], c)
  {
    IndexOfCharAt(s, c, i);
  }

  lemma SeparatedSlices(p: string, c: char, rest: string)
    requires c !in p
    ensures var s := p + [c] + rest;
      |p| < |s| && s[|p|] == c && (forall k :: 0 <= k < |p| ==> s[k] != c)
      && s[..|p|] == p && s[|p| + 1..] == rest
  {
  }

  /** Joining parts free of the separator and splitting again gives the parts back. */
  lemma {:induction false} SplitJoin(parts: seq<string>, c: char)
    requires parts != [] && forall k :: 0 <= k < |parts| ==> c !in parts[k]
    ensures SplitChar(Join(parts, [c]), c) == parts
    decreases |parts|
  {
    if |parts| > 1 {
      var rest := Join(parts[1..], [c]);
      SeparatedSlices(parts[0], c, rest);
      SplitCharAt(parts[0] + [c] + rest, c, |parts[0]|);
      SplitJoin(parts[1..], c);
      assert parts == [parts[0]] + parts[1..];
    } else {
      assert IndexOfChar(parts[0], c) == |parts[0]|;
    }
  }

  /** `.map(opt => opt.trim())` */
  function TrimAll(parts: seq<string>): (ts: seq<string>)
    ensures |ts| == |parts| && forall k :: 0 <= k < |parts| ==> ts[k] == TrimJs(parts[k])
  {
    seq(|parts|, k requires 0 <= k < |parts| => TrimJs(parts[k]))
  }

  /** `.filter(opt => opt)`: the non-empty strings, in order. */
  function NonEmpty(ts: seq<string>): (r: seq<string>)
    ensures |r| <= |ts|
  {
    if ts == [] then []
    else (if ts[0] != [] then [ts[0]] else []) + NonEmpty(ts[1..])
  }

  lemma {:induction false} NonEmptyMembers(ts: seq<string>)
    ensures forall k :: 0 <= k < |NonEmpty(ts)| ==> NonEmpty(ts)[k] != [] && NonEmpty(ts)[k] in ts
  {
    if ts != [] {
      NonEmptyMembers(ts[1..]);
      var head := if ts[0] != [] then [ts[0]] else [];
      var r := NonEmpty(ts);
      assert r == head + NonEmpty(ts[1..]);
      forall k | 0 <= k < |r|
        ensures r[k] != [] && r[k] in ts
      {
        if k >= |head| {
          assert r[k] == NonEmpty(ts[1..])[k - |head|];
        }
      }
    }
  }

  lemma {:induction false} NonEmptyKeeps(ts: seq<string>)
    requires forall k :: 0 <= k < |ts| ==> ts[k] != []
    ensures NonEmpty(ts) == ts
  {
    if ts != [] {
      NonEmptyKeeps(ts[1..]);
      assert ts == [ts[0]] + ts[1..];
    }
  }

  /** `.map(opt => opt.trim()).filter(opt => opt)` */
  function Trimmed(parts: seq<string>): (opts: seq<string>)
    ensures |opts| <= |parts|
  {
    NonEmpty(TrimAll(parts))
  }

  /** The options `.ak+ a|b|c` adds. */
  function ParseOptions(text: string): (opts: seq<string>)
  {
    Trimmed(SplitChar(text, '|'))
  }

  /** Trimming cannot introduce a character. */
  lemma TrimKeepsAbsent(x: string, c: char)
    requires c !in x
    ensures c !in TrimJs(x)
  {
    var t := TrimStart(x, IsJsSpace);
    TrimSliceBounds(x, IsJsSpace);
    SliceKeepsAbsent(x, |x| - |t|, |x| - |t| + |TrimEnd(t, IsJsSpace)|, c);
  }

  lemma SliceKeepsAbsent(x: string, i: nat, j: nat, c: char)
    requires i <= j <= |x| && c !in x
    ensures c !in x[i..j]
  {
    assert forall k :: 0 <= k < j - i ==> x[i..j][k] == x[i + k];
  }

  predicate CleanOption(o: string) {
    o != [] && TrimJs(o) == o && '|' !in o
  }

  predicate AllClean(opts: seq<string>) {
    forall k :: 0 <= k < |opts| ==> CleanOption(opts[k])
  }

  /** A part without `|` trims to a clean option or to nothing. */
  lemma TrimmedHeadClean(x: string)
    requires '|' !in x
    ensures TrimJs(x) != [] ==> CleanOption(TrimJs(x))
  {
    TrimIdempotent(x, IsJsSpace);
    TrimKeepsAbsent(x, '|');
  }

  /** Every parsed option is non-empty, trimmed and free of `|`. */
  lemma TrimmedOptionsClean(parts: seq<string>)
    requires forall k :: 0 <= k < |parts| ==> '|' !in parts[k]
    ensures AllClean(Trimmed(parts))
  {
    var ts := TrimAll(parts);
    forall k | 0 <= k < |ts|
      ensures ts[k] != [] ==> CleanOption(ts[k])
    {
      TrimmedHeadClean(parts[k]);
    }
    NonEmptyMembers(ts);
  }

  lemma ParseOptionsClean(text: string)
    ensures AllClean(ParseOptions(text))
  {
    TrimmedOptionsClean(SplitChar(text, '|'));
  }

  lemma TrimmedKeepsClean(opts: seq<string>)
    requires AllClean(opts)
    ensures Trimmed(opts) == opts
  {
    assert TrimAll(opts) == opts;
    NonEmptyKeeps(opts);
  }

  /** Round trip: options that are non-empty, trimmed and free of `|`,
      written joined by `|`, are added exactly, in order. */
  lemma ParseJoinedOptions(opts: seq<string>)
    requires opts != []
    requires AllClean(opts)
    ensures ParseOptions(Join(opts, "|")) == opts
  {
    SplitJoin(opts, '|');
    TrimmedKeepsClean(opts);
  }

  /** `idx. option` lines, numbered from `from`. */
  function Numbered(opts: seq<string>, from: int): (t: string)
    decreases |opts|
  {
    if opts == [] then []
    else if |opts| == 1 then IntToString(from) + ". " + opts[0]
    else IntToString(from) + ". " + opts[0] + "\n" + Numbered(opts[1..], from + 1)
  }

  /** `Math.floor(u * n)` for `u` in `[0, 1)`. */
  function RandomIndex(u: real, n: nat): (i: nat)
    requires 0.0 <= u < 1.0 && n > 0
    ensures i < n
  {
    var x := u * n as real;
    assert 0.0 <= x < n as real;
    x.Floor
  }

  /** `showAnko` */
  function ShowText(s: Option<AnkoSession>): string {
    match s
    case None => "当前没有进行中的分歧\n使用 .ak# [标题] 创建新分歧"
    case Some(a) =>
      if a.options == [] then "分歧「" + a.title + "」\n暂无选项，使用 .ak+ 添加选项"
      else "分歧「" + a.title + "」\n共 " + NatToString(|a.options|) + " 个选项:\n" + Numbered(a.options, 1) + "\n\n使用 .ak= 随机抽取"
  }

  /** The sessions still fresh at `now`: those at most `maxAge` old. */
  function Unexpired(m: map<string, AnkoSession>, now: int, maxAge: int): (r: map<string, AnkoSession>)
  {
    map k | k in m && now - m[k].createdAt <= maxAge :: m[k]
  }

  /** Cleaning up never touches a fresh session and removes every stale one. */
  lemma UnexpiredKeeps(m: map<string, AnkoSession>, now: int, maxAge: int, k: string)
    ensures k in Unexpired(m, now, maxAge) <==> k in m && now - m[k].createdAt <= maxAge
    ensures k in Unexpired(m, now, maxAge) ==> Unexpired(m, now, maxAge)[k] == m[k]
  {
  }

  class Board {
    var sessions: map<string, AnkoSession>

    constructor ()
      ensures sessions == map[]
    {
      sessions := map[];
    }

    function Current(channel: string): (s: Option<AnkoSession>)
      reads this
      ensures s.None? <==> channel !in sessions
    {
      if channel in sessions then Some(sessions[channel]) else None
    }

    /** `createAnko`: any existing session of the channel is replaced by an
        empty one; an empty title becomes the default. */
    method Create(channel: string, title: string, now: int) returns (reply: string)
      modifies this
      ensures sessions == old(sessions)[channel := AnkoSession(if title == [] then DefaultTitle else title, [], channel, now)]
      ensures reply == "已创建新分歧" + (if title == [] then "" else "「" + title + "」") + "，请使用 .ak+ 添加选项"
    {
      sessions := sessions[channel := AnkoSession(if title == [] then DefaultTitle else title, [], channel, now)];
      reply := "已创建新分歧" + (if title == [] then "" else "「" + title + "」") + "，请使用 .ak+ 添加选项";
    }

    /** `addOptions`: without a session, or with nothing to add, the state is
        unchanged; otherwise the parsed options are appended in order. */
    method AddOptions(channel: string, text: string) returns (reply: string)
      modifies this
      ensures channel !in old(sessions) ==> reply == "当前没有进行中的分歧，请先使用 .ak# 创建" && sessions == old(sessions)
      ensures channel in old(sessions) && text == [] ==> reply == "请输入要添加的选项" && sessions == old(sessions)
      ensures channel in old(sessions) && text != [] && ParseOptions(text) == [] ==>
        reply == "请输入有效的选项" && sessions == old(sessions)
      ensures channel in old(sessions) && text != [] && ParseOptions(text) != [] ==>
        var a := old(sessions)[channel];
        sessions == old(sessions)[channel := a.(options := a.options + ParseOptions(text))]
        && reply == "已添加 " + NatToString(|ParseOptions(text)|) + " 个选项:\n" + Numbered(ParseOptions(text), |a.options| + 1)
    {
      if channel !in sessions {
        return "当前没有进行中的分歧，请先使用 .ak# 创建";
      }
      if text == [] {
        return "请输入要添加的选项";
      }
      var newOptions := ParseOptions(text);
      if newOptions == [] {
        return "请输入有效的选项";
      }
      var a := sessions[channel];
      sessions := sessions[channel := a.(options := a.options + newOptions)];
      var total := |a.options| + |newOptions|;
      reply := "已添加 " + NatToString(|newOptions|) + " 个选项:\n" + Numbered(newOptions, total - |newOptions| + 1);
    }

    /** `deleteOption`: `None` is `NaN`.  A position outside `1..length`
        leaves the options unchanged; a valid one removes exactly that option. */
    method DeleteOption(channel: string, index: Option<int>) returns (reply: string)
      modifies this
      ensures channel !in old(sessions) ==> reply == "当前没有进行中的分歧" && sessions == old(sessions)
      ensures channel in old(sessions) && !ValidIndex(index, |old(sessions)[channel].options|) ==>
        sessions == old(sessions)
        && reply == "无效的序号，请输入 1-" + NatToString(|old(sessions)[channel].options|) + " 之间的数字"
      ensures channel in old(sessions) && ValidIndex(index, |old(sessions)[channel].options|) ==>
        var a := old(sessions)[channel];
        var i := index.value - 1;
        sessions == old(sessions)[channel := a.(options := a.options[..i] + a.options[i + 1..])]
        && reply == "已删除选项 " + IntToString(index.value) + ": " + a.options[i]
    {
      if channel !in sessions {
        return "当前没有进行中的分歧";
      }
      var a := sessions[channel];
      if !ValidIndex(index, |a.options|) {
        return "无效的序号，请输入 1-" + NatToString(|a.options|) + " 之间的数字";
      }
      var i := index.value - 1;
      var deleted := a.options[i];
      sessions := sessions[channel := a.(options := a.options[..i] + a.options[i + 1..])];
      reply := "已删除选项 " + IntToString(index.value) + ": " + deleted;
    }

    /** `getRandomOption`: `u` is `Math.random()`.  A draw from a non-empty
        session ends that session. */
    method GetRandomOption(channel: string, username: string, u: real) returns (reply: string)
      requires 0.0 <= u < 1.0
      modifies this
      ensures channel !in old(sessions) ==> reply == "当前没有进行中的分歧" && sessions == old(sessions)
      ensures channel in old(sessions) && old(sessions)[channel].options == [] ==>
        reply == "当前分歧没有任何选项" && sessions == old(sessions)
      ensures channel in old(sessions) && old(sessions)[channel].options != [] ==>
        var a := old(sessions)[channel];
        var i := RandomIndex(u, |a.options|);
        sessions == old(sessions) - {channel}
        && reply == username + " 的安价结果:\n「" + a.title + "」\n抽取到: " + NatToString(i + 1) + ". " + a.options[i]
    {
      if channel !in sessions {
        return "当前没有进行中的分歧";
      }
      var a := sessions[channel];
      if a.options == [] {
        return "当前分歧没有任何选项";
      }
      var i := RandomIndex(u, |a.options|);
      var selected := a.options[i];
      sessions := sessions - {channel};
      reply := username + " 的安价结果:\n「" + a.title + "」\n抽取到: " + NatToString(i + 1) + ". " + selected;
    }

    /** `clearAnko` */
    method Clear(channel: string) returns (reply: string)
      modifies this
      ensures channel !in old(sessions) ==> reply == "当前没有进行中的分歧" && sessions == old(sessions)
      ensures channel in old(sessions) ==>
        sessions == old(sessions) - {channel} && reply == "已清除分歧「" + old(sessions)[channel].title + "」"
    {
      if channel !in sessions {
        return "当前没有进行中的分歧";
      }
      var title := sessions[channel].title;
      sessions := sessions - {channel};
      reply := "已清除分歧「" + title + "」";
    }

    /** The `.ak` command on the trimmed, space-joined arguments. */
    method Command(channel: string, username: string, args: string, now: int, u: real) returns (reply: string)
      requires 0.0 <= u < 1.0
      modifies this
      ensures ParseAction(TrimJs(args)) == Show ==> reply == ShowText(old(Current(channel))) && sessions == old(sessions)
      ensures ParseAction(TrimJs(args)) == Unknown ==> reply == "未知命令，使用 .ak 查看帮助" && sessions == old(sessions)
      ensures ParseAction(TrimJs(args)).New? ==> var t := ParseAction(TrimJs(args)).title;
        sessions == old(sessions)[channel := AnkoSession(if t == [] then DefaultTitle else t, [], channel, now)]
        && reply == "已创建新分歧" + (if t == [] then "" else "「" + t + "」") + "，请使用 .ak+ 添加选项"
      ensures ParseAction(TrimJs(args)) == ClearAll ==>
        sessions == old(sessions) - {channel}
        && reply == if channel in old(sessions) then "已清除分歧「" + old(sessions)[channel].title + "」"
                    else "当前没有进行中的分歧"
      ensures ParseAction(TrimJs(args)) == Draw ==>
        if channel in old(sessions) && old(sessions)[channel].options != [] then
          var a := old(sessions)[channel];
          var i := RandomIndex(u, |a.options|);
          sessions == old(sessions) - {channel}
          && reply == username + " 的安价结果:\n「" + a.title + "」\n抽取到: " + NatToString(i + 1) + ". " + a.options[i]
        else (sessions == old(sessions)
              && reply == if channel in old(sessions) then "当前分歧没有任何选项" else "当前没有进行中的分歧")
      ensures ParseAction(TrimJs(args)).Add? ==> var text := ParseAction(TrimJs(args)).text;
        if channel in old(sessions) && text != [] && ParseOptions(text) != [] then
          var a := old(sessions)[channel];
          sessions == old(sessions)[channel := a.(options := a.options + ParseOptions(text))]
          && reply == "已添加 " + NatToString(|ParseOptions(text)|) + " 个选项:\n" + Numbered(ParseOptions(text), |a.options| + 1)
        else (sessions == old(sessions)
              && reply == if channel !in old(sessions) then "当前没有进行中的分歧，请先使用 .ak# 创建"
                          else if text == [] then "请输入要添加的选项" else "请输入有效的选项")
      ensures ParseAction(TrimJs(args)).Delete? ==> var index := ParseAction(TrimJs(args)).index;
        if channel in old(sessions) && ValidIndex(index, |old(sessions)[channel].options|) then
          var a := old(sessions)[channel];
          var i := index.value - 1;
          sessions == old(sessions)[channel := a.(options := a.options[..i] + a.options[i + 1..])]
          && reply == "已删除选项 " + IntToString(index.value) + ": " + a.options[i]
        else (sessions == old(sessions)
              && reply == if channel !in old(sessions) then "当前没有进行中的分歧"
                          else "无效的序号，请输入 1-" + NatToString(|old(sessions)[channel].options|) + " 之间的数字")
    {
      match ParseAction(TrimJs(args))
      case Show => reply := ShowText(Current(channel));
      case New(title) => reply := Create(channel, title, now);
      case Add(text) => reply := AddOptions(channel, text);
      case Delete(index) => reply := DeleteOption(channel, index);
      case Draw => reply := GetRandomOption(channel, username, u);
      case ClearAll => reply := Clear(channel);
      case Unknown => reply := "未知命令，使用 .ak 查看帮助";
    }

    /** `cleanupExpiredAnkoSessions`: every session older than `maxAge` at
        `now` is deleted, one at a time; `cleaned` counts them. */
    method CleanupExpired(now: int, maxAge: int) returns (cleaned: nat)
      modifies this
      ensures sessions == Unexpired(old(sessions), now, maxAge)
      ensures cleaned == |old(sessions)| - |sessions|
    {
      var pending := sessions.Keys;
      cleaned := 0;
      while pending != {}
        invariant pending <= sessions.Keys <= old(sessions).Keys
        invariant forall k :: k in sessions ==> sessions[k] == old(sessions)[k]
        invariant forall k :: k in old(sessions) && k !in pending ==>
          (k in sessions <==> now - old(sessions)[k].createdAt <= maxAge)
        invariant cleaned == |old(sessions)| - |sessions|
        decreases |pending|
      {
        var k :| k in pending;
        if now - sessions[k].createdAt > maxAge {
          CardinalityOfRemoval(sessions, k);
          sessions := sessions - {k};
          cleaned := cleaned + 1;
        }
        pending := pending - {k};
      }
      assert sessions == Unexpired(old(sessions), now, maxAge);
    }
  }

  /** The session key: the guild, else the channel, else the user. */
  function ChannelKey(guildId: string, channelId: string, userId: string): (k: string)
    ensures guildId != [] ==> k == guildId
    ensures guildId == [] && channelId != [] ==> k == channelId
    ensures guildId == [] && channelId == [] ==> k == userId
  {
    if guildId != [] then guildId else if channelId != [] then channelId else userId
  }

  datatype Action =
    | Show
    | New(title: string)
    | Add(text: string)
    | Delete(index: Option<int>)
    | Draw
    | ClearAll
    | Unknown

  /** How the `.ak` action reads its trimmed argument text. */
  function ParseAction(input: string): Action
  {
    if input == [] || input == "show" then Show
    else if StartsWith(input, "#") then New(TrimJs(input[1..]))
    else if StartsWith(input, "new ") || input == "new" then New(TrimJs(input[3..]))
    else if StartsWith(input, "+") then Add(TrimJs(input[1..]))
    else if StartsWith(input, "add ") then Add(TrimJs(input[3..]))
    else if StartsWith(input, "-") then Delete(ParseIntJs(TrimJs(input[1..])))
    else if StartsWith(input, "del ") then Delete(ParseIntJs(TrimJs(input[3..])))
    else if input == "=" || input == "get" then Draw
    else if input == "clr" || input == "clear" then ClearAll
    else Unknown
  }

  lemma CardinalityOfRemoval(m: map<string, AnkoSession>, k: string)
    requires k in m
    ensures |m - {k}| == |m| - 1
  {
    assert (m - {k}).Keys == m.Keys - {k};
  }

  predicate ValidIndex(index: Option<int>, n: nat) {
    index.Some? && 1 <= index.value <= n
  }

  /** Deleting position `i` shifts the later options down by one and keeps the earlier ones. */
  lemma DeleteKeepsOthers(opts: seq<string>, i: nat)
    requires i < |opts|
    ensures var r := opts[..i] + opts[i + 1..];
      |r| == |opts| - 1
      && (forall k :: 0 <= k < i ==> r[k] == opts[k])
      && (forall k :: i <= k < |r| ==> r[k] == opts[k + 1])
      && multiset(r) + multiset{opts[i]} == multiset(opts)
  {
    var r := opts[..i] + opts[i + 1..];
    assert opts == opts[..i] + [opts[i]] + opts[i + 1..];
  }
}
