/** Observer mode: per channel, a switch and a set of observing users, kept
    in two maps that the `.ob` command changes in place.  A JavaScript `Set`
    is a duplicate-free sequence in insertion order. */
module Observer {
  import opened Wrappers
  import opened Text

  predicate NoDup(s: seq<string>) {
    forall i, j :: 0 <= i < j < |s| ==> s[i] != s[j]
  }

  /** `set.add(x)`: appended when absent, otherwise no change. */
  function SetAdd(s: seq<string>, x: string): (r: seq<string>)
    ensures x in r && forall y :: y != x ==> (y in r <==> y in s)
  {
    if x in s then s else s + [x]
  }

  /** `set.delete(x)`: the other members stay, in their order. */
  function SetDelete(s: seq<string>, x: string): (r: seq<string>)
    ensures x !in r && forall y :: y != x ==> (y in r <==> y in s)
    ensures |r| <= |s|
  {
    if s == [] then []
    else if s[|s| - 1] == x then SetDelete(s[..|s| - 1], x)
    else SetDelete(s[..|s| - 1], x) + [s[|s| - 1]]
  }

  lemma SetAddNoDup(s: seq<string>, x: string)
    requires NoDup(s)
    ensures NoDup(SetAdd(s, x))
  {
  }

  lemma {:induction false} SetDeleteNoDup(s: seq<string>, x: string)
    requires NoDup(s)
    ensures NoDup(SetDelete(s, x))
  {
    if s != [] {
      var init := s[..|s| - 1];
      assert NoDup(init);
      SetDeleteNoDup(init, x);
      assert s[|s| - 1] !in init;
    }
  }

  /** Deleting a member from a duplicate-free set shortens it by exactly one. */
  lemma {:induction false} SetDeleteOne(s: seq<string>, x: string)
    requires NoDup(s) && x in s
    ensures |SetDelete(s, x)| == |s| - 1
  {
    var init := s[..|s| - 1];
    assert NoDup(init);
    if s[|s| - 1] == x {
      assert x !in init;
      SetDeleteAbsent(init, x);
    } else {
      assert x in init;
      SetDeleteOne(init, x);
    }
  }

  lemma {:induction false} SetDeleteAbsent(s: seq<string>, x: string)
    requires x !in s
    ensures SetDelete(s, x) == s
  {
    if s != [] {
      assert x !in s[..|s| - 1];
      SetDeleteAbsent(s[..|s| - 1], x);
    }
  }

  /** `旁观者列表:` followed by the numbered observers, one per line. */
  function NumberedLines(ids: seq<string>, from: nat): (t: string)
    decreases |ids|
  {
    if ids == [] then []
    else "\n" + NatToString(from) + ". " + ids[0] + NumberedLines(ids[1..], from + 1)
  }

  function ListText(ids: seq<string>): string {
    if ids == [] then "当前没有旁观者" else "旁观者列表:" + NumberedLines(ids, 1)
  }

  const Usage: string :=
    "用法:\n.ob join - 加入旁观\n.ob exit - 退出旁观\n.ob list - 查看旁观者\n.ob clr - 清除所有旁观者\n.ob on/off - 开启/关闭旁观模式"

  class Registry {
    var observers: map<string, seq<string>>
    var mode: map<string, bool>

    /** Every channel's observers are a set. */
    predicate Valid()
      reads this
    {
      forall ch :: ch in observers ==> NoDup(observers[ch])
    }

    constructor ()
      ensures Valid() && observers == map[] && mode == map[]
    {
      observers := map[];
      mode := map[];
    }

    /** `isObserver`: false for a channel without observers. */
    function IsObserver(channel: string, user: string): (b: bool)
      reads this
      ensures b <==> channel in observers && user in observers[channel]
    {
      if channel in observers then user in observers[channel] else false
    }

    /** `getObservers`: the channel's observers in joining order, or none. */
    function GetObservers(channel: string): (ids: seq<string>)
      reads this
      ensures channel !in observers ==> ids == []
    {
      if channel in observers then observers[channel] else []
    }

    /** `isObserverModeEnabled`: false unless the channel was switched on. */
    function ModeEnabled(channel: string): (b: bool)
      reads this
      ensures b <==> channel in mode && mode[channel]
    {
      if channel in mode then mode[channel] else false
    }

    /** `.ob join`: refused while the mode is off; otherwise the user joins
        the channel's set, creating it when needed. */
    method Join(channel: string, user: string, username: string) returns (reply: string)
      requires Valid()
      modifies this
      ensures Valid() && mode == old(mode)
      ensures !old(ModeEnabled(channel)) ==> reply == "本桌旁观模式未开启" && observers == old(observers)
      ensures old(ModeEnabled(channel)) ==>
        reply == username + " 已加入旁观"
        && observers == old(observers)[channel := SetAdd(old(GetObservers(channel)), user)]
    {
      if !ModeEnabled(channel) {
        return "本桌旁观模式未开启";
      }
      if channel !in observers {
        observers := observers[channel := []];
      }
      SetAddNoDup(observers[channel], user);
      observers := observers[channel := SetAdd(observers[channel], user)];
      reply := username + " 已加入旁观";
    }

    /** `.ob exit`: refused unless the user observes the channel; otherwise
        the user leaves its set. */
    method Exit(channel: string, user: string, username: string) returns (reply: string)
      requires Valid()
      modifies this
      ensures Valid() && mode == old(mode)
      ensures !old(IsObserver(channel, user)) ==> reply == "你不在旁观列表中" && observers == old(observers)
      ensures old(IsObserver(channel, user)) ==>
        reply == username + " 已退出旁观"
        && observers == old(observers)[channel := SetDelete(old(observers[channel]), user)]
    {
      if !IsObserver(channel, user) {
        return "你不在旁观列表中";
      }
      SetDeleteNoDup(observers[channel], user);
      observers := observers[channel := SetDelete(observers[channel], user)];
      reply := username + " 已退出旁观";
    }

    /** `.ob list` */
    method List(channel: string) returns (reply: string)
      ensures reply == ListText(GetObservers(channel))
    {
      reply := ListText(GetObservers(channel));
    }

    /** `.ob clr` and `.ob clear`: the channel's set is dropped. */
    method Clear(channel: string) returns (reply: string)
      requires Valid()
      modifies this
      ensures Valid() && mode == old(mode)
      ensures observers == old(observers) - {channel} && reply == "已清除所有旁观者"
    {
      observers := observers - {channel};
      reply := "已清除所有旁观者";
    }

    /** `.ob on` */
    method On(channel: string) returns (reply: string)
      requires Valid()
      modifies this
      ensures Valid() && observers == old(observers)
      ensures mode == old(mode)[channel := true] && reply == "已开启旁观模式"
    {
      mode := mode[channel := true];
      reply := "已开启旁观模式";
    }

    /** `.ob off`: the mode is switched off and the channel's set dropped. */
    method Off(channel: string) returns (reply: string)
      requires Valid()
      modifies this
      ensures Valid()
      ensures mode == old(mode)[channel := false] && observers == old(observers) - {channel}
      ensures reply == "已关闭旁观模式"
    {
      mode := mode[channel := false];
      observers := observers - {channel};
      reply := "已关闭旁观模式";
    }

    /** `clearAllObservers` */
    method ClearAll()
      modifies this
      ensures Valid() && observers == map[] && mode == map[]
    {
      observers := map[];
      mode := map[];
    }

    /** The `.ob [action]` command: only in a channel; no action gives the
        usage text; the action is matched lower-cased. */
    method Command(channel: string, user: string, username: string, action: string) returns (reply: string)
      requires Valid()
      modifies this
      ensures Valid()
      ensures channel == [] ==> reply == "旁观模式仅在群聊中可用" && observers == old(observers) && mode == old(mode)
      ensures channel != [] && action == [] ==> reply == Usage && observers == old(observers) && mode == old(mode)
      ensures channel != [] && action != [] && ToLowerAscii(action) !in {"join", "exit", "list", "clr", "clear", "on", "off"} ==>
        reply == "未知操作 使用 .ob 查看帮助" && observers == old(observers) && mode == old(mode)
      ensures channel != [] && ToLowerAscii(action) == "join" ==>
        mode == old(mode)
        && if old(ModeEnabled(channel))
           then observers == old(observers)[channel := SetAdd(old(GetObservers(channel)), user)]
                && reply == username + " 已加入旁观"
           else observers == old(observers) && reply == "本桌旁观模式未开启"
      ensures channel != [] && ToLowerAscii(action) == "exit" ==>
        mode == old(mode)
        && if old(IsObserver(channel, user))
           then observers == old(observers)[channel := SetDelete(old(observers[channel]), user)]
                && reply == username + " 已退出旁观"
           else observers == old(observers) && reply == "你不在旁观列表中"
      ensures channel != [] && ToLowerAscii(action) == "list" ==>
        mode == old(mode) && observers == old(observers) && reply == ListText(old(GetObservers(channel)))
      ensures channel != [] && ToLowerAscii(action) in {"clr", "clear"} ==>
        mode == old(mode) && observers == old(observers) - {channel} && reply == "已清除所有旁观者"
      ensures channel != [] && ToLowerAscii(action) == "on" ==>
        mode == old(mode)[channel := true] && observers == old(observers) && reply == "已开启旁观模式"
      ensures channel != [] && ToLowerAscii(action) == "off" ==>
        mode == old(mode)[channel := false] && observers == old(observers) - {channel} && reply == "已关闭旁观模式"
    {
      if channel == [] {
        return "旁观模式仅在群聊中可用";
      }
      if action == [] {
        return Usage;
      }
      match ToLowerAscii(action)
      case "join" => reply := Join(channel, user, username);
      case "exit" => reply := Exit(channel, user, username);
      case "list" => reply := List(channel);
      case "clr" => reply := Clear(channel);
      case "clear" => reply := Clear(channel);
      case "on" => reply := On(channel);
      case "off" => reply := Off(channel);
      case _ => reply := "未知操作 使用 .ob 查看帮助";
    }
  }

  /** After a join with the mode on, the user observes the channel; after an
      exit, the user no longer does; everyone else keeps their status. */
  lemma JoinThenObserves(s: seq<string>, user: string, other: string)
    ensures user in SetAdd(s, user)
    ensures other != user ==> (other in SetAdd(s, user) <==> other in s)
    ensures user !in SetDelete(SetAdd(s, user), user)
    ensures other != user ==> (other in SetDelete(SetAdd(s, user), user) <==> other in s)
  {
  }

  /** Joining twice is joining once. */
  lemma SetAddIdempotent(s: seq<string>, x: string)
    ensures SetAdd(SetAdd(s, x), x) == SetAdd(s, x)
  {
  }

  /** Joining a set the user was not in and leaving again restores it. */
  lemma {:induction false} AddThenDelete(s: seq<string>, x: string)
    requires x !in s
    ensures SetDelete(SetAdd(s, x), x) == s
  {
    var t := s + [x];
    assert t[..|t| - 1] == s;
    SetDeleteAbsent(s, x);
  }
}
