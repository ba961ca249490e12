/** src/services/extension/script-wrapper.ts: the Lua wrapper that turns a
    plugin script body into a `function(msg)` chunk, and the substitution of
    the `{self}`-style placeholders in a reply. */
module ScriptWrapper {
  import opened Wrappers
  import opened Text

  /** JavaScript's `a || b` on an optional string: the empty string and an
      absent value are both falsy. */
  function OrElse(a: Option<string>, b: string): (r: string)
    ensures a.Some? && a.value != [] ==> r == a.value
    ensures (a.None? || a.value == []) ==> r == b
  {
    if a.Some? && a.value != [] then a.value else b
  }

  /** `/^return\s+function/`: the word `return`, at least one white-space
      character, then `function`.  The white-space run is taken greedily and
      `function` does not start with white space, so no other split of the
      run can match. */
  predicate IsFunctionForm(t: string)
  {
    StartsWith(t, "return") && |t| > 6 && IsJsSpace(t[6])
    && StartsWith(TrimStart(t[6..], IsJsSpace), "function")
  }

  const Opening: string := "return function(msg)"

  /** Lines 19 to 76 of the template: the local helper functions, the
      metatable for `msg.game.pls`, and the opening of the closure that
      receives the script. */
  const Prelude: string :=
    "\n"
    + "  -- 提取 dice API 为局部变量（同步版本）\n"
    + "  -- 自定义 queryRule 函数，支持插件规则\n"
    + "  local function queryRule(query)\n"
    + "    -- 插件规则会通过 msg.pluginRules 传递\n"
    + "    if msg.pluginRules then\n"
    + "      for ruleName, manual in pairs(msg.pluginRules) do\n"
    + "        if manual[query] then\n"
    + "          return manual[query]\n"
    + "        end\n"
    + "      end\n"
    + "    end\n"
    + "    -- 如果插件规则中没找到，使用 dice.queryRule\n"
    + "    local result = dice.queryRule(query)\n"
    + "    if result and result.success then\n"
    + "      return result.content\n"
    + "    end\n"
    + "    return nil\n"
    + "  end\n"
    + "\n"
    + "  local function setGroupConf(gid, key, value)\n"
    + "    dice.setGroupData(gid, key, tostring(value))\n"
    + "  end\n"
    + "  local function getGroupConf(gid, key)\n"
    + "    return dice.getGroupData(gid, key)\n"
    + "  end\n"
    + "  local function setGroupData(gid, key, value)\n"
    + "    dice.setGroupData(gid, key, tostring(value))\n"
    + "  end\n"
    + "  local function getGroupData(gid, key)\n"
    + "    return dice.getGroupData(gid, key)\n"
    + "  end\n"
    + "  local function setUserData(uid, key, value)\n"
    + "    dice.setUserData(uid, key, tostring(value))\n"
    + "  end\n"
    + "  local function getUserData(uid, key)\n"
    + "    return dice.getUserData(uid, key)\n"
    + "  end\n"
    + "\n"
    + "  -- getPlayerCard 需要从 msg 获取（因为它需要访问数据库）\n"
    + "  local function getPlayerCard(uid, gid)\n"
    + "    -- 这个函数暂时返回 nil，因为需要异步数据库访问\n"
    + "    return nil\n"
    + "  end\n"
    + "\n"
    + "  -- 为 game.pls 等数组添加 totable() 方法（兼容原版 Dice）\n"
    + "  if msg.game and msg.game.pls then\n"
    + "    local pls_mt = {\n"
    + "      __index = {\n"
    + "        totable = function(self)\n"
    + "          return self\n"
    + "        end\n"
    + "      }\n"
    + "    }\n"
    + "    setmetatable(msg.game.pls, pls_mt)\n"
    + "  end\n"
    + "\n"
    + "  -- 原始脚本代码\n"
    + "  local __result = (function()\n"

  /** Lines 78 to 86: the end of the closure, the `{card}` and `{pc}`
      substitutions on a string result, and the return. */
  const Epilogue: string :=
    "\n"
    + "  end)()\n"
    + "\n"
    + "  -- 替换占位符（如果返回字符串）\n"
    + "  if type(__result) == \"string\" then\n"
    + "    __result = __result:gsub(\"{card}\", tostring(msg.card or \"\"))\n"
    + "    __result = __result:gsub(\"{pc}\", tostring(msg.char and msg.char.__Name or \"\"))\n"
    + "  end\n"
    + "\n"
    + "  return __result\n"

  const Closing: string := "end"

  /** The template's parts around the script body. */
  function Assemble(head: string, pre: string, code: string, post: string, tail: string): string
  {
    head + pre + code + post + tail
  }

  lemma AssembleShape(head: string, pre: string, code: string, post: string, tail: string)
    ensures var r := Assemble(head, pre, code, post, tail);
      StartsWith(r, head) && EndsWith(r, tail) && Contains(r, code)
  {
    var r := Assemble(head, pre, code, post, tail);
    assert r[..|head|] == head;
    assert r[|r| - |tail|..] == tail;
    var i := |head + pre|;
    assert r[i..][..|code|] == code;
    assert StartsWith(r[i..], code);
  }

  /** The template with the script body inserted verbatim (untrimmed). */
  function Wrapped(code: string): string
  {
    Assemble(Opening, Prelude, code, Epilogue, Closing)
  }

  /** The wrapped chunk opens with `return function(msg)`, closes with `end`
      and holds the script body unchanged. */
  lemma WrappedShape(code: string)
    ensures StartsWith(Wrapped(code), Opening) && EndsWith(Wrapped(code), Closing)
    ensures Contains(Wrapped(code), code)
  {
    AssembleShape(Opening, Prelude, code, Epilogue, Closing);
  }

  /** wrapLuaScript: a script already in `return function` form is returned
      trimmed; anything else is wrapped, untrimmed, in the template. */
  function WrapLua(code: string): (r: string)
    ensures IsFunctionForm(TrimJs(code)) ==> r == TrimJs(code)
    ensures !IsFunctionForm(TrimJs(code)) ==> r == Wrapped(code)
  {
    var trimmedCode := TrimJs(code);
    if IsFunctionForm(trimmedCode) then trimmedCode else Wrapped(code)
  }

  /** Any text that opens with `return function(msg)` is in `return
      function` form. */
  lemma OpeningPrefix(w: string)
    requires StartsWith(w, Opening)
    ensures w[..6] == "return" && w[6] == ' ' && w[7] == 'f'
    ensures w[7..][..8] == "function"
  {
    var o := Opening;
    var h := w[..|o|];
    assert h == o;
    assert w[..6] == h[..6] == o[..6];
    assert w[6] == h[6];
    assert w[7] == h[7];
    assert w[7..][..8] == h[7..15] == o[7..15];
  }

  lemma OpeningIsFunctionForm(w: string)
    requires StartsWith(w, Opening)
    ensures IsFunctionForm(w)
  {
    OpeningPrefix(w);
    var rest := w[6..];
    assert rest[1..] == w[7..];
    TrimStartNoSpace(rest[1..], IsJsSpace);
  }

  /** Text that opens with `return function(msg)` and closes with `end` has
      nothing to trim. */
  lemma FramedIsTrimmed(w: string)
    requires StartsWith(w, Opening) && EndsWith(w, Closing)
    ensures TrimJs(w) == w
  {
    OpeningPrefix(w);
    assert w[0] == w[..6][0] == 'r';
    var t := w[|w| - |Closing|..];
    assert t == Closing;
    assert w[|w| - 1] == t[2] == 'd';
    TrimUnchanged(w, IsJsSpace);
  }

  /** The template itself is in `return function` form and has nothing to trim. */
  lemma WrappedIsFunctionForm(code: string)
    ensures TrimJs(Wrapped(code)) == Wrapped(code)
    ensures IsFunctionForm(Wrapped(code))
  {
    WrappedShape(code);
    FramedIsTrimmed(Wrapped(code));
    OpeningIsFunctionForm(Wrapped(code));
  }

  /** Whatever wrapLuaScript returns is recognised as already wrapped, so
      wrapping twice is wrapping once. */
  lemma WrapLuaIdempotent(code: string)
    ensures IsFunctionForm(WrapLua(code))
    ensures WrapLua(WrapLua(code)) == WrapLua(code)
  {
    var t := TrimJs(code);
    if IsFunctionForm(t) {
      TrimIdempotent(code, IsJsSpace);
    } else {
      WrappedIsFunctionForm(code);
    }
  }

  /** The fields of the reply context replacePlaceholders reads. */
  datatype PlaceholderContext = PlaceholderContext(
    username: Option<string>, userId: Option<string>, guildId: Option<string>,
    channelId: Option<string>, charName: Option<string>)

  function SelfValue(c: PlaceholderContext): string { OrElse(c.username, OrElse(c.userId, "你")) }
  function UidValue(c: PlaceholderContext): string { OrElse(c.userId, "") }
  function GidValue(c: PlaceholderContext): string { OrElse(c.guildId, OrElse(c.channelId, "")) }
  function CardValue(c: PlaceholderContext): string { OrElse(c.charName, "角色卡") }
  function PcValue(c: PlaceholderContext): string { OrElse(c.charName, "") }

  /** Global literal replacements applied in order, each to the output of
      the one before, as a chain of `.replace(/.../g, ...)` calls does. */
  function Chain(s: string, steps: seq<(string, string)>): string
    requires forall j :: 0 <= j < |steps| ==> steps[j].0 != []
    decreases |steps|
  {
    if steps == [] then s else Chain(ReplaceAll(s, steps[0].0, steps[0].1), steps[1..])
  }

  function Steps(c: PlaceholderContext): (steps: seq<(string, string)>)
    ensures |steps| == 6
    ensures forall j :: 0 <= j < |steps| ==> IsPlaceholder(steps[j].0) && steps[j].0 != []
  {
    [("{self}", SelfValue(c)), ("{nick}", SelfValue(c)), ("{uid}", UidValue(c)),
     ("{gid}", GidValue(c)), ("{card}", CardValue(c)), ("{pc}", PcValue(c))]
  }

  /** replacePlaceholders. */
  function ReplacePlaceholders(result: string, c: PlaceholderContext): string
  {
    Chain(result, Steps(c))
  }

  predicate NoBrace(s: string) { forall k :: 0 <= k < |s| ==> s[k] != '{' }

  /** `{`, a name without braces, `}`. */
  predicate IsPlaceholder(p: string)
  {
    |p| >= 2 && p[0] == '{' && p[|p| - 1] == '}'
    && forall k :: 0 < k < |p| - 1 ==> p[k] != '{' && p[k] != '}'
  }

  lemma NoBraceUnchanged(s: string, pat: string, rep: string)
    requires pat != [] && pat[0] == '{' && NoBrace(s)
    ensures ReplaceAll(s, pat, rep) == s
  {
    ReplaceAllSkips(s, [], pat, rep);
    assert s + [] == s;
  }

  /** One placeholder never occurs inside another. */
  lemma OtherPlaceholder(p: string, q: string, v: string)
    requires IsPlaceholder(p) && IsPlaceholder(q) && p != q
    ensures ReplaceAll(p, q, v) == p
  {
    if |p| >= |q| {
      if p[..|q|] == q {
        assert false;
      }
      NoBraceUnchanged(p[1..], q, v);
      assert p == [p[0]] + p[1..];
    }
  }

  lemma {:induction false} ChainOnNoBrace(s: string, steps: seq<(string, string)>)
    requires forall j :: 0 <= j < |steps| ==> IsPlaceholder(steps[j].0) && steps[j].0 != []
    requires NoBrace(s)
    ensures Chain(s, steps) == s
  {
    if steps != [] {
      NoBraceUnchanged(s, steps[0].0, steps[0].1);
      ChainOnNoBrace(s, steps[1..]);
    }
  }

  /** A placeholder passes untouched through the steps for other
      placeholders, becomes its value at its own step, and the value, free of
      `{`, passes untouched through the rest. */
  lemma {:induction false} ChainResolves(p: string, steps: seq<(string, string)>, i: nat)
    requires forall j :: 0 <= j < |steps| ==> IsPlaceholder(steps[j].0) && steps[j].0 != []
    requires i < |steps| && steps[i].0 == p && NoBrace(steps[i].1)
    requires forall j :: 0 <= j < i ==> steps[j].0 != p
    ensures Chain(p, steps) == steps[i].1
  {
    if i == 0 {
      ReplaceAllFront(p, [], steps[0].1);
      assert p + [] == p;
      assert steps[0].1 + [] == steps[0].1;
      ChainOnNoBrace(steps[0].1, steps[1..]);
    } else {
      OtherPlaceholder(p, steps[0].0, steps[0].1);
      ChainResolves(p, steps[1..], i - 1);
    }
  }

  /** A reply with no `{` in it is returned unchanged. */
  lemma PlainReplyUnchanged(result: string, c: PlaceholderContext)
    requires NoBrace(result)
    ensures ReplacePlaceholders(result, c) == result
  {
    ChainOnNoBrace(result, Steps(c));
  }

  /** The placeholders of the chain differ in their first letter. */
  lemma StepsDistinct(c: PlaceholderContext, j: nat, i: nat)
    requires j < i < 6
    ensures Steps(c)[j].0 != Steps(c)[i].0
  {
    var names := "snugcp";
    assert forall k :: 0 <= k < 6 ==> Steps(c)[k].0[1] == names[k];
    assert names[j] != names[i];
  }

  /** The placeholder of step `i` standing alone becomes its value. */
  lemma PlaceholderResolvesAt(c: PlaceholderContext, i: nat)
    requires i < 6 && NoBrace(Steps(c)[i].1)
    ensures ReplacePlaceholders(Steps(c)[i].0, c) == Steps(c)[i].1
  {
    var steps := Steps(c);
    forall j | 0 <= j < i ensures steps[j].0 != steps[i].0 {
      StepsDistinct(c, j, i);
    }
    ChainResolves(steps[i].0, steps, i);
  }

  /** Each placeholder standing alone becomes its value, when the values
      contain no `{` of their own (one that did would be substituted again by
      the later steps of the chain). */
  lemma PlaceholdersResolve(c: PlaceholderContext)
    requires NoBrace(SelfValue(c)) && NoBrace(UidValue(c)) && NoBrace(GidValue(c))
    requires NoBrace(CardValue(c)) && NoBrace(PcValue(c))
    ensures ReplacePlaceholders("{self}", c) == SelfValue(c)
    ensures ReplacePlaceholders("{nick}", c) == SelfValue(c)
    ensures ReplacePlaceholders("{uid}", c) == UidValue(c)
    ensures ReplacePlaceholders("{gid}", c) == GidValue(c)
    ensures ReplacePlaceholders("{card}", c) == CardValue(c)
    ensures ReplacePlaceholders("{pc}", c) == PcValue(c)
  {
    PlaceholderResolvesAt(c, 0);
    PlaceholderResolvesAt(c, 1);
    PlaceholderResolvesAt(c, 2);
    PlaceholderResolvesAt(c, 3);
    PlaceholderResolvesAt(c, 4);
    PlaceholderResolvesAt(c, 5);
  }
}
