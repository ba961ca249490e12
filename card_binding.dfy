/** Binding a character card to a group, and the Lua table literal that
    caches the bound card's data for the group's scripts. */
module CardBinding {
  import opened Wrappers
  import opened Text
  import opened OrderedMaps
  import opened JsValues
  import opened Cards

  predicate IsIdentStart(c: char) { 'a' <= c <= 'z' || 'A' <= c <= 'Z' || c == '_' }

  predicate IsIdentChar(c: char) { IsIdentStart(c) || IsDigit(c) }

  /** `/^[a-zA-Z_][a-zA-Z0-9_]*$/` */
  predicate IsLuaIdentifier(k: string) {
    k != [] && IsIdentStart(k[0]) && forall i :: 1 <= i < |k| ==> IsIdentChar(k[i])
  }

  /** A key is written bare when it is an identifier, otherwise as
      `["key"]`, without escaping. */
  function LuaKey(k: string): string {
    if IsLuaIdentifier(k) then k else "[\"" + k + "\"]"
  }

  /** Only identifiers are written bare. */
  lemma LuaKeyBare(k: string)
    ensures LuaKey(k) == k <==> IsLuaIdentifier(k)
    ensures !IsLuaIdentifier(k) ==> StartsWith(LuaKey(k), "[\"") && EndsWith(LuaKey(k), "\"]")
  {
    if !IsLuaIdentifier(k) {
      assert |LuaKey(k)| == |k| + 4;
    }
  }

  /** How one character of a string is written inside a Lua string literal. */
  function EscapeChar(c: char): string {
    if c == '\\' then "\\\\" else if c == '"' then "\\\"" else [c]
  }

  function EscapeLua(s: string): string {
    if s == [] then [] else EscapeChar(s[0]) + EscapeLua(s[1..])
  }

  predicate IsLineBreak(c: char) { c == '\n' || c == '\r' }

  /** How Lua (section 3.1 of the Lua 5.4 reference manual) reads the text
      between the quotes of a short string literal: `\\`, `\"`, `\n`
      and `\r` are escapes, and an unescaped line break or quote ends the
      literal unfinished.  The other escapes of Lua are not needed here:
      `None` stands for any text that is not read as one whole literal. */
  function ReadLua(t: string): (r: Option<string>)
  {
    if t == [] then Some([])
    else if IsLineBreak(t[0]) || t[0] == '"' then None
    else if t[0] == '\\' then
      if |t| < 2 then None
      else
        var c := if t[1] == 'n' then Some('\n') else if t[1] == 'r' then Some('\r')
                 else if t[1] == '\\' || t[1] == '"' then Some(t[1]) else None;
        match (c, ReadLua(t[2..]))
        case (Some(x), Some(rest)) => Some([x] + rest)
        case _ => None
    else
      match ReadLua(t[1..])
      case Some(rest) => Some([t[0]] + rest)
      case None => None
  }

  /** As written, the escaped text reads back as the string exactly when
      the string has no line break; a line break is copied raw, and Lua
      refuses the literal. */
  lemma {:induction false} UnescapeEscape(s: string)
    ensures ReadLua(EscapeLua(s)) == if exists i :: 0 <= i < |s| && IsLineBreak(s[i]) then None else Some(s)
  {
    if s != [] {
      var rest := EscapeLua(s[1..]);
      UnescapeEscape(s[1..]);
      var t := EscapeChar(s[0]) + rest;
      if s[0] == '\\' || s[0] == '"' {
        assert t[0] == '\\' && t[1] == s[0] && t[2..] == rest;
      } else {
        assert t[0] == s[0] && t[1..] == rest;
      }
      assert s == [s[0]] + s[1..];
      assert (exists i :: 0 <= i < |s| && IsLineBreak(s[i]))
        <==> IsLineBreak(s[0]) || exists i :: 0 <= i < |s[1..]| && IsLineBreak(s[1..][i]) by {
        if exists i :: 0 <= i < |s| && IsLineBreak(s[i]) {
          var i :| 0 <= i < |s| && IsLineBreak(s[i]);
          if i > 0 {
            assert IsLineBreak(s[1..][i - 1]);
          }
        }
        if exists i :: 0 <= i < |s[1..]| && IsLineBreak(s[1..][i]) {
          var i :| 0 <= i < |s[1..]| && IsLineBreak(s[1..][i]);
          assert IsLineBreak(s[i + 1]);
        }
      }
    }
  }

  /** The card name `a` newline `b` is cached as a literal Lua refuses. */
  lemma RawNewlineRejected()
    ensures ReadLua(EscapeLua("a\nb")) == None
  {
    UnescapeEscape("a\nb");
    assert IsLineBreak("a\nb"[1]);
  }

  /** The corrected escape: line breaks are written as `\n` and `\r` too. */
  function EscapeCharFixed(c: char): string {
    if c == '\n' then "\\n" else if c == '\r' then "\\r" else EscapeChar(c)
  }

  function EscapeLuaFixed(s: string): (t: string)
    ensures forall i :: 0 <= i < |t| ==> !IsLineBreak(t[i])
  {
    if s == [] then [] else EscapeCharFixed(s[0]) + EscapeLuaFixed(s[1..])
  }

  /** With the corrected escape, every string reads back as itself. */
  lemma {:induction false} ReadEscapedFixed(s: string)
    ensures ReadLua(EscapeLuaFixed(s)) == Some(s)
  {
    if s != [] {
      var rest := EscapeLuaFixed(s[1..]);
      ReadEscapedFixed(s[1..]);
      var t := EscapeCharFixed(s[0]) + rest;
      if s[0] == '\\' || s[0] == '"' || IsLineBreak(s[0]) {
        assert t[0] == '\\' && t[2..] == rest;
      } else {
        assert t[0] == s[0] && t[1..] == rest;
      }
      assert s == [s[0]] + s[1..];
    }
  }

  /** Every occurrence of the character `c` replaced by `rep`. */
  function ReplaceChar(s: string, c: char, rep: string): string {
    if s == [] then [] else (if s[0] == c then rep else [s[0]]) + ReplaceChar(s[1..], c, rep)
  }

  /** `s.replace(/c/g, rep)` for a one-character pattern. */
  lemma {:induction false} ReplaceAllChar(s: string, c: char, rep: string)
    ensures ReplaceAll(s, [c], rep) == ReplaceChar(s, c, rep)
  {
    if s != [] {
      ReplaceAllChar(s[1..], c, rep);
      assert s[..1] == [s[0]];
    }
  }

  lemma {:induction false} ReplaceCharAppend(a: string, b: string, c: char, rep: string)
    ensures ReplaceChar(a + b, c, rep) == ReplaceChar(a, c, rep) + ReplaceChar(b, c, rep)
  {
    if a != [] {
      assert (a + b)[1..] == a[1..] + b;
      ReplaceCharAppend(a[1..], b, c, rep);
    } else {
      assert a + b == b;
    }
  }

  /** Replacing backslashes first and then quotes escapes each character
      once: the quote's new backslash is not doubled again. */
  lemma {:induction false} ChainedReplaceEscapes(s: string)
    ensures ReplaceAll(ReplaceAll(s, "\\", "\\\\"), "\"", "\\\"") == EscapeLua(s)
  {
    ReplaceAllChar(s, '\\', "\\\\");
    ReplaceAllChar(ReplaceChar(s, '\\', "\\\\"), '"', "\\\"");
    QuoteAfterBackslash(s);
  }

  lemma {:induction false} QuoteAfterBackslash(s: string)
    ensures ReplaceChar(ReplaceChar(s, '\\', "\\\\"), '"', "\\\"") == EscapeLua(s)
  {
    if s != [] {
      var head := if s[0] == '\\' then "\\\\" else [s[0]];
      ReplaceCharAppend(head, ReplaceChar(s[1..], '\\', "\\\\"), '"', "\\\"");
      QuoteAfterBackslash(s[1..]);
      if s[0] == '\\' {
        assert ReplaceChar(head, '"', "\\\"") == "\\\\" by {
          assert head[1..] == "\\";
          assert head[1..][1..] == [];
        }
      } else {
        assert ReplaceChar(head, '"', "\\\"") == EscapeChar(s[0]) by {
          assert head[1..] == [];
        }
      }
    }
  }

  /** `toLuaTable`: a string as a quoted literal with `\` and then `"`
      escaped; any other primitive as `String()` gives it; an object (an
      array too, keyed by index) as `{key=value,...}` in entry order. */
  function ToLuaTable(v: Value): (t: string)
    decreases v, 1
  {
    match v
    case Str(s) => "\"" + ReplaceAll(ReplaceAll(s, "\\", "\\\\"), "\"", "\\\"") + "\""
    case Obj(fields) => "{" + Join(FieldPairs(v, fields), ",") + "}"
    case Arr(items) => "{" + Join(ItemPairs(v, items, 0), ",") + "}"
    case _ => ToJsString(v)
  }

  function FieldPairs(v: Value, fields: seq<(string, Value)>): (ps: seq<string>)
    requires forall i :: 0 <= i < |fields| ==> fields[i].1 < v
    ensures |ps| == |fields|
    decreases v, 0, |fields|
  {
    if fields == [] then []
    else [LuaKey(fields[0].0) + "=" + ToLuaTable(fields[0].1)] + FieldPairs(v, fields[1..])
  }

  function ItemPairs(v: Value, items: seq<Value>, from: nat): (ps: seq<string>)
    requires forall i :: 0 <= i < |items| ==> items[i] < v
    ensures |ps| == |items|
    decreases v, 0, |items|
  {
    if items == [] then []
    else [LuaKey(NatToString(from)) + "=" + ToLuaTable(items[0])] + ItemPairs(v, items[1..], from + 1)
  }

  /** A string becomes a quoted literal whose body Lua reads back as the
      same string when the string has no line break, and refuses otherwise. */
  lemma StringLiteral(s: string)
    ensures ToLuaTable(Str(s)) == "\"" + EscapeLua(s) + "\""
    ensures ReadLua(ToLuaTable(Str(s))[1..|ToLuaTable(Str(s))| - 1])
      == if exists i :: 0 <= i < |s| && IsLineBreak(s[i]) then None else Some(s)
  {
    ChainedReplaceEscapes(s);
    var t := ToLuaTable(Str(s));
    assert t[1..|t| - 1] == EscapeLua(s);
    UnescapeEscape(s);
  }

  /** A braced text starts with `{` and whatever the text inside starts with. */
  lemma Braced(inner: string, first: string)
    ensures StartsWith("{" + inner + "}", "{") && EndsWith("{" + inner + "}", "}")
    ensures StartsWith(inner, first) ==> StartsWith("{" + inner + "}", "{" + first)
  {
    var t := "{" + inner + "}";
    assert t[..1] == "{";
    assert t[|t| - 1..] == "}";
    if StartsWith(inner, first) {
      assert t[..|first| + 1] == "{" + inner[..|first|];
    }
  }

  /** The first pair of a non-empty object is its first entry's. */
  lemma FirstFieldPair(fields: seq<(string, Value)>)
    requires fields != []
    ensures FieldPairs(Obj(fields), fields)[0] == LuaKey(fields[0].0) + "=" + ToLuaTable(fields[0].1)
  {
  }

  /** The empty object is `{}`. */
  lemma EmptyObjectTable()
    ensures ToLuaTable(Obj([])) == "{}"
  {
    var none: seq<(string, Value)> := [];
    assert Join(FieldPairs(Obj(none), none), ",") == [];
  }

  /** An object is braced. */
  lemma ObjectTable(fields: seq<(string, Value)>)
    ensures StartsWith(ToLuaTable(Obj(fields)), "{") && EndsWith(ToLuaTable(Obj(fields)), "}")
  {
    Braced(Join(FieldPairs(Obj(fields), fields), ","), "");
  }

  /** Braced and joined parts open with the first part. */
  lemma BracedJoin(ps: seq<string>, first: string)
    requires ps != [] && ps[0] == first
    ensures StartsWith("{" + Join(ps, ",") + "}", "{" + first)
  {
    Braced(Join(ps, ","), first);
  }

  /** A non-empty object opens with its first entry as `key=value`. */
  lemma ObjectTableFirst(fields: seq<(string, Value)>)
    requires fields != []
    ensures StartsWith(ToLuaTable(Obj(fields)), "{" + LuaKey(fields[0].0) + "=" + ToLuaTable(fields[0].1))
  {
    var first := LuaKey(fields[0].0) + "=" + ToLuaTable(fields[0].1);
    var ps := FieldPairs(Obj(fields), fields);
    FirstFieldPair(fields);
    BracedJoin(ps, first);
    var t := ToLuaTable(Obj(fields));
    assert t == "{" + Join(ps, ",") + "}";
    assert StartsWith(t, "{" + first);
  }

  /** The attributes as JavaScript values. */
  function AttrValues(attrs: Attrs): (fs: Fields)
    ensures Keys(fs) == Keys(attrs)
  {
    if attrs == [] then [] else [(attrs[0].0, Num(attrs[0].1))] + AttrValues(attrs[1..])
  }

  /** `{ __Name, name, type, ...attrs }` for a card. */
  function CardData(card: Card): Value {
    Obj(Spread([("__Name", Str(card.cardName)), ("name", Str(card.cardName)), ("type", Str(card.cardType))],
               AttrValues(card.attributes)))
  }

  function CacheKey(u: User): string { "player_card#" + u.userId }

  function InGuild(u: User, guildId: string): Binding -> bool {
    (b: Binding) => b.user == u && b.guildId == guildId
  }

  /** `getBoundCard`: the card the user's binding in the guild names, or
      none when there is no binding. */
  function BoundCard(store: Store, u: User, guildId: string): (r: Option<Card>)
    reads store
    ensures (forall b :: b in store.bindings ==> !(b.user == u && b.guildId == guildId)) ==> r.None?
    ensures r.Some? ==> r.value in store.cards && r.value.user == u
  {
    match First(store.bindings, InGuild(u, guildId))
    case None => None
    case Some(b) => First(store.cards, Named(u, b.cardName))
  }

  /** The binding half of `bindCard`: the user's bindings in the guild are
      pointed at the card, or one is created. */
  method UpsertBinding(store: Store, u: User, guildId: string, name: string)
    modifies store
    ensures store.cards == old(store.cards) && store.stats == old(store.stats) && store.groupData == old(store.groupData)
    ensures store.bindings ==
      (if Where(old(store.bindings), InGuild(u, guildId)) != []
       then SetWhere(old(store.bindings), InGuild(u, guildId), (b: Binding) => b.(cardName := name))
       else old(store.bindings) + [Binding(u, guildId, name)])
    ensures First(store.bindings, InGuild(u, guildId)).Some?
    ensures First(store.bindings, InGuild(u, guildId)).value.cardName == name
  {
    var existing := Where(store.bindings, InGuild(u, guildId));
    if existing != [] {
      var f := (b: Binding) => b.(cardName := name);
      var before := store.bindings;
      store.bindings := SetWhere(store.bindings, InGuild(u, guildId), f);
      var b := First(store.bindings, InGuild(u, guildId));
      assert existing[0] in existing;
      SetWhereHas(before, InGuild(u, guildId), f, existing[0]);
      SetWhereIn(before, InGuild(u, guildId), f, b.value);
    } else {
      FirstSnoc(store.bindings, InGuild(u, guildId), Binding(u, guildId, name));
      store.bindings := store.bindings + [Binding(u, guildId, name)];
    }
  }

  /** The group's rows under a key. */
  function AtKey(guildId: string, key: string): GroupData -> bool {
    (g: GroupData) => g.guildId == guildId && g.dataKey == key
  }

  function SetValue(value: string): GroupData -> GroupData {
    (g: GroupData) => g.(dataValue := value)
  }

  /** The cache half of `bindCard`: the group's entry under the key takes
      the value, or is created. */
  method CacheCard(store: Store, guildId: string, key: string, value: string)
    modifies store
    ensures store.cards == old(store.cards) && store.stats == old(store.stats) && store.bindings == old(store.bindings)
    ensures store.groupData ==
        (if Where(old(store.groupData), AtKey(guildId, key)) != []
         then SetWhere(old(store.groupData), AtKey(guildId, key), SetValue(value))
         else old(store.groupData) + [GroupData(guildId, key, value)])
    ensures GroupData(guildId, key, value) in store.groupData
  {
    var atKey := AtKey(guildId, key);
    var cached := Where(store.groupData, atKey);
    if cached != [] {
      assert cached[0] in cached;
      var setValue := SetValue(value);
      SetWhereHas(store.groupData, atKey, setValue, cached[0]);
      store.groupData := SetWhere(store.groupData, atKey, setValue);
    } else {
      store.groupData := store.groupData + [GroupData(guildId, key, value)];
    }
  }

  /** `bindCard`: only in a guild, and only to an existing card (the named
      one, or the active one); the binding is updated or created, and the
      card's data is cached in the group's data under `player_card#<user>`. */
  method BindCard(store: Store, u: User, guildId: string, cardName: string) returns (r: Result<(), string>)
    requires store.Valid()
    modifies store
    ensures store.Valid()
    ensures store.cards == old(store.cards) && store.stats == old(store.stats)
    ensures guildId == [] ==> r == Err("只能在群聊中绑定人物卡")
    ensures guildId != [] && old(store.Target(u, cardName)).None? ==> r == Err(NoCard)
    ensures r.Err? ==> store.bindings == old(store.bindings) && store.groupData == old(store.groupData)
    ensures r.Ok? <==> guildId != [] && old(store.Target(u, cardName)).Some?
    ensures r.Ok? ==> BoundCard(store, u, guildId) == old(store.Target(u, cardName))
    ensures r.Ok? ==>
      var t := old(store.Target(u, cardName)).value;
      store.bindings ==
        (if Where(old(store.bindings), InGuild(u, guildId)) != []
         then SetWhere(old(store.bindings), InGuild(u, guildId), (b: Binding) => b.(cardName := t.cardName))
         else old(store.bindings) + [Binding(u, guildId, t.cardName)])
    ensures r.Ok? ==>
      var value := ToLuaTable(CardData(old(store.Target(u, cardName)).value));
      && GroupData(guildId, CacheKey(u), value) in store.groupData
      && store.groupData ==
        (if Where(old(store.groupData), AtKey(guildId, CacheKey(u))) != []
         then SetWhere(old(store.groupData), AtKey(guildId, CacheKey(u)), SetValue(value))
         else old(store.groupData) + [GroupData(guildId, CacheKey(u), value)])
  {
    if guildId == [] {
      return Err("只能在群聊中绑定人物卡");
    }
    var targetCard := store.Target(u, cardName);
    if targetCard.None? {
      return Err(NoCard);
    }
    var t := targetCard.value;
    UpsertBinding(store, u, guildId, t.cardName);
    FoundUnique(store.cards, t);
    CacheCard(store, guildId, CacheKey(u), ToLuaTable(CardData(t)));
    r := Ok(());
  }

  /** `getAllBindings`: every binding of the user, in every group. */
  function AllBindings(store: Store, u: User): (r: seq<Binding>)
    reads store
    ensures forall b :: b in r <==> b in store.bindings && b.user == u
  {
    Where(store.bindings, (b: Binding) => b.user == u)
  }
}
