/** wasm/src/extensions/extension_manager.cpp: the registry of loaded Lua
    and JavaScript extensions and its dispatch.  The registry is a
    `std::map`, kept here as a list of entries sorted by name; each
    interpreter keeps its own table of loaded scripts and refuses a name it
    already holds (lua_support.cpp and js_support.cpp).  Running a script is
    foreign: its outcome is a parameter. */
module ExtensionManager {
  import opened Wrappers

  datatype ExtKind = Lua | Js

  /** `std::string`'s `<`: lexicographic by character. */
  predicate Less(a: string, b: string)
    decreases |a|
  {
    if a == [] then b != []
    else if b == [] then false
    else if a[0] != b[0] then a[0] < b[0]
    else Less(a[1..], b[1..])
  }

  lemma {:induction false} LessIrreflexive(a: string)
    ensures !Less(a, a)
    decreases |a|
  {
    if a != [] {
      LessIrreflexive(a[1..]);
    }
  }

  lemma {:induction false} LessTransitive(a: string, b: string, c: string)
    requires Less(a, b) && Less(b, c)
    ensures Less(a, c)
    decreases |a|
  {
    if a != [] && b != [] && c != [] && a[0] == b[0] && b[0] == c[0] {
      LessTransitive(a[1..], b[1..], c[1..]);
    }
  }

  lemma {:induction false} LessTotal(a: string, b: string)
    requires a != b
    ensures Less(a, b) || Less(b, a)
    decreases |a|
  {
    if a != [] && b != [] && a[0] == b[0] {
      assert a == [a[0]] + a[1..] && b == [b[0]] + b[1..];
      LessTotal(a[1..], b[1..]);
    }
  }

  type Entries = seq<(string, ExtKind)>

  /** The `std::map` order: names strictly increasing, hence distinct. */
  predicate Sorted(es: Entries)
  {
    forall i, j :: 0 <= i < j < |es| ==> Less(es[i].0, es[j].0)
  }

  function Names(es: Entries): (ns: set<string>)
    ensures forall i :: 0 <= i < |es| ==> es[i].0 in ns
    ensures forall n :: n in ns ==> exists i :: 0 <= i < |es| && es[i].0 == n
  {
    if es == [] then {} else {es[0].0} + Names(es[1..])
  }

  function Lookup(es: Entries, name: string): (r: Option<ExtKind>)
    ensures r.Some? <==> name in Names(es)
  {
    if es == [] then None
    else if es[0].0 == name then Some(es[0].1)
    else Lookup(es[1..], name)
  }

  lemma SortedCons(e: (string, ExtKind), es: Entries)
    requires Sorted(es)
    requires forall n :: n in Names(es) ==> Less(e.0, n)
    ensures Sorted([e] + es)
  {
    var r := [e] + es;
    forall i, j | 0 <= i < j < |r| ensures Less(r[i].0, r[j].0) {
      if i == 0 {
        assert r[j].0 == es[j - 1].0;
      } else {
        assert r[i] == es[i - 1] && r[j] == es[j - 1];
      }
    }
  }

  lemma SortedTail(es: Entries)
    requires Sorted(es) && es != []
    ensures Sorted(es[1..])
    ensures forall n :: n in Names(es[1..]) ==> Less(es[0].0, n)
  {
    forall n | n in Names(es[1..]) ensures Less(es[0].0, n) {
      var i :| 0 <= i < |es[1..]| && es[1..][i].0 == n;
      assert es[i + 1].0 == n;
    }
  }

  /** `extensions[name] = info`: a new name goes to its place in the order,
      an existing one has its entry replaced. */
  function Insert(es: Entries, name: string, kind: ExtKind): (r: Entries)
    ensures Names(r) == Names(es) + {name}
  {
    if es == [] then [(name, kind)]
    else if es[0].0 == name then [(name, kind)] + es[1..]
    else if Less(name, es[0].0) then [(name, kind)] + es
    else [es[0]] + Insert(es[1..], name, kind)
  }

  lemma {:induction false} InsertSorted(es: Entries, name: string, kind: ExtKind)
    requires Sorted(es)
    ensures Sorted(Insert(es, name, kind))
  {
    if es != [] {
      SortedTail(es);
      if es[0].0 == name {
        SortedCons((name, kind), es[1..]);
      } else if Less(name, es[0].0) {
        forall n | n in Names(es) ensures Less(name, n) {
          if n != es[0].0 {
            LessTransitive(name, es[0].0, n);
          }
        }
        SortedCons((name, kind), es);
      } else {
        LessTotal(name, es[0].0);
        InsertSorted(es[1..], name, kind);
        SortedCons(es[0], Insert(es[1..], name, kind));
      }
    }
  }

  lemma {:induction false} InsertLookup(es: Entries, name: string, kind: ExtKind, other: string)
    ensures Lookup(Insert(es, name, kind), name) == Some(kind)
    ensures other != name ==> Lookup(Insert(es, name, kind), other) == Lookup(es, other)
  {
    if es != [] && es[0].0 != name && !Less(name, es[0].0) {
      InsertLookup(es[1..], name, kind, other);
    }
  }

  /** `extensions.erase(it)`. */
  function Remove(es: Entries, name: string): (r: Entries)
    ensures Names(r) == Names(es) - {name}
  {
    if es == [] then []
    else if es[0].0 == name then Remove(es[1..], name)
    else [es[0]] + Remove(es[1..], name)
  }

  lemma {:induction false} RemoveLookup(es: Entries, name: string, other: string)
    ensures Lookup(Remove(es, name), name) == None
    ensures other != name ==> Lookup(Remove(es, name), other) == Lookup(es, other)
  {
    if es != [] {
      RemoveLookup(es[1..], name, other);
    }
  }

  lemma {:induction false} RemoveSorted(es: Entries, name: string)
    requires Sorted(es)
    ensures Sorted(Remove(es, name))
  {
    if es != [] {
      SortedTail(es);
      RemoveSorted(es[1..], name);
      if es[0].0 != name {
        SortedCons(es[0], Remove(es[1..], name));
      }
    }
  }

  /** The whole state: the registry and the two interpreters' script tables
      (name to loaded code). */
  datatype Registry = Registry(extensions: Entries, lua: map<string, string>, js: map<string, string>)

  ghost predicate Consistent(r: Registry)
  {
    Sorted(r.extensions)
  }

  /** loadLuaExtension: the interpreter refuses a name it already holds and
      code that does not compile to a function (`compiles`); only then is the
      name registered, as Lua, replacing any earlier registration. */
  function LoadLua(r: Registry, name: string, code: string, compiles: bool): (res: (Registry, bool))
  {
    if name in r.lua || !compiles then (r, false)
    else (r.(lua := r.lua[name := code], extensions := Insert(r.extensions, name, Lua)), true)
  }

  /** loadJSExtension, the same on the JavaScript side. */
  function LoadJs(r: Registry, name: string, code: string, compiles: bool): (res: (Registry, bool))
  {
    if name in r.js || !compiles then (r, false)
    else (r.(js := r.js[name := code], extensions := Insert(r.extensions, name, Js)), true)
  }

  /** unloadExtension: false for an unknown name; otherwise the script leaves
      its interpreter's table and the entry leaves the registry. */
  function Unload(r: Registry, name: string): (res: (Registry, bool))
  {
    match Lookup(r.extensions, name)
    case None => (r, false)
    case Some(Lua) => (r.(lua := r.lua - {name}, extensions := Remove(r.extensions, name)), true)
    case Some(Js) => (r.(js := r.js - {name}, extensions := Remove(r.extensions, name)), true)
  }

  /** callExtension, given what running the script in its interpreter would
      give: its reply, or the message of the exception it raised. */
  function Call(r: Registry, name: string, execute: ExtKind -> Result<string, string>): string
  {
    match Lookup(r.extensions, name)
    case None => "[Error] Extension '" + name + "' not found"
    case Some(kind) =>
      match execute(kind)
      case Ok(reply) => reply
      case Err(what) => "[Error] " + what
  }

  /** A decimal rendering of a count, as `operator<<` writes it. */
  function Decimal(n: nat): (s: string)
    ensures s != []
  {
    if n < 10 then ["0123456789"[n]] else Decimal(n / 10) + ["0123456789"[n % 10]]
  }

  function ListLines(es: Entries): string
  {
    if es == [] then []
    else "  - " + es[0].0 + (if es[0].1 == Lua then " [Lua]" else " [JS]") + "\n" + ListLines(es[1..])
  }

  /** listExtensions; the version field is never set by a load, so no
      ` v<version>` suffix appears. */
  function List(r: Registry): string
  {
    if r.extensions == [] then "No extensions loaded."
    else "Loaded extensions (" + Decimal(|r.extensions|) + "):\n" + ListLines(r.extensions)
  }

  lemma LoadLuaSpec(r: Registry, name: string, code: string, compiles: bool, other: string)
    requires Consistent(r)
    ensures var (r', ok) := LoadLua(r, name, code, compiles);
      Consistent(r')
      && (ok <==> name !in r.lua && compiles)
      && (ok ==> Lookup(r'.extensions, name) == Some(Lua) && r'.lua == r.lua[name := code] && r'.js == r.js)
      && (!ok ==> r' == r)
      && (other != name ==> Lookup(r'.extensions, other) == Lookup(r.extensions, other))
  {
    InsertSorted(r.extensions, name, Lua);
    InsertLookup(r.extensions, name, Lua, other);
  }

  lemma LoadJsSpec(r: Registry, name: string, code: string, compiles: bool, other: string)
    requires Consistent(r)
    ensures var (r', ok) := LoadJs(r, name, code, compiles);
      Consistent(r')
      && (ok <==> name !in r.js && compiles)
      && (ok ==> Lookup(r'.extensions, name) == Some(Js) && r'.js == r.js[name := code] && r'.lua == r.lua)
      && (!ok ==> r' == r)
      && (other != name ==> Lookup(r'.extensions, other) == Lookup(r.extensions, other))
  {
    InsertSorted(r.extensions, name, Js);
    InsertLookup(r.extensions, name, Js, other);
  }

  lemma UnloadSpec(r: Registry, name: string, other: string)
    requires Consistent(r)
    ensures var (r', ok) := Unload(r, name);
      Consistent(r')
      && (ok <==> name in Names(r.extensions))
      && Lookup(r'.extensions, name) == None
      && (other != name ==> Lookup(r'.extensions, other) == Lookup(r.extensions, other))
      && (ok && Lookup(r.extensions, name) == Some(Lua) ==> r'.lua == r.lua - {name} && r'.js == r.js)
      && (ok && Lookup(r.extensions, name) == Some(Js) ==> r'.js == r.js - {name} && r'.lua == r.lua)
  {
    RemoveSorted(r.extensions, name);
    RemoveLookup(r.extensions, name, other);
  }

  /** A name that is not registered is reported, whatever the interpreters
      would do; a registered one is dispatched to its own interpreter. */
  lemma CallDispatch(r: Registry, name: string, execute: ExtKind -> Result<string, string>)
    ensures Lookup(r.extensions, name).None? ==>
      Call(r, name, execute) == "[Error] Extension '" + name + "' not found"
    ensures forall k :: Lookup(r.extensions, name) == Some(k) && execute(k).Ok? ==>
      Call(r, name, execute) == execute(k).value
    ensures forall k :: Lookup(r.extensions, name) == Some(k) && execute(k).Err? ==>
      Call(r, name, execute) == "[Error] " + execute(k).error
  {
  }

  /** The listing is the fixed message exactly when nothing is registered. */
  lemma ListEmpty(r: Registry)
    ensures List(r) == "No extensions loaded." <==> r.extensions == []
  {
    if r.extensions != [] {
      var l := List(r);
      assert l[0] == 'L' && "No extensions loaded."[0] == 'N';
    }
  }

  /** The C++ singleton.  Its fields are the registry, the two interpreters'
      script tables and the four data callbacks; a set callback's effect is
      recorded as the list of calls forwarded to it. */
  class Manager {
    var extensions: Entries
    var luaScripts: map<string, string>
    var jsScripts: map<string, string>
    var userDataGet: Option<(string, string) -> string>
    var groupDataGet: Option<(string, string) -> string>
    var userDataSetInstalled: bool
    var groupDataSetInstalled: bool
    var userWrites: seq<(string, string, string)>
    var groupWrites: seq<(string, string, string)>

    function State(): Registry
      reads this
    {
      Registry(extensions, luaScripts, jsScripts)
    }

    /** The data callbacks and what was forwarded to them: everything but
        the registry. */
    function Hooks(): (Option<(string, string) -> string>, Option<(string, string) -> string>, bool, bool,
                       seq<(string, string, string)>, seq<(string, string, string)>)
      reads this
    {
      (userDataGet, groupDataGet, userDataSetInstalled, groupDataSetInstalled, userWrites, groupWrites)
    }

    ghost predicate Valid()
      reads this
    {
      Consistent(State())
    }

    constructor()
      ensures Valid() && State() == Registry([], map[], map[])
      ensures userDataGet.None? && groupDataGet.None?
      ensures !userDataSetInstalled && !groupDataSetInstalled
      ensures userWrites == [] && groupWrites == []
    {
      extensions := [];
      luaScripts := map[];
      jsScripts := map[];
      userDataGet := None;
      groupDataGet := None;
      userDataSetInstalled := false;
      groupDataSetInstalled := false;
      userWrites := [];
      groupWrites := [];
    }

    method LoadLuaExtension(name: string, code: string, compiles: bool) returns (ok: bool)
      requires Valid()
      modifies this
      ensures Valid()
      ensures (State(), ok) == LoadLua(old(State()), name, code, compiles)
      ensures Hooks() == old(Hooks())
    {
      if name in luaScripts || !compiles {
        return false;
      }
      luaScripts := luaScripts[name := code];
      InsertSorted(extensions, name, Lua);
      extensions := Insert(extensions, name, Lua);
      return true;
    }

    method LoadJSExtension(name: string, code: string, compiles: bool) returns (ok: bool)
      requires Valid()
      modifies this
      ensures Valid()
      ensures (State(), ok) == LoadJs(old(State()), name, code, compiles)
      ensures Hooks() == old(Hooks())
    {
      if name in jsScripts || !compiles {
        return false;
      }
      jsScripts := jsScripts[name := code];
      InsertSorted(extensions, name, Js);
      extensions := Insert(extensions, name, Js);
      return true;
    }

    method CallExtension(name: string, execute: ExtKind -> Result<string, string>) returns (reply: string)
      ensures reply == Call(State(), name, execute)
    {
      var info := Lookup(extensions, name);
      if info.None? {
        return "[Error] Extension '" + name + "' not found";
      }
      var outcome := execute(info.value);
      if outcome.Err? {
        return "[Error] " + outcome.error;
      }
      return outcome.value;
    }

    method UnloadExtension(name: string) returns (ok: bool)
      requires Valid()
      modifies this
      ensures Valid()
      ensures (State(), ok) == Unload(old(State()), name)
      ensures Hooks() == old(Hooks())
    {
      var info := Lookup(extensions, name);
      if info.None? {
        return false;
      }
      RemoveSorted(extensions, name);
      var rest := Remove(extensions, name);
      if info.value == Lua {
        luaScripts, extensions := luaScripts - {name}, rest;
      } else {
        jsScripts, extensions := jsScripts - {name}, rest;
      }
      return true;
    }

    function HasExtension(name: string): (b: bool)
      reads this
      ensures b <==> name in Names(extensions)
    {
      Lookup(extensions, name).Some?
    }

    function ListExtensions(): string
      reads this
    {
      List(State())
    }

    method SetUserDataGetCallback(callback: (string, string) -> string)
      modifies this
      ensures userDataGet == Some(callback)
      ensures State() == old(State()) && groupDataGet == old(groupDataGet)
      ensures userDataSetInstalled == old(userDataSetInstalled) && groupDataSetInstalled == old(groupDataSetInstalled)
      ensures userWrites == old(userWrites) && groupWrites == old(groupWrites)
    {
      userDataGet := Some(callback);
    }

    method SetGroupDataGetCallback(callback: (string, string) -> string)
      modifies this
      ensures groupDataGet == Some(callback)
      ensures State() == old(State()) && userDataGet == old(userDataGet)
      ensures userDataSetInstalled == old(userDataSetInstalled) && groupDataSetInstalled == old(groupDataSetInstalled)
      ensures userWrites == old(userWrites) && groupWrites == old(groupWrites)
    {
      groupDataGet := Some(callback);
    }

    method SetUserDataSetCallback()
      modifies this
      ensures userDataSetInstalled
      ensures State() == old(State()) && userDataGet == old(userDataGet) && groupDataGet == old(groupDataGet)
      ensures groupDataSetInstalled == old(groupDataSetInstalled)
      ensures userWrites == old(userWrites) && groupWrites == old(groupWrites)
    {
      userDataSetInstalled := true;
    }

    method SetGroupDataSetCallback()
      modifies this
      ensures groupDataSetInstalled
      ensures State() == old(State()) && userDataGet == old(userDataGet) && groupDataGet == old(groupDataGet)
      ensures userDataSetInstalled == old(userDataSetInstalled)
      ensures userWrites == old(userWrites) && groupWrites == old(groupWrites)
    {
      groupDataSetInstalled := true;
    }

    /** callUserDataGet: the callback's answer, `""` with none set. */
    function CallUserDataGet(uid: string, key: string): (v: string)
      reads this
      ensures userDataGet.None? ==> v == ""
      ensures userDataGet.Some? ==> v == userDataGet.value(uid, key)
    {
      if userDataGet.Some? then userDataGet.value(uid, key) else ""
    }

    function CallGroupDataGet(gid: string, key: string): (v: string)
      reads this
      ensures groupDataGet.None? ==> v == ""
      ensures groupDataGet.Some? ==> v == groupDataGet.value(gid, key)
    {
      if groupDataGet.Some? then groupDataGet.value(gid, key) else ""
    }

    /** callUserDataSet: forwarded when a callback is set, otherwise nothing
        happens. */
    method CallUserDataSet(uid: string, key: string, value: string)
      modifies this
      ensures userWrites == if old(userDataSetInstalled) then old(userWrites) + [(uid, key, value)] else old(userWrites)
      ensures State() == old(State()) && groupWrites == old(groupWrites)
      ensures userDataGet == old(userDataGet) && groupDataGet == old(groupDataGet)
      ensures userDataSetInstalled == old(userDataSetInstalled) && groupDataSetInstalled == old(groupDataSetInstalled)
    {
      if userDataSetInstalled {
        userWrites := userWrites + [(uid, key, value)];
      }
    }

    method CallGroupDataSet(gid: string, key: string, value: string)
      modifies this
      ensures groupWrites == if old(groupDataSetInstalled) then old(groupWrites) + [(gid, key, value)] else old(groupWrites)
      ensures State() == old(State()) && userWrites == old(userWrites)
      ensures userDataGet == old(userDataGet) && groupDataGet == old(groupDataGet)
      ensures userDataSetInstalled == old(userDataSetInstalled) && groupDataSetInstalled == old(groupDataSetInstalled)
    {
      if groupDataSetInstalled {
        groupWrites := groupWrites + [(gid, key, value)];
      }
    }

    /** cleanup: both interpreters and the registry are emptied. */
    method Cleanup()
      modifies this
      ensures Valid() && State() == Registry([], map[], map[])
      ensures Hooks() == old(Hooks())
    {
      luaScripts := map[];
      jsScripts := map[];
      extensions := [];
    }
  }
}
