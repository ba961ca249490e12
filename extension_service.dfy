/** src/services/extension-service.ts: loading a plugin directory (its
    descriptor, its Lua and JavaScript scripts, its rulebooks and its reply
    configurations), answering rule queries, and reloading.  The file system
    is a value: each directory arrives as its listing and each file with its
    content, or marked as throwing when read; parsing JSON, TOML and YAML is
    foreign and arrives parsed.  Whether the interpreter accepts a script is
    foreign too and arrives as `compiles`. */
module ExtensionService {
  import opened Wrappers
  import opened Text
  import opened OrderedMaps
  import opened JsValues
  import EM = ExtensionManager
  import ScriptWrapper
  import RulebookLoader
  import CommandRegistry

  /** A directory entry as `readdir` lists it: a directory with its listing
      or one whose listing throws, a regular file with its content or one
      whose reading throws, or anything else. */
  datatype FsEntry =
    | Dir(name: string, listing: seq<FsEntry>)
    | UnlistableDir(name: string)
    | File(name: string, content: string)
    | UnreadableFile(name: string)
    | Other(name: string)

  /** The script map: script key to code, in insertion order. */
  type Scripts = seq<(string, string)>

  predicate IsScriptFile(name: string)
  {
    EndsWith(name, ".lua") || EndsWith(name, ".js")
  }

  predicate IsSeparator(c: char)
  {
    c == '/' || c == '\\'
  }

  /** `relativePath.replace(/[/\\]/g, '.')`. */
  function DotPath(p: string): (r: string)
    ensures |r| == |p|
    ensures forall i :: 0 <= i < |p| && !IsSeparator(p[i]) ==> r[i] == p[i]
    ensures forall i :: 0 <= i < |r| ==> !IsSeparator(r[i])
  {
    if p == [] then [] else [if IsSeparator(p[0]) then '.' else p[0]] + DotPath(p[1..])
  }

  /** Replacing separators keeps a suffix that has none. */
  lemma DotPathKeepsSuffix(p: string, suffix: string)
    requires EndsWith(p, suffix)
    requires forall i :: 0 <= i < |suffix| ==> !IsSeparator(suffix[i])
    ensures EndsWith(DotPath(p), suffix)
  {
    var r := DotPath(p);
    var k := |p| - |suffix|;
    forall i | 0 <= i < |suffix| ensures r[k..][i] == suffix[i] {
      assert suffix[i] == p[k + i];
      assert r[k..][i] == r[k + i];
    }
    assert r[k..] == suffix;
  }

  /** The key a script file is stored under: `<baseName>.<relative path>`
      with every separator turned into a dot and the extension kept. */
  function ScriptKey(base: string, relPath: string): (key: string)
    ensures StartsWith(key, base + ".")
    ensures key[|base| + 1..] == DotPath(relPath)
  {
    var key := base + "." + DotPath(relPath);
    assert key[..|base + "."|] == base + ".";
    key
  }

  /** A key ends as its relative path does, when the ending has no separator. */
  lemma ScriptKeyKeepsSuffix(base: string, relPath: string, suffix: string)
    requires EndsWith(relPath, suffix)
    requires forall i :: 0 <= i < |suffix| ==> !IsSeparator(suffix[i])
    ensures EndsWith(ScriptKey(base, relPath), suffix)
  {
    var key := ScriptKey(base, relPath);
    var d := DotPath(relPath);
    DotPathKeepsSuffix(relPath, suffix);
    assert key == (base + ".") + d;
    assert key[|key| - |suffix|..] == d[|d| - |suffix|..];
  }

  lemma ScriptKeyOfScript(base: string, relPath: string)
    requires IsScriptFile(relPath)
    ensures IsScriptFile(ScriptKey(base, relPath))
    ensures StartsWith(ScriptKey(base, relPath), base + ".")
  {
    if EndsWith(relPath, ".lua") {
      ScriptKeyKeepsSuffix(base, relPath, ".lua");
    } else {
      ScriptKeyKeepsSuffix(base, relPath, ".js");
    }
  }

  /** What the recursive scan stores, and whether it got to the end: a
      directory that cannot be listed or a script that cannot be read stops
      the scan, and what was stored so far stays. */
  function Collect(entries: seq<FsEntry>, rel: string, base: string, scripts: Scripts): (Scripts, bool)
    decreases entries
  {
    if entries == [] then (scripts, true)
    else
      match entries[0]
      case Dir(n, listing) =>
        var (inner, ok) := Collect(listing, rel + n + "/", base, scripts);
        if !ok then (inner, false) else Collect(entries[1..], rel, base, inner)
      case UnlistableDir(_) => (scripts, false)
      case File(n, content) =>
        if !IsScriptFile(n) then Collect(entries[1..], rel, base, scripts)
        else Collect(entries[1..], rel, base, Put(scripts, ScriptKey(base, rel + n), content))
      case UnreadableFile(n) =>
        if !IsScriptFile(n) then Collect(entries[1..], rel, base, scripts) else (scripts, false)
      case Other(_) => Collect(entries[1..], rel, base, scripts)
  }

  /** Every key of the map names a script file of this plugin. */
  predicate PluginScripts(base: string, scripts: Scripts)
  {
    forall i :: 0 <= i < |scripts| ==> IsScriptFile(scripts[i].0) && StartsWith(scripts[i].0, base + ".")
  }

  /** A path ends as the file name at its end does. */
  lemma EndsWithAppend(dir: string, n: string, suffix: string)
    requires EndsWith(n, suffix)
    ensures EndsWith(dir + n, suffix)
  {
    var p := dir + n;
    assert p[|p| - |suffix|..] == n[|n| - |suffix|..];
  }

  /** Storing a script under a key in the plugin's name space keeps every
      key in it. */
  lemma PutPluginScript(base: string, scripts: Scripts, key: string, content: string)
    requires PluginScripts(base, scripts)
    requires IsScriptFile(key) && StartsWith(key, base + ".")
    ensures PluginScripts(base, Put(scripts, key, content))
  {
    var put := Put(scripts, key, content);
    PutKeys(scripts, key, content);
    assert Keys(put) == if key in Keys(scripts) then Keys(scripts) else Keys(scripts) + [key];
    forall i | 0 <= i < |put| ensures IsScriptFile(put[i].0) && StartsWith(put[i].0, base + ".") {
      assert put[i].0 == Keys(put)[i];
      if i < |scripts| {
        assert Keys(put)[i] == Keys(scripts)[i];
      }
    }
  }

  /** Only `.lua` and `.js` files are collected, each under a key in the
      plugin's name space. */
  lemma {:induction false} CollectScriptsOnly(entries: seq<FsEntry>, rel: string, base: string, scripts: Scripts)
    requires PluginScripts(base, scripts)
    ensures PluginScripts(base, Collect(entries, rel, base, scripts).0)
    decreases entries
  {
    if entries != [] {
      match entries[0]
      case Dir(n, listing) =>
        CollectScriptsOnly(listing, rel + n + "/", base, scripts);
        var inner := Collect(listing, rel + n + "/", base, scripts).0;
        CollectScriptsOnly(entries[1..], rel, base, inner);
      case UnlistableDir(_) =>
      case UnreadableFile(_) =>
        CollectScriptsOnly(entries[1..], rel, base, scripts);
      case File(n, content) =>
        if !IsScriptFile(n) {
          CollectScriptsOnly(entries[1..], rel, base, scripts);
        } else {
          var key := ScriptKey(base, rel + n);
          if EndsWith(n, ".lua") {
            EndsWithAppend(rel, n, ".lua");
          } else {
            EndsWithAppend(rel, n, ".js");
          }
          ScriptKeyOfScript(base, rel + n);
          var put := Put(scripts, key, content);
          PutPluginScript(base, scripts, key, content);
          CollectScriptsOnly(entries[1..], rel, base, put);
        }
      case Other(_) =>
        CollectScriptsOnly(entries[1..], rel, base, scripts);
    }
  }

  /** loadScriptsRecursive: walks the listing in order, recursing into
      directories and storing each `.lua` or `.js` file; `ok` is false when
      a read threw, with the map as far as it got. */
  method LoadScriptsRecursive(entries: seq<FsEntry>, rel: string, base: string, scripts: Scripts)
    returns (result: Scripts, ok: bool)
    ensures (result, ok) == Collect(entries, rel, base, scripts)
    decreases entries
  {
    result := scripts;
    for i := 0 to |entries|
      invariant Collect(entries, rel, base, scripts) == Collect(entries[i..], rel, base, result)
    {
      assert entries[i..][1..] == entries[i + 1..];
      var entry := entries[i];
      if entry.Dir? {
        var inner, innerOk := LoadScriptsRecursive(entry.listing, rel + entry.name + "/", base, result);
        result := inner;
        if !innerOk {
          return result, false;
        }
      } else if entry.UnlistableDir? {
        return result, false;
      } else if (entry.File? || entry.UnreadableFile?) && IsScriptFile(entry.name) {
        if entry.UnreadableFile? {
          return result, false;
        }
        result := Put(result, ScriptKey(base, rel + entry.name), entry.content);
      }
    }
    assert entries[|entries|..] == [];
    return result, true;
  }

  /** `scriptName.replace(/\.(lua|js)$/, '')`: one trailing extension off. */
  function StripExt(name: string): (r: string)
    ensures EndsWith(name, ".lua") ==> r + ".lua" == name
    ensures EndsWith(name, ".js") ==> r + ".js" == name
    ensures !IsScriptFile(name) ==> r == name
  {
    if EndsWith(name, ".lua") then
      assert name == name[..|name| - 4] + ".lua";
      assert name[|name| - 4..][3] == 'a';
      name[..|name| - 4]
    else if EndsWith(name, ".js") then
      assert name == name[..|name| - 3] + ".js";
      name[..|name| - 3]
    else name
  }

  /** The outcome of the interpreter accepting a script: a function of the
      interpreter, the name and the code. */
  type Compiler = (EM.ExtKind, string, string) -> bool

  /** Loads a script under `name`, and on success also under the short name
      left after the `<base>.` prefix, when the name has it. */
  function LoadWithAlias(reg: EM.Registry, kind: EM.ExtKind, base: string, name: string, code: string,
                         compiles: Compiler): EM.Registry
  {
    var (r1, ok) := Load(reg, kind, name, code, compiles);
    if ok && StartsWith(name, base + ".") then Load(r1, kind, name[|base| + 1..], code, compiles).0 else r1
  }

  function Load(reg: EM.Registry, kind: EM.ExtKind, name: string, code: string, compiles: Compiler): (EM.Registry, bool)
  {
    if kind == EM.Lua then EM.LoadLua(reg, name, code, compiles(kind, name, code))
    else EM.LoadJs(reg, name, code, compiles(kind, name, code))
  }

  /** One script of the map: a Lua script is wrapped first, a JavaScript one
      is loaded as it is, and anything else is skipped. */
  function LoadOne(reg: EM.Registry, base: string, scriptName: string, code: string, compiles: Compiler): EM.Registry
  {
    var name := StripExt(scriptName);
    if EndsWith(scriptName, ".lua") then LoadWithAlias(reg, EM.Lua, base, name, ScriptWrapper.WrapLua(code), compiles)
    else if EndsWith(scriptName, ".js") then LoadWithAlias(reg, EM.Js, base, name, code, compiles)
    else reg
  }

  /** The registry after loading the scripts in order. */
  function LoadScripts(reg: EM.Registry, scripts: Scripts, base: string, compiles: Compiler): EM.Registry
    decreases |scripts|
  {
    if scripts == [] then reg
    else
      var last := scripts[|scripts| - 1];
      LoadOne(LoadScripts(reg, scripts[..|scripts| - 1], base, compiles), base, last.0, last.1, compiles)
  }

  lemma LoadScriptsStep(reg: EM.Registry, scripts: Scripts, base: string, compiles: Compiler, i: nat)
    requires i < |scripts|
    ensures LoadScripts(reg, scripts[..i + 1], base, compiles)
      == LoadOne(LoadScripts(reg, scripts[..i], base, compiles), base, scripts[i].0, scripts[i].1, compiles)
  {
    assert scripts[..i + 1][..i] == scripts[..i];
  }

  /** The short alias is registered only after the full name loaded, only
      for a name in the plugin's name space, and it is the rest of the name
      after `<base>.`; no other name changes. */
  lemma AliasOnlyAfterFullLoad(reg: EM.Registry, kind: EM.ExtKind, base: string, name: string, code: string,
                               compiles: Compiler, other: string)
    requires EM.Consistent(reg)
    ensures var r := LoadWithAlias(reg, kind, base, name, code, compiles);
      var ok := Load(reg, kind, name, code, compiles).1;
      EM.Consistent(r)
      && (!ok ==> r == reg)
      && (ok ==> EM.Lookup(r.extensions, name) == Some(kind))
      && (other != name && EM.Lookup(r.extensions, other) != EM.Lookup(reg.extensions, other) ==>
            ok && StartsWith(name, base + ".") && other == name[|base| + 1..])
  {
    LoadSpec(reg, kind, name, code, compiles, other);
    var (r1, ok) := Load(reg, kind, name, code, compiles);
    if ok && StartsWith(name, base + ".") {
      var short := name[|base| + 1..];
      assert short != name by { assert |short| < |name|; }
      LoadSpec(r1, kind, short, code, compiles, name);
      LoadSpec(r1, kind, short, code, compiles, other);
    }
  }

  lemma LoadSpec(reg: EM.Registry, kind: EM.ExtKind, name: string, code: string, compiles: Compiler, other: string)
    requires EM.Consistent(reg)
    ensures var (r, ok) := Load(reg, kind, name, code, compiles);
      EM.Consistent(r)
      && (ok ==> EM.Lookup(r.extensions, name) == Some(kind))
      && (!ok ==> r == reg)
      && (other != name ==> EM.Lookup(r.extensions, other) == EM.Lookup(reg.extensions, other))
  {
    if kind == EM.Lua {
      EM.LoadLuaSpec(reg, name, code, compiles(kind, name, code), other);
    } else {
      EM.LoadJsSpec(reg, name, code, compiles(kind, name, code), other);
    }
  }

  /** Loading a script keeps the registry in order, and a file of any other
      type loads nothing. */
  lemma LoadOneSpec(reg: EM.Registry, base: string, scriptName: string, code: string, compiles: Compiler)
    requires EM.Consistent(reg)
    ensures EM.Consistent(LoadOne(reg, base, scriptName, code, compiles))
    ensures !IsScriptFile(scriptName) ==> LoadOne(reg, base, scriptName, code, compiles) == reg
  {
    var name := StripExt(scriptName);
    if EndsWith(scriptName, ".lua") {
      AliasOnlyAfterFullLoad(reg, EM.Lua, base, name, ScriptWrapper.WrapLua(code), compiles, name);
    } else if EndsWith(scriptName, ".js") {
      AliasOnlyAfterFullLoad(reg, EM.Js, base, name, code, compiles, name);
    }
  }

  lemma {:induction false} LoadScriptsConsistent(reg: EM.Registry, scripts: Scripts, base: string, compiles: Compiler)
    requires EM.Consistent(reg)
    ensures EM.Consistent(LoadScripts(reg, scripts, base, compiles))
    decreases |scripts|
  {
    if scripts != [] {
      var last := scripts[|scripts| - 1];
      LoadScriptsConsistent(reg, scripts[..|scripts| - 1], base, compiles);
      LoadOneSpec(LoadScripts(reg, scripts[..|scripts| - 1], base, compiles), base, last.0, last.1, compiles);
    }
  }

  /** A reply configuration file as parsed: the commands of its `reply`
      table (`None` when it has none), or `None` when reading or parsing
      threw. */
  datatype TomlDoc = TomlDoc(reply: Option<seq<(string, CommandRegistry.ReplyConfig)>>)

  datatype TomlFile = TomlFile(name: string, parsed: Option<TomlDoc>)

  type Commands = seq<(string, CommandRegistry.ReplyConfig)>

  function TomlFiles(files: seq<TomlFile>): (r: seq<TomlFile>)
    ensures forall i :: 0 <= i < |r| ==> EndsWith(r[i].name, ".toml")
    ensures forall f :: f in files && EndsWith(f.name, ".toml") ==> f in r
    ensures forall f :: f in r ==> f in files
  {
    if files == [] then []
    else (if EndsWith(files[0].name, ".toml") then [files[0]] else []) + TomlFiles(files[1..])
  }

  /** The commands after reading the files in order; a file that throws
      stops the rest, keeping what was set so far. */
  function ReplyConfigs(files: seq<TomlFile>, commands: Commands): (Commands, bool)
    decreases |files|
  {
    if files == [] then (commands, true)
    else if files[0].parsed.None? then (commands, false)
    else
      var reply := files[0].parsed.value.reply;
      ReplyConfigs(files[1..], if reply.Some? then Spread(commands, reply.value) else commands)
  }

  /** A command is only ever set, never removed, by reading more files. */
  lemma {:induction false} ReplyConfigsKeep(files: seq<TomlFile>, commands: Commands, k: string)
    requires k in Keys(commands)
    ensures k in Keys(ReplyConfigs(files, commands).0)
    decreases |files|
  {
    if files != [] && files[0].parsed.Some? {
      var reply := files[0].parsed.value.reply;
      if reply.Some? {
        SpreadKeeps(commands, reply.value, k);
        ReplyConfigsKeep(files[1..], Spread(commands, reply.value), k);
      } else {
        ReplyConfigsKeep(files[1..], commands, k);
      }
    }
  }

  lemma {:induction false} SpreadKeeps<V>(base: seq<(string, V)>, more: seq<(string, V)>, k: string)
    requires k in Keys(base)
    ensures k in Keys(Spread(base, more))
    decreases |more|
  {
    if more != [] {
      assert Get(Put(base, more[0].0, more[0].1), k).Some?;
      SpreadKeeps(Put(base, more[0].0, more[0].1), more[1..], k);
    }
  }

  /** A command defined in a file that every later file leaves alone keeps
      that file's configuration: a later file's definition wins. */
  lemma LastDefinitionWins(files: seq<TomlFile>, commands: Commands, doc: seq<(string, CommandRegistry.ReplyConfig)>,
                           k: string)
    requires DistinctKeys(doc) && k in Keys(doc)
    ensures ReplyConfigs(files + [TomlFile("x.toml", Some(TomlDoc(Some(doc))))], commands).1 ==>
      Get(ReplyConfigs(files + [TomlFile("x.toml", Some(TomlDoc(Some(doc))))], commands).0, k) == Get(doc, k)
  {
    var f := TomlFile("x.toml", Some(TomlDoc(Some(doc))));
    ReplyConfigsLast(files, commands, f);
    var (before, ok) := ReplyConfigs(files, commands);
    if ok {
      SpreadGet(before, doc, k);
    }
  }

  lemma {:induction false} ReplyConfigsLast(files: seq<TomlFile>, commands: Commands, f: TomlFile)
    requires f.parsed.Some? && f.parsed.value.reply.Some?
    ensures var (before, ok) := ReplyConfigs(files, commands);
      ReplyConfigs(files + [f], commands) ==
        if ok then (Spread(before, f.parsed.value.reply.value), true) else (before, false)
    decreases |files|
  {
    if files == [] {
      assert [f][1..] == [];
    } else {
      assert (files + [f])[1..] == files[1..] + [f];
      if files[0].parsed.Some? {
        var reply := files[0].parsed.value.reply;
        ReplyConfigsLast(files[1..], if reply.Some? then Spread(commands, reply.value) else commands, f);
      }
    }
  }

  /** The inner loop of loadReplyConfigs: each command of one file's table
      set in order. */
  method SetCommands(commands: Commands, table: Commands) returns (result: Commands)
    ensures result == Spread(commands, table)
  {
    result := commands;
    for j := 0 to |table|
      invariant result == Spread(commands, table[..j])
    {
      SpreadPrefixStep(commands, table, j);
      result := Put(result, table[j].0, table[j].1);
    }
    assert table[..|table|] == table;
  }

  /** loadReplyConfigs: only `.toml` files are read, and each command of a
      file's `reply` table is set in order. */
  method LoadReplyConfigs(files: seq<TomlFile>, commands: Commands) returns (result: Commands, ok: bool)
    ensures (result, ok) == ReplyConfigs(TomlFiles(files), commands)
  {
    var tomlFiles := TomlFiles(files);
    result := commands;
    for i := 0 to |tomlFiles|
      invariant ReplyConfigs(tomlFiles, commands) == ReplyConfigs(tomlFiles[i..], result)
    {
      assert tomlFiles[i..][1..] == tomlFiles[i + 1..];
      var file := tomlFiles[i];
      if file.parsed.None? {
        return result, false;
      }
      var reply := file.parsed.value.reply;
      if reply.Some? {
        result := SetCommands(result, reply.value);
      }
    }
    assert tomlFiles[|tomlFiles|..] == [];
    return result, true;
  }

  /** What `loadPlugin` keeps about a plugin. */
  datatype LoadedPlugin = LoadedPlugin(
    name: string, path: string, descriptor: CommandRegistry.Descriptor, scripts: Scripts, commands: Commands)

  /** A plugin directory as it is on disk when loaded: `descriptor.json`
      parsed (or `None` when that threw), and the listings of `script/`,
      `rulebook/` and `reply/` (`None` when listing threw). */
  datatype PluginDir = PluginDir(
    descriptor: Option<CommandRegistry.Descriptor>, scriptDir: Option<seq<FsEntry>>,
    rulebookDir: Option<seq<RulebookLoader.RulebookFile>>, replyDir: Option<seq<TomlFile>>)

  /** The service's state: the extension registry, the loaded plugins, the
      shared rule map and the chat commands registered so far. */
  datatype ServiceState = ServiceState(
    registry: EM.Registry, plugins: seq<(string, LoadedPlugin)>,
    rules: RulebookLoader.Rules, registered: seq<CommandRegistry.Registration>)

  /** loadPlugin: false, with nothing changed, when the descriptor cannot be
      read; otherwise scripts, rulebooks and reply configurations are loaded
      as far as they can be, the commands registered, and the plugin
      recorded under its descriptor's name. */
  function LoadPluginState(s: ServiceState, path: string, dir: PluginDir, compiles: Compiler): (ServiceState, bool)
  {
    match dir.descriptor
    case None => (s, false)
    case Some(d) =>
      var scripts := ScriptsOf(d.name, dir);
      var rules := if dir.rulebookDir.Some? then RulebookLoader.Stored(s.rules, RulebookLoader.YamlFiles(dir.rulebookDir.value))
                   else s.rules;
      var commands := CommandsOf(dir);
      var registered := if |commands| > 0 then s.registered + CommandRegistry.Registrations(d, commands) else s.registered;
      (ServiceState(LoadScripts(s.registry, scripts, d.name, compiles),
                    Put(s.plugins, d.name, LoadedPlugin(d.name, path, d, scripts, commands)),
                    rules, registered), true)
  }

  /** The scripts a load stores: what the scan got before any failure. */
  function ScriptsOf(base: string, dir: PluginDir): Scripts
  {
    if dir.scriptDir.Some? then Collect(dir.scriptDir.value, "", base, []).0 else []
  }

  function CommandsOf(dir: PluginDir): Commands
  {
    if dir.replyDir.Some? then ReplyConfigs(TomlFiles(dir.replyDir.value), []).0 else []
  }

  /** Loading a plugin again replaces its record rather than adding a
      second one, and the plugin records stay keyed uniquely. */
  lemma LoadPluginRecords(s: ServiceState, path: string, dir: PluginDir, compiles: Compiler)
    requires DistinctKeys(s.plugins)
    ensures var (s', ok) := LoadPluginState(s, path, dir, compiles);
      DistinctKeys(s'.plugins)
      && (ok <==> dir.descriptor.Some?)
      && (ok ==> (Get(s'.plugins, dir.descriptor.value.name).Some?
                  && Get(s'.plugins, dir.descriptor.value.name).value.path == path))
      && (ok && dir.descriptor.value.name in Keys(s.plugins) ==> |s'.plugins| == |s.plugins|)
      && (ok && dir.descriptor.value.name !in Keys(s.plugins) ==> |s'.plugins| == |s.plugins| + 1)
      && (!ok ==> s' == s)
  {
    if dir.descriptor.Some? {
      var d := dir.descriptor.value;
      var record := LoadedPlugin(d.name, path, d, ScriptsOf(d.name, dir), CommandsOf(dir));
      assert LoadPluginState(s, path, dir, compiles).0.plugins == Put(s.plugins, d.name, record);
      PutDistinct(s.plugins, d.name, record);
    }
  }

  /** Every script the plugin stored is a `.lua` or `.js` file in the
      plugin's name space. */
  lemma LoadPluginScripts(s: ServiceState, path: string, dir: PluginDir, compiles: Compiler)
    requires dir.descriptor.Some?
    ensures var p := Get(LoadPluginState(s, path, dir, compiles).0.plugins, dir.descriptor.value.name).value;
      PluginScripts(dir.descriptor.value.name, p.scripts)
  {
    if dir.scriptDir.Some? {
      CollectScriptsOnly(dir.scriptDir.value, "", dir.descriptor.value.name, []);
    }
  }

  /** queryPluginRule: `manual?.[keyword]` when it is truthy.  A manual
      is a plain object, so a keyword that is not one of its entries but
      names a member every object inherits finds that member. */
  function QueryRule(rules: RulebookLoader.Rules, ruleName: string, keyword: string): (r: Option<Lookup<string>>)
    ensures Get(rules, ruleName).None? ==> r.None?
    ensures r.Some? && r.value.Own? ==>
      Get(rules, ruleName).Some? && r.value.value != "" && Get(Get(rules, ruleName).value, keyword) == Some(r.value.value)
    ensures r.Some? && r.value.Inherited? ==> r.value.member == keyword && keyword in ObjectPrototypeMembers
  {
    var manual := Get(rules, ruleName);
    if manual.None? then None
    else
      var found := ReadProperty(manual.value, keyword);
      if found.Some? && found.value.Own? && found.value.value == "" then None else found
  }

  /** After a plugin's last rulebook for a system is stored, queries on that
      system answer from that rulebook alone: its non-empty entry for the
      keyword, an inherited member for a keyword it lacks that every object
      has, and nothing otherwise. */
  lemma QueryAfterRulebook(rules: RulebookLoader.Rules, files: seq<RulebookLoader.RulebookFile>,
                           f: RulebookLoader.RulebookFile, keyword: string)
    requires RulebookLoader.Usable(f)
    ensures var m := f.parsed.value.manual.value;
      QueryRule(RulebookLoader.Stored(rules, files + [f]), f.parsed.value.rule.value, keyword)
        == if keyword in Keys(m) then (if Get(m, keyword).value != "" then Some(Own(Get(m, keyword).value)) else None)
           else if keyword in ObjectPrototypeMembers then Some(Inherited(keyword))
           else None
  {
    RulebookLoader.LaterFileReplaces(rules, files, f);
  }

  /** A manual without a `toString` entry answers the keyword `toString`
      with the inherited function, which is truthy. */
  lemma QueryInheritedMember(rules: RulebookLoader.Rules, ruleName: string)
    requires Get(rules, ruleName).Some? && "toString" !in Keys(Get(rules, ruleName).value)
    ensures QueryRule(rules, ruleName, "toString") == Some(Inherited("toString"))
  {
    assert "toString" in ObjectPrototypeMembers;
  }

  /** Unloads the scripts of a plugin by their full names only, as the
      reload does. */
  function UnloadFullNames(reg: EM.Registry, keys: seq<string>): EM.Registry
    decreases |keys|
  {
    if keys == [] then reg else UnloadFullNames(EM.Unload(reg, StripExt(keys[0])).0, keys[1..])
  }

  /** reloadPlugin as written: false for an unknown plugin; otherwise its
      scripts are unloaded by full name, its record dropped, and its
      directory loaded again. */
  function Reload(s: ServiceState, name: string, dir: PluginDir, compiles: Compiler): (ServiceState, bool)
  {
    match Get(s.plugins, name)
    case None => (s, false)
    case Some(p) =>
      LoadPluginState(s.(registry := UnloadFullNames(s.registry, Keys(p.scripts)), plugins := Delete(s.plugins, name)),
                      p.path, dir, compiles)
  }

  /** Unloading one name leaves another JavaScript name as it was. */
  lemma UnloadKeepsOther(reg: EM.Registry, name: string, alias: string)
    requires EM.Consistent(reg) && name != alias
    requires alias in reg.js && EM.Lookup(reg.extensions, alias) == Some(EM.Js)
    ensures var r1 := EM.Unload(reg, name).0;
      EM.Consistent(r1) && alias in r1.js && r1.js[alias] == reg.js[alias]
      && EM.Lookup(r1.extensions, alias) == Some(EM.Js)
  {
    EM.UnloadSpec(reg, name, alias);
    var r1 := EM.Unload(reg, name).0;
    if EM.Lookup(reg.extensions, name) == Some(EM.Js) {
      assert r1.js == reg.js - {name};
    }
  }

  /** A name that is none of the unloaded full names keeps its registration
      and its code: in particular every short alias does. */
  lemma {:induction false} UnloadFullNamesKeeps(reg: EM.Registry, keys: seq<string>, alias: string)
    requires EM.Consistent(reg)
    requires forall k :: k in keys ==> StripExt(k) != alias
    requires alias in reg.js && EM.Lookup(reg.extensions, alias) == Some(EM.Js)
    ensures var r := UnloadFullNames(reg, keys);
      EM.Consistent(r) && alias in r.js && r.js[alias] == reg.js[alias] && EM.Lookup(r.extensions, alias) == Some(EM.Js)
    decreases |keys|
  {
    if keys != [] {
      var name := StripExt(keys[0]);
      UnloadKeepsOther(reg, name, alias);
      var r1 := EM.Unload(reg, name).0;
      assert forall k :: k in keys[1..] ==> k in keys;
      UnloadFullNamesKeeps(r1, keys[1..], alias);
      assert UnloadFullNames(reg, keys) == UnloadFullNames(r1, keys[1..]);
    }
  }

  /** The corrected unload: each script's short alias goes along with its
      full name. */
  function UnloadWithAliases(reg: EM.Registry, keys: seq<string>, base: string): EM.Registry
    decreases |keys|
  {
    if keys == [] then reg
    else
      var name := StripExt(keys[0]);
      var r1 := EM.Unload(reg, name).0;
      var r2 := if StartsWith(name, base + ".") then EM.Unload(r1, name[|base| + 1..]).0 else r1;
      UnloadWithAliases(r2, keys[1..], base)
  }

  /** reloadPlugin with the aliases unloaded too. */
  function ReloadFixed(s: ServiceState, name: string, dir: PluginDir, compiles: Compiler): (ServiceState, bool)
  {
    match Get(s.plugins, name)
    case None => (s, false)
    case Some(p) =>
      LoadPluginState(s.(registry := UnloadWithAliases(s.registry, Keys(p.scripts), p.name),
                         plugins := Delete(s.plugins, name)),
                      p.path, dir, compiles)
  }

  /** The short alias of a script, when it has one. */
  predicate IsAliasOf(base: string, key: string, alias: string)
  {
    var name := StripExt(key);
    StartsWith(name, base + ".") && alias == name[|base| + 1..]
  }

  /** After the corrected unload, no full name and no alias of the plugin's
      scripts is registered any more, so the reload starts afresh; every
      other registration is kept. */
  lemma {:induction false} UnloadWithAliasesClears(reg: EM.Registry, keys: seq<string>, base: string, n: string)
    requires EM.Consistent(reg)
    ensures var r := UnloadWithAliases(reg, keys, base);
      EM.Consistent(r)
      && ((exists k :: k in keys && (StripExt(k) == n || IsAliasOf(base, k, n))) ==> EM.Lookup(r.extensions, n) == None)
      && ((forall k :: k in keys ==> StripExt(k) != n && !IsAliasOf(base, k, n)) ==>
            EM.Lookup(r.extensions, n) == EM.Lookup(reg.extensions, n))
    decreases |keys|
  {
    if keys != [] {
      var name := StripExt(keys[0]);
      EM.UnloadSpec(reg, name, n);
      var r1 := EM.Unload(reg, name).0;
      var r2 := if StartsWith(name, base + ".") then EM.Unload(r1, name[|base| + 1..]).0 else r1;
      if StartsWith(name, base + ".") {
        EM.UnloadSpec(r1, name[|base| + 1..], n);
      }
      UnloadWithAliasesClears(r2, keys[1..], base, n);
      var r := UnloadWithAliases(reg, keys, base);
      assert r == UnloadWithAliases(r2, keys[1..], base);
      if exists k :: k in keys && (StripExt(k) == n || IsAliasOf(base, k, n)) {
        var k :| k in keys && (StripExt(k) == n || IsAliasOf(base, k, n));
        if k != keys[0] {
          assert k in keys[1..];
        } else {
          UnloadLookupNone(r2, keys[1..], base, n);
        }
      }
    }
  }

  /** An unregistered name stays unregistered through further unloads. */
  lemma {:induction false} UnloadLookupNone(reg: EM.Registry, keys: seq<string>, base: string, n: string)
    requires EM.Consistent(reg) && EM.Lookup(reg.extensions, n) == None
    ensures EM.Lookup(UnloadWithAliases(reg, keys, base).extensions, n) == None
    decreases |keys|
  {
    if keys != [] {
      var name := StripExt(keys[0]);
      EM.UnloadSpec(reg, name, n);
      var r1 := EM.Unload(reg, name).0;
      var r2 := if StartsWith(name, base + ".") then EM.Unload(r1, name[|base| + 1..]).0 else r1;
      if StartsWith(name, base + ".") {
        EM.UnloadSpec(r1, name[|base| + 1..], n);
      }
      UnloadLookupNone(r2, keys[1..], base, n);
    }
  }

  /** A plugin `P` whose only script is `script/a.js`. */
  function OneScriptPlugin(code: string): PluginDir
  {
    PluginDir(Some(CommandRegistry.Descriptor("P", None)), Some([File("a.js", code)]), None, None)
  }

  function Fresh(): ServiceState
  {
    ServiceState(EM.Registry([], map[], map[]), [], [], [])
  }

  function AlwaysCompiles(): Compiler
  {
    (kind: EM.ExtKind, name: string, code: string) => true
  }

  /** The names of `P`'s script: stored as `P.a.js`, loaded as `P.a`, with
      the alias `a`. */
  lemma OneScriptNames(code: string)
    ensures ScriptsOf("P", OneScriptPlugin(code)) == [("P.a.js", code)]
    ensures StripExt("P.a.js") == "P.a" && EndsWith("P.a.js", ".js") && !EndsWith("P.a.js", ".lua")
    ensures StartsWith("P.a", "P.") && "P.a"[|"P"| + 1..] == "a"
  {
    OneScriptKey(code);
    ScriptExtension();
    assert "P.a"[..2] == "P.";
  }

  lemma OneScriptKey(code: string)
    ensures ScriptsOf("P", OneScriptPlugin(code)) == [("P.a.js", code)]
  {
    var p := "a.js";
    assert DotPath(p) == [p[0]] + DotPath(p[1..]);
    assert DotPath(p[1..]) == [p[1]] + DotPath(p[2..]);
    assert DotPath(p[2..]) == [p[2]] + DotPath(p[3..]);
    assert DotPath(p[3..]) == [p[3]];
    assert DotPath(p) == p;
    assert "" + p == p;
    assert ScriptKey("P", p) == "P.a.js";
    assert IsScriptFile(p) by { assert p[4 - 3..] == ".js"; }
    var entries := [File(p, code)];
    assert entries[1..] == [];
    assert Collect(entries, "", "P", []) == Collect([], "", "P", [("P.a.js", code)]);
  }

  lemma ScriptExtension()
    ensures StripExt("P.a.js") == "P.a" && EndsWith("P.a.js", ".js") && !EndsWith("P.a.js", ".lua")
  {
    var n := "P.a.js";
    assert n[6 - 3..] == ".js";
    assert n[6 - 4..][1] != ".lua"[1];
    var r := StripExt(n);
    assert r + ".js" == n;
    assert r == (r + ".js")[..3];
    assert n[..3] == "P.a";
  }

  /** Loading `P`'s one script is loading `P.a` with its alias. */
  lemma OneScriptLoads(reg: EM.Registry, code: string)
    ensures LoadScripts(reg, ScriptsOf("P", OneScriptPlugin(code)), "P", AlwaysCompiles())
      == LoadWithAlias(reg, EM.Js, "P", "P.a", code, AlwaysCompiles())
  {
    OneScriptNames(code);
    var scripts := [("P.a.js", code)];
    assert scripts[..0] == [];
  }

  /** Loading `P` registers `P.a` and its alias `a`, both with the code. */
  lemma LoadOneScriptPlugin(code: string)
    ensures var s := LoadPluginState(Fresh(), "P", OneScriptPlugin(code), AlwaysCompiles()).0;
      EM.Consistent(s.registry) && Keys(Get(s.plugins, "P").value.scripts) == ["P.a.js"]
      && s.registry.js == map["P.a" := code, "a" := code]
      && EM.Lookup(s.registry.extensions, "a") == Some(EM.Js)
      && EM.Lookup(s.registry.extensions, "P.a") == Some(EM.Js)
  {
    OneScriptNames(code);
    var r0 := EM.Registry([], map[], map[]);
    OneScriptLoads(r0, code);
    LoadWithAliasFresh(r0, "P", "P.a", "a", code, AlwaysCompiles());
    LoadWithAliasFreshKinds(r0, "P", "P.a", "a", code, AlwaysCompiles());
    assert map[]["P.a" := code]["a" := code] == map["P.a" := code, "a" := code];
  }

  /** reloadPlugin as written leaves the alias running the old code: the
      full name is unloaded and loaded anew, but the alias was never
      unloaded, so the interpreter refuses the new alias as a duplicate. */
  lemma ReloadKeepsStaleAlias(oldCode: string, newCode: string)
    ensures var s1 := LoadPluginState(Fresh(), "P", OneScriptPlugin(oldCode), AlwaysCompiles()).0;
      var s2 := Reload(s1, "P", OneScriptPlugin(newCode), AlwaysCompiles()).0;
      "a" in s2.registry.js && s2.registry.js["a"] == oldCode
  {
    var s1 := LoadPluginState(Fresh(), "P", OneScriptPlugin(oldCode), AlwaysCompiles()).0;
    LoadOneScriptPlugin(oldCode);
    OneScriptNames(oldCode);
    assert "a" != "P.a";
    UnloadFullNamesKeeps(s1.registry, ["P.a.js"], "a");
    var unloaded := UnloadFullNames(s1.registry, ["P.a.js"]);
    var p := Get(s1.plugins, "P").value;
    var dir := OneScriptPlugin(newCode);
    var start := s1.(registry := unloaded, plugins := Delete(s1.plugins, "P"));
    assert Reload(s1, "P", dir, AlwaysCompiles()) == LoadPluginState(start, p.path, dir, AlwaysCompiles());
    LoadPluginRegistry(start, p.path, dir, AlwaysCompiles());
    OneScriptLoads(unloaded, newCode);
    NoLoadOverAnAlias(unloaded, newCode, "a");
  }

  /** The registry part of a plugin load. */
  lemma LoadPluginRegistry(s: ServiceState, path: string, dir: PluginDir, compiles: Compiler)
    requires dir.descriptor.Some?
    ensures LoadPluginState(s, path, dir, compiles).0.registry
      == LoadScripts(s.registry, ScriptsOf(dir.descriptor.value.name, dir), dir.descriptor.value.name, compiles)
  {
  }

  /** Whatever `P`'s new script holds, loading it cannot replace an alias
      that is still loaded. */
  lemma NoLoadOverAnAlias(reg: EM.Registry, code: string, alias: string)
    requires EM.Consistent(reg) && alias in reg.js
    ensures var r := LoadWithAlias(reg, EM.Js, "P", "P.a", code, AlwaysCompiles());
      alias in r.js && r.js[alias] == reg.js[alias]
  {
    OneScriptNames(code);
    var r1 := EM.LoadJs(reg, "P.a", code, true).0;
    EM.LoadJsSpec(reg, "P.a", code, true, alias);
    EM.LoadJsSpec(r1, "a", code, true, alias);
  }

  /** With the aliases unloaded too, the reload gives the alias the new
      code. */
  lemma ReloadFixedRefreshesAlias(oldCode: string, newCode: string)
    ensures var s1 := LoadPluginState(Fresh(), "P", OneScriptPlugin(oldCode), AlwaysCompiles()).0;
      var s2 := ReloadFixed(s1, "P", OneScriptPlugin(newCode), AlwaysCompiles()).0;
      "a" in s2.registry.js && s2.registry.js["a"] == newCode
  {
    var s1 := LoadPluginState(Fresh(), "P", OneScriptPlugin(oldCode), AlwaysCompiles()).0;
    LoadOneScriptPlugin(oldCode);
    OneScriptNames(oldCode);
    var r2 := UnloadWithAliases(s1.registry, ["P.a.js"], "P");
    FixedUnloadClears(s1.registry);
    var p := Get(s1.plugins, "P").value;
    var dir := OneScriptPlugin(newCode);
    var start := s1.(registry := r2, plugins := Delete(s1.plugins, "P"));
    assert ReloadFixed(s1, "P", dir, AlwaysCompiles()) == LoadPluginState(start, p.path, dir, AlwaysCompiles());
    LoadPluginRegistry(start, p.path, dir, AlwaysCompiles());
    OneScriptLoads(r2, newCode);
    AliasGetsNewCode(r2, newCode);
  }

  /** The corrected unload of one script takes its full name and its alias
      out of the JavaScript interpreter. */
  lemma UnloadOneWithAlias(r0: EM.Registry, key: string, base: string, name: string, short: string)
    requires EM.Consistent(r0)
    requires StripExt(key) == name && StartsWith(name, base + ".") && short == name[|base| + 1..] && short != name
    requires EM.Lookup(r0.extensions, name) == Some(EM.Js) && EM.Lookup(r0.extensions, short) == Some(EM.Js)
    ensures var r := UnloadWithAliases(r0, [key], base);
      EM.Consistent(r) && name !in r.js && short !in r.js
  {
    var r1 := EM.Unload(r0, name).0;
    EM.UnloadSpec(r0, name, short);
    var r2 := EM.Unload(r1, short).0;
    EM.UnloadSpec(r1, short, name);
    assert [key][1..] == [];
    assert UnloadWithAliases(r0, [key], base) == UnloadWithAliases(r2, [], base);
  }

  /** The corrected unload takes both of `P`'s names out of the
      interpreter. */
  lemma FixedUnloadClears(r0: EM.Registry)
    requires EM.Consistent(r0)
    requires EM.Lookup(r0.extensions, "a") == Some(EM.Js) && EM.Lookup(r0.extensions, "P.a") == Some(EM.Js)
    ensures var r := UnloadWithAliases(r0, ["P.a.js"], "P");
      EM.Consistent(r) && "P.a" !in r.js && "a" !in r.js
  {
    OneScriptNames("");
    UnloadOneWithAlias(r0, "P.a.js", "P", "P.a", "a");
  }

  /** Loading a JavaScript script whose full name and alias are both free
      registers both with its code. */
  lemma LoadWithAliasFresh(reg: EM.Registry, base: string, name: string, short: string, code: string,
                           compiles: Compiler)
    requires StartsWith(name, base + ".") && short == name[|base| + 1..] && short != name
    requires compiles(EM.Js, name, code) && compiles(EM.Js, short, code)
    requires name !in reg.js && short !in reg.js
    ensures LoadWithAlias(reg, EM.Js, base, name, code, compiles).js == reg.js[name := code][short := code]
  {
    var (r1, ok) := EM.LoadJs(reg, name, code, true);
    assert ok && r1.js == reg.js[name := code];
    assert short !in r1.js;
  }

  /** ... and registers both as JavaScript, keeping the registry sorted. */
  lemma LoadWithAliasFreshKinds(reg: EM.Registry, base: string, name: string, short: string, code: string,
                                compiles: Compiler)
    requires EM.Consistent(reg)
    requires StartsWith(name, base + ".") && short == name[|base| + 1..] && short != name
    requires compiles(EM.Js, name, code) && compiles(EM.Js, short, code)
    requires name !in reg.js && short !in reg.js
    ensures var r := LoadWithAlias(reg, EM.Js, base, name, code, compiles);
      EM.Consistent(r) && EM.Lookup(r.extensions, name) == Some(EM.Js) && EM.Lookup(r.extensions, short) == Some(EM.Js)
  {
    var r1 := EM.LoadJs(reg, name, code, compiles(EM.Js, name, code)).0;
    EM.LoadJsSpec(reg, name, code, compiles(EM.Js, name, code), short);
    EM.LoadJsSpec(r1, short, code, compiles(EM.Js, short, code), name);
    assert LoadWithAlias(reg, EM.Js, base, name, code, compiles)
      == EM.LoadJs(r1, short, code, compiles(EM.Js, short, code)).0;
  }

  /** Loading `P` into a registry that holds none of its names registers
      the alias with the new code. */
  lemma AliasGetsNewCode(reg: EM.Registry, code: string)
    requires "P.a" !in reg.js && "a" !in reg.js
    ensures var r := LoadWithAlias(reg, EM.Js, "P", "P.a", code, AlwaysCompiles());
      "a" in r.js && r.js["a"] == code
  {
    OneScriptNames(code);
    LoadWithAliasFresh(reg, "P", "P.a", "a", code, AlwaysCompiles());
  }

  /** The service object: its plugin and rule maps, the chat commands it
      registered, and the extension manager it loads into. */
  class Service {
    var loadedPlugins: seq<(string, LoadedPlugin)>
    var pluginRules: RulebookLoader.Rules
    var registered: seq<CommandRegistry.Registration>
    const adapter: EM.Manager

    function State(): ServiceState
      reads this, adapter
    {
      ServiceState(adapter.State(), loadedPlugins, pluginRules, registered)
    }

    ghost predicate Valid()
      reads this, adapter
    {
      adapter.Valid()
    }

    constructor(adapter: EM.Manager)
      requires adapter.Valid()
      ensures Valid() && this.adapter == adapter
      ensures State() == ServiceState(adapter.State(), [], [], [])
    {
      this.adapter := adapter;
      loadedPlugins := [];
      pluginRules := [];
      registered := [];
    }

    /** loadPlugin. */
    method LoadPlugin(path: string, dir: PluginDir, compiles: Compiler) returns (ok: bool)
      requires Valid()
      modifies this, adapter
      ensures Valid()
      ensures (State(), ok) == LoadPluginState(old(State()), path, dir, compiles)
      ensures adapter.Hooks() == old(adapter.Hooks())
    {
      if dir.descriptor.None? {
        return false;
      }
      var descriptor := dir.descriptor.value;
      var scripts: Scripts := [];
      if dir.scriptDir.Some? {
        var complete;
        scripts, complete := LoadScriptsRecursive(dir.scriptDir.value, "", descriptor.name, scripts);
      }
      ghost var reg0 := adapter.State();
      for i := 0 to |scripts|
        invariant adapter.Valid() && adapter.Hooks() == old(adapter.Hooks())
        invariant adapter.State() == LoadScripts(reg0, scripts[..i], descriptor.name, compiles)
        invariant loadedPlugins == old(loadedPlugins) && pluginRules == old(pluginRules) && registered == old(registered)
      {
        LoadScriptsStep(reg0, scripts, descriptor.name, compiles, i);
        LoadScript(descriptor.name, scripts[i].0, scripts[i].1, compiles);
      }
      assert scripts[..|scripts|] == scripts;
      StoreRecords(path, descriptor, dir, scripts);
      return true;
    }

    /** The rest of loadPlugin: the rulebooks, the reply configurations and
        the commands they register, and the plugin's record. */
    method StoreRecords(path: string, descriptor: CommandRegistry.Descriptor, dir: PluginDir, scripts: Scripts)
      modifies this
      ensures pluginRules == if dir.rulebookDir.Some?
        then RulebookLoader.Stored(old(pluginRules), RulebookLoader.YamlFiles(dir.rulebookDir.value))
        else old(pluginRules)
      ensures registered == if |CommandsOf(dir)| > 0
        then old(registered) + CommandRegistry.Registrations(descriptor, CommandsOf(dir))
        else old(registered)
      ensures loadedPlugins == Put(old(loadedPlugins), descriptor.name,
        LoadedPlugin(descriptor.name, path, descriptor, scripts, CommandsOf(dir)))
    {
      if dir.rulebookDir.Some? {
        pluginRules := RulebookLoader.LoadRulebooks(dir.rulebookDir.value, pluginRules);
      }
      var commands: Commands := [];
      if dir.replyDir.Some? {
        var complete;
        commands, complete := LoadReplyConfigs(dir.replyDir.value, commands);
      }
      if |commands| > 0 {
        var added := CommandRegistry.RegisterPluginCommands(descriptor, commands);
        registered := registered + added;
      }
      loadedPlugins := Put(loadedPlugins, descriptor.name, LoadedPlugin(descriptor.name, path, descriptor, scripts, commands));
    }

    /** One script of the map: its name without the extension, a Lua script
        wrapped first, then the alias when the full name loaded. */
    method LoadScript(base: string, scriptName: string, code: string, compiles: Compiler)
      requires Valid()
      modifies adapter
      ensures Valid()
      ensures adapter.State() == LoadOne(old(adapter.State()), base, scriptName, code, compiles)
      ensures adapter.Hooks() == old(adapter.Hooks())
    {
      var wasmScriptName := StripExt(scriptName);
      var kind;
      var processed;
      if EndsWith(scriptName, ".lua") {
        kind, processed := EM.Lua, ScriptWrapper.WrapLua(code);
      } else if EndsWith(scriptName, ".js") {
        kind, processed := EM.Js, code;
      } else {
        return;
      }
      var success := LoadInto(kind, wasmScriptName, processed, compiles);
      if success && StartsWith(wasmScriptName, base + ".") {
        var shortName := wasmScriptName[|base| + 1..];
        var aliased := LoadInto(kind, shortName, processed, compiles);
      }
    }

    /** One interpreter load through the manager. */
    method LoadInto(kind: EM.ExtKind, name: string, code: string, compiles: Compiler) returns (ok: bool)
      requires Valid()
      modifies adapter
      ensures Valid()
      ensures (adapter.State(), ok) == Load(old(adapter.State()), kind, name, code, compiles)
      ensures adapter.Hooks() == old(adapter.Hooks())
    {
      if kind == EM.Lua {
        ok := adapter.LoadLuaExtension(name, code, compiles(kind, name, code));
      } else {
        ok := adapter.LoadJSExtension(name, code, compiles(kind, name, code));
      }
    }

    /** The unload loop of reloadPlugin: each script by its full name. */
    method UnloadScripts(keys: seq<string>)
      requires Valid()
      modifies adapter
      ensures Valid()
      ensures adapter.State() == UnloadFullNames(old(adapter.State()), keys)
      ensures adapter.Hooks() == old(adapter.Hooks())
    {
      for i := 0 to |keys|
        invariant adapter.Valid() && adapter.Hooks() == old(adapter.Hooks())
        invariant UnloadFullNames(adapter.State(), keys[i..]) == UnloadFullNames(old(adapter.State()), keys)
      {
        assert keys[i..][1..] == keys[i + 1..];
        var wasmScriptName := StripExt(keys[i]);
        var unloaded := adapter.UnloadExtension(wasmScriptName);
      }
      assert keys[|keys|..] == [];
    }

    /** reloadPlugin, given the plugin directory as it is now. */
    method ReloadPlugin(name: string, dir: PluginDir, compiles: Compiler) returns (ok: bool)
      requires Valid()
      modifies this, adapter
      ensures Valid()
      ensures (State(), ok) == Reload(old(State()), name, dir, compiles)
      ensures adapter.Hooks() == old(adapter.Hooks())
    {
      var plugin := Get(loadedPlugins, name);
      if plugin.None? {
        return false;
      }
      UnloadScripts(Keys(plugin.value.scripts));
      loadedPlugins := Delete(loadedPlugins, name);
      ok := LoadPlugin(plugin.value.path, dir, compiles);
    }

    /** queryPluginRule. */
    function QueryPluginRule(ruleName: string, keyword: string): (r: Option<Lookup<string>>)
      reads this
      ensures Get(pluginRules, ruleName).None? ==> r.None?
      ensures r.Some? && r.value.Own? ==>
        Get(pluginRules, ruleName).Some? && r.value.value != "" && Get(Get(pluginRules, ruleName).value, keyword) == Some(r.value.value)
      ensures r.Some? && r.value.Inherited? ==> r.value.member == keyword && keyword in ObjectPrototypeMembers
    {
      QueryRule(pluginRules, ruleName, keyword)
    }

    /** getPlugin. */
    function GetPlugin(name: string): (p: Option<LoadedPlugin>)
      reads this
      ensures p.Some? <==> name in Keys(loadedPlugins)
    {
      Get(loadedPlugins, name)
    }

    /** listPluginRules: the rule names in the order the `Map` holds them. */
    function ListPluginRules(): (names: seq<string>)
      reads this
      ensures |names| == |pluginRules|
      ensures forall i :: 0 <= i < |names| ==> names[i] == pluginRules[i].0
      ensures forall n :: n in names <==> Get(pluginRules, n).Some?
    {
      Keys(pluginRules)
    }

  }
}
