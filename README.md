# koidice core in Dafny

A model of the deterministic core of koishi-plugin-koidice, a TRPG dice bot for the Koishi chat framework. The bot has a TypeScript side and a native C++ engine compiled to WebAssembly. The model covers three parts:

- **The plugin-extension bridge.** Plugin directories are loaded with their Lua and JavaScript scripts, rulebooks and reply configurations. Scripts are named and given short-name aliases, and chat commands are derived from the reply tables. Lua scripts are wrapped, reply placeholders substituted, and character-card templates read for default attributes and alias maps. The native extension registry loads, dispatches and unloads scripts.
- **The game state.** This covers game sessions with their GM, player, observer and area rosters, the `.game` commands and the roulette pool. It also covers the initiative tracker with its JSON round trip, anko option lists, observer mode, and the character-card tables with their group binding and Lua-table cache.
- **The parsers and rules.** This covers the `.st` attribute parser and attribute-name normalisation, the `.r` and `.ra` argument parsers, the UTF-8 helpers, and the CoC success-level classifiers. It also covers the sanity check, weighted decks with their shuffle, `.en` growth, the `.coc` parameters, the World of Darkness dice pool, the rule quick reference and the adapter's result formatting.

Each source file is one Dafny module. Pure functions of the source are Dafny functions with lemmas. Objects that the source updates in place are classes whose methods are proved against those functions. These objects are the extension registry, the extension and game-session services, the initiative tracker, the anko and observer maps, the card store and the adapter. Loops of the source are methods with invariants. Dice rolls, random numbers, the clock, file contents and the output of foreign parsers and interpreters are parameters of the model.

Where the code and its documentation differ, the model follows the code as written. One example: `normalizeAttributeName` in src/commands/character/types.ts is documented as an alias lookup. As written, though, it also answers for property names inherited by every JavaScript object. The stateful parts (the services, the tracker and the registry) follow the code as written too. Where the code looks wrong, "## Findings" names a member that shows the discrepancy and a corrected definition proved beside it; the corrected definitions are not used by the stateful parts.

## Model

| member | source | states |
|---|---|---|
| ExtensionService.DotPath | src/services/extension-service.ts:250 | the relative path with every `/` or `\` replaced by `.`: same length, every other character kept, no separator left |
| ExtensionService.DotPathKeepsSuffix | src/services/extension-service.ts:250 | a separator-free suffix such as `.lua` or `.js` survives the dot conversion |
| ExtensionService.ScriptKey | src/services/extension-service.ts:249-250 | a script's key is the plugin name, a dot, then the dotted relative path |
| ExtensionService.ScriptKeyKeepsSuffix | src/services/extension-service.ts:249-250 | the key of a file keeps the file's extension |
| ExtensionService.ScriptKeyOfScript | src/services/extension-service.ts:241-252 | the key of a `.lua`/`.js` file is again a script name and lies in the plugin's name space |
| ExtensionService.PutPluginScript | src/services/extension-service.ts:252 | storing a script under such a key keeps every stored key a script of the plugin |
| ExtensionService.CollectScriptsOnly | src/services/extension-service.ts:226-255 | the recursive scan stores only `.lua`/`.js` files, all keyed in the plugin's name space |
| ExtensionService.LoadScriptsRecursive | src/services/extension-service.ts:226-255 | the directory walk returns exactly the map the recursive definition collects, and whether the walk completed |
| ExtensionService.StripExt | src/services/extension-service.ts:133 | a `.lua` or `.js` name loses exactly that extension; any other name is unchanged |
| ExtensionService.LoadScriptsStep | src/services/extension-service.ts:125-172 | loading one more script of the map is loading the prefix and then that script |
| ExtensionService.AliasOnlyAfterFullLoad | src/services/extension-service.ts:136-158 | the short alias is registered only after the full name loaded and only when the name starts with the plugin name and a dot; a failed load changes nothing |
| ExtensionService.LoadSpec | src/services/extension-service.ts:139-150 | a load registers the name under its interpreter when it succeeds, leaves the registry unchanged when it fails, and touches no other name |
| ExtensionService.LoadOneSpec | src/services/extension-service.ts:126-161 | loading one entry keeps the registry consistent, and a file that is neither `.lua` nor `.js` loads nothing |
| ExtensionService.LoadScriptsConsistent | src/services/extension-service.ts:125-172 | the load loop keeps the registry consistent |
| ExtensionService.TomlFiles | src/services/extension-service.ts:265 | exactly the `.toml` files of the reply directory, in order |
| ExtensionService.ReplyConfigsKeep | src/services/extension-service.ts:270-281 | a command defined before the reply files are read stays defined |
| ExtensionService.LastDefinitionWins | src/services/extension-service.ts:276-281 | a command in the last reply file is answered with that file's definition |
| ExtensionService.ReplyConfigsLast | src/services/extension-service.ts:260-283 | reading one more file with a reply table spreads that table over the commands read so far |
| ExtensionService.SetCommands | src/services/extension-service.ts:277-280 | the loop over a reply table sets each command, later entries replacing earlier ones |
| ExtensionService.LoadReplyConfigs | src/services/extension-service.ts:260-283 | the reply loader's result is the spread of every `.toml` file's reply table in order, and whether all were read |
| ExtensionService.LoadPluginRecords | src/services/extension-service.ts:92-216 | a plugin without a descriptor fails and changes nothing; otherwise its record is stored under its name with its path, replacing an older record of the same name |
| ExtensionService.LoadPluginScripts | src/services/extension-service.ts:110-123 | every script in a loaded plugin's record is a `.lua`/`.js` key in the plugin's name space |
| ExtensionService.QueryAfterRulebook | src/services/extension-service.ts:302-308 | after a rulebook for a system is stored, a query on that system answers the rulebook's non-empty entry for the keyword and nothing otherwise |
| ExtensionService.UnloadKeepsOther | src/services/extension-service.ts:328-331 | unloading one name keeps any other registered script and its code |
| ExtensionService.UnloadFullNamesKeeps | src/services/extension-service.ts:328-331 | the reload's unload loop keeps every name that is not one of the full names, so every short alias survives with its old code |
| ExtensionService.UnloadWithAliasesClears | src/services/extension-service.ts:320-336 | unloading full names and their aliases removes every such name and leaves every other name as it was |
| ExtensionService.UnloadLookupNone | src/services/extension-service.ts:328-331 | a name that was not registered is still not registered after the unloads |
| ExtensionService.ReloadKeepsStaleAlias | src/services/extension-service.ts:320-336 | for any old and new code, after a reload the short alias still runs the old code |
| ExtensionService.ReloadFixedRefreshesAlias | src/services/extension-service.ts:320-336 | for any old and new code, when the reload also unloads the aliases the short alias runs the new code |
| ExtensionService.NoLoadOverAnAlias | src/services/extension-service.ts:149-158 | loading a JS script and its alias never replaces the code of a name already registered, a stale alias included |
| ExtensionService.LoadOneScriptPlugin | src/services/extension-service.ts:92-216 | loading plugin `P` with one script `a.js` stores the script under `P.a.js` and registers `P.a` and its alias `a`, both as JavaScript holding the code |
| ExtensionService.LoadWithAliasFresh | src/services/extension-service.ts:149-158 | when the full name and the alias are both free, the JS load registers both with the script's code |
| ExtensionService.LoadWithAliasFreshKinds | src/services/extension-service.ts:149-158 | that load keeps the registry consistent and records both names as JavaScript |
| ExtensionService.UnloadOneWithAlias | src/services/extension-service.ts:320-336 | the corrected unload of one script removes its full name and its alias from the JS interpreter and keeps the registry consistent |
| ExtensionService.FixedUnloadClears | src/services/extension-service.ts:320-336 | for plugin `P` the corrected unload removes both `P.a` and `a` |
| ExtensionService.AliasGetsNewCode | src/services/extension-service.ts:136-158 | with neither name taken, both the full name and the alias get the new code |
| ExtensionService.Service.constructor | src/services/extension-service.ts:28-38 | a new service has no plugins, no rules and no registered commands |
| ExtensionService.Service.LoadPlugin | src/services/extension-service.ts:92-217 | loadPlugin changes the service exactly as the load of the plugin directory defines, and reports whether a descriptor was found |
| ExtensionService.Service.StoreRecords | src/services/extension-service.ts:174-216 | the rulebooks, the reply commands and the plugin's record are stored, and nothing is registered without commands |
| ExtensionService.Service.LoadScript | src/services/extension-service.ts:125-172 | one entry of the script map is loaded as the load of one script defines |
| ExtensionService.Service.LoadInto | src/services/extension-service.ts:139-150 | a script goes to the Lua or the JS loader by its kind |
| ExtensionService.Service.UnloadScripts | src/services/extension-service.ts:328-331 | the unload loop as written: each key of the plugin's script map, stripped of `.lua`/`.js`, is unloaded by that full name only, in order; the registry ends as `UnloadFullNames` of the old one |
| ExtensionService.Service.ReloadPlugin | src/services/extension-service.ts:320-336 | reloadPlugin as written: the new service and the result are those of `Reload`, which fails on an unknown plugin without change and otherwise unloads the scripts by full name, forgets the record and loads the plugin again from its path |
| ExtensionService.Service.QueryPluginRule | src/services/extension-service.ts:302-308 | an unknown rule system gives `undefined`; an own entry of the manual is returned when non-empty and an empty one gives `undefined`; a keyword the manual lacks that names a member every object inherits (`toString`, `constructor`, ...) returns that member, any other gives `undefined` |
| ExtensionService.Service.GetPlugin | src/services/extension-service.ts:295-297 | a plugin is found exactly when it is loaded |
| ExtensionService.Service.ListPluginRules | src/services/extension-service.ts:313-315 | one name per stored rulebook, in the order the `Map` holds them, each the key at that position; a name is listed exactly when a rulebook is stored under it |
| ExtensionService.QueryRule | src/services/extension-service.ts:302-308 | the query on a rule map: `undefined` for an unknown system; an own entry only when non-empty, and then the manual's value under the keyword; an inherited member only for a keyword in the set every object inherits |
| ExtensionService.QueryInheritedMember | src/services/extension-service.ts:304-305 | as written, `toString` on a manual without that key is answered with the inherited function, which is truthy |
| JsValues.ReadProperty | src/services/extension-service.ts:304-305 | `obj[key]` on a plain object: an own key gives its value; a key it lacks gives the inherited member exactly when it names one every object inherits, and `undefined` otherwise |
| JsValues.Assign | src/services/game-session-service.ts:317-318 | `obj[key] = v` on a plain object stores `v` as the own value of the key, except that `__proto__` without an own `__proto__` goes to the inherited setter and stores nothing; other keys keep their values, and an object without an own `__proto__` never gains one |
| CommandRegistry.ScriptOf | src/services/extension/command-registry.ts:32-37 | a command has a script exactly when its Lua or JavaScript echo is non-empty, and Lua wins |
| CommandRegistry.Qualify | src/services/extension/command-registry.ts:39-42 | the script name always starts with `<plugin>.`; a name that already does is kept, any other gets the prefix |
| CommandRegistry.QualifyIdempotent | src/services/extension/command-registry.ts:39-42 | qualifying an already qualified name changes nothing |
| CommandRegistry.CommandName | src/services/extension/command-registry.ts:45 | a prefix starting with `.` loses exactly that dot; any other is the command name as is |
| CommandRegistry.DefaultCommandName | src/services/extension/command-registry.ts:31-45 | without a configured prefix the command is named after its configuration key |
| CommandRegistry.RegisterPluginCommands | src/services/extension/command-registry.ts:12-101 | the loop registers the commands in order, each that names a script, skipping the others |
| CommandRegistry.RegistrationsInNameSpace | src/services/extension/command-registry.ts:28-42 | every registered command calls a script qualified by the plugin's name |
| CommandRegistry.RegistrationsCount | src/services/extension/command-registry.ts:28-37 | there is exactly one registration per command that names a script |
| CommandRegistry.CardHeaderGet | src/services/extension/command-registry.ts:123-127 | the card data starts with `__Name` and `name` set to the card name and `type` to the card type |
| CommandRegistry.CharDataFields | src/services/extension/command-registry.ts:123-128 | the card's own attributes win over the three fixed fields; a fixed field the attributes lack keeps the card's name or type |
| CommandRegistry.CharDataAll | src/services/extension/command-registry.ts:123-128 | for a card with distinct attribute keys, every key of the character data reads the card's own attribute when it has one and the fixed field otherwise |
| CommandRegistry.BuildExtensionContext | src/services/extension/command-registry.ts:106-153 | the suffix is the arguments joined by spaces; `uid` is the user id or empty; `gid` the guild, else the channel, else empty; the context is private exactly without a guild; with an active card of distinct keys, each key of the character data is the card's attribute, else the fixed field; no game session gives an empty game and a session is passed whole; the plugin rules are the service's, key for key and in order |
| CommandRegistry.Reply | src/services/extension/command-registry.ts:67-89 | a call that threw replies `[错误] ` and the message; an empty reply stays empty |
| CommandRegistry.PlainReplyPassesThrough | src/services/extension/command-registry.ts:72-85 | a reply without `{` reaches the user exactly as the extension wrote it |
| ScriptWrapper.OrElse | src/services/extension/script-wrapper.ts:104-109 | `a \|\| b` on optional strings: a present, non-empty value wins, otherwise the fallback |
| ScriptWrapper.AssembleShape | src/services/extension/script-wrapper.ts:18-87 | the assembled chunk starts with its head, ends with its tail and holds the script body |
| ScriptWrapper.WrappedShape | src/services/extension/script-wrapper.ts:18-87 | the wrapped chunk opens with `return function(msg)`, closes with `end` and holds the script body unchanged |
| ScriptWrapper.WrapLua | src/services/extension/script-wrapper.ts:6-88 | a script whose trimmed text is already in `return function` form is returned trimmed; any other is wrapped, untrimmed, in the template |
| ScriptWrapper.OpeningPrefix | src/services/extension/script-wrapper.ts:13-18 | the template's opening is `return`, a space and `function` |
| ScriptWrapper.OpeningIsFunctionForm | src/services/extension/script-wrapper.ts:13-18 | any text that begins with the template's opening matches `^return\s+function` |
| ScriptWrapper.FramedIsTrimmed | src/services/extension/script-wrapper.ts:10-18 | text framed by the template's opening and `end` has no white space to trim |
| ScriptWrapper.WrappedIsFunctionForm | src/services/extension/script-wrapper.ts:10-18 | a wrapped chunk is its own trim and is in `return function` form |
| ScriptWrapper.WrapLuaIdempotent | src/services/extension/script-wrapper.ts:6-88 | the wrapper's output is always in `return function` form, so wrapping it again returns it unchanged |
| ScriptWrapper.Steps | src/services/extension/script-wrapper.ts:103-109 | six replacements, each of a placeholder `{name}` |
| ScriptWrapper.NoBraceUnchanged | src/services/extension/script-wrapper.ts:103-109 | replacing a pattern that starts with `{` leaves text without `{` unchanged |
| ScriptWrapper.OtherPlaceholder | src/services/extension/script-wrapper.ts:103-109 | replacing one placeholder leaves a different placeholder unchanged |
| ScriptWrapper.ChainOnNoBrace | src/services/extension/script-wrapper.ts:103-109 | a chain of placeholder replacements leaves text without `{` unchanged |
| ScriptWrapper.ChainResolves | src/services/extension/script-wrapper.ts:103-109 | in a chain, a placeholder becomes the value of its first replacement when that value has no `{` |
| ScriptWrapper.PlainReplyUnchanged | src/services/extension/script-wrapper.ts:93-110 | a reply without `{` comes back from `replacePlaceholders` unchanged |
| ScriptWrapper.StepsDistinct | src/services/extension/script-wrapper.ts:104-109 | the six placeholders are pairwise distinct |
| ScriptWrapper.PlaceholderResolvesAt | src/services/extension/script-wrapper.ts:104-109 | each placeholder alone resolves to its own value when that value has no `{` |
| ScriptWrapper.PlaceholdersResolve | src/services/extension/script-wrapper.ts:104-109 | `{self}` and `{nick}` become the user name, else the user id, else `你`; `{uid}` the user id; `{gid}` the guild, else the channel; `{card}` the character name, else `角色卡`; `{pc}` the character name, else empty |
| TemplateParser.PropertyOf | src/services/extension/template-parser.ts:51-69 | a kept node's property carries its name and alias; it has a text exactly when the node's text is set, and a formula (the trimmed body) exactly when both text and body are set; no default value |
| TemplateParser.PropertiesCount | src/services/extension/template-parser.ts:45-71 | there is exactly one property per node that has both a name and an alias |
| TemplateParser.PropertiesMembers | src/services/extension/template-parser.ts:45-71 | the properties are exactly those of the kept nodes |
| TemplateParser.ParseTemplate | src/services/extension/template-parser.ts:25-82 | no template exactly when the model element or its name is missing; otherwise the model's name and the kept nodes' properties in order |
| TemplateParser.NamesOf | src/services/extension/template-parser.ts:94-101 | the display names of the properties, one per property, in order |
| TemplateParser.DefaultsKeys | src/services/extension/template-parser.ts:94-102 | every key the first loop sets is the name of a property without a formula |
| TemplateParser.EvaluateKeys | src/services/extension/template-parser.ts:105-130 | every key the second loop adds is the name of a property with a JavaScript formula |
| TemplateParser.AttributeKeysAreNames | src/services/extension/template-parser.ts:89-133 | every key of the generated record is a property's display name (never an alias), of a property with no formula or a JavaScript one |
| TemplateParser.DistinctInit | src/services/extension/template-parser.ts:94 | a prefix of distinctly named properties is distinctly named |
| TemplateParser.DefaultsValue | src/services/extension/template-parser.ts:94-102 | with distinct names, a property without a formula gets its default or 0, and one with a formula is not set by the first loop; a property named `__proto__` is not set either, since the assignment goes to the inherited setter |
| TemplateParser.DefaultsNeverStoreProto | src/services/extension/template-parser.ts:94-102 | the first loop never stores an own `__proto__` |
| TemplateParser.EvaluateNeverStoresProto | src/services/extension/template-parser.ts:105-130 | nor does the second loop, on a record without one |
| TemplateParser.EvaluateStoresOwn | src/services/extension/template-parser.ts:105-130 | a key the second loop's input can store as its own stays storable after the loop |
| TemplateParser.NewNameAbsent | src/services/extension/template-parser.ts:94-102 | with distinct names, the first loop over the earlier properties has not set the last one's name |
| TemplateParser.EvaluateKeeps | src/services/extension/template-parser.ts:105-130 | a name with no JavaScript formula keeps the value the first loop gave it |
| TemplateParser.EvaluateSets | src/services/extension/template-parser.ts:105-130 | for the last JavaScript formula of a name, the name ends with the value evaluation gives to that formula, after the `this.` references are replaced by the values the loop had computed before it, or 0 when evaluation fails; an unstored `__proto__` stays unset |
| TemplateParser.EvaluateLast | src/services/extension/template-parser.ts:105-130 | one more turn of the second loop: a JavaScript formula of the property's own name sets that name to its evaluation (or 0) unless the name is an unstored `__proto__`, and every other key keeps its value |
| TemplateParser.DefaultAttributesValues | src/services/extension/template-parser.ts:89-133 | with distinct names: no formula gives the default or 0; a formula that is not JavaScript leaves the property out; a JavaScript formula gives its evaluation, with the `this.` references replaced by the values computed for the properties before it, or 0; a property named `__proto__` is never set |
| TemplateParser.FailedEvaluationGivesZero | src/services/extension/template-parser.ts:123-128 | when every evaluation fails, each JavaScript property is set to 0, except `__proto__`, which stays unset |
| TemplateParser.SubstituteWithoutReferences | src/services/extension/template-parser.ts:112-120 | a formula without `this.` is left unchanged by the substitution |
| TemplateParser.ReferenceNeedsPrefix | src/services/extension/template-parser.ts:115-118 | text without `this.` holds no `this.<x>` reference |
| TemplateParser.ValueText | src/services/extension/template-parser.ts:113 | `String(attributes[name] ?? 0)`: a stored value is rendered as its number, an unset name every object inherits as the inherited member's text, any other unset name as `0` |
| TemplateParser.SubstituteReference | src/services/extension/template-parser.ts:112-120 | `this.<alias>` becomes the property's current value as read from the record: its number, the inherited member's text, or 0 |
| TemplateParser.ValueTextHasNoReference | src/services/extension/template-parser.ts:113-118 | no substituted value contains `this.`, so substituted values are not substituted again |
| TemplateParser.InheritedTextHasNoDot | src/services/extension/template-parser.ts:113 | the text of an inherited member holds no `.` |
| TemplateParser.MemberHasNoDot | src/services/extension/template-parser.ts:113 | no name of a member every object inherits holds a `.` |
| TemplateParser.NoDotNoReference | src/services/extension/template-parser.ts:115-118 | text without a `.` holds no `this.` |
| TemplateParser.NumberHasNoReference | src/services/extension/template-parser.ts:116 | a rendered number holds no `this.` |
| TemplateParser.AliasMapStep | src/services/extension/template-parser.ts:144-146 | the last property's alias maps to its name unless it is `__proto__`; any other alias maps as before it; `__proto__` is never in the map |
| TemplateParser.AliasMapNeverStoresProto | src/services/extension/template-parser.ts:140-148 | the alias map never holds an own `__proto__` |
| TemplateParser.AliasesOf | src/services/extension/template-parser.ts:144-146 | the aliases of the properties, one per property, in order |
| TemplateParser.AliasMapAbsent | src/services/extension/template-parser.ts:140-148 | an alias no property has is not in the map |
| TemplateParser.LastWithAlias | src/services/extension/template-parser.ts:144-146 | the position found is the last one before the bound with that alias, or -1 when none is |
| TemplateParser.AliasMapPresent | src/services/extension/template-parser.ts:140-148 | a property's alias is in the map exactly when it is not `__proto__` |
| TemplateParser.AliasMapLastWins | src/services/extension/template-parser.ts:144-146 | an alias shared by several properties maps to the name of the last of them; the alias `__proto__` maps to nothing |
| TemplateParser.CreateAliasMap | src/services/extension/template-parser.ts:140-148 | the loop builds the alias map of the template's properties |
| TemplateParser.GenerateDefaultAttributes | src/services/extension/template-parser.ts:89-133 | the two loops build the default-attribute record of the template |
| TemplateParser.SubstituteAll | src/services/extension/template-parser.ts:109-120 | the inner loop computes the substituted formula |
| RulebookLoader.YamlFiles | src/services/extension/rulebook-loader.ts:17-19 | a file is kept exactly when it is in the listing and its name ends in `.yaml` or `.yml`; the list never grows |
| RulebookLoader.StoredStep | src/services/extension/rulebook-loader.ts:22-42 | storing one more file is storing that file into the map left by the ones before it |
| RulebookLoader.LoadRulebooks | src/services/extension/rulebook-loader.ts:8-43 | the loop leaves the rule map as the YAML files, stored in order, make it |
| RulebookLoader.SkipUnusable | src/services/extension/rulebook-loader.ts:28-41 | a file without a rule name and a manual, or one that failed to read or parse, leaves the map as it was |
| RulebookLoader.LaterFileReplaces | src/services/extension/rulebook-loader.ts:28-33 | a usable file's manual replaces whatever its rule name held, whole, and every other rule is untouched |
| RulebookLoader.StoredKeys | src/services/extension/rulebook-loader.ts:22-42 | loading only adds rule names, and each new name comes from a usable file |
| RulebookLoader.StoreKeys | src/services/extension/rulebook-loader.ts:28-33 | storing a usable file under a new rule name appends that name to the key order; an existing name keeps its place |
| RulebookLoader.StoredKeepsOrder | src/services/extension/rulebook-loader.ts:22-42 | the names held before the loop keep their positions, in their old order, at the front of the key order |
| ExtensionManager.LessIrreflexive | wasm/src/extensions/extension_manager.cpp:14 | the key order of the registry's `std::map` is irreflexive |
| ExtensionManager.LessTransitive | wasm/src/extensions/extension_manager.cpp:14 | the key order is transitive |
| ExtensionManager.LessTotal | wasm/src/extensions/extension_manager.cpp:14 | any two distinct names are ordered one way or the other |
| ExtensionManager.Names | wasm/src/extensions/extension_manager.cpp:14 | the registered names are exactly the names of the entries |
| ExtensionManager.Lookup | wasm/src/extensions/extension_manager.cpp:68-126 | a name is found exactly when it is registered |
| ExtensionManager.SortedCons | wasm/src/extensions/extension_manager.cpp:14 | an entry below every registered name can go in front of a sorted registry |
| ExtensionManager.SortedTail | wasm/src/extensions/extension_manager.cpp:14 | the rest of a sorted registry is sorted and above its first name |
| ExtensionManager.Insert | wasm/src/extensions/extension_manager.cpp:48-62 | `extensions[name] = info` adds exactly that name to the registered names |
| ExtensionManager.InsertSorted | wasm/src/extensions/extension_manager.cpp:48-62 | registering keeps the registry sorted |
| ExtensionManager.InsertLookup | wasm/src/extensions/extension_manager.cpp:48-62 | after registering, the name finds its new kind, and every other name finds what it found before |
| ExtensionManager.Remove | wasm/src/extensions/extension_manager.cpp:100 | erasing removes exactly that name from the registered names |
| ExtensionManager.RemoveLookup | wasm/src/extensions/extension_manager.cpp:100 | after erasing, the name is not found and every other name finds what it found before |
| ExtensionManager.RemoveSorted | wasm/src/extensions/extension_manager.cpp:100 | erasing keeps the registry sorted |
| ExtensionManager.LoadLuaSpec | wasm/src/extensions/extension_manager.cpp:39-51 | a Lua load succeeds exactly for a compiling script under a name the interpreter does not hold; success registers the name as Lua and stores the code, failure changes nothing, other names are untouched, and the registry stays sorted |
| ExtensionManager.LoadJsSpec | wasm/src/extensions/extension_manager.cpp:53-65 | the same for JavaScript |
| ExtensionManager.UnloadSpec | wasm/src/extensions/extension_manager.cpp:86-102 | unloading succeeds exactly for a registered name; afterwards the name is gone, other names are untouched, the script leaves only its own interpreter's table, and the registry stays sorted |
| ExtensionManager.CallDispatch | wasm/src/extensions/extension_manager.cpp:67-84 | an unknown name gives the `not found` error whatever the interpreters would do; a known one gives its interpreter's reply, or `[Error] ` and the message when it throws |
| ExtensionManager.ListEmpty | wasm/src/extensions/extension_manager.cpp:104-107 | the listing is the fixed `No extensions loaded.` exactly when nothing is registered |
| ExtensionManager.Manager.constructor | wasm/src/extensions/extension_manager.cpp:22-28 | a new manager holds no extensions, no scripts and no callbacks |
| ExtensionManager.Manager.LoadLuaExtension | wasm/src/extensions/extension_manager.cpp:39-51 | the new state and result are those of the Lua load specification, and the callbacks are untouched |
| ExtensionManager.Manager.LoadJSExtension | wasm/src/extensions/extension_manager.cpp:53-65 | the new state and result are those of the JavaScript load specification, and the callbacks are untouched |
| ExtensionManager.Manager.CallExtension | wasm/src/extensions/extension_manager.cpp:67-84 | the reply is the one `callExtension` specifies for the current state |
| ExtensionManager.Manager.UnloadExtension | wasm/src/extensions/extension_manager.cpp:86-102 | the new state and result are those of the unload specification, and the callbacks are untouched |
| ExtensionManager.Manager.HasExtension | wasm/src/extensions/extension_manager.cpp:125-127 | true exactly when the name is registered |
| ExtensionManager.Manager.SetUserDataGetCallback | wasm/src/extensions/extension_manager.cpp:139-141 | installs the user read callback and changes nothing else |
| ExtensionManager.Manager.SetGroupDataGetCallback | wasm/src/extensions/extension_manager.cpp:147-149 | installs the group read callback and changes nothing else |
| ExtensionManager.Manager.SetUserDataSetCallback | wasm/src/extensions/extension_manager.cpp:143-145 | installs the user write callback and changes nothing else |
| ExtensionManager.Manager.SetGroupDataSetCallback | wasm/src/extensions/extension_manager.cpp:151-153 | installs the group write callback and changes nothing else |
| ExtensionManager.Manager.CallUserDataGet | wasm/src/extensions/extension_manager.cpp:155-160 | the installed callback's answer, or empty text without one |
| ExtensionManager.Manager.CallGroupDataGet | wasm/src/extensions/extension_manager.cpp:168-173 | the installed callback's answer, or empty text without one |
| ExtensionManager.Manager.CallUserDataSet | wasm/src/extensions/extension_manager.cpp:162-166 | the write is forwarded exactly when a callback is installed; nothing else changes |
| ExtensionManager.Manager.CallGroupDataSet | wasm/src/extensions/extension_manager.cpp:175-179 | the write is forwarded exactly when a callback is installed; nothing else changes |
| ExtensionManager.Manager.Cleanup | wasm/src/extensions/extension_manager.cpp:181-187 | afterwards no extension and no script remains; the callbacks are kept |
| GameSessions.PrivateWindowIsUser | src/services/game-session-service.ts:17-25 | a message with neither guild nor channel belongs to the user's own window |
| GameSessions.WithMembers | src/services/game-session-service.ts:121-132 | writing back one roster changes that roster only, and no other field of the game |
| GameSessions.FindGame | src/services/game-session-service.ts:116-119 | the row found has the id and is the first with it; no row is found only when no row has it |
| GameSessions.IndexOf | src/services/game-session-service.ts:145-147 | the first position holding the id, and no position exactly when the id is absent |
| GameSessions.AddedDistinct | src/services/game-session-service.ts:121-124 | adding an absent id to a roster without duplicates keeps it without duplicates and contains the id |
| GameSessions.RemovedOne | src/services/game-session-service.ts:145-149 | removing an id in the roster takes out exactly one occurrence, the first |
| GameSessions.RemovedDistinct | src/services/game-session-service.ts:145-149 | removing from a roster without duplicates leaves the id absent |
| GameSessions.AddMemberSpec | src/services/game-session-service.ts:115-134 | an add succeeds exactly when the game exists and the id is new to the roster; it appends the id and changes nothing else; a refused add changes nothing |
| GameSessions.RemoveMemberSpec | src/services/game-session-service.ts:139-159 | a remove succeeds exactly when the game exists and the id is in the roster; it removes one occurrence and changes nothing else |
| GameSessions.AddMemberKeepsDistinct | src/services/game-session-service.ts:115-134 | adds keep every roster free of duplicates |
| GameSessions.RemoveMemberKeepsDistinct | src/services/game-session-service.ts:139-159 | removes keep every roster free of duplicates, and the removed id is gone from the roster |
| GameSessions.JoiningMakesParticipant | src/services/game-session-service.ts:411-429 | a user added as GM or player is a participant of the game |
| GameSessions.ObservingIsNotParticipating | src/services/game-session-service.ts:411-429 | becoming an observer does not make a user a participant |
| GameSessions.GetConfig | src/services/game-session-service.ts:333-341 | a game that does not exist gives `undefined`; an own setting gives its value; an unset key gives the inherited member when it names one every object inherits, and `undefined` otherwise |
| GameSessions.SetConfigThenGet | src/services/game-session-service.ts:311-341 | a configuration value set is read back as an own value, and other keys read as before; setting `__proto__` on a configuration without such an own key stores nothing and the key still reads as the inherited prototype |
| GameSessions.ClearRoulette | src/services/game-session-service.ts:381-390 | clearing empties the roulette of every row with the id and leaves every other row unchanged |
| GameSessions.SetRouletteThenGet | src/services/game-session-service.ts:346-376 | the roulette data stored for a face is read back |
| GameSessions.ClearRouletteEmpties | src/services/game-session-service.ts:368-390 | after a clear no face has roulette data |
| GameSessions.GameToContextFields | src/services/game-session-service.ts:395-406 | the context takes roulette and the logging flag from the row, any other configured key from the configuration, and the rest from the header fields |
| GameSessions.ContextListsGMs | src/services/game-session-service.ts:395-406 | without an override, the context's gm field lists the GMs |
| GameSessions.SessionOf | src/services/game-session-service.ts:30-46 | the session of a window is the first game on the platform whose areas hold the window, and none when no game does |
| GameSessions.SessionByName | src/services/game-session-service.ts:51-60 | the first game with that name on that platform, and none exactly when there is no such game |
| GameSessions.CreateSessionSpec | src/services/game-session-service.ts:65-102 | an unnamed game advances the counter; a name already used is an error that adds no row; a created game has empty rosters, the window as its one area, a fresh id and a name unused on the platform |
| GameSessions.CreatedSessionIsFound | src/services/game-session-service.ts:30-102 | the created game is the session of its window when no earlier game covered that window |
| GameSessions.Destroy | src/services/game-session-service.ts:107-110 | exactly the rows without the id remain |
| GameSessions.SameIdKeepsFresh | src/services/game-session-service.ts:115-390 | rewriting a row under its own id keeps the ids unique and below the next id |
| GameSessions.DestroyKeepsFresh | src/services/game-session-service.ts:107-110 | deleting rows keeps the ids unique and below the next id |
| GameSessions.DestroyUnique | src/services/game-session-service.ts:107-110 | deleting rows keeps the remaining ids unique |
| GameSessions.Service.constructor | src/services/game-session-service.ts:10-12 | a new service has counter zero and no games |
| GameSessions.Service.FindRow | src/services/game-session-service.ts:116-119 | the database lookup by id finds the row FindGame defines |
| GameSessions.Service.GetSession | src/services/game-session-service.ts:30-46 | a game is returned exactly when some game on the platform covers the window, and it is the first such game |
| GameSessions.Service.CreateSessionIn | src/services/game-session-service.ts:65-102 | createSession changes counter, table and next id as the creation defines and returns its result |
| GameSessions.Service.DestroySession | src/services/game-session-service.ts:107-110 | destroySession deletes the rows with the id and keeps the counter |
| GameSessions.Service.Add | src/services/game-session-service.ts:115-134 | one add on a roster, as AddMember defines |
| GameSessions.Service.Remove | src/services/game-session-service.ts:139-159 | one remove from a roster, as RemoveMember defines |
| GameSessions.Service.AddGM | src/services/game-session-service.ts:115-134 | addGM adds to the GM roster |
| GameSessions.Service.RemoveGM | src/services/game-session-service.ts:139-159 | removeGM removes from the GM roster |
| GameSessions.Service.AddPlayer | src/services/game-session-service.ts:164-183 | addPlayer adds to the player roster |
| GameSessions.Service.RemovePlayer | src/services/game-session-service.ts:188-208 | removePlayer removes from the player roster |
| GameSessions.Service.AddObserver | src/services/game-session-service.ts:213-232 | addObserver adds to the observer roster |
| GameSessions.Service.RemoveObserver | src/services/game-session-service.ts:237-257 | removeObserver removes from the observer roster |
| GameSessions.Service.AddArea | src/services/game-session-service.ts:262-281 | addArea adds a window to the game's areas |
| GameSessions.Service.RemoveArea | src/services/game-session-service.ts:286-306 | removeArea removes a window from the game's areas |
| GameSessions.Service.SetConfigIn | src/services/game-session-service.ts:311-328 | setConfig stores the value under the key of an existing game, except a `__proto__` that the configuration does not hold as its own key, which changes nothing |
| GameSessions.Service.SetRouletteIn | src/services/game-session-service.ts:346-363 | setRoulette stores the data under the face of an existing game |
| GameSessions.Service.ClearRouletteIn | src/services/game-session-service.ts:381-390 | clearRoulette empties the game's roulette |
| GameCommands.SplitRuleFrom | src/commands/game.ts:35-39 | a match is one of the listed rules, a dash and a non-empty name without line breaks, which together make up the whole name |
| GameCommands.SplitRule | src/commands/game.ts:34-40 | a split name is a rule of the pattern, a dash and the game name, non-empty and on one line |
| GameCommands.RuleNamesHaveNoDash | src/commands/game.ts:35 | no alternative of the rule pattern contains a dash |
| GameCommands.OnlyOneRuleFits | src/commands/game.ts:35 | a name that starts with one dash-free rule and a dash does not start with another rule and a dash |
| GameCommands.SplitRuleFromFinds | src/commands/game.ts:35-39 | a rule of the list, a dash and a one-line name is matched with exactly that rule and name |
| GameCommands.SplitRuleRoundTrip | src/commands/game.ts:34-40 | every rule of the pattern followed by a dash and a one-line name splits back into that rule and that name |
| GameCommands.NewGameSpec | src/commands/game.ts:20-57 | a new game in a window without one is the last row, its creator is its only GM, its area is the window, and a rule prefix of the name is stored as the rule setting |
| GameCommands.RouletteArgsRoundTrip | src/commands/game.ts:397-400 | the actions face and face*copy read back as that face, with copy 1 when the star part is absent |
| GameCommands.PoolShape | src/commands/game.ts:411-416 | the pool has face times copy values, in ascending order, each of 1..face exactly copy times and nothing else |
| GameCommands.RepeatCount | src/commands/game.ts:413-415 | a run of n copies holds the value n times and no other value |
| GameCommands.BuildPool | src/commands/game.ts:411-416 | the nested loops build exactly the pool |
| GameCommands.RouletteCheck | src/commands/game.ts:402-408 | a roulette is accepted exactly when its face count is 2..100 and face times copy is at most 100 |
| GameCommands.NonGMChangesNothing | src/commands/game.ts:169-382 | a user who is not GM of the window's game changes nothing with kick, set, close, over or a roulette action and is told that only the GM may; call replies that only the GM may call the players |
| GameCommands.OverByGMRemovesGame | src/commands/game.ts:319-337 | over by the GM leaves no row of the game |
| GameCommands.NumericNotKeyword | src/commands/game.ts:362-397 | an action starting with a digit is none of the keywords hist, reset, clr and clear |
| GameCommands.RouletteSetByGM | src/commands/game.ts:396-426 | a valid roulette set by the GM is stored under its face; an invalid one changes nothing |
| GameCommands.KickByGM | src/commands/game.ts:169-199 | kick by the GM removes one occurrence of the user from the players and one from the observers, keeps the GMs and every other row, and replies that the user was kicked exactly when the user was on either roster |
| GameCommands.RemoveFromBoth | src/commands/game.ts:187-188 | the two removals of kick: each roster loses one occurrence of the user and reports whether it held the user; the GMs and other rows stay |
| GameCommands.RemoveOneRoster | src/commands/game.ts:187-188 | one removal from one roster of the game's row: that roster loses one occurrence, the other rosters, the ids and the other rows stay, and it reports whether the user was there |
| GameCommands.CloseByGM | src/commands/game.ts:297-316 | close by the GM takes the window off the game's areas (the areas shrink by one) and changes no other row |
| GameCommands.CurrentGameRow | src/commands/game.ts:236 | with unique ids, the window's game is the row that the lookup by its id finds |
| GameCommands.SetThenShow | src/commands/game.ts:233-257 | a value the GM sets for a key is shown back as `key = value`; setting `__proto__` changes nothing and showing it prints `__proto__ = [object Object]` |
| GameCommands.StoredSetThenShow | src/commands/game.ts:233-257 | for a key the configuration stores as its own, the value set is shown back as `key = value` |
| GameCommands.ProtoSetThenShow | src/commands/game.ts:233-257 | setting `__proto__` on a configuration without that own key changes nothing, and showing it prints the inherited prototype as `[object Object]` |
| GameCommands.ShowUnsetConstructor | src/commands/game.ts:249-252 | as written, showing the unset key `constructor` prints the inherited `Object` constructor instead of `(未设置)` |
| GameCommands.RosterText | src/commands/game.ts:75-77 | an empty roster is shown as `无`, and a roster whose first id is non-empty as its ids joined by `, ` |
| GameCommands.JoinContains | src/commands/game.ts:75-77 | every part of a joined text occurs in it |
| GameCommands.RosterListsEveryone | src/commands/game.ts:75-77 | the roster text of `.game state` contains every id of the roster |
| GameCommands.StateShowsRule | src/commands/game.ts:60-93 | `.game state` has at least five lines, the first naming the game, and has a `规则: ` line exactly when the `rule` setting is truthy |
| GameCommands.MasterSpec | src/commands/game.ts:96-122 | a user who is not GM becomes the last GM and nothing else changes; a GM is told so and nothing changes |
| GameCommands.JoinSpec | src/commands/game.ts:125-142 | the reply says the user joined exactly when the user was not a player; a new player is appended and nothing else changes, and a player already there changes nothing |
| GameCommands.ExitSpec | src/commands/game.ts:145-167 | exit removes one occurrence of the user from the players and one from the GMs, keeps the observers, the areas and every other row, replies that the user left exactly when the user took part, and with duplicate-free rosters leaves the user out of the game |
| GameCommands.RemoveFromPlayersAndGMs | src/commands/game.ts:152-156 | the two removals of exit: the players and the GMs each lose one occurrence of the user, the rest stays, and one of them succeeds exactly when the user was a player or GM |
| GameCommands.ExitLeavesGame | src/commands/game.ts:152-156 | with duplicate-free rosters, after the two removals the user is neither player nor GM |
| GameCommands.MentionsOf | src/commands/game.ts:220-223 | one `<at id="…"/>` mention per player, in order |
| GameCommands.CallByGM | src/commands/game.ts:203-229 | call by the GM of a game without players says so; with players the reply mentions every player and ends with the call line |
| GameCommands.NamedGameRow | src/commands/game.ts:273-276 | with unique ids, the game found by name is the row that the lookup by its id finds |
| GameCommands.OpenSpec | src/commands/game.ts:266-296 | an unknown game or a user who is neither its GM nor a player changes nothing and is told so; otherwise the window is among the game's areas afterwards, and no other roster and no other row changes |
| Initiative.InsertDescSpec | wasm/src/dice_initiative.cpp:47-50 | inserting into a list sorted by descending initiative keeps it sorted and adds exactly the new entry |
| Initiative.SortDescending | wasm/src/dice_initiative.cpp:47-50 | the sort yields a list in descending initiative order that is a permutation of its input (nothing is promised for equal values) |
| Initiative.Without | wasm/src/dice_initiative.cpp:118-122 | `remove_if` keeps exactly the entries with another name, and shrinks the list exactly when some entry has the name |
| Initiative.WithoutKeepsOrder | wasm/src/dice_initiative.cpp:118-122 | removing entries keeps the descending order |
| Initiative.RemoveFromSpec | wasm/src/dice_initiative.cpp:110-130 | the list shrinks exactly when an entry had the name; exactly the other entries stay; the round is kept; order and a valid current index are kept, the index moving to the top when it fell off the end |
| Initiative.AdvanceSpec | wasm/src/dice_initiative.cpp:151-157 | one turn moves the current index one place, wrapping to the top and adding one round at the end |
| Initiative.TurnsSpec | wasm/src/dice_initiative.cpp:151-157 | after `k` turns the current index has moved `k` places around the list, the round counter counting the completed laps |
| Initiative.TurnsWithinLap | wasm/src/dice_initiative.cpp:151-157 | turns within the current lap only move the current index |
| Initiative.TurnsAdd | wasm/src/dice_initiative.cpp:151-157 | `a + b` turns are `a` turns followed by `b` turns |
| Initiative.ToTop | wasm/src/dice_initiative.cpp:151-157 | the turns left in the lap bring the current index back to the top, one round later |
| Initiative.FullLap | wasm/src/dice_initiative.cpp:151-157 | one lap of as many turns as entries returns to the same creature one round later |
| Initiative.Line | wasm/src/dice_initiative.cpp:179-183 | a listing line is marked with the arrow exactly for the current entry |
| Initiative.ListText | wasm/src/dice_initiative.cpp:170-186 | the listing is `先攻列表为空` exactly for a missing or empty list, and otherwise holds the line of every entry |
| Initiative.LinesContain | wasm/src/dice_initiative.cpp:179-184 | the lines written for the first `n` entries hold the line of each of them |
| Initiative.RollExpressionModifier | wasm/src/dice_initiative.cpp:72-75 | the expression is `1d20`, followed for a non-zero modifier by the modifier written so that it reads back as that number |
| Initiative.ReadInt | wasm/src/dice_initiative.cpp:226-227 | `j.value(key, default)` gives the default for a missing key |
| Initiative.DecodeEntries | wasm/src/dice_initiative.cpp:229-236 | a decoded entries array has one entry per element |
| Initiative.Decode | wasm/src/dice_initiative.cpp:221-239 | a value that is not an object fails; a missing round, index or entries array defaults to 1, 0 and no entries; a numeric index is taken as stored; a string index fails; an entries array gives one entry per element |
| Initiative.Encode | wasm/src/dice_initiative.cpp:196-219 | a saved list is an object with the sorted keys `currentIndex`, `currentRound`, `entries`, the last an array of one element per entry |
| Initiative.EncodedFields | wasm/src/dice_initiative.cpp:196-219 | each saved field is found under its key with the list's value |
| Initiative.Serialize | wasm/src/dice_initiative.cpp:196-219 | a channel without a list saves as `{}`; a saved list decodes back to itself |
| Initiative.EntryRoundTrip | wasm/src/dice_initiative.cpp:206-235 | an entry saved and read back is the same entry |
| Initiative.EntriesRoundTrip | wasm/src/dice_initiative.cpp:206-236 | the saved entries array reads back as the same entries, in order |
| Initiative.EncodeDecode | wasm/src/dice_initiative.cpp:196-243 | loading what was saved gives back the same round, index and entries |
| Initiative.DecodeEmptyObject | wasm/src/dice_initiative.cpp:221-239 | loading `{}` creates a fresh list: no entries, round 1, index 0 |
| Initiative.NegativeIndexAccepted | wasm/src/dice_initiative.cpp:226-239 | as written, a stored negative index is accepted and the next turn then reads before the start of the entries |
| Initiative.NextReadsEntry | wasm/src/dice_initiative.cpp:151-160 | a turn lands on an entry exactly when the index it starts from is -1 or more; it never lands past the end |
| Initiative.Clamp | wasm/src/dice_initiative.cpp:125-127 | the corrected load moves an index that names no entry to the top, keeps entries and round, and keeps a valid index |
| Initiative.ClampedTurnInRange | wasm/src/dice_initiative.cpp:151-160 | with the index clamped, every turn reads an entry of the list |
| Initiative.Tracker.constructor | wasm/src/dice_initiative.cpp:11 | the map of lists starts empty |
| Initiative.Tracker.Count | wasm/src/dice_initiative.cpp:188-194 | 0 for a channel without a list, otherwise the number of entries |
| Initiative.Tracker.Add | wasm/src/dice_initiative.cpp:29-64 | creates the list (round 1, index 0) when missing; the entries become the old ones plus the new one, sorted descending; round and current index kept; other channels unchanged; the count grows by one |
| Initiative.Tracker.Roll | wasm/src/dice_initiative.cpp:66-108 | an engine error leaves the lists alone and is returned; otherwise the rolled entry is added |
| Initiative.Tracker.Remove | wasm/src/dice_initiative.cpp:110-130 | a missing channel gives false and no change; otherwise the channel's list is `RemoveFrom` of it and the result is true exactly when an entry had the name |
| Initiative.Tracker.Clear | wasm/src/dice_initiative.cpp:132-139 | true exactly when the channel had a list, which is removed |
| Initiative.Tracker.Next | wasm/src/dice_initiative.cpp:141-168 | a missing or empty list fails with `先攻列表为空` and no change; otherwise one turn is taken and stored, and for an index that lands on an entry the creature now acting, its initiative and the round are returned, while an index still below 0 reads before the entries, an error of its own |
| Initiative.Tracker.Load | wasm/src/dice_initiative.cpp:221-243 | as written: succeeds exactly when the text parses and decodes; a failure changes nothing; a success replaces the channel's list with the decoded one, its index stored unchecked |
| Initiative.Tracker.SaveThenLoad | wasm/src/dice_initiative.cpp:196-243 | saving a channel and loading it back leaves the tracker as it was, with a fresh list for a channel that had none |
| Anko.SplitChar | src/commands/anko.ts:116-117 | splitting on `\|` gives at least one part and no part contains the separator |
| Anko.JoinSplit | src/commands/anko.ts:116-117 | joining the parts of a split with the separator gives the text back |
| Anko.SplitJoin | src/commands/anko.ts:116-117 | splitting the join of separator-free parts gives the parts back |
| Anko.TrimAll | src/commands/anko.ts:118 | each option is the trimmed part at the same position |
| Anko.NonEmptyMembers | src/commands/anko.ts:119 | every option kept is non-empty and comes from the trimmed parts |
| Anko.NonEmptyKeeps | src/commands/anko.ts:119 | the filter keeps a list of non-empty strings whole |
| Anko.TrimmedOptionsClean | src/commands/anko.ts:116-119 | every option parsed from `\|`-free parts is non-empty, trimmed and free of `\|` |
| Anko.ParseOptionsClean | src/commands/anko.ts:116-119 | every option `.ak+` adds is non-empty, trimmed and free of `\|` |
| Anko.TrimmedKeepsClean | src/commands/anko.ts:118-119 | trimming and filtering clean options leaves them unchanged |
| Anko.ParseJoinedOptions | src/commands/anko.ts:116-119 | non-empty, trimmed, `\|`-free options joined with `\|` are parsed back exactly, in order |
| Anko.RandomIndex | src/commands/anko.ts:168 | `Math.floor(u * n)` for `u` in [0, 1) is a valid position below `n` |
| Anko.UnexpiredKeeps | src/commands/anko.ts:227-232 | a session survives the cleanup exactly when it is at most `maxAge` old, and survives unchanged |
| Anko.Board.constructor | src/commands/anko.ts:16 | the session map starts empty |
| Anko.Board.Current | src/commands/anko.ts:185 | a channel has a current session exactly when it is a key of the map |
| Anko.Board.Create | src/commands/anko.ts:90-100 | the channel's session is replaced by an empty one titled with the title or `未命名分歧`, created now; the reply quotes a non-empty title |
| Anko.Board.AddOptions | src/commands/anko.ts:105-135 | no session, empty text or no valid option: the matching message and no change; otherwise the parsed options are appended in order and listed with their new positions |
| Anko.Board.DeleteOption | src/commands/anko.ts:140-152 | no session: a message and no change; a missing (`NaN`) or out-of-range position: the range message and no change; otherwise exactly that option is removed and named |
| Anko.Board.GetRandomOption | src/commands/anko.ts:157-179 | no session or no options: the matching message and no change; otherwise the option at `floor(u * n)` is announced and the channel's session is deleted |
| Anko.Board.Clear | src/commands/anko.ts:208-216 | no session: a message and no change; otherwise the session is deleted and its title quoted |
| Anko.Board.Command | src/commands/anko.ts:33-82 | show and unknown actions change nothing (show replies with the session's text); a new action installs a fresh session with the parsed title; clear, and a draw from a non-empty session, delete the channel's session; add appends the parsed options when the session exists and the text gives some, else changes nothing; delete removes the option at a valid position and names it in the reply, else changes nothing; the replies of new (the created title and the `.ak+` hint), clear (the cleared title or that there is none), draw (the user, the title and the numbered option drawn, or that the session is empty or missing), add (the count and the numbered new options, or the refusal) and a refused delete are stated word for word |
| Anko.Board.CleanupExpired | src/commands/anko.ts:221-237 | the remaining sessions are exactly the unexpired ones and `cleaned` is the number removed |
| Anko.ChannelKey | src/commands/anko.ts:34 | the session key is the guild id, else the channel id, else the user id |
| Anko.DeleteKeepsOthers | src/commands/anko.ts:150 | the splice removes exactly one occurrence at the position: earlier options stay, later ones shift down by one |
| Observer.SetAdd | src/commands/observer.ts:57 | `Set.add`: afterwards the user is a member and every other membership is unchanged |
| Observer.SetDelete | src/commands/observer.ts:66 | `Set.delete`: afterwards the user is not a member and every other membership is unchanged |
| Observer.SetAddNoDup | src/commands/observer.ts:57 | adding keeps a set free of duplicates |
| Observer.SetDeleteNoDup | src/commands/observer.ts:66 | deleting keeps a set free of duplicates |
| Observer.SetDeleteOne | src/commands/observer.ts:66 | deleting a member shrinks the set by exactly one |
| Observer.SetDeleteAbsent | src/commands/observer.ts:66 | deleting a non-member changes nothing |
| Observer.Registry.constructor | src/commands/observer.ts:9-14 | both maps start empty |
| Observer.Registry.IsObserver | src/commands/observer.ts:110-113 | true exactly when the channel has a set containing the user |
| Observer.Registry.GetObservers | src/commands/observer.ts:118-121 | a channel without a set has no observers |
| Observer.Registry.ModeEnabled | src/commands/observer.ts:126-128 | true exactly when the channel's switch was set to true |
| Observer.Registry.Join | src/commands/observer.ts:49-59 | with the mode off, the refusal and no change; otherwise the user is added to the channel's set, created when missing; the switch is unchanged |
| Observer.Registry.Exit | src/commands/observer.ts:61-68 | a non-observer gets the refusal and no change; otherwise the user is deleted from the channel's set |
| Observer.Registry.List | src/commands/observer.ts:70-78 | the reply lists the channel's observers in joining order |
| Observer.Registry.Clear | src/commands/observer.ts:80-84 | the channel's set is dropped; the switch is unchanged |
| Observer.Registry.On | src/commands/observer.ts:86-89 | the channel's switch becomes true; the sets are unchanged |
| Observer.Registry.Off | src/commands/observer.ts:91-95 | the channel's switch becomes false and its set is dropped |
| Observer.Registry.ClearAll | src/commands/observer.ts:133-136 | both maps become empty |
| Observer.Registry.Command | src/commands/observer.ts:26-104 | outside a channel, with no action, and with an unknown action: the matching reply and no change; the action is matched lower-cased; join adds the user exactly when observer mode is on, exit removes exactly an observer, list replies with the observers, clr/clear drops the channel's observers, on and off set the mode (off also drops the observers), each with its reply |
| Observer.JoinThenObserves | src/commands/observer.ts:49-68 | after joining the user observes the channel and after exiting does not; nobody else's membership changes |
| Observer.SetAddIdempotent | src/commands/observer.ts:57 | joining twice is joining once |
| Observer.AddThenDelete | src/commands/observer.ts:57-66 | joining and then exiting restores the set the user was not in |
| Cards.Where | src/services/character/card-operations.ts:42-45 | a `database.get` query returns exactly the rows matching the filter, in table order |
| Cards.WhereEmpty | src/services/character/card-operations.ts:327-342 | a query that no row matches returns nothing |
| Cards.First | src/services/character/card-operations.ts:57-62 | `cards[0] \|\| null`: none exactly when no row matches, otherwise a matching row of the table |
| Cards.SetWhere | src/services/character/card-operations.ts:131-135 | a `database.set` keeps the table's length and replaces exactly the matching rows by their updated form |
| Cards.FirstSnoc | src/services/character/card-operations.ts:87-98 | appending a row changes the first match only when there was none before |
| Cards.FoundUnique | src/services/character/card-operations.ts:51-63 | while a user's card names are unique, `getCard` finds the one card of that name |
| Cards.SetWhereUnique | src/services/character/card-operations.ts:131-135 | an update that keeps owners and names keeps each user's card names unique |
| Cards.RenameUnique | src/services/character/card-operations.ts:264-268 | renaming to a name the user does not use keeps names unique and leaves no card under the old name |
| Cards.SetWhereHas | src/services/character/card-operations.ts:181-185 | a row the update selects is present afterwards in updated form |
| Cards.Store.constructor | src/services/character/card-operations.ts:1-3 | all four tables start empty and names are unique |
| Cards.Store.GetCard | src/services/character/card-operations.ts:51-63 | none exactly when the user has no card of that name; otherwise a card of the user with that name |
| Cards.Store.GetActiveCard | src/services/character/card-operations.ts:21-32 | none exactly when the user has no active card; otherwise an active card of the user |
| Cards.Store.AllCards | src/services/character/card-operations.ts:37-46 | exactly the user's cards |
| Cards.Store.Target | src/services/character/card-operations.ts:112-118 | a given name selects that card, an empty one the active card |
| Cards.Store.GetAttributes | src/services/character/card-operations.ts:141-155 | none exactly when the target card is missing, otherwise its attributes |
| Cards.Store.CreateCard | src/services/character/card-operations.ts:68-99 | a taken name gives `人物卡 "<name>" 已存在` and no change; otherwise one card is appended, found by name afterwards, and active exactly when it is the user's first; other tables and names' uniqueness kept |
| Cards.Store.SetAttributes | src/services/character/card-operations.ts:104-136 | no target gives `未找到人物卡` and no change; otherwise the target's attributes become the old ones with the given ones spread over them, and only that card changes |
| Cards.Store.SwitchCard | src/services/character/card-operations.ts:160-186 | fails with `人物卡 "<name>" 不存在` exactly when the card is missing; otherwise every card of the user is active exactly when it has that name, other users' cards unchanged |
| Cards.Store.SwitchedActive | src/services/character/card-operations.ts:173-185 | after a switch the active card found is the named one |
| Cards.Store.DeleteCard | src/services/character/card-operations.ts:191-216 | true exactly when the card existed; then that card and its bindings are removed and nothing else; afterwards no card has that name |
| Cards.Store.RenameCard | src/services/character/card-operations.ts:243-276 | missing old name and taken new name give their errors and no change; success exactly otherwise, renaming the card and its bindings, so the card is found under the new name and none under the old |
| Cards.Store.CopyCard | src/services/character/card-operations.ts:281-314 | missing source and taken target give their errors and no change; otherwise an inactive copy with the source's type and attributes is appended under the target name and the source is unchanged |
| Cards.Store.ClearAllCards | src/services/character/card-operations.ts:319-345 | returns the number of the user's cards; removes exactly the user's cards, bindings and statistics rows; group data unchanged |
| CardBinding.LuaKeyBare | src/services/character/card-binding.ts:147 | a key is written bare exactly when it matches `^[a-zA-Z_][a-zA-Z0-9_]*$`, otherwise as `["key"]` |
| CardBinding.UnescapeEscape | src/services/character/card-binding.ts:140 | as written, Lua reads the escaped text back as the string exactly when the string holds no line break, and refuses it otherwise |
| CardBinding.RawNewlineRejected | src/services/character/card-binding.ts:140 | as written, the card name `a` newline `b` is cached as a literal Lua refuses |
| CardBinding.EscapeLuaFixed | src/services/character/card-binding.ts:140 | the corrected escape writes no raw line break |
| CardBinding.ReadEscapedFixed | src/services/character/card-binding.ts:140 | with the corrected escape, Lua reads every string back as itself |
| CardBinding.ReplaceAllChar | src/services/character/card-binding.ts:140 | a global one-character `replace` replaces each occurrence of the character |
| CardBinding.ChainedReplaceEscapes | src/services/character/card-binding.ts:140 | escaping backslashes first and then quotes escapes each character exactly once |
| CardBinding.FieldPairs | src/services/character/card-binding.ts:145-149 | one `key=value` pair per object entry |
| CardBinding.ItemPairs | src/services/character/card-binding.ts:145-149 | one `index=value` pair per array element |
| CardBinding.StringLiteral | src/services/character/card-binding.ts:139-141 | a string becomes a quoted, escaped literal whose body Lua reads back as the same string exactly when the string holds no line break; with a line break Lua refuses it |
| CardBinding.EmptyObjectTable | src/services/character/card-binding.ts:145-150 | an object without entries becomes `{}` |
| CardBinding.ObjectTable | src/services/character/card-binding.ts:145-150 | an object becomes a table opened by `{` and closed by `}` |
| CardBinding.ObjectTableFirst | src/services/character/card-binding.ts:145-150 | the table of a non-empty object opens with the first entry as `key=value` |
| CardBinding.AttrValues | src/services/character/card-binding.ts:91-99 | the card's attributes keep their keys, in order, as JavaScript values |
| CardBinding.BoundCard | src/services/character/card-binding.ts:8-36 | no binding in the guild gives none; a bound card found is one of the user's cards |
| CardBinding.UpsertBinding | src/services/character/card-binding.ts:65-87 | the user's bindings in the guild are repointed at the card when there are some, otherwise one is appended; the first binding found then names the card; the other tables are unchanged |
| CardBinding.CacheCard | src/services/character/card-binding.ts:105-127 | the group's rows under the key take the value when there are some, otherwise one row is appended; the row is then present; the other tables are unchanged |
| CardBinding.BindCard | src/services/character/card-binding.ts:41-132 | outside a guild, and with no target card, the matching error and no change; success exactly otherwise; the bound card is then the target, the bindings are upserted, and the group table becomes the old one with every row of the guild under `player_card#<user>` given the Lua table of the card's data, or with one such row appended when there was none |
| CardBinding.AllBindings | src/services/character/card-binding.ts:156-165 | exactly the user's bindings, in every group |
| CharacterParser.AliasValues | wasm/src/features/character_parser.cpp:12-56 | every value the alias table holds is one of the canonical attribute names |
| CharacterParser.SelfAliasBody | wasm/src/features/character_parser.cpp:14-37 | each characteristic's Chinese name is a key mapping to itself, and is made of ideographs only |
| CharacterParser.SelfAliasDerived | wasm/src/features/character_parser.cpp:35-55 | each derived attribute's Chinese name is a key mapping to itself, and is made of ideographs only |
| CharacterParser.CanonicalsAreFixed | wasm/src/features/character_parser.cpp:12-56 | the table's values are exactly fixed points of the table: every value is canonical, and every canonical name maps to itself |
| CharacterParser.LowerNonAscii | wasm/src/features/character_parser.cpp:59-61 | ASCII lower-casing leaves a name without ASCII characters unchanged |
| CharacterParser.RemoveSpaces | wasm/src/features/character_parser.cpp:64 | the result holds no white space, and a name without white space is kept whole |
| CharacterParser.NormalizeRange | wasm/src/features/character_parser.cpp:58-71 | the native normalisation yields a canonical name or the input itself |
| CharacterParser.NativeKeyOfIdeographic | wasm/src/features/character_parser.cpp:59-64 | an ideographic name is its own lookup key |
| CharacterParser.NormalizeIdempotent | wasm/src/features/character_parser.cpp:58-71 | normalising an already normalised name changes nothing |
| CharacterParser.NormalizeIgnoresCaseAndSpaces | wasm/src/features/character_parser.cpp:58-71 | two names with the same lower-cased, space-free key that the table knows normalise to the same canonical name |
| CharacterParser.NormalizeAbbreviation | wasm/src/features/character_parser.cpp:14 | the upper-case abbreviation `STR` normalises to `力量` |
| CharacterParser.NormalizeCapitalised | wasm/src/features/character_parser.cpp:38 | `Luck` normalises to `幸运` |
| CharacterParser.NormalizeUnknown | wasm/src/features/character_parser.cpp:66-70 | an ideographic name the table does not know is returned as given |
| CharacterParser.NormalizeTsAsWritten | src/commands/character/types.ts:74-77 | the TypeScript lookup reads an inherited property exactly when the key is not in the table but names a member every plain object inherits |
| CharacterParser.ConstructorNotAKey | src/commands/character/types.ts:25-69 | `constructor` is not a key of the alias table |
| CharacterParser.ConstructorIsLowerCase | src/commands/character/types.ts:75 | lower-casing leaves `constructor` unchanged |
| CharacterParser.ConstructorIsTrimmed | src/commands/character/types.ts:75 | trimming leaves `constructor` unchanged |
| CharacterParser.ConstructorIsNotAName | src/commands/character/types.ts:74-77 | as written, normalising `constructor` yields the inherited `Object` constructor, not a string |
| CharacterParser.NormalizeTsSpec | src/commands/character/types.ts:74-77 | the corrected lookup yields a canonical name or the input, and agrees with the written one wherever that yields a name |
| CharacterParser.TsKeyOfIdeographic | src/commands/character/types.ts:75 | an ideographic name is its own TypeScript key |
| CharacterParser.NormalizeTsIdempotent | src/commands/character/types.ts:74-77 | the corrected TypeScript normalisation is idempotent |
| CharacterParser.NativeAndTsAgree | wasm/src/features/character_parser.cpp:58-71 | on names without white space the native and the (corrected) TypeScript normalisation give the same result |
| CharacterParser.FirstSplit | wasm/src/features/character_parser.cpp:79 | the position found is the first `--` at or after the start with something after it, and none is found only when there is none |
| CharacterParser.CardSplit | wasm/src/features/character_parser.cpp:79-85 | a split comes from a one-line text and gives a non-empty name and rest that the text is made of, joined by `--` |
| CharacterParser.CardSplitRoundTrip | wasm/src/features/character_parser.cpp:79-85 | `name--rest` splits back into `name` and `rest` when the name holds no `--` and does not end in `-` |
| CharacterParser.PairCount | wasm/src/features/character_parser.cpp:98 | the loop visits `m` pairs with `2m <= |parts| < 2m + 2` |
| CharacterParser.PairCountUnique | wasm/src/features/character_parser.cpp:98 | that `m` is the only one with this property |
| CharacterParser.PairwiseStep | wasm/src/features/character_parser.cpp:98-136 | one more pair appends that pair's operation, when it has one |
| CharacterParser.PairOpMeaning | wasm/src/features/character_parser.cpp:102-135 | a pair yields an operation exactly when its name passes the filter and its value reads as an `int`; the operation sets the normalised name to that value |
| CharacterParser.PairwiseSound | wasm/src/features/character_parser.cpp:98-136 | at most one operation per pair, and every operation comes from one of the pairs visited |
| CharacterParser.PairwiseComplete | wasm/src/features/character_parser.cpp:98-136 | every visited pair that yields an operation contributes it |
| CharacterParser.PairwisePrefix | wasm/src/features/character_parser.cpp:98-136 | the operations depend only on the tokens the visited pairs read |
| CharacterParser.PairOpsSpec | wasm/src/features/character_parser.cpp:98-136 | a `.st` command yields at most one operation per pair of tokens; each sets the normalised name of a valid name to a parsed value; every valid pair with a number contributes one |
| CharacterParser.OddTokenIgnored | wasm/src/features/character_parser.cpp:98 | a trailing name without a value adds no operation |
| CharacterParser.CheckAttrName | wasm/src/features/character_parser.cpp:102-122 | the byte loop accepts a name exactly when it passes the attribute-name filter |
| CharacterParser.ParsePair | wasm/src/features/character_parser.cpp:120-135 | one loop turn yields exactly the pair's operation |
| CharacterParser.ParseNextPair | wasm/src/features/character_parser.cpp:98-136 | extends the operations of the first `m` pairs to those of the first `m + 1` |
| CharacterParser.ParsePairs | wasm/src/features/character_parser.cpp:98-136 | the pairing loop computes the operations of all complete pairs |
| CharacterParser.ParseStCommand | wasm/src/features/character_parser.cpp:73-156 | the card name is the one before `--` when non-empty, and the operations are those of the token pairs after it |
| CharacterParser.MapTokens | wasm/src/features/character_parser.cpp:175-179 | one result per token, each the function applied to that token |
| CharacterParser.NormalizeAll | wasm/src/features/character_parser.cpp:173-179 | the loop normalises every token, in order |
| CharacterParser.ParseAttributeList | wasm/src/features/character_parser.cpp:158-195 | the card name as for `.st`, and every token after it normalised, in order |
| CharacterParser.AttributeListRange | wasm/src/features/character_parser.cpp:158-195 | each listed attribute is a canonical name or its token as given |
| CoreUtils.RandomInRange | wasm/src/core/utils.cpp:21-42 | the value drawn from a 32-bit random word lies between the two bounds, whichever order they come in |
| CoreUtils.RandomEndpoints | wasm/src/core/utils.cpp:21-42 | word 0 gives the lower bound; the top word gives the upper bound when the range fits in 32 bits; a range of exactly 2^32 values gives the lower bound for every word |
| CoreUtils.RandomSymmetric | wasm/src/core/utils.cpp:22-24 | swapping the bounds does not change the value drawn |
| CoreUtils.HighBitsBelow | wasm/src/core/utils.cpp:37-41 | the high 32 bits of `word * range` are below `range` |
| CoreUtils.FullRangeStuckAtMin | wasm/src/core/utils.cpp:37-41 | over the full `int` range the top word still yields `INT_MIN`, while the corrected draw yields `INT_MAX` |
| CoreUtils.RandomInRangeWide | wasm/src/core/utils.cpp:21-42 | corrected draw with a 64-bit range: the value lies between the bounds |
| CoreUtils.RandomInRangeWideEndpoints | wasm/src/core/utils.cpp:21-42 | the corrected draw reaches both bounds, for every pair of bounds |
| CoreUtils.ErrorMessage | wasm/src/core/utils.cpp:44-56 | the generic `未知错误` text is given exactly to errors outside the named ones |
| CoreUtils.SuccessLevelDesc | wasm/src/core/utils.cpp:217-227 | the text is `成功` exactly for level 2 (or level 1 when auto-success applies) and `未知` exactly outside 0..5 |
| CoreUtils.SuccessLevelDescInjective | wasm/src/core/utils.cpp:217-227 | without auto-success, distinct levels get distinct texts |
| CoreUtils.ClassifySlash | wasm/src/core/utils.cpp:122-148 | the level is in 0..5; critical success exactly for a roll of at most 5 within the skill; some success exactly when the roll is within the skill and not 100; fumble exactly for 100 or above 95 and over the skill |
| CoreUtils.ClassifySlashMonotone | wasm/src/core/utils.cpp:122-148 | a lower roll never gets a lower level against the same skill |
| CoreUtils.FirstIndexOf | wasm/src/core/utils.cpp:112 | the index is the first occurrence of the character, or the length when it does not occur |
| CoreUtils.SkillCheck | wasm/src/core/utils.cpp:102-181 | every failure has error code -1; an expression without `/` gives the fixed format error; a success carries the slash classification of its own roll and skill and that level's text |
| CoreUtils.SkillCheckRendered | wasm/src/core/utils.cpp:112-156 | reading back a rendered `roll/skill` pair of `int`s checks exactly that pair |
| Insanity.CalculateSuccessLevel | wasm/src/features/insanity.cpp:13-40 | the level of a sanity roll is in 0..5 |
| Insanity.SameAsSlashClassifier | wasm/src/features/insanity.cpp:13-40 | the sanity classifier is, for every roll and skill, the same function as the `roll/skill` classifier of utils.cpp |
| Insanity.Guarded | wasm/src/features/insanity.cpp:42-68 | an index inside the table's bounds reads the table, any other index gets the fixed fallback text |
| Insanity.TempInsanity | wasm/src/features/insanity.cpp:42-47 | indices 1..10 read the table, any other gives `索引超出范围` |
| Insanity.LongInsanity | wasm/src/features/insanity.cpp:49-54 | indices 1..10 read the table, any other gives `索引超出范围` |
| Insanity.Phobia | wasm/src/features/insanity.cpp:56-61 | indices 1..93 read the phobia table, any other gives `未知恐惧症` |
| Insanity.Mania | wasm/src/features/insanity.cpp:63-68 | indices 1..96 read the mania table, any other gives `未知躁狂症` |
| Insanity.SanityCheck | wasm/src/features/insanity.cpp:70-163 | sanity at or below 0 is an invalid-input error; every error leaves sanity unchanged with no loss; on success the level is the sanity roll's level, a fumble loses the failure maximum, a failure the failure roll, a success the success roll, and the new sanity is the old minus the loss, floored at 0 |
| Insanity.Clamp | wasm/src/features/insanity.cpp:154 | `std::max(0, x)`: never negative, never below `x`, and either 0 or `x` |
| Insanity.SanityNeverRises | wasm/src/features/insanity.cpp:75-154 | with non-negative losses a sanity check never raises sanity and never drives it below 0 |
| CheckHandler.Difficulty.Divisor | wasm/src/core/check_handler.cpp:28 | the skill is divided by 1, 2 or 5, one value per difficulty |
| CheckHandler.DiceExpression | wasm/src/core/check_handler.cpp:78-85 | bonus dice give `nB`, penalty dice `nP` with the count made positive, none the plain `1D100` |
| CheckHandler.DiceExpressionInjective | wasm/src/core/check_handler.cpp:78-85 | distinct bonus or penalty counts never produce the same dice expression |
| CheckHandler.CheckOnce | wasm/src/core/check_handler.cpp:147-187 | a failed roll gives roll 0, level failure and the error text; otherwise the roll is kept, auto-success within the skill forces a regular success, any other roll gets the rule's level, and the text is that level's description |
| CheckHandler.Check | wasm/src/core/check_handler.cpp:8-62 | a skill outside 0..1000 is rejected exactly, with the fixed message; otherwise the final skill is the skill divided by the difficulty and there is one round per requested round, round `i` being `CheckOnce` on round `i`'s roll |
| CheckHandler.CocClassify | wasm/src/core/check_handler.cpp:100-120 | the level is in 0..5; critical success exactly for rolls up to 5, fumble exactly for 96 and above, whatever the skill |
| CheckHandler.CocAgreesWithSlashInMiddle | wasm/src/core/check_handler.cpp:105-120 | on rolls 6..95 against skills 0..100 the COC classification agrees with the `roll/skill` classifier of utils.cpp |
| CheckHandler.CocDiffersFromSlashAtEdges | wasm/src/core/check_handler.cpp:105-110 | the two classifiers disagree at the edges: roll 3 against skill 0, and roll 97 against skill 100 |
| CheckHandler.CocCheck | wasm/src/core/check_handler.cpp:64-145 | a skill outside 0..100 and a failed roll each give their fixed failure; success exactly otherwise, with the roll, its COC level and that level's description |
| CheckHandler.CocDescription | wasm/src/core/check_handler.cpp:101-120 | the description `cocCheck` attaches to a level is the shared level description of utils.cpp |
| CommandProcessor.RoundsPrefix | wasm/src/core/command_processor.cpp:74-82 | a match splits the text into a non-empty run of digits, `#` and a non-empty rest without line breaks |
| CommandProcessor.DiceSplit | wasm/src/core/command_processor.cpp:86-88 | a match splits the text into a non-empty maximal run of expression characters and a rest that does not start with one; the match fails on a dice run only when the rest holds a line break |
| CommandProcessor.RollFields | wasm/src/core/command_processor.cpp:86-105 | the expression settled on is never empty |
| CommandProcessor.ParseRollExpression | wasm/src/core/command_processor.cpp:57-106 | blank input gives the default die, no reason and one round; an error arises only from an `N#` prefix whose number does not fit an `int`; otherwise the rounds are the prefix's number clamped to 1..10 (or the caller's rounds without a prefix) and expression and reason are those of the text after the prefix |
| CommandProcessor.Clamp | wasm/src/core/command_processor.cpp:79-80 | the result lies in the bounds and equals the input when that already does |
| CommandProcessor.PlainExpressionTakenWhole | wasm/src/core/command_processor.cpp:86-91 | a trimmed expression of dice characters that is not a bare number is the whole expression, with an empty reason |
| CommandProcessor.BareNumberIsReason | wasm/src/core/command_processor.cpp:93-105 | a bare number becomes the reason and the default die is rolled |
| CommandProcessor.ExpressionThenReason | wasm/src/core/command_processor.cpp:86-105 | dice characters followed by text that starts otherwise split into the trimmed expression (or the default die when it is blank) and the trimmed reason |
| CommandProcessor.CheckRoundsPrefix | wasm/src/core/command_processor.cpp:120-129 | a match yields a non-empty run of digits and a non-empty rest |
| CommandProcessor.Keyword | wasm/src/core/command_processor.cpp:134-143 | the auto-success keyword sets no difficulty; without a keyword the text is unchanged; the text never grows |
| CommandProcessor.LastIndexOf | wasm/src/core/command_processor.cpp:148 | the index is the last occurrence of the character, or the length when there is none |
| CommandProcessor.SplitSkillNumber | wasm/src/core/command_processor.cpp:148-154 | when the text after the last space reads as an `int`, that is the value and the trimmed text before the space is the name |
| CommandProcessor.SplitSkillNoNumber | wasm/src/core/command_processor.cpp:153-159 | when the text after the last space does not read as an `int`, the whole text is the name and the value is -1 |
| CommandProcessor.SplitSkillWithoutSpace | wasm/src/core/command_processor.cpp:160-163 | without any space the whole text is the name and the value is -1 |
| CommandProcessor.SplitSkillRoundTrip | wasm/src/core/command_processor.cpp:148-159 | a trimmed name without spaces, a space and a rendered `int` read back as exactly that name and value |
| CommandProcessor.SkillNameAndValue | wasm/src/core/command_processor.cpp:147-163 | the name and value assigned are the skill split of the text |
| CommandProcessor.StripKeyword | wasm/src/core/command_processor.cpp:133-143 | the text after the keyword is kept, the auto-success flag is set by its keyword and otherwise kept, and the difficulty is the keyword's or the caller's |
| CommandProcessor.ParseCheckExpression | wasm/src/core/command_processor.cpp:108-164 | an error arises exactly from an `N#` prefix whose number does not fit an `int`; otherwise rounds are capped at 10, the `p`/`b` letter gives bonus -1/+1 (else the caller's), the keyword sets difficulty and auto-success, and name and value are the skill split of what remains |
| Utf8.LeadLength | wasm/src/core/utf8_utils.cpp:26-41 | a lead byte announces a length of 1 to 4 bytes, and 0 for a byte that cannot lead |
| Utf8.MasksAreRanges | wasm/src/core/utf8_utils.cpp:26-41 | the bit-mask tests of utf8CharToByte pick exactly the lead-byte ranges of UTF-8 |
| Utf8.EncodeCp | wasm/src/core/utf8_utils.cpp:7-9 | a scalar value encodes to 1, 2, 3 or 4 bytes according to its size |
| Utf8.DecodeFirst | wasm/src/core/utf8_utils.cpp:7-9 | a decoded first character is a scalar value whose length its lead byte announces |
| Utf8.Decode | wasm/src/core/utf8_utils.cpp:7-9 | a valid byte string decodes to scalar values only |
| Utf8.DecodeFirstOfEncoding | wasm/src/core/utf8_utils.cpp:7-9 | the first character of an encoding followed by anything decodes back to that code point |
| Utf8.EncodingOfDecodeFirst | wasm/src/core/utf8_utils.cpp:7-9 | the first decoded character re-encodes to exactly the bytes it was read from |
| Utf8.DecodeEncode | wasm/src/core/utf8_utils.cpp:7-9 | decoding the encoding of scalar values gives them back |
| Utf8.EncodeDecode | wasm/src/core/utf8_utils.cpp:7-9 | encoding what a valid byte string decodes to gives the byte string back |
| Utf8.EncodeSeqConcat | wasm/src/core/utf8_utils.cpp:7-9 | the encoding of two runs of code points is the concatenation of their encodings |
| Utf8.LeadOfEncoding | wasm/src/core/utf8_utils.cpp:26-41 | the lead byte of an encoding announces the encoding's own length |
| Utf8.Chars | wasm/src/core/utf8_utils.cpp:89-99 | the code points of a valid string are scalar values that encode back to it |
| Utf8.Length | wasm/src/core/utf8_utils.cpp:11-15 | an empty or invalid string has length 0 |
| Utf8.PrefixEncoding | wasm/src/core/utf8_utils.cpp:17-46 | the encoding of code points splits at every code point boundary |
| Utf8.PrefixEncodingStep | wasm/src/core/utf8_utils.cpp:17-46 | one more code point extends the encoded prefix by its encoding |
| Utf8.CharToByteStep | wasm/src/core/utf8_utils.cpp:24-43 | each loop step moves the byte position over exactly one character's encoding |
| Utf8.CharToByte | wasm/src/core/utf8_utils.cpp:17-46 | an empty or invalid string gives no position; otherwise the byte offset where the first charPos characters end, and none past the end |
| Utf8.ClampedLength | wasm/src/core/utf8_utils.cpp:51-57 | the count never runs past the string, and a count that fits is kept |
| Utf8.SliceOfEncoding | wasm/src/core/utf8_utils.cpp:62-71 | the bytes between the offsets of two character positions encode exactly the characters between them |
| Utf8.Substr | wasm/src/core/utf8_utils.cpp:48-72 | an empty or invalid string or a start past the end gives nothing; otherwise the encoding of the characters from charPos on, as many as asked for and available |
| Utf8.SubstrDecodes | wasm/src/core/utf8_utils.cpp:48-72 | a substring of a valid string is valid and decodes to the selected characters |
| Utf8.RemovePrefix | wasm/src/core/utf8_utils.cpp:79-84 | a present prefix is removed and prepending it again gives the string back; otherwise the string is unchanged |
| Utf8.RemovePrefixOfConcat | wasm/src/core/utf8_utils.cpp:79-84 | removing a prefix undoes prepending it |
| Utf8.IsValidAttributeName | wasm/src/core/utf8_utils.cpp:86-113 | a name is valid exactly when it is non-empty valid UTF-8 and every character is an ASCII letter, a digit, an underscore or a CJK unified ideograph |
| Utf8.EncodeStrConcat | wasm/src/core/utf8_utils.cpp:7-9 | the encoding of two strings is the concatenation of their encodings |
| Utf8.ThreeByteLength | wasm/src/core/utf8_utils.cpp:7-9 | a string of characters from U+0800 to U+FFFF takes three bytes per character |
| Utf8.KeywordBytes | wasm/src/core/command_processor.cpp:134-142 | cutting a keyword's byte length off the encoding of keyword and rest leaves the rest's encoding |
| Utf8.KeywordLengths | wasm/src/core/command_processor.cpp:134-142 | the keyword 自动成功 is 12 bytes and 困难, 极难 and 极限 are 6 bytes each |
| Deck.Find | wasm/src/features/deck.cpp:27-28 | `find("::", from)`: the first occurrence at or after `from`, or none when there is none |
| Deck.ParseItem | wasm/src/features/deck.cpp:22-51 | the weight is at least 1; the content is a suffix of the entry, and a weight other than 1 comes with the content after the marker |
| Deck.ParseItemPlain | wasm/src/features/deck.cpp:23-25 | an entry without `::` is one card of weight 1 with the whole entry as content |
| Deck.FindAfterPlain | wasm/src/features/deck.cpp:27-28 | in `::<text>::rest` with no `:` in the text, the second marker is the one right after the text |
| Deck.AsciiByteLength | wasm/src/features/deck.cpp:34 | a run of digits is as many bytes long as it has characters |
| Deck.ByteLengthAtLeast | wasm/src/features/deck.cpp:34 | no text is fewer bytes long than it has characters |
| Deck.WideWeightBytes | wasm/src/features/deck.cpp:34 | `1234中` has five characters but takes seven bytes |
| Deck.WideWeightRefused | wasm/src/features/deck.cpp:34-42 | the weight `1234中`, five characters but seven bytes, fails the six-byte limit and keeps the whole entry at weight 1 |
| Deck.ParseWeightedItem | wasm/src/features/deck.cpp:27-48 | round trip: `::w::rest` with a weight of 1..999999 that resolves to itself parses to weight `w` and content `rest` |
| Deck.ParseMarkedItem | wasm/src/features/deck.cpp:32-39 | a marked weight whose resolved text is at most six bytes long and reads as a positive number gives that weight and the text after the second marker |
| Deck.ParseNonPositiveWeight | wasm/src/features/deck.cpp:36-42 | a marked weight resolving to zero or less keeps the whole entry at weight 1 |
| Deck.ParseDeckItems | wasm/src/features/deck.cpp:19-57 | the loop parses one item per entry, in order |
| Deck.Repeat | wasm/src/features/deck.cpp:146-148 | `n` copies of the content, none for a weight below 1 |
| Deck.ExpansionLength | wasm/src/features/deck.cpp:144-149 | the expanded deck is as long as the sum of the weights |
| Deck.ExpansionMembers | wasm/src/features/deck.cpp:144-149 | a card is in the expanded deck exactly when an item of positive weight carries it |
| Deck.ExpansionNonEmpty | wasm/src/features/deck.cpp:151-156 | a non-empty deck never expands to nothing, so the "expanded deck is empty" failure cannot occur |
| Deck.ExpandDeck | wasm/src/features/deck.cpp:144-149 | the nested loop builds exactly the weighted expansion |
| Deck.DrawCount | wasm/src/features/deck.cpp:158-176 | a count in 1..size is kept, any other count means the whole deck; the result never exceeds the deck or 100; refused exactly when that number exceeds 100 |
| Deck.DrawAllOfLargeDeck | wasm/src/features/deck.cpp:161-176 | asking for the whole of a deck of more than 100 cards is refused, while up to 100 cards are drawn as asked |
| Deck.Swap | wasm/src/features/deck.cpp:182 | `std::swap` exchanges two positions and keeps every other |
| Deck.SwapPermutes | wasm/src/features/deck.cpp:182 | a swap keeps the multiset of cards |
| Deck.FisherYatesFrom | wasm/src/features/deck.cpp:180-183 | the passes from position `i` down keep the length of the deck |
| Deck.FisherYatesFromPermutes | wasm/src/features/deck.cpp:180-183 | the passes from position `i` down keep the multiset of cards |
| Deck.ShuffledPermutes | wasm/src/features/deck.cpp:180-183 | the shuffle only reorders the deck |
| Deck.ShuffledIdentity | wasm/src/features/deck.cpp:180-183 | when every step picks its own position the deck is unchanged |
| Deck.FisherYatesFromIdentity | wasm/src/features/deck.cpp:180-183 | passes that each swap a card with itself leave the deck as it was |
| Deck.Shuffle | wasm/src/features/deck.cpp:180-183 | the in-place loop on the array leaves it holding the shuffle of its old contents |
| Deck.DeckLookup | wasm/src/features/deck.cpp:117-131 | none exactly when neither table has the deck; the public table wins |
| Deck.DeckSize | wasm/src/features/deck.cpp:90-104 | -1 exactly for an unknown deck, otherwise the number of entries (not weighted) |
| Deck.ItemsOf | wasm/src/features/deck.cpp:141 | one item per entry, all of positive weight |
| Deck.Drawn | wasm/src/features/deck.cpp:186-191 | the first `n` shuffled cards, each resolved through the nested-deck lookup |
| Deck.DrawFromExpandedBounds | wasm/src/features/deck.cpp:158-202 | a success yields 1..100 cards, never more than the expanded deck, and reports its size; a failure carries no cards |
| Deck.ShuffleAndDraw | wasm/src/features/deck.cpp:178-191 | shuffling a copy in an array and drawing gives the first `n` resolved cards of the shuffle |
| Deck.ShuffleDeck | wasm/src/features/deck.cpp:111-215 | a missing deck and an empty deck fail with their messages and no cards; otherwise the result is the draw from the shuffled weighted expansion |
| Deck.DrawnFromDeck | wasm/src/features/deck.cpp:141-191 | every drawn card is the resolution of some entry of the source deck |
| Text.Trim | wasm/src/core/utils.cpp:229-235 | the trim is the slice between a run of white space at the front and one at the back, starts and ends with no white space, and is empty exactly for an all-white text |
| Text.TrimUnchanged | wasm/src/core/utils.cpp:229-235 | a text with no white space at either end is its own trim |
| Text.TrimIdempotent | wasm/src/core/utils.cpp:229-235 | trimming twice is trimming once |
| Text.TakeWord | wasm/src/features/character_parser.cpp:89-91 | the longest prefix without white space |
| Text.WordsAreTokens | wasm/src/features/character_parser.cpp:89-91 | every token `iss >>` reads is non-empty and free of white space |
| Text.WordsEmpty | wasm/src/features/character_parser.cpp:89-91 | there are no tokens exactly when the text is all white space |
| Text.Join | src/commands/anko.ts:35 | `join`: nothing for no parts, the one part alone, and the first part at the front |
| Text.ReplaceAllSkips | src/services/character/card-binding.ts:140 | a prefix without the pattern's first character passes through a global replace unchanged |
| Text.ReplaceAllAbsent | src/services/character/card-binding.ts:140 | a text without the pattern is unchanged by a global replace |
| Text.ReplaceAllSelf | src/services/character/card-binding.ts:140 | replacing a pattern by itself changes nothing |
| Text.ReplaceAllFront | src/services/character/card-binding.ts:140 | the pattern at the front is replaced and scanning resumes after it |
| Text.ToLowerAscii | src/data/rules.ts:121 | lower-casing keeps the length and folds each ASCII capital to its small letter, every other character unchanged |
| Text.ToLowerAsciiNoUpper | src/data/rules.ts:121 | a text with no ASCII capital is its own lower-case form |
| Text.NatToStringValue | wasm/src/features/character_parser.cpp:126 | a rendered number reads back as its value |
| Text.Stoi | wasm/src/features/character_parser.cpp:126 | `std::stoi` yields an `int`, or one of its two exceptions: no conversion, or out of range |
| Text.StoiOfRendering | wasm/src/features/character_parser.cpp:126 | `std::stoi` reads back every `int` written in decimal |
| Text.DigitPrefixStops | wasm/src/features/character_parser.cpp:126 | the digit run ends at the first character that is not a digit |
| Text.ParseIntJsOfRendering | src/commands/coc.ts:254 | `parseInt` reads back every integer written in decimal |
| Text.ParseIntJsStops | src/commands/coc.ts:254 | `parseInt` of digits followed by a non-digit reads the digits and ignores the rest |
| Text.IndexOfChar | src/commands/anko.ts:117 | the first position of the character, or the length when it does not occur |
| Rules.SystemOf | src/data/rules.ts:124-136 | the COC table is chosen exactly for `coc`/`coc7` and the DND table exactly for `dnd`/`dnd5e`/`5e`, case-insensitively; every other name gets the union |
| Rules.FirstExact | src/data/rules.ts:139-143 | the first entry whose lower-cased key or name equals the keyword, or none when no entry does |
| Rules.FirstFuzzy | src/data/rules.ts:146-150 | the first entry whose lower-cased key or name contains the keyword, or none when no entry does |
| Rules.ExactBeatsFuzzy | src/data/rules.ts:139-150 | when some entry matches exactly, the result is an exact match at or before it, never an earlier partial match |
| Rules.FuzzyWhenNoExact | src/data/rules.ts:146-150 | without an exact match, the first partially matching entry is returned |
| Rules.SearchNone | src/data/rules.ts:152 | `null` exactly when no key and no name contains the keyword |
| Rules.SearchFound | src/data/rules.ts:139-150 | a result is always an entry of the table that matches the keyword exactly or partially |
| Rules.Lookup | src/data/rules.ts:139-152 | the search of one table: `null` exactly when no key and no name contains the keyword, otherwise an entry whose key or name matches it |
| Rules.GetRule | src/data/rules.ts:120-153 | getRule on the table the system selects and the lower-cased keyword: `null` exactly when nothing contains the keyword, otherwise an entry of that table that matches exactly or partially |
| Rules.ListRules | src/data/rules.ts:158-175 | one key per entry of the table the system selects, in its order |
| Rules.EmptyKeywordFirstEntry | src/data/rules.ts:146-150 | the empty keyword selects the first entry of a table with non-empty keys and names |
| Rules.SpreadFresh | src/data/rules.ts:135 | spreading a table of new keys onto another appends its entries in order |
| OrderedMaps.Get | src/services/extension-service.ts:296 | `Map.get` finds nothing exactly when the key is not among the keys |
| OrderedMaps.Put | src/services/extension-service.ts:213 | `Map.set` makes the key map to the new value, leaves every other key's value, keeps the size for an existing key and appends a new key at the end |
| OrderedMaps.PutKeys | src/services/extension-service.ts:213 | after `Map.set` the keys are the old keys, with the new key appended when it was absent |
| OrderedMaps.PutDistinct | src/services/extension-service.ts:213 | `Map.set` never duplicates a key |
| OrderedMaps.Delete | src/services/extension-service.ts:334 | `Map.delete` removes the key, leaves every other key's value and changes nothing when the key is absent |
| OrderedMaps.SpreadGet | src/services/character/card-operations.ts:129 | in `{ ...base, ...more }` the keys of `more` take its values and every other key keeps the value `base` gave it |
| OrderedMaps.SpreadSnoc | src/services/character/card-operations.ts:129 | spreading one more entry is one more `set` |
| Rules.UnionKeys | src/data/rules.ts:135 | for tables with distinct and pairwise disjoint keys, the union is the three tables in order, so the keys listed are the COC keys, then the DND keys, then the common keys |
| Rules.ListedKeysFound | src/data/rules.ts:158-175 | every key `listRules` lists is found by `getRule` for the same system |
| Coc.DiceTermNoSlash | src/commands/coc.ts:41 | a dice term `\d*[dD]\d+` never contains `/`, so the formula's two terms are separated unambiguously |
| Coc.MatchFormula | src/commands/coc.ts:136-144 | a match yields two dice terms and the text is exactly `+`, the first, `/`, the second |
| Coc.MatchFormulaComplete | src/commands/coc.ts:136-144 | every `+A/B` built from two dice terms matches with `A` and `B` captured, so the pattern accepts exactly these texts |
| Coc.ParseGrowthCommand | src/commands/coc.ts:23-62 | no result exactly for no arguments; the skill is the first argument; one argument gives the bare skill; a formula second argument becomes the formula, a numeric one the skill value, never both; the reason is the rest after a formula or number, else everything after the skill |
| Coc.GrowthArgsOf | src/commands/coc.ts:23-62 | the skill is the first argument, and a growth formula kept is one the formula pattern matches |
| Coc.Resolve | src/commands/coc.ts:94-105 | a given value is used and not written back; otherwise the card's own attribute, marked for write-back; a skill the card lacks that names a member every object inherits gives that member; nothing exactly when no value is given and the card has neither |
| Coc.Growth | src/commands/coc.ts:94-186 | the growth check as run is the outcome function, whose cases `Coc.OutcomeSpec` characterises |
| Coc.GrowthRoll | src/commands/coc.ts:133-164 | without a formula: `1d10`, failing exactly when that roll fails; with one: the larger of the two formula rolls, failing exactly when either fails |
| Coc.OutcomeSpec | src/commands/coc.ts:94-186 | each outcome happens exactly under its condition: no skill value, a value outside 0..1000, a failed check roll (with its message), a check roll not above the value, a failed growth roll, or a growth to `min(value + growth, 99)` |
| Coc.InheritedNeverGrows | src/commands/coc.ts:98-128 | as written, a skill the card lacks but every object inherits passes the range check and never grows |
| Coc.GrowthWritesBack | src/commands/coc.ts:128-173 | a write-back happens exactly when a card value in 0..1000 was exceeded by a successful check roll and the growth roll succeeded, and it writes `min(value + growth, 99)` |
| Coc.GrowthCapped | src/commands/coc.ts:166 | the grown value never exceeds 99, equals the full sum when that is at most 99, and never drops below a value within the cap |
| Coc.GrowthCommand | src/commands/coc.ts:86-191 | no arguments give the usage text and no update; otherwise the reply is the one for the outcome of the parsed arguments, and the write-back is exactly the grown card value under the skill name; an update needs a card value in 0..1000 exceeded by a successful `1d100` roll and writes at most 99 |
| Coc.AcceptCount | src/commands/coc.ts:229-234 | a count is kept exactly when it is a number in 1..10, otherwise it stays 1 |
| Coc.CountFormsNotDetailed | src/commands/coc.ts:226-251 | a version followed by a count is none of the detailed forms, so the branches do not overlap |
| Coc.ParseCocParam | src/commands/coc.ts:218-264 | the version is 6 exactly for `6`, `6 N` and `6d`, otherwise 7; detailed exactly for `d`, `7d`, `6d`, with count 1; the count is always 1..10, taken from the second word after a version or from the whole parameter otherwise |
| Coc.ParseVersionCount | src/commands/coc.ts:299-318 | for `.coc6`/`.coc7`: detailed exactly for `d` (count 1), otherwise the count accepted from the parameter, always 1..10 |
| Coc.SheetFor | src/commands/coc.ts:269-287 | the generator keeps the version and is the multiple one exactly when not detailed and the count exceeds 1 |
| Coc.CocCommand | src/commands/coc.ts:213-294 | the reply names the user and a version 6 or 7 and carries the engine's sheet for a count in 1..10 |
| Wod.MatchPool | src/commands/wod.ts:58 | a match of `^(\d+)a(\d+)$/i` yields two non-empty digit runs that make up the expression around one `a` or `A` |
| Wod.ParsePool | src/commands/wod.ts:58-72 | a parsed pool has 1..100 dice and an again-line in 2..10 |
| Wod.MatchRendered | src/commands/wod.ts:58 | `NaM` or `NAM` written from two numbers matches with both numbers' digits captured |
| Wod.ParsePoolRendered | src/commands/wod.ts:58-72 | round trip: a pool within the bounds written as `NaM` or `NAM` parses back to the same numbers |
| Wod.ParsePoolBounds | src/commands/wod.ts:66-72 | an out-of-range pool size is reported first, then an out-of-range again-line, with the source's messages |
| Wod.CountAtLeast | src/commands/wod.ts:89-91 | a count of dice never exceeds the dice rolled |
| Wod.PoolFromLength | src/commands/wod.ts:79-97 | the dice rolled number exactly `min(100, start + dice at or above the again-line)` |
| Wod.PoolBounds | src/commands/wod.ts:94-96 | the pool never exceeds 100 dice and never has fewer than it started with |
| Wod.NoExplosions | src/commands/wod.ts:94-96 | with an again-line above every roll exactly the starting dice are rolled |
| Wod.PoolValues | src/commands/wod.ts:80-86 | die `k` shows what the `k`-th roll returned |
| Wod.RollPool | src/commands/wod.ts:75-97 | the loop yields the pool the specification function defines (or the first roll's error) and counts the dice of 8 or more as successes |
| Wod.DieTextFlagsExplosions | src/commands/wod.ts:101-107 | exactly the dice at or above the again-line are shown flagged `[v!]` |
| Wod.DetailList | src/commands/wod.ts:101-108 | one entry per die, in rolling order |
| Wod.ParseAndRollWod | src/commands/wod.ts:52-114 | a parse error is the thrown message; otherwise a roll error is thrown, or the text reports the pool, the detail when asked, and the number of successes of the pool rolled |
| Wod.WodCommand | src/commands/wod.ts:15-46 | an empty expression gives the usage text of `.ww` or `.w`; a parse error is reported after `骰池失败: ` |
| Adapter.Initialized | src/wasm/adapter.ts:21-26 | after `initialize` an engine is always held; an engine already held is kept, otherwise the loaded one is taken |
| Adapter.InitializeIdempotent | src/wasm/adapter.ts:21-26 | a second `initialize` leaves the held engine unchanged whatever it would load |
| Adapter.DiceAdapter.constructor | src/wasm/adapter.ts:15-16 | a new adapter holds no engine |
| Adapter.DiceAdapter.Initialize | src/wasm/adapter.ts:21-26 | the new engine field is `Initialized` of the old one and the loaded engine |
| Adapter.DiceAdapter.EnsureModule | src/wasm/adapter.ts:31-36 | fails exactly when no engine is held, with the fixed "not initialized" message; otherwise returns the held engine |
| Adapter.DiceAdapter.Call | src/wasm/adapter.ts:77-80 | any forwarded operation fails with the "not initialized" message exactly when no engine is held, otherwise returns the operation applied to the held engine |
| Adapter.DiceAdapter.Roll | src/wasm/adapter.ts:44-47 | fails exactly before initialisation; otherwise the engine's `rollDice` result for the same arguments |
| Adapter.DiceAdapter.CocCheck | src/wasm/adapter.ts:55-58 | fails exactly before initialisation; otherwise the engine's `cocCheck` result for the same arguments |
| Adapter.DiceAdapter.HiddenRoll | src/wasm/adapter.ts:66-70 | fails exactly before initialisation; otherwise only the engine's success flag |
| Adapter.DiceAdapter.DrawCard | src/wasm/adapter.ts:98-105 | not initialised: the fixed error; engine error code 0: the drawn cards; any other code: a non-empty error that is the engine's message when that is non-empty |
| Adapter.FormatSuccessLevel | src/wasm/adapter.ts:198-208 | every level gets a non-empty label |
| Adapter.SuccessLevelLabels | src/wasm/adapter.ts:198-208 | a level has a label other than `未知` exactly when it is 0..5, and the six labels are pairwise distinct |
| Adapter.CocLevelsLabelled | src/wasm/adapter.ts:198-208 | every level the engine's COC classification can produce has a proper label |
| Adapter.FormatRollResult | src/wasm/adapter.ts:213-225 | an engine error gives `掷骰失败: ` and the message; otherwise the text ends with the detail, starts with the reason and a space when a reason is given, and is the detail alone when none is |
| Adapter.FormatCocCheckResult | src/wasm/adapter.ts:230-243 | an engine error gives `检定失败: ` and the message; otherwise the text ends with a space and the level's label, and starts with `<skill>检定 ` when a skill name is given or with `roll/skill ` when none is |

## Left out

- File system, database, network and interpreter I/O are inputs. Directory listings and file contents are given as values. The database tables are sequences held by the service classes. Whether the Lua or QuickJS interpreter accepts a script is a given predicate (`compiles`).
- JSON, TOML, YAML and XML parsing are foreign libraries. Their results arrive already parsed, as `Option` values. The template formula evaluation through `new Function` is an abstract evaluator, for the same reason.
- Dice rolls, the native dice engine's results, `crypto.getRandomValues`, `Math.random()`, `Date.now()` and the rendering of JavaScript and C++ numbers are parameters. The engine's own success-level rule (`RollSuccessLevel`) is one too.
- Floating-point output such as `std::to_string` of a double is not modelled. `parseFloat` is a parameter.
- Integer widths are unbounded. The 32-bit wrap-around of `getSecureRandomInt` is written out, because it is the point of a finding. Elsewhere the model does not bound integers. Most inputs are kept inside the C++ `int` range by the source's own checks (`std::stoi`, the length limits). `Initiative.Decode` is an exception: `deserializeInitiative` (wasm/src/dice_initiative.cpp:225-232) stores JSON integers without a range check, and the narrowing of a large JSON number to `int` is not modelled.
- JavaScript numbers are modelled as integers. TemplateParser.Evaluate: `Number(result) || 0` (src/services/extension/template-parser.ts:124) keeps a fractional result, and `NaN` becomes 0; the model's evaluator returns whole numbers or nothing, which stands for `NaN`. The same holds for the dice totals and skill values of the commands, apart from the `.en` skill values, which are reals.
- ScriptWrapper.ReplacePlaceholders: the replacement strings of `String.prototype.replace` (src/services/extension/script-wrapper.ts:104-109) are inserted literally. JavaScript would expand the `$` patterns in them: a user name `a$$b` would be inserted as `a$b`, and `$&` as the placeholder itself.
- The services read a row, change it and write it back across `await` points (the card binding, game session and anko services). Two commands running at once can interleave there and one write can be lost. The model runs each command as one step and does not model such interleavings.
- JavaScript lists an object's integer-like keys (such as `"1"`) first, in ascending order, and only then the other keys in insertion order. The model keeps every key in insertion order. So OrderedMaps.Spread, CardBinding.ToLuaTable and the other walks over plain objects differ from the source for cards whose attribute names are integer-like; `Map` keeps insertion order for all keys and is modelled exactly.
- Strings are sequences of code points. The C++ byte offsets that depend on UTF-8 lengths are justified by `Utf8.KeywordLengths`. `toLowerCase` folds ASCII letters only, and no Unicode case mapping or normalisation is modelled.
- In the regular expressions, `.` is modelled as any character except the four JavaScript line terminators. Placeholders and template aliases are replaced literally. Alias text containing regular-expression metacharacters is therefore treated as plain text.
- Logging (`logger.*`, `console.*`) and the try/catch wrappers that turn a thrown exception into an "异常", "未知异常" or "…失败: " reply are not modelled. Apart from the errors the model represents explicitly, the modelled code has nothing that throws.
- Row ids are modelled, but the `createdAt`/`updatedAt` timestamps are not, because they come from the clock.
- `initialize` and `scanPluginDirectory` in src/services/extension-service.ts only iterate the directory listing into `loadPlugin`. `listPlugins` returns the record values unchanged. Neither is modelled.
- `ExtensionManager::getExtensionInfo` and the text of `listExtensions` are not modelled, because the rendering of the info record is Emscripten glue. Only the empty-registry reply of `listExtensions` is stated.
- `getPlayerCard` and the data callbacks in the extension context call back into the database. The context holds them as opaque values.
- `listDecks` and `deckExists` in wasm/src/features/deck.cpp only read the constant deck tables. `CardDeck::draw` belongs to the external engine. The draw is modelled on the expanded deck with the random indices as input.
- The rule quick-reference tables are constant data. Their mutual disjointness is not proved, because it is a property of the data, not of the lookup.
- The `.cocd` sheet generation (src/commands/coc.ts:431-530) and `registerSanityCheckCommand` (src/commands/coc.ts:531 onwards) are not modelled. Both render engine output only.
- `parseAndSetCOCAttributes` belongs to src/services/character-service.ts, an older duplicate of the card modules. That file is not part of this model.
- The `.game rou hist` listing (src/commands/game.ts) is returned as the game row, not as rendered text.
- GameCommands.State: the whole text of `.game state` has no contract of its own. `GameCommands.StateShowsRule` and `GameCommands.RosterListsEveryone` state its first line, its rule line and its rosters; the other lines are layout.
- The `getDiceAdapter` singleton (src/wasm/adapter.ts:246-258) and the adapter operations that only forward to the engine beyond those in `Adapter.DiceAdapter` are left out. Every forwarded call follows the same `ensureModule` pattern that `Adapter.DiceAdapter.Call` states.
- Some branches of the source cannot be reached, and the model leaves them out:
  - the `count > 10` guard of `.coc`, because `Coc.ParseCocParam` already bounds the count;
  - the bad-formula reply at src/commands/coc.ts:139-141, because `Coc.ParseGrowthCommand` only accepts formulas that match;
  - the empty-expansion check at wasm/src/features/deck.cpp:151-156, because `Deck.ExpansionNonEmpty` shows that a non-empty deck, once parsed, always expands to at least one card.
- Coc.CocCommand: the reply is stated up to the version and count chosen. The exact version and count are stated by `Coc.ParseCocParam`, not repeated here.
- Initiative.Tracker.Next: reading `entries[i]` for a negative `i` is undefined behaviour in C++. The model reports it as an error value of its own (`ReadBeforeEntries`) and stores the moved index, as the code does before the read.
- Wod.FormatPool and Anko.ShowText: the layout of these replies has no contract of its own. The parts with meaning are stated by `Wod.DieTextFlagsExplosions`, `Wod.DetailList` and `Anko.Board.Command`.
- Anko.ParseAction: has no contract of its own. How the action is read is stated through `Anko.Board.Command`, whose postconditions are phrased in terms of it.
- Wod.WodCommand: the success reply is not stated. It is the user name before the text of `Wod.ParseAndRollWod`, and that method's own contract states the text.

## Findings

| source | as written | input that shows it | evidently intended | confidence | as-written member | corrected member |
|---|---|---|---|---|---|---|
| wasm/src/core/utils.cpp:37-41 | `getSecureRandomInt` computes `max - min + 1` as a 32-bit unsigned range | `min = INT_MIN`, `max = INT_MAX`: the range wraps to 0, the product is 0 and every draw returns `INT_MIN` | every value between the bounds can be drawn, which a 64-bit range gives | high; not executed | CoreUtils.FullRangeStuckAtMin | CoreUtils.RandomInRangeWideEndpoints |
| src/services/extension-service.ts:320-336 | `reloadPlugin` unloads each script by its full name only, though `loadPlugin` also registered a short alias (lines 136-158) | plugin `P` with script `a.js`, loaded with code "old" and then reloaded with code "new": the alias `a` still runs "old", because the new alias load is rejected as a duplicate | a reload replaces the code under every name the plugin registered | high; not executed | ExtensionService.ReloadKeepsStaleAlias | ExtensionService.ReloadFixedRefreshesAlias |
| wasm/src/dice_initiative.cpp:226-239 | `deserializeInitiative` stores `currentIndex` from the JSON unchecked | `{"currentIndex": -3, "entries": [...]}` (any index of -2 or less): the next turn moves the index to -2 and reads before the first entry | an index outside the entries is moved to the top on load, as `removeInitiative` does (lines 125-127) | medium; not executed | Initiative.NegativeIndexAccepted | Initiative.ClampedTurnInRange |
| src/commands/character/types.ts:74-77 | `normalizeAttributeName` looks the lowered name up in a plain object literal | `"constructor"`: the lookup finds the inherited `Object` constructor, a function rather than a name | only the table's own entries are looked up (`Object.hasOwn`), so other names come back unchanged | high; not executed | CharacterParser.ConstructorIsNotAName | CharacterParser.NormalizeTsSpec |
| src/services/character/card-binding.ts:140 | a string is escaped for Lua by doubling `\\` and escaping `"` only | a card named `a` newline `b`: the cached literal holds a raw line break, which a Lua short string may not contain, so Lua refuses the table | line breaks are escaped as `\n` and `\r` as well, so every string reads back | low; not executed | CardBinding.RawNewlineRejected | CardBinding.ReadEscapedFixed |
