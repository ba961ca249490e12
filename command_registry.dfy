/** src/services/extension/command-registry.ts: each command of a plugin's
    reply configuration becomes a chat command bound to a qualified script
    name, and each call gets an extension context built from the session. */
module CommandRegistry {
  import opened Wrappers
  import opened Text
  import opened JsValues
  import opened OrderedMaps
  import ScriptWrapper
  import RulebookLoader

  /** The descriptor.json fields the registry reads. */
  datatype Descriptor = Descriptor(name: string, title: Option<string>)

  /** The reply-configuration fields the registry reads (`keyword.prefix`,
      `echo.lua`, `echo.js`, `rule`). */
  datatype ReplyConfig = ReplyConfig(
    prefix: Option<string>, echoLua: Option<string>, echoJs: Option<string>, rule: Option<string>)

  /** A registered command: its name, the script it calls and its usage text. */
  datatype Registration = Registration(command: string, script: string, usage: string)

  predicate Truthy(s: Option<string>) { s.Some? && s.value != [] }

  /** `config.echo?.lua || config.echo?.js`, `None` when neither is set. */
  function ScriptOf(config: ReplyConfig): (r: Option<string>)
    ensures r.Some? <==> Truthy(config.echoLua) || Truthy(config.echoJs)
    ensures Truthy(config.echoLua) ==> r == config.echoLua
    ensures !Truthy(config.echoLua) && Truthy(config.echoJs) ==> r == config.echoJs
  {
    if Truthy(config.echoLua) then config.echoLua
    else if Truthy(config.echoJs) then config.echoJs
    else None
  }

  /** Prefixes the script name with `<plugin>.` unless it already starts so. */
  function Qualify(plugin: string, script: string): (r: string)
    ensures StartsWith(r, plugin + ".")
    ensures StartsWith(script, plugin + ".") ==> r == script
    ensures !StartsWith(script, plugin + ".") ==> r == plugin + "." + script
  {
    if StartsWith(script, plugin + ".") then script
    else
      assert (plugin + "." + script)[..|plugin + "."|] == plugin + ".";
      plugin + "." + script
  }

  lemma QualifyIdempotent(plugin: string, script: string)
    ensures Qualify(plugin, Qualify(plugin, script)) == Qualify(plugin, script)
  {
  }

  /** The command name: the prefix without one leading `.`. */
  function CommandName(prefix: string): (r: string)
    ensures StartsWith(prefix, ".") ==> "." + r == prefix
    ensures !StartsWith(prefix, ".") ==> r == prefix
  {
    if StartsWith(prefix, ".") then
      assert prefix == [prefix[0]] + prefix[1..];
      prefix[1..]
    else prefix
  }

  function Usage(d: Descriptor, rule: Option<string>): string
  {
    var shown := ScriptWrapper.OrElse(d.title, d.name);
    if Truthy(rule) then "[" + rule.value + "] " + shown else shown
  }

  /** One command's registration; `None` when it names no script. */
  function Derive(d: Descriptor, cmdName: string, config: ReplyConfig): Option<Registration>
  {
    var prefix := ScriptWrapper.OrElse(config.prefix, "." + cmdName);
    match ScriptOf(config)
    case None => None
    case Some(script) => Some(Registration(CommandName(prefix), Qualify(d.name, script), Usage(d, config.rule)))
  }

  /** Without a prefix, the command is named after its configuration key. */
  lemma DefaultCommandName(d: Descriptor, cmdName: string, config: ReplyConfig)
    requires !Truthy(config.prefix) && ScriptOf(config).Some?
    ensures Derive(d, cmdName, config).value.command == cmdName
  {
    assert StartsWith("." + cmdName, ".");
  }

  function Registrations(d: Descriptor, commands: seq<(string, ReplyConfig)>): seq<Registration>
  {
    if commands == [] then []
    else
      Registrations(d, commands[..|commands| - 1])
      + match Derive(d, commands[|commands| - 1].0, commands[|commands| - 1].1)
        case None => []
        case Some(reg) => [reg]
  }

  /** registerPluginCommands: the commands in order, each with a script
      registered, each without one skipped. */
  method RegisterPluginCommands(d: Descriptor, commands: seq<(string, ReplyConfig)>)
    returns (registered: seq<Registration>)
    ensures registered == Registrations(d, commands)
  {
    registered := [];
    if |commands| == 0 {
      return;
    }
    for i := 0 to |commands|
      invariant registered == Registrations(d, commands[..i])
    {
      assert commands[..i + 1][..i] == commands[..i];
      var (cmdName, config) := commands[i];
      var prefix := ScriptWrapper.OrElse(config.prefix, "." + cmdName);
      var scriptName := ScriptOf(config);
      if scriptName.None? {
        continue;
      }
      var script := scriptName.value;
      if !StartsWith(script, d.name + ".") {
        script := d.name + "." + script;
      }
      var koishiCmd := if StartsWith(prefix, ".") then prefix[1..] else prefix;
      registered := registered + [Registration(koishiCmd, script, Usage(d, config.rule))];
    }
    assert commands[..|commands|] == commands;
  }

  /** Every registration calls a script qualified by the plugin's name. */
  lemma {:induction false} RegistrationsInNameSpace(d: Descriptor, commands: seq<(string, ReplyConfig)>)
    ensures forall r :: r in Registrations(d, commands) ==> StartsWith(r.script, d.name + ".")
    decreases |commands|
  {
    if commands != [] {
      RegistrationsInNameSpace(d, commands[..|commands| - 1]);
    }
  }

  /** There is one registration per command that names a script. */
  lemma {:induction false} RegistrationsCount(d: Descriptor, commands: seq<(string, ReplyConfig)>)
    ensures |Registrations(d, commands)| == |ScriptIndices(commands)|
    decreases |commands|
  {
    if commands != [] {
      var n := |commands| - 1;
      RegistrationsCount(d, commands[..n]);
      ScriptIndicesSnoc(commands);
    }
  }

  /** The positions of the commands that name a script. */
  ghost function ScriptIndices(commands: seq<(string, ReplyConfig)>): set<int>
  {
    set i | 0 <= i < |commands| && ScriptOf(commands[i].1).Some?
  }

  /** Adding a command adds its position exactly when it names a script. */
  lemma ScriptIndicesSnoc(commands: seq<(string, ReplyConfig)>)
    requires commands != []
    ensures |ScriptIndices(commands)|
      == |ScriptIndices(commands[..|commands| - 1])| + (if ScriptOf(commands[|commands| - 1].1).Some? then 1 else 0)
  {
    var n := |commands| - 1;
    var init := commands[..n];
    var before := ScriptIndices(init);
    assert forall i :: 0 <= i < n ==> init[i] == commands[i];
    if ScriptOf(commands[n].1).Some? {
      assert ScriptIndices(commands) == before + {n};
      assert n !in before;
    } else {
      assert ScriptIndices(commands) == before;
    }
  }

  /** The session fields the context reads. */
  datatype Session = Session(
    userId: Option<string>, username: Option<string>, guildId: Option<string>, channelId: Option<string>)

  /** The active card as the card service returns it. */
  datatype Card = Card(cardName: string, cardType: string, attributes: Fields)

  datatype ExtensionContext = ExtensionContext(
    suffix: string, uid: string, gid: string, isPrivate: bool,
    character: Option<Fields>, game: Fields, pluginRules: RulebookLoader.Rules)

  /** The three fixed fields every card's data starts from. */
  function CardHeader(card: Card): Fields
  {
    [("__Name", Str(card.cardName)), ("name", Str(card.cardName)), ("type", Str(card.cardType))]
  }

  /** `{ __Name, name, type, ...attrs }`. */
  function CharData(card: Card): Fields
  {
    Spread(CardHeader(card), card.attributes)
  }

  lemma CardHeaderGet(card: Card)
    ensures Get(CardHeader(card), "__Name") == Some(Str(card.cardName))
    ensures Get(CardHeader(card), "name") == Some(Str(card.cardName))
    ensures Get(CardHeader(card), "type") == Some(Str(card.cardType))
  {
    var h := CardHeader(card);
    assert "name" != "__Name" by { assert |"name"| != |"__Name"|; }
    assert "type" != "__Name" by { assert |"type"| != |"__Name"|; }
    assert "type" != "name" by { assert "type"[0] != "name"[0]; }
    assert h[1..] == [("name", Str(card.cardName)), ("type", Str(card.cardType))];
    assert h[1..][1..] == [("type", Str(card.cardType))];
    assert Get(h, "name") == Get(h[1..], "name");
    assert Get(h, "type") == Get(h[1..], "type") == Get(h[1..][1..], "type");
  }

  /** The card's own attributes win over the three fixed fields. */
  lemma CharDataFields(card: Card, k: string)
    requires DistinctKeys(card.attributes)
    ensures k in Keys(card.attributes) ==> Get(CharData(card), k) == Get(card.attributes, k)
    ensures k !in Keys(card.attributes) && (k == "__Name" || k == "name") ==>
      Get(CharData(card), k) == Some(Str(card.cardName))
    ensures k !in Keys(card.attributes) && k == "type" ==> Get(CharData(card), k) == Some(Str(card.cardType))
  {
    SpreadGet(CardHeader(card), card.attributes, k);
    CardHeaderGet(card);
  }

  /** Every key of a card's data: the card's own attribute when it has one,
      otherwise the fixed field of that name, and nothing else. */
  lemma CharDataAll(card: Card)
    ensures DistinctKeys(card.attributes) ==>
      forall k :: Get(CharData(card), k) == (if k in Keys(card.attributes) then Get(card.attributes, k) else Get(CardHeader(card), k))
  {
    if DistinctKeys(card.attributes) {
      forall k {
        SpreadGet(CardHeader(card), card.attributes, k);
      }
    }
  }

  /** buildExtensionContext.  Loading the card or the game session is
      foreign and its failure is caught, so both arrive as options. */
  function BuildExtensionContext(session: Session, args: seq<string>, card: Option<Card>,
                                 game: Option<Fields>, rules: RulebookLoader.Rules): (c: ExtensionContext)
    ensures c.suffix == Join(args, " ")
    ensures c.uid == ScriptWrapper.OrElse(session.userId, "")
    ensures c.gid == ScriptWrapper.OrElse(session.guildId, ScriptWrapper.OrElse(session.channelId, ""))
    ensures c.isPrivate <==> !Truthy(session.guildId)
    ensures c.character.Some? <==> card.Some?
    ensures card.Some? && DistinctKeys(card.value.attributes) ==>
      forall k :: Get(c.character.value, k)
        == (if k in Keys(card.value.attributes) then Get(card.value.attributes, k) else Get(CardHeader(card.value), k))
    ensures game.None? ==> c.game == []
    ensures game.Some? ==> c.game == game.value
    ensures Keys(c.pluginRules) == Keys(rules)
    ensures forall name :: Get(c.pluginRules, name) == Get(rules, name)
  {
    ExtensionContext(
      Join(args, " "),
      ScriptWrapper.OrElse(session.userId, ""),
      ScriptWrapper.OrElse(session.guildId, ScriptWrapper.OrElse(session.channelId, "")),
      !Truthy(session.guildId),
      if card.Some? then (CharDataAll(card.value); Some(CharData(card.value))) else None,
      if game.Some? then game.value else [],
      rules)
  }

  /** `context.char?.__Name || context.char?.name`. */
  function CharName(c: ExtensionContext): Option<string>
  {
    if c.character.None? then None
    else
      var n := Get(c.character.value, "__Name");
      var m := Get(c.character.value, "name");
      if n.Some? && JsValues.Truthy(n.value) then Some(ToJsString(n.value))
      else if m.Some? && JsValues.Truthy(m.value) then Some(ToJsString(m.value))
      else None
  }

  /** The reply to a command: the extension's reply with placeholders
      substituted when it is a non-empty string, or `[错误] <message>` when
      the call threw. */
  function Reply(outcome: Result<string, string>, session: Session, c: ExtensionContext): (r: string)
    ensures outcome.Err? ==> r == "[错误] " + outcome.error
    ensures outcome.Ok? && outcome.value == [] ==> r == []
  {
    match outcome
    case Err(message) => "[错误] " + message
    case Ok(result) =>
      if result != [] then
        ScriptWrapper.ReplacePlaceholders(result, ScriptWrapper.PlaceholderContext(
          session.username, session.userId, session.guildId, session.channelId, CharName(c)))
      else result
  }

  /** A reply without `{` reaches the user as the extension wrote it. */
  lemma PlainReplyPassesThrough(result: string, session: Session, c: ExtensionContext)
    requires ScriptWrapper.NoBrace(result)
    ensures Reply(Ok(result), session, c) == result
  {
    if result != [] {
      ScriptWrapper.PlainReplyUnchanged(result, ScriptWrapper.PlaceholderContext(
        session.username, session.userId, session.guildId, session.channelId, CharName(c)));
    }
  }
}
