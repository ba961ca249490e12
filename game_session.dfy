/** src/services/game-session-service.ts: TRPG game sessions with their GM,
    player, observer and area rosters, a per-game configuration and the
    roulette dice.  The `koidice_game_session` table is held in memory as a
    sequence of rows; a row's JSON-encoded columns are held decoded. */
module GameSessions {
  import opened Wrappers
  import opened Text
  import opened JsValues
  import opened OrderedMaps

  /** The session fields the service reads. */
  datatype Session = Session(userId: string, guildId: Option<string>, channelId: Option<string>, platform: string)

  predicate Truthy(s: Option<string>) { s.Some? && s.value != [] }

  /** getSessionKey's window: the guild, else the channel, else the user. */
  function WindowOf(s: Session): string
  {
    if Truthy(s.guildId) then s.guildId.value
    else if Truthy(s.channelId) then s.channelId.value
    else s.userId
  }

  /** A private chat (no guild, no channel) is its own window, named after
      the user. */
  lemma PrivateWindowIsUser(s: Session)
    requires !Truthy(s.guildId) && !Truthy(s.channelId)
    ensures WindowOf(s) == s.userId
  {
  }

  /** A row of the table. */
  datatype Game = Game(
    id: int, name: string, guildId: string, platform: string,
    gmList: seq<string>, playerList: seq<string>, observerList: seq<string>, areas: seq<string>,
    config: Fields, roulette: Fields, isLogging: bool)

  /** The four rosters a game keeps. */
  datatype Roster = GMs | Players | Observers | Areas

  function Members(g: Game, r: Roster): seq<string>
  {
    match r
    case GMs => g.gmList
    case Players => g.playerList
    case Observers => g.observerList
    case Areas => g.areas
  }

  /** The game with one roster replaced; nothing else changes. */
  function WithMembers(g: Game, r: Roster, l: seq<string>): (h: Game)
    ensures Members(h, r) == l
    ensures forall other :: other != r ==> Members(h, other) == Members(g, other)
    ensures h.id == g.id && h.name == g.name && h.guildId == g.guildId && h.platform == g.platform
    ensures h.config == g.config && h.roulette == g.roulette && h.isLogging == g.isLogging
  {
    match r
    case GMs => g.(gmList := l)
    case Players => g.(playerList := l)
    case Observers => g.(observerList := l)
    case Areas => g.(areas := l)
  }

  type Table = seq<Game>

  /** The first row with the given id, as `database.get({ id })` yields it. */
  function FindGame(t: Table, id: int): (r: Option<nat>)
    ensures r.Some? ==> r.value < |t| && t[r.value].id == id && forall j :: 0 <= j < r.value ==> t[j].id != id
    ensures r.None? ==> forall j :: 0 <= j < |t| ==> t[j].id != id
  {
    if t == [] then None
    else if t[0].id == id then Some(0)
    else match FindGame(t[1..], id)
      case None => None
      case Some(k) => Some(k + 1)
  }

  /** `list.indexOf(x)`, `None` for -1. */
  function IndexOf(l: seq<string>, x: string): (r: Option<nat>)
    ensures r.Some? ==> r.value < |l| && l[r.value] == x && forall j :: 0 <= j < r.value ==> l[j] != x
    ensures r.None? <==> x !in l
  {
    if l == [] then None
    else if l[0] == x then Some(0)
    else match IndexOf(l[1..], x)
      case None => None
      case Some(k) => Some(k + 1)
  }

  /** The roster after `push`, `None` when the id is already in it. */
  function Added(l: seq<string>, x: string): Option<seq<string>>
  {
    if x in l then None else Some(l + [x])
  }

  /** The roster after `splice(indexOf(x), 1)`, `None` when x is absent. */
  function Removed(l: seq<string>, x: string): Option<seq<string>>
  {
    match IndexOf(l, x)
    case None => None
    case Some(i) => Some(l[..i] + l[i + 1..])
  }

  /** Adding keeps a roster free of duplicates. */
  lemma AddedDistinct(l: seq<string>, x: string)
    requires Distinct(l) && Added(l, x).Some?
    ensures Distinct(Added(l, x).value) && x in Added(l, x).value
  {
    var r := Added(l, x).value;
    assert r[|l|] == x;
  }

  /** Removing takes out exactly one occurrence, the first, and keeps the
      others in their order. */
  lemma RemovedOne(l: seq<string>, x: string)
    requires x in l
    ensures Removed(l, x).Some?
    ensures multiset(Removed(l, x).value) == multiset(l) - multiset{x}
    ensures var i := IndexOf(l, x).value; Removed(l, x).value == l[..i] + l[i + 1..]
  {
    var i := IndexOf(l, x).value;
    var before, after := l[..i], l[i + 1..];
    assert l == before + [x] + after;
    calc {
      multiset(l);
      multiset(before + [x] + after);
      multiset(before) + multiset{x} + multiset(after);
    }
    assert multiset(before + after) == multiset(before) + multiset(after);
  }

  /** In a roster free of duplicates, a removed id is gone for good. */
  lemma {:induction false} RemovedDistinct(l: seq<string>, x: string)
    requires Distinct(l) && x in l
    ensures Distinct(Removed(l, x).value) && x !in Removed(l, x).value
  {
    var i := IndexOf(l, x).value;
    var r := Removed(l, x).value;
    assert r == l[..i] + l[i + 1..];
    forall a, b | 0 <= a < b < |r| ensures r[a] != r[b] {
      var a' := if a < i then a else a + 1;
      var b' := if b < i then b else b + 1;
      assert r[a] == l[a'] && r[b] == l[b'];
    }
    forall k | 0 <= k < |r| ensures r[k] != x {
      var k' := if k < i then k else k + 1;
      assert r[k] == l[k'] && k' != i;
    }
  }

  /** addGM, addPlayer, addObserver, addArea: the table after the call and
      the returned flag. */
  function AddMember(t: Table, id: int, r: Roster, x: string): (Table, bool)
  {
    match FindGame(t, id)
    case None => (t, false)
    case Some(i) =>
      match Added(Members(t[i], r), x)
      case None => (t, false)
      case Some(l) => (t[i := WithMembers(t[i], r, l)], true)
  }

  /** removeGM, removePlayer, removeObserver, removeArea. */
  function RemoveMember(t: Table, id: int, r: Roster, x: string): (Table, bool)
  {
    match FindGame(t, id)
    case None => (t, false)
    case Some(i) =>
      match Removed(Members(t[i], r), x)
      case None => (t, false)
      case Some(l) => (t[i := WithMembers(t[i], r, l)], true)
  }

  /** An add succeeds exactly when the game exists and the id is new to the
      roster; it then appends the id to that roster and changes nothing
      else, and a refused add changes nothing at all. */
  lemma AddMemberSpec(t: Table, id: int, r: Roster, x: string)
    ensures var (t', ok) := AddMember(t, id, r, x);
      (ok <==> FindGame(t, id).Some? && x !in Members(t[FindGame(t, id).value], r))
      && (!ok ==> t' == t)
      && (ok ==> var i := FindGame(t, id).value;
            |t'| == |t| && Members(t'[i], r) == Members(t[i], r) + [x]
            && (forall other :: other != r ==> Members(t'[i], other) == Members(t[i], other))
            && t'[i].config == t[i].config && t'[i].id == id
            && forall j :: 0 <= j < |t| && j != i ==> t'[j] == t[j])
  {
  }

  /** A remove succeeds exactly when the game exists and the id is in the
      roster; it then removes one occurrence of it and changes nothing
      else. */
  lemma RemoveMemberSpec(t: Table, id: int, r: Roster, x: string)
    ensures var (t', ok) := RemoveMember(t, id, r, x);
      (ok <==> FindGame(t, id).Some? && x in Members(t[FindGame(t, id).value], r))
      && (!ok ==> t' == t)
      && (ok ==> var i := FindGame(t, id).value;
            |t'| == |t| && multiset(Members(t'[i], r)) == multiset(Members(t[i], r)) - multiset{x}
            && (forall other :: other != r ==> Members(t'[i], other) == Members(t[i], other))
            && t'[i].config == t[i].config && t'[i].id == id
            && forall j :: 0 <= j < |t| && j != i ==> t'[j] == t[j])
  {
    var i := FindGame(t, id);
    if i.Some? && x in Members(t[i.value], r) {
      RemovedOne(Members(t[i.value], r), x);
    }
  }

  /** Every roster of every row free of duplicates. */
  predicate RostersDistinct(t: Table)
  {
    forall i, r :: 0 <= i < |t| ==> Distinct(Members(t[i], r))
  }

  /** Adds and removes keep every roster free of duplicates. */
  lemma AddMemberKeepsDistinct(t: Table, id: int, r: Roster, x: string)
    requires RostersDistinct(t)
    ensures RostersDistinct(AddMember(t, id, r, x).0)
  {
    var i := FindGame(t, id);
    if i.Some? && x !in Members(t[i.value], r) {
      AddedDistinct(Members(t[i.value], r), x);
    }
  }

  lemma RemoveMemberKeepsDistinct(t: Table, id: int, r: Roster, x: string)
    requires RostersDistinct(t)
    ensures RostersDistinct(RemoveMember(t, id, r, x).0)
    ensures var i := FindGame(t, id); i.Some? ==> x !in Members(RemoveMember(t, id, r, x).0[i.value], r)
  {
    var i := FindGame(t, id);
    if i.Some? && x in Members(t[i.value], r) {
      RemovedDistinct(Members(t[i.value], r), x);
    }
  }

  predicate IsGM(g: Game, user: string) { user in g.gmList }

  predicate IsPlayer(g: Game, user: string) { user in g.playerList }

  predicate IsParticipant(g: Game, user: string) { IsGM(g, user) || IsPlayer(g, user) }

  /** A user made GM or player takes part in the game; an observer who is
      neither does not. */
  lemma JoiningMakesParticipant(t: Table, id: int, r: Roster, user: string)
    requires r == GMs || r == Players
    requires AddMember(t, id, r, user).1
    ensures IsParticipant(AddMember(t, id, r, user).0[FindGame(t, id).value], user)
  {
    AddMemberSpec(t, id, r, user);
    var i := FindGame(t, id).value;
    assert Members(AddMember(t, id, r, user).0[i], r)[|Members(t[i], r)|] == user;
  }

  lemma ObservingIsNotParticipating(t: Table, id: int, user: string)
    requires AddMember(t, id, Observers, user).1
    requires !IsParticipant(t[FindGame(t, id).value], user)
    ensures !IsParticipant(AddMember(t, id, Observers, user).0[FindGame(t, id).value], user)
  {
    AddMemberSpec(t, id, Observers, user);
  }

  /** setConfig: `config[key] = value` on the configuration parsed from
      JSON, written back; nothing when the game is missing or the
      assignment stores no own property (`JsValues.StoresOwn`). */
  function SetConfig(t: Table, id: int, key: string, value: Value): Table
  {
    match FindGame(t, id)
    case None => t
    case Some(i) =>
      if StoresOwn(t[i].config, key) then t[i := t[i].(config := Put(t[i].config, key, value))] else t
  }

  /** getConfig: `config[key]` on the parsed configuration object, so
      `undefined` for a missing game or a missing key, except that a key
      naming a member every object inherits finds that member. */
  function GetConfig(t: Table, id: int, key: string): (r: Option<Lookup<Value>>)
    ensures FindGame(t, id).None? ==> r.None?
    ensures FindGame(t, id).Some? && key in Keys(t[FindGame(t, id).value].config) ==>
      r == Some(Own(Get(t[FindGame(t, id).value].config, key).value))
    ensures FindGame(t, id).Some? && key !in Keys(t[FindGame(t, id).value].config) ==>
      (r.Some? <==> key in ObjectPrototypeMembers) && (r.Some? ==> r.value == Inherited(key))
  {
    match FindGame(t, id)
    case None => None
    case Some(i) => ReadProperty(t[i].config, key)
  }

  /** Replacing a row by one with the same id keeps where ids are found. */
  lemma FindGameAfterUpdate(t: Table, i: nat, g: Game, id: int)
    requires i < |t| && g.id == t[i].id
    ensures FindGame(t[i := g], id) == FindGame(t, id)
  {
    FindGameSameIds(t, t[i := g], id);
  }

  /** Where a row is found depends on the ids alone. */
  lemma {:induction false} FindGameSameIds(t: Table, u: Table, id: int)
    requires |t| == |u| && forall j :: 0 <= j < |t| ==> t[j].id == u[j].id
    ensures FindGame(u, id) == FindGame(t, id)
    decreases |t|
  {
    if t != [] {
      assert forall j :: 0 <= j < |t| - 1 ==> t[1..][j] == t[j + 1] && u[1..][j] == u[j + 1];
      FindGameSameIds(t[1..], u[1..], id);
    }
  }

  /** After setConfig, getConfig of a stored key gives the value set; an
      assignment to the inherited `__proto__` changes nothing, so that key
      still reads the prototype; every other key gives what it gave before. */
  lemma SetConfigThenGet(t: Table, id: int, key: string, value: Value, other: string)
    requires FindGame(t, id).Some?
    ensures StoresOwn(t[FindGame(t, id).value].config, key) ==>
      GetConfig(SetConfig(t, id, key, value), id, key) == Some(Own(value))
    ensures !StoresOwn(t[FindGame(t, id).value].config, key) ==>
      SetConfig(t, id, key, value) == t && GetConfig(t, id, key) == Some(Inherited("__proto__"))
    ensures other != key ==> GetConfig(SetConfig(t, id, key, value), id, other) == GetConfig(t, id, other)
  {
    var i := FindGame(t, id).value;
    if StoresOwn(t[i].config, key) {
      FindGameAfterUpdate(t, i, t[i].(config := Put(t[i].config, key, value)), id);
    } else {
      assert key in ObjectPrototypeMembers;
    }
  }

  /** setRoulette: the data stored under `String(face)`. */
  function SetRoulette(t: Table, id: int, face: int, data: Value): Table
  {
    match FindGame(t, id)
    case None => t
    case Some(i) => t[i := t[i].(roulette := Put(t[i].roulette, IntToString(face), data))]
  }

  function GetRoulette(t: Table, id: int, face: int): Option<Value>
  {
    match FindGame(t, id)
    case None => None
    case Some(i) => Get(t[i].roulette, IntToString(face))
  }

  /** clearRoulette: every row with the id gets an empty roulette; there
      is no check that one exists. */
  function ClearRoulette(t: Table, id: int): (r: Table)
    ensures |r| == |t|
    ensures forall j :: 0 <= j < |t| && t[j].id != id ==> r[j] == t[j]
    ensures forall j :: 0 <= j < |t| && t[j].id == id ==> r[j] == t[j].(roulette := [])
  {
    seq(|t|, j requires 0 <= j < |t| => if t[j].id == id then t[j].(roulette := []) else t[j])
  }

  lemma SetRouletteThenGet(t: Table, id: int, face: int, data: Value)
    requires FindGame(t, id).Some?
    ensures GetRoulette(SetRoulette(t, id, face, data), id, face) == Some(data)
  {
    var i := FindGame(t, id).value;
    FindGameAfterUpdate(t, i, t[i].(roulette := Put(t[i].roulette, IntToString(face), data)), id);
  }

  /** After clearRoulette, no face of the game has data. */
  lemma ClearRouletteEmpties(t: Table, id: int, face: int)
    ensures GetRoulette(ClearRoulette(t, id), id, face) == None
  {
    FindGameSameIds(t, ClearRoulette(t, id), id);
  }

  /** The five fields gameToContext writes before the configuration. */
  function ContextHeader(g: Game): Fields
  {
    [("name", Str(g.name)), ("gm", Strs(g.gmList)), ("pls", Strs(g.playerList)),
     ("obs", Strs(g.observerList)), ("areas", Strs(g.areas))]
  }

  function Strs(l: seq<string>): (v: Value)
    ensures v.Arr? && |v.items| == |l|
  {
    Arr(seq(|l|, i requires 0 <= i < |l| => Str(l[i])))
  }

  /** gameToContext: the five fields, then the configuration spread over
      them, then the roulette and the logging flag. */
  function GameToContext(g: Game): Fields
  {
    Put(Put(Spread(ContextHeader(g), g.config), "roulette", Obj(g.roulette)), "isLogging", Bool(g.isLogging))
  }

  /** The configuration may override name, gm, pls, obs and areas, but the
      roulette and the logging flag always come from the row. */
  lemma GameToContextFields(g: Game, k: string)
    requires DistinctKeys(g.config)
    ensures Get(GameToContext(g), "roulette") == Some(Obj(g.roulette))
    ensures Get(GameToContext(g), "isLogging") == Some(Bool(g.isLogging))
    ensures k != "roulette" && k != "isLogging" && k in Keys(g.config) ==>
      Get(GameToContext(g), k) == Get(g.config, k)
    ensures k != "roulette" && k != "isLogging" && k !in Keys(g.config) ==>
      Get(GameToContext(g), k) == Get(ContextHeader(g), k)
  {
    assert "isLogging" != "roulette" by { assert "isLogging"[0] != "roulette"[0]; }
    SpreadGet(ContextHeader(g), g.config, k);
  }

  /** Without a configured override, `gm` lists the GMs. */
  lemma ContextListsGMs(g: Game)
    requires "gm" !in Keys(g.config) && DistinctKeys(g.config)
    ensures Get(GameToContext(g), "gm") == Some(Strs(g.gmList))
  {
    GameToContextFields(g, "gm");
    assert "gm" != "roulette" && "gm" != "isLogging";
    var h := ContextHeader(g);
    assert h[0].0 == "name" && "name" != "gm";
    assert h[1..][0] == ("gm", Strs(g.gmList));
    assert Get(h, "gm") == Get(h[1..], "gm");
  }

  /** The first row of the platform whose areas hold the window. */
  function SessionOf(t: Table, platform: string, window: string): (r: Option<nat>)
    ensures r.Some? ==> r.value < |t| && t[r.value].platform == platform && window in t[r.value].areas
    ensures r.Some? ==> forall j :: 0 <= j < r.value ==> !(t[j].platform == platform && window in t[j].areas)
    ensures r.None? ==> forall j :: 0 <= j < |t| ==> !(t[j].platform == platform && window in t[j].areas)
    decreases |t|
  {
    if t == [] then None
    else if t[0].platform == platform && window in t[0].areas then Some(0)
    else match SessionOf(t[1..], platform, window)
      case None => None
      case Some(k) => Some(k + 1)
  }

  /** The first row with the name on the platform. */
  function SessionByName(t: Table, name: string, platform: string): (r: Option<nat>)
    ensures r.Some? ==> r.value < |t| && t[r.value].name == name && t[r.value].platform == platform
    ensures r.Some? ==> forall j :: 0 <= j < r.value ==> !(t[j].name == name && t[j].platform == platform)
    ensures r.None? <==> forall j :: 0 <= j < |t| ==> !(t[j].name == name && t[j].platform == platform)
    decreases |t|
  {
    if t == [] then None
    else if t[0].name == name && t[0].platform == platform then Some(0)
    else match SessionByName(t[1..], name, platform)
      case None => None
      case Some(k) => Some(k + 1)
  }

  /** The state createSession reads and writes: the counter, the table and
      the next id the database assigns. */
  datatype ServiceState = ServiceState(counter: nat, table: Table, nextId: int)

  function GeneratedName(counter: nat): string
  {
    "新游戏#" + NatToString(counter)
  }

  /** createSession: an unnamed game takes the next counter value (the
      counter moves even when creation then fails); a name already used on
      the platform is an error; otherwise a new row with empty rosters and
      the window as its one area. */
  function CreateSession(s: ServiceState, session: Session, name: Option<string>): (ServiceState, Result<Game, string>)
  {
    var counter := if Truthy(name) then s.counter else s.counter + 1;
    var n := if Truthy(name) then name.value else GeneratedName(counter);
    if SessionByName(s.table, n, session.platform).Some? then
      (s.(counter := counter), Err("游戏 \"" + n + "\" 已存在"))
    else
      var g := Game(s.nextId, n, WindowOf(session), session.platform, [], [], [], [WindowOf(session)], [], [], false);
      (ServiceState(counter, s.table + [g], s.nextId + 1), Ok(g))
  }

  /** Ids are unique and below the next id. */
  predicate IdsFresh(s: ServiceState)
  {
    UniqueIds(s.table) && forall i :: 0 <= i < |s.table| ==> s.table[i].id < s.nextId
  }

  /** A created game is found again by its id and by the window it was
      created in, its name is unique on the platform, and ids stay fresh. */
  lemma CreateSessionSpec(s: ServiceState, session: Session, name: Option<string>)
    requires IdsFresh(s)
    ensures var (s', r) := CreateSession(s, session, name);
      IdsFresh(s')
      && (r.Ok? ==> FindGame(s'.table, r.value.id) == Some(|s.table|)
                    && r.value.areas == [WindowOf(session)]
                    && r.value.gmList == [] && r.value.playerList == [] && r.value.observerList == []
                    && SessionByName(s.table, r.value.name, session.platform).None?)
      && (r.Err? ==> s'.table == s.table)
      && (Truthy(name) ==> s'.counter == s.counter && (r.Ok? ==> r.value.name == name.value))
      && (!Truthy(name) ==> s'.counter == s.counter + 1)
  {
    var (s', r) := CreateSession(s, session, name);
    if r.Ok? {
      assert s'.table[|s.table|].id == r.value.id;
    }
  }

  /** The created game is the session of its window on its platform,
      unless an earlier game already covers that window. */
  lemma CreatedSessionIsFound(s: ServiceState, session: Session, name: Option<string>)
    requires CreateSession(s, session, name).1.Ok?
    requires SessionOf(s.table, session.platform, WindowOf(session)).None?
    ensures SessionOf(CreateSession(s, session, name).0.table, session.platform, WindowOf(session)) == Some(|s.table|)
  {
    var t' := CreateSession(s, session, name).0.table;
    assert t'[|s.table|].areas[0] == WindowOf(session);
  }

  /** destroySession: every row with the id removed. */
  function Destroy(t: Table, id: int): (r: Table)
    ensures forall g :: g in r <==> g in t && g.id != id
  {
    if t == [] then []
    else (if t[0].id == id then [] else [t[0]]) + Destroy(t[1..], id)
  }

  /** The service object.  Only the counter is a field of the TypeScript
      class; the table and the id sequence belong to the database. */
  class Service {
    var sessionCounter: nat
    var table: Table
    var nextId: int

    function State(): ServiceState
      reads this
    {
      ServiceState(sessionCounter, table, nextId)
    }

    ghost predicate Valid()
      reads this
    {
      IdsFresh(State())
    }

    constructor()
      ensures Valid() && State() == ServiceState(0, [], 1)
    {
      sessionCounter := 0;
      table := [];
      nextId := 1;
    }

    /** `database.get({ id })`. */
    method FindRow(id: int) returns (r: Option<nat>)
      ensures r == FindGame(table, id)
    {
      var i := 0;
      while i < |table|
        invariant 0 <= i <= |table|
        invariant forall j :: 0 <= j < i ==> table[j].id != id
      {
        if table[i].id == id {
          return Some(i);
        }
        i := i + 1;
      }
      return None;
    }

    /** getSession: the loop over the platform's rows, returning the first
        whose areas hold the window. */
    method GetSession(session: Session) returns (r: Option<Game>)
      ensures r.None? <==> SessionOf(table, session.platform, WindowOf(session)).None?
      ensures r.Some? ==> r.value == table[SessionOf(table, session.platform, WindowOf(session)).value]
    {
      var window := WindowOf(session);
      var i := 0;
      while i < |table|
        invariant 0 <= i <= |table|
        invariant forall j :: 0 <= j < i ==> !(table[j].platform == session.platform && window in table[j].areas)
      {
        if table[i].platform == session.platform && window in table[i].areas {
          return Some(table[i]);
        }
        i := i + 1;
      }
      return None;
    }

    method CreateSessionIn(session: Session, name: Option<string>) returns (r: Result<Game, string>)
      requires Valid()
      modifies this
      ensures Valid()
      ensures (State(), r) == CreateSession(old(State()), session, name)
    {
      CreateSessionSpec(State(), session, name);
      var n: string;
      if name.None? || name.value == [] {
        sessionCounter := sessionCounter + 1;
        n := GeneratedName(sessionCounter);
      } else {
        n := name.value;
      }
      var window := WindowOf(session);
      if SessionByName(table, n, session.platform).Some? {
        return Err("游戏 \"" + n + "\" 已存在");
      }
      var g := Game(nextId, n, window, session.platform, [], [], [], [window], [], [], false);
      table := table + [g];
      nextId := nextId + 1;
      return Ok(g);
    }

    method DestroySession(id: int)
      requires Valid()
      modifies this
      ensures Valid()
      ensures table == Destroy(old(table), id)
      ensures sessionCounter == old(sessionCounter) && nextId == old(nextId)
    {
      DestroyKeepsFresh(State(), id);
      table := Destroy(table, id);
    }

    /** The shared body of the add operations: read the row, check the
        roster, append, write the roster back. */
    method Add(id: int, r: Roster, x: string) returns (ok: bool)
      requires Valid()
      modifies this
      ensures Valid()
      ensures (table, ok) == AddMember(old(table), id, r, x)
      ensures sessionCounter == old(sessionCounter) && nextId == old(nextId)
    {
      var i := FindRow(id);
      if i.None? {
        return false;
      }
      var game := table[i.value];
      var list := Members(game, r);
      if x in list {
        return false;
      }
      list := list + [x];
      table := table[i.value := WithMembers(game, r, list)];
      return true;
    }

    /** The shared body of the remove operations. */
    method Remove(id: int, r: Roster, x: string) returns (ok: bool)
      requires Valid()
      modifies this
      ensures Valid()
      ensures (table, ok) == RemoveMember(old(table), id, r, x)
      ensures sessionCounter == old(sessionCounter) && nextId == old(nextId)
    {
      var i := FindRow(id);
      if i.None? {
        return false;
      }
      var game := table[i.value];
      var list := Members(game, r);
      var index := IndexOf(list, x);
      if index.None? {
        return false;
      }
      list := list[..index.value] + list[index.value + 1..];
      table := table[i.value := WithMembers(game, r, list)];
      return true;
    }

    method AddGM(id: int, user: string) returns (ok: bool)
      requires Valid()
      modifies this
      ensures Valid() && (table, ok) == AddMember(old(table), id, GMs, user)
      ensures sessionCounter == old(sessionCounter) && nextId == old(nextId)
    {
      ok := Add(id, GMs, user);
    }

    method RemoveGM(id: int, user: string) returns (ok: bool)
      requires Valid()
      modifies this
      ensures Valid() && (table, ok) == RemoveMember(old(table), id, GMs, user)
      ensures sessionCounter == old(sessionCounter) && nextId == old(nextId)
    {
      ok := Remove(id, GMs, user);
    }

    method AddPlayer(id: int, user: string) returns (ok: bool)
      requires Valid()
      modifies this
      ensures Valid() && (table, ok) == AddMember(old(table), id, Players, user)
      ensures sessionCounter == old(sessionCounter) && nextId == old(nextId)
    {
      ok := Add(id, Players, user);
    }

    method RemovePlayer(id: int, user: string) returns (ok: bool)
      requires Valid()
      modifies this
      ensures Valid() && (table, ok) == RemoveMember(old(table), id, Players, user)
      ensures sessionCounter == old(sessionCounter) && nextId == old(nextId)
    {
      ok := Remove(id, Players, user);
    }

    method AddObserver(id: int, user: string) returns (ok: bool)
      requires Valid()
      modifies this
      ensures Valid() && (table, ok) == AddMember(old(table), id, Observers, user)
      ensures sessionCounter == old(sessionCounter) && nextId == old(nextId)
    {
      ok := Add(id, Observers, user);
    }

    method RemoveObserver(id: int, user: string) returns (ok: bool)
      requires Valid()
      modifies this
      ensures Valid() && (table, ok) == RemoveMember(old(table), id, Observers, user)
      ensures sessionCounter == old(sessionCounter) && nextId == old(nextId)
    {
      ok := Remove(id, Observers, user);
    }

    method AddArea(id: int, guild: string) returns (ok: bool)
      requires Valid()
      modifies this
      ensures Valid() && (table, ok) == AddMember(old(table), id, Areas, guild)
      ensures sessionCounter == old(sessionCounter) && nextId == old(nextId)
    {
      ok := Add(id, Areas, guild);
    }

    method RemoveArea(id: int, guild: string) returns (ok: bool)
      requires Valid()
      modifies this
      ensures Valid() && (table, ok) == RemoveMember(old(table), id, Areas, guild)
      ensures sessionCounter == old(sessionCounter) && nextId == old(nextId)
    {
      ok := Remove(id, Areas, guild);
    }

    method SetConfigIn(id: int, key: string, value: Value)
      requires Valid()
      modifies this
      ensures Valid() && table == SetConfig(old(table), id, key, value)
      ensures sessionCounter == old(sessionCounter) && nextId == old(nextId)
    {
      var i := FindRow(id);
      if i.None? {
        return;
      }
      var game := table[i.value];
      if !StoresOwn(game.config, key) {
        return;
      }
      var row := game.(config := Put(game.config, key, value));
      SameIdKeepsFresh(State(), i.value, row);
      table := table[i.value := row];
    }

    method SetRouletteIn(id: int, face: int, data: Value)
      requires Valid()
      modifies this
      ensures Valid() && table == SetRoulette(old(table), id, face, data)
      ensures sessionCounter == old(sessionCounter) && nextId == old(nextId)
    {
      var i := FindRow(id);
      if i.None? {
        return;
      }
      var game := table[i.value];
      var row := game.(roulette := Put(game.roulette, IntToString(face), data));
      SameIdKeepsFresh(State(), i.value, row);
      table := table[i.value := row];
    }

    method ClearRouletteIn(id: int)
      requires Valid()
      modifies this
      ensures Valid() && table == ClearRoulette(old(table), id)
      ensures sessionCounter == old(sessionCounter) && nextId == old(nextId)
    {
      table := ClearRoulette(table, id);
    }
  }

  /** Replacing a row by one with the same id keeps the ids fresh. */
  lemma SameIdKeepsFresh(s: ServiceState, i: nat, row: Game)
    requires IdsFresh(s) && i < |s.table| && row.id == s.table[i].id
    ensures IdsFresh(s.(table := s.table[i := row]))
  {
    var t := s.table[i := row];
    assert forall k :: 0 <= k < |t| ==> t[k].id == s.table[k].id;
  }

  lemma DestroyKeepsFresh(s: ServiceState, id: int)
    requires IdsFresh(s)
    ensures IdsFresh(s.(table := Destroy(s.table, id)))
  {
    DestroyUnique(s.table, id);
  }

  predicate UniqueIds(t: Table)
  {
    forall i, j :: 0 <= i < j < |t| ==> t[i].id != t[j].id
  }

  /** Removing rows keeps the remaining ids unique. */
  lemma {:induction false} DestroyUnique(t: Table, id: int)
    requires UniqueIds(t)
    ensures UniqueIds(Destroy(t, id))
    decreases |t|
  {
    if t != [] {
      var tail := t[1..];
      assert UniqueIds(tail) by {
        forall i, j | 0 <= i < j < |tail| ensures tail[i].id != tail[j].id {
          assert tail[i] == t[i + 1] && tail[j] == t[j + 1];
        }
      }
      DestroyUnique(tail, id);
      var rest := Destroy(tail, id);
      if t[0].id != id {
        forall k | 0 <= k < |rest| ensures rest[k].id != t[0].id {
          assert rest[k] in tail;
          var m :| 0 <= m < |tail| && tail[m] == rest[k];
          assert t[m + 1] == rest[k];
        }
        assert Destroy(t, id) == [t[0]] + rest;
      } else {
        assert Destroy(t, id) == rest;
      }
    }
  }
}
