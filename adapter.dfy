/** The TypeScript adapter in front of the dice engine: it holds the loaded
    engine module, refuses every call until the engine is loaded, and turns
    engine results into message text.  Loading the WebAssembly engine is an
    input: `Initialize` receives the engine the loader would produce. */
module Adapter {
  import opened Wrappers
  import opened Text
  import CheckHandler

  datatype RollResult = RollResult(total: int, expression: string, detail: string, errorCode: int, errorMsg: string)

  datatype CocCheckResult = CocCheckResult(
    rollValue: int, skillValue: int, successLevel: int, description: string, errorCode: int, errorMsg: string)

  datatype DeckDrawResult = DeckDrawResult(cards: seq<string>, errorCode: int, errorMsg: string)

  /** The loaded engine, seen through the operations the adapter forwards
      with checks of its own. */
  datatype DiceModule = DiceModule(
    rollDice: (string, int) -> RollResult,
    cocCheck: (int, int) -> CocCheckResult,
    hiddenRoll: (string, int) -> bool,
    drawCard: (string, int) -> DeckDrawResult)

  const NotInitialized: string := "Dice WASM module not initialized. Call initialize() first."

  /** The engine after `initialize`: an engine already held is kept. */
  function Initialized(current: Option<DiceModule>, loaded: DiceModule): (m: Option<DiceModule>)
    ensures m.Some?
    ensures current.Some? ==> m == current
    ensures current.None? ==> m == Some(loaded)
  {
    if current.Some? then current else Some(loaded)
  }

  /** A second `initialize` changes nothing, whatever it would have loaded. */
  lemma InitializeIdempotent(current: Option<DiceModule>, first: DiceModule, second: DiceModule)
    ensures Initialized(Initialized(current, first), second) == Initialized(current, first)
  {
  }

  class DiceAdapter {
    var engine: Option<DiceModule>

    constructor ()
      ensures engine == None
    {
      engine := None;
    }

    method Initialize(loaded: DiceModule)
      modifies this
      ensures engine == Initialized(old(engine), loaded)
    {
      if engine.Some? {
        return;
      }
      engine := Some(loaded);
    }

    /** `ensureModule`: the held engine, or the error every operation throws
        before initialisation. */
    function EnsureModule(): (r: Result<DiceModule, string>)
      reads this
      ensures r.Err? <==> engine.None?
      ensures r.Err? ==> r.error == NotInitialized
      ensures r.Ok? ==> engine == Some(r.value)
    {
      if engine.None? then Err(NotInitialized) else Ok(engine.value)
    }

    /** Any forwarded operation: its result on the held engine, or the error. */
    function Call<T>(op: DiceModule -> T): (r: Result<T, string>)
      reads this
      ensures engine.None? <==> r == Err(NotInitialized)
      ensures engine.Some? ==> r == Ok(op(engine.value))
    {
      match EnsureModule()
      case Err(e) => Err(e)
      case Ok(m) => Ok(op(m))
    }

    function Roll(expression: string, defaultDice: int): (r: Result<RollResult, string>)
      reads this
      ensures engine.None? <==> r.Err?
      ensures r.Err? ==> r.error == NotInitialized
      ensures r.Ok? ==> r.value == engine.value.rollDice(expression, defaultDice)
    {
      Call((m: DiceModule) => m.rollDice(expression, defaultDice))
    }

    function CocCheck(skillValue: int, bonusDice: int): (r: Result<CocCheckResult, string>)
      reads this
      ensures engine.None? <==> r.Err?
      ensures r.Err? ==> r.error == NotInitialized
      ensures r.Ok? ==> r.value == engine.value.cocCheck(skillValue, bonusDice)
    {
      Call((m: DiceModule) => m.cocCheck(skillValue, bonusDice))
    }

    /** `hiddenRoll` reports only whether the engine succeeded. */
    function HiddenRoll(expression: string, defaultDice: int): (r: Result<bool, string>)
      reads this
      ensures engine.None? <==> r.Err?
      ensures r.Err? ==> r.error == NotInitialized
      ensures r.Ok? ==> r.value == engine.value.hiddenRoll(expression, defaultDice)
    {
      Call((m: DiceModule) => m.hiddenRoll(expression, defaultDice))
    }

    /** `drawCard` also throws when the engine reports an error, with the
        engine's message or a fixed one when that is empty. */
    function DrawCard(deckName: string, count: int): (r: Result<seq<string>, string>)
      reads this
      ensures engine.None? ==> r == Err(NotInitialized)
      ensures engine.Some? && engine.value.drawCard(deckName, count).errorCode == 0 ==>
        r == Ok(engine.value.drawCard(deckName, count).cards)
      ensures engine.Some? && engine.value.drawCard(deckName, count).errorCode != 0 ==>
        r.Err? && r.error != [] &&
        (engine.value.drawCard(deckName, count).errorMsg != [] ==> r.error == engine.value.drawCard(deckName, count).errorMsg)
    {
      match EnsureModule()
      case Err(e) => Err(e)
      case Ok(m) =>
        var d := m.drawCard(deckName, count);
        if d.errorCode != 0 then Err(if d.errorMsg != [] then d.errorMsg else "Failed to draw card")
        else Ok(d.cards)
    }
  }

  /** `formatSuccessLevel`: a label per level 0..5, otherwise `未知`. */
  function FormatSuccessLevel(level: int): (name: string)
    ensures name != []
  {
    match level
    case 0 => "大失败"
    case 1 => "失败"
    case 2 => "成功"
    case 3 => "困难成功"
    case 4 => "极难成功"
    case 5 => "大成功"
    case _ => "未知"
  }

  /** Exactly the six levels have labels, and no two share one. */
  lemma SuccessLevelLabels(a: int, b: int)
    ensures FormatSuccessLevel(a) != "未知" <==> 0 <= a <= 5
    ensures 0 <= a <= 5 && 0 <= b <= 5 && a != b ==> FormatSuccessLevel(a) != FormatSuccessLevel(b)
  {
  }

  /** Every level the COC check assigns has a label. */
  lemma CocLevelsLabelled(roll: int, skill: int)
    ensures FormatSuccessLevel(CheckHandler.CocClassify(roll, skill)) != "未知"
  {
    SuccessLevelLabels(CheckHandler.CocClassify(roll, skill), 0);
  }

  /** `formatRollResult`: the error, or the reason (when non-empty) and the
      engine's detail separated by a space. */
  function FormatRollResult(result: RollResult, reason: string): (text: string)
    ensures result.errorCode != 0 ==> text == "掷骰失败: " + result.errorMsg
    ensures result.errorCode == 0 ==> EndsWith(text, result.detail)
    ensures result.errorCode == 0 && reason != [] ==> StartsWith(text, reason + " ")
    ensures result.errorCode == 0 && reason == [] ==> text == result.detail
  {
    if result.errorCode != 0 then "掷骰失败: " + result.errorMsg
    else Join((if reason != [] then [reason] else []) + [result.detail], " ")
  }

  /** `formatCOCCheckResult`: the error, or the optional `<skill>检定`, then
      `roll/skill`, then the level's label, separated by spaces. */
  function FormatCocCheckResult(result: CocCheckResult, skillName: string): (text: string)
    ensures result.errorCode != 0 ==> text == "检定失败: " + result.errorMsg
    ensures result.errorCode == 0 ==> EndsWith(text, " " + FormatSuccessLevel(result.successLevel))
    ensures result.errorCode == 0 && skillName != [] ==> StartsWith(text, skillName + "检定 ")
    ensures result.errorCode == 0 && skillName == [] ==>
      StartsWith(text, IntToString(result.rollValue) + "/" + IntToString(result.skillValue) + " ")
  {
    if result.errorCode != 0 then "检定失败: " + result.errorMsg
    else
      var score := IntToString(result.rollValue) + "/" + IntToString(result.skillValue);
      var levelName := FormatSuccessLevel(result.successLevel);
      var tail := score + " " + levelName;
      if skillName != [] then skillName + "检定 " + tail else tail
  }
}
