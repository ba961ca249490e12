/** wasm/src/core/check_handler.cpp: skill checks over several rounds, the
    CoC `cocCheck` classification and a single round with auto-success.  Dice
    outcomes and the engine's own `RollSuccessLevel` rule are inputs. */
module CheckHandler {
  import opened Wrappers
  import opened Text
  import CInt
  import CoreUtils

  /** The `Difficulty` enum: the skill is divided by its value. */
  datatype Difficulty = Normal | Hard | Extreme {
    function Divisor(): (d: int)
      ensures d in {1, 2, 5}
    {
      match this
      case Normal => 1
      case Hard => 2
      case Extreme => 5
    }
  }

  /** The dice expression used for a check with `bonus` bonus (positive) or
      penalty (negative) dice. */
  function DiceExpression(bonus: int): (e: string)
    ensures bonus > 0 ==> e == IntToString(bonus) + "B"
    ensures bonus < 0 ==> e == IntToString(-bonus) + "P"
    ensures bonus == 0 ==> e == "1D100"
  {
    if bonus > 0 then IntToString(bonus) + "B"
    else if bonus < 0 then IntToString(-bonus) + "P"
    else "1D100"
  }

  /** Distinct bonus or penalty counts ask the engine for distinct rolls. */
  lemma DiceExpressionInjective(a: int, b: int)
    ensures DiceExpression(a) == DiceExpression(b) ==> a == b
  {
    var ea, eb := DiceExpression(a), DiceExpression(b);
    if ea == eb && (a == 0 || b == 0) {
      assert ea[|ea| - 1] == eb[|eb| - 1];
    } else if ea == eb {
      assert ea[|ea| - 1] == eb[|eb| - 1];
      assert (a > 0) == (b > 0);
      var na: nat := if a > 0 then a else -a;
      var nb: nat := if b > 0 then b else -b;
      assert ea[..|ea| - 1] == NatToString(na);
      assert eb[..|eb| - 1] == NatToString(nb);
      NatToStringValue(na);
      NatToStringValue(nb);
    }
  }

  datatype RoundResult = RoundResult(rollValue: int, skillValue: int, successLevel: int, description: string)

  /** `checkOnce`: `roll` is the outcome of rolling `DiceExpression(bonus)` and
      `ruleLevel(roll, skill, rule)` the engine's `RollSuccessLevel`. */
  function CheckOnce(skill: int, bonus: int, autoSuccess: bool, rule: int,
                     roll: Result<int, CoreUtils.DiceError>,
                     ruleLevel: (int, int, int) -> int): (r: RoundResult)
    ensures r.skillValue == skill
    ensures roll.Err? ==> r == RoundResult(0, skill, 1, "掷骰失败: " + CoreUtils.ErrorMessage(roll.error))
    ensures roll.Ok? ==> (r.rollValue == roll.value
      && r.description == CoreUtils.SuccessLevelDesc(r.successLevel, autoSuccess))
    ensures roll.Ok? && autoSuccess && roll.value <= skill ==> r.successLevel == 2
    ensures roll.Ok? && !(autoSuccess && roll.value <= skill) ==>
      r.successLevel == ruleLevel(roll.value, skill, rule)
  {
    match roll
    case Err(e) => RoundResult(0, skill, 1, "掷骰失败: " + CoreUtils.ErrorMessage(e))
    case Ok(v) =>
      var level := if autoSuccess && v <= skill then 2 else ruleLevel(v, skill, rule);
      RoundResult(v, skill, level, CoreUtils.SuccessLevelDesc(level, autoSuccess))
  }

  datatype CheckResult =
    | CheckRejected(errorMsg: string)
    | CheckDone(skillName: string, originalSkillValue: int, finalSkillValue: int,
                difficulty: int, rounds: int, results: seq<RoundResult>)

  /** `CheckHandler::check`.  `rollAt(i)` is the outcome of round `i`'s roll. */
  method Check(skillName: string, skill: int, rounds: int, bonus: int, difficulty: Difficulty,
               autoSuccess: bool, rule: int, rollAt: nat -> Result<int, CoreUtils.DiceError>,
               ruleLevel: (int, int, int) -> int) returns (r: CheckResult)
    ensures (skill < 0 || skill > 1000) <==> r.CheckRejected?
    ensures r.CheckRejected? ==> r.errorMsg == "技能值必须在0-1000之间"
    ensures r.CheckDone? ==>
      && r.skillName == skillName && r.originalSkillValue == skill
      && r.finalSkillValue == skill / difficulty.Divisor()
      && r.difficulty == difficulty.Divisor() && r.rounds == rounds
      && |r.results| == (if rounds < 0 then 0 else rounds)
      && forall i :: 0 <= i < |r.results| ==>
           r.results[i] == CheckOnce(r.finalSkillValue, bonus, autoSuccess, rule, rollAt(i), ruleLevel)
  {
    if skill < 0 || skill > 1000 {
      return CheckRejected("技能值必须在0-1000之间");
    }
    var finalSkill := CInt.Div(skill, difficulty.Divisor());
    var results: seq<RoundResult> := [];
    var i := 0;
    while i < rounds
      invariant 0 <= i
      invariant if rounds < 0 then i == 0 else i <= rounds
      invariant |results| == i
      invariant forall k :: 0 <= k < i ==>
        results[k] == CheckOnce(finalSkill, bonus, autoSuccess, rule, rollAt(k), ruleLevel)
    {
      results := results + [CheckOnce(finalSkill, bonus, autoSuccess, rule, rollAt(i), ruleLevel)];
      i := i + 1;
    }
    r := CheckDone(skillName, skill, finalSkill, difficulty.Divisor(), rounds, results);
  }

  /** The `cocCheck` classification: any roll up to 5 is critical, 96 and
      above fumble, then the fifth, half and full skill thresholds. */
  function CocClassify(roll: int, skill: int): (level: int)
    ensures 0 <= level <= 5
    ensures level == 5 <==> roll <= 5
    ensures level == 0 <==> roll >= 96
  {
    if roll <= 5 || (roll <= skill && roll <= 5) then 5
    else if roll >= 96 then 0
    else if roll <= CInt.Div(skill, 5) then 4
    else if roll <= CInt.Div(skill, 2) then 3
    else if roll <= skill then 2
    else 1
  }

  /** On rolls 6..95 with a skill in 0..100, `cocCheck` and the `roll/skill`
      classifier of utils.cpp give the same level. */
  lemma CocAgreesWithSlashInMiddle(roll: int, skill: int)
    requires 6 <= roll <= 95 && 0 <= skill <= 100
    ensures CocClassify(roll, skill) == CoreUtils.ClassifySlash(roll, skill)
  {
    assert skill / 5 <= skill / 2 <= skill;
  }

  /** Outside that band they differ: `cocCheck` calls a roll of 3 against
      skill 0 critical, and a roll of 97 against skill 100 a fumble. */
  lemma CocDiffersFromSlashAtEdges()
    ensures CocClassify(3, 0) == 5 && CoreUtils.ClassifySlash(3, 0) == 1
    ensures CocClassify(97, 100) == 0 && CoreUtils.ClassifySlash(97, 100) == 2
  {
  }

  datatype CocResult = CocResult(success: bool, rollValue: int, skillValue: int,
                                 successLevel: int, description: string, errorMsg: string)

  /** `cocCheck(skill, bonus)` given the outcome of rolling `DiceExpression(bonus)`. */
  function CocCheck(skill: int, bonus: int, roll: Result<int, CoreUtils.DiceError>): (r: CocResult)
    ensures r.skillValue == skill
    ensures (skill < 0 || skill > 100) ==> r == CocResult(false, 0, skill, 0, "技能值必须在0-100之间", "")
    ensures 0 <= skill <= 100 && roll.Err? ==>
      r == CocResult(false, 0, skill, 0, "掷骰失败", CoreUtils.ErrorMessage(roll.error))
    ensures r.success <==> 0 <= skill <= 100 && roll.Ok?
    ensures r.success ==> (r.rollValue == roll.value && r.successLevel == CocClassify(roll.value, skill)
      && r.description == CoreUtils.SuccessLevelDesc(r.successLevel, false))
  {
    if skill < 0 || skill > 100 then CocResult(false, 0, skill, 0, "技能值必须在0-100之间", "")
    else
      match roll
      case Err(e) => CocResult(false, 0, skill, 0, "掷骰失败", CoreUtils.ErrorMessage(e))
      case Ok(v) =>
        var level := CocClassify(v, skill);
        CocResult(true, v, skill, level, CocDescription(level), "")
  }

  /** The description `cocCheck` assigns alongside each level. */
  function CocDescription(level: int): (d: string)
    requires 0 <= level <= 5
    ensures d == CoreUtils.SuccessLevelDesc(level, false)
  {
    if level == 5 then "大成功" else if level == 0 then "大失败"
    else if level == 4 then "极难成功" else if level == 3 then "困难成功"
    else if level == 2 then "成功" else "失败"
  }
}
