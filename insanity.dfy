/** wasm/src/features/insanity.cpp: the CoC sanity check and the guarded
    look-ups into the madness tables.  The tables themselves and the dice
    engine are external: the tables are given as functions from index to
    text, and every roll as its outcome. */
module Insanity {
  import opened Wrappers
  import opened Text
  import CInt
  import CoreUtils

  /** `calculateSuccessLevel(roll, skill)`, written out as in insanity.cpp. */
  function CalculateSuccessLevel(roll: int, skill: int): (level: int)
    ensures 0 <= level <= 5
  {
    if roll <= 5 && roll <= skill then 5
    else if roll == 100 || (roll > 95 && roll > skill) then 0
    else if roll > skill then 1
    else
      var hard := CInt.Div(skill, 2);
      var extreme := CInt.Div(skill, 5);
      if roll <= extreme then 4 else if roll <= hard then 3 else 2
  }

  /** The sanity classifier and the `roll/skill` classifier of utils.cpp agree
      on every input. */
  lemma SameAsSlashClassifier(roll: int, skill: int)
    ensures CalculateSuccessLevel(roll, skill) == CoreUtils.ClassifySlash(roll, skill)
  {
  }

  /** A table look-up that answers `sentinel` outside `lo..hi`. */
  function Guarded(index: int, lo: int, hi: int, sentinel: string, table: int -> string): (r: string)
    ensures lo <= index <= hi ==> r == table(index)
    ensures !(lo <= index <= hi) ==> r == sentinel
  {
    if index < lo || index > hi then sentinel else table(index)
  }

  /** `getTempInsanity`: entries 1..10. */
  function TempInsanity(index: int, table: int -> string): (r: string)
    ensures 1 <= index <= 10 ==> r == table(index)
    ensures !(1 <= index <= 10) ==> r == "索引超出范围"
  {
    Guarded(index, 1, 10, "索引超出范围", table)
  }

  /** `getLongInsanity`: entries 1..10. */
  function LongInsanity(index: int, table: int -> string): (r: string)
    ensures 1 <= index <= 10 ==> r == table(index)
    ensures !(1 <= index <= 10) ==> r == "索引超出范围"
  {
    Guarded(index, 1, 10, "索引超出范围", table)
  }

  /** `getPhobia`: entries 1..93. */
  function Phobia(index: int, table: int -> string): (r: string)
    ensures 1 <= index <= 93 ==> r == table(index)
    ensures !(1 <= index <= 93) ==> r == "未知恐惧症"
  {
    Guarded(index, 1, 93, "未知恐惧症", table)
  }

  /** `getMania`: entries 1..96. */
  function Mania(index: int, table: int -> string): (r: string)
    ensures 1 <= index <= 96 ==> r == table(index)
    ensures !(1 <= index <= 96) ==> r == "未知躁狂症"
  {
    Guarded(index, 1, 96, "未知躁狂症", table)
  }

  /** A loss roll as the dice engine reports it: its total and its short form. */
  datatype LossRoll = LossRoll(total: int, detail: string)

  datatype ErrorCode = NoError | Invalid | Dice(err: CoreUtils.DiceError)

  datatype SanityResult = SanityResult(
    rollValue: int, successLevel: int, sanLoss: int, lossDetail: string,
    newSan: int, errorCode: ErrorCode, errorMsg: string)

  /** `sanityCheck(currentSan, successLoss, failureLoss)`.  `d100` is the
      outcome of rolling `1d100`, `failureMax` the maximum the engine computes
      for `failureLoss`, and `rollLoss(e)` the outcome of rolling `e`. */
  function SanityCheck(currentSan: int, successLoss: string, failureLoss: string,
                       d100: Result<int, CoreUtils.DiceError>, failureMax: int,
                       rollLoss: string -> Result<LossRoll, CoreUtils.DiceError>): (r: SanityResult)
    ensures currentSan <= 0 ==> r.errorCode == Invalid && r.newSan == currentSan
    ensures r.errorCode != NoError ==> r.newSan == currentSan && r.sanLoss == 0
    ensures r.errorCode == NoError ==>
      && d100.Ok? && r.rollValue == d100.value
      && r.successLevel == CalculateSuccessLevel(d100.value, currentSan)
      && r.newSan == (if currentSan - r.sanLoss < 0 then 0 else currentSan - r.sanLoss)
      && (r.successLevel == 0 ==> r.sanLoss == failureMax)
      && (r.successLevel == 1 ==> rollLoss(failureLoss) == Ok(LossRoll(r.sanLoss, r.lossDetail)))
      && (r.successLevel >= 2 ==> rollLoss(successLoss) == Ok(LossRoll(r.sanLoss, r.lossDetail)))
  {
    if currentSan <= 0 then
      SanityResult(0, 0, 0, "", currentSan, Invalid, "SAN值无效，必须大于0")
    else
      match d100
      case Err(e) => SanityResult(0, 0, 0, "", currentSan, Dice(e), CoreUtils.ErrorMessage(e))
      case Ok(roll) =>
        var level := CalculateSuccessLevel(roll, currentSan);
        if level == 0 then
          var loss := failureMax;
          SanityResult(roll, level, loss, "Max{" + failureLoss + "}=" + IntToString(loss),
                       Clamp(currentSan - loss), NoError, "")
        else
          var expr := if level == 1 then failureLoss else successLoss;
          match rollLoss(expr)
          case Err(e) =>
            SanityResult(roll, level, 0, "", currentSan, Dice(e), "损失表达式错误: " + CoreUtils.ErrorMessage(e))
          case Ok(lr) =>
            SanityResult(roll, level, lr.total, lr.detail, Clamp(currentSan - lr.total), NoError, "")
  }

  /** `std::max(0, x)` */
  function Clamp(x: int): (r: int)
    ensures r >= 0 && r >= x && (r == 0 || r == x)
  {
    if x < 0 then 0 else x
  }

  /** A non-negative loss never raises sanity and never drives it below 0. */
  lemma SanityNeverRises(currentSan: int, successLoss: string, failureLoss: string,
                         d100: Result<int, CoreUtils.DiceError>, failureMax: int,
                         rollLoss: string -> Result<LossRoll, CoreUtils.DiceError>)
    requires currentSan > 0
    requires failureMax >= 0
    requires forall e :: rollLoss(e).Ok? ==> rollLoss(e).value.total >= 0
    ensures var r := SanityCheck(currentSan, successLoss, failureLoss, d100, failureMax, rollLoss);
      0 <= r.newSan <= currentSan
  {
    var r := SanityCheck(currentSan, successLoss, failureLoss, d100, failureMax, rollLoss);
    if r.errorCode == NoError {
      assert r.sanLoss >= 0;
    }
  }
}
