/** wasm/src/core/utils.cpp: the unbiased random mapping, success-level labels
    and the `roll/skill` path of `skillCheck`.  `trim`, `startsWith` and
    `endsWith` are `Text.TrimC`, `Text.StartsWith` and `Text.EndsWith`. */
module CoreUtils {
  import opened Wrappers
  import opened Text
  import CInt

  const Two32: int := 0x1_0000_0000

  /** `getSecureRandomInt(min, max)` given the 32-bit value `r` that
      `crypto.getRandomValues` produced.  The bounds are swapped when
      `min > max`; `range = max - min + 1` is held in an `unsigned int`, so it
      wraps to 0 for the full `int` range; the result is the high 32 bits of
      the 64-bit product `r * range`. */
  function RandomInRange(min: int, max: int, r: int): (v: int)
    requires CInt.IsInt32(min) && CInt.IsInt32(max) && 0 <= r < Two32
    ensures (if min <= max then min else max) <= v <= (if min <= max then max else min)
  {
    var lo := if min > max then max else min;
    var hi := if min > max then min else max;
    if lo == hi then lo
    else
      var range := (hi - lo + 1) % Two32;
      HighBitsBelow(r, range);
      lo + (r * range) / Two32
  }

  lemma MulMono(a: int, b: int, c: int)
    requires 0 <= a <= b && c >= 0
    ensures a * c <= b * c
  {
    assert b * c - a * c == (b - a) * c;
  }

  /** The high word of `r * range` is below `range` (and 0 when `range` is 0). */
  lemma HighBitsBelow(r: int, range: int)
    requires 0 <= r < Two32 && 0 <= range <= Two32
    ensures 0 <= (r * range) / Two32 <= (if range == 0 then 0 else range - 1)
  {
    if range > 0 {
      MulMono(r, Two32 - 1, range);
      assert (Two32 - 1) * range == Two32 * range - range;
      assert r * range < Two32 * range;
      var x := r * range;
      assert x == Two32 * (x / Two32) + x % Two32;
    }
  }

  /** The smallest 32-bit value gives the lower bound and the largest gives the
      upper bound, except for the full `int` range, where the wrapped range
      of 0 pins every result to `min`. */
  lemma RandomEndpoints(min: int, max: int)
    requires CInt.IsInt32(min) && CInt.IsInt32(max) && min < max
    ensures RandomInRange(min, max, 0) == min
    ensures max - min + 1 < Two32 ==> RandomInRange(min, max, Two32 - 1) == max
    ensures max - min + 1 == Two32 ==> forall r :: 0 <= r < Two32 ==> RandomInRange(min, max, r) == min
  {
    var range := max - min + 1;
    if range < Two32 {
      TopWord(range);
    }
  }

  lemma TopWord(range: int)
    requires 0 < range <= Two32
    ensures ((Two32 - 1) * range) / Two32 == range - 1
  {
    var x := (Two32 - 1) * range;
    assert x == Two32 * (range - 1) + (Two32 - range);
  }

  /** `min > max` behaves as the swapped call. */
  lemma RandomSymmetric(min: int, max: int, r: int)
    requires CInt.IsInt32(min) && CInt.IsInt32(max) && 0 <= r < Two32
    ensures RandomInRange(min, max, r) == RandomInRange(max, min, r)
  {
  }

  /** The same mapping with the range held in 64 bits, which reaches `max`
      for every pair of bounds. */
  function RandomInRangeWide(min: int, max: int, r: int): (v: int)
    requires CInt.IsInt32(min) && CInt.IsInt32(max) && 0 <= r < Two32
    ensures (if min <= max then min else max) <= v <= (if min <= max then max else min)
  {
    var lo := if min > max then max else min;
    var hi := if min > max then min else max;
    if lo == hi then lo
    else
      HighBitsBelow(r, hi - lo + 1);
      lo + (r * (hi - lo + 1)) / Two32
  }

  lemma RandomInRangeWideEndpoints(min: int, max: int)
    requires CInt.IsInt32(min) && CInt.IsInt32(max) && min < max
    ensures RandomInRangeWide(min, max, 0) == min
    ensures RandomInRangeWide(min, max, Two32 - 1) == max
  {
    TopWord(max - min + 1);
  }

  /** The full `int` range: the as-written mapping never leaves `INT_MIN`. */
  lemma FullRangeStuckAtMin()
    ensures RandomInRange(IntMin, IntMax, Two32 - 1) == IntMin
    ensures RandomInRangeWide(IntMin, IntMax, Two32 - 1) == IntMax
  {
    RandomEndpoints(IntMin, IntMax);
    RandomInRangeWideEndpoints(IntMin, IntMax);
  }

  /** The error numbers of the external dice engine (`int_errno`), by name. */
  datatype DiceError =
    | ValueErr | InputErr | ZeroDiceErr | ZeroTypeErr | DiceTooBigErr
    | TypeTooBigErr | AddDiceValErr | DiceCntErr | OtherErr(code: int)

  /** `getErrorMessage(err)`. */
  function ErrorMessage(err: DiceError): (m: string)
    ensures m == "未知错误" <==> err.OtherErr?
  {
    match err
    case ValueErr => "数值错误"
    case InputErr => "输入错误"
    case ZeroDiceErr => "骰子数量为0"
    case ZeroTypeErr => "骰子面数为0"
    case DiceTooBigErr => "骰子数量过大"
    case TypeTooBigErr => "骰子面数过大"
    case AddDiceValErr => "加骰错误"
    case DiceCntErr => "骰子计数错误"
    case OtherErr(_) => "未知错误"
  }

  /** `getSuccessLevelDesc(level, autoSuccess)`. */
  function SuccessLevelDesc(level: int, autoSuccess: bool): (d: string)
    ensures d == "成功" <==> level == 2 || (level == 1 && autoSuccess)
    ensures d == "未知" <==> !(0 <= level <= 5)
  {
    match level
    case 0 => "大失败"
    case 1 => if autoSuccess then "成功" else "失败"
    case 2 => "成功"
    case 3 => "困难成功"
    case 4 => "极难成功"
    case 5 => "大成功"
    case _ => "未知"
  }

  /** The labels of levels 0..5 are pairwise distinct once `autoSuccess` is off. */
  lemma SuccessLevelDescInjective(a: int, b: int)
    requires 0 <= a <= 5 && 0 <= b <= 5
    ensures SuccessLevelDesc(a, false) == SuccessLevelDesc(b, false) ==> a == b
  {
  }

  /** The `rollValue/skillValue` classification of `skillCheck`: 5 critical,
      4 extreme, 3 hard, 2 regular success, 1 failure, 0 fumble. */
  function ClassifySlash(roll: int, skill: int): (level: int)
    ensures 0 <= level <= 5
    ensures level == 5 <==> roll <= 5 && roll <= skill
    ensures level >= 2 <==> roll <= skill && roll != 100
    ensures level == 0 <==> roll == 100 || (roll > 95 && roll > skill)
  {
    if roll <= 5 && roll <= skill then 5
    else if roll == 100 || (roll > 95 && roll > skill) then 0
    else if roll > skill then 1
    else if roll <= CInt.Div(skill, 5) then 4
    else if roll <= CInt.Div(skill, 2) then 3
    else 2
  }

  /** Within the range of a d100, a higher roll never earns a better level.
      (Above 100 it can: with skill 150, a roll of 100 fumbles and 120 succeeds.) */
  lemma ClassifySlashMonotone(r1: int, r2: int, skill: int)
    requires r1 <= r2 <= 100
    ensures ClassifySlash(r2, skill) <= ClassifySlash(r1, skill)
  {
    if skill >= 0 {
      var q5, q2 := CInt.Div(skill, 5), CInt.Div(skill, 2);
      assert q5 == skill / 5 && q2 == skill / 2;
      assert q5 <= q2 <= skill;
      var l1, l2 := ClassifySlash(r1, skill), ClassifySlash(r2, skill);
      if l2 >= 2 {
        if l2 == 5 { assert r1 <= 5; }
        else if l2 == 4 { assert r1 <= q5; }
        else if l2 == 3 { assert r1 <= q2; }
      }
    }
  }

  datatype SkillCheckResult =
    | Checked(roll: int, skill: int, level: int, description: string)
    | Failed(errorCode: int, errorMsg: string)

  /** The `roll/skill` path of `skillCheck`: both sides of the first `/` are
      trimmed and read with `std::stoi`, whose exceptions become error -1. */
  function SkillCheck(expression: string): (r: SkillCheckResult)
    ensures r.Failed? ==> r.errorCode == -1
    ensures (forall k :: 0 <= k < |expression| ==> expression[k] != '/') ==>
      r == Failed(-1, "表达式格式错误，应为 rollValue/skillValue")
    ensures r.Checked? ==> (r.level == ClassifySlash(r.roll, r.skill)
      && r.description == SuccessLevelDesc(r.level, false))
  {
    var slash := FirstIndexOf(expression, '/');
    if slash == |expression| then Failed(-1, "表达式格式错误，应为 rollValue/skillValue")
    else
      match Stoi(TrimC(expression[..slash]))
      case Err(e) => Failed(-1, "异常: " + e)
      case Ok(roll) =>
        match Stoi(TrimC(expression[slash + 1..]))
        case Err(e) => Failed(-1, "异常: " + e)
        case Ok(skill) =>
          var level := ClassifySlash(roll, skill);
          Checked(roll, skill, level, SuccessLevelDesc(level, false))
  }

  /** `s.find(c)`, with `|s|` standing for `npos`. */
  function FirstIndexOf(s: string, c: char): (i: nat)
    ensures i <= |s| && (i < |s| ==> s[i] == c)
    ensures forall k :: 0 <= k < i ==> s[k] != c
  {
    if s == [] then 0 else if s[0] == c then 0 else 1 + FirstIndexOf(s[1..], c)
  }

  /** Reading back a rendered `roll/skill` pair classifies exactly that pair. */
  lemma SkillCheckRendered(roll: int, skill: int)
    requires IntMin <= roll <= IntMax && IntMin <= skill <= IntMax
    ensures SkillCheck(IntToString(roll) + "/" + IntToString(skill))
         == Checked(roll, skill, ClassifySlash(roll, skill), SuccessLevelDesc(ClassifySlash(roll, skill), false))
  {
    var a, b := IntToString(roll), IntToString(skill);
    var e := a + "/" + b;
    RenderingHasNoSlash(roll);
    FirstIndexOfAt(e, '/', |a|);
    assert e[..|a|] == a && e[|a| + 1..] == b;
    RenderingTrimmed(roll);
    RenderingTrimmed(skill);
    StoiOfRendering(roll);
    StoiOfRendering(skill);
  }

  lemma RenderingHasNoSlash(n: int)
    ensures forall k :: 0 <= k < |IntToString(n)| ==> IntToString(n)[k] != '/'
  {
    var s := IntToString(n);
    if n < 0 { assert s[1..] == NatToString(-n); }
    forall k | 0 <= k < |s| ensures s[k] != '/' {
      if n < 0 && k > 0 { assert s[k] == NatToString(-n)[k - 1]; }
    }
  }

  lemma RenderingTrimmed(n: int)
    ensures TrimC(IntToString(n)) == IntToString(n)
  {
    var s := IntToString(n);
    if n < 0 { assert s[1..] == NatToString(-n); }
    assert !IsCSpace(s[0]) && !IsCSpace(s[|s| - 1]);
    TrimStartNoSpace(s, IsCSpace);
    assert TrimEnd(s, IsCSpace) == s;
  }

  lemma FirstIndexOfAt(s: string, c: char, i: nat)
    requires i < |s| && s[i] == c && forall k :: 0 <= k < i ==> s[k] != c
    ensures FirstIndexOf(s, c) == i
  {
  }
}
