/** The World of Darkness dice pool `NaM`: N ten-sided dice, every die at or
    above the again-line M adds one more die while the pool holds fewer than
    100, and every die of 8 or more is a success.  Each `1d10` roll is an
    input: `roll(i)` is what the dice engine returns for the i-th die. */
module Wod {
  import opened Wrappers
  import opened Text

  const MaxPool: nat := 100
  const SuccessLine: int := 8

  /** `^(\d+)a(\d+)$` matched case-insensitively: the two digit runs. */
  function MatchPool(e: string): (r: Option<(string, string)>)
    ensures r.Some? ==> r.value.0 != [] && r.value.1 != [] && AllDigits(r.value.0) && AllDigits(r.value.1)
    ensures r.Some? ==> |r.value.0| < |e| && e == r.value.0 + [e[|r.value.0|]] + r.value.1 && e[|r.value.0|] in {'a', 'A'}
  {
    var d1 := DigitPrefix(e);
    if d1 == [] || |d1| == |e| || (e[|d1|] != 'a' && e[|d1|] != 'A') then None
    else
      var d2 := e[|d1| + 1..];
      if d2 != [] && AllDigits(d2) then Some((d1, d2)) else None
  }

  /** The pool size and again-line, or the message the thrown error carries. */
  function ParsePool(e: string): (r: Result<(nat, nat), string>)
    ensures r.Ok? ==> 1 <= r.value.0 <= MaxPool && 2 <= r.value.1 <= 10
  {
    match MatchPool(e)
    case None => Err("表达式格式错误，应为: <骰子数>a<加骰线>，例如: 10a8")
    case Some((d1, d2)) =>
      var diceCount := DigitsValue(d1);
      var againLine := DigitsValue(d2);
      if diceCount < 1 || diceCount > MaxPool then Err("骰子数量必须在1-100之间")
      else if againLine < 2 || againLine > 10 then Err("加骰线必须在2-10之间")
      else Ok((diceCount, againLine))
  }

  lemma MatchRendered(n: nat, m: nat, a: char)
    requires a in {'a', 'A'}
    ensures MatchPool(NatToString(n) + [a] + NatToString(m)) == Some((NatToString(n), NatToString(m)))
  {
    var d1 := NatToString(n);
    var d2 := NatToString(m);
    var e := d1 + [a] + d2;
    assert e == d1 + ([a] + d2);
    DigitPrefixStops(d1, [a] + d2);
    assert e[|d1| + 1..] == d2;
  }

  /** Round trip: a pool written as `NaM` or `NAM` within the bounds parses back. */
  lemma ParsePoolRendered(n: nat, m: nat, a: char)
    requires 1 <= n <= MaxPool && 2 <= m <= 10 && a in {'a', 'A'}
    ensures ParsePool(NatToString(n) + [a] + NatToString(m)) == Ok((n, m))
  {
    MatchRendered(n, m, a);
    NatToStringValue(n);
    NatToStringValue(m);
  }

  /** Out-of-range numbers are reported, the pool size first. */
  lemma ParsePoolBounds(n: nat, m: nat)
    ensures (n < 1 || n > MaxPool) ==> ParsePool(NatToString(n) + "a" + NatToString(m)) == Err("骰子数量必须在1-100之间")
    ensures 1 <= n <= MaxPool && (m < 2 || m > 10) ==> ParsePool(NatToString(n) + "a" + NatToString(m)) == Err("加骰线必须在2-10之间")
  {
    MatchRendered(n, m, 'a');
    NatToStringValue(n);
    NatToStringValue(m);
  }

  function CountAtLeast(s: seq<int>, b: int): (n: nat)
    ensures n <= |s|
  {
    if s == [] then 0 else CountAtLeast(s[..|s| - 1], b) + (if s[|s| - 1] >= b then 1 else 0)
  }

  function Min(a: int, b: int): int { if a <= b then a else b }

  /** The dice rolled from die `i` on, while the pool holds `total` dice;
      the first failed roll ends everything with its message. */
  function PoolFrom(againLine: int, roll: nat -> Result<int, string>, i: nat, total: nat): (r: Result<seq<int>, string>)
    requires i <= total <= MaxPool
    decreases MaxPool - i
  {
    if i == total then Ok([])
    else
      match roll(i)
      case Err(m) => Err(m)
      case Ok(v) =>
        var t := if v >= againLine && total < MaxPool then total + 1 else total;
        match PoolFrom(againLine, roll, i + 1, t)
        case Err(m) => Err(m)
        case Ok(rest) => Ok([v] + rest)
  }

  function Prepend(xs: seq<int>, r: Result<seq<int>, string>): Result<seq<int>, string> {
    match r
    case Ok(rest) => Ok(xs + rest)
    case Err(m) => Err(m)
  }

  lemma CountAtLeastCons(v: int, rest: seq<int>, b: int)
    ensures CountAtLeast([v] + rest, b) == CountAtLeast(rest, b) + (if v >= b then 1 else 0)
    decreases |rest|
  {
    if rest != [] {
      assert ([v] + rest)[..|rest|] == [v] + rest[..|rest| - 1];
      CountAtLeastCons(v, rest[..|rest| - 1], b);
    }
  }

  /** Every die at the again-line adds one while the pool is below 100, so
      the dice rolled number exactly `min(100, start + explosions)`. */
  lemma {:induction false} PoolFromLength(againLine: int, roll: nat -> Result<int, string>, i: nat, total: nat)
    requires i <= total <= MaxPool
    requires PoolFrom(againLine, roll, i, total).Ok?
    ensures var rs := PoolFrom(againLine, roll, i, total).value;
      i + |rs| == Min(MaxPool, total + CountAtLeast(rs, againLine))
    decreases MaxPool - i
  {
    if i < total {
      var v := roll(i).value;
      var t := if v >= againLine && total < MaxPool then total + 1 else total;
      var rest := PoolFrom(againLine, roll, i + 1, t).value;
      PoolFromLength(againLine, roll, i + 1, t);
      CountAtLeastCons(v, rest, againLine);
    }
  }

  /** The pool never exceeds 100 dice and never has fewer than it started with. */
  lemma PoolBounds(againLine: int, roll: nat -> Result<int, string>, i: nat, total: nat)
    requires i <= total <= MaxPool
    requires PoolFrom(againLine, roll, i, total).Ok?
    ensures total <= i + |PoolFrom(againLine, roll, i, total).value| <= MaxPool
  {
    var rs := PoolFrom(againLine, roll, i, total).value;
    PoolFromLength(againLine, roll, i, total);
    MinBounds(total, CountAtLeast(rs, againLine), i + |rs|);
  }

  lemma MinBounds(start: nat, extra: nat, len: nat)
    requires start <= MaxPool && len == Min(MaxPool, start + extra)
    ensures start <= len <= MaxPool
  {
  }

  /** With an again-line above every roll, exactly the starting dice are rolled. */
  lemma NoExplosions(againLine: int, roll: nat -> Result<int, string>, i: nat, total: nat)
    requires i <= total <= MaxPool
    requires PoolFrom(againLine, roll, i, total).Ok?
    requires forall k: nat :: roll(k).Ok? ==> roll(k).value < againLine
    ensures i + |PoolFrom(againLine, roll, i, total).value| == total
  {
    var rs := PoolFrom(againLine, roll, i, total).value;
    PoolFromLength(againLine, roll, i, total);
    PoolValues(againLine, roll, i, total);
    NoneAtLeast(rs, againLine);
  }

  lemma {:induction false} NoneAtLeast(s: seq<int>, b: int)
    requires forall k :: 0 <= k < |s| ==> s[k] < b
    ensures CountAtLeast(s, b) == 0
  {
    if s != [] {
      NoneAtLeast(s[..|s| - 1], b);
    }
  }

  /** Die `i + k` shows what the `(i + k)`-th roll returned. */
  lemma {:induction false} PoolValues(againLine: int, roll: nat -> Result<int, string>, i: nat, total: nat)
    requires i <= total <= MaxPool
    requires PoolFrom(againLine, roll, i, total).Ok?
    ensures var rs := PoolFrom(againLine, roll, i, total).value;
      forall k :: 0 <= k < |rs| ==> roll(i + k) == Ok(rs[k])
    decreases MaxPool - i
  {
    if i < total {
      var v := roll(i).value;
      var t := if v >= againLine && total < MaxPool then total + 1 else total;
      PoolValues(againLine, roll, i + 1, t);
    }
  }

  lemma PoolStep(againLine: int, roll: nat -> Result<int, string>, i: nat, total: nat, results: seq<int>, v: int)
    requires i < total <= MaxPool && roll(i) == Ok(v)
    ensures Prepend(results, PoolFrom(againLine, roll, i, total))
         == Prepend(results + [v], PoolFrom(againLine, roll, i + 1, if v >= againLine && total < MaxPool then total + 1 else total))
  {
    var t := if v >= againLine && total < MaxPool then total + 1 else total;
    match PoolFrom(againLine, roll, i + 1, t)
    case Err(m) =>
    case Ok(rest) =>
      assert results + ([v] + rest) == results + [v] + rest;
  }

  lemma PrependNothing(r: Result<seq<int>, string>)
    ensures Prepend([], r) == r
  {
    if r.Ok? {
      assert [] + r.value == r.value;
    }
  }

  lemma PoolStepErr(againLine: int, roll: nat -> Result<int, string>, i: nat, total: nat, results: seq<int>)
    requires i < total <= MaxPool && roll(i).Err?
    ensures Prepend(results, PoolFrom(againLine, roll, i, total)) == Err(roll(i).error)
  {
  }

  lemma PoolDone(againLine: int, roll: nat -> Result<int, string>, i: nat, results: seq<int>)
    requires i <= MaxPool
    ensures Prepend(results, PoolFrom(againLine, roll, i, i)) == Ok(results)
  {
    assert results + [] == results;
  }

  lemma CountAtLeastSnoc(s: seq<int>, v: int, b: int)
    ensures CountAtLeast(s + [v], b) == CountAtLeast(s, b) + (if v >= b then 1 else 0)
  {
    assert (s + [v])[..|s|] == s;
  }

  /** The rolling loop of `parseAndRollWOD`. */
  method RollPool(diceCount: nat, againLine: int, roll: nat -> Result<int, string>)
    returns (r: Result<seq<int>, string>, successCount: nat)
    requires 1 <= diceCount <= MaxPool
    ensures r == PoolFrom(againLine, roll, 0, diceCount)
    ensures r.Ok? ==> successCount == CountAtLeast(r.value, SuccessLine)
  {
    var results: seq<int> := [];
    var totalDice := diceCount;
    successCount := 0;
    var i := 0;
    PrependNothing(PoolFrom(againLine, roll, 0, diceCount));
    while i < totalDice
      invariant 0 <= i <= totalDice <= MaxPool && |results| == i
      invariant Prepend(results, PoolFrom(againLine, roll, i, totalDice)) == PoolFrom(againLine, roll, 0, diceCount)
      invariant successCount == CountAtLeast(results, SuccessLine)
      decreases MaxPool - i
    {
      var rolled := roll(i);
      if rolled.Err? {
        PoolStepErr(againLine, roll, i, totalDice, results);
        return Err(rolled.error), successCount;
      }
      var value := rolled.value;
      PoolStep(againLine, roll, i, totalDice, results, value);
      CountAtLeastSnoc(results, value, SuccessLine);
      results := results + [value];
      if value >= SuccessLine {
        successCount := successCount + 1;
      }
      if value >= againLine && totalDice < MaxPool {
        totalDice := totalDice + 1;
      }
      i := i + 1;
    }
    PoolDone(againLine, roll, i, results);
    r := Ok(results);
  }

  /** One die of the detailed listing: `[v!]` at the again-line, `[v]` for a
      success, `(1)` for a one, the bare number otherwise. */
  function DieText(v: int, againLine: int): (t: string)
  {
    if v >= againLine then "[" + IntToString(v) + "!]"
    else if v >= SuccessLine then "[" + IntToString(v) + "]"
    else if v == 1 then "(1)"
    else IntToString(v)
  }

  /** Exactly the dice at the again-line are flagged with `!`. */
  lemma DieTextFlagsExplosions(v: int, againLine: int)
    ensures EndsWith(DieText(v, againLine), "!]") <==> v >= againLine
  {
    var t := DieText(v, againLine);
    if v < againLine {
      var s := IntToString(v);
      var m: nat := if v < 0 then -v else v;
      assert forall k :: 0 <= k < |NatToString(m)| ==> IsDigit(NatToString(m)[k]);
      if v >= SuccessLine {
        assert t == "[" + s + "]";
        assert t[|t| - 1] == ']' && (|t| < 2 || t[|t| - 2] != '!');
      } else if v != 1 {
        assert t[|t| - 1] == s[|s| - 1];
      }
    }
  }

  function DetailList(rs: seq<int>, againLine: int): (ts: seq<string>)
    ensures |ts| == |rs| && forall k :: 0 <= k < |rs| ==> ts[k] == DieText(rs[k], againLine)
  {
    seq(|rs|, k requires 0 <= k < |rs| => DieText(rs[k], againLine))
  }

  function FormatPool(diceCount: nat, againLine: nat, rs: seq<int>, successCount: nat, showDetail: bool): string
  {
    var head := "WOD骰池 " + NatToString(diceCount) + "a" + NatToString(againLine);
    if showDetail then
      head + ":\n" + Join(DetailList(rs, againLine), " ") + "\n成功数: " + NatToString(successCount)
    else head + ": 成功数 " + NatToString(successCount)
  }

  /** `parseAndRollWOD`: `Err` is the message of the thrown error. */
  method ParseAndRollWod(expression: string, roll: nat -> Result<int, string>, showDetail: bool)
    returns (r: Result<string, string>)
    ensures ParsePool(expression).Err? ==> r == Err(ParsePool(expression).error)
    ensures ParsePool(expression).Ok? ==>
      var (n, m) := ParsePool(expression).value;
      match PoolFrom(m, roll, 0, n)
      case Err(e) => r == Err(e)
      case Ok(rs) => r == Ok(FormatPool(n, m, rs, CountAtLeast(rs, SuccessLine), showDetail))
  {
    var parsed := ParsePool(expression);
    if parsed.Err? {
      return Err(parsed.error);
    }
    var (diceCount, againLine) := parsed.value;
    var pool, successCount := RollPool(diceCount, againLine, roll);
    if pool.Err? {
      return Err(pool.error);
    }
    r := Ok(FormatPool(diceCount, againLine, pool.value, successCount, showDetail));
  }

  /** The `.ww` and `.w` actions: usage text for an empty expression, the
      error message after `骰池失败: `, or the user name before the result. */
  method WodCommand(username: string, expression: string, roll: nat -> Result<int, string>, showDetail: bool)
    returns (reply: string)
    ensures expression == [] ==> reply == UsageText(showDetail)
    ensures expression != [] && ParsePool(expression).Err? ==> reply == "骰池失败: " + ParsePool(expression).error
  {
    if expression == [] {
      return UsageText(showDetail);
    }
    var result := ParseAndRollWod(expression, roll, showDetail);
    match result
    case Err(m) => reply := "骰池失败: " + m;
    case Ok(text) => reply := username + ": " + text;
  }

  function UsageText(showDetail: bool): string {
    if showDetail then "用法: .ww <骰子数>a<加骰线>\n例如: .ww 10a8 表示投10个骰子，8点及以上加骰"
    else "用法: .w <骰子数>a<加骰线>\n例如: .w 10a8 表示投10个骰子，8点及以上加骰"
  }
}
