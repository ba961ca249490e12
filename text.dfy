/** String helpers shared by the model: prefix and suffix tests, trimming,
    whitespace tokenising, literal global replacement, ASCII case folding and
    decimal integer parsing as `std::stoi` and `parseInt` perform it. */
module Text {
  import opened Wrappers

  predicate StartsWith(s: string, p: string) { |p| <= |s| && s[..|p|] == p }

  predicate EndsWith(s: string, p: string) { |p| <= |s| && s[|s| - |p|..] == p }

  /** `haystack.includes(needle)` */
  predicate Contains(haystack: string, needle: string) {
    exists i :: 0 <= i <= |haystack| - |needle| && StartsWith(haystack[i..], needle)
  }

  /** The characters `isspace` accepts in the C locale, and the set utils.cpp trims. */
  predicate IsCSpace(c: char) {
    c == ' ' || c == '\t' || c == '\n' || c == '\r' || c == '\U{000C}' || c == '\U{000B}'
  }

  /** The characters JavaScript's `trim` and the regex class `\s` treat as white space. */
  predicate IsJsSpace(c: char) {
    IsCSpace(c) || c == '\U{00A0}' || c == '\U{1680}' || '\U{2000}' <= c <= '\U{200A}'
    || c == '\U{2028}' || c == '\U{2029}' || c == '\U{202F}' || c == '\U{205F}'
    || c == '\U{3000}' || c == '\U{FEFF}'
  }

  function TrimStart(s: string, ws: char -> bool): (r: string)
    ensures |r| <= |s| && r == s[|s| - |r|..]
    ensures forall k :: 0 <= k < |s| - |r| ==> ws(s[k])
    ensures r == [] || !ws(r[0])
  {
    if s != [] && ws(s[0]) then TrimStart(s[1..], ws) else s
  }

  function TrimEnd(s: string, ws: char -> bool): (r: string)
    ensures |r| <= |s| && r == s[..|r|]
    ensures forall k :: |r| <= k < |s| ==> ws(s[k])
    ensures r == [] || !ws(r[|r| - 1])
  {
    if s != [] && ws(s[|s| - 1]) then TrimEnd(s[..|s| - 1], ws) else s
  }

  /** Removes white space (as `ws` defines it) from both ends. */
  function Trim(s: string, ws: char -> bool): (r: string)
    ensures exists i, j :: (0 <= i <= j <= |s| && r == s[i..j]
      && (forall k :: 0 <= k < i ==> ws(s[k])) && (forall k :: j <= k < |s| ==> ws(s[k])))
    ensures r == [] || (!ws(r[0]) && !ws(r[|r| - 1]))
    ensures r == [] <==> forall k :: 0 <= k < |s| ==> ws(s[k])
  {
    TrimSlice(s, ws);
    TrimEnd(TrimStart(s, ws), ws)
  }

  /** The trimmed string is the slice of `s` between the two cuts. */
  lemma TrimSliceBounds(s: string, ws: char -> bool)
    ensures var t := TrimStart(s, ws); var r := TrimEnd(t, ws);
      |s| - |t| + |r| <= |s| && r == s[|s| - |t|..|s| - |t| + |r|]
  {
    var t := TrimStart(s, ws);
    var r := TrimEnd(t, ws);
    SliceOfSuffix(s, |s| - |t|, |r|);
  }

  lemma SliceOfSuffix(s: string, i: nat, n: nat)
    requires i + n <= |s|
    ensures s[i..][..n] == s[i..i + n]
  {
  }

  /** Everything after the cut at the end is white space. */
  lemma TrimSliceTail(s: string, ws: char -> bool)
    ensures var t := TrimStart(s, ws); var r := TrimEnd(t, ws);
      forall k :: |s| - |t| + |r| <= k < |s| ==> ws(s[k])
  {
    var t := TrimStart(s, ws);
    var r := TrimEnd(t, ws);
    var i := |s| - |t|;
    forall k | i + |r| <= k < |s| ensures ws(s[k]) {
      assert s[k] == t[k - i];
    }
  }

  lemma TrimSlice(s: string, ws: char -> bool)
    ensures var t := TrimStart(s, ws); var r := TrimEnd(t, ws);
      var i, j := |s| - |t|, |s| - |t| + |r|;
      0 <= i <= j <= |s| && r == s[i..j]
      && (forall k :: 0 <= k < i ==> ws(s[k])) && (forall k :: j <= k < |s| ==> ws(s[k]))
      && (r == [] ==> forall k :: 0 <= k < |s| ==> ws(s[k]))
  {
    TrimSliceBounds(s, ws);
    TrimSliceTail(s, ws);
  }

  /** A string with no white space at either end is its own trim. */
  lemma TrimUnchanged(s: string, ws: char -> bool)
    requires s != [] && !ws(s[0]) && !ws(s[|s| - 1])
    ensures Trim(s, ws) == s
  {
    TrimStartNoSpace(s, ws);
  }

  /** utils.cpp `trim`, the C++ side's trimming of ` \t\n\r\f\v`. */
  function TrimC(s: string): string { Trim(s, IsCSpace) }

  /** JavaScript `String.prototype.trim`. */
  function TrimJs(s: string): string { Trim(s, IsJsSpace) }

  lemma TrimIdempotent(s: string, ws: char -> bool)
    ensures Trim(Trim(s, ws), ws) == Trim(s, ws)
  {
    var t := Trim(s, ws);
    if t != [] {
      assert TrimStart(t, ws) == t;
      assert TrimEnd(t, ws) == t;
    }
  }

  /** The longest prefix of `s` without white space. */
  function TakeWord(s: string, ws: char -> bool): (w: string)
    ensures |w| <= |s| && w == s[..|w|]
    ensures forall k :: 0 <= k < |w| ==> !ws(w[k])
    ensures |w| == |s| || ws(s[|w|])
  {
    if s == [] || ws(s[0]) then [] else [s[0]] + TakeWord(s[1..], ws)
  }

  /** A non-empty run of characters none of which is white space. */
  predicate IsToken(w: string, ws: char -> bool) {
    w != [] && forall k :: 0 <= k < |w| ==> !ws(w[k])
  }

  /** The white-space separated tokens of `s`, as repeated `iss >> token` yields them. */
  function Words(s: string, ws: char -> bool): (r: seq<string>)
    decreases |s|
  {
    var t := TrimStart(s, ws);
    if t == [] then []
    else
      var w := TakeWord(t, ws);
      assert w != [];
      [w] + Words(t[|w|..], ws)
  }

  /** Every token is non-empty and free of white space. */
  lemma {:induction false} WordsAreTokens(s: string, ws: char -> bool)
    ensures forall i :: 0 <= i < |Words(s, ws)| ==> IsToken(Words(s, ws)[i], ws)
    decreases |s|
  {
    var t := TrimStart(s, ws);
    if t != [] {
      var w := TakeWord(t, ws);
      assert IsToken(w, ws);
      WordsAreTokens(t[|w|..], ws);
      var rest := Words(t[|w|..], ws);
      var all := Words(s, ws);
      assert all == [w] + rest;
      forall i | 0 <= i < |all|
        ensures IsToken(all[i], ws)
      {
        if i > 0 {
          assert all[i] == rest[i - 1];
        }
      }
    }
  }

  /** There are no tokens exactly when the whole input is white space. */
  lemma WordsEmpty(s: string, ws: char -> bool)
    ensures Words(s, ws) == [] <==> forall k :: 0 <= k < |s| ==> ws(s[k])
  {
    var t := TrimStart(s, ws);
    if t != [] {
      assert !ws(s[|s| - |t|]);
    }
  }

  /** Joins with a separator, as JavaScript's `Array.prototype.join`. */
  function Join(parts: seq<string>, sep: string): (r: string)
    ensures parts == [] ==> r == []
    ensures |parts| == 1 ==> r == parts[0]
    ensures |parts| >= 1 ==> StartsWith(r, parts[0])
  {
    if parts == [] then []
    else if |parts| == 1 then parts[0]
    else parts[0] + sep + Join(parts[1..], sep)
  }

  /** `s.replace(/pat/g, rep)` for a literal, non-empty pattern: every
      non-overlapping occurrence, scanned left to right, is replaced. */
  function ReplaceAll(s: string, pat: string, rep: string): string
    requires pat != []
    decreases |s|
  {
    if |s| < |pat| then s
    else if s[..|pat|] == pat then rep + ReplaceAll(s[|pat|..], pat, rep)
    else [s[0]] + ReplaceAll(s[1..], pat, rep)
  }

  /** A prefix free of the pattern's first character passes through unchanged. */
  lemma {:induction false} ReplaceAllSkips(a: string, x: string, pat: string, rep: string)
    requires pat != []
    requires forall k :: 0 <= k < |a| ==> a[k] != pat[0]
    ensures ReplaceAll(a + x, pat, rep) == a + ReplaceAll(x, pat, rep)
    decreases |a|
  {
    if a == [] {
      assert a + x == x;
    } else {
      var s := a + x;
      if |s| < |pat| {
        ReplaceAllShort(x, pat, rep);
        ReplaceAllShort(s, pat, rep);
      } else {
        assert s[..|pat|][0] == a[0];
        ReplaceAllSkips(a[1..], x, pat, rep);
        assert s[1..] == a[1..] + x;
        assert a == [a[0]] + a[1..];
      }
    }
  }

  lemma ReplaceAllShort(x: string, pat: string, rep: string)
    requires pat != [] && |x| < |pat|
    ensures ReplaceAll(x, pat, rep) == x
  {
  }

  /** A string that does not contain the pattern at all is returned unchanged. */
  lemma {:induction false} ReplaceAllAbsent(s: string, pat: string, rep: string)
    requires pat != []
    requires !Contains(s, pat)
    ensures ReplaceAll(s, pat, rep) == s
    decreases |s|
  {
    if |s| >= |pat| {
      assert s[0..] == s;
      assert !StartsWith(s[0..], pat);
      assert !Contains(s[1..], pat) by {
        forall i | 0 <= i <= |s[1..]| - |pat| ensures !StartsWith(s[1..][i..], pat) {
          assert s[1..][i..] == s[i + 1..];
        }
      }
      ReplaceAllAbsent(s[1..], pat, rep);
    }
  }

  /** Replacing a pattern by itself changes nothing. */
  lemma {:induction false} ReplaceAllSelf(s: string, pat: string)
    requires pat != []
    ensures ReplaceAll(s, pat, pat) == s
    decreases |s|
  {
    if |s| >= |pat| {
      if s[..|pat|] == pat {
        ReplaceAllSelf(s[|pat|..], pat);
        assert s == s[..|pat|] + s[|pat|..];
      } else {
        ReplaceAllSelf(s[1..], pat);
        assert s == [s[0]] + s[1..];
      }
    }
  }

  /** The pattern at the front is replaced, and scanning resumes after it. */
  lemma ReplaceAllFront(pat: string, x: string, rep: string)
    requires pat != []
    ensures ReplaceAll(pat + x, pat, rep) == rep + ReplaceAll(x, pat, rep)
  {
    var s := pat + x;
    assert s[..|pat|] == pat;
    assert s[|pat|..] == x;
  }

  function ToLowerAsciiChar(c: char): (d: char)
    ensures 'A' <= c <= 'Z' ==> 'a' <= d <= 'z'
    ensures !('A' <= c <= 'Z') ==> d == c
  {
    if 'A' <= c <= 'Z' then (c as int + 32) as char else c
  }

  /** Lower-cases ASCII letters and leaves every other character alone. */
  function ToLowerAscii(s: string): (r: string)
    ensures |r| == |s|
    ensures forall k :: 0 <= k < |s| ==> r[k] == ToLowerAsciiChar(s[k])
  {
    if s == [] then [] else [ToLowerAsciiChar(s[0])] + ToLowerAscii(s[1..])
  }

  /** A string without upper-case ASCII letters is its own lower-case form. */
  lemma {:induction false} ToLowerAsciiNoUpper(s: string)
    requires forall k :: 0 <= k < |s| ==> !('A' <= s[k] <= 'Z')
    ensures ToLowerAscii(s) == s
  {
    if s != [] {
      ToLowerAsciiNoUpper(s[1..]);
    }
  }

  predicate IsDigit(c: char) { '0' <= c <= '9' }

  predicate IsAsciiAlpha(c: char) { 'a' <= c <= 'z' || 'A' <= c <= 'Z' }

  predicate AllDigits(s: string) { forall k :: 0 <= k < |s| ==> IsDigit(s[k]) }

  /** The value of a run of decimal digits. */
  function DigitsValue(s: string): (n: nat)
    requires AllDigits(s)
    ensures s == [] ==> n == 0
  {
    if s == [] then 0 else DigitsValue(s[..|s| - 1]) * 10 + (s[|s| - 1] as int - '0' as int)
  }

  /** The leading run of decimal digits of `s`. */
  function DigitPrefix(s: string): (d: string)
    ensures |d| <= |s| && d == s[..|d|] && AllDigits(d)
    ensures |d| == |s| || !IsDigit(s[|d|])
  {
    if s != [] && IsDigit(s[0]) then [s[0]] + DigitPrefix(s[1..]) else []
  }

  /** Decimal rendering, as `std::to_string` and JavaScript template strings give it. */
  function NatToString(n: nat): (s: string)
    ensures s != [] && AllDigits(s)
    decreases n
  {
    if n < 10 then [('0' as int + n) as char]
    else NatToString(n / 10) + [('0' as int + n % 10) as char]
  }

  function IntToString(i: int): (s: string)
    ensures s != []
  {
    if i < 0 then "-" + NatToString(-i) else NatToString(i)
  }

  lemma {:induction false} NatToStringValue(n: nat)
    ensures DigitsValue(NatToString(n)) == n
    decreases n
  {
    var s := NatToString(n);
    if n >= 10 {
      NatToStringValue(n / 10);
      assert s[..|s| - 1] == NatToString(n / 10);
    }
  }

  const IntMin: int := -0x8000_0000
  const IntMax: int := 0x7FFF_FFFF

  /** Skips leading `isspace` characters. */
  function SkipCSpace(s: string): string
  {
    if s != [] && IsCSpace(s[0]) then SkipCSpace(s[1..]) else s
  }

  /** `std::stoi(s)`: leading `isspace` characters are skipped, an optional sign
      is read, then at least one digit; trailing characters are ignored.  No
      digit throws `std::invalid_argument` and a value outside `int` throws
      `std::out_of_range`; the error carries the exception's `what()` text. */
  function Stoi(s: string): (r: Result<int, string>)
    ensures r.Ok? ==> IntMin <= r.value <= IntMax
    ensures r.Err? ==> r.error == "stoi: no conversion" || r.error == "stoi: out of range"
  {
    var t := SkipCSpace(s);
    var neg := t != [] && t[0] == '-';
    var body := if t != [] && (t[0] == '-' || t[0] == '+') then t[1..] else t;
    var d := DigitPrefix(body);
    if d == [] then Err("stoi: no conversion")
    else
      var v: int := if neg then 0 - DigitsValue(d) else DigitsValue(d);
      if IntMin <= v <= IntMax then Ok(v) else Err("stoi: out of range")
  }

  /** `std::stoi` reads back every `int` that `std::to_string` renders. */
  lemma StoiOfRendering(n: int)
    requires IntMin <= n <= IntMax
    ensures Stoi(IntToString(n)) == Ok(n)
  {
    var s := IntToString(n);
    var m: nat := if n < 0 then -n else n;
    var d := NatToString(m);
    assert SkipCSpace(s) == s;
    var body := if s[0] == '-' || s[0] == '+' then s[1..] else s;
    assert body == d;
    DigitPrefixAll(d);
    NatToStringValue(m);
    var v: int := if s[0] == '-' then 0 - DigitsValue(d) else DigitsValue(d);
    assert v == n;
  }

  lemma TrimStartNoSpace(s: string, ws: char -> bool)
    requires s != [] && !ws(s[0])
    ensures TrimStart(s, ws) == s
  {
  }

  lemma {:induction false} DigitPrefixAll(d: string)
    requires AllDigits(d)
    ensures DigitPrefix(d) == d
  {
    if d != [] {
      DigitPrefixAll(d[1..]);
    }
  }

  /** The digit run stops at the first character that is not a digit. */
  lemma DigitPrefixStops(d: string, rest: string)
    requires AllDigits(d) && (rest == [] || !IsDigit(rest[0]))
    ensures DigitPrefix(d + rest) == d
  {
    var s := d + rest;
    assert forall k :: 0 <= k < |d| ==> IsDigit(s[k]);
    assert |d| < |s| ==> !IsDigit(s[|d|]);
    var p := DigitPrefix(s);
    assert forall k :: 0 <= k < |p| ==> IsDigit(s[k]);
  }

  /** JavaScript `parseInt(s, 10)` on the integers this model needs: leading
      white space, an optional sign, then the leading digits; `None` is `NaN`. */
  function ParseIntJs(s: string): (r: Option<int>)
  {
    var t := TrimStart(s, IsJsSpace);
    var neg := t != [] && t[0] == '-';
    var body := if t != [] && (t[0] == '-' || t[0] == '+') then t[1..] else t;
    var d := DigitPrefix(body);
    if d == [] then None
    else if neg then Some(0 - DigitsValue(d)) else Some(DigitsValue(d))
  }

  /** `parseInt` reads back every integer written in decimal. */
  lemma ParseIntJsOfRendering(n: int)
    ensures ParseIntJs(IntToString(n)) == Some(n)
  {
    var s := IntToString(n);
    var m: nat := if n < 0 then -n else n;
    var d := NatToString(m);
    assert TrimStart(s, IsJsSpace) == s;
    var body := if s[0] == '-' || s[0] == '+' then s[1..] else s;
    assert body == d;
    DigitPrefixAll(d);
    NatToStringValue(m);
  }

  /** `parseInt` stops at the first character that is not a digit. */
  lemma ParseIntJsStops(d: string, rest: string)
    requires d != [] && AllDigits(d) && (rest == [] || !IsDigit(rest[0]))
    ensures ParseIntJs(d + rest) == Some(DigitsValue(d))
  {
    var s := d + rest;
    assert s[0] == d[0] && IsDigit(s[0]);
    assert !IsJsSpace(s[0]);
    TrimStartNoSpace(s, IsJsSpace);
    DigitPrefixStops(d, rest);
  }

  /** The first position of `c` in `s`, or `|s|` when there is none. */
  function IndexOfChar(s: string, c: char): (i: nat)
    ensures i <= |s| && (i < |s| ==> s[i] == c)
    ensures forall k :: 0 <= k < i ==> s[k] != c
  {
    if s == [] then 0 else if s[0] == c then 0 else 1 + IndexOfChar(s[1..], c)
  }

  lemma {:induction false} IndexOfCharAt(s: string, c: char, i: nat)
    requires i < |s| && s[i] == c && forall k :: 0 <= k < i ==> s[k] != c
    ensures IndexOfChar(s, c) == i
  {
    if i > 0 {
      IndexOfCharAt(s[1..], c, i - 1);
    }
  }
}
