/** wasm/src/core/utf8_utils.cpp: UTF-8 helpers over byte strings.  A byte
    string is well formed when it matches the UTF-8 syntax of section 4 of
    RFC 3629, which is what `simdutf::validate_utf8` accepts; its characters
    are the code points it decodes to. */
module Utf8 {
  import opened Wrappers

  newtype byte = b: int | 0 <= b < 256

  /** The length of the sequence a lead byte announces, read off the bit
      masks utf8CharToByte tests (0 for a byte that cannot lead). */
  function MaskLength(b: byte): (n: int)
  {
    var x := b as bv8;
    if x & 0x80 == 0 then 1
    else if x & 0xE0 == 0xC0 then 2
    else if x & 0xF0 == 0xE0 then 3
    else if x & 0xF8 == 0xF0 then 4
    else 0
  }

  /** The lead-byte ranges of section 3 of RFC 3629: 0xxxxxxx, 110xxxxx,
      1110xxxx and 11110xxx. */
  function LeadLength(b: byte): (n: int)
    ensures 0 <= n <= 4
  {
    if b < 0x80 then 1
    else if 0xC0 <= b < 0xE0 then 2
    else if 0xE0 <= b < 0xF0 then 3
    else if 0xF0 <= b < 0xF8 then 4
    else 0
  }

  /** The masks select exactly the lead-byte ranges. */
  lemma MasksAreRanges(b: byte)
    ensures MaskLength(b) == LeadLength(b)
  {
  }

  predicate IsTail(b: byte) { 0x80 <= b < 0xC0 }

  /** A Unicode scalar value: a code point that is not a surrogate. */
  predicate IsScalar(cp: int) { 0 <= cp <= 0x10FFFF && !(0xD800 <= cp <= 0xDFFF) }

  /** The UTF-8 encoding of one scalar value (section 3 of RFC 3629): the
      value's bits in groups of six, the last group in the last byte. */
  function EncodeCp(cp: int): (bs: seq<byte>)
    requires IsScalar(cp)
    ensures 1 <= |bs| <= 4
    ensures |bs| == (if cp < 0x80 then 1 else if cp < 0x800 then 2 else if cp < 0x10000 then 3 else 4)
  {
    var c1 := cp / 64;
    var c2 := c1 / 64;
    if cp < 0x80 then [cp as byte]
    else if cp < 0x800 then [(0xC0 + c1) as byte, (0x80 + cp % 64) as byte]
    else if cp < 0x10000 then
      [(0xE0 + c2) as byte, (0x80 + c1 % 64) as byte, (0x80 + cp % 64) as byte]
    else
      [(0xF0 + c2 / 64) as byte, (0x80 + c2 % 64) as byte,
       (0x80 + c1 % 64) as byte, (0x80 + cp % 64) as byte]
  }

  function EncodeSeq(cps: seq<int>): (bs: seq<byte>)
    requires forall i :: 0 <= i < |cps| ==> IsScalar(cps[i])
  {
    if cps == [] then [] else EncodeCp(cps[0]) + EncodeSeq(cps[1..])
  }

  /** A Dafny string's bytes: each character is a scalar value. */
  function EncodeStr(s: string): (bs: seq<byte>)
  {
    if s == [] then [] else EncodeCp(s[0] as int) + EncodeStr(s[1..])
  }

  /** The well-formed sequence at the front of `bs`, if there is one: its
      code point and its length.  Overlong forms, surrogates and values above
      U+10FFFF are rejected, as RFC 3629 requires. */
  function DecodeFirst(bs: seq<byte>): (r: Option<(int, int)>)
    ensures r.Some? ==> 1 <= r.value.1 <= |bs| && r.value.1 == LeadLength(bs[0]) && IsScalar(r.value.0)
  {
    if bs == [] then None
    else
      var n := LeadLength(bs[0]);
      if n == 0 || |bs| < n then None
      else if n == 1 then Some((bs[0] as int, 1))
      else if n == 2 then
        if !IsTail(bs[1]) then None
        else
          var cp := (bs[0] as int - 0xC0) * 64 + (bs[1] as int - 0x80);
          if cp < 0x80 then None else Some((cp, 2))
      else if n == 3 then
        if !IsTail(bs[1]) || !IsTail(bs[2]) then None
        else
          var cp := ((bs[0] as int - 0xE0) * 64 + (bs[1] as int - 0x80)) * 64 + (bs[2] as int - 0x80);
          if cp < 0x800 || (0xD800 <= cp <= 0xDFFF) then None else Some((cp, 3))
      else
        if !IsTail(bs[1]) || !IsTail(bs[2]) || !IsTail(bs[3]) then None
        else
          var cp := (((bs[0] as int - 0xF0) * 64 + (bs[1] as int - 0x80)) * 64
                     + (bs[2] as int - 0x80)) * 64 + (bs[3] as int - 0x80);
          if cp < 0x10000 || cp > 0x10FFFF then None else Some((cp, 4))
  }

  /** The code points of a well-formed byte string, `None` when it is not. */
  function Decode(bs: seq<byte>): (r: Option<seq<int>>)
    ensures r.Some? ==> forall i :: 0 <= i < |r.value| ==> IsScalar(r.value[i])
    decreases |bs|
  {
    if bs == [] then Some([])
    else
      match DecodeFirst(bs)
      case None => None
      case Some(p) =>
        match Decode(bs[p.1..])
        case None => None
        case Some(rest) => Some([p.0] + rest)
  }

  predicate Valid(bs: seq<byte>) { Decode(bs).Some? }

  /** Quotient and remainder by 64 are determined by a decomposition. */
  lemma DivMod64(x: int, q: int, r: int)
    requires 0 <= r < 64 && x == q * 64 + r
    ensures x / 64 == q && x % 64 == r
  {
  }

  lemma DecodeFirstOfEncoding(cp: int, rest: seq<byte>)
    requires IsScalar(cp)
    ensures DecodeFirst(EncodeCp(cp) + rest) == Some((cp, |EncodeCp(cp)|))
  {
    var e := EncodeCp(cp);
    var bs := e + rest;
    assert bs[0] == e[0];
    var c1 := cp / 64;
    var c2 := c1 / 64;
    assert cp == c1 * 64 + cp % 64;
    assert c1 == c2 * 64 + c1 % 64;
    assert c2 == (c2 / 64) * 64 + c2 % 64;
    if 0x80 <= cp {
      assert bs[1] == e[1];
    }
    if 0x800 <= cp {
      assert bs[2] == e[2];
    }
    if 0x10000 <= cp {
      assert bs[3] == e[3];
    }
  }

  lemma EncodingOfDecodeFirst(bs: seq<byte>)
    requires DecodeFirst(bs).Some?
    ensures EncodeCp(DecodeFirst(bs).value.0) == bs[..DecodeFirst(bs).value.1]
  {
    var p := DecodeFirst(bs).value;
    var cp, n := p.0, p.1;
    var e := EncodeCp(cp);
    if n == 2 {
      DivMod64(cp, bs[0] as int - 0xC0, bs[1] as int - 0x80);
      assert e == bs[..2];
    } else if n == 3 {
      var c1 := (bs[0] as int - 0xE0) * 64 + (bs[1] as int - 0x80);
      DivMod64(cp, c1, bs[2] as int - 0x80);
      DivMod64(c1, bs[0] as int - 0xE0, bs[1] as int - 0x80);
      assert e == bs[..3];
    } else if n == 4 {
      var c2 := (bs[0] as int - 0xF0) * 64 + (bs[1] as int - 0x80);
      var c1 := c2 * 64 + (bs[2] as int - 0x80);
      DivMod64(cp, c1, bs[3] as int - 0x80);
      DivMod64(c1, c2, bs[2] as int - 0x80);
      DivMod64(c2, bs[0] as int - 0xF0, bs[1] as int - 0x80);
      assert e == bs[..4];
    }
  }

  /** Decoding undoes encoding. */
  lemma {:induction false} DecodeEncode(cps: seq<int>)
    requires forall i :: 0 <= i < |cps| ==> IsScalar(cps[i])
    ensures Decode(EncodeSeq(cps)) == Some(cps)
  {
    if cps != [] {
      var e := EncodeCp(cps[0]);
      var bs := EncodeSeq(cps);
      DecodeFirstOfEncoding(cps[0], EncodeSeq(cps[1..]));
      assert bs[|e|..] == EncodeSeq(cps[1..]);
      DecodeEncode(cps[1..]);
      assert bs != [];
      assert Decode(bs) == Some([cps[0]] + cps[1..]);
      assert [cps[0]] + cps[1..] == cps;
    }
  }

  /** Encoding undoes decoding: a well-formed byte string is the encoding of
      its code points, so the two are inverse on well-formed input. */
  lemma {:induction false} EncodeDecode(bs: seq<byte>)
    requires Valid(bs)
    ensures EncodeSeq(Decode(bs).value) == bs
    decreases |bs|
  {
    if bs != [] {
      var p := DecodeFirst(bs).value;
      var rest := Decode(bs[p.1..]).value;
      var cps := [p.0] + rest;
      assert Decode(bs) == Some(cps);
      EncodingOfDecodeFirst(bs);
      EncodeDecode(bs[p.1..]);
      assert cps[0] == p.0 && cps[1..] == rest;
      assert EncodeSeq(cps) == EncodeCp(p.0) + EncodeSeq(rest);
      assert bs == bs[..p.1] + bs[p.1..];
    }
  }

  /** Encoding distributes over concatenation. */
  lemma {:induction false} EncodeSeqConcat(a: seq<int>, b: seq<int>)
    requires forall i :: 0 <= i < |a| ==> IsScalar(a[i])
    requires forall i :: 0 <= i < |b| ==> IsScalar(b[i])
    ensures EncodeSeq(a + b) == EncodeSeq(a) + EncodeSeq(b)
  {
    if a != [] {
      var ab := a + b;
      assert ab[0] == a[0] && ab[1..] == a[1..] + b;
      assert EncodeSeq(ab) == EncodeCp(a[0]) + EncodeSeq(a[1..] + b);
      EncodeSeqConcat(a[1..], b);
      assert EncodeSeq(a) == EncodeCp(a[0]) + EncodeSeq(a[1..]);
    } else {
      assert a + b == b;
    }
  }

  /** The lead byte of an encoding announces the encoding's length. */
  lemma LeadOfEncoding(cp: int)
    requires IsScalar(cp)
    ensures LeadLength(EncodeCp(cp)[0]) == |EncodeCp(cp)|
  {
    DecodeFirstOfEncoding(cp, []);
    assert EncodeCp(cp) + [] == EncodeCp(cp);
  }

  /** The code points of a well-formed byte string. */
  function Chars(bs: seq<byte>): (cps: seq<int>)
    requires Valid(bs)
    ensures forall i :: 0 <= i < |cps| ==> IsScalar(cps[i])
    ensures EncodeSeq(cps) == bs
  {
    EncodeDecode(bs);
    Decode(bs).value
  }

  /** utf8Length: the number of code points, 0 for an invalid string. */
  function Length(bs: seq<byte>): (n: nat)
    ensures bs == [] || !Valid(bs) ==> n == 0
  {
    if bs == [] || !Valid(bs) then 0 else |Chars(bs)|
  }

  /** Every step of utf8CharToByte: where the encoding of the first `k` code
      points ends, and what remains after it. */
  lemma PrefixEncoding(cps: seq<int>, k: nat)
    requires forall i :: 0 <= i < |cps| ==> IsScalar(cps[i])
    requires k <= |cps|
    ensures EncodeSeq(cps) == EncodeSeq(cps[..k]) + EncodeSeq(cps[k..])
  {
    assert cps == cps[..k] + cps[k..];
    EncodeSeqConcat(cps[..k], cps[k..]);
  }

  lemma PrefixEncodingStep(cps: seq<int>, k: nat)
    requires forall i :: 0 <= i < |cps| ==> IsScalar(cps[i])
    requires k < |cps|
    ensures EncodeSeq(cps[..k + 1]) == EncodeSeq(cps[..k]) + EncodeCp(cps[k])
  {
    assert cps[..k + 1] == cps[..k] + [cps[k]];
    EncodeSeqConcat(cps[..k], [cps[k]]);
    assert EncodeSeq([cps[k]]) == EncodeCp(cps[k]) + EncodeSeq([]);
  }

  /** At the start of a code point's encoding, the lead byte's mask gives
      the encoding's length, and stepping over it reaches the next one. */
  lemma CharToByteStep(str: seq<byte>, cps: seq<int>, c: nat, bytePos: nat)
    requires forall i :: 0 <= i < |cps| ==> IsScalar(cps[i])
    requires c < |cps| && EncodeSeq(cps) == str
    requires str == EncodeSeq(cps[..c]) + EncodeSeq(cps[c..])
    requires bytePos == |EncodeSeq(cps[..c])|
    ensures bytePos < |str| && MaskLength(str[bytePos]) == |EncodeCp(cps[c])|
    ensures str == EncodeSeq(cps[..c + 1]) + EncodeSeq(cps[c + 1..])
    ensures bytePos + MaskLength(str[bytePos]) == |EncodeSeq(cps[..c + 1])|
  {
    var e := EncodeCp(cps[c]);
    assert cps[c..][0] == cps[c] && cps[c..][1..] == cps[c + 1..];
    assert EncodeSeq(cps[c..]) == e + EncodeSeq(cps[c + 1..]);
    assert str[bytePos] == e[0];
    LeadOfEncoding(cps[c]);
    MasksAreRanges(str[bytePos]);
    PrefixEncodingStep(cps, c);
    PrefixEncoding(cps, c + 1);
  }

  /** utf8CharToByte: the byte offset at which code point `charPos` starts,
      `None` (the source's npos) for an empty or invalid string or a position
      past the end.  The position just past the last code point is the
      string's length. */
  method CharToByte(str: seq<byte>, charPos: nat) returns (r: Option<nat>)
    ensures str == [] || !Valid(str) ==> r == None
    ensures str != [] && Valid(str) ==>
      r == (if charPos <= |Chars(str)| then Some(|EncodeSeq(Chars(str)[..charPos])|) else None)
  {
    if str == [] || !Valid(str) {
      return None;
    }
    ghost var cps := Chars(str);
    var bytePos := 0;
    var currentChar := 0;
    while bytePos < |str| && currentChar < charPos
      invariant currentChar <= |cps| && currentChar <= charPos
      invariant str == EncodeSeq(cps[..currentChar]) + EncodeSeq(cps[currentChar..])
      invariant bytePos == |EncodeSeq(cps[..currentChar])|
      decreases charPos - currentChar
    {
      if currentChar == |cps| {
        assert false;
      }
      CharToByteStep(str, cps, currentChar, bytePos);
      var n := MaskLength(str[bytePos]);
      if n == 0 {
        assert false;
        return None;
      }
      bytePos := bytePos + n;
      currentChar := currentChar + 1;
    }
    if currentChar == charPos {
      r := Some(bytePos);
    } else {
      assert bytePos == |str|;
      assert currentChar == |cps|;
      r := None;
    }
  }

  /** The number of code points utf8Substr takes from `charPos` on: all that
      remain when `charLen` is npos (`None`) or reaches past the end. */
  function ClampedLength(total: nat, charPos: nat, charLen: Option<nat>): (n: nat)
    requires charPos < total
    ensures charPos + n <= total
    ensures charLen.Some? && charPos + charLen.value <= total ==> n == charLen.value
  {
    if charLen.None? || charPos + charLen.value > total then total - charPos else charLen.value
  }

  /** The encoding of a run of code points is the slice of the whole
      encoding between the offsets where the run starts and ends. */
  lemma SliceOfEncoding(cps: seq<int>, a: nat, b: nat)
    requires forall i :: 0 <= i < |cps| ==> IsScalar(cps[i])
    requires a <= b <= |cps|
    ensures |EncodeSeq(cps[..a])| <= |EncodeSeq(cps[..b])| <= |EncodeSeq(cps)|
    ensures EncodeSeq(cps)[|EncodeSeq(cps[..a])|..|EncodeSeq(cps[..b])|] == EncodeSeq(cps[a..b])
  {
    PrefixEncoding(cps, b);
    var pre := cps[..b];
    PrefixEncoding(pre, a);
    assert pre[..a] == cps[..a];
    assert pre[a..] == cps[a..b];
  }

  /** utf8Substr: the bytes of the code points from `charPos` on, as many as
      ClampedLength allows (`None` for `charLen` stands for npos); `[]` for an
      empty or invalid string or a start past the end. */
  method Substr(str: seq<byte>, charPos: nat, charLen: Option<nat>) returns (r: seq<byte>)
    ensures str == [] || !Valid(str) || charPos >= Length(str) ==> r == []
    ensures str != [] && Valid(str) && charPos < Length(str) ==>
      r == EncodeSeq(Chars(str)[charPos..charPos + ClampedLength(Length(str), charPos, charLen)])
  {
    if str == [] || !Valid(str) {
      return [];
    }
    var totalChars := Length(str);
    if charPos >= totalChars {
      return [];
    }
    var len := ClampedLength(totalChars, charPos, charLen);
    ghost var cps := Chars(str);
    if len == 0 {
      assert cps[charPos..charPos + len] == [];
      return [];
    }
    var startByte := CharToByte(str, charPos);
    if startByte.None? {
      assert false;
      return [];
    }
    var endByte := CharToByte(str, charPos + len);
    var end := if endByte.None? then |str| else endByte.value;
    SliceOfEncoding(cps, charPos, charPos + len);
    r := str[startByte.value..end];
  }

  /** What utf8Substr returns is well formed and decodes to the chosen code
      points. */
  lemma SubstrDecodes(str: seq<byte>, charPos: nat, charLen: Option<nat>)
    requires str != [] && Valid(str) && charPos < Length(str)
    ensures Decode(EncodeSeq(Chars(str)[charPos..charPos + ClampedLength(Length(str), charPos, charLen)]))
            == Some(Chars(str)[charPos..charPos + ClampedLength(Length(str), charPos, charLen)])
  {
    DecodeEncode(Chars(str)[charPos..charPos + ClampedLength(Length(str), charPos, charLen)]);
  }

  /** utf8StartsWith: a byte-wise prefix test. */
  predicate StartsWith(str: seq<byte>, prefix: seq<byte>)
  {
    |str| >= |prefix| && str[..|prefix|] == prefix
  }

  /** utf8RemovePrefix: the rest after `prefix` when `str` starts with it,
      `str` itself otherwise. */
  function RemovePrefix(str: seq<byte>, prefix: seq<byte>): (r: seq<byte>)
    ensures StartsWith(str, prefix) ==> prefix + r == str
    ensures !StartsWith(str, prefix) ==> r == str
  {
    if StartsWith(str, prefix) then str[|prefix|..] else str
  }

  /** Removing a prefix undoes prepending it. */
  lemma RemovePrefixOfConcat(prefix: seq<byte>, rest: seq<byte>)
    ensures RemovePrefix(prefix + rest, prefix) == rest
  {
    assert (prefix + rest)[..|prefix|] == prefix;
  }

  /** A code point isValidAttributeName accepts: an ASCII letter or digit,
      `_`, or a CJK unified ideograph in U+4E00..U+9FFF. */
  predicate IsAttributeChar(ch: int)
  {
    ('a' as int <= ch <= 'z' as int) || ('A' as int <= ch <= 'Z' as int)
    || ('0' as int <= ch <= '9' as int) || (0x4E00 <= ch <= 0x9FFF) || ch == '_' as int
  }

  /** isValidAttributeName: a non-empty well-formed name all of whose code
      points are attribute characters. */
  method IsValidAttributeName(name: seq<byte>) returns (ok: bool)
    ensures ok <==> name != [] && Valid(name) &&
                    forall i :: 0 <= i < |Chars(name)| ==> IsAttributeChar(Chars(name)[i])
  {
    if name == [] || !Valid(name) {
      return false;
    }
    var u32 := Chars(name);
    var i := 0;
    while i < |u32|
      invariant 0 <= i <= |u32|
      invariant forall j :: 0 <= j < i ==> IsAttributeChar(u32[j])
    {
      var ch := u32[i];
      var isLetter := ('a' as int <= ch <= 'z' as int) || ('A' as int <= ch <= 'Z' as int);
      var isDigit := '0' as int <= ch <= '9' as int;
      var isChinese := 0x4E00 <= ch <= 0x9FFF;
      var isUnderscore := ch == '_' as int;
      if !isLetter && !isDigit && !isChinese && !isUnderscore {
        return false;
      }
      i := i + 1;
    }
    return true;
  }

  lemma {:induction false} EncodeStrConcat(a: string, b: string)
    ensures EncodeStr(a + b) == EncodeStr(a) + EncodeStr(b)
  {
    if a != [] {
      assert (a + b)[1..] == a[1..] + b;
      EncodeStrConcat(a[1..], b);
    } else {
      assert a + b == b;
    }
  }

  /** A character of the Basic Multilingual Plane above U+07FF: three bytes. */
  predicate ThreeByte(s: string)
  {
    forall i :: 0 <= i < |s| ==> 0x800 <= s[i] as int < 0x10000
  }

  lemma {:induction false} ThreeByteLength(s: string)
    requires ThreeByte(s)
    ensures |EncodeStr(s)| == 3 * |s|
  {
    if s != [] {
      ThreeByteLength(s[1..]);
    }
  }

  /** The byte counts command_processor.cpp strips for its keyword prefixes
      are the UTF-8 lengths of those keywords, so stripping the bytes of a
      keyword strips its characters. */
  lemma KeywordBytes(kw: string, rest: string)
    requires ThreeByte(kw)
    ensures |EncodeStr(kw + rest)| == 3 * |kw| + |EncodeStr(rest)|
    ensures EncodeStr(kw + rest)[3 * |kw|..] == EncodeStr(rest)
    ensures RemovePrefix(EncodeStr(kw + rest), EncodeStr(kw)) == EncodeStr(rest)
  {
    EncodeStrConcat(kw, rest);
    ThreeByteLength(kw);
    RemovePrefixOfConcat(EncodeStr(kw), EncodeStr(rest));
  }

  lemma KeywordLengths()
    ensures |EncodeStr("自动成功")| == 12
    ensures |EncodeStr("困难")| == 6 && |EncodeStr("极难")| == 6 && |EncodeStr("极限")| == 6
  {
    ThreeByteLength("自动成功");
    ThreeByteLength("困难");
    ThreeByteLength("极难");
    ThreeByteLength("极限");
  }
}
