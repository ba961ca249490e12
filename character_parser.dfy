/** Attribute names on character cards: the alias table, name
    normalisation (native and TypeScript), and the `.st` parsers of the
    native module. */
module CharacterParser {
  import opened Wrappers
  import opened Text
  import JsValues

  /** `ATTRIBUTE_ALIASES.find(key)`: the canonical name a lower-case key
      stands for, `None` for a name the table does not know.  The
      TypeScript copy of the table holds the same pairs. */
  function Alias(key: string): Option<string>
  {
    match key
    case "str" | "力量" | "strength" => Some("力量")
    case "con" | "体质" | "constitution" => Some("体质")
    case "siz" | "体型" | "size" => Some("体型")
    case "dex" | "敏捷" | "dexterity" => Some("敏捷")
    case "app" | "外貌" | "appearance" => Some("外貌")
    case "int" | "智力" | "intelligence" => Some("智力")
    case "pow" | "意志" | "power" => Some("意志")
    case "edu" | "教育" | "education" => Some("教育")
    case "luck" | "幸运" | "luk" => Some("幸运")
    case "san" | "理智" | "sanity" => Some("理智")
    case "hp" | "生命" | "生命值" => Some("生命")
    case "mp" | "魔法" | "魔法值" => Some("魔法")
    case "db" | "伤害加值" | "伤害奖励" => Some("伤害加值")
    case "mov" | "移动力" | "move" => Some("移动力")
    case _ => None
  }

  /** The canonical attribute names: the table's values. */
  predicate IsCanonical(v: string)
  {
    v in {"力量", "体质", "体型", "敏捷", "外貌", "智力", "意志", "教育",
          "幸运", "理智", "生命", "魔法", "伤害加值", "移动力"}
  }

  predicate NonAscii(s: string)
  {
    forall k :: 0 <= k < |s| ==> s[k] as int >= 0x80
  }

  /** Non-empty and made of CJK ideographs only, so free of ASCII and of
      every white-space character of C and JavaScript. */
  predicate Ideographic(s: string)
  {
    s != [] && forall k :: 0 <= k < |s| ==> '\U{4E00}' <= s[k] <= '\U{9FFF}'
  }

  /** Every value of the table is canonical. */
  lemma AliasValues(k: string)
    ensures Alias(k).Some? ==> IsCanonical(Alias(k).value)
  {
  }

  /** The characteristics map to themselves. */
  lemma SelfAliasBody(v: string)
    requires v in {"力量", "体质", "体型", "敏捷", "外貌", "智力", "意志"}
    ensures Alias(v) == Some(v) && Ideographic(v)
  {
  }

  /** So do the derived attributes and the rest. */
  lemma SelfAliasDerived(v: string)
    requires v in {"教育", "幸运", "理智", "生命", "魔法", "伤害加值", "移动力"}
    ensures Alias(v) == Some(v) && Ideographic(v)
  {
  }

  /** Every value of the table is canonical, and every canonical name is an
      ideographic key that maps to itself. */
  lemma CanonicalsAreFixed()
    ensures forall k :: Alias(k).Some? ==> IsCanonical(Alias(k).value)
    ensures forall v :: IsCanonical(v) ==> Alias(v) == Some(v) && Ideographic(v)
  {
    forall k
      ensures Alias(k).Some? ==> IsCanonical(Alias(k).value)
    {
      AliasValues(k);
    }
    forall v | IsCanonical(v)
      ensures Alias(v) == Some(v) && Ideographic(v)
    {
      if v in {"力量", "体质", "体型", "敏捷", "外貌", "智力", "意志"} {
        SelfAliasBody(v);
      } else {
        SelfAliasDerived(v);
      }
    }
  }

  /** Only plain Latin letters change case, so a name without ASCII
      characters is its own lower-case form. */
  lemma LowerNonAscii(s: string)
    requires NonAscii(s)
    ensures ToLowerAscii(s) == s
  {
  }

  // ---------------------------------------------------------------------
  // Native normalisation

  /** `remove_if(..., isspace)`: the characters that are not white space. */
  function RemoveSpaces(s: string): (r: string)
    ensures forall k :: 0 <= k < |r| ==> !IsCSpace(r[k])
    ensures (forall k :: 0 <= k < |s| ==> !IsCSpace(s[k])) ==> r == s
  {
    if s == [] then []
    else (if IsCSpace(s[0]) then [] else [s[0]]) + RemoveSpaces(s[1..])
  }

  /** The lookup key: lower-cased (ASCII only) with white space removed. */
  function NativeKey(name: string): string
  {
    RemoveSpaces(ToLowerAscii(name))
  }

  /** `normalizeAttributeName` of the native module: the table entry for
      the key, or the name exactly as given. */
  function Normalize(name: string): string
  {
    match Alias(NativeKey(name))
    case Some(v) => v
    case None => name
  }

  /** The result is a canonical name or the input itself. */
  lemma NormalizeRange(name: string)
    ensures IsCanonical(Normalize(name)) || Normalize(name) == name
  {
    CanonicalsAreFixed();
  }

  /** An ideographic name is its own native key. */
  lemma NativeKeyOfIdeographic(v: string)
    requires Ideographic(v)
    ensures NativeKey(v) == v
  {
    LowerNonAscii(v);
    assert forall k :: 0 <= k < |v| ==> !IsCSpace(v[k]);
  }

  /** Normalising twice is normalising once. */
  lemma NormalizeIdempotent(name: string)
    ensures Normalize(Normalize(name)) == Normalize(name)
  {
    var r := Normalize(name);
    NormalizeRange(name);
    if IsCanonical(r) {
      NativeKeyOfIdeographic(r);
      CanonicalsAreFixed();
    }
  }

  /** Names that differ only in ASCII case or white space normalise alike
      once one of them is known to the table. */
  lemma NormalizeIgnoresCaseAndSpaces(a: string, b: string)
    requires NativeKey(a) == NativeKey(b) && Alias(NativeKey(a)).Some?
    ensures Normalize(a) == Normalize(b) && IsCanonical(Normalize(a))
  {
    CanonicalsAreFixed();
    assert Normalize(a) == Alias(NativeKey(a)).value;
  }

  /** An upper-case abbreviation finds its group. */
  lemma NormalizeAbbreviation()
    ensures Normalize("STR") == "力量"
  {
    assert ToLowerAscii("STR") == "str";
    assert Alias("str") == Some("力量");
  }

  /** A capitalised key finds its group. */
  lemma NormalizeCapitalised()
    ensures Normalize("Luck") == "幸运"
  {
    assert ToLowerAscii("Luck") == "luck";
    assert Alias("luck") == Some("幸运");
  }

  /** A name in Chinese that the table does not know, such as
      `克苏鲁神话`, comes back exactly as given. */
  lemma NormalizeUnknown(name: string)
    requires Ideographic(name) && Alias(name).None?
    ensures Normalize(name) == name
  {
    NativeKeyOfIdeographic(name);
  }

  // ---------------------------------------------------------------------
  // TypeScript normalisation

  /** What `ATTRIBUTE_ALIASES[lower] || name` can evaluate to: a string, or
      a member inherited from `Object.prototype` (a function or an object,
      both truthy). */
  datatype PropertyRead = Name(s: string) | Inherited(member: string)

  function TsKey(name: string): string
  {
    TrimJs(ToLowerAscii(name))
  }

  /** `normalizeAttributeName` of the TypeScript side as written: the
      object lookup also finds inherited members. */
  function NormalizeTsAsWritten(name: string): (r: PropertyRead)
    ensures r.Inherited? <==> Alias(TsKey(name)).None? && TsKey(name) in JsValues.ObjectPrototypeMembers
  {
    var key := TsKey(name);
    match Alias(key)
    case Some(v) => Name(v)
    case None => if key in JsValues.ObjectPrototypeMembers then Inherited(key) else Name(name)
  }

  /** `constructor` is not a key of the table. */
  lemma ConstructorNotAKey()
    ensures Alias("constructor") == None
  {
  }

  /** `constructor` has no upper-case letters. */
  lemma ConstructorIsLowerCase()
    ensures ToLowerAscii("constructor") == "constructor"
  {
    ToLowerAsciiNoUpper("constructor");
  }

  /** `constructor` has no white space at its ends. */
  lemma ConstructorIsTrimmed()
    ensures TrimJs("constructor") == "constructor"
  {
    TrimUnchanged("constructor", IsJsSpace);
  }

  /** `.constructor` is found on every object, so the name `constructor`
      normalises to the `Object` function instead of a string. */
  lemma ConstructorIsNotAName()
    ensures NormalizeTsAsWritten("constructor") == Inherited("constructor")
  {
    ConstructorNotAKey();
    ConstructorIsLowerCase();
    ConstructorIsTrimmed();
  }

  /** The lookup restricted to the table's own keys: always a string. */
  function NormalizeTs(name: string): string
  {
    match Alias(TsKey(name))
    case Some(v) => v
    case None => name
  }

  /** The corrected lookup agrees with the written one wherever that one
      yields a string, and always yields a canonical name or the input. */
  lemma NormalizeTsSpec(name: string)
    ensures IsCanonical(NormalizeTs(name)) || NormalizeTs(name) == name
    ensures NormalizeTsAsWritten(name).Name? ==> NormalizeTsAsWritten(name) == Name(NormalizeTs(name))
  {
    CanonicalsAreFixed();
  }

  /** An ideographic name is its own TypeScript key. */
  lemma TsKeyOfIdeographic(v: string)
    requires Ideographic(v)
    ensures TsKey(v) == v
  {
    LowerNonAscii(v);
    TrimUnchanged(v, IsJsSpace);
  }

  /** The TypeScript lookup is idempotent too. */
  lemma NormalizeTsIdempotent(name: string)
    ensures NormalizeTs(NormalizeTs(name)) == NormalizeTs(name)
  {
    var r := NormalizeTs(name);
    NormalizeTsSpec(name);
    if IsCanonical(r) {
      CanonicalsAreFixed();
      TsKeyOfIdeographic(r);
    }
  }

  /** The two sides agree on names without white space: both find the
      table entry of the lower-cased name. */
  lemma NativeAndTsAgree(name: string)
    requires forall k :: 0 <= k < |name| ==> !IsCSpace(name[k]) && !IsJsSpace(name[k])
    ensures Normalize(name) == NormalizeTs(name)
  {
    var lower := ToLowerAscii(name);
    assert forall k :: 0 <= k < |lower| ==> !IsJsSpace(lower[k]) && !IsCSpace(lower[k]);
    if lower != [] {
      TrimUnchanged(lower, IsJsSpace);
    }
  }

  // ---------------------------------------------------------------------
  // `.st` parsing

  /** `.` in the native regex engine stops at these. */
  predicate NoLineBreak(s: string)
  {
    forall k :: 0 <= k < |s| ==> s[k] != '\n' && s[k] != '\r'
  }

  predicate DashesAt(s: string, k: nat)
  {
    k + 2 <= |s| && s[k] == '-' && s[k + 1] == '-'
  }

  /** The first `k >= from` with `--` at `k` and something after it. */
  function FirstSplit(s: string, from: nat): (r: Option<nat>)
    decreases |s| - from
    ensures r.Some? ==> from <= r.value && DashesAt(s, r.value) && r.value + 2 < |s|
    ensures r.Some? ==> forall k :: from <= k < r.value ==> !(DashesAt(s, k) && k + 2 < |s|)
    ensures r.None? ==> forall k :: from <= k ==> !(DashesAt(s, k) && k + 2 < |s|)
  {
    if from + 2 >= |s| then None
    else if DashesAt(s, from) then Some(from)
    else FirstSplit(s, from + 1)
  }

  /** `^(.+?)--(.+)$`: the shortest non-empty card name in front of `--`,
      with a non-empty rest, on a single line. */
  function CardSplit(text: string): (r: Option<(string, string)>)
    ensures r.Some? ==> NoLineBreak(text) && r.value.0 != [] && r.value.1 != []
    ensures r.Some? ==> text == r.value.0 + "--" + r.value.1
  {
    if !NoLineBreak(text) then None
    else
      match FirstSplit(text, 1)
      case None => None
      case Some(k) =>
        assert text == text[..k] + "--" + text[k + 2..] by {
          assert text[k..k + 2] == "--";
          assert text == text[..k] + text[k..k + 2] + text[k + 2..];
        }
        Some((text[..k], text[k + 2..]))
  }

  /** `name--rest` splits back into `name` and `rest` when `name` holds no
      `--` of its own and does not end in `-`. */
  lemma CardSplitRoundTrip(name: string, rest: string)
    requires name != [] && rest != []
    requires NoLineBreak(name) && NoLineBreak(rest)
    requires forall k :: 0 <= k < |name| - 1 ==> !(name[k] == '-' && name[k + 1] == '-')
    requires name[|name| - 1] != '-'
    ensures CardSplit(name + "--" + rest) == Some((name, rest))
  {
    var s := name + "--" + rest;
    assert NoLineBreak(s) by {
      assert forall k :: 0 <= k < |s| ==> s[k] in name || s[k] == '-' || s[k] in rest;
    }
    assert DashesAt(s, |name|);
    assert forall k :: 1 <= k < |name| ==> !DashesAt(s, k);
    assert s[..|name|] == name;
    assert s[|name| + 2..] == rest;
  }

  /** `(cardName, text)` after the optional card prefix has been taken off
      the trimmed input; an empty card name means there was none. */
  function SplitCardName(input: string): (string, string)
  {
    var text := TrimC(input);
    match CardSplit(text)
    case Some((card, rest)) => (TrimC(card), TrimC(rest))
    case None => ("", text)
  }

  /** The card name, present only when it is not empty. */
  function CardNameOf(input: string): Option<string>
  {
    var card := SplitCardName(input).0;
    if card == [] then None else Some(card)
  }

  /** The white-space separated tokens after the card prefix. */
  function Tokens(input: string): seq<string>
  {
    Words(SplitCardName(input).1, IsCSpace)
  }

  /** The attribute-name filter: every character is non-ASCII (part of a
      multi-byte UTF-8 sequence), an ASCII letter, or white space. */
  predicate ValidAttrName(a: string)
  {
    a != [] && forall k :: 0 <= k < |a| ==> a[k] as int >= 0x80 || IsAsciiAlpha(a[k]) || IsCSpace(a[k])
  }

  datatype AttributeOperation = AttributeOperation(attr: string, op: string, value: int)

  /** The operation a name/value pair yields, if any. */
  function PairOp(attrName: string, valueText: string): Option<AttributeOperation>
  {
    if !ValidAttrName(attrName) then None
    else
      match Stoi(valueText)
      case Ok(v) => Some(AttributeOperation(Normalize(attrName), "set", v))
      case Err(_) => None
  }

  /** The results of `f` on the first `m` name/value pairs of `parts`,
      skipping the pairs it rejects. */
  function Pairwise<T>(f: (string, string) -> Option<T>, parts: seq<string>, m: nat): seq<T>
    requires 2 * m <= |parts|
  {
    if m == 0 then [] else Pairwise(f, parts, m - 1) + OptionList(f(parts[2 * m - 2], parts[2 * m - 1]))
  }

  function OptionList<T>(o: Option<T>): seq<T>
  {
    if o.Some? then [o.value] else []
  }

  /** The number of complete name/value pairs. */
  function PairCount(parts: seq<string>): (m: nat)
    ensures 2 * m <= |parts| < 2 * m + 2
  {
    |parts| / 2
  }

  /** The operations of all complete pairs of tokens. */
  function PairOps(parts: seq<string>): seq<AttributeOperation>
  {
    Pairwise(PairOp, parts, PairCount(parts))
  }

  /** The pair count is the one `m` with `2 * m <= |parts| < 2 * m + 2`. */
  lemma PairCountUnique(parts: seq<string>, m: nat)
    requires 2 * m <= |parts| < 2 * m + 2
    ensures PairCount(parts) == m
  {
  }

  /** One more pair appends that pair's result, if it has one. */
  lemma PairwiseStep<T>(f: (string, string) -> Option<T>, parts: seq<string>, m: nat)
    requires 2 * m + 2 <= |parts|
    ensures Pairwise(f, parts, m + 1) == Pairwise(f, parts, m) + OptionList(f(parts[2 * m], parts[2 * m + 1]))
  {
  }

  /** `PairwiseStep` for the pair operation, given its value `op`. */
  lemma PairOpsStep(parts: seq<string>, m: nat, op: Option<AttributeOperation>)
    requires 2 * m + 2 <= |parts| && op == PairOp(parts[2 * m], parts[2 * m + 1])
    ensures Pairwise(PairOp, parts, m + 1) == Pairwise(PairOp, parts, m) + OptionList(op)
  {
    PairwiseStep(PairOp, parts, m);
  }

  /** What a pair's operation holds: a `set` of the normalised name to
      the value `std::stoi` read, for a name that passed the validation. */
  lemma PairOpMeaning(attrName: string, valueText: string)
    ensures PairOp(attrName, valueText).Some? <==> ValidAttrName(attrName) && Stoi(valueText).Ok?
    ensures PairOp(attrName, valueText).Some? ==>
      PairOp(attrName, valueText).value
        == AttributeOperation(Normalize(attrName), "set", Stoi(valueText).value)
  {
  }

  /** `x` is what `f` gives for one of the first `m` pairs. */
  predicate PairSource<T(==)>(f: (string, string) -> Option<T>, parts: seq<string>, m: nat, x: T)
    requires 2 * m <= |parts|
  {
    exists j :: 0 <= j < m && f(parts[2 * j], parts[2 * j + 1]) == Some(x)
  }

  /** Every result comes from one pair, at most one per pair. */
  lemma {:induction false} PairwiseSound<T>(f: (string, string) -> Option<T>, parts: seq<string>, m: nat)
    requires 2 * m <= |parts|
    ensures |Pairwise(f, parts, m)| <= m
    ensures forall x :: x in Pairwise(f, parts, m) ==> PairSource(f, parts, m, x)
  {
    if m > 0 {
      PairwiseSound(f, parts, m - 1);
      forall x | x in Pairwise(f, parts, m)
        ensures PairSource(f, parts, m, x)
      {
        if x in Pairwise(f, parts, m - 1) {
          var j :| 0 <= j < m - 1 && f(parts[2 * j], parts[2 * j + 1]) == Some(x);
          assert 0 <= j < m;
        } else {
          assert f(parts[2 * (m - 1)], parts[2 * (m - 1) + 1]) == Some(x);
        }
      }
    }
  }

  /** Every pair whose result is defined contributes it. */
  lemma {:induction false} PairwiseComplete<T>(f: (string, string) -> Option<T>, parts: seq<string>, m: nat, j: nat)
    requires 2 * m <= |parts| && j < m && f(parts[2 * j], parts[2 * j + 1]).Some?
    ensures f(parts[2 * j], parts[2 * j + 1]).value in Pairwise(f, parts, m)
  {
    if j < m - 1 {
      PairwiseComplete(f, parts, m - 1, j);
    }
  }

  /** The results depend only on the tokens they read. */
  lemma {:induction false} PairwisePrefix<T>(f: (string, string) -> Option<T>, p: seq<string>, q: seq<string>, m: nat)
    requires 2 * m <= |p| && 2 * m <= |q| && p[..2 * m] == q[..2 * m]
    ensures Pairwise(f, p, m) == Pairwise(f, q, m)
  {
    if m > 0 {
      assert p[..2 * m - 2] == q[..2 * m - 2] by {
        assert p[..2 * m - 2] == p[..2 * m][..2 * m - 2];
        assert q[..2 * m - 2] == q[..2 * m][..2 * m - 2];
      }
      PairwisePrefix(f, p, q, m - 1);
      assert p[2 * m - 2] == p[..2 * m][2 * m - 2] && q[2 * m - 2] == q[..2 * m][2 * m - 2];
      assert p[2 * m - 1] == p[..2 * m][2 * m - 1] && q[2 * m - 1] == q[..2 * m][2 * m - 1];
    }
  }

  /** Every operation of a `.st` command comes from one name/value pair:
      at most one per pair, each a `set` of a checked, normalised name to
      the value `std::stoi` read; and every pair that passes both checks
      contributes. */
  lemma PairOpsSpec(parts: seq<string>)
    ensures |PairOps(parts)| <= |parts| / 2
    ensures forall op :: op in PairOps(parts) ==>
      (exists a, v :: PairOp(a, v) == Some(op) && ValidAttrName(a) && op == AttributeOperation(Normalize(a), "set", Stoi(v).value))
    ensures forall j :: 0 <= j < |parts| / 2 && ValidAttrName(parts[2 * j]) && Stoi(parts[2 * j + 1]).Ok? ==>
      AttributeOperation(Normalize(parts[2 * j]), "set", Stoi(parts[2 * j + 1]).value) in PairOps(parts)
  {
    var m := PairCount(parts);
    PairwiseSound(PairOp, parts, m);
    forall op | op in PairOps(parts)
      ensures exists a, v :: PairOp(a, v) == Some(op) && ValidAttrName(a) && op == AttributeOperation(Normalize(a), "set", Stoi(v).value)
    {
      assert PairSource(PairOp, parts, m, op);
      var j :| 0 <= j < m && PairOp(parts[2 * j], parts[2 * j + 1]) == Some(op);
      PairOpMeaning(parts[2 * j], parts[2 * j + 1]);
    }
    forall j | 0 <= j < |parts| / 2 && ValidAttrName(parts[2 * j]) && Stoi(parts[2 * j + 1]).Ok?
      ensures AttributeOperation(Normalize(parts[2 * j]), "set", Stoi(parts[2 * j + 1]).value) in PairOps(parts)
    {
      PairOpMeaning(parts[2 * j], parts[2 * j + 1]);
      PairwiseComplete(PairOp, parts, m, j);
    }
  }

  /** A trailing name without a value is ignored. */
  lemma OddTokenIgnored(parts: seq<string>, extra: string)
    requires |parts| % 2 == 0
    ensures PairOps(parts + [extra]) == PairOps(parts)
  {
    var m := PairCount(parts);
    PairCountUnique(parts + [extra], m);
    assert (parts + [extra])[..2 * m] == parts[..2 * m];
    PairwisePrefix(PairOp, parts + [extra], parts, m);
  }

  /** The attribute-name check of `parseStCommand`, character by character. */
  method CheckAttrName(attrName: string) returns (valid: bool)
    ensures valid <==> ValidAttrName(attrName)
  {
    valid := true;
    var k := 0;
    while k < |attrName|
      invariant 0 <= k <= |attrName|
      invariant valid
      invariant forall m :: 0 <= m < k ==>
        attrName[m] as int >= 0x80 || IsAsciiAlpha(attrName[m]) || IsCSpace(attrName[m])
    {
      var c := attrName[k];
      if c as int >= 0x80 {
      } else if IsAsciiAlpha(c) {
      } else if !IsCSpace(c) {
        valid := false;
        break;
      }
      k := k + 1;
    }
    valid := valid && attrName != [];
  }

  /** One iteration of the pairing loop: the name check, then `std::stoi`
      on the value, with an exception meaning "skip this pair". */
  method ParsePair(attrName: string, valueText: string) returns (op: Option<AttributeOperation>)
    ensures op == PairOp(attrName, valueText)
  {
    var valid := CheckAttrName(attrName);
    if !valid {
      return None;
    }
    var parsed := Stoi(valueText);
    if parsed.Err? {
      return None;
    }
    op := Some(AttributeOperation(Normalize(attrName), "set", parsed.value));
  }

  /** One turn of the pairing loop: the operations so far, extended by
      pair `m`. */
  method ParseNextPair(parts: seq<string>, i: nat, ghost m: nat, operations: seq<AttributeOperation>)
    returns (next: seq<AttributeOperation>)
    requires i == 2 * m && i + 2 <= |parts| && operations == Pairwise(PairOp, parts, m)
    ensures next == Pairwise(PairOp, parts, m + 1)
  {
    var op := ParsePair(parts[i], parts[i + 1]);
    PairOpsStep(parts, m, op);
    next := operations + OptionList(op);
  }

  /** The pairing loop of `parseStCommand`. */
  method ParsePairs(parts: seq<string>) returns (operations: seq<AttributeOperation>)
    ensures operations == PairOps(parts)
  {
    operations := [];
    var i := 0;
    ghost var m := 0;
    while i + 1 < |parts|
      invariant i == 2 * m && 2 * m <= |parts|
      invariant operations == Pairwise(PairOp, parts, m)
    {
      operations := ParseNextPair(parts, i, m, operations);
      i := i + 2;
      m := m + 1;
    }
    PairCountUnique(parts, m);
  }

  /** `parseStCommand`. */
  method ParseStCommand(input: string) returns (cardName: Option<string>, operations: seq<AttributeOperation>)
    ensures cardName == CardNameOf(input)
    ensures operations == PairOps(Tokens(input))
  {
    operations := ParsePairs(Tokens(input));
    cardName := CardNameOf(input);
  }

  /** `f` applied to every token, in order. */
  function MapTokens<T>(f: string -> T, parts: seq<string>): (r: seq<T>)
    ensures |r| == |parts|
    ensures forall i :: 0 <= i < |parts| ==> r[i] == f(parts[i])
  {
    if parts == [] then [] else MapTokens(f, parts[..|parts| - 1]) + [f(parts[|parts| - 1])]
  }

  /** The normalising loop of `parseAttributeList`. */
  method NormalizeAll(parts: seq<string>) returns (attributes: seq<string>)
    ensures attributes == MapTokens(Normalize, parts)
  {
    attributes := [];
    var i := 0;
    while i < |parts|
      invariant 0 <= i <= |parts|
      invariant attributes == MapTokens(Normalize, parts[..i])
    {
      assert parts[..i + 1][..i] == parts[..i];
      attributes := attributes + [Normalize(parts[i])];
      i := i + 1;
    }
    assert parts[..i] == parts;
  }

  /** `parseAttributeList`: every token, normalised. */
  method ParseAttributeList(input: string) returns (cardName: Option<string>, attributes: seq<string>)
    ensures cardName == CardNameOf(input)
    ensures attributes == MapTokens(Normalize, Tokens(input))
  {
    attributes := NormalizeAll(Tokens(input));
    cardName := CardNameOf(input);
  }

  /** Each attribute of a list is a canonical name or its token as given. */
  lemma AttributeListRange(input: string)
    ensures forall i :: 0 <= i < |Tokens(input)| ==>
      IsCanonical(MapTokens(Normalize, Tokens(input))[i])
      || MapTokens(Normalize, Tokens(input))[i] == Tokens(input)[i]
  {
    forall i | 0 <= i < |Tokens(input)|
      ensures IsCanonical(MapTokens(Normalize, Tokens(input))[i])
        || MapTokens(Normalize, Tokens(input))[i] == Tokens(input)[i]
    {
      NormalizeRange(Tokens(input)[i]);
    }
  }
}
