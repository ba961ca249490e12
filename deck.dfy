/** Weighted card decks: parsing `::weight::content` items, expanding each item
    into `weight` copies, clamping the number of cards to draw, and the
    Fisher–Yates shuffle over the expanded deck.  The deck tables, the nested
    deck resolver (`CardDeck::draw`) and the secure random source are inputs. */
module Deck {
  import opened Wrappers
  import opened Text
  import Utf8

  datatype DeckItem = DeckItem(content: string, weight: int)

  predicate OccursAt(s: string, pat: string, k: nat) {
    k + |pat| <= |s| && s[k..k + |pat|] == pat
  }

  /** `s.find(pat, from)`: the first occurrence of `pat` starting at or after `from`. */
  function Find(s: string, pat: string, from: nat): (r: Option<nat>)
    requires pat != []
    ensures r.Some? ==> from <= r.value && OccursAt(s, pat, r.value)
    ensures r.Some? ==> forall k :: from <= k < r.value ==> !OccursAt(s, pat, k)
    ensures r.None? ==> forall k :: from <= k ==> !OccursAt(s, pat, k)
    decreases |s| - from
  {
    if from + |pat| > |s| then None
    else if s[from..from + |pat|] == pat then Some(from)
    else Find(s, pat, from + 1)
  }

  /** One deck entry: weight 1 and the whole string, unless the string holds
      `::w::` where `w`, resolved by `draw`, is at most six bytes long in
      UTF-8 and reads as a positive `int`; then the weight is `w` and the content is
      what follows the second `::`. */
  function ParseItem(str: string, draw: string -> string): (item: DeckItem)
    ensures item.weight >= 1
    ensures |item.content| <= |str| && item.content == str[|str| - |item.content|..]
    ensures item.weight != 1 ==> item.content != str
  {
    match Find(str, "::", 0)
    case None => DeckItem(str, 1)
    case Some(l) =>
      match Find(str, "::", l + 2)
      case None => DeckItem(str, 1)
      case Some(r) =>
        var resolved := draw(str[l + 2..r]);
        if |Utf8.EncodeStr(resolved)| <= 6 then
          match Stoi(resolved)
          case Ok(w) => if w > 0 then DeckItem(str[r + 2..], w) else DeckItem(str, 1)
          case Err(_) => DeckItem(str, 1)
        else DeckItem(str, 1)
  }

  /** A string without `::` is one card of weight 1. */
  lemma ParseItemPlain(str: string, draw: string -> string)
    requires forall k :: !OccursAt(str, "::", k)
    ensures ParseItem(str, draw) == DeckItem(str, 1)
  {
    assert Find(str, "::", 0).None?;
  }

  function Pow10(k: nat): (p: nat)
    ensures p >= 1
  {
    if k == 0 then 1 else 10 * Pow10(k - 1)
  }

  lemma {:induction false} NatToStringShort(n: nat, k: nat)
    requires 1 <= k && n < Pow10(k)
    ensures |NatToString(n)| <= k
    decreases n
  {
    if n >= 10 {
      assert n / 10 < Pow10(k - 1);
      NatToStringShort(n / 10, k - 1);
    }
  }

  /** Round trip: an item written as `::w::rest`, with a weight the resolver
      leaves as it is, parses back to weight `w` and content `rest`. */
  lemma ParseWeightedItem(w: nat, rest: string, draw: string -> string)
    requires 1 <= w <= 999999
    requires draw(NatToString(w)) == NatToString(w)
    ensures ParseItem("::" + NatToString(w) + "::" + rest, draw) == DeckItem(rest, w)
  {
    var d := NatToString(w);
    var s := "::" + d + "::" + rest;
    assert OccursAt(s, "::", 0);
    FindAfterPlain(d, rest);
    WeightedSlices(d, rest);
    assert Pow10(6) == 1000000;
    NatToStringShort(w, 6);
    AsciiByteLength(d);
    StoiOfRendering(w);
    ParseMarkedItem(s, draw, 0, 2 + |d|, w);
  }

  /** Digits take one byte each. */
  lemma {:induction false} AsciiByteLength(d: string)
    requires AllDigits(d)
    ensures |Utf8.EncodeStr(d)| == |d|
  {
    if d != [] {
      assert AllDigits(d[1..]) by {
        assert forall k :: 0 <= k < |d| - 1 ==> d[1..][k] == d[k + 1];
      }
      AsciiByteLength(d[1..]);
    }
  }

  /** Every character takes at least one byte. */
  lemma {:induction false} ByteLengthAtLeast(s: string)
    ensures |Utf8.EncodeStr(s)| >= |s|
  {
    if s != [] {
      ByteLengthAtLeast(s[1..]);
    }
  }

  /** A weight text without `:` ends at the next `::`. */
  lemma FindAfterPlain(d: string, rest: string)
    requires forall k :: 0 <= k < |d| ==> d[k] != ':'
    ensures Find("::" + d + "::" + rest, "::", 2) == Some(2 + |d|)
  {
    var s := "::" + d + "::" + rest;
    forall k | 2 <= k < 2 + |d|
      ensures !OccursAt(s, "::", k)
    {
      assert s[k] == d[k - 2];
    }
    assert OccursAt(s, "::", 2 + |d|);
  }

  lemma WideWeightBytes()
    ensures |Utf8.EncodeStr("1234中")| == 7
  {
    assert "1234中"[1..] == "234中" && "234中"[1..] == "34中" && "34中"[1..] == "4中" && "4中"[1..] == "中";
    assert "中"[1..] == [];
  }

  /** The six-character limit is on bytes: `1234中` has five characters but
      seven bytes, so `::1234中::x` stays one card of weight 1 even when the
      resolver leaves the weight as it is. */
  lemma WideWeightRefused(draw: string -> string)
    requires draw("1234中") == "1234中"
    ensures ParseItem("::" + "1234中" + "::" + "x", draw) == DeckItem("::" + "1234中" + "::" + "x", 1)
  {
    var d := "1234中";
    var s := "::" + d + "::" + "x";
    assert OccursAt(s, "::", 0);
    FindAfterPlain(d, "x");
    WeightedSlices(d, "x");
    WideWeightBytes();
  }

  lemma WeightedSlices(d: string, rest: string)
    ensures ("::" + d + "::" + rest)[2..2 + |d|] == d
    ensures ("::" + d + "::" + rest)[2 + |d| + 2..] == rest
  {
  }

  /** A marked weight that resolves to a positive number of at most six
      characters gives that weight and the text after the second marker. */
  lemma ParseMarkedItem(str: string, draw: string -> string, l: nat, r: nat, w: int)
    requires Find(str, "::", 0) == Some(l) && Find(str, "::", l + 2) == Some(r)
    requires |Utf8.EncodeStr(draw(str[l + 2..r]))| <= 6 && Stoi(draw(str[l + 2..r])) == Ok(w) && w > 0
    ensures ParseItem(str, draw) == DeckItem(str[r + 2..], w)
  {
  }

  /** A marked weight that is zero or negative keeps the whole string at weight 1. */
  lemma ParseNonPositiveWeight(str: string, draw: string -> string, l: nat, r: nat)
    requires Find(str, "::", 0) == Some(l) && Find(str, "::", l + 2) == Some(r)
    requires Stoi(draw(str[l + 2..r])).Ok? && Stoi(draw(str[l + 2..r])).value <= 0
    ensures ParseItem(str, draw) == DeckItem(str, 1)
  {
  }

  /** `parseDeckItems`: one item per entry, in order. */
  method ParseDeckItems(deck: seq<string>, draw: string -> string) returns (items: seq<DeckItem>)
    ensures |items| == |deck|
    ensures forall i :: 0 <= i < |deck| ==> items[i] == ParseItem(deck[i], draw)
  {
    items := [];
    for k := 0 to |deck|
      invariant |items| == k
      invariant forall i :: 0 <= i < k ==> items[i] == ParseItem(deck[i], draw)
    {
      items := items + [ParseItem(deck[k], draw)];
    }
  }

  /** `n` copies of `x`; a weight below 1 gives none, as the C++ loop does. */
  function Repeat(x: string, n: int): (r: seq<string>)
    ensures |r| == if n <= 0 then 0 else n
    ensures forall k :: 0 <= k < |r| ==> r[k] == x
    decreases n
  {
    if n <= 0 then [] else Repeat(x, n - 1) + [x]
  }

  /** The expanded deck: every item repeated `weight` times, in item order. */
  function Expansion(items: seq<DeckItem>): (e: seq<string>)
  {
    if items == [] then []
    else Expansion(items[..|items| - 1]) + Repeat(items[|items| - 1].content, items[|items| - 1].weight)
  }

  function SumWeights(items: seq<DeckItem>): int
  {
    if items == [] then 0 else SumWeights(items[..|items| - 1]) + items[|items| - 1].weight
  }

  predicate AllWeighted(items: seq<DeckItem>) {
    forall i :: 0 <= i < |items| ==> items[i].weight >= 1
  }

  /** The expanded deck is as long as the sum of the weights. */
  lemma {:induction false} ExpansionLength(items: seq<DeckItem>)
    requires AllWeighted(items)
    ensures |Expansion(items)| == SumWeights(items)
  {
    if items != [] {
      ExpansionLength(items[..|items| - 1]);
    }
  }

  /** A card is in the expanded deck exactly when some item of positive weight carries it. */
  lemma {:induction false} ExpansionMembers(items: seq<DeckItem>, x: string)
    ensures x in Expansion(items) <==> exists i :: 0 <= i < |items| && items[i].content == x && items[i].weight >= 1
  {
    if items != [] {
      var init := items[..|items| - 1];
      var last := items[|items| - 1];
      ExpansionMembers(init, x);
      if x in Expansion(init) {
        var i :| 0 <= i < |init| && init[i].content == x && init[i].weight >= 1;
        assert items[i] == init[i];
      }
      if exists i :: 0 <= i < |items| && items[i].content == x && items[i].weight >= 1 {
        var i :| 0 <= i < |items| && items[i].content == x && items[i].weight >= 1;
        if i < |init| {
          assert init[i] == items[i];
        } else {
          assert Repeat(last.content, last.weight)[0] == x;
        }
      }
    }
  }

  /** Parsed entries all have positive weight, so a non-empty deck never expands to nothing. */
  lemma ExpansionNonEmpty(items: seq<DeckItem>)
    requires AllWeighted(items) && items != []
    ensures Expansion(items) != []
  {
    ExpansionMembers(items, items[0].content);
  }

  lemma ExpansionStep(items: seq<DeckItem>, k: nat)
    requires k < |items|
    ensures Expansion(items[..k + 1]) == Expansion(items[..k]) + Repeat(items[k].content, items[k].weight)
  {
    assert items[..k + 1][..k] == items[..k];
  }

  /** The nested loop of `shuffleDeck` that builds `expandedDeck`. */
  method ExpandDeck(items: seq<DeckItem>) returns (expanded: seq<string>)
    ensures expanded == Expansion(items)
  {
    expanded := [];
    for k := 0 to |items|
      invariant expanded == Expansion(items[..k])
    {
      var i := 0;
      while i < items[k].weight
        invariant 0 <= i && (items[k].weight >= 0 ==> i <= items[k].weight)
        invariant items[k].weight < 0 ==> i == 0
        invariant expanded == Expansion(items[..k]) + Repeat(items[k].content, i)
      {
        expanded := expanded + [items[k].content];
        i := i + 1;
      }
      assert Repeat(items[k].content, i) == Repeat(items[k].content, items[k].weight);
      ExpansionStep(items, k);
    }
    assert items[..|items|] == items;
  }

  const MaxDraw: nat := 100

  /** The number of cards to draw from an expanded deck of `size` cards: zero
      or less means all of them, more than the deck means all of them, and a
      number above 100 after that is refused. */
  function DrawCount(count: int, size: nat): (r: Result<nat, string>)
    ensures r.Ok? ==> r.value <= size && r.value <= MaxDraw
    ensures r.Ok? && 0 < count <= size ==> r.value == count
    ensures r.Ok? && (count <= 0 || count > size) ==> r.value == size
    ensures r.Err? <==> (if 0 < count < size then count else size) > MaxDraw
  {
    var n := if count <= 0 then size else count;
    var m := if n > size then size else n;
    if m > MaxDraw then Err("抽取数量过大，最多100张") else Ok(m)
  }

  /** Asking for the whole of a deck of more than 100 cards is refused, even
      though any explicit count up to 100 is served. */
  lemma DrawAllOfLargeDeck(size: nat, count: int)
    requires size > MaxDraw
    ensures DrawCount(0, size).Err?
    ensures 0 < count <= MaxDraw ==> DrawCount(count, size) == Ok(count)
  {
  }

  function Swap(s: seq<string>, i: nat, j: nat): (t: seq<string>)
    requires i < |s| && j < |s|
    ensures |t| == |s| && t[i] == s[j] && t[j] == s[i]
    ensures forall k :: 0 <= k < |s| && k != i && k != j ==> t[k] == s[k]
  {
    s[i := s[j]][j := s[i]]
  }

  /** Positions `i` down to 1 of the Fisher–Yates pass; `pick(i)` is the
      random index in `0..i` the secure random source returns at step `i`. */
  function FisherYatesFrom(s: seq<string>, pick: nat -> nat, i: nat): (t: seq<string>)
    requires i < |s|
    requires forall k: nat :: pick(k) <= k
    ensures |t| == |s|
    decreases i
  {
    if i == 0 then s else FisherYatesFrom(Swap(s, i, pick(i)), pick, i - 1)
  }

  function Shuffled(s: seq<string>, pick: nat -> nat): (t: seq<string>)
    requires forall k: nat :: pick(k) <= k
    ensures |t| == |s|
  {
    if s == [] then s else FisherYatesFrom(s, pick, |s| - 1)
  }

  lemma SwapPermutes(s: seq<string>, i: nat, j: nat)
    requires i < |s| && j < |s|
    ensures multiset(Swap(s, i, j)) == multiset(s)
  {
    var t := s[i := s[j]];
    assert multiset(t) == multiset(s) - multiset{s[i]} + multiset{s[j]};
  }

  lemma {:induction false} FisherYatesFromPermutes(s: seq<string>, pick: nat -> nat, i: nat)
    requires i < |s|
    requires forall k: nat :: pick(k) <= k
    ensures multiset(FisherYatesFrom(s, pick, i)) == multiset(s)
    decreases i
  {
    if i > 0 {
      SwapPermutes(s, i, pick(i));
      FisherYatesFromPermutes(Swap(s, i, pick(i)), pick, i - 1);
    }
  }

  /** The shuffle only reorders the deck: same length, same cards, same multiplicities. */
  lemma ShuffledPermutes(s: seq<string>, pick: nat -> nat)
    requires forall k: nat :: pick(k) <= k
    ensures multiset(Shuffled(s, pick)) == multiset(s)
  {
    if s != [] {
      FisherYatesFromPermutes(s, pick, |s| - 1);
    }
  }

  lemma {:induction false} FisherYatesFromIdentity(s: seq<string>, pick: nat -> nat, i: nat)
    requires i < |s|
    requires forall k: nat :: pick(k) == k
    ensures FisherYatesFrom(s, pick, i) == s
    decreases i
  {
    if i > 0 {
      assert Swap(s, i, i) == s;
      FisherYatesFromIdentity(s, pick, i - 1);
    }
  }

  /** When every step picks its own position, the shuffle leaves the deck as it was. */
  lemma ShuffledIdentity(s: seq<string>, pick: nat -> nat)
    requires forall k: nat :: pick(k) == k
    ensures Shuffled(s, pick) == s
  {
    if s != [] {
      FisherYatesFromIdentity(s, pick, |s| - 1);
    }
  }

  /** The Fisher–Yates loop of `shuffleDeck`, swapping in place from the back. */
  method Shuffle(a: array<string>, pick: nat -> nat)
    requires forall k: nat :: pick(k) <= k
    modifies a
    ensures a[..] == Shuffled(old(a[..]), pick)
  {
    if a.Length > 0 {
      var i := a.Length - 1;
      while i > 0
        invariant 0 <= i < a.Length
        invariant FisherYatesFrom(a[..], pick, i) == Shuffled(old(a[..]), pick)
        decreases i
      {
        var j := pick(i);
        a[i], a[j] := a[j], a[i];
        i := i - 1;
      }
    }
  }

  datatype DrawResult = DrawResult(success: bool, message: string, cards: seq<string>, totalCards: Option<nat>)

  function Failure(message: string): DrawResult {
    DrawResult(false, message, [], None)
  }

  /** The source deck: the public table is looked up before the extension table. */
  function DeckLookup(publicDecks: map<string, seq<string>>, externDecks: map<string, seq<string>>, name: string): (r: Option<seq<string>>)
    ensures r.None? <==> name !in publicDecks && name !in externDecks
    ensures name in publicDecks ==> r == Some(publicDecks[name])
  {
    if name in publicDecks then Some(publicDecks[name])
    else if name in externDecks then Some(externDecks[name])
    else None
  }

  /** `getDeckSize`: the number of entries (not weighted), or -1 for an unknown deck. */
  function DeckSize(publicDecks: map<string, seq<string>>, externDecks: map<string, seq<string>>, name: string): (n: int)
    ensures n >= -1
    ensures n == -1 <==> DeckLookup(publicDecks, externDecks, name).None?
    ensures n >= 0 ==> n == |DeckLookup(publicDecks, externDecks, name).value|
  {
    if name in publicDecks then |publicDecks[name]|
    else if name in externDecks then |externDecks[name]|
    else -1
  }

  function ItemsOf(deck: seq<string>, draw: string -> string): (items: seq<DeckItem>)
    ensures |items| == |deck| && AllWeighted(items)
  {
    seq(|deck|, i requires 0 <= i < |deck| => ParseItem(deck[i], draw))
  }

  /** The first `n` cards of the shuffled deck, each resolved through `draw`. */
  function Drawn(shuffled: seq<string>, n: nat, draw: string -> string): (cards: seq<string>)
    requires n <= |shuffled|
    ensures |cards| == n
    ensures forall i :: 0 <= i < n ==> cards[i] == draw(shuffled[i])
  {
    seq(n, i requires 0 <= i < n => draw(shuffled[i]))
  }

  /** The outcome for a non-empty expanded deck `e`. */
  function DrawFromExpanded(e: seq<string>, count: int, draw: string -> string, pick: nat -> nat): (r: DrawResult)
    requires forall k: nat :: pick(k) <= k
  {
    match DrawCount(count, |e|)
    case Err(m) => Failure(m)
    case Ok(n) => DrawResult(true, "", Drawn(Shuffled(e, pick), n, draw), Some(|e|))
  }

  /** A successful draw yields between 1 and 100 cards, never more than the
      expanded deck, and reports the expanded size; a failure carries no cards. */
  lemma DrawFromExpandedBounds(e: seq<string>, count: int, draw: string -> string, pick: nat -> nat)
    requires forall k: nat :: pick(k) <= k
    requires e != []
    ensures var r := DrawFromExpanded(e, count, draw, pick);
      (r.success ==> 1 <= |r.cards| <= MaxDraw && |r.cards| <= |e| && r.totalCards == Some(|e|))
      && (!r.success ==> r.cards == [])
  {
  }

  /** Shuffles a copy of the expanded deck in an array and resolves its first `n` cards. */
  method ShuffleAndDraw(expanded: seq<string>, n: nat, draw: string -> string, pick: nat -> nat)
    returns (drawn: seq<string>)
    requires forall k: nat :: pick(k) <= k
    requires n <= |expanded|
    ensures drawn == Drawn(Shuffled(expanded, pick), n, draw)
  {
    var a := new string[|expanded|](i requires 0 <= i < |expanded| => expanded[i]);
    assert a[..] == expanded;
    Shuffle(a, pick);
    drawn := [];
    for i := 0 to n
      invariant drawn == Drawn(a[..], i, draw)
    {
      drawn := drawn + [draw(a[i])];
    }
  }

  /** `shuffleDeck`: a missing or empty deck fails with no cards; otherwise the
      weighted expansion is shuffled and the first `DrawCount` cards drawn. */
  method ShuffleDeck(publicDecks: map<string, seq<string>>, externDecks: map<string, seq<string>>,
                     name: string, count: int, draw: string -> string, pick: nat -> nat)
    returns (r: DrawResult)
    requires forall k: nat :: pick(k) <= k
    ensures DeckLookup(publicDecks, externDecks, name).None? ==> r == Failure("牌堆 " + name + " 不存在")
    ensures DeckLookup(publicDecks, externDecks, name) == Some([]) ==> r == Failure("牌堆 " + name + " 为空")
    ensures DeckLookup(publicDecks, externDecks, name).Some? && DeckLookup(publicDecks, externDecks, name).value != [] ==>
      r == DrawFromExpanded(Expansion(ItemsOf(DeckLookup(publicDecks, externDecks, name).value, draw)), count, draw, pick)
  {
    var source := DeckLookup(publicDecks, externDecks, name);
    if source.None? {
      return Failure("牌堆 " + name + " 不存在");
    }
    var sourceDeck := source.value;
    if sourceDeck == [] {
      return Failure("牌堆 " + name + " 为空");
    }
    var items := ParseDeckItems(sourceDeck, draw);
    assert items == ItemsOf(sourceDeck, draw);
    var expanded := ExpandDeck(items);
    if expanded == [] {
      ExpansionNonEmpty(items);
      assert false;
    }
    var drawCount := DrawCount(count, |expanded|);
    if drawCount.Err? {
      return Failure(drawCount.error);
    }
    var drawn := ShuffleAndDraw(expanded, drawCount.value, draw, pick);
    r := DrawResult(true, "", drawn, Some(|expanded|));
  }

  /** Every drawn card is the resolution of a card of the source deck with positive weight. */
  lemma DrawnFromDeck(deck: seq<string>, draw: string -> string, pick: nat -> nat, n: nat, i: nat)
    requires forall k: nat :: pick(k) <= k
    requires n <= |Expansion(ItemsOf(deck, draw))| && i < n
    ensures var e := Expansion(ItemsOf(deck, draw));
      exists k :: 0 <= k < |deck| && Drawn(Shuffled(e, pick), n, draw)[i] == draw(ParseItem(deck[k], draw).content)
  {
    var items := ItemsOf(deck, draw);
    var e := Expansion(items);
    var s := Shuffled(e, pick);
    ShuffledPermutes(e, pick);
    var x := s[i];
    assert x in multiset(s);
    assert x in e;
    ExpansionMembers(items, x);
    var k :| 0 <= k < |items| && items[k].content == x && items[k].weight >= 1;
    assert Drawn(s, n, draw)[i] == draw(x);
  }
}
