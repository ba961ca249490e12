/** The native initiative tracker: one list per channel, entries in
    descending initiative order, the index of the creature whose turn it is
    and a round counter, saved to and loaded from JSON. */
module Initiative {
  import opened Wrappers
  import opened JsValues
  import OrderedMaps
  import Text

  datatype Entry = Entry(name: string, initiative: int)

  datatype InitiativeList = InitiativeList(entries: seq<Entry>, currentRound: int, currentIndex: int)

  const EmptyMessage := "先攻列表为空"
  const AddedMessage := "添加成功"
  /** What the model reports where `nextInitiativeTurn` would read
      `entries[i]` with a negative `i`, which C++ leaves undefined. */
  const ReadBeforeEntries := "entries[i] with i < 0"

  /** The list `createInitiativeList` makes: no entries, round 1, index 0. */
  function NewList(): InitiativeList
  {
    InitiativeList([], 1, 0)
  }

  // ---------------------------------------------------------------------
  // Ordering

  predicate SortedDesc(es: seq<Entry>)
  {
    forall i, j :: 0 <= i < j < |es| ==> es[i].initiative >= es[j].initiative
  }

  /** Inserts `e` in front of the first entry with a strictly lower value. */
  function InsertDesc(es: seq<Entry>, e: Entry): seq<Entry>
  {
    if es == [] then [e]
    else if e.initiative > es[0].initiative then [e] + es
    else [es[0]] + InsertDesc(es[1..], e)
  }

  lemma {:induction false} InsertDescSorted(es: seq<Entry>, e: Entry)
    requires SortedDesc(es)
    ensures SortedDesc(InsertDesc(es, e))
  {
    if es != [] && e.initiative <= es[0].initiative {
      InsertDescSorted(es[1..], e);
      InsertDescMembers(es[1..], e);
      var r := InsertDesc(es, e);
      var tail := InsertDesc(es[1..], e);
      assert r == [es[0]] + tail;
      forall j | 0 < j < |r|
        ensures r[0].initiative >= r[j].initiative
      {
        assert r[j] == tail[j - 1];
        assert r[j] in tail;
        if r[j] != e {
          var m :| 0 <= m < |es[1..]| && es[1..][m] == r[j];
          assert es[1 + m] == r[j];
        }
      }
    }
  }

  lemma {:induction false} InsertDescPerm(es: seq<Entry>, e: Entry)
    ensures multiset(InsertDesc(es, e)) == multiset(es) + multiset{e}
  {
    if es != [] && e.initiative <= es[0].initiative {
      InsertDescPerm(es[1..], e);
      assert es == [es[0]] + es[1..];
      assert InsertDesc(es, e) == [es[0]] + InsertDesc(es[1..], e);
    }
  }

  lemma {:induction false} InsertDescMembers(es: seq<Entry>, e: Entry)
    ensures forall x :: x in InsertDesc(es, e) ==> x == e || x in es
  {
    if es != [] && e.initiative <= es[0].initiative {
      InsertDescMembers(es[1..], e);
      assert InsertDesc(es, e) == [es[0]] + InsertDesc(es[1..], e);
    }
  }

  /** Inserting keeps the order descending and adds exactly `e`. */
  lemma InsertDescSpec(es: seq<Entry>, e: Entry)
    requires SortedDesc(es)
    ensures SortedDesc(InsertDesc(es, e))
    ensures multiset(InsertDesc(es, e)) == multiset(es) + multiset{e}
    ensures forall x :: x in InsertDesc(es, e) ==> x == e || x in es
  {
    InsertDescSorted(es, e);
    InsertDescPerm(es, e);
    InsertDescMembers(es, e);
  }

  /** `std::sort` with `a.initiative > b.initiative`: the result is sorted
      in descending order and is a permutation of the input.  The sort is
      not stable, so nothing is promised about the order of equal values. */
  method SortDescending(es: seq<Entry>) returns (r: seq<Entry>)
    ensures SortedDesc(r)
    ensures multiset(r) == multiset(es)
  {
    r := [];
    var i := 0;
    while i < |es|
      invariant 0 <= i <= |es|
      invariant SortedDesc(r)
      invariant multiset(r) == multiset(es[..i])
    {
      InsertDescSpec(r, es[i]);
      r := InsertDesc(r, es[i]);
      assert es[..i + 1] == es[..i] + [es[i]];
      i := i + 1;
    }
    assert es[..i] == es;
  }

  // ---------------------------------------------------------------------
  // Remove

  /** `remove_if` on the name: every entry with another name, in order. */
  function Without(es: seq<Entry>, name: string): (r: seq<Entry>)
    ensures forall e :: e in r <==> e in es && e.name != name
    ensures |r| <= |es|
    ensures |r| == |es| <==> forall e :: e in es ==> e.name != name
  {
    if es == [] then []
    else
      var last := es[|es| - 1];
      assert es == es[..|es| - 1] + [last];
      Without(es[..|es| - 1], name) + (if last.name == name then [] else [last])
  }

  lemma {:induction false} WithoutKeepsOrder(es: seq<Entry>, name: string)
    requires SortedDesc(es)
    ensures SortedDesc(Without(es, name))
  {
    if es != [] {
      var front := es[..|es| - 1];
      var last := es[|es| - 1];
      assert SortedDesc(front);
      WithoutKeepsOrder(front, name);
      var w := Without(front, name);
      forall x | x in w
        ensures x.initiative >= last.initiative
      {
        assert x in front;
        var k :| 0 <= k < |front| && front[k] == x;
        assert es[k] == x;
      }
    }
  }

  lemma WithoutStep(es: seq<Entry>, i: nat, name: string)
    requires i < |es|
    ensures Without(es[..i + 1], name)
      == Without(es[..i], name) + (if es[i].name == name then [] else [es[i]])
  {
    assert es[..i + 1][..i] == es[..i];
  }

  /** `removeInitiative` on an existing list: drops every entry with the
      name and moves the current index back to the top when it fell off the end. */
  function RemoveFrom(l: InitiativeList, name: string): InitiativeList
  {
    var kept := Without(l.entries, name);
    InitiativeList(kept, l.currentRound,
      if l.currentIndex >= |kept| then 0 else l.currentIndex)
  }

  /** The current index names an entry, or is 0 on an empty list. */
  predicate IndexOk(l: InitiativeList)
  {
    0 <= l.currentIndex && (l.currentIndex < |l.entries| || l.currentIndex == 0)
  }

  lemma RemoveFromSpec(l: InitiativeList, name: string)
    ensures var r := RemoveFrom(l, name);
      && (|r.entries| < |l.entries| <==> exists e :: e in l.entries && e.name == name)
      && (forall e :: e in r.entries <==> e in l.entries && e.name != name)
      && r.currentRound == l.currentRound
      && (SortedDesc(l.entries) ==> SortedDesc(r.entries))
      && (IndexOk(l) ==> IndexOk(r))
  {
    if SortedDesc(l.entries) {
      WithoutKeepsOrder(l.entries, name);
    }
  }

  // ---------------------------------------------------------------------
  // Turns

  /** The index `nextInitiativeTurn` moves to, before it reads the entry. */
  function NextIndex(l: InitiativeList): int
  {
    if l.currentIndex + 1 >= |l.entries| then 0 else l.currentIndex + 1
  }

  /** One turn: the current index moves down; past the last entry it returns to
      the top and the round counter goes up. */
  function Advance(l: InitiativeList): (r: InitiativeList)
    requires l.entries != []
  {
    InitiativeList(l.entries,
      if l.currentIndex + 1 >= |l.entries| then l.currentRound + 1 else l.currentRound,
      NextIndex(l))
  }

  lemma AdvanceSpec(l: InitiativeList)
    requires l.entries != [] && IndexOk(l)
    ensures var r := Advance(l);
      && IndexOk(r)
      && r.entries == l.entries
      && r.currentIndex == (l.currentIndex + 1) % |l.entries|
      && r.currentRound == l.currentRound + (l.currentIndex + 1) / |l.entries|
  {
  }

  function Turns(l: InitiativeList, k: nat): (r: InitiativeList)
    requires l.entries != []
    ensures r.entries == l.entries
  {
    if k == 0 then l else Advance(Turns(l, k - 1))
  }

  /** After `k` turns the current index has moved `k` places around the list,
      counting each completed lap as one round: the round counter has gone
      up by the number of laps and the current index sits on the remainder. */
  lemma {:induction false} TurnsSpec(l: InitiativeList, k: nat)
    requires l.entries != [] && IndexOk(l)
    ensures var r := Turns(l, k);
      && IndexOk(r)
      && r.currentRound >= l.currentRound
      && r.currentIndex + (r.currentRound - l.currentRound) * |l.entries| == l.currentIndex + k
  {
    if k > 0 {
      TurnsSpec(l, k - 1);
      var p := Turns(l, k - 1);
      var n := |l.entries|;
      var laps := p.currentRound - l.currentRound;
      if p.currentIndex + 1 >= n {
        assert (laps + 1) * n == laps * n + n;
      }
    }
  }

  /** Turns that stay within the current lap only move the current index. */
  lemma {:induction false} TurnsWithinLap(l: InitiativeList, k: nat)
    requires l.entries != [] && 0 <= l.currentIndex && l.currentIndex + k < |l.entries|
    ensures Turns(l, k) == l.(currentIndex := l.currentIndex + k)
  {
    if k > 0 {
      TurnsWithinLap(l, k - 1);
    }
  }

  lemma {:induction false} TurnsAdd(l: InitiativeList, a: nat, b: nat)
    requires l.entries != []
    ensures Turns(l, a + b) == Turns(Turns(l, a), b)
  {
    if b > 0 {
      TurnsAdd(l, a, b - 1);
    }
  }

  /** `TurnsAdd` with the total named by the caller. */
  lemma TurnsSplit(l: InitiativeList, a: nat, b: nat, c: nat)
    requires l.entries != [] && c == a + b
    ensures Turns(l, c) == Turns(Turns(l, a), b)
  {
    TurnsAdd(l, a, b);
  }

  /** The turns left in the lap bring the current index back to the top, one
      round later. */
  lemma ToTop(l: InitiativeList)
    requires l.entries != [] && IndexOk(l)
    ensures Turns(l, |l.entries| - l.currentIndex)
      == l.(currentRound := l.currentRound + 1, currentIndex := 0)
  {
    var toEnd := |l.entries| - 1 - l.currentIndex;
    TurnsWithinLap(l, toEnd);
    var last := Turns(l, toEnd);
    LastTurn(last);
    TurnsSplit(l, toEnd, 1, |l.entries| - l.currentIndex);
  }

  /** The turn from the last entry goes back to the top, one round later. */
  lemma LastTurn(l: InitiativeList)
    requires l.entries != [] && l.currentIndex == |l.entries| - 1
    ensures Turns(l, 1) == l.(currentRound := l.currentRound + 1, currentIndex := 0)
  {
    assert Turns(l, 1) == Advance(l);
  }

  /** One lap of `|entries|` turns comes back to the same creature, one
      round later. */
  lemma FullLap(l: InitiativeList)
    requires l.entries != [] && IndexOk(l)
    ensures Turns(l, |l.entries|) == l.(currentRound := l.currentRound + 1)
  {
    var n := |l.entries|;
    var i := l.currentIndex;
    var top := l.(currentRound := l.currentRound + 1, currentIndex := 0);
    ToTop(l);
    TurnsWithinLap(top, i);
    TurnsSplit(l, n - i, i, n);
  }

  // ---------------------------------------------------------------------
  // Listing

  /** One line of `getInitiativeList`: the arrow marks the current entry. */
  function Line(l: InitiativeList, i: nat): (r: string)
    requires i < |l.entries|
    ensures r != [] && (r[0] == '→' <==> i == l.currentIndex)
  {
    (if i == l.currentIndex then "→" else " ") + " " + Text.NatToString(i + 1) + ". "
      + l.entries[i].name + ": " + Text.IntToString(l.entries[i].initiative) + "\n"
  }

  function Lines(l: InitiativeList, n: nat): string
    requires n <= |l.entries|
  {
    if n == 0 then [] else Lines(l, n - 1) + Line(l, n - 1)
  }

  /** `getInitiativeList`: the empty message exactly for a missing or empty
      list; otherwise a header with the round and one line per entry, so the
      line of every entry appears in the text. */
  function ListText(l: Option<InitiativeList>): (r: string)
    ensures r == EmptyMessage <==> l.None? || l.value.entries == []
    ensures l.Some? ==> forall i :: 0 <= i < |l.value.entries| ==> Text.Contains(r, Line(l.value, i))
  {
    if l.None? || l.value.entries == [] then EmptyMessage
    else
      var header := "=== 先攻列表 (第" + Text.IntToString(l.value.currentRound) + "轮) ===\n";
      var body := Lines(l.value, |l.value.entries|);
      assert (header + body)[0] == '=';
      forall i | 0 <= i < |l.value.entries|
        ensures Text.Contains(header + body, Line(l.value, i))
      {
        LinesContain(l.value, |l.value.entries|, i);
        ContainsAfter(header, body, Line(l.value, i));
      }
      header + body
  }

  /** The first `n` lines hold the line of every entry before `n`. */
  lemma {:induction false} LinesContain(l: InitiativeList, n: nat, i: nat)
    requires i < n <= |l.entries|
    ensures Text.Contains(Lines(l, n), Line(l, i))
  {
    assert Lines(l, n) == Lines(l, n - 1) + Line(l, n - 1);
    if i == n - 1 {
      ContainsEnd(Lines(l, n - 1), Line(l, i));
    } else {
      LinesContain(l, n - 1, i);
      ContainsBefore(Lines(l, n - 1), Line(l, n - 1), Line(l, i));
    }
  }

  lemma ContainsEnd(a: string, x: string)
    ensures Text.Contains(a + x, x)
  {
    assert (a + x)[|a|..] == x;
    assert Text.StartsWith((a + x)[|a|..], x);
  }

  lemma ContainsAfter(a: string, b: string, x: string)
    requires Text.Contains(b, x)
    ensures Text.Contains(a + b, x)
  {
    var k :| 0 <= k <= |b| - |x| && Text.StartsWith(b[k..], x);
    assert (a + b)[|a| + k..] == b[k..];
    assert Text.StartsWith((a + b)[|a| + k..], x);
  }

  lemma ContainsBefore(a: string, b: string, x: string)
    requires Text.Contains(a, x)
    ensures Text.Contains(a + b, x)
  {
    var k :| 0 <= k <= |a| - |x| && Text.StartsWith(a[k..], x);
    assert (a + b)[k..][..|x|] == a[k..][..|x|];
    assert Text.StartsWith((a + b)[k..], x);
  }

  // ---------------------------------------------------------------------
  // Rolling

  /** The dice expression `rollInitiative` hands to the dice engine. */
  function RollExpression(modifier: int): string
  {
    "1d20" + (if modifier == 0 then ""
              else (if modifier > 0 then "+" else "") + Text.IntToString(modifier))
  }

  /** The expression is a d20 followed by the modifier written so that
      `std::stoi` reads it back. */
  lemma RollExpressionModifier(modifier: int)
    requires Text.IntMin <= modifier <= Text.IntMax
    ensures Text.StartsWith(RollExpression(modifier), "1d20")
    ensures modifier == 0 <==> RollExpression(modifier) == "1d20"
    ensures modifier != 0 ==> Text.Stoi(RollExpression(modifier)[4..]) == Ok(modifier)
  {
    var e := RollExpression(modifier);
    assert e[..4] == "1d20";
    if modifier < 0 {
      Text.StoiOfRendering(modifier);
      assert e[4..] == Text.IntToString(modifier);
    } else if modifier > 0 {
      var d := Text.NatToString(modifier);
      var s := e[4..];
      assert s == "+" + d;
      Text.TrimStartNoSpace(s, Text.IsCSpace);
      assert s[1..] == d;
      Text.DigitPrefixAll(d);
      Text.NatToStringValue(modifier);
    }
  }

  // ---------------------------------------------------------------------
  // JSON

  /** nlohmann's `j.value(key, default)` read as an `int`: a missing key
      gives the default, a number or a boolean converts, anything else
      throws a type error. */
  function ReadInt(fs: Fields, key: string, default: int): (r: Option<int>)
    ensures OrderedMaps.Get(fs, key).None? ==> r == Some(default)
  {
    var g: Option<Value> := OrderedMaps.Get(fs, key);
    match g
    case None => Some(default)
    case Some(Num(n)) => Some(n)
    case Some(Bool(b)) => Some(if b then 1 else 0)
    case Some(_) => None
  }

  /** `j.value(key, default)` read as a string: only a string converts. */
  function ReadString(fs: Fields, key: string, default: string): Option<string>
  {
    var g: Option<Value> := OrderedMaps.Get(fs, key);
    match g
    case None => Some(default)
    case Some(Str(s)) => Some(s)
    case Some(_) => None
  }

  /** `value()` on something that is not an object throws. */
  function DecodeEntry(v: Value): Option<Entry>
  {
    match v
    case Obj(fs) =>
      (match (ReadString(fs, "name", ""), ReadInt(fs, "initiative", 0))
       case (Some(n), Some(i)) => Some(Entry(n, i))
       case _ => None)
    case _ => None
  }

  function DecodeEntries(items: seq<Value>): (r: Option<seq<Entry>>)
    ensures r.Some? ==> |r.value| == |items|
  {
    if items == [] then Some([])
    else
      match (DecodeEntry(items[0]), DecodeEntries(items[1..]))
      case (Some(e), Some(es)) => Some([e] + es)
      case _ => None
  }

  /** `deserializeInitiative` after a successful parse, as written: round
      and index default to 1 and 0, `entries` is read only when it is an
      array, and a value of the wrong type fails the whole load.  The
      index is taken as stored. */
  function Decode(v: Value): (r: Option<InitiativeList>)
    ensures !v.Obj? ==> r.None?
    ensures r.Some? && OrderedMaps.Get(v.fields, "currentRound").None? ==> r.value.currentRound == 1
    ensures r.Some? && OrderedMaps.Get(v.fields, "currentIndex").None? ==> r.value.currentIndex == 0
    ensures r.Some? && OrderedMaps.Get(v.fields, "entries").None? ==> r.value.entries == []
    ensures v.Obj? ==> var i := OrderedMaps.Get(v.fields, "currentIndex");
      r.Some? && i.Some? && i.value.Num? ==> r.value.currentIndex == i.value.n
    ensures v.Obj? ==> var i := OrderedMaps.Get(v.fields, "currentIndex");
      i.Some? && i.value.Str? ==> r.None?
    ensures v.Obj? ==> var e := OrderedMaps.Get(v.fields, "entries");
      r.Some? && e.Some? && e.value.Arr? ==> |r.value.entries| == |e.value.items|
  {
    match v
    case Obj(fs) =>
      var stored: Option<Value> := OrderedMaps.Get(fs, "entries");
      var entries: Option<seq<Entry>> := match stored
        case Some(Arr(items)) => DecodeEntries(items)
        case _ => Some([]);
      (match (ReadInt(fs, "currentRound", 1), ReadInt(fs, "currentIndex", 0), entries)
       case (Some(r), Some(i), Some(es)) => Some(InitiativeList(es, r, i))
       case _ => None)
    case _ => None
  }

  /** nlohmann objects keep their keys sorted. */
  function EncodeEntry(e: Entry): Value
  {
    Obj([("initiative", Num(e.initiative)), ("name", Str(e.name))])
  }

  function EncodeEntries(es: seq<Entry>): (r: seq<Value>)
  {
    seq(|es|, i requires 0 <= i < |es| => EncodeEntry(es[i]))
  }

  /** `serializeInitiative` of an existing list. */
  function Encode(l: InitiativeList): (r: Value)
    ensures r.Obj? && OrderedMaps.Keys(r.fields) == ["currentIndex", "currentRound", "entries"]
    ensures r.Obj? && OrderedMaps.Get(r.fields, "entries").Some?
    ensures var e := OrderedMaps.Get(r.fields, "entries").value;
      e.Arr? && |e.items| == |l.entries|
  {
    var fs := [("currentIndex", Num(l.currentIndex)), ("currentRound", Num(l.currentRound)),
               ("entries", Arr(EncodeEntries(l.entries)))];
    assert OrderedMaps.Get(fs[2..], "entries") == Some(Arr(EncodeEntries(l.entries)));
    assert OrderedMaps.Get(fs[1..], "entries") == Some(Arr(EncodeEntries(l.entries)));
    Obj(fs)
  }

  /** `serializeInitiative`: `{}` for a channel without a list. */
  function Serialize(lists: map<string, InitiativeList>, channel: string): (r: Value)
    ensures channel !in lists ==> r == Obj([])
    ensures channel in lists ==> Decode(r) == Some(lists[channel])
  {
    if channel in lists then
      EncodeDecode(lists[channel]);
      Encode(lists[channel])
    else Obj([])
  }

  lemma EntryRoundTrip(e: Entry)
    ensures DecodeEntry(EncodeEntry(e)) == Some(e)
  {
    var fs := [("initiative", Num(e.initiative)), ("name", Str(e.name))];
    assert OrderedMaps.Get(fs[1..], "name") == Some(Str(e.name));
    assert OrderedMaps.Get(fs, "name") == Some(Str(e.name));
    assert OrderedMaps.Get(fs, "initiative") == Some(Num(e.initiative));
  }

  lemma {:induction false} EntriesRoundTrip(es: seq<Entry>)
    ensures DecodeEntries(EncodeEntries(es)) == Some(es)
  {
    if es != [] {
      var vs := EncodeEntries(es);
      assert vs[1..] == EncodeEntries(es[1..]);
      EntriesRoundTrip(es[1..]);
      EntryRoundTrip(es[0]);
      assert es == [es[0]] + es[1..];
    }
  }

  /** Loading what was saved gives back the same round, index and entries. */
  lemma EncodeDecode(l: InitiativeList)
    ensures Decode(Encode(l)) == Some(l)
  {
    EntriesRoundTrip(l.entries);
    EncodedFields(l);
    var fs := Encode(l).fields;
    assert ReadInt(fs, "currentIndex", 0) == Some(l.currentIndex);
    assert ReadInt(fs, "currentRound", 1) == Some(l.currentRound);
  }

  /** Each saved field is found under its key. */
  lemma EncodedFields(l: InitiativeList)
    ensures OrderedMaps.Get(Encode(l).fields, "currentIndex") == Some(Num(l.currentIndex))
    ensures OrderedMaps.Get(Encode(l).fields, "currentRound") == Some(Num(l.currentRound))
    ensures OrderedMaps.Get(Encode(l).fields, "entries") == Some(Arr(EncodeEntries(l.entries)))
  {
    var fs := Encode(l).fields;
    assert OrderedMaps.Get(fs[2..], "entries") == Some(Arr(EncodeEntries(l.entries)));
    assert OrderedMaps.Get(fs[1..], "entries") == Some(Arr(EncodeEntries(l.entries)));
  }

  /** Loading the `{}` saved for a missing channel creates a fresh list. */
  lemma DecodeEmptyObject()
    ensures Decode(Obj([])) == Some(NewList())
  {
  }

  /** As written, a stored negative index is accepted, and the next turn
      then reads before the start of the entries. */
  lemma NegativeIndexAccepted()
    ensures var l := Decode(Obj([("currentIndex", Num(-3)),
                                 ("entries", Arr([EncodeEntry(Entry("a", 10))]))]));
      l.Some? && l.value.entries != [] && !IndexOk(l.value) && NextIndex(l.value) < 0
  {
    var fs := [("currentIndex", Num(-3)), ("entries", Arr([EncodeEntry(Entry("a", 10))]))];
    assert OrderedMaps.Get(fs, "currentIndex") == Some(Num(-3));
    assert OrderedMaps.Get(fs, "currentRound") == None;
    assert OrderedMaps.Get(fs, "entries") == Some(Arr([EncodeEntry(Entry("a", 10))]));
    assert DecodeEntries([EncodeEntry(Entry("a", 10))]) == Some([Entry("a", 10)]) by {
      EntriesRoundTrip([Entry("a", 10)]);
    }
  }

  /** A turn reads an entry exactly when the index it starts from is not
      below -1: past the end it wraps to the top, but an index of -2 or less
      only moves towards zero. */
  lemma NextReadsEntry(l: InitiativeList)
    requires l.entries != []
    ensures 0 <= NextIndex(l) <==> l.currentIndex >= -1
    ensures NextIndex(l) < |l.entries|
  {
  }

  /** The corrected load: a stored index that names no entry is
      moved to the top, as `removeInitiative` does. */
  function Clamp(l: InitiativeList): (r: InitiativeList)
    ensures IndexOk(r)
    ensures r.entries == l.entries && r.currentRound == l.currentRound
    ensures IndexOk(l) ==> r == l
  {
    if IndexOk(l) then l else l.(currentIndex := 0)
  }

  /** With the index clamped, every turn reads an entry of the list. */
  lemma ClampedTurnInRange(l: InitiativeList)
    requires l.entries != []
    ensures 0 <= NextIndex(Clamp(l)) < |l.entries|
  {
  }

  // ---------------------------------------------------------------------
  // The tracker

  /** The global `initiativeLists` map of the native module. */
  class Tracker {
    var lists: map<string, InitiativeList>

    constructor()
      ensures lists == map[]
    {
      lists := map[];
    }

    /** `getInitiativeCount`: 0 for a channel without a list. */
    function Count(channel: string): (r: nat)
      reads this
      ensures channel !in lists ==> r == 0
      ensures channel in lists ==> r == |lists[channel].entries|
    {
      if channel in lists then |lists[channel].entries| else 0
    }

    /** `addInitiative`: creates the list when missing, appends the entry
        and sorts; the current index and the round stay where they were. */
    method Add(channel: string, name: string, initiative: int) returns (message: string)
      modifies this
      ensures message == AddedMessage
      ensures channel in lists && lists.Keys == old(lists).Keys + {channel}
      ensures forall c :: c in old(lists) && c != channel ==> lists[c] == old(lists)[c]
      ensures var before := if channel in old(lists) then old(lists)[channel] else NewList();
        && lists[channel].currentRound == before.currentRound
        && lists[channel].currentIndex == before.currentIndex
        && SortedDesc(lists[channel].entries)
        && multiset(lists[channel].entries) == multiset(before.entries) + multiset{Entry(name, initiative)}
      ensures Count(channel) == old(Count(channel)) + 1
    {
      var l := if channel in lists then lists[channel] else NewList();
      var entries := SortDescending(l.entries + [Entry(name, initiative)]);
      assert |entries| == |multiset(entries)| == |l.entries| + 1;
      lists := lists[channel := l.(entries := entries)];
      message := AddedMessage;
    }

    /** `rollInitiative`: the dice engine's outcome for `RollExpression`
        is a parameter; an engine error leaves the lists alone. */
    method Roll(channel: string, name: string, roll: Result<int, string>) returns (r: Result<int, string>)
      modifies this
      ensures r == roll
      ensures roll.Err? ==> lists == old(lists)
      ensures roll.Ok? ==> channel in lists && Count(channel) == old(Count(channel)) + 1
      ensures roll.Ok? ==> Entry(name, roll.value) in multiset(lists[channel].entries)
    {
      if roll.Err? {
        return roll;
      }
      var _ := Add(channel, name, roll.value);
      r := roll;
    }

    /** `removeInitiative`. */
    method Remove(channel: string, name: string) returns (ok: bool)
      modifies this
      ensures channel !in old(lists) ==> !ok && lists == old(lists)
      ensures channel in old(lists) ==>
        lists == old(lists)[channel := RemoveFrom(old(lists)[channel], name)]
        && (ok <==> exists e :: e in old(lists)[channel].entries && e.name == name)
    {
      if channel !in lists {
        return false;
      }
      var l := lists[channel];
      var kept := [];
      var i := 0;
      while i < |l.entries|
        invariant 0 <= i <= |l.entries|
        invariant kept == Without(l.entries[..i], name)
        invariant lists == old(lists)
      {
        WithoutStep(l.entries, i, name);
        if l.entries[i].name != name {
          kept := kept + [l.entries[i]];
        }
        i := i + 1;
      }
      assert l.entries[..i] == l.entries;
      assert kept == Without(l.entries, name);
      assert |kept| < |l.entries| <==> exists e :: e in l.entries && e.name == name;
      var index := if l.currentIndex >= |kept| then 0 else l.currentIndex;
      var updated := InitiativeList(kept, l.currentRound, index);
      assert updated == RemoveFrom(l, name);
      lists := lists[channel := updated];
      ok := |kept| < |l.entries|;
    }

    /** `clearInitiative`. */
    method Clear(channel: string) returns (ok: bool)
      modifies this
      ensures ok <==> channel in old(lists)
      ensures lists == old(lists) - {channel}
    {
      ok := channel in lists;
      lists := lists - {channel};
    }

    /** `nextInitiativeTurn`: the creature now acting, its initiative and
        the round. */
    method Next(channel: string) returns (r: Result<(string, int, int), string>)
      modifies this
      ensures channel !in old(lists) || old(lists)[channel].entries == [] ==>
        r == Err(EmptyMessage) && lists == old(lists)
      ensures channel in old(lists) && old(lists)[channel].entries != [] ==>
        var l := Advance(old(lists)[channel]);
        && lists == old(lists)[channel := l]
        && (l.currentIndex >= 0 ==>
              r == Ok((l.entries[l.currentIndex].name, l.entries[l.currentIndex].initiative, l.currentRound)))
        && (l.currentIndex < 0 <==> r == Err(ReadBeforeEntries))
    {
      if channel !in lists || lists[channel].entries == [] {
        return Err(EmptyMessage);
      }
      var l := lists[channel];
      var index := l.currentIndex + 1;
      var round := l.currentRound;
      if index >= |l.entries| {
        index := 0;
        round := round + 1;
      }
      lists := lists[channel := InitiativeList(l.entries, round, index)];
      if index < 0 {
        return Err(ReadBeforeEntries);
      }
      var current := l.entries[index];
      r := Ok((current.name, current.initiative, round));
    }

    /** `getInitiativeList`. */
    function Listing(channel: string): string
      reads this
    {
      ListText(if channel in lists then Some(lists[channel]) else None)
    }

    /** `deserializeInitiative`: `parsed` is the outcome of the JSON parser,
        `None` when the text does not parse.  A load replaces the channel's
        list with the decoded one, its index stored as it was read. */
    method Load(channel: string, parsed: Option<Value>) returns (ok: bool)
      modifies this
      ensures ok <==> parsed.Some? && Decode(parsed.value).Some?
      ensures !ok ==> lists == old(lists)
      ensures ok ==> lists == old(lists)[channel := Decode(parsed.value).value]
    {
      if parsed.None? {
        return false;
      }
      var l := Decode(parsed.value);
      if l.None? {
        return false;
      }
      lists := lists[channel := l.value];
      ok := true;
    }

    /** Saving a channel and loading it back leaves the tracker as it was. */
    method SaveThenLoad(channel: string) returns (ok: bool)
      modifies this
      ensures ok && lists == old(lists)[channel := if channel in old(lists) then old(lists)[channel] else NewList()]
    {
      var saved := Serialize(lists, channel);
      DecodeEmptyObject();
      ok := Load(channel, Some(saved));
    }
  }
}
