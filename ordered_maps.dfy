/** JavaScript's `Map` and plain objects with string keys: entries kept in
    insertion order, a key at most once.  (A plain object lists its
    integer-like keys first, in ascending order; the model does not.) */
module OrderedMaps {
  import opened Wrappers

  function Keys<V>(fs: seq<(string, V)>): (ks: seq<string>)
    ensures |ks| == |fs| && forall i :: 0 <= i < |fs| ==> ks[i] == fs[i].0
  {
    if fs == [] then [] else [fs[0].0] + Keys(fs[1..])
  }

  predicate Distinct(ks: seq<string>)
  {
    forall i, j :: 0 <= i < j < |ks| ==> ks[i] != ks[j]
  }

  predicate DistinctKeys<V>(fs: seq<(string, V)>)
  {
    Distinct(Keys(fs))
  }

  /** `m.get(key)`, `None` for a missing key. */
  function Get<V>(fs: seq<(string, V)>, key: string): (r: Option<V>)
    ensures r.None? <==> key !in Keys(fs)
  {
    if fs == [] then None
    else if fs[0].0 == key then Some(fs[0].1)
    else Get(fs[1..], key)
  }

  /** `m.set(key, value)`: an existing key keeps its place and takes the new
      value; a new one goes at the end. */
  function Put<V>(fs: seq<(string, V)>, key: string, value: V): (r: seq<(string, V)>)
    ensures Get(r, key) == Some(value)
    ensures forall k :: k != key ==> Get(r, k) == Get(fs, k)
    ensures key in Keys(fs) ==> |r| == |fs|
    ensures key !in Keys(fs) ==> r == fs + [(key, value)]
  {
    if fs == [] then [(key, value)]
    else if fs[0].0 == key then [(key, value)] + fs[1..]
    else [fs[0]] + Put(fs[1..], key, value)
  }

  lemma {:induction false} PutKeys<V>(fs: seq<(string, V)>, key: string, value: V)
    ensures Keys(Put(fs, key, value)) == if key in Keys(fs) then Keys(fs) else Keys(fs) + [key]
  {
    if fs == [] {
    } else if fs[0].0 == key {
      var r := Put(fs, key, value);
      assert r[1..] == fs[1..];
      assert Keys(r) == [key] + Keys(fs[1..]);
    } else {
      var r := Put(fs, key, value);
      var rest := Put(fs[1..], key, value);
      PutKeys(fs[1..], key, value);
      assert r[1..] == rest;
      assert Keys(r) == [fs[0].0] + Keys(rest);
      assert Keys(fs) == [fs[0].0] + Keys(fs[1..]);
      if key in Keys(fs[1..]) {
        assert Keys(rest) == Keys(fs[1..]);
        assert key in Keys(fs);
      } else {
        assert Keys(rest) == Keys(fs[1..]) + [key];
        assert key !in Keys(fs);
        assert Keys(r) == Keys(fs) + [key];
      }
    }
  }

  /** Setting a key keeps the keys distinct. */
  lemma PutDistinct<V>(fs: seq<(string, V)>, key: string, value: V)
    requires DistinctKeys(fs)
    ensures DistinctKeys(Put(fs, key, value))
  {
    PutKeys(fs, key, value);
  }

  /** `m.delete(key)`: the other entries stay, in their order. */
  function Delete<V>(fs: seq<(string, V)>, key: string): (r: seq<(string, V)>)
    ensures Get(r, key) == None
    ensures forall k :: k != key ==> Get(r, k) == Get(fs, k)
    ensures key !in Keys(fs) ==> r == fs
  {
    if fs == [] then []
    else if fs[0].0 == key then Delete(fs[1..], key)
    else [fs[0]] + Delete(fs[1..], key)
  }

  /** `{ ...base, ...more }`: the entries of `more` set in order onto
      `base`. */
  function Spread<V>(base: seq<(string, V)>, more: seq<(string, V)>): (r: seq<(string, V)>)
    decreases |more|
  {
    if more == [] then base else Spread(Put(base, more[0].0, more[0].1), more[1..])
  }

  /** Spreading `more` makes its entries win; every other key keeps the
      value `base` gave it. */
  lemma {:induction false} SpreadGet<V>(base: seq<(string, V)>, more: seq<(string, V)>, k: string)
    requires DistinctKeys(more)
    ensures k in Keys(more) ==> Get(Spread(base, more), k) == Get(more, k)
    ensures k !in Keys(more) ==> Get(Spread(base, more), k) == Get(base, k)
    decreases |more|
  {
    if more != [] {
      assert Keys(more) == [more[0].0] + Keys(more[1..]);
      SpreadGet(Put(base, more[0].0, more[0].1), more[1..], k);
    }
  }

  /** Spreading one more entry is one more `set`. */
  lemma {:induction false} SpreadSnoc<V>(base: seq<(string, V)>, more: seq<(string, V)>, k: string, v: V)
    ensures Spread(base, more + [(k, v)]) == Put(Spread(base, more), k, v)
    decreases |more|
  {
    if more != [] {
      assert (more + [(k, v)])[1..] == more[1..] + [(k, v)];
      SpreadSnoc(Put(base, more[0].0, more[0].1), more[1..], k, v);
    }
  }

  /** Spreading one more entry of `more`, as a loop over it does. */
  lemma SpreadPrefixStep<V>(base: seq<(string, V)>, more: seq<(string, V)>, j: nat)
    requires j < |more|
    ensures Spread(base, more[..j + 1]) == Put(Spread(base, more[..j]), more[j].0, more[j].1)
  {
    assert more[..j + 1] == more[..j] + [(more[j].0, more[j].1)];
    SpreadSnoc(base, more[..j], more[j].0, more[j].1);
  }
}
