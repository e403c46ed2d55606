/**
 * Python's `dict` with string keys: an insertion-ordered list of entries.
 * Assigning `d[k] = v` keeps the position of an existing key and appends a new one.
 */
module Dicts {
  import opened Base

  type Dict<V> = seq<(string, V)>

  function Keys<V>(d: Dict<V>): (ks: seq<string>)
    ensures |ks| == |d|
    ensures forall i :: 0 <= i < |d| ==> ks[i] == d[i].0
  {
    if d == [] then [] else [d[0].0] + Keys(d[1..])
  }

  ghost predicate DistinctKeys<V>(d: Dict<V>) {
    forall i, j :: 0 <= i < j < |d| ==> d[i].0 != d[j].0
  }

  /** `d.get(k)`: the value stored under `k`, if any. */
  function Lookup<V>(d: Dict<V>, k: string): Option<V> {
    if d == [] then None
    else if d[0].0 == k then Some(d[0].1)
    else Lookup(d[1..], k)
  }

  /** A key reads a value exactly when it is one of the keys. */
  lemma {:induction false} LookupPresent<V>(d: Dict<V>, k: string)
    ensures Lookup(d, k).Some? <==> k in Keys(d)
  {
    if d != [] {
      assert Keys(d) == [d[0].0] + Keys(d[1..]);
      LookupPresent(d[1..], k);
    }
  }

  /** `d[k] = v`. */
  function Put<V>(d: Dict<V>, k: string, v: V): Dict<V> {
    if d == [] then [(k, v)]
    else if d[0].0 == k then [(k, v)] + d[1..]
    else [d[0]] + Put(d[1..], k, v)
  }

  /** After `d[k] = v`, `k` reads `v` and every other key reads what it read before. */
  lemma {:induction false} PutLookup<V>(d: Dict<V>, k: string, v: V, k': string)
    ensures Lookup(Put(d, k, v), k') == if k' == k then Some(v) else Lookup(d, k')
  {
    if d != [] && d[0].0 != k {
      PutLookup(d[1..], k, v, k');
    }
  }

  /** An existing key keeps its place; a new key goes last. */
  lemma {:induction false} PutKeys<V>(d: Dict<V>, k: string, v: V)
    ensures Keys(Put(d, k, v)) == if k in Keys(d) then Keys(d) else Keys(d) + [k]
  {
    if d != [] {
      assert Keys(d) == [d[0].0] + Keys(d[1..]);
      if d[0].0 != k {
        PutKeys(d[1..], k, v);
        assert Keys(Put(d, k, v)) == [d[0].0] + Keys(Put(d[1..], k, v));
      }
    }
  }

  lemma {:induction false} PutKeepsDistinct<V>(d: Dict<V>, k: string, v: V)
    requires DistinctKeys(d)
    ensures DistinctKeys(Put(d, k, v))
  {
    var r := Put(d, k, v);
    var ks := Keys(r);
    PutKeys(d, k, v);
    assert forall i :: 0 <= i < |r| ==> ks[i] == r[i].0;
    if k in Keys(d) {
      assert Keys(r) == Keys(d);
    } else {
      assert Keys(r) == Keys(d) + [k];
    }
  }

  /** Builds a dict by assigning the pairs in order, as a loop of `out[k] = v` does. */
  function FromPairs<V>(pairs: seq<(string, V)>): Dict<V>
  {
    if pairs == [] then [] else Put(FromPairs(pairs[..|pairs| - 1]), pairs[|pairs| - 1].0, pairs[|pairs| - 1].1)
  }

  /** The keys of a dict built from pairs are the keys the pairs mention. */
  lemma {:induction false} FromPairsKeys<V>(pairs: seq<(string, V)>, k: string)
    ensures k in Keys(FromPairs(pairs)) <==> k in Keys(pairs)
  {
    if pairs != [] {
      var init := pairs[..|pairs| - 1];
      var last := pairs[|pairs| - 1];
      FromPairsKeys(init, k);
      PutKeys(FromPairs(init), last.0, last.1);
      assert init + [last] == pairs;
      KeysSnoc(init, last);
    }
  }

  /** One more entry is one more key, last. */
  lemma KeysSnoc<V>(d: Dict<V>, e: (string, V))
    ensures Keys(d + [e]) == Keys(d) + [e.0]
  {
    var ks := Keys(d + [e]);
    assert forall i :: 0 <= i < |d| ==> ks[i] == (d + [e])[i].0 == d[i].0;
  }

  /** One more pair is one more assignment. */
  lemma FromPairsSnoc<V>(pairs: seq<(string, V)>, k: string, v: V)
    ensures FromPairs(pairs + [(k, v)]) == Put(FromPairs(pairs), k, v)
  {
    assert (pairs + [(k, v)])[..|pairs|] == pairs;
  }

  /** `d.update(pairs)`: the pairs assigned in order on top of `d`. */
  function Update<V>(d: Dict<V>, pairs: seq<(string, V)>): Dict<V>
  {
    if pairs == [] then d else Put(Update(d, pairs[..|pairs| - 1]), pairs[|pairs| - 1].0, pairs[|pairs| - 1].1)
  }

  /** After an update a key reads the value the pairs give it, or what it read before when they give none. */
  lemma {:induction false} UpdateLookup<V>(d: Dict<V>, pairs: seq<(string, V)>, k: string)
    ensures Lookup(Update(d, pairs), k) ==
      if Lookup(FromPairs(pairs), k).Some? then Lookup(FromPairs(pairs), k) else Lookup(d, k)
  {
    if pairs != [] {
      var init := pairs[..|pairs| - 1];
      var last := pairs[|pairs| - 1];
      UpdateLookup(d, init, k);
      PutLookup(Update(d, init), last.0, last.1, k);
      PutLookup(FromPairs(init), last.0, last.1, k);
    }
  }

  /** Assigning pairs whose keys are already distinct rebuilds exactly that list. */
  lemma {:induction false} FromDistinctPairs<V>(pairs: seq<(string, V)>)
    requires DistinctKeys(pairs)
    ensures FromPairs(pairs) == pairs
  {
    if pairs != [] {
      var init := pairs[..|pairs| - 1];
      var last := pairs[|pairs| - 1];
      FromDistinctPairs(init);
      forall i | 0 <= i < |init|
        ensures Keys(init)[i] != last.0
      {
        assert pairs[i].0 != pairs[|pairs| - 1].0;
      }
      PutAppends(init, last.0, last.1);
      assert init + [last] == pairs;
    }
  }

  lemma {:induction false} PutAppends<V>(d: Dict<V>, k: string, v: V)
    requires k !in Keys(d)
    ensures Put(d, k, v) == d + [(k, v)]
  {
    if d != [] {
      assert Keys(d)[0] == d[0].0;
      assert k !in Keys(d[1..]) by {
        assert forall i | 0 <= i < |d| - 1 :: Keys(d[1..])[i] == Keys(d)[i + 1];
      }
      PutAppends(d[1..], k, v);
      calc {
        Put(d, k, v);
        [d[0]] + Put(d[1..], k, v);
        [d[0]] + (d[1..] + [(k, v)]);
        d + [(k, v)];
      }
    }
  }
}
