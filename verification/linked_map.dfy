/**
 A `java.util.LinkedHashMap<String, V>` in insertion order: a sequence of
 (key, value) entries whose keys are pairwise distinct. `put` replaces the value
 of a present key in place and appends an absent one; `remove` drops the entry
 and keeps the order of the rest. `ToMap` forgets the order and is the
 reference against which lookups, puts and removals are checked.
 */
module LinkedMap {
  import opened JavaLang

  type Entries<V> = seq<(string, V)>

  function KeySet<V>(m: Entries<V>): (ks: set<string>)
    ensures forall i :: 0 <= i < |m| ==> m[i].0 in ks
  {
    if m == [] then {} else {m[0].0} + KeySet(m[1..])
  }

  /** The representation invariant: no key occurs twice. */
  predicate UniqueKeys<V>(m: Entries<V>) {
    m == [] || (m[0].0 !in KeySet(m[1..]) && UniqueKeys(m[1..]))
  }

  /** The position of a present key. */
  function IndexOf<V>(m: Entries<V>, k: string): (i: nat)
    requires k in KeySet(m)
    ensures i < |m| && m[i].0 == k
    ensures forall j :: 0 <= j < i ==> m[j].0 != k
  {
    if m[0].0 == k then 0 else 1 + IndexOf(m[1..], k)
  }

  /** The order-free view: the mapping the entries denote. */
  function ToMap<V>(m: Entries<V>): map<string, V> {
    if m == [] then map[] else ToMap(m[1..])[m[0].0 := m[0].1]
  }

  /** `get`: the value stored under `k`, or `null`. */
  function Get<V>(m: Entries<V>, k: string): (r: Option<V>)
    ensures r.Some? <==> k in KeySet(m)
    ensures r.Some? ==> r.value == m[IndexOf(m, k)].1
  {
    if m == [] then None
    else if m[0].0 == k then Some(m[0].1)
    else Get(m[1..], k)
  }

  /** `put`: a present key keeps its position and takes the new value; an absent key is appended last. */
  function Put<V>(m: Entries<V>, k: string, v: V): (r: Entries<V>)
    requires UniqueKeys(m)
    ensures UniqueKeys(r)
    ensures KeySet(r) == KeySet(m) + {k}
    ensures k !in KeySet(m) ==> r == m + [(k, v)]
    ensures k in KeySet(m) ==> |r| == |m| && forall i :: 0 <= i < |m| ==> r[i] == (if m[i].0 == k then (k, v) else m[i])
  {
    if m == [] then [(k, v)]
    else if m[0].0 == k then [(k, v)] + m[1..]
    else
      var rest := Put(m[1..], k, v);
      assert ([m[0]] + rest)[1..] == rest;
      [m[0]] + rest
  }

  /** `remove`: the entry for `k` disappears if there was one; the others keep their order. */
  function Remove<V>(m: Entries<V>, k: string): (r: Entries<V>)
    requires UniqueKeys(m)
    ensures UniqueKeys(r)
    ensures KeySet(r) == KeySet(m) - {k}
    ensures k !in KeySet(m) ==> r == m
    ensures k in KeySet(m) ==>
              && |r| == |m| - 1
              && (forall i :: 0 <= i < IndexOf(m, k) ==> r[i] == m[i])
              && (forall i :: IndexOf(m, k) <= i < |r| ==> r[i] == m[i + 1])
  {
    if m == [] then []
    else if m[0].0 == k then m[1..]
    else
      var rest := Remove(m[1..], k);
      assert ([m[0]] + rest)[1..] == rest;
      [m[0]] + rest
  }

  /** A lookup in the entries is a lookup in the mapping they denote. */
  lemma {:induction false} GetIsMapLookup<V>(m: Entries<V>, k: string)
    ensures Get(m, k) == if k in ToMap(m) then Some(ToMap(m)[k]) else None
  {
    if m != [] && m[0].0 != k {
      GetIsMapLookup(m[1..], k);
    }
  }

  /** `put` is an update of the denoted mapping. */
  lemma {:induction false} PutIsMapUpdate<V>(m: Entries<V>, k: string, v: V)
    requires UniqueKeys(m)
    ensures ToMap(Put(m, k, v)) == ToMap(m)[k := v]
  {
    if m == [] {
    } else if m[0].0 == k {
      MapKeys(m[1..]);
    } else {
      var rest := Put(m[1..], k, v);
      assert ToMap(Put(m, k, v)) == ToMap(rest)[m[0].0 := m[0].1] by {
        assert Put(m, k, v) == [m[0]] + rest;
        assert ([m[0]] + rest)[1..] == rest;
      }
      PutIsMapUpdate(m[1..], k, v);
      UpdatesCommute(ToMap(m[1..]), m[0].0, m[0].1, k, v);
    }
  }

  /** `remove` takes the key out of the denoted mapping. */
  lemma {:induction false} RemoveIsMapRemoval<V>(m: Entries<V>, k: string)
    requires UniqueKeys(m)
    ensures ToMap(Remove(m, k)) == ToMap(m) - {k}
  {
    if m == [] {
    } else if m[0].0 == k {
      MapKeys(m[1..]);
      assert Remove(m, k) == m[1..];
    } else {
      var rest := Remove(m[1..], k);
      assert ToMap(Remove(m, k)) == ToMap(rest)[m[0].0 := m[0].1] by {
        assert Remove(m, k) == [m[0]] + rest;
        assert ([m[0]] + rest)[1..] == rest;
      }
      RemoveIsMapRemoval(m[1..], k);
      UpdateThenRemove(ToMap(m[1..]), m[0].0, m[0].1, k);
    }
  }

  /** Updates of two different keys commute. */
  lemma UpdatesCommute<V>(mp: map<string, V>, a: string, w: V, k: string, v: V)
    requires a != k
    ensures mp[k := v][a := w] == mp[a := w][k := v]
  {
  }

  /** Updating one key and removing another commute. */
  lemma UpdateThenRemove<V>(mp: map<string, V>, a: string, v: V, k: string)
    requires a != k
    ensures (mp - {k})[a := v] == mp[a := v] - {k}
  {
  }

  /** The denoted mapping has exactly the keys of the entries. */
  lemma {:induction false} MapKeys<V>(m: Entries<V>)
    ensures ToMap(m).Keys == KeySet(m)
  {
    if m != [] {
      MapKeys(m[1..]);
    }
  }

  /**
   `put` for a value, `remove` for `null`: afterwards `k` looks up exactly `v`
   and every other key looks up what it did before.
   */
  function PutOrRemove<V>(m: Entries<V>, k: string, v: Option<V>): (r: Entries<V>)
    requires UniqueKeys(m)
    ensures UniqueKeys(r)
    ensures Get(r, k) == v
    ensures forall n :: n != k ==> Get(r, n) == Get(m, n)
    ensures v.Some? && k !in KeySet(m) ==> r == m + [(k, v.value)]
    ensures v.Some? && k in KeySet(m) ==> KeySet(r) == KeySet(m) && IndexOf(r, k) == IndexOf(m, k)
    ensures v.None? && k !in KeySet(m) ==> r == m
  {
    var r := if v.None? then Remove(m, k) else Put(m, k, v.value);
    assert Get(r, k) == v && forall n :: n != k ==> Get(r, n) == Get(m, n) by {
      if v.None? {
        RemoveIsMapRemoval(m, k);
      } else {
        PutIsMapUpdate(m, k, v.value);
      }
      GetIsMapLookup(r, k);
      forall n | n != k
        ensures Get(r, n) == Get(m, n)
      {
        GetIsMapLookup(m, n);
        GetIsMapLookup(r, n);
      }
    }
    r
  }

  /**
   The entries other than `k`'s keep their order: a put leaves every other
   entry at its position, a removal closes the gap and shifts the later ones up
   by one.
   */
  lemma PutOrRemoveKeepsOrder<V>(m: Entries<V>, k: string, v: Option<V>)
    requires UniqueKeys(m)
    ensures var r := PutOrRemove(m, k, v);
            && (v.Some? ==> |r| >= |m| && forall i :: 0 <= i < |m| && m[i].0 != k ==> r[i] == m[i])
            && (v.None? && k in KeySet(m) ==>
                  && |r| == |m| - 1
                  && (forall i :: 0 <= i < IndexOf(m, k) ==> r[i] == m[i])
                  && (forall i :: IndexOf(m, k) <= i < |r| ==> r[i] == m[i + 1]))
  {
  }

  /** Under the invariant a key sits at exactly one position. */
  lemma {:induction false} KeyAtOnePosition<V>(m: Entries<V>, i: nat, j: nat)
    requires UniqueKeys(m) && i < |m| && j < |m| && m[i].0 == m[j].0
    ensures i == j
  {
    if i > 0 && j > 0 {
      KeyAtOnePosition(m[1..], i - 1, j - 1);
    }
  }

  /** Putting or removing the same key and value a second time changes nothing. */
  lemma PutOrRemoveIdempotent<V>(m: Entries<V>, k: string, v: Option<V>)
    requires UniqueKeys(m)
    ensures PutOrRemove(PutOrRemove(m, k, v), k, v) == PutOrRemove(m, k, v)
  {
    var r1 := PutOrRemove(m, k, v);
    if v.Some? {
      var r2 := PutOrRemove(r1, k, v);
      assert k in KeySet(r1);
      forall i | 0 <= i < |r1| && r1[i].0 == k
        ensures r1[i] == (k, v.value)
      {
        KeyAtOnePosition(r1, i, IndexOf(r1, k));
      }
      assert r2 == r1;
    }
  }
}
