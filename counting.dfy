/**
 * Counting into a JavaScript object: the shape shared by every chart of the
 * dashboard,
 *
 *   xs.reduce((acc, x) => { acc[key(x)] = (acc[key(x)] || 0) + 1; return acc; }, {})
 *
 * followed by `Object.entries(acc)`. The object is a dictionary from key to
 * count together with the order in which its properties were first set.
 */
module Counting {

  /** A property name of a JavaScript object: object keys are always strings. */
  type Key = string

  /** No element occurs twice. */
  predicate Distinct(s: seq<Key>) {
    forall i, j :: 0 <= i < j < |s| ==> s[i] != s[j]
  }

  /** How many times `k` occurs in `ks`. */
  function Occurrences(ks: seq<Key>, k: Key): (n: nat)
    ensures n <= |ks|
    ensures n > 0 <==> k in ks
  {
    if ks == [] then 0
    else
      assert ks == ks[..|ks| - 1] + [ks[|ks| - 1]];
      Occurrences(ks[..|ks| - 1], k) + (if ks[|ks| - 1] == k then 1 else 0)
  }

  /** The distinct elements of `ks`, each where it first occurs. */
  function FirstOccurrences(ks: seq<Key>): (d: seq<Key>)
    ensures Distinct(d)
    ensures forall k :: k in d <==> k in ks
    ensures |d| <= |ks|
  {
    if ks == [] then []
    else
      var d := FirstOccurrences(ks[..|ks| - 1]);
      var k := ks[|ks| - 1];
      assert ks == ks[..|ks| - 1] + [k];
      if k in d then d else d + [k]
  }

  /** The value an absent property reads as: `acc[k] || 0`. */
  function Lookup(counts: map<Key, nat>, k: Key): nat {
    if k in counts then counts[k] else 0
  }

  /** `Object.entries` of a dictionary whose properties were set in the order `keys`. */
  function EntriesOf(keys: seq<Key>, counts: map<Key, nat>): seq<(Key, nat)> {
    if keys == [] then [] else [(keys[0], Lookup(counts, keys[0]))] + EntriesOf(keys[1..], counts)
  }

  /** The sum of the counts of some entries. */
  function Total(entries: seq<(Key, nat)>): nat {
    if entries == [] then 0 else entries[0].1 + Total(entries[1..])
  }

  /** A counting object: its property names in insertion order, and the count under each. */
  datatype Counter = Counter(keys: seq<Key>, counts: map<Key, nat>) {
    /** The key order lists every property exactly once. */
    ghost predicate Valid() {
      Distinct(keys) && forall k :: k in counts <==> k in keys
    }

    /** `acc[k] || 0`. */
    function Get(k: Key): nat {
      Lookup(counts, k)
    }

    /** `Object.entries(acc)`. */
    function Entries(): seq<(Key, nat)> {
      EntriesOf(keys, counts)
    }
  }

  /** One step of the reduce: `acc[k] = (acc[k] || 0) + 1`; a new property goes to the end of the key order. */
  function Bump(acc: Counter, k: Key): Counter {
    Counter(if k in acc.counts then acc.keys else acc.keys + [k], acc.counts[k := acc.Get(k) + 1])
  }

  /**
   * The object that counting every element of `ks`, front to back, leaves
   * behind: its properties are the distinct keys in order of first
   * occurrence, and each key reads as its number of occurrences.
   */
  function Tally(ks: seq<Key>): (c: Counter)
    ensures c.Valid()
    ensures c.keys == FirstOccurrences(ks)
    ensures forall k :: c.Get(k) == Occurrences(ks, k)
  {
    if ks == [] then Counter([], map[])
    else
      assert ks == ks[..|ks| - 1] + [ks[|ks| - 1]];
      Bump(Tally(ks[..|ks| - 1]), ks[|ks| - 1])
  }

  /** The reduce itself: one pass over `ks`, bumping the property of each key in place. */
  method CountKeys(ks: seq<Key>) returns (acc: Counter)
    ensures acc == Tally(ks)
  {
    var keys: seq<Key> := [];
    var counts: map<Key, nat> := map[];
    for i := 0 to |ks|
      invariant Counter(keys, counts) == Tally(ks[..i])
    {
      var k := ks[i];
      assert ks[..i + 1][..i] == ks[..i];
      if k !in counts {
        keys := keys + [k];
      }
      counts := counts[k := Lookup(counts, k) + 1];
    }
    assert ks[..|ks|] == ks;
    acc := Counter(keys, counts);
  }

  /**
   * One reduce step bumps exactly the counted key; on a well-formed counter
   * a key seen for the first time goes to the end of the key order and a
   * key seen before keeps its place.
   */
  lemma BumpCounts(acc: Counter, k: Key)
    ensures Bump(acc, k).Get(k) == acc.Get(k) + 1
    ensures forall j :: j != k ==> Bump(acc, k).Get(j) == acc.Get(j)
    ensures acc.Valid() ==> Bump(acc, k).Valid()
    ensures acc.Valid() ==> Bump(acc, k).keys == if k in acc.keys then acc.keys else acc.keys + [k]
  {
  }

  /** `Object.entries`: one entry per property, in property order, each with the value read under it. */
  lemma {:induction false} EntriesOfShape(keys: seq<Key>, counts: map<Key, nat>)
    ensures |EntriesOf(keys, counts)| == |keys|
    ensures forall i :: 0 <= i < |keys| ==> EntriesOf(keys, counts)[i] == (keys[i], Lookup(counts, keys[i]))
  {
    if keys != [] {
      EntriesOfShape(keys[1..], counts);
    }
  }

  // ----- Entries of a tally -----

  /** The entries `(k, Occurrences(ks, k))` for the keys `d`, in order. */
  function CountsFor(d: seq<Key>, ks: seq<Key>): seq<(Key, nat)> {
    if d == [] then [] else [(d[0], Occurrences(ks, d[0]))] + CountsFor(d[1..], ks)
  }

  lemma {:induction false} EntriesAreCounts(d: seq<Key>, ks: seq<Key>)
    ensures EntriesOf(d, Tally(ks).counts) == CountsFor(d, ks)
  {
    if d != [] {
      EntriesAreCounts(d[1..], ks);
    }
  }

  lemma {:induction false} CountsForShape(d: seq<Key>, ks: seq<Key>)
    ensures |CountsFor(d, ks)| == |d|
    ensures forall i :: 0 <= i < |d| ==> CountsFor(d, ks)[i] == (d[i], Occurrences(ks, d[i]))
  {
    if d != [] {
      CountsForShape(d[1..], ks);
    }
  }

  lemma {:induction false} CountsForAppend(a: seq<Key>, b: seq<Key>, ks: seq<Key>)
    ensures CountsFor(a + b, ks) == CountsFor(a, ks) + CountsFor(b, ks)
  {
    if a == [] {
      assert a + b == b;
    } else {
      assert (a + b)[1..] == a[1..] + b;
      CountsForAppend(a[1..], b, ks);
    }
  }

  lemma {:induction false} TotalAppend(a: seq<(Key, nat)>, b: seq<(Key, nat)>)
    ensures Total(a + b) == Total(a) + Total(b)
  {
    if a == [] {
      assert a + b == b;
    } else {
      assert (a + b)[1..] == a[1..] + b;
      TotalAppend(a[1..], b);
    }
  }

  /** Counting one more key `x` raises the total over distinct keys `d` by one exactly when `x` is among them. */
  lemma {:induction false} TotalSnoc(d: seq<Key>, ks: seq<Key>, x: Key)
    requires Distinct(d)
    ensures Total(CountsFor(d, ks + [x])) == Total(CountsFor(d, ks)) + (if x in d then 1 else 0)
  {
    assert (ks + [x])[..|ks|] == ks;
    if d != [] {
      assert Distinct(d[1..]);
      assert x in d <==> x == d[0] || x in d[1..];
      assert d[0] == x ==> x !in d[1..];
      TotalSnoc(d[1..], ks, x);
    }
  }

  lemma {:induction false} TotalOfTally(ks: seq<Key>)
    ensures Total(CountsFor(FirstOccurrences(ks), ks)) == |ks|
  {
    if ks != [] {
      var p, x := ks[..|ks| - 1], ks[|ks| - 1];
      assert ks == p + [x];
      var d := FirstOccurrences(p);
      TotalOfTally(p);
      TotalSnoc(d, p, x);
      if x !in d {
        CountsForAppend(d, [x], ks);
        TotalAppend(CountsFor(d, ks), CountsFor([x], ks));
        assert Occurrences(p, x) == 0;
      }
    }
  }

  /**
   * What `Object.entries` of a tally holds: one entry per distinct key, in
   * order of first occurrence, each with that key's number of occurrences
   * (at least one); the counts add up to the number of keys counted.
   */
  lemma TallyEntries(ks: seq<Key>)
    ensures var e := Tally(ks).Entries();
      && |e| == |FirstOccurrences(ks)|
      && (forall i :: 0 <= i < |e| ==> e[i].0 == FirstOccurrences(ks)[i])
      && (forall i :: 0 <= i < |e| ==> e[i].1 == Occurrences(ks, e[i].0) >= 1)
      && Total(e) == |ks|
  {
    var d := FirstOccurrences(ks);
    EntriesAreCounts(d, ks);
    CountsForShape(d, ks);
    TotalOfTally(ks);
  }
}
