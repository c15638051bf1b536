/**
 * The `{ name, value }` rows the charts are drawn from, and the two
 * pipeline steps applied to them: `sort((a, b) => b.value - a.value)` and
 * `slice(0, n)`.
 */
module ChartData {
  import opened Counting

  /** One bar or one pie slice. */
  datatype Datum = Datum(name: string, value: nat)

  /** The sum of the values. */
  function Sum(data: seq<Datum>): nat {
    if data == [] then 0 else data[0].value + Sum(data[1..])
  }

  /** Non-increasing by value. */
  predicate SortedDesc(data: seq<Datum>) {
    forall i, j :: 0 <= i < j < |data| ==> data[i].value >= data[j].value
  }

  /** The names, in order. */
  function Names(data: seq<Datum>): (r: seq<string>)
    ensures |r| == |data| && forall i :: 0 <= i < |data| ==> r[i] == data[i].name
  {
    if data == [] then [] else [data[0].name] + Names(data[1..])
  }

  /**
   * Insert `x` into a descending list in front of the first row whose value
   * is not larger: `x` came earlier in the input than every row of `s`, so a
   * stable sort keeps it ahead of equal rows.
   */
  function InsertDesc(x: Datum, s: seq<Datum>): (r: seq<Datum>)
    ensures SortedDesc(s) ==> SortedDesc(r)
    ensures |r| == |s| + 1
    ensures Sum(r) == Sum(s) + x.value
    ensures r[0] == x || (s != [] && r[0] == s[0])
  {
    if s == [] || s[0].value <= x.value then
      var r := [x] + s;
      assert r[1..] == s;
      r
    else
      var t := InsertDesc(x, s[1..]);
      var r := [s[0]] + t;
      assert r[1..] == t;
      assert s == [s[0]] + s[1..];
      assert SortedDesc(s) ==> SortedDesc(r) by {
        if SortedDesc(s) {
          TailSorted(s);
          ConsSorted(s[0], t);
        }
      }
      r
  }

  /** Inserting adds exactly the one row. */
  lemma {:induction false} InsertDescAdds(x: Datum, s: seq<Datum>)
    ensures multiset(InsertDesc(x, s)) == multiset(s) + multiset{x}
  {
    if s == [] || s[0].value <= x.value {
      assert InsertDesc(x, s) == [x] + s;
    } else {
      var h, t := s[0], s[1..];
      InsertDescAdds(x, t);
      var r := InsertDesc(x, t);
      assert s == [h] + t;
      calc {
        multiset(InsertDesc(x, s));
        multiset([h] + r);
        multiset{h} + multiset(r);
        multiset{h} + (multiset(t) + multiset{x});
        (multiset{h} + multiset(t)) + multiset{x};
        multiset(s) + multiset{x};
      }
    }
  }

  lemma TailSorted(s: seq<Datum>)
    requires SortedDesc(s) && s != []
    ensures SortedDesc(s[1..])
  {
    forall i, j | 0 <= i < j < |s| - 1
      ensures s[1..][i].value >= s[1..][j].value
    {
      assert s[1..][i] == s[i + 1] && s[1..][j] == s[j + 1];
    }
  }

  /** A row no smaller than the head of a descending list can go in front of it. */
  lemma ConsSorted(h: Datum, t: seq<Datum>)
    requires SortedDesc(t) && (t == [] || t[0].value <= h.value)
    ensures SortedDesc([h] + t)
  {
    var r := [h] + t;
    forall i, j | 0 <= i < j < |r|
      ensures r[i].value >= r[j].value
    {
      if i > 0 {
        assert r[i] == t[i - 1] && r[j] == t[j - 1];
      } else {
        assert r[j] == t[j - 1];
      }
    }
  }

  /**
   * `Array.prototype.sort` with the comparator `b.value - a.value`: a stable
   * sort into non-increasing order of value.
   */
  function SortDesc(s: seq<Datum>): (r: seq<Datum>)
    ensures SortedDesc(r)
    ensures multiset(r) == multiset(s)
    ensures |r| == |s|
    ensures Sum(r) == Sum(s)
  {
    if s == [] then []
    else
      assert s == [s[0]] + s[1..];
      InsertDescAdds(s[0], SortDesc(s[1..]));
      InsertDesc(s[0], SortDesc(s[1..]))
  }

  /** Sorting only reorders: every row of the result is a row of the input. */
  lemma SortedRowsComeFromInput(s: seq<Datum>)
    ensures forall i :: 0 <= i < |SortDesc(s)| ==> SortDesc(s)[i] in s
  {
    var r := SortDesc(s);
    forall i | 0 <= i < |r|
      ensures r[i] in s
    {
      assert r[i] in multiset(r);
    }
  }

  /**
   * `sort(...).slice(0, n)`: the `n` rows of largest value, largest first.
   * Every row that is cut off has a value no larger than the smallest row
   * kept.
   */
  function Top(rows: seq<Datum>, n: nat): (r: seq<Datum>)
    ensures |r| == if |rows| < n then |rows| else n
    ensures SortedDesc(r)
    ensures multiset(r) <= multiset(rows)
    ensures |r| > 0 ==> forall x :: x in multiset(rows) - multiset(r) ==> x.value <= r[|r| - 1].value
  {
    Take(SortDesc(rows), n)
  }

  /**
   * `slice(0, n)` of a descending list: its first `n` rows (all of them when
   * there are fewer), still descending, and every row after them no larger
   * than the last one kept.
   */
  function Take(sorted: seq<Datum>, n: nat): (r: seq<Datum>)
    requires SortedDesc(sorted)
    ensures |r| == if |sorted| < n then |sorted| else n
    ensures r == sorted[..|r|]
    ensures SortedDesc(r)
    ensures multiset(r) <= multiset(sorted)
    ensures |r| > 0 ==> forall x :: x in multiset(sorted) - multiset(r) ==> x.value <= r[|r| - 1].value
  {
    var m := if |sorted| < n then |sorted| else n;
    PrefixSorted(sorted, m);
    SplitAt(sorted, m);
    CutRowsNoLarger(sorted, m);
    sorted[..m]
  }

  lemma PrefixSorted(sorted: seq<Datum>, m: nat)
    requires SortedDesc(sorted) && m <= |sorted|
    ensures SortedDesc(sorted[..m])
  {
    var kept := sorted[..m];
    forall i, j | 0 <= i < j < |kept|
      ensures kept[i].value >= kept[j].value
    {
      assert kept[i] == sorted[i] && kept[j] == sorted[j];
    }
  }

  lemma SplitAt(s: seq<Datum>, m: nat)
    requires m <= |s|
    ensures multiset(s[..m]) <= multiset(s)
    ensures multiset(s) - multiset(s[..m]) == multiset(s[m..])
  {
    assert s == s[..m] + s[m..];
  }

  lemma CutRowsNoLarger(sorted: seq<Datum>, m: nat)
    requires SortedDesc(sorted) && m <= |sorted|
    ensures m > 0 ==> forall x :: x in multiset(sorted[m..]) ==> x.value <= sorted[..m][m - 1].value
  {
    forall x | x in multiset(sorted[m..]) && m > 0
      ensures x.value <= sorted[m - 1].value
    {
      var j :| 0 <= j < |sorted[m..]| && sorted[m..][j] == x;
      assert sorted[m + j] == x;
    }
  }

  /** `Object.entries(acc).map(([name, value]) => ({ name, value }))`. */
  function ToData(entries: seq<(Key, nat)>): (r: seq<Datum>)
    ensures |r| == |entries|
    ensures forall i :: 0 <= i < |r| ==> r[i] == Datum(entries[i].0, entries[i].1)
    ensures Sum(r) == Total(entries)
  {
    if entries == [] then [] else [Datum(entries[0].0, entries[0].1)] + ToData(entries[1..])
  }

  /**
   * The rows of a chart that plots a tally directly: one row per distinct
   * key, named by the key, whose value is how often the key occurs (so at
   * least one); the values add up to the number of keys counted.
   */
  lemma TallyData(ks: seq<Key>)
    ensures var data := ToData(Tally(ks).Entries());
      && Distinct(Names(data))
      && (forall k :: k in Names(data) <==> k in ks)
      && (forall i :: 0 <= i < |data| ==> data[i].value == Occurrences(ks, data[i].name) >= 1)
      && Sum(data) == |ks|
  {
    TallyEntries(ks);
    var e := Tally(ks).Entries();
    NamesOfData(e, FirstOccurrences(ks));
  }

  /** The rows made from entries are named by the entries' keys. */
  lemma NamesOfData(e: seq<(Key, nat)>, keys: seq<Key>)
    requires |e| == |keys| && forall i :: 0 <= i < |e| ==> e[i].0 == keys[i]
    ensures Names(ToData(e)) == keys
  {
    assert |Names(ToData(e))| == |keys|;
  }
}
