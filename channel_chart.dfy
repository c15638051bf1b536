/**
 * The pie chart of companies per communication channel: count the
 * companies under their channel ("未設定", not set, when empty), relabel
 * each key against the list of channel options, and sort the slices by
 * count, largest first. Slice i is drawn in colour i modulo the palette.
 */
module CommunicationChannelChart {
  import opened Wrappers
  import opened Records
  import opened Counting
  import opened ChartData

  /** The label for a company without a channel, and for a channel no option names. */
  const Unset: string := "未設定"

  /** The slice palette. */
  const Colors: seq<string> := ["#4f46e5", "#10b981", "#f59e0b", "#ef4444", "#6b7280"]

  /** An entry of the `communication_channels` reference list; its name may be null. */
  datatype ChannelOption = ChannelOption(id: int, name: Option<string>)

  /** `company.communication_channel || "未設定"`: the empty string counts as unset. */
  function ChannelKey(c: Company): (k: Key)
    ensures k != ""
  {
    if c.communicationChannel == "" then Unset else c.communicationChannel
  }

  /** The key each company is counted under. */
  function ChannelKeys(companies: seq<Company>): seq<Key> {
    seq(|companies|, i requires 0 <= i < |companies| => ChannelKey(companies[i]))
  }

  /** `channelOptions.find((opt) => opt.name === key)`: the first option with that exact name. */
  function FindByName(options: seq<ChannelOption>, key: string): (r: Option<ChannelOption>)
    ensures r.None? <==> forall o :: o in options ==> o.name != Some(key)
    ensures r.Some? ==> r.value in options && r.value.name == Some(key)
  {
    if options == [] then None
    else if options[0].name == Some(key) then Some(options[0])
    else FindByName(options[1..], key)
  }

  /**
   * `find(...)?.name || "未設定"`: the key itself when some option carries
   * exactly that name, and "未設定" otherwise.
   */
  function Relabel(key: Key, options: seq<ChannelOption>): (name: string)
    ensures FindByName(options, key).Some? && key != "" ==> name == key
    ensures FindByName(options, key).None? || key == "" ==> name == Unset
  {
    match FindByName(options, key)
    case None => Unset
    case Some(o) => if o.name.Some? && o.name.value != "" then o.name.value else Unset
  }

  /** A counted key keeps its name exactly when some option carries that name; otherwise it becomes "未設定". */
  lemma RelabelName(key: Key, options: seq<ChannelOption>)
    requires key != ""
    ensures (exists o :: o in options && o.name == Some(key)) ==> Relabel(key, options) == key
    ensures (forall o :: o in options ==> o.name != Some(key)) ==> Relabel(key, options) == Unset
  {
  }

  /** The `map` of lines 31-38: each entry becomes a slice named by its relabelled key. */
  function Relabelled(entries: seq<(Key, nat)>, options: seq<ChannelOption>): (r: seq<Datum>)
    ensures |r| == |entries|
    ensures forall i :: 0 <= i < |r| ==> r[i] == Datum(Relabel(entries[i].0, options), entries[i].1)
    ensures Sum(r) == Total(entries)
  {
    if entries == [] then []
    else [Datum(Relabel(entries[0].0, options), entries[0].1)] + Relabelled(entries[1..], options)
  }

  /** The slices before sorting: `Object.entries(channelCounts).map(...)`. */
  function Slices(cs: seq<Company>, options: seq<ChannelOption>): seq<Datum> {
    Relabelled(Tally(ChannelKeys(cs)).Entries(), options)
  }

  /**
   * What `getChannelData` returns, as a value: the specification the method
   * `GetChannelData` below, which runs the reduce loop `CountKeys`, is
   * proved to meet.
   */
  function ChannelData(companies: Option<seq<Company>>, options: seq<ChannelOption>): (data: seq<Datum>)
    ensures companies.None? ==> data == []
    ensures SortedDesc(data)
    ensures companies.Some? ==> multiset(data) == multiset(Slices(companies.value, options))
    ensures companies.Some? ==> Sum(data) == |companies.value|
  {
    match companies
    case None => []
    case Some(cs) =>
      SliceTotals(cs, options);
      SortDesc(Slices(cs, options))
  }

  /**
   * `getChannelData` (lines 22-42): nothing for an absent company list;
   * otherwise the relabelled per-channel counts, largest first, each at
   * least one, adding up to the number of companies.
   */
  method GetChannelData(companies: Option<seq<Company>>, options: seq<ChannelOption>) returns (data: seq<Datum>)
    ensures data == ChannelData(companies, options)
    ensures companies.None? ==> data == []
    ensures SortedDesc(data)
    ensures companies.Some? ==> Sum(data) == |companies.value|
    ensures forall i :: 0 <= i < |data| ==> data[i].value >= 1
  {
    if companies.None? {
      return [];
    }
    var cs := companies.value;
    var channelCounts := CountKeys(ChannelKeys(cs));
    data := SortDesc(Relabelled(channelCounts.Entries(), options));
    SliceTotals(cs, options);
    SortedRowsComeFromInput(Slices(cs, options));
  }

  /** Before sorting, every slice holds at least one company, and together they hold all of them. */
  lemma SliceTotals(cs: seq<Company>, options: seq<ChannelOption>)
    ensures Sum(Slices(cs, options)) == |cs|
    ensures forall d :: d in Slices(cs, options) ==> d.value >= 1
  {
    var ks := ChannelKeys(cs);
    TallyEntries(ks);
    var e := Tally(ks).Entries();
    assert forall i :: 0 <= i < |e| ==> e[i].1 >= 1;
  }

  /**
   * Before sorting there is one slice per distinct channel key as counted
   * (before relabelling), in order of first occurrence, named by the
   * relabelled key and valued by the number of companies under that key
   * (at least one); the values add up to the number of companies. The
   * chart holds exactly these slices, reordered.
   */
  lemma SlicesPerKey(cs: seq<Company>, options: seq<ChannelOption>)
    ensures var ks := ChannelKeys(cs);
      var d := FirstOccurrences(ks);
      var slices := Slices(cs, options);
      && |slices| == |d|
      && (forall i :: 0 <= i < |d| ==> slices[i] == Datum(Relabel(d[i], options), Occurrences(ks, d[i])))
      && (forall i :: 0 <= i < |d| ==> Occurrences(ks, d[i]) >= 1)
      && Sum(slices) == |cs|
      && multiset(ChannelData(Some(cs), options)) == multiset(slices)
  {
    var ks := ChannelKeys(cs);
    TallyEntries(ks);
    var e := Tally(ks).Entries();
    var d := FirstOccurrences(ks);
    var slices := Relabelled(e, options);
    forall i | 0 <= i < |d|
      ensures slices[i] == Datum(Relabel(d[i], options), Occurrences(ks, d[i]))
      ensures Occurrences(ks, d[i]) >= 1
    {
      assert e[i].0 == d[i];
    }
  }

  /** No company is counted under the empty key. */
  lemma ChannelKeysNonEmpty(cs: seq<Company>)
    ensures forall k :: k in ChannelKeys(cs) ==> k != ""
  {
    forall k | k in ChannelKeys(cs)
      ensures k != ""
    {
      var j :| 0 <= j < |cs| && ChannelKeys(cs)[j] == k;
      assert k == ChannelKey(cs[j]);
    }
  }

  lemma SliceNameAt(cs: seq<Company>, options: seq<ChannelOption>, j: nat)
    requires j < |Slices(cs, options)|
    ensures var name := Slices(cs, options)[j].name;
      name == Unset || exists o :: o in options && o.name == Some(name)
  {
    SlicesPerKey(cs, options);
    var key := FirstOccurrences(ChannelKeys(cs))[j];
    ChannelKeysNonEmpty(cs);
    assert key in ChannelKeys(cs);
    RelabelName(key, options);
  }

  /** Every slice is named "未設定" or after a channel option. */
  lemma SliceNames(cs: seq<Company>, options: seq<ChannelOption>)
    ensures var data := ChannelData(Some(cs), options);
      forall i :: 0 <= i < |data| ==>
        data[i].name == Unset || exists o :: o in options && o.name == Some(data[i].name)
  {
    var slices := Slices(cs, options);
    var data := ChannelData(Some(cs), options);
    forall i | 0 <= i < |data|
      ensures data[i].name == Unset || exists o :: o in options && o.name == Some(data[i].name)
    {
      assert data[i] in multiset(slices);
      var j :| 0 <= j < |slices| && slices[j] == data[i];
      SliceNameAt(cs, options, j);
    }
  }

  /** The key "未設定" is always labelled "未設定". */
  lemma RelabelUnset(options: seq<ChannelOption>)
    ensures Relabel(Unset, options) == Unset
  {
    assert |Unset| == 3;
  }

  /** A company with an empty channel puts a slice named "未設定" into the chart, holding every such company. */
  lemma EmptyChannelIsUnset(cs: seq<Company>, options: seq<ChannelOption>, c: Company)
    requires c in cs && c.communicationChannel == ""
    ensures Datum(Unset, Occurrences(ChannelKeys(cs), Unset)) in multiset(ChannelData(Some(cs), options))
    ensures Occurrences(ChannelKeys(cs), Unset) >= 1
  {
    var ks := ChannelKeys(cs);
    var j :| 0 <= j < |cs| && cs[j] == c;
    assert ks[j] == Unset;
    var d := FirstOccurrences(ks);
    assert Unset in d;
    var i :| 0 <= i < |d| && d[i] == Unset;
    SlicesPerKey(cs, options);
    RelabelUnset(options);
    var slices := Slices(cs, options);
    assert slices[i] == Datum(Unset, Occurrences(ks, Unset));
    assert slices[i] in multiset(slices);
  }

  /**
   * Relabelling does not merge slices: with no options, a company without a
   * channel and one on an unlisted channel give two slices, both named
   * "未設定".
   */
  lemma TwoUnsetSlices(a: Company, b: Company)
    requires a.communicationChannel == "" && b.communicationChannel == "FAX"
    ensures ChannelData(Some([a, b]), []) == [Datum(Unset, 1), Datum(Unset, 1)]
  {
    var ks := ChannelKeys([a, b]);
    assert ks == [Unset, "FAX"];
    assert ks[..1] == [Unset];
    assert FirstOccurrences(ks) == [Unset, "FAX"];
    assert Occurrences(ks, Unset) == 1;
    assert Occurrences(ks, "FAX") == 1;
    TallyEntries(ks);
    assert Tally(ks).Entries() == [(Unset, 1), ("FAX", 1)];
    assert Relabel("FAX", []) == Unset;
    RelabelUnset([]);
    var u := Datum(Unset, 1);
    assert Slices([a, b], []) == [u, u];
    assert [u, u][1..] == [u];
    assert SortDesc([u]) == InsertDesc(u, []) == [u];
    assert SortDesc([u, u]) == InsertDesc(u, [u]) == [u, u];
  }

  /** `index % COLORS.length`: always a valid index into the palette. */
  function ColorIndex(i: nat): (r: nat)
    ensures r < |Colors|
    ensures r == i || i >= |Colors|
  {
    i % |Colors|
  }

  /**
   * Lines 50 and 58-62: `getChannelData()` is called once for the slices and
   * once more for their cells; both calls give the same list, so there is
   * one cell per slice, cell i in colour `COLORS[i % 5]`.
   */
  method ChannelChart(companies: Option<seq<Company>>, options: seq<ChannelOption>)
    returns (slices: seq<Datum>, cells: seq<string>)
    ensures slices == ChannelData(companies, options)
    ensures |cells| == |slices|
    ensures forall i :: 0 <= i < |cells| ==> cells[i] == Colors[ColorIndex(i)]
  {
    slices := GetChannelData(companies, options);
    var again := GetChannelData(companies, options);
    assert again == slices;
    cells := seq(|again|, i requires 0 <= i < |again| => Colors[ColorIndex(i)]);
  }
}
