/** `per_feature_aggregate` of `scripts/cost_audit.py`. */
module FeatureCosts {
  import opened Buckets
  import opened Sorting
  import opened Text
  import opened Wrappers

  /** A row of `model_invocations`: tokens missing count 0, and so does a missing cost; a cost that
      is not a number is `None`. */
  datatype Row = Row(feature: Option<string>, prompt: int, completion: int, cost: Option<real>)

  datatype Sums = Sums(calls: int, prompt: int, completion: int, cost: real)

  datatype FeatureRow = FeatureRow(name: string, calls: int, prompt: int, completion: int, total: int, cost: real)

  const UNSET := "unset"

  function Plus(a: Sums, b: Sums): Sums {
    Sums(a.calls + b.calls, a.prompt + b.prompt, a.completion + b.completion, a.cost + b.cost)
  }

  const ADDING := Adding(Sums(0, 0, 0, 0.0), Plus)

  function FeatureOf(row: Row): string {
    if row.feature.None? then UNSET
    else
      var stripped := Strip(row.feature.value);
      if stripped != "" then stripped else UNSET
  }

  /** A feature's name is what is left of the text without surrounding white space; a row with no
      name, or a blank one, is "unset". */
  lemma {:induction false} FeatureOfIs(row: Row)
    ensures row.feature.None? || Blank(row.feature.value) ==> FeatureOf(row) == "unset"
    ensures row.feature.Some? && !Blank(row.feature.value) ==>
              && FeatureOf(row) != "" && !IsSpace(FeatureOf(row)[0]) && !IsSpace(FeatureOf(row)[|FeatureOf(row)| - 1])
              && exists pre, post :: row.feature.value == pre + FeatureOf(row) + post && Blank(pre) && Blank(post)
  {
    if row.feature.Some? {
      var pre, post := StripIs(row.feature.value);
    }
  }

  /** One row's share of its bucket: a malformed cost is skipped, the rest of the row is not. */
  function Share(row: Row): Sums {
    Sums(1, row.prompt, row.completion, if row.cost.Some? then row.cost.value else 0.0)
  }

  function RowOf(name: string, s: Sums): FeatureRow {
    FeatureRow(name, s.calls, s.prompt, s.completion, s.prompt + s.completion, s.cost)
  }

  function NameOf(r: FeatureRow): string {
    r.name
  }

  function SumsOf(r: FeatureRow): Sums {
    Sums(r.calls, r.prompt, r.completion, r.cost)
  }

  /** Highest cost first, then by name. */
  predicate FeatureLe(a: FeatureRow, b: FeatureRow) {
    a.cost > b.cost || (a.cost == b.cost && StringLe(a.name, b.name))
  }

  lemma {:induction false} FeatureOrder()
    ensures TotalOrder(FeatureLe)
    ensures forall a, b :: FeatureLe(a, b) && FeatureLe(b, a) ==> NameOf(a) == NameOf(b)
  {
    StringOrder();
    forall a, b, c | FeatureLe(a, b) && FeatureLe(b, c) ensures FeatureLe(a, c) {
      assert StringLe(a.name, b.name) && StringLe(b.name, c.name) ==> StringLe(a.name, c.name);
    }
  }

  /** A line for each feature that occurs, holding the sums of its rows, dearest first. */
  ghost predicate IsReport(rows: seq<Row>, out: seq<FeatureRow>) {
    Lists(ADDING, rows, FeatureOf, Share, out, NameOf, RowOf) && SortedBy(out, FeatureLe)
  }

  function At(agg: map<string, Sums>, k: string): Sums {
    if k in agg then agg[k] else ADDING.zero
  }

  /** The dictionary built from the rows, and its keys in order of appearance. */
  ghost predicate Grouped(rows: seq<Row>, agg: map<string, Sums>, names: seq<string>) {
    && Keys(rows, FeatureOf, names)
    && (forall k :: k in agg <==> k in names)
    && (forall k :: SumAt(ADDING, rows, FeatureOf, k, Share) == At(agg, k))
  }

  /** `agg'` and `names'` are the dictionary and its keys with `row` added. */
  ghost predicate RowAdded(agg: map<string, Sums>, names: seq<string>, row: Row,
                           agg': map<string, Sums>, names': seq<string>) {
    var k := FeatureOf(row);
    && agg' == agg[k := Plus(At(agg, k), Share(row))]
    && names' == if k in agg then names else names + [k]
  }

  lemma {:induction false} BucketNext(rows: seq<Row>, row: Row, agg: map<string, Sums>, agg': map<string, Sums>, k: string)
    requires SumAt(ADDING, rows, FeatureOf, k, Share) == At(agg, k)
    requires agg' == agg[FeatureOf(row) := Plus(At(agg, FeatureOf(row)), Share(row))]
    ensures SumAt(ADDING, rows + [row], FeatureOf, k, Share) == At(agg', k)
  {
    BucketOneMore(ADDING, rows, row, FeatureOf, k, Share);
  }

  lemma {:induction false} GroupOne(rows: seq<Row>, row: Row, agg: map<string, Sums>, names: seq<string>,
                 agg': map<string, Sums>, names': seq<string>)
    requires Grouped(rows, agg, names) && RowAdded(agg, names, row, agg', names')
    ensures Grouped(rows + [row], agg', names')
  {
    KeysOneMore(rows, row, FeatureOf, names);
    forall k ensures SumAt(ADDING, rows + [row], FeatureOf, k, Share) == At(agg', k) {
      BucketNext(rows, row, agg, agg', k);
    }
  }

  lemma {:induction false} GroupNext(rows: seq<Row>, i: nat, agg: map<string, Sums>, names: seq<string>,
                 agg': map<string, Sums>, names': seq<string>)
    requires i < |rows| && Grouped(rows[..i], agg, names) && RowAdded(agg, names, rows[i], agg', names')
    ensures Grouped(rows[..i + 1], agg', names')
  {
    GroupOne(rows[..i], rows[i], agg, names, agg', names');
    assert rows[..i + 1] == rows[..i] + [rows[i]];
  }

  lemma {:induction false} GroupNone(rows: seq<Row>)
    requires rows == []
    ensures Grouped(rows, map[], [])
  {
  }

  method PerFeatureAggregate(rows: seq<Row>) returns (out: seq<FeatureRow>)
    ensures IsReport(rows, out)
  {
    var agg: map<string, Sums>, names: seq<string> := map[], [];
    GroupNone(rows[..0]);
    for i := 0 to |rows|
      invariant Grouped(rows[..i], agg, names)
    {
      ghost var was, keys := agg, names;
      agg, names := AddRow(agg, names, rows[i]);
      GroupNext(rows, i, was, keys, agg, names);
    }
    assert rows[..|rows|] == rows;
    out := ListFeatures(rows, agg, names);
  }

  /** The lines of the dictionary, in the report's order. */
  method ListFeatures(ghost rows: seq<Row>, agg: map<string, Sums>, names: seq<string>) returns (out: seq<FeatureRow>)
    requires Grouped(rows, agg, names)
    ensures IsReport(rows, out)
  {
    out := [];
    for i := 0 to |names|
      invariant |out| == i
      invariant forall j :: 0 <= j < i ==> out[j] == RowOf(names[j], agg[names[j]])
    {
      out := out + [RowOf(names[i], agg[names[i]])];
    }
    ListedByKey(ADDING, rows, FeatureOf, Share, names, out, NameOf, RowOf);
    FeatureOrder();
    SortSorts(out, FeatureLe);
    ListsAnyOrder(ADDING, rows, FeatureOf, Share, out, Sort(out, FeatureLe), NameOf, RowOf);
    out := Sort(out, FeatureLe);
  }

  /** One round of the first loop. */
  method AddRow(agg: map<string, Sums>, names: seq<string>, row: Row)
    returns (agg': map<string, Sums>, names': seq<string>)
    ensures RowAdded(agg, names, row, agg', names')
  {
    var bucket := FeatureOf(row);
    agg', names' := agg, names;
    if bucket !in agg' {
      agg' := agg'[bucket := Sums(0, 0, 0, 0.0)];
      names' := names' + [bucket];
    }
    var a := agg'[bucket];
    a := a.(calls := a.calls + 1);
    a := a.(prompt := a.prompt + row.prompt);
    a := a.(completion := a.completion + row.completion);
    if row.cost.Some? {
      a := a.(cost := a.cost + row.cost.value);
    }
    agg' := agg'[bucket := a];
  }

  /** The report is the same, line for line, whatever order the rows come in. */
  lemma {:induction false} ReportIgnoresOrder(rows: seq<Row>, other: seq<Row>, out: seq<FeatureRow>, out': seq<FeatureRow>)
    requires IsReport(rows, out) && IsReport(other, out') && multiset(rows) == multiset(other)
    ensures out == out'
  {
    FeatureOrder();
    ListingIgnoresOrder(ADDING, rows, other, FeatureOf, Share, out, out', NameOf, RowOf, FeatureLe);
  }

  /** No line costs more than one before it, and of lines that cost the same the names ascend. */
  lemma {:induction false} DearestFirst(rows: seq<Row>, out: seq<FeatureRow>, i: nat, j: nat)
    requires IsReport(rows, out) && i < j < |out|
    ensures out[i].cost >= out[j].cost && (out[i].cost == out[j].cost ==> StringLe(out[i].name, out[j].name))
  {
    assert FeatureLe(out[i], out[j]);
  }

  /** Calls, tokens and cost over the whole report are those of all the rows, none of which is dropped. */
  lemma {:induction false} ReportConserves(rows: seq<Row>, out: seq<FeatureRow>)
    requires IsReport(rows, out)
    ensures Sum(ADDING, out, SumsOf) == Sum(ADDING, rows, Share)
    ensures Sum(ADDING, out, SumsOf).calls == |rows|
    ensures forall r :: r in out ==> r.total == r.prompt + r.completion
  {
    ListingAddsUp(ADDING, rows, FeatureOf, Share, out, NameOf, RowOf, ADDING, Share, SumsOf);
    CallsCount(rows);
  }

  lemma {:induction false} CallsCount(rows: seq<Row>)
    ensures Sum(ADDING, rows, Share).calls == |rows|
  {
    if rows != [] {
      CallsCount(rows[..|rows| - 1]);
    }
  }
}
