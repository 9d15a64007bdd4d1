/** `aggregate_rows` and the rates of `PurposeStats` in `scripts/audit_prompt_cache_utilization.py`. */
module CacheAudit {
  import opened Buckets
  import opened Sorting
  import opened Text
  import opened Wrappers

  /** A row of the join of invocations and prices; a cost that is missing counts 0. */
  datatype Row = Row(purpose: Option<string>, provider: Option<string>, prompt: int, completion: int, cost: real,
                     nominal: Option<real>, cached: Option<real>)

  datatype Key = Key(purpose: string, provider: string)

  /** A sum of prices and how many were added. */
  datatype Running = Running(sum: real, count: int)

  datatype Sums = Sums(calls: int, prompt: int, completion: int, cost: real, nominal: Running, cached: Running)

  /** What a `PurposeStats` says. */
  datatype Figures = Figures(purpose: string, provider: string, calls: int, prompt: int, completion: int, cost: real,
                             nominal: Option<real>, cached: Option<real>)

  function PlusRunning(a: Running, b: Running): Running {
    Running(a.sum + b.sum, a.count + b.count)
  }

  function Plus(a: Sums, b: Sums): Sums {
    Sums(a.calls + b.calls, a.prompt + b.prompt, a.completion + b.completion, a.cost + b.cost,
         PlusRunning(a.nominal, b.nominal), PlusRunning(a.cached, b.cached))
  }

  const NOTHING := Running(0.0, 0)
  const ZERO := Sums(0, 0, 0, 0.0, NOTHING, NOTHING)
  const ADDING := Adding(ZERO, Plus)

  function OrUnknown(s: Option<string>): string {
    if s.Some? && s.value != "" then s.value else "unknown"
  }

  function KeyOf(row: Row): Key {
    Key(OrUnknown(row.purpose), OrUnknown(row.provider))
  }

  function PriceOf(price: Option<real>): Running {
    if price.Some? then Running(price.value, 1) else NOTHING
  }

  function Share(row: Row): Sums {
    Sums(1, row.prompt, row.completion, row.cost, PriceOf(row.nominal), PriceOf(row.cached))
  }

  /** The rows that count: those with prompt tokens. */
  function Counted(rows: seq<Row>): seq<Row> {
    if rows == [] then []
    else Counted(rows[..|rows| - 1]) + if rows[|rows| - 1].prompt <= 0 then [] else [rows[|rows| - 1]]
  }

  function Mean(prices: Running): Option<real> {
    if prices.count > 0 then Some(prices.sum / prices.count as real) else None
  }

  function FiguresOf(k: Key, s: Sums): Figures {
    Figures(k.purpose, k.provider, s.calls, s.prompt, s.completion, s.cost,
            Mean(s.nominal), Mean(s.cached))
  }

  function NameOf(f: Figures): Key {
    Key(f.purpose, f.provider)
  }

  /** Rows go by purpose and provider, each "unknown" where it is missing or empty. */
  lemma {:induction false} KeyOfIs(row: Row)
    ensures KeyOf(row).purpose == (if row.purpose in {None, Some("")} then "unknown" else row.purpose.value)
    ensures KeyOf(row).provider == (if row.provider in {None, Some("")} then "unknown" else row.provider.value)
  {
  }

  /** By provider, then purpose. */
  predicate KeyLe(a: Key, b: Key) {
    if a.provider == b.provider then StringLe(a.purpose, b.purpose) else StringLe(a.provider, b.provider)
  }

  predicate FiguresLe(a: Figures, b: Figures) {
    KeyLe(NameOf(a), NameOf(b))
  }

  lemma {:induction false} KeyOrder()
    ensures TotalOrder(KeyLe) && forall a, b :: KeyLe(a, b) && KeyLe(b, a) ==> a == b
  {
    StringOrder();
    forall a, b, c | KeyLe(a, b) && KeyLe(b, c) ensures KeyLe(a, c) {
      KeyLeTransitive(a, b, c);
    }
  }

  lemma {:induction false} KeyLeTransitive(a: Key, b: Key, c: Key)
    requires KeyLe(a, b) && KeyLe(b, c)
    ensures KeyLe(a, c)
  {
    StringOrder();
    assert StringLe(a.provider, b.provider) && StringLe(b.provider, c.provider) ==> StringLe(a.provider, c.provider);
    assert StringLe(a.provider, b.provider) && StringLe(b.provider, a.provider) ==> a.provider == b.provider;
    assert StringLe(a.purpose, b.purpose) && StringLe(b.purpose, c.purpose) ==> StringLe(a.purpose, c.purpose);
  }

  /** One line per purpose and provider that counts, with the sums of its rows and the mean prices. */
  ghost predicate IsAudit(rows: seq<Row>, stats: seq<Figures>) {
    Lists(ADDING, Counted(rows), KeyOf, Share, stats, NameOf, FiguresOf) && SortedBy(stats, FiguresLe)
  }

  function Get(m: map<Key, Running>, k: Key): Running {
    if k in m then m[k] else NOTHING
  }

  /** The dictionaries of the fold: the buckets, not priced yet, their keys in order of insertion,
      and the sums and counts of nominal and of cached prices. */
  datatype Dicts = Dicts(keys: seq<Key>, buckets: map<Key, Figures>, nominals: map<Key, Running>, cacheds: map<Key, Running>)

  function Fresh(k: Key): Figures {
    Figures(k.purpose, k.provider, 0, 0, 0, 0.0, None, None)
  }

  function BucketAt(d: Dicts, k: Key): Figures {
    if k in d.buckets then d.buckets[k] else Fresh(k)
  }

  /** What has been added up under `k`. */
  function At(d: Dicts, k: Key): Sums {
    var b := BucketAt(d, k);
    Sums(b.calls, b.prompt, b.completion, b.cost, Get(d.nominals, k), Get(d.cacheds, k))
  }

  ghost predicate Unpriced(d: Dicts, k: Key) {
    BucketAt(d, k) == Fresh(k).(calls := BucketAt(d, k).calls, prompt := BucketAt(d, k).prompt,
                                completion := BucketAt(d, k).completion, cost := BucketAt(d, k).cost)
  }

  /** `d` is the fold of the counted `rows`. */
  ghost predicate Folded(rows: seq<Row>, d: Dicts) {
    && Keys(rows, KeyOf, d.keys)
    && (forall k :: k in d.buckets <==> k in d.keys)
    && (forall k :: Unpriced(d, k) && SumAt(ADDING, rows, KeyOf, k, Share) == At(d, k))
  }

  function WithUsage(b: Figures, row: Row): Figures {
    b.(calls := b.calls + 1, prompt := b.prompt + row.prompt, completion := b.completion + row.completion,
       cost := b.cost + row.cost)
  }

  function WithPrice(m: map<Key, Running>, k: Key, price: Option<real>): map<Key, Running> {
    if price.Some? then m[k := Running(Get(m, k).sum + price.value, Get(m, k).count + 1)] else m
  }

  ghost predicate RowAdded(d: Dicts, row: Row, d': Dicts) {
    var k := KeyOf(row);
    && d'.keys == (if k in d.buckets then d.keys else d.keys + [k])
    && d'.buckets == d.buckets[k := WithUsage(BucketAt(d, k), row)]
    && d'.nominals == WithPrice(d.nominals, k, row.nominal)
    && d'.cacheds == WithPrice(d.cacheds, k, row.cached)
  }

  lemma {:induction false} PriceAdded(m: map<Key, Running>, k: Key, price: Option<real>, j: Key)
    ensures Get(WithPrice(m, k, price), j) == if j == k then PlusRunning(Get(m, j), PriceOf(price)) else Get(m, j)
  {
  }

  lemma {:induction false} AtNext(d: Dicts, row: Row, d': Dicts, k: Key)
    requires RowAdded(d, row, d') && Unpriced(d, k)
    ensures Unpriced(d', k) && At(d', k) == if k == KeyOf(row) then Plus(At(d, k), Share(row)) else At(d, k)
  {
    PriceAdded(d.nominals, KeyOf(row), row.nominal, k);
    PriceAdded(d.cacheds, KeyOf(row), row.cached, k);
  }

  lemma {:induction false} OneMore(rows: seq<Row>, row: Row, k: Key)
    ensures SumAt(ADDING, rows + [row], KeyOf, k, Share) ==
            if KeyOf(row) == k then Plus(SumAt(ADDING, rows, KeyOf, k, Share), Share(row))
            else SumAt(ADDING, rows, KeyOf, k, Share)
  {
    BucketOneMore(ADDING, rows, row, KeyOf, k, Share);
  }

  lemma {:induction false} FoldOne(rows: seq<Row>, row: Row, d: Dicts, d': Dicts)
    requires Folded(rows, d) && RowAdded(d, row, d')
    ensures Folded(rows + [row], d')
  {
    KeysOneMore(rows, row, KeyOf, d.keys);
    forall k ensures Unpriced(d', k) && SumAt(ADDING, rows + [row], KeyOf, k, Share) == At(d', k) {
      AtNext(d, row, d', k);
      OneMore(rows, row, k);
    }
  }

  lemma {:induction false} CountedNext(rows: seq<Row>, i: nat)
    requires i < |rows|
    ensures Counted(rows[..i + 1]) == if rows[i].prompt > 0 then Counted(rows[..i]) + [rows[i]] else Counted(rows[..i])
  {
    assert rows[..i + 1][..i] == rows[..i];
  }

  lemma {:induction false} FoldNext(rows: seq<Row>, i: nat, d: Dicts, d': Dicts)
    requires i < |rows| && Folded(Counted(rows[..i]), d)
    requires if rows[i].prompt > 0 then RowAdded(d, rows[i], d') else d' == d
    ensures Folded(Counted(rows[..i + 1]), d')
  {
    CountedNext(rows, i);
    if rows[i].prompt > 0 {
      FoldOne(Counted(rows[..i]), rows[i], d, d');
    }
  }

  /** One round of the first loop, for a row that counts. */
  method AddRow(d: Dicts, row: Row) returns (d': Dicts)
    ensures RowAdded(d, row, d')
  {
    d' := d;
    var key := KeyOf(row);
    if key !in d'.buckets {
      d' := d'.(keys := d'.keys + [key], buckets := d'.buckets[key := Fresh(key)]);
    }
    var bucket := d'.buckets[key];
    bucket := bucket.(calls := bucket.calls + 1);
    bucket := bucket.(prompt := bucket.prompt + row.prompt);
    bucket := bucket.(completion := bucket.completion + row.completion);
    bucket := bucket.(cost := bucket.cost + row.cost);
    d' := d'.(buckets := d'.buckets[key := bucket]);
    d' := d'.(nominals := WithPrice(d'.nominals, key, row.nominal));
    d' := d'.(cacheds := WithPrice(d'.cacheds, key, row.cached));
  }

  /** The first loop. */
  method FoldRows(rows: seq<Row>) returns (d: Dicts)
    ensures Folded(Counted(rows), d)
  {
    d := Dicts([], map[], map[], map[]);
    for i := 0 to |rows|
      invariant Folded(Counted(rows[..i]), d)
    {
      ghost var before := d;
      if rows[i].prompt > 0 {
        d := AddRow(d, rows[i]);
      }
      FoldNext(rows, i, before, d);
    }
    assert rows[..|rows|] == rows;
  }

  /** A bucket with its mean prices filled in. */
  method Priced(d: Dicts, key: Key) returns (line: Figures)
    requires key in d.buckets && Unpriced(d, key)
    ensures line == FiguresOf(key, At(d, key))
  {
    line := d.buckets[key];
    var n, c := Get(d.nominals, key), Get(d.cacheds, key);
    if n.count > 0 {
      line := line.(nominal := Some(n.sum / n.count as real));
    }
    if c.count > 0 {
      line := line.(cached := Some(c.sum / c.count as real));
    }
  }

  /** `aggregate_rows` */
  method AggregateRows(rows: seq<Row>) returns (stats: seq<Figures>)
    ensures IsAudit(rows, stats)
  {
    var d := FoldRows(rows);
    assert forall i :: 0 <= i < |d.keys| ==> d.keys[i] in d.keys;
    stats := [];
    for i := 0 to |d.keys|
      invariant |stats| == i
      invariant forall j :: 0 <= j < i ==> stats[j] == FiguresOf(d.keys[j], At(d, d.keys[j]))
    {
      assert Unpriced(d, d.keys[i]);
      var line := Priced(d, d.keys[i]);
      stats := stats + [line];
    }
    ListedByKey(ADDING, Counted(rows), KeyOf, Share, d.keys, stats, NameOf, FiguresOf);
    FiguresOrder();
    SortSorts(stats, FiguresLe);
    ListsAnyOrder(ADDING, Counted(rows), KeyOf, Share, stats, Sort(stats, FiguresLe), NameOf, FiguresOf);
    stats := Sort(stats, FiguresLe);
  }

  lemma {:induction false} FiguresOrder()
    ensures TotalOrder(FiguresLe) && forall a, b :: FiguresLe(a, b) && FiguresLe(b, a) ==> NameOf(a) == NameOf(b)
  {
    KeyOrder();
    forall a, b, c | FiguresLe(a, b) && FiguresLe(b, c) ensures FiguresLe(a, c) {
      assert KeyLe(NameOf(a), NameOf(b)) && KeyLe(NameOf(b), NameOf(c));
    }
  }

  // ---- what the audit guarantees ----

  /** Providers ascend, and purposes within a provider. */
  lemma {:induction false} LinesAscend(rows: seq<Row>, stats: seq<Figures>, i: nat, j: nat)
    requires IsAudit(rows, stats) && i < j < |stats|
    ensures StringLe(stats[i].provider, stats[j].provider)
    ensures stats[i].provider == stats[j].provider ==> StringLe(stats[i].purpose, stats[j].purpose)
  {
    assert FiguresLe(stats[i], stats[j]);
    StringOrder();
  }

  /** The rows of `k` that give a nominal price give this one. */
  ghost predicate Agreed(rows: seq<Row>, k: Key, p: real) {
    forall i :: 0 <= i < |rows| && KeyOf(rows[i]) == k ==> rows[i].nominal in {None, Some(p)}
  }

  ghost predicate NoneGiven(rows: seq<Row>, k: Key) {
    forall i :: 0 <= i < |rows| && KeyOf(rows[i]) == k ==> rows[i].nominal.None?
  }

  /** `p` added up `n` times. */
  function Repeated(p: real, n: int): real
    decreases n
  {
    if n <= 0 then 0.0 else Repeated(p, n - 1) + p
  }

  lemma {:induction false} RepeatedIs(p: real, n: nat)
    ensures Repeated(p, n) == p * n as real
  {
    if n > 0 {
      RepeatedIs(p, n - 1);
      PriceCounts(n - 1, p);
    }
  }

  lemma {:induction false} PriceCounts(n: int, p: real)
    ensures p * (n + 1) as real == p * n as real + p
  {
  }

  lemma {:induction false} PricesUnder(rows: seq<Row>, k: Key, p: real)
    requires Agreed(rows, k, p)
    ensures var prices := SumAt(ADDING, rows, KeyOf, k, Share).nominal;
            && prices.sum == Repeated(p, prices.count) && prices.count >= 0
            && (prices.count == 0 <==> NoneGiven(rows, k))
  {
    if rows != [] {
      var n := |rows| - 1;
      var front, last := rows[..n], rows[n];
      FrontAgreed(rows, k, p);
      PricesUnder(front, k, p);
      OneMore(front, last, k);
      assert rows == front + [last];
      PricesNext(SumAt(ADDING, front, KeyOf, k, Share), SumAt(ADDING, rows, KeyOf, k, Share), last, k, p);
    }
  }

  lemma {:induction false} FrontAgreed(rows: seq<Row>, k: Key, p: real)
    requires rows != [] && Agreed(rows, k, p)
    ensures Agreed(rows[..|rows| - 1], k, p) && (KeyOf(rows[|rows| - 1]) == k ==> rows[|rows| - 1].nominal in {None, Some(p)})
    ensures NoneGiven(rows, k) <==>
              NoneGiven(rows[..|rows| - 1], k) && (KeyOf(rows[|rows| - 1]) == k ==> rows[|rows| - 1].nominal.None?)
  {
    var n := |rows| - 1;
    assert forall i :: 0 <= i < n ==> rows[..n][i] == rows[i];
  }

  lemma {:induction false} PricesNext(before: Sums, after: Sums, row: Row, k: Key, p: real)
    requires after == if KeyOf(row) == k then Plus(before, Share(row)) else before
    requires KeyOf(row) == k ==> row.nominal in {None, Some(p)}
    requires before.nominal.sum == Repeated(p, before.nominal.count) && before.nominal.count >= 0
    ensures after.nominal.sum == Repeated(p, after.nominal.count) && after.nominal.count >= before.nominal.count
    ensures after.nominal.count == before.nominal.count <==> KeyOf(row) != k || row.nominal.None?
  {
  }

  /** A line's nominal price is the mean of those its rows give: the one they agree on, or none. */
  lemma {:induction false} AgreedPrice(rows: seq<Row>, stats: seq<Figures>, f: Figures, p: real)
    requires IsAudit(rows, stats) && f in stats && Agreed(Counted(rows), NameOf(f), p)
    ensures f.nominal == if NoneGiven(Counted(rows), NameOf(f)) then None else Some(p)
  {
    var k := NameOf(f);
    PricesUnder(Counted(rows), k, p);
    var sums := SumAt(ADDING, Counted(rows), KeyOf, k, Share);
    MeanOfAgreed(sums.nominal, p);
    assert f == FiguresOf(k, sums);
  }

  lemma {:induction false} MeanOfAgreed(prices: Running, p: real)
    requires prices.count >= 0 && prices.sum == Repeated(p, prices.count)
    ensures Mean(prices) == if prices.count == 0 then None else Some(p)
  {
    MeanIs(prices);
    RepeatedIs(p, prices.count);
    if prices.count > 0 {
      SameFactor(Mean(prices).value, p, prices.count as real);
    }
  }

  lemma {:induction false} SameFactor(a: real, b: real, n: real)
    requires n > 0.0 && a * n == b * n
    ensures a == b
  {
    assert (a - b) * n == 0.0;
  }

  /** The mean times the number of prices is their sum; there is none of no prices. */
  lemma {:induction false} MeanIs(prices: Running)
    ensures prices.count > 0 ==> Mean(prices).Some? && Mean(prices).value * prices.count as real == prices.sum
    ensures prices.count <= 0 ==> Mean(prices).None?
  {
  }

  lemma {:induction false} CountedCount(rows: seq<Row>, r: Row)
    ensures multiset(Counted(rows))[r] == if r.prompt > 0 then multiset(rows)[r] else 0
  {
    if rows != [] {
      var front, last := rows[..|rows| - 1], rows[|rows| - 1];
      CountedCount(front, r);
      assert rows == front + [last];
      assert multiset(rows)[r] == multiset(front)[r] + if last == r then 1 else 0;
    }
  }

  /** The figures are the same, line for line, whatever order the rows come in. */
  lemma {:induction false} AuditIgnoresOrder(rows: seq<Row>, other: seq<Row>, stats: seq<Figures>, stats': seq<Figures>)
    requires IsAudit(rows, stats) && IsAudit(other, stats') && multiset(rows) == multiset(other)
    ensures stats == stats'
  {
    FiguresOrder();
    forall r ensures multiset(Counted(rows))[r] == multiset(Counted(other))[r] {
      CountedCount(rows, r);
      CountedCount(other, r);
    }
    ListingIgnoresOrder(ADDING, Counted(rows), Counted(other), KeyOf, Share, stats, stats', NameOf, FiguresOf, FiguresLe);
  }

  datatype Totals = Totals(calls: int, prompt: int, completion: int, cost: real)

  function PlusTotals(a: Totals, b: Totals): Totals {
    Totals(a.calls + b.calls, a.prompt + b.prompt, a.completion + b.completion, a.cost + b.cost)
  }

  const TOTALS := Adding(Totals(0, 0, 0, 0.0), PlusTotals)

  function RowTotals(row: Row): Totals {
    Totals(1, row.prompt, row.completion, row.cost)
  }

  function LineTotals(f: Figures): Totals {
    Totals(f.calls, f.prompt, f.completion, f.cost)
  }

  function TotalsOf(s: Sums): Totals {
    Totals(s.calls, s.prompt, s.completion, s.cost)
  }

  lemma {:induction false} TotalsOfBucket(rows: seq<Row>, k: Key)
    ensures SumAt(TOTALS, rows, KeyOf, k, RowTotals) == TotalsOf(SumAt(ADDING, rows, KeyOf, k, Share))
  {
    if rows != [] {
      var front, last := rows[..|rows| - 1], rows[|rows| - 1];
      TotalsOfBucket(front, k);
      TotalsOneMore(front, last, k);
      assert rows == front + [last];
    }
  }

  lemma {:induction false} TotalsOneMore(rows: seq<Row>, row: Row, k: Key)
    requires SumAt(TOTALS, rows, KeyOf, k, RowTotals) == TotalsOf(SumAt(ADDING, rows, KeyOf, k, Share))
    ensures SumAt(TOTALS, rows + [row], KeyOf, k, RowTotals) == TotalsOf(SumAt(ADDING, rows + [row], KeyOf, k, Share))
  {
    OneMore(rows, row, k);
    OneMoreTotal(rows, row, k);
    TotalsPlus(SumAt(ADDING, rows, KeyOf, k, Share), row);
  }

  lemma {:induction false} TotalsPlus(s: Sums, row: Row)
    ensures TotalsOf(Plus(s, Share(row))) == PlusTotals(TotalsOf(s), RowTotals(row))
  {
  }

  lemma {:induction false} OneMoreTotal(rows: seq<Row>, row: Row, k: Key)
    ensures SumAt(TOTALS, rows + [row], KeyOf, k, RowTotals) ==
            if KeyOf(row) == k then PlusTotals(SumAt(TOTALS, rows, KeyOf, k, RowTotals), RowTotals(row))
            else SumAt(TOTALS, rows, KeyOf, k, RowTotals)
  {
    assert Lawful(TOTALS);
    BucketOneMore(TOTALS, rows, row, KeyOf, k, RowTotals);
  }

  /** Over all lines, calls, tokens and cost are those of the rows with prompt tokens. */
  lemma {:induction false} AuditConserves(rows: seq<Row>, stats: seq<Figures>)
    requires IsAudit(rows, stats)
    ensures Sum(TOTALS, stats, LineTotals) == Sum(TOTALS, Counted(rows), RowTotals)
  {
    assert Lawful(TOTALS);
    forall l | l in stats ensures LineTotals(l) == SumAt(TOTALS, Counted(rows), KeyOf, NameOf(l), RowTotals) {
      TotalsOfBucket(Counted(rows), NameOf(l));
    }
    ListingAddsUp(ADDING, Counted(rows), KeyOf, Share, stats, NameOf, FiguresOf, TOTALS, RowTotals, LineTotals);
  }

  // ---- the derived rates ----

  const CACHE_READ_DISCOUNT := 0.10

  /** The share of the cost put down to the input tokens. */
  function EffectiveInputCost(f: Figures): real {
    var denom := f.prompt + f.completion;
    if denom == 0 then 0.0 else f.cost * (f.prompt as real / denom as real)
  }

  function EffectiveInputRate(f: Figures): real {
    if f.prompt == 0 then 0.0 else EffectiveInputCost(f) * 1000.0 / f.prompt as real
  }

  function Discount(f: Figures): real {
    if f.nominal.None? || f.nominal.value == 0.0 then 0.0
    else
      var ratio := EffectiveInputRate(f) / f.nominal.value;
      if ratio >= 1.0 then 0.0 else 1.0 - ratio
  }

  function HitRatio(f: Figures): real {
    var ratio := Discount(f) / (1.0 - CACHE_READ_DISCOUNT);
    if ratio < 0.0 then 0.0 else if ratio > 1.0 then 1.0 else ratio
  }

  function CachedRate(f: Figures): real
    requires f.nominal.Some?
  {
    if f.cached.Some? then f.cached.value else f.nominal.value * CACHE_READ_DISCOUNT
  }

  function PotentialSavings(f: Figures): real {
    if f.nominal.None? then 0.0
    else f.prompt as real / 1000.0 * (f.nominal.value - CachedRate(f))
  }

  /** The effective rate lies between the fully cached and the nominal one. */
  predicate InBand(f: Figures) {
    && f.nominal.Some? && f.nominal.value > 0.0 && f.prompt > 0
    && f.nominal.value * CACHE_READ_DISCOUNT <= EffectiveInputRate(f) <= f.nominal.value
  }

  lemma {:induction false} Divided(a: real, b: real)
    requires b > 0.0
    ensures a / b * b == a
    ensures a / b >= 1.0 <==> a >= b
    ensures a / b >= 0.1 <==> a >= 0.1 * b
  {
    var q := a / b;
    assert q * b == a;
    if q >= 1.0 {
      assert (q - 1.0) * b >= 0.0;
    } else {
      assert (1.0 - q) * b > 0.0;
    }
    if q >= 0.1 {
      assert (q - 0.1) * b >= 0.0;
    } else {
      assert (0.1 - q) * b > 0.0;
    }
  }

  /** Without tokens nothing was paid for input, and without a nominal price there is no discount, no
      hit and nothing to save. */
  lemma {:induction false} NoTokensNoPrice(f: Figures)
    ensures f.prompt + f.completion == 0 ==> EffectiveInputCost(f) == 0.0
    ensures f.prompt == 0 ==> EffectiveInputRate(f) == 0.0
    ensures f.nominal in {None, Some(0.0)} ==> Discount(f) == 0.0 && HitRatio(f) == 0.0
    ensures f.nominal.None? ==> PotentialSavings(f) == 0.0
  {
  }

  /** The estimate is a ratio, whatever the figures. */
  lemma {:induction false} HitRatioInRange(f: Figures)
    ensures 0.0 <= HitRatio(f) <= 1.0 && Discount(f) >= 0.0
  {
  }

  /** The estimated hit ratio explains the effective rate, as the mix of nominal and cached reads
      it stands for, exactly when that rate is between the two. */
  lemma {:induction false} HitRatioExplainsRate(f: Figures)
    requires f.nominal.Some? && f.nominal.value > 0.0 && f.prompt > 0
    ensures InBand(f) <==>
              EffectiveInputRate(f) ==
              (1.0 - HitRatio(f)) * f.nominal.value + HitRatio(f) * (f.nominal.value * CACHE_READ_DISCOUNT)
  {
    var rate, n, h := EffectiveInputRate(f), f.nominal.value, HitRatio(f);
    Divided(rate, n);
    var ratio := rate / n;
    if ratio >= 1.0 {
      assert h == 0.0;
    } else if ratio < 0.1 {
      assert h == 1.0;
    } else {
      assert 0.9 * h == 1.0 - ratio;
      assert n * (1.0 - 0.9 * h) == n * ratio;
    }
  }

  /** What the script reports: the prompt tokens at the difference between the nominal price and the
      cached one, which is the price given, or a tenth of the nominal one. */
  lemma {:induction false} PotentialSavingsIs(f: Figures)
    requires f.nominal.Some?
    ensures f.cached.Some? ==> PotentialSavings(f) == f.prompt as real / 1000.0 * (f.nominal.value - f.cached.value)
    ensures f.cached.None? ==> PotentialSavings(f) == f.prompt as real / 1000.0 * (f.nominal.value - f.nominal.value / 10.0)
  {
    assert f.nominal.value * CACHE_READ_DISCOUNT == f.nominal.value / 10.0;
  }

  /** What a full hit ratio would save over what was paid. */
  function StillToSave(f: Figures): real
    requires f.nominal.Some?
  {
    EffectiveInputCost(f) - f.prompt as real / 1000.0 * CachedRate(f)
  }

  /** The saving shown is the one against no caching at all: it is what full caching would still save
      exactly when the nominal rate is what was paid. */
  lemma {:induction false} SavingsLeft(f: Figures)
    requires f.nominal.Some? && f.prompt > 0 && f.prompt + f.completion != 0
    ensures StillToSave(f) == PotentialSavings(f) <==> EffectiveInputRate(f) == f.nominal.value
    ensures PotentialSavings(f) - StillToSave(f) == f.prompt as real / 1000.0 * (f.nominal.value - EffectiveInputRate(f))
  {
    var e, n, k, rate := EffectiveInputCost(f), f.nominal.value, f.prompt as real / 1000.0, EffectiveInputRate(f);
    assert e == k * rate;
    Spread(k, n, CachedRate(f));
    Spread(k, n, rate);
    SameProduct(k, n, rate);
  }

  lemma {:induction false} Spread(k: real, a: real, b: real)
    ensures k * (a - b) == k * a - k * b
  {
  }

  lemma {:induction false} SameProduct(k: real, a: real, b: real)
    requires k > 0.0
    ensures k * a == k * b <==> a == b
  {
    Spread(k, a, b);
    if a > b {
      assert k * (a - b) > 0.0;
    } else if b > a {
      assert k * (b - a) > 0.0;
    }
  }

  /** With the discount assumed for cached reads and a rate the estimate explains, the part still to
      be saved is the part not hit. */
  lemma {:induction false} SavingsNotHit(f: Figures)
    requires InBand(f) && f.cached.None? && f.prompt + f.completion != 0
    ensures StillToSave(f) == PotentialSavings(f) * (1.0 - HitRatio(f))
  {
    var e, n, h, k := EffectiveInputCost(f), f.nominal.value, HitRatio(f), f.prompt as real / 1000.0;
    HitRatioExplainsRate(f);
    var rate := EffectiveInputRate(f);
    assert e == k * rate;
    assert n - n * CACHE_READ_DISCOUNT == 0.9 * n;
  }

  /** Two audits whose figure is not what caching would still save: rows paid above the nominal rate,
      which the estimate takes for no hits at all, and rows half of whose discount is already had. */
  lemma {:induction false} SavingsShownWrong()
    ensures var dear := Figures("p", "q", 1, 1000, 1000, 4.0, Some(1.0), None);
            HitRatio(dear) == 0.0 && PotentialSavings(dear) == 0.9 && StillToSave(dear) == 1.9
    ensures var cached := Figures("p", "q", 1, 1000, 1000, 1.1, Some(1.0), None);
            HitRatio(cached) == 0.5 && PotentialSavings(cached) == 0.9 && StillToSave(cached) == 0.45
  {
  }
}
