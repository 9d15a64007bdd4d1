/** From an arbitrary revision graph to one chain: the renumber pass makes revisions distinct,
    the linearize pass then wires them in sorted order. */
module MigrationChain {
  import opened Wrappers
  import opened Sorting
  import opened Text
  import opened MigrationFiles

  // ---- chains ----

  /** A file of the directory that declares a revision. */
  datatype Entry = Entry(file: nat, rev: string, down: Option<string>)

  ghost predicate DistinctRevs(es: seq<Entry>) {
    DistinctBy(es, (e: Entry) => e.rev)
  }

  /** Each revision but the first goes down to the one before it. */
  predicate Chained(es: seq<Entry>) {
    forall k :: 0 < k < |es| ==> es[k].down == Some(es[k - 1].rev)
  }

  /** A revision nobody goes down to. */
  ghost predicate IsHead(es: seq<Entry>, rev: string) {
    (exists e :: e in es && e.rev == rev) && forall e :: e in es ==> e.down != Some(rev)
  }

  lemma {:induction false} NotHead(es: seq<Entry>, k: nat)
    requires Chained(es) && k + 1 < |es|
    ensures !IsHead(es, es[k].rev)
  {
    assert es[k + 1] in es && es[k + 1].down == Some(es[k].rev);
  }

  /** A chain has one head, its last revision, unless its first entry goes down to that one. */
  lemma {:induction false} HeadOfChain(es: seq<Entry>, rev: string)
    requires es != [] && Chained(es) && DistinctRevs(es)
    ensures IsHead(es, rev) <==> rev == es[|es| - 1].rev && es[0].down != Some(rev)
  {
    var last := |es| - 1;
    if IsHead(es, rev) {
      var e :| e in es && e.rev == rev;
      var k :| 0 <= k < |es| && es[k] == e;
      if k < last {
        NotHead(es, k);
      }
      assert es[0] in es;
    }
    if rev == es[last].rev && es[0].down != Some(rev) {
      assert es[last] in es;
      forall e | e in es ensures e.down != Some(rev) {
        var k :| 0 <= k < |es| && es[k] == e;
        if k > 0 {
          DifferentRevs(es, k - 1, last);
        }
      }
    }
  }

  lemma {:induction false} DifferentRevs(es: seq<Entry>, i: nat, j: nat)
    requires DistinctRevs(es) && i < j < |es|
    ensures es[i].rev != es[j].rev
  {
    var key := (e: Entry) => e.rev;
    assert key(es[i]) != key(es[j]);
  }

  function DownOfRev(es: seq<Entry>, rev: string): Option<string> {
    if es == [] then None
    else if es[|es| - 1].rev == rev then es[|es| - 1].down
    else DownOfRev(es[..|es| - 1], rev)
  }

  predicate Declares(es: seq<Entry>, rev: string) {
    exists k :: 0 <= k < |es| && es[k].rev == rev
  }

  /** Following `down` from `rev` for at most `steps` revisions. */
  function Walk(es: seq<Entry>, rev: string, steps: nat): seq<string>
    decreases steps
  {
    if steps == 0 || !Declares(es, rev) then []
    else
      var down := DownOfRev(es, rev);
      [rev] + if down.Some? then Walk(es, down.value, steps - 1) else []
  }

  /** The revisions of the first k + 1 entries, last first. */
  function Backwards(es: seq<Entry>, k: nat): seq<string>
    requires k < |es|
  {
    [es[k].rev] + if k == 0 then [] else Backwards(es, k - 1)
  }

  lemma {:induction false} DownOfRevIs(es: seq<Entry>, k: nat)
    requires k < |es| && DistinctRevs(es)
    ensures DownOfRev(es, es[k].rev) == es[k].down
    decreases |es|
  {
    if k < |es| - 1 {
      DifferentRevs(es, k, |es| - 1);
      DownOfRevIs(es[..|es| - 1], k);
    }
  }

  lemma {:induction false} WalkFrom(es: seq<Entry>, k: nat, steps: nat)
    requires k < |es| && Chained(es) && DistinctRevs(es) && steps > k
    requires es[0].down.Some? ==> !Declares(es, es[0].down.value)
    ensures Walk(es, es[k].rev, steps) == Backwards(es, k)
  {
    forall i | 0 < i < |es| ensures OnTo(es, i) {
    }
    WalkBack(es, k, steps);
  }

  predicate OnTo(es: seq<Entry>, k: nat)
    requires 0 < k < |es|
  {
    es[k].down == Some(es[k - 1].rev)
  }

  lemma {:induction false} WalkBack(es: seq<Entry>, k: nat, steps: nat)
    requires k < |es| && (forall i :: 0 < i < |es| ==> OnTo(es, i)) && DistinctRevs(es) && steps > k
    requires es[0].down.Some? ==> !Declares(es, es[0].down.value)
    ensures Walk(es, es[k].rev, steps) == Backwards(es, k)
    decreases k
  {
    if k > 0 {
      WalkBack(es, k - 1, steps - 1);
      assert OnTo(es, k);
      WalkOn(es, k, steps);
    } else {
      WalkBase(es, steps);
    }
  }

  lemma {:induction false} WalkOn(es: seq<Entry>, k: nat, steps: nat)
    requires 0 < k < |es| && DistinctRevs(es) && steps > 0 && es[k].down == Some(es[k - 1].rev)
    requires Walk(es, es[k - 1].rev, steps - 1) == Backwards(es, k - 1)
    ensures Walk(es, es[k].rev, steps) == Backwards(es, k)
  {
    WalkStep(es, k, steps);
  }

  lemma {:induction false} WalkBase(es: seq<Entry>, steps: nat)
    requires es != [] && DistinctRevs(es) && steps > 0
    requires es[0].down.Some? ==> !Declares(es, es[0].down.value)
    ensures Walk(es, es[0].rev, steps) == [es[0].rev]
  {
    WalkStep(es, 0, steps);
    if es[0].down.Some? {
      WalkOutside(es, es[0].down.value, steps - 1);
    }
  }

  lemma {:induction false} WalkOutside(es: seq<Entry>, rev: string, steps: nat)
    requires !Declares(es, rev)
    ensures Walk(es, rev, steps) == []
  {
  }

  /** One step down. */
  lemma {:induction false} WalkStep(es: seq<Entry>, k: nat, steps: nat)
    requires k < |es| && DistinctRevs(es) && steps > 0
    ensures Walk(es, es[k].rev, steps) ==
            [es[k].rev] + if es[k].down.Some? then Walk(es, es[k].down.value, steps - 1) else []
  {
    DownOfRevIs(es, k);
    assert Declares(es, es[k].rev);
  }

  // ---- the directory ----

  /** The entries of a directory listing, in file-name order. */
  function Entries(files: seq<File>): seq<Entry> {
    if files == [] then []
    else
      var n := |files| - 1;
      Entries(files[..n])
      + if RevOf(files[n].lines).Some?
        then [Entry(n, RevOf(files[n].lines).value, DownOf(files[n].lines))] else []
  }

  /** An entry says what its file declares. */
  ghost predicate Declared(files: seq<File>, e: Entry) {
    && e.file < |files| && RevOf(files[e.file].lines) == Some(e.rev) && e.down == DownOf(files[e.file].lines)
  }

  ghost predicate Listed(es: seq<Entry>, f: nat) {
    exists i :: 0 <= i < |es| && es[i].file == f
  }

  lemma {:induction false} EntriesAre(files: seq<File>)
    ensures forall i :: 0 <= i < |Entries(files)| ==> Declared(files, Entries(files)[i])
    ensures forall i, j :: 0 <= i < j < |Entries(files)| ==> Entries(files)[i].file < Entries(files)[j].file
    ensures forall f :: 0 <= f < |files| && RevOf(files[f].lines).Some? ==> Listed(Entries(files), f)
  {
    if files != [] {
      EntriesAre(files[..|files| - 1]);
      EntriesInOrder(files);
      forall f | 0 <= f < |files| && RevOf(files[f].lines).Some? ensures Listed(Entries(files), f) {
        EntryListed(files, f);
      }
    }
  }

  lemma {:induction false} EntriesInOrder(files: seq<File>)
    requires files != []
    requires var front := files[..|files| - 1];
             && (forall i :: 0 <= i < |Entries(front)| ==> Declared(front, Entries(front)[i]))
             && (forall i, j :: 0 <= i < j < |Entries(front)| ==> Entries(front)[i].file < Entries(front)[j].file)
    ensures forall i :: 0 <= i < |Entries(files)| ==> Declared(files, Entries(files)[i])
    ensures forall i, j :: 0 <= i < j < |Entries(files)| ==> Entries(files)[i].file < Entries(files)[j].file
  {
    var front := files[..|files| - 1];
    var before, now := Entries(front), Entries(files);
    forall i | 0 <= i < |now| ensures Declared(files, now[i]) {
      assert i < |before| ==> Declared(front, before[i]);
    }
    forall i, j | 0 <= i < j < |now| ensures now[i].file < now[j].file {
      assert Declared(front, before[i]);
    }
  }

  lemma {:induction false} EntryListed(files: seq<File>, f: nat)
    requires f < |files| && RevOf(files[f].lines).Some?
    requires var front := files[..|files| - 1]; f < |front| ==> Listed(Entries(front), f)
    ensures Listed(Entries(files), f)
  {
    var before, now := Entries(files[..|files| - 1]), Entries(files);
    if f < |files| - 1 {
      var i :| 0 <= i < |before| && before[i].file == f;
      assert now[i].file == f;
    } else {
      assert now[|now| - 1].file == f;
    }
  }

  predicate EntryLe(a: Entry, b: Entry) {
    KeyLe(RevSortKey(a.rev), RevSortKey(b.rev))
  }

  lemma {:induction false} EntryOrder()
    ensures TotalOrder(EntryLe)
  {
    StringOrder();
  }

  /** The entries as the linearize script sorts them. */
  function Order(files: seq<File>): seq<Entry> {
    Sort(Entries(files), EntryLe)
  }

  lemma {:induction false} OrderIs(files: seq<File>)
    ensures multiset(Order(files)) == multiset(Entries(files)) && |Order(files)| == |Entries(files)|
    ensures DistinctBy(Order(files), (e: Entry) => e.file)
    ensures DistinctRevs(Entries(files)) <==> DistinctRevs(Order(files))
    ensures forall k :: 0 <= k < |Order(files)| ==>
              && Order(files)[k].file < |files|
              && RevOf(files[Order(files)[k].file].lines) == Some(Order(files)[k].rev)
              && Order(files)[k].down == DownOf(files[Order(files)[k].file].lines)
  {
    EntryOrder();
    EntriesAre(files);
    SortSorts(Entries(files), EntryLe);
    DistinctPermutes(Entries(files), Order(files), (e: Entry) => e.file);
    if DistinctRevs(Entries(files)) {
      DistinctPermutes(Entries(files), Order(files), (e: Entry) => e.rev);
    }
    if DistinctRevs(Order(files)) {
      DistinctPermutes(Order(files), Entries(files), (e: Entry) => e.rev);
    }
    forall k | 0 <= k < |Order(files)|
      ensures Order(files)[k] in Entries(files)
    {
      assert Order(files)[k] in multiset(Order(files));
    }
  }

  /** Sort keys never fall. */
  ghost predicate Ascends(es: seq<Entry>) {
    forall i, j :: 0 <= i < j < |es| ==> KeyLe(RevSortKey(es[i].rev), RevSortKey(es[j].rev))
  }

  /** The order is by sort key, and by file name where keys are equal. */
  lemma {:induction false} OrderAscends(files: seq<File>)
    ensures Ascends(Order(files))
    ensures forall i, j :: 0 <= i < j < |Order(files)|
                           && KeyLe(RevSortKey(Order(files)[j].rev), RevSortKey(Order(files)[i].rev)) ==>
                             Order(files)[i].file < Order(files)[j].file
  {
    EntryOrder();
    EntriesAre(files);
    SortSorts(Entries(files), EntryLe);
    var es, pos := Order(files), (e: Entry) => e.file as int;
    assert forall i, j :: 0 <= i < j < |Entries(files)| ==> pos(Entries(files)[i]) < pos(Entries(files)[j]);
    SortStable(Entries(files), EntryLe, pos);
    forall i, j | 0 <= i < j < |es|
      ensures KeyLe(RevSortKey(es[i].rev), RevSortKey(es[j].rev))
      ensures KeyLe(RevSortKey(es[j].rev), RevSortKey(es[i].rev)) ==> es[i].file < es[j].file
    {
      assert EntryLe(es[i], es[j]);
      assert EntryLe(es[j], es[i]) ==> pos(es[i]) < pos(es[j]);
    }
  }

  // ---- the linearize pass ----

  /** A planned change makes a file go down to another revision that does not sort after its own. */
  ghost predicate GoesDown(files: seq<File>, c: Change) {
    && c.file < |files| && RevOf(files[c.file].lines).Some?
    && KeyLe(RevSortKey(c.id), RevSortKey(RevOf(files[c.file].lines).value))
    && exists g :: 0 <= g < |files| && g != c.file && RevOf(files[g].lines) == Some(c.id)
  }

  lemma {:induction false} PlanGoesDown(files: seq<File>)
    ensures forall c :: c in PlanOf(Order(files)) ==> GoesDown(files, c)
  {
    OrderIs(files);
    OrderAscends(files);
    var es := Order(files);
    forall c | c in PlanOf(es) ensures GoesDown(files, c) {
      var k := PlanFrom(es, c);
      DistinctFiles(es, k - 1, k);
      assert RevOf(files[es[k - 1].file].lines) == Some(c.id);
    }
  }

  datatype Change = Change(file: nat, id: string)

  /** The plan: every entry but the first whose down is not the revision before it. */
  function PlanOf(es: seq<Entry>): seq<Change> {
    if |es| < 2 then []
    else
      var n := |es| - 1;
      PlanOf(es[..n]) + if es[n].down != Some(es[n - 1].rev) then [Change(es[n].file, es[n - 1].rev)] else []
  }

  lemma {:induction false} DistinctFiles(es: seq<Entry>, j: nat, k: nat)
    requires DistinctBy(es, (e: Entry) => e.file) && j < |es| && k < |es| && j != k
    ensures es[j].file != es[k].file
  {
    var key := (e: Entry) => e.file;
    if j < k {
      assert key(es[j]) != key(es[k]);
    } else {
      assert key(es[k]) != key(es[j]);
    }
  }

  lemma {:induction false} PlanFrom(es: seq<Entry>, c: Change) returns (k: nat)
    requires c in PlanOf(es)
    ensures 0 < k < |es| && c == Change(es[k].file, es[k - 1].rev) && es[k].down != Some(es[k - 1].rev)
  {
    var n := |es| - 1;
    if c in PlanOf(es[..n]) {
      k := PlanFrom(es[..n], c);
    } else {
      k := n;
    }
  }

  lemma {:induction false} PlanHas(es: seq<Entry>, k: nat)
    requires 0 < k < |es| && es[k].down != Some(es[k - 1].rev)
    ensures Change(es[k].file, es[k - 1].rev) in PlanOf(es)
  {
    if k < |es| - 1 {
      PlanHas(es[..|es| - 1], k);
    }
  }

  lemma {:induction false} PlanDistinct(es: seq<Entry>)
    requires DistinctBy(es, (e: Entry) => e.file)
    ensures forall i, j :: 0 <= i < j < |PlanOf(es)| ==> PlanOf(es)[i].file != PlanOf(es)[j].file
  {
    if |es| >= 2 {
      var n := |es| - 1;
      var before := PlanOf(es[..n]);
      PlanDistinct(es[..n]);
      forall i | 0 <= i < |before| ensures before[i].file != es[n].file {
        var k := PlanFrom(es[..n], before[i]);
        DistinctFiles(es, k, n);
      }
    }
  }

  lemma {:induction false} PlanIs(es: seq<Entry>)
    requires DistinctBy(es, (e: Entry) => e.file)
    ensures forall c :: c in PlanOf(es) ==>
              exists k :: 0 < k < |es| && c == Change(es[k].file, es[k - 1].rev) && es[k].down != Some(es[k - 1].rev)
    ensures forall k :: 0 < k < |es| && es[k].down != Some(es[k - 1].rev) ==>
              Change(es[k].file, es[k - 1].rev) in PlanOf(es)
    ensures DistinctBy(PlanOf(es), (c: Change) => c.file)
  {
    PlanDistinct(es);
    forall c | c in PlanOf(es)
      ensures exists k :: 0 < k < |es| && c == Change(es[k].file, es[k - 1].rev) && es[k].down != Some(es[k - 1].rev)
    {
      var k := PlanFrom(es, c);
    }
    forall k | 0 < k < |es| && es[k].down != Some(es[k - 1].rev)
      ensures Change(es[k].file, es[k - 1].rev) in PlanOf(es)
    {
      PlanHas(es, k);
    }
  }

  lemma {:induction false} PlanEmptyExactly(es: seq<Entry>)
    requires DistinctBy(es, (e: Entry) => e.file)
    ensures PlanOf(es) == [] <==> Chained(es)
  {
    PlanIs(es);
    if PlanOf(es) != [] {
      assert PlanOf(es)[0] in PlanOf(es);
    }
  }

  /** `after` is `before` with exactly the planned files rewritten. */
  ghost predicate Rewired(before: seq<File>, after: seq<File>, plan: seq<Change>) {
    && |after| == |before|
    && (forall c :: c in plan ==> c.file < |before|
                                  && after[c.file] == before[c.file].(lines := SetDown(before[c.file].lines, c.id)))
    && (forall f :: 0 <= f < |before| && (forall c :: c in plan ==> c.file != f) ==> after[f] == before[f])
  }

  function DownNow(files: seq<File>, f: nat): Option<string> {
    if f < |files| then DownOf(files[f].lines) else None
  }

  /** The same entries, with the down revisions a directory now declares. */
  function Redown(es: seq<Entry>, files: seq<File>): seq<Entry> {
    seq(|es|, i requires 0 <= i < |es| => es[i].(down := DownNow(files, es[i].file)))
  }

  lemma {:induction false} FilesBelow(files: seq<File>)
    ensures forall i :: 0 <= i < |Entries(files)| ==> Entries(files)[i].file < |files|
  {
    EntriesAre(files);
    forall i | 0 <= i < |Entries(files)| ensures Entries(files)[i].file < |files| {
      assert Declared(files, Entries(files)[i]);
    }
  }

  lemma {:induction false} EntriesAfter(before: seq<File>, after: seq<File>)
    requires |before| == |after|
    requires forall f :: 0 <= f < |before| ==> RevOf(after[f].lines) == RevOf(before[f].lines)
    ensures Entries(after) == Redown(Entries(before), after)
  {
    if before != [] {
      var n := |before| - 1;
      FilesBelow(before[..n]);
      EntriesAfter(before[..n], after[..n]);
    }
  }

  lemma {:induction false} InsertRedown(x: Entry, es: seq<Entry>, files: seq<File>)
    ensures Insert(x.(down := DownNow(files, x.file)), Redown(es, files), EntryLe) == Redown(Insert(x, es, EntryLe), files)
  {
    if es != [] && !EntryLe(x, es[0]) {
      InsertRedown(x, es[1..], files);
      assert Redown(es, files)[1..] == Redown(es[1..], files);
    }
  }

  lemma {:induction false} SortRedown(es: seq<Entry>, files: seq<File>)
    ensures Sort(Redown(es, files), EntryLe) == Redown(Sort(es, EntryLe), files)
  {
    if es != [] {
      SortRedown(es[1..], files);
      assert Redown(es, files)[1..] == Redown(es[1..], files);
      InsertRedown(es[0], Sort(es[1..], EntryLe), files);
    }
  }

  lemma {:induction false} RewiredFile(before: seq<File>, after: seq<File>, plan: seq<Change>, f: nat)
    requires Rewired(before, after, plan) && f < |before|
    ensures RevOf(after[f].lines) == RevOf(before[f].lines)
  {
    if exists c :: c in plan && c.file == f {
      var c :| c in plan && c.file == f;
      SetDownReadsBack(before[f].lines, c.id);
    }
  }

  /** The rewired directory sorts into the same revisions, and declares these downs. */
  lemma {:induction false} OrderAfter(before: seq<File>, after: seq<File>)
    requires Rewired(before, after, PlanOf(Order(before)))
    ensures Order(after) == Redown(Order(before), after)
  {
    OrderIs(before);
    EntriesAre(before);
    forall f | 0 <= f < |before| ensures RevOf(after[f].lines) == RevOf(before[f].lines) {
      RewiredFile(before, after, PlanOf(Order(before)), f);
    }
    EntriesAfter(before, after);
    SortRedown(Entries(before), after);
  }

  lemma {:induction false} NotPlanned(es: seq<Entry>, k: nat)
    requires DistinctBy(es, (e: Entry) => e.file) && k < |es|
    requires k == 0 || es[k].down == Some(es[k - 1].rev)
    ensures forall c :: c in PlanOf(es) ==> c.file != es[k].file
  {
    forall c | c in PlanOf(es) ensures c.file != es[k].file {
      var j := PlanFrom(es, c);
      DistinctFiles(es, j, k);
    }
  }

  /** Position k needs no rewriting, or its file lets itself be rewritten. */
  predicate Wirable(files: seq<File>, es: seq<Entry>, k: nat)
    requires k < |es| && es[k].file < |files|
  {
    k == 0 || es[k].down == Some(es[k - 1].rev) || DownEditable(files[es[k].file].lines)
  }

  /** Every file the linearize pass has to rewrite lets itself be rewritten. */
  ghost predicate AllWirable(files: seq<File>) {
    forall k :: 0 <= k < |Order(files)| ==> Order(files)[k].file < |files| && Wirable(files, Order(files), k)
  }

  /** What the linearize pass leaves at position k of the order. */
  lemma {:induction false} DownAt(before: seq<File>, after: seq<File>, k: nat)
    requires Rewired(before, after, PlanOf(Order(before))) && k < |Order(before)|
    ensures |Order(after)| == |Order(before)| && Order(after)[k].rev == Order(before)[k].rev
    ensures k == 0 ==> Order(after)[0].down == Order(before)[0].down
    ensures Order(before)[k].file < |before|
    ensures k > 0 ==> (Order(after)[k].down == Some(Order(before)[k - 1].rev) <==> Wirable(before, Order(before), k))
  {
    OrderIs(before);
    OrderAfter(before, after);
    var es := Order(before);
    assert es[k] in es;
    if k > 0 && es[k].down != Some(es[k - 1].rev) {
      DownRewired(before, after, es, k);
    } else {
      DownStays(before, after, es, k);
    }
  }

  /** A planned file goes down to the revision before exactly when it could be rewritten. */
  lemma {:induction false} DownRewired(before: seq<File>, after: seq<File>, es: seq<Entry>, k: nat)
    requires Rewired(before, after, PlanOf(es)) && 0 < k < |es| && es[k].file < |before|
    requires es[k].down == DownOf(before[es[k].file].lines) && es[k].down != Some(es[k - 1].rev)
    ensures DownOf(after[es[k].file].lines) == Some(es[k - 1].rev) <==> Wirable(before, es, k)
  {
    PlanHas(es, k);
    assert Change(es[k].file, es[k - 1].rev) in PlanOf(es);
    SetDownReadsBack(before[es[k].file].lines, es[k - 1].rev);
  }

  lemma {:induction false} DownStays(before: seq<File>, after: seq<File>, es: seq<Entry>, k: nat)
    requires Rewired(before, after, PlanOf(es)) && DistinctBy(es, (e: Entry) => e.file)
    requires k < |es| && es[k].file < |before| && (k == 0 || es[k].down == Some(es[k - 1].rev))
    ensures after[es[k].file] == before[es[k].file]
  {
    NotPlanned(es, k);
  }

  /** What the linearize pass leaves at every position. */
  lemma {:induction false} LinearizedDowns(before: seq<File>, after: seq<File>)
    requires Rewired(before, after, PlanOf(Order(before)))
    ensures |Order(after)| == |Order(before)|
    ensures forall k :: 0 <= k < |Order(before)| ==>
              Order(before)[k].file < |before| && Order(after)[k].rev == Order(before)[k].rev
    ensures forall k :: 0 < k < |Order(before)| ==>
              (Order(after)[k].down == Some(Order(before)[k - 1].rev) <==> Wirable(before, Order(before), k))
    ensures Order(before) != [] ==> Order(after)[0] == Order(before)[0]
  {
    OrderAfter(before, after);
    var es, es' := Order(before), Order(after);
    forall k | 0 <= k < |es| ensures es[k].file < |before| && es'[k].rev == es[k].rev {
      DownAt(before, after, k);
    }
    forall k | 0 < k < |es| ensures es'[k].down == Some(es[k - 1].rev) <==> Wirable(before, es, k) {
      DownAt(before, after, k);
    }
    if es != [] {
      DownAt(before, after, 0);
      assert es[0] in es;
    }
  }

  /** Exactly when linearizing yields a chain: every file it has to rewrite lets it. */
  lemma {:induction false} LinearizedChain(before: seq<File>, after: seq<File>)
    requires Rewired(before, after, PlanOf(Order(before)))
    ensures Chained(Order(after)) <==> AllWirable(before)
    ensures |Order(after)| == |Order(before)|
    ensures forall k :: 0 <= k < |Order(before)| ==> Order(after)[k].rev == Order(before)[k].rev
    ensures Order(before) != [] ==> Order(after)[0] == Order(before)[0]
  {
    LinearizedDowns(before, after);
    var es, es' := Order(before), Order(after);
    forall k | 0 < k < |es| ensures es'[k].down == Some(es'[k - 1].rev) <==> Wirable(before, es, k) {
      assert es'[k - 1].rev == es[k - 1].rev;
    }
  }

  /** One chain: with distinct revisions, no file to rewire that resists and a base that goes down
      to none of them, the linearized directory has one head, walking down from it visits every
      revision once and stops at the untouched base, and a second run plans nothing. */
  lemma {:induction false} LinearizedIsOneChain(before: seq<File>, after: seq<File>, steps: nat)
    requires Rewired(before, after, PlanOf(Order(before))) && Order(before) != []
    requires DistinctRevs(Entries(before)) && AllWirable(before) && BaseOutside(before)
    requires steps >= |Order(before)|
    ensures OneChain(Order(before), Order(after), steps)
  {
    OrderIs(before);
    LinearizedChain(before, after);
    SameRevsDistinct(Order(before), Order(after));
    BackwardsSame(Order(before), Order(after), |Order(before)| - 1);
    ChainWalk(Order(after), steps);
    NothingPlanned(after);
    OrderAscends(after);
  }

  /** The first revision of the order goes down to none of the directory. */
  ghost predicate BaseOutside(files: seq<File>) {
    var es := Order(files);
    es != [] && es[0].down.Some? ==> !Declares(es, es[0].down.value)
  }

  /** `wired` is one chain through the revisions of `es`, in their order, from the same base. */
  ghost predicate OneChain(es: seq<Entry>, wired: seq<Entry>, steps: nat)
    requires es != []
  {
    && |wired| == |es|
    && (forall rev :: IsHead(wired, rev) <==> rev == wired[|es| - 1].rev)
    && Walk(wired, wired[|es| - 1].rev, steps) == Backwards(es, |es| - 1)
    && wired[0] == es[0]
    && PlanOf(wired) == []
    && Ascends(wired)
  }

  lemma {:induction false} NothingPlanned(files: seq<File>)
    requires Chained(Order(files))
    ensures PlanOf(Order(files)) == []
  {
    OrderIs(files);
    PlanEmptyExactly(Order(files));
  }

  /** The head of a chain, and the way down from it. */
  lemma {:induction false} ChainWalk(es: seq<Entry>, steps: nat)
    requires es != [] && Chained(es) && DistinctRevs(es) && steps >= |es|
    requires es[0].down.Some? ==> !Declares(es, es[0].down.value)
    ensures forall rev :: IsHead(es, rev) <==> rev == es[|es| - 1].rev
    ensures Walk(es, es[|es| - 1].rev, steps) == Backwards(es, |es| - 1)
  {
    forall rev ensures IsHead(es, rev) <==> rev == es[|es| - 1].rev {
      HeadOfChain(es, rev);
      assert es[|es| - 1] in es;
    }
    WalkFrom(es, |es| - 1, steps);
  }

  lemma {:induction false} SameRevsDistinct(es: seq<Entry>, es': seq<Entry>)
    requires |es| == |es'| && (forall k :: 0 <= k < |es| ==> es'[k].rev == es[k].rev) && DistinctRevs(es)
    ensures DistinctRevs(es')
    ensures forall rev :: Declares(es', rev) <==> Declares(es, rev)
  {
    var key := (e: Entry) => e.rev;
    forall i, j | 0 <= i < j < |es'| ensures key(es'[i]) != key(es'[j]) {
      assert key(es[i]) != key(es[j]);
    }
    forall rev ensures Declares(es', rev) <==> Declares(es, rev) {
      if Declares(es, rev) {
        var k :| 0 <= k < |es| && es[k].rev == rev;
        assert es'[k].rev == rev;
      }
      if Declares(es', rev) {
        var k :| 0 <= k < |es| && es'[k].rev == rev;
        assert es[k].rev == rev;
      }
    }
  }

  lemma {:induction false} BackwardsSame(es: seq<Entry>, es': seq<Entry>, k: nat)
    requires k < |es| == |es'| && forall i :: 0 <= i < |es| ==> es'[i].rev == es[i].rev
    ensures Backwards(es, k) == Backwards(es', k)
  {
    if k > 0 {
      BackwardsSame(es, es', k - 1);
    }
  }

  // ---- the renumber pass ----

  /** How many files before file `k` declare the same revision. */
  function Earlier(files: seq<File>, k: nat, rev: string): nat
    requires k <= |files|
  {
    if k == 0 then 0
    else Earlier(files, k - 1, rev) + if RevOf(files[k - 1].lines) == Some(rev) then 1 else 0
  }

  const MAX_FILES := 0xD000  // keeps every suffix a single valid character

  function Suffix(i: nat): char
    requires 0 < i < MAX_FILES
  {
    ('a' as int + i - 1) as char
  }

  lemma {:induction false} EarlierBound(files: seq<File>, k: nat, rev: string)
    requires k <= |files|
    ensures Earlier(files, k, rev) <= k
  {
    if k > 0 {
      EarlierBound(files, k - 1, rev);
    }
  }

  /** The revision file `k` has after renumbering: the first of its duplicates keeps it. */
  function NewRev(files: seq<File>, k: nat): Option<string>
    requires k < |files| <= MAX_FILES
  {
    var rev := RevOf(files[k].lines);
    if rev.None? then None
    else
      EarlierBound(files, k, rev.value);
      var i := Earlier(files, k, rev.value);
      if i == 0 then rev else Some(rev.value + [Suffix(i)])
  }

  /** The duplicates of a revision get the letters of the alphabet in file order. */
  lemma {:induction false} LettersInOrder(files: seq<File>, k: nat, rev: string)
    requires k < |files| <= MAX_FILES && RevOf(files[k].lines) == Some(rev) && Earlier(files, k, rev) <= 26
    ensures NewRev(files, k) == Some(rev + if Earlier(files, k, rev) == 0 then ""
                                           else ["abcdefghijklmnopqrstuvwxyz"[Earlier(files, k, rev) - 1]])
  {
    if Earlier(files, k, rev) == 0 {
      assert rev + "" == rev;
    }
  }

  /** `after` is `before` with exactly the later duplicates rewritten. */
  ghost predicate Renumbered(before: seq<File>, after: seq<File>)
    requires |before| <= MAX_FILES
  {
    && |after| == |before|
    && forall f :: 0 <= f < |before| ==>
         after[f] == if NewRev(before, f) == RevOf(before[f].lines) then before[f]
                     else before[f].(lines := SetRev(before[f].lines, RevOf(before[f].lines).value, NewRev(before, f).value))
  }

  /** No name the plan hands out is already a revision. */
  ghost predicate NamesFree(files: seq<File>)
    requires |files| <= MAX_FILES
  {
    forall k, j :: 0 <= k < |files| && 0 <= j < |files| && NewRev(files, k) != RevOf(files[k].lines) ==>
      NewRev(files, k) != RevOf(files[j].lines)
  }

  ghost predicate FilesDistinct(files: seq<File>) {
    forall i, j :: 0 <= i < j < |files| && RevOf(files[i].lines).Some? ==>
      RevOf(files[i].lines) != RevOf(files[j].lines)
  }

  lemma {:induction false} EarlierGrows(files: seq<File>, j: nat, k: nat, rev: string)
    requires j < k <= |files| && RevOf(files[j].lines) == Some(rev)
    ensures Earlier(files, j, rev) < Earlier(files, k, rev)
    decreases k
  {
    if j < k - 1 {
      EarlierGrows(files, j, k - 1, rev);
    }
  }

  lemma {:induction false} FirstOf(files: seq<File>, k: nat, rev: string)
    requires k <= |files| && Earlier(files, k, rev) > 0
    ensures exists j :: 0 <= j < k && RevOf(files[j].lines) == Some(rev) && Earlier(files, j, rev) == 0
    decreases k
  {
    if Earlier(files, k - 1, rev) > 0 {
      FirstOf(files, k - 1, rev);
    } else {
      assert RevOf(files[k - 1].lines) == Some(rev);
    }
  }

  /** What a file reads back with after the renumber pass: a rewriting that fails leaves the
      revision it had. */
  lemma {:induction false} RevAfter(before: seq<File>, after: seq<File>, f: nat)
    requires |before| <= MAX_FILES && Renumbered(before, after) && f < |before|
    ensures RevOf(after[f].lines) == if RevEditable(before[f].lines) then NewRev(before, f) else RevOf(before[f].lines)
    ensures DownOf(after[f].lines) == DownOf(before[f].lines)
    ensures DownEditable(after[f].lines) <==> DownEditable(before[f].lines)
  {
    if NewRev(before, f) != RevOf(before[f].lines) {
      SetRevReadsBack(before[f].lines, RevOf(before[f].lines).value, NewRev(before, f).value);
    }
  }

  /** Every file that gets another name lets itself be rewritten. */
  ghost predicate RenamesEditable(files: seq<File>)
    requires |files| <= MAX_FILES
  {
    forall f :: 0 <= f < |files| && NewRev(files, f) != RevOf(files[f].lines) ==> RevEditable(files[f].lines)
  }

  /** Two files keep or get the same revision only if a planned name was taken. */
  lemma {:induction false} NewRevsDiffer(files: seq<File>, i: nat, j: nat)
    requires |files| <= MAX_FILES && i < j < |files| && NamesFree(files) && RevOf(files[i].lines).Some?
    ensures NewRev(files, i) != NewRev(files, j)
  {
    if NewRev(files, i) == NewRev(files, j) {
      var ri, rj := RevOf(files[i].lines), RevOf(files[j].lines);
      if ri == rj {
        EarlierGrows(files, i, j, ri.value);
        EarlierBound(files, j, ri.value);
        SuffixesDiffer(ri.value, Earlier(files, i, ri.value), Earlier(files, j, ri.value));
      } else {
        SameStem(ri.value, rj.value, NewRev(files, i).value);
      }
    }
  }

  lemma {:induction false} SameStem(a: string, b: string, s: string)
    requires |s| > 0 && a == s[..|s| - 1] && b == s[..|s| - 1]
    ensures a == b
  {
  }

  lemma {:induction false} SuffixesDiffer(rev: string, i: nat, j: nat)
    requires i < j < MAX_FILES
    ensures (if i == 0 then rev else rev + [Suffix(i)]) != rev + [Suffix(j)]
  {
    assert |rev + [Suffix(j)]| == |rev| + 1;
    if i > 0 {
      assert (rev + [Suffix(i)])[|rev|] != (rev + [Suffix(j)])[|rev|];
    }
  }

  /** Exactly when one renumber pass makes all revisions distinct: when no suffixed name it plans
      is already in use, and every file it has to rename lets itself be rewritten. */
  lemma {:induction false} RenumberedDistinctExactly(before: seq<File>, after: seq<File>)
    requires |before| <= MAX_FILES && Renumbered(before, after)
    ensures FilesDistinct(after) <==> NamesFree(before) && RenamesEditable(before)
  {
    if RenamesEditable(before) {
      forall f | 0 <= f < |before| ensures RevOf(after[f].lines) == NewRev(before, f) {
        RevAfter(before, after, f);
      }
      if NamesFree(before) {
        forall i, j | 0 <= i < j < |after| && RevOf(after[i].lines).Some?
          ensures RevOf(after[i].lines) != RevOf(after[j].lines)
        {
          NewRevsDiffer(before, i, j);
        }
      } else {
        var k, j :| 0 <= k < |before| && 0 <= j < |before| && NewRev(before, k) != RevOf(before[k].lines)
                    && NewRev(before, k) == RevOf(before[j].lines);
        TakenNameClashes(before, k, j);
      }
    } else {
      var f :| 0 <= f < |before| && NewRev(before, f) != RevOf(before[f].lines) && !RevEditable(before[f].lines);
      FailedRenameClashes(before, after, f);
    }
  }

  /** A file whose renaming fails still shares its revision with the first file that declares it. */
  lemma {:induction false} FailedRenameClashes(before: seq<File>, after: seq<File>, f: nat)
    requires |before| <= MAX_FILES && Renumbered(before, after) && f < |before|
    requires NewRev(before, f) != RevOf(before[f].lines) && !RevEditable(before[f].lines)
    ensures !FilesDistinct(after)
  {
    var rev := RevOf(before[f].lines).value;
    FirstOf(before, f, rev);
    var first :| 0 <= first < f && RevOf(before[first].lines) == Some(rev) && Earlier(before, first, rev) == 0;
    RevAfter(before, after, f);
    RevAfter(before, after, first);
  }

  /** An indented revision line is read but never rewritten: two such files stay duplicates. */
  lemma {:induction false} IndentedStaysDuplicate()
    ensures var start := [File("a.py", [Rev(false, "1")]), File("b.py", [Rev(true, "1")])];
            && NamesFree(start) && Renumbered(start, start) && !FilesDistinct(start)
  {
    var start := [File("a.py", [Rev(false, "1")]), File("b.py", [Rev(true, "1")])];
    assert RevOf(start[0].lines) == Some("1") && RevOf(start[1].lines) == Some("1");
    assert Earlier(start, 0, "1") == 0;
    assert Earlier(start, 1, "1") == 1;
    assert SetRev(start[1].lines, "1", "1a") == start[1].lines;
  }

  lemma {:induction false} TakenNameClashes(files: seq<File>, k: nat, j: nat)
    requires |files| <= MAX_FILES && k < |files| && j < |files|
    requires NewRev(files, k) != RevOf(files[k].lines) && NewRev(files, k) == RevOf(files[j].lines)
    ensures exists a, b :: 0 <= a < |files| && 0 <= b < |files| && a != b
                           && NewRev(files, a).Some? && NewRev(files, a) == NewRev(files, b)
  {
    var name := NewRev(files, k).value;
    var first := j;
    if Earlier(files, j, name) > 0 {
      FirstOf(files, j, name);
      first :| 0 <= first < j && RevOf(files[first].lines) == Some(name) && Earlier(files, first, name) == 0;
    }
    assert NewRev(files, first) == Some(name);
    assert first != k;
  }

  // ---- both passes ----

  lemma {:induction false} FilesDistinctEntries(files: seq<File>)
    requires FilesDistinct(files)
    ensures DistinctRevs(Entries(files))
  {
    EntriesAre(files);
    var es, key := Entries(files), (e: Entry) => e.rev;
    forall i, j | 0 <= i < j < |es| ensures key(es[i]) != key(es[j]) {
      assert es[i].file < es[j].file;
    }
  }

  /** Renumber, then list the directory again (renamed files may have moved), then linearize:
      when revisions end up distinct, when they end up chained, and that both make it one chain
      through every revision. */
  lemma {:induction false} RenumberThenLinearize(start: seq<File>, renumbered: seq<File>, listed: seq<File>, wired: seq<File>, steps: nat)
    requires |start| <= MAX_FILES && Renumbered(start, renumbered)
    requires Relisted(renumbered, listed) && Rewired(listed, wired, PlanOf(Order(listed)))
    ensures DistinctRevs(Order(wired)) <==> NamesFree(start) && RenamesEditable(start)
    ensures Chained(Order(wired)) <==> AllWirable(listed)
    ensures DistinctRevs(Order(wired)) && Chained(Order(wired)) && BaseOutside(listed)
            && Order(listed) != [] && steps >= |Order(listed)| ==>
              OneChain(Order(listed), Order(wired), steps)
  {
    RenumberedDistinctExactly(start, renumbered);
    RelistedDistinct(renumbered, listed);
    DistinctEntriesExactly(listed);
    StaysDistinct(listed, wired);
    LinearizedChain(listed, wired);
    if DistinctRevs(Order(wired)) && Chained(Order(wired)) && BaseOutside(listed)
       && Order(listed) != [] && steps >= |Order(listed)| {
      LinearizedIsOneChain(listed, wired, steps);
    }
  }

  /** Rewiring changes no revision. */
  lemma {:induction false} StaysDistinct(before: seq<File>, wired: seq<File>)
    requires Rewired(before, wired, PlanOf(Order(before)))
    ensures DistinctRevs(Order(wired)) <==> DistinctRevs(Entries(before))
  {
    LinearizedChain(before, wired);
    OrderIs(before);
    if DistinctRevs(Order(before)) {
      SameRevsDistinct(Order(before), Order(wired));
    }
    if DistinctRevs(Order(wired)) {
      SameRevsDistinct(Order(wired), Order(before));
    }
  }

  /** Files have distinct revisions exactly when their entries do. */
  lemma {:induction false} DistinctEntriesExactly(files: seq<File>)
    ensures DistinctRevs(Entries(files)) <==> FilesDistinct(files)
  {
    if FilesDistinct(files) {
      FilesDistinctEntries(files);
    }
    if DistinctRevs(Entries(files)) {
      EntriesAre(files);
      forall i, j | 0 <= i < j < |files| && RevOf(files[i].lines).Some?
        ensures RevOf(files[i].lines) != RevOf(files[j].lines)
      {
        if RevOf(files[i].lines) == RevOf(files[j].lines) {
          EntriesClash(files, i, j);
        }
      }
    }
  }

  lemma {:induction false} EntriesClash(files: seq<File>, i: nat, j: nat)
    requires i < j < |files| && RevOf(files[i].lines).Some? && RevOf(files[i].lines) == RevOf(files[j].lines)
    ensures !DistinctRevs(Entries(files))
  {
    EntriesAre(files);
    var es := Entries(files);
    assert Listed(es, i) && Listed(es, j);
    var p :| 0 <= p < |es| && es[p].file == i;
    var q :| 0 <= q < |es| && es[q].file == j;
    assert Declared(files, es[p]) && Declared(files, es[q]);
    SameRevTwice(es, p, q);
  }

  lemma {:induction false} SameRevTwice(es: seq<Entry>, p: nat, q: nat)
    requires p < |es| && q < |es| && p != q && es[p].rev == es[q].rev
    ensures !DistinctRevs(es)
  {
    var key := (e: Entry) => e.rev;
    assert key(es[p]) == key(es[q]) && (p < q || q < p);
  }

  /** The same file contents under other names, in another order. */
  ghost predicate Relisted(a: seq<File>, b: seq<File>) {
    Contents(a) == Contents(b)
  }

  function Contents(files: seq<File>): multiset<seq<Line>> {
    multiset(seq(|files|, i requires 0 <= i < |files| => files[i].lines))
  }

  lemma {:induction false} RelistedDistinct(a: seq<File>, b: seq<File>)
    requires Relisted(a, b)
    ensures FilesDistinct(a) <==> FilesDistinct(b)
  {
    if FilesDistinct(a) {
      RelistedStaysDistinct(a, b);
    }
    if FilesDistinct(b) {
      RelistedStaysDistinct(b, a);
    }
  }

  lemma {:induction false} RelistedStaysDistinct(a: seq<File>, b: seq<File>)
    requires Relisted(a, b) && FilesDistinct(a)
    ensures FilesDistinct(b)
  {
    var as', bs := seq(|a|, i requires 0 <= i < |a| => a[i].lines), seq(|b|, i requires 0 <= i < |b| => b[i].lines);
    forall i, j | 0 <= i < j < |b| && RevOf(b[i].lines).Some?
      ensures RevOf(b[i].lines) != RevOf(b[j].lines)
    {
      var p, q := TwoPlaces(as', bs, i, j);
      assert RevOf(a[p].lines) == RevOf(b[i].lines) && RevOf(a[q].lines) == RevOf(b[j].lines);
      assert p < q || q < p;
    }
  }
}
