/** The two scripts' `main` functions: collect, plan, and rewrite the files of the versions
    directory one by one. */
module MigrationScripts {
  import opened Wrappers
  import opened Sorting
  import opened Text
  import opened MigrationFiles
  import opened MigrationChain

  datatype Renaming = Renaming(file: nat, was: string, id: string)

  /** The files among the first `n` that declare `rev`, in name order. */
  function Positions(files: seq<File>, n: nat, rev: string): seq<nat>
    requires n <= |files|
  {
    if n == 0 then []
    else Positions(files, n - 1, rev) + if RevOf(files[n - 1].lines) == Some(rev) then [n - 1] else []
  }

  lemma {:induction false} PositionsAre(files: seq<File>, n: nat, rev: string)
    requires n <= |files|
    ensures |Positions(files, n, rev)| == Earlier(files, n, rev)
    ensures forall i :: 0 <= i < |Positions(files, n, rev)| ==>
              var f := Positions(files, n, rev)[i];
              f < n && RevOf(files[f].lines) == Some(rev) && Earlier(files, f, rev) == i
    ensures forall f :: 0 <= f < n && RevOf(files[f].lines) == Some(rev) ==>
              Earlier(files, f, rev) < |Positions(files, n, rev)| && Positions(files, n, rev)[Earlier(files, f, rev)] == f
    decreases n
  {
    if n > 0 {
      PositionsAre(files, n - 1, rev);
      forall f | 0 <= f < n && RevOf(files[f].lines) == Some(rev)
        ensures Earlier(files, f, rev) < |Positions(files, n, rev)| && Positions(files, n, rev)[Earlier(files, f, rev)] == f
      {
        if f < n - 1 {
          assert Positions(files, n - 1, rev)[Earlier(files, f, rev)] == f;
        }
      }
    }
  }

  /** A planned renaming is the one NewRev asks for. */
  ghost predicate Wanted(files: seq<File>, p: Renaming)
    requires |files| <= MAX_FILES
  {
    && p.file < |files| && RevOf(files[p.file].lines) == Some(p.was)
    && NewRev(files, p.file) == Some(p.id) && Earlier(files, p.file, p.was) > 0
  }

  ghost predicate PlanSound(files: seq<File>, plan: seq<Renaming>)
    requires |files| <= MAX_FILES
  {
    && (forall i :: 0 <= i < |plan| ==> Wanted(files, plan[i]))
    && (forall i, j :: 0 <= i < j < |plan| ==> plan[i].file != plan[j].file)
  }

  ghost predicate Planned(plan: seq<Renaming>, f: nat) {
    exists i :: 0 <= i < |plan| && plan[i].file == f
  }

  /** File `f` has to be renamed. */
  ghost predicate Doubled(files: seq<File>, f: nat)
    requires |files| <= MAX_FILES && f < |files|
  {
    NewRev(files, f) != RevOf(files[f].lines)
  }

  /** Every file with a revision among `revs` that has to be renamed is in the plan. */
  ghost predicate PlanCovers(files: seq<File>, plan: seq<Renaming>, revs: seq<string>)
    requires |files| <= MAX_FILES
  {
    forall f :: 0 <= f < |files| && Doubled(files, f) && RevOf(files[f].lines).value in revs ==> Planned(plan, f)
  }

  ghost predicate PlanComplete(files: seq<File>, plan: seq<Renaming>)
    requires |files| <= MAX_FILES
  {
    forall f :: 0 <= f < |files| && Doubled(files, f) ==> Planned(plan, f)
  }

  function GroupOf(byRev: map<string, seq<nat>>, rev: string): seq<nat> {
    if rev in byRev then byRev[rev] else []
  }

  /** The grouping of the files by revision, and its keys in order of appearance. */
  ghost predicate Grouped(files: seq<File>, n: nat, byRev: map<string, seq<nat>>, keys: seq<string>)
    requires n <= |files|
  {
    && (forall rev :: GroupOf(byRev, rev) == Positions(files, n, rev))
    && (forall rev :: rev in byRev <==> rev in keys)
    && (forall a, b :: 0 <= a < b < |keys| ==> keys[a] != keys[b])
  }

  /** The dictionary after the first `n` files. */
  function ByRevOf(files: seq<File>, n: nat): map<string, seq<nat>>
    requires n <= |files|
  {
    if n == 0 then map[]
    else
      var before, rev := ByRevOf(files, n - 1), RevOf(files[n - 1].lines);
      if rev.Some? then before[rev.value := GroupOf(before, rev.value) + [n - 1]] else before
  }

  function KeysOf(files: seq<File>, n: nat): seq<string>
    requires n <= |files|
  {
    if n == 0 then []
    else
      var before, rev := KeysOf(files, n - 1), RevOf(files[n - 1].lines);
      if rev.Some? && rev.value !in ByRevOf(files, n - 1) then before + [rev.value] else before
  }

  lemma {:induction false} GroupedSoFar(files: seq<File>, n: nat)
    requires n <= |files|
    ensures Grouped(files, n, ByRevOf(files, n), KeysOf(files, n))
  {
    if n > 0 {
      GroupedSoFar(files, n - 1);
      GroupOne(files, n - 1, ByRevOf(files, n - 1), KeysOf(files, n - 1));
    }
  }

  lemma {:induction false} GroupOne(files: seq<File>, i: nat, byRev: map<string, seq<nat>>, keys: seq<string>)
    requires i < |files| && Grouped(files, i, byRev, keys)
    ensures RevOf(files[i].lines).None? ==> Grouped(files, i + 1, byRev, keys)
    ensures RevOf(files[i].lines).Some? ==>
              var rev := RevOf(files[i].lines).value;
              Grouped(files, i + 1, byRev[rev := GroupOf(byRev, rev) + [i]], if rev in byRev then keys else keys + [rev])
  {
    if RevOf(files[i].lines).Some? {
      var rev := RevOf(files[i].lines).value;
      var byRev' := byRev[rev := GroupOf(byRev, rev) + [i]];
      forall r ensures GroupOf(byRev', r) == Positions(files, i + 1, r) {
        assert GroupOf(byRev, r) == Positions(files, i, r);
      }
      MoreKeys(byRev, keys, rev, byRev', if rev in byRev then keys else keys + [rev]);
    } else {
      forall r ensures GroupOf(byRev, r) == Positions(files, i + 1, r) {
        assert GroupOf(byRev, r) == Positions(files, i, r);
      }
    }
  }

  lemma {:induction false} MoreKeys(byRev: map<string, seq<nat>>, keys: seq<string>, rev: string,
                                    byRev': map<string, seq<nat>>, keys': seq<string>)
    requires (forall r :: r in byRev <==> r in keys) && forall a, b :: 0 <= a < b < |keys| ==> keys[a] != keys[b]
    requires byRev'.Keys == byRev.Keys + {rev} && keys' == if rev in byRev then keys else keys + [rev]
    ensures (forall r :: r in byRev' <==> r in keys') && forall a, b :: 0 <= a < b < |keys'| ==> keys'[a] != keys'[b]
  {
  }

  lemma {:induction false} SortedKeys(keys: seq<string>)
    requires forall a, b :: 0 <= a < b < |keys| ==> keys[a] != keys[b]
    ensures |Sort(keys, StringLe)| == |keys|
    ensures forall a, b :: 0 <= a < b < |keys| ==> Sort(keys, StringLe)[a] != Sort(keys, StringLe)[b]
    ensures forall rev :: rev in keys <==> rev in Sort(keys, StringLe)
  {
    StringOrder();
    SortSorts(keys, StringLe);
    var name := (s: string) => s;
    DistinctPermutes(keys, Sort(keys, StringLe), name);
    var sorted := Sort(keys, StringLe);
    forall a, b | 0 <= a < b < |keys| ensures sorted[a] != sorted[b] {
      assert name(sorted[a]) != name(sorted[b]);
    }
    assert forall rev :: rev in keys <==> rev in multiset(sorted);
  }

  /** The plan goes from the first `k` revisions to the first `k + 1`. */
  lemma {:induction false} CoversMore(files: seq<File>, before: seq<Renaming>, plan: seq<Renaming>, revs: seq<string>, k: nat)
    requires |files| <= MAX_FILES && k < |revs|
    requires PlanCovers(files, before, revs[..k]) && PlanCovers(files, plan, [revs[k]])
    requires forall f :: Planned(before, f) ==> Planned(plan, f)
    requires forall p :: p in before ==> p.was in revs[..k]
    requires forall p :: p in plan ==> p in before || p.was == revs[k]
    ensures PlanCovers(files, plan, revs[..k + 1]) && forall p :: p in plan ==> p.was in revs[..k + 1]
  {
    assert revs[..k + 1] == revs[..k] + [revs[k]];
  }

  lemma {:induction false} CoversAll(files: seq<File>, byRev: map<string, seq<nat>>, keys: seq<string>, plan: seq<Renaming>)
    requires |files| <= MAX_FILES && Grouped(files, |files|, byRev, keys) && PlanCovers(files, plan, keys)
    ensures PlanComplete(files, plan)
  {
    forall f | 0 <= f < |files| && Doubled(files, f) ensures Planned(plan, f) {
      RenamedExactly(files, f);
      PositionsAre(files, |files|, RevOf(files[f].lines).value);
    }
  }

  /** The files with the first `n` renamings of the plan written. */
  ghost predicate Written(before: seq<File>, after: seq<File>, plan: seq<Renaming>, n: nat)
    requires n <= |plan|
  {
    && |after| == |before|
    && (forall j :: 0 <= j < n ==>
          plan[j].file < |before|
          && after[plan[j].file] == Rewritten(before[plan[j].file], plan[j]))
    && (forall f :: 0 <= f < |before| && (forall j :: 0 <= j < n ==> plan[j].file != f) ==> after[f] == before[f])
  }

  /** `f` with the renaming `p` written into it. */
  function Rewritten(f: File, p: Renaming): File {
    f.(lines := SetRev(f.lines, p.was, p.id))
  }

  /** The file about to be rewritten is as it was at the start. */
  lemma {:induction false} NotYetWritten(before: seq<File>, after: seq<File>, plan: seq<Renaming>, n: nat)
    requires |before| <= MAX_FILES && PlanSound(before, plan) && n < |plan| && Written(before, after, plan, n)
    ensures plan[n].file < |after| == |before| && after[plan[n].file] == before[plan[n].file]
  {
    assert Wanted(before, plan[n]);
  }

  lemma {:induction false} WriteNext(before: seq<File>, after: seq<File>, plan: seq<Renaming>, n: nat)
    requires |before| <= MAX_FILES && PlanSound(before, plan) && n < |plan| && Written(before, after, plan, n)
    requires plan[n].file < |after|
    ensures Written(before, after[plan[n].file := Rewritten(after[plan[n].file], plan[n])], plan, n + 1)
  {
    NotYetWritten(before, after, plan, n);
    var next := after[plan[n].file := Rewritten(after[plan[n].file], plan[n])];
    forall j | 0 <= j < n + 1
      ensures plan[j].file < |before| && next[plan[j].file] == Rewritten(before[plan[j].file], plan[j])
    {
      assert Wanted(before, plan[j]);
    }
    forall f | 0 <= f < |before| && (forall j :: 0 <= j < n + 1 ==> plan[j].file != f)
      ensures next[f] == before[f]
    {
      assert plan[n].file != f;
    }
  }

  lemma {:induction false} WrittenIsRenumbered(before: seq<File>, after: seq<File>, plan: seq<Renaming>)
    requires |before| <= MAX_FILES && PlanSound(before, plan) && PlanComplete(before, plan)
    requires Written(before, after, plan, |plan|)
    ensures Renumbered(before, after)
  {
    forall f | 0 <= f < |before|
      ensures after[f] == if NewRev(before, f) == RevOf(before[f].lines) then before[f]
                          else before[f].(lines := SetRev(before[f].lines, RevOf(before[f].lines).value, NewRev(before, f).value))
    {
      RenamedExactly(before, f);
      if Doubled(before, f) {
        assert Planned(plan, f);
        var j :| 0 <= j < |plan| && plan[j].file == f;
        assert Wanted(before, plan[j]);
      } else {
        forall j | 0 <= j < |plan| ensures plan[j].file != f {
          assert Wanted(before, plan[j]);
        }
      }
    }
  }

  /** A plan that names every file of `rev` but the first covers `rev`. */
  lemma {:induction false} CoversDuplicates(files: seq<File>, positions: seq<nat>, rev: string, start: nat, plan: seq<Renaming>)
    requires |files| <= MAX_FILES && positions == Positions(files, |files|, rev)
    requires |plan| >= start + |positions| - 1
    requires forall j :: start <= j < start + |positions| - 1 ==> plan[j].file == positions[j - start + 1]
    ensures PlanCovers(files, plan, [rev])
  {
    PositionsAre(files, |files|, rev);
    forall f | 0 <= f < |files| && Doubled(files, f) && RevOf(files[f].lines).value in [rev]
      ensures Planned(plan, f)
    {
      RenamedExactly(files, f);
      var i := Earlier(files, f, rev);
      assert positions[i] == f && plan[start + i - 1].file == f;
    }
  }

  lemma {:induction false} NewRevAt(files: seq<File>, rev: string, i: nat)
    requires |files| <= MAX_FILES && 0 < i < |Positions(files, |files|, rev)|
    ensures i < MAX_FILES
    ensures var f := Positions(files, |files|, rev)[i];
            Wanted(files, Renaming(f, rev, rev + [Suffix(i)]))
  {
    PositionsAre(files, |files|, rev);
    EarlierBound(files, |files|, rev);
  }

  /** The first planned renamings of one revision, in file order. */
  ghost predicate Suffixed(files: seq<File>, positions: seq<nat>, rev: string, added: seq<Renaming>)
    requires |files| <= MAX_FILES
  {
    && (added == [] || |added| < |positions|)
    && forall j :: 0 <= j < |added| ==>
         Wanted(files, added[j]) && added[j].was == rev && added[j].file == positions[j + 1]
  }

  lemma {:induction false} JoinPlans(files: seq<File>, before: seq<Renaming>, added: seq<Renaming>, positions: seq<nat>, rev: string)
    requires |files| <= MAX_FILES && positions == Positions(files, |files|, rev)
    requires PlanSound(files, before) && forall p :: p in before ==> p.was != rev
    requires Suffixed(files, positions, rev, added)
    ensures PlanSound(files, before + added)
    ensures forall f :: Planned(before, f) ==> Planned(before + added, f)
  {
    var plan := before + added;
    forall i, j | 0 <= i < j < |plan| ensures plan[i].file != plan[j].file {
      TwoPlanned(files, before, added, positions, rev, i, j);
    }
    forall f | Planned(before, f) ensures Planned(plan, f) {
      var i :| 0 <= i < |before| && before[i].file == f;
      assert plan[i].file == f;
    }
  }

  lemma {:induction false} TwoPlanned(files: seq<File>, before: seq<Renaming>, added: seq<Renaming>, positions: seq<nat>, rev: string, i: nat, j: nat)
    requires |files| <= MAX_FILES && positions == Positions(files, |files|, rev)
    requires PlanSound(files, before) && forall p :: p in before ==> p.was != rev
    requires Suffixed(files, positions, rev, added) && i < j < |before| + |added|
    ensures (before + added)[i].file != (before + added)[j].file
  {
    var n := |before|;
    if i < n <= j {
      assert Wanted(files, before[i]) && before[i] in before;
      assert Wanted(files, added[j - n]);
    } else if n <= i {
      PositionsAre(files, |files|, rev);
      assert added[i - n].file == positions[i - n + 1] && added[j - n].file == positions[j - n + 1];
    }
  }

  /** Only files with an earlier duplicate get another name. */
  lemma {:induction false} RenamedExactly(files: seq<File>, f: nat)
    requires |files| <= MAX_FILES && f < |files|
    ensures NewRev(files, f) != RevOf(files[f].lines) <==>
              RevOf(files[f].lines).Some? && Earlier(files, f, RevOf(files[f].lines).value) > 0
  {
    if RevOf(files[f].lines).Some? {
      var rev := RevOf(files[f].lines).value;
      EarlierBound(files, f, rev);
      if Earlier(files, f, rev) > 0 {
        assert |rev + [Suffix(Earlier(files, f, rev))]| != |rev|;
      }
    }
  }

  class Versions {
    var files: seq<File>   // the directory, in file-name order

    constructor (files: seq<File>)
      ensures this.files == files
    {
      this.files := files;
    }

    /** `alembic_linearize_chain.py`: returns how many changes are planned. */
    method Linearize(apply: bool) returns (planned: nat)
      modifies this
      ensures planned == |PlanOf(Order(old(files)))|
      ensures if apply then Rewired(old(files), files, PlanOf(Order(old(files)))) else files == old(files)
      ensures Ascends(Order(old(files))) && forall c :: c in PlanOf(Order(old(files))) ==> GoesDown(old(files), c)
    {
      var revs: seq<Entry> := [];
      for i := 0 to |files|
        invariant files == old(files) && revs == Entries(files[..i])
      {
        assert files[..i + 1][..i] == files[..i];
        var rev, down := ParseRev(files[i].lines);
        if rev.Some? {
          revs := revs + [Entry(i, rev.value, down)];
        }
      }
      assert files[..|files|] == files;
      revs := Sort(revs, EntryLe);

      var plan: seq<Change> := [];
      var prevRev: Option<string> := None;
      for k := 0 to |revs|
        invariant files == old(files)
        invariant plan == PlanOf(revs[..k]) && prevRev == if k == 0 then None else Some(revs[k - 1].rev)
      {
        assert revs[..k + 1][..k] == revs[..k];
        if prevRev.Some? && revs[k].down != prevRev {
          plan := plan + [Change(revs[k].file, prevRev.value)];
        }
        prevRev := Some(revs[k].rev);
      }
      assert revs[..|revs|] == revs;
      planned := |plan|;
      PlanFacts(files);
      if apply {
        RewriteDowns(plan);
      }
    }

    method RewriteDowns(plan: seq<Change>)
      requires DistinctBy(plan, (c: Change) => c.file) && forall c :: c in plan ==> c.file < |files|
      modifies this
      ensures Rewired(old(files), files, plan)
    {
      ghost var key := (c: Change) => c.file;
      for i := 0 to |plan|
        invariant Rewired(old(files), files, plan[..i])
      {
        var c := plan[i];
        forall d | d in plan[..i] ensures d.file != c.file {
          var j :| 0 <= j < i && plan[..i][j] == d;
          assert key(plan[j]) != key(plan[i]);
        }
        assert files[c.file] == old(files)[c.file];
        files := files[c.file := files[c.file].(lines := SetDown(files[c.file].lines, c.id))];
        assert plan[..i + 1] == plan[..i] + [c];
      }
      assert plan[..|plan|] == plan;
    }

    /** `alembic_dedup_renumber.py`, file renaming apart. */
    method Renumber(apply: bool)
      requires |files| <= MAX_FILES
      modifies this
      ensures |old(files)| <= MAX_FILES
      ensures if apply then Renumbered(old(files), files) else files == old(files)
    {
      var byRev, keys := GroupByRev();
      var plan := PlanRenames(byRev, keys);
      if apply {
        RewriteRevs(plan);
      }
    }

    /** The files of each revision, and the revisions in order of appearance. */
    method GroupByRev() returns (byRev: map<string, seq<nat>>, keys: seq<string>)
      ensures Grouped(files, |files|, byRev, keys)
    {
      byRev, keys := map[], [];
      for i := 0 to |files|
        invariant byRev == ByRevOf(files, i) && keys == KeysOf(files, i)
      {
        var rev, down := ParseRev(files[i].lines);
        if rev.Some? {
          if rev.value !in byRev {
            byRev := byRev[rev.value := []];
            keys := keys + [rev.value];
          }
          byRev := byRev[rev.value := byRev[rev.value] + [i]];
        }
      }
      GroupedSoFar(files, |files|);
    }

    method PlanRenames(byRev: map<string, seq<nat>>, keys: seq<string>) returns (plan: seq<Renaming>)
      requires |files| <= MAX_FILES && Grouped(files, |files|, byRev, keys)
      ensures PlanSound(files, plan) && PlanComplete(files, plan)
    {
      var sorted := Sort(keys, StringLe);
      SortedKeys(keys);
      plan := [];
      for k := 0 to |sorted|
        invariant PlanSound(files, plan) && PlanCovers(files, plan, sorted[..k])
        invariant forall p :: p in plan ==> p.was in sorted[..k]
      {
        assert forall p :: p in plan ==> p.was != sorted[k];
        ghost var before := plan;
        plan := PlanDuplicates(byRev[sorted[k]], sorted[k], plan);
        CoversMore(files, before, plan, sorted, k);
      }
      assert sorted[..|sorted|] == sorted;
      CoversAll(files, byRev, keys, plan);
    }

    /** Suffixes a, b, c, ... for all but the first file of one revision. */
    method PlanDuplicates(positions: seq<nat>, rev: string, before: seq<Renaming>) returns (plan: seq<Renaming>)
      requires |files| <= MAX_FILES && positions == Positions(files, |files|, rev)
      requires PlanSound(files, before) && forall p :: p in before ==> p.was != rev
      ensures PlanSound(files, plan)
      ensures forall p :: p in plan ==> p in before || p.was == rev
      ensures forall f :: Planned(before, f) ==> Planned(plan, f)
      ensures PlanCovers(files, plan, [rev])
    {
      var added: seq<Renaming> := [];
      if |positions| > 1 {
        for i := 1 to |positions|
          invariant Suffixed(files, positions, rev, added) && |added| == i - 1
        {
          NewRevAt(files, rev, i);
          added := added + [Renaming(positions[i], rev, rev + [Suffix(i)])];
        }
      }
      plan := before + added;
      JoinPlans(files, before, added, positions, rev);
      CoversDuplicates(files, positions, rev, |before|, plan);
    }

    method RewriteRevs(plan: seq<Renaming>)
      requires |files| <= MAX_FILES && PlanSound(files, plan) && PlanComplete(files, plan)
      modifies this
      ensures |old(files)| <= MAX_FILES && Renumbered(old(files), files)
    {
      for i := 0 to |plan|
        invariant Written(old(files), files, plan, i)
      {
        var p := plan[i];
        NotYetWritten(old(files), files, plan, i);
        WriteNext(old(files), files, plan, i);
        files := files[p.file := Rewritten(files[p.file], p)];
      }
      WrittenIsRenumbered(old(files), files, plan);
    }
  }

  /** What is planned is one change a file, each to a revision that sorts no later. */
  lemma {:induction false} PlanFacts(files: seq<File>)
    ensures Ascends(Order(files)) && DistinctBy(PlanOf(Order(files)), (c: Change) => c.file)
    ensures forall c :: c in PlanOf(Order(files)) ==> GoesDown(files, c)
    ensures forall c :: c in PlanOf(Order(files)) ==> c.file < |files|
  {
    OrderIs(files);
    OrderAscends(files);
    PlanIs(Order(files));
    PlanGoesDown(files);
  }

  /** `main` of the renumber script followed by `main` of the linearize script, on one directory
      nobody reorders in between.  Revisions end up distinct exactly when no planned name was taken
      and every file to be renamed could be, and chained exactly when every file to be rewired
      could be; then a further run plans nothing. */
  method RenumberAndLinearize(v: Versions) returns (ghost renumbered: seq<File>)
    requires |v.files| <= MAX_FILES
    modifies v
    ensures |old(v.files)| <= MAX_FILES && Renumbered(old(v.files), renumbered)
    ensures DistinctRevs(Order(v.files)) <==> NamesFree(old(v.files)) && RenamesEditable(old(v.files))
    ensures Chained(Order(v.files)) <==> AllWirable(renumbered)
    ensures PlanOf(Order(v.files)) == [] <==> AllWirable(renumbered)
    ensures Order(renumbered) != [] ==> Order(v.files) != [] && Order(v.files)[0] == Order(renumbered)[0]
    ensures Ascends(Order(v.files))
    ensures DistinctRevs(Order(v.files)) && AllWirable(renumbered) && BaseOutside(renumbered) && Order(renumbered) != [] ==>
              OneChain(Order(renumbered), Order(v.files), |Order(renumbered)|)
  {
    ghost var start := v.files;
    v.Renumber(true);
    renumbered := v.files;
    var planned := v.Linearize(true);
    RenumberThenLinearize(start, renumbered, renumbered, v.files, |Order(renumbered)|);
    LinearizedChain(renumbered, v.files);
    OrderIs(v.files);
    OrderAscends(v.files);
    PlanEmptyExactly(Order(v.files));
  }
}
