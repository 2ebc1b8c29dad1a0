/**
  What transaction files mean: a file is faithful to a history of database states when it carries every
  page its range changed. Merging keeps this, and a restore plan gives back the state it ends at.
 */
module Replay {
  import opened Wrappers
  import opened Ltx
  import opened RestorePlan

  /** The page that SQLite reserves for locking, which depends on the page size and is never stored. */
  const LOCK_PGNO: nat

  /** A database state: its size in pages and its pages, numbered from 1. */
  datatype Db = Db(size: nat, pages: map<nat, Page>)

  ghost predicate WellFormed(db: Db) {
    forall p :: p in db.pages <==> 1 <= p <= db.size && p != LOCK_PGNO
  }

  /** The states after transactions 0, 1, 2, ...; the database is empty before the first and never after. */
  ghost predicate History(h: seq<Db>) {
    && 0 < |h| && h[0].size == 0
    && (forall t :: 0 <= t < |h| ==> WellFormed(h[t]))
    && (forall t :: 0 < t < |h| ==> 0 < h[t].size)
  }

  /** Page `p` is present with the same content in every state from `a` to `b`. */
  ghost predicate Stable(h: seq<Db>, p: nat, a: nat, b: nat)
    requires b < |h|
  {
    forall t :: a <= t <= b ==> p in h[t].pages && p in h[b].pages && h[t].pages[p] == h[b].pages[p]
  }

  /** Pages that, laid over any state from `a - 1` to `b`, give the state `b`. */
  ghost predicate Carries(h: seq<Db>, pages: map<nat, Page>, a: nat, b: nat) {
    && 1 <= a <= b < |h|
    && forall p :: p in h[b].pages ==>
         if p in pages then pages[p] == h[b].pages[p] else Stable(h, p, a - 1, b)
  }

  /** A file whose pages are right for its last transaction and leave out only pages its range did not touch. */
  ghost predicate Faithful(h: seq<Db>, f: LtxFile) {
    && f.max < |h|
    && f.commit == h[f.max].size
    && f.pages.Keys <= h[f.max].pages.Keys
    && Carries(h, f.pages, f.min, f.max)
  }

  /** Laying a file over a state: its pages win, and the result is cut to the size the file commits. */
  function Apply(db: Db, f: LtxFile): Db {
    Db(f.commit, map p | p in db.pages.Keys + f.pages.Keys && p <= f.commit ::
         if p in f.pages then f.pages[p] else db.pages[p])
  }

  /** A faithful file takes any state from just before its range to its end to the state at its end. */
  lemma ApplyFaithful(h: seq<Db>, f: LtxFile, c: nat)
    requires History(h) && Faithful(h, f) && f.min - 1 <= c <= f.max
    ensures Apply(h[c], f) == h[f.max]
  {
    var r, goal := Apply(h[c], f), h[f.max];
    assert WellFormed(goal) && WellFormed(h[c]);
    forall p | p in goal.pages ensures p in r.pages && r.pages[p] == goal.pages[p] {
      if p !in f.pages {
        assert Stable(h, p, f.min - 1, f.max);
      }
    }
    assert r.pages.Keys == goal.pages.Keys;
  }

  // ---------------------------------------------------------------------------------------------
  // Merging.

  /** What the merge takes: each input starts by one past the end of the one before and ends after it. */
  predicate Contiguous(files: seq<LtxFile>) {
    forall i, j :: 0 <= i < |files| && 0 <= j < |files| && j == i + 1 ==>
      files[j].min <= files[i].max + 1 && files[i].max < files[j].max
  }

  /** The last writer of each page. */
  function Overlay(files: seq<LtxFile>): map<nat, Page> {
    if files == [] then map[] else Overlay(files[..|files| - 1]) + files[|files| - 1].pages
  }

  function Cut(pages: map<nat, Page>, commit: nat): map<nat, Page> {
    map p | p in pages && p <= commit :: pages[p]
  }

  /** The merge of contiguous files into one, cut to the final size. */
  function Merge(files: seq<LtxFile>, level: nat, createdAt: int): LtxFile
    requires files != []
  {
    var last := files[|files| - 1];
    LtxFile(level, files[0].min, last.max, createdAt, last.commit, Cut(Overlay(files), last.commit))
  }

  /** Laying a file over pages that carry the states before it carries them on to its end. */
  lemma CarriesOn(h: seq<Db>, pages: map<nat, Page>, a: nat, mid: nat, f: LtxFile)
    requires Carries(h, pages, a, mid) && Faithful(h, f) && f.min <= mid + 1 && mid < f.max
    ensures Carries(h, pages + f.pages, a, f.max)
  {
    forall p | p in h[f.max].pages && p !in f.pages
      ensures if p in pages then pages[p] == h[f.max].pages[p] else Stable(h, p, a - 1, f.max)
    {
      assert Stable(h, p, f.min - 1, f.max);
      assert h[mid].pages[p] == h[f.max].pages[p];
      if p !in pages {
        assert Stable(h, p, a - 1, mid);
      }
    }
  }

  lemma {:induction false} OverlayCarries(h: seq<Db>, files: seq<LtxFile>)
    requires files != [] && Contiguous(files)
    requires forall i :: 0 <= i < |files| ==> Faithful(h, files[i])
    ensures Carries(h, Overlay(files), files[0].min, files[|files| - 1].max)
  {
    var n := |files| - 1;
    var f := files[n];
    if n == 0 {
      assert Overlay(files) == Overlay(files[..0]) + f.pages == f.pages;
    } else {
      OverlayCarries(h, files[..n]);
      CarriesOn(h, Overlay(files[..n]), files[0].min, files[n - 1].max, f);
    }
  }

  lemma {:induction false} OverlayStored(h: seq<Db>, files: seq<LtxFile>)
    requires History(h) && forall i :: 0 <= i < |files| ==> Faithful(h, files[i])
    ensures LOCK_PGNO !in Overlay(files) && 0 !in Overlay(files)
  {
    if files != [] {
      var n := |files| - 1;
      assert WellFormed(h[files[n].max]);
      OverlayStored(h, files[..n]);
    }
  }

  /** Merging contiguous faithful files gives a faithful file, whatever shrinks and regrows in between. */
  lemma MergeFaithful(h: seq<Db>, files: seq<LtxFile>, level: nat, createdAt: int)
    requires History(h) && files != [] && Contiguous(files)
    requires forall i :: 0 <= i < |files| ==> Faithful(h, files[i])
    ensures Faithful(h, Merge(files, level, createdAt))
  {
    OverlayCarries(h, files);
    OverlayStored(h, files);
    var m := Merge(files, level, createdAt);
    assert WellFormed(h[m.max]);
    assert Carries(h, m.pages, m.min, m.max);
  }

  /** Across a gap the merge would lose pages: here the second state's only page is missing. */
  lemma MergeAcrossGapIsUnfaithful(a: Page, b: Page)
    requires a != b && LOCK_PGNO != 1
    ensures
      var one, two := Db(1, map[1 := a]), Db(1, map[1 := b]);
      var h := [Db(0, map[]), one, two, two];
      var files := [LtxFile(1, 1, 1, 1, 1, map[1 := a]), LtxFile(1, 3, 3, 1, 1, map[])];
      && History(h) && (forall i :: 0 <= i < |files| ==> Faithful(h, files[i]))
      && !Contiguous(files) && !Faithful(h, Merge(files, 2, 1))
      && Apply(h[2], Merge(files, 2, 1)) != h[3]
  {
    var one, two := Db(1, map[1 := a]), Db(1, map[1 := b]);
    var h := [Db(0, map[]), one, two, two];
    var files := [LtxFile(1, 1, 1, 1, 1, map[1 := a]), LtxFile(1, 3, 3, 1, 1, map[])];
    assert Stable(h, 1, 2, 3);
    assert files[..1][..0] == [];
    assert Overlay(files[..1]) == Overlay([]) + files[0].pages;
    assert Overlay(files) == map[1 := a];
    assert Merge(files, 2, 1).pages[1] == a && 1 in h[3].pages;
    assert Apply(h[2], Merge(files, 2, 1)).pages[1] == a;
  }

  // ---------------------------------------------------------------------------------------------
  // Restoring.

  /** Decoding a merged file into a database: it must start at the beginning and have every page. */
  function Decode(f: LtxFile): Option<Db> {
    if f.min == 1 && forall p :: 1 <= p <= f.commit && p != LOCK_PGNO ==> p in f.pages
    then Some(Db(f.commit, f.pages))
    else None
  }

  lemma DecodeFaithful(h: seq<Db>, f: LtxFile)
    requires History(h) && Faithful(h, f) && f.min == 1
    ensures Decode(f) == Some(h[f.max])
  {
    assert WellFormed(h[0]) && WellFormed(h[f.max]);
    forall p | p in h[f.max].pages ensures p in f.pages {
      assert p !in h[0].pages;
    }
    assert f.pages == h[f.max].pages;
  }

  /** Applying the raw files of transactions 1, 2, ... in order to the empty database. */
  function ReplayRaw(raw: seq<LtxFile>): Db {
    if raw == [] then Db(0, map[]) else Apply(ReplayRaw(raw[..|raw| - 1]), raw[|raw| - 1])
  }

  /** The raw files: one per transaction, in order, each faithful. */
  ghost predicate RawFiles(h: seq<Db>, raw: seq<LtxFile>) {
    forall i :: 0 <= i < |raw| ==> Faithful(h, raw[i]) && raw[i].min == raw[i].max == i + 1
  }

  lemma {:induction false} ReplayRawReaches(h: seq<Db>, raw: seq<LtxFile>)
    requires History(h) && RawFiles(h, raw)
    ensures |raw| < |h| && ReplayRaw(raw) == h[|raw|]
  {
    if raw == [] {
      assert WellFormed(h[0]);
      assert h[0].pages == map[];
    } else {
      var n := |raw| - 1;
      ReplayRawReaches(h, raw[..n]);
      ApplyFaithful(h, raw[n], n);
    }
  }

  /** Every file the plan may use is faithful to the history. */
  ghost predicate AllFaithful(h: seq<Db>, levels: seq<seq<LtxFile>>, snapshots: seq<LtxFile>) {
    && (forall f :: f in Pool(levels) ==> Faithful(h, f))
    && (forall i :: 0 <= i < |snapshots| ==> Faithful(h, snapshots[i]))
  }

  /** Files picked greedily move forward without a gap, from the snapshot they start at. */
  lemma PicksAreContiguous(head: seq<LtxFile>, start: nat, picks: seq<LtxFile>, pool: set<LtxFile>, target: Target)
    requires Greedy(start, picks, pool, target)
    requires |head| <= 1 && (head != [] ==> head[0].max == start)
    ensures Contiguous(head + picks)
  {
    var plan := head + picks;
    forall i, j | 0 <= i < |plan| && 0 <= j < |plan| && i == j + 1
      ensures plan[i].min <= plan[j].max + 1 && plan[j].max < plan[i].max
    {
      var k := i - |head|;
      assert Picked(start, picks, pool, target, k) && picks[k] == plan[i];
      assert k > 0 ==> picks[..k][k - 1] == plan[j];
    }
  }

  lemma PlanIsContiguous(plan: seq<LtxFile>, levels: seq<seq<LtxFile>>, snapshots: seq<LtxFile>, target: Target)
    requires IsPlan(plan, levels, snapshots, target)
    ensures plan != [] && Contiguous(plan)
  {
    var start, head := Start(snapshots, target), Head(snapshots, target);
    PicksAreContiguous(head, start, plan[|head|..], Pool(levels), target);
    assert plan == head + plan[|head|..];
  }

  /** Every file of a plan is faithful, and the first one starts at transaction 1. */
  lemma PlanIsFaithful(
    h: seq<Db>, plan: seq<LtxFile>, levels: seq<seq<LtxFile>>, snapshots: seq<LtxFile>, target: Target)
    requires AllFaithful(h, levels, snapshots) && FullSnapshots(snapshots)
    requires IsPlan(plan, levels, snapshots, target) && plan != []
    ensures (forall i :: 0 <= i < |plan| ==> Faithful(h, plan[i])) && plan[0].min <= 1
  {
    HeadFaithful(h, levels, snapshots, target);
    var start, head := Start(snapshots, target), Head(snapshots, target);
    var picks := plan[|head|..];
    forall i | 0 <= i < |plan| ensures Faithful(h, plan[i]) {
      if |head| <= i {
        assert Picked(start, picks, Pool(levels), target, i - |head|) && plan[i] == picks[i - |head|];
      }
    }
    if head == [] {
      assert Picked(start, picks, Pool(levels), target, 0) && picks[0] == plan[0] && picks[..0] == [];
    }
  }

  /** Merging and decoding the files of a plan gives the state at the plan's end. */
  lemma PlanDecodes(h: seq<Db>, plan: seq<LtxFile>, levels: seq<seq<LtxFile>>, snapshots: seq<LtxFile>, target: Target)
    requires History(h) && AllFaithful(h, levels, snapshots) && FullSnapshots(snapshots)
    requires IsPlan(plan, levels, snapshots, target)
    ensures plan != [] && plan[|plan| - 1].max < |h|
    ensures Decode(Merge(plan, 0, 0)) == Some(h[plan[|plan| - 1].max])
  {
    PlanIsContiguous(plan, levels, snapshots, target);
    PlanIsFaithful(h, plan, levels, snapshots, target);
    FaithfulFilesDecode(h, plan);
  }

  lemma FaithfulFilesDecode(h: seq<Db>, files: seq<LtxFile>)
    requires History(h) && files != [] && Contiguous(files) && files[0].min <= 1
    requires forall i :: 0 <= i < |files| ==> Faithful(h, files[i])
    ensures files[|files| - 1].max < |h|
    ensures Decode(Merge(files, 0, 0)) == Some(h[files[|files| - 1].max])
  {
    assert Faithful(h, files[0]) && Faithful(h, files[|files| - 1]);
    MergeFaithful(h, files, 0, 0);
    DecodeFaithful(h, Merge(files, 0, 0));
  }

  /** Restoring by a plan gives the same database as replaying every raw transaction up to the plan's end. */
  lemma RestoreEqualsReplay(
    h: seq<Db>, plan: seq<LtxFile>, raw: seq<LtxFile>, levels: seq<seq<LtxFile>>, snapshots: seq<LtxFile>,
    target: Target)
    requires History(h) && AllFaithful(h, levels, snapshots) && FullSnapshots(snapshots)
    requires IsPlan(plan, levels, snapshots, target) && plan != []
    requires RawFiles(h, raw) && |raw| == plan[|plan| - 1].max
    ensures Decode(Merge(plan, 0, 0)) == Some(ReplayRaw(raw))
  {
    PlanDecodes(h, plan, levels, snapshots, target);
    ReplayRawReaches(h, raw);
  }

  lemma {:induction false} HeadFaithful(h: seq<Db>, levels: seq<seq<LtxFile>>, snapshots: seq<LtxFile>, target: Target)
    requires AllFaithful(h, levels, snapshots) && FullSnapshots(snapshots)
    ensures Head(snapshots, target) != [] ==>
      Faithful(h, Head(snapshots, target)[0]) && Head(snapshots, target)[0].min == 1
  {
    if snapshots != [] {
      HeadFaithful(h, levels, snapshots[..|snapshots| - 1], target);
    }
  }
}
