/**
  When the levels above 1 stay consistent: a compaction leaves a gap in its level exactly when what it reads does not
  start right after the level's end, and after retention by id it may not.
 */
module Consistency {
  import opened Wrappers
  import opened Ltx
  import opened Replay
  import opened ReplicaStore
  import LtxWriter

  /** A compaction keeps a consistent level consistent exactly when its source starts right after the level's end. */
  lemma CompactionStaysConsistentIff(levels: seq<seq<LtxFile>>, dst: nat, now: int)
    requires Shaped(levels) && 1 <= dst <= 8 && Consecutive(levels[dst])
    requires Compacted(levels, dst, MaxId(levels[dst]), now).Ok?
    ensures
      var f := Compacted(levels, dst, MaxId(levels[dst]), now).value;
      var source := Seek(levels[dst - 1], MaxId(levels[dst]) + 1);
      && source != []
      && (Consecutive(Put(levels[dst], f)) <==> levels[dst] == [] || source[0].min == MaxId(levels[dst]) + 1)
  {
    var f := Compacted(levels, dst, MaxId(levels[dst]), now).value;
    CompactedIs(levels, dst, MaxId(levels[dst]), now);
    CompactedRange(levels, dst, now);
    assert InOrder(levels, dst);
    PutStaysConsistentIff(levels[dst], f);
  }

  lemma PutStaysConsistentIff(files: seq<LtxFile>, f: LtxFile)
    requires Tidy(files) && Consecutive(files) && MaxId(files) < f.min <= f.max
    ensures Consecutive(Put(files, f)) <==> files == [] || f.min == MaxId(files) + 1
  {
    PutTidy(files, f);
    if files != [] {
      MaxIdIsLast(files);
      LastAdjoins(files, f);
    }
  }

  lemma LastAdjoins(files: seq<LtxFile>, f: LtxFile)
    requires files != []
    ensures Consecutive(files + [f]) ==> f.min == files[|files| - 1].max + 1
  {
    assert Adjoins(files + [f], |files|) <==> f.min == files[|files| - 1].max + 1;
  }

  /** Level 2 never refuses what it reads, since level 1 has no gap in any reachable store. */
  lemma Level2NeverRefuses(levels: seq<seq<LtxFile>>, now: int)
    requires Shaped(levels)
    ensures Compacted(levels, 2, MaxId(levels[2]), now) != Err(MergeRefused)
  {
    assert InOrder(levels, 1);
    var k := SeekIsSuffix(levels[1], MaxId(levels[2]) + 1);
    ConsecutiveIsContiguous(levels[1], k);
  }

  // ---------------------------------------------------------------------------------------------
  // A run that leaves a gap at level 2, for every history of three transactions or more.

  /** A file with all pages of the state it ends at. */
  function Full(h: seq<Db>, level: nat, first: nat, last: nat, createdAt: int): LtxFile
    requires last < |h|
  {
    LtxFile(level, first, last, createdAt, h[last].size, h[last].pages)
  }

  /** Files of one transaction each, from `a` to `b`. */
  function Singles(h: seq<Db>, level: nat, a: nat, b: nat): (files: seq<LtxFile>)
    requires 1 <= a <= b + 1 && b < |h|
    ensures |files| == b + 1 - a && forall i :: 0 <= i < |files| ==> files[i] == Full(h, level, a + i, a + i, 1)
  {
    seq(b + 1 - a, i requires 0 <= i < b + 1 - a => Full(h, level, a + i, a + i, 1))
  }

  lemma SinglesAreTidy(h: seq<Db>, level: nat, a: nat, b: nat)
    requires 1 <= a <= b + 1 && b < |h|
    ensures Tidy(Singles(h, level, a, b)) && MaxId(Singles(h, level, a, b)) == if a <= b then b else 0
  {
    var files := Singles(h, level, a, b);
    assert Listed(files);
    if a <= b {
      MaxIdIsLast(files);
    }
  }

  lemma SeekSingles(h: seq<Db>, level: nat, a: nat, b: nat, id: nat)
    requires 1 <= a <= id <= b + 1 && b < |h|
    ensures Seek(Singles(h, level, a, b), id) == Singles(h, level, id, b)
  {
    var files := Singles(h, level, a, b);
    FilterSuffix(files, (f: LtxFile) => id <= f.min, id - a, |files|);
    assert files[..|files|] == files;
    SinglesDrop(h, level, a, b, id);
  }

  lemma SinglesAppend(h: seq<Db>, level: nat, a: nat, b: nat)
    requires 1 <= a <= b + 1 && b + 1 < |h|
    ensures Singles(h, level, a, b) + [Full(h, level, b + 1, b + 1, 1)] == Singles(h, level, a, b + 1)
  {
  }

  lemma SinglesDrop(h: seq<Db>, level: nat, a: nat, b: nat, id: nat)
    requires 1 <= a <= id <= b + 1 && b < |h|
    ensures Singles(h, level, a, b)[id - a..] == Singles(h, level, id, b)
  {
  }

  /** Retention by id leaves the files from the id on. */
  lemma RetainSingles(h: seq<Db>, level: nat, a: nat, b: nat, id: nat)
    requires 1 <= a <= id <= b < |h|
    ensures
      var files := Singles(h, level, a, b);
      Without(files, BelowId(files, id)) == Singles(h, level, id, b)
  {
    var files, k := Singles(h, level, a, b), id - a;
    FilterPrefix(files, (f: LtxFile) => f.max < id, k);
    assert 0 < k ==> files[..k][k - 1].max != files[|files| - 1].max;
    assert BelowId(files, id) == files[..k];
    SinglesAreTidy(h, level, a, b);
    WithoutPrefix(files, k);
    SinglesDrop(h, level, a, b, id);
  }

  lemma MergeOne(h: seq<Db>, level: nat, n: nat, dst: nat)
    requires History(h) && 1 <= n < |h|
    ensures Merge([Full(h, level, n, n, 1)], dst, 1) == Full(h, dst, n, n, 1)
  {
    var files := [Full(h, level, n, n, 1)];
    assert WellFormed(h[n]) && files[..0] == [];
    assert Overlay(files) == map[] + h[n].pages == h[n].pages;
    assert Cut(h[n].pages, h[n].size) == h[n].pages;
  }

  /** A store without a cache, with these files at levels 0, 1, 2 and 9. */
  function At(l0: seq<LtxFile>, l1: seq<LtxFile>, l2: seq<LtxFile>, l9: seq<LtxFile>): Store {
    Store([l0, l1, l2, [], [], [], [], [], [], l9], false, map[])
  }

  lemma AtWith0(l0: seq<LtxFile>, l1: seq<LtxFile>, l2: seq<LtxFile>, l9: seq<LtxFile>, x: seq<LtxFile>)
    ensures At(l0, l1, l2, l9).levels[0 := x] == At(x, l1, l2, l9).levels
  {
  }

  lemma AtWith1(l0: seq<LtxFile>, l1: seq<LtxFile>, l2: seq<LtxFile>, l9: seq<LtxFile>, x: seq<LtxFile>)
    ensures At(l0, l1, l2, l9).levels[1 := x] == At(l0, x, l2, l9).levels
  {
  }

  lemma AtWith2(l0: seq<LtxFile>, l1: seq<LtxFile>, l2: seq<LtxFile>, l9: seq<LtxFile>, x: seq<LtxFile>)
    ensures At(l0, l1, l2, l9).levels[2 := x] == At(l0, l1, x, l9).levels
  {
  }

  lemma AtWith9(l0: seq<LtxFile>, l1: seq<LtxFile>, l2: seq<LtxFile>, l9: seq<LtxFile>, x: seq<LtxFile>)
    ensures At(l0, l1, l2, l9).levels[9 := x] == At(l0, l1, l2, x).levels
  {
  }

  /** Without a cache, a file put beyond the end of its level is appended. */
  lemma PutDoes(s: Store, level: nat, f: LtxFile)
    requires level < |s.levels| && !s.caching && Tidy(s.levels[level]) && MaxId(s.levels[level]) < f.min <= f.max
    ensures PutFile(s, level, f) == s.(levels := s.levels[level := s.levels[level] + [f]])
  {
    PutTidy(s.levels[level], f);
  }

  /** Without a cache, a compaction that reads one file appends it to its level. */
  lemma CompactDoes(s: Store, dst: nat, g: LtxFile)
    requires |s.levels| == 10 && 1 <= dst <= 8 && !s.caching && Tidy(s.levels[dst])
    requires Seek(s.levels[dst - 1], MaxId(s.levels[dst]) + 1) == [g] && MaxId(s.levels[dst]) < g.min <= g.max
    ensures Step(s, Compact(dst, 1)) == s.(levels := s.levels[dst := s.levels[dst] + [Merge([g], dst, 1)]])
  {
    PutDoes(s, dst, Merge([g], dst, 1));
  }

  lemma UploadOne(h: seq<Db>, n: nat, l2: seq<LtxFile>)
    requires History(h) && 1 <= n < |h|
    ensures
      var l1, f := Singles(h, 1, 1, n - 1), Full(h, 0, n, n, 1);
      var s := At(Singles(h, 0, 1, n - 1), l1, l2, []);
      Enabled(h, s, Upload(f)) && Step(s, Upload(f)) == At(Singles(h, 0, 1, n), l1, l2, [])
  {
    var l0, l1, f := Singles(h, 0, 1, n - 1), Singles(h, 1, 1, n - 1), Full(h, 0, n, n, 1);
    LtxWriter.FullFileIsFaithful(h, 0, n, n, 1);
    SinglesAreTidy(h, 0, 1, n - 1);
    PutDoes(At(l0, l1, l2, []), 0, f);
    SinglesAppend(h, 0, 1, n - 1);
    AtWith0(l0, l1, l2, [], Singles(h, 0, 1, n));
  }

  lemma CompactOne(h: seq<Db>, n: nat, l2: seq<LtxFile>)
    requires History(h) && 1 <= n < |h|
    ensures
      var l0 := Singles(h, 0, 1, n);
      Step(At(l0, Singles(h, 1, 1, n - 1), l2, []), Compact(1, 1)) == At(l0, Singles(h, 1, 1, n), l2, [])
  {
    var l0, l1 := Singles(h, 0, 1, n), Singles(h, 1, 1, n - 1);
    SourceIsOne(h, n);
    CompactToLevel1(l0, l1, l2, Full(h, 0, n, n, 1));
    MergeOne(h, 0, n, 1);
    SinglesAppend(h, 1, 1, n - 1);
  }

  lemma SourceIsOne(h: seq<Db>, n: nat)
    requires 1 <= n < |h|
    ensures Tidy(Singles(h, 1, 1, n - 1)) && MaxId(Singles(h, 1, 1, n - 1)) == n - 1
    ensures Seek(Singles(h, 0, 1, n), n) == [Full(h, 0, n, n, 1)]
  {
    SinglesAreTidy(h, 1, 1, n - 1);
    SeekSingles(h, 0, 1, n, n);
    OneSingle(h, 0, n);
  }

  lemma CompactToLevel1(l0: seq<LtxFile>, l1: seq<LtxFile>, l2: seq<LtxFile>, g: LtxFile)
    requires Tidy(l1) && Seek(l0, MaxId(l1) + 1) == [g] && MaxId(l1) < g.min <= g.max
    ensures Step(At(l0, l1, l2, []), Compact(1, 1)) == At(l0, l1 + [Merge([g], 1, 1)], l2, [])
  {
    CompactDoes(At(l0, l1, l2, []), 1, g);
    AtWith1(l0, l1, l2, [], l1 + [Merge([g], 1, 1)]);
  }

  lemma OneSingle(h: seq<Db>, level: nat, n: nat)
    requires 1 <= n < |h|
    ensures Singles(h, level, n, n) == [Full(h, level, n, n, 1)]
  {
  }

  /** With one transaction in level 1, level 2 takes it. */
  lemma FirstToLevel2(h: seq<Db>)
    requires History(h) && 2 <= |h|
    ensures
      var l0, l1 := Singles(h, 0, 1, 1), Singles(h, 1, 1, 1);
      Step(At(l0, l1, [], []), Compact(2, 1)) == At(l0, l1, Singles(h, 2, 1, 1), [])
  {
    SeekSingles(h, 1, 1, 1, 1);
    OneSingle(h, 1, 1);
    FirstOfLevel2(Singles(h, 0, 1, 1), Singles(h, 1, 1, 1), Full(h, 1, 1, 1, 1));
    MergeOne(h, 1, 1, 2);
    OneSingle(h, 2, 1);
  }

  lemma FirstOfLevel2(l0: seq<LtxFile>, l1: seq<LtxFile>, g: LtxFile)
    requires Seek(l1, 1) == [g] && 1 <= g.min <= g.max
    ensures Step(At(l0, l1, [], []), Compact(2, 1)) == At(l0, l1, [Merge([g], 2, 1)], [])
  {
    CompactDoes(At(l0, l1, [], []), 2, g);
    AtWith2(l0, l1, [], [], [Merge([g], 2, 1)]);
  }

  /** A snapshot at transaction 3 and the retention it leads to: level 1 keeps only transaction 3. */
  lemma SnapshotAndCascade(h: seq<Db>) returns (mid: Store)
    requires History(h) && 4 <= |h|
    ensures
      var l0, l1, l2 := Singles(h, 0, 1, 3), Singles(h, 1, 1, 3), Singles(h, 2, 1, 1);
      var s, f := At(l0, l1, l2, []), Full(h, 9, 1, 3, 5);
      && Enabled(h, s, WriteSnapshot(f)) && mid == Step(s, WriteSnapshot(f))
      && |mid.levels| == 10 && Enabled(h, mid, CascadedRetention(3, 3))
      && Step(mid, CascadedRetention(3, 3)) == At(l0, Singles(h, 1, 3, 3), l2, [f])
  {
    var l0, l1, l2, f := Singles(h, 0, 1, 3), Singles(h, 1, 1, 3), Singles(h, 2, 1, 1), Full(h, 9, 1, 3, 5);
    mid := At(l0, l1, l2, [f]);
    LtxWriter.FullFileIsFaithful(h, 9, 1, 3, 5);
    FirstSnapshot(l0, l1, l2, f);
    NothingExpires(f);
    RetainSingles(h, 1, 1, 3, 3);
    OneSingle(h, 2, 1);
    NewestStays(Full(h, 2, 1, 1, 1));
    CascadeDoes(l0, l1, Singles(h, 1, 3, 3), l2, f);
  }

  lemma FirstSnapshot(l0: seq<LtxFile>, l1: seq<LtxFile>, l2: seq<LtxFile>, f: LtxFile)
    requires f.min <= f.max && 0 < f.min
    ensures Step(At(l0, l1, l2, []), WriteSnapshot(f)) == At(l0, l1, l2, [f])
  {
    PutDoes(At(l0, l1, l2, []), 9, f);
    AtWith9(l0, l1, l2, [], [f]);
  }

  lemma CascadeDoes(l0: seq<LtxFile>, l1: seq<LtxFile>, kept: seq<LtxFile>, l2: seq<LtxFile>, f: LtxFile)
    requires OldSnapshots([f], 3) == [] && Without([f], []) == [f]
    requires Without(l1, BelowId(l1, 3)) == kept && Without(l2, BelowId(l2, 3)) == l2
    ensures Step(At(l0, l1, l2, [f]), CascadedRetention(3, 3)) == At(l0, kept, l2, [f])
  {
    var s, r := At(l0, l1, l2, [f]), At(l0, kept, l2, [f]);
    AtWith9(l0, l1, l2, [f], [f]);
    assert Delete(s, 9, []) == s;
    assert Without([], BelowId([], 3)) == [];
    forall l | 0 <= l < 10 ensures RetainById(s, 3).levels[l] == r.levels[l] {
      assert 3 <= l <= 8 ==> s.levels[l] == [];
    }
    assert RetainById(s, 3).levels == r.levels;
  }

  /** A lone snapshot that is recent stays, and its id is the one returned. */
  lemma NothingExpires(f: LtxFile)
    requires f.createdAt == 5 && f.max == 3
    ensures OldSnapshots([f], 3) == [] && Without([f], []) == [f] && LeastRecentId([f], 3) == 3
  {
    assert [f][..0] == [];
    assert LeastRecentId([f][..0], 3) == 0;
    assert Filter([f][..0], (g: LtxFile) => g.createdAt < 3) == [];
    WithoutPrefix([f], 0);
  }

  /** The only file of a level is never taken by retention. */
  lemma NewestStays(f: LtxFile)
    requires f.max == 1
    ensures Without([f], BelowId([f], 3)) == [f]
  {
    FilterPrefix([f], (g: LtxFile) => g.max < 3, 1);
    WithoutPrefix([f], 0);
    assert [f][..1] == [f] && [f][..0] == [];
  }

  /** Level 2 then takes transaction 3 right after transaction 1. */
  lemma GapAtLevel2(h: seq<Db>, l0: seq<LtxFile>, l9: seq<LtxFile>)
    requires History(h) && 4 <= |h|
    ensures
      var s := At(l0, Singles(h, 1, 3, 3), Singles(h, 2, 1, 1), l9);
      Step(s, Compact(2, 1)).levels[2] == Singles(h, 2, 1, 1) + [Full(h, 2, 3, 3, 1)]
  {
    var l1, l2 := Singles(h, 1, 3, 3), Singles(h, 2, 1, 1);
    SinglesAreTidy(h, 2, 1, 1);
    OneSingle(h, 1, 3);
    FilterSuffix(l1, (f: LtxFile) => 2 <= f.min, 0, 1);
    assert l1[..1] == l1 && l1[0..1] == l1;
    CompactDoes(At(l0, l1, l2, l9), 2, Full(h, 1, 3, 3, 1));
    MergeOne(h, 1, 3, 2);
  }

  /** Adds a step to a run. */
  lemma Extend(h: seq<Db>, run: seq<Store>, ops: seq<Op>, op: Op, next: Store)
    returns (longer: seq<Store>, more: seq<Op>)
    requires IsRun(h, run, ops) && Runs(h, run[|ops|], op, next)
    ensures IsRun(h, longer, more) && longer[|more|] == next
  {
    longer, more := run + [next], ops + [op];
    forall i | 0 <= i < |more| ensures Runs(h, longer[i], more[i], longer[i + 1]) {
      assert i < |ops| ==> Runs(h, run[i], ops[i], run[i + 1]);
    }
  }

  /** A run that has brought the first `n` transactions to level 1, and the first one to level 2. */
  lemma {:induction false} RunTo(h: seq<Db>, n: nat) returns (run: seq<Store>, ops: seq<Op>)
    requires History(h) && 1 <= n < |h|
    ensures IsRun(h, run, ops)
    ensures run[|ops|] == At(Singles(h, 0, 1, n), Singles(h, 1, 1, n), Singles(h, 2, 1, 1), [])
  {
    var l2 := if n == 1 then [] else Singles(h, 2, 1, 1);
    if n == 1 {
      run, ops := [At([], [], [], [])], [];
      assert At([], [], [], []).levels == seq(10, l => []);
      assert Singles(h, 0, 1, 0) == [] && Singles(h, 1, 1, 0) == [];
    } else {
      run, ops := RunTo(h, n - 1);
    }
    UploadOne(h, n, l2);
    var uploaded := At(Singles(h, 0, 1, n), Singles(h, 1, 1, n - 1), l2, []);
    run, ops := Extend(h, run, ops, Upload(Full(h, 0, n, n, 1)), uploaded);
    CompactOne(h, n, l2);
    run, ops := Extend(h, run, ops, Compact(1, 1), At(Singles(h, 0, 1, n), Singles(h, 1, 1, n), l2, []));
    if n == 1 {
      FirstToLevel2(h);
      var first := At(Singles(h, 0, 1, n), Singles(h, 1, 1, n), Singles(h, 2, 1, 1), []);
      run, ops := Extend(h, run, ops, Compact(2, 1), first);
    }
  }

  /**
    Level consistency is false from level 2 up: whatever the database did in its first three transactions, this run
    leaves level 2 with transaction 3 right after transaction 1.
   */
  lemma Level2CanGetAGap(h: seq<Db>) returns (run: seq<Store>, ops: seq<Op>)
    requires History(h) && 4 <= |h|
    ensures IsRun(h, run, ops) && |run[|ops|].levels| == 10 && !Consecutive(run[|ops|].levels[2])
  {
    var l0, l2, snapshot := Singles(h, 0, 1, 3), Singles(h, 2, 1, 1), Full(h, 9, 1, 3, 5);
    run, ops := RunTo(h, 3);
    var mid := SnapshotAndCascade(h);
    run, ops := Extend(h, run, ops, WriteSnapshot(snapshot), mid);
    var kept := At(l0, Singles(h, 1, 3, 3), l2, [snapshot]);
    run, ops := Extend(h, run, ops, CascadedRetention(3, 3), kept);
    GapAtLevel2(h, l0, [snapshot]);
    run, ops := Extend(h, run, ops, Compact(2, 1), Step(kept, Compact(2, 1)));
    var files := l2 + [Full(h, 2, 3, 3, 1)];
    assert !Adjoins(files, 1);
  }
}
