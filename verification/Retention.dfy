/** What the retention rules delete and what they keep, said file by file, and what a compaction takes. */
module Retention {
  import opened Wrappers
  import opened Ltx
  import opened Replay
  import opened ReplicaStore

  /** Of the marked files of a listing exactly those stay that the rule spares: the last one of the listing. */
  lemma SparedIff(files: seq<LtxFile>, marked: seq<LtxFile>, i: nat)
    requires Listed(files) && Listed(marked) && i < |files| && forall f :: f in marked ==> f in files
    ensures files[i] in Without(files, SpareNewest(marked, files)) <==> files[i] !in marked || i == |files| - 1
  {
    var deleted, n := SpareNewest(marked, files), |files| - 1;
    FilterKeeps(files, (f: LtxFile) => f !in deleted);
    if i == n {
      NewestIsSpared(files, marked);
    } else if files[i] in marked {
      var k :| 0 <= k < |marked| && marked[k] == files[i];
      assert NameLess(files[i], files[n]);
      assert files[i] == deleted[k];
    }
  }

  /** A snapshot is deleted exactly when it was made before the time and is not the last one listed. */
  lemma SnapshotStaysIff(snapshots: seq<LtxFile>, time: int, i: nat)
    requires Listed(snapshots) && i < |snapshots|
    ensures snapshots[i] in Without(snapshots, OldSnapshots(snapshots, time)) <==>
      time <= snapshots[i].createdAt || i == |snapshots| - 1
  {
    var aged := (f: LtxFile) => f.createdAt < time;
    FilterKeeps(snapshots, aged);
    SparedIff(snapshots, Filter(snapshots, aged), i);
  }

  /** A file is deleted by id exactly when it ends before the id and is not the last one listed. */
  lemma StaysByIdIff(files: seq<LtxFile>, id: nat, i: nat)
    requires Listed(files) && i < |files|
    ensures files[i] in Without(files, BelowId(files, id)) <==> id <= files[i].max || i == |files| - 1
  {
    var below := (f: LtxFile) => f.max < id;
    FilterKeeps(files, below);
    SparedIff(files, Filter(files, below), i);
  }

  /** The time of a file is unknown or not after the threshold. */
  predicate Aged(f: LtxFile, threshold: int) {
    f.createdAt == 0 || f.createdAt <= threshold
  }

  /** The scan stops at the first file whose known time is after the threshold. */
  lemma {:induction false} ScanEndsAtFirstYoung(files: seq<LtxFile>, threshold: int)
    ensures
      var n := ScanEnd(files, threshold);
      && (forall j :: 0 <= j < n ==> Aged(files[j], threshold))
      && (n < |files| ==> !Aged(files[n], threshold))
  {
    if files != [] {
      ScanEndsAtFirstYoung(files[..|files| - 1], threshold);
    }
  }

  lemma InFrontIff(files: seq<LtxFile>, n: nat, i: nat)
    requires Listed(files) && n <= |files| && i < |files|
    ensures files[i] in files[..n] <==> i < n
  {
    if i < n {
      assert files[..n][i] == files[i];
    } else {
      forall k | 0 <= k < n ensures files[..n][k] != files[i] {
        assert NameLess(files[k], files[i]);
      }
    }
  }

  ghost predicate GoesFromLevel0(files: seq<LtxFile>, maxL1: nat, threshold: int, i: nat)
    requires i < |files|
  {
    files[i].max <= maxL1 && i < |files| - 1 && forall j :: 0 <= j <= i ==> Aged(files[j], threshold)
  }

  /**
    A level 0 file is deleted exactly when level 1 reaches its end, neither it nor any file before it has a known time
    after the threshold, and it is not the last one listed.
   */
  lemma Level0StaysIff(files: seq<LtxFile>, maxL1: nat, threshold: int, i: nat)
    requires Listed(files) && i < |files|
    ensures files[i] !in Without(files, ExpiredLevel0(files, maxL1, threshold)) <==>
      GoesFromLevel0(files, maxL1, threshold, i)
  {
    var n := ScanEnd(files, threshold);
    var covered := (f: LtxFile) => f.max <= maxL1;
    var deleted := ExpiredLevel0(files, maxL1, threshold);
    ScanEndsAtFirstYoung(files, threshold);
    FilterKeeps(files[..n], covered);
    FilterKeeps(files, (f: LtxFile) => f !in deleted);
    InFrontIff(files, n, i);
    if n == |files| {
      assert files[..n] == files;
      SparedIff(files, Filter(files, covered), i);
    }
  }

  /** The id the compactor hands down: the least end of the snapshots made at the time or later, zero if none was. */
  lemma {:induction false} LeastRecentIs(snapshots: seq<LtxFile>, time: int)
    requires forall i :: 0 <= i < |snapshots| ==> 0 < snapshots[i].max
    ensures
      var id := LeastRecentId(snapshots, time);
      && (forall i :: 0 <= i < |snapshots| && time <= snapshots[i].createdAt ==> 0 < id <= snapshots[i].max)
      && (0 < id ==> exists i :: 0 <= i < |snapshots| && time <= snapshots[i].createdAt && snapshots[i].max == id)
  {
    if snapshots != [] {
      var n := |snapshots| - 1;
      LeastRecentIs(snapshots[..n], time);
      if 0 < LeastRecentId(snapshots[..n], time) {
        var i :| 0 <= i < n && time <= snapshots[..n][i].createdAt
          && snapshots[..n][i].max == LeastRecentId(snapshots[..n], time);
        assert snapshots[i].max == LeastRecentId(snapshots[..n], time) && time <= snapshots[i].createdAt;
      }
    }
  }

  /** The first snapshot that stays: the first made at the time or later, or else the last one listed. */
  ghost predicate FirstToStay(snapshots: seq<LtxFile>, time: int, k: nat) {
    && k < |snapshots| && (time <= snapshots[k].createdAt || k == |snapshots| - 1)
    && forall j :: 0 <= j < k ==> snapshots[j].createdAt < time
  }

  /** The id the database hands down: the end of the snapshot just before the first that stays, zero if none is. */
  lemma PriorIs(snapshots: seq<LtxFile>, time: int, k: nat)
    requires Listed(snapshots) && FirstToStay(snapshots, time, k)
    ensures PriorSnapshotId(snapshots, OldSnapshots(snapshots, time)) == if k == 0 then 0 else snapshots[k - 1].max
  {
    var deleted := OldSnapshots(snapshots, time);
    FilterKeeps(snapshots, (f: LtxFile) => f !in deleted);
    forall j | 0 <= j <= k ensures snapshots[j] in deleted <==> j < k {
      SnapshotStaysIff(snapshots, time, j);
    }
    FirstKept(snapshots, deleted, k);
  }

  lemma {:induction false} FirstKept(files: seq<LtxFile>, deleted: seq<LtxFile>, i: nat)
    requires i <= |files| && (forall j :: 0 <= j < i ==> files[j] in deleted)
    requires i < |files| ==> files[i] !in deleted
    ensures PriorSnapshotId(files, deleted) == if 0 < i < |files| then files[i - 1].max else 0
  {
    if files != [] {
      var n := |files| - 1;
      if i <= n {
        FirstKept(files[..n], deleted, i);
      }
    }
  }

  // ---------------------------------------------------------------------------------------------
  // What a compaction takes.

  /** A compaction that succeeds takes everything the level below has beyond its level's end: the two then end alike. */
  lemma CompactionCatchesUp(levels: seq<seq<LtxFile>>, dst: nat, now: int)
    requires Shaped(levels) && 1 <= dst <= 8 && Compacted(levels, dst, MaxId(levels[dst]), now).Ok?
    ensures
      var f := Compacted(levels, dst, MaxId(levels[dst]), now).value;
      && f.level == dst && f.createdAt == now && MaxId(Put(levels[dst], f)) == f.max == MaxId(levels[dst - 1])
      && (forall g :: g in levels[dst - 1] && MaxId(levels[dst]) < g.min ==> f.min <= g.min)
      && (exists g :: g in levels[dst - 1] && f.min == g.min)
  {
    var files, last := levels[dst - 1], MaxId(levels[dst]);
    CompactedIs(levels, dst, last, now);
    assert InOrder(levels, dst - 1);
    SourceIsAllBeyond(files, last);
    CompactedShaped(levels, dst, now);
  }

  /** What is read of a level beyond an id starts at its first file beyond it and ends at the level's end. */
  lemma SourceIsAllBeyond(files: seq<LtxFile>, last: nat)
    requires Tidy(files) && Seek(files, last + 1) != []
    ensures
      var source := Seek(files, last + 1);
      && source[0] in files && source[|source| - 1].max == MaxId(files)
      && forall g :: g in files && last < g.min ==> source[0].min <= g.min
  {
    var k := SeekIsSuffix(files, last + 1);
    MaxIdIsLast(files);
    assert files[k..][0] == files[k] && files[k] in files;
    forall g | g in files && last < g.min ensures files[k].min <= g.min {
      var j :| 0 <= j < |files| && files[j] == g;
      assert k < j ==> NameLess(files[k], files[j]);
    }
  }

  /** There is nothing to compact exactly when no file of the level below starts beyond the level's end. */
  lemma NothingToCompactIff(levels: seq<seq<LtxFile>>, dst: nat, last: nat, now: int)
    requires 1 <= dst < |levels| && Listed(levels[dst - 1])
    ensures Compacted(levels, dst, last, now) == Err(NoCompaction) <==>
      forall g :: g in levels[dst - 1] ==> g.min <= last
  {
    SeekKeepsOrder(levels[dst - 1], last + 1);
    var source := Seek(levels[dst - 1], last + 1);
    if source != [] {
      assert source[0] in source;
    }
  }

  /** A merge is refused exactly when two neighbours of what would be read leave a gap, the ranges going up. */
  lemma RefusedIff(levels: seq<seq<LtxFile>>, dst: nat, last: nat, now: int)
    requires 1 <= dst < |levels| && Tidy(levels[dst - 1])
    ensures
      var files := levels[dst - 1];
      Compacted(levels, dst, last, now) == Err(MergeRefused) <==>
      exists i :: 0 < i < |files| && last < files[i - 1].min && files[i - 1].max + 1 < files[i].min
  {
    var k := SeekIsSuffix(levels[dst - 1], last + 1);
    GapInTailIff(levels[dst - 1], last, k);
  }

  lemma GapInTailIff(files: seq<LtxFile>, last: nat, k: nat)
    requires Tidy(files) && k <= |files| && forall i :: 0 <= i < |files| ==> (files[i].min < last + 1 <==> i < k)
    ensures Contiguous(files[k..]) <==>
      !exists i :: 0 < i < |files| && last < files[i - 1].min && files[i - 1].max + 1 < files[i].min
  {
    var source := files[k..];
    forall i, j | 0 <= i < |source| && j == i + 1 && j < |source| ensures source[i].max < source[j].max {
      assert files[k + i].max < files[k + j].min && files[k + j] in files;
    }
    forall i | 0 < i < |files| && last < files[i - 1].min && files[i - 1].max + 1 < files[i].min
      ensures !Contiguous(source)
    {
      assert source[i - k].min == files[i].min && source[i - 1 - k] == files[i - 1];
    }
    if !exists i :: 0 < i < |files| && last < files[i - 1].min && files[i - 1].max + 1 < files[i].min {
      forall i, j | 0 <= i < |source| && 0 <= j < |source| && j == i + 1
        ensures source[j].min <= source[i].max + 1 && source[i].max < source[j].max
      {
        assert source[j] == files[k + j] && source[i] == files[k + j - 1];
      }
    }
  }
}
