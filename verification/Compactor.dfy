/** The compactor and the retention rules as they run, scan by scan, proved against the operations of ReplicaStore. */
module Compactor {
  import opened Wrappers
  import opened Ltx
  import opened Replay
  import opened ReplicaStore
  import opened Retention

  function IdOf(info: Option<LtxFile>): nat {
    if info.Some? then info.value.max else 0
  }

  class Compactor {
    const caching: bool
    const retentionEnabled: bool
    var levels: seq<seq<LtxFile>>
    var cache: map<nat, LtxFile>

    /** Ten levels, each listed in name order. */
    ghost predicate Valid()
      reads this
    {
      |levels| == 10 && forall l :: 0 <= l < 10 ==> Listed(levels[l])
    }

    ghost function State(): Store
      reads this
    {
      Store(levels, caching, cache)
    }

    constructor (caching: bool, retentionEnabled: bool)
      ensures Valid() && State() == Store(seq(10, l => []), caching, map[])
      ensures this.retentionEnabled == retentionEnabled
    {
      this.caching, this.retentionEnabled := caching, retentionEnabled;
      levels, cache := seq(10, l => []), map[];
    }

    /** The newest file of a level, remembered or found by a scan. */
    method MaxLtxFileInfo(level: nat) returns (info: Option<LtxFile>)
      requires Valid() && level < 10
      modifies this`cache
      ensures IdOf(info) == KnownMax(old(State()), level)
      ensures State() == Remember(old(State()), level)
    {
      if caching && level in cache {
        return Some(cache[level]);
      }
      var files := levels[level];
      info := None;
      for i := 0 to |files|
        invariant IdOf(info) == MaxId(files[..i])
        invariant info.Some? ==> 0 < info.value.max && i > 0 && info.value == Newest(files[..i])
      {
        assert files[..i + 1][..i] == files[..i];
        if files[i].max > IdOf(info) {
          info := Some(files[i]);
        }
      }
      assert files[..|files|] == files;
      if caching && info.Some? {
        cache := cache[level := info.value];
      }
    }

    /** Merges what the level below has beyond the end of `dst` into one file there. */
    method Compact(dst: nat, now: int) returns (r: Result<LtxFile, CompactError>)
      requires Valid() && 1 <= dst < SNAPSHOT_LEVEL
      modifies this
      ensures Valid()
      ensures r == Compacted(old(levels), dst, KnownMax(old(State()), dst), now)
      ensures State() == CompactStep(old(State()), dst, now)
    {
      var info := MaxLtxFileInfo(dst);
      var source := Seek(levels[dst - 1], IdOf(info) + 1);
      SeekKeepsOrder(levels[dst - 1], IdOf(info) + 1);
      r := MergeSource(source, dst, now);
      if r.Ok? {
        WriteLtxFile(dst, r.value);
      }
    }

    /** Stores a file at a level above 0 and remembers it as the newest there. */
    method WriteLtxFile(level: nat, file: LtxFile)
      requires Valid() && 1 <= level < SNAPSHOT_LEVEL
      modifies this
      ensures Valid() && State() == PutFile(old(State()), level, file)
    {
      PutKeeps(levels[level], file);
      levels := levels[level := Put(levels[level], file)];
      if caching {
        cache := cache[level := file];
      }
    }

    /** True when every file of a level starts right after the one before it. */
    method VerifyLevelConsistency(level: nat) returns (ok: bool)
      requires Valid() && level < 10
      ensures ok <==> Consecutive(levels[level])
    {
      var files := levels[level];
      for i := 0 to |files|
        invariant forall j :: 0 < j < i ==> Adjoins(files, j)
      {
        if i > 0 && files[i].min != files[i - 1].max + 1 {
          assert !Adjoins(files, i);
          return false;
        }
      }
      return true;
    }

    method DeleteLtxFiles(level: nat, deleted: seq<LtxFile>)
      requires Valid() && level < 10
      modifies this`levels
      ensures Valid() && State() == if retentionEnabled then Delete(old(State()), level, deleted) else old(State())
    {
      if retentionEnabled {
        FilterKeeps(levels[level], (f: LtxFile) => f !in deleted);
        levels := levels[level := Without(levels[level], deleted)];
      }
    }

    /** The compactor's snapshot retention; the id it returns is the least end of the snapshots young enough. */
    method EnforceSnapshotRetention(time: int) returns (minSnapshotTxid: nat)
      requires Valid()
      modifies this`levels
      ensures Valid() && minSnapshotTxid == LeastRecentId(old(levels)[9], time)
      ensures State() == if retentionEnabled then Step(old(State()), SnapshotRetention(time)) else old(State())
      ensures retentionEnabled ==> forall i :: 0 <= i < |old(levels)[9]| ==>
        (old(levels)[9][i] in levels[9] <==> time <= old(levels)[9][i].createdAt || i == |old(levels)[9]| - 1)
    {
      var files := levels[SNAPSHOT_LEVEL];
      var deleted: seq<LtxFile> := [];
      minSnapshotTxid := 0;
      for i := 0 to |files|
        invariant deleted == Filter(files[..i], (f: LtxFile) => f.createdAt < time)
        invariant minSnapshotTxid == LeastRecentId(files[..i], time)
      {
        assert files[..i + 1][..i] == files[..i];
        if files[i].createdAt < time {
          deleted := deleted + [files[i]];
          continue;
        }
        if minSnapshotTxid == 0 || files[i].max < minSnapshotTxid {
          minSnapshotTxid := files[i].max;
        }
      }
      assert files[..|files|] == files;
      DeleteLtxFiles(SNAPSHOT_LEVEL, SpareNewest(deleted, files));
      SnapshotsStayIff(files, time);
    }

    /** The database's snapshot retention; the id it returns is the end of the snapshot before the oldest one kept. */
    method EnforceDbSnapshotRetention(time: int) returns (minSnapshotTxid: nat)
      requires Valid()
      modifies this`levels
      ensures Valid() && minSnapshotTxid == PriorSnapshotId(old(levels)[9], OldSnapshots(old(levels)[9], time))
      ensures State() == if retentionEnabled then Step(old(State()), SnapshotRetention(time)) else old(State())
      ensures retentionEnabled ==> forall i :: 0 <= i < |old(levels)[9]| ==>
        (old(levels)[9][i] in levels[9] <==> time <= old(levels)[9][i].createdAt || i == |old(levels)[9]| - 1)
      ensures forall k: nat :: FirstToStay(old(levels)[9], time, k) ==>
        minSnapshotTxid == if k == 0 then 0 else old(levels)[9][k - 1].max
    {
      var files := levels[SNAPSHOT_LEVEL];
      var deleted: seq<LtxFile> := [];
      for i := 0 to |files|
        invariant deleted == Filter(files[..i], (f: LtxFile) => f.createdAt < time)
      {
        assert files[..i + 1][..i] == files[..i];
        if files[i].createdAt < time {
          deleted := deleted + [files[i]];
        }
      }
      assert files[..|files|] == files;
      deleted := SpareNewest(deleted, files);
      minSnapshotTxid := 0;
      var i := 0;
      while i < |files|
        invariant 0 <= i <= |files| && minSnapshotTxid == 0
        invariant forall j :: 0 <= j < i ==> files[j] in deleted
      {
        if files[i] !in deleted {
          if i > 0 {
            minSnapshotTxid := files[i - 1].max;
          }
          break;
        }
        i := i + 1;
      }
      FirstKept(files, deleted, i);
      DeleteLtxFiles(SNAPSHOT_LEVEL, deleted);
      SnapshotsStayIff(files, time);
      forall k: nat | FirstToStay(files, time, k)
        ensures minSnapshotTxid == if k == 0 then 0 else files[k - 1].max
      {
        PriorIs(files, time, k);
      }
    }

    /** Deletes the files of a level that end before an id, but never the newest. */
    method EnforceRetentionByTxid(level: nat, id: nat)
      requires Valid() && level < 10
      modifies this`levels
      ensures Valid()
      ensures State() ==
        if retentionEnabled then Delete(old(State()), level, BelowId(old(levels)[level], id)) else old(State())
      ensures retentionEnabled ==> forall i :: 0 <= i < |old(levels)[level]| ==>
        (old(levels)[level][i] in levels[level] <==> id <= old(levels)[level][i].max || i == |old(levels)[level]| - 1)
    {
      var files := levels[level];
      var deleted: seq<LtxFile> := [];
      for i := 0 to |files|
        invariant deleted == Filter(files[..i], (f: LtxFile) => f.max < id)
      {
        assert files[..i + 1][..i] == files[..i];
        if files[i].max < id {
          deleted := deleted + [files[i]];
        }
      }
      assert files[..|files|] == files;
      DeleteLtxFiles(level, SpareNewest(deleted, files));
      FilesStayByIdIff(files, id);
    }

    /** Deletes old level 0 files that level 1 has, stopping at the first that is too young. */
    method EnforceL0Retention(retention: int, threshold: int)
      requires Valid()
      modifies this`levels
      ensures Valid()
      ensures State() ==
        if 0 < retention && retentionEnabled then Step(old(State()), Level0Retention(threshold)) else old(State())
      ensures forall i :: 0 <= i < |old(levels)[0]| ==>
        (old(levels)[0][i] !in levels[0] <==>
         && 0 < retention && retentionEnabled && 0 < MaxId(old(levels)[1])
         && GoesFromLevel0(old(levels)[0], MaxId(old(levels)[1]), threshold, i))
    {
      if retention <= 0 {
        return;
      }
      var _, maxL1 := RangeOf(levels[1]);
      if maxL1 == 0 {
        return;
      }
      var files := levels[0];
      var deleted: seq<LtxFile> := [];
      var i := 0;
      while i < |files|
        invariant 0 <= i <= |files| && ScanEnd(files[..i], threshold) == i
        invariant deleted == Filter(files[..i], (f: LtxFile) => f.max <= maxL1)
      {
        assert files[..i + 1][..i] == files[..i];
        var createdAt := if files[i].createdAt == 0 then threshold else files[i].createdAt;
        if createdAt > threshold {
          break;
        }
        if files[i].max <= maxL1 {
          deleted := deleted + [files[i]];
        }
        i := i + 1;
      }
      ScanEndStays(files, i, threshold, |files|);
      assert files[..|files|] == files;
      if i == |files| {
        deleted := SpareNewest(deleted, files);
      }
      DeleteLtxFiles(0, deleted);
      Level0FilesStayIff(files, maxL1, threshold);
    }

    /** The store's snapshot retention: old snapshots go, then the files of levels 1 to 8 below the id returned. */
    method EnforceStoreRetention(time: int)
      requires Valid()
      modifies this`levels
      ensures Valid()
      ensures State() ==
        if retentionEnabled
        then Step(old(State()),
                  CascadedRetention(time, PriorSnapshotId(old(levels)[9], OldSnapshots(old(levels)[9], time))))
        else old(State())
    {
      var id := EnforceDbSnapshotRetention(time);
      EnforceLevelsByTxid(id);
    }

    /** Retention by id at every level above 0. */
    method EnforceLevelsByTxid(id: nat)
      requires Valid()
      modifies this`levels
      ensures Valid() && State() == if retentionEnabled then RetainById(old(State()), id) else old(State())
    {
      ghost var start := State();
      for level := 1 to SNAPSHOT_LEVEL
        invariant Valid() && cache == start.cache
        invariant RetainedTo(start.levels, levels, if retentionEnabled then level else 1, id)
      {
        ghost var before := levels;
        EnforceRetentionByTxid(level, id);
        if retentionEnabled {
          RetainedOneMore(start.levels, before, levels, level, id);
        }
      }
      RetainedAll(start, levels, id);
    }
  }

  /** The levels from 1 to below `n` have lost what retention by id takes from them; the others are as before. */
  ghost predicate RetainedTo(start: seq<seq<LtxFile>>, levels: seq<seq<LtxFile>>, n: nat, id: nat) {
    && |levels| == |start|
    && forall l :: 0 <= l < |start| ==>
         levels[l] == if 1 <= l < n then Without(start[l], BelowId(start[l], id)) else start[l]
  }

  lemma RetainedOneMore(
    start: seq<seq<LtxFile>>, before: seq<seq<LtxFile>>, levels: seq<seq<LtxFile>>, n: nat, id: nat)
    requires RetainedTo(start, before, n, id) && 1 <= n < |start|
    ensures levels == before[n := Without(before[n], BelowId(before[n], id))] ==> RetainedTo(start, levels, n + 1, id)
  {
  }

  lemma RetainedAll(start: Store, levels: seq<seq<LtxFile>>, id: nat)
    requires |start.levels| == 10
    ensures RetainedTo(start.levels, levels, SNAPSHOT_LEVEL, id) ==> levels == RetainById(start, id).levels
    ensures RetainedTo(start.levels, levels, 1, id) ==> levels == start.levels
  {
  }

  /** Merges what was read into one file of its range, if there is anything and it has no gap. */
  method MergeSource(source: seq<LtxFile>, dst: nat, now: int) returns (r: Result<LtxFile, CompactError>)
    requires Listed(source) && forall f :: f in source ==> 0 < f.min
    ensures r == if source == [] then Err(NoCompaction)
                 else if !Contiguous(source) then Err(MergeRefused) else Ok(Merge(source, dst, now))
  {
    var minTxid, maxTxid := RangeOf(source);
    if source == [] {
      return Err(NoCompaction);
    }
    if !Contiguous(source) {
      return Err(MergeRefused);
    }
    RangeOfContiguous(source, minTxid, maxTxid);
    return Ok(Merge(source, dst, now).(min := minTxid, max := maxTxid));
  }

  /** The least first id and the largest last id of some files, zero when there is none. */
  method RangeOf(files: seq<LtxFile>) returns (minTxid: nat, maxTxid: nat)
    ensures maxTxid == MaxId(files)
    ensures (forall f :: f in files ==> 0 < f.min) ==>
      && (forall i :: 0 <= i < |files| ==> minTxid <= files[i].min)
      && (files != [] ==> exists f :: f in files && f.min == minTxid)
  {
    minTxid, maxTxid := 0, 0;
    for i := 0 to |files|
      invariant maxTxid == MaxId(files[..i])
      invariant (forall f :: f in files ==> 0 < f.min) ==>
        && (forall j :: 0 <= j < i ==> minTxid <= files[j].min)
        && (if i == 0 then minTxid == 0 else exists j :: 0 <= j < i && files[j].min == minTxid)
    {
      assert files[..i + 1][..i] == files[..i];
      assert files[i] in files;
      if minTxid == 0 || files[i].min < minTxid {
        minTxid := files[i].min;
      }
      if maxTxid == 0 || files[i].max > maxTxid {
        maxTxid := files[i].max;
      }
    }
    assert files[..|files|] == files;
  }

  /** For contiguous files in name order the range runs from the first to the last of them. */
  lemma RangeOfContiguous(files: seq<LtxFile>, minTxid: nat, maxTxid: nat)
    requires files != [] && Listed(files) && Contiguous(files) && maxTxid == MaxId(files)
    requires (forall i :: 0 <= i < |files| ==> minTxid <= files[i].min) && exists f :: f in files && f.min == minTxid
    ensures minTxid == files[0].min && maxTxid == files[|files| - 1].max
  {
    var f :| f in files && f.min == minTxid;
    var i :| 0 <= i < |files| && files[i] == f;
    assert i > 0 ==> NameLess(files[0], files[i]);
    ContiguousMax(files);
  }

  lemma {:induction false} ContiguousMax(files: seq<LtxFile>)
    requires files != [] && Contiguous(files)
    ensures MaxId(files) == files[|files| - 1].max
  {
    var n := |files| - 1;
    if n > 0 {
      ContiguousMax(files[..n]);
      assert files[n - 1].max < files[n].max;
    }
  }

  lemma {:induction false} ScanEndStays(files: seq<LtxFile>, i: nat, threshold: int, n: nat)
    requires i <= n <= |files| && ScanEnd(files[..i], threshold) == i
    requires i < |files| ==> files[i].createdAt != 0 && threshold < files[i].createdAt
    ensures ScanEnd(files[..n], threshold) == i
  {
    if i < n {
      ScanEndStays(files, i, threshold, n - 1);
      assert files[..n][..n - 1] == files[..n - 1];
    }
  }

  lemma SnapshotsStayIff(snapshots: seq<LtxFile>, time: int)
    requires Listed(snapshots)
    ensures
      var kept := Without(snapshots, OldSnapshots(snapshots, time));
      forall i :: 0 <= i < |snapshots| ==>
        (snapshots[i] in kept <==> time <= snapshots[i].createdAt || i == |snapshots| - 1)
  {
    forall i | 0 <= i < |snapshots|
      ensures snapshots[i] in Without(snapshots, OldSnapshots(snapshots, time)) <==>
        time <= snapshots[i].createdAt || i == |snapshots| - 1
    {
      SnapshotStaysIff(snapshots, time, i);
    }
  }

  lemma FilesStayByIdIff(files: seq<LtxFile>, id: nat)
    requires Listed(files)
    ensures
      var kept := Without(files, BelowId(files, id));
      forall i :: 0 <= i < |files| ==> (files[i] in kept <==> id <= files[i].max || i == |files| - 1)
  {
    forall i | 0 <= i < |files|
      ensures files[i] in Without(files, BelowId(files, id)) <==> id <= files[i].max || i == |files| - 1
    {
      StaysByIdIff(files, id, i);
    }
  }

  lemma Level0FilesStayIff(files: seq<LtxFile>, maxL1: nat, threshold: int)
    requires Listed(files)
    ensures
      var kept := Without(files, ExpiredLevel0(files, maxL1, threshold));
      forall i :: 0 <= i < |files| ==> (files[i] !in kept <==> GoesFromLevel0(files, maxL1, threshold, i))
  {
    forall i | 0 <= i < |files|
      ensures
        var kept := Without(files, ExpiredLevel0(files, maxL1, threshold));
        files[i] !in kept <==> GoesFromLevel0(files, maxL1, threshold, i)
    {
      Level0StaysIff(files, maxL1, threshold, i);
    }
  }
}
