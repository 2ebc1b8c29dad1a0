/**
  The files of a replica and what uploads, snapshots, compaction and retention do to them.
  Whatever the order of these operations, the latest state stays restorable.
 */
module ReplicaStore {
  import opened Wrappers
  import opened Ltx
  import opened RestorePlan
  import opened Replay

  datatype CompactError = NoCompaction | MergeRefused

  /** Levels 0 to 9, and the newest file remembered for some of them when caching is on. */
  datatype Store = Store(levels: seq<seq<LtxFile>>, caching: bool, cache: map<nat, LtxFile>)

  // ---------------------------------------------------------------------------------------------
  // Listings.

  /** The largest last id of a listing, 0 when it is empty. */
  function MaxId(files: seq<LtxFile>): nat {
    if files == [] then 0 else Max(MaxId(files[..|files| - 1]), files[|files| - 1].max)
  }

  lemma {:induction false} MaxIdBounds(files: seq<LtxFile>)
    ensures forall f :: f in files ==> f.max <= MaxId(files)
    ensures files != [] ==> exists f :: f in files && f.max == MaxId(files)
  {
    if files != [] {
      var n := |files| - 1;
      MaxIdBounds(files[..n]);
      assert files == files[..n] + [files[n]];
      assert files[n] in files;
    }
  }

  /** Writing a file puts it at its place in name order and replaces one of the same name. */
  function Put(files: seq<LtxFile>, f: LtxFile): (r: seq<LtxFile>)
    ensures r != []
  {
    if files == [] then [f]
    else
      var n := |files| - 1;
      if NameLess(files[n], f) then files + [f]
      else if NameLess(f, files[n]) then Put(files[..n], f) + [files[n]]
      else files[..n] + [f]
  }

  /** A listing after deleting some files. */
  function Without(files: seq<LtxFile>, deleted: seq<LtxFile>): seq<LtxFile> {
    Filter(files, f => f !in deleted)
  }

  /** The newest file of a listing is spared if it is the last one marked. */
  function SpareNewest(deleted: seq<LtxFile>, files: seq<LtxFile>): seq<LtxFile> {
    if deleted != [] && files != [] && deleted[|deleted| - 1] == files[|files| - 1]
    then deleted[..|deleted| - 1]
    else deleted
  }

  /** Deleting the first k files of a listing leaves the rest. */
  lemma WithoutPrefix(files: seq<LtxFile>, k: nat)
    requires Listed(files) && k <= |files|
    ensures Without(files, files[..k]) == files[k..]
  {
    var keep := (f: LtxFile) => f !in files[..k];
    forall i | 0 <= i < |files| ensures keep(files[i]) <==> k <= i {
      if i < k {
        assert files[..k][i] == files[i];
      } else {
        assert forall j :: 0 <= j < k ==> NameLess(files[..k][j], files[i]);
      }
    }
    FilterSuffix(files, keep, k, |files|);
    assert files[..|files|] == files;
  }

  lemma {:induction false} PutKeeps(files: seq<LtxFile>, f: LtxFile)
    requires Listed(files)
    ensures Listed(Put(files, f)) && Put(files, f) != []
    ensures f in Put(files, f)
    ensures forall g :: g in Put(files, f) ==> g in files || g == f
    ensures forall g :: g in files && (NameLess(f, g) || NameLess(g, f)) ==> g in Put(files, f)
  {
    if files != [] {
      var n := |files| - 1;
      assert files == files[..n] + [files[n]];
      PutKeeps(files[..n], f);
      forall g | g in Put(files[..n], f) && NameLess(f, files[n]) ensures NameLess(g, files[n]) {
        assert g in files[..n] || g == f;
      }
    }
  }

  /** The newest id after a write. */
  lemma PutMaxId(files: seq<LtxFile>, f: LtxFile)
    requires Listed(files)
    ensures MaxId(Put(files, f)) == Max(MaxId(files), f.max)
  {
    PutKeeps(files, f);
    MaxIdBounds(files);
    MaxIdBounds(Put(files, f));
    if files != [] && f.max < MaxId(files) {
      var g :| g in files && g.max == MaxId(files);
      assert NameLess(f, g) || NameLess(g, f);
    }
  }

  // ---------------------------------------------------------------------------------------------
  // Operations on levels.

  /** The outcome of merging what the level below has beyond `prevMax`. */
  function Compacted(levels: seq<seq<LtxFile>>, dst: nat, prevMax: nat, now: int): Result<LtxFile, CompactError>
    requires 1 <= dst < |levels|
  {
    var source := Seek(levels[dst - 1], prevMax + 1);
    if source == [] then Err(NoCompaction)
    else if !Contiguous(source) then Err(MergeRefused)
    else Ok(Merge(source, dst, now))
  }

  /** Retention by id: files that end before `id` go, but never the newest. */
  function BelowId(files: seq<LtxFile>, id: nat): seq<LtxFile> {
    SpareNewest(Filter(files, (f: LtxFile) => f.max < id), files)
  }

  /** Snapshot retention: snapshots made before `time` go, but never the newest. */
  function OldSnapshots(snapshots: seq<LtxFile>, time: int): seq<LtxFile> {
    SpareNewest(Filter(snapshots, (f: LtxFile) => f.createdAt < time), snapshots)
  }

  /** Where the level 0 scan stops: at the first file made after `threshold` (an unknown time counts as `threshold`). */
  function ScanEnd(files: seq<LtxFile>, threshold: int): (n: nat)
    ensures n <= |files|
  {
    if files == [] then 0
    else
      var n := ScanEnd(files[..|files| - 1], threshold);
      if n < |files| - 1 then n
      else if files[n].createdAt != 0 && threshold < files[n].createdAt then n else n + 1
  }

  /** Level 0 retention: old files that are already in level 1 go, but never the newest. */
  function ExpiredLevel0(files: seq<LtxFile>, maxL1: nat, threshold: int): seq<LtxFile> {
    var n := ScanEnd(files, threshold);
    var deleted := Filter(files[..n], (f: LtxFile) => f.max <= maxL1);
    if n == |files| then SpareNewest(deleted, files) else deleted
  }

  /** The id that snapshot retention hands down: the end of the snapshot just before the oldest one kept. */
  function PriorSnapshotId(snapshots: seq<LtxFile>, deleted: seq<LtxFile>): (id: nat)
    ensures id <= MaxId(snapshots)
  {
    if snapshots == [] then 0
    else
      var n := |snapshots| - 1;
      MaxIdBounds(snapshots);
      var rest := PriorSnapshotId(snapshots[..n], deleted);
      if exists i :: 0 <= i < n && snapshots[i] !in deleted then rest
      else if snapshots[n] !in deleted && 0 < n then snapshots[n - 1].max else 0
  }

  /** The id the compactor hands down: the least end of the snapshots made at `time` or later, 0 when there is none. */
  function LeastRecentId(snapshots: seq<LtxFile>, time: int): (id: nat)
    ensures id <= MaxId(snapshots)
  {
    if snapshots == [] then 0
    else
      var n := |snapshots| - 1;
      var rest := LeastRecentId(snapshots[..n], time);
      if snapshots[n].createdAt < time then rest
      else if rest == 0 || snapshots[n].max < rest then snapshots[n].max else rest
  }

  // ---------------------------------------------------------------------------------------------
  // Runs.

  datatype Op =
    | Upload(file: LtxFile)
    | WriteSnapshot(file: LtxFile)
    | Compact(dst: nat, now: int)
    | Level0Retention(threshold: int)
    | SnapshotRetention(time: int)
    | CascadedRetention(time: int, id: nat)

  /** The first file that attains the largest last id. */
  function Newest(files: seq<LtxFile>): (f: LtxFile)
    requires files != []
    ensures f in files && f.max == MaxId(files)
  {
    var n := |files| - 1;
    assert files == files[..n] + [files[n]];
    if n == 0 || MaxId(files[..n]) < files[n].max then files[n] else Newest(files[..n])
  }

  /** The largest last id of a level as the compactor sees it: remembered, or found by a scan. */
  function KnownMax(s: Store, level: nat): nat
    requires level < |s.levels|
  {
    if s.caching && level in s.cache then s.cache[level].max else MaxId(s.levels[level])
  }

  /** A scan is remembered when caching is on and it found something. */
  function Remember(s: Store, level: nat): Store
    requires level < |s.levels|
  {
    if s.caching && level !in s.cache && 0 < MaxId(s.levels[level])
    then s.(cache := s.cache[level := Newest(s.levels[level])])
    else s
  }

  function PutFile(s: Store, level: nat, f: LtxFile): Store
    requires level < |s.levels|
  {
    s.(levels := s.levels[level := Put(s.levels[level], f)],
       cache := if s.caching && level != 0 then s.cache[level := f] else s.cache)
  }

  function Delete(s: Store, level: nat, deleted: seq<LtxFile>): Store
    requires level < |s.levels|
  {
    s.(levels := s.levels[level := Without(s.levels[level], deleted)])
  }

  /** Retention by id at levels 1 to 8. */
  function RetainById(s: Store, id: nat): Store {
    s.(levels := seq(|s.levels|, l requires 0 <= l < |s.levels| =>
         if 1 <= l < SNAPSHOT_LEVEL then Without(s.levels[l], BelowId(s.levels[l], id)) else s.levels[l]))
  }

  function CompactStep(s: Store, dst: nat, now: int): Store
    requires 1 <= dst < |s.levels|
  {
    match Compacted(s.levels, dst, KnownMax(s, dst), now)
    case Ok(f) => PutFile(Remember(s, dst), dst, f)
    case Err(_) => Remember(s, dst)
  }

  function Step(s: Store, op: Op): Store
    requires |s.levels| == 10 && (op.Compact? ==> 1 <= op.dst < SNAPSHOT_LEVEL)
  {
    match op
    case Upload(f) => PutFile(s, 0, f)
    case WriteSnapshot(f) => PutFile(s, SNAPSHOT_LEVEL, f)
    case Compact(dst, now) => CompactStep(s, dst, now)
    case Level0Retention(threshold) =>
      if MaxId(s.levels[1]) == 0 then s
      else Delete(s, 0, ExpiredLevel0(s.levels[0], MaxId(s.levels[1]), threshold))
    case SnapshotRetention(time) =>
      Delete(s, SNAPSHOT_LEVEL, OldSnapshots(s.levels[SNAPSHOT_LEVEL], time))
    case CascadedRetention(time, id) =>
      RetainById(Delete(s, SNAPSHOT_LEVEL, OldSnapshots(s.levels[SNAPSHOT_LEVEL], time)), id)
  }

  /**
    When an operation can happen: uploads continue level 0, snapshots start at 1 and do not go back, files are
    faithful to the history, and the id of a cascade is the one either snapshot retention returns.
   */
  ghost predicate Enabled(h: seq<Db>, s: Store, op: Op)
    requires |s.levels| == 10
  {
    var snapshots := s.levels[SNAPSHOT_LEVEL];
    match op
    case Upload(f) => Faithful(h, f) && f.min == f.max == MaxId(s.levels[0]) + 1
    case WriteSnapshot(f) => Faithful(h, f) && f.min == 1 && MaxId(snapshots) <= f.max
    case Compact(dst, _) => 1 <= dst < SNAPSHOT_LEVEL
    case Level0Retention(_) => true
    case SnapshotRetention(_) => true
    case CascadedRetention(time, id) =>
      id == PriorSnapshotId(snapshots, OldSnapshots(snapshots, time)) || id == LeastRecentId(snapshots, time)
  }

  /** A run: the stores from the empty one on, each the result of an enabled operation on the one before. */
  ghost predicate IsRun(h: seq<Db>, run: seq<Store>, ops: seq<Op>) {
    && |run| == |ops| + 1 && run[0] == Store(seq(10, l => []), run[0].caching, map[])
    && forall i :: 0 <= i < |ops| ==> Runs(h, run[i], ops[i], run[i + 1])
  }

  ghost predicate Runs(h: seq<Db>, s: Store, op: Op, t: Store) {
    |s.levels| == 10 && Enabled(h, s, op) && t == Step(s, op)
  }

  // ---------------------------------------------------------------------------------------------
  // The invariant.

  /** Each file starts right after the one before: what the level consistency check demands. */
  predicate Consecutive(files: seq<LtxFile>) {
    forall i :: 0 < i < |files| ==> Adjoins(files, i)
  }

  predicate Adjoins(files: seq<LtxFile>, i: nat)
    requires 0 < i < |files|
  {
    files[i].min == files[i - 1].max + 1
  }

  /** Ranges do not overlap and go up. */
  predicate Ascending(files: seq<LtxFile>) {
    forall i, j :: 0 <= i < j < |files| ==> files[i].max < files[j].min
  }

  /** A listing of files whose ranges are not empty. */
  ghost predicate Ranged(files: seq<LtxFile>) {
    Listed(files) && forall f :: f in files ==> f.min <= f.max
  }

  /** A level of increments: a listing of ranges that go up. */
  ghost predicate Tidy(files: seq<LtxFile>) {
    Ranged(files) && Ascending(files)
  }

  /** Level 0 goes on from level 1 without a gap, and level 1 from the newest snapshot. */
  ghost predicate Linked(levels: seq<seq<LtxFile>>)
    requires |levels| == 10
  {
    && Consecutive(levels[0]) && Consecutive(levels[1])
    && (levels[0] != [] ==> levels[0][0].min <= MaxId(levels[1]) + 1)
    && (levels[1] != [] ==> levels[1][0].min <= MaxId(levels[9]) + 1)
    && (forall i :: 0 <= i < |levels[0]| ==> levels[0][i].min == levels[0][i].max)
  }

  ghost predicate Shaped(levels: seq<seq<LtxFile>>) {
    && |levels| == 10
    && Ranged(levels[9]) && FullSnapshots(levels[9])
    && (forall l :: 0 <= l < 9 ==> InOrder(levels, l))
    && Linked(levels)
  }

  /** The ranges of a level go up and end within level 0. */
  ghost predicate InOrder(levels: seq<seq<LtxFile>>, l: nat)
    requires l < |levels|
  {
    Tidy(levels[l]) && MaxId(levels[l]) <= MaxId(levels[0])
  }

  /** Every file is faithful to the history. */
  ghost predicate Truthful(h: seq<Db>, levels: seq<seq<LtxFile>>) {
    forall l, f :: 0 <= l < |levels| && f in levels[l] ==> Faithful(h, f)
  }

  ghost predicate Good(h: seq<Db>, s: Store) {
    History(h) && Shaped(s.levels) && Truthful(h, s.levels) && CacheRight(s)
  }

  /** The remembered newest file of a level has the id a full scan would find. */
  ghost predicate CacheRight(s: Store)
    requires |s.levels| == 10
  {
    && (forall l :: l in s.cache ==> 1 <= l <= 9 && s.levels[l] != [] && s.cache[l].max == MaxId(s.levels[l]))
    && (s.cache != map[] ==> s.caching)
  }

  lemma {:induction false} MaxIdIsLast(files: seq<LtxFile>)
    requires Ranged(files) && Ascending(files) && files != []
    ensures MaxId(files) == files[|files| - 1].max
  {
    var last := files[|files| - 1];
    MaxIdBounds(files);
    assert last in files;
  }

  lemma {:induction false} FilterPrefix(files: seq<LtxFile>, keep: LtxFile -> bool, k: nat)
    requires k <= |files| && forall i :: 0 <= i < |files| ==> (keep(files[i]) <==> i < k)
    ensures Filter(files, keep) == files[..k]
  {
    if files != [] {
      var n := |files| - 1;
      if k == |files| {
        FilterPrefix(files[..n], keep, n);
        assert files[..n][..n] + [files[n]] == files[..k];
      } else {
        FilterPrefix(files[..n], keep, k);
        assert files[..n][..k] == files[..k];
      }
    }
  }

  /** In an ascending level the files that end by a bound come first. */
  lemma {:induction false} SplitAt(files: seq<LtxFile>, bound: int) returns (k: nat)
    requires Ranged(files) && Ascending(files)
    ensures k <= |files| && forall i :: 0 <= i < |files| ==> (files[i].max <= bound <==> i < k)
  {
    k := 0;
    while k < |files| && files[k].max <= bound
      invariant k <= |files| && forall i :: 0 <= i < k ==> files[i].max <= bound
    {
      k := k + 1;
    }
    forall i | k < i < |files| ensures bound < files[i].max {
      assert files[i] in files && files[k].max < files[i].min;
    }
  }

  lemma SpareFront(files: seq<LtxFile>, k: nat) returns (n: nat)
    requires Listed(files) && k <= |files|
    ensures n <= k && (files != [] ==> n < |files|)
    ensures SpareNewest(files[..k], files) == files[..n]
  {
    n := k;
    if k > 0 {
      if k == |files| {
        n := k - 1;
      } else {
        assert NameLess(files[k - 1], files[|files| - 1]);
      }
    }
  }

  /** Retention by id removes a run of files from the front, each ending before the id, and never the newest. */
  lemma BelowIdIsFront(files: seq<LtxFile>, id: nat) returns (k: nat)
    requires Ranged(files) && Ascending(files)
    ensures k <= |files| && (files != [] ==> k < |files|)
    ensures Without(files, BelowId(files, id)) == files[k..] && forall i :: 0 <= i < k ==> files[i].max < id
  {
    k := SplitAt(files, id - 1);
    FilterPrefix(files, (f: LtxFile) => f.max < id, k);
    k := SpareFront(files, k);
    WithoutPrefix(files, k);
  }

  /** Level 0 retention removes a run of files from the front, each already in level 1, and never the newest. */
  lemma ExpiredIsFront(files: seq<LtxFile>, maxL1: nat, threshold: int) returns (k: nat)
    requires Ranged(files) && Ascending(files)
    ensures k <= |files| && (files != [] ==> k < |files|)
    ensures Without(files, ExpiredLevel0(files, maxL1, threshold)) == files[k..]
    ensures forall i :: 0 <= i < k ==> files[i].max <= maxL1
  {
    var n := ScanEnd(files, threshold);
    k := SplitAt(files, maxL1);
    if n < k {
      k := n;
    }
    FilterPrefix(files[..n], (f: LtxFile) => f.max <= maxL1, k);
    assert files[..n][..k] == files[..k];
    if n == |files| {
      k := SpareFront(files, k);
    }
    WithoutPrefix(files, k);
  }

  lemma FrontRemovedOrder(files: seq<LtxFile>, k: nat)
    requires Ranged(files) && k <= |files|
    ensures Ranged(files[k..])
    ensures Ascending(files) ==> Ascending(files[k..])
    ensures Consecutive(files) ==> Consecutive(files[k..])
  {
    var rest := files[k..];
    assert forall i :: 0 <= i < |rest| ==> rest[i] == files[k + i] && rest[i] in files;
    forall i, j | 0 <= i < j < |rest| ensures NameLess(rest[i], rest[j]) {
      assert NameLess(files[k + i], files[k + j]);
    }
    forall i | 0 < i < |rest| && Consecutive(files) ensures Adjoins(rest, i) {
      assert Adjoins(files, k + i);
    }
  }

  lemma ConsecutiveIsContiguous(files: seq<LtxFile>, k: nat)
    requires Ranged(files) && Consecutive(files) && k <= |files|
    ensures Contiguous(files[k..])
  {
    var tail := files[k..];
    forall i, j | 0 <= i < |tail| && 0 <= j < |tail| && j == i + 1
      ensures tail[j].min <= tail[i].max + 1 && tail[i].max < tail[j].max
    {
      assert Adjoins(files, k + j) && files[k + j] in files;
    }
  }

  /** The newest id of a level stays when files are removed from the front, one at least being left. */
  lemma FrontRemovedMaxId(files: seq<LtxFile>, k: nat)
    requires Ranged(files) && Ascending(files) && k <= |files| && (files != [] ==> k < |files|)
    ensures MaxId(files[k..]) == MaxId(files)
  {
    if files != [] {
      FrontRemovedOrder(files, k);
      MaxIdIsLast(files);
      MaxIdIsLast(files[k..]);
    }
  }

  // ---------------------------------------------------------------------------------------------
  // Every operation keeps the invariant.

  lemma AppendTidy(files: seq<LtxFile>, f: LtxFile)
    requires Tidy(files) && MaxId(files) < f.min <= f.max
    ensures Tidy(files + [f]) && MaxId(files + [f]) == f.max
  {
    var longer := files + [f];
    assert longer[..|files|] == files;
    MaxIdBounds(files);
    forall i, j | 0 <= i < j < |longer| ensures NameLess(longer[i], longer[j]) && longer[i].max < longer[j].min {
      assert longer[i] == files[i] && files[i] in files;
      assert j < |files| ==> longer[j] == files[j];
    }
  }

  lemma AppendAdjoining(files: seq<LtxFile>, f: LtxFile)
    requires Consecutive(files) && (files != [] ==> f.min == files[|files| - 1].max + 1)
    ensures Consecutive(files + [f])
  {
    var longer := files + [f];
    forall i | 0 < i < |longer| ensures Adjoins(longer, i) {
      assert i < |files| ==> Adjoins(files, i);
    }
  }

  lemma AppendConsecutive(files: seq<LtxFile>, f: LtxFile)
    requires Tidy(files) && Consecutive(files) && (files != [] ==> f.min == MaxId(files) + 1)
    ensures Consecutive(files + [f])
  {
    if files != [] {
      MaxIdIsLast(files);
    }
    AppendAdjoining(files, f);
  }

  /** Writing a file beyond all others of a level. */
  lemma PutTidy(files: seq<LtxFile>, f: LtxFile)
    requires Tidy(files) && MaxId(files) < f.min <= f.max
    ensures Put(files, f) == files + [f] && Tidy(Put(files, f)) && MaxId(Put(files, f)) == f.max
    ensures Consecutive(files) && (files != [] ==> f.min == MaxId(files) + 1) ==> Consecutive(Put(files, f))
  {
    AppendTidy(files, f);
    if Consecutive(files) && (files != [] ==> f.min == MaxId(files) + 1) {
      AppendConsecutive(files, f);
    }
    if files != [] {
      MaxIdIsLast(files);
    }
  }

  /** Removing files from the front of a level, one at least being left. */
  lemma FrontRemoved(files: seq<LtxFile>, k: nat)
    requires Tidy(files) && k <= |files| && (files != [] ==> k < |files|)
    ensures Tidy(files[k..]) && MaxId(files[k..]) == MaxId(files) && (files[k..] == [] <==> files == [])
    ensures Consecutive(files) ==> Consecutive(files[k..])
    ensures Consecutive(files) && 0 < k ==> files[k..][0].min == files[k - 1].max + 1
  {
    FrontRemovedOrder(files, k);
    FrontRemovedMaxId(files, k);
    assert Consecutive(files) && 0 < k < |files| ==> Adjoins(files, k);
  }

  // Replacing one level by another listing keeps the shape when the links to its neighbours stay.

  lemma ReplaceSnapshots(levels: seq<seq<LtxFile>>, files: seq<LtxFile>)
    requires Shaped(levels) && Ranged(files) && FullSnapshots(files) && MaxId(levels[9]) <= MaxId(files)
    ensures Shaped(levels[9 := files])
  {
    var changed := levels[9 := files];
    forall m | 0 <= m < 9 ensures InOrder(changed, m) {
      assert InOrder(levels, m);
    }
  }

  lemma ReplaceLevel0(levels: seq<seq<LtxFile>>, files: seq<LtxFile>)
    requires Shaped(levels) && Tidy(files) && MaxId(levels[0]) <= MaxId(files)
    requires Consecutive(files) && (files != [] ==> files[0].min <= MaxId(levels[1]) + 1)
    requires forall i :: 0 <= i < |files| ==> files[i].min == files[i].max
    ensures Shaped(levels[0 := files])
  {
    var changed := levels[0 := files];
    forall m | 0 <= m < 9 ensures InOrder(changed, m) {
      assert InOrder(levels, m);
    }
  }

  lemma ReplaceLevel(levels: seq<seq<LtxFile>>, l: nat, files: seq<LtxFile>)
    requires Shaped(levels) && 1 <= l <= 8 && Tidy(files) && MaxId(levels[l]) <= MaxId(files) <= MaxId(levels[0])
    requires l == 1 ==> Consecutive(files) && (files != [] ==> files[0].min <= MaxId(levels[9]) + 1)
    ensures Shaped(levels[l := files])
  {
    var changed := levels[l := files];
    forall m | 0 <= m < 9 ensures InOrder(changed, m) {
      assert InOrder(levels, m);
    }
  }

  lemma UploadShaped(s: Store, f: LtxFile)
    requires Shaped(s.levels) && f.min == f.max == MaxId(s.levels[0]) + 1
    ensures Shaped(PutFile(s, 0, f).levels)
  {
    assert InOrder(s.levels, 0);
    PutTidy(s.levels[0], f);
    SinglesStay(s.levels[0], f, MaxId(s.levels[1]));
    ReplaceLevel0(s.levels, Put(s.levels[0], f));
  }

  lemma SinglesStay(files: seq<LtxFile>, f: LtxFile, maxL1: nat)
    requires f.min == f.max && (files == [] ==> f.min <= maxL1 + 1) && (files != [] ==> files[0].min <= maxL1 + 1)
    requires forall i :: 0 <= i < |files| ==> files[i].min == files[i].max
    ensures (files + [f])[0].min <= maxL1 + 1
    ensures forall i :: 0 <= i < |files + [f]| ==> (files + [f])[i].min == (files + [f])[i].max
  {
  }

  lemma SnapshotShaped(s: Store, f: LtxFile)
    requires Shaped(s.levels) && f.min == 1 <= f.max
    ensures Shaped(PutFile(s, 9, f).levels)
    ensures MaxId(PutFile(s, 9, f).levels[9]) == Max(MaxId(s.levels[9]), f.max)
  {
    PutSnapshot(s.levels[9], f);
    PutMaxId(s.levels[9], f);
    ReplaceSnapshots(s.levels, Put(s.levels[9], f));
  }

  lemma PutSnapshot(snapshots: seq<LtxFile>, f: LtxFile)
    requires Ranged(snapshots) && FullSnapshots(snapshots) && f.min == 1 <= f.max
    ensures Ranged(Put(snapshots, f)) && FullSnapshots(Put(snapshots, f))
  {
    PutKeeps(snapshots, f);
    forall i | 0 <= i < |Put(snapshots, f)| ensures Put(snapshots, f)[i].min == 1 {
      assert Put(snapshots, f)[i] in Put(snapshots, f);
    }
  }

  /** Deleting snapshots spares the newest, so the newest id stays. */
  lemma OldSnapshotsKeepNewest(snapshots: seq<LtxFile>, time: int)
    requires Ranged(snapshots) && FullSnapshots(snapshots)
    ensures
      var kept := Without(snapshots, OldSnapshots(snapshots, time));
      && Ranged(kept) && FullSnapshots(kept) && MaxId(kept) == MaxId(snapshots)
      && (kept == [] ==> snapshots == [])
  {
    var aged := (f: LtxFile) => f.createdAt < time;
    var marked, deleted := Filter(snapshots, aged), OldSnapshots(snapshots, time);
    var kept := Without(snapshots, deleted);
    FilterKeeps(snapshots, aged);
    FilterKeeps(snapshots, (f: LtxFile) => f !in deleted);
    forall i | 0 <= i < |kept| ensures kept[i].min == 1 {
      assert kept[i] in snapshots;
    }
    if snapshots != [] {
      var last := snapshots[|snapshots| - 1];
      assert last in kept by {
        NewestIsSpared(snapshots, marked);
      }
      NewestSnapshot(snapshots, snapshots);
      NewestSnapshot(snapshots, kept);
    }
  }

  lemma NewestIsSpared(files: seq<LtxFile>, marked: seq<LtxFile>)
    requires files != [] && Listed(marked) && forall f :: f in marked ==> f in files
    requires Listed(files)
    ensures files[|files| - 1] !in SpareNewest(marked, files)
  {
    var last := files[|files| - 1];
    forall i | 0 <= i < |marked| && marked[i] == last ensures i == |marked| - 1 {
      assert marked[|marked| - 1] in files;
    }
  }

  /** The last snapshot in name order has the largest id of any part of the listing that has it. */
  lemma NewestSnapshot(snapshots: seq<LtxFile>, part: seq<LtxFile>)
    requires Listed(snapshots) && FullSnapshots(snapshots) && snapshots != []
    requires snapshots[|snapshots| - 1] in part && forall f :: f in part ==> f in snapshots
    ensures MaxId(part) == snapshots[|snapshots| - 1].max
  {
    MaxIdBounds(part);
    var f :| f in part && f.max == MaxId(part);
    var i :| 0 <= i < |snapshots| && snapshots[i] == f;
    assert snapshots[i].min == snapshots[|snapshots| - 1].min;
  }

  lemma Level0RetentionShaped(s: Store, threshold: int)
    requires Shaped(s.levels)
    ensures Shaped(Delete(s, 0, ExpiredLevel0(s.levels[0], MaxId(s.levels[1]), threshold)).levels)
  {
    assert InOrder(s.levels, 0);
    var k := ExpiredIsFront(s.levels[0], MaxId(s.levels[1]), threshold);
    Level0FrontRemoved(s.levels, k);
  }

  /** Level 0 may lose a front that level 1 covers. */
  lemma Level0FrontRemoved(levels: seq<seq<LtxFile>>, k: nat)
    requires Shaped(levels) && k <= |levels[0]| && (levels[0] != [] ==> k < |levels[0]|)
    requires forall i :: 0 <= i < k ==> levels[0][i].max <= MaxId(levels[1])
    ensures Shaped(levels[0 := levels[0][k..]])
  {
    var files := levels[0];
    assert InOrder(levels, 0);
    FrontRemoved(files, k);
    ReplaceLevel0(levels, files[k..]);
  }

  /** Retention by id at one level. */
  lemma BelowIdKeeps(levels: seq<seq<LtxFile>>, l: nat, id: nat)
    requires Shaped(levels) && 1 <= l <= 8 && id <= MaxId(levels[9])
    ensures
      var kept := Without(levels[l], BelowId(levels[l], id));
      && Tidy(kept) && MaxId(kept) == MaxId(levels[l]) && (kept == [] <==> levels[l] == [])
      && (l == 1 ==> Consecutive(kept) && (kept != [] ==> kept[0].min <= MaxId(levels[9]) + 1))
  {
    assert InOrder(levels, l);
    var k := BelowIdIsFront(levels[l], id);
    FrontRemoved(levels[l], k);
  }

  /** What retention by id leaves of one level. */
  lemma RetainedLevel(s: Store, id: nat, l: nat)
    requires Shaped(s.levels) && id <= MaxId(s.levels[9]) && l < 10
    ensures
      var kept := RetainById(s, id).levels[l];
      && MaxId(kept) == MaxId(s.levels[l]) && (kept == [] <==> s.levels[l] == []) && (l < 9 ==> Tidy(kept))
      && (l == 0 || l == 9 ==> kept == s.levels[l])
      && (l == 1 ==> Consecutive(kept) && (kept != [] ==> kept[0].min <= MaxId(s.levels[9]) + 1))
  {
    if 1 <= l <= 8 {
      BelowIdKeeps(s.levels, l, id);
    } else {
      assert l < 9 ==> InOrder(s.levels, l);
    }
  }

  /** Levels of the same ends, with level 0 and the snapshots untouched and level 1 linked, keep the shape. */
  lemma SameEndsShaped(levels: seq<seq<LtxFile>>, kept: seq<seq<LtxFile>>)
    requires Shaped(levels) && |kept| == 10 && kept[0] == levels[0] && kept[9] == levels[9]
    requires forall l :: 0 <= l < 9 ==> Tidy(kept[l]) && MaxId(kept[l]) == MaxId(levels[l])
    requires Consecutive(kept[1]) && (kept[1] != [] ==> kept[1][0].min <= MaxId(levels[9]) + 1)
    ensures Shaped(kept)
  {
    forall l | 0 <= l < 9 ensures InOrder(kept, l) {
      assert InOrder(levels, l);
    }
  }

  lemma RetainByIdShaped(s: Store, id: nat)
    requires Shaped(s.levels) && id <= MaxId(s.levels[9])
    ensures Shaped(RetainById(s, id).levels)
    ensures forall l :: 0 <= l < 10 ==>
      && MaxId(RetainById(s, id).levels[l]) == MaxId(s.levels[l])
      && (RetainById(s, id).levels[l] == [] <==> s.levels[l] == [])
  {
    var kept := RetainById(s, id).levels;
    forall l | 0 <= l < 10
      ensures MaxId(kept[l]) == MaxId(s.levels[l]) && (kept[l] == [] <==> s.levels[l] == [])
      ensures l < 9 ==> Tidy(kept[l])
    {
      RetainedLevel(s, id, l);
    }
    RetainedLevel(s, id, 0);
    RetainedLevel(s, id, 1);
    RetainedLevel(s, id, 9);
    SameEndsShaped(s.levels, kept);
  }

  /** Seeking in a level skips files at the front only. */
  lemma SeekIsSuffix(files: seq<LtxFile>, id: nat) returns (k: nat)
    requires Listed(files)
    ensures k <= |files| && Seek(files, id) == files[k..]
    ensures forall i :: 0 <= i < |files| ==> (files[i].min < id <==> i < k)
  {
    k := 0;
    while k < |files| && files[k].min < id
      invariant k <= |files| && forall i :: 0 <= i < k ==> files[i].min < id
    {
      k := k + 1;
    }
    forall i | k < i < |files| ensures id <= files[i].min {
      assert NameLess(files[k], files[i]);
    }
    FilterSuffix(files, (f: LtxFile) => id <= f.min, k, |files|);
    assert files[..|files|] == files;
  }

  /** What level 1 takes from level 0 starts right after its own end and has no gap. */
  lemma Level1Source(levels: seq<seq<LtxFile>>)
    requires Shaped(levels) && Seek(levels[0], MaxId(levels[1]) + 1) != []
    ensures
      var source := Seek(levels[0], MaxId(levels[1]) + 1);
      Contiguous(source) && source[0].min == MaxId(levels[1]) + 1
  {
    var files, id := levels[0], MaxId(levels[1]) + 1;
    assert InOrder(levels, 0);
    var k := SeekIsSuffix(files, id);
    ConsecutiveIsContiguous(files, k);
    if 0 < k {
      assert Adjoins(files, k) && files[k - 1].min == files[k - 1].max;
    }
  }

  /** The range of what seeking leaves of a level. */
  lemma SourceRange(files: seq<LtxFile>, id: nat)
    requires Tidy(files) && Seek(files, id) != []
    ensures
      var source := Seek(files, id);
      id <= source[0].min <= source[|source| - 1].max <= MaxId(files)
  {
    var k := SeekIsSuffix(files, id);
    var n := |files| - 1;
    MaxIdIsLast(files);
    assert files[k..][0] == files[k] && files[k..][n - k] == files[n];
    assert files[k] in files && files[n] in files;
    assert k < n ==> files[k].max < files[n].min;
  }

  /**
    A compaction writes a range beyond the end of its level and within level 0; level 1 gets it right after its end.
   */
  lemma CompactedRange(levels: seq<seq<LtxFile>>, dst: nat, now: int)
    requires Shaped(levels) && 1 <= dst <= 8
    ensures
      var r := Compacted(levels, dst, MaxId(levels[dst]), now);
      r.Ok? ==>
        && MaxId(levels[dst]) < r.value.min <= r.value.max <= MaxId(levels[0])
        && (dst == 1 ==> r.value.min == MaxId(levels[1]) + 1)
  {
    var r := Compacted(levels, dst, MaxId(levels[dst]), now);
    if r.Ok? {
      CompactedIs(levels, dst, MaxId(levels[dst]), now);
      SourceWithin(levels, dst);
      if dst == 1 {
        Level1Source(levels);
      }
    }
  }

  lemma SourceWithin(levels: seq<seq<LtxFile>>, dst: nat)
    requires Shaped(levels) && 1 <= dst <= 8 && Seek(levels[dst - 1], MaxId(levels[dst]) + 1) != []
    ensures
      var source := Seek(levels[dst - 1], MaxId(levels[dst]) + 1);
      MaxId(levels[dst]) < source[0].min <= source[|source| - 1].max <= MaxId(levels[0])
  {
    assert InOrder(levels, dst - 1);
    SourceRange(levels[dst - 1], MaxId(levels[dst]) + 1);
  }

  /** A compaction covers what it read. */
  lemma CompactedIs(levels: seq<seq<LtxFile>>, dst: nat, last: nat, now: int)
    requires 1 <= dst < |levels| && Compacted(levels, dst, last, now).Ok?
    ensures
      var source, f := Seek(levels[dst - 1], last + 1), Compacted(levels, dst, last, now).value;
      source != [] && Contiguous(source) && f.min == source[0].min && f.max == source[|source| - 1].max
  {
  }

  /** A file put beyond the end of its level and within level 0 leaves the shape. */
  lemma PutShaped(levels: seq<seq<LtxFile>>, dst: nat, f: LtxFile)
    requires Shaped(levels) && 1 <= dst <= 8 && MaxId(levels[dst]) < f.min <= f.max <= MaxId(levels[0])
    requires dst == 1 ==> f.min == MaxId(levels[1]) + 1
    ensures MaxId(Put(levels[dst], f)) == f.max && Shaped(levels[dst := Put(levels[dst], f)])
  {
    assert InOrder(levels, dst);
    PutTidy(levels[dst], f);
    ReplaceLevel(levels, dst, Put(levels[dst], f));
  }

  lemma CompactedShaped(levels: seq<seq<LtxFile>>, dst: nat, now: int)
    requires Shaped(levels) && 1 <= dst <= 8
    ensures var r := Compacted(levels, dst, MaxId(levels[dst]), now);
      r.Ok? ==>
        && MaxId(Put(levels[dst], r.value)) == r.value.max
        && Shaped(levels[dst := Put(levels[dst], r.value)])
  {
    var r := Compacted(levels, dst, MaxId(levels[dst]), now);
    CompactedRange(levels, dst, now);
    if r.Ok? {
      PutShaped(levels, dst, r.value);
    }
  }

  lemma RememberRight(s: Store, level: nat)
    requires |s.levels| == 10 && CacheRight(s) && 1 <= level <= 9
    ensures CacheRight(Remember(s, level)) && KnownMax(s, level) == MaxId(s.levels[level])
  {
  }

  lemma PutCacheRight(s: Store, level: nat, f: LtxFile)
    requires |s.levels| == 10 && CacheRight(s) && level <= 9
    requires s.caching && level != 0 ==> MaxId(Put(s.levels[level], f)) == f.max
    ensures CacheRight(PutFile(s, level, f))
  {
  }

  /** What a compaction step does to the levels, the remembered file being right. */
  lemma CompactLevels(s: Store, dst: nat, now: int)
    requires |s.levels| == 10 && CacheRight(s) && 1 <= dst <= 8
    ensures CompactStep(s, dst, now).levels ==
      match Compacted(s.levels, dst, MaxId(s.levels[dst]), now)
      case Ok(f) => s.levels[dst := Put(s.levels[dst], f)]
      case Err(_) => s.levels
  {
    RememberRight(s, dst);
  }

  lemma CompactShaped(s: Store, dst: nat, now: int)
    requires Shaped(s.levels) && CacheRight(s) && 1 <= dst <= 8
    ensures Shaped(CompactStep(s, dst, now).levels)
  {
    CompactLevels(s, dst, now);
    CompactedShaped(s.levels, dst, now);
  }

  lemma CompactCacheRight(s: Store, dst: nat, now: int)
    requires Shaped(s.levels) && CacheRight(s) && 1 <= dst <= 8
    ensures CacheRight(CompactStep(s, dst, now))
  {
    RememberRight(s, dst);
    CompactedShaped(s.levels, dst, now);
    var r := Compacted(s.levels, dst, MaxId(s.levels[dst]), now);
    if r.Ok? {
      PutCacheRight(Remember(s, dst), dst, r.value);
    }
  }

  // Faithfulness of the files.

  lemma PutTruthful(h: seq<Db>, levels: seq<seq<LtxFile>>, l: nat, f: LtxFile)
    requires l < |levels| && Truthful(h, levels) && Listed(levels[l]) && Faithful(h, f)
    ensures Truthful(h, levels[l := Put(levels[l], f)])
  {
    PutKeeps(levels[l], f);
  }

  lemma WithoutTruthful(h: seq<Db>, files: seq<LtxFile>, deleted: seq<LtxFile>)
    requires Listed(files) && forall f :: f in files ==> Faithful(h, f)
    ensures forall f :: f in Without(files, deleted) ==> Faithful(h, f)
  {
    FilterKeeps(files, (f: LtxFile) => f !in deleted);
  }

  lemma CompactTruthful(h: seq<Db>, files: seq<LtxFile>, id: nat, dst: nat, now: int)
    requires History(h) && Listed(files) && forall f :: f in files ==> Faithful(h, f)
    requires Seek(files, id) != [] && Contiguous(Seek(files, id))
    ensures Faithful(h, Merge(Seek(files, id), dst, now))
  {
    var source := Seek(files, id);
    SeekKeepsOrder(files, id);
    forall i | 0 <= i < |source| ensures Faithful(h, source[i]) {
      assert source[i] in source;
    }
    MergeFaithful(h, source, dst, now);
  }

  lemma DeleteTruthful(h: seq<Db>, s: Store, l: nat, deleted: seq<LtxFile>)
    requires l < |s.levels| && Truthful(h, s.levels) && Listed(s.levels[l])
    ensures Truthful(h, Delete(s, l, deleted).levels)
  {
    WithoutTruthful(h, s.levels[l], deleted);
  }

  lemma RetainByIdTruthful(h: seq<Db>, s: Store, id: nat)
    requires Truthful(h, s.levels) && forall l :: 0 <= l < |s.levels| ==> Listed(s.levels[l])
    ensures Truthful(h, RetainById(s, id).levels)
  {
    forall l | 0 <= l < |s.levels| ensures forall f :: f in RetainById(s, id).levels[l] ==> Faithful(h, f) {
      WithoutTruthful(h, s.levels[l], BelowId(s.levels[l], id));
    }
  }

  // Every operation keeps the invariant.

  lemma UploadKeeps(h: seq<Db>, s: Store, f: LtxFile)
    requires Good(h, s) && Enabled(h, s, Upload(f))
    ensures Good(h, Step(s, Upload(f)))
  {
    assert InOrder(s.levels, 0);
    UploadShaped(s, f);
    PutTruthful(h, s.levels, 0, f);
    PutCacheRight(s, 0, f);
  }

  lemma SnapshotKeeps(h: seq<Db>, s: Store, f: LtxFile)
    requires Good(h, s) && Enabled(h, s, WriteSnapshot(f))
    ensures Good(h, Step(s, WriteSnapshot(f)))
  {
    SnapshotShaped(s, f);
    PutTruthful(h, s.levels, 9, f);
    PutCacheRight(s, 9, f);
  }

  lemma CompactKeeps(h: seq<Db>, s: Store, dst: nat, now: int)
    requires Good(h, s) && Enabled(h, s, Compact(dst, now))
    ensures Good(h, Step(s, Compact(dst, now)))
  {
    CompactShaped(s, dst, now);
    CompactCacheRight(s, dst, now);
    CompactLevels(s, dst, now);
    assert InOrder(s.levels, dst - 1) && InOrder(s.levels, dst);
    var r := Compacted(s.levels, dst, MaxId(s.levels[dst]), now);
    if r.Ok? {
      CompactTruthful(h, s.levels[dst - 1], MaxId(s.levels[dst]) + 1, dst, now);
      PutTruthful(h, s.levels, dst, r.value);
    }
  }

  lemma Level0RetentionKeeps(h: seq<Db>, s: Store, threshold: int)
    requires Good(h, s)
    ensures Good(h, Step(s, Level0Retention(threshold)))
  {
    assert InOrder(s.levels, 0);
    Level0RetentionShaped(s, threshold);
    DeleteTruthful(h, s, 0, ExpiredLevel0(s.levels[0], MaxId(s.levels[1]), threshold));
  }

  lemma SnapshotRetentionKeeps(h: seq<Db>, s: Store, time: int)
    requires Good(h, s)
    ensures Good(h, Step(s, SnapshotRetention(time)))
    ensures MaxId(Step(s, SnapshotRetention(time)).levels[9]) == MaxId(s.levels[9])
  {
    var deleted := OldSnapshots(s.levels[9], time);
    OldSnapshotsKeepNewest(s.levels[9], time);
    ReplaceSnapshots(s.levels, Without(s.levels[9], deleted));
    DeleteTruthful(h, s, 9, deleted);
    DeleteCacheRight(s, deleted);
    assert Step(s, SnapshotRetention(time)) == Delete(s, 9, deleted);
  }

  /** Deleting snapshots keeps the cache right when the newest stays. */
  lemma DeleteCacheRight(s: Store, deleted: seq<LtxFile>)
    requires |s.levels| == 10 && CacheRight(s) && MaxId(Without(s.levels[9], deleted)) == MaxId(s.levels[9])
    requires Without(s.levels[9], deleted) == [] ==> s.levels[9] == []
    ensures CacheRight(Delete(s, 9, deleted))
  {
  }

  lemma RetainByIdCacheRight(s: Store, id: nat)
    requires |s.levels| == 10 && CacheRight(s)
    requires forall l :: 0 <= l < 10 ==>
      && MaxId(RetainById(s, id).levels[l]) == MaxId(s.levels[l])
      && (RetainById(s, id).levels[l] == [] <==> s.levels[l] == [])
    ensures CacheRight(RetainById(s, id))
  {
  }

  lemma CascadedRetentionKeeps(h: seq<Db>, s: Store, time: int, id: nat)
    requires Good(h, s) && Enabled(h, s, CascadedRetention(time, id))
    ensures Good(h, Step(s, CascadedRetention(time, id)))
  {
    SnapshotRetentionKeeps(h, s, time);
    CascadeIs(h, s, time, id);
    RetainByIdGood(h, Step(s, SnapshotRetention(time)), id);
  }

  /** A cascade is snapshot retention followed by id retention, with an id that no snapshot is below. */
  lemma CascadeIs(h: seq<Db>, s: Store, time: int, id: nat)
    requires |s.levels| == 10 && Enabled(h, s, CascadedRetention(time, id))
    ensures Step(s, CascadedRetention(time, id)) == RetainById(Step(s, SnapshotRetention(time)), id)
    ensures id <= MaxId(s.levels[9])
  {
  }

  lemma RetainByIdGood(h: seq<Db>, s: Store, id: nat)
    requires Good(h, s) && id <= MaxId(s.levels[9])
    ensures Good(h, RetainById(s, id))
  {
    RetainByIdShaped(s, id);
    ShapedIsListed(s.levels);
    RetainByIdTruthful(h, s, id);
    RetainByIdCacheRight(s, id);
  }

  lemma ShapedIsListed(levels: seq<seq<LtxFile>>)
    requires Shaped(levels)
    ensures forall l :: 0 <= l < 10 ==> Listed(levels[l])
  {
    forall l | 0 <= l < 10 ensures Listed(levels[l]) {
      assert l < 9 ==> InOrder(levels, l);
    }
  }

  lemma StepKeeps(h: seq<Db>, s: Store, op: Op)
    requires Good(h, s) && Enabled(h, s, op)
    ensures Good(h, Step(s, op))
  {
    match op
    case Upload(f) => UploadKeeps(h, s, f);
    case WriteSnapshot(f) => SnapshotKeeps(h, s, f);
    case Compact(dst, now) => CompactKeeps(h, s, dst, now);
    case Level0Retention(threshold) => Level0RetentionKeeps(h, s, threshold);
    case SnapshotRetention(time) => SnapshotRetentionKeeps(h, s, time);
    case CascadedRetention(time, id) => CascadedRetentionKeeps(h, s, time, id);
  }

  /** The invariant holds after every operation of every run. */
  lemma {:induction false} RunIsGood(h: seq<Db>, run: seq<Store>, ops: seq<Op>, i: nat)
    requires History(h) && IsRun(h, run, ops) && i < |run|
    ensures Good(h, run[i])
  {
    if i == 0 {
      EmptyIsGood(h, run[0].caching);
    } else {
      RunIsGood(h, run, ops, i - 1);
      RunsKeeps(h, run[i - 1], ops[i - 1], run[i]);
    }
  }

  lemma EmptyIsGood(h: seq<Db>, caching: bool)
    requires History(h)
    ensures Good(h, Store(seq(10, l => []), caching, map[]))
  {
  }

  lemma RunsKeeps(h: seq<Db>, s: Store, op: Op, t: Store)
    requires Good(h, s) && Runs(h, s, op, t)
    ensures Good(h, t)
  {
    StepKeeps(h, s, op);
  }

  // ---------------------------------------------------------------------------------------------
  // The latest state stays restorable.

  lemma {:induction false} EndIsMaxId(start: nat, chain: seq<LtxFile>)
    ensures End(start, chain) == Max(start, MaxId(chain))
  {
    if chain != [] {
      EndIsMaxId(start, chain[..|chain| - 1]);
    }
  }

  /** Consecutive files follow on from any position that reaches the first of them. */
  lemma ConsecutiveFollows(start: nat, before: seq<LtxFile>, files: seq<LtxFile>)
    requires GapFree(start, before) && Consecutive(files)
    requires files != [] ==> files[0].min <= End(start, before) + 1
    ensures GapFree(start, before + files)
  {
    var chain := before + files;
    forall i | 0 <= i < |chain| ensures Fits(start, chain, i) {
      if i < |before| {
        assert Fits(start, before, i);
        assert chain[..i] == before[..i];
      } else if i == |before| {
        assert chain[..i] == before;
      } else {
        assert Adjoins(files, i - |before|) && chain[..i][i - 1] == files[i - 1 - |before|];
        EndIsMaxId(start, chain[..i]);
        MaxIdBounds(chain[..i]);
      }
    }
  }

  /** The newest transaction id stored anywhere. */
  function Top(s: Store): nat
    requires |s.levels| == 10
  {
    Max(MaxId(s.levels[0]), MaxId(s.levels[9]))
  }

  lemma StartIsNewest(snapshots: seq<LtxFile>)
    requires Listed(snapshots) && FullSnapshots(snapshots)
    ensures Start(snapshots, Target(0, 0)) == MaxId(snapshots)
  {
    if snapshots != [] {
      NewestSnapshot(snapshots, snapshots);
    }
  }

  lemma PoolBelowTop(s: Store)
    requires Shaped(s.levels)
    ensures forall f :: f in Pool(s.levels[..9]) ==> f.min <= f.max <= MaxId(s.levels[0])
  {
    forall f | f in Pool(s.levels[..9]) ensures f.min <= f.max <= MaxId(s.levels[0]) {
      var l :| 0 <= l < 9 && f in s.levels[..9][l];
      assert InOrder(s.levels, l);
      MaxIdBounds(s.levels[l]);
    }
  }

  /** Level 1 followed by level 0 is a chain from the newest snapshot to the newest id. */
  lemma LevelsChain(start: nat, level1: seq<LtxFile>, level0: seq<LtxFile>)
    requires Consecutive(level1) && (level1 != [] ==> level1[0].min <= start + 1)
    requires Consecutive(level0) && (level0 != [] ==> level0[0].min <= MaxId(level1) + 1)
    ensures GapFree(start, level1 + level0)
    ensures Max(start, MaxId(level0)) <= End(start, level1 + level0)
  {
    ConsecutiveFollows(start, [], level1);
    assert [] + level1 == level1;
    EndIsMaxId(start, level1);
    ConsecutiveFollows(start, level1, level0);
    EndIsMaxId(start, level1 + level0);
    MaxIdOfPart(level0, level1 + level0);
  }

  lemma MaxIdOfPart(part: seq<LtxFile>, files: seq<LtxFile>)
    requires forall f :: f in part ==> f in files
    ensures MaxId(part) <= MaxId(files)
  {
    MaxIdBounds(part);
    MaxIdBounds(files);
  }

  /** With anything stored, planning for the latest state succeeds. */
  lemma LatestIsRestorable(s: Store)
    requires Shaped(s.levels) && 0 < Top(s)
    ensures Restorable(s.levels[..9], s.levels[9], Target(0, 0))
  {
    var levels, start := s.levels, MaxId(s.levels[9]);
    var chain := levels[1] + levels[0];
    StartIsNewest(levels[9]);
    LevelsChain(start, levels[1], levels[0]);
    PoolBelowTop(s);
    forall i | 0 <= i < |chain| ensures chain[i] in Pool(levels[..9]) {
      assert if i < |levels[1]| then chain[i] in levels[..9][1] else chain[i] in levels[..9][0];
    }
    assert Chain(start, chain, levels[..9], Target(0, 0));
    assert Completes(End(start, chain), levels[..9], levels[9], Target(0, 0));
  }

  /** A plan for the latest state ends at the newest id stored anywhere. */
  lemma LatestPlanEndsAtTop(s: Store, plan: seq<LtxFile>)
    requires Shaped(s.levels) && 0 < Top(s) && IsPlan(plan, s.levels[..9], s.levels[9], Target(0, 0))
    ensures plan != [] && plan[|plan| - 1].max == Top(s)
  {
    var e := PlanEndsAt(plan, s.levels[..9], s.levels[9], Target(0, 0));
    StartIsNewest(s.levels[9]);
    PoolBelowTop(s);
    if s.levels[0] != [] {
      NewestIsListed(s.levels);
    }
  }

  lemma NewestIsListed(levels: seq<seq<LtxFile>>)
    requires |levels| == 10 && levels[0] != []
    ensures exists f :: f in Pool(levels[..9]) && f.max == MaxId(levels[0])
  {
    MaxIdBounds(levels[0]);
    var f :| f in levels[0] && f.max == MaxId(levels[0]);
    assert f in levels[..9][0];
  }

  lemma TruthfulIsAllFaithful(h: seq<Db>, levels: seq<seq<LtxFile>>)
    requires |levels| == 10 && Truthful(h, levels)
    ensures AllFaithful(h, levels[..9], levels[9])
  {
    forall f | f in Pool(levels[..9]) ensures Faithful(h, f) {
      var l :| 0 <= l < 9 && f in levels[..9][l];
      assert f in levels[l];
    }
    forall i | 0 <= i < |levels[9]| ensures Faithful(h, levels[9][i]) {
      assert levels[9][i] in levels[9];
    }
  }

  /**
    The promise of the replica: at every point of every run in which anything was stored, restoring the latest
    state succeeds and gives back the database as it was after the newest transaction stored anywhere.
   */
  method RestoreLatest(s: Store, ghost h: seq<Db>, ghost run: seq<Store>, ghost ops: seq<Op>, ghost i: nat)
    returns (db: Option<Db>)
    requires History(h) && IsRun(h, run, ops) && i < |run| && run[i] == s
    requires exists l :: 0 <= l < |s.levels| && s.levels[l] != []
    ensures |s.levels| == 10 && Top(s) < |h| && db == Some(h[Top(s)])
  {
    RunIsGood(h, run, ops, i);
    TopIsPositive(h, s);
    LatestIsRestorable(s);
    forall l | 0 <= l < 9 ensures Listed(s.levels[..9][l]) {
      assert InOrder(s.levels, l);
    }
    var plan := CalcRestorePlan(s.levels[..9], s.levels[9], Target(0, 0));
    LatestPlanEndsAtTop(s, plan.value);
    TruthfulIsAllFaithful(h, s.levels);
    PlanDecodes(h, plan.value, s.levels[..9], s.levels[9], Target(0, 0));
    return Decode(Merge(plan.value, 0, 0));
  }

  lemma TopIsPositive(h: seq<Db>, s: Store)
    requires Good(h, s) && exists l :: 0 <= l < 10 && s.levels[l] != []
    ensures 0 < Top(s)
  {
    var l :| 0 <= l < 10 && s.levels[l] != [];
    var f := s.levels[l][0];
    assert f in s.levels[l] && Faithful(h, f);
    MaxIdBounds(s.levels[l]);
    assert l < 9 ==> InOrder(s.levels, l);
  }

  /** Level 0 retention leaves the newest id and level 0 in use. */
  lemma ExpiredKeepsNewest(files: seq<LtxFile>, maxL1: nat, threshold: int)
    requires Tidy(files)
    ensures
      var kept := Without(files, ExpiredLevel0(files, maxL1, threshold));
      MaxId(kept) == MaxId(files) && (kept == [] <==> files == [])
  {
    var k := ExpiredIsFront(files, maxL1, threshold);
    FrontRemoved(files, k);
  }

  /**
    No operation lowers the newest id or empties level 0, so nothing that was stored is ever lost to a latest
    restore.
   */
  lemma StepKeepsNewest(h: seq<Db>, s: Store, op: Op)
    requires |s.levels| == 10 && CacheRight(s) && Enabled(h, s, op)
    requires Tidy(s.levels[0]) && Ranged(s.levels[9]) && FullSnapshots(s.levels[9])
    ensures |Step(s, op).levels| == 10 && Top(s) <= Top(Step(s, op))
    ensures s.levels[0] != [] ==> Step(s, op).levels[0] != []
  {
    match op
    case Upload(f) => PutMaxId(s.levels[0], f);
    case WriteSnapshot(f) => PutMaxId(s.levels[9], f);
    case Compact(dst, now) => CompactLevels(s, dst, now);
    case Level0Retention(threshold) => ExpiredKeepsNewest(s.levels[0], MaxId(s.levels[1]), threshold);
    case SnapshotRetention(time) => OldSnapshotsKeepNewest(s.levels[9], time);
    case CascadedRetention(time, id) => OldSnapshotsKeepNewest(s.levels[9], time);
  }

  /**
    Along a run the newest id only rises, level 0 stays in use, level 1 has no gap, and what is remembered is right.
   */
  lemma {:induction false} RunNeverLoses(h: seq<Db>, run: seq<Store>, ops: seq<Op>, i: nat, j: nat)
    requires History(h) && IsRun(h, run, ops) && i <= j < |run|
    ensures |run[i].levels| == |run[j].levels| == 10 && Top(run[i]) <= Top(run[j])
    ensures run[i].levels[0] != [] ==> run[j].levels[0] != []
    ensures Consecutive(run[j].levels[0]) && Consecutive(run[j].levels[1]) && CacheRight(run[j])
    decreases j - i
  {
    RunIsGood(h, run, ops, j);
    RunIsGood(h, run, ops, i);
    if i < j {
      RunsKeepNewest(h, run[i], ops[i], run[i + 1]);
      RunNeverLoses(h, run, ops, i + 1, j);
    }
  }

  lemma RunsKeepNewest(h: seq<Db>, s: Store, op: Op, t: Store)
    requires Good(h, s) && Runs(h, s, op, t)
    ensures |s.levels| == |t.levels| == 10 && Top(s) <= Top(t) && (s.levels[0] != [] ==> t.levels[0] != [])
  {
    assert InOrder(s.levels, 0);
    StepKeepsNewest(h, s, op);
  }
}
