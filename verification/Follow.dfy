/**
  Follow mode: a restored database file is patched in place as new transaction files appear.
  The file is right again after any number of interrupted polls once the saved id passes what was written.
 */
module Follow {
  import opened Ltx
  import opened Replay
  import RestorePlan
  import ReplicaStore

  /** Bytes of page 1 that are rewritten on every application: the journal mode and the schema counter. */
  predicate Rewritten(p: nat, size: nat, i: nat) {
    p == 1 && 28 <= size && (18 <= i < 20 || 24 <= i < 28)
  }

  /** Equal pages, but for the rewritten header bytes. */
  predicate SamePage(p: nat, x: Page, y: Page) {
    |x| == |y| && forall i :: 0 <= i < |x| && !Rewritten(p, |x|, i) ==> x[i] == y[i]
  }

  /** The header says that the database is read and written without a log. */
  predicate Stamped(page: Page) {
    28 <= |page| && page[18] == 1 && page[19] == 1
  }

  /** The bytes that are written for a page. */
  function Patched(p: nat, data: Page, random: seq<int>): (r: Page)
    requires |random| == 4
    ensures SamePage(p, r, data)
    ensures p == 1 && 28 <= |data| ==> Stamped(r) && r[24..28] == random
    ensures p != 1 || |data| < 28 ==> r == data
  {
    if p == 1 && 28 <= |data| then data[..18] + [1, 1] + data[20..24] + random + data[28..] else data
  }

  function Zeros(n: nat, size: nat): (z: seq<Page>)
    ensures |z| == n
  {
    seq(n, i => seq(size, j => 0))
  }

  /** Cutting a file or extending it with zero pages. */
  function Resize(file: seq<Page>, n: nat, size: nat): (r: seq<Page>)
    ensures |r| == n && forall i :: 0 <= i < n && i < |file| ==> r[i] == file[i]
  {
    if n <= |file| then file[..n] else file + Zeros(n - |file|, size)
  }

  ghost predicate Holds(file: seq<Page>, p: nat, page: Page) {
    1 <= p <= |file| && SamePage(p, file[p - 1], page)
  }

  /** The file is a copy of the state. */
  ghost predicate InState(file: seq<Page>, db: Db) {
    |file| == db.size && forall p :: p in db.pages ==> Holds(file, p, db.pages[p])
  }

  /**
    The file is at transaction `c`, with later writes up to `d` possibly on it: every page that no
    transaction after `c` up to `d` changed is right, and with nothing later written the file is the state.
   */
  ghost predicate Tracks(file: seq<Page>, h: seq<Db>, c: nat, d: nat) {
    && c <= d < |h|
    && (c == d ==> InState(file, h[c]))
    && (forall p :: p in h[c].pages && Stable(h, p, c, d) ==> Holds(file, p, h[c].pages[p]))
  }

  /** Going back to an earlier saved id is safe. */
  lemma TracksEarlier(file: seq<Page>, h: seq<Db>, b: nat, c: nat, d: nat)
    requires Tracks(file, h, c, d) && b <= c
    ensures Tracks(file, h, b, d)
  {
    forall p | p in h[b].pages && Stable(h, p, b, d) ensures Holds(file, p, h[b].pages[p]) {
      assert Stable(h, p, c, d);
      assert p in h[c].pages && h[c].pages[p] == h[d].pages[p] == h[b].pages[p];
    }
  }

  /** Some of a file's pages were written over what was there; nothing else changed, though the file may be longer. */
  ghost predicate Overwritten(was: seq<Page>, now: seq<Page>, pages: map<nat, Page>, written: set<nat>) {
    && |was| <= |now| && written <= pages.Keys
    && (forall p :: p in written ==> Holds(now, p, pages[p]))
    && (forall p :: 1 <= p <= |was| && p !in written ==> now[p - 1] == was[p - 1])
  }

  /** An application that stops anywhere keeps the file at the old id, under a higher mark. */
  lemma TornKeeps(h: seq<Db>, was: seq<Page>, now: seq<Page>, f: LtxFile, written: set<nat>, c: nat, d: nat)
    requires History(h) && Faithful(h, f) && f.min <= c + 1 && c < f.max
    requires Tracks(was, h, c, d) && Overwritten(was, now, f.pages, written)
    ensures Tracks(now, h, c, Max(d, f.max))
  {
    var e := Max(d, f.max);
    forall p | p in h[c].pages && Stable(h, p, c, e) ensures Holds(now, p, h[c].pages[p]) {
      assert h[d].pages[p] == h[e].pages[p] && h[f.max].pages[p] == h[e].pages[p];
      assert Stable(h, p, c, d);
      if p in written {
        assert f.pages[p] == h[f.max].pages[p];
      }
    }
  }

  /** So does stopping after the file was cut to its new size. */
  lemma CutKeeps(h: seq<Db>, now: seq<Page>, n: nat, size: nat, t: nat, c: nat, d: nat)
    requires History(h) && c <= t <= d && c < d && Tracks(now, h, c, d) && n == h[t].size
    ensures Tracks(Resize(now, n, size), h, c, d)
  {
    forall p | p in h[c].pages && Stable(h, p, c, d) ensures Holds(Resize(now, n, size), p, h[c].pages[p]) {
      assert p in h[t].pages && WellFormed(h[t]);
    }
  }

  /** A finished application moves the file to the end of what was applied. */
  lemma FinishedAdvances(h: seq<Db>, was: seq<Page>, now: seq<Page>, f: LtxFile, size: nat, c: nat, d: nat)
    requires History(h) && Faithful(h, f) && f.min <= c + 1 && c < f.max
    requires Tracks(was, h, c, d) && Overwritten(was, now, f.pages, f.pages.Keys)
    ensures Tracks(Resize(now, f.commit, size), h, f.max, Max(d, f.max))
  {
    var b, e := f.max, Max(d, f.max);
    var file := Resize(now, f.commit, size);
    assert WellFormed(h[b]);
    forall p | p in h[b].pages && Stable(h, p, b, e) ensures Holds(file, p, h[b].pages[p]) {
      if p !in f.pages {
        assert Stable(h, p, f.min - 1, b);
        assert p in h[c].pages && h[c].pages[p] == h[b].pages[p];
        assert forall t :: c <= t <= d ==> p in h[t].pages && h[t].pages[p] == h[b].pages[p] by {
          forall t | c <= t <= d ensures p in h[t].pages && h[t].pages[p] == h[b].pages[p] {
            if b < t {
              assert h[b].pages[p] == h[e].pages[p] && h[t].pages[p] == h[e].pages[p];
            }
          }
        }
        assert Stable(h, p, c, d);
      }
    }
    if b == e {
      forall p | p in h[b].pages ensures Stable(h, p, b, e) {
      }
    }
  }

  // ---------------------------------------------------------------------------------------------
  // The follower.

  /** What a file must be to be applied at `c`: it leaves no gap and brings something new. */
  predicate Follows(f: LtxFile, c: nat) {
    f.min <= c + 1 && c < f.max
  }

  ghost predicate LevelFollows(levels: seq<seq<LtxFile>>, l: nat, c: nat)
    requires l < |levels|
  {
    exists k :: 0 <= k < |levels[l]| && Follows(levels[l][k], c)
  }

  ghost predicate HigherFollows(levels: seq<seq<LtxFile>>, c: nat) {
    exists l :: 1 <= l < |levels| && LevelFollows(levels, l, c)
  }

  /** Something can be applied at `after`: a level 0 file that starts next, or a higher one that covers it. */
  ghost predicate CanAdvance(levels: seq<seq<LtxFile>>, after: nat)
    requires 0 < |levels|
  {
    (exists k :: 0 <= k < |levels[0]| && levels[0][k].min == after + 1) || HigherFollows(levels, after)
  }

  /** What a poll finds at the replica: nine listings of files that are faithful to the history. */
  ghost predicate Replicated(h: seq<Db>, levels: seq<seq<LtxFile>>) {
    && History(h) && |levels| == SNAPSHOT_LEVEL
    && (forall l :: 0 <= l < |levels| ==> Listed(levels[l]))
    && (forall l, k :: 0 <= l < |levels| && 0 <= k < |levels[l]| ==> Faithful(h, levels[l][k]))
  }

  /** A gap-free chain of the files listed leads from `a` to `c`. */
  ghost predicate Reaches(levels: seq<seq<LtxFile>>, a: nat, c: nat) {
    exists chain :: RestorePlan.Chain(a, chain, levels, RestorePlan.Target(0, 0)) && RestorePlan.End(a, chain) == c
  }

  lemma ReachesItself(levels: seq<seq<LtxFile>>, a: nat)
    ensures Reaches(levels, a, a)
  {
    assert RestorePlan.Chain(a, [], levels, RestorePlan.Target(0, 0)) && RestorePlan.End(a, []) == a;
  }

  lemma ReachesOn(levels: seq<seq<LtxFile>>, a: nat, c: nat, f: LtxFile)
    requires Reaches(levels, a, c) && f in RestorePlan.Pool(levels) && Follows(f, c)
    ensures Reaches(levels, a, f.max)
  {
    var chain :| RestorePlan.Chain(a, chain, levels, RestorePlan.Target(0, 0)) && RestorePlan.End(a, chain) == c;
    var longer := chain + [f];
    assert longer[..|chain|] == chain;
    forall i | 0 <= i < |longer| ensures RestorePlan.Fits(a, longer, i) {
      if i < |chain| {
        assert RestorePlan.Fits(a, chain, i) && longer[..i] == chain[..i];
      }
    }
    assert RestorePlan.Chain(a, longer, levels, RestorePlan.Target(0, 0)) && RestorePlan.End(a, longer) == f.max;
  }

  lemma {:induction false} EndAppends(a: nat, front: seq<LtxFile>, back: seq<LtxFile>)
    ensures RestorePlan.End(a, front + back) == RestorePlan.End(RestorePlan.End(a, front), back)
  {
    if back == [] {
      assert front + back == front;
    } else {
      var n := |back| - 1;
      EndAppends(a, front, back[..n]);
      assert (front + back)[..|front| + n] == front + back[..n];
    }
  }

  /** A chain that goes on where another ended is one chain. */
  lemma ReachesFurther(levels: seq<seq<LtxFile>>, a: nat, b: nat, c: nat)
    requires Reaches(levels, a, b) && Reaches(levels, b, c)
    ensures Reaches(levels, a, c)
  {
    var front :| RestorePlan.Chain(a, front, levels, RestorePlan.Target(0, 0)) && RestorePlan.End(a, front) == b;
    var back :| RestorePlan.Chain(b, back, levels, RestorePlan.Target(0, 0)) && RestorePlan.End(b, back) == c;
    var chain := front + back;
    forall i | 0 <= i < |chain| ensures RestorePlan.Fits(a, chain, i) {
      if i < |front| {
        assert RestorePlan.Fits(a, front, i) && chain[..i] == front[..i];
      } else {
        var k := i - |front|;
        assert RestorePlan.Fits(b, back, k) && chain[..i] == front + back[..k];
        EndAppends(a, front, back[..k]);
      }
    }
    EndAppends(a, front, back);
    assert RestorePlan.Chain(a, chain, levels, RestorePlan.Target(0, 0));
  }

  /** Where no listed file follows `c`, no chain from `c` or before gets past it. */
  lemma {:induction false} SettledIsFurthest(levels: seq<seq<LtxFile>>, a: nat, c: nat, chain: seq<LtxFile>)
    requires a <= c && forall f :: f in RestorePlan.Pool(levels) ==> !Follows(f, c)
    requires RestorePlan.Chain(a, chain, levels, RestorePlan.Target(0, 0))
    ensures RestorePlan.End(a, chain) <= c
  {
    if chain != [] {
      var n := |chain| - 1;
      forall i | 0 <= i < n ensures RestorePlan.Fits(a, chain[..n], i) {
        assert RestorePlan.Fits(a, chain, i) && chain[..n][..i] == chain[..i];
      }
      SettledIsFurthest(levels, a, c, chain[..n]);
      assert RestorePlan.Fits(a, chain, n) && !Follows(chain[n], c);
    }
  }

  ghost predicate UpTo(levels: seq<seq<LtxFile>>, top: nat) {
    forall l, k :: 0 <= l < |levels| && 0 <= k < |levels[l]| ==> levels[l][k].max <= top
  }

  /** A replica as the store keeps it: levels go up, levels 0 and 1 have no gap, and level 0 goes on from level 1. */
  ghost predicate Dense(levels: seq<seq<LtxFile>>) {
    && |levels| == SNAPSHOT_LEVEL && levels[0] != []
    && (forall l :: 0 <= l < |levels| ==> ReplicaStore.InOrder(levels, l))
    && ReplicaStore.Consecutive(levels[0]) && ReplicaStore.Consecutive(levels[1])
    && levels[0][0].min <= ReplicaStore.MaxId(levels[1]) + 1
    && (forall i :: 0 <= i < |levels[0]| ==> levels[0][i].min == levels[0][i].max)
  }

  /** Every store that a run can reach looks like that to a follower. */
  lemma StoreIsDense(h: seq<Db>, s: ReplicaStore.Store)
    requires ReplicaStore.Good(h, s) && s.levels[0] != []
    ensures Replicated(h, s.levels[..9]) && Dense(s.levels[..9])
  {
    var levels := s.levels[..9];
    forall l | 0 <= l < 9 ensures ReplicaStore.InOrder(levels, l) && Listed(levels[l]) {
      assert ReplicaStore.InOrder(s.levels, l);
    }
    forall l, k | 0 <= l < 9 && 0 <= k < |levels[l]| ensures Faithful(h, levels[l][k]) {
      assert levels[l][k] in s.levels[l];
    }
  }

  /** Level 0 or level 1 still starts by the id after `c`. */
  ghost predicate Covered(levels: seq<seq<LtxFile>>, c: nat)
    requires 1 < |levels|
  {
    || (levels[0] != [] && levels[0][0].min <= c + 1)
    || (levels[1] != [] && levels[1][0].min <= c + 1)
  }

  /** A poll of a dense replica that covers `after` has come to the top. */
  ghost predicate CatchesUp(levels: seq<seq<LtxFile>>, after: nat, cur: nat)
    requires 1 < |levels|
  {
    Dense(levels) && Covered(levels, after) ==> ReplicaStore.MaxId(levels[0]) <= cur
  }

  lemma {:induction false} ConsecutiveFollows(files: seq<LtxFile>, c: nat)
    requires ReplicaStore.Consecutive(files) && files != [] && files[0].min <= c + 1 && c < ReplicaStore.MaxId(files)
    ensures exists k :: 0 <= k < |files| && Follows(files[k], c)
  {
    var n := |files| - 1;
    forall i | 0 < i < n ensures ReplicaStore.Adjoins(files[..n], i) {
      assert ReplicaStore.Adjoins(files, i);
    }
    if n > 0 && c < ReplicaStore.MaxId(files[..n]) {
      ConsecutiveFollows(files[..n], c);
      var k :| 0 <= k < n && Follows(files[..n][k], c);
      assert Follows(files[k], c);
    } else {
      if n > 0 {
        ReplicaStore.MaxIdBounds(files[..n]);
        assert files[n - 1] in files[..n] && ReplicaStore.Adjoins(files, n);
      }
      assert Follows(files[n], c);
    }
  }

  /** The listing of level 0 after `c` on a dense replica: everything past `c`, up to the top. */
  lemma Level0Tail(levels: seq<seq<LtxFile>>, c: nat)
    requires Dense(levels)
    ensures
      var tail, top := Seek(levels[0], c + 1), ReplicaStore.MaxId(levels[0]);
      && ReplicaStore.Consecutive(tail) && (tail == [] <==> top <= c)
      && (tail != [] ==> tail[|tail| - 1].max == top)
      && (tail != [] ==> tail[0].min <= c + 1 || (tail[0].min == levels[0][0].min && c + 1 < levels[0][0].min))
  {
    var files := levels[0];
    assert ReplicaStore.InOrder(levels, 0);
    var k := ReplicaStore.SeekIsSuffix(files, c + 1);
    ReplicaStore.MaxIdIsLast(files);
    ReplicaStore.FrontRemovedOrder(files, k);
    if 0 < k < |files| {
      assert ReplicaStore.Adjoins(files, k);
    }
  }

  /** On a dense replica that covers `after`, bridging from level 1 never stops before level 0 goes on. */
  lemma BridgeHolds(levels: seq<seq<LtxFile>>, after: nat, cur: nat)
    requires Dense(levels) && Covered(levels, after) && after <= cur && after + 1 < levels[0][0].min
    requires LevelFollows(levels, 1, after) ==> !LevelFollows(levels, 1, cur)
    ensures levels[0][0].min <= cur + 1
  {
    ConsecutiveFollows(levels[1], after);
    if cur < ReplicaStore.MaxId(levels[1]) {
      ConsecutiveFollows(levels[1], cur);
    }
  }

  lemma DenseIsUpTo(levels: seq<seq<LtxFile>>)
    requires Dense(levels)
    ensures UpTo(levels, ReplicaStore.MaxId(levels[0]))
  {
    forall l, k | 0 <= l < |levels| && 0 <= k < |levels[l]| ensures levels[l][k].max <= ReplicaStore.MaxId(levels[0]) {
      ReplicaStore.MaxIdBounds(levels[l]);
      assert levels[l][k] in levels[l] && ReplicaStore.InOrder(levels, l);
    }
  }

  /** The first `k` files end by `c`. */
  ghost predicate Behind(files: seq<LtxFile>, k: nat, c: nat)
    requires k <= |files|
  {
    forall j :: 0 <= j < k ==> files[j].max <= c
  }

  /** With the first files behind and the next one beyond a gap, no file of the level follows. */
  lemma NoneFollows(levels: seq<seq<LtxFile>>, level: nat, k: nat, c: nat)
    requires level < |levels| && Listed(levels[level]) && k <= |levels[level]| && Behind(levels[level], k, c)
    requires k < |levels[level]| ==> c + 1 < levels[level][k].min
    ensures !LevelFollows(levels, level, c)
  {
    var files := levels[level];
    forall j | 0 <= j < |files| ensures !Follows(files[j], c) {
      assert k < j ==> NameLess(files[k], files[j]);
    }
  }

  class Follower {
    ghost const h: seq<Db>
    const pageSize: nat
    var file: seq<Page>
    var savedTxid: nat
    ghost var high: nat

    /** The file tracks the saved id. This is what a restart after a crash finds. */
    ghost predicate Valid()
      reads this
    {
      History(h) && Tracks(file, h, savedTxid, high)
    }

    constructor (ghost h: seq<Db>, pageSize: nat, file: seq<Page>, txid: nat)
      requires History(h) && txid < |h| && InState(file, h[txid])
      ensures this.h == h && this.file == file && savedTxid == txid && high == txid
      ensures Valid()
    {
      this.h, this.pageSize, this.file, this.savedTxid, this.high := h, pageSize, file, txid, txid;
    }

    method WriteAt(p: nat, data: Page)
      requires 1 <= p
      modifies this`file
      ensures |file| == Max(|old(file)|, p) && file[p - 1] == data
      ensures forall i :: 0 <= i < |old(file)| && i != p - 1 ==> file[i] == old(file)[i]
    {
      var longer := if p <= |file| then file else Resize(file, p, pageSize);
      file := longer[p - 1 := data];
    }

    /**
      Writes the pages of a file and cuts the result to size; it may stop with an error between any two steps, if
      there are faults.
     */
    method ApplyLtxFile(f: LtxFile, faulty: bool) returns (ok: bool, ghost mid: seq<Page>, ghost written: set<nat>)
      requires 0 !in f.pages
      modifies this`file
      ensures Overwritten(old(file), mid, f.pages, written)
      ensures file == mid || (0 < f.commit && file == Resize(mid, f.commit, pageSize))
      ensures !faulty ==> ok
      ensures 1 in written && 28 <= |f.pages[1]| ==> mid != [] && Stamped(mid[0])
      ensures ok ==> written == f.pages.Keys && (0 < f.commit ==> file == Resize(mid, f.commit, pageSize))
    {
      ok, mid, written := false, file, {};
      var todo := f.pages.Keys;
      while todo != {}
        invariant todo <= f.pages.Keys && written == f.pages.Keys - todo
        invariant mid == file && Overwritten(old(file), file, f.pages, written)
        invariant 1 in written && 28 <= |f.pages[1]| ==> file != [] && Stamped(file[0])
        decreases todo
      {
        if faulty {
          if * {
            return;
          }
        }
        var p :| p in todo;
        assert |[0, 0, 0, 0]| == 4;
        var random: seq<int> :| |random| == 4;
        WriteAt(p, Patched(p, f.pages[p], random));
        mid, todo, written := file, todo - {p}, written + {p};
      }
      if faulty {
        if * {
          return;
        }
      }
      if 0 < f.commit {
        file := Resize(file, f.commit, pageSize);
      }
      if faulty {
        if * {
          return;
        }
      }
      ok := true;
    }

    /** Applying a faithful file that follows `c` moves the file on, or leaves it at `c` under a higher mark. */
    method Advance(f: LtxFile, c: nat, faulty: bool) returns (ok: bool)
      requires History(h) && Faithful(h, f) && Follows(f, c) && Tracks(file, h, c, high)
      modifies this`file, this`high
      ensures !faulty ==> ok
      ensures high == Max(old(high), f.max)
      ensures Tracks(file, h, if ok then f.max else c, high)
    {
      ghost var was := file;
      ghost var mid, written;
      assert WellFormed(h[f.max]);
      ok, mid, written := ApplyLtxFile(f, faulty);
      TornKeeps(h, was, mid, f, written, c, high);
      CutKeeps(h, mid, f.commit, pageSize, f.max, c, Max(high, f.max));
      if ok {
        FinishedAdvances(h, was, mid, f, pageSize, c, high);
      }
      high := Max(high, f.max);
    }

    /** Applies a listed file that follows `c`: the chain from `origin` goes on over it. */
    method AdvanceOn(
      levels: seq<seq<LtxFile>>, level: nat, k: nat, c: nat, faulty: bool, ghost origin: nat, ghost top: nat)
      returns (ok: bool)
      requires Replicated(h, levels) && level < |levels| && k < |levels[level]| && UpTo(levels, top)
      requires Follows(levels[level][k], c) && Tracks(file, h, c, high) && Reaches(levels, origin, c)
      modifies this`file, this`high
      ensures !faulty ==> ok
      ensures high == Max(old(high), levels[level][k].max) && high <= Max(old(high), top)
      ensures Tracks(file, h, if ok then levels[level][k].max else c, high)
      ensures Reaches(levels, origin, levels[level][k].max)
    {
      var info := levels[level][k];
      ok := Advance(info, c, faulty);
      assert info in levels[level];
      ReachesOn(levels, origin, c, info);
    }

    /** Applies the files of one level from `after` on, until a gap or until `gapMin` is bridged. */
    method FillFromLevel(
      levels: seq<seq<LtxFile>>, level: nat, after: nat, gapMin: nat, faulty: bool, ghost origin: nat, ghost top: nat)
      returns (cur: nat, ok: bool, bridged: bool)
      requires Replicated(h, levels) && level < |levels| && UpTo(levels, top)
      requires Tracks(file, h, after, high) && Reaches(levels, origin, after)
      modifies this`file, this`high
      ensures after <= cur && Tracks(file, h, cur, high) && Reaches(levels, origin, cur)
      ensures !faulty ==> ok
      ensures old(high) <= high <= Max(old(high), top) && (ok ==> high == Max(old(high), cur))
      ensures ok ==> (after < cur <==> LevelFollows(levels, level, after))
      ensures ok && !bridged ==> !LevelFollows(levels, level, cur)
      ensures bridged ==> after < cur && gapMin <= cur + 1
    {
      cur, ok, bridged := after, true, false;
      var files := levels[level];
      var k := 0;
      while k < |files|
        invariant 0 <= k <= |files| && after <= cur && high == Max(old(high), cur) && high <= Max(old(high), top)
        invariant ok && !bridged && Tracks(file, h, cur, high) && Reaches(levels, origin, cur)
        invariant Behind(files, k, cur)
        invariant after < cur ==> LevelFollows(levels, level, after)
      {
        var info := files[k];
        if info.min > cur + 1 {
          NoneFollows(levels, level, k, cur);
          return;
        }
        k := k + 1;
        if info.max <= cur {
          continue;
        }
        ok := AdvanceOn(levels, level, k - 1, cur, faulty, origin, top);
        if !ok {
          return;
        }
        assert cur == after ==> Follows(files[k - 1], after);
        cur := info.max;
        if cur + 1 >= gapMin {
          bridged := true;
          return;
        }
      }
      NoneFollows(levels, level, k, cur);
    }

    /** Looks for files that follow `after` at levels 1 to 8, and applies those of the lowest such level. */
    method FillFollowGap(
      levels: seq<seq<LtxFile>>, after: nat, gapMin: nat, faulty: bool, ghost origin: nat, ghost top: nat)
      returns (cur: nat, ok: bool)
      requires Replicated(h, levels) && UpTo(levels, top)
      requires Tracks(file, h, after, high) && Reaches(levels, origin, after)
      modifies this`file, this`high
      ensures after <= cur && Tracks(file, h, cur, high) && Reaches(levels, origin, cur)
      ensures !faulty ==> ok
      ensures old(high) <= high <= Max(old(high), top) && (ok ==> high == Max(old(high), cur))
      ensures ok ==> (after < cur <==> HigherFollows(levels, after))
      ensures ok && cur + 1 < gapMin && LevelFollows(levels, 1, after) ==> !LevelFollows(levels, 1, cur)
    {
      cur, ok := after, true;
      for level := 1 to SNAPSHOT_LEVEL
        invariant ok && cur == after && Tracks(file, h, cur, high) && high == Max(old(high), cur) == old(high)
        invariant forall l :: 1 <= l < level ==> !LevelFollows(levels, l, after)
      {
        var bridged;
        cur, ok, bridged := FillFromLevel(levels, level, after, gapMin, faulty, origin, top);
        if !ok || bridged || cur > after {
          return;
        }
      }
    }

    /** One level 0 file: a gap before it is bridged from above if possible, and it is applied if still needed. */
    method TakeLevel0(
      levels: seq<seq<LtxFile>>, info: LtxFile, from: nat, faulty: bool, ghost origin: nat, ghost top: nat)
      returns (cur: nat, ok: bool, stop: bool)
      requires Replicated(h, levels) && UpTo(levels, top) && info in levels[0]
      requires Tracks(file, h, from, high) && Reaches(levels, origin, from)
      modifies this`file, this`high
      ensures from <= cur && Tracks(file, h, cur, high) && Reaches(levels, origin, cur)
      ensures !faulty ==> ok
      ensures old(high) <= high <= Max(old(high), top) && (ok ==> high == Max(old(high), cur))
      ensures ok && !stop ==> info.max <= cur
      ensures ok && stop ==> from + 1 < info.min && cur + 1 < info.min && (from < cur <==> HigherFollows(levels, from))
      ensures ok && stop && LevelFollows(levels, 1, from) ==> !LevelFollows(levels, 1, cur)
      ensures ok && from < cur ==> Follows(info, from) || HigherFollows(levels, from)
    {
      cur, ok, stop := from, true, false;
      if info.min > cur + 1 {
        cur, ok := FillFollowGap(levels, from, info.min, faulty, origin, top);
        if !ok || info.max <= cur {
          return;
        }
        if info.min > cur + 1 {
          stop := true;
          return;
        }
      }
      if info.max <= cur {
        return;
      }
      ok := Advance(info, cur, faulty);
      if ok {
        ReachesOn(levels, origin, cur, info);
        cur := info.max;
      }
    }

    /** One poll: level 0 from the next id on, with gaps bridged from the levels above. */
    method ApplyNewLtxFiles(levels: seq<seq<LtxFile>>, after: nat, faulty: bool, ghost top: nat)
      returns (cur: nat, ok: bool)
      requires Replicated(h, levels) && UpTo(levels, top) && Tracks(file, h, after, high)
      modifies this`file, this`high
      ensures after <= cur && Tracks(file, h, cur, high) && Reaches(levels, after, cur)
      ensures !faulty ==> ok
      ensures old(high) <= high <= Max(old(high), top) && (ok ==> high == Max(old(high), cur))
      ensures ok ==> (after < cur <==> CanAdvance(levels, after))
      ensures ok ==> CatchesUp(levels, after, cur)
    {
      var level0 := Seek(levels[0], after + 1);
      SeekKeepsOrder(levels[0], after + 1);
      FirstDecides(levels, level0, after);
      if level0 == [] {
        ReachesItself(levels, after);
        cur, ok := FillFollowGap(levels, after, after + 1, faulty, after, top);
        TailEnds(levels, after, cur);
      } else {
        cur, ok := ApplyLevel0(levels, level0, after, faulty, top);
      }
    }

    /** Applies the files of level 0 after an id in order, until one is beyond a gap that cannot be bridged. */
    method ApplyLevel0(levels: seq<seq<LtxFile>>, level0: seq<LtxFile>, after: nat, faulty: bool, ghost top: nat)
      returns (cur: nat, ok: bool)
      requires Replicated(h, levels) && UpTo(levels, top) && Tracks(file, h, after, high)
      requires level0 == Seek(levels[0], after + 1) && level0 != [] && forall f :: f in level0 ==> f in levels[0]
      requires CanAdvance(levels, after) <==> level0[0].min == after + 1 || HigherFollows(levels, after)
      requires after < level0[0].max && after + 1 <= level0[0].min
      modifies this`file, this`high
      ensures after <= cur && Tracks(file, h, cur, high) && Reaches(levels, after, cur)
      ensures !faulty ==> ok
      ensures old(high) <= high <= Max(old(high), top) && (ok ==> high == Max(old(high), cur))
      ensures ok ==> (after < cur <==> CanAdvance(levels, after))
      ensures ok ==> CatchesUp(levels, after, cur)
    {
      cur, ok := after, true;
      ReachesItself(levels, after);
      for i := 0 to |level0|
        invariant ok && after <= cur && Tracks(file, h, cur, high) && Reaches(levels, after, cur)
        invariant high == Max(old(high), cur) && high <= Max(old(high), top)
        invariant if i == 0 then cur == after else after < cur && CanAdvance(levels, after) && level0[i - 1].max <= cur
      {
        assert level0[i] in level0;
        var stop;
        ghost var from := cur;
        cur, ok, stop := TakeLevel0(levels, level0[i], cur, faulty, after, top);
        if !ok {
          return;
        }
        if stop {
          StopsUncovered(levels, after, from, cur, i);
          return;
        }
      }
      TailEnds(levels, after, cur);
    }

    /** After all of level 0's tail was applied or covered, the top is reached. */
    lemma TailEnds(levels: seq<seq<LtxFile>>, after: nat, cur: nat)
      requires 0 < |levels| && after <= cur
      requires var tail := Seek(levels[0], after + 1); tail != [] ==> tail[|tail| - 1].max <= cur
      ensures 1 < |levels| ==> CatchesUp(levels, after, cur)
    {
      if Dense(levels) {
        Level0Tail(levels, after);
      }
    }

    /** On a dense replica that covers the id, level 0 is never left for a gap. */
    lemma NeverStops(levels: seq<seq<LtxFile>>, after: nat, from: nat, cur: nat, i: nat)
      requires Dense(levels) && Covered(levels, after) && i < |Seek(levels[0], after + 1)| && after <= from <= cur
      requires if i == 0 then from == after else Seek(levels[0], after + 1)[i - 1].max <= from
      requires LevelFollows(levels, 1, from) ==> !LevelFollows(levels, 1, cur)
      ensures Seek(levels[0], after + 1)[i].min <= cur + 1
    {
      Level0Tail(levels, after);
      if 0 < i {
        assert ReplicaStore.Adjoins(Seek(levels[0], after + 1), i);
      } else if after + 1 < levels[0][0].min {
        BridgeHolds(levels, after, cur);
      }
    }

    lemma StopsUncovered(levels: seq<seq<LtxFile>>, after: nat, from: nat, cur: nat, i: nat)
      requires 1 < |levels| && i < |Seek(levels[0], after + 1)| && after <= from <= cur
      requires if i == 0 then from == after else Seek(levels[0], after + 1)[i - 1].max <= from
      requires LevelFollows(levels, 1, from) ==> !LevelFollows(levels, 1, cur)
      requires cur + 1 < Seek(levels[0], after + 1)[i].min
      ensures CatchesUp(levels, after, cur)
    {
      if Dense(levels) && Covered(levels, after) {
        NeverStops(levels, after, from, cur, i);
      }
    }

    /** Whether a poll can advance shows at the first level 0 file after the id. */
    lemma FirstDecides(levels: seq<seq<LtxFile>>, level0: seq<LtxFile>, after: nat)
      requires Replicated(h, levels) && Listed(level0)
      requires forall f :: f in level0 <==> f in levels[0] && after + 1 <= f.min
      ensures CanAdvance(levels, after) <==>
        (level0 != [] && level0[0].min == after + 1) || HigherFollows(levels, after)
      ensures level0 != [] ==> after < level0[0].max && after + 1 <= level0[0].min
    {
      if level0 != [] {
        assert level0[0] in levels[0];
        forall f | f in levels[0] && f.min == after + 1 ensures level0[0].min == after + 1 {
          var k :| 0 <= k < |level0| && level0[k] == f;
          assert 0 < k ==> NameLess(level0[0], level0[k]);
        }
      }
    }

    /** One turn of the follow loop: the saved id moves only when the whole poll went well. */
    method Poll(levels: seq<seq<LtxFile>>, faulty: bool, ghost top: nat) returns (ok: bool)
      requires Valid() && Replicated(h, levels) && UpTo(levels, top)
      modifies this
      ensures Valid() && old(high) <= high <= Max(old(high), top)
      ensures !faulty ==> ok
      ensures !ok ==> savedTxid == old(savedTxid)
      ensures ok ==> old(savedTxid) <= savedTxid && high == Max(old(high), savedTxid)
      ensures ok ==> Reaches(levels, old(savedTxid), savedTxid)
      ensures ok ==> (old(savedTxid) < savedTxid <==> CanAdvance(levels, old(savedTxid)))
      ensures ok && Dense(levels) && Covered(levels, old(savedTxid)) ==>
        savedTxid == Max(old(savedTxid), ReplicaStore.MaxId(levels[0]))
    {
      var cur;
      cur, ok := ApplyNewLtxFiles(levels, savedTxid, faulty, top);
      if Dense(levels) {
        DenseIsUpTo(levels);
        ReachesBounded(levels, savedTxid, cur, ReplicaStore.MaxId(levels[0]));
      }
      if ok && savedTxid < cur {
        savedTxid := cur;
      } else {
        TracksEarlier(file, h, savedTxid, cur, high);
      }
    }
  }

  lemma ReachesBounded(levels: seq<seq<LtxFile>>, a: nat, c: nat, top: nat)
    requires Reaches(levels, a, c) && UpTo(levels, top)
    ensures c <= Max(a, top)
  {
    var chain :| RestorePlan.Chain(a, chain, levels, RestorePlan.Target(0, 0)) && RestorePlan.End(a, chain) == c;
    SettledIsFurthest(levels, a, Max(a, top), chain);
  }

  /** A poll that can go no further has got as far as any chain of the listed files could. */
  lemma NothingFurther(levels: seq<seq<LtxFile>>, a: nat, c: nat, b: nat)
    requires Dense(levels) && a <= c && !CanAdvance(levels, c) && Reaches(levels, a, b)
    ensures b <= c
  {
    forall f | f in RestorePlan.Pool(levels) ensures !Follows(f, c) {
      var l :| 0 <= l < |levels| && f in levels[l];
      var k :| 0 <= k < |levels[l]| && levels[l][k] == f;
      if l == 0 {
        assert levels[0][k].min == levels[0][k].max;
      } else {
        assert !LevelFollows(levels, l, c);
      }
    }
    var chain :| RestorePlan.Chain(a, chain, levels, RestorePlan.Target(0, 0)) && RestorePlan.End(a, chain) == b;
    SettledIsFurthest(levels, a, c, chain);
  }

  /**
    Polling one dense listing without a fault until it no longer moves: the saved id is then the furthest that any
    chain of the listed files reaches from the id at the start, and the file is that state once past what was written.
   */
  method Settle(follower: Follower, levels: seq<seq<LtxFile>>, ghost top: nat)
    requires follower.Valid() && Replicated(follower.h, levels) && Dense(levels) && UpTo(levels, top)
    modifies follower
    ensures follower.Valid() && Reaches(levels, old(follower.savedTxid), follower.savedTxid)
    ensures forall b: nat :: Reaches(levels, old(follower.savedTxid), b) ==> b <= follower.savedTxid
    ensures old(follower.high) <= follower.savedTxid ==> InState(follower.file, follower.h[follower.savedTxid])
  {
    ghost var start, high := follower.savedTxid, follower.high;
    ReachesItself(levels, start);
    while true
      invariant follower.Valid() && start <= follower.savedTxid && Reaches(levels, start, follower.savedTxid)
      invariant follower.high == Max(high, follower.savedTxid)
      decreases Max(start, top) - follower.savedTxid
    {
      var before := follower.savedTxid;
      var _ := follower.Poll(levels, false, top);
      if follower.savedTxid == before {
        break;
      }
      ReachesFurther(levels, start, before, follower.savedTxid);
      ReachesBounded(levels, start, follower.savedTxid, top);
    }
    forall b: nat | Reaches(levels, start, b) ensures b <= follower.savedTxid {
      NothingFurther(levels, start, follower.savedTxid, b);
    }
  }

  /**
    However many polls stopped anywhere, one poll without a fault of a replica that still covers the id at the start
    leaves the file in the latest state stored, provided nothing later was ever on it.
   */
  method FollowRun(follower: Follower, polls: seq<seq<seq<LtxFile>>>, faults: seq<bool>, ghost top: nat)
    requires |faults| == |polls| && follower.Valid()
    requires forall i :: 0 <= i < |polls| ==> Replicated(follower.h, polls[i]) && UpTo(polls[i], top)
    modifies follower
    ensures follower.Valid() && old(follower.savedTxid) <= follower.savedTxid
    ensures follower.high <= Max(old(follower.high), top)
    ensures polls != [] && !faults[|polls| - 1] ==>
      Latest(polls[|polls| - 1], old(follower.savedTxid), old(follower.high), top) ==>
      follower.savedTxid == top && InState(follower.file, follower.h[top])
  {
    for i := 0 to |polls|
      invariant follower.Valid() && old(follower.savedTxid) <= follower.savedTxid
      invariant follower.high <= Max(old(follower.high), top)
      invariant 0 < i && !faults[i - 1] && Latest(polls[i - 1], old(follower.savedTxid), old(follower.high), top) ==>
        follower.savedTxid == follower.high == top
    {
      var _ := follower.Poll(polls[i], faults[i], top);
    }
  }

  /** A dense replica that ends at `top`, still covers a follower at `saved`, and is not behind what was written. */
  ghost predicate Latest(levels: seq<seq<LtxFile>>, saved: nat, high: nat, top: nat) {
    Dense(levels) && Covered(levels, saved) && high <= top == ReplicaStore.MaxId(levels[0])
  }
}
