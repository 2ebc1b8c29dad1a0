/**
  Restore planning: nine sorted listings are merged and files are picked greedily.
  The planner is proved to find a plan exactly when one exists, and to use the fewest files.
 */
module RestorePlan {
  import opened Wrappers
  import opened Ltx

  /** What to restore: a transaction id, everything before a time, or (both zero) the latest state. */
  datatype Target = Target(txid: nat, before: int)

  datatype PlanError =
    | BothGiven
    | TxNotAvailable
    | NonContiguous(have: nat, next: nat)

  predicate Eligible(f: LtxFile, target: Target) {
    && (target.txid == 0 || f.max <= target.txid)
    && (target.before == 0 || f.createdAt < target.before)
  }

  /** True when `next` is the better of two candidates. */
  predicate Better(curr: LtxFile, next: LtxFile) {
    if next.max != curr.max then next.max > curr.max
    else if next.min != curr.min then next.min < curr.min
    else if next.level != curr.level then next.level > curr.level
    else next.createdAt < curr.createdAt
  }

  // ---------------------------------------------------------------------------------------------
  // Chains: the reference notion the planner is measured against.

  /** The last transaction id held after applying `chain` to a database at id `start`. */
  function End(start: nat, chain: seq<LtxFile>): nat {
    if chain == [] then start
    else
      var n := |chain| - 1;
      Max(End(start, chain[..n]), chain[n].max)
  }

  /** Every file of the chain starts no later than one past what is held when it is applied. */
  ghost predicate GapFree(start: nat, chain: seq<LtxFile>) {
    forall i :: 0 <= i < |chain| ==> Fits(start, chain, i)
  }

  ghost predicate Fits(start: nat, chain: seq<LtxFile>, i: nat)
    requires i < |chain|
  {
    chain[i].min <= End(start, chain[..i]) + 1
  }

  ghost function Pool(levels: seq<seq<LtxFile>>): set<LtxFile> {
    set i, f | 0 <= i < |levels| && f in levels[i] :: f
  }

  /** A gap-free chain of eligible files. */
  ghost predicate Chain(start: nat, chain: seq<LtxFile>, levels: seq<seq<LtxFile>>, target: Target) {
    && (forall i :: 0 <= i < |chain| ==> chain[i] in Pool(levels) && Eligible(chain[i], target))
    && GapFree(start, chain)
  }

  /** The snapshot the planner starts from: the last eligible one in the listing. */
  function ChooseSnapshot(snapshots: seq<LtxFile>, target: Target): Option<LtxFile> {
    if snapshots == [] then None
    else
      var n := |snapshots| - 1;
      if Eligible(snapshots[n], target) then Some(snapshots[n]) else ChooseSnapshot(snapshots[..n], target)
  }

  function Start(snapshots: seq<LtxFile>, target: Target): nat {
    var s := ChooseSnapshot(snapshots, target);
    if s.Some? then s.value.max else 0
  }

  function Head(snapshots: seq<LtxFile>, target: Target): seq<LtxFile> {
    var s := ChooseSnapshot(snapshots, target);
    if s.Some? then [s.value] else []
  }

  // ---------------------------------------------------------------------------------------------
  // The greedy invariant.

  function At(start: nat, picks: seq<LtxFile>): nat {
    if picks == [] then start else picks[|picks| - 1].max
  }

  /** No eligible file that starts by `c + 1` ends after `bound`. */
  ghost predicate Bounded(c: nat, bound: nat, pool: set<LtxFile>, target: Target) {
    forall g :: g in pool && Eligible(g, target) && g.min <= c + 1 ==> g.max <= bound
  }

  /** No eligible file that extends what is held at `c` is better than `f`. */
  ghost predicate NoneBetter(c: nat, f: LtxFile, pool: set<LtxFile>, target: Target) {
    forall g :: g in pool && Eligible(g, target) && g.min <= c + 1 && c < g.max ==> !Better(f, g)
  }

  /** Pick `i` extends what is held, and no eligible file would have been a better pick. */
  ghost predicate Picked(start: nat, picks: seq<LtxFile>, pool: set<LtxFile>, target: Target, i: nat)
    requires i < |picks|
  {
    var c := At(start, picks[..i]);
    && picks[i] in pool && Eligible(picks[i], target)
    && picks[i].min <= c + 1 && c < picks[i].max
    && NoneBetter(c, picks[i], pool, target)
  }

  ghost predicate Greedy(start: nat, picks: seq<LtxFile>, pool: set<LtxFile>, target: Target) {
    forall i :: 0 <= i < |picks| ==> Picked(start, picks, pool, target, i)
  }

  lemma GreedyFront(start: nat, picks: seq<LtxFile>, pool: set<LtxFile>, target: Target, n: nat)
    requires Greedy(start, picks, pool, target) && n <= |picks|
    ensures Greedy(start, picks[..n], pool, target)
  {
    forall i | 0 <= i < n ensures Picked(start, picks[..n], pool, target, i) {
      assert Picked(start, picks, pool, target, i) && picks[..n][..i] == picks[..i];
    }
  }

  lemma {:induction false} GreedyEnd(start: nat, picks: seq<LtxFile>, pool: set<LtxFile>, target: Target)
    requires Greedy(start, picks, pool, target)
    ensures End(start, picks) == At(start, picks)
  {
    if picks != [] {
      var n := |picks| - 1;
      GreedyFront(start, picks, pool, target, n);
      GreedyEnd(start, picks[..n], pool, target);
      assert Picked(start, picks, pool, target, n);
    }
  }

  lemma {:induction false} GreedyIsGapFree(start: nat, picks: seq<LtxFile>, pool: set<LtxFile>, target: Target)
    requires Greedy(start, picks, pool, target)
    ensures GapFree(start, picks)
  {
    forall i | 0 <= i < |picks| ensures Fits(start, picks, i) {
      GreedyFront(start, picks, pool, target, i);
      GreedyEnd(start, picks[..i], pool, target);
      assert Picked(start, picks, pool, target, i);
    }
  }

  lemma {:induction false} AtMonotone(start: nat, picks: seq<LtxFile>, pool: set<LtxFile>, target: Target, k: nat)
    requires Greedy(start, picks, pool, target) && k < |picks|
    ensures At(start, picks[..k]) < At(start, picks)
    decreases |picks| - k
  {
    assert Picked(start, picks, pool, target, k) && picks[..k + 1][k] == picks[k];
    if k + 1 == |picks| {
      assert picks[..k + 1] == picks;
    } else {
      AtMonotone(start, picks, pool, target, k + 1);
    }
  }

  /** A file that a chain behind the greedy position could take ends no later than the pick there. */
  lemma PickCovers(c: nat, e: nat, f: LtxFile, g: LtxFile, pool: set<LtxFile>, target: Target)
    requires NoneBetter(c, f, pool, target) && e <= c < f.max
    requires g in pool && Eligible(g, target) && g.min <= e + 1
    ensures g.max <= f.max
  {
    assert c < g.max ==> !Better(f, g);
  }

  /** After k files no chain is ahead of the k-th greedy position. */
  lemma {:induction false} GreedyStaysAhead(
    start: nat, picks: seq<LtxFile>, chain: seq<LtxFile>, levels: seq<seq<LtxFile>>, target: Target, k: nat)
    requires Greedy(start, picks, Pool(levels), target)
    requires Chain(start, chain, levels, target) && k <= |chain| && k <= |picks|
    ensures End(start, chain[..k]) <= At(start, picks[..k])
  {
    if k > 0 {
      GreedyStaysAhead(start, picks, chain, levels, target, k - 1);
      assert chain[..k][..k - 1] == chain[..k - 1];
      assert Picked(start, picks, Pool(levels), target, k - 1) && Fits(start, chain, k - 1);
      var c, e := At(start, picks[..k - 1]), End(start, chain[..k - 1]);
      PickCovers(c, e, picks[k - 1], chain[k - 1], Pool(levels), target);
    }
  }

  /** No chain gets past the position at which the greedy choice stops. */
  lemma {:induction false} NoChainGetsFurther(
    start: nat, picks: seq<LtxFile>, chain: seq<LtxFile>, levels: seq<seq<LtxFile>>, target: Target, k: nat)
    requires Greedy(start, picks, Pool(levels), target)
    requires Bounded(At(start, picks), At(start, picks), Pool(levels), target)
    requires Chain(start, chain, levels, target) && k <= |chain|
    ensures End(start, chain[..k]) <= At(start, picks)
  {
    if k == 0 {
      if picks != [] {
        AtMonotone(start, picks, Pool(levels), target, 0);
      }
    } else {
      NoChainGetsFurther(start, picks, chain, levels, target, k - 1);
      assert chain[..k][..k - 1] == chain[..k - 1];
      assert chain[k - 1] in Pool(levels) && Fits(start, chain, k - 1);
    }
  }

  /** A chain that reaches as far as the greedy picks has at least as many files. */
  lemma GreedyIsFewest(
    start: nat, picks: seq<LtxFile>, chain: seq<LtxFile>, levels: seq<seq<LtxFile>>, target: Target)
    requires Greedy(start, picks, Pool(levels), target)
    requires Chain(start, chain, levels, target) && At(start, picks) <= End(start, chain)
    ensures |picks| <= |chain|
  {
    var k := |chain|;
    if k < |picks| {
      GreedyStaysAhead(start, picks, chain, levels, target, k);
      assert chain[..k] == chain;
      AtMonotone(start, picks, Pool(levels), target, k);
      assert false;
    }
  }

  // ---------------------------------------------------------------------------------------------
  // One cursor per level.

  class RestoreLevelCursor {
    ghost const files: seq<LtxFile>
    ghost var read: nat
    var itr: seq<LtxFile>
    var current: Option<LtxFile>
    var candidate: Option<LtxFile>
    var done: bool

    constructor (listing: seq<LtxFile>)
      ensures files == listing && read == 0 && itr == listing
      ensures current == None && candidate == None && !done
    {
      files, read, itr, current, candidate, done := listing, 0, listing, None, None, false;
    }

    /** How many files of the listing have been evaluated: those read, less the one held in `current`. */
    ghost function Evaluated(): int
      reads this
    {
      if current.Some? then read - 1 else read
    }

    /** Twice the files not yet evaluated plus the candidate: no step of a cursor adds to it. */
    ghost function Work(): nat
      reads this
    {
      2 * Max(0, |files| - Evaluated()) + if candidate.Some? then 1 else 0
    }

    /**
      Everything evaluated is accounted for at position `c`: no evaluated eligible file that ends after
      `c` is better than the candidate. A cursor that is done may keep a candidate that ends by `c`.
     */
    ghost predicate Valid(c: nat, target: Target)
      reads this
    {
      && read <= |files| && itr == files[read..]
      && (current.Some? ==> 0 < read && current.value == files[read - 1])
      && (done ==> Evaluated() == |files|)
      && (candidate.Some? ==>
            candidate.value in files && Eligible(candidate.value, target) && candidate.value.min <= c + 1)
      && (forall k :: 0 <= k < Evaluated() ==> Accounted(files[k], c, target, candidate))
    }

    /** All files that could follow position `c` have been evaluated. */
    ghost predicate Fresh(c: nat)
      reads this
    {
      forall k :: 0 <= Evaluated() <= k < |files| ==> c + 1 < files[k].min
    }

    method EnsureCurrent(ghost c: nat, ghost target: Target)
      requires Valid(c, target)
      modifies this
      ensures Valid(c, target)
      ensures Evaluated() == old(Evaluated()) && candidate == old(candidate)
      ensures done || current.Some?
      ensures old(done) ==> done
    {
      if done || current.Some? {
        return;
      }
      if itr == [] {
        done := true;
        return;
      }
      current, itr, read := Some(itr[0]), itr[1..], read + 1;
    }

    /** Advances until every file that could be contiguous with `c` has been evaluated. */
    method Refresh(c: nat, target: Target)
      requires Valid(c, target) && Listed(files)
      modifies this
      ensures Valid(c, target) && Fresh(c)
      ensures Work() <= old(Work())
    {
      if done {
        return;
      }
      if candidate.Some? && candidate.value.max <= c {
        candidate := None;
      }
      while true
        invariant Valid(c, target) && !done
        invariant Work() <= old(Work())
        decreases |files| - Evaluated()
      {
        EnsureCurrent(c, target);
        if done {
          return;
        }
        if current.value.min > c + 1 {
          assert forall k :: read <= k < |files| ==> NameLess(files[read - 1], files[k]);
          return;
        }
        Evaluate(c, target);
      }
    }

    /** Takes the current file off the front and keeps it if it is the best so far. */
    method Evaluate(c: nat, target: Target)
      requires Valid(c, target) && !done && current.Some? && current.value.min <= c + 1
      modifies this
      ensures Valid(c, target) && !done
      ensures Work() < old(Work()) && Evaluated() == old(Evaluated()) + 1
    {
      var info := current.value;
      current := None;
      if info.max <= c {
        return;
      }
      if !Eligible(info, target) {
        return;
      }
      if candidate == None || Better(candidate.value, info) {
        candidate := Some(info);
      }
    }

    /** What is accounted for stays so at any later position. */
    lemma ValidLater(c: nat, d: nat, target: Target)
      requires Valid(c, target) && c <= d
      ensures Valid(d, target)
    {
    }

    /** Hands out the candidate; what is held then moves up to its end. */
    method Take(c: nat, target: Target) returns (file: LtxFile)
      requires Valid(c, target) && candidate.Some?
      modifies this
      ensures file == old(candidate.value) && file in files && Eligible(file, target) && file.min <= c + 1
      ensures Valid(Max(c, file.max), target) && Work() < old(Work())
    {
      file := candidate.value;
      candidate := None;
    }
  }

  ghost predicate Accounted(f: LtxFile, c: nat, target: Target, candidate: Option<LtxFile>) {
    && f.min <= c + 1
    && (Eligible(f, target) && c < f.max ==> candidate.Some? && !Better(candidate.value, f))
  }

  // ---------------------------------------------------------------------------------------------
  // The planner.

  function Sum(ms: seq<nat>): nat {
    if ms == [] then 0 else Sum(ms[..|ms| - 1]) + ms[|ms| - 1]
  }

  lemma {:induction false} SumLess(ms: seq<nat>, ns: seq<nat>, k: int)
    requires |ms| == |ns| && k < |ms|
    requires forall i :: 0 <= i < |ms| ==> ms[i] <= ns[i]
    requires 0 <= k ==> ms[k] < ns[k]
    ensures Sum(ms) <= Sum(ns) && (0 <= k ==> Sum(ms) < Sum(ns))
  {
    if ms != [] {
      var n := |ms| - 1;
      SumLess(ms[..n], ns[..n], if k == n then -1 else k);
    }
  }

  ghost function Works(cursors: seq<RestoreLevelCursor>): (ws: seq<nat>)
    reads cursors
    ensures |ws| == |cursors|
  {
    seq(|cursors|, i requires 0 <= i < |cursors| reads cursors => cursors[i].Work())
  }

  ghost predicate Distinct(cursors: seq<RestoreLevelCursor>) {
    forall i, j :: 0 <= i < j < |cursors| ==> cursors[i] != cursors[j]
  }

  ghost predicate AllValid(cursors: seq<RestoreLevelCursor>, c: nat, target: Target)
    reads cursors
  {
    forall i :: 0 <= i < |cursors| ==> cursors[i].Valid(c, target)
  }

  /** Cursor `next` holds a candidate that none of the first `n` cursors betters; -1 when none holds any. */
  ghost predicate Leads(cursors: seq<RestoreLevelCursor>, n: nat, next: int)
    requires n <= |cursors| && -1 <= next < n
    reads cursors
  {
    && (0 <= next ==> cursors[next].candidate.Some?)
    && (forall i :: 0 <= i < n && cursors[i].candidate.Some? ==>
          0 <= next && !Better(cursors[next].candidate.value, cursors[i].candidate.value))
  }

  /** No cursor has more work left than the given bounds say. */
  ghost predicate Within(cursors: seq<RestoreLevelCursor>, bounds: seq<nat>)
    reads cursors
  {
    |bounds| == |cursors| && forall i :: 0 <= i < |cursors| ==> cursors[i].Work() <= bounds[i]
  }

  /** The first `n` cursors are fresh. */
  ghost predicate FreshTo(cursors: seq<RestoreLevelCursor>, n: nat, c: nat)
    requires n <= |cursors|
    reads cursors
  {
    forall i :: 0 <= i < n ==> cursors[i].Fresh(c)
  }

  /** Refreshes one cursor and leaves the others alone. */
  method RefreshOne(
    cursors: seq<RestoreLevelCursor>, i: nat, c: nat, target: Target, ghost bounds: seq<nat>, ghost next: int)
    requires i < |cursors| && Distinct(cursors) && Listed(cursors[i].files)
    requires AllValid(cursors, c, target) && Within(cursors, bounds)
    requires -1 <= next < i && Leads(cursors, i, next) && FreshTo(cursors, i, c)
    modifies cursors[i]
    ensures AllValid(cursors, c, target) && Within(cursors, bounds)
    ensures Leads(cursors, i, next) && FreshTo(cursors, i + 1, c)
  {
    assert forall j :: 0 <= j < |cursors| && j != i ==> cursors[j] != cursors[i];
    cursors[i].Refresh(c, target);
  }

  /** One pass over the cursors: refresh each and find the best candidate. */
  method RefreshAll(cursors: seq<RestoreLevelCursor>, c: nat, target: Target, ghost bounds: seq<nat>)
    returns (next: int)
    requires Distinct(cursors) && forall i :: 0 <= i < |cursors| ==> Listed(cursors[i].files)
    requires AllValid(cursors, c, target) && Within(cursors, bounds)
    modifies cursors
    ensures AllValid(cursors, c, target) && Within(cursors, bounds)
    ensures FreshTo(cursors, |cursors|, c)
    ensures -1 <= next < |cursors| && Leads(cursors, |cursors|, next)
  {
    next := -1;
    for i := 0 to |cursors|
      invariant -1 <= next < i && Leads(cursors, i, next)
      invariant AllValid(cursors, c, target) && Within(cursors, bounds)
      invariant FreshTo(cursors, i, c)
    {
      RefreshOne(cursors, i, c, target, bounds, next);
      LeadGrows(cursors, i, next);
      if cursors[i].candidate.Some? {
        if next == -1 || Better(cursors[next].candidate.value, cursors[i].candidate.value) {
          next := i;
        }
      }
    }
  }

  /** What beats the better of two candidates beats the other one too. */
  lemma BetterIsTransitive(a: LtxFile, b: LtxFile, g: LtxFile)
    requires Better(a, b) && !Better(a, g)
    ensures !Better(b, g)
  {
  }

  /** The lead over one more cursor: it stays where it is unless that cursor's candidate is better. */
  lemma LeadGrows(cursors: seq<RestoreLevelCursor>, i: nat, next: int)
    requires -1 <= next < i < |cursors| && Leads(cursors, i, next)
    ensures
      var other := cursors[i].candidate;
      var taken := other.Some? && (next == -1 || Better(cursors[next].candidate.value, other.value));
      Leads(cursors, i + 1, if taken then i else next)
  {
    var other := cursors[i].candidate;
    if other.Some? && 0 <= next && Better(cursors[next].candidate.value, other.value) {
      forall j | 0 <= j < i && cursors[j].candidate.Some? ensures !Better(other.value, cursors[j].candidate.value) {
        BetterIsTransitive(cursors[next].candidate.value, other.value, cursors[j].candidate.value);
      }
    }
  }

  /** A pass leaves the best candidate in the lead, or stops when no file can follow. */
  method FindNext(cursors: seq<RestoreLevelCursor>, levels: seq<seq<LtxFile>>, c: nat, target: Target)
    returns (next: int)
    requires Opened(cursors, levels) && Distinct(cursors) && AllValid(cursors, c, target)
    modifies cursors
    ensures AllValid(cursors, c, target) && Sum(Works(cursors)) <= old(Sum(Works(cursors)))
    ensures -1 <= next < |cursors| && Leads(cursors, |cursors|, next)
    ensures if 0 <= next then NoneBetter(c, cursors[next].candidate.value, Pool(levels), target)
      else Bounded(c, c, Pool(levels), target)
    ensures next == -1 ==> Stopped(cursors, c, target)
  {
    ghost var before := Works(cursors);
    next := RefreshAll(cursors, c, target, before);
    SumLess(Works(cursors), before, -1);
    FreshBound(cursors, levels, c, target, next);
  }

  /** With every cursor fresh, no eligible file that could come next is better than the best candidate. */
  lemma FreshBound(cursors: seq<RestoreLevelCursor>, levels: seq<seq<LtxFile>>, c: nat, target: Target, next: int)
    requires -1 <= next < |cursors| && Leads(cursors, |cursors|, next)
    requires AllValid(cursors, c, target) && FreshTo(cursors, |cursors|, c)
    requires Opened(cursors, levels)
    ensures if 0 <= next then NoneBetter(c, cursors[next].candidate.value, Pool(levels), target)
      else Bounded(c, c, Pool(levels), target)
  {
    forall g | g in Pool(levels) && Eligible(g, target) && g.min <= c + 1 && c < g.max
      ensures 0 <= next && !Better(cursors[next].candidate.value, g)
    {
      var l :| 0 <= l < |levels| && g in levels[l];
      var cursor := cursors[|levels| - 1 - l];
      var k :| 0 <= k < |cursor.files| && cursor.files[k] == g;
      assert k < cursor.Evaluated();
    }
  }

  /** Cursors are opened from the highest level down. */
  ghost predicate Opened(cursors: seq<RestoreLevelCursor>, levels: seq<seq<LtxFile>>) {
    && |cursors| == |levels|
    && (forall i :: 0 <= i < |levels| ==> cursors[i].files == levels[|levels| - 1 - i] && Listed(cursors[i].files))
  }

  /** The best continuation of a start: greedy, and stopped where no eligible file goes on. */
  ghost predicate Best(start: nat, picks: seq<LtxFile>, levels: seq<seq<LtxFile>>, target: Target) {
    && Greedy(start, picks, Pool(levels), target)
    && Bounded(At(start, picks), At(start, picks), Pool(levels), target)
  }

  /** A chain ending at `e` completes the restore. */
  ghost predicate Completes(e: nat, levels: seq<seq<LtxFile>>, snapshots: seq<LtxFile>, target: Target) {
    && (Head(snapshots, target) != [] || 0 < e)
    && (target.txid != 0 ==> e == target.txid)
    && (target.txid == 0 && target.before == 0 ==> forall f :: f in Pool(levels) ==> f.max <= e && f.min <= e + 1)
  }

  /** Some gap-free chain of eligible files completes the restore from the chosen snapshot. */
  ghost predicate Restorable(levels: seq<seq<LtxFile>>, snapshots: seq<LtxFile>, target: Target) {
    exists chain ::
      && Chain(Start(snapshots, target), chain, levels, target)
      && Completes(End(Start(snapshots, target), chain), levels, snapshots, target)
  }

  lemma BestDecides(picks: seq<LtxFile>, levels: seq<seq<LtxFile>>, snapshots: seq<LtxFile>, target: Target)
    requires Best(Start(snapshots, target), picks, levels, target)
    ensures Restorable(levels, snapshots, target)
       <==> Completes(At(Start(snapshots, target), picks), levels, snapshots, target)
  {
    var start := Start(snapshots, target);
    GreedyEnd(start, picks, Pool(levels), target);
    GreedyIsGapFree(start, picks, Pool(levels), target);
    forall i | 0 <= i < |picks| ensures picks[i] in Pool(levels) && Eligible(picks[i], target) {
      assert Picked(start, picks, Pool(levels), target, i);
    }
    assert Chain(start, picks, levels, target);
    StartEligible(snapshots, target);
    if picks != [] {
      assert Eligible(picks[|picks| - 1], target);
    }
    forall chain | Chain(start, chain, levels, target) && Completes(End(start, chain), levels, snapshots, target)
      ensures Completes(At(start, picks), levels, snapshots, target)
    {
      NoChainGetsFurther(start, picks, chain, levels, target, |chain|);
      assert chain[..|chain|] == chain;
    }
  }

  lemma {:induction false} StartEligible(snapshots: seq<LtxFile>, target: Target)
    ensures target.txid != 0 ==> Start(snapshots, target) <= target.txid
  {
    if snapshots != [] {
      StartEligible(snapshots[..|snapshots| - 1], target);
    }
  }

  lemma ExtendGreedy(start: nat, picks: seq<LtxFile>, file: LtxFile, pool: set<LtxFile>, target: Target)
    requires Greedy(start, picks, pool, target)
    requires file in pool && Eligible(file, target)
    requires file.min <= At(start, picks) + 1 && At(start, picks) < file.max
    requires NoneBetter(At(start, picks), file, pool, target)
    ensures Greedy(start, picks + [file], pool, target)
  {
    var longer := picks + [file];
    forall i | 0 <= i < |longer| ensures Picked(start, longer, pool, target, i) {
      if i < |picks| {
        assert Picked(start, picks, pool, target, i) && longer[..i] == picks[..i];
      } else {
        assert longer[..i] == picks;
      }
    }
  }

  /** A restore plan: it starts with the chosen snapshot, goes on greedily, and completes the restore. */
  ghost predicate IsPlan(plan: seq<LtxFile>, levels: seq<seq<LtxFile>>, snapshots: seq<LtxFile>, target: Target) {
    var head := Head(snapshots, target);
    && head <= plan
    && Best(Start(snapshots, target), plan[|head|..], levels, target)
    && Completes(At(Start(snapshots, target), plan[|head|..]), levels, snapshots, target)
  }

  /** The best continuation decides: it is a plan when it completes the restore, and nothing else would. */
  lemma PlanDecides(picks: seq<LtxFile>, levels: seq<seq<LtxFile>>, snapshots: seq<LtxFile>, target: Target)
    requires Best(Start(snapshots, target), picks, levels, target)
    ensures
      var complete := Completes(At(Start(snapshots, target), picks), levels, snapshots, target);
      && (Restorable(levels, snapshots, target) <==> complete)
      && (complete ==> IsPlan(Head(snapshots, target) + picks, levels, snapshots, target))
  {
    BestDecides(picks, levels, snapshots, target);
    var head := Head(snapshots, target);
    assert (head + picks)[|head|..] == picks;
  }

  method SelectSnapshot(snapshots: seq<LtxFile>, target: Target) returns (infos: seq<LtxFile>)
    ensures infos == Head(snapshots, target)
  {
    infos := [];
    for i := 0 to |snapshots|
      invariant infos == Head(snapshots[..i], target)
    {
      assert snapshots[..i + 1][..i] == snapshots[..i];
      if Eligible(snapshots[i], target) {
        infos := [snapshots[i]];
      }
    }
    assert snapshots[..|snapshots|] == snapshots;
  }

  method OpenCursors(levels: seq<seq<LtxFile>>, ghost c: nat, ghost target: Target)
    returns (cursors: seq<RestoreLevelCursor>)
    requires forall l :: 0 <= l < |levels| ==> Listed(levels[l])
    ensures Opened(cursors, levels) && Distinct(cursors) && AllValid(cursors, c, target)
    ensures forall i :: 0 <= i < |cursors| ==> fresh(cursors[i])
  {
    cursors := [];
    var level := |levels|;
    while level > 0
      invariant 0 <= level && level + |cursors| == |levels|
      invariant forall i :: 0 <= i < |cursors| ==> fresh(cursors[i]) && cursors[i].files == levels[|levels| - 1 - i]
      invariant Distinct(cursors) && AllValid(cursors, c, target)
    {
      level := level - 1;
      var cursor := new RestoreLevelCursor(levels[level]);
      cursors := cursors + [cursor];
    }
  }

  /** The planner's loop: picks files from `start` until nothing extends them or the target is reached. */
  method PickFiles(cursors: seq<RestoreLevelCursor>, levels: seq<seq<LtxFile>>, start: nat, target: Target)
    returns (picks: seq<LtxFile>)
    requires Opened(cursors, levels) && Distinct(cursors) && AllValid(cursors, start, target)
    requires target.txid != 0 ==> start < target.txid
    modifies cursors
    ensures Best(start, picks, levels, target)
    ensures target.txid == 0 ==> Stopped(cursors, At(start, picks), target)
  {
    picks := [];
    var currentMax: nat := start;
    while true
      invariant AllValid(cursors, currentMax, target)
      invariant Greedy(start, picks, Pool(levels), target) && currentMax == At(start, picks)
      invariant target.txid != 0 ==> currentMax < target.txid
      decreases Sum(Works(cursors))
    {
      var next := FindNext(cursors, levels, currentMax, target);
      if next == -1 {
        return;
      }
      var file := TakeCandidate(cursors, levels, next, currentMax, target);
      if file.max <= currentMax {
        continue;
      }
      ExtendGreedy(start, picks, file, Pool(levels), target);
      picks, currentMax := picks + [file], file.max;
      if target.txid != 0 && currentMax >= target.txid {
        return;
      }
    }
  }

  /** Takes the leading candidate off its cursor; what is held then moves up to its end. */
  method TakeCandidate(cursors: seq<RestoreLevelCursor>, levels: seq<seq<LtxFile>>, next: nat, c: nat, target: Target)
    returns (file: LtxFile)
    requires Opened(cursors, levels) && Distinct(cursors) && AllValid(cursors, c, target)
    requires next < |cursors| && Leads(cursors, |cursors|, next)
    modifies cursors
    ensures file == old(cursors[next].candidate.value)
    ensures file in Pool(levels) && Eligible(file, target) && file.min <= c + 1
    ensures AllValid(cursors, Max(c, file.max), target)
    ensures Sum(Works(cursors)) < old(Sum(Works(cursors)))
  {
    var cursor := cursors[next];
    ghost var before := Works(cursors);
    assert forall j :: 0 <= j < |cursors| && j != next ==> cursors[j] != cursor;
    label taken:
    file := cursor.Take(c, target);
    assert forall j :: 0 <= j < |cursors| && j != next ==> unchanged@taken(cursors[j]);
    SumLess(Works(cursors), before, next);
    forall j | 0 <= j < |cursors| ensures cursors[j].Valid(Max(c, file.max), target) {
      if j != next {
        cursors[j].ValidLater(c, Max(c, file.max), target);
      }
    }
  }

  /** Every cursor is past what could follow `c` and holds no candidate. */
  ghost predicate Stopped(cursors: seq<RestoreLevelCursor>, c: nat, target: Target)
    reads cursors
  {
    forall i :: 0 <= i < |cursors| ==>
      && cursors[i].Valid(c, target) && cursors[i].candidate == None
      && cursors[i].Fresh(c)
  }

  /** After a latest-state run: the first unread file beyond a gap, or none when every cursor is exhausted. */
  method FindGap(cursors: seq<RestoreLevelCursor>, levels: seq<seq<LtxFile>>, c: nat, target: Target)
    returns (gap: Option<nat>)
    requires Opened(cursors, levels) && Distinct(cursors) && Stopped(cursors, c, target)
    requires target == Target(0, 0)
    modifies cursors
    ensures gap.Some? ==> c + 1 < gap.value && exists f :: f in Pool(levels) && f.min == gap.value
    ensures gap.None? ==> forall f :: f in Pool(levels) ==> f.max <= c && f.min <= c + 1
  {
    for i := 0 to |cursors|
      invariant Stopped(cursors, c, target)
      invariant forall j :: 0 <= j < i ==> cursors[j].Evaluated() == |cursors[j].files|
    {
      var cursor := cursors[i];
      label before:
      cursor.EnsureCurrent(c, target);
      assert forall j :: 0 <= j < |cursors| && j != i ==> cursors[j] != cursor;
      assert forall j :: 0 <= j < |cursors| && j != i ==> unchanged@before(cursors[j]);
      if cursor.current.Some? && cursor.current.value.min > c + 1 {
        var f := cursor.current.value;
        assert f in levels[|levels| - 1 - i];
        return Some(f.min);
      }
    }
    forall f | f in Pool(levels) ensures f.max <= c && f.min <= c + 1 {
      var l :| 0 <= l < |levels| && f in levels[l];
      var cursor := cursors[|levels| - 1 - l];
      var k :| 0 <= k < |cursor.files| && cursor.files[k] == f;
      assert Accounted(cursor.files[k], c, target, None);
    }
    return None;
  }

  /** A restore of the latest state is stopped by a gap: some file starts beyond what the best chain reaches. */
  ghost predicate Stuck(levels: seq<seq<LtxFile>>, snapshots: seq<LtxFile>, target: Target, have: nat, next: nat) {
    && target == Target(0, 0) && have + 1 < next
    && (exists f :: f in Pool(levels) && f.min == next)
    && (exists picks ::
          && Best(Start(snapshots, target), picks, levels, target)
          && have == At(Start(snapshots, target), picks))
  }

  /** What `Continue` finds from `start`: the best continuation, and for the latest state a file left beyond a gap. */
  ghost predicate Continued(
    start: nat, started: bool, levels: seq<seq<LtxFile>>, target: Target, picks: seq<LtxFile>, gap: Option<nat>)
  {
    var e := At(start, picks);
    && Best(start, picks, levels, target)
    && (gap.Some? ==> target == Target(0, 0) && e + 1 < gap.value)
    && (gap.Some? ==> exists f :: f in Pool(levels) && f.min == gap.value)
    && (gap.None? && target == Target(0, 0) && (started || picks != []) ==>
          forall f :: f in Pool(levels) ==> f.max <= e && f.min <= e + 1)
  }

  /** What the planner owes its caller. */
  ghost predicate Answers(
    r: Result<seq<LtxFile>, PlanError>, levels: seq<seq<LtxFile>>, snapshots: seq<LtxFile>, target: Target)
  {
    && (r == Err(BothGiven) <==> target.txid != 0 && target.before != 0)
    && (r != Err(BothGiven) ==> (r.Ok? <==> Restorable(levels, snapshots, target)))
    && (r.Ok? ==> IsPlan(r.value, levels, snapshots, target))
    && (r.Ok? ==> forall i :: 0 <= i < |r.value| ==>
          && (target.txid != 0 ==> r.value[i].max <= target.txid)
          && (target.before != 0 ==> r.value[i].createdAt < target.before))
    && (r.Err? && r.error.NonContiguous? ==> Stuck(levels, snapshots, target, r.error.have, r.error.next))
    && (r == Err(TxNotAvailable) && target == Target(0, 0) ==>
          Head(snapshots, target) == [] && Bounded(0, 0, Pool(levels), target))
  }

  /** A snapshot at the requested transaction is a plan by itself. */
  lemma SnapshotAnswers(levels: seq<seq<LtxFile>>, snapshots: seq<LtxFile>, target: Target)
    requires target.txid != 0 && target.before == 0 && target.txid <= Start(snapshots, target)
    ensures Answers(Ok(Head(snapshots, target)), levels, snapshots, target)
  {
    StartEligible(snapshots, target);
    PlanDecides([], levels, snapshots, target);
    assert Head(snapshots, target) + [] == Head(snapshots, target);
    HeadIsWithin(snapshots, target);
  }

  /** Where a greedy continuation ends: past zero if it has a file, and not past the requested transaction. */
  lemma GreedyEndsWithin(start: nat, picks: seq<LtxFile>, pool: set<LtxFile>, target: Target)
    requires Greedy(start, picks, pool, target)
    ensures picks != [] ==> 0 < At(start, picks)
    ensures target.txid != 0 && start <= target.txid ==> At(start, picks) <= target.txid
  {
    if picks != [] {
      assert Picked(start, picks, pool, target, |picks| - 1);
    }
  }

  /** The planner's last tests tell whether the continuation completes the restore. */
  lemma LastTestsDecide(
    picks: seq<LtxFile>, gap: Option<nat>, levels: seq<seq<LtxFile>>, snapshots: seq<LtxFile>, target: Target)
    requires target.txid == 0 || target.before == 0
    requires Continued(Start(snapshots, target), Head(snapshots, target) != [], levels, target, picks, gap)
    ensures
      var e := At(Start(snapshots, target), picks);
      Completes(e, levels, snapshots, target) <==>
      gap.None? && Head(snapshots, target) + picks != [] && !(target.txid != 0 && e < target.txid)
  {
    StartEligible(snapshots, target);
    GreedyEndsWithin(Start(snapshots, target), picks, Pool(levels), target);
  }

  /** With the continuation at hand, the last tests give the caller a plan or the right error. */
  lemma ContinuationAnswers(
    picks: seq<LtxFile>, gap: Option<nat>, levels: seq<seq<LtxFile>>, snapshots: seq<LtxFile>, target: Target)
    requires target.txid == 0 || target.before == 0
    requires Continued(Start(snapshots, target), Head(snapshots, target) != [], levels, target, picks, gap)
    ensures
      var start, infos := Start(snapshots, target), Head(snapshots, target) + picks;
      var r := if gap.Some? then Err(NonContiguous(At(start, picks), gap.value))
               else if infos == [] || (target.txid != 0 && At(start, picks) < target.txid) then Err(TxNotAvailable)
               else Ok(infos);
      Answers(r, levels, snapshots, target)
  {
    LastTestsDecide(picks, gap, levels, snapshots, target);
    PlanDecides(picks, levels, snapshots, target);
    var plan := Head(snapshots, target) + picks;
    if IsPlan(plan, levels, snapshots, target) {
      forall i | 0 <= i < |plan|
        ensures target.txid != 0 ==> plan[i].max <= target.txid
        ensures target.before != 0 ==> plan[i].createdAt < target.before
      {
        PlanKeepsWithin(plan, levels, snapshots, target, i);
      }
    }
  }

  /**
    The plan is the chosen snapshot followed by the best continuation. It is found exactly when some
    chain completes the restore; otherwise the error says what is missing.
   */
  method CalcRestorePlan(levels: seq<seq<LtxFile>>, snapshots: seq<LtxFile>, target: Target)
    returns (r: Result<seq<LtxFile>, PlanError>)
    requires |levels| == SNAPSHOT_LEVEL
    requires forall l :: 0 <= l < |levels| ==> Listed(levels[l])
    ensures Answers(r, levels, snapshots, target)
  {
    if target.txid != 0 && target.before != 0 {
      return Err(BothGiven);
    }
    var infos := SelectSnapshot(snapshots, target);
    var start: nat := if infos == [] then 0 else infos[0].max;
    if target.txid != 0 && start >= target.txid {
      SnapshotAnswers(levels, snapshots, target);
      return Ok(infos);
    }
    var picks, gap := Continue(levels, start, infos != [], target);
    ContinuationAnswers(picks, gap, levels, snapshots, target);
    infos := infos + picks;
    if gap.Some? {
      return Err(NonContiguous(At(start, picks), gap.value));
    }
    if infos == [] {
      return Err(TxNotAvailable);
    }
    if target.txid != 0 && At(start, picks) < target.txid {
      return Err(TxNotAvailable);
    }
    return Ok(infos);
  }

  /** Opens the cursors, picks the files, and for the latest state looks for a file left beyond a gap. */
  method Continue(levels: seq<seq<LtxFile>>, start: nat, started: bool, target: Target)
    returns (picks: seq<LtxFile>, gap: Option<nat>)
    requires forall l :: 0 <= l < |levels| ==> Listed(levels[l])
    requires target.txid != 0 ==> start < target.txid
    ensures Continued(start, started, levels, target, picks, gap)
  {
    var cursors := OpenCursors(levels, start, target);
    picks := PickFiles(cursors, levels, start, target);
    gap := None;
    if (started || picks != []) && target.txid == 0 && target.before == 0 {
      gap := FindGap(cursors, levels, At(start, picks), target);
    }
  }

  // ---------------------------------------------------------------------------------------------
  // What a plan is worth.

  /** Where a plan ends: at its last file, no earlier than the snapshot, and at a listed file if past it. */
  lemma PlanEndsAt(plan: seq<LtxFile>, levels: seq<seq<LtxFile>>, snapshots: seq<LtxFile>, target: Target)
    returns (e: nat)
    requires IsPlan(plan, levels, snapshots, target)
    ensures plan != [] && plan[|plan| - 1].max == e && Completes(e, levels, snapshots, target)
    ensures Start(snapshots, target) <= e
    ensures e == Start(snapshots, target) || exists f :: f in Pool(levels) && f.max == e
  {
    var start, picks := Start(snapshots, target), plan[|Head(snapshots, target)|..];
    e := At(start, picks);
    if picks != [] {
      AtMonotone(start, picks, Pool(levels), target, 0);
      assert Picked(start, picks, Pool(levels), target, |picks| - 1);
      assert picks[|picks| - 1] == plan[|plan| - 1];
    }
  }

  /** From the chosen snapshot, no gap-free chain goes further than the plan, and none as far with fewer files. */
  lemma PlanIsOptimal(
    plan: seq<LtxFile>, chain: seq<LtxFile>, levels: seq<seq<LtxFile>>, snapshots: seq<LtxFile>, target: Target)
    requires IsPlan(plan, levels, snapshots, target)
    requires Chain(Start(snapshots, target), chain, levels, target)
    ensures plan != [] && End(Start(snapshots, target), chain) <= plan[|plan| - 1].max
    ensures End(Start(snapshots, target), chain) == plan[|plan| - 1].max ==>
      |plan| <= |Head(snapshots, target)| + |chain|
  {
    var start, picks := Start(snapshots, target), plan[|Head(snapshots, target)|..];
    NoChainGetsFurther(start, picks, chain, levels, target, |chain|);
    assert chain[..|chain|] == chain;
    if At(start, picks) <= End(start, chain) {
      GreedyIsFewest(start, picks, chain, levels, target);
    }
  }

  /** Snapshots are always written from transaction id 1. */
  ghost predicate FullSnapshots(snapshots: seq<LtxFile>) {
    forall i :: 0 <= i < |snapshots| ==> snapshots[i].min == 1
  }

  lemma {:induction false} ChosenSnapshotIsLargest(snapshots: seq<LtxFile>, target: Target, i: nat)
    requires Listed(snapshots) && FullSnapshots(snapshots)
    requires i < |snapshots| && Eligible(snapshots[i], target)
    ensures ChooseSnapshot(snapshots, target).Some? && snapshots[i].max <= Start(snapshots, target)
  {
    var n := |snapshots| - 1;
    if i < n {
      if !Eligible(snapshots[n], target) {
        ChosenSnapshotIsLargest(snapshots[..n], target, i);
      }
    }
  }

  lemma {:induction false} EndLater(c: nat, d: nat, chain: seq<LtxFile>)
    requires c <= d
    ensures End(d, chain) == Max(d, End(c, chain))
  {
    if chain != [] {
      EndLater(c, d, chain[..|chain| - 1]);
    }
  }

  lemma LaterStart(c: nat, d: nat, chain: seq<LtxFile>)
    requires c <= d && GapFree(c, chain)
    ensures GapFree(d, chain) && End(d, chain) == Max(d, End(c, chain))
  {
    forall i | 0 <= i < |chain| ensures Fits(d, chain, i) {
      assert Fits(c, chain, i);
      EndLater(c, d, chain[..i]);
    }
    EndLater(c, d, chain);
  }

  /** Some start, zero or any eligible snapshot, and some gap-free chain of eligible files reach the id. */
  ghost predicate ReachableFromAny(levels: seq<seq<LtxFile>>, snapshots: seq<LtxFile>, target: Target) {
    exists start: nat, chain ::
      && (start == 0 || exists i :: 0 <= i < |snapshots| && Eligible(snapshots[i], target) && snapshots[i].max == start)
      && Chain(start, chain, levels, target)
      && End(start, chain) == target.txid
  }

  /** Starting from the chosen snapshot never loses a solution. */
  lemma ChosenStartLosesNothing(levels: seq<seq<LtxFile>>, snapshots: seq<LtxFile>, target: Target)
    requires target.txid != 0 && Listed(snapshots) && FullSnapshots(snapshots)
    ensures ReachableFromAny(levels, snapshots, target) <==> Restorable(levels, snapshots, target)
  {
    var chosen := Start(snapshots, target);
    StartEligible(snapshots, target);
    forall start: nat, chain |
      && (start == 0 || exists i :: 0 <= i < |snapshots| && Eligible(snapshots[i], target) && snapshots[i].max == start)
      && Chain(start, chain, levels, target) && End(start, chain) == target.txid
      ensures Restorable(levels, snapshots, target)
    {
      if start != 0 {
        var i :| 0 <= i < |snapshots| && Eligible(snapshots[i], target) && snapshots[i].max == start;
        ChosenSnapshotIsLargest(snapshots, target, i);
      }
      LaterStart(start, chosen, chain);
      assert Chain(chosen, chain, levels, target) && Completes(End(chosen, chain), levels, snapshots, target);
    }
    ChosenIsStart(snapshots, target);
    if chain :| Chain(chosen, chain, levels, target) && Completes(End(chosen, chain), levels, snapshots, target) {
      assert End(chosen, chain) == target.txid;
    }
  }

  lemma {:induction false} ChosenIsStart(snapshots: seq<LtxFile>, target: Target)
    ensures Start(snapshots, target) == 0
         || exists i ::
              && 0 <= i < |snapshots| && Eligible(snapshots[i], target)
              && snapshots[i].max == Start(snapshots, target)
  {
    var n := |snapshots| - 1;
    if snapshots != [] && !Eligible(snapshots[n], target) {
      ChosenIsStart(snapshots[..n], target);
      if Start(snapshots, target) != 0 {
        var i :| 0 <= i < n && Eligible(snapshots[..n][i], target) && snapshots[..n][i].max == Start(snapshots, target);
        assert Eligible(snapshots[i], target);
      }
    }
  }

  /** Were snapshots to start at different ids, the last one in name order could end earlier and lose the plan. */
  lemma PartialSnapshotsLosePlans(pages: map<nat, Page>)
    ensures
      var snapshots := [LtxFile(9, 1, 15, 1, 1, pages), LtxFile(9, 5, 10, 1, 1, pages)];
      var levels := seq(9, i => []);
      && Listed(snapshots)
      && ReachableFromAny(levels, snapshots, Target(15, 0))
      && !Restorable(levels, snapshots, Target(15, 0))
  {
    var snapshots := [LtxFile(9, 1, 15, 1, 1, pages), LtxFile(9, 5, 10, 1, 1, pages)];
    var levels: seq<seq<LtxFile>> := seq(9, i => []);
    var target := Target(15, 0);
    assert Eligible(snapshots[0], target) && snapshots[0].max == 15;
    assert Chain(15, [], levels, target) && End(15, []) == target.txid;
    assert Start(snapshots, target) == 10;
    assert Pool(levels) == {};
    assert forall chain :: Chain(10, chain, levels, target) ==> |chain| == 0 || chain[0] in Pool(levels);
  }

  // ---------------------------------------------------------------------------------------------
  // What a plan keeps to, said of the files themselves.

  /** Every file of a plan ends by the requested transaction and was made before the requested time. */
  lemma PlanKeepsWithin(
    plan: seq<LtxFile>, levels: seq<seq<LtxFile>>, snapshots: seq<LtxFile>, target: Target, i: nat)
    requires IsPlan(plan, levels, snapshots, target) && i < |plan|
    ensures target.txid != 0 ==> plan[i].max <= target.txid
    ensures target.before != 0 ==> plan[i].createdAt < target.before
  {
    var start, head := Start(snapshots, target), Head(snapshots, target);
    if i < |head| {
      HeadIsWithin(snapshots, target);
    } else {
      var picks := plan[|head|..];
      assert Picked(start, picks, Pool(levels), target, i - |head|) && picks[i - |head|] == plan[i];
    }
  }

  lemma {:induction false} HeadIsWithin(snapshots: seq<LtxFile>, target: Target)
    ensures
      var head := Head(snapshots, target);
      head != [] ==>
        && (target.txid != 0 ==> head[0].max <= target.txid)
        && (target.before != 0 ==> head[0].createdAt < target.before)
  {
    if snapshots != [] {
      HeadIsWithin(snapshots[..|snapshots| - 1], target);
    }
  }

  /** The limits of a target, of one file. */
  lemma WithinIsEligible(f: LtxFile, target: Target)
    ensures Eligible(f, target) <==>
      (target.txid != 0 ==> f.max <= target.txid) && (target.before != 0 ==> f.createdAt < target.before)
  {
  }

  /** The last listed snapshot that ends by the requested transaction and was made before the requested time. */
  ghost predicate LastWithin(snapshots: seq<LtxFile>, target: Target, k: nat) {
    && k < |snapshots|
    && (target.txid != 0 ==> snapshots[k].max <= target.txid)
    && (target.before != 0 ==> snapshots[k].createdAt < target.before)
    && (forall j :: k < j < |snapshots| ==>
          || (target.txid != 0 && target.txid < snapshots[j].max)
          || (target.before != 0 && target.before <= snapshots[j].createdAt))
  }

  lemma {:induction false} HeadIsLastWithin(snapshots: seq<LtxFile>, target: Target, k: nat)
    requires LastWithin(snapshots, target, k)
    ensures Head(snapshots, target) == [snapshots[k]]
  {
    var n := |snapshots| - 1;
    WithinIsEligible(snapshots[n], target);
    if k < n {
      HeadIsLastWithin(snapshots[..n], target, k);
    }
  }

  lemma {:induction false} NoHead(snapshots: seq<LtxFile>, target: Target)
    requires forall k :: 0 <= k < |snapshots| ==> !LastWithin(snapshots, target, k)
    ensures Head(snapshots, target) == []
  {
    if snapshots != [] {
      var n := |snapshots| - 1;
      WithinIsEligible(snapshots[n], target);
      assert !LastWithin(snapshots, target, n);
      forall k | 0 <= k < n ensures !LastWithin(snapshots[..n], target, k) {
        assert !LastWithin(snapshots, target, k);
      }
      NoHead(snapshots[..n], target);
    }
  }

  /** A plan starts with the last snapshot within the limits, if there is one; all its other files are increments. */
  lemma PlanStartsAt(plan: seq<LtxFile>, levels: seq<seq<LtxFile>>, snapshots: seq<LtxFile>, target: Target)
    requires IsPlan(plan, levels, snapshots, target)
    ensures forall k: nat :: LastWithin(snapshots, target, k) ==> plan != [] && plan[0] == snapshots[k]
    ensures (forall k :: 0 <= k < |snapshots| ==> !LastWithin(snapshots, target, k)) ==>
      forall i :: 0 <= i < |plan| ==> plan[i] in Pool(levels)
    ensures forall i :: 1 <= i < |plan| ==> plan[i] in Pool(levels)
  {
    var start, head := Start(snapshots, target), Head(snapshots, target);
    var picks := plan[|head|..];
    forall i | |head| <= i < |plan| ensures plan[i] in Pool(levels) {
      assert Picked(start, picks, Pool(levels), target, i - |head|) && picks[i - |head|] == plan[i];
    }
    forall k: nat | LastWithin(snapshots, target, k) ensures plan != [] && plan[0] == snapshots[k] {
      HeadIsLastWithin(snapshots, target, k);
    }
    if forall k :: 0 <= k < |snapshots| ==> !LastWithin(snapshots, target, k) {
      NoHead(snapshots, target);
    }
  }

  /** A start within the limits: nothing, or the end of a snapshot within them. */
  ghost predicate StartsWithin(start: nat, snapshots: seq<LtxFile>, target: Target) {
    start == 0 || exists i ::
      && 0 <= i < |snapshots| && snapshots[i].max == start
      && (target.txid != 0 ==> snapshots[i].max <= target.txid)
      && (target.before != 0 ==> snapshots[i].createdAt < target.before)
  }

  /** From no start within the limits does a gap-free chain of stored files within them go beyond the plan. */
  lemma NothingWithinGoesFurther(
    plan: seq<LtxFile>, start: nat, chain: seq<LtxFile>, levels: seq<seq<LtxFile>>, snapshots: seq<LtxFile>,
    target: Target)
    requires IsPlan(plan, levels, snapshots, target) && Listed(snapshots) && FullSnapshots(snapshots)
    requires StartsWithin(start, snapshots, target) && GapFree(start, chain)
    requires forall i :: 0 <= i < |chain| ==>
      && chain[i] in Pool(levels)
      && (target.txid != 0 ==> chain[i].max <= target.txid)
      && (target.before != 0 ==> chain[i].createdAt < target.before)
    ensures plan != [] && End(start, chain) <= plan[|plan| - 1].max
  {
    var chosen := Start(snapshots, target);
    if start != 0 {
      var i :| 0 <= i < |snapshots| && snapshots[i].max == start
        && (target.txid != 0 ==> snapshots[i].max <= target.txid)
        && (target.before != 0 ==> snapshots[i].createdAt < target.before);
      WithinIsEligible(snapshots[i], target);
      ChosenSnapshotIsLargest(snapshots, target, i);
    }
    LaterStart(start, chosen, chain);
    forall i | 0 <= i < |chain| ensures Eligible(chain[i], target) {
      WithinIsEligible(chain[i], target);
    }
    PlanIsOptimal(plan, chain, levels, snapshots, target);
  }

  /** What a restore up to a time finds: it succeeds exactly when a snapshot or a first increment was made before it. */
  lemma TimeRestoreSucceedsIff(levels: seq<seq<LtxFile>>, snapshots: seq<LtxFile>, before: int)
    requires before != 0
    ensures Restorable(levels, snapshots, Target(0, before)) <==>
      || (exists i :: 0 <= i < |snapshots| && snapshots[i].createdAt < before)
      || (exists f :: f in Pool(levels) && f.createdAt < before && f.min <= 1 && 0 < f.max)
  {
    var target := Target(0, before);
    var start := Start(snapshots, target);
    SnapshotBefore(snapshots, before);
    if f :| f in Pool(levels) && f.createdAt < before && f.min <= 1 && 0 < f.max {
      OneFileChain(start, f, levels, target);
    }
    if Head(snapshots, target) != [] {
      assert Chain(start, [], levels, target) && Completes(End(start, []), levels, snapshots, target);
    } else if chain :| Chain(start, chain, levels, target) && Completes(End(start, chain), levels, snapshots, target) {
      FirstOfChain(chain, levels, target);
    }
  }

  lemma {:induction false} SnapshotBefore(snapshots: seq<LtxFile>, before: int)
    ensures Head(snapshots, Target(0, before)) != [] <==>
      exists i :: 0 <= i < |snapshots| && (before != 0 ==> snapshots[i].createdAt < before)
  {
    if snapshots != [] {
      var n := |snapshots| - 1;
      SnapshotBefore(snapshots[..n], before);
      if i :| 0 <= i < |snapshots| && (before != 0 ==> snapshots[i].createdAt < before) {
        assert i < n ==> snapshots[..n][i] == snapshots[i];
      }
    }
  }

  lemma OneFileChain(start: nat, f: LtxFile, levels: seq<seq<LtxFile>>, target: Target)
    requires f in Pool(levels) && Eligible(f, target) && f.min <= 1
    ensures Chain(start, [f], levels, target) && End(start, [f]) == Max(start, f.max)
  {
    assert [f][..0] == [];
    assert Fits(start, [f], 0);
  }

  /** A chain from nothing that gets anywhere has a file that starts at the first transaction. */
  lemma {:induction false} FirstOfChain(chain: seq<LtxFile>, levels: seq<seq<LtxFile>>, target: Target)
    requires Chain(0, chain, levels, target) && 0 < End(0, chain)
    ensures exists f :: f in Pool(levels) && Eligible(f, target) && f.min <= 1 && 0 < f.max
  {
    var n := |chain| - 1;
    assert Fits(0, chain, n);
    if 0 < End(0, chain[..n]) {
      forall i | 0 <= i < n ensures Fits(0, chain[..n], i) {
        assert Fits(0, chain, i) && chain[..n][..i] == chain[..i];
      }
      FirstOfChain(chain[..n], levels, target);
    } else {
      assert chain[n] in Pool(levels) && Eligible(chain[n], target);
    }
  }

  /**
    Which file is picked where several could be: the one that ends last; among those the one that starts first; then
    the one of the highest level; then the oldest.
   */
  lemma PickIsPreferred(
    start: nat, picks: seq<LtxFile>, levels: seq<seq<LtxFile>>, target: Target, i: nat, g: LtxFile)
    requires Best(start, picks, levels, target) && i < |picks| && g in Pool(levels)
    requires target.txid != 0 ==> g.max <= target.txid
    requires target.before != 0 ==> g.createdAt < target.before
    requires g.min <= At(start, picks[..i]) + 1 && At(start, picks[..i]) < g.max
    ensures
      var f := picks[i];
      && g.max <= f.max
      && (g.max == f.max ==> f.min <= g.min)
      && (g.max == f.max && g.min == f.min ==> g.level <= f.level)
      && (g.max == f.max && g.min == f.min && g.level == f.level ==> f.createdAt <= g.createdAt)
  {
    WithinIsEligible(g, target);
    assert Picked(start, picks, Pool(levels), target, i);
    assert !Better(picks[i], g);
  }
}
