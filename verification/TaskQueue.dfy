/**
  The durable task queue: one table of tasks with leases and one append-only transition log.
  Attempts are conserved against the log, and a lease changes hands only by failure or past its deadline.
 */
module TaskQueue {
  import opened Wrappers

  datatype TaskState = QUEUED | RUNNING | COMPLETED | BLOCKED | FAILED

  datatype Task = Task(
    id: string, mission: string, kind: string, payload: string, state: TaskState, priority: int, key: string,
    attempts: nat, maxAttempts: nat, nextRunAt: real, owner: Option<string>, until: Option<real>,
    lastError: Option<string>, createdAt: real)

  /** Why a task changed state. A claim carries the deadline that the task row holds from then on. */
  datatype Reason =
    | Submitted
    | Claimed(worker: string, until: real)
    | LeaseExpired
    | Completed
    | Blocked(why: string)
    | Failure(error: string)

  datatype Transition = Transition(task: string, from: Option<TaskState>, to: TaskState, reason: Reason, at: real)

  datatype Queue = Queue(missions: set<string>, tasks: seq<Task>, log: seq<Transition>)

  datatype QueueError = BadArgument | ConstraintViolated | NotLeasedByWorker

  // ---------------------------------------------------------------------------------------------
  // What each operation does to the tables.

  /** The last row with a property, or -1. */
  function Find(tasks: seq<Task>, p: Task -> bool): (i: int)
    ensures -1 <= i < |tasks|
    ensures 0 <= i ==> p(tasks[i])
    ensures i == -1 ==> forall j :: 0 <= j < |tasks| ==> !p(tasks[j])
  {
    if tasks == [] then -1
    else if p(tasks[|tasks| - 1]) then |tasks| - 1
    else Find(tasks[..|tasks| - 1], p)
  }

  function IndexOf(tasks: seq<Task>, id: string): (i: int)
    ensures -1 <= i < |tasks|
    ensures 0 <= i ==> tasks[i].id == id
    ensures i == -1 ==> forall j :: 0 <= j < |tasks| ==> tasks[j].id != id
  {
    Find(tasks, (t: Task) => t.id == id)
  }

  function KeyIndex(tasks: seq<Task>, key: string): (i: int)
    ensures -1 <= i < |tasks|
    ensures 0 <= i ==> tasks[i].key == key
    ensures i == -1 ==> forall j :: 0 <= j < |tasks| ==> tasks[j].key != key
  {
    Find(tasks, (t: Task) => t.key == key)
  }

  /** Changes one row and logs the change. */
  function Move(q: Queue, i: nat, task: Task, reason: Reason, at: real): Queue
    requires i < |q.tasks|
  {
    q.(tasks := q.tasks[i := task],
       log := q.log + [Transition(q.tasks[i].id, Some(q.tasks[i].state), task.state, reason, at)])
  }

  /** A new row and its first log entry; an existing key gives back the task it belongs to. */
  function Submit(q: Queue, task: Task, now: real): Result<(Queue, string), QueueError> {
    if task.maxAttempts < 1 then Err(BadArgument)
    else
      var i := KeyIndex(q.tasks, task.key);
      if 0 <= i then Ok((q, q.tasks[i].id))
      else if task.mission !in q.missions || 0 <= IndexOf(q.tasks, task.id) then Err(ConstraintViolated)
      else
        var log := q.log + [Transition(task.id, None, QUEUED, Submitted, now)];
        Ok((q.(tasks := q.tasks + [task], log := log), task.id))
  }

  function NewTask(id: string, mission: string, kind: string, payload: string, key: string, priority: int,
                   maxAttempts: nat, now: real): Task {
    Task(id, mission, kind, payload, QUEUED, priority, key, 0, maxAttempts, now, None, None, None, now)
  }

  predicate Expired(task: Task, now: real) {
    task.state == RUNNING && task.until.Some? && task.until.value <= now
  }

  function RecoverRow(q: Queue, i: nat, now: real): Queue
    requires i < |q.tasks|
  {
    Move(q, i, q.tasks[i].(state := QUEUED, owner := None, until := None), LeaseExpired, now)
  }

  /** The expired ones among the first n rows go back to the queue. */
  function Recover(q: Queue, n: nat, now: real): (r: Queue)
    requires n <= |q.tasks|
    ensures |r.tasks| == |q.tasks| && r.missions == q.missions && q.log <= r.log
    ensures forall i :: n <= i < |q.tasks| ==> r.tasks[i] == q.tasks[i]
    ensures forall i :: 0 <= i < n ==> !Expired(r.tasks[i], now)
  {
    if n == 0 then q
    else
      var r := Recover(q, n - 1, now);
      if Expired(q.tasks[n - 1], now) then RecoverRow(r, n - 1, now) else r
  }

  predicate Due(task: Task, now: real, mission: Option<string>) {
    task.state == QUEUED && task.nextRunAt <= now && (mission.Some? ==> task.mission == mission.value)
  }

  function ClaimRow(q: Queue, i: nat, worker: string, until: real, now: real): Queue
    requires i < |q.tasks|
  {
    var t := q.tasks[i];
    Move(q, i, t.(state := RUNNING, attempts := t.attempts + 1, owner := Some(worker), until := Some(until)),
         Claimed(worker, until), now)
  }

  predicate LeasedBy(q: Queue, i: int, worker: string)
    requires -1 <= i < |q.tasks|
  {
    0 <= i && q.tasks[i].state == RUNNING && q.tasks[i].owner == Some(worker)
  }

  /** Completing or blocking a task; only its lease holder may, whatever the deadline. */
  function Finish(q: Queue, id: string, worker: string, state: TaskState, reason: Reason, now: real)
    : Result<Queue, QueueError>
  {
    var i := IndexOf(q.tasks, id);
    if !LeasedBy(q, i, worker) then Err(NotLeasedByWorker)
    else Ok(Move(q, i, q.tasks[i].(state := state, owner := None, until := None), reason, now))
  }

  /** Failing a task: it goes back to the queue while attempts are left. */
  function Fail(q: Queue, id: string, worker: string, error: string, delay: real, now: real)
    : Result<Queue, QueueError>
  {
    var i := IndexOf(q.tasks, id);
    if !LeasedBy(q, i, worker) then Err(NotLeasedByWorker)
    else
      var t := q.tasks[i];
      var target := if t.attempts < t.maxAttempts then QUEUED else FAILED;
      Ok(Move(q, i, t.(state := target, owner := None, until := None, lastError := Some(error),
                       nextRunAt := now + if delay < 0.0 then 0.0 else delay), Failure(error), now))
  }

  // ---------------------------------------------------------------------------------------------
  // The log.

  function LastOf(log: seq<Transition>, id: string): Option<Transition> {
    if log == [] then None
    else if log[|log| - 1].task == id then Some(log[|log| - 1])
    else LastOf(log[..|log| - 1], id)
  }

  /** An entry follows on from the task's entry before it, by one of the moves of the state machine. */
  ghost predicate Follows(prev: Option<Transition>, e: Transition) {
    && (if prev.None? then e.from == None else e.from == Some(prev.value.to))
    && match e.reason
       case Submitted => e.from == None && e.to == QUEUED
       case Claimed(_, _) => e.from == Some(QUEUED) && e.to == RUNNING
       case LeaseExpired =>
         e.from == Some(RUNNING) && e.to == QUEUED && prev.value.reason.Claimed? && prev.value.reason.until <= e.at
       case Completed => e.from == Some(RUNNING) && e.to == COMPLETED
       case Blocked(_) => e.from == Some(RUNNING) && e.to == BLOCKED
       case Failure(_) => e.from == Some(RUNNING) && (e.to == QUEUED || e.to == FAILED)
  }

  ghost predicate Entered(log: seq<Transition>, k: nat)
    requires k < |log|
  {
    Follows(LastOf(log[..k], log[k].task), log[k])
  }

  /** For every task the log is one connected path of legal moves. */
  ghost predicate Connected(log: seq<Transition>) {
    forall k :: 0 <= k < |log| ==> Entered(log, k)
  }

  datatype Kind = Claims | Recoveries | Failures

  predicate IsKind(reason: Reason, kind: Kind) {
    match kind
    case Claims => reason.Claimed?
    case Recoveries => reason.LeaseExpired?
    case Failures => reason.Failure?
  }

  /** How many entries of a kind the log has for a task. */
  function Count(log: seq<Transition>, id: string, kind: Kind): nat {
    if log == [] then 0
    else
      var e := log[|log| - 1];
      Count(log[..|log| - 1], id, kind) + if e.task == id && IsKind(e.reason, kind) then 1 else 0
  }

  /** How many entries of a kind the log has. */
  function Total(log: seq<Transition>, kind: Kind): nat {
    if log == [] then 0
    else Total(log[..|log| - 1], kind) + if IsKind(log[|log| - 1].reason, kind) then 1 else 0
  }

  /** What one more entry does to a task's part of the log. */
  lemma LogGrows(log: seq<Transition>, e: Transition, id: string)
    ensures LastOf(log + [e], id) == if id == e.task then Some(e) else LastOf(log, id)
    ensures forall kind ::
      Count(log + [e], id, kind) == Count(log, id, kind) + if e.task == id && IsKind(e.reason, kind) then 1 else 0
  {
    assert (log + [e])[..|log|] == log;
  }

  lemma PathGrows(log: seq<Transition>, e: Transition)
    requires Connected(log) && Follows(LastOf(log, e.task), e)
    ensures Connected(log + [e])
  {
    var longer := log + [e];
    forall k | 0 <= k < |longer| ensures Entered(longer, k) {
      if k < |log| {
        assert Entered(log, k) && longer[..k] == log[..k];
      } else {
        assert longer[..k] == log;
      }
    }
  }

  // ---------------------------------------------------------------------------------------------
  // The invariant.

  predicate Spent(state: TaskState) {
    state == RUNNING || state == COMPLETED || state == BLOCKED
  }

  /** A task row agrees with its part of the log, and its attempts are all accounted for. */
  ghost predicate Accounted(log: seq<Transition>, t: Task) {
    && LastOf(log, t.id).Some? && LastOf(log, t.id).value.to == t.state
    && (t.state == RUNNING <==> t.owner.Some?) && (t.owner.Some? <==> t.until.Some?)
    && (t.state == RUNNING ==> LastOf(log, t.id).value.reason == Claimed(t.owner.value, t.until.value))
    && t.attempts == Count(log, t.id, Claims)
    && t.attempts == Count(log, t.id, Failures) + Count(log, t.id, Recoveries) + (if Spent(t.state) then 1 else 0)
    && 1 <= t.maxAttempts
    && Count(log, t.id, Failures) <= (if t.state == FAILED then t.maxAttempts else t.maxAttempts - 1)
    && (t.state == QUEUED && t.maxAttempts <= t.attempts ==> WasRecovered(log, t.id))
  }

  ghost predicate UniqueRows(tasks: seq<Task>) {
    forall i, j :: 0 <= i < j < |tasks| ==> tasks[i].id != tasks[j].id && tasks[i].key != tasks[j].key
  }

  ghost predicate Inv(q: Queue) {
    && UniqueRows(q.tasks) && Connected(q.log)
    && (forall i :: 0 <= i < |q.tasks| ==> RowOk(q, i))
    && (forall k :: 0 <= k < |q.log| ==> EntryOk(q, k))
  }

  ghost predicate RowOk(q: Queue, i: nat)
    requires i < |q.tasks|
  {
    Accounted(q.log, q.tasks[i])
  }

  /** Every log entry belongs to a task of the table. */
  ghost predicate EntryOk(q: Queue, k: nat)
    requires k < |q.log|
  {
    0 <= IndexOf(q.tasks, q.log[k].task)
  }

  /** A move that keeps the row's identity and its own account keeps the invariant. */
  lemma MoveKeeps(q: Queue, i: nat, task: Task, reason: Reason, at: real)
    requires Inv(q) && i < |q.tasks| && task.id == q.tasks[i].id && task.key == q.tasks[i].key
    requires
      var e := Transition(task.id, Some(q.tasks[i].state), task.state, reason, at);
      Follows(LastOf(q.log, task.id), e) && Accounted(q.log + [e], task)
    ensures Inv(Move(q, i, task, reason, at))
  {
    var e := Transition(task.id, Some(q.tasks[i].state), task.state, reason, at);
    var r := Move(q, i, task, reason, at);
    PathGrows(q.log, e);
    forall j | 0 <= j < |r.tasks| ensures RowOk(r, j) {
      if j != i {
        assert RowOk(q, j) && r.tasks[j].id != task.id;
        LogGrows(q.log, e, r.tasks[j].id);
      }
    }
    forall k | 0 <= k < |r.log| ensures EntryOk(r, k) {
      if k < |q.log| {
        assert EntryOk(q, k);
        var j := IndexOf(q.tasks, q.log[k].task);
        assert r.tasks[j].id == q.log[k].task;
      } else {
        assert r.tasks[i].id == task.id;
      }
    }
  }

  // ---------------------------------------------------------------------------------------------
  // Every operation keeps it.

  lemma SubmitKeeps(q: Queue, task: Task, now: real)
    requires Inv(q) && task.state == QUEUED && task.attempts == 0 && task.owner == None && task.until == None
    ensures Submit(q, task, now).Ok? ==> Inv(Submit(q, task, now).value.0)
  {
    var r := Submit(q, task, now);
    if r.Ok? && r.value.0 != q {
      var s := r.value.0;
      NoEntries(q, task.id, q.log);
      var e := Transition(task.id, None, QUEUED, Submitted, now);
      PathGrows(q.log, e);
      forall j | 0 <= j < |s.tasks| ensures RowOk(s, j) {
        LogGrows(q.log, e, s.tasks[j].id);
        assert j < |q.tasks| ==> RowOk(q, j);
      }
      assert s.tasks[..|q.tasks|] == q.tasks;
      forall k | 0 <= k < |s.log| ensures EntryOk(s, k) {
        assert k < |q.log| ==> EntryOk(q, k);
      }
    }
  }

  /** A task that has no row has no entries. */
  lemma {:induction false} NoEntries(q: Queue, id: string, log: seq<Transition>)
    requires log <= q.log && IndexOf(q.tasks, id) == -1 && forall k :: 0 <= k < |q.log| ==> EntryOk(q, k)
    ensures LastOf(log, id) == None && forall kind :: Count(log, id, kind) == 0
  {
    if log != [] {
      NoEntries(q, id, log[..|log| - 1]);
      assert EntryOk(q, |log| - 1) && q.log[|log| - 1] == log[|log| - 1];
    }
  }

  /** A row after a move, by itself: it follows on from its last entry and stays accounted for. */
  lemma RowMoves(log: seq<Transition>, t: Task, task: Task, reason: Reason, at: real)
    requires Accounted(log, t) && task.id == t.id && task.maxAttempts == t.maxAttempts
    requires
      match reason
      case Claimed(w, u) =>
        && t.state == QUEUED && task.state == RUNNING && task.attempts == t.attempts + 1
        && task.owner == Some(w) && task.until == Some(u)
      case _ => t.state == RUNNING && task.attempts == t.attempts && task.owner == None && task.until == None
    requires
      match reason
      case Submitted => false
      case Claimed(_, _) => true
      case LeaseExpired => task.state == QUEUED && t.until.value <= at
      case Completed => task.state == COMPLETED
      case Blocked(_) => task.state == BLOCKED
      case Failure(_) => task.state == if t.attempts < t.maxAttempts then QUEUED else FAILED
    ensures
      var e := Transition(task.id, Some(t.state), task.state, reason, at);
      Follows(LastOf(log, task.id), e) && Accounted(log + [e], task)
  {
    LogGrows(log, Transition(task.id, Some(t.state), task.state, reason, at), task.id);
  }

  lemma {:induction false} RecoverKeeps(q: Queue, n: nat, now: real)
    requires Inv(q) && n <= |q.tasks|
    ensures Inv(Recover(q, n, now))
  {
    if n > 0 {
      RecoverKeeps(q, n - 1, now);
      var r := Recover(q, n - 1, now);
      if Expired(q.tasks[n - 1], now) {
        RecoverRowKeeps(r, n - 1, now);
      }
    }
  }

  lemma RecoverRowKeeps(q: Queue, i: nat, now: real)
    requires Inv(q) && i < |q.tasks| && Expired(q.tasks[i], now)
    ensures Inv(RecoverRow(q, i, now))
  {
    var t := q.tasks[i];
    var task := t.(state := QUEUED, owner := None, until := None);
    assert RowOk(q, i);
    RowMoves(q.log, t, task, LeaseExpired, now);
    MoveKeeps(q, i, task, LeaseExpired, now);
  }

  lemma ClaimKeeps(q: Queue, i: nat, worker: string, until: real, now: real)
    requires Inv(q) && i < |q.tasks| && q.tasks[i].state == QUEUED
    ensures Inv(ClaimRow(q, i, worker, until, now))
  {
    var t := q.tasks[i];
    var task := t.(state := RUNNING, attempts := t.attempts + 1, owner := Some(worker), until := Some(until));
    assert RowOk(q, i);
    RowMoves(q.log, t, task, Claimed(worker, until), now);
    MoveKeeps(q, i, task, Claimed(worker, until), now);
  }

  lemma FinishKeeps(q: Queue, id: string, worker: string, state: TaskState, reason: Reason, now: real)
    requires Inv(q) && ((state == COMPLETED && reason == Completed) || (state == BLOCKED && reason.Blocked?))
    ensures Finish(q, id, worker, state, reason, now).Ok? ==> Inv(Finish(q, id, worker, state, reason, now).value)
  {
    var i := IndexOf(q.tasks, id);
    if LeasedBy(q, i, worker) {
      var task := q.tasks[i].(state := state, owner := None, until := None);
      assert RowOk(q, i);
      RowMoves(q.log, q.tasks[i], task, reason, now);
      MoveKeeps(q, i, task, reason, now);
    }
  }

  lemma FailKeeps(q: Queue, id: string, worker: string, error: string, delay: real, now: real)
    requires Inv(q)
    ensures Fail(q, id, worker, error, delay, now).Ok? ==> Inv(Fail(q, id, worker, error, delay, now).value)
  {
    var i := IndexOf(q.tasks, id);
    if LeasedBy(q, i, worker) {
      var task := Fail(q, id, worker, error, delay, now).value.tasks[i];
      assert RowOk(q, i);
      RowMoves(q.log, q.tasks[i], task, Failure(error), now);
      MoveKeeps(q, i, task, Failure(error), now);
    }
  }

  // ---------------------------------------------------------------------------------------------
  // Runs.

  datatype Op =
    | CreateMission(mission: string)
    | SubmitTask(id: string, mission: string, kind: string, payload: string, key: string, priority: int,
      maxAttempts: nat, now: real)
    | RecoverLeases(now: real)
    | ClaimNext(worker: string, lease: real, now: real, only: Option<string>)
    | CompleteTask(id: string, worker: string, now: real)
    | BlockTask(id: string, worker: string, why: string, now: real)
    | FailTask(id: string, worker: string, error: string, delay: real, now: real)

  predicate Preferred(a: Task, b: Task) {
    a.priority > b.priority || (a.priority == b.priority && a.createdAt < b.createdAt)
  }

  /** The row a claim may take: due, and no due row has higher priority or, at the same priority, is older. */
  predicate IsBest(tasks: seq<Task>, i: nat, now: real, only: Option<string>)
    requires i < |tasks|
  {
    Due(tasks[i], now, only) && forall j :: 0 <= j < |tasks| && Due(tasks[j], now, only) ==>
      !Preferred(tasks[j], tasks[i])
  }

  ghost predicate NoneDue(tasks: seq<Task>, now: real, only: Option<string>) {
    forall i :: 0 <= i < |tasks| ==> !Due(tasks[i], now, only)
  }

  ghost predicate TakesBest(q: Queue, r: Queue, worker: string, lease: real, now: real, only: Option<string>) {
    if NoneDue(q.tasks, now, only) then r == q
    else
      exists i ::
        && 0 <= i < |q.tasks| && IsBest(q.tasks, i, now, only)
        && r == ClaimRow(q, i, worker, now + lease, now)
  }

  /** One operation; a failed one leaves the tables as they were. */
  ghost predicate StepTo(q: Queue, op: Op, r: Queue) {
    match op
    case CreateMission(m) => r == q.(missions := q.missions + {m})
    case SubmitTask(id, mission, kind, payload, key, priority, max, now) =>
      var s := Submit(q, NewTask(id, mission, kind, payload, key, priority, max, now), now);
      r == if s.Ok? then s.value.0 else q
    case RecoverLeases(now) => r == Recover(q, |q.tasks|, now)
    case ClaimNext(worker, lease, now, only) =>
      if lease <= 0.0 then r == q else TakesBest(Recover(q, |q.tasks|, now), r, worker, lease, now, only)
    case CompleteTask(id, worker, now) =>
      var s := Finish(q, id, worker, COMPLETED, Completed, now); r == if s.Ok? then s.value else q
    case BlockTask(id, worker, why, now) =>
      var s := Finish(q, id, worker, BLOCKED, Blocked(why), now); r == if s.Ok? then s.value else q
    case FailTask(id, worker, error, delay, now) =>
      var s := Fail(q, id, worker, error, delay, now); r == if s.Ok? then s.value else q
  }

  ghost predicate IsRun(run: seq<Queue>, ops: seq<Op>) {
    && |run| == |ops| + 1 && run[0].tasks == [] && run[0].log == []
    && forall i :: 0 <= i < |ops| ==> StepTo(run[i], ops[i], run[i + 1])
  }

  lemma TakeKeeps(q: Queue, r: Queue, worker: string, lease: real, now: real, only: Option<string>)
    requires Inv(q) && TakesBest(q, r, worker, lease, now, only)
    ensures Inv(r)
  {
    if r != q {
      var i :| 0 <= i < |q.tasks| && IsBest(q.tasks, i, now, only) && r == ClaimRow(q, i, worker, now + lease, now);
      ClaimKeeps(q, i, worker, now + lease, now);
    }
  }

  lemma MissionKeeps(q: Queue, mission: string)
    requires Inv(q)
    ensures Inv(q.(missions := q.missions + {mission}))
  {
    var r := q.(missions := q.missions + {mission});
    assert forall i :: 0 <= i < |q.tasks| && RowOk(q, i) ==> RowOk(r, i);
    assert forall k :: 0 <= k < |q.log| && EntryOk(q, k) ==> EntryOk(r, k);
  }

  lemma StepKeeps(q: Queue, op: Op, r: Queue)
    requires Inv(q) && StepTo(q, op, r)
    ensures Inv(r)
  {
    match op
    case CreateMission(m) => MissionKeeps(q, m);
    case SubmitTask(id, mission, kind, payload, key, priority, max, now) =>
      SubmitKeeps(q, NewTask(id, mission, kind, payload, key, priority, max, now), now);
    case RecoverLeases(now) =>
      RecoverKeeps(q, |q.tasks|, now);
    case ClaimNext(worker, lease, now, only) =>
      RecoverKeeps(q, |q.tasks|, now);
      if 0.0 < lease {
        TakeKeeps(Recover(q, |q.tasks|, now), r, worker, lease, now, only);
      }
    case CompleteTask(id, worker, now) =>
      FinishKeeps(q, id, worker, COMPLETED, Completed, now);
    case BlockTask(id, worker, why, now) =>
      FinishKeeps(q, id, worker, BLOCKED, Blocked(why), now);
    case FailTask(id, worker, error, delay, now) =>
      FailKeeps(q, id, worker, error, delay, now);
  }

  lemma {:induction false} RunKeeps(run: seq<Queue>, ops: seq<Op>, i: nat)
    requires IsRun(run, ops) && i < |run|
    ensures Inv(run[i])
  {
    if i > 0 {
      RunKeeps(run, ops, i - 1);
      StepKeeps(run[i - 1], ops[i - 1], run[i]);
    }
  }

  /**
    Conservation: in every run each attempt of a task is a failure, a recovered lease, or the one it now runs or
    ended by; so failures stay within the limit, and attempts exceed it by no more than the recoveries.
   */
  lemma AttemptsAreConserved(run: seq<Queue>, ops: seq<Op>, i: nat, j: nat)
    requires IsRun(run, ops) && i < |run| && j < |run[i].tasks|
    ensures
      var log, t := run[i].log, run[i].tasks[j];
      && t.attempts == Count(log, t.id, Failures) + Count(log, t.id, Recoveries) + (if Spent(t.state) then 1 else 0)
      && Count(log, t.id, Failures) <= t.maxAttempts
      && t.attempts <= t.maxAttempts + Count(log, t.id, Recoveries)
  {
    RunKeeps(run, ops, i);
    assert RowOk(run[i], j);
  }

  /** The limit alone does not bound attempts: a task that may be tried once runs twice when its first lease expires. */
  lemma AttemptsCanExceedLimit() returns (run: seq<Queue>, ops: seq<Op>)
    ensures IsRun(run, ops) && |run[|ops|].tasks| == 1
    ensures run[|ops|].tasks[0].maxAttempts < run[|ops|].tasks[0].attempts
  {
    var task := NewTask("t", "m", "k", "p", "key", 0, 1, 0.0);
    var q0 := Queue({"m"}, [], []);
    var q1 := q0.(tasks := [task], log := [Transition("t", None, QUEUED, Submitted, 0.0)]);
    var q2 := ClaimRow(q1, 0, "a", 1.0, 0.0);
    var q3 := RecoverRow(q2, 0, 1.0);
    var q4 := ClaimRow(q3, 0, "b", 2.0, 1.0);
    ops := [
      SubmitTask("t", "m", "k", "p", "key", 0, 1, 0.0), ClaimNext("a", 1.0, 0.0, None), ClaimNext("b", 1.0, 1.0, None)];
    run := [q0, q1, q2, q4];
    assert Recover(q1, 0, 0.0) == q1 && Recover(q1, 1, 0.0) == q1;
    assert IsBest(q1.tasks, 0, 0.0, None);
    assert StepTo(q1, ops[1], q2);
    assert Recover(q2, 0, 1.0) == q2 && Recover(q2, 1, 1.0) == q3;
    assert IsBest(q3.tasks, 0, 1.0, None);
    assert StepTo(q2, ops[2], q4);
    assert IsRun(run, ops);
  }

  // ---------------------------------------------------------------------------------------------
  // When the limit is passed.

  /** A row as a claim finds it, after the leases that have expired by `now` were recovered. */
  function Freed(t: Task, now: real): Task {
    if Expired(t, now) then t.(state := QUEUED, owner := None, until := None) else t
  }

  function FreedAll(tasks: seq<Task>, now: real): (r: seq<Task>)
    ensures |r| == |tasks| && forall i :: 0 <= i < |tasks| ==> r[i] == Freed(tasks[i], now)
  {
    seq(|tasks|, i requires 0 <= i < |tasks| => Freed(tasks[i], now))
  }

  lemma {:induction false} RecoverFrees(q: Queue, n: nat, now: real)
    requires n <= |q.tasks|
    ensures forall i :: 0 <= i < n ==> Recover(q, n, now).tasks[i] == Freed(q.tasks[i], now)
  {
    if n > 0 {
      RecoverFrees(q, n - 1, now);
    }
  }

  lemma RecoverFreesAll(q: Queue, now: real)
    ensures Recover(q, |q.tasks|, now).tasks == FreedAll(q.tasks, now)
  {
    RecoverFrees(q, |q.tasks|, now);
  }

  /** Every operation but a claim leaves attempts and limits alone. */
  lemma OnlyClaimsAddAttempts(q: Queue, op: Op, r: Queue, j: nat)
    requires StepTo(q, op, r) && !op.ClaimNext? && j < |q.tasks|
    ensures |q.tasks| <= |r.tasks| && r.tasks[j].id == q.tasks[j].id
    ensures r.tasks[j].attempts == q.tasks[j].attempts && r.tasks[j].maxAttempts == q.tasks[j].maxAttempts
  {
    match op
    case RecoverLeases(now) => RecoverFreesAll(q, now);
    case CompleteTask(id, worker, now) => assert Finish(q, id, worker, COMPLETED, Completed, now).Err? ==> r == q;
    case BlockTask(id, worker, why, now) => assert Finish(q, id, worker, BLOCKED, Blocked(why), now).Err? ==> r == q;
    case FailTask(id, worker, error, delay, now) => assert Fail(q, id, worker, error, delay, now).Err? ==> r == q;
    case _ =>
  }

  lemma TakeAddsOne(q: Queue, r: Queue, worker: string, lease: real, now: real, only: Option<string>, j: nat)
    requires TakesBest(q, r, worker, lease, now, only) && j < |q.tasks|
    ensures |q.tasks| == |r.tasks| && r.tasks[j].id == q.tasks[j].id && r.tasks[j].maxAttempts == q.tasks[j].maxAttempts
    ensures r.tasks[j].attempts == q.tasks[j].attempts
      || (r.tasks[j].attempts == q.tasks[j].attempts + 1 && IsBest(q.tasks, j, now, only))
  {
    if r != q {
      var i :| 0 <= i < |q.tasks| && IsBest(q.tasks, i, now, only) && r == ClaimRow(q, i, worker, now + lease, now);
    }
  }

  /** A claim adds one attempt to at most one row, the best of those due once expired leases are recovered. */
  lemma ClaimAddsOne(q: Queue, op: Op, r: Queue, j: nat)
    requires StepTo(q, op, r) && op.ClaimNext? && j < |q.tasks|
    ensures |q.tasks| == |r.tasks| && r.tasks[j].id == q.tasks[j].id && r.tasks[j].maxAttempts == q.tasks[j].maxAttempts
    ensures r.tasks[j].attempts == q.tasks[j].attempts
      || (r.tasks[j].attempts == q.tasks[j].attempts + 1 && IsBest(FreedAll(q.tasks, op.now), j, op.now, op.only))
  {
    RecoverFreesAll(q, op.now);
    if 0.0 < op.lease {
      TakeAddsOne(Recover(q, |q.tasks|, op.now), r, op.worker, op.lease, op.now, op.only, j);
    }
  }

  /** The step takes a row that has used up its attempts. */
  ghost predicate Overtakes(q: Queue, op: Op, r: Queue, j: nat) {
    && op.ClaimNext? && j < |q.tasks| && j < |r.tasks|
    && q.tasks[j].maxAttempts <= q.tasks[j].attempts < r.tasks[j].attempts
  }

  /** What a caller can test before a claim: the row may be taken and has used up its attempts. */
  ghost predicate AtRisk(q: Queue, op: Op, j: nat)
    requires op.ClaimNext? && j < |q.tasks|
  {
    && 0.0 < op.lease && q.tasks[j].maxAttempts <= q.tasks[j].attempts
    && IsBest(FreedAll(q.tasks, op.now), j, op.now, op.only)
  }

  /** The last thing that happened to the task was the recovery of its lease. */
  predicate WasRecovered(log: seq<Transition>, id: string) {
    LastOf(log, id).Some? && LastOf(log, id).value.reason.LeaseExpired?
  }

  /**
    Exactly when a claim can push a row past its limit: when the row has used up its attempts and is a best one to
    take. Such a row had its lease recovered, or has an expired one that this claim recovers.
   */
  lemma ClaimOvertakesIff(q: Queue, op: Op, j: nat)
    requires Inv(q) && op.ClaimNext? && j < |q.tasks|
    ensures (exists r :: StepTo(q, op, r) && Overtakes(q, op, r, j)) <==> AtRisk(q, op, j)
    ensures AtRisk(q, op, j) ==>
      || Expired(q.tasks[j], op.now)
      || (q.tasks[j].state == QUEUED && WasRecovered(q.log, q.tasks[j].id))
  {
    RecoverFreesAll(q, op.now);
    if AtRisk(q, op, j) {
      assert RowOk(q, j);
      var s := Recover(q, |q.tasks|, op.now);
      var r := ClaimRow(s, j, op.worker, op.now + op.lease, op.now);
      assert TakesBest(s, r, op.worker, op.lease, op.now, op.only);
      assert StepTo(q, op, r) && Overtakes(q, op, r, j);
    }
    forall r | StepTo(q, op, r) && Overtakes(q, op, r, j) ensures AtRisk(q, op, j) {
      ClaimAddsOne(q, op, r, j);
    }
  }

  /** In every run a task is within its limit exactly when no claim took it with its attempts used up. */
  lemma {:induction false} WithinLimitIff(run: seq<Queue>, ops: seq<Op>, i: nat, j: nat)
    requires IsRun(run, ops) && i < |run| && j < |run[i].tasks|
    ensures run[i].tasks[j].attempts <= run[i].tasks[j].maxAttempts <==>
      forall k :: 0 <= k < i ==> !Overtakes(run[k], ops[k], run[k + 1], j)
  {
    if i > 0 {
      var q, op, r := run[i - 1], ops[i - 1], run[i];
      if j < |q.tasks| {
        WithinLimitIff(run, ops, i - 1, j);
        StepOvertakesIff(q, op, r, j);
      } else {
        NewRowIsUntried(run, ops, i, j);
      }
    }
  }

  /** One step passes the limit of a row that was within it exactly when it overtakes the row, and never undoes that. */
  lemma StepOvertakesIff(q: Queue, op: Op, r: Queue, j: nat)
    requires StepTo(q, op, r) && j < |q.tasks|
    ensures j < |r.tasks|
    ensures r.tasks[j].attempts <= r.tasks[j].maxAttempts <==>
      q.tasks[j].attempts <= q.tasks[j].maxAttempts && !Overtakes(q, op, r, j)
  {
    if op.ClaimNext? {
      ClaimAddsOne(q, op, r, j);
    } else {
      OnlyClaimsAddAttempts(q, op, r, j);
    }
  }

  /** A row that was not there before has no attempts, and no step before can have taken it. */
  lemma {:induction false} NewRowIsUntried(run: seq<Queue>, ops: seq<Op>, i: nat, j: nat)
    requires IsRun(run, ops) && 0 < i < |run| && |run[i - 1].tasks| <= j < |run[i].tasks|
    ensures run[i].tasks[j].attempts == 0
    ensures forall k :: 0 <= k < i ==> |run[k].tasks| <= j
  {
    assert StepTo(run[i - 1], ops[i - 1], run[i]);
    RowsStay(run, ops, i - 1);
  }

  lemma {:induction false} RowsStay(run: seq<Queue>, ops: seq<Op>, i: nat)
    requires IsRun(run, ops) && i < |run|
    ensures forall k :: 0 <= k <= i ==> |run[k].tasks| <= |run[i].tasks|
  {
    if i > 0 {
      RowsStay(run, ops, i - 1);
      assert StepTo(run[i - 1], ops[i - 1], run[i]);
    }
  }

  // ---------------------------------------------------------------------------------------------
  // Which task is claimed, and when.

  /** The step leases row j. */
  ghost predicate Takes(q: Queue, op: Op, r: Queue, j: nat) {
    op.ClaimNext? && j < |q.tasks| && j < |r.tasks| && q.tasks[j].attempts < r.tasks[j].attempts
  }

  /** The row waits: queued, or running under a lease that has expired by `now`. */
  predicate Waits(t: Task, now: real) {
    t.state == QUEUED || (t.state == RUNNING && t.until.Some? && t.until.value <= now)
  }

  /**
    A claim takes a row that waits, whose time has come, of the mission asked for; no other such row has a higher
    priority, or the same priority and an earlier creation.
   */
  lemma ClaimIsFair(q: Queue, op: Op, r: Queue, j: nat, k: nat)
    requires StepTo(q, op, r) && Takes(q, op, r, j) && k < |q.tasks|
    ensures
      var t, u := q.tasks[j], q.tasks[k];
      && Waits(t, op.now) && t.nextRunAt <= op.now && (op.only.Some? ==> t.mission == op.only.value)
      && (Waits(u, op.now) && u.nextRunAt <= op.now && (op.only.Some? ==> u.mission == op.only.value) ==>
            u.priority <= t.priority && (u.priority == t.priority ==> t.createdAt <= u.createdAt))
  {
    ClaimAddsOne(q, op, r, j);
    var freed := FreedAll(q.tasks, op.now);
    assert IsBest(freed, j, op.now, op.only);
    assert Due(freed[k], op.now, op.only) ==> !Preferred(freed[k], freed[j]);
  }

  /** The step is a failure reported by the worker that holds row j. */
  ghost predicate FailsRow(q: Queue, op: Op, j: nat) {
    && op.FailTask? && j < |q.tasks| && IndexOf(q.tasks, op.id) == j
    && q.tasks[j].state == RUNNING && q.tasks[j].owner == Some(op.worker)
  }

  /** A failure puts the task off by its delay, queues it again while attempts are left, and keeps the error. */
  lemma FailureDoes(q: Queue, op: Op, r: Queue, j: nat)
    requires StepTo(q, op, r) && FailsRow(q, op, j)
    ensures
      var t := q.tasks[j];
      && j < |r.tasks| && r.tasks[j].nextRunAt == op.now + (if 0.0 < op.delay then op.delay else 0.0)
      && r.tasks[j].state == (if t.attempts < t.maxAttempts then QUEUED else FAILED)
      && r.tasks[j].lastError == Some(op.error)
  {
  }

  /** Only a failure changes the time from which a task may run. */
  lemma OnlyFailuresMoveTime(q: Queue, op: Op, r: Queue, j: nat)
    requires StepTo(q, op, r) && j < |q.tasks| && !FailsRow(q, op, j)
    ensures j < |r.tasks| && r.tasks[j].nextRunAt == q.tasks[j].nextRunAt
  {
    match op
    case RecoverLeases(now) => RecoverFreesAll(q, now);
    case ClaimNext(worker, lease, now, only) => ClaimLeavesTime(q, op, r, j);
    case CompleteTask(id, worker, now) => assert Finish(q, id, worker, COMPLETED, Completed, now).Err? ==> r == q;
    case BlockTask(id, worker, why, now) => assert Finish(q, id, worker, BLOCKED, Blocked(why), now).Err? ==> r == q;
    case FailTask(id, worker, error, delay, now) => assert Fail(q, id, worker, error, delay, now).Err? ==> r == q;
    case _ =>
  }

  lemma ClaimLeavesTime(q: Queue, op: Op, r: Queue, j: nat)
    requires StepTo(q, op, r) && op.ClaimNext? && j < |q.tasks|
    ensures j < |r.tasks| && r.tasks[j].nextRunAt == q.tasks[j].nextRunAt
  {
    RecoverFreesAll(q, op.now);
    if 0.0 < op.lease {
      TakeLeavesTime(Recover(q, |q.tasks|, op.now), r, op.worker, op.lease, op.now, op.only, j);
    }
  }

  lemma TakeLeavesTime(q: Queue, r: Queue, worker: string, lease: real, now: real, only: Option<string>, j: nat)
    requires TakesBest(q, r, worker, lease, now, only) && j < |q.tasks|
    ensures j < |r.tasks| && r.tasks[j].nextRunAt == q.tasks[j].nextRunAt
  {
    if r != q {
      var i :| 0 <= i < |q.tasks| && IsBest(q.tasks, i, now, only) && r == ClaimRow(q, i, worker, now + lease, now);
    }
  }

  lemma {:induction false} TimeStays(run: seq<Queue>, ops: seq<Op>, p: nat, i: nat, j: nat)
    requires IsRun(run, ops) && p <= i < |run| && j < |run[p].tasks|
    requires forall k :: p <= k < i ==> !FailsRow(run[k], ops[k], j)
    ensures j < |run[i].tasks| && run[i].tasks[j].nextRunAt == run[p].tasks[j].nextRunAt
    decreases i - p
  {
    if p < i {
      TimeStays(run, ops, p, i - 1, j);
      TimeStaysAt(run, ops, i - 1, j);
    }
  }

  lemma TimeStaysAt(run: seq<Queue>, ops: seq<Op>, i: nat, j: nat)
    requires IsRun(run, ops) && i < |ops| && j < |run[i].tasks| && !FailsRow(run[i], ops[i], j)
    ensures j < |run[i + 1].tasks| && run[i + 1].tasks[j].nextRunAt == run[i].tasks[j].nextRunAt
  {
    OnlyFailuresMoveTime(run[i], ops[i], run[i + 1], j);
  }

  /** In every run, a task that failed with a delay is not claimed again before the delay is over. */
  lemma NotClaimedBeforeDelay(run: seq<Queue>, ops: seq<Op>, p: nat, i: nat, j: nat)
    requires IsRun(run, ops) && p < i < |ops| && FailsRow(run[p], ops[p], j) && Takes(run[i], ops[i], run[i + 1], j)
    requires forall k :: p < k < i ==> !FailsRow(run[k], ops[k], j)
    ensures ops[p].now <= ops[i].now && ops[p].now + ops[p].delay <= ops[i].now
  {
    assert StepTo(run[p], ops[p], run[p + 1]) && StepTo(run[i], ops[i], run[i + 1]);
    FailureDoes(run[p], ops[p], run[p + 1], j);
    TimeStays(run, ops, p + 1, i, j);
    ClaimIsFair(run[i], ops[i], run[i + 1], j, j);
  }

  /** Nor is a task claimed before the time of its submission, as long as it has not failed. */
  lemma NotClaimedBeforeSubmission(run: seq<Queue>, ops: seq<Op>, p: nat, i: nat, j: nat)
    requires IsRun(run, ops) && p < i < |ops| && j == |run[p].tasks| < |run[p + 1].tasks|
    requires Takes(run[i], ops[i], run[i + 1], j) && forall k :: p < k < i ==> !FailsRow(run[k], ops[k], j)
    ensures ops[p].SubmitTask? && ops[p].now <= ops[i].now
  {
    assert StepTo(run[p], ops[p], run[p + 1]) && StepTo(run[i], ops[i], run[i + 1]);
    OnlySubmissionsAddRows(run[p], ops[p], run[p + 1]);
    TimeStays(run, ops, p + 1, i, j);
    ClaimIsFair(run[i], ops[i], run[i + 1], j, j);
  }

  /** A submission adds a row exactly when tries are allowed, key and id are new, and the mission is known. */
  lemma SubmitsIff(q: Queue, task: Task, now: real)
    ensures
      var r := Submit(q, task, now);
      var newKey := forall i :: 0 <= i < |q.tasks| ==> q.tasks[i].key != task.key;
      var newId := forall i :: 0 <= i < |q.tasks| ==> q.tasks[i].id != task.id;
      && (r == Err(BadArgument) <==> task.maxAttempts == 0)
      && (r.Ok? && |q.tasks| < |r.value.0.tasks| <==>
            1 <= task.maxAttempts && newKey && newId && task.mission in q.missions)
      && (1 <= task.maxAttempts && !newKey ==>
            && r.Ok? && r.value.0 == q
            && exists i :: 0 <= i < |q.tasks| && q.tasks[i].key == task.key && q.tasks[i].id == r.value.1)
  {
  }

  /** A new row is as submitted: queued, untried, due at once. */
  lemma OnlySubmissionsAddRows(q: Queue, op: Op, r: Queue)
    requires StepTo(q, op, r) && |q.tasks| < |r.tasks|
    ensures op.SubmitTask? && |r.tasks| == |q.tasks| + 1
    ensures
      var t := r.tasks[|q.tasks|];
      && t.id == op.id && t.mission == op.mission && t.kind == op.kind && t.payload == op.payload && t.key == op.key
      && t.priority == op.priority && t.maxAttempts == op.maxAttempts && t.createdAt == t.nextRunAt == op.now
      && t.state == QUEUED && t.attempts == 0
  {
  }

  // ---------------------------------------------------------------------------------------------
  // Leases.

  /** Only the worker of the task's latest claim, with no entry since, can complete, block or fail it. */
  lemma FinishMatchesLatestClaim(q: Queue, id: string, worker: string)
    requires Inv(q) && LeasedBy(q, IndexOf(q.tasks, id), worker)
    ensures LastOf(q.log, id).Some? && LastOf(q.log, id).value.reason.Claimed?
    ensures LastOf(q.log, id).value.reason.worker == worker
  {
    assert RowOk(q, IndexOf(q.tasks, id));
  }

  /** The entry of a task that follows entry k, given that there is a later one. */
  lemma {:induction false} NextEntry(log: seq<Transition>, k: nat, m: nat) returns (n: nat)
    requires Connected(log) && k < m < |log| && log[k].task == log[m].task
    ensures k < n <= m && log[n].task == log[k].task && Follows(Some(log[k]), log[n])
  {
    n := k + 1;
    assert log[..n][k] == log[k];
    while log[n].task != log[k].task
      invariant k < n <= m && LastOf(log[..n], log[k].task) == Some(log[k])
      decreases m - n
    {
      assert log[..n + 1][..n] == log[..n];
      n := n + 1;
    }
    assert Entered(log, n);
  }

  /** Entry `e` ends the lease that `claim` began: by failure, or by recovery at or past its deadline. */
  ghost predicate Releases(claim: Transition, e: Transition)
    requires claim.reason.Claimed?
  {
    e.task == claim.task && (e.reason.Failure? || (e.reason.LeaseExpired? && claim.reason.until <= e.at))
  }

  /**
    Between two claims of a task there is a failure, or a recovery at or past the deadline of the first claim;
    so no two workers hold it at once while the first deadline has not passed.
   */
  lemma ClaimedAgainOnlyAfterRelease(run: seq<Queue>, ops: seq<Op>, i: nat, k: nat, m: nat)
    requires IsRun(run, ops) && i < |run| && k < m < |run[i].log|
    requires run[i].log[k].task == run[i].log[m].task && run[i].log[k].reason.Claimed? && run[i].log[m].reason.Claimed?
    ensures exists n :: k < n < m && Releases(run[i].log[k], run[i].log[n])
  {
    RunKeeps(run, ops, i);
    var log := run[i].log;
    var n := NextEntry(log, k, m);
    assert Entered(log, k) && Entered(log, m);
    if log[n].reason.Completed? || log[n].reason.Blocked? {
      var o := NextEntry(log, n, m);
      assert false;
    }
  }

  /** Nothing follows completion, blocking or final failure. */
  lemma FinishedIsFinal(run: seq<Queue>, ops: seq<Op>, i: nat, k: nat, m: nat)
    requires IsRun(run, ops) && i < |run| && k < m < |run[i].log|
    requires run[i].log[k].to == COMPLETED || run[i].log[k].to == BLOCKED || run[i].log[k].to == FAILED
    ensures run[i].log[m].task != run[i].log[k].task
  {
    RunKeeps(run, ops, i);
    var log := run[i].log;
    if log[m].task == log[k].task {
      var n := NextEntry(log, k, m);
      assert false;
    }
  }

  // ---------------------------------------------------------------------------------------------
  // How many claims it takes.

  function SumMax(tasks: seq<Task>): nat {
    if tasks == [] then 0 else SumMax(tasks[..|tasks| - 1]) + tasks[|tasks| - 1].maxAttempts
  }

  function SumCount(tasks: seq<Task>, log: seq<Transition>, kind: Kind): nat {
    if tasks == [] then 0
    else SumCount(tasks[..|tasks| - 1], log, kind) + Count(log, tasks[|tasks| - 1].id, kind)
  }

  lemma {:induction false} SumCountGrows(tasks: seq<Task>, log: seq<Transition>, e: Transition, kind: Kind)
    requires forall i, j :: 0 <= i < j < |tasks| ==> tasks[i].id != tasks[j].id
    ensures SumCount(tasks, log + [e], kind) ==
      SumCount(tasks, log, kind) + if 0 <= IndexOf(tasks, e.task) && IsKind(e.reason, kind) then 1 else 0
  {
    if tasks != [] {
      var n := |tasks| - 1;
      SumCountGrows(tasks[..n], log, e, kind);
      LogGrows(log, e, tasks[n].id);
      assert tasks[n].id == e.task ==> IndexOf(tasks[..n], e.task) == -1;
    }
  }

  lemma {:induction false} SumCountOfEmptyLog(tasks: seq<Task>, kind: Kind)
    ensures SumCount(tasks, [], kind) == 0
  {
    if tasks != [] {
      SumCountOfEmptyLog(tasks[..|tasks| - 1], kind);
    }
  }

  /** Every entry is counted for exactly one task. */
  lemma {:induction false} SumCountIsTotal(q: Queue, n: nat, kind: Kind)
    requires Inv(q) && n <= |q.log|
    ensures SumCount(q.tasks, q.log[..n], kind) == Total(q.log[..n], kind)
  {
    if n == 0 {
      SumCountOfEmptyLog(q.tasks, kind);
    } else {
      SumCountIsTotal(q, n - 1, kind);
      assert EntryOk(q, n - 1);
      SumCountGrows(q.tasks, q.log[..n - 1], q.log[n - 1], kind);
      TotalGrows(q.log[..n - 1], q.log[n - 1], kind);
      assert q.log[..n] == q.log[..n - 1] + [q.log[n - 1]];
    }
  }

  lemma TotalGrows(log: seq<Transition>, e: Transition, kind: Kind)
    ensures Total(log + [e], kind) == Total(log, kind) + if IsKind(e.reason, kind) then 1 else 0
  {
    assert (log + [e])[..|log|] == log;
  }

  lemma {:induction false} SumsAreBounded(q: Queue, n: nat)
    requires Inv(q) && n <= |q.tasks|
    ensures SumCount(q.tasks[..n], q.log, Claims) <= SumMax(q.tasks[..n]) + SumCount(q.tasks[..n], q.log, Recoveries)
  {
    if n > 0 {
      SumsAreBounded(q, n - 1);
      assert q.tasks[..n][..n - 1] == q.tasks[..n - 1];
      assert RowOk(q, n - 1);
    }
  }

  /**
    In every run the claims made are at most the sum of the limits plus the leases recovered; with no lease
    expiring, draining the queue takes at most the sum of the limits.
   */
  lemma ClaimsAreBounded(run: seq<Queue>, ops: seq<Op>, i: nat)
    requires IsRun(run, ops) && i < |run|
    ensures Total(run[i].log, Claims) <= SumMax(run[i].tasks) + Total(run[i].log, Recoveries)
  {
    var q := run[i];
    RunKeeps(run, ops, i);
    SumCountIsTotal(q, |q.log|, Claims);
    SumCountIsTotal(q, |q.log|, Recoveries);
    assert q.log[..|q.log|] == q.log && q.tasks[..|q.tasks|] == q.tasks;
    SumsAreBounded(q, |q.tasks|);
  }

  /** Submitting again under the same key gives back the same task and changes nothing. */
  lemma SubmitIsIdempotent(q: Queue, task: Task, now: real, again: Task, later: real)
    requires Submit(q, task, now).Ok? && UniqueRows(q.tasks)
    requires again.key == task.key && 1 <= again.maxAttempts
    ensures
      var (r, id) := Submit(q, task, now).value;
      Submit(r, again, later) == Ok((r, id))
  {
    var (r, id) := Submit(q, task, now).value;
    var i := KeyIndex(r.tasks, again.key);
    if r != q {
      assert r.tasks[|q.tasks|] == task;
    }
  }

  // ---------------------------------------------------------------------------------------------
  // The store as it runs.

  datatype Lease = Lease(
    id: string, mission: string, kind: string, payload: string, attempts: nat, maxAttempts: nat, owner: string,
    until: real)

  predicate IsLease(t: Task, granted: Lease, until: real) {
    granted == Lease(t.id, t.mission, t.kind, t.payload, t.attempts, t.maxAttempts, granted.owner, until)
    && t.owner == Some(granted.owner) && t.until == Some(until)
  }

  class StateStore {
    var missions: set<string>
    var tasks: seq<Task>
    var log: seq<Transition>

    function State(): Queue
      reads this
    {
      Queue(missions, tasks, log)
    }

    constructor ()
      ensures State() == Queue({}, [], [])
    {
      missions, tasks, log := {}, [], [];
    }

    method SubmitTask(id: string, mission: string, kind: string, payload: string, key: string, priority: int,
                      maxAttempts: nat, now: real) returns (r: Result<string, QueueError>)
      modifies this
      ensures StepTo(old(State()), Op.SubmitTask(id, mission, kind, payload, key, priority, maxAttempts, now), State())
      ensures
        var task := NewTask(id, mission, kind, payload, key, priority, maxAttempts, now);
        r.Ok? <==> Submit(old(State()), task, now).Ok?
      ensures r.Ok? ==> 0 <= IndexOf(tasks, r.value)
      ensures r.Ok? ==> exists i :: 0 <= i < |tasks| && tasks[i].key == key && tasks[i].id == r.value
    {
      if maxAttempts < 1 {
        return Err(BadArgument);
      }
      var existing := KeyIndex(tasks, key);
      if 0 <= existing {
        return Ok(tasks[existing].id);
      }
      if mission !in missions || 0 <= IndexOf(tasks, id) {
        return Err(ConstraintViolated);
      }
      var task := NewTask(id, mission, kind, payload, key, priority, maxAttempts, now);
      tasks, log := tasks + [task], log + [Transition(id, None, QUEUED, Submitted, now)];
      assert tasks[|tasks| - 1] == task;
      return Ok(id);
    }

    /** Puts every running task whose deadline has come back in the queue. */
    method RecoverExpiredLeases(now: real) returns (recovered: nat)
      modifies this
      ensures State() == Recover(old(State()), |old(tasks)|, now)
      ensures forall i :: 0 <= i < |tasks| ==> !Expired(tasks[i], now)
      ensures |log| == |old(log)| + recovered
    {
      recovered := 0;
      ghost var start := State();
      for i := 0 to |tasks|
        invariant |tasks| == |start.tasks| && State() == Recover(start, i, now)
        invariant |log| == |start.log| + recovered
      {
        if Expired(tasks[i], now) {
          var t := tasks[i];
          log := log + [Transition(t.id, Some(RUNNING), QUEUED, LeaseExpired, now)];
          tasks := tasks[i := t.(state := QUEUED, owner := None, until := None)];
          recovered := recovered + 1;
        }
      }
    }

    /** Recovers expired leases, then leases the best due task to the worker. */
    method ClaimNext(worker: string, lease: real, now: real, only: Option<string>)
      returns (r: Result<Option<Lease>, QueueError>)
      modifies this
      ensures r == Err(BadArgument) <==> lease <= 0.0
      ensures StepTo(old(State()), Op.ClaimNext(worker, lease, now, only), State())
      ensures r == Ok(None) <==> 0.0 < lease && NoneDue(FreedAll(old(tasks), now), now, only)
      ensures r == Ok(None) ==> State() == Recover(old(State()), |old(tasks)|, now)
      ensures r.Ok? && r.value.Some? ==>
        exists i :: 0 <= i < |tasks| && LeasedBy(State(), i, worker) && IsLease(tasks[i], r.value.value, now + lease)
    {
      if lease <= 0.0 {
        return Err(BadArgument);
      }
      RecoverFreesAll(State(), now);
      var _ := RecoverExpiredLeases(now);
      var best := SelectBest(tasks, now, only);
      if best == -1 {
        return Ok(None);
      }
      var granted := Grant(best, worker, now + lease, now);
      return Ok(Some(granted));
    }

    /** Leases one queued row to a worker. */
    method Grant(i: nat, worker: string, until: real, now: real) returns (granted: Lease)
      requires i < |tasks| && tasks[i].state == QUEUED
      modifies this
      ensures State() == ClaimRow(old(State()), i, worker, until, now)
      ensures LeasedBy(State(), i, worker) && IsLease(tasks[i], granted, until)
    {
      var t := tasks[i];
      log := log + [Transition(t.id, Some(QUEUED), RUNNING, Claimed(worker, until), now)];
      tasks := tasks[i := t.(
        state := RUNNING, attempts := t.attempts + 1, owner := Some(worker), until := Some(until))];
      return Lease(t.id, t.mission, t.kind, t.payload, t.attempts + 1, t.maxAttempts, worker, until);
    }

    method FinishRunning(id: string, worker: string, state: TaskState, reason: Reason, now: real) returns (ok: bool)
      modifies this
      ensures ok <==> LeasedBy(old(State()), IndexOf(old(tasks), id), worker)
      ensures State() == if ok then Finish(old(State()), id, worker, state, reason, now).value else old(State())
    {
      var i := IndexOf(tasks, id);
      if !LeasedBy(State(), i, worker) {
        return false;
      }
      log := log + [Transition(tasks[i].id, Some(RUNNING), state, reason, now)];
      tasks := tasks[i := tasks[i].(state := state, owner := None, until := None)];
      return true;
    }

    method FailTask(id: string, worker: string, error: string, delay: real, now: real)
      returns (r: Result<TaskState, QueueError>)
      modifies this
      ensures r.Ok? <==> LeasedBy(old(State()), IndexOf(old(tasks), id), worker)
      ensures StepTo(old(State()), Op.FailTask(id, worker, error, delay, now), State())
      ensures r.Ok? ==> tasks[IndexOf(old(tasks), id)].state == r.value
      ensures r.Ok? ==>
        tasks[IndexOf(old(tasks), id)].nextRunAt == now + (if 0.0 < delay then delay else 0.0)
    {
      var i := IndexOf(tasks, id);
      if !LeasedBy(State(), i, worker) {
        return Err(NotLeasedByWorker);
      }
      var t := tasks[i];
      var target := if t.attempts < t.maxAttempts then QUEUED else FAILED;
      var nextRun := now + if delay < 0.0 then 0.0 else delay;
      log := log + [Transition(t.id, Some(RUNNING), target, Failure(error), now)];
      tasks := tasks[i := t.(
        state := target, owner := None, until := None, lastError := Some(error), nextRunAt := nextRun)];
      return Ok(target);
    }
  }

  /** The best due row, the first one among equals; -1 when none is due. */
  method SelectBest(tasks: seq<Task>, now: real, only: Option<string>) returns (best: int)
    ensures -1 <= best < |tasks|
    ensures 0 <= best ==> IsBest(tasks, best, now, only)
    ensures best == -1 <==> NoneDue(tasks, now, only)
  {
    best := -1;
    for i := 0 to |tasks|
      invariant -1 <= best < i
      invariant 0 <= best ==> Due(tasks[best], now, only)
      invariant forall j :: 0 <= j < i && Due(tasks[j], now, only) ==> 0 <= best && !Preferred(tasks[j], tasks[best])
    {
      if Due(tasks[i], now, only) && (best == -1 || Preferred(tasks[i], tasks[best])) {
        best := i;
      }
    }
  }
}
