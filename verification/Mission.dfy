/**
  Missions: the state machine, its log, and the signed proof without which no mission completes.
  Hash and signature are arbitrary functions; that signatures are not forged is the one assumption of a run.
 */
module Mission {
  import opened Wrappers

  datatype MissionState =
    | CREATED | AUTHORIZED | DISCOVERING | RUNNING | DEGRADED | BLOCKED | WAITING_HUMAN | CONTAINED
    | VALIDATING | COMPLETED | FAILED_SAFE | CANCELLED

  function Successors(s: MissionState): set<MissionState> {
    match s
    case CREATED => {AUTHORIZED, CANCELLED}
    case AUTHORIZED => {DISCOVERING, RUNNING, CANCELLED, FAILED_SAFE}
    case DISCOVERING => {RUNNING, DEGRADED, BLOCKED, FAILED_SAFE, CANCELLED}
    case RUNNING => {DEGRADED, BLOCKED, WAITING_HUMAN, CONTAINED, VALIDATING, FAILED_SAFE, CANCELLED}
    case DEGRADED => {RUNNING, BLOCKED, WAITING_HUMAN, CONTAINED, VALIDATING, FAILED_SAFE, CANCELLED}
    case BLOCKED => {RUNNING, WAITING_HUMAN, CONTAINED, FAILED_SAFE, CANCELLED}
    case WAITING_HUMAN => {RUNNING, CONTAINED, FAILED_SAFE, CANCELLED}
    case CONTAINED => {RUNNING, WAITING_HUMAN, VALIDATING, FAILED_SAFE, CANCELLED}
    case VALIDATING => {RUNNING, DEGRADED, COMPLETED, FAILED_SAFE}
    case COMPLETED => {}
    case FAILED_SAFE => {RUNNING, CANCELLED}
    case CANCELLED => {}
  }

  /** The graph from the other end: where a mission in a state can have come from. */
  lemma ComesFrom(s: MissionState, to: MissionState)
    ensures to in Successors(s) <==>
      match to
      case CREATED => false
      case AUTHORIZED => s == CREATED
      case DISCOVERING => s == AUTHORIZED
      case RUNNING => s != RUNNING && s != CREATED && s != COMPLETED && s != CANCELLED
      case DEGRADED => s in {DISCOVERING, RUNNING, VALIDATING}
      case BLOCKED => s in {DISCOVERING, RUNNING, DEGRADED}
      case WAITING_HUMAN => s in {RUNNING, DEGRADED, BLOCKED, CONTAINED}
      case CONTAINED => s in {RUNNING, DEGRADED, BLOCKED, WAITING_HUMAN}
      case VALIDATING => s in {RUNNING, DEGRADED, CONTAINED}
      case COMPLETED => s == VALIDATING
      case FAILED_SAFE => s != FAILED_SAFE && s != CREATED && s != COMPLETED && s != CANCELLED
      case CANCELLED => s != VALIDATING && s != COMPLETED && s != CANCELLED
  {
  }

  ghost predicate IsPath(path: seq<MissionState>) {
    forall i :: 0 < i < |path| ==> path[i] in Successors(path[i - 1])
  }

  /** Only the two ends are dead ends: from any other state a mission can complete, and in two moves be cancelled. */
  lemma NoDeadEnds(s: MissionState) returns (done: seq<MissionState>, dropped: seq<MissionState>)
    requires s != COMPLETED && s != CANCELLED
    ensures IsPath(done) && 1 < |done| <= 5 && done[0] == s && done[|done| - 1] == COMPLETED
    ensures IsPath(dropped) && 1 < |dropped| <= 3 && dropped[0] == s && dropped[|dropped| - 1] == CANCELLED
  {
    done := match s
      case CREATED => [s, AUTHORIZED, RUNNING, VALIDATING, COMPLETED]
      case RUNNING => [s, VALIDATING, COMPLETED]
      case VALIDATING => [s, COMPLETED]
      case _ => [s, RUNNING, VALIDATING, COMPLETED];
    dropped := if s == VALIDATING then [s, RUNNING, CANCELLED] else [s, CANCELLED];
  }

  // ---------------------------------------------------------------------------------------------
  // Proofs.

  const REQUIRED_GATES: seq<string> := [
    "scope_explicit", "observable_result_achieved", "relevant_tests_passed", "regression_validated",
    "recovery_validated", "security_validated", "evidence_preserved", "no_critical_blocker", "independent_audit_passed"]

  /** The gates of a scope; only the value true passes. */
  type Gates = map<string, bool>

  predicate Passed(gates: Gates, name: string) {
    name in gates && gates[name]
  }

  datatype Payload = Payload(scope: string, proven: bool, missing: seq<string>, digest: string)

  datatype MissionProof = MissionProof(payload: Payload, signature: string)

  function Missing(gates: Gates, names: seq<string>): seq<string> {
    if names == [] then []
    else
      var rest := Missing(gates, names[..|names| - 1]);
      var name := names[|names| - 1];
      if Passed(gates, name) then rest else rest + [name]
  }

  function Normalized(gates: Gates): seq<bool> {
    seq(|REQUIRED_GATES|, i requires 0 <= i < |REQUIRED_GATES| => Passed(gates, REQUIRED_GATES[i]))
  }

  /** Nothing is missing exactly when every gate passed. */
  lemma {:induction false} MissingNothing(gates: Gates, names: seq<string>)
    ensures Missing(gates, names) == [] <==> forall i :: 0 <= i < |names| ==> Passed(gates, names[i])
  {
    if names != [] {
      MissingNothing(gates, names[..|names| - 1]);
    }
  }

  /** The gate is there and true. */
  predicate IsTrue(gates: Gates, name: string) {
    match if name in gates then Some(gates[name]) else None
    case Some(value) => value == true
    case None => false
  }

  predicate AllNine(gates: Gates) {
    && IsTrue(gates, "scope_explicit") && IsTrue(gates, "observable_result_achieved")
    && IsTrue(gates, "relevant_tests_passed") && IsTrue(gates, "regression_validated")
    && IsTrue(gates, "recovery_validated") && IsTrue(gates, "security_validated")
    && IsTrue(gates, "evidence_preserved") && IsTrue(gates, "no_critical_blocker")
    && IsTrue(gates, "independent_audit_passed")
  }

  lemma AllNineIff(gates: Gates)
    ensures AllNine(gates) <==> forall g :: 0 <= g < |REQUIRED_GATES| ==> Passed(gates, REQUIRED_GATES[g])
  {
    if forall g :: 0 <= g < |REQUIRED_GATES| ==> Passed(gates, REQUIRED_GATES[g]) {
      assert Passed(gates, REQUIRED_GATES[0]) && Passed(gates, REQUIRED_GATES[1]) && Passed(gates, REQUIRED_GATES[2]);
      assert Passed(gates, REQUIRED_GATES[3]) && Passed(gates, REQUIRED_GATES[4]) && Passed(gates, REQUIRED_GATES[5]);
      assert Passed(gates, REQUIRED_GATES[6]) && Passed(gates, REQUIRED_GATES[7]) && Passed(gates, REQUIRED_GATES[8]);
    }
  }

  /** What is missing is exactly the gates that did not pass. */
  lemma {:induction false} MissingIs(gates: Gates, names: seq<string>, g: string)
    ensures g in Missing(gates, names) <==> g in names && !Passed(gates, g)
  {
    if names != [] {
      MissingIs(gates, names[..|names| - 1], g);
      assert names == names[..|names| - 1] + [names[|names| - 1]];
    }
  }

  datatype Keys = Keys(digest: seq<bool> -> string, sign: Payload -> string)

  function Evaluated(keys: Keys, scope: string, gates: Gates): MissionProof {
    var missing := Missing(gates, REQUIRED_GATES);
    var payload := Payload(scope, missing == [], missing, keys.digest(Normalized(gates)));
    MissionProof(payload, keys.sign(payload))
  }

  predicate Verifies(keys: Keys, proof: MissionProof, scope: string) {
    && proof.payload.scope == scope && proof.payload.proven && proof.payload.missing == []
    && keys.sign(proof.payload) == proof.signature
  }

  /** What is evaluated verifies for its own scope when all gates passed, and for nothing else. */
  lemma VerifiesOnlyItsOwn(keys: Keys, scope: string, gates: Gates, other: string)
    ensures Verifies(keys, Evaluated(keys, scope, gates), other) <==>
      other == scope && forall i :: 0 <= i < |REQUIRED_GATES| ==> Passed(gates, REQUIRED_GATES[i])
  {
    MissingNothing(gates, REQUIRED_GATES);
  }

  /** The payload binds the result: two evaluations with one payload are of one scope and agree on every gate. */
  lemma PayloadBindsGates(keys: Keys, a: string, x: Gates, b: string, y: Gates, g: string)
    requires Evaluated(keys, a, x).payload == Evaluated(keys, b, y).payload && g in REQUIRED_GATES
    ensures a == b && (Passed(x, g) <==> Passed(y, g))
  {
    MissingIs(x, REQUIRED_GATES, g);
    MissingIs(y, REQUIRED_GATES, g);
  }

  // ---------------------------------------------------------------------------------------------
  // The engine's tables.

  datatype Entry = Entry(mission: string, from: Option<MissionState>, to: MissionState, reason: string)

  datatype Row = Row(state: MissionState, version: nat)

  datatype Evaluation = Evaluation(scope: string, gates: Gates)

  /** Missions, their log, and the evaluations made so far. */
  datatype Engine = Engine(missions: map<string, Row>, log: seq<Entry>, evaluations: seq<Evaluation>)

  datatype EngineError = AlreadyExists | NotFound | InvalidTransition | ProofRequired

  function Create(e: Engine, mission: string): Result<Engine, EngineError> {
    if mission in e.missions then Err(AlreadyExists)
    else Ok(e.(missions := e.missions[mission := Row(CREATED, 1)],
               log := e.log + [Entry(mission, None, CREATED, "created")]))
  }

  function Transition(
    keys: Keys, e: Engine, mission: string, to: MissionState, reason: string, proof: Option<MissionProof>)
    : Result<Engine, EngineError>
  {
    if mission !in e.missions then Err(NotFound)
    else
      var row := e.missions[mission];
      if to !in Successors(row.state) then Err(InvalidTransition)
      else if to == COMPLETED && (proof.None? || !Verifies(keys, proof.value, mission)) then Err(ProofRequired)
      else Ok(e.(missions := e.missions[mission := Row(to, row.version + 1)],
                 log := e.log + [Entry(mission, Some(row.state), to, reason)]))
  }

  datatype Op =
    | CreateMission(mission: string)
    | Evaluate(scope: string, gates: Gates)
    | Move(mission: string, to: MissionState, reason: string, proof: Option<MissionProof>)

  function Step(keys: Keys, e: Engine, op: Op): Engine {
    match op
    case CreateMission(m) => var r := Create(e, m); if r.Ok? then r.value else e
    case Evaluate(scope, gates) => e.(evaluations := e.evaluations + [Evaluation(scope, gates)])
    case Move(m, to, reason, proof) => var r := Transition(keys, e, m, to, reason, proof); if r.Ok? then r.value else e
  }

  /** Nobody but the proof engine makes signatures: a proof with a right signature was evaluated before. */
  ghost predicate NotForged(keys: Keys, e: Engine, op: Op) {
    op.Move? && op.proof.Some? && keys.sign(op.proof.value.payload) == op.proof.value.signature ==>
      exists i :: 0 <= i < |e.evaluations| &&
        Evaluated(keys, e.evaluations[i].scope, e.evaluations[i].gates).payload == op.proof.value.payload
  }

  ghost predicate IsRun(keys: Keys, run: seq<Engine>, ops: seq<Op>) {
    && |run| == |ops| + 1 && run[0] == Engine(map[], [], [])
    && forall i :: 0 <= i < |ops| ==> NotForged(keys, run[i], ops[i]) && run[i + 1] == Step(keys, run[i], ops[i])
  }

  // ---------------------------------------------------------------------------------------------
  // The invariant.

  function LastOf(log: seq<Entry>, mission: string): Option<Entry> {
    if log == [] then None
    else if log[|log| - 1].mission == mission then Some(log[|log| - 1])
    else LastOf(log[..|log| - 1], mission)
  }

  function CountTo(log: seq<Entry>, mission: string, to: MissionState): nat {
    if log == [] then 0
    else
      var last := log[|log| - 1];
      CountTo(log[..|log| - 1], mission, to) + if last.mission == mission && last.to == to then 1 else 0
  }

  function Entries(log: seq<Entry>, mission: string): nat {
    if log == [] then 0
    else Entries(log[..|log| - 1], mission) + if log[|log| - 1].mission == mission then 1 else 0
  }

  /** The k-th entry starts a mission or goes on from its entry before along an edge of the graph. */
  ghost predicate OnPath(log: seq<Entry>, k: nat)
    requires k < |log|
  {
    match LastOf(log[..k], log[k].mission)
    case None => log[k].from == None && log[k].to == CREATED
    case Some(prev) => log[k].from == Some(prev.to) && log[k].to in Successors(prev.to)
  }

  /** An evaluation of this mission in which all nine gates passed. */
  ghost predicate Proven(e: Engine, mission: string) {
    exists i :: 0 <= i < |e.evaluations| && e.evaluations[i].scope == mission &&
      forall g :: 0 <= g < |REQUIRED_GATES| ==> Passed(e.evaluations[i].gates, REQUIRED_GATES[g])
  }

  ghost predicate RowOk(e: Engine, m: string)
    requires m in e.missions
  {
    var state, authorized := e.missions[m].state, CountTo(e.log, m, AUTHORIZED);
    && LastOf(e.log, m).Some? && LastOf(e.log, m).value.to == state
    && e.missions[m].version == Entries(e.log, m)
    && (if state == CREATED then authorized == 0 else if state == CANCELLED then authorized <= 1 else authorized == 1)
    && (state == COMPLETED ==> Proven(e, m) && LastOf(e.log, m).value.from == Some(VALIDATING))
  }

  ghost predicate Inv(e: Engine) {
    && (forall k :: 0 <= k < |e.log| ==> OnPath(e.log, k))
    && (forall m :: m in e.missions ==> RowOk(e, m))
    && (forall m :: m !in e.missions ==> Unknown(e.log, m))
  }

  /** The log has nothing of a mission. */
  ghost predicate Unknown(log: seq<Entry>, m: string) {
    LastOf(log, m) == None && CountTo(log, m, AUTHORIZED) == 0 && Entries(log, m) == 0
  }

  lemma LogGrows(log: seq<Entry>, entry: Entry, m: string)
    ensures LastOf(log + [entry], m) == if m == entry.mission then Some(entry) else LastOf(log, m)
    ensures CountTo(log + [entry], m, AUTHORIZED) ==
      CountTo(log, m, AUTHORIZED) + if m == entry.mission && entry.to == AUTHORIZED then 1 else 0
    ensures Entries(log + [entry], m) == Entries(log, m) + if m == entry.mission then 1 else 0
  {
    assert (log + [entry])[..|log|] == log;
  }

  lemma PathGrows(log: seq<Entry>, entry: Entry)
    requires forall k :: 0 <= k < |log| ==> OnPath(log, k)
    requires
      match LastOf(log, entry.mission)
      case None => entry.from == None && entry.to == CREATED
      case Some(prev) => entry.from == Some(prev.to) && entry.to in Successors(prev.to)
    ensures forall k :: 0 <= k < |log + [entry]| ==> OnPath(log + [entry], k)
  {
    var longer := log + [entry];
    forall k | 0 <= k < |longer| ensures OnPath(longer, k) {
      assert longer[..k] == log[..k];
      assert k == |log| ==> log[..k] == log;
      assert k < |log| ==> OnPath(log, k);
    }
  }

  lemma EvaluateKeeps(e: Engine, ev: Evaluation)
    requires Inv(e)
    ensures Inv(e.(evaluations := e.evaluations + [ev]))
  {
    var r := e.(evaluations := e.evaluations + [ev]);
    forall m | m in r.missions ensures RowOk(r, m) {
      assert RowOk(e, m);
      if r.missions[m].state == COMPLETED {
        var i :| 0 <= i < |e.evaluations| && e.evaluations[i].scope == m &&
          forall g :: 0 <= g < |REQUIRED_GATES| ==> Passed(e.evaluations[i].gates, REQUIRED_GATES[g]);
        assert r.evaluations[i] == e.evaluations[i];
      }
    }
  }

  /** The mission's own row after one more entry. */
  lemma OwnRow(e: Engine, r: Engine, m: string, entry: Entry)
    requires entry.mission == m && r.log == e.log + [entry] && r.evaluations == e.evaluations
    requires m in r.missions && r.missions[m].state == entry.to
    requires r.missions[m].version == if m in e.missions then e.missions[m].version + 1 else 1
    requires if m in e.missions then RowOk(e, m) else Unknown(e.log, m)
    requires
      match LastOf(e.log, m)
      case None => entry.from == None && entry.to == CREATED
      case Some(prev) => entry.from == Some(prev.to) && entry.to in Successors(prev.to)
    requires entry.to == COMPLETED ==> Proven(e, m)
    ensures RowOk(r, m)
  {
    LogGrows(e.log, entry, m);
  }

  /** A row is not touched by another mission's entry. */
  lemma OtherRow(e: Engine, r: Engine, n: string, entry: Entry)
    requires entry.mission != n && r.log == e.log + [entry] && r.evaluations == e.evaluations
    requires n in e.missions && n in r.missions && r.missions[n] == e.missions[n] && RowOk(e, n)
    ensures RowOk(r, n)
  {
    LogGrows(e.log, entry, n);
  }

  /** One more entry for a mission keeps the invariant when the mission's own row is right after it. */
  lemma EntryKeeps(e: Engine, m: string, row: Row, entry: Entry)
    requires Inv(e) && entry.mission == m && entry.to == row.state
    requires row.version == if m in e.missions then e.missions[m].version + 1 else 1
    requires
      match LastOf(e.log, m)
      case None => entry.from == None && entry.to == CREATED
      case Some(prev) => entry.from == Some(prev.to) && entry.to in Successors(prev.to)
    requires row.state == COMPLETED ==> Proven(e, m)
    ensures Inv(e.(missions := e.missions[m := row], log := e.log + [entry]))
  {
    var r := e.(missions := e.missions[m := row], log := e.log + [entry]);
    PathGrows(e.log, entry);
    forall n | n in r.missions ensures RowOk(r, n) {
      if n == m {
        OwnRow(e, r, m, entry);
      } else {
        OtherRow(e, r, n, entry);
      }
    }
    forall n | n !in r.missions ensures Unknown(r.log, n) {
      LogGrows(e.log, entry, n);
    }
  }

  /**
    A proof that verifies for a mission and was not forged shows that the mission was evaluated with all gates
    passed.
   */
  lemma VerifiedIsProven(keys: Keys, e: Engine, m: string, to: MissionState, reason: string, proof: MissionProof)
    requires Verifies(keys, proof, m) && NotForged(keys, e, Move(m, to, reason, Some(proof)))
    ensures Proven(e, m)
  {
    var i :| 0 <= i < |e.evaluations| &&
      Evaluated(keys, e.evaluations[i].scope, e.evaluations[i].gates).payload == proof.payload;
    MissingNothing(e.evaluations[i].gates, REQUIRED_GATES);
  }

  lemma StepKeeps(keys: Keys, e: Engine, op: Op)
    requires Inv(e) && NotForged(keys, e, op)
    ensures Inv(Step(keys, e, op))
  {
    match op
    case CreateMission(m) =>
      if m !in e.missions {
        EntryKeeps(e, m, Row(CREATED, 1), Entry(m, None, CREATED, "created"));
      }
    case Evaluate(scope, gates) =>
      EvaluateKeeps(e, Evaluation(scope, gates));
    case Move(m, to, reason, proof) => MoveKeeps(keys, e, m, to, reason, proof);
  }

  lemma MoveDoes(keys: Keys, e: Engine, m: string, to: MissionState, reason: string, proof: Option<MissionProof>)
    requires Transition(keys, e, m, to, reason, proof).Ok?
    ensures m in e.missions && to in Successors(e.missions[m].state)
    ensures to == COMPLETED ==> proof.Some? && Verifies(keys, proof.value, m)
    ensures
      var row := e.missions[m];
      Step(keys, e, Move(m, to, reason, proof)) ==
      e.(missions := e.missions[m := Row(to, row.version + 1)], log := e.log + [Entry(m, Some(row.state), to, reason)])
  {
  }

  lemma MoveKeeps(keys: Keys, e: Engine, m: string, to: MissionState, reason: string, proof: Option<MissionProof>)
    requires Inv(e) && NotForged(keys, e, Move(m, to, reason, proof))
    ensures Inv(Step(keys, e, Move(m, to, reason, proof)))
  {
    if Transition(keys, e, m, to, reason, proof).Ok? {
      MoveDoes(keys, e, m, to, reason, proof);
      var row := e.missions[m];
      assert RowOk(e, m);
      if to == COMPLETED {
        VerifiedIsProven(keys, e, m, to, reason, proof.value);
      }
      EntryKeeps(e, m, Row(to, row.version + 1), Entry(m, Some(row.state), to, reason));
    }
  }

  lemma {:induction false} RunKeeps(keys: Keys, run: seq<Engine>, ops: seq<Op>, i: nat)
    requires IsRun(keys, run, ops) && i < |run|
    ensures Inv(run[i])
  {
    if i > 0 {
      RunKeeps(keys, run, ops, i - 1);
      StepKeeps(keys, run[i - 1], ops[i - 1]);
    }
  }

  /**
    In every run in which no signature is forged, a completed mission was authorized exactly once, came from
    validation, and had been evaluated with all nine gates passed; and the log is a path of the graph.
   */
  lemma CompletedMissionsAreProven(keys: Keys, run: seq<Engine>, ops: seq<Op>, i: nat, m: string)
    requires IsRun(keys, run, ops) && i < |run| && m in run[i].missions && run[i].missions[m].state == COMPLETED
    ensures Proven(run[i], m) && CountTo(run[i].log, m, AUTHORIZED) == 1
    ensures LastOf(run[i].log, m).Some? && LastOf(run[i].log, m).value.from == Some(VALIDATING)
    ensures forall k :: 0 <= k < |run[i].log| ==> OnPath(run[i].log, k)
  {
    RunKeeps(keys, run, ops, i);
    assert RowOk(run[i], m);
  }

  /** Named one by one: the nine gates that were true in an evaluation of every completed mission. */
  lemma CompletedMissionsPassedAllNine(keys: Keys, run: seq<Engine>, ops: seq<Op>, i: nat, m: string)
    requires IsRun(keys, run, ops) && i < |run| && m in run[i].missions && run[i].missions[m].state == COMPLETED
    ensures exists ev :: ev in run[i].evaluations && ev.scope == m && AllNine(ev.gates)
  {
    CompletedMissionsAreProven(keys, run, ops, i, m);
    var k :| 0 <= k < |run[i].evaluations| && run[i].evaluations[k].scope == m &&
      forall g :: 0 <= g < |REQUIRED_GATES| ==> Passed(run[i].evaluations[k].gates, REQUIRED_GATES[g]);
    AllNineIff(run[i].evaluations[k].gates);
  }

  /** The version of a mission counts its log entries. */
  lemma VersionCountsEntries(keys: Keys, run: seq<Engine>, ops: seq<Op>, i: nat, m: string)
    requires IsRun(keys, run, ops) && i < |run| && m in run[i].missions
    ensures run[i].missions[m].version == Entries(run[i].log, m)
  {
    RunKeeps(keys, run, ops, i);
    assert RowOk(run[i], m);
  }

  /** Completed and cancelled missions never change again. */
  lemma {:induction false} EndedIsFinal(keys: Keys, run: seq<Engine>, ops: seq<Op>, i: nat, j: nat, m: string)
    requires IsRun(keys, run, ops) && i <= j < |run| && m in run[i].missions
    requires run[i].missions[m].state == COMPLETED || run[i].missions[m].state == CANCELLED
    ensures m in run[j].missions && run[j].missions[m] == run[i].missions[m]
    decreases j - i
  {
    if i < j {
      assert run[i + 1] == Step(keys, run[i], ops[i]);
      EndedIsFinal(keys, run, ops, i + 1, j, m);
    }
  }

  // ---------------------------------------------------------------------------------------------
  // The engine as it runs. Each call is one atomic step.

  class DurableLoopEngine {
    const keys: Keys
    var missions: map<string, Row>
    var log: seq<Entry>
    ghost var evaluations: seq<Evaluation>

    ghost function State(): Engine
      reads this
    {
      Engine(missions, log, evaluations)
    }

    constructor (keys: Keys)
      ensures this.keys == keys && State() == Engine(map[], [], [])
    {
      this.keys, missions, log, evaluations := keys, map[], [], [];
    }

    method CreateMission(mission: string) returns (ok: bool)
      modifies this
      ensures ok <==> mission !in old(missions)
      ensures State() == Step(keys, old(State()), Op.CreateMission(mission))
    {
      if mission in missions {
        return false;
      }
      missions, log := missions[mission := Row(CREATED, 1)], log + [Entry(mission, None, CREATED, "created")];
      return true;
    }

    /** Collects the gates that did not pass and signs the verdict. */
    method EvaluateGates(scope: string, gates: Gates) returns (proof: MissionProof)
      modifies this`evaluations
      ensures proof == Evaluated(keys, scope, gates)
      ensures proof.payload.proven <==> forall i :: 0 <= i < |REQUIRED_GATES| ==> Passed(gates, REQUIRED_GATES[i])
      ensures State() == Step(keys, old(State()), Evaluate(scope, gates))
    {
      MissingNothing(gates, REQUIRED_GATES);
      var missing := [];
      for i := 0 to |REQUIRED_GATES|
        invariant missing == Missing(gates, REQUIRED_GATES[..i])
      {
        assert REQUIRED_GATES[..i + 1][..i] == REQUIRED_GATES[..i];
        if !Passed(gates, REQUIRED_GATES[i]) {
          missing := missing + [REQUIRED_GATES[i]];
        }
      }
      assert REQUIRED_GATES[..|REQUIRED_GATES|] == REQUIRED_GATES;
      var payload := Payload(scope, missing == [], missing, keys.digest(Normalized(gates)));
      proof := MissionProof(payload, keys.sign(payload));
      evaluations := evaluations + [Evaluation(scope, gates)];
    }

    method TransitionMission(mission: string, to: MissionState, reason: string, proof: Option<MissionProof>)
      returns (r: Result<(), EngineError>)
      modifies this`missions, this`log
      ensures State() == Step(keys, old(State()), Move(mission, to, reason, proof))
      ensures r.Ok? <==> Transition(keys, old(State()), mission, to, reason, proof).Ok?
      ensures r.Err? ==> Transition(keys, old(State()), mission, to, reason, proof) == Err(r.error)
    {
      if mission !in missions {
        return Err(NotFound);
      }
      var current := missions[mission];
      if to !in Successors(current.state) {
        return Err(InvalidTransition);
      }
      if to == COMPLETED {
        if proof.None? || !Verifies(keys, proof.value, mission) {
          return Err(ProofRequired);
        }
      }
      missions := missions[mission := Row(to, current.version + 1)];
      log := log + [Entry(mission, Some(current.state), to, reason)];
      return Ok(());
    }
  }
}
