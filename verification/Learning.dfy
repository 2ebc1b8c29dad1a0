/**
  Controlled learning: knowledge is quarantined, reproduced, reviewed, promoted, suspended, retired or superseded.
  Who may do what is checked before these steps and is not part of the model; what evidence was found is an input.
 */
module Learning {
  import opened Wrappers

  datatype KnowledgeState = QUARANTINED | PROMOTED | SUSPENDED | RETIRED | SUPERSEDED

  datatype Scope = SYSTEM | GLOBAL

  datatype Record = Record(
    lineage: string, version: nat, scope: Scope, state: KnowledgeState, confidence: real, signature: string,
    promotedAt: Option<real>, supersedes: Option<string>)

  datatype Outcome = Outcome(knowledge: string, correction: string, validation: string, system: string, success: bool)

  datatype Verdict = VALID | INVALID_EVIDENCE | REGRESSION

  /** A review; `id` stands for the place of its identifier in text order. */
  datatype Review = Review(id: int, knowledge: string, reviewer: string, verdict: Verdict, createdAt: real)

  /** Who files a review and when; identifiers are compared by `id`. */
  datatype Mark = Mark(id: int, reviewer: string, at: real)

  datatype Base = Base(records: map<string, Record>, outcomes: seq<Outcome>, reviews: seq<Review>)

  datatype LearningError =
    | NotFound | NotEligible | SignatureMismatch | AlreadyRecorded | ReviewRequired | SameIdentity
    | HasRegressions | BelowThreshold | TooFewSuccesses | SkillNotEligible | VersionMustAdvance | LowerConfidence

  // ---------------------------------------------------------------------------------------------
  // Outcomes and confidence.

  function Count(outcomes: seq<Outcome>, k: string, success: bool): nat {
    if outcomes == [] then 0
    else
      var o := outcomes[|outcomes| - 1];
      Count(outcomes[..|outcomes| - 1], k, success) + if o.knowledge == k && o.success == success then 1 else 0
  }

  /** The systems on which a piece of knowledge succeeded. */
  function Systems(outcomes: seq<Outcome>, k: string): set<string> {
    if outcomes == [] then {}
    else
      var o := outcomes[|outcomes| - 1];
      Systems(outcomes[..|outcomes| - 1], k) + if o.knowledge == k && o.success then {o.system} else {}
  }

  function Confidence(successes: nat, failures: nat): real {
    (successes as real + 1.0) / (successes as real + failures as real + 2.0)
  }

  function ConfidenceOf(outcomes: seq<Outcome>, k: string): real {
    Confidence(Count(outcomes, k, true), Count(outcomes, k, false))
  }

  function Threshold(scope: Scope): real {
    match scope case SYSTEM => 0.60 case GLOBAL => 0.70
  }

  /** Two outcomes are of one trial: the same knowledge, correction and validation. */
  predicate OneTrial(a: Outcome, b: Outcome) {
    a.knowledge == b.knowledge && a.correction == b.correction && a.validation == b.validation
  }

  /** The outcome table has one row per trial. */
  predicate Recorded(outcomes: seq<Outcome>, o: Outcome) {
    exists i :: 0 <= i < |outcomes| && OneTrial(outcomes[i], o)
  }

  lemma OutcomesGrow(outcomes: seq<Outcome>, o: Outcome, k: string)
    ensures forall success ::
      Count(outcomes + [o], k, success) == Count(outcomes, k, success) +
        if o.knowledge == k && o.success == success then 1 else 0
    ensures Systems(outcomes + [o], k) == Systems(outcomes, k) +
      if o.knowledge == k && o.success then {o.system} else {}
  {
    assert (outcomes + [o])[..|outcomes|] == outcomes;
  }

  /** Without failures, confidence orders knowledge by its successes. */
  lemma ConfidenceOrdersSuccesses(s: nat, t: nat)
    requires Confidence(t, 0) <= Confidence(s, 0)
    ensures t <= s
  {
    var x, y := s as real, t as real;
    assert Confidence(s, 0) * (x + 2.0) == x + 1.0 && Confidence(t, 0) * (y + 2.0) == y + 1.0;
    if s < t {
      CrossMultiply(x, y);
      assert false;
    }
  }

  lemma CrossMultiply(x: real, y: real)
    requires 0.0 <= x < y
    ensures (x + 1.0) / (x + 2.0) < (y + 1.0) / (y + 2.0)
  {
    var p, q := (x + 1.0) / (x + 2.0), (y + 1.0) / (y + 2.0);
    assert p == 1.0 - 1.0 / (x + 2.0) && q == 1.0 - 1.0 / (y + 2.0);
    InverseFalls(x + 2.0, y + 2.0);
  }

  lemma InverseFalls(a: real, b: real)
    requires 0.0 < a < b
    ensures 1.0 / b < 1.0 / a
  {
  }

  // ---------------------------------------------------------------------------------------------
  // The operations.

  /** The review that counts: the latest, by time and then by identifier. */
  function Latest(reviews: seq<Review>, k: string): Option<Review> {
    if reviews == [] then None
    else
      var last, rest := reviews[|reviews| - 1], Latest(reviews[..|reviews| - 1], k);
      if last.knowledge == k && (rest.None? || Newer(last, rest.value)) then Some(last) else rest
  }

  predicate Newer(a: Review, b: Review) {
    a.createdAt > b.createdAt || (a.createdAt == b.createdAt && a.id > b.id)
  }

  /** The version a new record of a lineage gets: one more than the largest there is. */
  ghost predicate IsNextVersion(kb: Base, lineage: string, version: nat) {
    && 1 <= version
    && (forall a :: a in kb.records && kb.records[a].lineage == lineage ==> kb.records[a].version < version)
    && (1 < version ==> HasVersion(kb, lineage, version - 1))
  }

  ghost predicate HasVersion(kb: Base, lineage: string, version: nat) {
    exists a :: a in kb.records && kb.records[a].lineage == lineage && kb.records[a].version == version
  }

  /** The promoted record of the lineage, other than `k`, with the largest version, if there is one. */
  ghost predicate IsPrior(kb: Base, k: string, prior: Option<string>)
    requires k in kb.records
  {
    match prior
    case Some(p) =>
      && p in kb.records && Rival(kb, k, p)
      && (forall a :: a in kb.records && Rival(kb, k, a) ==> kb.records[a].version <= kb.records[p].version)
    case None => forall a :: a in kb.records ==> !Rival(kb, k, a)
  }

  predicate Rival(kb: Base, k: string, a: string)
    requires k in kb.records && a in kb.records
  {
    a != k && kb.records[a].lineage == kb.records[k].lineage && kb.records[a].state == PROMOTED
  }

  /** A new candidate with its first success. */
  function Create(kb: Base, k: string, lineage: string, scope: Scope, version: nat, signature: string, o: Outcome)
    : Result<Base, LearningError>
  {
    if k in kb.records then Err(AlreadyRecorded)
    else
      var outcomes := kb.outcomes + [o];
      var r := Record(lineage, version, scope, QUARANTINED, ConfidenceOf(outcomes, k), signature, None, None);
      Ok(Base(kb.records[k := r], outcomes, kb.reviews))
  }

  function Reproduce(kb: Base, o: Outcome, signature: string): Result<Base, LearningError> {
    var k := o.knowledge;
    if k !in kb.records then Err(NotFound)
    else
      var r := kb.records[k];
      if r.state != QUARANTINED && r.state != PROMOTED then Err(NotEligible)
      else if signature != r.signature then Err(SignatureMismatch)
      else if Recorded(kb.outcomes, o) then Err(AlreadyRecorded)
      else
        var outcomes := kb.outcomes + [o];
        Ok(kb.(records := kb.records[k := r.(confidence := ConfidenceOf(outcomes, k))], outcomes := outcomes))
  }

  function FiledReview(mark: Mark, k: string, verdict: Verdict): Review {
    Review(mark.id, k, mark.reviewer, verdict, mark.at)
  }

  function Regress(kb: Base, o: Outcome, signature: string, mark: Mark): Result<Base, LearningError> {
    var k := o.knowledge;
    if k !in kb.records then Err(NotFound)
    else
      var r := kb.records[k];
      if r.state == RETIRED || r.state == SUPERSEDED then Err(NotEligible)
      else if signature != r.signature then Err(SignatureMismatch)
      else if Recorded(kb.outcomes, o) then Err(AlreadyRecorded)
      else
        var outcomes := kb.outcomes + [o];
        var state := if Count(outcomes, k, false) >= 2 then RETIRED
                     else if r.state == PROMOTED then SUSPENDED else r.state;
        Ok(Base(kb.records[k := r.(state := state, confidence := ConfidenceOf(outcomes, k))], outcomes,
                kb.reviews + [FiledReview(mark, k, REGRESSION)]))
  }

  /** A review; bad evidence suspends promoted knowledge and retires what has failed twice. */
  function ReviewIntegrity(kb: Base, k: string, bad: bool, mark: Mark): Result<Base, LearningError> {
    if k !in kb.records then Err(NotFound)
    else
      var r := kb.records[k];
      var state := if bad && Count(kb.outcomes, k, false) >= 2 then RETIRED
                   else if bad && r.state == PROMOTED then SUSPENDED else r.state;
      Ok(kb.(records := kb.records[k := r.(state := state, confidence := ConfidenceOf(kb.outcomes, k))],
             reviews := kb.reviews + [FiledReview(mark, k, if bad then INVALID_EVIDENCE else VALID)]))
  }

  /** The checks of a promotion, in order. */
  function Refusal(kb: Base, k: string, approver: string, skillOk: bool, prior: Option<string>): Option<LearningError>
    requires k in kb.records && (prior.Some? ==> prior.value in kb.records)
  {
    var r, review := kb.records[k], Latest(kb.reviews, k);
    var successes, confidence := Count(kb.outcomes, k, true), ConfidenceOf(kb.outcomes, k);
    if r.state != QUARANTINED then Some(NotEligible)
    else if review.None? || review.value.verdict != VALID then Some(ReviewRequired)
    else if review.value.reviewer == approver then Some(SameIdentity)
    else if Count(kb.outcomes, k, false) > 0 then Some(HasRegressions)
    else if confidence < Threshold(r.scope) then Some(BelowThreshold)
    else if r.scope == SYSTEM && successes < 1 then Some(TooFewSuccesses)
    else if r.scope == GLOBAL && (successes < 2 || |Systems(kb.outcomes, k)| < 2) then Some(TooFewSuccesses)
    else if !skillOk then Some(SkillNotEligible)
    else if prior.Some? && r.version <= kb.records[prior.value].version then Some(VersionMustAdvance)
    else if prior.Some? && confidence < kb.records[prior.value].confidence then Some(LowerConfidence)
    else None
  }

  /** Promotion: the record takes over from the promoted one of its lineage. */
  function Promote(kb: Base, k: string, approver: string, skillOk: bool, prior: Option<string>, now: real)
    : Result<Base, LearningError>
    requires prior.Some? ==> prior.value in kb.records
  {
    if k !in kb.records then Err(NotFound)
    else
      var refused := Refusal(kb, k, approver, skillOk, prior);
      if refused.Some? then Err(refused.value)
      else
        Ok(kb.(records := InForce(kb.records, k, ConfidenceOf(kb.outcomes, k), prior, now)))
  }

  /** The records once `k` is in force and the prior, if any, is superseded by it. */
  function InForce(records: map<string, Record>, k: string, confidence: real, prior: Option<string>, now: real)
    : map<string, Record>
    requires k in records && (prior.Some? ==> prior.value in records)
  {
    var r := records[k].(state := PROMOTED, confidence := confidence, promotedAt := Some(now), supersedes := prior);
    var promoted := records[k := r];
    if prior.Some? then promoted[prior.value := promoted[prior.value].(state := SUPERSEDED)] else promoted
  }

  lemma ConfidenceIsOverwritten(
    records: map<string, Record>, k: string, confidence: real, prior: Option<string>, now: real)
    requires k in records && (prior.Some? ==> prior.value in records && prior.value != k)
    ensures InForce(records[k := records[k].(confidence := confidence)], k, confidence, prior, now)
         == InForce(records, k, confidence, prior, now)
  {
  }

  function Retire(kb: Base, k: string): Result<Base, LearningError> {
    if k !in kb.records then Err(NotFound)
    else
      var r := kb.records[k];
      if r.state == RETIRED || r.state == SUPERSEDED then Err(NotEligible)
      else Ok(kb.(records := kb.records[k := r.(state := RETIRED)]))
  }

  // ---------------------------------------------------------------------------------------------
  // The invariant.

  /** What a record by itself owes to its outcomes. */
  ghost predicate RecordOk(outcomes: seq<Outcome>, k: string, r: Record) {
    var successes, failures := Count(outcomes, k, true), Count(outcomes, k, false);
    && r.confidence == Confidence(successes, failures)
    && 1 <= r.version && 1 <= successes && failures <= 2
    && (failures == 2 ==> r.state == RETIRED)
    && (r.state == PROMOTED || r.state == SUPERSEDED ==> Deserved(outcomes, k, r.scope))
    && (r.promotedAt.None? ==> r.state == QUARANTINED || r.state == RETIRED)
    && (r.state == QUARANTINED ==> r.promotedAt.None?)
    && (r.promotedAt.None? ==> r.supersedes.None?)
  }

  /** What promotion asks for. */
  ghost predicate Deserved(outcomes: seq<Outcome>, k: string, scope: Scope) {
    && Count(outcomes, k, false) == 0
    && (scope == GLOBAL ==> 2 <= Count(outcomes, k, true) && 2 <= |Systems(outcomes, k)|)
  }

  /** A record supersedes an older version of its lineage that had no more successes and is superseded still. */
  ghost predicate LinkOk(kb: Base, a: string)
    requires a in kb.records
  {
    var r := kb.records[a];
    r.supersedes.Some? ==>
      var p := r.supersedes.value;
      && p in kb.records && kb.records[p].state == SUPERSEDED
      && kb.records[p].lineage == r.lineage && kb.records[p].version < r.version
      && Count(kb.outcomes, p, true) <= Count(kb.outcomes, a, true)
  }

  ghost predicate HasSuccessor(kb: Base, p: string) {
    exists a :: a in kb.records && kb.records[a].supersedes == Some(p)
  }

  /** Versions of a lineage are all different, at most one record is promoted, and none is superseded twice. */
  ghost predicate Apart(kb: Base, a: string, b: string)
    requires a in kb.records && b in kb.records
  {
    var r, s := kb.records[a], kb.records[b];
    a != b ==>
      && (r.lineage == s.lineage ==> r.version != s.version && !(r.state == PROMOTED && s.state == PROMOTED))
      && (r.supersedes.Some? ==> r.supersedes != s.supersedes)
  }

  ghost predicate Own(kb: Base, a: string)
    requires a in kb.records
  {
    var r := kb.records[a];
    && RecordOk(kb.outcomes, a, r) && LinkOk(kb, a)
    && (1 < r.version ==> HasVersion(kb, r.lineage, r.version - 1))
    && (r.state == SUPERSEDED ==> HasSuccessor(kb, a))
  }

  ghost predicate Inv(kb: Base) {
    && (forall a :: a in kb.records ==> Own(kb, a))
    && (forall a, b :: a in kb.records && b in kb.records ==> Apart(kb, a, b))
    && (forall a :: a !in kb.records ==> Fresh(kb.outcomes, a))
  }

  ghost predicate Fresh(outcomes: seq<Outcome>, a: string) {
    Count(outcomes, a, true) == 0 && Count(outcomes, a, false) == 0
  }

  // ---------------------------------------------------------------------------------------------
  // Every operation keeps it.

  /** The outcomes of one piece of knowledge may have grown by one; those of the others are as before. */
  ghost predicate Grown(before: seq<Outcome>, after: seq<Outcome>, k: string) {
    after == before || (exists o: Outcome :: o.knowledge == k && after == before + [o])
  }

  lemma GrownCounts(before: seq<Outcome>, after: seq<Outcome>, k: string, a: string)
    requires Grown(before, after, k)
    ensures a != k ==> forall success :: Count(after, a, success) == Count(before, a, success)
    ensures a != k ==> Systems(after, a) == Systems(before, a)
    ensures Count(before, a, true) <= Count(after, a, true)
  {
    if after != before {
      var o: Outcome :| o.knowledge == k && after == before + [o];
      OutcomesGrow(before, o, a);
    }
  }

  /** An update of one record that neither promotes nor supersedes it. */
  ghost predicate Quiet(kb: Base, after: Base, k: string)
    requires k in kb.records
  {
    && k in after.records && after.records == kb.records[k := after.records[k]]
    && Grown(kb.outcomes, after.outcomes, k)
    && var r, s := kb.records[k], after.records[k];
       && s.lineage == r.lineage && s.version == r.version && s.supersedes == r.supersedes
       && (r.state == SUPERSEDED <==> s.state == SUPERSEDED)
       && (r.state == SUPERSEDED ==> after.outcomes == kb.outcomes)
       && (s.state == PROMOTED ==> r.state == PROMOTED)
       && RecordOk(after.outcomes, k, s)
  }

  /** Records stay, with their lineage, their version and what they superseded. */
  ghost predicate Extends(kb: Base, after: Base) {
    forall b :: b in kb.records ==>
      && b in after.records && after.records[b].lineage == kb.records[b].lineage
      && after.records[b].version == kb.records[b].version
      && (kb.records[b].supersedes.Some? ==> after.records[b].supersedes == kb.records[b].supersedes)
  }

  /** The neighbours a record needs are still there. */
  lemma OwnCarries(kb: Base, after: Base, a: string)
    requires a in kb.records && Own(kb, a) && Extends(kb, after)
    requires RecordOk(after.outcomes, a, after.records[a]) && LinkOk(after, a)
    requires after.records[a].state == SUPERSEDED ==> kb.records[a].state == SUPERSEDED
    ensures Own(after, a)
  {
    var r := kb.records[a];
    if 1 < r.version {
      var b :| b in kb.records && kb.records[b].lineage == r.lineage && kb.records[b].version == r.version - 1;
      assert b in after.records && after.records[b].version == r.version - 1;
    }
    if r.state == SUPERSEDED {
      var b :| b in kb.records && kb.records[b].supersedes == Some(a);
      assert b in after.records && after.records[b].supersedes == Some(a);
    }
  }

  lemma QuietOwn(kb: Base, after: Base, k: string, a: string)
    requires k in kb.records && a in kb.records && Quiet(kb, after, k) && Own(kb, a)
    ensures Own(after, a)
  {
    GrownCounts(kb.outcomes, after.outcomes, k, a);
    if kb.records[a].supersedes.Some? {
      GrownCounts(kb.outcomes, after.outcomes, k, kb.records[a].supersedes.value);
    }
    OwnCarries(kb, after, a);
  }

  lemma QuietApart(kb: Base, after: Base, k: string, a: string, b: string)
    requires k in kb.records && a in kb.records && b in kb.records && Quiet(kb, after, k) && Apart(kb, a, b)
    ensures Apart(after, a, b)
  {
  }

  lemma QuietKeeps(kb: Base, after: Base, k: string)
    requires Inv(kb) && k in kb.records && Quiet(kb, after, k)
    ensures Inv(after)
  {
    assert after.records.Keys == kb.records.Keys;
    forall a | a in after.records ensures Own(after, a) {
      assert Own(kb, a);
      QuietOwn(kb, after, k, a);
    }
    forall a, b | a in after.records && b in after.records ensures Apart(after, a, b) {
      assert Apart(kb, a, b);
      QuietApart(kb, after, k, a, b);
    }
    forall a | a !in after.records ensures Fresh(after.outcomes, a) {
      assert Fresh(kb.outcomes, a);
      GrownCounts(kb.outcomes, after.outcomes, k, a);
    }
  }

  lemma ReproduceKeeps(kb: Base, o: Outcome, signature: string)
    requires Inv(kb) && o.success
    ensures Reproduce(kb, o, signature).Ok? ==> Inv(Reproduce(kb, o, signature).value)
  {
    var r := Reproduce(kb, o, signature);
    if r.Ok? {
      assert Own(kb, o.knowledge);
      OutcomesGrow(kb.outcomes, o, o.knowledge);
      assert Systems(kb.outcomes, o.knowledge) <= Systems(r.value.outcomes, o.knowledge);
      SubsetSize(Systems(kb.outcomes, o.knowledge), Systems(r.value.outcomes, o.knowledge));
      QuietKeeps(kb, r.value, o.knowledge);
    }
  }

  lemma {:induction false} SubsetSize(a: set<string>, b: set<string>)
    requires a <= b
    ensures |a| <= |b|
  {
    assert |b| == |a| + |b - a| by {
      assert b == a + (b - a);
    }
  }

  lemma RegressKeeps(kb: Base, o: Outcome, signature: string, mark: Mark)
    requires Inv(kb) && !o.success
    ensures Regress(kb, o, signature, mark).Ok? ==> Inv(Regress(kb, o, signature, mark).value)
  {
    var r := Regress(kb, o, signature, mark);
    if r.Ok? {
      assert Own(kb, o.knowledge);
      OutcomesGrow(kb.outcomes, o, o.knowledge);
      QuietKeeps(kb, r.value, o.knowledge);
    }
  }

  lemma ReviewKeeps(kb: Base, k: string, bad: bool, mark: Mark)
    requires Inv(kb)
    ensures ReviewIntegrity(kb, k, bad, mark).Ok? ==> Inv(ReviewIntegrity(kb, k, bad, mark).value)
  {
    var r := ReviewIntegrity(kb, k, bad, mark);
    if r.Ok? {
      assert Own(kb, k);
      QuietKeeps(kb, r.value, k);
    }
  }

  lemma RetireKeeps(kb: Base, k: string)
    requires Inv(kb)
    ensures Retire(kb, k).Ok? ==> Inv(Retire(kb, k).value)
  {
    var r := Retire(kb, k);
    if r.Ok? {
      assert Own(kb, k);
      QuietKeeps(kb, r.value, k);
    }
  }

  lemma CreateKeeps(kb: Base, k: string, lineage: string, scope: Scope, version: nat, signature: string, o: Outcome)
    requires Inv(kb) && IsNextVersion(kb, lineage, version) && o.knowledge == k && o.success
    ensures
      var r := Create(kb, k, lineage, scope, version, signature, o);
      r.Ok? ==> Inv(r.value)
  {
    var r := Create(kb, k, lineage, scope, version, signature, o);
    if r.Ok? {
      var after := r.value;
      assert Fresh(kb.outcomes, k);
      OutcomesGrow(kb.outcomes, o, k);
      forall a | a in after.records ensures Own(after, a) {
        if a == k {
          if 1 < version {
            var b :| b in kb.records && kb.records[b].lineage == lineage && kb.records[b].version == version - 1;
            assert b in after.records && after.records[b].version == version - 1;
          }
        } else {
          CreateOwn(kb, after, k, a, o);
        }
      }
      forall a, b | a in after.records && b in after.records ensures Apart(after, a, b) {
        if a in kb.records && b in kb.records {
          assert Apart(kb, a, b);
        }
      }
      forall a | a !in after.records ensures Fresh(after.outcomes, a) {
        assert Fresh(kb.outcomes, a);
        OutcomesGrow(kb.outcomes, o, a);
      }
    }
  }

  lemma CreateOwn(kb: Base, after: Base, k: string, a: string, o: Outcome)
    requires a in kb.records && k !in kb.records && k in after.records && Own(kb, a) && o.knowledge == k
    requires after.records == kb.records[k := after.records[k]] && after.outcomes == kb.outcomes + [o]
    ensures Own(after, a)
  {
    OutcomesGrow(kb.outcomes, o, a);
    if kb.records[a].supersedes.Some? {
      OutcomesGrow(kb.outcomes, o, kb.records[a].supersedes.value);
    }
    OwnCarries(kb, after, a);
  }

  /** The parts of a promotion that its proof uses. */
  ghost predicate Promoted(kb: Base, after: Base, k: string, prior: Option<string>) {
    && k in kb.records && kb.records.Keys == after.records.Keys && after.outcomes == kb.outcomes
    && kb.records[k].state == QUARANTINED && Deserved(kb.outcomes, k, kb.records[k].scope)
    && after.records[k] == kb.records[k].(state := PROMOTED, confidence := ConfidenceOf(kb.outcomes, k),
                                          promotedAt := after.records[k].promotedAt, supersedes := prior)
    && after.records[k].promotedAt.Some?
    && (prior.Some? ==>
          && prior.value != k && prior.value in kb.records && Rival(kb, k, prior.value)
          && after.records[prior.value] == kb.records[prior.value].(state := SUPERSEDED)
          && kb.records[prior.value].version < kb.records[k].version
          && kb.records[prior.value].confidence <= ConfidenceOf(kb.outcomes, k))
    && (forall a :: a in kb.records && a != k && Some(a) != prior ==> after.records[a] == kb.records[a])
  }

  lemma PromoteDoes(kb: Base, k: string, approver: string, skillOk: bool, prior: Option<string>, now: real)
    requires k in kb.records && IsPrior(kb, k, prior) && Promote(kb, k, approver, skillOk, prior, now).Ok?
    ensures Promoted(kb, Promote(kb, k, approver, skillOk, prior, now).value, k, prior)
  {
  }

  /** A superseded record is never the one being promoted nor the one being superseded. */
  lemma PromotedSelf(kb: Base, after: Base, k: string, prior: Option<string>)
    requires Promoted(kb, after, k, prior) && Own(kb, k) && (prior.Some? ==> Own(kb, prior.value))
    ensures Own(after, k)
  {
    var r := kb.records[k];
    if 1 < r.version {
      var b :| b in kb.records && kb.records[b].lineage == r.lineage && kb.records[b].version == r.version - 1;
      assert b in after.records && after.records[b].lineage == r.lineage && after.records[b].version == r.version - 1;
    }
    if prior.Some? {
      ConfidenceOrdersSuccesses(Count(kb.outcomes, k, true), Count(kb.outcomes, prior.value, true));
    }
  }

  lemma PromotedOther(kb: Base, after: Base, k: string, prior: Option<string>, a: string)
    requires Promoted(kb, after, k, prior) && a in kb.records && a != k && Own(kb, a) && Own(kb, k)
    ensures Own(after, a)
  {
    if Some(a) == prior {
      assert after.records[k].supersedes == Some(a);
      var r := kb.records[a];
      if 1 < r.version {
        var b :| b in kb.records && kb.records[b].lineage == r.lineage && kb.records[b].version == r.version - 1;
        assert b in after.records && after.records[b].lineage == r.lineage && after.records[b].version == r.version - 1;
      }
    } else {
      OwnCarries(kb, after, a);
    }
  }

  lemma PromotedApart(kb: Base, after: Base, k: string, prior: Option<string>, a: string, b: string)
    requires Promoted(kb, after, k, prior) && IsPrior(kb, k, prior) && a in kb.records && b in kb.records
    requires Own(kb, a) && Own(kb, b) && Own(kb, k) && Apart(kb, a, b)
    requires prior.Some? ==> Apart(kb, a, prior.value) && Apart(kb, prior.value, b)
    ensures Apart(after, a, b)
  {
    if a != b && a == k && b in kb.records {
      assert Rival(kb, k, b) ==> Some(b) == prior;
    }
    if a != b && b == k {
      assert Rival(kb, k, a) ==> Some(a) == prior;
    }
  }

  lemma PromoteKeeps(kb: Base, k: string, approver: string, skillOk: bool, prior: Option<string>, now: real)
    requires Inv(kb) && k in kb.records && IsPrior(kb, k, prior)
    ensures
      var r := Promote(kb, k, approver, skillOk, prior, now);
      r.Ok? ==> Inv(r.value)
  {
    var r := Promote(kb, k, approver, skillOk, prior, now);
    if r.Ok? {
      var after := r.value;
      PromoteDoes(kb, k, approver, skillOk, prior, now);
      assert Own(kb, k) && (prior.Some? ==> Own(kb, prior.value));
      forall a | a in after.records ensures Own(after, a) {
        if a == k {
          PromotedSelf(kb, after, k, prior);
        } else {
          assert Own(kb, a);
          PromotedOther(kb, after, k, prior, a);
        }
      }
      forall a, b | a in after.records && b in after.records ensures Apart(after, a, b) {
        assert Own(kb, a) && Own(kb, b) && Apart(kb, a, b);
        assert prior.Some? ==> Apart(kb, a, prior.value) && Apart(kb, prior.value, b);
        PromotedApart(kb, after, k, prior, a, b);
      }
    }
  }

  // ---------------------------------------------------------------------------------------------
  // Runs.

  datatype Op =
    | CreateOp(k: string, lineage: string, scope: Scope, version: nat, signature: string, o: Outcome)
    | ReproduceOp(o: Outcome, signature: string)
    | RegressOp(o: Outcome, signature: string, mark: Mark)
    | ReviewOp(k: string, bad: bool, mark: Mark)
    | PromoteOp(k: string, approver: string, skillOk: bool, prior: Option<string>, now: real)
    | RetireOp(k: string)

  /** The rows an operation reads are the ones the queries find. */
  ghost predicate Enabled(kb: Base, op: Op) {
    match op
    case CreateOp(k, lineage, _, version, _, o) => IsNextVersion(kb, lineage, version) && o.knowledge == k && o.success
    case ReproduceOp(o, _) => o.success
    case RegressOp(o, _, _) => !o.success
    case ReviewOp(_, _, _) => true
    case PromoteOp(k, _, _, prior, _) => if k in kb.records then IsPrior(kb, k, prior) else prior == None
    case RetireOp(_) => true
  }

  function Step(kb: Base, op: Op): Base
    requires op.PromoteOp? && op.prior.Some? ==> op.prior.value in kb.records
  {
    var r := match op
      case CreateOp(k, lineage, scope, version, signature, o) => Create(kb, k, lineage, scope, version, signature, o)
      case ReproduceOp(o, signature) => Reproduce(kb, o, signature)
      case RegressOp(o, signature, mark) => Regress(kb, o, signature, mark)
      case ReviewOp(k, bad, mark) => ReviewIntegrity(kb, k, bad, mark)
      case PromoteOp(k, approver, skillOk, prior, now) => Promote(kb, k, approver, skillOk, prior, now)
      case RetireOp(k) => Retire(kb, k);
    if r.Ok? then r.value else kb
  }

  ghost predicate IsRun(run: seq<Base>, ops: seq<Op>) {
    && |run| == |ops| + 1 && run[0] == Base(map[], [], [])
    && forall i :: 0 <= i < |ops| ==> Moves(run[i], ops[i], run[i + 1])
  }

  ghost predicate Moves(kb: Base, op: Op, after: Base) {
    Enabled(kb, op) && after == Step(kb, op)
  }

  lemma StepKeeps(kb: Base, op: Op)
    requires Inv(kb) && Enabled(kb, op)
    ensures Inv(Step(kb, op))
  {
    match op
    case CreateOp(k, lineage, scope, version, signature, o) =>
      CreateKeeps(kb, k, lineage, scope, version, signature, o);
    case ReproduceOp(o, signature) => ReproduceKeeps(kb, o, signature);
    case RegressOp(o, signature, mark) => RegressKeeps(kb, o, signature, mark);
    case ReviewOp(k, bad, mark) => ReviewKeeps(kb, k, bad, mark);
    case PromoteOp(k, approver, skillOk, prior, now) =>
      if k in kb.records {
        PromoteKeeps(kb, k, approver, skillOk, prior, now);
      }
    case RetireOp(k) => RetireKeeps(kb, k);
  }

  lemma {:induction false} RunKeeps(run: seq<Base>, ops: seq<Op>, i: nat)
    requires IsRun(run, ops) && i < |run|
    ensures Inv(run[i])
  {
    if i > 0 {
      RunKeeps(run, ops, i - 1);
      assert Moves(run[i - 1], ops[i - 1], run[i]);
      StepKeeps(run[i - 1], ops[i - 1]);
    }
  }

  /**
    In every run, what a record is follows from its outcomes: its confidence, its end after two failures, its
    promotion.
   */
  lemma StateIsEarned(run: seq<Base>, ops: seq<Op>, i: nat, k: string)
    requires IsRun(run, ops) && i < |run| && k in run[i].records
    ensures
      var r, outcomes := run[i].records[k], run[i].outcomes;
      && r.confidence == ConfidenceOf(outcomes, k) && Count(outcomes, k, false) <= 2
      && (Count(outcomes, k, false) == 2 ==> r.state == RETIRED)
      && (r.state == PROMOTED || r.state == SUPERSEDED ==> Deserved(outcomes, k, r.scope))
  {
    RunKeeps(run, ops, i);
    assert Own(run[i], k);
  }

  /** A record that has ended or was promoted once stays what it has become. */
  ghost predicate NeverBack(r: Record, s: Record) {
    && (r.state == RETIRED || r.state == SUPERSEDED ==> s.state == r.state)
    && (r.promotedAt.Some? ==> s.promotedAt.Some? && (r.state != PROMOTED ==> s.state != PROMOTED))
  }

  lemma StepNeverBack(kb: Base, op: Op, k: string)
    requires Inv(kb) && Enabled(kb, op) && k in kb.records
    ensures k in Step(kb, op).records && NeverBack(kb.records[k], Step(kb, op).records[k])
  {
    assert Own(kb, k);
    if op.PromoteOp? {
      if op.k in kb.records && Promote(kb, op.k, op.approver, op.skillOk, op.prior, op.now).Ok? {
        PromoteDoes(kb, op.k, op.approver, op.skillOk, op.prior, op.now);
        PromotedNeverBack(kb, Step(kb, op), op.k, op.prior, k);
      }
    } else {
      OthersNeverBack(kb, op, k);
    }
  }

  lemma PromotedNeverBack(kb: Base, after: Base, p: string, prior: Option<string>, k: string)
    requires Promoted(kb, after, p, prior) && k in kb.records && RecordOk(kb.outcomes, k, kb.records[k])
    ensures k in after.records && NeverBack(kb.records[k], after.records[k])
  {
  }

  lemma OthersNeverBack(kb: Base, op: Op, k: string)
    requires !op.PromoteOp? && Enabled(kb, op) && k in kb.records && RecordOk(kb.outcomes, k, kb.records[k])
    ensures k in Step(kb, op).records && NeverBack(kb.records[k], Step(kb, op).records[k])
  {
  }

  /** Retired and superseded knowledge stays so, and what has left promotion is never promoted again. */
  lemma {:induction false} RunNeverBack(run: seq<Base>, ops: seq<Op>, i: nat, j: nat, k: string)
    requires IsRun(run, ops) && i <= j < |run| && k in run[i].records
    ensures k in run[j].records && NeverBack(run[i].records[k], run[j].records[k])
    decreases j - i
  {
    if i < j {
      RunKeeps(run, ops, i);
      assert Moves(run[i], ops[i], run[i + 1]);
      StepNeverBack(run[i], ops[i], k);
      RunNeverBack(run, ops, i + 1, j, k);
    }
  }

  // ---------------------------------------------------------------------------------------------
  // Which review decides, and separation of duties.

  /** Review `b` of the file counts less than review `a`: it is older, or as old with a smaller identifier. */
  predicate Yields(a: Review, b: Review) {
    b.createdAt < a.createdAt || (b.createdAt == a.createdAt && b.id <= a.id)
  }

  /** Review `i` on file decides on knowledge `k`: no review of `k` is later; of two with one mark the first filed. */
  ghost predicate Decides(reviews: seq<Review>, k: string, i: nat) {
    && i < |reviews| && reviews[i].knowledge == k
    && (forall j :: 0 <= j < |reviews| && reviews[j].knowledge == k ==> Yields(reviews[i], reviews[j]))
    && (forall j :: 0 <= j < i && reviews[j].knowledge == k ==> !Yields(reviews[j], reviews[i]))
  }

  lemma {:induction false} LatestDecides(reviews: seq<Review>, k: string) returns (i: nat)
    requires Latest(reviews, k).Some?
    ensures Decides(reviews, k, i) && Latest(reviews, k) == Some(reviews[i])
  {
    var n := |reviews| - 1;
    var last, rest := reviews[n], Latest(reviews[..n], k);
    if rest.None? {
      i := n;
      NoneFiled(reviews[..n], k);
    } else {
      i := LatestDecides(reviews[..n], k);
      assert reviews[..n][i] == reviews[i];
      if last.knowledge == k && Newer(last, rest.value) {
        i := n;
      }
    }
    forall j | 0 <= j < n && reviews[j].knowledge == k
      ensures Yields(reviews[i], reviews[j]) && (i == n || j < i ==> !Yields(reviews[j], reviews[i]))
    {
      assert reviews[..n][j] == reviews[j];
    }
  }

  lemma {:induction false} NoneFiled(reviews: seq<Review>, k: string)
    ensures Latest(reviews, k).None? <==> forall j :: 0 <= j < |reviews| ==> reviews[j].knowledge != k
  {
    if reviews != [] {
      NoneFiled(reviews[..|reviews| - 1], k);
    }
  }

  lemma OneDecides(reviews: seq<Review>, k: string, i: nat, j: nat)
    requires Decides(reviews, k, i) && Decides(reviews, k, j)
    ensures i == j
  {
  }

  /** The deciding review finds the evidence sound and is not by the approver. */
  ghost predicate ClearedOnFile(reviews: seq<Review>, k: string, approver: string) {
    exists i: nat :: Decides(reviews, k, i) && reviews[i].verdict == VALID && reviews[i].reviewer != approver
  }

  lemma ClearedIff(reviews: seq<Review>, k: string, approver: string)
    ensures ClearedOnFile(reviews, k, approver) <==>
      && Latest(reviews, k).Some? && Latest(reviews, k).value.verdict == VALID
      && Latest(reviews, k).value.reviewer != approver
  {
    NoneFiled(reviews, k);
    if Latest(reviews, k).Some? {
      var d := LatestDecides(reviews, k);
      if i: nat :| Decides(reviews, k, i) && reviews[i].verdict == VALID && reviews[i].reviewer != approver {
        OneDecides(reviews, k, i, d);
      }
    }
  }

  /** The promoted records of the lineage that stand in the way: of no lower version, or of higher confidence. */
  ghost predicate StandsInTheWay(kb: Base, k: string, a: string)
    requires k in kb.records
  {
    && a in kb.records && a != k && kb.records[a].lineage == kb.records[k].lineage && kb.records[a].state == PROMOTED
    && (kb.records[k].version <= kb.records[a].version || ConfidenceOf(kb.outcomes, k) < kb.records[a].confidence)
  }

  /**
    Exactly when a promotion succeeds in a reachable state: the knowledge is quarantined, the deciding review clears
    it, it has no failure, enough successes for its scope, an eligible skill, and no promoted record in its way. The
    confidence thresholds never decide.
   */
  lemma PromotesIff(
    run: seq<Base>, ops: seq<Op>, n: nat, k: string, approver: string, skillOk: bool, prior: Option<string>, now: real)
    requires IsRun(run, ops) && n < |run| && k in run[n].records && IsPrior(run[n], k, prior)
    ensures
      var kb := run[n];
      var r := kb.records[k];
      Promote(kb, k, approver, skillOk, prior, now).Ok? <==>
      && r.state == QUARANTINED && ClearedOnFile(kb.reviews, k, approver) && Count(kb.outcomes, k, false) == 0
      && (r.scope == GLOBAL ==> 2 <= Count(kb.outcomes, k, true) && 2 <= |Systems(kb.outcomes, k)|)
      && skillOk && forall a :: !StandsInTheWay(kb, k, a)
  {
    RunKeeps(run, ops, n);
    var kb := run[n];
    assert Own(kb, k);
    ClearedIff(kb.reviews, k, approver);
    ThresholdNeverDecides(Count(kb.outcomes, k, true));
    InTheWayIff(kb, k, prior);
  }

  lemma ThresholdNeverDecides(successes: nat)
    ensures 1 <= successes ==> Threshold(SYSTEM) <= Confidence(successes, 0)
    ensures 2 <= successes ==> Threshold(GLOBAL) <= Confidence(successes, 0)
  {
    var x := successes as real;
    assert Confidence(successes, 0) * (x + 2.0) == x + 1.0;
    if 1 <= successes {
      AtLeastBy(Confidence(successes, 0), 0.60, x);
    }
    if 2 <= successes {
      AtLeastBy(Confidence(successes, 0), 0.70, x);
    }
  }

  lemma AtLeastBy(c: real, t: real, x: real)
    requires 0.0 <= x && c * (x + 2.0) == x + 1.0 && t * (x + 2.0) <= x + 1.0
    ensures t <= c
  {
    assert (c - t) * (x + 2.0) >= 0.0;
  }

  /** With at most one record promoted, the prior is the only one that can stand in the way. */
  lemma InTheWayIff(kb: Base, k: string, prior: Option<string>)
    requires Inv(kb) && k in kb.records && IsPrior(kb, k, prior)
    ensures (exists a :: StandsInTheWay(kb, k, a)) <==>
      prior.Some? && StandsInTheWay(kb, k, prior.value)
  {
    if a :| StandsInTheWay(kb, k, a) {
      assert Rival(kb, k, a);
      assert prior.Some? ==> Apart(kb, a, prior.value);
    }
  }

  // Over runs: every review on file was put there by an operation, and every operation's review stays on file.

  /** What the operation files, if it takes effect. */
  ghost predicate Files(kb: Base, op: Op, review: Review) {
    match op
    case ReviewOp(k, bad, mark) =>
      k in kb.records && review == FiledReview(mark, k, if bad then INVALID_EVIDENCE else VALID)
    case RegressOp(o, signature, mark) =>
      Regress(kb, o, signature, mark).Ok? && review == FiledReview(mark, o.knowledge, REGRESSION)
    case _ => false
  }

  lemma ReviewsAfter(kb: Base, op: Op, after: Base)
    requires Moves(kb, op, after)
    ensures after.reviews != kb.reviews ==>
      exists review :: Files(kb, op, review) && after.reviews == kb.reviews + [review]
    ensures forall review :: Files(kb, op, review) ==> after.reviews == kb.reviews + [review]
  {
    match op
    case ReviewOp(k, bad, mark) =>
      assert k in kb.records ==> Files(kb, op, FiledReview(mark, k, if bad then INVALID_EVIDENCE else VALID));
    case RegressOp(o, signature, mark) =>
      assert Regress(kb, o, signature, mark).Ok? ==> Files(kb, op, FiledReview(mark, o.knowledge, REGRESSION));
    case _ =>
  }

  lemma {:induction false} ReviewsAreFiled(run: seq<Base>, ops: seq<Op>, i: nat, review: Review) returns (j: nat)
    requires IsRun(run, ops) && i < |run| && review in run[i].reviews
    ensures j < i && Files(run[j], ops[j], review)
  {
    assert Moves(run[i - 1], ops[i - 1], run[i]);
    ReviewsAfter(run[i - 1], ops[i - 1], run[i]);
    if review in run[i - 1].reviews {
      j := ReviewsAreFiled(run, ops, i - 1, review);
    } else {
      j := i - 1;
    }
  }

  lemma {:induction false} FiledStays(run: seq<Base>, ops: seq<Op>, j: nat, i: nat, review: Review)
    requires IsRun(run, ops) && j < i < |run| && Files(run[j], ops[j], review)
    ensures review in run[i].reviews
  {
    assert Moves(run[i - 1], ops[i - 1], run[i]);
    ReviewsAfter(run[i - 1], ops[i - 1], run[i]);
    if j < i - 1 {
      FiledStays(run, ops, j, i - 1, review);
    }
  }

  /** The operation put `k` in force. */
  ghost predicate Promotes(kb: Base, op: Op, k: string) {
    && op.PromoteOp? && op.k == k && k in kb.records && IsPrior(kb, k, op.prior)
    && Promote(kb, k, op.approver, op.skillOk, op.prior, op.now).Ok?
  }

  /** The operation reviewed this knowledge and found its evidence sound; who did so is not `approver`. */
  ghost predicate Clears(kb: Base, op: Op, k: string, approver: string) {
    op.ReviewOp? && op.k == k && k in kb.records && !op.bad && op.mark.reviewer != approver
  }

  /** Mark `b` is later than mark `a`. */
  predicate Later(b: Mark, a: Mark) {
    a.at < b.at || (a.at == b.at && a.id < b.id)
  }

  /**
    Whoever promotes, someone else has reviewed that knowledge before and found its evidence sound; no later review
    of it found otherwise, and no regression of it ever took effect.
   */
  lemma PromotionIsReviewed(run: seq<Base>, ops: seq<Op>, i: nat, k: string) returns (j: nat)
    requires IsRun(run, ops) && i < |ops| && Promotes(run[i], ops[i], k)
    ensures j < i && Clears(run[j], ops[j], k, ops[i].approver)
    ensures forall m :: 0 <= m < i && ops[m].ReviewOp? && ops[m].k == k && k in run[m].records ==>
      !Later(ops[m].mark, ops[j].mark)
    ensures forall m :: 0 <= m < i && ops[m].RegressOp? && ops[m].o.knowledge == k ==>
      !Regress(run[m], ops[m].o, ops[m].signature, ops[m].mark).Ok?
  {
    var reviews := run[i].reviews;
    ClearedIff(reviews, k, ops[i].approver);
    var d: nat :| Decides(reviews, k, d) && reviews[d].verdict == VALID && reviews[d].reviewer != ops[i].approver;
    j := ReviewsAreFiled(run, ops, i, reviews[d]);
    forall m | 0 <= m < i && ops[m].ReviewOp? && ops[m].k == k && k in run[m].records
      ensures !Later(ops[m].mark, ops[j].mark)
    {
      var review := FiledReview(ops[m].mark, k, if ops[m].bad then INVALID_EVIDENCE else VALID);
      FiledStays(run, ops, m, i, review);
    }
    forall m | 0 <= m < i && ops[m].RegressOp? && ops[m].o.knowledge == k
      ensures !Regress(run[m], ops[m].o, ops[m].signature, ops[m].mark).Ok?
    {
      if Regress(run[m], ops[m].o, ops[m].signature, ops[m].mark).Ok? {
        FailureStays(run, ops, m, i, k);
        assert false;
      }
    }
  }

  /** A regression that took effect counts as a failure from then on. */
  lemma {:induction false} FailureStays(run: seq<Base>, ops: seq<Op>, m: nat, i: nat, k: string)
    requires IsRun(run, ops) && m < i < |run| && ops[m].RegressOp? && ops[m].o.knowledge == k
    requires Regress(run[m], ops[m].o, ops[m].signature, ops[m].mark).Ok?
    ensures 0 < Count(run[i].outcomes, k, false)
  {
    assert Moves(run[i - 1], ops[i - 1], run[i]);
    if m < i - 1 {
      FailureStays(run, ops, m, i - 1, k);
    }
    OutcomesAfter(run[i - 1], ops[i - 1], run[i], k);
  }

  lemma OutcomesAfter(kb: Base, op: Op, after: Base, k: string)
    requires Moves(kb, op, after)
    ensures Count(kb.outcomes, k, false) <= Count(after.outcomes, k, false)
    ensures op.RegressOp? && op.o.knowledge == k && Regress(kb, op.o, op.signature, op.mark).Ok? ==>
      0 < Count(after.outcomes, k, false)
  {
    if |after.outcomes| != |kb.outcomes| {
      var o := after.outcomes[|kb.outcomes|];
      OutcomesGrow(kb.outcomes, o, k);
      assert after.outcomes == kb.outcomes + [o];
    }
  }

  /** Every record that is or was in force was put there by a promotion, after a review by someone else. */
  lemma {:induction false} InForceWasCleared(run: seq<Base>, ops: seq<Op>, i: nat, k: string) returns (p: nat, j: nat)
    requires IsRun(run, ops) && i < |run| && k in run[i].records && run[i].records[k].promotedAt.Some?
    ensures j < p < i && Promotes(run[p], ops[p], k) && Clears(run[j], ops[j], k, ops[p].approver)
  {
    var kb, op := run[i - 1], ops[i - 1];
    assert Moves(kb, op, run[i]);
    if k in kb.records && kb.records[k].promotedAt.Some? {
      p, j := InForceWasCleared(run, ops, i - 1, k);
    } else {
      p := i - 1;
      FirstInForce(kb, op, run[i], k);
      j := PromotionIsReviewed(run, ops, p, k);
    }
  }

  lemma FirstInForce(kb: Base, op: Op, after: Base, k: string)
    requires Moves(kb, op, after) && k in after.records && after.records[k].promotedAt.Some?
    requires k !in kb.records || kb.records[k].promotedAt.None?
    ensures Promotes(kb, op, k)
  {
  }

  // ---------------------------------------------------------------------------------------------
  // When the other operations take effect, and what they do to the record.

  /** In every run each trial counts once. */
  lemma {:induction false} TrialsCountOnce(run: seq<Base>, ops: seq<Op>, n: nat)
    requires IsRun(run, ops) && n < |run|
    ensures forall i, j :: 0 <= i < j < |run[n].outcomes| ==> !OneTrial(run[n].outcomes[i], run[n].outcomes[j])
  {
    if 0 < n {
      assert Moves(run[n - 1], ops[n - 1], run[n]);
      TrialsCountOnce(run, ops, n - 1);
      RunKeeps(run, ops, n - 1);
      NewTrial(run[n - 1], ops[n - 1], run[n]);
    }
  }

  lemma NewTrial(kb: Base, op: Op, after: Base)
    requires Inv(kb) && Moves(kb, op, after)
    ensures kb.outcomes <= after.outcomes && |after.outcomes| <= |kb.outcomes| + 1
    ensures forall i :: 0 <= i < |kb.outcomes| < |after.outcomes| ==>
      !OneTrial(kb.outcomes[i], after.outcomes[|kb.outcomes|])
  {
    if op.CreateOp? && op.k !in kb.records {
      NoOutcomeOf(kb.outcomes, op.k);
    }
  }

  lemma {:induction false} NoOutcomeOf(outcomes: seq<Outcome>, k: string)
    requires Fresh(outcomes, k)
    ensures forall i :: 0 <= i < |outcomes| ==> outcomes[i].knowledge != k
  {
    if outcomes != [] {
      NoOutcomeOf(outcomes[..|outcomes| - 1], k);
    }
  }

  /** A success counts exactly for quarantined or promoted knowledge of that remediation, once per correction. */
  lemma ReproducesIff(kb: Base, o: Outcome, signature: string)
    ensures
      var r := Reproduce(kb, o, signature);
      var k := o.knowledge;
      && (r.Ok? <==> k in kb.records && (kb.records[k].state == QUARANTINED || kb.records[k].state == PROMOTED)
                     && signature == kb.records[k].signature
                     && forall i :: 0 <= i < |kb.outcomes| ==>
                          || kb.outcomes[i].knowledge != k || kb.outcomes[i].correction != o.correction
                          || kb.outcomes[i].validation != o.validation)
      && (r.Ok? ==> r.value.outcomes == kb.outcomes + [o] && r.value.records[k].state == kb.records[k].state)
  {
  }

  /**
    A failure counts exactly for knowledge of that remediation that has not ended, once per validation. It retires
    knowledge that failed before, and otherwise suspends it if it was in force.
   */
  lemma RegressesIff(kb: Base, o: Outcome, signature: string, mark: Mark)
    requires !o.success
    ensures
      var r := Regress(kb, o, signature, mark);
      var k := o.knowledge;
      && (r.Ok? <==> k in kb.records && kb.records[k].state != RETIRED && kb.records[k].state != SUPERSEDED
                     && signature == kb.records[k].signature
                     && forall i :: 0 <= i < |kb.outcomes| ==>
                          || kb.outcomes[i].knowledge != k || kb.outcomes[i].correction != o.correction
                          || kb.outcomes[i].validation != o.validation)
      && (r.Ok? ==>
            && k in r.value.records && r.value.outcomes == kb.outcomes + [o]
            && r.value.reviews == kb.reviews + [Review(mark.id, k, mark.reviewer, REGRESSION, mark.at)]
            && (1 <= Count(kb.outcomes, k, false) ==> r.value.records[k].state == RETIRED)
            && (Count(kb.outcomes, k, false) == 0 && kb.records[k].state == PROMOTED ==>
                  r.value.records[k].state == SUSPENDED)
            && (Count(kb.outcomes, k, false) == 0 && kb.records[k].state != PROMOTED ==>
                  r.value.records[k].state == kb.records[k].state))
  {
    OutcomesGrow(kb.outcomes, o, o.knowledge);
  }

  /** A candidate starts quarantined, with what it was given, and nothing else changes. */
  lemma CreateDoes(kb: Base, k: string, lineage: string, scope: Scope, version: nat, signature: string, o: Outcome)
    requires k !in kb.records
    ensures
      var r := Create(kb, k, lineage, scope, version, signature, o);
      && r.Ok? && r.value.records.Keys == kb.records.Keys + {k} && r.value.outcomes == kb.outcomes + [o]
      && r.value.reviews == kb.reviews && (forall a :: a in kb.records ==> r.value.records[a] == kb.records[a])
      && r.value.records[k].state == QUARANTINED && r.value.records[k].lineage == lineage
      && r.value.records[k].version == version && r.value.records[k].scope == scope
      && r.value.records[k].signature == signature
      && r.value.records[k].promotedAt == None && r.value.records[k].supersedes == None
  {
  }

  /** A promotion puts the record in force from then on, in place of the prior, and changes no other record. */
  lemma PromotionDoes(kb: Base, k: string, approver: string, skillOk: bool, prior: Option<string>, now: real)
    requires k in kb.records && IsPrior(kb, k, prior) && Promote(kb, k, approver, skillOk, prior, now).Ok?
    ensures
      var after := Promote(kb, k, approver, skillOk, prior, now).value;
      && after.records.Keys == kb.records.Keys && after.outcomes == kb.outcomes && after.reviews == kb.reviews
      && after.records[k].state == PROMOTED && after.records[k].promotedAt == Some(now)
      && after.records[k].supersedes == prior
      && (prior.Some? ==> after.records[prior.value] == kb.records[prior.value].(state := SUPERSEDED))
      && (forall a :: a in kb.records && a != k && Some(a) != prior ==> after.records[a] == kb.records[a])
  {
    PromoteDoes(kb, k, approver, skillOk, prior, now);
  }

  /** Everything that has not ended can be retired, and that changes nothing else. */
  lemma RetiresIff(kb: Base, k: string)
    ensures
      var r := Retire(kb, k);
      && (r.Ok? <==> k in kb.records && kb.records[k].state in {QUARANTINED, PROMOTED, SUSPENDED})
      && (r.Ok? ==> r.value == kb.(records := kb.records[k := kb.records[k].(state := RETIRED)]))
  {
  }

  /** A review of bad evidence leaves no knowledge in force; one of sound evidence leaves every state as it was. */
  lemma ReviewDoes(run: seq<Base>, ops: seq<Op>, i: nat, k: string, bad: bool, mark: Mark)
    requires IsRun(run, ops) && i < |run| && k in run[i].records
    ensures
      var kb, r := run[i], ReviewIntegrity(run[i], k, bad, mark);
      && r.Ok? && k in r.value.records
      && (bad ==> r.value.reviews == kb.reviews + [Review(mark.id, k, mark.reviewer, INVALID_EVIDENCE, mark.at)])
      && (!bad ==> r.value.reviews == kb.reviews + [Review(mark.id, k, mark.reviewer, VALID, mark.at)])
      && (bad ==> r.value.records[k].state != PROMOTED)
      && (!bad || kb.records[k].state != PROMOTED ==> r.value.records[k].state == kb.records[k].state)
  {
    RunKeeps(run, ops, i);
    assert Own(run[i], k);
  }

  // ---------------------------------------------------------------------------------------------
  // Lineages.

  /** The versions of a lineage are exactly 1 up to the largest, each once, and at most one of them is promoted. */
  lemma {:induction false} VersionsAreDense(run: seq<Base>, ops: seq<Op>, i: nat, k: string, version: nat)
    requires IsRun(run, ops) && i < |run| && k in run[i].records && 1 <= version <= run[i].records[k].version
    ensures HasVersion(run[i], run[i].records[k].lineage, version)
    ensures forall a, b :: a in run[i].records && b in run[i].records ==> Apart(run[i], a, b)
    decreases run[i].records[k].version
  {
    RunKeeps(run, ops, i);
    var kb := run[i];
    var r := kb.records[k];
    assert Own(kb, k);
    if version < r.version {
      var b :| b in kb.records && kb.records[b].lineage == r.lineage && kb.records[b].version == r.version - 1;
      VersionsAreDense(run, ops, i, b, version);
    }
  }

  /** What a record replaced, and what that one replaced, and so on. */
  ghost function Ancestry(kb: Base, k: string): (chain: seq<string>)
    requires k in kb.records && forall a :: a in kb.records ==> LinkOk(kb, a)
    ensures forall i :: 0 <= i < |chain| ==> chain[i] in kb.records
    decreases kb.records[k].version
  {
    assert LinkOk(kb, k);
    match kb.records[k].supersedes
    case None => [k]
    case Some(p) => [k] + Ancestry(kb, p)
  }

  /** Down the ancestry versions fall, every replaced record is superseded still, and successes never rise. */
  lemma {:induction false} AncestryFalls(kb: Base, k: string, i: nat)
    requires k in kb.records && forall a :: a in kb.records ==> LinkOk(kb, a)
    requires i < |Ancestry(kb, k)|
    ensures
      var a := Ancestry(kb, k)[i];
      && kb.records[a].lineage == kb.records[k].lineage
      && (0 < i ==> kb.records[a].version < kb.records[k].version && kb.records[a].state == SUPERSEDED)
      && Count(kb.outcomes, a, true) <= Count(kb.outcomes, k, true)
    decreases kb.records[k].version
  {
    assert LinkOk(kb, k);
    if 0 < i {
      AncestryFalls(kb, kb.records[k].supersedes.value, i - 1);
    }
  }

  /** In every run the links hold, each superseded record has a successor, and no two records supersede the same one. */
  lemma LineagesAreChained(run: seq<Base>, ops: seq<Op>, i: nat)
    requires IsRun(run, ops) && i < |run|
    ensures forall a :: a in run[i].records ==> LinkOk(run[i], a)
    ensures forall a :: a in run[i].records && run[i].records[a].state == SUPERSEDED ==> HasSuccessor(run[i], a)
    ensures forall a, b :: a in run[i].records && b in run[i].records ==> Apart(run[i], a, b)
  {
    RunKeeps(run, ops, i);
    forall a | a in run[i].records
      ensures LinkOk(run[i], a) && (run[i].records[a].state == SUPERSEDED ==> HasSuccessor(run[i], a))
    {
      assert Own(run[i], a);
    }
  }

  /** A later version of the lineage that is or was in force. */
  ghost predicate Outranks(kb: Base, a: string, k: string)
    requires k in kb.records
  {
    && a in kb.records && kb.records[a].lineage == kb.records[k].lineage
    && kb.records[k].version < kb.records[a].version && kb.records[a].promotedAt.Some?
  }

  lemma {:induction false} VersionBound(kb: Base, keys: set<string>) returns (n: nat)
    requires keys <= kb.records.Keys
    ensures forall a :: a in keys ==> kb.records[a].version <= n
  {
    n := 0;
    if keys != {} {
      var k :| k in keys;
      n := VersionBound(kb, keys - {k});
      n := if n < kb.records[k].version then kb.records[k].version else n;
    }
  }

  /** Up from any record that outranks `k`, the chain of successors ends in one that was not superseded. */
  lemma {:induction false} TopOfChain(kb: Base, a: string, k: string, n: nat) returns (top: string)
    requires Inv(kb) && k in kb.records && Outranks(kb, a, k)
    requires forall b :: b in kb.records ==> kb.records[b].version <= n
    ensures Outranks(kb, top, k) && kb.records[top].state != SUPERSEDED
    decreases n - kb.records[a].version
  {
    assert Own(kb, a);
    top := a;
    if kb.records[a].state == SUPERSEDED {
      var b :| b in kb.records && kb.records[b].supersedes == Some(a);
      assert Own(kb, b);
      top := TopOfChain(kb, b, k, n);
    }
  }

  /** A later version of the lineage was in force and was taken out by suspension or retirement. */
  ghost predicate LaterWithdrawn(kb: Base, k: string)
    requires k in kb.records
  {
    exists a :: Outranks(kb, a, k) && (kb.records[a].state == SUSPENDED || kb.records[a].state == RETIRED)
  }

  /**
    Exactly when a promotion puts a version in force that is not the latest ever in force: when, before the call, a
    later one stands suspended or retired. Only a prior that is promoted at the time is compared.
   */
  lemma PromotionGoesBackIff(
    run: seq<Base>, ops: seq<Op>, i: nat, k: string, approver: string, skillOk: bool, prior: Option<string>, now: real)
    requires IsRun(run, ops) && i < |run| && k in run[i].records && IsPrior(run[i], k, prior)
    requires Promote(run[i], k, approver, skillOk, prior, now).Ok?
    ensures
      var after := Promote(run[i], k, approver, skillOk, prior, now).value;
      k in after.records && ((exists a :: Outranks(after, a, k)) <==> LaterWithdrawn(run[i], k))
  {
    RunKeeps(run, ops, i);
    PromoteDoes(run[i], k, approver, skillOk, prior, now);
    PromotedGoesBackIff(run[i], Promote(run[i], k, approver, skillOk, prior, now).value, k, prior);
  }

  lemma PromotedGoesBackIff(kb: Base, after: Base, k: string, prior: Option<string>)
    requires Inv(kb) && Promoted(kb, after, k, prior) && IsPrior(kb, k, prior)
    ensures (exists a :: Outranks(after, a, k)) <==> LaterWithdrawn(kb, k)
  {
    forall a ensures Outranks(after, a, k) <==> Outranks(kb, a, k) {
      OutranksStays(kb, after, k, prior, a);
    }
    if a :| Outranks(kb, a, k) {
      var n := VersionBound(kb, kb.records.Keys);
      var top := TopOfChain(kb, a, k, n);
      TopIsWithdrawn(kb, k, top, prior);
    }
  }

  lemma OutranksStays(kb: Base, after: Base, k: string, prior: Option<string>, a: string)
    requires Promoted(kb, after, k, prior)
    ensures Outranks(after, a, k) <==> Outranks(kb, a, k)
  {
  }

  /** With no later version promoted, a later one that was in force and not superseded stands suspended or retired. */
  lemma TopIsWithdrawn(kb: Base, k: string, top: string, prior: Option<string>)
    requires k in kb.records && Outranks(kb, top, k) && Own(kb, top) && kb.records[top].state != SUPERSEDED
    requires IsPrior(kb, k, prior) && (prior.Some? ==> kb.records[prior.value].version < kb.records[k].version)
    ensures kb.records[top].state == SUSPENDED || kb.records[top].state == RETIRED
  {
    assert kb.records[top].state == PROMOTED ==> Rival(kb, k, top);
  }

  // Versions in force can go back: only the record promoted now is compared, so after version 2 was promoted and
  // suspended, version 1 can be promoted. The states of such a run, one by one:

  function Won(k: string): Outcome { Outcome(k, "c", "v", "s", true) }

  function Signed(id: int): Mark { Mark(id, "reviewer", id as real) }

  function Seen(id: int, k: string, verdict: Verdict): Review { FiledReview(Signed(id), k, verdict) }

  function Version(n: nat, state: KnowledgeState, promotedAt: Option<real>): Record {
    Record("l", n, SYSTEM, state, Confidence(1, 0), "x", promotedAt, None)
  }

  function Example(a: Record, b: Record, reviews: seq<Review>): Base {
    Base(map["a" := a, "b" := b], [Won("a"), Won("b")], reviews)
  }

  lemma ExampleCounts()
    ensures Count([Won("a")], "a", true) == 1 && Count([Won("a")], "a", false) == 0
    ensures forall k :: k == "a" || k == "b" ==>
      Count([Won("a"), Won("b")], k, true) == 1 && Count([Won("a"), Won("b")], k, false) == 0
  {
    assert [] + [Won("a")] == [Won("a")] && [Won("a")] + [Won("b")] == [Won("a"), Won("b")];
    forall k | k == "a" || k == "b"
      ensures Count([Won("a"), Won("b")], k, true) == 1 && Count([Won("a"), Won("b")], k, false) == 0
    {
      OutcomesGrow([], Won("a"), k);
      OutcomesGrow([Won("a")], Won("b"), k);
    }
    OutcomesGrow([], Won("a"), "a");
  }

  lemma ExampleReviews()
    ensures Latest([Seen(1, "a", VALID), Seen(2, "b", VALID)], "b") == Some(Seen(2, "b", VALID))
    ensures
      var reviews := [Seen(1, "a", VALID), Seen(2, "b", VALID), Seen(3, "b", INVALID_EVIDENCE)];
      Latest(reviews, "a") == Some(Seen(1, "a", VALID))
  {
    var r1, r2, r3 := Seen(1, "a", VALID), Seen(2, "b", VALID), Seen(3, "b", INVALID_EVIDENCE);
    assert [] + [r1] == [r1] && [r1] + [r2] == [r1, r2] && [r1, r2] + [r3] == [r1, r2, r3];
    LatestGrows([], r1, "b");
    LatestGrows([r1], r2, "b");
    LatestGrows([], r1, "a");
    LatestGrows([r1], r2, "a");
    LatestGrows([r1, r2], r3, "a");
  }

  lemma ExampleCreated() returns (run: seq<Base>, ops: seq<Op>)
    ensures IsRun(run, ops) && |ops| == 2
    ensures run[2] == Example(Version(1, QUARANTINED, None), Version(2, QUARANTINED, None), [])
  {
    ExampleCounts();
    var k1 := Base(map["a" := Version(1, QUARANTINED, None)], [Won("a")], []);
    run := [Base(map[], [], []), k1, Example(Version(1, QUARANTINED, None), Version(2, QUARANTINED, None), [])];
    ops := [CreateOp("a", "l", SYSTEM, 1, "x", Won("a")), CreateOp("b", "l", SYSTEM, 2, "x", Won("b"))];
    assert k1.records["a"].version == 1;
    assert HasVersion(k1, "l", 1);
    assert [] + [Won("a")] == [Won("a")] && [Won("a")] + [Won("b")] == [Won("a"), Won("b")];
  }

  lemma ExampleReview(a: Record, b: Record, reviews: seq<Review>, k: string, id: int, bad: bool)
    requires (k == "a" || k == "b") && a.confidence == b.confidence == Confidence(1, 0)
    ensures
      var review := Seen(id, k, if bad then INVALID_EVIDENCE else VALID);
      Step(Example(a, b, reviews), ReviewOp(k, bad, Signed(id))) ==
        Example(if k == "a" && bad && a.state == PROMOTED then a.(state := SUSPENDED) else a,
                if k == "b" && bad && b.state == PROMOTED then b.(state := SUSPENDED) else b, reviews + [review])
  {
    ExampleCounts();
  }

  lemma ExamplePromote(k: string, a: Record, b: Record, reviews: seq<Review>, now: real)
    requires (k == "a" || k == "b") && a.lineage == b.lineage
    requires
      var r, other := if k == "a" then a else b, if k == "a" then b else a;
      r.state == QUARANTINED && r.scope == SYSTEM && r.supersedes == None && r.confidence == Confidence(1, 0)
        && other.state != PROMOTED
    requires Latest(reviews, k).Some? && Latest(reviews, k).value.verdict == VALID
      && Latest(reviews, k).value.reviewer == "reviewer"
    ensures
      var op := PromoteOp(k, "approver", true, None, now);
      && Enabled(Example(a, b, reviews), op)
      && Step(Example(a, b, reviews), op) ==
        Example(if k == "a" then a.(state := PROMOTED, promotedAt := Some(now)) else a,
                if k == "b" then b.(state := PROMOTED, promotedAt := Some(now)) else b, reviews)
  {
    var kb := Example(a, b, reviews);
    assert forall x :: x in kb.records ==> !Rival(kb, k, x);
    ExampleMayPromote(k, a, b, reviews);
  }

  lemma ExampleMayPromote(k: string, a: Record, b: Record, reviews: seq<Review>)
    requires k == "a" || k == "b"
    requires var r := if k == "a" then a else b; r.state == QUARANTINED && r.scope == SYSTEM
    requires Latest(reviews, k).Some? && Latest(reviews, k).value.verdict == VALID
    requires Latest(reviews, k).value.reviewer == "reviewer"
    ensures Refusal(Example(a, b, reviews), k, "approver", true, None) == None
    ensures ConfidenceOf([Won("a"), Won("b")], k) == Confidence(1, 0)
  {
    ExampleCounts();
    assert Confidence(1, 0) == 2.0 / 3.0;
  }

  /** A run after which version 1 of a lineage is promoted while version 2, promoted before it, is suspended. */
  lemma OlderVersionCanFollow() returns (run: seq<Base>, ops: seq<Op>)
    ensures IsRun(run, ops)
    ensures
      var kb := run[|ops|];
      && "a" in kb.records && "b" in kb.records && kb.records["a"].lineage == kb.records["b"].lineage
      && kb.records["a"].version < kb.records["b"].version
      && kb.records["a"].state == PROMOTED && kb.records["b"].state == SUSPENDED
  {
    run, ops := ExampleCreated();
    var a, b := Version(1, QUARANTINED, None), Version(2, QUARANTINED, None);
    var b', b'' := Version(2, PROMOTED, Some(3.0)), Version(2, SUSPENDED, Some(3.0));
    var r1, r2, r3 := Seen(1, "a", VALID), Seen(2, "b", VALID), Seen(3, "b", INVALID_EVIDENCE);
    assert [] + [r1] == [r1] && [r1] + [r2] == [r1, r2] && [r1, r2] + [r3] == [r1, r2, r3];
    ExampleReviews();
    ExampleReview(a, b, [], "a", 1, false);
    run, ops := Extend(run, ops, ReviewOp("a", false, Signed(1)), Example(a, b, [r1]));
    ExampleReview(a, b, [r1], "b", 2, false);
    run, ops := Extend(run, ops, ReviewOp("b", false, Signed(2)), Example(a, b, [r1, r2]));
    ExamplePromote("b", a, b, [r1, r2], 3.0);
    run, ops := Extend(run, ops, PromoteOp("b", "approver", true, None, 3.0), Example(a, b', [r1, r2]));
    ExampleReview(a, b', [r1, r2], "b", 3, true);
    run, ops := Extend(run, ops, ReviewOp("b", true, Signed(3)), Example(a, b'', [r1, r2, r3]));
    ExamplePromote("a", a, b'', [r1, r2, r3], 5.0);
    var a' := Version(1, PROMOTED, Some(5.0));
    run, ops := Extend(run, ops, PromoteOp("a", "approver", true, None, 5.0), Example(a', b'', [r1, r2, r3]));
  }

  lemma Extend(run: seq<Base>, ops: seq<Op>, op: Op, next: Base) returns (longer: seq<Base>, more: seq<Op>)
    requires IsRun(run, ops) && Enabled(run[|ops|], op) && next == Step(run[|ops|], op)
    ensures IsRun(longer, more) && |more| == |ops| + 1 && longer[|more|] == next
  {
    longer, more := run + [next], ops + [op];
    forall i | 0 <= i < |more| ensures Moves(longer[i], more[i], longer[i + 1]) {
      assert i < |ops| ==> Moves(run[i], ops[i], run[i + 1]);
    }
  }

  lemma LatestGrows(reviews: seq<Review>, r: Review, k: string)
    ensures Latest(reviews + [r], k) ==
      if r.knowledge == k && (Latest(reviews, k).None? || Newer(r, Latest(reviews, k).value)) then Some(r)
        else Latest(reviews, k)
  {
    assert (reviews + [r])[..|reviews|] == reviews;
  }

  // ---------------------------------------------------------------------------------------------
  // The engine as it runs.

  class ControlledLearningEngine {
    var records: map<string, Record>
    var outcomes: seq<Outcome>
    var reviews: seq<Review>

    function State(): Base
      reads this
    {
      Base(records, outcomes, reviews)
    }

    constructor ()
      ensures State() == Base(map[], [], [])
    {
      records, outcomes, reviews := map[], [], [];
    }

    /** One more than the largest version of a lineage. */
    method NextVersion(lineage: string) returns (version: nat)
      ensures IsNextVersion(State(), lineage, version)
    {
      version := 1;
      var todo := records.Keys;
      while todo != {}
        invariant todo <= records.Keys && 1 <= version
        invariant forall a :: a in records && a !in todo && records[a].lineage == lineage ==>
          records[a].version < version
        invariant 1 < version ==> HasVersion(State(), lineage, version - 1)
        decreases todo
      {
        var a :| a in todo;
        todo := todo - {a};
        if records[a].lineage == lineage && version <= records[a].version {
          version := records[a].version + 1;
        }
      }
    }

    /** The promoted record of a lineage with the largest version, other than `k`. */
    method FindPrior(k: string) returns (prior: Option<string>)
      requires k in records
      ensures IsPrior(State(), k, prior)
    {
      prior := None;
      var todo := records.Keys;
      while todo != {}
        invariant todo <= records.Keys
        invariant prior.Some? ==> prior.value in records && Rival(State(), k, prior.value)
        invariant forall a :: a in records && a !in todo && Rival(State(), k, a) ==>
          prior.Some? && records[a].version <= records[prior.value].version
        decreases todo
      {
        var a :| a in todo;
        todo := todo - {a};
        if Rival(State(), k, a) && (prior.None? || records[prior.value].version < records[a].version) {
          prior := Some(a);
        }
      }
    }

    method RecomputeConfidence(k: string)
      returns (confidence: real, successes: nat, failures: nat, systems: set<string>)
      requires k in records
      modifies this`records
      ensures successes == Count(outcomes, k, true) && failures == Count(outcomes, k, false)
        && systems == Systems(outcomes, k)
      ensures confidence == Confidence(successes, failures)
      ensures records == old(records)[k := old(records)[k].(confidence := confidence)]
    {
      successes, failures, systems := 0, 0, {};
      for i := 0 to |outcomes|
        invariant successes == Count(outcomes[..i], k, true) && failures == Count(outcomes[..i], k, false)
        invariant systems == Systems(outcomes[..i], k) && records == old(records)
      {
        assert outcomes[..i + 1][..i] == outcomes[..i];
        if outcomes[i].knowledge == k {
          if outcomes[i].success {
            successes, systems := successes + 1, systems + {outcomes[i].system};
          } else {
            failures := failures + 1;
          }
        }
      }
      assert outcomes[..|outcomes|] == outcomes;
      confidence := Confidence(successes, failures);
      records := records[k := records[k].(confidence := confidence)];
    }

    method CreateCandidate(k: string, lineage: string, scope: Scope, signature: string, o: Outcome)
      returns (version: nat)
      requires k !in records && o.knowledge == k && o.success
      modifies this
      ensures IsNextVersion(old(State()), lineage, version)
      ensures Create(old(State()), k, lineage, scope, version, signature, o) == Ok(State())
    {
      version := NextVersion(lineage);
      records := records[k := Record(lineage, version, scope, QUARANTINED, 0.0, signature, None, None)];
      outcomes := outcomes + [o];
      var _, _, _, _ := RecomputeConfidence(k);
      assert records == Create(old(State()), k, lineage, scope, version, signature, o).value.records;
    }

    method AddReproduction(o: Outcome, signature: string) returns (r: Result<(), LearningError>)
      modifies this
      ensures Reproduce(old(State()), o, signature) == if r.Ok? then Ok(State()) else Err(r.error)
      ensures r.Err? ==> State() == old(State())
    {
      var k := o.knowledge;
      if k !in records {
        return Err(NotFound);
      }
      if records[k].state != QUARANTINED && records[k].state != PROMOTED {
        return Err(NotEligible);
      }
      if signature != records[k].signature {
        return Err(SignatureMismatch);
      }
      if Recorded(outcomes, o) {
        return Err(AlreadyRecorded);
      }
      outcomes := outcomes + [o];
      var _, _, _, _ := RecomputeConfidence(k);
      return Ok(());
    }

    method RecordRegression(o: Outcome, signature: string, mark: Mark) returns (r: Result<(), LearningError>)
      modifies this
      ensures Regress(old(State()), o, signature, mark) == if r.Ok? then Ok(State()) else Err(r.error)
      ensures r.Err? ==> State() == old(State())
    {
      var k := o.knowledge;
      if k !in records {
        return Err(NotFound);
      }
      var record := records[k];
      if record.state == RETIRED || record.state == SUPERSEDED {
        return Err(NotEligible);
      }
      if signature != record.signature {
        return Err(SignatureMismatch);
      }
      if Recorded(outcomes, o) {
        return Err(AlreadyRecorded);
      }
      outcomes := outcomes + [o];
      var _, _, failures, _ := RecomputeConfidence(k);
      var state := record.state;
      if failures >= 2 {
        state := RETIRED;
      } else if record.state == PROMOTED {
        state := SUSPENDED;
      }
      records := records[k := records[k].(state := state)];
      reviews := reviews + [Review(mark.id, k, mark.reviewer, REGRESSION, mark.at)];
      assert records == Regress(old(State()), o, signature, mark).value.records;
      return Ok(());
    }

    method ReviewKnowledge(k: string, bad: bool, mark: Mark) returns (r: Result<(), LearningError>)
      modifies this
      ensures ReviewIntegrity(old(State()), k, bad, mark) == if r.Ok? then Ok(State()) else Err(r.error)
      ensures r.Err? ==> State() == old(State())
    {
      if k !in records {
        return Err(NotFound);
      }
      var state := records[k].state;
      var _, _, failures, _ := RecomputeConfidence(k);
      if bad && state == PROMOTED {
        state := SUSPENDED;
      }
      if bad && failures >= 2 {
        state := RETIRED;
      }
      var verdict := if bad then INVALID_EVIDENCE else VALID;
      records := records[k := records[k].(state := state)];
      reviews := reviews + [Review(mark.id, k, mark.reviewer, verdict, mark.at)];
      assert records == ReviewIntegrity(old(State()), k, bad, mark).value.records;
      return Ok(());
    }

    /** Promotes when every check passes; a refused promotion at most brings the confidence up to date. */
    method PromoteKnowledge(k: string, approver: string, skillOk: bool, now: real)
      returns (r: Result<Option<string>, LearningError>)
      modifies this
      ensures r.Ok? ==>
        && k in old(records) && IsPrior(old(State()), k, r.value)
        && Promote(old(State()), k, approver, skillOk, r.value, now) == Ok(State())
      ensures k !in old(records) ==> r == Err(NotFound) && State() == old(State())
      ensures r.Err? && k in old(records) ==>
        && (exists prior ::
              && IsPrior(old(State()), k, prior)
              && Promote(old(State()), k, approver, skillOk, prior, now) == Err(r.error))
        && outcomes == old(outcomes) && reviews == old(reviews)
        && (old(records)[k].confidence == ConfidenceOf(outcomes, k) ==> records == old(records))
    {
      if k !in records {
        return Err(NotFound);
      }
      var prior := FindPrior(k);
      var refused := Refusal(State(), k, approver, skillOk, prior);
      ghost var before := State();
      assert refused.Some? ==> Promote(before, k, approver, skillOk, prior, now) == Err(refused.value);
      if refused == Some(NotEligible) || refused == Some(ReviewRequired) || refused == Some(SameIdentity) {
        return Err(refused.value);
      }
      var confidence, _, _, _ := RecomputeConfidence(k);
      if refused.Some? {
        return Err(refused.value);
      }
      ConfidenceIsOverwritten(before.records, k, confidence, prior, now);
      PutInForce(k, confidence, prior, now);
      return Ok(prior);
    }

    /** The two updates of a promotion. */
    method PutInForce(k: string, confidence: real, prior: Option<string>, now: real)
      requires k in records && (prior.Some? ==> prior.value in records)
      modifies this`records
      ensures records == InForce(old(records), k, confidence, prior, now)
    {
      records := records[k := records[k].(
        state := PROMOTED, confidence := confidence, promotedAt := Some(now), supersedes := prior)];
      if prior.Some? {
        records := records[prior.value := records[prior.value].(state := SUPERSEDED)];
      }
    }

    method RetireKnowledge(k: string) returns (r: Result<(), LearningError>)
      modifies this
      ensures Retire(old(State()), k) == if r.Ok? then Ok(State()) else Err(r.error)
      ensures r.Err? ==> State() == old(State())
    {
      if k !in records {
        return Err(NotFound);
      }
      if records[k].state == RETIRED || records[k].state == SUPERSEDED {
        return Err(NotEligible);
      }
      records := records[k := records[k].(state := RETIRED)];
      return Ok(());
    }
  }
}
