/**
 What becomes of an upload: runs in which it succeeds, fails at each point and is deleted again, and
 in every run the only reasons for which a writer turns against its own upload.
 */
module UploadOutcomes {
  import opened Wrappers
  import opened UploadRows
  import opened UploadStatements
  import opened UploadProtocol
  import opened UploadSafety
  import opened UploadScenarios

  /** The upload can be served: no marker is left, the row is ready and the bytes are stored. */
  predicate Served(s: State, id: FileId) {
    && id in s.rows && s.rows[id].deletedAt.None? && s.rows[id].uploadPendingAt.None?
    && s.rows[id].deletionPendingAt.None? && s.rows[id].status == Ready && id in s.objects
  }

  /** The upload is gone: no bytes, and a deleted row with nothing left to do. */
  predicate Gone(s: State, id: FileId) {
    && id in s.rows && s.rows[id].deletedAt.Some? && s.rows[id].uploadPendingAt.None?
    && s.rows[id].deletionPendingAt.None? && id !in s.objects
  }

  predicate Legacy(kind: UploadKind) {
    kind == Plain || kind == Temporary
  }

  // --- Legacy uploads that succeed ------------------------------------------------------------

  /** The row is saved, the write stores the object and answers as given. */
  lemma Written(r: State -> bool, o: State, id: FileId, marker: Time, kind: UploadKind, ok: bool, claim: Time)
    returns (s: State)
    requires Closed(r) && r(o) && Init(o) && o.s3 && Legacy(kind)
    ensures r(s) && id in s.objects && id in s.rows && s.rows[id] == InitialRow(marker, kind)
    ensures var next := Writer(id, marker, kind, if ok then Activating else Cleaning(claim));
            s.agents == map[0 := next] && s.pending == Sent(0, next)
  {
    s := PlaySave(r, o, id, marker, kind);
    s := PlayMove(r, s, Write(0, true, ok, claim));
  }

  lemma Activated(r: State -> bool, o: State, id: FileId, marker: Time, kind: UploadKind) returns (s: State)
    requires Closed(r) && r(o) && Init(o) && o.s3 && Legacy(kind)
    ensures r(s) && Served(s, id) && s.agents == map[0 := Idle] && !s.rows[id].managed
  {
    var mid := Written(r, o, id, marker, kind, true, 0);
    AnyStatus(mid.rows[id].status);
    s := PlayAnswer(r, mid, 0, 0, id);
  }

  /** Every legacy upload can succeed: its row is ready without a marker, its bytes are stored, its writer is done. */
  lemma LegacyUploadsCanSucceed(id: FileId, marker: Time, kind: UploadKind) returns (s: State)
    requires Legacy(kind)
    ensures Reachable(s) && Served(s, id) && s.agents == map[0 := Idle]
  {
    StartsNowhere();
    s := Activated(x => Reaches(NOWHERE, x), NOWHERE, id, marker, kind);
    assert Init(NOWHERE) && Reaches(NOWHERE, s);
  }

  lemma StartsNowhere()
    ensures Init(NOWHERE) && Reaches(NOWHERE, NOWHERE) && Closed(x => Reaches(NOWHERE, x))
  {
    ReachesItself(NOWHERE);
    ReachesIsClosed(NOWHERE);
  }

  // --- Legacy uploads that fail ------------------------------------------------------------------

  /** How an upload comes to fail, as its writer sees it. */
  datatype Failure = WriteFails | ActivationUnconfirmed | CleanupReplyLost

  /** The activation's reply is lost and a second look finds the row inactive. */
  lemma Unconfirmed(r: State -> bool, o: State, id: FileId, marker: Time, kind: UploadKind, claim: Time)
    returns (s: State)
    requires Closed(r) && r(o) && id in o.rows && o.rows[id] == InitialRow(marker, kind) && 0 in o.agents
    requires o.agents == map[0 := Writer(id, marker, kind, Activating)]
    ensures r(s) && id in s.rows && s.rows[id] == InitialRow(marker, kind)
    ensures s.agents == map[0 := Writer(id, marker, kind, Cleaning(claim))]
    ensures Issue(0, CleanupClaim(id, marker, claim)) in s.pending
  {
    s := PlayMove(r, o, Lost(0, false, 0));
    s := PlayMove(r, s, Confirm(0, false, claim));
  }

  /** The cleanup claim's reply is lost; the writer reads the markers and claims by them. */
  lemma Resettled(r: State -> bool, o: State, id: FileId, marker: Time, kind: UploadKind, claim: Time)
    returns (s: State)
    requires Closed(r) && r(o) && id in o.rows && o.rows[id] == InitialRow(marker, kind) && 0 in o.agents
    requires o.agents == map[0 := Writer(id, marker, kind, Cleaning(claim))]
    ensures r(s) && id in s.rows && s.rows[id] == InitialRow(marker, kind)
    ensures var seen := Markers(None, Some(marker), None);
            && s.agents == map[0 := Writer(id, marker, kind, Settling(0, seen, claim))]
            && Issue(0, SettleClaim(id, seen, claim)) in s.pending
  {
    s := PlayMove(r, o, Lost(0, false, 0));
    s := PlayMove(r, s, Inspect(0, Some(Markers(None, Some(marker), None)), claim));
  }

  /** The claim wins the row, the object is deleted, the row soft-deleted and its claim cleared. */
  lemma CleanedUp(r: State -> bool, o: State, id: FileId, marker: Time, kind: UploadKind) returns (s: State)
    requires Closed(r) && r(o) && id in o.rows && o.rows[id] == InitialRow(marker, kind) && 0 in o.agents
    requires o.agents[0] == Writer(id, marker, kind, Cleaning(50))
          || o.agents[0] == Writer(id, marker, kind, Settling(0, Markers(None, Some(marker), None), 50))
    requires Issue(0, Awaiting(o.agents[0]).value) in o.pending
    ensures r(s) && Gone(s, id)
  {
    AnyStatus(o.rows[id].status);
    s := PlayAnswer(r, o, 0, 0, id);
    s := SweepFinishes(r, s, 0, id);
  }

  lemma FailedUpload(r: State -> bool, o: State, id: FileId, marker: Time, kind: UploadKind, failure: Failure)
    returns (s: State)
    requires Closed(r) && r(o) && Init(o) && o.s3 && Legacy(kind)
    ensures r(s) && Gone(s, id)
  {
    s := Written(r, o, id, marker, kind, !failure.WriteFails?, 50);
    if !failure.WriteFails? { s := Unconfirmed(r, s, id, marker, kind, 50); }
    if failure.CleanupReplyLost? { s := Resettled(r, s, id, marker, kind, 50); }
    s := CleanedUp(r, s, id, marker, kind);
  }

  /** However a legacy upload fails, also with its bytes already stored, its writer can clean it up completely. */
  lemma FailedUploadsCanBeCleanedUp(id: FileId, marker: Time, kind: UploadKind, failure: Failure) returns (s: State)
    requires Legacy(kind)
    ensures Reachable(s) && Gone(s, id)
  {
    StartsNowhere();
    s := FailedUpload(x => Reaches(NOWHERE, x), NOWHERE, id, marker, kind, failure);
    assert Init(NOWHERE) && Reaches(NOWHERE, s);
  }

  // --- Uploads that are deleted ------------------------------------------------------------------------

  /** A claim that takes the row from its present state, as somebody may send it who has read it. */
  predicate Takes(s: State, st: Statement, id: FileId) {
    && IsDeletionClaim(st) && Targets(st) == {id} && ClaimPlausible(s, st, None, 50)
    && id in s.rows && Expects(st, s.rows[id])
  }

  /** Process `q` sends the claim and wins the row. */
  lemma Claimed(r: State -> bool, o: State, q: Pid, st: Statement, id: FileId) returns (s: State)
    requires Closed(r) && r(o) && q !in o.agents && Takes(o, st, id)
    ensures r(s) && q in s.agents && s.agents[q] == Deleter({id}, None, 50, Removing) && id in s.rows
    ensures Leaves(st, o.rows[id], s.rows[id]) && Marked(s.rows[id], None, None, Some(50))
  {
    s := PlayMove(r, o, StartClaim(q, st, None, 50));
    s := ClaimLands(r, s, q, st, id);
  }

  lemma ClaimLands(r: State -> bool, o: State, q: Pid, st: Statement, id: FileId) returns (s: State)
    requires Closed(r) && r(o) && Takes(o, st, id) && q in o.agents && o.agents[q] == Claimer(st, None, 50)
    requires Issue(q, st) in o.pending
    ensures r(s) && q in s.agents && s.agents[q] == Deleter({id}, None, 50, Removing) && id in s.rows
    ensures Leaves(st, o.rows[id], s.rows[id]) && Marked(s.rows[id], None, None, Some(50))
  {
    StatementsHitIff(o.rows, st, id);
    CommitsLeave(o.rows, st, id);
    s := Apply(o, Answer(q, 0));
  }

  /** Who deletes a served upload: its last reference is dropped, it is deleted by id, or its time has come. */
  datatype Deletion = ByReference | ById | ByAge

  function DeletionClaim(deletion: Deletion, id: FileId): Statement {
    match deletion
    case ByReference => ReferenceClaim({id}, 50)
    case ById => DeleteByIdClaim(id, Ready, None, 50)
    case ByAge => TemporaryClaim(id, 50)
  }

  lemma Deleted(r: State -> bool, o: State, id: FileId, marker: Time, kind: UploadKind, deletion: Deletion)
    returns (s: State)
    requires Closed(r) && r(o) && Init(o) && o.s3 && Legacy(kind)
    ensures r(s) && Gone(s, id)
  {
    s := Activated(r, o, id, marker, kind);
    s := Claimed(r, s, 1, DeletionClaim(deletion, id), id);
    s := SweepFinishes(r, s, 1, id);
  }

  /** A served upload can be deleted completely in each of these ways. */
  lemma ServedUploadsCanBeDeleted(id: FileId, marker: Time, kind: UploadKind, deletion: Deletion) returns (s: State)
    requires Legacy(kind)
    ensures Reachable(s) && Gone(s, id)
  {
    StartsNowhere();
    s := Deleted(x => Reaches(NOWHERE, x), NOWHERE, id, marker, kind, deletion);
    assert Init(NOWHERE) && Reaches(NOWHERE, s);
  }

  lemma Withdrawn(r: State -> bool, o: State, id: FileId, marker: Time, expired: bool) returns (s: State)
    requires Closed(r) && r(o) && Init(o) && o.s3
    ensures r(s) && Gone(s, id) && s.rows[id].status == Failed
  {
    s := PlaySave(r, o, id, marker, Managed);
    var seen := Markers(None, Some(marker), None);
    var abort := AbortClaim(id, Pending, Some(marker), 50);
    var claim := if expired then ExpiredDirectClaim(id, Pending, seen, 50) else abort;
    s := Claimed(r, s, 1, claim, id);
    s := SweepFinishes(r, s, 1, id);
  }

  /** A direct upload that nobody completed can be aborted by its owner, or removed once it has expired. */
  lemma DirectUploadsCanBeWithdrawn(id: FileId, marker: Time, expired: bool) returns (s: State)
    ensures Reachable(s) && Gone(s, id) && s.rows[id].status == Failed
  {
    StartsNowhere();
    s := Withdrawn(x => Reaches(NOWHERE, x), NOWHERE, id, marker, expired);
    assert Init(NOWHERE) && Reaches(NOWHERE, s);
  }

  // --- Direct uploads that succeed ---------------------------------------------------------------------

  /** The completer promotes the staged object, sees it and finalizes the row. */
  lemma Completed(r: State -> bool, o: State, id: FileId, m: Time) returns (s: State)
    requires Closed(r) && r(o) && Init(o) && o.s3
    ensures r(s) && Served(s, id) && s.rows[id].managed && 1 in s.agents && s.agents[1] == Idle
  {
    s := FirstCompletion(r, o, id, m);
    s := HeadMissing(r, s, 1);
    s := Promoted(r, s, 1, true, 0);
    s := FinalizationLands(r, s, id, m);
  }

  lemma FinalizationLands(r: State -> bool, o: State, id: FileId, m: Time) returns (s: State)
    requires Closed(r) && r(o) && 1 in o.agents && o.agents[1] == Completer(id, m, Some(1), HeadingAgain)
    requires id in o.rows && o.rows[id] == CompletingRow(m) && id in o.objects
    ensures r(s) && Served(s, id) && s.rows[id].managed && 1 in s.agents && s.agents[1] == Idle
  {
    s := HeadVerified(r, o, 1);
    s := PlayAnswer(r, s, 1, 0, id);
  }

  /** Every direct upload can be completed, by a claim at any clock reading. */
  lemma DirectUploadsCanBeCompleted(id: FileId, m: Time) returns (s: State)
    ensures Reachable(s) && Served(s, id) && s.rows[id].managed && 1 in s.agents && s.agents[1] == Idle
  {
    StartsNowhere();
    s := Completed(x => Reaches(NOWHERE, x), NOWHERE, id, m);
    assert Init(NOWHERE) && Reaches(NOWHERE, s);
  }

  // --- Why a writer turns against its own upload ------------------------------------------------------------

  /** The claims by which a writer takes its own upload back. */
  predicate TakesBack(st: Statement) {
    st.CleanupClaim? || st.SettleClaim?
  }

  predicate WritesFor(s: State, p: Pid, id: FileId) {
    p in s.agents && s.agents[p].Writer? && s.agents[p].id == id
  }

  /** The writer of `id` is told that its write failed, or that its activation missed, or loses that reply. */
  predicate Discourages(s: State, step: Step, id: FileId) {
    match step
    case Write(p, _, ok, _) => WritesFor(s, p, id) && !ok
    case Answer(p, _) =>
      WritesFor(s, p, id) && s.agents[p].wpc.Activating?
      && !Hits(s.rows, Activate(id, s.agents[p].marker, s.agents[p].kind.Temporary?), id)
    case Lost(p, _, _) => WritesFor(s, p, id) && s.agents[p].wpc.Activating?
    case _ => false
  }

  /** One of these happens during the execution. */
  predicate Discouraged(s: State, steps: seq<Step>, id: FileId)
    requires Admissible(s, steps)
    decreases |steps|
  {
    |steps| > 0 && (Discourages(s, steps[0], id) || Discouraged(Apply(s, steps[0]), steps[1..], id))
  }

  /** The writer has sent no claim against `id` and is not on its way to one. */
  predicate Confident(s: State, id: FileId) {
    && (forall p <- s.agents :: WritesFor(s, p, id) ==>
          s.agents[p].wpc.Saving? || s.agents[p].wpc.Writing? || s.agents[p].wpc.Activating?)
    && (forall st <- s.issued :: TakesBack(st) ==> st.id != id)
  }

  lemma MovedStaysConfident(s: State, p: Pid, a: Agent, id: FileId)
    requires Confident(s, id)
    requires a.Writer? && a.id == id ==> a.wpc.Saving? || a.wpc.Writing? || a.wpc.Activating?
    requires Awaiting(a).Some? && TakesBack(Awaiting(a).value) ==> Awaiting(a).value.id != id
    ensures Confident(Moved(s, p, a), id)
  {
    var s' := Moved(s, p, a);
    forall q | q in s'.agents && WritesFor(s', q, id)
      ensures s'.agents[q].wpc.Saving? || s'.agents[q].wpc.Writing? || s'.agents[q].wpc.Activating?
    {
      if q != p { assert WritesFor(s, q, id); }
    }
  }

  lemma AnsweredStaysConfident(s: State, step: Step, id: FileId)
    requires Confident(s, id) && Enabled(s, step) && step.Answer? && !Discourages(s, step, id)
    ensures Confident(Apply(s, step), id)
  {
    var a := s.agents[step.p];
    var st := Awaiting(a).value;
    var w := Committed(Taken(s, Issue(step.p, st)), st);
    assert forall p <- w.agents :: WritesFor(w, p, id) ==> WritesFor(s, p, id);
    assert Confident(w, id);
    assert WritesFor(s, step.p, id) || !a.Writer? || a.id != id;
    MovedStaysConfident(w, step.p, OnAnswer(a, AffectsAll(s.rows, st), step.t), id);
  }

  lemma CallerStaysConfident(s: State, step: Step, id: FileId)
    requires Confident(s, id) && Enabled(s, step) && Caller(step) && !Discourages(s, step, id)
    ensures Confident(Apply(s, step), id)
  {
    var e := Effect(s, step);
    EffectFrame(s, step);
    assert forall p <- e.agents :: WritesFor(e, p, id) ==> WritesFor(s, p, id);
    assert Confident(e, id);
    if step.p in s.agents { assert WritesFor(s, step.p, id) || !s.agents[step.p].Writer? || s.agents[step.p].id != id; }
    MovedStaysConfident(e, step.p, NextAgent(s, step), id);
  }

  lemma StepStaysConfident(s: State, step: Step, id: FileId)
    requires Confident(s, id) && Enabled(s, step) && !Discourages(s, step, id)
    ensures Confident(Apply(s, step), id)
  {
    if step.Answer? {
      AnsweredStaysConfident(s, step, id);
    } else if Caller(step) {
      CallerStaysConfident(s, step, id);
    } else {
      var s' := Apply(s, step);
      assert forall p <- s'.agents :: WritesFor(s', p, id) ==> WritesFor(s, p, id);
    }
  }

  lemma {:induction false} RunStaysConfident(s: State, steps: seq<Step>, id: FileId)
    requires Confident(s, id) && Admissible(s, steps) && !Discouraged(s, steps, id)
    ensures Confident(Run(s, steps), id)
    decreases |steps|
  {
    if |steps| > 0 {
      StepStaysConfident(s, steps[0], id);
      RunStaysConfident(Apply(s, steps[0]), steps[1..], id);
    }
  }

  /**
   In every run a writer sends a claim against its own upload only after it was told that its write had
   failed or that its activation had missed the row, or after that reply was lost.
   */
  lemma WritersTakeBackOnlyAfterFailure(s0: State, steps: seq<Step>, st: Statement)
    requires Init(s0) && Admissible(s0, steps) && st in Run(s0, steps).issued && TakesBack(st)
    ensures Discouraged(s0, steps, st.id)
  {
    if !Discouraged(s0, steps, st.id) { RunStaysConfident(s0, steps, st.id); }
  }

  // --- When a process may stop ---------------------------------------------------------------------------------

  /** Steps in which a process moves on, alone or with the answer to its statement. */
  predicate Moves(step: Step) {
    step.Answer? || Caller(step)
  }

  function NextOf(s: State, step: Step): Agent
    requires Enabled(s, step) && Moves(step)
  {
    if step.Answer? then OnAnswer(s.agents[step.p], AffectsAll(s.rows, Awaiting(s.agents[step.p]).value), step.t)
    else NextAgent(s, step)
  }

  lemma MovedAgents(s: State, p: Pid, a: Agent)
    ensures Moved(s, p, a).agents == s.agents[p := a]
  {
  }

  lemma AgentsAfterAnswer(s: State, step: Step)
    requires Enabled(s, step) && step.Answer?
    ensures Apply(s, step).agents == s.agents[step.p := NextOf(s, step)]
  {
    var st := Awaiting(s.agents[step.p]).value;
    MovedAgents(Committed(Taken(s, Issue(step.p, st)), st), step.p, NextOf(s, step));
  }

  lemma AgentsAfterCaller(s: State, step: Step)
    requires Enabled(s, step) && Caller(step)
    ensures Apply(s, step).agents == s.agents[step.p := NextOf(s, step)]
  {
    EffectFrame(s, step);
    MovedAgents(Effect(s, step), step.p, NextAgent(s, step));
  }

  lemma AgentsAfter(s: State, step: Step)
    requires Enabled(s, step)
    ensures Apply(s, step).agents == if Moves(step) then s.agents[step.p := NextOf(s, step)] else s.agents
  {
    if step.Answer? {
      AgentsAfterAnswer(s, step);
    } else if Caller(step) {
      AgentsAfterCaller(s, step);
    }
  }

  /** The row still carries exactly the markers that were read. */
  predicate Unmoved(s: State, id: FileId, seen: Markers) {
    id in s.rows && Markers(s.rows[id].deletedAt, s.rows[id].uploadPendingAt, s.rows[id].deletionPendingAt) == seen
  }

  /** Its process may end with this step: its work is done, or the row or the reply was lost to it. */
  predicate MayStop(s: State, step: Step, a: Agent) {
    match a
    case Writer(id, _, _, Saving) => step.Lost? || id in s.rows
    case Writer(_, _, kind, Writing) => kind.Managed? && step.Write? && step.ok
    case Writer(id, marker, _, Activating) => step.Answer? && Unmoved(s, id, Markers(None, Some(marker), None))
    case Writer(_, _, _, Confirming) => step.Confirm? && step.active
    case Writer(_, _, _, Cleaning(_)) => false
    case Writer(_, _, _, Inspecting(_)) =>
      step.Inspect? && (step.seen == None || step.seen == Some(Markers(None, None, None)))
    case Writer(id, _, _, Settling(attempt, seen, _)) =>
      step.Lost? || (step.Answer? && attempt + 1 == 3 && !Unmoved(s, id, seen))
    case Claimer(st, _, _) => step.Lost? || !AffectsAll(s.rows, st)
    case Deleter(_, _, _, Removing) => false
    case Deleter(ids, upload, claim, SoftDeleting(_)) =>
      step.Answer? && upload.Some? && forall id <- ids :: Unmoved(s, id, Markers(None, upload, Some(claim)))
    case Completer(_, _, _, Claiming(st)) => step.Lost? || !AffectsAll(s.rows, st)
    case Completer(_, _, _, Finalizing(_)) => step.Answer? || (step.Lost? && step.confirmedReady)
    case Completer(_, _, _, Retrying(_)) => true
    case Completer(_, _, _, _) => false
    case _ => true
  }

  /** Attempts to settle are counted from zero and stop at three. */
  predicate AttemptsOk(s: State) {
    forall p <- s.agents :: AttemptOk(s.agents[p])
  }

  predicate AttemptOk(a: Agent) {
    a.Writer? ==> (a.wpc.Inspecting? || a.wpc.Settling? ==> a.wpc.attempt < MAX_SETTLE_ATTEMPTS)
  }

  lemma NextKeepsAttempts(s: State, step: Step)
    requires Enabled(s, step) && Moves(step) && (step.p in s.agents ==> AttemptOk(s.agents[step.p]))
    ensures AttemptOk(NextOf(s, step))
  {
  }

  lemma StepKeepsAttempts(s: State, step: Step)
    requires AttemptsOk(s) && Enabled(s, step)
    ensures AttemptsOk(Apply(s, step))
  {
    AgentsAfter(s, step);
    if Moves(step) { NextKeepsAttempts(s, step); }
  }

  lemma {:induction false} RunKeepsAttempts(s: State, steps: seq<Step>)
    requires AttemptsOk(s) && Admissible(s, steps)
    ensures AttemptsOk(Run(s, steps))
    decreases |steps|
  {
    if |steps| > 0 {
      StepKeepsAttempts(s, steps[0]);
      RunKeepsAttempts(Apply(s, steps[0]), steps[1..]);
    }
  }

  /** No process abandons an upload: in every run it stops for one of these reasons only, whatever the others do. */
  lemma ProcessesStopOnlyIf(s0: State, steps: seq<Step>, step: Step, p: Pid)
    requires Init(s0) && Admissible(s0, steps) && Enabled(Run(s0, steps), step)
    requires var s, s' := Run(s0, steps), Apply(Run(s0, steps), step);
             p in s.agents && s.agents[p] != Idle && p in s'.agents && s'.agents[p] == Idle
    ensures MayStop(Run(s0, steps), step, Run(s0, steps).agents[p])
  {
    RunKeepsAttempts(s0, steps);
    StopsOnlyIf(Run(s0, steps), step, p);
  }

  lemma StopsOnlyIf(s: State, step: Step, p: Pid)
    requires AttemptsOk(s) && Enabled(s, step)
    requires p in s.agents && s.agents[p] != Idle && p in Apply(s, step).agents && Apply(s, step).agents[p] == Idle
    ensures MayStop(s, step, s.agents[p])
  {
    AgentsAfter(s, step);
    assert AttemptOk(s.agents[p]);
    if step.Answer? { AnsweredStopsOnlyIf(s, s.agents[p], step); } else { CallerStopsOnlyIf(s, step); }
  }

  lemma CallerStopsOnlyIf(s: State, step: Step)
    requires Enabled(s, step) && Caller(step) && step.p in s.agents && s.agents[step.p] != Idle
    requires NextAgent(s, step) == Idle
    ensures MayStop(s, step, s.agents[step.p])
  {
  }

  lemma ExactHit(s: State, st: Statement, id: FileId, seen: Markers)
    requires !st.Insert? && id in Targets(st) && Where(st) == BySeen(seen)
    ensures Hits(s.rows, st, id) <==> Unmoved(s, id, seen)
  {
    if id in s.rows { AnyStatus(s.rows[id].status); }
  }

  lemma AnsweredStopsOnlyIf(s: State, a: Agent, step: Step)
    requires AttemptOk(a) && step.Answer? && Awaiting(a).Some?
    requires OnAnswer(a, AffectsAll(s.rows, Awaiting(a).value), step.t) == Idle && a != Idle
    ensures MayStop(s, step, a)
  {
    var st := Awaiting(a).value;
    match a
    case Writer(id, marker, _, Activating) => ExactHit(s, st, id, Markers(None, Some(marker), None));
    case Writer(id, _, _, Settling(_, seen, _)) => ExactHit(s, st, id, seen);
    case Deleter(ids, upload, claim, SoftDeleting(_)) =>
      forall id | id in ids { ExactHit(s, st, id, Markers(None, upload, Some(claim))); }
    case _ =>
  }

  // --- Promotions -----------------------------------------------------------------------------------------------

  /** The process starts to promote the staged object. */
  predicate Promotes(s: State, step: Step, p: Pid)
    requires Enabled(s, step)
  {
    Moves(step) && step.p == p && IsPromoting(NextOf(s, step)) && !(p in s.agents && IsPromoting(s.agents[p]))
  }

  predicate IsPromoting(a: Agent) {
    a.Completer? && a.cpc.Promoting?
  }

  function Promotions(s: State, steps: seq<Step>, p: Pid): nat
    requires Admissible(s, steps)
    decreases |steps|
  {
    if |steps| == 0 then 0
    else (if Promotes(s, steps[0], p) then 1 else 0) + Promotions(Apply(s, steps[0]), steps[1..], p)
  }

  /** It has not come so far yet. */
  predicate BeforePromotion(s: State, p: Pid) {
    p !in s.agents || Early(s.agents[p])
  }

  predicate Early(a: Agent) {
    a.Completer? && (a.cpc.Claiming? || a.cpc.Heading?)
  }

  lemma NextIsLater(s: State, step: Step)
    requires Enabled(s, step) && Moves(step) && step.p in s.agents && !BeforePromotion(s, step.p)
    ensures !Early(NextOf(s, step))
  {
  }

  lemma PromotesIfMissing(s: State, step: Step, p: Pid)
    requires Enabled(s, step) && Promotes(s, step, p)
    ensures BeforePromotion(s, p) && step.Head? && step.result == Missing && !Early(NextOf(s, step))
  {
  }

  lemma StaysLate(s: State, step: Step, p: Pid)
    requires Enabled(s, step) && (Promotes(s, step, p) || (p in s.agents && !BeforePromotion(s, p)))
    ensures !BeforePromotion(Apply(s, step), p)
  {
    AgentsAfter(s, step);
    if Promotes(s, step, p) {
      PromotesIfMissing(s, step, p);
    } else if Moves(step) && step.p == p {
      NextIsLater(s, step);
    }
  }

  lemma {:induction false} PromotionsAreFew(s: State, steps: seq<Step>, p: Pid)
    requires Admissible(s, steps)
    ensures Promotions(s, steps, p) <= if BeforePromotion(s, p) then 1 else 0
    decreases |steps|
  {
    if |steps| > 0 {
      if Promotes(s, steps[0], p) { PromotesIfMissing(s, steps[0], p); }
      if Promotes(s, steps[0], p) || (p in s.agents && !BeforePromotion(s, p)) { StaysLate(s, steps[0], p); }
      PromotionsAreFew(Apply(s, steps[0]), steps[1..], p);
    }
  }

  /** A completer promotes at most once, and only if it was told at first that the object is missing. */
  lemma CompletersPromoteOnce(s0: State, steps: seq<Step>, step: Step, p: Pid)
    requires Init(s0) && Admissible(s0, steps) && Enabled(Run(s0, steps), step)
    ensures Promotions(s0, steps, p) <= 1
    ensures Promotes(Run(s0, steps), step, p) ==> step.Head? && step.result == Missing
  {
    PromotionsAreFew(s0, steps, p);
    if Promotes(Run(s0, steps), step, p) { PromotesIfMissing(Run(s0, steps), step, p); }
  }

  // --- Takeovers ------------------------------------------------------------------------------------------------

  /** A takeover waits for the marker it replaces to expire, moves it on by a whole lease and keeps a known source. */
  predicate Patient(st: Statement) {
    st.CompletionReclaim? ==>
      && (st.upload.Some? ==> st.upload.value + UPLOAD_ACTIVATION_LEASE_MS <= st.marker)
      && (st.oldEtag.Some? ==> st.etag == st.oldEtag)
  }

  /** Statements in flight and statements waited for are patient. */
  predicate AllPatient(s: State) {
    && (forall x <- s.pending :: Patient(x.st))
    && (forall p <- s.agents :: Awaiting(s.agents[p]).Some? ==> Patient(Awaiting(s.agents[p]).value))
  }

  lemma NextIsPatient(s: State, step: Step)
    requires Enabled(s, step) && Caller(step)
    ensures Awaiting(NextAgent(s, step)).Some? ==> Patient(Awaiting(NextAgent(s, step)).value)
  {
  }

  lemma MovedIsPatient(s: State, p: Pid, a: Agent)
    requires AllPatient(s) && (Awaiting(a).Some? ==> Patient(Awaiting(a).value))
    ensures AllPatient(Moved(s, p, a))
  {
  }

  lemma AnsweredIsPatient(s: State, step: Step)
    requires AllPatient(s) && Enabled(s, step) && step.Answer?
    ensures AllPatient(Apply(s, step))
  {
    var a := s.agents[step.p];
    var st := Awaiting(a).value;
    var next := OnAnswer(a, AffectsAll(s.rows, st), step.t);
    assert Awaiting(next).Some? ==> !Awaiting(next).value.CompletionReclaim?;
    MovedIsPatient(Committed(Taken(s, Issue(step.p, st)), st), step.p, next);
  }

  lemma StepKeepsPatience(s: State, step: Step)
    requires AllPatient(s) && Enabled(s, step)
    ensures AllPatient(Apply(s, step))
  {
    if step.Answer? {
      AnsweredIsPatient(s, step);
    } else if Caller(step) {
      EffectFrame(s, step);
      NextIsPatient(s, step);
      MovedIsPatient(Effect(s, step), step.p, NextAgent(s, step));
    }
  }

  lemma {:induction false} RunKeepsPatience(s: State, steps: seq<Step>)
    requires AllPatient(s) && Admissible(s, steps)
    ensures AllPatient(Run(s, steps))
    decreases |steps|
  {
    if |steps| > 0 {
      StepKeepsPatience(s, steps[0]);
      RunKeepsPatience(Apply(s, steps[0]), steps[1..]);
    }
  }

  /** The marker moved on by a lease at least, and the source is the same if there was one. */
  predicate TakenOverLate(before: Row, after: Row) {
    && (before.uploadPendingAt.Some? ==>
          after.uploadPendingAt.Some?
          && before.uploadPendingAt.value + UPLOAD_ACTIVATION_LEASE_MS <= after.uploadPendingAt.value)
    && (before.etag.Some? ==> after.etag == before.etag)
  }

  lemma PatientCommit(rows: Table, st: Statement, id: FileId)
    requires st.CompletionReclaim? && Patient(st) && id in rows
    ensures id in Commit(rows, st)
    ensures Commit(rows, st)[id] == rows[id] || TakenOverLate(rows[id], Commit(rows, st)[id])
  {
    CommitOne(rows, st, id);
  }

  /** In every run a completion is taken over only after its lease: the marker moves on by 15 minutes or more. */
  lemma TakeoversWaitForExpiry(s0: State, steps: seq<Step>, step: Step, id: FileId)
    requires Init(s0) && Admissible(s0, steps) && Enabled(Run(s0, steps), step) && id in Run(s0, steps).rows
    requires var x := CommittedBy(Run(s0, steps), step); x.Some? && x.value.st.CompletionReclaim?
    ensures var s, s' := Run(s0, steps), Apply(Run(s0, steps), step);
            id in s'.rows && (s'.rows[id] == s.rows[id] || TakenOverLate(s.rows[id], s'.rows[id]))
  {
    var s := Run(s0, steps);
    RunKeepsPatience(s0, steps);
    RowsAfterStep(s, step);
    PatientCommit(s.rows, CommittedBy(s, step).value.st, id);
  }

  // --- What the environment may do ----------------------------------------------------------------------------

  /** Some run reaches a state with this table. */
  ghost predicate ReachableTable(rows: Table) {
    exists s :: Reachable(s) && s.rows == rows
  }

  lemma StepIsReachable(s: State, step: Step)
    requires Reachable(s) && Enabled(s, step)
    ensures Reachable(Apply(s, step))
  {
    var s0 :| Init(s0) && Reaches(s0, s);
    ReachesStep(s0, s, step);
  }

  /** Every statement in flight may still commit, whatever has become of its author. */
  lemma StatementsMayCommitLate(s: State, x: Issue)
    requires Reachable(s) && x in s.pending
    ensures ReachableTable(Commit(s.rows, x.st))
  {
    var step := LateCommit(x.author, x.st);
    StepIsReachable(s, step);
    RowsAfterStep(s, step);
  }

  /** A promotion that was started may store the object at any later moment, also after its author gave up. */
  lemma PromotionsMayLandLate(s: State, id: FileId, source: Option<Etag>) returns (s': State)
    requires Reachable(s) && (id, source) in s.promotions
    ensures Reachable(s') && id in s'.objects && s'.rows == s.rows && s'.agents == s.agents
  {
    StepIsReachable(s, PromotionLands(id, source));
    s' := Apply(s, PromotionLands(id, source));
  }

  /** And every author may lose its reply instead, while the statement stays in flight. */
  lemma RepliesMayBeLost(s: State, p: Pid) returns (s': State)
    requires Reachable(s) && p in s.agents && Awaiting(s.agents[p]).Some?
    ensures Reachable(s') && s'.rows == s.rows && s.pending <= s'.pending
    ensures p in s'.agents && Awaiting(s'.agents[p]) != Awaiting(s.agents[p])
  {
    var step := Lost(p, true, 0);
    StepIsReachable(s, step);
    s' := Apply(s, step);
    MovedOnly(s, p, OnLost(s.agents[p], true, 0));
    LostMovesOn(s.agents[p]);
  }

  lemma MovedOnly(s: State, p: Pid, a: Agent)
    ensures var s' := Moved(s, p, a);
            s'.rows == s.rows && s.pending <= s'.pending && p in s'.agents && s'.agents[p] == a
  {
  }

  lemma LostMovesOn(a: Agent)
    requires Awaiting(a).Some?
    ensures Awaiting(OnLost(a, true, 0)) != Awaiting(a)
  {
  }
}
