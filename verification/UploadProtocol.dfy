/**
 Every process that touches an uploaded file, as one state machine.

 A process is an `Agent` whose program counter stands at one `await`. A database statement is
 recorded in `issued` when it is sent, and is `pending` until it commits, once. It may do so at any
 moment, also after its author saw an error, died or finished. A process dies by never moving again.
 Row readings that only feed a compare-and-swap are arbitrary, which covers stale replicas. Clock
 readings are arbitrary too, so clocks of different processes need not agree.
 */
module UploadProtocol {
  import opened Wrappers
  import opened UploadRows

  type Pid = nat

  /** `Plain` and `Temporary` uploads write their own object; a `Managed` one only signs a target. */
  datatype UploadKind = Plain | Temporary | Managed

  datatype WriterPc =
    | Saving
    | Writing
    | Activating
    | Confirming
    | Cleaning(claim: Time)
    | Inspecting(attempt: nat)
    | Settling(attempt: nat, seen: Markers, claim: Time)

  datatype DeleterPc = Removing | SoftDeleting(at: Time) | Clearing | Releasing(retryAt: Time)

  datatype CompleterPc =
    | Claiming(st: Statement)
    | Heading
    | Promoting
    | HeadingAgain
    | Finalizing(etag: Option<Etag>)
    | Retrying(past: Time)

  datatype Agent =
    | Idle
    | Writer(id: FileId, marker: Time, kind: UploadKind, wpc: WriterPc)
    | Claimer(st: Statement, upload: Option<Time>, claim: Time)
    | Retirer(st: Statement)
    | Deleter(ids: set<FileId>, upload: Option<Time>, claim: Time, dpc: DeleterPc)
    | Completer(id: FileId, marker: Time, source: Option<Etag>, cpc: CompleterPc)

  /** A completion claim holds the row this long past the clock reading it was made at. */
  const UPLOAD_ACTIVATION_LEASE_MS: Time := 15 * 60 * 1000

  /** One sending of a statement. */
  datatype Issue = Issue(author: Pid, st: Statement)

  /** The clock reading behind a marker a completer sends: for its claim or reclaim, or for its retry mark. */
  datatype Reading =
    | ClaimReading(author: Pid, id: FileId, now: Time)
    | RetryReading(author: Pid, id: FileId, now: Time)

  /**
   `issued`, `readings`, `settled`, `raced` and `promotions` are history. `settled` holds the ids whose storage write
   has returned. `raced` holds the ids whose upload marker a forced claim cleared before that.
   */
  datatype State = State(
    s3: bool,
    rows: Table,
    objects: set<FileId>,
    agents: map<Pid, Agent>,
    issued: set<Statement>,
    pending: multiset<Issue>,
    readings: set<Reading>,
    used: set<FileId>,
    settled: set<FileId>,
    raced: set<FileId>,
    promotions: set<(FileId, Option<Etag>)>)

  function InitialRow(marker: Time, kind: UploadKind): Row {
    Row(kind.Managed?, None, Some(marker), None, if kind.Plain? then Ready else Pending, None)
  }

  const MAX_SETTLE_ATTEMPTS: nat := 3

  /** The statement an agent has sent and is waiting for. */
  function Awaiting(a: Agent): Option<Statement> {
    match a
    case Writer(id, marker, kind, Saving) => Some(Insert(id, InitialRow(marker, kind)))
    case Writer(id, marker, kind, Activating) => Some(Activate(id, marker, kind.Temporary?))
    case Writer(id, marker, _, Cleaning(claim)) => Some(CleanupClaim(id, marker, claim))
    case Writer(id, _, _, Settling(_, seen, claim)) => Some(SettleClaim(id, seen, claim))
    case Claimer(st, _, _) => Some(st)
    case Retirer(st) => Some(st)
    case Deleter(ids, upload, claim, SoftDeleting(at)) => Some(SoftDelete(ids, upload, claim, at))
    case Deleter(ids, _, claim, Clearing) => Some(ClearClaim(ids, claim))
    case Deleter(ids, upload, claim, Releasing(retryAt)) => Some(ReleaseClaim(ids, upload, claim, retryAt))
    case Completer(_, _, _, Claiming(st)) => Some(st)
    case Completer(id, marker, _, Finalizing(etag)) => Some(CompletionFinalize(id, marker, etag))
    case Completer(id, marker, _, Retrying(past)) => Some(CompletionRetryable(id, marker, past))
    case _ => None
  }

  /** The author sees the affected count; `all` says it equalled the number of targeted rows. */
  function OnAnswer(a: Agent, all: bool, t: Time): Agent {
    match a
    case Writer(_, _, _, Saving) => if all then a.(wpc := Writing) else Idle
    case Writer(_, _, _, Activating) => if all then Idle else a.(wpc := Confirming)
    case Writer(id, _, _, Cleaning(claim)) =>
      if all then Deleter({id}, None, claim, Removing) else a.(wpc := Inspecting(0))
    case Writer(id, _, _, Settling(attempt, _, claim)) =>
      if all then Deleter({id}, None, claim, Removing)
      else if attempt + 1 < MAX_SETTLE_ATTEMPTS then a.(wpc := Inspecting(attempt + 1))
      else Idle
    case Claimer(st, upload, claim) => if all then Deleter(Targets(st), upload, claim, Removing) else Idle
    case Deleter(_, upload, _, SoftDeleting(_)) =>
      if !all then a.(dpc := Releasing(t)) else if upload.Some? then Idle else a.(dpc := Clearing)
    case Completer(_, _, _, Claiming(_)) => if all then a.(cpc := Heading) else Idle
    case _ => Idle
  }

  /** `markCompletionRetryable` at clock time `now`: the marker becomes one that has just expired. */
  function Retry(a: Agent, now: Time): Agent
    requires a.Completer?
  {
    a.(cpc := Retrying(now - 1))
  }

  /** The author sees an error instead; the statement may have committed, or may commit later. */
  function OnLost(a: Agent, confirmedReady: bool, t: Time): Agent {
    match a
    case Writer(_, _, _, Activating) => a.(wpc := Confirming)
    case Writer(_, _, _, Cleaning(_)) => a.(wpc := Inspecting(0))
    case Deleter(_, _, _, SoftDeleting(_)) => a.(dpc := Releasing(t))
    case Completer(_, _, _, Finalizing(_)) => if confirmedReady then Idle else Retry(a, t)
    case _ => Idle
  }

  datatype HeadResult = Missing | Rejected | Verified(etag: Option<Etag>)

  datatype Step =
    | StartUpload(p: Pid, id: FileId, marker: Time, kind: UploadKind)
    | StartClaim(p: Pid, st: Statement, upload: Option<Time>, claim: Time)
    | StartRetire(p: Pid, st: Statement)
    | StartCompletion(p: Pid, st: Statement, staged: Option<Etag>, now: Time)
    | Answer(p: Pid, t: Time)
    | Lost(p: Pid, confirmedReady: bool, t: Time)
    | LateCommit(author: Pid, st: Statement)
    | Write(p: Pid, stored: bool, ok: bool, t: Time)
    | Confirm(p: Pid, active: bool, t: Time)
    | Inspect(p: Pid, seen: Option<Markers>, t: Time)
    | Remove(p: Pid, removed: set<FileId>, ok: bool, t: Time)
    | Head(p: Pid, result: HeadResult, t: Time)
    | Promote(p: Pid, stored: bool, ok: bool, t: Time)
    | PromotionLands(id: FileId, source: Option<Etag>)

  // --- Which steps the code can take -----------------------------------------

  /** Claim statements that lead to `deleteAndFinalizePendingRows`, with the upload marker kept in memory. */
  predicate ClaimPlausible(s: State, st: Statement, upload: Option<Time>, claim: Time) {
    match st
    case RetryClaim(_, seen, c) =>
      (seen.deletionPendingAt.Some? || seen.uploadPendingAt.Some?) && upload == seen.uploadPendingAt && claim == c
    case ReferenceClaim(_, c) => upload.None? && claim == c
    case TemporaryClaim(_, c) => upload.None? && claim == c
    case AbortClaim(_, status, _, c) => (status.Pending? || status.Completing?) && upload.None? && claim == c
    case DeleteByIdClaim(_, _, _, c) => upload.None? && claim == c
    case ExpiredDirectClaim(id, status, seen, c) =>
      && id in s.rows && s.rows[id].managed
      && (status.Pending? || status.Completing?) && seen.uploadPendingAt.Some? && upload.None? && claim == c
    case _ => false
  }

  /**
   A completion starts from a staging ETag, a clock reading and the row as read; S3 staging objects
   always have an ETag. A completing row is taken over only when the marker read has expired.
   */
  predicate CompletionPlausible(s: State, st: Statement, staged: Option<Etag>, now: Time) {
    match st
    case CompletionClaim(id, _, marker, etag) =>
      && id in s.rows && s.rows[id].managed && marker == now + UPLOAD_ACTIVATION_LEASE_MS
      && (s.s3 ==> staged.Some?) && etag == staged
    case CompletionReclaim(id, upload, oldEtag, marker, etag) =>
      && id in s.rows && s.rows[id].managed && marker == now + UPLOAD_ACTIVATION_LEASE_MS
      && (upload.Some? ==> upload.value <= now)
      && (s.s3 ==> staged.Some?)
      && (oldEtag.Some? && staged.Some? ==> oldEtag == staged)
      && etag == (if oldEtag.Some? then oldEtag else staged)
    case _ => false
  }

  predicate At(s: State, p: Pid) {
    p in s.agents
  }

  predicate Enabled(s: State, step: Step) {
    match step
    case StartUpload(p, id, _, _) => p !in s.agents && id !in s.used
    case StartClaim(p, st, upload, claim) => p !in s.agents && ClaimPlausible(s, st, upload, claim)
    case StartRetire(p, st) => p !in s.agents && st.RetireTombstone? && st.seen.uploadPendingAt.Some?
    case StartCompletion(p, st, staged, now) => p !in s.agents && CompletionPlausible(s, st, staged, now)
    case Answer(p, _) => At(s, p) && Awaiting(s.agents[p]).Some? && Issue(p, Awaiting(s.agents[p]).value) in s.pending
    case Lost(p, _, _) => At(s, p) && Awaiting(s.agents[p]).Some?
    case LateCommit(author, st) => Issue(author, st) in s.pending
    case Write(p, stored, ok, _) => At(s, p) && s.agents[p].Writer? && s.agents[p].wpc.Writing? && (ok ==> stored)
    case Confirm(p, _, _) => At(s, p) && s.agents[p].Writer? && s.agents[p].wpc.Confirming?
    case Inspect(p, _, _) => At(s, p) && s.agents[p].Writer? && s.agents[p].wpc.Inspecting?
    case Remove(p, removed, ok, _) =>
      && At(s, p) && s.agents[p].Deleter? && s.agents[p].dpc.Removing?
      && removed <= s.agents[p].ids && (ok ==> removed == s.agents[p].ids)
    case Head(p, result, _) =>
      && At(s, p) && s.agents[p].Completer? && (s.agents[p].cpc.Heading? || s.agents[p].cpc.HeadingAgain?)
      && (result.Verified? ==> s.agents[p].id in s.objects)
    case Promote(p, stored, ok, _) =>
      At(s, p) && s.agents[p].Completer? && s.agents[p].cpc.Promoting? && (ok ==> stored)
    case PromotionLands(id, source) => (id, source) in s.promotions
  }

  // --- What each step does ---------------------------------------------------

  function ReadingOf(p: Pid, a: Agent): set<Reading> {
    match a
    case Completer(id, marker, _, Claiming(_)) => {ClaimReading(p, id, marker - UPLOAD_ACTIVATION_LEASE_MS)}
    case Completer(id, _, _, Retrying(past)) => {RetryReading(p, id, past + 1)}
    case _ => {}
  }

  /** Move one agent, sending the statement it now waits for. */
  function Moved(s: State, p: Pid, a: Agent): State {
    s.(agents := s.agents[p := a],
       issued := s.issued + (if Awaiting(a).Some? then {Awaiting(a).value} else {}),
       pending := s.pending + (if Awaiting(a).Some? then multiset{Issue(p, Awaiting(a).value)} else multiset{}),
       readings := s.readings + ReadingOf(p, a))
  }

  /** Statements of operator or owner commands that clear an upload marker they did not set. */
  predicate Forces(st: Statement) {
    st.AbortClaim? || st.DeleteByIdClaim? || st.RetireTombstone? || st.ExpiredDirectClaim?
  }

  /** A pending statement is about to commit and will not commit again. */
  function Taken(s: State, x: Issue): State {
    s.(pending := s.pending - multiset{x})
  }

  function Committed(s: State, st: Statement): State {
    s.(rows := Commit(s.rows, st),
       raced := s.raced + (set id | id in Targets(st) && Forces(st) && Hits(s.rows, st, id) && id !in s.settled))
  }

  function AfterHead(a: Agent, result: HeadResult, t: Time): Agent
    requires a.Completer? && (a.cpc.Heading? || a.cpc.HeadingAgain?)
  {
    match result
    case Missing => if a.cpc.Heading? then a.(cpc := Promoting) else Retry(a, t)
    case Rejected => Retry(a, t)
    case Verified(etag) => a.(cpc := Finalizing(etag))
  }

  function CompletionMarker(st: Statement): Time
    requires st.CompletionClaim? || st.CompletionReclaim?
  {
    st.marker
  }

  /** Steps in which one process moves on without a statement committing. */
  predicate Caller(step: Step) {
    !step.Answer? && !step.LateCommit? && !step.PromotionLands?
  }

  /** What the process becomes. */
  function NextAgent(s: State, step: Step): Agent
    requires Enabled(s, step) && Caller(step)
  {
    match step
    case StartUpload(_, id, marker, kind) => Writer(id, marker, kind, Saving)
    case StartClaim(_, st, upload, claim) => Claimer(st, upload, claim)
    case StartRetire(_, st) => Retirer(st)
    case StartCompletion(_, st, staged, _) => Completer(st.id, CompletionMarker(st), staged, Claiming(st))
    case Lost(p, confirmedReady, t) => OnLost(s.agents[p], confirmedReady, t)
    case Write(p, _, ok, t) => AfterWrite(s.agents[p], ok, t)
    case Confirm(p, active, t) => if active then Idle else s.agents[p].(wpc := Cleaning(t))
    case Inspect(p, seen, t) =>
      var a := s.agents[p];
      if seen.None? || seen.value == Markers(None, None, None) then Idle
      else a.(wpc := Settling(a.wpc.attempt, seen.value, t))
    case Remove(p, _, ok, t) => s.agents[p].(dpc := if ok then SoftDeleting(t) else Releasing(t))
    case Head(p, result, t) => AfterHead(s.agents[p], result, t)
    case Promote(p, _, ok, t) => if ok then s.agents[p].(cpc := HeadingAgain) else Retry(s.agents[p], t)
  }

  function AfterWrite(a: Agent, ok: bool, t: Time): Agent
    requires a.Writer?
  {
    if !ok then a.(wpc := Cleaning(t)) else if a.kind.Managed? then Idle else a.(wpc := Activating)
  }

  /** What happens in storage meanwhile. */
  function Effect(s: State, step: Step): State
    requires Enabled(s, step) && Caller(step)
  {
    match step
    case StartUpload(_, id, _, _) => s.(used := s.used + {id})
    case Write(p, stored, _, _) =>
      var a := s.agents[p];
      s.(objects := s.objects + (if stored && !a.kind.Managed? then {a.id} else {}), settled := s.settled + {a.id})
    case Remove(_, removed, _, _) => s.(objects := s.objects - removed)
    case Head(p, result, t) =>
      var a := s.agents[p];
      s.(promotions := s.promotions + (if AfterHead(a, result, t).cpc.Promoting? then {(a.id, a.source)} else {}))
    case Promote(p, stored, _, _) => s.(objects := s.objects + (if stored then {s.agents[p].id} else {}))
    case _ => s
  }

  function Apply(s: State, step: Step): State
    requires Enabled(s, step)
  {
    match step
    case Answer(p, t) =>
      var st := Awaiting(s.agents[p]).value;
      Moved(Committed(Taken(s, Issue(p, st)), st), p, OnAnswer(s.agents[p], AffectsAll(s.rows, st), t))
    case LateCommit(author, st) => Committed(Taken(s, Issue(author, st)), st)
    case PromotionLands(id, _) => s.(objects := s.objects + {id})
    case _ => Moved(Effect(s, step), step.p, NextAgent(s, step))
  }

  /** Storage effects leave the table and the processes alone. */
  lemma EffectFrame(s: State, step: Step)
    requires Enabled(s, step) && Caller(step)
    ensures var e := Effect(s, step);
            && e.rows == s.rows && e.agents == s.agents && e.issued == s.issued && e.pending == s.pending
            && e.readings == s.readings && e.s3 == s.s3 && e.raced == s.raced
            && s.promotions <= e.promotions && (!step.Head? ==> e.promotions == s.promotions)
            && (!step.Write? ==> e.settled == s.settled)
  {
  }

  /** The statement a step commits, if any. */
  function CommittedBy(s: State, step: Step): Option<Issue>
    requires Enabled(s, step)
  {
    match step
    case Answer(p, _) => Some(Issue(p, Awaiting(s.agents[p]).value))
    case LateCommit(author, st) => Some(Issue(author, st))
    case _ => None
  }

  /** Only a commit changes the table. */
  lemma RowsAfterStep(s: State, step: Step)
    requires Enabled(s, step)
    ensures CommittedBy(s, step).None? ==> Apply(s, step).rows == s.rows
    ensures CommittedBy(s, step).Some? ==> CommittedBy(s, step).value in s.pending
    ensures CommittedBy(s, step).Some? ==> Apply(s, step).rows == Commit(s.rows, CommittedBy(s, step).value.st)
  {
    match step
    case Answer(p, t) =>
      var x := Issue(p, Awaiting(s.agents[p]).value);
      assert Committed(Taken(s, x), x.st).rows == Commit(s.rows, x.st);
    case LateCommit(author, st) => assert Committed(Taken(s, Issue(author, st)), st).rows == Commit(s.rows, st);
    case PromotionLands(_, _) =>
    case _ => EffectFrame(s, step);
  }

  // --- Runs ------------------------------------------------------------------

  predicate Init(s: State) {
    && s.rows == map[] && s.objects == {} && s.agents == map[] && s.issued == {} && s.pending == multiset{}
        && s.readings == {}
    && s.used == {} && s.settled == {} && s.raced == {} && s.promotions == {}
  }

  predicate Admissible(s: State, steps: seq<Step>)
    decreases |steps|
  {
    |steps| == 0 || (Enabled(s, steps[0]) && Admissible(Apply(s, steps[0]), steps[1..]))
  }

  function Run(s: State, steps: seq<Step>): State
    requires Admissible(s, steps)
    decreases |steps|
  {
    if |steps| == 0 then s else Run(Apply(s, steps[0]), steps[1..])
  }

  lemma {:induction false} RunExtends(s: State, steps: seq<Step>, step: Step)
    requires Admissible(s, steps) && Enabled(Run(s, steps), step)
    ensures Admissible(s, steps + [step]) && Run(s, steps + [step]) == Apply(Run(s, steps), step)
    decreases |steps|
  {
    if |steps| == 0 {
      assert (steps + [step])[1..] == [];
    } else {
      RunExtends(Apply(s, steps[0]), steps[1..], step);
      assert (steps + [step])[1..] == steps[1..] + [step];
    }
  }

  ghost predicate Reaches(s: State, s': State) {
    exists steps :: Admissible(s, steps) && Run(s, steps) == s'
  }

  ghost predicate Reachable(s: State) {
    exists s0 :: Init(s0) && Reaches(s0, s)
  }

  lemma ReachesItself(s: State)
    ensures Reaches(s, s)
  {
    assert Admissible(s, []) && Run(s, []) == s;
  }

  lemma ReachesStep(o: State, s: State, step: Step)
    requires Reaches(o, s) && Enabled(s, step)
    ensures Reaches(o, Apply(s, step))
  {
    var steps :| Admissible(o, steps) && Run(o, steps) == s;
    RunExtends(o, steps, step);
  }
}
