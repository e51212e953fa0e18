/**
 The distributed job lock: every node's `runExclusive` over one lock table, statement by statement.

 A statement is issued, commits at most once at any later moment, and its reply may or may not reach
 the caller; a caller that saw an error leaves a statement behind that can still commit. Owner
 tokens are fresh, so a token is named by the call that drew it. Time is the database clock.
 */
module JobLock {
  import opened Wrappers
  import opened JobOptions

  type RunId = nat
  type RowId = nat
  type StatementId = nat
  type Time = int

  datatype Status = Running | Success | Fail

  /** `winners` lists every owner the row ever had, in order; `doneBy` is the statement that finished it. */
  datatype Row = Row(
    id: RowId, status: Status, owner: RunId, modifiedAt: Time, winners: seq<RunId>, doneBy: Option<StatementId>)

  datatype Change = Beat | ToSuccess | ToFail
  datatype Operation = Insert | Reclaim | Mutate(id: RowId, change: Change)
  datatype Statement = Statement(issuer: RunId, op: Operation)

  datatype Phase =
    | Inserting
    | Reclaiming
    | Working
    | Completing(last: StatementId)
    | Failing(last: StatementId)
    | Returned(last: StatementId)
    | Skipped
    | Thrown

  /** `acquiring` is the run's latest insert or reclaim, `lease` the row it won. */
  datatype Run = Run(key: Identity, timing: Timing, acquiring: StatementId, lease: Option<RowId>, phase: Phase)

  datatype State = State(
    rows: map<Identity, Row>,
    nextRow: RowId,
    clock: Time,
    runs: map<RunId, Run>,
    statements: map<StatementId, Statement>,
    replies: map<StatementId, Option<RowId>>)

  // --- Statements ---------------------------------------------------------------------------

  /** A FAIL row, or a RUNNING row whose lease has run out on the database clock. */
  predicate Reclaimable(row: Row, clock: Time, leaseMs: int) {
    row.status.Fail? || (row.status.Running? && row.modifiedAt < clock - leaseMs)
  }

  predicate Owns(row: Row, st: Statement)
    requires st.op.Mutate?
  {
    row.id == st.op.id && row.owner == st.issuer && row.status.Running?
  }

  function Changed(row: Row, change: Change, n: StatementId, clock: Time): Row {
    match change
    case Beat => row.(modifiedAt := clock)
    case ToSuccess => row.(status := Success, modifiedAt := clock, doneBy := Some(n))
    case ToFail => row.(status := Fail, modifiedAt := clock)
  }

  /** Committing a statement: the new rows and the row it reports, if it affected one. */
  function Execute(w: State, n: StatementId): (State, Option<RowId>)
    requires n in w.statements && w.statements[n].issuer in w.runs
  {
    var st := w.statements[n];
    var run := w.runs[st.issuer];
    match st.op
    case Insert =>
      if run.key in w.rows then (w, None)
      else
        var row := Row(w.nextRow, Running, st.issuer, w.clock, [st.issuer], None);
        (w.(rows := w.rows[run.key := row], nextRow := w.nextRow + 1), Some(w.nextRow))
    case Reclaim =>
      if run.key in w.rows && Reclaimable(w.rows[run.key], w.clock, run.timing.leaseMs) then
        var row := w.rows[run.key];
        var winners := row.winners + [st.issuer];
        var taken := row.(status := Running, owner := st.issuer, modifiedAt := w.clock, winners := winners);
        (w.(rows := w.rows[run.key := taken]), Some(row.id))
      else (w, None)
    case Mutate(id, change) =>
      if exists key <- w.rows :: Owns(w.rows[key], st) then
        (w.(rows := map key | key in w.rows ::
              if Owns(w.rows[key], st) then Changed(w.rows[key], change, n, w.clock) else w.rows[key]), Some(id))
      else (w, None)
  }

  // --- Steps ---------------------------------------------------------------------------------

  datatype Step =
    | Start(p: RunId, opts: Options, n: StatementId)
    | Commit(n: StatementId)
    | Receive(p: RunId, next: StatementId)
    | LoseReply(p: RunId, next: StatementId)
    | WorkReturns(p: RunId, next: StatementId)
    | WorkThrows(p: RunId, next: StatementId)
    | WorkThrowsLost(p: RunId)
    | UseLease(p: RunId, change: Change, next: StatementId)
    | Tick(ms: nat)

  /** The statement whose reply a run awaits. */
  function Awaited(run: Run): Option<StatementId> {
    match run.phase
    case Inserting => Some(run.acquiring)
    case Reclaiming => Some(run.acquiring)
    case Completing(n) => Some(n)
    case Failing(n) => Some(n)
    case _ => None
  }

  predicate Enabled(w: State, step: Step) {
    match step
    case Start(p, opts, n) =>
      p !in w.runs && n !in w.statements && ResolveIdentity(opts).Some? && ResolveLeaseTiming(opts).Some?
    case Commit(n) => n in w.statements && n !in w.replies && w.statements[n].issuer in w.runs
    case Receive(p, next) =>
      p in w.runs && Awaited(w.runs[p]).Some? && Awaited(w.runs[p]).value in w.replies && next !in w.statements
    case LoseReply(p, next) => p in w.runs && Awaited(w.runs[p]).Some? && next !in w.statements
    case WorkReturns(p, next) =>
      p in w.runs && w.runs[p].phase.Working? && w.runs[p].lease.Some? && next !in w.statements
    case WorkThrows(p, next) =>
      p in w.runs && w.runs[p].phase.Working? && w.runs[p].lease.Some? && next !in w.statements
    case WorkThrowsLost(p) => p in w.runs && w.runs[p].phase.Working?
    case UseLease(p, _, next) => p in w.runs && w.runs[p].lease.Some? && next !in w.statements
    case Tick(_) => true
  }

  /** Run `p` moves on and issues one statement. */
  function Issue(w: State, p: RunId, run: Run, n: StatementId, op: Operation): State {
    w.(runs := w.runs[p := run], statements := w.statements[n := Statement(p, op)])
  }

  function Move(w: State, p: RunId, run: Run): State {
    w.(runs := w.runs[p := run])
  }

  function OnReply(w: State, p: RunId, next: StatementId): State
    requires Enabled(w, Receive(p, next))
  {
    var run := w.runs[p];
    var reply := w.replies[Awaited(run).value];
    match run.phase
    case Inserting =>
      if reply.Some? then Move(w, p, run.(lease := reply, phase := Working))
      else Issue(w, p, run.(acquiring := next, phase := Reclaiming), next, Reclaim)
    case Reclaiming =>
      if reply.Some? then Move(w, p, run.(lease := reply, phase := Working)) else Move(w, p, run.(phase := Skipped))
    case Completing(n) => Move(w, p, run.(phase := if reply.Some? then Returned(n) else Thrown))
    case _ => Move(w, p, run.(phase := Thrown))
  }

  /** The caller sees an error instead of the reply. A failed completion is still recorded as a failure. */
  function OnLostReply(w: State, p: RunId, next: StatementId): State
    requires Enabled(w, LoseReply(p, next))
  {
    var run := w.runs[p];
    if run.phase.Completing? && run.lease.Some? then
      Issue(w, p, run.(phase := Failing(next)), next, Mutate(run.lease.value, ToFail))
    else Move(w, p, run.(phase := Thrown))
  }

  function Apply(w: State, step: Step): State
    requires Enabled(w, step)
  {
    match step
    case Start(p, opts, n) =>
      Issue(w, p, Run(ResolveIdentity(opts).value, ResolveLeaseTiming(opts).value, n, None, Inserting), n, Insert)
    case Commit(n) =>
      var (w', reply) := Execute(w, n);
      w'.(replies := w.replies[n := reply])
    case Receive(p, next) => OnReply(w, p, next)
    case LoseReply(p, next) => OnLostReply(w, p, next)
    case WorkReturns(p, next) =>
      Issue(w, p, w.runs[p].(phase := Completing(next)), next, Mutate(w.runs[p].lease.value, ToSuccess))
    case WorkThrows(p, next) =>
      Issue(w, p, w.runs[p].(phase := Failing(next)), next, Mutate(w.runs[p].lease.value, ToFail))
    case WorkThrowsLost(p) => Move(w, p, w.runs[p].(phase := Thrown))
    case UseLease(p, change, next) => Issue(w, p, w.runs[p], next, Mutate(w.runs[p].lease.value, change))
    case Tick(ms) => w.(clock := w.clock + ms)
  }

  predicate Init(w: State) {
    w.rows == map[] && w.runs == map[] && w.statements == map[] && w.replies == map[]
  }

  predicate Admissible(w: State, steps: seq<Step>)
    decreases |steps|
  {
    |steps| == 0 || (Enabled(w, steps[0]) && Admissible(Apply(w, steps[0]), steps[1..]))
  }

  function RunSteps(w: State, steps: seq<Step>): State
    requires Admissible(w, steps)
    decreases |steps|
  {
    if |steps| == 0 then w else RunSteps(Apply(w, steps[0]), steps[1..])
  }

  lemma {:induction false} RunExtends(w: State, steps: seq<Step>, step: Step)
    requires Admissible(w, steps) && Enabled(RunSteps(w, steps), step)
    ensures Admissible(w, steps + [step]) && RunSteps(w, steps + [step]) == Apply(RunSteps(w, steps), step)
    decreases |steps|
  {
    if |steps| == 0 {
      assert (steps + [step])[1..] == [];
    } else {
      RunExtends(Apply(w, steps[0]), steps[1..], step);
      assert (steps + [step])[1..] == steps[1..] + [step];
    }
  }

  /** Some execution from an empty table ends in this state. */
  ghost predicate Reachable(w: State) {
    exists w0, steps :: Init(w0) && Admissible(w0, steps) && RunSteps(w0, steps) == w
  }

  lemma InitIsReachable(w: State)
    requires Init(w)
    ensures Reachable(w)
  {
    assert Admissible(w, []) && RunSteps(w, []) == w;
  }

  lemma StepIsReachable(w: State, step: Step)
    requires Reachable(w) && Enabled(w, step)
    ensures Reachable(Apply(w, step))
  {
    var w0, steps :| Init(w0) && Admissible(w0, steps) && RunSteps(w0, steps) == w;
    RunExtends(w0, steps, step);
  }
}
