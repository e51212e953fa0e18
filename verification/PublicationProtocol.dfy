/**
 All publication runs over one repository and one object store.

 The repository is the reference adapter of the publication contract: every compare-and-swap is
 fenced by token and revision, staging retires older generations, and ready or blocked rows are not
 claimable. A call that was made may take effect at any later moment, also after its run gave up;
 this covers late PUTs, late deletes and database commits whose response was lost.
 */
module PublicationProtocol {
  import opened Wrappers
  import opened PublicationCoordinator

  type RunId = nat

  /** `readyBy` and `retiredBy` remember the lease that committed or recorded that state. */
  datatype Row = Row(
    intent: Intent, state: RowState, token: Option<Token>, revision: nat, leaseUntil: Time, next: Time,
    readyBy: Option<Work>, retiredBy: Option<Work>)

  datatype Sighting = Matching(work: Work) | Absent(work: Work)

  datatype World = World(
    rows: map<IntentId, Row>,
    current: map<nat, nat>,
    objects: map<ObjectKey, Metadata>,
    runs: map<RunId, RunState>,
    issued: set<Call>,
    sightings: set<Sighting>)

  // --- The reference repository ----------------------------------------------------------

  predicate Owned(rows: map<IntentId, Row>, work: Work) {
    && work.intent.id in rows
    && rows[work.intent.id].token == Some(work.token)
    && rows[work.intent.id].revision == work.revision
    && rows[work.intent.id].intent.DescriptorHash() == work.intent.DescriptorHash()
  }

  function RetireRow(row: Row): Row {
    row.(state := Retiring, token := None, revision := row.revision + 1, next := 0, leaseUntil := 0)
  }

  predicate IsCurrentBinding(w: World, b: Binding) {
    b.logical in w.current && w.current[b.logical] == b.generation
  }

  predicate SameBinding(row: Row, b: Binding) {
    row.intent.binding == b
  }

  /** The stored intent of this exact generation, if any. */
  predicate Staged(rows: map<IntentId, Row>, b: Binding) {
    exists id <- rows :: SameBinding(rows[id], b)
  }

  function RetireWhere(rows: map<IntentId, Row>, hit: Row -> bool): map<IntentId, Row> {
    map id | id in rows :: if hit(rows[id]) then RetireRow(rows[id]) else rows[id]
  }

  function AfterStage(rows: map<IntentId, Row>, intent: Intent): map<IntentId, Row> {
    if Staged(rows, intent.binding) then rows
    else
      RetireWhere(rows, (row: Row) => row.intent.binding.logical == intent.binding.logical)
        [intent.id := Row(intent, Pending, None, 0, 0, 0, None, None)]
  }

  predicate Claimable(row: Row, now: Time) {
    && !row.state.Ready? && !row.state.Blocked? && row.next <= now
    && !(row.token.Some? && row.leaseUntil > now)
  }

  function ClaimedWork(row: Row, token: Token, leaseUntil: Time): Work {
    var leaving := row.state.Retiring? || row.state.Retired?;
    Work(row.intent, token, row.revision + 1, leaseUntil, if leaving then Retire else Publish)
  }

  function ClaimedRow(row: Row, token: Token, leaseUntil: Time): Row {
    row.(token := Some(token), revision := row.revision + 1, leaseUntil := leaseUntil,
         state := if row.state.Retiring? || row.state.Retired? then row.state else Uncertain)
  }

  function CommitOutcome(w: World, work: Work, now: Time): CommitResult {
    if !Owned(w.rows, work) || w.rows[work.intent.id].leaseUntil <= now then CommitLost
    else if !IsCurrentBinding(w, work.intent.binding) then CommitStale
    else CommitReady
  }

  function ReadyRow(row: Row, work: Work): Row {
    row.(state := Ready, token := None, revision := row.revision + 1, readyBy := Some(work))
  }

  function RecordedRow(row: Row, work: Work, state: RowState, next: Time): Row {
    row.(state := state, next := next, token := None, revision := row.revision + 1,
         retiredBy := if state.Retired? then Some(work) else row.retiredBy)
  }

  /** The effect of a call when it reaches the repository or the object store. */
  function Effect(w: World, call: Call): World {
    match call
    case ClaimCall(id, token, now, leaseUntil) =>
      if id in w.rows && Claimable(w.rows[id], now)
      then w.(rows := w.rows[id := ClaimedRow(w.rows[id], token, leaseUntil)]) else w
    case CommitCall(work, now) =>
      if CommitOutcome(w, work, now).CommitReady? then
        w.(rows := w.rows[work.intent.id := ReadyRow(w.rows[work.intent.id], work)])
      else w
    case RecordCall(work, state, next) =>
      if Owned(w.rows, work) then
        w.(rows := w.rows[work.intent.id := RecordedRow(w.rows[work.intent.id], work, state, next)])
      else w
    case PutCall(work, metadata) =>
      // conditional create: never overwrites
      if work.intent.Target() in w.objects then w else w.(objects := w.objects[work.intent.Target() := metadata])
    case DeleteCall(work) =>
      // conditional delete: refuses a mismatching descriptor
      if work.intent.Target() in w.objects
          && w.objects[work.intent.Target()].descriptorHash == work.intent.DescriptorHash()
      then w.(objects := w.objects - {work.intent.Target()}) else w
    case _ => w
  }

  /** The answers the contract allows for a call that takes effect now. */
  predicate Answers(w: World, call: Call, answer: Answer) {
    match call
    case ClaimCall(id, token, now, leaseUntil) =>
      var due := id in w.rows && Claimable(w.rows[id], now);
      answer == Claimed(if due then Some(ClaimedWork(w.rows[id], token, leaseUntil)) else None)
    case IsCurrentCall(work) => answer.Current?
    case HeadCall(work) =>
      || answer.HeadUnknown?
      || (answer.HeadAbsent? && work.intent.Target() !in w.objects)
      || (answer.HeadFound? && work.intent.Target() in w.objects && w.objects[work.intent.Target()] == answer.metadata)
    case ReadCall(_) => answer.SourceRead?
    case PutCall(_, _) => answer.Acknowledged?
    case DeleteCall(_) => answer.Acknowledged?
    case CommitCall(work, now) => answer == CommitAnswer(CommitOutcome(w, work, now))
    case RecordCall(work, _, _) => answer == Recorded(Owned(w.rows, work))
  }

  // --- Steps -------------------------------------------------------------------------------

  datatype Step =
    | Assign(logical: nat, generation: nat)
    | Unassign(logical: nat)
    | Stage(intent: Intent)
    | RetireLogical(logical: nat)
    | RetireBinding(binding: Binding)
    | StartRun(p: RunId, run: RunState)
    | Respond(p: RunId, call: Call, answer: Answer, now: Time)
    | Fail(p: RunId, now: Time)
    | Deadline(p: RunId)
    | Land(call: Call)
    | Foreign(key: ObjectKey, metadata: Metadata)

  /** The call a run waits for. */
  predicate Waits(r: RunState, call: Call) {
    match r.pc
    case AwaitClaim => call == ClaimCall(r.id, r.token, r.claimedAt, r.leaseUntil)
    case AwaitCurrent(_) => call.IsCurrentCall? && r.owned == Some(call.work)
    case AwaitHead(_) => call.HeadCall? && r.owned == Some(call.work)
    case AwaitRead => call.ReadCall? && r.owned == Some(call.work)
    case AwaitPut => call.PutCall? && r.owned == Some(call.work)
    case AwaitDelete => call.DeleteCall? && r.owned == Some(call.work)
    case AwaitCommit => call.CommitCall? && r.owned == Some(call.work)
    case AwaitRecord(state, _) => call.RecordCall? && r.owned == Some(call.work) && call.state == state
    case AwaitErrorRecord => call.RecordCall? && r.owned == Some(call.work)
    case Finished(_) => false
  }

  predicate Enabled(w: World, step: Step) {
    match step
    case Stage(intent) => intent.id !in w.rows
    case StartRun(p, run) => p !in w.runs && run.pc.AwaitClaim? && run.owned.None? && !run.aborted
    case Respond(p, call, answer, _) =>
      p in w.runs && Started(w.runs[p]) && Waits(w.runs[p], call) && call in w.issued && Answers(w, call, answer)
    case Fail(p, _) => p in w.runs && Started(w.runs[p]) && !w.runs[p].pc.Finished?
    case Deadline(p) => p in w.runs
    case Land(call) => call in w.issued
    case Foreign(key, _) => key !in w.objects
    case _ => true
  }

  function Sighted(r: RunState, answer: Answer): set<Sighting>
    requires Started(r)
  {
    (if ProvesMatching(r, answer) then {Matching(r.owned.value)} else {}) +
    (if ProvesAbsent(r, answer) then {Absent(r.owned.value)} else {})
  }

  /** A run reacts to an answer; a call it makes is issued. */
  function React(w: World, p: RunId, answer: Answer, now: Time): World
    requires p in w.runs && Started(w.runs[p])
  {
    var x := Advance(w.runs[p], answer, now);
    w.(runs := w.runs[p := x.run],
       issued := w.issued + (if x.call.Some? then {x.call.value} else {}),
       sightings := w.sightings + Sighted(w.runs[p], answer))
  }

  function Apply(w: World, step: Step): World
    requires Enabled(w, step)
  {
    match step
    case Assign(logical, generation) => w.(current := w.current[logical := generation])
    case Unassign(logical) => w.(current := w.current - {logical})
    case Stage(intent) => w.(rows := AfterStage(w.rows, intent))
    case RetireLogical(logical) => w.(rows := RetireWhere(w.rows, (row: Row) => row.intent.binding.logical == logical))
    case RetireBinding(binding) => w.(rows := RetireWhere(w.rows, (row: Row) => row.intent.binding == binding))
    case StartRun(p, run) =>
      w.(runs := w.runs[p := run], issued := w.issued + {ClaimCall(run.id, run.token, run.claimedAt, run.leaseUntil)})
    case Respond(p, call, answer, now) => React(Effect(w, call), p, answer, now)
    case Fail(p, now) => React(w, p, Threw, now)
    case Deadline(p) => w.(runs := w.runs[p := w.runs[p].(aborted := true)])
    case Land(call) => Effect(w, call)
    case Foreign(key, metadata) => w.(objects := w.objects[key := metadata])
  }

  predicate Init(w: World) {
    w.rows == map[] && w.runs == map[] && w.issued == {} && w.sightings == {}
  }

  predicate Admissible(w: World, steps: seq<Step>)
    decreases |steps|
  {
    |steps| == 0 || (Enabled(w, steps[0]) && Admissible(Apply(w, steps[0]), steps[1..]))
  }

  function RunSteps(w: World, steps: seq<Step>): World
    requires Admissible(w, steps)
    decreases |steps|
  {
    if |steps| == 0 then w else RunSteps(Apply(w, steps[0]), steps[1..])
  }

  lemma {:induction false} RunExtends(w: World, steps: seq<Step>, step: Step)
    requires Admissible(w, steps) && Enabled(RunSteps(w, steps), step)
    ensures Admissible(w, steps + [step]) && RunSteps(w, steps + [step]) == Apply(RunSteps(w, steps), step)
    decreases |steps|
  {
    if |steps| == 0 {
      assert (steps + [step])[1..] == [];
    } else {
      RunExtends(Apply(w, steps[0]), steps[1..], step);
      assert (steps + [step])[1..] == steps[1..] + [step];
    }
  }

  /** Some execution from an empty repository ends in this world. */
  ghost predicate Reachable(w: World) {
    exists w0, steps :: Init(w0) && Admissible(w0, steps) && RunSteps(w0, steps) == w
  }

  lemma InitIsReachable(w: World)
    requires Init(w)
    ensures Reachable(w)
  {
    assert Admissible(w, []) && RunSteps(w, []) == w;
  }

  lemma StepIsReachable(w: World, step: Step)
    requires Reachable(w) && Enabled(w, step)
    ensures Reachable(Apply(w, step))
  {
    var w0, steps :| Init(w0) && Admissible(w0, steps) && RunSteps(w0, steps) == w;
    RunExtends(w0, steps, step);
  }

  /** `project`: the URL is the target of the current generation's row, and only when it is ready. */
  function Project(w: World, b: Binding, id: IntentId): Option<ObjectKey>
    requires id in w.rows && w.rows[id].intent.binding == b
  {
    if IsCurrentBinding(w, b) && w.rows[id].state.Ready? then Some(w.rows[id].intent.Target()) else None
  }
}
