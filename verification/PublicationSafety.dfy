/**
 Safety of publication over every interleaving of staging, retirement, runs, deadlines and late effects.
 */
module PublicationSafety {
  import opened Wrappers
  import opened PublicationCoordinator
  import opened PublicationProtocol

  // --- The inductive invariant ----------------------------------------------------------

  /** States a row can only reach on the way out. */
  predicate Leaving(state: RowState) {
    state.Retiring? || state.Retired? || state.Blocked?
  }

  /** A lease someone still holds on to: behind the row, or exactly matching its phase. */
  predicate WorkOk(w: World, work: Work) {
    && work.intent.id in w.rows
    && var row := w.rows[work.intent.id];
    && row.intent == work.intent
    && work.revision <= row.revision
    && (Owned(w.rows, work) ==>
          if work.action.Publish? then row.state.Uncertain? else row.state.Retiring? || row.state.Retired?)
  }

  predicate CallOk(w: World, call: Call) {
    match call
    case ClaimCall(_, _, _, _) => true
    case CommitCall(work, _) => WorkOk(w, work) && work.action.Publish? && Matching(work) in w.sightings
    case RecordCall(work, state, _) =>
      WorkOk(w, work) && MayRecord(work.action, state) && (state.Retired? ==> Absent(work) in w.sightings)
    case PutCall(work, _) =>
      WorkOk(w, work) && work.action.Publish? && call.metadata.descriptorHash == work.intent.DescriptorHash()
    case DeleteCall(work) => WorkOk(w, work) && work.action.Retire?
    case _ => WorkOk(w, call.work)
  }

  predicate RunOk(w: World, r: RunState) {
    && PcFitsAction(r)
    && (r.owned.Some? ==> !r.pc.AwaitClaim? && WorkOk(w, r.owned.value))
    && (ReportsRetired(r.pc) ==> r.owned.Some? && Absent(r.owned.value) in w.sightings)
  }

  /** Sightings name leases that were handed out: none lies ahead of its row. */
  predicate SightingOk(w: World, s: Sighting) {
    s.work.intent.id in w.rows && s.work.revision <= w.rows[s.work.intent.id].revision
  }

  predicate RowOk(w: World, id: IntentId)
    requires id in w.rows
  {
    var row := w.rows[id];
    && row.intent.id == id
    && (row.state.Ready? ==> row.token.None? && row.readyBy.Some? && Matching(row.readyBy.value) in w.sightings
                             && row.readyBy.value.intent == row.intent && row.readyBy.value.action.Publish?)
    && (row.state.Blocked? ==> row.token.None?)
    && (row.state.Pending? ==> row.token.None?)
    && (row.state.Retired? ==> row.retiredBy.Some? && Absent(row.retiredBy.value) in w.sightings
                               && row.retiredBy.value.intent == row.intent && row.retiredBy.value.action.Retire?)
  }

  predicate Inv(w: World) {
    && (forall id <- w.rows :: RowOk(w, id))
    && (forall call <- w.issued :: CallOk(w, call))
    && (forall p <- w.runs :: RunOk(w, w.runs[p]))
    && (forall s <- w.sightings :: SightingOk(w, s))
  }

  // --- Repository effects -------------------------------------------------------------------

  /** Every change of a row raises its revision and keeps its intent. */
  predicate RowsAdvance(before: map<IntentId, Row>, after: map<IntentId, Row>) {
    && before.Keys <= after.Keys
    && forall id <- before :: after[id] == before[id]
                              || (after[id].intent == before[id].intent && after[id].revision > before[id].revision)
  }

  lemma RowsAdvanceKeepsWork(w: World, w': World, work: Work)
    requires WorkOk(w, work) && RowsAdvance(w.rows, w'.rows)
    ensures WorkOk(w', work)
  {
  }

  lemma AdvancingRowsKeepsInv(w: World, w': World)
    requires Inv(w) && RowsAdvance(w.rows, w'.rows)
    requires w'.issued == w.issued && w'.runs == w.runs && w'.sightings == w.sightings
    requires forall id <- w'.rows :: RowOk(w', id)
    ensures Inv(w')
  {
    forall call | call in w'.issued ensures CallOk(w', call) {
      assert CallOk(w, call);
      if !call.ClaimCall? {
        RowsAdvanceKeepsWork(w, w', call.work);
      }
    }
    forall p | p in w'.runs ensures RunOk(w', w'.runs[p]) {
      assert RunOk(w, w.runs[p]);
      if w.runs[p].owned.Some? {
        RowsAdvanceKeepsWork(w, w', w.runs[p].owned.value);
      }
    }
  }

  /** How one call may change one row. */
  lemma EffectOnRow(w: World, call: Call, id: IntentId)
    requires Inv(w) && CallOk(w, call) && id in w.rows
    ensures id in Effect(w, call).rows && RowOk(Effect(w, call), id)
    ensures var before, after := w.rows[id], Effect(w, call).rows[id];
            && (after == before || (after.intent == before.intent && after.revision > before.revision))
            && (Leaving(before.state) ==> Leaving(after.state))
  {
    assert RowOk(w, id);
    match call
    case ClaimCall(_, _, _, _) =>
    case CommitCall(_, _) => CommitOnRow(w, call, id);
    case RecordCall(_, _, _) => RecordOnRow(w, call, id);
    case _ =>
  }

  lemma CommitOnRow(w: World, call: Call, id: IntentId)
    requires Inv(w) && CallOk(w, call) && id in w.rows && call.CommitCall?
    ensures id in Effect(w, call).rows && RowOk(Effect(w, call), id)
    ensures var before, after := w.rows[id], Effect(w, call).rows[id];
            after == before
            || (after.intent == before.intent && after.revision > before.revision && !Leaving(before.state))
  {
    assert RowOk(w, id);
  }

  lemma RecordOnRow(w: World, call: Call, id: IntentId)
    requires Inv(w) && CallOk(w, call) && id in w.rows && call.RecordCall?
    ensures id in Effect(w, call).rows && RowOk(Effect(w, call), id)
    ensures var before, after := w.rows[id], Effect(w, call).rows[id];
            && (after == before || (after.intent == before.intent && after.revision > before.revision))
            && (Leaving(before.state) ==> Leaving(after.state))
  {
    assert RowOk(w, id);
  }

  lemma EffectKeepsInv(w: World, call: Call)
    requires Inv(w) && CallOk(w, call)
    ensures Inv(Effect(w, call))
  {
    var w' := Effect(w, call);
    forall id | id in w.rows { EffectOnRow(w, call, id); }
    assert w'.rows.Keys == w.rows.Keys;
    AdvancingRowsKeepsInv(w, w');
  }

  /** What a successful claim hands out. */
  lemma ClaimedWorkOk(w: World, call: Call)
    requires Inv(w) && call.ClaimCall? && call.id in w.rows && Claimable(w.rows[call.id], call.now)
    ensures WorkOk(Effect(w, call), ClaimedWork(w.rows[call.id], call.token, call.leaseUntil))
  {
    assert RowOk(w, call.id);
  }

  // --- Runs -----------------------------------------------------------------------------------

  /** The answer a run gets names a lease that is still accounted for. */
  predicate AnswerOk(w: World, r: RunState, answer: Answer) {
    r.pc.AwaitClaim? && answer.Claimed? && answer.work.Some? ==> WorkOk(w, answer.work.value)
  }

  lemma ReactKeepsInv(w: World, p: RunId, answer: Answer, now: Time)
    requires Inv(w) && p in w.runs && AnswerOk(w, w.runs[p], answer)
    ensures Inv(React(w, p, answer, now))
  {
    var r := w.runs[p];
    assert RunOk(w, r);
    var x := Advance(r, answer, now);
    var w' := React(w, p, answer, now);
    ReactedRunOk(w, p, answer, now);
    ReactedCallOk(w, p, answer, now);
    MovedKeepsInv(w, w', p, x.run, if x.call.Some? then {x.call.value} else {}, Sighted(r, answer));
  }

  lemma ReactedRunOk(w: World, p: RunId, answer: Answer, now: Time)
    requires Inv(w) && p in w.runs && RunOk(w, w.runs[p]) && AnswerOk(w, w.runs[p], answer)
    ensures RunOk(React(w, p, answer, now), Advance(w.runs[p], answer, now).run)
    ensures forall s <- Sighted(w.runs[p], answer) :: SightingOk(React(w, p, answer, now), s)
  {
    var r := w.runs[p];
    ReactionFitsAction(r, answer, now);
    CallsRestOnEvidence(r, answer, now);
    ReactionKeepsLease(r, answer, now);
  }

  lemma ReactedCallOk(w: World, p: RunId, answer: Answer, now: Time)
    requires Inv(w) && p in w.runs && RunOk(w, w.runs[p]) && AnswerOk(w, w.runs[p], answer)
    ensures var c := Advance(w.runs[p], answer, now).call; c.Some? ==> CallOk(React(w, p, answer, now), c.value)
  {
    var r := w.runs[p];
    ReactionFitsAction(r, answer, now);
    CallsRestOnEvidence(r, answer, now);
    ReactionKeepsLease(r, answer, now);
  }

  /** One run moves on, with new calls and sightings that are accounted for. */
  lemma MovedKeepsInv(w: World, w': World, p: RunId, r: RunState, calls: set<Call>, seen: set<Sighting>)
    requires Inv(w)
    requires w' == w.(runs := w.runs[p := r], issued := w.issued + calls, sightings := w.sightings + seen)
    requires RunOk(w', r)
    requires forall call <- calls :: CallOk(w', call)
    requires forall s <- seen :: SightingOk(w', s)
    ensures Inv(w')
  {
    forall id | id in w'.rows ensures RowOk(w', id) { assert RowOk(w, id); }
    forall call | call in w'.issued ensures CallOk(w', call) {
      if call in w.issued { assert CallOk(w, call); }
    }
    forall q | q in w'.runs ensures RunOk(w', w'.runs[q]) {
      if q != p { assert RunOk(w, w.runs[q]); }
    }
    forall s | s in w'.sightings ensures SightingOk(w', s) {
      if s in w.sightings { assert SightingOk(w, s); }
    }
  }

  /** A run never swaps the lease it holds; a fresh one comes only from the claim's answer. */
  lemma ReactionKeepsLease(r: RunState, answer: Answer, now: Time)
    requires PcFitsAction(r)
    ensures var o := Advance(r, answer, now).run.owned;
            o == r.owned || (r.pc.AwaitClaim? && answer.Claimed? && o == answer.work)
  {
  }

  lemma RespondKeepsInv(w: World, p: RunId, call: Call, answer: Answer, now: Time)
    requires Inv(w) && Enabled(w, Respond(p, call, answer, now))
    ensures Inv(Apply(w, Respond(p, call, answer, now)))
  {
    assert CallOk(w, call);
    EffectKeepsInv(w, call);
    if call.ClaimCall? && answer.work.Some? {
      ClaimedWorkOk(w, call);
    }
    ReactKeepsInv(Effect(w, call), p, answer, now);
  }

  // --- Domain steps -----------------------------------------------------------------------------

  lemma RetireWhereKeepsInv(w: World, hit: Row -> bool)
    requires Inv(w)
    ensures Inv(w.(rows := RetireWhere(w.rows, hit)))
  {
    var w' := w.(rows := RetireWhere(w.rows, hit));
    forall id | id in w'.rows ensures RowOk(w', id) { assert RowOk(w, id); }
    AdvancingRowsKeepsInv(w, w');
  }

  lemma StageKeepsInv(w: World, intent: Intent)
    requires Inv(w) && intent.id !in w.rows
    ensures Inv(w.(rows := AfterStage(w.rows, intent)))
  {
    var hit := (row: Row) => row.intent.binding.logical == intent.binding.logical;
    var mid := w.(rows := RetireWhere(w.rows, hit));
    RetireWhereKeepsInv(w, hit);
    var w' := w.(rows := mid.rows[intent.id := Row(intent, Pending, None, 0, 0, 0, None, None)]);
    forall id | id in w'.rows ensures RowOk(w', id) {
      if id in mid.rows { assert RowOk(mid, id); }
    }
    AdvancingRowsKeepsInv(mid, w');
  }

  lemma StepKeepsInv(w: World, step: Step)
    requires Inv(w) && Enabled(w, step)
    ensures Inv(Apply(w, step))
  {
    var w' := Apply(w, step);
    match step {
      case Stage(intent) => StageKeepsInv(w, intent);
      case RetireLogical(logical) => RetireWhereKeepsInv(w, (row: Row) => row.intent.binding.logical == logical);
      case RetireBinding(binding) => RetireWhereKeepsInv(w, (row: Row) => row.intent.binding == binding);
      case Respond(p, call, answer, now) => RespondKeepsInv(w, p, call, answer, now);
      case Fail(p, now) => ReactKeepsInv(w, p, Threw, now);
      case Land(call) => EffectKeepsInv(w, call);
      case _ => QuietStepKeepsInv(w, step);
    }
  }

  /** Steps that leave rows and sightings alone. */
  lemma QuietStepKeepsInv(w: World, step: Step)
    requires Inv(w) && Enabled(w, step)
    requires step.Assign? || step.Unassign? || step.StartRun? || step.Deadline? || step.Foreign?
    ensures Inv(Apply(w, step))
  {
    var w' := Apply(w, step);
    forall id | id in w'.rows ensures RowOk(w', id) { assert RowOk(w, id); }
    forall call | call in w'.issued ensures CallOk(w', call) {
      if call in w.issued { assert CallOk(w, call); }
    }
    forall p | p in w'.runs ensures RunOk(w', w'.runs[p]) {
      if p in w.runs { assert RunOk(w, w.runs[p]); }
    }
  }

  lemma {:induction false} RunKeepsInv(w: World, steps: seq<Step>)
    requires Inv(w) && Admissible(w, steps)
    ensures Inv(RunSteps(w, steps))
    decreases |steps|
  {
    if |steps| > 0 {
      StepKeepsInv(w, steps[0]);
      RunKeepsInv(Apply(w, steps[0]), steps[1..]);
    }
  }

  // --- Main results ---------------------------------------------------------------------------------

  /**
   A URL is projected only on evidence: the lease whose commit made the row ready belongs to this
   very intent, and under that lease the store had shown the target object exactly as expected.
   */
  lemma ProjectedUrlRestsOnASighting(w0: World, steps: seq<Step>, b: Binding, id: IntentId)
    requires Init(w0) && Admissible(w0, steps)
    requires var w := RunSteps(w0, steps); id in w.rows && w.rows[id].intent.binding == b && Project(w, b, id).Some?
    ensures var w := RunSteps(w0, steps); var row := w.rows[id];
            && Project(w, b, id) == Some(row.intent.Target())
            && row.readyBy.Some? && row.readyBy.value.intent == row.intent && Matching(row.readyBy.value) in w.sightings
  {
    RunKeepsInv(w0, steps);
    assert RowOk(RunSteps(w0, steps), id);
  }

  /** `retired` is recorded only after the target was seen absent under that same retire lease. */
  lemma RetiredRestsOnAbsence(w0: World, steps: seq<Step>, id: IntentId)
    requires Init(w0) && Admissible(w0, steps)
    requires id in RunSteps(w0, steps).rows && RunSteps(w0, steps).rows[id].state.Retired?
    ensures var w := RunSteps(w0, steps); var row := w.rows[id];
            row.retiredBy.Some? && row.retiredBy.value.action.Retire? && Absent(row.retiredBy.value) in w.sightings
  {
    RunKeepsInv(w0, steps);
    assert RowOk(RunSteps(w0, steps), id);
  }

  /** Only an answered lookup adds sightings. */
  lemma SightingsAfterStep(w: World, step: Step)
    requires Enabled(w, step)
    ensures Apply(w, step).sightings == w.sightings + if step.Respond? then Sighted(w.runs[step.p], step.answer) else {}
  {
    if step.Respond? {
      assert Effect(w, step.call).runs == w.runs && Effect(w, step.call).sightings == w.sightings;
    }
  }

  /** A matching sighting is recorded only while the store really holds exactly the expected object. */
  lemma MatchIsReal(w: World, step: Step, work: Work)
    requires Inv(w) && Enabled(w, step)
    requires Matching(work) in Apply(w, step).sightings && Matching(work) !in w.sightings
    ensures step.Respond? && work.intent.Target() in w.objects
    ensures w.objects[work.intent.Target()] == Expected(work.intent, w.runs[step.p].profile)
  {
    SightingsAfterStep(w, step);
    if step.call.HeadCall? && step.answer.HeadFound? {
      AgreesIsEquality(step.answer.metadata, Expected(work.intent, w.runs[step.p].profile));
    }
  }

  /** An absence is recorded only while the store really holds nothing under the target key. */
  lemma AbsenceIsReal(w: World, step: Step, work: Work)
    requires Inv(w) && Enabled(w, step)
    requires Absent(work) !in w.sightings
    ensures Absent(work) in Apply(w, step).sightings ==> step.Respond? && work.intent.Target() !in w.objects
  {
    SightingsAfterStep(w, step);
  }

  lemma StepKeepsLeaving(w: World, step: Step, id: IntentId)
    requires Inv(w) && Enabled(w, step) && id in w.rows
    ensures id in Apply(w, step).rows
    ensures Leaving(w.rows[id].state) ==> Leaving(Apply(w, step).rows[id].state)
  {
    match step
    case Respond(_, call, _, _) =>
      assert CallOk(w, call);
      EffectOnRow(w, call, id);
    case Land(call) => EffectOnRow(w, call, id);
    case _ =>
  }

  /** Retirement is one-way: no continuation makes a retiring or retired generation pending, uncertain or ready. */
  lemma {:induction false} RetirementIsOneWay(w: World, steps: seq<Step>, id: IntentId)
    requires Inv(w) && Admissible(w, steps) && id in w.rows && Leaving(w.rows[id].state)
    ensures id in RunSteps(w, steps).rows && Leaving(RunSteps(w, steps).rows[id].state)
    decreases |steps|
  {
    if |steps| > 0 {
      StepKeepsInv(w, steps[0]);
      StepKeepsLeaving(w, steps[0], id);
      RetirementIsOneWay(Apply(w, steps[0]), steps[1..], id);
    }
  }

  /**
   A stored object is never overwritten, and it disappears only through a retire lease of the
   intent that both targets its key and carries its descriptor. A mismatching object is untouchable.
   */
  lemma ObjectsAreReplacedByNobody(w: World, step: Step, key: ObjectKey)
    requires Inv(w) && Enabled(w, step) && key in w.objects
    ensures var w' := Apply(w, step);
            if key in w'.objects then w'.objects[key] == w.objects[key]
            else
              && (step.Respond? || step.Land?) && step.call.DeleteCall? && step.call.work.action.Retire?
              && step.call.work.intent.Target() == key
              && step.call.work.intent.DescriptorHash() == w.objects[key].descriptorHash
  {
    if step.Respond? || step.Land? {
      assert CallOk(w, step.call);
    }
  }

  // --- Late PUTs ------------------------------------------------------------------------------------

  /** The key holds no object at some moment of this execution. */
  predicate AbsentAtSomeMoment(w: World, steps: seq<Step>, key: ObjectKey)
    requires Admissible(w, steps)
    decreases |steps|
  {
    key !in w.objects || (|steps| > 0 && AbsentAtSomeMoment(Apply(w, steps[0]), steps[1..], key))
  }

  /** Run `p` has no lease yet, or has not yet seen its target absent under it. */
  predicate NotSeenAbsent(w: World, p: RunId) {
    p in w.runs && (w.runs[p].owned.Some? ==> Absent(w.runs[p].owned.value) !in w.sightings)
  }

  /** A run changes its lease only by claiming one, and a claimed lease is newer than everything before it. */
  lemma LeaseAfterStep(w: World, step: Step, p: RunId)
    requires Inv(w) && Enabled(w, step) && p in w.runs
    ensures p in Apply(w, step).runs
    ensures var o, o' := w.runs[p].owned, Apply(w, step).runs[p].owned;
            o' == o || (o.None? && o'.Some? && o'.value.intent.id in w.rows
                        && o'.value.revision > w.rows[o'.value.intent.id].revision)
  {
    assert RunOk(w, w.runs[p]);
    match step
    case Respond(q, call, answer, now) => if q == p { LeaseAfterAnswer(w, p, call, answer, now); }
    case Fail(q, now) => if q == p { ReactionKeepsLease(w.runs[p], Threw, now); }
    case _ => LeaseElsewhere(w, step, p);
  }

  lemma LeaseElsewhere(w: World, step: Step, p: RunId)
    requires Enabled(w, step) && p in w.runs && !step.Respond? && !step.Fail?
    ensures p in Apply(w, step).runs && Apply(w, step).runs[p].owned == w.runs[p].owned
  {
  }

  lemma LeaseAfterAnswer(w: World, p: RunId, call: Call, answer: Answer, now: Time)
    requires Inv(w) && Enabled(w, Respond(p, call, answer, now))
    ensures var o, o' := w.runs[p].owned, Advance(w.runs[p], answer, now).run.owned;
            o' == o || (o.None? && o'.Some? && o'.value.intent.id in w.rows
                        && o'.value.revision > w.rows[o'.value.intent.id].revision)
  {
    assert RunOk(w, w.runs[p]);
    ReactionKeepsLease(w.runs[p], answer, now);
    if call.ClaimCall? && answer.work.Some? { assert RowOk(w, call.id); }
  }

  /** A step that first shows run `p` its target absent happens while the target is absent. */
  lemma FirstAbsenceIsReal(w: World, step: Step, p: RunId)
    requires Inv(w) && Enabled(w, step) && NotSeenAbsent(w, p) && p in Apply(w, step).runs
    ensures var w' := Apply(w, step);
            || NotSeenAbsent(w', p)
            || (w'.runs[p].owned.Some? && w'.runs[p].owned.value.intent.Target() !in w.objects)
  {
    var o' := Apply(w, step).runs[p].owned;
    LeaseAfterStep(w, step, p);
    if o'.Some? {
      AbsenceIsReal(w, step, o'.value);
    }
  }

  lemma {:induction false} LeaseIsKept(w: World, steps: seq<Step>, p: RunId)
    requires Inv(w) && Admissible(w, steps) && p in w.runs && w.runs[p].owned.Some?
    ensures p in RunSteps(w, steps).runs && RunSteps(w, steps).runs[p].owned == w.runs[p].owned
    decreases |steps|
  {
    if |steps| > 0 {
      LeaseAfterStep(w, steps[0], p);
      StepKeepsInv(w, steps[0]);
      LeaseIsKept(Apply(w, steps[0]), steps[1..], p);
    }
  }

  /**
   A late PUT does not outlive the next conclusive retirement: whatever had landed before the run
   began, a run that reports `retired` went through a moment at which its target key was empty.
   */
  lemma {:induction false} ConclusiveRetirementEmptiesTheKey(w: World, steps: seq<Step>, p: RunId)
    requires Inv(w) && Admissible(w, steps) && NotSeenAbsent(w, p)
    requires p in RunSteps(w, steps).runs && RunSteps(w, steps).runs[p].pc == Finished(RunRetired)
    ensures var r := RunSteps(w, steps).runs[p];
            r.owned.Some? && AbsentAtSomeMoment(w, steps, r.owned.value.intent.Target())
    decreases |steps|
  {
    if |steps| > 0 {
      var w' := Apply(w, steps[0]);
      StepKeepsInv(w, steps[0]);
      LeaseAfterStep(w, steps[0], p);
      FirstAbsenceIsReal(w, steps[0], p);
      if NotSeenAbsent(w', p) {
        ConclusiveRetirementEmptiesTheKey(w', steps[1..], p);
      } else {
        LeaseIsKept(w', steps[1..], p);
      }
    }
  }

  // --- The deadline ------------------------------------------------------------------------------------

  /** The number of calls run `p` starts during an execution. */
  function CallsStarted(w: World, steps: seq<Step>, p: RunId): nat
    requires Admissible(w, steps)
    decreases |steps|
  {
    if |steps| == 0 then 0
    else
      (if (steps[0].Respond? || steps[0].Fail?) && steps[0].p == p
          && Advance(w.runs[p], if steps[0].Respond? then steps[0].answer else Threw, steps[0].now).call.Some?
       then 1 else 0)
      + CallsStarted(Apply(w, steps[0]), steps[1..], p)
  }

  /** Once its deadline has fired, a run starts no further call in any continuation. */
  lemma {:induction false} DeadRunsAreSilent(w: World, steps: seq<Step>, p: RunId)
    requires Admissible(w, steps) && p in w.runs && w.runs[p].aborted
    ensures CallsStarted(w, steps, p) == 0
    decreases |steps|
  {
    if |steps| > 0 {
      if (steps[0].Respond? || steps[0].Fail?) && steps[0].p == p {
        NoCallAfterDeadline(w.runs[p], if steps[0].Respond? then steps[0].answer else Threw, steps[0].now);
      }
      DeadRunsAreSilent(Apply(w, steps[0]), steps[1..], p);
    }
  }
}
