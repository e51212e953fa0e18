/**
 What a publication run does next, told by what it has just learned: for every kind of call, and for
 every way to end, exactly the answers that lead to it.
 */
module PublicationEvidence {
  import opened Wrappers
  import opened PublicationCoordinator
  import opened PublicationProtocol
  import opened PublicationSafety

  // --- What an answer says -----------------------------------------------------------------------

  /** The claim gave the run a lease on its own intent that has not run out. */
  predicate Leased(r: RunState, answer: Answer, now: Time, action: Action) {
    && r.pc.AwaitClaim? && answer.Claimed? && answer.work.Some? && answer.work.value.intent.id == r.id
    && now < answer.work.value.leaseUntil && answer.work.value.action == action
  }

  predicate Looks(r: RunState, lookup: Lookup) {
    r.pc == AwaitHead(lookup)
  }

  /** A lookup found the object with exactly the expected metadata. */
  predicate FoundMatching(r: RunState, answer: Answer) {
    r.owned.Some? && r.pc.AwaitHead? && answer == HeadFound(Expected(r.owned.value.intent, r.profile))
  }

  predicate FoundNothing(r: RunState, answer: Answer) {
    r.pc.AwaitHead? && answer == HeadAbsent
  }

  /** It found another object, which is neither the expected one nor nothing. */
  predicate FoundOther(r: RunState, answer: Answer) {
    r.pc.AwaitHead? && answer.HeadFound? && !FoundMatching(r, answer)
  }

  predicate Retires(r: RunState) {
    r.owned.Some? && r.owned.value.action == Retire
  }

  predicate Publishes(r: RunState) {
    r.owned.Some? && r.owned.value.action == Publish
  }

  /** The source is not empty and not above the run's limit; an intent without such a source is never looked up. */
  predicate Bounded(r: RunState, intent: Intent) {
    intent.source.size > 0 && intent.source.size <= r.maxBytes
  }

  /** The source was read exactly as the intent describes it. */
  predicate ReadAsIntended(r: RunState, answer: Answer) {
    r.owned.Some? && r.pc.AwaitRead?
    && var source := r.owned.value.intent.source;
    answer == SourceRead(source.version, source.size, source.sha256) && source.size <= r.maxBytes
  }

  predicate Confirmed(r: RunState, answer: Answer) {
    (r.pc.AwaitPut? || r.pc.AwaitDelete?) && answer == Acknowledged(true)
  }

  // --- Calls -------------------------------------------------------------------------------------------

  /** The run may look at the object: it retires, or its generation is current, or it has just changed it. */
  predicate MayLook(r: RunState, answer: Answer, now: Time) {
    || Leased(r, answer, now, Retire)
    || (r.pc.AwaitCurrent? && answer == Current(true))
    || (Looks(r, Observe) && Retires(r) && FoundMatching(r, answer))
    || Confirmed(r, answer)
  }

  /** Exactly when a run looks the object up, asks for currency, reads the source, writes, deletes and commits. */
  lemma RunsCallIff(r: RunState, answer: Answer, now: Time)
    requires PcFitsAction(r) && !r.aborted && (r.owned.Some? ==> !r.pc.AwaitClaim?)
    ensures var x := Advance(r, answer, now);
            && (x.call.Some? && x.call.value.HeadCall? <==>
                  MayLook(r, answer, now) && x.run.owned.Some? && Bounded(r, x.run.owned.value.intent))
            && (x.call.Some? && x.call.value.IsCurrentCall? <==>
                  Leased(r, answer, now, Publish) || (Looks(r, Observe) && Publishes(r) && FoundNothing(r, answer)))
            && (x.call.Some? && x.call.value.ReadCall? <==> Looks(r, BeforePut) && FoundNothing(r, answer))
            && (x.call.Some? && x.call.value.PutCall? <==> ReadAsIntended(r, answer))
            && (x.call.Some? && x.call.value.DeleteCall? <==> Looks(r, BeforeDelete) && FoundMatching(r, answer))
            && (x.call.Some? && x.call.value.CommitCall? <==> Publishes(r) && FoundMatching(r, answer))
  {
    if FoundMatching(r, answer) { AgreesIsEquality(answer.metadata, Expected(r.owned.value.intent, r.profile)); }
  }

  // --- Records -------------------------------------------------------------------------------------------

  /** The run holds a lease it has worked under, and its answer neither leads to another call nor ends it. */
  predicate GivesUp(r: RunState, answer: Answer, now: Time)
    requires Started(r)
  {
    var x := Advance(r, answer, now);
    x.run.owned.Some? && x.call.Some? && x.call.value.RecordCall?
  }

  /** The generation is no longer the current one. */
  predicate Superseded(r: RunState, answer: Answer) {
    (r.pc.AwaitCurrent? && answer == Current(false)) || (r.pc.AwaitCommit? && answer == CommitAnswer(CommitStale))
  }

  /** What is recorded when a run gives up: what it saw decides, and otherwise a retirement stays one. */
  function Verdict(r: RunState, answer: Answer, work: Work): RowState {
    if Looks(r, Observe) && FoundOther(r, answer) then Blocked
    else if work.action == Retire && FoundNothing(r, answer) then Retired
    else if work.action == Retire || Superseded(r, answer) then Retiring
    else Uncertain
  }

  /** The outcome that belongs to a recorded state. */
  function Reported(state: RowState): Outcome {
    match state
    case Blocked => RunBlocked
    case Retired => RunRetired
    case _ => RunPending
  }

  lemma RunsRecord(r: RunState, answer: Answer, now: Time)
    requires PcFitsAction(r) && !r.aborted && (r.owned.Some? ==> !r.pc.AwaitClaim?) && GivesUp(r, answer, now)
    ensures var x := Advance(r, answer, now);
            && x.call == Some(RecordCall(x.run.owned.value, Verdict(r, answer, x.run.owned.value), now + r.retryMs))
            && (x.run.pc.AwaitRecord? ==> x.run.pc.success == Reported(x.run.pc.state))
  {
  }

  // --- Endings ---------------------------------------------------------------------------------------------

  /** How a run ends that the deadline has not reached: exactly for these answers, with these outcomes. */
  function Ending(r: RunState, answer: Answer, now: Time): Option<Outcome> {
    match r.pc
    case AwaitClaim =>
      if !answer.Claimed? then Some(RunPending)
      else if answer.work == None then Some(IdleRun)
      else if answer.work.value.intent.id != r.id then Some(RunFailed)
      else if answer.work.value.leaseUntil <= now then Some(RunLost)
      else None
    case AwaitCommit =>
      if answer == CommitAnswer(CommitReady) then Some(RunReady)
      else if answer == CommitAnswer(CommitLost) then Some(RunLost)
      else None
    case AwaitRecord(_, success) =>
      if answer == Recorded(true) then Some(success) else if answer == Recorded(false) then Some(RunLost) else None
    case AwaitErrorRecord => Some(RunPending)
    case Finished(outcome) => Some(outcome)
    case _ => None
  }

  lemma RunsEndIff(r: RunState, answer: Answer, now: Time)
    requires PcFitsAction(r) && (r.owned.Some? ==> !r.pc.AwaitClaim?)
    ensures var x := Advance(r, answer, now);
            && (!r.aborted ==> (x.run.pc.Finished? <==> Ending(r, answer, now).Some?))
            && (!r.aborted && x.run.pc.Finished? ==> Some(x.run.pc.outcome) == Ending(r, answer, now))
            && (r.aborted && !r.pc.Finished? ==> x.run.pc == Finished(RunPending) && x.call.None?)
            && (x.run.pc.Finished? <==> x.call.None?)
            && (r.aborted ==> !ProvesMatching(r, answer) && !ProvesAbsent(r, answer))
  {
  }

  // --- What is reported is so ------------------------------------------------------------------------------

  /** The run is where its lease allows, and will report what it records. */
  predicate RunFits(r: RunState) {
    && PcFitsAction(r) && (r.owned.Some? ==> !r.pc.AwaitClaim?)
    && (r.pc.AwaitRecord? ==> r.pc.success == Reported(r.pc.state))
  }

  predicate RunsFit(w: World) {
    forall p <- w.runs :: RunFits(w.runs[p])
  }

  lemma AdvanceFits(r: RunState, answer: Answer, now: Time)
    requires RunFits(r)
    ensures RunFits(Advance(r, answer, now).run)
  {
    ReactionFitsAction(r, answer, now);
    RunsEndIff(r, answer, now);
    if !r.aborted && GivesUp(r, answer, now) { RunsRecord(r, answer, now); }
  }

  lemma ReactKeepsFit(w: World, p: RunId, answer: Answer, now: Time)
    requires RunsFit(w) && p in w.runs
    ensures RunsFit(React(w, p, answer, now))
  {
    AdvanceFits(w.runs[p], answer, now);
  }

  lemma EffectKeepsRuns(w: World, call: Call)
    ensures Effect(w, call).runs == w.runs
  {
  }

  lemma StepKeepsFit(w: World, step: Step)
    requires RunsFit(w) && Enabled(w, step)
    ensures RunsFit(Apply(w, step))
  {
    match step
    case Respond(p, call, answer, now) =>
      EffectKeepsRuns(w, call);
      ReactKeepsFit(Effect(w, call), p, answer, now);
    case Fail(p, now) => ReactKeepsFit(w, p, Threw, now);
    case Land(call) => EffectKeepsRuns(w, call);
    case _ =>
  }

  lemma {:induction false} RunKeepsFit(w: World, steps: seq<Step>)
    requires RunsFit(w) && Admissible(w, steps)
    ensures RunsFit(RunSteps(w, steps))
    decreases |steps|
  {
    if |steps| > 0 {
      StepKeepsFit(w, steps[0]);
      RunKeepsFit(Apply(w, steps[0]), steps[1..]);
    }
  }

  /** The row of the run's intent is in this state. */
  predicate RowIs(w: World, r: RunState, state: RowState) {
    r.owned.Some? && r.owned.value.intent.id in w.rows && w.rows[r.owned.value.intent.id].state == state
  }

  /** The report of a run is true of the repository at that moment. */
  predicate ReportHolds(w: World, w': World, r: RunState, call: Call) {
    match r.pc
    case Finished(RunReady) => RowIs(w', r, Ready) && w'.rows[r.owned.value.intent.id].readyBy == r.owned
    case Finished(RunRetired) => RowIs(w', r, Retired) && w'.rows[r.owned.value.intent.id].retiredBy == r.owned
    case Finished(RunBlocked) => RowIs(w', r, Blocked)
    case Finished(RunLost) =>
      call.ClaimCall?
      || (r.owned.Some? && (Owned(w.rows, r.owned.value) ==>
            call.CommitCall? && w.rows[r.owned.value.intent.id].leaseUntil <= call.now))
    case Finished(IdleRun) => call.ClaimCall? && (r.id in w.rows ==> !Claimable(w.rows[r.id], call.now))
    case Finished(RunFailed) => false
    case _ => true
  }

  lemma ClaimReportIsTrue(w: World, w': World, r: RunState, call: Call, answer: Answer, now: Time)
    requires Inv(w) && RunFits(r) && r.pc.AwaitClaim? && Waits(r, call) && Answers(w, call, answer)
    ensures ReportHolds(w, w', Advance(r, answer, now).run, call)
  {
    RunsEndIff(r, answer, now);
    if r.id in w.rows { assert RowOk(w, r.id); }
  }

  lemma CommitReportIsTrue(w: World, w': World, r: RunState, call: Call, answer: Answer, now: Time)
    requires RunFits(r) && r.pc.AwaitCommit? && Waits(r, call) && Answers(w, call, answer)
    requires w'.rows == Effect(w, call).rows
    ensures ReportHolds(w, w', Advance(r, answer, now).run, call)
  {
    RunsEndIff(r, answer, now);
  }

  lemma RecordReportIsTrue(w: World, w': World, r: RunState, call: Call, answer: Answer, now: Time)
    requires RunFits(r) && r.pc.AwaitRecord? && Waits(r, call) && Answers(w, call, answer)
    requires w'.rows == Effect(w, call).rows
    ensures ReportHolds(w, w', Advance(r, answer, now).run, call)
  {
    RunsEndIff(r, answer, now);
  }

  lemma ReportIsTrue(w: World, w': World, r: RunState, call: Call, answer: Answer, now: Time)
    requires Inv(w) && RunFits(r) && Waits(r, call) && Answers(w, call, answer) && w'.rows == Effect(w, call).rows
    ensures ReportHolds(w, w', Advance(r, answer, now).run, call)
  {
    match r.pc
    case AwaitClaim => ClaimReportIsTrue(w, w', r, call, answer, now);
    case AwaitCommit => CommitReportIsTrue(w, w', r, call, answer, now);
    case AwaitRecord(_, _) => RecordReportIsTrue(w, w', r, call, answer, now);
    case _ => RunsEndIff(r, answer, now);
  }

  /**
   In every execution a run that ends with an answer reports the truth: ready, retired and blocked rows are
   so by its own lease, a lost lease is no longer its own or has run out, and an idle run found nothing to claim.
   */
  lemma ReportsAreTrue(w0: World, steps: seq<Step>, p: RunId, call: Call, answer: Answer, now: Time)
    requires Init(w0) && Admissible(w0, steps) && Enabled(RunSteps(w0, steps), Respond(p, call, answer, now))
    ensures var w := RunSteps(w0, steps);
            var w' := Apply(w, Respond(p, call, answer, now));
            p in w'.runs && ReportHolds(w, w', w'.runs[p], call)
  {
    var w := RunSteps(w0, steps);
    RunKeepsFit(w0, steps);
    RunKeepsInv(w0, steps);
    ReportIsTrue(w, Apply(w, Respond(p, call, answer, now)), w.runs[p], call, answer, now);
  }
}
