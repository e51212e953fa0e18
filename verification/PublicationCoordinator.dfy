/**
 One `run` of the publication coordinator, call by call, together with the object protocol below it.

 A run is a program counter that waits for one external answer at a time. `Advance` gives the
 code's reaction to an answer: the next program counter and the next call, if it makes one. The
 deadline signal may fire at any moment. Hashes are taken to be collision-free, so a descriptor is
 the pair it hashes and a target key is the pair it is derived from.
 */
module PublicationCoordinator {
  import opened Wrappers

  type IntentId = nat
  type Token = nat
  type Time = int

  datatype Binding = Binding(logical: nat, generation: nat)
  datatype Source = Source(version: nat, sha256: nat, size: nat, contentType: nat)
  datatype Descriptor = Descriptor(binding: Binding, source: Source)
  datatype ObjectKey = ObjectKey(binding: Binding, sha256: nat)

  datatype Intent = Intent(id: IntentId, binding: Binding, source: Source) {
    function Target(): ObjectKey { ObjectKey(binding, source.sha256) }
    function DescriptorHash(): Descriptor { Descriptor(binding, source) }
  }

  datatype Metadata = Metadata(
    descriptorHash: Descriptor, sha256: nat, sourceVersion: nat, size: nat, contentType: nat, deliveryProfileId: nat)

  function Expected(intent: Intent, profile: nat): Metadata {
    Metadata(intent.DescriptorHash(), intent.source.sha256, intent.source.version,
             intent.source.size, intent.source.contentType, profile)
  }

  /** The field-by-field comparison of a stored object with the expected metadata. */
  predicate Agrees(a: Metadata, b: Metadata) {
    && a.descriptorHash == b.descriptorHash && a.sha256 == b.sha256 && a.sourceVersion == b.sourceVersion
    && a.size == b.size && a.contentType == b.contentType && a.deliveryProfileId == b.deliveryProfileId
  }

  datatype Action = Publish | Retire
  datatype RowState = Pending | Uncertain | Ready | Retiring | Retired | Blocked
  datatype Work = Work(intent: Intent, token: Token, revision: nat, leaseUntil: Time, action: Action)
  datatype Outcome = IdleRun | RunReady | RunPending | RunRetired | RunBlocked | RunLost | RunFailed

  datatype Call =
    | ClaimCall(id: IntentId, token: Token, now: Time, leaseUntil: Time)
    | IsCurrentCall(work: Work)
    | HeadCall(work: Work)
    | ReadCall(work: Work)
    | PutCall(work: Work, metadata: Metadata)
    | DeleteCall(work: Work)
    | CommitCall(work: Work, now: Time)
    | RecordCall(work: Work, state: RowState, nextAttemptAt: Time)

  datatype CommitResult = CommitReady | CommitStale | CommitLost | CommitGarbage

  datatype Answer =
    | Threw
    | Claimed(work: Option<Work>)
    | Current(yes: bool)
    | HeadUnknown
    | HeadAbsent
    | HeadFound(metadata: Metadata)
    | SourceRead(version: nat, size: nat, sha256: nat)
    | Acknowledged(yes: bool)
    | CommitAnswer(result: CommitResult)
    | Recorded(yes: bool)

  /** Where an object lookup sits: the coordinator's own, or one inside `publish` or `removeExact`. */
  datatype Lookup = Observe | BeforePut | AfterPut | BeforeDelete | AfterDelete

  datatype Pc =
    | AwaitClaim
    | AwaitCurrent(preflight: bool)
    | AwaitHead(lookup: Lookup)
    | AwaitRead
    | AwaitPut
    | AwaitDelete
    | AwaitCommit
    | AwaitRecord(state: RowState, success: Outcome)
    | AwaitErrorRecord
    | Finished(outcome: Outcome)

  datatype RunState = RunState(
    id: IntentId, token: Token, claimedAt: Time, leaseUntil: Time, profile: nat, maxBytes: nat, retryMs: nat,
    owned: Option<Work>, aborted: bool, pc: Pc)

  datatype Reaction = Reaction(run: RunState, call: Option<Call>)

  /** A fired signal has already rejected the awaited promise, so the caller got `pending`. */
  function Finish(r: RunState, outcome: Outcome): Reaction {
    Reaction(r.(pc := Finished(if r.aborted then RunPending else outcome)), None)
  }

  /** `within`: a fired signal rejects before the call is made, and the error path then only returns. */
  function Within(r: RunState, pc: Pc, call: Call): Reaction {
    if r.aborted then Finish(r, RunPending) else Reaction(r.(pc := pc), Some(call))
  }

  /** `record(state, code)` followed by the choice between the outcome and `lost`. */
  function RecordThen(r: RunState, state: RowState, success: Outcome, now: Time): Reaction
    requires r.owned.Some?
  {
    Within(r, AwaitRecord(state, success), RecordCall(r.owned.value, state, now + r.retryMs))
  }

  /** The `catch` block. */
  function OnError(r: RunState, now: Time): Reaction {
    if r.owned.Some? && !r.aborted then
      Within(r, AwaitErrorRecord,
             RecordCall(r.owned.value, if r.owned.value.action.Retire? then Retiring else Uncertain, now + r.retryMs))
    else Finish(r, RunPending)
  }

  /** `expected(intent)` as far as it can still fail for a verified intent: the object is too large. */
  predicate ExpectedOk(r: RunState, intent: Intent) {
    1 <= intent.source.size <= r.maxBytes
  }

  datatype Inspection = SawMatching | SawAbsent | SawUnknown | SawConflict

  function Inspected(r: RunState, answer: Answer): Inspection
    requires r.owned.Some?
  {
    if r.aborted then SawUnknown
    else
      match answer
      case HeadAbsent => SawAbsent
      case HeadFound(m) => if Agrees(m, Expected(r.owned.value.intent, r.profile)) then SawMatching else SawConflict
      case _ => SawUnknown
  }

  /** `inspect`, also as the first step of `publish` and `removeExact`: it checks the signal itself. */
  function StartInspect(r: RunState, lookup: Lookup, now: Time): Reaction
    requires r.owned.Some?
  {
    if !ExpectedOk(r, r.owned.value.intent) then OnError(r, now)
    else if r.aborted then Finish(r, RunPending)
    else Reaction(r.(pc := AwaitHead(lookup)), Some(HeadCall(r.owned.value)))
  }

  function Acknowledge(r: RunState, now: Time): Reaction
    requires r.owned.Some?
  {
    Within(r, AwaitCommit, CommitCall(r.owned.value, now))
  }

  function OnClaimed(r: RunState, work: Option<Work>, now: Time): Reaction {
    if work.None? then Finish(r, IdleRun)
    else if work.value.intent.id != r.id then Finish(r, RunFailed)
    else
      var o := r.(owned := work);
      if work.value.leaseUntil <= now then Finish(o, RunLost)
      else if work.value.action.Publish? then Within(o, AwaitCurrent(true), IsCurrentCall(work.value))
      else if o.aborted then Finish(o, RunPending)
      else StartInspect(o, Observe, now)
  }

  function OnCurrent(r: RunState, preflight: bool, yes: bool, now: Time): Reaction
    requires r.owned.Some?
  {
    if !yes then RecordThen(r, Retiring, RunPending, now)
    else StartInspect(r, if preflight then Observe else BeforePut, now)
  }

  function OnObserved(r: RunState, seen: Inspection, now: Time): Reaction
    requires r.owned.Some?
  {
    match seen
    case SawConflict => RecordThen(r, Blocked, RunBlocked, now)
    case SawUnknown => RecordThen(r, if r.owned.value.action.Retire? then Retiring else Uncertain, RunPending, now)
    case SawMatching => if r.owned.value.action.Retire? then StartInspect(r, BeforeDelete, now) else Acknowledge(r, now)
    case SawAbsent =>
      if r.owned.value.action.Retire? then RecordThen(r, Retired, RunRetired, now)
      else Within(r, AwaitCurrent(false), IsCurrentCall(r.owned.value))
  }

  /** Answers to the lookups inside `publish` and `removeExact`. */
  function OnInnerHead(r: RunState, lookup: Lookup, seen: Inspection, now: Time): Reaction
    requires r.owned.Some? && !lookup.Observe?
  {
    match lookup
    case BeforePut =>
      if seen.SawMatching? then Acknowledge(r, now)
      else if !seen.SawAbsent? || r.aborted then RecordThen(r, Uncertain, RunPending, now)
      else Reaction(r.(pc := AwaitRead), Some(ReadCall(r.owned.value)))
    case AfterPut => if seen.SawMatching? then Acknowledge(r, now) else RecordThen(r, Uncertain, RunPending, now)
    case BeforeDelete =>
      if seen.SawAbsent? then RecordThen(r, Retired, RunRetired, now)
      else if !seen.SawMatching? || r.aborted then RecordThen(r, Retiring, RunPending, now)
      else Reaction(r.(pc := AwaitDelete), Some(DeleteCall(r.owned.value)))
    case AfterDelete =>
      if seen.SawAbsent? then RecordThen(r, Retired, RunRetired, now) else RecordThen(r, Retiring, RunPending, now)
  }

  function OnRead(r: RunState, answer: Answer, now: Time): Reaction
    requires r.owned.Some?
  {
    var source := r.owned.value.intent.source;
    if answer.SourceRead? then
      if r.aborted then RecordThen(r, Uncertain, RunPending, now)
      else if answer.version != source.version || answer.size != source.size || answer.size > r.maxBytes
              || answer.sha256 != source.sha256 then OnError(r, now)
      else Reaction(r.(pc := AwaitPut), Some(PutCall(r.owned.value, Expected(r.owned.value.intent, r.profile))))
    else OnError(r, now)
  }

  function OnCommit(r: RunState, result: CommitResult, now: Time): Reaction
    requires r.owned.Some?
  {
    match result
    case CommitReady => Finish(r, RunReady)
    case CommitLost => Finish(r, RunLost)
    case CommitStale => RecordThen(r, Retiring, RunPending, now)
    case CommitGarbage => OnError(r, now)
  }

  /** The code's reaction to one answer, at clock time `now`. */
  function Advance(r: RunState, answer: Answer, now: Time): Reaction
    requires !r.pc.AwaitClaim? && !r.pc.Finished? ==> r.owned.Some?
  {
    match r.pc
    case AwaitClaim => if answer.Claimed? then OnClaimed(r, answer.work, now) else Finish(r, RunPending)
    case AwaitCurrent(preflight) =>
      if answer.Current? then OnCurrent(r, preflight, answer.yes, now) else OnError(r, now)
    case AwaitHead(lookup) =>
      var seen := Inspected(r, answer);
      if lookup.Observe? then OnObserved(r, seen, now) else OnInnerHead(r, lookup, seen, now)
    case AwaitRead => OnRead(r, answer, now)
    case AwaitPut =>
      if answer == Acknowledged(true) && !r.aborted then StartInspect(r, AfterPut, now)
      else RecordThen(r, Uncertain, RunPending, now)
    case AwaitDelete =>
      if answer == Acknowledged(true) && !r.aborted then StartInspect(r, AfterDelete, now)
      else RecordThen(r, Retiring, RunPending, now)
    case AwaitCommit => if answer.CommitAnswer? then OnCommit(r, answer.result, now) else OnError(r, now)
    case AwaitRecord(_, success) =>
      if answer.Recorded? then Finish(r, if answer.yes then success else RunLost) else OnError(r, now)
    case AwaitErrorRecord => Finish(r, RunPending)
    case Finished(_) => Reaction(r, None)
  }

  predicate Started(r: RunState) {
    !r.pc.AwaitClaim? && !r.pc.Finished? ==> r.owned.Some?
  }

  /** Once the deadline fired, no answer makes the run start another call, on any path. */
  lemma NoCallAfterDeadline(r: RunState, answer: Answer, now: Time)
    requires Started(r) && r.aborted
    ensures Advance(r, answer, now).call.None? && Advance(r, answer, now).run.aborted
  {
  }

  // --- What a run may still do, read off its program counter ---------------------------

  /** Outcomes a lease of this action may record: a publish never reports retirement, a retire never reverts. */
  predicate MayRecord(action: Action, state: RowState) {
    match action
    case Publish => state.Uncertain? || state.Retiring? || state.Blocked?
    case Retire => state.Retiring? || state.Retired? || state.Blocked?
  }

  predicate PcFitsAction(r: RunState) {
    && Started(r)
    && (r.owned.Some? ==>
          match r.pc
          case AwaitCurrent(_) => r.owned.value.action.Publish?
          case AwaitHead(BeforePut) => r.owned.value.action.Publish?
          case AwaitHead(AfterPut) => r.owned.value.action.Publish?
          case AwaitHead(BeforeDelete) => r.owned.value.action.Retire?
          case AwaitHead(AfterDelete) => r.owned.value.action.Retire?
          case AwaitRead => r.owned.value.action.Publish?
          case AwaitPut => r.owned.value.action.Publish?
          case AwaitCommit => r.owned.value.action.Publish?
          case AwaitDelete => r.owned.value.action.Retire?
          case _ => true)
  }

  /** The calls a reaction may contain, for the lease it holds. */
  predicate CallFitsAction(call: Call, work: Work) {
    match call
    case ClaimCall(_, _, _, _) => false
    case PutCall(w, m) => w == work && work.action.Publish?
    case DeleteCall(w) => w == work && work.action.Retire?
    case CommitCall(w, _) => w == work && work.action.Publish?
    case RecordCall(w, state, _) => w == work && MayRecord(work.action, state)
    case _ => call.work == work
  }

  /** A reaction that stays within what its lease may do. */
  predicate FitsAction(x: Reaction) {
    && PcFitsAction(x.run) && (x.run.owned.Some? ==> !x.run.pc.AwaitClaim?)
    && (x.call.Some? ==> x.run.owned.Some? && !x.run.pc.Finished? && CallFitsAction(x.call.value, x.run.owned.value))
  }

  lemma LookupFitsAction(r: RunState, answer: Answer, now: Time)
    requires PcFitsAction(r) && r.pc.AwaitHead?
    ensures FitsAction(Advance(r, answer, now))
  {
  }

  /** A retire lease never PUTs or commits, a publish lease never deletes or reports retirement. */
  lemma ReactionFitsAction(r: RunState, answer: Answer, now: Time)
    requires PcFitsAction(r)
    requires r.owned.Some? ==> !r.pc.AwaitClaim?
    ensures FitsAction(Advance(r, answer, now))
  {
    if r.pc.AwaitHead? { LookupFitsAction(r, answer, now); }
  }

  /**
   What an answer proves about the target: the object was found exactly as expected, or not at all.
   */
  predicate ProvesMatching(r: RunState, answer: Answer) {
    r.owned.Some? && r.pc.AwaitHead? && Inspected(r, answer).SawMatching?
  }

  predicate ProvesAbsent(r: RunState, answer: Answer) {
    r.owned.Some? && r.pc.AwaitHead? && Inspected(r, answer).SawAbsent?
  }

  /** The run has answered `retired`, or will if its pending record succeeds. */
  predicate ReportsRetired(pc: Pc) {
    pc == Finished(RunRetired) || (pc.AwaitRecord? && pc.success.RunRetired?)
  }

  lemma AgreesIsEquality(a: Metadata, b: Metadata)
    ensures Agrees(a, b) <==> a == b
  {
  }

  /** `ready` is only ever committed, and `retired` only ever recorded, on the strength of a lookup just answered. */
  lemma CallsRestOnEvidence(r: RunState, answer: Answer, now: Time)
    requires PcFitsAction(r)
    ensures var x := Advance(r, answer, now);
            && (x.call.Some? && x.call.value.CommitCall? ==> ProvesMatching(r, answer))
            && (x.call.Some? && x.call.value.RecordCall? && x.call.value.state.Retired? ==> ProvesAbsent(r, answer))
            && (ReportsRetired(x.run.pc) ==>
                ReportsRetired(r.pc) || (ProvesAbsent(r, answer) && x.run.owned == r.owned))
            && (x.call.Some? && x.call.value.PutCall? ==>
                x.call.value.metadata == Expected(r.owned.value.intent, r.profile))
  {
  }
}
