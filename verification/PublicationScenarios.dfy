/**
 Runs that show publication to be live enough for its safety to mean something: every intent can be
 published, and every generation, published or not, can be retired.
 */
module PublicationScenarios {
  import opened Wrappers
  import opened PublicationCoordinator
  import opened PublicationProtocol

  // --- Playing one step ---------------------------------------------------------------------

  /** A set of worlds that no step leaves, such as the reachable ones. */
  ghost predicate Closed(r: World -> bool) {
    forall w, step {:trigger Apply(w, step)} :: r(w) && Enabled(w, step) ==> r(Apply(w, step))
  }

  lemma ReachableIsClosed()
    ensures Closed(w => Reachable(w))
  {
    forall w, step | Reachable(w) && Enabled(w, step) ensures Reachable(Apply(w, step)) {
      StepIsReachable(w, step);
    }
  }

  /** Some continuation of `w` ends in `w'`. */
  ghost predicate Reaches(w: World, w': World) {
    exists steps :: Admissible(w, steps) && RunSteps(w, steps) == w'
  }

  lemma ReachesIsClosed(w: World)
    ensures Closed(x => Reaches(w, x)) && Reaches(w, w)
  {
    assert Admissible(w, []) && RunSteps(w, []) == w;
    forall x, step | Reaches(w, x) && Enabled(x, step) ensures Reaches(w, Apply(x, step)) {
      var steps :| Admissible(w, steps) && RunSteps(w, steps) == x;
      RunExtends(w, steps, step);
    }
  }

  const NOWHERE: World := World(map[], map[], map[], map[], {}, {})

  /** A run of intent `id` that draws this token at time 0 and reads objects up to `maxBytes`. */
  function NewRun(id: IntentId, token: Token, maxBytes: nat): RunState {
    RunState(id, token, 0, 1000, 0, maxBytes, 1, None, false, AwaitClaim)
  }

  function RunAt(work: Work, pc: Pc): RunState {
    NewRun(work.intent.id, work.token, work.intent.source.size).(owned := Some(work), pc := pc)
  }

  /** The call of run `p` takes effect and is answered at time 0. */
  lemma Answered(r: World -> bool, w: World, p: RunId, call: Call, answer: Answer) returns (w': World)
    requires Closed(r) && r(w) && p in w.runs && Enabled(w, Respond(p, call, answer, 0))
    ensures r(w') && w'.rows == Effect(w, call).rows && w'.objects == Effect(w, call).objects && w'.current == w.current
    ensures var x := Advance(w.runs[p], answer, 0);
            w'.runs == w.runs[p := x.run] && (x.call.Some? ==> x.call.value in w'.issued)
  {
    w' := Apply(w, Respond(p, call, answer, 0));
  }

  /** The run named like the lease's token holds it and waits at `pc` for this call; the row is as the claim left it. */
  predicate Along(w: World, work: Work, pc: Pc, call: Call) {
    && work.token in w.runs && w.runs[work.token] == RunAt(work, pc) && call in w.issued
    && Owned(w.rows, work) && w.rows[work.intent.id].intent == work.intent
    && w.rows[work.intent.id].leaseUntil == 1000
  }

  /** A call without effect is answered, and the run waits for its next one. */
  lemma Advanced(r: World -> bool, w: World, work: Work, pc: Pc, call: Call, answer: Answer, next: Pc, follow: Call)
    returns (w': World)
    requires Closed(r) && r(w) && Along(w, work, pc, call) && Enabled(w, Respond(work.token, call, answer, 0))
    requires call.IsCurrentCall? || call.HeadCall? || call.ReadCall?
    requires Advance(RunAt(work, pc), answer, 0) == Reaction(RunAt(work, next), Some(follow))
    ensures r(w') && Along(w', work, next, follow) && w'.runs.Keys == w.runs.Keys
    ensures w'.rows == w.rows && w'.objects == w.objects && w'.current == w.current
  {
    w' := Answered(r, w, work.token, call, answer);
  }

  // --- Publishing -----------------------------------------------------------------------------

  function PublishWork(intent: Intent): Work {
    Work(intent, 0, 1, 1000, Publish)
  }

  /** The intent is staged, current, and claimed by run 0; nothing is stored. */
  lemma ClaimedToPublish(r: World -> bool, w0: World, intent: Intent) returns (w: World)
    requires Closed(r) && r(w0) && w0 == NOWHERE && intent.source.size >= 1
    ensures r(w) && Along(w, PublishWork(intent), AwaitCurrent(true), IsCurrentCall(PublishWork(intent)))
    ensures w.objects == map[] && IsCurrentBinding(w, intent.binding) && w.runs.Keys == {0}
  {
    w := Apply(w0, Assign(intent.binding.logical, intent.binding.generation));
    w := Apply(w, Stage(intent));
    assert w.rows == map[intent.id := Row(intent, Pending, None, 0, 0, 0, None, None)];
    w := Apply(w, StartRun(0, NewRun(intent.id, 0, intent.source.size)));
    w := Answered(r, w, 0, ClaimCall(intent.id, 0, 0, 1000), Answer.Claimed(Some(PublishWork(intent))));
  }

  /** The target is seen absent twice and the generation is still current. */
  lemma SeenAbsent(r: World -> bool, w0: World, intent: Intent) returns (w: World)
    requires Closed(r) && r(w0) && intent.source.size >= 1 && w0.objects == map[]
    requires Along(w0, PublishWork(intent), AwaitCurrent(true), IsCurrentCall(PublishWork(intent)))
    ensures r(w) && Along(w, PublishWork(intent), AwaitRead, ReadCall(PublishWork(intent)))
    ensures w.objects == map[] && w.current == w0.current && w.runs.Keys == w0.runs.Keys
  {
    var work := PublishWork(intent);
    w := Advanced(r, w0, work, AwaitCurrent(true), IsCurrentCall(work), Current(true), AwaitHead(Observe),
        HeadCall(work));
    w := Advanced(r, w, work, AwaitHead(Observe), HeadCall(work), HeadAbsent, AwaitCurrent(false), IsCurrentCall(work));
    w := Advanced(r, w, work, AwaitCurrent(false), IsCurrentCall(work), Current(true), AwaitHead(BeforePut),
        HeadCall(work));
    w := Advanced(r, w, work, AwaitHead(BeforePut), HeadCall(work), HeadAbsent, AwaitRead, ReadCall(work));
  }

  /** The source is read and stored, and the stored object is seen. */
  lemma StoredAndSeen(r: World -> bool, w0: World, intent: Intent) returns (w: World)
    requires Closed(r) && r(w0) && intent.source.size >= 1 && w0.objects == map[]
    requires Along(w0, PublishWork(intent), AwaitRead, ReadCall(PublishWork(intent)))
    ensures r(w) && Along(w, PublishWork(intent), AwaitCommit, CommitCall(PublishWork(intent), 0))
    ensures w.current == w0.current && w.runs.Keys == w0.runs.Keys
    ensures w.objects == map[intent.Target() := Expected(intent, 0)]
  {
    var work, source, stored := PublishWork(intent), intent.source, Expected(intent, 0);
    w := Advanced(r, w0, work, AwaitRead, ReadCall(work), SourceRead(source.version, source.size, source.sha256),
                  AwaitPut, PutCall(work, stored));
    w := Answered(r, w, 0, PutCall(work, stored), Acknowledged(true));
    w := Advanced(r, w, work, AwaitHead(AfterPut), HeadCall(work), HeadFound(stored), AwaitCommit, CommitCall(work, 0));
  }

  /** Every intent with a readable source can be published: a run stores it and its URL is projected. */
  lemma IntentsCanBePublished(intent: Intent) returns (w: World)
    requires intent.source.size >= 1
    ensures Reachable(w) && 0 in w.runs && w.runs[0].pc == Finished(RunReady)
    ensures intent.id in w.rows && w.rows[intent.id].intent == intent && w.rows[intent.id].state.Ready?
    ensures Project(w, intent.binding, intent.id) == Some(intent.Target())
  {
    ReachableIsClosed();
    InitIsReachable(NOWHERE);
    w := Published(x => Reachable(x), NOWHERE, intent);
  }

  /** The intent has been published by run 0, the only one so far. */
  predicate IsPublished(w: World, intent: Intent) {
    && w.runs.Keys == {0} && w.runs[0].pc == Finished(RunReady)
    && intent.id in w.rows && w.rows[intent.id].intent == intent && w.rows[intent.id].state.Ready?
    && w.rows[intent.id].revision == 2
    && w.objects == map[intent.Target() := Expected(intent, 0)] && IsCurrentBinding(w, intent.binding)
  }

  lemma Published(r: World -> bool, w0: World, intent: Intent) returns (w: World)
    requires Closed(r) && r(w0) && w0 == NOWHERE && intent.source.size >= 1
    ensures r(w) && IsPublished(w, intent)
  {
    w := ClaimedToPublish(r, w0, intent);
    w := SeenAbsent(r, w, intent);
    w := StoredAndSeen(r, w, intent);
    w := Answered(r, w, 0, CommitCall(PublishWork(intent), 0), CommitAnswer(CommitReady));
  }

  // --- Retiring ---------------------------------------------------------------------------------

  /** The lease of the run with this token, one revision after the retirement that made it due. */
  function RetireWork(intent: Intent, token: Token, revision: nat): Work {
    Work(intent, token, revision, 1000, Retire)
  }

  /** Run `p` claims a generation that is retiring. */
  lemma ClaimedToRetire(r: World -> bool, w0: World, intent: Intent, p: RunId, revision: nat) returns (w: World)
    requires Closed(r) && r(w0) && p !in w0.runs && intent.source.size >= 1 && intent.id in w0.rows
    requires w0.rows[intent.id] == RetireRow(w0.rows[intent.id].(revision := revision))
    requires w0.rows[intent.id].intent == intent
    ensures var work := RetireWork(intent, p, revision + 2);
            r(w) && Along(w, work, AwaitHead(Observe), HeadCall(work)) && w.objects == w0.objects
  {
    w := Apply(w0, StartRun(p, NewRun(intent.id, p, intent.source.size)));
    w := Answered(r, w, p, ClaimCall(intent.id, p, 0, 1000), Answer.Claimed(Some(RetireWork(intent, p, revision + 2))));
  }

  /** It sees the target absent and records that. */
  lemma AbsenceRecorded(r: World -> bool, w0: World, work: Work, lookup: Lookup) returns (w: World)
    requires Closed(r) && r(w0) && work.action.Retire? && work.intent.Target() !in w0.objects
    requires lookup.Observe? || lookup.AfterDelete?
    requires 1 <= work.intent.source.size && Along(w0, work, AwaitHead(lookup), HeadCall(work))
    ensures r(w) && work.token in w.runs && w.runs[work.token].pc == Finished(RunRetired) && w.objects == w0.objects
    ensures var id := work.intent.id; id in w.rows && w.rows[id].intent == work.intent && w.rows[id].state.Retired?
  {
    w := Answered(r, w0, work.token, HeadCall(work), HeadAbsent);
    w := Answered(r, w, work.token, RecordCall(work, Retired, 1), Recorded(true));
  }

  /** Every staged generation can be retired: a run sees its target absent and records it. */
  lemma GenerationsCanBeRetired(intent: Intent) returns (w: World)
    requires intent.source.size >= 1
    ensures Reachable(w) && 0 in w.runs && w.runs[0].pc == Finished(RunRetired)
    ensures intent.id in w.rows && w.rows[intent.id].intent == intent && w.rows[intent.id].state.Retired?
  {
    ReachableIsClosed();
    InitIsReachable(NOWHERE);
    w := RetiredByRun(x => Reachable(x), NOWHERE, intent);
  }

  lemma RetiredByRun(r: World -> bool, w0: World, intent: Intent) returns (w: World)
    requires Closed(r) && r(w0) && w0 == NOWHERE && intent.source.size >= 1
    ensures r(w) && 0 in w.runs && w.runs[0].pc == Finished(RunRetired)
    ensures intent.id in w.rows && w.rows[intent.id].intent == intent && w.rows[intent.id].state.Retired?
  {
    w := Apply(w0, Stage(intent));
    w := Apply(w, RetireBinding(intent.binding));
    assert w.rows == map[intent.id := Row(intent, Retiring, None, 1, 0, 0, None, None)];
    w := ClaimedToRetire(r, w, intent, 0, 0);
    w := AbsenceRecorded(r, w, RetireWork(intent, 0, 2), Observe);
  }

  // --- Retiring what was published ------------------------------------------------------------------

  /** The stored object is seen, seen again and deleted. */
  lemma ObjectDeleted(r: World -> bool, w0: World, work: Work) returns (w: World)
    requires Closed(r) && r(w0) && work.action.Retire? && 1 <= work.intent.source.size
    requires w0.objects == map[work.intent.Target() := Expected(work.intent, 0)]
    requires Along(w0, work, AwaitHead(Observe), HeadCall(work))
    ensures r(w) && Along(w, work, AwaitHead(AfterDelete), HeadCall(work)) && w.objects == map[]
  {
    var found := HeadFound(Expected(work.intent, 0));
    w := Advanced(r, w0, work, AwaitHead(Observe), HeadCall(work), found, AwaitHead(BeforeDelete), HeadCall(work));
    w := Advanced(r, w, work, AwaitHead(BeforeDelete), HeadCall(work), found, AwaitDelete, DeleteCall(work));
    w := Answered(r, w, work.token, DeleteCall(work), Acknowledged(true));
  }

  /** Every published generation can be retired again: its row is retired, and its object is gone. */
  lemma PublishedGenerationsCanBeRetired(intent: Intent) returns (w: World, w': World)
    requires intent.source.size >= 1
    ensures Reachable(w) && intent.id in w.rows && w.rows[intent.id].intent == intent
    ensures Project(w, intent.binding, intent.id) == Some(intent.Target()) && intent.Target() in w.objects
    ensures Reaches(w, w') && intent.Target() !in w'.objects
    ensures 1 in w'.runs && w'.runs[1].pc == Finished(RunRetired)
    ensures intent.id in w'.rows && w'.rows[intent.id].intent == intent && w'.rows[intent.id].state.Retired?
  {
    ReachableIsClosed();
    InitIsReachable(NOWHERE);
    w := Published(x => Reachable(x), NOWHERE, intent);
    ReachesIsClosed(w);
    w' := RetiredAgain(x => Reaches(w, x), w, intent);
  }

  lemma RetiredAgain(r: World -> bool, w0: World, intent: Intent) returns (w: World)
    requires Closed(r) && r(w0) && intent.source.size >= 1 && IsPublished(w0, intent)
    ensures r(w) && intent.Target() !in w.objects && 1 in w.runs && w.runs[1].pc == Finished(RunRetired)
    ensures intent.id in w.rows && w.rows[intent.id].intent == intent && w.rows[intent.id].state.Retired?
  {
    w := Apply(w0, RetireBinding(intent.binding));
    w := ClaimedToRetire(r, w, intent, 1, 2);
    w := ObjectDeleted(r, w, RetireWork(intent, 1, 4));
    w := AbsenceRecorded(r, w, RetireWork(intent, 1, 4), AfterDelete);
  }

  // --- What the environment may do ------------------------------------------------------------------------

  /** Every call that was made may take effect at any later moment, and again. */
  lemma CallsMayLandLate(w: World, call: Call) returns (w': World)
    requires Reachable(w) && call in w.issued
    ensures Reachable(w') && w' == Effect(w, call)
  {
    StepIsReachable(w, Land(call));
    w' := Apply(w, Land(call));
  }

  /** Every run may see its call fail, or be overtaken by its deadline, at any moment. */
  lemma RunsMayFailOrExpire(w: World, p: RunId, now: Time) returns (w': World, w'': World)
    requires Reachable(w) && p in w.runs && Started(w.runs[p]) && !w.runs[p].pc.Finished?
    ensures Reachable(w') && p in w'.runs && w'.runs[p] == Advance(w.runs[p], Threw, now).run && w'.objects == w.objects
    ensures Reachable(w'') && p in w''.runs && w''.runs[p].aborted && w''.rows == w.rows && w''.issued == w.issued
  {
    StepIsReachable(w, Fail(p, now));
    w' := Apply(w, Fail(p, now));
    StepIsReachable(w, Deadline(p));
    w'' := Apply(w, Deadline(p));
  }
}
