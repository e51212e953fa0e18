/**
 Runs that show the job lock to be live enough for its safety to mean something: a job completes, and
 a failed one is taken over.
 */
module JobScenarios {
  import opened Wrappers
  import opened JobOptions
  import opened JobLock

  /** A set of states that no step leaves, such as the reachable ones. */
  ghost predicate Closed(r: State -> bool) {
    forall w, step {:trigger Apply(w, step)} :: r(w) && Enabled(w, step) ==> r(Apply(w, step))
  }

  lemma ReachableIsClosed()
    ensures Closed(w => Reachable(w))
  {
    forall w, step | Reachable(w) && Enabled(w, step) ensures Reachable(Apply(w, step)) {
      StepIsReachable(w, step);
    }
  }

  predicate Accepted(opts: Options) {
    ResolveIdentity(opts).Some? && ResolveLeaseTiming(opts).Some?
  }

  /** The call of process `p` is working under the lease it won. */
  predicate Works(w: State, p: RunId, key: Identity) {
    && p in w.runs && w.runs[p].phase.Working? && w.runs[p].key == key && key in w.rows
    && w.runs[p].lease == Some(w.rows[key].id) && w.rows[key].owner == p && w.rows[key].status.Running?
  }

  /** The first call of a job inserts its row and wins it. */
  lemma FirstCallWorks(r: State -> bool, w0: State, opts: Options) returns (w: State)
    requires Closed(r) && r(w0) && Init(w0) && Accepted(opts)
    ensures r(w) && Works(w, 0, ResolveIdentity(opts).value) && w.runs.Keys == {0} && w.statements.Keys == {0}
    ensures w.replies.Keys == {0} && w.rows.Keys == {ResolveIdentity(opts).value} && w.clock == w0.clock
    ensures w.rows[ResolveIdentity(opts).value].winners == [0]
  {
    w := Apply(w0, Start(0, opts, 0));
    w := Apply(w, Commit(0));
    w := Apply(w, Receive(0, 1));
  }

  function EndOf(succeeds: bool): Change {
    if succeeds then ToSuccess else ToFail
  }

  lemma EndSent(r: State -> bool, w: State, p: RunId, key: Identity, n: StatementId, succeeds: bool)
    returns (w': State)
    requires Closed(r) && r(w) && Works(w, p, key) && n !in w.statements
    ensures var phase := if succeeds then Completing(n) else Failing(n);
            && r(w') && w'.rows == w.rows && w'.replies == w.replies && w'.clock == w.clock
            && w'.runs == w.runs[p := w.runs[p].(phase := phase)]
            && w'.statements == w.statements[n := Statement(p, Mutate(w.rows[key].id, EndOf(succeeds)))]
  {
    w' := Apply(w, if succeeds then WorkReturns(p, n) else WorkThrows(p, n));
  }

  lemma EndReceived(r: State -> bool, w: State, p: RunId, n: StatementId, succeeds: bool) returns (w': State)
    requires Closed(r) && r(w) && p in w.runs && w.runs[p].phase == (if succeeds then Completing(n) else Failing(n))
    requires n in w.replies && w.replies[n].Some? && n + 1 !in w.statements
    ensures r(w') && w' == w.(runs := w.runs[p := w.runs[p].(phase := if succeeds then Returned(n) else Thrown)])
  {
    w' := Apply(w, Receive(p, n + 1));
  }

  /** Its work ends and the statement that says so commits. */
  lemma WorkEnds(r: State -> bool, w: State, p: RunId, key: Identity, n: StatementId, succeeds: bool)
    returns (w': State)
    requires Closed(r) && r(w) && Works(w, p, key) && w.rows.Keys == {key}
    requires n !in w.statements && n + 1 !in w.statements && n !in w.replies
    ensures r(w') && w'.runs.Keys == w.runs.Keys && w'.runs[p].key == key && w'.rows.Keys == {key}
    ensures w'.statements.Keys == w.statements.Keys + {n} && w'.replies.Keys == w.replies.Keys + {n}
    ensures w'.rows[key].status == (if succeeds then Success else Fail)
    ensures w'.runs[p].phase == (if succeeds then Returned(n) else Thrown)
    ensures w'.rows[key].winners == w.rows[key].winners && w'.clock == w.clock
    ensures forall m <- w.statements :: w'.statements[m] == w.statements[m]
    ensures forall m <- w.replies :: w'.replies[m] == w.replies[m]
  {
    w' := EndSent(r, w, p, key, n, succeeds);
    w' := EndCommits(r, w', p, key, n, EndOf(succeeds));
    w' := EndReceived(r, w', p, n, succeeds);
  }

  lemma EndCommits(r: State -> bool, w: State, p: RunId, key: Identity, n: StatementId, change: Change)
    returns (w': State)
    requires Closed(r) && r(w) && w.rows.Keys == {key} && p in w.runs && n in w.statements && n !in w.replies
    requires w.statements[n] == Statement(p, Mutate(w.rows[key].id, change)) && Owns(w.rows[key], w.statements[n])
    ensures r(w') && w'.runs == w.runs && w'.statements == w.statements && w'.rows.Keys == {key}
    ensures w'.rows[key] == Changed(w.rows[key], change, n, w.clock)
    ensures w'.replies == w.replies[n := Some(w.rows[key].id)] && w'.clock == w.clock
  {
    assert key in w.rows && Owns(w.rows[key], w.statements[n]);
    w' := Apply(w, Commit(n));
  }

  /** A later call of a failed job finds the row taken, reclaims it and works. */
  lemma NextCallWorks(r: State -> bool, w: State, opts: Options) returns (w': State)
    requires Closed(r) && r(w) && Accepted(opts) && 1 !in w.runs && w.statements.Keys == {0, 1} == w.replies.Keys
    requires w.rows.Keys == {ResolveIdentity(opts).value} && w.rows[ResolveIdentity(opts).value].status.Fail?
    ensures var key := ResolveIdentity(opts).value;
            && r(w') && Works(w', 1, key) && w'.rows.Keys == {key}
            && w'.rows[key].winners == w.rows[key].winners + [1]
            && w'.statements.Keys == {0, 1, 2, 3} == w'.replies.Keys
  {
    w' := Apply(w, Start(1, opts, 2));
    w' := Apply(w', Commit(2));
    w' := Apply(w', Receive(1, 3));
    w' := Apply(w', Commit(3));
    w' := Apply(w', Receive(1, 4));
  }

  const NOWHERE: State := State(map[], 0, 0, map[], map[], map[])

  /** Every accepted job has a run that returns `acquired: true`. */
  lemma AcceptedJobsCanReturn(opts: Options) returns (w: State)
    requires Accepted(opts)
    ensures Reachable(w) && 0 in w.runs && w.runs[0].phase.Returned?
    ensures w.runs[0].key == ResolveIdentity(opts).value && w.runs[0].key in w.rows
    ensures w.rows[w.runs[0].key].status.Success?
  {
    ReachableIsClosed();
    InitIsReachable(NOWHERE);
    w := FirstCallWorks(x => Reachable(x), NOWHERE, opts);
    w := WorkEnds(x => Reachable(x), w, 0, ResolveIdentity(opts).value, 1, true);
  }

  /** And one in which the first call throws and a second takes the row over and returns. */
  lemma FailedJobsCanBeTakenOver(opts: Options) returns (w: State)
    requires Accepted(opts)
    ensures Reachable(w) && 1 in w.runs && w.runs[1].phase.Returned?
    ensures var key := ResolveIdentity(opts).value;
            key in w.rows && |w.rows[key].winners| == 2 && w.rows[key].winners[1] == 1 && w.rows[key].status.Success?
  {
    ReachableIsClosed();
    InitIsReachable(NOWHERE);
    w := TakenOver(x => Reachable(x), NOWHERE, opts);
  }

  lemma TakenOver(r: State -> bool, w0: State, opts: Options) returns (w: State)
    requires Closed(r) && r(w0) && Init(w0) && Accepted(opts)
    ensures r(w) && 1 in w.runs && w.runs[1].phase.Returned?
    ensures var key := ResolveIdentity(opts).value;
            key in w.rows && w.rows[key].winners == [0, 1] && w.rows[key].status.Success?
  {
    var key := ResolveIdentity(opts).value;
    w := FirstCallWorks(r, w0, opts);
    w := WorkEnds(r, w, 0, key, 1, false);
    w := NextCallWorks(r, w, opts);
    w := WorkEnds(r, w, 1, key, 4, true);
  }

  // --- Heartbeats and the environment -------------------------------------------------------------------

  /** A working call beats after `ms` milliseconds. */
  lemma Beats(r: State -> bool, w: State, p: RunId, key: Identity, n: StatementId, ms: nat) returns (w': State)
    requires Closed(r) && r(w) && Works(w, p, key) && w.rows.Keys == {key} && n !in w.statements && n !in w.replies
    ensures r(w') && Works(w', p, key) && w'.rows.Keys == {key} && w'.clock == w.clock + ms
    ensures w'.statements == w.statements[n := Statement(p, Mutate(w.rows[key].id, Beat))]
    ensures w'.replies == w.replies[n := Some(w.rows[key].id)] && w'.rows[key].modifiedAt == w'.clock
  {
    w' := Apply(w, Tick(ms));
    w' := Apply(w', UseLease(p, Beat, n));
    w' := EndCommits(r, w', p, key, n, Beat);
  }

  lemma BeatsAndReturns(r: State -> bool, w0: State, opts: Options, ms: nat) returns (w: State)
    requires Closed(r) && r(w0) && Init(w0) && Accepted(opts)
    ensures r(w) && 0 in w.runs && w.runs[0].phase.Returned? && w.clock >= w0.clock + 2 * ms
    ensures 1 in w.replies && w.replies[1].Some? && 1 in w.statements && w.statements[1].op.Mutate?
    ensures w.statements[1].op.change.Beat?
  {
    var key := ResolveIdentity(opts).value;
    w := FirstCallWorks(r, w0, opts);
    w := Beats(r, w, 0, key, 1, ms);
    w := Beats(r, w, 0, key, 2, ms);
    w := WorkEnds(r, w, 0, key, 3, true);
  }

  /** A job may work for any time, beat meanwhile with its beats answered, and return. */
  lemma LongJobsCanBeatAndReturn(opts: Options, ms: nat) returns (w: State)
    requires Accepted(opts)
    ensures Reachable(w) && 0 in w.runs && w.runs[0].phase.Returned? && w.clock >= 2 * ms
    ensures 1 in w.statements && w.statements[1].op.Mutate? && w.statements[1].op.change.Beat?
    ensures 1 in w.replies && w.replies[1].Some?
  {
    ReachableIsClosed();
    InitIsReachable(NOWHERE);
    w := BeatsAndReturns(x => Reachable(x), NOWHERE, opts, ms);
  }

  /** Every statement sent may still commit, and every caller may lose its reply. */
  lemma RepliesMayBeLate(w: State, n: StatementId, p: RunId, next: StatementId) returns (w': State, w'': State)
    requires Reachable(w) && n in w.statements && n !in w.replies && w.statements[n].issuer in w.runs
    requires p in w.runs && Awaited(w.runs[p]).Some? && next !in w.statements
    ensures Reachable(w') && n in w'.replies && w'.rows == Execute(w, n).0.rows
    ensures Reachable(w'') && w''.rows == w.rows && w''.replies == w.replies && p in w''.runs
    ensures w''.runs[p].phase.Thrown? || w''.runs[p].phase.Failing?
  {
    StepIsReachable(w, Commit(n));
    w' := Apply(w, Commit(n));
    StepIsReachable(w, LoseReply(p, next));
    w'' := Apply(w, LoseReply(p, next));
  }
}
