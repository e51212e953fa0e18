/**
 Who may work, and what heartbeats are worth, told on committed statements and the database clock alone:
 only winners work, an owner that beats in time keeps its lock, and every beat buys one lease.
 */
module JobHeartbeats {
  import opened Wrappers
  import opened JobOptions
  import opened JobLock
  import opened JobSafety

  // --- Statements of an owner reach its row --------------------------------------------------------

  /** The row of this identity exists and has this id. */
  predicate IdIs(w: State, key: Identity, id: RowId) {
    key in w.rows && w.rows[key].id == id
  }

  /** The row with this id is the one the run asked for, and the run is among its winners. */
  predicate Won(w: State, p: RunId, id: RowId) {
    p in w.runs && IdIs(w, w.runs[p].key, id) && p in w.rows[w.runs[p].key].winners
  }

  /** Ids in replies, leases and statements are those of the rows they speak of, and leases were won. */
  predicate IdsOk(w: State) {
    && (forall n <- w.replies :: ReplyOk(w, n))
    && (forall p <- w.runs :: LeaseOk(w, p))
    && (forall n <- w.statements :: TargetOk(w, n))
  }

  predicate ReplyOk(w: State, n: StatementId)
    requires n in w.replies
  {
    n in w.statements && w.statements[n].issuer in w.runs
    && (!w.statements[n].op.Mutate? && w.replies[n].Some? ==> Won(w, w.statements[n].issuer, w.replies[n].value))
  }

  predicate LeaseOk(w: State, p: RunId)
    requires p in w.runs
  {
    && (w.runs[p].lease.Some? ==> Won(w, p, w.runs[p].lease.value))
    && (AtWork(w.runs[p]) ==> w.runs[p].lease.Some?)
  }

  /** The job's own code is running, or its end is being recorded. */
  predicate AtWork(run: Run) {
    run.phase.Working? || run.phase.Completing? || run.phase.Failing? || run.phase.Returned?
  }

  predicate TargetOk(w: State, n: StatementId)
    requires n in w.statements
  {
    w.statements[n].issuer in w.runs
    && (w.statements[n].op.Mutate? ==> IdIs(w, w.runs[w.statements[n].issuer].key, w.statements[n].op.id))
  }

  lemma CommitKeepsWon(w: State, n: StatementId, p: RunId, id: RowId)
    requires Inv(w) && Enabled(w, Commit(n)) && p in w.runs
    ensures IdIs(w, w.runs[p].key, id) ==> IdIs(Apply(w, Commit(n)), w.runs[p].key, id)
    ensures Won(w, p, id) ==> Won(Apply(w, Commit(n)), p, id)
  {
    CommitFrame(w, n);
    if w.runs[p].key in w.rows { CommitOnRow(w, n, w.runs[p].key); }
  }

  /** An insert or reclaim that hits makes its issuer a winner. */
  lemma CommitWins(w: State, n: StatementId)
    requires Inv(w) && Enabled(w, Commit(n)) && !w.statements[n].op.Mutate? && Execute(w, n).1.Some?
    ensures Won(Apply(w, Commit(n)), w.statements[n].issuer, Execute(w, n).1.value)
  {
  }

  lemma CommitKeepsIds(w: State, n: StatementId)
    requires Inv(w) && IdsOk(w) && Enabled(w, Commit(n))
    ensures IdsOk(Apply(w, Commit(n)))
  {
    var w' := Apply(w, Commit(n));
    CommitFrame(w, n);
    forall p, id | p in w.runs
      ensures IdIs(w, w.runs[p].key, id) ==> IdIs(w', w.runs[p].key, id)
      ensures Won(w, p, id) ==> Won(w', p, id)
    {
      CommitKeepsWon(w, n, p, id);
    }
    forall m | m in w'.replies ensures ReplyOk(w', m) {
      if m != n {
        assert ReplyOk(w, m);
      } else {
        assert TargetOk(w, n);
        if !w.statements[n].op.Mutate? && Execute(w, n).1.Some? { CommitWins(w, n); }
      }
    }
    forall p | p in w'.runs ensures LeaseOk(w', p) { assert LeaseOk(w, p); }
    forall m | m in w'.statements ensures TargetOk(w', m) { assert TargetOk(w, m); }
  }

  /** A lease is only ever set to the reply of the acquiring statement. */
  predicate LeaseFrom(w: State, p: RunId, run: Run)
    requires p in w.runs
  {
    && run.key == w.runs[p].key
    && (run.lease == w.runs[p].lease
        || (w.runs[p].acquiring in w.replies && run.lease == w.replies[w.runs[p].acquiring]))
    && (AtWork(run) ==> run.lease.Some?)
  }

  lemma CallerRuns(w: State, step: Step, q: RunId)
    requires Enabled(w, step) && !step.Commit?
    requires q in w.runs ==> AtWork(w.runs[q]) ==> w.runs[q].lease.Some?
    ensures q in w.runs ==> q in Apply(w, step).runs && LeaseFrom(w, q, Apply(w, step).runs[q])
    ensures q in Apply(w, step).runs && q !in w.runs ==>
              Apply(w, step).runs[q].lease.None? && !AtWork(Apply(w, step).runs[q])
  {
  }

  /** A caller sends a statement, if any, to the row it has won. */
  lemma CallerStatements(w: State, step: Step)
    requires Enabled(w, step) && !step.Commit?
    ensures var w' := Apply(w, step);
            && w'.rows == w.rows && w'.replies == w.replies
            && (forall n <- w.statements :: n in w'.statements && w'.statements[n] == w.statements[n])
            && (forall n <- w'.statements :: n !in w.statements ==>
                  && w'.statements[n].issuer in w'.runs
                  && (w'.statements[n].op.Mutate? ==>
                        && w'.statements[n].issuer in w.runs
                        && w.runs[w'.statements[n].issuer].lease == Some(w'.statements[n].op.id)))
  {
  }

  lemma CallerKeepsLease(w: State, w': State, p: RunId)
    requires Inv(w) && IdsOk(w) && p in w.runs && p in w'.runs && w'.rows == w.rows && LeaseFrom(w, p, w'.runs[p])
    ensures LeaseOk(w', p)
  {
    assert LeaseOk(w, p) && RunOk(w, p);
    if w.runs[p].acquiring in w.replies { assert ReplyOk(w, w.runs[p].acquiring); }
  }

  lemma CallerKeepsTarget(w: State, step: Step, m: StatementId)
    requires IdsOk(w) && Enabled(w, step) && !step.Commit? && m in Apply(w, step).statements
    ensures TargetOk(Apply(w, step), m)
  {
    CallerStatements(w, step);
    var st := Apply(w, step).statements[m];
    CallerRuns(w, step, st.issuer);
    if m in w.statements { assert TargetOk(w, m); } else if st.op.Mutate? { assert LeaseOk(w, st.issuer); }
  }

  lemma CallerStepKeepsIds(w: State, step: Step)
    requires Inv(w) && IdsOk(w) && Enabled(w, step) && !step.Commit?
    ensures IdsOk(Apply(w, step))
  {
    var w' := Apply(w, step);
    CallerStatements(w, step);
    forall m | m in w'.replies ensures ReplyOk(w', m) {
      assert ReplyOk(w, m);
      CallerRuns(w, step, w.statements[m].issuer);
    }
    forall p | p in w'.runs ensures LeaseOk(w', p) {
      CallerRuns(w, step, p);
      if p in w.runs { CallerKeepsLease(w, w', p); }
    }
    forall m | m in w'.statements ensures TargetOk(w', m) { CallerKeepsTarget(w, step, m); }
  }

  lemma StepKeepsIds(w: State, step: Step)
    requires Inv(w) && IdsOk(w) && Enabled(w, step)
    ensures IdsOk(Apply(w, step))
  {
    if step.Commit? { CommitKeepsIds(w, step.n); } else { CallerStepKeepsIds(w, step); }
  }

  lemma {:induction false} RunKeepsIds(w: State, steps: seq<Step>)
    requires Inv(w) && IdsOk(w) && Admissible(w, steps)
    ensures Inv(RunSteps(w, steps)) && IdsOk(RunSteps(w, steps))
    decreases |steps|
  {
    if |steps| > 0 {
      StepKeepsInv(w, steps[0]);
      StepKeepsIds(w, steps[0]);
      RunKeepsIds(Apply(w, steps[0]), steps[1..]);
    }
  }

  lemma ReachableIsOk(w: State)
    requires Reachable(w)
    ensures Inv(w) && IdsOk(w)
  {
    var w0, steps :| Init(w0) && Admissible(w0, steps) && RunSteps(w0, steps) == w;
    RunKeepsIds(w0, steps);
  }

  /** No job runs without the lock: whoever is at work has won the row of its job, and holds it or was replaced. */
  lemma OnlyWinnersWork(w: State, p: RunId)
    requires Reachable(w) && p in w.runs && AtWork(w.runs[p])
    ensures var key := w.runs[p].key;
            && key in w.rows && p in w.rows[key].winners && w.runs[p].lease == Some(w.rows[key].id)
            && (w.rows[key].owner == p || Replaced(w, p))
  {
    ReachableIsOk(w);
    assert LeaseOk(w, p);
  }

  // --- One step of a holder ---------------------------------------------------------------------------

  predicate Holds(w: State, p: RunId) {
    && p in w.runs && w.runs[p].key in w.rows
    && w.rows[w.runs[p].key].owner == p && w.rows[w.runs[p].key].status.Running?
  }

  /** When the row of the holder was last written. */
  function Renewed(w: State, p: RunId): Time
    requires Holds(w, p)
  {
    w.rows[w.runs[p].key].modifiedAt
  }

  /** A committed heartbeat of `p`. */
  predicate IsBeat(w: State, step: Step, p: RunId) {
    step.Commit? && step.n in w.statements && w.statements[step.n].issuer == p
    && w.statements[step.n].op.Mutate? && w.statements[step.n].op.change.Beat?
  }

  /** A statement that ends the run of `p` commits. */
  predicate IsEnd(w: State, step: Step, p: RunId) {
    step.Commit? && step.n in w.statements && w.statements[step.n].issuer == p
    && w.statements[step.n].op.Mutate? && !w.statements[step.n].op.change.Beat?
  }

  /** Every statement of the holder reaches its row, so a beat that commits is answered and renews the row. */
  lemma HolderBeats(w: State, step: Step, p: RunId)
    requires Inv(w) && IdsOk(w) && Enabled(w, step) && Holds(w, p) && IsBeat(w, step, p)
    ensures Holds(Apply(w, step), p) && Renewed(Apply(w, step), p) == w.clock
    ensures Apply(w, step).replies[step.n].Some?
  {
    assert TargetOk(w, step.n);
    assert w.runs[p].key in w.rows && Owns(w.rows[w.runs[p].key], w.statements[step.n]);
  }

  /** Nothing but its own end takes the lock from a holder whose row is younger than every contender's lease. */
  lemma HolderKeeps(w: State, step: Step, p: RunId, age: nat)
    requires Inv(w) && IdsOk(w) && Enabled(w, step) && Holds(w, p) && !IsEnd(w, step, p)
    requires w.clock <= Renewed(w, p) + age
    requires forall q <- w.runs :: w.runs[q].key == w.runs[p].key ==> age <= w.runs[q].timing.leaseMs
    ensures Holds(Apply(w, step), p) && (!IsBeat(w, step, p) ==> Renewed(Apply(w, step), p) == Renewed(w, p))
  {
    RunAfterStep(w, step, p);
    RowAfterStep(w, step, w.runs[p].key);
    if step.Commit? {
      assert StatementOk(w, step.n);
      CommitOnRow(w, step.n, w.runs[p].key);
    }
  }

  // --- Runs of a holder ---------------------------------------------------------------------------------

  /** A statement that ends the run of `p` commits during the execution. */
  predicate EndsItself(w: State, steps: seq<Step>, p: RunId)
    requires Admissible(w, steps)
    decreases |steps|
  {
    |steps| > 0 && (IsEnd(w, steps[0], p) || EndsItself(Apply(w, steps[0]), steps[1..], p))
  }

  /** The clock reading of the latest heartbeat of `p` after this step. */
  function LastBeat(w: State, step: Step, p: RunId, last: Time): Time {
    if IsBeat(w, step, p) then w.clock else last
  }

  /**
   At no moment of the execution do more than `span` milliseconds lie between the database clock and the
   latest committed heartbeat of `p`, the one before the execution being that of `last`.
   */
  predicate Punctual(w: State, steps: seq<Step>, p: RunId, last: Time, span: nat)
    requires Admissible(w, steps)
    decreases |steps|
  {
    && w.clock <= last + span
    && (|steps| > 0 ==>
          Punctual(Apply(w, steps[0]), steps[1..], p, LastBeat(w, steps[0], p, last), span))
  }

  /** Every call for this identity, up to the end of the execution, has at least this lease. */
  predicate LeasesAtLeast(w: State, steps: seq<Step>, key: Identity, span: nat)
    requires Admissible(w, steps)
  {
    var runs := RunSteps(w, steps).runs;
    forall q <- runs :: runs[q].key == key ==> span <= runs[q].timing.leaseMs
  }

  lemma {:induction false} LeasesFromTheStart(w: State, steps: seq<Step>, key: Identity, span: nat, q: RunId)
    requires Admissible(w, steps) && LeasesAtLeast(w, steps, key, span) && q in w.runs && w.runs[q].key == key
    ensures span <= w.runs[q].timing.leaseMs
    decreases |steps|
  {
    if |steps| > 0 {
      RunAfterStep(w, steps[0], q);
      LeasesFromTheStart(Apply(w, steps[0]), steps[1..], key, span, q);
    }
  }

  lemma LockStep(w: State, step: Step, p: RunId, last: Time, span: nat)
    requires Inv(w) && IdsOk(w) && Enabled(w, step) && Holds(w, p) && !IsEnd(w, step, p)
    requires last <= Renewed(w, p) && w.clock <= last + span
    requires forall q <- w.runs :: w.runs[q].key == w.runs[p].key ==> span <= w.runs[q].timing.leaseMs
    ensures Inv(Apply(w, step)) && IdsOk(Apply(w, step)) && Holds(Apply(w, step), p)
    ensures Apply(w, step).runs[p].key == w.runs[p].key
    ensures LastBeat(w, step, p, last) <= Renewed(Apply(w, step), p)
  {
    HolderKeeps(w, step, p, span);
    if IsBeat(w, step, p) { HolderBeats(w, step, p); }
    RunAfterStep(w, step, p);
    StepKeepsInv(w, step);
    StepKeepsIds(w, step);
  }

  lemma {:induction false} LockIsKept(w: State, steps: seq<Step>, p: RunId, last: Time, span: nat)
    requires Inv(w) && IdsOk(w) && Admissible(w, steps) && Holds(w, p)
    requires last <= Renewed(w, p) && Punctual(w, steps, p, last, span)
    requires LeasesAtLeast(w, steps, w.runs[p].key, span)
    ensures Holds(RunSteps(w, steps), p) || EndsItself(w, steps, p)
    decreases |steps|
  {
    if |steps| > 0 && !EndsItself(w, steps, p) {
      forall q | q in w.runs && w.runs[q].key == w.runs[p].key ensures span <= w.runs[q].timing.leaseMs {
        LeasesFromTheStart(w, steps, w.runs[p].key, span, q);
      }
      LockStep(w, steps[0], p, last, span);
      LockIsKept(Apply(w, steps[0]), steps[1..], p, LastBeat(w, steps[0], p, last), span);
    }
  }

  /** The insert or reclaim of `p` commits and wins the row. */
  predicate Wins(w: State, step: Step, p: RunId)
    requires Enabled(w, step)
  {
    && step.Commit? && w.statements[step.n].issuer == p && !w.statements[step.n].op.Mutate?
    && Apply(w, step).replies[step.n].Some?
  }

  lemma WinnerHolds(w: State, step: Step, p: RunId)
    requires Inv(w) && Enabled(w, step) && Wins(w, step, p)
    ensures Holds(Apply(w, step), p) && Renewed(Apply(w, step), p) == w.clock && Apply(w, step).runs == w.runs
  {
  }

  /**
   An owner keeps the lock it won until it ends the run itself, if on the database clock its heartbeats
   commit at most two intervals after its win and after one another, and every call for the job has the same lease.
   */
  lemma BeatingOwnerIsNeverReclaimed(w: State, steps: seq<Step>, p: RunId)
    requires Reachable(w) && |steps| > 0 && Admissible(w, steps) && Wins(w, steps[0], p)
    requires Punctual(Apply(w, steps[0]), steps[1..], p, w.clock, 2 * w.runs[p].timing.heartbeatMs)
    requires LeasesAtLeast(w, steps, w.runs[p].key, w.runs[p].timing.leaseMs)
    ensures Holds(RunSteps(w, steps), p) || EndsItself(w, steps, p)
  {
    ReachableIsOk(w);
    TimingOfReachable(w, p);
    WinnerHolds(w, steps[0], p);
    StepKeepsInv(w, steps[0]);
    StepKeepsIds(w, steps[0]);
    LockIsKept(Apply(w, steps[0]), steps[1..], p, w.clock, 2 * w.runs[p].timing.heartbeatMs);
  }

  lemma TimingOfReachable(w: State, p: RunId)
    requires Reachable(w) && p in w.runs
    ensures 2 * w.runs[p].timing.heartbeatMs < w.runs[p].timing.leaseMs
  {
    var w0, steps :| Init(w0) && Admissible(w0, steps) && RunSteps(w0, steps) == w;
    TimingsAreAccepted(w0, steps, p);
  }

  lemma {:induction false} ClockMovesOn(w: State, steps: seq<Step>)
    requires Admissible(w, steps)
    ensures w.clock <= RunSteps(w, steps).clock
    decreases |steps|
  {
    if |steps| > 0 { ClockMovesOn(Apply(w, steps[0]), steps[1..]); }
  }

  lemma {:induction false} PunctualUntil(w: State, steps: seq<Step>, p: RunId, last: Time, span: nat)
    requires Admissible(w, steps) && RunSteps(w, steps).clock <= last + span && last <= w.clock
    ensures Punctual(w, steps, p, last, span)
    decreases |steps|
  {
    ClockMovesOn(w, steps);
    if |steps| > 0 {
      ClockMovesOn(w, [steps[0]]);
      PunctualUntil(Apply(w, steps[0]), steps[1..], p, LastBeat(w, steps[0], p, last), span);
    }
  }

  lemma HeldUntil(w: State, steps: seq<Step>, p: RunId, span: nat)
    requires Inv(w) && IdsOk(w) && Admissible(w, steps) && Holds(w, p) && Renewed(w, p) <= w.clock
    requires RunSteps(w, steps).clock <= Renewed(w, p) + span && LeasesAtLeast(w, steps, w.runs[p].key, span)
    ensures Holds(RunSteps(w, steps), p) || EndsItself(w, steps, p)
  {
    PunctualUntil(w, steps, p, Renewed(w, p), span);
    LockIsKept(w, steps, p, Renewed(w, p), span);
  }

  lemma BeatStep(w: State, step: Step, p: RunId)
    requires Inv(w) && IdsOk(w) && Enabled(w, step) && Holds(w, p) && IsBeat(w, step, p)
    ensures Inv(Apply(w, step)) && IdsOk(Apply(w, step)) && Apply(w, step).runs == w.runs
    ensures Holds(Apply(w, step), p) && Renewed(Apply(w, step), p) == w.clock == Apply(w, step).clock
    ensures Apply(w, step).replies[step.n].Some?
  {
    HolderBeats(w, step, p);
    CommitFrame(w, step.n);
    StepKeepsInv(w, step);
    StepKeepsIds(w, step);
  }

  /** Each heartbeat of the owner buys one whole lease: until then only the owner itself can end its hold. */
  lemma BeatBuysOneLease(w: State, steps: seq<Step>, p: RunId)
    requires Reachable(w) && |steps| > 0 && Admissible(w, steps) && Holds(w, p) && IsBeat(w, steps[0], p)
    requires LeasesAtLeast(w, steps, w.runs[p].key, w.runs[p].timing.leaseMs)
    requires RunSteps(w, steps).clock <= w.clock + w.runs[p].timing.leaseMs
    ensures Apply(w, steps[0]).replies[steps[0].n].Some?
    ensures Holds(RunSteps(w, steps), p) || EndsItself(w, steps, p)
  {
    ReachableIsOk(w);
    BeatStep(w, steps[0], p);
    HeldUntil(Apply(w, steps[0]), steps[1..], p, w.runs[p].timing.leaseMs);
  }
}
