/**
 Fencing of the job lock over every interleaving, late commit and lost reply.
 */
module JobSafety {
  import opened Wrappers
  import opened JobOptions
  import opened JobLock

  // --- The inductive invariant --------------------------------------------------------------

  predicate Distinct(s: seq<RunId>) {
    forall i, j | 0 <= i < j < |s| :: s[i] != s[j]
  }

  /** A winner asked for this very identity, and its acquiring statement has committed and hit. */
  predicate WinnerOk(w: State, key: Identity, p: RunId) {
    && p in w.runs && w.runs[p].key == key
    && w.runs[p].acquiring in w.replies && w.replies[w.runs[p].acquiring].Some?
  }

  predicate RowOk(w: State, key: Identity)
    requires key in w.rows
  {
    var row := w.rows[key];
    && |row.winners| > 0 && row.winners[|row.winners| - 1] == row.owner && Distinct(row.winners)
    && (forall p <- row.winners :: WinnerOk(w, key, p))
    && (row.status.Success? <==> row.doneBy.Some?)
  }

  predicate StatementOk(w: State, n: StatementId)
    requires n in w.statements
  {
    var st := w.statements[n];
    && st.issuer in w.runs
    && (!st.op.Mutate? && n !in w.replies ==> w.runs[st.issuer].acquiring == n)
    && (st.op.Mutate? && st.op.change.ToSuccess? && n in w.replies && w.replies[n].Some? ==>
          w.runs[st.issuer].key in w.rows && w.rows[w.runs[st.issuer].key].doneBy == Some(n))
  }

  predicate RunOk(w: State, p: RunId)
    requires p in w.runs
  {
    var run := w.runs[p];
    && run.acquiring in w.statements && w.statements[run.acquiring].issuer == p
        && !w.statements[run.acquiring].op.Mutate?
    && (run.phase.Inserting? ==> w.statements[run.acquiring].op.Insert?)
    && ((run.phase.Completing? || run.phase.Returned?) ==>
          && run.phase.last in w.statements && w.statements[run.phase.last].issuer == p
          && w.statements[run.phase.last].op.Mutate? && w.statements[run.phase.last].op.change.ToSuccess?)
    && (run.phase.Returned? ==> run.phase.last in w.replies && w.replies[run.phase.last].Some?)
  }

  predicate Inv(w: State) {
    && (forall key <- w.rows :: RowOk(w, key))
    && (forall n <- w.statements :: StatementOk(w, n))
    && (forall p <- w.runs :: RunOk(w, p))
    && w.replies.Keys <= w.statements.Keys
  }

  // --- Preservation ----------------------------------------------------------------------------

  /** What may become of a run: it keeps its identity and acquires anew only after an empty reply. */
  predicate Succeeds(w: State, p: RunId, run: Run) {
    p in w.runs ==>
      && run.key == w.runs[p].key
      && (run.acquiring == w.runs[p].acquiring
          || (w.runs[p].acquiring in w.replies && w.replies[w.runs[p].acquiring].None?))
  }

  lemma MoveKeepsRows(w: State, w': State, p: RunId, run: Run)
    requires Inv(w) && Succeeds(w, p, run)
    requires w'.rows == w.rows && w'.replies == w.replies && w'.runs == w.runs[p := run]
    ensures forall key <- w'.rows :: RowOk(w', key)
  {
    forall key | key in w'.rows ensures RowOk(w', key) {
      assert RowOk(w, key);
      forall q | q in w.rows[key].winners ensures WinnerOk(w', key, q) { assert WinnerOk(w, key, q); }
    }
  }

  lemma MoveKeepsInv(w: State, p: RunId, run: Run)
    requires Inv(w) && p in w.runs && Succeeds(w, p, run) && run.acquiring == w.runs[p].acquiring
    requires RunOk(Move(w, p, run), p)
    ensures Inv(Move(w, p, run))
  {
    var w' := Move(w, p, run);
    MoveKeepsRows(w, w', p, run);
    forall n | n in w'.statements ensures StatementOk(w', n) { assert StatementOk(w, n); }
    forall q | q in w'.runs ensures RunOk(w', q) {
      if q != p { assert RunOk(w, q); }
    }
  }

  lemma IssueKeepsInv(w: State, p: RunId, run: Run, n: StatementId, op: Operation)
    requires Inv(w) && n !in w.statements && Succeeds(w, p, run)
    requires op.Mutate? || run.acquiring == n
    requires RunOk(Issue(w, p, run, n, op), p)
    ensures Inv(Issue(w, p, run, n, op))
  {
    var w' := Issue(w, p, run, n, op);
    MoveKeepsRows(w, w', p, run);
    forall m | m in w'.statements ensures StatementOk(w', m) {
      if m != n { assert StatementOk(w, m); }
    }
    forall q | q in w'.runs ensures RunOk(w', q) {
      if q != p { assert RunOk(w, q); }
    }
  }

  lemma ReceiveKeepsInv(w: State, p: RunId, next: StatementId)
    requires Inv(w) && Enabled(w, Receive(p, next))
    ensures Inv(OnReply(w, p, next))
  {
    var run := w.runs[p];
    assert RunOk(w, p);
    var reply := w.replies[Awaited(run).value];
    match run.phase
    case Inserting =>
      if reply.Some? { MoveKeepsInv(w, p, run.(lease := reply, phase := Working)); }
      else { IssueKeepsInv(w, p, run.(acquiring := next, phase := Reclaiming), next, Reclaim); }
    case Reclaiming =>
      MoveKeepsInv(w, p, if reply.Some? then run.(lease := reply, phase := Working) else run.(phase := Skipped));
    case Completing(n) => MoveKeepsInv(w, p, run.(phase := if reply.Some? then Returned(n) else Thrown));
    case _ => MoveKeepsInv(w, p, run.(phase := Thrown));
  }

  lemma CallerStepKeepsInv(w: State, step: Step)
    requires Inv(w) && Enabled(w, step) && !step.Commit? && !step.Tick?
    ensures Inv(Apply(w, step))
  {
    var p := step.p;
    if p in w.runs { assert RunOk(w, p); }
    match step
    case Start(_, opts, n) =>
      IssueKeepsInv(w, p, Run(ResolveIdentity(opts).value, ResolveLeaseTiming(opts).value, n, None, Inserting), n,
          Insert);
    case Receive(_, next) => ReceiveKeepsInv(w, p, next);
    case LoseReply(_, next) =>
      var run := w.runs[p];
      if run.phase.Completing? && run.lease.Some? {
        IssueKeepsInv(w, p, run.(phase := Failing(next)), next, Mutate(run.lease.value, ToFail));
      } else {
        MoveKeepsInv(w, p, run.(phase := Thrown));
      }
    case WorkReturns(_, next) =>
      IssueKeepsInv(w, p, w.runs[p].(phase := Completing(next)), next, Mutate(w.runs[p].lease.value, ToSuccess));
    case WorkThrows(_, next) =>
      IssueKeepsInv(w, p, w.runs[p].(phase := Failing(next)), next, Mutate(w.runs[p].lease.value, ToFail));
    case WorkThrowsLost(_) => MoveKeepsInv(w, p, w.runs[p].(phase := Thrown));
    case UseLease(_, change, next) => IssueKeepsInv(w, p, w.runs[p], next, Mutate(w.runs[p].lease.value, change));
  }

  /** How a commit changes one row, told without the statement's own text. */
  lemma CommitOnRow(w: State, n: StatementId, key: Identity)
    requires Inv(w) && Enabled(w, Commit(n)) && key in w.rows
    ensures key in Execute(w, n).0.rows
    ensures var before, after := w.rows[key], Execute(w, n).0.rows[key];
            var p := w.statements[n].issuer;
            || after == before
            || (&& before.status.Running? && before.owner == p && after.winners == before.winners && after.owner == p
                && Execute(w, n).1.Some? && w.statements[n].op.Mutate?
                && after == Changed(before, w.statements[n].op.change, n, w.clock))
            || (&& Reclaimable(before, w.clock, w.runs[p].timing.leaseMs) && w.statements[n].op.Reclaim?
                && w.runs[p].key == key && Execute(w, n).1.Some?
                && after == before.(status := Running, owner := p, modifiedAt := w.clock,
                    winners := before.winners + [p]))
  {
  }

  /** An uncommitted acquiring statement belongs to a run that never won. */
  lemma NotYetAWinner(w: State, n: StatementId, key: Identity)
    requires Inv(w) && Enabled(w, Commit(n)) && key in w.rows && !w.statements[n].op.Mutate?
    ensures w.statements[n].issuer !in w.rows[key].winners
  {
    assert RowOk(w, key) && StatementOk(w, n);
  }

  lemma CommitKeepsWinners(w: State, n: StatementId, key: Identity)
    requires Inv(w) && Enabled(w, Commit(n)) && key in w.rows && key in Apply(w, Commit(n)).rows
    ensures forall q <- Apply(w, Commit(n)).rows[key].winners :: WinnerOk(Apply(w, Commit(n)), key, q)
  {
    var w' := Apply(w, Commit(n));
    var p := w.statements[n].issuer;
    assert RowOk(w, key) && StatementOk(w, n);
    CommitOnRow(w, n, key);
    assert w'.runs == w.runs && w'.replies == w.replies[n := Execute(w, n).1];
    forall q | q in w'.rows[key].winners ensures WinnerOk(w', key, q) {
      if q in w.rows[key].winners {
        assert WinnerOk(w, key, q);
      } else {
        assert w'.rows[key].winners == w.rows[key].winners + [p] && q == p;
      }
    }
  }

  lemma CommitKeepsRow(w: State, n: StatementId, key: Identity)
    requires Inv(w) && Enabled(w, Commit(n)) && key in Apply(w, Commit(n)).rows
    ensures RowOk(Apply(w, Commit(n)), key)
  {
    var w' := Apply(w, Commit(n));
    var p := w.statements[n].issuer;
    assert StatementOk(w, n);
    if key in w.rows {
      assert RowOk(w, key);
      CommitOnRow(w, n, key);
      if w.statements[n].op.Reclaim? { NotYetAWinner(w, n, key); }
      CommitKeepsWinners(w, n, key);
    } else {
      assert w'.rows[key].winners == [p];
    }
  }

  /** A hit by a mutation lands on the row of the issuer's own identity. */
  lemma MutationHitsOwnRow(w: State, n: StatementId)
    requires Inv(w) && Enabled(w, Commit(n)) && w.statements[n].op.Mutate? && Execute(w, n).1.Some?
    ensures var key := w.runs[w.statements[n].issuer].key; key in w.rows && Owns(w.rows[key], w.statements[n])
  {
    var key :| key in w.rows && Owns(w.rows[key], w.statements[n]);
    assert RowOk(w, key);
    assert w.rows[key].owner in w.rows[key].winners;
    assert WinnerOk(w, key, w.rows[key].owner);
  }

  lemma CommitKeepsStatement(w: State, n: StatementId, m: StatementId)
    requires Inv(w) && Enabled(w, Commit(n)) && m in w.statements
    ensures StatementOk(Apply(w, Commit(n)), m)
  {
    assert StatementOk(w, m) && StatementOk(w, n);
    var key := w.runs[w.statements[m].issuer].key;
    if m == n && w.statements[n].op.Mutate? && Execute(w, n).1.Some? {
      MutationHitsOwnRow(w, n);
    }
    if key in w.rows {
      assert RowOk(w, key);
      CommitOnRow(w, n, key);
    }
  }

  lemma CommitFrame(w: State, n: StatementId)
    requires Enabled(w, Commit(n))
    ensures var w' := Apply(w, Commit(n));
            w'.runs == w.runs && w'.statements == w.statements && w'.replies == w.replies[n := Execute(w, n).1]
  {
  }

  lemma CommitKeepsRun(w: State, n: StatementId, p: RunId)
    requires Inv(w) && Enabled(w, Commit(n)) && p in w.runs && p in Apply(w, Commit(n)).runs
    ensures RunOk(Apply(w, Commit(n)), p)
  {
    CommitFrame(w, n);
    assert RunOk(w, p);
  }

  lemma CommitKeepsInv(w: State, n: StatementId)
    requires Inv(w) && Enabled(w, Commit(n))
    ensures Inv(Apply(w, Commit(n)))
  {
    var w' := Apply(w, Commit(n));
    CommitFrame(w, n);
    forall key | key in w'.rows ensures RowOk(w', key) { CommitKeepsRow(w, n, key); }
    forall m | m in w'.statements ensures StatementOk(w', m) { CommitKeepsStatement(w, n, m); }
    forall p | p in w'.runs ensures RunOk(w', p) { CommitKeepsRun(w, n, p); }
    assert w'.replies.Keys <= w'.statements.Keys;
  }

  lemma StepKeepsInv(w: State, step: Step)
    requires Inv(w) && Enabled(w, step)
    ensures Inv(Apply(w, step))
  {
    match step
    case Commit(n) => CommitKeepsInv(w, n);
    case Tick(ms) =>
      var w' := Apply(w, step);
      forall key | key in w'.rows ensures RowOk(w', key) {
        assert RowOk(w, key);
        forall q | q in w.rows[key].winners ensures WinnerOk(w', key, q) { assert WinnerOk(w, key, q); }
      }
      forall m | m in w'.statements ensures StatementOk(w', m) { assert StatementOk(w, m); }
      forall p | p in w'.runs ensures RunOk(w', p) { assert RunOk(w, p); }
    case _ => CallerStepKeepsInv(w, step);
  }

  lemma {:induction false} RunKeepsInv(w: State, steps: seq<Step>)
    requires Inv(w) && Admissible(w, steps)
    ensures Inv(RunSteps(w, steps))
    decreases |steps|
  {
    if |steps| > 0 {
      StepKeepsInv(w, steps[0]);
      RunKeepsInv(Apply(w, steps[0]), steps[1..]);
    }
  }

  // --- Main results ------------------------------------------------------------------------------

  /** In the whole cluster and over all time, at most one call per identity returns `acquired: true`. */
  lemma AtMostOneReturnsAcquired(w0: State, steps: seq<Step>, p: RunId, q: RunId)
    requires Init(w0) && Admissible(w0, steps)
    requires var w := RunSteps(w0, steps);
             p in w.runs && q in w.runs && w.runs[p].phase.Returned? && w.runs[q].phase.Returned?
                 && w.runs[p].key == w.runs[q].key
    ensures p == q
  {
    var w := RunSteps(w0, steps);
    RunKeepsInv(w0, steps);
    assert RunOk(w, p) && RunOk(w, q);
    assert StatementOk(w, w.runs[p].phase.last) && StatementOk(w, w.runs[q].phase.last);
  }

  /** Every winner of a row asked for the same identity, so all reclaims share one idempotency key. */
  lemma ReclaimsShareTheIdempotencyKey(w0: State, steps: seq<Step>, key: Identity, p: RunId)
    requires Init(w0) && Admissible(w0, steps)
    requires var w := RunSteps(w0, steps); key in w.rows && p in w.rows[key].winners
    ensures var w := RunSteps(w0, steps); p in w.runs && w.runs[p].key == key
  {
    var w := RunSteps(w0, steps);
    RunKeepsInv(w0, steps);
    assert RowOk(w, key);
    assert WinnerOk(w, key, p);
  }

  // --- From options to rows ---------------------------------------------------------------------

  /** Process `p` made its call with these options during the execution. */
  predicate StartedWith(w: State, steps: seq<Step>, p: RunId, opts: Options)
    requires Admissible(w, steps)
    decreases |steps|
  {
    |steps| > 0 &&
    (|| (steps[0].Start? && steps[0].p == p && steps[0].opts == opts)
     || StartedWith(Apply(w, steps[0]), steps[1..], p, opts))
  }

  lemma {:induction false} KeyIsKept(w: State, steps: seq<Step>, p: RunId)
    requires Admissible(w, steps) && p in w.runs
    ensures p in RunSteps(w, steps).runs && RunSteps(w, steps).runs[p].key == w.runs[p].key
    decreases |steps|
  {
    if |steps| > 0 {
      RunAfterStep(w, steps[0], p);
      KeyIsKept(Apply(w, steps[0]), steps[1..], p);
    }
  }

  lemma {:induction false} StartedKey(w: State, steps: seq<Step>, p: RunId, opts: Options)
    requires Admissible(w, steps) && StartedWith(w, steps, p, opts)
    ensures ResolveIdentity(opts).Some? && p in RunSteps(w, steps).runs
    ensures RunSteps(w, steps).runs[p].key == ResolveIdentity(opts).value
    decreases |steps|
  {
    if steps[0].Start? && steps[0].p == p && steps[0].opts == opts {
      KeyIsKept(Apply(w, steps[0]), steps[1..], p);
    } else {
      StartedKey(Apply(w, steps[0]), steps[1..], p, opts);
    }
  }

  /** Two calls contend for one row exactly when their options are the same after trimming. */
  lemma ContendForOneRowIff(w0: State, steps: seq<Step>, p: RunId, a: Options, q: RunId, b: Options)
    requires Init(w0) && Admissible(w0, steps) && StartedWith(w0, steps, p, a) && StartedWith(w0, steps, q, b)
    ensures ResolveIdentity(a).Some? && ResolveIdentity(b).Some?
    ensures p in RunSteps(w0, steps).runs && q in RunSteps(w0, steps).runs
    ensures RunSteps(w0, steps).runs[p].key == RunSteps(w0, steps).runs[q].key <==> SameAfterTrimming(a, b)
  {
    StartedKey(w0, steps, p, a);
    StartedKey(w0, steps, q, b);
    SameIdentityIff(a, b);
  }

  /** So of all the calls whose options are the same after trimming, at most one ever returns `acquired: true`. */
  lemma OneReturnPerJob(w0: State, steps: seq<Step>, p: RunId, a: Options, q: RunId, b: Options)
    requires Init(w0) && Admissible(w0, steps) && StartedWith(w0, steps, p, a) && StartedWith(w0, steps, q, b)
    requires ResolveIdentity(a).Some? && ResolveIdentity(b).Some? && SameAfterTrimming(a, b)
    requires var w := RunSteps(w0, steps);
             p in w.runs && q in w.runs && w.runs[p].phase.Returned? && w.runs[q].phase.Returned?
    ensures p == q
  {
    ContendForOneRowIff(w0, steps, p, a, q, b);
    AtMostOneReturnsAcquired(w0, steps, p, q);
  }

  lemma RowAfterStep(w: State, step: Step, key: Identity)
    requires Inv(w) && Enabled(w, step) && key in w.rows
    ensures key in Apply(w, step).rows
    ensures var before, after := w.rows[key], Apply(w, step).rows[key];
            && (before.status.Success? ==> after == before)
            && before.winners <= after.winners
            && (!step.Commit? ==> after == before)
  {
    assert RowOk(w, key);
    if step.Commit? { CommitOnRow(w, step.n, key); }
  }

  /** SUCCESS is absorbing: nothing that commits later touches the row again. */
  lemma {:induction false} SuccessIsForever(w: State, steps: seq<Step>, key: Identity)
    requires Inv(w) && Admissible(w, steps) && key in w.rows && w.rows[key].status.Success?
    ensures key in RunSteps(w, steps).rows && RunSteps(w, steps).rows[key] == w.rows[key]
    decreases |steps|
  {
    if |steps| > 0 {
      RowAfterStep(w, steps[0], key);
      StepKeepsInv(w, steps[0]);
      SuccessIsForever(Apply(w, steps[0]), steps[1..], key);
    }
  }

  /** A run that once held the row of its identity and has been replaced. */
  predicate Replaced(w: State, p: RunId) {
    && p in w.runs && w.runs[p].key in w.rows
    && p in w.rows[w.runs[p].key].winners && w.rows[w.runs[p].key].owner != p
  }

  /** How many statements of run `p` affect a row during an execution. */
  function Hits(w: State, steps: seq<Step>, p: RunId): nat
    requires Admissible(w, steps)
    decreases |steps|
  {
    if |steps| == 0 then 0
    else
      (if steps[0].Commit? && w.statements[steps[0].n].issuer == p && Execute(w, steps[0].n).1.Some? then 1 else 0)
      + Hits(Apply(w, steps[0]), steps[1..], p)
  }

  lemma ReplacedStep(w: State, step: Step, p: RunId)
    requires Inv(w) && Enabled(w, step) && Replaced(w, p)
    ensures Replaced(Apply(w, step), p)
    ensures step.Commit? && w.statements[step.n].issuer == p ==> Execute(w, step.n).1.None?
  {
    var key := w.runs[p].key;
    assert RowOk(w, key);
    StepKeepsInv(w, step);
    var w' := Apply(w, step);
    RowAfterStep(w, step, key);
    assert p in w'.rows[key].winners by {
      var i :| 0 <= i < |w.rows[key].winners| && w.rows[key].winners[i] == p;
      assert w'.rows[key].winners[i] == p;
    }
    if step.Commit? {
      var n := step.n;
      CommitOnRow(w, n, key);
      if w.statements[n].issuer == p {
        if w.statements[n].op.Mutate? {
          if Execute(w, n).1.Some? { MutationHitsOwnRow(w, n); }
        } else {
          NotYetAWinner(w, n, key);
        }
      } else if !w.statements[n].op.Mutate? {
        NotYetAWinner(w, n, key);
      }
    }
  }

  /**
   Only the latest winner's token works: whatever a replaced owner still has in flight, or sends later, hits nothing.
   */
  lemma {:induction false} ReplacedOwnersAreFenced(w: State, steps: seq<Step>, p: RunId)
    requires Inv(w) && Admissible(w, steps) && Replaced(w, p)
    ensures Hits(w, steps, p) == 0 && Replaced(RunSteps(w, steps), p)
    decreases |steps|
  {
    if |steps| > 0 {
      ReplacedStep(w, steps[0], p);
      StepKeepsInv(w, steps[0]);
      ReplacedOwnersAreFenced(Apply(w, steps[0]), steps[1..], p);
    }
  }

  // --- Timing and reclaims -------------------------------------------------------------------------

  lemma RunAfterStep(w: State, step: Step, p: RunId)
    requires Enabled(w, step) && p in w.runs
    ensures p in Apply(w, step).runs
    ensures Apply(w, step).runs[p].key == w.runs[p].key && Apply(w, step).runs[p].timing == w.runs[p].timing
  {
  }

  /** The premise on the timing holds for every run whose options were accepted. */
  lemma {:induction false} TimingsAreAccepted(w: State, steps: seq<Step>, p: RunId)
    requires Admissible(w, steps) && p in RunSteps(w, steps).runs
    requires forall q <- w.runs :: 2 * w.runs[q].timing.heartbeatMs < w.runs[q].timing.leaseMs
    ensures var t := RunSteps(w, steps).runs[p].timing; 2 * t.heartbeatMs < t.leaseMs
    decreases |steps|
  {
    if |steps| > 0 {
      var w' := Apply(w, steps[0]);
      if steps[0].Start? { TimingLeavesRoomForTwoBeats(steps[0].opts); }
      forall q | q in w'.runs ensures 2 * w'.runs[q].timing.heartbeatMs < w'.runs[q].timing.leaseMs {
        if q in w.runs { RunAfterStep(w, steps[0], q); }
      }
      TimingsAreAccepted(w', steps[1..], p);
    }
  }

  /** Exactly when a reclaim wins, by the contender's own lease; the previous owner is then replaced for good. */
  lemma ReclaimHitsIff(w: State, n: StatementId)
    requires Inv(w) && Enabled(w, Commit(n)) && w.statements[n].op.Reclaim?
    ensures var q := w.statements[n].issuer;
            var key := w.runs[q].key;
            var hit := key in w.rows && (w.rows[key].status.Fail?
                         || (w.rows[key].status.Running?
                             && w.clock - w.rows[key].modifiedAt > w.runs[q].timing.leaseMs));
            && (Apply(w, Commit(n)).replies[n].Some? <==> hit)
            && (hit ==> Apply(w, Commit(n)).rows[key].owner == q && Replaced(Apply(w, Commit(n)), w.rows[key].owner))
  {
    var q := w.statements[n].issuer;
    var key := w.runs[q].key;
    if key in w.rows {
      assert RowOk(w, key);
      NotYetAWinner(w, n, key);
      assert WinnerOk(w, key, w.rows[key].owner);
    }
  }
}
