/**
 Direct-upload completion: concurrent, expired and reclaimed completers of one managed row.
 */
module UploadCompletion {
  import opened Wrappers
  import opened UploadRows
  import opened UploadProtocol
  import opened UploadSafety

  // --- One source version per row -------------------------------------------------

  predicate PastClaim(a: Agent) {
    a.Completer? && !a.cpc.Claiming?
  }

  /** A completer that owns, or once owned, the completion of `id` and works from `source`. */
  predicate Uses(s: State, id: FileId, source: Option<Etag>) {
    || (id, source) in s.promotions
    || exists p :: p in s.agents && PastClaim(s.agents[p]) && s.agents[p].id == id && s.agents[p].source == source
  }

  predicate StatementNamesSource(st: Statement) {
    && (st.CompletionClaim? ==> st.etag.Some?)
    && (st.CompletionReclaim? && st.oldEtag.Some? ==> st.etag == st.oldEtag)
  }

  predicate ClaimNamesSource(a: Agent) {
    a.Completer? && a.cpc.Claiming? ==>
      match a.cpc.st
      case CompletionClaim(id, _, _, etag) => id == a.id && etag == a.source
      case CompletionReclaim(id, _, oldEtag, _, _) =>
        id == a.id && a.source.Some? && (oldEtag.Some? ==> oldEtag == a.source)
      case _ => false
  }

  /** Whoever works on `id` has moved it past `Pending`, and agrees with the row while it is `Completing`. */
  predicate SourceAgrees(s: State, id: FileId, source: Option<Etag>) {
    && id in s.rows
    && !s.rows[id].status.Pending?
    && (s.rows[id].status.Completing? ==> s.rows[id].etag == source)
  }

  ghost predicate SourceInv(s: State) {
    && s.s3
    && (forall id <- s.rows :: s.rows[id].status.Completing? ==> s.rows[id].etag.Some?)
    && (forall st <- s.issued :: StatementNamesSource(st) && (st.Insert? ==> !st.row.status.Completing?))
    && (forall p <- s.agents :: ClaimNamesSource(s.agents[p]))
    && (forall id, e :: Uses(s, id, e) ==> SourceAgrees(s, id, e))
    && (forall id, e, f :: Uses(s, id, e) && Uses(s, id, f) ==> e == f)
  }

  /** A commit moves no row back to `Pending` and never changes the ETag of a completing row. */
  lemma CommitKeepsSource(s: State, st: Statement, id: FileId)
    requires SourceInv(s) && st in s.issued && id in s.rows
    ensures var row := Commit(s.rows, st)[id];
            && (!s.rows[id].status.Pending? ==> !row.status.Pending?)
            && (row.status.Completing? ==> row.etag.Some?)
            && (row.status.Completing? && !s.rows[id].status.Pending? ==>
                s.rows[id].status.Completing? && row.etag == s.rows[id].etag)
  {
    CommitOne(s.rows, st, id);
  }

  lemma CommitKeepsSourceInv(s: State, st: Statement)
    requires SourceInv(s) && st in s.issued
    ensures SourceInv(Committed(s, st))
  {
    var s' := Committed(s, st);
    forall id | id in s.rows { CommitKeepsSource(s, st, id); }
    forall id: FileId, e | Uses(s', id, e) ensures Uses(s, id, e) && SourceAgrees(s', id, e) {
      assert Uses(s, id, e);
    }
    forall id: FileId, e, f | Uses(s', id, e) && Uses(s', id, f) ensures e == f {
      assert Uses(s, id, e) && Uses(s, id, f);
    }
  }

  /** Replacing one agent is safe when the new one only repeats a source already in use. */
  lemma MoveKeepsSourceInv(s: State, p: Pid, a: Agent)
    requires SourceInv(s) && ClaimNamesSource(a)
    requires PastClaim(a) ==> Uses(s, a.id, a.source)
    requires Awaiting(a).Some? ==>
               StatementNamesSource(Awaiting(a).value)
                   && !(Awaiting(a).value.Insert? && Awaiting(a).value.row.status.Completing?)
    ensures SourceInv(Moved(s, p, a))
  {
    var s' := Moved(s, p, a);
    forall id: FileId, e | Uses(s', id, e) ensures Uses(s, id, e) {
      if (id, e) !in s.promotions {
        var q :| q in s'.agents && PastClaim(s'.agents[q]) && s'.agents[q].id == id && s'.agents[q].source == e;
        assert q != p ==> q in s.agents && s.agents[q] == s'.agents[q];
      }
    }
  }

  /** Winning a claim makes the staged ETag the row's ETag; winning a reclaim finds it there already. */
  lemma WonClaimAgrees(s: State, p: Pid)
    requires SourceInv(s) && p in s.agents && s.agents[p].Completer? && s.agents[p].cpc.Claiming?
    requires Awaiting(s.agents[p]).value in s.issued && AffectsAll(s.rows, Awaiting(s.agents[p]).value)
    ensures var a := s.agents[p]; var st := a.cpc.st; var s' := Committed(s, st);
            && a.id in s.rows
            && SourceAgrees(s', a.id, a.source)
            && (forall e :: Uses(s, a.id, e) ==> e == a.source)
  {
    var a := s.agents[p];
    var st := a.cpc.st;
    assert ClaimNamesSource(a) && StatementNamesSource(st);
    assert a.id in Targets(st);
    assert Hits(s.rows, st, a.id);
    forall e | Uses(s, a.id, e) ensures e == a.source {
      assert SourceAgrees(s, a.id, e);
    }
  }

  lemma AnswerKeepsSourceInv(s: State, p: Pid, t: Time)
    requires SourceInv(s) && p in s.agents && Awaiting(s.agents[p]).Some? && Awaiting(s.agents[p]).value in s.issued
    ensures var a, st := s.agents[p], Awaiting(s.agents[p]).value;
            SourceInv(Moved(Committed(s, st), p, OnAnswer(a, AffectsAll(s.rows, st), t)))
  {
    var a := s.agents[p];
    var st := Awaiting(a).value;
    var next := OnAnswer(a, AffectsAll(s.rows, st), t);
    var c := Committed(s, st);
    CommitKeepsSourceInv(s, st);
    if PastClaim(next) && !PastClaim(a) {
      WonClaimAgrees(s, p);
      var s' := Moved(c, p, next);
      forall id: FileId, e | Uses(s', id, e) ensures SourceAgrees(s', id, e) && (id == a.id ==> e == a.source) {
        if !(id == a.id && e == a.source) {
          UsesBefore(c, p, next, id, e);
          assert Uses(s, id, e);
        }
      }
      forall id: FileId, e, f | Uses(s', id, e) && Uses(s', id, f) ensures e == f {
        if id != a.id {
          UsesBefore(c, p, next, id, e);
          UsesBefore(c, p, next, id, f);
        }
      }
    } else {
      MoveKeepsSourceInv(c, p, next);
    }
  }

  lemma UsesBefore(s: State, p: Pid, a: Agent, id: FileId, e: Option<Etag>)
    requires Uses(Moved(s, p, a), id, e) && a.Completer? && !(id == a.id && e == a.source)
    ensures Uses(s, id, e)
  {
    if (id, e) !in s.promotions {
      var s' := Moved(s, p, a);
      var q :| q in s'.agents && PastClaim(s'.agents[q]) && s'.agents[q].id == id && s'.agents[q].source == e;
      assert q != p && q in s.agents && s.agents[q] == s'.agents[q];
    }
  }

  lemma HeadKeepsSourceInv(s: State, p: Pid, result: HeadResult, t: Time)
    requires SourceInv(s) && Enabled(s, Head(p, result, t))
    ensures SourceInv(Apply(s, Head(p, result, t)))
  {
    var a := s.agents[p];
    var next := AfterHead(a, result, t);
    assert Uses(s, a.id, a.source);
    var h := s.(promotions := s.promotions + (if next.cpc.Promoting? then {(a.id, a.source)} else {}));
    forall id: FileId, e | Uses(h, id, e) ensures Uses(s, id, e) {
      if (id, e) in h.promotions && (id, e) !in s.promotions {
        assert id == a.id && e == a.source;
      }
    }
    MoveKeepsSourceInv(h, p, next);
  }

  /** Changing only fields that `SourceInv` does not read. */
  lemma SameSources(s: State, s': State)
    requires SourceInv(s)
    requires s'.s3 == s.s3 && s'.rows == s.rows && s'.issued == s.issued && s'.agents == s.agents
    requires s'.promotions == s.promotions
    ensures SourceInv(s')
  {
    forall id: FileId, e | Uses(s', id, e) ensures Uses(s, id, e) {}
  }

  lemma StepKeepsSourceInv(s: State, step: Step)
    requires SourceInv(s) && AgentsOk(s) && PendingOk(s) && Enabled(s, step)
    ensures SourceInv(Apply(s, step))
  {
    match step
    case Answer(p, t) =>
      var taken := Taken(s, Issue(p, Awaiting(s.agents[p]).value));
      SameSources(s, taken);
      AnswerKeepsSourceInv(taken, p, t);
    case LateCommit(author, st) =>
      SameSources(s, Taken(s, Issue(author, st)));
      CommitKeepsSourceInv(Taken(s, Issue(author, st)), st);
    case Head(p, result, t) => HeadKeepsSourceInv(s, p, result, t);
    case PromotionLands(_, _) => SameSources(s, Apply(s, step));
    case _ => OtherStepKeepsSourceInv(s, step);
  }

  lemma OtherStepKeepsSourceInv(s: State, step: Step)
    requires SourceInv(s) && Enabled(s, step)
    requires !step.Answer? && !step.LateCommit? && !step.Head? && !step.PromotionLands?
    ensures SourceInv(Apply(s, step))
  {
    var e, next := Effect(s, step), NextAgent(s, step);
    EffectFrame(s, step);
    SameSources(s, e);
    if PastClaim(next) {
      assert step.p in s.agents && PastClaim(s.agents[step.p]);
      assert Uses(s, next.id, next.source) && Uses(e, next.id, next.source);
    }
    MoveKeepsSourceInv(e, step.p, next);
  }

  lemma {:induction false} RunKeepsSourceInv(s: State, steps: seq<Step>)
    requires Inv(s) && SourceInv(s) && Admissible(s, steps)
    ensures SourceInv(Run(s, steps))
    decreases |steps|
  {
    if |steps| > 0 {
      StepKeepsInv(s, steps[0]);
      StepKeepsSourceInv(s, steps[0]);
      RunKeepsSourceInv(Apply(s, steps[0]), steps[1..]);
    }
  }

  /** On S3, every promotion ever issued for one row names the same source version. */
  lemma PromotionsNameOneSource(s0: State, steps: seq<Step>, id: FileId, e: Option<Etag>, f: Option<Etag>)
    requires Init(s0) && s0.s3 && Admissible(s0, steps)
    requires (id, e) in Run(s0, steps).promotions && (id, f) in Run(s0, steps).promotions
    ensures e == f
  {
    InitHasInv(s0);
    RunKeepsSourceInv(s0, steps);
    var s := Run(s0, steps);
    assert Uses(s, id, e) && Uses(s, id, f);
  }

  // --- Ready at most once ------------------------------------------------------------

  predicate IsReady(s: State, id: FileId) {
    id in s.rows && s.rows[id].status.Ready?
  }

  /** How often an existing row changes to `ready` along a run. */
  function ReadyTransitions(s: State, steps: seq<Step>, id: FileId): nat
    requires Admissible(s, steps)
    decreases |steps|
  {
    if |steps| == 0 then 0
    else
      var s' := Apply(s, steps[0]);
      (if id in s.rows && !IsReady(s, id) && IsReady(s', id) then 1 else 0) + ReadyTransitions(s', steps[1..], id)
  }

  lemma {:induction false} BecomesReadyAtMostOnce(s: State, steps: seq<Step>, id: FileId)
    requires Inv(s) && Admissible(s, steps)
    ensures ReadyTransitions(s, steps, id) <= (if IsReady(s, id) then 0 else 1)
    decreases |steps|
  {
    if |steps| > 0 {
      StepKeepsInv(s, steps[0]);
      if id in s.rows {
        StepKeepsDoom(s, steps[0], id);
      }
      BecomesReadyAtMostOnce(Apply(s, steps[0]), steps[1..], id);
    }
  }

  // --- A replaced completer is fenced ---------------------------------------------------

  /** `now` plus this is the marker a claim or reclaim writes; `now - 1` is the one a retry mark writes. */
  const LEASE: Time := UPLOAD_ACTIVATION_LEASE_MS

  predicate Claims(st: Statement) {
    st.CompletionClaim? || st.CompletionReclaim?
  }

  /** A claim in flight belongs to a process that has not won it, and was sent once. */
  predicate PendingClaimOk(s: State, x: Issue)
    requires Claims(x.st)
  {
    && x.author in s.agents && !PastClaim(s.agents[x.author])
    && s.pending[x] <= 1 && ClaimReading(x.author, x.st.id, x.st.marker - LEASE) in s.readings
  }

  predicate CompleterRead(s: State, p: Pid)
    requires p in s.agents
  {
    s.agents[p].Completer? ==>
      && ClaimReading(p, s.agents[p].id, s.agents[p].marker - LEASE) in s.readings
      && (s.agents[p].cpc.Claiming? ==>
            Claims(s.agents[p].cpc.st) && s.agents[p].cpc.st.id == s.agents[p].id
                && s.agents[p].cpc.st.marker == s.agents[p].marker)
  }

  /** Every marker in flight goes back to a recorded clock reading, and a process has one claim at most. */
  ghost predicate ReadingInv(s: State) {
    && (forall x | x in s.pending && Claims(x.st) :: PendingClaimOk(s, x))
    && (forall x, y | x in s.pending && y in s.pending && Claims(x.st) && Claims(y.st) && x.author == y.author ::
        x == y)
    && (forall x | x in s.pending && x.st.CompletionRetryable? ::
        RetryReading(x.author, x.st.id, x.st.past + 1) in s.readings)
    && (forall p <- s.agents :: CompleterRead(s, p))
  }

  /** Process `p` made its claim at the reading behind marker `m`, and the claim is no longer in flight. */
  ghost predicate Spent(s: State, p: Pid, id: FileId, m: Time) {
    && p in s.agents && ClaimReading(p, id, m - LEASE) in s.readings
    && forall x | x in s.pending && x.author == p :: !Claims(x.st)
  }

  /** A process that works past its claim has spent it. */
  lemma PastClaimIsSpent(s: State, p: Pid)
    requires ReadingInv(s) && p in s.agents && PastClaim(s.agents[p])
    ensures Spent(s, p, s.agents[p].id, s.agents[p].marker)
  {
    assert CompleterRead(s, p);
  }

  // --- Readings along a run ---------------------------------------------------------------

  lemma TakenKeepsReadings(s: State, x: Issue)
    requires ReadingInv(s)
    ensures ReadingInv(Taken(s, x))
  {
    var s' := Taken(s, x);
    forall p | p in s'.agents ensures CompleterRead(s', p) { assert CompleterRead(s, p); }
    forall y | y in s'.pending && Claims(y.st) ensures PendingClaimOk(s', y) { assert PendingClaimOk(s, y); }
  }

  /** Commits change neither agents nor statements in flight. */
  lemma CommittedKeepsReadings(s: State, st: Statement)
    requires ReadingInv(s)
    ensures ReadingInv(Committed(s, st))
  {
    var s' := Committed(s, st);
    forall p | p in s'.agents ensures CompleterRead(s', p) { assert CompleterRead(s, p); }
    forall y | y in s'.pending && Claims(y.st) ensures PendingClaimOk(s', y) { assert PendingClaimOk(s, y); }
  }

  /** A process may be moved if it makes its claim as a newcomer and goes past it only without one in flight. */
  lemma MovedKeepsReadings(s: State, p: Pid, a: Agent)
    requires ReadingInv(s)
    requires a.Completer? && a.cpc.Claiming? ==>
               p !in s.agents && Claims(a.cpc.st) && a.cpc.st.id == a.id && a.cpc.st.marker == a.marker
    requires PastClaim(a) ==> Spent(s, p, a.id, a.marker)
    requires Awaiting(a).Some? && Claims(Awaiting(a).value) ==> a.Completer?
    requires Awaiting(a).Some? && Awaiting(a).value.CompletionRetryable? ==> a.Completer?
    ensures ReadingInv(Moved(s, p, a))
  {
    var s' := Moved(s, p, a);
    forall q | q in s'.agents ensures CompleterRead(s', q) {
      if q != p { assert CompleterRead(s, q); }
    }
    forall x | x in s.pending && Claims(x.st) ensures x.author in s.agents { assert PendingClaimOk(s, x); }
    forall y | y in s'.pending && Claims(y.st) ensures PendingClaimOk(s', y) { MovedKeepsClaim(s, p, a, y); }
  }

  lemma MovedKeepsClaim(s: State, p: Pid, a: Agent, y: Issue)
    requires ReadingInv(s) && y in Moved(s, p, a).pending && Claims(y.st)
    requires a.Completer? && a.cpc.Claiming? ==>
               p !in s.agents && Claims(a.cpc.st) && a.cpc.st.id == a.id && a.cpc.st.marker == a.marker
    requires PastClaim(a) ==> Spent(s, p, a.id, a.marker)
    requires Awaiting(a).Some? && Claims(Awaiting(a).value) ==> a.Completer?
    ensures PendingClaimOk(Moved(s, p, a), y)
  {
    if y in s.pending { assert PendingClaimOk(s, y); }
  }

  /** The reply to a claim leaves none in flight. */
  lemma AnswerSpendsClaim(s: State, p: Pid)
    requires ReadingInv(s) && p in s.agents && Awaiting(s.agents[p]).Some?
    requires Issue(p, Awaiting(s.agents[p]).value) in s.pending
    requires s.agents[p].Completer?
    ensures Spent(Taken(s, Issue(p, Awaiting(s.agents[p]).value)), p, s.agents[p].id, s.agents[p].marker)
  {
    assert CompleterRead(s, p);
    if PastClaim(s.agents[p]) {
      PastClaimIsSpent(s, p);
    } else {
      assert PendingClaimOk(s, Issue(p, s.agents[p].cpc.st));
    }
  }

  lemma AnsweredReads(s: State, a: Agent, all: bool, t: Time)
    requires AgentOk(s, a) && Awaiting(a).Some?
    ensures var b := OnAnswer(a, all, t);
            && !(b.Completer? && b.cpc.Claiming?)
            && (PastClaim(b) ==> a.Completer? && a.id == b.id && a.marker == b.marker)
            && (Awaiting(b).Some? ==> !Claims(Awaiting(b).value) && !Awaiting(b).value.CompletionRetryable?)
  {
  }

  lemma AnswerKeepsReadings(s: State, p: Pid, t: Time)
    requires ReadingInv(s) && AgentsOk(s) && Enabled(s, Answer(p, t))
    ensures ReadingInv(Apply(s, Answer(p, t)))
  {
    var a := s.agents[p];
    var x := Issue(p, Awaiting(a).value);
    var taken := Taken(s, x);
    assert AgentOk(s, a);
    TakenKeepsReadings(s, x);
    CommittedKeepsReadings(taken, x.st);
    if a.Completer? { AnswerSpendsClaim(s, p); }
    AnsweredReads(s, a, AffectsAll(s.rows, x.st), t);
    MovedKeepsReadings(Committed(taken, x.st), p, OnAnswer(a, AffectsAll(s.rows, x.st), t));
  }

  lemma StepKeepsReadings(s: State, step: Step)
    requires ReadingInv(s) && AgentsOk(s) && Enabled(s, step)
    ensures ReadingInv(Apply(s, step))
  {
    match step
    case Answer(p, t) => AnswerKeepsReadings(s, p, t);
    case LateCommit(author, st) =>
      TakenKeepsReadings(s, Issue(author, st));
      CommittedKeepsReadings(Taken(s, Issue(author, st)), st);
    case PromotionLands(_, _) => SameReadings(s, Apply(s, step));
    case _ => CallerKeepsReadings(s, step);
  }

  lemma SameReadings(s: State, s': State)
    requires ReadingInv(s) && s'.agents == s.agents && s'.pending == s.pending && s'.readings == s.readings
    ensures ReadingInv(s')
  {
    forall p | p in s'.agents ensures CompleterRead(s', p) { assert CompleterRead(s, p); }
    forall y | y in s'.pending && Claims(y.st) ensures PendingClaimOk(s', y) { assert PendingClaimOk(s, y); }
  }

  /** Only a newcomer makes a claim, and nobody gets past one without its reply. */
  lemma NextAgentReads(s: State, step: Step)
    requires AgentsOk(s) && Enabled(s, step) && Caller(step)
    ensures var p, a := step.p, NextAgent(s, step);
            && (a.Completer? && a.cpc.Claiming? ==>
                  p !in s.agents && Claims(a.cpc.st) && a.cpc.st.id == a.id && a.cpc.st.marker == a.marker)
            && (PastClaim(a) ==>
                  && p in s.agents && PastClaim(s.agents[p])
                  && s.agents[p].id == a.id && s.agents[p].marker == a.marker)
            && (Awaiting(a).Some? && (Claims(Awaiting(a).value) || Awaiting(a).value.CompletionRetryable?) ==>
                  a.Completer?)
  {
    if step.p in s.agents { assert AgentOk(s, s.agents[step.p]); }
  }

  lemma CallerKeepsReadings(s: State, step: Step)
    requires ReadingInv(s) && AgentsOk(s) && Enabled(s, step) && Caller(step)
    ensures ReadingInv(Apply(s, step))
  {
    var p, e, next := step.p, Effect(s, step), NextAgent(s, step);
    NextAgentReads(s, step);
    EffectFrame(s, step);
    SameReadings(s, e);
    if PastClaim(next) { PastClaimIsSpent(e, p); }
    MovedKeepsReadings(e, p, next);
  }

  lemma {:induction false} RunKeepsReadings(s: State, steps: seq<Step>)
    requires Inv(s) && ReadingInv(s) && Admissible(s, steps)
    ensures ReadingInv(Run(s, steps)) && Inv(Run(s, steps))
    decreases |steps|
  {
    if |steps| > 0 {
      StepKeepsInv(s, steps[0]);
      StepKeepsReadings(s, steps[0]);
      RunKeepsReadings(Apply(s, steps[0]), steps[1..]);
    }
  }

  // --- The two readings that revive a marker -------------------------------------------------

  /** A retry mark for the row was made one millisecond after `m`, so it wrote `m`. */
  ghost predicate RetryMarkWrites(s: State, id: FileId, m: Time) {
    exists r <- s.readings :: r.RetryReading? && r.id == id && r.now == m + 1
  }

  /** Another process claimed the row at the very reading behind `m`. */
  ghost predicate ClaimedTwice(s: State, p: Pid, id: FileId, m: Time) {
    exists r <- s.readings :: r.ClaimReading? && r.author != p && r.id == id && r.now == m - LEASE
  }

  ghost predicate Revivable(s: State, p: Pid, id: FileId, m: Time) {
    RetryMarkWrites(s, id, m) || ClaimedTwice(s, p, id, m)
  }

  /** The row no longer carries the marker, or there is a reading that can have brought it back. */
  ghost predicate Fenced(s: State, p: Pid, id: FileId, m: Time) {
    id in s.rows && (s.rows[id].uploadPendingAt != Some(m) || Revivable(s, p, id, m))
  }

  /** Only three statements write an upload marker onto an existing row. */
  lemma MarkerWriters(rows: Table, st: Statement, id: FileId, m: Time)
    requires id in rows && rows[id].uploadPendingAt != Some(m) && Commit(rows, st)[id].uploadPendingAt == Some(m)
    ensures !st.Insert? && id in Targets(st)
    ensures (Claims(st) && st.id == id && st.marker == m) || (st.CompletionRetryable? && st.id == id && st.past == m)
  {
    CommitOne(rows, st, id);
  }

  lemma MovedKeepsSpent(s: State, q: Pid, a: Agent, p: Pid, id: FileId, m: Time)
    requires Spent(s, p, id, m)
    requires q == p && Awaiting(a).Some? ==> !Claims(Awaiting(a).value)
    ensures Spent(Moved(s, q, a), p, id, m) && s.readings <= Moved(s, q, a).readings
  {
  }

  lemma AnswerKeepsSpent(s: State, q: Pid, t: Time, p: Pid, id: FileId, m: Time)
    requires AgentsOk(s) && Enabled(s, Answer(q, t)) && Spent(s, p, id, m)
    ensures Spent(Apply(s, Answer(q, t)), p, id, m) && s.readings <= Apply(s, Answer(q, t)).readings
  {
    var x := Issue(q, Awaiting(s.agents[q]).value);
    var c := Committed(Taken(s, x), x.st);
    assert AgentOk(s, s.agents[q]) && Spent(c, p, id, m);
    AnsweredReads(s, s.agents[q], AffectsAll(s.rows, x.st), t);
    MovedKeepsSpent(c, q, OnAnswer(s.agents[q], AffectsAll(s.rows, x.st), t), p, id, m);
  }

  lemma CallerKeepsSpent(s: State, step: Step, p: Pid, id: FileId, m: Time)
    requires AgentsOk(s) && Enabled(s, step) && Caller(step) && Spent(s, p, id, m)
    ensures Spent(Apply(s, step), p, id, m) && s.readings <= Apply(s, step).readings
  {
    var e, a := Effect(s, step), NextAgent(s, step);
    NextAgentReads(s, step);
    EffectFrame(s, step);
    assert Spent(e, p, id, m);
    assert Awaiting(a).Some? && Claims(Awaiting(a).value) ==> step.p !in s.agents;
    MovedKeepsSpent(e, step.p, a, p, id, m);
  }

  /** Readings are kept, and a process with a spent claim makes no other. */
  lemma StepKeepsSpent(s: State, step: Step, p: Pid, id: FileId, m: Time)
    requires AgentsOk(s) && Enabled(s, step) && Spent(s, p, id, m)
    ensures Spent(Apply(s, step), p, id, m) && s.readings <= Apply(s, step).readings
  {
    if step.Answer? {
      AnswerKeepsSpent(s, step.p, step.t, p, id, m);
    } else if Caller(step) {
      CallerKeepsSpent(s, step, p, id, m);
    }
  }

  /** The commit that brings a lost marker back was made at one of the two readings. */
  lemma ReturnedMarkerWasRead(s: State, x: Issue, p: Pid, id: FileId, m: Time)
    requires ReadingInv(s) && Spent(s, p, id, m) && x in s.pending && id in s.rows
    requires s.rows[id].uploadPendingAt != Some(m) && Commit(s.rows, x.st)[id].uploadPendingAt == Some(m)
    ensures Revivable(s, p, id, m)
  {
    MarkerWriters(s.rows, x.st, id, m);
    if Claims(x.st) {
      assert PendingClaimOk(s, x);
      assert ClaimReading(x.author, id, m - LEASE) in s.readings;
    } else {
      assert RetryReading(x.author, id, m + 1) in s.readings;
    }
  }

  lemma StepKeepsFence(s: State, step: Step, p: Pid, id: FileId, m: Time)
    requires ReadingInv(s) && AgentsOk(s) && Enabled(s, step) && Spent(s, p, id, m) && Fenced(s, p, id, m)
    ensures Spent(Apply(s, step), p, id, m) && Fenced(Apply(s, step), p, id, m)
  {
    var c := CommittedBy(s, step);
    StepKeepsSpent(s, step, p, id, m);
    RowsAfterStep(s, step);
    if c.Some? {
      CommitOne(s.rows, c.value.st, id);
      if s.rows[id].uploadPendingAt != Some(m) && Commit(s.rows, c.value.st)[id].uploadPendingAt == Some(m) {
        ReturnedMarkerWasRead(s, c.value, p, id, m);
      }
    }
  }

  lemma {:induction false} RunKeepsFence(s: State, steps: seq<Step>, p: Pid, id: FileId, m: Time)
    requires Inv(s) && ReadingInv(s) && Admissible(s, steps) && Spent(s, p, id, m) && Fenced(s, p, id, m)
    ensures Fenced(Run(s, steps), p, id, m)
    decreases |steps|
  {
    if |steps| > 0 {
      StepKeepsInv(s, steps[0]);
      StepKeepsReadings(s, steps[0]);
      StepKeepsFence(s, steps[0], p, id, m);
      RunKeepsFence(Apply(s, steps[0]), steps[1..], p, id, m);
    }
  }

  /** A finalization of process `p` is in flight, and the row lets it in. */
  ghost predicate CanFinalize(s: State, p: Pid, id: FileId, m: Time) {
    exists etag :: Issue(p, CompletionFinalize(id, m, etag)) in s.pending
        && Hits(s.rows, CompletionFinalize(id, m, etag), id)
  }

  /** The finalizing compare-and-swap lands exactly when the row is completing under this marker. */
  lemma FinalizeHitsIff(s: State, id: FileId, marker: Time, etag: Option<Etag>)
    ensures Hits(s.rows, CompletionFinalize(id, marker, etag), id) <==>
            (id in s.rows && s.rows[id].status.Completing? && !Doomed(s.rows[id])
                && s.rows[id].uploadPendingAt == Some(marker))
  {
  }

  /** The row has lost marker `m`, which process `p` claimed it with. */
  ghost predicate Replaced(s: State, p: Pid, id: FileId, m: Time) {
    Spent(s, p, id, m) && id in s.rows && s.rows[id].uploadPendingAt != Some(m)
  }

  /**
   A replaced completer finalizes only through one of two clock readings: a retry mark for the row made
   at `m + 1`, or another process's claim made at `m - LEASE`. Without either, nothing that happens
   later lets its finalization in.
   */
  lemma ReplacedCompleterFinalizesOnlyIf(s0: State, before: seq<Step>, after: seq<Step>, p: Pid, id: FileId, m: Time)
    requires Init(s0) && Admissible(s0, before) && Admissible(Run(s0, before), after)
    requires Replaced(Run(s0, before), p, id, m)
    ensures CanFinalize(Run(Run(s0, before), after), p, id, m) ==> Revivable(Run(Run(s0, before), after), p, id, m)
  {
    InitHasInv(s0);
    RunKeepsReadings(s0, before);
    RunKeepsFence(Run(s0, before), after, p, id, m);
    FenceDecides(Run(Run(s0, before), after), p, id, m);
  }

  /** A finalization gets past the fence only on a marker that was read back. */
  lemma FenceDecides(s: State, p: Pid, id: FileId, m: Time)
    requires Fenced(s, p, id, m)
    ensures CanFinalize(s, p, id, m) ==> Revivable(s, p, id, m)
  {
  }

  /** In particular for a completer still at work whose marker was replaced. */
  lemma ReplacedCompleterNeverFinalizes(s0: State, before: seq<Step>, after: seq<Step>, p: Pid)
    requires Init(s0) && Admissible(s0, before) && Admissible(Run(s0, before), after)
    requires var s := Run(s0, before);
             p in s.agents && PastClaim(s.agents[p]) && s.agents[p].id in s.rows
             && s.rows[s.agents[p].id].uploadPendingAt != Some(s.agents[p].marker)
    requires var a := Run(s0, before).agents[p]; !Revivable(Run(Run(s0, before), after), p, a.id, a.marker)
    ensures var a := Run(s0, before).agents[p]; !CanFinalize(Run(Run(s0, before), after), p, a.id, a.marker)
  {
    var a := Run(s0, before).agents[p];
    InitHasInv(s0);
    RunKeepsReadings(s0, before);
    PastClaimIsSpent(Run(s0, before), p);
    ReplacedCompleterFinalizesOnlyIf(s0, before, after, p, a.id, a.marker);
  }
}
