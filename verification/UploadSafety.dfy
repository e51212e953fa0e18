/**
 Safety of the upload lifecycle over every run of the machine in `UploadProtocol`.

 - An active row is `ready` and its object is stored.
 - A doomed row is never active again, and a ready row never changes status.
 - A stored legacy object always has a row that is active or still carries a pending marker,
   unless a forced claim overtook the write.
 */
module UploadSafety {
  import opened Wrappers
  import opened UploadRows
  import opened UploadProtocol

  // --- The inductive invariant -------------------------------------------------

  /** A legacy row whose writer was not overtaken by a forced claim. */
  predicate Undisturbed(s: State, id: FileId) {
    id in s.rows && !s.rows[id].managed && id !in s.raced
  }

  predicate StoredOrDoomed(s: State, id: FileId) {
    id in s.rows && (id in s.objects || Doomed(s.rows[id]))
  }

  /** The object is gone for good: no copy is stored and no write is outstanding. */
  predicate GoneForGood(s: State, id: FileId) {
    id in s.rows && (Undisturbed(s, id) ==> id in s.settled && id !in s.objects)
  }

  predicate StatementOk(s: State, st: Statement) {
    match st
    case Insert(id, row) => id in s.used && row.uploadPendingAt.Some? && !Doomed(row)
    case Activate(id, _, temporary) =>
      id in s.settled && StoredOrDoomed(s, id) && (temporary || s.rows[id].status.Ready?)
    case CleanupClaim(id, _, _) => id in s.settled
    case SettleClaim(id, _, _) => id in s.settled
    case ClearClaim(ids, _) => forall id <- ids :: GoneForGood(s, id)
    case CompletionClaim(id, _, _, _) => id in s.rows && s.rows[id].managed
    case CompletionReclaim(id, _, _, _, _) => id in s.rows && s.rows[id].managed
    case CompletionFinalize(id, _, _) => StoredOrDoomed(s, id) && s.rows[id].managed
    case AbortClaim(_, status, _, _) => status.Pending? || status.Completing?
    case ExpiredDirectClaim(_, status, _, _) => status.Pending? || status.Completing?
    case _ => true
  }

  predicate DeleterOk(s: State, a: Agent)
    requires a.Deleter?
  {
    forall id <- a.ids ::
      && id in s.rows && Doomed(s.rows[id])
      && (a.upload.None? && Undisturbed(s, id) ==> id in s.settled)
      && (a.upload.None? && (a.dpc.SoftDeleting? || a.dpc.Clearing?) ==> GoneForGood(s, id))
  }

  predicate WriterOk(s: State, a: Agent)
    requires a.Writer?
  {
    && a.id in s.used
    && (a.wpc.Saving? || a.wpc.Writing? <==> a.id !in s.settled)
    && (a.wpc.Writing? ==>
          && a.id in s.rows
          && s.rows[a.id].managed == a.kind.Managed?
          && (a.kind.Plain? ==> s.rows[a.id].status.Ready?))
  }

  predicate AgentOk(s: State, a: Agent) {
    match a
    case Idle => true
    case Writer(_, _, _, _) => WriterOk(s, a)
    case Claimer(st, upload, claim) => ClaimPlausible(s, st, upload, claim)
    case Retirer(st) => st.RetireTombstone?
    case Deleter(_, _, _, _) => DeleterOk(s, a)
    case Completer(id, _, _, cpc) =>
      && id in s.rows && s.rows[id].managed
      && (cpc.Finalizing? ==> StoredOrDoomed(s, id))
      && (cpc.Claiming? ==> (cpc.st.CompletionClaim? || cpc.st.CompletionReclaim?) && cpc.st.id == id)
  }

  predicate RowOk(s: State, id: FileId)
    requires id in s.rows
  {
    && id in s.used
    && (Active(s.rows[id]) ==> id in s.objects && s.rows[id].status.Ready?)
    && (Undisturbed(s, id) && s.rows[id].uploadPendingAt.None? ==> id in s.settled)
    && (Undisturbed(s, id) && id in s.objects ==> Tracked(s.rows[id]))
  }

  predicate RowsOk(s: State) {
    && (forall id <- s.rows :: RowOk(s, id))
    && s.objects <= s.rows.Keys
    && s.settled <= s.used
    && (forall x <- s.promotions :: x.0 in s.rows && s.rows[x.0].managed)
  }

  predicate StatementsOk(s: State) {
    forall st <- s.issued :: StatementOk(s, st)
  }

  predicate AgentsOk(s: State) {
    && (forall p <- s.agents :: AgentOk(s, s.agents[p]))
    && (forall p <- s.agents :: Awaiting(s.agents[p]).Some? ==> Awaiting(s.agents[p]).value in s.issued)
  }

  /** Each id has one writer. */
  predicate WritersDistinct(s: State) {
    forall p, q | p in s.agents && q in s.agents && s.agents[p].Writer? && s.agents[q].Writer? ::
      s.agents[p].id == s.agents[q].id ==> p == q
  }

  predicate PendingOk(s: State) {
    forall x | x in s.pending :: x.st in s.issued
  }

  predicate Inv(s: State) {
    RowsOk(s) && StatementsOk(s) && AgentsOk(s) && WritersDistinct(s) && PendingOk(s)
  }

  // --- What a committed statement keeps ----------------------------------------

  /** Ready is absorbing for every statement the code can issue. */
  lemma ReadyIsForever(s: State, st: Statement, id: FileId)
    requires StatementOk(s, st) && id in s.rows && s.rows[id].status.Ready?
    ensures id in Commit(s.rows, st) && Commit(s.rows, st)[id].status.Ready?
  {
    CommitOne(s.rows, st, id);
  }

  lemma CommitKeepsExistingRow(s: State, st: Statement, id: FileId)
    requires RowsOk(s) && StatementOk(s, st) && id in s.rows
    ensures id in Committed(s, st).rows && RowOk(Committed(s, st), id)
  {
    CommitOne(s.rows, st, id);
    DoomIsForever(s.rows, st, id);
    assert RowOk(s, id);
  }

  lemma CommitKeepsRows(s: State, st: Statement)
    requires RowsOk(s) && StatementOk(s, st)
    ensures RowsOk(Committed(s, st))
  {
    var s' := Committed(s, st);
    forall id | id in s'.rows ensures RowOk(s', id) {
      if id in s.rows {
        CommitKeepsExistingRow(s, st, id);
      }
    }
    forall x | x in s'.promotions ensures x.0 in s'.rows && s'.rows[x.0].managed {
      DoomIsForever(s.rows, st, x.0);
    }
  }

  /** Facts about one id that survive every commit. */
  lemma CommitKeepsFacts(s: State, st: Statement, id: FileId)
    requires StatementOk(s, st) && id in s.rows
    ensures id in Committed(s, st).rows
    ensures s.rows[id].managed == Committed(s, st).rows[id].managed
    ensures Doomed(s.rows[id]) ==> Doomed(Committed(s, st).rows[id])
    ensures Undisturbed(Committed(s, st), id) ==> Undisturbed(s, id)
    ensures s.rows[id].status.Ready? ==> Committed(s, st).rows[id].status.Ready?
  {
    DoomIsForever(s.rows, st, id);
    if s.rows[id].status.Ready? {
      ReadyIsForever(s, st, id);
    }
  }

  lemma CommitKeepsStatement(s: State, st: Statement, other: Statement)
    requires StatementOk(s, st) && StatementOk(s, other)
    ensures StatementOk(Committed(s, st), other)
  {
    forall id | id in s.rows { CommitKeepsFacts(s, st, id); }
  }

  lemma CommitKeepsAgent(s: State, st: Statement, a: Agent)
    requires StatementOk(s, st) && AgentOk(s, a)
    ensures AgentOk(Committed(s, st), a)
  {
    forall id | id in s.rows { CommitKeepsFacts(s, st, id); }
  }

  lemma CommitKeepsInv(s: State, st: Statement)
    requires Inv(s) && StatementOk(s, st)
    ensures Inv(Committed(s, st))
  {
    CommitKeepsRows(s, st);
    forall other | other in s.issued { CommitKeepsStatement(s, st, other); }
    forall p | p in s.agents { CommitKeepsAgent(s, st, s.agents[p]); }
  }

  lemma TakenKeepsInv(s: State, x: Issue)
    requires Inv(s)
    ensures Inv(Taken(s, x))
  {
    var s' := Taken(s, x);
    forall i | i in s'.rows ensures RowOk(s', i) { assert RowOk(s, i); }
    forall st | st in s'.issued ensures StatementOk(s', st) { assert StatementOk(s, st); }
    forall q | q in s'.agents ensures AgentOk(s', s'.agents[q]) { assert AgentOk(s, s.agents[q]); }
  }

  /** A pending statement takes effect. */
  lemma TakenCommitKeepsInv(s: State, x: Issue)
    requires Inv(s) && x in s.pending
    ensures StatementOk(s, x.st) && Inv(Committed(Taken(s, x), x.st))
  {
    TakenKeepsInv(s, x);
    assert StatementOk(s, x.st) && StatementOk(Taken(s, x), x.st);
    CommitKeepsInv(Taken(s, x), x.st);
  }

  // --- Moving one agent ----------------------------------------------------------

  predicate FreshWriter(s: State, p: Pid, a: Agent) {
    a.Writer? ==> forall q :: q in s.agents && q != p && s.agents[q].Writer? ==> s.agents[q].id != a.id
  }

  lemma MoveKeepsInv(s: State, p: Pid, a: Agent)
    requires Inv(s) && AgentOk(s, a) && FreshWriter(s, p, a)
    requires Awaiting(a).Some? ==> StatementOk(s, Awaiting(a).value)
    ensures Inv(Moved(s, p, a))
  {
    var s' := Moved(s, p, a);
    forall q | q in s'.agents ensures AgentOk(s', s'.agents[q]) {
      assert AgentOk(s, if q == p then a else s.agents[q]);
    }
    forall st | st in s'.issued ensures StatementOk(s', st) {
      assert StatementOk(s, st);
    }
  }

  // --- The effect of storage ------------------------------------------------------

  /** Deleting objects of doomed rows. */
  lemma RemovalKeepsInv(s: State, removed: set<FileId>)
    requires Inv(s)
    requires forall id <- removed :: id in s.rows && Doomed(s.rows[id])
    ensures Inv(s.(objects := s.objects - removed))
  {
    var s' := s.(objects := s.objects - removed);
    forall id | id in s'.rows ensures RowOk(s', id) { assert RowOk(s, id); }
    forall st | st in s'.issued ensures StatementOk(s', st) { assert StatementOk(s, st); }
    forall p | p in s'.agents ensures AgentOk(s', s'.agents[p]) { assert AgentOk(s, s.agents[p]); }
  }

  /** Storing the object of a managed row. */
  lemma PromotionKeepsInv(s: State, id: FileId)
    requires Inv(s) && id in s.rows && s.rows[id].managed
    ensures Inv(s.(objects := s.objects + {id}))
  {
    var s' := s.(objects := s.objects + {id});
    forall i | i in s'.rows ensures RowOk(s', i) { assert RowOk(s, i); }
    forall st | st in s'.issued ensures StatementOk(s', st) { assert StatementOk(s, st); }
    forall p | p in s'.agents ensures AgentOk(s', s'.agents[p]) { assert AgentOk(s, s.agents[p]); }
  }

  /** The world right after a write returned, with its author set aside. */
  function Landed(s: State, p: Pid, id: FileId, stored: bool): State {
    s.(objects := s.objects + (if stored then {id} else {}), settled := s.settled + {id}, agents := s.agents[p := Idle])
  }

  predicate Outstanding(s: State, p: Pid, id: FileId, stored: bool) {
    && p in s.agents && s.agents[p].Writer? && s.agents[p].wpc.Writing? && s.agents[p].id == id
    && id in s.rows && id !in s.settled && id in s.used
    && (stored ==> !s.rows[id].managed)
  }

  lemma LandedKeepsRow(s: State, p: Pid, id: FileId, stored: bool, i: FileId)
    requires Inv(s) && Outstanding(s, p, id, stored) && i in s.rows
    ensures RowOk(Landed(s, p, id, stored), i)
  {
    assert RowOk(s, i);
  }

  /** A statement's obligations do not depend on the unsettled object that is now being written. */
  lemma LandedKeepsStatement(s: State, p: Pid, id: FileId, stored: bool, st: Statement)
    requires StatementOk(s, st) && Outstanding(s, p, id, stored)
    ensures StatementOk(Landed(s, p, id, stored), st)
  {
  }

  lemma LandedKeepsAgent(s: State, p: Pid, id: FileId, stored: bool, q: Pid)
    requires Inv(s) && Outstanding(s, p, id, stored) && q in s.agents
    ensures AgentOk(Landed(s, p, id, stored), Landed(s, p, id, stored).agents[q])
  {
    assert AgentOk(s, s.agents[q]);
  }

  lemma LandedKeepsInv(s: State, p: Pid, id: FileId, stored: bool)
    requires Inv(s) && Outstanding(s, p, id, stored)
    ensures Inv(Landed(s, p, id, stored))
  {
    forall i | i in s.rows { LandedKeepsRow(s, p, id, stored, i); }
    forall st | st in s.issued { LandedKeepsStatement(s, p, id, stored, st); }
    forall q | q in s.agents { LandedKeepsAgent(s, p, id, stored, q); }
  }

  lemma WriteIsLanding(s: State, p: Pid, stored: bool, ok: bool, t: Time)
    requires Enabled(s, Write(p, stored, ok, t))
    ensures var a := s.agents[p];
            Apply(s, Write(p, stored, ok, t))
                == Moved(Landed(s, p, a.id, stored && !a.kind.Managed?), p, AfterWrite(a, ok, t))
  {
    assert s.agents[p := Idle][p := AfterWrite(s.agents[p], ok, t)] == s.agents[p := AfterWrite(s.agents[p], ok, t)];
  }

  /** The next statement of the author is accounted for once the write has landed. */
  lemma AfterWriteOk(s: State, p: Pid, stored: bool, ok: bool, t: Time)
    requires Inv(s) && Enabled(s, Write(p, stored, ok, t))
    ensures var a := s.agents[p];
            var w, next := Landed(s, p, a.id, stored && !a.kind.Managed?), AfterWrite(a, ok, t);
            AgentOk(w, next) && (Awaiting(next).Some? ==> StatementOk(w, Awaiting(next).value))
  {
    assert AgentOk(s, s.agents[p]);
  }

  lemma WriteKeepsInv(s: State, p: Pid, stored: bool, ok: bool, t: Time)
    requires Inv(s) && Enabled(s, Write(p, stored, ok, t))
    ensures Inv(Apply(s, Write(p, stored, ok, t)))
  {
    var a := s.agents[p];
    assert AgentOk(s, a);
    var lands := stored && !a.kind.Managed?;
    var w, next := Landed(s, p, a.id, lands), AfterWrite(a, ok, t);
    LandedKeepsInv(s, p, a.id, lands);
    AfterWriteOk(s, p, stored, ok, t);
    assert FreshWriter(w, p, next);
    MoveKeepsInv(w, p, next);
    WriteIsLanding(s, p, stored, ok, t);
  }

  // --- Agents after an answer -------------------------------------------------------

  /** A claim that affected every target leaves each of them doomed, with its upload marker decided. */
  lemma ClaimedRow(s: State, st: Statement, id: FileId)
    requires RowsOk(s) && StatementOk(s, st) && AffectsAll(s.rows, st) && id in Targets(st)
    requires st.CleanupClaim? || st.SettleClaim? || st.RetryClaim? || st.ReferenceClaim? || st.TemporaryClaim?
          || st.AbortClaim? || st.DeleteByIdClaim? || st.ExpiredDirectClaim?
    ensures var s' := Committed(s, st);
            && id in s'.rows && Doomed(s'.rows[id])
            && ((st.RetryClaim? ==> st.seen.uploadPendingAt.None?) && Undisturbed(s', id) ==> id in s'.settled)
  {
    assert Hits(s.rows, st, id);
    assert RowOk(s, id);
  }

  lemma AnsweredDeleter(s: State, st: Statement, upload: Option<Time>, claim: Time)
    requires Inv(s) && StatementOk(s, st) && AffectsAll(s.rows, st)
    requires (st.CleanupClaim? || st.SettleClaim? || ClaimPlausible(s, st, upload, claim))
    requires (st.CleanupClaim? || st.SettleClaim?) ==> upload.None?
    ensures DeleterOk(Committed(s, st), Deleter(Targets(st), upload, claim, Removing))
  {
    forall id | id in Targets(st) { ClaimedRow(s, st, id); }
  }

  lemma AnswerKeepsAgent(s: State, a: Agent, t: Time)
    requires Inv(s) && AgentOk(s, a) && Awaiting(a).Some? && StatementOk(s, Awaiting(a).value)
    ensures var st := Awaiting(a).value;
            AgentOk(Committed(s, st), OnAnswer(a, AffectsAll(s.rows, st), t))
  {
    var st := Awaiting(a).value;
    CommitKeepsAgent(s, st, a);
    match a {
      case Writer(id, _, _, _) =>
        if AffectsAll(s.rows, st) && (a.wpc.Cleaning? || a.wpc.Settling?) {
          AnsweredDeleter(s, st, None, a.wpc.claim);
        }
      case Claimer(_, upload, claim) =>
        if AffectsAll(s.rows, st) {
          AnsweredDeleter(s, st, upload, claim);
        }
      case _ =>
    }
  }

  lemma AnswerKeepsInv(s: State, p: Pid, t: Time)
    requires Inv(s) && Enabled(s, Answer(p, t))
    ensures Inv(Apply(s, Answer(p, t)))
  {
    var a := s.agents[p];
    var x := Issue(p, Awaiting(a).value);
    TakenKeepsInv(s, x);
    TakenCommitKeepsInv(s, x);
    AnsweredKeepsInv(Taken(s, x), p, t);
  }

  /** The reply reaches the author of the statement that commits. */
  lemma AnsweredKeepsInv(s: State, p: Pid, t: Time)
    requires Inv(s) && p in s.agents && Awaiting(s.agents[p]).Some?
    ensures var a, st := s.agents[p], Awaiting(s.agents[p]).value;
            Inv(Moved(Committed(s, st), p, OnAnswer(a, AffectsAll(s.rows, st), t)))
  {
    var a := s.agents[p];
    var st := Awaiting(a).value;
    assert StatementOk(s, st) && AgentOk(s, a);
    CommitKeepsInv(s, st);
    AnswerKeepsAgent(s, a, t);
    MoveKeepsInv(Committed(s, st), p, OnAnswer(a, AffectsAll(s.rows, st), t));
  }

  lemma LostKeepsInv(s: State, p: Pid, confirmedReady: bool, t: Time)
    requires Inv(s) && Enabled(s, Lost(p, confirmedReady, t))
    ensures Inv(Apply(s, Lost(p, confirmedReady, t)))
  {
    assert AgentOk(s, s.agents[p]);
    MoveKeepsInv(s, p, OnLost(s.agents[p], confirmedReady, t));
  }

  // --- Every step ---------------------------------------------------------------------

  lemma StartKeepsInv(s: State, step: Step)
    requires Inv(s) && Enabled(s, step)
    requires step.StartUpload? || step.StartClaim? || step.StartRetire? || step.StartCompletion?
    ensures Inv(Apply(s, step))
  {
    match step {
      case StartUpload(p, id, marker, kind) =>
        var u := s.(used := s.used + {id});
        assert Inv(u) by {
          forall i | i in u.rows ensures RowOk(u, i) { assert RowOk(s, i); }
          forall st | st in u.issued ensures StatementOk(u, st) { assert StatementOk(s, st); }
          forall q | q in u.agents ensures AgentOk(u, u.agents[q]) { assert AgentOk(s, s.agents[q]); }
        }
        forall q | q in s.agents && s.agents[q].Writer? ensures s.agents[q].id != id {
          assert AgentOk(s, s.agents[q]);
        }
        MoveKeepsInv(u, p, Writer(id, marker, kind, Saving));
      case StartClaim(p, st, upload, claim) => MoveKeepsInv(s, p, Claimer(st, upload, claim));
      case StartRetire(p, st) => MoveKeepsInv(s, p, Retirer(st));
      case StartCompletion(p, st, staged, _) =>
        MoveKeepsInv(s, p, Completer(st.id, CompletionMarker(st), staged, Claiming(st)));
    }
  }

  lemma HeadKeepsInv(s: State, step: Step)
    requires Inv(s) && Enabled(s, step) && step.Head?
    ensures Inv(Apply(s, step))
  {
    var a := s.agents[step.p];
    assert AgentOk(s, a);
    var next := AfterHead(a, step.result, step.t);
    var h := s.(promotions := s.promotions + (if next.cpc.Promoting? then {(a.id, a.source)} else {}));
    assert Inv(h) by {
      forall i | i in h.rows ensures RowOk(h, i) { assert RowOk(s, i); }
      forall st | st in h.issued ensures StatementOk(h, st) { assert StatementOk(s, st); }
      forall q | q in h.agents ensures AgentOk(h, h.agents[q]) { assert AgentOk(s, s.agents[q]); }
    }
    MoveKeepsInv(h, step.p, next);
  }

  lemma PromoteKeepsInv(s: State, step: Step)
    requires Inv(s) && Enabled(s, step) && step.Promote?
    ensures Inv(Apply(s, step))
  {
    var a := s.agents[step.p];
    assert AgentOk(s, a);
    var next := if step.ok then a.(cpc := HeadingAgain) else Retry(a, step.t);
    if step.stored {
      PromotionKeepsInv(s, a.id);
      MoveKeepsInv(s.(objects := s.objects + {a.id}), step.p, next);
    } else {
      MoveKeepsInv(s, step.p, next);
      assert s.objects + {} == s.objects;
    }
  }

  lemma StorageKeepsInv(s: State, step: Step)
    requires Inv(s) && Enabled(s, step)
    requires step.Remove? || step.Head? || step.Promote? || step.PromotionLands?
    ensures Inv(Apply(s, step))
  {
    match step {
      case Remove(p, removed, ok, t) =>
        var a := s.agents[p];
        assert AgentOk(s, a);
        RemovalKeepsInv(s, removed);
        MoveKeepsInv(s.(objects := s.objects - removed), p, a.(dpc := if ok then SoftDeleting(t) else Releasing(t)));
      case Head(_, _, _) => HeadKeepsInv(s, step);
      case Promote(_, _, _, _) => PromoteKeepsInv(s, step);
      case PromotionLands(id, source) => PromotionKeepsInv(s, id);
    }
  }

  /** A writer confirms its activation, or looks at its row again before settling it. */
  lemma LookKeepsInv(s: State, step: Step)
    requires Inv(s) && Enabled(s, step) && (step.Confirm? || step.Inspect?)
    ensures Inv(Apply(s, step))
  {
    assert AgentOk(s, s.agents[step.p]);
    MoveKeepsInv(s, step.p, NextAgent(s, step));
  }

  lemma StepKeepsInv(s: State, step: Step)
    requires Inv(s) && Enabled(s, step)
    ensures Inv(Apply(s, step))
  {
    match step {
      case Answer(p, t) => AnswerKeepsInv(s, p, t);
      case Lost(p, ready, t) => LostKeepsInv(s, p, ready, t);
      case LateCommit(author, st) => TakenCommitKeepsInv(s, Issue(author, st));
      case Write(p, stored, ok, t) => WriteKeepsInv(s, p, stored, ok, t);
      case Confirm(_, _, _) => LookKeepsInv(s, step);
      case Inspect(_, _, _) => LookKeepsInv(s, step);
      case StartUpload(_, _, _, _) => StartKeepsInv(s, step);
      case StartClaim(_, _, _, _) => StartKeepsInv(s, step);
      case StartRetire(_, _) => StartKeepsInv(s, step);
      case StartCompletion(_, _, _, _) => StartKeepsInv(s, step);
      case _ => StorageKeepsInv(s, step);
    }
  }

  lemma {:induction false} RunKeepsInv(s: State, steps: seq<Step>)
    requires Inv(s) && Admissible(s, steps)
    ensures Inv(Run(s, steps))
    decreases |steps|
  {
    if |steps| > 0 {
      StepKeepsInv(s, steps[0]);
      RunKeepsInv(Apply(s, steps[0]), steps[1..]);
    }
  }

  // --- Main results --------------------------------------------------------------------

  /**
   Stored bytes are never untracked. In every run, whatever dies or commits late, a stored legacy
   object belongs to a row that is active or still carries a pending marker. The one way out is a
   forced claim that cleared the upload marker before the write returned.
   */
  lemma StoredObjectsAreTracked(s0: State, steps: seq<Step>, id: FileId)
    requires Init(s0) && Admissible(s0, steps)
    requires id in Run(s0, steps).objects
    ensures var s := Run(s0, steps);
            id in s.rows && (!s.rows[id].managed && !Tracked(s.rows[id]) ==> id in s.raced)
  {
    InitHasInv(s0);
    RunKeepsInv(s0, steps);
    var s := Run(s0, steps);
    assert id in s.rows && RowOk(s, id);
  }

  /** No empty active row: whatever ordinary reads can return is ready and has its bytes. */
  lemma ActiveRowsAreServable(s0: State, steps: seq<Step>, id: FileId)
    requires Init(s0) && Admissible(s0, steps)
    requires id in Run(s0, steps).rows && Active(Run(s0, steps).rows[id])
    ensures Run(s0, steps).rows[id].status.Ready? && id in Run(s0, steps).objects
  {
    InitHasInv(s0);
    RunKeepsInv(s0, steps);
    assert RowOk(Run(s0, steps), id);
  }

  lemma StepKeepsDoom(s: State, step: Step, id: FileId)
    requires Inv(s) && Enabled(s, step) && id in s.rows
    ensures id in Apply(s, step).rows
    ensures Doomed(s.rows[id]) ==> Doomed(Apply(s, step).rows[id])
    ensures s.rows[id].status.Ready? ==> Apply(s, step).rows[id].status.Ready?
  {
    RowsAfterStep(s, step);
    var x := CommittedBy(s, step);
    if x.Some? {
      assert StatementOk(s, x.value.st);
      CommitKeepsFacts(s, x.value.st, id);
    }
  }

  /** No resurrection: from the moment deletion is claimed, no continuation makes the row active again. */
  lemma {:induction false} DeletedRowsStayHidden(s: State, steps: seq<Step>, id: FileId)
    requires Inv(s) && Admissible(s, steps) && id in s.rows && Doomed(s.rows[id])
    ensures id in Run(s, steps).rows && Doomed(Run(s, steps).rows[id]) && !Active(Run(s, steps).rows[id])
    decreases |steps|
  {
    if |steps| > 0 {
      StepKeepsInv(s, steps[0]);
      StepKeepsDoom(s, steps[0], id);
      DeletedRowsStayHidden(Apply(s, steps[0]), steps[1..], id);
    }
  }

  /** A forced claim dooms the rows it overtakes. */
  predicate RacedAreDoomed(s: State) {
    forall id <- s.raced :: id in s.rows && Doomed(s.rows[id])
  }

  lemma CommitKeepsRaced(s: State, st: Statement)
    requires RacedAreDoomed(s)
    ensures RacedAreDoomed(Committed(s, st))
  {
    var s' := Committed(s, st);
    forall id | id in s'.raced ensures id in s'.rows && Doomed(s'.rows[id]) {
      DoomIsForever(s.rows, st, id);
    }
  }

  lemma StepKeepsRaced(s: State, step: Step)
    requires RacedAreDoomed(s) && Enabled(s, step)
    ensures RacedAreDoomed(Apply(s, step))
  {
    match step
    case Answer(p, t) => CommitKeepsRaced(Taken(s, Issue(p, Awaiting(s.agents[p]).value)), Awaiting(s.agents[p]).value);
    case LateCommit(author, st) => CommitKeepsRaced(Taken(s, Issue(author, st)), st);
    case PromotionLands(_, _) =>
    case _ => EffectFrame(s, step);
  }

  lemma {:induction false} RunKeepsRaced(s: State, steps: seq<Step>)
    requires RacedAreDoomed(s) && Admissible(s, steps)
    ensures RacedAreDoomed(Run(s, steps))
    decreases |steps|
  {
    if |steps| > 0 {
      StepKeepsRaced(s, steps[0]);
      RunKeepsRaced(Apply(s, steps[0]), steps[1..]);
    }
  }

  lemma ReachableIsSafe(s: State)
    requires Reachable(s)
    ensures Inv(s) && RacedAreDoomed(s)
  {
    var s0 :| Init(s0) && Reaches(s0, s);
    var steps :| Admissible(s0, steps) && Run(s0, steps) == s;
    InitHasInv(s0);
    RunKeepsInv(s0, steps);
    RunKeepsRaced(s0, steps);
  }

  lemma InitHasInv(s: State)
    requires Init(s)
    ensures Inv(s)
  {
  }
}
