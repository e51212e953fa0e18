/**
 Runs that show the conditions of the safety results to be exact: every overtaken write can lose its
 bytes, and each of the two clock readings can revive a replaced completer.
 */
module UploadScenarios {
  import opened Wrappers
  import opened UploadRows
  import opened UploadProtocol
  import opened UploadSafety
  import opened UploadCompletion

  // --- Playing one step ------------------------------------------------------

  /** A set of states that no step leaves, such as the states reachable from a given one. */
  ghost predicate Closed(r: State -> bool) {
    forall s, step {:trigger Apply(s, step)} :: r(s) && Enabled(s, step) ==> r(Apply(s, step))
  }

  lemma ReachesIsClosed(o: State)
    ensures Closed(s => Reaches(o, s))
  {
    forall s, step | Reaches(o, s) && Enabled(s, step) ensures Reaches(o, Apply(s, step)) {
      ReachesStep(o, s, step);
    }
  }

  /** What agent `a` of process `p` has just sent. */
  function Sent(p: Pid, a: Agent): multiset<Issue> {
    if Awaiting(a).Some? then multiset{Issue(p, Awaiting(a).value)} else multiset{}
  }

  /** Agent `p` gets its answer about the single row `id`. */
  lemma PlayAnswer(r: State -> bool, s: State, p: Pid, t: Time, id: FileId) returns (s': State)
    requires Closed(r) && r(s) && p in s.agents && Awaiting(s.agents[p]).Some? && id in s.rows
    requires Issue(p, Awaiting(s.agents[p]).value) in s.pending
    requires var st := Awaiting(s.agents[p]).value; !st.Insert? && !AllOrNothing(st) && Targets(st) == {id}
    ensures r(s')
    ensures var st := Awaiting(s.agents[p]).value;
            var hit := Matches(Where(st), s.rows[id]);
            var next := OnAnswer(s.agents[p], hit, t);
            && s'.agents == s.agents[p := next]
            && s'.pending == s.pending - multiset{Issue(p, st)} + Sent(p, next)
            && s'.readings == s.readings + ReadingOf(p, next)
            && s'.objects == s.objects && s'.s3 == s.s3
            && id in s'.rows && s'.rows[id] == (if hit then Patched(Assignments(st), s.rows[id]) else s.rows[id])
  {
    var st := Awaiting(s.agents[p]).value;
    s' := Apply(s, Answer(p, t));
    assert AffectsAll(s.rows, st) <==> Hits(s.rows, st, id);
  }

  /** A process moves on and no statement commits. */
  lemma PlayMove(r: State -> bool, s: State, step: Step) returns (s': State)
    requires Closed(r) && r(s) && Enabled(s, step) && Caller(step)
    ensures r(s') && s'.agents == s.agents[step.p := NextAgent(s, step)] && s'.rows == s.rows && s'.s3 == s.s3
    ensures s'.pending == s.pending + Sent(step.p, NextAgent(s, step))
    ensures s'.readings == s.readings + ReadingOf(step.p, NextAgent(s, step))
    ensures s'.objects == Effect(s, step).objects && (!step.Write? ==> s'.settled == s.settled)
  {
    EffectFrame(s, step);
    s' := Apply(s, step);
  }

  /** A fresh world in which agent 0 has just saved the row of upload `id`. */
  lemma PlaySave(r: State -> bool, o: State, id: FileId, marker: Time, kind: UploadKind) returns (s: State)
    requires Closed(r) && r(o) && Init(o) && o.s3
    ensures r(s) && s.s3 && s.objects == {} && s.settled == {} && s.pending == multiset{} && s.readings == {}
    ensures s.agents == map[0 := Writer(id, marker, kind, Writing)]
    ensures id in s.rows && s.rows[id] == InitialRow(marker, kind)
  {
    var mid := PlayMove(r, o, StartUpload(0, id, marker, kind));
    s := InsertLands(r, mid, id, marker, kind);
  }

  lemma InsertLands(r: State -> bool, mid: State, id: FileId, marker: Time, kind: UploadKind) returns (s: State)
    requires Closed(r) && r(mid) && mid.s3 && mid.rows == map[] && mid.objects == {} && mid.settled == {}
    requires mid.readings == {}
    requires mid.agents == map[0 := Writer(id, marker, kind, Saving)]
    requires mid.pending == multiset{Issue(0, Insert(id, InitialRow(marker, kind)))}
    ensures r(s) && s.s3 && s.objects == {} && s.settled == {} && s.pending == multiset{} && s.readings == {}
    ensures s.agents == map[0 := Writer(id, marker, kind, Writing)]
    ensures id in s.rows && s.rows[id] == InitialRow(marker, kind)
  {
    assert AffectsAll(mid.rows, Awaiting(mid.agents[0]).value);
    s := Apply(mid, Answer(0, 0));
    assert s.agents[0] == Writer(id, marker, kind, Writing);
  }

  const NOWHERE: State := State(true, map[], {}, map[], {}, multiset{}, {}, {}, {}, {}, {})

  // --- Overtaken writes -------------------------------------------------------

  lemma {:induction false} BoundedPids(pids: set<Pid>) returns (bound: Pid)
    ensures forall p <- pids :: p < bound
    decreases |pids|
  {
    if pids == {} {
      return 0;
    }
    var p :| p in pids;
    var rest := BoundedPids(pids - {p});
    bound := if p < rest then rest else p + 1;
    forall q | q in pids ensures q < bound {
      if q != p { assert q in pids - {p}; }
    }
  }

  /** The writer of legacy upload `id` is still inside its storage call, and a forced claim has overtaken it. */
  predicate Overtaken(s: State, p: Pid, id: FileId) {
    && p in s.agents && s.agents[p].Writer? && s.agents[p].wpc.Writing? && !s.agents[p].kind.Managed?
        && s.agents[p].id == id
    && id in s.raced && id in s.rows && s.rows[id].uploadPendingAt.None?
  }

  predicate Untracked(s: State, id: FileId) {
    id in s.objects && id in s.rows && !s.rows[id].managed && !Tracked(s.rows[id])
  }

  /** Others are where they were. */
  predicate OthersKept(s: State, s': State, q: Pid) {
    forall p <- s.agents | p != q :: p in s'.agents && s'.agents[p] == s.agents[p]
  }

  /** A sweep claims a doomed row whose upload marker is gone. */
  lemma SweepClaims(r: State -> bool, s: State, q: Pid, id: FileId) returns (s': State)
    requires Closed(r) && r(s) && q !in s.agents && id in s.rows
    requires s.rows[id].uploadPendingAt.None? && s.rows[id].deletionPendingAt.Some?
    ensures r(s') && OthersKept(s, s', q) && q in s'.agents && s'.agents[q] == Deleter({id}, None, 50, Removing)
    ensures id in s'.rows && s'.rows[id] == s.rows[id].(deletedAt := None, deletionPendingAt := Some(50))
  {
    var row := s.rows[id];
    var claim := RetryClaim(id, Markers(row.deletedAt, None, row.deletionPendingAt), 50);
    AnyStatus(row.status);
    var mid := PlayMove(r, s, StartClaim(q, claim, None, 50));
    s' := PlayAnswer(r, mid, q, 0, id);
  }

  /** The object is deleted, the row soft-deleted and its claim cleared. */
  lemma SweepFinishes(r: State -> bool, s: State, q: Pid, id: FileId) returns (s': State)
    requires Closed(r) && r(s) && q in s.agents && s.agents[q] == Deleter({id}, None, 50, Removing) && id in s.rows
    requires s.rows[id].deletedAt.None? && s.rows[id].uploadPendingAt.None? && s.rows[id].deletionPendingAt == Some(50)
    ensures r(s') && OthersKept(s, s', q) && id !in s'.objects
    ensures id in s'.rows && s'.rows[id] == s.rows[id].(deletedAt := Some(20), deletionPendingAt := None)
  {
    var mid := SweepDeletes(r, s, q, id);
    AnyStatus(mid.rows[id].status);
    s' := PlayAnswer(r, mid, q, 0, id);
  }

  lemma SweepDeletes(r: State -> bool, s: State, q: Pid, id: FileId) returns (s': State)
    requires Closed(r) && r(s) && q in s.agents && s.agents[q] == Deleter({id}, None, 50, Removing) && id in s.rows
    requires s.rows[id].deletedAt.None? && s.rows[id].uploadPendingAt.None? && s.rows[id].deletionPendingAt == Some(50)
    ensures r(s') && s'.agents == s.agents[q := Deleter({id}, None, 50, Clearing)]
    ensures Issue(q, ClearClaim({id}, 50)) in s'.pending && id !in s'.objects
    ensures id in s'.rows && s'.rows[id] == s.rows[id].(deletedAt := Some(20))
  {
    var mid := PlayMove(r, s, Remove(q, {id}, true, 20));
    assert mid.agents == s.agents[q := Deleter({id}, None, 50, SoftDeleting(20))];
    s' := SweepSoftDeletes(r, mid, q, id);
  }

  lemma SweepSoftDeletes(r: State -> bool, s: State, q: Pid, id: FileId) returns (s': State)
    requires Closed(r) && r(s) && q in s.agents && s.agents[q] == Deleter({id}, None, 50, SoftDeleting(20))
    requires id in s.rows
    requires Issue(q, SoftDelete({id}, None, 50, 20)) in s.pending && id !in s.objects
    requires s.rows[id].deletedAt.None? && s.rows[id].uploadPendingAt.None? && s.rows[id].deletionPendingAt == Some(50)
    ensures r(s') && s'.agents == s.agents[q := Deleter({id}, None, 50, Clearing)]
    ensures Issue(q, ClearClaim({id}, 50)) in s'.pending && id !in s'.objects
    ensures id in s'.rows && s'.rows[id] == s.rows[id].(deletedAt := Some(20))
  {
    AnyStatus(s.rows[id].status);
    s' := PlayAnswer(r, s, q, 0, id);
  }

  /** The write lands on a row that nothing points at any more. */
  lemma WriteLandsUntracked(r: State -> bool, s: State, p: Pid, id: FileId) returns (s': State)
    requires Closed(r) && r(s) && p in s.agents && s.agents[p].Writer? && s.agents[p].wpc.Writing?
    requires !s.agents[p].kind.Managed? && s.agents[p].id == id && id in s.rows && !Tracked(s.rows[id])
    requires !s.rows[id].managed
    ensures r(s') && Untracked(s', id)
  {
    s' := PlayMove(r, s, Write(p, true, true, 0));
  }

  lemma OvertakenWriteLands(r: State -> bool, s: State, p: Pid, id: FileId) returns (s': State)
    requires Closed(r) && r(s) && Overtaken(s, p, id) && Doomed(s.rows[id]) && !s.rows[id].managed
    ensures r(s') && Untracked(s', id)
  {
    s' := s;
    if s.rows[id].deletionPendingAt.Some? {
      var q := BoundedPids(s.agents.Keys);
      s' := SweepClaims(r, s, q, id);
      s' := SweepFinishes(r, s', q, id);
    }
    s' := WriteLandsUntracked(r, s', p, id);
  }

  /**
   The exception in `StoredObjectsAreTracked` is exact: wherever a forced claim has overtaken a writer
   that is still inside its storage call, some continuation leaves bytes that no marker points at.
   */
  lemma OvertakenWritesLoseBytes(s: State, p: Pid, id: FileId)
    requires Reachable(s) && Overtaken(s, p, id)
    ensures exists s' :: Reaches(s, s') && Untracked(s', id)
  {
    ReachableIsSafe(s);
    assert AgentOk(s, s.agents[p]);
    ReachesItself(s);
    ReachesIsClosed(s);
    var s' := OvertakenWriteLands(x => Reaches(s, x), s, p, id);
  }

  /** Such states are reached: an operator retires the tombstone of a live writer. */
  lemma RetiredUnderItsWriter(r: State -> bool, o: State, id: FileId) returns (s: State)
    requires Closed(r) && r(o) && Init(o) && o.s3
    ensures r(s) && Overtaken(s, 0, id)
  {
    var mid := PlaySave(r, o, id, 10, Plain);
    var retire := RetireTombstone(id, Markers(None, Some(10), None), 9);
    mid := PlayMove(r, mid, StartRetire(1, retire));
    s := PlayRetirement(r, mid, id, retire);
  }

  lemma PlayRetirement(r: State -> bool, mid: State, id: FileId, retire: Statement) returns (s: State)
    requires Closed(r) && r(mid) && retire == RetireTombstone(id, Markers(None, Some(10), None), 9)
    requires mid.agents == map[0 := Writer(id, 10, Plain, Writing), 1 := Retirer(retire)]
    requires Issue(1, retire) in mid.pending
    requires id in mid.rows && mid.rows[id] == InitialRow(10, Plain) && id !in mid.settled
    ensures r(s) && Overtaken(s, 0, id)
  {
    s := Apply(mid, Answer(1, 0));
    assert Hits(mid.rows, retire, id);
  }

  /** So bytes are lost in some run of every upload. */
  lemma RetiringALiveWriterLosesBytes(id: FileId)
    ensures exists s :: Reachable(s) && Untracked(s, id)
  {
    ReachesItself(NOWHERE);
    ReachesIsClosed(NOWHERE);
    var s := RetiredUnderItsWriter(x => Reaches(NOWHERE, x), NOWHERE, id);
    assert Reachable(s) by { assert Init(NOWHERE) && Reaches(NOWHERE, s); }
    ReachableIsSafe(s);
    assert AgentOk(s, s.agents[0]);
    var s' := OvertakenWriteLands(x => Reaches(NOWHERE, x), s, 0, id);
    assert Reachable(s') by { assert Init(NOWHERE) && Reaches(NOWHERE, s'); }
  }

  // --- A completion marker that returns ------------------------------------------

  /** The row of a direct upload under completion. */
  function CompletingRow(marker: Time): Row {
    Row(true, None, Some(marker), None, Completing, Some(1))
  }

  /** The row of upload `id` is saved, and process 1 has sent its claim at the reading behind `m`. */
  lemma SendClaim(r: State -> bool, o: State, id: FileId, m: Time) returns (s: State)
    requires Closed(r) && r(o) && Init(o) && o.s3
    ensures var claim := CompletionClaim(id, Some(5), m, Some(1));
            && r(s) && s.s3 && s.pending == multiset{Issue(1, claim)}
            && s.readings == {ClaimReading(1, id, m - LEASE)}
            && s.agents == map[0 := Writer(id, 5, Managed, Writing), 1 := Completer(id, m, Some(1), Claiming(claim))]
            && id in s.rows && s.rows[id] == InitialRow(5, Managed)
  {
    s := PlaySave(r, o, id, 5, Managed);
    var claim := CompletionClaim(id, Some(5), m, Some(1));
    s := PlayMove(r, s, StartCompletion(1, claim, Some(1), m - LEASE));
  }

  /** The claim of process 1 wins the pending row. */
  lemma WinClaim(r: State -> bool, o: State, id: FileId, m: Time) returns (s: State)
    requires var claim := CompletionClaim(id, Some(5), m, Some(1));
             && Closed(r) && r(o) && o.pending == multiset{Issue(1, claim)}
             && 1 in o.agents && o.agents[1] == Completer(id, m, Some(1), Claiming(claim))
             && id in o.rows && o.rows[id] == InitialRow(5, Managed)
    ensures r(s) && s.s3 == o.s3 && s.pending == multiset{} && s.readings == o.readings
    ensures s.agents == o.agents[1 := Completer(id, m, Some(1), Heading)]
    ensures id in s.rows && s.rows[id] == CompletingRow(m)
  {
    s := PlayAnswer(r, o, 1, 0, id);
  }

  /** Process 1 claims the saved upload `id` at the reading behind `m`. */
  lemma FirstCompletion(r: State -> bool, o: State, id: FileId, m: Time) returns (s: State)
    requires Closed(r) && r(o) && Init(o) && o.s3
    ensures r(s) && s.s3 && s.pending == multiset{} && s.readings == {ClaimReading(1, id, m - LEASE)}
    ensures s.agents == map[0 := Writer(id, 5, Managed, Writing), 1 := Completer(id, m, Some(1), Heading)]
    ensures id in s.rows && s.rows[id] == CompletingRow(m)
  {
    s := SendClaim(r, o, id, m);
    s := WinClaim(r, s, id, m);
  }

  /** Process `q` reads the row and sends its reclaim. */
  lemma SendReclaim(r: State -> bool, s: State, q: Pid, id: FileId, previous: Time, now: Time) returns (s': State)
    requires Closed(r) && r(s) && s.s3 && q !in s.agents && id in s.rows && s.rows[id].managed && previous <= now
    ensures var st := CompletionReclaim(id, Some(previous), Some(1), now + LEASE, Some(1));
            && r(s') && s'.rows == s.rows && s'.s3 == s.s3
            && s'.agents == s.agents[q := Completer(id, now + LEASE, Some(1), Claiming(st))]
            && s'.pending == s.pending + multiset{Issue(q, st)}
            && s'.readings == s.readings + {ClaimReading(q, id, now)}
  {
    var st := CompletionReclaim(id, Some(previous), Some(1), now + LEASE, Some(1));
    s' := PlayMove(r, s, StartCompletion(q, st, Some(1), now));
  }

  /** The reclaim wins a row that still carries the marker it was sent against. */
  lemma WinReclaim(r: State -> bool, s: State, q: Pid, id: FileId, previous: Time, marker: Time) returns (s': State)
    requires Closed(r) && r(s) && q in s.agents && id in s.rows && s.rows[id] == CompletingRow(previous)
    requires var st := CompletionReclaim(id, Some(previous), Some(1), marker, Some(1));
             s.agents[q] == Completer(id, marker, Some(1), Claiming(st)) && Issue(q, st) in s.pending
    ensures r(s') && s'.agents == s.agents[q := Completer(id, marker, Some(1), Heading)] && s'.readings == s.readings
    ensures id in s'.rows && s'.rows[id] == CompletingRow(marker) && s'.objects == s.objects
    ensures s'.pending ==
              s.pending - multiset{Issue(q, CompletionReclaim(id, Some(previous), Some(1), marker, Some(1)))}
  {
    s' := PlayAnswer(r, s, q, 0, id);
  }

  /** Process `q` gives up at clock time `now`, and its retry mark lands. */
  lemma LandRetryMark(r: State -> bool, s: State, q: Pid, id: FileId, marker: Time, now: Time) returns (s': State)
    requires Closed(r) && r(s) && q in s.agents && id in s.rows && s.rows[id] == CompletingRow(marker)
    requires s.agents[q] == Completer(id, marker, Some(1), Retrying(now - 1))
    requires Issue(q, CompletionRetryable(id, marker, now - 1)) in s.pending
    ensures r(s') && s'.agents == s.agents[q := Idle] && s'.readings == s.readings && s'.objects == s.objects
    ensures id in s'.rows && s'.rows[id] == CompletingRow(now - 1)
    ensures s'.pending == s.pending - multiset{Issue(q, CompletionRetryable(id, marker, now - 1))}
  {
    s' := PlayAnswer(r, s, q, 0, id);
  }

  lemma HeadMissing(r: State -> bool, s: State, p: Pid) returns (s': State)
    requires Closed(r) && r(s) && p in s.agents && s.agents[p].Completer? && s.agents[p].cpc.Heading?
    ensures r(s') && s'.agents == s.agents[p := s.agents[p].(cpc := Promoting)]
    ensures s'.rows == s.rows && s'.pending == s.pending && s'.readings == s.readings
  {
    s' := PlayMove(r, s, Head(p, Missing, 0));
  }

  /** The object is stored; the call then answers, or fails at clock time `now`. */
  lemma Promoted(r: State -> bool, s: State, p: Pid, ok: bool, now: Time) returns (s': State)
    requires Closed(r) && r(s) && p in s.agents && s.agents[p].Completer? && s.agents[p].cpc.Promoting?
    ensures var next := if ok then s.agents[p].(cpc := HeadingAgain) else Retry(s.agents[p], now);
            && r(s') && s'.agents == s.agents[p := next] && s'.rows == s.rows && s.agents[p].id in s'.objects
            && s'.pending == s.pending + Sent(p, next) && s'.readings == s.readings + ReadingOf(p, next)
  {
    s' := PlayMove(r, s, Promote(p, true, ok, now));
  }

  lemma HeadVerified(r: State -> bool, s: State, p: Pid) returns (s': State)
    requires Closed(r) && r(s) && p in s.agents && s.agents[p].Completer? && s.agents[p].id in s.objects
    requires s.agents[p].cpc.Heading? || s.agents[p].cpc.HeadingAgain?
    ensures r(s') && s'.agents == s.agents[p := s.agents[p].(cpc := Finalizing(Some(2)))] && s'.rows == s.rows
    ensures s'.pending == s.pending
              + multiset{Issue(p, CompletionFinalize(s.agents[p].id, s.agents[p].marker, Some(2)))}
    ensures s'.readings == s.readings && s'.objects == s.objects
  {
    s' := PlayMove(r, s, Head(p, Verified(Some(2)), 0));
  }

  // --- Brought back by a retry mark --------------------------------------------------

  /** Process 2 takes the row over in the millisecond in which the lease of process 1 ends. */
  lemma TakenOver(r: State -> bool, o: State, id: FileId, m: Time) returns (s: State)
    requires Closed(r) && r(o) && Init(o) && o.s3
    ensures r(s) && TookOver(s, id, m)
  {
    s := FirstCompletion(r, o, id, m);
    s := SendReclaim(r, s, 2, id, m, m);
    s := WinReclaim(r, s, 2, id, m, m + LEASE);
  }

  /** Its promotion stores the object and then fails one millisecond later. */
  lemma GivenBack(r: State -> bool, o: State, id: FileId, m: Time) returns (s: State)
    requires Closed(r) && r(o) && TookOver(o, id, m)
    ensures r(s) && s.readings == o.readings + {RetryReading(2, id, m + 1)} && id in s.objects
    ensures 1 in s.agents && s.agents[1] == o.agents[1] && id in s.rows && s.rows[id] == CompletingRow(m)
  {
    s := HeadMissing(r, o, 2);
    s := Promoted(r, s, 2, false, m + 1);
    s := LandRetryMark(r, s, 2, id, m + LEASE, m + 1);
  }

  lemma FinalizationSent(r: State -> bool, o: State, p: Pid, id: FileId, m: Time) returns (s: State)
    requires Closed(r) && r(o) && p in o.agents && o.agents[p] == Completer(id, m, Some(1), Heading) && id in o.objects
    requires id in o.rows && o.rows[id] == CompletingRow(m)
    ensures r(s) && CanFinalize(s, p, id, m) && s.readings == o.readings && s.rows == o.rows
  {
    s := HeadVerified(r, o, p);
    FinalizeHitsIff(s, id, m, Some(2));
    assert Issue(p, CompletionFinalize(id, m, Some(2))) in s.pending;
  }

  /**
   A retry mark alone revives a replaced completer, for every row and every marker: no other process
   ever claimed at the reading behind `m`.
   */
  lemma RetryMarkRevives(id: FileId, m: Time) returns (s: State, s': State, p: Pid)
    ensures Reachable(s) && Replaced(s, p, id, m) && PastClaim(s.agents[p])
    ensures Reaches(s, s') && CanFinalize(s', p, id, m) && RetryMarkWrites(s', id, m) && !ClaimedTwice(s', p, id, m)
  {
    s := ReachTakenOver(id, m);
    s' := ReachRetryMark(s, id, m);
    p := 1;
    assert RetryReading(2, id, m + 1) in s'.readings;
  }

  predicate TookOver(s: State, id: FileId, m: Time) {
    && s.pending == multiset{} && s.readings == {ClaimReading(1, id, m - LEASE), ClaimReading(2, id, m)}
    && s.agents.Keys == {0, 1, 2} && s.agents[1] == Completer(id, m, Some(1), Heading)
    && s.agents[2] == Completer(id, m + LEASE, Some(1), Heading)
    && id in s.rows && s.rows[id] == CompletingRow(m + LEASE)
  }

  lemma ReachTakenOver(id: FileId, m: Time) returns (s: State)
    ensures Reachable(s) && TookOver(s, id, m)
  {
    ReachesItself(NOWHERE);
    ReachesIsClosed(NOWHERE);
    s := TakenOver(x => Reaches(NOWHERE, x), NOWHERE, id, m);
    assert Init(NOWHERE) && Reaches(NOWHERE, s);
  }

  lemma ReachRetryMark(s: State, id: FileId, m: Time) returns (s': State)
    requires TookOver(s, id, m)
    ensures Reaches(s, s') && CanFinalize(s', 1, id, m) && s'.readings == s.readings + {RetryReading(2, id, m + 1)}
    ensures id in s'.rows && s'.rows[id].managed
  {
    ReachesItself(s);
    ReachesIsClosed(s);
    s' := GivenBack(x => Reaches(s, x), s, id, m);
    s' := FinalizationSent(x => Reaches(s, x), s', 1, id, m);
  }

  // --- Brought back by a second claim at the same reading ------------------------------

  /** Processes 2 and 3 read the same expired row at the same clock time; process 2 wins. */
  lemma ClaimedTogether(r: State -> bool, o: State, id: FileId, now: Time) returns (s: State)
    requires Closed(r) && r(o) && Init(o) && o.s3
    ensures var late := CompletionReclaim(id, Some(now), Some(1), now + LEASE, Some(1));
            && r(s) && s.pending == multiset{Issue(3, late)}
            && s.readings == {ClaimReading(1, id, now - LEASE), ClaimReading(2, id, now), ClaimReading(3, id, now)}
            && s.agents.Keys == {0, 1, 2, 3} && s.agents[2] == Completer(id, now + LEASE, Some(1), Heading)
            && s.agents[3] == Completer(id, now + LEASE, Some(1), Claiming(late))
            && id in s.rows && s.rows[id] == CompletingRow(now + LEASE)
  {
    s := FirstCompletion(r, o, id, now);
    s := SendReclaim(r, s, 2, id, now, now);
    s := SendReclaim(r, s, 3, id, now, now);
    s := WinReclaim(r, s, 2, id, now, now + LEASE);
  }

  /** Process 2 promotes, sends its finalization, sees an error and marks the row retryable. */
  lemma FinalizationLost(r: State -> bool, o: State, id: FileId, now: Time) returns (s: State)
    requires Closed(r) && r(o) && 2 in o.agents && o.agents[2] == Completer(id, now + LEASE, Some(1), Heading)
    requires id in o.rows && o.rows[id] == CompletingRow(now + LEASE)
    ensures r(s) && s.agents == o.agents[2 := Idle] && s.readings == o.readings + {RetryReading(2, id, now + 1)}
    ensures s.pending == o.pending + multiset{Issue(2, CompletionFinalize(id, now + LEASE, Some(2)))}
    ensures id in s.rows && s.rows[id] == CompletingRow(now)
  {
    s := FinalizationInFlight(r, o, id, now + LEASE);
    s := PlayMove(r, s, Lost(2, false, now + 1));
    s := LandRetryMark(r, s, 2, id, now + LEASE, now + 1);
  }

  lemma FinalizationInFlight(r: State -> bool, o: State, id: FileId, marker: Time) returns (s: State)
    requires Closed(r) && r(o) && 2 in o.agents && o.agents[2] == Completer(id, marker, Some(1), Heading)
    requires id in o.rows
    ensures r(s) && s.rows == o.rows && s.readings == o.readings
    ensures s.agents == o.agents[2 := Completer(id, marker, Some(1), Finalizing(Some(2)))]
    ensures s.pending == o.pending + multiset{Issue(2, CompletionFinalize(id, marker, Some(2)))}
  {
    s := HeadMissing(r, o, 2);
    s := Promoted(r, s, 2, true, 0);
    s := HeadVerified(r, s, 2);
  }

  /**
   A second claim at the reading behind `m` alone revives a replaced completer, for every row and
   every marker: no retry mark was ever made at `m + 1`, and no clock ran backwards.
   */
  lemma SecondClaimRevives(id: FileId, m: Time) returns (s: State, s': State, p: Pid)
    ensures Reachable(s) && Replaced(s, p, id, m)
    ensures Reaches(s, s') && CanFinalize(s', p, id, m) && ClaimedTwice(s', p, id, m) && !RetryMarkWrites(s', id, m)
  {
    s := ReachLostFinalization(id, m - LEASE);
    s' := ReachSecondClaim(s, id, m - LEASE);
    p := 2;
    TwoClaimsAndALateMark(s, s'.readings, id, m);
  }

  lemma TwoClaimsAndALateMark(s: State, readings: set<Reading>, id: FileId, m: Time)
    requires BothInFlight(s, id, m - LEASE) && readings == s.readings
    ensures Replaced(s, 2, id, m)
    ensures exists r <- readings :: r.ClaimReading? && r.author != 2 && r.id == id && r.now == m - LEASE
    ensures !exists r <- readings :: r.RetryReading? && r.id == id && r.now == m + 1
  {
    assert ClaimReading(3, id, m - LEASE) in readings;
  }

  /** The finalization of process 2 and the reclaim of process 3 are both still in flight. */
  predicate BothInFlight(s: State, id: FileId, now: Time) {
    var late := CompletionReclaim(id, Some(now), Some(1), now + LEASE, Some(1));
    && s.pending == multiset{Issue(3, late), Issue(2, CompletionFinalize(id, now + LEASE, Some(2)))}
    && s.readings == {ClaimReading(1, id, now - LEASE), ClaimReading(2, id, now), ClaimReading(3, id, now),
        RetryReading(2, id, now + 1)}
    && s.agents.Keys == {0, 1, 2, 3} && s.agents[3] == Completer(id, now + LEASE, Some(1), Claiming(late))
    && id in s.rows && s.rows[id] == CompletingRow(now)
  }

  lemma ReachLostFinalization(id: FileId, now: Time) returns (s: State)
    ensures Reachable(s) && BothInFlight(s, id, now)
  {
    ReachesItself(NOWHERE);
    ReachesIsClosed(NOWHERE);
    s := ClaimedTogether(x => Reaches(NOWHERE, x), NOWHERE, id, now);
    s := FinalizationLost(x => Reaches(NOWHERE, x), s, id, now);
    assert Init(NOWHERE) && Reaches(NOWHERE, s);
  }

  lemma ReachSecondClaim(s: State, id: FileId, now: Time) returns (s': State)
    requires BothInFlight(s, id, now)
    ensures Reaches(s, s') && CanFinalize(s', 2, id, now + LEASE) && s'.readings == s.readings
  {
    ReachesItself(s);
    ReachesIsClosed(s);
    s' := LateClaimWins(x => Reaches(s, x), s, id, now);
  }

  lemma LateClaimWins(r: State -> bool, s: State, id: FileId, now: Time) returns (s': State)
    requires Closed(r) && r(s) && BothInFlight(s, id, now)
    ensures r(s') && CanFinalize(s', 2, id, now + LEASE) && s'.readings == s.readings
  {
    s' := WinReclaim(r, s, 3, id, now, now + LEASE);
    assert Issue(2, CompletionFinalize(id, now + LEASE, Some(2))) in s'.pending;
    FinalizeHitsIff(s', id, now + LEASE, Some(2));
  }

  // --- Exactly these readings --------------------------------------------------------

  /** A replaced process gets its finalization in, with these of the two readings made by then. */
  ghost predicate Revived(s: State, s': State, p: Pid, id: FileId, m: Time, retry: bool, again: bool) {
    && Reachable(s) && Replaced(s, p, id, m) && Reaches(s, s') && CanFinalize(s', p, id, m)
    && RetryMarkWrites(s', id, m) == retry && ClaimedTwice(s', p, id, m) == again
  }

  /** Both readings at once: some process also sends a claim at the reading behind `m`, whatever becomes of it. */
  lemma BothReadingsRevive(id: FileId, m: Time) returns (s: State, s'': State)
    ensures Revived(s, s'', 1, id, m, true, true)
  {
    s := ReachTakenOver(id, m);
    var s' := ReachRetryMark(s, id, m);
    s'' := ReachClaimToo(s, s', id, m);
    assert RetryReading(2, id, m + 1) in s''.readings;
  }

  lemma ReachClaimToo(s: State, s': State, id: FileId, m: Time) returns (s'': State)
    requires Reaches(s, s') && CanFinalize(s', 1, id, m) && id in s'.rows && s'.rows[id].managed
    ensures Reaches(s, s'') && CanFinalize(s'', 1, id, m) && s'.readings <= s''.readings && ClaimedTwice(s'', 1, id, m)
  {
    ReachesIsClosed(s);
    s'' := ClaimToo(x => Reaches(s, x), s', id, m);
  }

  lemma ClaimToo(r: State -> bool, s': State, id: FileId, m: Time) returns (s'': State)
    requires Closed(r) && r(s') && CanFinalize(s', 1, id, m) && id in s'.rows && s'.rows[id].managed
    ensures r(s'') && CanFinalize(s'', 1, id, m) && s'.readings <= s''.readings && ClaimedTwice(s'', 1, id, m)
  {
    var bound := BoundedPids(s'.agents.Keys);
    s'' := SendLateClaim(r, s', bound + 2, id, m);
    StillFinalizes(s', s'', 1, id, m);
  }

  lemma SendLateClaim(r: State -> bool, s: State, q: Pid, id: FileId, m: Time) returns (s': State)
    requires Closed(r) && r(s) && q !in s.agents && id in s.rows && s.rows[id].managed
    ensures r(s') && s'.rows == s.rows && s.pending <= s'.pending
    ensures s.readings <= s'.readings && ClaimReading(q, id, m - LEASE) in s'.readings
  {
    s' := PlayMove(r, s, StartCompletion(q, CompletionClaim(id, None, m, Some(1)), Some(1), m - LEASE));
  }

  /** A finalization in flight stays in flight while others only send. */
  lemma StillFinalizes(s: State, s': State, p: Pid, id: FileId, m: Time)
    requires CanFinalize(s, p, id, m) && s'.rows == s.rows && s.pending <= s'.pending
    ensures CanFinalize(s', p, id, m)
  {
    var etag :| Issue(p, CompletionFinalize(id, m, etag)) in s.pending
        && Hits(s.rows, CompletionFinalize(id, m, etag), id);
    assert Issue(p, CompletionFinalize(id, m, etag)) in s'.pending;
  }

  lemma RevivalIsRead(s: State, s': State, p: Pid, id: FileId, m: Time)
    requires Reachable(s) && Replaced(s, p, id, m) && Reaches(s, s') && CanFinalize(s', p, id, m)
    ensures Revivable(s', p, id, m)
  {
    var s0 :| Init(s0) && Reaches(s0, s);
    var before :| Admissible(s0, before) && Run(s0, before) == s;
    var after :| Admissible(s, after) && Run(s, after) == s';
    ReplacedCompleterFinalizesOnlyIf(s0, before, after, p, id, m);
  }

  /**
   Exactly which clock readings let a replaced completer finalize: for every row, every marker and each
   answer to "was a retry mark made at `m + 1`?" and "did another process claim at `m - LEASE`?", there
   is such a run if and only if one of the answers is yes.
   */
  lemma RevivalIff(id: FileId, m: Time, retry: bool, again: bool)
    ensures (exists s, s', p :: Revived(s, s', p, id, m, retry, again)) <==> retry || again
  {
    if s, s', p :| Revived(s, s', p, id, m, retry, again) {
      RevivalIsRead(s, s', p, id, m);
    }
    if retry && again {
      var s, s' := BothReadingsRevive(id, m);
    } else if retry {
      var s, s', p := RetryMarkRevives(id, m);
      assert Revived(s, s', p, id, m, true, false);
    } else if again {
      var s, s', p := SecondClaimRevives(id, m);
      assert Revived(s, s', p, id, m, false, true);
    }
  }
}
