/**
 The bounded maintenance sweep over pending deletions, and why poison rows cannot starve it.
 */
module RetrySweep {
  import opened Wrappers
  import opened UploadRows

  const DELETION_CLAIM_LEASE_MS: Time := 15 * 60 * 1000
  const DELETION_RETRY_BACKOFF_MS: Time := 60 * 1000
  const UPLOADED_FILE_BATCH_LIMIT: nat := 100

  // --- Candidates ------------------------------------------------------------------

  predicate SettledDue(row: Row, now: Time) {
    row.uploadPendingAt.None? && row.deletionPendingAt.Some? && row.deletionPendingAt.value < now
  }

  predicate InitialDue(row: Row, now: Time) {
    row.uploadPendingAt.Some? && row.uploadPendingAt.value < now && row.deletionPendingAt.None?
  }

  predicate RetryDue(row: Row, now: Time) {
    && row.uploadPendingAt.Some? && row.uploadPendingAt.value < now
    && row.deletionPendingAt.Some? && row.deletionPendingAt.value < now
  }

  function Settled(rows: Table, now: Time): set<FileId> {
    set id | id in rows && SettledDue(rows[id], now)
  }

  function InitialTombstones(rows: Table, now: Time): set<FileId> {
    set id | id in rows && InitialDue(rows[id], now)
  }

  function RetryTombstones(rows: Table, now: Time): set<FileId> {
    set id | id in rows && RetryDue(rows[id], now)
  }

  /** The expired marker a row is taken by, if it still has one. */
  function SelectedMarker(row: Row, now: Time): Option<Time> {
    if row.deletionPendingAt.Some? && row.deletionPendingAt.value < now then row.deletionPendingAt
    else if row.uploadPendingAt.Some? && row.uploadPendingAt.value < now && row.deletionPendingAt.None?
    then row.uploadPendingAt
    else None
  }

  /** The ORDER BY column of a query. */
  datatype Order = ByDeletion | ByUpload

  function Key(rows: Table, order: Order, id: FileId): Time {
    if id !in rows then 0
    else
      var marker := if order.ByDeletion? then rows[id].deletionPendingAt else rows[id].uploadPendingAt;
      if marker.Some? then marker.value else 0
  }

  function Min(a: nat, b: nat): nat {
    if a <= b then a else b
  }

  function Elements(s: seq<FileId>): set<FileId> {
    set x | x in s
  }

  predicate Distinct(s: seq<FileId>) {
    forall i, j | 0 <= i < j < |s| :: s[i] != s[j]
  }

  predicate Apart(a: seq<FileId>, b: seq<FileId>) {
    forall x <- a :: x !in b
  }

  lemma DistinctJoin(a: seq<FileId>, b: seq<FileId>)
    requires Distinct(a) && Distinct(b) && Apart(a, b)
    ensures Distinct(a + b)
  {
    var ab := a + b;
    forall i, j | 0 <= i < j < |ab| ensures ab[i] != ab[j] {
      if i < |a| <= j {
        assert a[i] in a && b[j - |a|] in b;
      } else if |a| <= i {
        assert b[i - |a|] != b[j - |a|];
      }
    }
  }

  lemma ApartParts(a: seq<FileId>, c: seq<FileId>, b: seq<FileId>, d: seq<FileId>)
    requires Apart(a + c, b + d)
    ensures Apart(a, b) && Apart(a, d) && Apart(c, b) && Apart(c, d)
  {
    forall x | x in a || x in c ensures x !in b && x !in d {
      assert x in a + c;
      assert x !in b + d;
    }
  }

  lemma DistinctSplit(a: seq<FileId>, b: seq<FileId>)
    requires Distinct(a + b)
    ensures Distinct(a) && Distinct(b) && Apart(a, b)
  {
    var ab := a + b;
    forall i, j | 0 <= i < j < |a| ensures a[i] != a[j] { assert ab[i] != ab[j]; }
    forall i, j | 0 <= i < j < |b| ensures b[i] != b[j] { assert ab[|a| + i] != ab[|a| + j]; }
    forall i, j | 0 <= i < |a| && 0 <= j < |b| ensures a[i] != b[j] { assert ab[i] != ab[|a| + j]; }
  }

  /** Entry `i` of a distinct sequence does not occur before it. */
  lemma DistinctEntry(s: seq<FileId>, i: nat)
    requires Distinct(s) && i < |s|
    ensures s[i] !in s[..i]
  {
  }

  lemma {:induction false} DistinctCardinality(s: seq<FileId>)
    requires Distinct(s)
    ensures |Elements(s)| == |s|
  {
    if |s| > 0 {
      var front, last := s[..|s| - 1], s[|s| - 1];
      DistinctCardinality(front);
      assert last !in front;
      assert Elements(s) == Elements(front) + {last};
    }
  }

  lemma SubsetCardinality(a: set<FileId>, b: set<FileId>)
    requires a <= b
    ensures |a| <= |b| && (|a| == |b| ==> a == b)
  {
    assert b == a + (b - a);
  }

  ghost predicate Cut(queue: seq<FileId>, candidates: set<FileId>, take: nat) {
    && Distinct(queue)
    && (forall x <- queue :: x in candidates)
    && |queue| == Min(take, |candidates|)
  }

  /** What `find({ where, order, take })` promises: the `take` smallest candidates. */
  ghost predicate Smallest(result: seq<FileId>, candidates: set<FileId>, rows: Table, order: Order, take: nat) {
    && Cut(result, candidates, take)
    && (forall r, c {:trigger Key(rows, order, r), Key(rows, order, c)} |
          r in result && c in candidates && c !in result ::
          Key(rows, order, r) <= Key(rows, order, c))
  }

  method FindOrdered(candidates: set<FileId>, rows: Table, order: Order, take: nat) returns (result: seq<FileId>)
    ensures Smallest(result, candidates, rows, order, take)
  {
    result := [];
    var rest := candidates;
    while |result| < take && rest != {}
      invariant Distinct(result) && |result| <= take
      invariant rest <= candidates && |result| + |rest| == |candidates|
      invariant forall x <- result :: x in candidates && x !in rest
      invariant forall c <- candidates :: c in rest || c in result
      invariant forall r, c | r in result && c in rest :: Key(rows, order, r) <= Key(rows, order, c)
      decreases |rest|
    {
      var least := PickLeast(rest, rows, order);
      result := result + [least];
      rest := rest - {least};
    }
  }

  method PickLeast(pool: set<FileId>, rows: Table, order: Order) returns (least: FileId)
    requires pool != {}
    ensures least in pool && forall c <- pool :: Key(rows, order, least) <= Key(rows, order, c)
  {
    least :| least in pool;
    var rest := pool - {least};
    while rest != {}
      invariant rest <= pool && least in pool
      invariant forall c | c in pool && c !in rest :: Key(rows, order, least) <= Key(rows, order, c)
      decreases |rest|
    {
      var c :| c in rest;
      if Key(rows, order, c) < Key(rows, order, least) {
        least := c;
      }
      rest := rest - {c};
    }
  }

  // --- Sharing the batch between the two tombstone queues ---------------------------

  function Take(s: seq<FileId>, n: nat): seq<FileId> {
    s[..Min(n, |s|)]
  }

  function Drop(s: seq<FileId>, n: nat): seq<FileId> {
    s[Min(n, |s|)..]
  }

  /** Half the remaining capacity for each queue, then whatever is left over goes to either. */
  function Unresolved(initial: seq<FileId>, retry: seq<FileId>, remaining: nat): seq<FileId> {
    var initialQuota := (remaining + 1) / 2;
    var retryQuota := remaining - initialQuota;
    var first := Take(initial, initialQuota) + Take(retry, retryQuota);
    first + Take(Drop(initial, initialQuota) + Drop(retry, retryQuota), remaining - |first|)
  }

  lemma DistinctTake(s: seq<FileId>, n: nat)
    requires Distinct(s)
    ensures Distinct(Take(s, n))
  {
  }

  /** Reordering two queues around a cut, and cutting the tail, repeats nothing. */
  lemma DistinctShuffle(a: seq<FileId>, b: seq<FileId>, c: seq<FileId>, d: seq<FileId>, n: nat)
    requires Distinct((a + c) + (b + d))
    ensures Distinct(a + b + Take(c + d, n))
    ensures forall x <- a + b + Take(c + d, n) :: x in (a + c) + (b + d)
  {
    var t := Take(c + d, n);
    DistinctSplit(a + c, b + d);
    ApartParts(a, c, b, d);
    DistinctSplit(a, c);
    DistinctSplit(b, d);
    DistinctJoin(c, d);
    DistinctTake(c + d, n);
    DistinctJoin(a, b);
    forall x | x in a + b ensures x !in t {
      assert x in a || x in b;
      assert x !in c && x !in d;
      assert forall y <- t :: y in c + d;
    }
    DistinctJoin(a + b, t);
    forall x | x in a + b + t ensures x in (a + c) + (b + d) {
      assert x in a || x in b || x in c + d;
    }
  }

  /** The shared capacity is used in full, without repetition, and neither queue loses its half. */
  lemma UnresolvedShares(initial: seq<FileId>, retry: seq<FileId>, remaining: nat)
    requires Distinct(initial + retry)
    ensures var u := Unresolved(initial, retry, remaining);
            && Distinct(u)
            && (forall x <- u :: x in initial + retry)
            && |u| == Min(remaining, |initial| + |retry|)
            && (forall x <- Take(initial, (remaining + 1) / 2) :: x in u)
            && (forall x <- Take(retry, remaining / 2) :: x in u)
  {
    var iq := (remaining + 1) / 2;
    var rq := remaining - iq;
    var a, b, c, d := Take(initial, iq), Take(retry, rq), Drop(initial, iq), Drop(retry, rq);
    assert initial == a + c && retry == b + d;
    DistinctShuffle(a, b, c, d, remaining - |a + b|);
  }

  // --- One sweep -------------------------------------------------------------------

  /** The three query results one sweep works on, and the tombstones chosen from the last two. */
  datatype Queues = Queues(settled: seq<FileId>, initial: seq<FileId>, retry: seq<FileId>, unresolved: seq<FileId>) {
    function Batch(): seq<FileId> {
      settled + unresolved
    }
  }

  ghost predicate Queried(rows: Table, now: Time, limit: nat, q: Queues) {
    && Smallest(q.settled, Settled(rows, now), rows, ByDeletion, limit)
    && Smallest(q.initial, InitialTombstones(rows, now), rows, ByUpload, limit - |q.settled|)
    && Smallest(q.retry, RetryTombstones(rows, now), rows, ByDeletion, limit - |q.settled|)
    && q.unresolved == Unresolved(q.initial, q.retry, limit - |q.settled|)
  }

  function Eligible(rows: Table, now: Time): set<FileId> {
    Settled(rows, now) + InitialTombstones(rows, now) + RetryTombstones(rows, now)
  }

  /** A marker that is pending, but not yet due. */
  predicate Waits(marker: Option<Time>, now: Time) {
    marker.Some? && now <= marker.value
  }

  /** Exactly the rows with something pending are eligible, once each of their markers lies in the past. */
  lemma EligibleIff(rows: Table, now: Time, id: FileId)
    ensures id in Eligible(rows, now) <==>
              && id in rows && !(rows[id].uploadPendingAt.None? && rows[id].deletionPendingAt.None?)
              && !Waits(rows[id].uploadPendingAt, now) && !Waits(rows[id].deletionPendingAt, now)
  {
  }

  /** So whatever is pending becomes eligible, and stays so until somebody touches the row. */
  lemma PendingRowsBecomeEligible(rows: Table, id: FileId) returns (from: Time)
    requires id in rows && (rows[id].uploadPendingAt.Some? || rows[id].deletionPendingAt.Some?)
    ensures forall now | now > from :: id in Eligible(rows, now)
  {
    var upload := if rows[id].uploadPendingAt.Some? then rows[id].uploadPendingAt.value else 0;
    var deletion := if rows[id].deletionPendingAt.Some? then rows[id].deletionPendingAt.value else 0;
    from := if upload < deletion then deletion else upload;
    forall now | now > from ensures id in Eligible(rows, now) { EligibleIff(rows, now, id); }
  }

  lemma CandidatesDisjoint(rows: Table, now: Time)
    ensures Settled(rows, now) !! InitialTombstones(rows, now)
    ensures (Settled(rows, now) + InitialTombstones(rows, now)) !! RetryTombstones(rows, now)
  {
  }

  /**
   A batch of exactly `min(limit, eligible)` distinct rows, settled deletions first, in which
   tombstones of either kind keep their half of the remaining capacity.
   */
  ghost predicate Fair(q: Queues, limit: nat, settled: set<FileId>, initial: set<FileId>, retry: set<FileId>) {
    && |q.settled| == Min(limit, |settled|)
    && Cut(q.Batch(), settled + initial + retry, limit)
    && (forall x | x in q.Batch() && x in settled :: x in q.settled)
    && SharesKept(q, limit - |q.settled|, initial, retry)
  }

  ghost predicate SharesKept(q: Queues, remaining: nat, initial: set<FileId>, retry: set<FileId>) {
    && |q.initial| == Min(remaining, |initial|) && |q.retry| == Min(remaining, |retry|)
    && (forall x <- Take(q.initial, (remaining + 1) / 2) :: x in q.unresolved)
    && (forall x <- Take(q.retry, remaining / 2) :: x in q.unresolved)
  }

  lemma DisjointCount(a: set<FileId>, b: set<FileId>, c: set<FileId>)
    requires a !! b && (a + b) !! c
    ensures |a + b + c| == |a| + |b| + |c|
  {
  }

  lemma WholeBatch(front: seq<FileId>, u: seq<FileId>, limit: nat, settled: set<FileId>, tombstones: set<FileId>)
    requires settled !! tombstones && Cut(front, settled, limit) && Distinct(u) && |front| <= limit
    requires (forall x <- u :: x in tombstones) && |u| == Min(limit - |front|, |settled + tombstones| - |settled|)
    ensures Cut(front + u, settled + tombstones, limit)
    ensures forall x | x in front + u && x in settled :: x in front
  {
    DistinctJoin(front, u);
    SubsetCardinality(settled, settled + tombstones);
  }

  lemma QueuesShare(q: Queues, remaining: nat, initial: set<FileId>, retry: set<FileId>)
    requires initial !! retry && Cut(q.initial, initial, remaining) && Cut(q.retry, retry, remaining)
    requires q.unresolved == Unresolved(q.initial, q.retry, remaining)
    ensures Distinct(q.unresolved) && (forall x <- q.unresolved :: x in initial + retry)
    ensures |q.unresolved| == Min(remaining, |initial| + |retry|)
    ensures SharesKept(q, remaining, initial, retry)
  {
    DistinctJoin(q.initial, q.retry);
    UnresolvedShares(q.initial, q.retry, remaining);
    forall x | x in q.unresolved ensures x in initial + retry {
      assert x in q.initial || x in q.retry;
    }
  }

  lemma FairWhole(
      front: seq<FileId>, u: seq<FileId>, limit: nat, settled: set<FileId>, initial: set<FileId>, retry: set<FileId>)
    requires settled !! initial && (settled + initial) !! retry
    requires Cut(front, settled, limit) && Distinct(u) && forall x <- u :: x in initial + retry
    requires |u| == Min(limit - |front|, |initial| + |retry|)
    ensures Cut(front + u, settled + initial + retry, limit)
    ensures forall x | x in front + u && x in settled :: x in front
  {
    DisjointCount(settled, initial, retry);
    assert settled + initial + retry == settled + (initial + retry);
    WholeBatch(front, u, limit, settled, initial + retry);
  }

  lemma FairFromCuts(q: Queues, limit: nat, settled: set<FileId>, initial: set<FileId>, retry: set<FileId>)
    requires settled !! initial && (settled + initial) !! retry && Cut(q.settled, settled, limit)
    requires Cut(q.initial, initial, limit - |q.settled|) && Cut(q.retry, retry, limit - |q.settled|)
    requires q.unresolved == Unresolved(q.initial, q.retry, limit - |q.settled|)
    ensures Fair(q, limit, settled, initial, retry)
  {
    assert initial !! retry;
    QueuesShare(q, limit - |q.settled|, initial, retry);
    FairWhole(q.settled, q.unresolved, limit, settled, initial, retry);
  }

  /** Every sweep works on a fair batch of the rows that are due. */
  lemma BatchIsFair(rows: Table, now: Time, limit: nat, q: Queues)
    requires Queried(rows, now, limit, q)
    ensures Fair(q, limit, Settled(rows, now), InitialTombstones(rows, now), RetryTombstones(rows, now))
  {
    CandidatesDisjoint(rows, now);
    FairFromCuts(q, limit, Settled(rows, now), InitialTombstones(rows, now), RetryTombstones(rows, now));
  }

  lemma BatchUsable(rows: Table, now: Time, limit: nat, q: Queues)
    requires Queried(rows, now, limit, q)
    ensures |q.settled| <= limit && Distinct(q.Batch()) && forall x <- q.Batch() :: x in Eligible(rows, now)
  {
    BatchIsFair(rows, now, limit, q);
  }

  // --- The worker ------------------------------------------------------------------

  /** A row whose object deletion failed: visible again only after the backoff. */
  function Released(row: Row, retryAt: Time): Row {
    row.(deletedAt := None, deletionPendingAt := Some(retryAt))
  }

  /** A row whose object is gone: only an unresolved upload tombstone keeps its claim. */
  function Finalized(row: Row, at: Time, claim: Time): Row {
    row.(deletedAt := Some(at), deletionPendingAt := if row.uploadPendingAt.Some? then Some(claim) else None)
  }

  /** A caller's limit: any JavaScript number. */
  datatype Limit = NonFinite | Finite(value: real)

  /**
   Whole numbers from 1 to the cap are kept, fractions rounded down, and anything else clamped; no number at all means
   the cap.
   */
  function SystemDeletionLimit(limit: Limit): (r: nat)
    ensures 1 <= r <= UPLOADED_FILE_BATCH_LIMIT
    ensures limit.NonFinite? || limit.value >= UPLOADED_FILE_BATCH_LIMIT as real ==> r == UPLOADED_FILE_BATCH_LIMIT
    ensures limit.Finite? && limit.value < 2.0 ==> r == 1
    ensures limit.Finite? && 1.0 <= limit.value < UPLOADED_FILE_BATCH_LIMIT as real ==>
              r as real <= limit.value < r as real + 1.0
  {
    if limit.NonFinite? then UPLOADED_FILE_BATCH_LIMIT
    else
      var whole := limit.value.Floor;
      var capped := if whole < UPLOADED_FILE_BATCH_LIMIT then whole else UPLOADED_FILE_BATCH_LIMIT;
      if capped < 1 then 1 else capped
  }

  predicate SameMarkers(a: Row, b: Row) {
    a.deletedAt == b.deletedAt && a.uploadPendingAt == b.uploadPendingAt && a.deletionPendingAt == b.deletionPendingAt
  }

  /** The rows of a batch that still carry the markers they were read with. */
  function Unmoved(read: Table, current: Table, batch: seq<FileId>): seq<FileId> {
    if |batch| == 0 then []
    else
      var last := batch[|batch| - 1];
      Unmoved(read, current, batch[..|batch| - 1])
      + if last in read && last in current && SameMarkers(read[last], current[last]) then [last] else []
  }

  lemma {:induction false} UnmovedIn(read: Table, current: Table, batch: seq<FileId>)
    ensures forall x :: x in Unmoved(read, current, batch) <==>
              x in batch && x in read && x in current && SameMarkers(read[x], current[x])
  {
    if |batch| > 0 {
      UnmovedIn(read, current, batch[..|batch| - 1]);
      assert batch == batch[..|batch| - 1] + [batch[|batch| - 1]];
    }
  }

  /** If nobody interferes, the whole batch is still as it was read. */
  lemma {:induction false} NothingMoved(read: Table, batch: seq<FileId>)
    requires forall x <- batch :: x in read
    ensures Unmoved(read, read, batch) == batch
  {
    if |batch| > 0 {
      NothingMoved(read, batch[..|batch| - 1]);
      assert batch == batch[..|batch| - 1] + [batch[|batch| - 1]];
    }
  }

  /** What one sweep leaves behind when storage deletes succeed exactly on `deletable`. */
  ghost predicate Swept(
      before: Table, after: Table, batch: seq<FileId>, deletable: set<FileId>, clock: FileId -> Time) {
    && after.Keys == before.Keys
    && (forall id | id in before && id !in batch :: after[id] == before[id])
    && (forall id | id in before && id in batch && id !in deletable ::
          after[id] == Released(before[id], clock(id) + DELETION_RETRY_BACKOFF_MS))
    && (forall id | id in before && id in batch && id in deletable ::
          exists claim :: claim >= clock(id) + DELETION_CLAIM_LEASE_MS
              && after[id] == Finalized(before[id], clock(id), claim))
  }

  method QueryQueues(rows: Table, now: Time, limit: nat) returns (q: Queues)
    ensures Queried(rows, now, limit, q)
    ensures Distinct(q.Batch()) && forall x <- q.Batch() :: x in Eligible(rows, now)
  {
    var settled := FindOrdered(Settled(rows, now), rows, ByDeletion, limit);
    var remaining := limit - |settled|;
    var initial := FindOrdered(InitialTombstones(rows, now), rows, ByUpload, remaining);
    var retry := FindOrdered(RetryTombstones(rows, now), rows, ByDeletion, remaining);
    q := Queues(settled, initial, retry, Unresolved(initial, retry, remaining));
    BatchUsable(rows, now, limit, q);
  }

  class RetryWorker {
    var rows: Table
    var lastDeletionClaimAt: Time

    constructor (table: Table)
      ensures rows == table && lastDeletionClaimAt == 0
    {
      rows, lastDeletionClaimAt := table, 0;
    }

    /** A fresh claim: past every claim of this process, past the marker it replaces, and a full lease ahead. */
    method NextDeletionClaim(now: Time, expected: Option<Time>) returns (claim: Time)
      modifies this`lastDeletionClaimAt
      ensures claim == lastDeletionClaimAt > old(lastDeletionClaimAt)
      ensures claim >= now + DELETION_CLAIM_LEASE_MS
      ensures expected.Some? ==> claim > expected.value
    {
      claim := now + DELETION_CLAIM_LEASE_MS;
      if lastDeletionClaimAt + 1 > claim {
        claim := lastDeletionClaimAt + 1;
      }
      if expected.Some? && expected.value + 1 > claim {
        claim := expected.value + 1;
      }
      lastDeletionClaimAt := claim;
    }

    /** Run one statement and report the affected count. */
    method Execute(st: Statement, id: FileId) returns (affected: nat)
      requires Targets(st) == {id} && !st.Insert? && !AllOrNothing(st)
      modifies this`rows
      ensures rows.Keys == old(rows).Keys
      ensures forall other | other in old(rows) && other != id :: rows[other] == old(rows)[other]
      ensures id in old(rows) && Matches(Where(st), old(rows)[id]) ==>
                affected == 1 && rows[id] == Patched(Assignments(st), old(rows)[id])
      ensures !(id in old(rows) && Matches(Where(st), old(rows)[id])) ==> affected == 0 && rows == old(rows)
    {
      affected := if Hits(rows, st, id) then 1 else 0;
      rows := Commit(rows, st);
    }

    /** The object is gone: soft-delete the row and clear the claim of a completed upload. */
    method Finish(id: FileId, upload: Option<Time>, claim: Time, time: Time, ghost row: Row) returns (finalized: nat)
      requires id in rows && rows[id] == row.(deletedAt := None, deletionPendingAt := Some(claim))
      requires upload == row.uploadPendingAt
      modifies this`rows
      ensures finalized == 1 && rows.Keys == old(rows).Keys && rows[id] == Finalized(row, time, claim)
      ensures forall other | other in old(rows) && other != id :: rows[other] == old(rows)[other]
    {
      AnyStatus(row.status);
      finalized := Execute(SoftDelete({id}, upload, claim, time), id);
      if upload.None? {
        var cleared := Execute(ClearClaim({id}, claim), id);
      }
    }

    /**
     Claim one row as it was read, delete its object, then finalize it or hand it back with a backoff.
     A row that has changed since it was read is skipped.
     */
    method Retry(id: FileId, row: Row, now: Time, time: Time, deletes: bool) returns (finalized: nat)
      modifies this
      ensures rows.Keys == old(rows).Keys
      ensures forall other | other in old(rows) && other != id :: rows[other] == old(rows)[other]
      ensures var taken := SelectedMarker(row, now).Some? && id in old(rows) && SameMarkers(row, old(rows)[id]);
              && finalized == (if taken && deletes then 1 else 0)
              && (!taken ==> rows == old(rows))
              && (taken && !deletes ==> rows[id] == Released(old(rows)[id], time + DELETION_RETRY_BACKOFF_MS))
              && (taken && deletes ==>
                    exists claim :: claim >= time + DELETION_CLAIM_LEASE_MS
                        && rows[id] == Finalized(old(rows)[id], time, claim))
    {
      var selected := SelectedMarker(row, now);
      if selected.None? { return 0; }
      var claim := NextDeletionClaim(time, selected);
      var seen := Markers(row.deletedAt, row.uploadPendingAt, row.deletionPendingAt);
      ghost var current := if id in rows then rows[id] else row;
      AnyStatus(current.status);
      var affected := Execute(RetryClaim(id, seen, claim), id);
      if affected != 1 { return 0; }
      if deletes {
        finalized := Finish(id, row.uploadPendingAt, claim, time, current);
      } else {
        affected := Execute(ReleaseClaim({id}, row.uploadPendingAt, claim, time + DELETION_RETRY_BACKOFF_MS), id);
        finalized := 0;
      }
    }

    /**
     `unsafeSystemRetryPendingDeletions`, with `clock(id)` the time at which row `id` is handled. Other
     processes may leave the table as `current` after it was queried.
     */
    method Sweep(
        now: Time, limit: Limit, deletable: set<FileId>, clock: FileId -> Time, current: Table)
      returns (finalized: nat, q: Queues)
      modifies this
      ensures Queried(old(rows), now, SystemDeletionLimit(limit), q)
      ensures Swept(current, rows, Unmoved(old(rows), current, q.Batch()), deletable, clock)
      ensures finalized == |Elements(Unmoved(old(rows), current, q.Batch())) * deletable|
    {
      q := QueryQueues(rows, now, SystemDeletionLimit(limit));
      var read := rows;
      rows := current;
      finalized := RetryAll(read, q.Batch(), now, deletable, clock);
    }

    /** One row of the batch, after those in `front`. */
    method HandleRow(
        read: Table, ghost table: Table, ghost front: seq<FileId>, id: FileId, now: Time, deletable: set<FileId>,
        clock: FileId -> Time)
        returns (finalized: nat)
      requires Swept(table, rows, Unmoved(read, table, front), deletable, clock)
      requires id in Eligible(read, now) && id !in Unmoved(read, table, front)
      modifies this
      ensures Swept(table, rows, Unmoved(read, table, front + [id]), deletable, clock)
      ensures |Elements(Unmoved(read, table, front + [id])) * deletable|
              == |Elements(Unmoved(read, table, front)) * deletable| + finalized
    {
      ghost var previous := rows;
      finalized := Retry(id, read[id], now, clock(id), id in deletable);
      RowHandled(read, table, previous, rows, front, id, deletable, clock);
    }

    method RetryAll(
        read: Table, batch: seq<FileId>, now: Time, deletable: set<FileId>, clock: FileId -> Time)
      returns (finalized: nat)
      requires Distinct(batch) && forall x <- batch :: x in Eligible(read, now)
      modifies this
      ensures Swept(old(rows), rows, Unmoved(read, old(rows), batch), deletable, clock)
      ensures finalized == |Elements(Unmoved(read, old(rows), batch)) * deletable|
    {
      ghost var table := rows;
      finalized := 0;
      for i := 0 to |batch|
        invariant Swept(table, rows, Unmoved(read, table, batch[..i]), deletable, clock)
        invariant finalized == |Elements(Unmoved(read, table, batch[..i])) * deletable|
      {
        var id := batch[i];
        DistinctEntry(batch, i);
        UnmovedIn(read, table, batch[..i]);
        assert id in batch && batch[..i + 1] == batch[..i] + [id];
        var n := HandleRow(read, table, batch[..i], id, now, deletable, clock);
        finalized := finalized + n;
      }
      assert batch[..|batch|] == batch;
    }
  }

  /** One more row of the batch has been handled, or skipped because it has moved. */
  lemma RowHandled(
      read: Table, table: Table, before: Table, after: Table, front: seq<FileId>, id: FileId, deletable: set<FileId>,
      clock: FileId -> Time)
    requires id in read && id !in Unmoved(read, table, front)
    requires Swept(table, before, Unmoved(read, table, front), deletable, clock)
    requires after.Keys == before.Keys && forall other | other in before && other != id :: after[other] == before[other]
    requires var taken := id in table && SameMarkers(read[id], table[id]);
             && (!taken ==> after == before)
             && (taken && id !in deletable ==> after[id] == Released(table[id], clock(id) + DELETION_RETRY_BACKOFF_MS))
             && (taken && id in deletable ==>
                   exists claim :: claim >= clock(id) + DELETION_CLAIM_LEASE_MS
                       && after[id] == Finalized(table[id], clock(id), claim))
    ensures var taken := id in table && SameMarkers(read[id], table[id]);
            var done, more := Unmoved(read, table, front), Unmoved(read, table, front + [id]);
            && Swept(table, after, more, deletable, clock)
            && |Elements(more) * deletable|
                == |Elements(done) * deletable| + (if taken && id in deletable then 1 else 0)
  {
    var done := Unmoved(read, table, front);
    assert (front + [id])[..|front|] == front;
    if id in table && SameMarkers(read[id], table[id]) {
      SweptOneMore(table, before, after, done, id, deletable, clock);
      CountOneMore(done, id, deletable);
    } else {
      assert Unmoved(read, table, front + [id]) == done;
    }
  }

  lemma SweptOneMore(
      table: Table, before: Table, after: Table, batch: seq<FileId>, id: FileId, deletable: set<FileId>,
      clock: FileId -> Time)
    requires Swept(table, before, batch, deletable, clock) && id in table && id !in batch
    requires after.Keys == before.Keys && forall other | other in before && other != id :: after[other] == before[other]
    requires id !in deletable ==> after[id] == Released(table[id], clock(id) + DELETION_RETRY_BACKOFF_MS)
    requires id in deletable ==>
               exists claim :: claim >= clock(id) + DELETION_CLAIM_LEASE_MS
                   && after[id] == Finalized(table[id], clock(id), claim)
    ensures Swept(table, after, batch + [id], deletable, clock)
  {
  }

  lemma CountOneMore(batch: seq<FileId>, id: FileId, deletable: set<FileId>)
    requires id !in batch
    ensures |Elements(batch + [id]) * deletable| == |Elements(batch) * deletable| + (if id in deletable then 1 else 0)
  {
    assert Elements(batch + [id]) * deletable == Elements(batch) * deletable + (if id in deletable then {id} else {});
  }

  // --- Progress past poison rows ------------------------------------------------------

  /** A sweep at `now` in which no object could be deleted. */
  ghost predicate FailedSweep(before: Table, after: Table, now: Time, limit: nat, q: Queues) {
    && Queried(before, now, limit, q)
    && after.Keys == before.Keys
    && (forall id | id in before && id !in q.Batch() :: after[id] == before[id])
    && (forall id | id in before && id in q.Batch() ::
          after[id].deletionPendingAt.Some? && after[id].deletionPendingAt.value >= now + DELETION_RETRY_BACKOFF_MS)
  }

  /** A row whose object could not be deleted rests for a minute: no query takes it sooner. */
  lemma FailedRowsRest(before: Table, after: Table, now: Time, limit: nat, q: Queues, id: FileId, later: Time)
    requires FailedSweep(before, after, now, limit, q) && id in q.Batch() && later <= now + 60_000
    ensures id !in Eligible(after, later)
  {
    BatchUsable(before, now, limit, q);
    EligibleIff(after, later, id);
  }

  /** Every undisturbed sweep of the worker that deletes nothing is such a failed sweep. */
  lemma SweptWithoutDeletionFails(before: Table, after: Table, now: Time, limit: nat, q: Queues, clock: FileId -> Time)
    requires Queried(before, now, limit, q) && Swept(before, after, Unmoved(before, before, q.Batch()), {}, clock)
    requires forall id :: clock(id) >= now
    ensures FailedSweep(before, after, now, limit, q)
  {
    BatchUsable(before, now, limit, q);
    NothingMoved(before, q.Batch());
    DeletesNothing(before, after, now, limit, q, clock);
  }

  lemma DeletesNothing(before: Table, after: Table, now: Time, limit: nat, q: Queues, clock: FileId -> Time)
    requires Queried(before, now, limit, q) && Swept(before, after, q.Batch(), {}, clock)
    requires forall id :: clock(id) >= now
    ensures FailedSweep(before, after, now, limit, q)
  {
  }

  /** One sweep of a sequence: the table it left, when it read, what it queried and the rows it tried. */
  datatype Attempt = Attempt(after: Table, now: Time, q: Queues, batch: set<FileId>)

  function TableAfter(start: Table, runs: seq<Attempt>): Table {
    if |runs| == 0 then start else runs[|runs| - 1].after
  }

  function Attempted(runs: seq<Attempt>): set<FileId> {
    if |runs| == 0 then {} else Attempted(runs[..|runs| - 1]) + runs[|runs| - 1].batch
  }

  /** Untried rows are as they were; tried rows are out of sight for the whole window. */
  ghost predicate Progressed(start: Table, now: Table, tried: set<FileId>, first: Time) {
    && now.Keys == start.Keys
    && (forall id | id in start && id !in tried :: now[id] == start[id])
    && (forall id | id in start && id in tried ::
          now[id].deletionPendingAt.Some? && now[id].deletionPendingAt.value >= first + DELETION_RETRY_BACKOFF_MS)
  }

  /** An initial part of the candidate order is served before anything behind it. */
  lemma SmallestServesFirst(
      result: seq<FileId>, candidates: set<FileId>, rows: Table, order: Order, take: nat, urgent: set<FileId>)
    requires Smallest(result, candidates, rows, order, take) && urgent <= candidates
    requires forall u, c {:trigger Key(rows, order, u), Key(rows, order, c)} |
               u in urgent && c in candidates && c !in urgent ::
               Key(rows, order, u) < Key(rows, order, c)
    ensures |Elements(result) * urgent| == Min(take, |urgent|)
  {
    var served := Elements(result);
    DistinctCardinality(result);
    SubsetCardinality(urgent, candidates);
    if served <= urgent {
      assert served * urgent == served;
      SubsetCardinality(served, urgent);
    } else {
      var r :| r in served && r !in urgent;
      forall u | u in urgent ensures u in served {
        assert Key(rows, order, u) < Key(rows, order, r);
      }
      assert served * urgent == urgent;
      SubsetCardinality(urgent, served);
    }
  }

  /** One more failed sweep repeats nothing and takes the oldest untried settled rows. */
  lemma OneFailedSweepServes(
      start: Table, first: Time, limit: nat, before: Table, tried: set<FileId>, after: Table, now: Time, q: Queues)
    requires Progressed(start, before, tried, first) && first <= now <= first + DELETION_RETRY_BACKOFF_MS
    requires FailedSweep(before, after, now, limit, q)
    ensures var batch, untried := Elements(q.Batch()), Settled(start, first) - tried;
            && batch !! tried
            && |batch * untried| == Min(limit, |untried|)
            && Progressed(start, after, tried + batch, first)
  {
    OneFailedSweepCounts(start, first, limit, before, tried, now, q);
    StillProgressed(start, first, limit, before, tried, after, now, q);
  }

  lemma OneFailedSweepCounts(
      start: Table, first: Time, limit: nat, before: Table, tried: set<FileId>, now: Time, q: Queues)
    requires Progressed(start, before, tried, first) && first <= now <= first + DELETION_RETRY_BACKOFF_MS
    requires Queried(before, now, limit, q)
    ensures var batch, untried := Elements(q.Batch()), Settled(start, first) - tried;
            batch !! tried && |batch * untried| == Min(limit, |untried|)
  {
    var untried := Settled(start, first) - tried;
    TriedRowsAreNotDue(start, first, before, tried, now);
    UntriedComeFirst(start, first, before, tried, now);
    SmallestServesFirst(q.settled, Settled(before, now), before, ByDeletion, limit, untried);
    SettledAreServed(before, now, limit, q, untried, tried);
  }

  /** A batch takes settled rows from the settled queue only, and none that is not due. */
  lemma SettledAreServed(
      before: Table, now: Time, limit: nat, q: Queues, untried: set<FileId>, tried: set<FileId>)
    requires Queried(before, now, limit, q) && untried <= Settled(before, now) && Eligible(before, now) !! tried
    ensures Elements(q.Batch()) !! tried && Elements(q.Batch()) * untried == Elements(q.settled) * untried
  {
    BatchIsFair(before, now, limit, q);
  }

  lemma TriedRowsAreNotDue(start: Table, first: Time, before: Table, tried: set<FileId>, now: Time)
    requires Progressed(start, before, tried, first) && now <= first + DELETION_RETRY_BACKOFF_MS
    ensures Eligible(before, now) !! tried
  {
  }

  /** What was due at `first` and is untried is older than everything that became due since. */
  lemma UntriedComeFirst(start: Table, first: Time, before: Table, tried: set<FileId>, now: Time)
    requires Progressed(start, before, tried, first) && first <= now <= first + DELETION_RETRY_BACKOFF_MS
    ensures var untried := Settled(start, first) - tried;
            && untried <= Settled(before, now)
            && forall u, c {:trigger Key(before, ByDeletion, u), Key(before, ByDeletion, c)}
                 | u in untried && c in Settled(before, now) && c !in untried ::
                 Key(before, ByDeletion, u) < Key(before, ByDeletion, c)
  {
  }

  lemma StillProgressed(
      start: Table, first: Time, limit: nat, before: Table, tried: set<FileId>, after: Table, now: Time, q: Queues)
    requires Progressed(start, before, tried, first) && first <= now
    requires FailedSweep(before, after, now, limit, q)
    ensures Progressed(start, after, tried + Elements(q.Batch()), first)
  {
  }

  /** Sweeps one after another, each related by `sweep` to the table it found. */
  ghost predicate Chain(start: Table, runs: seq<Attempt>, sweep: (Table, Attempt) -> bool) {
    |runs| == 0 ||
    (var front, last := runs[..|runs| - 1], runs[|runs| - 1];
     Chain(start, front, sweep) && sweep(TableAfter(start, front), last))
  }

  ghost predicate Served(start: Table, first: Time, limit: nat, tried: set<FileId>, a: Attempt) {
    var untried := Settled(start, first) - tried;
    && a.batch !! tried
    && |a.batch * untried| == Min(limit, |untried|)
    && Progressed(start, a.after, tried + a.batch, first)
  }

  ghost predicate AlwaysServes(start: Table, first: Time, limit: nat, sweep: (Table, Attempt) -> bool) {
    forall before, tried, a {:trigger sweep(before, a), Progressed(start, before, tried, first)} ::
      Progressed(start, before, tried, first) && sweep(before, a) ==> Served(start, first, limit, tried, a)
  }

  /** `min(n, k * limit)` of the `n` due rows have been tried, and the last sweep repeated none. */
  ghost predicate Advanced(due: set<FileId>, runs: seq<Attempt>, limit: nat) {
    && |Attempted(runs) * due| == Min(|due|, |runs| * limit)
    && (|runs| > 0 ==> Attempted(runs[..|runs| - 1]) !! runs[|runs| - 1].batch)
  }

  lemma {:induction false} ChainAdvances(
      start: Table, first: Time, limit: nat, runs: seq<Attempt>, sweep: (Table, Attempt) -> bool)
    requires AlwaysServes(start, first, limit, sweep) && Chain(start, runs, sweep)
    ensures Progressed(start, TableAfter(start, runs), Attempted(runs), first)
    ensures Advanced(Settled(start, first), runs, limit)
  {
    if |runs| > 0 {
      var front, last := runs[..|runs| - 1], runs[|runs| - 1];
      ChainAdvances(start, first, limit, front, sweep);
      assert Served(start, first, limit, Attempted(front), last);
      AdvanceOnce(Settled(start, first), Attempted(front), last.batch, limit, |front| * limit);
      OneMoreLimit(|front|, limit);
    }
  }

  /** A failed sweep inside the backoff window that opens at `first`. */
  ghost predicate FailedAttempt(first: Time, limit: nat, before: Table, a: Attempt) {
    && first <= a.now <= first + DELETION_RETRY_BACKOFF_MS
    && FailedSweep(before, a.after, a.now, limit, a.q)
    && a.batch == Elements(a.q.Batch())
  }

  lemma FailedAttemptsServe(start: Table, first: Time, limit: nat, sweep: (Table, Attempt) -> bool)
    requires forall before, a :: sweep(before, a) ==> FailedAttempt(first, limit, before, a)
    ensures AlwaysServes(start, first, limit, sweep)
  {
    forall before, tried, a | Progressed(start, before, tried, first) && sweep(before, a)
      ensures Served(start, first, limit, tried, a)
    {
      FailedAttemptServes(start, first, limit, before, tried, a);
    }
  }

  lemma FailedAttemptServes(start: Table, first: Time, limit: nat, before: Table, tried: set<FileId>, a: Attempt)
    requires Progressed(start, before, tried, first) && FailedAttempt(first, limit, before, a)
    ensures Served(start, first, limit, tried, a)
  {
    OneFailedSweepServes(start, first, limit, before, tried, a.after, a.now, a.q);
  }

  /**
   Poison rows do not block the queue: when every storage delete fails, `k` sweeps inside one backoff
   window have tried exactly `min(n, k * limit)` of the `n` settled rows that were due at the start,
   and the last sweep repeats no row of an earlier one.
   */
  lemma SweepsAdvance(start: Table, first: Time, limit: nat, runs: seq<Attempt>, sweep: (Table, Attempt) -> bool)
    requires forall before, a :: sweep(before, a) ==> FailedAttempt(first, limit, before, a)
    requires Chain(start, runs, sweep)
    ensures Advanced(Settled(start, first), runs, limit)
  {
    FailedAttemptsServe(start, first, limit, sweep);
    ChainAdvances(start, first, limit, runs, sweep);
  }

  lemma OneMoreLimit(k: nat, limit: nat)
    ensures (k + 1) * limit == k * limit + limit >= limit
  {
  }

  lemma AdvanceOnce(due: set<FileId>, tried: set<FileId>, batch: set<FileId>, limit: nat, capacity: nat)
    requires batch !! tried && |batch * (due - tried)| == Min(limit, |due - tried|)
    requires |tried * due| == Min(|due|, capacity)
    ensures |(tried + batch) * due| == Min(|due|, capacity + limit)
  {
    CountAttempts(tried, batch, due);
  }

  lemma CountAttempts(tried: set<FileId>, batch: set<FileId>, due: set<FileId>)
    requires batch !! tried
    ensures |(tried + batch) * due| == |tried * due| + |batch * (due - tried)|
    ensures |due| == |tried * due| + |due - tried|
  {
    assert (tried + batch) * due == tried * due + batch * (due - tried);
    assert due == tried * due + (due - tried);
  }
}
