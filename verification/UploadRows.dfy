/**
 The `uploaded_file` table and every statement the uploaded-file service sends to it.

 A row carries three nullable timestamps. A row with all three clear is the only kind that
 ordinary reads return. Each statement is an UPDATE whose WHERE names the exact markers its
 author saw, so it is a compare-and-swap: it changes the rows that still match and no other.
 */
module UploadRows {
  import opened Wrappers

  type FileId = nat
  type Time = int
  type Etag = nat

  datatype Status = Pending | Completing | Ready | Failed

  /** `managed` rows own a staging object and are completed by a client-driven second call. */
  datatype Row = Row(
    managed: bool,
    deletedAt: Option<Time>,
    uploadPendingAt: Option<Time>,
    deletionPendingAt: Option<Time>,
    status: Status,
    etag: Option<Etag>)

  /** The three lifecycle markers as one worker read them. */
  datatype Markers = Markers(deletedAt: Option<Time>, uploadPendingAt: Option<Time>, deletionPendingAt: Option<Time>)

  predicate Active(row: Row) {
    row.deletedAt.None? && row.uploadPendingAt.None? && row.deletionPendingAt.None?
  }

  /** Deletion was claimed or finished: the row may never be served again. */
  predicate Doomed(row: Row) {
    row.deletedAt.Some? || row.deletionPendingAt.Some?
  }

  /** Something durable still points at the row's object. */
  predicate Tracked(row: Row) {
    Active(row) || row.uploadPendingAt.Some? || row.deletionPendingAt.Some?
  }

  // --- Statements -----------------------------------------------------------

  datatype Condition<+T> = Anything | Null | NotNull | Equals(value: T)

  datatype Assignment<+T> = Keep | Put(value: Option<T>)

  datatype Criteria = Criteria(
    deletedAt: Condition<Time>,
    uploadPendingAt: Condition<Time>,
    deletionPendingAt: Condition<Time>,
    statuses: set<Status>,
    etag: Condition<Etag>)

  datatype Patch = Patch(
    deletedAt: Assignment<Time>,
    uploadPendingAt: Assignment<Time>,
    deletionPendingAt: Assignment<Time>,
    status: Option<Status>,
    etag: Assignment<Etag>)

  datatype Statement =
    | Insert(id: FileId, row: Row)
    | Activate(id: FileId, marker: Time, temporary: bool)
    | CleanupClaim(id: FileId, marker: Time, claim: Time)
    | SettleClaim(id: FileId, seen: Markers, claim: Time)
    | RetryClaim(id: FileId, seen: Markers, claim: Time)
    | ReferenceClaim(ids: set<FileId>, claim: Time)
    | TemporaryClaim(id: FileId, claim: Time)
    | SoftDelete(ids: set<FileId>, upload: Option<Time>, claim: Time, at: Time)
    | ClearClaim(ids: set<FileId>, claim: Time)
    | ReleaseClaim(ids: set<FileId>, upload: Option<Time>, claim: Time, retryAt: Time)
    | CompletionClaim(id: FileId, upload: Option<Time>, marker: Time, etag: Option<Etag>)
    | CompletionReclaim(id: FileId, upload: Option<Time>, oldEtag: Option<Etag>, marker: Time, etag: Option<Etag>)
    | CompletionRetryable(id: FileId, marker: Time, past: Time)
    | CompletionFinalize(id: FileId, marker: Time, etag: Option<Etag>)
    | AbortClaim(id: FileId, status: Status, upload: Option<Time>, claim: Time)
    | DeleteByIdClaim(id: FileId, status: Status, upload: Option<Time>, claim: Time)
    | ExpiredDirectClaim(id: FileId, status: Status, seen: Markers, claim: Time)
    | RetireTombstone(id: FileId, seen: Markers, retryAt: Time)

  function Targets(st: Statement): set<FileId> {
    match st
    case ReferenceClaim(ids, _) => ids
    case SoftDelete(ids, _, _, _) => ids
    case ClearClaim(ids, _) => ids
    case ReleaseClaim(ids, _, _, _) => ids
    case _ => {st.id}
  }

  /** The `value ?? IsNull()` idiom of the WHERE clauses. */
  function Exactly<T>(value: Option<T>): Condition<T> {
    if value.Some? then Equals(value.value) else Null
  }

  const EVERY_STATUS: set<Status> := {Pending, Completing, Ready, Failed}

  lemma AnyStatus(status: Status)
    ensures status in EVERY_STATUS
  {
  }

  function ByMarkers(deletedAt: Condition<Time>, upload: Condition<Time>, deletion: Condition<Time>): Criteria {
    Criteria(deletedAt, upload, deletion, EVERY_STATUS, Anything)
  }

  function BySeen(seen: Markers): Criteria {
    ByMarkers(Exactly(seen.deletedAt), Exactly(seen.uploadPendingAt), Exactly(seen.deletionPendingAt))
  }

  /** `lifecycleWhere` narrowed by status and upload marker. */
  function ByLifecycle(status: Status, upload: Condition<Time>): Criteria {
    Criteria(Null, upload, Null, {status}, Anything)
  }

  function Where(st: Statement): Criteria {
    match st
    case Insert(_, _) => ByMarkers(Anything, Anything, Anything)
    case Activate(_, marker, _) => ByMarkers(Null, Equals(marker), Null)
    case CleanupClaim(_, marker, _) => ByMarkers(Null, Equals(marker), Null)
    case SettleClaim(_, seen, _) => BySeen(seen)
    case RetryClaim(_, seen, _) => BySeen(seen)
    case ReferenceClaim(_, _) => ByMarkers(Null, Null, Null)
    case TemporaryClaim(_, _) => ByLifecycle(Ready, Null)
    case SoftDelete(_, upload, claim, _) => ByMarkers(Null, Exactly(upload), Equals(claim))
    case ClearClaim(_, claim) => ByMarkers(NotNull, Null, Equals(claim))
    case ReleaseClaim(_, upload, claim, _) => ByMarkers(Null, Exactly(upload), Equals(claim))
    case CompletionClaim(_, upload, _, _) => ByLifecycle(Pending, Exactly(upload))
    case CompletionReclaim(_, upload, oldEtag, _, _) =>
      ByLifecycle(Completing, Exactly(upload)).(etag := Exactly(oldEtag))
    case CompletionRetryable(_, marker, _) => ByLifecycle(Completing, Equals(marker))
    case CompletionFinalize(_, marker, _) => ByLifecycle(Completing, Equals(marker))
    case AbortClaim(_, status, upload, _) => ByLifecycle(status, Exactly(upload))
    case DeleteByIdClaim(_, status, upload, _) => ByLifecycle(status, Exactly(upload))
    case ExpiredDirectClaim(_, status, seen, _) => BySeen(seen).(statuses := {status})
    case RetireTombstone(_, seen, _) => BySeen(seen)
  }

  const UNCHANGED := Patch(Keep, Keep, Keep, None, Keep)

  /** `...(row.deletedAt ? { deletedAt: null } : {})` */
  function Undelete(seen: Markers): Assignment<Time> {
    if seen.deletedAt.Some? then Put(None) else Keep
  }

  function Assignments(st: Statement): Patch {
    match st
    case Insert(_, _) => UNCHANGED
    case Activate(_, _, temporary) =>
      UNCHANGED.(uploadPendingAt := Put(None), status := if temporary then Some(Ready) else None)
    case CleanupClaim(_, _, claim) => UNCHANGED.(uploadPendingAt := Put(None), deletionPendingAt := Put(Some(claim)))
    case SettleClaim(_, seen, claim) =>
      UNCHANGED.(uploadPendingAt := Put(None), deletionPendingAt := Put(Some(claim)), deletedAt := Undelete(seen))
    case RetryClaim(_, seen, claim) => UNCHANGED.(deletionPendingAt := Put(Some(claim)), deletedAt := Undelete(seen))
    case ReferenceClaim(_, claim) => UNCHANGED.(deletionPendingAt := Put(Some(claim)))
    case TemporaryClaim(_, claim) => UNCHANGED.(deletionPendingAt := Put(Some(claim)))
    case SoftDelete(_, _, _, at) => UNCHANGED.(deletedAt := Put(Some(at)))
    case ClearClaim(_, _) => UNCHANGED.(deletionPendingAt := Put(None))
    case ReleaseClaim(_, _, _, retryAt) => UNCHANGED.(deletionPendingAt := Put(Some(retryAt)))
    case CompletionClaim(_, _, marker, etag) =>
      UNCHANGED.(status := Some(Completing), uploadPendingAt := Put(Some(marker)), etag := Put(etag))
    case CompletionReclaim(_, _, _, marker, etag) => UNCHANGED.(uploadPendingAt := Put(Some(marker)), etag := Put(etag))
    case CompletionRetryable(_, _, past) => UNCHANGED.(uploadPendingAt := Put(Some(past)))
    case CompletionFinalize(_, _, etag) =>
      UNCHANGED.(status := Some(Ready), uploadPendingAt := Put(None), etag := Put(etag))
    case AbortClaim(_, _, _, claim) =>
      UNCHANGED.(status := Some(Failed), uploadPendingAt := Put(None), deletionPendingAt := Put(Some(claim)))
    case DeleteByIdClaim(_, status, _, claim) =>
      UNCHANGED.(status := Some(if status == Ready then Ready else Failed),
                 uploadPendingAt := Put(None), deletionPendingAt := Put(Some(claim)))
    case ExpiredDirectClaim(_, _, seen, claim) =>
      UNCHANGED.(status := Some(Failed), uploadPendingAt := Put(None), deletionPendingAt := Put(Some(claim)),
                 deletedAt := Undelete(seen))
    case RetireTombstone(_, seen, retryAt) =>
      UNCHANGED.(uploadPendingAt := Put(None), deletionPendingAt := Put(Some(retryAt)), deletedAt := Undelete(seen))
  }

  // --- Execution ------------------------------------------------------------

  predicate Holds<T(==)>(c: Condition<T>, value: Option<T>) {
    match c
    case Anything => true
    case Null => value.None?
    case NotNull => value.Some?
    case Equals(v) => value == Some(v)
  }

  predicate Matches(c: Criteria, row: Row) {
    && Holds(c.deletedAt, row.deletedAt)
    && Holds(c.uploadPendingAt, row.uploadPendingAt)
    && Holds(c.deletionPendingAt, row.deletionPendingAt)
    && row.status in c.statuses
    && Holds(c.etag, row.etag)
  }

  function Assign<T>(a: Assignment<T>, value: Option<T>): Option<T> {
    if a.Keep? then value else a.value
  }

  function Patched(p: Patch, row: Row): Row {
    row.(deletedAt := Assign(p.deletedAt, row.deletedAt),
         uploadPendingAt := Assign(p.uploadPendingAt, row.uploadPendingAt),
         deletionPendingAt := Assign(p.deletionPendingAt, row.deletionPendingAt),
         status := if p.status.Some? then p.status.value else row.status,
         etag := Assign(p.etag, row.etag))
  }

  type Table = map<FileId, Row>

  predicate Hits(rows: Table, st: Statement, id: FileId) {
    && id in Targets(st)
    && id in rows
    && !st.Insert?
    && Matches(Where(st), rows[id])
  }

  /** The caller's `affected === ids.length` test. */
  predicate AffectsAll(rows: Table, st: Statement) {
    if st.Insert? then st.id !in rows else forall id <- Targets(st) :: Hits(rows, st, id)
  }

  /** Reference and purge claims run in a transaction that rolls back on a short count. */
  predicate AllOrNothing(st: Statement) {
    st.ReferenceClaim?
  }

  /** The table after `st` commits. */
  function Commit(rows: Table, st: Statement): Table {
    if st.Insert? then
      if st.id in rows then rows else rows[st.id := st.row]
    else if AllOrNothing(st) && !AffectsAll(rows, st) then rows
    else map id | id in rows :: if Hits(rows, st, id) then Patched(Assignments(st), rows[id]) else rows[id]
  }

  /** What one committed statement does to one existing row. */
  lemma CommitOne(rows: Table, st: Statement, id: FileId)
    requires id in rows
    ensures id in Commit(rows, st)
    ensures Commit(rows, st)[id] == rows[id]
         || (Hits(rows, st, id) && Commit(rows, st)[id] == Patched(Assignments(st), rows[id]))
  {
  }

  /**
   No resurrection, one statement at a time: whichever statement commits, and however stale its
   author's reading was, a doomed row stays doomed and a ready row stays ready.
   */
  lemma DoomIsForever(rows: Table, st: Statement, id: FileId)
    requires id in rows
    ensures id in Commit(rows, st)
    ensures Doomed(rows[id]) ==> Doomed(Commit(rows, st)[id])
    ensures rows[id].managed == Commit(rows, st)[id].managed
  {
    CommitOne(rows, st, id);
  }
}
