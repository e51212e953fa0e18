/**
 The statements of the uploaded-file service as exact swaps, told on the row before and after: which
 row each of them changes, whom it takes the row from, and what it leaves to others.
 */
module UploadStatements {
  import opened Wrappers
  import opened UploadRows

  /** The three markers are exactly these. */
  predicate Marked(row: Row, deletedAt: Option<Time>, upload: Option<Time>, deletion: Option<Time>) {
    row.deletedAt == deletedAt && row.uploadPendingAt == upload && row.deletionPendingAt == deletion
  }

  predicate MarkedAs(row: Row, seen: Markers) {
    Marked(row, seen.deletedAt, seen.uploadPendingAt, seen.deletionPendingAt)
  }

  /** The row is as the author of the statement must have found or left it. */
  predicate Expects(st: Statement, row: Row) {
    match st
    case Insert(_, _) => false
    // the writer's own marker is still there
    case Activate(_, marker, _) => Marked(row, None, Some(marker), None)
    case CleanupClaim(_, marker, _) => Marked(row, None, Some(marker), None)
    // the markers are those that were read
    case SettleClaim(_, seen, _) => MarkedAs(row, seen)
    case RetryClaim(_, seen, _) => MarkedAs(row, seen)
    case RetireTombstone(_, seen, _) => MarkedAs(row, seen)
    case ExpiredDirectClaim(_, status, seen, _) => MarkedAs(row, seen) && row.status == status
    case AbortClaim(_, status, upload, _) => Marked(row, None, upload, None) && row.status == status
    case DeleteByIdClaim(_, status, upload, _) => Marked(row, None, upload, None) && row.status == status
    // the row is served
    case ReferenceClaim(_, _) => Active(row)
    case TemporaryClaim(_, _) => Active(row) && row.status == Ready
    // the claim is still the author's
    case SoftDelete(_, upload, claim, _) => Marked(row, None, upload, Some(claim))
    case ReleaseClaim(_, upload, claim, _) => Marked(row, None, upload, Some(claim))
    case ClearClaim(_, claim) => row.deletedAt != None && Marked(row, row.deletedAt, None, Some(claim))
    // so is the completion
    case CompletionClaim(_, upload, _, _) => Marked(row, None, upload, None) && row.status == Pending
    case CompletionReclaim(_, upload, oldEtag, _, _) =>
      Marked(row, None, upload, None) && row.status == Completing && row.etag == oldEtag
    case CompletionRetryable(_, marker, _) => Marked(row, None, Some(marker), None) && row.status == Completing
    case CompletionFinalize(_, marker, _) => Marked(row, None, Some(marker), None) && row.status == Completing
  }

  /** A statement hits a row exactly when it is as its author expects it: nobody overwrites what it has not seen. */
  lemma StatementsHitIff(rows: Table, st: Statement, id: FileId)
    requires id in rows && id in Targets(st)
    ensures Hits(rows, st, id) <==> Expects(st, rows[id])
  {
    AnyStatus(rows[id].status);
  }

  /** A statement with several targets that roll back together hits all of them or none. */
  predicate TakesEffect(rows: Table, st: Statement, id: FileId) {
    id in rows && id in Targets(st) && Expects(st, rows[id])
    && (st.ReferenceClaim? ==> forall other <- st.ids :: other in rows && Expects(st, rows[other]))
  }

  predicate IsDeletionClaim(st: Statement) {
    st.CleanupClaim? || st.SettleClaim? || st.RetryClaim? || st.ReferenceClaim? || st.TemporaryClaim?
    || st.AbortClaim? || st.DeleteByIdClaim? || st.ExpiredDirectClaim?
  }

  /** What the row is once the statement has hit it. */
  predicate Leaves(st: Statement, before: Row, after: Row) {
    var kept := after.managed == before.managed && after.etag == before.etag;
    var still := kept && after.status == before.status;
    match st
    case Insert(_, _) => true
    case Activate(_, _, temporary) =>
      kept && Active(after) && after.status == if temporary then Ready else before.status
    case CompletionClaim(_, _, marker, etag) =>
      after == Row(before.managed, None, Some(marker), None, Completing, etag)
    case CompletionReclaim(_, _, _, marker, etag) =>
      after == Row(before.managed, None, Some(marker), None, Completing, etag)
    case CompletionRetryable(_, _, past) => still && Marked(after, None, Some(past), None)
    case CompletionFinalize(_, _, etag) => after == Row(before.managed, None, None, None, Ready, etag)
    case SoftDelete(_, upload, claim, at) => still && Marked(after, Some(at), upload, Some(claim))
    case ClearClaim(_, _) => still && Marked(after, before.deletedAt, None, None)
    case ReleaseClaim(_, upload, _, retryAt) => still && Marked(after, None, upload, Some(retryAt))
    case RetireTombstone(_, _, retryAt) => still && Marked(after, None, None, Some(retryAt))
    // an aborted or expired direct upload has failed; what was ready stays ready
    case AbortClaim(_, _, _, claim) => kept && Marked(after, None, None, Some(claim)) && after.status == Failed
    case ExpiredDirectClaim(_, _, _, claim) => kept && Marked(after, None, None, Some(claim)) && after.status == Failed
    case DeleteByIdClaim(_, _, _, claim) =>
      && kept && Marked(after, None, None, Some(claim))
      && (if before.status == Ready then after.status == Ready else after.status == Failed)
    // a sweep keeps an unresolved upload tombstone; every other claim settles it
    case RetryClaim(_, seen, claim) => still && Marked(after, None, seen.uploadPendingAt, Some(claim))
    case _ => still && Marked(after, None, None, Some(st.claim))
  }

  /** A commit changes exactly the rows it takes effect on, and leaves them so. */
  lemma CommitsLeave(rows: Table, st: Statement, id: FileId)
    requires id in rows && !st.Insert?
    ensures id in Commit(rows, st)
    ensures if TakesEffect(rows, st, id) then Leaves(st, rows[id], Commit(rows, st)[id])
            else Commit(rows, st)[id] == rows[id]
  {
    if id in Targets(st) { StatementsHitIff(rows, st, id); }
    if st.ReferenceClaim? {
      forall other | other in st.ids && other in rows { StatementsHitIff(rows, st, other); }
    }
  }

  /** An insert saves its row unless the id is taken, and touches nothing else. */
  lemma InsertsSaveOnce(rows: Table, id: FileId, row: Row)
    ensures Commit(rows, Insert(id, row)) == if id in rows then rows else rows[id := row]
    ensures AffectsAll(rows, Insert(id, row)) <==> id !in rows
  {
  }
}
