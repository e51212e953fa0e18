/**
 The contract of the publication repository, told on the row before and after each call.
 */
module PublicationContract {
  import opened Wrappers
  import opened PublicationCoordinator
  import opened PublicationProtocol

  /** Somebody's lease on the row has not run out. */
  predicate LiveLease(row: Row, now: Time) {
    row.token.Some? && now < row.leaseUntil
  }

  predicate IsLeaving(row: Row) {
    row.state == Retiring || row.state == Retired
  }

  /**
   A claim succeeds exactly on due work that nobody holds: never on a ready or blocked row, and never
   against a live lease. Before publish work is handed out its outcome is recorded as uncertain.
   */
  lemma ClaimsTakeDueWork(w: World, id: IntentId, token: Token, now: Time, leaseUntil: Time)
    ensures var call := ClaimCall(id, token, now, leaseUntil);
            var due := id in w.rows && w.rows[id].state != Ready && w.rows[id].state != Blocked
              && w.rows[id].next <= now && !LiveLease(w.rows[id], now);
            if due then
              var row := w.rows[id];
              var action := if IsLeaving(row) then Retire else Publish;
              && Effect(w, call) == w.(rows := w.rows[id := row.(token := Some(token), leaseUntil := leaseUntil,
                  revision := row.revision + 1, state := if IsLeaving(row) then row.state else Uncertain)])
              && forall answer :: Answers(w, call, answer) <==>
                   answer == Claimed(Some(Work(row.intent, token, row.revision + 1, leaseUntil, action)))
            else Effect(w, call) == w && forall answer :: Answers(w, call, answer) <==> answer == Claimed(None)
  {
  }

  /** A lease is the row's own as long as nobody has claimed, recorded, committed or retired the row since. */
  predicate Holds(w: World, work: Work) {
    && work.intent.id in w.rows
    && w.rows[work.intent.id].token == Some(work.token) && w.rows[work.intent.id].revision == work.revision
    && w.rows[work.intent.id].intent.binding == work.intent.binding
    && w.rows[work.intent.id].intent.source == work.intent.source
  }

  /** Ready is written exactly under an own, unexpired lease for the current generation; otherwise nothing changes. */
  lemma CommitsAreFenced(w: World, work: Work, now: Time)
    ensures var id := work.intent.id;
            var own := Holds(w, work) && now < w.rows[id].leaseUntil;
            var current := work.intent.binding.logical in w.current
              && w.current[work.intent.binding.logical] == work.intent.binding.generation;
            && (CommitOutcome(w, work, now) ==
                  if !own then CommitLost else if !current then CommitStale else CommitReady)
            && Effect(w, CommitCall(work, now)) ==
                 if own && current
                 then w.(rows := w.rows[id := w.rows[id].(state := Ready, token := None,
                     revision := w.rows[id].revision + 1, readyBy := Some(work))])
                 else w
  {
  }

  /** A record releases exactly the own lease; for any other it changes nothing and says so. */
  lemma RecordsAreFenced(w: World, work: Work, state: RowState, next: Time)
    ensures var id := work.intent.id;
            var call := RecordCall(work, state, next);
            && (forall answer :: Answers(w, call, answer) <==> answer == Recorded(Holds(w, work)))
            && (!Holds(w, work) ==> Effect(w, call) == w)
            && (Holds(w, work) ==>
                  var after := Effect(w, call);
                  && after == w.(rows := w.rows[id := after.rows[id]])
                  && after.rows[id].state == state && after.rows[id].next == next && after.rows[id].token == None
                  && after.rows[id].intent == w.rows[id].intent && after.rows[id].readyBy == w.rows[id].readyBy
                  && !Holds(after, work))
  {
  }

  /** Retirement hides a row at once, makes it due, and voids every lease on it. */
  predicate IsRetiredRow(before: Row, after: Row) {
    && after.state == Retiring && after.token == None && after.next == 0 && after.intent == before.intent
    && before.revision < after.revision
  }

  /** Staging is idempotent per generation; a new generation supersedes every other one of its logical binding. */
  lemma StagingSupersedes(w: World, intent: Intent)
    requires intent.id !in w.rows
    ensures var rows := Apply(w, Stage(intent)).rows;
            if exists id <- w.rows :: w.rows[id].intent.binding == intent.binding then rows == w.rows
            else
              && rows.Keys == w.rows.Keys + {intent.id}
              && rows[intent.id].intent == intent && rows[intent.id].state == Pending
              && rows[intent.id].token == None && rows[intent.id].next == 0
              && forall id <- w.rows ::
                   if w.rows[id].intent.binding.logical == intent.binding.logical
                   then IsRetiredRow(w.rows[id], rows[id]) else rows[id] == w.rows[id]
  {
    assert Staged(w.rows, intent.binding) <==> exists id <- w.rows :: SameBinding(w.rows[id], intent.binding);
  }

  /** Retiring hits every generation of a logical binding, or exactly one generation. */
  lemma RetirementHitsIff(w: World, binding: Binding, id: IntentId)
    requires id in w.rows
    ensures var row := w.rows[id];
            var all, one := Apply(w, RetireLogical(binding.logical)).rows, Apply(w, RetireBinding(binding)).rows;
            && all.Keys == w.rows.Keys == one.Keys
            && (if row.intent.binding.logical == binding.logical then IsRetiredRow(row, all[id]) else all[id] == row)
            && (if row.intent.binding == binding then IsRetiredRow(row, one[id]) else one[id] == row)
  {
  }

  /** A URL is projected exactly for the ready row of the generation that is current at that moment. */
  lemma ProjectsIff(w: World, b: Binding, id: IntentId, target: ObjectKey)
    requires id in w.rows && w.rows[id].intent.binding == b
    ensures Project(w, b, id) == Some(target) <==>
              && b.logical in w.current && w.current[b.logical] == b.generation && w.rows[id].state == Ready
              && target == ObjectKey(b, w.rows[id].intent.source.sha256)
  {
  }
}
