/**
 What the in-process cache promises, told on the operations a caller made and the answers it got.
 */
module LruHistory {
  import opened Wrappers
  import opened LruCache

  /** The entry is past its expiry; an expiry of 0 means none. */
  predicate Lapsed(e: Entry, now: Time) {
    e.expiresAt > 0 && now > e.expiresAt
  }

  /** The entry that was last set for a key and since then neither deleted, cleared nor asked for after its expiry. */
  function Current(ops: seq<Op>, key: Key, defaultTtl: int): Option<Entry> {
    if |ops| == 0 then None
    else
      var before := Current(ops[..|ops| - 1], key, defaultTtl);
      match ops[|ops| - 1]
      case Set(k, value, ttl, now) =>
        var seconds := if ttl.Some? then ttl.value else defaultTtl;
        if k == key then Some(Entry(key, value, if seconds > 0 then now + 1000 * seconds else 0)) else before
      case Del(k) => if k == key then None else before
      case Clear => None
      case Get(k, now) => if k == key && before.Some? && Lapsed(before.value, now) then None else before
  }

  /** The cache after a caller's operations. */
  function After(maxEntries: int, defaultTtl: int, ops: seq<Op>): Cache {
    Run(Empty(maxEntries, defaultTtl), ops)
  }

  /** The other keys that were set, or asked for and answered, since this key was. */
  function UsedSince(maxEntries: int, defaultTtl: int, ops: seq<Op>, key: Key): set<Key> {
    if |ops| == 0 then {}
    else
      var front := ops[..|ops| - 1];
      var before := UsedSince(maxEntries, defaultTtl, front, key);
      match ops[|ops| - 1]
      case Set(k, _, _, _) => if k == key then {} else before + {k}
      case Get(k, now) =>
        if Answer(After(maxEntries, defaultTtl, front), k, now).None? then before
        else if k == key then {} else before + {k}
      case _ => before
  }

  /** Stored entries are current, and what is current is what the history's events say. */
  ghost predicate Accounted(c: Cache, ops: seq<Op>, key: Key) {
    var current := Current(ops, key, c.defaultTtl);
    && (forall e <- c.store :: e.key == key ==> current == Some(e))
    && (current.Some? ==> Latest(c.events, key) == current)
  }

  /** No operation brings back another entry than the one it touches. */
  lemma StepStores(c: Cache, op: Op, e: Entry)
    requires Inv(c) && e in Step(c, op).store
    ensures op.Set? && e.key == op.key ==> e == NewEntry(c, op)
    ensures !(op.Set? && e.key == op.key) ==> e in c.store
    ensures !op.Clear? && !(op.Del? && op.key == e.key)
    ensures op.Get? && op.key == e.key ==> !Lapsed(e, op.now)
  {
    match op
    case Set(_, _, _, _) =>
      var full := Touched(c.store, NewEntry(c, op));
      WithoutFacts(c.store, op.key);
      EvictedIsSuffix(full, c.maxEntries);
      assert e in full;
    case Get(key, now) =>
      WithoutFacts(c.store, key);
      LookupFacts(c.store, key);
    case Del(key) => WithoutFacts(c.store, key);
    case Clear =>
  }

  lemma AccountedStep(c: Cache, front: seq<Op>, op: Op, key: Key)
    requires Inv(c) && Accounted(c, front, key)
    ensures Accounted(Step(c, op), front + [op], key)
  {
    var ops, c' := front + [op], Step(c, op);
    assert ops[..|ops| - 1] == front;
    forall e | e in c'.store && e.key == key ensures Current(ops, key, c.defaultTtl) == Some(e) {
      StepStores(c, op, e);
    }
    LatestAfter(c.events, c'.events[|c.events|], key);
    if op.Get? { LookupFacts(c.store, op.key); }
  }

  lemma {:induction false} RunIsAccounted(maxEntries: int, defaultTtl: int, ops: seq<Op>, key: Key)
    ensures Inv(After(maxEntries, defaultTtl, ops)) && After(maxEntries, defaultTtl, ops).defaultTtl == defaultTtl
    ensures Accounted(After(maxEntries, defaultTtl, ops), ops, key)
  {
    RunKeepsInv(maxEntries, defaultTtl, ops);
    if |ops| > 0 {
      var front := ops[..|ops| - 1];
      RunIsAccounted(maxEntries, defaultTtl, front, key);
      AccountedStep(After(maxEntries, defaultTtl, front), front, ops[|ops| - 1], key);
      assert front + [ops[|ops| - 1]] == ops;
    }
  }

  lemma {:induction false} UsedIsTouched(maxEntries: int, defaultTtl: int, ops: seq<Op>, key: Key)
    ensures UsedSince(maxEntries, defaultTtl, ops, key)
            == OthersSince(After(maxEntries, defaultTtl, ops).events, key)
  {
    if |ops| > 0 {
      var front := ops[..|ops| - 1];
      var c, c' := After(maxEntries, defaultTtl, front), After(maxEntries, defaultTtl, ops);
      UsedIsTouched(maxEntries, defaultTtl, front, key);
      OthersAfter(c.events, c'.events[|c.events|], key);
    }
  }

  /** A hit returns the value of the current entry, and only before its expiry. */
  lemma HitsAreCurrent(maxEntries: int, defaultTtl: int, ops: seq<Op>, key: Key, now: Time)
    ensures var answer := Answer(After(maxEntries, defaultTtl, ops), key, now);
            var current := Current(ops, key, defaultTtl);
            answer.Some? ==> current.Some? && answer.value == current.value.value && !Lapsed(current.value, now)
  {
    RunIsAccounted(maxEntries, defaultTtl, ops, key);
    LookupFacts(After(maxEntries, defaultTtl, ops).store, key);
  }

  /** A current entry is missed before its expiry only if at least `maxEntries` other keys were used since. */
  lemma MissesAreCrowdedOut(maxEntries: int, defaultTtl: int, ops: seq<Op>, key: Key, now: Time)
    ensures var current := Current(ops, key, defaultTtl);
            current.Some? && !Lapsed(current.value, now)
            && Answer(After(maxEntries, defaultTtl, ops), key, now).None? ==>
              |UsedSince(maxEntries, defaultTtl, ops, key)| >= maxEntries
  {
    RunIsAccounted(maxEntries, defaultTtl, ops, key);
    UsedIsTouched(maxEntries, defaultTtl, ops, key);
    MissMeansCrowdedOut(maxEntries, defaultTtl, ops, key, now);
  }

  /** After `del` its key, and after `clear` every key, is missed until it is set again. */
  lemma DroppedKeysAreMissed(
      maxEntries: int, defaultTtl: int, ops: seq<Op>, drop: Op, more: seq<Op>, key: Key, now: Time)
    requires (drop == Del(key) || drop == Clear) && forall op <- more :: !(op.Set? && op.key == key)
    ensures Answer(After(maxEntries, defaultTtl, ops + [drop] + more), key, now) == None
  {
    StaysDropped(ops + [drop], more, key, defaultTtl);
    HitsAreCurrent(maxEntries, defaultTtl, ops + [drop] + more, key, now);
  }

  lemma {:induction false} StaysDropped(ops: seq<Op>, more: seq<Op>, key: Key, defaultTtl: int)
    requires Current(ops, key, defaultTtl).None? && forall op <- more :: !(op.Set? && op.key == key)
    ensures Current(ops + more, key, defaultTtl).None?
    decreases |more|
  {
    if |more| == 0 {
      assert ops + more == ops;
    } else {
      StaysDropped(ops, more[..|more| - 1], key, defaultTtl);
      assert (ops + more)[..|ops + more| - 1] == ops + more[..|more| - 1];
    }
  }
}
