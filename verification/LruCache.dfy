/**
 The in-process cache: an insertion-ordered map used as an LRU list, with a time to live per entry.

 The store lists entries oldest touch first. What the cache promises is stated over the events of a
 whole history: the entries set, hit, expired, deleted and cleared, in order.
 */
module LruCache {
  import opened Wrappers

  type Key = string
  /** Cached values are opaque to the cache, so a number stands for each. */
  type Value = int
  type Time = int

  datatype Entry = Entry(key: Key, value: Value, expiresAt: Time)

  predicate Expired(e: Entry, now: Time) {
    e.expiresAt > 0 && e.expiresAt < now
  }

  function Without(s: seq<Entry>, key: Key): seq<Entry> {
    if |s| == 0 then [] else if s[0].key == key then Without(s[1..], key) else [s[0]] + Without(s[1..], key)
  }

  function Lookup(s: seq<Entry>, key: Key): Option<Entry> {
    if |s| == 0 then None else if s[0].key == key then Some(s[0]) else Lookup(s[1..], key)
  }

  function Touched(s: seq<Entry>, e: Entry): seq<Entry> {
    Without(s, e.key) + [e]
  }

  /** Drop the oldest entries until the bound holds. */
  function Evicted(s: seq<Entry>, maxEntries: int): seq<Entry> {
    if |s| > maxEntries && |s| > 0 then Evicted(s[1..], maxEntries) else s
  }

  function ExpiryOf(ttl: int, now: Time): Time {
    if ttl > 0 then now + ttl * 1000 else 0
  }

  // --- Operations -------------------------------------------------------------------------------

  datatype Op = Get(key: Key, now: Time) | Set(key: Key, value: Value, ttl: Option<int>, now: Time) | Del(key: Key)
      | Clear

  /** What happened, seen from outside the store. */
  datatype Event = WasSet(entry: Entry) | WasHit(key: Key) | WasMissed(key: Key) | WasDropped(key: Key) | WasCleared

  datatype Cache = Cache(store: seq<Entry>, maxEntries: int, defaultTtl: int, events: seq<Event>)

  function NewEntry(c: Cache, op: Op): Entry
    requires op.Set?
  {
    Entry(op.key, op.value, ExpiryOf(if op.ttl.Some? then op.ttl.value else c.defaultTtl, op.now))
  }

  /** The reference step; a deleted key and a key found expired are both dropped. */
  function Step(c: Cache, op: Op): Cache {
    match op
    case Set(_, _, _, _) =>
      c.(store := Evicted(Touched(c.store, NewEntry(c, op)), c.maxEntries),
          events := c.events + [WasSet(NewEntry(c, op))])
    case Get(key, now) =>
      var e := Lookup(c.store, key);
      if e.None? then c.(events := c.events + [WasMissed(key)])
      else if Expired(e.value, now) then c.(store := Without(c.store, key), events := c.events + [WasDropped(key)])
      else c.(store := Touched(c.store, e.value), events := c.events + [WasHit(key)])
    case Del(key) => c.(store := Without(c.store, key), events := c.events + [WasDropped(key)])
    case Clear => c.(store := [], events := c.events + [WasCleared])
  }

  /** What `get` returns. */
  function Answer(c: Cache, key: Key, now: Time): Option<Value> {
    var e := Lookup(c.store, key);
    if e.None? || Expired(e.value, now) then None else Some(e.value.value)
  }

  function Run(c: Cache, ops: seq<Op>): Cache {
    if |ops| == 0 then c else Step(Run(c, ops[..|ops| - 1]), ops[|ops| - 1])
  }

  function Empty(maxEntries: int, defaultTtl: int): Cache {
    Cache([], maxEntries, defaultTtl, [])
  }

  // --- The history's own account -------------------------------------------------------------------

  /** The entry last set for a key and not dropped since. */
  function Latest(events: seq<Event>, key: Key): Option<Entry> {
    if |events| == 0 then None
    else
      var last := events[|events| - 1];
      if last.WasSet? && last.entry.key == key then Some(last.entry)
      else if last.WasCleared? || last == WasDropped(key) then None
      else Latest(events[..|events| - 1], key)
  }

  function TouchedKey(e: Event): Option<Key> {
    match e
    case WasSet(entry) => Some(entry.key)
    case WasHit(key) => Some(key)
    case _ => None
  }

  /** The other keys set or hit since a key's own last set or hit. */
  function OthersSince(events: seq<Event>, key: Key): set<Key> {
    if |events| == 0 then {}
    else
      var last := TouchedKey(events[|events| - 1]);
      var before := OthersSince(events[..|events| - 1], key);
      if last.None? then before else if last.value == key then {} else before + {last.value}
  }

  // --- The store as a list ---------------------------------------------------------------------------

  predicate Distinct(s: seq<Entry>) {
    forall i, j | 0 <= i < j < |s| :: s[i].key != s[j].key
  }

  predicate Has(s: seq<Entry>, key: Key) {
    exists e <- s :: e.key == key
  }

  lemma {:induction false} WithoutFacts(s: seq<Entry>, key: Key)
    requires Distinct(s)
    ensures Distinct(Without(s, key)) && |Without(s, key)| <= |s| && (Has(s, key) ==> |Without(s, key)| < |s|)
    ensures forall e :: e in Without(s, key) <==> e in s && e.key != key
  {
    if |s| > 0 {
      var rest := Without(s[1..], key);
      WithoutFacts(s[1..], key);
      assert forall e :: e in s <==> e == s[0] || e in s[1..];
      assert forall e <- s[1..] :: e.key != s[0].key;
      forall j | 0 <= j < |rest| ensures rest[j].key != s[0].key { assert rest[j] in rest; }
    }
  }

  lemma {:induction false} LookupFacts(s: seq<Entry>, key: Key)
    requires Distinct(s)
    ensures Lookup(s, key).Some? ==> Lookup(s, key).value in s && Lookup(s, key).value.key == key
    ensures forall e <- s :: e.key == key ==> Lookup(s, key) == Some(e)
  {
    if |s| > 0 {
      LookupFacts(s[1..], key);
      assert forall e :: e in s <==> e == s[0] || e in s[1..];
      assert forall e <- s[1..] :: e.key != s[0].key;
    }
  }

  /** Every entry's younger neighbours are among the keys touched since. */
  predicate Ordered(s: seq<Entry>, events: seq<Event>) {
    forall i, j | 0 <= i < j < |s| :: s[j].key in OthersSince(events, s[i].key)
  }

  predicate Inv(c: Cache) {
    && Distinct(c.store)
    && (|c.store| <= c.maxEntries || |c.store| == 0)
    && Ordered(c.store, c.events)
    && (forall e <- c.store :: Latest(c.events, e.key) == Some(e))
  }

  /** The eviction promise: a live key is stored, or enough other keys were touched since. */
  predicate KeptOrCrowdedOut(c: Cache, key: Key) {
    Latest(c.events, key).Some? ==> Has(c.store, key) || |OthersSince(c.events, key)| >= c.maxEntries
  }

  // --- Preservation --------------------------------------------------------------------------------------

  lemma EventAppended(events: seq<Event>, e: Event)
    ensures (events + [e])[..|events + [e]| - 1] == events && (events + [e])[|events + [e]| - 1] == e
  {
  }

  lemma OthersAfter(events: seq<Event>, e: Event, key: Key)
    ensures var after := OthersSince(events + [e], key);
            && (TouchedKey(e).None? ==> after == OthersSince(events, key))
            && (TouchedKey(e) == Some(key) ==> after == {})
            && (TouchedKey(e).Some? && TouchedKey(e) != Some(key) ==>
                after == OthersSince(events, key) + {TouchedKey(e).value})
  {
    EventAppended(events, e);
  }

  lemma LatestAfter(events: seq<Event>, e: Event, key: Key)
    ensures Latest(events + [e], key) ==
            if e.WasSet? && e.entry.key == key then Some(e.entry)
            else if e.WasCleared? || e == WasDropped(key) then None
            else Latest(events, key)
  {
    EventAppended(events, e);
  }

  /** Removing a key keeps the order of the rest. */
  lemma {:induction false} WithoutOrdered(s: seq<Entry>, key: Key, events: seq<Event>)
    requires Distinct(s) && Ordered(s, events)
    ensures Ordered(Without(s, key), events)
  {
    if |s| > 0 {
      var rest := Without(s[1..], key);
      WithoutOrdered(s[1..], key, events);
      WithoutFacts(s[1..], key);
      forall j | 0 <= j < |rest| ensures rest[j].key in OthersSince(events, s[0].key) {
        assert rest[j] in rest && rest[j] in s[1..];
        var m :| 0 <= m < |s[1..]| && s[1..][m] == rest[j];
        assert s[m + 1] == rest[j];
      }
    }
  }

  lemma OrderedAfterQuietEvent(s: seq<Entry>, events: seq<Event>, e: Event)
    requires Ordered(s, events) && TouchedKey(e).None?
    ensures Ordered(s, events + [e])
  {
    forall i | 0 <= i < |s| { OthersAfter(events, e, s[i].key); }
  }

  /** Touching a key puts it last, and every other entry has now seen it touched. */
  lemma TouchedOrdered(s: seq<Entry>, e: Entry, events: seq<Event>, event: Event)
    requires Distinct(s) && Ordered(s, events) && TouchedKey(event) == Some(e.key)
    ensures Distinct(Touched(s, e)) && Ordered(Touched(s, e), events + [event])
    ensures forall x :: x in Touched(s, e) <==> x == e || (x in s && x.key != e.key)
    ensures |Touched(s, e)| <= |s| + 1 && (Has(s, e.key) ==> |Touched(s, e)| <= |s|)
  {
    var rest := Without(s, e.key);
    WithoutFacts(s, e.key);
    WithoutOrdered(s, e.key, events);
    forall i | 0 <= i < |rest| ensures rest[i].key != e.key { assert rest[i] in rest; }
    forall i, j | 0 <= i < j < |Touched(s, e)|
      ensures Touched(s, e)[j].key in OthersSince(events + [event], Touched(s, e)[i].key)
    {
      assert Touched(s, e)[i] == rest[i] && rest[i].key != e.key;
      OthersAfter(events, event, rest[i].key);
      if j < |rest| { assert rest[j].key in OthersSince(events, rest[i].key); }
    }
  }

  lemma {:induction false} EvictedIsSuffix(s: seq<Entry>, maxEntries: int)
    ensures var r := Evicted(s, maxEntries);
            && |r| <= |s| && r == s[|s| - |r|..]
            && (|r| <= maxEntries || |r| == 0)
            && (|r| == |s| || |r| == (if maxEntries < 0 then 0 else maxEntries))
  {
    if |s| > maxEntries && |s| > 0 {
      EvictedIsSuffix(s[1..], maxEntries);
    }
  }

  function KeysOf(s: seq<Entry>): set<Key> {
    set e <- s :: e.key
  }

  lemma {:induction false} DistinctKeysCount(s: seq<Entry>)
    requires Distinct(s)
    ensures |KeysOf(s)| == |s|
  {
    if |s| > 0 {
      DistinctKeysCount(s[1..]);
      assert s == [s[0]] + s[1..];
      assert forall e <- s[1..] :: e.key != s[0].key;
      assert KeysOf(s) == {s[0].key} + KeysOf(s[1..]);
    }
  }

  lemma Subset(a: set<Key>, b: set<Key>)
    requires a <= b
    ensures |a| <= |b|
  {
    assert b == a + (b - a);
  }

  /** An entry at position `i` has been followed by every younger entry's key. */
  lemma YoungerKeysCount(s: seq<Entry>, events: seq<Event>, i: nat)
    requires Distinct(s) && Ordered(s, events) && i < |s|
    ensures |OthersSince(events, s[i].key)| >= |s| - 1 - i
  {
    var younger := s[i + 1..];
    DistinctKeysCount(younger);
    forall k | k in KeysOf(younger) ensures k in OthersSince(events, s[i].key) {
      var e :| e in younger && e.key == k;
      var j :| 0 <= j < |younger| && younger[j] == e;
      assert s[i + 1 + j] == e;
    }
    Subset(KeysOf(younger), OthersSince(events, s[i].key));
  }

  lemma SetKeepsInv(c: Cache, op: Op)
    requires Inv(c) && op.Set?
    ensures Inv(Step(c, op))
  {
    var e, event := NewEntry(c, op), WasSet(NewEntry(c, op));
    var full := Touched(c.store, e);
    TouchedOrdered(c.store, e, c.events, event);
    EvictedIsSuffix(full, c.maxEntries);
    var c' := Step(c, op);
    SuffixKeeps(full, |full| - |c'.store|, c'.events);
    forall x | x in c'.store ensures Latest(c'.events, x.key) == Some(x) {
      assert x in full;
      LatestAfter(c.events, event, x.key);
    }
  }

  lemma SuffixKeeps(s: seq<Entry>, n: nat, events: seq<Event>)
    requires Distinct(s) && Ordered(s, events) && n <= |s|
    ensures Distinct(s[n..]) && Ordered(s[n..], events) && forall x <- s[n..] :: x in s
  {
  }

  lemma StepKeepsInv(c: Cache, op: Op)
    requires Inv(c)
    ensures Inv(Step(c, op))
  {
    var c' := Step(c, op);
    match op
    case Set(_, _, _, _) => SetKeepsInv(c, op);
    case Clear =>
    case Del(key) => DropKeepsInv(c, key);
    case Get(key, now) =>
      LookupFacts(c.store, key);
      var e := Lookup(c.store, key);
      if e.None? {
        OrderedAfterQuietEvent(c.store, c.events, WasMissed(key));
        forall x | x in c.store { LatestAfter(c.events, WasMissed(key), x.key); }
      } else if Expired(e.value, now) {
        DropKeepsInv(c, key);
      } else {
        TouchedOrdered(c.store, e.value, c.events, WasHit(key));
        assert Has(c.store, key);
        forall x | x in c'.store ensures Latest(c'.events, x.key) == Some(x) {
          assert x in c.store;
          LatestAfter(c.events, WasHit(key), x.key);
        }
      }
  }

  lemma DropKeepsInv(c: Cache, key: Key)
    requires Inv(c)
    ensures Inv(c.(store := Without(c.store, key), events := c.events + [WasDropped(key)]))
  {
    WithoutFacts(c.store, key);
    WithoutOrdered(c.store, key, c.events);
    OrderedAfterQuietEvent(Without(c.store, key), c.events, WasDropped(key));
    forall x | x in Without(c.store, key) { LatestAfter(c.events, WasDropped(key), x.key); }
  }

  /** A set that evicts `key` does so with a full house of younger keys. */
  lemma SetKeepsPromise(c: Cache, op: Op, key: Key)
    requires Inv(c) && op.Set? && KeptOrCrowdedOut(c, key)
    ensures KeptOrCrowdedOut(Step(c, op), key)
  {
    var e, event := NewEntry(c, op), WasSet(NewEntry(c, op));
    var full, c' := Touched(c.store, e), Step(c, op);
    TouchedOrdered(c.store, e, c.events, event);
    EvictedIsSuffix(full, c.maxEntries);
    LatestAfter(c.events, event, key);
    OthersAfter(c.events, event, key);
    if Has(full, key) && !Has(c'.store, key) {
      var i :| 0 <= i < |full| && full[i].key == key;
      YoungerKeysCount(full, c'.events, i);
    } else if !Has(full, key) {
      assert !Has(c.store, key);
      Subset(OthersSince(c.events, key), OthersSince(c'.events, key));
    }
  }

  lemma StepKeepsPromise(c: Cache, op: Op, key: Key)
    requires Inv(c) && KeptOrCrowdedOut(c, key)
    ensures KeptOrCrowdedOut(Step(c, op), key)
  {
    var c' := Step(c, op);
    if op.Set? {
      SetKeepsPromise(c, op, key);
    } else {
      var event := c'.events[|c.events|];
      LatestAfter(c.events, event, key);
      OthersAfter(c.events, event, key);
      Subset(OthersSince(c.events, key), OthersSince(c.events, key) + (if op.Clear? then {} else {op.key}));
      if !op.Clear? {
        WithoutFacts(c.store, op.key);
        LookupFacts(c.store, op.key);
        if event.WasHit? { TouchedOrdered(c.store, Lookup(c.store, op.key).value, c.events, event); }
      }
    }
  }

  // --- Main results -----------------------------------------------------------------------------------------

  lemma {:induction false} RunKeepsInv(maxEntries: int, defaultTtl: int, ops: seq<Op>)
    ensures Inv(Run(Empty(maxEntries, defaultTtl), ops))
    ensures Run(Empty(maxEntries, defaultTtl), ops).maxEntries == maxEntries
  {
    if |ops| > 0 {
      RunKeepsInv(maxEntries, defaultTtl, ops[..|ops| - 1]);
      StepKeepsInv(Run(Empty(maxEntries, defaultTtl), ops[..|ops| - 1]), ops[|ops| - 1]);
    }
  }

  /** After every operation the size is within the bound. */
  lemma SizeStaysBounded(maxEntries: int, defaultTtl: int, ops: seq<Op>)
    ensures |Run(Empty(maxEntries, defaultTtl), ops).store| <= if maxEntries < 0 then 0 else maxEntries
  {
    RunKeepsInv(maxEntries, defaultTtl, ops);
  }

  /** A hit returns the value last set for that key and not dropped since, and that entry is unexpired. */
  lemma HitReturnsLatest(maxEntries: int, defaultTtl: int, ops: seq<Op>, key: Key, now: Time)
    ensures var c := Run(Empty(maxEntries, defaultTtl), ops);
            Answer(c, key, now).Some? ==>
              && Latest(c.events, key).Some? && !Expired(Latest(c.events, key).value, now)
              && Answer(c, key, now) == Some(Latest(c.events, key).value.value)
  {
    RunKeepsInv(maxEntries, defaultTtl, ops);
    LookupFacts(Run(Empty(maxEntries, defaultTtl), ops).store, key);
  }

  lemma {:induction false} KeptUnlessCrowdedOut(maxEntries: int, defaultTtl: int, ops: seq<Op>, key: Key)
    ensures KeptOrCrowdedOut(Run(Empty(maxEntries, defaultTtl), ops), key)
  {
    if |ops| > 0 {
      var before := ops[..|ops| - 1];
      RunKeepsInv(maxEntries, defaultTtl, before);
      KeptUnlessCrowdedOut(maxEntries, defaultTtl, before, key);
      StepKeepsPromise(Run(Empty(maxEntries, defaultTtl), before), ops[|ops| - 1], key);
    }
  }

  /** A live, unexpired key is missed only if at least `maxEntries` other keys were set or hit since its last touch. */
  lemma MissMeansCrowdedOut(maxEntries: int, defaultTtl: int, ops: seq<Op>, key: Key, now: Time)
    ensures var c := Run(Empty(maxEntries, defaultTtl), ops);
            Latest(c.events, key).Some? && !Expired(Latest(c.events, key).value, now) && Answer(c, key, now).None? ==>
              |OthersSince(c.events, key)| >= maxEntries
  {
    var c := Run(Empty(maxEntries, defaultTtl), ops);
    RunKeepsInv(maxEntries, defaultTtl, ops);
    KeptUnlessCrowdedOut(maxEntries, defaultTtl, ops, key);
    LookupFacts(c.store, key);
  }

  /**
   A value just set is served up to its expiry and not after it; without a positive time to live it does not expire.
   */
  lemma ServedUntilExpiry(c: Cache, op: Op, now: Time)
    requires Inv(c) && op.Set? && c.maxEntries >= 1
    ensures var ttl := if op.ttl.Some? then op.ttl.value else c.defaultTtl;
            var end := op.now + ttl * 1000;
            Answer(Step(c, op), op.key, now) == if ttl > 0 && 0 < end < now then None else Some(op.value)
  {
    var kept := Step(c, op).store;
    NewestIsKept(c, op);
    SetKeepsInv(c, op);
    LookupFacts(kept, op.key);
  }

  /** With room for one entry, the one just set is stored. */
  lemma NewestIsKept(c: Cache, op: Op)
    requires Inv(c) && op.Set? && c.maxEntries >= 1
    ensures NewEntry(c, op) in Step(c, op).store
  {
    var full := Without(c.store, op.key) + [NewEntry(c, op)];
    EvictedIsSuffix(full, c.maxEntries);
    var kept := Evicted(full, c.maxEntries);
    assert kept[|kept| - 1] == full[|full| - 1];
  }

  // --- The backend object --------------------------------------------------------------------------------------

  /** The backend with its map in place; `log` is the history it has seen. */
  class MemoryCacheBackend {
    const maxEntries: int
    const defaultTtlSec: int
    var store: seq<Entry>
    ghost var log: seq<Event>

    ghost function State(): Cache
      reads this
    {
      Cache(store, maxEntries, defaultTtlSec, log)
    }

    constructor (maxEntries: int, defaultTtlSec: int)
      ensures State() == Empty(maxEntries, defaultTtlSec)
    {
      this.maxEntries, this.defaultTtlSec := maxEntries, defaultTtlSec;
      store := [];
      log := [];
    }

    method Get(key: Key, now: Time) returns (value: Option<Value>)
      modifies this
      ensures State() == Step(old(State()), Op.Get(key, now)) && value == Answer(old(State()), key, now)
    {
      var entry := Lookup(store, key);
      if entry.None? {
        log := log + [WasMissed(key)];
        return None;
      }
      if Expired(entry.value, now) {
        store := Without(store, key);
        log := log + [WasDropped(key)];
        return None;
      }
      LookupKey(store, key);
      store := Without(store, key);
      store := store + [entry.value];
      log := log + [WasHit(key)];
      return Some(entry.value.value);
    }

    method Set(key: Key, value: Value, ttlSec: Option<int>, now: Time)
      modifies this
      ensures State() == Step(old(State()), Op.Set(key, value, ttlSec, now))
    {
      var ttl := if ttlSec.Some? then ttlSec.value else defaultTtlSec;
      var expiresAt := if ttl > 0 then now + ttl * 1000 else 0;
      store := Without(store, key);
      store := store + [Entry(key, value, expiresAt)];
      log := log + [WasSet(Entry(key, value, expiresAt))];
      ghost var full := store;
      while |store| > maxEntries
        invariant Evicted(store, maxEntries) == Evicted(full, maxEntries)
        invariant log == old(log) + [WasSet(Entry(key, value, expiresAt))]
        decreases |store|
      {
        if |store| == 0 { break; }
        store := store[1..];
      }
    }

    method Del(key: Key)
      modifies this
      ensures State() == Step(old(State()), Op.Del(key))
    {
      store := Without(store, key);
      log := log + [WasDropped(key)];
    }

    method Clear()
      modifies this
      ensures State() == Step(old(State()), Op.Clear)
    {
      store := [];
      log := log + [WasCleared];
    }
  }

  lemma {:induction false} LookupKey(s: seq<Entry>, key: Key)
    ensures Lookup(s, key).Some? ==> Lookup(s, key).value.key == key
  {
    if |s| > 0 { LookupKey(s[1..], key); }
  }
}
