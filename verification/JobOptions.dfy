/**
 The options of a scheduled job: which identity it locks and how its lease is timed.

 Strings are sequences of UTF-16 code units. The lock key is a hash of the serialised identity; the
 hash is taken to be collision-free, so the key is the identity itself.
 */
module JobOptions {
  import opened Wrappers
  import opened Unicode

  /** A value handed in by a caller, as far as the checks on it tell values apart. */
  datatype Raw = Undefined | Str(text: Text) | Integer(value: int) | Other

  datatype JobType = Schedule | Initial
  datatype RawType = TypeUndefined | TypeIs(value: JobType) | TypeInvalid

  datatype Options = Options(code: Raw, runKey: Raw, kind: RawType, leaseMs: Raw, heartbeatMs: Raw)

  // --- Identity ----------------------------------------------------------------------------

  datatype Identity = Identity(kind: JobType, code: Text, runKey: Option<Text>)

  function ResolveIdentity(opts: Options): Option<Identity> {
    var code := if opts.code.Str? then Trim(opts.code.text) else [];
    if |code| == 0 || |code| > 64 then None
    else
      match opts.kind
      case TypeInvalid => None
      case TypeIs(Initial) => if opts.runKey.Undefined? then Some(Identity(Initial, code, None)) else None
      case _ =>
        if opts.runKey.Str? && 0 < |Trim(opts.runKey.text)| <= 1024
        then Some(Identity(Schedule, code, Some(Trim(opts.runKey.text)))) else None
  }

  /** Exactly which options are accepted, and the identity they name. */
  lemma IdentityIff(opts: Options, id: Identity)
    ensures ResolveIdentity(opts) == Some(id) <==>
              && opts.code.Str? && TrimsTo(opts.code.text, id.code) && 1 <= |id.code| <= 64
              && (opts.kind == TypeIs(id.kind) || (opts.kind == TypeUndefined && id.kind == Schedule))
              && match id.kind
                 case Schedule =>
                   && opts.runKey.Str? && id.runKey.Some?
                   && TrimsTo(opts.runKey.text, id.runKey.value) && 1 <= |id.runKey.value| <= 1024
                 case Initial => opts.runKey.Undefined? && id.runKey.None?
  {
    if opts.code.Str? { TrimIff(opts.code.text, id.code); }
    if opts.runKey.Str? && id.runKey.Some? { TrimIff(opts.runKey.text, id.runKey.value); }
  }

  function KindOf(opts: Options): JobType {
    if opts.kind.TypeIs? then opts.kind.value else Schedule
  }

  /** Two accepted jobs are the same once white space is trimmed; a one-off job has no run key. */
  predicate SameAfterTrimming(a: Options, b: Options)
    requires ResolveIdentity(a).Some? && ResolveIdentity(b).Some?
  {
    && KindOf(a) == KindOf(b) && Trim(a.code.text) == Trim(b.code.text)
    && (KindOf(a).Schedule? ==> Trim(a.runKey.text) == Trim(b.runKey.text))
  }

  /** Accepted jobs resolve to one identity exactly when they are the same after trimming. */
  lemma SameIdentityIff(a: Options, b: Options)
    requires ResolveIdentity(a).Some? && ResolveIdentity(b).Some?
    ensures ResolveIdentity(a) == ResolveIdentity(b) <==> SameAfterTrimming(a, b)
  {
  }

  /** White space around code and run key never makes a different job. */
  lemma PaddedJobIsTheSame(opts: Options, before: Text, after: Text)
    requires Blank(before) && Blank(after) && opts.code.Str? && opts.runKey.Str?
    ensures var padded := opts.(code := Str(before + opts.code.text + after),
              runKey := Str(before + opts.runKey.text + after));
            ResolveIdentity(padded) == ResolveIdentity(opts)
  {
    PaddingDoesNotMatter(before, opts.code.text, after);
    PaddingDoesNotMatter(before, opts.runKey.text, after);
  }

  // --- Lease timing ------------------------------------------------------------------------

  const DEFAULT_LEASE_MS: nat := 900_000
  const DEFAULT_HEARTBEAT_MS: nat := 60_000
  const MAX_SAFE_INTEGER: int := 9_007_199_254_740_991

  datatype Timing = Timing(leaseMs: nat, heartbeatMs: nat)

  predicate SafeInteger(n: int) {
    -MAX_SAFE_INTEGER <= n <= MAX_SAFE_INTEGER
  }

  function Min(a: int, b: int): int { if a < b then a else b }
  function Max(a: int, b: int): int { if a < b then b else a }

  /** None is the invalid-lease error. */
  function ResolveLeaseTiming(opts: Options): Option<Timing> {
    var lease := if opts.leaseMs.Undefined? then Integer(DEFAULT_LEASE_MS) else opts.leaseMs;
    if !lease.Integer? || !SafeInteger(lease.value) || lease.value <= 2 then None
    else
      var beat := if opts.heartbeatMs.Undefined? then Integer(Min(DEFAULT_HEARTBEAT_MS, Max(1, lease.value / 3)))
          else opts.heartbeatMs;
      if !beat.Integer? || !SafeInteger(beat.value) || beat.value < 0 then None
      else if beat.value > 0 && beat.value * 2 >= lease.value then None
      else Some(Timing(lease.value, beat.value))
  }

  /** The longest default interval of which three fit into the lease, or one millisecond. */
  predicate DefaultInterval(leaseMs: nat, heartbeatMs: nat) {
    && 1 <= heartbeatMs <= 60_000
    && (heartbeatMs > 1 ==> 3 * heartbeatMs <= leaseMs)
    && (heartbeatMs < 60_000 ==> leaseMs < 3 * (heartbeatMs + 1))
  }

  /** Exactly which timings are accepted, and what omitted values become. */
  lemma TimingIff(opts: Options, t: Timing)
    ensures ResolveLeaseTiming(opts) == Some(t) <==>
              && 3 <= t.leaseMs <= MAX_SAFE_INTEGER
              && (if opts.leaseMs.Undefined? then t.leaseMs == 15 * 60 * 1000 else opts.leaseMs == Integer(t.leaseMs))
              && (if opts.heartbeatMs.Undefined? then DefaultInterval(t.leaseMs, t.heartbeatMs)
                  else
                    && opts.heartbeatMs == Integer(t.heartbeatMs)
                    && (t.heartbeatMs == 0 || t.heartbeatMs < t.leaseMs - t.heartbeatMs))
  {
  }

  /**
   An accepted timing with a heartbeat leaves room for two beats in a lease; an omitted heartbeat is
   always accepted and always positive; and resolving a resolved timing again changes nothing.
   */
  lemma TimingLeavesRoomForTwoBeats(opts: Options)
    ensures var t := ResolveLeaseTiming(opts);
            && (t.Some? ==>
                  && t.value.leaseMs > 2
                  && 2 * t.value.heartbeatMs < t.value.leaseMs
                  && ResolveLeaseTiming(opts.(leaseMs := Integer(t.value.leaseMs),
                      heartbeatMs := Integer(t.value.heartbeatMs))) == t)
            && (opts.heartbeatMs.Undefined? ==>
                  (t.Some? <==>
                    opts.leaseMs.Undefined? || (opts.leaseMs.Integer? && 2 < opts.leaseMs.value <= MAX_SAFE_INTEGER)))
            && (opts.heartbeatMs.Undefined? && t.Some? ==> t.value.heartbeatMs > 0)
  {
  }
}
