/**
 Which snapshots are accepted: a graph without unsafe properties whose unfolding stays within the
 limits. The unfolding is measured without the walk, its counters or its set of visited objects.
 */
module RedactionAcceptance {
  import opened Wrappers
  import opened Unicode
  import opened Redaction

  /** Nodes, and UTF-8 bytes of text and paths. */
  datatype Size = Size(nodes: nat, bytes: nat)

  function Plus(a: Option<Size>, b: Option<Size>): Option<Size> {
    if a.None? || b.None? then None else Some(Size(a.value.nodes + b.value.nodes, a.value.bytes + b.value.bytes))
  }

  function OneNode(text: nat, path: Text): Option<Size> {
    Some(Size(1, text + |Utf8(path)|))
  }

  /** The size of everything below `v`, shared objects counted each time; None if it is too deep or unsafe. */
  function Unfolded(h: Heap, cfg: Config, v: Value, path: Text, depth: nat): Option<Size>
    decreases MAX_DEPTH + 1 - depth, 1, 0
  {
    if depth > 32 then None
    else if !v.VRef? then OneNode(TextBytes(v), path)
    else
      match h(v.ref)
      case DateObject(iso) => if iso.None? then None else OneNode(0, path)
      case ArrayObject(slots, extraEnumerable) =>
        if extraEnumerable then None else Plus(OneNode(0, path), UnfoldedSlots(h, cfg, slots, 0, path, depth))
      case PlainObject(props) => Plus(OneNode(0, path), UnfoldedProps(h, cfg, props, path, depth))
  }

  function UnfoldedSlots(h: Heap, cfg: Config, slots: seq<Slot>, index: nat, path: Text, depth: nat): Option<Size>
    requires depth <= MAX_DEPTH && index <= |slots|
    decreases MAX_DEPTH + 1 - depth, 0, |slots| - index
  {
    if index == |slots| then Some(Size(0, 0))
    else Plus(UnfoldedSlot(h, cfg, slots[index], index, path, depth),
              UnfoldedSlots(h, cfg, slots, index + 1, path, depth))
  }

  function UnfoldedSlot(h: Heap, cfg: Config, slot: Slot, index: nat, path: Text, depth: nat): Option<Size>
    requires depth <= MAX_DEPTH
    decreases MAX_DEPTH + 1 - depth, 0, 0
  {
    match slot
    case Hole => Some(Size(0, 0))
    case Accessor => None
    case Data(value) => Unfolded(h, cfg, value, ChildPath(path, DecimalText(index)), depth + 1)
  }

  function UnfoldedProps(h: Heap, cfg: Config, props: seq<Property>, path: Text, depth: nat): Option<Size>
    requires depth <= MAX_DEPTH
    decreases MAX_DEPTH + 1 - depth, 0, |props| + 1
  {
    if |props| == 0 then Some(Size(0, 0))
    else
      Plus(if props[0].enumerable then UnfoldedProp(h, cfg, props[0], path, depth) else Some(Size(0, 0)),
           UnfoldedProps(h, cfg, props[1..], path, depth))
  }

  /** What a hidden field holds is not measured. */
  function UnfoldedProp(h: Heap, cfg: Config, p: Property, path: Text, depth: nat): Option<Size>
    requires depth <= MAX_DEPTH
    decreases MAX_DEPTH + 1 - depth, 0, 0
  {
    if p.key.None? || !p.data || p.key.value in UNSAFE_KEYS then None
    else
      var below := ChildPath(path, p.key.value);
      if Hidden(cfg, p.key.value, below) then (if depth + 1 > 32 then None else OneNode(0, below))
      else Unfolded(h, cfg, p.value, below, depth + 1)
  }

  /** There is room for that much more. */
  predicate Room(b: Budget, s: Size) {
    b.nodes + s.nodes <= MAX_NODES && b.utf8Bytes + s.bytes <= MAX_UTF8_BYTES
  }

  /** The walk took no more than that. */
  predicate Took(b: Budget, b': Budget, s: Size) {
    b'.nodes <= b.nodes + s.nodes && b'.utf8Bytes <= b.utf8Bytes + s.bytes
  }

  lemma {:induction false} WalkFits(h: Heap, cfg: Config, v: Value, path: Text, depth: nat, b: Budget)
    requires Unfolded(h, cfg, v, path, depth).Some? && Room(b, Unfolded(h, cfg, v, path, depth).value)
    ensures var r := Walk(h, cfg, v, path, depth, b);
            r.Done? && Took(b, r.budget, Unfolded(h, cfg, v, path, depth).value)
    decreases MAX_DEPTH + 1 - depth, 1, 0
  {
    if v.VRef? {
      var c := Charged(b, TextBytes(v), path);
      var d := c.(seen := c.seen + {v.ref});
      match h(v.ref)
      case DateObject(_) =>
      case ArrayObject(slots, _) => SlotsFit(h, cfg, slots, 0, path, depth, d);
      case PlainObject(props) => PropsFit(h, cfg, props, path, depth, d);
    }
  }

  lemma {:induction false} SlotsFit(
      h: Heap, cfg: Config, slots: seq<Slot>, index: nat, path: Text, depth: nat, b: Budget)
    requires depth <= MAX_DEPTH && index <= |slots|
    requires var s := UnfoldedSlots(h, cfg, slots, index, path, depth); s.Some? && Room(b, s.value)
    ensures var r := WalkSlots(h, cfg, slots, index, path, depth, b);
            r.Done? && Took(b, r.budget, UnfoldedSlots(h, cfg, slots, index, path, depth).value)
    decreases MAX_DEPTH + 1 - depth, 0, |slots| - index
  {
    if index < |slots| {
      if slots[index].Data? {
        WalkFits(h, cfg, slots[index].value, ChildPath(path, DecimalText(index)), depth + 1, b);
      }
      var head := WalkSlot(h, cfg, slots[index], index, path, depth, b);
      SlotsFit(h, cfg, slots, index + 1, path, depth, head.budget);
    }
  }

  lemma {:induction false} PropsFit(h: Heap, cfg: Config, props: seq<Property>, path: Text, depth: nat, b: Budget)
    requires depth <= MAX_DEPTH
    requires var s := UnfoldedProps(h, cfg, props, path, depth); s.Some? && Room(b, s.value)
    ensures var r := WalkProps(h, cfg, props, path, depth, b);
            r.Done? && Took(b, r.budget, UnfoldedProps(h, cfg, props, path, depth).value)
    decreases MAX_DEPTH + 1 - depth, 0, |props| + 1
  {
    if |props| > 0 {
      if props[0].enumerable {
        PropFits(h, cfg, props[0], path, depth, b);
        PropsFit(h, cfg, props[1..], path, depth, WalkProp(h, cfg, props[0], path, depth, b).budget);
      } else {
        PropsFit(h, cfg, props[1..], path, depth, b);
      }
    }
  }

  lemma {:induction false} PropFits(h: Heap, cfg: Config, p: Property, path: Text, depth: nat, b: Budget)
    requires depth <= MAX_DEPTH
    requires var s := UnfoldedProp(h, cfg, p, path, depth); s.Some? && Room(b, s.value)
    ensures var r := WalkProp(h, cfg, p, path, depth, b);
            r.Done? && Took(b, r.budget, UnfoldedProp(h, cfg, p, path, depth).value)
    decreases MAX_DEPTH + 1 - depth, 0, 0
  {
    var below := ChildPath(path, p.key.value);
    if !Hidden(cfg, p.key.value, below) { WalkFits(h, cfg, p.value, below, depth + 1, b); }
  }

  /** A safe graph is accepted if its unfolding has at most 10,000 nodes, 1 MiB of text and paths, and depth 32. */
  lemma SmallSnapshotsAreAccepted(h: Heap, cfg: Config, v: Value)
    requires var s := Unfolded(h, cfg, v, [], 0); s.Some? && s.value.nodes <= 10_000 && s.value.bytes <= 1024 * 1024
    ensures Sanitize(h, cfg, v).Done?
  {
    WalkFits(h, cfg, v, [], 0, Budget(0, 0, {}));
  }
}
