/**
 Sanitising an audit snapshot: a budgeted walk over an object graph that may be cyclic or shared.

 Objects live in a heap. What a secret field holds is never read, so the walk cannot depend on it.
 Case mapping is a parameter; the redaction mark and an ISO date are kept apart from copied text.
 */
module Redaction {
  import opened Wrappers
  import opened Unicode

  type Ref = nat

  datatype Value = VText(text: Text) | VOther(id: int) | VRef(ref: Ref)

  /** An own array slot: missing, a data property, or an accessor. */
  datatype Slot = Hole | Data(value: Value) | Accessor

  /** An own property in key order; a symbol key is None. */
  datatype Property = Property(key: Option<Text>, enumerable: bool, data: bool, value: Value)

  datatype Object =
    | DateObject(iso: Option<Text>)
    | ArrayObject(slots: seq<Slot>, extraEnumerable: bool)
    | PlainObject(props: seq<Property>)

  type Heap = Ref -> Object

  /** `configured` holds the configured fields and paths, already in lower case. */
  datatype Config = Config(lower: Text -> Text, configured: set<Text>)

  const MAX_DEPTH := 32
  const MAX_NODES := 10_000
  const MAX_UTF8_BYTES := 1024 * 1024

  datatype Error = LimitError | UnsafeError | DateError

  /** The output; `Mark` is the text "[REDACTED]". */
  datatype Out =
    | Copied(value: Value)
    | Iso(text: Text)
    | Mark
    | List(items: seq<Item>)
    | Fields(entries: seq<Field>)
  datatype Item = Missing | Filled(value: Out)
  datatype Field = Field(key: Text, value: Out)

  datatype Budget = Budget(nodes: nat, utf8Bytes: nat, seen: set<Ref>)

  datatype Outcome<T> = Done(value: T, budget: Budget) | Failed(error: Error)

  // --- Which fields are hidden ------------------------------------------------------------------

  function Ascii(s: string): Text {
    seq(|s|, i requires 0 <= i < |s| => if s[i] < '\U{80}' then s[i] as int else 0)
  }

  predicate LowerAlphanumeric(c: CodeUnit) {
    0x61 <= c <= 0x7A || 0x30 <= c <= 0x39
  }

  function KeepAlphanumeric(s: Text): Text {
    if |s| == 0 then []
    else (if LowerAlphanumeric(s[0]) then [s[0]] else []) + KeepAlphanumeric(s[1..])
  }

  predicate Includes(s: Text, part: Text) {
    part <= s || (|s| > 0 && Includes(s[1..], part))
  }

  const DEFAULT_SENSITIVE_FIELDS: set<Text> := {
    Ascii("password"), Ascii("passwd"), Ascii("secret"), Ascii("clientsecret"), Ascii("token"), Ascii("accesstoken"),
    Ascii("refreshtoken"), Ascii("idtoken"), Ascii("authorization"), Ascii("apikey"), Ascii("accesskey"),
    Ascii("privatekey"), Ascii("credential")}

  const SENSITIVE_MARKERS: set<Text> := {
    Ascii("password"), Ascii("passwd"), Ascii("secret"), Ascii("token"), Ascii("privatekey"), Ascii("apikey"),
    Ascii("accesskey"), Ascii("credential"), Ascii("authorization")}

  predicate IsSensitiveField(cfg: Config, key: Text) {
    var normalized := KeepAlphanumeric(cfg.lower(key));
    normalized in DEFAULT_SENSITIVE_FIELDS || exists marker <- SENSITIVE_MARKERS :: Includes(normalized, marker)
  }

  predicate Hidden(cfg: Config, key: Text, path: Text) {
    IsSensitiveField(cfg, key) || cfg.lower(key) in cfg.configured || cfg.lower(path) in cfg.configured
  }

  const UNSAFE_KEYS: set<Text> := {Ascii("__proto__"), Ascii("prototype"), Ascii("constructor")}

  function ChildPath(path: Text, key: Text): Text {
    if |path| > 0 then path + [0x2E] + key else key
  }

  function DecimalText(n: nat): Text {
    if n < 10 then [0x30 + n] else DecimalText(n / 10) + [0x30 + n % 10]
  }

  lemma {:induction false} KeepAppend(a: Text, b: Text)
    ensures KeepAlphanumeric(a + b) == KeepAlphanumeric(a) + KeepAlphanumeric(b)
  {
    if |a| == 0 {
      assert a + b == b;
    } else {
      assert (a + b)[1..] == a[1..] + b;
      KeepAppend(a[1..], b);
      var first := if LowerAlphanumeric(a[0]) then [a[0]] else [];
      assert first + (KeepAlphanumeric(a[1..]) + KeepAlphanumeric(b))
             == first + KeepAlphanumeric(a[1..]) + KeepAlphanumeric(b);
    }
  }

  lemma {:induction false} IncludesMiddle(a: Text, part: Text, b: Text)
    ensures Includes(a + part + b, part)
  {
    if |a| > 0 {
      assert (a + part + b)[1..] == a[1..] + part + b;
      IncludesMiddle(a[1..], part, b);
    }
  }

  predicate IsSeparator(s: Text) {
    forall i | 0 <= i < |s| :: !LowerAlphanumeric(s[i])
  }

  lemma {:induction false} SeparatorVanishes(s: Text)
    requires IsSeparator(s)
    ensures KeepAlphanumeric(s) == []
  {
    if |s| > 0 { SeparatorVanishes(s[1..]); }
  }

  lemma SpellingOf(a: Text, m1: Text, sep: Text, m2: Text, b: Text)
    requires IsSeparator(sep)
    ensures KeepAlphanumeric(a + (m1 + (sep + (m2 + b))))
            == KeepAlphanumeric(a) + (KeepAlphanumeric(m1) + KeepAlphanumeric(m2)) + KeepAlphanumeric(b)
  {
    KeepAppend(a, m1 + (sep + (m2 + b)));
    KeepAppend(m1, sep + (m2 + b));
    KeepAppend(sep, m2 + b);
    KeepAppend(m2, b);
    SeparatorVanishes(sep);
  }

  lemma MarkerHides(cfg: Config, key: Text, path: Text, x: Text, marker: Text, y: Text)
    requires KeepAlphanumeric(cfg.lower(key)) == x + marker + y && marker in SENSITIVE_MARKERS
    ensures Hidden(cfg, key, path)
  {
    IncludesMiddle(x, marker, y);
  }

  /** A field whose lower-case name spells a marker, with separators anywhere inside it, is hidden at every path. */
  lemma SpelledMarkersAreHidden(cfg: Config, key: Text, path: Text, a: Text, m1: Text, sep: Text, m2: Text, b: Text)
    requires cfg.lower(key) == a + (m1 + (sep + (m2 + b))) && IsSeparator(sep)
    requires KeepAlphanumeric(m1) + KeepAlphanumeric(m2) in SENSITIVE_MARKERS
    ensures Hidden(cfg, key, path)
  {
    SpellingOf(a, m1, sep, m2, b);
    MarkerHides(cfg, key, path, KeepAlphanumeric(a), KeepAlphanumeric(m1) + KeepAlphanumeric(m2), KeepAlphanumeric(b));
  }

  // --- The walk, as a function ---------------------------------------------------------------------

  function TextBytes(v: Value): nat {
    if v.VText? then |Utf8(v.text)| else 0
  }

  function Charged(b: Budget, textBytes: nat, path: Text): Budget {
    b.(nodes := b.nodes + 1, utf8Bytes := b.utf8Bytes + textBytes + |Utf8(path)|)
  }

  predicate WithinLimits(b: Budget, depth: nat) {
    depth <= MAX_DEPTH && b.nodes <= MAX_NODES && b.utf8Bytes <= MAX_UTF8_BYTES
  }

  function Walk(h: Heap, cfg: Config, v: Value, path: Text, depth: nat, b: Budget): Outcome<Out>
    decreases MAX_DEPTH + 1 - depth, 1, 0
  {
    var c := Charged(b, TextBytes(v), path);
    if !WithinLimits(c, depth) then Failed(LimitError)
    else if !v.VRef? then Done(Copied(v), c)
    else
      match h(v.ref)
      case DateObject(iso) => if iso.Some? then Done(Iso(iso.value), c) else Failed(DateError)
      case ArrayObject(slots, extraEnumerable) =>
        if v.ref in c.seen then Done(Mark, c)
        else
          var r := WalkSlots(h, cfg, slots, 0, path, depth, c.(seen := c.seen + {v.ref}));
          if r.Failed? then Failed(r.error)
          else if extraEnumerable then Failed(UnsafeError)
          else Done(List(r.value), r.budget)
      case PlainObject(props) =>
        if v.ref in c.seen then Done(Mark, c)
        else
          var r := WalkProps(h, cfg, props, path, depth, c.(seen := c.seen + {v.ref}));
          if r.Failed? then Failed(r.error) else Done(Fields(r.value), r.budget)
  }

  /** The slots from `index` on, at the depth of their array. */
  function WalkSlots(
      h: Heap, cfg: Config, slots: seq<Slot>, index: nat, path: Text, depth: nat, b: Budget): (r: Outcome<seq<Item>>)
    requires depth <= MAX_DEPTH && index <= |slots|
    ensures r.Done? ==> |r.value| == |slots| - index
    decreases MAX_DEPTH + 1 - depth, 0, |slots| - index
  {
    if index == |slots| then Done([], b)
    else
      var head := WalkSlot(h, cfg, slots[index], index, path, depth, b);
      if head.Failed? then Failed(head.error)
      else
        var tail := WalkSlots(h, cfg, slots, index + 1, path, depth, head.budget);
        if tail.Failed? then tail else Done([head.value] + tail.value, tail.budget)
  }

  function WalkSlot(h: Heap, cfg: Config, slot: Slot, index: nat, path: Text, depth: nat, b: Budget): Outcome<Item>
    requires depth <= MAX_DEPTH
    decreases MAX_DEPTH + 1 - depth, 0, 0
  {
    match slot
    case Hole => Done(Missing, b)
    case Accessor => Failed(UnsafeError)
    case Data(v) =>
      var r := Walk(h, cfg, v, ChildPath(path, DecimalText(index)), depth + 1, b);
      if r.Failed? then Failed(r.error) else Done(Filled(r.value), r.budget)
  }

  function WalkProps(h: Heap, cfg: Config, props: seq<Property>, path: Text, depth: nat, b: Budget): Outcome<seq<Field>>
    requires depth <= MAX_DEPTH
    decreases MAX_DEPTH + 1 - depth, 0, |props| + 1
  {
    if |props| == 0 then Done([], b)
    else if !props[0].enumerable then WalkProps(h, cfg, props[1..], path, depth, b)
    else
      var head := WalkProp(h, cfg, props[0], path, depth, b);
      if head.Failed? then Failed(head.error)
      else
        var tail := WalkProps(h, cfg, props[1..], path, depth, head.budget);
        if tail.Failed? then tail else Done([head.value] + tail.value, tail.budget)
  }

  /** A hidden field is charged for its path alone; its value is not looked at. */
  function WalkProp(h: Heap, cfg: Config, p: Property, path: Text, depth: nat, b: Budget): Outcome<Field>
    requires depth <= MAX_DEPTH
    decreases MAX_DEPTH + 1 - depth, 0, 0
  {
    if p.key.None? || p.key.value in UNSAFE_KEYS || !p.data then Failed(UnsafeError)
    else
      var childPath := ChildPath(path, p.key.value);
      if Hidden(cfg, p.key.value, childPath) then
        var c := Charged(b, 0, childPath);
        if WithinLimits(c, depth + 1) then Done(Field(p.key.value, Mark), c) else Failed(LimitError)
      else
        var r := Walk(h, cfg, p.value, childPath, depth + 1, b);
        if r.Failed? then Failed(r.error) else Done(Field(p.key.value, r.value), r.budget)
  }

  function Sanitize(h: Heap, cfg: Config, v: Value): Outcome<Out> {
    Walk(h, cfg, v, [], 0, Budget(0, 0, {}))
  }

  // --- Non-interference ----------------------------------------------------------------------------

  /** Two graphs may live at different places: `f` names the counterpart of each object. */
  type Renaming = Ref -> Ref

  ghost predicate Injective(f: Renaming) {
    forall a, b | f(a) == f(b) :: a == b
  }

  function Renamed(f: Renaming, v: Value): Value {
    if v.VRef? then VRef(f(v.ref)) else v
  }

  function RenamedBudget(f: Renaming, b: Budget): Budget {
    b.(seen := set r <- b.seen :: f(r))
  }

  function RenamedOutcome<T>(f: Renaming, o: Outcome<T>): Outcome<T> {
    if o.Done? then Done(o.value, RenamedBudget(f, o.budget)) else o
  }

  /** The second heap looks like the first from `v` at this path, up to renaming and what hidden fields hold. */
  ghost predicate Alike(h: Heap, h': Heap, f: Renaming, cfg: Config, v: Value, path: Text, depth: nat)
    decreases MAX_DEPTH + 1 - depth, 1
  {
    depth <= MAX_DEPTH && v.VRef? ==>
      match (h(v.ref), h'(f(v.ref)))
      case (ArrayObject(s, x), ArrayObject(s', x')) =>
        |s| == |s'| && x == x'
        && forall i | 0 <= i < |s| :: AlikeSlot(h, h', f, cfg, s[i], s'[i], ChildPath(path, DecimalText(i)), depth)
      case (PlainObject(p), PlainObject(p')) =>
        |p| == |p'| && forall i | 0 <= i < |p| :: AlikeProp(h, h', f, cfg, p[i], p'[i], path, depth)
      case (DateObject(iso), DateObject(iso')) => iso == iso'
      case _ => false
  }

  ghost predicate AlikeSlot(h: Heap, h': Heap, f: Renaming, cfg: Config, s: Slot, s': Slot, path: Text, depth: nat)
    requires depth <= MAX_DEPTH
    decreases MAX_DEPTH + 1 - depth, 0
  {
    if s.Data? then s' == Data(Renamed(f, s.value)) && Alike(h, h', f, cfg, s.value, path, depth + 1) else s' == s
  }

  /** Same key and flags; same value unless the field is hidden here or is refused unread. */
  ghost predicate AlikeProp(
      h: Heap, h': Heap, f: Renaming, cfg: Config, p: Property, p': Property, path: Text, depth: nat)
    requires depth <= MAX_DEPTH
    decreases MAX_DEPTH + 1 - depth, 0
  {
    && p' == p.(value := p'.value)
    && (p.enumerable && p.data && p.key.Some? && p.key.value !in UNSAFE_KEYS
        && !Hidden(cfg, p.key.value, ChildPath(path, p.key.value)) ==>
          p'.value == Renamed(f, p.value) && Alike(h, h', f, cfg, p.value, ChildPath(path, p.key.value), depth + 1))
  }

  lemma RenamedSeen(f: Renaming, b: Budget, r: Ref)
    requires Injective(f)
    ensures f(r) in RenamedBudget(f, b).seen <==> r in b.seen
    ensures RenamedBudget(f, b.(seen := b.seen + {r}))
            == RenamedBudget(f, b).(seen := RenamedBudget(f, b).seen + {f(r)})
  {
    assert (set x <- b.seen + {r} :: f(x)) == (set x <- b.seen :: f(x)) + {f(r)};
  }

  lemma {:induction false} WalksAlike(
      h: Heap, h': Heap, f: Renaming, cfg: Config, v: Value, path: Text, depth: nat, b: Budget)
    requires Injective(f) && Alike(h, h', f, cfg, v, path, depth)
    ensures Walk(h', cfg, Renamed(f, v), path, depth, RenamedBudget(f, b))
            == RenamedOutcome(f, Walk(h, cfg, v, path, depth, b))
    decreases MAX_DEPTH + 1 - depth, 1, 0
  {
    var c := Charged(b, TextBytes(v), path);
    assert RenamedBudget(f, c) == Charged(RenamedBudget(f, b), TextBytes(v), path);
    if WithinLimits(c, depth) && v.VRef? {
      RenamedSeen(f, c, v.ref);
      var d := c.(seen := c.seen + {v.ref});
      match h(v.ref)
      case DateObject(_) =>
      case ArrayObject(slots, _) => SlotsAlike(h, h', f, cfg, slots, h'(f(v.ref)).slots, 0, path, depth, d);
      case PlainObject(props) => PropsAlike(h, h', f, cfg, props, h'(f(v.ref)).props, path, depth, d);
    }
  }

  lemma {:induction false} SlotsAlike(
      h: Heap, h': Heap, f: Renaming, cfg: Config, slots: seq<Slot>, slots': seq<Slot>, index: nat, path: Text,
      depth: nat, b: Budget)
    requires Injective(f) && depth <= MAX_DEPTH && index <= |slots| == |slots'|
    requires forall i | 0 <= i < |slots| ::
               AlikeSlot(h, h', f, cfg, slots[i], slots'[i], ChildPath(path, DecimalText(i)), depth)
    ensures WalkSlots(h', cfg, slots', index, path, depth, RenamedBudget(f, b))
            == RenamedOutcome(f, WalkSlots(h, cfg, slots, index, path, depth, b))
    decreases MAX_DEPTH + 1 - depth, 0, |slots| - index
  {
    if index < |slots| {
      assert AlikeSlot(h, h', f, cfg, slots[index], slots'[index], ChildPath(path, DecimalText(index)), depth);
      if slots[index].Data? {
        WalksAlike(h, h', f, cfg, slots[index].value, ChildPath(path, DecimalText(index)), depth + 1, b);
      }
      var head := WalkSlot(h, cfg, slots[index], index, path, depth, b);
      if head.Done? { SlotsAlike(h, h', f, cfg, slots, slots', index + 1, path, depth, head.budget); }
    }
  }

  lemma {:induction false} PropsAlike(
      h: Heap, h': Heap, f: Renaming, cfg: Config, props: seq<Property>, props': seq<Property>, path: Text, depth: nat,
      b: Budget)
    requires Injective(f) && depth <= MAX_DEPTH && |props| == |props'|
    requires forall i | 0 <= i < |props| :: AlikeProp(h, h', f, cfg, props[i], props'[i], path, depth)
    ensures WalkProps(h', cfg, props', path, depth, RenamedBudget(f, b))
            == RenamedOutcome(f, WalkProps(h, cfg, props, path, depth, b))
    decreases MAX_DEPTH + 1 - depth, 0, |props| + 1
  {
    if |props| > 0 {
      PropAlike(h, h', f, cfg, props[0], props'[0], path, depth, b);
      var head := WalkProp(h, cfg, props[0], path, depth, b);
      forall i | 0 <= i < |props[1..]| ensures AlikeProp(h, h', f, cfg, props[1..][i], props'[1..][i], path, depth) {
        assert props[1..][i] == props[i + 1] && props'[1..][i] == props'[i + 1];
      }
      if !props[0].enumerable {
        PropsAlike(h, h', f, cfg, props[1..], props'[1..], path, depth, b);
      } else if head.Done? {
        PropsAlike(h, h', f, cfg, props[1..], props'[1..], path, depth, head.budget);
      }
    }
  }

  lemma {:induction false} PropAlike(
      h: Heap, h': Heap, f: Renaming, cfg: Config, p: Property, p': Property, path: Text, depth: nat, b: Budget)
    requires Injective(f) && depth <= MAX_DEPTH && AlikeProp(h, h', f, cfg, p, p', path, depth)
    ensures p.enumerable ==>
              WalkProp(h', cfg, p', path, depth, RenamedBudget(f, b))
                  == RenamedOutcome(f, WalkProp(h, cfg, p, path, depth, b))
    decreases MAX_DEPTH + 1 - depth, 0, 0
  {
    if p.enumerable && p.key.Some? && p.data && p.key.value !in UNSAFE_KEYS {
      var childPath := ChildPath(path, p.key.value);
      if !Hidden(cfg, p.key.value, childPath) { WalksAlike(h, h', f, cfg, p.value, childPath, depth + 1, b); }
    }
  }

  /**
   Graphs that differ only in their location and in what hidden fields hold give the same output or the same error.
   */
  lemma SecretsDoNotInterfere(h: Heap, h': Heap, f: Renaming, cfg: Config, v: Value)
    requires Injective(f) && Alike(h, h', f, cfg, v, [], 0)
    ensures Sanitize(h', cfg, Renamed(f, v)) == RenamedOutcome(f, Sanitize(h, cfg, v))
  {
    assert RenamedBudget(f, Budget(0, 0, {})) == Budget(0, 0, {});
    WalksAlike(h, h', f, cfg, v, [], 0, Budget(0, 0, {}));
  }

  // --- Bounds and redaction of the output -------------------------------------------------------------

  function Nodes(out: Out): nat {
    match out
    case List(items) => 1 + NodesOfItems(items)
    case Fields(entries) => 1 + NodesOfFields(entries)
    case _ => 1
  }

  function NodesOfItems(items: seq<Item>): nat {
    if |items| == 0 then 0 else NodesOfItem(items[0]) + NodesOfItems(items[1..])
  }

  function NodesOfItem(item: Item): nat {
    match item
    case Missing => 0
    case Filled(out) => Nodes(out)
  }

  function NodesOfFields(entries: seq<Field>): nat {
    if |entries| == 0 then 0 else Nodes(entries[0].value) + NodesOfFields(entries[1..])
  }

  /** UTF-8 bytes of the text copied into the output. */
  function CopiedBytes(out: Out): nat {
    match out
    case Copied(v) => TextBytes(v)
    case List(items) => BytesOfItems(items)
    case Fields(entries) => BytesOfFields(entries)
    case _ => 0
  }

  function BytesOfItems(items: seq<Item>): nat {
    if |items| == 0 then 0 else BytesOfItem(items[0]) + BytesOfItems(items[1..])
  }

  function BytesOfItem(item: Item): nat {
    match item
    case Missing => 0
    case Filled(out) => CopiedBytes(out)
  }

  function BytesOfFields(entries: seq<Field>): nat {
    if |entries| == 0 then 0 else CopiedBytes(entries[0].value) + BytesOfFields(entries[1..])
  }

  /** Arrays and objects in the output. */
  function Containers(out: Out): nat {
    match out
    case List(items) => 1 + ContainersOfItems(items)
    case Fields(entries) => 1 + ContainersOfFields(entries)
    case _ => 0
  }

  function ContainersOfItems(items: seq<Item>): nat {
    if |items| == 0 then 0 else ContainersOfItem(items[0]) + ContainersOfItems(items[1..])
  }

  function ContainersOfItem(item: Item): nat {
    match item
    case Missing => 0
    case Filled(out) => Containers(out)
  }

  function ContainersOfFields(entries: seq<Field>): nat {
    if |entries| == 0 then 0 else Containers(entries[0].value) + ContainersOfFields(entries[1..])
  }

  /** No node lies more than `height` levels below this one. */
  predicate Fits(out: Out, height: int) {
    && height >= 0
    && match out
       case List(items) => forall i | 0 <= i < |items| && items[i].Filled? :: Fits(items[i].value, height - 1)
       case Fields(entries) => forall i | 0 <= i < |entries| :: Fits(entries[i].value, height - 1)
       case _ => true
  }

  /** Every hidden field, at every depth, holds the mark. */
  predicate Clean(cfg: Config, out: Out, path: Text) {
    match out
    case List(items) =>
      forall i | 0 <= i < |items| && items[i].Filled? :: Clean(cfg, items[i].value, ChildPath(path, DecimalText(i)))
    case Fields(entries) => forall i | 0 <= i < |entries| :: CleanField(cfg, entries[i], path)
    case _ => true
  }

  predicate CleanField(cfg: Config, f: Field, path: Text) {
    var childPath := ChildPath(path, f.key);
    if Hidden(cfg, f.key, childPath) then f.value == Mark else Clean(cfg, f.value, childPath)
  }

  /** What one stretch of the walk did to the budget: exact in nodes and containers, an upper bound in bytes. */
  predicate Spent(b: Budget, b': Budget, nodes: nat, bytes: nat, containers: nat) {
    && b'.nodes == b.nodes + nodes && b'.utf8Bytes >= b.utf8Bytes + bytes
    && b.seen <= b'.seen && |b'.seen| == |b.seen| + containers
    && b'.nodes <= MAX_NODES && b'.utf8Bytes <= MAX_UTF8_BYTES
  }

  predicate InBudget(b: Budget) {
    b.nodes <= MAX_NODES && b.utf8Bytes <= MAX_UTF8_BYTES
  }

  predicate GoodOut(cfg: Config, out: Out, path: Text, depth: nat, b: Budget, b': Budget) {
    Spent(b, b', Nodes(out), CopiedBytes(out), Containers(out)) && Fits(out, MAX_DEPTH - depth) && Clean(cfg, out, path)
  }

  lemma {:induction false} WalkIsGood(h: Heap, cfg: Config, v: Value, path: Text, depth: nat, b: Budget)
    ensures var r := Walk(h, cfg, v, path, depth, b);
            r.Done? ==> GoodOut(cfg, r.value, path, depth, b, r.budget)
    decreases MAX_DEPTH + 1 - depth, 1, 0
  {
    var c := Charged(b, TextBytes(v), path);
    if WithinLimits(c, depth) && v.VRef? && v.ref !in c.seen {
      var d := c.(seen := c.seen + {v.ref});
      match h(v.ref)
      case DateObject(_) =>
      case ArrayObject(slots, _) =>
        SlotsAreGood(h, cfg, slots, 0, path, depth, d);
        var r := WalkSlots(h, cfg, slots, 0, path, depth, d);
        assert r.Done? ==> forall i | 0 <= i < |r.value| :: GoodItem(cfg, r.value[i], 0 + i, path, depth);
      case PlainObject(props) => PropsAreGood(h, cfg, props, path, depth, d);
    }
  }

  predicate GoodItem(cfg: Config, item: Item, index: nat, path: Text, depth: nat) {
    item.Filled? ==>
      Fits(item.value, MAX_DEPTH - depth - 1) && Clean(cfg, item.value, ChildPath(path, DecimalText(index)))
  }

  lemma {:induction false} SlotIsGood(h: Heap, cfg: Config, slot: Slot, index: nat, path: Text, depth: nat, b: Budget)
    requires depth <= MAX_DEPTH && InBudget(b)
    ensures var r := WalkSlot(h, cfg, slot, index, path, depth, b);
            r.Done? ==>
              && Spent(b, r.budget, NodesOfItem(r.value), BytesOfItem(r.value), ContainersOfItem(r.value))
              && GoodItem(cfg, r.value, index, path, depth)
    decreases MAX_DEPTH + 1 - depth, 0, 0
  {
    if slot.Data? {
      WalkIsGood(h, cfg, slot.value, ChildPath(path, DecimalText(index)), depth + 1, b);
    }
  }

  lemma {:induction false} SlotsAreGood(
      h: Heap, cfg: Config, slots: seq<Slot>, index: nat, path: Text, depth: nat, b: Budget)
    requires depth <= MAX_DEPTH && index <= |slots| && InBudget(b)
    ensures var r := WalkSlots(h, cfg, slots, index, path, depth, b);
            r.Done? ==>
              && Spent(b, r.budget, NodesOfItems(r.value), BytesOfItems(r.value), ContainersOfItems(r.value))
              && forall i | 0 <= i < |r.value| :: GoodItem(cfg, r.value[i], index + i, path, depth)
    decreases MAX_DEPTH + 1 - depth, 0, |slots| - index
  {
    if index < |slots| {
      SlotIsGood(h, cfg, slots[index], index, path, depth, b);
      var head := WalkSlot(h, cfg, slots[index], index, path, depth, b);
      if head.Done? {
        SlotsAreGood(h, cfg, slots, index + 1, path, depth, head.budget);
        var r := WalkSlots(h, cfg, slots, index, path, depth, b);
        if r.Done? {
          var tail := WalkSlots(h, cfg, slots, index + 1, path, depth, head.budget).value;
          assert r.value[0] == head.value && r.value[1..] == tail;
          forall i | 0 <= i < |r.value| ensures GoodItem(cfg, r.value[i], index + i, path, depth) {
            if i > 0 {
              assert r.value[i] == tail[i - 1];
              assert GoodItem(cfg, tail[i - 1], index + 1 + (i - 1), path, depth);
            }
          }
        }
      }
    }
  }

  lemma {:induction false} PropsAreGood(h: Heap, cfg: Config, props: seq<Property>, path: Text, depth: nat, b: Budget)
    requires depth <= MAX_DEPTH && InBudget(b)
    ensures var r := WalkProps(h, cfg, props, path, depth, b);
            r.Done? ==>
              && Spent(b, r.budget, NodesOfFields(r.value), BytesOfFields(r.value), ContainersOfFields(r.value))
              && forall i | 0 <= i < |r.value| ::
                   Fits(r.value[i].value, MAX_DEPTH - depth - 1) && CleanField(cfg, r.value[i], path)
    decreases MAX_DEPTH + 1 - depth, 0, |props| + 1
  {
    if |props| > 0 {
      if !props[0].enumerable {
        PropsAreGood(h, cfg, props[1..], path, depth, b);
      } else {
        PropIsGood(h, cfg, props[0], path, depth, b);
        var head := WalkProp(h, cfg, props[0], path, depth, b);
        if head.Done? {
          PropsAreGood(h, cfg, props[1..], path, depth, head.budget);
          var r := WalkProps(h, cfg, props, path, depth, b);
          if r.Done? {
            var tail := WalkProps(h, cfg, props[1..], path, depth, head.budget).value;
            assert r.value[0] == head.value && r.value[1..] == tail;
            forall i | 0 <= i < |r.value|
              ensures Fits(r.value[i].value, MAX_DEPTH - depth - 1) && CleanField(cfg, r.value[i], path)
            {
              if i > 0 { assert r.value[i] == tail[i - 1]; }
            }
          }
        }
      }
    }
  }

  lemma {:induction false} PropIsGood(h: Heap, cfg: Config, p: Property, path: Text, depth: nat, b: Budget)
    requires depth <= MAX_DEPTH && InBudget(b)
    ensures var r := WalkProp(h, cfg, p, path, depth, b);
            r.Done? ==>
              && Spent(b, r.budget, Nodes(r.value.value), CopiedBytes(r.value.value), Containers(r.value.value))
              && Fits(r.value.value, MAX_DEPTH - depth - 1) && CleanField(cfg, r.value, path)
    decreases MAX_DEPTH + 1 - depth, 0, 0
  {
    if p.key.Some? {
      WalkIsGood(h, cfg, p.value, ChildPath(path, p.key.value), depth + 1, b);
    }
  }

  /**
   Every accepted snapshot is bounded and clean: the node count is exactly what was walked, no node is
   deeper than the limit, copied text stays within the byte budget, every array or object is copied
   at most once, and every hidden field holds the mark.
   */
  lemma OutputIsBoundedAndClean(h: Heap, cfg: Config, v: Value)
    ensures var r := Sanitize(h, cfg, v);
            r.Done? ==>
              && Nodes(r.value) == r.budget.nodes <= MAX_NODES
              && CopiedBytes(r.value) <= MAX_UTF8_BYTES
              && Fits(r.value, MAX_DEPTH)
              && Containers(r.value) == |r.budget.seen|
              && Clean(cfg, r.value, [])
  {
    WalkIsGood(h, cfg, v, [], 0, Budget(0, 0, {}));
  }

  // --- Fidelity of the output --------------------------------------------------------------------------

  function Enumerable(props: seq<Property>): seq<Property> {
    if |props| == 0 then [] else (if props[0].enumerable then [props[0]] else []) + Enumerable(props[1..])
  }

  /**
   The output mirrors the graph: values, dates, holes and fields appear unchanged and in order, and a
   mark stands only for a hidden field or for an object that was visited. Nothing unsafe is shown.
   */
  ghost predicate Mirrors(h: Heap, cfg: Config, v: Value, out: Out, path: Text, seen: set<Ref>)
    decreases out
  {
    match out
    case Copied(w) => w == v && !v.VRef?
    case Iso(t) => v.VRef? && h(v.ref) == DateObject(Some(t))
    case Mark => v.VRef? && !h(v.ref).DateObject? && v.ref in seen
    case List(items) =>
      && v.VRef? && h(v.ref).ArrayObject? && |items| == |h(v.ref).slots| && !h(v.ref).extraEnumerable
      && forall i | 0 <= i < |items| ::
          MirrorsItem(h, cfg, h(v.ref).slots[i], items[i], ChildPath(path, DecimalText(i)), seen)
    case Fields(entries) =>
      && v.VRef? && h(v.ref).PlainObject? && |entries| == |Enumerable(h(v.ref).props)|
      && forall i | 0 <= i < |entries| :: MirrorsField(h, cfg, Enumerable(h(v.ref).props)[i], entries[i], path, seen)
  }

  ghost predicate MirrorsItem(h: Heap, cfg: Config, slot: Slot, item: Item, path: Text, seen: set<Ref>)
    decreases item
  {
    match item
    case Missing => slot.Hole?
    case Filled(out) => slot.Data? && Mirrors(h, cfg, slot.value, out, path, seen)
  }

  ghost predicate MirrorsField(h: Heap, cfg: Config, p: Property, f: Field, path: Text, seen: set<Ref>)
    decreases f
  {
    && p.key == Some(f.key) && p.data && f.key !in UNSAFE_KEYS
    && if Hidden(cfg, f.key, ChildPath(path, f.key)) then f.value == Mark
       else Mirrors(h, cfg, p.value, f.value, ChildPath(path, f.key), seen)
  }

  lemma {:induction false} MirrorsMore(
      h: Heap, cfg: Config, v: Value, out: Out, path: Text, seen: set<Ref>, more: set<Ref>)
    requires Mirrors(h, cfg, v, out, path, seen) && seen <= more
    ensures Mirrors(h, cfg, v, out, path, more)
    decreases out
  {
    match out
    case List(items) =>
      forall i | 0 <= i < |items|
        ensures MirrorsItem(h, cfg, h(v.ref).slots[i], items[i], ChildPath(path, DecimalText(i)), more)
      {
        MirrorsItemMore(h, cfg, h(v.ref).slots[i], items[i], ChildPath(path, DecimalText(i)), seen, more);
      }
    case Fields(entries) =>
      forall i | 0 <= i < |entries|
        ensures MirrorsField(h, cfg, Enumerable(h(v.ref).props)[i], entries[i], path, more)
      {
        MirrorsFieldMore(h, cfg, Enumerable(h(v.ref).props)[i], entries[i], path, seen, more);
      }
    case _ =>
  }

  lemma {:induction false} MirrorsItemMore(
      h: Heap, cfg: Config, slot: Slot, item: Item, path: Text, seen: set<Ref>, more: set<Ref>)
    requires MirrorsItem(h, cfg, slot, item, path, seen) && seen <= more
    ensures MirrorsItem(h, cfg, slot, item, path, more)
    decreases item
  {
    match item
    case Missing =>
    case Filled(out) => MirrorsMore(h, cfg, slot.value, out, path, seen, more);
  }

  lemma {:induction false} MirrorsFieldMore(
      h: Heap, cfg: Config, p: Property, f: Field, path: Text, seen: set<Ref>, more: set<Ref>)
    requires MirrorsField(h, cfg, p, f, path, seen) && seen <= more
    ensures MirrorsField(h, cfg, p, f, path, more)
    decreases f
  {
    if !Hidden(cfg, f.key, ChildPath(path, f.key)) {
      MirrorsMore(h, cfg, p.value, f.value, ChildPath(path, f.key), seen, more);
    }
  }

  lemma {:induction false} WalkMirrors(h: Heap, cfg: Config, v: Value, path: Text, depth: nat, b: Budget)
    ensures var r := Walk(h, cfg, v, path, depth, b);
            r.Done? ==> b.seen <= r.budget.seen && Mirrors(h, cfg, v, r.value, path, r.budget.seen)
    decreases MAX_DEPTH + 1 - depth, 1, 0
  {
    var c := Charged(b, TextBytes(v), path);
    if WithinLimits(c, depth) && v.VRef? && v.ref !in c.seen {
      var d := c.(seen := c.seen + {v.ref});
      match h(v.ref)
      case DateObject(_) =>
      case ArrayObject(slots, _) =>
        SlotsMirror(h, cfg, slots, 0, path, depth, d);
        var r := WalkSlots(h, cfg, slots, 0, path, depth, d);
        if r.Done? {
          forall i | 0 <= i < |r.value|
            ensures MirrorsItem(h, cfg, slots[i], r.value[i], ChildPath(path, DecimalText(i)), r.budget.seen)
          {
            assert MirrorsItem(h, cfg, slots[i], r.value[i - 0], ChildPath(path, DecimalText(i)), r.budget.seen);
          }
        }
      case PlainObject(props) => PropsMirror(h, cfg, props, path, depth, d);
    }
  }

  /** The slots from `index` on, mirrored one by one. */
  ghost predicate ItemsMirror(
      h: Heap, cfg: Config, slots: seq<Slot>, index: nat, items: seq<Item>, path: Text, seen: set<Ref>) {
    && index + |items| == |slots|
    && forall k | index <= k < |slots| ::
        MirrorsItem(h, cfg, slots[k], items[k - index], ChildPath(path, DecimalText(k)), seen)
  }

  lemma ItemsMirrorCons(
      h: Heap, cfg: Config, slots: seq<Slot>, index: nat, item: Item, tail: seq<Item>, path: Text, before: set<Ref>,
          seen: set<Ref>)
    requires index < |slots| && before <= seen
    requires MirrorsItem(h, cfg, slots[index], item, ChildPath(path, DecimalText(index)), before)
    requires ItemsMirror(h, cfg, slots, index + 1, tail, path, seen)
    ensures ItemsMirror(h, cfg, slots, index, [item] + tail, path, seen)
  {
    MirrorsItemMore(h, cfg, slots[index], item, ChildPath(path, DecimalText(index)), before, seen);
    var items := [item] + tail;
    forall k | index <= k < |slots|
      ensures MirrorsItem(h, cfg, slots[k], items[k - index], ChildPath(path, DecimalText(k)), seen)
    {
      if k > index { assert items[k - index] == tail[k - (index + 1)]; }
    }
  }

  lemma {:induction false} SlotsMirror(
      h: Heap, cfg: Config, slots: seq<Slot>, index: nat, path: Text, depth: nat, b: Budget)
    requires depth <= MAX_DEPTH && index <= |slots|
    ensures var r := WalkSlots(h, cfg, slots, index, path, depth, b);
            r.Done? ==> b.seen <= r.budget.seen && ItemsMirror(h, cfg, slots, index, r.value, path, r.budget.seen)
    decreases MAX_DEPTH + 1 - depth, 0, |slots| - index
  {
    if index < |slots| {
      if slots[index].Data? {
        WalkMirrors(h, cfg, slots[index].value, ChildPath(path, DecimalText(index)), depth + 1, b);
      }
      var head := WalkSlot(h, cfg, slots[index], index, path, depth, b);
      var r := WalkSlots(h, cfg, slots, index, path, depth, b);
      if r.Done? {
        SlotsMirror(h, cfg, slots, index + 1, path, depth, head.budget);
        var tail := WalkSlots(h, cfg, slots, index + 1, path, depth, head.budget).value;
        ItemsMirrorCons(h, cfg, slots, index, head.value, tail, path, head.budget.seen, r.budget.seen);
      }
    }
  }

  /** Enumerable properties, mirrored one by one. */
  ghost predicate FieldsMirror(
      h: Heap, cfg: Config, props: seq<Property>, entries: seq<Field>, path: Text, seen: set<Ref>) {
    |entries| == |props| && forall i | 0 <= i < |entries| :: MirrorsField(h, cfg, props[i], entries[i], path, seen)
  }

  lemma FieldsMirrorCons(
      h: Heap, cfg: Config, p: Property, props: seq<Property>, f: Field, entries: seq<Field>, path: Text,
      before: set<Ref>, seen: set<Ref>)
    requires before <= seen && MirrorsField(h, cfg, p, f, path, before)
    requires FieldsMirror(h, cfg, props, entries, path, seen)
    ensures FieldsMirror(h, cfg, [p] + props, [f] + entries, path, seen)
  {
    MirrorsFieldMore(h, cfg, p, f, path, before, seen);
    forall i | 0 < i <= |entries| ensures MirrorsField(h, cfg, ([p] + props)[i], ([f] + entries)[i], path, seen) {
      assert ([p] + props)[i] == props[i - 1] && ([f] + entries)[i] == entries[i - 1];
    }
  }

  lemma {:induction false} PropsMirror(h: Heap, cfg: Config, props: seq<Property>, path: Text, depth: nat, b: Budget)
    requires depth <= MAX_DEPTH
    ensures var r := WalkProps(h, cfg, props, path, depth, b);
            r.Done? ==> b.seen <= r.budget.seen && FieldsMirror(h, cfg, Enumerable(props), r.value, path, r.budget.seen)
    decreases MAX_DEPTH + 1 - depth, 0, |props| + 1
  {
    if |props| > 0 {
      var r := WalkProps(h, cfg, props, path, depth, b);
      if !props[0].enumerable {
        PropsMirror(h, cfg, props[1..], path, depth, b);
        assert Enumerable(props) == Enumerable(props[1..]);
      } else if r.Done? {
        var head := WalkProp(h, cfg, props[0], path, depth, b);
        PropMirrors(h, cfg, props[0], path, depth, b);
        PropsMirror(h, cfg, props[1..], path, depth, head.budget);
        var tail := WalkProps(h, cfg, props[1..], path, depth, head.budget).value;
        FieldsMirrorCons(h, cfg, props[0], Enumerable(props[1..]), head.value, tail, path, head.budget.seen,
            r.budget.seen);
      }
    }
  }

  lemma {:induction false} PropMirrors(h: Heap, cfg: Config, p: Property, path: Text, depth: nat, b: Budget)
    requires depth <= MAX_DEPTH
    ensures var r := WalkProp(h, cfg, p, path, depth, b);
            r.Done? ==> b.seen <= r.budget.seen && MirrorsField(h, cfg, p, r.value, path, r.budget.seen)
    decreases MAX_DEPTH + 1 - depth, 0, 0
  {
    if p.key.Some? && !Hidden(cfg, p.key.value, ChildPath(path, p.key.value)) {
      WalkMirrors(h, cfg, p.value, ChildPath(path, p.key.value), depth + 1, b);
    }
  }

  /** An accepted snapshot shows the whole graph except hidden fields and repeated objects. */
  lemma OutputMirrorsInput(h: Heap, cfg: Config, v: Value)
    ensures var r := Sanitize(h, cfg, v);
            r.Done? ==> Mirrors(h, cfg, v, r.value, [], r.budget.seen) && Containers(r.value) == |r.budget.seen|
  {
    WalkMirrors(h, cfg, v, [], 0, Budget(0, 0, {}));
    OutputIsBoundedAndClean(h, cfg, v);
  }

  // --- The walk with its counters in place -------------------------------------------------------------

  /** The counters and the set of visited objects of one sanitising call. */
  class Sanitizer {
    const h: Heap
    const cfg: Config
    var nodes: nat
    var utf8Bytes: nat
    var seen: set<Ref>

    function State(): Budget
      reads this
    {
      Budget(nodes, utf8Bytes, seen)
    }

    constructor (h: Heap, cfg: Config)
      ensures this.h == h && this.cfg == cfg && State() == Budget(0, 0, {})
    {
      this.h, this.cfg := h, cfg;
      nodes, utf8Bytes, seen := 0, 0, {};
    }

    method Consume(textBytes: nat, path: Text, depth: nat) returns (ok: bool)
      modifies this
      ensures State() == Charged(old(State()), textBytes, path) && ok == WithinLimits(State(), depth)
    {
      nodes := nodes + 1;
      utf8Bytes := utf8Bytes + textBytes;
      utf8Bytes := utf8Bytes + |Utf8(path)|;
      ok := !(depth > MAX_DEPTH || nodes > MAX_NODES || utf8Bytes > MAX_UTF8_BYTES);
    }

    method WalkValue(v: Value, path: Text, depth: nat) returns (r: Outcome<Out>)
      modifies this
      ensures r == Walk(h, cfg, v, path, depth, old(State()))
      ensures r.Done? ==> r.budget == State()
      decreases MAX_DEPTH + 1 - depth, 1
    {
      var ok := Consume(TextBytes(v), path, depth);
      if !ok { return Failed(LimitError); }
      if !v.VRef? { return Done(Copied(v), State()); }
      match h(v.ref)
      case DateObject(iso) =>
        if iso.Some? { return Done(Iso(iso.value), State()); } else { return Failed(DateError); }
      case ArrayObject(slots, extraEnumerable) =>
        if v.ref in seen { return Done(Mark, State()); }
        seen := seen + {v.ref};
        var items := WalkArray(slots, path, depth);
        if items.Failed? { return Failed(items.error); }
        if extraEnumerable { return Failed(UnsafeError); }
        return Done(List(items.value), State());
      case PlainObject(props) =>
        if v.ref in seen { return Done(Mark, State()); }
        seen := seen + {v.ref};
        var entries := WalkObject(props, path, depth);
        if entries.Failed? { return Failed(entries.error); }
        return Done(Fields(entries.value), State());
    }

    /** The loop over an array's slots. */
    method WalkArray(slots: seq<Slot>, path: Text, depth: nat) returns (r: Outcome<seq<Item>>)
      requires depth <= MAX_DEPTH
      modifies this
      ensures r == WalkSlots(h, cfg, slots, 0, path, depth, old(State()))
      ensures r.Done? ==> r.budget == State()
      decreases MAX_DEPTH + 1 - depth, 0
    {
      var output: seq<Item> := [];
      ghost var whole := WalkSlots(h, cfg, slots, 0, path, depth, State());
      PrependNone(whole);
      for index := 0 to |slots|
        invariant whole == Prepended(output, WalkSlots(h, cfg, slots, index, path, depth, State()))
      {
        match slots[index]
        case Hole => PrependOne(output, Missing, WalkSlots(h, cfg, slots, index + 1, path, depth, State()));
          output := output + [Missing];
        case Accessor => return Failed(UnsafeError);
        case Data(value) =>
          var child := WalkValue(value, ChildPath(path, DecimalText(index)), depth + 1);
          if child.Failed? { return Failed(child.error); }
          PrependOne(output, Filled(child.value), WalkSlots(h, cfg, slots, index + 1, path, depth, State()));
          output := output + [Filled(child.value)];
      }
      PrependLast(output, State());
      return Done(output, State());
    }

    /** The loop over an object's own properties. */
    method WalkObject(props: seq<Property>, path: Text, depth: nat) returns (r: Outcome<seq<Field>>)
      requires depth <= MAX_DEPTH
      modifies this
      ensures r == WalkProps(h, cfg, props, path, depth, old(State()))
      ensures r.Done? ==> r.budget == State()
      decreases MAX_DEPTH + 1 - depth, 0
    {
      var output: seq<Field> := [];
      ghost var whole := WalkProps(h, cfg, props, path, depth, State());
      assert props[0..] == props;
      PrependNone(whole);
      for i := 0 to |props|
        invariant whole == Prepended(output, WalkProps(h, cfg, props[i..], path, depth, State()))
      {
        var p := props[i];
        assert props[i..][0] == p && props[i..][1..] == props[i + 1..];
        if p.enumerable {
          if p.key.None? || p.key.value in UNSAFE_KEYS || !p.data { return Failed(UnsafeError); }
          var childPath := ChildPath(path, p.key.value);
          if Hidden(cfg, p.key.value, childPath) {
            var ok := Consume(0, childPath, depth + 1);
            if !ok { return Failed(LimitError); }
            PrependOne(output, Field(p.key.value, Mark), WalkProps(h, cfg, props[i + 1..], path, depth, State()));
            output := output + [Field(p.key.value, Mark)];
          } else {
            var child := WalkValue(p.value, childPath, depth + 1);
            if child.Failed? { return Failed(child.error); }
            PrependOne(output, Field(p.key.value, child.value),
                WalkProps(h, cfg, props[i + 1..], path, depth, State()));
            output := output + [Field(p.key.value, child.value)];
          }
        }
      }
      PrependLast(output, State());
      return Done(output, State());
    }
  }

  /** Results collected so far, in front of those of the rest. */
  function Prepended<T>(done: seq<T>, rest: Outcome<seq<T>>): Outcome<seq<T>> {
    if rest.Failed? then rest else Done(done + rest.value, rest.budget)
  }

  lemma PrependNone<T>(rest: Outcome<seq<T>>)
    ensures Prepended([], rest) == rest
  {
    if rest.Done? { assert [] + rest.value == rest.value; }
  }

  lemma PrependLast<T>(done: seq<T>, b: Budget)
    ensures Prepended(done, Done([], b)) == Done(done, b)
  {
    assert done + [] == done;
  }

  lemma PrependOne<T>(done: seq<T>, x: T, rest: Outcome<seq<T>>)
    ensures Prepended(done + [x], rest) == Prepended(done, Prepended([x], rest))
  {
    if rest.Done? { assert done + [x] + rest.value == done + ([x] + rest.value); }
  }
}
