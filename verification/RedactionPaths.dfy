/**
 Which fields of a snapshot are hidden, read off the output: a field is reached by positions, its
 names are its keys and decimal numerals, and its path is those names joined by dots.
 */
module RedactionPaths {
  import opened Wrappers
  import opened Unicode
  import opened Redaction

  // --- Numerals and paths ----------------------------------------------------------------------

  predicate IsDigit(c: CodeUnit) {
    0x30 <= c <= 0x39
  }

  /** The number a string of digits stands for. */
  function Number(t: Text): nat
    requires forall i | 0 <= i < |t| :: IsDigit(t[i])
  {
    if |t| == 0 then 0
    else
      assert IsDigit(t[|t| - 1]);
      10 * Number(t[..|t| - 1]) + (t[|t| - 1] as int - 0x30)
  }

  /** Decimal digits for `n` without a leading zero. */
  predicate IsNumeral(t: Text, n: nat) {
    && |t| > 0 && (forall i | 0 <= i < |t| :: IsDigit(t[i]))
    && (|t| > 1 ==> t[0] != 0x30) && Number(t) == n
  }

  lemma {:induction false} DecimalTextIsNumeral(n: nat)
    ensures IsNumeral(DecimalText(n), n)
  {
    if n >= 10 {
      DecimalTextIsNumeral(n / 10);
      var t := DecimalText(n);
      assert t[..|t| - 1] == DecimalText(n / 10);
      NumberIsPositive(DecimalText(n / 10));
    }
  }

  lemma {:induction false} NumberIsPositive(t: Text)
    requires |t| > 0 && forall i | 0 <= i < |t| :: IsDigit(t[i])
    ensures Number(t) == 0 ==> t[0] == 0x30
  {
    if |t| > 1 { NumberIsPositive(t[..|t| - 1]); }
  }

  /** There is one numeral for each number. */
  lemma {:induction false} NumeralsAreUnique(t: Text, n: nat)
    requires IsNumeral(t, n)
    ensures t == DecimalText(n)
    decreases |t|
  {
    var front := t[..|t| - 1];
    if |t| == 1 {
      assert Number(front) == 0;
    } else {
      NumberIsPositive(front);
      assert Number(front) > 0 && n / 10 == Number(front);
      NumeralsAreUnique(front, n / 10);
    }
  }

  const DOT: Text := [0x2E]

  function Joined(names: seq<Text>): Text {
    if |names| == 0 then [] else if |names| == 1 then names[0] else names[0] + DOT + Joined(names[1..])
  }

  /** Names joined by dots; empty names in front leave no dot behind. */
  function PathOf(names: seq<Text>): Text {
    if |names| > 0 && names[0] == [] then PathOf(names[1..]) else Joined(names)
  }

  lemma {:induction false} JoinedMore(names: seq<Text>, name: Text)
    requires |names| > 0
    ensures Joined(names + [name]) == Joined(names) + DOT + name
  {
    assert (names + [name])[1..] == names[1..] + [name];
    if |names| > 1 { JoinedMore(names[1..], name); }
  }

  lemma {:induction false} ChildPathIsPath(names: seq<Text>, name: Text)
    ensures ChildPath(PathOf(names), name) == PathOf(names + [name])
  {
    var more := names + [name];
    if |names| == 0 {
      assert PathOf(more) == name;
    } else if names[0] == [] {
      assert more[1..] == names[1..] + [name];
      ChildPathIsPath(names[1..], name);
    } else {
      JoinedMore(names, name);
    }
  }

  // --- Places in the output and in the graph ------------------------------------------------------

  /** The value at the same place of the graph; only enumerable properties have a position. */
  function Original(h: Heap, v: Value, positions: seq<nat>): Option<Value>
    decreases |positions|
  {
    if |positions| == 0 then Some(v)
    else if !v.VRef? then None
    else
      match h(v.ref)
      case DateObject(_) => None
      case ArrayObject(slots, _) =>
        if positions[0] < |slots| && slots[positions[0]].Data?
        then Original(h, slots[positions[0]].value, positions[1..]) else None
      case PlainObject(props) =>
        if positions[0] < |Enumerable(props)|
        then Original(h, Enumerable(props)[positions[0]].value, positions[1..]) else None
  }

  /**
   Going down from `out` by these positions one passes slots and fields with these names, and comes to
   a field with this key that holds `place`.
   */
  predicate LeadsTo(out: Out, positions: seq<nat>, names: seq<Text>, key: Text, place: Out)
    decreases |positions|
  {
    && |positions| == |names| + 1
    && match out
       case List(items) =>
         && |names| > 0 && positions[0] < |items| && items[positions[0]].Filled? && IsNumeral(names[0], positions[0])
         && LeadsTo(items[positions[0]].value, positions[1..], names[1..], key, place)
       case Fields(entries) =>
         && positions[0] < |entries|
         && if |names| == 0 then entries[positions[0]] == Field(key, place)
            else
              && names[0] == entries[positions[0]].key
              && LeadsTo(entries[positions[0]].value, positions[1..], names[1..], key, place)
       case _ => false
  }

  // --- Markers in a name -----------------------------------------------------------------------------

  ghost predicate Contains(t: Text, part: Text) {
    exists a, b :: t == a + part + b
  }

  lemma {:induction false} IncludesIff(t: Text, part: Text)
    ensures Includes(t, part) <==> Contains(t, part)
  {
    if part <= t { assert t == [] + part + t[|part|..]; }
    if |t| > 0 {
      IncludesIff(t[1..], part);
      if a, b :| t[1..] == a + part + b { assert t == ([t[0]] + a) + part + b; }
      if a, b :| t == a + part + b {
        if a == [] { assert t[..|part|] == part; } else { assert t[1..] == a[1..] + part + b; }
      }
    }
  }

  predicate HasMarker(t: Text) {
    exists marker <- SENSITIVE_MARKERS :: Includes(t, marker)
  }

  lemma MarkerAtEnd(t: Text, a: string, marker: string)
    requires t == Ascii(a + marker) && Ascii(marker) in SENSITIVE_MARKERS
    ensures HasMarker(t)
  {
    assert t == Ascii(a) + Ascii(marker) + [];
    IncludesMiddle(Ascii(a), Ascii(marker), []);
  }

  /** The listed field names add nothing: each contains a marker. */
  lemma DefaultsHaveMarkers(t: Text)
    requires t in DEFAULT_SENSITIVE_FIELDS
    ensures HasMarker(t)
  {
    if t == Ascii("clientsecret") {
      MarkerAtEnd(t, "client", "secret");
    } else if t == Ascii("accesstoken") {
      MarkerAtEnd(t, "access", "token");
    } else if t == Ascii("refreshtoken") {
      MarkerAtEnd(t, "refresh", "token");
    } else if t == Ascii("idtoken") {
      MarkerAtEnd(t, "id", "token");
    } else {
      assert t in SENSITIVE_MARKERS;
      assert [] + t + [] == t;
      IncludesMiddle([], t, []);
    }
  }

  /** Only lower-case letters and digits, in their order. */
  function Normalized(t: Text): Text {
    if |t| == 0 then []
    else
      var kept := 'a' as int <= t[0] <= 'z' as int || '0' as int <= t[0] <= '9' as int;
      (if kept then [t[0]] else []) + Normalized(t[1..])
  }

  lemma {:induction false} NormalizedIsKept(t: Text)
    ensures KeepAlphanumeric(t) == Normalized(t)
  {
    if |t| > 0 { NormalizedIsKept(t[1..]); }
  }

  /** The name of a field, in lower case and without other characters than letters and digits, contains a marker. */
  ghost predicate NamesSecret(cfg: Config, key: Text) {
    exists marker <- SENSITIVE_MARKERS :: Contains(Normalized(cfg.lower(key)), marker)
  }

  lemma SensitiveIff(cfg: Config, key: Text)
    ensures IsSensitiveField(cfg, key) <==> NamesSecret(cfg, key)
  {
    var name := KeepAlphanumeric(cfg.lower(key));
    NormalizedIsKept(cfg.lower(key));
    forall marker | marker in SENSITIVE_MARKERS ensures Includes(name, marker) <==> Contains(name, marker) {
      IncludesIff(name, marker);
    }
    if name in DEFAULT_SENSITIVE_FIELDS { DefaultsHaveMarkers(name); }
  }

  // --- What a field shows --------------------------------------------------------------------------------

  /** The output stands for this value itself, or the value is an object that was visited. */
  ghost predicate Stands(h: Heap, x: Value, place: Out, seen: set<Ref>) {
    match place
    case Copied(w) => w == x && !x.VRef?
    case Iso(t) => x.VRef? && h(x.ref) == DateObject(Some(t))
    case Mark => x.VRef? && !h(x.ref).DateObject? && x.ref in seen
    case List(items) =>
      x.VRef? && h(x.ref).ArrayObject? && |items| == |h(x.ref).slots| && !h(x.ref).extraEnumerable
    case Fields(entries) => x.VRef? && h(x.ref).PlainObject? && |entries| == |Enumerable(h(x.ref).props)|
  }

  lemma MirrorsStands(h: Heap, cfg: Config, x: Value, place: Out, path: Text, seen: set<Ref>)
    requires Mirrors(h, cfg, x, place, path, seen)
    ensures Stands(h, x, place, seen)
  {
  }

  lemma {:induction false} FieldShows(
      h: Heap, cfg: Config, v: Value, out: Out, above: seq<Text>, positions: seq<nat>, names: seq<Text>, key: Text,
      place: Out, seen: set<Ref>)
    requires Mirrors(h, cfg, v, out, PathOf(above), seen) && LeadsTo(out, positions, names, key, place)
    ensures Original(h, v, positions).Some? && key !in UNSAFE_KEYS
    ensures if Hidden(cfg, key, PathOf(above + names + [key])) then place == Mark
            else Stands(h, Original(h, v, positions).value, place, seen)
    decreases |positions|
  {
    var i := positions[0];
    if |names| == 0 {
      ChildPathIsPath(above, key);
      assert above + names + [key] == above + [key];
      assert MirrorsField(h, cfg, Enumerable(h(v.ref).props)[i], out.entries[i], PathOf(above), seen);
      var p := Enumerable(h(v.ref).props)[i];
      assert Original(h, v, positions) == Original(h, p.value, positions[1..]) == Some(p.value);
      if !Hidden(cfg, key, ChildPath(PathOf(above), key)) {
        MirrorsStands(h, cfg, p.value, place, ChildPath(PathOf(above), key), seen);
      }
    } else {
      var below := above + [names[0]];
      ChildPathIsPath(above, names[0]);
      assert below + names[1..] + [key] == above + names + [key];
      if out.List? {
        NumeralsAreUnique(names[0], i);
        var slot := h(v.ref).slots[i];
        assert MirrorsItem(h, cfg, slot, out.items[i], ChildPath(PathOf(above), DecimalText(i)), seen);
        FieldShows(h, cfg, slot.value, out.items[i].value, below, positions[1..], names[1..], key, place, seen);
      } else {
        var p := Enumerable(h(v.ref).props)[i];
        assert MirrorsField(h, cfg, p, out.entries[i], PathOf(above), seen);
        FieldShows(h, cfg, p.value, out.entries[i].value, below, positions[1..], names[1..], key, place, seen);
      }
    }
  }

  /**
   Exactly which fields of an accepted snapshot are hidden: those whose name contains a marker, and
   those configured by name or by path. Every other field stands for the value at its place in the graph,
   and no field has a name that reaches a prototype.
   */
  lemma FieldsAreHiddenIff(
      h: Heap, cfg: Config, v: Value, positions: seq<nat>, names: seq<Text>, key: Text, place: Out)
    requires var r := Sanitize(h, cfg, v); r.Done? && LeadsTo(r.value, positions, names, key, place)
    ensures Original(h, v, positions).Some? && key !in {Ascii("__proto__"), Ascii("prototype"), Ascii("constructor")}
    ensures var secret := NamesSecret(cfg, key) || cfg.lower(key) in cfg.configured
              || cfg.lower(PathOf(names + [key])) in cfg.configured;
            if secret then place == Mark
            else Stands(h, Original(h, v, positions).value, place, Sanitize(h, cfg, v).budget.seen)
  {
    var r := Sanitize(h, cfg, v);
    OutputMirrorsInput(h, cfg, v);
    assert PathOf([]) == [] && [] + names + [key] == names + [key];
    FieldShows(h, cfg, v, r.value, [], positions, names, key, place, r.budget.seen);
    SensitiveIff(cfg, key);
  }
}
