/**
 The canonical byte encoding of cache key material: tagged, length-prefixed, records in key order.

 A finite number is named by its printed form, which is distinct for distinct numbers once -0 is
 printed as such. The bytes below are what the hash is fed.
 */
module CacheEncoding {
  import opened Wrappers
  import opened Unicode

  datatype Tree =
    | Undefined
    | Null
    | Bool(value: bool)
    | Str(text: Text)
    | Num(printed: Text)
    | Array(items: seq<Tree>)
    | Record(fields: map<Text, Tree>)

  predicate WellFormedTree(x: Tree) {
    match x
    case Str(s) => WellFormed(s)
    case Num(s) => WellFormed(s)
    case Array(items) => forall i | 0 <= i < |items| :: WellFormedTree(items[i])
    case Record(fields) => forall k <- fields :: WellFormed(k) && WellFormedTree(fields[k])
    case _ => true
  }

  // --- Key order ------------------------------------------------------------------------------

  predicate IsLeast(m: Text, s: set<Text>) {
    m in s && forall t <- s :: t == m || Less(m, t)
  }

  lemma {:induction false} LeastExists(s: set<Text>)
    requires s != {}
    ensures exists m :: IsLeast(m, s)
    decreases |s|
  {
    var t :| t in s;
    if s == {t} {
      assert IsLeast(t, s);
    } else {
      LeastExists(s - {t});
      var m :| IsLeast(m, s - {t});
      LessIsTotal(m, t);
      if Less(t, m) {
        forall u | u in s - {t} ensures Less(t, u) {
          if u != m { LessIsTransitive(t, m, u); }
        }
        assert IsLeast(t, s);
      } else {
        assert IsLeast(m, s);
      }
    }
  }

  lemma LeastIsUnique(s: set<Text>)
    ensures forall m, n | IsLeast(m, s) && IsLeast(n, s) :: m == n
  {
    forall m, n | IsLeast(m, s) && IsLeast(n, s) ensures m == n { LessIsTotal(m, n); }
  }

  function SortedKeys(s: set<Text>): (keys: seq<Text>)
    ensures forall k :: k in keys <==> k in s
    decreases |s|
  {
    if s == {} then []
    else
      LeastExists(s);
      LeastIsUnique(s);
      var m :| IsLeast(m, s);
      [m] + SortedKeys(s - {m})
  }

  lemma {:induction false} SortedKeysCount(s: set<Text>)
    ensures |SortedKeys(s)| == |s|
    decreases |s|
  {
    if s != {} {
      LeastExists(s);
      LeastIsUnique(s);
      var m :| IsLeast(m, s);
      SortedKeysCount(s - {m});
    }
  }

  // --- Canonical form ----------------------------------------------------------------------------

  /** What of a value reaches the hash: text as UTF-8, records as lists in key order. */
  datatype Canon =
    | CUndefined
    | CNull
    | CBool(value: bool)
    | CText(bytes: seq<Byte>)
    | CNumber(bytes: seq<Byte>)
    | CArray(items: seq<Canon>)
    | CRecord(entries: seq<CEntry>)
  datatype CEntry = CEntry(key: seq<Byte>, value: Canon)

  function Canonical(x: Tree): Canon
    decreases x, 0
  {
    match x
    case Undefined => CUndefined
    case Null => CNull
    case Bool(b) => CBool(b)
    case Str(s) => CText(Utf8(s))
    case Num(s) => CNumber(Utf8(s))
    case Array(items) => CArray(seq(|items|, i requires 0 <= i < |items| => Canonical(items[i])))
    case Record(fields) =>
      var keys := SortedKeys(fields.Keys);
      CRecord(seq(|keys|, i requires 0 <= i < |keys| => CEntry(Utf8(keys[i]), Canonical(fields[keys[i]]))))
  }

  // --- Bytes ----------------------------------------------------------------------------------------

  function Decimal(n: nat): seq<Byte> {
    if n < 10 then [48 + n] else Decimal(n / 10) + [48 + n % 10]
  }

  /** A tag, a count and the delimiter that ends the count. */
  function Opening(tag: Byte, n: nat, delimiter: Byte): seq<Byte> {
    [tag] + Decimal(n) + [delimiter]
  }

  /** A length-prefixed text. */
  function Marked(marker: Byte, b: seq<Byte>): seq<Byte> {
    Opening(marker, |b|, COLON) + b
  }

  const COLON: Byte := 58
  const SEMICOLON: Byte := 59
  const OPEN_BRACKET: Byte := 91
  const CLOSE_BRACKET: Byte := 93
  const OPEN_BRACE: Byte := 123
  const CLOSE_BRACE: Byte := 125
  const TAG_ARRAY: Byte := 97
  const TAG_BOOL: Byte := 98
  const TAG_NUMBER: Byte := 100
  const TAG_KEY: Byte := 107
  const TAG_NULL: Byte := 110
  const TAG_RECORD: Byte := 111
  const TAG_TEXT: Byte := 115
  const TAG_UNDEFINED: Byte := 117

  function Emit(c: Canon): seq<Byte>
    decreases c, 0
  {
    match c
    case CUndefined => [TAG_UNDEFINED, SEMICOLON]
    case CNull => [TAG_NULL, SEMICOLON]
    case CBool(b) => [TAG_BOOL, if b then 49 else 48, SEMICOLON]
    case CText(b) => Marked(TAG_TEXT, b)
    case CNumber(b) => Marked(TAG_NUMBER, b)
    case CArray(items) => Opening(TAG_ARRAY, |items|, OPEN_BRACKET) + EmitItems(items) + [CLOSE_BRACKET]
    case CRecord(entries) => Opening(TAG_RECORD, |entries|, OPEN_BRACE) + EmitEntries(entries) + [CLOSE_BRACE]
  }

  function EmitItems(items: seq<Canon>): seq<Byte> {
    if |items| == 0 then [] else Emit(items[0]) + EmitItems(items[1..])
  }

  function EmitEntries(entries: seq<CEntry>): seq<Byte> {
    if |entries| == 0 then []
    else Marked(TAG_KEY, entries[0].key) + Emit(entries[0].value) + EmitEntries(entries[1..])
  }

  function Encode(x: Tree): seq<Byte> {
    Emit(Canonical(x))
  }

  // --- A parser for these bytes ------------------------------------------------------------------------

  function ParseDigits(acc: nat, b: seq<Byte>): (r: (nat, seq<Byte>))
    ensures |r.1| <= |b|
    decreases |b|
  {
    if |b| > 0 && 48 <= b[0] <= 57 then ParseDigits(acc * 10 + (b[0] as int - 48), b[1..]) else (acc, b)
  }

  function ParseMarked(b: seq<Byte>): (r: Option<(seq<Byte>, seq<Byte>)>)
    ensures r.Some? ==> |r.value.1| < |b|
  {
    var (n, rest) := ParseDigits(0, b);
    if |rest| > n && rest[0] == COLON then Some((rest[1..1 + n], rest[1 + n..])) else None
  }

  function Parse(b: seq<Byte>): (r: Option<(Canon, seq<Byte>)>)
    ensures r.Some? ==> |r.value.1| < |b|
    decreases |b|, 0
  {
    if |b| < 2 then None
    else if b[0] == TAG_UNDEFINED then Some((CUndefined, b[2..]))
    else if b[0] == TAG_NULL then Some((CNull, b[2..]))
    else if b[0] == TAG_BOOL then if |b| < 3 then None else Some((CBool(b[1] == 49), b[3..]))
    else if b[0] == TAG_TEXT then
      var m := ParseMarked(b[1..]);
      if m.Some? then Some((CText(m.value.0), m.value.1)) else None
    else if b[0] == TAG_NUMBER then
      var m := ParseMarked(b[1..]);
      if m.Some? then Some((CNumber(m.value.0), m.value.1)) else None
    else if b[0] == TAG_ARRAY then
      var (n, rest) := ParseDigits(0, b[1..]);
      if |rest| == 0 then None
      else
        var m := ParseItems(n, rest[1..]);
        if m.Some? && |m.value.1| > 0 then Some((CArray(m.value.0), m.value.1[1..])) else None
    else if b[0] == TAG_RECORD then
      var (n, rest) := ParseDigits(0, b[1..]);
      if |rest| == 0 then None
      else
        var m := ParseEntries(n, rest[1..]);
        if m.Some? && |m.value.1| > 0 then Some((CRecord(m.value.0), m.value.1[1..])) else None
    else None
  }

  function ParseItems(n: nat, b: seq<Byte>): (r: Option<(seq<Canon>, seq<Byte>)>)
    ensures r.Some? ==> |r.value.1| <= |b|
    decreases |b|, n + 1
  {
    if n == 0 then Some(([], b))
    else
      var head := Parse(b);
      if head.None? then None
      else
        var tail := ParseItems(n - 1, head.value.1);
        if tail.None? then None else Some(([head.value.0] + tail.value.0, tail.value.1))
  }

  function ParseEntries(n: nat, b: seq<Byte>): (r: Option<(seq<CEntry>, seq<Byte>)>)
    ensures r.Some? ==> |r.value.1| <= |b|
    decreases |b|, n + 1
  {
    if n == 0 then Some(([], b))
    else
      var key := if |b| > 0 then ParseMarked(b[1..]) else None;
      if key.None? then None
      else
        var head := Parse(key.value.1);
        if head.None? then None
        else
          var tail := ParseEntries(n - 1, head.value.1);
          if tail.None? then None else Some(([CEntry(key.value.0, head.value.0)] + tail.value.0, tail.value.1))
  }

  lemma {:induction false} DigitsOfDecimal(n: nat, rest: seq<Byte>)
    ensures ParseDigits(0, Decimal(n) + rest) == ParseDigits(n, rest)
  {
    if n < 10 {
      assert (Decimal(n) + rest)[1..] == rest;
    } else {
      var d: seq<Byte> := [48 + n % 10];
      assert Decimal(n) + rest == Decimal(n / 10) + (d + rest);
      DigitsOfDecimal(n / 10, d + rest);
      assert (d + rest)[1..] == rest;
    }
  }

  /** The digits of a count end at the delimiter that follows them. */
  lemma OpeningRoundTrip(tag: Byte, n: nat, delimiter: Byte, rest: seq<Byte>)
    requires delimiter > 57
    ensures var b := Opening(tag, n, delimiter) + rest;
            && |b| > 1 + |rest| && b[0] == tag
            && ParseDigits(0, b[1..]).0 == n && |ParseDigits(0, b[1..]).1| == 1 + |rest|
            && ParseDigits(0, b[1..]).1[0] == delimiter && ParseDigits(0, b[1..]).1[1..] == rest
  {
    var b := Opening(tag, n, delimiter) + rest;
    assert b[1..] == Decimal(n) + ([delimiter] + rest);
    DigitsOfDecimal(n, [delimiter] + rest);
  }

  lemma MarkedRoundTrip(marker: Byte, b: seq<Byte>, rest: seq<Byte>)
    ensures |Marked(marker, b)| > 1 && (Marked(marker, b) + rest)[0] == marker
    ensures ParseMarked((Marked(marker, b) + rest)[1..]) == Some((b, rest))
  {
    OpeningRoundTrip(marker, |b|, COLON, b + rest);
    assert Marked(marker, b) + rest == Opening(marker, |b|, COLON) + (b + rest);
    var tail := ParseDigits(0, (Marked(marker, b) + rest)[1..]).1;
    assert tail[1..1 + |b|] == tail[1..][..|b|] && tail[1 + |b|..] == tail[1..][|b|..];
  }

  /** Parsing what was emitted gives it back and stops exactly at its end, whatever follows. */
  lemma {:induction false} ParseInvertsEmit(c: Canon, rest: seq<Byte>)
    ensures Parse(Emit(c) + rest) == Some((c, rest))
    decreases c, 1, 0
  {
    match c
    case CUndefined =>
    case CNull =>
    case CBool(_) =>
    case CText(b) => MarkedRoundTrip(TAG_TEXT, b, rest);
    case CNumber(b) => MarkedRoundTrip(TAG_NUMBER, b, rest);
    case CArray(items) =>
      ParseInvertsItems(c, items, [CLOSE_BRACKET] + rest);
      ParseOfArray(items, rest);
    case CRecord(entries) =>
      ParseInvertsEntries(c, entries, [CLOSE_BRACE] + rest);
      ParseOfRecord(entries, rest);
  }

  lemma ParseOfArray(items: seq<Canon>, rest: seq<Byte>)
    requires ParseItems(|items|, EmitItems(items) + ([CLOSE_BRACKET] + rest)) == Some((items, [CLOSE_BRACKET] + rest))
    ensures Parse(Emit(CArray(items)) + rest) == Some((CArray(items), rest))
  {
    var opening, body := Opening(TAG_ARRAY, |items|, OPEN_BRACKET), EmitItems(items);
    Regroup(opening, body, [CLOSE_BRACKET], rest);
    OpeningRoundTrip(TAG_ARRAY, |items|, OPEN_BRACKET, body + ([CLOSE_BRACKET] + rest));
    assert ([CLOSE_BRACKET] + rest)[1..] == rest;
  }

  lemma ParseOfRecord(entries: seq<CEntry>, rest: seq<Byte>)
    requires ParseEntries(|entries|, EmitEntries(entries) + ([CLOSE_BRACE] + rest))
             == Some((entries, [CLOSE_BRACE] + rest))
    ensures Parse(Emit(CRecord(entries)) + rest) == Some((CRecord(entries), rest))
  {
    var opening, body := Opening(TAG_RECORD, |entries|, OPEN_BRACE), EmitEntries(entries);
    Regroup(opening, body, [CLOSE_BRACE], rest);
    OpeningRoundTrip(TAG_RECORD, |entries|, OPEN_BRACE, body + ([CLOSE_BRACE] + rest));
    assert ([CLOSE_BRACE] + rest)[1..] == rest;
  }

  lemma Regroup(a: seq<Byte>, b: seq<Byte>, c: seq<Byte>, d: seq<Byte>)
    ensures a + b + c + d == a + (b + (c + d))
    ensures a + b + c + d == a + (b + c + d)
  {
  }

  lemma RegroupThree(a: seq<Byte>, b: seq<Byte>, c: seq<Byte>)
    ensures a + b + c == a + (b + c)
  {
  }

  lemma {:induction false} ParseInvertsItems(c: Canon, items: seq<Canon>, rest: seq<Byte>)
    requires c.CArray? && forall x <- items :: x in c.items
    ensures ParseItems(|items|, EmitItems(items) + rest) == Some((items, rest))
    decreases c, 0, |items|
  {
    if |items| > 0 {
      var tail := EmitItems(items[1..]) + rest;
      RegroupThree(Emit(items[0]), EmitItems(items[1..]), rest);
      assert items[0] in c.items;
      ParseInvertsEmit(items[0], tail);
      ParseInvertsItems(c, items[1..], rest);
      assert items == [items[0]] + items[1..];
    } else {
      assert EmitItems(items) + rest == rest;
    }
  }

  lemma {:induction false} ParseInvertsEntries(c: Canon, entries: seq<CEntry>, rest: seq<Byte>)
    requires c.CRecord? && forall e <- entries :: e in c.entries
    ensures ParseEntries(|entries|, EmitEntries(entries) + rest) == Some((entries, rest))
    decreases c, 0, |entries|
  {
    if |entries| > 0 {
      var e := entries[0];
      var tail := EmitEntries(entries[1..]) + rest;
      Regroup(Marked(TAG_KEY, e.key), Emit(e.value), EmitEntries(entries[1..]), rest);
      MarkedRoundTrip(TAG_KEY, e.key, Emit(e.value) + tail);
      assert e in c.entries;
      ParseInvertsEmit(e.value, tail);
      ParseInvertsEntries(c, entries[1..], rest);
      assert entries == [e] + entries[1..];
    } else {
      assert EmitEntries(entries) + rest == rest;
    }
  }

  // --- Reading a value back ------------------------------------------------------------------------------

  function Revive(c: Canon): Tree
    decreases c, 0
  {
    match c
    case CUndefined => Undefined
    case CNull => Null
    case CBool(b) => Bool(b)
    case CText(b) => Str(DecodeUtf8(b))
    case CNumber(b) => Num(DecodeUtf8(b))
    case CArray(items) => Array(seq(|items|, i requires 0 <= i < |items| => Revive(items[i])))
    case CRecord(entries) => Record(Gather(entries))
  }

  function Gather(entries: seq<CEntry>): map<Text, Tree> {
    if |entries| == 0 then map[]
    else Gather(entries[1..])[DecodeUtf8(entries[0].key) := Revive(entries[0].value)]
  }

  function Decode(b: seq<Byte>): Option<(Tree, seq<Byte>)> {
    var r := Parse(b);
    if r.Some? then Some((Revive(r.value.0), r.value.1)) else None
  }

  lemma TextRoundTrip(s: Text)
    requires WellFormed(s)
    ensures DecodeUtf8(Utf8(s)) == s
  {
    DecodeUtf8Repairs(s);
    RepairIsIdentityIff(s);
  }

  lemma {:induction false} ReviveInvertsCanonical(x: Tree)
    requires WellFormedTree(x)
    ensures Revive(Canonical(x)) == x
    decreases x, 1, 0
  {
    match x
    case Undefined =>
    case Null =>
    case Bool(_) =>
    case Str(s) => TextRoundTrip(s);
    case Num(s) => TextRoundTrip(s);
    case Array(items) =>
      forall i | 0 <= i < |items| ensures Revive(Canonical(items[i])) == items[i] { ReviveInvertsCanonical(items[i]); }
      ReviveOfArray(items);
    case Record(fields) =>
      CanonicalOfRecord(fields);
      ReviveRecord(x, SortedKeys(fields.Keys), Canonical(x).entries);
  }

  lemma CanonicalOfRecord(fields: map<Text, Tree>)
    ensures var c, keys := Canonical(Record(fields)), SortedKeys(fields.Keys);
            c.CRecord? && EntriesFor(Record(fields), keys, c.entries)
  {
  }

  /** Entries of some of a record's fields, in the order of the given keys. */
  predicate EntriesFor(x: Tree, keys: seq<Text>, entries: seq<CEntry>) {
    && x.Record? && |entries| == |keys|
    && forall i | 0 <= i < |keys| ::
         keys[i] in x.fields && entries[i] == CEntry(Utf8(keys[i]), Canonical(x.fields[keys[i]]))
  }

  lemma {:induction false} ReviveRecord(x: Tree, keys: seq<Text>, entries: seq<CEntry>)
    requires WellFormedTree(x) && EntriesFor(x, keys, entries)
    requires forall k :: k in keys <==> k in x.fields
    ensures Revive(CRecord(entries)) == x
    decreases x, 0, |keys| + 1
  {
    GatherInverts(x, keys, entries);
    RestrictedToAllKeys(x.fields, keys);
  }

  lemma ReviveOfArray(items: seq<Tree>)
    requires forall i | 0 <= i < |items| :: Revive(Canonical(items[i])) == items[i]
    ensures Revive(Canonical(Array(items))) == Array(items)
  {
  }

  lemma RestrictedToAllKeys(fields: map<Text, Tree>, keys: seq<Text>)
    requires forall k :: k in keys <==> k in fields
    ensures (map k | k in keys && k in fields :: fields[k]) == fields
  {
  }

  lemma {:induction false} GatherInverts(x: Tree, keys: seq<Text>, entries: seq<CEntry>)
    requires WellFormedTree(x) && EntriesFor(x, keys, entries)
    ensures Gather(entries) == map k | k in keys && k in x.fields :: x.fields[k]
    decreases x, 0, |keys|
  {
    if |keys| > 0 {
      TextRoundTrip(keys[0]);
      ReviveInvertsCanonical(x.fields[keys[0]]);
      GatherInverts(x, keys[1..], entries[1..]);
    }
  }

  // --- Main results ------------------------------------------------------------------------------------------

  /** A decoder recovers the value and finds its end: the encoding is invertible and prefix-free. */
  lemma DecodeInvertsEncode(x: Tree, rest: seq<Byte>)
    requires WellFormedTree(x)
    ensures Decode(Encode(x) + rest) == Some((x, rest))
  {
    ParseInvertsEmit(Canonical(x), rest);
    ReviveInvertsCanonical(x);
  }

  /**
   Two values of well-formed strings feed the hash the same bytes exactly when they are equal, records as unordered
   maps.
   */
  lemma EncodesEquallyIff(x: Tree, y: Tree)
    requires WellFormedTree(x) && WellFormedTree(y)
    ensures Encode(x) == Encode(y) <==> x == y
    ensures Encode(x) <= Encode(y) ==> x == y
  {
    if Encode(x) <= Encode(y) {
      var rest := Encode(y)[|Encode(x)|..];
      assert Encode(y) == Encode(x) + rest && Encode(y) == Encode(y) + [];
      DecodeInvertsEncode(x, rest);
      DecodeInvertsEncode(y, []);
    }
  }

  /** Without well-formedness: no two values share their bytes unless they share the canonical form. */
  lemma EncodesEquallyIffCanonical(x: Tree, y: Tree)
    ensures Encode(x) == Encode(y) <==> Canonical(x) == Canonical(y)
  {
    assert Encode(x) == Encode(x) + [] && Encode(y) == Encode(y) + [];
    ParseInvertsEmit(Canonical(x), []);
    ParseInvertsEmit(Canonical(y), []);
  }

  /** Two records' lists of entries, compared as they reach the hash. */
  predicate SameEntries(f: map<Text, Tree>, f': map<Text, Tree>) {
    var keys, keys' := SortedKeys(f.Keys), SortedKeys(f'.Keys);
    && |keys| == |keys'|
    && forall i | 0 <= i < |keys| ::
         Repair(keys[i]) == Repair(keys'[i]) && Canonical(f[keys[i]]) == Canonical(f'[keys'[i]])
  }

  /**
   Records share their canonical form exactly when keys, with lone surrogates replaced, and values agree in key order.
   */
  lemma CanonicalRecordsEqualIff(f: map<Text, Tree>, f': map<Text, Tree>)
    ensures Canonical(Record(f)) == Canonical(Record(f')) <==> SameEntries(f, f')
  {
    var keys, keys' := SortedKeys(f.Keys), SortedKeys(f'.Keys);
    var es, es' := Canonical(Record(f)).entries, Canonical(Record(f')).entries;
    CanonicalOfRecord(f);
    CanonicalOfRecord(f');
    EntriesEqualIff(f, f', keys, keys', es, es');
  }

  lemma EntriesEqualIff(
      f: map<Text, Tree>, f': map<Text, Tree>, keys: seq<Text>, keys': seq<Text>, es: seq<CEntry>, es': seq<CEntry>)
    requires EntriesFor(Record(f), keys, es) && EntriesFor(Record(f'), keys', es')
    ensures es == es' <==>
              |keys| == |keys'|
              && forall i | 0 <= i < |keys| ::
                   Repair(keys[i]) == Repair(keys'[i]) && Canonical(f[keys[i]]) == Canonical(f'[keys'[i]])
  {
    forall i | 0 <= i < |keys| && i < |keys'| { Utf8EqualIff(keys[i], keys'[i]); }
    if es == es' {
      forall i | 0 <= i < |keys|
        ensures Repair(keys[i]) == Repair(keys'[i]) && Canonical(f[keys[i]]) == Canonical(f'[keys'[i]])
      {
        assert es[i] == es'[i];
      }
    }
  }

  /** With the same keys, records agree exactly when each value does. */
  lemma SameKeysCanonicalIff(f: map<Text, Tree>, f': map<Text, Tree>)
    requires f.Keys == f'.Keys
    ensures Canonical(Record(f)) == Canonical(Record(f')) <==> forall k <- f :: Canonical(f[k]) == Canonical(f'[k])
  {
    CanonicalRecordsEqualIff(f, f');
    var keys := SortedKeys(f.Keys);
    assert keys == SortedKeys(f'.Keys);
    if SameEntries(f, f') {
      forall k | k in f ensures Canonical(f[k]) == Canonical(f'[k]) {
        assert k in keys;
        var i :| 0 <= i < |keys| && keys[i] == k;
      }
    }
  }

  lemma OneFieldCanonicalIff(a: Text, x: Tree, x': Tree)
    ensures SameEntries(map[a := x], map[a := x']) <==> Canonical(x) == Canonical(x')
  {
    var f, f' := map[a := x], map[a := x'];
    assert f.Keys == f'.Keys;
    SameKeysCanonicalIff(f, f');
    CanonicalRecordsEqualIff(f, f');
    assert f[a] == x && f'[a] == x';
  }

  lemma TwoFieldsCanonicalIff(f: map<Text, Tree>, f': map<Text, Tree>, a: Text, b: Text)
    requires f.Keys == f'.Keys == {a, b}
    ensures a in f && b in f && a in f' && b in f'
    ensures Canonical(Record(f)) == Canonical(Record(f')) <==>
              Canonical(f[a]) == Canonical(f'[a]) && Canonical(f[b]) == Canonical(f'[b])
  {
    SameKeysCanonicalIff(f, f');
  }

  /** Two strings collide exactly when they differ only in lone surrogates, and such strings exist. */
  lemma StringsCollideIff(s: Text, t: Text)
    ensures Encode(Str(s)) == Encode(Str(t)) <==> Repair(s) == Repair(t)
    ensures Encode(Str([0xD800])) == Encode(Str([0xDFFF]))
  {
    EncodesEquallyIffCanonical(Str(s), Str(t));
    Utf8EqualIff(s, t);
    EncodesEquallyIffCanonical(Str([0xD800]), Str([0xDFFF]));
    assert Scalars([0xD800]) == Scalars([0xDFFF]);
  }

  // --- The incremental hash -----------------------------------------------------------------------------------

  lemma {:induction false} EmitItemsAppend(items: seq<Canon>, c: Canon)
    ensures EmitItems(items + [c]) == EmitItems(items) + Emit(c)
  {
    if |items| > 0 {
      assert (items + [c])[1..] == items[1..] + [c];
      EmitItemsAppend(items[1..], c);
      RegroupThree(Emit(items[0]), EmitItems(items[1..]), Emit(c));
    }
  }

  lemma {:induction false} EmitEntriesAppend(entries: seq<CEntry>, e: CEntry)
    ensures EmitEntries(entries + [e]) == EmitEntries(entries) + Marked(TAG_KEY, e.key) + Emit(e.value)
  {
    if |entries| > 0 {
      assert (entries + [e])[1..] == entries[1..] + [e];
      EmitEntriesAppend(entries[1..], e);
      var first := Marked(TAG_KEY, entries[0].key) + Emit(entries[0].value);
      Regroup(first, EmitEntries(entries[1..]), Marked(TAG_KEY, e.key), Emit(e.value));
    } else {
      assert entries + [e] == [e];
    }
  }

  lemma EncodeOfArray(items: seq<Tree>)
    ensures var canon := Canonical(Array(items)).items;
            && |canon| == |items| && (forall i | 0 <= i < |items| :: canon[i] == Canonical(items[i]))
            && Encode(Array(items)) == Opening(TAG_ARRAY, |items|, OPEN_BRACKET) + EmitItems(canon) + [CLOSE_BRACKET]
  {
  }

  lemma EncodeOfRecord(fields: map<Text, Tree>)
    ensures var keys, canon := SortedKeys(fields.Keys), Canonical(Record(fields)).entries;
            && EntriesFor(Record(fields), keys, canon)
            && Encode(Record(fields)) == Opening(TAG_RECORD, |keys|, OPEN_BRACE) + EmitEntries(canon) + [CLOSE_BRACE]
  {
  }

  /** The hash object, reduced to the bytes it has been fed. */
  class Hash {
    var fed: seq<Byte>

    constructor ()
      ensures fed == []
    {
      fed := [];
    }

    method Update(b: seq<Byte>)
      modifies this
      ensures fed == old(fed) + b
    {
      fed := fed + b;
    }

    method WriteText(marker: Byte, text: Text)
      modifies this
      ensures fed == old(fed) + Marked(marker, Utf8(text))
    {
      Update([marker]);
      Update(Decimal(|Utf8(text)|));
      Update([COLON]);
      Update(Utf8(text));
    }

    method Visit(entry: Tree)
      modifies this
      ensures fed == old(fed) + Encode(entry)
      decreases entry, 1, 0
    {
      match entry
      case Undefined => Update([TAG_UNDEFINED, SEMICOLON]);
      case Null => Update([TAG_NULL, SEMICOLON]);
      case Str(s) => WriteText(TAG_TEXT, s);
      case Num(s) => WriteText(TAG_NUMBER, s);
      case Bool(b) => Update([TAG_BOOL, if b then 49 else 48, SEMICOLON]);
      case Array(items) => VisitArray(entry);
      case Record(fields) => VisitRecord(entry);
    }

    method VisitArray(entry: Tree)
      requires entry.Array?
      modifies this
      ensures fed == old(fed) + Encode(entry)
      decreases entry, 0, 1
    {
      ghost var canon := Canonical(entry).items;
      EncodeOfArray(entry.items);
      Update(Opening(TAG_ARRAY, |entry.items|, OPEN_BRACKET));
      VisitItems(entry, canon);
      Update([CLOSE_BRACKET]);
      Regroup(old(fed), Opening(TAG_ARRAY, |entry.items|, OPEN_BRACKET), EmitItems(canon), [CLOSE_BRACKET]);
    }

    method VisitRecord(entry: Tree)
      requires entry.Record?
      modifies this
      ensures fed == old(fed) + Encode(entry)
      decreases entry, 0, 1
    {
      var keys := SortedKeys(entry.fields.Keys);
      ghost var canon := Canonical(entry).entries;
      EncodeOfRecord(entry.fields);
      Update(Opening(TAG_RECORD, |keys|, OPEN_BRACE));
      VisitFields(entry, keys, canon);
      Update([CLOSE_BRACE]);
      Regroup(old(fed), Opening(TAG_RECORD, |keys|, OPEN_BRACE), EmitEntries(canon), [CLOSE_BRACE]);
    }

    /** The array branch's loop. */
    method VisitItems(entry: Tree, ghost canon: seq<Canon>)
      requires entry.Array? && |canon| == |entry.items|
      requires forall i | 0 <= i < |canon| :: canon[i] == Canonical(entry.items[i])
      modifies this
      ensures fed == old(fed) + EmitItems(canon)
      decreases entry, 0, 0
    {
      for i := 0 to |entry.items|
        invariant fed == old(fed) + EmitItems(canon[..i])
      {
        Visit(entry.items[i]);
        assert canon[..i + 1] == canon[..i] + [canon[i]];
        EmitItemsAppend(canon[..i], canon[i]);
        RegroupThree(old(fed), EmitItems(canon[..i]), Emit(canon[i]));
      }
      assert canon[..|canon|] == canon;
    }

    /** The record branch's loop. */
    method VisitFields(entry: Tree, keys: seq<Text>, ghost canon: seq<CEntry>)
      requires EntriesFor(entry, keys, canon)
      modifies this
      ensures fed == old(fed) + EmitEntries(canon)
      decreases entry, 0, 0
    {
      for i := 0 to |keys|
        invariant fed == old(fed) + EmitEntries(canon[..i])
      {
        WriteText(TAG_KEY, keys[i]);
        Visit(entry.fields[keys[i]]);
        assert canon[..i + 1] == canon[..i] + [canon[i]];
        EmitEntriesAppend(canon[..i], canon[i]);
        Regroup(old(fed), EmitEntries(canon[..i]), Marked(TAG_KEY, canon[i].key), Emit(canon[i].value));
      }
      assert canon[..|canon|] == canon;
    }
  }
}
