/**
 Structural inspection of an OOXML container, byte by byte.

 The layout is that of APPNOTE.TXT sections 4.3.7 (local header), 4.3.12 (directory record) and
 4.3.16 (end record). Nothing is decompressed. The loop is tied to a declarative account of the
 archive: directory records that tile exactly up to the end record.
 */
module Ooxml {
  import opened Wrappers
  import opened Unicode
  import opened OoxmlDirectory

  const MAX_ENTRIES := 2_048
  const MAX_ENTRY_UNCOMPRESSED_BYTES := 50 * 1024 * 1024
  const MAX_COMPRESSION_RATIO := 100

  const CENTRAL_SIGNATURE := 0x0201_4b50
  const END_SIGNATURE := 0x0605_4b50
  const LOCAL_SIGNATURE := 0x0403_4b50
  const ZIP64_MARK := 0xffff_ffff
  const END_RECORD_BYTES := 22

  type Bytes = seq<Byte>

  function U16(b: Bytes, at: nat): (r: nat)
    requires at + 2 <= |b|
    ensures r < 0x1_0000
  {
    (b[at] as int) + 0x100 * (b[at + 1] as int)
  }

  function U32(b: Bytes, at: nat): (r: nat)
    requires at + 4 <= |b|
    ensures r < 0x1_0000_0000
  {
    U16(b, at) + 0x1_0000 * U16(b, at + 2)
  }

  predicate FlagUtf8(flags: nat) { flags / 0x800 % 2 == 1 }
  predicate FlagDescriptor(flags: nat) { flags / 0x8 % 2 == 1 }
  predicate FlagEncrypted(flags: nat) { flags % 2 == 1 || flags / 0x40 % 2 == 1 || flags / 0x2000 % 2 == 1 }

  // --- Entry names -----------------------------------------------------------------------------

  const SLASH: int := 0x2F
  const DOT: int := 0x2E
  const BACKSLASH: int := 0x5C
  const DRIVE_COLON: int := 0x3A
  const BYTE_ORDER_MARK: int := 0xFEFF

  /** A fatal UTF-8 decoder: only the exact encoding of some text is accepted; a leading mark is dropped. */
  function DecodeStrict(b: Bytes): Option<Name> {
    var p := DecodeScalars(b);
    if EncodeScalars(p) != b then None
    else if |p| > 0 && p[0] == BYTE_ORDER_MARK then Some(p[1..]) else Some(p)
  }

  predicate Letter(c: int) { 0x41 <= c <= 0x5A || 0x61 <= c <= 0x7A }

  predicate UnsafeStart(v: Name) {
    (|v| > 0 && v[0] == SLASH) || (|v| > 1 && Letter(v[0]) && v[1] == DRIVE_COLON)
  }

  predicate PrintableAscii(b: Bytes) {
    forall i | 0 <= i < |b| :: 0x20 <= b[i] <= 0x7e
  }

  function AsciiName(b: Bytes): Name
    requires PrintableAscii(b)
  {
    seq(|b|, i requires 0 <= i < |b| => b[i])
  }

  function DecodeEntryName(b: Bytes, flags: nat): Option<Name> {
    if |b| == 0 then None
    else
      var value := if FlagUtf8(flags) then DecodeStrict(b) else if PrintableAscii(b) then Some(AsciiName(b)) else None;
      if value.None? || 0 in value.value || BACKSLASH in value.value || UnsafeStart(value.value) then None else value
  }

  function Split(v: Name): (parts: seq<Name>)
    ensures |parts| > 0
  {
    if |v| == 0 then [[]]
    else
      var rest := Split(v[1..]);
      if v[0] == SLASH then [[]] + rest else [[v[0]] + rest[0]] + rest[1..]
  }

  function Join(parts: seq<Name>): Name {
    if |parts| == 0 then [] else if |parts| == 1 then parts[0] else parts[0] + [SLASH] + Join(parts[1..])
  }

  predicate SafePart(part: Name) {
    part != [] && part != [DOT] && part != [DOT, DOT]
  }

  predicate IsDirectory(v: Name) {
    |v| > 0 && v[|v| - 1] == SLASH
  }

  function CanonicalEntryName(v: Name): Option<Name> {
    var all := Split(v);
    var parts := if IsDirectory(v) then all[..|all| - 1] else all;
    if |parts| == 0 || exists part <- parts :: !SafePart(part) then None
    else Some(Join(parts) + if IsDirectory(v) then [SLASH] else [])
  }

  lemma {:induction false} JoinInvertsSplit(v: Name)
    ensures Join(Split(v)) == v
  {
    if |v| > 0 {
      JoinInvertsSplit(v[1..]);
      var rest := Split(v[1..]);
      if v[0] == SLASH {
        var parts := [[]] + rest;
        assert parts[1..] == rest && |parts| > 1;
        assert Join(parts) == [] + [SLASH] + Join(rest);
      } else {
        var parts := [[v[0]] + rest[0]] + rest[1..];
        assert parts[1..] == rest[1..];
        assert Join(parts) == [v[0]] + Join(rest);
        assert v == [v[0]] + v[1..];
      }
    }
  }

  lemma {:induction false} DirectoryEndsEmpty(v: Name)
    requires IsDirectory(v)
    ensures |Split(v)| > 1 && Split(v)[|Split(v)| - 1] == []
  {
    if |v| > 1 {
      assert v[1..][|v[1..]| - 1] == v[|v| - 1];
      DirectoryEndsEmpty(v[1..]);
      var rest := Split(v[1..]);
      if v[0] == SLASH {
        assert ([[]] + rest)[|rest|] == rest[|rest| - 1];
      } else {
        assert ([[v[0]] + rest[0]] + rest[1..])[|rest| - 1] == rest[|rest| - 1];
      }
    }
  }

  lemma {:induction false} JoinDropsLast(parts: seq<Name>)
    requires |parts| > 1
    ensures Join(parts) == Join(parts[..|parts| - 1]) + [SLASH] + parts[|parts| - 1]
  {
    var init := parts[..|parts| - 1];
    if |parts| == 2 {
      assert parts[1..] == [parts[1]] && init == [parts[0]];
    } else {
      JoinDropsLast(parts[1..]);
      assert parts[1..][..|parts[1..]| - 1] == init[1..];
    }
  }

  /** Canonicalisation never rewrites a name: it accepts it as it stands or refuses it. */
  lemma CanonicalNameIsUnchanged(v: Name)
    requires CanonicalEntryName(v).Some?
    ensures CanonicalEntryName(v) == Some(v)
  {
    JoinInvertsSplit(v);
    if IsDirectory(v) {
      var all := Split(v);
      DirectoryEndsEmpty(v);
      JoinDropsLast(all);
      assert Join(all) == Join(all[..|all| - 1]) + [SLASH];
    } else {
      assert Join(Split(v)) + [] == v;
    }
  }

  /** `v[i..j]` is one whole, non-empty segment of a path. */
  predicate Segment(v: Name, i: nat, j: nat) {
    && i < j <= |v| && SLASH !in v[i..j]
    && (i == 0 || v[i - 1] == SLASH) && (j == |v| || v[j] == SLASH)
  }

  lemma {:induction false} SegmentIsPart(v: Name, i: nat, j: nat)
    requires Segment(v, i, j)
    ensures v[i..j] in Split(v) && (i == 0 ==> Split(v)[0] == v[..j])
  {
    var rest := Split(v[1..]);
    if i > 0 {
      assert v[1..][i - 1..j - 1] == v[i..j];
      SegmentIsPart(v[1..], i - 1, j - 1);
      if v[0] != SLASH {
        assert i > 1 && v[1..][i - 2] == SLASH;
        LaterPart(v[1..], i - 1, j - 1);
      }
    } else {
      assert v[0] in v[0..j] && v[..j] == v[0..j];
      if j == 1 {
        if |v| > 1 { assert v[1..][0] == SLASH; }
        assert rest[0] == [];
      } else {
        assert v[1..][0..j - 1] == v[0..j][1..];
        SegmentIsPart(v[1..], 0, j - 1);
        assert v[..j] == [v[0]] + v[1..][..j - 1];
      }
      assert Split(v)[0] == v[0..j];
    }
  }

  /** A segment that does not start the path is a part other than the first. */
  lemma {:induction false} LaterPart(v: Name, i: nat, j: nat)
    requires Segment(v, i, j) && i > 0
    ensures v[i..j] in Split(v)[1..]
  {
    assert v[1..][i - 1..j - 1] == v[i..j];
    var rest := Split(v[1..]);
    if v[0] == SLASH {
      SegmentIsPart(v[1..], i - 1, j - 1);
      assert Split(v)[1..] == rest;
    } else {
      assert i > 1 && v[1..][i - 2] == SLASH;
      LaterPart(v[1..], i - 1, j - 1);
      assert Split(v)[1..] == rest[1..];
    }
  }

  /** An accepted name is a relative path that never leaves its root: no drive, no backslash, no `.` or `..` segment. */
  lemma AcceptedNamesAreSafe(b: Bytes, flags: nat, i: nat, j: nat)
    requires SafeName(b, flags).Some?
    ensures var v := SafeName(b, flags).value;
            && 0 !in v && BACKSLASH !in v && !UnsafeStart(v)
            && (Segment(v, i, j) ==> SafePart(v[i..j]))
  {
    var v := DecodeEntryName(b, flags).value;
    CanonicalNameIsUnchanged(v);
    if Segment(v, i, j) {
      SegmentIsPart(v, i, j);
      if IsDirectory(v) { DirectoryEndsEmpty(v); }
    }
  }

  // --- Directory records -------------------------------------------------------------------------

  datatype Central = Central(
    flags: nat, compression: nat, compressedSize: nat, uncompressedSize: nat,
    nameLength: nat, extraLength: nat, commentLength: nat, diskStart: nat, localOffset: nat)

  function ReadCentral(b: Bytes, at: nat): Central
    requires at + 46 <= |b|
  {
    Central(U16(b, at + 8), U16(b, at + 10), U32(b, at + 20), U32(b, at + 24),
            U16(b, at + 28), U16(b, at + 30), U16(b, at + 32), U16(b, at + 34), U32(b, at + 42))
  }

  predicate PlainEntry(c: Central) {
    && !FlagEncrypted(c.flags) && (c.compression == 0 || c.compression == 8)
    && c.compressedSize != ZIP64_MARK && c.uncompressedSize != ZIP64_MARK && c.diskStart == 0
        && c.localOffset != ZIP64_MARK
  }

  predicate WithinEntryBudget(c: Central) {
    && c.uncompressedSize <= MAX_ENTRY_UNCOMPRESSED_BYTES
    && c.uncompressedSize <= MAX_COMPRESSION_RATIO * c.compressedSize
  }

  /** The local header agrees with its record and lies, with name and payload, below the directory. */
  predicate LocalOk(b: Bytes, dir: nat, c: Central, name: Bytes)
    requires dir <= |b|
  {
    var at := c.localOffset;
    && at + 30 <= dir && U32(b, at) == LOCAL_SIGNATURE
    && U16(b, at + 6) == c.flags && U16(b, at + 8) == c.compression && U16(b, at + 26) == c.nameLength
    && (!FlagDescriptor(c.flags) ==> U32(b, at + 18) == c.compressedSize && U32(b, at + 22) == c.uncompressedSize)
    && at + 30 + c.nameLength + U16(b, at + 28) + c.compressedSize <= dir
    && b[at + 30..at + 30 + c.nameLength] == name
  }

  function Next(at: nat, c: Central): nat {
    at + 46 + (c.nameLength + c.extraLength + c.commentLength)
  }

  function SafeName(b: Bytes, flags: nat): Option<Name> {
    var decoded := DecodeEntryName(b, flags);
    if decoded.None? then None else CanonicalEntryName(decoded.value)
  }

  function NameBytes(b: Bytes, at: nat, c: Central): Bytes
    requires at + 46 + c.nameLength <= |b|
  {
    b[at + 46..at + 46 + c.nameLength]
  }

  /** Everything one record must satisfy on its own. */
  predicate RecordOk(b: Bytes, dir: nat, end: nat, at: nat)
    requires dir <= end <= |b|
  {
    && at + 46 <= end && U32(b, at) == CENTRAL_SIGNATURE
    && var c := ReadCentral(b, at);
    && PlainEntry(c) && WithinEntryBudget(c)
    && Next(at, c) <= end
    && SafeName(NameBytes(b, at, c), c.flags).Some?
    && LocalOk(b, dir, c, NameBytes(b, at, c))
  }

  function RecordAt(b: Bytes, dir: nat, end: nat, at: nat): Option<Record>
    requires dir <= end <= |b|
  {
    if RecordOk(b, dir, end, at) then
      var c := ReadCentral(b, at);
      Some(Record(Next(at, c), SafeName(NameBytes(b, at, c), c.flags).value, c.uncompressedSize))
    else None
  }

  /** The acceptable records of a buffer whose directory lies between `dir` and `end`. */
  function Records(b: Bytes, dir: nat, end: nat): View
    requires dir <= end <= |b|
  {
    (at: nat) => RecordAt(b, dir, end, at)
  }

  /** `v` is that view, to be unfolded one record at a time. */
  ghost predicate Shows(b: Bytes, dir: nat, end: nat, v: View) {
    dir <= end <= |b| && forall at {:trigger RecordAt(b, dir, end, at)} :: v(at) == RecordAt(b, dir, end, at)
  }

  // --- The archive, declaratively -----------------------------------------------------------------

  predicate EndAt(b: Bytes, e: nat) {
    e + END_RECORD_BYTES <= |b| && U32(b, e) == END_SIGNATURE && e + END_RECORD_BYTES + U16(b, e + 20) == |b|
  }

  ghost predicate LastEnd(b: Bytes, e: nat) {
    EndAt(b, e) && forall e' | e < e' :: !EndAt(b, e')
  }

  predicate EndOk(b: Bytes, e: nat)
    requires EndAt(b, e)
  {
    && U16(b, e + 4) == 0 && U16(b, e + 6) == 0 && U16(b, e + 8) == U16(b, e + 10) && U16(b, e + 10) <= MAX_ENTRIES
    && U32(b, e + 12) != ZIP64_MARK && U32(b, e + 16) != ZIP64_MARK
    && U32(b, e + 16) + U32(b, e + 12) == e
  }

  /** A well-laid-out archive: `offs` are its record offsets, ending at the end record. */
  ghost predicate Archive(b: Bytes, e: nat, offs: seq<nat>, parts: set<Name>) {
    && LastEnd(b, e) && EndOk(b, e)
    && var dir, count := U32(b, e + 16), U16(b, e + 10);
    && Directory(Records(b, dir, e), dir, e, count, offs)
    && parts <= NamesOf(Records(b, dir, e), offs)
  }

  lemma ArchiveIff(b: Bytes, e: nat, parts: set<Name>, v: View)
    requires LastEnd(b, e) && EndOk(b, e) && v == Records(b, U32(b, e + 16), e)
    ensures var w := Walk(v, U32(b, e + 16), U16(b, e + 10), {}, 0);
            (w.Some? && w.value.at == e && parts <= w.value.names) <==> exists e', offs :: Archive(b, e', offs, parts)
  {
    var dir, count := U32(b, e + 16), U16(b, e + 10);
    WalkAcceptsIff(v, dir, e, count, parts);
    forall e', offs | Archive(b, e', offs, parts) ensures e' == e { }
    forall offs | Directory(v, dir, e, count, offs) && parts <= NamesOf(v, offs) ensures Archive(b, e, offs, parts) { }
  }

  // --- The code ---------------------------------------------------------------------------------------

  /** Scan backwards for an end record whose comment reaches exactly to the end of the buffer. */
  method FindEndRecord(b: Bytes) returns (r: Option<nat>)
    requires |b| >= END_RECORD_BYTES
    ensures r.Some? ==> LastEnd(b, r.value)
    ensures r.None? ==> forall e :: !EndAt(b, e)
  {
    var firstCandidate: int := |b| - END_RECORD_BYTES - 0xffff;
    if firstCandidate < 0 { firstCandidate := 0; }
    var offset: int := |b| - END_RECORD_BYTES;
    while offset >= firstCandidate
      invariant firstCandidate - 1 <= offset <= |b| - END_RECORD_BYTES
      invariant forall e: nat | offset < e :: !EndAt(b, e)
    {
      if U32(b, offset) == END_SIGNATURE && offset + END_RECORD_BYTES + U16(b, offset + 20) == |b| {
        return Some(offset);
      }
      offset := offset - 1;
    }
    return None;
  }

  function AddWithinLimit(left: nat, right: nat, limit: nat): Option<nat> {
    if left + right > limit then None else Some(left + right)
  }

  /** The body of the directory loop for one record; None is a refusal. */
  method CheckRecord(b: Bytes, dir: nat, end: nat, at: nat, ghost v: View) returns (r: Option<Record>)
    requires Shows(b, dir, end, v)
    ensures r == v(at)
  {
    assert v(at) == RecordAt(b, dir, end, at);
    if at + 46 > end || U32(b, at) != CENTRAL_SIGNATURE { return None; }
    var c := ReadCentral(b, at);
    var plain := CheckFields(c);
    if !plain { return None; }
    var next := AddWithinLimit(at + 46, c.nameLength + c.extraLength + c.commentLength, end);
    if next.None? { return None; }
    var nameBytes := NameBytes(b, at, c);
    var name := SafeName(nameBytes, c.flags);
    if name.None? { return None; }
    var local := CheckLocal(b, dir, c, nameBytes);
    if !local { return None; }
    assert RecordOk(b, dir, end, at) && next.value == Next(at, c);
    return Some(Record(next.value, name.value, c.uncompressedSize));
  }

  method CheckFields(c: Central) returns (ok: bool)
    ensures ok <==> PlainEntry(c) && WithinEntryBudget(c)
  {
    if FlagEncrypted(c.flags) || (c.compression != 0 && c.compression != 8) || c.compressedSize == ZIP64_MARK
       || c.uncompressedSize == ZIP64_MARK || c.diskStart != 0 || c.localOffset == ZIP64_MARK { return false; }
    return !(c.uncompressedSize > MAX_ENTRY_UNCOMPRESSED_BYTES || (c.uncompressedSize > 0 && c.compressedSize == 0)
             || (c.compressedSize > 0 && c.uncompressedSize > MAX_COMPRESSION_RATIO * c.compressedSize));
  }

  method CheckLocal(b: Bytes, dir: nat, c: Central, nameBytes: Bytes) returns (ok: bool)
    requires dir <= |b| && |nameBytes| == c.nameLength
    ensures ok <==> LocalOk(b, dir, c, nameBytes)
  {
    var at := c.localOffset;
    if at + 30 > dir || U32(b, at) != LOCAL_SIGNATURE { return false; }
    if U16(b, at + 6) != c.flags || U16(b, at + 8) != c.compression || U16(b, at + 26) != c.nameLength { return false; }
    var agrees := U32(b, at + 18) == c.compressedSize && U32(b, at + 22) == c.uncompressedSize;
    if !FlagDescriptor(c.flags) && !agrees { return false; }
    var nameEnd := AddWithinLimit(at + 30, c.nameLength, dir);
    if nameEnd.None? || b[at + 30..nameEnd.value] != nameBytes { return false; }
    var dataStart := AddWithinLimit(nameEnd.value, U16(b, at + 28), dir);
    if dataStart.None? { return false; }
    return AddWithinLimit(dataStart.value, c.compressedSize, dir).Some?;
  }

  method WalkDirectory(b: Bytes, dir: nat, end: nat, count: nat, ghost v: View) returns (r: Option<Walked>)
    requires Shows(b, dir, end, v)
    ensures r == Walk(v, dir, count, {}, 0)
  {
    var names: set<Name> := {};
    var total: nat, at: nat := 0, dir;
    ghost var left := count;
    ghost var whole := Walk(v, at, left, names, total);
    for index := 0 to count
      invariant left == count - index
      invariant whole == Walk(v, at, left, names, total)
    {
      var r := CheckRecord(b, dir, end, at, v);
      WalkStep(v, at, r, left, names, total);
      left := left - 1;
      if r.None? || r.value.name in names { return None; }
      var sum := AddWithinLimit(total, r.value.size, MAX_TOTAL_UNCOMPRESSED_BYTES);
      if sum.None? { return None; }
      names, total, at := names + {r.value.name}, sum.value, r.value.next;
    }
    return Some(Walked(at, names));
  }

  datatype Mime = WordDocument | Spreadsheet | Presentation | OtherMime

  function Literal(s: string): Name {
    seq(|s|, i requires 0 <= i < |s| => if s[i] < '\U{80}' then s[i] as int else 0)
  }

  /** The content types and the main part of the document type. */
  function RequiredParts(mime: Mime): set<Name>
    requires !mime.OtherMime?
  {
    var main := match mime
      case WordDocument => "word/document.xml"
      case Spreadsheet => "xl/workbook.xml"
      case _ => "ppt/presentation.xml";
    {Literal("[Content_Types].xml"), Literal(main)}
  }

  method ValidateOoxmlContainer(b: Bytes, mime: Mime) returns (ok: bool)
    ensures ok <==> !mime.OtherMime? && exists e, offs :: Archive(b, e, offs, RequiredParts(mime))
  {
    if |b| < END_RECORD_BYTES || mime.OtherMime? { return false; }
    var parts := RequiredParts(mime);
    var found := FindEndRecord(b);
    if found.None? { return false; }
    var e := found.value;
    if !EndOk(b, e) { return false; }
    var dir, count := U32(b, e + 16), U16(b, e + 10);
    ghost var v := Records(b, dir, e);
    var w := WalkDirectory(b, dir, e, count, v);
    ok := w.Some? && w.value.at == e && parts <= w.value.names;
    ArchiveIff(b, e, parts, v);
  }

  /** Without a comment the end record is found where it was written, whatever bytes precede it. */
  lemma NoCommentMeansLast(b: Bytes)
    requires |b| >= END_RECORD_BYTES && EndAt(b, |b| - END_RECORD_BYTES)
    ensures LastEnd(b, |b| - END_RECORD_BYTES)
  {
  }
}
