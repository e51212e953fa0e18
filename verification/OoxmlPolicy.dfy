/**
 What an accepted container holds, told in the terms of APPNOTE.TXT: flag bits, signatures, entry
 names as paths, sizes and the parts of the document type.
 */
module OoxmlPolicy {
  import opened Wrappers
  import opened Unicode
  import opened OoxmlDirectory
  import opened Ooxml

  // --- Bits and signatures ---------------------------------------------------------------------

  /** Binary digit `k`, counted from the lowest. */
  predicate Bit(flags: nat, k: nat) {
    if k == 0 then flags % 2 == 1 else Bit(flags / 2, k - 1)
  }

  lemma ThreeBitsUp(flags: nat, k: nat)
    ensures Bit(flags, k + 3) == Bit(flags / 8, k)
  {
    assert Bit(flags, k + 3) == Bit(flags / 2, k + 2) == Bit(flags / 2 / 2, k + 1) == Bit(flags / 2 / 2 / 2, k);
  }

  lemma SixBitsUp(flags: nat, k: nat)
    ensures Bit(flags, k + 6) == Bit(flags / 64, k)
  {
    ThreeBitsUp(flags, k + 3);
    ThreeBitsUp(flags / 8, k);
    assert flags / 8 / 8 == flags / 64;
  }

  lemma BitEleven(flags: nat)
    ensures Bit(flags, 11) == (flags / 2048 % 2 == 1)
  {
    SixBitsUp(flags, 5);
    ThreeBitsUp(flags / 64, 2);
    var rest := flags / 64 / 8;
    assert Bit(rest, 2) == Bit(rest / 2, 1) == Bit(rest / 2 / 2, 0);
    assert flags / 64 / 8 / 2 / 2 == flags / 2048;
  }

  lemma BitThirteen(flags: nat)
    ensures Bit(flags, 13) == (flags / 8192 % 2 == 1)
  {
    SixBitsUp(flags, 7);
    SixBitsUp(flags / 64, 1);
    var rest := flags / 64 / 64;
    assert Bit(rest, 1) == Bit(rest / 2, 0);
    assert flags / 64 / 64 / 2 == flags / 8192;
  }

  /** Bit 11 says UTF-8, bit 3 a data descriptor, and bits 0, 6 and 13 encryption. */
  lemma FlagsAreBits(flags: nat)
    ensures FlagUtf8(flags) <==> Bit(flags, 11)
    ensures FlagDescriptor(flags) <==> Bit(flags, 3)
    ensures FlagEncrypted(flags) <==> Bit(flags, 0) || Bit(flags, 6) || Bit(flags, 13)
  {
    BitEleven(flags);
    BitThirteen(flags);
    ThreeBitsUp(flags, 0);
    SixBitsUp(flags, 0);
  }

  predicate StartsWithPK(b: Bytes, at: nat, third: Byte, fourth: Byte) {
    at + 4 <= |b| && b[at] == 'P' as int && b[at + 1] == 'K' as int && b[at + 2] == third && b[at + 3] == fourth
  }

  lemma SignaturesAre(b: Bytes, at: nat)
    requires at + 4 <= |b|
    ensures U32(b, at) == LOCAL_SIGNATURE <==> StartsWithPK(b, at, 3, 4)
    ensures U32(b, at) == CENTRAL_SIGNATURE <==> StartsWithPK(b, at, 1, 2)
    ensures U32(b, at) == END_SIGNATURE <==> StartsWithPK(b, at, 5, 6)
  {
  }

  // --- Entry names -------------------------------------------------------------------------------

  ghost predicate SpellsUtf8(b: Bytes, v: Name) {
    exists p: seq<Scalar> :: EncodeScalars(p) == b && (p == [0xFEFF] + v || (p == v && (v == [] || v[0] != 0xFEFF)))
  }

  predicate SpellsAscii(b: Bytes, v: Name) {
    |v| == |b| && forall i | 0 <= i < |b| :: v[i] == b[i] && ' ' as int <= b[i] <= '~' as int
  }

  /** The bytes of an entry spell this name: UTF-8, with or without a byte order mark, or printable ASCII. */
  ghost predicate Spells(b: Bytes, flags: nat, v: Name) {
    if Bit(flags, 11) then SpellsUtf8(b, v) else SpellsAscii(b, v)
  }

  /** `v[i..j]` stands between two slashes, or the ends. */
  predicate Between(v: Name, i: nat, j: nat) {
    && i <= j <= |v| && '/' as int !in v[i..j]
    && (i == 0 || v[i - 1] == '/' as int) && (j == |v| || v[j] == '/' as int)
  }

  /** A relative path below its root: only its very end may be empty, which makes it a directory. */
  ghost predicate SafePath(v: Name) {
    && v != [] && v[0] != '/' as int && 0 !in v && '\\' as int !in v
    && !(|v| > 1 && v[1] == ':' as int && ('a' as int <= v[0] <= 'z' as int || 'A' as int <= v[0] <= 'Z' as int))
    && forall i: nat, j: nat | Between(v, i, j) ::
         v[i..j] != ['.' as int] && v[i..j] != ['.' as int, '.' as int] && (v[i..j] == [] ==> i == |v|)
  }

  /** Each part of a split name stands between slashes, and the last one at the end. */
  lemma {:induction false} PartBetween(v: Name, k: nat) returns (i: nat, j: nat)
    requires k < |Split(v)|
    ensures Between(v, i, j) && v[i..j] == Split(v)[k]
    ensures k == 0 <==> i == 0
    ensures j == |v| <==> k == |Split(v)| - 1
  {
    if |v| == 0 {
      i, j := 0, 0;
    } else {
      var rest := Split(v[1..]);
      if v[0] == SLASH {
        if k == 0 {
          i, j := 0, 0;
        } else {
          i, j := PartBetween(v[1..], k - 1);
          assert v[1..][i..j] == v[i + 1..j + 1];
          i, j := i + 1, j + 1;
        }
      } else {
        i, j := PartBetween(v[1..], k);
        assert v[1..][i..j] == v[i + 1..j + 1];
        if k == 0 {
          assert v[0..j + 1] == [v[0]] + v[1..j + 1];
          i, j := 0, j + 1;
        } else {
          assert i > 0;
          i, j := i + 1, j + 1;
        }
      }
    }
  }

  /** Two slashes in a row, or one at the start, leave an empty part before the last. */
  lemma {:induction false} EmptyPart(v: Name, i: nat) returns (k: nat)
    requires i < |v| && Between(v, i, i)
    ensures k < |Split(v)| - 1 && Split(v)[k] == []
  {
    var rest := Split(v[1..]);
    if i == 0 {
      k := 0;
    } else if i == 1 {
      assert v[0] == SLASH;
      k := EmptyPart(v[1..], 0);
      k := k + 1;
    } else {
      assert v[1..][i - 2] == v[i - 1];
      k := EmptyPart(v[1..], i - 1);
      if v[0] == SLASH {
        k := k + 1;
      } else if k == 0 {
        k := LaterEmptyPart(v[1..], i - 1);
      }
    }
  }

  lemma {:induction false} LaterEmptyPart(v: Name, i: nat) returns (k: nat)
    requires 0 < i < |v| && Between(v, i, i)
    ensures 0 < k < |Split(v)| - 1 && Split(v)[k] == []
  {
    var rest := Split(v[1..]);
    if v[0] == SLASH {
      if i > 1 { assert v[1..][i - 2] == v[i - 1]; }
      k := EmptyPart(v[1..], i - 1);
      k := k + 1;
    } else {
      assert i > 1 && v[1..][i - 2] == v[i - 1];
      k := LaterEmptyPart(v[1..], i - 1);
    }
  }

  lemma SafePathIsCanonical(v: Name)
    requires SafePath(v)
    ensures CanonicalEntryName(v) == Some(v)
  {
    var all := Split(v);
    if IsDirectory(v) { DirectoryEndsEmpty(v); }
    var parts := if IsDirectory(v) then all[..|all| - 1] else all;
    forall k | 0 <= k < |parts| ensures SafePart(parts[k]) {
      var i, j := PartBetween(v, k);
      assert parts[k] == v[i..j];
    }
    CanonicalNameIsUnchanged(v);
  }

  lemma PartsAreSafe(v: Name, k: nat)
    requires CanonicalEntryName(v).Some? && k < |Split(v)| && (Split(v)[k] != [] || k < |Split(v)| - 1 || v == [])
    ensures SafePart(Split(v)[k])
  {
    var all := Split(v);
    if IsDirectory(v) {
      DirectoryEndsEmpty(v);
      assert all[..|all| - 1][k] == all[k];
    }
  }

  lemma CanonicalIsRelative(v: Name)
    requires CanonicalEntryName(v).Some?
    ensures v != [] && v[0] != SLASH
  {
    if v == [] {
      PartsAreSafe(v, 0);
    } else if v[0] == SLASH {
      var k := EmptyPart(v, 0);
      PartsAreSafe(v, k);
    }
  }

  lemma CanonicalIsSafePath(v: Name, i: nat, j: nat)
    requires CanonicalEntryName(v).Some? && Between(v, i, j)
    ensures v[i..j] != [DOT] && v[i..j] != [DOT, DOT] && (v[i..j] == [] ==> i == |v|)
  {
    if i < j {
      SegmentIsPart(v, i, j);
      var k :| 0 <= k < |Split(v)| && Split(v)[k] == v[i..j];
      PartsAreSafe(v, k);
    } else if i < |v| {
      var k := EmptyPart(v, i);
      PartsAreSafe(v, k);
    }
  }

  lemma CanonicalIff(v: Name)
    requires 0 !in v && BACKSLASH !in v && !UnsafeStart(v)
    ensures CanonicalEntryName(v).Some? <==> SafePath(v)
    ensures CanonicalEntryName(v).None? || CanonicalEntryName(v) == Some(v)
  {
    if CanonicalEntryName(v).Some? {
      CanonicalNameIsUnchanged(v);
      CanonicalIsRelative(v);
      forall i: nat, j: nat | Between(v, i, j)
        ensures v[i..j] != [DOT] && v[i..j] != [DOT, DOT] && (v[i..j] == [] ==> i == |v|)
      {
        CanonicalIsSafePath(v, i, j);
      }
    }
    if SafePath(v) { SafePathIsCanonical(v); }
  }

  lemma DecodeStrictIff(b: Bytes, v: Name)
    ensures DecodeStrict(b) == Some(v) <==> SpellsUtf8(b, v)
  {
    forall p: seq<Scalar> | EncodeScalars(p) == b ensures DecodeScalars(b) == p { DecodeScalarsInverts(p); }
    var q := DecodeScalars(b);
    if DecodeStrict(b) == Some(v) {
      assert EncodeScalars(q) == b;
      if |q| > 0 && q[0] == 0xFEFF { assert q == [0xFEFF] + v; }
    }
  }

  lemma AsciiIff(b: Bytes, v: Name)
    ensures PrintableAscii(b) && AsciiName(b) == v <==> SpellsAscii(b, v)
  {
  }

  lemma DecodeIff(b: Bytes, flags: nat, v: Name)
    ensures DecodeEntryName(b, flags) == Some(v) <==>
              b != [] && Spells(b, flags, v) && 0 !in v && BACKSLASH !in v && !UnsafeStart(v)
  {
    FlagsAreBits(flags);
    DecodeStrictIff(b, v);
    if !FlagUtf8(flags) { AsciiIff(b, v); }
  }

  /** Exactly which entry names are accepted: those whose bytes spell a safe path, which is then the entry's name. */
  lemma NamesAreAcceptedIff(b: Bytes, flags: nat, v: Name)
    ensures SafeName(b, flags) == Some(v) <==> b != [] && Spells(b, flags, v) && SafePath(v)
  {
    DecodeIff(b, flags, v);
    if DecodeEntryName(b, flags).Some? {
      var w := DecodeEntryName(b, flags).value;
      DecodeIff(b, flags, w);
      CanonicalIff(w);
    }
    if b != [] && Spells(b, flags, v) && SafePath(v) {
      CanonicalIff(v);
    }
  }

  // --- Sizes and parts ---------------------------------------------------------------------------------

  /** The content types and the main part of this type of document. */
  function PartNames(mime: Mime): seq<string> {
    match mime
    case WordDocument => ["[Content_Types].xml", "word/document.xml"]
    case Spreadsheet => ["[Content_Types].xml", "xl/workbook.xml"]
    case Presentation => ["[Content_Types].xml", "ppt/presentation.xml"]
    case OtherMime => []
  }

  /** A plain entry, stored or deflated, of at most 50 MiB and at most a hundred times its packed size. */
  predicate Modest(c: Central) {
    && !Bit(c.flags, 0) && !Bit(c.flags, 6) && !Bit(c.flags, 13)
    && (c.compression == 0 || c.compression == 8)
    && c.uncompressedSize <= 50 * 1_048_576 && c.uncompressedSize <= 100 * c.compressedSize
  }

  lemma RecordIsModest(b: Bytes, dir: nat, end: nat, at: nat)
    requires dir <= end <= |b| && RecordOk(b, dir, end, at)
    ensures at + 46 <= |b| && StartsWithPK(b, at, 1, 2) && Modest(ReadCentral(b, at))
  {
    SignaturesAre(b, at);
    FlagsAreBits(ReadCentral(b, at).flags);
  }

  /** Every accepted container is on one disk and has at most 2,048 modest entries of at most 100 MiB together. */
  lemma AcceptedArchivesAreModest(b: Bytes, e: nat, offs: seq<nat>, parts: set<Name>)
    requires Archive(b, e, offs, parts)
    ensures StartsWithPK(b, e, 5, 6) && e + 22 + U16(b, e + 20) == |b| && |offs| <= 2_049
    ensures U16(b, e + 4) == 0 && U16(b, e + 6) == 0 && U16(b, e + 8) == |offs| - 1
    ensures TotalSize(Records(b, U32(b, e + 16), e), offs) <= 100 * 1_048_576
    ensures forall i | 0 <= i < |offs| - 1 ::
              offs[i] + 46 <= |b| && StartsWithPK(b, offs[i], 1, 2) && Modest(ReadCentral(b, offs[i]))
  {
    var dir := U32(b, e + 16);
    SignaturesAre(b, e);
    forall i | 0 <= i < |offs| - 1
      ensures offs[i] + 46 <= |b| && StartsWithPK(b, offs[i], 1, 2) && Modest(ReadCentral(b, offs[i]))
    {
      assert Records(b, dir, e)(offs[i]).Some?;
      RecordIsModest(b, dir, e, offs[i]);
    }
  }

  /** And exactly the two parts named for its type of document are asked of it. */
  lemma PartsAreNamed(mime: Mime)
    requires !mime.OtherMime?
    ensures RequiredParts(mime) == set part <- PartNames(mime) :: Literal(part)
  {
    var names := PartNames(mime);
    assert names[0] in names && names[1] in names;
  }
}
