/**
 A plain ZIP writer, laid out as APPNOTE.TXT sections 4.3.7, 4.3.12 and 4.3.16 describe, as an
 independent check on the inspection: whatever it writes within the budgets is accepted.
 */
module OoxmlWriter {
  import opened Wrappers
  import opened Unicode
  import opened OoxmlDirectory
  import opened Ooxml

  datatype Item = Item(name: Bytes, utf8: bool, deflated: bool, crc: nat, payload: Bytes, size: nat)

  function FlagsOf(item: Item): nat { if item.utf8 then 0x800 else 0 }
  function MethodOf(item: Item): nat { if item.deflated then 8 else 0 }

  predicate Word(n: int) { 0 <= n < 0x1_0000 }
  predicate DoubleWord(n: int) { 0 <= n < 0xffff_ffff }

  type UInt16 = n: int | 0 <= n < 0x1_0000

  function Low(n: nat): UInt16 { n % 0x1_0000 }
  function High(n: nat): UInt16
    requires n < 0x1_0000_0000
  {
    n / 0x1_0000
  }

  predicate Writable(item: Item) {
    Word(|item.name|) && DoubleWord(item.crc) && DoubleWord(|item.payload|) && DoubleWord(item.size)
  }

  // --- Headers, as little-endian words ----------------------------------------------------------------

  function Words(words: seq<UInt16>): Bytes {
    if |words| == 0 then [] else [words[0] % 0x100, words[0] / 0x100] + Words(words[1..])
  }

  lemma {:induction false} WordsRead(words: seq<UInt16>, i: nat)
    requires i < |words|
    ensures |Words(words)| == 2 * |words| && U16(Words(words), 2 * i) == words[i]
  {
    var rest := Words(words[1..]);
    WordsLength(words);
    if i > 0 {
      WordsRead(words[1..], i - 1);
      assert Words(words)[2 * i] == rest[2 * (i - 1)] && Words(words)[2 * i + 1] == rest[2 * (i - 1) + 1];
    }
  }

  lemma {:induction false} WordsLength(words: seq<UInt16>)
    ensures |Words(words)| == 2 * |words|
  {
    if |words| > 0 { WordsLength(words[1..]); }
  }

  lemma WordsRead32(words: seq<UInt16>, i: nat, n: nat)
    requires i + 1 < |words| && n < 0x1_0000_0000 && words[i] == Low(n) && words[i + 1] == High(n)
    ensures |Words(words)| == 2 * |words| && U32(Words(words), 2 * i) == n
  {
    WordsRead(words, i);
    WordsRead(words, i + 1);
  }

  /** Signature, version, flags, method, time, date, crc, sizes, name length, extra length. */
  function LocalWords(item: Item): seq<UInt16>
    requires Writable(item)
  {
    [Low(LOCAL_SIGNATURE), High(LOCAL_SIGNATURE), 20, FlagsOf(item), MethodOf(item), 0, 0, Low(item.crc),
        High(item.crc),
     Low(|item.payload|), High(|item.payload|), Low(item.size), High(item.size), |item.name|, 0]
  }

  /** Signature, versions, flags, method, time, date, crc, sizes, lengths, disk, attributes, local offset. */
  function CentralWords(item: Item, localOffset: nat): seq<UInt16>
    requires Writable(item) && DoubleWord(localOffset)
  {
    [Low(CENTRAL_SIGNATURE), High(CENTRAL_SIGNATURE), 20, 20, FlagsOf(item), MethodOf(item), 0, 0, Low(item.crc),
        High(item.crc),
     Low(|item.payload|), High(|item.payload|), Low(item.size), High(item.size), |item.name|, 0, 0, 0, 0, 0, 0,
     Low(localOffset), High(localOffset)]
  }

  /** Signature, disks, counts, directory size and offset, comment length. */
  function EndWords(count: nat, dirSize: nat, dirOffset: nat): seq<UInt16>
    requires Word(count) && DoubleWord(dirSize) && DoubleWord(dirOffset)
  {
    [Low(END_SIGNATURE), High(END_SIGNATURE), 0, 0, count, count, Low(dirSize), High(dirSize), Low(dirOffset),
        High(dirOffset), 0]
  }

  lemma LocalHeaderReads(item: Item)
    requires Writable(item)
    ensures var h := Words(LocalWords(item));
            && |h| == 30 && U32(h, 0) == LOCAL_SIGNATURE && U16(h, 6) == FlagsOf(item) && U16(h, 8) == MethodOf(item)
            && U32(h, 18) == |item.payload| && U32(h, 22) == item.size && U16(h, 26) == |item.name| && U16(h, 28) == 0
  {
    var w := LocalWords(item);
    WordsRead32(w, 0, LOCAL_SIGNATURE);
    WordsRead(w, 3);
    WordsRead(w, 4);
    WordsRead32(w, 9, |item.payload|);
    WordsRead32(w, 11, item.size);
    WordsRead(w, 13);
    WordsRead(w, 14);
  }

  function CentralOf(item: Item, localOffset: nat): Central {
    Central(FlagsOf(item), MethodOf(item), |item.payload|, item.size, |item.name|, 0, 0, 0, localOffset)
  }

  lemma CentralSizesRead(w: seq<UInt16>, compressed: nat, uncompressed: nat)
    requires |w| == 23 && DoubleWord(compressed) && DoubleWord(uncompressed)
    requires w[0] == Low(CENTRAL_SIGNATURE) && w[1] == High(CENTRAL_SIGNATURE)
    requires w[10] == Low(compressed) && w[11] == High(compressed) && w[12] == Low(uncompressed)
    requires w[13] == High(uncompressed)
    ensures var h := Words(w);
            && |h| == 46 && U32(h, 0) == CENTRAL_SIGNATURE && U16(h, 8) == w[4] && U16(h, 10) == w[5]
            && U32(h, 20) == compressed && U32(h, 24) == uncompressed
  {
    WordsRead32(w, 0, CENTRAL_SIGNATURE);
    WordsRead(w, 4);
    WordsRead(w, 5);
    WordsRead32(w, 10, compressed);
    WordsRead32(w, 12, uncompressed);
  }

  lemma CentralLengthsRead(w: seq<UInt16>, localOffset: nat)
    requires |w| == 23 && DoubleWord(localOffset) && w[21] == Low(localOffset) && w[22] == High(localOffset)
    ensures var h := Words(w);
            && |h| == 46 && U16(h, 28) == w[14] && U16(h, 30) == w[15] && U16(h, 32) == w[16] && U16(h, 34) == w[17]
            && U32(h, 42) == localOffset
  {
    WordsRead(w, 14);
    WordsRead(w, 15);
    WordsRead(w, 16);
    WordsRead(w, 17);
    WordsRead32(w, 21, localOffset);
  }

  lemma CentralHeaderReads(item: Item, localOffset: nat, h: Bytes)
    requires Writable(item) && DoubleWord(localOffset) && h == Words(CentralWords(item, localOffset))
    ensures |h| == 46 && U32(h, 0) == CENTRAL_SIGNATURE && ReadCentral(h, 0) == CentralOf(item, localOffset)
  {
    var w := CentralWords(item, localOffset);
    CentralSizesRead(w, |item.payload|, item.size);
    CentralLengthsRead(w, localOffset);
  }

  lemma EndRecordReads(count: nat, dirSize: nat, dirOffset: nat)
    requires Word(count) && DoubleWord(dirSize) && DoubleWord(dirOffset)
    ensures var h := Words(EndWords(count, dirSize, dirOffset));
            && |h| == 22 && U32(h, 0) == END_SIGNATURE && U16(h, 4) == 0 && U16(h, 6) == 0 && U16(h, 8) == count
            && U16(h, 10) == count && U32(h, 12) == dirSize && U32(h, 16) == dirOffset && U16(h, 20) == 0
  {
    var w := EndWords(count, dirSize, dirOffset);
    WordsRead32(w, 0, END_SIGNATURE);
    WordsRead(w, 2);
    WordsRead(w, 3);
    WordsRead(w, 4);
    WordsRead(w, 5);
    WordsRead32(w, 6, dirSize);
    WordsRead32(w, 8, dirOffset);
    WordsRead(w, 10);
  }

  // --- Bytes in place ---------------------------------------------------------------------------------

  /** `b` holds exactly `h` at `at`. */
  predicate Holds(b: Bytes, at: nat, h: Bytes) {
    at + |h| <= |b| && b[at..at + |h|] == h
  }

  lemma HoldsPart(b: Bytes, at: nat, x: Bytes, y: Bytes)
    requires Holds(b, at, x + y)
    ensures Holds(b, at, x) && Holds(b, at + |x|, y)
  {
    assert b[at..at + |x|] == (x + y)[..|x|] == x;
    assert b[at + |x|..at + |x| + |y|] == (x + y)[|x|..] == y;
  }

  lemma HoldsU16(b: Bytes, at: nat, h: Bytes, k: nat)
    requires Holds(b, at, h) && k + 2 <= |h|
    ensures U16(b, at + k) == U16(h, k)
  {
    assert b[at..at + |h|][k] == b[at + k] && b[at..at + |h|][k + 1] == b[at + k + 1];
  }

  lemma HoldsU32(b: Bytes, at: nat, h: Bytes, k: nat)
    requires Holds(b, at, h) && k + 4 <= |h|
    ensures U32(b, at + k) == U32(h, k)
  {
    HoldsU16(b, at, h, k);
    HoldsU16(b, at, h, k + 2);
  }

  // --- Chunks in a row -----------------------------------------------------------------------------------

  function Concat(chunks: seq<Bytes>): Bytes {
    if |chunks| == 0 then [] else Concat(chunks[..|chunks| - 1]) + chunks[|chunks| - 1]
  }

  function Start(chunks: seq<Bytes>, i: nat): nat
    requires i <= |chunks|
  {
    |Concat(chunks[..i])|
  }

  lemma StartStep(chunks: seq<Bytes>, i: nat)
    requires i < |chunks|
    ensures Start(chunks, i + 1) == Start(chunks, i) + |chunks[i]| && Start(chunks, 0) == 0
  {
    assert chunks[..i + 1][..i] == chunks[..i];
  }

  lemma {:induction false} ChunkInPlace(chunks: seq<Bytes>, i: nat)
    requires i < |chunks|
    ensures Holds(Concat(chunks), Start(chunks, i), chunks[i])
    decreases |chunks|
  {
    var init := chunks[..|chunks| - 1];
    assert Concat(chunks) == Concat(init) + chunks[|init|];
    if i == |init| {
      assert chunks[..i] == init;
    } else {
      ChunkInPlace(init, i);
      assert init[..i] == chunks[..i];
      assert Concat(chunks)[..|Concat(init)|] == Concat(init);
      var at := Start(chunks, i);
      assert Concat(chunks)[at..at + |chunks[i]|] == Concat(init)[at..at + |chunks[i]|];
    }
  }

  // --- The written archive ----------------------------------------------------------------------------------

  function LocalBytes(item: Item): Bytes
    requires Writable(item)
  {
    Words(LocalWords(item)) + (item.name + item.payload)
  }

  function CentralBytes(item: Item, localOffset: nat): Bytes
    requires Writable(item) && DoubleWord(localOffset)
  {
    Words(CentralWords(item, localOffset)) + item.name
  }

  predicate AllWritable(items: seq<Item>) {
    forall i | 0 <= i < |items| :: Writable(items[i])
  }

  function Locals(items: seq<Item>): seq<Bytes>
    requires AllWritable(items)
  {
    seq(|items|, i requires 0 <= i < |items| => LocalBytes(items[i]))
  }

  predicate OffsetsFit(items: seq<Item>)
    requires AllWritable(items)
  {
    forall i | 0 <= i < |items| :: DoubleWord(Start(Locals(items), i))
  }

  function Centrals(items: seq<Item>): seq<Bytes>
    requires AllWritable(items) && OffsetsFit(items)
  {
    seq(|items|, i requires 0 <= i < |items| => CentralBytes(items[i], Start(Locals(items), i)))
  }

  /** Everything fits its field. */
  predicate Storable(items: seq<Item>) {
    && |items| <= MAX_ENTRIES && AllWritable(items) && OffsetsFit(items)
    && DoubleWord(|Concat(Locals(items))|) && DoubleWord(|Concat(Centrals(items))|)
  }

  function Write(items: seq<Item>): Bytes
    requires Storable(items)
  {
    var locals, centrals := Concat(Locals(items)), Concat(Centrals(items));
    locals + centrals + Words(EndWords(|items|, |centrals|, |locals|))
  }

  /** An entry within the entry budget whose name is safe and reads as shown. */
  predicate Modest(item: Item, shown: Shown) {
    && SafeName(item.name, FlagsOf(item)).Some? && SafeName(item.name, FlagsOf(item)).value == shown.name
    && item.size == shown.size
    && item.size <= MAX_ENTRY_UNCOMPRESSED_BYTES && item.size <= MAX_COMPRESSION_RATIO * |item.payload|
  }

  // --- Reading it back -----------------------------------------------------------------------------------------

  lemma LocalIsOk(b: Bytes, dir: nat, item: Item, at: nat)
    requires Writable(item) && Holds(b, at, LocalBytes(item)) && at + |LocalBytes(item)| <= dir <= |b|
    ensures LocalOk(b, dir, CentralOf(item, at), item.name)
  {
    var h := Words(LocalWords(item));
    LocalHeaderReads(item);
    HoldsPart(b, at, h, item.name + item.payload);
    HoldsPart(b, at + 30, item.name, item.payload);
    HoldsU32(b, at, h, 0);
    HoldsU16(b, at, h, 6);
    HoldsU16(b, at, h, 8);
    HoldsU32(b, at, h, 18);
    HoldsU32(b, at, h, 22);
    HoldsU16(b, at, h, 26);
    HoldsU16(b, at, h, 28);
  }

  lemma CentralReads(b: Bytes, at: nat, h: Bytes)
    requires |h| == 46 && Holds(b, at, h)
    ensures ReadCentral(b, at) == ReadCentral(h, 0) && U32(b, at) == U32(h, 0)
  {
    HoldsU32(b, at, h, 0);
    HoldsU16(b, at, h, 8);
    HoldsU16(b, at, h, 10);
    HoldsU32(b, at, h, 20);
    HoldsU32(b, at, h, 24);
    HoldsU16(b, at, h, 28);
    HoldsU16(b, at, h, 30);
    HoldsU16(b, at, h, 32);
    HoldsU16(b, at, h, 34);
    HoldsU32(b, at, h, 42);
  }

  lemma ItemIsPlain(item: Item, localOffset: nat)
    requires Writable(item) && DoubleWord(localOffset)
    ensures PlainEntry(CentralOf(item, localOffset))
  {
  }

  /** An acceptable record, told from its header rather than its bytes. */
  lemma RecordFromHeader(b: Bytes, dir: nat, end: nat, at: nat, c: Central, name: Bytes, safe: Name)
    requires dir <= end <= |b| && at + 46 + |name| <= end
    requires U32(b, at) == CENTRAL_SIGNATURE && ReadCentral(b, at) == c && Holds(b, at + 46, name)
    requires PlainEntry(c) && WithinEntryBudget(c) && c.nameLength == |name| && c.extraLength == 0
    requires c.commentLength == 0
    requires SafeName(name, c.flags).Some? && SafeName(name, c.flags).value == safe && LocalOk(b, dir, c, name)
    ensures ReadsAt(b, dir, end, at, at + 46 + |name|, Shown(safe, c.uncompressedSize))
  {
    assert NameBytes(b, at, c) == name;
    assert Next(at, c) == at + 46 + |name|;
    assert RecordOk(b, dir, end, at);
  }

  predicate ReadsAt(b: Bytes, dir: nat, end: nat, at: nat, next: nat, shown: Shown)
    requires dir <= end <= |b|
  {
    var r := RecordAt(b, dir, end, at);
    r.Some? && r.value.next == next && r.value.name == shown.name && r.value.size == shown.size
  }

  lemma RecordReads(b: Bytes, dir: nat, end: nat, item: Item, shown: Shown, at: nat, localOffset: nat, c: Central)
    requires Writable(item) && Modest(item, shown) && DoubleWord(localOffset) && dir <= end <= |b|
    requires Holds(b, at, CentralBytes(item, localOffset)) && at + 46 + |item.name| <= end
    requires c == CentralOf(item, localOffset) && LocalOk(b, dir, c, item.name)
    ensures ReadsAt(b, dir, end, at, at + 46 + |item.name|, shown)
  {
    var h := Words(CentralWords(item, localOffset));
    CentralHeaderReads(item, localOffset, h);
    HoldsPart(b, at, h, item.name);
    CentralReads(b, at, h);
    ItemIsPlain(item, localOffset);
    assert WithinEntryBudget(c);
    RecordFromHeader(b, dir, end, at, c, item.name, shown.name);
  }

  /** What lies in one of three consecutive parts lies in the whole. */
  lemma HoldsInWhole(x: Bytes, y: Bytes, z: Bytes, at: nat, c: Bytes)
    ensures Holds(x, at, c) ==> Holds(x + y + z, at, c)
    ensures Holds(y, at, c) ==> Holds(x + y + z, |x| + at, c)
    ensures Holds(x + y + z, |x| + |y|, z)
  {
    var b := x + y + z;
    if Holds(x, at, c) { assert b[at..at + |c|] == x[at..at + |c|]; }
    if Holds(y, at, c) { assert b[|x| + at..|x| + at + |c|] == y[at..at + |c|]; }
  }

  /** The end record, told from the words it holds. */
  lemma EndReads(b: Bytes, e: nat, count: nat, dirSize: nat, dirOffset: nat)
    requires count <= MAX_ENTRIES && DoubleWord(dirSize) && DoubleWord(dirOffset) && dirOffset + dirSize == e
    requires Holds(b, e, Words(EndWords(count, dirSize, dirOffset))) && |b| == e + END_RECORD_BYTES
    ensures LastEnd(b, e) && EndOk(b, e) && U32(b, e + 16) == dirOffset && U16(b, e + 10) == count
  {
    var h := Words(EndWords(count, dirSize, dirOffset));
    EndRecordReads(count, dirSize, dirOffset);
    HoldsU32(b, e, h, 0);
    HoldsU16(b, e, h, 4);
    HoldsU16(b, e, h, 6);
    HoldsU16(b, e, h, 8);
    HoldsU16(b, e, h, 10);
    HoldsU32(b, e, h, 12);
    HoldsU32(b, e, h, 16);
    HoldsU16(b, e, h, 20);
    NoCommentMeansLast(b);
  }

  // --- Main result ------------------------------------------------------------------------------------------------

  /** Chunks of an archive in the writer's order: locals, then records, then the end record. */
  predicate LaidOut(items: seq<Item>, locals: seq<Bytes>, centrals: seq<Bytes>) {
    && AllWritable(items) && |locals| == |centrals| == |items|
    && forall i | 0 <= i < |items| :: ItemLaidOut(items[i], locals, centrals, i)
  }

  predicate ItemLaidOut(item: Item, locals: seq<Bytes>, centrals: seq<Bytes>, i: nat)
    requires i < |locals| == |centrals| && Writable(item)
  {
    && locals[i] == LocalBytes(item) && DoubleWord(Start(locals, i))
    && centrals[i] == CentralBytes(item, Start(locals, i))
  }

  /** Where the chunks of one entry lie in the whole. */
  lemma ChunksInWhole(locals: seq<Bytes>, centrals: seq<Bytes>, b: Bytes, z: Bytes, i: nat)
    requires i < |locals| == |centrals| && b == Concat(locals) + Concat(centrals) + z
    ensures Holds(b, Start(locals, i), locals[i]) && Start(locals, i) + |locals[i]| <= |Concat(locals)|
    ensures Holds(b, |Concat(locals)| + Start(centrals, i), centrals[i])
    ensures Start(centrals, i + 1) == Start(centrals, i) + |centrals[i]| <= |Concat(centrals)|
  {
    ChunkInPlace(locals, i);
    ChunkInPlace(centrals, i);
    HoldsInWhole(Concat(locals), Concat(centrals), z, Start(locals, i), locals[i]);
    HoldsInWhole(Concat(locals), Concat(centrals), z, Start(centrals, i), centrals[i]);
    StartStep(centrals, i);
  }

  lemma EntryReads(item: Item, shown: Shown, b: Bytes, dir: nat, end: nat, p: nat, q: nat, next: nat)
    requires Writable(item) && Modest(item, shown) && DoubleWord(p) && dir <= end <= |b|
    requires next == q + |CentralBytes(item, p)| <= end
    requires Holds(b, p, LocalBytes(item)) && p + |LocalBytes(item)| <= dir
    requires Holds(b, q, CentralBytes(item, p))
    ensures ReadsAt(b, dir, end, q, next, shown)
  {
    WordsLength(CentralWords(item, p));
    LocalIsOk(b, dir, item, p);
    RecordReads(b, dir, end, item, shown, q, p, CentralOf(item, p));
  }

  lemma LaidOutRecord(item: Item, shown: Shown, locals: seq<Bytes>, centrals: seq<Bytes>, b: Bytes, z: Bytes, i: nat,
      dir: nat, end: nat,
                      v: View, at: nat, next: nat)
    requires i < |locals| == |centrals| && Writable(item) && Modest(item, shown)
    requires ItemLaidOut(item, locals, centrals, i) && b == Concat(locals) + Concat(centrals) + z
    requires dir == |Concat(locals)| && end == dir + |Concat(centrals)| && Shows(b, dir, end, v)
    requires at == dir + Start(centrals, i) && next == dir + Start(centrals, i + 1)
    ensures Reads(v, at, next, shown)
  {
    ChunksInWhole(locals, centrals, b, z, i);
    EntryReads(item, shown, b, dir, end, Start(locals, i), at, next);
    ReadsThroughView(b, dir, end, v, at, next, shown);
  }

  predicate AllModest(items: seq<Item>, shown: seq<Shown>) {
    |shown| == |items| && forall i | 0 <= i < |items| :: Modest(items[i], shown[i])
  }

  lemma ReadsThroughView(b: Bytes, dir: nat, end: nat, v: View, at: nat, next: nat, shown: Shown)
    requires Shows(b, dir, end, v) && ReadsAt(b, dir, end, at, next, shown)
    ensures Reads(v, at, next, shown)
  {
  }

  lemma RecordsShow(b: Bytes, dir: nat, end: nat)
    requires dir <= end <= |b|
    ensures Shows(b, dir, end, Records(b, dir, end))
  {
  }

  function Offsets(dir: nat, centrals: seq<Bytes>): seq<nat> {
    seq(|centrals| + 1, i requires 0 <= i <= |centrals| => dir + Start(centrals, i))
  }

  lemma LaidOutDirectory(
      items: seq<Item>, shown: seq<Shown>, locals: seq<Bytes>, centrals: seq<Bytes>, b: Bytes, z: Bytes, dir: nat,
      end: nat,
      offs: seq<nat>, v: View)
    requires LaidOut(items, locals, centrals) && AllModest(items, shown) && b == Concat(locals) + Concat(centrals) + z
    requires dir == |Concat(locals)| && end == dir + |Concat(centrals)| && Shows(b, dir, end, v)
    requires offs == Offsets(dir, centrals)
    ensures Displays(v, offs, shown) && offs[0] == dir && offs[|items|] == end
  {
    forall i | 0 <= i < |items| ensures Reads(v, offs[i], offs[i + 1], shown[i]) {
      assert ItemLaidOut(items[i], locals, centrals, i) && Modest(items[i], shown[i]);
      LaidOutRecord(items[i], shown[i], locals, centrals, b, z, i, dir, end, v, offs[i], offs[i + 1]);
    }
    assert centrals[..0] == [] && centrals[..|items|] == centrals;
  }

  predicate Permitted(shown: seq<Shown>, parts: set<Name>) {
    DistinctlyNamed(shown) && TotalOf(shown) <= MAX_TOTAL_UNCOMPRESSED_BYTES && forall p <- parts :: Contains(shown, p)
  }

  /** The archive follows from its end record and directory. */
  lemma ArchiveFromParts(b: Bytes, e: nat, dir: nat, offs: seq<nat>, shown: seq<Shown>, v: View, parts: set<Name>)
    requires LastEnd(b, e) && EndOk(b, e) && U32(b, e + 16) == dir && U16(b, e + 10) == |shown|
    requires v == Records(b, dir, e)
    requires Displays(v, offs, shown) && offs[0] == dir && offs[|shown|] == e && Permitted(shown, parts)
    ensures Archive(b, e, offs, parts)
  {
    DisplayedDirectory(v, dir, e, |shown|, offs, shown, parts);
  }

  lemma LaidOutIsAccepted(
      items: seq<Item>, shown: seq<Shown>, locals: seq<Bytes>, centrals: seq<Bytes>, b: Bytes, z: Bytes,
      parts: set<Name>)
    requires LaidOut(items, locals, centrals) && AllModest(items, shown) && |items| <= MAX_ENTRIES
    requires DoubleWord(|Concat(locals)|) && DoubleWord(|Concat(centrals)|)
    requires z == Words(EndWords(|items|, |Concat(centrals)|, |Concat(locals)|))
    requires b == Concat(locals) + Concat(centrals) + z
    requires Permitted(shown, parts)
    ensures exists e, offs :: Archive(b, e, offs, parts)
  {
    var dir, size := |Concat(locals)|, |Concat(centrals)|;
    var end := dir + size;
    EndInPlace(Concat(locals), Concat(centrals), b, z, |items|);
    RecordsShow(b, dir, end);
    var v, offs := Records(b, dir, end), Offsets(dir, centrals);
    LaidOutDirectory(items, shown, locals, centrals, b, z, dir, end, offs, v);
    ArchiveFromParts(b, end, dir, offs, shown, v, parts);
  }

  lemma EndInPlace(x: Bytes, y: Bytes, b: Bytes, z: Bytes, count: nat)
    requires count <= MAX_ENTRIES && DoubleWord(|x|) && DoubleWord(|y|)
    requires z == Words(EndWords(count, |y|, |x|)) && b == x + y + z
    ensures var e := |x| + |y|;
            e <= |b| && LastEnd(b, e) && EndOk(b, e) && U32(b, e + 16) == |x| && U16(b, e + 10) == count
  {
    HoldsInWhole(x, y, z, 0, []);
    WordsLength(EndWords(count, |y|, |x|));
    EndReads(b, |x| + |y|, count, |y|, |x|);
  }

  /**
   Every archive written without a comment, within the budgets and with safe, distinct names and the required parts, is
   accepted.
   */
  lemma WrittenArchivesAreAccepted(items: seq<Item>, shown: seq<Shown>, parts: set<Name>)
    requires Storable(items) && AllModest(items, shown)
    requires Permitted(shown, parts)
    ensures exists e, offs :: Archive(Write(items), e, offs, parts)
  {
    assert LaidOut(items, Locals(items), Centrals(items));
    var locals, centrals := Locals(items), Centrals(items);
    var z := Words(EndWords(|items|, |Concat(centrals)|, |Concat(locals)|));
    LaidOutIsAccepted(items, shown, locals, centrals, Write(items), z, parts);
  }
}
