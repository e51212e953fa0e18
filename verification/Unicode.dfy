/**
 JavaScript strings and their UTF-8 form.

 A string is any sequence of UTF-16 code units. Encoding replaces each lone surrogate by U+FFFD, so
 two strings share their UTF-8 form exactly when they repair to the same well-formed string.
 */
module Unicode {
  type CodeUnit = c: int | 0 <= c < 0x1_0000
  type Text = seq<CodeUnit>
  type Byte = b: int | 0 <= b < 0x100

  predicate HighSurrogate(c: int) { 0xD800 <= c < 0xDC00 }
  predicate LowSurrogate(c: int) { 0xDC00 <= c < 0xE000 }
  predicate Surrogate(c: int) { 0xD800 <= c < 0xE000 }

  type Scalar = c: int | 0 <= c < 0x11_0000 && !Surrogate(c)

  const REPLACEMENT: CodeUnit := 0xFFFD

  predicate StartsPair(s: Text) {
    |s| > 1 && HighSurrogate(s[0]) && LowSurrogate(s[1])
  }

  predicate WellFormed(s: Text) {
    if |s| == 0 then true
    else if StartsPair(s) then WellFormed(s[2..])
    else !Surrogate(s[0]) && WellFormed(s[1..])
  }

  function Repair(s: Text): Text {
    if |s| == 0 then []
    else if StartsPair(s) then s[..2] + Repair(s[2..])
    else [if Surrogate(s[0]) then REPLACEMENT else s[0]] + Repair(s[1..])
  }

  function Scalars(s: Text): seq<Scalar> {
    if |s| == 0 then []
    else if StartsPair(s) then [0x1_0000 + (s[0] - 0xD800) * 0x400 + (s[1] - 0xDC00)] + Scalars(s[2..])
    else [if Surrogate(s[0]) then REPLACEMENT else s[0]] + Scalars(s[1..])
  }

  /** Each continuation byte carries the next six bits. */
  function EncodeScalar(c: Scalar): seq<Byte> {
    var shifted6: int := c / 0x40;
    var shifted12: int := shifted6 / 0x40;
    var shifted18: int := shifted12 / 0x40;
    if c < 0x80 then [c]
    else if c < 0x800 then [0xC0 + shifted6, 0x80 + c % 0x40]
    else if c < 0x1_0000 then [0xE0 + shifted12, 0x80 + shifted6 % 0x40, 0x80 + c % 0x40]
    else [0xF0 + shifted18, 0x80 + shifted12 % 0x40, 0x80 + shifted6 % 0x40, 0x80 + c % 0x40]
  }

  function EncodeScalars(p: seq<Scalar>): seq<Byte> {
    if |p| == 0 then [] else EncodeScalar(p[0]) + EncodeScalars(p[1..])
  }

  function Utf8(s: Text): seq<Byte> {
    EncodeScalars(Scalars(s))
  }

  // --- Scalars back to bytes -----------------------------------------------------------------

  /** The scalar whose encoding starts these bytes, if they are an encoding. */
  function HeadScalar(b: seq<Byte>): int
    requires |b| > 0
  {
    var tail := (i: nat) => if i < |b| then b[i] as int - 0x80 else 0;
    var lead: int := b[0];
    if lead < 0x80 then lead
    else if lead < 0xE0 then (lead - 0xC0) * 0x40 + tail(1)
    else if lead < 0xF0 then ((lead - 0xE0) * 0x40 + tail(1)) * 0x40 + tail(2)
    else (((lead - 0xF0) * 0x40 + tail(1)) * 0x40 + tail(2)) * 0x40 + tail(3)
  }

  lemma HeadOfEncoding(c: Scalar, rest: seq<Byte>)
    ensures |EncodeScalar(c)| > 0 && HeadScalar(EncodeScalar(c) + rest) == c
    ensures |EncodeScalar(c)| == ScalarLength(EncodeScalar(c)[0])
  {
  }

  function ScalarLength(lead: Byte): nat {
    if lead < 0x80 then 1 else if lead < 0xE0 then 2 else if lead < 0xF0 then 3 else 4
  }

  function DecodeScalars(b: seq<Byte>): seq<Scalar> {
    if |b| == 0 then []
    else
      var c := HeadScalar(b);
      [if 0 <= c < 0x11_0000 && !Surrogate(c) then c else REPLACEMENT]
      + (if ScalarLength(b[0]) <= |b| then DecodeScalars(b[ScalarLength(b[0])..]) else [])
  }

  lemma {:induction false} DecodeScalarsInverts(p: seq<Scalar>)
    ensures DecodeScalars(EncodeScalars(p)) == p
  {
    if |p| > 0 {
      var rest := EncodeScalars(p[1..]);
      HeadOfEncoding(p[0], rest);
      assert EncodeScalars(p)[|EncodeScalar(p[0])|..] == rest;
      DecodeScalarsInverts(p[1..]);
    }
  }

  // --- Scalars back to text --------------------------------------------------------------------

  function Units(p: seq<Scalar>): Text {
    if |p| == 0 then []
    else
      var c: int := p[0];
      (if c < 0x1_0000 then [c] else [0xD800 + (c - 0x1_0000) / 0x400, 0xDC00 + (c - 0x1_0000) % 0x400]) + Units(p[1..])
  }

  lemma {:induction false} UnitsOfScalars(s: Text)
    ensures Units(Scalars(s)) == Repair(s)
  {
    if |s| > 0 {
      if StartsPair(s) {
        UnitsOfScalars(s[2..]);
        assert s[..2] == [s[0], s[1]];
      } else {
        UnitsOfScalars(s[1..]);
      }
    }
  }

  /** What replacing a surrogate leaves at the front cannot pair up with what follows. */
  lemma {:induction false} ScalarsOfRepair(s: Text)
    ensures Scalars(Repair(s)) == Scalars(s)
  {
    if |s| > 0 {
      if StartsPair(s) {
        ScalarsOfRepair(s[2..]);
        assert Repair(s)[2..] == Repair(s[2..]);
      } else {
        ScalarsOfRepair(s[1..]);
        assert Repair(s)[1..] == Repair(s[1..]);
      }
    }
  }

  lemma {:induction false} RepairIsIdentityIff(s: Text)
    ensures Repair(s) == s <==> WellFormed(s)
  {
    if |s| > 0 {
      if StartsPair(s) {
        RepairIsIdentityIff(s[2..]);
        assert s == s[..2] + s[2..];
        assert Repair(s)[2..] == Repair(s[2..]);
      } else {
        RepairIsIdentityIff(s[1..]);
        assert s == [s[0]] + s[1..];
        assert Repair(s)[1..] == Repair(s[1..]);
        assert Surrogate(s[0]) ==> Repair(s)[0] != s[0];
      }
    }
  }

  function DecodeUtf8(b: seq<Byte>): Text {
    Units(DecodeScalars(b))
  }

  lemma DecodeUtf8Repairs(s: Text)
    ensures DecodeUtf8(Utf8(s)) == Repair(s)
  {
    DecodeScalarsInverts(Scalars(s));
    UnitsOfScalars(s);
  }

  /** Exactly which strings collide: those that differ only in their lone surrogates. */
  lemma Utf8EqualIff(s: Text, t: Text)
    ensures Utf8(s) == Utf8(t) <==> Repair(s) == Repair(t)
  {
    DecodeUtf8Repairs(s);
    DecodeUtf8Repairs(t);
    ScalarsOfRepair(s);
    ScalarsOfRepair(t);
  }

  // --- Trimming ---------------------------------------------------------------------------------

  predicate IsSpace(c: CodeUnit) {
    || 0x09 <= c <= 0x0D || c == 0x20 || c == 0xA0 || c == 0x1680 || 0x2000 <= c <= 0x200A
    || c == 0x2028 || c == 0x2029 || c == 0x202F || c == 0x205F || c == 0x3000 || c == 0xFEFF
  }

  function TrimStart(s: Text): Text {
    if |s| > 0 && IsSpace(s[0]) then TrimStart(s[1..]) else s
  }

  function TrimEnd(s: Text): Text {
    if |s| > 0 && IsSpace(s[|s| - 1]) then TrimEnd(s[..|s| - 1]) else s
  }

  function Trim(s: Text): Text {
    TrimEnd(TrimStart(s))
  }

  predicate Blank(s: Text) {
    forall i | 0 <= i < |s| :: IsSpace(s[i])
  }

  lemma {:induction false} TrimStartSkipsPadding(pad: Text, s: Text)
    requires Blank(pad)
    ensures TrimStart(pad + s) == TrimStart(s)
  {
    if |pad| == 0 {
      assert pad + s == s;
    } else {
      assert (pad + s)[1..] == pad[1..] + s;
      TrimStartSkipsPadding(pad[1..], s);
    }
  }

  lemma {:induction false} TrimEndSkipsPadding(s: Text, pad: Text)
    requires Blank(pad)
    ensures TrimEnd(s + pad) == TrimEnd(s)
  {
    if |pad| == 0 {
      assert s + pad == s;
    } else {
      var n := |pad| - 1;
      assert (s + pad)[..|s + pad| - 1] == s + pad[..n];
      TrimEndSkipsPadding(s, pad[..n]);
    }
  }

  lemma {:induction false} TrimStartOfPadded(s: Text, pad: Text)
    requires Blank(pad)
    ensures exists rest: Text :: Blank(rest) && TrimStart(s + pad) == TrimStart(s) + rest
  {
    if |s| > 0 && IsSpace(s[0]) {
      assert (s + pad)[1..] == s[1..] + pad;
      TrimStartOfPadded(s[1..], pad);
    } else if |s| > 0 {
      assert TrimStart(s + pad) == TrimStart(s) + pad;
    } else {
      assert s + pad == pad + [];
      TrimStartSkipsPadding(pad, []);
      assert TrimStart(s + pad) == TrimStart(s) + [];
    }
  }

  /** White space around a text does not matter after trimming. */
  lemma PaddingDoesNotMatter(before: Text, s: Text, after: Text)
    requires Blank(before) && Blank(after)
    ensures Trim(before + s + after) == Trim(s)
  {
    assert before + s + after == before + (s + after);
    TrimStartSkipsPadding(before, s + after);
    TrimStartOfPadded(s, after);
    var rest: Text :| Blank(rest) && TrimStart(s + after) == TrimStart(s) + rest;
    TrimEndSkipsPadding(TrimStart(s), rest);
  }

  /** `core` is `s` without the white space around it. */
  ghost predicate TrimsTo(s: Text, core: Text) {
    && (|core| > 0 ==> !IsSpace(core[0]) && !IsSpace(core[|core| - 1]))
    && exists before: Text, after: Text :: Blank(before) && Blank(after) && s == before + core + after
  }

  lemma {:induction false} TrimStartSplits(s: Text) returns (before: Text)
    ensures Blank(before) && s == before + TrimStart(s) && (|TrimStart(s)| > 0 ==> !IsSpace(TrimStart(s)[0]))
  {
    before := [];
    if |s| > 0 && IsSpace(s[0]) {
      before := TrimStartSplits(s[1..]);
      before := [s[0]] + before;
    }
  }

  lemma {:induction false} TrimEndSplits(s: Text) returns (after: Text)
    ensures Blank(after) && s == TrimEnd(s) + after
    ensures |TrimEnd(s)| > 0 ==> TrimEnd(s)[0] == s[0] && !IsSpace(TrimEnd(s)[|TrimEnd(s)| - 1])
  {
    after := [];
    if |s| > 0 && IsSpace(s[|s| - 1]) {
      after := TrimEndSplits(s[..|s| - 1]);
      after := after + [s[|s| - 1]];
    }
  }

  lemma TrimSplits(s: Text)
    ensures TrimsTo(s, Trim(s))
  {
    var before := TrimStartSplits(s);
    var after := TrimEndSplits(TrimStart(s));
    assert s == before + Trim(s) + after;
  }

  lemma PaddedTrimsTo(before: Text, core: Text, after: Text)
    requires Blank(before) && Blank(after) && (|core| > 0 ==> !IsSpace(core[0]) && !IsSpace(core[|core| - 1]))
    ensures Trim(before + core + after) == core
  {
    PaddingDoesNotMatter(before, core, after);
  }

  /** Trimming removes the white space around a text and nothing else. */
  lemma TrimIff(s: Text, core: Text)
    ensures Trim(s) == core <==> TrimsTo(s, core)
  {
    TrimSplits(s);
    if TrimsTo(s, core) {
      var before: Text, after: Text :| Blank(before) && Blank(after) && s == before + core + after;
      PaddedTrimsTo(before, core, after);
    }
  }

  // --- Order -----------------------------------------------------------------------------------

  /** The order of JavaScript's default sort: by code unit. */
  predicate Less(a: Text, b: Text) {
    |b| > 0 && (|a| == 0 || a[0] < b[0] || (a[0] == b[0] && Less(a[1..], b[1..])))
  }

  lemma {:induction false} LessIsTotal(a: Text, b: Text)
    ensures a == b || Less(a, b) || Less(b, a)
    ensures !(Less(a, b) && Less(b, a)) && !Less(a, a)
  {
    if |a| > 0 && |b| > 0 {
      LessIsTotal(a[1..], b[1..]);
      assert a == [a[0]] + a[1..] && b == [b[0]] + b[1..];
      LessIsTotal(a[1..], a[1..]);
    } else if |a| > 0 {
      LessIsTotal(a[1..], a[1..]);
    }
  }

  lemma {:induction false} LessIsTransitive(a: Text, b: Text, c: Text)
    requires Less(a, b) && Less(b, c)
    ensures Less(a, c)
  {
    if |a| > 0 && a[0] == b[0] && b[0] == c[0] {
      LessIsTransitive(a[1..], b[1..], c[1..]);
    }
  }
}
