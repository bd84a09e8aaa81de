/** UTF-8 to CP1251 into bounded buffers, and the panel text cut into chunks.

    A text is what a C string shows: bytes without a NUL, and the NUL right behind them. */
module Cp1251 {
  import opened Wrappers
  import opened Bytes

  type text = s: bytes | forall i :: 0 <= i < |s| ==> s[i] != 0

  const QUESTION: byte := 63

  /** Reading a C string: up to its NUL and no further. */
  function At(s: text, i: nat): byte
    requires i <= |s|
  {
    if i == |s| then 0 else s[i]
  }

  predicate Continuation(b: byte) { 0x80 <= b < 0xC0 }

  // ---------------------------------------------------------------------------
  // utf8_decode

  datatype Decoded = Decoded(cp: nat, len: nat)

  /** The code point at i and its length; 0 when there is none. */
  function Utf8Decode(s: text, i: nat): Decoded
    requires i <= |s|
  {
    var b0 := At(s, i);
    if b0 < 0x80 then Decoded(b0, 1)
    else if 0xC0 <= b0 < 0xE0 && Continuation(At(s, i + 1)) then
      var cp := 0x40 * (b0 - 0xC0) + (At(s, i + 1) - 0x80);
      Decoded(if cp < 0x80 then 0 else cp, 2)
    else if 0xE0 <= b0 < 0xF0 && Continuation(At(s, i + 1)) && Continuation(At(s, i + 2)) then
      var cp := 0x1000 * (b0 - 0xE0) + 0x40 * (At(s, i + 1) - 0x80) + (At(s, i + 2) - 0x80);
      Decoded(if cp < 0x800 then 0 else cp, 3)
    else Decoded(0, 0)
  }

  // ---------------------------------------------------------------------------
  // Section 3 of RFC 3629, one to three bytes

  predicate Encodable(cp: nat) { 0 < cp < 0x1_0000 }

  type CodePoints = c: seq<nat> | forall i :: 0 <= i < |c| ==> Encodable(c[i])

  function Encode(cp: nat): (s: text)
    requires Encodable(cp)
    ensures 1 <= |s| <= 3 && (cp < 0x80 <==> s == [cp]) && (cp >= 0x80 ==> s[0] >= 0x80)
  {
    if cp < 0x80 then [cp]
    else if cp < 0x800 then [0xC0 + cp / 0x40, 0x80 + cp % 0x40]
    else [0xE0 + cp / 0x1000, 0x80 + cp / 0x40 % 0x40, 0x80 + cp % 0x40]
  }

  function EncodeAll(cps: CodePoints): text {
    if cps == [] then [] else Encode(cps[0]) + EncodeAll(cps[1..])
  }

  /** Decoding inverts encoding, whatever follows. */
  lemma DecodesEncoded(cp: nat, before: text, after: text)
    requires Encodable(cp)
    ensures Utf8Decode(before + Encode(cp) + after, |before|) == Decoded(cp, |Encode(cp)|)
  {
    var s, e, n := before + Encode(cp) + after, Encode(cp), |before|;
    assert s[n] == e[0];
    if cp >= 0x80 { assert s[n + 1] == e[1]; }
    if cp >= 0x800 {
      assert s[n + 2] == e[2];
      assert cp == 0x1000 * (cp / 0x1000) + 0x40 * (cp / 0x40 % 0x40) + cp % 0x40;
    }
  }

  lemma Digits64(a: nat, b: nat, c: nat)
    requires a < 0x10 && b < 0x40 && c < 0x40
    ensures var n := 0x1000 * a + 0x40 * b + c; n / 0x1000 == a && n / 0x40 % 0x40 == b && n % 0x40 == c
  {
    var n := 0x1000 * a + 0x40 * b + c;
    assert n / 0x40 == 0x40 * a + b;
  }

  /** What decodes is an encoding, in its shortest form. */
  lemma DecodedIsEncoded(s: text, i: nat)
    requires i < |s| && Utf8Decode(s, i).cp != 0
    ensures var d := Utf8Decode(s, i);
      Encodable(d.cp) && i + d.len <= |s| && d.len == |Encode(d.cp)| && s[i..i + d.len] == Encode(d.cp)
  {
    var d := Utf8Decode(s, i);
    if d.len == 2 {
      assert s[i..i + 2] == [s[i], s[i + 1]];
      assert d.cp / 0x40 == s[i] - 0xC0 && d.cp % 0x40 == s[i + 1] - 0x80;
    } else if d.len == 3 {
      assert s[i..i + 3] == [s[i], s[i + 1], s[i + 2]];
      Digits64(s[i] - 0xE0, s[i + 1] - 0x80, s[i + 2] - 0x80);
    }
  }

  // ---------------------------------------------------------------------------
  // The code page

  /** cp1251_of: 0 for what it does not know. */
  function Cp1251Of(cp: nat): byte {
    if 0x0410 <= cp <= 0x044F then 0xC0 + (cp - 0x0410)
    else match cp
      case 0x0401 => 0xA8
      case 0x0451 => 0xB8
      case 0x0490 => 0xA5
      case 0x0491 => 0xB4
      case 0x00AB => 0xAB
      case 0x00BB => 0xBB
      case 0x2013 => 0x96
      case 0x2014 => 0x97
      case 0x2026 => 0x85
      case 0x2116 => 0xB9
      case 0x00A0 => 0x20
      case _ => 0
  }

  /** What a byte of the Windows code page stands for; 0x98 stands for nothing. */
  function CodePage(b: byte): nat {
    if b < 0x80 then b else if b < 0xC0 then Special(b) else b - 0xC0 + 0x0410
  }

  /** The code page between ASCII and the Russian letters. */
  function Special(b: byte): nat {
    match b
      case 0x80 => 0x0402 case 0x81 => 0x0403 case 0x82 => 0x201A case 0x83 => 0x0453
      case 0x84 => 0x201E case 0x85 => 0x2026 case 0x86 => 0x2020 case 0x87 => 0x2021
      case 0x88 => 0x20AC case 0x89 => 0x2030 case 0x8A => 0x0409 case 0x8B => 0x2039
      case 0x8C => 0x040A case 0x8D => 0x040C case 0x8E => 0x040B case 0x8F => 0x040F
      case 0x90 => 0x0452 case 0x91 => 0x2018 case 0x92 => 0x2019 case 0x93 => 0x201C
      case 0x94 => 0x201D case 0x95 => 0x2022 case 0x96 => 0x2013 case 0x97 => 0x2014
      case 0x99 => 0x2122 case 0x9A => 0x0459 case 0x9B => 0x203A
      case 0x9C => 0x045A case 0x9D => 0x045C case 0x9E => 0x045B case 0x9F => 0x045F
      case 0xA0 => 0x00A0 case 0xA1 => 0x040E case 0xA2 => 0x045E case 0xA3 => 0x0408
      case 0xA4 => 0x00A4 case 0xA5 => 0x0490 case 0xA6 => 0x00A6 case 0xA7 => 0x00A7
      case 0xA8 => 0x0401 case 0xA9 => 0x00A9 case 0xAA => 0x0404 case 0xAB => 0x00AB
      case 0xAC => 0x00AC case 0xAD => 0x00AD case 0xAE => 0x00AE case 0xAF => 0x0407
      case 0xB0 => 0x00B0 case 0xB1 => 0x00B1 case 0xB2 => 0x0406 case 0xB3 => 0x0456
      case 0xB4 => 0x0491 case 0xB5 => 0x00B5 case 0xB6 => 0x00B6 case 0xB7 => 0x00B7
      case 0xB8 => 0x0451 case 0xB9 => 0x2116 case 0xBA => 0x0454 case 0xBB => 0x00BB
      case 0xBC => 0x0458 case 0xBD => 0x0405 case 0xBE => 0x0455 case 0xBF => 0x0457
      case _ => 0
  }

  /** The places between 0x80 and 0xBF the conversion knows. */
  predicate Known(b: byte) { b in {0x85, 0x96, 0x97, 0xA5, 0xA8, 0xAB, 0xB4, 0xB8, 0xB9, 0xBB} }

  /** The byte a code point becomes. */
  function ByteOf(cp: nat): byte
    requires Encodable(cp)
  {
    if cp < 0x80 then cp else if Cp1251Of(cp) != 0 then Cp1251Of(cp) else QUESTION
  }

  function BytesOf(cps: CodePoints): text { seq(|cps|, i requires 0 <= i < |cps| => ByteOf(cps[i])) }

  /** A code point becomes its own place in the code page, or a question mark; a no-break space becomes a space. */
  lemma ByteOfIsRight(cp: nat)
    requires Encodable(cp)
    ensures ByteOf(cp) != 0
    ensures CodePage(ByteOf(cp)) == cp || (cp == 0xA0 && ByteOf(cp) == 32) || (cp >= 0x80 && ByteOf(cp) == 63)
  {
  }

  /** Of what the code page can show above ASCII, exactly the letters from 0xC0 and ten more places are converted; the
      rest, Ukrainian and Serbian letters among it, is lost although it has a place. */
  lemma ConvertsExactly(b: byte)
    requires b >= 0x80 && b != 0x98
    ensures Encodable(CodePage(b))
    ensures ByteOf(CodePage(b)) == if b >= 0xC0 || Known(b) then b else if b == 0xA0 then 32 else 63
  {
  }

  // ---------------------------------------------------------------------------
  // What a text becomes

  ghost predicate IsUtf8(s: text) { exists cps: CodePoints :: EncodeAll(cps) == s }

  /** The code points from i on, if the rest of the text is all encodings. */
  function ReadAll(s: text, i: nat): Option<CodePoints>
    requires i <= |s|
    decreases |s| - i
  {
    if i == |s| then Some([])
    else
      var d := Utf8Decode(s, i);
      if d.cp == 0 then None
      else
        DecodedIsEncoded(s, i);
        match ReadAll(s, i + d.len)
        case None => None
        case Some(rest) => Some([d.cp] + rest)
  }

  /** Accepted is exactly what consists of one- to three-byte encodings, and it is read as those. */
  lemma {:induction false} ReadsEncoded(cps: CodePoints, before: text)
    ensures ReadAll(before + EncodeAll(cps), |before|) == Some(cps)
    decreases |cps|
  {
    if cps == [] {
      assert before + [] == before;
    } else {
      var e, rest := Encode(cps[0]), EncodeAll(cps[1..]);
      Regroup(before, e, rest);
      DecodesEncoded(cps[0], before, rest);
      ReadsEncoded(cps[1..], before + e);
      ReadStep(before + e + rest, |before|, cps[0], |e|, cps[1..]);
      assert [cps[0]] + cps[1..] == cps;
    }
  }

  lemma Regroup(a: text, b: text, c: text)
    ensures a + (b + c) == a + b + c
  {
  }

  lemma ReadStep(s: text, i: nat, cp: nat, len: nat, rest: CodePoints)
    requires i < |s| && Utf8Decode(s, i) == Decoded(cp, len) && Encodable(cp)
    requires i + len <= |s| && ReadAll(s, i + len) == Some(rest)
    ensures ReadAll(s, i) == Some([cp] + rest)
  {
  }

  lemma {:induction false} ReadIsEncoded(s: text, i: nat)
    requires i <= |s| && ReadAll(s, i).Some?
    ensures s[i..] == EncodeAll(ReadAll(s, i).value)
    decreases |s| - i
  {
    if i < |s| {
      var d := Utf8Decode(s, i);
      DecodedIsEncoded(s, i);
      ReadIsEncoded(s, i + d.len);
      var rest := ReadAll(s, i + d.len).value;
      assert ([d.cp] + rest)[1..] == rest;
      assert s[i..] == s[i..i + d.len] + s[i + d.len..];
    }
  }

  lemma AcceptedExactly(s: text)
    ensures ReadAll(s, 0).Some? <==> IsUtf8(s)
  {
    if cps: CodePoints :| EncodeAll(cps) == s {
      ReadsEncoded(cps, []);
      assert [] + s == s;
    }
    if ReadAll(s, 0).Some? {
      ReadIsEncoded(s, 0);
      assert s[0..] == s;
    }
  }

  /** One byte per code point when the text is UTF-8; the text as it is otherwise. */
  function Converted(s: text): text {
    match ReadAll(s, 0)
    case Some(cps) => BytesOf(cps)
    case None => s
  }

  /** Anything that is not a row of such encodings goes out as it is. */
  lemma OthersStay(s: text)
    requires forall cps: CodePoints :: EncodeAll(cps) != s
    ensures Converted(s) == s
  {
    AcceptedExactly(s);
  }

  lemma ConvertsEncoded(cps: CodePoints)
    ensures Converted(EncodeAll(cps)) == BytesOf(cps)
  {
    ReadsEncoded(cps, []);
    assert [] + EncodeAll(cps) == EncodeAll(cps);
  }

  lemma {:induction false} ReadShorter(s: text, i: nat)
    requires i <= |s| && ReadAll(s, i).Some?
    ensures |ReadAll(s, i).value| <= |s| - i
    decreases |s| - i
  {
    if i < |s| {
      DecodedIsEncoded(s, i);
      ReadShorter(s, i + Utf8Decode(s, i).len);
    }
  }

  /** Converting never makes a text longer. */
  lemma NeverGrows(s: text)
    ensures |Converted(s)| <= |s|
  {
    if ReadAll(s, 0).Some? { ReadShorter(s, 0); }
  }

  /** Surrogates, which UTF-8 does not encode, are accepted all the same. */
  lemma SurrogatesAccepted()
    ensures Converted([0xED, 0xA0, 0x80]) == [QUESTION]
  {
    assert Encode(0xD800) == [0xED, 0xA0, 0x80];
    assert [0xD800][1..] == [];
    assert EncodeAll([0xD800]) == [0xED, 0xA0, 0x80];
    ConvertsEncoded([0xD800]);
  }

  // ---------------------------------------------------------------------------
  // What section 3 of RFC 3629 allows

  predicate Surrogate(cp: nat) { 0xD800 <= cp < 0xE000 }

  predicate Scalar(cp: nat) { 0 < cp < 0x11_0000 && !Surrogate(cp) }

  /** One to four bytes. */
  function EncodeScalar(cp: nat): (s: text)
    requires Scalar(cp)
  {
    if cp < 0x1_0000 then Encode(cp)
    else [0xF0 + cp / 0x4_0000, 0x80 + cp / 0x1000 % 0x40, 0x80 + cp / 0x40 % 0x40, 0x80 + cp % 0x40]
  }

  type Scalars = c: seq<nat> | forall i :: 0 <= i < |c| ==> Scalar(c[i])

  function EncodeScalars(cps: Scalars): text {
    if cps == [] then [] else EncodeScalar(cps[0]) + EncodeScalars(cps[1..])
  }

  ghost predicate Rfc3629(s: text) { exists cps: Scalars :: EncodeScalars(cps) == s }

  lemma {:induction false} ThreeBytesDo(cps: Scalars)
    requires forall i :: 0 <= i < |cps| ==> cps[i] < 0x1_0000
    ensures EncodeScalars(cps) == EncodeAll(cps)
  {
    if cps != [] { ThreeBytesDo(cps[1..]); }
  }

  /** Four bytes are never taken for a code point. */
  lemma {:induction false} AcceptedShort(cps: Scalars, before: text)
    requires ReadAll(before + EncodeScalars(cps), |before|).Some?
    ensures forall i :: 0 <= i < |cps| ==> cps[i] < 0x1_0000
    decreases |cps|
  {
    if cps != [] {
      var e, rest := EncodeScalar(cps[0]), EncodeScalars(cps[1..]);
      Regroup(before, e, rest);
      var s := before + e + rest;
      assert s[|before|] == e[0];
      assert cps[0] < 0x1_0000;
      DecodesEncoded(cps[0], before, rest);
      AcceptedShort(cps[1..], before + e);
    }
  }

  /** A text of encoded scalar values is taken for UTF-8 exactly when none of them needs four bytes. */
  lemma ShortScalarsAccepted(cps: Scalars)
    ensures ReadAll(EncodeScalars(cps), 0).Some? <==> forall i :: 0 <= i < |cps| ==> cps[i] < 0x1_0000
  {
    assert [] + EncodeScalars(cps) == EncodeScalars(cps);
    if ReadAll(EncodeScalars(cps), 0).Some? { AcceptedShort(cps, []); }
    if forall i :: 0 <= i < |cps| ==> cps[i] < 0x1_0000 {
      ThreeBytesDo(cps);
      ReadsEncoded(cps, []);
    }
  }

  /** What is taken for UTF-8 is UTF-8 exactly when no surrogate is encoded in it. */
  lemma AcceptedWrongly(s: text)
    requires ReadAll(s, 0).Some?
    ensures Rfc3629(s) <==> forall i :: 0 <= i < |ReadAll(s, 0).value| ==> !Surrogate(ReadAll(s, 0).value[i])
  {
    var read := ReadAll(s, 0).value;
    ReadIsEncoded(s, 0);
    assert s[0..] == s;
    if cps: Scalars :| EncodeScalars(cps) == s {
      ShortScalarsAccepted(cps);
      ThreeBytesDo(cps);
      ReadsEncoded(cps, []);
      assert [] + s == s;
    }
    if forall i :: 0 <= i < |read| ==> !Surrogate(read[i]) {
      var cps: Scalars := read;
      ThreeBytesDo(cps);
    }
  }

  /** Plain ASCII is its own conversion. */
  lemma {:induction false} AsciiStays(s: text, i: nat)
    requires i <= |s| && forall j :: i <= j < |s| ==> s[j] < 0x80
    ensures ReadAll(s, i).Some? && BytesOf(ReadAll(s, i).value) == s[i..]
    decreases |s| - i
  {
    if i < |s| {
      AsciiStays(s, i + 1);
      var rest := ReadAll(s, i + 1).value;
      assert BytesOf([s[i]] + rest) == [s[i]] + BytesOf(rest);
      assert s[i..] == [s[i]] + s[i + 1..];
    }
  }

  // ---------------------------------------------------------------------------
  // Into a buffer

  /** As much from the front as there is room for. */
  function Cut(s: text, room: nat): (t: text)
    ensures t <= s && |t| == if |s| < room then |s| else room
  {
    if |s| <= room then s else s[..room]
  }

  /** out holds t as a C string. */
  ghost predicate CString(out: array<byte>, t: text)
    reads out
  {
    |t| < out.Length && out[..|t|] == t && out[|t|] == 0
  }

  /** snprintf(out, outsz, "%s", in) */
  method CopyCut(s: text, out: array<byte>, outsz: nat)
    requires 0 < outsz <= out.Length
    modifies out
    ensures CString(out, Cut(s, outsz - 1))
  {
    var w := 0;
    while w < |s| && w + 1 < outsz
      invariant w <= |s| && w < outsz
      invariant out[..w] == s[..w]
    {
      out[w] := s[w];
      w := w + 1;
    }
    out[w] := 0;
  }

  /** to_cp1251: looks the text over first, and leaves it alone unless all of it is UTF-8. */
  method ToCp1251(s: text, out: array<byte>, outsz: nat)
    requires 0 < outsz <= out.Length
    modifies out
    ensures CString(out, Cut(Converted(s), outsz - 1))
  {
    var multibyte, valid := LookOver(s);
    if !valid {
      CopyCut(s, out, outsz);
    } else if !multibyte {
      AsciiStays(s, 0);
      assert s[0..] == s;
      CopyCut(s, out, outsz);
    } else {
      WriteBytes(s, out, outsz);
    }
  }

  method LookOver(s: text) returns (multibyte: bool, valid: bool)
    ensures valid == ReadAll(s, 0).Some?
    ensures valid && !multibyte ==> forall j :: 0 <= j < |s| ==> s[j] < 0x80
  {
    multibyte, valid := false, true;
    var i := 0;
    while At(s, i) != 0
      invariant i <= |s| && ReadAll(s, i).Some? == ReadAll(s, 0).Some?
      invariant !multibyte ==> forall j :: 0 <= j < i ==> s[j] < 0x80
      decreases |s| - i
    {
      if s[i] < 0x80 { i := i + 1; continue; }
      var d := Utf8Decode(s, i);
      if d.cp == 0 { return multibyte, false; }
      DecodedIsEncoded(s, i);
      multibyte := true;
      i := i + d.len;
    }
  }

  method WriteBytes(s: text, out: array<byte>, outsz: nat)
    requires 0 < outsz <= out.Length && ReadAll(s, 0).Some?
    modifies out
    ensures CString(out, Cut(Converted(s), outsz - 1))
  {
    ghost var all, done: bytes := BytesOf(ReadAll(s, 0).value), [];
    WritingStarts(s);
    var i, w := 0, 0;
    while At(s, i) != 0 && w + 1 < outsz
      invariant Writing(s, all, i, done) && |done| == w < outsz && out[..w] == done
      decreases |s| - i
    {
      var b;
      i, b := MapOne(s, i, all, done);
      out[w] := b;
      done := done + [b];
      w := w + 1;
    }
    WritingEnds(s, all, i, done, outsz - 1);
    out[w] := 0;
  }

  /** The byte for the code point at i, and where the next one starts. */
  method MapOne(s: text, i: nat, ghost all: bytes, ghost done: bytes) returns (next: nat, b: byte)
    requires Writing(s, all, i, done) && i < |s|
    ensures i < next && Writing(s, all, next, done + [b])
  {
    WritingStep(s, all, i, done);
    var d := Utf8Decode(s, i);
    var mapped := Cp1251Of(d.cp);
    b := if d.cp < 0x80 then d.cp else if mapped != 0 then mapped else QUESTION;
    next := i + d.len;
  }

  /** Everything before i has been written as `done`. */
  ghost predicate Writing(s: text, all: bytes, i: nat, done: bytes) {
    i <= |s| && ReadAll(s, i).Some? && all == done + BytesOf(ReadAll(s, i).value)
  }

  lemma WritingStarts(s: text)
    requires ReadAll(s, 0).Some?
    ensures Writing(s, BytesOf(ReadAll(s, 0).value), 0, [])
  {
  }

  lemma WritingStep(s: text, all: bytes, i: nat, done: bytes)
    requires Writing(s, all, i, done) && i < |s|
    ensures var d := Utf8Decode(s, i); Encodable(d.cp) && d.len > 0 && Writing(s, all, i + d.len, done + [ByteOf(d.cp)])
  {
    BytesStep(s, i);
    OneMore(done, BytesOf(ReadAll(s, i).value), ByteOf(Utf8Decode(s, i).cp));
  }

  lemma WritingEnds(s: text, all: text, i: nat, done: bytes, room: nat)
    requires Writing(s, all, i, done) && |done| <= room && (i == |s| || |done| == room)
    ensures Cut(all, room) == done
  {
    CutIs(done, BytesOf(ReadAll(s, i).value), room);
  }

  lemma OneMore(done: bytes, left: bytes, b: byte)
    requires left != [] && left[0] == b
    ensures done + left == done + [b] + left[1..]
  {
  }

  lemma CutIs(done: bytes, left: bytes, room: nat)
    requires |done| == room || (left == [] && |done| <= room)
    ensures (if |done + left| <= room then done + left else (done + left)[..room]) == done
  {
  }

  /** The byte for the code point at i, and what comes after it. */
  lemma BytesStep(s: text, i: nat)
    requires i < |s| && ReadAll(s, i).Some?
    ensures var d := Utf8Decode(s, i); var left := BytesOf(ReadAll(s, i).value);
      && Encodable(d.cp) && i + d.len <= |s| && ReadAll(s, i + d.len).Some?
      && left != [] && left[0] == ByteOf(d.cp) && BytesOf(ReadAll(s, i + d.len).value) == left[1..]
  {
    DecodedIsEncoded(s, i);
    BytesCons(Utf8Decode(s, i).cp, ReadAll(s, i + Utf8Decode(s, i).len).value);
  }

  lemma BytesCons(cp: nat, rest: CodePoints)
    requires Encodable(cp)
    ensures var cps: CodePoints := [cp] + rest; BytesOf(cps)[0] == ByteOf(cp) && BytesOf(cps)[1..] == BytesOf(rest)
  {
  }

  /** prepare: a bounded copy, converted if the server asks for it, with the newline the protocol wants. */
  method Prepare(s: text, out: array<byte>, outsz: nat, cp1251: bool, newline: bool)
    requires (if newline then 1 else 0) < outsz <= out.Length
    modifies out
    ensures var t := if cp1251 then Converted(s) else s;
      CString(out, if newline then Cut(t, outsz - 2) + [LF] else Cut(t, outsz - 1))
  {
    var room := if newline then outsz - 1 else outsz;
    ghost var t := Cut(if cp1251 then Converted(s) else s, room - 1);
    if cp1251 { ToCp1251(s, out, room); } else { CopyCut(s, out, room); }
    if newline { AppendNewline(out, t); }
  }

  /** strlen */
  method Length(out: array<byte>, ghost t: text) returns (len: nat)
    requires CString(out, t)
    ensures len == |t|
  {
    assert forall k :: 0 <= k < |t| ==> out[..|t|][k] == t[k];
    len := 0;
    while out[len] != 0
      invariant len <= |t|
      invariant forall k :: 0 <= k < |t| ==> out[k] == t[k]
      decreases |t| - len
    {
      len := len + 1;
    }
  }

  method AppendNewline(out: array<byte>, ghost t: text)
    requires CString(out, t) && |t| + 1 < out.Length
    modifies out
    ensures CString(out, t + [LF])
  {
    var len := Length(out, t);
    out[len] := LF;
    out[len + 1] := 0;
    assert out[..len] == t;
    assert out[..len + 1] == out[..len] + [LF];
  }

  /** cslua_text_for_client: a buffer of the text's own size is always enough. */
  method TextForClient(s: text, cp1251: bool) returns (r: text)
    ensures r == if cp1251 then Converted(s) else s
  {
    if !cp1251 { return s; }
    var buf := new byte[|s| + 1];
    ToCp1251(s, buf, buf.Length);
    NeverGrows(s);
    var len := Length(buf, Converted(s));
    r := buf[..len];
  }

  // ---------------------------------------------------------------------------
  // The panel: chunks

  const MAX_MOTD_CHUNK := 60
  const MAX_MOTD_LENGTH := 1536

  datatype Chunk = Chunk(last: bool, part: bytes)

  function Content(chunks: seq<Chunk>): bytes {
    if chunks == [] then [] else Content(chunks[..|chunks| - 1]) + chunks[|chunks| - 1].part
  }

  /** Full chunks, none of them marked: the text so far. */
  ghost predicate Sending(chunks: seq<Chunk>, text: bytes, sent: nat) {
    && sent <= |text| && Content(chunks) == text[..sent]
    && forall i :: 0 <= i < |chunks| ==> !chunks[i].last && |chunks[i].part| == MAX_MOTD_CHUNK
  }

  /** The whole text in order, in full chunks but for the last, which alone is marked. */
  ghost predicate Sent(chunks: seq<Chunk>, text: bytes) {
    && chunks != [] && Content(chunks) == text
    && (forall i :: 0 <= i < |chunks| - 1 ==> !chunks[i].last && |chunks[i].part| == 60)
    && var final := chunks[|chunks| - 1];
      final.last && |final.part| <= 60 && (text != [] ==> final.part != [])
  }

  lemma SendNext(chunks: seq<Chunk>, text: bytes, sent: nat, chunk: nat)
    requires Sending(chunks, text, sent) && sent + chunk <= |text|
    ensures chunk == MAX_MOTD_CHUNK ==> Sending(chunks + [Chunk(false, text[sent..sent + chunk])], text, sent + chunk)
    ensures sent + chunk == |text| && chunk <= MAX_MOTD_CHUNK && (text != [] ==> chunk > 0) ==>
              Sent(chunks + [Chunk(true, text[sent..sent + chunk])], text)
  {
    assert forall c: Chunk :: (chunks + [c])[..|chunks|] == chunks;
    assert text[..sent + chunk] == text[..sent] + text[sent..sent + chunk];
    assert text[..|text|] == text;
  }

  /** What one player is sent: never more than fits the panel, and at least one chunk. */
  method SendMotd(encoded: bytes) returns (chunks: seq<Chunk>)
    ensures Sent(chunks, if |encoded| > 1536 then encoded[..1536] else encoded)
  {
    var text := if |encoded| > MAX_MOTD_LENGTH then encoded[..MAX_MOTD_LENGTH] else encoded;
    var sent, done := 0, false;
    chunks := [];
    while !done
      invariant 0 <= sent <= |text|
      invariant if done then Sent(chunks, text) else Sending(chunks, text, sent) && (sent < |text| || text == [])
      decreases |text| - sent, !done
    {
      var chunk := |text| - sent;
      var last := chunk <= MAX_MOTD_CHUNK;
      if !last { chunk := MAX_MOTD_CHUNK; }
      SendNext(chunks, text, sent, chunk);
      chunks := chunks + [Chunk(last, text[sent..sent + chunk])];
      sent := sent + chunk;
      done := sent >= |text|;
    }
  }
}
