/** Byte strings and the C library calls the module makes on them. */
module Bytes {
  import Numerals

  type byte = b: int | 0 <= b < 256
  type bytes = seq<byte>

  const CR: byte := 13
  const LF: byte := 10
  const SP: byte := 32
  const TAB: byte := 9

  ghost predicate FoundAt(s: bytes, c: byte, from: nat, i: nat) {
    from <= i <= |s| && (i < |s| ==> s[i] == c) && forall j :: from <= j < i ==> s[j] != c
  }

  lemma {:induction false} FoundSomewhere(s: bytes, c: byte, from: nat)
    requires from <= |s|
    ensures exists i :: FoundAt(s, c, from, i)
    decreases |s| - from
  {
    if from == |s| || s[from] == c {
      assert FoundAt(s, c, from, from);
    } else {
      FoundSomewhere(s, c, from + 1);
      var i :| FoundAt(s, c, from + 1, i);
      assert FoundAt(s, c, from, i);
    }
  }

  /** std::string::find(c, from), with |s| for npos. */
  ghost function Find(s: bytes, c: byte, from: nat): (i: nat)
    requires from <= |s|
    ensures FoundAt(s, c, from, i)
  {
    FoundSomewhere(s, c, from);
    var i: nat :| FoundAt(s, c, from, i);
    i
  }

  lemma FindIs(s: bytes, c: byte, from: nat, i: nat)
    requires from <= i < |s| && s[i] == c && forall j :: from <= j < i ==> s[j] != c
    ensures Find(s, c, from) == i
  {
  }

  lemma FindNone(s: bytes, c: byte)
    requires c !in s
    ensures Find(s, c, 0) == |s|
  {
  }

  function ToUpper(b: byte): byte { if 97 <= b <= 122 then b - 32 else b }

  function Upper(s: bytes): bytes { seq(|s|, i requires 0 <= i < |s| => ToUpper(s[i])) }

  predicate Blank(b: byte) { b == SP || b == TAB }

  /** Without the spaces and tabs at either end. */
  function Trim(s: bytes): bytes {
    if s == [] then [] else if Blank(s[0]) then Trim(s[1..])
    else if Blank(s[|s| - 1]) then Trim(s[..|s| - 1]) else s
  }

  /** Whatever spaces and tabs stand around it, they are what is taken off. */
  lemma {:induction false} TrimPads(a: bytes, t: bytes, b: bytes)
    requires forall i :: 0 <= i < |a| ==> a[i] == 32 || a[i] == 9
    requires forall i :: 0 <= i < |b| ==> b[i] == 32 || b[i] == 9
    requires t != [] ==> t[0] != 32 && t[0] != 9 && t[|t| - 1] != 32 && t[|t| - 1] != 9
    ensures Trim(a + t + b) == t
    decreases |a| + |b|
  {
    var s := a + t + b;
    if a != [] {
      assert s[0] == a[0] && s[1..] == a[1..] + t + b;
      TrimPads(a[1..], t, b);
    } else if b != [] {
      var n := |b| - 1;
      assert s[|s| - 1] == b[n] && s[..|s| - 1] == a + t + b[..n];
      if t == [] {
        assert s[0] == b[0] && s[1..] == a + t + b[1..];
        TrimPads(a, t, b[1..]);
      } else {
        TrimPads(a, t, b[..n]);
      }
    }
  }

  /** The part a C string shows: up to the first NUL. */
  ghost function CStr(s: bytes): bytes { s[..Find(s, 0, 0)] }

  predicate IsSpace(b: byte) { b == SP || 9 <= b <= 13 }

  predicate IsDigit(b: byte) { 48 <= b <= 57 }

  const ULONG_MAX: nat := 0xFFFF_FFFF

  /** The value of the leading digits of s, after `n`. */
  function Digits(s: bytes, n: nat): nat {
    if s == [] || !IsDigit(s[0]) then n else Digits(s[1..], 10 * n + (s[0] - 48))
  }

  function SkipSpaces(s: bytes): bytes {
    if s != [] && IsSpace(s[0]) then SkipSpaces(s[1..]) else s
  }

  /** strtoul(s, NULL, 10) where unsigned long has 32 bits: a minus sign negates, too large a number saturates. */
  function Strtoul(s: bytes): (n: nat)
    ensures n <= ULONG_MAX
  {
    Signed(SkipSpaces(s))
  }

  function Signed(t: bytes): (n: nat)
    ensures n <= ULONG_MAX
  {
    var minus := t != [] && t[0] == 45;
    var n := Digits(if t != [] && (t[0] == 45 || t[0] == 43) then t[1..] else t, 0);
    if n > ULONG_MAX then ULONG_MAX else if minus then (ULONG_MAX + 1 - n) % (ULONG_MAX + 1) else n
  }

  /** A number in decimal, as a sender writes it. */
  function Decimal(n: nat): bytes { AsBytes(Numerals.Decimal(n)) }

  function AsBytes(s: Numerals.Digits): bytes { seq(|s|, i requires 0 <= i < |s| => s[i] as int) }

  lemma {:induction false} DigitsRead(s: Numerals.Digits, n: nat)
    ensures Digits(AsBytes(s), n) == Numerals.Number(s, n)
  {
    if s != [] {
      assert AsBytes(s)[1..] == AsBytes(s[1..]);
      DigitsRead(s[1..], 10 * n + Numerals.DigitValue(s[0]));
    }
  }

  /** strtoul reads back what a sender wrote, as far as 32 bits reach. */
  lemma DecimalReads(n: nat)
    ensures Decimal(n) != [] && forall i :: 0 <= i < |Decimal(n)| ==> IsDigit(Decimal(n)[i])
    ensures n <= ULONG_MAX ==> Strtoul(Decimal(n)) == n
  {
    DigitsRead(Numerals.Decimal(n), 0);
    Numerals.DecimalReads(n);
  }

  lemma {:induction false} SpacesSkipped(pad: bytes, s: bytes)
    requires forall i :: 0 <= i < |pad| ==> pad[i] == 32 || 9 <= pad[i] <= 13
    requires s != [] && !IsSpace(s[0])
    ensures SkipSpaces(pad + s) == s
  {
    if pad == [] {
      assert pad + s == s;
    } else {
      assert (pad + s)[0] == pad[0] && (pad + s)[1..] == pad[1..] + s;
      SpacesSkipped(pad[1..], s);
    }
  }

  lemma {:induction false} DigitsStop(s: Numerals.Digits, junk: bytes, n: nat)
    requires junk == [] || junk[0] < 48 || junk[0] > 57
    ensures Digits(AsBytes(s) + junk, n) == Numerals.Number(s, n)
  {
    var all := AsBytes(s) + junk;
    if s == [] {
      assert all == junk;
    } else {
      assert all[0] == AsBytes(s)[0] && all[1..] == AsBytes(s[1..]) + junk;
      DigitsStop(s[1..], junk, 10 * n + Numerals.DigitValue(s[0]));
    }
  }

  lemma SignRead(sign: bytes, d: bytes, n: nat)
    requires d != [] && 48 <= d[0] <= 57 && Digits(d, 0) == n
    requires sign == [] || sign == [43] || sign == [45]
    ensures Signed(sign + d) ==
      if n > 4294967295 then 4294967295 else if sign == [45] && n > 0 then 4294967296 - n else n
  {
    if sign == [] {
      assert sign + d == d;
    } else {
      assert (sign + d)[0] == sign[0] && (sign + d)[1..] == d;
    }
  }

  lemma DigitsBefore(n: nat, junk: bytes)
    requires junk == [] || junk[0] < 48 || junk[0] > 57
    ensures var d := Decimal(n) + junk; d != [] && 48 <= d[0] <= 57 && Digits(d, 0) == n
  {
    DecimalReads(n);
    assert (Decimal(n) + junk)[0] == Decimal(n)[0] && IsDigit(Decimal(n)[0]);
    DigitsStop(Numerals.Decimal(n), junk, 0);
    Numerals.DecimalReads(n);
  }

  /** strtoul: white space before it, a sign, and anything but a digit after it; 32 bits saturate, and a minus sign
      counts down from 2^32. */
  lemma StrtoulReads(pad: bytes, sign: bytes, n: nat, junk: bytes)
    requires forall i :: 0 <= i < |pad| ==> pad[i] == 32 || 9 <= pad[i] <= 13
    requires junk == [] || junk[0] < 48 || junk[0] > 57
    requires sign == [] || sign == [43] || sign == [45]
    ensures Strtoul(pad + (sign + (Decimal(n) + junk))) ==
      if n > 4294967295 then 4294967295 else if sign == [45] && n > 0 then 4294967296 - n else n
  {
    var d := Decimal(n) + junk;
    DigitsBefore(n, junk);
    SignRead(sign, d, n);
    SpacesSkipped(pad, sign + d);
  }

  method FindByte(s: bytes, c: byte, from: nat) returns (i: nat)
    requires from <= |s|
    ensures i == Find(s, c, from)
  {
    i := from;
    while i < |s| && s[i] != c
      invariant from <= i <= |s| && forall j :: from <= j < i ==> s[j] != c
    {
      i := i + 1;
    }
  }
}
