/** Form and query strings: what any sender may write, and the decoder that reads it back. */
module Form {
  import opened Wrappers
  import opened Bytes

  const PERCENT: byte := 37
  const PLUS: byte := 43
  const AMP: byte := 38
  const EQ: byte := 61

  predicate IsHex(b: byte) { IsDigit(b) || 65 <= b <= 70 || 97 <= b <= 102 }

  function HexValue(b: byte): (v: nat)
    requires IsHex(b)
    ensures v < 16
  {
    if b <= 57 then b - 48 else if b <= 70 then b - 55 else b - 87
  }

  function FromHex(hi: byte, lo: byte): byte
    requires IsHex(hi) && IsHex(lo)
  {
    16 * HexValue(hi) + HexValue(lo)
  }

  // ---------------------------------------------------------------------------
  // Decoding

  /** An escape takes three bytes; a percent sign that starts none stands for itself. */
  predicate Escape(s: bytes) { |s| > 2 && s[0] == PERCENT && IsHex(s[1]) && IsHex(s[2]) }

  function Decode(s: bytes): bytes {
    if s == [] then []
    else if Escape(s) then [FromHex(s[1], s[2])] + Decode(s[3..])
    else [if s[0] == PLUS then SP else s[0]] + Decode(s[1..])
  }

  lemma DecodeAt(s: bytes, i: nat)
    requires i < |s|
    ensures var c := if s[i] == PLUS then SP else s[i];
      Decode(s[i..]) == if i + 2 < |s| && s[i] == PERCENT && IsHex(s[i + 1]) && IsHex(s[i + 2])
                        then [FromHex(s[i + 1], s[i + 2])] + Decode(s[i + 3..]) else [c] + Decode(s[i + 1..])
  {
    assert s[i..][1..] == s[i + 1..];
    if i + 2 < |s| { assert s[i..][3..] == s[i + 3..]; }
  }

  /** url_decode: one pass by index. */
  method UrlDecode(s: bytes) returns (out: bytes)
    ensures out == Decode(s)
  {
    out := [];
    var i := 0;
    assert s[0..] == s;
    while i < |s|
      invariant i <= |s| && out + Decode(s[i..]) == Decode(s)
    {
      DecodeAt(s, i);
      ghost var was := out;
      if s[i] == PLUS {
        out := out + [SP];
        Reassociate(was, SP, Decode(s[i + 1..]));
      } else if s[i] == PERCENT && i + 2 < |s| && IsHex(s[i + 1]) && IsHex(s[i + 2]) {
        out := out + [FromHex(s[i + 1], s[i + 2])];
        Reassociate(was, FromHex(s[i + 1], s[i + 2]), Decode(s[i + 3..]));
        i := i + 2;
      } else {
        out := out + [s[i]];
        Reassociate(was, s[i], Decode(s[i + 1..]));
      }
      i := i + 1;
    }
    assert s[i..] == [];
    assert out + [] == out;
  }

  lemma Reassociate(a: bytes, b: byte, c: bytes)
    ensures a + ([b] + c) == a + [b] + c
  {
  }

  // ---------------------------------------------------------------------------
  // What a sender may write

  /** A byte as itself, a space as a plus, or any byte as an escape in either case. */
  datatype Piece = Plain(b: byte) | Space | Escaped(hi: byte, lo: byte)

  predicate Sendable(p: Piece) {
    match p
    case Plain(b) => b !in {37, 43, 38, 61}
    case Space => true
    case Escaped(hi, lo) =>
      && (48 <= hi <= 57 || 65 <= hi <= 70 || 97 <= hi <= 102)
      && (48 <= lo <= 57 || 65 <= lo <= 70 || 97 <= lo <= 102)
  }

  type Pieces = p: seq<Piece> | forall i :: 0 <= i < |p| ==> Sendable(p[i])

  function PieceText(p: Piece): bytes {
    match p
    case Plain(b) => [b]
    case Space => [43]
    case Escaped(hi, lo) => [37, hi, lo]
  }

  function PieceByte(p: Piece): byte
    requires Sendable(p)
  {
    match p
    case Plain(b) => b
    case Space => 32
    case Escaped(hi, lo) => FromHex(hi, lo)
  }

  function Text(ps: Pieces): bytes { if ps == [] then [] else PieceText(ps[0]) + Text(ps[1..]) }

  function Value(ps: Pieces): bytes { if ps == [] then [] else [PieceByte(ps[0])] + Value(ps[1..]) }

  lemma {:induction false} TextPlain(ps: Pieces, i: nat)
    requires i < |Text(ps)|
    ensures Text(ps)[i] != AMP && Text(ps)[i] != EQ
  {
    var head := PieceText(ps[0]);
    if i >= |head| { TextPlain(ps[1..], i - |head|); }
  }

  /** Whatever way a sender wrote it, decoding gives the bytes that were meant. */
  lemma {:induction false} DecodesText(ps: Pieces)
    ensures Decode(Text(ps)) == Value(ps)
  {
    if ps != [] {
      var head, rest := PieceText(ps[0]), Text(ps[1..]);
      var s := head + rest;
      assert Text(ps) == s;
      DecodesText(ps[1..]);
      if ps[0].Escaped? { assert s[3..] == rest; } else { assert s[1..] == rest; }
    }
  }

  /** Hexadecimal digits in either case. */
  lemma HexSays(v: nat)
    requires v < 16
    ensures var small: byte, capital: byte := "0123456789abcdef"[v] as int, "0123456789ABCDEF"[v] as int;
      IsHex(small) && HexValue(small) == v && IsHex(capital) && HexValue(capital) == v
  {
  }

  /** A percent sign not followed by two of them stands for itself. */
  lemma PercentStands(s: bytes)
    requires |s| < 2 || !(48 <= s[0] <= 57 || 65 <= s[0] <= 70 || 97 <= s[0] <= 102)
      || !(48 <= s[1] <= 57 || 65 <= s[1] <= 70 || 97 <= s[1] <= 102)
    ensures Decode([37] + s) == [37] + Decode(s)
  {
    assert ([37] + s)[1..] == s;
  }

  /** Every byte can be sent: escaped, in upper-case hex. */
  function HexDigit(v: nat): byte
    requires v < 16
  {
    if v < 10 then v + 48 else v + 55
  }

  function EscapeAll(s: bytes): Pieces {
    seq(|s|, i requires 0 <= i < |s| => Escaped(HexDigit(s[i] / 16), HexDigit(s[i] % 16)))
  }

  lemma {:induction false} EscapesAnything(s: bytes)
    ensures Value(EscapeAll(s)) == s && Decode(Text(EscapeAll(s))) == s
    decreases |s|
  {
    if s != [] {
      EscapesAnything(s[1..]);
      assert EscapeAll(s)[1..] == EscapeAll(s[1..]);
      assert s == [s[0]] + s[1..];
    }
    DecodesText(EscapeAll(s));
  }

  // ---------------------------------------------------------------------------
  // Pairs

  datatype Pair = Pair(name: bytes, value: bytes)

  /** One field: split at its first '='; nothing when the name decodes to nothing. */
  ghost function Parsed(pair: bytes): seq<Pair> {
    var eq := Find(pair, EQ, 0);
    var name := Decode(pair[..eq]);
    if name == [] then [] else [Pair(name, if eq < |pair| then Decode(pair[eq + 1..]) else [])]
  }

  /** The fields between ampersands; a trailing ampersand adds none. */
  ghost function Parse(raw: bytes): seq<Pair>
    decreases |raw|
  {
    if raw == [] then [] else
      var amp := Find(raw, AMP, 0);
      if amp == |raw| then Parsed(raw) else Parsed(raw[..amp]) + Parse(raw[amp + 1..])
  }

  method ParsePair(pair: bytes) returns (out: seq<Pair>)
    ensures out == Parsed(pair)
  {
    var eq := FindByte(pair, EQ, 0);
    var name, value := [], [];
    if eq == |pair| {
      assert pair[..eq] == pair;
      name := UrlDecode(pair);
    } else {
      name := UrlDecode(pair[..eq]);
      value := UrlDecode(pair[eq + 1..]);
    }
    out := if name != [] then [Pair(name, value)] else [];
  }

  lemma ParseHead(s: bytes, k: nat)
    requires s != [] && k == Find(s, AMP, 0) && k < |s|
    ensures Parse(s) == Parsed(s[..k]) + Parse(s[k + 1..])
  {
  }

  lemma ParseLast(s: bytes)
    requires s != [] && |s| == Find(s, AMP, 0)
    ensures Parse(s) == Parsed(s)
  {
  }

  lemma RestSlices(s: bytes, i: nat, k: nat)
    requires i <= k <= |s|
    ensures s[i..][..k - i] == s[i..k] && (k < |s| ==> s[i..][k - i + 1..] == s[k + 1..])
    ensures k == |s| ==> s[i..k] == s[i..]
  {
  }

  lemma ParseAt(raw: bytes, i: nat, amp: nat)
    requires i < |raw| && amp == Find(raw, AMP, i)
    ensures amp < |raw| ==> Parse(raw[i..]) == Parsed(raw[i..amp]) + Parse(raw[amp + 1..])
    ensures amp == |raw| ==> Parse(raw[i..]) == Parsed(raw[i..amp])
  {
    FindInRest(raw, AMP, i);
    RestSlices(raw, i, amp);
    if amp < |raw| { ParseHead(raw[i..], amp - i); } else { ParseLast(raw[i..]); }
  }

  method NextPair(raw: bytes, i: nat) returns (found: seq<Pair>, next: nat)
    requires i < |raw|
    ensures i < next <= |raw| && Parse(raw[i..]) == found + Parse(raw[next..])
  {
    var amp := FindByte(raw, AMP, i);
    ParseAt(raw, i, amp);
    found := ParsePair(raw[i..amp]);
    next := if amp == |raw| then amp else amp + 1;
    NothingLeft(raw, found);
  }

  lemma NothingLeft(raw: bytes, found: seq<Pair>)
    ensures found + Parse(raw[|raw|..]) == found
  {
  }

  /** parse_query */
  method ParseQuery(raw: bytes) returns (out: seq<Pair>)
    ensures out == Parse(raw)
  {
    out := [];
    ghost var goal := Parse(raw);
    assert raw[0..] == raw;
    var i := 0;
    while i < |raw|
      invariant i <= |raw| && goal == out + Parse(raw[i..])
    {
      var found, next := NextPair(raw, i);
      Chain(out, found, Parse(raw[next..]));
      out, i := out + found, next;
    }
    Chain(out, [], []);
  }

  lemma Chain(a: seq<Pair>, b: seq<Pair>, c: seq<Pair>)
    ensures a + (b + c) == a + b + c && a + [] == a
  {
  }

  lemma FindInRest(s: bytes, c: byte, from: nat)
    requires from <= |s|
    ensures Find(s[from..], c, 0) == Find(s, c, from) - from
  {
    var i, k := Find(s, c, from), Find(s[from..], c, 0);
    assert forall j :: 0 <= j < |s| - from ==> s[from..][j] == s[from + j];
    if i < |s| { FindIs(s[from..], c, 0, i - from); } else { FindNone(s[from..], c); }
  }

  /** A field as a sender writes it: a name alone, or a name and a value. */
  datatype Field = Field(name: Pieces, value: Option<Pieces>)

  function FieldText(f: Field): bytes {
    Text(f.name) + match f.value case None => [] case Some(v) => [61] + Text(v)
  }

  function FieldPair(f: Field): Pair { Pair(Value(f.name), if f.value.Some? then Value(f.value.value) else []) }

  function Joined(fields: seq<Field>): bytes {
    if fields == [] then []
    else if |fields| == 1 then FieldText(fields[0])
    else FieldText(fields[0]) + [38] + Joined(fields[1..])
  }

  /** The fields with a name, in order. */
  function Meant(fields: seq<Field>): seq<Pair> {
    if fields == [] then []
    else if Value(fields[0].name) == [] then Meant(fields[1..])
    else [FieldPair(fields[0])] + Meant(fields[1..])
  }

  lemma FieldReads(f: Field)
    ensures Parsed(FieldText(f)) == if Value(f.name) == [] then [] else [FieldPair(f)]
  {
    var name, s := Text(f.name), FieldText(f);
    forall i | 0 <= i < |name| ensures name[i] != EQ { TextPlain(f.name, i); }
    DecodesText(f.name);
    if f.value.Some? {
      FindIs(s, EQ, 0, |name|);
      assert s[..|name|] == name && s[|name| + 1..] == Text(f.value.value);
      DecodesText(f.value.value);
    } else {
      assert s == name;
      FindNone(s, EQ);
      assert s[..|name|] == name;
    }
  }

  lemma FieldPlain(f: Field, i: nat)
    requires i < |FieldText(f)|
    ensures FieldText(f)[i] != AMP
  {
    var name := Text(f.name);
    if i < |name| { TextPlain(f.name, i); }
    else if i > |name| { TextPlain(f.value.value, i - |name| - 1); }
  }

  /** Parsing undoes form encoding, for every list of fields however they are written: what has a name comes back,
      in order, byte for byte. */
  lemma {:induction false} ParsesJoined(fields: seq<Field>)
    ensures Parse(Joined(fields)) == Meant(fields)
  {
    if fields != [] {
      var head := FieldText(fields[0]);
      FieldReads(fields[0]);
      forall i | 0 <= i < |head| ensures head[i] != AMP { FieldPlain(fields[0], i); }
      if |fields| == 1 {
        OneField(head);
        assert Meant(fields[1..]) == [];
      } else {
        ParsesJoined(fields[1..]);
        TwoFields(head, Joined(fields[1..]));
      }
    }
  }

  lemma TwoFields(head: bytes, rest: bytes)
    requires AMP !in head
    ensures Parse(head + [AMP] + rest) == Parsed(head) + Parse(rest)
  {
    var s := head + [AMP] + rest;
    FindIs(s, AMP, 0, |head|);
    assert s[..|head|] == head && s[|head| + 1..] == rest;
    ParseHead(s, |head|);
  }

  lemma OneField(s: bytes)
    requires AMP !in s
    ensures Parse(s) == Parsed(s)
  {
    FindNone(s, AMP);
    if s == [] {
      FindNone(s, EQ);
      assert s[..0] == [];
    }
  }
}
