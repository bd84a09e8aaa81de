/** A request as a pure reading of the whole byte stream, and what a sender writes. */
module HttpMessage {
  import opened Wrappers
  import opened Bytes

  const MAX_BODY: nat := 1024 * 1024

  datatype Header = Header(name: bytes, value: bytes)

  /** ParsedRequest */
  datatype Request = Request(method_: bytes, path: bytes, query: bytes, headers: seq<Header>, body: bytes)

  const CONTENT_LENGTH: bytes :=
    [67, 79, 78, 84, 69, 78, 84, 45, 76, 69, 78, 71, 84, 72] // "CONTENT-LENGTH"

  // ---------------------------------------------------------------------------
  // Lines

  predicate LineEndAt(s: bytes, i: nat) { i + 1 < |s| && s[i] == CR && s[i + 1] == LF }

  ghost predicate FirstLineEnd(s: bytes, from: nat, i: nat) {
    from <= i <= |s| && (i < |s| ==> LineEndAt(s, i)) && forall j :: from <= j < i ==> !LineEndAt(s, j)
  }

  lemma {:induction false} SomeLineEnd(s: bytes, from: nat)
    requires from <= |s|
    ensures exists i :: FirstLineEnd(s, from, i)
    decreases |s| - from
  {
    if from == |s| || LineEndAt(s, from) {
      assert FirstLineEnd(s, from, from);
    } else {
      SomeLineEnd(s, from + 1);
      var i: nat :| FirstLineEnd(s, from + 1, i);
      assert FirstLineEnd(s, from, i);
    }
  }

  /** Where the first line of s ends; |s| when it does not. */
  ghost function LineEnd(s: bytes): (i: nat)
    ensures FirstLineEnd(s, 0, i)
  {
    SomeLineEnd(s, 0);
    var i: nat :| FirstLineEnd(s, 0, i);
    i
  }

  // ---------------------------------------------------------------------------
  // The request line and the header fields

  datatype Target = Target(method_: bytes, path: bytes, query: bytes)

  /** Method, target and anything at all after the second space. */
  ghost function RequestLine(line: bytes): Option<Target> {
    var sp1 := Find(line, SP, 0);
    if sp1 == |line| then None else
      var sp2 := Find(line, SP, sp1 + 1);
      if sp2 == |line| then None else
        Some(SplitTarget(Upper(line[..sp1]), line[sp1 + 1..sp2]))
  }

  /** The target split at its first '?'; an empty path is "/". */
  ghost function SplitTarget(m: bytes, target: bytes): Target {
    var q := Find(target, 63, 0);
    var path := target[..q];
    Target(m, if path == [] then [47] else path, if q < |target| then target[q + 1..] else [])
  }

  /** A field line; a line without a colon is passed over. */
  ghost function Field(line: bytes): Option<Header> {
    var colon := Find(line, 58, 0);
    if colon == |line| then None else Some(Header(Trim(line[..colon]), Trim(line[colon + 1..])))
  }

  ghost predicate IsContentLength(h: Header) { Upper(CStr(h.name)) == CONTENT_LENGTH }

  ghost function WithField(headers: seq<Header>, line: bytes): seq<Header> {
    match Field(line) case None => headers case Some(h) => headers + [h]
  }

  ghost function WithLength(length: nat, line: bytes): nat {
    match Field(line) case Some(h) => (if IsContentLength(h) then Strtoul(h.value) else length) case None => length
  }

  datatype Head = Head(headers: seq<Header>, length: nat, rest: bytes)

  /** The fields up to the empty line, and what follows it. */
  ghost function Fields(s: bytes, headers: seq<Header>, length: nat): Option<Head>
    decreases |s|
  {
    var e := LineEnd(s);
    if e == |s| then None
    else if e == 0 then Some(Head(headers, length, s[2..]))
    else Fields(s[e + 2..], WithField(headers, s[..e]), WithLength(length, s[..e]))
  }

  /** The request a head announces: its body has to be there in full. */
  ghost function WithHead(t: Target, head: Option<Head>): Option<Request> {
    if head.None? || head.value.length > MAX_BODY || |head.value.rest| < head.value.length then None
    else Some(Request(t.method_, t.path, t.query, head.value.headers, head.value.rest[..head.value.length]))
  }

  /** The request a stream begins with; nothing when it is malformed, too large or cut short. */
  ghost function Parse(s: bytes): Option<Request> {
    var e := LineEnd(s);
    if e == |s| || e == 0 then None else
      match RequestLine(s[..e])
      case None => None
      case Some(t) => WithHead(t, Fields(s[e + 2..], [], 0))
  }

  /** Every complete line of the head is shorter than `limit`. */
  ghost predicate HeadFits(s: bytes, limit: nat)
    decreases |s|
  {
    var e := LineEnd(s);
    e == |s| || (e < limit && (e == 0 || HeadFits(s[e + 2..], limit)))
  }

  // ---------------------------------------------------------------------------
  // What a sender writes

  const VERSION: bytes := [72, 84, 84, 80, 47, 49, 46, 49] // "HTTP/1.1"

  ghost function WriteTarget(r: Request): bytes { r.path + (if r.query == [] then [] else [63] + r.query) }

  ghost function WriteLine(r: Request): bytes { r.method_ + [SP] + WriteTarget(r) + [SP] + VERSION }

  ghost function WriteField(h: Header): bytes { h.name + [58, SP] + h.value }

  ghost function WriteFields(headers: seq<Header>): bytes {
    if headers == [] then [CR, LF] else WriteField(headers[0]) + [CR, LF] + WriteFields(headers[1..])
  }

  ghost function Write(r: Request): bytes { WriteLine(r) + [CR, LF] + WriteFields(r.headers) + r.body }

  /** The length the fields declare: the last Content-Length, or 0. */
  ghost function Declared(headers: seq<Header>, length: nat): nat {
    if headers == [] then length
    else Declared(headers[1..], if IsContentLength(headers[0]) then Strtoul(headers[0].value) else length)
  }

  ghost predicate Token(s: bytes) { CR !in s && SP !in s }

  ghost predicate Writable(h: Header) {
    && CR !in h.name && CR !in h.value && 58 !in h.name
    && Trim(h.name) == h.name && Trim(h.value) == h.value
  }

  ghost predicate LineWritable(r: Request) {
    && Token(r.method_) && Upper(r.method_) == r.method_
    && Token(r.path) && r.path != [] && 63 !in r.path && Token(r.query)
  }

  /** A request that can be written on the wire at all. */
  ghost predicate WellFormed(r: Request) {
    && LineWritable(r)
    && (forall h :: h in r.headers ==> Writable(h))
    && Declared(r.headers, 0) == |r.body| <= MAX_BODY
  }

  lemma LineEndIs(line: bytes, rest: bytes)
    requires CR !in line
    ensures var s := line + [CR, LF] + rest;
      LineEnd(s) == |line| && s[..|line|] == line && s[|line| + 2..] == rest
  {
    var s := line + [CR, LF] + rest;
    forall j | 0 <= j < |line| ensures s[j] != CR { assert s[j] == line[j]; }
    assert LineEndAt(s, |line|);
  }

  lemma LineShape(line: bytes, m: bytes, target: bytes, version: bytes)
    requires SP !in m && SP !in target && line == m + [SP] + target + [SP] + version
    ensures var b := |m| + 1 + |target|; b < |line| && line[|m|] == SP && line[b] == SP
    ensures line[..|m|] == m && line[|m| + 1..|m| + 1 + |target|] == target
  {
  }

  lemma NoSpace(line: bytes, from: nat, piece: bytes)
    requires from + |piece| <= |line| && line[from..from + |piece|] == piece && SP !in piece
    ensures forall j :: from <= j < from + |piece| ==> line[j] != SP
  {
    forall j | from <= j < from + |piece| ensures line[j] != SP { assert line[j] == piece[j - from]; }
  }

  lemma TargetSplits(r: Request)
    requires WellFormed(r)
    ensures SplitTarget(r.method_, WriteTarget(r)) == Target(r.method_, r.path, r.query)
  {
    var target := WriteTarget(r);
    if r.query == [] {
      assert target == r.path;
      FindNone(target, 63);
    } else {
      assert forall j :: 0 <= j < |r.path| ==> target[j] == r.path[j];
      FindIs(target, 63, 0, |r.path|);
    }
  }

  lemma RequestLineIs(line: bytes, m: bytes, target: bytes)
    requires SP !in m && SP !in target
    requires var b := |m| + 1 + |target|; b < |line| && line[|m|] == SP && line[b] == SP
    requires line[..|m|] == m && line[|m| + 1..|m| + 1 + |target|] == target
    ensures RequestLine(line) == Some(SplitTarget(Upper(m), target))
  {
    NoSpace(line, 0, m);
    NoSpace(line, |m| + 1, target);
    FindIs(line, SP, 0, |m|);
    FindIs(line, SP, |m| + 1, |m| + 1 + |target|);
  }

  lemma RequestLineSplits(line: bytes, m: bytes, target: bytes, version: bytes)
    requires SP !in m && SP !in target && line == m + [SP] + target + [SP] + version
    ensures RequestLine(line) == Some(SplitTarget(Upper(m), target))
  {
    LineShape(line, m, target, version);
    RequestLineIs(line, m, target);
  }

  lemma RequestLineReads(r: Request)
    requires WellFormed(r)
    ensures RequestLine(WriteLine(r)) == Some(Target(r.method_, r.path, r.query))
  {
    assert SP !in WriteTarget(r);
    RequestLineSplits(WriteLine(r), r.method_, WriteTarget(r), VERSION);
    TargetSplits(r);
  }

  lemma FieldReads(h: Header)
    requires Writable(h)
    ensures Field(WriteField(h)) == Some(h)
  {
    var line := WriteField(h);
    assert forall j :: 0 <= j < |h.name| ==> line[j] == h.name[j];
    FindIs(line, 58, 0, |h.name|);
    var v := line[|h.name| + 1..];
    assert v == [SP] + h.value && v[1..] == h.value && line[..|h.name|] == h.name;
  }

  /** One field line further on. */
  lemma FieldsStep(h: Header, next: bytes, before: seq<Header>, length: nat)
    requires Writable(h)
    ensures Fields(WriteField(h) + [CR, LF] + next, before, length) ==
            Fields(next, before + [h], if IsContentLength(h) then Strtoul(h.value) else length)
  {
    LineEndIs(WriteField(h), next);
    FieldReads(h);
  }

  lemma FieldsEnd(rest: bytes, before: seq<Header>, length: nat)
    ensures Fields([CR, LF] + rest, before, length) == Some(Head(before, length, rest))
  {
    var s := [CR, LF] + rest;
    assert LineEndAt(s, 0) && s[2..] == rest;
  }

  lemma WriteFieldsCons(headers: seq<Header>, rest: bytes)
    requires headers != []
    ensures WriteFields(headers) + rest == WriteField(headers[0]) + [CR, LF] + (WriteFields(headers[1..]) + rest)
  {
  }

  lemma {:induction false} FieldsRead(headers: seq<Header>, rest: bytes, before: seq<Header>, length: nat)
    requires forall h :: h in headers ==> Writable(h)
    ensures Fields(WriteFields(headers) + rest, before, length)
      == Some(Head(before + headers, Declared(headers, length), rest))
  {
    if headers == [] {
      FieldsEnd(rest, before, length);
      assert before + headers == before;
    } else {
      var h, t := headers[0], headers[1..];
      var length' := if IsContentLength(h) then Strtoul(h.value) else length;
      calc {
        Fields(WriteFields(headers) + rest, before, length);
      == { WriteFieldsCons(headers, rest); }
        Fields(WriteField(h) + [CR, LF] + (WriteFields(t) + rest), before, length);
      == { FieldsStep(h, WriteFields(t) + rest, before, length); }
        Fields(WriteFields(t) + rest, before + [h], length');
      == { FieldsRead(t, rest, before + [h], length'); }
        Some(Head(before + [h] + t, Declared(t, length'), rest));
      == { assert before + [h] + t == before + headers; }
        Some(Head(before + headers, Declared(headers, length), rest));
      }
    }
  }

  lemma WriteSplits(r: Request, extra: bytes)
    ensures Write(r) + extra == WriteLine(r) + [CR, LF] + (WriteFields(r.headers) + (r.body + extra))
  {
  }

  /** Parse, its pieces named. */
  lemma ParseIs(line: bytes, next: bytes, t: Target, head: Head, body: bytes, extra: bytes)
    requires CR !in line && line != [] && RequestLine(line) == Some(t)
    requires Fields(next, [], 0) == Some(head) && head.rest == body + extra
    requires head.length == |body| <= MAX_BODY
    ensures Parse(line + [CR, LF] + next) == Some(Request(t.method_, t.path, t.query, head.headers, body))
  {
    LineEndIs(line, next);
    assert head.rest[..|body|] == body;
  }

  /** What a sender writes is read back whole, whatever bytes follow it. */
  lemma ParseWrite(r: Request, extra: bytes)
    requires WellFormed(r)
    ensures Parse(Write(r) + extra) == Some(r)
  {
    var next := WriteFields(r.headers) + (r.body + extra);
    assert CR !in WriteLine(r);
    WriteSplits(r, extra);
    RequestLineReads(r);
    FieldsRead(r.headers, r.body + extra, [], 0);
    assert [] + r.headers == r.headers;
    ParseIs(WriteLine(r), next, Target(r.method_, r.path, r.query),
            Head(r.headers, |r.body|, r.body + extra), r.body, extra);
  }

  // ---------------------------------------------------------------------------
  // Announcing the length

  /** "content-length" with each letter in either case. */
  ghost predicate SpellsContentLength(name: bytes) {
    && |name| == 14
    && forall i :: 0 <= i < 14 ==>
         var c := "CONTENT-LENGTH"[i]; name[i] == c as int || (c != '-' && name[i] == c as int + 32)
  }

  lemma SpelledIs(name: bytes)
    ensures SpellsContentLength(name) <==> Upper(name) == CONTENT_LENGTH
    ensures SpellsContentLength(name) ==> forall i :: 0 <= i < |name| ==> name[i] !in {0, CR, 58} && !Blank(name[i])
  {
    if |name| == 14 {
      forall i | 0 <= i < 14
        ensures var c := "CONTENT-LENGTH"[i];
          && ToUpper(name[i]) == Upper(name)[i] && c as int == CONTENT_LENGTH[i]
          && (ToUpper(name[i]) == CONTENT_LENGTH[i] <==> name[i] == c as int || (c != '-' && name[i] == c as int + 32))
      {
      }
    }
  }

  lemma LengthWritable(name: bytes, n: nat)
    requires SpellsContentLength(name) && n <= 4294967295
    ensures var h := Header(name, Decimal(n)); Writable(h) && IsContentLength(h) && Strtoul(h.value) == n
  {
    SpelledIs(name);
    FindNone(name, 0);
    assert name[..|name|] == name;
    DecimalReads(n);
  }

  lemma {:induction false} DeclaredThen(before: seq<Header>, h: Header, after: seq<Header>, length: nat)
    requires IsContentLength(h) && forall x :: x in after ==> !IsContentLength(x)
    ensures Declared(before + [h] + after, length) == Strtoul(h.value)
    decreases |before|
  {
    var all := before + [h] + after;
    if before == [] {
      assert all[0] == h && all[1..] == after;
      DeclaredNone(after, Strtoul(h.value));
    } else {
      assert all[0] == before[0] && all[1..] == before[1..] + [h] + after;
      DeclaredThen(before[1..], h, after, if IsContentLength(all[0]) then Strtoul(all[0].value) else length);
    }
  }

  lemma {:induction false} DeclaredNone(headers: seq<Header>, length: nat)
    requires forall x :: x in headers ==> !IsContentLength(x)
    ensures Declared(headers, length) == length
  {
    if headers != [] { DeclaredNone(headers[1..], length); }
  }

  /** Whether a field's name, as far as a C string shows it, announces the length. */
  lemma AnnouncesIs(h: Header)
    ensures IsContentLength(h) <==> SpellsContentLength(h.name[..Find(h.name, 0, 0)])
  {
    SpelledIs(CStr(h.name));
  }

  /** The last Content-Length field, its name in any capitalisation, announces n in decimal. */
  ghost predicate Announces(headers: seq<Header>, before: seq<Header>, name: bytes, n: nat, after: seq<Header>) {
    && headers == before + [Header(name, Decimal(n))] + after && SpellsContentLength(name)
    && (forall h :: h in before + after ==> Writable(h))
    && forall h :: h in after ==> !SpellsContentLength(h.name[..Find(h.name, 0, 0)])
  }

  lemma AnnouncedDeclares(headers: seq<Header>, before: seq<Header>, name: bytes, n: nat, after: seq<Header>)
    requires Announces(headers, before, name, n, after) && n <= 4294967295
    ensures Declared(headers, 0) == n && forall h :: h in headers ==> Writable(h)
  {
    var length := Header(name, Decimal(n));
    LengthWritable(name, n);
    forall h | h in after ensures !IsContentLength(h) { AnnouncesIs(h); }
    DeclaredThen(before, length, after, 0);
    forall h | h in headers ensures Writable(h) {
      if h != length { assert h in before + after; }
    }
  }

  /** A sender that announces its body's length in decimal, in the last Content-Length field, has written a well-formed
      request (section 6.2 of RFC 9112). */
  lemma LengthAnnounced(r: Request, before: seq<Header>, name: bytes, after: seq<Header>)
    requires LineWritable(r) && |r.body| <= 1048576 && Announces(r.headers, before, name, |r.body|, after)
    ensures WellFormed(r)
  {
    AnnouncedDeclares(r.headers, before, name, |r.body|, after);
  }

  /** A body of more than a megabyte, or one that does not arrive in full, is refused. */
  lemma TooMuchAnnounced(r: Request, before: seq<Header>, name: bytes, n: nat, after: seq<Header>, rest: bytes)
    requires LineWritable(r) && Announces(r.headers, before, name, n, after) && n <= 4294967295
    requires n > 1048576 || n > |rest|
    ensures Parse(WriteLine(r) + [CR, LF] + (WriteFields(r.headers) + rest)) == None
  {
    var next := WriteFields(r.headers) + rest;
    AnnouncedDeclares(r.headers, before, name, n, after);
    FieldsRead(r.headers, rest, [], 0);
    assert CR !in WriteLine(r);
    LineEndIs(WriteLine(r), next);
  }

  // ---------------------------------------------------------------------------
  // What is read off a line, whoever wrote it

  /** The three parts of a request line: the method in capitals, the target up to the next space split at its first
      question mark, "/" standing for an empty path. */
  ghost predicate LineSays(line: bytes, method_: bytes, path: bytes, query: bytes) {
    var a := |method_|;
    exists b :: a < b < |line| && line[a] == 32 && line[b] == 32
      && (forall i :: 0 <= i < b && i != a ==> line[i] != 32)
      && (forall i :: 0 <= i < a ==> method_[i] == if 97 <= line[i] <= 122 then line[i] - 32 else line[i])
      && TargetSays(line[a + 1..b], path, query)
  }

  ghost predicate TargetSays(target: bytes, path: bytes, query: bytes) {
    exists q :: 0 <= q <= |target|
      && (forall i :: 0 <= i < q ==> target[i] != 63)
      && path == (if q == 0 then [47] else target[..q])
      && (if q == |target| then query == [] else target[q] == 63 && query == target[q + 1..])
  }

  lemma RequestLineSays(line: bytes)
    requires RequestLine(line).Some?
    ensures var t := RequestLine(line).value; LineSays(line, t.method_, t.path, t.query)
  {
    var t := RequestLine(line).value;
    var a := Find(line, SP, 0);
    var b := Find(line, SP, a + 1);
    var target := line[a + 1..b];
    var q := Find(target, 63, 0);
    assert |t.method_| == a;
    assert 0 <= q <= |target| && t.path == if q == 0 then [47] else target[..q];
    assert TargetSays(target, t.path, t.query);
  }

  /** What is accepted says in its first line what the request says. */
  lemma ParsedLineSays(s: bytes)
    requires Parse(s).Some?
    ensures var r := Parse(s).value; LineSays(s[..LineEnd(s)], r.method_, r.path, r.query)
  {
    RequestLineSays(s[..LineEnd(s)]);
  }

  /** Spaces and tabs around a field's name and value are not part of them (section 5.1 of RFC 9112). */
  lemma PaddingIgnored(name: bytes, value: bytes, a: bytes, b: bytes, c: bytes, d: bytes)
    requires forall pad, i :: pad in {a, b, c, d} && 0 <= i < |pad| ==> pad[i] == 32 || pad[i] == 9
    requires forall t :: t in {name, value} && t != [] ==>
      t[0] != 32 && t[0] != 9 && t[|t| - 1] != 32 && t[|t| - 1] != 9
    requires 58 !in name
    ensures Field((a + name + b) + [58] + (c + value + d)) == Some(Header(name, value))
  {
    var left, right := a + name + b, c + value + d;
    var line := left + [58] + right;
    assert a in {a, b, c, d} && b in {a, b, c, d} && c in {a, b, c, d} && d in {a, b, c, d};
    forall i | 0 <= i < |left| ensures line[i] != 58 {
      assert line[i] == if i < |a| then a[i] else if i < |a| + |name| then name[i - |a|] else b[i - |a| - |name|];
    }
    FindIs(line, 58, 0, |left|);
    assert line[..|left|] == left && line[|left| + 1..] == right;
    assert name in {name, value} && value in {name, value};
    TrimPads(a, name, b);
    TrimPads(c, value, d);
  }
}
