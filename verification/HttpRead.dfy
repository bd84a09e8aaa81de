/** The worker's incremental reading: recv hands out the stream in pieces of any size, and what is read is
    what HttpMessage.Parse says of the whole stream. */
module HttpRead {
  import opened Wrappers
  import opened Bytes
  import opened HttpMessage

  const MAX_HEADER: nat := 16 * 1024
  const LINE_CHUNK: nat := 2048
  const BODY_CHUNK: nat := 4096

  /** How many bytes one recv hands out: the network's choice, at least one and at most what was asked. */
  function Size(chunks: seq<nat>, max: nat, left: nat): (n: nat)
    requires max > 0
    ensures n <= max && n <= left && (left > 0 ==> n > 0)
  {
    var wish := if chunks == [] || chunks[0] == 0 then 1 else chunks[0];
    var most := if max < left then max else left;
    if wish < most then wish else most
  }

  function Tail(chunks: seq<nat>): seq<nat> { if chunks == [] then [] else chunks[1..] }

  /** The peer's side: the bytes still to come before it stops sending, and how the network will cut them. */
  class Socket {
    var rest: bytes
    var chunks: seq<nat>

    /** recv: an empty answer means closed or timed out. */
    method Recv(max: nat) returns (chunk: bytes)
      requires max > 0
      modifies this
      ensures |chunk| == Size(old(chunks), max, |old(rest)|)
      ensures chunk == old(rest)[..|chunk|] && rest == old(rest)[|chunk|..] && chunks == Tail(old(chunks))
    {
      var n := Size(chunks, max, |rest|);
      chunk := rest[..n];
      rest := rest[n..];
      chunks := Tail(chunks);
    }
  }

  // ---------------------------------------------------------------------------
  // What gets through

  /** What has been received and not used yet, and what the network still holds. */
  datatype Reach = Reach(buf: bytes, rest: bytes, chunks: seq<nat>)

  /** Where recv_line leaves off, for one way of cutting the stream; nothing when it gives up. */
  ghost function LineRead(buf: bytes, rest: bytes, chunks: seq<nat>): (r: Option<Reach>)
    ensures r.Some? ==> |r.value.buf| + |r.value.rest| < |buf| + |rest|
    decreases |rest|
  {
    var e := LineEnd(buf);
    if e < |buf| then Some(Reach(buf[e + 2..], rest, chunks))
    else if |buf| > MAX_HEADER || rest == [] then None
    else
      var n := Size(chunks, LINE_CHUNK, |rest|);
      LineRead(buf + rest[..n], rest[n..], Tail(chunks))
  }

  /** Whether every line up to the empty one gets through. */
  ghost predicate HeadArrives(buf: bytes, rest: bytes, chunks: seq<nat>)
    decreases |buf| + |rest|
  {
    match LineRead(buf, rest, chunks)
    case None => false
    case Some(r) => LineEnd(buf + rest) == 0 || HeadArrives(r.buf, r.rest, r.chunks)
  }

  /** Whether the request a stream begins with is accepted when the network cuts it like this. */
  ghost predicate Accepts(s: bytes, chunks: seq<nat>) { Parse(s).Some? && HeadArrives([], s, chunks) }

  lemma LineEndPrefix(buf: bytes, more: bytes)
    ensures LineEnd(buf) < |buf| ==> LineEnd(buf + more) == LineEnd(buf)
    ensures LineEnd(buf) == |buf| ==> LineEnd(buf + more) + 1 >= |buf|
  {
    var s := buf + more;
    forall i | 0 <= i && i + 1 < |buf| ensures LineEndAt(s, i) <==> LineEndAt(buf, i) {}
    var e := LineEnd(buf);
    if e < |buf| { assert LineEndAt(s, e); }
  }

  /** However the stream is cut, a line shorter than MAX_HEADER gets through, and one that does get through
      is at most MAX_HEADER + 2046 long. */
  lemma {:induction false} ShortLinesArrive(buf: bytes, rest: bytes, chunks: seq<nat>)
    requires |buf| <= MAX_HEADER + LINE_CHUNK
    ensures var e := LineEnd(buf + rest); var r := LineRead(buf, rest, chunks);
      && (e < |buf + rest| && e < MAX_HEADER ==> r.Some?)
      && (r.Some? ==> e < |buf + rest| && e <= MAX_HEADER + LINE_CHUNK - 2
                      && r.value.buf + r.value.rest == (buf + rest)[e + 2..]
                      && |r.value.buf| <= MAX_HEADER + LINE_CHUNK)
    decreases |rest|
  {
    LineEndPrefix(buf, rest);
    if LineEnd(buf) == |buf| && |buf| <= MAX_HEADER && rest != [] {
      var n := Size(chunks, LINE_CHUNK, |rest|);
      assert buf + rest == buf + rest[..n] + rest[n..];
      ShortLinesArrive(buf + rest[..n], rest[n..], Tail(chunks));
    } else if rest == [] {
      assert buf + rest == buf;
    }
  }

  /** Every line up to an empty one is complete. */
  ghost predicate HeadEnds(s: bytes)
    decreases |s|
  {
    var e := LineEnd(s);
    e < |s| && (e == 0 || HeadEnds(s[e + 2..]))
  }

  lemma {:induction false} FieldsEndHead(s: bytes, headers: seq<Header>, length: nat)
    ensures Fields(s, headers, length).Some? <==> HeadEnds(s)
    decreases |s|
  {
    var e := LineEnd(s);
    if 0 < e < |s| { FieldsEndHead(s[e + 2..], WithField(headers, s[..e]), WithLength(length, s[..e])); }
  }

  lemma ParsedHeadEnds(s: bytes)
    requires Parse(s).Some?
    ensures HeadEnds(s)
  {
    FieldsEndHead(s[LineEnd(s) + 2..], [], 0);
  }

  /** A complete head whose lines are short arrives; a head that arrives has no line past the upper bound. */
  lemma {:induction false} ShortHeadsArrive(buf: bytes, rest: bytes, chunks: seq<nat>)
    requires |buf| <= MAX_HEADER + LINE_CHUNK
    ensures HeadEnds(buf + rest) && HeadFits(buf + rest, MAX_HEADER) ==> HeadArrives(buf, rest, chunks)
    ensures HeadArrives(buf, rest, chunks) ==> HeadFits(buf + rest, MAX_HEADER + LINE_CHUNK - 1)
    decreases |buf| + |rest|
  {
    ShortLinesArrive(buf, rest, chunks);
    var r := LineRead(buf, rest, chunks);
    if r.Some? && LineEnd(buf + rest) > 0 { ShortHeadsArrive(r.value.buf, r.value.rest, r.value.chunks); }
  }

  // ---------------------------------------------------------------------------
  // Cuts made to order

  function Ones(k: nat): seq<nat> { seq(k, i => 1) }

  /** Cut one byte at a time, a line that has not ended yet just grows the buffer. */
  lemma {:induction false} ByOnes(buf: bytes, rest: bytes, k: nat, later: seq<nat>)
    requires k <= |rest| && |buf| + k <= MAX_HEADER + 1
    requires LineEnd(buf + rest[..k]) == |buf| + k
    ensures LineRead(buf, rest, Ones(k) + later) == LineRead(buf + rest[..k], rest[k..], later)
    decreases k
  {
    if k == 0 {
      assert buf + rest[..0] == buf && rest[0..] == rest && Ones(0) + later == later;
    } else {
      LineEndPrefix(buf, rest[..k]);
      var chunks := Ones(k) + later;
      assert Size(chunks, LINE_CHUNK, |rest|) == 1 && Tail(chunks) == Ones(k - 1) + later;
      assert buf + rest[..1] + rest[1..][..k - 1] == buf + rest[..k] && rest[1..][k - 1..] == rest[k..];
      ByOnes(buf + rest[..1], rest[1..], k - 1, later);
    }
  }

  lemma NoLineEnd(s: bytes, k: nat)
    requires k <= |s| && k <= LineEnd(s) + 1
    ensures [] + s[..k] == s[..k] && LineEnd(s[..k]) == k
  {
    var p := s[..k];
    var e := LineEnd(p);
    assert e < k ==> LineEndAt(s, e);
  }

  /** One more recv ends the line and brings nothing past it. */
  lemma LastPiece(s: bytes, k: nat, later: seq<nat>)
    requires var e := LineEnd(s); e < |s| && k <= e + 1 && k <= MAX_HEADER && e + 2 - k <= LINE_CHUNK
    ensures var e := LineEnd(s); LineRead(s[..k], s[k..], [e + 2 - k] + later) == Some(Reach([], s[e + 2..], later))
  {
    var e := LineEnd(s);
    var m := e + 2 - k;
    NoLineEnd(s, k);
    var line := s[..e + 2];
    assert s[..k] + s[k..][..m] == line && s[k..][m..] == s[e + 2..];
    assert LineEnd(line) == e by {
      assert LineEndAt(s, e) && LineEndAt(line, e);
      assert line + s[e + 2..] == s;
      LineEndPrefix(line, s[e + 2..]);
    }
    assert Tail([m] + later) == later && Size([m] + later, LINE_CHUNK, |s[k..]|) == m && line[e + 2..] == [];
    assert LineRead(line, s[e + 2..], later) == Some(Reach([], s[e + 2..], later));
  }

  /** The first line alone, cut so that nothing past it arrives with it. */
  lemma LineCut(s: bytes) returns (cut: seq<nat>)
    requires LineEnd(s) < |s| && LineEnd(s) <= MAX_HEADER + LINE_CHUNK - 2
    ensures forall later: seq<nat> :: LineRead([], s, cut + later) == Some(Reach([], s[LineEnd(s) + 2..], later))
  {
    var e := LineEnd(s);
    var k := if e + 2 <= LINE_CHUNK then 0 else e + 2 - LINE_CHUNK;
    cut := Ones(k) + [e + 2 - k];
    NoLineEnd(s, k);
    forall later: seq<nat> ensures LineRead([], s, cut + later) == Some(Reach([], s[e + 2..], later)) {
      assert cut + later == Ones(k) + ([e + 2 - k] + later);
      ByOnes([], s, k, [e + 2 - k] + later);
      LastPiece(s, k, later);
    }
  }

  /** A cut under which the head arrives. */
  lemma {:induction false} GoodCut(s: bytes) returns (cut: seq<nat>)
    requires HeadEnds(s) && HeadFits(s, MAX_HEADER + LINE_CHUNK - 1)
    ensures HeadArrives([], s, cut)
    decreases |s|
  {
    var e := LineEnd(s);
    assert [] + s == s;
    var first := LineCut(s);
    var later := [];
    if e > 0 { later := GoodCut(s[e + 2..]); }
    cut := first + later;
  }

  /** A cut under which a line of at least MAX_HEADER bytes does not. */
  lemma {:induction false} BadCut(s: bytes) returns (cut: seq<nat>)
    requires HeadEnds(s) && !HeadFits(s, MAX_HEADER)
    ensures !HeadArrives([], s, cut)
    decreases |s|
  {
    var e := LineEnd(s);
    assert [] + s == s;
    if e < MAX_HEADER {
      var first := LineCut(s);
      var later := BadCut(s[e + 2..]);
      cut := first + later;
    } else {
      cut := Ones(MAX_HEADER + 1) + [];
      NoLineEnd(s, MAX_HEADER + 1);
      ByOnes([], s, MAX_HEADER + 1, []);
    }
  }

  /** A well-formed request is treated alike however the network cuts it if and only if all lines of its head are
      shorter than 16384 bytes, when it is accepted, or one is longer than 18430, when it is refused. */
  lemma CutMatters(s: bytes)
    requires Parse(s).Some?
    ensures HeadFits(s, 16384) ==> forall cut :: Accepts(s, cut)
    ensures !HeadFits(s, 18431) ==> forall cut :: !Accepts(s, cut)
    ensures (forall a, b :: Accepts(s, a) == Accepts(s, b)) <==> HeadFits(s, 16384) || !HeadFits(s, 18431)
  {
    ParsedHeadEnds(s);
    assert [] + s == s;
    forall cut: seq<nat>
      ensures HeadFits(s, MAX_HEADER) ==> Accepts(s, cut)
      ensures !HeadFits(s, MAX_HEADER + LINE_CHUNK - 1) ==> !Accepts(s, cut)
    {
      ShortHeadsArrive([], s, cut);
    }
    if !HeadFits(s, MAX_HEADER) && HeadFits(s, MAX_HEADER + LINE_CHUNK - 1) {
      var yes := GoodCut(s);
      var no := BadCut(s);
      assert Accepts(s, yes) && !Accepts(s, no);
    }
  }

  // ---------------------------------------------------------------------------
  // A request whose fate is the network's

  function Letters(n: nat): bytes { seq(n, i => 97) }

  /** GET / with one header, X, whose value is n letters long. */
  function LongHeader(n: nat): Request { Request([71, 69, 84], [47], [], [Header([88], Letters(n))], []) }

  lemma LettersTrim(n: nat)
    ensures Trim(Letters(n)) == Letters(n) && CR !in Letters(n)
  {
    assert forall b :: b in Letters(n) ==> b == 97;
  }

  lemma LongHeaderWellFormed(n: nat)
    ensures WellFormed(LongHeader(n))
  {
    var r, h := LongHeader(n), Header([88], Letters(n));
    LettersTrim(n);
    assert Upper(r.method_) == r.method_;
    assert Writable(h);
    assert |Upper(CStr(h.name))| <= 1 && |CONTENT_LENGTH| == 14;
    assert r.headers[1..] == [] && Declared(r.headers, 0) == 0;
  }

  lemma LongHeaderLines(n: nat)
    ensures Write(LongHeader(n))
      == WriteLine(LongHeader(n)) + [CR, LF] + (WriteField(Header([88], Letters(n))) + [CR, LF] + [CR, LF])
    ensures CR !in WriteLine(LongHeader(n)) && |WriteLine(LongHeader(n))| == 14
    ensures CR !in WriteField(Header([88], Letters(n))) && |WriteField(Header([88], Letters(n)))| == n + 3
  {
    var r := LongHeader(n);
    LettersTrim(n);
    assert r.headers[1..] == [];
    assert WriteFields(r.headers) == WriteField(r.headers[0]) + [CR, LF] + [CR, LF];
  }

  lemma LineFits(line: bytes, rest: bytes, limit: nat)
    requires CR !in line && line != []
    ensures HeadFits(line + [CR, LF] + rest, limit) <==> |line| < limit && HeadFits(rest, limit)
  {
    LineEndIs(line, rest);
  }

  lemma LongHeaderFits(n: nat, limit: nat)
    requires limit > 14
    ensures HeadFits(Write(LongHeader(n)), limit) <==> n + 3 < limit
  {
    var field := WriteField(Header([88], Letters(n)));
    LongHeaderLines(n);
    LineFits(WriteLine(LongHeader(n)), field + [CR, LF] + [CR, LF], limit);
    LineFits(field, [CR, LF], limit);
    assert LineEndAt([CR, LF], 0);
  }

  /** A well-formed request the server takes or refuses depending on nothing but how the network cuts it. */
  lemma CutDecides(n: nat)
    requires 16384 <= n + 3 <= 18430
    ensures WellFormed(LongHeader(n))
    ensures exists a, b :: Accepts(Write(LongHeader(n)), a) && !Accepts(Write(LongHeader(n)), b)
  {
    var s := Write(LongHeader(n));
    LongHeaderWellFormed(n);
    ParseWrite(LongHeader(n), []);
    assert s + [] == s;
    LongHeaderFits(n, MAX_HEADER);
    LongHeaderFits(n, MAX_HEADER + LINE_CHUNK - 1);
    CutMatters(s);
    var a, b :| Accepts(s, a) != Accepts(s, b);
    assert (Accepts(s, a) && !Accepts(s, b)) || (Accepts(s, b) && !Accepts(s, a));
  }

  // ---------------------------------------------------------------------------
  // The loops

  method FindLineEnd(s: bytes) returns (i: nat)
    ensures i == LineEnd(s)
  {
    i := 0;
    while i < |s| && !LineEndAt(s, i)
      invariant i <= |s| && forall j :: 0 <= j < i ==> !LineEndAt(s, j)
    {
      i := i + 1;
    }
    assert FirstLineEnd(s, 0, i);
  }

  lemma LineFound(buf: bytes, rest: bytes, chunks: seq<nat>)
    requires LineEnd(buf) < |buf|
    ensures var e, s := LineEnd(buf), buf + rest;
      && LineEnd(s) == e && buf[..e] == s[..e] && buf[e + 2..] + rest == s[e + 2..]
      && LineRead(buf, rest, chunks) == Some(Reach(buf[e + 2..], rest, chunks))
  {
    LineEndPrefix(buf, rest);
  }

  lemma RecvMore(buf: bytes, rest: bytes, chunks: seq<nat>)
    requires LineEnd(buf) == |buf| <= MAX_HEADER
    ensures var n := Size(chunks, LINE_CHUNK, |rest|); var more := buf + rest[..n];
      && buf + rest == more + rest[n..]
      && (rest != [] ==> LineRead(buf, rest, chunks) == LineRead(more, rest[n..], Tail(chunks)))
      && (rest == [] ==> LineRead(buf, rest, chunks).None?)
  {
  }

  /** recv_line: `buf` keeps what came after the line. */
  method RecvLine(sock: Socket, before: bytes) returns (ok: bool, line: bytes, buf: bytes)
    requires |before| <= MAX_HEADER + LINE_CHUNK
    modifies sock
    ensures var r := LineRead(before, old(sock.rest), old(sock.chunks));
      ok == r.Some? && (ok ==> r.value == Reach(buf, sock.rest, sock.chunks))
    ensures ok ==> var s := before + old(sock.rest); var e := LineEnd(s);
      e < |s| && line == s[..e] && buf + sock.rest == s[e + 2..] && |buf| <= MAX_HEADER + LINE_CHUNK
  {
    buf := before;
    while true
      invariant |buf| <= MAX_HEADER + LINE_CHUNK
      invariant buf + sock.rest == before + old(sock.rest)
      invariant LineRead(buf, sock.rest, sock.chunks) == LineRead(before, old(sock.rest), old(sock.chunks))
      decreases |sock.rest|
    {
      var pos := FindLineEnd(buf);
      if pos < |buf| {
        LineFound(buf, sock.rest, sock.chunks);
        line := buf[..pos];
        buf := buf[pos + 2..];
        return true, line, buf;
      }
      if |buf| > MAX_HEADER { return false, [], buf; }
      RecvMore(buf, sock.rest, sock.chunks);
      var chunk := sock.Recv(LINE_CHUNK);
      if chunk == [] { return false, [], buf; }
      buf := buf + chunk;
    }
  }

  method ReadTarget(line: bytes) returns (t: Option<Target>)
    ensures t == RequestLine(line)
  {
    var sp1 := FindByte(line, SP, 0);
    if sp1 == |line| { return None; }
    var sp2 := FindByte(line, SP, sp1 + 1);
    if sp2 == |line| { return None; }
    var target := line[sp1 + 1..sp2];
    var q := FindByte(target, 63, 0);
    var path, query := target[..q], if q < |target| then target[q + 1..] else [];
    if path == [] { path := [47]; }
    return Some(Target(Upper(line[..sp1]), path, query));
  }

  method ReadField(line: bytes) returns (h: Option<Header>)
    ensures h == Field(line)
  {
    var colon := FindByte(line, 58, 0);
    if colon == |line| { return None; }
    return Some(Header(Trim(line[..colon]), Trim(line[colon + 1..])));
  }

  /** Case-insensitive comparison of the part a C string shows. */
  method NamesLength(h: Header) returns (is_: bool)
    ensures is_ == IsContentLength(h)
  {
    var nul := FindByte(h.name, 0, 0);
    return Upper(h.name[..nul]) == CONTENT_LENGTH;
  }

  /** What the reading of the head has promised so far about the stream it began with, whose head does or does
      not arrive. */
  ghost predicate Reading(s: bytes, arrives: bool, r: Reach, headers: seq<Header>, length: nat) {
    && Fields(s, [], 0) == Fields(r.buf + r.rest, headers, length)
    && arrives == HeadArrives(r.buf, r.rest, r.chunks)
  }

  method AddField(line: bytes, headers: seq<Header>, length: nat) returns (headers': seq<Header>, length': nat)
    ensures headers' == WithField(headers, line) && length' == WithLength(length, line)
  {
    headers', length' := headers, length;
    var h := ReadField(line);
    if h.Some? {
      headers' := headers + [h.value];
      var declares := NamesLength(h.value);
      if declares { length' := Strtoul(h.value.value); }
    }
  }

  datatype Progress = More | Complete | Broken

  /** What reading one more line of the head comes to. */
  ghost predicate Progressed(s: bytes, arrives: bool, r: Reach, p: Progress, headers: seq<Header>, length: nat) {
    match p
    case More => Reading(s, arrives, r, headers, length)
    case Complete => arrives && Fields(s, [], 0) == Some(Head(headers, length, r.buf + r.rest))
    case Broken => !arrives
  }

  ghost function ReachOf(sock: Socket, buf: bytes): Reach reads sock { Reach(buf, sock.rest, sock.chunks) }

  method ReadOneField(sock: Socket, before: bytes, headers: seq<Header>, length: nat, ghost s: bytes,
      ghost arrives: bool)
    returns (p: Progress, headers': seq<Header>, length': nat, buf: bytes)
    requires |before| <= MAX_HEADER + LINE_CHUNK && Reading(s, arrives, ReachOf(sock, before), headers, length)
    modifies sock
    ensures |buf| <= MAX_HEADER + LINE_CHUNK && Progressed(s, arrives, ReachOf(sock, buf), p, headers', length')
    ensures p.More? ==> |buf + sock.rest| < |before + old(sock.rest)|
  {
    headers', length' := headers, length;
    var got, line, more := RecvLine(sock, before);
    if !got { return Broken, headers, length, before; }
    if line == [] { return Complete, headers, length, more; }
    headers', length' := AddField(line, headers, length);
    return More, headers', length', more;
  }

  /** The header part of read_request, up to and including the empty line. */
  method ReadFields(sock: Socket, before: bytes) returns (ok: bool, headers: seq<Header>, length: nat, buf: bytes)
    requires |before| <= MAX_HEADER + LINE_CHUNK
    modifies sock
    ensures ok == HeadArrives(before, old(sock.rest), old(sock.chunks))
    ensures ok ==> Fields(before + old(sock.rest), [], 0) == Some(Head(headers, length, buf + sock.rest))
  {
    headers, length, buf := [], 0, before;
    ghost var s, arrives := before + sock.rest, HeadArrives(before, sock.rest, sock.chunks);
    var p := More;
    while p.More?
      invariant |buf| <= MAX_HEADER + LINE_CHUNK
      invariant Progressed(s, arrives, ReachOf(sock, buf), p, headers, length)
      decreases |buf + sock.rest|, p.More?
    {
      p, headers, length, buf := ReadOneField(sock, buf, headers, length, s, arrives);
      if !p.More? { break; }
    }
    ok := p.Complete?;
  }

  /** The body part: what already arrived counts first, what is too much is dropped. */
  method ReadBody(sock: Socket, buf: bytes, length: nat) returns (ok: bool, body: bytes)
    modifies sock
    ensures var s := buf + old(sock.rest); ok == (length <= |s|) && (ok ==> body == s[..length])
  {
    body := buf;
    while |body| < length
      invariant body + sock.rest == buf + old(sock.rest)
      decreases |sock.rest|
    {
      var want := length - |body|;
      ghost var rest := sock.rest;
      var chunk := sock.Recv(if want < BODY_CHUNK then want else BODY_CHUNK);
      if chunk == [] { return false, []; }
      assert body + rest == (body + chunk) + sock.rest;
      body := body + chunk;
    }
    return true, body[..length];
  }

  /** What is promised past the first line. */
  ghost predicate RestRight(s: bytes, arrives: bool, t: Target, ok: bool, req: Request) {
    var all := WithHead(t, Fields(s, [], 0));
    ok == (arrives && all.Some?) && (ok ==> all == Some(req))
  }

  /** read_request past its first line. */
  method ReadRest(sock: Socket, buf: bytes, t: Target) returns (ok: bool, req: Request)
    requires |buf| <= MAX_HEADER + LINE_CHUNK
    modifies sock
    ensures RestRight(buf + old(sock.rest), HeadArrives(buf, old(sock.rest), old(sock.chunks)), t, ok, req)
  {
    req := Request([], [], [], [], []);
    var fields, headers, length, more := ReadFields(sock, buf);
    if !fields { return false, req; }
    if length > MAX_BODY { return false, req; }
    var whole, body := ReadBody(sock, more, length);
    if whole { req := Request(t.method_, t.path, t.query, headers, body); }
    return whole, req;
  }

  /** The outcome promised for a stream under one cut. */
  ghost predicate Right(s: bytes, chunks: seq<nat>, ok: bool, req: Request) {
    ok == Accepts(s, chunks) && (ok ==> Parse(s) == Some(req))
  }

  lemma NoFirstLine(s: bytes, chunks: seq<nat>, req: Request)
    requires LineRead([], s, chunks).None? || (var e := LineEnd(s); e == |s| || e == 0 || RequestLine(s[..e]).None?)
    ensures Right(s, chunks, false, req)
  {
    assert [] + s == s;
  }

  lemma FirstLine(s: bytes, chunks: seq<nat>, r: Reach, t: Target, ok: bool, req: Request)
    requires var e := LineEnd(s); 0 < e < |s| && RequestLine(s[..e]) == Some(t) && r.buf + r.rest == s[e + 2..]
    requires LineRead([], s, chunks) == Some(r)
    requires RestRight(s[LineEnd(s) + 2..], HeadArrives(r.buf, r.rest, r.chunks), t, ok, req)
    ensures Right(s, chunks, ok, req)
  {
    assert [] + s == s;
  }

  /** read_request, given its first line. */
  method ReadFrom(sock: Socket, line: bytes, buf: bytes, ghost s: bytes, ghost chunks: seq<nat>)
    returns (ok: bool, req: Request)
    requires |buf| <= MAX_HEADER + LINE_CHUNK && LineRead([], s, chunks) == Some(ReachOf(sock, buf))
    requires var e := LineEnd(s); 0 < e < |s| && line == s[..e] && buf + sock.rest == s[e + 2..]
    modifies sock
    ensures Right(s, chunks, ok, req)
  {
    req := Request([], [], [], [], []);
    var t := ReadTarget(line);
    if t.None? { NoFirstLine(s, chunks, req); return false, req; }
    ghost var r := ReachOf(sock, buf);
    ok, req := ReadRest(sock, buf, t.value);
    FirstLine(s, chunks, r, t.value, ok, req);
  }

  /** read_request. What is accepted is the one-shot parse of the stream, its first line split as the stream has it, and
      it is accepted exactly when its head arrives. */
  method ReadRequest(sock: Socket) returns (ok: bool, req: Request)
    modifies sock
    ensures Right(old(sock.rest), old(sock.chunks), ok, req)
    ensures ok ==> LineSays(old(sock.rest)[..LineEnd(old(sock.rest))], req.method_, req.path, req.query)
  {
    req := Request([], [], [], [], []);
    ghost var s, chunks := sock.rest, sock.chunks;
    assert [] + s == s;
    var got, line, buf := RecvLine(sock, []);
    if !got || line == [] { NoFirstLine(s, chunks, req); return false, req; }
    ok, req := ReadFrom(sock, line, buf, s, chunks);
    if ok { ParsedLineSays(s); }
  }

  /** What a well-behaved sender writes is accepted and read back whole, whatever follows it and however it is cut. */
  lemma WrittenIsRead(r: Request, extra: bytes, cut: seq<nat>, ok: bool, req: Request)
    requires WellFormed(r) && HeadFits(Write(r) + extra, 16384) && Right(Write(r) + extra, cut, ok, req)
    ensures ok && req == r
  {
    ParseWrite(r, extra);
    CutMatters(Write(r) + extra);
  }
}
