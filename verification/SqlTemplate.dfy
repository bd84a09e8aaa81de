/** Placeholder substitution: what it does to the text, and why the text keeps its lexical structure. */
module SqlTemplate {
  import opened Numerals

  // ---------------------------------------------------------------------------
  // The scanner's view of a statement

  /** Outside quotes, inside them, or right after a backslash inside them. */
  datatype Lex = Code | In(quote: char) | Esc(quote: char)

  predicate IsQuote(c: char) { c == '\'' || c == '\"' }

  function Step(l: Lex, c: char): Lex {
    match l
    case Code => if IsQuote(c) then In(c) else Code
    case In(q) => if c == '\\' then Esc(q) else if c == q then Code else l
    case Esc(q) => In(q)
  }

  function Scan(l: Lex, s: string): Lex
    decreases |s|
  {
    if s == [] then l else Scan(Step(l, s[0]), s[1..])
  }

  predicate IsHole(l: Lex, c: char) { l.Code? && c == '?' }

  /** How many placeholders s holds when scanning starts in l. */
  function Count(l: Lex, s: string): nat
    decreases |s|
  {
    if s == [] then 0 else (if IsHole(l, s[0]) then 1 else 0) + Count(Step(l, s[0]), s[1..])
  }

  // ---------------------------------------------------------------------------
  // Literals

  /** What "%.17g" can print: no quote, no backslash, no placeholder. */
  predicate NumberText(s: string) {
    s != [] && forall i :: 0 <= i < |s| ==> '0' <= s[i] <= '9' || s[i] in "+-.einfa"
  }

  datatype Param = Nil | Bool(b: bool) | Int(i: int) | Num(text: string) | Str(s: string)

  predicate ParamOk(p: Param) { p.Num? ==> NumberText(p.text) }

  function IntText(i: int): string { if i < 0 then "-" + Decimal(-i) else Decimal(i) }

  /** mysql_real_escape_string, byte by byte. */
  function EscapeChar(c: char): string {
    if c == '\0' then "\\0" else if c == '\n' then "\\n" else if c == '\r' then "\\r"
    else if c == '\\' then "\\\\" else if c == '\'' then "\\'" else if c == '\"' then "\\\""
    else if c == '\U{1A}' then "\\Z" else [c]
  }

  function Escape(s: string): string { if s == [] then [] else EscapeChar(s[0]) + Escape(s[1..]) }

  /** append_param */
  function Literal(p: Param): string {
    match p
    case Nil => "NULL"
    case Bool(b) => if b then "1" else "0"
    case Int(i) => IntText(i)
    case Num(text) => text
    case Str(s) => "'" + Escape(s) + "'"
  }

  /** Every placeholder replaced, in order; a placeholder without a parameter just goes. */
  function Subst(l: Lex, s: string, params: seq<Param>): string
    decreases |s|
  {
    if s == [] then []
    else if !IsHole(l, s[0]) then [s[0]] + Subst(Step(l, s[0]), s[1..], params)
    else if params == [] then Subst(l, s[1..], params)
    else Literal(params[0]) + Subst(l, s[1..], params[1..])
  }

  // ---------------------------------------------------------------------------
  // Scanning composes

  lemma {:induction false} ScanConcat(l: Lex, a: string, b: string)
    ensures Scan(l, a + b) == Scan(Scan(l, a), b)
    ensures Count(l, a + b) == Count(l, a) + Count(Scan(l, a), b)
    decreases |a|
  {
    if a == [] {
      assert a + b == b;
    } else {
      assert (a + b)[1..] == a[1..] + b;
      ScanConcat(Step(l, a[0]), a[1..], b);
    }
  }

  /** Text without quotes or placeholders leaves the scanner outside quotes. */
  predicate Plain(s: string) { forall i :: 0 <= i < |s| ==> !IsQuote(s[i]) && s[i] != '?' }

  lemma {:induction false} PlainScans(s: string)
    requires Plain(s)
    ensures Scan(Code, s) == Code && Count(Code, s) == 0
  {
    if s != [] { PlainScans(s[1..]); }
  }

  /** Without quotes every question mark is a placeholder. */
  lemma {:induction false} BareCounts(s: string)
    requires forall i :: 0 <= i < |s| ==> s[i] != '\'' && s[i] != '\"'
    ensures Scan(Code, s) == Code && Count(Code, s) == multiset(s)['?']
  {
    if s != [] {
      BareCounts(s[1..]);
      assert s == [s[0]] + s[1..];
    }
  }

  /** Between single or double quotes there are none. */
  lemma QuotedSkipped(q: char, s: string, rest: string)
    requires (q == '\'' || q == '\"') && forall i :: 0 <= i < |s| ==> s[i] != q && s[i] != '\\'
    ensures Count(Code, [q] + (s + ([q] + rest))) == Count(Code, rest)
    ensures Scan(Code, [q] + (s + ([q] + rest))) == Scan(Code, rest)
  {
    InsideStays(q, s);
    ScanConcat(In(q), s, [q] + rest);
    assert ([q] + rest)[1..] == rest && ([q] + (s + ([q] + rest)))[1..] == s + ([q] + rest);
  }

  lemma {:induction false} InsideStays(q: char, s: string)
    requires forall i :: 0 <= i < |s| ==> s[i] != q && s[i] != '\\'
    ensures Scan(In(q), s) == In(q) && Count(In(q), s) == 0
  {
    if s != [] { InsideStays(q, s[1..]); }
  }

  /** An escaped string never ends the quotes it stands in. */
  lemma {:induction false} EscapeStays(s: string)
    ensures Scan(In('\''), Escape(s)) == In('\'') && Count(In('\''), Escape(s)) == 0
  {
    if s != [] {
      var e := EscapeChar(s[0]);
      EscapeStays(s[1..]);
      ScanConcat(In('\''), e, Escape(s[1..]));
      assert |e| == 2 ==> e[1..][1..] == [];
      assert |e| == 1 ==> e[1..] == [];
    }
  }

  /** A literal starts and ends outside quotes and holds no placeholder. */
  lemma LiteralScans(p: Param)
    requires ParamOk(p)
    ensures Scan(Code, Literal(p)) == Code && Count(Code, Literal(p)) == 0
  {
    match p
    case Nil => PlainScans("NULL");
    case Bool(b) => PlainScans(Literal(p));
    case Int(i) =>
      PlainScans(IntText(i));
    case Num(text) => PlainScans(text);
    case Str(s) => StrScans(s);
  }

  lemma StrScans(s: string)
    ensures Scan(Code, Literal(Str(s))) == Code && Count(Code, Literal(Str(s))) == 0
  {
    var inner := Escape(s) + "'";
    assert Literal(Str(s)) == ['\''] + inner && (['\''] + inner)[1..] == inner;
    EscapeStays(s);
    ScanConcat(In('\''), Escape(s), "'");
    assert "'"[1..] == [];
  }

  // ---------------------------------------------------------------------------
  // Substitution keeps the structure

  ghost predicate AllOk(params: seq<Param>) { forall p :: p in params ==> ParamOk(p) }

  /** Rescanning the result finds no placeholder and ends in the template's state. */
  lemma {:induction false} SubstKeepsState(l: Lex, s: string, params: seq<Param>)
    requires AllOk(params)
    ensures Scan(l, Subst(l, s, params)) == Scan(l, s)
    ensures Count(l, Subst(l, s, params)) == 0
    decreases |s|
  {
    if s != [] {
      if !IsHole(l, s[0]) {
        SubstKeepsState(Step(l, s[0]), s[1..], params);
        var r := Subst(Step(l, s[0]), s[1..], params);
        assert ([s[0]] + r)[1..] == r;
      } else if params == [] {
        SubstKeepsState(l, s[1..], params);
      } else {
        SubstKeepsState(l, s[1..], params[1..]);
        assert params[0] in params;
        LiteralScans(params[0]);
        ScanConcat(Code, Literal(params[0]), Subst(l, s[1..], params[1..]));
      }
    }
  }

  function Drop(params: seq<Param>, n: nat): seq<Param> { if n <= |params| then params[n..] else [] }

  lemma {:induction false} SubstConcat(l: Lex, a: string, b: string, params: seq<Param>)
    ensures Subst(l, a + b, params) == Subst(l, a, params) + Subst(Scan(l, a), b, Drop(params, Count(l, a)))
    decreases |a|
  {
    if a == [] {
      assert a + b == b && Drop(params, 0) == params;
    } else {
      assert (a + b)[1..] == a[1..] + b;
      if !IsHole(l, a[0]) {
        SubstConcat(Step(l, a[0]), a[1..], b, params);
      } else if params == [] {
        SubstConcat(l, a[1..], b, params);
      } else {
        SubstConcat(l, a[1..], b, params[1..]);
        assert Drop(params[1..], Count(l, a[1..])) == Drop(params, Count(l, a));
      }
    }
  }

  /** Cut the template anywhere: the result splits at the matching place, and the text on either side of the
      cut is scanned in the state the template gives it there. */
  lemma SegmentsKeepState(a: string, b: string, params: seq<Param>)
    requires AllOk(params)
    ensures Subst(Code, a + b, params) == Subst(Code, a, params) + Subst(Scan(Code, a), b, Drop(params, Count(Code, a)))
    ensures Scan(Code, Subst(Code, a, params)) == Scan(Code, a)
  {
    SubstConcat(Code, a, b, params);
    SubstKeepsState(Code, a, params);
  }

  lemma HoleFilled(b: string, params: seq<Param>)
    requires params != []
    ensures Subst(Code, "?" + b, params) == Literal(params[0]) + Subst(Code, b, params[1..])
    ensures Count(Code, "?" + b) == 1 + Count(Code, b)
  {
    assert ("?" + b)[1..] == b;
  }

  /** With as many parameters as placeholders, the k-th parameter's literal stands where the k-th placeholder
      stood, outside quotes. */
  lemma LiteralInPlace(a: string, b: string, params: seq<Param>)
    requires AllOk(params) && Scan(Code, a) == Code && |params| == Count(Code, a + ("?" + b))
    ensures Count(Code, a) < |params|
    ensures Scan(Code, Subst(Code, a, params)) == Code
    ensures var k := Count(Code, a);
      Subst(Code, a + ("?" + b), params) == Subst(Code, a, params)
          + (Literal(params[k]) + Subst(Code, b, params[k + 1..]))
  {
    var k := Count(Code, a);
    ScanConcat(Code, a, "?" + b);
    HoleFilled(b, [Nil]);
    SegmentsKeepState(a, "?" + b, params);
    HoleFilled(b, params[k..]);
    assert params[k..][1..] == params[k + 1..];
  }

  // ---------------------------------------------------------------------------
  // The server's reading of a statement

  /** What a backslash pair stands for (section 9.1.1 of the MySQL manual). */
  function Unescape(c: char): char {
    if c == '0' then '\0' else if c == 'n' then '\n' else if c == 'r' then '\r' else if c == 'Z' then '\U{1A}'
    else if c == 'b' then '\U{8}' else if c == 't' then '\t' else c
  }

  datatype Read = Unterminated | Text(s: string, rest: string)

  function Prepend(c: char, r: Read): Read { if r.Text? then Text([c] + r.s, r.rest) else r }

  /** A string from after its opening quote; a doubled quote is a quote. */
  function ReadString(q: char, s: string): (r: Read)
    ensures r.Text? ==> |r.rest| < |s|
  {
    if s == [] then Unterminated
    else if s[0] == '\\' then (if |s| == 1 then Unterminated else Prepend(Unescape(s[1]), ReadString(q, s[2..])))
    else if s[0] != q then Prepend(s[0], ReadString(q, s[1..]))
    else if |s| > 1 && s[1] == q then Prepend(q, ReadString(q, s[2..]))
    else Text([], s[1..])
  }

  /** What an unquoted name is made of. */
  predicate InWord(c: char) {
    'a' <= c <= 'z' || 'A' <= c <= 'Z' || '0' <= c <= '9' || c == '_' || c == '$' || c >= '\U{80}'
  }

  /** A word right in front of a string that makes it a hexadecimal, bit or national string or names its character set
      (sections 9.1.1, 9.1.4 and 9.1.5 of the MySQL manual). */
  predicate Marks(word: string, quote: char) {
    word != [] && (word[0] == '_' || (quote == '\'' && |word| == 1 && word[0] in "xXbBnN"))
  }

  datatype Token = Other(c: char) | Quoted(marked: bool, quote: char, s: string) | Unclosed

  function NextWord(word: string, c: char): string { if InWord(c) then word + [c] else [] }

  /** A statement as the server takes it apart, `word` being what it has of a word already: strings, marked or not, and
      single characters between them. */
  function Tokens(word: string, s: string): seq<Token>
    decreases |s|
  {
    if s == [] then []
    else if !IsQuote(s[0]) then [Other(s[0])] + Tokens(NextWord(word, s[0]), s[1..])
    else match ReadString(s[0], s[1..])
      case Unterminated => [Unclosed]
      case Text(text, rest) => [Quoted(Marks(word, s[0]), s[0], text)] + Tokens([], rest)
  }

  /** What it has of a word when s has been read. */
  function WordAfter(word: string, s: string): string
    decreases |s|
  {
    if s == [] then word
    else if !IsQuote(s[0]) then WordAfter(NextWord(word, s[0]), s[1..])
    else match ReadString(s[0], s[1..])
      case Unterminated => []
      case Text(text, rest) => WordAfter([], rest)
  }

  // ---------------------------------------------------------------------------
  // One string

  lemma EscapeCharShape(c: char)
    ensures var e := EscapeChar(c);
      || (e == [c] && c != '\\' && c != '\'')
      || (|e| == 2 && e[0] == '\\' && Unescape(e[1]) == c)
  {
  }

  lemma EscapeCharReads(c: char, more: string)
    ensures ReadString('\'', EscapeChar(c) + more) == Prepend(c, ReadString('\'', more))
  {
    EscapeCharShape(c);
    PrefixDrops(EscapeChar(c), more);
  }

  lemma PrefixDrops(a: string, b: string)
    ensures (a + b)[|a|..] == b
  {
  }

  lemma {:induction false} EscapeReads(s: string, rest: string)
    requires rest == [] || rest[0] != '\''
    ensures ReadString('\'', Escape(s) + "'" + rest) == Text(s, rest)
  {
    if s == [] {
      var t := "'" + rest;
      assert Escape(s) + "'" + rest == t && t[1..] == rest;
    } else {
      var e, more := EscapeChar(s[0]), Escape(s[1..]) + "'" + rest;
      EscapeReads(s[1..], rest);
      assert Escape(s) + "'" + rest == e + more;
      EscapeCharReads(s[0], more);
      assert [s[0]] + s[1..] == s;
    }
  }

  /** A number with an optional minus sign, read as the server reads it. */
  ghost predicate ReadsAs(t: string, i: int) {
    var minus := t != [] && t[0] == '-';
    var digits := if minus then t[1..] else t;
    && digits != [] && (forall k :: 0 <= k < |digits| ==> '0' <= digits[k] <= '9')
    && Number(digits, 0) == if minus then -i else i
  }

  /** What each kind of parameter says to the server: a missing one NULL, a truth value 1 or 0, an integer itself with
      its sign, another number the text it was printed as, a string its bytes. */
  lemma LiteralSays(p: Param)
    requires p.Num? ==> p.text != [] && forall i :: 0 <= i < |p.text| ==>
      '0' <= p.text[i] <= '9' || p.text[i] in "+-.einfa"
    ensures ParamOk(p)
    ensures match p
      case Nil => Literal(p) == "NULL"
      case Bool(b) => Literal(p) == [if b then '1' else '0']
      case Int(i) => ReadsAs(Literal(p), i)
      case Num(text) => Literal(p) == text
      case Str(s) => Literal(p) != [] && Literal(p)[0] == '\'' && ReadString('\'', Literal(p)[1..]) == Text(s, [])
  {
    match p
    case Int(i) => DecimalReads(if i < 0 then -i else i);
    case Str(s) =>
      EscapeReads(s, []);
      assert Literal(p)[1..] == Escape(s) + "'" + [];
    case _ =>
  }

  /** No byte the server's line-based tools would stumble over goes through bare. */
  lemma {:induction false} EscapeClean(s: string)
    ensures forall i :: 0 <= i < |Escape(s)| ==> Escape(s)[i] !in {'\0', '\n', '\r', '\U{1A}'}
  {
    if s != [] { EscapeClean(s[1..]); }
  }

  lemma {:induction false} EscapeRunsOn(s: string, rest: string)
    requires rest != [] && rest[0] == '\''
    ensures var r := ReadString('\'', Escape(s) + "'" + rest); r.Text? ==> |r.s| > |s|
  {
    if s == [] {
      var t := "'" + rest;
      assert Escape(s) + "'" + rest == t;
    } else {
      var e, more := EscapeChar(s[0]), Escape(s[1..]) + "'" + rest;
      EscapeRunsOn(s[1..], rest);
      assert Escape(s) + "'" + rest == e + more;
      EscapeCharReads(s[0], more);
    }
  }

  /** A string ends with its quote, and the rest follows. */
  lemma {:induction false} ReadSplits(q: char, s: string)
    requires ReadString(q, s).Text?
    ensures var n := |s| - |ReadString(q, s).rest|; s[n - 1] == q && s[n..] == ReadString(q, s).rest
    decreases |s|
  {
    if s[0] == '\\' || (s[0] == q && |s| > 1 && s[1] == q) {
      ReadSplits(q, s[2..]);
    } else if s[0] != q {
      ReadSplits(q, s[1..]);
    }
  }

  /** Where the scanner is outside quotes again, so is the server. */
  lemma {:induction false} ReadEnds(q: char, s: string)
    requires IsQuote(q) && Scan(In(q), s) == Code
    ensures ReadString(q, s).Text? && Scan(Code, ReadString(q, s).rest) == Code
    decreases |s|
  {
    if s[0] == '\\' {
      if |s| > 1 {
        assert s[1..][1..] == s[2..];
        ReadEnds(q, s[2..]);
      }
    } else if s[0] != q {
      ReadEnds(q, s[1..]);
    } else if |s| > 1 && s[1] == q {
      assert s[1..][1..] == s[2..];
      ReadEnds(q, s[2..]);
    }
  }

  /** A string that has ended stays as it is, unless the quote it ends with is doubled by what follows. */
  lemma {:induction false} ReadConcat(q: char, s: string, x: string)
    requires var r := ReadString(q, s); r.Text? && (r.rest != [] || x == [] || x[0] != q)
    ensures ReadString(q, s + x) == Text(ReadString(q, s).s, ReadString(q, s).rest + x)
    decreases |s|
  {
    if s[0] == '\\' || (s[0] == q && |s| > 1 && s[1] == q) {
      assert (s + x)[2..] == s[2..] + x;
      ReadConcat(q, s[2..], x);
    } else {
      assert (s + x)[1..] == s[1..] + x;
      if s[0] != q { ReadConcat(q, s[1..], x); }
    }
  }

  lemma {:induction false} ReadRunsOn(q: char, s: string, x: string)
    requires ReadString(q, s).Text? && ReadString(q, s).rest == [] && x != [] && x[0] == q
    ensures var r := ReadString(q, s + x); r.Text? ==> |r.s| > |ReadString(q, s).s|
    decreases |s|
  {
    if s[0] == '\\' || (s[0] == q && |s| > 1 && s[1] == q) {
      assert (s + x)[2..] == s[2..] + x;
      ReadRunsOn(q, s[2..], x);
    } else if s[0] != q {
      assert (s + x)[1..] == s[1..] + x;
      ReadRunsOn(q, s[1..], x);
    }
  }

  // ---------------------------------------------------------------------------
  // Strings side by side

  /** The quote p ends with and the one x begins with would be read as a doubled quote. */
  predicate Fuses(p: string, x: string) { p != [] && x != [] && IsQuote(x[0]) && p[|p| - 1] == x[0] }

  lemma {:induction false} TokensConcat(word: string, p: string, x: string)
    requires Scan(Code, p) == Code && !Fuses(p, x)
    ensures Tokens(word, p + x) == Tokens(word, p) + Tokens(WordAfter(word, p), x)
    decreases |p|
  {
    if p == [] {
      assert p + x == x;
    } else {
      assert (p + x)[1..] == p[1..] + x;
      if !IsQuote(p[0]) {
        TokensConcat(NextWord(word, p[0]), p[1..], x);
      } else {
        ReadEnds(p[0], p[1..]);
        TokensAfter(word, p, x);
        var r := ReadString(p[0], p[1..]);
        ReadSplits(p[0], p[1..]);
        TokensConcat([], r.rest, x);
      }
    }
  }

  /** The first string of p stands by itself, or runs on into x. */
  lemma TokensAfter(word: string, p: string, x: string)
    requires p != [] && IsQuote(p[0]) && Scan(Code, p) == Code
    ensures var r := ReadString(p[0], p[1..]);
      && r.Text? && Tokens(word, p) == [Quoted(Marks(word, p[0]), p[0], r.s)] + Tokens([], r.rest)
      && (r.rest != [] || !Fuses(p, x) ==>
            Tokens(word, p + x) == [Quoted(Marks(word, p[0]), p[0], r.s)] + Tokens([], r.rest + x))
      && (r.rest == [] && Fuses(p, x) ==> Tokens(word, p + x)[0] != Quoted(Marks(word, p[0]), p[0], r.s))
  {
    var q, s := p[0], p[1..];
    assert (p + x)[1..] == s + x;
    ReadEnds(q, s);
    var r := ReadString(q, s);
    ReadSplits(q, s);
    if r.rest != [] || !Fuses(p, x) { ReadConcat(q, s, x); } else { ReadRunsOn(q, s, x); }
  }

  lemma {:induction false} TokensFuse(word: string, p: string, x: string)
    requires Scan(Code, p) == Code && Fuses(p, x)
    ensures !(Tokens(word, p) <= Tokens(word, p + x))
    decreases |p|
  {
    assert (p + x)[1..] == p[1..] + x;
    if !IsQuote(p[0]) {
      var next := NextWord(word, p[0]);
      TokensFuse(next, p[1..], x);
      Behind([Other(p[0])], Tokens(next, p[1..]), Tokens(next, p[1..] + x));
    } else {
      ReadEnds(p[0], p[1..]);
      TokensAfter(word, p, x);
      var r := ReadString(p[0], p[1..]);
      if r.rest != [] {
        ReadSplits(p[0], p[1..]);
        TokensFuse([], r.rest, x);
        Behind([Quoted(Marks(word, p[0]), p[0], r.s)], Tokens([], r.rest), Tokens([], r.rest + x));
      }
    }
  }

  lemma Behind(front: seq<Token>, a: seq<Token>, b: seq<Token>)
    requires !(a <= b)
    ensures !(front + a <= front + b)
  {
    if |a| <= |b| {
      var i :| 0 <= i < |a| && a[i] != b[i];
      assert (front + a)[|front| + i] == a[i] && (front + b)[|front| + i] == b[i];
    }
  }

  // ---------------------------------------------------------------------------
  // Words

  ghost predicate AllWord(s: string) { forall i :: 0 <= i < |s| ==> InWord(s[i]) }

  /** The word a text ends with. */
  function Trailing(s: string): string {
    if s == [] || !InWord(s[|s| - 1]) then [] else Trailing(s[..|s| - 1]) + [s[|s| - 1]]
  }

  lemma TrailingSnoc(s: string, c: char)
    ensures Trailing(s + [c]) == if InWord(c) then Trailing(s) + [c] else []
    ensures AllWord(s + [c]) <==> AllWord(s) && InWord(c)
  {
    assert (s + [c])[..|s|] == s && (s + [c])[|s|] == c;
    assert AllWord(s + [c]) ==> forall i :: 0 <= i < |s| ==> s[i] == (s + [c])[i];
  }

  lemma {:induction false} TrailingConcat(a: string, b: string)
    ensures Trailing(a + b) == if AllWord(b) then Trailing(a) + b else Trailing(b)
    decreases |b|
  {
    if b == [] {
      assert a + b == a && Trailing(a) + b == Trailing(a);
    } else {
      var front, c := b[..|b| - 1], b[|b| - 1];
      Snoc(a, b);
      Snoc(Trailing(a), b);
      TrailingConcat(a, front);
      TrailingSnoc(a + front, c);
      TrailingSnoc(front, c);
    }
  }

  lemma Snoc(a: string, b: string)
    requires b != []
    ensures var front, c := b[..|b| - 1], b[|b| - 1]; b == front + [c] && a + b == (a + front) + [c]
  {
  }

  lemma TrailingCons(c: char, p: string)
    ensures Trailing([c] + p) == if AllWord(p) then NextWord([], c) + p else Trailing(p)
    ensures AllWord([c] + p) <==> InWord(c) && AllWord(p)
  {
    TrailingConcat([c], p);
    assert [c][..0] == [];
    assert ([c] + p)[1..] == p;
  }

  /** Outside quotes the word read last is the one the text ends with. */
  ghost function LastWord(word: string, p: string): string { if AllWord(p) then word + p else Trailing(p) }

  lemma LastWordCons(word: string, c: char, p: string)
    ensures LastWord(NextWord(word, c), p) == LastWord(word, [c] + p)
  {
    TrailingCons(c, p);
  }

  lemma {:induction false} WordIsTrailing(word: string, p: string)
    requires Scan(Code, p) == Code
    ensures WordAfter(word, p) == LastWord(word, p)
    decreases |p|
  {
    if p != [] {
      var c, more := p[0], p[1..];
      assert p == [c] + more;
      if !IsQuote(c) {
        WordIsTrailing(NextWord(word, c), more);
        LastWordCons(word, c, more);
      } else {
        ReadEnds(c, more);
        ReadSplits(c, more);
        var rest := ReadString(c, more).rest;
        WordIsTrailing([], rest);
        QuoteThenTrailing(word, p, rest);
      }
    }
  }

  /** A word begins anew behind a quote. */
  lemma QuoteThenTrailing(word: string, p: string, rest: string)
    requires p != [] && IsQuote(p[0])
    requires var n := |p| - |rest|; n > 0 && IsQuote(p[n - 1]) && p[n..] == rest
    ensures LastWord([], rest) == LastWord(word, p)
  {
    var n := |p| - |rest|;
    assert p == p[..n] + rest && p[..n][n - 1] == p[n - 1];
    assert !AllWord(p) && Trailing(p[..n]) == [];
    TrailingConcat(p[..n], rest);
  }

  lemma WordFromStart(p: string)
    requires Scan(Code, p) == Code
    ensures WordAfter([], p) == Trailing(p)
  {
    WordIsTrailing([], p);
    TrailingConcat([], p);
    assert [] + p == p;
  }

  // ---------------------------------------------------------------------------
  // Neighbours of a placeholder

  lemma LiteralEdges(p: Param)
    requires ParamOk(p)
    ensures var l := Literal(p); l != [] && (l[0] == '\'' <==> p.Str?) && (l[|l| - 1] == '\'' <==> p.Str?)
  {
    if p.Int? { assert IsDigit(Literal(p)[|Literal(p)| - 1]); }
  }

  /** In front of a placeholder: a quote, or a placeholder for a string. */
  predicate EndsInString(a: string, params: seq<Param>) {
    a != [] && (a[|a| - 1] == '\'' ||
      (a[|a| - 1] == '?' && 0 < Count(Code, a) <= |params| && params[Count(Code, a) - 1].Str?))
  }

  /** Behind one. */
  predicate StartsInString(b: string, params: seq<Param>) {
    b != [] && (b[0] == '\'' || (b[0] == '?' && params != [] && params[0].Str?))
  }

  predicate QuoteFirst(s: string) { s != [] && s[0] == '\'' }

  predicate QuoteLast(s: string) { s != [] && s[|s| - 1] == '\'' }

  /** From outside quotes the scanner only ever enters quotes. */
  lemma {:induction false} ScanQuotes(l: Lex, s: string)
    requires l.Code? || IsQuote(l.quote)
    ensures Scan(l, s).Code? || IsQuote(Scan(l, s).quote)
    decreases |s|
  {
    if s != [] { ScanQuotes(Step(l, s[0]), s[1..]); }
  }

  /** The last character of a text that ends outside quotes is a placeholder or stays as it is. */
  lemma SubstSnoc(front: string, c: char, params: seq<Param>)
    requires Scan(Code, front + [c]) == Code && Count(Code, front + [c]) <= |params|
    ensures c != '?' ==> Subst(Code, front + [c], params) == Subst(Code, front, params) + [c]
    ensures c == '?' ==> Count(Code, front + [c]) == Count(Code, front) + 1
    ensures c == '?' ==>
              Subst(Code, front + [c], params) == Subst(Code, front, params) + Literal(params[Count(Code, front)])
  {
    var l, k := Scan(Code, front), Count(Code, front);
    ScanConcat(Code, front, [c]);
    SubstConcat(Code, front, [c], params);
    assert [c][1..] == [] && Scan(l, [c]) == Step(l, c);
    ScanQuotes(Code, front);
    if c == '?' {
      assert l == Code && Count(l, [c]) == 1;
      assert Subst(l, [c], params[k..]) == Literal(params[k]) + [];
    }
  }

  lemma SubstEnds(a: string, params: seq<Param>)
    requires AllOk(params) && Scan(Code, a) == Code && Count(Code, a) <= |params|
    ensures QuoteLast(Subst(Code, a, params)) <==> EndsInString(a, params)
  {
    if a != [] {
      var front, c := a[..|a| - 1], a[|a| - 1];
      assert a == front + [c];
      SubstSnoc(front, c, params);
      if c == '?' {
        var k := Count(Code, front);
        assert params[k] in params;
        LiteralEdges(params[k]);
      }
    }
  }

  lemma SubstStarts(b: string, params: seq<Param>)
    requires AllOk(params) && Count(Code, b) <= |params|
    ensures QuoteFirst(Subst(Code, b, params)) <==> StartsInString(b, params)
  {
    if b != [] && b[0] == '?' {
      assert params[0] in params;
      LiteralEdges(params[0]);
    }
  }

  lemma RestCounts(a: string, b: string, params: seq<Param>)
    requires Scan(Code, a) == Code && |params| == Count(Code, a + ("?" + b))
    ensures Count(Code, a) < |params| && |params[Count(Code, a) + 1..]| == Count(Code, b)
  {
    ScanConcat(Code, a, "?" + b);
    assert ("?" + b)[1..] == b;
  }

  /** The word right in front of the placeholder behind a, those before it being filled in. */
  function WordBefore(a: string, params: seq<Param>): string { Trailing(Subst(Code, a, params)) }

  /** A string parameter is read by the server as one plain string of its own, and leaves the reading of the rest alone,
      if and only if its placeholder touches neither a single quote nor another string's placeholder, and the word right
      in front of it, if there is one, marks no string. */
  lemma ReadsBackExactly(a: string, b: string, params: seq<Param>, s: string)
    requires AllOk(params) && Scan(Code, a) == Code && |params| == Count(Code, a + ("?" + b))
    requires Count(Code, a) < |params| && params[Count(Code, a)] == Str(s)
    ensures var rest := params[Count(Code, a) + 1..];
      Tokens([], Subst(Code, a + ("?" + b), params))
        == Tokens([], Subst(Code, a, params)) + ([Quoted(false, '\'', s)] + Tokens([], Subst(Code, b, rest)))
      <==> !EndsInString(a, params) && !StartsInString(b, rest) && !Marks(WordBefore(a, params), '\'')
  {
    var rest := params[Count(Code, a) + 1..];
    var p, r := Subst(Code, a, params), Subst(Code, b, rest);
    LiteralInPlace(a, b, params);
    RestCounts(a, b, params);
    SubstEnds(a, params);
    SubstStarts(b, rest);
    LiteralTokens(p, s, r);
  }

  lemma LiteralFirst(word: string, s: string, r: string)
    ensures var ts := Tokens(word, Literal(Str(s)) + r);
      && (!QuoteFirst(r) ==> ts == [Quoted(Marks(word, '\''), '\'', s)] + Tokens([], r))
      && (QuoteFirst(r) ==> ts[0] != Quoted(false, '\'', s))
  {
    var l, inside := Literal(Str(s)) + r, Escape(s) + "'" + r;
    assert l[0] == '\'' && l[1..] == inside;
    if QuoteFirst(r) { EscapeRunsOn(s, r); } else { EscapeReads(s, r); }
  }

  lemma OtherToken(front: seq<Token>, a: seq<Token>, t: Token, b: seq<Token>)
    requires a != [] && a[0] != t
    ensures front + a != front + ([t] + b)
  {
    assert (front + a)[|front|] == a[0] && (front + ([t] + b))[|front|] == t;
  }

  lemma NoPrefix(front: seq<Token>, all: seq<Token>, more: seq<Token>)
    requires !(front <= all)
    ensures all != front + more
  {
  }

  /** A literal between two texts. */
  lemma LiteralTokens(p: string, s: string, r: string)
    requires Scan(Code, p) == Code
    ensures Tokens([], p + (Literal(Str(s)) + r)) == Tokens([], p) + ([Quoted(false, '\'', s)] + Tokens([], r))
      <==> !QuoteLast(p) && !QuoteFirst(r) && !Marks(Trailing(p), '\'')
  {
    var l, plain := Literal(Str(s)) + r, Quoted(false, '\'', s);
    if Fuses(p, l) {
      TokensFuse([], p, l);
      NoPrefix(Tokens([], p), Tokens([], p + l), [plain] + Tokens([], r));
    } else {
      TokensConcat([], p, l);
      WordFromStart(p);
      LiteralFirst(Trailing(p), s, r);
      if QuoteFirst(r) || Marks(Trailing(p), '\'') {
        OtherToken(Tokens([], p), Tokens(Trailing(p), l), plain, Tokens([], r));
      }
    }
  }

  lemma LettersEscape(s: string)
    requires |s| == 1 && EscapeChar(s[0]) == s
    ensures Literal(Str(s)) == "'" + s + "'"
  {
    assert s[1..] == [] && Escape([]) == [] && EscapeChar(s[0]) + [] == s;
  }

  /** Two placeholders side by side: no quote in the template, and yet two strings are read as one. */
  lemma NeighboursMerge()
    ensures Tokens([], Subst(Code, "??", [Str("a"), Str("b")])) == [Quoted(false, '\'', "a'b")]
  {
    LettersEscape("a");
    LettersEscape("b");
    assert "??"[1..] == "?" && "?"[1..] == [];
    var all := "'a''b'";
    assert Subst(Code, "??", [Str("a"), Str("b")]) == all;
    assert all[1..] == "a''b'" && "a''b'"[1..] == "''b'" && "''b'"[2..] == "b'" && "b'"[1..] == "'" && "'"[1..] == [];
    assert ReadString('\'', "b'") == Text("b", []);
    assert ReadString('\'', "''b'") == Text("'b", []);
    assert ReadString('\'', "a''b'") == Text("a'b", []);
  }

  /** A placeholder right behind an x: what was a string has become a hexadecimal one. */
  lemma PrefixMarks()
    ensures Tokens([], Subst(Code, "x?", [Str("4")])) == [Other('x'), Quoted(true, '\'', "4")]
  {
    LettersEscape("4");
    assert "x?"[1..] == "?" && "?"[1..] == [];
    var all := "x'4'";
    assert Subst(Code, "x?", [Str("4")]) == all;
    assert all[1..] == "'4'" && "'4'"[1..] == "4'" && "4'"[1..] == "'" && "'"[1..] == [];
    assert NextWord([], 'x') == "x";
    assert ReadString('\'', "4'") == Text("4", []);
    assert Tokens("x", "'4'") == [Quoted(true, '\'', "4")] + Tokens([], []);
  }
}
