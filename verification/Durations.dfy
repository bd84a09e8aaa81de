/** Durations as text: a grammar, the scanner that reads it and the formatter that writes it. */
module Durations {
  import opened Wrappers
  import opened Numerals

  datatype Unit = Year | Month | Week | Day | Hour | Minute | Second

  function Seconds(u: Unit): nat {
    match u
    case Year => 31536000
    case Month => 2592000
    case Week => 604800
    case Day => 86400
    case Hour => 3600
    case Minute => 60
    case Second => 1
  }

  function Suffix(u: Unit): (s: string)
    ensures s != [] && !IsDigit(s[0])
  {
    match u
    case Year => "y"
    case Month => "mo"
    case Week => "w"
    case Day => "d"
    case Hour => "h"
    case Minute => "m"
    case Second => "s"
  }

  // ---------------------------------------------------------------------------
  // The grammar

  datatype Span = Span(digits: Digits, unit: Unit)

  type Spans = l: seq<Span> | forall i :: 0 <= i < |l| ==> l[i].digits != []

  function SpanText(s: Span): string { s.digits + Suffix(s.unit) }

  function Text(l: Spans): string { if l == [] then [] else SpanText(l[0]) + Text(l[1..]) }

  function Total(l: Spans): nat {
    if l == [] then 0 else Number(l[0].digits, 0) * Seconds(l[0].unit) + Total(l[1..])
  }

  // ---------------------------------------------------------------------------
  // The scanner

  /** unit_seconds, for a suffix of one letter. */
  function UnitOf(c: char): Option<Unit> {
    match c
    case 'y' => Some(Year)
    case 'w' => Some(Week)
    case 'd' => Some(Day)
    case 'h' => Some(Hour)
    case 'm' => Some(Minute)
    case 's' => Some(Second)
    case _ => None
  }

  predicate MonthAhead(t: string) { |t| >= 2 && t[0] == 'm' && t[1] == 'o' }

  /** What scanning the rest of a string comes to. */
  function Scan(t: string, total: nat, number: nat, hasDigits: bool): Option<nat> {
    if t == [] then if hasDigits then None else Some(total)
    else if IsDigit(t[0]) then Scan(t[1..], total, 10 * number + DigitValue(t[0]), true)
    else if !hasDigits then None
    else if MonthAhead(t) then Scan(t[2..], total + number * Seconds(Month), 0, false)
    else match UnitOf(t[0])
      case None => None
      case Some(u) => Scan(t[1..], total + number * Seconds(u), 0, false)
  }

  function Parse(s: string): Option<nat> { if s == [] then None else Scan(s, 0, 0, false) }

  /** lua_Integer has 32 bits. */
  function ToLuaInteger(n: int): int {
    var m := n % 0x1_0000_0000;
    if m >= 0x8000_0000 then m - 0x1_0000_0000 else m
  }

  /** time.parse: an error, or the seconds. */
  method LParse(s: string) returns (r: Option<int>)
    ensures r == (match Parse(s) case None => None case Some(n) => Some(ToLuaInteger(n)))
  {
    var total, number, hasDigits := 0, 0, false;
    var i := 0;
    assert s[0..] == s;
    while i < |s|
      invariant i <= |s| && total >= 0 && number >= 0
      invariant Scan(s[i..], total, number, hasDigits) == Scan(s, 0, 0, false)
    {
      ghost var rest := s[i..];
      assert rest[1..] == s[i + 1..];
      var c := s[i];
      if IsDigit(c) {
        number, hasDigits := 10 * number + DigitValue(c), true;
        i := i + 1;
        continue;
      }
      if !hasDigits { return None; }
      if c == 'm' && i + 1 < |s| && s[i + 1] == 'o' {
        assert MonthAhead(rest) && rest[2..] == s[i + 2..];
        total, number, hasDigits := total + number * Seconds(Month), 0, false;
        i := i + 2;
        continue;
      }
      assert !MonthAhead(rest);
      var u := UnitOf(c);
      if u.None? { return None; }
      total, number, hasDigits := total + number * Seconds(u.value), 0, false;
      i := i + 1;
    }
    assert s[i..] == [];
    if hasDigits || |s| == 0 { return None; }
    return Some(ToLuaInteger(total));
  }

  // ---------------------------------------------------------------------------
  // The scanner reads exactly the grammar

  lemma {:induction false} ScansDigits(ds: Digits, rest: string, total: nat, number: nat, hasDigits: bool)
    ensures Scan(ds + rest, total, number, hasDigits) == Scan(rest, total, Number(ds, number), hasDigits || ds != [])
    decreases |ds|
  {
    if ds == [] {
      assert ds + rest == rest;
    } else {
      assert (ds + rest)[1..] == ds[1..] + rest;
      ScansDigits(ds[1..], rest, total, 10 * number + DigitValue(ds[0]), true);
    }
  }

  /** A lone m is a minute: only an o right behind it makes a month. */
  lemma ScansUnit(u: Unit, rest: string, total: nat, number: nat)
    requires rest != [] ==> rest[0] != 'o'
    ensures Scan(Suffix(u) + rest, total, number, true) == Scan(rest, total + number * Seconds(u), 0, false)
  {
    var t := Suffix(u) + rest;
    if u.Month? {
      assert MonthAhead(t) && t[2..] == rest;
    } else {
      assert t[1..] == rest && UnitOf(t[0]) == Some(u) && !MonthAhead(t);
    }
  }

  lemma TextStarts(l: Spans)
    ensures Text(l) != [] ==> IsDigit(Text(l)[0])
  {
  }

  lemma {:induction false} ScansText(l: Spans, total: nat)
    ensures Scan(Text(l), total, 0, false) == Some(total + Total(l))
    decreases |l|
  {
    if l != [] {
      var n := Number(l[0].digits, 0);
      var rest := Text(l[1..]);
      TextStarts(l[1..]);
      assert Text(l) == l[0].digits + (Suffix(l[0].unit) + rest);
      ScansDigits(l[0].digits, Suffix(l[0].unit) + rest, total, 0, false);
      ScansUnit(l[0].unit, rest, total, n);
      ScansText(l[1..], total + n * Seconds(l[0].unit));
    }
  }

  /** From inside a span: the digits still to come, the unit, the spans after it. */
  lemma {:induction false} ScannedIsText(t: string, total: nat, number: nat, hasDigits: bool)
    returns (lead: Digits, u: Unit, l: Spans)
    requires Scan(t, total, number, hasDigits).Some? && t != []
    ensures (hasDigits || lead != []) && t == lead + Suffix(u) + Text(l)
    ensures Scan(t, total, number, hasDigits).value == total + Number(lead, number) * Seconds(u) + Total(l)
    decreases |t|, 0
  {
    if IsDigit(t[0]) {
      var more: Digits;
      more, u, l := ScannedIsText(t[1..], total, 10 * number + DigitValue(t[0]), true);
      lead := [t[0]] + more;
      DigitFirst(t, lead, more, number, Suffix(u), Text(l));
    } else {
      lead := [];
      u := HeadUnit(t);
      UnitFirst(t, total, number, hasDigits);
      l := SpansOf(t[|Suffix(u)|..], total + number * Seconds(u));
      assert lead + Suffix(u) + Text(l) == Suffix(u) + Text(l);
    }
  }

  function HeadUnit(t: string): Unit
    requires t != []
  {
    if MonthAhead(t) then Month else if UnitOf(t[0]).Some? then UnitOf(t[0]).value else Second
  }

  lemma UnitFirst(t: string, total: nat, number: nat, hasDigits: bool)
    requires t != [] && !IsDigit(t[0]) && Scan(t, total, number, hasDigits).Some?
    ensures var u := HeadUnit(t); var n := |Suffix(u)|;
      && hasDigits && n <= |t| && t == Suffix(u) + t[n..]
      && Scan(t, total, number, hasDigits) == Scan(t[n..], total + number * Seconds(u), 0, false)
  {
  }

  lemma DigitFirst(t: string, lead: Digits, more: Digits, number: nat, suffix: string, rest: string)
    requires t != [] && IsDigit(t[0]) && lead == [t[0]] + more && t[1..] == more + suffix + rest
    ensures t == lead + suffix + rest
    ensures Number(lead, number) == Number(more, 10 * number + DigitValue(t[0]))
  {
    assert lead[1..] == more;
    assert t == [t[0]] + t[1..];
  }

  /** From between two spans. */
  lemma {:induction false} SpansOf(t: string, total: nat) returns (l: Spans)
    requires Scan(t, total, 0, false).Some?
    ensures t == Text(l) && Scan(t, total, 0, false).value == total + Total(l)
    ensures t != [] ==> l != []
    decreases |t|, 1
  {
    l := [];
    if t != [] {
      var lead, u, rest := ScannedIsText(t, total, 0, false);
      l := [Span(lead, u)] + rest;
      assert l[1..] == rest;
    }
  }

  /** Accepted is exactly a non-empty row of numbers with units, and the value is their sum. */
  lemma ParsesExactly(s: string, n: nat)
    ensures Parse(s) == Some(n) <==> exists l: Spans :: l != [] && Text(l) == s && Total(l) == n
  {
    if l: Spans :| l != [] && Text(l) == s && Total(l) == n {
      ScansText(l, 0);
    }
    if Parse(s) == Some(n) {
      var l := SpansOf(s, 0);
      assert l != [] && Text(l) == s && Total(l) == n;
    }
  }

  lemma {:induction false} TextSum(a: Spans, b: Spans)
    ensures Text(a + b) == Text(a) + Text(b) && Total(a + b) == Total(a) + Total(b)
    decreases |a|
  {
    if a == [] {
      assert a + b == b;
    } else {
      TextSum(a[1..], b);
      assert (a + b)[1..] == a[1..] + b;
    }
  }

  /** Two durations in a row are their sum: nothing is read across the join. */
  lemma ParseAdds(a: string, b: string)
    requires Parse(a).Some? && Parse(b).Some?
    ensures Parse(a + b) == Some(Parse(a).value + Parse(b).value)
  {
    ParsesExactly(a, Parse(a).value);
    ParsesExactly(b, Parse(b).value);
    var la: Spans :| la != [] && Text(la) == a && Total(la) == Parse(a).value;
    var lb: Spans :| lb != [] && Text(lb) == b && Total(lb) == Parse(b).value;
    TextSum(la, lb);
    ParsesExactly(a + b, Parse(a).value + Parse(b).value);
  }

  /** One number with a unit: years of 365 days, months of 30, weeks, days, hours, minutes, seconds. */
  lemma UnitsSay(d: Digits)
    requires d != []
    ensures var n := Number(d, 0);
      && Parse(d + "y") == Some(n * (365 * 24 * 60 * 60)) && Parse(d + "mo") == Some(n * (30 * 24 * 60 * 60))
      && Parse(d + "w") == Some(n * (7 * 24 * 60 * 60)) && Parse(d + "d") == Some(n * (24 * 60 * 60))
      && Parse(d + "h") == Some(n * (60 * 60)) && Parse(d + "m") == Some(n * 60) && Parse(d + "s") == Some(n)
  {
    UnitSays(d, Year);
    UnitSays(d, Month);
    UnitSays(d, Week);
    UnitSays(d, Day);
    UnitSays(d, Hour);
    UnitSays(d, Minute);
    UnitSays(d, Second);
  }

  lemma UnitSays(d: Digits, u: Unit)
    requires d != []
    ensures Parse(d + Suffix(u)) == Some(Number(d, 0) * Seconds(u))
  {
    var l: Spans := [Span(d, u)];
    assert l[1..] == [] && Text([]) == [] && Total([]) == 0;
    assert Text(l) == d + Suffix(u) + [] == d + Suffix(u);
    assert l != [] && Total(l) == Number(d, 0) * Seconds(u);
    ParsesExactly(d + Suffix(u), Number(d, 0) * Seconds(u));
  }

  // ---------------------------------------------------------------------------
  // The formatter

  /** The units a duration is written in, largest first. */
  const WRITTEN: seq<Unit> := [Week, Day, Hour, Minute, Second]

  /** How much of each: weeks without bound, then d < 7, h < 24, m < 60, s < 60. */
  function Amount(n: nat, u: Unit): nat {
    match u
    case Week => n / 604800
    case Day => n / 86400 % 7
    case Hour => n / 3600 % 24
    case Minute => n / 60 % 60
    case Second => n % 60
    case _ => 0
  }

  /** The amounts that are not zero, from the i-th unit on. */
  function Written(n: nat, i: nat): Spans
    decreases |WRITTEN| - i
  {
    if i >= |WRITTEN| then []
    else if Amount(n, WRITTEN[i]) == 0 then Written(n, i + 1)
    else [Span(Decimal(Amount(n, WRITTEN[i])), WRITTEN[i])] + Written(n, i + 1)
  }

  function Format(n: int): string {
    var m := if n < 0 then 0 else n;
    if m == 0 then "0s" else Text(Written(m, 0))
  }

  /** What is left once the units before the i-th have been taken out. */
  function Left(n: nat, i: nat): nat
    requires i <= |WRITTEN|
  {
    if i == 0 then n
    else if i == 1 then n % 604800
    else if i == 2 then n % 86400
    else if i == 3 then n % 3600
    else if i == 4 then n % 60
    else 0
  }

  lemma WeeksOut(n: nat)
    ensures n % 604800 / 86400 == n / 86400 % 7 && n % 604800 % 86400 == n % 86400
  {
    var w, x, y := n / 604800, n % 604800 / 86400, n % 604800 % 86400;
    assert n == 86400 * (7 * w + x) + y;
    assert n / 86400 == 7 * w + x;
  }

  lemma DaysOut(n: nat)
    ensures n % 86400 / 3600 == n / 3600 % 24 && n % 86400 % 3600 == n % 3600
  {
    var w, x, y := n / 86400, n % 86400 / 3600, n % 86400 % 3600;
    assert n == 3600 * (24 * w + x) + y;
    assert n / 3600 == 24 * w + x;
  }

  lemma HoursOut(n: nat)
    ensures n % 3600 / 60 == n / 60 % 60 && n % 3600 % 60 == n % 60
  {
    var w, x, y := n / 3600, n % 3600 / 60, n % 3600 % 60;
    assert n == 60 * (60 * w + x) + y;
    assert n / 60 == 60 * w + x;
  }

  lemma TakesOut(n: nat, i: nat)
    requires i < |WRITTEN|
    ensures var secs := Seconds(WRITTEN[i]);
      Left(n, i) / secs == Amount(n, WRITTEN[i]) && Left(n, i) % secs == Left(n, i + 1)
  {
    if i == 1 { WeeksOut(n); }
    if i == 2 { DaysOut(n); }
    if i == 3 { HoursOut(n); }
  }

  lemma WrittenNext(n: nat, i: nat)
    requires i < |WRITTEN|
    ensures var u := WRITTEN[i]; var a := Amount(n, u);
      && Text(Written(n, i)) == (if a == 0 then [] else Decimal(a) + Suffix(u)) + Text(Written(n, i + 1))
      && Total(Written(n, i)) == a * Seconds(u) + Total(Written(n, i + 1))
  {
    var u := WRITTEN[i];
    var a, rest := Amount(n, u), Written(n, i + 1);
    if a > 0 {
      var l: Spans := [Span(Decimal(a), u)] + rest;
      assert Written(n, i) == l && l[1..] == rest;
      DecimalReads(a);
    }
  }

  lemma {:induction false} WrittenTotal(n: nat, i: nat)
    requires i <= |WRITTEN|
    ensures Total(Written(n, i)) == Left(n, i)
    decreases |WRITTEN| - i
  {
    if i < |WRITTEN| {
      TakesOut(n, i);
      WrittenNext(n, i);
      WrittenTotal(n, i + 1);
      Divides(Left(n, i), Seconds(WRITTEN[i]));
    }
  }

  lemma Divides(n: nat, d: nat)
    requires d > 0
    ensures n == n / d * d + n % d
  {
  }

  lemma WrittenText(n: nat)
    ensures n > 0 <==> Text(Written(n, 0)) != []
  {
    WrittenTotal(n, 0);
    ScansText(Written(n, 0), 0);
    ScansText([], 0);
  }

  /** One amount with its letter, nothing if it is zero. */
  function Part(a: nat, letter: char): string { if a == 0 then "" else Decimal(a) + [letter] }

  /** So many weeks, days, hours, minutes and seconds are written as just that, what is zero left out. */
  lemma FormatSays(w: nat, d: nat, h: nat, m: nat, s: nat)
    requires d < 7 && h < 24 && m < 60 && s < 60
    ensures var n := 604800 * w + 86400 * d + 3600 * h + 60 * m + s;
      Format(n) == if n == 0 then "0s"
                   else Part(w, 'w') + (Part(d, 'd') + (Part(h, 'h') + (Part(m, 'm') + Part(s, 's'))))
  {
    var n := 604800 * w + 86400 * d + 3600 * h + 60 * m + s;
    AmountsAre(n, w, d, h, m, s);
    WrittenSays(n);
  }

  lemma WrittenSays(n: nat)
    ensures Text(Written(n, 0)) == Part(Amount(n, Week), 'w') + (Part(Amount(n, Day), 'd') +
      (Part(Amount(n, Hour), 'h') + (Part(Amount(n, Minute), 'm') + Part(Amount(n, Second), 's'))))
  {
    PartNext(n, 0, 'w');
    PartNext(n, 1, 'd');
    PartNext(n, 2, 'h');
    PartNext(n, 3, 'm');
    PartNext(n, 4, 's');
    Regroup(Part(Amount(n, Second), 's'), [], []);
  }

  lemma PartNext(n: nat, i: nat, letter: char)
    requires i < 5 && [letter] == Suffix(WRITTEN[i])
    ensures Text(Written(n, i)) == Part(Amount(n, WRITTEN[i]), letter) + Text(Written(n, i + 1))
  {
    WrittenNext(n, i);
  }

  lemma AmountsAre(n: nat, w: nat, d: nat, h: nat, m: nat, s: nat)
    requires d < 7 && h < 24 && m < 60 && s < 60 && n == 604800 * w + 86400 * d + 3600 * h + 60 * m + s
    ensures Amount(n, Week) == w && Amount(n, Day) == d && Amount(n, Hour) == h
    ensures Amount(n, Minute) == m && Amount(n, Second) == s
  {
    assert n / 86400 == 7 * w + d;
    assert n / 3600 == 24 * (7 * w + d) + h;
    assert n / 60 == 60 * (24 * (7 * w + d) + h) + m;
  }

  /** time.format */
  method LFormat(n: int) returns (s: string)
    ensures s == Format(n)
  {
    var m := if n < 0 then 0 else n;
    var seconds, wrote := m, false;
    s := [];
    var i := 0;
    while i < |WRITTEN|
      invariant 0 <= i <= |WRITTEN| && seconds == Left(m, i)
      invariant s + Text(Written(m, i)) == Text(Written(m, 0))
      invariant wrote == (s != [])
    {
      TakesOut(m, i);
      WrittenNext(m, i);
      var value, part := TakeUnit(seconds, WRITTEN[i]);
      Regroup(s, part, Text(Written(m, i + 1)));
      if value > 0 {
        s := s + part;
        seconds, wrote := seconds % Seconds(WRITTEN[i]), true;
      }
      i := i + 1;
    }
    Regroup(s, [], []);
    WrittenText(m);
    if !wrote { s := "0s"; }
  }

  method TakeUnit(seconds: nat, u: Unit) returns (value: nat, part: string)
    ensures value == seconds / Seconds(u) && part == (if value == 0 then [] else Decimal(value) + Suffix(u))
    ensures value == 0 ==> seconds % Seconds(u) == seconds
    ensures value > 0 ==> part != []
  {
    value := seconds / Seconds(u);
    part := if value > 0 then Decimal(value) + Suffix(u) else [];
  }

  lemma Regroup(a: string, b: string, c: string)
    ensures a + (b + c) == a + b + c && a + [] == a && [] + c == c
  {
  }

  /** Formatting and parsing again changes nothing. */
  lemma FormatParses(n: nat)
    ensures Parse(Format(n)) == Some(n)
  {
    if n == 0 {
      var l: Spans := [Span("0", Second)];
      assert l[1..] == [] && "0"[1..] == [];
      assert Text(l) == "0s" && Total(l) == 0;
      ParsesExactly("0s", 0);
    } else {
      WrittenTotal(n, 0);
      ParsesExactly(Format(n), n);
    }
  }

  /** Within the 32 bits of lua_Integer, parse undoes format. */
  lemma RoundTrip(n: nat)
    requires n < 0x8000_0000
    ensures Parse(Format(n)).Some? && ToLuaInteger(Parse(Format(n)).value) == n
  {
    FormatParses(n);
    Wraps(n);
  }

  /** Past 32 bits the value wraps around. */
  lemma Wraps(n: int)
    ensures -2147483648 <= ToLuaInteger(n) <= 2147483647 && (n - ToLuaInteger(n)) % 4294967296 == 0
    ensures -2147483648 <= n <= 2147483647 ==> ToLuaInteger(n) == n
  {
  }

  lemma FormatInjective(a: nat, b: nat)
    requires Format(a) == Format(b)
    ensures a == b
  {
    FormatParses(a);
    FormatParses(b);
  }
}
