/** The error reporter: bursts are printed, floods are muted, nothing is lost count of. */
module ErrorLimiter {

  const ERROR_BURST := 3
  const ERROR_MUTE_SECONDS := 60.0

  datatype Record = Record(seen: nat, muted: nat, until: real)

  const FRESH := Record(0, 0, 0.0)

  /** `announced` is the number given in the "N more" line, `mutes` whether this report starts a mute. */
  datatype Outcome = Muted | Printed(announced: nat, mutes: bool)

  function Report(rec: Record, now: real): (Record, Outcome) {
    if rec.until > now then (rec.(muted := rec.muted + 1), Muted)
    else
      var seen := (if rec.muted > 0 then 0 else rec.seen) + 1;
      var mutes := seen >= ERROR_BURST;
      (Record(seen, 0, if mutes then now + ERROR_MUTE_SECONDS else rec.until), Printed(rec.muted, mutes))
  }

  /** One error occurring at these times, one after the other. */
  function After(times: seq<real>): Record {
    if times == [] then FRESH else Report(After(times[..|times| - 1]), times[|times| - 1]).0
  }

  function Out(times: seq<real>, i: nat): Outcome
    requires i < |times|
  {
    Report(After(times[..i]), times[i]).1
  }

  /** A clock that does not run backwards. */
  ghost predicate Clock(times: seq<real>) {
    && (forall i :: 0 <= i < |times| ==> times[i] >= 0.0)
    && (forall i, j :: 0 <= i <= j < |times| ==> times[i] <= times[j])
  }

  lemma AfterNext(times: seq<real>, k: nat)
    requires k < |times|
    ensures After(times[..k + 1]) == Report(After(times[..k]), times[k]).0
  {
    assert times[..k + 1][..k] == times[..k];
  }

  // ---------------------------------------------------------------------------
  // Spacing

  /** While only muted occurrences follow a report, the record remembers that report. */
  lemma {:induction false} SinceReport(times: seq<real>, i: nat, k: nat)
    requires Clock(times) && i < k <= |times| && Out(times, i).Printed?
    requires forall m :: i < m < k ==> Out(times, m).Muted?
    ensures var rec, after := After(times[..i + 1]), After(times[..k]);
      after.seen == rec.seen && after.until == rec.until && after.muted == k - i - 1
    decreases k
  {
    if k == i + 1 {
      AfterNext(times, i);
    } else {
      SinceReport(times, i, k - 1);
      AfterNext(times, k - 1);
      assert Out(times, k - 1).Muted?;
    }
  }

  /** The report before j, when there is one after i. */
  lemma {:induction false} LastReport(times: seq<real>, i: nat, j: nat) returns (p: nat)
    requires i < j <= |times| && Out(times, i).Printed?
    ensures i <= p < j && Out(times, p).Printed? && forall m :: p < m < j ==> Out(times, m).Muted?
    decreases j - i
  {
    p := j - 1;
    if Out(times, p).Muted? { p := LastReport(times, i, j - 1); }
  }

  /** Nothing of an error is printed during the 60 seconds after a report that mutes it. */
  lemma {:induction false} MuteLasts(times: seq<real>, i: nat, j: nat)
    requires Clock(times) && i < j < |times| && Out(times, j).Printed?
    requires Out(times, i).Printed? && Out(times, i).mutes
    ensures times[j] >= times[i] + 60.0
    decreases j
  {
    var p := LastReport(times, i, j);
    if p > i {
      MuteLasts(times, i, p);
    } else {
      SinceReport(times, i, j);
      AfterNext(times, i);
    }
  }

  /** When the 60 seconds are over the next occurrence is printed, with the number of those muted; it starts another
      mute at once exactly when there were none. */
  lemma MuteEnds(times: seq<real>, i: nat, j: nat)
    requires Clock(times) && i < j < |times| && Out(times, i).Printed? && Out(times, i).mutes
    requires (forall m :: i < m < j ==> Out(times, m).Muted?) && times[j] >= times[i] + 60.0
    ensures Out(times, j) == Printed(j - i - 1, j == i + 1)
  {
    AfterNext(times, i);
    SinceReport(times, i, j);
  }

  /** The first three occurrences of an error are printed, and the third starts a mute. */
  lemma FirstThree(times: seq<real>)
    requires Clock(times) && |times| >= 3
    ensures Out(times, 0) == Printed(0, false) && Out(times, 1) == Printed(0, false)
    ensures Out(times, 2) == Printed(0, true)
  {
    AfterNext(times, 0);
    AfterNext(times, 1);
  }

  /** After a mute with something to announce, three are printed again, as from the start. */
  lemma StartsOver(times: seq<real>, i: nat, j: nat)
    requires Clock(times) && i + 1 < j && j + 2 < |times| && Out(times, i).Printed? && Out(times, i).mutes
    requires (forall m :: i < m < j ==> Out(times, m).Muted?) && times[j] >= times[i] + 60.0
    ensures Out(times, j + 1) == Printed(0, false) && Out(times, j + 2) == Printed(0, true)
  {
    MuteEnds(times, i, j);
    AfterNext(times, i);
    SinceReport(times, i, j);
    AfterNext(times, j);
    AfterNext(times, j + 1);
  }

  /** A report that does not mute is followed by one that counts it in. */
  lemma CountsOn(times: seq<real>, i: nat, j: nat)
    requires Clock(times) && i < j < |times| && Out(times, i).Printed? && !Out(times, i).mutes && Out(times, j).Printed?
    requires forall m :: i < m < j ==> Out(times, m).Muted?
    ensures j == i + 1 && After(times[..j + 1]).seen == After(times[..i + 1]).seen + 1
  {
    AfterNext(times, i);
    SinceReport(times, i, i + 1);
    assert times[i] <= times[i + 1];
    assert Out(times, i + 1).Printed?;
    AfterNext(times, j);
  }

  /** The next report after i. */
  lemma {:induction false} NextReport(times: seq<real>, i: nat, j: nat) returns (p: nat)
    requires i < j < |times| && Out(times, j).Printed?
    ensures i < p <= j && Out(times, p).Printed? && forall m :: i < m < p ==> Out(times, m).Muted?
    decreases j - i
  {
    p := i + 1;
    if Out(times, p).Muted? { p := NextReport(times, i + 1, j); }
  }

  /** Any four reports of one error span at least 60 seconds. */
  lemma FourReportsSpan(times: seq<real>, a: nat, b: nat, c: nat, d: nat)
    requires Clock(times) && a < b < c < d < |times|
    requires Out(times, a).Printed? && Out(times, b).Printed? && Out(times, c).Printed? && Out(times, d).Printed?
    ensures times[d] - times[a] >= 60.0
  {
    if Out(times, a).mutes { MuteLasts(times, a, d); }
    else {
      var b' := NextReport(times, a, b);
      CountsOn(times, a, b');
      AfterNext(times, a);
      if Out(times, b').mutes { MuteLasts(times, b', d); }
      else {
        var c' := NextReport(times, b', c);
        CountsOn(times, b', c');
        AfterNext(times, c');
        MuteLasts(times, c', d);
      }
    }
  }

  // ---------------------------------------------------------------------------
  // Nothing is lost count of

  function PrintedCount(times: seq<real>): nat {
    if times == [] then 0 else
      PrintedCount(times[..|times| - 1]) + if Out(times, |times| - 1).Printed? then 1 else 0
  }

  function Announced(times: seq<real>): nat {
    if times == [] then 0 else
      var o := Out(times, |times| - 1);
      Announced(times[..|times| - 1]) + if o.Printed? then o.announced else 0
  }

  /** Every occurrence was printed, was counted in an "N more" line, or waits to be. */
  lemma {:induction false} NothingLost(times: seq<real>)
    ensures |times| == PrintedCount(times) + Announced(times) + After(times).muted
  {
    if times != [] { NothingLost(times[..|times| - 1]); }
  }

  // ---------------------------------------------------------------------------
  // The reporter

  /** The place and the first line of the text. */
  function Key(where_: string, text: string): string { where_ + "\n" + FirstLine(text) }

  function FirstLine(text: string): string {
    if text == [] || text[0] == '\n' then [] else [text[0]] + FirstLine(text[1..])
  }

  /** The lines printed under a report: those that are not empty. */
  function Lines(text: string): seq<string>
    decreases |text|
  {
    var first := FirstLine(text);
    FirstLineFits(text);
    (if first == [] then [] else [first]) + if |first| == |text| then [] else Lines(text[|first| + 1..])
  }

  lemma {:induction false} FirstLineFits(text: string)
    ensures |FirstLine(text)| <= |text| && FirstLine(text) == text[..|FirstLine(text)|]
    ensures |FirstLine(text)| < |text| ==> text[|FirstLine(text)|] == '\n'
    ensures forall i :: 0 <= i < |FirstLine(text)| ==> text[i] != '\n'
  {
    if text != [] && text[0] != '\n' { FirstLineFits(text[1..]); }
  }

  lemma NoBreakWithin(text: string)
    ensures '\n' !in FirstLine(text)
  {
    FirstLineFits(text);
  }

  /** Two errors are counted as one exactly when they are from the same place and say the same in their first line. */
  lemma SameKeyExactly(w1: string, t1: string, w2: string, t2: string)
    ensures Key(w1, t1) == Key(w2, t2) <==> w1 == w2 && FirstLine(t1) == FirstLine(t2)
  {
    NoBreakWithin(t1);
    NoBreakWithin(t2);
    if Key(w1, t1) == Key(w2, t2) { LastBreak(w1, FirstLine(t1), w2, FirstLine(t2)); }
  }

  /** A text splits in one way at its last line break. */
  lemma LastBreak(w1: string, f1: string, w2: string, f2: string)
    requires w1 + "\n" + f1 == w2 + "\n" + f2 && '\n' !in f1 && '\n' !in f2
    ensures w1 == w2 && f1 == f2
  {
    var k := w1 + "\n" + f1;
    assert forall i :: |w1| < i < |k| ==> k[i] == f1[i - |w1| - 1];
    assert forall i :: |w2| < i < |k| ==> k[i] == f2[i - |w2| - 1];
    assert k[|w1|] == '\n' && k[|w2|] == '\n';
    assert k[..|w1|] == w1 && k[..|w2|] == w2 && k[|w1| + 1..] == f1 && k[|w2| + 1..] == f2;
  }

  lemma {:induction false} FirstLineIs(a: string, b: string)
    requires '\n' !in a && (b == [] || b[0] == '\n')
    ensures FirstLine(a + b) == a
  {
    if a == [] {
      assert a + b == b;
    } else {
      assert (a + b)[1..] == a[1..] + b;
      FirstLineIs(a[1..], b);
    }
  }

  /** A text is printed line by line: a line as it is unless it is empty, and after it the rest. */
  lemma LinesSay(line: string, rest: string)
    requires '\n' !in line
    ensures Lines(line) == if line == [] then [] else [line]
    ensures Lines(line + "\n" + rest) == Lines(line) + Lines(rest)
  {
    var text := line + ("\n" + rest);
    FirstLineIs(line, []);
    FirstLineIs(line, "\n" + rest);
    assert line + [] == line && text == line + "\n" + rest && text[|line| + 1..] == rest;
  }

  /** What is still to be printed from `start` on. */
  function LinesFrom(text: string, start: nat): seq<string> {
    if start <= |text| then Lines(text[start..]) else []
  }

  lemma LinesNext(text: string, start: nat)
    requires start <= |text|
    ensures var first := FirstLine(text[start..]);
      && start + |first| <= |text|
      && LinesFrom(text, start) == (if first == [] then [] else [first]) + LinesFrom(text, start + |first| + 1)
  {
    var rest := text[start..];
    var first := FirstLine(rest);
    FirstLineFits(rest);
    if |first| < |rest| { assert rest[|first| + 1..] == text[start + |first| + 1..]; }
  }

  lemma Regroup(a: seq<string>, b: seq<string>, c: seq<string>)
    ensures a + (b + c) == a + b + c && a + [] == a
  {
  }

  class Reporter {
    var errors: map<string, Record>
    /** When each error occurred. */
    ghost var history: map<string, seq<real>>

    ghost function Times(key: string): seq<real> reads this { if key in history then history[key] else [] }

    ghost predicate Valid() reads this {
      && errors.Keys == history.Keys
      && forall key :: key in errors ==> errors[key] == After(history[key])
    }

    constructor ()
      ensures Valid() && history == map[]
    {
      errors, history := map[], map[];
    }

    /** report_error: what is printed, and the record kept under this error's key alone. */
    method ReportError(where_: string, text: string, now: real) returns (out: Outcome, lines: seq<string>)
      requires Valid()
      modifies this
      ensures Valid()
      ensures var key := Key(where_, text);
        history == old(history)[key := old(Times(key)) + [now]] && out == Out(Times(key), |old(Times(key))|)
      ensures lines == if out.Muted? then [] else Lines(text)
    {
      var first := FirstLineOf(text);
      var key := where_ + "\n" + first;
      var rec := if key in errors then errors[key] else FRESH;
      ghost var times := Times(key) + [now];
      assert times[..|times| - 1] == Times(key);
      rec, out := Count(rec, now);
      lines := [];
      if out.Printed? { lines := PrintLines(text); }
      history := history[key := times];
      errors := errors[key := rec];
    }

    /** What one more occurrence makes of an error's record. */
    method Count(before: Record, now: real) returns (rec: Record, out: Outcome)
      ensures (rec, out) == Report(before, now)
    {
      rec := before;
      if rec.until > now { return rec.(muted := rec.muted + 1), Muted; }
      var more := rec.muted;
      if rec.muted > 0 { rec := rec.(muted := 0, seen := 0); }
      rec := rec.(seen := rec.seen + 1);
      out := Printed(more, rec.seen >= ERROR_BURST);
      if rec.seen >= ERROR_BURST { rec := rec.(until := now + ERROR_MUTE_SECONDS); }
    }

    method FirstLineOf(text: string) returns (first: string)
      ensures first == FirstLine(text)
    {
      var i := 0;
      while i < |text| && text[i] != '\n'
        invariant i <= |text| && FirstLine(text) == text[..i] + FirstLine(text[i..])
      {
        assert text[i..][1..] == text[i + 1..];
        i := i + 1;
      }
      return text[..i];
    }

    method PrintLines(text: string) returns (lines: seq<string>)
      ensures lines == Lines(text)
    {
      lines := [];
      ghost var goal, left := Lines(text), Lines(text);
      var start := 0;
      assert text[0..] == text;
      while start <= |text|
        invariant start <= |text| + 1 && left == LinesFrom(text, start) && goal == lines + left
        decreases |text| + 1 - start
      {
        var more, next := NextLine(text, start);
        Regroup(lines, more, LinesFrom(text, next));
        left := LinesFrom(text, next);
        lines, start := lines + more, next;
      }
      Regroup(lines, [], []);
    }

    /** The line at `start`, unless it is empty. */
    method NextLine(text: string, start: nat) returns (more: seq<string>, next: nat)
      requires start <= |text|
      ensures start < next <= |text| + 1 && LinesFrom(text, start) == more + LinesFrom(text, next)
    {
      LinesNext(text, start);
      var first := FirstLineOf(text[start..]);
      more := if first == [] then [] else [first];
      next := start + |first| + 1;
    }
  }
}
