/** Who may touch a timer: only what is aimed at it. Left alone, it is called in the first pass that reaches it. */
module TimerFate {
  import opened TimerSpec
  import opened TimerLaws

  // ---------------------------------------------------------------------------
  // Being left alone

  /** A cancel of its id, or its plugin's create or destroy under its name. */
  predicate AimedAt(op: Op, t: Timer) {
    match op
    case Cancel(id) => id == t.id
    case Create(plugin, name, seconds, _, _) => plugin == t.plugin && name == t.name && seconds > 0.0
    case Destroy(plugin, name) => plugin == t.plugin && name == t.name
    case _ => false
  }

  predicate ScriptSpares(script: Script, t: Timer) { forall i :: 0 <= i < |script| ==> !AimedAt(script[i], t) }

  predicate CallsSpare(calls: Calls, t: Timer) {
    calls.Silent? || (ScriptSpares(calls.body, t) && CallsSpare(calls.later, t))
  }

  /** Nothing aimed at it, its plugin not unloaded, and no map change unless it persists. */
  predicate StepSpares(step: Step, t: Timer) {
    match step
    case Tick(_) => true
    case Plugins(script) => ScriptSpares(script, t)
    case RunFrame(calls) => CallsSpare(calls, t)
    case ChangeMap => t.persist
    case Unload(plugin) => plugin != t.plugin
  }

  predicate StepsSpare(steps: seq<Step>, t: Timer) { forall i :: 0 <= i < |steps| ==> StepSpares(steps[i], t) }

  /** Still live, under its own id, plugin and name; only a map change may have put off its moment. */
  ghost predicate StillThere(l: seq<Timer>, t: Timer) {
    exists x :: x in l && !x.dead && x == t.(due := x.due, dead := false)
  }

  ghost predicate NothingAbout(a: seq<Entry>, b: seq<Entry>, id: nat) {
    a <= b && forall k :: |a| <= k < |b| ==> !About(b[k], id)
  }

  /** The first thing that happens to it is that it is called. */
  ghost predicate CalledFirst(a: seq<Entry>, b: seq<Entry>, id: nat) {
    a <= b && exists k: nat :: FirstAbout(b, |a|, k, id) && b[k].Fired?
  }

  ghost predicate Spared(s: State, s': State, t: Timer) {
    CalledFirst(s.log, s'.log, t.id) || (NothingAbout(s.log, s'.log, t.id) && StillThere(s'.timers, t))
  }

  lemma CalledOnly(a: seq<Entry>, b: seq<Entry>, c: seq<Entry>, id: nat)
    requires b <= c
    ensures CalledFirst(a, b, id) ==> CalledFirst(a, c, id)
    ensures NothingAbout(a, b, id) && CalledFirst(b, c, id) ==> CalledFirst(a, c, id)
    ensures NothingAbout(a, b, id) && NothingAbout(b, c, id) ==> NothingAbout(a, c, id)
  {
    assert forall k :: 0 <= k < |b| ==> c[k] == b[k];
    if CalledFirst(a, b, id) {
      var k: nat :| FirstAbout(b, |a|, k, id) && b[k].Fired?;
      assert FirstAbout(c, |a|, k, id);
    }
    if NothingAbout(a, b, id) && CalledFirst(b, c, id) {
      var k: nat :| FirstAbout(c, |b|, k, id) && c[k].Fired?;
      assert FirstAbout(c, |a|, k, id);
    }
  }

  lemma SparedTrans(a: State, b: State, c: State, t: Timer)
    requires Spared(a, b, t) && b.log <= c.log
    requires StillThere(b.timers, t) ==> Spared(b, c, t)
    ensures Spared(a, c, t)
  {
    CalledOnly(a.log, b.log, c.log, t.id);
  }

  /** Who has its id is it. */
  lemma Itself(l: seq<Timer>, t: Timer, x: Timer)
    requires Ascending(l) && StillThere(l, t) && x in l && x.id == t.id
    ensures !x.dead && x.plugin == t.plugin && x.name == t.name && x.persist == t.persist
  {
    var y :| y in l && !y.dead && y == t.(due := y.due, dead := false);
    SameTimer(l, x, y);
  }

  lemma PutThere(l: seq<Timer>, i: nat, u: Timer, t: Timer)
    requires Ascending(l) && i < |l| && l[i].id != t.id && StillThere(l, t)
    ensures StillThere(l[i := u], t)
  {
    var y :| y in l && !y.dead && y == t.(due := y.due, dead := false);
    var j :| 0 <= j < |l| && l[j] == y;
    assert l[i := u][j] == y;
  }

  lemma SnocThere(l: seq<Timer>, u: Timer, t: Timer)
    requires StillThere(l, t)
    ensures StillThere(l + [u], t)
  {
    var y :| y in l && !y.dead && y == t.(due := y.due, dead := false);
    assert y in l + [u];
  }

  /** An operation not aimed at a timer leaves it alone. */
  lemma OpSpares(s: State, after: int, op: Op, t: Timer)
    requires Within(s, after) && StillThere(s.timers, t) && !AimedAt(op, t)
    ensures var s' := RunOp(s, op); NothingAbout(s.log, s'.log, t.id) && StillThere(s'.timers, t)
  {
    var y :| y in s.timers && !y.dead && y == t.(due := y.due, dead := false);
    var s' := RunOp(s, op);
    if |s'.timers| > |s.timers| {
      SnocThere(s.timers, s'.timers[|s.timers|], t);
    } else if s' != s {
      var i := if op.Cancel? then IndexOf(s.timers, op.id) else IndexNamed(s.timers, op.plugin, op.name);
      assert s.timers[i] in s.timers;
      if s.timers[i].id == t.id { Itself(s.timers, t, s.timers[i]); }
      PutThere(s.timers, i, s'.timers[i], t);
    }
  }

  lemma {:induction false} ScriptLeaves(s: State, after: int, script: Script, t: Timer)
    requires Within(s, after) && StillThere(s.timers, t) && ScriptSpares(script, t)
    ensures var s' := RunScript(s, script); NothingAbout(s.log, s'.log, t.id) && StillThere(s'.timers, t)
    decreases |script|
  {
    if script != [] {
      OpSpares(s, after, script[0], t);
      OpKeeps(s, after, script[0]);
      ScriptLeaves(RunOp(s, script[0]), after, script[1..], t);
      CalledOnly(s.log, RunOp(s, script[0]).log, RunScript(s, script).log, t.id);
    }
  }

  // ---------------------------------------------------------------------------
  // Passes

  lemma BeginSpares(s: State, i: nat, t: Timer)
    requires i < |s.timers| && Ascending(s.timers) && StillThere(s.timers, t)
    ensures Spared(s, Begin(s, i), t)
    ensures s.timers[i].id == t.id ==> CalledFirst(s.log, Begin(s, i).log, t.id)
  {
    var s' := Begin(s, i);
    if s.timers[i].id == t.id {
      assert FirstAbout(s'.log, |s.log|, |s.log|, t.id) && s'.log[|s.log|].Fired?;
    } else {
      PutThere(s.timers, i, s'.timers[i], t);
    }
  }

  lemma CallSpares(s: State, after: int, i: nat, calls: Calls, t: Timer)
    requires Within(s, after) && i == NextDue(s.timers, s.time, after) && i < |s.timers|
    requires StillThere(s.timers, t) && CallsSpare(calls, t)
    ensures Spared(s, CallOne(s, i, calls), t)
  {
    var begun, id, end := Begin(s, i), s.timers[i].id, CallOne(s, i, calls);
    BeginKeeps(s, after, i);
    BeginSpares(s, i, t);
    if calls.Call? {
      var ran := RunScript(begun, calls.body);
      ScriptGrows(begun, calls.body);
      CalledOnly(s.log, begun.log, end.log, t.id);
      if id != t.id {
        ScriptKeeps(begun, id, calls.body);
        ScriptLeaves(begun, id, calls.body, t);
        SparedTrans(s, begun, ran, t);
        FailSpares(ran, id, i, t);
        SparedTrans(s, ran, end, t);
      }
    }
  }

  lemma FailSpares(s: State, after: int, i: nat, t: Timer)
    requires Within(s, after) && StillThere(s.timers, t) && (i < |s.timers| ==> s.timers[i].id != t.id)
    ensures Spared(s, Fail(s, i), t)
    ensures Spared(s, s, t)
  {
    if i < |s.timers| && !s.timers[i].dead { PutThere(s.timers, i, s.timers[i].(dead := true), t); }
  }

  lemma ScriptGrows(s: State, script: Script)
    ensures s.log <= RunScript(s, script).log
  {
    ScriptUntimed(s, script);
  }

  lemma {:induction false} WalkSpares(s: State, after: int, calls: Calls, t: Timer)
    requires Within(s, after) && StillThere(s.timers, t) && CallsSpare(calls, t)
    ensures Spared(s, Walk(s, after, calls), t)
    decreases calls, s.nextId - after
  {
    var i := NextDue(s.timers, s.time, after);
    if i < |s.timers| {
      var id, next := s.timers[i].id, CallOne(s, i, calls);
      assert s.timers[i] in s.timers;
      CallKeeps(s, after, i, calls);
      CallSpares(s, after, i, calls, t);
      WalkClock(next, id, Rest(calls));
      if StillThere(next.timers, t) { WalkSpares(next, id, Rest(calls), t); }
      SparedTrans(s, next, Walk(next, id, Rest(calls)), t);
    }
  }

  // ---------------------------------------------------------------------------
  // Erasing

  /** Erasing takes out a live timer only to unload its plugin, or in a map change it does not survive. */
  lemma {:induction false} TraceSpares(l: seq<Timer>, p: Purged, t: Timer)
    requires Ascending(l) && StillThere(l, t) && (p == Loose ==> t.persist) && p != Of(t.plugin)
    ensures forall k :: 0 <= k < |Trace(l, p)| ==> !About(Trace(l, p)[k], t.id)
    decreases |l|
  {
    var y :| y in l && !y.dead && y == t.(due := y.due, dead := false);
    var n := |l| - 1;
    if y == l[n] {
      assert forall j :: 0 <= j < n ==> l[..n][j].id < t.id;
      TraceOthers(l[..n], p, t.id);
    } else {
      assert y in l[..n] && l[n].id != t.id;
      TraceSpares(l[..n], p, t);
    }
  }

  lemma {:induction false} TraceOthers(l: seq<Timer>, p: Purged, id: nat)
    requires forall j :: 0 <= j < |l| ==> l[j].id != id
    ensures forall k :: 0 <= k < |Trace(l, p)| ==> !About(Trace(l, p)[k], id)
    decreases |l|
  {
    if l != [] { TraceOthers(l[..|l| - 1], p, id); }
  }

  lemma PurgeSpares(s: State, p: Purged, t: Timer)
    requires Ascending(s.timers) && StillThere(s.timers, t) && (p == Loose ==> t.persist) && p != Of(t.plugin)
    ensures Spared(s, Purge(s, p), t)
  {
    var y :| y in s.timers && !y.dead && y == t.(due := y.due, dead := false);
    KeepIn(s.timers, p, y);
    TraceSpares(s.timers, p, t);
  }

  /** What a frame leaves is what its callbacks left alive, unchanged and in order. */
  lemma FrameLeaves(s: State, calls: Calls, t: Timer)
    requires Inv(s)
    ensures t in Frame(s, calls).timers <==> t in Walk(s.(last := s.time), -1, calls).timers && !t.dead
    ensures Ascending(Frame(s, calls).timers)
  {
    KeepIn(Walk(s.(last := s.time), -1, calls).timers, Dead, t);
    FrameKeeps(s, calls);
  }

  lemma FrameSpares(s: State, calls: Calls, t: Timer)
    requires Inv(s) && StillThere(s.timers, t) && CallsSpare(calls, t)
    ensures Spared(s, Frame(s, calls), t)
  {
    var s0 := s.(last := s.time);
    var w := Walk(s0, -1, calls);
    var ended := Logged(w, PassEnd(w.time));
    QuietNow(s.log, s.time);
    RefsSame(s, s0);
    var end := WalkKeeps(s0, -1, calls);
    WalkSpares(s0, -1, calls, t);
    SparedTrans(s, w, ended, t);
    if StillThere(w.timers, t) { PurgeSpares(ended, Dead, t); }
    SparedTrans(s, ended, Frame(s, calls), t);
  }

  lemma MapSpares(s: State, t: Timer)
    requires Inv(s) && StillThere(s.timers, t) && t.persist
    ensures Spared(s, MapChange(s), t)
  {
    var changed := Logged(s, MapChanged(s.last)).(timers := Raise(s.timers, s.last), time := s.last);
    var y :| y in s.timers && !y.dead && y == t.(due := y.due, dead := false);
    RaiseIn(s.timers, s.last, y.(due := Max(y.due, s.last)));
    RaiseKeeps(s);
    PurgeSpares(changed, Loose, t);
    SparedTrans(s, changed, MapChange(s), t);
  }

  // ---------------------------------------------------------------------------
  // Whole runs

  lemma StepLeaves(s: State, step: Step, t: Timer)
    requires Inv(s) && StillThere(s.timers, t) && StepSpares(step, t)
    ensures Spared(s, Next(s, step), t)
  {
    match step
    case Tick(time) =>
    case Plugins(script) =>
      QuietNow(s.log, s.time);
      ScriptLeaves(s, -1, script, t);
    case RunFrame(calls) => FrameSpares(s, calls, t);
    case ChangeMap => MapSpares(s, t);
    case Unload(plugin) => PurgeSpares(s, Of(plugin), t);
  }

  lemma {:induction false} RunGrows(s: State, steps: seq<Step>)
    ensures s.log <= Run(s, steps).log
    decreases |steps|
  {
    if steps != [] {
      StepGrows(s, steps[0]);
      RunGrows(Next(s, steps[0]), steps[1..]);
    }
  }

  lemma StepGrows(s: State, step: Step)
    ensures s.log <= Next(s, step).log
  {
    match step
    case Tick(time) =>
    case Plugins(script) => ScriptGrows(s, script);
    case RunFrame(calls) => WalkClock(s.(last := s.time), -1, calls);
    case ChangeMap =>
    case Unload(plugin) =>
  }

  lemma {:induction false} RunSpares(s: State, steps: seq<Step>, t: Timer)
    requires Inv(s) && StillThere(s.timers, t) && StepsSpare(steps, t)
    ensures Spared(s, Run(s, steps), t)
    decreases |steps|
  {
    if steps != [] {
      var next := Next(s, steps[0]);
      StepKeeps(s, steps[0]);
      StepLeaves(s, steps[0], t);
      StepGrows(s, steps[0]);
      RunGrows(next, steps[1..]);
      if StillThere(next.timers, t) { RunSpares(next, steps[1..], t); }
      SparedTrans(s, next, Run(s, steps), t);
    }
  }

  lemma {:induction false} RunSplits(s: State, a: seq<Step>, b: seq<Step>)
    ensures Run(s, a + b) == Run(Run(s, a), b)
    ensures AllForward(s, a + b) <==> AllForward(s, a) && AllForward(Run(s, a), b)
    decreases |a|
  {
    if a == [] {
      assert a + b == b;
    } else {
      assert (a + b)[1..] == a[1..] + b;
      RunSplits(Next(s, a[0]), a[1..], b);
    }
  }

  /** A live timer leaves the list, or is set anew, only by a cancel, create or destroy aimed at it, the unloading of
      its plugin, a map change it does not persist through, or after being called. */
  lemma OnlyTouched(before: seq<Step>, steps: seq<Step>, t: Timer)
    requires t in Run(INIT, before).timers && !t.dead && StepsSpare(steps, t)
    ensures Spared(Run(INIT, before), Run(Run(INIT, before), steps), t)
  {
    InitOk();
    RunKeeps(INIT, before);
    RunSpares(Run(INIT, before), steps, t);
  }

  /** A live timer nothing is aimed at is called in the first pass whose time reaches its moment, at that time, and
      nothing happens to it before. */
  lemma FiresUnlessTouched(before: seq<Step>, steps: seq<Step>, t: Timer, j: nat) returns (k: nat)
    requires AllForward(INIT, before + steps)
    requires t in Run(INIT, before).timers && !t.dead && StepsSpare(steps, t)
    requires FirstReaching(Run(INIT, before + steps).log, |Run(INIT, before).log|, j, t.due)
    ensures var log := Run(INIT, before + steps).log;
      && k < j && SamePass(log, k, j) && log[k] == Fired(t.id, log[j].at)
      && FirstAbout(log, |Run(INIT, before).log|, k, t.id)
  {
    var s, log := Run(INIT, before), Run(INIT, before + steps).log;
    RunSplits(INIT, before, steps);
    RunGrows(s, steps);
    AnyRun(before);
    AnyRun(before + steps);
    RunClock(INIT, before + steps);
    assert log[..|s.log|] == s.log;
    OnlyTouched(before, steps, t);
    k := CalledThere(s, log, Run(INIT, before + steps).last, j, t);
  }

  lemma CalledThere(s: State, log: seq<Entry>, last: real, j: nat, t: Timer) returns (k: nat)
    requires Planned(s.timers, s.log) && t in s.timers && !t.dead && s.log <= log && log[..|s.log|] == s.log
    requires Punctual(log) && OnTime(log) && Rising(log, last) && FirstReaching(log, |s.log|, j, t.due)
    requires CalledFirst(s.log, log, t.id) || NothingAbout(s.log, log, t.id)
    ensures k < j && SamePass(log, k, j) && log[k] == Fired(t.id, log[j].at) && FirstAbout(log, |s.log|, k, t.id)
  {
    k := FiresThere(log, |s.log|, j, t.id);
    var first: nat :| FirstAbout(log, |s.log|, first, t.id) && log[first].Fired?;
    assert first == k;
  }

  // ---------------------------------------------------------------------------
  // What plugins ask for

  ghost predicate IsSet(s: State, ref: nat, plugin: int, name: string, due: real, interval: real, persist: bool) {
    exists t :: t in s.timers && !t.dead && t.ref == ref && t.plugin == plugin && t.name == name && t.due == due
      && t.interval == interval && t.persist == persist
  }

  /** No other live timer has its id, nor its plugin and name if it has one. */
  lemma NoneLive(l: seq<Timer>, i: nat)
    requires Ascending(l) && NamesUnique(l) && i <= |l| && (i < |l| ==> !l[i].dead)
    ensures i < |l| ==> forall t :: t in l[i := l[i].(dead := true)] && !t.dead ==>
      t in l && t.id != l[i].id && (t.plugin == l[i].plugin && t.name == l[i].name ==> t.name == "")
  {
    if i < |l| {
      forall t | t in l[i := l[i].(dead := true)] && !t.dead
        ensures t in l && t.id != l[i].id && (t.plugin == l[i].plugin && t.name == l[i].name ==> t.name == "")
      {
        var j :| 0 <= j < |l| && l[i := l[i].(dead := true)][j] == t;
        assert l[j] == t;
      }
    }
  }

  /** What an operation asks for is what is set; a repeat without a positive interval is refused. */
  lemma SetsAsAsked(s: State, op: Op)
    requires Inv(s)
    ensures var s' := RunOp(s, op);
      match op
      case After(plugin, delay, persist) =>
        IsSet(s', s.nextRef, plugin, "", if delay < 0.0 then s.time else s.time + delay, 0.0, persist)
      case Every(plugin, interval, persist) =>
        if interval <= 0.0 then s' == s else IsSet(s', s.nextRef, plugin, "", s.time + interval, interval, persist)
      case Cancel(id) => forall t :: t in s'.timers && t.id == id ==> t.dead
      case Create(plugin, name, seconds, once, persist) =>
        if seconds <= 0.0 then s' == s else
          IsSet(s', s.nextRef, plugin, name, s.time + seconds, if once then 0.0 else seconds, persist)
      case Destroy(plugin, name) =>
        name == "" || forall t :: t in s'.timers && t.plugin == plugin && t.name == name ==> t.dead
  {
    var s' := RunOp(s, op);
    match op
    case After(_, _, _) => assert s'.timers[|s.timers|] in s'.timers;
    case Every(_, interval, _) => if interval > 0.0 { assert s'.timers[|s.timers|] in s'.timers; }
    case Cancel(id) => NoneLive(s.timers, IndexOf(s.timers, id));
    case Create(plugin, name, seconds, _, _) =>
      if seconds > 0.0 { assert s'.timers[IndexNamed(s.timers, plugin, name)] in s'.timers; }
    case Destroy(plugin, name) => NoneLive(s.timers, IndexNamed(s.timers, plugin, name));
  }

  /** A timer being called is put off by its interval if it has one and is spent if not; one whose callback raises an
      error is spent either way. */
  lemma CalledThen(s: State, after: int, i: nat, calls: Calls)
    requires Within(s, after) && i == NextDue(s.timers, s.time, after) && i < |s.timers|
    ensures var t, l := s.timers[i], CallOne(s, i, calls).timers;
      && |l| > i && l[i].id == t.id
      && (calls.Silent? && t.interval > 0.0 ==> l[i] == t.(due := s.time + t.interval))
      && (calls.Silent? && t.interval <= 0.0 ==> l[i] == t.(dead := true))
      && (calls.Call? && calls.fails ==> l[i].dead)
  {
    CallKeeps(s, after, i, calls);
  }
}
