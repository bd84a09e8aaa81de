/** What every run of frames, plugins, map changes and unloads keeps, read off the history alone. */
module TimerLaws {
  import opened TimerSpec

  // ---------------------------------------------------------------------------
  // What the history says a timer should do next

  datatype Plan = Off | On(due: real, interval: real, persist: bool)

  ghost function Then(p: Plan, e: Entry, id: nat): Plan {
    match e
    case Scheduled(i, due, interval, persist) => if i == id then On(due, interval, persist) else p
    case Fired(i, at) => if i == id && p.On? then (if p.interval > 0.0 then p.(due := at + p.interval) else Off) else p
    case Dropped(i) => if i == id then Off else p
    case MapChanged(at) => if p.On? then p.(due := Max(p.due, at)) else p
    case _ => p
  }

  ghost function PlanOf(log: seq<Entry>, id: nat): Plan {
    if log == [] then Off else Then(PlanOf(log[..|log| - 1], id), log[|log| - 1], id)
  }

  /** Nothing fires that was not planned for then or earlier; no pass ends with a planned moment past. */
  ghost predicate Punctual(log: seq<Entry>) {
    forall j :: 0 <= j < |log| ==> PunctualAt(log, j)
  }

  ghost predicate PunctualAt(log: seq<Entry>, j: nat)
    requires j < |log|
  {
    match log[j]
    case Fired(id, at) => PlanOf(log[..j], id).On? && PlanOf(log[..j], id).due <= at
    case PassEnd(at) => forall id: nat :: PlanOf(log[..j], id).On? ==> PlanOf(log[..j], id).due > at
    case _ => true
  }

  ghost predicate SamePass(log: seq<Entry>, i: nat, j: nat) {
    i < j <= |log| && forall k :: i <= k < j ==> !log[k].PassEnd?
  }

  /** Within one pass timers are called in the order of their ids, each once. */
  ghost predicate InOrder(log: seq<Entry>) {
    forall i, j :: 0 <= i < j < |log| && log[i].Fired? && log[j].Fired? && SamePass(log, i, j) ==> log[i].id < log[j].id
  }

  /** What fires, fires at the time its pass ends with. */
  ghost predicate OnTime(log: seq<Entry>) {
    forall i, j :: 0 <= i < j < |log| && log[i].Fired? && log[j].PassEnd? && SamePass(log, i, j) ==>
        log[i].at == log[j].at
  }

  // ---------------------------------------------------------------------------
  // The invariant

  ghost predicate Ascending(l: seq<Timer>) { forall i, j :: 0 <= i < j < |l| ==> l[i].id < l[j].id }

  ghost predicate Planned(l: seq<Timer>, log: seq<Entry>) {
    && (forall t :: t in l && !t.dead ==> PlanOf(log, t.id) == On(t.due, t.interval, t.persist))
    && (forall id: nat :: PlanOf(log, id).On? ==> LiveId(l, id))
  }

  ghost predicate LiveId(l: seq<Timer>, id: nat) { exists t :: t in l && !t.dead && t.id == id }

  /** A plugin's timers created under one name are one. */
  ghost predicate NamesUnique(l: seq<Timer>) {
    forall i, j :: 0 <= i < j < |l| && !l[i].dead && !l[j].dead && l[i].plugin == l[j].plugin && l[i].name != "" ==>
      l[i].name != l[j].name
  }

  ghost function HeldRefs(l: seq<Timer>): multiset<nat> {
    if l == [] then multiset{} else HeldRefs(l[..|l| - 1]) + multiset{l[|l| - 1].ref}
  }

  ghost function ReleasedRefs(log: seq<Entry>): multiset<nat> {
    if log == [] then multiset{} else
      ReleasedRefs(log[..|log| - 1]) + if log[|log| - 1].Released? then multiset{log[|log| - 1].ref} else multiset{}
  }

  /** Every reference ever minted is held by one timer or has been given back, once. */
  ghost predicate RefsConserved(s: State) {
    forall ref: nat :: HeldRefs(s.timers)[ref] + ReleasedRefs(s.log)[ref] == if ref < s.nextRef then 1 else 0
  }

  ghost predicate Core(s: State) {
    && Ascending(s.timers)
    && (forall t :: t in s.timers ==> t.id < s.nextId)
    && Planned(s.timers, s.log)
    && NamesUnique(s.timers)
    && RefsConserved(s)
    && Punctual(s.log)
    && InOrder(s.log)
    && OnTime(s.log)
  }

  /** What was called in the pass under way, or since the last one, has ids up to `after`. */
  ghost predicate Upto(log: seq<Entry>, after: int) {
    forall i :: 0 <= i < |log| && log[i].Fired? && SamePass(log, i, |log|) ==> log[i].id <= after
  }

  /** What was called in the pass under way was called now. */
  ghost predicate Just(log: seq<Entry>, time: real) {
    forall i :: 0 <= i < |log| && log[i].Fired? && SamePass(log, i, |log|) ==> log[i].at == time
  }

  ghost predicate Inv(s: State) { Core(s) && Upto(s.log, -1) }

  // ---------------------------------------------------------------------------
  // History, one entry more

  lemma PlanSnoc(log: seq<Entry>, e: Entry, id: nat)
    ensures PlanOf(log + [e], id) == Then(PlanOf(log, id), e, id)
  {
    assert (log + [e])[..|log|] == log;
  }

  lemma PunctualSnoc(log: seq<Entry>, e: Entry)
    requires Punctual(log)
    requires e.Fired? ==> PlanOf(log, e.id).On? && PlanOf(log, e.id).due <= e.at
    requires e.PassEnd? ==> forall id: nat :: PlanOf(log, id).On? ==> PlanOf(log, id).due > e.at
    ensures Punctual(log + [e])
  {
    forall j | 0 <= j <= |log| ensures PunctualAt(log + [e], j) {
      assert (log + [e])[..j] == log[..j];
      assert log[..|log|] == log;
      if j < |log| { assert PunctualAt(log, j); }
    }
  }

  lemma UptoSnoc(log: seq<Entry>, e: Entry, after: int)
    requires Upto(log, after) && (e.Fired? ==> e.id <= after)
    ensures Upto(log + [e], after)
    ensures e.PassEnd? ==> Upto(log + [e], -1)
  {
    var l := log + [e];
    forall i | 0 <= i < |l| && l[i].Fired? && SamePass(l, i, |l|) ensures l[i].id <= after && !e.PassEnd? {
      assert l[|log|] == e;
      if i < |log| { assert forall k :: i <= k < |log| ==> l[k] == log[k]; assert SamePass(log, i, |log|); }
    }
  }

  lemma InOrderSnoc(log: seq<Entry>, e: Entry, after: int)
    requires InOrder(log) && Upto(log, after) && (e.Fired? ==> e.id > after)
    ensures InOrder(log + [e])
  {
    var l := log + [e];
    forall i, j | 0 <= i < j < |l| && l[i].Fired? && l[j].Fired? && SamePass(l, i, j) ensures l[i].id < l[j].id {
      assert forall k :: i <= k < j ==> l[k] == log[k];
      assert SamePass(log, i, j);
    }
  }

  lemma OnTimeSnoc(log: seq<Entry>, e: Entry, time: real)
    requires OnTime(log) && Just(log, time) && (e.Fired? || e.PassEnd? ==> e.at == time)
    ensures OnTime(log + [e]) && Just(log + [e], time)
  {
    var l := log + [e];
    forall i, j | 0 <= i < j < |l| && l[i].Fired? && l[j].PassEnd? && SamePass(l, i, j) ensures l[i].at == l[j].at {
      assert forall k :: i <= k < j ==> l[k] == log[k];
      assert SamePass(log, i, j);
    }
    forall i | 0 <= i < |l| && l[i].Fired? && SamePass(l, i, |l|) ensures l[i].at == time {
      if i < |log| { assert forall k :: i <= k < |log| ==> l[k] == log[k]; assert SamePass(log, i, |log|); }
    }
  }

  lemma ReleasedSnoc(log: seq<Entry>, e: Entry)
    ensures ReleasedRefs(log + [e]) == ReleasedRefs(log) + if e.Released? then multiset{e.ref} else multiset{}
  {
    assert (log + [e])[..|log|] == log;
  }

  lemma HeldSnoc(l: seq<Timer>, t: Timer)
    ensures HeldRefs(l + [t]) == HeldRefs(l) + multiset{t.ref}
  {
    assert (l + [t])[..|l|] == l;
  }

  lemma {:induction false} HeldPut(l: seq<Timer>, i: nat, t: Timer, ref: nat)
    requires i < |l|
    ensures HeldRefs(l[i := t])[ref] + (if l[i].ref == ref then 1 else 0)
         == HeldRefs(l)[ref] + if t.ref == ref then 1 else 0
    decreases |l|
  {
    var n := |l| - 1;
    if i < n {
      HeldPut(l[..n], i, t, ref);
      assert l[i := t][..n] == l[..n][i := t];
    } else {
      assert l[i := t][..n] == l[..n];
    }
  }

  // ---------------------------------------------------------------------------
  // Inside a pass: `after` is the id called last

  /** No live timer the pass has gone by is due. */
  ghost predicate Passed(s: State, after: int) {
    forall t :: t in s.timers && !t.dead && t.id <= after ==> t.due > s.time
  }

  ghost predicate Within(s: State, after: int) {
    Core(s) && Upto(s.log, after) && Just(s.log, s.time) && Passed(s, after) && -1 <= after < s.nextId
  }

  /** Between passes nothing has been called yet. */
  lemma QuietNow(log: seq<Entry>, time: real)
    requires Upto(log, -1)
    ensures Just(log, time)
  {
  }

  /** Timers keep their places while callbacks run. */
  ghost predicate Stays(s: State, s': State) {
    && s'.time == s.time && s'.last == s.last && s'.nextId >= s.nextId && |s'.timers| >= |s.timers|
    && (forall i :: 0 <= i < |s.timers| ==> s'.timers[i].id == s.timers[i].id)
  }

  ghost predicate History(log: seq<Entry>, after: int, time: real) {
    Punctual(log) && InOrder(log) && OnTime(log) && Upto(log, after) && Just(log, time)
  }

  lemma LogKeeps(log: seq<Entry>, e: Entry, after: int, time: real)
    requires History(log, after, time) && !e.Fired? && !e.PassEnd?
    ensures History(log + [e], after, time)
  {
    PunctualSnoc(log, e);
    OnTimeSnoc(log, e, time);
    InOrderSnoc(log, e, after);
    UptoSnoc(log, e, after);
  }

  lemma AddKeeps(s: State, after: int, plugin: int, delay: real, interval: real, name: string, persist: bool)
    requires Within(s, after)
    requires name != "" ==> IndexNamed(s.timers, plugin, name) == |s.timers|
    ensures var s' := AddTimer(s, plugin, delay, interval, name, persist); Within(s', after) && Stays(s, s')
  {
    var s' := AddTimer(s, plugin, delay, interval, name, persist);
    var t := s'.timers[|s.timers|];
    var e := Scheduled(t.id, t.due, interval, persist);
    LogKeeps(s.log, e, after, s.time);
    PlannedAdd(s.timers, s.log, t);
    RefsAdd(s, s', t, e);
    AddKeepsRest(s, s', t, after);
  }

  lemma AddKeepsRest(s: State, s': State, t: Timer, after: int)
    requires Within(s, after) && s'.timers == s.timers + [t] && s'.time == s.time && s'.nextId == s.nextId + 1
    requires t.id == s.nextId && (t.name != "" ==> IndexNamed(s.timers, t.plugin, t.name) == |s.timers|)
    ensures Ascending(s'.timers) && NamesUnique(s'.timers) && Passed(s', after)
    ensures forall x :: x in s'.timers ==> x.id < s'.nextId
  {
    forall x | x in s'.timers ensures x in s.timers || x == t {}
    forall i | 0 <= i < |s.timers| ensures s.timers[i].id < t.id { assert s.timers[i] in s.timers; }
  }

  lemma RefsAdd(s: State, s': State, t: Timer, e: Entry)
    requires RefsConserved(s) && s'.timers == s.timers + [t] && s'.log == s.log + [e] && !e.Released?
    requires t.ref == s.nextRef && s'.nextRef == s.nextRef + 1
    ensures RefsConserved(s')
  {
    HeldSnoc(s.timers, t);
    ReleasedSnoc(s.log, e);
    forall ref: nat ensures HeldRefs(s'.timers)[ref] + ReleasedRefs(s'.log)[ref] == if ref < s'.nextRef then 1 else 0 {
      assert HeldRefs(s.timers)[ref] + ReleasedRefs(s.log)[ref] == if ref < s.nextRef then 1 else 0;
    }
  }

  lemma PlannedAdd(l: seq<Timer>, log: seq<Entry>, t: Timer)
    requires Planned(l, log) && !t.dead && forall x :: x in l ==> x.id < t.id
    ensures Planned(l + [t], log + [Scheduled(t.id, t.due, t.interval, t.persist)])
  {
    var log' := log + [Scheduled(t.id, t.due, t.interval, t.persist)];
    forall id: nat
      ensures PlanOf(log', id) == if id == t.id then On(t.due, t.interval, t.persist) else PlanOf(log, id)
    {
      PlanSnoc(log, log'[|log|], id);
    }
    forall id: nat | PlanOf(log', id).On? ensures LiveId(l + [t], id) {
      if id == t.id { assert t in l + [t]; } else { var x :| x in l && !x.dead && x.id == id; assert x in l + [t]; }
    }
  }

  /** Changing the timer at i, which stays itself, with an entry about it alone. */
  lemma PlannedPut(l: seq<Timer>, log: seq<Entry>, i: nat, t: Timer, e: Entry)
    requires Planned(l, log) && Ascending(l) && i < |l| && t.id == l[i].id
    requires forall id: nat, p: Plan :: id != t.id ==> Then(p, e, id) == p
    requires Then(PlanOf(log, t.id), e, t.id) == if t.dead then Off else On(t.due, t.interval, t.persist)
    ensures Planned(l[i := t], log + [e])
  {
    forall id: nat ensures PlanOf(log + [e], id) == Then(PlanOf(log, id), e, id) { PlanSnoc(log, e, id); }
    forall x | x in l[i := t] && !x.dead ensures PlanOf(log + [e], x.id) == On(x.due, x.interval, x.persist) {
      var j :| 0 <= j < |l| && l[i := t][j] == x;
      if j != i { assert x in l && x.id != t.id; }
    }
    forall id: nat | PlanOf(log + [e], id).On? ensures LiveId(l[i := t], id) {
      if id == t.id { assert l[i := t][i] == t; } else {
        var x :| x in l && !x.dead && x.id == id;
        var j :| 0 <= j < |l| && l[j] == x;
        assert l[i := t][j] == x;
      }
    }
  }

  lemma KillKeeps(s: State, after: int, i: nat)
    requires Within(s, after) && i < |s.timers| && !s.timers[i].dead
    ensures Within(Kill(s, i), after) && Stays(s, Kill(s, i))
  {
    var s', t := Kill(s, i), s.timers[i].(dead := true);
    LogKeeps(s.log, Dropped(t.id), after, s.time);
    PlannedPut(s.timers, s.log, i, t, Dropped(t.id));
    PutKeepsRest(s, s', i, t, after);
    RefsPut(s, s', i, t, Dropped(t.id));
  }

  /** The parts of the invariant that only look at ids, names and due times. */
  lemma PutKeepsRest(s: State, s': State, i: nat, t: Timer, after: int)
    requires Within(s, after) && i < |s.timers| && s'.timers == s.timers[i := t] && s'.time == s.time
      && s'.nextId == s.nextId
    requires t.id == s.timers[i].id && t.plugin == s.timers[i].plugin && t.name == s.timers[i].name
    requires s.timers[i].dead ==> t.dead
    requires t.dead || t.due > s.time || s.timers[i] == t
    ensures Ascending(s'.timers) && NamesUnique(s'.timers) && Passed(s', after)
    ensures forall x :: x in s'.timers ==> x.id < s'.nextId
  {
    forall x | x in s'.timers ensures x in s.timers || x == t {}
    assert s.timers[i] in s.timers;
  }

  lemma ReplaceKeeps(s: State, after: int, op: Op)
    requires Within(s, after) && op.Create? && op.seconds > 0.0 && IndexNamed(s.timers, op.plugin, op.name) < |s.timers|
    ensures Within(RunOp(s, op), after) && Stays(s, RunOp(s, op))
  {
    var s', i := RunOp(s, op), IndexNamed(s.timers, op.plugin, op.name);
    var was, t := s.timers[i], s'.timers[i];
    var e1, e2 := Released(was.ref), Scheduled(t.id, t.due, t.interval, t.persist);
    LogKeeps(s.log, e1, after, s.time);
    LogKeeps(s.log + [e1], e2, after, s.time);
    forall id: nat ensures PlanOf(s.log + [e1], id) == PlanOf(s.log, id) { PlanSnoc(s.log, e1, id); }
    PlannedPut(s.timers, s.log + [e1], i, t, e2);
    PutKeepsRest(s, s', i, t, after);
    assert s.log + [e1] + [e2] == s'.log;
    RefsReplace(s, s', i, t, e1, e2);
  }

  lemma RefsReplace(s: State, s': State, i: nat, t: Timer, e1: Entry, e2: Entry)
    requires RefsConserved(s) && i < |s.timers| && s'.timers == s.timers[i := t] && s'.log == s.log + [e1] + [e2]
    requires e1 == Released(s.timers[i].ref) && !e2.Released?
    requires t.ref == s.nextRef && s'.nextRef == s.nextRef + 1
    ensures RefsConserved(s')
  {
    ReleasedSnoc(s.log, e1);
    ReleasedSnoc(s.log + [e1], e2);
    forall ref: nat ensures HeldRefs(s'.timers)[ref] + ReleasedRefs(s'.log)[ref] == if ref < s'.nextRef then 1 else 0 {
      HeldPut(s.timers, i, t, ref);
      assert HeldRefs(s.timers)[ref] + ReleasedRefs(s.log)[ref] == if ref < s.nextRef then 1 else 0;
    }
  }

  lemma OpKeeps(s: State, after: int, op: Op)
    requires Within(s, after)
    ensures Within(RunOp(s, op), after) && Stays(s, RunOp(s, op))
  {
    match op
    case After(plugin, delay, persist) => AddKeeps(s, after, plugin, delay, 0.0, "", persist);
    case Every(plugin, interval, persist) =>
      if interval > 0.0 { AddKeeps(s, after, plugin, interval, interval, "", persist); }
    case Cancel(id) =>
      var i := IndexOf(s.timers, id);
      if i < |s.timers| { KillKeeps(s, after, i); }
    case Create(plugin, name, seconds, once, persist) =>
      if seconds > 0.0 {
        if IndexNamed(s.timers, plugin, name) < |s.timers| { ReplaceKeeps(s, after, op); }
        else { AddKeeps(s, after, plugin, seconds, if once then 0.0 else seconds, name, persist); }
      }
    case Destroy(plugin, name) =>
      var i := IndexNamed(s.timers, plugin, name);
      if i < |s.timers| { KillKeeps(s, after, i); }
  }

  lemma {:induction false} ScriptKeeps(s: State, after: int, script: Script)
    requires Within(s, after)
    ensures Within(RunScript(s, script), after) && Stays(s, RunScript(s, script))
    decreases |script|
  {
    if script != [] {
      OpKeeps(s, after, script[0]);
      ScriptKeeps(RunOp(s, script[0]), after, script[1..]);
    }
  }

  // ---------------------------------------------------------------------------
  // A pass

  lemma BeginKeeps(s: State, after: int, i: nat)
    requires Within(s, after) && i == NextDue(s.timers, s.time, after) && i < |s.timers|
    ensures Within(Begin(s, i), s.timers[i].id) && Stays(s, Begin(s, i))
  {
    var s', was := Begin(s, i), s.timers[i];
    var t, e := s'.timers[i], Fired(was.id, s.time);
    assert was in s.timers;
    PunctualSnoc(s.log, e);
    InOrderSnoc(s.log, e, after);
    OnTimeSnoc(s.log, e, s.time);
    assert Upto(s.log, was.id);
    UptoSnoc(s.log, e, was.id);
    PlannedPut(s.timers, s.log, i, t, e);
    PutKeepsRest(s, s', i, t, after);
    RefsPut(s, s', i, t, e);
    PassedBy(s, s', after, i);
  }

  lemma PassedBy(s: State, s': State, after: int, i: nat)
    requires Within(s, after) && i == NextDue(s.timers, s.time, after) && i < |s.timers| && s' == Begin(s, i)
    ensures Passed(s', s.timers[i].id)
  {
    forall x | x in s'.timers && !x.dead && x.id <= s.timers[i].id ensures x.due > s'.time {
      var j :| 0 <= j < |s'.timers| && s'.timers[j] == x;
      if j < i { assert s.timers[j] in s.timers; }
    }
  }

  lemma RefsPut(s: State, s': State, i: nat, t: Timer, e: Entry)
    requires RefsConserved(s) && i < |s.timers| && s'.timers == s.timers[i := t] && s'.log == s.log + [e]
      && !e.Released?
    requires t.ref == s.timers[i].ref && s'.nextRef == s.nextRef
    ensures RefsConserved(s')
  {
    ReleasedSnoc(s.log, e);
    forall ref: nat ensures HeldRefs(s'.timers)[ref] + ReleasedRefs(s'.log)[ref] == if ref < s'.nextRef then 1 else 0 {
      HeldPut(s.timers, i, t, ref);
      assert HeldRefs(s.timers)[ref] + ReleasedRefs(s.log)[ref] == if ref < s.nextRef then 1 else 0;
    }
  }

  lemma CallKeeps(s: State, after: int, i: nat, calls: Calls)
    requires Within(s, after) && i == NextDue(s.timers, s.time, after) && i < |s.timers|
    ensures Within(CallOne(s, i, calls), s.timers[i].id) && Stays(s, CallOne(s, i, calls))
  {
    var id, begun := s.timers[i].id, Begin(s, i);
    BeginKeeps(s, after, i);
    if calls.Call? {
      var ran := RunScript(begun, calls.body);
      ScriptKeeps(begun, id, calls.body);
      StaysTrans(s, begun, ran);
      if calls.fails {
        FailKeeps(ran, id, i);
        StaysTrans(s, ran, Fail(ran, i));
      }
    }
  }

  lemma FailKeeps(s: State, after: int, i: nat)
    requires Within(s, after)
    ensures Within(Fail(s, i), after) && Stays(s, Fail(s, i))
  {
    if i < |s.timers| && !s.timers[i].dead { KillKeeps(s, after, i); }
  }

  ghost predicate NothingDue(s: State) { forall t :: t in s.timers && !t.dead ==> t.due > s.time }

  lemma {:induction false} WalkKeeps(s: State, after: int, calls: Calls) returns (end: int)
    requires Within(s, after)
    ensures Within(Walk(s, after, calls), end) && Stays(s, Walk(s, after, calls)) && NothingDue(Walk(s, after, calls))
    decreases calls, s.nextId - after
  {
    var i := NextDue(s.timers, s.time, after);
    if i == |s.timers| {
      end := after;
      NoneLeft(s, after);
    } else {
      var next := CallOne(s, i, calls);
      CallKeeps(s, after, i, calls);
      assert s.timers[i] in s.timers;
      end := WalkKeeps(next, s.timers[i].id, Rest(calls));
      StaysTrans(s, next, Walk(next, s.timers[i].id, Rest(calls)));
    }
  }

  lemma NoneLeft(s: State, after: int)
    requires Passed(s, after) && NextDue(s.timers, s.time, after) == |s.timers|
    ensures NothingDue(s)
  {
  }

  lemma StaysTrans(a: State, b: State, c: State)
    requires Stays(a, b) && Stays(b, c)
    ensures Stays(a, c)
  {
  }

  // ---------------------------------------------------------------------------
  // Erasing

  lemma {:induction false} KeepIn(l: seq<Timer>, p: Purged, t: Timer)
    ensures t in Keep(l, p) <==> t in l && !Goes(p, t)
    decreases |l|
  {
    if l != [] {
      KeepIn(l[..|l| - 1], p, t);
      assert l == l[..|l| - 1] + [l[|l| - 1]];
    }
  }

  lemma {:induction false} KeepOrder(l: seq<Timer>, p: Purged)
    requires Ascending(l)
    ensures Ascending(Keep(l, p))
    ensures NamesUnique(l) ==> NamesUnique(Keep(l, p))
    decreases |l|
  {
    if l != [] {
      var n := |l| - 1;
      KeepOrder(l[..n], p);
      forall i | 0 <= i < |Keep(l[..n], p)|
        ensures Keep(l[..n], p)[i] in l[..n]
      {
        KeepIn(l[..n], p, Keep(l[..n], p)[i]);
      }
    }
  }

  /** The history once t's turn has come. */
  ghost function Erased(log: seq<Entry>, t: Timer, p: Purged): seq<Entry> {
    if !Goes(p, t) then log
    else if t.dead then log + [Released(t.ref)]
    else log + [Released(t.ref)] + [Dropped(t.id)]
  }

  lemma TraceHead(l: seq<Timer>, p: Purged, log: seq<Entry>)
    requires l != []
    ensures log + Trace(l, p) == Erased(log, l[|l| - 1], p) + Trace(l[..|l| - 1], p)
  {
  }

  lemma {:induction false} TracePlans(l: seq<Timer>, p: Purged, log: seq<Entry>, id: nat)
    requires Ascending(l)
    ensures PlanOf(log + Trace(l, p), id)
         == if exists t :: t in l && !t.dead && Goes(p, t) && t.id == id then Off else PlanOf(log, id)
    decreases |l|
  {
    if l == [] {
      assert log + [] == log;
    } else {
      var n := |l| - 1;
      var t := l[n];
      assert l == l[..n] + [t];
      PlanSnoc(log, Released(t.ref), id);
      PlanSnoc(log + [Released(t.ref)], Dropped(t.id), id);
      TraceHead(l, p, log);
      TracePlans(l[..n], p, Erased(log, t, p), id);
    }
  }

  lemma ErasedRefs(log: seq<Entry>, t: Timer, p: Purged)
    ensures ReleasedRefs(Erased(log, t, p)) == ReleasedRefs(log) + if Goes(p, t) then multiset{t.ref} else multiset{}
  {
    ReleasedSnoc(log, Released(t.ref));
    ReleasedSnoc(log + [Released(t.ref)], Dropped(t.id));
  }

  lemma {:induction false} TraceRefs(l: seq<Timer>, p: Purged, log: seq<Entry>, ref: nat)
    ensures HeldRefs(Keep(l, p))[ref] + ReleasedRefs(log + Trace(l, p))[ref]
      == HeldRefs(l)[ref] + ReleasedRefs(log)[ref]
    decreases |l|
  {
    if l == [] {
      assert log + [] == log;
    } else {
      var n := |l| - 1;
      TraceHead(l, p, log);
      ErasedRefs(log, l[n], p);
      HeldSnoc(Keep(l[..n], p), l[n]);
      TraceRefs(l[..n], p, Erased(log, l[n], p), ref);
    }
  }

  lemma {:induction false} TraceQuiet(l: seq<Timer>, p: Purged, log: seq<Entry>, time: real)
    requires History(log, -1, time)
    ensures History(log + Trace(l, p), -1, time)
    decreases |l|
  {
    if l == [] {
      assert log + [] == log;
    } else {
      var t := l[|l| - 1];
      LogKeeps(log, Released(t.ref), -1, time);
      LogKeeps(log + [Released(t.ref)], Dropped(t.id), -1, time);
      TraceHead(l, p, log);
      TraceQuiet(l[..|l| - 1], p, Erased(log, t, p), time);
    }
  }

  lemma SameTimer(l: seq<Timer>, a: Timer, b: Timer)
    requires Ascending(l) && a in l && b in l && a.id == b.id
    ensures a == b
  {
    var i :| 0 <= i < |l| && l[i] == a;
    var j :| 0 <= j < |l| && l[j] == b;
  }

  lemma PurgePlanned(l: seq<Timer>, log: seq<Entry>, p: Purged)
    requires Ascending(l) && Planned(l, log)
    ensures Planned(Keep(l, p), log + Trace(l, p))
  {
    var l', log' := Keep(l, p), log + Trace(l, p);
    forall t | t in l' && !t.dead ensures PlanOf(log', t.id) == On(t.due, t.interval, t.persist) {
      KeepIn(l, p, t);
      TracePlans(l, p, log, t.id);
      if x :| x in l && !x.dead && Goes(p, x) && x.id == t.id { SameTimer(l, x, t); }
    }
    forall id: nat | PlanOf(log', id).On? ensures LiveId(l', id) {
      TracePlans(l, p, log, id);
      var t :| t in l && !t.dead && t.id == id;
      KeepIn(l, p, t);
    }
  }

  lemma PurgeKeeps(s: State, p: Purged)
    requires Inv(s)
    ensures Inv(Purge(s, p))
  {
    var s' := Purge(s, p);
    KeepOrder(s.timers, p);
    forall t | t in s'.timers ensures t in s.timers { KeepIn(s.timers, p, t); }
    PurgePlanned(s.timers, s.log, p);
    QuietNow(s.log, s.time);
    TraceQuiet(s.timers, p, s.log, s.time);
    forall ref: nat ensures HeldRefs(s'.timers)[ref] + ReleasedRefs(s'.log)[ref] == if ref < s'.nextRef then 1 else 0 {
      TraceRefs(s.timers, p, s.log, ref);
      assert HeldRefs(s.timers)[ref] + ReleasedRefs(s.log)[ref] == if ref < s.nextRef then 1 else 0;
    }
  }

  // ---------------------------------------------------------------------------
  // Map changes

  lemma RaiseIn(l: seq<Timer>, at: real, t: Timer)
    ensures t in Raise(l, at) <==> exists x :: x in l && t == x.(due := Max(x.due, at))
  {
    if x :| x in l && t == x.(due := Max(x.due, at)) {
      var i :| 0 <= i < |l| && l[i] == x;
      assert Raise(l, at)[i] == t;
    }
  }

  lemma {:induction false} RaiseRefs(l: seq<Timer>, at: real)
    ensures HeldRefs(Raise(l, at)) == HeldRefs(l)
    decreases |l|
  {
    if l != [] {
      RaiseRefs(l[..|l| - 1], at);
      assert Raise(l, at)[..|l| - 1] == Raise(l[..|l| - 1], at);
    }
  }

  lemma RaisePlanned(l: seq<Timer>, log: seq<Entry>, at: real)
    requires Planned(l, log)
    ensures Planned(Raise(l, at), log + [MapChanged(at)])
  {
    var l', log' := Raise(l, at), log + [MapChanged(at)];
    forall id: nat
      ensures PlanOf(log', id) == Then(PlanOf(log, id), MapChanged(at), id)
    {
      PlanSnoc(log, MapChanged(at), id);
    }
    forall t | t in l' && !t.dead ensures PlanOf(log', t.id) == On(t.due, t.interval, t.persist) { RaiseIn(l, at, t); }
    forall id: nat | PlanOf(log', id).On? ensures LiveId(l', id) {
      var t :| t in l && !t.dead && t.id == id;
      RaiseIn(l, at, t.(due := Max(t.due, at)));
    }
  }

  lemma RaiseKeeps(s: State)
    requires Inv(s)
    ensures Inv(Logged(s, MapChanged(s.last)).(timers := Raise(s.timers, s.last), time := s.last))
  {
    var s' := Logged(s, MapChanged(s.last)).(timers := Raise(s.timers, s.last), time := s.last);
    QuietNow(s.log, s.last);
    LogKeeps(s.log, MapChanged(s.last), -1, s.last);
    RaisePlanned(s.timers, s.log, s.last);
    RaiseShape(s.timers, s.last, s.nextId);
    RaiseRefs(s.timers, s.last);
    ReleasedSnoc(s.log, MapChanged(s.last));
    forall ref: nat ensures HeldRefs(s'.timers)[ref] + ReleasedRefs(s'.log)[ref] == if ref < s'.nextRef then 1 else 0 {
      assert HeldRefs(s.timers)[ref] + ReleasedRefs(s.log)[ref] == if ref < s.nextRef then 1 else 0;
    }
  }

  lemma RaiseShape(l: seq<Timer>, at: real, bound: nat)
    requires Ascending(l) && NamesUnique(l) && forall t :: t in l ==> t.id < bound
    ensures Ascending(Raise(l, at)) && NamesUnique(Raise(l, at)) && forall t :: t in Raise(l, at) ==> t.id < bound
  {
    forall t | t in Raise(l, at) ensures t.id < bound { RaiseIn(l, at, t); }
  }

  // ---------------------------------------------------------------------------
  // Whole runs

  lemma FrameKeeps(s: State, calls: Calls)
    requires Inv(s)
    ensures Inv(Frame(s, calls))
  {
    var s0 := s.(last := s.time);
    QuietNow(s.log, s.time);
    RefsSame(s, s0);
    var end := WalkKeeps(s0, -1, calls);
    var w := Walk(s0, -1, calls);
    PassEndKeeps(w, end);
    PurgeKeeps(Logged(w, PassEnd(w.time)), Dead);
  }

  lemma PassEndKeeps(w: State, end: int)
    requires Within(w, end) && NothingDue(w)
    ensures Inv(Logged(w, PassEnd(w.time)))
  {
    var e := PassEnd(w.time);
    PunctualSnoc(w.log, e);
    InOrderSnoc(w.log, e, end);
    OnTimeSnoc(w.log, e, w.time);
    UptoSnoc(w.log, e, end);
    forall id: nat ensures PlanOf(w.log + [e], id) == PlanOf(w.log, id) { PlanSnoc(w.log, e, id); }
    ReleasedSnoc(w.log, e);
    RefsSame(w, Logged(w, e));
  }

  lemma RefsSame(s: State, s': State)
    requires RefsConserved(s) && s'.timers == s.timers && s'.nextRef == s.nextRef
      && ReleasedRefs(s'.log) == ReleasedRefs(s.log)
    ensures RefsConserved(s')
  {
    forall ref: nat ensures HeldRefs(s'.timers)[ref] + ReleasedRefs(s'.log)[ref] == if ref < s'.nextRef then 1 else 0 {
      assert HeldRefs(s.timers)[ref] + ReleasedRefs(s.log)[ref] == if ref < s.nextRef then 1 else 0;
    }
  }

  lemma StepKeeps(s: State, step: Step)
    requires Inv(s)
    ensures Inv(Next(s, step))
  {
    match step
    case Tick(time) =>
      RefsSame(s, Next(s, step));
    case Plugins(script) =>
      QuietNow(s.log, s.time);
      ScriptKeeps(s, -1, script);
    case RunFrame(calls) => FrameKeeps(s, calls);
    case ChangeMap =>
      RaiseKeeps(s);
      PurgeKeeps(Logged(s, MapChanged(s.last)).(timers := Raise(s.timers, s.last), time := s.last), Loose);
    case Unload(plugin) => PurgeKeeps(s, Of(plugin));
  }

  lemma {:induction false} RunKeeps(s: State, steps: seq<Step>)
    requires Inv(s)
    ensures Inv(Run(s, steps))
    decreases |steps|
  {
    if steps != [] {
      StepKeeps(s, steps[0]);
      RunKeeps(Next(s, steps[0]), steps[1..]);
    }
  }

  lemma InitOk()
    ensures Inv(INIT)
  {
    forall ref: nat ensures HeldRefs(INIT.timers)[ref] + ReleasedRefs(INIT.log)[ref] == 0 {}
  }

  /** Any run from the start: what fires was planned for then or earlier and fires at its pass's own time, every pass
      leaves nothing planned for then or earlier, one pass calls a timer once at most, and references are conserved. */
  lemma AnyRun(steps: seq<Step>)
    ensures var s := Run(INIT, steps);
      && Punctual(s.log) && InOrder(s.log) && OnTime(s.log) && Planned(s.timers, s.log)
      && RefsConserved(s) && Ascending(s.timers) && NamesUnique(s.timers)
  {
    InitOk();
    RunKeeps(INIT, steps);
  }

  // ---------------------------------------------------------------------------
  // Read off the history

  predicate About(e: Entry, id: nat) { (e.Scheduled? || e.Fired? || e.Dropped?) && e.id == id }

  /** The plan as of i still stands before m when nothing about the timer happened in between. */
  lemma {:induction false} PlanStands(log: seq<Entry>, i: nat, m: nat, id: nat, at: real)
    requires i <= m <= |log| && PlanOf(log[..i], id).On? && PlanOf(log[..i], id).due <= at
    requires forall k :: i <= k < m ==> !About(log[k], id) && (log[k].MapChanged? ==> log[k].at <= at)
    ensures PlanOf(log[..m], id).On? && PlanOf(log[..m], id).due <= at
    decreases m
  {
    if i < m {
      assert log[..m][..m - 1] == log[..m - 1];
      PlanStands(log, i, m - 1, id, at);
    }
  }

  /** What is planned as of i cannot come due before its moment. */
  lemma {:induction false} NotBefore(log: seq<Entry>, i: nat, m: nat, id: nat)
    requires i <= m <= |log| && PlanOf(log[..i], id).On?
    requires forall k :: i <= k < m ==> !About(log[k], id)
    ensures PlanOf(log[..m], id).On? && PlanOf(log[..m], id).due >= PlanOf(log[..i], id).due
    decreases m
  {
    if i < m {
      assert log[..m][..m - 1] == log[..m - 1];
      NotBefore(log, i, m - 1, id);
    }
  }

  /** The first entry about id from i on. */
  ghost predicate FirstAbout(log: seq<Entry>, i: nat, k: nat, id: nat) {
    i <= k < |log| && About(log[k], id) && forall m :: i <= m < k ==> !About(log[m], id)
  }

  lemma {:induction false} SomeFirst(log: seq<Entry>, i: nat, k: nat, id: nat) returns (first: nat)
    requires i <= k < |log| && About(log[k], id)
    ensures first <= k && FirstAbout(log, i, first, id)
    decreases k
  {
    first := k;
    if m :| i <= m < k && About(log[m], id) { first := SomeFirst(log, i, m, id); }
  }

  /** The pass an entry belongs to, when it has ended by j. */
  lemma {:induction false} PassOf(log: seq<Entry>, k: nat, j: nat) returns (end: nat)
    requires k < j < |log| && log[j].PassEnd? && !log[k].PassEnd?
    ensures k < end <= j && log[end].PassEnd? && SamePass(log, k, end)
    decreases j
  {
    end := j;
    if m :| k < m < j && log[m].PassEnd? { end := PassOf(log, k, m); }
  }

  /** j ends the first pass from i on whose time reaches `due`. */
  ghost predicate FirstReaching(log: seq<Entry>, i: nat, j: nat, due: real) {
    && i <= j < |log| && log[j].PassEnd? && due <= log[j].at
    && (forall k :: i <= k < j && log[k].PassEnd? ==> log[k].at < due)
  }

  lemma FiresThere(log: seq<Entry>, i: nat, j: nat, id: nat) returns (k: nat)
    requires Punctual(log) && OnTime(log) && i <= |log| && PlanOf(log[..i], id).On?
    requires FirstReaching(log, i, j, PlanOf(log[..i], id).due)
    requires forall k :: i <= k < j && log[k].MapChanged? ==> log[k].at <= log[j].at
    ensures k < j && FirstAbout(log, i, k, id)
    ensures log[k].Fired? ==> log[k].at == log[j].at && SamePass(log, k, j)
  {
    assert PunctualAt(log, j);
    if forall k :: i <= k < j ==> !About(log[k], id) {
      PlanStands(log, i, j, id, log[j].at);
      assert false;
    }
    var some :| i <= some < j && About(log[some], id);
    k := SomeFirst(log, i, some, id);
    if log[k].Fired? {
      assert PunctualAt(log, k);
      NotBefore(log, i, k, id);
      var end := PassOf(log, k, j);
    }
  }

  // ---------------------------------------------------------------------------
  // A clock that never runs backwards

  predicate Timed(e: Entry) { e.Fired? || e.PassEnd? || e.MapChanged? }

  /** Logged times rise, and none is past `last`. */
  ghost predicate Rising(log: seq<Entry>, last: real) {
    && (forall i, j :: 0 <= i < j < |log| && Timed(log[i]) && Timed(log[j]) ==> log[i].at <= log[j].at)
    && (forall i :: 0 <= i < |log| && Timed(log[i]) ==> log[i].at <= last)
  }

  /** What was added was logged at this time. */
  ghost predicate AddedAt(a: seq<Entry>, b: seq<Entry>, time: real) {
    a <= b && forall k :: |a| <= k < |b| && Timed(b[k]) ==> b[k].at == time
  }

  lemma AddedTrans(a: seq<Entry>, b: seq<Entry>, c: seq<Entry>, time: real)
    requires AddedAt(a, b, time) && AddedAt(b, c, time)
    ensures AddedAt(a, c, time)
  {
    forall k | |a| <= k < |c| && Timed(c[k]) ensures c[k].at == time { if k < |b| { assert b[k] == c[k]; } }
  }

  lemma RisesOn(a: seq<Entry>, b: seq<Entry>, last: real, time: real)
    requires Rising(a, last) && last <= time && AddedAt(a, b, time)
    ensures Rising(b, time)
  {
    forall i | 0 <= i < |b| && Timed(b[i]) ensures b[i].at <= time && (i >= |a| ==> b[i].at == time) {
      if i < |a| { assert b[i] == a[i]; }
    }
    forall i, j | 0 <= i < j < |b| && Timed(b[i]) && Timed(b[j]) ensures b[i].at <= b[j].at {
      if j < |a| { assert b[i] == a[i] && b[j] == a[j]; }
    }
  }

  ghost predicate SameClock(s: State, s': State) {
    AddedAt(s.log, s'.log, s.time) && s'.time == s.time && s'.last == s.last
  }

  lemma ClockTrans(a: State, b: State, c: State)
    requires SameClock(a, b) && SameClock(b, c)
    ensures SameClock(a, c)
  {
    AddedTrans(a.log, b.log, c.log, a.time);
  }

  /** What plugins do is not timed, and does not move the clock. */
  ghost predicate Untimed(s: State, s': State) {
    && s'.time == s.time && s'.last == s.last && s.log <= s'.log
    && forall k :: |s.log| <= k < |s'.log| ==> !Timed(s'.log[k])
  }

  lemma OpUntimed(s: State, op: Op)
    ensures Untimed(s, RunOp(s, op))
  {
  }

  lemma UntimedTrans(a: State, b: State, c: State)
    requires Untimed(a, b) && Untimed(b, c)
    ensures Untimed(a, c)
  {
    forall k | |a.log| <= k < |c.log| ensures !Timed(c.log[k]) { if k < |b.log| { assert b.log[k] == c.log[k]; } }
  }

  lemma {:induction false} ScriptUntimed(s: State, script: Script)
    ensures Untimed(s, RunScript(s, script))
    decreases |script|
  {
    if script != [] {
      OpUntimed(s, script[0]);
      ScriptUntimed(RunOp(s, script[0]), script[1..]);
      UntimedTrans(s, RunOp(s, script[0]), RunScript(s, script));
    }
  }

  lemma CallClock(s: State, i: nat, calls: Calls)
    requires i < |s.timers|
    ensures SameClock(s, CallOne(s, i, calls))
  {
    if calls.Call? {
      var begun := Begin(s, i);
      var ran := RunScript(begun, calls.body);
      ScriptUntimed(begun, calls.body);
      ClockTrans(s, begun, ran);
      if calls.fails { ClockTrans(s, ran, Fail(ran, i)); }
    }
  }

  lemma {:induction false} WalkClock(s: State, after: int, calls: Calls)
    ensures SameClock(s, Walk(s, after, calls))
    decreases calls, s.nextId - after
  {
    var i := NextDue(s.timers, s.time, after);
    if i < |s.timers| {
      var id, next := s.timers[i].id, CallOne(s, i, calls);
      CallClock(s, i, calls);
      if !calls.Silent? {
        WalkClock(next, id, calls.later);
        ClockTrans(s, next, Walk(next, id, calls.later));
      } else if id < s.nextId {
        WalkClock(next, id, Silent);
        ClockTrans(s, next, Walk(next, id, Silent));
      }
    }
  }

  lemma {:induction false} TraceUntimed(l: seq<Timer>, p: Purged)
    ensures forall k :: 0 <= k < |Trace(l, p)| ==> !Timed(Trace(l, p)[k])
    decreases |l|
  {
    if l != [] { TraceUntimed(l[..|l| - 1], p); }
  }

  lemma PurgeClock(s: State, p: Purged)
    ensures SameClock(s, Purge(s, p))
  {
    TraceUntimed(s.timers, p);
  }

  /** Time only ever goes on. */
  predicate Forward(s: State, step: Step) { step.Tick? ==> s.time <= step.time }

  ghost predicate AllForward(s: State, steps: seq<Step>)
    decreases |steps|
  {
    steps == [] || (Forward(s, steps[0]) && AllForward(Next(s, steps[0]), steps[1..]))
  }

  ghost predicate Clocked(s: State) { Rising(s.log, s.last) && s.last <= s.time }

  lemma FrameClock(s: State, calls: Calls)
    requires Clocked(s)
    ensures Clocked(Frame(s, calls))
  {
    var s0 := s.(last := s.time);
    var walked := Walk(s0, -1, calls);
    var ended := Logged(walked, PassEnd(walked.time));
    WalkClock(s0, -1, calls);
    PurgeClock(ended, Dead);
    AddedTrans(s0.log, walked.log, ended.log, s.time);
    AddedTrans(s0.log, ended.log, Purge(ended, Dead).log, s.time);
    RisesOn(s.log, Purge(ended, Dead).log, s.last, s.time);
  }

  lemma MapClock(s: State)
    requires Clocked(s)
    ensures Clocked(MapChange(s))
  {
    var changed := Logged(s, MapChanged(s.last)).(timers := Raise(s.timers, s.last), time := s.last);
    PurgeClock(changed, Loose);
    AddedTrans(s.log, changed.log, MapChange(s).log, s.last);
    RisesOn(s.log, MapChange(s).log, s.last, s.last);
  }

  lemma UntimedClock(s: State, s': State)
    requires Clocked(s) && Untimed(s, s')
    ensures Clocked(s')
  {
    RisesOn(s.log, s'.log, s.last, s.last);
  }

  lemma StepClock(s: State, step: Step)
    requires Clocked(s) && Forward(s, step)
    ensures Clocked(Next(s, step))
  {
    match step
    case Tick(time) =>
    case Plugins(script) =>
      ScriptUntimed(s, script);
      UntimedClock(s, RunScript(s, script));
    case RunFrame(calls) => FrameClock(s, calls);
    case ChangeMap => MapClock(s);
    case Unload(plugin) =>
      TraceUntimed(s.timers, Of(plugin));
      UntimedClock(s, Purge(s, Of(plugin)));
  }

  lemma {:induction false} RunClock(s: State, steps: seq<Step>)
    requires Clocked(s) && AllForward(s, steps)
    ensures Clocked(Run(s, steps))
    decreases |steps|
  {
    if steps != [] {
      StepClock(s, steps[0]);
      RunClock(Next(s, steps[0]), steps[1..]);
    }
  }

  /** Over any run whose clock never runs backwards, a timer is called in the first pass whose time reaches its moment,
      at that pass's time and neither before nor after, unless it is dropped or set anew before. */
  lemma FirstPassFires(steps: seq<Step>, i: nat, j: nat) returns (k: nat)
    requires AllForward(INIT, steps)
    requires var log := Run(INIT, steps).log;
      i < |log| && log[i].Scheduled? && FirstReaching(log, i + 1, j, log[i].due)
    ensures var log := Run(INIT, steps).log;
      && k < j && FirstAbout(log, i + 1, k, log[i].id)
      && (log[k].Fired? ==> log[k].at == log[j].at && SamePass(log, k, j))
  {
    AnyRun(steps);
    RunClock(INIT, steps);
    var log := Run(INIT, steps).log;
    assert log[..i + 1][..i] == log[..i];
    k := FiresThere(log, i + 1, j, log[i].id);
  }

  lemma {:induction false} StaysOff(log: seq<Entry>, i: nat, m: nat, id: nat)
    requires i <= m <= |log| && PlanOf(log[..i], id) == Off
    requires forall k :: i <= k < m ==> !(log[k].Scheduled? && log[k].id == id)
    ensures PlanOf(log[..m], id) == Off
    decreases m
  {
    if i < m {
      StaysOff(log, i, m - 1, id);
      assert log[..m][..m - 1] == log[..m - 1];
    }
  }

  /** A one-shot that was called is not called again unless set anew. */
  lemma OneShotOnce(log: seq<Entry>, i: nat, j: nat)
    requires Punctual(log) && i < j < |log| && log[i].Fired? && log[j].Fired? && log[i].id == log[j].id
    requires PlanOf(log[..i], log[i].id).On? && PlanOf(log[..i], log[i].id).interval <= 0.0
    ensures exists k :: i < k < j && log[k].Scheduled? && log[k].id == log[i].id
  {
    assert PunctualAt(log, j);
    assert log[..i + 1][..i] == log[..i];
    if forall k :: i < k < j ==> !(log[k].Scheduled? && log[k].id == log[i].id) {
      StaysOff(log, i + 1, j, log[i].id);
      assert false;
    }
  }

  /** Once cancelled, unloaded or lost in a map change, a timer is not called unless set anew. */
  lemma DroppedForGood(log: seq<Entry>, i: nat, j: nat)
    requires Punctual(log) && i < j < |log| && log[i].Dropped? && log[j].Fired? && log[i].id == log[j].id
    ensures exists k :: i < k < j && log[k].Scheduled? && log[k].id == log[i].id
  {
    assert PunctualAt(log, j);
    assert log[..i + 1][..i] == log[..i];
    if forall k :: i < k < j ==> !(log[k].Scheduled? && log[k].id == log[i].id) {
      StaysOff(log, i + 1, j, log[i].id);
      assert false;
    }
  }

  /** A map change leaves plans only for timers that persist, at the moment planned or, if that had passed, at once;
      the clock goes on from the last frame. */
  lemma MapChangePlans(s: State, id: nat)
    requires Inv(s)
    ensures var p := PlanOf(s.log, id);
      PlanOf(MapChange(s).log, id) ==
        if p.On? && p.persist then p.(due := if p.due < s.last then s.last else p.due) else Off
    ensures MapChange(s).time == MapChange(s).last == s.last
  {
    var l, log := Raise(s.timers, s.last), s.log + [MapChanged(s.last)];
    RaiseKeeps(s);
    RaisePlanned(s.timers, s.log, s.last);
    TracePlans(l, Loose, log, id);
    PlanSnoc(s.log, MapChanged(s.last), id);
    if PlanOf(log, id).On? {
      var t :| t in l && !t.dead && t.id == id;
      if x :| x in l && !x.dead && Goes(Loose, x) && x.id == id { SameTimer(l, x, t); }
    }
  }

  // ---------------------------------------------------------------------------
  // Names

  lemma {:induction false} HeldIn(l: seq<Timer>, i: nat)
    requires i < |l|
    ensures HeldRefs(l)[l[i].ref] >= 1
    decreases |l|
  {
    if i < |l| - 1 { HeldIn(l[..|l| - 1], i); }
  }

  /** timer.after and timer.every make timers without a name; timer.create and timer.destroy change one of those if and
      only if they are given the empty name and it is the plugin's first without a name. */
  lemma TakesOverExactly(s: State, i: nat, op: Op)
    requires Inv(s) && i < |s.timers| && !s.timers[i].dead && s.timers[i].name == ""
    requires op.Create? || op.Destroy?
    ensures RunOp(s, op).timers[i] != s.timers[i]
      <==> (op.Create? ==> op.seconds > 0.0) && op.name == "" && FirstNamed(s.timers, op.plugin, "", i)
  {
    Minted(s, i);
    FirstNamedIs(s.timers, op.plugin, op.name, i);
    ChangesOne(s, i, op);
  }

  ghost predicate FirstNamed(l: seq<Timer>, plugin: int, name: string, i: nat)
    requires i < |l|
  {
    Named(l[i], plugin, name) && forall j :: 0 <= j < i ==> !Named(l[j], plugin, name)
  }

  lemma FirstNamedIs(l: seq<Timer>, plugin: int, name: string, i: nat)
    requires i < |l|
    ensures IndexNamed(l, plugin, name) == i <==> FirstNamed(l, plugin, name, i)
  {
  }

  lemma Minted(s: State, i: nat)
    requires RefsConserved(s) && i < |s.timers|
    ensures s.timers[i].ref < s.nextRef
  {
    HeldIn(s.timers, i);
    var ref := s.timers[i].ref;
    assert HeldRefs(s.timers)[ref] + ReleasedRefs(s.log)[ref] == if ref < s.nextRef then 1 else 0;
  }

  /** Creating and destroying change the timer they find, and no other. */
  lemma ChangesOne(s: State, i: nat, op: Op)
    requires i < |s.timers| && s.timers[i].ref < s.nextRef && !s.timers[i].dead && (op.Create? || op.Destroy?)
    ensures RunOp(s, op).timers[i] != s.timers[i]
      <==> (op.Create? ==> op.seconds > 0.0) && i == IndexNamed(s.timers, op.plugin, op.name)
  {
  }

  /** timer.create under the empty name takes over a timer that has none: names are unique only when not empty. */
  lemma EmptyNameTakesOver()
    ensures var s := RunScript(INIT, [After(0, 5.0, true), Create(0, "", 3.0, false, true)]);
      s.timers == [Timer(1, 1, 0, 3.0, 3.0, false, "", true)]
  {
    var s1 := RunOp(INIT, After(0, 5.0, true));
    assert s1.timers == [Timer(1, 0, 0, 5.0, 0.0, false, "", true)];
    var script := [After(0, 5.0, true), Create(0, "", 3.0, false, true)];
    assert script[1..] == [Create(0, "", 3.0, false, true)];
    assert Named(s1.timers[0], 0, "");
  }
}
