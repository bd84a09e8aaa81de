/** Whether a request's callback can still run, decided from the state alone. */
module HttpClientFate {
  import opened HttpClientSpec
  import opened HttpClientLaws

  ghost predicate CallsIn(s: State, steps: seq<Step>, id: nat)
    requires Runs(s, steps)
  {
    exists k :: |s.log| <= k < |After(s, steps).log| && After(s, steps).log[k].Ran? && After(s, steps).log[k].id == id
  }

  /** Some continuation calls it back. */
  ghost predicate MayCall(s: State, id: nat) { exists steps :: Runs(s, steps) && CallsIn(s, steps, id) }

  /** It is somewhere, armed, of the present Lua state, and not the one being called. */
  ghost predicate Callable(s: State, id: nat) {
    exists r :: In(s, r) && r.id == id && Wanted(s, r) && !(s.calling && s.batch != [] && r == s.batch[0])
  }

  // ---------------------------------------------------------------------------
  // What is not callable never will be

  lemma StaysUncallable(s: State, s': State, queues: bool, id: nat)
    requires Inv(s) && Moves(s, s', queues) && CallGoesOn(s, s') && id < s.nextId && !Callable(s, id)
    ensures !Callable(s', id)
  {
    forall r' | In(s', r') && r'.id == id && Wanted(s', r') ensures s'.calling && s'.batch != [] && r' == s'.batch[0] {
      assert FromIn(s, r');
      var r :| In(s, r) && (r' == r || r' == r.(callback := NOREF));
      assert r == r' && r.generation <= s.generation;
      assert Wanted(s, r);
    }
  }

  lemma {:induction false} NeverAgain(s: State, steps: seq<Step>, id: nat)
    requires Inv(s) && Runs(s, steps) && id < s.nextId && !Callable(s, id)
    ensures s.log <= After(s, steps).log && !CallsIn(s, steps, id)
    decreases |steps|
  {
    if steps != [] {
      var s' := Next(s, steps[0]);
      StepKeeps(s, steps[0]);
      StepMoves(s, steps[0]);
      CallKept(s, steps[0]);
      StepLogs(s, steps[0]);
      StaysUncallable(s, s', steps[0].Queue?, id);
      if e :| RanNow(s, s', e) { assert In(s, s.batch[0]); }
      NeverAgain(s', steps[1..], id);
    }
  }

  lemma {:induction false} LogGrows(s: State, steps: seq<Step>)
    requires Inv(s) && Runs(s, steps)
    ensures s.log <= After(s, steps).log
    decreases |steps|
  {
    if steps != [] {
      StepKeeps(s, steps[0]);
      StepLogs(s, steps[0]);
      LogGrows(Next(s, steps[0]), steps[1..]);
    }
  }

  // ---------------------------------------------------------------------------
  // What is callable can be called

  lemma OneStep(s: State, step: Step)
    requires Enabled(s, step)
    ensures Runs(s, [step]) && After(s, [step]) == Next(s, step)
  {
    assert Runs(Next(s, step), []);
  }

  /** t is s with its batch one shorter, or used up: the rest is as it was. */
  ghost predicate Drained(s: State, t: State, n: nat) {
    && n <= |s.batch| && t.batch == s.batch[n..] && (n > 0 ==> !t.calling) && (n == 0 ==> t == s)
    && t.pending == s.pending && t.running == s.running && t.done == s.done
    && t.game == s.game && t.generation == s.generation && t.nextId == s.nextId
  }

  lemma SkipHead(s: State) returns (steps: seq<Step>)
    requires Inv(s) && s.game.Free? && s.batch != []
    ensures Runs(s, steps) && Drained(s, After(s, steps), 1)
  {
    if s.calling {
      steps := [EndCall];
      OneStep(s, EndCall);
    } else if Wanted(s, s.batch[0]) {
      OneStep(s, Begin);
      OneStep(Next(s, Begin), EndCall);
      RunsOn(s, [Begin], [EndCall]);
      steps := [Begin] + [EndCall];
    } else {
      steps := [Begin];
      OneStep(s, Begin);
    }
  }

  lemma {:induction false} Drain(s: State, n: nat) returns (steps: seq<Step>)
    requires Inv(s) && s.game.Free? && n <= |s.batch|
    ensures Runs(s, steps) && Drained(s, After(s, steps), n) && Inv(After(s, steps))
    decreases n
  {
    if n == 0 {
      steps := [];
      assert s.batch[0..] == s.batch;
    } else {
      var first := Drain(s, n - 1);
      var t := After(s, first);
      var next := SkipHead(t);
      RunsOn(s, first, next);
      steps := first + next;
      assert s.batch[n - 1..][1..] == s.batch[n..];
      RunKeeps(s, steps);
    }
  }

  lemma CallsAfter(s: State, first: seq<Step>, step: Step, id: nat)
    requires Inv(s) && Runs(s, first) && Enabled(After(s, first), step)
    requires var t := After(s, first); var t' := Next(t, step); exists e :: RanNow(t, t', e) && e.id == id
    ensures MayCall(s, id)
  {
    var t := After(s, first);
    LogGrows(s, first);
    OneStep(t, step);
    RunsOn(s, first, [step]);
    var e :| RanNow(t, Next(t, step), e) && e.id == id;
    assert After(s, first + [step]).log[|t.log|] == e;
    assert CallsIn(s, first + [step], id);
  }

  lemma CallFromBatch(s: State, k: nat)
    requires Inv(s) && s.game.Free? && k < |s.batch| && Wanted(s, s.batch[k]) && !(s.calling && k == 0)
    ensures MayCall(s, s.batch[k].id)
  {
    var first := Drain(s, k);
    var t := After(s, first);
    assert t.batch[0] == s.batch[k];
    OneStep(t, Begin);
    assert RanNow(t, Next(t, Begin), Next(t, Begin).log[|t.log|]);
    CallsAfter(s, first, Begin, s.batch[k].id);
  }

  lemma MayCallLater(s: State, first: seq<Step>, id: nat)
    requires Inv(s) && Runs(s, first) && MayCall(After(s, first), id)
    ensures MayCall(s, id)
  {
    var t := After(s, first);
    var steps :| Runs(t, steps) && CallsIn(t, steps, id);
    LogGrows(s, first);
    RunsOn(s, first, steps);
    assert CallsIn(s, first + steps, id);
  }

  lemma CallFromDone(s: State, k: nat)
    requires Inv(s) && s.game.Free? && k < |s.done| && Wanted(s, s.done[k])
    ensures MayCall(s, s.done[k].id)
  {
    var first := Drain(s, |s.batch|);
    var t := After(s, first);
    assert t.batch == [];
    OneStep(t, Swap);
    RunsOn(s, first, [Swap]);
    RunKeeps(s, first + [Swap]);
    var u := After(s, first + [Swap]);
    assert u == Next(t, Swap) && u.batch == s.done;
    assert !u.calling;
    CallFromBatch(u, k);
    MayCallLater(s, first + [Swap], s.done[k].id);
  }

  lemma CallFromRunning(s: State, w: nat)
    requires Inv(s) && s.game.Free? && w < |s.running| && Wanted(s, s.running[w])
    ensures MayCall(s, s.running[w].id)
  {
    OneStep(s, Finish(w));
    RunKeeps(s, [Finish(w)]);
    CallFromDone(Next(s, Finish(w)), |s.done|);
    MayCallLater(s, [Finish(w)], s.running[w].id);
  }

  /** A worker that is free takes the oldest request; when none is, one finishes first. */
  lemma {:induction false} CallFromPending(s: State, k: nat)
    requires Inv(s) && s.game.Free? && k < |s.pending|
    ensures MayCall(s, s.pending[k].id)
    decreases k, |s.running|
  {
    var id := s.pending[k].id;
    var step := if |s.running| < WORKER_COUNT then Take else Finish(0);
    OneStep(s, step);
    RunKeeps(s, [step]);
    var t := Next(s, step);
    if step == Finish(0) {
      CallFromPending(t, k);
    } else if k > 0 {
      CallFromPending(t, k - 1);
    } else {
      assert Wanted(s, s.pending[0]);
      CallFromRunning(t, |s.running|);
    }
    MayCallLater(s, [step], id);
  }

  /** A request will be called back in some continuation if and only if it is armed, of the present Lua state, and
      queued, on a worker, answered or in the drained batch. */
  lemma FateDecided(s: State, id: nat)
    requires Inv(s) && s.game.Free? && id < s.nextId
    ensures MayCall(s, id) <==> Callable(s, id)
  {
    if Callable(s, id) {
      var r :| In(s, r) && r.id == id && Wanted(s, r) && !(s.calling && s.batch != [] && r == s.batch[0]);
      CallableMayCall(s, r);
    } else if steps :| Runs(s, steps) && CallsIn(s, steps, id) {
      NeverAgain(s, steps, id);
    }
  }

  lemma CallableMayCall(s: State, r: Req)
    requires Inv(s) && s.game.Free? && In(s, r) && Wanted(s, r) && !(s.calling && s.batch != [] && r == s.batch[0])
    ensures MayCall(s, r.id)
  {
    if r in s.pending {
      var k :| 0 <= k < |s.pending| && s.pending[k] == r;
      CallFromPending(s, k);
    } else if r in s.running {
      var w :| 0 <= w < |s.running| && s.running[w] == r;
      CallFromRunning(s, w);
    } else if r in s.done {
      var k :| 0 <= k < |s.done| && s.done[k] == r;
      CallFromDone(s, k);
    } else {
      var k :| 0 <= k < |s.batch| && s.batch[k] == r;
      CallFromBatch(s, k);
    }
  }

  // ---------------------------------------------------------------------------
  // What cancel and plugin removal achieve

  ghost predicate OnItsWay(s: State, r: Req) {
    (r in s.running || r in s.batch) && Wanted(s, r) && !(s.calling && s.batch != [] && r == s.batch[0])
  }

  /** Cancelling a request that is not queued silences it if and only if it is not on a worker or in the drained
      batch; cancel says true if and only if an answer to it waits for the drain. */
  lemma CancelSilences(s: State)
    requires Inv(s) && Enabled(s, CancelDone) && s.game.id < s.nextId
    ensures !MayCall(Next(s, CancelDone), s.game.id) <==> !exists r: Req :: r.id == s.game.id && OnItsWay(s, r)
    ensures CancelledTrue(s.game.id) in Next(s, CancelDone).log[|s.log|..]
      <==> exists r :: r in s.done && r.id == s.game.id
  {
    var s', id := Next(s, CancelDone), s.game.id;
    StepKeeps(s, CancelDone);
    FateDecided(s', id);
    if Callable(s', id) {
      var r :| In(s', r) && r.id == id && Wanted(s', r) && !(s'.calling && s'.batch != [] && r == s'.batch[0]);
      DisarmedIn(s, 0, r);
      assert OnItsWay(s, r);
    }
    if r: Req :| r.id == id && OnItsWay(s, r) { assert In(s', r) && Wanted(s', r); }
  }

  /** Once a plugin is removed, which of its requests can still call back: exactly those on a worker or in the
      drained batch at that moment. */
  lemma RemovalSilences(s: State, r: Req)
    requires Inv(s) && Enabled(s, RemoveDone) && In(s, r) && r.plugin == s.game.plugin
    ensures !MayCall(Next(s, RemoveDone), r.id) <==> !OnItsWay(s, r)
  {
    var s' := Next(s, RemoveDone);
    StepKeeps(s, RemoveDone);
    Frame(s, RemoveDone);
    assert forall x :: x in s.pending ==> x.id != r.id by {
      forall x | x in s.pending ensures x.id != r.id { if x.id == r.id { Same(s, x, r); } }
    }
    FateDecided(s', r.id);
    if Callable(s', r.id) {
      var x :| In(s', x) && x.id == r.id && Wanted(s', x) && !(s'.calling && s'.batch != [] && x == s'.batch[0]);
      StillThere(s, x, r);
    }
    if OnItsWay(s, r) { assert In(s', r) && Wanted(s', r); }
  }

  lemma StillThere(s: State, x: Req, r: Req)
    requires Inv(s) && Enabled(s, RemoveDone) && In(s, r) && r.plugin == s.game.plugin
    requires In(Next(s, RemoveDone), x) && x.id == r.id && Wanted(s, x)
    ensures x == r && (r in s.running || r in s.batch)
  {
    Frame(s, RemoveDone);
    DisarmedIn(s, s.game.plugin, x);
    assert In(s, x);
    Same(s, x, r);
  }

  /** Where every entry of a request that is still armed is on a worker or in the drained batch. */
  lemma FateOnItsWay(s: State, id: nat)
    requires Inv(s) && s.game.Free? && id < s.nextId
    requires forall r :: In(s, r) && r.id == id && Armed(r) ==> r in s.running || r in s.batch
    ensures MayCall(s, id) <==> exists r: Req :: r.id == id && OnItsWay(s, r)
  {
    FateDecided(s, id);
    if Callable(s, id) {
      var r :| In(s, r) && r.id == id && Wanted(s, r) && !(s.calling && s.batch != [] && r == s.batch[0]);
      assert OnItsWay(s, r);
    }
    if r: Req :| r.id == id && OnItsWay(s, r) { assert In(s, r); }
  }

  /** A cancel that has just said true has silenced its request. */
  lemma CancelledSilent(s: State, step: Step, id: nat)
    requires Inv(s) && Enabled(s, step) && (step.CancelPending? || step.CancelDone?)
    requires Next(s, step).log == s.log + [CancelledTrue(id)] && Next(s, step).game.Free?
    ensures id < s.nextId && !MayCall(Next(s, step), id) && forall r :: In(Next(s, step), r) && r.id == id ==> !Armed(r)
  {
    var s' := Next(s, step);
    StepLogs(s, step);
    StepKeeps(s, step);
    Frame(s, step);
    var e :| CancelledNow(s, s', e);
    assert e == s'.log[|s.log|] == CancelledTrue(id);
    FateDecided(s', id);
  }

  /** Nothing asked for before a reset can be called back after it. */
  lemma ResetSilences(s: State, id: nat)
    requires Inv(s) && Enabled(s, ResetDone) && id < s.nextId
    ensures !MayCall(Next(s, ResetDone), id)
  {
    StepKeeps(s, ResetDone);
    var s' := Next(s, ResetDone);
    FateDecided(s', id);
    forall r | In(s', r) ensures !Wanted(s', r) { assert In(s, r); }
  }

  /** A request just queued can be called back. */
  lemma QueuedMayCall(s: State, plugin: int, slot: int)
    requires Inv(s) && Enabled(s, Queue(plugin, slot))
    ensures MayCall(Next(s, Queue(plugin, slot)), s.nextId)
    ensures forall r :: In(s, r) ==> r.id != s.nextId
  {
    var s', r := Next(s, Queue(plugin, slot)), Req(s.nextId, plugin, s.generation, slot);
    StepKeeps(s, Queue(plugin, slot));
    assert r in s'.pending;
    assert s.calling ==> In(s, s.batch[0]);
    CallableMayCall(s', r);
  }
}
