/** Which sockets are turned away, and what becomes of one that is not. */
module HttpServerFate {
  import opened HttpServerSpec
  import opened HttpServerLaws

  // ---------------------------------------------------------------------------
  // Turned away

  ghost function RefusedNow(s: State, step: Step): seq<nat>
    requires Enabled(s, step)
  {
    if step.Enqueue? && |s.queue| >= 64 then [s.acceptor.conn] else []
  }

  /** The sockets that came while 64 others were waiting for a worker. */
  ghost function Refused(s: State, steps: seq<Step>): seq<nat>
    requires Runs(s, steps)
    decreases |steps|
  {
    if steps == [] then [] else RefusedNow(s, steps[0]) + Refused(Next(s, steps[0]), steps[1..])
  }

  /** The sockets closed for want of room, in order. */
  ghost function Overflowed(l: seq<Closing>): seq<nat> {
    if l == [] then [] else
      var n := |l| - 1;
      Overflowed(l[..n]) + if l[n].why.Overflow? then [l[n].conn] else []
  }

  lemma {:induction false} OverflowedOn(a: seq<Closing>, b: seq<Closing>)
    ensures Overflowed(a + b) == Overflowed(a) + Overflowed(b)
    decreases |b|
  {
    if b == [] {
      assert a + b == a;
    } else {
      OverflowedOn(a, b[..|b| - 1]);
      assert (a + b)[..|a + b| - 1] == a + b[..|b| - 1];
    }
  }

  lemma {:induction false} NoneOverflowed(q: seq<nat>)
    ensures Overflowed(Closings(q)) == []
    decreases |q|
  {
    if q != [] {
      NoneOverflowed(q[..|q| - 1]);
      assert Closings(q)[..|q| - 1] == Closings(q[..|q| - 1]);
    }
  }

  lemma StepOverflows(s: State, step: Step)
    requires Enabled(s, step)
    ensures Overflowed(Next(s, step).closed) == Overflowed(s.closed) + RefusedNow(s, step)
  {
    var s' := Next(s, step);
    if step.Join? {
      OverflowedOn(s.closed, Closings(s.queue));
      NoneOverflowed(s.queue);
    } else if |s'.closed| > |s.closed| {
      assert s'.closed[..|s.closed|] == s.closed;
    }
  }

  lemma Regroup(a: seq<nat>, b: seq<nat>, c: seq<nat>)
    ensures a + b + c == a + (b + c)
  {
  }

  /** A socket is closed for want of room exactly when it came while 64 others were waiting. */
  lemma {:induction false} RefusedExactly(s: State, steps: seq<Step>)
    requires Runs(s, steps)
    ensures Overflowed(After(s, steps).closed) == Overflowed(s.closed) + Refused(s, steps)
    decreases |steps|
  {
    if steps != [] {
      var next, rest := Next(s, steps[0]), steps[1..];
      StepOverflows(s, steps[0]);
      RefusedExactly(next, rest);
      Regroup(Overflowed(s.closed), RefusedNow(s, steps[0]), Refused(next, rest));
    }
  }

  lemma {:induction false} ClosedWhy(l: seq<Closing>, c: nat)
    requires Closed(l, c) > 0
    ensures c in Overflowed(l) || exists e :: e in l && e.conn == c && !e.why.Overflow?
    decreases |l|
  {
    var n := |l| - 1;
    if l[n].conn != c { ClosedWhy(l[..n], c); }
  }

  /** Any other socket is in the acceptor's hands, waiting, with a worker, or closed for another reason. */
  lemma NotRefused(steps: seq<Step>, c: nat)
    requires Runs(INIT, steps) && c < After(INIT, steps).accepted && c !in Refused(INIT, steps)
    ensures var s := After(INIT, steps);
      || s.acceptor == Holding(c) || c in s.queue || Workers(s.workers, c) == 1
      || exists e :: e in s.closed && e.conn == c && !e.why.Overflow?
  {
    InitOk();
    RunKeeps(INIT, steps);
    RefusedExactly(INIT, steps);
    var s := After(INIT, steps);
    assert Places(s, c) == 1;
    if Closed(s.closed, c) > 0 { ClosedWhy(s.closed, c); }
  }

  // ---------------------------------------------------------------------------
  // Served

  lemma Cons(s: State, step: Step, rest: seq<Step>)
    requires Enabled(s, step) && Runs(Next(s, step), rest)
    ensures Runs(s, [step] + rest) && After(s, [step] + rest) == After(Next(s, step), rest)
  {
    assert ([step] + rest)[1..] == rest;
  }

  lemma Two(s: State, a: Step, b: Step)
    requires Enabled(s, a) && Enabled(Next(s, a), b)
    ensures Runs(s, [a, b]) && After(s, [a, b]) == Next(Next(s, a), b)
  {
    OneStep(Next(s, a), b);
    Cons(s, a, [b]);
    assert [a] + [b] == [a, b];
  }

  lemma Four(s: State, a: Step, b: Step, c: Step, d: Step)
    requires Enabled(s, a) && Enabled(Next(s, a), b)
    requires var t := Next(Next(s, a), b); Enabled(t, c) && Enabled(Next(t, c), d)
    ensures Runs(s, [a, b, c, d]) && After(s, [a, b, c, d]) == Next(Next(Next(Next(s, a), b), c), d)
  {
    Two(Next(Next(s, a), b), c, d);
    Two(s, a, b);
    RunsOn(s, [a, b], [c, d]);
    assert [a, b] + [c, d] == [a, b, c, d];
  }

  /** A client's connection reaches a free worker; after a fruitless select or accept the acceptor just tries again. */
  lemma Arrives(s: State, w: nat)
    requires s.acceptor.Selecting? && !s.stopping && s.queue == [] && w < |s.workers| && s.workers[w].Idle?
    ensures var steps := [Poll(true), Accept(true), Enqueue, Take(w)];
      && Runs(s, steps)
      && After(s, steps) == s.(accepted := s.accepted + 1, workers := s.workers[w := Reading(s.accepted)])
    ensures Runs(s, [Poll(false), Poll(true)]) && Runs(s, [Poll(true), Accept(false)])
    ensures After(s, [Poll(true), Accept(false)]) == s == Next(s, Poll(false))
  {
    Two(s, Poll(false), Poll(true));
    Two(s, Poll(true), Accept(false));
    Four(s, Poll(true), Accept(true), Enqueue, Take(w));
    var t := Next(Next(Next(s, Poll(true)), Accept(true)), Enqueue);
    assert t == s.(accepted := s.accepted + 1, queue := [s.accepted]);
  }

  lemma Six(s: State, a: seq<Step>, b: seq<Step>)
    requires Runs(s, a) && Runs(After(s, a), b) && |a| == 4 && |b| == 2
    ensures var steps := [a[0], a[1], a[2], a[3], b[0], b[1]];
      Runs(s, steps) && After(s, steps) == After(After(s, a), b)
  {
    RunsOn(s, a, b);
    assert a + b == [a[0], a[1], a[2], a[3], b[0], b[1]];
  }

  /** Worker w is reading c's request, and the game thread has nothing else to do. */
  predicate ReadsAlone(s: State, w: nat, c: nat) {
    w < |s.workers| && s.workers[w] == Reading(c) && s.game.Free? && s.batch == [] && s.pending == []
  }

  lemma Handled(s: State, w: nat, c: nat, res: Response)
    requires ReadsAlone(s, w, c)
    ensures var steps := [Read(w, true), Swap, Begin, Answer(res)];
      && Runs(s, steps)
      && After(s, steps) == s.(conns := s.conns[c := Conn(true, false, res)], workers := s.workers[w := Waiting(c)])
  {
    Four(s, Read(w, true), Swap, Begin, Answer(res));
  }

  /** A request that is read and handled is answered with what its handler returned; a stream lasts until it ends. */
  lemma AnsweredAsHandled(s: State, w: nat, c: nat, res: Response)
    requires ReadsAlone(s, w, c)
    ensures var steps := [Read(w, true), Swap, Begin, Answer(res), Wake(w), Reply(w)];
      && Runs(s, steps)
      && var t := After(s, steps);
         if res.upgrade then
           Enabled(t, EndStream(w)) && t.closed == s.closed
           && Next(t, EndStream(w)).closed == s.closed + [Closing(c, Streamed)]
         else t.closed == s.closed + [Closing(c, Replied(res))] && t.workers == s.workers[w := Idle]
  {
    var handled := [Read(w, true), Swap, Begin, Answer(res)];
    Handled(s, w, c, res);
    var t := After(s, handled);
    Two(t, Wake(w), Reply(w));
    Six(s, handled, [Wake(w), Reply(w)]);
  }

  /** One posted when the server reloads is told so. */
  lemma ToldOfReload(s: State, w: nat, c: nat)
    requires ReadsAlone(s, w, c)
    ensures var steps := [Read(w, true), Reset, ResetOne, ResetOne, Wake(w), Reply(w)];
      && Runs(s, steps)
      && After(s, steps).closed == s.closed + [Closing(c, Replied(Response(503, "server reloading", false)))]
  {
    var told := [Read(w, true), Reset, ResetOne, ResetOne];
    Four(s, Read(w, true), Reset, ResetOne, ResetOne);
    var t := After(s, told);
    assert t == s.(conns := s.conns[c := Conn(true, false, RELOADING)], workers := s.workers[w := Waiting(c)]);
    Two(t, Wake(w), Reply(w));
    Six(s, told, [Wake(w), Reply(w)]);
  }

  /** A malformed request is refused; one nobody answers in time is given up on, and its handler not called any more. */
  lemma NotHandled(s: State, w: nat, c: nat)
    requires ReadsAlone(s, w, c)
    ensures Enabled(s, Read(w, false)) && Next(s, Read(w, false)).closed == s.closed + [Closing(c, BadRequest)]
    ensures var steps := [Read(w, true)] + [GiveUp(w), Reply(w)];
      Runs(s, steps) && After(s, steps).closed == s.closed + [Closing(c, TimedOut)]
    ensures var steps := [Read(w, true), GiveUp(w), Swap, Begin];
      && Runs(s, steps) && After(s, steps).game.Free? && After(s, steps).batch == []
      && After(s, steps).conns == s.conns[c := Conn(false, true, Response(200, "", false))]
  {
    Four(s, Read(w, true), GiveUp(w), Swap, Begin);
    Two(Next(s, Read(w, true)), GiveUp(w), Reply(w));
    Cons(s, Read(w, true), [GiveUp(w), Reply(w)]);
  }

  // ---------------------------------------------------------------------------
  // Starting and stopping

  /** A listener can be started, again too, outside the drain or by a handler: eight idle workers and an acceptor. */
  lemma Listens(s: State)
    requires ((s.game.Free? && s.batch == []) || s.game.Serving?) && !s.listening
    ensures Enabled(s, Listen)
    ensures var t := Next(s, Listen);
      && t.listening && !t.stopping && t.acceptor.Selecting? && t.queue == s.queue && |t.workers| == 8
      && forall w :: 0 <= w < 8 ==> t.workers[w].Idle?
  {
  }

  function Takes(k: nat): seq<Step>
    requires k <= 8
  {
    seq(8 - k, i requires 0 <= i < 8 - k => Take(k + i))
  }

  lemma {:induction false} AllLeave(s: State, k: nat)
    requires s.stopping && |s.workers| == 8 && k <= 8
    requires forall w :: 0 <= w < 8 ==> s.workers[w] == if w < k then Gone else Idle
    ensures Runs(s, Takes(k)) && After(s, Takes(k)) == s.(workers := After(s, Takes(k)).workers)
    ensures |After(s, Takes(k)).workers| == 8 && forall w :: 0 <= w < 8 ==> After(s, Takes(k)).workers[w].Gone?
    decreases 8 - k
  {
    if k < 8 {
      assert Takes(k) == [Take(k)] + Takes(k + 1);
      AllLeave(Next(s, Take(k)), k + 1);
      Cons(s, Take(k), Takes(k + 1));
    }
  }

  lemma IdleLeaves(s: State)
    requires (s.game.Free? && s.batch == []) || s.game.Serving?
    requires s.listening && s.acceptor.Selecting? && |s.workers| == 8
    requires forall w :: 0 <= w < 8 ==> s.workers[w].Idle?
    ensures var steps := [Stop, Poll(true)] + Takes(0);
      && Runs(s, steps)
      && var t := After(s, steps);
         |t.workers| == 8 && (forall w :: 0 <= w < 8 ==> t.workers[w].Gone?) &&
         t == s.(stopping := true, game := Stopping(s.game.Serving?), acceptor := Down, workers := t.workers)
  {
    Two(s, Stop, Poll(true));
    var told := After(s, [Stop, Poll(true)]);
    AllLeave(told, 0);
    RunsOn(s, [Stop, Poll(true)], Takes(0));
  }

  /** Told to stop, an idle listener's threads leave and it is down, what waited closed unserved. */
  lemma StopsWhenIdle(s: State)
    requires (s.game.Free? && s.batch == []) || s.game.Serving?
    requires s.listening && s.acceptor.Selecting? && |s.workers| == 8
    requires forall w :: 0 <= w < 8 ==> s.workers[w].Idle?
    ensures var steps := [Stop, Poll(true)] + Takes(0);
      && Runs(s, steps) && Enabled(After(s, steps), Join)
      && var t := Next(After(s, steps), Join);
         !t.listening && t.queue == [] && t.game.Serving? == s.game.Serving? && |t.closed| == |s.closed| + |s.queue| &&
         forall i :: 0 <= i < |s.queue| ==> t.closed[|s.closed| + i] == Closing(s.queue[i], Stopped)
  {
    IdleLeaves(s);
  }
}
