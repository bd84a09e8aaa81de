/** The web server's threads as the code has them: loops and functions over shared queues and flags, with the other
    threads getting on between any two sections run under a lock.

    `trace` records which section ran when, so that Valid says: what the queues and flags hold is what that run of the
    protocol leads to. Where a thread lets go of its lock, a caller's plan says what the others do meanwhile; whatever
    of it cannot happen then, or is this thread's own to do, is passed over. */
module HttpServer {
  import opened HttpServerSpec
  import opened HttpServerLaws
  import opened HttpServerFate

  /** Who lets the others go on: the acceptor, a worker, the game thread, or the game thread inside a handler, which may
      start and stop the listener. */
  datatype Thread = AcceptThread | WorkerThread(w: nat) | GameThread | HandlerCall

  predicate By(me: Thread, step: Step) {
    match me
    case AcceptThread => AcceptorMoves(step)
    case WorkerThread(w) => Moves(step, w)
    case GameThread => GameMoves(step)
    case HandlerCall => DrainMoves(step)
  }

  /** One connection as its worker lives through it: what the others do before it is taken, each time the wait looks at
      `done`, between the wait and the reply, and while its stream is open. */
  datatype Visit = Visit(before: seq<Step>, ok: bool, waits: seq<seq<Step>>, late: seq<Step>, stream: seq<Step>)

  /** A handler's answer, what the others do before it is called, and what they and it do while it runs. */
  datatype Handling = Handling(before: seq<Step>, inside: seq<Step>, res: Response)

  const NOT_FOUND := Response(404, "not found", false)

  function HandlingOf(handlings: seq<Handling>, i: nat): Handling {
    if i < |handlings| then handlings[i] else Handling([], [], NOT_FOUND)
  }

  datatype Round = Round(before: seq<Step>, ready: bool, between: seq<Step>, ok: bool, late: seq<Step>)

  predicate AfterWait(why: Reason) { why.TimedOut? || why.Replied? || why.Streamed? }

  /** What a worker knows of those it served, and of those still waiting. */
  ghost predicate WorkedThrough(s: State, served: seq<nat>) {
    && (forall i, j :: 0 <= i < j < |served| ==> served[i] < served[j])
    && (forall i :: 0 <= i < |served| ==> Closed(s.closed, served[i]) == 1)
    && (served != [] ==> Behind(s, served[|served| - 1]))
  }

  lemma WorkedSnoc(s: State, served: seq<nat>, c: nat)
    requires WorkedThrough(s, served) && Closed(s.closed, c) == 1 && Behind(s, c)
    requires served != [] ==> served[|served| - 1] < c
    ensures WorkedThrough(s, served + [c])
  {
  }

  lemma StillWorked(s: State, steps: seq<Step>, served: seq<nat>)
    requires Inv(s) && Runs(s, steps) && WorkedThrough(s, served)
    ensures WorkedThrough(After(s, steps), served)
  {
    var t := After(s, steps);
    RunKeeps(s, steps);
    forall i | 0 <= i < |served| ensures Closed(t.closed, served[i]) == 1 {
      ClosedGrows(s, steps, served[i]);
      assert Places(t, served[i]) <= 1;
    }
    if served != [] { BehindStays(s, steps, served[|served| - 1]); }
  }

  lemma NextTaken(trace: seq<Step>, w: nat, served: seq<nat>)
    requires Runs(INIT, trace) && WorkedThrough(After(INIT, trace), served)
    requires var s := After(INIT, trace); Enabled(s, Take(w)) && !s.stopping
    ensures var s := After(INIT, trace);
      Behind(Next(s, Take(w)), s.queue[0]) && (served != [] ==> served[|served| - 1] < s.queue[0])
  {
    TurnsKept(INIT, trace);
    HeadBehind(After(INIT, trace), w);
  }

  /** What worker w takes in one step. */
  function TakenNow(s: State, step: Step, w: nat): seq<nat> {
    if step == Take(w) && !s.stopping && s.queue != [] then [s.queue[0]] else []
  }

  /** The sockets worker w takes in a run. */
  ghost function Taken(s: State, steps: seq<Step>, w: nat): seq<nat>
    requires Runs(s, steps)
    decreases |steps|
  {
    if steps == [] then [] else TakenNow(s, steps[0], w) + Taken(Next(s, steps[0]), steps[1..], w)
  }

  lemma {:induction false} TakenOn(s: State, a: seq<Step>, b: seq<Step>, w: nat)
    requires Runs(s, a) && Runs(s, a + b) && Runs(After(s, a), b)
    ensures Taken(s, a + b, w) == Taken(s, a, w) + Taken(After(s, a), b, w)
    decreases |a|
  {
    if a == [] {
      assert a + b == b;
    } else {
      assert (a + b)[0] == a[0] && (a + b)[1..] == a[1..] + b;
      TakenOn(Next(s, a[0]), a[1..], b, w);
    }
  }

  lemma {:induction false} TakenNone(s: State, steps: seq<Step>, w: nat)
    requires Runs(s, steps) && forall step :: step in steps ==> !Moves(step, w)
    ensures Taken(s, steps, w) == []
    decreases |steps|
  {
    if steps != [] {
      assert steps[0] in steps;
      TakenNone(Next(s, steps[0]), steps[1..], w);
    }
  }

  lemma TakenMore(trace: seq<Step>, ran: seq<Step>, w: nat)
    requires Runs(INIT, trace) && Runs(After(INIT, trace), ran)
    ensures Runs(INIT, trace + ran)
    ensures Taken(INIT, trace + ran, w) == Taken(INIT, trace, w) + Taken(After(INIT, trace), ran, w)
    ensures (forall step :: step in ran ==> !Moves(step, w)) ==> Taken(INIT, trace + ran, w) == Taken(INIT, trace, w)
  {
    RunsOn(INIT, trace, ran);
    TakenOn(INIT, trace, ran, w);
    if forall step :: step in ran ==> !Moves(step, w) { TakenNone(After(INIT, trace), ran, w); }
  }

  lemma TakenStep(trace: seq<Step>, step: Step, w: nat)
    requires Runs(INIT, trace) && Enabled(After(INIT, trace), step)
    ensures Runs(INIT, trace + [step])
    ensures var s := After(INIT, trace);
      Taken(INIT, trace + [step], w) ==
        if step == Take(w) && !s.stopping then Taken(INIT, trace, w) + [s.queue[0]] else Taken(INIT, trace, w)
  {
    var s := After(INIT, trace);
    OneStep(s, step);
    TakenMore(trace, [step], w);
    assert [step][1..] == [] && Taken(s, [step], w) == TakenNow(s, step, w) + [];
  }

  ghost predicate Served(conns: map<nat, Conn>, c: nat, res: Response) {
    c in conns && (conns[c].abandoned || (conns[c].done && conns[c].res == res))
  }

  lemma ServedForGood(s: State, steps: seq<Step>, c: nat, res: Response)
    requires Inv(s) && Runs(s, steps) && Served(s.conns, c, res)
    ensures Served(After(s, steps).conns, c, res)
  {
    SettledForGood(s, steps, c);
  }

  /** A whole run is the run up to a moment and the run from there. */
  lemma Between(trace: seq<Step>, later: seq<Step>)
    requires Runs(INIT, trace) && Runs(INIT, later) && trace <= later
    ensures Inv(After(INIT, trace)) && Runs(After(INIT, trace), later[|trace|..])
    ensures After(After(INIT, trace), later[|trace|..]) == After(INIT, later)
  {
    assert later == trace + later[|trace|..];
    RunsOn(INIT, trace, later[|trace|..]);
    InitOk();
    RunKeeps(INIT, trace);
  }

  class Server {
    var listening: bool
    var stopping: bool
    var acceptor: Acceptor
    /** s_conn_queue */
    var queue: seq<nat>
    var workers: seq<Worker>
    /** The connections worker and game thread share, by name. */
    var conns: map<nat, Conn>
    /** s_pending, and what a drain or reset has swapped out of it */
    var pending: seq<nat>
    var batch: seq<nat>
    var game: Game
    var accepted: nat
    ghost var closed: seq<Closing>
    ghost var trace: seq<Step>

    ghost function View(): State reads this {
      State(listening, stopping, acceptor, queue, workers, conns, pending, batch, game, accepted, closed)
    }

    ghost predicate Valid() reads this { Runs(INIT, trace) && After(INIT, trace) == View() }

    /** What ran since is this, and nothing else. */
    twostate predicate Played(ran: seq<Step>)
      reads this
    {
      Runs(old(View()), ran) && After(old(View()), ran) == View() && trace == old(trace) + ran
    }

    twostate predicate Took(step: Step)
      reads this
    {
      Enabled(old(View()), step) && Next(old(View()), step) == View() && trace == old(trace) + [step]
    }

    constructor ()
      ensures Valid() && trace == []
    {
      listening, stopping, acceptor, queue, workers := false, false, Down, [], [];
      conns, pending, batch, game, accepted, closed, trace := map[], [], [], Free, 0, [], [];
    }

    ghost method Note(was: State, step: Step)
      requires Runs(INIT, trace) && After(INIT, trace) == was && Enabled(was, step) && View() == Next(was, step)
      modifies this`trace
      ensures Valid() && trace == old(trace) + [step]
    {
      OneStep(was, step);
      RunsOn(INIT, trace, [step]);
      trace := trace + [step];
    }

    lemma Sound()
      requires Valid()
      ensures Inv(View())
    {
      InitOk();
      RunKeeps(INIT, trace);
    }

    // -------------------------------------------------------------------------
    // Sections

    /** closesocket */
    method CloseSocket(conn: nat, why: Reason)
      modifies this`closed
      ensures View() == Close(old(View()), conn, why)
    {
      closed := closed + [Closing(conn, why)];
    }

    /** start_listening, once bind and listen have succeeded */
    method StartListening()
      requires Valid() && Enabled(View(), Listen)
      modifies this
      ensures Valid() && Took(Listen)
    {
      ghost var was := View();
      listening, stopping, acceptor := true, false, Selecting;
      workers := seq(WORKER_COUNT, i => Idle);
      Note(was, Listen);
    }

    /** accept_loop after select returned */
    method Selected(ready: bool)
      requires Valid() && Enabled(View(), Poll(ready))
      modifies this
      ensures Valid() && Took(Poll(ready))
    {
      ghost var was := View();
      if stopping {
        acceptor := Down;
      } else if ready {
        acceptor := Accepting;
      }
      Note(was, Poll(ready));
    }

    method AcceptOne(ok: bool)
      requires Valid() && Enabled(View(), Accept(ok))
      modifies this
      ensures Valid() && Took(Accept(ok))
    {
      ghost var was := View();
      if ok {
        acceptor := Holding(accepted);
        accepted := accepted + 1;
      } else {
        acceptor := Selecting;
      }
      Note(was, Accept(ok));
    }

    /** A full queue refuses: the socket is closed there and then. */
    method EnqueueConn()
      requires Valid() && Enabled(View(), Enqueue)
      modifies this
      ensures Valid() && Took(Enqueue)
      ensures var c := old(acceptor).conn; if |old(queue)| < 64
        then queue == old(queue) + [c] && closed == old(closed)
        else queue == old(queue) && closed == old(closed) + [Closing(c, Overflow)]
    {
      ghost var was := View();
      if |queue| >= MAX_CONN_QUEUE {
        CloseSocket(acceptor.conn, Overflow);
      } else {
        queue := queue + [acceptor.conn];
      }
      acceptor := Selecting;
      Note(was, Enqueue);
    }

    /** worker_loop, woken by a socket or by the stop */
    method TakeConn(w: nat)
      requires Valid() && Enabled(View(), Take(w))
      modifies this
      ensures Valid() && Took(Take(w))
    {
      ghost var was := View();
      if stopping {
        workers := workers[w := Gone];
      } else {
        workers := workers[w := Reading(queue[0])];
        queue := queue[1..];
      }
      Note(was, Take(w));
    }

    /** handle_connection once the request is read: posted, or refused with 400 */
    method RequestRead(w: nat, ok: bool)
      requires Valid() && Enabled(View(), Read(w, ok))
      modifies this
      ensures Valid() && Took(Read(w, ok))
    {
      ghost var was := View();
      var c := workers[w].conn;
      if ok {
        conns := conns[c := FRESH];
        pending := pending + [c];
        workers := workers[w := Waiting(c)];
      } else {
        CloseSocket(c, BadRequest);
        workers := workers[w := Idle];
      }
      Note(was, Read(w, ok));
    }

    /** The wait under the connection's lock ends: an answer is there, or the time is up. */
    method WaitEnds(w: nat) returns (answered: bool)
      requires Valid() && (Enabled(View(), Wake(w)) || Enabled(View(), GiveUp(w)))
      modifies this
      ensures Valid() && Took(if answered then Wake(w) else GiveUp(w))
    {
      ghost var was := View();
      var c := workers[w].conn;
      answered := conns[c].done;
      if !answered { conns := conns[c := conns[c].(abandoned := true)]; }
      workers := workers[w := if answered then Answered(c) else GaveUp(c)];
      Note(was, if answered then Wake(w) else GiveUp(w));
    }

    /** After the wait: 503, the answer, or a stream that keeps the worker. */
    method Respond(w: nat)
      requires Valid() && Enabled(View(), Reply(w))
      modifies this
      ensures Valid() && Took(Reply(w))
    {
      ghost var was := View();
      var c := workers[w].conn;
      if workers[w].GaveUp? {
        CloseSocket(c, TimedOut);
        workers := workers[w := Idle];
      } else if conns[c].res.upgrade {
        workers := workers[w := Streaming(c)];
      } else {
        CloseSocket(c, Replied(conns[c].res));
        workers := workers[w := Idle];
      }
      Note(was, Reply(w));
    }

    method StreamEnds(w: nat)
      requires Valid() && Enabled(View(), EndStream(w))
      modifies this
      ensures Valid() && Took(EndStream(w))
    {
      ghost var was := View();
      CloseSocket(workers[w].conn, Streamed);
      workers := workers[w := Idle];
      Note(was, EndStream(w));
    }

    /** cslua_httpserver_run and cslua_httpserver_reset take everything posted. */
    method SwapPending(reset: bool)
      requires Valid() && Enabled(View(), if reset then Reset else Swap)
      modifies this
      ensures Valid() && Took(if reset then Reset else Swap)
    {
      ghost var was := View();
      batch, pending := pending, [];
      if reset { game := Resetting; }
      Note(was, if reset then Reset else Swap);
    }

    /** The drain's first look: a connection given up on is passed over. */
    method BeginServing()
      requires Valid() && Enabled(View(), Begin)
      modifies this
      ensures Valid() && Took(Begin)
    {
      ghost var was := View();
      if conns[batch[0]].abandoned { batch := batch[1..]; } else { game := Serving; }
      Note(was, Begin);
    }

    /** Under the connection's lock: the answer is stored unless the worker gave up meanwhile. */
    method Store(c: nat, res: Response)
      requires c in conns
      modifies this`conns
      ensures conns == old(conns)[c := Answering(old(conns)[c], res)]
    {
      if !conns[c].abandoned { conns := conns[c := conns[c].(res := res, done := true)]; }
    }

    method FinishServing(res: Response)
      requires Valid() && Enabled(View(), Answer(res))
      modifies this
      ensures Valid() && Took(Answer(res))
    {
      ghost var was := View();
      Store(batch[0], res);
      batch := batch[1..];
      game := Free;
      Note(was, Answer(res));
    }

    /** cslua_httpserver_reset comes to its next request, or to the end. */
    method RefuseNext()
      requires Valid() && Enabled(View(), ResetOne)
      modifies this
      ensures Valid() && Took(ResetOne)
    {
      ghost var was := View();
      if batch == [] {
        game := Free;
      } else {
        Store(batch[0], RELOADING);
        batch := batch[1..];
      }
      Note(was, ResetOne);
    }

    method BeginStop()
      requires Valid() && Enabled(View(), Stop)
      modifies this
      ensures Valid() && Took(Stop)
    {
      ghost var was := View();
      stopping := true;
      game := Stopping(game.Serving?);
      Note(was, Stop);
    }

    /** What is still queued is closed, one socket after the other. */
    method CloseQueued()
      modifies this`queue, this`closed
      ensures View() == old(View()).(queue := [], closed := old(closed) + Closings(old(queue)))
    {
      ghost var gone := 0;
      while queue != []
        invariant gone <= |old(queue)| && queue == old(queue)[gone..]
        invariant View() == old(View()).(queue := queue, closed := old(closed) + Closings(old(queue)[..gone]))
        decreases |queue|
      {
        assert Closings(old(queue)[..gone + 1]) == Closings(old(queue)[..gone]) + [Closing(queue[0], Stopped)];
        CloseSocket(queue[0], Stopped);
        queue := queue[1..];
        gone := gone + 1;
      }
      assert old(queue)[..gone] == old(queue);
    }

    /** stop_listening once every thread is joined */
    method FinishStop()
      requires Valid() && Enabled(View(), Join)
      modifies this
      ensures Valid() && Took(Join)
    {
      ghost var was := View();
      CloseQueued();
      workers, listening := [], false;
      game := if game.served then Serving else Free;
      Note(was, Join);
    }

    // -------------------------------------------------------------------------
    // The other threads

    method MayDo(step: Step) returns (may: bool)
      ensures may == Enabled(View(), step)
    {
      var s := State(listening, stopping, acceptor, queue, workers, conns, pending, batch, game, accepted, []);
      return Enabled(s, step);
    }

    method Do(step: Step)
      requires Valid() && Enabled(View(), step)
      modifies this
      ensures Valid() && Took(step)
    {
      match step {
        case Listen => StartListening();
        case Poll(ready) => Selected(ready);
        case Accept(ok) => AcceptOne(ok);
        case Enqueue => EnqueueConn();
        case Take(w) => TakeConn(w);
        case Read(w, ok) => RequestRead(w, ok);
        case Wake(w) => var answered := WaitEnds(w);
        case GiveUp(w) => var answered := WaitEnds(w);
        case Reply(w) => Respond(w);
        case EndStream(w) => StreamEnds(w);
        case Swap => SwapPending(false);
        case Begin => BeginServing();
        case Answer(res) => FinishServing(res);
        case Reset => SwapPending(true);
        case ResetOne => RefuseNext();
        case Stop => BeginStop();
        case Join => FinishStop();
      }
    }

    method OthersRun(plan: seq<Step>, me: Thread) returns (ghost ran: seq<Step>)
      requires Valid()
      modifies this
      ensures Valid() && Played(ran) && forall step :: step in ran ==> !By(me, step)
    {
      ran := [];
      var i := 0;
      while i < |plan|
        invariant Valid() && Played(ran) && forall step :: step in ran ==> !By(me, step)
      {
        var may := MayDo(plan[i]);
        if may && !By(me, plan[i]) {
          ghost var was := View();
          Do(plan[i]);
          OneStep(was, plan[i]);
          RunsOn(old(View()), ran, [plan[i]]);
          ran := ran + [plan[i]];
        }
        i := i + 1;
      }
    }

    twostate predicate Later() reads this { old(trace) <= trace }

    /** The sockets worker w has taken so far. */
    ghost function TakenBy(w: nat): seq<nat>
      requires Valid()
      reads this
    {
      Taken(INIT, trace, w)
    }

    /** The others go on, worker w taking nothing. */
    twostate predicate Keeps(w: nat)
      requires old(Valid()) && Valid()
      reads this
    {
      old(trace) <= trace && TakenBy(w) == old(TakenBy(w))
    }

    // -------------------------------------------------------------------------
    // Workers

    lemma WorkerSound(w: nat)
      requires Valid() && w < |workers|
      ensures WorkerOk(View(), workers[w])
    {
      Sound();
    }

    /** The others get on while worker w is busy with something of its own. */
    method Meanwhile(w: nat, plan: seq<Step>)
      requires Valid() && w < |workers| && !workers[w].Gone?
      modifies this
      ensures Valid() && Keeps(w) && w < |workers| && workers[w] == old(workers)[w] && WorkerOk(View(), workers[w])
    {
      ghost var before := trace;
      ghost var ran := OthersRun(plan, WorkerThread(w));
      assert Inv(After(INIT, before)) by { InitOk(); RunKeeps(INIT, before); }
      WorkerStays(After(INIT, before), ran, w);
      TakenMore(before, ran, w);
      WorkerSound(w);
    }

    /** The wait for an answer: it looks at `done` each time it is woken, and gives up when the time is up. */
    method Await(w: nat, waits: seq<seq<Step>>) returns (answered: bool)
      requires Valid() && w < |workers| && workers[w].Waiting?
      modifies this
      ensures Valid() && Keeps(w) && w < |workers|
      ensures var c := old(workers)[w].conn; workers[w] == if answered then Answered(c) else GaveUp(c)
    {
      var c := workers[w].conn;
      var i := 0;
      WorkerSound(w);
      while i < |waits| && !conns[c].done
        invariant Valid() && Keeps(w) && w < |workers| && workers[w] == Waiting(c) && c in conns
      {
        Meanwhile(w, waits[i]);
        i := i + 1;
      }
      ghost var before := trace;
      answered := WaitEnds(w);
      TakenStep(before, if answered then Wake(w) else GiveUp(w), w);
    }

    method RespondAlone(w: nat)
      requires Valid() && Enabled(View(), Reply(w))
      modifies this
      ensures Valid() && Took(Reply(w)) && Keeps(w)
    {
      ghost var before := trace;
      Respond(w);
      TakenStep(before, Reply(w), w);
    }

    method EndAlone(w: nat)
      requires Valid() && Enabled(View(), EndStream(w))
      modifies this
      ensures Valid() && Took(EndStream(w)) && Keeps(w)
    {
      ghost var before := trace;
      StreamEnds(w);
      TakenStep(before, EndStream(w), w);
    }

    /** The answer is read and sent without the connection's lock, and the socket closed. */
    method Finish(w: nat, visit: Visit)
      requires Valid() && w < |workers| && (workers[w].Answered? || workers[w].GaveUp?)
      modifies this
      ensures Valid() && Keeps(w) && w < |workers| && workers[w].Idle?
      ensures closed != [] && closed[|closed| - 1].conn == old(workers)[w].conn && AfterWait(closed[|closed| - 1].why)
    {
      Meanwhile(w, visit.late);
      RespondAlone(w);
      if workers[w].Streaming? {
        Meanwhile(w, visit.stream);
        EndAlone(w);
      }
    }

    ghost predicate ClosedLast(c: nat, why: Reason) reads this {
      && closed != [] && closed[|closed| - 1] == Closing(c, why)
      && Closed(closed, c) == 1 && ClosingOk(conns, Closing(c, why))
    }

    /** handle_connection: the worker is free again, and the socket has been closed, once, after the one outcome its
        connection settled on: refused exactly when malformed, and otherwise 503 when given up on, the stored answer, or
        a stream's end. */
    method HandleConnection(w: nat, visit: Visit)
      requires Valid() && w < |workers| && workers[w].Reading?
      modifies this
      ensures Valid() && Keeps(w) && w < |workers| && workers[w].Idle?
      ensures closed != [] && ClosedLast(old(workers)[w].conn, closed[|closed| - 1].why)
      ensures var why := closed[|closed| - 1].why; if visit.ok then AfterWait(why) else why == BadRequest
    {
      ghost var before := trace;
      RequestRead(w, visit.ok);
      TakenStep(before, Read(w, visit.ok), w);
      if visit.ok {
        WorkerSound(w);
        var answered := Await(w, visit.waits);
        Finish(w, visit);
      }
      LastSound();
    }

    lemma LastSound()
      requires Valid() && closed != []
      ensures ClosedLast(closed[|closed| - 1].conn, closed[|closed| - 1].why)
    {
      Sound();
      ClosedOnce(View(), closed[|closed| - 1]);
    }

    lemma Since(before: seq<Step>)
      requires Valid() && before <= trace
      ensures Runs(INIT, before) && Inv(After(INIT, before))
      ensures Runs(After(INIT, before), trace[|before|..]) && After(After(INIT, before), trace[|before|..]) == View()
    {
      assert trace == before + trace[|before|..];
      RunsPrefix(INIT, before, trace[|before|..]);
      Between(before, trace);
    }

    lemma WorkedSince(before: seq<Step>, served: seq<nat>)
      requires Valid() && before <= trace
      requires Runs(INIT, before) && WorkedThrough(After(INIT, before), served)
      ensures WorkedThrough(View(), served)
    {
      Since(before);
      StillWorked(After(INIT, before), trace[|before|..], served);
    }

    /** The oldest socket is taken. */
    method TakeNext(w: nat, ghost served: seq<nat>) returns (c: nat)
      requires Valid() && WorkedThrough(View(), served) && w < |workers| && workers[w].Idle? && !stopping && queue != []
      modifies this
      ensures Valid() && Later() && TakenBy(w) == old(TakenBy(w)) + [c] && w < |workers| && workers[w] == Reading(c)
      ensures WorkedThrough(View(), served) && Behind(View(), c) && (served != [] ==> served[|served| - 1] < c)
    {
      c := queue[0];
      ghost var before := trace;
      NextTaken(trace, w, served);
      TakeConn(w);
      TakenStep(before, Take(w), w);
      WorkedSince(before, served);
    }

    /** It is served, and its turn is over. */
    method HandleNext(w: nat, visit: Visit, ghost served: seq<nat>, ghost c: nat)
      requires Valid() && w < |workers| && workers[w] == Reading(c)
      requires WorkedThrough(View(), served) && Behind(View(), c) && (served != [] ==> served[|served| - 1] < c)
      modifies this
      ensures Valid() && Keeps(w) && WorkedThrough(View(), served + [c]) && w < |workers| && workers[w].Idle?
    {
      ghost var before := trace;
      HandleConnection(w, visit);
      WorkedSince(before, served);
      BehindSince(before, c);
      WorkedSnoc(View(), served, c);
    }

    lemma BehindSince(before: seq<Step>, c: nat)
      requires Valid() && before <= trace && Runs(INIT, before) && Behind(After(INIT, before), c)
      ensures Behind(View(), c)
    {
      Since(before);
      BehindStays(After(INIT, before), trace[|before|..], c);
    }

    method Leave(w: nat, ghost served: seq<nat>)
      requires Valid() && WorkedThrough(View(), served) && w < |workers| && workers[w].Idle? && stopping
      modifies this
      ensures Valid() && Keeps(w) && WorkedThrough(View(), served) && w < |workers| && workers[w].Gone? && stopping
    {
      ghost var before := trace;
      TakeConn(w);
      TakenStep(before, Take(w), w);
      WorkedSince(before, served);
    }

    /** One turn of worker_loop: wake up, leave if told to stop, or take the next socket if there is one. */
    method WorkerTurn(w: nat, visit: Visit, served: seq<nat>) returns (served': seq<nat>)
      requires Valid() && WorkedThrough(View(), served) && w < |workers| && workers[w].Idle?
      modifies this
      ensures Valid() && Later() && WorkedThrough(View(), served') && served <= served'
      ensures TakenBy(w) == old(TakenBy(w)) + served'[|served|..]
      ensures w < |workers| && (workers[w].Idle? || (workers[w].Gone? && stopping))
    {
      served' := served;
      ghost var before := trace;
      Meanwhile(w, visit.before);
      WorkedSince(before, served);
      if stopping {
        Leave(w, served);
      } else if queue != [] {
        var c := TakeNext(w, served);
        HandleNext(w, visit, served, c);
        served' := served + [c];
        assert served'[|served|..] == [c];
      }
    }

    /** worker_loop, for as many turns as there are visits: a worker takes sockets in the order in which they were
        accepted, and each has been closed, once, before the next is taken; it leaves only when told to stop. */
    method WorkerLoop(w: nat, visits: seq<Visit>) returns (served: seq<nat>)
      requires Valid() && w < |workers| && workers[w].Idle?
      modifies this
      ensures Valid() && Later() && TakenBy(w) == old(TakenBy(w)) + served
      ensures WorkedThrough(View(), served)
      ensures w < |workers| && (workers[w].Idle? || (workers[w].Gone? && stopping))
    {
      served := [];
      var i := 0;
      while i < |visits| && workers[w].Idle?
        invariant Valid() && Later() && TakenBy(w) == old(TakenBy(w)) + served
        invariant WorkedThrough(View(), served)
        invariant w < |workers| && (workers[w].Idle? || (workers[w].Gone? && stopping))
      {
        ghost var sofar := served;
        served := WorkerTurn(w, visits[i], served);
        assert served == sofar + served[|sofar|..];
        i := i + 1;
      }
    }

    // -------------------------------------------------------------------------
    // The acceptor

    /** The others get on while the acceptor is in select or accept, or waits for the queue's lock. */
    method MeanwhileAccepting(plan: seq<Step>)
      requires Valid() && !acceptor.Down?
      modifies this
      ensures Valid() && Later() && acceptor == old(acceptor)
    {
      ghost var before := trace;
      ghost var ran := OthersRun(plan, AcceptThread);
      assert Inv(After(INIT, before)) by { InitOk(); RunKeeps(INIT, before); }
      AcceptorStays(After(INIT, before), ran);
    }

    /** One turn of accept_loop. */
    method AcceptTurn(round: Round)
      requires Valid() && acceptor.Selecting?
      modifies this
      ensures Valid() && Later() && (acceptor.Selecting? || acceptor.Down?)
    {
      MeanwhileAccepting(round.before);
      Selected(round.ready);
      if acceptor.Accepting? {
        MeanwhileAccepting(round.between);
        AcceptOne(round.ok);
        if acceptor.Holding? {
          MeanwhileAccepting(round.late);
          EnqueueConn();
        }
      }
    }

    /** accept_loop, for as many turns as there are rounds: no socket it accepted stays in its hands, and each is
        queued, with a worker or closed; closed for want of room are exactly those that came while 64 waited. */
    method AcceptLoop(rounds: seq<Round>)
      requires Valid() && acceptor.Selecting?
      modifies this
      ensures Valid() && Later() && (acceptor.Selecting? || acceptor.Down?)
      ensures forall c: nat :: c < accepted ==> multiset(queue)[c] + Workers(workers, c) + Closed(closed, c) == 1
      ensures Overflowed(closed) == Refused(INIT, trace)
      ensures forall c: nat :: c < accepted && c !in Refused(INIT, trace) ==>
        c in queue || Workers(workers, c) == 1 || exists e :: e in closed && e.conn == c && !e.why.Overflow?
    {
      var i := 0;
      while i < |rounds| && !acceptor.Down?
        invariant Valid() && Later() && (acceptor.Selecting? || acceptor.Down?)
      {
        AcceptTurn(rounds[i]);
        i := i + 1;
      }
      forall c: nat | c < accepted ensures multiset(queue)[c] + Workers(workers, c) + Closed(closed, c) == 1 {
        Sound();
        assert Places(View(), c) == 1;
      }
      RefusedExactly(INIT, trace);
      forall c: nat | c < accepted && c !in Refused(INIT, trace)
        ensures c in queue || Workers(workers, c) == 1 || exists e :: e in closed && e.conn == c && !e.why.Overflow?
      {
        NotRefused(trace, c);
      }
    }

    // -------------------------------------------------------------------------
    // The game thread

    /** What has been dealt with stays dealt with. */
    lemma ServedSince(before: seq<Step>, c: nat, res: Response)
      requires Valid() && before <= trace && Runs(INIT, before) && Served(After(INIT, before).conns, c, res)
      ensures Served(conns, c, res)
    {
      Since(before);
      ServedForGood(After(INIT, before), trace[|before|..], c, res);
    }

    ghost predicate AllServed(posted: seq<nat>, handlings: seq<Handling>, n: nat)
      requires n <= |posted|
      reads this
    {
      forall i :: 0 <= i < n ==> Served(conns, posted[i], HandlingOf(handlings, i).res)
    }

    lemma AllServedSince(before: seq<Step>, posted: seq<nat>, handlings: seq<Handling>, n: nat)
      requires Valid() && before <= trace && Runs(INIT, before) && n <= |posted|
      requires forall i :: 0 <= i < n ==> Served(After(INIT, before).conns, posted[i], HandlingOf(handlings, i).res)
      ensures AllServed(posted, handlings, n)
    {
      forall i | 0 <= i < n ensures Served(conns, posted[i], HandlingOf(handlings, i).res) {
        ServedSince(before, posted[i], HandlingOf(handlings, i).res);
      }
    }

    /** The others get on while the game thread is between two sections, or in a handler that may start and stop the
        listener. */
    method MeanwhileDraining(plan: seq<Step>, inside: bool)
      requires Valid()
      modifies this
      ensures Valid() && Later() && batch == old(batch) && (!inside ==> game == old(game))
    {
      ghost var before := View();
      ghost var ran := OthersRun(plan, if inside then HandlerCall else GameThread);
      BatchStays(before, ran);
    }

    lemma HeadShared()
      requires Valid() && batch != []
      ensures batch[0] in conns && !conns[batch[0]].done
    {
      Sound();
      assert Queued(View(), batch[0]);
    }

    /** One request of the drain: passed over when given up on, otherwise handled and answered. A handler that is still
        waiting for the listener's threads has not returned. */
    method ServeNext(handling: Handling) returns (returned: bool)
      requires Valid() && game.Free? && batch != []
      modifies this
      ensures Valid() && Later()
      ensures returned ==> game.Free? && batch == old(batch)[1..] && Served(conns, old(batch)[0], handling.res)
    {
      var c := batch[0];
      MeanwhileDraining(handling.before, false);
      HeadShared();
      BeginServing();
      returned := true;
      if game.Serving? {
        MeanwhileDraining(handling.inside, true);
        returned := game.Serving?;
        if returned {
          HeadShared();
          FinishServing(handling.res);
        }
      }
    }

    /** cslua_httpserver_run: every request posted before is answered with its own handler's response, in the order of
        posting, unless its worker has given up on it. */
    method Drain(handlings: seq<Handling>) returns (returned: bool)
      requires Valid() && game.Free? && batch == []
      modifies this
      ensures Valid() && Later()
      ensures returned ==> game.Free? && batch == [] && AllServed(old(pending), handlings, |old(pending)|)
    {
      if pending == [] { return true; }
      ghost var posted := pending;
      SwapPending(false);
      var i := 0;
      while batch != []
        invariant Valid() && Later() && game.Free?
        invariant i <= |posted| && batch == posted[i..] && AllServed(posted, handlings, i)
        decreases |batch|
      {
        ghost var before := trace;
        returned := ServeNext(HandlingOf(handlings, i));
        if !returned { return; }
        AllServedSince(before, posted, handlings, i);
        i := i + 1;
      }
      returned := true;
    }

    method RefuseOne(plan: seq<Step>)
      requires Valid() && game.Resetting? && batch != []
      modifies this
      ensures Valid() && Later() && game.Resetting? && batch == old(batch)[1..]
        && Served(conns, old(batch)[0], RELOADING)
    {
      MeanwhileDraining(plan, false);
      HeadShared();
      RefuseNext();
    }

    /** cslua_httpserver_reset: every request posted before is told that the server reloads, unless its worker has given
        up on it. */
    method ResetPosted(plans: seq<seq<Step>>)
      requires Valid() && game.Free? && batch == []
      modifies this
      ensures Valid() && Later() && game.Free? && batch == []
      ensures forall i :: 0 <= i < |old(pending)| ==>
        Served(conns, old(pending)[i], Response(503, "server reloading", false))
    {
      ghost var posted := pending;
      SwapPending(true);
      var i := 0;
      while batch != []
        invariant Valid() && Later() && game.Resetting?
        invariant i <= |posted| && batch == posted[i..]
        invariant forall j :: 0 <= j < i ==> Served(conns, posted[j], RELOADING)
        decreases |batch|
      {
        ghost var before := trace;
        RefuseOne(if i < |plans| then plans[i] else []);
        forall j | 0 <= j < i ensures Served(conns, posted[j], RELOADING) { ServedSince(before, posted[j], RELOADING); }
        i := i + 1;
      }
      RefuseNext();
    }

    /** stop_listening: when it returns, every socket ever accepted has been closed, once. */
    method StopListening(plans: seq<seq<Step>>) returns (returned: bool)
      requires Valid() && ((game.Free? && batch == []) || game.Serving?)
      modifies this
      ensures Valid() && Later()
      ensures returned ==>
                !listening && queue == [] && forall c: nat :: Closed(closed, c) == if c < accepted then 1 else 0
    {
      if listening {
        BeginStop();
        var i := 0;
        while i < |plans| && !AllGone()
          invariant Valid() && Later() && game.Stopping?
        {
          MeanwhileDraining(plans[i], false);
          i := i + 1;
        }
        if !AllGone() { return false; }
        FinishStop();
      }
      StoppedClosesAll(trace);
      Sound();
      return true;
    }

    /** Every thread has been joined. */
    predicate AllGone() reads this { acceptor.Down? && forall w :: 0 <= w < |workers| ==> workers[w].Gone? }
  }
}
