/** Every interleaving of the web server's threads: who owns a socket, and who answers it. */
module HttpServerLaws {
  import opened HttpServerSpec

  // ---------------------------------------------------------------------------
  // Where an accepted socket is

  ghost function HeldBy(a: Acceptor, c: nat): nat { if a.Holding? && a.conn == c then 1 else 0 }

  predicate Owns(w: Worker, c: nat) { !w.Idle? && !w.Gone? && w.conn == c }

  ghost function Workers(ws: seq<Worker>, c: nat): nat {
    if ws == [] then 0 else
      var n := |ws| - 1;
      Workers(ws[..n], c) + if Owns(ws[n], c) then 1 else 0
  }

  /** How often c was closed. */
  ghost function Closed(l: seq<Closing>, c: nat): nat {
    if l == [] then 0 else
      var n := |l| - 1;
      if l[n].conn == c then Closed(l[..n], c) + 1 else Closed(l[..n], c)
  }

  ghost function Places(s: State, c: nat): nat {
    HeldBy(s.acceptor, c) + multiset(s.queue)[c] + Workers(s.workers, c) + Closed(s.closed, c)
  }

  /** Every accepted socket is held by the acceptor, queued, with a worker or closed: exactly one of them, once. */
  ghost predicate Linear(s: State) {
    forall c: nat :: Places(s, c) == if c < s.accepted then 1 else 0
  }

  // ---------------------------------------------------------------------------
  // The handover

  ghost predicate Settled(c: Conn) { c.done || c.abandoned }

  ghost predicate Queued(s: State, c: nat) { c in s.pending || c in s.batch }

  /** How often the drain will come to c. */
  ghost function Turns(s: State, c: nat): nat { multiset(s.pending)[c] + multiset(s.batch)[c] }

  ghost predicate WorkerOk(s: State, w: Worker) {
    match w
    case Idle => true
    case Gone => true
    case Reading(c) => c !in s.conns
    case Waiting(c) => c in s.conns && !s.conns[c].abandoned && (!s.conns[c].done ==> Queued(s, c))
    case Answered(c) => c in s.conns && s.conns[c].done
    case GaveUp(c) => c in s.conns && s.conns[c].abandoned
    case Streaming(c) => c in s.conns && s.conns[c].done && s.conns[c].res.upgrade
  }

  /** The answer a closed socket was given is the one its connection settled on. */
  ghost predicate ClosingOk(conns: map<nat, Conn>, e: Closing) {
    match e.why
    case Overflow => e.conn !in conns
    case Stopped => e.conn !in conns
    case BadRequest => e.conn !in conns
    case TimedOut => e.conn in conns && conns[e.conn].abandoned
    case Replied(res) => e.conn in conns && conns[e.conn].done && conns[e.conn].res == res && !res.upgrade
    case Streamed => e.conn in conns && conns[e.conn].done && conns[e.conn].res.upgrade
  }

  ghost predicate Handover(s: State) {
    && (forall c :: c in s.conns ==> c < s.accepted && !(s.conns[c].done && s.conns[c].abandoned))
    && (forall i :: 0 <= i < |s.workers| ==> WorkerOk(s, s.workers[i]))
    && (forall i :: 0 <= i < |s.closed| ==> ClosingOk(s.conns, s.closed[i]))
    && (forall c :: (s.acceptor.Holding? && c == s.acceptor.conn) || c in s.queue ==> c !in s.conns)
    && (forall c: nat :: Turns(s, c) <= 1)
    && (forall c :: Queued(s, c) ==> c in s.conns && !s.conns[c].done)
  }

  ghost predicate Shape(s: State) {
    && |s.queue| <= MAX_CONN_QUEUE
    && |s.workers| == (if s.listening then WORKER_COUNT else 0)
    && (!s.listening ==> s.acceptor.Down? && s.queue == [])
    && (s.game.Stopping? ==> s.listening && s.stopping && (s.game.served <==> s.batch != []))
    && (s.game.Serving? ==> s.batch != [])
  }

  ghost predicate Inv(s: State) { Linear(s) && Handover(s) && Shape(s) }

  // ---------------------------------------------------------------------------
  // Counting

  lemma {:induction false} WorkersPut(ws: seq<Worker>, i: nat, w: Worker, c: nat)
    requires i < |ws|
    ensures Workers(ws[i := w], c) + (if Owns(ws[i], c) then 1 else 0) == Workers(ws, c) + if Owns(w, c) then 1 else 0
    decreases |ws|
  {
    var n := |ws| - 1;
    if i < n {
      WorkersPut(ws[..n], i, w, c);
      assert ws[i := w][..n] == ws[..n][i := w];
    } else {
      assert ws[i := w][..n] == ws[..n];
    }
  }

  lemma {:induction false} WorkersOwn(ws: seq<Worker>, i: nat, c: nat)
    requires i < |ws| && Owns(ws[i], c)
    ensures Workers(ws, c) >= 1
    decreases |ws|
  {
    if i < |ws| - 1 { WorkersOwn(ws[..|ws| - 1], i, c); }
  }

  lemma TwoWorkers(ws: seq<Worker>, i: nat, j: nat, c: nat)
    requires i < |ws| && j < |ws| && i != j && Owns(ws[i], c) && Owns(ws[j], c)
    ensures Workers(ws, c) >= 2
  {
    WorkersPut(ws, i, Idle, c);
    WorkersOwn(ws[i := Idle], j, c);
  }

  lemma {:induction false} NoWorkers(ws: seq<Worker>, c: nat)
    requires forall i :: 0 <= i < |ws| ==> ws[i].Idle? || ws[i].Gone?
    ensures Workers(ws, c) == 0
    decreases |ws|
  {
    if ws != [] { NoWorkers(ws[..|ws| - 1], c); }
  }

  lemma ClosePlaces(l: seq<Closing>, conn: nat, why: Reason, c: nat)
    ensures Closed(l + [Closing(conn, why)], c) == Closed(l, c) + if conn == c then 1 else 0
  {
    assert (l + [Closing(conn, why)])[..|l|] == l;
  }

  lemma {:induction false} CloseQueue(l: seq<Closing>, q: seq<nat>, c: nat)
    ensures Closed(l + Closings(q), c) == Closed(l, c) + multiset(q)[c]
    decreases |q|
  {
    if q == [] {
      assert l + Closings(q) == l;
    } else {
      var n := |q| - 1;
      CloseQueue(l, q[..n], c);
      assert q == q[..n] + [q[n]];
      assert l + Closings(q) == l + Closings(q[..n]) + [Closing(q[n], Stopped)];
      ClosePlaces(l + Closings(q[..n]), q[n], Stopped, c);
    }
  }

  lemma {:induction false} ClosedIn(l: seq<Closing>, i: nat)
    requires i < |l|
    ensures Closed(l, l[i].conn) >= 1
    decreases |l|
  {
    if i < |l| - 1 { ClosedIn(l[..|l| - 1], i); }
  }

  lemma HeadOff(q: seq<nat>)
    requires q != []
    ensures multiset(q) == multiset(q[1..]) + multiset{q[0]}
  {
    assert q == [q[0]] + q[1..];
  }

  // ---------------------------------------------------------------------------
  // Sockets are linear

  lemma LinearKept(s: State, step: Step)
    requires Inv(s) && Enabled(s, step)
    ensures Linear(Next(s, step))
  {
    forall c: nat ensures Places(Next(s, step), c) == if c < Next(s, step).accepted then 1 else 0 {
      PlaceKept(s, step, c);
      assert Places(s, c) == if c < s.accepted then 1 else 0;
    }
  }

  /** A step moves sockets; only accept brings one in. */
  lemma PlaceKept(s: State, step: Step, c: nat)
    requires Inv(s) && Enabled(s, step)
    ensures Places(Next(s, step), c) == Places(s, c) + if step == Accept(true) && c == s.accepted then 1 else 0
  {
    match step
    case Listen =>
      NoWorkers(Next(s, step).workers, c);
      NoWorkers(s.workers, c);
    case Enqueue => EnqueuePlaces(s, c);
    case Take(w) => TakePlaces(s, w, c);
    case Read(w, ok) => ReadPlaces(s, w, ok, c);
    case Wake(w) => WakePlaces(s, w, c);
    case GiveUp(w) => WakePlaces(s, w, c);
    case Reply(w) => ReplyPlaces(s, w, c);
    case EndStream(w) => EndPlaces(s, w, c);
    case Join => JoinPlaces(s, c);
    case _ =>
  }

  lemma EnqueuePlaces(s: State, c: nat)
    requires Enabled(s, Enqueue)
    ensures Places(Next(s, Enqueue), c) == Places(s, c)
  {
    ClosePlaces(s.closed, s.acceptor.conn, Overflow, c);
  }

  lemma WakePlaces(s: State, w: nat, c: nat)
    requires Enabled(s, Wake(w)) || Enabled(s, GiveUp(w))
    ensures Places(Next(s, if Enabled(s, Wake(w)) then Wake(w) else GiveUp(w)), c) == Places(s, c)
  {
    WorkersPut(s.workers, w, Answered(s.workers[w].conn), c);
    WorkersPut(s.workers, w, GaveUp(s.workers[w].conn), c);
  }

  lemma TakePlaces(s: State, w: nat, c: nat)
    requires Enabled(s, Take(w))
    ensures Places(Next(s, Take(w)), c) == Places(s, c)
  {
    WorkersPut(s.workers, w, if s.stopping then Gone else Reading(s.queue[0]), c);
    if !s.stopping { HeadOff(s.queue); }
  }

  lemma ReadPlaces(s: State, w: nat, ok: bool, c: nat)
    requires Enabled(s, Read(w, ok))
    ensures Places(Next(s, Read(w, ok)), c) == Places(s, c)
  {
    WorkersPut(s.workers, w, if ok then Waiting(s.workers[w].conn) else Idle, c);
    ClosePlaces(s.closed, s.workers[w].conn, BadRequest, c);
  }

  lemma EndPlaces(s: State, w: nat, c: nat)
    requires Enabled(s, EndStream(w))
    ensures Places(Next(s, EndStream(w)), c) == Places(s, c)
  {
    WorkersPut(s.workers, w, Idle, c);
    ClosePlaces(s.closed, s.workers[w].conn, Streamed, c);
  }

  lemma JoinPlaces(s: State, c: nat)
    requires Enabled(s, Join)
    ensures Places(Next(s, Join), c) == Places(s, c)
  {
    NoWorkers(s.workers, c);
    CloseQueue(s.closed, s.queue, c);
  }

  lemma ReplyPlaces(s: State, w: nat, c: nat)
    requires Enabled(s, Reply(w))
    ensures Places(Next(s, Reply(w)), c) == Places(s, c)
  {
    var worker := s.workers[w];
    if worker.GaveUp? {
      WorkersPut(s.workers, w, Idle, c);
      ClosePlaces(s.closed, worker.conn, TimedOut, c);
    } else if s.conns[worker.conn].res.upgrade {
      WorkersPut(s.workers, w, Streaming(worker.conn), c);
    } else {
      WorkersPut(s.workers, w, Idle, c);
      ClosePlaces(s.closed, worker.conn, Replied(s.conns[worker.conn].res), c);
    }
  }

  // ---------------------------------------------------------------------------
  // Answers settle once

  /** A settled connection stays as it is; a connection is shared only by the worker that has read it. */
  ghost predicate Grows(s: State, s': State) {
    && (forall c :: c in s.conns ==> c in s'.conns && (Settled(s.conns[c]) ==> s'.conns[c] == s.conns[c]))
    && (forall c :: c in s'.conns && c !in s.conns ==>
          exists i :: 0 <= i < |s.workers| && s.workers[i] == Reading(c) && s'.conns[c] == FRESH)
  }

  lemma StepGrows(s: State, step: Step)
    requires Inv(s) && Enabled(s, step)
    ensures Grows(s, Next(s, step))
  {
    match step
    case Read(w, ok) => assert WorkerOk(s, s.workers[w]) && s.workers[w] == Reading(s.workers[w].conn);
    case GiveUp(w) => assert WorkerOk(s, s.workers[w]);
    case Answer(res) => assert Queued(s, s.batch[0]);
    case ResetOne => if s.batch != [] { assert Queued(s, s.batch[0]); }
    case _ =>
  }

  /** A socket with a worker is nowhere else. */
  lemma OneOwner(s: State, i: nat)
    requires Linear(s) && i < |s.workers| && !s.workers[i].Idle? && !s.workers[i].Gone?
    ensures var c := s.workers[i].conn;
      && c < s.accepted && c !in s.queue && !(s.acceptor.Holding? && s.acceptor.conn == c)
      && (forall j :: 0 <= j < |s.closed| ==> s.closed[j].conn != c)
      && (forall j :: 0 <= j < |s.workers| && j != i ==> !Owns(s.workers[j], c))
  {
    var c := s.workers[i].conn;
    WorkersOwn(s.workers, i, c);
    assert Places(s, c) <= 1;
    forall j | 0 <= j < |s.closed| ensures s.closed[j].conn != c { ClosedIn(s.closed, j); }
    forall j | 0 <= j < |s.workers| && j != i ensures !Owns(s.workers[j], c) {
      if Owns(s.workers[j], c) { TwoWorkers(s.workers, i, j, c); }
    }
  }

  lemma ClosingsKept(s: State, s': State)
    requires Inv(s) && Grows(s, s')
    ensures forall i :: 0 <= i < |s.closed| ==> ClosingOk(s'.conns, s.closed[i])
  {
    forall i | 0 <= i < |s.closed| ensures ClosingOk(s'.conns, s.closed[i]) {
      var c := s.closed[i].conn;
      assert ClosingOk(s.conns, s.closed[i]);
      if c in s'.conns && c !in s.conns {
        var j :| 0 <= j < |s.workers| && s.workers[j] == Reading(c) && s'.conns[c] == FRESH;
        OneOwner(s, j);
      }
    }
  }

  lemma ClosedKept(s: State, step: Step)
    requires Inv(s) && Enabled(s, step)
    ensures forall i :: 0 <= i < |Next(s, step).closed| ==> ClosingOk(Next(s, step).conns, Next(s, step).closed[i])
  {
    var s' := Next(s, step);
    StepGrows(s, step);
    ClosingsKept(s, s');
    if |s'.closed| > |s.closed| { NewClosings(s, step); }
  }

  lemma NewClosings(s: State, step: Step)
    requires Inv(s) && Enabled(s, step)
    ensures var s' := Next(s, step);
      |s.closed| <= |s'.closed| && s'.closed[..|s.closed|] == s.closed
      && forall i :: |s.closed| <= i < |s'.closed| ==> ClosingOk(s'.conns, s'.closed[i])
  {
    if step.Join? {
    } else if step.Enqueue? || step.Read? || step.Reply? || step.EndStream? {
      NewClosing(s, step);
    }
  }

  lemma NewClosing(s: State, step: Step)
    requires Inv(s) && Enabled(s, step) && (step.Enqueue? || step.Read? || step.Reply? || step.EndStream?)
    ensures var s' := Next(s, step);
      s'.closed == s.closed || exists e :: s'.closed == s.closed + [e] && ClosingOk(s'.conns, e)
  {
    var s' := Next(s, step);
    if !step.Enqueue? { assert WorkerOk(s, s.workers[step.w]); }
    if s'.closed != s.closed { assert s'.closed == s.closed + [s'.closed[|s.closed|]]; }
  }

  // ---------------------------------------------------------------------------
  // The handover is kept

  ghost predicate QueueStays(s: State, s': State) {
    forall c :: Queued(s, c) && c in s'.conns && !Settled(s'.conns[c]) ==> Queued(s', c)
  }

  lemma StepQueue(s: State, step: Step)
    requires Inv(s) && Enabled(s, step)
    ensures QueueStays(s, Next(s, step))
  {
    var s' := Next(s, step);
    forall c | Queued(s, c) && c in s'.conns && !Settled(s'.conns[c]) ensures Queued(s', c) {
      if s.batch != [] { assert s.batch == [s.batch[0]] + s.batch[1..]; }
    }
  }

  /** One worker's state, when it is not the one that moves. */
  lemma OtherWorker(s: State, s': State, i: nat, c: nat)
    requires Inv(s) && Grows(s, s') && QueueStays(s, s') && i < |s.workers|
    requires Owns(s.workers[i], c)
    requires s.workers[i].Reading? ==> c !in s'.conns
    requires s.workers[i].Waiting? ==> c in s'.conns && !s'.conns[c].abandoned
    ensures WorkerOk(s', s.workers[i])
  {
    assert WorkerOk(s, s.workers[i]);
  }

  /** Whose turn it is, and what becomes of that worker's connection. */
  ghost predicate Mover(step: Step, i: nat) {
    match step
    case Take(w) => i == w
    case Read(w, ok) => i == w
    case Wake(w) => i == w
    case GiveUp(w) => i == w
    case Reply(w) => i == w
    case EndStream(w) => i == w
    case Listen => true
    case Join => true
    case _ => false
  }

  lemma MoverKept(s: State, step: Step, i: nat)
    requires Inv(s) && Enabled(s, step) && Mover(step, i) && i < |Next(s, step).workers|
    ensures WorkerOk(Next(s, step), Next(s, step).workers[i])
  {
    if !step.Listen? && !step.Join? { assert WorkerOk(s, s.workers[i]); }
    if step.Take? && !s.stopping { assert s.queue[0] in s.queue; }
  }

  lemma WorkersSame(s: State, step: Step, i: nat)
    requires Enabled(s, step) && !Mover(step, i) && i < |Next(s, step).workers|
    ensures |s.workers| == |Next(s, step).workers| && Next(s, step).workers[i] == s.workers[i]
  {
  }

  lemma BystanderConn(s: State, step: Step, i: nat, c: nat)
    requires Inv(s) && Enabled(s, step) && !Mover(step, i) && i < |s.workers| && Owns(s.workers[i], c)
    ensures var s' := Next(s, step);
      && (s.workers[i].Reading? ==> c !in s'.conns)
      && (s.workers[i].Waiting? ==> c in s'.conns && !s'.conns[c].abandoned)
  {
    OneOwner(s, i);
    assert WorkerOk(s, s.workers[i]);
    match step
    case Read(w, ok) => assert !Owns(s.workers[w], c);
    case GiveUp(w) => assert !Owns(s.workers[w], c);
    case Answer(res) => assert Queued(s, s.batch[0]);
    case ResetOne => if s.batch != [] { assert Queued(s, s.batch[0]); }
    case _ =>
  }

  lemma WorkersKept(s: State, step: Step, i: nat)
    requires Inv(s) && Enabled(s, step) && i < |Next(s, step).workers|
    ensures WorkerOk(Next(s, step), Next(s, step).workers[i])
  {
    if Mover(step, i) {
      MoverKept(s, step, i);
    } else {
      WorkersSame(s, step, i);
      var w := s.workers[i];
      if !w.Idle? && !w.Gone? {
        StepGrows(s, step);
        StepQueue(s, step);
        BystanderConn(s, step, i, w.conn);
        OtherWorker(s, Next(s, step), i, w.conn);
      }
    }
  }

  lemma UnreadKept(s: State, step: Step, c: nat)
    requires Inv(s) && Enabled(s, step)
    requires var s' := Next(s, step); (s'.acceptor.Holding? && c == s'.acceptor.conn) || c in s'.queue
    ensures c !in Next(s, step).conns
  {
    if step == Accept(true) && c == s.accepted {
    } else {
      assert (s.acceptor.Holding? && c == s.acceptor.conn) || c in s.queue;
      if step.Read? { OneOwner(s, step.w); }
    }
  }

  lemma ConnsKept(s: State, step: Step)
    requires Inv(s) && Enabled(s, step)
    ensures var s' := Next(s, step);
      forall c :: c in s'.conns ==> c < s'.accepted && !(s'.conns[c].done && s'.conns[c].abandoned)
  {
    if step.Read? { OneOwner(s, step.w); }
  }

  /** The drain's two queues name a connection once, and only while nobody answered it. */
  ghost predicate ToAnswer(s: State) {
    && (forall c: nat :: Turns(s, c) <= 1)
    && (forall c :: Queued(s, c) ==> c in s.conns && !s.conns[c].done)
  }

  lemma DropFirst(s: State, s': State)
    requires ToAnswer(s) && s.batch != [] && s'.batch == s.batch[1..] && s'.pending == s.pending
    requires s'.conns.Keys == s.conns.Keys && forall c :: c in s.conns && c != s.batch[0] ==> s'.conns[c] == s.conns[c]
    ensures ToAnswer(s')
  {
    HeadOff(s.batch);
    forall c: nat ensures Turns(s', c) <= 1 { assert Turns(s', c) <= Turns(s, c); }
    forall c | Queued(s', c) ensures c in s'.conns && !s'.conns[c].done {
      assert Turns(s, c) <= 1;
      assert c in multiset(s'.pending) || c in multiset(s'.batch);
      assert Queued(s, c);
    }
  }

  lemma ToAnswerRead(s: State, w: nat)
    requires Inv(s) && Enabled(s, Read(w, true))
    ensures ToAnswer(Next(s, Read(w, true)))
  {
    assert WorkerOk(s, s.workers[w]);
    var c := s.workers[w].conn;
    assert !Queued(s, c);
    assert multiset(s.pending + [c]) == multiset(s.pending) + multiset{c};
    assert c !in multiset(s.pending) && c !in multiset(s.batch);
    forall x: nat ensures Turns(Next(s, Read(w, true)), x) <= 1 {
      assert Turns(Next(s, Read(w, true)), x) == Turns(s, x) + if x == c then 1 else 0;
    }
  }

  lemma ToAnswerTaken(s: State)
    requires ToAnswer(s) && s.batch == []
    ensures forall s': State :: s'.batch == s.pending && s'.pending == [] && s'.conns == s.conns ==> ToAnswer(s')
  {
    forall s': State, c: nat | s'.batch == s.pending && s'.pending == [] ensures Turns(s', c) <= 1 {
      assert Turns(s', c) == Turns(s, c);
    }
    forall s': State, c | s'.batch == s.pending && s'.pending == [] && Queued(s', c) ensures Queued(s, c) {}
  }

  lemma ToAnswerSame(s: State, s': State)
    requires ToAnswer(s) && s'.pending == s.pending && s'.batch == s.batch
    requires forall c :: c in s.conns ==> c in s'.conns && s'.conns[c].done == s.conns[c].done
    ensures ToAnswer(s')
  {
    forall c: nat ensures Turns(s', c) <= 1 { assert Turns(s', c) == Turns(s, c); }
    forall c | Queued(s', c) ensures c in s'.conns && !s'.conns[c].done { assert Queued(s, c); }
  }

  lemma ToAnswerKept(s: State, step: Step)
    requires Inv(s) && Enabled(s, step)
    ensures ToAnswer(Next(s, step))
  {
    if step.Swap? || step.Reset? { ToAnswerTaken(s); }
    else if step.Read? && step.ok { ToAnswerRead(s, step.w); }
    else if step.Begin? || step.Answer? || step.ResetOne? { ToAnswerTurn(s, step); }
    else { ToAnswerSame(s, Next(s, step)); }
  }

  lemma ToAnswerTurn(s: State, step: Step)
    requires ToAnswer(s) && Enabled(s, step) && (step.Begin? || step.Answer? || step.ResetOne?)
    ensures ToAnswer(Next(s, step))
  {
    var s' := Next(s, step);
    if s'.batch != s.batch { DropFirst(s, s'); } else { ToAnswerSame(s, s'); }
  }

  lemma HandoverKept(s: State, step: Step)
    requires Inv(s) && Enabled(s, step)
    ensures Handover(Next(s, step))
  {
    var s' := Next(s, step);
    ConnsKept(s, step);
    forall i | 0 <= i < |s'.workers| ensures WorkerOk(s', s'.workers[i]) { WorkersKept(s, step, i); }
    ClosedKept(s, step);
    forall c | (s'.acceptor.Holding? && c == s'.acceptor.conn) || c in s'.queue
      ensures c !in s'.conns
    {
      UnreadKept(s, step, c);
    }
    ToAnswerKept(s, step);
  }

  lemma StepKeeps(s: State, step: Step)
    requires Inv(s) && Enabled(s, step)
    ensures Inv(Next(s, step))
  {
    LinearKept(s, step);
    HandoverKept(s, step);
    ShapeKept(s, step);
  }

  lemma ShapeKept(s: State, step: Step)
    requires Shape(s) && Enabled(s, step)
    ensures Shape(Next(s, step))
  {
    if GameMoves(step) { ShapeByGame(s, step); }
  }

  lemma ShapeByGame(s: State, step: Step)
    requires Shape(s) && Enabled(s, step) && GameMoves(step)
    ensures Shape(Next(s, step))
  {
  }

  // ---------------------------------------------------------------------------
  // Whole runs

  lemma {:induction false} RunKeeps(s: State, steps: seq<Step>)
    requires Inv(s) && Runs(s, steps)
    ensures Inv(After(s, steps))
    decreases |steps|
  {
    if steps != [] {
      StepKeeps(s, steps[0]);
      RunKeeps(Next(s, steps[0]), steps[1..]);
    }
  }

  lemma InitOk()
    ensures Inv(INIT)
  {
    forall c: nat ensures Places(INIT, c) == 0 {}
  }

  /** However the threads interleave: each accepted socket is in one place and closed at most once, each closed
      one got the one answer its connection settled on, never more than 64 wait, and eight workers serve. */
  lemma AnyInterleaving(steps: seq<Step>)
    requires Runs(INIT, steps)
    ensures var s := After(INIT, steps);
      && Linear(s) && |s.queue| <= 64 && |s.workers| == (if s.listening then 8 else 0)
      && (forall c :: c in s.conns ==> !(s.conns[c].done && s.conns[c].abandoned))
      && (forall i :: 0 <= i < |s.closed| ==> ClosingOk(s.conns, s.closed[i]))
  {
    InitOk();
    RunKeeps(INIT, steps);
  }

  /** A connection once answered or given up on never changes again: `res` may be read without the lock. */
  lemma {:induction false} SettledForGood(s: State, steps: seq<Step>, c: nat)
    requires Inv(s) && Runs(s, steps) && c in s.conns && Settled(s.conns[c])
    ensures c in After(s, steps).conns && After(s, steps).conns[c] == s.conns[c]
    decreases |steps|
  {
    if steps != [] {
      StepKeeps(s, steps[0]);
      StepGrows(s, steps[0]);
      SettledForGood(Next(s, steps[0]), steps[1..], c);
    }
  }

  /** With the listener stopped, every socket ever accepted has been closed, once. */
  lemma StoppedClosesAll(steps: seq<Step>)
    requires Runs(INIT, steps) && !After(INIT, steps).listening
    ensures var s := After(INIT, steps);
      forall c: nat :: Closed(s.closed, c) == if c < s.accepted then 1 else 0
  {
    InitOk();
    RunKeeps(INIT, steps);
    var s := After(INIT, steps);
    forall c: nat ensures Closed(s.closed, c) == if c < s.accepted then 1 else 0 {
      assert Places(s, c) == if c < s.accepted then 1 else 0;
    }
  }

  /** A parsed request whose worker still waits is answered or on its way to the drain. */
  lemma NobodyForgotten(steps: seq<Step>, i: nat)
    requires Runs(INIT, steps) && i < |After(INIT, steps).workers| && After(INIT, steps).workers[i].Waiting?
    ensures var s := After(INIT, steps); var c := s.workers[i].conn;
      c in s.conns && !s.conns[c].abandoned && (s.conns[c].done <==> !Queued(s, c))
  {
    InitOk();
    RunKeeps(INIT, steps);
    assert WorkerOk(After(INIT, steps), After(INIT, steps).workers[i]);
  }

  // ---------------------------------------------------------------------------
  // Runs in pieces

  lemma OneStep(s: State, step: Step)
    requires Enabled(s, step)
    ensures Runs(s, [step]) && After(s, [step]) == Next(s, step)
  {
    assert Runs(Next(s, step), []);
  }

  lemma {:induction false} RunsOn(s: State, a: seq<Step>, b: seq<Step>)
    requires Runs(s, a)
    ensures Runs(s, a + b) <==> Runs(After(s, a), b)
    ensures Runs(s, a + b) ==> After(s, a + b) == After(After(s, a), b)
    decreases |a|
  {
    if a == [] {
      assert a + b == b;
    } else {
      assert (a + b)[0] == a[0] && (a + b)[1..] == a[1..] + b;
      RunsOn(Next(s, a[0]), a[1..], b);
    }
  }

  lemma {:induction false} RunsPrefix(s: State, a: seq<Step>, b: seq<Step>)
    requires Runs(s, a + b)
    ensures Runs(s, a)
    decreases |a|
  {
    if a != [] {
      assert (a + b)[0] == a[0] && (a + b)[1..] == a[1..] + b;
      RunsPrefix(Next(s, a[0]), a[1..], b);
    }
  }

  /** Closings are never taken back. */
  lemma {:induction false} ClosedGrows(s: State, steps: seq<Step>, c: nat)
    requires Inv(s) && Runs(s, steps)
    ensures s.closed <= After(s, steps).closed && Closed(s.closed, c) <= Closed(After(s, steps).closed, c)
    decreases |steps|
  {
    if steps != [] {
      var s' := Next(s, steps[0]);
      NewClosings(s, steps[0]);
      ClosedPrefix(s.closed, s'.closed, c);
      StepKeeps(s, steps[0]);
      ClosedGrows(s', steps[1..], c);
    }
  }

  lemma {:induction false} ClosedPrefix(a: seq<Closing>, b: seq<Closing>, c: nat)
    requires a <= b
    ensures Closed(a, c) <= Closed(b, c)
    decreases |b|
  {
    if |a| < |b| {
      ClosedPrefix(a, b[..|b| - 1], c);
    } else {
      assert a == b;
    }
  }

  lemma ClosedOnce(s: State, e: Closing)
    requires Inv(s) && e in s.closed
    ensures Closed(s.closed, e.conn) == 1 && ClosingOk(s.conns, e)
  {
    var i :| 0 <= i < |s.closed| && s.closed[i] == e;
    ClosedIn(s.closed, i);
    assert Places(s, e.conn) <= 1;
  }

  /** A worker stands still while the others move. */
  lemma {:induction false} WorkerStays(s: State, steps: seq<Step>, w: nat)
    requires Inv(s) && Runs(s, steps) && w < |s.workers| && !s.workers[w].Gone?
    requires forall step :: step in steps ==> !Moves(step, w)
    ensures w < |After(s, steps).workers| && After(s, steps).workers[w] == s.workers[w]
    decreases |steps|
  {
    if steps != [] {
      assert steps[0] in steps;
      WorkerLeft(s, steps[0], w);
      StepKeeps(s, steps[0]);
      WorkerStays(Next(s, steps[0]), steps[1..], w);
    }
  }

  lemma WorkerLeft(s: State, step: Step, w: nat)
    requires Inv(s) && Enabled(s, step) && w < |s.workers| && !s.workers[w].Gone? && !Moves(step, w)
    ensures w < |Next(s, step).workers| && Next(s, step).workers[w] == s.workers[w]
  {
    if step.Read? { assert step == Read(step.w, true) || step == Read(step.w, false); }
  }

  predicate AcceptorMoves(step: Step) { step.Poll? || step.Accept? || step.Enqueue? }

  lemma {:induction false} AcceptorStays(s: State, steps: seq<Step>)
    requires Inv(s) && Runs(s, steps) && !s.acceptor.Down? && forall step :: step in steps ==> !AcceptorMoves(step)
    ensures After(s, steps).acceptor == s.acceptor
    decreases |steps|
  {
    if steps != [] {
      assert steps[0] in steps;
      StepKeeps(s, steps[0]);
      AcceptorStays(Next(s, steps[0]), steps[1..]);
    }
  }

  /** What the drain and the reset do between Lua calls. */
  predicate DrainMoves(step: Step) { step.Swap? || step.Begin? || step.Answer? || step.Reset? || step.ResetOne? }

  predicate GameMoves(step: Step) { DrainMoves(step) || step.Listen? || step.Stop? || step.Join? }

  lemma {:induction false} BatchStays(s: State, steps: seq<Step>)
    requires Runs(s, steps) && forall step :: step in steps ==> !DrainMoves(step)
    ensures After(s, steps).batch == s.batch
    ensures (forall step :: step in steps ==> !GameMoves(step)) ==>
      After(s, steps).game == s.game && After(s, steps).listening == s.listening
          && After(s, steps).stopping == s.stopping
    decreases |steps|
  {
    if steps != [] {
      assert steps[0] in steps;
      BatchStays(Next(s, steps[0]), steps[1..]);
    }
  }

  // ---------------------------------------------------------------------------
  // First come, first served

  /** Whoever waits for a worker, or is about to, was accepted after x. */
  ghost predicate Behind(s: State, x: nat) {
    x < s.accepted && (forall i :: 0 <= i < |s.queue| ==> x < s.queue[i])
        && (s.acceptor.Holding? ==> x < s.acceptor.conn)
  }

  lemma {:induction false} BehindStays(s: State, steps: seq<Step>, x: nat)
    requires Behind(s, x) && Runs(s, steps)
    ensures Behind(After(s, steps), x)
    decreases |steps|
  {
    if steps != [] { BehindStays(Next(s, steps[0]), steps[1..], x); }
  }

  ghost predicate InTurn(s: State) {
    && (forall i, j :: 0 <= i < j < |s.queue| ==> s.queue[i] < s.queue[j])
    && (forall i :: 0 <= i < |s.queue| ==>
          s.queue[i] < s.accepted && (s.acceptor.Holding? ==> s.queue[i] < s.acceptor.conn))
    && (s.acceptor.Holding? ==> s.acceptor.conn < s.accepted)
  }

  lemma TurnKept(s: State, step: Step)
    requires InTurn(s) && Enabled(s, step) && (step.Accept? || step.Enqueue? || step.Take? || step.Join?)
    ensures InTurn(Next(s, step))
  {
  }

  lemma QueueRests(s: State, step: Step)
    requires Enabled(s, step) && !(step.Accept? || step.Enqueue? || step.Take? || step.Join?)
    ensures var s' := Next(s, step);
      s'.queue == s.queue && s'.accepted == s.accepted && (s'.acceptor.Holding? ==> s'.acceptor == s.acceptor)
  {
  }

  lemma {:induction false} TurnsKept(s: State, steps: seq<Step>)
    requires InTurn(s) && Runs(s, steps)
    ensures InTurn(After(s, steps))
    decreases |steps|
  {
    if steps != [] {
      var step := steps[0];
      if step.Accept? || step.Enqueue? || step.Take? || step.Join? { TurnKept(s, step); } else { QueueRests(s, step); }
      TurnsKept(Next(s, step), steps[1..]);
    }
  }

  /** Who is taken goes before everybody left. */
  lemma HeadBehind(s: State, w: nat)
    requires InTurn(s) && Enabled(s, Take(w)) && !s.stopping
    ensures Behind(Next(s, Take(w)), s.queue[0])
  {
  }

  /** Whatever happens between two takes, the socket taken first was accepted first. */
  lemma FirstComeFirstServed(before: seq<Step>, w: nat, between: seq<Step>, v: nat)
    requires Runs(INIT, before) && Enabled(After(INIT, before), Take(w)) && !After(INIT, before).stopping
    requires var s := Next(After(INIT, before), Take(w));
      Runs(s, between) && Enabled(After(s, between), Take(v)) && !After(s, between).stopping
    ensures After(INIT, before).queue[0] < After(Next(After(INIT, before), Take(w)), between).queue[0]
  {
    var s := After(INIT, before);
    TurnsKept(INIT, before);
    HeadBehind(s, w);
    BehindStays(Next(s, Take(w)), between, s.queue[0]);
  }

  // ---------------------------------------------------------------------------
  // How many sockets are open

  ghost function Open(s: State): int { s.accepted - |s.closed| }

  ghost function Busy(ws: seq<Worker>): nat {
    if ws == [] then 0 else
      var n := |ws| - 1;
      Busy(ws[..n]) + if ws[n].Idle? || ws[n].Gone? then 0 else 1
  }

  lemma {:induction false} BusyPut(ws: seq<Worker>, i: nat, w: Worker)
    requires i < |ws|
    ensures Busy(ws[i := w]) + (if ws[i].Idle? || ws[i].Gone? then 0 else 1)
         == Busy(ws) + if w.Idle? || w.Gone? then 0 else 1
    decreases |ws|
  {
    var n := |ws| - 1;
    if i < n {
      BusyPut(ws[..n], i, w);
      assert ws[i := w][..n] == ws[..n][i := w];
    } else {
      assert ws[i := w][..n] == ws[..n];
    }
  }

  lemma {:induction false} BusyBound(ws: seq<Worker>)
    ensures Busy(ws) <= |ws|
    ensures (forall i :: 0 <= i < |ws| ==> ws[i].Idle? || ws[i].Gone?) ==> Busy(ws) == 0
    decreases |ws|
  {
    if ws != [] { BusyBound(ws[..|ws| - 1]); }
  }

  ghost predicate Tallied(s: State) {
    Open(s) == (if s.acceptor.Holding? then 1 else 0) + |s.queue| + Busy(s.workers)
  }

  lemma TalliedKept(s: State, step: Step)
    requires Shape(s) && Tallied(s) && Enabled(s, step)
    ensures Tallied(Next(s, step))
  {
    if step.Take? || step.Read? || step.Wake? || step.GiveUp? || step.Reply? || step.EndStream? {
      TalliedMove(s, step, step.w);
    } else if step.Listen? || step.Join? {
      BusyBound(Next(s, step).workers);
      BusyBound(s.workers);
    } else {
      TalliedRest(s, step);
    }
  }

  lemma TalliedRest(s: State, step: Step)
    requires Tallied(s) && Enabled(s, step)
    requires AcceptorMoves(step) || DrainMoves(step) || step.Stop?
    ensures Tallied(Next(s, step))
  {
  }

  predicate Moves(step: Step, w: nat) {
    step == Take(w) || step == Read(w, true) || step == Read(w, false) || step == Wake(w) || step == GiveUp(w)
    || step == Reply(w) || step == EndStream(w)
  }

  lemma TalliedMove(s: State, step: Step, w: nat)
    requires Tallied(s) && Enabled(s, step) && Moves(step, w)
    ensures Tallied(Next(s, step))
  {
    var s' := Next(s, step);
    BusyPut(s.workers, w, s'.workers[w]);
    assert s'.workers == s.workers[w := s'.workers[w]];
  }

  /** At no moment are more than 73 client sockets open: one in hand, 64 queued, eight served. */
  lemma {:induction false} OpenBound(s: State, steps: seq<Step>)
    requires Inv(s) && Tallied(s) && Runs(s, steps)
    ensures 0 <= Open(After(s, steps)) <= 1 + MAX_CONN_QUEUE + WORKER_COUNT
    decreases |steps|
  {
    if steps == [] {
      BusyBound(s.workers);
    } else {
      StepKeeps(s, steps[0]);
      TalliedKept(s, steps[0]);
      OpenBound(Next(s, steps[0]), steps[1..]);
    }
  }

  lemma NeverTooManyOpen(steps: seq<Step>)
    requires Runs(INIT, steps)
    ensures 0 <= Open(After(INIT, steps)) <= 73
  {
    InitOk();
    OpenBound(INIT, steps);
  }
}
