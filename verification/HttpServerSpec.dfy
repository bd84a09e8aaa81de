/** The web server's threads as a state machine: the acceptor, eight workers and the game thread, one step per
    section run under a lock.

    A connection is named by the order in which it was accepted; the descriptor number the system reuses is not
    modelled. Closing a socket is an entry in `closed`, with the reason. */
module HttpServerSpec {

  const WORKER_COUNT := 8
  const MAX_CONN_QUEUE := 64

  datatype Response = Response(status: int, body: string, upgrade: bool)

  const RELOADING := Response(503, "server reloading", false)

  /** What a worker and the game thread share about one connection. */
  datatype Conn = Conn(done: bool, abandoned: bool, res: Response)

  const FRESH := Conn(false, false, Response(200, "", false))

  /** Why, and after which answer, a socket was closed. */
  datatype Reason = Overflow | Stopped | BadRequest | TimedOut | Replied(res: Response) | Streamed

  datatype Closing = Closing(conn: nat, why: Reason)

  datatype Acceptor = Selecting | Accepting | Holding(conn: nat) | Down

  datatype Worker =
    | Idle
    | Reading(conn: nat)
    | Waiting(conn: nat)
    | Answered(conn: nat)
    | GaveUp(conn: nat)
    | Streaming(conn: nat)
    | Gone

  datatype Game = Free | Serving | Resetting | Stopping(served: bool)

  datatype State = State(
    listening: bool, stopping: bool,
    acceptor: Acceptor, queue: seq<nat>, workers: seq<Worker>,
    conns: map<nat, Conn>, pending: seq<nat>,
    /** what the game thread took off `pending` and has not dealt with yet */
    batch: seq<nat>,
    game: Game, accepted: nat, closed: seq<Closing>)

  const INIT := State(false, false, Down, [], [], map[], [], [], Free, 0, [])

  datatype Step =
    | Listen
    | Poll(ready: bool)
    | Accept(ok: bool)
    | Enqueue
    | Take(w: nat)
    | Read(w: nat, ok: bool)
    | Wake(w: nat)
    | GiveUp(w: nat)
    | Reply(w: nat)
    | EndStream(w: nat)
    | Swap
    | Begin
    | Answer(res: Response)
    | Reset
    | ResetOne
    | Stop
    | Join

  /** The calls a plugin's Lua code makes: outside the drain, or from the handler being served. */
  predicate LuaRuns(s: State) { (s.game.Free? && s.batch == []) || s.game.Serving? }

  predicate Enabled(s: State, step: Step) {
    match step
    case Listen => LuaRuns(s) && !s.listening
    case Poll(ready) => s.acceptor.Selecting?
    case Accept(ok) => s.acceptor.Accepting?
    case Enqueue => s.acceptor.Holding?
    case Take(w) => w < |s.workers| && s.workers[w].Idle? && (s.stopping || s.queue != [])
    case Read(w, ok) => w < |s.workers| && s.workers[w].Reading?
    case Wake(w) => w < |s.workers| && s.workers[w].Waiting? && s.workers[w].conn in s.conns
        && s.conns[s.workers[w].conn].done
    case GiveUp(w) => w < |s.workers| && s.workers[w].Waiting? && s.workers[w].conn in s.conns
        && !s.conns[s.workers[w].conn].done
    case Reply(w) => w < |s.workers| && 
        (s.workers[w].GaveUp? || (s.workers[w].Answered? && s.workers[w].conn in s.conns))
    case EndStream(w) => w < |s.workers| && s.workers[w].Streaming?
    case Swap => s.game.Free? && s.batch == [] && s.pending != []
    case Begin => s.game.Free? && s.batch != [] && s.batch[0] in s.conns
    case Answer(res) => s.game.Serving? && s.batch != [] && s.batch[0] in s.conns
    case Reset => s.game.Free? && s.batch == []
    case ResetOne => s.game.Resetting? && (s.batch == [] || s.batch[0] in s.conns)
    case Stop => LuaRuns(s) && s.listening
    case Join => s.game.Stopping? && s.acceptor.Down? && forall w :: 0 <= w < |s.workers| ==> s.workers[w].Gone?
  }

  /** The game thread's answer, under the connection's lock: nothing once the worker gave up. */
  function Answering(c: Conn, res: Response): Conn {
    if c.abandoned then c else c.(done := true, res := res)
  }

  function Close(s: State, conn: nat, why: Reason): State { s.(closed := s.closed + [Closing(conn, why)]) }

  function Put(s: State, w: nat, worker: Worker): State
    requires w < |s.workers|
  {
    s.(workers := s.workers[w := worker])
  }

  function Closings(queue: seq<nat>): seq<Closing> {
    seq(|queue|, i requires 0 <= i < |queue| => Closing(queue[i], Stopped))
  }

  function Next(s: State, step: Step): State
    requires Enabled(s, step)
  {
    match step
    case Listen =>
      s.(listening := true, stopping := false, acceptor := Selecting, workers := seq(WORKER_COUNT, i => Idle))
    case Poll(ready) =>
      s.(acceptor := if s.stopping then Down else if ready then Accepting else Selecting)
    case Accept(ok) =>
      if ok then s.(acceptor := Holding(s.accepted), accepted := s.accepted + 1) else s.(acceptor := Selecting)
    case Enqueue =>
      if |s.queue| >= MAX_CONN_QUEUE then Close(s, s.acceptor.conn, Overflow).(acceptor := Selecting)
      else s.(queue := s.queue + [s.acceptor.conn], acceptor := Selecting)
    case Take(w) =>
      if s.stopping then Put(s, w, Gone) else Put(s, w, Reading(s.queue[0])).(queue := s.queue[1..])
    case Read(w, ok) =>
      var c := s.workers[w].conn;
      if ok then Put(s, w, Waiting(c)).(conns := s.conns[c := FRESH], pending := s.pending + [c])
      else Close(Put(s, w, Idle), c, BadRequest)
    case Wake(w) => Put(s, w, Answered(s.workers[w].conn))
    case GiveUp(w) =>
      var c := s.workers[w].conn;
      Put(s, w, GaveUp(c)).(conns := s.conns[c := s.conns[c].(abandoned := true)])
    case Reply(w) =>
      var c := s.workers[w].conn;
      if s.workers[w].GaveUp? then Close(Put(s, w, Idle), c, TimedOut)
      else if s.conns[c].res.upgrade then Put(s, w, Streaming(c))
      else Close(Put(s, w, Idle), c, Replied(s.conns[c].res))
    case EndStream(w) => Close(Put(s, w, Idle), s.workers[w].conn, Streamed)
    case Swap => s.(batch := s.pending, pending := [])
    case Begin => if s.conns[s.batch[0]].abandoned then s.(batch := s.batch[1..]) else s.(game := Serving)
    case Answer(res) =>
      var c := s.batch[0];
      s.(conns := s.conns[c := Answering(s.conns[c], res)], batch := s.batch[1..], game := Free)
    case Reset => s.(batch := s.pending, pending := [], game := Resetting)
    case ResetOne =>
      if s.batch == [] then s.(game := Free) else
        var c := s.batch[0];
        s.(conns := s.conns[c := Answering(s.conns[c], RELOADING)], batch := s.batch[1..])
    case Stop => s.(stopping := true, game := Stopping(s.game.Serving?))
    case Join =>
      s.(listening := false, workers := [], closed := s.closed + Closings(s.queue), queue := [],
         game := if s.game.served then Serving else Free)
  }

  predicate Runs(s: State, steps: seq<Step>)
    decreases |steps|
  {
    steps == [] || (Enabled(s, steps[0]) && Runs(Next(s, steps[0]), steps[1..]))
  }

  function After(s: State, steps: seq<Step>): State
    requires Runs(s, steps)
    decreases |steps|
  {
    if steps == [] then s else After(Next(s, steps[0]), steps[1..])
  }
}
