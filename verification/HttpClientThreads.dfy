/** What one thread of the HTTP client may rely on while the others get on, and in which order requests are taken. */
module HttpClientThreads {
  import opened HttpClientSpec
  import opened HttpClientLaws

  /** Who lets the others go on: a worker waiting, a worker with a request on the wire, the game thread between two
      sections, or a callback, which may queue, cancel and unload. */
  datatype Thread = IdleWorker | BusyWorker(mine: Req) | GameThread | Callback

  predicate WorkerMoves(step: Step) { step.Take? || step.Finish? }

  predicate DrainMoves(step: Step) {
    step.Swap? || step.Begin? || step.EndCall? || step.ResetPending? || step.ResetDone?
  }

  /** What only this thread itself does. An idle worker is the one of six the others cannot stand in for. */
  predicate By(me: Thread, s: State, step: Step) {
    match me
    case IdleWorker => step.Take? && |s.running| >= WORKER_COUNT - 1
    case BusyWorker(mine) => step.Finish? && step.worker < |s.running| && s.running[step.worker] == mine
    case GameThread => !WorkerMoves(step)
    case Callback => DrainMoves(step)
  }

  /** A run of the others. */
  ghost predicate Others(me: Thread, s: State, steps: seq<Step>)
    decreases |steps|
  {
    steps == [] || (Enabled(s, steps[0]) && !By(me, s, steps[0]) && Others(me, Next(s, steps[0]), steps[1..]))
  }

  lemma {:induction false} OthersSnoc(me: Thread, s: State, steps: seq<Step>, step: Step)
    requires Others(me, s, steps) && Runs(s, steps) && Enabled(After(s, steps), step) && !By(me, After(s, steps), step)
    ensures Others(me, s, steps + [step])
    decreases |steps|
  {
    if steps == [] {
      assert [] + [step] == [step] && [step][1..] == [];
    } else {
      assert (steps + [step])[0] == steps[0] && (steps + [step])[1..] == steps[1..] + [step];
      OthersSnoc(me, Next(s, steps[0]), steps[1..], step);
    }
  }

  // ---------------------------------------------------------------------------
  // What stays

  lemma {:induction false} IdleStays(s: State, steps: seq<Step>)
    requires |s.running| < WORKER_COUNT && Others(IdleWorker, s, steps) && Runs(s, steps)
    ensures |After(s, steps).running| < WORKER_COUNT
    decreases |steps|
  {
    if steps != [] {
      Frame(s, steps[0]);
      IdleStays(Next(s, steps[0]), steps[1..]);
    }
  }

  lemma {:induction false} MineStays(s: State, steps: seq<Step>, mine: Req)
    requires mine in s.running && Others(BusyWorker(mine), s, steps) && Runs(s, steps)
    ensures mine in After(s, steps).running
    decreases |steps|
  {
    if steps != [] {
      MineLeft(s, steps[0], mine);
      MineStays(Next(s, steps[0]), steps[1..], mine);
    }
  }

  lemma MineLeft(s: State, step: Step, mine: Req)
    requires mine in s.running && Enabled(s, step) && !By(BusyWorker(mine), s, step)
    ensures mine in Next(s, step).running
  {
    Frame(s, step);
    if step.Finish? { ErasedIn(s.running, step.worker, mine); }
  }

  /** Workers alone leave to the game thread what is the game thread's. */
  lemma {:induction false} GameStays(s: State, steps: seq<Step>)
    requires Others(GameThread, s, steps) && Runs(s, steps)
    ensures var t := After(s, steps);
      t == s.(pending := t.pending, running := t.running, done := t.done)
    decreases |steps|
  {
    if steps != [] { GameStays(Next(s, steps[0]), steps[1..]); }
  }

  ghost predicate OnlyCancels(a: seq<Event>, b: seq<Event>) {
    a <= b && forall i :: |a| <= i < |b| ==> b[i].CancelledTrue?
  }

  /** Whatever a callback does, the drain under it stands where it stood. */
  lemma {:induction false} DrainStays(s: State, steps: seq<Step>)
    requires Others(Callback, s, steps) && Runs(s, steps)
    ensures var t := After(s, steps);
      && t.batch == s.batch && t.calling == s.calling && t.generation == s.generation && OnlyCancels(s.log, t.log)
      && (t.game.Resetting? ==> s.game.Resetting?)
    decreases |steps|
  {
    if steps != [] {
      DrainLeft(s, steps[0]);
      DrainStays(Next(s, steps[0]), steps[1..]);
    }
  }

  lemma DrainLeft(s: State, step: Step)
    requires Enabled(s, step) && !DrainMoves(step)
    ensures var t := Next(s, step);
      && t.batch == s.batch && t.calling == s.calling && t.generation == s.generation && OnlyCancels(s.log, t.log)
      && (t.game.Resetting? ==> s.game.Resetting?)
  {
    Frame(s, step);
  }

  // ---------------------------------------------------------------------------
  // First come, first served

  ghost predicate Ascending(l: seq<Req>) { forall i, j :: 0 <= i < j < |l| ==> l[i].id < l[j].id }

  lemma {:induction false} NotOfPluginAscends(l: seq<Req>, plugin: int)
    requires Ascending(l)
    ensures Ascending(NotOfPlugin(l, plugin))
    decreases |l|
  {
    if l != [] {
      var n := |l| - 1;
      NotOfPluginAscends(l[..n], plugin);
      forall i | 0 <= i < |NotOfPlugin(l[..n], plugin)| ensures NotOfPlugin(l[..n], plugin)[i].id < l[n].id {
        OfPluginIn(l[..n], plugin, NotOfPlugin(l[..n], plugin)[i]);
      }
    }
  }

  /** Queued requests are in the order of their ids, and below the next one. */
  ghost predicate InTurn(s: State) { Ascending(s.pending) && forall r :: r in s.pending ==> r.id < s.nextId }

  /** Whoever is still queued asked after request x. */
  ghost predicate Behind(s: State, x: nat) { x < s.nextId && forall r :: r in s.pending ==> x < r.id }

  /** Queueing is the only way into the queue. */
  lemma PendingFrom(s: State, step: Step, r: Req)
    requires Enabled(s, step) && r in Next(s, step).pending
    ensures r in s.pending || (step.Queue? && r.id == s.nextId)
  {
    match step
    case RemovePending(plugin) =>
      OfPluginIn(s.pending, plugin, r);
      Frame(s, step);
    case RemoveDone => Frame(s, step);
    case _ =>
  }

  lemma EraseAscends(l: seq<Req>, i: nat)
    requires Ascending(l) && i < |l|
    ensures Ascending(Erase(l, i))
  {
  }

  lemma SnocAscends(l: seq<Req>, r: Req)
    requires Ascending(l) && forall x :: x in l ==> x.id < r.id
    ensures Ascending(l + [r])
  {
    forall i | 0 <= i < |l| ensures l[i].id < r.id { assert l[i] in l; }
  }

  lemma PendingAscends(s: State, step: Step)
    requires InTurn(s) && Enabled(s, step)
    ensures Ascending(Next(s, step).pending)
  {
    match step
    case RemovePending(plugin) => NotOfPluginAscends(s.pending, plugin);
    case RemoveDone => Frame(s, step);
    case Queue(plugin, slot) => SnocAscends(s.pending, Req(s.nextId, plugin, s.generation, slot));
    case CancelPending(id) => if Index(s.pending, id) < |s.pending| { EraseAscends(s.pending, Index(s.pending, id)); }
    case _ =>
  }

  lemma TurnKept(s: State, step: Step)
    requires InTurn(s) && Enabled(s, step)
    ensures InTurn(Next(s, step))
  {
    Frame(s, step);
    PendingAscends(s, step);
    forall r | r in Next(s, step).pending ensures r.id < Next(s, step).nextId { PendingFrom(s, step, r); }
  }

  lemma {:induction false} TurnsKept(s: State, steps: seq<Step>)
    requires InTurn(s) && Runs(s, steps)
    ensures InTurn(After(s, steps))
    decreases |steps|
  {
    if steps != [] {
      TurnKept(s, steps[0]);
      TurnsKept(Next(s, steps[0]), steps[1..]);
    }
  }

  lemma BehindKept(s: State, step: Step, x: nat)
    requires Behind(s, x) && Enabled(s, step)
    ensures Behind(Next(s, step), x)
  {
    Frame(s, step);
    forall r | r in Next(s, step).pending ensures x < r.id { PendingFrom(s, step, r); }
  }

  lemma {:induction false} BehindStays(s: State, steps: seq<Step>, x: nat)
    requires Behind(s, x) && Runs(s, steps)
    ensures Behind(After(s, steps), x)
    decreases |steps|
  {
    if steps != [] {
      BehindKept(s, steps[0], x);
      BehindStays(Next(s, steps[0]), steps[1..], x);
    }
  }

  lemma HeadBehind(s: State)
    requires InTurn(s) && Enabled(s, Take)
    ensures Behind(Next(s, Take), s.pending[0].id)
  {
    assert s.pending[0] in s.pending;
  }

  /** Whatever happens between two takes, the request taken first was queued first. */
  lemma FirstComeFirstServed(before: seq<Step>, between: seq<Step>)
    requires Runs(INIT, before) && Enabled(After(INIT, before), Take)
    requires var s := Next(After(INIT, before), Take); Runs(s, between) && Enabled(After(s, between), Take)
    ensures After(INIT, before).pending[0].id < After(Next(After(INIT, before), Take), between).pending[0].id
  {
    var s := After(INIT, before);
    TurnsKept(INIT, before);
    HeadBehind(s);
    BehindStays(Next(s, Take), between, s.pending[0].id);
    var t := After(Next(s, Take), between);
    assert t.pending[0] in t.pending;
  }

  /** No longer queued, nor on a worker. */
  ghost predicate Past(s: State, id: nat) {
    id < s.nextId && (forall r :: r in s.pending ==> r.id != id) && forall r :: r in s.running ==> r.id != id
  }

  lemma RunningFrom(s: State, step: Step, r: Req)
    requires Enabled(s, step) && r in Next(s, step).running
    ensures r in s.running || r in s.pending
  {
    Frame(s, step);
  }

  lemma {:induction false} PastStays(s: State, steps: seq<Step>, id: nat)
    requires Past(s, id) && Runs(s, steps)
    ensures Past(After(s, steps), id)
    decreases |steps|
  {
    if steps != [] {
      var s' := Next(s, steps[0]);
      Frame(s, steps[0]);
      forall r | r in s'.pending ensures r.id != id { PendingFrom(s, steps[0], r); }
      forall r | r in s'.running ensures r.id != id { RunningFrom(s, steps[0], r); }
      PastStays(s', steps[1..], id);
    }
  }

  // ---------------------------------------------------------------------------
  // Calls

  ghost function RanIds(log: seq<Event>): seq<nat> {
    if log == [] then [] else
      var n := |log| - 1;
      if log[n].Ran? then RanIds(log[..n]) + [log[n].id] else RanIds(log[..n])
  }

  lemma {:induction false} RanIdsSame(a: seq<Event>, b: seq<Event>)
    requires OnlyCancels(a, b)
    ensures RanIds(b) == RanIds(a)
    decreases |b|
  {
    if |b| > |a| { RanIdsSame(a, b[..|b| - 1]); } else { assert a == b; }
  }

  lemma RanIdsSnoc(log: seq<Event>, e: Event)
    ensures RanIds(log + [e]) == if e.Ran? then RanIds(log) + [e.id] else RanIds(log)
  {
    assert (log + [e])[..|log|] == log;
  }

  /** The requests among these replies that asked in this Lua state and were not cancelled. */
  function WantedIds(l: seq<Req>, generation: nat): seq<nat> {
    if l == [] then [] else
      var n := |l| - 1;
      if Armed(l[n]) && l[n].generation == generation then WantedIds(l[..n], generation) + [l[n].id]
      else WantedIds(l[..n], generation)
  }

  lemma WantedIdsNext(l: seq<Req>, k: nat, generation: nat)
    requires k < |l|
    ensures WantedIds(l[..k + 1], generation) == WantedIds(l[..k], generation)
              + if Armed(l[k]) && l[k].generation == generation then [l[k].id] else []
  {
    assert l[..k + 1][..k] == l[..k];
  }

  // ---------------------------------------------------------------------------
  // What a worker has seen to

  /** In the order of their ids, all of them past queue and wire, and whoever is still queued asked later. */
  ghost predicate SeenTo(s: State, ids: seq<nat>) {
    && (forall i, j :: 0 <= i < j < |ids| ==> ids[i] < ids[j])
    && (forall i :: 0 <= i < |ids| ==> Past(s, ids[i]))
    && (ids != [] ==> Behind(s, ids[|ids| - 1]))
  }

  lemma StillSeenTo(s: State, steps: seq<Step>, ids: seq<nat>)
    requires Runs(s, steps) && SeenTo(s, ids)
    ensures SeenTo(After(s, steps), ids)
  {
    forall i | 0 <= i < |ids| ensures Past(After(s, steps), ids[i]) { PastStays(s, steps, ids[i]); }
    if ids != [] { BehindStays(s, steps, ids[|ids| - 1]); }
  }

  lemma SeenToSnoc(s: State, ids: seq<nat>, id: nat)
    requires SeenTo(s, ids) && Past(s, id) && Behind(s, id) && (ids != [] ==> ids[|ids| - 1] < id)
    ensures SeenTo(s, ids + [id])
  {
  }

  lemma FinishedPast(s: State, r: Req)
    requires Placed(s) && r in s.done
    ensures Past(s, r.id)
  {
    assert In(s, r);
    OnlyDone(s, r);
    forall x | x in s.pending || x in s.running ensures x.id != r.id {
      if x.id == r.id { Same(s, x, r); }
    }
  }
}
