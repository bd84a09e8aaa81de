/** Outgoing requests as a state machine whose steps are the sections run under one lock.

    A callback reference is a slot of the Lua registry. `registry` says which request each slot was handed to;
    giving back a slot one does not own is counted as a fault. Registry, leaks and faults end with their Lua state. */
module HttpClientSpec {

  /** LUA_NOREF */
  const NOREF := -2
  const WORKER_COUNT := 6

  /** A request, and later the reply to it. */
  datatype Req = Req(id: nat, plugin: int, generation: nat, callback: int)

  predicate Armed(r: Req) { r.callback != NOREF }

  datatype Event =
    | Ran(id: nat, asked: nat, now: nat, owned: bool)
    | CancelledTrue(id: nat)

  /** What the game thread is in the middle of: cancel, plugin removal and reset take two locks in turn. */
  datatype Game = Free | Cancelling(id: nat) | Removing(plugin: int) | Resetting

  datatype State = State(
    pending: seq<Req>, running: seq<Req>, done: seq<Req>,
    /** what the drain took off `done` and has not dealt with yet; its head is being called when `calling` */
    batch: seq<Req>, calling: bool,
    game: Game, generation: nat, nextId: nat,
    registry: map<int, nat>, leaked: set<nat>, faults: nat,
    log: seq<Event>)

  const INIT := State([], [], [], [], false, Free, 1, 1, map[], {}, 0, [])

  datatype Step =
    | Queue(plugin: int, slot: int)
    | Take
    | Finish(worker: nat)
    | CancelPending(id: nat)
    | CancelDone
    | RemovePending(plugin: int)
    | RemoveDone
    | Swap
    | Begin
    | EndCall
    | ResetPending
    | ResetDone

  // ---------------------------------------------------------------------------
  // Parts of steps

  /** luaL_unref of r's reference. */
  function Unref(s: State, r: Req): State {
    if r.callback in s.registry && s.registry[r.callback] == r.id then s.(registry := s.registry - {r.callback})
    else s.(registry := s.registry - {r.callback}, faults := s.faults + 1)
  }

  function UnrefAll(s: State, l: seq<Req>): State
    decreases |l|
  {
    if l == [] then s else Unref(UnrefAll(s, l[..|l| - 1]), l[|l| - 1])
  }

  function Index(l: seq<Req>, id: nat): (i: nat)
    ensures i <= |l| && (i < |l| ==> l[i].id == id)
    ensures forall j :: 0 <= j < i ==> l[j].id != id
  {
    if l == [] || l[0].id == id then 0 else 1 + Index(l[1..], id)
  }

  function Erase(l: seq<Req>, i: nat): seq<Req>
    requires i < |l|
  {
    l[..i] + l[i + 1..]
  }

  function OfPlugin(l: seq<Req>, plugin: int): seq<Req> {
    if l == [] then [] else
      var n := |l| - 1;
      if l[n].plugin == plugin then OfPlugin(l[..n], plugin) + [l[n]] else OfPlugin(l[..n], plugin)
  }

  function NotOfPlugin(l: seq<Req>, plugin: int): seq<Req> {
    if l == [] then [] else
      var n := |l| - 1;
      if l[n].plugin != plugin then NotOfPlugin(l[..n], plugin) + [l[n]] else NotOfPlugin(l[..n], plugin)
  }

  function DisarmIf(r: Req, unwanted: bool): Req { if unwanted then r.(callback := NOREF) else r }

  function DisarmId(l: seq<Req>, id: nat): seq<Req> {
    seq(|l|, i requires 0 <= i < |l| => DisarmIf(l[i], l[i].id == id))
  }

  function DisarmPlugin(l: seq<Req>, plugin: int): seq<Req> {
    seq(|l|, i requires 0 <= i < |l| => DisarmIf(l[i], l[i].plugin == plugin))
  }

  /** The armed replies of a plugin: the ones removal gives references back for. The code also calls luaL_unref on
      a disarmed reply, which does nothing for LUA_NOREF. */
  function ArmedOf(l: seq<Req>, plugin: int): seq<Req> {
    if l == [] then [] else
      var n := |l| - 1;
      if l[n].plugin == plugin && Armed(l[n]) then ArmedOf(l[..n], plugin) + [l[n]] else ArmedOf(l[..n], plugin)
  }

  /** References of replies cancel disarms without giving them back. */
  function LeakedBy(s: State, l: seq<Req>, id: nat): set<nat> {
    set r | r in l && r.id == id && Armed(r) && r.generation == s.generation :: r.id
  }

  // ---------------------------------------------------------------------------
  // Steps

  predicate Enabled(s: State, step: Step) {
    match step
    case Queue(plugin, slot) => s.game.Free? && slot >= 0 && slot !in s.registry
    case Take => s.pending != [] && |s.running| < WORKER_COUNT
    case Finish(worker) => worker < |s.running|
    case CancelPending(id) => s.game.Free?
    case CancelDone => s.game.Cancelling?
    case RemovePending(plugin) => s.game.Free?
    case RemoveDone => s.game.Removing?
    case Swap => s.game.Free? && s.batch == [] && s.done != []
    case Begin => s.game.Free? && s.batch != [] && !s.calling
    case EndCall => s.game.Free? && s.batch != [] && s.calling
    case ResetPending => s.game.Free? && s.batch == []
    case ResetDone => s.game.Resetting?
  }

  /** Whether the drain calls this reply back: not cancelled, and asked for by the present Lua state. */
  predicate Wanted(s: State, r: Req) { Armed(r) && r.generation == s.generation }

  function Next(s: State, step: Step): State
    requires Enabled(s, step)
  {
    match step
    case Queue(plugin, slot) =>
      s.(nextId := s.nextId + 1, registry := s.registry[slot := s.nextId],
         pending := s.pending + [Req(s.nextId, plugin, s.generation, slot)])
    case Take => s.(pending := s.pending[1..], running := s.running + [s.pending[0]])
    case Finish(worker) => s.(running := Erase(s.running, worker), done := s.done + [s.running[worker]])
    case CancelPending(id) =>
      var i := Index(s.pending, id);
      if i < |s.pending| then
        Unref(s, s.pending[i]).(pending := Erase(s.pending, i), log := s.log + [CancelledTrue(id)])
      else s.(game := Cancelling(id))
    case CancelDone =>
      var id := s.game.id;
      s.(game := Free, done := DisarmId(s.done, id), leaked := s.leaked + LeakedBy(s, s.done, id),
         log := if Index(s.done, id) < |s.done| then s.log + [CancelledTrue(id)] else s.log)
    case RemovePending(plugin) =>
      UnrefAll(s, OfPlugin(s.pending, plugin)).(pending := NotOfPlugin(s.pending, plugin), game := Removing(plugin))
    case RemoveDone =>
      UnrefAll(s, ArmedOf(s.done, s.game.plugin)).(done := DisarmPlugin(s.done, s.game.plugin), game := Free)
    case Swap => s.(batch := s.done, done := [])
    case Begin =>
      var r := s.batch[0];
      if !Wanted(s, r) then s.(batch := s.batch[1..])
      else s.(calling := true,
              log := s.log + [Ran(r.id, r.generation, s.generation,
                                  r.callback in s.registry && s.registry[r.callback] == r.id)])
    case EndCall => Unref(s, s.batch[0]).(batch := s.batch[1..], calling := false)
    case ResetPending =>
      s.(generation := s.generation + 1, registry := map[], leaked := {}, faults := 0, pending := [], game := Resetting)
    case ResetDone => s.(done := [], game := Free)
  }

  /** A run: every step enabled where it is taken. */
  predicate Runs(s: State, steps: seq<Step>)
    decreases |steps|
  {
    steps == [] || (Enabled(s, steps[0]) && Runs(Next(s, steps[0]), steps[1..]))
  }

  function After(s: State, steps: seq<Step>): State
    requires Runs(s, steps)
    decreases |steps|
  {
    if steps == [] then s else After(Next(s, steps[0]), steps[1..])
  }
}
