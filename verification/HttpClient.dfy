/** The HTTP client's threads as the code has them: loops and functions over shared queues, with the other threads
    getting on between any two sections run under a lock.

    `trace` records which section ran when, so that Valid says: what the queues hold is what that run of the protocol
    leads to. Where a thread lets go of its lock, a caller's plan says what the others do meanwhile; whatever of it
    cannot happen then, or is this thread's own to do, is passed over. */
module HttpClient {
  import opened HttpClientSpec
  import opened HttpClientLaws
  import opened HttpClientFate
  import opened HttpClientThreads

  /** A worker's turn: what the others do before it looks at the queue, and while its request is on the wire. */
  datatype Turn = Turn(before: seq<Step>, during: seq<Step>)

  /** What workers do before a reply is looked at, and what callback and workers do while it is called back. */
  datatype Call = Call(before: seq<Step>, inside: seq<Step>)

  lemma SplitSnoc(l: seq<Req>, k: nat, plugin: int)
    requires k < |l|
    ensures OfPlugin(l[..k + 1], plugin) ==
              if l[k].plugin == plugin then OfPlugin(l[..k], plugin) + [l[k]] else OfPlugin(l[..k], plugin)
    ensures NotOfPlugin(l[..k + 1], plugin) ==
              if l[k].plugin != plugin then NotOfPlugin(l[..k], plugin) + [l[k]] else NotOfPlugin(l[..k], plugin)
    ensures ArmedOf(l[..k + 1], plugin) ==
              if l[k].plugin == plugin && Armed(l[k]) then ArmedOf(l[..k], plugin) + [l[k]] else ArmedOf(l[..k], plugin)
  {
    assert l[..k + 1][..k] == l[..k];
  }

  lemma UnrefSnoc(s: State, l: seq<Req>, r: Req)
    ensures UnrefAll(s, l + [r]) == Unref(UnrefAll(s, l), r)
  {
    assert (l + [r])[..|l|] == l;
  }

  // ---------------------------------------------------------------------------
  // The loops of plugin removal

  /** The first k of the queue seen, what stays of them moved up. */
  ghost predicate QueuedSeen(s0: State, s: State, plugin: int, k: nat, i: nat) {
    && k <= |s0.pending| && i == |NotOfPlugin(s0.pending[..k], plugin)|
    && s.pending == NotOfPlugin(s0.pending[..k], plugin) + s0.pending[k..]
    && s == UnrefAll(s0, OfPlugin(s0.pending[..k], plugin)).(pending := s.pending)
  }

  lemma FrontRest(front: seq<Req>, rest: seq<Req>)
    requires rest != []
    ensures (front + rest)[|front|] == rest[0] && Erase(front + rest, |front|) == front + rest[1..]
    ensures front + rest == front + [rest[0]] + rest[1..]
  {
  }

  lemma TailAt(l: seq<Req>, k: nat)
    requires k < |l|
    ensures l[k..] != [] && l[k..][0] == l[k] && l[k..][1..] == l[k + 1..]
  {
  }

  lemma QueuedAt(s0: State, s: State, plugin: int, k: nat, i: nat)
    requires QueuedSeen(s0, s, plugin, k, i) && i < |s.pending|
    ensures k < |s0.pending| && s.pending[i] == s0.pending[k]
  {
  }

  lemma QueuedStays(s0: State, s: State, plugin: int, k: nat, i: nat)
    requires QueuedSeen(s0, s, plugin, k, i) && i < |s.pending| && s.pending[i].plugin != plugin
    ensures QueuedSeen(s0, s, plugin, k + 1, i + 1)
  {
    QueuedAt(s0, s, plugin, k, i);
    TailAt(s0.pending, k);
    FrontRest(NotOfPlugin(s0.pending[..k], plugin), s0.pending[k..]);
    SplitSnoc(s0.pending, k, plugin);
  }

  lemma QueuedGoes(s0: State, s: State, plugin: int, k: nat, i: nat)
    requires QueuedSeen(s0, s, plugin, k, i) && i < |s.pending| && s.pending[i].plugin == plugin
    ensures QueuedSeen(s0, Unref(s, s.pending[i]).(pending := Erase(s.pending, i)), plugin, k + 1, i)
  {
    QueuedAt(s0, s, plugin, k, i);
    TailAt(s0.pending, k);
    FrontRest(NotOfPlugin(s0.pending[..k], plugin), s0.pending[k..]);
    SplitSnoc(s0.pending, k, plugin);
    UnrefSnoc(s0, OfPlugin(s0.pending[..k], plugin), s0.pending[k]);
  }

  /** The first i replies are disarmed if they are the plugin's. */
  ghost predicate Marked(l0: seq<Req>, l: seq<Req>, plugin: int, i: nat) {
    && i <= |l0| == |l|
    && (forall j :: 0 <= j < |l| ==> l[j] == DisarmIf(l0[j], j < i && l0[j].plugin == plugin))
  }

  lemma MarkedNext(l0: seq<Req>, l: seq<Req>, plugin: int, i: nat)
    requires Marked(l0, l, plugin, i) && i < |l|
    ensures l[i] == l0[i]
    ensures Marked(l0, if l[i].plugin != plugin then l else l[i := l[i].(callback := NOREF)], plugin, i + 1)
  {
  }

  ghost predicate AnsweredSeen(s0: State, s: State, plugin: int, i: nat) {
    && Marked(s0.done, s.done, plugin, i)
    && s == UnrefAll(s0, ArmedOf(s0.done[..i], plugin)).(done := s.done)
  }

  /** The reply at i dealt with. */
  function Dealt(s: State, plugin: int, i: nat): State
    requires i < |s.done|
  {
    var r := s.done[i];
    if r.plugin != plugin then s
    else (if Armed(r) then Unref(s, r) else s).(done := s.done[i := r.(callback := NOREF)])
  }

  /** Giving a reference back does not look at the queues. */
  lemma UnrefBeside(x: State, r: Req, done: seq<Req>, pending: seq<Req>)
    ensures Unref(x.(done := done), r) == Unref(x, r).(done := done)
    ensures Unref(x.(pending := pending), r) == Unref(x, r).(pending := pending)
  {
  }

  lemma AnsweredNext(s0: State, s: State, plugin: int, i: nat)
    requires AnsweredSeen(s0, s, plugin, i) && i < |s.done|
    ensures AnsweredSeen(s0, Dealt(s, plugin, i), plugin, i + 1)
  {
    MarkedNext(s0.done, s.done, plugin, i);
    AnsweredUnref(s0, s, plugin, i, Dealt(s, plugin, i).done);
  }

  lemma AnsweredUnref(s0: State, s: State, plugin: int, i: nat, done: seq<Req>)
    requires AnsweredSeen(s0, s, plugin, i) && i < |s.done|
    ensures var r := s0.done[i]; var t := if r.plugin == plugin && Armed(r) then Unref(s, r) else s;
      t.(done := done) == UnrefAll(s0, ArmedOf(s0.done[..i + 1], plugin)).(done := done)
  {
    var r := s0.done[i];
    SplitSnoc(s0.done, i, plugin);
    if r.plugin == plugin && Armed(r) {
      UnrefSnoc(s0, ArmedOf(s0.done[..i], plugin), r);
      UnrefBeside(UnrefAll(s0, ArmedOf(s0.done[..i], plugin)), r, s.done, []);
    }
  }

  lemma AnsweredAll(s0: State, s: State, plugin: int)
    requires AnsweredSeen(s0, s, plugin, |s0.done|)
    ensures s == UnrefAll(s0, ArmedOf(s0.done, plugin)).(done := DisarmPlugin(s0.done, plugin))
  {
    assert s0.done[..|s0.done|] == s0.done;
    assert s.done == DisarmPlugin(s0.done, plugin);
  }

  class Client {
    /** s_pending, s_done, and what the workers and the drain hold in locals of their own */
    var pending: seq<Req>
    var running: seq<Req>
    var done: seq<Req>
    var batch: seq<Req>
    var calling: bool
    var game: Game
    var generation: nat
    var nextId: nat
    /** The Lua registry's slots handed to requests. */
    var registry: map<int, nat>
    ghost var leaked: set<nat>
    ghost var faults: nat
    ghost var log: seq<Event>
    ghost var trace: seq<Step>

    ghost function View(): State reads this {
      State(pending, running, done, batch, calling, game, generation, nextId, registry, leaked, faults, log)
    }

    ghost predicate Valid() reads this { Runs(INIT, trace) && After(INIT, trace) == View() }

    twostate predicate Took(step: Step)
      reads this
    {
      Enabled(old(View()), step) && Next(old(View()), step) == View() && trace == old(trace) + [step]
    }

    twostate predicate Later() reads this { old(trace) <= trace }

    constructor ()
      ensures Valid() && trace == []
    {
      pending, running, done, batch, calling := [], [], [], [], false;
      game, generation, nextId, registry := Free, 1, 1, map[];
      leaked, faults, log, trace := {}, 0, [], [];
    }

    ghost method Note(was: State, step: Step)
      requires Runs(INIT, trace) && After(INIT, trace) == was && Enabled(was, step) && View() == Next(was, step)
      modifies this`trace
      ensures Valid() && trace == old(trace) + [step]
    {
      OneStep(was, step);
      RunsOn(INIT, trace, [step]);
      trace := trace + [step];
    }

    lemma Sound()
      requires Valid()
      ensures Inv(View())
    {
      RunKeeps(INIT, trace);
    }

    // -------------------------------------------------------------------------
    // Sections

    /** luaL_unref: frees the slot, whoever it was handed to. */
    method Release(r: Req)
      modifies this`registry, this`faults
      ensures View() == Unref(old(View()), r)
    {
      if r.callback !in registry || registry[r.callback] != r.id { faults := faults + 1; }
      registry := registry - {r.callback};
    }

    /** queue_request, once luaL_ref has found a free slot */
    method Push(plugin: int, slot: int) returns (id: nat)
      requires Valid() && Enabled(View(), Queue(plugin, slot))
      modifies this
      ensures Valid() && Took(Queue(plugin, slot)) && id == old(nextId)
    {
      ghost var was := View();
      id := nextId;
      nextId := nextId + 1;
      registry := registry[slot := id];
      pending := pending + [Req(id, plugin, generation, slot)];
      Note(was, Queue(plugin, slot));
    }

    /** worker_loop, first section */
    method TakeRequest()
      requires Valid() && Enabled(View(), Take)
      modifies this
      ensures Valid() && Took(Take)
    {
      ghost var was := View();
      running := running + [pending[0]];
      pending := pending[1..];
      Note(was, Take);
    }

    /** worker_loop, second section */
    method FinishRequest(worker: nat)
      requires Valid() && Enabled(View(), Finish(worker))
      modifies this
      ensures Valid() && Took(Finish(worker))
    {
      ghost var was := View();
      done := done + [running[worker]];
      running := Erase(running, worker);
      Note(was, Finish(worker));
    }

    /** l_cancel under s_pending_lock: the first match goes, and its reference with it. */
    method CancelQueued(id: nat) returns (found: bool)
      requires Valid() && Enabled(View(), CancelPending(id))
      modifies this
      ensures Valid() && Took(CancelPending(id))
      ensures found == (Index(old(pending), id) < |old(pending)|)
    {
      ghost var was := View();
      var i := 0;
      while i < |pending| && pending[i].id != id
        invariant i <= |pending| && forall j :: 0 <= j < i ==> pending[j].id != id
      {
        i := i + 1;
      }
      found := i < |pending|;
      if found {
        Release(pending[i]);
        pending := Erase(pending, i);
        log := log + [CancelledTrue(id)];
      } else {
        game := Cancelling(id);
      }
      Note(was, CancelPending(id));
    }

    /** l_cancel under s_done_lock: the reply is marked as unwanted. */
    method CancelAnswered() returns (found: bool)
      requires Valid() && Enabled(View(), CancelDone)
      modifies this
      ensures Valid() && Took(CancelDone)
      ensures found == (Index(old(done), old(game).id) < |old(done)|)
    {
      ghost var was := View();
      var id := game.id;
      ghost var lost := LeakedBy(View(), done, id);
      found := DisarmAnswered(id);
      leaked := leaked + lost;
      if found { log := log + [CancelledTrue(id)]; }
      game := Free;
      Note(was, CancelDone);
    }

    method DisarmAnswered(id: nat) returns (found: bool)
      modifies this`done
      ensures done == DisarmId(old(done), id) && (found <==> Index(old(done), id) < |old(done)|)
    {
      found := false;
      var i := 0;
      while i < |done|
        invariant i <= |done| == |old(done)|
        invariant forall j :: 0 <= j < |done| ==> done[j] == DisarmIf(old(done)[j], j < i && old(done)[j].id == id)
        invariant found <==> exists j :: 0 <= j < i && old(done)[j].id == id
      {
        if done[i].id == id {
          done := done[i := done[i].(callback := NOREF)];
          found := true;
        }
        i := i + 1;
      }
      assert done == DisarmId(old(done), id);
      ghost var at := Index(old(done), id);
      assert found <==> at < |old(done)|;
    }

    method ReleaseQueued(i: nat)
      requires i < |pending|
      modifies this`pending, this`registry, this`faults
      ensures View() == Unref(old(View()), old(pending)[i]).(pending := Erase(old(pending), i))
    {
      Release(pending[i]);
      pending := Erase(pending, i);
    }

    method DropQueued(plugin: int)
      modifies this`pending, this`registry, this`faults
      ensures View()
        == UnrefAll(old(View()), OfPlugin(old(pending), plugin)).(pending := NotOfPlugin(old(pending), plugin))
    {
      ghost var s0, k := View(), 0;
      var i := 0;
      while i < |pending|
        invariant QueuedSeen(s0, View(), plugin, k, i)
        decreases |pending| - i
      {
        ghost var s := View();
        if pending[i].plugin != plugin {
          QueuedStays(s0, s, plugin, k, i);
          i := i + 1;
        } else {
          QueuedGoes(s0, s, plugin, k, i);
          ReleaseQueued(i);
        }
        k := k + 1;
      }
      assert s0.pending[..k] == s0.pending;
    }

    /** cslua_http_remove_plugin under s_pending_lock */
    method RemovePluginQueued(plugin: int)
      requires Valid() && Enabled(View(), RemovePending(plugin))
      modifies this
      ensures Valid() && Took(RemovePending(plugin))
    {
      ghost var was := View();
      DropQueued(plugin);
      game := Removing(plugin);
      Note(was, RemovePending(plugin));
    }

    method DealWith(plugin: int, i: nat)
      requires i < |done|
      modifies this`done, this`registry, this`faults
      ensures View() == Dealt(old(View()), plugin, i)
    {
      if done[i].plugin != plugin { return; }
      if Armed(done[i]) { Release(done[i]); }
      done := done[i := done[i].(callback := NOREF)];
    }

    method DropAnswered(plugin: int)
      modifies this`done, this`registry, this`faults
      ensures View() == UnrefAll(old(View()), ArmedOf(old(done), plugin)).(done := DisarmPlugin(old(done), plugin))
    {
      ghost var s0 := View();
      var i := 0;
      while i < |done|
        invariant AnsweredSeen(s0, View(), plugin, i)
      {
        AnsweredNext(s0, View(), plugin, i);
        DealWith(plugin, i);
        i := i + 1;
      }
      AnsweredAll(s0, View(), plugin);
    }

    /** cslua_http_remove_plugin under s_done_lock: what is on the wire only has its reply disarmed. */
    method RemovePluginAnswered()
      requires Valid() && Enabled(View(), RemoveDone)
      modifies this
      ensures Valid() && Took(RemoveDone)
    {
      ghost var was := View();
      DropAnswered(game.plugin);
      game := Free;
      Note(was, RemoveDone);
    }

    /** cslua_http_run takes everything answered. */
    method SwapBatch()
      requires Valid() && Enabled(View(), Swap)
      modifies this
      ensures Valid() && Took(Swap)
    {
      ghost var was := View();
      batch, done := done, [];
      Note(was, Swap);
    }

    /** cslua_http_run comes to its next reply: skipped, or called back. */
    method BeginReply()
      requires Valid() && Enabled(View(), Begin)
      modifies this
      ensures Valid() && Took(Begin)
    {
      ghost var was := View();
      var r := batch[0];
      if r.callback == NOREF || r.generation != generation {
        batch := batch[1..];
      } else {
        calling := true;
        log := log + [Ran(r.id, r.generation, generation, r.callback in registry && registry[r.callback] == r.id)];
      }
      Note(was, Begin);
    }

    method EndReply()
      requires Valid() && Enabled(View(), EndCall)
      modifies this
      ensures Valid() && Took(EndCall)
    {
      ghost var was := View();
      Release(batch[0]);
      batch, calling := batch[1..], false;
      Note(was, EndCall);
    }

    /** cslua_http_reset, first section; the Lua state takes its registry with it. */
    method ResetQueued()
      requires Valid() && Enabled(View(), ResetPending)
      modifies this
      ensures Valid() && Took(ResetPending)
    {
      ghost var was := View();
      generation := generation + 1;
      registry, leaked, faults := map[], {}, 0;
      pending := [];
      game := Resetting;
      Note(was, ResetPending);
    }

    method ResetAnswered()
      requires Valid() && Enabled(View(), ResetDone)
      modifies this
      ensures Valid() && Took(ResetDone)
    {
      ghost var was := View();
      done := [];
      game := Free;
      Note(was, ResetDone);
    }

    // -------------------------------------------------------------------------
    // The other threads

    method MayDo(step: Step) returns (may: bool)
      ensures may == Enabled(View(), step)
    {
      var s := State(pending, running, done, batch, calling, game, generation, nextId, registry, {}, 0, []);
      return Enabled(s, step);
    }

    method IsMine(me: Thread, step: Step) returns (mine: bool)
      ensures mine == By(me, View(), step)
    {
      return By(me, State(pending, running, done, batch, calling, game, generation, nextId, registry, {}, 0, []), step);
    }

    method Do(step: Step)
      requires Valid() && Enabled(View(), step)
      modifies this
      ensures Valid() && Took(step)
    {
      match step {
        case Queue(plugin, slot) => var id := Push(plugin, slot);
        case Take => TakeRequest();
        case Finish(worker) => FinishRequest(worker);
        case CancelPending(id) => var found := CancelQueued(id);
        case CancelDone => var found := CancelAnswered();
        case RemovePending(plugin) => RemovePluginQueued(plugin);
        case RemoveDone => RemovePluginAnswered();
        case Swap => SwapBatch();
        case Begin => BeginReply();
        case EndCall => EndReply();
        case ResetPending => ResetQueued();
        case ResetDone => ResetAnswered();
      }
    }

    method OthersRun(plan: seq<Step>, me: Thread) returns (ghost ran: seq<Step>)
      requires Valid()
      modifies this
      ensures Valid() && Runs(old(View()), ran) && After(old(View()), ran) == View() && trace == old(trace) + ran
      ensures Others(me, old(View()), ran)
    {
      ran := [];
      var i := 0;
      while i < |plan|
        invariant Valid() && Runs(old(View()), ran) && After(old(View()), ran) == View() && trace == old(trace) + ran
        invariant Others(me, old(View()), ran)
      {
        var may := MayDo(plan[i]);
        var mine := IsMine(me, plan[i]);
        if may && !mine {
          OneStep(View(), plan[i]);
          RunsOn(old(View()), ran, [plan[i]]);
          OthersSnoc(me, old(View()), ran, plan[i]);
          Do(plan[i]);
          ran := ran + [plan[i]];
        }
        i := i + 1;
      }
    }

    lemma Since(before: seq<Step>)
      requires Valid() && before <= trace && Runs(INIT, before)
      ensures Runs(After(INIT, before), trace[|before|..]) && After(After(INIT, before), trace[|before|..]) == View()
    {
      assert trace == before + trace[|before|..];
      RunsOn(INIT, before, trace[|before|..]);
    }

    // -------------------------------------------------------------------------
    // Workers

    lemma SeenSince(before: seq<Step>, ids: seq<nat>)
      requires Valid() && before <= trace && Runs(INIT, before) && SeenTo(After(INIT, before), ids)
      ensures SeenTo(View(), ids)
    {
      Since(before);
      StillSeenTo(After(INIT, before), trace[|before|..], ids);
    }

    /** A worker waits for the queue. */
    method Idle(plan: seq<Step>)
      requires Valid() && |running| < 6
      modifies this
      ensures Valid() && Later() && |running| < 6
    {
      ghost var before := View();
      ghost var ran := OthersRun(plan, IdleWorker);
      IdleStays(before, ran);
    }

    /** The request is on the wire, and its reply queued for the game thread. */
    method Perform(mine: Req, during: seq<Step>)
      requires Valid() && mine in running
      modifies this
      ensures Valid() && Later() && |running| < 6 && done != [] && done[|done| - 1] == mine
    {
      ghost var before := View();
      ghost var ran := OthersRun(during, BusyWorker(mine));
      MineStays(before, ran, mine);
      var i := 0;
      while running[i] != mine
        invariant i < |running| && mine in running[i..]
        decreases |running| - i
      {
        i := i + 1;
      }
      Sound();
      FinishRequest(i);
    }

    /** A worker's request: the oldest one, whatever the others do meanwhile; its reply is the last answered, and nobody
        who asked before is still queued. */
    method Serve(during: seq<Step>, ghost served: seq<nat>) returns (mine: Req)
      requires Valid() && |running| < 6 && pending != [] && SeenTo(View(), served)
      modifies this
      ensures Valid() && Later() && |running| < 6 && mine == old(pending)[0]
      ensures done != [] && done[|done| - 1] == mine && SeenTo(View(), served + [mine.id])
    {
      mine := TakeOldest(served);
      ghost var before := trace;
      Perform(mine, during);
      SeenSince(before, served);
      BehindSince(before, mine.id);
      LastPast();
      SeenToSnoc(View(), served, mine.id);
    }

    method TakeOldest(ghost served: seq<nat>) returns (mine: Req)
      requires Valid() && |running| < 6 && pending != [] && SeenTo(View(), served)
      modifies this
      ensures Valid() && Later() && mine == old(pending)[0] && mine in running
      ensures SeenTo(View(), served) && Behind(View(), mine.id) && (served != [] ==> served[|served| - 1] < mine.id)
    {
      ghost var before := trace;
      mine := pending[0];
      assert mine in pending;
      assert InTurn(INIT);
      TurnsKept(INIT, trace);
      HeadBehind(View());
      TakeRequest();
      SeenSince(before, served);
    }

    lemma BehindSince(before: seq<Step>, id: nat)
      requires Valid() && before <= trace && Runs(INIT, before) && Behind(After(INIT, before), id)
      ensures Behind(View(), id)
    {
      Since(before);
      BehindStays(After(INIT, before), trace[|before|..], id);
    }

    lemma LastPast()
      requires Valid() && done != []
      ensures Past(View(), done[|done| - 1].id)
    {
      Sound();
      FinishedPast(View(), done[|done| - 1]);
    }

    /** worker_loop, for as many turns as there are: requests are performed in the order in which they were queued, each
        leaving queue and wire for good. */
    method WorkerLoop(turns: seq<Turn>) returns (served: seq<nat>)
      requires Valid() && |running| < 6
      modifies this
      ensures Valid() && Later() && |running| < 6 && SeenTo(View(), served)
    {
      served := [];
      var i := 0;
      while i < |turns|
        invariant Valid() && Later() && |running| < 6 && SeenTo(View(), served)
      {
        ghost var before := trace;
        Idle(turns[i].before);
        SeenSince(before, served);
        if pending != [] {
          var mine := Serve(turns[i].during, served);
          served := served + [mine.id];
        }
        i := i + 1;
      }
    }

    // -------------------------------------------------------------------------
    // What plugins ask for

    /** queue_request: nobody had this id before, and the callback can be reached. */
    method QueueRequest(plugin: int, slot: int) returns (id: nat)
      requires Valid() && game.Free? && slot >= 0 && slot !in registry
      modifies this
      ensures Valid() && Later() && MayCall(View(), id) && game == old(game)
      ensures forall r :: In(old(View()), r) ==> r.id != id
      ensures pending == old(pending) + [Req(id, plugin, generation, slot)] && generation == old(generation)
    {
      Sound();
      QueuedMayCall(View(), plugin, slot);
      id := Push(plugin, slot);
    }

    /** Workers get on while the game thread holds no lock. */
    method WorkersGetOn(plan: seq<Step>)
      requires Valid()
      modifies this
      ensures Valid() && Later()
      ensures View() == old(View()).(pending := pending, running := running, done := done)
    {
      ghost var before := View();
      ghost var ran := OthersRun(plan, GameThread);
      GameStays(before, ran);
    }

    lemma CancelFate(s: State, step: Step, id: nat, found: bool)
      requires Inv(s) && Enabled(s, step) && Next(s, step) == View() && game.Free?
      requires step == CancelPending(id) || (step.CancelDone? && s.game == Cancelling(id))
      requires log == if found then s.log + [CancelledTrue(id)] else s.log
      ensures found ==> id < nextId && !MayCall(View(), id)
      ensures id < nextId ==> (MayCall(View(), id) <==> exists r: Req :: r.id == id && OnItsWay(View(), r))
    {
      StepKeeps(s, step);
      Frame(s, step);
      if found { CancelledSilent(s, step, id); } else { AfterCancelFalse(s); }
      if id < nextId { FateOnItsWay(View(), id); }
    }

    /** l_cancel, workers getting on between its two sections: when it says true the callback will not run, and
        otherwise it can run if and only if the request is on a worker or in the drained batch. */
    method Cancel(id: nat, during: seq<Step>) returns (found: bool)
      requires Valid() && game.Free?
      modifies this
      ensures Valid() && Later() && game.Free?
      ensures found ==> id < nextId && !MayCall(View(), id)
      ensures id < nextId ==> (MayCall(View(), id) <==> exists r: Req :: r.id == id && OnItsWay(View(), r))
    {
      Sound();
      ghost var s := View();
      found := CancelQueued(id);
      if found {
        CancelFate(s, CancelPending(id), id, found);
      } else {
        WorkersGetOn(during);
        Sound();
        s := View();
        found := CancelAnswered();
        CancelFate(s, CancelDone, id, found);
      }
    }

    lemma RemovalFate(s: State, plugin: int, r: Req)
      requires Inv(s) && Enabled(s, RemoveDone) && s.game == Removing(plugin) && Next(s, RemoveDone) == View()
      requires In(View(), r) && r.plugin == plugin
      ensures MayCall(View(), r.id) <==> OnItsWay(View(), r)
    {
      StepKeeps(s, RemoveDone);
      AfterRemoval(s);
      Frame(s, RemoveDone);
      forall x | In(View(), x) && x.id == r.id ensures x == r { Same(View(), x, r); }
      FateOnItsWay(View(), r.id);
      if x: Req :| x.id == r.id && OnItsWay(View(), x) { assert In(View(), x); }
    }

    /** cslua_http_remove_plugin, workers getting on between its two sections: what the plugin still has anywhere can be
        called back if and only if it is on a worker or in the drained batch. */
    method RemovePlugin(plugin: int, during: seq<Step>)
      requires Valid() && game.Free?
      modifies this
      ensures Valid() && Later() && game.Free?
      ensures forall r :: In(View(), r) && r.plugin == plugin ==> (MayCall(View(), r.id) <==> OnItsWay(View(), r))
    {
      RemovePluginQueued(plugin);
      WorkersGetOn(during);
      Sound();
      ghost var s := View();
      RemovePluginAnswered();
      forall r | In(View(), r) && r.plugin == plugin ensures MayCall(View(), r.id) <==> OnItsWay(View(), r) {
        RemovalFate(s, plugin, r);
      }
    }

    /** cslua_http_reset: only what is on a worker is left, and nothing asked for before can be called back any more. */
    method Reset(during: seq<Step>)
      requires Valid() && game.Free? && batch == []
      modifies this
      ensures Valid() && Later() && game.Free? && generation == old(generation) + 1
      ensures nextId == old(nextId) && forall id: nat :: id < nextId ==> !MayCall(View(), id)
      ensures pending == [] && done == [] && batch == [] && registry == map[] && faults == 0
      ensures forall r :: In(View(), r) ==> r in running
    {
      ResetQueued();
      WorkersGetOn(during);
      Sound();
      ghost var s := View();
      ResetAnswered();
      forall id: nat | id < nextId ensures !MayCall(View(), id) { ResetSilences(s, id); }
    }

    // -------------------------------------------------------------------------
    // The drain

    /** A callback runs: whatever it asks for is done before it returns. */
    method RunCallback(plan: seq<Step>)
      requires Valid() && game.Free? && calling
      modifies this
      ensures Valid() && Later() && game.Free?
      ensures batch == old(batch) && calling && generation == old(generation) && OnlyCancels(old(log), log)
    {
      ghost var before := View();
      ghost var ran := OthersRun(plan, Callback);
      DrainStays(before, ran);
      if game.Cancelling? {
        DrainLeft(View(), CancelDone);
        var found := CancelAnswered();
      } else if game.Removing? {
        DrainLeft(View(), RemoveDone);
        RemovePluginAnswered();
      }
    }

    /** The drain's next reply: called back if it is wanted, passed over otherwise. */
    method DrainOne(call: Call) returns (called: bool)
      requires Valid() && game.Free? && batch != [] && !calling
      modifies this
      ensures Valid() && Later() && game.Free? && !calling && batch == old(batch)[1..] && generation == old(generation)
      ensures called == (Armed(old(batch)[0]) && old(batch)[0].generation == generation)
      ensures RanIds(log) == RanIds(old(log)) + if called then [old(batch)[0].id] else []
    {
      WorkersGetOn(call.before);
      ghost var n := log;
      BeginReply();
      called := calling;
      if called {
        RanIdsSnoc(n, log[|n|]);
        ghost var begun := log;
        RunCallback(call.inside);
        RanIdsSame(begun, log);
        EndReply();
      }
    }

    /** cslua_http_run: of the replies waiting when it starts, exactly those that were not cancelled and were asked for
        in this Lua state are called back, in their order and once each, whatever the callbacks ask for meanwhile. */
    method Drain(calls: seq<Call>) returns (called: seq<nat>)
      requires Valid() && game.Free? && batch == [] && !calling
      modifies this
      ensures Valid() && Later() && game.Free? && batch == [] && !calling && generation == old(generation)
      ensures called == WantedIds(old(done), generation) && RanIds(log) == RanIds(old(log)) + called
    {
      called := [];
      if done == [] { return; }
      ghost var answered := done;
      SwapBatch();
      var i := 0;
      while batch != []
        invariant Valid() && Later() && game.Free? && !calling && generation == old(generation)
        invariant i <= |answered| && batch == answered[i..]
        invariant called == WantedIds(answered[..i], generation) && RanIds(log) == RanIds(old(log)) + called
        decreases |batch|
      {
        var r := batch[0];
        WantedIdsNext(answered, i, generation);
        var wanted := DrainOne(if i < |calls| then calls[i] else Call([], []));
        if wanted { called := called + [r.id]; }
        i := i + 1;
      }
      assert answered[..i] == answered;
    }
  }
}
