/** Every interleaving of queueing, workers, cancel, plugin removal, drain and reset. */
module HttpClientLaws {
  import opened HttpClientSpec

  // ---------------------------------------------------------------------------
  // The invariant

  ghost predicate In(s: State, r: Req) {
    r in s.pending || r in s.running || r in s.done || r in s.batch
  }

  /** How many entries of l carry this id. */
  ghost function Count(l: seq<Req>, id: nat): nat {
    if l == [] then 0 else
      var n := |l| - 1;
      if l[n].id == id then Count(l[..n], id) + 1 else Count(l[..n], id)
  }

  ghost function Everywhere(s: State, id: nat): nat {
    Count(s.pending, id) + Count(s.running, id) + Count(s.done, id) + Count(s.batch, id)
  }

  /** A request is in one place at a time. */
  ghost predicate Placed(s: State) {
    && (forall id: nat :: Everywhere(s, id) <= 1)
    && (forall r :: In(s, r) ==> r.id < s.nextId && r.generation <= s.generation)
    && (forall r :: r in s.pending ==> Wanted(s, r))
    && |s.running| <= WORKER_COUNT
    && (s.calling ==> s.batch != [] && Wanted(s, s.batch[0]))
    && (s.game.Removing? ==> forall r :: r in s.pending ==> r.plugin != s.game.plugin)
    && (s.game.Cancelling? ==> forall r :: r in s.pending ==> r.id != s.game.id)
    && (s.game.Resetting? ==> s.pending == [] && forall r :: In(s, r) ==> r.generation < s.generation)
  }

  /** No callback twice, none under another generation, none after a cancel that returned true. */
  ghost predicate Orderly(log: seq<Event>) {
    && (forall i, j :: 0 <= i < j < |log| && log[i].Ran? && log[j].Ran? ==> log[i].id != log[j].id)
    && (forall i :: 0 <= i < |log| && log[i].Ran? ==> log[i].asked == log[i].now)
    && (forall i, j :: 0 <= i < |log| && 0 <= j < |log| && log[i].CancelledTrue? && log[j].Ran? ==>
        log[i].id != log[j].id)
  }

  /** What has run is gone but for the call under way; what was cancelled is disarmed wherever it still is. */
  ghost predicate EntriesOk(log: seq<Event>, s: State) {
    && (forall i, r :: 0 <= i < |log| && log[i].Ran? && In(s, r) && r.id == log[i].id ==>
          s.calling && s.batch != [] && r == s.batch[0])
    && (forall i, r :: 0 <= i < |log| && log[i].CancelledTrue? && In(s, r) && r.id == log[i].id ==> !Armed(r))
  }

  ghost predicate Logged(s: State) {
    && Orderly(s.log)
    && (forall i :: 0 <= i < |s.log| ==> s.log[i].id < s.nextId && (s.log[i].Ran? ==> s.log[i].now <= s.generation))
    && EntriesOk(s.log, s)
    && (s.faults == 0 ==>
          forall i :: 0 <= i < |s.log| && s.log[i].Ran? && s.log[i].now == s.generation ==> s.log[i].owned)
  }

  ghost predicate Owns(s: State, r: Req) { r.callback in s.registry && s.registry[r.callback] == r.id }

  ghost predicate Held(s: State, slot: int, id: nat) {
    exists r :: In(s, r) && Wanted(s, r) && r.callback == slot && r.id == id
  }

  /** References of the present Lua state: what a place holds it owns, and what is owned is held or leaked. */
  ghost predicate Conserved(s: State) {
    && (forall r :: In(s, r) && Wanted(s, r) ==> Owns(s, r))
    && (forall slot :: slot in s.registry ==> s.registry[slot] in s.leaked || Held(s, slot, s.registry[slot]))
  }

  ghost predicate Owning(s: State) {
    && (forall slot :: slot in s.registry ==> slot >= 0 && s.registry[slot] < s.nextId)
    && (forall slot, r :: slot in s.registry && In(s, r) && r.id == s.registry[slot] ==> r.generation == s.generation)
    && (forall id :: id in s.leaked ==> id < s.nextId)
    && (forall r :: In(s, r) && r.id in s.leaked ==> !Armed(r))
    && (s.faults == 0 ==> Conserved(s))
  }

  ghost predicate Inv(s: State) { Placed(s) && Logged(s) && Owning(s) }

  // ---------------------------------------------------------------------------
  // Ids

  lemma CountSnoc(l: seq<Req>, r: Req, id: nat)
    ensures Count(l + [r], id) == Count(l, id) + if r.id == id then 1 else 0
  {
    assert (l + [r])[..|l|] == l;
  }

  lemma {:induction false} CountErase(l: seq<Req>, i: nat, id: nat)
    requires i < |l|
    ensures Count(l, id) == Count(Erase(l, i), id) + if l[i].id == id then 1 else 0
    decreases |l|
  {
    var n := |l| - 1;
    if i < n {
      CountErase(l[..n], i, id);
      EraseFront(l, i);
      CountSnoc(Erase(l[..n], i), l[n], id);
    } else {
      assert Erase(l, n) == l[..n];
    }
  }

  lemma EraseFront(l: seq<Req>, i: nat)
    requires i < |l| - 1
    ensures Erase(l, i) == Erase(l[..|l| - 1], i) + [l[|l| - 1]]
  {
  }

  lemma {:induction false} IdIn(l: seq<Req>, r: Req)
    requires r in l
    ensures Count(l, r.id) >= 1
    decreases |l|
  {
    var n := |l| - 1;
    if l[n].id != r.id {
      assert l == l[..n] + [l[n]];
      IdIn(l[..n], r);
    }
  }

  lemma {:induction false} WhoseId(l: seq<Req>, id: nat) returns (r: Req)
    requires Count(l, id) > 0
    ensures r in l && r.id == id
    decreases |l|
  {
    var n := |l| - 1;
    r := l[n];
    if l[n].id != id { r := WhoseId(l[..n], id); }
  }

  lemma {:induction false} CountSplit(l: seq<Req>, plugin: int, id: nat)
    ensures Count(OfPlugin(l, plugin), id) + Count(NotOfPlugin(l, plugin), id) == Count(l, id)
    ensures Count(ArmedOf(l, plugin), id) <= Count(l, id)
    decreases |l|
  {
    if l != [] {
      var n := |l| - 1;
      CountSplit(l[..n], plugin, id);
      CountSnoc(OfPlugin(l[..n], plugin), l[n], id);
      CountSnoc(NotOfPlugin(l[..n], plugin), l[n], id);
      CountSnoc(ArmedOf(l[..n], plugin), l[n], id);
    }
  }

  /** Disarming changes no id. */
  lemma {:induction false} CountSameIds(l: seq<Req>, m: seq<Req>, id: nat)
    requires |l| == |m| && forall i :: 0 <= i < |l| ==> l[i].id == m[i].id
    ensures Count(l, id) == Count(m, id)
    decreases |l|
  {
    if l != [] { CountSameIds(l[..|l| - 1], m[..|m| - 1], id); }
  }

  lemma {:induction false} OfPluginIn(l: seq<Req>, plugin: int, r: Req)
    ensures r in OfPlugin(l, plugin) <==> r in l && r.plugin == plugin
    ensures r in NotOfPlugin(l, plugin) <==> r in l && r.plugin != plugin
    ensures r in ArmedOf(l, plugin) <==> r in l && r.plugin == plugin && Armed(r)
    decreases |l|
  {
    if l != [] {
      OfPluginIn(l[..|l| - 1], plugin, r);
      assert l == l[..|l| - 1] + [l[|l| - 1]];
    }
  }

  /** An id is in one place, so two entries under it are one. */
  lemma Same(s: State, a: Req, b: Req)
    requires forall id: nat :: Everywhere(s, id) <= 1
    requires In(s, a) && In(s, b) && a.id == b.id
    ensures a == b
    ensures a in s.pending <==> b in s.pending
    ensures a in s.running <==> b in s.running
    ensures a in s.done <==> b in s.done
    ensures a in s.batch <==> b in s.batch
  {
    SameIn(s.pending, a, b);
    SameIn(s.running, a, b);
    SameIn(s.done, a, b);
    SameIn(s.batch, a, b);
    forall l | l in {s.pending, s.running, s.done, s.batch}
      ensures (a in l ==> Count(l, a.id) >= 1) && (b in l ==> Count(l, b.id) >= 1)
    {
      if a in l { IdIn(l, a); }
      if b in l { IdIn(l, b); }
    }
    assert Everywhere(s, a.id) <= 1;
  }

  lemma SameIn(l: seq<Req>, a: Req, b: Req)
    requires a.id == b.id
    ensures a in l && b in l && a != b ==> Count(l, a.id) >= 2
  {
    if a in l && b in l && a != b {
      var i :| 0 <= i < |l| && l[i] == a;
      CountErase(l, i, a.id);
      assert b in Erase(l, i) by {
        var j :| 0 <= j < |l| && l[j] == b;
        assert j < i ==> Erase(l, i)[j] == b;
        assert j > i ==> Erase(l, i)[j - 1] == b;
      }
      IdIn(Erase(l, i), b);
    }
  }

  // ---------------------------------------------------------------------------
  // Giving references back

  lemma {:induction false} UnrefFrame(s: State, l: seq<Req>)
    ensures UnrefAll(s, l) == s.(registry := UnrefAll(s, l).registry, faults := UnrefAll(s, l).faults)
    ensures UnrefAll(s, l).faults >= s.faults
    ensures forall slot :: slot in UnrefAll(s, l).registry ==>
      slot in s.registry && UnrefAll(s, l).registry[slot] == s.registry[slot]
    decreases |l|
  {
    if l != [] { UnrefFrame(s, l[..|l| - 1]); }
  }

  ghost function Slots(l: seq<Req>): set<int> { set r | r in l :: r.callback }

  lemma UnrefOne(s: State, l: seq<Req>)
    requires l != []
    ensures UnrefAll(s, l) == Unref(UnrefAll(s, l[..|l| - 1]), l[|l| - 1])
  {
  }

  lemma OtherSlots(s: State, l: seq<Req>, r: Req)
    requires (forall x :: x in l ==> Owns(s, x)) && Owns(s, r) && Count(l, r.id) == 0
    ensures forall x :: x in l ==> x.callback != r.callback
  {
    forall x | x in l ensures x.callback != r.callback { IdIn(l, x); }
  }

  lemma {:induction false} OwnersUnrefSlots(s: State, l: seq<Req>)
    requires forall r :: r in l ==> Owns(s, r)
    requires forall id: nat :: Count(l, id) <= 1
    ensures UnrefAll(s, l).faults == s.faults
    ensures forall slot ::
              slot in UnrefAll(s, l).registry <==> slot in s.registry && forall r :: r in l ==> r.callback != slot
    decreases |l|
  {
    if l != [] {
      var n := |l| - 1;
      var front, r := l[..n], l[n];
      assert l == front + [r];
      forall id: nat ensures Count(front, id) <= 1 { assert Count(l, id) <= 1; }
      assert Count(l, r.id) <= 1;
      OwnersUnrefSlots(s, front);
      UnrefFrame(s, front);
      OtherSlots(s, front, r);
      UnrefOne(s, l);
      assert Owns(UnrefAll(s, front), r);
    }
  }

  /** Owners give back exactly their own. */
  lemma OwnersUnref(s: State, l: seq<Req>)
    requires forall r :: r in l ==> Owns(s, r)
    requires forall id: nat :: Count(l, id) <= 1
    ensures UnrefAll(s, l).faults == s.faults
    ensures UnrefAll(s, l).registry == s.registry - Slots(l)
  {
    OwnersUnrefSlots(s, l);
    UnrefFrame(s, l);
    var a, b := UnrefAll(s, l).registry, s.registry - Slots(l);
    forall slot ensures slot in a <==> slot in b {
      if slot in Slots(l) { var r :| r in l && r.callback == slot; }
    }
    assert forall slot :: slot in a ==> a[slot] == b[slot];
  }

  /** One that does not own is one fault at least. */
  lemma {:induction false} StrangerUnref(s: State, l: seq<Req>, r: Req)
    requires r in l && !Owns(s, r)
    ensures UnrefAll(s, l).faults > s.faults
    decreases |l|
  {
    var n := |l| - 1;
    UnrefFrame(s, l[..n]);
    if l[n] != r { StrangerUnref(s, l[..n], r); }
  }

  // ---------------------------------------------------------------------------
  // Where entries come from

  ghost predicate FromIn(s: State, r': Req) {
    exists r :: In(s, r) && (r' == r || r' == r.(callback := NOREF))
  }

  lemma Origin(s: State, step: Step, r': Req)
    requires Enabled(s, step) && In(Next(s, step), r')
    ensures FromIn(s, r') || (step.Queue? && r' == Req(s.nextId, step.plugin, s.generation, step.slot))
  {
    match step
    case CancelPending(id) =>
      assert In(s, r');
    case CancelDone =>
      if r' in Next(s, step).done {
        var i :| 0 <= i < |s.done| && r' == DisarmId(s.done, s.game.id)[i];
        assert In(s, s.done[i]);
      } else { assert In(s, r'); }
    case RemoveDone =>
      UnrefFrame(s, ArmedOf(s.done, s.game.plugin));
      if r' in Next(s, step).done {
        var i :| 0 <= i < |s.done| && r' == DisarmPlugin(s.done, s.game.plugin)[i];
        assert In(s, s.done[i]);
      } else { assert In(s, r'); }
    case RemovePending(plugin) =>
      UnrefFrame(s, OfPlugin(s.pending, plugin));
      OfPluginIn(s.pending, plugin, r');
      assert In(s, r');
    case Queue(plugin, slot) =>
      if r' != Req(s.nextId, step.plugin, s.generation, step.slot) { assert In(s, r'); }
    case Take => assert In(s, r');
    case Finish(worker) => assert In(s, r');
    case Swap => assert In(s, r');
    case Begin => assert In(s, r');
    case EndCall => assert In(s, r');
    case ResetPending => assert In(s, r');
    case ResetDone => assert In(s, r');
  }

  /** Nothing is ever duplicated; only queueing brings an id in. */
  lemma IdsMove(s: State, step: Step, id: nat)
    requires Enabled(s, step)
    ensures Everywhere(Next(s, step), id) <= Everywhere(s, id) + if step.Queue? && id == s.nextId then 1 else 0
  {
    match step
    case Queue(plugin, slot) => CountSnoc(s.pending, Req(s.nextId, plugin, s.generation, slot), id);
    case Take => TakeMoves(s, id);
    case Finish(worker) => FinishMoves(s, worker, id);
    case CancelPending(c) => CancelMoves(s, c, id);
    case CancelDone => CountSameIds(s.done, DisarmId(s.done, s.game.id), id);
    case RemovePending(plugin) => RemovePendingMoves(s, plugin, id);
    case RemoveDone => RemoveDoneMoves(s, id);
    case Begin => DropHead(s.batch, id);
    case EndCall => DropHead(s.batch, id);
    case _ =>
  }

  lemma TakeMoves(s: State, id: nat)
    requires Enabled(s, Take)
    ensures Everywhere(Next(s, Take), id) == Everywhere(s, id)
  {
    DropHead(s.pending, id);
    CountSnoc(s.running, s.pending[0], id);
  }

  lemma CancelMoves(s: State, c: nat, id: nat)
    requires Enabled(s, CancelPending(c))
    ensures Everywhere(Next(s, CancelPending(c)), id) <= Everywhere(s, id)
  {
    var i := Index(s.pending, c);
    if i < |s.pending| { CountErase(s.pending, i, id); }
  }

  lemma RemovePendingMoves(s: State, plugin: int, id: nat)
    requires Enabled(s, RemovePending(plugin))
    ensures Everywhere(Next(s, RemovePending(plugin)), id) <= Everywhere(s, id)
  {
    CountSplit(s.pending, plugin, id);
    UnrefFrame(s, OfPlugin(s.pending, plugin));
  }

  lemma RemoveDoneMoves(s: State, id: nat)
    requires Enabled(s, RemoveDone)
    ensures Everywhere(Next(s, RemoveDone), id) == Everywhere(s, id)
  {
    CountSameIds(s.done, DisarmPlugin(s.done, s.game.plugin), id);
    UnrefFrame(s, ArmedOf(s.done, s.game.plugin));
  }

  lemma FinishMoves(s: State, worker: nat, id: nat)
    requires Enabled(s, Finish(worker))
    ensures Everywhere(Next(s, Finish(worker)), id) == Everywhere(s, id)
  {
    CountErase(s.running, worker, id);
    CountSnoc(s.done, s.running[worker], id);
  }

  lemma DropHead(l: seq<Req>, id: nat)
    requires l != []
    ensures Count(l, id) == Count(l[1..], id) + if l[0].id == id then 1 else 0
  {
    CountErase(l, 0, id);
    assert Erase(l, 0) == l[1..];
  }

  // ---------------------------------------------------------------------------
  // What steps do to places and counters, whichever step it is

  ghost predicate Moves(s: State, s': State, queues: bool) {
    && (forall id: nat :: Everywhere(s', id) <= Everywhere(s, id) + if queues && id == s.nextId then 1 else 0)
    && (forall r' :: In(s', r') ==> FromIn(s, r') || (queues && r'.id == s.nextId && r'.generation == s.generation))
    && s'.nextId == s.nextId + (if queues then 1 else 0)
    && s'.generation >= s.generation
  }

  lemma StepMoves(s: State, step: Step)
    requires Enabled(s, step)
    ensures Moves(s, Next(s, step), step.Queue?)
  {
    var s' := Next(s, step);
    forall id: nat ensures Everywhere(s', id) <= Everywhere(s, id) + if step.Queue? && id == s.nextId then 1 else 0 {
      IdsMove(s, step, id);
    }
    forall r' | In(s', r')
      ensures FromIn(s, r') || (step.Queue? && r'.id == s.nextId && r'.generation == s.generation)
    {
      Origin(s, step, r');
    }
    Frame(s, step);
  }

  /** The counters, and what giving references back leaves alone. */
  lemma Frame(s: State, step: Step)
    requires Enabled(s, step)
    ensures var s' := Next(s, step);
      && s'.nextId == s.nextId + (if step.Queue? then 1 else 0)
      && s'.generation == s.generation + (if step.ResetPending? then 1 else 0)
      && (s'.faults >= s.faults || step.ResetPending?)
      && (step.RemovePending? ==> s' == s.(registry := s'.registry, faults := s'.faults,
            pending := NotOfPlugin(s.pending, step.plugin), game := Removing(step.plugin)))
      && (step.RemoveDone? ==> s' == s.(registry := s'.registry, faults := s'.faults,
            done := DisarmPlugin(s.done, s.game.plugin), game := Free))
  {
    if step.RemovePending? { UnrefFrame(s, OfPlugin(s.pending, step.plugin)); }
    if step.RemoveDone? { UnrefFrame(s, ArmedOf(s.done, s.game.plugin)); }
  }

  /** The id counter is ahead of every id. */
  lemma FreshId(s: State)
    requires Placed(s)
    ensures Everywhere(s, s.nextId) == 0
  {
    if Count(s.pending, s.nextId) > 0 { var r := WhoseId(s.pending, s.nextId); assert In(s, r); }
    if Count(s.running, s.nextId) > 0 { var r := WhoseId(s.running, s.nextId); assert In(s, r); }
    if Count(s.done, s.nextId) > 0 { var r := WhoseId(s.done, s.nextId); assert In(s, r); }
    if Count(s.batch, s.nextId) > 0 { var r := WhoseId(s.batch, s.nextId); assert In(s, r); }
  }

  lemma Gone(s: State, id: nat)
    requires Everywhere(s, id) == 0
    ensures forall r :: In(s, r) ==> r.id != id
  {
    forall r | In(s, r) ensures r.id != id {
      if r in s.pending { IdIn(s.pending, r); }
      if r in s.running { IdIn(s.running, r); }
      if r in s.done { IdIn(s.done, r); }
      if r in s.batch { IdIn(s.batch, r); }
    }
  }

  /** An entry one place loses is nowhere. */
  lemma GoneWith(s: State, s': State, r: Req)
    requires Placed(s) && In(s, r) && Everywhere(s, r.id) > Everywhere(s', r.id)
    ensures forall r' :: In(s', r') ==> r'.id != r.id
  {
    assert Everywhere(s, r.id) <= 1;
    Gone(s', r.id);
  }

  // ---------------------------------------------------------------------------
  // Places

  lemma OncePerId(s: State, s': State, queues: bool)
    requires Placed(s) && Moves(s, s', queues)
    ensures forall id: nat :: Everywhere(s', id) <= 1
    ensures forall r :: In(s', r) ==> r.id < s'.nextId && r.generation <= s'.generation
  {
    FreshId(s);
    forall r' | In(s', r') ensures r'.id < s'.nextId && r'.generation <= s'.generation {
      if FromIn(s, r') {
        var r :| In(s, r) && (r' == r || r' == r.(callback := NOREF));
      }
    }
  }

  lemma PendingKept(s: State, step: Step, r': Req)
    requires Placed(s) && Enabled(s, step) && r' in Next(s, step).pending
    ensures var s' := Next(s, step);
      Wanted(s', r') && (s'.game.Removing? ==> r'.plugin != s'.game.plugin)
          && (s'.game.Cancelling? ==> r'.id != s'.game.id)
  {
    match step
    case RemovePending(plugin) =>
      OfPluginIn(s.pending, plugin, r');
      UnrefFrame(s, OfPlugin(s.pending, plugin));
    case RemoveDone => UnrefFrame(s, ArmedOf(s.done, s.game.plugin));
    case Queue(plugin, slot) => assert r' == Req(s.nextId, plugin, s.generation, slot) || r' in s.pending;
    case _ => assert r' in s.pending;
  }

  lemma WorkersAndCall(s: State, step: Step)
    requires Placed(s) && Enabled(s, step)
    ensures var s' := Next(s, step);
      |s'.running| <= WORKER_COUNT && (s'.calling ==> s'.batch != [] && Wanted(s', s'.batch[0]))
  {
    Frame(s, step);
  }

  lemma PlacedKept(s: State, step: Step)
    requires Placed(s) && Enabled(s, step)
    ensures Placed(Next(s, step))
  {
    StepMoves(s, step);
    OncePerId(s, Next(s, step), step.Queue?);
    var s' := Next(s, step);
    forall r' | r' in s'.pending
      ensures Wanted(s', r') && (s'.game.Removing? ==> r'.plugin != s'.game.plugin)
      ensures s'.game.Cancelling? ==> r'.id != s'.game.id
    {
      PendingKept(s, step, r');
    }
    WorkersAndCall(s, step);
    WhileResetting(s, step);
  }

  lemma WhileResetting(s: State, step: Step)
    requires Placed(s) && Enabled(s, step)
    ensures var s' := Next(s, step);
      s'.game.Resetting? ==> s'.pending == [] && forall r :: In(s', r) ==> r.generation < s'.generation
  {
    Frame(s, step);
    if Next(s, step).game.Resetting? {
      assert step.Take? || step.Finish? || step.ResetPending?;
    }
  }

  // ---------------------------------------------------------------------------
  // The log

  /** A call under way goes on, or its request is gone. */
  ghost predicate CallGoesOn(s: State, s': State) {
    s.calling ==>
      s.batch != [] && ((s'.calling && s'.batch == s.batch) || forall r' :: In(s', r') ==> r'.id != s.batch[0].id)
  }

  ghost predicate RanNow(s: State, s': State, e: Event) {
    && e.Ran? && !s.calling && s.batch != [] && Wanted(s, s.batch[0])
    && s' == s.(calling := true, log := s.log + [e])
    && e == Ran(s.batch[0].id, s.batch[0].generation, s.generation, Owns(s, s.batch[0]))
  }

  ghost predicate CancelledNow(s: State, s': State, e: Event) {
    && e.CancelledTrue? && s'.log == s.log + [e] && s'.faults >= s.faults && s'.generation == s.generation
    && (exists r :: In(s, r) && r !in s.batch && r.id == e.id)
    && (forall r' :: In(s', r') && r'.id == e.id ==> !Armed(r'))
  }

  ghost predicate LogsAs(s: State, s': State) {
    || s'.log == s.log
    || (exists e :: RanNow(s, s', e))
    || (exists e :: CancelledNow(s, s', e))
  }

  lemma CallKept(s: State, step: Step)
    requires Placed(s) && Enabled(s, step)
    ensures CallGoesOn(s, Next(s, step))
  {
    Frame(s, step);
    if step.EndCall? {
      DropHead(s.batch, s.batch[0].id);
      assert In(s, s.batch[0]);
      GoneWith(s, Next(s, step), s.batch[0]);
    }
  }

  lemma StepLogs(s: State, step: Step)
    requires Placed(s) && Enabled(s, step)
    ensures LogsAs(s, Next(s, step))
    ensures Next(s, step).log == s.log || step.Begin? || step.CancelPending? || step.CancelDone?
  {
    Frame(s, step);
    if step.Begin? && Wanted(s, s.batch[0]) {
      assert RanNow(s, Next(s, step), Next(s, step).log[|s.log|]);
    } else if step.CancelPending? {
      CancelPendingLogs(s, step.id);
    } else if step.CancelDone? {
      CancelDoneLogs(s);
    }
  }

  lemma CancelPendingLogs(s: State, id: nat)
    requires Placed(s) && Enabled(s, CancelPending(id))
    ensures LogsAs(s, Next(s, CancelPending(id)))
  {
    var s', i := Next(s, CancelPending(id)), Index(s.pending, id);
    if i < |s.pending| {
      var r := s.pending[i];
      assert In(s, r);
      CountErase(s.pending, i, r.id);
      GoneWith(s, s', r);
      NotBoth(s, r);
      assert CancelledNow(s, s', CancelledTrue(id));
    }
  }

  lemma CancelDoneLogs(s: State)
    requires Placed(s) && Enabled(s, CancelDone)
    ensures LogsAs(s, Next(s, CancelDone))
  {
    var s', id := Next(s, CancelDone), s.game.id;
    var i := Index(s.done, id);
    if i < |s.done| {
      var d := s.done[i];
      assert In(s, d);
      OnlyDone(s, d);
      forall r' | In(s', r') && r'.id == id ensures !Armed(r') {
        if r' in s.pending || r' in s.running || r' in s.batch { Same(s, r', d); }
      }
      assert CancelledNow(s, s', CancelledTrue(id));
    }
  }

  /** What is queued or answered is not also in the batch. */
  lemma NotBoth(s: State, r: Req)
    requires Placed(s) && (r in s.pending || r in s.done)
    ensures r !in s.batch
  {
    assert Everywhere(s, r.id) <= 1;
    if r in s.pending { IdIn(s.pending, r); } else { IdIn(s.done, r); }
    if r in s.batch { IdIn(s.batch, r); }
  }

  lemma OnlyDone(s: State, r: Req)
    requires Placed(s) && r in s.done
    ensures r !in s.pending && r !in s.running && r !in s.batch
  {
    assert Everywhere(s, r.id) <= 1;
    IdIn(s.done, r);
    if r in s.pending { IdIn(s.pending, r); }
    if r in s.running { IdIn(s.running, r); }
    if r in s.batch { IdIn(s.batch, r); }
  }

  lemma EntryLogged(s: State, s': State, e: Event, r': Req)
    requires Inv(s) && Placed(s') && CallGoesOn(s, s') && FromIn(s, r') && In(s', r') && r'.id == e.id
    requires e.Ran? ==> forall r :: In(s, r) && r.id == e.id ==> s.calling && s.batch != [] && r == s.batch[0]
    requires e.CancelledTrue? ==> forall r :: In(s, r) && r.id == e.id ==> !Armed(r)
    ensures e.Ran? ==> s'.calling && s'.batch != [] && r' == s'.batch[0]
    ensures e.CancelledTrue? ==> !Armed(r')
  {
    var r :| In(s, r) && (r' == r || r' == r.(callback := NOREF));
    if e.Ran? {
      assert r == s.batch[0] && In(s', s'.batch[0]);
      Same(s', r', s'.batch[0]);
    }
  }

  lemma EntriesLogged(s: State, s': State, queues: bool)
    requires Inv(s) && Placed(s') && Moves(s, s', queues) && CallGoesOn(s, s')
    ensures EntriesOk(s.log, s')
  {
    forall i, r' | 0 <= i < |s.log| && In(s', r') && r'.id == s.log[i].id
      ensures s.log[i].Ran? ==> s'.calling && s'.batch != [] && r' == s'.batch[0]
      ensures s.log[i].CancelledTrue? ==> !Armed(r')
    {
      assert FromIn(s, r');
      EntryLogged(s, s', s.log[i], r');
    }
  }

  lemma LoggedQuiet(s: State, s': State, queues: bool)
    requires Inv(s) && Placed(s') && Moves(s, s', queues) && CallGoesOn(s, s') && s'.log == s.log
    requires s'.generation == s.generation ==> s'.faults >= s.faults
    ensures Logged(s')
  {
    EntriesLogged(s, s', queues);
  }

  lemma LoggedRan(s: State, s': State, e: Event)
    requires Inv(s) && Placed(s') && RanNow(s, s', e)
    ensures Logged(s')
  {
    assert In(s, s.batch[0]) && In(s', s.batch[0]);
    forall r' | In(s', r') ensures In(s, r') && (r'.id == e.id ==> r' == s'.batch[0]) {
      if r'.id == e.id { Same(s', r', s'.batch[0]); }
    }
  }

  lemma OrderlyCancel(log: seq<Event>, e: Event)
    requires Orderly(log) && e.CancelledTrue?
    requires forall i :: 0 <= i < |log| && log[i].Ran? ==> log[i].id != e.id
    ensures Orderly(log + [e])
  {
  }

  lemma LoggedCancel(s: State, s': State, e: Event)
    requires Inv(s) && EntriesOk(s.log, s') && CancelledNow(s, s', e) && s'.nextId == s.nextId
    ensures Logged(s')
  {
    var r :| In(s, r) && r !in s.batch && r.id == e.id;
    OrderlyCancel(s.log, e);
    assert EntriesOk(s.log + [e], s');
  }

  lemma LoggedKept(s: State, step: Step)
    requires Inv(s) && Enabled(s, step)
    ensures Logged(Next(s, step))
  {
    var s' := Next(s, step);
    PlacedKept(s, step);
    StepMoves(s, step);
    CallKept(s, step);
    StepLogs(s, step);
    Frame(s, step);
    if s'.log == s.log { LoggedQuiet(s, s', step.Queue?); }
    else if e :| RanNow(s, s', e) { LoggedRan(s, s', e); }
    else if e :| CancelledNow(s, s', e) {
      EntriesLogged(s, s', step.Queue?);
      LoggedCancel(s, s', e);
    }
  }

  // ---------------------------------------------------------------------------
  // References

  /** Answers to an earlier Lua state that a removal of `plugin` would still find armed. */
  ghost predicate StaleArmed(s: State, plugin: int) {
    exists r :: r in s.done && r.plugin == plugin && Armed(r) && r.generation != s.generation
  }

  /** Giving back what one does not own: exactly plugin removal meeting an armed answer to an earlier Lua state. */
  lemma FaultExactly(s: State, step: Step)
    requires Inv(s) && Enabled(s, step) && s.faults == 0
    ensures Next(s, step).faults > 0 <==> step.RemoveDone? && StaleArmed(s, s.game.plugin)
  {
    match step
    case RemoveDone => RemoveDoneFaults(s);
    case RemovePending(plugin) => PendingOwned(s, plugin);
    case CancelPending(id) =>
      var i := Index(s.pending, id);
      if i < |s.pending| { assert In(s, s.pending[i]); }
    case EndCall => assert In(s, s.batch[0]);
    case _ =>
  }

  lemma PendingOwned(s: State, plugin: int)
    requires Inv(s) && s.faults == 0
    ensures UnrefAll(s, OfPlugin(s.pending, plugin)).faults == 0
    ensures UnrefAll(s, OfPlugin(s.pending, plugin)).registry == s.registry - Slots(OfPlugin(s.pending, plugin))
  {
    var l := OfPlugin(s.pending, plugin);
    forall r | r in l ensures Owns(s, r) { OfPluginIn(s.pending, plugin, r); assert In(s, r); }
    forall id: nat ensures Count(l, id) <= 1 {
      CountSplit(s.pending, plugin, id);
      assert Everywhere(s, id) <= 1;
    }
    OwnersUnref(s, l);
  }

  lemma DoneOwned(s: State, plugin: int)
    requires Inv(s) && s.faults == 0 && !StaleArmed(s, plugin)
    ensures UnrefAll(s, ArmedOf(s.done, plugin)).faults == 0
    ensures UnrefAll(s, ArmedOf(s.done, plugin)).registry == s.registry - Slots(ArmedOf(s.done, plugin))
  {
    var l := ArmedOf(s.done, plugin);
    forall r | r in l ensures Owns(s, r) { OfPluginIn(s.done, plugin, r); assert In(s, r); }
    forall id: nat ensures Count(l, id) <= 1 {
      CountSplit(s.done, plugin, id);
      assert Everywhere(s, id) <= 1;
    }
    OwnersUnref(s, l);
  }

  lemma RemoveDoneFaults(s: State)
    requires Inv(s) && Enabled(s, RemoveDone) && s.faults == 0
    ensures Next(s, RemoveDone).faults > 0 <==> StaleArmed(s, s.game.plugin)
  {
    var plugin := s.game.plugin;
    if StaleArmed(s, plugin) {
      var r :| r in s.done && r.plugin == plugin && Armed(r) && r.generation != s.generation;
      OfPluginIn(s.done, plugin, r);
      assert In(s, r);
      StrangerUnref(s, ArmedOf(s.done, plugin), r);
    } else {
      DoneOwned(s, plugin);
    }
  }

  ghost predicate Shrinks(s: State, s': State) {
    forall slot :: slot in s'.registry ==> slot in s.registry && s'.registry[slot] == s.registry[slot]
  }

  lemma StepShrinks(s: State, step: Step)
    requires Enabled(s, step) && !step.Queue?
    ensures Shrinks(s, Next(s, step))
    ensures step.ResetPending? || Next(s, step).generation == s.generation
    ensures step.ResetPending? || step.CancelDone? || Next(s, step).leaked == s.leaked
  {
    if step.RemovePending? { UnrefFrame(s, OfPlugin(s.pending, step.plugin)); }
    if step.RemoveDone? { UnrefFrame(s, ArmedOf(s.done, s.game.plugin)); }
  }

  /** The unconditional part of Owning. */
  ghost predicate Owners(s: State) {
    && (forall slot :: slot in s.registry ==> slot >= 0 && s.registry[slot] < s.nextId)
    && (forall slot, r :: slot in s.registry && In(s, r) && r.id == s.registry[slot] ==> r.generation == s.generation)
    && (forall id :: id in s.leaked ==> id < s.nextId)
    && (forall r :: In(s, r) && r.id in s.leaked ==> !Armed(r))
  }

  lemma OwnersBy(s: State, s': State)
    requires Inv(s) && Moves(s, s', false) && Shrinks(s, s') && s'.generation == s.generation
    requires s'.leaked == s.leaked || forall r :: In(s', r) && r.id in s'.leaked - s.leaked ==> !Armed(r)
    requires forall id :: id in s'.leaked ==> id < s'.nextId
    ensures Owners(s')
  {
    forall r' | In(s', r')
      ensures r'.id in s'.leaked ==> !Armed(r')
      ensures forall slot :: slot in s'.registry && r'.id == s'.registry[slot] ==> r'.generation == s'.generation
    {
      var r :| In(s, r) && (r' == r || r' == r.(callback := NOREF));
    }
  }

  lemma OwnersKept(s: State, step: Step)
    requires Inv(s) && Enabled(s, step)
    ensures Owners(Next(s, step))
  {
    var s' := Next(s, step);
    if step.Queue? {
      OwnersQueue(s, step.plugin, step.slot);
    } else if !step.ResetPending? {
      StepMoves(s, step);
      StepShrinks(s, step);
      if step.CancelDone? { LeaksDisarmed(s); }
      OwnersBy(s, s');
    }
  }

  lemma OwnersQueue(s: State, plugin: int, slot: int)
    requires Inv(s) && Enabled(s, Queue(plugin, slot))
    ensures Owners(Next(s, Queue(plugin, slot)))
  {
    var s' := Next(s, Queue(plugin, slot));
    forall r' | In(s', r') ensures In(s, r') || r' == Req(s.nextId, plugin, s.generation, slot) {
      assert r' in s'.pending ==> r' in s.pending || r' == Req(s.nextId, plugin, s.generation, slot);
    }
  }

  lemma LeaksDisarmed(s: State)
    requires Placed(s) && Enabled(s, CancelDone)
    ensures var s' := Next(s, CancelDone); var new_ := LeakedBy(s, s.done, s.game.id);
      (forall r :: In(s', r) && r.id in new_ ==> !Armed(r)) && (forall id :: id in new_ ==> id < s.nextId)
  {
    var s' := Next(s, CancelDone);
    forall r' | In(s', r') && r'.id in LeakedBy(s, s.done, s.game.id) ensures !Armed(r') {
      var d :| d in s.done && d.id == r'.id && d.id == s.game.id;
      assert In(s, d);
      OnlyDone(s, d);
      if r' in s.pending || r' in s.running || r' in s.batch { Same(s, r', d); }
    }
    forall id | id in LeakedBy(s, s.done, s.game.id) ensures id < s.nextId {
      var d :| d in s.done && d.id == id;
      assert In(s, d);
    }
  }

  /** s' is s without the wanted entries `l`, whose references were given back or, if `leaks`, forgotten. */
  ghost predicate Drops(s: State, s': State, l: set<Req>, leaks: bool) {
    && s'.generation == s.generation
    && (forall r :: r in l ==> In(s, r) && Wanted(s, r))
    && (forall r :: Wanted(s, r) ==> (In(s', r) <==> In(s, r) && r !in l))
    && s'.registry == s.registry - (if leaks then {} else set r | r in l :: r.callback)
    && s'.leaked == s.leaked + (if leaks then set r | r in l :: r.id else {})
  }

  lemma ConservedDrop(s: State, s': State, l: set<Req>, leaks: bool)
    requires Placed(s) && Conserved(s) && Drops(s, s', l, leaks)
    ensures Conserved(s')
  {
    forall r | In(s', r) && Wanted(s', r) ensures Owns(s', r) {
      assert Owns(s, r);
      forall r0 | r0 in l && !leaks ensures r0.callback != r.callback {
        assert Owns(s, r0);
        if r0.id == r.id { Same(s, r0, r); }
      }
    }
    forall slot | slot in s'.registry ensures s'.registry[slot] in s'.leaked || Held(s', slot, s'.registry[slot]) {
      if s.registry[slot] !in s'.leaked {
        var r :| In(s, r) && Wanted(s, r) && r.callback == slot && r.id == s.registry[slot];
        assert In(s', r) && Wanted(s', r);
      }
    }
  }

  lemma DropsRemovePending(s: State, s': State, plugin: int)
    requires Placed(s)
    requires s' == s.(registry := s.registry - Slots(OfPlugin(s.pending, plugin)),
                      pending := NotOfPlugin(s.pending, plugin), game := Removing(plugin))
    ensures Drops(s, s', set r | r in OfPlugin(s.pending, plugin), false)
  {
    var l := set r | r in OfPlugin(s.pending, plugin);
    assert Slots(OfPlugin(s.pending, plugin)) == set r | r in l :: r.callback;
    forall r ensures (r in l ==> In(s, r) && Wanted(s, r)) && (Wanted(s, r) ==> (In(s', r) <==> In(s, r) && r !in l)) {
      LeavesPending(s, s', plugin, r);
    }
  }

  lemma LeavesPending(s: State, s': State, plugin: int, r: Req)
    requires Placed(s) && s'.pending == NotOfPlugin(s.pending, plugin)
    requires s'.running == s.running && s'.done == s.done && s'.batch == s.batch
    ensures r in OfPlugin(s.pending, plugin) ==> In(s, r) && Wanted(s, r)
    ensures In(s', r) <==> In(s, r) && r !in OfPlugin(s.pending, plugin)
  {
    OfPluginIn(s.pending, plugin, r);
    if r in s.pending { OnlyPending(s, r); }
  }

  lemma LeavesDone(s: State, s': State, plugin: int, r: Req)
    requires Placed(s) && s'.done == DisarmPlugin(s.done, plugin)
    requires s'.running == s.running && s'.pending == s.pending && s'.batch == s.batch
    ensures r in ArmedOf(s.done, plugin) ==> r in s.done && r.plugin == plugin && Armed(r)
    ensures Armed(r) ==> (In(s', r) <==> In(s, r) && r !in ArmedOf(s.done, plugin))
  {
    OfPluginIn(s.done, plugin, r);
    if Armed(r) { DisarmedIn(s, plugin, r); }
    if r in s.done { OnlyDone(s, r); }
  }

  lemma OnlyPending(s: State, r: Req)
    requires Placed(s) && r in s.pending
    ensures r !in s.done && r !in s.running && r !in s.batch
  {
    assert Everywhere(s, r.id) <= 1;
    IdIn(s.pending, r);
    if r in s.done { IdIn(s.done, r); }
    if r in s.running { IdIn(s.running, r); }
    if r in s.batch { IdIn(s.batch, r); }
  }

  lemma DisarmedIn(s: State, plugin: int, r: Req)
    requires Armed(r)
    ensures r in DisarmPlugin(s.done, plugin) <==> r in s.done && r.plugin != plugin
    ensures forall id :: r in DisarmId(s.done, id) <==> r in s.done && r.id != id
  {
    if r in s.done {
      var i :| 0 <= i < |s.done| && s.done[i] == r;
      assert DisarmPlugin(s.done, plugin)[i] == DisarmIf(r, r.plugin == plugin);
      assert forall id :: DisarmId(s.done, id)[i] == DisarmIf(r, r.id == id);
    }
  }

  lemma DropsRemoveDone(s: State, s': State, plugin: int)
    requires Placed(s) && !StaleArmed(s, plugin)
    requires s' == s.(registry := s.registry - Slots(ArmedOf(s.done, plugin)), done := DisarmPlugin(s.done, plugin),
      game := Free)
    ensures Drops(s, s', set r | r in ArmedOf(s.done, plugin), false)
  {
    var l := set r | r in ArmedOf(s.done, plugin);
    assert Slots(ArmedOf(s.done, plugin)) == set r | r in l :: r.callback;
    forall r ensures (r in l ==> In(s, r) && Wanted(s, r)) && (Wanted(s, r) ==> (In(s', r) <==> In(s, r) && r !in l)) {
      LeavesDone(s, s', plugin, r);
    }
  }

  lemma DropsCancelDone(s: State)
    requires Inv(s) && Enabled(s, CancelDone)
    ensures Drops(s, Next(s, CancelDone), set r | r in s.done && r.id == s.game.id && Wanted(s, r), true)
  {
    var s', l := Next(s, CancelDone), set r | r in s.done && r.id == s.game.id && Wanted(s, r);
    forall r | Wanted(s, r) ensures In(s', r) <==> In(s, r) && r !in l {
      DisarmedIn(s, 0, r);
      if r in s.done { OnlyDone(s, r); }
    }
    assert LeakedBy(s, s.done, s.game.id) == set r | r in l :: r.id;
  }

  lemma DropsCancelPending(s: State, id: nat)
    requires Inv(s) && Enabled(s, CancelPending(id)) && s.faults == 0 && Index(s.pending, id) < |s.pending|
    ensures Drops(s, Next(s, CancelPending(id)), {s.pending[Index(s.pending, id)]}, false)
  {
    var s', i := Next(s, CancelPending(id)), Index(s.pending, id);
    var p := s.pending[i];
    assert In(s, p) && Owns(s, p);
    OnlyPending(s, p);
    CancelDrops(s, id);
    forall r | r != p ensures r in s'.pending <==> r in s.pending { ErasedIn(s.pending, i, r); }
    assert (set r | r in {p} :: r.callback) == {p.callback};
  }

  lemma ErasedIn(l: seq<Req>, i: nat, r: Req)
    requires i < |l| && r != l[i]
    ensures r in Erase(l, i) <==> r in l
  {
    assert l == l[..i] + [l[i]] + l[i + 1..];
  }

  lemma CancelDrops(s: State, id: nat)
    requires Placed(s) && Enabled(s, CancelPending(id)) && Index(s.pending, id) < |s.pending|
    ensures !In(Next(s, CancelPending(id)), s.pending[Index(s.pending, id)])
  {
    var i := Index(s.pending, id);
    CountErase(s.pending, i, s.pending[i].id);
    assert In(s, s.pending[i]);
    GoneWith(s, Next(s, CancelPending(id)), s.pending[i]);
  }

  lemma DropsEndCall(s: State)
    requires Inv(s) && Enabled(s, EndCall) && s.faults == 0
    ensures Drops(s, Next(s, EndCall), {s.batch[0]}, false)
  {
    var s', b := Next(s, EndCall), s.batch[0];
    assert In(s, b) && Owns(s, b);
    DropHead(s.batch, b.id);
    GoneWith(s, s', b);
    assert s.batch == [b] + s.batch[1..];
  }

  lemma HeadIn(l: seq<Req>, r: Req)
    requires l != []
    ensures r in l <==> r == l[0] || r in l[1..]
  {
    assert l == [l[0]] + l[1..];
  }

  lemma StaysIn(s: State, step: Step, r: Req)
    requires Inv(s) && Enabled(s, step) && Wanted(s, r)
    requires step.Take? || step.Finish? || step.Swap? || step.Begin? || step.ResetDone?
    ensures In(Next(s, step), r) <==> In(s, r)
  {
    if step.Take? { HeadIn(s.pending, r); }
    if step.Finish? && r != s.running[step.worker] { ErasedIn(s.running, step.worker, r); }
    if step.Begin? { HeadIn(s.batch, r); }
  }

  lemma DropsNothing(s: State, step: Step)
    requires Inv(s) && Enabled(s, step)
    requires step.Take? || step.Finish? || step.Swap? || step.Begin? || step.ResetDone?
    ensures Drops(s, Next(s, step), {}, false)
  {
    forall r | Wanted(s, r) ensures In(Next(s, step), r) <==> In(s, r) { StaysIn(s, step, r); }
  }

  lemma ConservedQueue(s: State, plugin: int, slot: int)
    requires Inv(s) && Enabled(s, Queue(plugin, slot)) && s.faults == 0
    ensures Conserved(Next(s, Queue(plugin, slot)))
  {
    var s', r0 := Next(s, Queue(plugin, slot)), Req(s.nextId, plugin, s.generation, slot);
    assert r0 in s'.pending;
    forall r ensures In(s', r) <==> In(s, r) || r == r0 {
      assert r in s'.pending <==> r in s.pending || r == r0;
    }
    forall r | In(s', r) && Wanted(s', r) ensures Owns(s', r) {
      if r != r0 { assert Owns(s, r); }
    }
    forall x | x in s'.registry ensures s'.registry[x] in s'.leaked || Held(s', x, s'.registry[x]) {
      if x == slot { assert In(s', r0) && Wanted(s', r0); }
      else if s.registry[x] !in s.leaked {
        var r :| In(s, r) && Wanted(s, r) && r.callback == x && r.id == s.registry[x];
        assert In(s', r) && Wanted(s', r);
      }
    }
  }

  /** Every other step takes wanted entries out, giving their references back or forgetting them. */
  lemma StepDrops(s: State, step: Step) returns (l: set<Req>, leaks: bool)
    requires Inv(s) && Enabled(s, step) && s.faults == 0 && Next(s, step).faults == 0
    requires !step.Queue? && !step.ResetPending?
    ensures Drops(s, Next(s, step), l, leaks)
  {
    var s' := Next(s, step);
    l, leaks := {}, step.CancelDone?;
    Frame(s, step);
    match step
    case RemovePending(plugin) =>
      PendingOwned(s, plugin);
      DropsRemovePending(s, s', plugin);
      l := set r | r in OfPlugin(s.pending, plugin);
    case RemoveDone =>
      FaultExactly(s, step);
      DoneOwned(s, s.game.plugin);
      DropsRemoveDone(s, s', s.game.plugin);
      l := set r | r in ArmedOf(s.done, s.game.plugin);
    case CancelPending(id) =>
      var i := Index(s.pending, id);
      if i < |s.pending| {
        DropsCancelPending(s, id);
        l := {s.pending[i]};
      }
    case CancelDone =>
      DropsCancelDone(s);
      l := set r | r in s.done && r.id == s.game.id && Wanted(s, r);
    case EndCall =>
      DropsEndCall(s);
      l := {s.batch[0]};
    case _ => DropsNothing(s, step);
  }

  lemma ConservedKept(s: State, step: Step)
    requires Inv(s) && Enabled(s, step) && Next(s, step).faults == 0
    ensures Conserved(Next(s, step))
  {
    Frame(s, step);
    match step
    case Queue(plugin, slot) => ConservedQueue(s, plugin, slot);
    case ResetPending =>
    case _ =>
      var l, leaks := StepDrops(s, step);
      ConservedDrop(s, Next(s, step), l, leaks);
  }

  // ---------------------------------------------------------------------------
  // Forgotten references

  /** A reference is forgotten by one thing alone: cancelling a request whose answer still waits for the drain and would
      have been called back. */
  lemma LeaksExactly(s: State, step: Step, id: nat)
    requires Inv(s) && Enabled(s, step) && id !in s.leaked
    ensures id in Next(s, step).leaked
      <==> step.CancelDone? && id == s.game.id && exists r :: r in s.done && r.id == id && Wanted(s, r)
  {
    if step.Queue? || step.ResetPending? {
    } else {
      StepShrinks(s, step);
      if step.CancelDone? {
        assert id in LeakedBy(s, s.done, s.game.id)
            <==> exists r :: r in s.done && r.id == s.game.id && Wanted(s, r) && r.id == id;
      }
    }
  }

  /** A slot the registry still has although nobody can be called back through it. */
  ghost predicate Orphan(s: State, slot: int) { slot in s.registry && !Held(s, slot, s.registry[slot]) }

  lemma OrphansLeaked(s: State, slot: int)
    requires Inv(s) && s.faults == 0 && slot in s.registry
    ensures Orphan(s, slot) <==> s.registry[slot] in s.leaked
  {
  }

  /** A slot is orphaned by one thing alone: cancelling a request whose answer still waits for the drain, and would have
      been called back through it. */
  lemma OrphansExactly(s: State, step: Step, slot: int)
    requires Inv(s) && Enabled(s, step) && s.faults == 0 && Next(s, step).faults == 0 && !Orphan(s, slot)
    ensures Orphan(Next(s, step), slot)
      <==> step.CancelDone? && exists r :: r in s.done && r.id == s.game.id && Wanted(s, r) && r.callback == slot
  {
    var s' := Next(s, step);
    StepKeeps(s, step);
    if slot in s.registry { OrphansLeaked(s, slot); }
    if slot in s'.registry { OrphansLeaked(s', slot); }
    if Orphan(s', slot) { OrphanFrom(s, step, slot); }
    if step.CancelDone? {
      forall r | r in s.done && r.id == s.game.id && Wanted(s, r) && r.callback == slot ensures Orphan(s', slot) {
        assert In(s, r) && Owns(s, r);
        LeaksExactly(s, step, r.id);
      }
    }
  }

  lemma OrphanFrom(s: State, step: Step, slot: int)
    requires Inv(s) && Enabled(s, step) && s.faults == 0 && Next(s, step).faults == 0
    requires !Orphan(s, slot) && Orphan(Next(s, step), slot)
    ensures step.CancelDone? && exists r :: r in s.done && r.id == s.game.id && Wanted(s, r) && r.callback == slot
  {
    var s' := Next(s, step);
    var id := s'.registry[slot];
    StepKeeps(s, step);
    OrphansLeaked(s', slot);
    if !step.Queue? {
      StepShrinks(s, step);
      assert slot in s.registry && s.registry[slot] == id;
      OrphansLeaked(s, slot);
      LeaksExactly(s, step, id);
      var r :| r in s.done && r.id == id && Wanted(s, r);
      var h :| In(s, h) && Wanted(s, h) && h.callback == slot && h.id == id;
      Same(s, r, h);
    }
  }

  lemma LeakedKept(s: State, step: Step, slot: int)
    requires Inv(s) && Enabled(s, step) && s.faults == 0 && Next(s, step).faults == 0 && !step.ResetPending?
    requires slot in s.registry && s.registry[slot] in s.leaked
    ensures var s' := Next(s, step);
      slot in s'.registry && s'.registry[slot] == s.registry[slot] && s.registry[slot] in s'.leaked
  {
    if !step.Queue? {
      var l, leaks := StepDrops(s, step);
      forall r | r in l ensures r.callback != slot { assert Owns(s, r); }
    }
  }

  lemma FaultsGrow(s: State, step: Step)
    requires Enabled(s, step) && !step.ResetPending?
    ensures s.faults <= Next(s, step).faults
  {
    Frame(s, step);
  }

  lemma {:induction false} FaultsStay(s: State, steps: seq<Step>)
    requires Runs(s, steps) && forall step :: step in steps ==> !step.ResetPending?
    ensures s.faults <= After(s, steps).faults
    decreases |steps|
  {
    if steps != [] {
      FaultsGrow(s, steps[0]);
      FaultsStay(Next(s, steps[0]), steps[1..]);
    }
  }

  /** A forgotten reference stays in the registry until the next reset. */
  lemma {:induction false} LeakedForGood(s: State, steps: seq<Step>, slot: int)
    requires Inv(s) && Runs(s, steps) && After(s, steps).faults == 0
    requires forall step :: step in steps ==> !step.ResetPending?
    requires slot in s.registry && s.registry[slot] in s.leaked
    ensures var t := After(s, steps);
      slot in t.registry && t.registry[slot] == s.registry[slot] && s.registry[slot] in t.leaked
    decreases |steps|
  {
    if steps != [] {
      FaultsStay(s, steps);
      FaultsStay(Next(s, steps[0]), steps[1..]);
      LeakedKept(s, steps[0], slot);
      StepKeeps(s, steps[0]);
      LeakedForGood(Next(s, steps[0]), steps[1..], slot);
    }
  }

  // ---------------------------------------------------------------------------
  // Whole runs

  lemma StepKeeps(s: State, step: Step)
    requires Inv(s) && Enabled(s, step)
    ensures Inv(Next(s, step))
  {
    PlacedKept(s, step);
    LoggedKept(s, step);
    OwnersKept(s, step);
    if Next(s, step).faults == 0 { ConservedKept(s, step); }
  }

  lemma {:induction false} RunKeeps(s: State, steps: seq<Step>)
    requires Inv(s) && Runs(s, steps)
    ensures Inv(After(s, steps))
    decreases |steps|
  {
    if steps != [] {
      StepKeeps(s, steps[0]);
      RunKeeps(Next(s, steps[0]), steps[1..]);
    }
  }

  /** However the threads interleave: one call at most, under the generation that asked, and none after a
      cancel that said true; a request in one place; and, but for stale removals, references conserved. */
  lemma AnyInterleaving(steps: seq<Step>)
    requires Runs(INIT, steps)
    ensures var s := After(INIT, steps);
      Orderly(s.log) && Placed(s) && |s.running| <= 6 && (s.faults == 0 ==> Conserved(s))
  {
    RunKeeps(INIT, steps);
  }

  /** A reference nobody will be called back through is a forgotten one. */
  lemma OnlyLeaksLinger(steps: seq<Step>, slot: int)
    requires Runs(INIT, steps) && After(INIT, steps).faults == 0 && slot in After(INIT, steps).registry
    requires var s := After(INIT, steps); forall r :: In(s, r) && r.callback == slot ==> !Wanted(s, r)
    ensures After(INIT, steps).registry[slot] in After(INIT, steps).leaked
  {
    RunKeeps(INIT, steps);
    var s := After(INIT, steps);
    assert Conserved(s) && !Held(s, slot, s.registry[slot]);
  }

  /** No plugin removal in the run meets an armed answer to an earlier Lua state. */
  ghost predicate Tidy(s: State, steps: seq<Step>)
    requires Runs(s, steps)
    decreases |steps|
  {
    steps == [] ||
    ((steps[0].RemoveDone? ==> !StaleArmed(s, s.game.plugin)) && Tidy(Next(s, steps[0]), steps[1..]))
  }

  ghost predicate AllOwned(log: seq<Event>) { forall i :: 0 <= i < |log| && log[i].Ran? ==> log[i].owned }

  /** In a tidy run no reference is given back twice and no callback is reached through one given back. */
  lemma {:induction false} TidyRun(s: State, steps: seq<Step>)
    requires Inv(s) && s.faults == 0 && AllOwned(s.log) && Runs(s, steps) && Tidy(s, steps)
    ensures After(s, steps).faults == 0 && AllOwned(After(s, steps).log)
    decreases |steps|
  {
    if steps != [] {
      var s' := Next(s, steps[0]);
      FaultExactly(s, steps[0]);
      StepKeeps(s, steps[0]);
      StepLogs(s, steps[0]);
      if e :| RanNow(s, s', e) { assert In(s, s.batch[0]); }
      TidyRun(s', steps[1..]);
    }
  }

  /** Nothing anywhere was asked for by an earlier Lua state. */
  ghost predicate AllCurrent(s: State) { forall r :: In(s, r) ==> r.generation == s.generation }

  lemma {:induction false} CurrentStays(s: State, steps: seq<Step>)
    requires Inv(s) && AllCurrent(s) && s.faults == 0 && Runs(s, steps)
    requires forall step :: step in steps ==> !step.ResetPending?
    ensures AllCurrent(After(s, steps)) && After(s, steps).faults == 0
    decreases |steps|
  {
    if steps != [] {
      var s' := Next(s, steps[0]);
      StepMoves(s, steps[0]);
      Frame(s, steps[0]);
      FaultExactly(s, steps[0]);
      StepKeeps(s, steps[0]);
      forall r | In(s', r) ensures r.generation == s'.generation {
        if x :| In(s, x) && (r == x || r == x.(callback := NOREF)) { assert x.generation == s.generation; }
      }
      CurrentStays(s', steps[1..]);
    }
  }

  /** After a reset with no request on a worker, no reference is given back wrongly until the next one. */
  lemma CleanReset(s: State, steps: seq<Step>)
    requires Inv(s) && Runs(s, [ResetPending, ResetDone] + steps) && s.running == []
    requires forall step :: step in steps ==> !step.ResetPending?
    ensures After(s, [ResetPending, ResetDone] + steps).faults == 0
  {
    var both := [ResetPending, ResetDone];
    assert (both + steps)[0] == ResetPending && (both + steps)[1..] == [ResetDone] + steps;
    assert ([ResetDone] + steps)[1..] == steps;
    var t := Next(s, ResetPending);
    StepKeeps(s, ResetPending);
    StepKeeps(t, ResetDone);
    CurrentStays(Next(t, ResetDone), steps);
  }

  /** Once a plugin is removed, its armed requests of this Lua state are on a worker or in the drained batch. */
  lemma AfterRemoval(s: State)
    requires Inv(s) && Enabled(s, RemoveDone)
    ensures forall r :: In(Next(s, RemoveDone), r) && Armed(r) && r.plugin == s.game.plugin ==>
      r in s.running || r in s.batch
  {
    Frame(s, RemoveDone);
    forall r | In(Next(s, RemoveDone), r) && Armed(r) && r.plugin == s.game.plugin
      ensures r in s.running || r in s.batch
    {
      DisarmedIn(s, s.game.plugin, r);
    }
  }

  /** After a cancel that said false the request, if anywhere, is on a worker or in the drained batch. */
  lemma AfterCancelFalse(s: State)
    requires Inv(s) && Enabled(s, CancelDone) && Next(s, CancelDone).log == s.log
    ensures forall r :: In(Next(s, CancelDone), r) && r.id == s.game.id ==> r in s.running || r in s.batch
  {
    assert Index(s.done, s.game.id) == |s.done|;
  }

  // ---------------------------------------------------------------------------
  // What the code does not promise

  /** A run spelled out state by state. */
  lemma {:induction false} Chain(states: seq<State>, steps: seq<Step>)
    requires |states| == |steps| + 1
    requires forall i :: 0 <= i < |steps| ==> Enabled(states[i], steps[i]) && Next(states[i], steps[i]) == states[i + 1]
    ensures Runs(states[0], steps) && After(states[0], steps) == states[|steps|]
    decreases |steps|
  {
    if steps != [] { Chain(states[1..], steps[1..]); }
  }

  /** A request on the wire when its plugin goes still calls back. */
  lemma RemovedPluginCalled()
    ensures var steps := [Queue(7, 0), Take, RemovePending(7), RemoveDone, Finish(0), Swap, Begin];
      Runs(INIT, steps) && After(INIT, steps).log == [Ran(1, 1, 1, true)]
  {
    RemovedOnTheWire();
    AnsweredOnTheWire();
    var first, second := [Queue(7, 0), Take, RemovePending(7), RemoveDone], [Finish(0), Swap, Begin];
    RunsOn(INIT, first, second);
    assert first + second == [Queue(7, 0), Take, RemovePending(7), RemoveDone, Finish(0), Swap, Begin];
  }

  const ON_THE_WIRE := State([], [Req(1, 7, 1, 0)], [], [], false, Free, 1, 2, map[0 := 1], {}, 0, [])

  lemma RemovedOnTheWire()
    ensures var steps := [Queue(7, 0), Take, RemovePending(7), RemoveDone];
      Runs(INIT, steps) && After(INIT, steps) == ON_THE_WIRE
  {
    var r, m := Req(1, 7, 1, 0), map[0 := 1];
    Chain([INIT,
           State([r], [], [], [], false, Free, 1, 2, m, {}, 0, []),
           ON_THE_WIRE,
           State([], [r], [], [], false, Removing(7), 1, 2, m, {}, 0, []),
           ON_THE_WIRE],
          [Queue(7, 0), Take, RemovePending(7), RemoveDone]);
  }

  lemma AnsweredOnTheWire()
    ensures var steps := [Finish(0), Swap, Begin];
      Runs(ON_THE_WIRE, steps) && After(ON_THE_WIRE, steps).log == [Ran(1, 1, 1, true)]
  {
    var r, m := Req(1, 7, 1, 0), map[0 := 1];
    Chain([ON_THE_WIRE,
           State([], [], [r], [], false, Free, 1, 2, m, {}, 0, []),
           State([], [], [], [r], false, Free, 1, 2, m, {}, 0, []),
           State([], [], [], [r], true, Free, 1, 2, m, {}, 0, [Ran(1, 1, 1, true)])],
          [Finish(0), Swap, Begin]);
  }

  /** A run after which nobody holds the one reference the registry still has. */
  lemma CancelLeaks()
    ensures var steps := [Queue(7, 0), Take, Finish(0), CancelPending(1), CancelDone, Swap, Begin];
      Runs(INIT, steps) && After(INIT, steps)
        == State([], [], [], [], false, Free, 1, 2, map[0 := 1], {1}, 0, [CancelledTrue(1)])
  {
    AnsweredThenCancelled();
    CancelledThenDrained();
    var first, second := [Queue(7, 0), Take, Finish(0), CancelPending(1), CancelDone], [Swap, Begin];
    RunsOn(INIT, first, second);
    assert first + second == [Queue(7, 0), Take, Finish(0), CancelPending(1), CancelDone, Swap, Begin];
  }

  const CANCELLED_LATE :=
    State([], [], [Req(1, 7, 1, NOREF)], [], false, Free, 1, 2, map[0 := 1], {1}, 0, [CancelledTrue(1)])

  const ANSWERED := State([], [], [Req(1, 7, 1, 0)], [], false, Free, 1, 2, map[0 := 1], {}, 0, [])

  lemma AnsweredThenCancelled()
    ensures var steps := [Queue(7, 0), Take, Finish(0), CancelPending(1), CancelDone];
      Runs(INIT, steps) && After(INIT, steps) == CANCELLED_LATE
  {
    var first, second := [Queue(7, 0), Take, Finish(0)], [CancelPending(1), CancelDone];
    AskedAndAnswered();
    AnsweredCancelled();
    RunsOn(INIT, first, second);
    assert first + second == [Queue(7, 0), Take, Finish(0), CancelPending(1), CancelDone];
  }

  lemma AskedAndAnswered()
    ensures var steps := [Queue(7, 0), Take, Finish(0)]; Runs(INIT, steps) && After(INIT, steps) == ANSWERED
  {
    var r, m := Req(1, 7, 1, 0), map[0 := 1];
    Chain([INIT,
           State([r], [], [], [], false, Free, 1, 2, m, {}, 0, []),
           State([], [r], [], [], false, Free, 1, 2, m, {}, 0, []),
           ANSWERED],
          [Queue(7, 0), Take, Finish(0)]);
  }

  lemma AnsweredCancelled()
    ensures var steps := [CancelPending(1), CancelDone];
      Runs(ANSWERED, steps) && After(ANSWERED, steps) == CANCELLED_LATE
  {
    var r, cancelling := Req(1, 7, 1, 0), ANSWERED.(game := Cancelling(1));
    assert DisarmId([r], 1) == [Req(1, 7, 1, NOREF)] && Index([r], 1) == 0;
    assert LeakedBy(cancelling, [r], 1) == {1} by { assert r in [r] && Armed(r); }
    Chain([ANSWERED, cancelling, CANCELLED_LATE], [CancelPending(1), CancelDone]);
  }

  lemma CancelledThenDrained()
    ensures var steps := [Swap, Begin];
      Runs(CANCELLED_LATE, steps) && After(CANCELLED_LATE, steps) == CANCELLED_LATE.(done := [])
  {
    Chain([CANCELLED_LATE, CANCELLED_LATE.(done := [], batch := CANCELLED_LATE.done), CANCELLED_LATE.(done := [])],
          [Swap, Begin]);
  }

  lemma {:induction false} RunsOn(s: State, a: seq<Step>, b: seq<Step>)
    requires Runs(s, a)
    ensures Runs(s, a + b) <==> Runs(After(s, a), b)
    ensures Runs(s, a + b) ==> After(s, a + b) == After(After(s, a), b)
    decreases |a|
  {
    if a == [] {
      assert a + b == b;
    } else {
      assert (a + b)[0] == a[0] && (a + b)[1..] == a[1..] + b;
      RunsOn(Next(s, a[0]), a[1..], b);
    }
  }

  lemma StaleStep(s: State, r: Req)
    requires s.done == [r] && s.game == Removing(r.plugin) && Armed(r) && !Owns(s, r) && s.registry.Keys == {r.callback}
    ensures var s' := Next(s, RemoveDone);
      s' == s.(done := [DisarmIf(r, true)], game := Free, registry := map[], faults := s.faults + 1)
  {
    assert s.done[..0] == [];
    assert ArmedOf(s.done, r.plugin) == [r];
    assert [r][..0] == [];
    assert UnrefAll(s, [r]) == Unref(s, r);
  }

  lemma OthersStay(s: State, r: Req, plugin: int)
    requires s.pending == [r] && r.plugin != plugin && s.game.Free?
    ensures Next(s, RemovePending(plugin)) == s.(game := Removing(plugin))
  {
    assert [r][..0] == [];
    assert OfPlugin([r], plugin) == [];
    assert NotOfPlugin([], plugin) == [];
    assert NotOfPlugin([r], plugin) == [] + [r];
  }

  /** An answer to an earlier Lua state, met by a plugin removal, gives back somebody else's reference. */
  lemma StaleRemovalFaults()
    ensures var steps := [Queue(7, 0), Take, ResetPending, ResetDone, Finish(0),
                           Queue(3, 0), RemovePending(7), RemoveDone];
      Runs(INIT, steps) && After(INIT, steps).faults == 1
      && After(INIT, steps).pending == [Req(2, 3, 2, 0)] && After(INIT, steps).registry == map[]
  {
    var first, second := [Queue(7, 0), Take, ResetPending, ResetDone, Finish(0)],
        [Queue(3, 0), RemovePending(7), RemoveDone];
    StaleAnswer();
    StaleMet();
    RunsOn(INIT, first, second);
    assert first + second == [Queue(7, 0), Take, ResetPending, ResetDone, Finish(0),
                              Queue(3, 0), RemovePending(7), RemoveDone];
  }

  const ANSWERED_LATE := State([], [], [Req(1, 7, 1, 0)], [], false, Free, 2, 2, map[], {}, 0, [])

  lemma StaleAnswer()
    ensures var steps := [Queue(7, 0), Take, ResetPending, ResetDone, Finish(0)];
      Runs(INIT, steps) && After(INIT, steps) == ANSWERED_LATE
  {
    var r1 := Req(1, 7, 1, 0);
    Chain([INIT,
           State([r1], [], [], [], false, Free, 1, 2, map[0 := 1], {}, 0, []),
           State([], [r1], [], [], false, Free, 1, 2, map[0 := 1], {}, 0, []),
           State([], [r1], [], [], false, Resetting, 2, 2, map[], {}, 0, []),
           State([], [r1], [], [], false, Free, 2, 2, map[], {}, 0, []),
           ANSWERED_LATE],
          [Queue(7, 0), Take, ResetPending, ResetDone, Finish(0)]);
  }

  lemma StaleMet()
    ensures var steps := [Queue(3, 0), RemovePending(7), RemoveDone];
      && Runs(ANSWERED_LATE, steps)
      && After(ANSWERED_LATE, steps).faults == 1 && After(ANSWERED_LATE, steps).registry == map[]
      && After(ANSWERED_LATE, steps).pending == [Req(2, 3, 2, 0)]
  {
    var r1, r2 := Req(1, 7, 1, 0), Req(2, 3, 2, 0);
    assert [] + [r2] == [r2];
    var s6 := ANSWERED_LATE.(pending := [r2], nextId := 3, registry := map[0 := 2]);
    var s7 := s6.(game := Removing(7));
    OthersStay(s6, r2, 7);
    StaleStep(s7, r1);
    assert Next(ANSWERED_LATE, Queue(3, 0)) == s6;
    ThreeSteps(ANSWERED_LATE, Queue(3, 0), RemovePending(7), RemoveDone);
  }

  lemma ThreeSteps(s: State, a: Step, b: Step, c: Step)
    requires Enabled(s, a) && Enabled(Next(s, a), b) && Enabled(Next(Next(s, a), b), c)
    ensures Runs(s, [a, b, c]) && After(s, [a, b, c]) == Next(Next(Next(s, a), b), c)
  {
    var s1, s2 := Next(s, a), Next(Next(s, a), b);
    assert [a, b, c][1..] == [b, c] && [b, c][1..] == [c] && [c][1..] == [];
    assert Runs(s2, [c]) && After(s2, [c]) == Next(s2, c);
    assert Runs(s1, [b, c]) && After(s1, [b, c]) == Next(s2, c);
  }
}
