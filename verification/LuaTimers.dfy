/** The timer list as the module keeps it: on the map's own clock, edited in place, walked by index. */
module LuaTimers {
  import opened TimerSpec
  import TimerLaws

  /** The list on the clock that never restarts: `base` is what earlier maps add to the map's clock. */
  ghost function Shift(l: seq<Timer>, base: real): seq<Timer> {
    seq(|l|, i requires 0 <= i < |l| => l[i].(due := l[i].due + base))
  }

  ghost predicate IdsOk(l: seq<Timer>, bound: nat) {
    && (forall i, j :: 0 <= i < j < |l| ==> l[i].id < l[j].id)
    && (forall i :: 0 <= i < |l| ==> l[i].id < bound)
  }

  /** Nothing moves: a list edited by callbacks keeps its ids in place. */
  ghost predicate SameIds(l: seq<Timer>, l': seq<Timer>) {
    |l| <= |l'| && forall i :: 0 <= i < |l| ==> l'[i].id == l[i].id
  }

  lemma FirstIs(l: seq<Timer>, id: int, i: nat)
    requires i <= |l| && (i < |l| ==> l[i].id == id && !l[i].dead)
    requires forall j :: 0 <= j < i ==> l[j].id != id || l[j].dead
    ensures IndexOf(l, id) == i
  {
    var k := IndexOf(l, id);
  }

  lemma FirstNamedIs(l: seq<Timer>, plugin: int, name: string, i: nat)
    requires i <= |l| && (i < |l| ==> Named(l[i], plugin, name))
    requires forall j :: 0 <= j < i ==> !Named(l[j], plugin, name)
    ensures IndexNamed(l, plugin, name) == i
  {
    var k := IndexNamed(l, plugin, name);
  }

  lemma NextDueIs(l: seq<Timer>, time: real, after: int, i: nat)
    requires i <= |l| && (i < |l| ==> !l[i].dead && l[i].due <= time && l[i].id > after)
    requires forall j :: 0 <= j < i ==> l[j].dead || l[j].due > time || l[j].id <= after
    ensures NextDue(l, time, after) == i
  {
    var k := NextDue(l, time, after);
  }

  /** On the map's clock: what the index has passed is dead, not due or called; what is ahead was not called. */
  ghost predicate WalkAt(l: seq<Timer>, now: real, after: int, i: nat) {
    && i <= |l|
    && (forall j :: 0 <= j < i ==> l[j].dead || l[j].due > now || l[j].id <= after)
    && (forall j :: i <= j < |l| ==> l[j].id > after)
  }

  lemma WalkFinds(l: seq<Timer>, base: real, now: real, after: int, i: nat)
    requires WalkAt(l, now, after, i) && (i < |l| ==> !l[i].dead && l[i].due <= now)
    ensures NextDue(Shift(l, base), now + base, after) == i
  {
    NextDueIs(Shift(l, base), now + base, after, i);
  }

  lemma WalkSkips(l: seq<Timer>, now: real, after: int, i: nat)
    requires WalkAt(l, now, after, i) && i < |l| && (l[i].dead || l[i].due > now)
    ensures WalkAt(l, now, after, i + 1)
  {
  }

  lemma WalkGoesOn(l: seq<Timer>, l': seq<Timer>, bound: nat, now: real, i: nat)
    requires IdsOk(l', bound) && SameIds(l, l') && i < |l|
    ensures WalkAt(l', now, l[i].id, i + 1)
  {
    assert l'[i].id == l[i].id;
  }

  lemma WalkUnfolds(s: State, after: int, i: nat, calls: Calls)
    requires i == NextDue(s.timers, s.time, after) && i < |s.timers| && s.timers[i].id < s.nextId
    ensures Walk(s, after, calls) == Walk(CallOne(s, i, calls), s.timers[i].id, Rest(calls))
  {
  }

  lemma WalkOfNone(s: State, after: int, calls: Calls)
    requires NextDue(s.timers, s.time, after) == |s.timers|
    ensures Walk(s, after, calls) == s
  {
  }

  function Ended(w: State): State { Purge(Logged(w, PassEnd(w.time)), Dead) }

  lemma FrameIs(s: State, s0: State, calls: Calls)
    requires s0 == s.(last := s.time)
    ensures Frame(s, calls) == Ended(Walk(s0, -1, calls))
  {
  }

  lemma EmptyPass(s: State, calls: Calls)
    requires s.timers == []
    ensures Walk(s, -1, calls) == s && Ended(s) == Logged(s, PassEnd(s.time))
  {
    NextDueIs([], s.time, -1, 0);
    WalkOfNone(s, -1, calls);
    assert s.log + [PassEnd(s.time)] + [] == s.log + [PassEnd(s.time)];
  }

  // ---------------------------------------------------------------------------
  // Erasing from the back

  ghost function Erased(log: seq<Entry>, t: Timer): seq<Entry> {
    if t.dead then log + [Released(t.ref)] else log + [Released(t.ref)] + [Dropped(t.id)]
  }

  /** `tail` is what is left of l[i..], `log` the history with their traces. */
  ghost predicate Erasing(l: seq<Timer>, p: Purged, log0: seq<Entry>, i: nat, tail: seq<Timer>, log: seq<Entry>) {
    && i <= |l|
    && Keep(l, p) == Keep(l[..i], p) + tail
    && log0 + Trace(l, p) == log + Trace(l[..i], p)
  }

  lemma ErasingStarts(l: seq<Timer>, p: Purged, log0: seq<Entry>)
    ensures Erasing(l, p, log0, |l|, [], log0)
  {
    assert l[..|l|] == l;
  }

  lemma ErasingNext(l: seq<Timer>, p: Purged, log0: seq<Entry>, i: nat, tail: seq<Timer>, log: seq<Entry>)
    requires i > 0 && Erasing(l, p, log0, i, tail, log)
    ensures var t := l[i - 1];
      Erasing(l, p, log0, i - 1, if Goes(p, t) then tail else [t] + tail, if Goes(p, t) then Erased(log, t) else log)
  {
    var t, rest := l[i - 1], Trace(l[..i - 1], p);
    assert l[..i][..i - 1] == l[..i - 1];
    if Goes(p, t) {
      assert log + Trace(l[..i], p) == Erased(log, t) + rest;
    } else {
      assert Keep(l[..i - 1], p) + [t] + tail == Keep(l[..i - 1], p) + ([t] + tail);
    }
  }

  lemma ErasingDone(l: seq<Timer>, p: Purged, log0: seq<Entry>, tail: seq<Timer>, log: seq<Entry>)
    requires Erasing(l, p, log0, 0, tail, log)
    ensures tail == Keep(l, p) && log == log0 + Trace(l, p)
  {
    assert l[..0] == [];
  }

  lemma RebasedSnoc(m: seq<Timer>, l: seq<Timer>, base: real, u: Timer, t: Timer)
    requires Rebased(m, l, base) && u == t.(due := t.due + base)
    ensures Rebased(m + [u], l + [t], base)
  {
  }

  lemma {:induction false} RebasedKeep(m: seq<Timer>, l: seq<Timer>, p: Purged, base: real)
    requires Rebased(m, l, base)
    ensures Rebased(Keep(m, p), Keep(l, p), base) && Trace(m, p) == Trace(l, p)
    decreases |l|
  {
    if l != [] {
      var n := |l| - 1;
      assert m[n] == l[n].(due := l[n].due + base);
      RebasedKeep(m[..n], l[..n], p, base);
      RebasedSnoc(Keep(m[..n], p), Keep(l[..n], p), base, m[n], l[n]);
    }
  }

  lemma ShiftKeep(l: seq<Timer>, p: Purged, base: real)
    ensures Keep(Shift(l, base), p) == Shift(Keep(l, p), base) && Trace(Shift(l, base), p) == Trace(l, p)
  {
    RebasedKeep(Shift(l, base), l, p, base);
    ShiftIs(Keep(Shift(l, base), p), Keep(l, p), base);
  }

  lemma {:induction false} KeepIds(l: seq<Timer>, p: Purged, bound: nat)
    requires IdsOk(l, bound)
    ensures IdsOk(Keep(l, p), bound)
    ensures forall i :: 0 <= i < |Keep(l, p)| ==> Keep(l, p)[i] in l
    decreases |l|
  {
    if l != [] {
      var n := |l| - 1;
      KeepIds(l[..n], p, bound);
      forall i | 0 <= i < |Keep(l[..n], p)| ensures Keep(l[..n], p)[i] in l && Keep(l[..n], p)[i].id < l[n].id {
        assert Keep(l[..n], p)[i] in l[..n];
      }
    }
  }

  // ---------------------------------------------------------------------------
  // A new map

  /** The list a map change starts from, on the clock that never restarts. */
  ghost function Before(l: seq<Timer>, base: real, last: real): seq<Timer> { Raise(Shift(l, base), last + base) }

  lemma RaisedAt(l: seq<Timer>, base: real, last: real)
    ensures |Before(l, base, last)| == |l|
    ensures forall i :: 0 <= i < |l| ==> Before(l, base, last)[i] == l[i].(due := Max(l[i].due + base, last + base))
  {
  }

  /** `tail`, on the new map's clock, is `kept` on the clock that never restarts. */
  ghost predicate Rebased(kept: seq<Timer>, tail: seq<Timer>, base: real) {
    |kept| == |tail| && forall i :: 0 <= i < |tail| ==> kept[i] == tail[i].(due := tail[i].due + base)
  }

  lemma ShiftIs(kept: seq<Timer>, tail: seq<Timer>, base: real)
    requires Rebased(kept, tail, base)
    ensures Shift(tail, base) == kept
  {
  }

  lemma RebasedCons(kept: seq<Timer>, tail: seq<Timer>, base: real, k: Timer, t: Timer)
    requires Rebased(kept, tail, base) && k == t.(due := t.due + base)
    ensures Rebased([k] + kept, [t] + tail, base)
  {
  }

  ghost predicate RebasedFrom(l: seq<Timer>, big: seq<Timer>, timers: seq<Timer>, base': real, log0: seq<Entry>,
      log: seq<Entry>,
                              i: nat, tail: seq<Timer>, kept: seq<Timer>) {
    i <= |l| && timers == l[..i] + tail && Rebased(kept, tail, base') && Erasing(big, Loose, log0, i, kept, log)
  }

  lemma RebaseStarts(l: seq<Timer>, big: seq<Timer>, base': real, log0: seq<Entry>)
    requires |big| == |l|
    ensures RebasedFrom(l, big, l, base', log0, log0, |l|, [], [])
  {
    ErasingStarts(big, Loose, log0);
  }

  lemma RebaseDone(l: seq<Timer>, big: seq<Timer>, timers: seq<Timer>, base': real, log0: seq<Entry>, log: seq<Entry>,
                   tail: seq<Timer>, kept: seq<Timer>, bound: nat)
    requires RebasedFrom(l, big, timers, base', log0, log, 0, tail, kept)
    requires IdsOk(l, bound) && |big| == |l| && forall i :: 0 <= i < |l| ==> big[i].id == l[i].id
    ensures IdsOk(timers, bound) && Rebased(Keep(big, Loose), timers, base') && log == log0 + Trace(big, Loose)
  {
    EmptyFront(l, tail);
    ErasingDone(big, Loose, log0, kept, log);
    RebasedIds(big, l, kept, tail, base', bound);
  }

  lemma FrontIs(l: seq<Timer>)
    ensures l[..|l|] + [] == l
  {
  }

  lemma EmptyFront(l: seq<Timer>, tail: seq<Timer>)
    ensures l[..0] + tail == tail
  {
  }

  /** One timer further to the front. */
  lemma ErasingMore(big: seq<Timer>, log0: seq<Entry>, i: nat, kept: seq<Timer>, log: seq<Entry>, t: Timer)
    requires i < |big| && big[i] == t.(due := big[i].due) && Erasing(big, Loose, log0, i + 1, kept, log)
    ensures t.persist ==> Erasing(big, Loose, log0, i, [big[i]] + kept, log)
    ensures !t.persist ==> Erasing(big, Loose, log0, i, kept, Erased(log, t))
  {
    ErasingNext(big, Loose, log0, i + 1, kept, log);
  }

  lemma SliceStep(l: seq<Timer>, i: nat, tail: seq<Timer>)
    requires i < |l|
    ensures var all := l[..i + 1] + tail;
      all[i] == l[i] && all[..i] + all[i + 1..] == l[..i] + tail && forall u :: all[i := u] == l[..i] + ([u] + tail)
  {
  }

  lemma RebasedIds(big: seq<Timer>, l: seq<Timer>, kept: seq<Timer>, tail: seq<Timer>, base: real, bound: nat)
    requires IdsOk(l, bound) && |big| == |l| && forall i :: 0 <= i < |l| ==> big[i].id == l[i].id
    requires kept == Keep(big, Loose) && Rebased(kept, tail, base)
    ensures IdsOk(tail, bound)
  {
    assert IdsOk(big, bound);
    KeepIds(big, Loose, bound);
    forall i | 0 <= i < |tail| ensures tail[i].id == kept[i].id {}
  }

  class Timers {
    var timers: seq<Timer>
    var nextId: nat
    var nextRef: nat
    /** gpGlobals->time */
    var now: real
    var lastNow: real
    var running: bool
    ghost var base: real
    ghost var log: seq<Entry>

    ghost function View(): State reads this {
      State(Shift(timers, base), nextId, nextRef, now + base, lastNow + base, log)
    }

    ghost predicate Valid() reads this { IdsOk(timers, nextId) }

    constructor ()
      ensures Valid() && !running && View() == INIT
    {
      timers, nextId, nextRef, now, lastNow, running := [], 1, 0, 0.0, 0.0, false;
      base, log := 0.0, [];
    }

    /** The server moves its clock. */
    method SetClock(time: real)
      requires Valid()
      modifies this`now
      ensures Valid() && View() == Next(old(View()), Tick(time + base))
    {
      now := time;
    }

    // -------------------------------------------------------------------------
    // What plugins do

    method Add(plugin: int, delay: real, interval: real, persist: bool) returns (id: nat)
      requires Valid()
      modifies this`timers, this`nextId, this`nextRef, this`log
      ensures Valid() && SameIds(old(timers), timers) && id == old(nextId)
      ensures |timers| == |old(timers)| + 1 && timers[|old(timers)|].id == id
      ensures View() == AddTimer(old(View()), plugin, delay, interval, "", persist)
    {
      id := nextId;
      var wait := if delay < 0.0 then 0.0 else delay;
      timers := timers + [Timer(id, nextRef, plugin, now + wait, interval, false, "", persist)];
      nextId, nextRef := nextId + 1, nextRef + 1;
      log := log + [Scheduled(id, now + wait + base, interval, persist)];
    }

    method LAfter(plugin: int, delay: real, persist: bool)
      requires Valid()
      modifies this`timers, this`nextId, this`nextRef, this`log
      ensures Valid() && SameIds(old(timers), timers)
      ensures View() == RunOp(old(View()), After(plugin, delay, persist))
    {
      var id := Add(plugin, delay, 0.0, persist);
    }

    method LEvery(plugin: int, interval: real, persist: bool)
      requires Valid()
      modifies this`timers, this`nextId, this`nextRef, this`log
      ensures Valid() && SameIds(old(timers), timers)
      ensures View() == RunOp(old(View()), Every(plugin, interval, persist))
    {
      if interval <= 0.0 { return; }
      var id := Add(plugin, interval, interval, persist);
    }

    method MarkDead(i: nat)
      requires Valid() && i < |timers|
      modifies this`timers, this`log
      ensures Valid() && SameIds(old(timers), timers) && |timers| == |old(timers)|
      ensures View() == Kill(old(View()), i)
    {
      timers := timers[i := timers[i].(dead := true)];
      log := log + [Dropped(timers[i].id)];
    }

    method LCancel(id: int) returns (found: bool)
      requires Valid()
      modifies this`timers, this`log
      ensures Valid() && SameIds(old(timers), timers)
      ensures View() == RunOp(old(View()), Cancel(id))
      ensures found <==> exists i :: 0 <= i < |old(timers)| && old(timers)[i].id == id && !old(timers)[i].dead
    {
      var i := 0;
      while i < |timers| && (timers[i].id != id || timers[i].dead)
        invariant i <= |timers| && forall j :: 0 <= j < i ==> timers[j].id != id || timers[j].dead
      {
        i := i + 1;
      }
      FirstIs(View().timers, id, i);
      found := i < |timers|;
      if found { MarkDead(i); }
    }

    method FindNamed(plugin: int, name: string) returns (i: nat)
      ensures i == IndexNamed(View().timers, plugin, name) <= |timers|
      ensures i < |timers| ==> Named(timers[i], plugin, name)
      ensures forall j :: 0 <= j < i ==> !Named(timers[j], plugin, name)
    {
      i := 0;
      while i < |timers| && !(!timers[i].dead && timers[i].plugin == plugin && timers[i].name == name)
        invariant i <= |timers| && forall j :: 0 <= j < i ==> !Named(timers[j], plugin, name)
      {
        i := i + 1;
      }
      FirstNamedIs(View().timers, plugin, name, i);
    }

    /** Finds the timer just added by its id and gives it its name. */
    method NameIt(id: nat, name: string)
      requires Valid() && timers != [] && timers[|timers| - 1].id == id
      modifies this`timers
      ensures Valid() && |timers| == |old(timers)|
      ensures var n := |timers| - 1; timers == old(timers)[n := old(timers)[n].(name := name)]
    {
      var i := 0;
      while timers[i].id != id
        invariant 0 <= i < |timers|
        decreases |timers| - i
      {
        i := i + 1;
      }
      timers := timers[i := timers[i].(name := name)];
    }

    method LCreate(plugin: int, name: string, seconds: real, once: bool, persist: bool)
      requires Valid()
      modifies this`timers, this`nextId, this`nextRef, this`log
      ensures Valid() && SameIds(old(timers), timers)
      ensures View() == RunOp(old(View()), Create(plugin, name, seconds, once, persist))
    {
      if seconds <= 0.0 { return; }
      var i := FindNamed(plugin, name);
      var interval := if once then 0.0 else seconds;
      if i < |timers| {
        Replace(i, seconds, interval, persist);
      } else {
        var id := AddNamed(plugin, seconds, interval, name, persist);
      }
    }

    /** The old callback's reference is given back and the timer keeps its place. */
    method Replace(i: nat, seconds: real, interval: real, persist: bool)
      requires Valid() && i < |timers|
      modifies this`timers, this`nextRef, this`log
      ensures Valid() && SameIds(old(timers), timers)
      ensures var t := View().timers[i]; var was := old(View()).timers[i];
        && t == was.(ref := old(nextRef), due := now + base + seconds, interval := interval, persist := persist)
        && View() == old(View()).(timers := old(View()).timers[i := t], nextRef := old(nextRef) + 1,
             log := old(log) + [Released(was.ref)] + [Scheduled(t.id, t.due, interval, persist)])
    {
      var t := timers[i];
      log := log + [Released(t.ref)] + [Scheduled(t.id, now + base + seconds, interval, persist)];
      timers := timers[i := t.(ref := nextRef, due := now + seconds, interval := interval, persist := persist)];
      nextRef := nextRef + 1;
      assert View().timers == old(View()).timers[i := View().timers[i]];
    }

    method AddNamed(plugin: int, delay: real, interval: real, name: string, persist: bool) returns (id: nat)
      requires Valid()
      modifies this`timers, this`nextId, this`nextRef, this`log
      ensures Valid() && SameIds(old(timers), timers) && id == old(nextId)
      ensures View() == AddTimer(old(View()), plugin, delay, interval, name, persist)
    {
      id := Add(plugin, delay, interval, persist);
      ghost var n, added := |timers| - 1, View();
      NameIt(id, name);
      assert View().timers == added.timers[n := added.timers[n].(name := name)];
    }

    method LDestroy(plugin: int, name: string) returns (found: bool)
      requires Valid()
      modifies this`timers, this`log
      ensures Valid() && SameIds(old(timers), timers)
      ensures View() == RunOp(old(View()), Destroy(plugin, name))
      ensures found <==> exists i :: 0 <= i < |old(timers)| && Named(old(timers)[i], plugin, name)
    {
      var i := FindNamed(plugin, name);
      found := i < |timers|;
      if found { MarkDead(i); }
    }

    method Run(script: Script)
      requires Valid()
      modifies this`timers, this`nextId, this`nextRef, this`log
      ensures Valid() && SameIds(old(timers), timers)
      ensures View() == RunScript(old(View()), script)
      decreases |script|
    {
      if script == [] { return; }
      match script[0] {
        case After(plugin, delay, persist) => LAfter(plugin, delay, persist);
        case Every(plugin, interval, persist) => LEvery(plugin, interval, persist);
        case Cancel(id) => var found := LCancel(id);
        case Create(plugin, name, seconds, once, persist) => LCreate(plugin, name, seconds, once, persist);
        case Destroy(plugin, name) => var found := LDestroy(plugin, name);
      }
      Run(script[1..]);
    }

    // -------------------------------------------------------------------------
    // A frame

    /** Calls the timer at i, and reads it again by its index afterwards. */
    method CallTimer(i: nat, calls: Calls)
      requires Valid() && i < |timers|
      modifies this`timers, this`nextId, this`nextRef, this`log
      ensures Valid() && SameIds(old(timers), timers)
      ensures View() == CallOne(old(View()), i, calls)
      ensures calls.Silent? ==> |timers| == |old(timers)|
    {
      var t := timers[i];
      log := log + [Fired(t.id, now + base)];
      timers := timers[i := if t.interval > 0.0 then t.(due := now + t.interval) else t.(dead := true)];
      assert View() == Begin(old(View()), i);
      if calls.Call? {
        Run(calls.body);
        if calls.fails && !timers[i].dead { MarkDead(i); }
      }
    }

    /** The pass: by index, because callbacks may append. */
    method WalkDue(calls: Calls)
      requires Valid() && running
      modifies this`timers, this`nextId, this`nextRef, this`log
      ensures Valid() && View() == Walk(old(View()), -1, calls)
    {
      var i, todo := 0, calls;
      ghost var after: int, goal := -1, Walk(View(), -1, calls);
      while i < |timers|
        invariant Valid() && WalkAt(timers, now, after, i)
        invariant goal == Walk(View(), after, todo)
        invariant todo.Silent? || todo == calls || todo < calls
        decreases todo, |timers| - i
      {
        if timers[i].dead || timers[i].due > now {
          WalkSkips(timers, now, after, i);
          i := i + 1;
          continue;
        }
        after := DueAt(i, after, todo);
        todo, i := Rest(todo), i + 1;
      }
      WalkFinds(timers, base, now, after, i);
      WalkOfNone(View(), after, todo);
    }

    method DueAt(i: nat, ghost after: int, calls: Calls) returns (ghost id: int)
      requires Valid() && i < |timers| && WalkAt(timers, now, after, i) && !timers[i].dead && timers[i].due <= now
      modifies this`timers, this`nextId, this`nextRef, this`log
      ensures Valid() && WalkAt(timers, now, id, i + 1)
      ensures Walk(old(View()), after, calls) == Walk(View(), id, Rest(calls))
      ensures calls.Silent? ==> |timers| == |old(timers)|
    {
      id := timers[i].id;
      WalkFinds(timers, base, now, after, i);
      WalkUnfolds(View(), after, i, calls);
      CallTimer(i, calls);
      WalkGoesOn(old(timers), timers, nextId, now, i);
    }

    /** Erases from the back what p names, and gives its references back. */
    method EraseAll(p: Purged)
      requires Valid()
      modifies this`timers, this`log
      ensures Valid() && View() == Purge(old(View()), p)
      ensures match p
        case Dead => forall t :: t in timers <==> t in old(timers) && !t.dead
        case Loose => forall t :: t in timers <==> t in old(timers) && t.persist
        case Of(plugin) => forall t :: t in timers <==> t in old(timers) && t.plugin != plugin
    {
      ghost var l, log0 := timers, log;
      forall t ensures t in Keep(l, p) <==> t in l && !Goes(p, t) { TimerLaws.KeepIn(l, p, t); }
      EraseBackwards(p);
      ErasingDone(l, p, log0, timers, log);
      ShiftKeep(l, p, base);
      KeepIds(l, p, nextId);
    }

    method EraseBackwards(p: Purged)
      modifies this`timers, this`log
      ensures Erasing(old(timers), p, old(log), 0, timers, log)
    {
      ghost var l, tail, log0 := timers, [], log;
      ErasingStarts(l, p, log0);
      FrontIs(l);
      var i := |timers|;
      while i > 0
        invariant 0 <= i <= |l| && timers == l[..i] + tail
        invariant Erasing(l, p, log0, i, tail, log)
      {
        i := i - 1;
        ErasingNext(l, p, log0, i + 1, tail, log);
        SliceStep(l, i, tail);
        var t := timers[i];
        if Goes(p, t) {
          log := Erased(log, t);
          timers := timers[..i] + timers[i + 1..];
        } else {
          assert timers[i := t] == timers;
          tail := [t] + tail;
        }
      }
      EmptyFront(l, tail);
    }

    /** cslua_timers_run */
    method RunPass(calls: Calls)
      requires Valid() && !running
      modifies this
      ensures Valid() && !running && View() == Frame(old(View()), calls)
      ensures forall t :: t in timers ==> !t.dead
    {
      lastNow := now;
      FrameIs(old(View()), View(), calls);
      if timers == [] {
        EmptyPass(View(), calls);
        log := log + [PassEnd(now + base)];
      } else {
        Pass(calls);
      }
    }

    method Pass(calls: Calls)
      requires Valid() && !running
      modifies this`running, this`timers, this`nextId, this`nextRef, this`log
      ensures Valid() && !running
      ensures View() == Ended(Walk(old(View()), -1, calls))
      ensures forall t :: t in timers ==> !t.dead
    {
      ghost var s0 := View();
      running := true;
      assert View() == s0;
      WalkDue(calls);
      ghost var w := View();
      assert w == Walk(s0, -1, calls);
      running := false;
      assert View() == w;
      EndPass(w);
    }

    method EndPass(ghost w: State)
      requires Valid() && w == View()
      modifies this`timers, this`log
      ensures Valid() && View() == Ended(w)
      ensures forall t :: t in timers <==> t in old(timers) && !t.dead
    {
      log := log + [PassEnd(now + base)];
      EraseAll(Dead);
    }

    /** cslua_timers_rebase, once the new map's clock reads `time`. */
    method Rebase(time: real)
      requires Valid()
      modifies this`timers, this`now, this`lastNow, this`base, this`log
      ensures Valid() && now == lastNow == time && View() == MapChange(old(View()))
    {
      ghost var s0, base' := View(), base + lastNow - time;
      log := log + [MapChanged(lastNow + base)];
      RebaseAll(time, base');
      ShiftIs(Keep(Before(old(timers), base, lastNow), Loose), timers, base');
      now, lastNow := time, time;
      base := base';
      assert View() == MapChange(s0);
    }

    /** The remaining wait, none if it is over. */
    method Left(t: Timer, last: real) returns (left: real)
      ensures left == Max(t.due - last, 0.0)
    {
      left := t.due - last;
      if left < 0.0 { left := 0.0; }
    }

    method RebaseOne(i: nat, time: real)
      requires i < |timers|
      modifies this`timers, this`log
      ensures var t := old(timers)[i];
        && timers == (if t.persist then old(timers)[i := t.(due := time + Max(t.due - lastNow, 0.0))]
                      else old(timers)[..i] + old(timers)[i + 1..])
        && log == if t.persist then old(log) else Erased(old(log), t)
    {
      var t := timers[i];
      if !t.persist {
        log := Erased(log, t);
        timers := timers[..i] + timers[i + 1..];
      } else {
        var left := Left(t, lastNow);
        timers := timers[i := t.(due := time + left)];
      }
    }

    method RebaseNext(i: nat, time: real, ghost base': real, ghost l: seq<Timer>, ghost big: seq<Timer>,
                      ghost log0: seq<Entry>, ghost tail: seq<Timer>, ghost kept: seq<Timer>)
        returns (ghost tail': seq<Timer>, ghost kept': seq<Timer>)
      requires i < |l| == |big| && base' + time == base + lastNow
      requires big[i] == l[i].(due := Max(l[i].due + base, lastNow + base))
      requires RebasedFrom(l, big, timers, base', log0, log, i + 1, tail, kept)
      modifies this`timers, this`log
      ensures RebasedFrom(l, big, timers, base', log0, log, i, tail', kept')
    {
      ghost var t := l[i];
      ghost var u := t.(due := time + Max(t.due - lastNow, 0.0));
      ErasingMore(big, log0, i, kept, log, t);
      SliceStep(l, i, tail);
      RebaseOne(i, time);
      tail', kept' := tail, kept;
      if t.persist {
        RebasedCons(kept, tail, base', big[i], u);
        tail', kept' := [u] + tail, [big[i]] + kept;
      }
    }

    method RebaseAll(time: real, ghost base': real)
      requires Valid() && base' + time == base + lastNow
      modifies this`timers, this`log
      ensures Valid()
      ensures Rebased(Keep(Before(old(timers), base, lastNow), Loose), timers, base')
      ensures log == old(log) + Trace(Before(old(timers), base, lastNow), Loose)
    {
      ghost var l, big := timers, Before(timers, base, lastNow);
      ghost var tail, kept: seq<Timer>, log0 := [], [], log;
      RaisedAt(l, base, lastNow);
      RebaseStarts(l, big, base', log0);
      var i := |timers|;
      while i > 0
        invariant 0 <= i <= |l| && RebasedFrom(l, big, timers, base', log0, log, i, tail, kept)
      {
        i := i - 1;
        tail, kept := RebaseNext(i, time, base', l, big, log0, tail, kept);
      }
      RebaseDone(l, big, timers, base', log0, log, tail, kept, nextId);
    }

    /** cslua_timers_remove_plugin */
    method RemovePlugin(plugin: int)
      requires Valid()
      modifies this`timers, this`log
      ensures Valid() && View() == Next(old(View()), Unload(plugin))
      ensures forall t :: t in timers <==> t in old(timers) && t.plugin != plugin
    {
      EraseAll(Of(plugin));
    }
  }
}
