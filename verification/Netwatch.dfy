/** Per-client traffic: the last 512 messages in a ring, and what the dump makes of them. */
module Netwatch {

  const RING_SIZE := 512
  const MAX_PLAYERS := 33
  const WINDOW_SECONDS := 8.0
  /** 59 builtin message names and 32 more */
  const MAX_BUCKETS := 91

  datatype Record = Record(time: real, kind: int, bytes: nat)

  // ---------------------------------------------------------------------------
  // The history, read without rings or flags

  datatype Event =
    | Begin(dest: int, kind: int)
    | Add(bytes: nat)
    | End(time: real)
    | Forget(id: int)

  /** A client's slot, once its being connected is known; anything else is nobody. */
  predicate ValidPlayer(id: int) { 1 <= id < MAX_PLAYERS }

  datatype Building = Nothing | Message(id: int, kind: int, bytes: nat)

  /** The one message being built: what was begun last, unless it was ended or its client forgotten. */
  ghost function Current(log: seq<Event>): Building {
    if log == [] then Nothing else
      var before := Current(log[..|log| - 1]);
      match log[|log| - 1]
      case Begin(dest, kind) => if ValidPlayer(dest) then Message(dest, kind, 0) else Nothing
      case Add(n) => if before.Message? then before.(bytes := before.bytes + n) else Nothing
      case End(time) => Nothing
      case Forget(id) => if before.Message? && before.id == id then Nothing else before
  }

  /** The messages finished for a client since it was last forgotten. */
  ghost function Finished(log: seq<Event>, id: int): seq<Record> {
    if log == [] then [] else
      var before := log[..|log| - 1];
      var done := Finished(before, id);
      match log[|log| - 1]
      case End(time) =>
        var m := Current(before);
        if m.Message? && m.id == id then done + [Record(time, m.kind, m.bytes)] else done
      case Forget(i) => if i == id then [] else done
      case _ => done
  }

  function Sum(l: seq<nat>): nat { if l == [] then 0 else Sum(l[..|l| - 1]) + l[|l| - 1] }

  function Adds(l: seq<nat>): seq<Event> { seq(|l|, i requires 0 <= i < |l| => Add(l[i])) }

  /** A message is as long as what was added between its begin and its end. */
  lemma {:induction false} BytesAdded(log: seq<Event>, dest: int, kind: int, l: seq<nat>)
    requires 1 <= dest <= 32
    ensures Current(log + [Begin(dest, kind)] + Adds(l)) == Message(dest, kind, Sum(l))
    decreases |l|
  {
    var begun := log + [Begin(dest, kind)];
    if l == [] {
      assert begun + Adds([]) == begun && begun[..|log|] == log;
    } else {
      var n := |l| - 1;
      BytesAdded(log, dest, kind, l[..n]);
      assert begun + Adds(l) == begun + Adds(l[..n]) + [Add(l[n])];
      assert (begun + Adds(l[..n]) + [Add(l[n])])[..|begun| + n] == begun + Adds(l[..n]);
    }
  }

  lemma FinishesWith(log: seq<Event>, dest: int, kind: int, l: seq<nat>, time: real)
    requires 1 <= dest <= 32
    ensures var whole := log + [Begin(dest, kind)] + Adds(l) + [End(time)];
      Finished(whole, dest) == Finished(log + [Begin(dest, kind)] + Adds(l), dest) + [Record(time, kind, Sum(l))]
  {
    var before := log + [Begin(dest, kind)] + Adds(l);
    BytesAdded(log, dest, kind, l);
    assert (before + [End(time)])[..|before|] == before;
  }

  /** What is begun for nobody in particular is nobody's, and a forgotten client has nothing left; the others keep
      theirs. */
  lemma NobodysAndForgotten(log: seq<Event>, dest: int, kind: int, id: int)
    ensures dest < 1 || dest > 32 ==> Current(log + [Begin(dest, kind)]) == Nothing
    ensures forall other :: Finished(log + [Begin(dest, kind)], other) == Finished(log, other)
    ensures Finished(log + [Forget(id)], id) == []
    ensures forall other :: other != id ==> Finished(log + [Forget(id)], other) == Finished(log, other)
    ensures Current(log + [Forget(id)]) ==
      if Current(log).Message? && Current(log).id == id then Nothing else Current(log)
  {
    LogStep(log, Begin(dest, kind));
    LogStep(log, Forget(id));
  }

  // ---------------------------------------------------------------------------
  // The ring

  /** The ring's first `count` places hold the last 512 of `all`, each at its number modulo 512. */
  ghost predicate Holds(ring: seq<Record>, next: int, count: int, all: seq<Record>) {
    && |ring| == RING_SIZE
    && next == |all| % RING_SIZE
    && count == (if |all| < RING_SIZE then |all| else RING_SIZE)
    && forall k :: |all| - count <= k < |all| ==> ring[k % RING_SIZE] == all[k]
  }

  lemma PushHolds(ring: seq<Record>, next: int, count: int, all: seq<Record>, r: Record)
    requires Holds(ring, next, count, all)
    ensures Holds(ring[next := r], (next + 1) % RING_SIZE, if count < RING_SIZE then count + 1 else count, all + [r])
  {
    var all', count' := all + [r], if count < RING_SIZE then count + 1 else count;
    forall k | |all'| - count' <= k < |all'| ensures ring[next := r][k % RING_SIZE] == all'[k] {
      if k < |all| { ModDiffers(k, |all|); }
    }
  }

  /** Two numbers less than 512 apart have different places. */
  lemma ModDiffers(a: nat, b: nat)
    requires a < b < a + RING_SIZE
    ensures a % RING_SIZE != b % RING_SIZE
  {
  }

  /** The ring read from its start is the last messages, the later part of them first once it has wrapped. */
  lemma RingIsTail(ring: seq<Record>, next: int, count: int, all: seq<Record>)
    requires Holds(ring, next, count, all)
    ensures var tail := all[|all| - count..];
      if count < RING_SIZE then ring[..count] == tail
      else ring[next..] + ring[..next] == tail && ring[..count] == ring[..next] + ring[next..]
  {
    if count < RING_SIZE {
      forall i | 0 <= i < count ensures ring[i] == all[i] { assert i % RING_SIZE == i; }
    } else {
      forall i | 0 <= i < RING_SIZE ensures Turned(ring, next, i) == all[|all| - RING_SIZE + i] {
        Wraps(|all| - RING_SIZE, i);
      }
      TurnedIs(ring, next, all[|all| - RING_SIZE..]);
    }
  }

  /** Reading on from `next`, around the end. */
  function Turned(ring: seq<Record>, next: int, i: int): Record
    requires |ring| == RING_SIZE && 0 <= next < RING_SIZE && 0 <= i < RING_SIZE
  {
    if next + i < RING_SIZE then ring[next + i] else ring[next + i - RING_SIZE]
  }

  lemma TurnedIs(ring: seq<Record>, next: int, tail: seq<Record>)
    requires |ring| == |tail| == RING_SIZE && 0 <= next < RING_SIZE
    requires forall i :: 0 <= i < RING_SIZE ==> Turned(ring, next, i) == tail[i]
    ensures ring[next..] + ring[..next] == tail && ring[..RING_SIZE] == ring[..next] + ring[next..]
  {
    var r := ring[next..] + ring[..next];
    forall i | 0 <= i < RING_SIZE ensures r[i] == tail[i] { assert Turned(ring, next, i) == tail[i]; }
  }

  lemma Wraps(low: nat, i: nat)
    requires i < RING_SIZE
    ensures var next := low % RING_SIZE;
      && (low + RING_SIZE) % RING_SIZE == next
      && (low + i) % RING_SIZE == if next + i < RING_SIZE then next + i else next + i - RING_SIZE
  {
  }

  class Slot {
    const ring: array<Record>
    var next: int
    var count: int
    /** Between begin and end. */
    var building: bool
    var kind: int
    var bytes: nat
    ghost var all: seq<Record>

    ghost predicate Valid() reads this, ring {
      ring.Length == RING_SIZE && Holds(ring[..], next, count, all)
    }

    constructor ()
      ensures Valid() && fresh(ring) && all == [] && !building
    {
      ring := new Record[RING_SIZE](i => Record(0.0, 0, 0));
      next, count, building, kind, bytes, all := 0, 0, false, 0, 0, [];
    }

    method Reset()
      requires Valid()
      modifies this
      ensures Valid() && all == [] && !building
    {
      next, count, building, all := 0, 0, false, [];
    }

    method Push(now: real, kind: int, bytes: nat)
      requires Valid()
      modifies this`next, this`count, this`all, ring
      ensures Valid() && all == old(all) + [Record(now, kind, bytes)]
    {
      PushHolds(ring[..], next, count, all, Record(now, kind, bytes));
      ghost var was := ring[..];
      ring[next] := Record(now, kind, bytes);
      assert ring[..] == was[next := Record(now, kind, bytes)];
      next := (next + 1) % RING_SIZE;
      if count < RING_SIZE { count := count + 1; }
      all := all + [Record(now, kind, bytes)];
    }

    /** The message being built, if there is one, has ended. */
    method Finish(now: real)
      requires Valid()
      modifies this`next, this`count, this`all, this`building, ring
      ensures Valid() && !building
      ensures all == if old(building) then old(all) + [Record(now, kind, bytes)] else old(all)
    {
      if building {
        Push(now, kind, bytes);
        building := false;
      }
    }
  }

  lemma LogStep(log: seq<Event>, e: Event)
    ensures (log + [e])[..|log|] == log
  {
  }

  lemma EndFinishes(log: seq<Event>, now: real)
    ensures Current(log + [End(now)]) == Nothing
    ensures forall i :: Finished(log + [End(now)], i) ==
              var m := Current(log);
              if m.Message? && m.id == i then Finished(log, i) + [Record(now, m.kind, m.bytes)] else Finished(log, i)
  {
    LogStep(log, End(now));
  }

  class Watcher {
    const slots: seq<Slot>
    /** s_active_id */
    var active: int
    ghost var log: seq<Event>

    ghost predicate Shape() reads this {
      && |slots| == MAX_PLAYERS
      && (forall i, j :: 0 <= i < j < |slots| ==> slots[i] != slots[j] && slots[i].ring != slots[j].ring)
    }

    ghost predicate InStep() reads this, slots {
      && Shape()
      && (active == 0 || ValidPlayer(active))
      && (if active == 0 then Current(log) == Nothing
          else slots[active].building && Current(log) == Message(active, slots[active].kind, slots[active].bytes))
    }

    ghost predicate Valid() reads this, slots, set i | 0 <= i < |slots| :: slots[i].ring {
      && InStep()
      && (forall i :: 0 <= i < |slots| ==> slots[i].Valid())
      && (forall i :: 1 <= i < |slots| ==> slots[i].all == Finished(log, i))
    }

    constructor ()
      ensures Valid() && log == [] && fresh(slots) && forall i :: 0 <= i < |slots| ==> fresh(slots[i].ring)
    {
      var made: seq<Slot> := [];
      while |made| < MAX_PLAYERS
        invariant |made| <= MAX_PLAYERS
        invariant forall i :: 0 <= i < |made| ==>
                    fresh(made[i]) && fresh(made[i].ring) && made[i].Valid() && made[i].all == []
        invariant forall i, j :: 0 <= i < j < |made| ==> made[i] != made[j] && made[i].ring != made[j].ring
      {
        var slot := new Slot();
        made := made + [slot];
      }
      slots, active, log := made, 0, [];
    }

    /** cslua_netwatch_message_begin; dest is 0 for a broadcast and for whoever is not a connected client. */
    method MessageBegin(dest: int, kind: int)
      requires Valid()
      modifies this, slots
      ensures Valid() && log == old(log) + [Begin(dest, kind)]
    {
      LogStep(log, Begin(dest, kind));
      log := log + [Begin(dest, kind)];
      active := 0;
      if !ValidPlayer(dest) { return; }
      active := dest;
      var slot := slots[dest];
      slot.building, slot.kind, slot.bytes := true, kind, 0;
    }

    method AddBytes(n: nat)
      requires Valid()
      modifies this, slots
      ensures Valid() && log == old(log) + [Add(n)]
    {
      LogStep(log, Add(n));
      log := log + [Add(n)];
      if !ValidPlayer(active) { return; }
      var slot := slots[active];
      if slot.building { slot.bytes := slot.bytes + n; }
    }

    method MessageEnd(now: real)
      requires Valid()
      modifies this, slots, set i | 0 <= i < |slots| :: slots[i].ring
      ensures Valid() && log == old(log) + [End(now)]
    {
      EndFinishes(log, now);
      log := log + [End(now)];
      if !ValidPlayer(active) { return; }
      slots[active].Finish(now);
      active := 0;
    }

    method ForgetClient(id: int)
      requires Valid()
      modifies this, slots
      ensures Valid() && log == old(log) + [Forget(id)]
    {
      LogStep(log, Forget(id));
      log := log + [Forget(id)];
      if !ValidPlayer(id) { return; }
      slots[id].Reset();
      if active == id { active := 0; }
    }
  }

  // ---------------------------------------------------------------------------
  // The dump

  datatype Bucket = Bucket(kind: int, messages: nat, bytes: nat)

  predicate Recent(r: Record, now: real) { now - r.time <= WINDOW_SECONDS }

  function Messages(l: seq<Record>, now: real): nat {
    if l == [] then 0 else Messages(l[..|l| - 1], now) + if Recent(l[|l| - 1], now) then 1 else 0
  }

  function Bytes(l: seq<Record>, now: real): nat {
    if l == [] then 0 else Bytes(l[..|l| - 1], now) + if Recent(l[|l| - 1], now) then l[|l| - 1].bytes else 0
  }

  lemma {:induction false} TotalsAdd(a: seq<Record>, b: seq<Record>, now: real)
    ensures Messages(a + b, now) == Messages(a, now) + Messages(b, now)
    ensures Bytes(a + b, now) == Bytes(a, now) + Bytes(b, now)
    decreases |b|
  {
    if b == [] {
      assert a + b == a;
    } else {
      var n := |b| - 1;
      TotalsAdd(a, b[..n], now);
      assert (a + b)[..|a| + n] == a + b[..n];
    }
  }

  /** A message counts if it is at most eight seconds old. */
  lemma OneCounts(r: Record, now: real, kind: int)
    ensures Messages([r], now) == (if now - r.time <= 8.0 then 1 else 0)
    ensures Bytes([r], now) == (if now - r.time <= 8.0 then r.bytes else 0)
    ensures OfKind([r], kind) == (if r.kind == kind then [r] else [])
    ensures KindsOf([r], now) == (if now - r.time <= 8.0 then {r.kind} else {})
  {
    assert [r][..0] == [];
  }

  lemma RingTotals(ring: seq<Record>, next: int, count: int, all: seq<Record>, now: real)
    requires Holds(ring, next, count, all)
    ensures var tail := all[|all| - count..];
      && multiset(ring[..count]) == multiset(tail)
      && Messages(ring[..count], now) == Messages(tail, now) && Bytes(ring[..count], now) == Bytes(tail, now)
  {
    RingIsTail(ring, next, count, all);
    if count == RING_SIZE { Rotated(ring[..next], ring[next..], now); }
  }

  lemma Rotated(a: seq<Record>, b: seq<Record>, now: real)
    ensures multiset(a + b) == multiset(b + a)
    ensures Messages(a + b, now) == Messages(b + a, now) && Bytes(a + b, now) == Bytes(b + a, now)
  {
    TotalsAdd(a, b, now);
    TotalsAdd(b, a, now);
  }

  function OfKind(l: seq<Record>, kind: int): seq<Record> {
    if l == [] then [] else
      var rest := OfKind(l[..|l| - 1], kind);
      if l[|l| - 1].kind == kind then rest + [l[|l| - 1]] else rest
  }

  function KindsOf(l: seq<Record>, now: real): set<int> { set r | r in l && Recent(r, now) :: r.kind }

  function SumMessages(b: seq<Bucket>): nat { if b == [] then 0 else SumMessages(b[..|b| - 1]) + b[|b| - 1].messages }

  function SumBytes(b: seq<Bucket>): nat { if b == [] then 0 else SumBytes(b[..|b| - 1]) + b[|b| - 1].bytes }

  ghost predicate DistinctKinds(b: seq<Bucket>) { forall i, j :: 0 <= i < j < |b| ==> b[i].kind != b[j].kind }

  /** A bucket counts every recent message of its kind. */
  ghost predicate Counts(b: Bucket, l: seq<Record>, now: real) {
    && b.messages == Messages(OfKind(l, b.kind), now) > 0
    && b.bytes == Bytes(OfKind(l, b.kind), now)
  }

  ghost predicate Tracked(b: seq<Bucket>, kind: int) { exists i :: 0 <= i < |b| && b[i].kind == kind }

  /** Buckets over the first part of the ring: every kind has its own, as far as there is room. */
  ghost predicate Tallied(b: seq<Bucket>, l: seq<Record>, now: real) {
    && |b| <= 91 && DistinctKinds(b)
    && (forall i :: 0 <= i < |b| ==> Counts(b[i], l, now) && b[i].kind in KindsOf(l, now))
    && SumMessages(b) <= Messages(l, now) && SumBytes(b) <= Bytes(l, now)
    && (|b| < 91 || |KindsOf(l, now)| <= 91 ==>
          && SumMessages(b) == Messages(l, now) && SumBytes(b) == Bytes(l, now)
          && forall k :: k in KindsOf(l, now) ==> Tracked(b, k))
  }

  /** Where a kind's bucket is, or would be put. */
  function BucketAt(b: seq<Bucket>, kind: int): (i: nat)
    ensures i <= |b| && (i < |b| ==> b[i].kind == kind) && forall j :: 0 <= j < i ==> b[j].kind != kind
  {
    if b == [] || b[0].kind == kind then 0 else 1 + BucketAt(b[1..], kind)
  }

  function Added(b: seq<Bucket>, r: Record): seq<Bucket> {
    var i := BucketAt(b, r.kind);
    if i < |b| then b[i := Bucket(r.kind, b[i].messages + 1, b[i].bytes + r.bytes)]
    else if |b| >= MAX_BUCKETS then b
    else b + [Bucket(r.kind, 1, r.bytes)]
  }

  lemma {:induction false} SumsPut(b: seq<Bucket>, i: nat, x: Bucket)
    requires i < |b|
    ensures SumMessages(b[i := x]) + b[i].messages == SumMessages(b) + x.messages
    ensures SumBytes(b[i := x]) + b[i].bytes == SumBytes(b) + x.bytes
    decreases |b|
  {
    var n := |b| - 1;
    if i < n {
      SumsPut(b[..n], i, x);
      assert b[i := x][..n] == b[..n][i := x];
    } else {
      assert b[i := x][..n] == b[..n];
    }
  }

  lemma {:induction false} NoSuchKind(l: seq<Record>, now: real, kind: int)
    ensures kind in KindsOf(l, now) <==> Messages(OfKind(l, kind), now) > 0
    ensures kind !in KindsOf(l, now) ==> Bytes(OfKind(l, kind), now) == 0
    decreases |l|
  {
    if l != [] {
      var n := |l| - 1;
      NoSuchKind(l[..n], now, kind);
      KindsSnoc(l[..n], l[n], now);
      assert l == l[..n] + [l[n]];
      OfKindSnoc(l[..n], l[n], kind, now);
    }
  }

  lemma KindsSnoc(l: seq<Record>, r: Record, now: real)
    ensures KindsOf(l + [r], now) == KindsOf(l, now) + if Recent(r, now) then {r.kind} else {}
  {
  }

  lemma OfKindSnoc(l: seq<Record>, r: Record, kind: int, now: real)
    ensures Messages(OfKind(l + [r], kind), now)
      == Messages(OfKind(l, kind), now) + if r.kind == kind && Recent(r, now) then 1 else 0
    ensures Bytes(OfKind(l + [r], kind), now)
      == Bytes(OfKind(l, kind), now) + if r.kind == kind && Recent(r, now) then r.bytes else 0
    ensures Messages(l + [r], now) == Messages(l, now) + if Recent(r, now) then 1 else 0
    ensures Bytes(l + [r], now) == Bytes(l, now) + if Recent(r, now) then r.bytes else 0
  {
    assert (l + [r])[..|l|] == l;
    var o := OfKind(l, kind);
    assert (o + [r])[..|o|] == o;
  }

  /** A message outside the window changes nothing. */
  lemma OldSkipped(b: seq<Bucket>, l: seq<Record>, r: Record, now: real)
    requires Tallied(b, l, now) && !Recent(r, now)
    ensures Tallied(b, l + [r], now)
  {
    KindsSnoc(l, r, now);
    forall i | 0 <= i < |b| ensures Counts(b[i], l + [r], now) { OfKindSnoc(l, r, b[i].kind, now); }
    OfKindSnoc(l, r, 0, now);
  }

  /** As many kinds as buckets: a set of distinct kinds has that size. */
  lemma {:induction false} KindsCount(b: seq<Bucket>)
    requires DistinctKinds(b)
    ensures |set i | 0 <= i < |b| :: b[i].kind| == |b|
    decreases |b|
  {
    if b != [] {
      var n := |b| - 1;
      KindsCount(b[..n]);
      assert (set i | 0 <= i < |b| :: b[i].kind) == (set i | 0 <= i < n :: b[..n][i].kind) + {b[n].kind};
    }
  }

  lemma SubsetSize(a: set<int>, b: set<int>)
    requires a <= b
    ensures |a| <= |b|
  {
    assert a + (b - a) == b;
  }

  lemma CountsMore(b: Bucket, l: seq<Record>, r: Record, now: real)
    requires Counts(b, l, now) && Recent(r, now)
    ensures b.kind == r.kind ==> Counts(Bucket(r.kind, b.messages + 1, b.bytes + r.bytes), l + [r], now)
    ensures b.kind != r.kind ==> Counts(b, l + [r], now)
  {
    OfKindSnoc(l, r, b.kind, now);
  }

  lemma CountsFirst(l: seq<Record>, r: Record, now: real)
    requires r.kind !in KindsOf(l, now) && Recent(r, now)
    ensures Counts(Bucket(r.kind, 1, r.bytes), l + [r], now)
  {
    OfKindSnoc(l, r, r.kind, now);
    NoSuchKind(l, now, r.kind);
  }

  lemma AddedCounts(b: seq<Bucket>, l: seq<Record>, r: Record, now: real, j: nat)
    requires Tallied(b, l, now) && Recent(r, now) && j < |Added(b, r)|
    ensures Counts(Added(b, r)[j], l + [r], now) && Added(b, r)[j].kind in KindsOf(l + [r], now)
  {
    KindsSnoc(l, r, now);
    if j == |b| {
      assert !Tracked(b, r.kind);
      CountsFirst(l, r, now);
    } else {
      CountsMore(b[j], l, r, now);
      SameElsewhere(b, r, j);
    }
  }

  lemma SameElsewhere(b: seq<Bucket>, r: Record, j: nat)
    requires j < |b| && DistinctKinds(b)
    ensures Added(b, r)[j]
      == if b[j].kind == r.kind then Bucket(r.kind, b[j].messages + 1, b[j].bytes + r.bytes) else b[j]
  {
    if b[j].kind == r.kind { assert BucketAt(b, r.kind) == j; }
  }

  lemma AddedTracks(b: seq<Bucket>, r: Record, k: int)
    requires Tracked(b, k) || (k == r.kind && (|b| < MAX_BUCKETS || BucketAt(b, k) < |b|))
    ensures Tracked(Added(b, r), k)
  {
    var i, b' := BucketAt(b, r.kind), Added(b, r);
    if Tracked(b, k) {
      var j :| 0 <= j < |b| && b[j].kind == k;
      assert b'[j].kind == k;
    } else {
      assert b'[i].kind == k;
    }
  }

  lemma AddedSums(b: seq<Bucket>, r: Record)
    ensures |Added(b, r)| <= |b| + 1
    ensures var n := if BucketAt(b, r.kind) < |b| || |b| < MAX_BUCKETS then 1 else 0;
      SumMessages(Added(b, r)) == SumMessages(b) + n && SumBytes(Added(b, r)) == SumBytes(b) + n * r.bytes
  {
    var i := BucketAt(b, r.kind);
    if i < |b| { SumsPut(b, i, Added(b, r)[i]); }
    else if |b| < MAX_BUCKETS { assert Added(b, r)[..|b|] == b; }
  }

  lemma AddedTallied(b: seq<Bucket>, l: seq<Record>, r: Record, now: real)
    requires Tallied(b, l, now) && Recent(r, now)
    ensures Tallied(Added(b, r), l + [r], now)
  {
    var i, b' := BucketAt(b, r.kind), Added(b, r);
    KindsSnoc(l, r, now);
    forall j | 0 <= j < |b'| ensures Counts(b'[j], l + [r], now) && b'[j].kind in KindsOf(l + [r], now) {
      AddedCounts(b, l, r, now, j);
    }
    AddedSums(b, r);
    OfKindSnoc(l, r, 0, now);
    SubsetSize(KindsOf(l, now), KindsOf(l + [r], now));
    if i == |b| && |b| >= MAX_BUCKETS { TooMany(b, l, r, now); }
    if |b'| < MAX_BUCKETS || |KindsOf(l + [r], now)| <= MAX_BUCKETS {
      forall k | k in KindsOf(l + [r], now) ensures Tracked(b', k) { AddedTracks(b, r, k); }
    }
  }

  lemma TooMany(b: seq<Bucket>, l: seq<Record>, r: Record, now: real)
    requires Tallied(b, l, now) && Recent(r, now) && |b| >= MAX_BUCKETS && BucketAt(b, r.kind) == |b|
    ensures |KindsOf(l + [r], now)| > MAX_BUCKETS
  {
    KindsSnoc(l, r, now);
    KindsCount(b);
    var s := set i | 0 <= i < |b| :: b[i].kind;
    assert r.kind !in s;
    SubsetSize(s + {r.kind}, KindsOf(l + [r], now));
  }

  // ---------------------------------------------------------------------------
  // Sorting

  ghost predicate Descending(b: seq<Bucket>) { forall i, j :: 0 <= i < j < |b| ==> b[i].bytes >= b[j].bytes }

  /** The first i are the largest, in order. */
  ghost predicate SortedUpto(b: seq<Bucket>, i: nat) {
    i <= |b| && Descending(b[..i]) && forall j, k :: 0 <= j < i <= k < |b| ==> b[j].bytes >= b[k].bytes
  }

  function Swapped(b: seq<Bucket>, i: nat, j: nat): seq<Bucket>
    requires i < |b| && j < |b|
  {
    b[i := b[j]][j := b[i]]
  }

  lemma SwapKeeps(b: seq<Bucket>, i: nat, j: nat)
    requires i <= j < |b|
    ensures multiset(Swapped(b, i, j)) == multiset(b)
  {
    if i == j { assert Swapped(b, i, j) == b; }
  }

  lemma SwapSorts(b: seq<Bucket>, i: nat, best: nat)
    requires i <= best < |b| && SortedUpto(b, i) && forall k :: i <= k < |b| ==> b[k].bytes <= b[best].bytes
    ensures SortedUpto(Swapped(b, i, best), i + 1)
  {
    var c := Swapped(b, i, best);
    assert forall j :: 0 <= j < i ==> c[j] == b[j] == b[..i][j];
    forall k | i <= k < |c| ensures c[k].bytes <= c[i].bytes {}
  }

  /** The selection sort, on the part of the array that is in use. */
  method SortBuckets(buckets: array<Bucket>, n: nat)
    requires n <= buckets.Length
    modifies buckets
    ensures Descending(buckets[..n]) && multiset(buckets[..n]) == multiset(old(buckets[..n]))
  {
    var i := 0;
    while i < n
      invariant i <= n && SortedUpto(buckets[..n], i)
      invariant multiset(buckets[..n]) == multiset(old(buckets[..n]))
    {
      var best := Largest(buckets, i, n);
      SwapSorts(buckets[..n], i, best);
      SwapKeeps(buckets[..n], i, best);
      Swap(buckets, i, best, n);
      i := i + 1;
    }
    assert buckets[..n][..n] == buckets[..n];
  }

  method Swap(buckets: array<Bucket>, i: nat, best: nat, n: nat)
    requires i <= best < n <= buckets.Length
    modifies buckets
    ensures buckets[..n] == Swapped(old(buckets[..n]), i, best)
  {
    if best != i { buckets[i], buckets[best] := buckets[best], buckets[i]; }
  }

  method Largest(buckets: array<Bucket>, i: nat, n: nat) returns (best: nat)
    requires i < n <= buckets.Length
    ensures i <= best < n && forall k :: i <= k < n ==> buckets[..n][k].bytes <= buckets[..n][best].bytes
  {
    best := i;
    var j := i + 1;
    while j < n
      invariant i <= best < j <= n && forall k :: i <= k < j ==> buckets[k].bytes <= buckets[best].bytes
    {
      if buckets[j].bytes > buckets[best].bytes { best := j; }
      j := j + 1;
    }
  }

  // ---------------------------------------------------------------------------
  // dump_slot

  lemma TalliedNone(now: real)
    ensures Tallied([], [], now)
  {
    assert KindsOf([], now) == {};
  }

  /** The same buckets in another order count the same. */
  lemma {:induction false} SumsOf(b: seq<Bucket>, c: seq<Bucket>)
    requires multiset(b) == multiset(c)
    ensures |b| == |c| && SumMessages(b) == SumMessages(c) && SumBytes(b) == SumBytes(c)
    decreases |b|
  {
    assert |b| == |multiset(b)| == |multiset(c)| == |c|;
    if b != [] {
      var n := |b| - 1;
      assert b[n] in multiset(c);
      var j :| 0 <= j < |c| && c[j] == b[n];
      WithoutOne(b, n);
      WithoutOne(c, j);
      assert b[..n] + b[n + 1..] == b[..n];
      SumsOf(b[..n], c[..j] + c[j + 1..]);
      SumsWithout(c, j);
    }
  }

  lemma WithoutOne(c: seq<Bucket>, j: nat)
    requires j < |c|
    ensures multiset(c[..j] + c[j + 1..]) == multiset(c) - multiset{c[j]}
  {
    assert c == c[..j] + [c[j]] + c[j + 1..];
  }

  lemma {:induction false} SumsWithout(c: seq<Bucket>, j: nat)
    requires j < |c|
    ensures SumMessages(c) == SumMessages(c[..j] + c[j + 1..]) + c[j].messages
    ensures SumBytes(c) == SumBytes(c[..j] + c[j + 1..]) + c[j].bytes
    decreases |c|
  {
    var n := |c| - 1;
    if j < n {
      SumsWithout(c[..n], j);
      var rest := c[..j] + c[j + 1..];
      assert rest[..n - 1] == c[..n][..j] + c[..n][j + 1..] && rest[n - 1] == c[n];
    } else {
      assert c[..j] + c[j + 1..] == c[..n];
    }
  }

  lemma TalliedPermuted(b: seq<Bucket>, c: seq<Bucket>, l: seq<Record>, now: real)
    requires Tallied(b, l, now) && multiset(b) == multiset(c)
    ensures Tallied(c, l, now)
  {
    SumsOf(b, c);
    forall i | 0 <= i < |c| ensures c[i] in b { assert c[i] in multiset(b); }
    forall i, j | 0 <= i < j < |c| ensures c[i].kind != c[j].kind { TwiceIn(b, c, i, j); }
    forall k | Tracked(b, k) ensures Tracked(c, k) {
      var i :| 0 <= i < |b| && b[i].kind == k;
      assert b[i] in multiset(c);
      var j :| 0 <= j < |c| && c[j] == b[i];
    }
  }

  lemma Once(b: seq<Bucket>, p: nat)
    requires DistinctKinds(b) && p < |b|
    ensures multiset(b)[b[p]] == 1
  {
    assert b == b[..p] + [b[p]] + b[p + 1..];
    assert b[p] !in b[..p] && b[p] !in b[p + 1..];
  }

  lemma Twice(c: seq<Bucket>, i: nat, j: nat)
    requires i < j < |c| && c[i] == c[j]
    ensures multiset(c)[c[i]] >= 2
  {
    assert c == c[..j] + [c[j]] + c[j + 1..];
    assert c[..j][i] == c[i];
    assert c[i] in multiset(c[..j]);
  }

  lemma TwiceIn(b: seq<Bucket>, c: seq<Bucket>, i: nat, j: nat)
    requires DistinctKinds(b) && multiset(b) == multiset(c) && i < j < |c|
    ensures c[i].kind != c[j].kind
  {
    assert c[i] in multiset(b) && c[j] in multiset(b);
    var p :| 0 <= p < |b| && b[p] == c[i];
    var q :| 0 <= q < |b| && b[q] == c[j];
    Once(b, p);
    if c[i] == c[j] { Twice(c, i, j); }
  }

  lemma {:induction false} OfKindAdds(a: seq<Record>, b: seq<Record>, kind: int)
    ensures OfKind(a + b, kind) == OfKind(a, kind) + OfKind(b, kind)
    decreases |b|
  {
    if b == [] {
      assert a + b == a && OfKind(a, kind) + [] == OfKind(a, kind);
    } else {
      var n := |b| - 1;
      OfKindAdds(a, b[..n], kind);
      assert (a + b)[..|a| + n] == a + b[..n];
    }
  }

  lemma KindRotated(a: seq<Record>, b: seq<Record>, kind: int, now: real)
    ensures Messages(OfKind(a + b, kind), now) == Messages(OfKind(b + a, kind), now)
    ensures Bytes(OfKind(a + b, kind), now) == Bytes(OfKind(b + a, kind), now)
  {
    OfKindAdds(a, b, kind);
    OfKindAdds(b, a, kind);
    Rotated(OfKind(a, kind), OfKind(b, kind), now);
  }

  lemma KindsRotated(a: seq<Record>, b: seq<Record>, now: real)
    ensures KindsOf(a + b, now) == KindsOf(b + a, now)
  {
    assert forall r :: r in a + b <==> r in b + a;
  }

  /** Buckets over the ring are buckets over the same messages in order. */
  lemma TalliedRotated(buckets: seq<Bucket>, a: seq<Record>, b: seq<Record>, now: real)
    requires Tallied(buckets, a + b, now)
    ensures Tallied(buckets, b + a, now)
  {
    Rotated(a, b, now);
    KindsRotated(a, b, now);
    forall i | 0 <= i < |buckets| ensures Counts(buckets[i], b + a, now) {
      assert Counts(buckets[i], a + b, now);
      KindRotated(a, b, buckets[i].kind, now);
    }
  }

  lemma RingTallied(ring: seq<Record>, next: int, count: int, all: seq<Record>, buckets: seq<Bucket>, now: real)
    requires Holds(ring, next, count, all) && Tallied(buckets, ring[..count], now)
    ensures Tallied(buckets, all[|all| - count..], now)
  {
    RingIsTail(ring, next, count, all);
    if count == RING_SIZE { TalliedRotated(buckets, ring[..next], ring[next..], now); }
  }

  /** The last at most 512. */
  function Window(all: seq<Record>): seq<Record> { if |all| < RING_SIZE then all else all[|all| - RING_SIZE..] }

  /** What the dump reports of a client's last messages, however the ring has wrapped: recent totals, and the recent
      traffic by kind of message, largest first. */
  method Dump(slot: Slot, now: real) returns (messages: nat, bytes: nat, buckets: seq<Bucket>)
    requires slot.Valid()
    ensures messages == Messages(Window(slot.all), now) && bytes == Bytes(Window(slot.all), now)
    ensures Tallied(buckets, Window(slot.all), now) && Descending(buckets)
  {
    ghost var l := slot.ring[..slot.count];
    var table := new Bucket[MAX_BUCKETS](i => Bucket(0, 0, 0));
    var n;
    messages, bytes, n := Gather(slot, now, table);
    ghost var unsorted := table[..n];
    SortBuckets(table, n);
    buckets := table[..n];
    TalliedPermuted(unsorted, buckets, l, now);
    WindowTallied(slot, buckets, now);
  }

  lemma WindowTallied(slot: Slot, buckets: seq<Bucket>, now: real)
    requires slot.Valid() && Tallied(buckets, slot.ring[..slot.count], now)
    ensures Tallied(buckets, Window(slot.all), now)
    ensures var l := slot.ring[..slot.count];
      Messages(l, now) == Messages(Window(slot.all), now) && Bytes(l, now) == Bytes(Window(slot.all), now)
  {
    assert slot.ring[..slot.count] == slot.ring[..][..slot.count];
    WindowOf(slot.ring[..], slot.next, slot.count, slot.all, buckets, now);
  }

  lemma WindowOf(ring: seq<Record>, next: int, count: int, all: seq<Record>, buckets: seq<Bucket>, now: real)
    requires Holds(ring, next, count, all) && Tallied(buckets, ring[..count], now)
    ensures Tallied(buckets, Window(all), now)
    ensures Messages(ring[..count], now) == Messages(Window(all), now)
      && Bytes(ring[..count], now) == Bytes(Window(all), now)
  {
    WindowIs(ring, next, count, all);
    RingTallied(ring, next, count, all, buckets, now);
    RingTotals(ring, next, count, all, now);
  }

  /** All of them while there are fewer than 512, and the last 512 after that. */
  lemma WindowSays(all: seq<Record>)
    ensures |Window(all)| == (if |all| < 512 then |all| else 512)
    ensures all == all[..|all| - |Window(all)|] + Window(all)
  {
    if |all| < 512 { assert all[..0] + all == all; }
  }

  lemma WindowIs(ring: seq<Record>, next: int, count: int, all: seq<Record>)
    requires Holds(ring, next, count, all)
    ensures all[|all| - count..] == Window(all)
  {
    assert all[0..] == all;
  }

  /** The dump of one client: what it reports is read off that client's finished messages. */
  method DumpClient(watcher: Watcher, id: int, now: real) returns (messages: nat, bytes: nat, buckets: seq<Bucket>)
    requires watcher.Valid() && 1 <= id <= 32
    ensures var l := Window(Finished(watcher.log, id));
      && messages == Messages(l, now) && bytes == Bytes(l, now)
      && Tallied(buckets, l, now) && Descending(buckets)
  {
    messages, bytes, buckets := Dump(watcher.slots[id], now);
  }

  ghost predicate Gathered(b: seq<Bucket>, messages: nat, bytes: nat, l: seq<Record>, now: real) {
    messages == Messages(l, now) && bytes == Bytes(l, now) && Tallied(b, l, now)
  }

  lemma NextSeen(l: seq<Record>, i: nat)
    requires i < |l|
    ensures l[..i + 1] == l[..i] + [l[i]]
  {
  }

  method Gather(slot: Slot, now: real, table: array<Bucket>) returns (messages: nat, bytes: nat, n: nat)
    requires slot.Valid() && table.Length == MAX_BUCKETS
    modifies table
    ensures n <= MAX_BUCKETS && Gathered(table[..n], messages, bytes, slot.ring[..slot.count], now)
  {
    ghost var l := slot.ring[..slot.count];
    messages, bytes, n := GatherFrom(slot.ring, slot.count, now, table);
  }

  method GatherFrom(ring: array<Record>, count: nat, now: real, table: array<Bucket>)
    returns (messages: nat, bytes: nat, n: nat)
    requires count <= ring.Length && table.Length == MAX_BUCKETS
    modifies table
    ensures n <= MAX_BUCKETS && Gathered(table[..n], messages, bytes, ring[..count], now)
  {
    messages, bytes, n := 0, 0, 0;
    TalliedNone(now);
    ghost var l := ring[..count];
    var i := 0;
    while i < count
      invariant i <= count && n <= MAX_BUCKETS && ring[..count] == l
      invariant Gathered(table[..n], messages, bytes, l[..i], now)
    {
      NextSeen(l, i);
      messages, bytes, n := GatherOne(l[..i], ring[i], now, table, n, messages, bytes);
      i := i + 1;
    }
    assert l[..i] == l;
  }

  method GatherOne(ghost seen: seq<Record>, r: Record, now: real, table: array<Bucket>, n: nat, messages: nat,
      bytes: nat)
    returns (messages': nat, bytes': nat, n': nat)
    requires n <= MAX_BUCKETS == table.Length && Gathered(table[..n], messages, bytes, seen, now)
    modifies table
    ensures n' <= MAX_BUCKETS && Gathered(table[..n'], messages', bytes', seen + [r], now)
  {
    if now - r.time > WINDOW_SECONDS {
      GatherOld(table[..n], messages, bytes, seen, r, now);
      return messages, bytes, n;
    }
    GatherNew(table[..n], messages, bytes, seen, r, now);
    messages', bytes' := messages + 1, bytes + r.bytes;
    n' := CountIn(table, n, r);
  }

  lemma GatherOld(b: seq<Bucket>, messages: nat, bytes: nat, seen: seq<Record>, r: Record, now: real)
    requires Gathered(b, messages, bytes, seen, now) && !Recent(r, now)
    ensures Gathered(b, messages, bytes, seen + [r], now)
  {
    OfKindSnoc(seen, r, 0, now);
    OldSkipped(b, seen, r, now);
  }

  lemma GatherNew(b: seq<Bucket>, messages: nat, bytes: nat, seen: seq<Record>, r: Record, now: real)
    requires Gathered(b, messages, bytes, seen, now) && Recent(r, now)
    ensures Gathered(Added(b, r), messages + 1, bytes + r.bytes, seen + [r], now)
  {
    OfKindSnoc(seen, r, 0, now);
    AddedTallied(b, seen, r, now);
  }

  method CountIn(table: array<Bucket>, n: nat, r: Record) returns (n': nat)
    requires n <= MAX_BUCKETS == table.Length
    modifies table
    ensures n' <= MAX_BUCKETS && table[..n'] == Added(old(table[..n]), r)
  {
    ghost var was := table[..n];
    n' := n;
    var b := 0;
    while b < n && table[b].kind != r.kind
      invariant b <= n && forall j :: 0 <= j < b ==> was[j].kind != r.kind
    {
      b := b + 1;
    }
    assert b == BucketAt(was, r.kind);
    if b == n {
      if n >= MAX_BUCKETS { return; }
      table[b] := Bucket(r.kind, 0, 0);
      n' := n + 1;
    }
    table[b] := Bucket(r.kind, table[b].messages + 1, table[b].bytes + r.bytes);
    assert table[..n'] == Added(was, r);
  }
}
