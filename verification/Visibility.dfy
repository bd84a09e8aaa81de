/** Per-recipient render overrides: a table on the hot path that must say what the history of calls says. */
module Visibility {
  import opened Wrappers

  const MAX_PLAYERS := 33

  predicate ValidPlayer(id: int) { 1 <= id < MAX_PLAYERS }

  datatype Override = Override(mode: int, amount: real, r: real, g: real, b: real, fx: int)

  datatype Call =
    | Set(index: int, serial: int, recipient: int, values: Override)
    | Clear(index: int, serial: int, recipient: int)
    | Reset

  /** What `recipient` should see of one life of an index: the latest value set, unless it was cleared since, or
      another life of the index was given an override, or the map ended. */
  ghost function Latest(log: seq<Call>, index: int, serial: int, recipient: int): Option<Override>
    decreases |log|
  {
    if log == [] then None else
      var before := Latest(log[..|log| - 1], index, serial, recipient);
      match log[|log| - 1]
      case Reset => None
      case Set(i, s, r, v) =>
        if !ValidPlayer(r) || i <= 0 || i != index then before
        else if s != serial then None
        else if r == recipient then Some(v) else before
      case Clear(i, s, r) => if i == index && s == serial && r == recipient then None else before
  }

  /** What ends an override: the map, a clear of it, a new value for it, another life of its index being given one. */
  predicate Undoes(c: Call, index: int, serial: int, recipient: int) {
    match c
    case Reset => true
    case Set(i, s, r, _) => i == index && 1 <= r <= 32 && (s != serial || r == recipient)
    case Clear(i, s, r) => i == index && s == serial && r == recipient
  }

  ghost predicate SetAt(log: seq<Call>, k: nat, index: int, serial: int, recipient: int, v: Override) {
    && k < |log| && log[k] == Set(index, serial, recipient, v)
    && forall j :: k < j < |log| ==> !Undoes(log[j], index, serial, recipient)
  }

  /** A player sees a value exactly when it was set for them and nothing has ended it since. */
  lemma {:induction false} LatestExactly(log: seq<Call>, index: int, serial: int, recipient: int, v: Override)
    requires index > 0 && 1 <= recipient <= 32
    ensures Latest(log, index, serial, recipient) == Some(v) <==>
      exists k :: SetAt(log, k, index, serial, recipient, v)
    decreases |log|
  {
    if log != [] {
      var n := |log| - 1;
      var front := log[..n];
      LatestExactly(front, index, serial, recipient, v);
      if log[n] == Set(index, serial, recipient, v) {
        assert SetAt(log, n, index, serial, recipient, v);
      } else if !Undoes(log[n], index, serial, recipient) {
        if k: nat :| SetAt(front, k, index, serial, recipient, v) {
          assert SetAt(log, k, index, serial, recipient, v);
        }
        if k: nat :| SetAt(log, k, index, serial, recipient, v) {
          assert SetAt(front, k, index, serial, recipient, v);
        }
      } else {
        assert forall k: nat :: SetAt(log, k, index, serial, recipient, v) ==> k == n;
      }
    }
  }

  /** A row that is not active is None. */
  type Rows = r: seq<Option<Override>> | |r| == 33 witness NoRows(33)

  function NoRows(n: nat): (r: seq<Option<Override>>)
    ensures |r| == n && forall i :: 0 <= i < n ==> r[i] == None
  {
    if n == 0 then [] else NoRows(n - 1) + [None]
  }

  datatype Slot = Slot(serial: int, rows: Rows)

  const EMPTY: Slot := Slot(-1, NoRows(MAX_PLAYERS))

  // ---------------------------------------------------------------------------
  // Counting active rows

  function Active(rows: seq<Option<Override>>): nat {
    if rows == [] then 0 else Active(rows[..|rows| - 1]) + if rows[|rows| - 1].Some? then 1 else 0
  }

  function Total(slots: seq<Slot>): nat {
    if slots == [] then 0 else Total(slots[..|slots| - 1]) + Active(slots[|slots| - 1].rows)
  }

  lemma {:induction false} ActivePut(rows: seq<Option<Override>>, i: nat, o: Option<Override>)
    requires i < |rows|
    ensures Active(rows[i := o]) + (if rows[i].Some? then 1 else 0) == Active(rows) + if o.Some? then 1 else 0
    decreases |rows|
  {
    var n := |rows| - 1;
    if i < n {
      ActivePut(rows[..n], i, o);
      assert rows[i := o][..n] == rows[..n][i := o];
    } else {
      assert rows[i := o][..n] == rows[..n];
    }
  }

  lemma {:induction false} NoneActive(rows: seq<Option<Override>>)
    ensures Active(rows) == 0 <==> forall i :: 0 <= i < |rows| ==> rows[i].None?
    decreases |rows|
  {
    if rows != [] { NoneActive(rows[..|rows| - 1]); }
  }

  lemma {:induction false} TotalPut(slots: seq<Slot>, i: nat, slot: Slot)
    requires i < |slots|
    ensures Total(slots[i := slot]) + Active(slots[i].rows) == Total(slots) + Active(slot.rows)
    decreases |slots|
  {
    var n := |slots| - 1;
    if i < n {
      TotalPut(slots[..n], i, slot);
      assert slots[i := slot][..n] == slots[..n][i := slot];
    } else {
      assert slots[i := slot][..n] == slots[..n];
    }
  }

  /** Nothing active in all means nothing active anywhere. */
  lemma {:induction false} ZeroTotal(slots: seq<Slot>, i: nat, r: nat)
    requires Total(slots) == 0 && i < |slots| && r < MAX_PLAYERS
    ensures slots[i].rows[r].None?
    decreases |slots|
  {
    var n := |slots| - 1;
    NoneActive(slots[n].rows);
    if i < n { ZeroTotal(slots[..n], i, r); }
  }

  function Grown(slots: seq<Slot>, index: nat): seq<Slot>
    decreases if |slots| <= index then index + 1 - |slots| else 0
  {
    if index < |slots| then slots else Grown(slots + [EMPTY], index)
  }

  lemma {:induction false} GrownKeeps(slots: seq<Slot>, index: nat)
    ensures index < |Grown(slots, index)| && Total(Grown(slots, index)) == Total(slots)
    ensures |slots| <= |Grown(slots, index)|
    ensures forall i :: 0 <= i < |Grown(slots, index)| ==>
      Grown(slots, index)[i] == if i < |slots| then slots[i] else EMPTY
    decreases if |slots| <= index then index + 1 - |slots| else 0
  {
    if index >= |slots| {
      assert (slots + [EMPTY])[..|slots|] == slots;
      NoneActive(NoRows(MAX_PLAYERS));
      GrownKeeps(slots + [EMPTY], index);
    }
  }

  // ---------------------------------------------------------------------------
  // The table agrees with the history

  function Lookup(slots: seq<Slot>, index: int, serial: int, recipient: int): Option<Override> {
    if 0 < index < |slots| && slots[index].serial == serial && ValidPlayer(recipient) then slots[index].rows[recipient]
    else None
  }

  ghost predicate Agrees(slots: seq<Slot>, log: seq<Call>) {
    && (forall index, serial, recipient | 0 < index && ValidPlayer(recipient) ::
          Lookup(slots, index, serial, recipient) == Latest(log, index, serial, recipient))
    && (forall i :: 0 <= i < |slots| ==> slots[i].rows[0].None?)
  }

  lemma AgreesBy(slots: seq<Slot>, slots': seq<Slot>, log: seq<Call>, call: Call)
    requires Agrees(slots, log) && forall i :: 0 <= i < |slots'| ==> slots'[i].rows[0].None?
    requires forall index, serial, recipient | 0 < index && ValidPlayer(recipient) ::
               Lookup(slots', index, serial, recipient) ==
                 (match call
                  case Reset => None
                  case Set(i, s, r, v) =>
                    if !ValidPlayer(r) || i <= 0 || i != index then Lookup(slots, index, serial, recipient)
                    else if s != serial then None
                    else if r == recipient then Some(v) else Lookup(slots, index, serial, recipient)
                  case Clear(i, s, r) =>
                    if i == index && s == serial && r == recipient then None
                    else Lookup(slots, index, serial, recipient))
    ensures Agrees(slots', log + [call])
  {
    assert (log + [call])[..|log|] == log;
  }

  function WithRow(slot: Slot, r: nat, o: Option<Override>): Slot
    requires r < MAX_PLAYERS
  {
    slot.(rows := slot.rows[r := o])
  }

  lemma RowPut(slots: seq<Slot>, index: nat, r: nat, o: Option<Override>)
    requires index < |slots| && r < MAX_PLAYERS
    ensures Total(slots[index := WithRow(slots[index], r, o)]) + (if slots[index].rows[r].Some? then 1 else 0)
         == Total(slots) + if o.Some? then 1 else 0
  {
    ActivePut(slots[index].rows, r, o);
    TotalPut(slots, index, WithRow(slots[index], r, o));
  }

  /** The slot is there and belongs to this life; another life's rows are gone from it. */
  ghost predicate Claimed(slots: seq<Slot>, slots': seq<Slot>, index: nat, serial: int) {
    && |slots| <= |slots'| && index < |slots'|
    && (forall i :: 0 <= i < |slots| && i != index ==> slots'[i] == slots[i])
    && (forall i :: |slots| <= i < |slots'| && i != index ==> slots'[i] == EMPTY)
    && slots'[index].serial == serial
    && (index < |slots| && slots[index].serial == serial ==> slots'[index].rows == slots[index].rows)
    && (index >= |slots| || slots[index].serial != serial ==> slots'[index].rows == NoRows(MAX_PLAYERS))
  }

  lemma SetAgrees(slots: seq<Slot>, claimed: seq<Slot>, log: seq<Call>, index: nat, serial: int, recipient: int,
      v: Override)
    requires Agrees(slots, log) && Claimed(slots, claimed, index, serial) && ValidPlayer(recipient) && index > 0
    ensures Agrees(claimed[index := WithRow(claimed[index], recipient, Some(v))],
                   log + [Set(index, serial, recipient, v)])
  {
    AgreesBy(slots, claimed[index := WithRow(claimed[index], recipient, Some(v))], log,
        Set(index, serial, recipient, v));
  }

  predicate IsSet(slots: seq<Slot>, index: int, serial: int, recipient: int) {
    ValidPlayer(recipient) && 0 < index < |slots| && slots[index].serial == serial
      && slots[index].rows[recipient].Some?
  }

  lemma ClearAgrees(slots: seq<Slot>, log: seq<Call>, index: int, serial: int, recipient: int)
    requires Agrees(slots, log)
    ensures var cleared := log + [Clear(index, serial, recipient)];
      if IsSet(slots, index, serial, recipient)
      then Agrees(slots[index := WithRow(slots[index], recipient, None)], cleared)
      else Agrees(slots, cleared)
  {
    if IsSet(slots, index, serial, recipient) {
      AgreesBy(slots, slots[index := WithRow(slots[index], recipient, None)], log, Clear(index, serial, recipient));
    } else {
      AgreesBy(slots, slots, log, Clear(index, serial, recipient));
    }
  }

  /** What the client is told. */
  datatype EntityState = EntityState(mode: int, amount: int, r: int, g: int, b: int, fx: int)

  /** A C cast from float to int drops the fraction. */
  function Truncate(x: real): int { if x >= 0.0 then x.Floor else -((-x).Floor) }

  /** A C cast to an unsigned byte, by way of int. */
  function ToByte(x: real): int { Truncate(x) % 256 }

  function Painted(state: EntityState, o: Option<Override>): EntityState {
    match o
    case None => state
    case Some(v) => EntityState(v.mode, Truncate(v.amount), ToByte(v.r), ToByte(v.g), ToByte(v.b), v.fx)
  }

  /** n is x without its fraction. */
  ghost predicate DropsFraction(x: real, n: int) {
    if x >= 0.0 then n as real <= x < n as real + 1.0 else n as real - 1.0 < x <= n as real
  }

  ghost predicate IsByteOf(x: real, b: int) { 0 <= b < 256 && exists n :: DropsFraction(x, n) && (n - b) % 256 == 0 }

  /** Field by field: mode and effect as set, the amount without its fraction, each colour its byte. */
  ghost predicate PaintedAs(state: EntityState, o: Option<Override>, painted: EntityState) {
    match o
    case None => painted == state
    case Some(v) =>
      && painted.mode == v.mode && painted.fx == v.fx && DropsFraction(v.amount, painted.amount)
      && IsByteOf(v.r, painted.r) && IsByteOf(v.g, painted.g) && IsByteOf(v.b, painted.b)
  }

  lemma Paints(state: EntityState, o: Option<Override>)
    ensures PaintedAs(state, o, Painted(state, o))
  {
    if o.Some? {
      var v := o.value;
      Truncates(v.amount);
      Truncates(v.r);
      Truncates(v.g);
      Truncates(v.b);
    }
  }

  lemma Truncates(x: real)
    ensures DropsFraction(x, Truncate(x)) && IsByteOf(x, ToByte(x))
  {
    assert DropsFraction(x, Truncate(x)) && (Truncate(x) - ToByte(x)) % 256 == 0;
  }

  class Table {
    var slots: seq<Slot>
    /** s_active_total */
    var total: int
    ghost var log: seq<Call>

    ghost predicate Valid() reads this { total == Total(slots) && Agrees(slots, log) }

    constructor ()
      ensures Valid() && log == []
    {
      slots, total, log := [], 0, [];
    }

    /** The previous life's rows go. */
    method WipeRows(index: nat)
      requires total == Total(slots) && index < |slots|
      modifies this`slots, this`total
      ensures total == Total(slots)
      ensures slots == old(slots)[index := Slot(old(slots)[index].serial, NoRows(MAX_PLAYERS))]
    {
      var i := 0;
      while i < MAX_PLAYERS
        invariant 0 <= i <= MAX_PLAYERS && |slots| == |old(slots)| && total == Total(slots)
        invariant slots == old(slots)[index := Slot(old(slots)[index].serial, slots[index].rows)]
        invariant forall k :: 0 <= k < i ==> slots[index].rows[k].None?
      {
        if slots[index].rows[i].Some? {
          RowPut(slots, index, i, None);
          slots := slots[index := WithRow(slots[index], i, None)];
          total := total - 1;
        }
        i := i + 1;
      }
      assert slots[index].rows == NoRows(MAX_PLAYERS);
    }

    /** slot_for with create: the slot is there afterwards, and belongs to this life of the index. */
    method SlotFor(index: nat, serial: int)
      requires total == Total(slots)
      modifies this`slots, this`total
      ensures total == Total(slots) && Claimed(old(slots), slots, index, serial)
    {
      GrownKeeps(slots, index);
      if index >= |slots| { slots := Grown(slots, index); }
      if slots[index].serial != serial {
        WipeRows(index);
        TotalPut(slots, index, slots[index].(serial := serial));
        slots := slots[index := slots[index].(serial := serial)];
      }
    }

    /** cslua_visibility_set */
    method SetOverride(index: int, serial: int, recipient: int, values: Override)
      requires Valid()
      modifies this
      ensures Valid() && log == old(log) + [Set(index, serial, recipient, values)]
      ensures index > 0 && 1 <= recipient <= 32 ==> Latest(log, index, serial, recipient) == Some(values)
    {
      log := log + [Set(index, serial, recipient, values)];
      if !ValidPlayer(recipient) || index <= 0 {
        AgreesBy(slots, slots, old(log), Set(index, serial, recipient, values));
        return;
      }
      SlotFor(index, serial);
      RowPut(slots, index, recipient, Some(values));
      SetAgrees(old(slots), slots, old(log), index, serial, recipient, values);
      if slots[index].rows[recipient].None? { total := total + 1; }
      slots := slots[index := WithRow(slots[index], recipient, Some(values))];
    }

    /** cslua_visibility_clear */
    method ClearOverride(index: int, serial: int, recipient: int)
      requires Valid()
      modifies this
      ensures Valid() && log == old(log) + [Clear(index, serial, recipient)]
    {
      log := log + [Clear(index, serial, recipient)];
      ClearAgrees(slots, old(log), index, serial, recipient);
      if !ValidPlayer(recipient) || index <= 0 || index >= |slots| || slots[index].serial != serial { return; }
      RowPut(slots, index, recipient, None);
      if slots[index].rows[recipient].Some? {
        slots := slots[index := WithRow(slots[index], recipient, None)];
        total := total - 1;
      }
    }

    /** cslua_visibility_reset */
    method ResetAll()
      requires Valid()
      modifies this
      ensures Valid() && log == old(log) + [Reset]
    {
      slots, total := [], 0;
      log := log + [Reset];
      AgreesBy(old(slots), [], old(log), Reset);
    }

    /** cslua_visibility_get */
    method Get(index: int, serial: int, recipient: int) returns (o: Option<Override>)
      requires Valid()
      ensures 1 <= recipient <= 32 && index > 0 ==> o == Latest(log, index, serial, recipient)
      ensures !(1 <= recipient <= 32 && index > 0) ==> o == None
    {
      if !ValidPlayer(recipient) || index <= 0 || index >= |slots| || slots[index].serial != serial {
        assert Lookup(slots, index, serial, recipient) == None;
        return None;
      }
      assert Lookup(slots, index, serial, recipient) == slots[index].rows[recipient];
      return slots[index].rows[recipient];
    }

    /** cslua_visibility_apply, whose first test is the fast way out: it paints exactly what the history says. */
    method Apply(state: EntityState, index: int, serial: int, recipient: int) returns (painted: EntityState)
      requires Valid()
      ensures 1 <= recipient <= 32 && index > 0 ==>
        PaintedAs(state, Latest(log, index, serial, recipient), painted)
      ensures !(1 <= recipient <= 32 && index > 0) ==> painted == state
    {
      painted := state;
      assert ValidPlayer(recipient) && index > 0 ==>
               Lookup(slots, index, serial, recipient) == Latest(log, index, serial, recipient);
      if total == 0 {
        if ValidPlayer(recipient) && 0 < index < |slots| { ZeroTotal(slots, index, recipient); }
        return;
      }
      if index <= 0 || index >= |slots| { return; }
      var slot := slots[index];
      if slot.serial != serial || !ValidPlayer(recipient) || slot.rows[recipient].None? { return; }
      var v := slot.rows[recipient].value;
      painted := EntityState(v.mode, Truncate(v.amount), ToByte(v.r), ToByte(v.g), ToByte(v.b), v.fx);
      Paints(state, Some(v));
    }
  }
}
