/** What hook dispatch means, with immediate deletion.

    A registry holds, per event name, the live handlers in registration order. A callback is an
    arbitrary finite script of registry operations, including nested dispatches, so a statement about
    every script is a statement about every plugin. Removal takes a handler out at once; a walk calls,
    again and again, the first live handler registered after the one it called last. */
module EventSpec {

  /** `stamp` numbers registrations; the original has no such field, the vector position plays its part. */
  datatype Handler = Handler(stamp: nat, ref: int, plugin: int, id: string, dead: bool)

  /** What happened, in order. `Released` lists the references one operation gave back. */
  datatype Entry =
    | Called(walk: nat, name: string, stamp: nat, ref: int)
    | Returned(walk: nat, stop: bool)
    | Released(refs: set<int>)

  datatype FireKind = FromScript | FromEngine | FromMessage

  /** One thing a callback can do. `calls` says what each handler reached by a nested walk does in turn. */
  datatype Op =
    | Add(name: string, plugin: int, id: string)
    | Remove(name: string, plugin: int, id: string)
    | RemovePlugin(plugin: int)
    | SetCancelled(table: nat, value: bool)
    | Fire(kind: FireKind, name: string, table: nat, calls: Calls)

  datatype Script = End | Do(op: Op, next: Script)

  /** The callbacks of one walk in call order; once they run out, handlers do nothing. */
  datatype Calls = Silent | Call(body: Script, later: Calls)

  /** Everything but the handler lists: the reference counter, the event tables, the history. */
  datatype World = World(nextRef: nat, nextStamp: nat, nextWalk: nat, cancelled: set<nat>, log: seq<Entry>)

  datatype Registry = Registry(lists: map<string, seq<Handler>>, w: World)

  // ---------------------------------------------------------------------------
  // Names

  /** The engine's own event names; the registry is generic in them. */
  type Names = set<string>

  predicate HasDot(name: string) { '.' in name }

  /** hook.add takes an engine event, a dotted plugin event or a "msg:" hook; anything else raises. */
  predicate MayAdd(engine: Names, name: string) {
    name in engine || HasDot(name) || "msg:" <= name
  }

  /** hook.run refuses engine events and undotted names; the module fires only its own kinds. */
  predicate MayFire(engine: Names, kind: FireKind, name: string) {
    match kind
    case FromScript => name !in engine && HasDot(name)
    case FromEngine => name in engine
    case FromMessage => name !in engine
  }

  // ---------------------------------------------------------------------------
  // One handler list

  predicate Mine(h: Handler, plugin: int, id: string) {
    !h.dead && h.plugin == plugin && h.id == id
  }

  /** The first live handler of this plugin under this id; |l| when there is none. */
  function Where(l: seq<Handler>, plugin: int, id: string): (i: nat)
    ensures i <= |l| && (i < |l| ==> Mine(l[i], plugin, id))
  {
    if l == [] || Mine(l[0], plugin, id) then 0 else 1 + Where(l[1..], plugin, id)
  }

  lemma {:induction false} BeforeWhere(l: seq<Handler>, plugin: int, id: string, j: nat)
    requires j < Where(l, plugin, id)
    ensures !Mine(l[j], plugin, id)
  {
    if j > 0 { BeforeWhere(l[1..], plugin, id, j - 1); }
  }

  lemma {:induction false} WhereIs(l: seq<Handler>, plugin: int, id: string, i: nat)
    requires i <= |l| && (i < |l| ==> Mine(l[i], plugin, id))
    requires forall j :: 0 <= j < i ==> !Mine(l[j], plugin, id)
    ensures Where(l, plugin, id) == i
  {
    if i > 0 { WhereIs(l[1..], plugin, id, i - 1); }
  }

  /** The references an add or a remove gives back: one or none. */
  function OwnedRefs(l: seq<Handler>, plugin: int, id: string): set<int> {
    var i := Where(l, plugin, id);
    if i < |l| then {l[i].ref} else {}
  }

  /** Same plugin, same id: replaced in place. Otherwise appended under a new stamp. */
  function Upsert(l: seq<Handler>, plugin: int, id: string, ref: int, stamp: nat): seq<Handler> {
    var i := Where(l, plugin, id);
    if i < |l| then l[i := l[i].(ref := ref)] else l + [Handler(stamp, ref, plugin, id, false)]
  }

  function Drop(l: seq<Handler>, plugin: int, id: string): seq<Handler> {
    var i := Where(l, plugin, id);
    if i < |l| then l[..i] + l[i + 1..] else l
  }

  function DropPlugin(l: seq<Handler>, plugin: int): seq<Handler> {
    if l == [] then []
    else if l[0].plugin == plugin then DropPlugin(l[1..], plugin)
    else [l[0]] + DropPlugin(l[1..], plugin)
  }

  /** The handlers registered after stamp `after`, in order. */
  function Later(l: seq<Handler>, after: int): seq<Handler> {
    if l == [] then []
    else if l[0].stamp > after then [l[0]] + Later(l[1..], after)
    else Later(l[1..], after)
  }

  lemma {:induction false} LaterIn(l: seq<Handler>, after: int, h: Handler)
    ensures h in Later(l, after) <==> h in l && h.stamp > after
  {
    if l != [] {
      LaterIn(l[1..], after, h);
      assert h in l <==> h == l[0] || h in l[1..];
    }
  }

  lemma {:induction false} LaterShrinks(l: seq<Handler>, a: int, h: Handler)
    requires a < h.stamp
    ensures |Later(l, h.stamp)| <= |Later(l, a)|
    ensures h in l ==> |Later(l, h.stamp)| < |Later(l, a)|
  {
    if l != [] {
      LaterShrinks(l[1..], a, h);
      assert h in l ==> h == l[0] || h in l[1..];
    }
  }

  // ---------------------------------------------------------------------------
  // Registry operations

  function At(lists: map<string, seq<Handler>>, name: string): seq<Handler> {
    if name in lists then lists[name] else []
  }

  /** An event nobody listens to has no entry. */
  function Put(lists: map<string, seq<Handler>>, name: string, l: seq<Handler>): map<string, seq<Handler>> {
    if l == [] then lists - {name} else lists[name := l]
  }

  function Logged(w: World, e: Entry): World { w.(log := w.log + [e]) }

  function Release(w: World, refs: set<int>): World {
    if refs == {} then w else Logged(w, Released(refs))
  }

  function RefsOfPlugin(lists: map<string, seq<Handler>>, plugin: int): set<int> {
    set n, h | n in lists && h in lists[n] && !h.dead && h.plugin == plugin :: h.ref
  }

  function DoAdd(engine: Names, r: Registry, name: string, plugin: int, id: string): Registry {
    if !MayAdd(engine, name) then r else
      var l := At(r.lists, name);
      var gone := OwnedRefs(l, plugin, id);
      var w := Release(r.w, gone).(nextRef := r.w.nextRef + 1,
                                  nextStamp := if gone == {} then r.w.nextStamp + 1 else r.w.nextStamp);
      Registry(Put(r.lists, name, Upsert(l, plugin, id, r.w.nextRef, r.w.nextStamp)), w)
  }

  function DoRemove(r: Registry, name: string, plugin: int, id: string): Registry {
    var l := At(r.lists, name);
    Registry(Put(r.lists, name, Drop(l, plugin, id)), Release(r.w, OwnedRefs(l, plugin, id)))
  }

  function DoRemovePlugin(r: Registry, plugin: int): Registry {
    Registry(map n | n in r.lists && DropPlugin(r.lists[n], plugin) != [] :: DropPlugin(r.lists[n], plugin),
             Release(r.w, RefsOfPlugin(r.lists, plugin)))
  }

  /** A fresh event table is not cancelled; hook.run resets the caller's. */
  function BeginEvent(w: World, table: nat): World {
    w.(nextWalk := w.nextWalk + 1, cancelled := w.cancelled - {table})
  }

  function Flag(w: World, table: nat, value: bool): World {
    w.(cancelled := if value then w.cancelled + {table} else w.cancelled - {table})
  }

  // ---------------------------------------------------------------------------
  // Scripts and walks

  function RunOp(engine: Names, r: Registry, op: Op): Registry
    decreases op, 0
  {
    match op
    case Add(name, plugin, id) => DoAdd(engine, r, name, plugin, id)
    case Remove(name, plugin, id) => DoRemove(r, name, plugin, id)
    case RemovePlugin(plugin) => DoRemovePlugin(r, plugin)
    case SetCancelled(table, value) => r.(w := Flag(r.w, table, value))
    case Fire(kind, name, table, calls) =>
      if !MayFire(engine, kind, name) then r
      else Walk(engine, r.(w := BeginEvent(r.w, table)), name, r.w.nextWalk, table, -1, calls)
  }

  function RunScript(engine: Names, r: Registry, s: Script): Registry
    decreases s, 0
  {
    match s
    case End => r
    case Do(op, next) => RunScript(engine, RunOp(engine, r, op), next)
  }

  function Rest(calls: Calls): Calls { if calls.Silent? then Silent else calls.later }

  /** One callback of walk `walk`: called, whatever it does, then the look at its event's flag. */
  function CallOne(engine: Names, r: Registry, name: string, walk: nat, table: nat, h: Handler, calls: Calls): Registry
    decreases calls, 0
  {
    var called := r.(w := Logged(r.w, Called(walk, name, h.stamp, h.ref)));
    var ran := if calls.Silent? then called else RunScript(engine, called, calls.body);
    ran.(w := Logged(ran.w, Returned(walk, table in ran.w.cancelled)))
  }

  /** Calls the first live handler past `after`, then goes on past that one, until one cancels. */
  function Walk(engine: Names, r: Registry, name: string, walk: nat, table: nat, after: int, calls: Calls): Registry
    decreases calls, |Later(At(r.lists, name), after)| + 1
  {
    var todo := Later(At(r.lists, name), after);
    if todo == [] then r else
      var h := todo[0];
      var next := CallOne(engine, r, name, walk, table, h, calls);
      if table in next.w.cancelled then next
      else if calls.Silent? then
        LaterIn(At(r.lists, name), after, h);
        LaterShrinks(At(r.lists, name), after, h);
        Walk(engine, next, name, walk, table, h.stamp, calls)
      else Walk(engine, next, name, walk, table, h.stamp, calls.later)
  }
}
