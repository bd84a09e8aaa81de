/** Timers on one clock that never restarts.

    `due` counts frame time accumulated over all maps since the start; `time` is the current moment on that clock and
    `last` the last frame. A pass calls, again and again, the first live due timer registered after the one it called
    last. Real numbers stand for the server's floats. */
module TimerSpec {

  datatype Timer = Timer(id: nat, ref: nat, plugin: int, due: real, interval: real, dead: bool, name: string,
      persist: bool)

  /** What happened, in order. */
  datatype Entry =
    | Scheduled(id: nat, due: real, interval: real, persist: bool)
    | Fired(id: nat, at: real)
    | Dropped(id: nat)
    | PassEnd(at: real)
    | MapChanged(at: real)
    | Released(ref: nat)

  datatype Op =
    | After(plugin: int, delay: real, persist: bool)
    | Every(plugin: int, interval: real, persist: bool)
    | Cancel(id: int)
    | Create(plugin: int, name: string, seconds: real, once: bool, persist: bool)
    | Destroy(plugin: int, name: string)

  type Script = seq<Op>

  /** The callbacks of one pass in call order, and whether each raised an error at its end; once they run out,
      callbacks do nothing. */
  datatype Calls = Silent | Call(body: Script, fails: bool, later: Calls)

  datatype State = State(timers: seq<Timer>, nextId: nat, nextRef: nat, time: real, last: real, log: seq<Entry>)

  const INIT := State([], 1, 0, 0.0, 0.0, [])

  function Max(a: real, b: real): real { if a < b then b else a }

  function Logged(s: State, e: Entry): State { s.(log := s.log + [e]) }

  // ---------------------------------------------------------------------------
  // Looking timers up

  function IndexOf(l: seq<Timer>, id: int): (i: nat)
    ensures i <= |l|
    ensures i < |l| ==> l[i].id == id && !l[i].dead
    ensures forall j :: 0 <= j < i ==> l[j].id != id || l[j].dead
  {
    if l == [] || (l[0].id == id && !l[0].dead) then 0 else 1 + IndexOf(l[1..], id)
  }

  predicate Named(t: Timer, plugin: int, name: string) { !t.dead && t.plugin == plugin && t.name == name }

  function IndexNamed(l: seq<Timer>, plugin: int, name: string): (i: nat)
    ensures i <= |l|
    ensures i < |l| ==> Named(l[i], plugin, name)
    ensures forall j :: 0 <= j < i ==> !Named(l[j], plugin, name)
  {
    if l == [] || Named(l[0], plugin, name) then 0 else 1 + IndexNamed(l[1..], plugin, name)
  }

  /** The first timer a pass at `time` still has to call, past id `after`. */
  function NextDue(l: seq<Timer>, time: real, after: int): (i: nat)
    ensures i <= |l|
    ensures i < |l| ==> !l[i].dead && l[i].due <= time && l[i].id > after
    ensures forall j :: 0 <= j < i ==> l[j].dead || l[j].due > time || l[j].id <= after
  {
    if l == [] || (!l[0].dead && l[0].due <= time && l[0].id > after) then 0 else 1 + NextDue(l[1..], time, after)
  }

  // ---------------------------------------------------------------------------
  // What plugins do

  function AddTimer(s: State, plugin: int, delay: real, interval: real, name: string, persist: bool): State {
    var due := s.time + Max(delay, 0.0);
    Logged(s, Scheduled(s.nextId, due, interval, persist)).(
      timers := s.timers + [Timer(s.nextId, s.nextRef, plugin, due, interval, false, name, persist)],
      nextId := s.nextId + 1, nextRef := s.nextRef + 1)
  }

  function Kill(s: State, i: nat): State
    requires i < |s.timers|
  {
    Logged(s, Dropped(s.timers[i].id)).(timers := s.timers[i := s.timers[i].(dead := true)])
  }

  function RunOp(s: State, op: Op): State {
    match op
    case After(plugin, delay, persist) => AddTimer(s, plugin, delay, 0.0, "", persist)
    case Every(plugin, interval, persist) =>
      if interval <= 0.0 then s else AddTimer(s, plugin, interval, interval, "", persist)
    case Cancel(id) =>
      var i := IndexOf(s.timers, id);
      if i < |s.timers| then Kill(s, i) else s
    case Create(plugin, name, seconds, once, persist) =>
      var interval := if once then 0.0 else seconds;
      var i := IndexNamed(s.timers, plugin, name);
      if seconds <= 0.0 then s
      else if i == |s.timers| then AddTimer(s, plugin, seconds, interval, name, persist)
      else
        var t := s.timers[i];
        Logged(Logged(s, Released(t.ref)), Scheduled(t.id, s.time + seconds, interval, persist)).(
          timers := s.timers[i := t.(ref := s.nextRef, due := s.time + seconds,
                                     interval := interval, persist := persist)],
          nextRef := s.nextRef + 1)
    case Destroy(plugin, name) =>
      var i := IndexNamed(s.timers, plugin, name);
      if i < |s.timers| then Kill(s, i) else s
  }

  function RunScript(s: State, script: Script): State
    decreases |script|
  {
    if script == [] then s else RunScript(RunOp(s, script[0]), script[1..])
  }

  // ---------------------------------------------------------------------------
  // A frame

  /** A due timer, just before its callback: put off by its interval, or spent. */
  function Begin(s: State, i: nat): State
    requires i < |s.timers|
  {
    var t := s.timers[i];
    Logged(s, Fired(t.id, s.time)).(
      timers := s.timers[i := if t.interval > 0.0 then t.(due := s.time + t.interval) else t.(dead := true)])
  }

  /** An error in a callback kills the timer, whatever the callback made of it. */
  function Fail(s: State, i: nat): State {
    if i < |s.timers| && !s.timers[i].dead then Kill(s, i) else s
  }

  function CallOne(s: State, i: nat, calls: Calls): State
    requires i < |s.timers|
  {
    if calls.Silent? then Begin(s, i) else
      var ran := RunScript(Begin(s, i), calls.body);
      if calls.fails then Fail(ran, i) else ran
  }

  function Rest(calls: Calls): Calls { if calls.Silent? then Silent else calls.later }

  ghost function Walk(s: State, after: int, calls: Calls): State
    decreases calls, s.nextId - after
  {
    var i := NextDue(s.timers, s.time, after);
    if i == |s.timers| then s else
      var next := CallOne(s, i, calls);
      var id := s.timers[i].id;
      if calls.Silent? then (if id < s.nextId then Walk(next, id, Silent) else next) else Walk(next, id, calls.later)
  }

  ghost function Frame(s: State, calls: Calls): State {
    var walked := Walk(s.(last := s.time), -1, calls);
    Purge(Logged(walked, PassEnd(walked.time)), Dead)
  }

  // ---------------------------------------------------------------------------
  // Erasing

  /** The end of a pass erases the dead, a map change what does not persist, unloading what a plugin owns. */
  datatype Purged = Dead | Loose | Of(plugin: int)

  predicate Goes(p: Purged, t: Timer) {
    match p
    case Dead => t.dead
    case Loose => !t.persist
    case Of(plugin) => t.plugin == plugin
  }

  function Keep(l: seq<Timer>, p: Purged): seq<Timer> {
    if l == [] then [] else
      var n := |l| - 1;
      if Goes(p, l[n]) then Keep(l[..n], p) else Keep(l[..n], p) + [l[n]]
  }

  /** What erasing leaves in the history, the last timer first: its reference, and the timer if it was live. */
  function Trace(l: seq<Timer>, p: Purged): seq<Entry> {
    if l == [] then [] else
      var n := |l| - 1;
      var t := l[n];
      if !Goes(p, t) then Trace(l[..n], p)
      else if t.dead then [Released(t.ref)] + Trace(l[..n], p)
      else [Released(t.ref), Dropped(t.id)] + Trace(l[..n], p)
  }

  function Purge(s: State, p: Purged): State {
    s.(timers := Keep(s.timers, p), log := s.log + Trace(s.timers, p))
  }

  function Raise(l: seq<Timer>, at: real): seq<Timer> {
    seq(|l|, i requires 0 <= i < |l| => l[i].(due := Max(l[i].due, at)))
  }

  /** Accumulated frame time goes on from the last frame; what does not persist is dropped, what was overdue waits
      no longer. */
  function MapChange(s: State): State {
    Purge(Logged(s, MapChanged(s.last)).(timers := Raise(s.timers, s.last), time := s.last), Loose)
  }

  // ---------------------------------------------------------------------------
  // Runs

  datatype Step =
    | Tick(time: real)
    | Plugins(script: Script)
    | RunFrame(calls: Calls)
    | ChangeMap
    | Unload(plugin: int)

  ghost function Next(s: State, step: Step): State {
    match step
    case Tick(time) => s.(time := time)
    case Plugins(script) => RunScript(s, script)
    case RunFrame(calls) => Frame(s, calls)
    case ChangeMap => MapChange(s)
    case Unload(plugin) => Purge(s, Of(plugin))
  }

  ghost function Run(s: State, steps: seq<Step>): State
    decreases |steps|
  {
    if steps == [] then s else Run(Next(s, steps[0]), steps[1..])
  }
}
