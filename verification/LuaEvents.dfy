/** The event registry as the module keeps it: vectors walked by index, handlers marked dead and swept
    once the outermost walk is over. Every operation is proved to do what EventSpec does with immediate
    deletion. */
module LuaEvents {
  import opened EventSpec

  /** LUA_NOREF */
  const NOREF := -2

  // ---------------------------------------------------------------------------
  // The abstraction: what is left of a list when the dead are not there

  function Live(l: seq<Handler>): seq<Handler> {
    if l == [] then [] else if l[0].dead then Live(l[1..]) else [l[0]] + Live(l[1..])
  }

  function LiveLists(lists: map<string, seq<Handler>>): map<string, seq<Handler>> {
    map n | n in lists && Live(lists[n]) != [] :: Live(lists[n])
  }

  lemma {:induction false} LiveConcat(a: seq<Handler>, b: seq<Handler>)
    ensures Live(a + b) == Live(a) + Live(b)
  {
    if a == [] {
      assert a + b == b;
    } else {
      LiveConcat(a[1..], b);
      Associates(a, b);
    }
  }

  lemma Associates(a: seq<Handler>, b: seq<Handler>)
    requires a != []
    ensures (a + b)[0] == a[0] && (a + b)[1..] == a[1..] + b
    ensures forall x: Handler, c: seq<Handler> :: [x] + c + b == [x] + (c + b)
  {
  }

  /** What one position contributes: itself, or nothing when it is dead. */
  lemma LiveMid(a: seq<Handler>, h: Handler, b: seq<Handler>)
    ensures Live(a + ([h] + b)) == Live(a) + (if h.dead then Live(b) else [h] + Live(b))
  {
    LiveConcat(a, [h] + b);
    assert ([h] + b)[1..] == b;
  }

  lemma Middle(l: seq<Handler>, i: nat, h: Handler)
    requires i < |l|
    ensures l[i := h] == l[..i] + ([h] + l[i + 1..]) && l == l[..i] + ([l[i]] + l[i + 1..])
  {
  }

  ghost predicate NoneMine(l: seq<Handler>, plugin: int, id: string) { forall h :: h in l ==> !Mine(h, plugin, id) }

  lemma LiveNoneMine(l: seq<Handler>, plugin: int, id: string)
    requires NoneMine(l, plugin, id)
    ensures NoneMine(Live(l), plugin, id)
  {
    forall h | h in Live(l) ensures !Mine(h, plugin, id) { LiveIn(l, h); }
  }

  lemma FrontNoneMine(l: seq<Handler>, plugin: int, id: string)
    ensures NoneMine(l[..Where(l, plugin, id)], plugin, id)
  {
    var i := Where(l, plugin, id);
    forall h | h in l[..i] ensures !Mine(h, plugin, id) {
      var j :| 0 <= j < i && l[j] == h;
      BeforeWhere(l, plugin, id, j);
    }
  }

  lemma WhereMid(a: seq<Handler>, h: Handler, b: seq<Handler>, plugin: int, id: string)
    requires NoneMine(a, plugin, id) && Mine(h, plugin, id)
    ensures Where(a + ([h] + b), plugin, id) == |a|
  {
    var l := a + ([h] + b);
    forall j | 0 <= j < |a| ensures !Mine(l[j], plugin, id) { assert l[j] in a; }
    WhereIs(l, plugin, id, |a|);
  }

  lemma WhereNone(l: seq<Handler>, plugin: int, id: string)
    requires NoneMine(l, plugin, id)
    ensures Where(l, plugin, id) == |l|
  {
    WhereIs(l, plugin, id, |l|);
  }

  /** Nobody of this name: nobody live either. */
  lemma LiveNowhere(l: seq<Handler>, plugin: int, id: string)
    requires Where(l, plugin, id) == |l|
    ensures Where(Live(l), plugin, id) == |Live(l)|
  {
    FrontNoneMine(l, plugin, id);
    assert l[..|l|] == l;
    LiveNoneMine(l, plugin, id);
    WhereNone(Live(l), plugin, id);
  }

  /** The live list around the handler found, and where it is found there. */
  lemma LiveAround(l: seq<Handler>, plugin: int, id: string)
    requires Where(l, plugin, id) < |l|
    ensures var i := Where(l, plugin, id); var x, y := Live(l[..i]), Live(l[i + 1..]);
      Live(l) == x + ([l[i]] + y) && Where(Live(l), plugin, id) == |x|
  {
    var i := Where(l, plugin, id);
    Middle(l, i, l[i]);
    LiveMid(l[..i], l[i], l[i + 1..]);
    FrontNoneMine(l, plugin, id);
    LiveNoneMine(l[..i], plugin, id);
    WhereMid(Live(l[..i]), l[i], Live(l[i + 1..]), plugin, id);
  }

  lemma LivePutAt(l: seq<Handler>, i: nat, h: Handler)
    requires i < |l|
    ensures Live(l[i := h]) == Live(l[..i]) + (if h.dead then Live(l[i + 1..]) else [h] + Live(l[i + 1..]))
  {
    Middle(l, i, h);
    LiveMid(l[..i], h, l[i + 1..]);
  }

  // ---------------------------------------------------------------------------
  // What the list operations do to the vectors

  function Kill(h: Handler): Handler { h.(ref := NOREF, dead := true) }

  lemma CutAndPut(x: seq<Handler>, h: Handler, y: seq<Handler>, k: Handler)
    ensures var m := x + ([h] + y);
      m[..|x|] + m[|x| + 1..] == x + y && m[|x|] == h && m[|x| := k] == x + ([k] + y)
  {
  }

  lemma DropAround(x: seq<Handler>, h: Handler, y: seq<Handler>, plugin: int, id: string)
    requires Where(x + ([h] + y), plugin, id) == |x|
    ensures Drop(x + ([h] + y), plugin, id) == x + y && OwnedRefs(x + ([h] + y), plugin, id) == {h.ref}
  {
    CutAndPut(x, h, y, h);
  }

  /** Marking one handler dead is dropping it. */
  lemma KillDrops(l: seq<Handler>, plugin: int, id: string)
    requires Where(l, plugin, id) < |l|
    ensures var i := Where(l, plugin, id); Live(l[i := Kill(l[i])]) == Drop(Live(l), plugin, id)
    ensures OwnedRefs(Live(l), plugin, id) == {l[Where(l, plugin, id)].ref}
  {
    var i := Where(l, plugin, id);
    LiveAround(l, plugin, id);
    LivePutAt(l, i, Kill(l[i]));
    DropAround(Live(l[..i]), l[i], Live(l[i + 1..]), plugin, id);
  }

  lemma ReplaceUpserts(l: seq<Handler>, plugin: int, id: string, ref: int, stamp: nat)
    ensures Live(Upsert(l, plugin, id, ref, stamp)) == Upsert(Live(l), plugin, id, ref, stamp)
    ensures OwnedRefs(Live(l), plugin, id) == OwnedRefs(l, plugin, id)
  {
    var i := Where(l, plugin, id);
    if i < |l| {
      var h := l[i].(ref := ref);
      LiveAround(l, plugin, id);
      LivePutAt(l, i, h);
      CutAndPut(Live(l[..i]), l[i], Live(l[i + 1..]), h);
    } else {
      LiveNowhere(l, plugin, id);
      LiveConcat(l, [Handler(stamp, ref, plugin, id, false)]);
    }
  }

  /** Every handler of a plugin marked dead. */
  function KillAll(l: seq<Handler>, plugin: int): seq<Handler> {
    seq(|l|, i requires 0 <= i < |l| => if l[i].plugin == plugin && !l[i].dead then Kill(l[i]) else l[i])
  }

  lemma KillAllOwn(l: seq<Handler>, plugin: int, h: Handler)
    requires h in l && !h.dead
    ensures h.plugin != plugin <==> h in KillAll(l, plugin)
  {
    var j :| 0 <= j < |l| && l[j] == h;
    assert KillAll(l, plugin)[j] == if h.plugin == plugin then Kill(h) else h;
    assert KillAll(l, plugin)[j] in KillAll(l, plugin);
  }

  lemma {:induction false} KillAllDrops(l: seq<Handler>, plugin: int)
    ensures Live(KillAll(l, plugin)) == DropPlugin(Live(l), plugin)
  {
    if l != [] {
      KillAllDrops(l[1..], plugin);
      assert KillAll(l, plugin)[1..] == KillAll(l[1..], plugin);
      assert !l[0].dead ==> Live(l)[1..] == Live(l[1..]);
    }
  }

  lemma {:induction false} LaterLive(l: seq<Handler>, after: int, i: nat)
    requires i <= |l|
    requires forall j :: 0 <= j < i ==> l[j].dead || l[j].stamp <= after
    requires forall j :: i <= j < |l| ==> l[j].stamp > after
    ensures Later(Live(l), after) == Live(l[i..])
  {
    if l != [] {
      if i == 0 {
        LaterLive(l[1..], after, 0);
        assert l[0..] == l && l[1..][0..] == l[1..];
      } else {
        LaterLive(l[1..], after, i - 1);
        assert l[1..][i - 1..] == l[i..];
      }
      assert !l[0].dead ==> Live(l)[1..] == Live(l[1..]);
    }
  }

  // ---------------------------------------------------------------------------
  // The registry

  /** Lists as they may stand while a walk is being made. */
  ghost predicate ListOk(l: seq<Handler>, bound: nat) {
    && (forall i :: 0 <= i < |l| ==> l[i].stamp < bound)
    && (forall i, j :: 0 <= i < j < |l| ==> l[i].stamp < l[j].stamp)
  }

  /** l may have grown at its end and lost handlers to death, but keeps every position. */
  ghost predicate KeepsPlaces(l: seq<Handler>, l': seq<Handler>) {
    && |l| <= |l'|
    && forall i :: 0 <= i < |l| ==> l'[i].stamp == l[i].stamp && (l[i].dead ==> l'[i].dead)
  }

  ghost predicate Kept(before: map<string, seq<Handler>>, after: map<string, seq<Handler>>) {
    forall n :: n in before ==> n in after && KeepsPlaces(before[n], after[n])
  }

  lemma LiveSame(m: map<string, seq<Handler>>, m': map<string, seq<Handler>>)
    requires forall n :: Live(At(m, n)) == Live(At(m', n))
    ensures LiveLists(m) == LiveLists(m')
  {
    forall n ensures n in LiveLists(m) <==> n in LiveLists(m') {
      assert Live(At(m, n)) == Live(At(m', n));
    }
    forall n | n in LiveLists(m) ensures LiveLists(m)[n] == LiveLists(m')[n] {
      assert Live(At(m, n)) == Live(At(m', n));
    }
  }

  lemma LivePut(m: map<string, seq<Handler>>, name: string, l: seq<Handler>)
    ensures LiveLists(m[name := l]) == Put(LiveLists(m), name, Live(l))
  {
  }

  lemma {:induction false} LiveIn(l: seq<Handler>, h: Handler)
    ensures h in Live(l) <==> h in l && !h.dead
  {
    if l != [] {
      LiveIn(l[1..], h);
      assert h in l <==> h == l[0] || h in l[1..];
    }
  }

  /** Lists with the same live parts hold the same live handlers. */
  lemma LiveThere(m: map<string, seq<Handler>>, m': map<string, seq<Handler>>)
    requires LiveLists(m) == LiveLists(m')
    ensures forall n, h :: n in m && h in m[n] && !h.dead ==> n in m' && h in m'[n]
  {
    forall n, h | n in m && h in m[n] && !h.dead ensures n in m' && h in m'[n] {
      LiveIn(m[n], h);
      assert n in LiveLists(m) && LiveLists(m')[n] == Live(m[n]);
      LiveIn(m'[n], h);
    }
  }

  // Only your own: what an operation by `plugin` on its handler `id` of event `name` may do.

  /** h is a live handler of that event, made by this plugin under this id. */
  ghost predicate Own(m: map<string, seq<Handler>>, name: string, plugin: int, id: string, h: Handler) {
    name in m && h in m[name] && !h.dead && h.plugin == plugin && h.id == id
  }

  /** Every live handler of another event, plugin or id is still there, its reference unchanged. */
  ghost predicate OthersStay(m: map<string, seq<Handler>>, m': map<string, seq<Handler>>, name: string, plugin: int,
      id: string) {
    forall n, h :: n in m && h in m[n] && !h.dead && !(n == name && h.plugin == plugin && h.id == id) ==>
      n in m' && h in m'[n]
  }

  /** Nothing is given back unless one of the caller's own is there, and then that one's reference. */
  ghost predicate GivesBackOwn(m: map<string, seq<Handler>>, w: World, log: seq<Entry>, name: string, plugin: int,
      id: string) {
    if exists h :: Own(m, name, plugin, id, h) then
      exists h :: Own(m, name, plugin, id, h) && log == w.log + [Released({h.ref})]
    else log == w.log
  }

  /** An add by `plugin`: one of its own is in under the reference just minted, all the others are untouched. */
  ghost predicate AddsOwn(m: map<string, seq<Handler>>, w: World, m': map<string, seq<Handler>>, log: seq<Entry>,
      name: string, plugin: int, id: string) {
    && OthersStay(m, m', name, plugin, id)
    && GivesBackOwn(m, w, log, name, plugin, id)
    && exists h :: Own(m', name, plugin, id, h) && h.ref == w.nextRef
  }

  /** Whether a search finds one is whether there is one. */
  lemma FindsOwn(m: map<string, seq<Handler>>, name: string, plugin: int, id: string)
    ensures var l := At(m, name); var i := Where(l, plugin, id);
      if i < |l| then Own(m, name, plugin, id, l[i]) else forall h :: !Own(m, name, plugin, id, h)
  {
    var l := At(m, name);
    FrontNoneMine(l, plugin, id);
    assert l[..|l|] == l;
  }

  /** Writing one position touches nobody at the others. */
  lemma PutOthers(m: map<string, seq<Handler>>, name: string, plugin: int, id: string, l: seq<Handler>)
    requires var o := At(m, name); var i := Where(o, plugin, id);
      |o| <= |l| && forall j :: 0 <= j < |o| && j != i ==> l[j] == o[j]
    ensures OthersStay(m, m[name := l], name, plugin, id)
  {
    var o := At(m, name);
    forall h | h in o && !h.dead && !(h.plugin == plugin && h.id == id) ensures h in l {
      var j :| 0 <= j < |o| && o[j] == h;
      assert l[j] == h;
    }
  }

  /** The vectors and the world after an insertion. */
  function Inserted(m: map<string, seq<Handler>>, w: World, name: string, plugin: int, id: string): Registry {
    var l := At(m, name);
    var i := Where(l, plugin, id);
    Registry(m[name := Upsert(l, plugin, id, w.nextRef, w.nextStamp)],
             if i < |l| then Release(w, {l[i].ref}).(nextRef := w.nextRef + 1)
             else w.(nextRef := w.nextRef + 1, nextStamp := w.nextStamp + 1))
  }

  lemma InsertedOwn(m: map<string, seq<Handler>>, w: World, name: string, plugin: int, id: string)
    ensures var now := Inserted(m, w, name, plugin, id); AddsOwn(m, w, now.lists, now.w.log, name, plugin, id)
  {
    var l := At(m, name);
    var i := Where(l, plugin, id);
    var l' := Upsert(l, plugin, id, w.nextRef, w.nextStamp);
    FindsOwn(m, name, plugin, id);
    PutOthers(m, name, plugin, id, l');
    assert Own(m[name := l'], name, plugin, id, l'[i]);
  }

  lemma OthersStill(m: map<string, seq<Handler>>, m1: map<string, seq<Handler>>, m': map<string, seq<Handler>>,
      name: string, plugin: int, id: string)
    requires OthersStay(m, m1, name, plugin, id) && LiveLists(m1) == LiveLists(m')
    ensures OthersStay(m, m', name, plugin, id)
  {
    LiveThere(m1, m');
  }

  lemma {:induction false} LiveLive(l: seq<Handler>)
    ensures Live(Live(l)) == Live(l)
  {
    if l != [] {
      LiveLive(l[1..]);
      assert !l[0].dead ==> Live(l)[1..] == Live(l[1..]);
    }
  }

  lemma {:induction false} LiveOk(l: seq<Handler>, bound: nat)
    requires ListOk(l, bound)
    ensures ListOk(Live(l), bound)
  {
    if l != [] {
      LiveOk(l[1..], bound);
      if !l[0].dead {
        forall x | x in Live(l[1..]) ensures l[0].stamp < x.stamp { LiveIn(l[1..], x); }
        ConsOk(l[0], Live(l[1..]), bound);
      }
    }
  }

  lemma ConsOk(h: Handler, d: seq<Handler>, bound: nat)
    requires ListOk(d, bound) && h.stamp < bound && forall x :: x in d ==> h.stamp < x.stamp
    ensures ListOk([h] + d, bound)
  {
    forall k | 0 <= k < |d| ensures h.stamp < d[k].stamp { assert d[k] in d; }
  }

  lemma UpsertPlaces(l: seq<Handler>, plugin: int, id: string, ref: int, stamp: nat)
    requires ListOk(l, stamp)
    ensures var l' := Upsert(l, plugin, id, ref, stamp);
      KeepsPlaces(l, l') && ListOk(l', if Where(l, plugin, id) < |l| then stamp else stamp + 1)
  {
  }

  lemma KillPlaces(l: seq<Handler>, i: nat, stamp: nat)
    requires ListOk(l, stamp) && i < |l|
    ensures KeepsPlaces(l, l[i := Kill(l[i])]) && ListOk(l[i := Kill(l[i])], stamp)
  {
  }

  ghost predicate ShapeOf(engine: Names, lists: map<string, seq<Handler>>, bound: nat) {
    engine <= lists.Keys && forall n :: n in lists ==> ListOk(lists[n], bound)
  }

  ghost predicate AllLive(l: seq<Handler>) { forall i :: 0 <= i < |l| ==> !l[i].dead }

  ghost predicate SweptOf(engine: Names, lists: map<string, seq<Handler>>) {
    forall n :: n in lists ==> AllLive(lists[n]) && (n in engine || lists[n] != [])
  }

  lemma InsertKeeps(engine: Names, m: map<string, seq<Handler>>, w: World, name: string, plugin: int, id: string)
    requires ShapeOf(engine, m, w.nextStamp)
    ensures var now := Inserted(m, w, name, plugin, id);
      ShapeOf(engine, now.lists, now.w.nextStamp) && Kept(m, now.lists)
  {
    var l := At(m, name);
    var now := Inserted(m, w, name, plugin, id);
    UpsertPlaces(l, plugin, id, w.nextRef, w.nextStamp);
    forall n | n in now.lists && n != name ensures ListOk(now.lists[n], now.w.nextStamp) {
      assert ListOk(m[n], w.nextStamp);
    }
  }

  lemma InsertSwept(engine: Names, m: map<string, seq<Handler>>, w: World, name: string, plugin: int, id: string)
    requires SweptOf(engine, m)
    ensures SweptOf(engine, Inserted(m, w, name, plugin, id).lists)
  {
  }

  lemma AddAgrees(engine: Names, m: map<string, seq<Handler>>, w: World, name: string, plugin: int, id: string)
    requires MayAdd(engine, name)
    ensures var now := Inserted(m, w, name, plugin, id);
      DoAdd(engine, Registry(LiveLists(m), w), name, plugin, id) == Registry(LiveLists(now.lists), now.w)
  {
    var l := At(m, name);
    assert At(LiveLists(m), name) == Live(l);
    ReplaceUpserts(l, plugin, id, w.nextRef, w.nextStamp);
    LivePut(m, name, Upsert(l, plugin, id, w.nextRef, w.nextStamp));
  }

  lemma RemoveAgrees(m: map<string, seq<Handler>>, w: World, name: string, plugin: int, id: string)
    ensures var l := At(m, name); var i := Where(l, plugin, id);
      DoRemove(Registry(LiveLists(m), w), name, plugin, id) ==
        if i < |l| then Registry(LiveLists(m[name := l[i := Kill(l[i])]]), Release(w, {l[i].ref}))
        else Registry(LiveLists(m), w)
  {
    var l := At(m, name);
    var i := Where(l, plugin, id);
    assert At(LiveLists(m), name) == Live(l);
    if i < |l| {
      KillDrops(l, plugin, id);
      LivePut(m, name, l[i := Kill(l[i])]);
    } else {
      LiveNowhere(l, plugin, id);
    }
  }

  /** The search both hook.add and hook.remove make. */
  method FindMine(l: seq<Handler>, plugin: int, id: string) returns (i: nat)
    ensures i == Where(l, plugin, id)
  {
    i := 0;
    while i < |l| && (l[i].dead || l[i].plugin != plugin || l[i].id != id)
      invariant i <= |l| && forall j :: 0 <= j < i ==> !Mine(l[j], plugin, id)
    {
      i := i + 1;
    }
    WhereIs(l, plugin, id, i);
  }

  /** Erases the dead of one vector, back to front. */
  method EraseDead(list: seq<Handler>) returns (l: seq<Handler>)
    ensures l == Live(list)
  {
    l := list;
    var j := |l|;
    while j > 0
      invariant 0 <= j <= |list|
      invariant l == list[..j] + Live(list[j..])
    {
      j := j - 1;
      assert list[j..][1..] == list[j + 1..];
      assert list[..j + 1] == list[..j] + [list[j]];
      if l[j].dead { l := l[..j] + l[j + 1..]; }
    }
    assert list[0..] == list;
  }

  function PluginRefs(l: seq<Handler>, plugin: int): set<int> {
    set h | h in l && !h.dead && h.plugin == plugin :: h.ref
  }

  method KillPluginIn(list: seq<Handler>, plugin: int) returns (l: seq<Handler>, gone: set<int>)
    ensures l == KillAll(list, plugin) && gone == PluginRefs(list, plugin)
  {
    l, gone := list, {};
    var i := 0;
    while i < |l|
      invariant i <= |l| == |list|
      invariant forall j :: 0 <= j < |l| ==> l[j] == if j < i then KillAll(list, plugin)[j] else list[j]
      invariant gone == PluginRefs(list[..i], plugin)
    {
      assert list[..i + 1] == list[..i] + [list[i]];
      if l[i].plugin == plugin && !l[i].dead {
        gone := gone + {l[i].ref};
        l := l[i := Kill(l[i])];
      }
      i := i + 1;
    }
    assert list[..|list|] == list;
  }

  lemma RefsGrow(m: map<string, seq<Handler>>, todo: set<string>, n: string, plugin: int)
    requires n in todo && n in m
    ensures RefsOfPlugin(m - (todo - {n}), plugin) == RefsOfPlugin(m - todo, plugin) + PluginRefs(m[n], plugin)
  {
    var more, less := m - (todo - {n}), m - todo;
    forall ref
      ensures ref in RefsOfPlugin(more, plugin) <==> ref in RefsOfPlugin(less, plugin) + PluginRefs(m[n], plugin)
    {
      if x: string, h: Handler :| x in more && h in more[x] && !h.dead && h.plugin == plugin && h.ref == ref {
        assert x == n || (x in less && less[x] == more[x]);
      }
      if x: string, h: Handler :| x in less && h in less[x] && !h.dead && h.plugin == plugin && h.ref == ref {
        assert x in more && more[x] == less[x];
      }
      if h :| h in m[n] && !h.dead && h.plugin == plugin && h.ref == ref {
        assert n in more && more[n] == m[n];
      }
    }
  }

  /** Marking a plugin dead in every list is removing it at once. */
  lemma KillEverywhere(engine: Names, m: map<string, seq<Handler>>, m': map<string, seq<Handler>>, plugin: int,
      stamp: nat)
    requires ShapeOf(engine, m, stamp) && m'.Keys == m.Keys
    requires forall n :: n in m' ==> m'[n] == KillAll(m[n], plugin)
    ensures LiveLists(m') == DoRemovePlugin(Registry(LiveLists(m), World(0, 0, 0, {}, [])), plugin).lists
    ensures RefsOfPlugin(LiveLists(m), plugin) == RefsOfPlugin(m, plugin)
    ensures ShapeOf(engine, m', stamp) && Kept(m, m')
  {
    forall n | n in m ensures Live(m'[n]) == DropPlugin(Live(m[n]), plugin) { KillAllDrops(m[n], plugin); }
    LivePluginRefs(m, plugin);
    forall n | n in m ensures ListOk(m'[n], stamp) && KeepsPlaces(m[n], m'[n]) { assert ListOk(m[n], stamp); }
  }

  lemma LivePluginRefs(m: map<string, seq<Handler>>, plugin: int)
    ensures RefsOfPlugin(LiveLists(m), plugin) == RefsOfPlugin(m, plugin)
  {
    forall ref ensures ref in RefsOfPlugin(LiveLists(m), plugin) <==> ref in RefsOfPlugin(m, plugin) {
      if n, h :| n in LiveLists(m) && h in LiveLists(m)[n] && !h.dead && h.plugin == plugin && h.ref == ref {
        LiveIn(m[n], h);
      }
      if n, h :| n in m && h in m[n] && !h.dead && h.plugin == plugin && h.ref == ref {
        LiveIn(m[n], h);
        assert n in LiveLists(m);
      }
    }
  }

  /** What the index has passed is dead or was called; what is ahead was not. */
  ghost predicate WalkAt(l: seq<Handler>, after: int, i: nat) {
    && i <= |l|
    && (forall j :: 0 <= j < i ==> l[j].dead || l[j].stamp <= after)
    && (forall j :: i <= j < |l| ==> l[j].stamp > after)
  }

  lemma WalkSkips(l: seq<Handler>, after: int, i: nat)
    requires WalkAt(l, after, i) && i < |l| && l[i].dead
    ensures WalkAt(l, after, i + 1)
  {
  }

  lemma WalkGoesOn(l: seq<Handler>, l': seq<Handler>, bound: nat, i: nat)
    requires ListOk(l', bound) && KeepsPlaces(l, l') && i < |l|
    ensures WalkAt(l', l[i].stamp, i + 1)
  {
    assert l'[i].stamp == l[i].stamp;
  }

  lemma KeptTrans(a: map<string, seq<Handler>>, b: map<string, seq<Handler>>, c: map<string, seq<Handler>>)
    requires Kept(a, b) && Kept(b, c)
    ensures Kept(a, c)
  {
    forall n | n in a ensures n in c && KeepsPlaces(a[n], c[n]) { assert KeepsPlaces(b[n], c[n]); }
  }

  lemma WalkUnfolds(engine: Names, r: Registry, name: string, walk: nat, table: nat, after: int, calls: Calls)
    requires Later(At(r.lists, name), after) != []
    ensures var h := Later(At(r.lists, name), after)[0]; var next := CallOne(engine, r, name, walk, table, h, calls);
      Walk(engine, r, name, walk, table, after, calls) ==
        if table in next.w.cancelled then next else Walk(engine, next, name, walk, table, h.stamp, Rest(calls))
  {
  }

  /** The handler under the index is the first live one past `after`. */
  lemma WalkFinds(m: map<string, seq<Handler>>, name: string, after: int, i: nat)
    requires name in m && WalkAt(m[name], after, i) && i < |m[name]| && !m[name][i].dead
    ensures var todo := Later(At(LiveLists(m), name), after); todo != [] && todo[0] == m[name][i]
  {
    assert At(LiveLists(m), name) == Live(m[name]);
    LaterLive(m[name], after, i);
  }

  lemma WalkEnds(m: map<string, seq<Handler>>, name: string, after: int)
    requires name in m && WalkAt(m[name], after, |m[name]|)
    ensures Later(At(LiveLists(m), name), after) == []
  {
    assert At(LiveLists(m), name) == Live(m[name]);
    LaterLive(m[name], after, |m[name]|);
  }

  lemma WalkOfNobody(engine: Names, r: Registry, name: string, walk: nat, table: nat, calls: Calls)
    requires At(r.lists, name) == []
    ensures Walk(engine, r, name, walk, table, -1, calls) == r
  {
  }

  /** Erasing the dead everywhere changes no list's live part. */
  lemma EraseEverywhere(engine: Names, m: map<string, seq<Handler>>, m': map<string, seq<Handler>>)
    requires forall n :: n in m' <==> n in m && (n in engine || Live(m[n]) != [])
    requires forall n :: n in m' ==> m'[n] == Live(m[n])
    ensures LiveLists(m') == LiveLists(m)
  {
    forall n ensures Live(At(m', n)) == Live(At(m, n)) { LiveLive(At(m, n)); }
    LiveSame(m', m);
  }

  class Hooks {
    const engine: Names
    /** m_handlers and m_custom in one map: the engine's events always have a vector, plugin events while
        somebody listens. */
    var lists: map<string, seq<Handler>>
    /** m_dispatching */
    var depth: nat
    var w: World

    /** The registry with immediate deletion that this one stands for. */
    ghost function View(): Registry reads this { Registry(LiveLists(lists), w) }

    ghost predicate Shape() reads this { ShapeOf(engine, lists, w.nextStamp) }

    /** With no walk in progress nothing is dead, and a plugin event without handlers has no entry. */
    ghost predicate Swept() reads this { SweptOf(engine, lists) }

    ghost predicate Valid() reads this { Shape() && (depth == 0 ==> Swept()) }

    constructor (engine: Names)
      ensures this.engine == engine && Valid() && depth == 0
      ensures View() == Registry(map[], World(0, 0, 0, {}, []))
    {
      this.engine := engine;
      lists := map n | n in engine :: [];
      depth := 0;
      w := World(0, 0, 0, {}, []);
    }

    /** Erases the dead, and the plugin events nobody listens to; nothing while a walk is being made. */
    method Sweep()
      requires Shape()
      modifies this`lists
      ensures Valid() && View() == old(View())
      ensures depth > 0 ==> lists == old(lists)
    {
      if depth > 0 { return; }
      var todo := lists.Keys;
      while todo != {}
        invariant engine <= lists.Keys && todo <= lists.Keys
        invariant forall n :: n in lists <==> n in old(lists) && (n in todo || n in engine || Live(old(lists)[n]) != [])
        invariant forall n :: n in lists ==> lists[n] == if n in todo then old(lists)[n] else Live(old(lists)[n])
        decreases todo
      {
        var n :| n in todo;
        var l := EraseDead(lists[n]);
        if l == [] && n !in engine { lists := lists - {n}; } else { lists := lists[n := l]; }
        todo := todo - {n};
      }
      EraseEverywhere(engine, old(lists), lists);
      forall n | n in lists ensures ListOk(lists[n], w.nextStamp) { LiveOk(old(lists)[n], w.nextStamp); }
      forall n, i | n in lists && 0 <= i < |lists[n]| ensures !lists[n][i].dead { LiveIn(old(lists)[n], lists[n][i]); }
    }

    method Store(name: string, l: seq<Handler>)
      requires Shape() && ListOk(l, w.nextStamp)
      modifies this`lists
      ensures Shape() && lists == old(lists)[name := l]
    {
      lists := lists[name := l];
    }

    /** hook.add. A caller replaces or adds its own handler only; every other live one stays as it is. */
    method LAdd(name: string, plugin: int, id: string) returns (ok: bool)
      requires Valid()
      modifies this
      ensures Valid() && depth == old(depth) && Kept(old(lists), lists)
      ensures ok <==> name in engine || '.' in name || (|name| >= 4 && name[..4] == "msg:")
      ensures if ok then AddsOwn(old(lists), old(w), lists, w.log, name, plugin, id)
              else lists == old(lists) && w == old(w)
      ensures View() == DoAdd(engine, old(View()), name, plugin, id)
    {
      if name !in engine && !HasDot(name) && !("msg:" <= name) { return false; }
      AddAgrees(engine, lists, w, name, plugin, id);
      InsertedOwn(lists, w, name, plugin, id);
      Insert(name, plugin, id);
      return true;
    }

    /** Same plugin, same id: the reference is replaced. Otherwise the handler goes to the end. */
    method Insert(name: string, plugin: int, id: string)
      requires Valid()
      modifies this
      ensures Valid() && depth == old(depth) && Kept(old(lists), lists)
      ensures Registry(lists, w) == Inserted(old(lists), old(w), name, plugin, id)
    {
      var l := At(lists, name);
      var i := FindMine(l, plugin, id);
      ghost var now := Inserted(lists, w, name, plugin, id);
      InsertKeeps(engine, lists, w, name, plugin, id);
      if depth == 0 { InsertSwept(engine, lists, w, name, plugin, id); }
      var h := Handler(w.nextStamp, w.nextRef, plugin, id, false);
      if i < |l| {
        w := Release(w, {l[i].ref}).(nextRef := w.nextRef + 1);
        lists := lists[name := l[i := l[i].(ref := h.ref)]];
      } else {
        w := w.(nextRef := w.nextRef + 1, nextStamp := w.nextStamp + 1);
        lists := lists[name := l + [h]];
      }
      assert lists == now.lists && w == now.w;
    }

    /** hook.remove. Says whether the caller had a live handler of that id there; only that one goes. */
    method LRemove(name: string, plugin: int, id: string) returns (removed: bool)
      requires Valid()
      modifies this
      ensures Valid() && depth == old(depth) && (depth > 0 ==> Kept(old(lists), lists))
      ensures removed <==> exists h :: Own(old(lists), name, plugin, id, h)
      ensures OthersStay(old(lists), lists, name, plugin, id)
      ensures GivesBackOwn(old(lists), old(w), w.log, name, plugin, id)
      ensures View() == DoRemove(old(View()), name, plugin, id)
    {
      var l := At(lists, name);
      RemoveAgrees(lists, w, name, plugin, id);
      FindsOwn(lists, name, plugin, id);
      var i := FindMine(l, plugin, id);
      removed := i < |l|;
      if removed {
        KillPlaces(l, i, w.nextStamp);
        w := Release(w, {l[i].ref});
        PutOthers(lists, name, plugin, id, l[i := Kill(l[i])]);
        Store(name, l[i := Kill(l[i])]);
      }
      ghost var marked := lists;
      Sweep();
      OthersStill(old(lists), marked, lists, name, plugin, id);
    }

    /** Marks a plugin's handlers dead and drops their references, in every list; nobody else's handler goes. */
    method LRemovePlugin(plugin: int)
      requires Valid()
      modifies this
      ensures Valid() && depth == old(depth) && (depth > 0 ==> Kept(old(lists), lists))
      ensures forall n, h :: n in old(lists) && h in old(lists)[n] && !h.dead ==>
        (h.plugin != plugin <==> n in lists && h in lists[n])
      ensures View() == DoRemovePlugin(old(View()), plugin)
    {
      var gone := KillInAll(plugin);
      ghost var marked := lists;
      KillEverywhere(engine, old(lists), lists, plugin, w.nextStamp);
      w := Release(w, gone);
      Sweep();
      LiveThere(marked, lists);
      LiveThere(lists, marked);
      forall n, h | n in old(lists) && h in old(lists)[n] && !h.dead
        ensures h.plugin != plugin <==> n in lists && h in lists[n]
      {
        KillAllOwn(old(lists)[n], plugin, h);
      }
    }

    method KillInAll(plugin: int) returns (gone: set<int>)
      modifies this`lists
      ensures lists.Keys == old(lists).Keys && forall n :: n in lists ==> lists[n] == KillAll(old(lists)[n], plugin)
      ensures gone == RefsOfPlugin(old(lists), plugin)
    {
      var todo := lists.Keys;
      gone := {};
      while todo != {}
        invariant todo <= lists.Keys == old(lists).Keys
        invariant forall n :: n in lists ==>
          lists[n] == if n in todo then old(lists)[n] else KillAll(old(lists)[n], plugin)
        invariant gone == RefsOfPlugin(old(lists) - todo, plugin)
        decreases todo
      {
        var n :| n in todo;
        RefsGrow(old(lists), todo, n, plugin);
        var l, refs := KillPluginIn(lists[n], plugin);
        lists := lists[n := l];
        gone := gone + refs;
        todo := todo - {n};
      }
      assert old(lists) - {} == old(lists);
    }

    // -------------------------------------------------------------------------
    // Dispatch

    /** dispatch_list: walks the vector by index, which stays right because no list shrinks while depth > 0. */
    method DispatchList(name: string, walk: nat, table: nat, calls: Calls)
      requires Valid() && depth > 0 && name in lists
      modifies this
      ensures Valid() && depth == old(depth) && Kept(old(lists), lists)
      ensures View() == Walk(engine, old(View()), name, walk, table, -1, calls)
      decreases calls, 1
    {
      var i, todo := 0, calls;
      ghost var after: int, goal := -1, Walk(engine, View(), name, walk, table, -1, calls);
      while i < |lists[name]|
        invariant Valid() && depth == old(depth) && Kept(old(lists), lists) && name in lists
        invariant WalkAt(lists[name], after, i)
        invariant goal == Walk(engine, View(), name, walk, table, after, todo)
        invariant todo.Silent? || todo == calls || todo < calls
        decreases todo, |lists[name]| - i
      {
        if lists[name][i].dead {
          WalkSkips(lists[name], after, i);
          i := i + 1;
          continue;
        }
        ghost var was := lists;
        var stop;
        stop, after := CallAt(name, walk, table, i, after, todo);
        KeptTrans(old(lists), was, lists);
        if stop { return; }
        todo, i := Rest(todo), i + 1;
      }
      WalkEnds(lists, name, after);
    }

    /** The handler under the index is called, and its event's flag looked at afterwards. */
    method CallAt(name: string, walk: nat, table: nat, i: nat, ghost after: int, calls: Calls)
        returns (stop: bool, ghost stamp: int)
      requires Valid() && depth > 0 && name in lists && i < |lists[name]|
      requires WalkAt(lists[name], after, i) && !lists[name][i].dead
      modifies this
      ensures Valid() && depth == old(depth) && Kept(old(lists), lists) && name in lists
      ensures WalkAt(lists[name], stamp, i + 1)
      ensures Walk(engine, old(View()), name, walk, table, after, calls) ==
                if stop then View() else Walk(engine, View(), name, walk, table, stamp, Rest(calls))
      ensures calls.Silent? ==> lists == old(lists)
      decreases calls, 0
    {
      ghost var before := View();
      var h := lists[name][i];
      stamp := h.stamp;
      WalkFinds(lists, name, after, i);
      w := Logged(w, Called(walk, name, h.stamp, h.ref));
      if calls.Call? { Run(calls.body); }
      stop := table in w.cancelled;
      w := Logged(w, Returned(walk, stop));
      assert View() == CallOne(engine, before, name, walk, table, h, calls);
      WalkUnfolds(engine, before, name, walk, table, after, calls);
      WalkGoesOn(old(lists)[name], lists[name], w.nextStamp, i);
    }

    /** hook.run, run and run_custom: one walk under a deeper depth, then the sweep. */
    method LFire(kind: FireKind, name: string, table: nat, calls: Calls) returns (cancelled: bool)
      requires Valid()
      modifies this
      ensures Valid() && depth == old(depth) && (depth > 0 ==> Kept(old(lists), lists))
      ensures View() == RunOp(engine, old(View()), Fire(kind, name, table, calls))
      ensures (kind.FromScript? && '.' !in name) || (kind.FromEngine? <==> name !in engine) ==>
        View() == old(View()) && !cancelled
      ensures cancelled <==> MayFire(engine, kind, name) && table in w.cancelled
      decreases calls, 2
    {
      cancelled := false;
      if !MayFire(engine, kind, name) { return; }
      var walk := w.nextWalk;
      w := BeginEvent(w, table);
      if name !in lists || (!kind.FromScript? && lists[name] == []) {
        WalkOfNobody(engine, View(), name, walk, table, calls);
        return;
      }
      depth := depth + 1;
      DispatchList(name, walk, table, calls);
      depth := depth - 1;
      cancelled := table in w.cancelled;
      Sweep();
    }

    method Perform(op: Op)
      requires Valid()
      modifies this
      ensures Valid() && depth == old(depth) && (depth > 0 ==> Kept(old(lists), lists))
      ensures View() == RunOp(engine, old(View()), op)
      decreases op, 3
    {
      match op {
        case Add(name, plugin, id) => var ok := LAdd(name, plugin, id);
        case Remove(name, plugin, id) => var removed := LRemove(name, plugin, id);
        case RemovePlugin(plugin) => LRemovePlugin(plugin);
        case SetCancelled(table, value) => w := Flag(w, table, value);
        case Fire(kind, name, table, calls) => var cancelled := LFire(kind, name, table, calls);
      }
    }

    method Run(s: Script)
      requires Valid()
      modifies this
      ensures Valid() && depth == old(depth) && (depth > 0 ==> Kept(old(lists), lists))
      ensures View() == RunScript(engine, old(View()), s)
      decreases s, 0
    {
      if s.End? { return; }
      Perform(s.op);
      Run(s.next);
    }
  }
}
