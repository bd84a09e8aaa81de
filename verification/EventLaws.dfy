/** What every script of registry operations keeps, and what every walk guarantees. */
module EventLaws {
  import opened EventSpec

  // ---------------------------------------------------------------------------
  // The invariant

  ghost predicate ListOk(l: seq<Handler>, bound: nat) {
    && l != []
    && (forall i :: 0 <= i < |l| ==> !l[i].dead && l[i].stamp < bound)
    && (forall i, j :: 0 <= i < j < |l| ==> l[i].stamp < l[j].stamp)
    && (forall i, j :: 0 <= i < j < |l| ==> l[i].plugin != l[j].plugin || l[i].id != l[j].id)
  }

  ghost predicate Holds(lists: map<string, seq<Handler>>, n: string, h: Handler) {
    n in lists && h in lists[n]
  }

  ghost predicate ListsOk(r: Registry) {
    forall n :: n in r.lists ==> ListOk(r.lists[n], r.w.nextStamp)
  }

  ghost function LiveRefs(lists: map<string, seq<Handler>>): set<int> {
    set n, h | n in lists && h in lists[n] :: h.ref
  }

  /** Every reference a log gave back. */
  ghost function Gone(log: seq<Entry>): set<int> {
    if log == [] then {} else
      var e := log[|log| - 1];
      Gone(log[..|log| - 1]) + (if e.Released? then e.refs else {})
  }

  /** No reference is called or given back again once it has been given back. */
  ghost predicate NoUseAfterRelease(log: seq<Entry>) {
    forall i, j :: 0 <= i < j < |log| && log[i].Released? ==>
      && (log[j].Called? ==> log[j].ref !in log[i].refs)
      && (log[j].Released? ==> log[j].refs !! log[i].refs)
  }

  /** A reference has one holder, and every reference ever minted is held or given back, never both. */
  ghost predicate RefsOk(r: Registry) {
    && (forall n1, h1, n2, h2 :: Holds(r.lists, n1, h1) && Holds(r.lists, n2, h2) && h1.ref == h2.ref ==>
        n1 == n2 && h1 == h2)
    && LiveRefs(r.lists) !! Gone(r.w.log)
    && (forall ref :: 0 <= ref < r.w.nextRef <==> ref in LiveRefs(r.lists) || ref in Gone(r.w.log))
  }

  ghost predicate OfWalk(e: Entry, walk: nat) { !e.Released? && e.walk == walk }

  /** Within one walk stamps only grow, and nothing is called after a callback left its event cancelled. */
  ghost predicate WalksOrdered(log: seq<Entry>) {
    forall i, j :: 0 <= i < j < |log| && log[j].Called? && OfWalk(log[i], log[j].walk) ==>
      (log[i].Called? ==> log[i].stamp < log[j].stamp) && (log[i].Returned? ==> !log[i].stop)
  }

  ghost predicate LogOk(w: World) {
    && NoUseAfterRelease(w.log)
    && WalksOrdered(w.log)
    && (forall i :: 0 <= i < |w.log| && !w.log[i].Released? ==> w.log[i].walk < w.nextWalk)
  }

  ghost predicate Inv(r: Registry) { ListsOk(r) && RefsOk(r) && LogOk(r.w) }

  /** How a later registry relates to an earlier one. `mine` is the walk now being made, or -1: nothing
      else in progress is added to, and no handler once removed comes back. */
  ghost predicate Follows(r: Registry, r': Registry, mine: int) {
    && r.w.log <= r'.w.log && r.w.nextWalk <= r'.w.nextWalk && r.w.nextStamp <= r'.w.nextStamp
    && (forall k :: |r.w.log| <= k < |r'.w.log| && !r'.w.log[k].Released? ==>
          r'.w.log[k].walk == mine || r.w.nextWalk <= r'.w.log[k].walk)
    && (forall n, h' :: Holds(r'.lists, n, h') && h'.stamp < r.w.nextStamp ==> Listed(r.lists, n, h'.stamp))
  }

  ghost predicate Listed(lists: map<string, seq<Handler>>, n: string, stamp: nat) {
    exists h :: Holds(lists, n, h) && h.stamp == stamp
  }

  lemma FollowsTrans(a: Registry, b: Registry, c: Registry, mine: int, more: int)
    requires Follows(a, b, mine) && Follows(b, c, more) && (more == mine || more == -1)
    ensures Follows(a, c, mine)
  {
    forall n, h | Holds(c.lists, n, h) && h.stamp < a.w.nextStamp ensures Listed(a.lists, n, h.stamp) {
      var h' :| Holds(b.lists, n, h') && h'.stamp == h.stamp;
    }
    forall k | |a.w.log| <= k < |c.w.log| && !c.w.log[k].Released?
      ensures c.w.log[k].walk == mine || a.w.nextWalk <= c.w.log[k].walk
    {
      if k < |b.w.log| { assert c.w.log[k] == b.w.log[k]; }
    }
  }

  // ---------------------------------------------------------------------------
  // Single operations

  lemma GoneSnoc(log: seq<Entry>, e: Entry)
    ensures Gone(log + [e]) == Gone(log) + (if e.Released? then e.refs else {})
  {
    assert (log + [e])[..|log|] == log;
  }

  lemma {:induction false} GoneMember(log: seq<Entry>, i: nat)
    requires i < |log| && log[i].Released?
    ensures log[i].refs <= Gone(log)
  {
    if i < |log| - 1 { GoneMember(log[..|log| - 1], i); }
  }

  lemma NoUseSnoc(log: seq<Entry>, e: Entry)
    requires NoUseAfterRelease(log)
    requires (e.Called? ==> e.ref !in Gone(log)) && (e.Released? ==> e.refs !! Gone(log))
    ensures NoUseAfterRelease(log + [e])
  {
    forall i | 0 <= i < |log| && log[i].Released?
      ensures (e.Called? ==> e.ref !in log[i].refs) && (e.Released? ==> e.refs !! log[i].refs)
    {
      GoneMember(log, i);
    }
  }

  /** A walk's next call is of a later handler, and no callback has cancelled. */
  ghost predicate GoesOn(log: seq<Entry>, walk: nat, stamp: nat) {
    forall i :: 0 <= i < |log| && OfWalk(log[i], walk) ==>
      (log[i].Called? ==> log[i].stamp < stamp) && (log[i].Returned? ==> !log[i].stop)
  }

  lemma OrderedSnoc(log: seq<Entry>, e: Entry)
    requires WalksOrdered(log) && (e.Called? ==> GoesOn(log, e.walk, e.stamp))
    ensures WalksOrdered(log + [e])
  {
  }

  lemma LogSnoc(w: World, e: Entry)
    requires LogOk(w) && (!e.Released? ==> e.walk < w.nextWalk)
    requires (e.Called? ==> e.ref !in Gone(w.log)) && (e.Released? ==> e.refs !! Gone(w.log))
    requires e.Called? ==> GoesOn(w.log, e.walk, e.stamp)
    ensures LogOk(Logged(w, e))
  {
    NoUseSnoc(w.log, e);
    OrderedSnoc(w.log, e);
  }

  lemma LogRelease(w: World, refs: set<int>)
    requires LogOk(w) && refs !! Gone(w.log)
    ensures LogOk(Release(w, refs)) && Gone(Release(w, refs).log) == Gone(w.log) + refs
  {
    if refs != {} {
      GoneSnoc(w.log, Released(refs));
      LogSnoc(w, Released(refs));
    }
  }

  /** r' is r without the handlers holding `gone`, and with h0 in n0 when `adds`. */
  ghost predicate Changed(r: Registry, r': Registry, gone: set<int>, adds: bool, n0: string, h0: Handler) {
    && gone <= LiveRefs(r.lists)
    && (forall n, h ::
          Holds(r'.lists, n, h) <==> (Holds(r.lists, n, h) && h.ref !in gone) || (adds && n == n0 && h == h0))
    && (adds ==> h0.ref == r.w.nextRef)
    && Gone(r'.w.log) == Gone(r.w.log) + gone
    && r'.w.nextRef == r.w.nextRef + (if adds then 1 else 0)
  }

  lemma Holder(lists: map<string, seq<Handler>>, ref: int) returns (n: string, h: Handler)
    requires ref in LiveRefs(lists)
    ensures Holds(lists, n, h) && h.ref == ref
  {
    n, h :| n in lists && h in lists[n] && h.ref == ref;
  }

  lemma ChangedLive(r: Registry, r': Registry, gone: set<int>, adds: bool, n0: string, h0: Handler)
    requires Changed(r, r', gone, adds, n0, h0) && RefsOk(r)
    ensures LiveRefs(r'.lists) == LiveRefs(r.lists) - gone + (if adds then {r.w.nextRef} else {})
  {
    forall ref
      ensures ref in LiveRefs(r'.lists) <==> ref in LiveRefs(r.lists) - gone + (if adds then {r.w.nextRef} else {})
    {
      if ref in LiveRefs(r.lists) - gone {
        var n, h := Holder(r.lists, ref);
        assert Holds(r'.lists, n, h);
      }
      if ref in LiveRefs(r'.lists) { var n, h := Holder(r'.lists, ref); }
      if adds && ref == r.w.nextRef { assert Holds(r'.lists, n0, h0); }
    }
  }

  lemma ChangedRefs(r: Registry, r': Registry, gone: set<int>, adds: bool, n0: string, h0: Handler)
    requires Changed(r, r', gone, adds, n0, h0) && RefsOk(r)
    ensures RefsOk(r')
  {
    ChangedLive(r, r', gone, adds, n0, h0);
    forall n1, h1, n2, h2 | Holds(r'.lists, n1, h1) && Holds(r'.lists, n2, h2) && h1.ref == h2.ref
      ensures n1 == n2 && h1 == h2
    {
      if Holds(r.lists, n1, h1) { assert h1.ref in LiveRefs(r.lists); }
      if Holds(r.lists, n2, h2) { assert h2.ref in LiveRefs(r.lists); }
    }
  }

  lemma UpsertList(l: seq<Handler>, plugin: int, id: string, ref: int, stamp: nat)
    requires l == [] || ListOk(l, stamp)
    ensures ListOk(Upsert(l, plugin, id, ref, stamp), if Where(l, plugin, id) < |l| then stamp else stamp + 1)
  {
    if l != [] && Where(l, plugin, id) == |l| {
      forall j | 0 <= j < |l| ensures l[j].plugin != plugin || l[j].id != id { BeforeWhere(l, plugin, id, j); }
      SnocList(l, Handler(stamp, ref, plugin, id, false), stamp);
    }
  }

  lemma SnocList(l: seq<Handler>, h: Handler, bound: nat)
    requires l == [] || ListOk(l, bound)
    requires !h.dead && h.stamp == bound && forall j :: 0 <= j < |l| ==> l[j].plugin != h.plugin || l[j].id != h.id
    ensures ListOk(l + [h], bound + 1)
  {
  }

  /** A listed reference leads back to one handler of one list. */
  lemma RefExcludes(r: Registry, name: string, i: nat)
    requires Inv(r) && name in r.lists && i < |r.lists[name]|
    ensures Holds(r.lists, name, r.lists[name][i]) && r.lists[name][i].ref in LiveRefs(r.lists)
    ensures forall n, h :: Holds(r.lists, n, h) ==>
      (h.ref == r.lists[name][i].ref <==> n == name && h == r.lists[name][i])
  {
    assert Holds(r.lists, name, r.lists[name][i]);
  }

  /** Putting y for the i-th of distinct handlers, or taking it out. */
  lemma PutMembers(l: seq<Handler>, i: nat, y: Handler, h: Handler)
    requires i < |l| && forall j, k :: 0 <= j < k < |l| ==> l[j].stamp < l[k].stamp
    ensures h in l[i := y] <==> (h in l && h != l[i]) || h == y
  {
    if h in l && h != l[i] { var j :| 0 <= j < |l| && l[j] == h; assert l[i := y][j] == h; }
    if h in l[i := y] && h != y { var j :| 0 <= j < |l| && l[i := y][j] == h; assert l[j] == h; }
    assert l[i := y][i] == y;
  }

  lemma CutMembers(l: seq<Handler>, i: nat, h: Handler)
    requires i < |l| && forall j, k :: 0 <= j < k < |l| ==> l[j].stamp < l[k].stamp
    ensures h in l[..i] + l[i + 1..] <==> h in l && h != l[i]
  {
    var c := l[..i] + l[i + 1..];
    if h in l && h != l[i] {
      var j :| 0 <= j < |l| && l[j] == h;
      assert c[if j < i then j else j - 1] == h;
    }
    if h in c {
      var j :| 0 <= j < |c| && c[j] == h;
      assert h == l[if j < i then j else j + 1];
    }
  }

  lemma UpsertMembers(l: seq<Handler>, plugin: int, id: string, ref: int, stamp: nat, h: Handler)
    requires l == [] || ListOk(l, stamp)
    ensures var i := Where(l, plugin, id); var l' := Upsert(l, plugin, id, ref, stamp);
      h in l' <==> (h in l && !(i < |l| && h == l[i])) || h == l'[i]
  {
    var i := Where(l, plugin, id);
    if i < |l| { PutMembers(l, i, l[i].(ref := ref), h); }
  }

  lemma DropMembers(l: seq<Handler>, plugin: int, id: string, stamp: nat, h: Handler)
    requires l == [] || ListOk(l, stamp)
    ensures var i := Where(l, plugin, id); var l' := Drop(l, plugin, id);
      h in l' <==> h in l && !(i < |l| && h == l[i])
  {
    var i := Where(l, plugin, id);
    if i < |l| { CutMembers(l, i, h); }
  }

  /** Which handlers an add leaves: the one it replaced is out, the new one is in. */
  lemma UpsertHolds(engine: Names, r: Registry, name: string, plugin: int, id: string)
    requires Inv(r) && MayAdd(engine, name)
    ensures var l := At(r.lists, name); var i := Where(l, plugin, id);
      Changed(r, DoAdd(engine, r, name, plugin, id), OwnedRefs(l, plugin, id), true, name,
              if i < |l| then l[i].(ref := r.w.nextRef) else Handler(r.w.nextStamp, r.w.nextRef, plugin, id, false))
  {
    var l := At(r.lists, name);
    var i := Where(l, plugin, id);
    var l' := Upsert(l, plugin, id, r.w.nextRef, r.w.nextStamp);
    var r' := DoAdd(engine, r, name, plugin, id);
    assert r'.lists == r.lists[name := l'];
    var gone := OwnedRefs(l, plugin, id);
    if i < |l| { RefExcludes(r, name, i); }
    LogRelease(r.w, gone);
    forall n, h
      ensures Holds(r'.lists, n, h) <==> (Holds(r.lists, n, h) && h.ref !in gone) || (n == name && h == l'[i])
    {
      if n == name {
        UpsertMembers(l, plugin, id, r.w.nextRef, r.w.nextStamp, h);
        assert Holds(r.lists, n, h) <==> h in l;
        assert h in l ==> (h.ref in gone <==> i < |l| && h == l[i]);
      } else {
        assert Holds(r'.lists, n, h) <==> Holds(r.lists, n, h);
      }
    }
  }

  /** An add keeps the invariant: the old reference is given back as the new one is minted. */
  lemma AddKeeps(engine: Names, r: Registry, name: string, plugin: int, id: string)
    requires Inv(r)
    ensures Inv(DoAdd(engine, r, name, plugin, id)) && Follows(r, DoAdd(engine, r, name, plugin, id), -1)
  {
    if MayAdd(engine, name) {
      var l := At(r.lists, name);
      var i := Where(l, plugin, id);
      var r' := DoAdd(engine, r, name, plugin, id);
      var now := if i < |l| then l[i].(ref := r.w.nextRef) else Handler(r.w.nextStamp, r.w.nextRef, plugin, id, false);
      UpsertHolds(engine, r, name, plugin, id);
      ChangedRefs(r, r', OwnedRefs(l, plugin, id), true, name, now);
      UpsertList(l, plugin, id, r.w.nextRef, r.w.nextStamp);
      if i < |l| { RefExcludes(r, name, i); }
      LogRelease(r.w, OwnedRefs(l, plugin, id));
      AddListed(r, r', OwnedRefs(l, plugin, id), name, now);
    }
  }

  /** Only your own: an add takes out the caller's handler of that id and event, if there is one, giving back its
      reference alone, and puts in one handler, in the old one's place or last, under the reference just minted. */
  lemma AddExactly(engine: Names, r: Registry, name: string, plugin: int, id: string) returns (now: Handler)
    requires Inv(r) && (name in engine || '.' in name || (|name| >= 4 && name[..4] == "msg:"))
    ensures now.plugin == plugin && now.id == id && !now.dead && now.ref == r.w.nextRef
    ensures forall n, h :: Holds(RunOp(engine, r, Add(name, plugin, id)).lists, n, h) <==>
      (Holds(r.lists, n, h) && (n != name || h.plugin != plugin || h.id != id)) || (n == name && h == now)
    ensures forall h :: Holds(r.lists, name, h) && h.plugin == plugin && h.id == id ==>
      now.stamp == h.stamp && RunOp(engine, r, Add(name, plugin, id)).w.log == r.w.log + [Released({h.ref})]
    ensures (forall h :: Holds(r.lists, name, h) ==> h.plugin != plugin || h.id != id) ==>
      now.stamp == r.w.nextStamp && RunOp(engine, r, Add(name, plugin, id)).w.log == r.w.log
  {
    assert MayAdd(engine, name);
    var l := At(r.lists, name);
    var i := Where(l, plugin, id);
    now := if i < |l| then l[i].(ref := r.w.nextRef) else Handler(r.w.nextStamp, r.w.nextRef, plugin, id, false);
    UpsertHolds(engine, r, name, plugin, id);
    OwnIsFound(r, name, plugin, id);
  }

  /** The handler a search finds is the one listed handler of that plugin and id. */
  lemma OwnIsFound(r: Registry, name: string, plugin: int, id: string)
    requires Inv(r)
    ensures var l := At(r.lists, name); var i := Where(l, plugin, id);
      && (forall h :: Holds(r.lists, name, h) && h.plugin == plugin && h.id == id ==> i < |l| && h == l[i])
      && (i < |l| ==> Holds(r.lists, name, l[i]) && l[i].plugin == plugin && l[i].id == id)
      && (forall n, h :: Holds(r.lists, n, h) ==>
            (h.ref in OwnedRefs(l, plugin, id) <==> n == name && h.plugin == plugin && h.id == id))
  {
    var l := At(r.lists, name);
    var i := Where(l, plugin, id);
    forall h | Holds(r.lists, name, h) && h.plugin == plugin && h.id == id ensures i < |l| && h == l[i] {
      var j :| 0 <= j < |l| && l[j] == h;
      if j < i { BeforeWhere(l, plugin, id, j); }
    }
    if i < |l| { RefExcludes(r, name, i); }
  }

  /** Nobody but the new handler comes in, and it stands for the old one or is stamped now. */
  lemma AddListed(r: Registry, r': Registry, gone: set<int>, name: string, now: Handler)
    requires Changed(r, r', gone, true, name, now)
    requires now.stamp == r.w.nextStamp || Listed(r.lists, name, now.stamp)
    ensures forall n, h :: Holds(r'.lists, n, h) && h.stamp < r.w.nextStamp ==> Listed(r.lists, n, h.stamp)
  {
    forall n, h | Holds(r'.lists, n, h) && h.stamp < r.w.nextStamp ensures Listed(r.lists, n, h.stamp) {
      if !(n == name && h == now) { assert Holds(r.lists, n, h); }
    }
  }

  lemma DropList(l: seq<Handler>, plugin: int, id: string, bound: nat)
    requires l == [] || ListOk(l, bound)
    ensures Drop(l, plugin, id) == [] || ListOk(Drop(l, plugin, id), bound)
  {
    var i := Where(l, plugin, id);
    if i < |l| { CutList(l, i, bound); }
  }

  lemma CutList(l: seq<Handler>, i: nat, bound: nat)
    requires ListOk(l, bound) && i < |l|
    ensures var c := l[..i] + l[i + 1..]; c == [] || ListOk(c, bound)
  {
    var c := l[..i] + l[i + 1..];
    assert forall k :: 0 <= k < |c| ==> c[k] == l[if k < i then k else k + 1];
  }

  lemma DropHolds(r: Registry, name: string, plugin: int, id: string)
    requires Inv(r)
    ensures Changed(r, DoRemove(r, name, plugin, id), OwnedRefs(At(r.lists, name), plugin, id), false, name,
                    Handler(0, 0, 0, "", false))
  {
    var l := At(r.lists, name);
    var i := Where(l, plugin, id);
    var r' := DoRemove(r, name, plugin, id);
    var gone := OwnedRefs(l, plugin, id);
    if i < |l| { RefExcludes(r, name, i); }
    LogRelease(r.w, gone);
    forall n, h ensures Holds(r'.lists, n, h) <==> Holds(r.lists, n, h) && h.ref !in gone {
      if n == name {
        DropMembers(l, plugin, id, r.w.nextStamp, h);
        assert h in l <==> Holds(r.lists, n, h);
      }
    }
  }

  lemma RemoveKeeps(r: Registry, name: string, plugin: int, id: string)
    requires Inv(r)
    ensures Inv(DoRemove(r, name, plugin, id)) && Follows(r, DoRemove(r, name, plugin, id), -1)
  {
    var l := At(r.lists, name);
    var r' := DoRemove(r, name, plugin, id);
    var gone := OwnedRefs(l, plugin, id);
    DropHolds(r, name, plugin, id);
    ChangedRefs(r, r', gone, false, name, Handler(0, 0, 0, "", false));
    DropList(l, plugin, id, r.w.nextStamp);
    if Where(l, plugin, id) < |l| { RefExcludes(r, name, Where(l, plugin, id)); }
    LogRelease(r.w, gone);
    FollowsLess(r, r');
  }

  /** Only your own: a remove takes out the caller's handler of that id and event and gives back its reference; it
      changes nothing when there is none. */
  lemma RemoveExactly(engine: Names, r: Registry, name: string, plugin: int, id: string)
    requires Inv(r)
    ensures forall n, h :: Holds(RunOp(engine, r, Remove(name, plugin, id)).lists, n, h) <==>
      Holds(r.lists, n, h) && (n != name || h.plugin != plugin || h.id != id)
    ensures forall h :: Holds(r.lists, name, h) && h.plugin == plugin && h.id == id ==>
      RunOp(engine, r, Remove(name, plugin, id)).w.log == r.w.log + [Released({h.ref})]
    ensures (forall h :: Holds(r.lists, name, h) ==> h.plugin != plugin || h.id != id) ==>
      RunOp(engine, r, Remove(name, plugin, id)).w.log == r.w.log
  {
    DropHolds(r, name, plugin, id);
    OwnIsFound(r, name, plugin, id);
  }

  lemma FollowsLess(r: Registry, r': Registry)
    requires forall n, h :: Holds(r'.lists, n, h) ==> Holds(r.lists, n, h)
    requires r.w.log <= r'.w.log && r.w.nextWalk == r'.w.nextWalk && r.w.nextStamp == r'.w.nextStamp
    requires forall k :: |r.w.log| <= k < |r'.w.log| ==> r'.w.log[k].Released?
    ensures Follows(r, r', -1)
  {
  }

  lemma {:induction false} DropPluginIn(l: seq<Handler>, plugin: int, h: Handler)
    ensures h in DropPlugin(l, plugin) <==> h in l && h.plugin != plugin
  {
    if l != [] {
      DropPluginIn(l[1..], plugin, h);
      assert h in l <==> h == l[0] || h in l[1..];
    }
  }

  lemma ConsList(h: Handler, d: seq<Handler>, bound: nat)
    requires d == [] || ListOk(d, bound)
    requires !h.dead && h.stamp < bound
    requires forall x :: x in d ==> h.stamp < x.stamp && (h.plugin != x.plugin || h.id != x.id)
    ensures ListOk([h] + d, bound)
  {
    forall k | 0 <= k < |d|
      ensures h.stamp < d[k].stamp && (h.plugin != d[k].plugin || h.id != d[k].id)
    {
      assert d[k] in d;
    }
  }

  lemma TailList(l: seq<Handler>, bound: nat)
    requires ListOk(l, bound)
    ensures l[1..] == [] || ListOk(l[1..], bound)
    ensures forall x :: x in l[1..] ==> l[0].stamp < x.stamp && (l[0].plugin != x.plugin || l[0].id != x.id)
  {
  }

  lemma {:induction false} DropPluginList(l: seq<Handler>, plugin: int, bound: nat)
    requires l == [] || ListOk(l, bound)
    ensures DropPlugin(l, plugin) == [] || ListOk(DropPlugin(l, plugin), bound)
  {
    if l != [] {
      var t := l[1..];
      TailList(l, bound);
      DropPluginList(t, plugin, bound);
      var d := DropPlugin(t, plugin);
      if l[0].plugin != plugin {
        forall x | x in d ensures x in t { DropPluginIn(t, plugin, x); }
        ConsList(l[0], d, bound);
        assert DropPlugin(l, plugin) == [l[0]] + d;
      } else {
        assert DropPlugin(l, plugin) == d;
      }
    }
  }

  /** Every handler of the plugin goes, of every event, with its reference, and no other handler does. */
  lemma RemovePluginKeeps(engine: Names, r: Registry, plugin: int)
    requires Inv(r)
    ensures Inv(RunOp(engine, r, RemovePlugin(plugin))) && Follows(r, RunOp(engine, r, RemovePlugin(plugin)), -1)
    ensures forall n, h ::
      Holds(RunOp(engine, r, RemovePlugin(plugin)).lists, n, h) <==> Holds(r.lists, n, h) && h.plugin != plugin
    ensures Gone(RunOp(engine, r, RemovePlugin(plugin)).w.log) ==
      Gone(r.w.log) + set n, h | n in r.lists && h in r.lists[n] && h.plugin == plugin :: h.ref
  {
    var r' := RunOp(engine, r, RemovePlugin(plugin));
    var gone := RefsOfPlugin(r.lists, plugin);
    forall n | n in r'.lists ensures ListOk(r'.lists[n], r'.w.nextStamp) {
      DropPluginList(r.lists[n], plugin, r.w.nextStamp);
    }
    forall ref | ref in gone ensures ref in LiveRefs(r.lists) {
      var n, h :| n in r.lists && h in r.lists[n] && !h.dead && h.plugin == plugin && h.ref == ref;
    }
    LogRelease(r.w, gone);
    forall n, h
      ensures Holds(r'.lists, n, h) <==> Holds(r.lists, n, h) && h.ref !in gone
      ensures Holds(r.lists, n, h) ==> !h.dead && (h.ref !in gone <==> h.plugin != plugin)
    {
      if n in r.lists { DropPluginIn(r.lists[n], plugin, h); }
      if Holds(r.lists, n, h) {
        var j :| 0 <= j < |r.lists[n]| && r.lists[n][j] == h;
        if h.plugin != plugin && h.ref in gone {
          var n2, h2 :| n2 in r.lists && h2 in r.lists[n2] && !h2.dead && h2.plugin == plugin && h2.ref == h.ref;
          assert Holds(r.lists, n2, h2);
        }
      }
    }
    ChangedRefs(r, r', gone, false, "", Handler(0, 0, 0, "", false));
    FollowsLess(r, r');
  }

  // ---------------------------------------------------------------------------
  // Walks and scripts

  /** Where a walk stands: everything it called lies at or below `after`, it was never cancelled, and every
      handler still listed at or below `after` was called. */
  ghost predicate Standing(r: Registry, name: string, walk: nat, after: int) {
    && walk < r.w.nextWalk && after < r.w.nextStamp
    && (forall k :: 0 <= k < |r.w.log| && OfWalk(r.w.log[k], walk) ==>
          (r.w.log[k].Called? ==> r.w.log[k].stamp <= after) && (r.w.log[k].Returned? ==> !r.w.log[k].stop))
    && (forall h :: Holds(r.lists, name, h) && h.stamp <= after ==> WasCalled(r.w.log, walk, h.stamp))
  }

  ghost predicate WasCalled(log: seq<Entry>, walk: nat, stamp: nat) {
    exists k :: 0 <= k < |log| && log[k].Called? && log[k].walk == walk && log[k].stamp == stamp
  }

  ghost predicate WasStopped(log: seq<Entry>, walk: nat) {
    exists k :: 0 <= k < |log| && log[k] == Returned(walk, true)
  }

  /** Unless a callback cancelled, every handler listed when the walk ends was called by it. */
  ghost predicate Finished(r: Registry, name: string, walk: nat) {
    WasStopped(r.w.log, walk) || forall h :: Holds(r.lists, name, h) ==> WasCalled(r.w.log, walk, h.stamp)
  }

  lemma {:induction false} OpKeeps(engine: Names, r: Registry, op: Op)
    requires Inv(r)
    ensures Inv(RunOp(engine, r, op)) && Follows(r, RunOp(engine, r, op), -1)
    decreases op, 0
  {
    match op
    case Add(name, plugin, id) => AddKeeps(engine, r, name, plugin, id);
    case Remove(name, plugin, id) => RemoveKeeps(r, name, plugin, id);
    case RemovePlugin(plugin) => RemovePluginKeeps(engine, r, plugin);
    case SetCancelled(table, value) =>
    case Fire(kind, name, table, calls) =>
      if MayFire(engine, kind, name) {
        var begun := r.(w := BeginEvent(r.w, table));
        WalkKeeps(engine, begun, name, r.w.nextWalk, table, -1, calls);
      }
  }

  lemma {:induction false} ScriptKeeps(engine: Names, r: Registry, s: Script)
    requires Inv(r)
    ensures Inv(RunScript(engine, r, s)) && Follows(r, RunScript(engine, r, s), -1)
    decreases s, 0
  {
    if s.Do? {
      OpKeeps(engine, r, s.op);
      var r1 := RunOp(engine, r, s.op);
      ScriptKeeps(engine, r1, s.next);
      FollowsTrans(r, r1, RunScript(engine, r1, s.next), -1, -1);
    }
  }

  /** A callback that returns uncancelled moves the walk on to its handler's stamp. */
  lemma CallStands(r: Registry, called: Registry, ran: Registry, name: string, walk: nat, after: int, h: Handler)
    requires Inv(r) && Standing(r, name, walk, after)
    requires Holds(r.lists, name, h) && after < h.stamp
    requires forall h' :: Holds(r.lists, name, h') && after < h'.stamp ==> h.stamp <= h'.stamp
    requires called == r.(w := Logged(r.w, Called(walk, name, h.stamp, h.ref)))
    requires Follows(called, ran, -1)
    ensures Standing(ran.(w := Logged(ran.w, Returned(walk, false))), name, walk, h.stamp)
  {
    var next := ran.(w := Logged(ran.w, Returned(walk, false)));
    forall k | 0 <= k < |next.w.log| && OfWalk(next.w.log[k], walk)
      ensures (next.w.log[k].Called? ==> next.w.log[k].stamp <= h.stamp)
        && (next.w.log[k].Returned? ==> !next.w.log[k].stop)
    {
      if k < |r.w.log| { assert next.w.log[k] == r.w.log[k]; }
      else if k == |r.w.log| { assert next.w.log[k] == called.w.log[k]; }
    }
    forall x | Holds(next.lists, name, x) && x.stamp <= h.stamp ensures WasCalled(next.w.log, walk, x.stamp) {
      assert Listed(r.lists, name, x.stamp);
      var y :| Holds(r.lists, name, y) && y.stamp == x.stamp;
      if y.stamp <= after {
        var k :| 0 <= k < |r.w.log| && r.w.log[k].Called? && r.w.log[k].walk == walk && r.w.log[k].stamp == y.stamp;
        assert next.w.log[k] == r.w.log[k];
      } else {
        assert next.w.log[|r.w.log|] == called.w.log[|r.w.log|];
      }
    }
  }

  lemma RefsSame(r: Registry, r': Registry)
    requires RefsOk(r) && r'.lists == r.lists && Gone(r'.w.log) == Gone(r.w.log) && r'.w.nextRef == r.w.nextRef
    ensures RefsOk(r')
  {
  }

  lemma FollowsOne(r: Registry, e: Entry, mine: int)
    requires !e.Released? && e.walk == mine
    ensures Follows(r, r.(w := Logged(r.w, e)), mine)
  {
    forall n, h | Holds(r.lists, n, h) ensures Listed(r.lists, n, h.stamp) {}
  }

  lemma EntryKeeps(r: Registry, e: Entry)
    requires Inv(r) && !e.Released? && e.walk < r.w.nextWalk
    requires e.Called? ==> e.ref !in Gone(r.w.log) && GoesOn(r.w.log, e.walk, e.stamp)
    ensures Inv(r.(w := Logged(r.w, e)))
  {
    GoneSnoc(r.w.log, e);
    LogSnoc(r.w, e);
    RefsSame(r, r.(w := Logged(r.w, e)));
  }

  /** Calling a listed handler above `after` uses no released reference and keeps the stamps growing. */
  lemma CalledKeeps(r: Registry, name: string, walk: nat, after: int, h: Handler)
    requires Inv(r) && Standing(r, name, walk, after) && Holds(r.lists, name, h) && after < h.stamp
    ensures var called := r.(w := Logged(r.w, Called(walk, name, h.stamp, h.ref)));
      Inv(called) && Follows(r, called, walk)
  {
    var e := Called(walk, name, h.stamp, h.ref);
    assert h.ref in LiveRefs(r.lists);
    StandingGoesOn(r, name, walk, after, h.stamp);
    EntryKeeps(r, e);
    FollowsOne(r, e, walk);
  }

  lemma StandingGoesOn(r: Registry, name: string, walk: nat, after: int, stamp: nat)
    requires Standing(r, name, walk, after) && after < stamp
    ensures GoesOn(r.w.log, walk, stamp)
  {
  }

  lemma ReturnKeeps(called: Registry, ran: Registry, walk: nat, e: Entry)
    requires Inv(ran) && walk < called.w.nextWalk && Follows(called, ran, -1)
    requires e.Returned? && e.walk == walk
    ensures Inv(ran.(w := Logged(ran.w, e)))
  {
    EntryKeeps(ran, e);
  }

  lemma {:induction false} CallKeeps(engine: Names, r: Registry, name: string, walk: nat, table: nat, after: int,
      h: Handler, calls: Calls)
    requires Inv(r) && Standing(r, name, walk, after)
    requires Holds(r.lists, name, h) && after < h.stamp
    requires forall h' :: Holds(r.lists, name, h') && after < h'.stamp ==> h.stamp <= h'.stamp
    ensures var next := CallOne(engine, r, name, walk, table, h, calls);
      && Inv(next) && Follows(r, next, walk)
      && (table in next.w.cancelled ==> WasStopped(next.w.log, walk))
      && (table !in next.w.cancelled ==> Standing(next, name, walk, h.stamp))
    decreases calls, 0
  {
    var called := r.(w := Logged(r.w, Called(walk, name, h.stamp, h.ref)));
    CalledKeeps(r, name, walk, after, h);
    var ran := if calls.Silent? then called else RunScript(engine, called, calls.body);
    if calls.Call? { ScriptKeeps(engine, called, calls.body); }
    FollowsTrans(r, called, ran, walk, -1);
    var e := Returned(walk, table in ran.w.cancelled);
    var next := CallOne(engine, r, name, walk, table, h, calls);
    assert next == ran.(w := Logged(ran.w, e));
    assert next.w.log[|ran.w.log|] == e;
    ReturnKeeps(called, ran, walk, e);
    CallStands(r, called, ran, name, walk, after, h);
  }

  lemma {:induction false} LaterFirst(l: seq<Handler>, after: int)
    requires forall i, j :: 0 <= i < j < |l| ==> l[i].stamp < l[j].stamp
    requires Later(l, after) != []
    ensures forall h :: h in l && after < h.stamp ==> Later(l, after)[0].stamp <= h.stamp
  {
    if l[0].stamp <= after { LaterFirst(l[1..], after); }
  }

  lemma {:induction false} WalkKeeps(engine: Names, r: Registry, name: string, walk: nat, table: nat, after: int,
      calls: Calls)
    requires Inv(r) && Standing(r, name, walk, after) && table !in r.w.cancelled
    ensures var end := Walk(engine, r, name, walk, table, after, calls);
      && Inv(end) && Follows(r, end, walk) && Finished(end, name, walk)
      && (table in end.w.cancelled <==> WasStopped(end.w.log, walk))
    decreases calls, |Later(At(r.lists, name), after)| + 1
  {
    var l := At(r.lists, name);
    var todo := Later(l, after);
    if todo == [] {
      forall h | Holds(r.lists, name, h) ensures WasCalled(r.w.log, walk, h.stamp) { LaterIn(l, after, h); }
    } else {
      var h := todo[0];
      LaterIn(l, after, h);
      LaterFirst(l, after);
      CallKeeps(engine, r, name, walk, table, after, h, calls);
      var next := CallOne(engine, r, name, walk, table, h, calls);
      if table !in next.w.cancelled {
        if calls.Silent? { LaterShrinks(l, after, h); }
        var end := Walk(engine, next, name, walk, table, h.stamp, Rest(calls));
        WalkKeeps(engine, next, name, walk, table, h.stamp, Rest(calls));
        FollowsTrans(r, next, end, walk, walk);
      }
    }
  }

  // ---------------------------------------------------------------------------
  // Whole runs

  const EMPTY := Registry(map[], World(0, 0, 0, {}, []))

  /** Whatever plugins do from the start: no callback is reached or given back after its reference was given back,
      every walk goes in registration order and stops at the first cancel, every reference minted is held once or
      was given back, and a handler is alone under its plugin and id. */
  lemma AnyRun(engine: Names, s: Script)
    ensures var r := RunScript(engine, EMPTY, s);
      && NoUseAfterRelease(r.w.log) && WalksOrdered(r.w.log)
      && RefsOk(r) && ListsOk(r)
  {
    ScriptKeeps(engine, EMPTY, s);
  }

  /** Firing an event calls, unless a callback cancels it, every handler its list ends up with: those that were there,
      and those added on the way. It ends cancelled exactly when a callback returned with its flag set. */
  lemma FireReachesAll(engine: Names, r: Registry, kind: FireKind, name: string, table: nat, calls: Calls)
    requires Inv(r)
    requires match kind {
      case FromScript => name !in engine && '.' in name
      case FromEngine => name in engine
      case FromMessage => name !in engine
    }
    ensures var end := RunOp(engine, r, Fire(kind, name, table, calls));
      Finished(end, name, r.w.nextWalk) && (table in end.w.cancelled <==> WasStopped(end.w.log, r.w.nextWalk))
  {
    WalkKeeps(engine, r.(w := BeginEvent(r.w, table)), name, r.w.nextWalk, table, -1, calls);
  }

  lemma {:induction false} LaterNext(l: seq<Handler>, after: int)
    requires forall i, j :: 0 <= i < j < |l| ==> l[i].stamp < l[j].stamp
    requires Later(l, after) != []
    ensures Later(l, Later(l, after)[0].stamp) == Later(l, after)[1..]
  {
    if l[0].stamp <= after {
      LaterNext(l[1..], after);
      LaterIn(l[1..], after, Later(l[1..], after)[0]);
    } else {
      LaterAll(l[1..], after);
      LaterAll(l[1..], l[0].stamp);
    }
  }

  lemma {:induction false} LaterAll(l: seq<Handler>, after: int)
    requires forall i :: 0 <= i < |l| ==> l[i].stamp > after
    ensures Later(l, after) == l
  {
    if l != [] { LaterAll(l[1..], after); }
  }

  /** What a callback leaves in its event's flag decides: one that sets it and clears it again is not the last one
      called, one that leaves it set is. */
  lemma CancelStops(engine: Names, r: Registry, name: string, walk: nat, table: nat, after: int, later: Calls)
    requires Inv(r) && table !in r.w.cancelled && |Later(At(r.lists, name), after)| > 1
    ensures var l := Later(At(r.lists, name), after);
      var undone := Do(SetCancelled(table, true), Do(SetCancelled(table, false), End));
      var calls := Call(undone, Call(Do(SetCancelled(table, true), End), later));
      var end := Walk(engine, r, name, walk, table, after, calls);
      && end.lists == r.lists && end.w.cancelled == r.w.cancelled + {table}
      && end.w.log == r.w.log + [Called(walk, name, l[0].stamp, l[0].ref), Returned(walk, false),
                                 Called(walk, name, l[1].stamp, l[1].ref), Returned(walk, true)]
  {
    var todo := Later(At(r.lists, name), after);
    LaterNext(At(r.lists, name), after);
    var stop := Do(SetCancelled(table, true), End);
    var undone := Do(SetCancelled(table, true), Do(SetCancelled(table, false), End));
    var first := CallOne(engine, r, name, walk, table, todo[0], Call(undone, Call(stop, later)));
    FlagOnly(engine, r.(w := Logged(r.w, Called(walk, name, todo[0].stamp, todo[0].ref))), table);
    assert first.w.cancelled == r.w.cancelled;
    var second := CallOne(engine, first, name, walk, table, todo[1], Call(stop, later));
    FlagOnly(engine, first.(w := Logged(first.w, Called(walk, name, todo[1].stamp, todo[1].ref))), table);
    assert second.w.cancelled == r.w.cancelled + {table};
    assert Walk(engine, first, name, walk, table, todo[0].stamp, Call(stop, later)) == second;
  }

  lemma FlagOnly(engine: Names, r: Registry, table: nat)
    ensures RunScript(engine, r, Do(SetCancelled(table, true), End)) ==
      r.(w := r.w.(cancelled := r.w.cancelled + {table}))
    ensures RunScript(engine, r, Do(SetCancelled(table, true), Do(SetCancelled(table, false), End))) ==
      r.(w := r.w.(cancelled := r.w.cancelled - {table}))
  {
    var on := RunOp(engine, r, SetCancelled(table, true));
    var off := RunOp(engine, on, SetCancelled(table, false));
    assert off.w.cancelled == r.w.cancelled - {table};
    assert RunScript(engine, on, End) == on && RunScript(engine, off, End) == off;
    assert RunScript(engine, on, Do(SetCancelled(table, false), End)) == off;
  }
}
