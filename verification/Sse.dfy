/** Live-update subscribers: bounded outboxes that drop the oldest message. */
module Sse {

  const OUTBOX_MAX := 200

  type Message = seq<int>

  /** What happens to one subscriber after it has joined: somebody pushes, or its own thread takes the next one. */
  datatype Step = Push(message: Message) | Pop

  /** `taken` and `lost` number messages by the order in which they were pushed since the subscriber joined. */
  datatype Client = Client(outbox: seq<Message>, pushes: nat, taken: seq<nat>, lost: seq<nat>)

  const JOINED := Client([], 0, [], [])

  function Pushed(outbox: seq<Message>, m: Message): seq<Message> {
    (if |outbox| >= OUTBOX_MAX then outbox[1..] else outbox) + [m]
  }

  function Next(c: Client, step: Step): Client {
    match step
    case Push(m) =>
      c.(outbox := Pushed(c.outbox, m), pushes := c.pushes + 1,
         lost := if |c.outbox| >= OUTBOX_MAX then c.lost + [Oldest(c)] else c.lost)
    case Pop => if c.outbox == [] then c else c.(outbox := c.outbox[1..], taken := c.taken + [Oldest(c)])
  }

  /** The number of the message at the front of the outbox. */
  function Oldest(c: Client): nat { if c.pushes >= |c.outbox| then c.pushes - |c.outbox| else 0 }

  function Run(c: Client, steps: seq<Step>): Client
    decreases |steps|
  {
    if steps == [] then c else Next(Run(c, steps[..|steps| - 1]), steps[|steps| - 1])
  }

  /** What was pushed, in order. */
  function Messages(steps: seq<Step>): seq<Message> {
    if steps == [] then [] else
      var rest := Messages(steps[..|steps| - 1]);
      if steps[|steps| - 1].Push? then rest + [steps[|steps| - 1].message] else rest
  }

  // ---------------------------------------------------------------------------
  // Laws of every run

  ghost predicate Increasing(l: seq<nat>) { forall i, j :: 0 <= i < j < |l| ==> l[i] < l[j] }

  /** The outbox is the tail of what was pushed, and everything before it was taken or lost, never both. */
  ghost predicate Accounted(c: Client, all: seq<Message>) {
    && c.pushes == |all| && |c.outbox| <= 200 && |c.outbox| <= |all|
    && c.outbox == all[|all| - |c.outbox|..]
    && Increasing(c.taken) && Increasing(c.lost)
    && (forall i: nat :: i < Oldest(c) <==> i in c.taken || i in c.lost)
    && (forall i: nat :: !(i in c.taken && i in c.lost))
  }

  lemma {:induction false} EveryRun(steps: seq<Step>)
    ensures Accounted(Run(JOINED, steps), Messages(steps))
    decreases |steps|
  {
    if steps != [] {
      EveryRun(steps[..|steps| - 1]);
      StepAccounts(Run(JOINED, steps[..|steps| - 1]), Messages(steps[..|steps| - 1]), steps[|steps| - 1]);
    }
  }

  lemma StepAccounts(c: Client, all: seq<Message>, step: Step)
    requires Accounted(c, all)
    ensures Accounted(Next(c, step), if step.Push? then all + [step.message] else all)
  {
    if step.Push? { PushAccounts(c, all, step.message); } else if c.outbox != [] { PopAccounts(c, all); }
  }

  lemma TailPush(all: seq<Message>, n: nat, m: Message)
    requires n <= |all|
    ensures (all + [m])[n..] == all[n..] + [m]
    ensures n < |all| ==> all[n..][1..] == all[n + 1..]
  {
  }

  lemma PushAccounts(c: Client, all: seq<Message>, m: Message)
    requires Accounted(c, all)
    ensures Accounted(Next(c, Push(m)), all + [m])
  {
    var n := Oldest(c);
    TailPush(all, n, m);
    if |c.outbox| >= OUTBOX_MAX {
      GoesTo(c.lost, n);
      TailPush(all, n + 1, m);
    }
  }

  lemma PopAccounts(c: Client, all: seq<Message>)
    requires Accounted(c, all) && c.outbox != []
    ensures Accounted(Next(c, Pop), all)
  {
    GoesTo(c.taken, Oldest(c));
    TailPush(all, Oldest(c), []);
  }

  /** Appending a number ahead of all. */
  lemma GoesTo(l: seq<nat>, n: nat)
    requires Increasing(l) && forall i: nat :: i in l ==> i < n
    ensures Increasing(l + [n]) && forall i: nat :: i in l + [n] <==> i in l || i == n
  {
    forall k | 0 <= k < |l| ensures l[k] < n { assert l[k] in l; }
  }

  /** The message a subscriber is sent under number i is the i-th pushed since it joined. */
  lemma SentAsPushed(steps: seq<Step>)
    requires Run(JOINED, steps).outbox != []
    ensures var c := Run(JOINED, steps); var all := Messages(steps);
      Oldest(c) < |all| && c.outbox[0] == all[Oldest(c)] && Next(c, Pop).taken == c.taken + [Oldest(c)]
  {
    EveryRun(steps);
  }

  ghost predicate LostAt(steps: seq<Step>, k: nat, i: nat) {
    k < |steps| && steps[k].Push? && FullBehind(steps[..k], i)
  }

  lemma LostBefore(steps: seq<Step>, n: nat, k: nat, i: nat)
    requires k < n <= |steps|
    ensures LostAt(steps[..n], k, i) <==> LostAt(steps, k, i)
  {
    assert steps[..n][..k] == steps[..k];
  }

  lemma LostNow(steps: seq<Step>, i: nat)
    requires steps != []
    ensures var n := |steps| - 1;
      i in Run(JOINED, steps).lost <==> i in Run(JOINED, steps[..n]).lost || LostAt(steps, n, i)
  {
    EveryRun(steps[..|steps| - 1]);
  }

  /** A message is lost exactly when, at the push 200 later, it was still the oldest of 200 waiting. */
  lemma {:induction false} LostExactly(steps: seq<Step>, i: nat)
    ensures i in Run(JOINED, steps).lost <==> exists k: nat :: LostAt(steps, k, i)
    decreases |steps|
  {
    if steps != [] {
      var n := |steps| - 1;
      LostExactly(steps[..n], i);
      LostNow(steps, i);
      if k: nat :| LostAt(steps, k, i) && k < n { LostBefore(steps, n, k, i); }
      if k: nat :| LostAt(steps[..n], k, i) { LostBefore(steps, n, k, i); }
    }
  }

  ghost predicate FullBehind(steps: seq<Step>, i: nat) {
    var c := Run(JOINED, steps);
    |c.outbox| == 200 && Oldest(c) == i && |Messages(steps)| == i + 200
  }

  ghost predicate NeverFull(steps: seq<Step>) {
    forall k :: 0 <= k < |steps| && steps[k].Push? ==> |Run(JOINED, steps[..k]).outbox| < 200
  }

  lemma NotLost(steps: seq<Step>, i: nat)
    requires NeverFull(steps)
    ensures i !in Run(JOINED, steps).lost
  {
    LostExactly(steps, i);
  }

  lemma AllTaken(c: Client, all: seq<Message>)
    requires Accounted(c, all) && forall i: nat :: i !in c.lost
    ensures |c.taken| == |all| - |c.outbox| && forall i :: 0 <= i < |c.taken| ==> c.taken[i] == i
  {
    AllBelow(c.taken, Oldest(c));
  }

  /** A subscriber that never has 200 waiting when one more comes is sent everything, in order, without repeats. */
  lemma NothingLost(steps: seq<Step>)
    requires NeverFull(steps)
    ensures var c := Run(JOINED, steps); var all := Messages(steps);
      |c.taken| == |all| - |c.outbox| && forall i :: 0 <= i < |c.taken| ==> c.taken[i] == i
  {
    EveryRun(steps);
    forall i: nat ensures i !in Run(JOINED, steps).lost { NotLost(steps, i); }
    AllTaken(Run(JOINED, steps), Messages(steps));
  }

  /** An increasing list of all numbers below n counts up. */
  lemma {:induction false} AllBelow(l: seq<nat>, n: nat)
    requires Increasing(l) && forall i: nat :: i < n <==> i in l
    ensures |l| == n && forall k :: 0 <= k < n ==> l[k] == k
    decreases n
  {
    if l == [] {
      assert 0 !in l;
    } else {
      var m := |l| - 1;
      assert l[m] in l && n - 1 in l;
      var k :| 0 <= k < |l| && l[k] == n - 1;
      forall i: nat ensures i < n - 1 <==> i in l[..m] {
        if i < n - 1 {
          assert i in l;
          var j :| 0 <= j < |l| && l[j] == i;
        }
        if i in l[..m] { assert i in l; }
      }
      AllBelow(l[..m], n - 1);
    }
  }

  // ---------------------------------------------------------------------------
  // The server's list of subscribers

  class SseClient {
    var outbox: seq<Message>
    var stop: bool
    ghost var track: Client

    ghost predicate Valid() reads this { track.outbox == outbox }

    constructor ()
      ensures Valid() && !stop && track == JOINED
    {
      outbox, stop, track := [], false, JOINED;
    }

    /** http_server.push, under this client's lock */
    method Offer(m: Message)
      requires Valid()
      modifies this
      ensures Valid() && track == Next(old(track), Push(m)) && stop == old(stop)
    {
      track := Next(track, Push(m));
      if |outbox| >= OUTBOX_MAX { outbox := outbox[1..]; }
      outbox := outbox + [m];
    }

    /** One turn of the session's loop: end, next message, or nothing to send but a ping. */
    method Take(stopping: bool) returns (ended: bool, have: bool, message: Message)
      requires Valid()
      modifies this
      ensures Valid() && ended == (stopping || stop) && stop == old(stop)
      ensures track == if ended then old(track) else Next(old(track), Pop)
      ensures have <==> !ended && old(outbox) != []
      ensures have ==> message == old(outbox)[0]
    {
      ended, have, message := stopping || stop, false, [];
      if ended || outbox == [] { return; }
      track := Next(track, Pop);
      message, outbox := outbox[0], outbox[1..];
      have := true;
    }
  }

  /** http_server.push: every subscriber gets the message; the answer is how many there are. */
  method PushAll(clients: seq<SseClient>, m: Message) returns (count: nat)
    requires forall i, j :: 0 <= i < j < |clients| ==> clients[i] != clients[j]
    requires forall i :: 0 <= i < |clients| ==> clients[i].Valid()
    modifies set i | 0 <= i < |clients| :: clients[i]
    ensures count == |clients|
    ensures forall i :: 0 <= i < |clients| ==>
              clients[i].Valid() && clients[i].track == Next(old(clients[i].track), Push(m))
  {
    var i := 0;
    while i < |clients|
      invariant i <= |clients|
      invariant forall j :: 0 <= j < |clients| ==> clients[j].Valid()
      invariant forall j :: 0 <= j < |clients| ==>
                  clients[j].track == if j < i then Next(old(clients[j].track), Push(m)) else old(clients[j].track)
    {
      clients[i].Offer(m);
      i := i + 1;
    }
    return |clients|;
  }

  /** The end of a session: the subscriber leaves the list, the others keep their order. */
  method Leave(clients: seq<SseClient>, client: SseClient) returns (left: seq<SseClient>)
    requires forall i, j :: 0 <= i < j < |clients| ==> clients[i] != clients[j]
    ensures client !in left
    ensures client !in clients ==> left == clients
    ensures client in clients ==>
              exists i :: 0 <= i < |clients| && clients[i] == client && left == clients[..i] + clients[i + 1..]
  {
    var i := 0;
    while i < |clients| && clients[i] != client
      invariant i <= |clients| && client !in clients[..i]
    {
      i := i + 1;
    }
    left := clients;
    if i < |clients| { left := clients[..i] + clients[i + 1..]; }
  }
}
