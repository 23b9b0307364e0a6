/** What every run of a consumer group keeps: serial delivery per key, bounded concurrency, message
    conservation, bounded retries. */
module BrokerSafety {
  import opened Wrappers
  import opened BrokerGroup

  // ---------------------------------------------------------------------------------
  // Counting

  /** How often a message stands in the queue. */
  function Queued(q: seq<Item>, m: Message): nat {
    if q == [] then 0 else (if q[0].msg == m then 1 else 0) + Queued(q[1..], m)
  }

  /** How many unsettled executions a message has. */
  function Running(xs: seq<Exec>, m: Message): nat {
    if xs == [] then 0 else (if !xs[0].settled && xs[0].item.msg == m then 1 else 0) + Running(xs[1..], m)
  }

  /** Executions in flight for a subscription. */
  function InFlight(xs: seq<Exec>, sub: nat): nat {
    if xs == [] then 0 else (if xs[0].sub == sub then 1 else 0) + InFlight(xs[1..], sub)
  }

  /** How often a message has been delivered. */
  function Times(log: seq<Delivery>, m: Message): nat {
    if log == [] then 0 else (if log[0].msg == m then 1 else 0) + Times(log[1..], m)
  }

  lemma {:induction false} QueuedCat(a: seq<Item>, b: seq<Item>, m: Message)
    ensures Queued(a + b, m) == Queued(a, m) + Queued(b, m)
  {
    if a == [] {
      assert a + b == b;
    } else {
      assert (a + b)[1..] == a[1..] + b;
      QueuedCat(a[1..], b, m);
    }
  }

  lemma {:induction false} RunningCat(a: seq<Exec>, b: seq<Exec>, m: Message)
    ensures Running(a + b, m) == Running(a, m) + Running(b, m)
  {
    if a == [] {
      assert a + b == b;
    } else {
      assert (a + b)[1..] == a[1..] + b;
      RunningCat(a[1..], b, m);
    }
  }

  lemma {:induction false} InFlightCat(a: seq<Exec>, b: seq<Exec>, sub: nat)
    ensures InFlight(a + b, sub) == InFlight(a, sub) + InFlight(b, sub)
  {
    if a == [] {
      assert a + b == b;
    } else {
      assert (a + b)[1..] == a[1..] + b;
      InFlightCat(a[1..], b, sub);
    }
  }

  lemma {:induction false} TimesCat(a: seq<Delivery>, b: seq<Delivery>, m: Message)
    ensures Times(a + b, m) == Times(a, m) + Times(b, m)
  {
    if a == [] {
      assert a + b == b;
    } else {
      assert (a + b)[1..] == a[1..] + b;
      TimesCat(a[1..], b, m);
    }
  }

  lemma QueuedWithout(q: seq<Item>, i: nat, m: Message)
    requires i < |q|
    ensures Queued(q, m) == Queued(Without(q, i), m) + (if q[i].msg == m then 1 else 0)
  {
    assert q == q[..i] + ([q[i]] + q[i + 1..]);
    QueuedCat(q[..i], [q[i]] + q[i + 1..], m);
    QueuedCat([q[i]], q[i + 1..], m);
    QueuedCat(q[..i], q[i + 1..], m);
  }

  lemma RunningWithout(xs: seq<Exec>, i: nat, m: Message)
    requires i < |xs|
    ensures Running(xs, m) == Running(Without(xs, i), m) + (if !xs[i].settled && xs[i].item.msg == m then 1 else 0)
  {
    assert xs == xs[..i] + ([xs[i]] + xs[i + 1..]);
    RunningCat(xs[..i], [xs[i]] + xs[i + 1..], m);
    RunningCat([xs[i]], xs[i + 1..], m);
    RunningCat(xs[..i], xs[i + 1..], m);
  }

  lemma InFlightWithout(xs: seq<Exec>, i: nat, sub: nat)
    requires i < |xs|
    ensures InFlight(xs, sub) == InFlight(Without(xs, i), sub) + (if xs[i].sub == sub then 1 else 0)
  {
    assert xs == xs[..i] + ([xs[i]] + xs[i + 1..]);
    InFlightCat(xs[..i], [xs[i]] + xs[i + 1..], sub);
    InFlightCat([xs[i]], xs[i + 1..], sub);
    InFlightCat(xs[..i], xs[i + 1..], sub);
  }

  /** Settling an execution takes its message out of the running ones and nothing else. */
  lemma SettleExec(xs: seq<Exec>, i: nat, m: Message, sub: nat)
    requires i < |xs| && !xs[i].settled
    ensures var ys := xs[i := xs[i].(settled := true)];
      && Running(xs, m) == Running(ys, m) + (if xs[i].item.msg == m then 1 else 0)
      && InFlight(ys, sub) == InFlight(xs, sub)
  {
    var ys := xs[i := xs[i].(settled := true)];
    assert Without(xs, i) == Without(ys, i);
    RunningWithout(xs, i, m);
    RunningWithout(ys, i, m);
    InFlightWithout(xs, i, sub);
    InFlightWithout(ys, i, sub);
  }

  // ---------------------------------------------------------------------------------
  // Serial delivery: the active keys are the keys in flight, pairwise distinct

  ghost predicate Serial(g: Group) {
    && (forall k :: k in g.activeKeys <==> exists i :: 0 <= i < |g.execs| && g.execs[i].item.msg.key == k)
    && (forall i, j :: 0 <= i < j < |g.execs| ==> g.execs[i].item.msg.key != g.execs[j].item.msg.key)
  }

  // Capacity: each subscription counts its executions and stays within its concurrency

  ghost predicate SubOk(g: Group, s: Sub) {
    s.active == InFlight(g.execs, s.id) && s.active <= Max0(s.concurrency)
  }

  ghost predicate Capacity(g: Group) {
    && (forall i, j :: 0 <= i < j < |g.subs| ==> g.subs[i].id != g.subs[j].id)
    && (forall s <- g.subs :: SubOk(g, s))
  }

  // Conservation: every published message is in exactly one place

  function Places(g: Group, m: Message): nat {
    Queued(g.queue, m) + Running(g.execs, m) + g.acked[m] + g.dead[m]
  }

  ghost predicate Conserved(g: Group) {
    forall m :: Places(g, m) == if m in g.published then 1 else 0
  }

  // Attempts: the k-th delivery of a message carries its initial attempt plus k - 1

  ghost predicate Numbered(log: seq<Delivery>) {
    forall k :: 0 <= k < |log| ==> log[k].attempt == log[k].msg.initial + Times(log[..k], log[k].msg)
  }

  ghost predicate Attempts(g: Group) {
    && Numbered(g.log)
    && (forall i :: 0 <= i < |g.queue| ==> g.queue[i].attempt == g.queue[i].msg.initial + Times(g.log, g.queue[i].msg))
    && (forall i :: 0 <= i < |g.execs| && !g.execs[i].settled ==>
          g.execs[i].item.attempt + 1 == g.execs[i].item.msg.initial + Times(g.log, g.execs[i].item.msg))
    && (forall m :: m !in g.published ==> Times(g.log, m) == 0)
  }

  /** Nothing is acknowledged or dead-lettered that was not delivered. */
  ghost predicate Delivered(g: Group) {
    && (forall i :: 0 <= i < |g.execs| ==> Times(g.log, g.execs[i].item.msg) > 0)
    && (forall m :: g.acked[m] + g.dead[m] > 0 ==> Times(g.log, m) > 0)
  }

  ghost predicate Inv(g: Group) {
    Serial(g) && Capacity(g) && Conserved(g) && Attempts(g) && Delivered(g)
  }

  // Dispatch --------------------------------------------------------------------------

  predicate CanDispatch(g: Group, i: nat, j: nat) {
    i < |g.queue| && j < |g.subs| && Free(g.subs[j]) && g.queue[i].msg.key !in g.activeKeys
  }

  lemma DispatchSerial(g: Group, i: nat, j: nat, now: int)
    requires CanDispatch(g, i, j) && Serial(g)
    ensures Serial(Dispatch(g, i, j, now))
  {
    var g' := Dispatch(g, i, j, now);
    var n := |g.execs|;
    assert g'.execs[n].item == g.queue[i];
    forall k ensures k in g'.activeKeys <==> exists l :: 0 <= l < |g'.execs| && g'.execs[l].item.msg.key == k {
      if k in g.activeKeys {
        var l :| 0 <= l < n && g.execs[l].item.msg.key == k;
        assert g'.execs[l] == g.execs[l];
      }
    }
  }

  lemma DispatchCapacity(g: Group, i: nat, j: nat, now: int)
    requires CanDispatch(g, i, j) && Capacity(g)
    ensures Capacity(Dispatch(g, i, j, now))
  {
    var g' := Dispatch(g, i, j, now);
    var x := g'.execs[|g.execs|];
    forall l | 0 <= l < |g'.subs| ensures SubOk(g', g'.subs[l]) {
      assert SubOk(g, g.subs[l]);
      InFlightCat(g.execs, [x], g.subs[l].id);
    }
  }

  lemma DispatchConserves(g: Group, i: nat, j: nat, now: int)
    requires CanDispatch(g, i, j) && Conserved(g)
    ensures Conserved(Dispatch(g, i, j, now))
  {
    var g' := Dispatch(g, i, j, now);
    forall m ensures Places(g', m) == Places(g, m) {
      QueuedWithout(g.queue, i, m);
      RunningCat(g.execs, [g'.execs[|g.execs|]], m);
    }
  }

  /** A message waits in one queue slot, or runs in one execution, never both. */
  lemma OnePlace(g: Group, i: nat)
    requires Conserved(g) && i < |g.queue|
    ensures forall l :: 0 <= l < |g.queue| && l != i ==> g.queue[l].msg != g.queue[i].msg
    ensures forall l :: 0 <= l < |g.execs| && !g.execs[l].settled ==> g.execs[l].item.msg != g.queue[i].msg
    ensures g.queue[i].msg in g.published
  {
    var m := g.queue[i].msg;
    assert Places(g, m) <= 1;
    QueuedWithout(g.queue, i, m);
    forall l | 0 <= l < |g.queue| && l != i ensures g.queue[l].msg != m {
      var rest := Without(g.queue, i);
      var l' := if l < i then l else l - 1;
      assert rest[l'] == g.queue[l];
      QueuedWithout(rest, l', m);
    }
    forall l | 0 <= l < |g.execs| && !g.execs[l].settled ensures g.execs[l].item.msg != m {
      RunningWithout(g.execs, l, m);
    }
  }

  lemma DispatchAttempts(g: Group, i: nat, j: nat, now: int)
    requires CanDispatch(g, i, j) && Conserved(g) && Attempts(g)
    ensures Attempts(Dispatch(g, i, j, now))
  {
    var g' := Dispatch(g, i, j, now);
    var d := Delivery(g.queue[i].msg, g.queue[i].attempt, now);
    OnePlace(g, i);
    forall m ensures Times(g'.log, m) == Times(g.log, m) + (if m == d.msg then 1 else 0) {
      TimesCat(g.log, [d], m);
    }
    forall k | 0 <= k < |g'.log|
      ensures g'.log[k].attempt == g'.log[k].msg.initial + Times(g'.log[..k], g'.log[k].msg)
    {
      assert g'.log[..k] == g.log[..k];
      if k == |g.log| { assert g.log[..k] == g.log; }
    }
    forall l | 0 <= l < |g'.queue|
      ensures g'.queue[l].attempt == g'.queue[l].msg.initial + Times(g'.log, g'.queue[l].msg)
    {
      var l' := if l < i then l else l + 1;
      assert g'.queue[l] == g.queue[l'];
    }
  }

  lemma DispatchDelivered(g: Group, i: nat, j: nat, now: int)
    requires CanDispatch(g, i, j) && Delivered(g)
    ensures Delivered(Dispatch(g, i, j, now))
  {
    var d := Delivery(g.queue[i].msg, g.queue[i].attempt, now);
    forall m ensures Times(g.log + [d], m) == Times(g.log, m) + (if m == d.msg then 1 else 0) {
      TimesCat(g.log, [d], m);
    }
  }

  lemma DispatchInv(g: Group, i: nat, j: nat, now: int)
    requires CanDispatch(g, i, j) && Inv(g)
    ensures Inv(Dispatch(g, i, j, now))
  {
    DispatchSerial(g, i, j, now);
    DispatchCapacity(g, i, j, now);
    DispatchConserves(g, i, j, now);
    DispatchAttempts(g, i, j, now);
    DispatchDelivered(g, i, j, now);
  }

  lemma {:induction false} ScanInv(g: Group, i: nat, now: int, due: Option<int>)
    requires i <= |g.queue| && Inv(g)
    ensures Inv(Scan(g, i, now, due).0)
    decreases |g.queue| - i
  {
    if i < |g.queue| {
      if g.queue[i].availableAt > now {
        ScanInv(g, i + 1, now, Sooner(due, g.queue[i].availableAt));
      } else if g.queue[i].msg.key in g.activeKeys {
        ScanInv(g, i + 1, now, due);
      } else {
        var j := FindFree(g.subs, 0);
        if j.Some? {
          DispatchInv(g, i, j.value, now);
          ScanInv(Dispatch(g, i, j.value, now), i, now, due);
        }
      }
    }
  }

  /** The invariant does not look at the timer or the connection state. */
  lemma SameInv(g: Group, g': Group)
    requires Inv(g) && g' == g.(timer := g'.timer, live := g'.live)
    ensures Inv(g')
  {
    forall s | s in g'.subs ensures SubOk(g', s) { assert SubOk(g, s); }
    forall m ensures Places(g', m) == Places(g, m) { }
  }

  lemma PumpInv(g: Group, now: int)
    requires Inv(g)
    ensures Inv(Pump(g, now))
  {
    if g.live {
      var g0 := g.(timer := None);
      SameInv(g, g0);
      ScanInv(g0, 0, now, None);
      SameInv(Scan(g0, 0, now, None).0, Pump(g, now));
    }
  }

  // The other steps -------------------------------------------------------------------

  /** The message enqueued, before the pump. */
  function Queue1(g: Group, m: Message, at: int): Group {
    g.(queue := g.queue + [Item(m, m.initial, at)], published := g.published + [m])
  }

  lemma EnqueueConserves(g: Group, m: Message, at: int)
    requires Conserved(g) && m !in g.published
    ensures Conserved(Queue1(g, m, at))
  {
    var g' := Queue1(g, m, at);
    forall n ensures Places(g', n) == Places(g, n) + if n == m then 1 else 0 {
      QueuedCat(g.queue, [Item(m, m.initial, at)], n);
    }
  }

  lemma EnqueueAttempts(g: Group, m: Message, at: int)
    requires Attempts(g) && m !in g.published
    ensures Attempts(Queue1(g, m, at))
  {
  }

  lemma EnqueuedInv(g: Group, m: Message, at: int)
    requires Inv(g) && m !in g.published
    ensures Inv(Queue1(g, m, at))
  {
    EnqueueConserves(g, m, at);
    EnqueueAttempts(g, m, at);
    assert Capacity(Queue1(g, m, at)) by {
      forall s | s in g.subs ensures SubOk(Queue1(g, m, at), s) { assert SubOk(g, s); }
    }
  }

  /** The subscription added, before the pump. */
  function Subscribed(g: Group, id: nat, concurrency: int, maxAttempts: int): Group {
    g.(subs := g.subs + [Sub(id, concurrency, maxAttempts, 0)])
  }

  lemma SubscribedInv(g: Group, id: nat, concurrency: int, maxAttempts: int, now: int)
    requires Inv(g) && Enabled(g, Subscribes(id, concurrency, maxAttempts, now))
    ensures Inv(Subscribed(g, id, concurrency, maxAttempts))
  {
    var g' := Subscribed(g, id, concurrency, maxAttempts);
    NoneInFlight(g.execs, id);
    forall s | s in g'.subs ensures SubOk(g', s) {
      if s in g.subs { assert SubOk(g, s); }
    }
  }

  lemma {:induction false} NoneInFlight(xs: seq<Exec>, id: nat)
    requires forall x <- xs :: x.sub != id
    ensures InFlight(xs, id) == 0
  {
    if xs != [] {
      NoneInFlight(xs[1..], id);
    }
  }

  lemma CloseInv(g: Group, id: nat)
    requires Inv(g)
    ensures Inv(Close(g, id))
  {
    var g' := Close(g, id);
    var j := IndexOf(g.subs, id, 0);
    if j.Some? {
      forall i | 0 <= i < |g'.subs| ensures g'.subs[i] == g.subs[if i < j.value then i else i + 1] { }
      forall s | s in g'.subs ensures SubOk(g', s) { assert SubOk(g, s); }
    }
  }

  /** Closing takes away the subscription with this id and no other. */
  lemma CloseTakesOne(g: Group, id: nat)
    requires Capacity(g)
    ensures forall s :: s in Close(g, id).subs <==> s in g.subs && s.id != id
  {
    var j := IndexOf(g.subs, id, 0);
    if j.Some? {
      var subs := Without(g.subs, j.value);
      forall s | s in g.subs && s.id != id ensures s in subs {
        var l :| 0 <= l < |g.subs| && g.subs[l] == s;
        assert subs[if l < j.value then l else l - 1] == s;
      }
      forall l | 0 <= l < |subs| ensures subs[l] in g.subs && subs[l].id != id {
        assert subs[l] == g.subs[if l < j.value then l else l + 1];
      }
    }
  }

  /** Settling books the message: as acknowledged, as dead, or back into the queue. */
  lemma SettleConserves(g: Group, i: nat, o: Outcome, now: int)
    requires Conserved(g) && i < |g.execs| && !g.execs[i].settled
    ensures Conserved(Settle(g, i, o, now))
  {
    var g' := Settle(g, i, o, now);
    forall m ensures Places(g', m) == Places(g, m) {
      SettleExec(g.execs, i, m, 0);
      if o.Retry? && !Dead(g.execs[i], o) {
        QueuedCat(g.queue, [g'.queue[|g.queue|]], m);
      }
    }
    assert g'.published == g.published;
  }

  lemma SettleAttempts(g: Group, i: nat, o: Outcome, now: int)
    requires Attempts(g) && i < |g.execs| && !g.execs[i].settled
    ensures Attempts(Settle(g, i, o, now))
  {
    var g' := Settle(g, i, o, now);
    assert g'.log == g.log && g'.published == g.published;
    assert forall l :: 0 <= l < |g'.execs| && !g'.execs[l].settled ==> l != i && g'.execs[l] == g.execs[l];
    assert forall l :: 0 <= l < |g.queue| ==> g'.queue[l] == g.queue[l];
  }

  lemma SettleDelivered(g: Group, i: nat, o: Outcome, now: int)
    requires Delivered(g) && i < |g.execs|
    ensures Delivered(Settle(g, i, o, now))
  {
    var g' := Settle(g, i, o, now);
    assert g'.log == g.log;
    forall l | 0 <= l < |g'.execs| ensures g'.execs[l].item == g.execs[l].item { }
  }

  lemma SettleSerial(g: Group, i: nat, o: Outcome, now: int)
    requires Serial(g) && i < |g.execs|
    ensures Serial(Settle(g, i, o, now))
  {
    var g' := Settle(g, i, o, now);
    assert |g'.execs| == |g.execs| && g'.activeKeys == g.activeKeys;
    forall l | 0 <= l < |g.execs| ensures g'.execs[l].item == g.execs[l].item { }
  }

  lemma SettleCapacity(g: Group, i: nat, o: Outcome, now: int)
    requires Capacity(g) && i < |g.execs| && !g.execs[i].settled
    ensures Capacity(Settle(g, i, o, now))
  {
    var g' := Settle(g, i, o, now);
    assert g'.subs == g.subs;
    forall s | s in g.subs ensures SubOk(g', s) {
      assert SubOk(g, s);
      SettleExec(g.execs, i, g.execs[i].item.msg, s.id);
    }
  }

  lemma SettleInv(g: Group, i: nat, o: Outcome, now: int)
    requires Inv(g) && i < |g.execs| && !g.execs[i].settled
    ensures Inv(Settle(g, i, o, now))
  {
    SettleSerial(g, i, o, now);
    SettleCapacity(g, i, o, now);
    SettleConserves(g, i, o, now);
    SettleAttempts(g, i, o, now);
    SettleDelivered(g, i, o, now);
  }

  /** Execution `i` removed, before the pump. */
  function Finish1(g: Group, i: nat): Group
    requires i < |g.execs|
  {
    var x := g.execs[i];
    g.(subs := Decrement(g.subs, x.sub), activeKeys := g.activeKeys - {x.item.msg.key}, execs := Without(g.execs, i))
  }

  lemma FinishSerial(g: Group, i: nat)
    requires Serial(g) && i < |g.execs|
    ensures Serial(Finish1(g, i))
  {
    var g' := Finish1(g, i);
    forall l | 0 <= l < |g'.execs| ensures g'.execs[l] == g.execs[if l < i then l else l + 1] { }
    forall k | k in g'.activeKeys ensures exists l :: 0 <= l < |g'.execs| && g'.execs[l].item.msg.key == k {
      var l :| 0 <= l < |g.execs| && g.execs[l].item.msg.key == k;
      assert g'.execs[if l < i then l else l - 1] == g.execs[l];
    }
  }

  lemma FinishCapacity(g: Group, i: nat)
    requires Capacity(g) && i < |g.execs|
    ensures Capacity(Finish1(g, i))
  {
    var g' := Finish1(g, i);
    forall l | 0 <= l < |g'.subs| ensures SubOk(g', g'.subs[l]) {
      assert SubOk(g, g.subs[l]);
      InFlightWithout(g.execs, i, g.subs[l].id);
    }
  }

  lemma FinishedInv(g: Group, i: nat)
    requires Inv(g) && i < |g.execs| && g.execs[i].settled
    ensures Inv(Finish1(g, i))
  {
    var g' := Finish1(g, i);
    FinishSerial(g, i);
    FinishCapacity(g, i);
    forall m ensures Places(g', m) == Places(g, m) { RunningWithout(g.execs, i, m); }
    forall l | 0 <= l < |g'.execs| ensures g'.execs[l] == g.execs[if l < i then l else l + 1] { }
  }

  lemma InvStep(g: Group, e: Event)
    requires Inv(g) && Enabled(g, e)
    ensures Inv(Apply(g, e))
  {
    match e
    case Publish(m, at, now) => EnqueuedInv(g, m, at); PumpInv(Queue1(g, m, at), now);
    case Subscribes(id, c, a, now) => SubscribedInv(g, id, c, a, now); PumpInv(Subscribed(g, id, c, a), now);
    case Closes(id) => CloseInv(g, id);
    case TimerFires(now) => SameInv(g, g.(timer := None)); PumpInv(g.(timer := None), now);
    case Settles(i, o, now) => SettleInv(g, i, o, now);
    case Finishes(i, now) => FinishedInv(g, i); PumpInv(Finish1(g, i), now);
    case Disconnects => SameInv(g, BeginDisconnect(g));
    case Drops => SameInv(g, Drop(g));
    case Reinitializes => SameInv(g, Reinitialize(g));
  }

  lemma {:induction false} InvRun(g: Group, es: seq<Event>)
    requires Inv(g) && Runs(g, es)
    ensures Inv(After(g, es))
    decreases es
  {
    if es != [] {
      InvStep(g, es[0]);
      InvRun(Apply(g, es[0]), es[1..]);
    }
  }

  // ---------------------------------------------------------------------------------
  // Theorems about every run of a group

  /** Serial delivery and capacity: the active keys are exactly the keys of the executions in flight,
      no two of which share a key; each open subscription counts its own executions and never has
      more than its concurrency. */
  lemma SerialDelivery(es: seq<Event>)
    requires Runs(NewGroup(), es)
    ensures Serial(After(NewGroup(), es)) && Capacity(After(NewGroup(), es))
  {
    InvRun(NewGroup(), es);
  }

  /** Conservation: every message published to the group is, at any time, in exactly one place: once
      in the queue, once in an unsettled execution, acknowledged once, or dead-lettered once. */
  lemma MessageConservation(es: seq<Event>, m: Message)
    requires Runs(NewGroup(), es)
    ensures Places(After(NewGroup(), es), m) == if m in After(NewGroup(), es).published then 1 else 0
  {
    InvRun(NewGroup(), es);
  }

  // Subscriptions ---------------------------------------------------------------------

  /** A subscription as it was opened: its id, its concurrency and its maximum. */
  datatype Terms = Terms(id: nat, concurrency: int, maxAttempts: int)

  function TermsOf(subs: seq<Sub>): seq<Terms> {
    seq(|subs|, i requires 0 <= i < |subs| => Terms(subs[i].id, subs[i].concurrency, subs[i].maxAttempts))
  }

  function Dropped(ts: seq<Terms>, id: nat): seq<Terms> {
    if ts == [] then []
    else Dropped(ts[..|ts| - 1], id) + if ts[|ts| - 1].id == id then [] else [ts[|ts| - 1]]
  }

  /** The subscriptions opened and not closed in a run, in the order in which they were opened. */
  function Opened(es: seq<Event>): seq<Terms> {
    if es == [] then []
    else
      var before := Opened(es[..|es| - 1]);
      match es[|es| - 1]
      case Subscribes(id, concurrency, maxAttempts, _) => before + [Terms(id, concurrency, maxAttempts)]
      case Closes(id) => Dropped(before, id)
      case _ => before
  }

  lemma {:induction false} ScanTerms(g: Group, i: nat, now: int, due: Option<int>)
    requires i <= |g.queue|
    ensures TermsOf(Scan(g, i, now, due).0.subs) == TermsOf(g.subs)
    decreases |g.queue| - i
  {
    if i < |g.queue| {
      if g.queue[i].availableAt > now {
        ScanTerms(g, i + 1, now, Sooner(due, g.queue[i].availableAt));
      } else if g.queue[i].msg.key in g.activeKeys {
        ScanTerms(g, i + 1, now, due);
      } else {
        var j := FindFree(g.subs, 0);
        if j.Some? {
          ScanTerms(Dispatch(g, i, j.value, now), i, now, due);
          assert TermsOf(Dispatch(g, i, j.value, now).subs) == TermsOf(g.subs);
        }
      }
    }
  }

  lemma PumpTerms(g: Group, now: int)
    ensures TermsOf(Pump(g, now).subs) == TermsOf(g.subs)
  {
    if g.live { ScanTerms(g.(timer := None), 0, now, None); }
  }

  lemma {:induction false} NoneDropped(ts: seq<Terms>, id: nat)
    requires forall t <- ts :: t.id != id
    ensures Dropped(ts, id) == ts
  {
    if ts != [] {
      NoneDropped(ts[..|ts| - 1], id);
      assert ts == ts[..|ts| - 1] + [ts[|ts| - 1]];
    }
  }

  lemma {:induction false} DroppedCat(a: seq<Terms>, b: seq<Terms>, id: nat)
    ensures Dropped(a + b, id) == Dropped(a, id) + Dropped(b, id)
    decreases b
  {
    if b == [] {
      assert a + b == a;
    } else {
      var n := |b| - 1;
      assert (a + b)[..|a| + n] == a + b[..n];
      DroppedCat(a, b[..n], id);
    }
  }

  lemma DropOne(ts: seq<Terms>, j: nat, id: nat)
    requires j < |ts| && ts[j].id == id && forall l :: 0 <= l < |ts| && l != j ==> ts[l].id != id
    ensures Dropped(ts, id) == ts[..j] + ts[j + 1..]
  {
    var a, x, b := ts[..j], ts[j], ts[j + 1..];
    assert ts == a + ([x] + b);
    DroppedCat(a, [x] + b, id);
    DroppedCat([x], b, id);
    assert Dropped([x], id) == [];
    NoneDropped(a, id);
    NoneDropped(b, id);
  }

  lemma CloseTerms(g: Group, id: nat)
    requires Capacity(g)
    ensures TermsOf(Close(g, id).subs) == Dropped(TermsOf(g.subs), id)
  {
    var j, ts := IndexOf(g.subs, id, 0), TermsOf(g.subs);
    if j.Some? {
      DropOne(ts, j.value, id);
      assert TermsOf(Without(g.subs, j.value)) == ts[..j.value] + ts[j.value + 1..];
    } else {
      NoneDropped(ts, id);
    }
  }

  lemma StepTerms(g: Group, e: Event)
    requires Inv(g) && Enabled(g, e)
    ensures TermsOf(Apply(g, e).subs) ==
      match e
      case Subscribes(id, c, a, _) => TermsOf(g.subs) + [Terms(id, c, a)]
      case Closes(id) => Dropped(TermsOf(g.subs), id)
      case _ => TermsOf(g.subs)
  {
    match e
    case Publish(m, at, now) => PumpTerms(Queue1(g, m, at), now);
    case Subscribes(id, c, a, now) =>
      PumpTerms(Subscribed(g, id, c, a), now);
      OneMoreTerm(g.subs, Sub(id, c, a, 0));
    case Closes(id) => CloseTerms(g, id);
    case TimerFires(now) => PumpTerms(g.(timer := None), now);
    case Finishes(i, now) =>
      PumpTerms(Finish1(g, i), now);
      SameTerms(g.subs, g.execs[i].sub);
    case _ =>
  }

  lemma OneMoreTerm(subs: seq<Sub>, x: Sub)
    ensures TermsOf(subs + [x]) == TermsOf(subs) + [Terms(x.id, x.concurrency, x.maxAttempts)]
  {
  }

  lemma SameTerms(subs: seq<Sub>, id: nat)
    ensures TermsOf(Decrement(subs, id)) == TermsOf(subs)
  {
  }

  lemma {:induction false} AppendRun(g: Group, es: seq<Event>)
    requires es != [] && Runs(g, es)
    ensures var n := |es| - 1;
      Runs(g, es[..n]) && Enabled(After(g, es[..n]), es[n]) && After(g, es) == Apply(After(g, es[..n]), es[n])
    decreases es
  {
    var n := |es| - 1;
    if n > 0 {
      AppendRun(Apply(g, es[0]), es[1..]);
      assert es[..n][1..] == es[1..][..n - 1];
    }
  }

  /** The open subscriptions of a group are exactly those opened and not closed, with the concurrency and
      the maximum they were opened with, in this order. */
  lemma {:induction false} SubscriptionsExactly(es: seq<Event>)
    requires Runs(NewGroup(), es)
    ensures TermsOf(After(NewGroup(), es).subs) == Opened(es)
    decreases es
  {
    if es != [] {
      var n := |es| - 1;
      AppendRun(NewGroup(), es);
      SubscriptionsExactly(es[..n]);
      InvRun(NewGroup(), es[..n]);
      StepTerms(After(NewGroup(), es[..n]), es[n]);
    }
  }

  // Bounded retries -------------------------------------------------------------------

  function Most(max: int, m: Message): nat {
    if max - m.initial > 1 then max - m.initial else 1
  }

  predicate ItemBounded(it: Item, max: int) {
    it.attempt == it.msg.initial || it.attempt < max
  }

  ghost predicate Bounded(g: Group, max: int) {
    && (forall s <- g.subs :: s.maxAttempts == max)
    && (forall i :: 0 <= i < |g.execs| ==> g.execs[i].maxAttempts == max && ItemBounded(g.execs[i].item, max))
    && (forall i :: 0 <= i < |g.queue| ==> ItemBounded(g.queue[i], max))
    && (forall m :: Times(g.log, m) <= Most(max, m))
  }

  lemma DispatchBounded(g: Group, i: nat, j: nat, now: int, max: int)
    requires CanDispatch(g, i, j) && Attempts(g) && Bounded(g, max)
    ensures Bounded(Dispatch(g, i, j, now), max)
  {
    var g' := Dispatch(g, i, j, now);
    var d := Delivery(g.queue[i].msg, g.queue[i].attempt, now);
    forall m ensures Times(g'.log, m) <= Most(max, m) {
      TimesCat(g.log, [d], m);
    }
    forall l | 0 <= l < |g'.queue| ensures ItemBounded(g'.queue[l], max) {
      assert g'.queue[l] == g.queue[if l < i then l else l + 1];
    }
  }

  lemma {:induction false} ScanBounded(g: Group, i: nat, now: int, due: Option<int>, max: int)
    requires i <= |g.queue| && Inv(g) && Bounded(g, max)
    ensures Bounded(Scan(g, i, now, due).0, max)
    decreases |g.queue| - i
  {
    if i < |g.queue| {
      if g.queue[i].availableAt > now {
        ScanBounded(g, i + 1, now, Sooner(due, g.queue[i].availableAt), max);
      } else if g.queue[i].msg.key in g.activeKeys {
        ScanBounded(g, i + 1, now, due, max);
      } else {
        var j := FindFree(g.subs, 0);
        if j.Some? {
          DispatchInv(g, i, j.value, now);
          DispatchBounded(g, i, j.value, now, max);
          ScanBounded(Dispatch(g, i, j.value, now), i, now, due, max);
        }
      }
    }
  }

  lemma PumpBounded(g: Group, now: int, max: int)
    requires Inv(g) && Bounded(g, max)
    ensures Bounded(Pump(g, now), max)
  {
    if g.live {
      SameInv(g, g.(timer := None));
      ScanBounded(g.(timer := None), 0, now, None, max);
    }
  }

  /** Every subscription is opened with this many attempts. */
  predicate Shares(es: seq<Event>, max: int) {
    forall e <- es :: e.Subscribes? ==> e.maxAttempts == max
  }

  lemma FinishBounded(g: Group, i: nat, max: int)
    requires i < |g.execs| && Bounded(g, max)
    ensures Bounded(Finish1(g, i), max)
  {
    var g' := Finish1(g, i);
    forall l | 0 <= l < |g'.execs| ensures g'.execs[l] == g.execs[if l < i then l else l + 1] { }
    forall s | s in g'.subs ensures s.maxAttempts == max {
      var l :| 0 <= l < |g'.subs| && g'.subs[l] == s;
      assert g.subs[l] in g.subs;
    }
  }

  lemma BoundedStep(g: Group, e: Event, max: int)
    requires Inv(g) && Enabled(g, e) && Bounded(g, max) && (e.Subscribes? ==> e.maxAttempts == max)
    ensures Bounded(Apply(g, e), max)
  {
    match e
    case Publish(m, at, now) => EnqueueBounded(g, m, at, now, max);
    case Subscribes(id, c, a, now) => SubscribeBounded(g, id, c, a, now);
    case Closes(id) =>
    case TimerFires(now) =>
      SameInv(g, g.(timer := None));
      PumpBounded(g.(timer := None), now, max);
    case Settles(i, o, now) => SettleBounded(g, i, o, now, max);
    case Finishes(i, now) => FinishPumpBounded(g, i, now, max);
    case Disconnects =>
    case Drops =>
    case Reinitializes =>
  }

  lemma EnqueueBounded(g: Group, m: Message, at: int, now: int, max: int)
    requires Inv(g) && Enabled(g, Publish(m, at, now)) && Bounded(g, max)
    ensures Bounded(Enqueue(g, m, at, now), max)
  {
    EnqueuedInv(g, m, at);
    PumpBounded(Queue1(g, m, at), now, max);
  }

  lemma FinishPumpBounded(g: Group, i: nat, now: int, max: int)
    requires Inv(g) && Enabled(g, Finishes(i, now)) && Bounded(g, max)
    ensures Bounded(Finish(g, i, now), max)
  {
    FinishBounded(g, i, max);
    FinishedInv(g, i);
    PumpBounded(Finish1(g, i), now, max);
  }

  lemma SubscribeBounded(g: Group, id: nat, c: int, max: int, now: int)
    requires Inv(g) && Enabled(g, Subscribes(id, c, max, now)) && Bounded(g, max)
    ensures Bounded(Subscribe(g, id, c, max, now), max)
  {
    SubscribedInv(g, id, c, max, now);
    PumpBounded(Subscribed(g, id, c, max), now, max);
  }

  lemma SettleBounded(g: Group, i: nat, o: Outcome, now: int, max: int)
    requires i < |g.execs| && Bounded(g, max)
    ensures Bounded(Settle(g, i, o, now), max)
  {
  }

  lemma {:induction false} BoundedRun(g: Group, es: seq<Event>, max: int)
    requires Inv(g) && Bounded(g, max) && Runs(g, es) && Shares(es, max)
    ensures Bounded(After(g, es), max)
    decreases es
  {
    if es != [] {
      InvStep(g, es[0]);
      BoundedStep(g, es[0], max);
      BoundedRun(Apply(g, es[0]), es[1..], max);
    }
  }

  lemma InvAtEnd(es: seq<Event>, g: Group)
    requires Runs(NewGroup(), es) && g == After(NewGroup(), es)
    ensures Inv(g)
  {
    InvRun(NewGroup(), es);
  }

  lemma BoundedAtEnd(es: seq<Event>, max: int, g: Group)
    requires Runs(NewGroup(), es) && Shares(es, max) && g == After(NewGroup(), es)
    ensures Bounded(g, max)
  {
    BoundedRun(NewGroup(), es, max);
  }

  /** Bounded retries: where all subscriptions share `maxAttempts`, the k-th delivery of a message
      carries its initial attempt plus k - 1, no message is delivered more than
      max(1, maxAttempts - initial) times, and one that neither waits nor runs any more has been
      acknowledged or dead-lettered exactly once, after at least one delivery. */
  lemma BoundedRetries(es: seq<Event>, max: int, m: Message, g: Group)
    requires Runs(NewGroup(), es) && Shares(es, max) && g == After(NewGroup(), es)
    ensures Numbered(g.log) && Times(g.log, m) <= Most(max, m)
    ensures m in g.published && Queued(g.queue, m) == 0 && Running(g.execs, m) == 0 ==>
      g.acked[m] + g.dead[m] == 1 && Times(g.log, m) >= 1
  {
    InvAtEnd(es, g);
    BoundedAtEnd(es, max, g);
    BoundedIn(g, max, m);
  }

  lemma BoundedIn(g: Group, max: int, m: Message)
    requires Inv(g) && Bounded(g, max)
    ensures Numbered(g.log) && Times(g.log, m) <= Most(max, m)
    ensures m in g.published && Queued(g.queue, m) == 0 && Running(g.execs, m) == 0 ==>
      g.acked[m] + g.dead[m] == 1 && Times(g.log, m) >= 1
  {
    if m in g.published && Queued(g.queue, m) == 0 && Running(g.execs, m) == 0 { Booked(g, m); }
  }

  lemma Booked(g: Group, m: Message)
    requires Inv(g) && m in g.published && Queued(g.queue, m) == 0 && Running(g.execs, m) == 0
    ensures g.acked[m] + g.dead[m] == 1 && Times(g.log, m) >= 1
  {
    assert Places(g, m) == 1;
  }
}
