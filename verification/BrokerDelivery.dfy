/** No lost wake-up, and publish order per key. */
module BrokerDelivery {
  import opened Wrappers
  import opened BrokerGroup
  import opened BrokerSafety

  // ---------------------------------------------------------------------------------
  // No lost wake-up

  predicate Armed(timer: Option<int>, at: int) {
    timer.Some? && timer.value <= at
  }

  /** Why a queued item is rightly still queued: its key is in flight, no subscription has capacity
      left, or a timer is armed no later than its due time. */
  predicate Waits(g: Group, timer: Option<int>, it: Item) {
    it.msg.key in g.activeKeys || !HasCapacity(g.subs) || Armed(timer, it.availableAt)
  }

  ghost predicate Awake(g: Group) {
    g.live ==> forall i :: 0 <= i < |g.queue| ==> Waits(g, g.timer, g.queue[i])
  }

  /** After the scan, an item is in the future and covered by `due`, or not dispatchable. */
  predicate Passed(g: Group, now: int, due: Option<int>, it: Item) {
    if it.availableAt > now then Armed(due, it.availableAt) || !HasCapacity(g.subs)
    else it.msg.key in g.activeKeys || !HasCapacity(g.subs)
  }

  predicate PassedBefore(g: Group, now: int, due: Option<int>, it: Item) {
    if it.availableAt > now then Armed(due, it.availableAt) else it.msg.key in g.activeKeys
  }

  lemma {:induction false} ScanPasses(g: Group, i: nat, now: int, due: Option<int>)
    requires i <= |g.queue|
    requires forall l :: 0 <= l < i ==> PassedBefore(g, now, due, g.queue[l])
    ensures var (g', due') := Scan(g, i, now, due);
      g'.live == g.live && forall l :: 0 <= l < |g'.queue| ==> Passed(g', now, due', g'.queue[l])
    decreases |g.queue| - i
  {
    if i < |g.queue| {
      if g.queue[i].availableAt > now {
        ScanPasses(g, i + 1, now, Sooner(due, g.queue[i].availableAt));
      } else if g.queue[i].msg.key in g.activeKeys {
        ScanPasses(g, i + 1, now, due);
      } else {
        var j := FindFree(g.subs, 0);
        if j.Some? {
          var g' := Dispatch(g, i, j.value, now);
          forall l | 0 <= l < i ensures PassedBefore(g', now, due, g'.queue[l]) {
            assert g'.queue[l] == g.queue[l] && PassedBefore(g, now, due, g.queue[l]);
          }
          ScanPasses(g', i, now, due);
        } else {
          forall s | s in g.subs ensures !Free(s) { }
        }
      }
    }
  }

  /** The earliest due time seen so far is that of an item passed. */
  ghost predicate DueBefore(q: seq<Item>, i: nat, now: int, due: Option<int>) {
    due.Some? ==> due.value > now && exists l :: 0 <= l < i <= |q| && q[l].availableAt == due.value
  }

  lemma {:induction false} ScanDue(g: Group, i: nat, now: int, due: Option<int>)
    requires i <= |g.queue| && DueBefore(g.queue, i, now, due)
    ensures var (g', due') := Scan(g, i, now, due); DueBefore(g'.queue, |g'.queue|, now, due')
    decreases |g.queue| - i
  {
    if i < |g.queue| {
      if g.queue[i].availableAt > now {
        ScanDue(g, i + 1, now, Sooner(due, g.queue[i].availableAt));
      } else if g.queue[i].msg.key in g.activeKeys {
        ScanDue(g, i + 1, now, due);
      } else {
        var j := FindFree(g.subs, 0);
        if j.Some? {
          var g' := Dispatch(g, i, j.value, now);
          forall l | 0 <= l < i ensures g'.queue[l] == g.queue[l] { }
          ScanDue(g', i, now, due);
        }
      }
    }
  }

  /** After a pump no dispatchable message is left in the queue, and the group is awake, whatever
      state it was in before. A timer is armed for the due time of a queued message, and no earlier. */
  lemma PumpWakes(g: Group, now: int)
    requires g.live
    ensures Awake(Pump(g, now)) && Pump(g, now).live
    ensures var g' := Pump(g, now);
      forall i :: 0 <= i < |g'.queue| && g'.queue[i].availableAt <= now && HasCapacity(g'.subs) ==>
        g'.queue[i].msg.key in g'.activeKeys
    ensures var g' := Pump(g, now);
      g'.timer.Some? ==>
        && g'.timer.value > now
        && exists i :: 0 <= i < |g'.queue| && g'.queue[i].availableAt == g'.timer.value
  {
    ScanPasses(g.(timer := None), 0, now, None);
    ScanDue(g.(timer := None), 0, now, None);
    var (g1, due) := Scan(g.(timer := None), 0, now, None);
    forall i | 0 <= i < |g1.queue| ensures Passed(g1, now, due, g1.queue[i]) { }
  }

  /** Nothing but a pump gives capacity back, so every other step keeps the group awake. */
  lemma AwakeStep(g: Group, e: Event)
    requires Inv(g) && Awake(g) && Enabled(g, e) && !e.Reinitializes?
    ensures Awake(Apply(g, e))
  {
    match e
    case Publish(m, at, now) => PumpWakes(Queue1(g, m, at), now);
    case Subscribes(id, c, a, now) => PumpWakes(Subscribed(g, id, c, a), now);
    case Closes(id) => CloseWakes(g, id);
    case TimerFires(now) => if g.live { PumpWakes(g.(timer := None), now); }
    case Settles(i, o, now) => SettleWakes(g, i, o, now);
    case Finishes(i, now) => if g.live { PumpWakes(Finish1(g, i), now); }
    case Disconnects =>
    case Drops =>
  }

  lemma CloseWakes(g: Group, id: nat)
    requires Awake(g)
    ensures Awake(Close(g, id))
  {
    var g' := Close(g, id);
    if HasCapacity(g'.subs) {
      var s :| s in g'.subs && Free(s);
      assert s in g.subs;
    }
    if g.live {
      forall i | 0 <= i < |g'.queue| ensures Waits(g', g'.timer, g'.queue[i]) { assert Waits(g, g.timer, g.queue[i]); }
    }
  }

  /** A retried item has the key of the execution that is still in flight. */
  lemma SettleWakes(g: Group, i: nat, o: Outcome, now: int)
    requires Serial(g) && Awake(g) && i < |g.execs|
    ensures Awake(Settle(g, i, o, now))
  {
    var g' := Settle(g, i, o, now);
    if g.live {
      forall l | 0 <= l < |g'.queue| ensures Waits(g', g'.timer, g'.queue[l]) {
        if l < |g.queue| { assert g'.queue[l] == g.queue[l] && Waits(g, g.timer, g.queue[l]); }
      }
    }
  }

  lemma {:induction false} AwakeRun(g: Group, es: seq<Event>)
    requires Inv(g) && Awake(g) && Runs(g, es) && forall e <- es :: !e.Reinitializes?
    ensures Inv(After(g, es)) && Awake(After(g, es))
    decreases es
  {
    if es != [] {
      InvStep(g, es[0]);
      AwakeStep(g, es[0]);
      AwakeRun(Apply(g, es[0]), es[1..]);
    }
  }

  predicate Concurrent(es: seq<Event>) {
    forall e <- es :: e.Subscribes? ==> e.concurrency >= 1
  }

  ghost predicate AtLeastOne(g: Group) {
    forall s <- g.subs :: s.concurrency >= 1
  }

  lemma {:induction false} ScanKeepsConcurrency(g: Group, i: nat, now: int, due: Option<int>)
    requires i <= |g.queue| && AtLeastOne(g)
    ensures AtLeastOne(Scan(g, i, now, due).0)
    decreases |g.queue| - i
  {
    if i < |g.queue| {
      if g.queue[i].availableAt > now {
        ScanKeepsConcurrency(g, i + 1, now, Sooner(due, g.queue[i].availableAt));
      } else if g.queue[i].msg.key in g.activeKeys {
        ScanKeepsConcurrency(g, i + 1, now, due);
      } else {
        var j := FindFree(g.subs, 0);
        if j.Some? { ScanKeepsConcurrency(Dispatch(g, i, j.value, now), i, now, due); }
      }
    }
  }

  lemma PumpKeepsConcurrency(g: Group, now: int)
    requires AtLeastOne(g)
    ensures AtLeastOne(Pump(g, now))
  {
    if g.live { ScanKeepsConcurrency(g.(timer := None), 0, now, None); }
  }

  lemma {:induction false} ConcurrentRun(g: Group, es: seq<Event>)
    requires AtLeastOne(g) && Runs(g, es) && Concurrent(es)
    ensures AtLeastOne(After(g, es))
    decreases es
  {
    if es != [] {
      match es[0] {
        case Publish(m, at, now) => PumpKeepsConcurrency(Queue1(g, m, at), now);
        case Subscribes(id, c, a, now) => PumpKeepsConcurrency(Subscribed(g, id, c, a), now);
        case Closes(id) =>
        case TimerFires(now) => PumpKeepsConcurrency(g.(timer := None), now);
        case Settles(i, o, now) =>
        case Finishes(i, now) =>
          assert forall s <- Decrement(g.subs, g.execs[i].sub) :: s.concurrency >= 1;
          PumpKeepsConcurrency(Finish1(g, i), now);
        case Disconnects =>
        case Drops =>
        case Reinitializes =>
      }
      ConcurrentRun(Apply(g, es[0]), es[1..]);
    }
  }

  /** No lost wake-up: with concurrency at least 1 and as long as the broker has not been
      re-initialised, every queued message of a live group is blocked by an execution of its group
      (with the same key, or because all capacity is in use), or the group has no subscription, or
      a timer is armed no later than its due time. */
  lemma NoLostWakeUp(es: seq<Event>, i: nat)
    requires Runs(NewGroup(), es) && Concurrent(es) && forall e <- es :: !e.Reinitializes?
    requires i < |After(NewGroup(), es).queue| && After(NewGroup(), es).live
    ensures var g := After(NewGroup(), es);
      || g.subs == []
      || (exists x <- g.execs :: x.item.msg.key == g.queue[i].msg.key)
      || (!HasCapacity(g.subs) && g.execs != [])
      || Armed(g.timer, g.queue[i].availableAt)
  {
    var g := After(NewGroup(), es);
    AwakeRun(NewGroup(), es);
    ConcurrentRun(NewGroup(), es);
    assert Waits(g, g.timer, g.queue[i]);
    if !HasCapacity(g.subs) && g.subs != [] {
      assert g.subs[0] in g.subs;
      assert !Free(g.subs[0]) && SubOk(g, g.subs[0]);
    }
    if g.queue[i].msg.key in g.activeKeys {
      var l :| 0 <= l < |g.execs| && g.execs[l].item.msg.key == g.queue[i].msg.key;
      assert g.execs[l] in g.execs;
    }
  }

  /** Re-initialising does not pump: the group is then awake exactly when no subscription has capacity,
      or every queued message waits for an execution with its key or for a timer that is still armed.
      With nothing in flight and no timer, that is when nothing is queued. */
  lemma ReinitializedAwakeExactly(g: Group)
    requires Inv(g)
    ensures Awake(Reinitialize(g)) <==>
      || !HasCapacity(g.subs)
      || (forall i :: 0 <= i < |g.queue| ==>
            InFlightKey(g, g.queue[i].msg.key) || Armed(g.timer, g.queue[i].availableAt))
    ensures g.execs == [] && g.timer.None? ==> (Awake(Reinitialize(g)) <==> g.queue == [] || !HasCapacity(g.subs))
  {
    forall k ensures k in g.activeKeys <==> InFlightKey(g, k) { }
    var g' := Reinitialize(g);
    forall i | 0 <= i < |g.queue|
      ensures Waits(g', g'.timer, g'.queue[i]) <==>
        !HasCapacity(g.subs) || InFlightKey(g, g.queue[i].msg.key) || Armed(g.timer, g.queue[i].availableAt)
    {
    }
    if g.queue != [] { assert g.queue[0] in g.queue; }
  }

  ghost predicate InFlightKey(g: Group, k: string) {
    exists i :: 0 <= i < |g.execs| && g.execs[i].item.msg.key == k
  }

  /** A delayed message, a disconnect and a re-initialisation: the message is stranded. */
  lemma MessageStranded() returns (es: seq<Event>)
    ensures Runs(NewGroup(), es) && Concurrent(es) && !Awake(After(NewGroup(), es))
  {
    var m := Message(0, "event", "key", 0);
    var e1, e2 := Subscribes(0, 1, 5, 0), Publish(m, 1000, 0);
    es := [e1, e2, Disconnects, Reinitializes];
    var g1 := Apply(NewGroup(), e1);
    assert g1 == NewGroup().(subs := [Sub(0, 1, 5, 0)]);
    var g2 := Apply(g1, e2);
    var g1' := Queue1(g1, m, 1000);
    assert Scan(g1', 0, 0, None) == Scan(g1', 1, 0, Some(1000)) == (g1', Some(1000));
    assert g2 == g1'.(timer := Some(1000));
    assert Runs(g2, [Disconnects, Reinitializes]);
    assert es[1..] == [e2, Disconnects, Reinitializes] && es[1..][1..] == [Disconnects, Reinitializes];
    var g4 := After(NewGroup(), es);
    assert g4 == After(g1, es[1..]) == After(g2, es[1..][1..]);
    assert g4 == After(BeginDisconnect(g2), [Reinitializes]) by { assert es[1..][1..][1..] == [Reinitializes]; }
    assert g4 == Reinitialize(BeginDisconnect(g2));
    assert Free(g4.subs[0]) && g4.subs[0] in g4.subs;
    assert !Waits(g4, g4.timer, g4.queue[0]);
  }

  // ---------------------------------------------------------------------------------
  // A disconnecting broker starts nothing

  /** From the moment a disconnect begins, or from the end of the pump that starts the handler which
      calls it at once, until the broker is re-initialised, no delivery starts. */
  lemma {:induction false} QuietAfterDisconnect(g: Group, es: seq<Event>)
    requires !g.live && Runs(g, es) && forall e <- es :: !e.Reinitializes?
    ensures !After(g, es).live && After(g, es).log == g.log && |After(g, es).execs| <= |g.execs|
    decreases es
  {
    if es != [] {
      QuietAfterDisconnect(Apply(g, es[0]), es[1..]);
    }
  }

  /** The scan where the handlers of `quits` disconnect the broker before their first await, while the
      scan is still going on. It does not look at the connection. */
  function ScanLeaving(g: Group, i: nat, now: int, due: Option<int>, quits: set<Message>): (Group, Option<int>)
    requires i <= |g.queue|
    decreases |g.queue| - i
  {
    if i == |g.queue| then (g, due)
    else if g.queue[i].availableAt > now then
      ScanLeaving(g, i + 1, now, Sooner(due, g.queue[i].availableAt), quits)
    else if g.queue[i].msg.key in g.activeKeys then ScanLeaving(g, i + 1, now, due, quits)
    else
      var j := FindFree(g.subs, 0);
      if j.None? then (g, due)
      else
        var g1 := Dispatch(g, i, j.value, now);
        ScanLeaving(if g.queue[i].msg in quits then BeginDisconnect(g1) else g1, i, now, due, quits)
  }

  /** The pump with such handlers; it arms no timer on a broker that is disconnecting by then. */
  function PumpLeaving(g: Group, now: int, quits: set<Message>): Group {
    if !g.live then g
    else
      var (g', due) := ScanLeaving(g.(timer := None), 0, now, None, quits);
      g'.(timer := if g'.live then due else None)
  }

  /** A handler of `quits` is started between the two logs. */
  ghost predicate Quits(log: seq<Delivery>, log': seq<Delivery>, quits: set<Message>) {
    exists k :: |log| <= k < |log'| && log'[k].msg in quits
  }

  lemma {:induction false} ScanIgnoresLive(g: Group, i: nat, now: int, due: Option<int>, live: bool)
    requires i <= |g.queue|
    ensures var (g', due') := Scan(g, i, now, due);
      Scan(g.(live := live), i, now, due) == (g'.(live := live), due')
    decreases |g.queue| - i
  {
    if i < |g.queue| {
      if g.queue[i].availableAt > now {
        ScanIgnoresLive(g, i + 1, now, Sooner(due, g.queue[i].availableAt), live);
      } else if g.queue[i].msg.key in g.activeKeys {
        ScanIgnoresLive(g, i + 1, now, due, live);
      } else {
        var j := FindFree(g.subs, 0);
        if j.Some? {
          assert Dispatch(g.(live := live), i, j.value, now) == Dispatch(g, i, j.value, now).(live := live);
          ScanIgnoresLive(Dispatch(g, i, j.value, now), i, now, due, live);
        }
      }
    }
  }

  lemma {:induction false} ScanLogs(g: Group, i: nat, now: int, due: Option<int>)
    requires i <= |g.queue|
    ensures g.log <= Scan(g, i, now, due).0.log && Scan(g, i, now, due).0.timer == g.timer
    ensures Scan(g, i, now, due).0.live == g.live
    decreases |g.queue| - i
  {
    if i < |g.queue| {
      if g.queue[i].availableAt > now {
        ScanLogs(g, i + 1, now, Sooner(due, g.queue[i].availableAt));
      } else if g.queue[i].msg.key in g.activeKeys {
        ScanLogs(g, i + 1, now, due);
      } else {
        var j := FindFree(g.subs, 0);
        if j.Some? { ScanLogs(Dispatch(g, i, j.value, now), i, now, due); }
      }
    }
  }

  lemma {:induction false} ScanLeavingExactly(g: Group, i: nat, now: int, due: Option<int>, quits: set<Message>)
    requires i <= |g.queue| && g.timer.None?
    ensures var (g', due'), (g1, due1) := Scan(g, i, now, due), ScanLeaving(g, i, now, due, quits);
      due1 == due' && g1 == g'.(live := g.live && !Quits(g.log, g'.log, quits))
    decreases |g.queue| - i
  {
    if i < |g.queue| {
      if g.queue[i].availableAt > now {
        ScanLeavingExactly(g, i + 1, now, Sooner(due, g.queue[i].availableAt), quits);
      } else if g.queue[i].msg.key in g.activeKeys {
        ScanLeavingExactly(g, i + 1, now, due, quits);
      } else {
        var j := FindFree(g.subs, 0);
        if j.Some? {
          var d, quit := Dispatch(g, i, j.value, now), g.queue[i].msg in quits;
          var d1 := if quit then BeginDisconnect(d) else d;
          ScanIgnoresLive(d, i, now, due, d1.live);
          ScanLeavingExactly(d1, i, now, due, quits);
          ScanLogs(d, i, now, due);
          QuitsMore(g.log, d.log, Scan(d, i, now, due).0.log, quits);
        }
      }
    }
  }

  lemma QuitsMore(log: seq<Delivery>, mid: seq<Delivery>, log': seq<Delivery>, quits: set<Message>)
    requires |mid| == |log| + 1 && mid <= log'
    ensures Quits(log, log', quits) <==> mid[|log|].msg in quits || Quits(mid, log', quits)
  {
  }

  /** A disconnect from inside the pump does not stop it: the pump delivers what it would have delivered
      without, and the group is then as if the disconnect had come right after it. */
  lemma LeavingInsidePump(g: Group, now: int, quits: set<Message>)
    requires g.live
    ensures var g' := Pump(g, now);
      PumpLeaving(g, now, quits) == if Quits(g.log, g'.log, quits) then BeginDisconnect(g') else g'
  {
    var g0 := g.(timer := None);
    ScanLeavingExactly(g0, 0, now, None, quits);
    ScanLogs(g0, 0, now, None);
  }

  /** Two messages become due together, and the handler of the first disconnects at once: the second is
      delivered all the same. */
  lemma DeliveredWhileLeaving() returns (es: seq<Event>, g: Group, m: Message, n: Message)
    ensures Runs(NewGroup(), es) && g == After(NewGroup(), es) && g.timer == Some(1000)
    ensures var t := PumpLeaving(g.(timer := None), 1000, {m});
      t.log == [Delivery(m, 0, 1000), Delivery(n, 0, 1000)] && !t.live && m != n
  {
    m, n := Message(0, "event", "a", 0), Message(1, "event", "b", 0);
    var e1, e2, e3 := Subscribes(0, 2, 5, 0), Publish(m, 1000, 0), Publish(n, 1000, 0);
    es := [e1, e2, e3];
    var g1 := NewGroup().(subs := [Sub(0, 2, 5, 0)]);
    assert Apply(NewGroup(), e1) == g1;
    var q1 := Queue1(g1, m, 1000);
    assert Scan(q1, 0, 0, None) == Scan(q1, 1, 0, Some(1000)) == (q1, Some(1000));
    var g2 := q1.(timer := Some(1000));
    assert Apply(g1, e2) == g2;
    var q2 := Queue1(q1, n, 1000);
    assert Scan(q2, 0, 0, None) == Scan(q2, 1, 0, Some(1000)) == Scan(q2, 2, 0, Some(1000)) == (q2, Some(1000));
    g := q2.(timer := Some(1000));
    assert Apply(g2, e3) == g;
    assert es[1..] == [e2, e3] && es[1..][1..] == [e3] && es[1..][1..][1..] == [];
    assert Runs(g2, [e3]) && After(g2, [e3]) == g;
    BothDelivered(q2, m, n);
  }

  lemma BothDelivered(g: Group, m: Message, n: Message)
    requires g.live && g.log == [] && g.activeKeys == {} && g.subs == [Sub(0, 2, 5, 0)] && m.key != n.key
    requires g.queue == [Item(m, 0, 1000), Item(n, 0, 1000)] && g.timer.None?
    ensures var t := PumpLeaving(g, 1000, {m}); t.log == [Delivery(m, 0, 1000), Delivery(n, 0, 1000)] && !t.live
  {
    var d := Dispatch(g, 0, 0, 1000);
    assert d.queue == [Item(n, 0, 1000)] && d.subs == [Sub(0, 2, 5, 1)];
    var g1 := BeginDisconnect(d);
    assert ScanLeaving(g, 0, 1000, None, {m}) == ScanLeaving(g1, 0, 1000, None, {m});
    var g2 := Dispatch(g1, 0, 0, 1000);
    assert g2.queue == [];
    assert ScanLeaving(g1, 0, 1000, None, {m}) == ScanLeaving(g2, 0, 1000, None, {m}) == (g2, None);
  }

  // ---------------------------------------------------------------------------------
  // Publish order per key

  function InQueue(q: seq<Item>, k: string): seq<Message> {
    if q == [] then [] else (if q[0].msg.key == k then [q[0].msg] else []) + InQueue(q[1..], k)
  }

  function InLog(log: seq<Delivery>, k: string): seq<Message> {
    if log == [] then [] else (if log[0].msg.key == k then [log[0].msg] else []) + InLog(log[1..], k)
  }

  function Sent(ms: seq<Message>, k: string): seq<Message> {
    if ms == [] then [] else (if ms[0].key == k then [ms[0]] else []) + Sent(ms[1..], k)
  }

  lemma {:induction false} InQueueCat(a: seq<Item>, b: seq<Item>, k: string)
    ensures InQueue(a + b, k) == InQueue(a, k) + InQueue(b, k)
  {
    if a == [] {
      assert a + b == b;
    } else {
      var ab := a + b;
      assert ab[1..] == a[1..] + b && ab[0] == a[0];
      InQueueCat(a[1..], b, k);
      var head := if a[0].msg.key == k then [a[0].msg] else [];
      assert InQueue(ab, k) == head + InQueue(ab[1..], k) && InQueue(a, k) == head + InQueue(a[1..], k);
    }
  }

  lemma {:induction false} InLogCat(a: seq<Delivery>, b: seq<Delivery>, k: string)
    ensures InLog(a + b, k) == InLog(a, k) + InLog(b, k)
  {
    if a == [] {
      assert a + b == b;
    } else {
      var ab := a + b;
      assert ab[1..] == a[1..] + b && ab[0] == a[0];
      InLogCat(a[1..], b, k);
      var head := if a[0].msg.key == k then [a[0].msg] else [];
      assert InLog(ab, k) == head + InLog(ab[1..], k) && InLog(a, k) == head + InLog(a[1..], k);
    }
  }

  lemma {:induction false} SentCat(a: seq<Message>, b: seq<Message>, k: string)
    ensures Sent(a + b, k) == Sent(a, k) + Sent(b, k)
  {
    if a == [] {
      assert a + b == b;
    } else {
      var ab := a + b;
      assert ab[1..] == a[1..] + b && ab[0] == a[0];
      SentCat(a[1..], b, k);
      var head := if a[0].key == k then [a[0]] else [];
      assert Sent(ab, k) == head + Sent(ab[1..], k) && Sent(a, k) == head + Sent(a[1..], k);
    }
  }

  lemma {:induction false} NoneOfKey(q: seq<Item>, k: string)
    requires forall l :: 0 <= l < |q| ==> q[l].msg.key != k
    ensures InQueue(q, k) == []
  {
    if q != [] {
      NoneOfKey(q[1..], k);
    }
  }

  /** For this key, what was published is what was delivered followed by what is queued. */
  predicate KeyInOrder(g: Group, k: string) {
    Sent(g.published, k) == InLog(g.log, k) + InQueue(g.queue, k)
  }

  ghost predicate InOrder(g: Group, clock: int) {
    && (forall k :: KeyInOrder(g, k))
    && (forall i :: 0 <= i < |g.queue| ==> g.queue[i].availableAt <= clock)
  }

  /** What the queue holds for a key, with and without one of its items. */
  lemma InQueueSplit(q: seq<Item>, i: nat, k: string)
    requires i < |q|
    ensures var a, b := InQueue(q[..i], k), InQueue(q[i + 1..], k);
      InQueue(q, k) == a + (if q[i].msg.key == k then [q[i].msg] else []) + b && InQueue(Without(q, i), k) == a + b
  {
    var a, x, b := q[..i], q[i], q[i + 1..];
    assert q == a + ([x] + b);
    InQueueCat(a, [x] + b, k);
    InQueueCat([x], b, k);
    InQueueCat(a, b, k);
    assert InQueue([x], k) == if x.msg.key == k then [x.msg] else [];
  }

  /** Dispatching the first queued item of its key keeps the order. */
  lemma DispatchInOrder(g: Group, i: nat, j: nat, now: int, k: string)
    requires i < |g.queue| && j < |g.subs| && KeyInOrder(g, k)
    requires forall l :: 0 <= l < i ==> g.queue[l].msg.key != g.queue[i].msg.key
    ensures KeyInOrder(Dispatch(g, i, j, now), k)
  {
    var x := g.queue[i];
    var head := if x.msg.key == k then [x.msg] else [];
    var a, b := InQueue(g.queue[..i], k), InQueue(g.queue[i + 1..], k);
    InQueueSplit(g.queue, i, k);
    LogNext(g.log, Delivery(x.msg, x.attempt, now), k);
    if k == x.msg.key { NoneOfKey(g.queue[..i], k); }
    MovesOver(InLog(g.log, k), head, a, b);
  }

  lemma LogNext(log: seq<Delivery>, d: Delivery, k: string)
    ensures InLog(log + [d], k) == InLog(log, k) + if d.msg.key == k then [d.msg] else []
  {
    InLogCat(log, [d], k);
    assert InLog([d], k) == if d.msg.key == k then [d.msg] else [];
  }

  lemma MovesOver<T>(l: seq<T>, h: seq<T>, a: seq<T>, b: seq<T>)
    requires h == [] || a == []
    ensures l + (a + h + b) == (l + h) + (a + b)
  {
  }

  lemma {:induction false} ScanInOrder(g: Group, i: nat, now: int, due: Option<int>)
    requires i <= |g.queue| && InOrder(g, now)
    requires forall l :: 0 <= l < i ==> g.queue[l].msg.key in g.activeKeys
    ensures InOrder(Scan(g, i, now, due).0, now)
    decreases |g.queue| - i
  {
    if i < |g.queue| {
      if g.queue[i].msg.key in g.activeKeys {
        ScanInOrder(g, i + 1, now, due);
      } else {
        var j := FindFree(g.subs, 0);
        if j.Some? {
          var g' := Dispatch(g, i, j.value, now);
          forall k ensures KeyInOrder(g', k) { DispatchInOrder(g, i, j.value, now, k); }
          forall l | 0 <= l < |g'.queue| ensures g'.queue[l] == g.queue[if l < i then l else l + 1] { }
          ScanInOrder(g', i, now, due);
        }
      }
    }
  }

  lemma PumpInOrder(g: Group, now: int)
    requires InOrder(g, now)
    ensures InOrder(Pump(g, now), now)
  {
    if g.live {
      var g0 := g.(timer := None);
      forall k ensures KeyInOrder(g0, k) { assert KeyInOrder(g, k); }
      ScanInOrder(g0, 0, now, None);
      var g1 := Scan(g0, 0, now, None).0;
      forall k ensures KeyInOrder(Pump(g, now), k) { assert KeyInOrder(g1, k); }
    }
  }

  /** The time of an event; events without one happen at the current time. */
  function Time(e: Event, clock: int): int {
    match e
    case Publish(_, _, now) => now
    case Subscribes(_, _, _, now) => now
    case TimerFires(now) => now
    case Settles(_, _, now) => now
    case Finishes(_, now) => now
    case Closes(_) => clock
    case Disconnects => clock
    case Drops => clock
    case Reinitializes => clock
  }

  /** Undelayed, not retried, and the clock does not run backwards. */
  predicate Plain(g: Group, e: Event, clock: int)
    requires Enabled(g, e)
  {
    && clock <= Time(e, clock)
    && (e.Publish? ==> e.availableAt <= e.now)
    && (e.Settles? && e.o.Retry? ==> Dead(g.execs[e.i], e.o))
  }

  predicate PlainRun(g: Group, es: seq<Event>, clock: int)
    requires Runs(g, es)
    decreases es
  {
    es == [] || (Plain(g, es[0], clock) && PlainRun(Apply(g, es[0]), es[1..], Time(es[0], clock)))
  }

  lemma InOrderStep(g: Group, e: Event, clock: int)
    requires Enabled(g, e) && InOrder(g, clock) && Plain(g, e, clock)
    ensures InOrder(Apply(g, e), Time(e, clock))
  {
    var now := Time(e, clock);
    var g1 := match e
      case Publish(m, at, _) => Queue1(g, m, at)
      case Subscribes(id, c, a, _) => Subscribed(g, id, c, a)
      case TimerFires(_) => g.(timer := None)
      case Finishes(i, _) => Finish1(g, i)
      case _ => g;
    forall k ensures KeyInOrder(g1, k) {
      assert KeyInOrder(g, k);
      if e.Publish? {
        InQueueCat(g.queue, [Item(e.m, e.m.initial, e.availableAt)], k);
        SentCat(g.published, [e.m], k);
      }
    }
    PumpInOrder(g1, now);
    if e.Closes? || e.Settles? || e.Disconnects? || e.Drops? || e.Reinitializes? {
      var g' := Apply(g, e);
      assert g'.queue == g.queue && g'.log == g.log && g'.published == g.published;
      forall k ensures KeyInOrder(g', k) { assert KeyInOrder(g, k); }
    }
  }

  lemma {:induction false} InOrderRun(g: Group, es: seq<Event>, clock: int) returns (now: int)
    requires Runs(g, es) && InOrder(g, clock) && PlainRun(g, es, clock)
    ensures InOrder(After(g, es), now)
    decreases es
  {
    if es == [] {
      now := clock;
    } else {
      InOrderStep(g, es[0], clock);
      now := InOrderRun(Apply(g, es[0]), es[1..], Time(es[0], clock));
    }
  }

  /** Publish order: in a run without delays and retries, the messages of a key are delivered in the
      order in which they were published, without a gap. */
  lemma PublishOrder(es: seq<Event>, clock: int, k: string)
    requires Runs(NewGroup(), es) && PlainRun(NewGroup(), es, clock)
    ensures InLog(After(NewGroup(), es).log, k) <= Sent(After(NewGroup(), es).published, k)
  {
    var _ := InOrderRun(NewGroup(), es, clock);
    assert KeyInOrder(After(NewGroup(), es), k);
  }
}
