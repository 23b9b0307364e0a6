/** When deliveries start: never before the delay of a publication or of a retry has passed; and what
    becomes of a message when its handler is done. */
module BrokerTiming {
  import opened Wrappers
  import opened BrokerGroup
  import opened BrokerSafety
  import opened BrokerDelivery

  /** The clock does not run backwards. */
  predicate Forward(es: seq<Event>, clock: int) {
    es == [] || (clock <= Time(es[0], clock) && Forward(es[1..], Time(es[0], clock)))
  }

  /** From position `from` of the log on, nothing of the message starts before `due`: where it is queued it
      is not due earlier, where it runs the time has come, and so it had when it was started. */
  ghost predicate NotBefore(g: Group, m: Message, due: int, from: nat, clock: int) {
    && m in g.published
    && (forall i :: 0 <= i < |g.queue| && g.queue[i].msg == m ==> g.queue[i].availableAt >= due)
    && (forall i :: 0 <= i < |g.execs| && !g.execs[i].settled && g.execs[i].item.msg == m ==> clock >= due)
    && (forall k :: from <= k < |g.log| && g.log[k].msg == m ==> g.log[k].at >= due)
  }

  lemma DispatchNotBefore(g: Group, i: nat, j: nat, now: int, m: Message, due: int, from: nat)
    requires i < |g.queue| && j < |g.subs| && g.queue[i].availableAt <= now && NotBefore(g, m, due, from, now)
    ensures NotBefore(Dispatch(g, i, j, now), m, due, from, now)
  {
    var g' := Dispatch(g, i, j, now);
    forall l | 0 <= l < |g'.queue| && g'.queue[l].msg == m ensures g'.queue[l].availableAt >= due {
      assert g'.queue[l] == g.queue[if l < i then l else l + 1];
    }
  }

  lemma {:induction false} ScanNotBefore(g: Group, i: nat, now: int, next: Option<int>, m: Message, due: int, from: nat)
    requires i <= |g.queue| && NotBefore(g, m, due, from, now)
    ensures NotBefore(Scan(g, i, now, next).0, m, due, from, now)
    decreases |g.queue| - i
  {
    if i < |g.queue| {
      if g.queue[i].availableAt > now {
        ScanNotBefore(g, i + 1, now, Sooner(next, g.queue[i].availableAt), m, due, from);
      } else if g.queue[i].msg.key in g.activeKeys {
        ScanNotBefore(g, i + 1, now, next, m, due, from);
      } else {
        var j := FindFree(g.subs, 0);
        if j.Some? {
          DispatchNotBefore(g, i, j.value, now, m, due, from);
          ScanNotBefore(Dispatch(g, i, j.value, now), i, now, next, m, due, from);
        }
      }
    }
  }

  lemma PumpNotBefore(g: Group, now: int, m: Message, due: int, from: nat)
    requires NotBefore(g, m, due, from, now)
    ensures NotBefore(Pump(g, now), m, due, from, now)
  {
    if g.live { ScanNotBefore(g.(timer := None), 0, now, None, m, due, from); }
  }

  lemma StepNotBefore(g: Group, e: Event, m: Message, due: int, from: nat, clock: int)
    requires NotBefore(g, m, due, from, clock) && Enabled(g, e) && clock <= Time(e, clock)
    ensures NotBefore(Apply(g, e), m, due, from, Time(e, clock))
  {
    var now := Time(e, clock);
    match e
    case Publish(n, at, _) => PumpNotBefore(Queue1(g, n, at), now, m, due, from);
    case Subscribes(id, c, a, _) => PumpNotBefore(Subscribed(g, id, c, a), now, m, due, from);
    case TimerFires(_) => PumpNotBefore(g.(timer := None), now, m, due, from);
    case Finishes(i, _) =>
      var g1 := Finish1(g, i);
      forall l | 0 <= l < |g1.execs| ensures g1.execs[l] == g.execs[if l < i then l else l + 1] { }
      PumpNotBefore(g1, now, m, due, from);
    case Settles(i, o, _) => SettleNotBefore(g, i, o, now, m, due, from, clock);
    case _ =>
  }

  lemma SettleNotBefore(g: Group, i: nat, o: Outcome, now: int, m: Message, due: int, from: nat, clock: int)
    requires NotBefore(g, m, due, from, clock) && i < |g.execs| && !g.execs[i].settled && clock <= now
    ensures NotBefore(Settle(g, i, o, now), m, due, from, now)
  {
  }

  lemma {:induction false} RunNotBefore(g: Group, es: seq<Event>, m: Message, due: int, from: nat, clock: int)
    returns (now: int)
    requires NotBefore(g, m, due, from, clock) && Runs(g, es) && Forward(es, clock)
    ensures NotBefore(After(g, es), m, due, from, now)
    decreases es
  {
    if es == [] {
      now := clock;
    } else {
      StepNotBefore(g, es[0], m, due, from, clock);
      now := RunNotBefore(Apply(g, es[0]), es[1..], m, due, from, Time(es[0], clock));
    }
  }

  /** A message that is published is not delivered before it is due, in any continuation. */
  lemma FirstDeliveryWaits(es: seq<Event>, g: Group, m: Message, due: int, now: int,
                           g': Group, rest: seq<Event>, t: Group, k: nat)
    requires Runs(NewGroup(), es) && g == After(NewGroup(), es) && Enabled(g, Publish(m, due, now))
    requires g' == Apply(g, Publish(m, due, now)) && Runs(g', rest) && Forward(rest, now) && t == After(g', rest)
    requires k < |t.log| && t.log[k].msg == m
    ensures t.log[k].at >= due
  {
    InvRun(NewGroup(), es);
    NotYetThere(g, m);
    PumpNotBefore(Queue1(g, m, due), now, m, due, 0);
    var _ := RunNotBefore(g', rest, m, due, 0, now);
  }

  /** The item is still queued, or it was due and has been started at `now`, after the first `n` deliveries. */
  ghost predicate QueuedOrStarted(g: Group, x: Item, now: int, n: nat) {
    || x in g.queue
    || (x.availableAt <= now && exists k :: n <= k < |g.log| && g.log[k] == Delivery(x.msg, x.attempt, now))
  }

  lemma {:induction false} ScanStarts(g: Group, i: nat, now: int, next: Option<int>, x: Item, n: nat)
    requires i <= |g.queue| && n <= |g.log| && QueuedOrStarted(g, x, now, n)
    ensures Scan(g, i, now, next).0.published == g.published && QueuedOrStarted(Scan(g, i, now, next).0, x, now, n)
    decreases |g.queue| - i
  {
    if i < |g.queue| {
      if g.queue[i].availableAt > now {
        ScanStarts(g, i + 1, now, Sooner(next, g.queue[i].availableAt), x, n);
      } else if g.queue[i].msg.key in g.activeKeys {
        ScanStarts(g, i + 1, now, next, x, n);
      } else {
        var j := FindFree(g.subs, 0);
        if j.Some? {
          DispatchStarts(g, i, j.value, now, x, n);
          ScanStarts(Dispatch(g, i, j.value, now), i, now, next, x, n);
        }
      }
    }
  }

  lemma DispatchStarts(g: Group, i: nat, j: nat, now: int, x: Item, n: nat)
    requires i < |g.queue| && j < |g.subs| && g.queue[i].availableAt <= now && n <= |g.log|
    requires QueuedOrStarted(g, x, now, n)
    ensures QueuedOrStarted(Dispatch(g, i, j, now), x, now, n)
  {
    var g' := Dispatch(g, i, j, now);
    if x in g.queue {
      var l :| 0 <= l < |g.queue| && g.queue[l] == x;
      if l == i {
        assert g'.log[|g.log|] == Delivery(x.msg, x.attempt, now);
      } else {
        assert g'.queue[if l < i then l else l - 1] == x;
      }
    } else {
      var k :| n <= k < |g.log| && g.log[k] == Delivery(x.msg, x.attempt, now);
      assert g'.log[k] == g.log[k];
    }
  }

  /** A message that is published is queued as due at the time given, or it was due and is started at once,
      with the attempt number it carries. */
  lemma ArrivesExactly(g: Group, m: Message, due: int, now: int, g': Group)
    requires Enabled(g, Publish(m, due, now)) && g' == Apply(g, Publish(m, due, now))
    ensures g'.published == g.published + [m] && QueuedOrStarted(g', Item(m, m.initial, due), now, |g.log|)
  {
    var g0, x := Queue1(g, m, due).(timer := None), Item(m, m.initial, due);
    assert g0.queue[|g.queue|] == x;
    ScanStarts(g0, 0, now, None, x, |g.log|);
  }

  /** A message that is not published yet is in no queue, no execution and no log. */
  lemma NotYetThere(g: Group, m: Message)
    requires Inv(g) && m !in g.published
    ensures forall i :: 0 <= i < |g.queue| ==> g.queue[i].msg != m
    ensures forall i :: 0 <= i < |g.execs| && !g.execs[i].settled ==> g.execs[i].item.msg != m
    ensures forall k :: 0 <= k < |g.log| ==> g.log[k].msg != m
  {
    assert Places(g, m) == 0;
    forall i | 0 <= i < |g.queue| ensures g.queue[i].msg != m { QueuedWithout(g.queue, i, m); }
    forall i | 0 <= i < |g.execs| && !g.execs[i].settled ensures g.execs[i].item.msg != m {
      RunningWithout(g.execs, i, m);
    }
    assert Times(g.log, m) == 0;
    NeverLogged(g.log, m);
  }

  lemma {:induction false} NeverLogged(log: seq<Delivery>, m: Message)
    requires Times(log, m) == 0
    ensures forall k :: 0 <= k < |log| ==> log[k].msg != m
  {
    if log != [] {
      NeverLogged(log[1..], m);
      forall k | 0 <= k < |log| ensures log[k].msg != m { if k > 0 { assert log[k] == log[1..][k - 1]; } }
    }
  }

  /** A handler asks for a retry: in every continuation, no later delivery of the message starts before the
      delay it has asked for is over, which is 1000 milliseconds if it names none and never less than 0. */
  lemma RetryWaits(es: seq<Event>, g: Group, i: nat, delay: Option<int>, now: int,
                   g': Group, rest: seq<Event>, t: Group, k: nat)
    requires Runs(NewGroup(), es) && g == After(NewGroup(), es) && Enabled(g, Settles(i, Retry(delay), now))
    requires g' == Apply(g, Settles(i, Retry(delay), now)) && Runs(g', rest) && Forward(rest, now)
    requires t == After(g', rest) && |g.log| <= k < |t.log| && t.log[k].msg == g.execs[i].item.msg
    ensures t.log[k].at >= now + match delay case None => 1000 case Some(d) => if d >= 0 then d else 0
  {
    InvRun(NewGroup(), es);
    var m := g.execs[i].item.msg;
    var due := now + match delay case None => 1000 case Some(d) => if d >= 0 then d else 0;
    RetriedNotBefore(g, i, delay, now, due);
    var _ := RunNotBefore(g', rest, m, due, |g.log|, now);
  }

  lemma RetriedNotBefore(g: Group, i: nat, delay: Option<int>, now: int, due: int)
    requires Inv(g) && i < |g.execs| && !g.execs[i].settled
    requires due == now + match delay case None => 1000 case Some(d) => if d >= 0 then d else 0
    ensures NotBefore(Settle(g, i, Retry(delay), now), g.execs[i].item.msg, due, |g.log|, now)
  {
    RunsNowhereElse(g, i);
  }

  /** A message that runs is in no queue and in no other running execution. */
  lemma RunsNowhereElse(g: Group, i: nat)
    requires Inv(g) && i < |g.execs| && !g.execs[i].settled
    ensures g.execs[i].item.msg in g.published
    ensures forall l :: 0 <= l < |g.queue| ==> g.queue[l].msg != g.execs[i].item.msg
    ensures forall l :: 0 <= l < |g.execs| && l != i ==> g.execs[l].item.msg != g.execs[i].item.msg
  {
    var m := g.execs[i].item.msg;
    RunningWithout(g.execs, i, m);
    assert Places(g, m) <= 1;
    forall l | 0 <= l < |g.queue| ensures g.queue[l].msg != m { QueuedWithout(g.queue, l, m); }
    forall l | 0 <= l < |g.execs| && l != i ensures g.execs[l].item.msg != m {
      assert g.execs[if l < i then l else i].item.msg.key != g.execs[if l < i then i else l].item.msg.key;
    }
  }

  // ---------------------------------------------------------------------------------
  // What becomes of a message when its handler is done

  /** In every run whose subscriptions share their maximum: an acknowledgement books the message as
      acknowledged, a dead letter as dead; a retry puts it back into the queue, behind what is there and
      with one attempt more, exactly as long as it has been delivered fewer times than the maximum
      allows, and books it as dead otherwise. */
  lemma SettledExactly(es: seq<Event>, max: int, g: Group, i: nat, o: Outcome, now: int, g': Group)
    requires Runs(NewGroup(), es) && Shares(es, max) && g == After(NewGroup(), es)
    requires Enabled(g, Settles(i, o, now)) && g' == Apply(g, Settles(i, o, now))
    ensures var m := g.execs[i].item.msg;
      var again := o.Retry? && Times(g.log, m) < max - m.initial;
      && g'.acked == g.acked + (if o.Ack? then multiset{m} else multiset{})
      && g'.dead == g.dead + (if o.Ack? || again then multiset{} else multiset{m})
      && (!again ==> g'.queue == g.queue)
      && (again ==> |g'.queue| == |g.queue| + 1 && g'.queue[..|g.queue|] == g.queue &&
                    g'.queue[|g.queue|].msg == m && g'.queue[|g.queue|].attempt == m.initial + Times(g.log, m) &&
                    g'.queue[|g.queue|].availableAt ==
                      now + match o.delayMs case None => 1000 case Some(d) => if d >= 0 then d else 0)
  {
    InvAtEnd(es, g);
    BoundedAtEnd(es, max, g);
  }
}
