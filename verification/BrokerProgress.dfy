/** What becomes of the messages of a group without any further call from outside: when all of them
    can still be booked, and that none is lost before a re-initialisation. */
module BrokerProgress {
  import opened Wrappers
  import opened BrokerGroup
  import opened BrokerSafety
  import opened BrokerDelivery

  /** Timers fire, handlers end and their executions finish; nobody publishes, subscribes, closes,
      disconnects or initialises, and the clock does not run backwards. */
  predicate Unprompted(es: seq<Event>, clock: int) {
    es == [] ||
    (&& (es[0].TimerFires? || es[0].Settles? || es[0].Finishes?)
     && clock <= es[0].now && Unprompted(es[1..], es[0].now))
  }

  /** Nothing waits and nothing runs. */
  predicate Idle(g: Group) {
    g.queue == [] && g.execs == []
  }

  /** Some subscription takes messages. */
  ghost predicate Serving(g: Group) {
    exists s <- g.subs :: s.concurrency >= 1
  }

  /** Something is about to happen by itself, or nothing needs to. */
  predicate Stirs(g: Group) {
    g.queue == [] || g.execs != [] || g.timer.Some?
  }

  // ---------------------------------------------------------------------------------
  // Every step of an unprompted run takes work away

  /** What the executions still owe: an outcome and the end. */
  function Owed(xs: seq<Exec>): nat {
    if xs == [] then 0 else Owed(xs[..|xs| - 1]) + if xs[|xs| - 1].settled then 1 else 2
  }

  function Work(g: Group): nat {
    3 * |g.queue| + Owed(g.execs)
  }

  lemma OwedNext(xs: seq<Exec>, x: Exec)
    ensures Owed(xs + [x]) == Owed(xs) + if x.settled then 1 else 2
  {
    assert (xs + [x])[..|xs|] == xs;
  }

  lemma {:induction false} OwedSettled(xs: seq<Exec>, i: nat)
    requires i < |xs| && !xs[i].settled
    ensures Owed(xs[i := xs[i].(settled := true)]) == Owed(xs) - 1
    decreases xs
  {
    var n := |xs| - 1;
    var ys := xs[i := xs[i].(settled := true)];
    if i < n {
      OwedSettled(xs[..n], i);
      assert ys[..n] == xs[..n][i := xs[i].(settled := true)];
    } else {
      assert ys[..n] == xs[..n];
    }
  }

  lemma OwedFirst(xs: seq<Exec>)
    requires xs != []
    ensures Owed(Without(xs, 0)) < Owed(xs)
    decreases xs
  {
    var n := |xs| - 1;
    if n > 0 {
      OwedFirst(xs[..n]);
      assert Without(xs, 0)[..n - 1] == Without(xs[..n], 0);
    }
  }

  /** Nothing was dispatched. */
  predicate Unmoved(g: Group, g': Group) {
    g'.queue == g.queue && g'.execs == g.execs && g'.activeKeys == g.activeKeys && g'.subs == g.subs
  }

  lemma {:induction false} ScanWorks(g: Group, i: nat, now: int, due: Option<int>)
    requires i <= |g.queue|
    ensures var g' := Scan(g, i, now, due).0; Work(g') < Work(g) || Unmoved(g, g')
    decreases |g.queue| - i
  {
    if i < |g.queue| {
      if g.queue[i].availableAt > now {
        ScanWorks(g, i + 1, now, Sooner(due, g.queue[i].availableAt));
      } else if g.queue[i].msg.key in g.activeKeys {
        ScanWorks(g, i + 1, now, due);
      } else {
        var j := FindFree(g.subs, 0);
        if j.Some? {
          var g1 := Dispatch(g, i, j.value, now);
          OwedNext(g.execs, g1.execs[|g.execs|]);
          ScanWorks(g1, i, now, due);
        }
      }
    }
  }

  lemma PumpWorks(g: Group, now: int)
    ensures Work(Pump(g, now)) < Work(g) || Unmoved(g, Pump(g, now))
  {
    if g.live { ScanWorks(g.(timer := None), 0, now, None); }
  }

  // ---------------------------------------------------------------------------------
  // And leaves the group ready for the next one

  ghost predicate Ready(g: Group) {
    Inv(g) && g.live && Serving(g) && Stirs(g)
  }

  lemma {:induction false} ScanServes(g: Group, i: nat, now: int, due: Option<int>)
    requires i <= |g.queue| && Serving(g)
    ensures Serving(Scan(g, i, now, due).0)
    decreases |g.queue| - i
  {
    if i < |g.queue| {
      if g.queue[i].availableAt > now {
        ScanServes(g, i + 1, now, Sooner(due, g.queue[i].availableAt));
      } else if g.queue[i].msg.key in g.activeKeys {
        ScanServes(g, i + 1, now, due);
      } else {
        var j := FindFree(g.subs, 0);
        if j.Some? {
          var g1 := Dispatch(g, i, j.value, now);
          assert g1.subs[j.value] in g1.subs && g1.subs[j.value].concurrency >= 1;
          ScanServes(g1, i, now, due);
        }
      }
    }
  }

  /** With nothing in flight, a serving subscription has capacity. */
  lemma FreeWhenIdle(g: Group)
    requires Inv(g) && Serving(g) && g.execs == []
    ensures HasCapacity(g.subs) && g.activeKeys == {}
  {
    var s :| s in g.subs && s.concurrency >= 1;
    assert SubOk(g, s) && Free(s);
    assert forall k :: k !in g.activeKeys;
  }

  lemma PumpStirs(g: Group, now: int)
    requires Inv(g) && g.live && Serving(g)
    ensures Ready(Pump(g, now))
  {
    var g' := Pump(g, now);
    PumpInv(g, now);
    PumpWakes(g, now);
    var g0 := g.(timer := None);
    assert Serving(g0);
    ScanServes(g0, 0, now, None);
    assert g'.subs == Scan(g0, 0, now, None).0.subs;
    if g'.queue != [] && g'.execs == [] {
      FreeWhenIdle(g');
      assert Waits(g', g'.timer, g'.queue[0]);
    }
  }

  lemma FinishStirs(g: Group, now: int)
    requires Ready(g) && g.execs != [] && g.execs[0].settled
    ensures Ready(Finish(g, 0, now)) && Work(Finish(g, 0, now)) < Work(g)
  {
    var g1 := Finish1(g, 0);
    FinishedInv(g, 0);
    DecrementServes(g.subs, g.execs[0].sub);
    PumpStirs(g1, now);
    PumpWorks(g1, now);
    OwedFirst(g.execs);
  }

  lemma DecrementServes(subs: seq<Sub>, id: nat)
    requires exists s <- subs :: s.concurrency >= 1
    ensures exists s <- Decrement(subs, id) :: s.concurrency >= 1
  {
    var l :| 0 <= l < |subs| && subs[l].concurrency >= 1;
    assert Decrement(subs, id)[l] in Decrement(subs, id);
  }

  lemma SettleStirs(g: Group, i: nat, now: int)
    requires Ready(g) && i < |g.execs| && !g.execs[i].settled
    ensures Ready(Settle(g, i, Ack, now)) && Work(Settle(g, i, Ack, now)) < Work(g)
  {
    InvStep(g, Settles(i, Ack, now));
    OwedSettled(g.execs, i);
  }

  /** The timer fires when the first message is due. */
  lemma TimerStirs(g: Group, now: int)
    requires Ready(g) && g.execs == [] && g.queue != [] && g.queue[0].availableAt <= now
    ensures Ready(FireTimer(g, now)) && Work(FireTimer(g, now)) < Work(g)
  {
    var g1 := g.(timer := None);
    SameInv(g, g1);
    assert Serving(g1);
    PumpStirs(g1, now);
    PumpWorks(g1, now);
    PumpWakes(g1, now);
    if Unmoved(g1, Pump(g1, now)) { FreeWhenIdle(g); }
  }

  // ---------------------------------------------------------------------------------
  // When everything can be booked

  function Later(a: int, b: int): int {
    if a < b then b else a
  }

  /** The next event on the way to an idle group. */
  lemma NextEvent(g: Group, clock: int) returns (e: Event)
    requires Ready(g) && !Idle(g)
    ensures (e.TimerFires? || e.Settles? || e.Finishes?) && clock <= e.now && Enabled(g, e)
    ensures Ready(Apply(g, e)) && Work(Apply(g, e)) < Work(g)
  {
    if i :| 0 <= i < |g.execs| && !g.execs[i].settled {
      e := Settles(i, Ack, clock);
      SettleStirs(g, i, clock);
    } else if g.execs != [] {
      e := Finishes(0, clock);
      FinishStirs(g, clock);
    } else {
      var now := Later(clock, g.queue[0].availableAt);
      e := TimerFires(now);
      TimerStirs(g, now);
    }
  }

  /** An unprompted run ends with an idle group. */
  predicate Drained(g: Group, es: seq<Event>, clock: int) {
    Runs(g, es) && Unprompted(es, clock) && Idle(After(g, es))
  }

  lemma {:induction false} Drains(g: Group, clock: int) returns (es: seq<Event>)
    requires Ready(g)
    ensures Drained(g, es, clock)
    decreases Work(g)
  {
    if Idle(g) {
      es := [];
    } else {
      var e := NextEvent(g, clock);
      var rest := Drains(Apply(g, e), e.now);
      es := [e] + rest;
      assert es[1..] == rest;
    }
  }

  /** A live group of any run whose subscriptions take messages can book all of them without a call from
      outside if and only if nothing is queued, something is in flight, or a timer is armed. */
  lemma DrainsExactly(g: Group, clock: int)
    requires Inv(g) && g.live && Serving(g)
    ensures (exists es :: Drained(g, es, clock)) <==> Stirs(g)
  {
    if Stirs(g) {
      var es := Drains(g, clock);
    } else {
      forall es ensures !Drained(g, es, clock) { assert es == [] || !Runs(g, es) || !Unprompted(es, clock); }
    }
  }

  lemma ReadyStep(g: Group, e: Event)
    requires Ready(g) && Enabled(g, e) && (e.TimerFires? || e.Settles? || e.Finishes?)
    ensures Ready(Apply(g, e))
  {
    match e
    case TimerFires(now) =>
      SameInv(g, g.(timer := None));
      assert Serving(g.(timer := None));
      PumpStirs(g.(timer := None), now);
    case Settles(i, o, now) => InvStep(g, e);
    case Finishes(i, now) =>
      FinishedInv(g, i);
      DecrementServes(g.subs, g.execs[i].sub);
      PumpStirs(Finish1(g, i), now);
  }

  /** However its handlers and timers go on, such a group never gets stuck. */
  lemma {:induction false} NeverStuck(g: Group, es: seq<Event>, clock: int)
    requires Ready(g) && Runs(g, es) && Unprompted(es, clock)
    ensures Ready(After(g, es))
    decreases es
  {
    if es != [] {
      ReadyStep(g, es[0]);
      NeverStuck(Apply(g, es[0]), es[1..], es[0].now);
    }
  }

  /** In an idle group every message has been acknowledged or dead-lettered, once. */
  lemma IdleIsBooked(g: Group, m: Message)
    requires Inv(g) && Idle(g) && m in g.published
    ensures g.acked[m] + g.dead[m] == 1
  {
    assert Places(g, m) == 1;
  }

  lemma AwakeIsReady(es: seq<Event>, g: Group)
    requires Runs(NewGroup(), es) && g == After(NewGroup(), es) && Concurrent(es)
    requires (forall e <- es :: !e.Reinitializes?) && g.live && g.subs != []
    ensures Ready(g)
  {
    AwakeRun(NewGroup(), es);
    ConcurrentRun(NewGroup(), es);
    assert g.subs[0] in g.subs;
    if g.queue != [] && g.execs == [] {
      FreeWhenIdle(g);
      assert Waits(g, g.timer, g.queue[0]);
    }
  }

  lemma {:induction false} ScanPublishes(g: Group, i: nat, now: int, due: Option<int>)
    requires i <= |g.queue|
    ensures Scan(g, i, now, due).0.published == g.published
    decreases |g.queue| - i
  {
    if i < |g.queue| {
      if g.queue[i].availableAt > now {
        ScanPublishes(g, i + 1, now, Sooner(due, g.queue[i].availableAt));
      } else if g.queue[i].msg.key in g.activeKeys {
        ScanPublishes(g, i + 1, now, due);
      } else {
        var j := FindFree(g.subs, 0);
        if j.Some? { ScanPublishes(Dispatch(g, i, j.value, now), i, now, due); }
      }
    }
  }

  lemma {:induction false} UnpromptedPublishes(g: Group, es: seq<Event>, clock: int)
    requires Runs(g, es) && Unprompted(es, clock)
    ensures After(g, es).published == g.published
    decreases es
  {
    if es != [] {
      match es[0] {
        case TimerFires(now) => ScanPublishes(g.(timer := None), 0, now, None);
        case Finishes(i, now) => ScanPublishes(Finish1(g, i).(timer := None), 0, now, None);
        case Settles(i, o, now) =>
      }
      UnpromptedPublishes(Apply(g, es[0]), es[1..], es[0].now);
    }
  }

  /** Progress: in every run with concurrency at least 1, as long as the broker has neither begun to
      disconnect nor been re-initialised and a subscription is open, and however handlers and timers have
      gone on since, all messages published so far can still be booked without a call from outside. */
  lemma EverythingBooked(es: seq<Event>, g: Group, fs: seq<Event>, t: Group, clock: int, later: int)
    returns (rest: seq<Event>, u: Group)
    requires Runs(NewGroup(), es) && g == After(NewGroup(), es) && Concurrent(es)
    requires (forall e <- es :: !e.Reinitializes?) && g.live && g.subs != []
    requires Runs(g, fs) && Unprompted(fs, clock) && t == After(g, fs)
    ensures Drained(t, rest, later) && u == After(t, rest)
    ensures forall m <- g.published :: u.acked[m] + u.dead[m] == 1
  {
    AwakeIsReady(es, g);
    NeverStuck(g, fs, clock);
    rest := Drains(t, later);
    u := After(t, rest);
    UnpromptedPublishes(g, fs, clock);
    UnpromptedPublishes(t, rest, later);
    NeverStuck(t, rest, later);
    forall m | m in g.published ensures u.acked[m] + u.dead[m] == 1 { IdleIsBooked(u, m); }
  }
}
