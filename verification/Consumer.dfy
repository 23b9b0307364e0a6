/** The consumer wrapper on top of a consumer group: it turns what a handler does into an outcome,
    keeps its own counters, and leaves the last word on retries to the broker. */
module Consumer {
  import opened Wrappers
  import opened BrokerGroup
  import Backoff

  /** What comes of a message: its payload is not valid; the handler returns an outcome or nothing;
      it throws a permanent error; or it throws another one, a timeout included. */
  datatype Answer =
    | Invalid
    | Returns(outcome: Option<Outcome>)
    | ThrowsPermanent
    | Throws(draw: real, retryAfter: Option<real>)

  datatype Metrics = Metrics(processed: nat, retried: nat, deadLettered: nat)

  function OutcomeOf(a: Answer, attempt: nat, maxAttempts: int, policy: Backoff.Policy): Outcome {
    match a
    case Invalid => DeadLetter
    case Returns(None) => Ack
    case Returns(Some(o)) => o
    case ThrowsPermanent => DeadLetter
    case Throws(draw, after) =>
      if attempt + 1 >= maxAttempts then DeadLetter
      else Outcome.Retry(Some(Backoff.ComputeBackoff(policy, attempt + 1, draw, after)))
  }

  function Count(m: Metrics, o: Outcome): Metrics {
    match o
    case Ack => m.(processed := m.processed + 1)
    case Retry(_) => m.(retried := m.retried + 1)
    case DeadLetter => m.(deadLettered := m.deadLettered + 1)
  }

  class Wrapper {
    const maxAttempts: int
    const policy: Backoff.Policy
    const inMemory: bool   // whether the broker is the in-memory one, which keeps its own dead letters
    var metrics: Metrics
    var published: seq<nat>   // attempt numbers of the dead letters the wrapper has published itself

    constructor (max: int, p: Backoff.Policy, memory: bool)
      ensures metrics == Metrics(0, 0, 0) && published == [] && maxAttempts == max && policy == p && inMemory == memory
    {
      maxAttempts, policy, inMemory := max, p, memory;
      metrics, published := Metrics(0, 0, 0), [];
    }

    /** Handles one delivery. It is acknowledged exactly when the handler returns nothing or says so, and
        dead-lettered exactly for an invalid payload, a permanent error, another error on the last
        attempt, or when the handler asks for it; a retry is the handler's own, or has the delay of the
        attempt that has just failed. Exactly one counter moves, and every dead letter of an outside
        broker is published by the wrapper with one attempt more. */
    method HandleMessage(a: Answer, attempt: nat) returns (o: Outcome)
      modifies this
      ensures o == OutcomeOf(a, attempt, maxAttempts, policy) && metrics == Count(old(metrics), o)
      ensures o == Ack <==> a == Returns(None) || a == Returns(Some(Ack))
      ensures o == DeadLetter <==>
        || a.Invalid? || a.ThrowsPermanent? || (a.Throws? && attempt + 1 >= maxAttempts)
        || a == Returns(Some(DeadLetter))
      ensures o.Retry? && a.Returns? ==> a.outcome == Some(o)
      ensures o.Retry? && a.Throws? ==>
        o.delayMs == Some(Backoff.ComputeBackoff(policy, attempt + 1, a.draw, a.retryAfter))
      ensures o.Retry? && a.Throws? && a.retryAfter.None? && Backoff.Sane(policy) && Backoff.IsDraw(a.draw) ==>
        0 <= o.delayMs.value <= Backoff.Round(policy.cap)
      ensures metrics.processed == old(metrics).processed + if o == Ack then 1 else 0
      ensures metrics.retried == old(metrics).retried + if o.Retry? then 1 else 0
      ensures metrics.deadLettered == old(metrics).deadLettered + if o == DeadLetter then 1 else 0
      ensures published == old(published) + if o.DeadLetter? && !inMemory then [attempt + 1] else []
    {
      var current := attempt + 1;
      if a.Invalid? {
        metrics := metrics.(deadLettered := metrics.deadLettered + 1);
        if !inMemory {
          published := published + [current];
        }
        return DeadLetter;
      }
      match a {
        case Returns(result) =>
          o := if result.Some? then result.value else Ack;
        case ThrowsPermanent =>
          o := DeadLetter;
        case Throws(draw, after) =>
          if current >= maxAttempts {
            o := DeadLetter;
          } else {
            o := Outcome.Retry(Some(Backoff.ComputeBackoff(policy, current, draw, after)));
            if Backoff.Sane(policy) && Backoff.IsDraw(draw) { Backoff.Capped(policy, current, draw); }
          }
      }
      if o.Ack? {
        metrics := metrics.(processed := metrics.processed + 1);
      } else if o.Retry? {
        metrics := metrics.(retried := metrics.retried + 1);
      } else {
        metrics := metrics.(deadLettered := metrics.deadLettered + 1);
        if !inMemory {
          published := published + [current];
        }
      }
    }
  }

  // ---------------------------------------------------------------------------------
  // The wrapper's counters against the broker's books

  /** The broker turns a retry that the handler has asked for itself into a dead letter. */
  predicate Overruled(a: Answer, x: Exec) {
    a.Returns? && a.outcome.Some? && a.outcome.value.Retry? && x.item.attempt + 1 >= x.maxAttempts
  }

  /** The broker buries a message exactly when the wrapper does or is overruled. */
  lemma BuriedExactly(a: Answer, x: Exec, policy: Backoff.Policy)
    ensures var o := OutcomeOf(a, x.item.attempt, x.maxAttempts, policy);
      Dead(x, o) <==> o.DeadLetter? || Overruled(a, x)
  {
  }

  /** The answers behind a run: the wrapper has decided every outcome. */
  ghost predicate Served(g: Group, es: seq<Event>, answers: seq<Answer>, policy: Backoff.Policy)
    decreases es
  {
    Runs(g, es) && |answers| == |es| &&
    (es != [] ==>
       && (es[0].Settles? ==> var x := g.execs[es[0].i];
             es[0].o == OutcomeOf(answers[0], x.item.attempt, x.maxAttempts, policy))
       && Served(Apply(g, es[0]), es[1..], answers[1..], policy))
  }

  /** The wrapper's counters after a run. */
  ghost function Counters(g: Group, es: seq<Event>, m: Metrics): Metrics
    requires Runs(g, es)
    decreases es
  {
    if es == [] then m
    else Counters(Apply(g, es[0]), es[1..], if es[0].Settles? then Count(m, es[0].o) else m)
  }

  /** How often the wrapper was overruled in a run. */
  ghost function Overrulings(g: Group, es: seq<Event>, answers: seq<Answer>): nat
    requires Runs(g, es) && |answers| == |es|
    decreases es
  {
    if es == [] then 0
    else
      (if es[0].Settles? && Overruled(answers[0], g.execs[es[0].i]) then 1 else 0) +
      Overrulings(Apply(g, es[0]), es[1..], answers[1..])
  }

  lemma {:induction false} ScanBooks(g: Group, i: nat, now: int, due: Option<int>)
    requires i <= |g.queue|
    ensures var g' := Scan(g, i, now, due).0; g'.acked == g.acked && g'.dead == g.dead
    decreases |g.queue| - i
  {
    if i < |g.queue| {
      if g.queue[i].availableAt > now {
        ScanBooks(g, i + 1, now, Sooner(due, g.queue[i].availableAt));
      } else if g.queue[i].msg.key in g.activeKeys {
        ScanBooks(g, i + 1, now, due);
      } else {
        var j := FindFree(g.subs, 0);
        if j.Some? { ScanBooks(Dispatch(g, i, j.value, now), i, now, due); }
      }
    }
  }

  lemma PumpBooks(g: Group, now: int)
    ensures Pump(g, now).acked == g.acked && Pump(g, now).dead == g.dead
  {
    ScanBooks(g.(timer := None), 0, now, None);
  }

  /** Only a settled execution is booked, and it is booked once. */
  lemma StepBooks(g: Group, e: Event, g': Group)
    requires Enabled(g, e) && g' == Apply(g, e)
    ensures !e.Settles? ==> g'.acked == g.acked && g'.dead == g.dead
    ensures e.Settles? ==>
      && |g'.acked| == |g.acked| + (if e.o.Ack? then 1 else 0)
      && |g'.dead| == |g.dead| + (if Dead(g.execs[e.i], e.o) then 1 else 0)
  {
    match e
    case Publish(m, at, now) =>
      PumpBooks(g.(queue := g.queue + [Item(m, m.initial, at)], published := g.published + [m]), now);
    case Subscribes(id, c, a, now) => PumpBooks(g.(subs := g.subs + [Sub(id, c, a, 0)]), now);
    case TimerFires(now) => PumpBooks(g.(timer := None), now);
    case Finishes(i, now) =>
      var x := g.execs[i];
      PumpBooks(g.(subs := Decrement(g.subs, x.sub), activeKeys := g.activeKeys - {x.item.msg.key},
                   execs := Without(g.execs, i)), now);
    case _ =>
  }

  lemma {:induction false} RunBooks(g: Group, es: seq<Event>, answers: seq<Answer>, policy: Backoff.Policy,
                                    m: Metrics, end: Group, m': Metrics)
    requires Served(g, es, answers, policy) && end == After(g, es) && m' == Counters(g, es, m)
    ensures m'.processed - m.processed == |end.acked| - |g.acked|
    ensures m'.deadLettered - m.deadLettered + Overrulings(g, es, answers) == |end.dead| - |g.dead|
    decreases es
  {
    if es != [] {
      var e, g1 := es[0], Apply(g, es[0]);
      StepBooks(g, e, g1);
      if e.Settles? { BuriedExactly(answers[0], g.execs[e.i], policy); }
      RunBooks(g1, es[1..], answers[1..], policy, if e.Settles? then Count(m, e.o) else m, end, m');
    }
  }

  /** Over every run the wrapper has processed exactly what the broker has acknowledged, and it agrees
      with the broker on the dead letters if and only if no handler asked for a retry on its last
      attempt. */
  lemma CountersAgreeExactly(es: seq<Event>, answers: seq<Answer>, policy: Backoff.Policy, end: Group, m: Metrics)
    requires Served(NewGroup(), es, answers, policy) && end == After(NewGroup(), es)
    requires m == Counters(NewGroup(), es, Metrics(0, 0, 0))
    ensures m.processed == |end.acked|
    ensures m.deadLettered == |end.dead| <==> Overrulings(NewGroup(), es, answers) == 0
    ensures m.deadLettered <= |end.dead|
  {
    RunBooks(NewGroup(), es, answers, policy, Metrics(0, 0, 0), end, m);
  }

  /** The group once its only subscription has been handed the message. */
  lemma OneRunning(m: Message) returns (g: Group)
    ensures var g1 := NewGroup().(subs := [Sub(0, 1, 1, 0)]);
      Enabled(g1, Publish(m, 0, 0)) && Apply(g1, Publish(m, 0, 0)) == g
    ensures g.execs == [Exec(0, 1, Item(m, m.initial, 0), false)] && g.dead == multiset{}
  {
    var g1 := NewGroup().(subs := [Sub(0, 1, 1, 0)]);
    var q := g1.(queue := [Item(m, m.initial, 0)], published := [m]);
    assert g1.queue + [Item(m, m.initial, 0)] == q.queue && g1.published + [m] == q.published;
    g := Dispatch(q, 0, 0, 0);
    assert g.queue == [];
    assert Scan(q, 0, 0, None) == Scan(g, 0, 0, None) == (g, None);
  }

  /** A handler that asks for a retry on its only attempt: the wrapper counts a retry, and the broker buries
      the message. */
  lemma RetryOverruled(policy: Backoff.Policy) returns (es: seq<Event>, answers: seq<Answer>)
    ensures Served(NewGroup(), es, answers, policy) && Overrulings(NewGroup(), es, answers) == 1
    ensures Counters(NewGroup(), es, Metrics(0, 0, 0)) == Metrics(0, 1, 0) && |After(NewGroup(), es).dead| == 1
  {
    var m, retry := Message(0, "event", "key", 0), Outcome.Retry(None);
    var e1, e2, e3 := Subscribes(0, 1, 1, 0), Publish(m, 0, 0), Settles(0, retry, 0);
    var a := Returns(Some(retry));
    es, answers := [e1, e2, e3], [a, a, a];
    var g1 := NewGroup().(subs := [Sub(0, 1, 1, 0)]);
    var g2 := OneRunning(m);
    assert Apply(NewGroup(), e1) == g1;
    var g3 := Settle(g2, 0, retry, 0);
    assert g3.dead == multiset{m};
    assert es[1..] == [e2, e3] && [e2, e3][1..] == [e3] && [e3][1..] == [];
    assert answers[1..] == [a, a] && [a, a][1..] == [a] && [a][1..] == [];
    assert Runs(g3, []) && Runs(g2, [e3]) && Runs(g1, [e2, e3]);
    assert Served(g3, [], [], policy) && Served(g2, [e3], [a], policy) && Served(g1, [e2, e3], [a, a], policy);
    assert Overrulings(g2, [e3], [a]) == 1 && Overrulings(g1, [e2, e3], [a, a]) == 1;
    var none := Metrics(0, 0, 0);
    assert Counters(g2, [e3], none) == Counters(g3, [], Metrics(0, 1, 0));
    assert Counters(g1, [e2, e3], none) == Counters(g2, [e3], none);
    assert After(g1, [e2, e3]) == After(g2, [e3]) == g3;
  }
}
