/** The in-memory broker: consumer groups by topic, the connection state, and the dead-letter
    history. Each method takes its groups along the steps of a run, and the broker keeps the run of
    every group, so that all that is proved of runs holds of its groups at any time. */
module MemoryBroker {
  import opened Wrappers
  import opened BrokerGroup
  import opened BrokerSafety
  import opened BrokerDelivery
  import opened BrokerProgress
  import opened BrokerTiming

  type GroupKey = (string, string)   // topic, consumer group

  const DLQ := "dlq"

  /** A dead letter: the event and its key unchanged, with one attempt more. */
  datatype DeadRecord = DeadRecord(msg: Message, attempt: nat)

  function DeadPost(x: Exec, now: int): Post {
    PostOf(x.item.msg.event, x.item.msg.key, x.item.attempt + 1, None, now)
  }

  /** What is published: the event, its key and attempt number, and when it is due. */
  datatype Post = Post(event: string, key: string, attempt: nat, at: int, now: int)

  function PostOf(event: string, key: string, attempt: nat, delayMs: Option<int>, now: int): Post {
    Post(event, key, attempt, now + Max0(if delayMs.Some? then delayMs.value else 0), now)
  }

  function MessageOf(id: nat, p: Post): Message {
    Message(id, p.event, p.key, p.attempt)
  }

  function Received(g: Group, id: nat, p: Post): Group {
    Enqueue(g, MessageOf(id, p), p.at, p.now)
  }

  function Arrival(id: nat, p: Post): Event {
    Event.Publish(MessageOf(id, p), p.at, p.now)
  }

  // ---------------------------------------------------------------------------------
  // A group of the broker is at the end of its run

  type Groups = map<GroupKey, Group>

  type History = map<GroupKey, seq<Event>>

  lemma {:induction false} AppendEvent(g: Group, es: seq<Event>, e: Event)
    requires Runs(g, es) && Enabled(After(g, es), e)
    ensures Runs(g, es + [e]) && After(g, es + [e]) == Apply(After(g, es), e)
    decreases es
  {
    if es == [] {
      assert es + [e] == [e];
    } else {
      assert (es + [e])[1..] == es[1..] + [e];
      AppendEvent(Apply(g, es[0]), es[1..], e);
    }
  }

  /** A pump publishes nothing, keeps the subscriptions' identities, and starts executions only for them. */
  lemma {:induction false} ScanKeepsBooks(g: Group, i: nat, now: int, due: Option<int>)
    requires i <= |g.queue|
    ensures var g' := Scan(g, i, now, due).0;
      && g'.published == g.published && g'.live == g.live && |g'.subs| == |g.subs|
      && (forall j :: 0 <= j < |g.subs| ==> g'.subs[j].id == g.subs[j].id)
      && (forall x <- g'.execs :: x in g.execs || exists s <- g.subs :: s.id == x.sub)
    decreases |g.queue| - i
  {
    if i < |g.queue| {
      if g.queue[i].availableAt > now {
        ScanKeepsBooks(g, i + 1, now, Sooner(due, g.queue[i].availableAt));
      } else if g.queue[i].msg.key in g.activeKeys {
        ScanKeepsBooks(g, i + 1, now, due);
      } else {
        var j := FindFree(g.subs, 0);
        if j.Some? {
          var g1 := Dispatch(g, i, j.value, now);
          ScanKeepsBooks(g1, i, now, due);
          var g' := Scan(g1, i, now, due).0;
          forall x | x in g'.execs ensures x in g.execs || exists s <- g.subs :: s.id == x.sub {
            if x !in g.execs {
              if x in g1.execs {
                assert x.sub == g.subs[j.value].id && g.subs[j.value] in g.subs;
              } else {
                var s :| s in g1.subs && s.id == x.sub;
                var l :| 0 <= l < |g1.subs| && g1.subs[l] == s;
                assert g.subs[l] in g.subs && g.subs[l].id == x.sub;
              }
            }
          }
        }
      }
    }
  }

  lemma PumpKeepsBooks(g: Group, now: int)
    ensures var g' := Pump(g, now);
      && g'.published == g.published && g'.live == g.live && (!g.live ==> g'.timer == g.timer)
      && (forall s <- g'.subs :: exists s0 <- g.subs :: s0.id == s.id)
      && (forall x <- g'.execs :: x in g.execs || exists s <- g.subs :: s.id == x.sub)
  {
    var g' := Pump(g, now);
    if g.live {
      ScanKeepsBooks(g.(timer := None), 0, now, None);
      forall s | s in g'.subs ensures exists s0 <- g.subs :: s0.id == s.id {
        var l :| 0 <= l < |g'.subs| && g'.subs[l] == s;
        assert g.subs[l] in g.subs && g.subs[l].id == s.id;
      }
    } else {
      assert forall s <- g.subs :: exists s0 <- g.subs :: s0.id == s.id;
    }
  }

  /** The ids a group uses were handed out before. */
  predicate Known(g: Group, messages: nat, subs: nat) {
    && (forall m <- g.published :: m.id < messages)
    && (forall s <- g.subs :: s.id < subs)
    && (forall x <- g.execs :: x.sub < subs)
  }

  lemma PumpKnown(g: Group, now: int, messages: nat, subs: nat)
    requires Known(g, messages, subs)
    ensures Known(Pump(g, now), messages, subs)
  {
    PumpKeepsBooks(g, now);
  }

  lemma SettleKnown(g: Group, i: nat, o: Outcome, now: int, messages: nat, subs: nat)
    requires Known(g, messages, subs) && i < |g.execs|
    ensures Known(Settle(g, i, o, now), messages, subs)
  {
    var g' := Settle(g, i, o, now);
    assert |g'.execs| == |g.execs| && g'.published == g.published && g'.subs == g.subs;
    forall l | 0 <= l < |g'.execs| ensures g'.execs[l].sub < subs { assert g.execs[l] in g.execs; }
  }

  lemma FinishKnown(g: Group, i: nat, now: int, messages: nat, subs: nat)
    requires Known(g, messages, subs) && i < |g.execs|
    ensures Known(Finish(g, i, now), messages, subs)
  {
    var g' := Finish1(g, i);
    forall l | 0 <= l < |g'.subs| ensures g'.subs[l].id < subs { assert g.subs[l] in g.subs; }
    PumpKnown(g', now, messages, subs);
  }

  /** A group as the broker keeps it, at the end of its run. */
  ghost predicate Kept(g: Group, es: seq<Event>, live: bool, messages: nat, subs: nat) {
    && Runs(NewGroup(), es) && After(NewGroup(), es) == g
    && Known(g, messages, subs) && g.live == live
  }

  ghost predicate AllKept(groups: Groups, runs: History, live: bool, messages: nat, subs: nat) {
    && runs.Keys == groups.Keys
    && forall k {:trigger Kept(groups[k], runs[k], live, messages, subs)} :: k in groups ==>
         Kept(groups[k], runs[k], live, messages, subs)
  }

  lemma StepKept(g: Group, es: seq<Event>, e: Event, live: bool, messages: nat, subs: nat,
                 g': Group, live': bool, messages': nat, subs': nat)
    requires Kept(g, es, live, messages, subs) && Enabled(g, e) && Apply(g, e) == g'
    requires Known(g', messages', subs') && g'.live == live'
    ensures Kept(g', es + [e], live', messages', subs')
  {
    AppendEvent(NewGroup(), es, e);
  }

  lemma ReplaceKept(groups: Groups, runs: History, k: GroupKey, g: Group, es: seq<Event>, live: bool,
                    messages: nat, subs: nat, messages': nat, subs': nat)
    requires AllKept(groups, runs, live, messages, subs) && messages <= messages' && subs <= subs'
    requires Kept(g, es, live, messages', subs')
    ensures AllKept(groups[k := g], runs[k := es], live, messages', subs')
  {
    var after, hist := groups[k := g], runs[k := es];
    forall j | j in after ensures Kept(after[j], hist[j], live, messages', subs') {
      if j != k { assert Kept(groups[j], runs[j], live, messages, subs); }
    }
  }

  /** One group takes a step. */
  lemma OneSteps(groups: Groups, runs: History, k: GroupKey, e: Event, g': Group, live: bool,
                 messages: nat, subs: nat, messages': nat, subs': nat)
    requires AllKept(groups, runs, live, messages, subs) && k in groups && messages <= messages' && subs <= subs'
    requires Enabled(groups[k], e) && Apply(groups[k], e) == g' && Known(g', messages', subs') && g'.live == live
    ensures AllKept(groups[k := g'], runs[k := runs[k] + [e]], live, messages', subs')
  {
    assert Kept(groups[k], runs[k], live, messages, subs);
    StepKept(groups[k], runs[k], e, live, messages, subs, g', live, messages', subs');
    ReplaceKept(groups, runs, k, g', runs[k] + [e], live, messages, subs, messages', subs');
  }

  /** What the broker knows of one of its groups. */
  lemma GroupFacts(groups: Groups, runs: History, k: GroupKey, live: bool, messages: nat, subs: nat)
    requires AllKept(groups, runs, live, messages, subs) && k in groups
    ensures Known(groups[k], messages, subs) && groups[k].live == live
  {
    assert Kept(groups[k], runs[k], live, messages, subs);
  }

  lemma EnqueueAll(groups: Groups, runs: History, k: GroupKey, p: Post, messages: nat, subs: nat)
    requires AllKept(groups, runs, true, messages, subs) && k in groups
    ensures AllKept(groups[k := Received(groups[k], messages, p)], runs[k := runs[k] + [Arrival(messages, p)]],
                    true, messages + 1, subs)
  {
    var g, m := groups[k], MessageOf(messages, p);
    GroupFacts(groups, runs, k, true, messages, subs);
    PumpKnown(Queue1(g, m, p.at), p.now, messages + 1, subs);
    PumpKeepsBooks(Queue1(g, m, p.at), p.now);
    OneSteps(groups, runs, k, Arrival(messages, p), Received(g, messages, p), true, messages, subs, messages + 1, subs);
  }

  lemma CloseAll(groups: Groups, runs: History, k: GroupKey, id: nat, live: bool, messages: nat, subs: nat)
    requires AllKept(groups, runs, live, messages, subs) && k in groups
    ensures AllKept(groups[k := Close(groups[k], id)], runs[k := runs[k] + [Closes(id)]], live, messages, subs)
  {
    GroupFacts(groups, runs, k, live, messages, subs);
    OneSteps(groups, runs, k, Closes(id), Close(groups[k], id), live, messages, subs, messages, subs);
  }

  lemma TimerAll(groups: Groups, runs: History, k: GroupKey, now: int, live: bool, messages: nat, subs: nat)
    requires AllKept(groups, runs, live, messages, subs) && k in groups && groups[k].timer.Some?
    ensures AllKept(groups[k := FireTimer(groups[k], now)], runs[k := runs[k] + [TimerFires(now)]],
                    live, messages, subs)
  {
    var g := groups[k];
    GroupFacts(groups, runs, k, live, messages, subs);
    PumpKnown(g.(timer := None), now, messages, subs);
    PumpKeepsBooks(g.(timer := None), now);
    OneSteps(groups, runs, k, TimerFires(now), FireTimer(g, now), live, messages, subs, messages, subs);
  }

  lemma SettleAll(groups: Groups, runs: History, k: GroupKey, i: nat, o: Outcome, now: int, live: bool,
                  messages: nat, subs: nat)
    requires AllKept(groups, runs, live, messages, subs) && k in groups
    requires i < |groups[k].execs| && !groups[k].execs[i].settled
    ensures AllKept(groups[k := Settle(groups[k], i, o, now)], runs[k := runs[k] + [Settles(i, o, now)]],
                    live, messages, subs)
  {
    GroupFacts(groups, runs, k, live, messages, subs);
    SettleKnown(groups[k], i, o, now, messages, subs);
    OneSteps(groups, runs, k, Settles(i, o, now), Settle(groups[k], i, o, now), live, messages, subs, messages, subs);
  }

  lemma FinishAll(groups: Groups, runs: History, k: GroupKey, i: nat, now: int, live: bool, messages: nat, subs: nat)
    requires AllKept(groups, runs, live, messages, subs) && k in groups
    requires i < |groups[k].execs| && groups[k].execs[i].settled
    ensures AllKept(groups[k := Finish(groups[k], i, now)], runs[k := runs[k] + [Finishes(i, now)]],
                    live, messages, subs)
  {
    GroupFacts(groups, runs, k, live, messages, subs);
    FinishKnown(groups[k], i, now, messages, subs);
    PumpKeepsBooks(Finish1(groups[k], i), now);
    OneSteps(groups, runs, k, Finishes(i, now), Finish(groups[k], i, now), live, messages, subs, messages, subs);
  }

  function GroupOr(groups: Groups, k: GroupKey): Group {
    if k in groups then groups[k] else NewGroup()
  }

  function RunOr(runs: History, k: GroupKey): seq<Event> {
    if k in runs then runs[k] else []
  }

  lemma OpenAll(groups: Groups, runs: History, k: GroupKey, c: int, a: int, now: int, messages: nat, subs: nat)
    requires AllKept(groups, runs, true, messages, subs)
    ensures AllKept(groups[k := BrokerGroup.Subscribe(GroupOr(groups, k), subs, c, a, now)],
                    runs[k := RunOr(runs, k) + [Subscribes(subs, c, a, now)]], true, messages, subs + 1)
  {
    var g, es := GroupOr(groups, k), RunOr(runs, k);
    assert Kept(g, es, true, messages, subs) by {
      if k in groups { assert Kept(groups[k], runs[k], true, messages, subs); }
    }
    PumpKnown(Subscribed(g, subs, c, a), now, messages, subs + 1);
    PumpKeepsBooks(Subscribed(g, subs, c, a), now);
    var g' := BrokerGroup.Subscribe(g, subs, c, a, now);
    StepKept(g, es, Subscribes(subs, c, a, now), true, messages, subs, g', true, messages, subs + 1);
    ReplaceKept(groups, runs, k, g', es + [Subscribes(subs, c, a, now)], true, messages, subs, messages, subs + 1);
  }

  /** All groups take the same step of the connection. */
  function EachGroup(groups: Groups, e: Event): Groups
    requires e.Disconnects? || e.Drops? || e.Reinitializes?
  {
    map k <- groups :: Apply(groups[k], e)
  }

  function EachRun(runs: History, e: Event): History {
    map k <- runs :: runs[k] + [e]
  }

  lemma ConnectionKept(groups: Groups, runs: History, e: Event, live: bool, messages: nat, subs: nat)
    requires AllKept(groups, runs, live, messages, subs) && (e.Disconnects? || e.Drops? || e.Reinitializes?)
    ensures AllKept(EachGroup(groups, e), EachRun(runs, e), e.Reinitializes?, messages, subs)
  {
    var after, hist := EachGroup(groups, e), EachRun(runs, e);
    forall k | k in after ensures Kept(after[k], hist[k], e.Reinitializes?, messages, subs) {
      assert Kept(groups[k], runs[k], live, messages, subs);
      StepKept(groups[k], runs[k], e, live, messages, subs, after[k], e.Reinitializes?, messages, subs);
    }
  }

  /** Every group is now live or not, its timer cleared or kept, and otherwise as before. */
  ghost predicate OnlyConnection(before: Groups, after: Groups, live: bool, cleared: bool) {
    && after.Keys == before.Keys
    && forall k <- before :: after[k] == before[k].(live := live, timer := if cleared then None else before[k].timer)
  }

  lemma ConnectionOnly(groups: Groups)
    ensures OnlyConnection(groups, EachGroup(groups, Disconnects), false, true)
    ensures OnlyConnection(groups, EachGroup(groups, Drops), false, false)
    ensures OnlyConnection(groups, EachGroup(groups, Reinitializes), true, false)
  {
  }

  // ---------------------------------------------------------------------------------
  // Publishing to a topic

  /** The message has entered the group under some fresh id, or the group is as before. */
  ghost predicate SpreadAt(g: Group, es: seq<Event>, g': Group, es': seq<Event>, to: bool, p: Post) {
    if to then exists id: nat ::
      && g' == Received(g, id, p)
      && es' == es + [Event.Publish(Message(id, p.event, p.key, p.attempt), p.at, p.now)]
    else g' == g && es' == es
  }

  /** Exactly the groups `names` of the topic have received the message. */
  ghost predicate Spread(before: Groups, runs: History, after: Groups, runs': History,
                         topic: string, names: set<string>, p: Post) {
    && after.Keys == before.Keys && runs.Keys == before.Keys && runs'.Keys == before.Keys
    && forall k <- before :: SpreadAt(before[k], runs[k], after[k], runs'[k], k.0 == topic && k.1 in names, p)
  }

  lemma SpreadNext(before: Groups, runs: History, mid: Groups, hist: History, topic: string, names: set<string>,
                   n: string, id: nat, p: Post)
    requires Spread(before, runs, mid, hist, topic, names, p) && (topic, n) in before && n !in names
    ensures var k := (topic, n);
      Spread(before, runs, mid[k := Received(mid[k], id, p)], hist[k := hist[k] + [Arrival(id, p)]],
             topic, names + {n}, p)
  {
    var k := (topic, n);
    var after, hist' := mid[k := Received(mid[k], id, p)], hist[k := hist[k] + [Arrival(id, p)]];
    forall j | j in before
      ensures SpreadAt(before[j], runs[j], after[j], hist'[j], j.0 == topic && j.1 in names + {n}, p)
    {
      assert SpreadAt(before[j], runs[j], mid[j], hist[j], j.0 == topic && j.1 in names, p);
      if j == k {
        assert mid[j] == before[j] && after[j] == Received(before[j], id, p);
      } else {
        assert after[j] == mid[j] && (j.1 in names + {n} && j.0 == topic ==> j.1 in names);
      }
    }
  }

  /** Every group a topic delivers to exists. */
  ghost predicate TopicsOk(topics: map<string, set<string>>, groups: Groups) {
    forall t <- topics :: All(t, topics[t], groups)
  }

  ghost predicate All(topic: string, names: set<string>, groups: Groups) {
    forall n <- names :: (topic, n) in groups
  }

  ghost predicate Split(names: set<string>, todo: set<string>, done: set<string>) {
    names == todo + done && todo !! done
  }

  lemma TakeOne(names: set<string>, todo: set<string>, done: set<string>, n: string)
    requires Split(names, todo, done) && n in todo
    ensures Split(names, todo - {n}, done + {n})
  {
  }

  function Names(topics: map<string, set<string>>, topic: string): set<string> {
    if topic in topics then topics[topic] else {}
  }

  /** The first subscription below its concurrency. */
  method FindAvailable(subs: seq<Sub>) returns (r: Option<nat>)
    ensures r == FindFree(subs, 0)
  {
    var j := 0;
    while j < |subs|
      invariant j <= |subs|
      invariant FindFree(subs, 0) == FindFree(subs, j)
    {
      if subs[j].active < subs[j].concurrency {
        return Some(j);
      }
      j := j + 1;
    }
    return None;
  }

  /** The pump loop: scans the queue, dispatches what it can, and arms the timer for the earliest
      future item it has seen. The handlers of `quits` disconnect at once, which it does not notice
      before its end. */
  method PumpLoop(group: Group, now: int, quits: set<Message>) returns (g: Group)
    ensures g == PumpLeaving(group, now, quits)
  {
    g := group;
    if !g.live {
      return;
    }
    g := g.(timer := None);
    ghost var g0 := g;
    var due: Option<int> := None;
    var i := 0;
    while i < |g.queue|
      invariant i <= |g.queue|
      invariant ScanLeaving(g0, 0, now, None, quits) == ScanLeaving(g, i, now, due, quits)
      decreases |g.queue| - i
    {
      var item := g.queue[i];
      if item.availableAt > now {
        if due.None? || item.availableAt < due.value {
          due := Some(item.availableAt);
        }
        i := i + 1;
        continue;
      }
      if item.msg.key in g.activeKeys {
        i := i + 1;
        continue;
      }
      var j := FindAvailable(g.subs);
      if j.None? {
        break;
      }
      g := Dispatch(g, i, j.value, now);
      if item.msg in quits {
        g := BrokerGroup.BeginDisconnect(g);
      }
    }
    g := g.(timer := if g.live then due else None);
  }

  /** The pump whose handlers do not disconnect at once. */
  method PumpGroup(group: Group, now: int) returns (g: Group)
    ensures g == Pump(group, now)
  {
    g := PumpLoop(group, now, {});
    if group.live { LeavingInsidePump(group, now, {}); }
  }

  class Broker {
    var initialized: bool
    var disconnecting: bool
    var disconnected: bool
    var leaving: nat                // disconnects that have begun and not ended
    var groups: Groups
    var topicGroups: map<string, set<string>>
    var dlqHistory: seq<DeadRecord>
    var nextMessage: nat            // stands for the unique queue-item ids
    var nextSub: nat                // stands for the unique subscription ids
    ghost var runs: History

    /** Neither disconnecting nor disconnected. */
    predicate Live()
      reads this
    {
      !disconnecting && !disconnected
    }

    predicate Ready()
      reads this
    {
      initialized && Live()
    }

    ghost predicate Valid()
      reads this
    {
      && AllKept(groups, runs, Live(), nextMessage, nextSub)
      && TopicsOk(topicGroups, groups)
    }

    constructor ()
      ensures Valid() && !Ready() && groups == map[]
    {
      initialized, disconnecting, disconnected, leaving := false, false, false, 0;
      groups, topicGroups, dlqHistory, runs := map[], map[], [], map[];
      nextMessage, nextSub := 0, 0;
    }

    /** Puts a message into one group's queue and pumps it. */
    method EnqueueIn(k: GroupKey, p: Post)
      requires Valid() && Ready() && k in groups
      modifies this`groups, this`runs, this`nextMessage
      ensures Valid() && groups == old(groups)[k := Received(old(groups)[k], old(nextMessage), p)]
      ensures runs == old(runs)[k := old(runs)[k] + [Arrival(old(nextMessage), p)]]
    {
      var m := MessageOf(nextMessage, p);
      EnqueueAll(groups, runs, k, p, nextMessage, nextSub);
      var g := PumpGroup(Queue1(groups[k], m, p.at), p.now);
      runs := runs[k := runs[k] + [Arrival(nextMessage, p)]];
      nextMessage := nextMessage + 1;
      groups := groups[k := g];
    }

    /** Delivers to every group of the topic. */
    method PublishTo(topic: string, p: Post)
      requires Valid() && Ready()
      modifies this`groups, this`runs, this`nextMessage
      ensures Valid() && Spread(old(groups), old(runs), groups, runs, topic, Names(topicGroups, topic), p)
    {
      var names := Names(topicGroups, topic);
      assert All(topic, names, groups);
      var todo, done := names, {};
      while todo != {}
        invariant Valid() && Split(names, todo, done) && All(topic, todo, groups)
        invariant Spread(old(groups), old(runs), groups, runs, topic, done, p)
        decreases todo
      {
        var n :| n in todo;
        SpreadNext(old(groups), old(runs), groups, runs, topic, done, n, nextMessage, p);
        EnqueueIn((topic, n), p);
        TakeOne(names, todo, done, n);
        todo, done := todo - {n}, done + {n};
      }
    }

    /** Publishes to every group of the topic, or refuses when the broker is not ready. The message
        enters each group of the topic once, and no other group changes. */
    method Publish(topic: string, key: string, event: string, attempt: nat, delayMs: Option<int>, now: int)
      returns (ok: bool)
      requires Valid()
      modifies this`groups, this`runs, this`nextMessage
      ensures Valid() && ok == old(Ready())
      ensures Spread(old(groups), old(runs), groups, runs, topic, if ok then Names(topicGroups, topic) else {},
                     Post(event, key, attempt, if delayMs.Some? && delayMs.value > 0 then now + delayMs.value else now,
                          now))
    {
      ok := Ready();
      if ok {
        PublishTo(topic, PostOf(event, key, attempt, delayMs, now));
      }
    }

    /** Opens a subscription, creating the group where needed, and pumps the group. */
    method Subscribe(topic: string, group: string, concurrency: int, maxAttempts: int, now: int)
      returns (ok: bool, id: nat)
      requires Valid()
      modifies this`groups, this`runs, this`topicGroups, this`nextSub
      ensures Valid() && ok == old(Ready()) && id == old(nextSub)
      ensures !ok ==> groups == old(groups) && topicGroups == old(topicGroups) && runs == old(runs)
      ensures ok ==> topicGroups == old(topicGroups)[topic := Names(old(topicGroups), topic) + {group}]
      ensures ok ==> groups == old(groups)[(topic, group) :=
                BrokerGroup.Subscribe(GroupOr(old(groups), (topic, group)), id, concurrency, maxAttempts, now)]
      ensures ok ==> runs == old(runs)[(topic, group) :=
                RunOr(old(runs), (topic, group)) + [Subscribes(id, concurrency, maxAttempts, now)]]
    {
      ok, id := Ready(), nextSub;
      if !ok {
        return;
      }
      var k := (topic, group);
      var g := GroupOr(groups, k);
      var g' := PumpGroup(Subscribed(g, id, concurrency, maxAttempts), now);
      OpenAll(groups, runs, k, concurrency, maxAttempts, now, nextMessage, nextSub);
      topicGroups := topicGroups[topic := Names(topicGroups, topic) + {group}];
      groups := groups[k := g'];
      runs := runs[k := RunOr(runs, k) + [Subscribes(id, concurrency, maxAttempts, now)]];
      nextSub := nextSub + 1;
    }

    /** Closes a subscription; a group without subscriptions no longer receives messages. */
    method CloseSubscription(topic: string, group: string, id: nat)
      requires Valid()
      modifies this`groups, this`runs, this`topicGroups
      ensures Valid() && groups.Keys == old(groups).Keys
      ensures var k := (topic, group);
        if k in groups then
          groups == old(groups)[k := Close(old(groups)[k], id)] && runs == old(runs)[k := old(runs)[k] + [Closes(id)]]
        else groups == old(groups) && runs == old(runs)
      ensures (topic, group) in groups ==> forall x :: x in groups[(topic, group)].subs <==>
        x in old(groups)[(topic, group)].subs && x.id != id
      ensures topicGroups.Keys == old(topicGroups).Keys
      ensures forall t <- topicGroups ::
        var last := t == topic && (topic, group) in groups && groups[(topic, group)].subs == [];
        topicGroups[t] == old(topicGroups)[t] - (if last then {group} else {})
    {
      var k := (topic, group);
      if k in groups {
        CloseAll(groups, runs, k, id, Live(), nextMessage, nextSub);
        ClosedExactly(k, id);
        groups := groups[k := Close(groups[k], id)];
        runs := runs[k := runs[k] + [Closes(id)]];
        if |groups[k].subs| == 0 && topic in topicGroups {
          topicGroups := topicGroups[topic := topicGroups[topic] - {group}];
        }
      }
    }

    /** The timer of a group fires. */
    method OnTimer(k: GroupKey, now: int)
      requires Valid() && k in groups && groups[k].timer.Some?
      modifies this`groups, this`runs
      ensures Valid() && groups == old(groups)[k := FireTimer(old(groups)[k], now)]
      ensures runs == old(runs)[k := old(runs)[k] + [TimerFires(now)]]
    {
      TimerAll(groups, runs, k, now, Live(), nextMessage, nextSub);
      var g := PumpGroup(groups[k].(timer := None), now);
      groups := groups[k := g];
      runs := runs[k := runs[k] + [TimerFires(now)]];
    }

    /** The handler of execution `i` has returned or thrown: its outcome is booked, and a message that
        ends in the dead-letter queue is recorded. Where the broker is live and has dead-letter groups,
        the message is still to be published to them, which is a call of its own: other calls can come
        in between. */
    method HandleOutcome(k: GroupKey, i: nat, o: Outcome, now: int) returns (dead: Option<Post>)
      requires Valid() && k in groups && i < |groups[k].execs| && !groups[k].execs[i].settled
      modifies this`groups, this`runs, this`dlqHistory
      ensures Valid() && groups == old(groups)[k := Settle(old(groups)[k], i, o, now)]
      ensures runs == old(runs)[k := old(runs)[k] + [Settles(i, o, now)]]
      ensures var x := old(groups)[k].execs[i];
        var buried := o.DeadLetter? || (o.Retry? && x.item.attempt + 1 >= x.maxAttempts);
        && dlqHistory == old(dlqHistory) + (if buried then [DeadRecord(x.item.msg, x.item.attempt + 1)] else [])
        && dead == if buried && Live() && Names(topicGroups, DLQ) != {}
                   then Some(Post(x.item.msg.event, x.item.msg.key, x.item.attempt + 1, now, now)) else None
    {
      var x := groups[k].execs[i];
      SettleAll(groups, runs, k, i, o, now, Live(), nextMessage, nextSub);
      groups := groups[k := Settle(groups[k], i, o, now)];
      runs := runs[k := runs[k] + [Settles(i, o, now)]];
      dead := None;
      if Dead(x, o) {
        dlqHistory := dlqHistory + [DeadRecord(x.item.msg, x.item.attempt + 1)];
        if Live() && DLQ in topicGroups && topicGroups[DLQ] != {} {
          dead := Some(DeadPost(x, now));
        }
      }
    }

    /** The `finally` block of a settled execution. */
    method FinishExecution(k: GroupKey, i: nat, now: int)
      requires Valid() && k in groups && i < |groups[k].execs| && groups[k].execs[i].settled
      modifies this`groups, this`runs
      ensures Valid() && groups == old(groups)[k := Finish(old(groups)[k], i, now)]
      ensures runs == old(runs)[k := old(runs)[k] + [Finishes(i, now)]]
    {
      FinishAll(groups, runs, k, i, now, Live(), nextMessage, nextSub);
      var g := PumpGroup(Finish1(groups[k], i), now);
      groups := groups[k := g];
      runs := runs[k := runs[k] + [Finishes(i, now)]];
    }

    /** The first half of `disconnect`: no more pumps, all timers cleared. */
    method BeginDisconnect()
      requires Valid()
      modifies this`disconnecting, this`leaving, this`groups, this`runs
      ensures Valid() && disconnecting && leaving == old(leaving) + 1
      ensures groups == EachGroup(old(groups), Disconnects) && runs == EachRun(old(runs), Disconnects)
      ensures OnlyConnection(old(groups), groups, false, true)
    {
      ConnectionKept(groups, runs, Disconnects, Live(), nextMessage, nextSub);
      ConnectionOnly(groups);
      disconnecting, leaving := true, leaving + 1;
      groups := EachGroup(groups, Disconnects);
      runs := EachRun(runs, Disconnects);
    }

    /** The executions of a group that a disconnect waits for. A call from the handler of execution `i`,
        inside the pump that has just started it, does not see that one and those started after it. */
    function Awaited(k: GroupKey, inside: Option<(GroupKey, nat)>): seq<Exec>
      requires k in groups && (inside.Some? && inside.value.0 == k ==> inside.value.1 <= |groups[k].execs|)
      reads this
    {
      if inside.Some? && inside.value.0 == k then groups[k].execs[..inside.value.1] else groups[k].execs
    }

    /** One turn of the wait in `disconnect`: it ends when no execution that it sees is in flight. */
    method EndDisconnect(inside: Option<(GroupKey, nat)>) returns (ended: bool)
      requires Valid() && leaving > 0
      requires inside.Some? ==> inside.value.0 in groups && inside.value.1 < |groups[inside.value.0].execs|
      modifies this`disconnected, this`initialized, this`leaving, this`groups, this`runs
      ensures Valid() && (ended <==> forall k <- old(groups) :: old(Awaited(k, inside)) == [])
      ensures ended ==> !Ready() && disconnected && !initialized && leaving == old(leaving) - 1
      ensures ended ==> groups == EachGroup(old(groups), Drops) && runs == EachRun(old(runs), Drops)
      ensures ended ==> OnlyConnection(old(groups), groups, false, false)
      ensures !ended ==> groups == old(groups) && runs == old(runs) && leaving == old(leaving)
      ensures !ended ==> disconnected == old(disconnected) && initialized == old(initialized)
    {
      ended := forall k <- groups :: Awaited(k, inside) == [];
      if ended {
        Disconnected();
      }
    }

    /** The end of `disconnect`. */
    method Disconnected()
      requires Valid() && leaving > 0
      modifies this`disconnected, this`initialized, this`leaving, this`groups, this`runs
      ensures Valid() && !Ready() && disconnected && !initialized && leaving == old(leaving) - 1
      ensures groups == EachGroup(old(groups), Drops) && runs == EachRun(old(runs), Drops)
      ensures OnlyConnection(old(groups), groups, false, false)
    {
      ConnectionKept(groups, runs, Drops, Live(), nextMessage, nextSub);
      ConnectionOnly(groups);
      disconnected, initialized, leaving := true, false, leaving - 1;
      groups := EachGroup(groups, Drops);
      runs := EachRun(runs, Drops);
    }

    /** A disconnect fails because the dead letter of an execution it waits for could not be published:
        nothing changes, and the broker goes on disconnecting. */
    method FailDisconnect()
      requires Valid() && leaving > 0
      modifies this`leaving
      ensures Valid() && leaving == old(leaving) - 1
    {
      leaving := leaving - 1;
    }

    /** (Re-)initialisation, at any time, unless the environment forbids it. Queued messages are not
        pumped. */
    method Initialize(allowed: bool) returns (ok: bool)
      requires Valid()
      modifies this`initialized, this`disconnecting, this`disconnected, this`groups, this`runs
      ensures Valid() && ok == allowed && (ok ==> Ready())
      ensures !ok ==> initialized == old(initialized)
      ensures !ok ==> disconnecting == old(disconnecting) && disconnected == old(disconnected)
      ensures !ok || old(Live()) ==> groups == old(groups) && runs == old(runs)
      ensures ok && !old(Live()) ==> groups == EachGroup(old(groups), Reinitializes)
      ensures ok && !old(Live()) ==> runs == EachRun(old(runs), Reinitializes)
      ensures ok && !old(Live()) ==> OnlyConnection(old(groups), groups, true, false)
    {
      if !allowed {
        return false;
      }
      if !Live() {
        ConnectionKept(groups, runs, Reinitializes, Live(), nextMessage, nextSub);
        ConnectionOnly(groups);
        groups := EachGroup(groups, Reinitializes);
        runs := EachRun(runs, Reinitializes);
      }
      initialized, disconnecting, disconnected := true, false, false;
      return true;
    }

    /** The group of a key is at the end of the run the broker keeps for it. */
    lemma AtEndOfRun(k: GroupKey)
      requires Valid() && k in groups
      ensures k in runs && Runs(NewGroup(), runs[k]) && After(NewGroup(), runs[k]) == groups[k]
      ensures groups[k].live == Live()
    {
      assert Kept(groups[k], runs[k], Live(), nextMessage, nextSub);
    }

    lemma ClosedExactly(k: GroupKey, id: nat)
      requires Valid() && k in groups
      ensures forall x :: x in Close(groups[k], id).subs <==> x in groups[k].subs && x.id != id
    {
      AtEndOfRun(k);
      InvAtEnd(runs[k], groups[k]);
      CloseTakesOne(groups[k], id);
    }

    /** At any time, in every group of the broker: serial delivery within capacity, and every message in
        exactly one place. */
    lemma GroupsAreSound(k: GroupKey)
      requires Valid() && k in groups
      ensures Serial(groups[k]) && Capacity(groups[k])
      ensures forall m :: Places(groups[k], m) == if m in groups[k].published then 1 else 0
    {
      AtEndOfRun(k);
      InvAtEnd(runs[k], groups[k]);
    }

    /** While the broker is live, in every group whose subscriptions have concurrency at least 1 and
        which has not been re-initialised: no wake-up is lost. */
    lemma NoWakeUpLost(k: GroupKey, i: nat)
      requires Valid() && k in groups && k in runs && Live() && i < |groups[k].queue|
      requires Concurrent(runs[k]) && forall e <- runs[k] :: !e.Reinitializes?
      ensures var g := groups[k];
        || g.subs == []
        || (exists x <- g.execs :: x.item.msg.key == g.queue[i].msg.key)
        || (!HasCapacity(g.subs) && g.execs != [])
        || Armed(g.timer, g.queue[i].availableAt)
    {
      AtEndOfRun(k);
      NoLostWakeUp(runs[k], i);
    }

    /** In such a group with an open subscription, and however handlers and timers go on, all messages
        published so far can still be booked without a call from outside. */
    lemma MessagesCanBeBooked(k: GroupKey, fs: seq<Event>, t: Group, clock: int, later: int)
      returns (rest: seq<Event>, u: Group)
      requires Valid() && k in groups && k in runs && Live() && groups[k].subs != []
      requires Concurrent(runs[k]) && forall e <- runs[k] :: !e.Reinitializes?
      requires Runs(groups[k], fs) && Unprompted(fs, clock) && t == After(groups[k], fs)
      ensures Drained(t, rest, later) && u == After(t, rest)
      ensures forall m <- groups[k].published :: u.acked[m] + u.dead[m] == 1
    {
      AtEndOfRun(k);
      rest, u := EverythingBooked(runs[k], groups[k], fs, t, clock, later);
    }

    /** In every group whose subscriptions share their maximum: retries are numbered and bounded. */
    lemma RetriesAreBounded(k: GroupKey, max: int, m: Message)
      requires Valid() && k in groups && k in runs && Shares(runs[k], max)
      ensures Numbered(groups[k].log) && Times(groups[k].log, m) <= Most(max, m)
      ensures var g := groups[k];
        m in g.published && Queued(g.queue, m) == 0 && Running(g.execs, m) == 0 ==>
          g.acked[m] + g.dead[m] == 1 && Times(g.log, m) >= 1
    {
      AtEndOfRun(k);
      BoundedRetries(runs[k], max, m, groups[k]);
    }

    /** In every group, and however it goes on: what is published next is not delivered before its delay is
        over. */
    lemma PublicationsWait(k: GroupKey, m: Message, due: int, now: int,
                           g: Group, rest: seq<Event>, t: Group, j: nat)
      requires Valid() && k in groups && Enabled(groups[k], Event.Publish(m, due, now))
      requires g == Apply(groups[k], Event.Publish(m, due, now)) && Runs(g, rest) && Forward(rest, now)
      requires t == After(g, rest) && j < |t.log| && t.log[j].msg == m
      ensures t.log[j].at >= due
    {
      AtEndOfRun(k);
      FirstDeliveryWaits(runs[k], groups[k], m, due, now, g, rest, t, j);
    }

    /** And a message whose handler asks for a retry is not delivered again before the delay it has asked for
        is over. */
    lemma RetriesWait(k: GroupKey, i: nat, delay: Option<int>, now: int,
                      g: Group, rest: seq<Event>, t: Group, j: nat)
      requires Valid() && k in groups && Enabled(groups[k], Settles(i, Retry(delay), now))
      requires g == Apply(groups[k], Settles(i, Retry(delay), now)) && Runs(g, rest) && Forward(rest, now)
      requires t == After(g, rest) && |groups[k].log| <= j < |t.log| && t.log[j].msg == groups[k].execs[i].item.msg
      ensures t.log[j].at >= now + match delay case None => 1000 case Some(d) => if d >= 0 then d else 0
    {
      AtEndOfRun(k);
      RetryWaits(runs[k], groups[k], i, delay, now, g, rest, t, j);
    }

    /** In every group without delays and retries: messages of a key are delivered in publish order. */
    lemma DeliveredInOrder(k: GroupKey, clock: int, key: string)
      requires Valid() && k in groups && k in runs && Runs(NewGroup(), runs[k]) && PlainRun(NewGroup(), runs[k], clock)
      ensures InLog(groups[k].log, key) <= Sent(groups[k].published, key)
    {
      AtEndOfRun(k);
      PublishOrder(runs[k], clock, key);
    }
  }
}
