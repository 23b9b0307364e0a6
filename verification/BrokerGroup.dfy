/** One consumer group of the in-memory broker: its queue, its subscriptions and the executions in
    flight, as pure steps. */
module BrokerGroup {
  import opened Wrappers

  /** A published message: the event (without its attempt number), its partition key and the
      attempt number it was published with. `id` is the unique queue-item id. */
  datatype Message = Message(id: nat, event: string, key: string, initial: nat)

  datatype Item = Item(msg: Message, attempt: nat, availableAt: int)

  datatype Sub = Sub(id: nat, concurrency: int, maxAttempts: int, active: nat)

  /** An execution keeps the subscription it was started for, even after that is closed. Once
      settled its outcome is booked; it stays in flight until its `finally` block has run. */
  datatype Exec = Exec(sub: nat, maxAttempts: int, item: Item, settled: bool)

  /** A delivery: the message, its attempt number, and when its handler was started. */
  datatype Delivery = Delivery(msg: Message, attempt: nat, at: int)

  datatype Group = Group(
    queue: seq<Item>,
    activeKeys: set<string>,
    subs: seq<Sub>,          // in insertion order
    execs: seq<Exec>,
    timer: Option<int>,      // due time of the armed timer
    live: bool,              // neither disconnecting nor disconnected
    // history
    published: seq<Message>,
    log: seq<Delivery>,
    acked: multiset<Message>,
    dead: multiset<Message>
  )

  datatype Outcome = Ack | Retry(delayMs: Option<int>) | DeadLetter

  // ---------------------------------------------------------------------------------
  // Pump

  predicate Free(s: Sub) {
    s.active < s.concurrency
  }

  predicate HasCapacity(subs: seq<Sub>) {
    exists s <- subs :: Free(s)
  }

  /** The first subscription with remaining capacity. */
  function FindFree(subs: seq<Sub>, j: nat): (r: Option<nat>)
    requires j <= |subs|
    ensures r.Some? ==> j <= r.value < |subs| && Free(subs[r.value])
    ensures r.Some? ==> forall l :: j <= l < r.value ==> !Free(subs[l])
    ensures r.None? ==> forall l :: j <= l < |subs| ==> !Free(subs[l])
    decreases |subs| - j
  {
    if j == |subs| then None
    else if Free(subs[j]) then Some(j)
    else FindFree(subs, j + 1)
  }

  function Without<T>(s: seq<T>, i: nat): seq<T>
    requires i < |s|
  {
    s[..i] + s[i + 1..]
  }

  /** Claims queue item `i` for subscription `j` and starts its execution at `now`. */
  function Dispatch(g: Group, i: nat, j: nat, now: int): Group
    requires i < |g.queue| && j < |g.subs|
  {
    var item := g.queue[i];
    var sub := g.subs[j];
    g.(queue := Without(g.queue, i),
       activeKeys := g.activeKeys + {item.msg.key},
       subs := g.subs[j := sub.(active := sub.active + 1)],
       execs := g.execs + [Exec(sub.id, sub.maxAttempts, item, false)],
       log := g.log + [Delivery(item.msg, item.attempt, now)])
  }

  function Sooner(due: Option<int>, at: int): Option<int> {
    if due.None? || at < due.value then Some(at) else due
  }

  /** The scan of the queue from position `i`; `due` is the earliest future due time seen. */
  function Scan(g: Group, i: nat, now: int, due: Option<int>): (Group, Option<int>)
    requires i <= |g.queue|
    decreases |g.queue| - i
  {
    if i == |g.queue| then (g, due)
    else if g.queue[i].availableAt > now then Scan(g, i + 1, now, Sooner(due, g.queue[i].availableAt))
    else if g.queue[i].msg.key in g.activeKeys then Scan(g, i + 1, now, due)
    else
      var j := FindFree(g.subs, 0);
      if j.None? then (g, due) else Scan(Dispatch(g, i, j.value, now), i, now, due)
  }

  /** `pump`: does nothing on a disconnecting broker; otherwise scans and re-arms the timer. */
  function Pump(g: Group, now: int): Group {
    if !g.live then g
    else
      var (g', due) := Scan(g.(timer := None), 0, now, None);
      g'.(timer := due)
  }

  // ---------------------------------------------------------------------------------
  // Steps

  function Max0(n: int): nat {
    if n > 0 then n else 0
  }

  /** What a message owes its queue: enqueue and pump. */
  function Enqueue(g: Group, m: Message, availableAt: int, now: int): Group {
    Pump(g.(queue := g.queue + [Item(m, m.initial, availableAt)], published := g.published + [m]), now)
  }

  function Subscribe(g: Group, id: nat, concurrency: int, maxAttempts: int, now: int): Group {
    Pump(g.(subs := g.subs + [Sub(id, concurrency, maxAttempts, 0)]), now)
  }

  /** Where the subscription with this id is, if it is still open. */
  function IndexOf(subs: seq<Sub>, id: nat, j: nat): (r: Option<nat>)
    requires j <= |subs|
    ensures r.Some? ==> j <= r.value < |subs| && subs[r.value].id == id
    ensures r.None? ==> forall l :: j <= l < |subs| ==> subs[l].id != id
    decreases |subs| - j
  {
    if j == |subs| then None else if subs[j].id == id then Some(j) else IndexOf(subs, id, j + 1)
  }

  function Close(g: Group, id: nat): Group {
    var j := IndexOf(g.subs, id, 0);
    if j.Some? then g.(subs := Without(g.subs, j.value)) else g
  }

  function FireTimer(g: Group, now: int): Group {
    Pump(g.(timer := None), now)
  }

  /** Whether the outcome ends in the dead-letter queue. */
  predicate Dead(x: Exec, o: Outcome) {
    o.DeadLetter? || (o.Retry? && x.item.attempt + 1 >= x.maxAttempts)
  }

  /** `handleOutcome` of execution `i`. */
  function Settle(g: Group, i: nat, o: Outcome, now: int): Group
    requires i < |g.execs|
  {
    var x := g.execs[i];
    var g' := g.(execs := g.execs[i := x.(settled := true)]);
    if o.Ack? then g'.(acked := g.acked + multiset{x.item.msg})
    else if Dead(x, o) then g'.(dead := g.dead + multiset{x.item.msg})
    else
      var delay := Max0(if o.delayMs.Some? then o.delayMs.value else 1000);
      g'.(queue := g.queue + [Item(x.item.msg, x.item.attempt + 1, now + delay)])
  }

  function Decrement(subs: seq<Sub>, id: nat): seq<Sub> {
    var j := IndexOf(subs, id, 0);
    if j.Some? then subs[j.value := subs[j.value].(active := Max0(subs[j.value].active - 1))] else subs
  }

  /** The `finally` block of execution `i`. */
  function Finish(g: Group, i: nat, now: int): Group
    requires i < |g.execs|
  {
    var x := g.execs[i];
    Pump(g.(subs := Decrement(g.subs, x.sub), activeKeys := g.activeKeys - {x.item.msg.key},
            execs := Without(g.execs, i)), now)
  }

  function BeginDisconnect(g: Group): Group {
    g.(live := false, timer := None)
  }

  /** The end of a disconnect clears no timer; one can be armed where the broker was re-initialised in
      between. */
  function Drop(g: Group): Group {
    g.(live := false)
  }

  function Reinitialize(g: Group): Group {
    g.(live := true)
  }

  function NewGroup(): Group {
    Group([], {}, [], [], None, true, [], [], multiset{}, multiset{})
  }

  // ---------------------------------------------------------------------------------
  // Runs of one group

  datatype Event =
    | Publish(m: Message, availableAt: int, now: int)
    | Subscribes(id: nat, concurrency: int, maxAttempts: int, now: int)
    | Closes(id: nat)
    | TimerFires(now: int)
    | Settles(i: nat, o: Outcome, now: int)
    | Finishes(i: nat, now: int)
    | Disconnects      // a disconnect begins
    | Drops            // a disconnect that had begun earlier ends
    | Reinitializes

  predicate Enabled(g: Group, e: Event) {
    match e
    case Publish(m, _, _) => g.live && m !in g.published
    case Subscribes(id, _, _, _) => g.live && (forall s <- g.subs :: s.id != id) && (forall x <- g.execs :: x.sub != id)
    case Closes(_) => true
    case TimerFires(_) => g.timer.Some?
    case Settles(i, _, _) => i < |g.execs| && !g.execs[i].settled
    case Finishes(i, _) => i < |g.execs| && g.execs[i].settled
    case Disconnects => true
    case Drops => true
    case Reinitializes => true
  }

  function Apply(g: Group, e: Event): Group
    requires Enabled(g, e)
  {
    match e
    case Publish(m, at, now) => Enqueue(g, m, at, now)
    case Subscribes(id, concurrency, maxAttempts, now) => Subscribe(g, id, concurrency, maxAttempts, now)
    case Closes(id) => Close(g, id)
    case TimerFires(now) => FireTimer(g, now)
    case Settles(i, o, now) => Settle(g, i, o, now)
    case Finishes(i, now) => Finish(g, i, now)
    case Disconnects => BeginDisconnect(g)
    case Drops => Drop(g)
    case Reinitializes => Reinitialize(g)
  }

  predicate Runs(g: Group, es: seq<Event>)
    decreases es
  {
    es == [] || (Enabled(g, es[0]) && Runs(Apply(g, es[0]), es[1..]))
  }

  function After(g: Group, es: seq<Event>): Group
    requires Runs(g, es)
    decreases es
  {
    if es == [] then g else After(Apply(g, es[0]), es[1..])
  }
}
