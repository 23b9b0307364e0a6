/** One relay over the outbox: it claims unpublished rows, hands them to the broker and records what
    became of them, cycle after cycle, with crashes and database errors at any point. */
module OutboxRelay {
  import opened Wrappers
  import Backoff

  datatype OutboxRow = OutboxRow(id: nat, key: string, attempts: nat, availableAt: int, published: bool)

  /** What happens to a claimed row: all goes well; the broker takes it but it cannot be marked; the
      broker refuses it; or the process dies before or after the broker has it. `recorded` tells
      whether the failure itself can be written, without which the cycle ends in an error, and `at`
      when that is. */
  datatype Fate =
    | Delivered
    | NotMarked(recorded: bool, at: int)
    | Refused(recorded: bool, at: int)
    | Dies(handed: bool)

  predicate HandsOver(f: Fate) {
    f.Delivered? || f.NotMarked? || (f.Dies? && f.handed)
  }

  predicate Ends(f: Fate) {
    f.Dies? || ((f.NotMarked? || f.Refused?) && !f.recorded)
  }

  function FateAt(fates: seq<Fate>, j: nat): Fate {
    if j < |fates| then fates[j] else Delivered
  }

  // ---------------------------------------------------------------------------------
  // Claiming

  predicate Claimable(r: OutboxRow, now: int) {
    !r.published && r.availableAt <= now
  }

  /** The positions of the first `n` claimable rows from position `i`, in the order of creation, that
      no claim under way elsewhere has locked. */
  function Claimed(table: seq<OutboxRow>, now: int, locked: set<nat>, n: nat, i: nat): seq<nat>
    requires i <= |table|
    decreases |table| - i
  {
    if i == |table| || n == 0 then []
    else if Claimable(table[i], now) && i !in locked then [i] + Claimed(table, now, locked, n - 1, i + 1)
    else Claimed(table, now, locked, n, i + 1)
  }

  /** The claim is in order, takes only claimable rows, and passes over none but locked ones. */
  lemma {:induction false} ClaimedExactly(table: seq<OutboxRow>, now: int, locked: set<nat>, n: nat, i: nat)
    requires i <= |table|
    ensures var c := Claimed(table, now, locked, n, i);
      && |c| <= n
      && (forall j :: 0 <= j < |c| ==> i <= c[j] < |table| && Claimable(table[c[j]], now) && c[j] !in locked)
      && (forall j, k :: 0 <= j < k < |c| ==> c[j] < c[k])
      && (forall p :: i <= p < |table| && Claimable(table[p], now) && p !in locked && p !in c ==>
            |c| == n && forall j :: 0 <= j < |c| ==> c[j] < p)
    decreases |table| - i
  {
    if i < |table| && n > 0 {
      if Claimable(table[i], now) && i !in locked {
        ClaimedExactly(table, now, locked, n - 1, i + 1);
        var c, rest := Claimed(table, now, locked, n, i), Claimed(table, now, locked, n - 1, i + 1);
        assert c == [i] + rest;
        forall p | i <= p < |table| && Claimable(table[p], now) && p !in locked && p !in c
          ensures |c| == n && forall j :: 0 <= j < |c| ==> c[j] < p
        {
          assert p != i by { assert i == c[0]; }
          assert p !in rest;
        }
      } else {
        ClaimedExactly(table, now, locked, n, i + 1);
      }
    }
  }

  /** Across cycles a key can be overtaken: a claimed row jumps ahead of an older unpublished row of
      its key exactly when that one is waiting out its back-off or is locked by another claim. */
  lemma OvertakesExactly(table: seq<OutboxRow>, now: int, locked: set<nat>, n: nat, older: nat, newer: nat)
    requires older < newer < |table| && newer in Claimed(table, now, locked, n, 0)
    requires !table[older].published && table[older].key == table[newer].key
    ensures older !in Claimed(table, now, locked, n, 0) <==> table[older].availableAt > now || older in locked
  {
    ClaimedExactly(table, now, locked, n, 0);
  }

  // ---------------------------------------------------------------------------------
  // One cycle

  datatype BackOff = BackOff(base: real, factor: real, cap: real)

  function NextAvailableAt(b: BackOff, attempt: nat, now: int): int
    requires attempt >= 1
  {
    now + Backoff.Min(b.base * Backoff.Pow(b.factor, attempt - 1), b.cap).Floor
  }

  /** A row after it was attempted. */
  function RowAfter(r: OutboxRow, f: Fate, b: BackOff): OutboxRow {
    if f.Delivered? then r.(published := true)
    else if Ends(f) then r
    else r.(attempts := r.attempts + 1, availableAt := NextAvailableAt(b, r.attempts + 1, f.at))
  }

  predicate Sensible(b: BackOff) {
    b.base >= 0.0 && b.factor >= 1.0 && b.cap >= 0.0
  }

  /** A row that could not be published and is recorded as failed: it is one attempt further, still not
      published, and waits from the time of the failure on, no longer than the cap. */
  lemma FailedRowWaits(r: OutboxRow, f: Fate, b: BackOff, r': OutboxRow)
    requires Sensible(b) && (f.Refused? || f.NotMarked?) && f.recorded && r' == RowAfter(r, f, b)
    ensures r'.id == r.id && r'.key == r.key && r'.published == r.published && r'.attempts == r.attempts + 1
    ensures f.at <= r'.availableAt && (r'.availableAt - f.at) as real <= b.cap
  {
    Backoff.PowGrows(b.factor, 0, r.attempts);
    Backoff.Product(b.base, Backoff.Pow(b.factor, r.attempts));
  }

  /** After more failures it never waits less; the first wait is the base, where the cap allows it, and
      each further one the factor times as long. */
  lemma WaitsGrow(b: BackOff, m: nat, n: nat, at: int)
    requires Sensible(b) && 1 <= m <= n
    ensures NextAvailableAt(b, m, at) <= NextAvailableAt(b, n, at)
    ensures NextAvailableAt(b, 1, at) == at + Backoff.Min(b.base, b.cap).Floor
    ensures b.base * Backoff.Pow(b.factor, n) == b.factor * (b.base * Backoff.Pow(b.factor, n - 1))
  {
    Backoff.PowGrows(b.factor, m - 1, n - 1);
    Backoff.Product(b.base, Backoff.Pow(b.factor, n - 1) - Backoff.Pow(b.factor, m - 1));
    var x, y := b.base * Backoff.Pow(b.factor, m - 1), b.base * Backoff.Pow(b.factor, n - 1);
    assert y - x == b.base * (Backoff.Pow(b.factor, n - 1) - Backoff.Pow(b.factor, m - 1));
  }

  ghost predicate Ascending(claimed: seq<nat>, size: nat) {
    && (forall j :: 0 <= j < |claimed| ==> claimed[j] < size)
    && (forall j, k :: 0 <= j < k < |claimed| ==> claimed[j] < claimed[k])
  }

  lemma ClaimIsAscending(table: seq<OutboxRow>, now: int, locked: set<nat>, n: nat)
    ensures Ascending(Claimed(table, now, locked, n, 0), |table|)
  {
    ClaimedExactly(table, now, locked, n, 0);
  }

  /** What a cycle starts from: the table, the claimed positions, and what will happen to each. */
  datatype Job = Job(table: seq<OutboxRow>, claimed: seq<nat>, fates: seq<Fate>, backOff: BackOff) {
    ghost predicate Valid() {
      Ascending(claimed, |table|)
    }

    function Row(j: nat): OutboxRow
      requires j < |claimed| && claimed[j] < |table|
    {
      table[claimed[j]]
    }

    predicate Failed(j: nat) {
      !FateAt(fates, j).Delivered?
    }
  }

  /** An attempted row of the key before position `n` has failed. */
  ghost predicate KeyFailed(job: Job, tried: set<nat>, key: string, n: nat)
    requires job.Valid() && n <= |job.claimed|
  {
    exists i :: 0 <= i < n && i in tried && job.Row(i).key == key && job.Failed(i)
  }

  /** Of the claimed rows before position `n`, those attempted: a row is passed over exactly when an
      attempted row of its key before it has failed. */
  ghost predicate Attempted(job: Job, tried: set<nat>, n: nat)
    requires job.Valid() && n <= |job.claimed|
  {
    && (forall j <- tried :: j < n)
    && forall j {:trigger KeyFailed(job, tried, job.Row(j).key, j)} :: 0 <= j < n ==>
         (j !in tried <==> KeyFailed(job, tried, job.Row(j).key, j))
  }

  /** The rows tried for a key are a prefix of its claimed rows, which ends at the first failure. */
  lemma TriedIsPrefix(job: Job, tried: set<nat>, n: nat, i: nat, j: nat)
    requires job.Valid() && n <= |job.claimed| && Attempted(job, tried, n)
    requires i < j < n && job.Row(i).key == job.Row(j).key
    ensures j in tried ==> i in tried && !job.Failed(i)
    ensures i in tried && job.Failed(i) ==> j !in tried
    ensures i !in tried ==> j !in tried
  {
    assert KeyFailed(job, tried, job.Row(i).key, i) <==> i !in tried;
    assert KeyFailed(job, tried, job.Row(j).key, j) <==> j !in tried;
  }

  /** The ids handed to the broker by the attempts before position `n`, in order. */
  ghost function Handed(job: Job, tried: set<nat>, n: nat): seq<nat>
    requires job.Valid() && n <= |job.claimed|
  {
    if n == 0 then []
    else
      Handed(job, tried, n - 1) +
      if n - 1 in tried && HandsOver(FateAt(job.fates, n - 1)) then [job.Row(n - 1).id] else []
  }

  predicate Untouched(claimed: seq<nat>, tried: set<nat>, n: nat, p: nat)
    requires n <= |claimed|
  {
    forall j :: 0 <= j < n && j in tried ==> claimed[j] != p
  }

  /** The rows after the attempts before position `n`. */
  ghost predicate Recorded(job: Job, after: seq<OutboxRow>, tried: set<nat>, n: nat)
    requires job.Valid() && n <= |job.claimed|
  {
    && |after| == |job.table|
    && (forall j :: 0 <= j < n && j in tried ==>
          after[job.claimed[j]] == RowAfter(job.Row(j), FateAt(job.fates, j), job.backOff))
    && (forall p {:trigger Untouched(job.claimed, tried, n, p)} ::
          0 <= p < |after| && Untouched(job.claimed, tried, n, p) ==> after[p] == job.table[p])
  }

  /** The keys of the failed attempts before position `n`. */
  ghost predicate Blocks(job: Job, tried: set<nat>, n: nat, blocked: set<string>)
    requires job.Valid() && n <= |job.claimed|
  {
    forall k {:trigger KeyFailed(job, tried, k, n)} :: k in blocked <==> KeyFailed(job, tried, k, n)
  }

  lemma FailedNext(job: Job, tried: set<nat>, tried': set<nat>, k: string, n: nat)
    requires job.Valid() && n < |job.claimed|
    requires forall i :: 0 <= i < n ==> (i in tried <==> i in tried')
    ensures KeyFailed(job, tried', k, n) <==> KeyFailed(job, tried, k, n)
    ensures KeyFailed(job, tried', k, n + 1) <==>
      KeyFailed(job, tried, k, n) || (n in tried' && job.Row(n).key == k && job.Failed(n))
  {
  }

  lemma PassOver(job: Job, tried: set<nat>, n: nat, blocked: set<string>)
    requires job.Valid() && n < |job.claimed| && job.Row(n).key in blocked
    requires Attempted(job, tried, n) && Blocks(job, tried, n, blocked)
    ensures Attempted(job, tried, n + 1) && Blocks(job, tried, n + 1, blocked)
  {
    assert n !in tried;
    assert KeyFailed(job, tried, job.Row(n).key, n);
    forall k ensures k in blocked <==> KeyFailed(job, tried, k, n + 1) {
      FailedNext(job, tried, tried, k, n);
    }
  }

  lemma TryOne(job: Job, tried: set<nat>, n: nat, blocked: set<string>)
    requires job.Valid() && n < |job.claimed| && job.Row(n).key !in blocked
    requires Attempted(job, tried, n) && Blocks(job, tried, n, blocked)
    ensures Attempted(job, tried + {n}, n + 1)
    ensures Blocks(job, tried + {n}, n + 1, if job.Failed(n) then blocked + {job.Row(n).key} else blocked)
    ensures Handed(job, tried + {n}, n) == Handed(job, tried, n)
  {
    var tried' := tried + {n};
    assert n !in tried;
    forall j | 0 <= j <= n ensures j !in tried' <==> KeyFailed(job, tried', job.Row(j).key, j) {
      FailedNext(job, tried, tried', job.Row(j).key, j);
      assert KeyFailed(job, tried, job.Row(j).key, j) <==> (if j < n then j !in tried else job.Row(j).key in blocked);
    }
    var blocked' := if job.Failed(n) then blocked + {job.Row(n).key} else blocked;
    forall k ensures k in blocked' <==> KeyFailed(job, tried', k, n + 1) {
      FailedNext(job, tried, tried', k, n);
      assert KeyFailed(job, tried, k, n) <==> k in blocked;
    }
    HandedSame(job, tried, n, n);
  }

  lemma {:induction false} HandedSame(job: Job, tried: set<nat>, n: nat, m: nat)
    requires job.Valid() && m <= n < |job.claimed|
    ensures Handed(job, tried + {n}, m) == Handed(job, tried, m)
  {
    if m > 0 { HandedSame(job, tried, n, m - 1); }
  }

  lemma RecordOne(job: Job, after: seq<OutboxRow>, tried: set<nat>, n: nat)
    requires job.Valid() && n < |job.claimed| && n !in tried && Recorded(job, after, tried, n)
    ensures after[job.claimed[n]] == job.Row(n)
    ensures var r := RowAfter(job.Row(n), FateAt(job.fates, n), job.backOff);
      Recorded(job, after[job.claimed[n] := r], tried + {n}, n + 1)
  {
    var after' := after[job.claimed[n] := RowAfter(job.Row(n), FateAt(job.fates, n), job.backOff)];
    assert Untouched(job.claimed, tried, n, job.claimed[n]);
    forall p | 0 <= p < |after'| && Untouched(job.claimed, tried + {n}, n + 1, p) ensures after'[p] == job.table[p] {
      assert n in tried + {n} && job.claimed[n] != p;
      assert forall j :: 0 <= j < n && j in tried ==> j in tried + {n};
      assert Untouched(job.claimed, tried, n, p);
    }
  }

  /** The variables of the loop. */
  datatype Cycle = Cycle(table: seq<OutboxRow>, handed: seq<nat>, tried: set<nat>, blocked: set<string>, count: nat)

  /** A cycle that has come to position `n`. */
  ghost predicate InCycle(job: Job, n: nat, c: Cycle) {
    && job.Valid() && n <= |job.claimed| && c.count == |c.tried|
    && Attempted(job, c.tried, n) && Blocks(job, c.tried, n, c.blocked)
    && Recorded(job, c.table, c.tried, n) && c.handed == Handed(job, c.tried, n)
  }

  /** What the loop does with the row at position `p`, the `j`-th claimed one. */
  function Handle(c: Cycle, p: nat, j: nat, f: Fate, b: BackOff): Cycle
    requires p < |c.table|
  {
    var r := c.table[p];
    if r.key in c.blocked then c
    else
      Cycle(c.table[p := RowAfter(r, f, b)], c.handed + (if HandsOver(f) then [r.id] else []), c.tried + {j},
            if f.Delivered? then c.blocked else c.blocked + {r.key}, c.count + 1)
  }

  lemma NotYet(job: Job, n: nat, c: Cycle)
    requires InCycle(job, n, c) && n < |job.claimed|
    ensures n !in c.tried && job.claimed[n] < |c.table| == |job.table| && c.table[job.claimed[n]] == job.Row(n)
  {
    assert Untouched(job.claimed, c.tried, n, job.claimed[n]);
  }

  lemma HandleKeeps(job: Job, n: nat, c: Cycle, c': Cycle)
    requires InCycle(job, n, c) && n < |job.claimed| && job.claimed[n] < |c.table|
    requires c' == Handle(c, job.claimed[n], n, FateAt(job.fates, n), job.backOff)
    ensures InCycle(job, n + 1, c')
  {
    NotYet(job, n, c);
    if job.Row(n).key in c.blocked {
      PassOver(job, c.tried, n, c.blocked);
      forall p | 0 <= p < |c.table| && Untouched(job.claimed, c.tried, n + 1, p) ensures c.table[p] == job.table[p] {
        assert Untouched(job.claimed, c.tried, n, p);
      }
    } else {
      TryOne(job, c.tried, n, c.blocked);
      RecordOne(job, c.table, c.tried, n);
    }
  }

  ghost function CycleTo(job: Job, n: nat): (c: Cycle)
    requires job.Valid() && n <= |job.claimed|
    ensures |c.table| == |job.table|
  {
    if n == 0 then Cycle(job.table, [], {}, {}, 0)
    else Handle(CycleTo(job, n - 1), job.claimed[n - 1], n - 1, FateAt(job.fates, n - 1), job.backOff)
  }

  lemma CycleStarts(job: Job)
    requires job.Valid()
    ensures InCycle(job, 0, Cycle(job.table, [], {}, {}, 0))
  {
    forall k ensures !KeyFailed(job, {}, k, 0) { }
  }

  /** The loop attempts, hands over and records what it should. */
  lemma {:induction false} CycleToIsCycle(job: Job, n: nat, c: Cycle)
    requires job.Valid() && n <= |job.claimed| && c == CycleTo(job, n)
    ensures InCycle(job, n, c)
    decreases n
  {
    if n == 0 {
      CycleStarts(job);
    } else {
      var c0 := CycleTo(job, n - 1);
      CycleToIsCycle(job, n - 1, c0);
      HandleKeeps(job, n - 1, c0, c);
    }
  }

  /** In every cycle, completed or not, the rows tried for a partition key are a prefix of its claimed
      rows which ends at the first failure. */
  lemma RelayOrdering(job: Job, n: nat, i: nat, j: nat)
    requires job.Valid() && n <= |job.claimed| && i < j < n && job.Row(i).key == job.Row(j).key
    ensures var tried := CycleTo(job, n).tried;
      && (j in tried ==> i in tried && !job.Failed(i))
      && (j !in tried ==> exists h :: 0 <= h < j && h in tried && job.Row(h).key == job.Row(j).key && job.Failed(h))
  {
    var c := CycleTo(job, n);
    CycleToIsCycle(job, n, c);
    TriedIsPrefix(job, c.tried, n, i, j);
    assert KeyFailed(job, c.tried, job.Row(j).key, j) <==> j !in c.tried;
  }

  class Relay {
    var table: seq<OutboxRow>   // in the order of creation
    var broker: seq<nat>        // ids handed to the broker, in order
    const backOff: BackOff
    const batchSize: int

    /** A row marked published has been handed to the broker: crashes can duplicate, not lose. */
    ghost predicate Valid()
      reads this
    {
      forall p :: 0 <= p < |table| && table[p].published ==> table[p].id in broker
    }

    constructor (b: BackOff, batch: int)
      ensures Valid() && table == [] && broker == [] && backOff == b && batchSize == batch
    {
      table, broker, backOff, batchSize := [], [], b, batch;
    }

    /** A transaction elsewhere writes an event. */
    method Write(id: nat, key: string, now: int)
      requires Valid()
      modifies this`table
      ensures Valid() && table == old(table) + [OutboxRow(id, key, 0, now, false)]
    {
      table := table + [OutboxRow(id, key, 0, now, false)];
    }

    method Claim(now: int, locked: set<nat>) returns (claimed: seq<nat>)
      ensures claimed == Claimed(table, now, locked, Limit(), 0)
    {
      claimed := [];
      var i, n := 0, Limit();
      ghost var all := Claimed(table, now, locked, n, 0);
      while i < |table| && n > 0
        invariant i <= |table| && claimed + Claimed(table, now, locked, n, i) == all
      {
        if Claimable(table[i], now) && i !in locked {
          assert claimed + ([i] + Claimed(table, now, locked, n - 1, i + 1)) ==
                 claimed + [i] + Claimed(table, now, locked, n - 1, i + 1);
          claimed, n := claimed + [i], n - 1;
        }
        i := i + 1;
      }
    }

    function Limit(): (n: nat)
      ensures 1 <= n <= 500 && (1 <= batchSize <= 500 ==> n == batchSize) && (batchSize > 500 ==> n == 500)
    {
      var n := if batchSize < 500 then batchSize else 500;
      if n > 1 then n else 1
    }

    /** Publishes one row and records what became of it. */
    method Attempt(p: nat, f: Fate)
      requires Valid() && p < |table|
      modifies this`table, this`broker
      ensures Valid() && table == old(table)[p := RowAfter(old(table)[p], f, backOff)]
      ensures broker == old(broker) + if HandsOver(f) then [old(table)[p].id] else []
      ensures broker == old(broker) +
        if f == Delivered || f.NotMarked? || f == Dies(true) then [old(table)[p].id] else []
      ensures table[p].published <==> old(table)[p].published || f == Delivered
      ensures f == Delivered || f.Dies? || !f.recorded ==> table[p].attempts == old(table)[p].attempts
      ensures !(f == Delivered || f.Dies?) && f.recorded ==> table[p].attempts == old(table)[p].attempts + 1
    {
      var row := table[p];
      if HandsOver(f) {
        broker := broker + [row.id];
      }
      if f.Delivered? {
        table := table[p := row.(published := true)];
      } else if !Ends(f) {
        var next := NextAvailableAt(backOff, row.attempts + 1, f.at);
        table := table[p := row.(attempts := row.attempts + 1, availableAt := next)];
      }
    }

    /** One cycle, which ends with the number of rows it has handled, or without one in an error or a
        crash after position `n`. */
    method ProcessBatch(now: int, locked: set<nat>, fates: seq<Fate>)
      returns (processed: Option<nat>, ghost job: Job, ghost c: Cycle, ghost n: nat)
      requires Valid()
      modifies this`table, this`broker
      ensures Valid() && job == Job(old(table), Claimed(old(table), now, locked, Limit(), 0), fates, backOff)
      ensures job.Valid() && n <= |job.claimed| && c == CycleTo(job, n)
      ensures table == c.table && broker == old(broker) + c.handed
      ensures processed.Some? ==> n == |job.claimed| && processed.value == c.count
      ensures processed.Some? ==> forall j <- c.tried :: !Ends(FateAt(fates, j))
      ensures processed.None? ==> n > 0 && n - 1 in c.tried && Ends(FateAt(fates, n - 1))
    {
      var rows := Claim(now, locked);
      ClaimIsAscending(table, now, locked, Limit());
      job := Job(table, rows, fates, backOff);
      var blocked: set<string>, count, j := {}, 0, 0;
      c, n := Cycle(table, [], {}, {}, 0), 0;
      while j < |rows|
        invariant j <= |rows| && Valid() && n == j
        invariant c == CycleTo(job, j) && c.table == table && c.blocked == blocked && c.count == count
        invariant broker == old(broker) + c.handed
        invariant forall i <- c.tried :: !Ends(FateAt(fates, i))
      {
        var row, f := table[rows[j]], FateAt(fates, j);
        assert CycleTo(job, j + 1) == Handle(c, rows[j], j, f, backOff);
        c, n := Handle(c, rows[j], j, f, backOff), j + 1;
        if row.key !in blocked {
          Attempt(rows[j], f);
          count := count + 1;
          if Ends(f) {
            return None, job, c, n;
          }
          if !f.Delivered? {
            blocked := blocked + {row.key};
          }
        }
        j := j + 1;
      }
      return Some(count), job, c, n;
    }
  }
}
