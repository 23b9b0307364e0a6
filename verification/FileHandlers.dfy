/** The transactions and handlers of one file, run to the end without interference, as the code
    writes them: loops over the replica rows, one repository or driver call at a time. */
module FileHandlers {
  import opened Wrappers
  import opened ReplicaState
  import opened Lifecycle
  import opened LifecycleLiveness

  datatype Outcome = Ack | RetryLater | GiveUpForGood

  /** `order` lists the rows as the replica repository returns them. */
  predicate Lists(order: seq<Provider>, rows: Rows) {
    && (forall p :: p in order <==> p in rows)
    && (forall i, j :: 0 <= i < j < |order| ==> order[i] != order[j])
  }

  /** The three loops over the rows. */
  datatype Job = UserDelete | Infection | PurgeRun

  predicate Concerns(job: Job, r: Row) {
    r.status != Deleted && (job == Infection ==> r.role == Secondary)
  }

  function WriteOf(job: Job, r: Row): Write {
    if job == UserDelete && r.status != Queued then MarkDeleting else MarkDeleted
  }

  function RowAfter(job: Job, r: Row): Row {
    if Concerns(job, r) then r.(status := CasStatus(r.status, WriteOf(job, r))) else r
  }

  /** The rows once the loop has been through those in `done`. */
  function Swept(job: Job, rows: Rows, done: seq<Provider>): Rows {
    map p <- rows :: if p in done then RowAfter(job, rows[p]) else rows[p]
  }

  lemma SweepNext(job: Job, rows: Rows, done: seq<Provider>, p: Provider)
    requires p in rows && p !in done
    ensures Swept(job, rows, done)[p] == rows[p]
    ensures Swept(job, rows, done + [p]) ==
      if Concerns(job, rows[p]) then Cas(Swept(job, rows, done), p, WriteOf(job, rows[p])) else Swept(job, rows, done)
  {
  }

  lemma SweepNone(job: Job, rows: Rows, done: seq<Provider>)
    requires done == []
    ensures Swept(job, rows, done) == rows
  {
  }

  /** QUEUED rows are DELETED now, and all others DELETING unless they were DELETED before. */
  ghost predicate UserDeleted(before: Rows, after: Rows) {
    && after.Keys == before.Keys
    && forall p <- before ::
         var st := before[p].status;
         after[p] == Row(before[p].role, if st == Queued || st == Deleted then Deleted else ReplicaStatus.Deleting)
  }

  /** Secondaries that are QUEUED, FAILED or DELETING are DELETED now; nothing else changes. */
  ghost predicate Cancelled(before: Rows, after: Rows) {
    && after.Keys == before.Keys
    && forall p <- before ::
         var st := before[p].status;
         after[p] == if before[p].role == Secondary && (st == Queued || st == Failed || st == ReplicaStatus.Deleting)
                     then Row(Secondary, Deleted) else before[p]
  }

  lemma DeleteSweep(rows: Rows, order: seq<Provider>)
    requires Lists(order, rows)
    ensures Swept(UserDelete, rows, order) == DeletedRows(rows) && UserDeleted(rows, DeletedRows(rows))
  {
  }

  lemma InfectionSweep(rows: Rows, order: seq<Provider>)
    requires Lists(order, rows)
    ensures Swept(Infection, rows, order) == InfectedRows(rows) && Cancelled(rows, InfectedRows(rows))
  {
  }

  /** The purge loop retires exactly the rows that are neither AVAILABLE nor IN_PROGRESS. */
  lemma PurgeSweep(rows: Rows, order: seq<Provider>)
    requires Lists(order, rows)
    ensures forall p <- rows :: Swept(PurgeRun, rows, order)[p].status == Deleted <==> Purgeable(rows[p].status)
  {
    forall p | p in rows ensures Swept(PurgeRun, rows, order)[p].status == Deleted <==> Purgeable(rows[p].status) {
      assert p in order;
    }
  }

  /** The objects once the purge loop has been through `done`. */
  function Cleared(rows: Rows, objects: map<Provider, Object>, done: seq<Provider>): map<Provider, Object> {
    map q <- objects | !(q in done && Touched(rows, q)) :: objects[q]
  }

  lemma ClearNext(rows: Rows, objects: map<Provider, Object>, done: seq<Provider>, p: Provider)
    ensures Cleared(rows, objects, done + [p]) ==
      if Touched(rows, p) then Cleared(rows, objects, done) - {p} else Cleared(rows, objects, done)
  {
  }

  lemma PurgedAll(s: State, order: seq<Provider>)
    requires Lists(order, s.rows) && forall p <- s.rows :: Purgeable(s.rows[p].status)
    ensures Swept(PurgeRun, s.rows, order) == Finished(s).rows
    ensures Cleared(s.rows, s.objects, order) == Finished(s).objects
  {
  }

  /** No row is AVAILABLE or IN_PROGRESS and no driver that is needed refuses to delete. */
  ghost predicate CanFinish(s: State, broken: set<Provider>) {
    forall p <- s.rows :: Purgeable(s.rows[p].status) && !(p in broken && Touched(s.rows, p))
  }

  /** The check after the loop succeeds exactly when the purge can finish. */
  lemma LastCheck(s: State, order: seq<Provider>, broken: set<Provider>)
    requires Lists(order, s.rows)
    requires forall j :: 0 <= j < |order| ==> !(order[j] in broken && Touched(s.rows, order[j]))
    ensures (forall p <- order :: Swept(PurgeRun, s.rows, order)[p].status == Deleted) <==> CanFinish(s, broken)
    ensures CanFinish(s, broken) ==>
      Swept(PurgeRun, s.rows, order) == Finished(s).rows && Cleared(s.rows, s.objects, order) == Finished(s).objects
  {
    PurgeSweep(s.rows, order);
    if CanFinish(s, broken) { PurgedAll(s, order); }
  }

  /** A copy is in progress. */
  ghost predicate Copying(rows: Rows) {
    exists p :: p in rows && rows[p].status == InProgress
  }

  /** The driver of a provider is called for every row but QUEUED and DELETED ones. */
  predicate Refuses(rows: Rows, broken: set<Provider>, p: Provider) {
    p in broken && p in rows && rows[p].status != Queued && rows[p].status != Deleted
  }

  /** Position `done` is the first whose driver is called and refuses, or the end. */
  ghost predicate PassedUpTo(rows: Rows, order: seq<Provider>, broken: set<Provider>, done: nat) {
    && done <= |order| && (done < |order| ==> Refuses(rows, broken, order[done]))
    && forall j :: 0 <= j < done ==> !Refuses(rows, broken, order[j])
  }

  /** Of the rows passed, those that are QUEUED, FAILED or DELETING are DELETED now; nothing else changes. */
  ghost predicate RowsPurged(before: Rows, passed: seq<Provider>, after: Rows) {
    && after.Keys == before.Keys
    && forall p <- before ::
         var st := before[p].status;
         after[p] == if p in passed && (st == Queued || st == Failed || st == ReplicaStatus.Deleting)
                     then Row(before[p].role, ReplicaStatus.Deleted) else before[p]
  }

  /** The objects behind the rows passed are gone, except behind QUEUED and DELETED ones; all others are kept. */
  ghost predicate ObjectsPurged(rows: Rows, before: map<Provider, Object>, passed: seq<Provider>,
                                after: map<Provider, Object>) {
    && (forall p :: p in after ==> p in before && after[p] == before[p])
    && (forall p :: p in before && p !in after ==> p in passed && p in rows)
    && (forall p :: p in before && p in passed && p in rows ==>
          (p in after <==> rows[p].status == Queued || rows[p].status == ReplicaStatus.Deleted))
  }

  /** The purge has passed `done` rows, and what it does to rows and objects. */
  ghost predicate Purged(rows: Rows, objects: map<Provider, Object>, order: seq<Provider>, broken: set<Provider>,
                         done: nat, rows': Rows, objects': map<Provider, Object>) {
    && PassedUpTo(rows, order, broken, done)
    && RowsPurged(rows, order[..done], rows') && ObjectsPurged(rows, objects, order[..done], objects')
  }

  lemma PurgedUpTo(rows: Rows, objects: map<Provider, Object>, order: seq<Provider>, broken: set<Provider>, n: nat)
    requires n <= |order| && (n < |order| ==> order[n] in broken && Touched(rows, order[n]))
    requires forall j :: 0 <= j < n ==> !(order[j] in broken && Touched(rows, order[j]))
    ensures Purged(rows, objects, order, broken, n, Swept(PurgeRun, rows, order[..n]),
                   Cleared(rows, objects, order[..n]))
  {
    SweepRetires(rows, order[..n]);
    assert ObjectsPurged(rows, objects, order[..n], Cleared(rows, objects, order[..n]));
  }

  lemma SweepRetires(rows: Rows, passed: seq<Provider>)
    ensures RowsPurged(rows, passed, Swept(PurgeRun, rows, passed))
  {
  }

  class FileStore {
    var present: bool   // whether the file has a record at all
    var status: FileStatus
    var rows: Rows
    var objects: map<Provider, Object>

    /** One compare-and-set of the replica repository. */
    method Write(p: Provider, w: Write) returns (hit: bool)
      modifies this`rows
      ensures hit == Hits(old(rows), p, w)
      ensures rows == Cas(old(rows), p, w)
      ensures hit ==> p in rows && rows == old(rows)[p := Row(old(rows)[p].role, Target(w))]
      ensures !hit ==> rows == old(rows)
    {
      hit := p in rows && Accepts(w, rows[p].status);
      if hit {
        rows := rows[p := rows[p].(status := Target(w))];
      }
    }

    /** The user-delete transaction: QUEUED rows become DELETED, all other live rows DELETING. */
    method DeleteTransaction(order: seq<Provider>)
      requires Lists(order, rows)
      modifies this`status, this`rows
      ensures rows == DeletedRows(old(rows)) && UserDeleted(old(rows), rows)
      ensures status == if old(status) == FileDeleted then FileDeleted else FileDeleting
    {
      if status != FileDeleted {
        status := FileDeleting;
      }
      ghost var before := rows;
      SweepNone(UserDelete, rows, order[..0]);
      for i := 0 to |order|
        invariant rows == Swept(UserDelete, before, order[..i])
        invariant status == if old(status) == FileDeleted then FileDeleted else FileDeleting
      {
        var p := order[i];
        assert order[..i + 1] == order[..i] + [p];
        SweepNext(UserDelete, before, order[..i], p);
        if rows[p].status == Queued {
          var _ := Write(p, MarkDeleted);
        } else if rows[p].status != Deleted {
          var _ := Write(p, MarkDeleting);
        }
      }
      assert order[..|order|] == order;
      DeleteSweep(before, order);
    }

    /** The transaction that quarantines an infected file and cancels its secondaries. */
    method InfectedTransaction(order: seq<Provider>)
      requires Lists(order, rows)
      modifies this`status, this`rows
      ensures status == Quarantined && rows == InfectedRows(old(rows)) && Cancelled(old(rows), rows)
    {
      status := Quarantined;
      ghost var before := rows;
      SweepNone(Infection, rows, order[..0]);
      for i := 0 to |order|
        invariant rows == Swept(Infection, before, order[..i]) && status == Quarantined
      {
        var p := order[i];
        assert order[..i + 1] == order[..i] + [p];
        SweepNext(Infection, before, order[..i], p);
        if rows[p].role == Secondary && rows[p].status != Deleted {
          var _ := Write(p, MarkDeleted);
        }
      }
      assert order[..|order|] == order;
      InfectionSweep(before, order);
    }

    /** The state of the file as the interleaved model sees it, with nobody else at work. */
    ghost function View(): State
      reads this
    {
      State(status, Clean, 0, None, rows, objects, map[], map[], 0, 0)
    }

    /** The loop of the purge handler: stops at the first driver that refuses. */
    method PurgeRows(order: seq<Provider>, broken: set<Provider>) returns (done: nat)
      requires Lists(order, rows)
      modifies this`rows, this`objects
      ensures done <= |order|
      ensures rows == Swept(PurgeRun, old(rows), order[..done])
      ensures objects == Cleared(old(rows), old(objects), order[..done])
      ensures forall j :: 0 <= j < done ==> !(order[j] in broken && Touched(old(rows), order[j]))
      ensures done < |order| ==> order[done] in broken && Touched(old(rows), order[done])
    {
      ghost var was, had := rows, objects;
      SweepNone(PurgeRun, rows, order[..0]);
      assert Cleared(was, had, order[..0]) == objects;
      for i := 0 to |order|
        invariant rows == Swept(PurgeRun, was, order[..i])
        invariant objects == Cleared(was, had, order[..i])
        invariant forall j :: 0 <= j < i ==> !(order[j] in broken && Touched(was, order[j]))
      {
        var p := order[i];
        assert order[..i + 1] == order[..i] + [p];
        SweepNext(PurgeRun, was, order[..i], p);
        ClearNext(was, had, order[..i], p);
        if rows[p].status == Deleted {
          continue;
        }
        if rows[p].status == Queued {
          var _ := Write(p, MarkDeleted);
          continue;
        }
        if p in broken {
          return i;
        }
        objects := objects - {p};
        var _ := Write(p, MarkDeleted);
      }
      return |order|;
    }

    /** The purge handler on its last attempt (`last`) or an earlier one; `broken` are the providers
        whose driver refuses to delete. It acknowledges exactly when the file is gone or DELETED, or
        no row is AVAILABLE or IN_PROGRESS and no driver it needs refuses; then nothing is left of
        the file but what lies behind rows that were QUEUED or DELETED already. Before its last attempt
        it touches nothing while a copy is in progress. Otherwise it goes through the rows before the
        first one whose driver is needed and refuses, at position `done`: it deletes their objects,
        except behind QUEUED and DELETED rows, and retires those that are QUEUED, FAILED or DELETING. It
        gives up for good exactly where a driver refuses on the last attempt. */
    method HandlePurge(order: seq<Provider>, last: bool, broken: set<Provider>) returns (o: Outcome, ghost done: nat)
      requires Lists(order, rows)
      modifies this
      ensures present == old(present)
      ensures o == Ack <==> !present || old(status) == FileDeleted || CanFinish(old(View()), broken)
      ensures !present || old(status) == FileDeleted ==> View() == old(View())
      ensures present && old(status) != FileDeleted ==> status == if o == Ack then FileDeleted else FileDeleting
      ensures present && old(status) != FileDeleted && o == Ack ==> View() == Finished(old(View()))
      ensures present && old(status) != FileDeleted && !last && Copying(old(rows)) ==>
        o == RetryLater && rows == old(rows) && objects == old(objects)
      ensures present && old(status) != FileDeleted && (last || !Copying(old(rows))) ==>
        && Purged(old(rows), old(objects), order, broken, done, rows, objects)
        && (o == GiveUpForGood <==> last && done < |order|)
    {
      done := 0;
      if !present || status == FileDeleted {
        return Ack, 0;
      }
      status := FileDeleting;
      if !last && exists p <- order :: rows[p].status == InProgress {
        return RetryLater, 0;
      }
      o, done := DeleteObjects(order, last, broken);
    }

    /** The handler from its loop on. */
    method DeleteObjects(order: seq<Provider>, last: bool, broken: set<Provider>) returns (o: Outcome, ghost done: nat)
      requires Lists(order, rows)
      modifies this`rows, this`objects, this`status
      ensures o == Ack <==> CanFinish(old(View()), broken)
      ensures status == if o == Ack then FileDeleted else old(status)
      ensures o == Ack ==> View() == Finished(old(View()))
      ensures Purged(old(rows), old(objects), order, broken, done, rows, objects)
      ensures o == GiveUpForGood <==> last && done < |order|
    {
      ghost var s := View();
      var n := PurgeRows(order, broken);
      PurgedUpTo(s.rows, s.objects, order, broken, n);
      done := n;
      if n < |order| {
        assert !CanFinish(s, broken);
        o := if last then GiveUpForGood else RetryLater;
        return;
      }
      assert order[..n] == order;
      LastCheck(s, order, broken);
      if exists p <- order :: rows[p].status != Deleted {
        return RetryLater, n;
      }
      status := FileDeleted;
      return Ack, n;
    }
  }

  // ---------------------------------------------------------------------------------
  // Per-tenant throttle of the replication worker

  function Max2(n: int): int {
    if n > 2 then n else 2
  }

  /** `active` counts the handlers of each tenant between entry and exit. */
  class TenantThrottle {
    const concurrency: int
    var active: map<string, nat>
    ghost var inside: multiset<string>

    ghost predicate Valid()
      reads this
    {
      && (forall t <- active :: active[t] > 0)
      && (forall t :: inside[t] == if t in active then active[t] else 0)
      && (forall t :: inside[t] <= if concurrency > 2 then concurrency else 2)
    }

    constructor (c: int)
      ensures Valid() && concurrency == c && inside == multiset{}
    {
      concurrency := c;
      active := map[];
      inside := multiset{};
    }

    /** Refuses exactly when the tenant already has the maximum number of handlers inside. */
    method Enter(tenant: string) returns (ok: bool)
      requires Valid()
      modifies this
      ensures Valid()
      ensures ok <==> old(inside)[tenant] < if concurrency > 2 then concurrency else 2
      ensures inside == if ok then old(inside) + multiset{tenant} else old(inside)
    {
      var count := if tenant in active then active[tenant] else 0;
      ok := count < Max2(concurrency);
      if ok {
        active := active[tenant := count + 1];
        inside := inside + multiset{tenant};
      }
    }

    /** The `finally` block of a handler that entered. */
    method Exit(tenant: string)
      requires Valid() && tenant in inside
      modifies this
      ensures Valid() && inside == old(inside) - multiset{tenant}
    {
      var current := if tenant in active then active[tenant] else 1;
      if current <= 1 {
        active := active - {tenant};
      } else {
        active := active[tenant := current - 1];
      }
      inside := inside - multiset{tenant};
    }
  }
}
