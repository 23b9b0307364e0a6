/** Replica statuses, the transition table, the compare-and-set writes of the replica
    repository and the aggregate replication status of a file. */
module ReplicaState {
  datatype Provider = Local | Seaweedfs | Cloudinary

  datatype Role = Primary | Secondary

  datatype ReplicaStatus = Queued | InProgress | Available | Failed | Deleting | Deleted

  datatype Row = Row(role: Role, status: ReplicaStatus)

  type Rows = map<Provider, Row>

  /** The transition table of the replica state machine. */
  predicate CanTransition(from: ReplicaStatus, to: ReplicaStatus) {
    match from
    case Queued => to == InProgress || to == Deleting || to == Deleted
    case InProgress => to == Available || to == Queued || to == Failed || to == Deleting
    case Available => to == Deleting
    case Failed => to == Queued || to == Deleting || to == Deleted
    case Deleting => to == Deleted
    case Deleted => false
  }

  // ---------------------------------------------------------------------------------
  // Compare-and-set writes: `Accepts` is the `where status in (...)` list of the statement,
  // `Target` the status it sets.

  datatype Write = Claim | Complete | Retry | Fail | Redrive | MarkDeleting | MarkDeleted

  predicate Accepts(w: Write, st: ReplicaStatus) {
    match w
    case Claim => st == Queued
    case Complete => st == InProgress || st == Queued
    case Retry => st == InProgress || st == Failed
    case Fail => st == InProgress
    case Redrive => st == Failed
    case MarkDeleting => st == Available || st == InProgress || st == Failed || st == Queued
    case MarkDeleted => st == Deleting || st == Queued || st == Failed
  }

  function Target(w: Write): ReplicaStatus {
    match w
    case Claim => InProgress
    case Complete => Available
    case Retry => Queued
    case Fail => Failed
    case Redrive => Queued
    case MarkDeleting => Deleting
    case MarkDeleted => Deleted
  }

  /** Whether the statement updates the row. */
  predicate Hits(rows: Rows, p: Provider, w: Write) {
    p in rows && Accepts(w, rows[p].status)
  }

  function CasStatus(st: ReplicaStatus, w: Write): ReplicaStatus {
    if Accepts(w, st) then Target(w) else st
  }

  function Cas(rows: Rows, p: Provider, w: Write): (r: Rows)
    ensures r.Keys == rows.Keys
    ensures forall q <- rows :: r[q].role == rows[q].role
    ensures forall q <- rows :: rows[q].status == Deleted ==> r[q] == rows[q]
  {
    if Hits(rows, p, w) then rows[p := rows[p].(status := Target(w))] else rows
  }

  /** The compare-and-set writes against the transition table: each accepts exactly the statuses from which
      the table allows its target, with two exceptions. `Complete` also accepts a QUEUED row, which the table
      forbids, and `Redrive` leaves IN_PROGRESS rows to `Retry`. */
  lemma CasFollowsTable(from: ReplicaStatus, w: Write)
    ensures Accepts(w, from) <==>
      || (CanTransition(from, Target(w)) && !(w == Redrive && from == InProgress))
      || (w == Complete && from == Queued)
  {
  }

  // ---------------------------------------------------------------------------------
  // Aggregate replication status

  datatype Aggregate = NotRequired | SyncQueued | Syncing | Synced | Partial | SyncFailed

  predicate Counts(r: Row) {
    r.role != Primary && r.status != Deleted && r.status != Deleting
  }

  /** The documented table, by the set of statuses that occur among the live secondaries. */
  function AggregateOf(seen: set<ReplicaStatus>): Aggregate {
    if seen == {} then NotRequired
    else if seen == {Available} then Synced
    else if seen == {Queued} then SyncQueued
    else if seen == {Failed} then SyncFailed
    else if seen == {Available, Failed} then Partial
    else Syncing
  }

  method DeriveReplicationStatus(rows: seq<Row>) returns (a: Aggregate)
    ensures a == AggregateOf(set r <- rows | Counts(r) :: r.status)
  {
    var secondaries: seq<ReplicaStatus> := [];
    for i := 0 to |rows|
      invariant forall st :: st in secondaries <==> exists r <- rows[..i] :: Counts(r) && r.status == st
      invariant forall st <- secondaries :: st != Deleted && st != Deleting
    {
      assert rows[..i + 1] == rows[..i] + [rows[i]];
      if Counts(rows[i]) {
        secondaries := secondaries + [rows[i].status];
      }
    }
    assert rows[..|rows|] == rows;
    ghost var seen := set r <- rows | Counts(r) :: r.status;
    assert forall st :: st in seen <==> st in secondaries;
    assert forall st <- seen :: st in {Queued, InProgress, Available, Failed};
    if |secondaries| == 0 {
      assert seen == {};
      return NotRequired;
    }
    assert secondaries[0] in seen;
    if forall st <- secondaries :: st == Available {
      assert seen == {Available};
      return Synced;
    }
    if forall st <- secondaries :: st == Queued {
      assert seen == {Queued};
      return SyncQueued;
    }
    if forall st <- secondaries :: st == Failed {
      assert seen == {Failed};
      return SyncFailed;
    }
    if exists st <- secondaries :: st == Queued || st == InProgress {
      return Syncing;
    }
    assert seen == {Available, Failed};
    return Partial;
  }
}
