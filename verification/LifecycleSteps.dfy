/** What each step of the life cycle changes, written out: the row and the object of one provider, the
    status of the file, its scan status and its digest. Everything a step does not name it leaves alone. */
module LifecycleSteps {
  import opened Wrappers
  import opened ReplicaState
  import opened Lifecycle

  /** The status of the row a replication handler works on, after one of its actions. */
  function StatusAfter(a: WorkerAct, st: ReplicaStatus): ReplicaStatus {
    match a
    case ClaimRow => if st == Queued then InProgress else st
    case CompleteRow => if st == InProgress || st == Queued then Available else st
    case CleanRow => if st == Queued || st == Failed || st == Deleting then Deleted else st
    case FailRow(written) => if written && st == InProgress then Failed else st
    case ClaimFails(o) => StatusAmended(o, st)
    case Abort(o) => StatusAmended(o, st)
    case Fault(o) => StatusAmended(o, st)
    case CleanRowFails(o) => StatusAmended(o, st)
    case _ => st
  }

  /** After a failure: requeued, failed for good, or left alone where that cannot be written either. */
  function StatusAmended(o: Aftermath, st: ReplicaStatus): ReplicaStatus {
    match o
    case Requeued => if st == InProgress || st == Failed then Queued else st
    case GivenUp => if st == InProgress then Failed else st
    case Swallowed => st
  }

  /** What the provider stores after the action. */
  function StoredAfter(a: WorkerAct, p: Provider, objects: map<Provider, Object>): map<Provider, Object> {
    match a
    case Upload(obj) => objects[p := obj]
    case Discard => objects - {p}
    case CleanObject => objects - {p}
    case _ => objects
  }

  /** Where the handler stands after the action; none where it has ended. */
  function PlaceAfter(a: WorkerAct, s: State, k: Worker): Option<Pc> {
    var p := k.target;
    match a
    case ReadRow => if p in s.rows && s.rows[p].status == Queued then Some(Ready) else None
    case ClaimRow => if p in s.rows && s.rows[p].status == Queued then Some(Claimed) else None
    case Upload(_) => Some(Uploaded)
    case CompareDigest =>
      if k.sha.Some? && k.computed.Some? && k.sha.value != k.computed.value then Some(Discarding) else Some(Hashed)
    case CheckSize => if p in s.objects && s.objects[p].size == s.size then Some(Verified) else Some(Discarding)
    case Recheck => if s.file == Active then Some(Rechecked) else Some(Cleaning)
    case Discard => Some(Failing)
    case DiscardFails => Some(Failing)
    case CleanObject => Some(Cleaned)
    case CleanFails => Some(Cleaned)
    case _ => None
  }

  /** An action of a replication handler changes the row of its provider as its statement says, stores or
      deletes the object there, moves or ends the handler, and records the digest only where the file
      had none when the handler began and the copy does not clash; nothing else changes. */
  lemma HandlerStepExactly(s: State, w: nat, a: WorkerAct, s': State)
    requires Enabled(s, Work(w, a)) && s' == Apply(s, Work(w, a))
    ensures var k := s.workers[w];
      && s'.rows.Keys == s.rows.Keys
      && (forall q <- s.rows :: s'.rows[q] ==
            if q == k.target then Row(s.rows[q].role, StatusAfter(a, s.rows[q].status)) else s.rows[q])
      && s'.objects == StoredAfter(a, k.target, s.objects)
      && (match PlaceAfter(a, s, k)
          case None => s'.workers == s.workers - {w}
          case Some(pc) =>
            s'.workers == s.workers[w := k.(pc := pc, computed := if a.Upload? then a.obj.digest else k.computed)])
      && s'.sha == (if a == CompareDigest && k.sha.None? && k.computed.Some? then k.computed else s.sha)
      && s'.file == s.file && s'.scan == s.scan && s'.size == s.size
      && s'.purges == s.purges && s'.deleters == s.deleters && s'.scans == s.scans
  {
    var k := s.workers[w];
    RowWritten(s, w, a);
    assert (a.CompareDigest? && DigestClash(k)) ==> k.sha.Some?;
  }

  lemma RowWritten(s: State, w: nat, a: WorkerAct)
    requires CanWork(s, w, a)
    ensures var s' := Perform(s, w, EffectOf(s, w, a));
      && s'.rows.Keys == s.rows.Keys
      && forall q <- s.rows :: s'.rows[q] ==
           if q == s.workers[w].target then Row(s.rows[q].role, StatusAfter(a, s.rows[q].status)) else s.rows[q]
  {
    var p := s.workers[w].target;
    if p in s.rows { WrittenAs(s, w, a, s.rows[p].status); }
  }

  /** The write of an action, as a change of status. */
  lemma WrittenAs(s: State, w: nat, a: WorkerAct, st: ReplicaStatus)
    requires CanWork(s, w, a) && s.workers[w].target in s.rows && s.rows[s.workers[w].target].status == st
    ensures var f := EffectOf(s, w, a);
      StatusAfter(a, st) == if f.write.Some? then CasStatus(st, f.write.value) else st
  {
  }

  /** The status of the file after a step. */
  function FileAfter(s: State, e: Step): FileStatus {
    match e
    case Work(_, _) => s.file
    case Purging(k, a) =>
      if a == Commit then FileDeleted
      else if a != Mark || s.file == FileDeleted || k !in s.purges || s.purges[k] == GotStatus(FileDeleting) then s.file
      else FileDeleting
    case Do(a) =>
      if a == ScanInfected then Quarantined
      else if a == SweepDelete || (a == DeleteCommit && s.file != FileDeleted) then FileDeleting
      else s.file
  }

  /** The scan status after a step: a verdict CLEAN is not recorded for a file that is being deleted. */
  function ScanAfter(s: State, e: Step): ScanStatus {
    if e == Do(ScanInfected) then Infected
    else if e == Do(ScanFailed) then ScanError
    else if e == Do(ScanClean) && s.file != FileDeleting && s.file != FileDeleted then Clean
    else s.scan
  }

  lemma FileStepExactly(s: State, e: Step, s': State)
    requires Enabled(s, e) && s' == Apply(s, e)
    ensures s'.file == FileAfter(s, e) && s'.scan == ScanAfter(s, e) && s'.size == s.size
  {
    match e
    case Work(_, _) =>
    case Purging(_, _) =>
    case Do(a) => ActOnFile(s, a);
  }

  lemma ActOnFile(s: State, a: Act)
    requires CanDo(s, a)
    ensures var s' := Doing(s, a);
      s'.file == FileAfter(s, Do(a)) && s'.scan == ScanAfter(s, Do(a)) && s'.size == s.size
  {
  }

  /** A scan handler starts, or ends with a verdict, an error or a retry. */
  function ScansAfter(n: nat, a: Act): int {
    match a
    case ScanStart => n + 1
    case ScanClean => n - 1
    case ScanInfected => n - 1
    case ScanFailed => n - 1
    case ScanRetry => n - 1
    case _ => n
  }

  lemma CountersExactly(s: State, a: Act, s': State)
    requires CanDo(s, a) && s' == Doing(s, a)
    ensures s'.scans == ScansAfter(s.scans, a)
    ensures s'.deleters == s.deleters + (if a == DeleteRead then 1 else if a == DeleteCommit then -1 else 0)
    ensures s'.objects == s.objects && s'.sha == s.sha
  {
  }

  /** What the purge handler has read of the row it visits decides: QUEUED rows are retired at once, DELETED
      ones passed over, and for all others the object is deleted first and the row retired after it. */
  lemma PurgeStepExactly(s: State, k: nat, a: PurgeAct, s': State)
    requires Enabled(s, Purging(k, a)) && s' == Apply(s, Purging(k, a))
    ensures var pc := s.purges[k];
      && s'.objects == s.objects -
           (if a.Visit? && pc.snap[a.p] != Queued && pc.snap[a.p] != Deleted then {a.p} else {})
      && s'.rows.Keys == s.rows.Keys
      && (forall q <- s.rows :: s'.rows[q] ==
            if (a == Visit(q) && pc.snap[q] == Queued) || (a == WriteDeleted && pc.p == q)
            then Row(s.rows[q].role, StatusAfter(CleanRow, s.rows[q].status)) else s.rows[q])
      && s'.workers == s.workers && s'.sha == s.sha
  {
  }

  /** A purge handler ends without a further step when a copy is in progress and it is not forced, when rows
      are left at its last check, or when it gives up; and its commit ends it. */
  lemma PurgeEndsExactly(s: State, k: nat, a: PurgeAct, s': State)
    requires Enabled(s, Purging(k, a)) && s' == Apply(s, Purging(k, a))
    ensures k !in s'.purges <==>
      || a == GiveUp || a == Commit
      || (a == List(false) && exists p :: p in s.rows && s.rows[p].status == InProgress)
      || (a == Confirm && exists p :: p in s.rows && s.rows[p].status != Deleted)
    ensures forall j <- s.purges :: j != k ==> j in s'.purges && s'.purges[j] == s.purges[j]
  {
  }

  /** An expired lease requeues an IN_PROGRESS row, a redrive a FAILED one; delete and verdict retire rows;
      every other step that is no handler's leaves them alone. */
  function ActedOn(a: Act, q: Provider, r: Row): ReplicaStatus {
    match a
    case LeaseExpire(p) => if p == q then Queued else r.status
    case AutoRedrive(p) => if p == q then Queued else r.status
    case DeleteCommit => if r.status == Queued || r.status == Deleted then Deleted else Deleting
    case ScanInfected =>
      if r.role == Secondary && r.status != InProgress && r.status != Available then Deleted else r.status
    case _ => r.status
  }

  lemma ActOnRows(s: State, a: Act, q: Provider)
    requires CanDo(s, a) && q in s.rows
    ensures q in Doing(s, a).rows && Doing(s, a).rows[q] == Row(s.rows[q].role, ActedOn(a, q, s.rows[q]))
  {
  }
}
