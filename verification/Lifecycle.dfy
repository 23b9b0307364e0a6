/** The life of one stored file: replication workers, user deletes, sweepers, purge workers
    and virus scans, interleaved in any order. Every statement or transaction on the database
    and every call of a storage driver is one atomic step. */
module Lifecycle {
  import opened Wrappers
  import opened ReplicaState

  datatype FileStatus = Active | Quarantined | FileDeleting | FileDeleted

  datatype ScanStatus = Skipped | NotNeeded | Pending | Clean | Infected | ScanError

  type Digest = string

  /** A stored object: its size, and the digest of the bytes where it has been computed. */
  datatype Object = Object(size: nat, digest: Option<Digest>)

  /** Where a replication handler stands. */
  datatype Pc =
    | GotFile      // read the file: ACTIVE and past the scan gate
    | Ready        // read the replica row: QUEUED
    | Claimed      // row claimed, nothing uploaded yet
    | Uploaded     // object written, digest not yet compared
    | Hashed       // digest compared (and recorded), size not yet checked
    | Verified     // size checked, file status not yet re-read
    | Rechecked    // file status re-read: still ACTIVE
    | Discarding   // bad copy: about to delete the object, then fail the row
    | Failing      // bad copy deleted: about to fail the row
    | Cleaning     // file no longer ACTIVE: about to delete the object
    | Cleaned      // object deleted: about to mark the row DELETED

  /** `sha` is the file digest as the handler read it at the start. */
  datatype Worker = Worker(target: Provider, sha: Option<Digest>, pc: Pc, computed: Option<Digest>)

  /** Where a purge handler stands; `snap` is the row list it read, `todo` what is left of it. */
  datatype Purge =
    | GotStatus(status: FileStatus)
    | Marked
    | Looping(snap: map<Provider, ReplicaStatus>, todo: set<Provider>)
    | ObjectGone(snap: map<Provider, ReplicaStatus>, todo: set<Provider>, p: Provider)
    | Confirmed

  datatype State = State(
    file: FileStatus,
    scan: ScanStatus,
    size: nat,
    sha: Option<Digest>,
    rows: Rows,
    objects: map<Provider, Object>,
    workers: map<nat, Worker>,
    purges: map<nat, Purge>,
    deleters: nat,   // user deletes that have read the file and not yet committed
    scans: nat       // scan handlers between their first read and their verdict
  )

  /** How the handler's catch block ends: the row is requeued, the row is failed, or the write
      itself fails and is swallowed. */
  datatype Aftermath = Requeued | GivenUp | Swallowed

  /** Actions of a replication handler after its first read. Every call it makes can also fail. */
  datatype WorkerAct =
    | ReadRow
    | ClaimRow
    | ClaimFails(o: Aftermath)
    | Abort(o: Aftermath)
    | Upload(obj: Object)
    | CompareDigest
    | CheckSize
    | Discard
    | DiscardFails
    | FailRow(written: bool)
    | Recheck
    | CleanObject
    | CleanFails
    | CleanRow
    | CleanRowFails(o: Aftermath)
    | CompleteRow
    | Fault(o: Aftermath)

  /** Actions of a purge handler after its first read. */
  datatype PurgeAct =
    | Mark
    | List(forced: bool)
    | Visit(p: Provider)
    | WriteDeleted
    | Confirm
    | Commit
    | GiveUp

  /** Everything else: first reads, user deletes, sweepers and scan verdicts. */
  datatype Act =
    | Start(w: nat, p: Provider)
    | PurgeStart(k: nat)
    | DeleteRead
    | DeleteCommit
    | SweepDelete
    | LeaseExpire(p: Provider)
    | AutoRedrive(p: Provider)
    | ScanStart
    | ScanClean
    | ScanInfected
    | ScanFailed
    | ScanRetry

  datatype Step = Work(w: nat, act: WorkerAct) | Purging(k: nat, pact: PurgeAct) | Do(a: Act)

  predicate PastGate(scan: ScanStatus) {
    scan == Clean || scan == Skipped || scan == NotNeeded
  }

  predicate AllDeleted(rows: Rows) {
    forall p <- rows :: rows[p].status == Deleted
  }

  /** Rows after the user-delete transaction. */
  function DeletedRows(rows: Rows): (r: Rows)
    ensures r.Keys == rows.Keys
    ensures forall p <- rows :: rows[p].status == Deleted ==> r[p] == rows[p]
  {
    map p <- rows ::
      rows[p].(status := CasStatus(rows[p].status, if rows[p].status == Queued then MarkDeleted else MarkDeleting))
  }

  /** Rows after the transaction that quarantines an infected file. */
  function InfectedRows(rows: Rows): (r: Rows)
    ensures r.Keys == rows.Keys
    ensures forall p <- rows :: rows[p].status == Deleted ==> r[p] == rows[p]
  {
    map p <- rows ::
      if rows[p].role == Secondary then rows[p].(status := CasStatus(rows[p].status, MarkDeleted)) else rows[p]
  }

  function Statuses(rows: Rows): map<Provider, ReplicaStatus> {
    map p <- rows :: rows[p].status
  }

  predicate DigestClash(w: Worker) {
    w.sha.Some? && w.computed.Some? && w.sha != w.computed
  }

  predicate CanWork(s: State, w: nat, a: WorkerAct) {
    w in s.workers &&
    match a
    case ReadRow => s.workers[w].pc == GotFile
    case ClaimRow => s.workers[w].pc == Ready
    case ClaimFails(_) => s.workers[w].pc == Ready
    case Abort(_) => s.workers[w].pc == Claimed
    case Upload(_) => s.workers[w].pc == Claimed
    case CompareDigest => s.workers[w].pc == Uploaded
    case CheckSize => s.workers[w].pc == Hashed
    case Discard => s.workers[w].pc == Discarding
    case DiscardFails => s.workers[w].pc == Discarding
    case FailRow(_) => s.workers[w].pc == Failing
    case Recheck => s.workers[w].pc == Verified
    case CleanObject => s.workers[w].pc == Cleaning
    case CleanFails => s.workers[w].pc == Cleaning
    case CleanRow => s.workers[w].pc == Cleaned
    case CleanRowFails(_) => s.workers[w].pc == Cleaned
    case CompleteRow => s.workers[w].pc == Rechecked
    case Fault(_) =>
      var pc := s.workers[w].pc;
      pc == Uploaded || pc == Hashed || pc == Verified || pc == Rechecked
  }

  /** What one action of a handler does to the provider it works on. */
  datatype Storage = Keep | Put(obj: Object) | Drop

  /** The effect of one action: where the handler goes (None: it ends), the write on its row, what
      happens to the object, and the file digest afterwards. */
  datatype Effect = Effect(next: Option<Worker>, write: Option<Write>, storage: Storage, sha: Option<Digest>)

  function Goes(k: Worker, pc: Pc): Option<Worker> {
    Some(k.(pc := pc))
  }

  /** The write of the catch block. */
  function Amends(o: Aftermath): Option<Write> {
    match o
    case Requeued => Some(Retry)
    case GivenUp => Some(Fail)
    case Swallowed => None
  }

  function EffectOf(s: State, w: nat, a: WorkerAct): Effect
    requires CanWork(s, w, a)
  {
    var k := s.workers[w];
    var p := k.target;
    match a
    case ReadRow =>
      Effect(if p in s.rows && s.rows[p].status == Queued then Goes(k, Ready) else None, None, Keep, s.sha)
    case ClaimRow =>
      if Hits(s.rows, p, Claim) then Effect(Goes(k, Claimed), Some(Claim), Keep, s.sha)
      else Effect(None, None, Keep, s.sha)
    case ClaimFails(o) =>
      // the claim throws: the catch block writes although this handler holds nothing
      Effect(None, Amends(o), Keep, s.sha)
    case Abort(o) =>
      // no source, driver not configured or upload failed: nothing was stored
      Effect(None, Amends(o), Keep, s.sha)
    case Upload(obj) =>
      Effect(Some(k.(pc := Uploaded, computed := obj.digest)), None, Put(obj), s.sha)
    case CompareDigest =>
      if DigestClash(k) then Effect(Goes(k, Discarding), None, Keep, s.sha)
      else Effect(Goes(k, Hashed), None, Keep, if k.sha.None? && k.computed.Some? then k.computed else s.sha)
    case CheckSize =>
      var ok := p in s.objects && s.objects[p].size == s.size;
      Effect(Goes(k, if ok then Verified else Discarding), None, Keep, s.sha)
    case Discard => Effect(Goes(k, Failing), None, Drop, s.sha)
    case DiscardFails => Effect(Goes(k, Failing), None, Keep, s.sha)
    case FailRow(written) => Effect(None, if written then Some(Fail) else None, Keep, s.sha)
    case Recheck => Effect(Goes(k, if s.file == Active then Rechecked else Cleaning), None, Keep, s.sha)
    case CleanObject => Effect(Goes(k, Cleaned), None, Drop, s.sha)
    case CleanFails => Effect(Goes(k, Cleaned), None, Keep, s.sha)
    case CleanRow => Effect(None, Some(MarkDeleted), Keep, s.sha)
    case CleanRowFails(o) => Effect(None, Amends(o), Keep, s.sha)
    case CompleteRow => Effect(None, Some(Complete), Keep, s.sha)
    case Fault(o) =>
      // a driver or database call after the upload throws: the object stays
      Effect(None, Amends(o), Keep, s.sha)
  }

  function Store(objects: map<Provider, Object>, p: Provider, x: Storage): map<Provider, Object> {
    match x
    case Keep => objects
    case Put(obj) => objects[p := obj]
    case Drop => objects - {p}
  }

  function WriteIf(rows: Rows, p: Provider, w: Option<Write>): (r: Rows)
    ensures r.Keys == rows.Keys
  {
    if w.Some? then Cas(rows, p, w.value) else rows
  }

  function Perform(s: State, w: nat, f: Effect): State
    requires w in s.workers
  {
    var p := s.workers[w].target;
    s.(workers := if f.next.Some? then s.workers[w := f.next.value] else s.workers - {w},
       rows := WriteIf(s.rows, p, f.write),
       objects := Store(s.objects, p, f.storage),
       sha := f.sha)
  }

  predicate CanPurge(s: State, k: nat, a: PurgeAct) {
    k in s.purges &&
    match a
    case Mark => s.purges[k].GotStatus?
    case List(_) => s.purges[k].Marked?
    case Visit(p) => s.purges[k].Looping? && p in s.purges[k].todo && p in s.purges[k].snap
    case WriteDeleted => s.purges[k].ObjectGone?
    case Confirm => s.purges[k].Looping? && s.purges[k].todo == {}
    case Commit => s.purges[k].Confirmed?
    case GiveUp => true
  }

  /** The effect of one action of a purge handler on provider `p`. */
  datatype PurgeEffect =
    PurgeEffect(next: Option<Purge>, file: FileStatus, p: Provider, write: Option<Write>, drop: bool)

  /** The handler moves on, or ends, and nothing else changes. */
  function Stay(s: State, next: Option<Purge>): PurgeEffect {
    PurgeEffect(next, s.file, Local, None, false)
  }

  function PurgeEffectOf(s: State, k: nat, a: PurgeAct): PurgeEffect
    requires CanPurge(s, k, a)
  {
    match a
    case Mark =>
      var behind := s.purges[k].status != FileDeleting && s.file != FileDeleted;
      PurgeEffect(Some(Marked), if behind then FileDeleting else s.file, Local, None, false)
    case List(forced) =>
      if !forced && exists p <- s.rows :: s.rows[p].status == InProgress then Stay(s, None)
      else Stay(s, Some(Looping(Statuses(s.rows), s.rows.Keys)))
    case Visit(p) =>
      var Looping(snap, todo) := s.purges[k];
      if snap[p] == Deleted then Stay(s, Some(Looping(snap, todo - {p})))
      else if snap[p] == Queued then PurgeEffect(Some(Looping(snap, todo - {p})), s.file, p, Some(MarkDeleted), false)
      else PurgeEffect(Some(ObjectGone(snap, todo - {p}, p)), s.file, p, None, true)
    case WriteDeleted =>
      var ObjectGone(snap, todo, p) := s.purges[k];
      PurgeEffect(Some(Looping(snap, todo)), s.file, p, Some(MarkDeleted), false)
    case Confirm => Stay(s, if AllDeleted(s.rows) then Some(Confirmed) else None)
    case Commit => PurgeEffect(None, FileDeleted, Local, None, false)
    case GiveUp => Stay(s, None)
  }

  function PerformPurge(s: State, k: nat, f: PurgeEffect): State {
    s.(purges := if f.next.Some? then s.purges[k := f.next.value] else s.purges - {k},
       file := f.file,
       rows := WriteIf(s.rows, f.p, f.write),
       objects := if f.drop then s.objects - {f.p} else s.objects)
  }

  predicate CanDo(s: State, a: Act) {
    match a
    case Start(w, p) => w !in s.workers && s.file == Active && PastGate(s.scan)
    case PurgeStart(k) => k !in s.purges && s.file != FileDeleted
    case DeleteRead => s.file != FileDeleting && s.file != FileDeleted
    case DeleteCommit => s.deleters > 0
    case SweepDelete => s.file != FileDeleting && s.file != FileDeleted
    case LeaseExpire(p) => p in s.rows && s.rows[p].status == InProgress
    case AutoRedrive(p) => p in s.rows && s.rows[p].status == Failed
    case ScanStart => s.file != FileDeleting && s.file != FileDeleted && s.scan != Clean && s.scan != Infected
    case ScanClean => s.scans > 0
    case ScanInfected => s.scans > 0
    case ScanFailed => s.scans > 0
    case ScanRetry => s.scans > 0
  }

  function Doing(s: State, a: Act): State
    requires CanDo(s, a)
  {
    match a
    case Start(w, p) => s.(workers := s.workers[w := Worker(p, s.sha, GotFile, None)])
    case PurgeStart(k) => s.(purges := s.purges[k := GotStatus(s.file)])
    case DeleteRead => s.(deleters := s.deleters + 1)
    case DeleteCommit =>
      s.(deleters := s.deleters - 1, rows := DeletedRows(s.rows),
         file := if s.file == FileDeleted then FileDeleted else FileDeleting)
    case SweepDelete => s.(file := FileDeleting)
    case LeaseExpire(p) => s.(rows := Cas(s.rows, p, Retry))
    case AutoRedrive(p) => s.(rows := Cas(s.rows, p, Redrive))
    case ScanStart => s.(scans := s.scans + 1)
    case ScanClean =>
      var t := s.(scans := s.scans - 1);
      if s.file == FileDeleting || s.file == FileDeleted then t else t.(scan := Clean)
    case ScanInfected =>
      s.(scans := s.scans - 1, file := Quarantined, scan := Infected, rows := InfectedRows(s.rows))
    case ScanFailed => s.(scans := s.scans - 1, scan := ScanError)
    case ScanRetry => s.(scans := s.scans - 1)
  }

  predicate Enabled(s: State, e: Step) {
    match e
    case Work(w, a) => CanWork(s, w, a)
    case Purging(k, a) => CanPurge(s, k, a)
    case Do(a) => CanDo(s, a)
  }

  function Apply(s: State, e: Step): State
    requires Enabled(s, e)
  {
    match e
    case Work(w, a) => Perform(s, w, EffectOf(s, w, a))
    case Purging(k, a) => PerformPurge(s, k, PurgeEffectOf(s, k, a))
    case Do(a) => Doing(s, a)
  }

  // ---------------------------------------------------------------------------------
  // Runs

  /** A run: every step is enabled when it is taken. */
  predicate Runs(s: State, es: seq<Step>)
    decreases es
  {
    es == [] || (Enabled(s, es[0]) && Runs(Apply(s, es[0]), es[1..]))
  }

  function After(s: State, es: seq<Step>): State
    requires Runs(s, es)
    decreases es
  {
    if es == [] then s else After(Apply(s, es[0]), es[1..])
  }

  /** Scan handlers of the file do not overlap, and exist only for a file that was stored
      with a pending scan (the scan command is enqueued for no other). */
  predicate OrderlyScan(s: State, e: Step) {
    e == Do(ScanStart) ==> s.scans == 0 && (s.scan == Pending || s.scan == ScanError)
  }

  /** Between a successful claim and the end of the handler. */
  predicate Holds(pc: Pc) {
    pc != GotFile && pc != Ready
  }

  predicate Holder(s: State, w: nat) {
    w in s.workers && Holds(s.workers[w].pc)
  }

  /** Some handler holds the row of `p`. */
  ghost predicate Held(s: State, p: Provider) {
    exists w :: Holder(s, w) && s.workers[w].target == p
  }

  /** No row is taken from the handler that holds it: neither by the expiry of its lease nor by the
      catch block of another handler whose claim has failed. */
  ghost predicate Steady(s: State, e: Step) {
    match e
    case Do(LeaseExpire(p)) => !Held(s, p)
    case Work(w, ClaimFails(o)) =>
      w in s.workers ==>
        var p := s.workers[w].target;
        !(Held(s, p) && Amends(o).Some? && Hits(s.rows, p, Amends(o).value))
    case _ => true
  }

  /** A call that fails while the handler has an object stored. */
  predicate Leaves(a: WorkerAct) {
    a.Fault? || a.DiscardFails? || a.CleanFails?
  }

  /** No row is taken from its holder, and no driver or database call fails after an upload. */
  ghost predicate Undisturbed(s: State, e: Step) {
    Steady(s, e) && !(e.Work? && Leaves(e.act))
  }

  predicate OrderlyScans(s: State, es: seq<Step>)
    requires Runs(s, es)
    decreases es
  {
    es == [] || (OrderlyScan(s, es[0]) && OrderlyScans(Apply(s, es[0]), es[1..]))
  }

  ghost predicate SteadyRun(s: State, es: seq<Step>)
    requires Runs(s, es)
    decreases es
  {
    es == [] || (Steady(s, es[0]) && SteadyRun(Apply(s, es[0]), es[1..]))
  }

  ghost predicate UndisturbedRun(s: State, es: seq<Step>)
    requires Runs(s, es)
    decreases es
  {
    es == [] || (Undisturbed(s, es[0]) && UndisturbedRun(Apply(s, es[0]), es[1..]))
  }

  /** A run leads from `s` to `t`; a strict one is undisturbed and has orderly scans. */
  ghost predicate Leads(s: State, t: State, strict: bool) {
    exists es :: Runs(s, es) && After(s, es) == t && (strict ==> OrderlyScans(s, es) && UndisturbedRun(s, es))
  }

  ghost predicate Reaches(s: State, t: State) {
    Leads(s, t, true)
  }

  lemma {:induction false} AppendStep(s: State, es: seq<Step>, e: Step)
    requires Runs(s, es) && Enabled(After(s, es), e)
    ensures Runs(s, es + [e]) && After(s, es + [e]) == Apply(After(s, es), e)
    ensures OrderlyScans(s, es) && OrderlyScan(After(s, es), e) ==> OrderlyScans(s, es + [e])
    ensures UndisturbedRun(s, es) && Undisturbed(After(s, es), e) ==> UndisturbedRun(s, es + [e])
    decreases es
  {
    if es == [] {
      assert es + [e] == [e];
    } else {
      assert (es + [e])[1..] == es[1..] + [e];
      AppendStep(Apply(s, es[0]), es[1..], e);
    }
  }

  lemma LeadSelf(s: State, strict: bool)
    ensures Leads(s, s, strict)
  {
    assert Runs(s, []) && After(s, []) == s;
  }

  lemma LeadNext(s: State, t: State, e: Step, strict: bool)
    requires Leads(s, t, strict) && Enabled(t, e) && (strict ==> OrderlyScan(t, e) && Undisturbed(t, e))
    ensures Leads(s, Apply(t, e), strict)
  {
    var es :| Runs(s, es) && After(s, es) == t && (strict ==> OrderlyScans(s, es) && UndisturbedRun(s, es));
    AppendStep(s, es, e);
  }

  lemma ReachNext(s: State, t: State, e: Step)
    requires Reaches(s, t) && Enabled(t, e) && OrderlyScan(t, e) && Undisturbed(t, e)
    ensures Reaches(s, Apply(t, e))
  {
    LeadNext(s, t, e, true);
  }

  /** A file as the upload transaction leaves it: ACTIVE, its primary stored and AVAILABLE,
      every secondary QUEUED. */
  predicate Init(s: State) {
    && s.file == Active
    && (s.scan == Skipped || s.scan == NotNeeded || s.scan == Pending)
    && (exists p :: p in s.rows && s.rows[p] == Row(Primary, Available) && s.objects == map[p := Object(s.size, s.sha)])
    && (forall p, q :: p in s.rows && q in s.rows && s.rows[p].role == Primary && s.rows[q].role == Primary ==> p == q)
    && (forall p <- s.rows :: s.rows[p].role == Secondary ==> s.rows[p].status == Queued)
    && s.workers == map[] && s.purges == map[] && s.deleters == 0 && s.scans == 0
  }
}
