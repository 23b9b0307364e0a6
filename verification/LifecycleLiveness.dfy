/** When a purge can finish, when it cannot, and what disturbed runs leave behind. */
module LifecycleLiveness {
  import opened Wrappers
  import opened ReplicaState
  import opened Lifecycle
  import opened LifecycleSafety

  // ---------------------------------------------------------------------------------
  // An AVAILABLE row blocks the purge for good

  ghost predicate Blocked(s: State, p: Provider) {
    && s.file == FileDeleting && s.deleters == 0 && s.scans == 0 && Final(s)
    && p in s.rows && s.rows[p].status == Available
  }

  /** Only the user-delete transaction moves a row out of AVAILABLE. */
  lemma AvailableStays(s: State, e: Step, p: Provider)
    requires Enabled(s, e) && e != Do(DeleteCommit) && p in s.rows && s.rows[p].status == Available
    ensures p in Apply(s, e).rows && Apply(s, e).rows[p] == s.rows[p]
  {
    match e
    case Work(w, a) =>
    case Purging(k, a) =>
    case Do(a) => ActKeepsAvailable(s, a, p);
  }

  lemma ActKeepsAvailable(s: State, a: Act, p: Provider)
    requires CanDo(s, a) && !a.DeleteCommit? && p in s.rows && s.rows[p].status == Available
    ensures p in Doing(s, a).rows && Doing(s, a).rows[p] == s.rows[p]
  {
  }

  lemma BlockedStep(s: State, e: Step, p: Provider)
    requires Blocked(s, p) && Enabled(s, e)
    ensures Blocked(Apply(s, e), p)
  {
    FinalStep(s, e);
    AvailableStays(s, e, p);
    assert !AllDeleted(s.rows);
  }

  lemma {:induction false} BlockedRun(s: State, es: seq<Step>, p: Provider)
    requires Blocked(s, p) && Runs(s, es)
    ensures Blocked(After(s, es), p)
    decreases es
  {
    if es != [] {
      BlockedStep(s, es[0], p);
      BlockedRun(Apply(s, es[0]), es[1..], p);
    }
  }

  // ---------------------------------------------------------------------------------
  // Without one, a purge handler left alone finishes

  /** A purge handler can retire the row: by the CAS alone, or after deleting the object. */
  predicate Purgeable(st: ReplicaStatus) {
    Idle(st) || st == Deleting
  }

  /** The handler deletes an object for such a row. */
  predicate Touched(rows: Rows, p: Provider) {
    p in rows && rows[p].status != Queued && rows[p].status != Deleted
  }

  function RowsUpTo(s: State, todo: set<Provider>): Rows {
    map q <- s.rows :: if q in todo then s.rows[q] else Row(s.rows[q].role, Deleted)
  }

  function ObjectsUpTo(s: State, todo: set<Provider>): map<Provider, Object> {
    map q <- s.objects | q in todo || !Touched(s.rows, q) :: s.objects[q]
  }

  /** Purge handler `k`, started from `s` and left alone, with `todo` still to visit. */
  function Underway(s: State, k: nat, todo: set<Provider>): State {
    s.(purges := s.purges[k := Looping(Statuses(s.rows), todo)],
       rows := RowsUpTo(s, todo), objects := ObjectsUpTo(s, todo))
  }

  function Finished(s: State): State {
    s.(file := FileDeleted, rows := RowsUpTo(s, {}), objects := ObjectsUpTo(s, {}))
  }

  lemma VisitQuick(s: State, k: nat, todo: set<Provider>, p: Provider)
    requires p in todo && p in s.rows && !Touched(s.rows, p)
    ensures var t := Underway(s, k, todo);
      CanPurge(t, k, Visit(p)) && PerformPurge(t, k, PurgeEffectOf(t, k, Visit(p))) == Underway(s, k, todo - {p})
  {
    var t := Underway(s, k, todo);
    var t' := PerformPurge(t, k, PurgeEffectOf(t, k, Visit(p)));
    assert t'.rows == RowsUpTo(s, todo - {p});
    assert t'.objects == ObjectsUpTo(s, todo - {p});
    assert t'.purges == Underway(s, k, todo - {p}).purges;
  }

  function Halfway(s: State, k: nat, todo: set<Provider>, p: Provider): State {
    s.(purges := s.purges[k := ObjectGone(Statuses(s.rows), todo - {p}, p)],
       rows := RowsUpTo(s, todo), objects := ObjectsUpTo(s, todo - {p}))
  }

  lemma VisitSlow(s: State, k: nat, todo: set<Provider>, p: Provider)
    requires p in todo && Touched(s.rows, p)
    ensures var t := Underway(s, k, todo);
      CanPurge(t, k, Visit(p)) && PerformPurge(t, k, PurgeEffectOf(t, k, Visit(p))) == Halfway(s, k, todo, p)
  {
    var t := Underway(s, k, todo);
    var t' := PerformPurge(t, k, PurgeEffectOf(t, k, Visit(p)));
    assert t'.objects == ObjectsUpTo(s, todo - {p});
    assert t'.purges == Halfway(s, k, todo, p).purges;
  }

  lemma WriteAfterVisit(s: State, k: nat, todo: set<Provider>, p: Provider)
    requires p in todo && p in s.rows && Purgeable(s.rows[p].status)
    ensures var t := Halfway(s, k, todo, p);
      && CanPurge(t, k, WriteDeleted)
      && PerformPurge(t, k, PurgeEffectOf(t, k, WriteDeleted)) == Underway(s, k, todo - {p})
  {
    var t := Halfway(s, k, todo, p);
    var t' := PerformPurge(t, k, PurgeEffectOf(t, k, WriteDeleted));
    assert t'.rows == RowsUpTo(s, todo - {p});
    assert t'.purges == Underway(s, k, todo - {p}).purges;
  }

  lemma {:induction false} PurgeLoop(i: State, s: State, k: nat, todo: set<Provider>, strict: bool)
    requires Leads(i, Underway(s, k, todo), strict) && todo <= s.rows.Keys
    requires forall p <- s.rows :: Purgeable(s.rows[p].status)
    ensures Leads(i, Underway(s, k, {}), strict)
    decreases todo
  {
    if todo != {} {
      var p :| p in todo;
      LeadNext(i, Underway(s, k, todo), Purging(k, Visit(p)), strict) by { Visits(s, k, todo, p); }
      if Touched(s.rows, p) {
        VisitSlow(s, k, todo, p);
        WriteAfterVisit(s, k, todo, p);
        LeadNext(i, Halfway(s, k, todo, p), Purging(k, WriteDeleted), strict);
      } else {
        VisitQuick(s, k, todo, p);
      }
      PurgeLoop(i, s, k, todo - {p}, strict);
    }
  }

  lemma Visits(s: State, k: nat, todo: set<Provider>, p: Provider)
    requires p in todo && p in s.rows
    ensures Enabled(Underway(s, k, todo), Purging(k, Visit(p)))
  {
  }

  /** A purge handler that no one disturbs retires every row and marks the file DELETED. */
  lemma PurgeFinishes(i: State, s: State, k: nat, strict: bool)
    requires Leads(i, s, strict) && s.file == FileDeleting && k !in s.purges
    requires forall p <- s.rows :: Purgeable(s.rows[p].status)
    ensures Leads(i, Finished(s), strict)
  {
    PurgeBegins(i, s, k, strict);
    PurgeLoop(i, s, k, s.rows.Keys, strict);
    PurgeEnds(i, s, k, strict);
  }

  lemma PurgeMoves(i: State, t: State, k: nat, a: PurgeAct, t': State, strict: bool)
    requires Leads(i, t, strict) && CanPurge(t, k, a) && PerformPurge(t, k, PurgeEffectOf(t, k, a)) == t'
    ensures Leads(i, t', strict)
  {
    LeadNext(i, t, Purging(k, a), strict);
  }

  function Marking(s: State, k: nat, pc: Purge): State {
    s.(purges := s.purges[k := pc])
  }

  lemma PurgeMarks(i: State, s: State, k: nat, strict: bool)
    requires Leads(i, s, strict) && s.file == FileDeleting && k !in s.purges
    ensures Leads(i, Marking(s, k, Marked), strict)
  {
    LeadNext(i, s, Do(PurgeStart(k)), strict);
    assert Apply(s, Do(PurgeStart(k))) == Marking(s, k, GotStatus(FileDeleting));
    PurgeMoves(i, Marking(s, k, GotStatus(FileDeleting)), k, Mark, Marking(s, k, Marked), strict);
  }

  lemma PurgeBegins(i: State, s: State, k: nat, strict: bool)
    requires Leads(i, s, strict) && s.file == FileDeleting && k !in s.purges
    ensures Leads(i, Underway(s, k, s.rows.Keys), strict)
  {
    PurgeMarks(i, s, k, strict);
    var t := Underway(s, k, s.rows.Keys);
    assert t.rows == s.rows && t.objects == s.objects;
    PurgeMoves(i, Marking(s, k, Marked), k, List(true), t, strict);
  }

  lemma PurgeEnds(i: State, s: State, k: nat, strict: bool)
    requires Leads(i, Underway(s, k, {}), strict) && k !in s.purges
    ensures Leads(i, Finished(s), strict)
  {
    var t := Underway(s, k, {});
    var t1 := t.(purges := s.purges[k := Confirmed]);
    PurgeMoves(i, t, k, Confirm, t1, strict);
    assert t1.purges - {k} == s.purges;
    PurgeMoves(i, t1, k, Commit, Finished(s), strict);
  }

  // ---------------------------------------------------------------------------------
  // Exactly when a file can still be purged

  function ClaimedRows(rows: Rows): set<Provider> {
    set p <- rows | rows[p].status == InProgress
  }

  function Released(rows: Rows): Rows {
    map p <- rows :: if rows[p].status == InProgress then rows[p].(status := Queued) else rows[p]
  }

  /** Leases expire on every claimed row. */
  lemma {:induction false} ExpireAll(i: State, s: State)
    requires Leads(i, s, false)
    ensures Leads(i, s.(rows := Released(s.rows)), false)
    decreases ClaimedRows(s.rows)
  {
    if ClaimedRows(s.rows) == {} {
      forall p | p in s.rows ensures s.rows[p].status != InProgress {
        assert p !in ClaimedRows(s.rows);
      }
      assert Released(s.rows) == s.rows;
    } else {
      var p :| p in ClaimedRows(s.rows);
      LeadNext(i, s, Do(LeaseExpire(p)), false);
      var rows := s.rows[p := s.rows[p].(status := Queued)];
      assert Apply(s, Do(LeaseExpire(p))) == s.(rows := rows);
      assert ClaimedRows(rows) == ClaimedRows(s.rows) - {p};
      assert Released(rows) == Released(s.rows);
      ExpireAll(i, s.(rows := rows));
    }
  }

  /** The file after a user delete. */
  function Dropped(s: State): State {
    s.(file := FileDeleting, rows := DeletedRows(s.rows))
  }

  lemma DroppedIsPurgeable(rows: Rows)
    ensures forall p <- rows :: Purgeable(DeletedRows(rows)[p].status)
  {
  }

  /** A purge handler finishes a file whose rows it can all retire. */
  lemma CanBePurged(i: State, s: State)
    requires Leads(i, s, false) && s.file == FileDeleting && forall p <- s.rows :: Purgeable(s.rows[p].status)
    ensures exists t :: Leads(i, t, false) && t.file == FileDeleted
  {
    var k := Fresh(s.purges);
    PurgeFinishes(i, s, k, false);
    assert Finished(s).file == FileDeleted;
  }

  /** A user delete that commits makes every row purgeable. */
  lemma CommitPurges(i: State, s: State)
    requires Leads(i, s, false) && s.deleters > 0 && s.file != FileDeleted
    ensures exists t :: Leads(i, t, false) && t.file == FileDeleted
  {
    LeadNext(i, s, Do(DeleteCommit), false);
    DroppedIsPurgeable(s.rows);
    CanBePurged(i, Apply(s, Do(DeleteCommit)));
  }

  /** A verdict INFECTED quarantines the file, which can then be deleted. */
  lemma VerdictPurges(i: State, s: State)
    requires Leads(i, s, false) && s.scans > 0
    ensures exists t :: Leads(i, t, false) && t.file == FileDeleted
  {
    var s1 := Apply(s, Do(ScanInfected));
    LeadNext(i, s, Do(ScanInfected), false);
    LeadNext(i, s1, Do(DeleteRead), false);
    CommitPurges(i, Apply(s1, Do(DeleteRead)));
  }

  /** A DELETING file can still become DELETED exactly when a user delete or a scan is under way or none
      of its rows is AVAILABLE. */
  lemma PurgeCompletesExactly(s: State)
    requires Final(s) && s.file == FileDeleting
    ensures (exists t :: Leads(s, t, false) && t.file == FileDeleted) <==>
      s.deleters > 0 || s.scans > 0 || forall p <- s.rows :: s.rows[p].status != Available
  {
    LeadSelf(s, false);
    if s.deleters > 0 {
      CommitPurges(s, s);
    } else if s.scans > 0 {
      VerdictPurges(s, s);
    } else if p :| p in s.rows && s.rows[p].status == Available {
      forall t | Leads(s, t, false) ensures t.file != FileDeleted {
        var es :| Runs(s, es) && After(s, es) == t;
        BlockedRun(s, es, p);
      }
    } else {
      ExpireAll(s, s);
      CanBePurged(s, s.(rows := Released(s.rows)));
    }
  }

  /** While the file is ACTIVE its primary row is AVAILABLE, in every run. */
  ghost predicate PrimaryUp(s: State) {
    s.file == Active ==> exists p :: p in s.rows && s.rows[p] == Row(Primary, Available)
  }

  lemma {:induction false} PrimaryUpRun(s: State, es: seq<Step>)
    requires PrimaryUp(s) && Runs(s, es)
    ensures PrimaryUp(After(s, es))
    decreases es
  {
    if es != [] {
      var s' := Apply(s, es[0]);
      if s'.file == Active {
        assert s.file == Active;
        var p :| p in s.rows && s.rows[p] == Row(Primary, Available);
        AvailableStays(s, es[0], p);
      }
      PrimaryUpRun(s', es[1..]);
    }
  }

  /** A sweeper marks the file DELETING and leaves the rows alone. */
  lemma SweptKeepsPrimary(s: State, es: seq<Step>, t: State) returns (p: Provider)
    requires Init(s) && Runs(s, es) && t == After(s, es) && t.file == Active
    ensures Final(Doing(t, SweepDelete)) && p in t.rows && t.rows[p].status == Available
  {
    PrimaryUpRun(s, es);
    FinalRun(s, es);
    FinalStep(t, Do(SweepDelete));
    p :| p in t.rows && t.rows[p] == Row(Primary, Available);
  }

  /** So a file that a sweeper deletes while it is ACTIVE can be purged exactly when a user delete or a
      scan is under way, whatever happens next. */
  lemma SweptFilePurgedExactly(s: State, es: seq<Step>, t: State)
    requires Init(s) && Runs(s, es) && t == After(s, es) && t.file == Active
    ensures (exists u :: Leads(Doing(t, SweepDelete), u, false) && u.file == FileDeleted) <==>
      t.deleters > 0 || t.scans > 0
  {
    var p := SweptKeepsPrimary(s, es, t);
    PurgeCompletesExactly(Doing(t, SweepDelete));
  }

  /** Otherwise it stays in DELETING for good. */
  lemma SweptFileNeverPurged(s: State, es: seq<Step>, t: State, fs: seq<Step>)
    requires Init(s) && Runs(s, es) && t == After(s, es) && t.file == Active && t.deleters == 0 && t.scans == 0
    requires Runs(Doing(t, SweepDelete), fs)
    ensures After(Doing(t, SweepDelete), fs).file == FileDeleting
  {
    var p := SweptKeepsPrimary(s, es, t);
    BlockedRun(Doing(t, SweepDelete), fs, p);
  }
}
