/** Why the assumptions of the safety theorems cannot be dropped: one lease that expires under its
    handler, one failed claim, one failed call after an upload, or one overlapping scan is enough to
    leave an orphan, exactly for the files that have a secondary. */
module LifecycleLimits {
  import opened Wrappers
  import opened ReplicaState
  import opened Lifecycle
  import opened LifecycleSafety
  import opened LifecycleContents
  import opened LifecycleLiveness

  lemma Does(i: State, t: State, a: Act, t': State)
    requires Reaches(i, t) && CanDo(t, a) && OrderlyScan(t, Do(a)) && !a.LeaseExpire? && Doing(t, a) == t'
    ensures Reaches(i, t')
  {
    ReachNext(i, t, Do(a));
  }

  predicate Orphaned(t: State) {
    t.file == FileDeleted && t.workers == map[] && t.objects != map[]
  }

  /** One step that is not undisturbed or not orderly takes an otherwise regular run from `s` to an orphan. */
  ghost predicate OneStepOrphans(s: State, e: Step) {
    exists a, t :: Reaches(s, a) && Enabled(a, e) && Reaches(Apply(a, e), t) && Orphaned(t)
  }

  // ---------------------------------------------------------------------------------
  // Without a secondary nothing can be orphaned

  /** A purge handler knows no QUEUED row, and has deleted what it is about to retire. */
  predicate BarePurge(pc: Purge, objects: map<Provider, Object>) {
    && (pc.Looping? || pc.ObjectGone? ==> forall p <- pc.snap :: pc.snap[p] != Queued)
    && (pc.ObjectGone? ==> pc.p !in objects)
  }

  /** No handler gets past its first read, and no object is left behind a DELETED row. */
  ghost predicate Bare(s: State) {
    && !HasSecondary(s) && Final(s) && Shape(s)
    && (forall w <- s.workers :: s.workers[w].pc == GotFile)
    && (forall p <- s.rows :: s.rows[p].status == Deleted ==> p !in s.objects)
    && (forall k <- s.purges :: BarePurge(s.purges[k], s.objects))
  }

  lemma BareUnderPurge(s: State, k: nat, a: PurgeAct)
    requires Bare(s) && CanPurge(s, k, a)
    ensures Bare(PerformPurge(s, k, PurgeEffectOf(s, k, a)))
  {
    var s' := PerformPurge(s, k, PurgeEffectOf(s, k, a));
    FinalStep(s, Purging(k, a));
    DeletedIsAbsorbing(s, Purging(k, a));
    assert BarePurge(s.purges[k], s.objects);
    forall j | j in s'.purges ensures BarePurge(s'.purges[j], s'.objects) {
      if j != k { assert BarePurge(s.purges[j], s.objects); }
    }
  }

  lemma BareActRow(s: State, a: Act, p: Provider)
    requires CanDo(s, a) && Shape(s) && p in s.rows && s.rows[p].role == Primary
    ensures p in Doing(s, a).rows && Doing(s, a).rows[p].role == Primary
    ensures Retired(Doing(s, a).rows[p].status) || Doing(s, a).rows[p].status == Available
    ensures Doing(s, a).rows[p].status == Deleted ==> s.rows[p].status == Deleted
  {
  }

  lemma BareActRows(s: State, a: Act)
    requires CanDo(s, a) && Shape(s) && !HasSecondary(s)
    ensures Shape(Doing(s, a)) && Doing(s, a).objects == s.objects && Doing(s, a).rows.Keys == s.rows.Keys
    ensures forall p <- s.rows :: Doing(s, a).rows[p].status == Deleted ==> s.rows[p].status == Deleted
  {
    forall p | p in s.rows
      ensures p in Doing(s, a).rows && (Retired(Doing(s, a).rows[p].status) || Doing(s, a).rows[p].status == Available)
      ensures Doing(s, a).rows[p].status == Deleted ==> s.rows[p].status == Deleted
    {
      BareActRow(s, a, p);
    }
  }

  lemma BareUnderAct(s: State, a: Act)
    requires Bare(s) && CanDo(s, a)
    ensures Bare(Doing(s, a))
  {
    var s' := Doing(s, a);
    BareActRows(s, a);
    FinalStep(s, Do(a));
    DeletedIsAbsorbing(s, Do(a));
    forall j | j in s'.purges ensures BarePurge(s'.purges[j], s'.objects) {
      if j in s.purges { assert BarePurge(s.purges[j], s.objects); }
    }
  }

  lemma BareStep(s: State, e: Step)
    requires Bare(s) && Enabled(s, e)
    ensures Bare(Apply(s, e))
  {
    match e
    case Work(w, a) => FinalStep(s, e);
    case Purging(k, a) => BareUnderPurge(s, k, a);
    case Do(a) => BareUnderAct(s, a);
  }

  lemma {:induction false} BareRun(s: State, es: seq<Step>)
    requires Bare(s) && Runs(s, es)
    ensures Bare(After(s, es))
    decreases es
  {
    if es != [] {
      BareStep(s, es[0]);
      BareRun(Apply(s, es[0]), es[1..]);
    }
  }

  /** However disturbed a run is, a file without a secondary leaves no orphan. */
  lemma NoSecondaryNoOrphan(s: State, es: seq<Step>)
    requires Init(s) && !HasSecondary(s) && Runs(s, es)
    ensures !Orphaned(After(s, es))
  {
    BareRun(s, es);
  }

  lemma BareLeads(s: State, t: State)
    requires Bare(s) && Reaches(s, t)
    ensures Bare(t)
  {
    var es :| Runs(s, es) && After(s, es) == t;
    BareRun(s, es);
  }

  lemma NeedsSecondary(s: State, e: Step)
    requires Init(s) && OneStepOrphans(s, e)
    ensures HasSecondary(s)
  {
    if !HasSecondary(s) {
      var a, t :| Reaches(s, a) && Enabled(a, e) && Reaches(Apply(a, e), t) && Orphaned(t);
      BareLeads(s, a);
      BareStep(a, e);
      BareLeads(Apply(a, e), t);
      assert false;
    }
  }

  // ---------------------------------------------------------------------------------
  // A user delete and a purge, undisturbed

  lemma UserDeletes(i: State, s: State)
    requires Reaches(i, s) && (s.file == Active || s.file == Quarantined)
    ensures Reaches(i, Dropped(s))
  {
    Does(i, s, DeleteRead, s.(deleters := s.deleters + 1));
    Does(i, s.(deleters := s.deleters + 1), DeleteCommit, Dropped(s));
  }

  function Gone(s: State): State {
    Finished(Dropped(s))
  }

  /** What a provider stores behind a QUEUED or DELETED row survives a user delete and a purge. */
  lemma GoneKeeps(s: State, q: Provider)
    requires q in s.rows && (s.rows[q].status == Queued || s.rows[q].status == Deleted) && q in s.objects
    ensures q in Gone(s).objects
  {
    assert DeletedRows(s.rows)[q].status == Deleted;
    assert !Touched(Dropped(s).rows, q);
  }

  lemma DeleteAndPurge(i: State, s: State)
    requires Reaches(i, s) && (s.file == Active || s.file == Quarantined) && s.purges == map[]
    ensures Reaches(i, Gone(s))
  {
    UserDeletes(i, s);
    DroppedIsPurgeable(s.rows);
    PurgeFinishes(i, Dropped(s), 0, true);
  }

  // ---------------------------------------------------------------------------------

  /** A digest the first handler of the file accepts. */
  function Fitting(s: State): Digest {
    if s.sha.Some? then s.sha.value else "a"
  }

  /** The first handler has stored and hashed a copy on `q`. */
  lemma FirstCopy(i: State, s: State, q: Provider) returns (t: State)
    requires Waiting(i, s, q) && s.workers == map[]
    ensures Reaches(i, t) && t.purges == s.purges && t == s.(workers := t.workers, sha := t.sha,
      rows := s.rows[q := Row(Secondary, InProgress)], objects := s.objects[q := Object(s.size, Some(Fitting(s)))])
    ensures t.workers.Keys == {0} && t.workers[0].pc == Hashed && t.workers[0].target == q
  {
    var s1 := GetReady(i, s, q, 0);
    var obj := Object(s.size, Some(Fitting(s)));
    Copy(i, s1, q, 0, obj);
    t := Copied(s1, q, 0, obj);
  }

  lemma Orphans(s: State, a: State, e: Step, c: State, q: Provider)
    requires Reaches(s, a) && Enabled(a, e) && Reaches(Apply(a, e), c)
    requires (c.file == Active || c.file == Quarantined) && c.purges == map[] && c.workers == map[]
    requires q in c.rows && (c.rows[q].status == Queued || c.rows[q].status == Deleted) && q in c.objects
    ensures OneStepOrphans(s, e)
  {
    DeleteAndPurge(Apply(a, e), c);
    GoneKeeps(c, q);
    assert Orphaned(Gone(c));
  }

  function Freed(a: State, q: Provider): State
    requires q in a.rows
  {
    a.(workers := map[], rows := a.rows[q := a.rows[q].(status := Queued)])
  }

  lemma FaultRequeues(a: State, q: Provider)
    requires a.workers.Keys == {0} && a.workers[0].pc == Hashed && a.workers[0].target == q
    requires q in a.rows && a.rows[q] == Row(Secondary, InProgress)
    ensures CanWork(a, 0, Fault(Requeued)) && Perform(a, 0, EffectOf(a, 0, Fault(Requeued))) == Freed(a, q)
  {
  }

  /** A driver call that fails after the upload requeues the row and leaves the object behind. */
  lemma FaultOrphansExactly(s: State)
    requires Init(s)
    ensures OneStepOrphans(s, Work(0, Fault(Requeued))) <==> HasSecondary(s)
  {
    if HasSecondary(s) { FaultOrphans(s); }
    if OneStepOrphans(s, Work(0, Fault(Requeued))) { NeedsSecondary(s, Work(0, Fault(Requeued))); }
  }

  lemma FaultOrphans(s: State)
    requires Init(s) && HasSecondary(s)
    ensures OneStepOrphans(s, Work(0, Fault(Requeued)))
  {
    var q :| q in s.rows && s.rows[q].role == Secondary;
    var s0 := PassGate(s, q);
    var a := FirstCopy(s, s0, q);
    FaultRequeues(a, q);
    LeadSelf(Freed(a, q), true);
    Orphans(s, a, Work(0, Fault(Requeued)), Freed(a, q), q);
  }

  function Checked(a: State): State
    requires 0 in a.workers
  {
    a.(workers := a.workers[0 := a.workers[0].(pc := Rechecked)])
  }

  lemma RecheckCopy(i: State, a: State, q: Provider)
    requires Reaches(i, a) && 0 in a.workers && a.workers[0].pc == Hashed && a.workers[0].target == q
    requires a.file == Active && q in a.objects && a.objects[q].size == a.size
    ensures Reaches(i, Checked(a))
  {
    var k := a.workers[0];
    var f1 := Effect(Some(k.(pc := Verified)), None, Keep, a.sha);
    Worked(i, a, 0, CheckSize, f1);
    var a1 := Perform(a, 0, f1);
    var f2 := Effect(Some(k.(pc := Rechecked)), None, Keep, a.sha);
    Worked(i, a1, 0, Recheck, f2);
    assert Perform(a1, 0, f2).workers == Checked(a).workers;
  }

  /** The handler's completing write finds the row DELETED and does nothing. */
  lemma LateCompletion(i: State, d: State, q: Provider)
    requires Reaches(i, d) && d.workers.Keys == {0} && d.workers[0].pc == Rechecked && d.workers[0].target == q
    requires q in d.rows && d.rows[q].status == Deleted
    ensures Reaches(i, d.(workers := map[]))
  {
    var f := Effect(None, Some(Complete), Keep, d.sha);
    Worked(i, d, 0, CompleteRow, f);
    assert Perform(d, 0, f) == d.(workers := map[]);
  }

  lemma LeaseReleases(c: State, q: Provider)
    requires q in c.rows && c.rows[q].status == InProgress
    ensures CanDo(c, LeaseExpire(q))
    ensures Doing(c, LeaseExpire(q)) == c.(rows := c.rows[q := c.rows[q].(status := Queued)])
  {
  }

  /** One lease that expires under its handler is enough, for some provider, exactly where there is a
      secondary. */
  lemma LeaseExpiryOrphansExactly(s: State)
    requires Init(s)
    ensures (exists q :: OneStepOrphans(s, Do(LeaseExpire(q)))) <==> HasSecondary(s)
  {
    if q :| q in s.rows && s.rows[q].role == Secondary { LeaseExpiryOrphans(s, q); }
    if q :| OneStepOrphans(s, Do(LeaseExpire(q))) { NeedsSecondary(s, Do(LeaseExpire(q))); }
  }

  /** The lease expires under a handler that has re-checked the file, and a user delete follows: the
      requeued row is retired without touching storage and the handler's completion comes too late. */
  lemma LeaseExpiryOrphans(s: State, q: Provider)
    requires Init(s) && q in s.rows && s.rows[q].role == Secondary
    ensures OneStepOrphans(s, Do(LeaseExpire(q)))
  {
    var s0 := PassGate(s, q);
    var a := FirstCopy(s, s0, q);
    RecheckCopy(s, a, q);
    var c := Checked(a);
    LeaseReleases(c, q);
    var b := c.(rows := c.rows[q := c.rows[q].(status := Queued)]);
    AfterRelease(b, q);
    assert Reaches(s, c) && Enabled(c, Do(LeaseExpire(q))) && Apply(c, Do(LeaseExpire(q))) == b;
    var t := Finished(Dropped(b).(workers := map[]));
    assert Orphaned(t);
  }

  lemma AfterRelease(b: State, q: Provider)
    requires b.file == Active && b.purges == map[] && q in b.rows && b.rows[q].status == Queued && q in b.objects
    requires b.workers.Keys == {0} && b.workers[0].pc == Rechecked && b.workers[0].target == q
    ensures var t := Finished(Dropped(b).(workers := map[])); Reaches(b, t) && q in t.objects
  {
    LeadSelf(b, true);
    UserDeletes(b, b);
    LateCompletion(b, Dropped(b), q);
    var d := Dropped(b).(workers := map[]);
    assert q in Finished(d).objects by { GoneKeeps(b, q); assert ObjectsUpTo(d, {}) == ObjectsUpTo(Dropped(b), {}); }
    assert forall p <- d.rows :: Purgeable(d.rows[p].status) by { DroppedIsPurgeable(b.rows); }
    PurgeFinishes(b, d, 0, true);
  }

  /** Handler 0 has re-checked the file, and handler 1 is about to claim the same row. */
  lemma TwoAtWork(s: State, q: Provider) returns (c: State)
    requires Init(s) && q in s.rows && s.rows[q].role == Secondary
    ensures Reaches(s, c) && c.file == Active && PastGate(c.scan) && c.purges == map[]
    ensures q in c.rows && c.rows[q] == Row(Secondary, InProgress) && q in c.objects
    ensures c.workers.Keys == {0, 1} && c.workers[0].pc == Rechecked && c.workers[0].target == q
    ensures c.workers[1].pc == Ready && c.workers[1].target == q
  {
    var s0 := PassGate(s, q);
    var s1 := GetReady(s, s0, q, 0);
    var s2 := GetReady(s, s1, q, 1);
    var obj := Object(s2.size, Some(Fitting(s0)));
    Copy(s, s2, q, 0, obj);
    var a := Copied(s2, q, 0, obj);
    RecheckCopy(s, a, q);
    c := Checked(a);
  }

  /** The claim of handler 1 fails, and its catch block requeues the row of handler 0. */
  lemma FailedClaimReleases(c: State, q: Provider)
    requires c.workers.Keys == {0, 1} && c.workers[1].pc == Ready && c.workers[1].target == q
    requires q in c.rows && c.rows[q].status == InProgress
    ensures CanWork(c, 1, ClaimFails(Requeued))
    ensures Perform(c, 1, EffectOf(c, 1, ClaimFails(Requeued))) ==
      c.(workers := map[0 := c.workers[0]], rows := c.rows[q := c.rows[q].(status := Queued)])
  {
  }

  /** One failed claim on a row that another handler holds is enough for an orphan. */
  lemma FailedClaimOrphansExactly(s: State)
    requires Init(s)
    ensures OneStepOrphans(s, Work(1, ClaimFails(Requeued))) <==> HasSecondary(s)
  {
    var e := Work(1, ClaimFails(Requeued));
    if q :| q in s.rows && s.rows[q].role == Secondary { FailedClaimOrphans(s, q); }
    if OneStepOrphans(s, e) { NeedsSecondary(s, e); }
  }

  lemma FailedClaimOrphans(s: State, q: Provider)
    requires Init(s) && q in s.rows && s.rows[q].role == Secondary
    ensures OneStepOrphans(s, Work(1, ClaimFails(Requeued)))
  {
    var c := TwoAtWork(s, q);
    FailedClaimReleases(c, q);
    var b := c.(workers := map[0 := c.workers[0]], rows := c.rows[q := c.rows[q].(status := Queued)]);
    AfterRelease(b, q);
    assert Enabled(c, Work(1, ClaimFails(Requeued))) && Apply(c, Work(1, ClaimFails(Requeued))) == b;
    assert Orphaned(Finished(Dropped(b).(workers := map[])));
  }

  /** After such a failed claim a second handler gets hold of the row. */
  lemma FailedClaimLetsSecondIn(s: State) returns (c: State, t: State)
    requires Init(s) && HasSecondary(s)
    ensures Reaches(s, c) && Enabled(c, Work(1, ClaimFails(Requeued)))
    ensures Reaches(Apply(c, Work(1, ClaimFails(Requeued))), t)
    ensures Holder(t, 0) && Holder(t, 2) && t.workers[0].target == t.workers[2].target
  {
    var q :| q in s.rows && s.rows[q].role == Secondary;
    c := TwoAtWork(s, q);
    FailedClaimReleases(c, q);
    var b := Apply(c, Work(1, ClaimFails(Requeued)));
    t := SecondClaims(b, q);
  }

  lemma SecondClaims(b: State, q: Provider) returns (t: State)
    requires b.file == Active && PastGate(b.scan) && q in b.rows && b.rows[q].status == Queued
    requires b.workers.Keys == {0} && b.workers[0].pc == Rechecked && b.workers[0].target == q
    ensures Reaches(b, t) && Holder(t, 0) && Holder(t, 2) && t.workers[0].target == t.workers[2].target
  {
    LeadSelf(b, true);
    var k := Worker(q, b.sha, GotFile, None);
    var b1 := b.(workers := b.workers[2 := k]);
    Does(b, b, Start(2, q), b1);
    var f1 := Effect(Some(k.(pc := Ready)), None, Keep, b.sha);
    Worked(b, b1, 2, ReadRow, f1);
    var b2 := Perform(b1, 2, f1);
    var f2 := Effect(Some(k.(pc := Claimed)), Some(Claim), Keep, b.sha);
    Worked(b, b2, 2, ClaimRow, f2);
    t := Perform(b2, 2, f2);
  }

  lemma CompletedUnclaimed(b: State, q: Provider)
    requires 0 in b.workers && b.workers[0].pc == Rechecked && b.workers[0].target == q
    requires q in b.rows && b.rows[q].status == Queued
    ensures Enabled(b, Work(0, CompleteRow)) && CompletesQueued(b, Work(0, CompleteRow), q)
    ensures Apply(b, Work(0, CompleteRow)).rows[q].status == Available
  {
  }

  /** The completing write then takes a row from QUEUED to AVAILABLE, which the table forbids. */
  lemma QueuedRowCompleted(s: State) returns (b: State, q: Provider)
    requires Init(s) && HasSecondary(s)
    ensures Leads(s, b, false) && Enabled(b, Work(0, CompleteRow)) && CompletesQueued(b, Work(0, CompleteRow), q)
    ensures q in b.rows && Apply(b, Work(0, CompleteRow)).rows[q].status == Available
  {
    q :| q in s.rows && s.rows[q].role == Secondary;
    var c := TwoAtWork(s, q);
    FailedClaimReleases(c, q);
    b := c.(workers := map[0 := c.workers[0]], rows := c.rows[q := c.rows[q].(status := Queued)]);
    var es :| Runs(s, es) && After(s, es) == c;
    AppendStep(s, es, Work(1, ClaimFails(Requeued)));
    CompletedUnclaimed(b, q);
  }

  // ---------------------------------------------------------------------------------
  // Objects that cannot be deleted

  /** A bad copy that cannot be deleted outlives its redriven row. */
  lemma DiscardFailsOrphansExactly(s: State)
    requires Init(s)
    ensures OneStepOrphans(s, Work(0, DiscardFails)) <==> HasSecondary(s)
  {
    if q :| q in s.rows && s.rows[q].role == Secondary { DiscardFailsOrphans(s, q); }
    if OneStepOrphans(s, Work(0, DiscardFails)) { NeedsSecondary(s, Work(0, DiscardFails)); }
  }

  /** The first handler has found its copy to be of the wrong size. */
  lemma BadCopy(s: State, q: Provider) returns (a: State)
    requires Init(s) && q in s.rows && s.rows[q].role == Secondary
    ensures Reaches(s, a) && a.file == Active && a.purges == map[] && q in a.objects
    ensures q in a.rows && a.rows[q] == Row(Secondary, InProgress)
    ensures a.workers.Keys == {0} && a.workers[0].pc == Discarding && a.workers[0].target == q
  {
    var s0 := PassGate(s, q);
    var s1 := GetReady(s, s0, q, 0);
    var obj := Object(s1.size + 1, Some(Fitting(s0)));
    Copy(s, s1, q, 0, obj);
    var c := Copied(s1, q, 0, obj);
    var f := Effect(Some(c.workers[0].(pc := Discarding)), None, Keep, c.sha);
    Worked(s, c, 0, CheckSize, f);
    a := Perform(c, 0, f);
  }

  lemma DiscardFailsOrphans(s: State, q: Provider)
    requires Init(s) && q in s.rows && s.rows[q].role == Secondary
    ensures OneStepOrphans(s, Work(0, DiscardFails))
  {
    var a := BadCopy(s, q);
    var b := Apply(a, Work(0, DiscardFails));
    LeadSelf(b, true);
    var c := FailAndRedrive(b, b, q, 0);
    assert c.workers == map[];
    Orphans(s, a, Work(0, DiscardFails), c, q);
  }

  /** The object of a file that was deleted during the copy, which cannot be cleaned up, outlives it. */
  lemma CleanFailsOrphansExactly(s: State)
    requires Init(s)
    ensures OneStepOrphans(s, Work(0, CleanFails)) <==> HasSecondary(s)
  {
    if q :| q in s.rows && s.rows[q].role == Secondary { CleanFailsOrphans(s, q); }
    if OneStepOrphans(s, Work(0, CleanFails)) { NeedsSecondary(s, Work(0, CleanFails)); }
  }

  /** The state with the only handler moved to `pc`. */
  function Moved(d: State, pc: Pc): State
    requires 0 in d.workers
  {
    d.(workers := d.workers[0 := d.workers[0].(pc := pc)])
  }

  lemma Moves(i: State, d: State, a: WorkerAct, pc: Pc)
    requires Reaches(i, d) && CanWork(d, 0, a) && !Leaves(a) && !a.ClaimFails?
    requires EffectOf(d, 0, a) == Effect(Some(d.workers[0].(pc := pc)), None, Keep, d.sha)
    ensures Reaches(i, Moved(d, pc))
  {
    Worked(i, d, 0, a, EffectOf(d, 0, a));
  }

  /** The first handler has checked its copy. */
  lemma VerifiedCopy(s: State, q: Provider) returns (c: State)
    requires Init(s) && q in s.rows && s.rows[q].role == Secondary
    ensures Reaches(s, c) && c.file == Active && c.purges == map[] && q in c.objects
    ensures q in c.rows && c.rows[q] == Row(Secondary, InProgress)
    ensures c.workers.Keys == {0} && c.workers[0].pc == Verified && c.workers[0].target == q
  {
    var s0 := PassGate(s, q);
    var a := FirstCopy(s, s0, q);
    Moves(s, a, CheckSize, Verified);
    c := Moved(a, Verified);
  }

  /** The first handler has found the file deleted after its copy. */
  lemma CleaningCopy(s: State, q: Provider) returns (a: State)
    requires Init(s) && q in s.rows && s.rows[q].role == Secondary
    ensures Reaches(s, a) && a.file == FileDeleting && a.purges == map[] && q in a.objects
    ensures q in a.rows && a.rows[q].status == Deleting && forall p <- a.rows :: Purgeable(a.rows[p].status)
    ensures a.workers.Keys == {0} && a.workers[0].pc == Cleaning && a.workers[0].target == q
  {
    var c := VerifiedCopy(s, q);
    UserDeletes(s, c);
    DroppedIsPurgeable(c.rows);
    var d := Dropped(c);
    Moves(s, d, Recheck, Cleaning);
    a := Moved(d, Cleaning);
  }

  /** The handler cannot delete its object, and retires the row. */
  lemma CleanUpFails(a: State, q: Provider)
    requires a.workers.Keys == {0} && a.workers[0].pc == Cleaning && a.workers[0].target == q
    requires q in a.rows && a.rows[q].status == Deleting
    ensures Enabled(a, Work(0, CleanFails)) && Apply(a, Work(0, CleanFails)) == Moved(a, Cleaned)
    ensures Reaches(Moved(a, Cleaned), Struck(a, q))
  {
    var b := Moved(a, Cleaned);
    LeadSelf(b, true);
    var f := Effect(None, Some(MarkDeleted), Keep, b.sha);
    Worked(b, b, 0, CleanRow, f);
    assert Perform(b, 0, f) == Struck(a, q);
  }

  function Struck(a: State, q: Provider): State
    requires q in a.rows
  {
    a.(workers := map[], rows := a.rows[q := a.rows[q].(status := Deleted)])
  }

  lemma CleanFailsOrphans(s: State, q: Provider)
    requires Init(s) && q in s.rows && s.rows[q].role == Secondary
    ensures OneStepOrphans(s, Work(0, CleanFails))
  {
    var a := CleaningCopy(s, q);
    CleanUpFails(a, q);
    StruckOrphans(s, a, q);
  }

  lemma StruckOrphans(s: State, a: State, q: Provider)
    requires Reaches(s, a) && Enabled(a, Work(0, CleanFails)) && q in a.rows && q in a.objects
    requires Reaches(Apply(a, Work(0, CleanFails)), Struck(a, q)) && a.file == FileDeleting && a.purges == map[]
    requires forall p <- a.rows :: Purgeable(a.rows[p].status)
    ensures OneStepOrphans(s, Work(0, CleanFails))
  {
    var c := Struck(a, q);
    PurgeFinishes(Apply(a, Work(0, CleanFails)), c, 0, true);
    assert q in Finished(c).objects by { assert !Touched(c.rows, q); }
    assert Orphaned(Finished(c));
  }

  // ---------------------------------------------------------------------------------
  // Overlapping scans

  /** The file quarantined after a user delete. */
  function Condemned(c: State): State
    requires c.scans > 0
  {
    Doing(Dropped(c), ScanInfected)
  }

  lemma CondemnedFacts(c: State, q: Provider)
    requires c.scans > 0 && q in c.rows && c.rows[q] == Row(Secondary, Available)
    ensures var d := Condemned(c);
      && d.file == Quarantined && d.objects == c.objects && d.workers == c.workers && d.purges == c.purges
      && q in d.rows && d.rows[q].status == Deleted
  {
    assert DeletedRows(c.rows)[q] == Row(Secondary, Deleting);
  }

  lemma LateVerdict(i: State, c: State)
    requires Reaches(i, c) && c.file == Active && c.scans > 0
    ensures Reaches(i, Condemned(c))
  {
    UserDeletes(i, c);
    Does(i, Dropped(c), ScanInfected, Condemned(c));
  }

  /** The file is replicated after the CLEAN verdict of one scan, while the other is still running. */
  lemma CopyDuringScan(b: State, q: Provider) returns (c: State)
    requires b.file == Active && b.scans == 2 && b.workers == map[] && b.purges == map[]
    requires q in b.rows && b.rows[q] == Row(Secondary, Queued) && q !in b.objects
    ensures Reaches(b, c) && c.file == Active && c.scans == 1 && c.workers == map[] && c.purges == map[]
    ensures q in c.rows && c.rows[q] == Row(Secondary, Available) && q in c.objects
  {
    LeadSelf(b, true);
    var b1 := b.(scans := 1, scan := Clean);
    Does(b, b, ScanClean, b1);
    var c0 := FirstCopy(b, b1, q);
    c := FinishCopy(b, c0, q, 0);
    assert c.workers == map[];
  }

  /** Two scan handlers at once: one reports CLEAN, the file is replicated and deleted, and the
      other's verdict INFECTED retires the secondary's row although its object is still there. A scan
      of a file that was stored without a pending one does the same. */
  lemma ExtraScanOrphansExactly(s: State)
    requires Init(s)
    ensures OneStepOrphans(s, Do(ScanStart)) <==> HasSecondary(s)
  {
    if q :| q in s.rows && s.rows[q].role == Secondary {
      if s.scan == Pending { OverlappingScansOrphan(s, q); } else { UncalledScanOrphans(s, q); }
    }
    if OneStepOrphans(s, Do(ScanStart)) { NeedsSecondary(s, Do(ScanStart)); }
  }

  lemma OverlappingScansOrphan(s: State, q: Provider)
    requires Init(s) && q in s.rows && s.rows[q].role == Secondary && s.scan == Pending
    ensures OneStepOrphans(s, Do(ScanStart))
  {
    LeadSelf(s, true);
    Does(s, s, ScanStart, s.(scans := 1));
    var c := CopyDuringScan(s.(scans := 2), q);
    LateVerdict(s.(scans := 2), c);
    CondemnedFacts(c, q);
    Orphans(s, s.(scans := 1), Do(ScanStart), Condemned(c), q);
  }

  lemma UncalledScanOrphans(s: State, q: Provider)
    requires Init(s) && q in s.rows && s.rows[q].role == Secondary && s.scan != Pending
    ensures OneStepOrphans(s, Do(ScanStart))
  {
    LeadSelf(s, true);
    var c0 := FirstCopy(s, s, q);
    var a := FinishCopy(s, c0, q, 0);
    assert a.workers == map[];
    var c := a.(scans := a.scans + 1);
    LeadSelf(c, true);
    LateVerdict(c, c);
    CondemnedFacts(c, q);
    Orphans(s, a, Do(ScanStart), Condemned(c), q);
  }

  // ---------------------------------------------------------------------------------
  // When DELETED is final

  lemma {:induction false} DeletedStays(t: State, es: seq<Step>)
    requires t.file == FileDeleted && t.scans == 0 && Runs(t, es)
    ensures After(t, es).file == FileDeleted
    decreases es
  {
    if es != [] { DeletedStays(Apply(t, es[0]), es[1..]); }
  }

  lemma OneStepRun(t: State, e: Step)
    requires Enabled(t, e)
    ensures Runs(t, [e]) && After(t, [e]) == Apply(t, e)
  {
    assert [e][1..] == [] && Runs(Apply(t, e), []);
  }

  /** A DELETED file stays DELETED in every continuation if and only if no scan handler is between its
      first read and its verdict. */
  lemma DeletedIsFinalExactly(t: State)
    requires t.file == FileDeleted
    ensures (forall es | Runs(t, es) :: After(t, es).file == FileDeleted) <==> t.scans == 0
  {
    if t.scans == 0 {
      forall es | Runs(t, es) ensures After(t, es).file == FileDeleted { DeletedStays(t, es); }
    } else {
      OneStepRun(t, Do(ScanInfected));
      assert After(t, [Do(ScanInfected)]).file == Quarantined;
    }
  }

  /** DELETED is not final for the file: a verdict INFECTED that arrives after the purge moves the
      file back to QUARANTINED, even when scans do not overlap. */
  lemma VerdictRevivesFile(s: State) returns (t: State)
    requires Init(s) && s.scan == Pending
    ensures Reaches(s, t) && t.file == FileDeleted && CanDo(t, ScanInfected)
    ensures Reaches(s, Doing(t, ScanInfected)) && Doing(t, ScanInfected).file == Quarantined
  {
    LeadSelf(s, true);
    var a := s.(scans := 1);
    Does(s, s, ScanStart, a);
    DeleteAndPurge(s, a);
    t := Gone(a);
    Does(s, t, ScanInfected, Doing(t, ScanInfected));
  }
}
