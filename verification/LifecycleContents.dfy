/** What an AVAILABLE row of an ACTIVE file says about the object behind it. */
module LifecycleContents {
  import opened Wrappers
  import opened ReplicaState
  import opened Lifecycle
  import opened LifecycleSafety

  /** The handler has uploaded and not deleted. */
  predicate Stored(pc: Pc) {
    pc == Uploaded || pc == Hashed || pc == Verified || pc == Rechecked
  }

  predicate SizeChecked(pc: Pc) {
    pc == Verified || pc == Rechecked
  }

  predicate RowSound(s: State, p: Provider)
    requires p in s.rows
  {
    s.rows[p].status == Available ==> p in s.objects && s.objects[p].size == s.size
  }

  predicate WorkerSound(s: State, k: Worker) {
    Stored(k.pc) ==>
      && k.target in s.objects
      && s.objects[k.target].digest == k.computed
      && (SizeChecked(k.pc) ==> s.objects[k.target].size == s.size)
  }

  ghost predicate Sound(s: State) {
    s.file == Active ==>
      && (forall p <- s.rows :: RowSound(s, p))
      && (forall w <- s.workers :: WorkerSound(s, s.workers[w]))
  }

  /** The handler's own row and object after one of its actions. */
  lemma TargetSound(s: State, w: nat, a: WorkerAct)
    requires CanWork(s, w, a) && !Leaves(a) && s.file == Active
    requires WorkerSound(s, s.workers[w])
    requires s.workers[w].target in s.rows ==> RowSound(s, s.workers[w].target)
    requires Holds(s.workers[w].pc) ==> HolderRow(s, s.workers[w].target)
    ensures var f := EffectOf(s, w, a); var s' := Perform(s, w, f);
      && (f.next.Some? ==> WorkerSound(s', f.next.value))
      && (s.workers[w].target in s'.rows ==> RowSound(s', s.workers[w].target))
  {
    if s.workers[w].target in s.rows { TargetRowSound(s, w, a); }
  }

  lemma TargetRowSound(s: State, w: nat, a: WorkerAct)
    requires CanWork(s, w, a) && !Leaves(a) && WorkerSound(s, s.workers[w])
    requires s.workers[w].target in s.rows && RowSound(s, s.workers[w].target)
    requires Holds(s.workers[w].pc) ==> HolderRow(s, s.workers[w].target)
    requires s.file == Active
    ensures RowSound(Perform(s, w, EffectOf(s, w, a)), s.workers[w].target)
  {
    MadeAvailable(s, w, a, EffectOf(s, w, a));
  }

  /** A row is AVAILABLE after an action only if it was and the object stayed, or the handler has
      completed it. */
  lemma MadeAvailable(s: State, w: nat, a: WorkerAct, f: Effect)
    requires CanWork(s, w, a) && !Leaves(a) && s.file == Active && f == EffectOf(s, w, a)
    requires s.workers[w].target in s.rows
    requires Holds(s.workers[w].pc) ==> HolderRow(s, s.workers[w].target)
    ensures var p := s.workers[w].target;
      Perform(s, w, f).rows[p].status == Available ==>
        (a.CompleteRow? || s.rows[p].status == Available) && f.storage.Keep?
  {
  }

  lemma SoundUnderWork(s: State, w: nat, a: WorkerAct)
    requires OneHolder(s) && Sound(s) && CanWork(s, w, a) && Undisturbed(s, Work(w, a))
    ensures Sound(Perform(s, w, EffectOf(s, w, a)))
  {
    EffectFits(s, w, a);
    if s.file == Active {
      assert Holds(s.workers[w].pc) ==> Holder(s, w);
      TargetSound(s, w, a);
      OthersSound(s, w, EffectOf(s, w, a));
    }
  }

  lemma OthersSound(s: State, w: nat, f: Effect)
    requires w in s.workers && Fits(s, w, f) && OneHolder(s) && Sound(s) && s.file == Active
    ensures var s' := Perform(s, w, f);
      && (forall q <- s'.rows :: q != s.workers[w].target ==> RowSound(s', q))
      && (forall v <- s'.workers :: v != w ==> WorkerSound(s', s'.workers[v]))
  {
    var s' := Perform(s, w, f);
    forall q | q in s'.rows && q != s.workers[w].target ensures RowSound(s', q) { assert RowSound(s, q); }
    forall v | v in s'.workers && v != w ensures WorkerSound(s', s'.workers[v]) {
      assert WorkerSound(s, s.workers[v]);
      assert Holds(s.workers[v].pc) ==> Holder(s, v);
      assert Holds(s.workers[w].pc) ==> Holder(s, w);
    }
  }

  /** Purge handlers reach the storage only once the file is not ACTIVE. */
  lemma SoundUnderPurge(s: State, k: nat, a: PurgeAct)
    requires PurgesOk(s) && Sound(s) && CanPurge(s, k, a)
    ensures Sound(PerformPurge(s, k, PurgeEffectOf(s, k, a)))
  {
    var s' := PerformPurge(s, k, PurgeEffectOf(s, k, a));
    assert PurgeOk(s, s.purges[k]);
    if s'.file == Active {
      forall q | q in s'.rows ensures RowSound(s', q) { assert RowSound(s, q); }
      forall v | v in s'.workers ensures WorkerSound(s', s'.workers[v]) { assert WorkerSound(s, s.workers[v]); }
    }
  }

  lemma SoundUnderAct(s: State, a: Act)
    requires Sound(s) && CanDo(s, a)
    ensures Sound(Doing(s, a))
  {
    var s' := Doing(s, a);
    if s'.file == Active {
      forall q | q in s'.rows ensures RowSound(s', q) { assert RowSound(s, q); }
      forall v | v in s'.workers ensures WorkerSound(s', s'.workers[v]) {
        if v in s.workers { assert WorkerSound(s, s.workers[v]); }
      }
    }
  }

  lemma {:induction false} SoundRun(s: State, es: seq<Step>)
    requires Inv(s) && Sound(s) && Runs(s, es) && OrderlyScans(s, es) && UndisturbedRun(s, es)
    ensures Sound(After(s, es))
    decreases es
  {
    if es != [] {
      InvStep(s, es[0]);
      match es[0] {
        case Work(w, a) => SoundUnderWork(s, w, a);
        case Purging(k, a) => SoundUnderPurge(s, k, a);
        case Do(a) => SoundUnderAct(s, a);
      }
      SoundRun(Apply(s, es[0]), es[1..]);
    }
  }

  /** While the file is ACTIVE, an AVAILABLE row means its provider stores an object of exactly the
      recorded size. */
  lemma AvailableIsStored(s: State, es: seq<Step>, p: Provider)
    requires Init(s) && Runs(s, es) && OrderlyScans(s, es) && UndisturbedRun(s, es)
    requires var t := After(s, es); t.file == Active && p in t.rows && t.rows[p].status == Available
    ensures var t := After(s, es); p in t.objects && t.objects[p].size == t.size
  {
    InitInv(s);
    SoundRun(s, es);
    assert RowSound(After(s, es), p);
  }

  // ---------------------------------------------------------------------------------
  // Digests

  predicate Agrees(d: Option<Digest>, sha: Option<Digest>) {
    d.Some? && sha.Some? ==> d == sha
  }

  /** Wherever both are known, stored and recorded digest agree. */
  ghost predicate DigestsAgree(s: State) {
    s.file == Active ==>
      forall p <- s.rows :: RowAgrees(s, p)
  }

  predicate WorkerAgrees(s: State, k: Worker) {
    && k.sha == s.sha
    && (k.pc == Hashed || SizeChecked(k.pc) ==> Agrees(k.computed, s.sha))
  }

  ghost predicate Recorded(s: State) {
    s.sha.Some? && DigestsAgree(s) && forall w <- s.workers :: WorkerAgrees(s, s.workers[w])
  }

  predicate RowAgrees(s: State, p: Provider)
    requires p in s.rows
  {
    s.rows[p].status == Available && p in s.objects ==> Agrees(s.objects[p].digest, s.sha)
  }

  lemma TargetAgrees(s: State, w: nat, a: WorkerAct)
    requires CanWork(s, w, a) && !Leaves(a) && s.sha.Some?
    requires WorkerAgrees(s, s.workers[w])
    ensures var f := EffectOf(s, w, a); var s' := Perform(s, w, f);
      s'.sha == s.sha && (f.next.Some? ==> WorkerAgrees(s', f.next.value))
  {
  }

  lemma TargetRowAgrees(s: State, w: nat, a: WorkerAct)
    requires CanWork(s, w, a) && !Leaves(a) && s.sha.Some? && s.file == Active
    requires WorkerAgrees(s, s.workers[w]) && WorkerSound(s, s.workers[w])
    requires s.workers[w].target in s.rows && RowAgrees(s, s.workers[w].target)
    requires Holds(s.workers[w].pc) ==> HolderRow(s, s.workers[w].target)
    ensures RowAgrees(Perform(s, w, EffectOf(s, w, a)), s.workers[w].target)
  {
    TargetAgrees(s, w, a);
    MadeAvailable(s, w, a, EffectOf(s, w, a));
  }

  lemma RecordedUnderWork(s: State, w: nat, a: WorkerAct)
    requires OneHolder(s) && Sound(s) && Recorded(s) && CanWork(s, w, a) && Undisturbed(s, Work(w, a))
    ensures Recorded(Perform(s, w, EffectOf(s, w, a)))
  {
    var s' := Perform(s, w, EffectOf(s, w, a));
    TargetAgrees(s, w, a);
    forall v | v in s'.workers ensures WorkerAgrees(s', s'.workers[v]) {
      if v != w { assert WorkerAgrees(s, s.workers[v]); }
    }
    if s.file == Active {
      assert Holds(s.workers[w].pc) ==> Holder(s, w);
      forall q | q in s'.rows ensures RowAgrees(s', q) {
        assert RowAgrees(s, q);
        if q == s.workers[w].target { TargetRowAgrees(s, w, a); }
      }
    }
  }

  lemma {:induction false} RecordedRun(s: State, es: seq<Step>)
    requires Inv(s) && Sound(s) && Recorded(s) && Runs(s, es) && OrderlyScans(s, es) && UndisturbedRun(s, es)
    ensures Recorded(After(s, es))
    decreases es
  {
    if es != [] {
      RecordedStep(s, es[0]);
      RecordedRun(Apply(s, es[0]), es[1..]);
    }
  }

  lemma RecordedUnderAct(s: State, a: Act)
    requires Recorded(s) && CanDo(s, a)
    ensures Recorded(Doing(s, a))
  {
    var s' := Doing(s, a);
    forall v | v in s'.workers ensures WorkerAgrees(s', s'.workers[v]) {
      if v in s.workers { assert WorkerAgrees(s, s.workers[v]); }
    }
  }

  lemma RecordedUnderPurge(s: State, k: nat, a: PurgeAct)
    requires Recorded(s) && CanPurge(s, k, a)
    ensures Recorded(PerformPurge(s, k, PurgeEffectOf(s, k, a)))
  {
    var s' := PerformPurge(s, k, PurgeEffectOf(s, k, a));
    forall v | v in s'.workers ensures WorkerAgrees(s', s'.workers[v]) { assert WorkerAgrees(s, s.workers[v]); }
  }

  lemma RecordedStep(s: State, e: Step)
    requires Inv(s) && Sound(s) && Recorded(s) && Enabled(s, e) && OrderlyScan(s, e) && Undisturbed(s, e)
    ensures Inv(Apply(s, e)) && Sound(Apply(s, e)) && Recorded(Apply(s, e))
  {
    InvStep(s, e);
    match e
    case Work(w, a) => SoundUnderWork(s, w, a); RecordedUnderWork(s, w, a);
    case Purging(k, a) => SoundUnderPurge(s, k, a); RecordedUnderPurge(s, k, a);
    case Do(a) => SoundUnderAct(s, a); RecordedUnderAct(s, a);
  }

  predicate HasSecondary(s: State) {
    exists p :: p in s.rows && s.rows[p].role == Secondary
  }

  /** Without a secondary no handler ever holds a row, so nothing is copied or recorded. */
  lemma {:induction false} NothingCopied(s: State, es: seq<Step>)
    requires Inv(s) && Runs(s, es) && OrderlyScans(s, es) && UndisturbedRun(s, es) && !HasSecondary(s)
    ensures After(s, es).sha == s.sha
    decreases es
  {
    if es != [] {
      InvStep(s, es[0]);
      DeletedIsAbsorbing(s, es[0]);
      assert forall w :: !Holder(s, w);
      assert Apply(s, es[0]).sha == s.sha;
      NothingCopied(Apply(s, es[0]), es[1..]);
    }
  }

  lemma DigestsAgreeIf(s: State, t: State)
    requires Init(s) && Reaches(s, t) && (s.sha.Some? || !HasSecondary(s))
    ensures DigestsAgree(t)
  {
    var es :| Runs(s, es) && OrderlyScans(s, es) && UndisturbedRun(s, es) && After(s, es) == t;
    InitInv(s);
    if s.sha.Some? { RecordedRun(s, es); } else { NothingCopied(s, es); }
  }

  /** A file whose digest is not recorded yet, with an idle secondary `q` and handlers ready on it. */
  ghost predicate Waiting(i: State, s: State, q: Provider) {
    && Reaches(i, s) && s.file == Active && PastGate(s.scan)
    && q in s.rows && s.rows[q] == Row(Secondary, Queued) && q !in s.objects
  }

  ghost predicate ReadyAt(s: State, w: nat, q: Provider, sha: Option<Digest>) {
    w in s.workers && s.workers[w] == Worker(q, sha, Ready, None)
  }

  lemma Worked(i: State, s: State, w: nat, a: WorkerAct, f: Effect)
    requires Reaches(i, s) && CanWork(s, w, a) && !Leaves(a) && !a.ClaimFails? && EffectOf(s, w, a) == f
    ensures Reaches(i, Perform(s, w, f))
  {
    ReachNext(i, s, Work(w, a));
  }

  lemma GetReady(i: State, s: State, q: Provider, w: nat) returns (t: State)
    requires Waiting(i, s, q) && w !in s.workers
    ensures Waiting(i, t, q) && t == s.(workers := s.workers[w := Worker(q, s.sha, Ready, None)])
  {
    var s1 := Apply(s, Do(Start(w, q)));
    ReachNext(i, s, Do(Start(w, q)));
    t := Apply(s1, Work(w, ReadRow));
    ReachNext(i, s1, Work(w, ReadRow));
  }

  /** Row `q` claimed, `obj` stored for it and its digest compared by handler `w`. */
  function Copied(s: State, q: Provider, w: nat, obj: Object): State
    requires w in s.workers
  {
    s.(rows := s.rows[q := Row(Secondary, InProgress)], objects := s.objects[q := obj],
       workers := s.workers[w := Worker(q, s.workers[w].sha, Hashed, obj.digest)],
       sha := if s.workers[w].sha.None? then obj.digest else s.sha)
  }

  lemma Copy(i: State, s: State, q: Provider, w: nat, obj: Object)
    requires Waiting(i, s, q) && w in s.workers && ReadyAt(s, w, q, s.workers[w].sha) && obj.digest.Some?
    requires s.workers[w].sha.None? || s.workers[w].sha == obj.digest
    ensures Reaches(i, Copied(s, q, w, obj))
  {
    var k := s.workers[w];
    var f1 := Effect(Some(k.(pc := Claimed)), Some(Claim), Keep, s.sha);
    Worked(i, s, w, ClaimRow, f1);
    var s1 := Perform(s, w, f1);
    var f2 := Effect(Some(k.(pc := Uploaded, computed := obj.digest)), None, Put(obj), s.sha);
    Worked(i, s1, w, Upload(obj), f2);
    var s2 := Perform(s1, w, f2);
    var sha := if k.sha.None? then obj.digest else s.sha;
    var f3 := Effect(Some(k.(pc := Hashed, computed := obj.digest)), None, Keep, sha);
    Worked(i, s2, w, CompareDigest, f3);
    assert Perform(s2, w, f3).workers == Copied(s, q, w, obj).workers;
  }

  lemma DiscardCopy(i: State, s: State, q: Provider, w: nat) returns (t: State)
    requires Reaches(i, s) && w in s.workers && s.workers[w].pc == Hashed && s.workers[w].target == q
    requires q in s.objects && s.objects[q].size != s.size
    ensures Reaches(i, t)
    ensures t == s.(workers := s.workers[w := s.workers[w].(pc := Failing)], objects := s.objects - {q})
  {
    var k := s.workers[w];
    var f1 := Effect(Some(k.(pc := Discarding)), None, Keep, s.sha);
    Worked(i, s, w, CheckSize, f1);
    var f2 := Effect(Some(k.(pc := Failing)), None, Drop, s.sha);
    Worked(i, Perform(s, w, f1), w, Discard, f2);
    t := Perform(Perform(s, w, f1), w, f2);
    assert t.workers == s.workers[w := s.workers[w].(pc := Failing)];
  }

  lemma FailAndRedrive(i: State, s: State, q: Provider, w: nat) returns (t: State)
    requires Reaches(i, s) && w in s.workers && s.workers[w].pc == Failing && s.workers[w].target == q
    requires q in s.rows && s.rows[q] == Row(Secondary, InProgress)
    ensures Reaches(i, t) && t == s.(workers := s.workers - {w}, rows := s.rows[q := Row(Secondary, Queued)])
  {
    var f1 := Effect(None, Some(Fail), Keep, s.sha);
    Worked(i, s, w, FailRow(true), f1);
    var s1 := Perform(s, w, f1);
    t := Apply(s1, Do(AutoRedrive(q)));
    ReachNext(i, s1, Do(AutoRedrive(q)));
    assert t.rows == s.rows[q := Row(Secondary, Queued)];
  }

  /** A copy of the wrong size records its digest before it is discarded and redriven. */
  lemma FailedCopy(i: State, s: State, q: Provider, w: nat, d: Digest) returns (t: State)
    requires Waiting(i, s, q) && ReadyAt(s, w, q, None)
    ensures Waiting(i, t, q) && t == s.(workers := s.workers - {w}, sha := Some(d))
  {
    var obj := Object(s.size + 1, Some(d));
    Copy(i, s, q, w, obj);
    var s1 := DiscardCopy(i, Copied(s, q, w, obj), q, w);
    t := FailAndRedrive(i, s1, q, w);
    assert t.rows == s.rows;
    assert t.objects == s.objects;
    assert t.workers == s.workers - {w};
  }

  lemma FinishCopy(i: State, s: State, q: Provider, w: nat) returns (t: State)
    requires Reaches(i, s) && w in s.workers && s.workers[w].pc == Hashed && s.workers[w].target == q
    requires s.file == Active && q in s.objects && s.objects[q].size == s.size
    requires q in s.rows && s.rows[q] == Row(Secondary, InProgress)
    ensures Reaches(i, t) && t == s.(workers := s.workers - {w}, rows := s.rows[q := Row(Secondary, Available)])
  {
    var k := s.workers[w];
    var f1 := Effect(Some(k.(pc := Verified)), None, Keep, s.sha);
    Worked(i, s, w, CheckSize, f1);
    var s1 := Perform(s, w, f1);
    var f2 := Effect(Some(k.(pc := Rechecked)), None, Keep, s.sha);
    Worked(i, s1, w, Recheck, f2);
    var s2 := Perform(s1, w, f2);
    var f3 := Effect(None, Some(Complete), Keep, s.sha);
    Worked(i, s2, w, CompleteRow, f3);
    t := Perform(s2, w, f3);
    assert t.workers == s.workers - {w};
  }

  lemma GoodCopy(i: State, s: State, q: Provider, w: nat, d: Digest) returns (t: State)
    requires Waiting(i, s, q) && ReadyAt(s, w, q, Some(d))
    ensures Reaches(i, t) && t.file == Active && t.sha == s.sha
    ensures q in t.rows && t.rows[q].status == Available && q in t.objects && t.objects[q].digest == Some(d)
  {
    Copy(i, s, q, w, Object(s.size, Some(d)));
    t := FinishCopy(i, Copied(s, q, w, Object(s.size, Some(d))), q, w);
  }

  /** Waits for a clean scan where one is pending. */
  lemma PassGate(s: State, q: Provider) returns (t: State)
    requires Init(s) && q in s.rows && s.rows[q].role == Secondary
    ensures Waiting(s, t, q) && t.sha == s.sha && t.workers == map[] && t.purges == map[] && t.scans == 0
  {
    LeadSelf(s, true);
    t := s;
    if s.scan == Pending {
      var s1 := Apply(s, Do(ScanStart));
      ReachNext(s, s, Do(ScanStart));
      t := Apply(s1, Do(ScanClean));
      ReachNext(s, s1, Do(ScanClean));
    }
  }

  /** Three handler runs suffice: one records a digest and fails, one that read the file before
      records another and fails, and one that read the first digest completes. */
  lemma DigestsCanDisagree(s: State) returns (t: State)
    requires Init(s) && s.sha.None? && HasSecondary(s)
    ensures Reaches(s, t) && !DigestsAgree(t)
  {
    var q :| q in s.rows && s.rows[q].role == Secondary;
    var s0 := PassGate(s, q);
    var s1 := GetReady(s, s0, q, 0);
    var s2 := GetReady(s, s1, q, 1);
    var s3 := FailedCopy(s, s2, q, 0, "a");
    var s4 := GetReady(s, s3, q, 2);
    var s5 := FailedCopy(s, s4, q, 1, "b");
    t := GoodCopy(s, s5, q, 2, "a");
    assert !RowAgrees(t, q);
  }

  /** Stored and recorded digests agree in every reachable state exactly when the digest was recorded
      when the file was stored, or nothing is to be replicated. */
  lemma DigestsAgreeExactly(s: State)
    requires Init(s)
    ensures (forall t | Reaches(s, t) :: DigestsAgree(t)) <==> (s.sha.Some? || !HasSecondary(s))
  {
    if s.sha.Some? || !HasSecondary(s) {
      forall t | Reaches(s, t) ensures DigestsAgree(t) { DigestsAgreeIf(s, t); }
    } else {
      var t := DigestsCanDisagree(s);
    }
  }
}
