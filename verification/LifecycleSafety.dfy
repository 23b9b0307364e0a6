/** What every interleaving of the life-cycle steps keeps. */
module LifecycleSafety {
  import opened Wrappers
  import opened ReplicaState
  import opened Lifecycle

  // ---------------------------------------------------------------------------------
  // Deletion is final: a purged file has only DELETED rows (every run whatsoever)

  ghost predicate KeepsDeleted(r: Rows, r': Rows) {
    && r'.Keys == r.Keys
    && forall p <- r :: r'[p].role == r[p].role && (r[p].status == Deleted ==> r'[p].status == Deleted)
  }

  /** No step takes a row out of DELETED, and none adds or drops a row. */
  lemma DeletedIsAbsorbing(s: State, e: Step)
    requires Enabled(s, e)
    ensures KeepsDeleted(s.rows, Apply(s, e).rows)
  {
    match e
    case Work(w, a) =>
    case Purging(k, a) =>
    case Do(a) => ActKeepsDeleted(s, a);
  }

  lemma ActKeepsDeleted(s: State, a: Act)
    requires CanDo(s, a)
    ensures KeepsDeleted(s.rows, Doing(s, a).rows)
  {
  }

  ghost predicate Final(s: State) {
    && (s.file == FileDeleted ==> AllDeleted(s.rows))
    && (forall k <- s.purges :: s.purges[k].Confirmed? ==> AllDeleted(s.rows))
  }

  lemma FinalStep(s: State, e: Step)
    requires Enabled(s, e) && Final(s)
    ensures Final(Apply(s, e))
  {
    DeletedIsAbsorbing(s, e);
  }

  lemma {:induction false} FinalRun(s: State, es: seq<Step>)
    requires Runs(s, es) && Final(s)
    ensures Final(After(s, es))
    decreases es
  {
    if es != [] {
      FinalStep(s, es[0]);
      FinalRun(Apply(s, es[0]), es[1..]);
    }
  }

  /** In every reachable state a file that a purge worker marked DELETED has only DELETED rows,
      whatever claims, completions, retries, failures, faults and lease expiries come between
      the purge worker's last check and its mark. */
  lemma PurgedFileHasOnlyDeletedRows(s: State, es: seq<Step>)
    requires Init(s) && Runs(s, es)
    ensures After(s, es).file == FileDeleted ==> AllDeleted(After(s, es).rows)
  {
    FinalRun(s, es);
  }

  // ---------------------------------------------------------------------------------
  // Scan gate (every run whose scans are orderly, with faults and lease expiries)

  predicate Live(st: ReplicaStatus) {
    st == InProgress || st == Available
  }

  ghost predicate NothingSecondary(s: State) {
    && s.workers == map[]
    && forall p <- s.rows :: s.rows[p].role == Secondary ==> !Live(s.rows[p].status) && p !in s.objects
  }

  ghost predicate SecondariesDeleted(s: State) {
    forall p <- s.rows :: s.rows[p].role == Secondary ==> s.rows[p].status == Deleted
  }

  ghost predicate Gate(s: State) {
    && s.scans <= 1
    && (s.scans == 1 ==> s.scan == Pending || s.scan == ScanError)
    && (!PastGate(s.scan) ==> NothingSecondary(s))
    && (s.scan == Infected ==> SecondariesDeleted(s))
  }

  lemma GateUnderPurge(s: State, k: nat, a: PurgeAct)
    requires CanPurge(s, k, a) && Gate(s)
    ensures Gate(PerformPurge(s, k, PurgeEffectOf(s, k, a)))
  {
  }

  lemma InfectionClearsSecondaries(s: State)
    requires s.scans > 0 && Gate(s)
    ensures Gate(Doing(s, ScanInfected))
  {
  }

  lemma GateUnderAct(s: State, a: Act)
    requires CanDo(s, a) && Gate(s) && OrderlyScan(s, Do(a))
    ensures Gate(Doing(s, a))
  {
    match a
    case ScanInfected => InfectionClearsSecondaries(s);
    case _ =>
  }

  lemma GateStep(s: State, e: Step)
    requires Enabled(s, e) && Gate(s) && OrderlyScan(s, e)
    ensures Gate(Apply(s, e))
  {
    match e
    case Work(w, a) =>
    case Purging(k, a) => GateUnderPurge(s, k, a);
    case Do(a) => GateUnderAct(s, a);
  }

  lemma {:induction false} GateRun(s: State, es: seq<Step>)
    requires Runs(s, es) && OrderlyScans(s, es) && Gate(s)
    ensures Gate(After(s, es))
    decreases es
  {
    if es != [] {
      GateStep(s, es[0]);
      GateRun(Apply(s, es[0]), es[1..]);
    }
  }

  /** Every secondary that is IN_PROGRESS or AVAILABLE belongs to a file past the scan gate, and
      a verdict INFECTED leaves every secondary DELETED with nothing stored for it. */
  lemma ScanGate(s: State, es: seq<Step>, p: Provider)
    requires Init(s) && Runs(s, es) && OrderlyScans(s, es)
    requires p in After(s, es).rows && After(s, es).rows[p].role == Secondary
    ensures Live(After(s, es).rows[p].status) ==> PastGate(After(s, es).scan)
    ensures After(s, es).scan == Infected ==> After(s, es).rows[p].status == Deleted && p !in After(s, es).objects
  {
    GateRun(s, es);
  }

  // ---------------------------------------------------------------------------------
  // Mutual exclusion (every run, with faults and scans of any kind)

  predicate Retired(st: ReplicaStatus) {
    st == Deleting || st == Deleted
  }

  ghost predicate Shape(s: State) {
    && s.objects.Keys <= s.rows.Keys
    && (forall p <- s.rows :: s.rows[p].role == Primary ==> Retired(s.rows[p].status) || s.rows[p].status == Available)
  }

  predicate HolderRow(s: State, p: Provider) {
    && p in s.rows && s.rows[p].role == Secondary
    && (s.rows[p].status == InProgress || (s.file != Active && Retired(s.rows[p].status)))
  }

  /** At most one handler per provider is between claim and completion. */
  ghost predicate Single(s: State) {
    forall v, w :: Holder(s, v) && Holder(s, w) && s.workers[v].target == s.workers[w].target ==> v == w
  }

  /** A provider has at most one holder, whose row is IN_PROGRESS, or retired with the file. */
  ghost predicate OneHolder(s: State) {
    && Single(s)
    && (forall w :: Holder(s, w) ==> HolderRow(s, s.workers[w].target))
  }

  /** What the effects of a handler's actions have in common, as far as its row goes. */
  ghost predicate FitsRow(s: State, w: nat, f: Effect)
    requires w in s.workers
  {
    var k := s.workers[w];
    && (f.next.Some? ==> f.next.value.target == k.target)
    && (Holds(k.pc) && f.next.Some? ==> Holds(f.next.value.pc) && f.write.None?)
    && (!Holds(k.pc) ==>
          && f.storage == Keep
          && (f.next.Some? && Holds(f.next.value.pc) ==> f.write == Some(Claim))
          && (f.write == Some(Claim) ==> Hits(s.rows, k.target, Claim) && f.next == Some(k.(pc := Claimed)))
          && (f.write.Some? && f.write != Some(Claim) ==>
                f.next.None? && !(Held(s, k.target) && Hits(s.rows, k.target, f.write.value))))
  }

  lemma EffectFitsRow(s: State, w: nat, a: WorkerAct)
    requires CanWork(s, w, a) && Steady(s, Work(w, a))
    ensures FitsRow(s, w, EffectOf(s, w, a))
  {
  }

  /** The write of a handler leaves alone the row that another one holds. */
  lemma HeldRowStays(s: State, w: nat, f: Effect, v: nat)
    requires w in s.workers && FitsRow(s, w, f) && OneHolder(s) && Holder(s, v) && v != w
    ensures HolderRow(Perform(s, w, f), s.workers[v].target)
  {
    var p := s.workers[v].target;
    assert HolderRow(s, p);
    if p == s.workers[w].target {
      assert !Holder(s, w);
      assert Held(s, p);
    }
  }

  lemma WorkKeepsHolders(s: State, w: nat, f: Effect)
    requires w in s.workers && FitsRow(s, w, f) && Shape(s) && OneHolder(s)
    ensures Shape(Perform(s, w, f)) && OneHolder(Perform(s, w, f))
  {
    var s' := Perform(s, w, f);
    if Holds(s.workers[w].pc) { assert Holder(s, w); }
    forall v | Holder(s', v)
      ensures HolderRow(s', s'.workers[v].target)
      ensures Holder(s', w) && s'.workers[v].target == s.workers[w].target ==> v == w
    {
      if v != w {
        assert Holder(s, v);
        HeldRowStays(s, w, f, v);
      }
    }
    forall u, v | Holder(s', u) && Holder(s', v) && s'.workers[u].target == s'.workers[v].target
      ensures u == v
    {
      if u != w && v != w { assert Holder(s, u) && Holder(s, v); }
    }
  }

  /** The same handlers hold rows, each as before. */
  ghost predicate SameHolders(s: State, s': State) {
    && (forall w :: Holder(s', w) <==> Holder(s, w))
    && (forall w :: Holder(s, w) ==> s'.workers[w] == s.workers[w])
  }

  /** Steps that touch no holder, store nothing, and never make the file ACTIVE again. */
  ghost predicate Bystander(s: State, s': State) {
    && SameHolders(s, s')
    && s'.objects.Keys <= s.objects.Keys
    && (s'.file == Active ==> s.file == Active)
  }

  /** What such a step does to a row. */
  ghost predicate RowMoves(s: State, s': State, p: Provider)
    requires p in s.rows && p in s'.rows
  {
    var st := s.rows[p].status;
    var st' := s'.rows[p].status;
    || st' == st
    || (st' == Deleting && s'.file != Active)
    || (st' == Queued && s.rows[p] == Row(Secondary, Failed))
    || (st' == Deleted && Accepts(MarkDeleted, st))
    || (st' == Queued && st == InProgress && !Held(s, p))
  }

  ghost predicate RowsMove(s: State, s': State) {
    && s'.rows.Keys == s.rows.Keys
    && forall p <- s.rows :: s'.rows[p].role == s.rows[p].role && RowMoves(s, s', p)
  }

  lemma MovesKeepHolders(s: State, s': State)
    requires Bystander(s, s') && RowsMove(s, s') && Shape(s) && OneHolder(s)
    ensures Shape(s') && OneHolder(s')
  {
    forall p | p in s'.rows && s'.rows[p].role == Primary
      ensures Retired(s'.rows[p].status) || s'.rows[p].status == Available
    {
      assert RowMoves(s, s', p);
    }
    forall w | Holder(s', w) ensures HolderRow(s', s'.workers[w].target) {
      assert Holder(s, w) && HolderRow(s, s.workers[w].target) && Held(s, s.workers[w].target);
      assert RowMoves(s, s', s.workers[w].target);
    }
  }

  lemma PurgeRowsMove(s: State, k: nat, a: PurgeAct)
    requires CanPurge(s, k, a)
    ensures var s' := PerformPurge(s, k, PurgeEffectOf(s, k, a)); RowsMove(s, s') && Bystander(s, s')
  {
  }

  lemma ActRowsMove(s: State, a: Act)
    requires CanDo(s, a) && Steady(s, Do(a)) && Shape(s)
    ensures RowsMove(s, Doing(s, a)) && Bystander(s, Doing(s, a))
  {
    var s' := Doing(s, a);
    match a
    case DeleteCommit => forall p | p in s.rows ensures RowMoves(s, s', p) { }
    case ScanInfected => forall p | p in s.rows ensures RowMoves(s, s', p) { }
    case _ =>
  }

  /** A step keeps single holders exactly when it takes no row from its holder. */
  lemma HoldersKeptExactly(s: State, e: Step)
    requires Enabled(s, e) && Shape(s) && OneHolder(s)
    ensures OneHolder(Apply(s, e)) <==> Steady(s, e)
    ensures Steady(s, e) ==> Shape(Apply(s, e))
  {
    if Steady(s, e) {
      match e
      case Work(w, a) =>
        EffectFitsRow(s, w, a);
        WorkKeepsHolders(s, w, EffectOf(s, w, a));
      case Purging(k, a) =>
        PurgeRowsMove(s, k, a);
        MovesKeepHolders(s, Apply(s, e));
      case Do(a) =>
        ActRowsMove(s, a);
        MovesKeepHolders(s, Apply(s, e));
    } else {
      RowTaken(s, e);
    }
  }

  lemma RowTaken(s: State, e: Step)
    requires Enabled(s, e) && OneHolder(s) && !Steady(s, e)
    ensures !OneHolder(Apply(s, e))
  {
    var s' := Apply(s, e);
    var p := if e.Do? then e.a.p else s.workers[e.w].target;
    var v :| Holder(s, v) && s.workers[v].target == p;
    assert HolderRow(s, p);
    assert Holder(s', v) && !HolderRow(s', p);
  }

  ghost predicate AlwaysOneHolder(s: State, es: seq<Step>)
    requires Runs(s, es)
    decreases es
  {
    OneHolder(s) && (es == [] || AlwaysOneHolder(Apply(s, es[0]), es[1..]))
  }

  lemma {:induction false} OneHolderRunExactly(s: State, es: seq<Step>)
    requires Runs(s, es) && Shape(s) && OneHolder(s)
    ensures AlwaysOneHolder(s, es) <==> SteadyRun(s, es)
    decreases es
  {
    if es != [] {
      HoldersKeptExactly(s, es[0]);
      if Steady(s, es[0]) { OneHolderRunExactly(Apply(s, es[0]), es[1..]); }
    }
  }

  /** In every run, each provider has at most one handler between claim and completion, whose row is
      IN_PROGRESS or retired with the file, in every state, if and only if no lease expires under a
      handler and no failed claim writes the row another handler holds. */
  lemma MutualExclusionExactly(s: State, es: seq<Step>)
    requires Init(s) && Runs(s, es)
    ensures AlwaysOneHolder(s, es) <==> SteadyRun(s, es)
  {
    OneHolderRunExactly(s, es);
  }

  lemma {:induction false} OneHolderAtEnd(s: State, es: seq<Step>)
    requires Runs(s, es) && AlwaysOneHolder(s, es)
    ensures OneHolder(After(s, es))
    decreases es
  {
    if es != [] { OneHolderAtEnd(Apply(s, es[0]), es[1..]); }
  }

  /** So at most one handler is between claim and completion for a provider, and while the file is
      ACTIVE its row is IN_PROGRESS. */
  lemma MutualExclusion(s: State, es: seq<Step>, v: nat, w: nat)
    requires Init(s) && Runs(s, es) && SteadyRun(s, es)
    requires var t := After(s, es); Holder(t, v) && Holder(t, w) && t.workers[v].target == t.workers[w].target
    ensures v == w
    ensures var t := After(s, es);
      t.workers[v].target in t.rows && (t.file == Active ==> t.rows[t.workers[v].target].status == InProgress)
  {
    MutualExclusionExactly(s, es);
    OneHolderAtEnd(s, es);
  }

  /** A claim that hits a row which another handler still works on. */
  ghost predicate Intrudes(s: State, e: Step) {
    && e.Work? && e.act.ClaimRow? && e.w in s.workers
    && Hits(s.rows, s.workers[e.w].target, Claim) && Held(s, s.workers[e.w].target)
  }

  /** A handler comes to hold a row by a claim that hits, and in no other way. */
  lemma HoldsByClaim(s: State, e: Step, w: nat)
    requires Enabled(s, e) && Holder(Apply(s, e), w)
    ensures w in s.workers && Apply(s, e).workers[w].target == s.workers[w].target
    ensures !Holder(s, w) ==> e == Work(w, ClaimRow) && Hits(s.rows, s.workers[w].target, Claim)
  {
  }

  lemma IntruderIsSecond(s: State, e: Step)
    requires Enabled(s, e) && Intrudes(s, e)
    ensures !Single(Apply(s, e))
  {
    var s', p := Apply(s, e), s.workers[e.w].target;
    var v :| Holder(s, v) && s.workers[v].target == p;
    assert v != e.w && Holder(s', v) && Holder(s', e.w);
  }

  lemma SingleKeptExactly(s: State, e: Step)
    requires Enabled(s, e) && Single(s)
    ensures Single(Apply(s, e)) <==> !Intrudes(s, e)
  {
    if Intrudes(s, e) {
      IntruderIsSecond(s, e);
    } else {
      var s' := Apply(s, e);
      forall v, w | Holder(s', v) && Holder(s', w) && s'.workers[v].target == s'.workers[w].target ensures v == w {
        HoldsByClaim(s, e, v);
        HoldsByClaim(s, e, w);
      }
    }
  }

  ghost predicate AlwaysSingle(s: State, es: seq<Step>)
    requires Runs(s, es)
    decreases es
  {
    Single(s) && (es == [] || AlwaysSingle(Apply(s, es[0]), es[1..]))
  }

  ghost predicate NeverIntrudes(s: State, es: seq<Step>)
    requires Runs(s, es)
    decreases es
  {
    es == [] || (!Intrudes(s, es[0]) && NeverIntrudes(Apply(s, es[0]), es[1..]))
  }

  /** In every run from any state with single handlers, a provider never has two handlers between claim
      and completion if and only if every claim that hits finds its row free of a handler. */
  lemma {:induction false} SingleHandlerExactly(s: State, es: seq<Step>)
    requires Runs(s, es) && Single(s)
    ensures AlwaysSingle(s, es) <==> NeverIntrudes(s, es)
    decreases es
  {
    if es != [] {
      SingleKeptExactly(s, es[0]);
      if !Intrudes(s, es[0]) { SingleHandlerExactly(Apply(s, es[0]), es[1..]); }
    }
  }

  // ---------------------------------------------------------------------------------
  // The fate of every object (undisturbed runs)

  /** The handler has stored the object and still deletes it unless the re-check finds the file ACTIVE. */
  predicate Carries(pc: Pc) {
    pc == Uploaded || pc == Hashed || pc == Verified || pc == Discarding || pc == Cleaning
  }

  /** The handler holds the row and has nothing stored. */
  predicate Empty(pc: Pc) {
    pc == Claimed || pc == Failing || pc == Cleaned
  }

  /** No object is expected behind such a row. */
  predicate Idle(st: ReplicaStatus) {
    st == Queued || st == Failed || st == Deleted
  }

  ghost predicate Carried(s: State, p: Provider) {
    exists w :: w in s.workers && s.workers[w].target == p && Carries(s.workers[w].pc)
  }

  /** The provider stores nothing, or a handler bound to delete it is still on its way. */
  ghost predicate Safe(s: State, p: Provider) {
    p in s.objects ==> s.file != Active && Carried(s, p)
  }

  ghost predicate Accounted(s: State) {
    && (forall p <- s.rows :: Idle(s.rows[p].status) ==> Safe(s, p))
    && (forall w <- s.workers :: Empty(s.workers[w].pc) ==> Safe(s, s.workers[w].target))
  }

  /** Behind a row that was left IN_PROGRESS by a handler that has ended there is no object. */
  ghost predicate Abandoned(s: State) {
    forall p <- s.rows :: s.rows[p].status == InProgress && p in s.objects ==> Held(s, p)
  }

  /** The purge handler has seen, or brought about, that the file is not ACTIVE. */
  predicate Past(pc: Purge) {
    !pc.GotStatus? || pc.status != Active
  }

  ghost predicate PurgeOk(s: State, pc: Purge) {
    && (Past(pc) ==> s.file != Active)
    && (pc.Looping? || pc.ObjectGone? ==> forall p :: p in pc.snap && pc.snap[p] == Queued ==> Safe(s, p))
    && (pc.ObjectGone? ==> Safe(s, pc.p))
  }

  ghost predicate PurgesOk(s: State) {
    forall k <- s.purges :: PurgeOk(s, s.purges[k])
  }

  ghost predicate Inv(s: State) {
    Final(s) && Gate(s) && Shape(s) && OneHolder(s) && Accounted(s) && Abandoned(s) && PurgesOk(s)
  }

  lemma InitInv(s: State)
    requires Init(s)
    ensures Inv(s)
  {
  }

  // Replication handlers --------------------------------------------------------------

  /** A handler that is the only one on its row, with nothing of its own stored, finds nothing stored. */
  lemma NoRival(s: State, w: nat)
    requires OneHolder(s) && Holder(s, w) && !Carries(s.workers[w].pc) && Safe(s, s.workers[w].target)
    ensures s.workers[w].target !in s.objects
  {
  }

  lemma NoHolderOfQueued(s: State, p: Provider)
    requires OneHolder(s) && p in s.rows && s.rows[p].status == Queued && Safe(s, p)
    ensures p !in s.objects
    ensures forall w :: Holder(s, w) ==> s.workers[w].target != p
  {
    if Carried(s, p) {
      var w :| w in s.workers && s.workers[w].target == p && Carries(s.workers[w].pc);
      assert Holder(s, w);
    }
  }

  /** What the effects of a handler's actions have in common, as far as storage goes. */
  ghost predicate Fits(s: State, w: nat, f: Effect)
    requires w in s.workers
  {
    var k := s.workers[w];
    && FitsRow(s, w, f)
    && (Carries(k.pc) && s.file != Active ==> f.next.Some? && (Carries(f.next.value.pc) || f.storage == Drop))
    && (f.storage.Put? ==> f.next.Some? && Carries(f.next.value.pc))
  }

  lemma EffectFits(s: State, w: nat, a: WorkerAct)
    requires CanWork(s, w, a) && Undisturbed(s, Work(w, a))
    ensures Fits(s, w, EffectOf(s, w, a))
  {
    EffectFitsRow(s, w, a);
  }

  /** Providers a handler does not work on are not affected by it. */
  lemma OthersStaySafe(s: State, w: nat, f: Effect, q: Provider)
    requires w in s.workers && Fits(s, w, f) && Safe(s, q) && s.workers[w].target != q
    ensures Safe(Perform(s, w, f), q)
  {
    if q in s.objects {
      var v :| v in s.workers && s.workers[v].target == q && Carries(s.workers[v].pc);
      assert v in Perform(s, w, f).workers;
    }
  }

  /** Once the file is not ACTIVE, no action of a handler makes a safe provider unsafe. */
  lemma SafeStays(s: State, w: nat, f: Effect, q: Provider)
    requires w in s.workers && Fits(s, w, f) && s.file != Active && Safe(s, q)
    ensures Safe(Perform(s, w, f), q)
  {
    var s' := Perform(s, w, f);
    if q in s'.objects {
      if f.storage.Put? && q == s.workers[w].target {
        assert w in s'.workers && Carries(s'.workers[w].pc);
      } else {
        var v :| v in s.workers && s.workers[v].target == q && Carries(s.workers[v].pc);
        assert v in s'.workers && s'.workers[v].target == q && Carries(s'.workers[v].pc);
      }
    }
  }

  ghost predicate TargetSafe(s: State, w: nat, p: Provider) {
    && (p in s.rows && Idle(s.rows[p].status) ==> Safe(s, p))
    && (w in s.workers && Empty(s.workers[w].pc) ==> Safe(s, p))
  }

  /** The row and the object of the provider a handler works on, after an action of the holder. */
  lemma HolderStaysSafe(s: State, w: nat, a: WorkerAct, f: Effect)
    requires CanWork(s, w, a) && !Leaves(a) && f == EffectOf(s, w, a) && OneHolder(s) && Accounted(s) && Holder(s, w)
    ensures TargetSafe(Perform(s, w, f), w, s.workers[w].target)
    ensures f.next.None? && !a.CompleteRow? ==> s.workers[w].target !in s.objects
  {
    var s' := Perform(s, w, f);
    var p := s.workers[w].target;
    assert HolderRow(s, p);
    if !Carries(s.workers[w].pc) && Safe(s, p) { NoRival(s, w); }
    if w in s'.workers && Carries(s'.workers[w].pc) { assert Carried(s', p); }
  }

  /** A failed claim writes only a row that nobody holds, behind which nothing is stored. */
  lemma FailedClaimSafe(s: State, w: nat, a: WorkerAct)
    requires CanWork(s, w, a) && a.ClaimFails? && Steady(s, Work(w, a)) && OneHolder(s) && Accounted(s) && Abandoned(s)
    ensures TargetSafe(Perform(s, w, EffectOf(s, w, a)), w, s.workers[w].target)
  {
    var f := EffectOf(s, w, a);
    var p := s.workers[w].target;
    EffectFitsRow(s, w, a);
    if p in s.rows && Idle(s.rows[p].status) && p in s.objects { Elsewhere(s, w, p, f); }
  }

  lemma TargetStaysSafe(s: State, w: nat, a: WorkerAct)
    requires CanWork(s, w, a) && Undisturbed(s, Work(w, a)) && OneHolder(s) && Accounted(s) && Abandoned(s)
    ensures TargetSafe(Perform(s, w, EffectOf(s, w, a)), w, s.workers[w].target)
  {
    var p := s.workers[w].target;
    EffectFits(s, w, a);
    if Holds(s.workers[w].pc) {
      HolderStaysSafe(s, w, a, EffectOf(s, w, a));
    } else if a.ClaimFails? {
      FailedClaimSafe(s, w, a);
    } else if a == ClaimRow && Hits(s.rows, p, Claim) {
      NoHolderOfQueued(s, p);
    } else if p in s.rows && Idle(s.rows[p].status) && p in s.objects {
      Elsewhere(s, w, p, EffectOf(s, w, a));
    }
  }

  /** A handler that holds nothing leaves alone whoever carries an object. */
  lemma Elsewhere(s: State, w: nat, q: Provider, f: Effect)
    requires w in s.workers && FitsRow(s, w, f) && !Holds(s.workers[w].pc) && Carried(s, q)
    ensures Carried(Perform(s, w, f), q)
  {
    var v :| v in s.workers && s.workers[v].target == q && Carries(s.workers[v].pc);
    assert v in Perform(s, w, f).workers;
  }

  lemma AccountedUnderWork(s: State, w: nat, a: WorkerAct)
    requires CanWork(s, w, a) && Undisturbed(s, Work(w, a)) && OneHolder(s) && Accounted(s) && Abandoned(s)
    ensures Accounted(Perform(s, w, EffectOf(s, w, a)))
  {
    var f := EffectOf(s, w, a);
    var s' := Perform(s, w, f);
    EffectFits(s, w, a);
    TargetStaysSafe(s, w, a);
    forall q | q in s'.rows && Idle(s'.rows[q].status)
      ensures Safe(s', q)
    {
      if q != s.workers[w].target { OthersStaySafe(s, w, f, q); }
    }
    forall v | v in s'.workers && Empty(s'.workers[v].pc)
      ensures Safe(s', s'.workers[v].target)
    {
      if v != w { EmptyStaysSafe(s, w, f, v); }
    }
  }

  lemma EmptyStaysSafe(s: State, w: nat, f: Effect, v: nat)
    requires w in s.workers && Fits(s, w, f) && OneHolder(s) && Accounted(s)
    requires v in s.workers && v != w && Empty(s.workers[v].pc)
    ensures Safe(Perform(s, w, f), s.workers[v].target)
  {
    var q := s.workers[v].target;
    assert Holder(s, v);
    if q != s.workers[w].target {
      OthersStaySafe(s, w, f, q);
    } else {
      assert !Holder(s, w);
      if q in s.objects { Elsewhere(s, w, q, f); }
    }
  }

  /** A holder that is not the acting handler still holds its row afterwards. */
  lemma HeldStays(s: State, w: nat, f: Effect, q: Provider)
    requires w in s.workers && FitsRow(s, w, f) && Held(s, q)
    requires Holder(s, w) ==> f.next.Some? || s.workers[w].target != q
    ensures Held(Perform(s, w, f), q)
  {
    var v :| Holder(s, v) && s.workers[v].target == q;
    assert Holder(Perform(s, w, f), v);
  }

  lemma AbandonedUnderWork(s: State, w: nat, a: WorkerAct, f: Effect)
    requires CanWork(s, w, a) && Undisturbed(s, Work(w, a)) && f == EffectOf(s, w, a)
    requires OneHolder(s) && Accounted(s) && Abandoned(s)
    ensures Abandoned(Perform(s, w, f))
  {
    var s' := Perform(s, w, f);
    var p := s.workers[w].target;
    EffectFits(s, w, a);
    if Holds(s.workers[w].pc) {
      assert Holder(s, w) && HolderRow(s, p);
      HolderStaysSafe(s, w, a, f);
    }
    forall q | q in s'.rows && s'.rows[q].status == InProgress && q in s'.objects ensures Held(s', q) {
      if q == p && Holder(s', w) {
        assert s'.workers[w].target == p;
      } else {
        HeldStays(s, w, f, q);
      }
    }
  }

  lemma PurgesOkPerform(s: State, w: nat, f: Effect)
    requires w in s.workers && Fits(s, w, f) && PurgesOk(s)
    ensures PurgesOk(Perform(s, w, f))
  {
    var s' := Perform(s, w, f);
    forall k | k in s'.purges
      ensures PurgeOk(s', s'.purges[k])
    {
      var pc := s.purges[k];
      assert PurgeOk(s, pc);
      if Past(pc) {
        forall p | Safe(s, p) ensures Safe(s', p) { SafeStays(s, w, f, p); }
      }
    }
  }

  lemma InvUnderWork(s: State, w: nat, a: WorkerAct)
    requires Inv(s) && CanWork(s, w, a) && Undisturbed(s, Work(w, a))
    ensures Inv(Apply(s, Work(w, a)))
  {
    var f := EffectOf(s, w, a);
    EffectFits(s, w, a);
    FinalStep(s, Work(w, a));
    GateStep(s, Work(w, a));
    WorkKeepsHolders(s, w, f);
    AccountedUnderWork(s, w, a);
    AbandonedUnderWork(s, w, a, f);
    PurgesOkPerform(s, w, f);
  }

  // Bystanders ------------------------------------------------------------------------

  lemma BystanderSafe(s: State, s': State, p: Provider)
    requires Bystander(s, s') && Safe(s, p)
    ensures Safe(s', p)
  {
    if p in s'.objects {
      var w :| w in s.workers && s.workers[w].target == p && Carries(s.workers[w].pc);
      assert Holder(s, w);
    }
  }

  /** A row becomes DELETED only where that leaves nothing behind. */
  ghost predicate DeletesSafely(s: State, s': State) {
    forall p <- s.rows :: p in s'.rows && s'.rows[p].status == Deleted && s.rows[p].status != Deleted ==> Safe(s', p)
  }

  lemma BystanderKeeps(s: State, s': State)
    requires Bystander(s, s') && RowsMove(s, s') && DeletesSafely(s, s')
    requires Shape(s) && OneHolder(s) && Accounted(s) && Abandoned(s)
    ensures Shape(s') && OneHolder(s') && Accounted(s') && Abandoned(s')
  {
    MovesKeepHolders(s, s');
    forall p | p in s'.rows && Idle(s'.rows[p].status)
      ensures Safe(s', p)
    {
      assert RowMoves(s, s', p);
      if Idle(s.rows[p].status) { BystanderSafe(s, s', p); }
    }
    forall w | w in s'.workers && Empty(s'.workers[w].pc) ensures Safe(s', s'.workers[w].target) {
      assert Holder(s', w) && Holder(s, w);
      BystanderSafe(s, s', s.workers[w].target);
    }
    forall p | p in s'.rows && s'.rows[p].status == InProgress && p in s'.objects ensures Held(s', p) {
      assert RowMoves(s, s', p) && Held(s, p);
      var w :| Holder(s, w) && s.workers[w].target == p;
      assert Holder(s', w);
    }
  }

  lemma PurgeDeletesSafely(s: State, k: nat, a: PurgeAct)
    requires Inv(s) && CanPurge(s, k, a)
    ensures DeletesSafely(s, PerformPurge(s, k, PurgeEffectOf(s, k, a)))
  {
    var s' := PerformPurge(s, k, PurgeEffectOf(s, k, a));
    var pc := s.purges[k];
    assert PurgeOk(s, pc);
    PurgeRowsMove(s, k, a);
    match a
    case Visit(p) => if pc.snap[p] == Queued { BystanderSafe(s, s', p); }
    case WriteDeleted => BystanderSafe(s, s', pc.p);
    case _ =>
  }

  lemma PurgeOkUnderPurge(s: State, k: nat, a: PurgeAct)
    requires Inv(s) && CanPurge(s, k, a)
    ensures var f := PurgeEffectOf(s, k, a); f.next.Some? ==> PurgeOk(PerformPurge(s, k, f), f.next.value)
  {
    var f := PurgeEffectOf(s, k, a);
    var s' := PerformPurge(s, k, f);
    assert PurgeOk(s, s.purges[k]);
    PurgeRowsMove(s, k, a);
    forall p | Safe(s, p) ensures Safe(s', p) { BystanderSafe(s, s', p); }
  }

  lemma PurgesOkKept(s: State, s': State, j: nat)
    requires Bystander(s, s') && PurgesOk(s) && j in s.purges
    ensures PurgeOk(s', s.purges[j])
  {
    assert PurgeOk(s, s.purges[j]);
    forall p | Safe(s, p) ensures Safe(s', p) { BystanderSafe(s, s', p); }
  }

  lemma InvUnderPurge(s: State, k: nat, a: PurgeAct)
    requires Inv(s) && CanPurge(s, k, a)
    ensures Inv(Apply(s, Purging(k, a)))
  {
    var s' := PerformPurge(s, k, PurgeEffectOf(s, k, a));
    FinalStep(s, Purging(k, a));
    GateStep(s, Purging(k, a));
    PurgeRowsMove(s, k, a);
    PurgeDeletesSafely(s, k, a);
    BystanderKeeps(s, s');
    forall j | j in s'.purges
      ensures PurgeOk(s', s'.purges[j])
    {
      if j == k { PurgeOkUnderPurge(s, k, a); } else { PurgesOkKept(s, s', j); }
    }
  }

  /** A user delete retires QUEUED rows, a verdict only secondaries behind which nothing is stored. */
  lemma ActDeletesSafely(s: State, a: Act)
    requires Gate(s) && Accounted(s) && CanDo(s, a) && Bystander(s, Doing(s, a))
    ensures DeletesSafely(s, Doing(s, a))
  {
    var s' := Doing(s, a);
    if a == DeleteCommit {
      forall p | p in s.rows && s'.rows[p].status == Deleted && s.rows[p].status != Deleted ensures Safe(s', p) {
        BystanderSafe(s, s', p);
      }
    } else if a == ScanInfected {
      forall p | p in s.rows && s'.rows[p].status == Deleted && s.rows[p].status != Deleted ensures Safe(s', p) { }
    }
  }

  lemma InvUnderAct(s: State, a: Act)
    requires Inv(s) && CanDo(s, a) && Steady(s, Do(a)) && OrderlyScan(s, Do(a))
    ensures Inv(Apply(s, Do(a)))
  {
    var s' := Doing(s, a);
    FinalStep(s, Do(a));
    GateStep(s, Do(a));
    ActRowsMove(s, a);
    ActDeletesSafely(s, a);
    BystanderKeeps(s, s');
    forall j | j in s'.purges ensures PurgeOk(s', s'.purges[j]) {
      if j in s.purges { PurgesOkKept(s, s', j); }
    }
  }

  // Runs ------------------------------------------------------------------------------

  lemma InvStep(s: State, e: Step)
    requires Inv(s) && Enabled(s, e) && OrderlyScan(s, e) && Undisturbed(s, e)
    ensures Inv(Apply(s, e))
  {
    match e
    case Work(w, a) => InvUnderWork(s, w, a);
    case Purging(k, a) => InvUnderPurge(s, k, a);
    case Do(a) => InvUnderAct(s, a);
  }

  lemma {:induction false} InvRun(s: State, es: seq<Step>)
    requires Inv(s) && Runs(s, es) && OrderlyScans(s, es) && UndisturbedRun(s, es)
    ensures Inv(After(s, es))
    decreases es
  {
    if es != [] {
      InvStep(s, es[0]);
      InvRun(Apply(s, es[0]), es[1..]);
    }
  }

  lemma DeletedStoresNothing(t: State)
    requires Inv(t)
    ensures t.file == FileDeleted && (forall w :: !Holder(t, w)) ==> t.objects == map[]
  {
    if t.file == FileDeleted && forall w :: !Holder(t, w) {
      forall p ensures !Carried(t, p) {
        forall w | w in t.workers ensures !Carries(t.workers[w].pc) { assert !Holder(t, w); }
      }
      forall p | p in t.rows ensures p !in t.objects { assert Idle(t.rows[p].status); }
    }
  }

  /** No orphans: in every undisturbed run, once the file is DELETED and no replication handler is
      on it, no provider stores anything for it. */
  lemma NoOrphans(s: State, es: seq<Step>)
    requires Init(s) && Runs(s, es) && OrderlyScans(s, es) && UndisturbedRun(s, es)
    ensures var t := After(s, es);
      t.file == FileDeleted && (forall w :: !Holder(t, w)) ==> t.objects == map[]
  {
    InitInv(s);
    InvRun(s, es);
    DeletedStoresNothing(After(s, es));
  }

  predicate RowFollows(r: Rows, r': Rows, p: Provider) {
    p in r && p in r' && (r'[p].status == r[p].status || CanTransition(r[p].status, r'[p].status))
  }

  lemma CasFollows(r: Rows, q: Provider, w: Write, p: Provider)
    requires p in r && !(w == Complete && q in r && r[q].status == Queued)
    ensures RowFollows(r, Cas(r, q, w), p)
  {
    if Hits(r, q, w) { CasFollowsTable(r[q].status, w); }
  }

  /** The completing write finds its row QUEUED. */
  predicate CompletesQueued(t: State, e: Step, p: Provider) {
    && e.Work? && e.act.CompleteRow? && e.w in t.workers && t.workers[e.w].target == p
    && p in t.rows && t.rows[p].status == Queued
  }

  lemma WorkFollowsTable(t: State, w: nat, a: WorkerAct, p: Provider)
    requires CanWork(t, w, a) && p in t.rows
    ensures RowFollows(t.rows, Perform(t, w, EffectOf(t, w, a)).rows, p) <==> !CompletesQueued(t, Work(w, a), p)
  {
    var f := EffectOf(t, w, a);
    var q := t.workers[w].target;
    if f.write.Some? && !(f.write.value == Complete && q in t.rows && t.rows[q].status == Queued) {
      CasFollows(t.rows, q, f.write.value, p);
    }
  }

  lemma ActFollowsTable(t: State, a: Act, p: Provider)
    requires CanDo(t, a) && p in t.rows
    ensures RowFollows(t.rows, Doing(t, a).rows, p)
  {
    match a
    case LeaseExpire(q) => CasFollows(t.rows, q, Retry, p);
    case AutoRedrive(q) => CasFollows(t.rows, q, Redrive, p);
    case _ =>
  }

  /** Every step of any kind moves every row along the transition table, except a completing write
      that finds its row QUEUED, and that one never does. */
  lemma StepFollowsTableExactly(t: State, e: Step, p: Provider)
    requires Enabled(t, e) && p in t.rows
    ensures RowFollows(t.rows, Apply(t, e).rows, p) <==> !CompletesQueued(t, e, p)
  {
    match e
    case Work(w, a) => WorkFollowsTable(t, w, a, p);
    case Purging(k, a) => CasFollows(t.rows, PurgeEffectOf(t, k, a).p, MarkDeleted, p);
    case Do(a) => ActFollowsTable(t, a, p);
  }

  lemma HeldRowFollows(t: State, e: Step, p: Provider)
    requires OneHolder(t) && Enabled(t, e) && p in t.rows
    ensures RowFollows(t.rows, Apply(t, e).rows, p)
  {
    StepFollowsTableExactly(t, e, p);
    if e.Work? && e.act.CompleteRow? { assert Holder(t, e.w) && HolderRow(t, t.workers[e.w].target); }
  }

  /** As long as no row is taken from its holder, every status change of a row is one the transition
      table allows, although the completing write also accepts a QUEUED row. */
  lemma RowChangesFollowTable(s: State, es: seq<Step>, e: Step, p: Provider)
    requires Init(s) && Runs(s, es) && SteadyRun(s, es)
    requires Enabled(After(s, es), e) && p in After(s, es).rows
    ensures RowFollows(After(s, es).rows, Apply(After(s, es), e).rows, p)
  {
    MutualExclusionExactly(s, es);
    OneHolderAtEnd(s, es);
    HeldRowFollows(After(s, es), e, p);
  }
}
