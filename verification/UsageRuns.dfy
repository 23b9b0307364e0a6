/** Storage accounting over whole runs: the transactions of presigned uploads, deletes, hard deletes
    and scan verdicts interleave freely, each working with the row it has read earlier. */
module UsageRuns {
  import opened Wrappers
  import opened Usage

  /** `open` holds the reservations of `initiate` calls whose row is not inserted yet, as the rows
      they will become; `read` holds every row version some call has read. */
  datatype Ledger = Ledger(files: seq<File>, book: Book, open: seq<File>, read: set<File>, next: nat)

  datatype Step =
    | Reserve(owner: Tenant, size: nat, expiresAt: int)
    | Insert(j: nat)
    | Cancel(j: nat)
    | Read(i: nat)
    | Complete(snap: File, actual: nat)
    | Sweep(snap: File)
    | Delete(snap: File)
    | HardDelete(snap: File)
    | Verdict(i: nat)
    | Purged(i: nat)

  function Rows(l: Ledger): seq<File> {
    l.files + l.open
  }

  /** A commit works with a row that was read, and whose checks have passed; by now it may have changed
      or be gone. */
  predicate Enabled(l: Ledger, e: Step) {
    match e
    case Reserve(_, _, _) => true
    case Insert(j) => j < |l.open|
    case Cancel(j) => j < |l.open|
    case Read(i) => i < |l.files|
    case Complete(snap, _) => snap in l.read && snap.status.PendingUpload?
    case Sweep(snap) => snap in l.read && snap.status.PendingUpload?
    case Delete(snap) => snap in l.read && Counted(snap) && !snap.held
    case HardDelete(snap) => snap in l.read
    case Verdict(i) => i < |l.files|
    case Purged(i) => i < |l.files| && l.files[i].status.Deleting?
  }

  /** The row a step touches, where there still is one. */
  function Touches(l: Ledger, e: Step): (r: Option<nat>)
    requires Enabled(l, e)
    ensures r.Some? ==> r.value < |l.files|
  {
    match e
    case Complete(snap, _) => Position(l.files, snap.id, 0)
    case Sweep(snap) => Position(l.files, snap.id, 0)
    case Delete(snap) => Position(l.files, snap.id, 0)
    case HardDelete(snap) => Position(l.files, snap.id, 0)
    case Verdict(i) => Some(i)
    case Purged(i) => Some(i)
    case _ => None
  }

  /** Complete and sweep check the version; a mismatch, a missing row or a refused reservation rolls back. */
  predicate Fails(l: Ledger, e: Step)
    requires Enabled(l, e)
  {
    var i := Touches(l, e);
    match e
    case Reserve(t, size, _) => TryReserve(l.book, t, size, 1).None?
    case Complete(snap, actual) =>
      i.None? || l.files[i.value].version != snap.version || Adjust(l.book, snap.owner, snap.size, actual).None?
    case Sweep(snap) => i.None? || l.files[i.value].version != snap.version
    case _ => false
  }

  /** What becomes of the row a commit touches. */
  function RowAfter(c: File, e: Step): File {
    match e
    case Complete(_, actual) => c.(status := Active, size := actual, version := c.version + 1, expiresAt := None)
    case Sweep(_) => c.(status := FileStatus.Deleted, version := c.version + 1)
    case Delete(_) => if c.status.Deleted? then c else c.(status := FileStatus.Deleting)
    case Verdict(_) => c.(status := Quarantined, version := c.version + 1)
    case Purged(_) => c.(status := FileStatus.Deleted)
    case _ => c
  }

  function BookAfter(l: Ledger, e: Step): Book
    requires Enabled(l, e) && !Fails(l, e)
  {
    match e
    case Reserve(t, size, _) => TryReserve(l.book, t, size, 1).value
    case Cancel(j) => Release(l.book, l.open[j].owner, l.open[j].size, 1)
    case Complete(snap, actual) => Adjust(l.book, snap.owner, snap.size, actual).value
    case Sweep(snap) => Release(l.book, snap.owner, snap.size, 1)
    case Delete(snap) => Release(l.book, snap.owner, snap.size, 1)
    case HardDelete(snap) => if Counted(snap) then Release(l.book, snap.owner, snap.size, 1) else l.book
    case _ => l.book
  }

  function FilesAfter(l: Ledger, e: Step): seq<File>
    requires Enabled(l, e)
  {
    var i := Touches(l, e);
    if i.None? then l.files
    else if e.HardDelete? then Removed(l.files, i.value)
    else Replaced(l.files, i.value, RowAfter(l.files[i.value], e))
  }

  function Apply(l: Ledger, e: Step): Ledger
    requires Enabled(l, e)
  {
    if Fails(l, e) then l
    else
      var l1 := l.(book := BookAfter(l, e));
      match e
      case Reserve(t, size, at) =>
        l1.(open := l.open + [File(l.next, t, size, PendingUpload, 1, Some(at), false)], next := l.next + 1)
      case Insert(j) => l1.(files := l.files + [l.open[j]], open := Removed(l.open, j))
      case Cancel(j) => l1.(open := Removed(l.open, j))
      case Read(i) => l1.(read := l.read + {l.files[i]})
      case _ => l1.(files := FilesAfter(l, e))
  }

  predicate Runs(l: Ledger, es: seq<Step>)
    decreases es
  {
    es == [] || (Enabled(l, es[0]) && Runs(Apply(l, es[0]), es[1..]))
  }

  function After(l: Ledger, es: seq<Step>): Ledger
    requires Runs(l, es)
    decreases es
  {
    if es == [] then l else After(Apply(l, es[0]), es[1..])
  }

  /** Fixed quotas, nothing used yet. */
  predicate Init(l: Ledger) {
    && l.files == [] && l.open == [] && l.read == {}
    && forall t <- l.book :: l.book[t].bytes == 0 && l.book[t].files == 0
  }

  // ---------------------------------------------------------------------------------
  // What a version number vouches for

  predicate Vouches(s: File, c: File) {
    s.id == c.id ==> s.owner == c.owner && s.version <= c.version && (s.version == c.version ==> s.size == c.size)
  }

  ghost predicate Known(l: Ledger) {
    && (forall i :: 0 <= i < |Rows(l)| ==> Rows(l)[i].id < l.next)
    && (forall i, j :: 0 <= i < j < |Rows(l)| ==> Rows(l)[i].id != Rows(l)[j].id)
    && (forall s <- l.read :: s.id < l.next)
    && (forall s <- l.read :: forall i :: 0 <= i < |Rows(l)| ==> Vouches(s, Rows(l)[i]))
    && (forall j :: 0 <= j < |l.open| ==> Counted(l.open[j]))
  }

  // ---------------------------------------------------------------------------------
  // Balance

  /** The recorded amounts are the totals over the counted files and the open reservations. */
  ghost predicate Sound(l: Ledger) {
    Balanced(Rows(l), l.book) && Quotas(l.book)
  }

  /** When releasing the size that was read is right: as for the row it finds, or, where that is gone,
      for an account without files. */
  ghost predicate ReleaseRight(l: Ledger, i: Option<nat>, snap: File)
    requires i.Some? ==> i.value < |l.files|
  {
    if i.Some? then ReleaseFits(Rows(l), l.files[i.value], snap.size) else Count(Rows(l), snap.owner) == 0
  }

  /** Exactly when a step keeps the books balanced. */
  ghost predicate Right(l: Ledger, e: Step)
    requires Enabled(l, e)
  {
    var i := Touches(l, e);
    match e
    case Complete(_, _) => Fails(l, e) || Counted(l.files[i.value])
    case Sweep(snap) => Fails(l, e) || ReleaseRight(l, i, snap)
    case Delete(snap) => ReleaseRight(l, i, snap)
    case HardDelete(snap) =>
      if Counted(snap) then ReleaseRight(l, i, snap) else i.Some? ==> !Counted(l.files[i.value])
    case Verdict(_) => Counted(l.files[i.value])
    case _ => true
  }

  lemma RowsReplaced(l: Ledger, i: nat, f: File)
    requires i < |l.files|
    ensures Replaced(l.files, i, f) + l.open == Replaced(Rows(l), i, f) && Rows(l)[i] == l.files[i]
  {
  }

  lemma RowsRemoved(l: Ledger, i: nat)
    requires i < |l.files|
    ensures Removed(l.files, i) + l.open == Removed(Rows(l), i) && Rows(l)[i] == l.files[i]
  {
  }

  lemma OpenRemoved(l: Ledger, j: nat)
    requires j < |l.open|
    ensures l.files + Removed(l.open, j) == Removed(Rows(l), |l.files| + j) && Rows(l)[|l.files| + j] == l.open[j]
  {
  }

  lemma {:induction false} TotalsCat(a: seq<File>, b: seq<File>, t: Tenant)
    ensures Bytes(a + b, t) == Bytes(a, t) + Bytes(b, t) && Count(a + b, t) == Count(a, t) + Count(b, t)
    decreases b
  {
    if b == [] {
      assert a + b == a;
    } else {
      var n := |b| - 1;
      TotalsCat(a, b[..n], t);
      assert (a + b)[..|a| + n] == a + b[..n];
    }
  }

  lemma InsertKeeps(l: Ledger, j: nat)
    requires j < |l.open| && Balanced(Rows(l), l.book)
    ensures Balanced(l.files + [l.open[j]] + Removed(l.open, j), l.book)
  {
    var rows := l.files + [l.open[j]] + Removed(l.open, j);
    forall t ensures Agrees(rows, l.book, t) {
      assert Agrees(Rows(l), l.book, t);
      TotalsCat(l.files + [l.open[j]], Removed(l.open, j), t);
      AddedTotals(l.files, l.open[j], t);
      RemovedTotals(l.open, j, t);
      TotalsCat(l.files, l.open, t);
    }
  }

  /** A commit that has found its row. */
  lemma CommitExactly(l: Ledger, e: Step, i: nat)
    requires Known(l) && Balanced(Rows(l), l.book) && Enabled(l, e) && !Fails(l, e) && Touches(l, e) == Some(i)
    ensures Balanced(Rows(Apply(l, e)), Apply(l, e).book) <==> Right(l, e)
  {
    var f := RowAfter(l.files[i], e);
    RowsReplaced(l, i, f);
    RowsRemoved(l, i);
    if e.Complete? || e.Sweep? || e.Delete? || e.HardDelete? { assert Vouches(e.snap, Rows(l)[i]); }
    match e
    case Complete(_, _) => CompletingCommitExactly(Rows(l), l.book, i, f);
    case Sweep(snap) => ReleasingCommitExactly(Rows(l), l.book, i, f, snap.size);
    case Delete(snap) => ReleasingCommitExactly(Rows(l), l.book, i, f, snap.size);
    case HardDelete(snap) =>
      HardDeleteCommitExactly(Rows(l), l.book, i, snap.size);
      SilentHardDeleteExactly(Rows(l), l.book, i);
    case _ => QuarantineExactly(Rows(l), l.book, i, f);
  }

  /** Every step keeps the balance exactly when it is right. */
  lemma BalanceExactly(l: Ledger, e: Step)
    requires Known(l) && Balanced(Rows(l), l.book) && Enabled(l, e)
    ensures Balanced(Rows(Apply(l, e)), Apply(l, e).book) <==> Right(l, e)
  {
    if Fails(l, e) { return; }
    if i :| Touches(l, e) == Some(i) {
      CommitExactly(l, e, i);
      return;
    }
    match e
    case Reserve(t, size, at) =>
      var f := File(l.next, t, size, PendingUpload, 1, Some(at), false);
      AddedBalance(Rows(l), l.book, f, BookAfter(l, e));
      assert Rows(l) + [f] == l.files + (l.open + [f]);
    case Insert(j) => InsertKeeps(l, j);
    case Cancel(j) =>
      OpenRemoved(l, j);
      HardDeleteCommitExactly(Rows(l), l.book, |l.files| + j, l.open[j].size);
    case Read(_) =>
    case Delete(snap) => GoneCommitExactly(Rows(l), l.book, snap.owner, snap.size);
    case HardDelete(snap) => GoneCommitExactly(Rows(l), l.book, snap.owner, snap.size);
    case _ =>
  }

  lemma QuotasStep(l: Ledger, e: Step)
    requires Quotas(l.book) && Enabled(l, e)
    ensures Quotas(Apply(l, e).book)
  {
    match e
    case Reserve(t, size, _) => QuotasKept(l.book, t, size, 1);
    case Cancel(j) => QuotasKept(l.book, l.open[j].owner, l.open[j].size, 1);
    case Complete(snap, actual) =>
      if actual > snap.size { QuotasKept(l.book, snap.owner, actual - snap.size, 0); }
      else if actual < snap.size { QuotasKept(l.book, snap.owner, snap.size - actual, 0); }
    case Sweep(snap) => QuotasKept(l.book, snap.owner, snap.size, 1);
    case Delete(snap) => QuotasKept(l.book, snap.owner, snap.size, 1);
    case HardDelete(snap) => QuotasKept(l.book, snap.owner, snap.size, 1);
    case _ =>
  }

  lemma KnownReplaced(l: Ledger, i: nat, f: File, book: Book)
    requires Known(l) && i < |l.files| && f.id == l.files[i].id && f.owner == l.files[i].owner
    requires f.version > l.files[i].version || (f.version == l.files[i].version && f.size == l.files[i].size)
    ensures Known(l.(files := Replaced(l.files, i, f), book := book))
  {
    var l' := l.(files := Replaced(l.files, i, f), book := book);
    RowsReplaced(l, i, f);
    assert forall k :: 0 <= k < |Rows(l')| ==> Rows(l')[k].id == Rows(l)[k].id;
    forall s, k | s in l.read && 0 <= k < |Rows(l')| ensures Vouches(s, Rows(l')[k]) {
      assert Vouches(s, Rows(l)[k]);
    }
  }

  /** Rows that are a selection of the rows before, each used once. */
  lemma KnownSelected(l: Ledger, l': Ledger, from: seq<nat>)
    requires Known(l) && l'.read == l.read && l'.next == l.next
    requires |from| == |Rows(l')|
    requires forall k :: 0 <= k < |from| ==> from[k] < |Rows(l)| && Rows(l')[k] == Rows(l)[from[k]]
    requires forall k, m :: 0 <= k < m < |from| ==> from[k] != from[m]
    requires forall j :: 0 <= j < |l'.open| ==> Counted(l'.open[j])
    ensures Known(l')
  {
    forall i, j | 0 <= i < j < |Rows(l')| ensures Rows(l')[i].id != Rows(l')[j].id {
      assert from[i] != from[j];
      assert from[i] < from[j] || from[j] < from[i];
    }
    forall s, k | s in l.read && 0 <= k < |Rows(l')| ensures Vouches(s, Rows(l')[k]) {
      assert Vouches(s, Rows(l)[from[k]]);
    }
  }

  lemma KnownOpen(l: Ledger, f: File, book: Book)
    requires Known(l) && f.id == l.next && Counted(f)
    ensures Known(l.(open := l.open + [f], book := book, next := l.next + 1))
  {
    var l' := l.(open := l.open + [f], book := book, next := l.next + 1);
    assert Rows(l') == Rows(l) + [f];
    forall s, k | s in l.read && 0 <= k < |Rows(l')| ensures Vouches(s, Rows(l')[k]) {
      if k < |Rows(l)| { assert Vouches(s, Rows(l)[k]); }
    }
  }

  lemma KnownInserted(l: Ledger, j: nat)
    requires Known(l) && j < |l.open|
    ensures Known(l.(files := l.files + [l.open[j]], open := Removed(l.open, j)))
  {
    var n := |l.files|;
    var from := seq(|Rows(l)|, k requires 0 <= k < |Rows(l)| =>
      if k < n then k else if k == n then n + j else if k <= n + j then k - 1 else k);
    KnownSelected(l, l.(files := l.files + [l.open[j]], open := Removed(l.open, j)), from);
  }

  lemma KnownCancelled(l: Ledger, j: nat, book: Book)
    requires Known(l) && j < |l.open|
    ensures Known(l.(open := Removed(l.open, j), book := book))
  {
    var n := |l.files| + j;
    OpenRemoved(l, j);
    var from := seq(|Rows(l)| - 1, k requires 0 <= k => if k < n then k else k + 1);
    KnownSelected(l, l.(open := Removed(l.open, j), book := book), from);
  }

  lemma KnownRemoved(l: Ledger, i: nat, book: Book)
    requires Known(l) && i < |l.files|
    ensures Known(l.(files := Removed(l.files, i), book := book))
  {
    RowsRemoved(l, i);
    var from := seq(|Rows(l)| - 1, k requires 0 <= k => if k < i then k else k + 1);
    KnownSelected(l, l.(files := Removed(l.files, i), book := book), from);
  }

  lemma KnownRead(l: Ledger, i: nat)
    requires Known(l) && i < |l.files|
    ensures Known(l.(read := l.read + {l.files[i]}))
  {
    var l' := l.(read := l.read + {l.files[i]});
    assert Rows(l)[i] == l.files[i];
    forall s, k | s in l'.read && 0 <= k < |Rows(l')| ensures Vouches(s, Rows(l')[k]) {
      if s in l.read {
        assert Vouches(s, Rows(l)[k]);
      } else if k != i {
        assert Rows(l)[k].id != Rows(l)[i].id;
      }
    }
  }

  lemma KnownStep(l: Ledger, e: Step)
    requires Known(l) && Enabled(l, e)
    ensures Known(Apply(l, e))
  {
    if Fails(l, e) { return; }
    if i :| Touches(l, e) == Some(i) {
      if e.HardDelete? { KnownRemoved(l, i, BookAfter(l, e)); }
      else { KnownReplaced(l, i, RowAfter(l.files[i], e), BookAfter(l, e)); }
      return;
    }
    if e.Reserve? {
      KnownOpen(l, File(l.next, e.owner, e.size, PendingUpload, 1, Some(e.expiresAt), false), BookAfter(l, e));
    } else if e.Insert? {
      KnownInserted(l, e.j);
    } else if e.Cancel? {
      KnownCancelled(l, e.j, BookAfter(l, e));
    } else if e.Read? {
      KnownRead(l, e.i);
    } else {
      assert Rows(Apply(l, e)) == Rows(l);
    }
  }

  lemma InitSound(l: Ledger)
    requires Init(l)
    ensures Known(l) && Sound(l)
  {
    assert Rows(l) == [];
    forall t ensures Agrees(Rows(l), l.book, t) { }
  }

  ghost predicate RightRun(l: Ledger, es: seq<Step>)
    requires Runs(l, es)
    decreases es
  {
    es == [] || (Right(l, es[0]) && RightRun(Apply(l, es[0]), es[1..]))
  }

  /** The books are balanced in every state of the run. */
  ghost predicate AlwaysBalanced(l: Ledger, es: seq<Step>)
    requires Runs(l, es)
    decreases es
  {
    Balanced(Rows(l), l.book) && (es == [] || AlwaysBalanced(Apply(l, es[0]), es[1..]))
  }

  lemma {:induction false} BalancedRunExactly(l: Ledger, es: seq<Step>)
    requires Known(l) && Balanced(Rows(l), l.book) && Runs(l, es)
    ensures AlwaysBalanced(l, es) <==> RightRun(l, es)
    decreases es
  {
    if es != [] {
      BalanceExactly(l, es[0]);
      KnownStep(l, es[0]);
      if Right(l, es[0]) { BalancedRunExactly(Apply(l, es[0]), es[1..]); }
    }
  }

  /** For every interleaving: the recorded bytes and files of every tenant equal the totals over its
      files and open reservations in every state if and only if every commit is right. */
  lemma UsageConservedExactly(l: Ledger, es: seq<Step>)
    requires Init(l) && Runs(l, es)
    ensures AlwaysBalanced(l, es) <==> RightRun(l, es)
  {
    InitSound(l);
    BalancedRunExactly(l, es);
  }

  /** Quotas hold in every run, balanced or not. */
  lemma {:induction false} WithinQuotaRun(l: Ledger, es: seq<Step>)
    requires Quotas(l.book) && Runs(l, es)
    ensures Quotas(After(l, es).book)
    decreases es
  {
    if es != [] {
      QuotasStep(l, es[0]);
      WithinQuotaRun(Apply(l, es[0]), es[1..]);
    }
  }

  /** The call reads and commits without another commit on its row in between. */
  ghost predicate Atomic(l: Ledger, e: Step)
    requires Enabled(l, e)
  {
    var i := Touches(l, e);
    match e
    case Complete(snap, _) => i.Some? && snap == l.files[i.value]
    case Sweep(snap) => i.Some? && snap == l.files[i.value]
    case Delete(snap) => i.Some? && snap == l.files[i.value]
    case HardDelete(snap) => i.Some? && snap == l.files[i.value]
    case Verdict(i) => Counted(l.files[i])
    case _ => true
  }

  ghost predicate AtomicRun(l: Ledger, es: seq<Step>)
    requires Runs(l, es)
    decreases es
  {
    es == [] || (Atomic(l, es[0]) && AtomicRun(Apply(l, es[0]), es[1..]))
  }

  lemma {:induction false} AtomicIsRight(l: Ledger, es: seq<Step>)
    requires Runs(l, es) && AtomicRun(l, es)
    ensures RightRun(l, es)
    decreases es
  {
    if es != [] {
      assert Atomic(l, es[0]);
      AtomicIsRight(Apply(l, es[0]), es[1..]);
    }
  }

  lemma {:induction false} BalancedAtEnd(l: Ledger, es: seq<Step>)
    requires Runs(l, es) && AlwaysBalanced(l, es)
    ensures Balanced(Rows(After(l, es)), After(l, es).book)
    decreases es
  {
    if es != [] { BalancedAtEnd(Apply(l, es[0]), es[1..]); }
  }

  /** Usage conservation: with atomic calls, failing ones included, every account equals the totals
      over its tenant's files and open reservations, and stays within its quota. */
  lemma UsageConservation(l: Ledger, es: seq<Step>, t: Tenant)
    requires Init(l) && Runs(l, es) && AtomicRun(l, es)
    ensures Agrees(Rows(After(l, es)), After(l, es).book, t)
    ensures t in After(l, es).book ==> InQuota(After(l, es).book[t])
  {
    InitSound(l);
    AtomicIsRight(l, es);
    UsageConservedExactly(l, es);
    BalancedAtEnd(l, es);
    WithinQuotaRun(l, es);
  }

  /** Two hard deletes that both read a counted file before either commits release it twice: the second
      finds no row and unbalances every account that still has a file. */
  lemma DoubleHardDeleteUnbalances(l: Ledger, i: nat)
    requires Known(l) && Balanced(Rows(l), l.book) && i < |l.files| && l.files[i] in l.read && Counted(l.files[i])
    requires Count(Rows(l), l.files[i].owner) >= 2
    ensures var e := HardDelete(l.files[i]);
      && Enabled(l, e) && Right(l, e) && Enabled(Apply(l, e), e) && !Right(Apply(l, e), e)
      && !Balanced(Rows(Apply(Apply(l, e), e)), Apply(Apply(l, e), e).book)
  {
    var e := HardDelete(l.files[i]);
    var l1 := Apply(l, e);
    assert Touches(l, e) == Some(i) by { OnlyRow(l, i); }
    BalanceExactly(l, e);
    KnownStep(l, e);
    GoneAfter(l, i);
    RowsRemoved(l, i);
    RemovedTotals(Rows(l), i, l.files[i].owner);
    BalanceExactly(l1, e);
  }

  lemma OnlyRow(l: Ledger, i: nat)
    requires Known(l) && i < |l.files|
    ensures Position(l.files, l.files[i].id, 0) == Some(i)
  {
    var j := Position(l.files, l.files[i].id, 0);
    assert Rows(l)[i] == l.files[i] && Rows(l)[j.value] == l.files[j.value];
  }

  /** Once a row is removed its id is not found again. */
  lemma GoneAfter(l: Ledger, i: nat)
    requires Known(l) && i < |l.files|
    ensures Position(Removed(l.files, i), l.files[i].id, 0) == None
  {
    var fs := Removed(l.files, i);
    forall k | 0 <= k < |fs| ensures fs[k].id != l.files[i].id {
      var j := if k < i then k else k + 1;
      assert fs[k] == l.files[j] && Rows(l)[j] == l.files[j] && Rows(l)[i] == l.files[i];
    }
  }

  /** How a step may leave the row with the id it works on. */
  ghost predicate RowFollows(e: Step, f: File, f': File) {
    && f'.id == f.id && f'.owner == f.owner && f'.held == f.held
    && match e
       case Complete(snap, actual) =>
         if f.version == snap.version
         then f'.status.Active? && f'.size == actual && f'.expiresAt.None? && f'.version == f.version + 1 else f' == f
       case Sweep(snap) =>
         if f.version == snap.version
         then f'.status.Deleted? && f'.size == f.size && f'.version == f.version + 1 else f' == f
       case Delete(_) =>
         f'.size == f.size && f'.version == f.version && if f.status.Deleted? then f' == f else f'.status.Deleting?
       case Verdict(_) => f'.size == f.size && f'.status.Quarantined? && f'.version == f.version + 1
       case Purged(_) => f'.size == f.size && f'.version == f.version && f'.status.Deleted?
       case _ => f' == f
  }

  /** In every interleaving: a step changes at most the row it works on, as its statement says, and
      nothing if it fails; a hard delete removes that row, and every other row is kept. */
  lemma StepMovesRow(l: Ledger, e: Step, i: nat)
    requires Known(l) && Enabled(l, e) && i < |l.files|
    ensures var l', f := Apply(l, e), l.files[i];
      if Touches(l, e) != Some(i) then f in l'.files
      else if e.HardDelete? then Position(l'.files, f.id, 0).None?
      else i < |l'.files| && if Fails(l, e) then l' == l else RowFollows(e, f, l'.files[i])
  {
    var l' := Apply(l, e);
    if Touches(l, e) == Some(i) {
      if e.HardDelete? { GoneAfter(l, i); }
    } else if !Fails(l, e) {
      if e.HardDelete? && Touches(l, e).Some? {
        var j := Touches(l, e).value;
        assert l'.files[if i < j then i else i - 1] == l.files[i];
      } else {
        assert i < |l'.files| && l'.files[i] == l.files[i];
      }
    }
  }
}
