/** The calls that change storage accounting, as the services make them: each is a sequence of the
    steps of the accounting runs, with the compensation and rollback of its failing paths. */
module Accounts {
  import opened Wrappers
  import opened Usage
  import opened UsageRuns

  datatype Reply = Done | NotFound | Conflict | LegalHold | QuotaExceeded | Unavailable | Aborted

  lemma StepSound(l: Ledger, e: Step)
    requires Known(l) && Sound(l) && Enabled(l, e) && Atomic(l, e)
    ensures Known(Apply(l, e)) && Sound(Apply(l, e))
  {
    KnownStep(l, e);
    BalanceExactly(l, e);
    QuotasStep(l, e);
  }

  /** A call that reads row `i` and commits with what it has read. */
  function Committed(l: Ledger, i: nat, e: Step): Ledger
    requires i < |l.files| && Enabled(Apply(l, Read(i)), e)
  {
    Apply(Apply(l, Read(i)), e)
  }

  lemma CommittedSound(l: Ledger, i: nat, e: Step)
    requires Known(l) && Sound(l) && i < |l.files| && Enabled(Apply(l, Read(i)), e) && Atomic(Apply(l, Read(i)), e)
    ensures Known(Committed(l, i, e)) && Sound(Committed(l, i, e))
  {
    StepSound(l, Read(i));
    StepSound(Apply(l, Read(i)), e);
  }

  /** Steps a call makes, written out. */
  lemma Initiated(l: Ledger, f: File)
    requires Known(l) && Sound(l) && l.open == [] && f.id == l.next && TryReserve(l.book, f.owner, f.size, 1).Some?
    requires f.status.PendingUpload? && f.version == 1 && f.expiresAt.Some? && !f.held
    ensures var book := TryReserve(l.book, f.owner, f.size, 1).value;
      var l1 := Apply(l, Reserve(f.owner, f.size, f.expiresAt.value));
      var done := l.(files := l.files + [f], book := book, next := l.next + 1);
      var cancelled := l.(book := Release(book, f.owner, f.size, 1), next := l.next + 1);
      && |l1.open| == 1 && Apply(l1, Insert(0)) == done && Apply(l1, Cancel(0)) == cancelled
      && Known(done) && Sound(done) && Known(cancelled) && Sound(cancelled)
  {
    var e := Reserve(f.owner, f.size, f.expiresAt.value);
    StepSound(l, e);
    var l1 := Apply(l, e);
    assert l1.open == [f] && Removed(l1.open, 0) == [];
    StepSound(l1, Insert(0));
    StepSound(l1, Cancel(0));
  }

  lemma Changed(l: Ledger, i: nat, e: Step)
    requires Known(l) && Sound(l) && i < |l.files|
    requires (e.Complete? || e.Sweep? || e.Delete? || e.HardDelete?) && e.snap == l.files[i]
    requires Enabled(Apply(l, Read(i)), e) && !Fails(Apply(l, Read(i)), e)
    ensures var files := if e.HardDelete? then Removed(l.files, i) else Replaced(l.files, i, RowAfter(l.files[i], e));
      var l' := l.(files := files, book := BookAfter(Apply(l, Read(i)), e), read := l.read + {l.files[i]});
      Committed(l, i, e) == l' && Known(l') && Sound(l')
  {
    OnlyRow(l, i);
    CommittedSound(l, i, e);
  }

  /** How `complete` answers before it touches the database. */
  function CompleteCheck(files: seq<File>, caller: Tenant, id: nat, stat: Option<nat>): (r: Reply)
    ensures r == NotFound <==> var i := Position(files, id, 0);
      i.None? || files[i.value].owner != caller || files[i.value].status in {FileStatus.Deleting, FileStatus.Deleted}
    ensures r != NotFound ==> var f := files[Position(files, id, 0).value];
      && (r == Conflict <==> f.status == Quarantined)
      && (r == Unavailable <==> f.status == PendingUpload && stat == None)
      && (r == Done <==> f.status == Active || (f.status == PendingUpload && stat.Some?))
  {
    var i := Position(files, id, 0);
    if i.None? || files[i.value].status.Deleted? || files[i.value].status.Deleting? then NotFound
    else if files[i.value].owner != caller then NotFound
    else if files[i.value].status.Active? then Done
    else if !files[i.value].status.PendingUpload? then Conflict
    else if stat.None? then Unavailable
    else Done
  }

  lemma {:induction false} SamePosition(fs: seq<File>, fs': seq<File>, id: nat, k: nat)
    requires k <= |fs| == |fs'| && forall j :: 0 <= j < |fs| ==> fs'[j].id == fs[j].id
    ensures Position(fs', id, k) == Position(fs, id, k)
    decreases |fs| - k
  {
    if k < |fs| { SamePosition(fs, fs', id, k + 1); }
  }

  /** What a balanced ledger says of the account when one of its counted rows is released or adjusted. */
  lemma RowMoves(l: Ledger, i: nat, actual: nat)
    requires Sound(l) && l.open == [] && i < |l.files| && Counted(l.files[i])
    ensures var f := l.files[i]; Moves(l.book, Release(l.book, f.owner, f.size, 1), f.owner, 0 - f.size, -1)
    ensures var r := Adjust(l.book, l.files[i].owner, l.files[i].size, actual);
      && (r.Some? ==> Moves(l.book, r.value, l.files[i].owner, actual - l.files[i].size, 0))
      && (r.None? <==> Exceeded(l.book, l.files[i].owner, actual - l.files[i].size))
  {
    assert Rows(l) == l.files;
    ReleaseMoves(l.files, l.book, i);
    AdjustMoves(l.files, l.book, i, actual);
  }

  /** So many bytes more are over the limit of the tenant. */
  predicate Exceeded(book: Book, t: Tenant, bytes: int) {
    t in book && book[t].maxBytes.Some? && book[t].bytes + bytes > book[t].maxBytes.value
  }

  /** The committing path of `complete`, written out. */
  lemma Activated(l: Ledger, i: nat, actual: nat, book: Book)
    requires Known(l) && Sound(l) && i < |l.files| && l.files[i].status.PendingUpload?
    requires Adjust(l.book, l.files[i].owner, l.files[i].size, actual) == Some(book)
    ensures var f := l.files[i];
      var f' := f.(status := Active, size := actual, version := f.version + 1, expiresAt := None);
      var l' := l.(files := l.files[i := f'], book := book, read := l.read + {f});
      Enabled(Apply(l, Read(i)), Step.Complete(f, actual)) && Committed(l, i, Step.Complete(f, actual)) == l' &&
      Known(l') && Sound(l')
  {
    OnlyRow(l, i);
    Changed(l, i, Step.Complete(l.files[i], actual));
  }

  /** A reservation that is given back. */
  lemma GivenBack(book: Book, t: Tenant, size: nat)
    requires TryReserve(book, t, size, 1).Some?
    ensures Moves(book, Release(TryReserve(book, t, size, 1).value, t, size, 1), t, 0, 0)
  {
  }

  /** The row is ACTIVE now, has the size of the object and no expiry; its id, owner and hold are kept, and
      so is every other row. */
  ghost predicate Completed(fs: seq<File>, i: nat, actual: nat, fs': seq<File>)
    requires i < |fs|
  {
    fs' == fs[i := File(fs[i].id, fs[i].owner, actual, Active, fs[i].version + 1, None, fs[i].held)]
  }

  predicate Expired(f: File, cutoff: int) {
    f.status.PendingUpload? && f.expiresAt.Some? && f.expiresAt.value < cutoff
  }

  function SweptRow(f: File, cutoff: int, broken: set<nat>): File {
    if Expired(f, cutoff) && f.id !in broken then f.(status := FileStatus.Deleted, version := f.version + 1) else f
  }

  function NumSwept(fs: seq<File>, cutoff: int, broken: set<nat>): nat {
    if fs == [] then 0
    else
      var f := fs[|fs| - 1];
      NumSwept(fs[..|fs| - 1], cutoff, broken) + if Expired(f, cutoff) && f.id !in broken then 1 else 0
  }

  class Store {
    var files: seq<File>
    var book: Book
    var next: nat
    ghost var read: set<File>

    ghost function State(): Ledger
      reads this
    {
      Ledger(files, book, [], read, next)
    }

    ghost predicate Valid()
      reads this
    {
      Known(State()) && Sound(State())
    }

    /** Accounts with fixed quotas and nothing in them. */
    constructor (quotas: map<Tenant, (Option<nat>, Option<nat>)>)
      ensures Valid() && files == [] && book.Keys == quotas.Keys
    {
      files, next, read := [], 0, {};
      book := map t <- quotas :: Account(0, 0, quotas[t].0, quotas[t].1);
      new;
      InitSound(State());
    }

    /** Starts a presigned upload: reserves, mints the URL, inserts the row; a failure after the
        reservation gives it back. */
    method Initiate(owner: Tenant, size: nat, expiresAt: int, minted: bool, inserted: bool) returns (r: Reply)
      requires Valid()
      modifies this
      ensures Valid()
      ensures r == if TryReserve(old(book), owner, size, 1).None? then QuotaExceeded
                   else if minted && inserted then Done else Aborted
      ensures r.QuotaExceeded? ==> State() == old(State())
      ensures r.Aborted? ==> State() == Apply(Apply(old(State()), Reserve(owner, size, expiresAt)), Cancel(0))
      ensures r.Done? ==> State() == Apply(Apply(old(State()), Reserve(owner, size, expiresAt)), Insert(0))
      ensures r.Done? ==> Moves(old(book), book, owner, size, 1)
      ensures r.Done? ==>
        files == old(files) + [File(old(next), owner, size, PendingUpload, 1, Some(expiresAt), false)]
      ensures !r.Done? ==> files == old(files) && Moves(old(book), book, owner, 0, 0)
    {
      ghost var l := State();
      ReserveExactly(book, owner, size, 1);
      var reserved := TryReserve(book, owner, size, 1);
      if reserved.None? {
        return QuotaExceeded;
      }
      book := reserved.value;
      var f := File(next, owner, size, PendingUpload, 1, Some(expiresAt), false);
      Initiated(l, f);
      next := next + 1;
      if !minted || !inserted {
        GivenBack(old(book), owner, size);
        book := Release(book, owner, size, 1);
        return Aborted;
      }
      files := files + [f];
      return Done;
    }

    method Find(id: nat) returns (r: Option<nat>)
      ensures r == Position(files, id, 0)
    {
      var i := 0;
      while i < |files|
        invariant i <= |files| && Position(files, id, 0) == Position(files, id, i)
      {
        if files[i].id == id {
          return Some(i);
        }
        i := i + 1;
      }
      return None;
    }

    /** The transaction of `complete` on a pending row: adjusts the account by the difference and makes the
        row ACTIVE, with the size of the object and without expiry; where it fails nothing changes. */
    method Activate(i: nat, actual: nat, commits: bool) returns (r: Reply)
      requires Valid() && i < |files| && files[i].status.PendingUpload?
      modifies this
      ensures Valid() && (r == Done || r == QuotaExceeded || r == Aborted)
      ensures r == QuotaExceeded <==> Exceeded(old(book), old(files)[i].owner, actual - old(files)[i].size)
      ensures r == QuotaExceeded <==> Adjust(old(book), old(files)[i].owner, old(files)[i].size, actual).None?
      ensures r == Done ==> commits && State() == Committed(old(State()), i, Step.Complete(old(files)[i], actual))
      ensures r == Aborted ==> !commits
      ensures r != Done ==> State() == old(State())
      ensures r == Done ==> Completed(old(files), i, actual, files)
      ensures r == Done ==> Moves(old(book), book, old(files)[i].owner, actual - old(files)[i].size, 0)
    {
      var file, before := files[i], book;
      ghost var l := State();
      RowMoves(l, i, actual);
      if actual > file.size {
        var extra := TryReserve(book, file.owner, actual - file.size, 0);
        if extra.None? {
          return QuotaExceeded;
        }
        book := extra.value;
      } else if actual < file.size {
        book := Release(book, file.owner, file.size - actual, 0);
      }
      if !commits {
        book := before;
        return Aborted;
      }
      Activated(l, i, actual, book);
      files := files[i := file.(status := Active, size := actual, version := file.version + 1, expiresAt := None)];
      read := read + {file};
      return Done;
    }

    /** Completes a presigned upload whose object has `stat` bytes, or answers as its checks demand. A
        second call on a completed upload says so and changes nothing. */
    method Complete(caller: Tenant, id: nat, stat: Option<nat>, commits: bool) returns (r: Reply)
      requires Valid()
      modifies this
      ensures Valid()
      ensures var i := Position(old(files), id, 0); var check := CompleteCheck(old(files), caller, id, stat);
        if !check.Done? || old(files)[i.value].status.Active? then r == check && State() == old(State())
        else
          var f := old(files)[i.value];
          && (r == QuotaExceeded <==> Exceeded(old(book), caller, stat.value - f.size))
          && (r != QuotaExceeded ==> r == if commits then Done else Aborted)
          && (r != Done ==> State() == old(State()))
          && (r == Done ==> Completed(old(files), i.value, stat.value, files))
          && (r == Done ==> Moves(old(book), book, caller, stat.value - f.size, 0))
          && (r == Done ==> State() == Committed(old(State()), i.value, Step.Complete(f, stat.value)))
      ensures r.Done? ==> forall s :: CompleteCheck(files, caller, id, s).Done?
      ensures r.Done? ==> Position(files, id, 0).Some? && files[Position(files, id, 0).value].status.Active?
    {
      var i := Find(id);
      if i.None? || files[i.value].status.Deleted? || files[i.value].status.Deleting? {
        return NotFound;
      }
      if files[i.value].owner != caller {
        return NotFound;
      }
      if files[i.value].status.Active? {
        return Done;
      }
      if !files[i.value].status.PendingUpload? {
        return Conflict;
      }
      if stat.None? {
        return Unavailable;
      }
      r := Activate(i.value, stat.value, commits);
      SamePosition(old(files), files, id, 0);
    }

    /** Deletes a file: marks it and releases its usage in one transaction. */
    method Delete(id: nat, commits: bool) returns (r: Reply)
      requires Valid()
      modifies this
      ensures Valid()
      ensures var i := Position(old(files), id, 0);
        if i.None? then r == NotFound && State() == old(State())
        else if old(files)[i.value].held then r == LegalHold && State() == old(State())
        else if !Counted(old(files)[i.value]) then r == Done && State() == old(State())
        else if !commits then r == Aborted && State() == old(State())
        else r == Done && State() == Committed(old(State()), i.value, Step.Delete(old(files)[i.value]))
      ensures var i := Position(old(files), id, 0);
        i.Some? && Counted(old(files)[i.value]) && r.Done? ==>
          var f := old(files)[i.value];
          && files == old(files)[i.value :=
               File(id, f.owner, f.size, FileStatus.Deleting, f.version, f.expiresAt, f.held)]
          && Moves(old(book), book, f.owner, 0 - f.size, -1)
    {
      var i := Find(id);
      if i.None? {
        return NotFound;
      }
      var file := files[i.value];
      if file.held {
        return LegalHold;
      }
      if file.status.Deleted? {
        return Done;
      }
      if !file.status.Deleting? {
        if !commits {
          return Aborted;
        }
        Changed(State(), i.value, Step.Delete(file));
        RowMoves(State(), i.value, 0);
        files := files[i.value := file.(status := FileStatus.Deleting)];
        book := Release(book, file.owner, file.size, 1);
        read := read + {file};
      }
      return Done;
    }

    /** Erases a file: releases its usage unless it was soft-deleted before, and removes its row. */
    method HardDelete(id: nat, dryRun: bool, commits: bool) returns (r: Reply)
      requires Valid()
      modifies this
      ensures Valid()
      ensures var i := Position(old(files), id, 0);
        if i.None? then r == NotFound && State() == old(State())
        else if dryRun then r == Done && State() == old(State())
        else if !commits then r == Aborted && State() == old(State())
        else r == Done && State() == Committed(old(State()), i.value, Step.HardDelete(old(files)[i.value]))
      ensures var i := Position(old(files), id, 0);
        i.Some? && !dryRun && r.Done? ==>
          var f := old(files)[i.value];
          && files == old(files)[..i.value] + old(files)[i.value + 1..] && Position(files, id, 0).None?
          && if Counted(f) then Moves(old(book), book, f.owner, 0 - f.size, -1) else book == old(book)
    {
      var i := Find(id);
      if i.None? {
        return NotFound;
      }
      if dryRun {
        return Done;
      }
      if !commits {
        return Aborted;
      }
      var file := files[i.value];
      Changed(State(), i.value, Step.HardDelete(file));
      GoneAfter(State(), i.value);
      if Counted(file) { RowMoves(State(), i.value, 0); }
      if !file.status.Deleted? && !file.status.Deleting? {
        book := Release(book, file.owner, file.size, 1);
      }
      files := files[..i.value] + files[i.value + 1..];
      read := read + {file};
      return Done;
    }

    /** The transaction for one expired upload. */
    method SweepOne(k: nat)
      requires Valid() && k < |files| && files[k].status.PendingUpload?
      modifies this`files, this`book, this`read
      ensures Valid()
      ensures State() == Committed(old(State()), k, Step.Sweep(old(files)[k]))
      ensures var f := old(files)[k];
        && files == old(files)[k := f.(status := FileStatus.Deleted, version := f.version + 1)]
        && Moves(old(book), book, f.owner, 0 - f.size, -1)
    {
      var item := files[k];
      OnlyRow(State(), k);
      Changed(State(), k, Step.Sweep(item));
      RowMoves(State(), k, 0);
      book := Release(book, item.owner, item.size, 1);
      files := files[k := item.(status := FileStatus.Deleted, version := item.version + 1)];
      read := read + {item};
    }

    /** Sweeps the expired pending uploads; an item whose transaction fails is skipped. */
    method SweepExpired(cutoff: int, broken: set<nat>) returns (swept: nat)
      requires Valid()
      modifies this
      ensures Valid() && next == old(next) && |files| == |old(files)|
      ensures forall k :: 0 <= k < |files| ==> var f := old(files)[k];
        if f.status.PendingUpload? && f.expiresAt.Some? && f.expiresAt.value < cutoff && f.id !in broken
        then files[k] == File(f.id, f.owner, f.size, FileStatus.Deleted, f.version + 1, f.expiresAt, f.held)
        else files[k] == f
      ensures swept == NumSwept(old(files), cutoff, broken)
    {
      swept := 0;
      var k := 0;
      while k < |files|
        invariant Valid() && next == old(next) && k <= |files| == |old(files)|
        invariant forall m :: 0 <= m < k ==> files[m] == SweptRow(old(files)[m], cutoff, broken)
        invariant forall m :: k <= m < |files| ==> files[m] == old(files)[m]
        invariant swept == NumSwept(old(files)[..k], cutoff, broken)
      {
        assert old(files)[..k + 1][..k] == old(files)[..k];
        var item := files[k];
        if Expired(item, cutoff) && item.id !in broken {
          SweepOne(k);
          swept := swept + 1;
        }
        k := k + 1;
      }
      assert old(files)[..k] == old(files);
    }
  }
}
