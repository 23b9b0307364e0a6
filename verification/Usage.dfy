/** Storage accounting: what each tenant's account records against what its files amount to. */
module Usage {
  import opened Wrappers

  type Tenant = (string, string)   // namespace, tenant id

  datatype FileStatus = PendingUpload | Active | Quarantined | Deleting | Deleted

  datatype File =
    File(id: nat, owner: Tenant, size: nat, status: FileStatus, version: nat, expiresAt: Option<int>, held: bool)

  datatype Account = Account(bytes: nat, files: nat, maxBytes: Option<nat>, maxFiles: Option<nat>)

  type Book = map<Tenant, Account>

  // ---------------------------------------------------------------------------------
  // The usage repository

  predicate Allows(max: Option<nat>, n: nat) {
    max.None? || n <= max.value
  }

  /** Inserts an unlimited account, or adds to the existing one where its limits allow. */
  function TryReserve(book: Book, t: Tenant, bytes: nat, files: nat): Option<Book> {
    if t !in book then Some(book[t := Account(bytes, files, None, None)])
    else
      var a := book[t];
      if Allows(a.maxBytes, a.bytes + bytes) && Allows(a.maxFiles, a.files + files)
      then Some(book[t := a.(bytes := a.bytes + bytes, files := a.files + files)])
      else None
  }

  function Minus(a: nat, b: nat): nat {
    if a > b then a - b else 0
  }

  /** Subtracts from an existing account, never below zero. */
  function Release(book: Book, t: Tenant, bytes: nat, files: nat): Book {
    if t !in book then book
    else
      var a := book[t];
      book[t := a.(bytes := Minus(a.bytes, bytes), files := Minus(a.files, files))]
  }

  // ---------------------------------------------------------------------------------
  // What the files amount to

  predicate Counted(f: File) {
    f.status.PendingUpload? || f.status.Active? || f.status.Quarantined?
  }

  function Weight(f: File, t: Tenant): nat {
    if Counted(f) && f.owner == t then f.size else 0
  }

  function One(f: File, t: Tenant): nat {
    if Counted(f) && f.owner == t then 1 else 0
  }

  function Bytes(fs: seq<File>, t: Tenant): nat {
    if fs == [] then 0 else Bytes(fs[..|fs| - 1], t) + Weight(fs[|fs| - 1], t)
  }

  function Count(fs: seq<File>, t: Tenant): nat {
    if fs == [] then 0 else Count(fs[..|fs| - 1], t) + One(fs[|fs| - 1], t)
  }

  function UsedBytes(book: Book, t: Tenant): nat {
    if t in book then book[t].bytes else 0
  }

  function UsedFiles(book: Book, t: Tenant): nat {
    if t in book then book[t].files else 0
  }

  /** The account of a tenant records exactly the totals over its counted files. */
  ghost predicate Agrees(fs: seq<File>, book: Book, t: Tenant) {
    UsedBytes(book, t) == Bytes(fs, t) && UsedFiles(book, t) == Count(fs, t)
  }

  ghost predicate Balanced(fs: seq<File>, book: Book) {
    forall t {:trigger Agrees(fs, book, t)} :: Agrees(fs, book, t)
  }

  predicate InQuota(a: Account) {
    Allows(a.maxBytes, a.bytes) && Allows(a.maxFiles, a.files)
  }

  predicate Quotas(book: Book) {
    forall t <- book :: InQuota(book[t])
  }

  // ---------------------------------------------------------------------------------
  // Changes of one row

  function Replaced(fs: seq<File>, i: nat, f: File): seq<File>
    requires i < |fs|
  {
    fs[i := f]
  }

  function Removed(fs: seq<File>, i: nat): seq<File>
    requires i < |fs|
  {
    fs[..i] + fs[i + 1..]
  }

  lemma {:induction false} ReplacedTotals(fs: seq<File>, i: nat, f: File, t: Tenant)
    requires i < |fs|
    ensures Bytes(Replaced(fs, i, f), t) == Bytes(fs, t) - Weight(fs[i], t) + Weight(f, t)
    ensures Count(Replaced(fs, i, f), t) == Count(fs, t) - One(fs[i], t) + One(f, t)
    decreases fs
  {
    var n := |fs| - 1;
    if i < n {
      ReplacedTotals(fs[..n], i, f, t);
      assert Replaced(fs, i, f)[..n] == Replaced(fs[..n], i, f);
    } else {
      assert Replaced(fs, i, f)[..n] == fs[..n];
    }
  }

  lemma {:induction false} RemovedTotals(fs: seq<File>, i: nat, t: Tenant)
    requires i < |fs|
    ensures Bytes(Removed(fs, i), t) == Bytes(fs, t) - Weight(fs[i], t)
    ensures Count(Removed(fs, i), t) == Count(fs, t) - One(fs[i], t)
    decreases fs
  {
    var n := |fs| - 1;
    if i < n {
      RemovedTotals(fs[..n], i, t);
      assert Removed(fs, i)[..n - 1] == Removed(fs[..n], i);
    } else {
      assert Removed(fs, i) == fs[..n];
    }
  }

  lemma AddedTotals(fs: seq<File>, f: File, t: Tenant)
    ensures Bytes(fs + [f], t) == Bytes(fs, t) + Weight(f, t)
    ensures Count(fs + [f], t) == Count(fs, t) + One(f, t)
  {
    assert (fs + [f])[..|fs|] == fs;
  }

  /** A row weighs no more than its owner's total. */
  lemma RowInTotals(fs: seq<File>, i: nat, t: Tenant)
    requires i < |fs|
    ensures Weight(fs[i], t) <= Bytes(fs, t) && One(fs[i], t) <= Count(fs, t)
  {
    RemovedTotals(fs, i, t);
  }

  // ---------------------------------------------------------------------------------
  // When a commit keeps the books balanced

  /** The files and the book differ only in what concerns one tenant. */
  ghost predicate Elsewhere(fs: seq<File>, book: Book, fs': seq<File>, book': Book, t: Tenant) {
    forall u {:trigger Bytes(fs', u)} {:trigger Agrees(fs', book', u)} :: u != t ==>
      && Bytes(fs', u) == Bytes(fs, u) && Count(fs', u) == Count(fs, u)
      && UsedBytes(book', u) == UsedBytes(book, u) && UsedFiles(book', u) == UsedFiles(book, u)
  }

  lemma BalanceIsLocal(fs: seq<File>, book: Book, fs': seq<File>, book': Book, t: Tenant)
    requires Balanced(fs, book) && Elsewhere(fs, book, fs', book', t)
    ensures Balanced(fs', book') <==> Agrees(fs', book', t)
  {
    if Agrees(fs', book', t) {
      forall u ensures Agrees(fs', book', u) {
        if u != t { assert Agrees(fs, book, u); }
      }
    }
  }

  lemma ReplacedElsewhere(fs: seq<File>, book: Book, i: nat, f: File, book': Book)
    requires i < |fs| && f.owner == fs[i].owner
    requires forall u :: u != f.owner ==>
      UsedBytes(book', u) == UsedBytes(book, u) && UsedFiles(book', u) == UsedFiles(book, u)
    ensures Elsewhere(fs, book, Replaced(fs, i, f), book', f.owner)
  {
    forall u | u != f.owner
      ensures Bytes(Replaced(fs, i, f), u) == Bytes(fs, u) && Count(Replaced(fs, i, f), u) == Count(fs, u)
    {
      ReplacedTotals(fs, i, f, u);
    }
  }

  lemma RemovedElsewhere(fs: seq<File>, book: Book, i: nat, book': Book)
    requires i < |fs|
    requires forall u :: u != fs[i].owner ==>
      UsedBytes(book', u) == UsedBytes(book, u) && UsedFiles(book', u) == UsedFiles(book, u)
    ensures Elsewhere(fs, book, Removed(fs, i), book', fs[i].owner)
  {
    forall u | u != fs[i].owner
      ensures Bytes(Removed(fs, i), u) == Bytes(fs, u) && Count(Removed(fs, i), u) == Count(fs, u)
    {
      RemovedTotals(fs, i, u);
    }
  }

  /** When releasing `bytes` and one file is right for a row that stops counting (or has stopped
      already). A file that is still counted needs its own size; short of that the only way to be
      right is to clamp to zero what should be zero. A file that no longer counts has been released
      before, which nothing but an empty account forgives. */
  predicate ReleaseFits(fs: seq<File>, c: File, bytes: nat) {
    if Counted(c) then bytes == c.size || (c.size == Bytes(fs, c.owner) && bytes >= c.size)
    else Count(fs, c.owner) == 0
  }

  lemma {:induction false} NoFilesNoBytes(fs: seq<File>, t: Tenant)
    requires Count(fs, t) == 0
    ensures Bytes(fs, t) == 0
  {
    if fs != [] { NoFilesNoBytes(fs[..|fs| - 1], t); }
  }

  /** The transactions of delete and of the upload sweeper, for a size that was read beforehand and
      a row that may have changed since: exactly when the books stay balanced. */
  lemma ReleasingCommitExactly(fs: seq<File>, book: Book, i: nat, f: File, bytes: nat)
    requires i < |fs| && Balanced(fs, book) && f.owner == fs[i].owner && !Counted(f)
    ensures Balanced(Replaced(fs, i, f), Release(book, f.owner, bytes, 1)) <==> ReleaseFits(fs, fs[i], bytes)
  {
    var fs', book' := Replaced(fs, i, f), Release(book, f.owner, bytes, 1);
    ReplacedElsewhere(fs, book, i, f, book');
    BalanceIsLocal(fs, book, fs', book', f.owner);
    ReplacedTotals(fs, i, f, f.owner);
    ReleasedAgrees(fs, book, i, fs', bytes);
  }

  /** The transaction of hard delete, in the same sense, where it releases. */
  lemma HardDeleteCommitExactly(fs: seq<File>, book: Book, i: nat, bytes: nat)
    requires i < |fs| && Balanced(fs, book)
    ensures Balanced(Removed(fs, i), Release(book, fs[i].owner, bytes, 1)) <==> ReleaseFits(fs, fs[i], bytes)
  {
    var fs', book' := Removed(fs, i), Release(book, fs[i].owner, bytes, 1);
    RemovedElsewhere(fs, book, i, book');
    BalanceIsLocal(fs, book, fs', book', fs[i].owner);
    RemovedTotals(fs, i, fs[i].owner);
    ReleasedAgrees(fs, book, i, fs', bytes);
  }

  /** Hard delete without a release is right exactly for a row that no longer counts. */
  lemma SilentHardDeleteExactly(fs: seq<File>, book: Book, i: nat)
    requires i < |fs| && Balanced(fs, book)
    ensures Balanced(Removed(fs, i), book) <==> !Counted(fs[i])
  {
    RemovedElsewhere(fs, book, i, book);
    BalanceIsLocal(fs, book, Removed(fs, i), book, fs[i].owner);
    RemovedTotals(fs, i, fs[i].owner);
    assert Agrees(fs, book, fs[i].owner);
  }

  lemma ReleasedAgrees(fs: seq<File>, book: Book, i: nat, fs': seq<File>, bytes: nat)
    requires i < |fs| && Balanced(fs, book)
    requires var t := fs[i].owner;
      Bytes(fs', t) == Bytes(fs, t) - Weight(fs[i], t) && Count(fs', t) == Count(fs, t) - One(fs[i], t)
    ensures Agrees(fs', Release(book, fs[i].owner, bytes, 1), fs[i].owner) <==> ReleaseFits(fs, fs[i], bytes)
  {
    var t := fs[i].owner;
    assert Agrees(fs, book, t);
    RowInTotals(fs, i, t);
    if Count(fs, t) == 0 { NoFilesNoBytes(fs, t); }
  }

  /** The transactions of delete and hard delete, where the row has been removed meanwhile: they release
      all the same, which is right only for an account without files. */
  lemma GoneCommitExactly(fs: seq<File>, book: Book, t: Tenant, bytes: nat)
    requires Balanced(fs, book)
    ensures Balanced(fs, Release(book, t, bytes, 1)) <==> Count(fs, t) == 0
  {
    var book' := Release(book, t, bytes, 1);
    forall u | u != t
      ensures UsedBytes(book', u) == UsedBytes(book, u) && UsedFiles(book', u) == UsedFiles(book, u)
    {
    }
    BalanceIsLocal(fs, book, fs, book', t);
    assert Agrees(fs, book, t);
    if Count(fs, t) == 0 { NoFilesNoBytes(fs, t); }
  }

  /** Where the row with this id is. */
  function Position(fs: seq<File>, id: nat, i: nat): (r: Option<nat>)
    requires i <= |fs|
    ensures r.Some? ==> i <= r.value < |fs| && fs[r.value].id == id
    ensures r.None? ==> forall k :: i <= k < |fs| ==> fs[k].id != id
    decreases |fs| - i
  {
    if i == |fs| then None else if fs[i].id == id then Some(i) else Position(fs, id, i + 1)
  }

  /** What `complete` does to the book when the stored object has `actual` bytes and the row it read
      had `declared`. */
  function Adjust(book: Book, t: Tenant, declared: nat, actual: nat): Option<Book> {
    if actual > declared then TryReserve(book, t, actual - declared, 0)
    else if actual < declared then Some(Release(book, t, declared - actual, 0))
    else Some(book)
  }

  /** The transaction of `complete` is right exactly for a row that still counts. */
  lemma CompletingCommitExactly(fs: seq<File>, book: Book, i: nat, f: File)
    requires i < |fs| && Balanced(fs, book) && f.owner == fs[i].owner && Counted(f)
    requires Adjust(book, f.owner, fs[i].size, f.size).Some?
    ensures Balanced(Replaced(fs, i, f), Adjust(book, f.owner, fs[i].size, f.size).value) <==> Counted(fs[i])
  {
    var fs', book' := Replaced(fs, i, f), Adjust(book, f.owner, fs[i].size, f.size).value;
    ReplacedElsewhere(fs, book, i, f, book');
    BalanceIsLocal(fs, book, fs', book', f.owner);
    ReplacedTotals(fs, i, f, f.owner);
    RowInTotals(fs, i, f.owner);
    assert Agrees(fs, book, f.owner);
  }

  /** A step that leaves the book alone and keeps the size is right exactly when it does not change
      whether the row counts: a scan verdict must not quarantine a file that is being deleted. */
  lemma QuarantineExactly(fs: seq<File>, book: Book, i: nat, f: File)
    requires i < |fs| && Balanced(fs, book) && f.owner == fs[i].owner && f.size == fs[i].size
    ensures Balanced(Replaced(fs, i, f), book) <==> Counted(f) == Counted(fs[i])
  {
    ReplacedElsewhere(fs, book, i, f, book);
    BalanceIsLocal(fs, book, Replaced(fs, i, f), book, f.owner);
    ReplacedTotals(fs, i, f, f.owner);
    assert Agrees(fs, book, f.owner);
  }

  lemma AddedBalance(fs: seq<File>, book: Book, f: File, book': Book)
    requires Balanced(fs, book) && Counted(f) && TryReserve(book, f.owner, f.size, 1) == Some(book')
    ensures Balanced(fs + [f], book')
  {
    forall u ensures Agrees(fs + [f], book', u) {
      assert Agrees(fs, book, u);
      AddedTotals(fs, f, u);
    }
  }

  /** Reservations, releases and adjustments stay within the quotas. */
  lemma QuotasKept(book: Book, t: Tenant, bytes: nat, files: nat)
    requires Quotas(book)
    ensures Quotas(Release(book, t, bytes, files))
    ensures TryReserve(book, t, bytes, files).Some? ==> Quotas(TryReserve(book, t, bytes, files).value)
  {
  }

  /** The account of `t` moves by so much, no other account moves, and all limits stay. */
  ghost predicate Moves(book: Book, book': Book, t: Tenant, bytes: int, files: int) {
    && (forall u {:trigger UsedBytes(book', u)} {:trigger UsedFiles(book', u)} ::
          && UsedBytes(book', u) == UsedBytes(book, u) + (if u == t then bytes else 0)
          && UsedFiles(book', u) == UsedFiles(book, u) + (if u == t then files else 0))
    && (forall u <- book ::
          u in book' && book'[u].maxBytes == book[u].maxBytes && book'[u].maxFiles == book[u].maxFiles)
  }

  /** A reservation is refused if and only if the account exists and one of its limits would be exceeded;
      otherwise it adds exactly what was asked for. */
  lemma ReserveExactly(book: Book, t: Tenant, bytes: nat, files: nat)
    ensures TryReserve(book, t, bytes, files).None? <==>
      t in book && var a := book[t];
        || (a.maxBytes.Some? && a.bytes + bytes > a.maxBytes.value)
        || (a.maxFiles.Some? && a.files + files > a.maxFiles.value)
    ensures TryReserve(book, t, bytes, files).Some? ==>
      Moves(book, TryReserve(book, t, bytes, files).value, t, bytes, files)
  {
  }

  /** Releasing a counted row takes away its size and one file. */
  lemma ReleaseMoves(fs: seq<File>, book: Book, i: nat)
    requires i < |fs| && Balanced(fs, book) && Counted(fs[i])
    ensures Moves(book, Release(book, fs[i].owner, fs[i].size, 1), fs[i].owner, 0 - fs[i].size, -1)
  {
    RowInTotals(fs, i, fs[i].owner);
    assert Agrees(fs, book, fs[i].owner);
  }

  /** An adjustment moves the bytes by the difference. */
  lemma AdjustMoves(fs: seq<File>, book: Book, i: nat, actual: nat)
    requires i < |fs| && Balanced(fs, book) && Counted(fs[i])
    ensures var r := Adjust(book, fs[i].owner, fs[i].size, actual);
      r.Some? ==> Moves(book, r.value, fs[i].owner, actual - fs[i].size, 0)
    ensures Quotas(book) ==> (Adjust(book, fs[i].owner, fs[i].size, actual).None? <==>
      && fs[i].owner in book && book[fs[i].owner].maxBytes.Some?
      && book[fs[i].owner].bytes - fs[i].size + actual > book[fs[i].owner].maxBytes.value)
  {
    RowInTotals(fs, i, fs[i].owner);
    assert Agrees(fs, book, fs[i].owner);
  }

  /** Two deletes that both read the file before either commits release it twice. */
  lemma DoubleDeleteUnbalances(t: Tenant) returns (fs: seq<File>, book: Book)
    ensures |fs| == 2 && fs[0].owner == t && Counted(fs[0]) && Balanced(fs, book)
    ensures var gone := fs[0].(status := FileStatus.Deleting);
      var fs1, book1 := Replaced(fs, 0, gone), Release(book, t, fs[0].size, 1);
      Balanced(fs1, book1) && !Balanced(Replaced(fs1, 0, gone), Release(book1, t, fs[0].size, 1))
  {
    var f := File(0, t, 5, Active, 1, None, false);
    var gone := f.(status := FileStatus.Deleting);
    fs, book := [f, f.(id := 1)], map[t := Account(10, 2, None, None)];
    TwoFiles(f, f.(id := 1), t);
    ReleasedTwice(fs, book, f, gone);
  }

  lemma TwoFiles(f: File, g: File, t: Tenant)
    requires f.owner == t && g.owner == t && Counted(f) && Counted(g)
    ensures Balanced([f, g], map[t := Account(f.size + g.size, 2, None, None)]) && Count([f, g], t) == 2
  {
    var fs, book: Book := [f, g], map[t := Account(f.size + g.size, 2, None, None)];
    forall u ensures Agrees(fs, book, u) {
      AddedTotals([f], g, u);
      AddedTotals([], f, u);
      assert [] + [f] == [f] && [f] + [g] == fs;
    }
    assert Agrees(fs, book, t);
  }

  lemma ReleasedTwice(fs: seq<File>, book: Book, f: File, gone: File)
    requires fs != [] && fs[0] == f && Counted(f) && !Counted(gone) && gone.owner == f.owner
    requires Balanced(fs, book) && Count(fs, f.owner) >= 2
    ensures var fs1, book1 := Replaced(fs, 0, gone), Release(book, f.owner, f.size, 1);
      Balanced(fs1, book1) && !Balanced(Replaced(fs1, 0, gone), Release(book1, f.owner, f.size, 1))
  {
    var fs1, book1 := Replaced(fs, 0, gone), Release(book, f.owner, f.size, 1);
    ReleasingCommitExactly(fs, book, 0, gone, f.size);
    ReplacedTotals(fs, 0, gone, f.owner);
    ReleasingCommitExactly(fs1, book1, 0, gone, f.size);
  }
}
