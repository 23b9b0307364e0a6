/** Batch upload: primary failover with retries, the database transaction with its compensation,
    and the roll-back of a failed atomic batch. */
module BatchUpload {
  import opened Wrappers
  import opened ReplicaState
  import opened Placement
  import opened Usage

  /** How one upload attempt at a driver ends. */
  datatype Attempt = Stored | Retryable | Rejected

  /** A file of the batch: what it holds, and what happens to it. */
  datatype Input = Input(
    subject: Subject,
    content: nat,
    checked: bool,                                  // passes the policy checks
    attempts: map<Provider, (Attempt, Attempt)>,    // how the two attempts at a provider would end
    dbUp: bool,                                     // the database is there for its transaction
    commits: bool,                                  // and takes it
    compensates: bool,                              // after a failed transaction its object can be deleted
    removes: bool,                                  // a roll-back can delete its object
    reverts: bool                                   // a roll-back finds the database and can remove its row
  )

  datatype FileRow = FileRow(owner: Tenant, size: nat, primary: Provider, replicas: seq<Replica>)

  datatype Completed = Completed(id: nat, provider: Provider, size: nat, removes: bool, reverts: bool)

  type Ref = (Provider, nat)   // an object at a provider; the file id stands for the storage key

  /** Rows, objects and accounts of the store. */
  datatype Contents = Contents(rows: map<nat, FileRow>, objects: map<Ref, nat>, book: Book)

  // ---------------------------------------------------------------------------------
  // One file

  /** Whether a provider takes the object, with one retry after a retryable error. */
  predicate Takes(f: Input, p: Provider) {
    p in f.attempts && (f.attempts[p].0.Stored? || (f.attempts[p].0.Retryable? && f.attempts[p].1.Stored?))
  }

  /** The first candidate from position `i` that takes the object. */
  function Chosen(cs: seq<Provider>, f: Input, i: nat): (r: Option<nat>)
    requires i <= |cs|
    ensures r.Some? ==> i <= r.value < |cs| && Takes(f, cs[r.value])
    ensures r.Some? ==> forall j :: i <= j < r.value ==> !Takes(f, cs[j])
    ensures r.None? ==> forall j :: i <= j < |cs| ==> !Takes(f, cs[j])
    decreases |cs| - i
  {
    if i == |cs| then None else if Takes(f, cs[i]) then Some(i) else Chosen(cs, f, i + 1)
  }

  /** The file passes the checks and some candidate takes its object. */
  predicate Placed(c: Setting, f: Input) {
    f.checked && Chosen(Candidates(c, f.subject), f, 0).Some?
  }

  /** How the two attempts at a provider end, if it takes the object. */
  predicate Stores(f: Input, p: Provider) {
    && p in f.attempts && f.attempts[p].0 != Rejected
    && (f.attempts[p].0 == Stored || f.attempts[p].1 == Stored)
  }

  /** The file passes the checks, some candidate takes its object, the database is there and takes the
      transaction, and neither limit of the tenant is exceeded. */
  ghost predicate Permitted(c: Setting, t: Tenant, f: Input, book: Book) {
    && f.checked && (exists p <- Candidates(c, f.subject) :: Stores(f, p)) && f.dbUp && f.commits
    && (t in book ==>
          && !(book[t].maxBytes.Some? && book[t].bytes + f.subject.size > book[t].maxBytes.value)
          && !(book[t].maxFiles.Some? && book[t].files + 1 > book[t].maxFiles.value))
  }

  lemma PermittedExactly(c: Setting, t: Tenant, f: Input, book: Book)
    ensures Succeeds(c, t, f, book) <==> Permitted(c, t, f, book)
    ensures Succeeds(c, t, f, book) ==> Moves(book, TryReserve(book, t, f.subject.size, 1).value, t, f.subject.size, 1)
  {
    ReserveExactly(book, t, f.subject.size, 1);
    var cs := Candidates(c, f.subject);
    forall p ensures Takes(f, p) <==> Stores(f, p) { }
    if Chosen(cs, f, 0).Some? { assert cs[Chosen(cs, f, 0).value] in cs; }
  }

  /** When the upload of one file succeeds. */
  predicate Succeeds(c: Setting, t: Tenant, f: Input, book: Book) {
    Placed(c, f) && f.dbUp && TryReserve(book, t, f.subject.size, 1).Some? && f.commits
  }

  /** When a failed upload leaves its object behind. */
  predicate Strays(c: Setting, t: Tenant, f: Input, book: Book) {
    Placed(c, f) && !Succeeds(c, t, f, book) && !f.compensates
  }

  function PrimaryOf(c: Setting, f: Input): Provider
    requires Placed(c, f)
  {
    Candidates(c, f.subject)[Chosen(Candidates(c, f.subject), f, 0).value]
  }

  function RowOf(c: Setting, t: Tenant, f: Input): FileRow
    requires Placed(c, f)
  {
    FileRow(t, f.subject.size, PrimaryOf(c, f), InsertedRows(c, f.subject, PrimaryOf(c, f)))
  }

  function CompletedAs(c: Setting, f: Input, id: nat): Completed
    requires Placed(c, f)
  {
    Completed(id, PrimaryOf(c, f), f.subject.size, f.removes, f.reverts)
  }

  /** The store after the upload of one file under the next id. */
  function AfterOne(c: Setting, t: Tenant, f: Input, s: Contents, id: nat): Contents {
    if Succeeds(c, t, f, s.book) then
      Contents(s.rows[id := RowOf(c, t, f)], s.objects[(PrimaryOf(c, f), id) := f.content],
               TryReserve(s.book, t, f.subject.size, 1).value)
    else if Strays(c, t, f, s.book) then s.(objects := s.objects[(PrimaryOf(c, f), id) := f.content])
    else s
  }

  lemma PrimaryRegistered(c: Setting, f: Input)
    requires Placed(c, f)
    ensures PrimaryOf(c, f) in c.registry
  {
    CandidatesExactly(c, f.subject);
    assert PrimaryOf(c, f) in Candidates(c, f.subject);
  }

  // ---------------------------------------------------------------------------------
  // A batch without roll-back

  /** A batch under way: the store, the next id, what is completed, which objects are stray, and the
      outcome of each file so far. */
  datatype Batch = Batch(s: Contents, next: nat, done: seq<Completed>, lost: set<Ref>, outs: seq<Option<Completed>>)

  function NextOne(c: Setting, t: Tenant, b: Batch, f: Input): Batch {
    var s := AfterOne(c, t, f, b.s, b.next);
    var next := if f.checked then b.next + 1 else b.next;
    if Succeeds(c, t, f, b.s.book) then
      var d := CompletedAs(c, f, b.next);
      Batch(s, next, b.done + [d], b.lost, b.outs + [Some(d)])
    else
      var lost := if Strays(c, t, f, b.s.book) then b.lost + {(PrimaryOf(c, f), b.next)} else b.lost;
      Batch(s, next, b.done, lost, b.outs + [None])
  }

  function Uploaded(c: Setting, t: Tenant, ins: seq<Input>, s: Contents, next: nat): (b: Batch)
    ensures |b.outs| == |ins|
  {
    if ins == [] then Batch(s, next, [], {}, [])
    else NextOne(c, t, Uploaded(c, t, ins[..|ins| - 1], s, next), ins[|ins| - 1])
  }

  /** When the `k`-th upload of a batch succeeds. */
  predicate SucceedsAt(c: Setting, t: Tenant, ins: seq<Input>, k: nat, s: Contents, next: nat)
    requires k < |ins|
  {
    Succeeds(c, t, ins[k], Uploaded(c, t, ins[..k], s, next).s.book)
  }

  ghost function Ids(done: seq<Completed>): set<nat> {
    set d <- done :: d.id
  }

  ghost function Refs(done: seq<Completed>): set<Ref> {
    set d <- done :: (d.provider, d.id)
  }

  function Sizes(done: seq<Completed>): nat {
    if done == [] then 0 else Sizes(done[..|done| - 1]) + done[|done| - 1].size
  }

  /** `m` is `m0` with exactly the keys `added` on top. */
  ghost predicate Extends<K, V>(m0: map<K, V>, m: map<K, V>, added: set<K>) {
    && m.Keys == m0.Keys + added && m0.Keys !! added
    && forall k <- m0 :: m[k] == m0[k]
  }

  /** The account of `t` carries so much more, the others are as before. */
  ghost predicate Charged(book0: Book, book: Book, t: Tenant, bytes: int, files: int) {
    forall u ::
      && UsedBytes(book, u) == UsedBytes(book0, u) + (if u == t then bytes else 0)
      && UsedFiles(book, u) == UsedFiles(book0, u) + (if u == t then files else 0)
  }

  /** The store holds what it held before and, on top, exactly these rows, objects and charges. */
  ghost predicate Over(s0: Contents, s: Contents, t: Tenant, ids: set<nat>, refs: set<Ref>, bytes: int, files: int) {
    Extends(s0.rows, s.rows, ids) && Extends(s0.objects, s.objects, refs) && Charged(s0.book, s.book, t, bytes, files)
  }

  ghost predicate Below(s: Contents, next: nat) {
    (forall id <- s.rows :: id < next) && (forall ref <- s.objects :: ref.1 < next)
  }

  /** The provider is the first candidate that takes the object. */
  ghost predicate TakesFirst(c: Setting, f: Input, p: Provider) {
    exists i :: 0 <= i < |Candidates(c, f.subject)| && Candidates(c, f.subject)[i] == p && Stores(f, p) &&
                forall j :: 0 <= j < i ==> !Stores(f, Candidates(c, f.subject)[j])
  }

  /** The row of one upload: it has the tenant and the size of the input, and the provider that took the
      object as its only AVAILABLE replica; all others are safe and QUEUED. */
  ghost predicate RowFits(c: Setting, t: Tenant, f: Input, p: Provider, row: FileRow) {
    && row.owner == t && row.size == f.subject.size && row.primary == p
    && SafeRows(c, f.subject, p, row.replicas)
  }

  /** One completed upload: its row, and its object at the provider it names, which is the first candidate
      that takes it. */
  ghost predicate InPlace(c: Setting, t: Tenant, f: Input, d: Completed, s: Contents) {
    && f.checked && d == Completed(d.id, d.provider, f.subject.size, f.removes, f.reverts)
    && TakesFirst(c, f, d.provider) && d.id in s.rows && RowFits(c, t, f, d.provider, s.rows[d.id])
    && (d.provider, d.id) in s.objects && s.objects[(d.provider, d.id)] == f.content
  }

  /** What an upload that succeeds puts into the store. */
  lemma PutInPlace(c: Setting, t: Tenant, f: Input, id: nat, s: Contents)
    requires Placed(c, f) && id in s.rows && s.rows[id] == RowOf(c, t, f)
    requires (PrimaryOf(c, f), id) in s.objects && s.objects[(PrimaryOf(c, f), id)] == f.content
    ensures InPlace(c, t, f, CompletedAs(c, f, id), s)
  {
    var cs := Candidates(c, f.subject);
    var i := Chosen(cs, f, 0).value;
    assert cs[i] in cs;
    InsertedRowsSafe(c, f.subject, cs[i]);
    assert cs[i] == PrimaryOf(c, f) && Stores(f, cs[i]);
    assert TakesFirst(c, f, cs[i]);
  }

  /** Each completed upload has its row and its object, under ids that increase in input order. */
  ghost predicate AllInPlace(c: Setting, t: Tenant, ins: seq<Input>, b: Batch) {
    && |b.outs| == |ins|
    && (forall k {:trigger InPlace(c, t, ins[k], b.outs[k].value, b.s)} :: 0 <= k < |ins| && b.outs[k].Some? ==>
          InPlace(c, t, ins[k], b.outs[k].value, b.s) && b.outs[k].value.id < b.next)
    && (forall j, k :: 0 <= j < k < |ins| && b.outs[j].Some? && b.outs[k].Some? ==>
          b.outs[j].value.id < b.outs[k].value.id)
  }

  /** What is completed: registered providers, increasing ids below `next`, and no stray under them. */
  ghost predicate Listed(c: Setting, done: seq<Completed>, lost: set<Ref>, next: nat) {
    && (forall i :: 0 <= i < |done| ==> done[i].provider in c.registry && done[i].id < next)
    && (forall i, j :: 0 <= i < j < |done| ==> done[i].id < done[j].id)
    && Refs(done) !! lost
  }

  /** Rows, objects and charges of a batch are on top of what was there. */
  ghost predicate OnTop(s0: Contents, s: Contents, t: Tenant, done: seq<Completed>, lost: set<Ref>) {
    Over(s0, s, t, Ids(done), Refs(done) + lost, Sizes(done), |done|)
  }

  /** What holds of a batch under way. */
  ghost predicate Sound(c: Setting, t: Tenant, ins: seq<Input>, s0: Contents, b: Batch) {
    && AllInPlace(c, t, ins, b) && Listed(c, b.done, b.lost, b.next) && Below(b.s, b.next)
    && OnTop(s0, b.s, t, b.done, b.lost)
  }

  // ---------------------------------------------------------------------------------
  // Each file keeps that

  lemma ExtendsNext<K, V>(m0: map<K, V>, m: map<K, V>, added: set<K>, k: K, v: V)
    requires Extends(m0, m, added) && k !in m
    ensures Extends(m0, m[k := v], added + {k})
  {
  }

  lemma ExtendsLess<K, V>(m0: map<K, V>, m: map<K, V>, added: set<K>, k: K)
    requires Extends(m0, m, added) && k in added
    ensures Extends(m0, m - {k}, added - {k})
  {
  }

  lemma Appended(done: seq<Completed>, d: Completed)
    ensures Ids(done + [d]) == Ids(done) + {d.id} && Refs(done + [d]) == Refs(done) + {(d.provider, d.id)}
    ensures Sizes(done + [d]) == Sizes(done) + d.size
  {
    assert (done + [d])[..|done|] == done;
    forall x | x in Refs(done) + {(d.provider, d.id)} ensures x in Refs(done + [d]) {
      if x in Refs(done) {
        var e :| e in done && x == (e.provider, e.id);
        assert e in done + [d];
      } else {
        assert d in done + [d];
      }
    }
    forall x | x in Ids(done) + {d.id} ensures x in Ids(done + [d]) {
      if x in Ids(done) {
        var e :| e in done && x == e.id;
        assert e in done + [d];
      } else {
        assert d in done + [d];
      }
    }
  }

  lemma InPlaceKept(c: Setting, t: Tenant, f: Input, d: Completed, s: Contents, s': Contents)
    requires InPlace(c, t, f, d, s)
    requires d.id in s'.rows && s'.rows[d.id] == s.rows[d.id]
    requires (d.provider, d.id) in s'.objects && s'.objects[(d.provider, d.id)] == s.objects[(d.provider, d.id)]
    ensures InPlace(c, t, f, d, s')
  {
  }

  lemma {:induction false} InPlaceNext(c: Setting, t: Tenant, ins: seq<Input>, b: Batch, f: Input, b': Batch)
    requires AllInPlace(c, t, ins, b) && Below(b.s, b.next) && b' == NextOne(c, t, b, f)
    ensures AllInPlace(c, t, ins + [f], b')
  {
    var ins' := ins + [f];
    forall k | 0 <= k < |ins'| && b'.outs[k].Some?
      ensures InPlace(c, t, ins'[k], b'.outs[k].value, b'.s) && b'.outs[k].value.id < b'.next
    {
      if k < |ins| {
        assert ins'[k] == ins[k] && b'.outs[k] == b.outs[k];
        assert InPlace(c, t, ins[k], b.outs[k].value, b.s);
        InPlaceKept(c, t, ins[k], b.outs[k].value, b.s, b'.s);
      } else {
        PutInPlace(c, t, f, b.next, b'.s);
      }
    }
    forall j, k | 0 <= j < k < |ins'| && b'.outs[j].Some? && b'.outs[k].Some?
      ensures b'.outs[j].value.id < b'.outs[k].value.id
    {
      assert InPlace(c, t, ins[j], b.outs[j].value, b.s);
    }
  }

  /** The next id is new to rows and objects. */
  lemma NextIsNew(s: Contents, next: nat, p: Provider)
    requires Below(s, next)
    ensures next !in s.rows && (p, next) !in s.objects
  {
  }

  /** A completed upload on top. */
  lemma CompletedOnTop(s0: Contents, s: Contents, t: Tenant, done: seq<Completed>, lost: set<Ref>, next: nat,
                       d: Completed, row: FileRow, content: nat, s': Contents)
    requires OnTop(s0, s, t, done, lost) && Below(s, next) && d.id == next
    requires s'.rows == s.rows[next := row] && s'.objects == s.objects[(d.provider, next) := content]
    requires TryReserve(s.book, t, d.size, 1) == Some(s'.book)
    ensures OnTop(s0, s', t, done + [d], lost) && Below(s', next + 1)
  {
    NextIsNew(s, next, d.provider);
    Appended(done, d);
    ExtendsNext(s0.rows, s.rows, Ids(done), next, row);
    ExtendsNext(s0.objects, s.objects, Refs(done) + lost, (d.provider, next), content);
    assert Refs(done) + lost + {(d.provider, next)} == Refs(done + [d]) + lost;
  }

  /** A stray object on top. */
  lemma StrayOnTop(s0: Contents, s: Contents, t: Tenant, done: seq<Completed>, lost: set<Ref>, next: nat,
                   p: Provider, content: nat, s': Contents)
    requires OnTop(s0, s, t, done, lost) && Below(s, next) && s' == s.(objects := s.objects[(p, next) := content])
    ensures OnTop(s0, s', t, done, lost + {(p, next)}) && Below(s', next + 1)
  {
    NextIsNew(s, next, p);
    ExtendsNext(s0.objects, s.objects, Refs(done) + lost, (p, next), content);
    assert Refs(done) + lost + {(p, next)} == Refs(done) + (lost + {(p, next)});
  }

  lemma ListedMore(c: Setting, done: seq<Completed>, lost: set<Ref>, next: nat, d: Completed)
    requires Listed(c, done, lost, next) && d.id == next && d.provider in c.registry
    requires forall ref <- lost :: ref.1 < next
    ensures Listed(c, done + [d], lost, next + 1)
  {
    Appended(done, d);
  }

  lemma ListedStray(c: Setting, done: seq<Completed>, lost: set<Ref>, next: nat, p: Provider)
    requires Listed(c, done, lost, next)
    ensures Listed(c, done, lost + {(p, next)}, next + 1)
  {
    forall x | x in Refs(done) ensures x.1 < next {
      var d :| d in done && x == (d.provider, d.id);
    }
  }

  lemma LostBelow(s0: Contents, s: Contents, t: Tenant, done: seq<Completed>, lost: set<Ref>, next: nat)
    requires OnTop(s0, s, t, done, lost) && Below(s, next)
    ensures forall ref <- lost :: ref.1 < next
  {
  }

  lemma {:induction false} StoreNext(c: Setting, t: Tenant, s0: Contents, b: Batch, f: Input, b': Batch)
    requires Listed(c, b.done, b.lost, b.next) && Below(b.s, b.next) && OnTop(s0, b.s, t, b.done, b.lost)
    requires b' == NextOne(c, t, b, f)
    ensures Listed(c, b'.done, b'.lost, b'.next) && Below(b'.s, b'.next) && OnTop(s0, b'.s, t, b'.done, b'.lost)
  {
    if Succeeds(c, t, f, b.s.book) {
      PrimaryRegistered(c, f);
      LostBelow(s0, b.s, t, b.done, b.lost, b.next);
      ListedMore(c, b.done, b.lost, b.next, CompletedAs(c, f, b.next));
      CompletedOnTop(s0, b.s, t, b.done, b.lost, b.next, CompletedAs(c, f, b.next), RowOf(c, t, f), f.content, b'.s);
    } else if Strays(c, t, f, b.s.book) {
      ListedStray(c, b.done, b.lost, b.next, PrimaryOf(c, f));
      StrayOnTop(s0, b.s, t, b.done, b.lost, b.next, PrimaryOf(c, f), f.content, b'.s);
    }
  }

  lemma {:induction false} SoundNext(c: Setting, t: Tenant, ins: seq<Input>, s0: Contents,
                                     b: Batch, f: Input, b': Batch)
    requires Sound(c, t, ins, s0, b) && b' == NextOne(c, t, b, f)
    ensures Sound(c, t, ins + [f], s0, b')
  {
    InPlaceNext(c, t, ins, b, f, b');
    StoreNext(c, t, s0, b, f, b');
  }

  /** The uploads of a batch, whatever happens to each: one row and one object per completed file, in
      order, the strays, and nothing else. */
  lemma {:induction false} UploadedSound(c: Setting, t: Tenant, ins: seq<Input>, s: Contents, next: nat, b: Batch)
    requires Below(s, next) && b == Uploaded(c, t, ins, s, next)
    ensures Sound(c, t, ins, s, b)
    decreases ins
  {
    if ins != [] {
      var n := |ins| - 1;
      var b0 := Uploaded(c, t, ins[..n], s, next);
      UploadedSound(c, t, ins[..n], s, next, b0);
      SoundNext(c, t, ins[..n], s, b0, ins[n], b);
      assert ins[..n] + [ins[n]] == ins;
    }
  }

  // ---------------------------------------------------------------------------------
  // Roll-back

  function UndoOne(s: Contents, t: Tenant, d: Completed): Contents {
    Contents(if d.reverts then s.rows - {d.id} else s.rows,
             if d.removes then s.objects - {(d.provider, d.id)} else s.objects,
             if d.reverts then Release(s.book, t, d.size, 1) else s.book)
  }

  /** The completed uploads are undone, last first, as far as driver and database allow. */
  function Undone(s: Contents, t: Tenant, done: seq<Completed>): Contents
    decreases done
  {
    if done == [] then s else Undone(UndoOne(s, t, done[|done| - 1]), t, done[..|done| - 1])
  }

  /** The uploads whose row, and those whose object, a roll-back cannot remove. */
  function RowsLeft(done: seq<Completed>): seq<Completed> {
    if done == [] then []
    else RowsLeft(done[..|done| - 1]) + if done[|done| - 1].reverts then [] else [done[|done| - 1]]
  }

  function ObjectsLeft(done: seq<Completed>): seq<Completed> {
    if done == [] then []
    else ObjectsLeft(done[..|done| - 1]) + if done[|done| - 1].removes then [] else [done[|done| - 1]]
  }

  /** What is to be undone, and what stays whatever is undone. */
  ghost predicate Pending(s0: Contents, s: Contents, t: Tenant, done: seq<Completed>,
                          ids: set<nat>, refs: set<Ref>, bytes: nat, files: nat) {
    && Over(s0, s, t, Ids(done) + ids, Refs(done) + refs, Sizes(done) + bytes, |done| + files)
    && Ids(done) !! ids && Refs(done) !! refs
  }

  ghost predicate Increasing(done: seq<Completed>) {
    forall i, j :: 0 <= i < j < |done| ==> done[i].id < done[j].id
  }

  lemma LastIsNew(front: seq<Completed>, d: Completed)
    requires Increasing(front + [d])
    ensures Increasing(front) && d.id !in Ids(front) && (d.provider, d.id) !in Refs(front)
  {
    var done := front + [d];
    forall x | x in front ensures x.id != d.id {
      var i :| 0 <= i < |front| && front[i] == x;
      assert done[i] == x && done[|front|] == d;
    }
    forall i, j | 0 <= i < j < |front| ensures front[i].id < front[j].id {
      assert done[i] == front[i] && done[j] == front[j];
    }
  }

  lemma RowUndone(s0: Contents, s: Contents, front: seq<Completed>, d: Completed, ids: set<nat>)
    requires Extends(s0.rows, s.rows, Ids(front + [d]) + ids) && Ids(front + [d]) !! ids && d.id !in Ids(front)
    ensures d.reverts ==> Extends(s0.rows, s.rows - {d.id}, Ids(front) + ids)
    ensures !d.reverts ==> Extends(s0.rows, s.rows, Ids(front) + (ids + {d.id})) && Ids(front) !! ids + {d.id}
  {
    Appended(front, d);
    assert d.id in Ids(front + [d]);
    if d.reverts {
      ExtendsLess(s0.rows, s.rows, Ids(front + [d]) + ids, d.id);
      assert Ids(front + [d]) + ids - {d.id} == Ids(front) + ids;
    } else {
      assert Ids(front + [d]) + ids == Ids(front) + (ids + {d.id});
    }
  }

  lemma ObjectUndone(s0: Contents, s: Contents, front: seq<Completed>, d: Completed, refs: set<Ref>)
    requires Extends(s0.objects, s.objects, Refs(front + [d]) + refs) && Refs(front + [d]) !! refs
    requires (d.provider, d.id) !in Refs(front)
    ensures d.removes ==> Extends(s0.objects, s.objects - {(d.provider, d.id)}, Refs(front) + refs)
    ensures !d.removes ==> var more := refs + {(d.provider, d.id)};
      Extends(s0.objects, s.objects, Refs(front) + more) && Refs(front) !! more
  {
    var r := (d.provider, d.id);
    Appended(front, d);
    assert r in Refs(front + [d]);
    if d.removes {
      ExtendsLess(s0.objects, s.objects, Refs(front + [d]) + refs, r);
      assert Refs(front + [d]) + refs - {r} == Refs(front) + refs;
    } else {
      assert Refs(front + [d]) + refs == Refs(front) + (refs + {r});
    }
  }

  lemma ChargeUndone(s0: Contents, s: Contents, t: Tenant, bytes: nat, files: nat, d: Completed)
    requires Charged(s0.book, s.book, t, bytes + d.size, files + 1)
    ensures Charged(s0.book, Release(s.book, t, d.size, 1), t, bytes, files)
  {
  }

  /** Undoing one upload takes away its row and object, or leaves them for good. */
  lemma PendingNext(s0: Contents, s: Contents, t: Tenant, front: seq<Completed>, d: Completed,
                    ids: set<nat>, refs: set<Ref>, bytes: nat, files: nat)
    requires Pending(s0, s, t, front + [d], ids, refs, bytes, files) && Increasing(front + [d])
    ensures Increasing(front)
    ensures Pending(s0, UndoOne(s, t, d), t, front,
                    if d.reverts then ids else ids + {d.id},
                    if d.removes then refs else refs + {(d.provider, d.id)},
                    if d.reverts then bytes else bytes + d.size,
                    if d.reverts then files else files + 1)
  {
    LastIsNew(front, d);
    Appended(front, d);
    RowUndone(s0, s, front, d, ids);
    ObjectUndone(s0, s, front, d, refs);
    if d.reverts { ChargeUndone(s0, s, t, Sizes(front) + bytes, |front| + files, d); }
  }

  /** A roll-back leaves exactly the rows and charges it could not revert and the objects it could not
      remove, besides what it was not asked to undo. */
  lemma {:induction false} UndoneLeaves(s0: Contents, s: Contents, t: Tenant, done: seq<Completed>,
                                        ids: set<nat>, refs: set<Ref>, bytes: nat, files: nat, s': Contents)
    requires Pending(s0, s, t, done, ids, refs, bytes, files) && Increasing(done) && s' == Undone(s, t, done)
    ensures Leaves(s0, s', t, RowsLeft(done), ObjectsLeft(done), ids, refs, bytes, files)
    decreases |done|
  {
    if done == [] {
      assert Ids([]) + ids == ids && Refs([]) + refs == refs;
    } else {
      var n := |done| - 1;
      var front, d := done[..n], done[n];
      assert done == front + [d];
      PendingNext(s0, s, t, front, d, ids, refs, bytes, files);
      var ids' := if d.reverts then ids else ids + {d.id};
      var refs' := if d.removes then refs else refs + {(d.provider, d.id)};
      var bytes', files' := if d.reverts then bytes else bytes + d.size, if d.reverts then files else files + 1;
      UndoneLeaves(s0, UndoOne(s, t, d), t, front, ids', refs', bytes', files', s');
      LeavesMore(s0, s', t, RowsLeft(front), ObjectsLeft(front), ids, refs, bytes, files, d);
    }
  }

  /** What is left: the rows of `rows`, the objects of `objects`, and what was there to stay. */
  ghost predicate Leaves(s0: Contents, s: Contents, t: Tenant, rows: seq<Completed>, objects: seq<Completed>,
                         ids: set<nat>, refs: set<Ref>, bytes: nat, files: nat) {
    Over(s0, s, t, Ids(rows) + ids, Refs(objects) + refs, Sizes(rows) + bytes, |rows| + files)
  }

  lemma LeavesMore(s0: Contents, s: Contents, t: Tenant, rows: seq<Completed>, objects: seq<Completed>,
                   ids: set<nat>, refs: set<Ref>, bytes: nat, files: nat, d: Completed)
    requires Leaves(s0, s, t, rows, objects,
                    if d.reverts then ids else ids + {d.id},
                    if d.removes then refs else refs + {(d.provider, d.id)},
                    if d.reverts then bytes else bytes + d.size,
                    if d.reverts then files else files + 1)
    ensures Leaves(s0, s, t, rows + (if d.reverts then [] else [d]), objects + (if d.removes then [] else [d]),
                   ids, refs, bytes, files)
  {
    Appended(rows, d);
    Appended(objects, d);
    assert rows + [] == rows && objects + [] == objects;
    assert Ids(rows) + (ids + {d.id}) == Ids(rows + [d]) + ids;
    assert Refs(objects) + (refs + {(d.provider, d.id)}) == Refs(objects + [d]) + refs;
  }

  /** Everything is as it was, up to accounts that are recorded as empty. */
  ghost predicate Restored(s0: Contents, s: Contents, t: Tenant) {
    s.rows == s0.rows && s.objects == s0.objects && Charged(s0.book, s.book, t, 0, 0)
  }

  lemma ExtendsNothing<K, V>(m0: map<K, V>, m: map<K, V>, added: set<K>)
    requires Extends(m0, m, added)
    ensures m == m0 <==> added == {}
  {
    if k :| k in added { assert k in m && k !in m0; }
  }

  lemma {:induction false} NothingLeft(done: seq<Completed>)
    ensures RowsLeft(done) == [] <==> forall d <- done :: d.reverts
    ensures ObjectsLeft(done) == [] <==> forall d <- done :: d.removes
  {
    if done != [] {
      NothingLeft(done[..|done| - 1]);
      assert done == done[..|done| - 1] + [done[|done| - 1]];
    }
  }

  /** A roll-back restores the store if and only if it could undo everything and nothing is stray. */
  lemma RestoredExactly(s0: Contents, s: Contents, t: Tenant, done: seq<Completed>, lost: set<Ref>)
    requires Leaves(s0, s, t, RowsLeft(done), ObjectsLeft(done), {}, lost, 0, 0)
    ensures Restored(s0, s, t) <==> lost == {} && forall d <- done :: d.reverts && d.removes
  {
    NothingLeft(done);
    var rows, objects := RowsLeft(done), ObjectsLeft(done);
    ExtendsNothing(s0.rows, s.rows, Ids(rows) + {});
    ExtendsNothing(s0.objects, s.objects, Refs(objects) + lost);
    assert rows != [] ==> rows[0].id in Ids(rows);
    assert objects != [] ==> (objects[0].provider, objects[0].id) in Refs(objects);
  }

  /** The roll-back of a batch under way. */
  lemma RollbackExactly(c: Setting, t: Tenant, ins: seq<Input>, s0: Contents, b: Batch, s: Contents)
    requires Sound(c, t, ins, s0, b) && s == Undone(b.s, t, b.done)
    ensures Leaves(s0, s, t, RowsLeft(b.done), ObjectsLeft(b.done), {}, b.lost, 0, 0)
    ensures Restored(s0, s, t) <==> b.lost == {} && forall d <- b.done :: d.reverts && d.removes
  {
    assert Ids(b.done) + {} == Ids(b.done);
    UndoneLeaves(s0, b.s, t, b.done, {}, b.lost, 0, 0, s);
    RestoredExactly(s0, s, t, b.done, b.lost);
  }

  // ---------------------------------------------------------------------------------
  // Atomic batches

  ghost predicate AllSucceed(c: Setting, t: Tenant, ins: seq<Input>, n: nat, s: Contents, next: nat) {
    n <= |ins| && forall j :: 0 <= j < n ==> SucceedsAt(c, t, ins, j, s, next)
  }

  /** The first `k` uploads succeed and the next one does not. */
  ghost predicate FailsAt(c: Setting, t: Tenant, ins: seq<Input>, k: nat, s: Contents, next: nat) {
    k < |ins| && !SucceedsAt(c, t, ins, k, s, next) && AllSucceed(c, t, ins, k, s, next)
  }

  /** What the roll-back of a batch that fails at `k` needs. */
  ghost predicate Undoable(c: Setting, t: Tenant, ins: seq<Input>, k: nat, s: Contents, next: nat)
    requires k < |ins|
  {
    && (forall j :: 0 <= j < k ==> ins[j].reverts && ins[j].removes)
    && !Strays(c, t, ins[k], Uploaded(c, t, ins[..k], s, next).s.book)
  }

  lemma UploadedNext(c: Setting, t: Tenant, ins: seq<Input>, k: nat, s: Contents, next: nat)
    requires k < |ins|
    ensures Uploaded(c, t, ins[..k + 1], s, next) == NextOne(c, t, Uploaded(c, t, ins[..k], s, next), ins[k])
  {
    assert ins[..k + 1][..k] == ins[..k];
  }

  lemma {:induction false} OutcomesAgree(c: Setting, t: Tenant, ins: seq<Input>, n: nat,
                                         s: Contents, next: nat, b: Batch)
    requires n <= |ins| && b == Uploaded(c, t, ins[..n], s, next)
    ensures forall k :: 0 <= k < n ==> (b.outs[k].Some? <==> SucceedsAt(c, t, ins, k, s, next))
    decreases n
  {
    if n > 0 {
      UploadedNext(c, t, ins, n - 1, s, next);
      OutcomesAgree(c, t, ins, n - 1, s, next, Uploaded(c, t, ins[..n - 1], s, next));
    }
  }

  /** Outcome by outcome, a batch ends as each of its uploads must, given what its predecessors have left
      of the quota. */
  lemma OutcomesExactly(c: Setting, t: Tenant, ins: seq<Input>, s: Contents, next: nat, b: Batch, k: nat, b0: Batch)
    requires b == Uploaded(c, t, ins, s, next) && k < |ins| && b0 == Uploaded(c, t, ins[..k], s, next)
    ensures b.outs[k].Some? <==> Permitted(c, t, ins[k], b0.s.book)
  {
    assert ins[..|ins|] == ins;
    OutcomesAgree(c, t, ins, |ins|, s, next, b);
    assert SucceedsAt(c, t, ins, k, s, next) <==> Succeeds(c, t, ins[k], b0.s.book);
    PermittedExactly(c, t, ins[k], b0.s.book);
  }

  lemma OneLess(c: Setting, t: Tenant, ins: seq<Input>, n: nat, s: Contents, next: nat, b0: Batch, b: Batch)
    requires n > 0 && AllSucceed(c, t, ins, n, s, next)
    requires b0 == Uploaded(c, t, ins[..n - 1], s, next) && b == Uploaded(c, t, ins[..n], s, next)
    ensures AllSucceed(c, t, ins, n - 1, s, next)
    ensures b.lost == b0.lost && |b.done| == |b0.done| + 1 && b.done[..|b0.done|] == b0.done
    ensures b.done[|b0.done|].reverts == ins[n - 1].reverts && b.done[|b0.done|].removes == ins[n - 1].removes
  {
    assert SucceedsAt(c, t, ins, n - 1, s, next);
    UploadedNext(c, t, ins, n - 1, s, next);
    OneCompleted(c, t, b0, ins[n - 1], b);
  }

  lemma OneCompleted(c: Setting, t: Tenant, b: Batch, f: Input, b': Batch)
    requires Succeeds(c, t, f, b.s.book) && b' == NextOne(c, t, b, f)
    ensures b'.lost == b.lost && |b'.done| == |b.done| + 1 && b'.done[..|b.done|] == b.done
    ensures b'.done[|b.done|].reverts == f.reverts && b'.done[|b.done|].removes == f.removes
  {
  }

  /** The first `n` files are completed, each with what its roll-back will find. */
  ghost predicate Mirrors(ins: seq<Input>, n: nat, done: seq<Completed>) {
    && |done| == n <= |ins|
    && forall j :: 0 <= j < n ==> done[j].reverts == ins[j].reverts && done[j].removes == ins[j].removes
  }

  lemma MirrorsNext(ins: seq<Input>, n: nat, done: seq<Completed>, done': seq<Completed>)
    requires Mirrors(ins, n, done) && n < |ins| && |done'| == n + 1 && done'[..n] == done
    requires done'[n].reverts == ins[n].reverts && done'[n].removes == ins[n].removes
    ensures Mirrors(ins, n + 1, done')
  {
    forall j | 0 <= j < n ensures done'[j] == done[j] { assert done'[..n][j] == done'[j]; }
  }

  /** As long as all uploads succeed, each is completed and no object is stray. */
  lemma {:induction false} AllCompleted(c: Setting, t: Tenant, ins: seq<Input>, n: nat,
                                        s: Contents, next: nat, b: Batch)
    requires AllSucceed(c, t, ins, n, s, next) && b == Uploaded(c, t, ins[..n], s, next)
    ensures b.lost == {} && Mirrors(ins, n, b.done)
    decreases n
  {
    if n > 0 {
      var b0 := Uploaded(c, t, ins[..n - 1], s, next);
      OneLess(c, t, ins, n, s, next, b0, b);
      AllCompleted(c, t, ins, n - 1, s, next, b0);
      MirrorsNext(ins, n - 1, b0.done, b.done);
    }
  }

  lemma OneSucceeds(c: Setting, t: Tenant, ins: seq<Input>, i: nat, s: Contents, next: nat, b: Batch)
    requires i < |ins| && b == Uploaded(c, t, ins[..i], s, next)
    ensures SucceedsAt(c, t, ins, i, s, next) == Succeeds(c, t, ins[i], b.s.book)
  {
  }

  lemma AllSucceedMore(c: Setting, t: Tenant, ins: seq<Input>, i: nat, s: Contents, next: nat)
    requires i < |ins| && AllSucceed(c, t, ins, i, s, next) && SucceedsAt(c, t, ins, i, s, next)
    ensures AllSucceed(c, t, ins, i + 1, s, next)
  {
  }

  lemma {:induction false} StaysBelow(c: Setting, t: Tenant, ins: seq<Input>, s: Contents, next: nat, b: Batch)
    requires Below(s, next) && b == Uploaded(c, t, ins, s, next)
    ensures Below(b.s, b.next)
  {
    UploadedSound(c, t, ins, s, next, b);
  }

  lemma FlagsAgree(ins: seq<Input>, k: nat, done: seq<Completed>)
    requires Mirrors(ins, k, done)
    ensures (forall d <- done :: d.reverts && d.removes) <==>
      (forall j :: 0 <= j < k ==> ins[j].reverts && ins[j].removes)
  {
    forall j | 0 <= j < k ensures done[j] in done { }
  }

  /** Atomicity: a failed batch restores rows, objects and recorded usage if and only if the roll-back
      finds the database and the drivers for every completed upload, and the object of the failed one
      could be deleted or was never stored. */
  lemma {:induction false} AtomicityExactly(c: Setting, t: Tenant, ins: seq<Input>, k: nat, s: Contents, next: nat,
                                            b: Batch, s': Contents)
    requires Below(s, next) && FailsAt(c, t, ins, k, s, next)
    requires b == Uploaded(c, t, ins[..k + 1], s, next) && s' == Undone(b.s, t, b.done)
    ensures Restored(s, s', t) <==> Undoable(c, t, ins, k, s, next)
  {
    var b0 := Uploaded(c, t, ins[..k], s, next);
    UploadedNext(c, t, ins, k, s, next);
    AllCompleted(c, t, ins, k, s, next, b0);
    UploadedSound(c, t, ins[..k + 1], s, next, b);
    RollbackExactly(c, t, ins[..k + 1], s, b, s');
    FlagsAgree(ins, k, b.done);
  }

  lemma {:induction false} ChosenSame(cs: seq<Provider>, f: Input, f': Input, i: nat)
    requires i <= |cs| && f'.attempts == f.attempts
    ensures Chosen(cs, f', i) == Chosen(cs, f, i)
    decreases |cs| - i
  {
    if i < |cs| { ChosenSame(cs, f, f', i + 1); }
  }

  /** A file that is uploaded, with a roll-back that does not find the database, and one that is refused. */
  lemma RollbackFails(c: Setting, t: Tenant, f: Input, s: Contents, next: nat) returns (ins: seq<Input>, s': Contents)
    requires Below(s, next) && Succeeds(c, t, f, s.book)
    ensures FailsAt(c, t, ins, 1, s, next) && s' == Undone(Uploaded(c, t, ins[..2], s, next).s, t,
                                                           Uploaded(c, t, ins[..2], s, next).done)
    ensures !Restored(s, s', t)
  {
    var f0, f1 := f.(reverts := false), f.(checked := false);
    ins := [f0, f1];
    ChosenSame(Candidates(c, f.subject), f, f0, 0);
    assert ins[..0] == [] && SucceedsAt(c, t, ins, 0, s, next);
    var b := Uploaded(c, t, ins[..2], s, next);
    s' := Undone(b.s, t, b.done);
    AtomicityExactly(c, t, ins, 1, s, next, b, s');
    assert !ins[0].reverts;
  }

  lemma {:induction false} UndoneBelow(s: Contents, t: Tenant, done: seq<Completed>, next: nat)
    requires Below(s, next)
    ensures Below(Undone(s, t, done), next)
    decreases done
  {
    if done != [] { UndoneBelow(UndoOne(s, t, done[|done| - 1]), t, done[..|done| - 1], next); }
  }

  class Uploads {
    var rows: map<nat, FileRow>
    var objects: map<Ref, nat>
    var book: Book
    var nextId: nat

    function Now(): Contents
      reads this
    {
      Contents(rows, objects, book)
    }

    ghost predicate Valid()
      reads this
    {
      Below(Now(), nextId)
    }

    /** Tries one provider, with one retry after a retryable error. A failed attempt leaves no object. */
    method TryProvider(p: Provider, id: nat, f: Input) returns (ok: bool)
      modifies this`objects
      ensures ok == Takes(f, p) && ok == Stores(f, p)
      ensures objects == if ok then old(objects)[(p, id) := f.content] else old(objects)
    {
      ok := false;
      if p !in f.attempts {
        return;
      }
      var attempt := 1;
      while attempt <= 2
        invariant 1 <= attempt <= 3 && !ok && objects == old(objects)
        invariant attempt == 2 ==> f.attempts[p].0.Retryable?
        invariant attempt == 3 ==> !Takes(f, p)
        decreases 3 - attempt
      {
        var end := if attempt == 1 then f.attempts[p].0 else f.attempts[p].1;
        if end.Stored? {
          objects := objects[(p, id) := f.content];
          return true;
        }
        if end.Retryable? && attempt <= 1 {
          attempt := attempt + 1;
          continue;
        }
        return false;
      }
    }

    /** Tries the candidates in order until one takes the object. */
    method FailOver(cs: seq<Provider>, id: nat, f: Input) returns (r: Option<nat>)
      modifies this`objects
      ensures r == Chosen(cs, f, 0) && (r.None? <==> forall p <- cs :: !Stores(f, p))
      ensures r.Some? ==> r.value < |cs| && Stores(f, cs[r.value])
      ensures r.Some? ==> forall j :: 0 <= j < r.value ==> !Stores(f, cs[j])
      ensures objects == if r.Some? then old(objects)[(cs[r.value], id) := f.content] else old(objects)
    {
      var i := 0;
      while i < |cs|
        invariant i <= |cs| && objects == old(objects) && Chosen(cs, f, 0) == Chosen(cs, f, i)
      {
        var ok := TryProvider(cs[i], id, f);
        if ok {
          return Some(i);
        }
        i := i + 1;
      }
      return None;
    }

    /** The transaction: charges the tenant and inserts the rows, or compensates by deleting the object. */
    method Commit(t: Tenant, id: nat, p: Provider, f: Input, row: FileRow) returns (ok: bool)
      modifies this`objects, this`rows, this`book
      ensures ok == (f.dbUp && TryReserve(old(book), t, f.subject.size, 1).Some? && f.commits)
      ensures !ok ==> rows == old(rows) && book == old(book)
      ensures !ok ==> objects == if f.compensates then old(objects) - {(p, id)} else old(objects)
      ensures ok ==> rows == old(rows)[id := row] && objects == old(objects)
      ensures ok ==> Some(book) == TryReserve(old(book), t, f.subject.size, 1)
    {
      var charged := TryReserve(book, t, f.subject.size, 1);
      if !f.dbUp || charged.None? || !f.commits {
        if f.compensates {
          objects := objects - {(p, id)};
        }
        return false;
      }
      book := charged.value;
      rows := rows[id := row];
      return true;
    }

    /** Uploads one file: the first candidate that takes it becomes the primary, then one transaction
        charges the tenant and inserts the rows. A failure leaves at most an object that could not be
        deleted again. */
    method UploadSingle(c: Setting, t: Tenant, f: Input) returns (r: Option<Completed>)
      requires Valid()
      modifies this
      ensures Now() == AfterOne(c, t, f, old(Now()), old(nextId))
      ensures nextId == if f.checked then old(nextId) + 1 else old(nextId)
      ensures r.Some? == Succeeds(c, t, f, old(book))
      ensures r.Some? ==> r.value == CompletedAs(c, f, old(nextId)) && InPlace(c, t, f, r.value, Now())
      ensures r.Some? <==> Permitted(c, t, f, old(book))
      ensures r.Some? ==> Moves(old(book), book, t, f.subject.size, 1)
      ensures r.None? ==> rows == old(rows) && book == old(book) && (f.compensates ==> objects == old(objects))
    {
      PermittedExactly(c, t, f, book);
      if !f.checked {
        return None;
      }
      var id := nextId;
      nextId := nextId + 1;
      var plan := MakePlan(c, f.subject);
      if plan.None? {
        return None;
      }
      var i := FailOver(plan.value.candidates, id, f);
      if i.None? {
        return None;
      }
      var p := plan.value.candidates[i.value];
      var ok := Commit(t, id, p, f, FileRow(t, f.subject.size, p, InsertedRows(c, f.subject, p)));
      if !ok {
        NextIsNew(old(Now()), id, p);
        assert f.compensates ==> objects == old(objects);
        return None;
      }
      PutInPlace(c, t, f, id, Now());
      return Some(Completed(id, p, f.subject.size, f.removes, f.reverts));
    }

    /** Undoes the completed uploads of a batch, last first. A driver that fails and a database that is
        gone are passed over. */
    method RollbackBatch(c: Setting, t: Tenant, done: seq<Completed>)
      requires forall i :: 0 <= i < |done| ==> done[i].provider in c.registry
      modifies this`rows, this`objects, this`book
      ensures Now() == Undone(old(Now()), t, done)
    {
      var k := |done|;
      assert done[..k] == done;
      while k > 0
        invariant 0 <= k <= |done| && Undone(Now(), t, done[..k]) == Undone(old(Now()), t, done)
      {
        assert done[..k][..k - 1] == done[..k - 1];
        k := k - 1;
        var d := done[k];
        var p := if d.provider in c.registry then d.provider else c.topology.primary;
        if d.removes {
          objects := objects - {(p, d.id)};
        }
        if d.reverts {
          rows := rows - {d.id};
          book := Release(book, t, d.size, 1);
        }
      }
    }

    /** The next file of a batch. */
    method UploadNext(c: Setting, t: Tenant, f: Input, ghost b: Batch) returns (one: Option<Completed>)
      requires Valid() && Now() == b.s && nextId == b.next
      modifies this
      ensures Now() == NextOne(c, t, b, f).s && nextId == NextOne(c, t, b, f).next
      ensures NextOne(c, t, b, f).outs == b.outs + [one] && one.Some? == Succeeds(c, t, f, b.s.book)
      ensures NextOne(c, t, b, f).done == b.done + if one.Some? then [one.value] else []
    {
      one := UploadSingle(c, t, f);
    }

    /** Rolls back a batch that has failed at `k`. */
    method Abort(c: Setting, t: Tenant, done: seq<Completed>, ghost ins: seq<Input>, ghost k: nat,
                 ghost s0: Contents, ghost n0: nat, ghost b: Batch)
      requires Below(s0, n0) && FailsAt(c, t, ins, k, s0, n0) && b == Uploaded(c, t, ins[..k + 1], s0, n0)
      requires Now() == b.s && nextId == b.next && done == b.done
      modifies this`rows, this`objects, this`book
      ensures Valid() && (Restored(s0, Now(), t) <==> Undoable(c, t, ins, k, s0, n0))
    {
      UploadedSound(c, t, ins[..k + 1], s0, n0, b);
      UndoneBelow(b.s, t, b.done, nextId);
      RollbackBatch(c, t, done);
      AtomicityExactly(c, t, ins, k, s0, n0, b, Now());
    }

    /** Uploads a batch. Without a failure, or where it need not be atomic, each file is uploaded or not
        on its own, in order. An atomic batch that fails is rolled back, and everything is as it was
        exactly when all of it could be undone. */
    method Upload(c: Setting, t: Tenant, inputs: seq<Input>, atomic: bool)
      returns (r: Option<seq<Option<Completed>>>, ghost k: nat)
      requires Valid()
      modifies this
      ensures Valid()
      ensures r.Some? ==> var b := Uploaded(c, t, inputs, old(Now()), old(nextId));
        Now() == b.s && nextId == b.next && r.value == b.outs && Sound(c, t, inputs, old(Now()), b)
      ensures r.Some? && atomic ==> AllSucceed(c, t, inputs, |inputs|, old(Now()), old(nextId))
      ensures r.None? ==> atomic && FailsAt(c, t, inputs, k, old(Now()), old(nextId))
      ensures r.None? ==> (Restored(old(Now()), Now(), t) <==> Undoable(c, t, inputs, k, old(Now()), old(nextId)))
    {
      ghost var s0, n0, b := Now(), nextId, Uploaded(c, t, [], Now(), nextId);
      var done: seq<Completed>, outcomes: seq<Option<Completed>>, i := [], [], 0;
      while i < |inputs|
        invariant i <= |inputs| && b == Uploaded(c, t, inputs[..i], s0, n0) && Below(b.s, b.next)
        invariant Now() == b.s && nextId == b.next && done == b.done && outcomes == b.outs
        invariant atomic ==> AllSucceed(c, t, inputs, i, s0, n0)
      {
        UploadedNext(c, t, inputs, i, s0, n0);
        var one := UploadNext(c, t, inputs[i], b);
        OneSucceeds(c, t, inputs, i, s0, n0, b);
        b := NextOne(c, t, b, inputs[i]);
        StaysBelow(c, t, inputs[..i + 1], s0, n0, b);
        outcomes := outcomes + [one];
        if one.Some? {
          done := done + [one.value];
          if atomic { AllSucceedMore(c, t, inputs, i, s0, n0); }
        } else if atomic {
          Abort(c, t, done, inputs, i, s0, n0, b);
          return None, i;
        }
        i := i + 1;
      }
      assert inputs[..i] == inputs;
      UploadedSound(c, t, inputs, s0, n0, b);
      return Some(outcomes), i;
    }
  }
}
