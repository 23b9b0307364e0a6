/** Several relays over one outbox: claims, hand-overs and marks interleave freely. The claim commits
    before anything is published, so its row locks protect nothing but the claim itself. */
module RelayRuns {
  import opened Wrappers
  import opened OutboxRelay

  /** A relay in a cycle: the positions it has claimed, how far it has come, the keys it passes over,
      and whether the broker has the current row while its mark is still to come. */
  datatype Busy = Busy(rows: seq<nat>, j: nat, blocked: set<string>, given: bool)

  /** `handed` lists the positions handed to the broker, in order. */
  datatype Shared = Shared(table: seq<OutboxRow>, handed: seq<nat>, relays: map<nat, Busy>)

  datatype Step =
    | Write(id: nat, key: string, at: int)
    | Claim(r: nat, now: int, locked: set<nat>, limit: nat)
    | Skip(r: nat)
    | Publish(r: nat)
    | Mark(r: nat)
    | Fail(r: nat, recorded: bool, at: int)   // the broker refuses, or the mark fails
    | Stop(r: nat)                            // the cycle ends, or the process dies

  /** The relay stands before a row. */
  predicate AtRow(s: Shared, r: nat) {
    r in s.relays && s.relays[r].j < |s.relays[r].rows| && s.relays[r].rows[s.relays[r].j] < |s.table|
  }

  function Current(s: Shared, r: nat): nat
    requires AtRow(s, r)
  {
    s.relays[r].rows[s.relays[r].j]
  }

  predicate Passes(s: Shared, r: nat)
    requires AtRow(s, r)
  {
    s.table[Current(s, r)].key in s.relays[r].blocked
  }

  predicate Enabled(s: Shared, e: Step) {
    match e
    case Write(_, _, _) => true
    case Claim(r, _, _, _) => r !in s.relays
    case Skip(r) => AtRow(s, r) && !s.relays[r].given && Passes(s, r)
    case Publish(r) => AtRow(s, r) && !s.relays[r].given && !Passes(s, r)
    case Mark(r) => AtRow(s, r) && s.relays[r].given
    case Fail(r, _, _) => AtRow(s, r) && (s.relays[r].given || !Passes(s, r))
    case Stop(r) => r in s.relays
  }

  function Next(b: Busy): Busy {
    b.(j := b.j + 1, given := false)
  }

  function Apply(s: Shared, e: Step): Shared
    requires Enabled(s, e)
  {
    match e
    case Write(id, key, at) => s.(table := s.table + [OutboxRow(id, key, 0, at, false)])
    case Claim(r, now, locked, limit) =>
      s.(relays := s.relays[r := Busy(Claimed(s.table, now, locked, limit, 0), 0, {}, false)])
    case Skip(r) => s.(relays := s.relays[r := Next(s.relays[r])])
    case Publish(r) =>
      s.(handed := s.handed + [Current(s, r)], relays := s.relays[r := s.relays[r].(given := true)])
    case Mark(r) =>
      var p := Current(s, r);
      s.(table := s.table[p := s.table[p].(published := true)], relays := s.relays[r := Next(s.relays[r])])
    case Fail(r, recorded, at) =>
      if !recorded then s.(relays := s.relays - {r})
      else
        var p := Current(s, r);
        var row := s.table[p];
        s.(table := s.table[p := row.(attempts := row.attempts + 1, availableAt := at)],
           relays := s.relays[r := Next(s.relays[r]).(blocked := s.relays[r].blocked + {row.key})])
    case Stop(r) => s.(relays := s.relays - {r})
  }

  predicate Runs(s: Shared, es: seq<Step>)
    decreases es
  {
    es == [] || (Enabled(s, es[0]) && Runs(Apply(s, es[0]), es[1..]))
  }

  function After(s: Shared, es: seq<Step>): Shared
    requires Runs(s, es)
    decreases es
  {
    if es == [] then s else After(Apply(s, es[0]), es[1..])
  }

  // ---------------------------------------------------------------------------------
  // Published rows have been handed over

  ghost predicate Sane(s: Shared, b: Busy) {
    && b.j <= |b.rows| && (b.given ==> b.j < |b.rows| && b.rows[b.j] in s.handed)
    && (forall i :: 0 <= i < |b.rows| ==> b.rows[i] < |s.table|)
    && (forall i, k :: 0 <= i < k < |b.rows| ==> b.rows[i] < b.rows[k])
  }

  ghost predicate Known(s: Shared) {
    && (forall r <- s.relays :: Sane(s, s.relays[r]))
    && (forall p :: 0 <= p < |s.table| && s.table[p].published ==> p in s.handed)
    && (forall p <- s.handed :: p < |s.table|)
  }

  lemma KnownStep(s: Shared, e: Step)
    requires Known(s) && Enabled(s, e)
    ensures Known(Apply(s, e))
  {
    var s' := Apply(s, e);
    if e.Claim? { ClaimIsAscending(s.table, e.now, e.locked, e.limit); }
    forall r | r in s'.relays ensures Sane(s', s'.relays[r]) {
      if r in s.relays { assert Sane(s, s.relays[r]); }
    }
  }

  lemma {:induction false} KnownRun(s: Shared, es: seq<Step>)
    requires Known(s) && Runs(s, es)
    ensures Known(After(s, es))
    decreases es
  {
    if es != [] {
      KnownStep(s, es[0]);
      KnownRun(Apply(s, es[0]), es[1..]);
    }
  }

  /** An empty outbox, and nobody at work. */
  predicate Init(s: Shared) {
    s.table == [] && s.handed == [] && s.relays == map[]
  }

  /** However many relays there are and whatever fails: a row marked published was handed over. */
  lemma PublishedWasHanded(s: Shared, es: seq<Step>, p: nat)
    requires Init(s) && Runs(s, es) && p < |After(s, es).table| && After(s, es).table[p].published
    ensures p in After(s, es).handed
  {
    KnownRun(s, es);
  }

  // ---------------------------------------------------------------------------------
  // When a row is handed over twice

  /** How often a row has been handed over. */
  function Times(handed: seq<nat>, p: nat): nat {
    if handed == [] then 0 else Times(handed[..|handed| - 1], p) + if handed[|handed| - 1] == p then 1 else 0
  }

  lemma TimesNext(handed: seq<nat>, q: nat, p: nat)
    ensures Times(handed + [q], p) == Times(handed, p) + if q == p then 1 else 0
  {
    assert (handed + [q])[..|handed|] == handed;
  }

  /** From where on the relay has not handed over yet. */
  function From(b: Busy): nat {
    if b.given then b.j + 1 else b.j
  }

  /** The relay has the row at position `m` of its claim still before it, and its key is not blocked. */
  predicate OpenAt(s: Shared, r: nat, p: nat, m: nat) {
    && r in s.relays && p < |s.table| && s.table[p].key !in s.relays[r].blocked
    && From(s.relays[r]) <= m < |s.relays[r].rows| && s.relays[r].rows[m] == p
  }

  ghost predicate Open(s: Shared, r: nat, p: nat) {
    exists m :: OpenAt(s, r, p, m)
  }

  /** Two hand-overs of the row have happened or can still happen without another claim. */
  ghost predicate Risk(s: Shared, p: nat) {
    || Times(s.handed, p) >= 2
    || (Times(s.handed, p) >= 1 && exists r :: Open(s, r, p))
    || exists r, q :: r != q && Open(s, r, p) && Open(s, q, p)
  }

  /** The step claims the row. */
  predicate Takes(s: Shared, e: Step, p: nat) {
    e.Claim? && p in Claimed(s.table, e.now, e.locked, e.limit, 0)
  }

  /** A claim of the row comes when it has not been handed over and no relay has it before it. */
  ghost predicate Exclusive(s: Shared, e: Step, p: nat) {
    Takes(s, e, p) ==> Times(s.handed, p) == 0 && forall r :: !Open(s, r, p)
  }

  /** Only a claim opens a row for a relay, and only for the one that claims. */
  lemma OpenBefore(s: Shared, e: Step, r: nat, p: nat)
    requires Known(s) && Enabled(s, e) && Open(Apply(s, e), r, p)
    ensures Open(s, r, p) || (Takes(s, e, p) && e.r == r)
  {
    var s' := Apply(s, e);
    var m :| OpenAt(s', r, p, m);
    if r in s.relays {
      assert Sane(s, s.relays[r]);
      if !e.Write? || p < |s.table| { assert OpenAt(s, r, p, m); }
    }
  }

  /** What a publishing relay had open is open no more. */
  lemma PublishCloses(s: Shared, r: nat, p: nat)
    requires Known(s) && Enabled(s, Publish(r)) && Current(s, r) == p
    ensures Open(s, r, p) && !Open(Apply(s, Publish(r)), r, p)
  {
    assert Sane(s, s.relays[r]);
    assert OpenAt(s, r, p, s.relays[r].j);
  }

  lemma HandedOnlyByPublish(s: Shared, e: Step, p: nat)
    requires Enabled(s, e)
    ensures Times(Apply(s, e).handed, p) ==
      Times(s.handed, p) + if e.Publish? && Current(s, e.r) == p then 1 else 0
  {
    if e.Publish? { TimesNext(s.handed, Current(s, e.r), p); }
  }

  /** A step that is no claim of the row brings no risk. */
  lemma NoNewRisk(s: Shared, e: Step, p: nat)
    requires Known(s) && Enabled(s, e) && !Takes(s, e, p) && Risk(Apply(s, e), p)
    ensures Risk(s, p)
  {
    var s' := Apply(s, e);
    HandedOnlyByPublish(s, e, p);
    forall r | Open(s', r, p) ensures Open(s, r, p) { OpenBefore(s, e, r, p); }
    if e.Publish? && Current(s, e.r) == p { PublishCloses(s, e.r, p); }
  }

  /** What was open stays open, except for the relay that acts. */
  lemma OpenStays(s: Shared, e: Step, r: nat, p: nat)
    requires Known(s) && Enabled(s, e) && Open(s, r, p) && (e.Write? || (e.Claim? && e.r != r))
    ensures Open(Apply(s, e), r, p)
  {
    var m :| OpenAt(s, r, p, m);
    assert OpenAt(Apply(s, e), r, p, m);
  }

  lemma ClaimOpens(s: Shared, e: Step, p: nat)
    requires Known(s) && Enabled(s, e) && Takes(s, e, p)
    ensures Open(Apply(s, e), e.r, p)
  {
    var rows := Claimed(s.table, e.now, e.locked, e.limit, 0);
    ClaimIsAscending(s.table, e.now, e.locked, e.limit);
    var m :| 0 <= m < |rows| && rows[m] == p;
    assert OpenAt(Apply(s, e), e.r, p, m);
  }

  /** A claim of the row brings a risk exactly when it is not exclusive. */
  lemma ClaimRiskExactly(s: Shared, e: Step, p: nat)
    requires Known(s) && Enabled(s, e) && Takes(s, e, p) && !Risk(s, p)
    ensures Risk(Apply(s, e), p) <==> !Exclusive(s, e, p)
  {
    var s' := Apply(s, e);
    ClaimOpens(s, e, p);
    if q :| Open(s, q, p) {
      assert q in s.relays && q != e.r;
      OpenStays(s, e, q, p);
    }
    forall r | Open(s', r, p) && r != e.r ensures Open(s, r, p) { OpenBefore(s, e, r, p); }
  }

  ghost predicate AlwaysExclusive(s: Shared, es: seq<Step>, p: nat)
    requires Runs(s, es)
    decreases es
  {
    es == [] || (Exclusive(s, es[0], p) && AlwaysExclusive(Apply(s, es[0]), es[1..], p))
  }

  ghost predicate NeverAtRisk(s: Shared, es: seq<Step>, p: nat)
    requires Runs(s, es)
    decreases es
  {
    !Risk(s, p) && (es == [] || NeverAtRisk(Apply(s, es[0]), es[1..], p))
  }

  lemma {:induction false} RiskRunExactly(s: Shared, es: seq<Step>, p: nat)
    requires Known(s) && Runs(s, es) && !Risk(s, p)
    ensures NeverAtRisk(s, es, p) <==> AlwaysExclusive(s, es, p)
    decreases es
  {
    if es != [] {
      KnownStep(s, es[0]);
      if Takes(s, es[0], p) {
        ClaimRiskExactly(s, es[0], p);
      } else if Risk(Apply(s, es[0]), p) {
        NoNewRisk(s, es[0], p);
      }
      if !Risk(Apply(s, es[0]), p) { RiskRunExactly(Apply(s, es[0]), es[1..], p); }
    }
  }

  /** In every run of any number of relays: a row is never at risk of a second hand-over if and only if
      each of its claims comes when it has not been handed over and no other relay has it before it. */
  lemma HandedOnceExactly(s: Shared, es: seq<Step>, p: nat)
    requires Init(s) && Runs(s, es)
    ensures NeverAtRisk(s, es, p) <==> AlwaysExclusive(s, es, p)
  {
    RiskRunExactly(s, es, p);
  }

  // ---------------------------------------------------------------------------------
  // The risk is real

  predicate ClaimFree(es: seq<Step>) {
    forall e <- es :: !e.Claim?
  }

  /** A run without a claim leads from `i` to `t`. */
  ghost predicate Drains(i: Shared, t: Shared) {
    exists es :: Runs(i, es) && ClaimFree(es) && After(i, es) == t
  }

  lemma {:induction false} AppendStep(s: Shared, es: seq<Step>, e: Step)
    requires Runs(s, es) && Enabled(After(s, es), e)
    ensures Runs(s, es + [e]) && After(s, es + [e]) == Apply(After(s, es), e)
    decreases es
  {
    if es == [] {
      assert es + [e] == [e];
    } else {
      assert (es + [e])[1..] == es[1..] + [e];
      AppendStep(Apply(s, es[0]), es[1..], e);
    }
  }

  lemma DrainsNext(i: Shared, s: Shared, e: Step, t: Shared)
    requires Drains(i, s) && Enabled(s, e) && !e.Claim? && Apply(s, e) == t
    ensures Drains(i, t)
  {
    var es :| Runs(i, es) && ClaimFree(es) && After(i, es) == s;
    AppendStep(i, es, e);
  }

  /** Nothing changes for the other relays. */
  ghost predicate SameFor(s: Shared, t: Shared, r: nat) {
    && t.relays.Keys == s.relays.Keys && (forall q <- s.relays :: q != r ==> t.relays[q] == s.relays[q])
    && |t.table| == |s.table| && forall p :: 0 <= p < |s.table| ==> t.table[p].key == s.table[p].key
  }

  lemma OthersStayOpen(s: Shared, t: Shared, r: nat, q: nat, p: nat)
    requires SameFor(s, t, r) && q != r && Open(s, q, p)
    ensures Open(t, q, p)
  {
    var m :| OpenAt(s, q, p, m);
    assert OpenAt(t, q, p, m);
  }

  lemma MarksOn(i: Shared, s: Shared, r: nat, p: nat, m: nat, t: Shared)
    requires Known(s) && Drains(i, s) && OpenAt(s, r, p, m) && s.relays[r].given
    requires Enabled(s, Mark(r)) && t == Apply(s, Mark(r))
    ensures Known(t) && Drains(i, t) && OpenAt(t, r, p, m) && SameFor(s, t, r) && t.handed == s.handed
    ensures t.relays[r] == Next(s.relays[r])
  {
    KnownStep(s, Mark(r));
    DrainsNext(i, s, Mark(r), t);
  }

  lemma SkipsOn(i: Shared, s: Shared, r: nat, p: nat, m: nat, t: Shared)
    requires Known(s) && Drains(i, s) && OpenAt(s, r, p, m) && s.relays[r].j < m
    requires Enabled(s, Skip(r)) && t == Apply(s, Skip(r))
    ensures Known(t) && Drains(i, t) && OpenAt(t, r, p, m) && SameFor(s, t, r) && t.handed == s.handed
    ensures t.relays[r] == Next(s.relays[r])
  {
    KnownStep(s, Skip(r));
    DrainsNext(i, s, Skip(r), t);
  }

  lemma PublishesOn(i: Shared, s: Shared, r: nat, p: nat, m: nat, t: Shared)
    requires Known(s) && Drains(i, s) && OpenAt(s, r, p, m) && s.relays[r].j < m
    requires Enabled(s, Publish(r)) && t == Apply(s, Publish(r))
    ensures Known(t) && Drains(i, t) && OpenAt(t, r, p, m) && SameFor(s, t, r) && Enabled(t, Mark(r))
    ensures t.relays[r] == s.relays[r].(given := true) && Times(t.handed, p) >= Times(s.handed, p)
  {
    KnownStep(s, Publish(r));
    DrainsNext(i, s, Publish(r), t);
    TimesNext(s.handed, Current(s, r), p);
  }

  lemma PublishedOn(i: Shared, s: Shared, r: nat, p: nat, m: nat) returns (t: Shared)
    requires Known(s) && Drains(i, s) && OpenAt(s, r, p, m) && s.relays[r].given && Enabled(s, Mark(r))
    ensures Known(t) && Drains(i, t) && OpenAt(t, r, p, m) && SameFor(s, t, r) && t.handed == s.handed
    ensures t.relays[r] == Next(s.relays[r])
  {
    t := Apply(s, Mark(r));
    MarksOn(i, s, r, p, m, t);
  }

  lemma SameTrans(s: Shared, s1: Shared, t: Shared, r: nat)
    requires SameFor(s, s1, r) && SameFor(s1, t, r)
    ensures SameFor(s, t, r)
  {
  }

  /** The relay moves one row on: it marks, skips, or hands over and marks. */
  lemma MovesOn(i: Shared, s: Shared, r: nat, p: nat, m: nat) returns (t: Shared)
    requires Known(s) && Drains(i, s) && OpenAt(s, r, p, m) && (s.relays[r].given || s.relays[r].j < m)
    ensures Known(t) && Drains(i, t) && OpenAt(t, r, p, m) && SameFor(s, t, r)
    ensures t.relays[r] == Next(s.relays[r]) && Times(t.handed, p) >= Times(s.handed, p)
  {
    assert Sane(s, s.relays[r]);
    if s.relays[r].given {
      t := PublishedOn(i, s, r, p, m);
    } else if Passes(s, r) {
      t := Apply(s, Skip(r));
      SkipsOn(i, s, r, p, m, t);
    } else {
      var s1 := Apply(s, Publish(r));
      PublishesOn(i, s, r, p, m, s1);
      t := PublishedOn(i, s1, r, p, m);
      SameTrans(s, s1, t, r);
    }
  }

  /** A relay that has the row before it can come to hand it over. */
  lemma {:induction false} HandsOverAgain(i: Shared, s: Shared, r: nat, p: nat, m: nat) returns (t: Shared)
    requires Known(s) && Drains(i, s) && OpenAt(s, r, p, m)
    ensures Known(t) && Drains(i, t) && SameFor(s, t, r) && Times(t.handed, p) >= Times(s.handed, p) + 1
    decreases m - s.relays[r].j
  {
    assert Sane(s, s.relays[r]);
    if s.relays[r].given || s.relays[r].j < m {
      var s1 := MovesOn(i, s, r, p, m);
      t := HandsOverAgain(i, s1, r, p, m);
      SameTrans(s, s1, t, r);
    } else {
      t := Apply(s, Publish(r));
      KnownStep(s, Publish(r));
      DrainsNext(i, s, Publish(r), t);
      TimesNext(s.handed, p, p);
    }
  }

  lemma Starts(s: Shared)
    ensures Drains(s, s)
  {
    assert Runs(s, []) && After(s, []) == s;
  }

  /** Where there is a risk, the second hand-over can happen. */
  lemma RiskIsReal(s: Shared, p: nat) returns (t: Shared)
    requires Known(s) && Risk(s, p)
    ensures Drains(s, t) && Times(t.handed, p) >= 2
  {
    Starts(s);
    t := s;
    if Times(s.handed, p) < 2 {
      var r :| Open(s, r, p) && (Times(s.handed, p) >= 1 || exists q :: q != r && Open(s, q, p));
      var m :| OpenAt(s, r, p, m);
      t := HandsOverAgain(s, s, r, p, m);
      if Times(t.handed, p) < 2 {
        var q :| q != r && Open(s, q, p);
        OthersStayOpen(s, t, r, q, p);
        var n :| OpenAt(t, q, p, n);
        t := HandsOverAgain(s, t, q, p, n);
      }
    }
  }

  lemma {:induction false} NoRiskNoSecond(s: Shared, es: seq<Step>, p: nat)
    requires Known(s) && Runs(s, es) && !Risk(s, p) && ClaimFree(es)
    ensures Times(After(s, es).handed, p) <= 1
    decreases es
  {
    if es != [] {
      assert es[0] in es;
      KnownStep(s, es[0]);
      if Risk(Apply(s, es[0]), p) { NoNewRisk(s, es[0], p); }
      NoRiskNoSecond(Apply(s, es[0]), es[1..], p);
    }
  }

  /** A row can be handed over twice without another claim if and only if it is at risk. */
  lemma TwiceExactly(s: Shared, p: nat)
    requires Known(s)
    ensures (exists t :: Drains(s, t) && Times(t.handed, p) >= 2) <==> Risk(s, p)
  {
    if Risk(s, p) {
      var t := RiskIsReal(s, p);
    } else if t :| Drains(s, t) && Times(t.handed, p) >= 2 {
      var es :| Runs(s, es) && ClaimFree(es) && After(s, es) == t;
      NoRiskNoSecond(s, es, p);
    }
  }

  // ---------------------------------------------------------------------------------
  // Two relays

  lemma {:induction false} PositionsGrow(c: seq<nat>, j: nat)
    requires j < |c| && forall i, k :: 0 <= i < k < |c| ==> c[i] < c[k]
    ensures c[j] >= j
  {
    if j > 0 { PositionsGrow(c, j - 1); }
  }

  /** A claim as large as the table takes every claimable row. */
  lemma TakesAll(table: seq<OutboxRow>, now: int, p: nat)
    requires p < |table| && Claimable(table[p], now)
    ensures p in Claimed(table, now, {}, |table|, 0)
  {
    var c := Claimed(table, now, {}, |table|, 0);
    ClaimedExactly(table, now, {}, |table|, 0);
    if p !in c {
      PositionsGrow(c, |table| - 1);
      assert false;
    }
  }

  /** Two idle relays and one row that is due: both can claim it and both can hand it over, because the
      locks of the first claim are gone when the second one comes. */
  lemma TwoRelaysHandOver(s: Shared, p: nat, now: int, r: nat, q: nat) returns (s2: Shared, t: Shared)
    requires Known(s) && p < |s.table| && Claimable(s.table[p], now) && r !in s.relays && q !in s.relays && r != q
    ensures var e, f := Claim(r, now, {}, |s.table|), Claim(q, now, {}, |s.table|);
      Enabled(s, e) && Enabled(Apply(s, e), f) && s2 == Apply(Apply(s, e), f)
    ensures Drains(s2, t) && Times(t.handed, p) >= 2
  {
    var e, f := Claim(r, now, {}, |s.table|), Claim(q, now, {}, |s.table|);
    TakesAll(s.table, now, p);
    var s1 := Apply(s, e);
    KnownStep(s, e);
    ClaimOpens(s, e, p);
    s2 := Apply(s1, f);
    KnownStep(s1, f);
    ClaimOpens(s1, f, p);
    OpenStays(s1, f, r, p);
    t := RiskIsReal(s2, p);
  }

  // ---------------------------------------------------------------------------------
  // Nothing is lost

  /** Claims of `n` rows, as a relay with this batch size makes them while nobody else claims. */
  predicate Batches(es: seq<Step>, n: nat) {
    forall e <- es :: e.Claim? ==> e.limit == n && e.locked == {}
  }

  ghost predicate Leads(i: Shared, t: Shared, n: nat) {
    exists es :: Runs(i, es) && Batches(es, n) && After(i, es) == t
  }

  lemma LeadsNext(i: Shared, s: Shared, e: Step, n: nat)
    requires Leads(i, s, n) && Enabled(s, e) && (e.Claim? ==> e.limit == n && e.locked == {})
    ensures Leads(i, Apply(s, e), n)
  {
    var es :| Runs(i, es) && Batches(es, n) && After(i, es) == s;
    AppendStep(i, es, e);
  }

  /** The row is marked published, and nothing else changes but that it was handed over. */
  function Done(s: Shared, p: nat): Shared
    requires p < |s.table|
  {
    s.(table := s.table[p := s.table[p].(published := true)], handed := s.handed + [p])
  }

  /** One cycle of an idle relay, which stops after its first row. */
  lemma FirstRowDone(i: Shared, s: Shared, r: nat, now: int, n: nat, p: nat)
    requires Leads(i, s, n) && r !in s.relays && p < |s.table|
    requires var c := Claimed(s.table, now, {}, n, 0); c != [] && c[0] == p
    ensures Leads(i, Done(s, p), n)
  {
    var c := Claimed(s.table, now, {}, n, 0);
    var s1 := s.(relays := s.relays[r := Busy(c, 0, {}, false)]);
    LeadsNext(i, s, Claim(r, now, {}, n), n);
    var s2 := s1.(handed := s.handed + [p], relays := s.relays[r := Busy(c, 0, {}, true)]);
    LeadsNext(i, s1, Publish(r), n);
    assert Apply(s1, Publish(r)) == s2;
    var s3 := Done(s, p).(relays := s.relays[r := Busy(c, 1, {}, false)]);
    LeadsNext(i, s2, Mark(r), n);
    assert Apply(s2, Mark(r)) == s3;
    LeadsNext(i, s3, Stop(r), n);
    assert Apply(s3, Stop(r)) == Done(s, p);
  }

  /** The unpublished rows before position `p`. */
  function Ahead(table: seq<OutboxRow>, p: nat): set<nat>
    requires p <= |table|
  {
    set q | 0 <= q < p && !table[q].published
  }

  /** The first row of a claim that could have had `p` is `p` or an unpublished one before it. */
  lemma FirstIsAhead(table: seq<OutboxRow>, now: int, n: nat, p: nat)
    requires p < |table| && Claimable(table[p], now) && n >= 1
    ensures var c := Claimed(table, now, {}, n, 0); c != [] && (c[0] == p || c[0] in Ahead(table, p))
  {
    var c := Claimed(table, now, {}, n, 0);
    ClaimedExactly(table, now, {}, n, 0);
    if p in c {
      var j :| 0 <= j < |c| && c[j] == p;
      assert j > 0 ==> c[0] < c[j];
    }
  }

  lemma {:induction false} Publishes(i: Shared, s: Shared, r: nat, n: nat, p: nat) returns (t: Shared)
    requires Leads(i, s, n) && r !in s.relays && n >= 1 && p < |s.table| && !s.table[p].published
    ensures Leads(i, t, n) && |t.table| == |s.table| && t.table[p].published && p in t.handed
    decreases Ahead(s.table, p)
  {
    var now := s.table[p].availableAt;
    FirstIsAhead(s.table, now, n, p);
    var q := Claimed(s.table, now, {}, n, 0)[0];
    FirstRowDone(i, s, r, now, n, q);
    t := Done(s, q);
    if q != p {
      assert q in Ahead(s.table, p) && q !in Ahead(t.table, p);
      assert Ahead(t.table, p) == Ahead(s.table, p) - {q};
      t := Publishes(i, t, r, n, p);
    }
  }

  /** No event is lost: whatever has failed and whoever is at work, in every state of a run each row that
      is not published can still be handed over and marked, with every batch size from 1 on. */
  lemma NothingLost(s: Shared, n: nat, p: nat)
    requires n >= 1 && p < |s.table| && !s.table[p].published
    ensures exists t :: Leads(s, t, n) && p < |t.table| && t.table[p].published && p in t.handed
  {
    assert Runs(s, []) && Batches([], n) && After(s, []) == s;
    var r := Fresh(s.relays);
    var t := Publishes(s, s, r, n, p);
  }

  // ---------------------------------------------------------------------------------
  // A key is overtaken

  /** The older of two rows of a key is refused and waits; the next cycle hands over the newer one. */
  lemma KeyOvertaken(key: string) returns (s: Shared, es: seq<Step>, t: Shared)
    ensures Init(s) && Runs(s, es) && After(s, es) == t
    ensures |t.table| == 2 && t.table[0].key == t.table[1].key == key && !t.table[0].published && t.handed == [1]
  {
    var old0, old1 := OutboxRow(0, key, 0, 0, false), OutboxRow(0, key, 1, 9, false);
    var new0 := OutboxRow(1, key, 0, 0, false);
    s := Shared([], [], map[]);
    var e0, e1, e2, e3 := Write(0, key, 0), Write(1, key, 0), Claim(0, 0, {}, 1), Fail(0, true, 9);
    var s1, s2 := s.(table := [old0]), s.(table := [old0, new0]);
    assert Apply(s, e0) == s1 && Apply(s1, e1) == s2;
    assert Claimed(s2.table, 0, {}, 1, 0) == [0];
    var s3 := s2.(relays := map[0 := Busy([0], 0, {}, false)]);
    assert Apply(s2, e2) == s3;
    var s4 := s.(table := [old1, new0], relays := map[0 := Busy([0], 1, {key}, false)]);
    assert Current(s3, 0) == 0 && s2.table[0 := old1] == [old1, new0];
    assert {} + {key} == {key};
    assert Apply(s3, e3) == s4;
    es := [e0, e1, e2, e3];
    AppendFour(s, e0, e1, e2, e3, s1, s2, s3, s4);
    var s5 := s4.(relays := map[]);
    AppendStep(s, es, Stop(0));
    assert Apply(s4, Stop(0)) == s5;
    es := es + [Stop(0)];
    assert Claimed(s5.table, 0, {}, 1, 0) == [1] by {
      assert Claimed(s5.table, 0, {}, 1, 0) == Claimed(s5.table, 0, {}, 1, 1) == [1] + Claimed(s5.table, 0, {}, 0, 2);
    }
    AppendStep(s, es, e2);
    es := es + [e2];
    var s6 := s5.(relays := map[0 := Busy([1], 0, {}, false)]);
    assert Apply(s5, e2) == s6;
    AppendStep(s, es, Publish(0));
    es := es + [Publish(0)];
    t := Apply(s6, Publish(0));
  }

  lemma AppendFour(s: Shared, a: Step, b: Step, c: Step, d: Step, s1: Shared, s2: Shared, s3: Shared, s4: Shared)
    requires Enabled(s, a) && Apply(s, a) == s1 && Enabled(s1, b) && Apply(s1, b) == s2
    requires Enabled(s2, c) && Apply(s2, c) == s3 && Enabled(s3, d) && Apply(s3, d) == s4
    ensures Runs(s, [a, b, c, d]) && After(s, [a, b, c, d]) == s4
  {
    assert Runs(s, []) && After(s, []) == s;
    AppendStep(s, [], a);
    AppendStep(s, [a], b);
    AppendStep(s, [a, b], c);
    AppendStep(s, [a, b, c], d);
    assert [] + [a] == [a] && [a] + [b] == [a, b] && [a, b] + [c] == [a, b, c] && [a, b, c] + [d] == [a, b, c, d];
  }
}
