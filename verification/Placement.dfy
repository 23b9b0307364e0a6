/** Placement planning: which providers may hold a file, in which order they are tried as primary,
    and which replica rows an upload inserts once one of them has accepted the object. */
module Placement {
  import opened Wrappers
  import opened ReplicaState

  datatype Driver = Driver(healthy: bool, maxBytes: Option<nat>, privateDelivery: bool)

  datatype Topology = Topology(primary: Provider, failovers: seq<Provider>, secondaries: seq<Provider>)

  datatype Replicas = Auto | Listed(providers: seq<Provider>)

  datatype CloudinaryRule = Never | PublicOnly | Always

  datatype Policy = Policy(primary: Option<Provider>, replicas: Option<Replicas>, cloudinary: CloudinaryRule)

  datatype Setting = Setting(registry: map<Provider, Driver>, topology: Topology, policy: Policy)

  datatype Subject = Subject(size: nat, public: bool)

  datatype Plan = Plan(candidates: seq<Provider>, secondaries: seq<Provider>)

  /** Registered, healthy, large enough, and no public CDN for a file that is not public. */
  predicate Qualified(c: Setting, f: Subject, p: Provider) {
    && p in c.registry && c.registry[p].healthy
    && (c.registry[p].maxBytes.Some? ==> f.size <= c.registry[p].maxBytes.value)
    && (p.Cloudinary? && !f.public ==> c.registry[p].privateDelivery)
  }

  /** A secondary also heeds the Cloudinary replication rule. */
  predicate SecondaryQualified(c: Setting, f: Subject, p: Provider) {
    && Qualified(c, f, p)
    && (p.Cloudinary? ==> c.policy.cloudinary.Always? || (c.policy.cloudinary.PublicOnly? && f.public))
  }

  /** `local` may fail over and replicate; any other candidate for primary is no secondary. */
  predicate SecondaryAllowed(candidates: seq<Provider>, p: Provider)
    requires candidates != []
  {
    if p.Local? then !candidates[0].Local? else p !in candidates
  }

  /** The providers to try as primary, most wanted first, as configured. */
  function Preferences(c: Setting): seq<Provider> {
    (if c.policy.primary.Some? then [c.policy.primary.value] else []) + [c.topology.primary] + c.topology.failovers
  }

  /** The providers wanted as secondaries, as configured. */
  function Wishes(c: Setting): seq<Provider> {
    match c.policy.replicas
    case None => c.topology.secondaries
    case Some(Auto) => [Local, Cloudinary, Seaweedfs]
    case Some(Listed(ps)) => ps
  }

  // ---------------------------------------------------------------------------------
  // The plan as a value

  function Dedup(l: seq<Provider>): seq<Provider> {
    if l == [] then []
    else
      var d, p := Dedup(l[..|l| - 1]), l[|l| - 1];
      if p in d then d else d + [p]
  }

  function Qualifying(l: seq<Provider>, c: Setting, f: Subject): seq<Provider> {
    if l == [] then []
    else Qualifying(l[..|l| - 1], c, f) + if Qualified(c, f, l[|l| - 1]) then [l[|l| - 1]] else []
  }

  function Candidates(c: Setting, f: Subject): seq<Provider> {
    Qualifying(Dedup(Preferences(c)), c, f)
  }

  function Allowed(l: seq<Provider>, candidates: seq<Provider>): seq<Provider>
    requires candidates != []
  {
    if l == [] then []
    else Allowed(l[..|l| - 1], candidates) + if SecondaryAllowed(candidates, l[|l| - 1]) then [l[|l| - 1]] else []
  }

  function QualifyingSecondaries(l: seq<Provider>, c: Setting, f: Subject): seq<Provider> {
    if l == [] then []
    else QualifyingSecondaries(l[..|l| - 1], c, f) + if SecondaryQualified(c, f, l[|l| - 1]) then [l[|l| - 1]] else []
  }

  function Secondaries(c: Setting, f: Subject): seq<Provider>
    requires Candidates(c, f) != []
  {
    QualifyingSecondaries(Dedup(Allowed(Wishes(c), Candidates(c, f))), c, f)
  }

  // ---------------------------------------------------------------------------------
  // What the plan amounts to

  /** Where `p` first occurs. */
  function First(l: seq<Provider>, p: Provider): (i: nat)
    requires p in l
    ensures i < |l| && l[i] == p && forall j :: 0 <= j < i ==> l[j] != p
  {
    if l[0] == p then 0 else 1 + First(l[1..], p)
  }

  /** `s` lists providers of `l` once each, in the order of their first occurrence. */
  predicate InOrder(l: seq<Provider>, s: seq<Provider>) {
    && (forall i :: 0 <= i < |s| ==> s[i] in l)
    && (forall i, j :: 0 <= i < j < |s| ==> First(l, s[i]) < First(l, s[j]))
  }

  lemma FirstPrefix(l: seq<Provider>, n: nat, p: Provider)
    requires n <= |l| && p in l[..n]
    ensures p in l && First(l, p) == First(l[..n], p)
  {
    var i := First(l[..n], p);
    assert l[i] == p;
    assert forall j :: 0 <= j < i ==> l[..n][j] == l[j];
  }

  lemma {:induction false} DedupExactly(l: seq<Provider>)
    ensures InOrder(l, Dedup(l)) && forall p :: p in Dedup(l) <==> p in l
  {
    if l != [] {
      var n := |l| - 1;
      var d, p := Dedup(l[..n]), l[n];
      DedupExactly(l[..n]);
      assert l == l[..n] + [p];
      forall i | 0 <= i < |d| ensures d[i] in l && First(l, d[i]) == First(l[..n], d[i]) {
        FirstPrefix(l, n, d[i]);
      }
      if p !in d { assert First(l, p) == n; }
    }
  }

  lemma {:induction false} QualifyingExactly(l: seq<Provider>, k: seq<Provider>, c: Setting, f: Subject)
    requires InOrder(l, k)
    ensures InOrder(l, Qualifying(k, c, f))
    ensures forall p :: p in Qualifying(k, c, f) <==> p in k && Qualified(c, f, p)
    decreases k
  {
    if k != [] {
      var n := |k| - 1;
      QualifyingExactly(l, k[..n], c, f);
      assert k == k[..n] + [k[n]];
      Later(l, k, Qualifying(k[..n], c, f));
    }
  }

  /** What comes from the front of an ordered list precedes its last element. */
  lemma Later(l: seq<Provider>, k: seq<Provider>, s: seq<Provider>)
    requires k != [] && InOrder(l, k) && InOrder(l, s) && forall p <- s :: p in k[..|k| - 1]
    ensures InOrder(l, s + [k[|k| - 1]])
  {
    var n := |k| - 1;
    forall i | 0 <= i < |s| ensures First(l, s[i]) < First(l, k[n]) {
      assert s[i] in s && s[i] in k[..n];
      var j :| 0 <= j < n && k[..n][j] == s[i];
      assert k[j] == s[i];
    }
  }

  lemma {:induction false} AllowedExactly(l: seq<Provider>, candidates: seq<Provider>)
    requires candidates != []
    ensures forall p :: p in Allowed(l, candidates) <==> p in l && SecondaryAllowed(candidates, p)
  {
    if l != [] {
      AllowedExactly(l[..|l| - 1], candidates);
      assert l == l[..|l| - 1] + [l[|l| - 1]];
    }
  }

  lemma {:induction false} QualifyingSecondariesExactly(l: seq<Provider>, k: seq<Provider>, c: Setting, f: Subject)
    requires InOrder(l, k)
    ensures InOrder(l, QualifyingSecondaries(k, c, f))
    ensures forall p :: p in QualifyingSecondaries(k, c, f) <==> p in k && SecondaryQualified(c, f, p)
    decreases k
  {
    if k != [] {
      var n := |k| - 1;
      QualifyingSecondariesExactly(l, k[..n], c, f);
      assert k == k[..n] + [k[n]];
      Later(l, k, QualifyingSecondaries(k[..n], c, f));
    }
  }

  /** The provider is registered and healthy and takes files of this size, and Cloudinary is there only for
      public files or with private delivery, as a secondary only where the policy replicates to it. */
  predicate SafeAt(c: Setting, f: Subject, p: Provider, secondary: bool) {
    && p in c.registry && c.registry[p].healthy
    && !(c.registry[p].maxBytes.Some? && f.size > c.registry[p].maxBytes.value)
    && (p == Cloudinary ==> f.public || c.registry[p].privateDelivery)
    && (p == Cloudinary && secondary ==>
          c.policy.cloudinary == Always || (c.policy.cloudinary == PublicOnly && f.public))
  }

  /** What it takes to qualify. */
  lemma SafeMeans(c: Setting, f: Subject, p: Provider)
    ensures Qualified(c, f, p) <==> SafeAt(c, f, p, false)
    ensures SecondaryQualified(c, f, p) <==> SafeAt(c, f, p, true)
  {
  }

  /** The candidates are exactly the qualified ones among the primary of the policy, the primary of the
      topology and its failovers, once each. */
  lemma CandidatesExactly(c: Setting, f: Subject)
    ensures InOrder(Preferences(c), Candidates(c, f))
    ensures forall p :: p in Candidates(c, f) <==>
      (c.policy.primary == Some(p) || c.topology.primary == p || p in c.topology.failovers) && SafeAt(c, f, p, false)
  {
    DedupExactly(Preferences(c));
    QualifyingExactly(Preferences(c), Dedup(Preferences(c)), c, f);
    forall p ensures Qualified(c, f, p) <==> SafeAt(c, f, p, false) { SafeMeans(c, f, p); }
  }

  /** And they come in this order: nothing before the primary of the policy, nothing else before the
      primary of the topology, and the failovers as they are configured. */
  lemma MostWantedFirst(c: Setting, f: Subject, i: nat, j: nat)
    requires i < j < |Candidates(c, f)|
    ensures var p, q := Candidates(c, f)[i], Candidates(c, f)[j];
      && p != q && c.policy.primary != Some(q) && (q == c.topology.primary ==> c.policy.primary == Some(p))
      && (c.policy.primary != Some(p) && p != c.topology.primary ==>
            p in c.topology.failovers && q in c.topology.failovers &&
            First(c.topology.failovers, p) < First(c.topology.failovers, q))
  {
    CandidatesExactly(c, f);
    var p, q := Candidates(c, f)[i], Candidates(c, f)[j];
    assert p in Candidates(c, f) && q in Candidates(c, f) && First(Preferences(c), p) < First(Preferences(c), q);
    FirstPreference(c, p);
    FirstPreference(c, q);
  }

  /** Where a preference first occurs. */
  lemma FirstPreference(c: Setting, p: Provider)
    requires p in Preferences(c)
    ensures var i, head := First(Preferences(c), p), |Preferences(c)| - |c.topology.failovers|;
      && (c.policy.primary == Some(p) <==> c.policy.primary.Some? && i == 0)
      && (c.policy.primary != Some(p) ==> (p == c.topology.primary <==> i == head - 1))
      && (c.policy.primary != Some(p) && p != c.topology.primary ==>
            p in c.topology.failovers && i == head + First(c.topology.failovers, p))
  {
    var prefs, fs := Preferences(c), c.topology.failovers;
    var head := |prefs| - |fs|;
    assert prefs[..head] + fs == prefs;
    if c.policy.primary != Some(p) && p != c.topology.primary { LaterFailover(prefs[..head], fs, p); }
  }

  lemma {:induction false} LaterFailover(first: seq<Provider>, fs: seq<Provider>, p: Provider)
    requires p !in first && p in first + fs
    ensures p in fs && First(first + fs, p) == |first| + First(fs, p)
  {
    if first == [] {
      assert first + fs == fs;
    } else {
      assert (first + fs)[1..] == first[1..] + fs;
      LaterFailover(first[1..], fs, p);
    }
  }

  lemma WishesMeans(c: Setting, p: Provider)
    ensures p in Wishes(c) <==> Wished(c, p)
  {
    match p
    case Local =>
    case Seaweedfs =>
    case Cloudinary =>
  }

  /** The secondaries are exactly the wishes of the policy, or of the topology where it has none, that are
      allowed and qualified, once each: Local unless it is the first candidate, any other provider unless
      it is a candidate. */
  lemma SecondariesExactly(c: Setting, f: Subject)
    requires Candidates(c, f) != []
    ensures InOrder(Allowed(Wishes(c), Candidates(c, f)), Secondaries(c, f))
    ensures forall p :: p in Secondaries(c, f) <==>
      && Wished(c, p) && SafeAt(c, f, p, true)
      && (if p == Local then Candidates(c, f)[0] != Local else p !in Candidates(c, f))
  {
    var wanted := Allowed(Wishes(c), Candidates(c, f));
    AllowedExactly(Wishes(c), Candidates(c, f));
    DedupExactly(wanted);
    QualifyingSecondariesExactly(wanted, Dedup(wanted), c, f);
    forall p ensures p in Wishes(c) <==> Wished(c, p) { WishesMeans(c, p); }
    forall p ensures SecondaryQualified(c, f, p) <==> SafeAt(c, f, p, true) { SafeMeans(c, f, p); }
  }

  /** Wanted as a secondary: listed by the policy, any provider at all for AUTO, or listed by the topology. */
  ghost predicate Wished(c: Setting, p: Provider) {
    match c.policy.replicas
    case None => p in c.topology.secondaries
    case Some(Auto) => true
    case Some(Listed(ps)) => p in ps
  }

  // ---------------------------------------------------------------------------------
  // The rows an upload inserts

  datatype Replica = Replica(provider: Provider, role: Role, status: ReplicaStatus)

  function QueuedRows(secondaries: seq<Provider>, primary: Provider): seq<Replica> {
    if secondaries == [] then []
    else
      var p := secondaries[|secondaries| - 1];
      QueuedRows(secondaries[..|secondaries| - 1], primary) +
      if p == primary then [] else [Replica(p, Secondary, Queued)]
  }

  /** The rows for a file whose object `primary` has accepted. */
  function InsertedRows(c: Setting, f: Subject, primary: Provider): seq<Replica>
    requires Candidates(c, f) != []
  {
    [Replica(primary, Primary, Available)] + QueuedRows(Secondaries(c, f), primary)
  }

  predicate Distinct(s: seq<Provider>) {
    forall i, j :: 0 <= i < j < |s| ==> s[i] != s[j]
  }

  lemma {:induction false} QueuedRowsExactly(s: seq<Provider>, primary: Provider)
    requires Distinct(s)
    ensures var rows := QueuedRows(s, primary);
      && (forall i, j :: 0 <= i < j < |rows| ==> rows[i].provider != rows[j].provider)
      && (forall r :: r in rows <==> r.role.Secondary? && r.status.Queued? && r.provider in s && r.provider != primary)
  {
    if s != [] {
      var n := |s| - 1;
      QueuedRowsExactly(s[..n], primary);
      assert s == s[..n] + [s[n]];
      assert s[n] !in s[..n];
    }
  }

  /** The rows of a file whose object is at `primary`: its row is the only primary and AVAILABLE, all others
      are secondaries that are QUEUED, no provider occurs twice, and each is safe for the file. */
  ghost predicate SafeRows(c: Setting, f: Subject, primary: Provider, rows: seq<Replica>) {
    && rows != [] && rows[0] == Replica(primary, Primary, Available) && SafeAt(c, f, primary, false)
    && (forall i :: 0 < i < |rows| ==>
          rows[i].role == Secondary && rows[i].status == Queued && SafeAt(c, f, rows[i].provider, true))
    && (forall i, j :: 0 <= i < j < |rows| ==> rows[i].provider != rows[j].provider)
  }

  /** Whatever the failover: the rows are safe, and the secondaries are those of the plan but the primary. */
  lemma InsertedRowsSafe(c: Setting, f: Subject, primary: Provider)
    requires primary in Candidates(c, f)
    ensures SafeRows(c, f, primary, InsertedRows(c, f, primary))
    ensures forall p :: Replica(p, Secondary, Queued) in InsertedRows(c, f, primary) <==>
      p != primary && p in Secondaries(c, f)
  {
    var rows, s := InsertedRows(c, f, primary), Secondaries(c, f);
    CandidatesExactly(c, f);
    SecondariesExactly(c, f);
    QueuedRowsExactly(s, primary);
    SafeMeans(c, f, primary);
    forall i | 0 < i < |rows|
      ensures rows[i].role == Secondary && rows[i].status == Queued && rows[i].provider != primary
      ensures SafeAt(c, f, rows[i].provider, true)
    {
      assert rows[i] in QueuedRows(s, primary);
      SafeMeans(c, f, rows[i].provider);
    }
  }

  // ---------------------------------------------------------------------------------
  // The planner

  method InitialCandidates(c: Setting) returns (s: seq<Provider>)
    ensures s == Dedup(Preferences(c))
  {
    if c.policy.primary.Some? {
      s := [c.policy.primary.value];
      if c.topology.primary != c.policy.primary.value {
        s := s + [c.topology.primary];
      }
    } else {
      s := [c.topology.primary];
    }
    var prefs, head := Preferences(c), |Preferences(c)| - |c.topology.failovers|;
    StartOfDedup(c);
    var i := 0;
    while i < |c.topology.failovers|
      invariant i <= |c.topology.failovers| && s == Dedup(prefs[..head + i])
    {
      assert prefs[..head + i + 1][..head + i] == prefs[..head + i];
      assert prefs[head + i] == c.topology.failovers[i];
      if c.topology.failovers[i] !in s {
        s := s + [c.topology.failovers[i]];
      }
      i := i + 1;
    }
    assert prefs[..head + i] == prefs;
  }

  lemma StartOfDedup(c: Setting)
    ensures var head := |Preferences(c)| - |c.topology.failovers|;
      Dedup(Preferences(c)[..head]) == match c.policy.primary
        case None => [c.topology.primary]
        case Some(p) => if p == c.topology.primary then [p] else [p, c.topology.primary]
  {
    var t := c.topology.primary;
    var head := |Preferences(c)| - |c.topology.failovers|;
    match c.policy.primary
    case None => assert Preferences(c)[..head] == [t];
    case Some(p) =>
      assert Preferences(c)[..head] == [p, t] && [p, t][..1] == [p];
      assert Dedup([p]) == [p];
  }

  /** Plans the primary candidates and the secondaries, or fails where no candidate qualifies. */
  method MakePlan(c: Setting, f: Subject) returns (r: Option<Plan>)
    ensures r.None? <==> Candidates(c, f) == []
    ensures r.None? <==> forall p ::
      c.policy.primary == Some(p) || c.topology.primary == p || p in c.topology.failovers ==> !SafeAt(c, f, p, false)
    ensures r.Some? ==> r.value.candidates == Candidates(c, f) != [] && r.value.secondaries == Secondaries(c, f)
  {
    var initial := InitialCandidates(c);
    var candidates := [];
    var i := 0;
    while i < |initial|
      invariant i <= |initial| && candidates == Qualifying(initial[..i], c, f)
    {
      var p := initial[i];
      assert initial[..i + 1][..i] == initial[..i];
      if Qualified(c, f, p) {
        candidates := candidates + [p];
      }
      i := i + 1;
    }
    assert initial[..i] == initial;
    CandidatesExactly(c, f);
    if candidates == [] {
      return None;
    }
    var wanted := [];
    i := 0;
    while i < |Wishes(c)|
      invariant i <= |Wishes(c)| && wanted == Allowed(Wishes(c)[..i], candidates)
    {
      assert Wishes(c)[..i + 1][..i] == Wishes(c)[..i];
      if SecondaryAllowed(candidates, Wishes(c)[i]) {
        wanted := wanted + [Wishes(c)[i]];
      }
      i := i + 1;
    }
    assert Wishes(c)[..i] == Wishes(c);
    var secondaries := PickSecondaries(Dedup(wanted), c, f);
    assert candidates[0] in candidates;
    return Some(Plan(candidates, secondaries));
  }

  method PickSecondaries(wanted: seq<Provider>, c: Setting, f: Subject) returns (s: seq<Provider>)
    ensures s == QualifyingSecondaries(wanted, c, f)
  {
    s := [];
    var i := 0;
    while i < |wanted|
      invariant i <= |wanted| && s == QualifyingSecondaries(wanted[..i], c, f)
    {
      assert wanted[..i + 1][..i] == wanted[..i];
      if SecondaryQualified(c, f, wanted[i]) {
        s := s + [wanted[i]];
      }
      i := i + 1;
    }
    assert wanted[..i] == wanted;
  }
}
