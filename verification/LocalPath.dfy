/** Resolving a key inside the local storage root, on POSIX paths. */
module LocalPath {
  import opened Wrappers
  import opened StorageKey

  predicate HasPrefix(s: string, p: string) {
    p <= s
  }

  // ---------------------------------------------------------------------------------
  // Absolute paths as their segments

  /** Walks the pieces of a path from a directory: empty pieces and dots stay, two dots go up. */
  function Walk(dir: seq<string>, parts: seq<string>): seq<string>
    decreases parts
  {
    if parts == [] then dir
    else
      var p := parts[0];
      var next := if p == "" || p == "." then dir
                  else if p == ".." then (if dir == [] then [] else dir[..|dir| - 1])
                  else dir + [p];
      Walk(next, parts[1..])
  }

  /** A segment that walking keeps. */
  predicate Name(p: string) {
    p != "" && p != "." && p != ".." && NoSlash(p)
  }

  predicate Names(dir: seq<string>) {
    forall p <- dir :: Name(p)
  }

  function Resolve(dir: seq<string>, path: string): seq<string> {
    Walk(if HasPrefix(path, "/") then [] else dir, Split(path))
  }

  function Text(dir: seq<string>): string {
    "/" + Join(dir)
  }

  function Common(a: seq<string>, b: seq<string>): (n: nat)
    ensures n <= |a| && n <= |b| && a[..n] == b[..n]
    ensures n < |a| && n < |b| ==> a[n] != b[n]
  {
    if a == [] || b == [] || a[0] != b[0] then 0
    else
      var n := 1 + Common(a[1..], b[1..]);
      assert a[..n] == [a[0]] + a[1..][..n - 1] && b[..n] == [b[0]] + b[1..][..n - 1];
      n
  }

  /** The path from `a` to `b`: up to the common directory, then down. */
  function Relative(a: seq<string>, b: seq<string>): string {
    var n := Common(a, b);
    Join(seq(|a| - n, _ => "..") + b[n..])
  }

  // ---------------------------------------------------------------------------------

  predicate HasNul(s: string) {
    exists i :: 0 <= i < |s| && s[i] == '\0'
  }

  predicate Letter(c: char) {
    'A' <= c <= 'Z' || 'a' <= c <= 'z'
  }

  /** Drive-qualified or absolute, in either slash. */
  predicate Qualified(s: string) {
    || (|s| >= 2 && Letter(s[0]) && s[1] == ':')
    || (|s| >= 1 && (s[0] == '/' || s[0] == '\\'))
  }

  /** Resolves `relative` inside `root`, or refuses it. `cwd` is the working directory. */
  function ResolveInside(cwd: seq<string>, root: string, relative: string): Option<string> {
    if HasNul(root) || HasNul(relative) || Qualified(relative) then None
    else
      var r := Resolve(cwd, root);
      var t := Resolve(r, Slashed(relative));
      var rel := Relative(r, t);
      if HasPrefix(rel, "..") || HasPrefix(rel, "/") then None
      else if Text(t) != Text(r) && !HasPrefix(Text(t), Text(r) + "/") then None
      else Some(Text(t))
  }

  // ---------------------------------------------------------------------------------

  lemma {:induction false} SplitNoSlash(s: string)
    ensures forall p <- Split(s) :: NoSlash(p)
  {
    if s != "" {
      SplitNoSlash(s[1..]);
      var r := Split(s[1..]);
      assert r[0] in r;
      forall p | p in Split(s) ensures NoSlash(p) {
        if s[0] != '/' && p !in r[1..] { assert p == [s[0]] + r[0]; }
      }
    }
  }

  lemma {:induction false} WalkNames(dir: seq<string>, parts: seq<string>)
    requires Names(dir) && forall p <- parts :: NoSlash(p)
    ensures Names(Walk(dir, parts))
    decreases parts
  {
    if parts != [] {
      var p := parts[0];
      assert p in parts;
      var next := if p == "" || p == "." then dir
                  else if p == ".." then (if dir == [] then [] else dir[..|dir| - 1])
                  else dir + [p];
      assert Names(next);
      WalkNames(next, parts[1..]);
    }
  }

  lemma ResolveNames(dir: seq<string>, path: string)
    requires Names(dir)
    ensures Names(Resolve(dir, path))
  {
    SplitNoSlash(path);
    WalkNames(if HasPrefix(path, "/") then [] else dir, Split(path));
  }

  lemma JoinPrefix(a: string, rest: seq<string>)
    ensures HasPrefix(Join([a] + rest), a)
    ensures Join([a] + rest) == if rest == [] then a else a + "/" + Join(rest)
  {
    assert ([a] + rest)[1..] == rest;
  }

  /** Joining a longer path. */
  lemma {:induction false} JoinMore(a: seq<string>, b: seq<string>)
    requires a != [] && b != []
    ensures Join(a + b) == Join(a) + "/" + Join(b)
  {
    if |a| == 1 {
      assert (a + b)[1..] == b;
    } else {
      JoinMore(a[1..], b);
      assert (a + b)[1..] == a[1..] + b;
    }
  }

  /** The texts of two paths are equal only where the paths are. */
  lemma TextInjective(a: seq<string>, b: seq<string>)
    requires Names(a) && Names(b) && Text(a) == Text(b)
    ensures a == b
  {
    assert Join(a) == Text(a)[1..] && Join(b) == Text(b)[1..];
    EmptyJoin(a);
    EmptyJoin(b);
    if a != [] && b != [] {
      SplitJoin(a);
      SplitJoin(b);
    }
  }

  lemma EmptyJoin(a: seq<string>)
    requires Names(a)
    ensures Join(a) == "" <==> a == []
  {
    if a != [] {
      assert a[0] in a;
      assert a == [a[0]] + a[1..];
      JoinPrefix(a[0], a[1..]);
    }
  }

  /** How the relative path starts. */
  lemma RelativeStarts(r: seq<string>, t: seq<string>)
    requires Names(t)
    ensures r <= t && |t| > |r| ==> (HasPrefix(Relative(r, t), "..") <==> HasPrefix(t[|r|], ".."))
    ensures r <= t && |t| > |r| ==> !HasPrefix(Relative(r, t), "/")
    ensures r == t ==> Relative(r, t) == ""
    ensures !(r <= t) ==> HasPrefix(Relative(r, t), "..")
  {
    var n := Common(r, t);
    var ups := seq(|r| - n, _ => "..");
    if r <= t {
      assert n == |r|;
      assert ups + t[n..] == t[n..];
      if |t| > n {
        assert t[n..] == [t[n]] + t[n + 1..];
        assert t[n] in t;
        FirstTwo(t[n], t[n + 1..]);
      } else {
        assert t[n..] == [];
      }
    } else {
      assert n < |r|;
      assert ups + t[n..] == [".."] + (ups[1..] + t[n..]);
      JoinPrefix("..", ups[1..] + t[n..]);
    }
  }

  lemma FirstTwo(p: string, rest: seq<string>)
    requires Name(p)
    ensures HasPrefix(Join([p] + rest), "..") <==> HasPrefix(p, "..")
    ensures !HasPrefix(Join([p] + rest), "/")
  {
    JoinPrefix(p, rest);
    var s := Join([p] + rest);
    if |p| == 1 && |s| >= 2 { assert s[1] == '/'; }
    assert s[0] == p[0];
  }

  /** Exactly what is accepted: a plain relative path whose target is the root, or lies below a root
      other than "/" in a directory or file whose name does not start with two dots. */
  predicate Acceptable(cwd: seq<string>, root: string, relative: string) {
    && !HasNul(root) && !HasNul(relative) && !Qualified(relative)
    && var r := Resolve(cwd, root);
       var t := Resolve(r, Slashed(relative));
       t == r || (r != [] && r < t && !HasPrefix(t[|r|], ".."))
  }

  lemma BelowRoot(r: seq<string>, t: seq<string>)
    requires Names(t) && r < t
    ensures HasPrefix(Text(t), Text(r) + "/") <==> r != []
    ensures r != [] ==> Text(t) == Text(r) + "/" + Join(t[|r|..])
    ensures Text(t) != Text(r)
  {
    assert t == r + t[|r|..];
    if r != [] {
      JoinMore(r, t[|r|..]);
    } else {
      assert t[0] in t && t == [t[0]] + t[1..];
      JoinPrefix(t[0], t[1..]);
      assert Text(t)[1] == t[0][0];
    }
    assert Names(r);
    if Text(t) == Text(r) { TextInjective(t, r); }
  }

  /** Soundness and completeness: a path is accepted exactly when it is acceptable, and what is
      returned is its target, which has the root as a prefix of its segments. */
  lemma ResolveInsideExactly(cwd: seq<string>, root: string, relative: string, r: seq<string>, t: seq<string>)
    requires Names(cwd) && r == Resolve(cwd, root) && t == Resolve(r, Slashed(relative))
    ensures ResolveInside(cwd, root, relative) == if Acceptable(cwd, root, relative) then Some(Text(t)) else None
    ensures Acceptable(cwd, root, relative) ==> r <= t && Names(t)
  {
    ResolveNames(cwd, root);
    ResolveNames(r, Slashed(relative));
    RelativeStarts(r, t);
    if r < t { BelowRoot(r, t); }
  }

  // ---------------------------------------------------------------------------------
  // Built keys

  lemma {:induction false} JoinChars(parts: seq<string>)
    requires forall p <- parts :: Plain(p)
    ensures forall i :: 0 <= i < |Join(parts)| ==> PlainChar(Join(parts)[i]) || Join(parts)[i] == '/'
    ensures parts != [] ==> Join(parts) != "" && AlphaNumeric(Join(parts)[0])
  {
    if parts != [] {
      assert parts[0] in parts;
      JoinChars(parts[1..]);
    }
  }

  lemma {:induction false} WalkDown(dir: seq<string>, parts: seq<string>)
    requires Names(parts)
    ensures Walk(dir, parts) == dir + parts
    decreases parts
  {
    if parts != [] {
      assert parts[0] in parts;
      WalkDown(dir + [parts[0]], parts[1..]);
      assert dir + [parts[0]] + parts[1..] == dir + parts;
    }
  }

  /** Plain segments are resolved below the root as they stand. */
  lemma PlainResolves(cwd: seq<string>, root: string, r: seq<string>, parts: seq<string>, key: string)
    requires Names(cwd) && !HasNul(root) && r == Resolve(cwd, root) && r != []
    requires parts != [] && (forall p <- parts :: Plain(p)) && key == Join(parts) && Split(key) == parts
    ensures ResolveInside(cwd, root, key) == Some(Text(r) + "/" + key)
  {
    JoinChars(parts);
    SlashedAlready(key);
    forall p | p in parts ensures Name(p) { }
    WalkDown(r, parts);
    assert parts[0] in parts;
    ResolveInsideExactly(cwd, root, key, r, r + parts);
    ResolveNames(cwd, root);
    BelowRoot(r, r + parts);
    assert (r + parts)[|r|..] == parts;
  }

  /** Every built key is accepted and lands at the root followed by the key. */
  lemma BuiltKeyResolves(cwd: seq<string>, root: string, r: seq<string>,
                         ctx: Context, o: Options, fileId: string, mime: string, year: nat, month: nat,
                         parts: seq<string>, key: string)
    requires Names(cwd) && !HasNul(root) && r == Resolve(cwd, root) && r != []
    requires year <= LAST_YEAR && 1 <= month <= 12
    requires Parts(ctx, o, fileId, mime, year, month) == Some(parts) && key == Join(parts)
    ensures ResolveInside(cwd, root, key) == Some(Text(r) + "/" + key)
  {
    KeySegments(ctx, o, fileId, mime, year, month, parts, key);
    PlainResolves(cwd, root, r, parts, key);
  }

  /** Below the root "/" nothing is accepted. */
  lemma NothingBelowSlash(cwd: seq<string>, relative: string)
    requires Names(cwd) && Resolve([], Slashed(relative)) != []
    ensures ResolveInside(cwd, "/", relative) == None
  {
    assert Split("/") == ["", ""];
    assert ["", ""][1..] == [""] && Walk([], [""]) == [];
    assert Resolve(cwd, "/") == [];
    ResolveInsideExactly(cwd, "/", relative, [], Resolve([], Slashed(relative)));
  }
}
