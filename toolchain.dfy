/**
 * The toolchain resolver: for every context, the compiler requirement
 * `Name` or `Name@constraint` is matched against the toolchain
 * configuration files and the registered toolchain installations, both
 * already parsed into (name, version, path) entries. Versions are
 * (major, minor, patch) triples ordered by Semantic Versioning 2.0.0
 * precedence (section 11, without pre-release parts); the meaning of a
 * constraint text is a parameter, `satisfies`.
 */
module Toolchain {
  import opened Wrappers

  // ---------------------------------------------------------------------------
  // Versions and entries
  // ---------------------------------------------------------------------------

  datatype Version = Version(major: nat, minor: nat, patch: nat)

  /** Version precedence: major, then minor, then patch. */
  predicate LessThan(a: Version, b: Version)
  {
    a.major < b.major ||
    (a.major == b.major && (a.minor < b.minor || (a.minor == b.minor && a.patch < b.patch)))
  }

  /** LessThan is a strict total order. */
  lemma LessThanTotalOrder(a: Version, b: Version, c: Version)
    ensures !LessThan(a, a)
    ensures LessThan(a, b) ==> !LessThan(b, a)
    ensures LessThan(a, b) && LessThan(b, c) ==> LessThan(a, c)
    ensures LessThan(a, b) || a == b || LessThan(b, a)
  {
  }

  /** A configuration file or a registered installation: toolchain name, version and path. */
  datatype Toolchain = Toolchain(name: string, version: Version, path: string)

  // ---------------------------------------------------------------------------
  // The compiler requirement (toolchain.go:86-93)
  // ---------------------------------------------------------------------------

  /** The index of the first '@' of `s`, or -1 when there is none. */
  function IndexOfAt(s: string): (r: int)
    ensures -1 <= r < |s|
    ensures r == -1 <==> '@' !in s
    ensures 0 <= r ==> s[r] == '@' && '@' !in s[..r]
  {
    if s == [] then -1
    else if s[0] == '@' then 0
    else
      var k := IndexOfAt(s[1..]);
      assert s == [s[0]] + s[1..];
      if k == -1 then -1
      else
        assert s[..k + 1] == [s[0]] + s[1..][..k];
        k + 1
  }

  /**
   * The toolchain name and the constraint text of a compiler requirement:
   * split at the first '@' when there is one; otherwise the whole string is
   * the name and there is no constraint.
   */
  function SplitCompiler(compiler: string): (r: (string, Option<string>))
    ensures '@' !in r.0
    ensures r.1.None? <==> '@' !in compiler
    ensures r.1.None? ==> r.0 == compiler
    ensures r.1.Some? ==> r.0 + "@" + r.1.value == compiler
  {
    var k := IndexOfAt(compiler);
    if k == -1 then (compiler, None)
    else
      assert compiler == compiler[..k] + "@" + compiler[k + 1..];
      (compiler[..k], Some(compiler[k + 1..]))
  }

  /** Splitting `name@constraint` gives back the name and the constraint, whatever the constraint holds. */
  lemma SplitJoin(name: string, constraint: string)
    requires '@' !in name
    ensures SplitCompiler(name + "@" + constraint) == (name, Some(constraint))
  {
    var s := name + "@" + constraint;
    var r := SplitCompiler(s);
    assert s[|name|] == '@' && s[..|name|] == name;
    assert s[|name| + 1..] == constraint;
  }

  /** Whether a version meets the requirement's constraint; no constraint accepts every version. */
  function Accepts(constraint: Option<string>, satisfies: (string, Version) -> bool, v: Version): bool
  {
    constraint.None? || satisfies(constraint.value, v)
  }

  // ---------------------------------------------------------------------------
  // What the selection means
  // ---------------------------------------------------------------------------

  /** Some configuration of the toolchain is a floor the version meets. */
  predicate FloorMet(configs: seq<Toolchain>, name: string, v: Version)
  {
    exists c :: c in configs && c.name == name && !LessThan(v, c.version)
  }

  /** A registered installation of the toolchain that meets a configuration floor and the constraint. */
  predicate IsCandidate(configs: seq<Toolchain>, name: string, constraint: Option<string>,
                        satisfies: (string, Version) -> bool, r: Toolchain)
  {
    r.name == name && FloorMet(configs, name, r.version) && Accepts(constraint, satisfies, r.version)
  }

  predicate HasCandidate(configs: seq<Toolchain>, registered: seq<Toolchain>, name: string, constraint: Option<string>,
                         satisfies: (string, Version) -> bool)
  {
    exists r :: r in registered && IsCandidate(configs, name, constraint, satisfies, r)
  }

  /** `c` is a configuration of the toolchain at or below `v`, and no such configuration is newer. */
  predicate NewestConfigAtMost(configs: seq<Toolchain>, name: string, v: Version, c: Toolchain)
  {
    c in configs && c.name == name && !LessThan(v, c.version) &&
    forall d :: d in configs && d.name == name && !LessThan(v, d.version) ==> !LessThan(c.version, d.version)
  }

  /**
   * The outcome of a successful selection: `v` is the version of a
   * candidate installation and no candidate is newer, and `path` is the
   * path of the newest configuration at or below `v`.
   */
  predicate Selected(configs: seq<Toolchain>, registered: seq<Toolchain>, name: string, constraint: Option<string>,
                     satisfies: (string, Version) -> bool, v: Version, path: string)
    ensures Selected(configs, registered, name, constraint, satisfies, v, path) ==>
      FloorMet(configs, name, v) && Accepts(constraint, satisfies, v) &&
      HasCandidate(configs, registered, name, constraint, satisfies)
    ensures Selected(configs, registered, name, constraint, satisfies, v, path) ==>
      exists c :: c in configs && c.name == name && c.path == path && !LessThan(v, c.version)
  {
    (exists r :: r in registered && IsCandidate(configs, name, constraint, satisfies, r) && r.version == v) &&
    (forall r :: r in registered && IsCandidate(configs, name, constraint, satisfies, r) ==> !LessThan(v, r.version)) &&
    (exists c :: c in configs && NewestConfigAtMost(configs, name, v, c) && c.path == path)
  }

  /** The selected version is determined by the inputs, whatever order the entries come in. */
  lemma SelectedVersionUnique(configs: seq<Toolchain>, registered: seq<Toolchain>, name: string,
                              constraint: Option<string>, satisfies: (string, Version) -> bool,
                              v1: Version, p1: string, v2: Version, p2: string)
    requires Selected(configs, registered, name, constraint, satisfies, v1, p1)
    requires Selected(configs, registered, name, constraint, satisfies, v2, p2)
    ensures v1 == v2
  {
    var r1 :| r1 in registered && IsCandidate(configs, name, constraint, satisfies, r1) && r1.version == v1;
    var r2 :| r2 in registered && IsCandidate(configs, name, constraint, satisfies, r2) && r2.version == v2;
    LessThanTotalOrder(v1, v2, v1);
  }

  /** An exact constraint picks the version it names, even when a newer installation is registered. */
  lemma ExactConstraintPicksIt(configs: seq<Toolchain>, registered: seq<Toolchain>, name: string, exact: string,
                               satisfies: (string, Version) -> bool, x: Version, v: Version, path: string)
    requires forall w :: satisfies(exact, w) <==> w == x
    requires Selected(configs, registered, name, Some(exact), satisfies, v, path)
    ensures v == x
  {
    var r :| r in registered && IsCandidate(configs, name, Some(exact), satisfies, r) && r.version == v;
    assert satisfies(exact, r.version);
  }

  /**
   * A lower-bound constraint picks a version at or above the bound, and no
   * registered installation above the bound that meets a floor is newer.
   */
  lemma AtLeastConstraintPicksNewest(configs: seq<Toolchain>, registered: seq<Toolchain>, name: string, atLeast: string,
                                     satisfies: (string, Version) -> bool, x: Version, r: Toolchain,
                                     v: Version, path: string)
    requires forall w :: satisfies(atLeast, w) <==> !LessThan(w, x)
    requires Selected(configs, registered, name, Some(atLeast), satisfies, v, path)
    requires r in registered && r.name == name && FloorMet(configs, name, r.version) && !LessThan(r.version, x)
    ensures !LessThan(v, x)
    ensures !LessThan(v, r.version)
  {
    var s :| s in registered && IsCandidate(configs, name, Some(atLeast), satisfies, s) && s.version == v;
    assert satisfies(atLeast, s.version);
    assert satisfies(atLeast, r.version);
    assert IsCandidate(configs, name, Some(atLeast), satisfies, r);
  }

  /** Without a constraint, a registered installation at or above every configuration floor is never passed over. */
  lemma UnconstrainedNotOlder(configs: seq<Toolchain>, registered: seq<Toolchain>, name: string,
                              satisfies: (string, Version) -> bool, r: Toolchain, v: Version, path: string)
    requires r in registered && r.name == name && FloorMet(configs, name, r.version)
    requires Selected(configs, registered, name, None, satisfies, v, path)
    ensures !LessThan(v, r.version)
  {
    assert IsCandidate(configs, name, None, satisfies, r);
  }

  /** The selected configuration is a floor of the selected version. */
  lemma SelectedConfigIsFloor(configs: seq<Toolchain>, registered: seq<Toolchain>, name: string,
                              constraint: Option<string>, satisfies: (string, Version) -> bool, v: Version, path: string)
    requires Selected(configs, registered, name, constraint, satisfies, v, path)
    ensures exists c :: c in configs && c.name == name && c.path == path && !LessThan(v, c.version)
  {
    var c :| NewestConfigAtMost(configs, name, v, c) && c.path == path;
  }

  // ---------------------------------------------------------------------------
  // Filtering and sorting (toolchain.go:105-122)
  // ---------------------------------------------------------------------------

  /** The entries of one toolchain, in input order. */
  function Named(entries: seq<Toolchain>, name: string): seq<Toolchain>
  {
    if entries == [] then []
    else
      var r := Named(entries[..|entries| - 1], name);
      if entries[|entries| - 1].name == name then r + [entries[|entries| - 1]] else r
  }

  /** Exactly the entries of the toolchain are kept. */
  lemma {:induction false} NamedMembers(entries: seq<Toolchain>, name: string)
    ensures forall x :: x in Named(entries, name) <==> x in entries && x.name == name
  {
    if entries != [] {
      var init := entries[..|entries| - 1];
      NamedMembers(init, name);
      assert entries == init + [entries[|entries| - 1]];
    }
  }

  /** The filter loop over the entry map. */
  method FilterNamed(entries: seq<Toolchain>, name: string) returns (list: seq<Toolchain>)
    ensures list == Named(entries, name)
  {
    list := [];
    for i := 0 to |entries|
      invariant list == Named(entries[..i], name)
    {
      assert entries[..i + 1][..i] == entries[..i];
      if entries[i].name == name {
        list := list + [entries[i]];
      }
    }
    assert entries[..|entries|] == entries;
  }

  /** Newest first: no entry is older than one after it. */
  predicate Descending(s: seq<Toolchain>)
  {
    forall p, q :: 0 <= p < q < |s| ==> !LessThan(s[p].version, s[q].version)
  }

  /** sort.Sort(sort.Reverse(...)): the entries in place, newest first. */
  method SortDescending(a: array<Toolchain>)
    modifies a
    ensures Descending(a[..])
    ensures multiset(a[..]) == multiset(old(a[..]))
  {
    for i := 0 to a.Length
      invariant Descending(a[..i])
      invariant multiset(a[..]) == multiset(old(a[..]))
    {
      InsertDescending(a, i);
    }
  }

  /** Sinks a[i] into the sorted prefix a[..i], swapping it past every older entry. */
  method InsertDescending(a: array<Toolchain>, i: nat)
    requires i < a.Length && Descending(a[..i])
    modifies a
    ensures Descending(a[..i + 1])
    ensures multiset(a[..]) == multiset(old(a[..]))
  {
    var j := i;
    while 0 < j && LessThan(a[j - 1].version, a[j].version)
      invariant 0 <= j <= i
      invariant multiset(a[..]) == multiset(old(a[..]))
      invariant SortedExcept(a[..], i, j) && OlderAfter(a[..], i, j)
    {
      ghost var s := a[..];
      SwapStep(s, i, j);
      a[j - 1], a[j] := a[j], a[j - 1];
      assert a[..] == s[j - 1 := s[j]][j := s[j - 1]];
      j := j - 1;
    }
    InsertDone(a[..], i, j);
  }

  /** a[..i + 1] is newest first once the entry at j is left out. */
  predicate SortedExcept(s: seq<Toolchain>, i: nat, j: nat)
    requires i < |s|
  {
    forall p, q :: 0 <= p < q <= i && p != j && q != j ==> !LessThan(s[p].version, s[q].version)
  }

  /** The entries between j and i are all older than the entry at j. */
  predicate OlderAfter(s: seq<Toolchain>, i: nat, j: nat)
    requires j <= i < |s|
  {
    forall q :: j < q <= i ==> LessThan(s[q].version, s[j].version)
  }

  /** Swapping the entry at j with an older one before it keeps the insertion invariant. */
  lemma SwapStep(s: seq<Toolchain>, i: nat, j: nat)
    requires 0 < j <= i < |s|
    requires SortedExcept(s, i, j) && OlderAfter(s, i, j) && LessThan(s[j - 1].version, s[j].version)
    ensures var t := s[j - 1 := s[j]][j := s[j - 1]];
      SortedExcept(t, i, j - 1) && OlderAfter(t, i, j - 1) && multiset(t) == multiset(s)
  {
  }

  /** Once the entry at j is not newer than the one before it, the prefix is sorted. */
  lemma InsertDone(s: seq<Toolchain>, i: nat, j: nat)
    requires j <= i < |s|
    requires SortedExcept(s, i, j) && OlderAfter(s, i, j)
    requires j == 0 || !LessThan(s[j - 1].version, s[j].version)
    ensures Descending(s[..i + 1])
  {
    forall p, q | 0 <= p < q <= i ensures !LessThan(s[p].version, s[q].version) {
      if q == j && p < j - 1 {
        LessThanTotalOrder(s[p].version, s[j - 1].version, s[j].version);
      }
    }
  }

  // ---------------------------------------------------------------------------
  // The scan (toolchain.go:124-150)
  // ---------------------------------------------------------------------------

  /** The version meets the floor of some entry of `cfgs`. */
  predicate FloorIn(cfgs: seq<Toolchain>, v: Version)
  {
    exists q :: 0 <= q < |cfgs| && !LessThan(v, cfgs[q].version)
  }

  /**
   * The inner loop: the first configuration, newest first, that the
   * registered version is not less than; -1 when it is below all of them.
   */
  method FirstFloor(cfgs: array<Toolchain>, v: Version) returns (j: int)
    ensures -1 <= j < cfgs.Length
    ensures j == -1 <==> !FloorIn(cfgs[..], v)
    ensures 0 <= j ==> !LessThan(v, cfgs[j].version) && forall q :: 0 <= q < j ==> LessThan(v, cfgs[q].version)
  {
    j := 0;
    while j < cfgs.Length
      invariant 0 <= j <= cfgs.Length
      invariant forall q :: 0 <= q < j ==> LessThan(v, cfgs[q].version)
    {
      if !LessThan(v, cfgs[j].version) {
        return;
      }
      j := j + 1;
    }
    j := -1;
  }

  /**
   * The outer loop: registered versions newest first; the first one that
   * meets a configuration floor and the constraint is taken, with the
   * newest configuration it meets.
   */
  method LatestCompatible(regs: array<Toolchain>, cfgs: array<Toolchain>, constraint: Option<string>,
                          satisfies: (string, Version) -> bool)
    returns (compatible: bool, version: Version, path: string, ghost at: int, ghost cfgAt: int)
    ensures compatible ==> 0 <= at < regs.Length && 0 <= cfgAt < cfgs.Length
    ensures compatible ==>
      version == regs[at].version && FloorIn(cfgs[..], version) && Accepts(constraint, satisfies, version) &&
      forall p :: 0 <= p < at ==> !(FloorIn(cfgs[..], regs[p].version) && Accepts(constraint, satisfies, regs[p].version))
    ensures compatible ==>
      path == cfgs[cfgAt].path && !LessThan(version, cfgs[cfgAt].version) &&
      forall q :: 0 <= q < cfgAt ==> LessThan(version, cfgs[q].version)
    ensures !compatible ==>
      forall p :: 0 <= p < regs.Length ==> !(FloorIn(cfgs[..], regs[p].version) && Accepts(constraint, satisfies, regs[p].version))
  {
    compatible := false;
    version, path := Version(0, 0, 0), "";
    at, cfgAt := -1, -1;
    for i := 0 to regs.Length
      invariant !compatible
      invariant forall p :: 0 <= p < i ==> !(FloorIn(cfgs[..], regs[p].version) && Accepts(constraint, satisfies, regs[p].version))
    {
      var registered := regs[i];
      var j := FirstFloor(cfgs, registered.version);
      if 0 <= j {
        version, path := registered.version, cfgs[j].path;
        compatible := true;
        at, cfgAt := i, j;
      }
      if compatible && !Accepts(constraint, satisfies, registered.version) {
        compatible := false;
      }
      if compatible {
        return;
      }
    }
  }

  /** The candidates of the scan are the candidates of the selection, once the entries are filtered and sorted. */
  lemma CandidatesAgree(configs: seq<Toolchain>, name: string, cfgs: seq<Toolchain>, v: Version)
    requires multiset(cfgs) == multiset(Named(configs, name))
    ensures FloorIn(cfgs, v) <==> FloorMet(configs, name, v)
  {
    NamedMembers(configs, name);
    if FloorIn(cfgs, v) {
      var q :| 0 <= q < |cfgs| && !LessThan(v, cfgs[q].version);
      assert cfgs[q] in multiset(cfgs);
    }
    if FloorMet(configs, name, v) {
      var c :| c in configs && c.name == name && !LessThan(v, c.version);
      assert c in multiset(Named(configs, name));
      var q :| 0 <= q < |cfgs| && cfgs[q] == c;
    }
  }

  /** What the scan finds over the sorted lists is the selection over the entries. */
  lemma ScanSelects(configs: seq<Toolchain>, registered: seq<Toolchain>, name: string, constraint: Option<string>,
                    satisfies: (string, Version) -> bool, regs: seq<Toolchain>, cfgs: seq<Toolchain>, at: nat, cfgAt: nat)
    requires multiset(regs) == multiset(Named(registered, name)) && Descending(regs)
    requires multiset(cfgs) == multiset(Named(configs, name)) && Descending(cfgs)
    requires at < |regs| && cfgAt < |cfgs|
    requires FloorIn(cfgs, regs[at].version) && Accepts(constraint, satisfies, regs[at].version)
    requires forall p :: 0 <= p < at ==> !(FloorIn(cfgs, regs[p].version) && Accepts(constraint, satisfies, regs[p].version))
    requires !LessThan(regs[at].version, cfgs[cfgAt].version)
    requires forall q :: 0 <= q < cfgAt ==> LessThan(regs[at].version, cfgs[q].version)
    ensures Selected(configs, registered, name, constraint, satisfies, regs[at].version, cfgs[cfgAt].path)
  {
    var v := regs[at].version;
    NamedMembers(registered, name);
    NamedMembers(configs, name);
    var r := regs[at];
    assert r in multiset(Named(registered, name));
    CandidatesAgree(configs, name, cfgs, v);
    assert r in registered && IsCandidate(configs, name, constraint, satisfies, r);
    forall r' | r' in registered && IsCandidate(configs, name, constraint, satisfies, r')
      ensures !LessThan(v, r'.version)
    {
      assert r' in multiset(regs);
      var p :| 0 <= p < |regs| && regs[p] == r';
      CandidatesAgree(configs, name, cfgs, r'.version);
      if p < at {
        assert false;
      }
    }
    var c := cfgs[cfgAt];
    assert c in multiset(Named(configs, name));
    forall d | d in configs && d.name == name && !LessThan(v, d.version)
      ensures !LessThan(c.version, d.version)
    {
      assert d in multiset(cfgs);
      var q :| 0 <= q < |cfgs| && cfgs[q] == d;
      if q < cfgAt {
        assert false;
      }
    }
    assert NewestConfigAtMost(configs, name, v, c);
  }

  /** A scan that finds nothing means that no installation is a candidate. */
  lemma ScanFindsNone(configs: seq<Toolchain>, registered: seq<Toolchain>, name: string, constraint: Option<string>,
                      satisfies: (string, Version) -> bool, regs: seq<Toolchain>, cfgs: seq<Toolchain>)
    requires multiset(regs) == multiset(Named(registered, name))
    requires multiset(cfgs) == multiset(Named(configs, name))
    requires forall p :: 0 <= p < |regs| ==> !(FloorIn(cfgs, regs[p].version) && Accepts(constraint, satisfies, regs[p].version))
    ensures !HasCandidate(configs, registered, name, constraint, satisfies)
  {
    NamedMembers(registered, name);
    forall r | r in registered && IsCandidate(configs, name, constraint, satisfies, r)
      ensures false
    {
      assert r in multiset(regs);
      var p :| 0 <= p < |regs| && regs[p] == r;
      CandidatesAgree(configs, name, cfgs, r.version);
    }
  }

  // ---------------------------------------------------------------------------
  // One context, and every context (toolchain.go:55-157)
  // ---------------------------------------------------------------------------

  function NoConfigIn(root: string): string { "no toolchain configuration file was found in " + root }
  function NoConfigFor(name: string): string { "no toolchain configuration file was found for " + name }
  function NoCompatible(name: string): string { "no compatible registered toolchain was found for " + name }

  /** Some configuration of the toolchain exists. */
  predicate HasConfig(configs: seq<Toolchain>, name: string)
  {
    exists c :: c in configs && c.name == name
  }

  /**
   * The error a context's requirement runs into, if any: no configuration
   * of the toolchain, or no registered installation that meets a
   * configuration floor and the constraint.
   */
  function ContextError(configs: seq<Toolchain>, registered: seq<Toolchain>, compiler: string,
                        satisfies: (string, Version) -> bool): (r: Option<string>)
    ensures r.None? <==>
      (HasConfig(configs, SplitCompiler(compiler).0) &&
       HasCandidate(configs, registered, SplitCompiler(compiler).0, SplitCompiler(compiler).1, satisfies))
    ensures r == Some(NoConfigFor(SplitCompiler(compiler).0)) <==> !HasConfig(configs, SplitCompiler(compiler).0)
    ensures r == Some(NoCompatible(SplitCompiler(compiler).0)) <==>
      (HasConfig(configs, SplitCompiler(compiler).0) &&
       !HasCandidate(configs, registered, SplitCompiler(compiler).0, SplitCompiler(compiler).1, satisfies))
  {
    var (name, constraint) := SplitCompiler(compiler);
    if !HasConfig(configs, name) then Some(NoConfigFor(name))
    else if !HasCandidate(configs, registered, name, constraint, satisfies) then Some(NoCompatible(name))
    else None
  }

  /** A context is resolved to a version and a configuration path that are its selection. */
  predicate ResolvedAs(configs: seq<Toolchain>, registered: seq<Toolchain>, compiler: string,
                       satisfies: (string, Version) -> bool, v: Version, path: string)
  {
    var (name, constraint) := SplitCompiler(compiler);
    Selected(configs, registered, name, constraint, satisfies, v, path)
  }

  /** The entries of one toolchain, sorted newest first in a fresh array. */
  method SortedNamed(entries: seq<Toolchain>, name: string) returns (a: array<Toolchain>)
    ensures fresh(a)
    ensures Descending(a[..]) && multiset(a[..]) == multiset(Named(entries, name))
  {
    var list := FilterNamed(entries, name);
    a := new Toolchain[|list|](k requires 0 <= k < |list| => list[k]);
    assert a[..] == list;
    SortDescending(a);
  }

  lemma NoneNamed(entries: seq<Toolchain>, name: string, sorted: seq<Toolchain>)
    requires multiset(sorted) == multiset(Named(entries, name)) && |sorted| == 0
    ensures !HasConfig(entries, name)
  {
    NamedMembers(entries, name);
    assert |multiset(Named(entries, name))| == 0;
  }

  lemma SomeNamed(entries: seq<Toolchain>, name: string, sorted: seq<Toolchain>)
    requires multiset(sorted) == multiset(Named(entries, name)) && |sorted| > 0
    ensures HasConfig(entries, name)
  {
    NamedMembers(entries, name);
    assert sorted[0] in multiset(Named(entries, name));
  }

  /** The selection for one context: name filter, sort, scan. */
  method ResolveContext(configs: seq<Toolchain>, registered: seq<Toolchain>, compiler: string,
                        satisfies: (string, Version) -> bool) returns (r: Result<(Version, string), string>)
    ensures r.Err? <==> ContextError(configs, registered, compiler, satisfies).Some?
    ensures r.Err? ==> r.error == ContextError(configs, registered, compiler, satisfies).value
    ensures r.Ok? ==> ResolvedAs(configs, registered, compiler, satisfies, r.value.0, r.value.1)
  {
    var (name, constraint) := SplitCompiler(compiler);
    var cfgs := SortedNamed(configs, name);
    if cfgs.Length == 0 {
      NoneNamed(configs, name, cfgs[..]);
      return Err(NoConfigFor(name));
    }
    SomeNamed(configs, name, cfgs[..]);
    var regs := SortedNamed(registered, name);
    var compatible, version, path, at, cfgAt := LatestCompatible(regs, cfgs, constraint, satisfies);
    if !compatible {
      ScanFindsNone(configs, registered, name, constraint, satisfies, regs[..], cfgs[..]);
      return Err(NoCompatible(name));
    }
    ScanSelects(configs, registered, name, constraint, satisfies, regs[..], cfgs[..], at, cfgAt);
    r := Ok((version, path));
  }

  /**
   * The state ProcessToolchain works on: the parsed configuration and
   * registered entries, the contexts' compiler requirements, and the
   * per-context selections.
   */
  class Maker {
    const compilerRoot: string
    const compilers: seq<string>
    var toolchainConfigs: seq<Toolchain>
    var registeredToolchains: seq<Toolchain>
    var selectedVersion: array<Option<Version>>
    var selectedConfig: array<string>

    constructor (compilerRoot: string, compilers: seq<string>)
      ensures this.compilerRoot == compilerRoot && this.compilers == compilers
      ensures toolchainConfigs == [] && registeredToolchains == []
      ensures selectedVersion.Length == 0 && selectedConfig.Length == 0
    {
      this.compilerRoot := compilerRoot;
      this.compilers := compilers;
      toolchainConfigs := [];
      registeredToolchains := [];
      selectedVersion := new Option<Version>[0];
      selectedConfig := new string[0];
    }

    /**
     * ProcessToolchain after the directory and environment scans: fails when
     * there is no configuration at all; otherwise resolves the contexts in
     * order, each writing only its own slot, and stops at the first context
     * whose requirement cannot be met, with that context's error.
     */
    method ProcessToolchain(configs: seq<Toolchain>, registered: seq<Toolchain>, satisfies: (string, Version) -> bool)
      returns (err: Option<string>)
      modifies this
      ensures toolchainConfigs == configs
      ensures configs == [] ==>
        err == Some(NoConfigIn(compilerRoot)) && registeredToolchains == old(registeredToolchains) &&
        selectedVersion == old(selectedVersion) && selectedConfig == old(selectedConfig)
      ensures configs != [] ==>
        registeredToolchains == registered && fresh(selectedVersion) && fresh(selectedConfig) &&
        Outcome(configs, registered, compilers, satisfies, selectedVersion[..], selectedConfig[..], err)
    {
      toolchainConfigs := configs;
      if |configs| == 0 {
        return Some(NoConfigIn(compilerRoot));
      }
      registeredToolchains := registered;
      var versions := new Option<Version>[|compilers|](_ => None);
      var paths := new string[|compilers|](_ => "");
      err := ResolveAll(configs, registered, compilers, satisfies, versions, paths);
      selectedVersion, selectedConfig := versions, paths;
    }
  }

  /** The first n contexts hold the selections for their requirements. */
  predicate AllResolved(configs: seq<Toolchain>, registered: seq<Toolchain>, compilers: seq<string>,
                        satisfies: (string, Version) -> bool, versions: seq<Option<Version>>, paths: seq<string>, n: nat)
    requires n <= |compilers| && n <= |versions| && n <= |paths|
  {
    forall i :: 0 <= i < n ==>
      versions[i].Some? && ResolvedAs(configs, registered, compilers[i], satisfies, versions[i].value, paths[i])
  }

  /** Filling slot n with its selection extends the resolved prefix. */
  lemma AllResolvedStep(configs: seq<Toolchain>, registered: seq<Toolchain>, compilers: seq<string>,
                        satisfies: (string, Version) -> bool, versions: seq<Option<Version>>, paths: seq<string>, n: nat,
                        v: Version, path: string)
    requires n < |compilers| && n < |versions| && n < |paths|
    requires AllResolved(configs, registered, compilers, satisfies, versions, paths, n)
    requires ResolvedAs(configs, registered, compilers[n], satisfies, v, path)
    ensures AllResolved(configs, registered, compilers, satisfies, versions[n := Some(v)], paths[n := path], n + 1)
  {
    var vs, ps := versions[n := Some(v)], paths[n := path];
    forall i | 0 <= i < n + 1
      ensures vs[i].Some? && ResolvedAs(configs, registered, compilers[i], satisfies, vs[i].value, ps[i])
    {
      if i < n {
        assert vs[i] == versions[i] && ps[i] == paths[i];
      }
    }
  }

  /** The slots from n on are still empty. */
  predicate EmptyFrom(versions: seq<Option<Version>>, paths: seq<string>, n: nat)
    requires |versions| == |paths|
  {
    forall i :: n <= i < |versions| ==> versions[i] == None && paths[i] == ""
  }

  /**
   * Without an error every context is resolved; with one, it is the error
   * of some context k, the contexts before k are resolved and the slots
   * from k on are still empty.
   */
  predicate Outcome(configs: seq<Toolchain>, registered: seq<Toolchain>, compilers: seq<string>,
                    satisfies: (string, Version) -> bool, versions: seq<Option<Version>>, paths: seq<string>,
                    err: Option<string>)
  {
    |versions| == |compilers| && |paths| == |compilers| &&
    (err.None? ==>
      (forall i :: 0 <= i < |compilers| ==> ContextError(configs, registered, compilers[i], satisfies).None?) &&
      AllResolved(configs, registered, compilers, satisfies, versions, paths, |compilers|)) &&
    (err.Some? ==>
      exists k :: 0 <= k < |compilers| && err == ContextError(configs, registered, compilers[k], satisfies) &&
        AllResolved(configs, registered, compilers, satisfies, versions, paths, k) && EmptyFrom(versions, paths, k))
  }

  /** The per-context loop over empty slots. */
  method ResolveAll(configs: seq<Toolchain>, registered: seq<Toolchain>, compilers: seq<string>,
                    satisfies: (string, Version) -> bool, versions: array<Option<Version>>, paths: array<string>)
    returns (err: Option<string>)
    requires versions.Length == |compilers| && paths.Length == |compilers|
    requires EmptyFrom(versions[..], paths[..], 0)
    modifies versions, paths
    ensures Outcome(configs, registered, compilers, satisfies, versions[..], paths[..], err)
  {
    for index := 0 to |compilers|
      invariant forall i :: 0 <= i < index ==> ContextError(configs, registered, compilers[i], satisfies).None?
      invariant AllResolved(configs, registered, compilers, satisfies, versions[..], paths[..], index)
      invariant EmptyFrom(versions[..], paths[..], index)
    {
      var r := ResolveContext(configs, registered, compilers[index], satisfies);
      if r.Err? {
        return Some(r.error);
      }
      AllResolvedStep(configs, registered, compilers, satisfies, versions[..], paths[..], index, r.value.0, r.value.1);
      versions[index] := Some(r.value.0);
      paths[index] := r.value.1;
    }
    err := None;
  }
}
