/** Deny roots of the file access policy: merging them, dropping nested ones, looking a path up. */
module DenyRoots {
  import opened Options
  import opened SeqFilter

  /** A resolved absolute path by its components. `a <= b` says that b lies in a or is a. */
  type Path = seq<string>

  predicate Denied(path: Path, roots: seq<Path>) { exists i :: 0 <= i < |roots| && roots[i] <= path }

  predicate Nested(root: Path, roots: seq<Path>) { exists i :: 0 <= i < |roots| && roots[i] != root && roots[i] <= root }

  function Merged(configured: seq<Path>, company: seq<Path>): seq<Path> { Dedup(configured + company) }

  function Reduced(roots: seq<Path>): seq<Path> { Filter(roots, (r: Path) => !Nested(r, roots)) }

  function FindDeniedRoot(path: Path, roots: seq<Path>): Option<Path> {
    if roots == [] then None
    else if roots[0] <= path then Some(roots[0])
    else FindDeniedRoot(path, roots[1..])
  }

  lemma ReducedMember(roots: seq<Path>, r: Path)
    ensures r in Reduced(roots) <==> r in roots && !Nested(r, roots)
  {
    FilterMember(roots, (r: Path) => !Nested(r, roots));
  }

  /** A lookup finds a root exactly if one contains the path; the root it finds is in the list and contains it. */
  lemma {:induction false} FindsIffDenied(path: Path, roots: seq<Path>)
    ensures FindDeniedRoot(path, roots).Some? <==> Denied(path, roots)
    ensures var f := FindDeniedRoot(path, roots); f.Some? ==> f.value in roots && f.value <= path
  {
    if roots != [] && !(roots[0] <= path) {
      FindsIffDenied(path, roots[1..]);
      if Denied(path, roots) {
        var i :| 0 <= i < |roots| && roots[i] <= path;
        assert roots[1..][i - 1] == roots[i];
      }
    }
  }

  // ---------------------------------------------------------------- dropping nested roots

  /** Every root lies in one that is kept. */
  lemma {:induction false} OutermostKept(roots: seq<Path>, root: Path) returns (outer: Path)
    requires root in roots
    ensures outer in Reduced(roots) && outer <= root
    decreases |root|
  {
    ReducedMember(roots, root);
    if Nested(root, roots) {
      var i :| 0 <= i < |roots| && roots[i] != root && roots[i] <= root;
      outer := OutermostKept(roots, roots[i]);
    } else {
      outer := root;
    }
  }

  /** Dropping nested roots denies the same paths. */
  lemma ReductionKeepsVerdict(roots: seq<Path>, path: Path)
    ensures Denied(path, Reduced(roots)) <==> Denied(path, roots)
  {
    if Denied(path, Reduced(roots)) {
      var i :| 0 <= i < |Reduced(roots)| && Reduced(roots)[i] <= path;
      ReducedMember(roots, Reduced(roots)[i]);
      var k :| 0 <= k < |roots| && roots[k] == Reduced(roots)[i];
    }
    if Denied(path, roots) {
      var i :| 0 <= i < |roots| && roots[i] <= path;
      var outer := OutermostKept(roots, roots[i]);
      var k :| 0 <= k < |Reduced(roots)| && Reduced(roots)[k] == outer;
      assert Reduced(roots)[k] <= path;
    }
  }

  predicate Antichain(roots: seq<Path>) { forall r, q :: r in roots && q in roots && r <= q ==> r == q }

  lemma ReducedIsAntichain(roots: seq<Path>)
    ensures Antichain(Reduced(roots))
  {
    forall r, q | r in Reduced(roots) && q in Reduced(roots) && r <= q ensures r == q {
      ReducedMember(roots, r);
      ReducedMember(roots, q);
    }
  }

  function Without(roots: seq<Path>, root: Path): seq<Path> { Filter(roots, (r: Path) => r != root) }

  /** No kept root can go: without it, the root's own path is no longer denied. */
  lemma EveryKeptRootNeeded(roots: seq<Path>, root: Path)
    requires root in Reduced(roots)
    ensures Denied(root, Reduced(roots)) && !Denied(root, Without(Reduced(roots), root))
  {
    ReducedIsAntichain(roots);
    FilterMember(Reduced(roots), (r: Path) => r != root);
    var rest := Without(Reduced(roots), root);
    forall i | 0 <= i < |rest| ensures !(rest[i] <= root) { assert rest[i] in rest; }
  }

  ghost predicate SameVerdicts(a: seq<Path>, b: seq<Path>) { forall p :: Denied(p, a) <==> Denied(p, b) }

  lemma AntichainWithin(a: seq<Path>, b: seq<Path>, r: Path)
    requires Antichain(a) && SameVerdicts(a, b) && r in a
    ensures r in b
  {
    assert Denied(r, a);
    var i :| 0 <= i < |b| && b[i] <= r;
    assert Denied(b[i], b);
    var k :| 0 <= k < |a| && a[k] <= b[i];
    assert a[k] in a && a[k] <= r;
    assert a[k] == r && b[i] == r;
  }

  /** There is only one list without nesting for a given policy: its roots are determined by what it denies. */
  lemma ReductionIsCanonical(roots: seq<Path>, other: seq<Path>, r: Path)
    requires Antichain(other) && SameVerdicts(other, roots)
    ensures r in other <==> r in Reduced(roots)
  {
    forall p ensures Denied(p, other) <==> Denied(p, Reduced(roots)) {
      assert Denied(p, other) <==> Denied(p, roots);
      ReductionKeepsVerdict(roots, p);
    }
    ReducedIsAntichain(roots);
    if r in other { AntichainWithin(other, Reduced(roots), r); }
    if r in Reduced(roots) { AntichainWithin(Reduced(roots), other, r); }
  }

  /** In the reduced list a path has at most one root: the outermost of all merged roots that contain it. */
  lemma FindsOutermost(roots: seq<Path>, path: Path, root: Path)
    requires root in roots && root <= path
    ensures var f := FindDeniedRoot(path, Reduced(roots)); f.Some? && f.value in roots && f.value <= root
  {
    var outer := OutermostKept(roots, root);
    var k :| 0 <= k < |Reduced(roots)| && Reduced(roots)[k] == outer;
    assert Reduced(roots)[k] <= path;
    FindsIffDenied(path, Reduced(roots));
    var f := FindDeniedRoot(path, Reduced(roots)).value;
    ReducedMember(roots, f);
    ReducedIsAntichain(roots);
    assert f <= outer || outer <= f;
  }

  /** The whole of resolve_effective_denied_roots: no path changes its verdict by merging and reducing. */
  lemma EffectiveVerdict(configured: seq<Path>, company: seq<Path>, path: Path)
    ensures FindDeniedRoot(path, Reduced(Merged(configured, company))).Some? <==>
            Denied(path, configured) || Denied(path, company)
  {
    var all, merged := configured + company, Merged(configured, company);
    DedupMember(all);
    FindsIffDenied(path, Reduced(merged));
    ReductionKeepsVerdict(merged, path);
    SameRoots(path, merged, all);
    if Denied(path, configured) {
      var i :| 0 <= i < |configured| && configured[i] <= path;
      assert all[i] == configured[i];
    }
    if Denied(path, company) {
      var i :| 0 <= i < |company| && company[i] <= path;
      assert all[|configured| + i] == company[i];
    }
    if Denied(path, all) {
      var i :| 0 <= i < |all| && all[i] <= path;
      assert all[i] == if i < |configured| then configured[i] else company[i - |configured|];
    }
  }

  lemma SameRoots(path: Path, a: seq<Path>, b: seq<Path>)
    requires forall r :: r in a <==> r in b
    ensures Denied(path, a) <==> Denied(path, b)
  {
    if Denied(path, a) {
      var i :| 0 <= i < |a| && a[i] <= path;
      assert a[i] in b;
    }
    if Denied(path, b) {
      var i :| 0 <= i < |b| && b[i] <= path;
      assert b[i] in a;
    }
  }

  // ---------------------------------------------------------------- where the roots come from

  /** A directory entry under the companies directory; None when it cannot be inspected or is no directory. */
  datatype Entry = Entry(name: string, root: Option<Path>)

  /** The roots of all other companies; an anima without a company is not restricted. */
  method CompanyDeniedRoots(company: Option<string>, entries: seq<Entry>) returns (denied: seq<Path>)
    ensures company.None? ==> denied == []
    ensures company.Some? ==> forall r :: r in denied <==>
      exists i :: 0 <= i < |entries| && entries[i].name != company.value && entries[i].root == Some(r)
  {
    denied := [];
    if company.None? { return; }
    for i := 0 to |entries|
      invariant forall r :: r in denied <==> exists k :: 0 <= k < i && entries[k].name != company.value && entries[k].root == Some(r)
    {
      if entries[i].name != company.value && entries[i].root.Some? {
        denied := denied + [entries[i].root.value];
      }
    }
  }

  predicate Misplaced(root: Path, dataDir: Path, shared: Option<Path>) {
    dataDir <= root && !(shared.Some? && shared.value <= root)
  }

  /** Writable roots: refused when one lies in the data directory outside the company's shared directory. */
  method EffectiveWriteRoots(dataDir: Path, shared: Option<Path>, fileRoots: seq<Path>, taskCwd: Option<Path>)
    returns (roots: Option<seq<Path>>)
    ensures roots.None? <==>
      exists i :: 0 <= i < |fileRoots| && dataDir <= fileRoots[i] && (shared.None? || !(shared.value <= fileRoots[i]))
    ensures roots.Some? ==> forall r :: r in roots.value <==> r in fileRoots || shared == Some(r) || taskCwd == Some(r)
    ensures roots.Some? ==> forall i, j :: 0 <= i < j < |roots.value| ==> roots.value[i] != roots.value[j]
  {
    var found := if shared.Some? then [shared.value] else [];
    for i := 0 to |fileRoots|
      invariant forall k :: 0 <= k < i ==> !Misplaced(fileRoots[k], dataDir, shared)
      invariant found == (if shared.Some? then [shared.value] else []) + fileRoots[..i]
    {
      if Misplaced(fileRoots[i], dataDir, shared) { return None; }
      found := found + [fileRoots[i]];
    }
    assert fileRoots[..|fileRoots|] == fileRoots;
    if taskCwd.Some? { found := found + [taskCwd.value]; }
    DedupMember(found);
    return Some(Dedup(found));
  }
}
