/** normalizeRoots of access/files/path.go: configured root text to the roots that Resolve compares with. */
module RootConfig {
  import opened Prelude
  import opened PathNames
  import opened PathResolver
  import opened RootedPaths

  datatype RootResult = Blank | HomeUnknown | Root(path: Path)

  /** The resolver a root text is read with: the user's home, and the working directory for relative text. */
  function RootReader(cwd: Path): Resolver {
    Resolver([], Some(cwd), "", c => c)
  }

  /** One configured root; one that cannot be resolved is kept as it is written. */
  function NormalizedRoot(tree: Tree, userHome: Option<string>, cwd: Path, root: string): RootResult {
    if TrimSpace(root) == "" then Blank
    else
      var clean := Requested(RootReader(cwd), userHome, root);
      if clean.None? then HomeUnknown
      else
        var resolved := Resolved(tree, clean.value, 0);
        Root(if resolved.Some? then resolved.value else clean.value)
  }

  /** The paths in order, blanks dropped; an unknown home directory is an error. */
  function Collected(results: seq<RootResult>): Option<seq<Path>> {
    if results == [] then Some([])
    else
      var front, last := Collected(results[..|results| - 1]), results[|results| - 1];
      if front.None? || last.HomeUnknown? then None
      else if last.Blank? then front
      else Some(front.value + [last.path])
  }

  function Results(tree: Tree, userHome: Option<string>, cwd: Path, roots: seq<string>): seq<RootResult> {
    seq(|roots|, i requires 0 <= i < |roots| => NormalizedRoot(tree, userHome, cwd, roots[i]))
  }

  function NormalizedRoots(tree: Tree, userHome: Option<string>, cwd: Path, roots: seq<string>): Option<seq<Path>> {
    Collected(Results(tree, userHome, cwd, roots))
  }

  method NormalizeRoot(tree: Tree, userHome: Option<string>, cwd: Path, root: string) returns (result: RootResult)
    ensures result == NormalizedRoot(tree, userHome, cwd, root)
  {
    var text := TrimSpace(root);
    if text == "" {
      return Blank;
    }
    var clean := Requested(RootReader(cwd), userHome, root);
    if clean.None? {
      return HomeUnknown;
    }
    var resolved := ResolvePath(tree, clean.value, 0);
    return Root(if resolved.Some? then resolved.value else clean.value);
  }

  method NormalizeRoots(tree: Tree, userHome: Option<string>, cwd: Path, roots: seq<string>)
    returns (result: Option<seq<Path>>)
    ensures result == NormalizedRoots(tree, userHome, cwd, roots)
  {
    var out: seq<Path> := [];
    ghost var results := Results(tree, userHome, cwd, roots);
    for k := 0 to |roots|
      invariant Collected(results[..k]) == Some(out)
    {
      var root := NormalizeRoot(tree, userHome, cwd, roots[k]);
      CollectedNext(results, k, out);
      if root.HomeUnknown? {
        FailsIffOne(results);
        return None;
      }
      if root.Root? {
        out := out + [root.path];
      }
    }
    assert results[..|roots|] == results;
    return Some(out);
  }

  lemma CollectedNext(results: seq<RootResult>, k: nat, out: seq<Path>)
    requires k < |results| && Collected(results[..k]) == Some(out)
    ensures Collected(results[..k + 1]) ==
              match results[k] case Blank => Some(out) case HomeUnknown => None case Root(path) => Some(out + [path])
  {
    assert results[..k + 1][..k] == results[..k];
  }

  /** The roots that come out are those of the texts that are not blank. */
  lemma {:induction false} RootsAreThose(results: seq<RootResult>, root: Path)
    requires Collected(results).Some?
    ensures root in Collected(results).value <==> Root(root) in results
  {
    if results != [] {
      RootsAreThose(results[..|results| - 1], root);
      assert results == results[..|results| - 1] + [results[|results| - 1]];
    }
  }

  lemma {:induction false} FailsIffOne(results: seq<RootResult>)
    ensures Collected(results).None? <==> HomeUnknown in results
  {
    if results != [] {
      FailsIffOne(results[..|results| - 1]);
      assert results == results[..|results| - 1] + [results[|results| - 1]];
    }
  }

  lemma RootsAreCanonical(tree: Tree, userHome: Option<string>, cwd: Path, roots: seq<string>)
    requires WellFormed(tree) && Canonical(cwd) && NormalizedRoots(tree, userHome, cwd, roots).Some?
    ensures forall root :: root in NormalizedRoots(tree, userHome, cwd, roots).value ==> Canonical(root)
  {
    var results := Results(tree, userHome, cwd, roots);
    forall root | root in Collected(results).value ensures Canonical(root) {
      RootsAreThose(results, root);
      var i :| 0 <= i < |roots| && results[i] == Root(root);
      RootIsCanonical(tree, userHome, cwd, roots[i]);
    }
  }

  lemma RootIsCanonical(tree: Tree, userHome: Option<string>, cwd: Path, text: string)
    requires WellFormed(tree) && Canonical(cwd) && NormalizedRoot(tree, userHome, cwd, text).Root?
    ensures Canonical(NormalizedRoot(tree, userHome, cwd, text).path)
  {
    var clean := Requested(RootReader(cwd), userHome, text).value;
    RequestedIsCanonical(RootReader(cwd), userHome, text);
    if Resolved(tree, clean, 0).Some? { ResolvedIsSettled(tree, clean, 0); }
  }

  /** Reading the root text leads to `root`: where it resolves to, or else the path that it asks for. */
  predicate MeansRoot(tree: Tree, userHome: Option<string>, cwd: Path, text: string, root: Path) {
    var clean := Requested(RootReader(cwd), userHome, text);
    && clean.Some?
    && var resolved := Resolved(tree, clean.value, 0); root == if resolved.Some? then resolved.value else clean.value
  }

  lemma RootMeans(tree: Tree, userHome: Option<string>, cwd: Path, text: string, root: Path)
    ensures NormalizedRoot(tree, userHome, cwd, text) == Root(root) <==> MeansRoot(tree, userHome, cwd, text, root)
  {
  }

  /** Some configured text means a root that holds `q`, component by component. */
  ghost predicate Covered(tree: Tree, userHome: Option<string>, cwd: Path, roots: seq<string>, fold: char -> char,
                          q: Path) {
    exists i, root: Path :: 0 <= i < |roots| && MeansRoot(tree, userHome, cwd, roots[i], root)
      && FoldPath(root, fold) <= FoldPath(q, fold)
  }

  lemma CoveredIsUnder(tree: Tree, userHome: Option<string>, cwd: Path, roots: seq<string>, r: Resolver, q: Path)
    requires NormalizedRoots(tree, userHome, cwd, roots) == Some(r.roots)
    ensures UnderARoot(r, q) <==> Covered(tree, userHome, cwd, roots, r.fold, q)
  {
    var results := Results(tree, userHome, cwd, roots);
    if UnderARoot(r, q) {
      var k :| 0 <= k < |r.roots| && FoldPath(r.roots[k], r.fold) <= FoldPath(q, r.fold);
      RootsAreThose(results, r.roots[k]);
      var i :| 0 <= i < |roots| && results[i] == Root(r.roots[k]);
      RootMeans(tree, userHome, cwd, roots[i], r.roots[k]);
    }
    if Covered(tree, userHome, cwd, roots, r.fold, q) {
      var i, root: Path :| 0 <= i < |roots| && MeansRoot(tree, userHome, cwd, roots[i], root)
        && FoldPath(root, r.fold) <= FoldPath(q, r.fold);
      RootMeans(tree, userHome, cwd, roots[i], root);
      assert results[i] == Root(root);
      RootsAreThose(results, root);
    }
  }

  /**
   With these roots, a request is granted exactly if it resolves to a path below what a configured text resolves
   to: roots and candidates are compared on the same footing.
   */
  lemma ConfiguredRootsAdmitIff(tree: Tree, userHome: Option<string>, cwd: Path, roots: seq<string>, r: Resolver,
                                path: string, q: Path)
    requires WellFormed(tree) && Canonical(cwd)
    requires NormalizedRoots(tree, userHome, cwd, roots) == Some(r.roots) && r.roots != []
    requires (r.baseDir.Some? ==> Canonical(r.baseDir.value)) && (forall c :: r.fold(c) == '/' <==> c == '/')
    ensures Resolve(tree, r, userHome, path) == Ok(q)
            <==> AsksFor(tree, r, userHome, path, q) && Covered(tree, userHome, cwd, roots, r.fold, q)
  {
    RootsAreCanonical(tree, userHome, cwd, roots);
    ResolveIsComplete(tree, r, userHome, path);
    CoveredIsUnder(tree, userHome, cwd, roots, r, q);
  }

  predicate AsksInVain(userHome: Option<string>, cwd: Path, text: string) {
    !Spaces(text) && Requested(RootReader(cwd), userHome, text) == None
  }

  /**
   Configuration fails exactly for a text that is not blank and asks for nothing, which takes an unknown home
   directory; it leaves no root, that is no restriction, exactly if all texts are blank.
   */
  lemma ConfigurationIff(tree: Tree, userHome: Option<string>, cwd: Path, roots: seq<string>)
    ensures var result := NormalizedRoots(tree, userHome, cwd, roots);
            && (result.None?
                <==> exists i :: 0 <= i < |roots| && AsksInVain(userHome, cwd, roots[i]))
            && (result == Some([]) <==> forall i :: 0 <= i < |roots| ==> Spaces(roots[i]))
  {
    var results := Results(tree, userHome, cwd, roots);
    forall i | 0 <= i < |roots| ensures results[i].Blank? <==> Spaces(roots[i]) { BlankIffSpaces(roots[i]); }
    FailsIffOne(results);
    forall i | 0 <= i < |roots| ensures results[i].HomeUnknown? <==> AsksInVain(userHome, cwd, roots[i]) {}
    EmptyIffBlank(results);
  }

  lemma {:induction false} EmptyIffBlank(results: seq<RootResult>)
    ensures Collected(results) == Some([]) <==> forall i :: 0 <= i < |results| ==> results[i].Blank?
  {
    if results != [] {
      EmptyIffBlank(results[..|results| - 1]);
      assert forall i :: 0 <= i < |results| - 1 ==> results[..|results| - 1][i] == results[i];
    }
  }

  /** The request text resolves to q. */
  predicate AsksFor(tree: Tree, r: Resolver, userHome: Option<string>, path: string, q: Path) {
    var clean := Requested(r, userHome, path);
    clean.Some? && Resolved(tree, clean.value, 0) == Some(q)
  }
}
