/**
 The path resolver of access/files/path.go over a file tree that does not change meanwhile:
 component-wise symbolic link resolution with a bound on the links followed, and the test that the
 result lies under a configured root. Link targets are cleaned lexically, as the program does.
 */
module PathResolver {
  import opened Prelude
  import opened PathNames

  datatype Node = Directory | File | Link(target: string, readable: bool)

  /** `denied` are paths whose lstat fails for another reason than absence. */
  datatype Tree = Tree(nodes: map<Path, Node>, denied: set<Path>)

  /** Whatever exists lies in a directory, up to the root. */
  ghost predicate WellFormed(tree: Tree) {
    && [] in tree.nodes && tree.nodes[[]].Directory?
    && forall p :: p in tree.nodes && p != [] ==> p[..|p| - 1] in tree.nodes && tree.nodes[p[..|p| - 1]].Directory?
  }

  datatype Lookup = Found(node: Node) | NotExist | LookupError

  /** os.Lstat; looking through something that is not a directory is an error, not absence. */
  function Lstat(tree: Tree, p: Path): Lookup {
    if p in tree.denied then LookupError
    else if p in tree.nodes then Found(tree.nodes[p])
    else if p != [] && p[..|p| - 1] in tree.nodes && !tree.nodes[p[..|p| - 1]].Directory? then LookupError
    else NotExist
  }

  const MAX_SYMLINK_DEPTH := 40

  // ---- One pass over the components ---------------------------------------------------------

  /** What one pass of resolvePath ends with: a result, a link to follow, or an error. */
  datatype Pass = Settled(path: Path) | Follow(path: Path) | Broken

  predicate IsAbs(s: string) {
    s != "" && s[0] == '/'
  }

  /** The pass from a directory already walked over the components still ahead. */
  function Scan(tree: Tree, current: Path, rest: Path): Pass
    decreases |rest|
  {
    if rest == [] then Settled(current)
    else
      var next := current + [rest[0]];
      match Lstat(tree, next)
      case NotExist => Settled(next + rest[1..])
      case LookupError => Broken
      case Found(node) =>
        match node
        case Link(target, readable) =>
          if !readable then Broken
          else Follow(Walk(if IsAbs(target) then [] else current, Split(target) + rest[1..]))
        case _ => Scan(tree, next, rest[1..])
  }

  /** resolvePath: passes until one settles, following at most MAX_SYMLINK_DEPTH links. */
  function Resolved(tree: Tree, p: Path, depth: nat): Option<Path>
    decreases MAX_SYMLINK_DEPTH + 1 - depth
  {
    if depth > MAX_SYMLINK_DEPTH then None
    else
      match Scan(tree, [], p)
      case Settled(q) => Some(q)
      case Broken => None
      case Follow(q) => Resolved(tree, q, depth + 1)
  }

  /** The same, as the program writes it: a loop over the components inside a recursion over the links. */
  method ResolvePath(tree: Tree, path: Path, depth: nat) returns (result: Option<Path>)
    ensures result == Resolved(tree, path, depth)
    decreases MAX_SYMLINK_DEPTH + 1 - depth
  {
    if depth > MAX_SYMLINK_DEPTH {
      return None;
    }
    var current: Path := [];
    var index := 0;
    while index < |path|
      invariant 0 <= index <= |path| && Scan(tree, [], path) == Scan(tree, current, path[index..])
    {
      var parent := current;
      current := current + [path[index]];
      assert path[index..][1..] == path[index + 1..];
      match Lstat(tree, current) {
        case LookupError =>
          return None;
        case NotExist =>
          var tail := index + 1;
          ghost var missing := current;
          while tail < |path|
            invariant index + 1 <= tail <= |path| && current == missing + path[index + 1..tail]
          {
            current := current + [path[tail]];
            tail := tail + 1;
          }
          assert path[index + 1..|path|] == path[index + 1..];
          return Some(current);
        case Found(node) =>
          if node.Link? {
            if !node.readable {
              return None;
            }
            var base := if IsAbs(node.target) then [] else parent;
            result := ResolvePath(tree, Walk(base, Split(node.target) + path[index + 1..]), depth + 1);
            return;
          }
      }
      index := index + 1;
    }
    return Some(current);
  }

  // ---- A settled path is canonical ----------------------------------------------------------

  /** Nothing that exists on the way to `p`, nor `p` itself, is a symbolic link. */
  ghost predicate NoLinkOn(tree: Tree, p: Path) {
    forall k :: 0 <= k <= |p| ==> !(Lstat(tree, p[..k]).Found? && Lstat(tree, p[..k]).node.Link?)
  }

  /** Every prefix of `p` exists and is not a link. */
  ghost predicate Walked(tree: Tree, p: Path) {
    forall k :: 0 < k <= |p| ==> Lstat(tree, p[..k]).Found? && !Lstat(tree, p[..k]).node.Link?
  }

  lemma {:induction false} AbsentBelow(tree: Tree, p: Path, q: Path)
    requires WellFormed(tree) && Lstat(tree, p) == NotExist && p <= q
    ensures q !in tree.nodes
    decreases |q|
  {
    if |p| < |q| {
      var up := q[..|q| - 1];
      assert p <= up;
      AbsentBelow(tree, p, up);
    } else {
      assert p == q;
    }
  }

  /** A pass over components that were already walked keeps going where it stands. */
  lemma {:induction false} ScanSkips(tree: Tree, current: Path, walked: Path, rest: Path)
    requires Walked(tree, current + walked)
    ensures Scan(tree, current, walked + rest) == Scan(tree, current + walked, rest)
    decreases |walked|
  {
    if walked == [] {
      assert walked + rest == rest && current + walked == current;
    } else {
      var next := current + [walked[0]];
      assert (current + walked)[..|current| + 1] == next;
      assert (walked + rest)[1..] == walked[1..] + rest;
      assert next + walked[1..] == current + walked;
      ScanSkips(tree, next, walked[1..], rest);
    }
  }

  lemma WalkedFurther(tree: Tree, current: Path, name: string)
    requires Walked(tree, current)
    requires Lstat(tree, current + [name]).Found? && !Lstat(tree, current + [name]).node.Link?
    ensures Walked(tree, current + [name])
  {
    var next := current + [name];
    forall k | 0 < k <= |next| ensures Lstat(tree, next[..k]).Found? && !Lstat(tree, next[..k]).node.Link? {
      if k <= |current| { assert next[..k] == current[..k]; } else { assert next[..k] == next; }
    }
  }

  /** No link on the path, and a pass over it ends where it began. */
  ghost predicate IsSettled(tree: Tree, p: Path) {
    NoLinkOn(tree, p) && Scan(tree, [], p) == Settled(p)
  }

  lemma FirstApart(current: Path, rest: Path)
    requires rest != []
    ensures current + [rest[0]] + rest[1..] == current + rest
  {
  }

  lemma ScanAbsent(tree: Tree, current: Path, rest: Path)
    requires rest != [] && Lstat(tree, current + [rest[0]]).NotExist?
    ensures Scan(tree, current, rest) == Settled(current + [rest[0]] + rest[1..])
  {
  }

  lemma ScanEndsAbsent(tree: Tree, current: Path, rest: Path)
    requires WellFormed(tree) && Walked(tree, current) && rest != [] && Lstat(tree, current + [rest[0]]).NotExist?
    ensures Scan(tree, current, rest) == Settled(current + rest) && IsSettled(tree, current + rest)
  {
    ScanAbsent(tree, current, rest);
    AbsentSettles(tree, current, rest[0], rest[1..]);
    FirstApart(current, rest);
  }

  lemma ScanEnds(tree: Tree, current: Path)
    requires WellFormed(tree) && Walked(tree, current)
    ensures Scan(tree, current, []) == Settled(current) && IsSettled(tree, current)
  {
    WalkedSettles(tree, current);
  }

  lemma {:induction false} ScanSettles(tree: Tree, current: Path, rest: Path)
    requires WellFormed(tree) && Walked(tree, current) && Scan(tree, current, rest).Settled?
    ensures Scan(tree, current, rest) == Settled(current + rest) && IsSettled(tree, current + rest)
    decreases |rest|
  {
    if rest == [] {
      ScanEnds(tree, current);
      assert current + rest == current;
    } else if Lstat(tree, current + [rest[0]]).NotExist? {
      ScanEndsAbsent(tree, current, rest);
    } else {
      ScanGoesOn(tree, current, rest);
      ScanSettles(tree, current + [rest[0]], rest[1..]);
      FirstApart(current, rest);
    }
  }

  lemma ScanGoesOn(tree: Tree, current: Path, rest: Path)
    requires rest != [] && Walked(tree, current) && Scan(tree, current, rest).Settled?
    requires !Lstat(tree, current + [rest[0]]).NotExist?
    ensures Walked(tree, current + [rest[0]]) && Scan(tree, current, rest) == Scan(tree, current + [rest[0]], rest[1..])
  {
    WalkedFurther(tree, current, rest[0]);
  }

  lemma WalkedSettles(tree: Tree, p: Path)
    requires WellFormed(tree) && Walked(tree, p)
    ensures NoLinkOn(tree, p) && Scan(tree, [], p) == Settled(p)
  {
    assert p[..0] == [];
    assert [] + p == p && p + [] == p;
    ScanSkips(tree, [], p, []);
  }

  lemma AbsentSettles(tree: Tree, current: Path, name: string, tail: Path)
    requires WellFormed(tree) && Walked(tree, current) && Lstat(tree, current + [name]) == NotExist
    ensures IsSettled(tree, current + [name] + tail)
  {
    var q := current + [name] + tail;
    assert q == current + ([name] + tail) && [] + current == current && ([name] + tail)[1..] == tail;
    ScanSkips(tree, [], current, [name] + tail);
    forall k | 0 <= k <= |q| ensures !(Lstat(tree, q[..k]).Found? && Lstat(tree, q[..k]).node.Link?) {
      AbsentHasNoLink(tree, current, name, tail, k);
    }
  }

  lemma AbsentHasNoLink(tree: Tree, current: Path, name: string, tail: Path, k: nat)
    requires WellFormed(tree) && Walked(tree, current) && Lstat(tree, current + [name]) == NotExist
    requires k <= |current + [name] + tail|
    ensures var p := (current + [name] + tail)[..k]; !(Lstat(tree, p).Found? && Lstat(tree, p).node.Link?)
  {
    var p := (current + [name] + tail)[..k];
    if k == 0 {
      assert p == [];
    } else if k <= |current| {
      assert p == current[..k];
    } else {
      assert current + [name] <= p;
      AbsentBelow(tree, current + [name], p);
    }
  }

  lemma FollowIsCanonical(tree: Tree, current: Path, rest: Path)
    requires Canonical(current) && Canonical(rest) && Scan(tree, current, rest).Follow?
    ensures Canonical(Scan(tree, current, rest).path)
    decreases |rest|
  {
    var next := current + [rest[0]];
    var node := Lstat(tree, next).node;
    if node.Link? {
      var pieces := Split(node.target) + rest[1..];
      forall i | 0 <= i < |pieces| ensures '/' !in pieces[i] {
        if i < |Split(node.target)| { SplitHasNoSlash(node.target, i); }
      }
      WalkIsCanonical(if IsAbs(node.target) then [] else current, pieces);
    } else {
      FollowIsCanonical(tree, next, rest[1..]);
    }
  }

  /** What resolution returns is canonical: no link on it, and resolving it again changes nothing. */
  lemma {:induction false} ResolvedIsSettled(tree: Tree, p: Path, depth: nat)
    requires WellFormed(tree) && Canonical(p) && Resolved(tree, p, depth).Some?
    ensures var q := Resolved(tree, p, depth).value;
            && Canonical(q) && NoLinkOn(tree, q)
            && forall d: nat :: d <= MAX_SYMLINK_DEPTH ==> Resolved(tree, q, d) == Some(q)
    decreases MAX_SYMLINK_DEPTH + 1 - depth
  {
    match Scan(tree, [], p)
    case Settled(q) => ScanSettles(tree, [], p);
    case Follow(q) =>
      FollowIsCanonical(tree, [], p);
      ResolvedIsSettled(tree, q, depth + 1);
  }

  // ---- Where a link leads -------------------------------------------------------------------

  /** The text of a path with a link in it: the link's target for the link, in its directory if it is relative. */
  function LinkText(up: Path, target: string, rest: Path): string {
    if IsAbs(target) then target + Body(rest) else Render(up) + "/" + target + Body(rest)
  }

  lemma TailOfBody(p: Path)
    requires Canonical(p)
    ensures IsTail(Body(p)) && TailPieces(Body(p)) == p
  {
    if p != [] {
      SplitBody(p);
      assert Split(Body(p)) == [""] + Split(Body(p)[1..]);
      assert Split(Body(p))[1..] == Split(Body(p)[1..]) == p;
    }
  }

  /** Walking on from the link's directory is cleaning that text. */
  lemma WalkIsClean(up: Path, target: string, rest: Path)
    requires Canonical(up) && Canonical(rest)
    ensures Walk(if IsAbs(target) then [] else up, Split(target) + rest) == Clean(LinkText(up, target, rest))
  {
    TailOfBody(rest);
    SplitTail(target, Body(rest));
    if !IsAbs(target) {
      Assoc(Render(up) + "/", target, Body(rest));
      SplitJoin(Render(up), target + Body(rest));
      WalkConcat([], Split(Render(up)), Split(target) + rest);
      CleanRender(up);
    }
  }

  /** What the first component that does not simply exist decides, all components before it walked. */
  ghost predicate Decides(tree: Tree, r: (Path, nat) -> Option<Path>, up: Path, name: string, rest: Path, depth: nat) {
    match Lstat(tree, up + [name])
    case NotExist => r(up + [name] + rest, depth) == Some(up + [name] + rest)
    case LookupError => r(up + [name] + rest, depth) == None
    case Found(Link(target, readable)) =>
      r(up + [name] + rest, depth) == if readable then r(Clean(LinkText(up, target, rest)), depth + 1) else None
    case Found(_) => true
  }

  /** What a reader of resolvePath expects of it, on canonical paths. */
  ghost predicate FollowsLinks(tree: Tree, r: (Path, nat) -> Option<Path>) {
    && (forall p, depth: nat :: Canonical(p) && depth > 40 ==> r(p, depth) == None)
    && (forall p, depth: nat :: Canonical(p) && depth <= 40 && Walked(tree, p) ==>
          r(p, depth) == Some(p))
    && (forall up, name, rest, depth: nat ::
          Canonical(up + [name] + rest) && depth <= 40 && Walked(tree, up) ==>
          Decides(tree, r, up, name, rest, depth))
  }

  function ResolvedIn(tree: Tree): (Path, nat) -> Option<Path> {
    (p: Path, depth: nat) => Resolved(tree, p, depth)
  }

  lemma ScanFrom(tree: Tree, up: Path, rest: Path)
    requires Walked(tree, up)
    ensures Scan(tree, [], up + rest) == Scan(tree, up, rest)
  {
    assert [] + up == up;
    ScanSkips(tree, [], up, rest);
  }

  lemma CanonicalParts(up: Path, name: string, rest: Path)
    requires Canonical(up + [name] + rest)
    ensures Canonical(up) && Canonical(rest)
  {
    var p := up + [name] + rest;
    assert up == p[..|up|] && rest == p[|up| + 1..];
  }

  /** A component that does not exist ends the walk, a failing one is an error, a link is followed. */
  lemma ResolvedDecides(tree: Tree, up: Path, name: string, rest: Path, depth: nat)
    requires Canonical(up + [name] + rest) && depth <= MAX_SYMLINK_DEPTH && Walked(tree, up)
    ensures Decides(tree, ResolvedIn(tree), up, name, rest, depth)
  {
    CanonicalParts(up, name, rest);
    assert up + [name] + rest == up + ([name] + rest) && ([name] + rest)[1..] == rest;
    ScanFrom(tree, up, [name] + rest);
    var found := Lstat(tree, up + [name]);
    if found.Found? && found.node.Link? { WalkIsClean(up, found.node.target, rest); }
  }

  lemma ResolvedWalked(tree: Tree, p: Path, depth: nat)
    requires depth <= MAX_SYMLINK_DEPTH && Walked(tree, p)
    ensures Resolved(tree, p, depth) == Some(p)
  {
    assert p + [] == p;
    ScanFrom(tree, p, []);
  }

  lemma ResolvedFollowsLinks(tree: Tree)
    ensures FollowsLinks(tree, ResolvedIn(tree))
  {
    var r := ResolvedIn(tree);
    forall p, depth: nat | Canonical(p) && depth <= MAX_SYMLINK_DEPTH && Walked(tree, p)
      ensures r(p, depth) == Some(p)
    {
      ResolvedWalked(tree, p, depth);
    }
    forall up, name, rest, depth: nat
      | Canonical(up + [name] + rest) && depth <= MAX_SYMLINK_DEPTH && Walked(tree, up)
      ensures Decides(tree, r, up, name, rest, depth)
    {
      ResolvedDecides(tree, up, name, rest, depth);
    }
  }

  /** How far a path can be walked. */
  lemma {:induction false} WalksTo(tree: Tree, p: Path, from: nat) returns (k: nat)
    requires from <= |p| && Walked(tree, p[..from])
    ensures k <= |p| && Walked(tree, p[..k])
    ensures k < |p| ==> var found := Lstat(tree, p[..k + 1]); !found.Found? || found.node.Link?
    decreases |p| - from
  {
    if from == |p| { return from; }
    assert p[..from + 1] == p[..from] + [p[from]];
    var found := Lstat(tree, p[..from + 1]);
    if !found.Found? || found.node.Link? { return from; }
    WalkedFurther(tree, p[..from], p[from]);
    k := WalksTo(tree, p, from + 1);
  }

  /** Without a link or a failing lookup on it, a path is its own resolution. */
  lemma ResolvedWithoutLinks(tree: Tree, p: Path, depth: nat)
    requires Canonical(p) && depth <= MAX_SYMLINK_DEPTH
    requires forall k :: 0 < k <= |p| ==>
               var found := Lstat(tree, p[..k]); found.NotExist? || (found.Found? && !found.node.Link?)
    ensures Resolved(tree, p, depth) == Some(p)
  {
    assert p[..0] == [];
    var k := WalksTo(tree, p, 0);
    if k == |p| {
      assert p[..k] == p;
      ResolvedWalked(tree, p, depth);
    } else {
      assert p == p[..k] + [p[k]] + p[k + 1..] && p[..k + 1] == p[..k] + [p[k]];
      ResolvedDecides(tree, p[..k], p[k], p[k + 1..], depth);
    }
  }

  /** Nothing else resolves like this. */
  lemma {:induction false} LinksDetermineResolved(tree: Tree, r: (Path, nat) -> Option<Path>, p: Path, depth: nat)
    requires FollowsLinks(tree, r) && Canonical(p)
    ensures r(p, depth) == Resolved(tree, p, depth)
    decreases MAX_SYMLINK_DEPTH + 1 - depth
  {
    if depth <= MAX_SYMLINK_DEPTH {
      assert p[..0] == [];
      var k := WalksTo(tree, p, 0);
      if k == |p| {
        assert p[..k] == p;
        ResolvedWalked(tree, p, depth);
      } else {
        var up, name, rest := p[..k], p[k], p[k + 1..];
        assert p == up + [name] + rest && p[..k + 1] == up + [name];
        assert Decides(tree, r, up, name, rest, depth);
        ResolvedDecides(tree, up, name, rest, depth);
        var found := Lstat(tree, up + [name]);
        if found.Found? && found.node.readable {
          var text := LinkText(up, found.node.target, rest);
          CleanIsCanonical(text);
          LinksDetermineResolved(tree, r, Clean(text), depth + 1);
        }
      }
    }
  }

  // ---- Links followed, and cycles -----------------------------------------------------------

  /** Following exactly `n` links leads from `p` to `q`. */
  ghost predicate Leads(tree: Tree, p: Path, n: nat, q: Path)
    decreases n
  {
    if n == 0 then p == q
    else Scan(tree, [], p).Follow? && Leads(tree, Scan(tree, [], p).path, n - 1, q)
  }

  lemma {:induction false} LeadsResolves(tree: Tree, p: Path, n: nat, r: Path, depth: nat)
    requires Leads(tree, p, n, r)
    ensures Resolved(tree, p, depth) == if depth + n <= MAX_SYMLINK_DEPTH then Resolved(tree, r, depth + n) else None
    decreases n
  {
    if n > 0 {
      if depth <= MAX_SYMLINK_DEPTH { LeadsResolves(tree, Scan(tree, [], p).path, n - 1, r, depth + 1); }
    }
  }

  lemma {:induction false} ResolvedLeads(tree: Tree, p: Path, depth: nat) returns (n: nat, r: Path)
    requires Resolved(tree, p, depth).Some?
    ensures depth + n <= MAX_SYMLINK_DEPTH && Leads(tree, p, n, r)
    ensures Scan(tree, [], r) == Settled(Resolved(tree, p, depth).value)
    decreases MAX_SYMLINK_DEPTH + 1 - depth
  {
    match Scan(tree, [], p)
    case Settled(q) => n, r := 0, p;
    case Follow(q) =>
      n, r := ResolvedLeads(tree, q, depth + 1);
      n := n + 1;
  }

  /** After `n` links, within the bound, a pass over `r` settles on `q`. */
  ghost predicate SettlesAfter(tree: Tree, p: Path, n: nat, r: Path, q: Path) {
    n <= 40 && Leads(tree, p, n, r) && Scan(tree, [], r) == Settled(q)
  }

  /** Resolution succeeds exactly when at most 40 links lead to a path on which a pass settles. */
  lemma ResolvedIffAtMostFortyLinks(tree: Tree, p: Path, q: Path)
    ensures Resolved(tree, p, 0) == Some(q) <==> exists n: nat, r: Path :: SettlesAfter(tree, p, n, r, q)
  {
    if Resolved(tree, p, 0) == Some(q) {
      var n, r := ResolvedLeads(tree, p, 0);
      assert SettlesAfter(tree, p, n, r, q);
    }
    if n: nat, r: Path :| SettlesAfter(tree, p, n, r, q) {
      LeadsResolves(tree, p, n, r, 0);
    }
  }

  lemma {:induction false} LeadsSnoc(tree: Tree, p: Path, n: nat, q: Path)
    requires Leads(tree, p, n, q) && Scan(tree, [], q).Follow?
    ensures Leads(tree, p, n + 1, Scan(tree, [], q).path)
    decreases n
  {
    if n > 0 { LeadsSnoc(tree, Scan(tree, [], p).path, n - 1, q); }
  }

  lemma {:induction false} CycleFails(tree: Tree, p: Path, n: nat, depth: nat)
    requires 0 < n && Leads(tree, p, n, p)
    ensures Resolved(tree, p, depth).None?
    decreases MAX_SYMLINK_DEPTH + 1 - depth
  {
    if depth <= MAX_SYMLINK_DEPTH {
      var next := Scan(tree, [], p).path;
      LeadsSnoc(tree, next, n - 1, p);
      CycleFails(tree, next, n, depth + 1);
    }
  }

  /** A path whose links lead into a cycle is an error. */
  lemma LinkCycleIsAnError(tree: Tree, p: Path, i: nat, r: Path, n: nat)
    requires Leads(tree, p, i, r) && 0 < n && Leads(tree, r, n, r)
    ensures Resolved(tree, p, 0).None?
  {
    LeadsResolves(tree, p, i, r, 0);
    CycleFails(tree, r, n, i);
  }
}
