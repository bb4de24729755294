/** Resolve and ResolveParent of access/files/path.go: request text in, a path under a root out. */
module RootedPaths {
  import opened Prelude
  import opened PathNames
  import opened PathResolver

  /** `fold` is the case folding used for comparison: the identity, or lower-casing rune by rune. */
  datatype Resolver = Resolver(roots: seq<Path>, baseDir: Option<Path>, home: string, fold: char -> char)

  ghost predicate ValidResolver(r: Resolver) {
    && (forall i :: 0 <= i < |r.roots| ==> Canonical(r.roots[i]))
    && (r.baseDir.Some? ==> Canonical(r.baseDir.value))
    && (forall c :: r.fold(c) == '/' <==> c == '/')
  }

  datatype Outcome = Ok(path: Path) | Invalid | Outside

  // ---- Text ---------------------------------------------------------------------------------

  /** unicode.IsSpace. */
  predicate IsSpace(c: char) {
    || c in {' ', '\t', '\n', '\r', '\U{0B}', '\U{0C}', '\U{85}', '\U{A0}', '\U{1680}',
             '\U{2028}', '\U{2029}', '\U{202F}', '\U{205F}', '\U{3000}'}
    || '\U{2000}' <= c <= '\U{200A}'
  }

  function TrimLeft(s: string): string {
    if s != "" && IsSpace(s[0]) then TrimLeft(s[1..]) else s
  }

  function TrimRight(s: string): string {
    if s != "" && IsSpace(s[|s| - 1]) then TrimRight(s[..|s| - 1]) else s
  }

  function TrimSpace(s: string): string {
    TrimRight(TrimLeft(s))
  }

  function Expand(r: Resolver, userHome: Option<string>, path: string): Option<string> {
    var trimmed := TrimSpace(path);
    if trimmed == "" then None
    else if trimmed == "~" || "~/" <= trimmed || "~\\" <= trimmed then
      var home := if r.home == "" then userHome else Some(r.home);
      if home.None? then None
      else if trimmed == "~" then home
      else Some(home.value + "/" + trimmed[2..])
    else Some(trimmed)
  }

  /** The clean absolute form of expanded text; a relative path needs a base directory. */
  function Absolute(r: Resolver, text: string): Option<Path> {
    if IsAbs(text) then Some(Clean(text))
    else if r.baseDir.None? then None
    else Some(Walk(r.baseDir.value, Split(text)))
  }

  function Requested(r: Resolver, userHome: Option<string>, path: string): Option<Path> {
    var text := Expand(r, userHome, path);
    if text.None? then None else Absolute(r, text.value)
  }

  // ---- Roots --------------------------------------------------------------------------------

  function Fold(s: string, fold: char -> char): string {
    seq(|s|, i requires 0 <= i < |s| => fold(s[i]))
  }

  function FoldPath(p: Path, fold: char -> char): Path {
    seq(|p|, i requires 0 <= i < |p| => Fold(p[i], fold))
  }

  function NormalizeForCompare(text: string, fold: char -> char): string {
    Fold(Render(Clean(text)), fold)
  }

  /** The roots as the test compares them. */
  function ComparedRoots(r: Resolver): seq<string> {
    seq(|r.roots|, i requires 0 <= i < |r.roots| => NormalizeForCompare(Render(r.roots[i]), r.fold))
  }

  /** withinRoots on the text of a path. */
  method WithinRoots(r: Resolver, text: string) returns (within: bool)
    ensures within <==>
              exists i :: 0 <= i < |r.roots| && PrefixTest(ComparedRoots(r)[i], NormalizeForCompare(text, r.fold))
    ensures ValidResolver(r) && text == Render(Clean(text)) ==> (within <==> UnderARoot(r, Clean(text)))
  {
    within := AnyRoot(ComparedRoots(r), NormalizeForCompare(text, r.fold));
    if ValidResolver(r) && text == Render(Clean(text)) {
      CleanIsCanonical(text);
      InRootsIsContainment(r, Clean(text));
      ComparedIsInRoots(r, Clean(text));
    }
  }

  lemma ComparedIsInRoots(r: Resolver, p: Path)
    ensures InRoots(r, p) <==>
              exists i :: 0 <= i < |r.roots| && PrefixTest(ComparedRoots(r)[i], NormalizeForCompare(Render(p), r.fold))
  {
    var compared, candidate := ComparedRoots(r), NormalizeForCompare(Render(p), r.fold);
    if InRoots(r, p) {
      var i :| 0 <= i < |r.roots| && PrefixTest(NormalizeForCompare(Render(r.roots[i]), r.fold), candidate);
      assert PrefixTest(compared[i], candidate);
    }
    if i :| 0 <= i < |r.roots| && PrefixTest(compared[i], candidate) {
      assert PrefixTest(NormalizeForCompare(Render(r.roots[i]), r.fold), candidate);
    }
  }

  method AnyRoot(roots: seq<string>, candidate: string) returns (within: bool)
    ensures within <==> exists i :: 0 <= i < |roots| && PrefixTest(roots[i], candidate)
  {
    for k := 0 to |roots|
      invariant forall i :: 0 <= i < k ==> !PrefixTest(roots[i], candidate)
    {
      var admitted := TestPrefix(roots[k], candidate);
      if admitted {
        return true;
      }
    }
    return false;
  }

  method TestPrefix(root: string, candidate: string) returns (admitted: bool)
    ensures admitted == PrefixTest(root, candidate)
  {
    if candidate == root {
      return true;
    }
    var prefix := root;
    if prefix == "" || prefix[|prefix| - 1] != '/' {
      prefix := prefix + "/";
    }
    return prefix <= candidate;
  }

  predicate InRoots(r: Resolver, p: Path) {
    exists i :: 0 <= i < |r.roots| &&
      PrefixTest(NormalizeForCompare(Render(r.roots[i]), r.fold), NormalizeForCompare(Render(p), r.fold))
  }

  /** Some root holds `p`, component by component, up to case folding. */
  ghost predicate UnderARoot(r: Resolver, p: Path) {
    exists i :: 0 <= i < |r.roots| && FoldPath(r.roots[i], r.fold) <= FoldPath(p, r.fold)
  }

  lemma FoldConcat(a: string, b: string, fold: char -> char)
    ensures Fold(a + b, fold) == Fold(a, fold) + Fold(b, fold)
  {
  }

  lemma {:induction false} FoldBody(p: Path, fold: char -> char)
    requires fold('/') == '/'
    ensures Fold(Body(p), fold) == Body(FoldPath(p, fold))
  {
    if p != [] {
      FoldBody(p[1..], fold);
      FoldConcat("/" + p[0], Body(p[1..]), fold);
      FoldConcat("/", p[0], fold);
      assert Fold("/", fold) == "/";
      assert FoldPath(p, fold)[1..] == FoldPath(p[1..], fold);
    }
  }

  lemma FoldIsPlain(p: Path, fold: char -> char)
    requires Canonical(p) && forall c :: fold(c) == '/' <==> c == '/'
    ensures Plain(FoldPath(p, fold))
  {
  }

  lemma NormalizedText(p: Path, fold: char -> char)
    requires Canonical(p) && forall c :: fold(c) == '/' <==> c == '/'
    ensures NormalizeForCompare(Render(p), fold) == Render(FoldPath(p, fold))
  {
    CleanRender(p);
    FoldBody(p, fold);
  }

  /** The string-prefix root test means component containment. */
  lemma InRootsIsContainment(r: Resolver, p: Path)
    requires ValidResolver(r) && Canonical(p)
    ensures InRoots(r, p) <==> UnderARoot(r, p)
  {
    forall i | 0 <= i < |r.roots|
      ensures PrefixTest(NormalizeForCompare(Render(r.roots[i]), r.fold), NormalizeForCompare(Render(p), r.fold))
              <==> FoldPath(r.roots[i], r.fold) <= FoldPath(p, r.fold)
    {
      NormalizedText(r.roots[i], r.fold);
      NormalizedText(p, r.fold);
      FoldIsPlain(r.roots[i], r.fold);
      FoldIsPlain(p, r.fold);
      PrefixTestIsContainment(FoldPath(r.roots[i], r.fold), FoldPath(p, r.fold));
    }
  }

  // ---- Resolve ------------------------------------------------------------------------------

  function Checked(r: Resolver, resolved: Option<Path>): Outcome {
    if resolved.None? then Invalid
    else if !InRoots(r, resolved.value) then Outside
    else Ok(resolved.value)
  }

  function Resolve(tree: Tree, r: Resolver, userHome: Option<string>, path: string): Outcome {
    var clean := Requested(r, userHome, path);
    if clean.None? then Invalid
    else if r.roots == [] then Ok(clean.value)
    else Checked(r, Resolved(tree, clean.value, 0))
  }

  /** Resolves the directory part only: the last component may itself be a link. */
  function ParentOutcome(tree: Tree, r: Resolver, clean: Path): Outcome {
    if clean == [] then Checked(r, Resolved(tree, [], 0))
    else
      var parent := Resolved(tree, clean[..|clean| - 1], 0);
      if parent.None? then Invalid else Checked(r, Some(parent.value + [clean[|clean| - 1]]))
  }

  function ResolveParent(tree: Tree, r: Resolver, userHome: Option<string>, path: string): Outcome {
    var clean := Requested(r, userHome, path);
    if clean.None? then Invalid
    else if r.roots == [] then Ok(clean.value)
    else ParentOutcome(tree, r, clean.value)
  }

  lemma RequestedIsCanonical(r: Resolver, userHome: Option<string>, path: string)
    requires ValidResolver(r) && Requested(r, userHome, path).Some?
    ensures Canonical(Requested(r, userHome, path).value)
  {
    var text := Expand(r, userHome, path).value;
    CleanIsCanonical(text);
    if r.baseDir.Some? {
      forall i | 0 <= i < |Split(text)| ensures '/' !in Split(text)[i] { SplitHasNoSlash(text, i); }
      WalkIsCanonical(r.baseDir.value, Split(text));
    }
  }

  /**
   With roots configured, every successful Resolve returns a path that lies under a root component
   by component, has no symbolic link on it, and resolves to itself.
   */
  lemma ResolveIsSafe(tree: Tree, r: Resolver, userHome: Option<string>, path: string)
    requires WellFormed(tree) && ValidResolver(r) && r.roots != []
    ensures Resolve(tree, r, userHome, path).Ok? ==>
              var q := Resolve(tree, r, userHome, path).path;
              Canonical(q) && UnderARoot(r, q) && NoLinkOn(tree, q) && Resolved(tree, q, 0) == Some(q)
  {
    if Resolve(tree, r, userHome, path).Ok? {
      RequestedIsCanonical(r, userHome, path);
      var clean := Requested(r, userHome, path).value;
      ResolvedIsSettled(tree, clean, 0);
      InRootsIsContainment(r, Resolved(tree, clean, 0).value);
    }
  }

  /** And it refuses nothing else: what is asked for, settles and lies under a root is returned. */
  lemma ResolveIsComplete(tree: Tree, r: Resolver, userHome: Option<string>, path: string)
    requires WellFormed(tree) && ValidResolver(r)
    ensures var clean := Requested(r, userHome, path);
            Resolve(tree, r, userHome, path) ==
              if clean.None? then Invalid
              else if r.roots == [] then Ok(clean.value)
              else
                var q := Resolved(tree, clean.value, 0);
                if q.None? then Invalid else if UnderARoot(r, q.value) then Ok(q.value) else Outside
  {
    var clean := Requested(r, userHome, path);
    if clean.Some? {
      RequestedIsCanonical(r, userHome, path);
      if Resolved(tree, clean.value, 0).Some? {
        ResolvedIsSettled(tree, clean.value, 0);
        InRootsIsContainment(r, Resolved(tree, clean.value, 0).value);
      }
    }
  }

  lemma CheckedIsUnder(r: Resolver, p: Path)
    requires ValidResolver(r) && Canonical(p)
    ensures Checked(r, Some(p)) == if UnderARoot(r, p) then Ok(p) else Outside
  {
    InRootsIsContainment(r, p);
  }

  lemma AppendedName(tree: Tree, up: Path, last: string)
    requires WellFormed(tree) && Canonical(up) && IsName(last) && Resolved(tree, up, 0).Some?
    ensures var q := Resolved(tree, up, 0).value + [last]; Canonical(q) && NoLinkOn(tree, q[..|q| - 1])
  {
    ResolvedIsSettled(tree, up, 0);
    var q := Resolved(tree, up, 0).value + [last];
    assert q[..|q| - 1] == Resolved(tree, up, 0).value;
  }

  lemma ParentIsSafe(tree: Tree, r: Resolver, clean: Path)
    requires WellFormed(tree) && ValidResolver(r) && Canonical(clean) && ParentOutcome(tree, r, clean).Ok?
    ensures var q := ParentOutcome(tree, r, clean).path;
            && Canonical(q) && UnderARoot(r, q)
            && (clean != [] ==> q != [] && q[|q| - 1] == clean[|clean| - 1] && NoLinkOn(tree, q[..|q| - 1]))
  {
    if clean == [] {
      ResolvedIsSettled(tree, [], 0);
      CheckedIsUnder(r, Resolved(tree, [], 0).value);
    } else {
      AppendedName(tree, clean[..|clean| - 1], clean[|clean| - 1]);
      CheckedIsUnder(r, Resolved(tree, clean[..|clean| - 1], 0).value + [clean[|clean| - 1]]);
    }
  }

  /** ResolveParent keeps the last component but no link above it, and stays under a root. */
  lemma ResolveParentIsSafe(tree: Tree, r: Resolver, userHome: Option<string>, path: string)
    requires WellFormed(tree) && ValidResolver(r) && r.roots != []
    ensures ResolveParent(tree, r, userHome, path).Ok? ==>
              var q := ResolveParent(tree, r, userHome, path).path;
              var clean := Requested(r, userHome, path).value;
              && Canonical(q) && UnderARoot(r, q)
              && (clean != [] ==> q != [] && q[|q| - 1] == clean[|clean| - 1] && NoLinkOn(tree, q[..|q| - 1]))
  {
    if ResolveParent(tree, r, userHome, path).Ok? {
      RequestedIsCanonical(r, userHome, path);
      ParentIsSafe(tree, r, Requested(r, userHome, path).value);
    }
  }

  /** The directory that ResolveParent resolves, and the name it keeps. */
  lemma ResolveParentIsComplete(tree: Tree, r: Resolver, userHome: Option<string>, path: string, up: Path, last: string)
    requires WellFormed(tree) && ValidResolver(r) && r.roots != []
    requires Requested(r, userHome, path) == Some(up + [last])
    ensures var q := Resolved(tree, up, 0);
            ResolveParent(tree, r, userHome, path) ==
              if q.None? then Invalid else if UnderARoot(r, q.value + [last]) then Ok(q.value + [last]) else Outside
  {
    RequestedIsCanonical(r, userHome, path);
    var clean := up + [last];
    assert clean[..|clean| - 1] == up && clean[|up|] == last;
    CanonicalParts(up, last, []);
    if Resolved(tree, up, 0).Some? {
      AppendedName(tree, up, last);
      CheckedIsUnder(r, Resolved(tree, up, 0).value + [last]);
    }
  }

  /** The root has no directory, and without roots or a request nothing is resolved. */
  lemma ResolveParentElse(tree: Tree, r: Resolver, userHome: Option<string>, path: string)
    requires Requested(r, userHome, path) in {None, Some([])} || r.roots == []
    ensures ResolveParent(tree, r, userHome, path) == Resolve(tree, r, userHome, path)
  {
  }

  // ---- What a request text asks for ---------------------------------------------------------

  predicate Spaces(s: string) {
    forall i :: 0 <= i < |s| ==> IsSpace(s[i])
  }

  /** Not empty, and no space at either end. */
  predicate Trimmed(s: string) {
    s != "" && !IsSpace(s[0]) && !IsSpace(s[|s| - 1])
  }

  predicate OfHome(s: string) {
    s == "~" || "~/" <= s || "~\\" <= s
  }

  lemma {:induction false} TrimLeftSpaces(a: string, s: string)
    requires Spaces(a)
    ensures TrimLeft(a + s) == TrimLeft(s)
  {
    if a == "" {
      assert a + s == s;
    } else {
      assert (a + s)[1..] == a[1..] + s;
      TrimLeftSpaces(a[1..], s);
    }
  }

  lemma {:induction false} TrimRightSpaces(s: string, b: string)
    requires Spaces(b)
    ensures TrimRight(s + b) == TrimRight(s)
    decreases |b|
  {
    if b == "" {
      assert s + b == s;
    } else {
      assert (s + b)[..|s + b| - 1] == s + b[..|b| - 1];
      TrimRightSpaces(s, b[..|b| - 1]);
    }
  }

  lemma {:induction false} TrimLeftOver(s: string, b: string)
    ensures TrimLeft(s + b) == if Spaces(s) then TrimLeft(b) else TrimLeft(s) + b
    ensures Spaces(s) ==> TrimLeft(s) == ""
  {
    if s == "" {
      assert s + b == b;
    } else {
      assert (s + b)[1..] == s[1..] + b && s == [s[0]] + s[1..];
      TrimLeftOver(s[1..], b);
      assert Spaces(s) <==> IsSpace(s[0]) && Spaces(s[1..]);
    }
  }

  lemma TrimSpaceOver(a: string, s: string, b: string)
    requires Spaces(a) && Spaces(b)
    ensures TrimSpace(a + s + b) == TrimSpace(s)
  {
    Assoc(a, s, b);
    TrimLeftSpaces(a, s + b);
    TrimLeftOver(s, b);
    if Spaces(s) {
      TrimLeftOver(b, "");
      assert b + "" == b;
    } else {
      TrimRightSpaces(TrimLeft(s), b);
    }
  }

  lemma TrimmedStays(s: string)
    requires Trimmed(s)
    ensures TrimSpace(s) == s
  {
  }

  lemma {:induction false} BlankIffSpaces(s: string)
    ensures TrimSpace(s) == "" <==> Spaces(s)
  {
    TrimLeftOver(s, "");
    assert s + "" == s;
    if !Spaces(s) {
      NotBlankFromLeft(s);
      TrimKeepsMiddle(TrimLeft(s));
    }
  }

  lemma {:induction false} NotBlankFromLeft(s: string)
    requires !Spaces(s)
    ensures TrimLeft(s) != "" && !IsSpace(TrimLeft(s)[0])
  {
    if IsSpace(s[0]) {
      assert Spaces(s) <==> IsSpace(s[0]) && Spaces(s[1..]) by { assert s == [s[0]] + s[1..]; }
      NotBlankFromLeft(s[1..]);
    }
  }

  lemma {:induction false} TrimKeepsMiddle(s: string)
    ensures s != "" && !IsSpace(s[0]) ==> TrimRight(s) != ""
  {
    if s != "" && !IsSpace(s[0]) && IsSpace(s[|s| - 1]) { TrimKeepsMiddle(s[..|s| - 1]); }
  }

  /** Space around a request does not count. */
  lemma RequestedIgnoresSpace(r: Resolver, userHome: Option<string>, a: string, path: string, b: string)
    requires Spaces(a) && Spaces(b)
    ensures Requested(r, userHome, a + path + b) == Requested(r, userHome, path)
  {
    TrimSpaceOver(a, path, b);
  }

  lemma RequestedBlank(r: Resolver, userHome: Option<string>, path: string)
    requires Spaces(path)
    ensures Requested(r, userHome, path) == None
  {
    TrimLeftOver(path, "");
    assert path + "" == path;
  }

  /** Text that begins with a slash is cleaned. */
  lemma RequestedAbsolute(r: Resolver, userHome: Option<string>, path: string)
    requires Trimmed(path) && IsAbs(path)
    ensures Requested(r, userHome, path) == Some(Clean(path))
  {
    TrimmedStays(path);
  }

  lemma TrimmedJoin(a: string, s: string)
    requires a != "" && !IsSpace(a[0]) && (s == "" || !IsSpace(s[|s| - 1]))
    ensures Trimmed(a + "/" + s)
  {
  }

  lemma StartOfRender(p: Path)
    ensures IsAbs(Render(p))
  {
  }

  lemma WalkFrom(base: Path, text: string)
    requires Canonical(base)
    ensures Clean(Render(base) + "/" + text) == Walk(base, Split(text))
  {
    SplitJoin(Render(base), text);
    WalkConcat([], Split(Render(base)), Split(text));
    CleanRender(base);
  }

  /** Other text is taken from the base directory, if there is one. */
  lemma RequestedRelative(r: Resolver, userHome: Option<string>, path: string)
    requires Trimmed(path) && !IsAbs(path) && !OfHome(path) && (r.baseDir.Some? ==> Canonical(r.baseDir.value))
    ensures Requested(r, userHome, path) ==
              if r.baseDir.None? then None else Requested(r, userHome, Render(r.baseDir.value) + "/" + path)
  {
    TrimmedStays(path);
    if r.baseDir.Some? {
      var text := Render(r.baseDir.value) + "/" + path;
      StartOfRender(r.baseDir.value);
      TrimmedJoin(Render(r.baseDir.value), path);
      RequestedAbsolute(r, userHome, text);
      WalkFrom(r.baseDir.value, path);
    }
  }

  /** A tilde stands for the home directory, if that is known. */
  lemma RequestedHome(r: Resolver, userHome: Option<string>, home: Option<string>, slash: string, rest: string)
    requires home == (if r.home == "" then userHome else Some(r.home)) && slash in {"/", "\\"}
    requires home.Some? ==> Trimmed(home.value) && !OfHome(home.value)
    requires rest == "" || !IsSpace(rest[|rest| - 1])
    ensures Requested(r, userHome, "~") == if home.None? then None else Requested(r, userHome, home.value)
    ensures Requested(r, userHome, "~" + slash + rest) ==
              if home.None? then None else Requested(r, userHome, home.value + "/" + rest)
  {
    TildeExpands(r, userHome, home, slash, rest);
    TrimmedStays("~");
    if home.Some? {
      TrimmedStays(home.value);
      TrimmedJoin(home.value, rest);
      TrimmedStays(home.value + "/" + rest);
      JoinedIsNotOfHome(home.value, rest);
    }
  }

  lemma TildeExpands(r: Resolver, userHome: Option<string>, home: Option<string>, slash: string, rest: string)
    requires home == (if r.home == "" then userHome else Some(r.home)) && slash in {"/", "\\"}
    requires rest == "" || !IsSpace(rest[|rest| - 1])
    ensures Expand(r, userHome, "~" + slash + rest) == if home.None? then None else Some(home.value + "/" + rest)
  {
    var text := "~" + slash + rest;
    assert text[0] == '~' && text[2..] == rest && (rest == "" ==> text[|text| - 1] == slash[0]);
    assert !IsSpace('~') && !IsSpace('/') && !IsSpace('\\');
    TrimmedStays(text);
    assert "~/" <= text || "~\\" <= text;
  }

  lemma JoinedIsNotOfHome(home: string, rest: string)
    requires Trimmed(home) && !OfHome(home)
    ensures !OfHome(home + "/" + rest)
  {
    var text := home + "/" + rest;
    assert text[0] == home[0];
    if |home| == 1 {
      assert home == [home[0]];
    } else {
      assert text[1] == home[1];
    }
  }

  // ---- Resolving a result again -------------------------------------------------------------

  lemma SplitBodyTail(up: Path, tail: string)
    requires Canonical(up) && '/' !in tail
    ensures Split(Body(up) + "/" + tail) == [""] + up + [tail]
  {
    SplitJoin(Body(up), tail);
    SplitName(tail, "");
    assert tail + "" == tail;
    if up != [] { SplitBody(up); }
  }

  lemma WalkSnoc(base: Path, pieces: seq<string>, last: string)
    ensures Walk(base, pieces + [last]) == Push(Walk(base, pieces), last)
  {
    WalkConcat(base, pieces, [last]);
  }

  /** Trailing space is cut off the last name only. */
  lemma {:induction false} TrimAfterSlash(front: string, last: string)
    ensures TrimRight(front + "/" + last) == front + "/" + TrimRight(last)
    ensures TrimRight(last) <= last
    decreases |last|
  {
    var text := front + "/" + last;
    if last != "" && IsSpace(last[|last| - 1]) {
      assert text[..|text| - 1] == front + "/" + last[..|last| - 1];
      TrimAfterSlash(front, last[..|last| - 1]);
    }
  }

  /** What Resolve makes of the text of a path: its last name without trailing space. */
  lemma RenderedRequest(r: Resolver, userHome: Option<string>, up: Path, last: string)
    requires Canonical(up) && IsName(last)
    ensures Requested(r, userHome, Render(up + [last])) == Some(Push(up, TrimRight(last)))
  {
    var text := Render(up + [last]);
    BodySnoc(up, last);
    TrimAfterSlash(Body(up), last);
    var trimmed := Body(up) + "/" + TrimRight(last);
    assert text[0] == '/' && TrimLeft(text) == text;
    assert TrimSpace(text) == trimmed;
    assert trimmed[0] == '/' by { if up != [] { assert Body(up)[0] == '/'; } }
    SplitBodyTail(up, TrimRight(last));
    var pieces := [""] + up;
    WalkSnoc([], pieces, TrimRight(last));
    assert pieces[1..] == up;
    WalkNames([], up);
    assert [] + up == up;
  }

  /** The text of a result is read back as that result exactly when its last name does not end in space. */
  lemma ReadBackIff(r: Resolver, userHome: Option<string>, up: Path, last: string)
    requires Canonical(up) && IsName(last)
    ensures Requested(r, userHome, Render(up + [last])) == Some(up + [last]) <==> !IsSpace(last[|last| - 1])
  {
    RenderedRequest(r, userHome, up, last);
    var trimmed := TrimRight(last);
    if IsSpace(last[|last| - 1]) {
      TrimAfterSlash("", last[..|last| - 1]);
      assert |trimmed| < |last|;
      assert |Push(up, trimmed)| == |up| + 1 ==> Push(up, trimmed)[|up|] == trimmed;
      assert (up + [last])[|up|] == last;
    }
  }

  /** A trailing slash protects the space: every canonical path is the reading of some request. */
  lemma SlashKeepsSpace(r: Resolver, userHome: Option<string>, p: Path)
    requires Canonical(p) && p != []
    ensures Requested(r, userHome, Render(p) + "/") == Some(p)
  {
    var text := Body(p) + "/" + "";
    assert Render(p) + "/" == text;
    assert text[0] == '/' && TrimLeft(text) == text && TrimRight(text) == text;
    SplitBodyTail(p, "");
    WalkSnoc([], [""] + p, "");
    assert ([""] + p)[1..] == p;
    WalkNames([], p);
    assert [] + p == p;
  }

  /**
   Feeding the text of a result back to Resolve gives the same result exactly when its last name does not
   end in space, or the path without that space resolves to the result too, which takes a link.
   */
  lemma ResolveAgainIff(tree: Tree, r: Resolver, userHome: Option<string>, path: string, up: Path, last: string)
    requires WellFormed(tree) && ValidResolver(r) && r.roots != []
    requires Canonical(up) && IsName(last) && Resolve(tree, r, userHome, path) == Ok(up + [last])
    ensures var trimmed := Push(up, TrimRight(last));
            && (Resolve(tree, r, userHome, Render(up + [last])) == Ok(up + [last])
                <==> !IsSpace(last[|last| - 1]) || Resolved(tree, trimmed, 0) == Some(up + [last]))
            && (IsSpace(last[|last| - 1]) && Resolved(tree, trimmed, 0) == Some(up + [last]) ==>
                 Scan(tree, [], trimmed).Follow?)
  {
    ResolveIsSafe(tree, r, userHome, path);
    RenderedRequest(r, userHome, up, last);
    ReadBackIff(r, userHome, up, last);
    if IsSpace(last[|last| - 1]) && Scan(tree, [], Push(up, TrimRight(last))).Settled? {
      ScanSettles(tree, [], Push(up, TrimRight(last)));
      assert [] + Push(up, TrimRight(last)) == Push(up, TrimRight(last));
    }
  }

  /** A file system with nothing in it, and a resolver that allows all of it. */
  ghost predicate Unrestricted(tree: Tree, r: Resolver) {
    tree == Tree(map[[] := Directory], {}) && r.roots == [[]] && ValidResolver(r)
  }

  lemma NothingSettles(tree: Tree, p: Path)
    requires tree == Tree(map[[] := Directory], {})
    ensures Resolved(tree, p, 0) == Some(p)
  {
    if p != [] {
      var next := [] + [p[0]];
      assert next[..0] == [] && next != [] && Lstat(tree, next) == NotExist;
      assert next + p[1..] == p;
    }
  }

  lemma AnythingGoes(tree: Tree, r: Resolver, userHome: Option<string>, path: string, p: Path)
    requires Unrestricted(tree, r) && Canonical(p) && Requested(r, userHome, path) == Some(p)
    ensures Resolve(tree, r, userHome, path) == Ok(p)
  {
    NothingSettles(tree, p);
    CheckedIsUnder(r, p);
    assert r.roots[0] <= p;
  }

  lemma TrimShortens(last: string)
    requires last != "" && IsSpace(last[|last| - 1])
    ensures TrimRight(last) != last
  {
    TrimAfterSlash("", last[..|last| - 1]);
  }

  lemma SpacedIsAResult(tree: Tree, r: Resolver, userHome: Option<string>, last: string)
    requires Unrestricted(tree, r) && IsName(last)
    ensures Resolve(tree, r, userHome, Render([last]) + "/") == Ok([last])
  {
    SlashKeepsSpace(r, userHome, [last]);
    AnythingGoes(tree, r, userHome, Render([last]) + "/", [last]);
  }

  lemma TextIsTrimmed(tree: Tree, r: Resolver, userHome: Option<string>, last: string)
    requires Unrestricted(tree, r) && IsName(last) && IsName(TrimRight(last))
    ensures Resolve(tree, r, userHome, Render([last])) == Ok([TrimRight(last)])
  {
    RenderedRequest(r, userHome, [], last);
    assert [] + [last] == [last] && Push([], TrimRight(last)) == [TrimRight(last)];
    AnythingGoes(tree, r, userHome, Render([last]), [TrimRight(last)]);
  }

  /** There every name that ends in space is a result, and its text gives another one. */
  lemma SpacedResultIsLost(tree: Tree, r: Resolver, userHome: Option<string>, last: string)
    requires Unrestricted(tree, r) && IsName(last) && IsSpace(last[|last| - 1]) && IsName(TrimRight(last))
    ensures Resolve(tree, r, userHome, Render([last]) + "/") == Ok([last])
    ensures Resolve(tree, r, userHome, Render([last])) == Ok([TrimRight(last)]) && TrimRight(last) != last
  {
    SpacedIsAResult(tree, r, userHome, last);
    TextIsTrimmed(tree, r, userHome, last);
    TrimShortens(last);
  }

  lemma SpacedText()
    ensures Render(["a "]) + "/" == "/a /" && TrimRight("a ") == "a"
  {
    assert Body(["a "][1..]) == "";
    assert "a "[..1] == "a" && !IsSpace('a') && TrimRight("a") == "a";
  }

  /** For one: "/a /" resolves to the name "a ", and the text of that to the name "a". */
  lemma SpacedNameIsLost(tree: Tree, r: Resolver, userHome: Option<string>)
    requires Unrestricted(tree, r)
    ensures Resolve(tree, r, userHome, "/a /") == Ok(["a "]) && Resolve(tree, r, userHome, Render(["a "])) == Ok(["a"])
  {
    SpacedText();
    SpacedResultIsLost(tree, r, userHome, "a ");
  }
}
