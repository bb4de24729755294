/**
 Slash-separated path text: splitting, lexical cleaning and rendering, as path/filepath does it on
 Unix. A path in canonical form is a sequence of names.
 */
module PathNames {

  type Path = seq<string>

  /** A real name: not empty, not "." or "..", no separator. */
  predicate IsName(n: string) {
    n != "" && n != "." && n != ".." && '/' !in n
  }

  predicate Canonical(p: Path) {
    forall i :: 0 <= i < |p| ==> IsName(p[i])
  }

  /** strings.Split(s, "/"): always at least one piece. */
  function Split(s: string): (pieces: seq<string>)
    ensures |pieces| > 0
  {
    if s == "" then [""]
    else
      var rest := Split(s[1..]);
      if s[0] == '/' then [""] + rest else [[s[0]] + rest[0]] + rest[1..]
  }

  function Push(base: Path, piece: string): Path {
    if piece == "" || piece == "." then base
    else if piece == ".." then (if base == [] then [] else base[..|base| - 1])
    else base + [piece]
  }

  /** Lexical cleaning of the pieces of a path, starting from a canonical directory. */
  function Walk(base: Path, pieces: seq<string>): Path
    decreases |pieces|
  {
    if pieces == [] then base else Walk(Push(base, pieces[0]), pieces[1..])
  }

  /** filepath.Clean of an absolute path. */
  function Clean(s: string): Path {
    Walk([], Split(s))
  }

  function Body(p: Path): string {
    if p == [] then "" else "/" + p[0] + Body(p[1..])
  }

  /** The text of a canonical path. */
  function Render(p: Path): string {
    if p == [] then "/" else Body(p)
  }

  // ---- Facts --------------------------------------------------------------------------------

  lemma {:induction false} SplitHasNoSlash(s: string, i: nat)
    requires i < |Split(s)|
    ensures '/' !in Split(s)[i]
  {
    if s != "" {
      var rest := Split(s[1..]);
      if s[0] == '/' {
        if 0 < i { SplitHasNoSlash(s[1..], i - 1); }
      } else {
        SplitHasNoSlash(s[1..], i);
      }
    }
  }

  lemma {:induction false} WalkIsCanonical(base: Path, pieces: seq<string>)
    requires Canonical(base) && forall i :: 0 <= i < |pieces| ==> '/' !in pieces[i]
    ensures Canonical(Walk(base, pieces))
    decreases |pieces|
  {
    if pieces != [] { WalkIsCanonical(Push(base, pieces[0]), pieces[1..]); }
  }

  lemma CleanIsCanonical(s: string)
    ensures Canonical(Clean(s))
  {
    forall i | 0 <= i < |Split(s)| ensures '/' !in Split(s)[i] { SplitHasNoSlash(s, i); }
    WalkIsCanonical([], Split(s));
  }

  lemma {:induction false} WalkNames(base: Path, names: Path)
    requires Canonical(names)
    ensures Walk(base, names) == base + names
    decreases |names|
  {
    if names != [] {
      WalkNames(base + [names[0]], names[1..]);
      assert base + [names[0]] + names[1..] == base + names;
    } else {
      assert base + names == base;
    }
  }

  /** A name followed by nothing, or by a separator and more text. */
  lemma {:induction false} SplitName(name: string, rest: string)
    requires '/' !in name && (rest == "" || rest[0] == '/')
    ensures Split(name + rest) == if rest == "" then [name] else [name] + Split(rest[1..])
  {
    if name == "" {
      assert name + rest == rest;
    } else {
      assert (name + rest)[1..] == name[1..] + rest;
      SplitName(name[1..], rest);
      assert [name[0]] + name[1..] == name;
    }
  }

  lemma {:induction false} SplitBody(p: Path)
    requires Canonical(p) && p != []
    ensures Split(Body(p)) == [""] + p
  {
    var rest := Body(p[1..]);
    assert Body(p)[1..] == p[0] + rest;
    SplitName(p[0], rest);
    if p[1..] != [] {
      SplitBody(p[1..]);
      assert Split(rest) == [""] + Split(rest[1..]);
      assert Split(rest[1..]) == Split(rest)[1..] == ([""] + p[1..])[1..] == p[1..];
    }
    assert [p[0]] + p[1..] == p;
  }

  /** Rendering a canonical path and cleaning the text gives the path back. */
  lemma CleanRender(p: Path)
    requires Canonical(p)
    ensures Clean(Render(p)) == p
  {
    if p == [] {
      assert "/"[1..] == "" && Split("/") == ["", ""];
      assert ["", ""][1..] == [""] && [""][1..] == [];
    } else {
      SplitBody(p);
      assert ([""] + p)[1..] == p;
      WalkNames([], p);
    }
  }

  // ---- What cleaning does to text -----------------------------------------------------------

  /** The rest of a text after one of its pieces. */
  predicate IsTail(tail: string) {
    tail == "" || tail[0] == '/'
  }

  lemma Assoc(a: string, b: string, c: string)
    ensures a + b + c == a + (b + c)
  {
  }

  lemma {:induction false} SplitJoin(a: string, b: string)
    ensures Split(a + "/" + b) == Split(a) + Split(b)
  {
    if a == "" {
      assert a + "/" + b == "/" + b;
    } else {
      assert (a + "/" + b)[1..] == a[1..] + "/" + b;
      SplitJoin(a[1..], b);
    }
  }

  /** A text with one more piece before its tail. */
  lemma SplitPiece(a: string, piece: string, tail: string)
    requires '/' !in piece && IsTail(tail)
    ensures Split(a + "/" + (piece + tail)) == Split(a) + ([piece] + TailPieces(tail))
  {
    SplitName(piece, tail);
    SplitJoin(a, piece + tail);
  }

  lemma SplitTail(a: string, tail: string)
    requires IsTail(tail)
    ensures Split(a + tail) == Split(a) + TailPieces(tail)
  {
    if tail == "" {
      assert a + tail == a;
    } else {
      assert a + tail == a + "/" + tail[1..];
      SplitJoin(a, tail[1..]);
    }
  }

  function TailPieces(tail: string): seq<string> {
    if tail == "" then [] else Split(tail[1..])
  }

  lemma {:induction false} WalkConcat(base: Path, x: seq<string>, y: seq<string>)
    ensures Walk(base, x + y) == Walk(Walk(base, x), y)
    decreases |x|
  {
    if x == [] {
      assert x + y == y;
    } else {
      assert (x + y)[1..] == x[1..] + y;
      WalkConcat(Push(base, x[0]), x[1..], y);
    }
  }

  /** Cleaning a text goes on from the clean form of its beginning. */
  lemma CleanTail(a: string, tail: string)
    requires IsTail(tail)
    ensures Clean(a + tail) == Walk(Clean(a), TailPieces(tail))
  {
    SplitTail(a, tail);
    WalkConcat([], Split(a), TailPieces(tail));
  }

  lemma CleanPiece(a: string, piece: string, tail: string)
    requires '/' !in piece && IsTail(tail)
    ensures Clean(a + "/" + (piece + tail)) == Walk(Push(Clean(a), piece), TailPieces(tail))
  {
    SplitPiece(a, piece, tail);
    WalkConcat([], Split(a), [piece] + TailPieces(tail));
    assert ([piece] + TailPieces(tail))[1..] == TailPieces(tail);
  }

  lemma CleanPass(a: string, piece: string, tail: string)
    requires piece == "" || piece == "."
    requires IsTail(tail)
    ensures Clean(a + ("/" + piece) + tail) == Clean(a + tail)
  {
    CleanTail(a, tail);
    CleanPiece(a, piece, tail);
    Assoc("/", piece, tail);
    Assoc(a, "/" + piece, tail);
    Assoc(a, "/", piece + tail);
  }

  /** Empty pieces and "." can be left out anywhere. */
  lemma CleanSkips(a: string, tail: string)
    requires IsTail(tail)
    ensures Clean(a + "/" + tail) == Clean(a + tail)
    ensures Clean(a + "/." + tail) == Clean(a + tail)
  {
    CleanPass(a, "", tail);
    CleanPass(a, ".", tail);
    assert "/" + "" == "/" && "/" + "." == "/.";
  }

  lemma CleanUp(b: string, up: Path, name: string, tail: string)
    requires Clean(b) == up + [name] && IsTail(tail)
    ensures Clean(b + "/.." + tail) == Walk(up, TailPieces(tail))
  {
    CleanPiece(b, "..", tail);
    assert b + "/" + (".." + tail) == b + "/.." + tail;
    assert (up + [name])[..|up|] == up;
  }

  /** ".." takes the name before it away, wherever the two stand. */
  lemma CleanDotDot(a: string, name: string, tail: string)
    requires IsName(name) && IsTail(tail)
    ensures Clean(a + "/" + name + "/.." + tail) == Clean(a + tail)
  {
    CleanTail(a, tail);
    CleanName(a, name);
    CleanUp(a + "/" + name, Clean(a), name, tail);
  }

  lemma CleanName(a: string, name: string)
    requires IsName(name)
    ensures Clean(a + "/" + name) == Clean(a) + [name]
  {
    CleanPiece(a, name, "");
    assert a + "/" + (name + "") == a + "/" + name;
  }

  /** At the root it does nothing. */
  lemma CleanDotDotAtRoot(tail: string)
    requires IsTail(tail)
    ensures Clean("/.." + tail) == Clean(tail)
  {
    CleanPiece("", "..", tail);
    CleanTail("", tail);
    assert "" + "/" + (".." + tail) == "/.." + tail && "" + tail == tail;
  }

  // ---- These laws determine it --------------------------------------------------------------

  /** What a reader of filepath.Clean expects of it, on text that is empty or begins with a slash. */
  ghost predicate CleansLexically(f: string -> Path) {
    && (forall p :: Canonical(p) ==> f(Render(p)) == p)
    && (forall a, tail :: IsTail(a) && IsTail(tail) ==> LeavesOut(f, a, "/", tail) && LeavesOut(f, a, "/.", tail))
    && (forall a, name, tail :: IsTail(a) && IsName(name) && IsTail(tail) ==> LeavesOut(f, a, "/" + name + "/..", tail))
    && (forall tail :: IsTail(tail) ==> LeavesOut(f, "", "/..", tail))
  }

  predicate LeavesOut(f: string -> Path, a: string, middle: string, tail: string) {
    f(a + middle + tail) == f(a + tail)
  }

  lemma CleanCleansLexically()
    ensures CleansLexically(Clean)
  {
    forall p | Canonical(p) ensures Clean(Render(p)) == p { CleanRender(p); }
    forall a, tail | IsTail(a) && IsTail(tail)
      ensures LeavesOut(Clean, a, "/", tail) && LeavesOut(Clean, a, "/.", tail)
    {
      CleanSkips(a, tail);
    }
    forall a, name, tail | IsTail(a) && IsName(name) && IsTail(tail)
      ensures LeavesOut(Clean, a, "/" + name + "/..", tail)
    {
      CleanDotDot(a, name, tail);
      assert a + ("/" + name + "/..") + tail == a + "/" + name + "/.." + tail;
    }
    forall tail | IsTail(tail) ensures LeavesOut(Clean, "", "/..", tail) {
      CleanDotDotAtRoot(tail);
      assert "" + "/.." + tail == "/.." + tail && "" + tail == tail;
    }
  }

  lemma {:induction false} BodyIsTail(p: Path)
    ensures IsTail(Body(p))
  {
  }

  lemma {:induction false} BodySnoc(p: Path, name: string)
    ensures Body(p + [name]) == Body(p) + "/" + name
  {
    if p == [] {
      assert Body([name][1..]) == "";
    } else {
      assert (p + [name])[1..] == p[1..] + [name];
      BodySnoc(p[1..], name);
    }
  }

  lemma BodyFirst(c: char, piece: string, rest: Path, text: string)
    requires Body([piece] + rest) == "/" + text
    ensures Body([[c] + piece] + rest) == "/" + ([c] + text)
  {
    assert ([piece] + rest)[1..] == rest && ([[c] + piece] + rest)[1..] == rest;
    assert ("/" + text)[1..] == text && ("/" + piece + Body(rest))[1..] == piece + Body(rest);
    Assoc("/", [c] + piece, Body(rest));
    Assoc([c], piece, Body(rest));
  }

  /** A text that begins with a slash is its pieces, each after a slash. */
  lemma {:induction false} BodySplit(s: string)
    ensures Body(Split(s)) == "/" + s
  {
    if s == "" {
      assert [""][1..] == [];
    } else {
      BodySplit(s[1..]);
      var rest := Split(s[1..]);
      assert s == [s[0]] + s[1..];
      if s[0] == '/' {
        assert ([""] + rest)[1..] == rest;
      } else {
        assert rest == [rest[0]] + rest[1..];
        BodyFirst(s[0], rest[0], rest[1..], s[1..]);
      }
    }
  }

  lemma LawsPass(f: string -> Path, a: string, piece: string, tail: string)
    requires CleansLexically(f) && IsTail(a) && IsTail(tail)
    requires piece == "" || piece == "."
    ensures f(a + ("/" + piece + tail)) == f(a + tail)
  {
    assert "/" + piece == if piece == "" then "/" else "/.";
    assert LeavesOut(f, a, "/", tail) && LeavesOut(f, a, "/.", tail);
    Assoc(a, "/" + piece, tail);
  }

  /** One piece of the text, under the laws. */
  lemma LawsTakePiece(f: string -> Path, base: Path, piece: string, tail: string)
    requires CleansLexically(f) && Canonical(base) && '/' !in piece && IsTail(tail)
    ensures f(Body(base) + ("/" + piece + tail)) == f(Body(Push(base, piece)) + tail)
    ensures Canonical(Push(base, piece))
  {
    if piece == "" || piece == "." {
      BodyIsTail(base);
      LawsPass(f, Body(base), piece, tail);
    } else if piece == ".." {
      LawsTakeDotDot(f, base, tail);
      assert "/" + ".." == "/..";
    } else {
      BodyName(base, piece, tail);
    }
  }

  lemma BodyName(base: Path, name: string, tail: string)
    ensures Body(base) + ("/" + name + tail) == Body(base + [name]) + tail
  {
    BodySnoc(base, name);
    Assoc(Body(base), "/" + name, tail);
    Assoc(Body(base), "/", name);
  }

  lemma LawsTakeDotDot(f: string -> Path, base: Path, tail: string)
    requires CleansLexically(f) && Canonical(base) && IsTail(tail)
    ensures f(Body(base) + ("/.." + tail)) == f(Body(Push(base, "..")) + tail)
  {
    if base == [] {
      assert LeavesOut(f, "", "/..", tail);
      Assoc("", "/..", tail);
    } else {
      var up, name := base[..|base| - 1], base[|base| - 1];
      assert base == up + [name];
      BodyIsTail(up);
      assert LeavesOut(f, Body(up), "/" + name + "/..", tail);
      BodyDotDot(up, name, tail);
    }
  }

  lemma BodyDotDot(up: Path, name: string, tail: string)
    ensures Body(up) + ("/" + name + "/..") + tail == Body(up + [name]) + ("/.." + tail)
  {
    BodyName(up, name, "/..");
    Assoc(Body(up + [name]), "/..", tail);
  }

  lemma {:induction false} LawsWalk(f: string -> Path, base: Path, pieces: seq<string>)
    requires CleansLexically(f) && Canonical(base) && forall i :: 0 <= i < |pieces| ==> '/' !in pieces[i]
    ensures f(Body(base) + Body(pieces)) == Walk(base, pieces)
    decreases |pieces|
  {
    if pieces == [] {
      LawsRead(f, base);
    } else {
      BodyIsTail(pieces[1..]);
      LawsTakePiece(f, base, pieces[0], Body(pieces[1..]));
      LawsWalk(f, Push(base, pieces[0]), pieces[1..]);
    }
  }

  lemma LawsRead(f: string -> Path, base: Path)
    requires CleansLexically(f) && Canonical(base)
    ensures f(Body(base) + Body([])) == base
  {
    assert Body(base) + "" == Body(base);
    assert f(Render(base)) == base;
    if base == [] {
      assert LeavesOut(f, "", "/", "");
      assert "" + "/" + "" == "/" && "" + "" == "";
    }
  }

  /** Nothing else meets these laws. */
  lemma LawsDetermineClean(f: string -> Path, s: string)
    requires CleansLexically(f) && IsTail(s)
    ensures f(s) == Clean(s)
  {
    if s == "" {
      LawsRead(f, []);
      CleanCleansLexically();
      LawsRead(Clean, []);
    } else {
      var pieces := Split(s[1..]);
      BodySplit(s[1..]);
      forall i | 0 <= i < |pieces| ensures '/' !in pieces[i] { SplitHasNoSlash(s[1..], i); }
      LawsWalk(f, [], pieces);
      assert Body([]) + Body(pieces) == s;
      assert Split(s) == [""] + pieces && ([""] + pieces)[1..] == pieces;
    }
  }

  // ---- Containment --------------------------------------------------------------------------

  /** Non-empty names without a separator; folding case keeps this. */
  predicate Plain(p: Path) {
    forall i :: 0 <= i < |p| ==> p[i] != "" && '/' !in p[i]
  }

  /** The string test of withinRoots on two rendered paths. */
  predicate PrefixTest(root: string, candidate: string) {
    || candidate == root
    || (if root != "" && root[|root| - 1] == '/' then root else root + "/") <= candidate
  }

  /** A slash-free name up to a separator can be read off the text. */
  lemma {:induction false} NameIsReadOff(a: string, x: string, b: string, y: string)
    requires '/' !in a && '/' !in b && x != "" && x[0] == '/' && (y == "" || y[0] == '/')
    requires a + x <= b + y
    ensures a == b && x <= y
  {
    assert (a + x)[0] == (b + y)[0];
    assert b != "" ==> (b + y)[0] == b[0];
    assert b == "" ==> b + y == y;
    if a == "" {
      assert a + x == x;
    } else {
      assert (a + x)[0] == a[0];
      assert (a + x)[1..] == a[1..] + x && (b + y)[1..] == b[1..] + y;
      NameIsReadOff(a[1..], x, b[1..], y);
    }
  }

  lemma {:induction false} BodyPrefix(root: Path, p: Path)
    requires Plain(root) && Plain(p)
    ensures Body(root) + "/" <= Body(p) <==> |root| < |p| && root <= p
  {
    if root == [] {
      assert Body(root) + "/" == "/";
    } else if p == [] {
    } else {
      var x, y := Body(root[1..]) + "/", Body(p[1..]);
      assert Body(root) + "/" == "/" + (root[0] + x) && Body(p) == "/" + (p[0] + y);
      BodyPrefix(root[1..], p[1..]);
      if Body(root) + "/" <= Body(p) {
        assert (Body(root) + "/")[1..] == root[0] + x && Body(p)[1..] == p[0] + y;
        NameIsReadOff(root[0], x, p[0], y);
        assert root == [root[0]] + root[1..] && p == [p[0]] + p[1..];
      }
      if |root| < |p| && root <= p {
        assert root[0] == p[0] && root[1..] <= p[1..];
      }
    }
  }

  lemma {:induction false} BodyInjective(a: Path, b: Path)
    requires Plain(a) && Plain(b) && Body(a) == Body(b)
    ensures a == b
  {
    if a != [] && b != [] {
      var x, y := Body(a[1..]) + "/", Body(b[1..]) + "/";
      assert Body(a) + "/" == "/" + (a[0] + x) && Body(b) + "/" == "/" + (b[0] + y);
      assert (Body(a) + "/")[1..] == a[0] + x && (Body(b) + "/")[1..] == b[0] + y;
      NameIsReadOff(a[0], x, b[0], y);
      assert x == y;
      assert Body(a[1..]) == x[..|x| - 1] && Body(b[1..]) == y[..|y| - 1];
      BodyInjective(a[1..], b[1..]);
      assert a == [a[0]] + a[1..] && b == [b[0]] + b[1..];
    }
  }

  lemma LastOfBody(p: Path)
    requires Plain(p) && p != []
    ensures Body(p) != "" && Body(p)[|Body(p)| - 1] != '/'
  {
    if |p| == 1 {
      assert Body(p) == "/" + p[0];
    } else {
      LastOfBody(p[1..]);
    }
  }

  lemma {:induction false} BodyLength(p: Path)
    requires Plain(p)
    ensures |Body(p)| >= 2 * |p|
  {
    if p != [] { BodyLength(p[1..]); }
  }

  /** The string test means component-wise containment. */
  lemma PrefixTestIsContainment(root: Path, p: Path)
    requires Plain(root) && Plain(p)
    ensures PrefixTest(Render(root), Render(p)) <==> root <= p
  {
    BodyLength(root);
    if root == [] {
      if p != [] { assert Body(p)[0] == '/'; }
    } else {
      LastOfBody(root);
      if p != [] {
        BodyPrefix(root, p);
        if Body(p) == Body(root) { BodyInjective(p, root); }
        if |root| == |p| && root <= p { assert root == p; }
      }
    }
  }
}
