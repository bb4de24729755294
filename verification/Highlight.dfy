/**
 Emphasising the matches of a printed line (highlightHistorySearchMatches in
 clients/cli/history_search_command.go): ranges in any order, overlapping, reversed or outside
 the text are sorted, clamped and merged within their own slice, and the text is written around
 them.
 */
module Highlight {
  import opened Prelude

  datatype Range = Range(start: int, end: int)

  /** Output of the writer: a character, or one of the two escape sequences. */
  datatype Token = Char(c: char) | On | Off

  // ---- What should be emphasised ------------------------------------------------------------

  /** Position p of a text of length n lies in one of the ranges. */
  predicate Covered(rs: seq<Range>, n: nat, p: int) {
    0 <= p < n && exists k :: 0 <= k < |rs| && rs[k].start <= p < rs[k].end
  }

  /** One position: its character, opening and closing the emphasis where coverage changes. */
  function Cell(text: string, rs: seq<Range>, p: nat): seq<Token>
    requires p < |text|
  {
    var n := |text|;
    (if Covered(rs, n, p) && !Covered(rs, n, p - 1) then [On] else [])
    + [Char(text[p])]
    + (if Covered(rs, n, p) && !Covered(rs, n, p + 1) then [Off] else [])
  }

  function Cells(text: string, rs: seq<Range>, to: nat): seq<Token>
    requires to <= |text|
  {
    if to == 0 then [] else Cells(text, rs, to - 1) + Cell(text, rs, to - 1)
  }

  function Highlighted(text: string, rs: seq<Range>): seq<Token> {
    Cells(text, rs, |text|)
  }

  function Plain(text: string): seq<Token> {
    seq(|text|, i requires 0 <= i < |text| => Char(text[i]))
  }

  /** The characters alone. */
  function Letters(out: seq<Token>): string {
    if out == [] then ""
    else Letters(out[..|out| - 1]) + (if out[|out| - 1].Char? then [out[|out| - 1].c] else [])
  }

  lemma LettersSnoc(out: seq<Token>, t: Token)
    ensures Letters(out + [t]) == Letters(out) + (if t.Char? then [t.c] else [])
  {
    assert (out + [t])[..|out|] == out;
  }

  lemma LettersOfCell(out: seq<Token>, text: string, rs: seq<Range>, p: nat)
    requires p < |text|
    ensures Letters(out + Cell(text, rs, p)) == Letters(out) + [text[p]]
  {
    LettersMarked(out, text[p],
                  Covered(rs, |text|, p) && !Covered(rs, |text|, p - 1),
                  Covered(rs, |text|, p) && !Covered(rs, |text|, p + 1));
  }

  lemma LettersMarked(out: seq<Token>, c: char, opening: bool, closing: bool)
    ensures var cells := (if opening then [On] else []) + [Char(c)] + (if closing then [Off] else []);
            Letters(out + cells) == Letters(out) + [c]
  {
    var begun := out + (if opening then [On] else []);
    if opening { LettersSnoc(out, On); } else { assert begun == out; }
    LettersSnoc(begun, Char(c));
    var lettered := begun + [Char(c)];
    if closing { LettersSnoc(lettered, Off); } else { assert lettered + [] == lettered; }
    assert out + ((if opening then [On] else []) + [Char(c)] + (if closing then [Off] else []))
        == lettered + (if closing then [Off] else []);
  }

  /** Emphasis adds escape sequences and changes nothing else. */
  lemma {:induction false} CellsKeepText(text: string, rs: seq<Range>, to: nat)
    requires to <= |text|
    ensures Letters(Cells(text, rs, to)) == text[..to]
  {
    if to > 0 {
      CellsKeepText(text, rs, to - 1);
      CellsGrow(text, rs, to - 1);
      assert text[..to] == text[..to - 1] + [text[to - 1]];
    }
  }

  lemma CellsGrow(text: string, rs: seq<Range>, p: nat)
    requires p < |text|
    ensures Letters(Cells(text, rs, p + 1)) == Letters(Cells(text, rs, p)) + [text[p]]
  {
    LettersOfCell(Cells(text, rs, p), text, rs, p);
  }

  /** Reading the output: whether the emphasis is on at its end, and for each character whether it was on there. */
  function Emphasis(out: seq<Token>): (bool, seq<bool>) {
    if out == [] then (false, [])
    else
      var (on, marks) := Emphasis(out[..|out| - 1]);
      match out[|out| - 1]
      case On => (true, marks)
      case Off => (false, marks)
      case Char(_) => (on, marks + [on])
  }

  lemma EmphasisSnoc(out: seq<Token>, t: Token)
    ensures var (on, marks) := Emphasis(out);
            Emphasis(out + [t]) ==
              match t case On => (true, marks) case Off => (false, marks) case Char(_) => (on, marks + [on])
  {
    assert (out + [t])[..|out|] == out;
  }

  lemma EmphasisOfCell(out: seq<Token>, c: char, opening: bool, closing: bool)
    ensures var (on, marks) := Emphasis(out);
            var cells := (if opening then [On] else []) + [Char(c)] + (if closing then [Off] else []);
            Emphasis(out + cells) == ((on || opening) && !closing, marks + [on || opening])
  {
    var begun := out + (if opening then [On] else []);
    if opening { EmphasisSnoc(out, On); } else { assert begun == out; }
    EmphasisSnoc(begun, Char(c));
    var lettered := begun + [Char(c)];
    if closing { EmphasisSnoc(lettered, Off); } else { assert lettered + [] == lettered; }
    assert out + ((if opening then [On] else []) + [Char(c)] + (if closing then [Off] else []))
        == lettered + (if closing then [Off] else []);
  }

  /** Read back, a character is emphasised exactly if one of the ranges covers it. */
  lemma {:induction false} EmphasisIsCoverage(text: string, rs: seq<Range>, to: nat)
    requires to <= |text|
    ensures var (on, marks) := Emphasis(Cells(text, rs, to));
            && on == (Covered(rs, |text|, to - 1) && Covered(rs, |text|, to))
            && |marks| == to && forall p :: 0 <= p < to ==> (marks[p] <==> Covered(rs, |text|, p))
  {
    if to > 0 {
      var n := |text|;
      EmphasisIsCoverage(text, rs, to - 1);
      EmphasisOfCell(Cells(text, rs, to - 1), text[to - 1],
                     Covered(rs, n, to - 1) && !Covered(rs, n, to - 2), Covered(rs, n, to - 1) && !Covered(rs, n, to));
    }
  }

  // ---- Merging, on values -------------------------------------------------------------------

  function Clamp(r: Range, n: nat): Range {
    var start := Max(0, Min(n, r.start));
    Range(start, Max(start, Min(n, r.end)))
  }

  /** One step of the merge: `merged` so far, and the next range. */
  function Add(merged: seq<Range>, r: Range, n: nat): seq<Range> {
    var current := Clamp(r, n);
    var last := |merged| - 1;
    if current.end == current.start then merged
    else if merged != [] && current.start <= merged[last].end then
      merged[last := Range(merged[last].start, Max(merged[last].end, current.end))]
    else merged + [current]
  }

  function Merge(rs: seq<Range>, n: nat): seq<Range> {
    if rs == [] then [] else Add(Merge(rs[..|rs| - 1], n), rs[|rs| - 1], n)
  }

  predicate Sorted(rs: seq<Range>) {
    forall i, j :: 0 <= i < j < |rs| ==> rs[i].start <= rs[j].start
  }

  /** Nonempty segments within the text, in order, no two touching. */
  predicate Segments(rs: seq<Range>, n: nat) {
    && (forall k :: 0 <= k < |rs| ==> 0 <= rs[k].start < rs[k].end <= n)
    && (forall j, k :: 0 <= j < k < |rs| ==> rs[j].end < rs[k].start)
  }

  lemma AddSegments(merged: seq<Range>, r: Range, n: nat)
    requires Segments(merged, n)
    requires merged != [] ==> merged[|merged| - 1].start <= Clamp(r, n).start
    ensures Segments(Add(merged, r, n), n)
  {
  }

  lemma CoveredSnoc(rs: seq<Range>, r: Range, n: nat, p: int)
    ensures Covered(rs + [r], n, p) <==> Covered(rs, n, p) || (0 <= p < n && r.start <= p < r.end)
  {
    var longer := rs + [r];
    if 0 <= p < n && r.start <= p < r.end { assert longer[|rs|] == r; }
    if Covered(rs, n, p) {
      var k :| 0 <= k < |rs| && rs[k].start <= p < rs[k].end;
      assert longer[k] == rs[k];
    }
  }

  lemma AddCovers(merged: seq<Range>, r: Range, n: nat, p: int)
    requires Segments(merged, n)
    requires merged != [] ==> merged[|merged| - 1].start <= Clamp(r, n).start
    ensures Covered(Add(merged, r, n), n, p) <==> Covered(merged, n, p) || (0 <= p < n && r.start <= p < r.end)
  {
    var current, last := Clamp(r, n), |merged| - 1;
    if current.end == current.start {
    } else if merged != [] && current.start <= merged[last].end {
      var joined := Range(merged[last].start, Max(merged[last].end, current.end));
      var front := merged[..last];
      assert merged == front + [merged[last]];
      assert Add(merged, r, n) == front + [joined];
      CoveredSnoc(front, merged[last], n, p);
      CoveredSnoc(front, joined, n, p);
    } else {
      CoveredSnoc(merged, current, n, p);
    }
  }

  /** Merging sorted ranges: same coverage, and disjoint segments that do not touch. */
  lemma {:induction false} MergeIsUnion(rs: seq<Range>, n: nat)
    requires Sorted(rs)
    ensures var merged := Merge(rs, n);
            && Segments(merged, n)
            && (merged != [] ==> merged[|merged| - 1].start <= Clamp(rs[|rs| - 1], n).start)
            && forall p :: Covered(merged, n, p) <==> Covered(rs, n, p)
    ensures rs == [] ==> Merge(rs, n) == []
  {
    if rs != [] {
      var front, r := rs[..|rs| - 1], rs[|rs| - 1];
      var merged := Merge(front, n);
      MergeIsUnion(front, n);
      if front != [] { assert front[|front| - 1] == rs[|rs| - 2]; }
      AddSegments(merged, r, n);
      assert rs == front + [r];
      forall p ensures Covered(Add(merged, r, n), n, p) <==> Covered(rs, n, p) {
        AddCovers(merged, r, n, p);
        CoveredSnoc(front, r, n, p);
      }
    }
  }

  lemma SameRangesSameCover(rs: seq<Range>, other: seq<Range>, n: nat, p: int)
    requires multiset(rs) == multiset(other)
    ensures Covered(rs, n, p) <==> Covered(other, n, p)
  {
    forall r ensures r in rs <==> r in other {
      assert r in rs <==> r in multiset(rs);
      assert r in other <==> r in multiset(other);
    }
    if Covered(rs, n, p) {
      var k :| 0 <= k < |rs| && rs[k].start <= p < rs[k].end;
      assert rs[k] in other;
    }
    if Covered(other, n, p) {
      var k :| 0 <= k < |other| && other[k].start <= p < other[k].end;
      assert other[k] in rs;
    }
  }

  // ---- Writing ------------------------------------------------------------------------------

  lemma PlainSplit(text: string, from: nat, to: nat)
    requires from < to <= |text|
    ensures Plain(text[from..to]) == Plain(text[from..to - 1]) + [Char(text[to - 1])]
  {
  }

  /** A stretch without coverage is written as it is. */
  lemma {:induction false} PlainCells(text: string, rs: seq<Range>, from: nat, to: nat)
    requires from <= to <= |text|
    requires forall p :: from <= p < to ==> !Covered(rs, |text|, p)
    ensures Cells(text, rs, to) == Cells(text, rs, from) + Plain(text[from..to])
  {
    if from < to {
      PlainCells(text, rs, from, to - 1);
      PlainSplit(text, from, to);
    }
  }

  /** A covered stretch after an uncovered position is opened once and stays open. */
  lemma {:induction false} OpenCells(text: string, rs: seq<Range>, from: nat, to: nat)
    requires from < to < |text|
    requires !Covered(rs, |text|, from - 1)
    requires forall p :: from <= p <= to ==> Covered(rs, |text|, p)
    ensures Cells(text, rs, to) == Cells(text, rs, from) + [On] + Plain(text[from..to])
  {
    PlainSplit(text, from, to);
    if from + 1 < to {
      OpenCells(text, rs, from, to - 1);
      assert Covered(rs, |text|, to - 2);
    } else {
      assert Plain(text[from..to - 1]) == [];
    }
  }

  /** A maximal covered stretch is written between one On and one Off. */
  lemma MarkedCells(text: string, rs: seq<Range>, from: nat, to: nat)
    requires from < to <= |text|
    requires !Covered(rs, |text|, from - 1) && !Covered(rs, |text|, to)
    requires forall p :: from <= p < to ==> Covered(rs, |text|, p)
    ensures Cells(text, rs, to) == Cells(text, rs, from) + [On] + Plain(text[from..to]) + [Off]
  {
    PlainSplit(text, from, to);
    if from + 1 < to {
      OpenCells(text, rs, from, to - 1);
      assert Covered(rs, |text|, to - 2);
    } else {
      assert Plain(text[from..to - 1]) == [];
    }
  }

  /** Around segment k: covered within, uncovered from the previous segment's end and just after. */
  lemma SegmentEdges(merged: seq<Range>, n: nat, k: nat)
    requires Segments(merged, n) && k < |merged|
    ensures forall p :: merged[k].start <= p < merged[k].end ==> Covered(merged, n, p)
    ensures forall p :: (if k == 0 then 0 else merged[k - 1].end) <= p < merged[k].start ==> !Covered(merged, n, p)
    ensures !Covered(merged, n, merged[k].start - 1) && !Covered(merged, n, merged[k].end)
  {
  }

  lemma AfterLastSegment(merged: seq<Range>, n: nat)
    requires Segments(merged, n)
    ensures forall p :: (if merged == [] then 0 else merged[|merged| - 1].end) <= p < n ==> !Covered(merged, n, p)
  {
  }

  lemma {:induction false} SameCoverSameCells(text: string, rs: seq<Range>, other: seq<Range>, to: nat)
    requires to <= |text| && forall p :: Covered(rs, |text|, p) <==> Covered(other, |text|, p)
    ensures Cells(text, rs, to) == Cells(text, other, to)
  {
    if to > 0 { SameCoverSameCells(text, rs, other, to - 1); }
  }

  // ---- The in-place algorithm ---------------------------------------------------------------

  /** In order up to `i`, except that element `j` may belong further down. */
  predicate SortedBut(rs: seq<Range>, i: nat, j: nat)
    requires i < |rs|
  {
    forall x, y :: 0 <= x < y <= i && y != j ==> rs[x].start <= rs[y].start
  }

  lemma SwapKeeps(rs: seq<Range>, i: nat, j: nat)
    requires 0 < j <= i < |rs| && SortedBut(rs, i, j) && rs[j].start < rs[j - 1].start
    ensures SortedBut(rs[j := rs[j - 1]][j - 1 := rs[j]], i, j - 1)
    ensures multiset(rs[j := rs[j - 1]][j - 1 := rs[j]]) == multiset(rs)
  {
  }

  /** Moves element i down to its place among the sorted elements before it. */
  method Insert(a: array<Range>, i: nat)
    requires i < a.Length && Sorted(a[..i])
    modifies a
    ensures Sorted(a[..i + 1]) && multiset(a[..]) == multiset(old(a[..]))
  {
    var j := i;
    assert SortedBut(a[..], i, i) by {
      forall x, y | 0 <= x < y < i ensures a[x].start <= a[y].start {
        assert a[..i][x] == a[x] && a[..i][y] == a[y];
      }
    }
    while j > 0 && a[j].start < a[j - 1].start
      invariant 0 <= j <= i
      invariant multiset(a[..]) == multiset(old(a[..]))
      invariant SortedBut(a[..], i, j)
    {
      SwapKeeps(a[..], i, j);
      ghost var swapped := a[..][j := a[j - 1]][j - 1 := a[j]];
      a[j], a[j - 1] := a[j - 1], a[j];
      assert a[..] == swapped;
      j := j - 1;
    }
    SettledIsSorted(a[..], i, j);
    assert a[..i + 1] == a[..][..i + 1];
  }

  lemma SettledIsSorted(rs: seq<Range>, i: nat, j: nat)
    requires j <= i < |rs| && SortedBut(rs, i, j) && (j == 0 || rs[j - 1].start <= rs[j].start)
    ensures Sorted(rs[..i + 1])
  {
    forall x | 0 <= x < j ensures rs[x].start <= rs[j].start {
      if x < j - 1 { assert rs[x].start <= rs[j - 1].start; }
    }
  }

  method SortByStart(a: array<Range>)
    modifies a
    ensures Sorted(a[..]) && multiset(a[..]) == multiset(old(a[..]))
  {
    for i := 0 to a.Length
      invariant Sorted(a[..i]) && multiset(a[..]) == multiset(old(a[..]))
    {
      Insert(a, i);
    }
    assert a[..a.Length] == a[..];
  }

  /** Merges within the array: the first `count` elements become the segments. */
  method MergeInPlace(a: array<Range>, n: nat) returns (count: nat)
    modifies a
    ensures count <= a.Length && a[..count] == Merge(old(a[..]), n)
  {
    count := 0;
    for i := 0 to a.Length
      invariant count <= i
      invariant a[..count] == Merge(old(a[..])[..i], n)
      invariant a[i..] == old(a[i..])
    {
      assert old(a[..])[..i + 1][..i] == old(a[..])[..i];
      assert a[i] == a[i..][0];
      var current := Clamp(a[i], n);
      if current.end == current.start {
      } else if count > 0 && current.start <= a[count - 1].end {
        a[count - 1] := Range(a[count - 1].start, Max(a[count - 1].end, current.end));
      } else {
        a[count] := current;
        count := count + 1;
      }
    }
    assert old(a[..])[..a.Length] == old(a[..]);
  }

  method WriteSegments(text: string, merged: seq<Range>) returns (out: seq<Token>)
    requires Segments(merged, |text|)
    ensures out == Highlighted(text, merged)
  {
    out := [];
    var last := 0;
    for k := 0 to |merged|
      invariant last == if k == 0 then 0 else merged[k - 1].end
      invariant 0 <= last <= |text| && out == Cells(text, merged, last)
    {
      var current := merged[k];
      SegmentEdges(merged, |text|, k);
      PlainCells(text, merged, last, current.start);
      MarkedCells(text, merged, current.start, current.end);
      out := out + Plain(text[last..current.start]);
      out := out + [On] + Plain(text[current.start..current.end]) + [Off];
      last := current.end;
    }
    AfterLastSegment(merged, |text|);
    PlainCells(text, merged, last, |text|);
    out := out + Plain(text[last..]);
  }

  /** The line with its matches emphasised: exactly the covered characters, whatever the ranges. */
  method HighlightMatches(text: string, ranges: array<Range>) returns (out: seq<Token>)
    modifies ranges
    ensures out == Highlighted(text, old(ranges[..]))
    ensures Letters(out) == text
  {
    ghost var given := ranges[..];
    CellsKeepText(text, given, |text|);
    if ranges.Length == 0 {
      PlainCells(text, given, 0, |text|);
      return Plain(text);
    }
    SortByStart(ranges);
    ghost var ordered := ranges[..];
    var count := MergeInPlace(ranges, |text|);
    MergeIsUnion(ordered, |text|);
    out := WriteSegments(text, ranges[..count]);
    forall p ensures Covered(Merge(ordered, |text|), |text|, p) <==> Covered(given, |text|, p) {
      SameRangesSameCover(ordered, given, |text|, p);
    }
    SameCoverSameCells(text, Merge(ordered, |text|), given, |text|);
  }
}
