/**
 The grep-style printer of clients/cli/history_search_command.go. It sees one line at a time and
 keeps only a few lines; what it has printed is compared with a description over all lines seen.
 */
module ContextPrinter {
  import opened Prelude

  /** A history line; `hit` says that the pattern matched it. */
  datatype Line = Line(id: nat, text: string, hit: bool)

  datatype Options = Options(before: nat, after: nat, maxCount: nat)

  /** Printed output: the separator line, or a line with ':' (a counted match) or '-' (context). */
  datatype Item = Gap | Row(id: nat, counted: bool, text: string)

  // ---- What should be printed ---------------------------------------------------------------

  function Hits(lines: seq<Line>): nat {
    if lines == [] then 0 else Hits(lines[..|lines| - 1]) + (if lines[|lines| - 1].hit then 1 else 0)
  }

  /** A match that counts: any match, or one of the first maxCount. */
  predicate Counted(o: Options, lines: seq<Line>, m: int) {
    0 <= m < |lines| && lines[m].hit && (o.maxCount == 0 || Hits(lines[..m]) < o.maxCount)
  }

  /** Line `i` is within the context of counted match `m`. */
  predicate Near(o: Options, m: int, i: int) {
    m - o.before <= i <= m + o.after
  }

  predicate Shown(o: Options, lines: seq<Line>, i: int) {
    exists m :: 0 <= m < |lines| && Counted(o, lines, m) && Near(o, m, i)
  }

  /** The indices below n that are shown, in increasing order. */
  function ShownBelow(o: Options, lines: seq<Line>, n: nat): seq<nat> {
    if n == 0 then []
    else ShownBelow(o, lines, n - 1) + (if Shown(o, lines, n - 1) then [n - 1] else [])
  }

  /** The chosen lines in order, with a gap marker wherever indices jump. */
  function Layout(o: Options, lines: seq<Line>, chosen: seq<nat>): seq<Item>
    requires forall k :: 0 <= k < |chosen| ==> chosen[k] < |lines|
  {
    if chosen == [] then []
    else
      var k := |chosen| - 1;
      var i := chosen[k];
      Layout(o, lines, chosen[..k])
      + (if 0 < k && chosen[k - 1] + 1 < i then [Gap] else [])
      + [Row(lines[i].id, Counted(o, lines, i), lines[i].text)]
  }

  lemma {:induction false} ShownBelowBounds(o: Options, lines: seq<Line>, n: nat)
    ensures forall k :: 0 <= k < |ShownBelow(o, lines, n)| ==> ShownBelow(o, lines, n)[k] < n
    ensures forall i :: i in ShownBelow(o, lines, n) <==> 0 <= i < n && Shown(o, lines, i)
  {
    if n > 0 { ShownBelowBounds(o, lines, n - 1); }
  }

  function Expected(o: Options, lines: seq<Line>): seq<Item> {
    ShownBelowBounds(o, lines, |lines|);
    Layout(o, lines, ShownBelow(o, lines, |lines|))
  }

  // ---- How a further line changes it --------------------------------------------------------

  lemma CountedInLonger(o: Options, lines: seq<Line>, line: Line, m: int)
    requires m < |lines|
    ensures Counted(o, lines + [line], m) <==> Counted(o, lines, m)
  {
    if 0 <= m { assert (lines + [line])[..m] == lines[..m]; }
  }

  lemma ShownInLonger(o: Options, lines: seq<Line>, line: Line, i: int)
    ensures Shown(o, lines + [line], i) <==>
            Shown(o, lines, i) || (Counted(o, lines + [line], |lines|) && Near(o, |lines|, i))
  {
    var longer := lines + [line];
    if m :| 0 <= m < |lines| && Counted(o, lines, m) && Near(o, m, i) {
      CountedInLonger(o, lines, line, m);
    }
    if m :| 0 <= m < |longer| && Counted(o, longer, m) && Near(o, m, i) {
      if m < |lines| { CountedInLonger(o, lines, line, m); }
    }
  }

  /** 1 + the largest shown index below n, or 0. */
  function After(o: Options, lines: seq<Line>, n: nat): nat {
    if n == 0 then 0 else if Shown(o, lines, n - 1) then n else After(o, lines, n - 1)
  }

  lemma {:induction false} AfterIsLast(o: Options, lines: seq<Line>, n: nat)
    ensures After(o, lines, n) <= n
    ensures forall i :: After(o, lines, n) <= i < n ==> !Shown(o, lines, i)
    ensures After(o, lines, n) > 0 ==> Shown(o, lines, After(o, lines, n) - 1)
  {
    if n > 0 && !Shown(o, lines, n - 1) { AfterIsLast(o, lines, n - 1); }
  }

  /** What a counted match at the end adds: the context lines not shown yet, and itself. */
  function Added(from: nat, to: nat): seq<nat>
    requires from <= to
  {
    if from == to then [] else Added(from, to - 1) + [to - 1]
  }

  /** Where the context of a match at the end begins. */
  function ContextStart(o: Options, lines: seq<Line>): nat {
    Max(After(o, lines, |lines|), |lines| - o.before)
  }

  lemma ContextStartBounds(o: Options, lines: seq<Line>)
    ensures After(o, lines, |lines|) <= ContextStart(o, lines) <= |lines|
  {
    AfterIsLast(o, lines, |lines|);
  }

  /** Lines before the context start keep their status: they were shown already, or lie too far back. */
  lemma BeforeStartUnchanged(o: Options, lines: seq<Line>, line: Line, i: nat)
    requires i < ContextStart(o, lines)
    ensures Shown(o, lines + [line], i) <==> Shown(o, lines, i)
  {
    ShownInLonger(o, lines, line, i);
    AfterIsLast(o, lines, |lines|);
    if |lines| - o.before <= i {
      var last := After(o, lines, |lines|) - 1;
      var m :| 0 <= m < |lines| && Counted(o, lines, m) && Near(o, m, last);
      assert Near(o, m, i);
    }
  }

  lemma {:induction false} SameBelow(o: Options, lines: seq<Line>, other: seq<Line>, n: nat)
    requires forall i :: 0 <= i < n ==> (Shown(o, lines, i) <==> Shown(o, other, i))
    ensures ShownBelow(o, lines, n) == ShownBelow(o, other, n)
  {
    if n > 0 { SameBelow(o, lines, other, n - 1); }
  }

  lemma {:induction false} NoneShown(o: Options, lines: seq<Line>, from: nat, n: nat)
    requires from <= n && forall i :: from <= i < n ==> !Shown(o, lines, i)
    ensures ShownBelow(o, lines, n) == ShownBelow(o, lines, from)
  {
    if from < n { NoneShown(o, lines, from, n - 1); }
  }

  lemma {:induction false} AllShown(o: Options, lines: seq<Line>, from: nat, n: nat)
    requires from <= n && forall i :: from <= i < n ==> Shown(o, lines, i)
    ensures ShownBelow(o, lines, n) == ShownBelow(o, lines, from) + Added(from, n)
  {
    if from < n {
      AllShown(o, lines, from, n - 1);
    }
  }

  /** A counted match at the end extends the list of shown lines by its context and itself. */
  lemma MatchExtends(o: Options, lines: seq<Line>, line: Line)
    requires Counted(o, lines + [line], |lines|)
    ensures var start := ContextStart(o, lines);
            && start <= |lines|
            && ShownBelow(o, lines + [line], |lines| + 1) == ShownBelow(o, lines, |lines|) + Added(start, |lines| + 1)
  {
    var longer, start, n := lines + [line], ContextStart(o, lines), |lines|;
    ContextStartBounds(o, lines);
    SameBeforeStart(o, lines, line);
    forall i | start <= i < n + 1 ensures Shown(o, longer, i) { ShownInLonger(o, lines, line, i); }
    AllShown(o, longer, start, n + 1);
  }

  lemma SameBeforeStart(o: Options, lines: seq<Line>, line: Line)
    ensures ContextStart(o, lines) <= |lines|
    ensures ShownBelow(o, lines + [line], ContextStart(o, lines)) == ShownBelow(o, lines, |lines|)
  {
    var longer, start, n := lines + [line], ContextStart(o, lines), |lines|;
    ContextStartBounds(o, lines);
    AfterIsLast(o, lines, n);
    NoneShown(o, lines, start, n);
    forall i | 0 <= i < start
      ensures Shown(o, lines, i) <==> Shown(o, longer, i)
    {
      BeforeStartUnchanged(o, lines, line, i);
    }
    SameBelow(o, lines, longer, start);
  }

  /** Any other line is shown exactly if an earlier match still reaches it, and changes nothing before it. */
  lemma OtherExtends(o: Options, lines: seq<Line>, line: Line)
    requires !Counted(o, lines + [line], |lines|)
    ensures ShownBelow(o, lines + [line], |lines| + 1) ==
            ShownBelow(o, lines, |lines|) + (if Shown(o, lines, |lines|) then [|lines|] else [])
  {
    forall i ensures Shown(o, lines, i) <==> Shown(o, lines + [line], i) { ShownInLonger(o, lines, line, i); }
    SameBelow(o, lines, lines + [line], |lines|);
  }

  lemma {:induction false} LayoutInLonger(o: Options, lines: seq<Line>, line: Line, chosen: seq<nat>)
    requires forall k :: 0 <= k < |chosen| ==> chosen[k] < |lines|
    ensures Layout(o, lines + [line], chosen) == Layout(o, lines, chosen)
  {
    if chosen != [] {
      LayoutInLonger(o, lines, line, chosen[..|chosen| - 1]);
      CountedInLonger(o, lines, line, chosen[|chosen| - 1]);
    }
  }

  lemma LayoutSnoc(o: Options, lines: seq<Line>, chosen: seq<nat>, i: nat)
    requires i < |lines| && forall k :: 0 <= k < |chosen| ==> chosen[k] < |lines|
    ensures Layout(o, lines, chosen + [i]) ==
            Layout(o, lines, chosen)
            + (if chosen != [] && chosen[|chosen| - 1] + 1 < i then [Gap] else [])
            + [Row(lines[i].id, Counted(o, lines, i), lines[i].text)]
  {
    assert (chosen + [i])[..|chosen|] == chosen;
  }

  /** Shown lines are listed once each and in order. */
  lemma {:induction false} ShownIncreasing(o: Options, lines: seq<Line>, n: nat)
    ensures forall j, k :: 0 <= j < k < |ShownBelow(o, lines, n)| ==>
              ShownBelow(o, lines, n)[j] < ShownBelow(o, lines, n)[k]
  {
    if n > 0 {
      ShownIncreasing(o, lines, n - 1);
      ShownBelowBounds(o, lines, n - 1);
    }
  }

  // ---- What the printer's counters mean -----------------------------------------------------

  /** How many lines after the end are still in the context of a counted match. */
  function Remaining(o: Options, lines: seq<Line>): nat {
    if lines == [] then 0
    else if Counted(o, lines, |lines| - 1) then o.after
    else Max(0, Remaining(o, lines[..|lines| - 1]) - 1)
  }

  lemma {:induction false} RemainingReach(o: Options, lines: seq<Line>, d: nat)
    ensures Remaining(o, lines) <= o.after
    ensures Shown(o, lines, |lines| + d) <==> d < Remaining(o, lines)
  {
    if lines != [] {
      var front, last := lines[..|lines| - 1], lines[|lines| - 1];
      assert front + [last] == lines;
      RemainingReach(o, front, d + 1);
      ShownInLonger(o, front, last, |lines| + d);
    }
  }

  /** If the context of a match reaches past the end, the last line is in it too. */
  lemma ReachIsContiguous(o: Options, lines: seq<Line>)
    requires Remaining(o, lines) > 0
    ensures After(o, lines, |lines|) == |lines|
  {
    RemainingReach(o, lines, 0);
    var m :| 0 <= m < |lines| && Counted(o, lines, m) && Near(o, m, |lines|);
    assert Near(o, m, |lines| - 1);
  }

  lemma {:induction false} AfterSame(o: Options, lines: seq<Line>, other: seq<Line>, n: nat)
    requires forall i :: 0 <= i < n ==> (Shown(o, lines, i) <==> Shown(o, other, i))
    ensures After(o, lines, n) == After(o, other, n)
  {
    if n > 0 { AfterSame(o, lines, other, n - 1); }
  }

  lemma HitsSnoc(lines: seq<Line>, line: Line)
    ensures Hits(lines + [line]) == Hits(lines) + (if line.hit then 1 else 0)
    ensures (lines + [line])[..|lines|] == lines
  {
    assert (lines + [line])[..|lines|] == lines;
  }

  /** The number of counted matches. */
  function Matches(o: Options, lines: seq<Line>): nat {
    if o.maxCount == 0 then Hits(lines) else Min(Hits(lines), o.maxCount)
  }

  predicate Stopping(o: Options, lines: seq<Line>) {
    o.maxCount > 0 && Hits(lines) >= o.maxCount
  }

  predicate Done(o: Options, lines: seq<Line>) {
    Stopping(o, lines) && Remaining(o, lines) == 0
  }

  /** A line that is neither counted nor in reach leaves the shown lines alone. */
  lemma UnshownSnoc(o: Options, lines: seq<Line>, line: Line)
    requires !Counted(o, lines + [line], |lines|) && Remaining(o, lines) == 0
    ensures Expected(o, lines + [line]) == Expected(o, lines)
    ensures After(o, lines + [line], |lines| + 1) == After(o, lines, |lines|)
  {
    var longer := lines + [line];
    RemainingReach(o, lines, 0);
    OtherExtends(o, lines, line);
    ShownBelowBounds(o, lines, |lines|);
    LayoutInLonger(o, lines, line, ShownBelow(o, lines, |lines|));
    forall i ensures Shown(o, lines, i) <==> Shown(o, longer, i) { ShownInLonger(o, lines, line, i); }
    AfterSame(o, lines, longer, |lines|);
    assert ShownBelow(o, longer, |longer|) == ShownBelow(o, lines, |lines|);
  }

  /** Once done, whatever follows prints nothing: the caller may stop reading. */
  lemma {:induction false} DoneIsFinal(o: Options, lines: seq<Line>, rest: seq<Line>)
    requires Done(o, lines)
    ensures Expected(o, lines + rest) == Expected(o, lines) && Matches(o, lines + rest) == Matches(o, lines)
    ensures Done(o, lines + rest)
  {
    if rest == [] {
      assert lines + rest == lines;
    } else {
      var shorter, last := lines + rest[..|rest| - 1], rest[|rest| - 1];
      assert lines + rest == shorter + [last];
      DoneIsFinal(o, lines, rest[..|rest| - 1]);
      HitsSnoc(shorter, last);
      UnshownSnoc(o, shorter, last);
    }
  }

  function Rows(items: seq<Item>): nat {
    if items == [] then 0 else Rows(items[..|items| - 1]) + if items[|items| - 1].Row? then 1 else 0
  }

  lemma RowsSnoc(items: seq<Item>, gap: seq<Item>, row: Item)
    requires (gap == [] || gap == [Gap]) && row.Row?
    ensures Rows(items + gap + [row]) == Rows(items) + 1
  {
    assert (items + gap + [row])[..|items + gap|] == items + gap;
    if gap == [] { assert items + gap == items; } else { assert (items + gap)[..|items|] == items; }
  }

  lemma {:induction false} OneRowEach(o: Options, lines: seq<Line>, chosen: seq<nat>)
    requires forall k :: 0 <= k < |chosen| ==> chosen[k] < |lines|
    ensures Rows(Layout(o, lines, chosen)) == |chosen|
  {
    if chosen != [] {
      var k := |chosen| - 1;
      OneRowEach(o, lines, chosen[..k]);
      RowsSnoc(Layout(o, lines, chosen[..k]), if 0 < k && chosen[k - 1] + 1 < chosen[k] then [Gap] else [],
               Row(lines[chosen[k]].id, Counted(o, lines, chosen[k]), lines[chosen[k]].text));
    }
  }

  lemma ExpectedRows(o: Options, lines: seq<Line>)
    ensures Rows(Expected(o, lines)) == |ShownBelow(o, lines, |lines|)|
  {
    ShownBelowBounds(o, lines, |lines|);
    OneRowEach(o, lines, ShownBelow(o, lines, |lines|));
  }

  /** Until then, one more match prints something. */
  lemma NotDonePrints(o: Options, lines: seq<Line>, line: Line)
    requires !Done(o, lines) && line.hit
    ensures Expected(o, lines + [line]) != Expected(o, lines)
  {
    HitsSnoc(lines, line);
    ExpectedRows(o, lines);
    ExpectedRows(o, lines + [line]);
    if Stopping(o, lines) {
      RemainingReach(o, lines, 0);
      OtherExtends(o, lines, line);
    } else {
      MatchExtends(o, lines, line);
      AddedLength(ContextStart(o, lines), |lines| + 1);
    }
  }

  lemma {:induction false} AddedLength(from: nat, to: nat)
    requires from <= to
    ensures |Added(from, to)| == to - from
  {
    if from < to { AddedLength(from, to - 1); }
  }

  /** The printer is done exactly when nothing that could follow would print anything. */
  lemma DoneIff(o: Options, lines: seq<Line>)
    ensures Done(o, lines) <==> forall rest :: Expected(o, lines + rest) == Expected(o, lines)
  {
    if Done(o, lines) {
      forall rest ensures Expected(o, lines + rest) == Expected(o, lines) { DoneIsFinal(o, lines, rest); }
    } else {
      NotDonePrints(o, lines, Line(0, "", true));
    }
  }

  predicate Consecutive(lines: seq<Line>) {
    forall i :: 0 <= i < |lines| ==> lines[i].id == lines[0].id + i
  }

  // ---- The printer's fields, as a value -----------------------------------------------------

  /** What has been written. */
  datatype Sink = Sink(output: seq<Item>, lastOutputID: nat, wroteOutput: bool)

  function Emit(w: Sink, line: Line, matched: bool): Sink {
    Sink(w.output
         + (if w.wroteOutput && line.id > w.lastOutputID + 1 then [Gap] else [])
         + [Row(line.id, matched, line.text)],
         line.id, true)
  }

  function EmitContext(w: Sink, lines: seq<Line>): Sink {
    if lines == [] then w else Emit(EmitContext(w, lines[..|lines| - 1]), lines[|lines| - 1], false)
  }

  /** The window and the counters. */
  datatype Fields = Fields(beforeLines: seq<Line>, afterRemain: nat, matches: nat, stopping: bool, done: bool)

  predicate Counts(f: Fields, line: Line) {
    line.hit && !f.stopping
  }

  function Matched(o: Options, f: Fields): Fields {
    var stopping := o.maxCount > 0 && f.matches + 1 >= o.maxCount;
    Fields([], o.after, f.matches + 1, stopping, if stopping then o.after == 0 else f.done)
  }

  function Reached(f: Fields): Fields
    requires f.afterRemain > 0
  {
    f.(afterRemain := f.afterRemain - 1, done := f.done || (f.stopping && f.afterRemain == 1))
  }

  function HeldBack(o: Options, f: Fields, line: Line): Fields {
    if f.stopping then f.(done := true)
    else
      var held := f.beforeLines + [line];
      f.(beforeLines := held[Max(0, |held| - o.before)..])
  }

  function NextFields(o: Options, f: Fields, line: Line): Fields {
    if Counts(f, line) then Matched(o, f)
    else if f.afterRemain > 0 then Reached(f)
    else HeldBack(o, f, line)
  }

  function NextSink(f: Fields, w: Sink, line: Line): Sink {
    if Counts(f, line) then Emit(EmitContext(w, f.beforeLines), line, true)
    else if f.afterRemain > 0 then Emit(w, line, false)
    else w
  }

  // ---- What they mean -----------------------------------------------------------------------

  /** The lines a match right after the end would show as its context. */
  function Pending(o: Options, lines: seq<Line>): seq<Line> {
    ContextStartBounds(o, lines);
    lines[ContextStart(o, lines)..]
  }

  /** What the fields hold after seeing `lines`. */
  function Meaning(o: Options, lines: seq<Line>): Fields {
    Fields(if Stopping(o, lines) then [] else Pending(o, lines),
           Remaining(o, lines), Matches(o, lines), Stopping(o, lines), Done(o, lines))
  }

  /** What is written when the lines `chosen` have been. */
  function Written(o: Options, lines: seq<Line>, chosen: seq<nat>): Sink
    requires Within(chosen, |lines|)
  {
    Sink(Layout(o, lines, chosen), if chosen == [] then 0 else lines[chosen[|chosen| - 1]].id, chosen != [])
  }

  function Output(o: Options, lines: seq<Line>): Sink {
    ShownBelowBounds(o, lines, |lines|);
    Written(o, lines, ShownBelow(o, lines, |lines|))
  }

  lemma MatchedMeaning(o: Options, lines: seq<Line>, line: Line)
    requires Counts(Meaning(o, lines), line)
    ensures Counted(o, lines + [line], |lines|)
    ensures Meaning(o, lines + [line]) == Matched(o, Meaning(o, lines))
  {
    HitsSnoc(lines, line);
    ShownInLonger(o, lines, line, |lines|);
    assert Near(o, |lines|, |lines|);
    assert After(o, lines + [line], |lines| + 1) == |lines| + 1;
  }

  lemma UncountedKeeps(o: Options, lines: seq<Line>, line: Line)
    requires !line.hit || Stopping(o, lines)
    ensures !Counted(o, lines + [line], |lines|)
    ensures Matches(o, lines + [line]) == Matches(o, lines) && Stopping(o, lines + [line]) == Stopping(o, lines)
    ensures Remaining(o, lines + [line]) == Max(0, Remaining(o, lines) - 1)
  {
    HitsSnoc(lines, line);
  }

  lemma ReachedMeaning(o: Options, lines: seq<Line>, line: Line)
    requires !Counts(Meaning(o, lines), line) && Remaining(o, lines) > 0
    ensures !Counted(o, lines + [line], |lines|) && Shown(o, lines, |lines|)
    ensures Meaning(o, lines + [line]) == Reached(Meaning(o, lines))
  {
    UncountedKeeps(o, lines, line);
    ReachIsContiguous(o, lines);
    RemainingReach(o, lines, 0);
    ShownInLonger(o, lines, line, |lines|);
    assert After(o, lines + [line], |lines| + 1) == |lines| + 1;
  }

  lemma HeldBackStart(o: Options, lines: seq<Line>, line: Line)
    requires !Counted(o, lines + [line], |lines|) && Remaining(o, lines) == 0
    ensures var start, held := ContextStart(o, lines), |lines| - ContextStart(o, lines) + 1;
            start <= |lines| && ContextStart(o, lines + [line]) == start + Max(0, held - o.before)
  {
    ContextStartBounds(o, lines);
    UnshownSnoc(o, lines, line);
  }

  lemma SuffixSnoc(lines: seq<Line>, line: Line, start: nat, keep: nat)
    requires start <= |lines|
    ensures var held := lines[start..] + [line];
            var drop := Max(0, |held| - keep);
            held[drop..] == (lines + [line])[start + drop..]
  {
  }

  lemma PendingSnoc(o: Options, lines: seq<Line>, line: Line)
    requires !Counted(o, lines + [line], |lines|) && Remaining(o, lines) == 0
    ensures var held := Pending(o, lines) + [line];
            Pending(o, lines + [line]) == held[Max(0, |held| - o.before)..]
  {
    HeldBackStart(o, lines, line);
    SuffixSnoc(lines, line, ContextStart(o, lines), o.before);
  }

  lemma HeldBackMeaning(o: Options, lines: seq<Line>, line: Line)
    requires !Counts(Meaning(o, lines), line) && Remaining(o, lines) == 0
    ensures !Counted(o, lines + [line], |lines|) && !Shown(o, lines, |lines|)
    ensures Meaning(o, lines + [line]) == HeldBack(o, Meaning(o, lines), line)
  {
    UncountedKeeps(o, lines, line);
    RemainingReach(o, lines, 0);
    PendingSnoc(o, lines, line);
  }

  lemma EmitWritten(o: Options, lines: seq<Line>, chosen: seq<nat>, i: nat)
    requires Consecutive(lines) && i < |lines| && Within(chosen, |lines|)
    ensures Emit(Written(o, lines, chosen), lines[i], Counted(o, lines, i)) == Written(o, lines, chosen + [i])
  {
    LayoutSnoc(o, lines, chosen, i);
  }

  predicate Within(chosen: seq<nat>, n: nat) {
    forall k :: 0 <= k < |chosen| ==> chosen[k] < n
  }

  lemma {:induction false} AddedWithin(chosen: seq<nat>, from: nat, to: nat, n: nat)
    requires from <= to <= n && Within(chosen, n)
    ensures Within(chosen + Added(from, to), n)
  {
    if from < to {
      AddedWithin(chosen, from, to - 1, n);
      assert chosen + Added(from, to) == chosen + Added(from, to - 1) + [to - 1];
    }
  }

  lemma EmitContextLine(o: Options, lines: seq<Line>, chosen: seq<nat>, i: nat)
    requires Consecutive(lines) && i < |lines| && Within(chosen, |lines|) && !Counted(o, lines, i)
    ensures Within(chosen + [i], |lines|)
    ensures Emit(Written(o, lines, chosen), lines[i], false) == Written(o, lines, chosen + [i])
  {
    EmitWritten(o, lines, chosen, i);
  }

  lemma AddedSnoc(chosen: seq<nat>, from: nat, to: nat)
    requires from <= to
    ensures chosen + Added(from, to + 1) == chosen + Added(from, to) + [to]
  {
  }

  lemma EmitContextSnoc(w: Sink, lines: seq<Line>, from: nat, to: nat)
    requires from < to <= |lines|
    ensures EmitContext(w, lines[from..to]) == Emit(EmitContext(w, lines[from..to - 1]), lines[to - 1], false)
  {
    assert lines[from..to][..to - 1 - from] == lines[from..to - 1];
  }

  lemma {:induction false} EmitContextWritten(o: Options, lines: seq<Line>, chosen: seq<nat>, from: nat, to: nat)
    requires Consecutive(lines) && from <= to <= |lines| && Within(chosen, |lines|)
    requires Within(chosen + Added(from, to), |lines|)
    requires forall i :: from <= i < to ==> !Counted(o, lines, i)
    ensures EmitContext(Written(o, lines, chosen), lines[from..to]) == Written(o, lines, chosen + Added(from, to))
  {
    if from == to {
      assert chosen + Added(from, to) == chosen;
    } else {
      var most := chosen + Added(from, to - 1);
      AddedWithin(chosen, from, to - 1, |lines|);
      EmitContextWritten(o, lines, chosen, from, to - 1);
      EmitContextSnoc(Written(o, lines, chosen), lines, from, to);
      EmitContextLine(o, lines, most, to - 1);
      AddedSnoc(chosen, from, to - 1);
    }
  }

  /** Lines held back are not matches: a match is shown. */
  lemma UncountedBefore(o: Options, lines: seq<Line>, line: Line)
    ensures forall i :: ContextStart(o, lines) <= i < |lines| ==> !Counted(o, lines + [line], i)
  {
    AfterIsLast(o, lines, |lines|);
    forall i | ContextStart(o, lines) <= i < |lines| ensures !Counted(o, lines + [line], i) {
      CountedInLonger(o, lines, line, i);
      assert !Shown(o, lines, i) && Near(o, i, i);
    }
  }

  lemma OutputInLonger(o: Options, lines: seq<Line>, line: Line)
    ensures Within(ShownBelow(o, lines, |lines|), |lines|)
    ensures Output(o, lines) == Written(o, lines + [line], ShownBelow(o, lines, |lines|))
  {
    ShownBelowBounds(o, lines, |lines|);
    LayoutInLonger(o, lines, line, ShownBelow(o, lines, |lines|));
  }

  lemma MatchOutput(o: Options, lines: seq<Line>, line: Line)
    requires Consecutive(lines + [line]) && Counted(o, lines + [line], |lines|)
    ensures ContextStart(o, lines) <= |lines|
    ensures var context := lines[ContextStart(o, lines)..];
            Output(o, lines + [line]) == Emit(EmitContext(Output(o, lines), context), line, true)
  {
    var longer, start, n := lines + [line], ContextStart(o, lines), |lines|;
    var chosen := ShownBelow(o, lines, n);
    OutputInLonger(o, lines, line);
    MatchExtends(o, lines, line);
    UncountedBefore(o, lines, line);
    assert longer[start..n] == lines[start..];
    MatchWritten(o, longer, chosen, start);
  }

  /** Writing a match at the end of `lines` after the context lines from `start` on. */
  lemma MatchWritten(o: Options, lines: seq<Line>, chosen: seq<nat>, start: nat)
    requires Consecutive(lines) && start < |lines| && Within(chosen, |lines|) && Counted(o, lines, |lines| - 1)
    requires forall i :: start <= i < |lines| - 1 ==> !Counted(o, lines, i)
    ensures Within(chosen + Added(start, |lines|), |lines|)
    ensures Emit(EmitContext(Written(o, lines, chosen), lines[start..|lines| - 1]), lines[|lines| - 1], true) ==
            Written(o, lines, chosen + Added(start, |lines|))
  {
    var n := |lines| - 1;
    AddedWithin(chosen, start, n, |lines|);
    EmitContextWritten(o, lines, chosen, start, n);
    AddedSnoc(chosen, start, n);
    EmitLast(o, lines, chosen + Added(start, n));
  }

  lemma EmitLast(o: Options, lines: seq<Line>, chosen: seq<nat>)
    requires Consecutive(lines) && lines != [] && Within(chosen, |lines|) && Counted(o, lines, |lines| - 1)
    ensures Within(chosen + [|lines| - 1], |lines|)
    ensures Emit(Written(o, lines, chosen), lines[|lines| - 1], true) == Written(o, lines, chosen + [|lines| - 1])
  {
    EmitWritten(o, lines, chosen, |lines| - 1);
  }

  lemma OtherOutput(o: Options, lines: seq<Line>, line: Line)
    requires Consecutive(lines + [line]) && !Counted(o, lines + [line], |lines|)
    ensures Output(o, lines + [line]) ==
            if Shown(o, lines, |lines|) then Emit(Output(o, lines), line, false) else Output(o, lines)
  {
    var chosen := ShownBelow(o, lines, |lines|);
    OutputInLonger(o, lines, line);
    OtherExtends(o, lines, line);
    EmitWritten(o, lines + [line], chosen, |lines|);
    assert chosen + [] == chosen;
  }

  /** One more line keeps fields and output at what all lines so far call for. */
  lemma NextMeaning(o: Options, lines: seq<Line>, line: Line)
    requires Consecutive(lines + [line])
    ensures NextFields(o, Meaning(o, lines), line) == Meaning(o, lines + [line])
    ensures NextSink(Meaning(o, lines), Output(o, lines), line) == Output(o, lines + [line])
  {
    if Counts(Meaning(o, lines), line) {
      MatchedMeaning(o, lines, line);
      MatchOutput(o, lines, line);
    } else if Remaining(o, lines) > 0 {
      ReachedMeaning(o, lines, line);
      OtherOutput(o, lines, line);
    } else {
      HeldBackMeaning(o, lines, line);
      OtherOutput(o, lines, line);
    }
  }

  // ---- The printer --------------------------------------------------------------------------

  class HistoryContextPrinter {
    const o: Options
    var beforeLines: seq<Line>
    var afterRemain: nat
    var matches: nat
    var lastOutputID: nat
    var wroteOutput: bool
    var stopping: bool
    var done: bool
    var output: seq<Item>

    function Window(): Fields
      reads this
    {
      Fields(beforeLines, afterRemain, matches, stopping, done)
    }

    function Printed(): Sink
      reads this
    {
      Sink(output, lastOutputID, wroteOutput)
    }

    /** The printer has seen exactly `lines`. */
    ghost predicate Saw(lines: seq<Line>)
      reads this
    {
      Consecutive(lines) && Window() == Meaning(o, lines) && Printed() == Output(o, lines)
    }

    constructor (options: Options)
      ensures o == options && Saw([])
    {
      o := options;
      beforeLines, afterRemain, matches, lastOutputID := [], 0, 0, 0;
      wroteOutput, stopping, done, output := false, false, false, [];
    }

    method WriteLine(line: Line, matched: bool)
      modifies `output, `lastOutputID, `wroteOutput
      ensures Printed() == Emit(old(Printed()), line, matched)
    {
      if wroteOutput && line.id > lastOutputID + 1 {
        output := output + [Gap];
      }
      output := output + [Row(line.id, matched, line.text)];
      lastOutputID := line.id;
      wroteOutput := true;
    }

    method Update(line: Line)
      modifies this
      ensures Window() == NextFields(o, old(Window()), line)
      ensures Printed() == NextSink(old(Window()), old(Printed()), line)
    {
      if line.hit && !stopping {
        for k := 0 to |beforeLines|
          invariant Window() == old(Window()) && Printed() == EmitContext(old(Printed()), beforeLines[..k])
        {
          assert beforeLines[..k + 1][..k] == beforeLines[..k];
          WriteLine(beforeLines[k], false);
        }
        assert beforeLines[..|beforeLines|] == beforeLines;
        beforeLines := [];
        WriteLine(line, true);
        matches := matches + 1;
        afterRemain := o.after;
        if o.maxCount > 0 && matches >= o.maxCount {
          stopping := true;
          done := afterRemain == 0;
        }
      } else if afterRemain > 0 {
        WriteLine(line, false);
        afterRemain := afterRemain - 1;
        if stopping && afterRemain == 0 {
          done := true;
        }
      } else if stopping {
        done := true;
      } else {
        beforeLines := beforeLines + [line];
        if |beforeLines| > o.before {
          beforeLines := beforeLines[|beforeLines| - o.before..];
        }
      }
    }

    /** One more line: the output is again exactly what all lines so far call for. */
    method Write(ghost seen: seq<Line>, line: Line)
      requires Saw(seen) && Consecutive(seen + [line])
      modifies this
      ensures Saw(seen + [line]) && output == Expected(o, seen + [line])
      ensures done <==> Done(o, seen + [line])
    {
      NextMeaning(o, seen, line);
      Update(line);
    }
  }

  /** A search over a whole history: reading stops as soon as the printer is done, and nothing is missed. */
  method PrintMatches(o: Options, lines: seq<Line>) returns (output: seq<Item>, matches: nat)
    requires Consecutive(lines)
    ensures output == Expected(o, lines) && matches == Matches(o, lines)
  {
    var printer := new HistoryContextPrinter(o);
    var i := 0;
    while i < |lines| && !printer.done
      invariant i <= |lines| && fresh(printer) && printer.o == o && printer.Saw(lines[..i])
      decreases |lines| - i
    {
      assert lines[..i + 1] == lines[..i] + [lines[i]];
      printer.Write(lines[..i], lines[i]);
      i := i + 1;
    }
    assert lines[..i] + lines[i..] == lines;
    if printer.done {
      DoneIsFinal(o, lines[..i], lines[i..]);
    } else {
      assert lines[..i] == lines;
    }
    return printer.output, printer.matches;
  }
}
