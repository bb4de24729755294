/**
 Directory listings in pages: access/files/service.go serves a window of the sorted listing and a
 cursor `version:offset` for the next one, and the client's list command follows the cursors.
 */
module Pagination {
  import opened Prelude
  import Decimal

  const LIST_LIMIT_MAX := 500

  // ---- Sorting by name ----------------------------------------------------------------------

  /** Byte-wise order of names. */
  predicate Before(a: string, b: string) {
    a == "" || (b != "" && (a[0] < b[0] || (a[0] == b[0] && Before(a[1..], b[1..]))))
  }

  predicate Sorted(names: seq<string>) {
    forall i, j :: 0 <= i < j < |names| ==> Before(names[i], names[j])
  }

  function Insert(names: seq<string>, name: string): seq<string> {
    if names == [] || Before(names[|names| - 1], name) then names + [name]
    else Insert(names[..|names| - 1], name) + [names[|names| - 1]]
  }

  function Sort(names: seq<string>): seq<string> {
    if names == [] then [] else Insert(Sort(names[..|names| - 1]), names[|names| - 1])
  }

  lemma {:induction false} BeforeTotal(a: string, b: string)
    ensures Before(a, b) || Before(b, a)
    ensures Before(a, b) && Before(b, a) ==> a == b
  {
    if a != "" && b != "" && a[0] == b[0] {
      BeforeTotal(a[1..], b[1..]);
      assert a == [a[0]] + a[1..] && b == [b[0]] + b[1..];
    }
  }

  lemma {:induction false} BeforeTransitive(a: string, b: string, c: string)
    requires Before(a, b) && Before(b, c)
    ensures Before(a, c)
  {
    if a != "" && a[0] == b[0] && b[0] == c[0] {
      BeforeTransitive(a[1..], b[1..], c[1..]);
    }
  }

  lemma {:induction false} InsertSorts(names: seq<string>, name: string)
    requires Sorted(names)
    ensures Sorted(Insert(names, name)) && multiset(Insert(names, name)) == multiset(names) + multiset{name}
  {
    if names != [] {
      var last, front := names[|names| - 1], names[..|names| - 1];
      assert names == front + [last];
      if Before(last, name) {
        forall i | 0 <= i < |names| ensures Before(names[i], name) {
          if i < |names| - 1 { BeforeTransitive(names[i], last, name); }
        }
      } else {
        BeforeTotal(last, name);
        InsertSorts(front, name);
        var inserted := Insert(front, name);
        forall i | 0 <= i < |inserted| ensures Before(inserted[i], last) {
          assert inserted[i] in multiset(inserted);
          if inserted[i] != name { assert inserted[i] in front; }
        }
      }
    }
  }

  lemma {:induction false} SortSorts(names: seq<string>)
    ensures Sorted(Sort(names)) && multiset(Sort(names)) == multiset(names)
  {
    if names != [] {
      var front, last := names[..|names| - 1], names[|names| - 1];
      assert names == front + [last];
      SortSorts(front);
      InsertSorts(Sort(front), last);
    }
  }

  /** Two sorted arrangements of the same names are equal. */
  lemma {:induction false} SortedIsUnique(a: seq<string>, b: seq<string>)
    requires Sorted(a) && Sorted(b) && multiset(a) == multiset(b)
    ensures a == b
    decreases |a|
  {
    assert |a| == |multiset(a)| == |multiset(b)| == |b|;
    if a != [] {
      LastIsLargest(a, b);
      LastIsLargest(b, a);
      var x, y := a[|a| - 1], b[|b| - 1];
      BeforeTotal(x, y);
      DropLast(a);
      DropLast(b);
      SortedIsUnique(a[..|a| - 1], b[..|b| - 1]);
    }
  }

  lemma DropLast(a: seq<string>)
    requires a != []
    ensures multiset(a[..|a| - 1]) == multiset(a) - multiset{a[|a| - 1]}
    ensures a == a[..|a| - 1] + [a[|a| - 1]]
  {
    assert a == a[..|a| - 1] + [a[|a| - 1]];
  }

  lemma LastIsLargest(a: seq<string>, b: seq<string>)
    requires a != [] && Sorted(b) && multiset(a) == multiset(b)
    ensures b != [] && Before(a[|a| - 1], b[|b| - 1])
  {
    assert a[|a| - 1] in multiset(b);
    var i :| 0 <= i < |b| && b[i] == a[|a| - 1];
    if i == |b| - 1 { BeforeTotal(b[i], b[i]); }
  }

  /** The listing does not depend on the order in which the directory is read. */
  lemma ReadOrderIsIrrelevant(read: seq<string>, again: seq<string>)
    requires multiset(read) == multiset(again)
    ensures Sort(read) == Sort(again)
  {
    SortSorts(read);
    SortSorts(again);
    SortedIsUnique(Sort(read), Sort(again));
  }

  lemma SortKeepsLength(read: seq<string>)
    ensures |Sort(read)| == |read|
  {
    SortSorts(read);
    assert |Sort(read)| == |multiset(Sort(read))| == |multiset(read)| == |read|;
  }

  // ---- Cursors ------------------------------------------------------------------------------

  function Cursor(version: int, offset: int): string {
    Decimal.Format(version) + ":" + Decimal.Format(offset)
  }

  /** Index of the first ':' from `from` on, or the length. */
  function Colon(s: string, from: nat): (i: nat)
    requires from <= |s|
    ensures from <= i <= |s|
    decreases |s| - from
  {
    if from == |s| || s[from] == ':' then from else Colon(s, from + 1)
  }

  lemma {:induction false} FirstColon(s: string, at: nat, from: nat)
    requires from <= at < |s| && s[at] == ':' && forall i :: from <= i < at ==> s[i] != ':'
    ensures Colon(s, from) == at
    decreases at - from
  {
    if from < at { FirstColon(s, at, from + 1); }
  }

  /** The offset a cursor stands for, or nothing if it is malformed or of another version. */
  function DecodeCursor(cursor: string, version: int): Option<int> {
    if cursor == "" then Some(0)
    else
      var i := Colon(cursor, 0);
      if i == |cursor| then None
      else if Decimal.Parse(cursor[..i]) != Some(version) then None
      else Decimal.Parse(cursor[i + 1..])
  }

  /** A cursor is a version and an offset around its first colon; the empty one stands for the start. */
  lemma CursorMeans(version: string, offset: string, current: int)
    requires ':' !in version
    ensures DecodeCursor("", current) == Some(0)
    ensures DecodeCursor(version + ":" + offset, current) ==
              if Decimal.Parse(version) == Some(current) then Decimal.Parse(offset) else None
    ensures version != "" ==> DecodeCursor(version, current) == None
  {
    var cursor := version + ":" + offset;
    FirstColon(cursor, |version|, 0);
    assert cursor[..|version|] == version && cursor[|version| + 1..] == offset;
    NoColon(version, 0);
  }

  lemma {:induction false} NoColon(s: string, from: nat)
    requires from <= |s| && ':' !in s
    ensures Colon(s, from) == |s|
    decreases |s| - from
  {
    if from < |s| { NoColon(s, from + 1); }
  }

  predicate Int64(v: int) {
    -MAX_INT64 - 1 <= v <= MAX_INT64
  }

  /** A cursor is read back under its own version and refused under every other. */
  lemma CursorRoundTrip(version: int, offset: int, current: int)
    requires Int64(version) && Int64(offset)
    ensures Cursor(version, offset) != ""
    ensures DecodeCursor(Cursor(version, offset), current) == if current == version then Some(offset) else None
  {
    var cursor, v := Cursor(version, offset), Decimal.Format(version);
    Decimal.FormatParses(version);
    Decimal.FormatParses(offset);
    FirstColon(cursor, |v|, 0);
    assert cursor[..|v|] == v;
    assert cursor[|v| + 1..] == Decimal.Format(offset);
  }

  // ---- One page -----------------------------------------------------------------------------

  datatype Reply = Page(entries: seq<string>, next: string) | Refused | Fault

  function Limit(limit: int): nat {
    if limit <= 0 || limit > LIST_LIMIT_MAX then LIST_LIMIT_MAX else limit
  }

  /** `read` is the directory in the order it was read. A slice from a negative offset is a fault. */
  function List(version: int, read: seq<string>, cursor: string, limit: int): Reply {
    var entries := Sort(read);
    match DecodeCursor(cursor, version)
    case None => Refused
    case Some(offset) =>
      if offset > |entries| then Refused
      else if offset < 0 then Fault
      else
        var end := Min(offset + Limit(limit), |entries|);
        Page(entries[offset..end], if end < |entries| then Cursor(version, end) else "")
  }

  predicate Small(names: seq<string>) {
    |names| <= MAX_INT64
  }

  /**
   A page is served exactly for cursors that decode to a position of the listing; it starts there, has as
   many entries as were asked for, up to 500, or all that are left, and its cursor continues where it stops.
   */
  lemma PageContinues(version: int, read: seq<string>, cursor: string, limit: int)
    requires Int64(version) && Small(read)
    ensures var offset := DecodeCursor(cursor, version);
            var reply := List(version, read, cursor, limit);
            && (reply.Page? <==> offset.Some? && 0 <= offset.value <= |read|)
            && (reply.Fault? <==> offset.Some? && offset.value < 0)
            && |Sort(read)| == |read|
            && (reply.Page? ==>
                  var end := offset.value + |reply.entries|;
                  && end <= |read|
                  && reply.entries == Sort(read)[offset.value..end]
                  && |reply.entries| == Min(if 1 <= limit <= 500 then limit else 500, |read| - offset.value)
                  && (reply.next == "" <==> end == |read|)
                  && (reply.next != "" ==> reply.entries != [] && reply.next == Cursor(version, end)
                                           && DecodeCursor(reply.next, version) == Some(end)))
  {
    SortKeepsLength(read);
    var reply := List(version, read, cursor, limit);
    if reply.Page? {
      var end := Min(DecodeCursor(cursor, version).value + Limit(limit), |read|);
      CursorRoundTrip(version, end, version);
    }
  }

  /** A cursor that a client makes up with a negative position, such as "0:-1", is a fault and not a refusal. */
  lemma NegativeCursorFaults(version: int, read: seq<string>, offset: int, limit: int)
    requires Int64(version) && Int64(offset) && offset < 0
    ensures List(version, read, Cursor(version, offset), limit) == Fault
    ensures Cursor(0, -1) == "0:-1"
  {
    CursorRoundTrip(version, offset, version);
  }

  /** A cursor handed out for one state of the directory is refused once the version has changed. */
  lemma StaleCursorIsRefused(version: int, read: seq<string>, cursor: string, limit: int, newer: int,
                             readNow: seq<string>)
    requires Int64(version) && Small(read) && newer != version
    requires List(version, read, cursor, limit).Page? && List(version, read, cursor, limit).next != ""
    ensures List(newer, readNow, List(version, read, cursor, limit).next, limit) == Refused
  {
    PageContinues(version, read, cursor, limit);
    var end := DecodeCursor(cursor, version).value + |List(version, read, cursor, limit).entries|;
    CursorRoundTrip(version, end, newer);
  }

  // ---- Following the cursors ----------------------------------------------------------------

  datatype Outcome = Listed(items: seq<string>, next: string) | ListFailed | RepeatedCursor | Usage

  /** Request i finds the directory read in the order readdir(i); the directory itself does not change. */
  ghost predicate Reads(readdir: nat -> seq<string>, names: seq<string>) {
    forall i :: multiset(readdir(i)) == multiset(names)
  }

  lemma SameListing(readdir: nat -> seq<string>, names: seq<string>, i: nat)
    requires Reads(readdir, names)
    ensures Sort(readdir(i)) == Sort(names) && |readdir(i)| == |names| == |Sort(names)|
  {
    assert multiset(readdir(i)) == multiset(names);
    ReadOrderIsIrrelevant(readdir(i), names);
    SortSorts(names);
    assert |readdir(i)| == |multiset(readdir(i))| == |names| == |multiset(names)|
        == |multiset(Sort(names))| == |Sort(names)|;
  }

  /** A cursor that denotes a position of a listing of length n. */
  predicate Denotes(cursor: string, version: int, n: nat) {
    var at := DecodeCursor(cursor, version);
    at.Some? && 0 <= at.value <= n
  }

  /** The items so far run from `start` to where `next` points; cursors seen point no further. */
  ghost predicate Progress(version: int, listing: seq<string>, start: nat, items: seq<string>, next: string,
                           seen: set<string>) {
    && Denotes(next, version, |listing|)
    && start <= DecodeCursor(next, version).value
    && items == listing[start..DecodeCursor(next, version).value]
    && (forall c :: c in seen ==> Denotes(c, version, DecodeCursor(next, version).value))
  }

  lemma PageProgress(version: int, names: seq<string>, read: seq<string>, limit: int,
                     start: nat, items: seq<string>, next: string, seen: set<string>)
    requires Int64(version) && Small(names) && multiset(read) == multiset(names)
    requires Progress(version, Sort(names), start, items, next, seen)
    ensures var reply := List(version, read, next, limit);
            && reply == List(version, names, next, limit)
            && reply.Page?
            && (reply.next == "" ==> items + reply.entries == Sort(names)[start..])
            && (reply.next != "" ==>
                  && reply.next !in seen
                  && Progress(version, Sort(names), start, items + reply.entries, reply.next, seen + {reply.next})
                  && DecodeCursor(next, version).value < DecodeCursor(reply.next, version).value)
  {
    ReadOrderIsIrrelevant(read, names);
    PageContinues(version, names, next, limit);
    var reply, at := List(version, names, next, limit), DecodeCursor(next, version).value;
    Stitch(Sort(names), start, at, at + |reply.entries|);
    if reply.next != "" {
      CursorsAhead(version, seen, at, reply.next);
    }
  }

  lemma Stitch(listing: seq<string>, start: nat, at: nat, end: nat)
    requires start <= at <= end <= |listing|
    ensures listing[start..at] + listing[at..end] == listing[start..end]
    ensures end == |listing| ==> listing[start..end] == listing[start..]
  {
  }

  lemma CursorsAhead(version: int, seen: set<string>, at: nat, next: string)
    requires forall c :: c in seen ==> Denotes(c, version, at)
    requires DecodeCursor(next, version).Some? && at < DecodeCursor(next, version).value
    ensures next !in seen
    ensures forall c :: c in seen + {next} ==> Denotes(c, version, DecodeCursor(next, version).value)
  {
  }

  lemma NoPage(version: int, names: seq<string>, read: seq<string>, cursor: string, limit: int)
    requires Int64(version) && Small(names) && multiset(read) == multiset(names) && !Denotes(cursor, version, |names|)
    ensures !List(version, read, cursor, limit).Page?
  {
    ReadOrderIsIrrelevant(read, names);
    PageContinues(version, names, cursor, limit);
  }

  /**
   The list command from any cursor. With `all` it ends, never meets a repeated cursor, and returns
   the rest of the listing, each entry once and in order; otherwise it returns one page.
   */
  method ListCommand(version: int, names: seq<string>, readdir: nat -> seq<string>, cursor: string, limit: int,
                     all: bool)
    returns (r: Outcome)
    requires Int64(version) && Small(names) && Reads(readdir, names)
    ensures r.Usage? <==> limit <= 0 || limit > 10000
    ensures r != RepeatedCursor
    ensures !r.Usage? ==> (r.Listed? <==> Denotes(cursor, version, |Sort(names)|))
    ensures r.Listed? && all ==> r.items == Sort(names)[DecodeCursor(cursor, version).value..] && r.next == ""
    ensures r.Listed? && !all ==> List(version, names, cursor, limit) == Page(r.items, r.next)
  {
    if limit <= 0 || limit > 10000 {
      return Usage;
    }
    var items, next, seen, requests := [], cursor, {}, 0;
    ghost var listing := Sort(names);
    SameListing(readdir, names, 0);
    ghost var start := if Denotes(cursor, version, |listing|) then DecodeCursor(cursor, version).value else 0;
    while true
      invariant Denotes(cursor, version, |listing|) ==> Progress(version, listing, start, items, next, seen)
      invariant !Denotes(cursor, version, |listing|) ==> next == cursor
      invariant all || (next == cursor && items == [])
      decreases if Denotes(next, version, |listing|) then |listing| - DecodeCursor(next, version).value else 0
    {
      var read := readdir(requests);
      assert multiset(read) == multiset(names);
      if Denotes(cursor, version, |listing|) {
        PageProgress(version, names, read, limit, start, items, next, seen);
      } else {
        NoPage(version, names, read, cursor, limit);
      }
      var reply := List(version, read, next, limit);
      requests := requests + 1;
      if !reply.Page? {
        return ListFailed;
      }
      items := items + reply.entries;
      next := reply.next;
      if !all || next == "" {
        break;
      }
      if next in seen {
        return RepeatedCursor;
      }
      seen := seen + {next};
    }
    return Listed(items, next);
  }
}
