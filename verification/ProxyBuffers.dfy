/**
 The two flow-control halves of a browser proxy: the upload ring of access/proxy/upload_queue.go
 and the credit window of access/proxy/receive_window.go. The value types say what each call does;
 the classes do it in place, as the program does. `changed` is the one-slot wakeup channel.
 */
module ProxyBuffers {
  import opened Prelude

  // ---- The queue as a byte sequence ---------------------------------------------------------

  datatype Queue = Queue(capacity: nat, contents: seq<byte>, closed: bool, changed: bool)

  datatype EnqueueResult = Queued | EndOfFile | CreditExceeded

  function Enqueue(q: Queue, payload: seq<byte>): (Queue, EnqueueResult) {
    if q.closed then (q, EndOfFile)
    else if |payload| > q.capacity - |q.contents| then (q, CreditExceeded)
    else (q.(contents := q.contents + payload, changed := true), Queued)
  }

  function Consume(q: Queue, count: nat): Queue
    requires count <= |q.contents|
  {
    q.(contents := q.contents[count..])
  }

  function CloseQueue(q: Queue): Queue {
    q.(closed := true, changed := true)
  }

  datatype PeekResult = Closed | Blocked | Bytes(data: seq<byte>)

  /** One look of peek: the oldest bytes, at most `limit` of them. */
  function Peek(q: Queue, limit: nat): PeekResult {
    if q.closed then Closed
    else if q.contents == [] then Blocked
    else Bytes(q.contents[..Min(limit, |q.contents|)])
  }

  // ---- The ring -----------------------------------------------------------------------------

  /** Position of the i-th queued byte in a ring of n cells. */
  function Slot(head: nat, i: nat, n: nat): nat
    requires head < n && i <= n
  {
    if head + i < n then head + i else head + i - n
  }

  lemma SlotIsRemainder(head: nat, i: nat, n: nat)
    requires head < n && i <= n
    ensures (head + i) % n == Slot(head, i, n)
  {
    RemainderOf(head + i, n, if head + i < n then 0 else 1);
  }

  lemma RemainderOf(x: nat, n: nat, q: nat)
    requires 0 < n && q <= 1 && 0 <= x - n * q < n
    ensures x % n == x - n * q
  {
    Remainder(n, x / n, x % n, q, x - n * q);
  }

  /** Quotient and remainder are unique. */
  lemma Remainder(n: int, q: int, r: int, p: int, s: int)
    requires 0 <= r < n && 0 <= s < n && n * q + r == n * p + s
    ensures r == s
  {
    MultipleIsFar(n, q - p);
    assert n * (q - p) == s - r;
  }

  lemma MultipleIsFar(n: int, d: int)
    requires 0 < n
    ensures d == 0 || n <= n * d || n * d <= -n
  {
  }

  class UploadQueue {
    const buffer: array<byte>
    var head: nat
    var size: nat
    var closed: bool
    var changed: bool

    ghost predicate Valid()
      reads this
    {
      head < buffer.Length && size <= buffer.Length
    }

    ghost function View(): Queue
      requires Valid()
      reads this, buffer
    {
      var contents := seq(size, i requires 0 <= i < size reads this, buffer requires Valid() =>
                                  buffer[Slot(head, i, buffer.Length)]);
      Queue(buffer.Length, contents, closed, changed)
    }

    constructor (capacity: nat)
      requires 0 < capacity
      ensures Valid() && fresh(buffer) && View() == Queue(capacity, [], false, false)
    {
      buffer := new byte[capacity](_ => 0);
      head, size, closed, changed := 0, 0, false, false;
    }

    /** The two copies: the part up to the end of the ring, then the part that wraps around. */
    method EnqueuePayload(payload: seq<byte>) returns (result: EnqueueResult)
      requires Valid()
      modifies this`size, this`changed, buffer
      ensures Valid() && (View(), result) == Enqueue(old(View()), payload)
      ensures result == if closed then EndOfFile
                        else if old(size) + |payload| > buffer.Length then CreditExceeded else Queued
      ensures View().contents == if result.Queued? then old(View()).contents + payload else old(View()).contents
      ensures !result.Queued? ==> View() == old(View())
    {
      if closed {
        return EndOfFile;
      }
      if |payload| > buffer.Length - size {
        return CreditExceeded;
      }
      SlotIsRemainder(head, size, buffer.Length);
      var tail := (head + size) % buffer.Length;
      var first := Min(buffer.Length - tail, |payload|);
      forall i | 0 <= i < first { buffer[tail + i] := payload[i]; }
      forall i | 0 <= i < |payload| - first { buffer[i] := payload[first + i]; }
      ghost var before := old(View()).contents;
      size := size + |payload|;
      changed := true;
      assert View().contents == before + payload by {
        forall k | 0 <= k < size ensures View().contents[k] == (before + payload)[k] {
          if k < |before| {
            assert View().contents[k] == old(buffer[Slot(head, k, buffer.Length)]);
          }
        }
      }
      return Queued;
    }

    /** One look of peek, copying into the caller's buffer. */
    method PeekInto(into: array<byte>) returns (ended: bool, found: bool, count: nat)
      requires Valid() && into != buffer
      modifies into
      ensures count <= into.Length && into[count..] == old(into[count..])
      ensures ended == closed && found == (!closed && size > 0)
      ensures count == (if found then Min(into.Length, size) else 0) && into[..count] == View().contents[..count]
      ensures match Peek(View(), into.Length)
              case Closed => ended && !found && count == 0
              case Blocked => !ended && !found && count == 0
              case Bytes(data) => !ended && found && into[..count] == data
      ensures View() == old(View())
    {
      if closed {
        return true, false, 0;
      }
      if size == 0 {
        return false, false, 0;
      }
      count := Min(into.Length, size);
      var first := Min(head + count, buffer.Length) - head;
      forall i | 0 <= i < first { into[i] := buffer[head + i]; }
      forall i | first <= i < count { into[i] := buffer[i - first]; }
      assert into[..count] == View().contents[..count];
      return false, true, count;
    }

    /** The caller passes a count it has just peeked. */
    method ConsumeCount(count: nat)
      requires Valid() && count <= size
      modifies this`head, this`size
      ensures Valid() && View() == Consume(old(View()), count)
    {
      SlotIsRemainder(head, count, buffer.Length);
      head := (head + count) % buffer.Length;
      size := size - count;
      assert View().contents == old(View()).contents[count..];
    }

    method Close()
      requires Valid()
      modifies this`closed, this`changed
      ensures Valid() && View() == CloseQueue(old(View()))
      ensures closed && changed && View().contents == old(View()).contents
    {
      closed := true;
      changed := true;
    }
  }

  // ---- The credit window --------------------------------------------------------------------

  datatype Window = Window(maximum: nat, sent: nat, acknowledged: nat, changed: bool)

  function Credit(w: Window): int {
    w.maximum - (w.sent - w.acknowledged)
  }

  predicate MayRecord(w: Window, count: int) {
    0 <= count <= MAX_INT64 - w.sent && count <= Credit(w)
  }

  function RecordSent(w: Window, count: int): Window {
    if MayRecord(w, count) then w.(sent := w.sent + count) else w
  }

  predicate MayAcknowledge(w: Window, offset: int, credit: int) {
    w.acknowledged <= offset <= w.sent && credit == offset - w.acknowledged
  }

  function Acknowledge(w: Window, offset: int, credit: int): Window {
    if MayAcknowledge(w, offset, credit) then w.(acknowledged := offset, changed := w.changed || 0 < credit) else w
  }

  class ReceiveWindow {
    const maximum: nat
    var sent: nat
    var acknowledged: nat
    var changed: bool

    ghost function View(): Window
      reads this
    {
      Window(maximum, sent, acknowledged, changed)
    }

    constructor (size: nat)
      ensures View() == Window(size, 0, 0, false)
    {
      maximum, sent, acknowledged, changed := size, 0, 0, false;
    }

    /** One look of available: how much may be read for sending, or nothing. */
    method Available(limit: nat) returns (granted: nat)
      ensures granted == Max(0, Min(limit, maximum - (sent - acknowledged)))
    {
      var credit := maximum - (sent - acknowledged);
      if credit > 0 {
        return if limit <= credit then limit else credit;
      }
      return 0;
    }

    method Record(count: int) returns (ok: bool)
      modifies this`sent
      ensures ok <==> 0 <= count && old(sent) + count <= MAX_INT64 && old(sent) + count <= acknowledged + maximum
      ensures sent == if ok then old(sent) + count else old(sent)
      ensures ok == MayRecord(old(View()), count) && View() == RecordSent(old(View()), count)
    {
      if count < 0 || count > MAX_INT64 - sent || count > maximum - (sent - acknowledged) {
        return false;
      }
      sent := sent + count;
      return true;
    }

    method AcknowledgeUpTo(offset: int, credit: int) returns (ok: bool)
      modifies this`acknowledged, this`changed
      ensures ok <==> old(acknowledged) <= offset <= sent && credit == offset - old(acknowledged)
      ensures acknowledged == if ok then offset else old(acknowledged)
      ensures changed <==> old(changed) || (ok && 0 < credit)
      ensures ok == MayAcknowledge(old(View()), offset, credit) && View() == Acknowledge(old(View()), offset, credit)
    {
      if offset < acknowledged || offset > sent || credit != offset - acknowledged {
        return false;
      }
      acknowledged := offset;
      if credit > 0 {
        changed := true;
      }
      return true;
    }
  }

  // ---- Against any peer ---------------------------------------------------------------------

  datatype Use = Records(count: int) | Acknowledges(offset: int, credit: int)

  function Used(w: Window, use: Use): Window {
    match use
    case Records(count) => RecordSent(w, count)
    case Acknowledges(offset, credit) => Acknowledge(w, offset, credit)
  }

  function UsedAll(size: nat, uses: seq<Use>): Window {
    if uses == [] then Window(size, 0, 0, false) else Used(UsedAll(size, uses[..|uses| - 1]), uses[|uses| - 1])
  }

  /** The credits that were taken. */
  function Credits(size: nat, uses: seq<Use>): int {
    if uses == [] then 0
    else
      var front, last := uses[..|uses| - 1], uses[|uses| - 1];
      var w := UsedAll(size, front);
      var taken := last.Acknowledges? && MayAcknowledge(w, last.offset, last.credit);
      Credits(size, front) + if taken then last.credit else 0
  }

  /** Whatever a peer acknowledges, at most one window is outstanding, and what is confirmed is the credits taken. */
  lemma {:induction false} WindowHolds(size: nat, uses: seq<Use>)
    ensures var w := UsedAll(size, uses);
            && w.maximum == size && w.acknowledged <= w.sent <= w.acknowledged + size && w.sent <= MAX_INT64
            && w.acknowledged == Credits(size, uses)
  {
    if uses != [] { WindowHolds(size, uses[..|uses| - 1]); }
  }
}
