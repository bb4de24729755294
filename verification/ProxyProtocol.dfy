/**
 One direction of a browser proxy end to end: a sender that obeys the credit window
 (forwardFromTarget and its window in access/proxy), frames in flight, the upload ring with its
 single consumer (writeUploads), and cumulative acknowledgements on the way back. Every
 interleaving of these parties is a sequence of the events below.
 */
module ProxyProtocol {
  import opened Prelude
  import opened ProxyBuffers

  /** Bytes moved per read or peek. */
  const CHUNK := 32768

  /** forwardFromTarget: before its look at the credit, blocked, holding a grant, or ended. */
  datatype Sender = Checking | AwaitingCredit | Granted(limit: nat) | Stopped

  /**
   writeUploads: before peek, blocked on an empty queue, writing a peeked chunk, having written it, having
   removed it from the queue, or ended.
   */
  datatype Consumer =
    | AtPeek
    | AwaitingData
    | Writing(chunk: seq<byte>)
    | Written(count: nat)
    | Consumed(count: nat)
    | Ended

  datatype Ack = Ack(offset: int, credit: int)

  /** `offset` is what the consumer has removed, `acked` what it has acknowledged. */
  datatype System = System(
    window: Window, sender: Sender, toQueue: seq<seq<byte>>,
    queue: Queue, consumer: Consumer, offset: nat, acked: nat, toSender: seq<Ack>,
    sent: seq<byte>, accepted: seq<byte>, target: seq<byte>, dropped: nat,
    overrun: bool, ackRefused: bool)

  function Initial(capacity: nat): System {
    System(Window(capacity, 0, 0, false), Checking, [], Queue(capacity, [], false, false), AtPeek, 0, 0, [],
           [], [], [], 0, false, false)
  }

  datatype Event =
    | Check
    | SenderWakes
    | SendBytes(data: seq<byte>)
    | DeliverData
    | PeekQueue
    | ConsumerWakes
    | WriteTarget
    | WriteFails(count: nat)
    | ConsumeWritten
    | SendAck
    | SendAckFails
    | DeliverAck
    | CloseProxy

  predicate Enabled(s: System, e: Event) {
    match e
    case Check => s.sender.Checking?
    case SenderWakes => s.sender.AwaitingCredit? && s.window.changed
    case SendBytes(data) => s.sender.Granted? && |data| <= s.sender.limit
    case DeliverData => s.toQueue != []
    case PeekQueue => s.consumer.AtPeek?
    case ConsumerWakes => s.consumer.AwaitingData? && s.queue.changed
    case WriteTarget => s.consumer.Writing?
    case WriteFails(count) => s.consumer.Writing? && count < |s.consumer.chunk|
    case ConsumeWritten => s.consumer.Written? && s.consumer.count <= |s.queue.contents|
    case SendAck => s.consumer.Consumed?
    case SendAckFails => s.consumer.Consumed?
    case DeliverAck => s.toSender != []
    case CloseProxy => true
  }

  function Step(s: System, e: Event): System {
    if !Enabled(s, e) then s
    else match e
      case Check =>
        if 0 < Credit(s.window) then s.(sender := Granted(Min(CHUNK, Credit(s.window))))
        else s.(sender := AwaitingCredit)
      case SenderWakes => s.(sender := Checking, window := s.window.(changed := false))
      case SendBytes(data) =>
        if data == [] then s.(sender := Checking)
        else if !MayRecord(s.window, |data|) then s.(sender := Stopped)
        else s.(sender := Checking, window := RecordSent(s.window, |data|), toQueue := s.toQueue + [data],
                sent := s.sent + data)
      case DeliverData =>
        var payload := s.toQueue[0];
        var (queue, result) := Enqueue(s.queue, payload);
        var t := s.(queue := queue, toQueue := s.toQueue[1..]);
        (match result
         case Queued => t.(accepted := s.accepted + payload)
         case EndOfFile => t.(dropped := s.dropped + |payload|)
         case CreditExceeded => t.(overrun := true, dropped := s.dropped + |payload|))
      case PeekQueue =>
        (match Peek(s.queue, CHUNK)
         case Closed => s.(consumer := Ended)
         case Blocked => s.(consumer := AwaitingData)
         case Bytes(data) => s.(consumer := Writing(data)))
      case ConsumerWakes => s.(consumer := AtPeek, queue := s.queue.(changed := false))
      case WriteTarget => s.(consumer := Written(|s.consumer.chunk|), target := s.target + s.consumer.chunk)
      case WriteFails(count) =>
        s.(consumer := Ended, target := s.target + s.consumer.chunk[..count], queue := CloseQueue(s.queue))
      case ConsumeWritten =>
        var count := s.consumer.count;
        s.(consumer := Consumed(count), queue := Consume(s.queue, count), offset := s.offset + count)
      case SendAck =>
        s.(consumer := AtPeek, acked := s.offset, toSender := s.toSender + [Ack(s.offset, s.consumer.count)])
      case SendAckFails => s.(consumer := Ended, queue := CloseQueue(s.queue))
      case DeliverAck =>
        var ack := s.toSender[0];
        s.(window := Acknowledge(s.window, ack.offset, ack.credit), toSender := s.toSender[1..],
           ackRefused := s.ackRefused || !MayAcknowledge(s.window, ack.offset, ack.credit))
      case CloseProxy => s.(queue := CloseQueue(s.queue))
  }

  function RunFrom(s: System, events: seq<Event>): System {
    if events == [] then s else Step(RunFrom(s, events[..|events| - 1]), events[|events| - 1])
  }

  function Run(capacity: nat, events: seq<Event>): System {
    RunFrom(Initial(capacity), events)
  }

  // ---- The invariant ------------------------------------------------------------------------

  function Flatten(frames: seq<seq<byte>>): seq<byte> {
    if frames == [] then [] else frames[0] + Flatten(frames[1..])
  }

  /** Acknowledgements in flight step from `from` to `to`, each granting what it advances by. */
  ghost predicate AckChain(acks: seq<Ack>, from: int, to: int) {
    if acks == [] then from == to
    else from < acks[0].offset && acks[0].credit == acks[0].offset - from && AckChain(acks[1..], acks[0].offset, to)
  }

  /** The queue holds what was accepted and not consumed; the target has a prefix of what was accepted. */
  ghost predicate DataOk(s: System) {
    && s.offset <= |s.accepted| && s.queue.contents == s.accepted[s.offset..]
    && (match s.consumer
        case AtPeek => s.target == s.accepted[..s.offset]
        case AwaitingData => s.target == s.accepted[..s.offset]
        case Writing(chunk) => s.target == s.accepted[..s.offset] && chunk != [] && chunk <= s.queue.contents
        case Written(count) => 0 < count <= |s.queue.contents| && s.target == s.accepted[..s.offset + count]
        case Consumed(_) => s.target == s.accepted[..s.offset]
        case Ended => s.target <= s.accepted)
  }

  /** Everything recorded as sent is accounted for, and never more than one window is outstanding. */
  ghost predicate CreditOk(s: System) {
    && !s.overrun && !s.ackRefused
    && s.window.maximum == s.queue.capacity
    && s.window.sent == |s.sent| == |s.accepted| + |Flatten(s.toQueue)| + s.dropped
    && (0 < s.dropped ==> s.queue.closed)
    && (!s.queue.closed ==> s.sent == s.accepted + Flatten(s.toQueue))
    && s.accepted <= s.sent
    && s.window.sent - s.window.acknowledged <= s.window.maximum && s.window.acknowledged <= s.window.sent <= MAX_INT64
    && AckChain(s.toSender, s.window.acknowledged, s.acked) && s.window.acknowledged <= s.acked <= s.offset
    && (s.consumer.Consumed? ==> 0 < s.consumer.count && s.acked + s.consumer.count == s.offset)
    && (!s.consumer.Consumed? && !s.consumer.Ended? ==> s.acked == s.offset)
    && (forall i :: 0 <= i < |s.toQueue| ==> s.toQueue[i] != [])
    && (s.sender.Granted? ==> s.sender.limit <= Credit(s.window))
  }

  /** A blocked party that could go on has a wakeup waiting in its channel. */
  ghost predicate WakeupsOk(s: System) {
    && (s.consumer.AwaitingData? && (s.queue.contents != [] || s.queue.closed) ==> s.queue.changed)
    && (s.sender.AwaitingCredit? && 0 < Credit(s.window) ==> s.window.changed)
  }

  ghost predicate Inv(s: System) {
    DataOk(s) && CreditOk(s) && WakeupsOk(s)
  }

  lemma {:induction false} FlattenSnoc(frames: seq<seq<byte>>, data: seq<byte>)
    ensures Flatten(frames + [data]) == Flatten(frames) + data
  {
    if frames == [] {
      assert frames + [data] == [data];
    } else {
      assert (frames + [data])[1..] == frames[1..] + [data];
      FlattenSnoc(frames[1..], data);
    }
  }

  lemma {:induction false} AckChainSnoc(acks: seq<Ack>, from: int, to: int, count: int)
    requires AckChain(acks, from, to) && 0 < count
    ensures AckChain(acks + [Ack(to + count, count)], from, to + count)
  {
    if acks != [] {
      assert (acks + [Ack(to + count, count)])[1..] == acks[1..] + [Ack(to + count, count)];
      AckChainSnoc(acks[1..], acks[0].offset, to, count);
    }
  }

  lemma {:induction false} AckChainBounds(acks: seq<Ack>, from: int, to: int)
    requires AckChain(acks, from, to)
    ensures from <= to && (acks != [] ==> from < acks[0].offset <= to)
  {
    if acks != [] { AckChainBounds(acks[1..], acks[0].offset, to); }
  }

  lemma SendInv(s: System, data: seq<byte>)
    requires Inv(s) && Enabled(s, SendBytes(data))
    ensures Inv(Step(s, SendBytes(data)))
  {
    SendCredit(s, data);
  }

  lemma SendCredit(s: System, data: seq<byte>)
    requires CreditOk(s) && Enabled(s, SendBytes(data))
    ensures CreditOk(Step(s, SendBytes(data)))
  {
    if data != [] && MayRecord(s.window, |data|) {
      FlattenSnoc(s.toQueue, data);
      assert s.accepted + Flatten(s.toQueue) + data == s.accepted + (Flatten(s.toQueue) + data);
    }
  }

  lemma DeliverDataInv(s: System)
    requires Inv(s) && Enabled(s, DeliverData)
    ensures Inv(Step(s, DeliverData))
  {
    var payload := s.toQueue[0];
    assert |Flatten(s.toQueue)| == |payload| + |Flatten(s.toQueue[1..])|;
    if !s.queue.closed {
      assert s.accepted + (payload + Flatten(s.toQueue[1..])) == (s.accepted + payload) + Flatten(s.toQueue[1..]);
      assert (s.accepted + payload)[s.offset..] == s.accepted[s.offset..] + payload;
      assert (s.accepted + payload)[..s.offset] == s.accepted[..s.offset];
      if s.consumer.Written? {
        assert (s.accepted + payload)[..s.offset + s.consumer.count] == s.accepted[..s.offset + s.consumer.count];
      }
    }
  }

  lemma ConsumeInv(s: System)
    requires Inv(s) && Enabled(s, ConsumeWritten)
    ensures Inv(Step(s, ConsumeWritten))
  {
    assert s.accepted[s.offset..][s.consumer.count..] == s.accepted[s.offset + s.consumer.count..];
  }

  lemma AckInv(s: System)
    requires Inv(s) && s.consumer.Consumed?
    ensures Inv(Step(s, SendAck)) && Inv(Step(s, SendAckFails))
  {
    AckChainSnoc(s.toSender, s.window.acknowledged, s.acked, s.consumer.count);
  }

  lemma WriteInv(s: System, count: nat)
    requires Inv(s) && s.consumer.Writing?
    ensures Inv(Step(s, WriteTarget)) && Inv(Step(s, WriteFails(count)))
  {
    var chunk := s.consumer.chunk;
    assert s.accepted[..s.offset] + chunk == s.accepted[..s.offset + |chunk|];
    if count < |chunk| {
      assert s.accepted[..s.offset] + chunk[..count] == s.accepted[..s.offset + count];
    }
  }

  lemma DeliverAckInv(s: System)
    requires Inv(s) && Enabled(s, DeliverAck)
    ensures Inv(Step(s, DeliverAck))
  {
    AckChainBounds(s.toSender, s.window.acknowledged, s.acked);
    AckChainBounds(s.toSender[1..], s.toSender[0].offset, s.acked);
  }

  lemma StepInv(s: System, e: Event)
    requires Inv(s)
    ensures Inv(Step(s, e))
  {
    if Enabled(s, e) {
      match e
      case SendBytes(data) => SendInv(s, data);
      case DeliverData => DeliverDataInv(s);
      case ConsumeWritten => ConsumeInv(s);
      case SendAck => AckInv(s);
      case SendAckFails => AckInv(s);
      case WriteTarget => WriteInv(s, 0);
      case WriteFails(count) => WriteInv(s, count);
      case DeliverAck => DeliverAckInv(s);
      case PeekQueue => PeekInv(s);
      case Check => SenderWaitingInv(s, e);
      case SenderWakes => SenderWaitingInv(s, e);
      case _ => ConsumerWaitingInv(s, e);
    }
  }

  lemma PeekInv(s: System)
    requires Inv(s) && Enabled(s, PeekQueue)
    ensures Inv(Step(s, PeekQueue))
  {
  }

  lemma SenderWaitingInv(s: System, e: Event)
    requires Inv(s) && Enabled(s, e) && (e.Check? || e.SenderWakes?)
    ensures Inv(Step(s, e))
  {
  }

  lemma ConsumerWaitingInv(s: System, e: Event)
    requires Inv(s) && Enabled(s, e) && (e.ConsumerWakes? || e.CloseProxy?)
    ensures Inv(Step(s, e))
  {
  }

  lemma {:induction false} RunFromInv(s: System, events: seq<Event>)
    requires Inv(s)
    ensures Inv(RunFrom(s, events)) && RunFrom(s, events).queue.capacity == s.queue.capacity
  {
    if events != [] {
      RunFromInv(s, events[..|events| - 1]);
      StepInv(RunFrom(s, events[..|events| - 1]), events[|events| - 1]);
    }
  }

  lemma RunInv(capacity: nat, events: seq<Event>)
    ensures Inv(Run(capacity, events)) && Run(capacity, events).queue.capacity == capacity
  {
    RunFromInv(Initial(capacity), events);
  }

  // ---- What every run guarantees ------------------------------------------------------------

  /** The ring never overruns, no acknowledgement is refused, and at most one window is outstanding. */
  lemma CreditIsNeverExceeded(capacity: nat, events: seq<Event>)
    ensures var s := Run(capacity, events);
            && !s.overrun && !s.ackRefused
            && s.window.sent - s.window.acknowledged <= capacity
            && (s.toQueue != [] ==> !Enqueue(s.queue, s.toQueue[0]).1.CreditExceeded?)
            && (s.toSender != [] ==> MayAcknowledge(s.window, s.toSender[0].offset, s.toSender[0].credit))
  {
    RunInv(capacity, events);
    var s := Run(capacity, events);
    if s.toQueue != [] { DeliverDataInv(s); }
    if s.toSender != [] {
      AckChainBounds(s.toSender, s.window.acknowledged, s.acked);
      AckChainBounds(s.toSender[1..], s.toSender[0].offset, s.acked);
    }
  }

  /** A grant can be recorded unless the counter itself would pass the largest int64. */
  lemma GrantIsRecordable(capacity: nat, events: seq<Event>, count: nat)
    requires var s := Run(capacity, events); s.sender.Granted? && count <= s.sender.limit
    ensures var s := Run(capacity, events); MayRecord(s.window, count) <==> s.window.sent + count <= MAX_INT64
  {
    RunInv(capacity, events);
  }

  /** What reached the target is a prefix of what was accepted, and that of what was sent; the queue loses nothing. */
  lemma TargetGetsAPrefix(capacity: nat, events: seq<Event>)
    ensures var s := Run(capacity, events);
            && s.target <= s.accepted <= s.sent
            && (!s.consumer.Written? && !s.consumer.Ended? ==> s.target + s.queue.contents == s.accepted)
  {
    RunInv(capacity, events);
    var s := Run(capacity, events);
    assert s.accepted[..s.offset] + s.accepted[s.offset..] == s.accepted;
  }

  /** No wakeup is lost, on either side. */
  lemma NoLostWakeup(capacity: nat, events: seq<Event>)
    ensures var s := Run(capacity, events);
            && (s.consumer.AwaitingData? && (s.queue.contents != [] || s.queue.closed) ==> Enabled(s, ConsumerWakes))
            && (s.sender.AwaitingCredit? && 0 < Credit(s.window) ==> Enabled(s, SenderWakes))
  {
    RunInv(capacity, events);
  }

  // ---- A blocked sender gets its credit -----------------------------------------------------

  /** The proxy is open and its consumer runs. */
  predicate Open(s: System) {
    !s.queue.closed && !s.consumer.Ended?
  }

  /** The sender waits for credit meanwhile. */
  predicate WaitsForCredit(s: System) {
    s.sender.AwaitingCredit? && Open(s)
  }

  /** The other parties' steps, failures and the close apart. */
  predicate Serves(e: Event) {
    || e.DeliverData? || e.PeekQueue? || e.ConsumerWakes? || e.WriteTarget?
    || e.ConsumeWritten? || e.SendAck? || e.DeliverAck?
  }

  function Effort(c: Consumer): nat {
    match c
    case AtPeek => 4
    case AwaitingData => 3
    case Writing(_) => 3
    case Written(_) => 2
    case Consumed(_) => 6
    case Ended => 0
  }

  /** How many steps of the others come at most while the sender does nothing. */
  function Patience(s: System): nat {
    3 * |s.toQueue| + 5 * (|Flatten(s.toQueue)| + |s.queue.contents|) + Effort(s.consumer) + |s.toSender|
      + if s.queue.changed then 2 else 0
  }

  /** Each of their steps uses some of it up. */
  lemma ServiceWorks(s: System, e: Event)
    requires Inv(s) && Open(s) && Serves(e) && Enabled(s, e)
    ensures var t := Step(s, e); Open(t) && t.sender == s.sender && t.sent == s.sent && Patience(t) < Patience(s)
  {
    if e.DeliverData? {
      assert |Flatten(s.toQueue)| == |s.toQueue[0]| + |Flatten(s.toQueue[1..])|;
      DeliveryIsQueued(s);
    }
  }

  lemma DeliveryIsQueued(s: System)
    requires Inv(s) && !s.queue.closed && s.toQueue != []
    ensures Enqueue(s.queue, s.toQueue[0]).1.Queued?
  {
    DeliverDataInv(s);
  }

  /** And one is possible until the sender can wake. */
  lemma SomeService(s: System) returns (e: Event)
    requires Inv(s) && WaitsForCredit(s) && 0 < s.queue.capacity
    ensures e.SenderWakes? || Serves(e)
    ensures Enabled(s, e) && (e.SenderWakes? <==> s.window.changed)
  {
    if s.window.changed { return SenderWakes; }
    if s.toSender != [] { return DeliverAck; }
    if s.toQueue != [] { return DeliverData; }
    assert Flatten(s.toQueue) == [];
    match s.consumer
    case AtPeek => return PeekQueue;
    case AwaitingData => return ConsumerWakes;
    case Writing(_) => return WriteTarget;
    case Written(_) => return ConsumeWritten;
    case Consumed(_) => return SendAck;
  }

  lemma {:induction false} AtLeastOneByteEach(frames: seq<seq<byte>>)
    requires forall i :: 0 <= i < |frames| ==> frames[i] != []
    ensures |frames| <= |Flatten(frames)|
  {
    if frames != [] { AtLeastOneByteEach(frames[1..]); }
  }

  lemma {:induction false} AckChainLength(acks: seq<Ack>, from: int, to: int)
    requires AckChain(acks, from, to)
    ensures |acks| <= to - from
  {
    if acks != [] { AckChainLength(acks[1..], acks[0].offset, to); }
  }

  lemma PatienceIsBounded(s: System)
    requires Inv(s) && !s.queue.closed
    ensures Patience(s) <= 8 * s.queue.capacity + 8
  {
    AtLeastOneByteEach(s.toQueue);
    AckChainLength(s.toSender, s.window.acknowledged, s.acked);
    assert |s.queue.contents| == |s.accepted| - s.offset;
  }

  /** Every event serves, and happens. */
  ghost predicate ServiceRun(s: System, events: seq<Event>) {
    events != [] ==>
      && ServiceRun(s, events[..|events| - 1])
      && Serves(events[|events| - 1]) && Enabled(RunFrom(s, events[..|events| - 1]), events[|events| - 1])
  }

  lemma {:induction false} ServiceUsesPatience(s: System, events: seq<Event>)
    requires Inv(s) && Open(s) && ServiceRun(s, events)
    ensures var t := RunFrom(s, events);
            && Inv(t) && Open(t) && t.sender == s.sender && t.sent == s.sent
            && |events| + Patience(t) <= Patience(s)
  {
    if events != [] {
      var front, e := events[..|events| - 1], events[|events| - 1];
      ServiceUsesPatience(s, front);
      ServiceWorks(RunFrom(s, front), e);
      StepInv(RunFrom(s, front), e);
    }
  }

  /**
   A sender that is blocked for credit while the proxy is open sees at most 8 times the window plus 8 steps
   of the others, in whatever order they come; and as long as it cannot wake, one of them can step.
   */
  lemma BlockedSenderIsServed(capacity: nat, before: seq<Event>, events: seq<Event>) returns (e: Event)
    requires 0 < capacity && WaitsForCredit(Run(capacity, before)) && ServiceRun(Run(capacity, before), events)
    ensures |events| <= 8 * capacity + 8
    ensures var t := RunFrom(Run(capacity, before), events);
            && WaitsForCredit(t) && Enabled(t, e) && (e.SenderWakes? || Serves(e))
            && (e.SenderWakes? <==> t.window.changed)
  {
    var s := Run(capacity, before);
    RunInv(capacity, before);
    ServiceUsesPatience(s, events);
    PatienceIsBounded(s);
    RunFromInv(s, events);
    e := SomeService(RunFrom(s, events));
  }

  /** So it wakes: there is such a run after which it can, and each can be continued to one. */
  lemma {:induction false} BlockedSenderWakes(s: System) returns (events: seq<Event>)
    requires Inv(s) && WaitsForCredit(s) && 0 < s.queue.capacity
    ensures ServiceRun(s, events) && |events| <= Patience(s) && Enabled(RunFrom(s, events), SenderWakes)
    decreases Patience(s)
  {
    var e := SomeService(s);
    if e.SenderWakes? {
      events := [];
    } else {
      ServiceWorks(s, e);
      StepInv(s, e);
      var rest := BlockedSenderWakes(Step(s, e));
      ServiceCons(s, e, rest);
      events := [e] + rest;
    }
  }

  lemma {:induction false} ServiceCons(s: System, e: Event, rest: seq<Event>)
    requires Serves(e) && Enabled(s, e) && ServiceRun(Step(s, e), rest)
    ensures ServiceRun(s, [e] + rest) && RunFrom(s, [e] + rest) == RunFrom(Step(s, e), rest)
  {
    var events := [e] + rest;
    if rest == [] {
      assert events == [e] && [e][..0] == [];
      assert ServiceRun(s, []) && RunFrom(s, []) == s;
    } else {
      var front := rest[..|rest| - 1];
      ServiceCons(s, e, front);
      assert events[..|events| - 1] == [e] + front && events[|events| - 1] == rest[|rest| - 1];
    }
  }

  // ---- Everything sent arrives --------------------------------------------------------------

  /** None of the others can step. */
  ghost predicate AtRest(s: System) {
    forall e :: Serves(e) ==> !Enabled(s, e)
  }

  /** Then every byte sent is at the target, and the whole window is free again. */
  lemma RestIsDelivered(s: System)
    requires Inv(s) && Open(s) && AtRest(s)
    ensures s.target == s.sent && Credit(s.window) == s.window.maximum
  {
    assert !Enabled(s, DeliverData) && !Enabled(s, DeliverAck) && !Enabled(s, PeekQueue);
    assert !Enabled(s, ConsumerWakes) && !Enabled(s, WriteTarget);
    assert !Enabled(s, ConsumeWritten) && !Enabled(s, SendAck);
    assert Flatten(s.toQueue) == [];
  }

  lemma NextService(s: System) returns (found: bool, e: Event)
    requires Inv(s) && Open(s)
    ensures if found then Serves(e) && Enabled(s, e) else AtRest(s)
  {
    if s.toSender != [] { return true, DeliverAck; }
    if s.toQueue != [] { return true, DeliverData; }
    match s.consumer
    case AtPeek => return true, PeekQueue;
    case AwaitingData => return s.queue.changed, ConsumerWakes;
    case Writing(_) => return true, WriteTarget;
    case Written(_) => return true, ConsumeWritten;
    case Consumed(_) => return true, SendAck;
  }

  lemma {:induction false} ServiceComesToRest(s: System) returns (events: seq<Event>)
    requires Inv(s) && Open(s)
    ensures ServiceRun(s, events) && AtRest(RunFrom(s, events))
    decreases Patience(s)
  {
    var found, e := NextService(s);
    if found {
      ServiceWorks(s, e);
      StepInv(s, e);
      var rest := ServiceComesToRest(Step(s, e));
      ServiceCons(s, e, rest);
      events := [e] + rest;
    } else {
      events := [];
    }
  }

  /**
   While the proxy is open, the steps of the others alone, in any order, come to an end after at most 8 times the
   window plus 8 of them; then all bytes sent so far are at the target and acknowledged, and the sender may send a
   chunk or the whole window again.
   */
  lemma EverythingSentArrives(capacity: nat, before: seq<Event>, events: seq<Event>)
    requires Open(Run(capacity, before)) && ServiceRun(Run(capacity, before), events)
    ensures |events| <= 8 * capacity + 8
    ensures var s, t := Run(capacity, before), RunFrom(Run(capacity, before), events);
            AtRest(t) ==>
              && t.target == s.sent && t.window.sent == t.window.acknowledged
              && (t.sender.Checking? && 0 < capacity ==> Step(t, Check).sender == Granted(Min(32768, capacity)))
  {
    var s := Run(capacity, before);
    RunInv(capacity, before);
    ServiceUsesPatience(s, events);
    PatienceIsBounded(s);
    RunFromInv(s, events);
    if AtRest(RunFrom(s, events)) { RestIsDelivered(RunFrom(s, events)); }
  }

  // ---- A closed proxy ends ------------------------------------------------------------------

  lemma ClosedStep(s: System, e: Event)
    requires s.queue.closed
    ensures Step(s, e).queue.closed && Step(s, e).accepted == s.accepted
  {
  }

  lemma {:induction false} ClosedRun(s: System, events: seq<Event>)
    requires s.queue.closed
    ensures RunFrom(s, events).queue.closed && RunFrom(s, events).accepted == s.accepted
  {
    if events != [] {
      ClosedRun(s, events[..|events| - 1]);
      ClosedStep(RunFrom(s, events[..|events| - 1]), events[|events| - 1]);
    }
  }

  /** The consumer's own steps. */
  predicate OfConsumer(e: Event) {
    e.PeekQueue? || e.ConsumerWakes? || e.WriteTarget? || e.ConsumeWritten? || e.SendAck?
  }

  function StepsToEnd(c: Consumer): nat {
    match c
    case AtPeek => 1
    case AwaitingData => 2
    case Consumed(_) => 2
    case Written(_) => 3
    case Writing(_) => 4
    case Ended => 0
  }

  /** Once the proxy is closed the consumer can always go on, and each of its steps brings it closer to its end. */
  lemma ClosedConsumerGoesOn(s: System) returns (e: Event)
    requires Inv(s) && s.queue.closed && !s.consumer.Ended?
    ensures OfConsumer(e) && Enabled(s, e)
    ensures forall d :: OfConsumer(d) && Enabled(s, d) ==> StepsToEnd(Step(s, d).consumer) < StepsToEnd(s.consumer)
  {
    match s.consumer
    case AtPeek => e := PeekQueue;
    case AwaitingData => e := ConsumerWakes;
    case Writing(_) => e := WriteTarget;
    case Written(_) => e := ConsumeWritten;
    case Consumed(_) => e := SendAck;
  }

  /**
   After a close nothing more is accepted, whatever comes; and as long as the consumer has not ended it can step, at
   most four times.
   */
  lemma ClosedProxyEnds(capacity: nat, before: seq<Event>, after: seq<Event>) returns (e: Event)
    ensures var s := Run(capacity, before);
            var t := RunFrom(Step(s, CloseProxy), after);
            && t.queue.closed && t.accepted == s.accepted && StepsToEnd(t.consumer) <= 4
            && (!t.consumer.Ended? ==>
                  && OfConsumer(e) && Enabled(t, e)
                  && forall d :: OfConsumer(d) && Enabled(t, d) ==>
                       StepsToEnd(Step(t, d).consumer) < StepsToEnd(t.consumer))
  {
    var s := Run(capacity, before);
    RunInv(capacity, before);
    StepInv(s, CloseProxy);
    RunFromInv(Step(s, CloseProxy), after);
    ClosedRun(Step(s, CloseProxy), after);
    var t := RunFrom(Step(s, CloseProxy), after);
    e := PeekQueue;
    if !t.consumer.Ended? { e := ClosedConsumerGoesOn(t); }
  }
}
