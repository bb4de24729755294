/**
 The two parties of a download and the frames between them: download.run and its HandleFrame in
 access/files/transfer_service.go, and downloadEndpointFile in clients/cli/file_command.go.
 The source file does not change while it is sent; SHA-256 is the parameter `sha`.
 */
module Download {
  import opened Prelude

  datatype Config = Config(file: seq<byte>, window: nat, chunk: nat, sha: seq<byte> -> seq<byte>)

  datatype Frame = Data(offset: int, data: seq<byte>) | Finish(size: int, digest: seq<byte>) | StreamError

  datatype Ack = Ack(offset: int, window: int)

  datatype ServerPhase = Sending | Finished | Broken

  /** `slot` is the one-element acknowledgement channel between HandleFrame and run. */
  datatype Server = Server(offset: nat, credit: int, slot: Option<Ack>, phase: ServerPhase)

  datatype ClientPhase = Receiving | Completed | Rejected

  datatype Client = Client(offset: nat, sinceAck: nat, received: seq<byte>, phase: ClientPhase)

  /** The whole system: both parties and the frames in flight, oldest first. */
  datatype System = System(server: Server, client: Client, toClient: seq<Frame>, toServer: seq<Ack>)

  ghost predicate ValidConfig(cfg: Config) {
    0 < cfg.window && 0 < cfg.chunk
  }

  // ---- The server ---------------------------------------------------------------------------

  /** Most bytes the next read may ask for. */
  function ReadLimit(cfg: Config, server: Server): int {
    Min(cfg.chunk, Min(server.credit, |cfg.file| - server.offset))
  }

  predicate CanSend(cfg: Config, server: Server, n: nat) {
    && server.phase == Sending && server.offset < |cfg.file| && 0 < server.credit
    && 0 < n <= ReadLimit(cfg, server)
  }

  predicate CanTakeAck(cfg: Config, server: Server) {
    server.phase == Sending && server.offset < |cfg.file| && server.credit <= 0 && server.slot.Some?
  }

  predicate CanFinish(cfg: Config, server: Server) {
    server.phase == Sending && |cfg.file| <= server.offset
  }

  /** One turn of run: a read of `n` bytes and the frame that carries them. */
  function ServerSend(cfg: Config, server: Server, n: nat): (Server, seq<Frame>)
    requires CanSend(cfg, server, n)
  {
    (server.(offset := server.offset + n, credit := server.credit - n),
     [Data(server.offset, cfg.file[server.offset..server.offset + n])])
  }

  /** The wait at zero credit: an acknowledgement for another offset ends the transfer. */
  function ServerTakeAck(cfg: Config, server: Server): (Server, seq<Frame>)
    requires CanTakeAck(cfg, server)
  {
    var ack := server.slot.value;
    if ack.offset != server.offset then (server.(slot := None, phase := Broken), [StreamError])
    else (server.(slot := None, credit := server.credit + ack.window), [])
  }

  function ServerFinish(cfg: Config, server: Server): (Server, seq<Frame>)
    requires CanFinish(cfg, server)
  {
    (server.(phase := Finished), [Finish(|cfg.file|, cfg.sha(cfg.file))])
  }

  predicate AckInRange(cfg: Config, ack: Ack) {
    0 <= ack.offset <= |cfg.file| && 0 <= ack.window <= cfg.window
  }

  /** HandleFrame for an acknowledgement; a refusal is reported to the client as a stream error. */
  function ServerReceive(cfg: Config, server: Server, ack: Ack): (Server, seq<Frame>) {
    if !AckInRange(cfg, ack) then (server, [StreamError])
    else if server.slot.Some? then (server, [StreamError])
    else (server.(slot := Some(ack)), [])
  }

  // ---- The client ---------------------------------------------------------------------------

  predicate DataFits(cfg: Config, client: Client, offset: int, data: seq<byte>) {
    && offset == client.offset && 0 < |data|
    && |data| <= |cfg.file| - client.offset && |data| <= cfg.window - client.sinceAck
  }

  function ClientReceive(cfg: Config, client: Client, frame: Frame): (Client, seq<Ack>) {
    match frame
    case Data(offset, data) =>
      if !DataFits(cfg, client, offset, data) then (client.(phase := Rejected), [])
      else
        var next := client.(offset := client.offset + |data|, sinceAck := client.sinceAck + |data|,
                            received := client.received + data);
        if next.sinceAck == cfg.window then (next.(sinceAck := 0), [Ack(next.offset, cfg.window)]) else (next, [])
    case Finish(size, digest) =>
      if size != client.offset || size != |cfg.file| || digest != cfg.sha(client.received) then
        (client.(phase := Rejected), [])
      else (client.(phase := Completed), [])
    case StreamError => (client.(phase := Rejected), [])
  }

  // ---- The system ---------------------------------------------------------------------------

  datatype Event = Send(n: nat) | TakeAck | SendFinish | DeliverFrame | DeliverAck

  predicate Enabled(cfg: Config, s: System, e: Event) {
    match e
    case Send(n) => CanSend(cfg, s.server, n)
    case TakeAck => CanTakeAck(cfg, s.server)
    case SendFinish => CanFinish(cfg, s.server)
    case DeliverFrame => s.client.phase == Receiving && s.toClient != []
    case DeliverAck => s.toServer != []
  }

  function ServerMoves(s: System, out: (Server, seq<Frame>)): System {
    s.(server := out.0, toClient := s.toClient + out.1)
  }

  function Step(cfg: Config, s: System, e: Event): System {
    if !Enabled(cfg, s, e) then s
    else match e
      case Send(n) => ServerMoves(s, ServerSend(cfg, s.server, n))
      case TakeAck => ServerMoves(s, ServerTakeAck(cfg, s.server))
      case SendFinish => ServerMoves(s, ServerFinish(cfg, s.server))
      case DeliverAck => ServerMoves(s.(toServer := s.toServer[1..]), ServerReceive(cfg, s.server, s.toServer[0]))
      case DeliverFrame =>
        var (client, acks) := ClientReceive(cfg, s.client, s.toClient[0]);
        s.(client := client, toClient := s.toClient[1..], toServer := s.toServer + acks)
  }

  function Initial(cfg: Config): System {
    System(Server(0, cfg.window, None, Sending), Client(0, 0, [], Receiving), [], [])
  }

  function Run(cfg: Config, events: seq<Event>): System {
    if events == [] then Initial(cfg) else Step(cfg, Run(cfg, events[..|events| - 1]), events[|events| - 1])
  }

  // ---- The credit invariant -----------------------------------------------------------------

  function InFlight(frames: seq<Frame>): nat {
    if frames == [] then 0 else (if frames[0].Data? then |frames[0].data| else 0) + InFlight(frames[1..])
  }

  function PendingAcks(s: System): nat {
    |s.toServer| + (if s.server.slot.Some? then 1 else 0)
  }

  /** The frames in flight carry the file from `from` to `to`, in order, then the finish if `done`. */
  ghost predicate Chain(cfg: Config, frames: seq<Frame>, from: nat, to: nat, done: bool) {
    if frames == [] then from == to && !done
    else match frames[0]
      case Data(offset, data) =>
        && offset == from && 0 < |data| && from + |data| <= |cfg.file| && data == cfg.file[from..from + |data|]
        && Chain(cfg, frames[1..], from + |data|, to, done)
      case Finish(size, digest) =>
        done && |frames| == 1 && from == to == size == |cfg.file| && digest == cfg.sha(cfg.file)
      case StreamError => false
  }

  /** Credit, bytes in flight, bytes not yet acknowledged and granted windows always add up to one window. */
  ghost predicate CreditBalance(cfg: Config, s: System) {
    s.server.credit + InFlight(s.toClient) + s.client.sinceAck + cfg.window * PendingAcks(s) == cfg.window
  }

  ghost predicate Inv(cfg: Config, s: System) {
    && s.server.phase != Broken && s.client.phase != Rejected
    && 0 <= s.server.credit && s.client.sinceAck < cfg.window
    && s.client.offset <= s.server.offset <= |cfg.file|
    && s.client.received == cfg.file[..s.client.offset]
    && CreditBalance(cfg, s)
    && (forall i :: 0 <= i < |s.toServer| ==> s.toServer[i] == Ack(s.server.offset, cfg.window))
    && (s.server.slot.Some? ==> s.server.slot.value == Ack(s.server.offset, cfg.window))
    && (s.server.phase == Finished ==> s.server.offset == |cfg.file|)
    && (s.client.phase == Completed ==> s.toClient == [] && s.server.phase == Finished && s.client.offset == |cfg.file|)
    && (s.client.phase == Receiving ==>
         Chain(cfg, s.toClient, s.client.offset, s.server.offset, s.server.phase == Finished))
  }

  lemma {:induction false} ChainSnoc(cfg: Config, frames: seq<Frame>, from: nat, to: nat, data: seq<byte>)
    requires Chain(cfg, frames, from, to, false)
    requires 0 < |data| && to + |data| <= |cfg.file| && data == cfg.file[to..to + |data|]
    ensures Chain(cfg, frames + [Data(to, data)], from, to + |data|, false)
    ensures InFlight(frames + [Data(to, data)]) == InFlight(frames) + |data|
  {
    if frames != [] {
      assert (frames + [Data(to, data)])[1..] == frames[1..] + [Data(to, data)];
      ChainSnoc(cfg, frames[1..], from + |frames[0].data|, to, data);
    }
  }

  lemma {:induction false} ChainFinish(cfg: Config, frames: seq<Frame>, from: nat, to: nat)
    requires Chain(cfg, frames, from, to, false) && to == |cfg.file|
    ensures Chain(cfg, frames + [Finish(to, cfg.sha(cfg.file))], from, to, true)
    ensures InFlight(frames + [Finish(to, cfg.sha(cfg.file))]) == InFlight(frames)
  {
    var last := Finish(to, cfg.sha(cfg.file));
    if frames != [] {
      assert (frames + [last])[1..] == frames[1..] + [last];
      ChainFinish(cfg, frames[1..], from + |frames[0].data|, to);
    }
  }

  lemma {:induction false} ChainSpan(cfg: Config, frames: seq<Frame>, from: nat, to: nat, done: bool)
    requires Chain(cfg, frames, from, to, done)
    ensures from + InFlight(frames) == to
  {
    if frames != [] && frames[0].Data? { ChainSpan(cfg, frames[1..], from + |frames[0].data|, to, done); }
  }

  /** An acknowledgement is only ever pending when nothing else is outstanding. */
  lemma AckExcludesRest(cfg: Config, s: System)
    requires ValidConfig(cfg) && Inv(cfg, s) && 0 < PendingAcks(s)
    ensures PendingAcks(s) == 1 && s.server.credit == 0 && InFlight(s.toClient) == 0 && s.client.sinceAck == 0
  {
    if 1 < PendingAcks(s) { TwoWindows(cfg.window, PendingAcks(s)); }
  }

  lemma TwoWindows(window: nat, n: nat)
    requires 2 <= n
    ensures window + window <= window * n
  {
    assert window * n == window * 2 + window * (n - 2);
  }

  lemma SendInv(cfg: Config, s: System, n: nat)
    requires ValidConfig(cfg) && Inv(cfg, s) && CanSend(cfg, s.server, n)
    ensures Inv(cfg, Step(cfg, s, Send(n)))
  {
    if 0 < PendingAcks(s) { AckExcludesRest(cfg, s); }
    if s.client.phase == Receiving {
      ChainSnoc(cfg, s.toClient, s.client.offset, s.server.offset, cfg.file[s.server.offset..s.server.offset + n]);
    }
  }

  lemma DeliverFrameInv(cfg: Config, s: System)
    requires ValidConfig(cfg) && Inv(cfg, s) && Enabled(cfg, s, DeliverFrame)
    ensures Inv(cfg, Step(cfg, s, DeliverFrame))
  {
    ChainSpan(cfg, s.toClient, s.client.offset, s.server.offset, s.server.phase == Finished);
    var frame := s.toClient[0];
    match frame
    case Data(offset, data) =>
      if 0 < PendingAcks(s) { AckExcludesRest(cfg, s); }
      assert cfg.file[..s.client.offset] + data == cfg.file[..s.client.offset + |data|];
    case Finish(size, digest) =>
      assert cfg.file[..|cfg.file|] == cfg.file;
    case StreamError =>
  }

  lemma StepInv(cfg: Config, s: System, e: Event)
    requires ValidConfig(cfg) && Inv(cfg, s)
    ensures Inv(cfg, Step(cfg, s, e))
  {
    if Enabled(cfg, s, e) {
      match e
      case Send(n) => SendInv(cfg, s, n);
      case TakeAck => AckExcludesRest(cfg, s);
      case SendFinish => ChainFinish(cfg, s.toClient, s.client.offset, s.server.offset);
      case DeliverFrame => DeliverFrameInv(cfg, s);
      case DeliverAck => AckExcludesRest(cfg, s);
    }
  }

  lemma {:induction false} RunInv(cfg: Config, events: seq<Event>)
    requires ValidConfig(cfg)
    ensures Inv(cfg, Run(cfg, events))
  {
    if events != [] {
      RunInv(cfg, events[..|events| - 1]);
      StepInv(cfg, Run(cfg, events[..|events| - 1]), events[|events| - 1]);
    }
  }

  // ---- What every run guarantees ------------------------------------------------------------

  /** No frame is ever refused, by either party, and the one-slot acknowledgement channel never overflows. */
  lemma NothingIsRefused(cfg: Config, events: seq<Event>)
    requires ValidConfig(cfg)
    ensures var s := Run(cfg, events);
            && CreditBalance(cfg, s)
            && s.server.phase != Broken && s.client.phase != Rejected
            && (s.client.phase == Receiving && s.toClient != [] ==>
                 ClientReceive(cfg, s.client, s.toClient[0]).0.phase != Rejected)
            && (s.toServer != [] ==> s.server.slot.None? && ServerReceive(cfg, s.server, s.toServer[0]).1 == [])
            && (CanTakeAck(cfg, s.server) ==> ServerTakeAck(cfg, s.server).0.phase != Broken)
  {
    RunInv(cfg, events);
    var s := Run(cfg, events);
    if s.toServer != [] { AckExcludesRest(cfg, s); }
    if s.client.phase == Receiving && s.toClient != [] { DeliverFrameInv(cfg, s); }
  }

  /** A server that has to wait for credit always has a data frame or an acknowledgement on the way. */
  lemma WaitingServerIsFed(cfg: Config, events: seq<Event>)
    requires ValidConfig(cfg)
    ensures var s := Run(cfg, events);
            s.server.phase == Sending && s.server.offset < |cfg.file| && s.server.credit <= 0
            ==> 0 < InFlight(s.toClient) || 0 < PendingAcks(s)
  {
    RunInv(cfg, events);
  }

  /** The client completes only with the whole file. */
  lemma CompletedMeansWholeFile(cfg: Config, events: seq<Event>)
    requires ValidConfig(cfg) && Run(cfg, events).client.phase == Completed
    ensures Run(cfg, events).client.received == cfg.file
  {
    RunInv(cfg, events);
    assert cfg.file[..|cfg.file|] == cfg.file;
  }

  /** Until the client has completed, some event can happen. */
  lemma NeverStuck(cfg: Config, s: System) returns (e: Event)
    requires ValidConfig(cfg) && Inv(cfg, s) && s.client.phase == Receiving
    ensures Enabled(cfg, s, e)
  {
    if s.toClient != [] { return DeliverFrame; }
    if s.toServer != [] { return DeliverAck; }
    if s.server.offset == |cfg.file| { return SendFinish; }
    if s.server.slot.Some? {
      AckExcludesRest(cfg, s);
      return TakeAck;
    }
    return Send(1);
  }

  /** Work left: every event that can happen uses some of it up. */
  function Work(cfg: Config, s: System): int {
    5 * (|cfg.file| - s.server.offset) + (if s.server.phase == Sending then 5 else 0)
    + 4 * |s.toClient| + 2 * |s.toServer| + (if s.server.slot.Some? then 1 else 0)
  }

  lemma StepWorks(cfg: Config, s: System, e: Event)
    requires ValidConfig(cfg) && Inv(cfg, s) && Enabled(cfg, s, e)
    ensures 0 <= Work(cfg, Step(cfg, s, e)) < Work(cfg, s)
  {
    StepInv(cfg, s, e);
    if e.TakeAck? || e.DeliverAck? { AckExcludesRest(cfg, s); }
  }

  /** Every event of the run could happen when it did. */
  ghost predicate Proper(cfg: Config, events: seq<Event>) {
    events != [] ==>
      Proper(cfg, events[..|events| - 1]) && Enabled(cfg, Run(cfg, events[..|events| - 1]), events[|events| - 1])
  }

  lemma {:induction false} RunIsShort(cfg: Config, events: seq<Event>)
    requires ValidConfig(cfg) && Proper(cfg, events)
    ensures |events| + Work(cfg, Run(cfg, events)) <= 5 * |cfg.file| + 5
    ensures 0 <= Work(cfg, Run(cfg, events))
  {
    RunInv(cfg, events);
    if events != [] {
      RunInv(cfg, events[..|events| - 1]);
      RunIsShort(cfg, events[..|events| - 1]);
      StepWorks(cfg, Run(cfg, events[..|events| - 1]), events[|events| - 1]);
    }
  }

  /**
   Total correctness of the protocol: every run has at most 5 * size + 5 events, and one that cannot
   be continued has delivered the whole file.
   */
  lemma EveryDownloadCompletes(cfg: Config, events: seq<Event>)
    requires ValidConfig(cfg) && Proper(cfg, events)
    ensures |events| <= 5 * |cfg.file| + 5
    ensures (forall e :: !Enabled(cfg, Run(cfg, events), e)) ==>
            Run(cfg, events).client.phase == Completed && Run(cfg, events).client.received == cfg.file
  {
    RunIsShort(cfg, events);
    RunInv(cfg, events);
    if forall e :: !Enabled(cfg, Run(cfg, events), e) {
      if Run(cfg, events).client.phase == Receiving {
        var e := NeverStuck(cfg, Run(cfg, events));
      } else {
        CompletedMeansWholeFile(cfg, events);
      }
    }
  }
}
