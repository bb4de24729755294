/** Each party of a download by itself, against a peer that may send anything. */
module DownloadAlone {
  import opened Prelude
  import opened Download

  // ---- The client ---------------------------------------------------------------------------

  /** The bytes of the data frames. */
  function Payload(frames: seq<Frame>): seq<byte> {
    if frames == [] then []
    else
      var last := frames[|frames| - 1];
      Payload(frames[..|frames| - 1]) + if last.Data? then last.data else []
  }

  /** How many windows `at` bytes fill, and how many bytes are left. */
  function Windows(at: nat, window: nat): nat
    requires 0 < window
  {
    if at < window then 0 else 1 + Windows(at - window, window)
  }

  function Left(at: nat, window: nat): (left: nat)
    requires 0 < window
    ensures left < window
  {
    if at < window then at else Left(at - window, window)
  }

  lemma {:induction false} NextWindow(at: nat, n: nat, window: nat)
    requires 0 < window && Left(at, window) + n <= window
    ensures if Left(at, window) + n < window
            then Left(at + n, window) == Left(at, window) + n && Windows(at + n, window) == Windows(at, window)
            else Left(at + n, window) == 0 && Windows(at + n, window) == Windows(at, window) + 1
  {
    if at >= window { NextWindow(at - window, n, window); }
  }

  /** The end of window number `k`. */
  function End(k: nat, window: nat): nat {
    if k == 0 then 0 else End(k - 1, window) + window
  }

  lemma {:induction false} WindowsFill(at: nat, window: nat)
    requires 0 < window
    ensures at == End(Windows(at, window), window) + Left(at, window)
  {
    if at >= window { WindowsFill(at - window, window); }
  }

  /** The frame that comes after `at` bytes: the next ones, within the file and the current window. */
  predicate ComesNext(cfg: Config, at: nat, frame: Frame)
    requires 0 < cfg.window
  {
    && frame.Data? && frame.offset == at && frame.data != []
    && at + |frame.data| <= |cfg.file| && Left(at, cfg.window) + |frame.data| <= cfg.window
  }

  ghost predicate InSequence(cfg: Config, frames: seq<Frame>)
    requires 0 < cfg.window
  {
    forall k :: 0 <= k < |frames| ==> ComesNext(cfg, |Payload(frames[..k])|, frames[k])
  }

  /** The client after these frames, none of which it looks at once it has stopped; and its acknowledgements. */
  function Fed(cfg: Config, frames: seq<Frame>): (Client, seq<Ack>) {
    if frames == [] then (Client(0, 0, [], Receiving), [])
    else
      var (client, acks) := Fed(cfg, frames[..|frames| - 1]);
      if client.phase != Receiving then (client, acks)
      else
        var (next, more) := ClientReceive(cfg, client, frames[|frames| - 1]);
        (next, acks + more)
  }

  /** One acknowledgement for each full window. */
  function WindowAcks(cfg: Config, windows: nat): seq<Ack> {
    if windows == 0 then [] else WindowAcks(cfg, windows - 1) + [Ack(End(windows, cfg.window), cfg.window)]
  }

  lemma FedNext(cfg: Config, client: Client, at: nat, frame: Frame)
    requires 0 < cfg.window && ComesNext(cfg, at, frame)
    requires client.offset == at && client.sinceAck == Left(at, cfg.window) && client.phase == Receiving
    ensures var (next, more) := ClientReceive(cfg, client, frame);
            var to := at + |frame.data|;
            var before, after := Windows(at, cfg.window), Windows(to, cfg.window);
            && next == Client(to, Left(to, cfg.window), client.received + frame.data, Receiving)
            && (after == before || after == before + 1)
            && more == if after == before then [] else [Ack(End(after, cfg.window), cfg.window)]
  {
    NextWindow(at, |frame.data|, cfg.window);
    WindowsFill(at + |frame.data|, cfg.window);
  }

  lemma SequenceFront(cfg: Config, frames: seq<Frame>)
    requires 0 < cfg.window && frames != [] && InSequence(cfg, frames)
    ensures InSequence(cfg, frames[..|frames| - 1])
    ensures ComesNext(cfg, |Payload(frames[..|frames| - 1])|, frames[|frames| - 1])
  {
    var front := frames[..|frames| - 1];
    forall k | 0 <= k < |front| ensures ComesNext(cfg, |Payload(front[..k])|, front[k]) {
      assert front[..k] == frames[..k];
    }
  }

  lemma TakesNext(cfg: Config, frames: seq<Frame>, got: seq<byte>)
    requires 0 < cfg.window && frames != [] && ComesNext(cfg, |got|, frames[|frames| - 1])
    requires var (client, acks) := Fed(cfg, frames[..|frames| - 1]);
             && client == Client(|got|, Left(|got|, cfg.window), got, Receiving)
             && acks == WindowAcks(cfg, Windows(|got|, cfg.window))
    ensures var all := got + frames[|frames| - 1].data;
            && Fed(cfg, frames).0 == Client(|all|, Left(|all|, cfg.window), all, Receiving)
            && Fed(cfg, frames).1 == WindowAcks(cfg, Windows(|all|, cfg.window))
  {
    FedNext(cfg, Fed(cfg, frames[..|frames| - 1]).0, |got|, frames[|frames| - 1]);
  }

  /** Frames in sequence are all taken, and each full window is acknowledged once. */
  lemma {:induction false} ClientTakes(cfg: Config, frames: seq<Frame>)
    requires 0 < cfg.window && InSequence(cfg, frames)
    ensures var got := Payload(frames);
            && Fed(cfg, frames).0 == Client(|got|, Left(|got|, cfg.window), got, Receiving)
            && Fed(cfg, frames).1 == WindowAcks(cfg, Windows(|got|, cfg.window))
  {
    if frames != [] {
      var front, last := frames[..|frames| - 1], frames[|frames| - 1];
      SequenceFront(cfg, frames);
      ClientTakes(cfg, front);
      TakesNext(cfg, frames, Payload(front));
    }
  }

  /** The finish frame for the whole file, with the digest of what was received. */
  predicate Completes(cfg: Config, got: seq<byte>, frame: Frame) {
    frame.Finish? && frame.size == |got| == |cfg.file| && frame.digest == cfg.sha(got)
  }

  /** Any other frame ends it: well with the matching finish, and else with an error. */
  lemma ClientStops(cfg: Config, frames: seq<Frame>, frame: Frame)
    requires 0 < cfg.window && InSequence(cfg, frames) && !ComesNext(cfg, |Payload(frames)|, frame)
    ensures var got := Payload(frames);
            var phase := if Completes(cfg, got, frame) then Completed else Rejected;
            ClientReceive(cfg, Fed(cfg, frames).0, frame)
              == (Client(|got|, Left(|got|, cfg.window), got, phase), [])
  {
    ClientTakes(cfg, frames);
  }

  lemma {:induction false} StoppedStays(cfg: Config, frames: seq<Frame>, k: nat)
    requires k <= |frames| && Fed(cfg, frames[..k]).0.phase != Receiving
    ensures Fed(cfg, frames) == Fed(cfg, frames[..k])
    decreases |frames|
  {
    if k < |frames| {
      assert frames[..|frames| - 1][..k] == frames[..k];
      StoppedStays(cfg, frames[..|frames| - 1], k);
    } else {
      assert frames[..k] == frames;
    }
  }

  /** How many frames are in sequence. */
  lemma {:induction false} SequenceTo(cfg: Config, frames: seq<Frame>) returns (k: nat)
    requires 0 < cfg.window
    ensures k <= |frames| && InSequence(cfg, frames[..k])
    ensures k < |frames| ==> !ComesNext(cfg, |Payload(frames[..k])|, frames[k])
  {
    if frames == [] {
      k := 0;
    } else {
      var front, last := frames[..|frames| - 1], frames[|frames| - 1];
      k := SequenceTo(cfg, front);
      assert front[..k] == frames[..k];
      if k == |front| && ComesNext(cfg, |Payload(front)|, last) {
        assert front[..k] == front && frames[..k + 1] == frames;
        forall j | 0 <= j < |frames| ensures ComesNext(cfg, |Payload(frames[..j])|, frames[j]) {
          if j < |front| { assert front[..j] == frames[..j] && front[j] == frames[j]; }
        }
        k := k + 1;
      }
    }
  }

  /** The frames up to the matching finish are the file's bytes in sequence. */
  ghost predicate Delivers(cfg: Config, frames: seq<Frame>, k: nat)
    requires 0 < cfg.window
  {
    k < |frames| && InSequence(cfg, frames[..k]) && Completes(cfg, Payload(frames[..k]), frames[k])
  }

  lemma SequenceAt(cfg: Config, frames: seq<Frame>, k: nat, j: nat)
    requires 0 < cfg.window && j < k <= |frames| && InSequence(cfg, frames[..k])
    ensures ComesNext(cfg, |Payload(frames[..j])|, frames[j])
  {
    assert frames[..k][..j] == frames[..j] && frames[..k][j] == frames[j];
  }

  lemma OneStop(cfg: Config, frames: seq<Frame>, j: nat, k: nat)
    requires 0 < cfg.window && k < |frames| && Delivers(cfg, frames, j) && InSequence(cfg, frames[..k])
    requires !ComesNext(cfg, |Payload(frames[..k])|, frames[k])
    ensures j == k
  {
    if j < k {
      SequenceAt(cfg, frames, k, j);
    } else if k < j {
      SequenceAt(cfg, frames, j, k);
    }
  }

  lemma NeverStops(cfg: Config, frames: seq<Frame>, j: nat)
    requires 0 < cfg.window && InSequence(cfg, frames)
    ensures !Delivers(cfg, frames, j)
  {
    assert j < |frames| ==> ComesNext(cfg, |Payload(frames[..j])|, frames[j]);
  }

  lemma StopsAt(cfg: Config, frames: seq<Frame>, k: nat)
    requires 0 < cfg.window && k < |frames| && InSequence(cfg, frames[..k])
    requires !ComesNext(cfg, |Payload(frames[..k])|, frames[k])
    ensures Fed(cfg, frames).0.phase == if Delivers(cfg, frames, k) then Completed else Rejected
    ensures Fed(cfg, frames).0.received == Payload(frames[..k])
  {
    ClientStops(cfg, frames[..k], frames[k]);
    ClientTakes(cfg, frames[..k]);
    assert frames[..k + 1][..k] == frames[..k];
    StoppedStays(cfg, frames, k + 1);
  }

  /**
   Whatever a peer sends, the client completes exactly if the frames up to some finish are in sequence, make up the
   announced size and have the digest of that finish; it then has those bytes and nothing else.
   */
  lemma ClientCompletesIff(cfg: Config, frames: seq<Frame>)
    requires 0 < cfg.window
    ensures Fed(cfg, frames).0.phase == Completed <==> exists k: nat :: Delivers(cfg, frames, k)
    ensures forall k: nat :: Delivers(cfg, frames, k) ==> Fed(cfg, frames).0.received == Payload(frames[..k])
  {
    var k := SequenceTo(cfg, frames);
    if k == |frames| {
      assert frames[..k] == frames;
      ClientTakes(cfg, frames);
      forall j: nat ensures !Delivers(cfg, frames, j) { NeverStops(cfg, frames, j); }
    } else {
      StopsAt(cfg, frames, k);
      forall j: nat | Delivers(cfg, frames, j) ensures j == k { OneStop(cfg, frames, j, k); }
    }
  }

  // ---- The server ---------------------------------------------------------------------------

  datatype Turn = Sends(n: nat) | Waits | Finishes | Gets(ack: Ack)

  /** The server, the frames it has sent, and the last offset that the peer has confirmed to it. */
  datatype Lone = Lone(server: Server, sent: seq<Frame>, confirmed: nat)

  function Turned(cfg: Config, l: Lone, turn: Turn): Lone {
    match turn
    case Sends(n) =>
      if CanSend(cfg, l.server, n) then
        var (server, frames) := ServerSend(cfg, l.server, n);
        Lone(server, l.sent + frames, l.confirmed)
      else l
    case Waits =>
      if CanTakeAck(cfg, l.server) then
        var (server, frames) := ServerTakeAck(cfg, l.server);
        Lone(server, l.sent + frames, if server.phase == Sending then l.server.offset else l.confirmed)
      else l
    case Finishes =>
      if CanFinish(cfg, l.server) then
        var (server, frames) := ServerFinish(cfg, l.server);
        Lone(server, l.sent + frames, l.confirmed)
      else l
    case Gets(ack) =>
      var (server, frames) := ServerReceive(cfg, l.server, ack);
      Lone(server, l.sent + frames, l.confirmed)
  }

  function Alone(cfg: Config, turns: seq<Turn>): Lone {
    if turns == [] then Lone(Server(0, cfg.window, None, Sending), [], 0)
    else Turned(cfg, Alone(cfg, turns[..|turns| - 1]), turns[|turns| - 1])
  }

  predicate SlotOk(cfg: Config, server: Server) {
    server.slot.Some? ==> 0 <= server.slot.value.offset <= |cfg.file| && 0 <= server.slot.value.window <= cfg.window
  }

  lemma PayloadSnoc(frames: seq<Frame>, frame: Frame)
    ensures Payload(frames + [frame]) == Payload(frames) + if frame.Data? then frame.data else []
  {
    assert (frames + [frame])[..|frames|] == frames;
  }

  ghost predicate LoneOk(cfg: Config, l: Lone) {
    && l.confirmed <= l.server.offset <= |cfg.file| && 0 <= l.server.credit
    && l.server.offset + l.server.credit <= l.confirmed + cfg.window
    && Payload(l.sent) == cfg.file[..l.server.offset]
    && SlotOk(cfg, l.server)
    && (forall i :: 0 <= i < |l.sent| && l.sent[i].Finish? ==>
          l.sent[i] == Finish(|cfg.file|, cfg.sha(cfg.file)) && l.server.offset == |cfg.file|)
    && (forall i :: 0 <= i < |l.sent| && l.sent[i].Data? ==> |l.sent[i].data| <= cfg.chunk)
  }

  lemma SendOk(cfg: Config, l: Lone, n: nat)
    requires LoneOk(cfg, l) && CanSend(cfg, l.server, n)
    ensures LoneOk(cfg, Turned(cfg, l, Sends(n)))
  {
    var at := l.server.offset;
    PayloadSnoc(l.sent, Data(at, cfg.file[at..at + n]));
    assert cfg.file[..at] + cfg.file[at..at + n] == cfg.file[..at + n];
  }

  /** A turn that sends no data. */
  lemma QuietOk(cfg: Config, l: Lone, server: Server, frames: seq<Frame>, confirmed: nat)
    requires LoneOk(cfg, l) && server.offset == l.server.offset && SlotOk(cfg, server)
    requires || frames == [] || frames == [StreamError]
             || (frames == [Finish(|cfg.file|, cfg.sha(cfg.file))] && server.offset == |cfg.file|)
    requires confirmed <= server.offset && 0 <= server.credit && server.offset + server.credit <= confirmed + cfg.window
    ensures LoneOk(cfg, Lone(server, l.sent + frames, confirmed))
  {
    if frames == [] {
      assert l.sent + frames == l.sent;
    } else {
      PayloadSnoc(l.sent, frames[0]);
      assert l.sent + [frames[0]] == l.sent + frames;
    }
  }

  lemma TurnOk(cfg: Config, l: Lone, turn: Turn)
    requires LoneOk(cfg, l)
    ensures LoneOk(cfg, Turned(cfg, l, turn))
  {
    match turn
    case Sends(n) => if CanSend(cfg, l.server, n) { SendOk(cfg, l, n); }
    case Waits =>
      if CanTakeAck(cfg, l.server) {
        var (server, frames) := ServerTakeAck(cfg, l.server);
        QuietOk(cfg, l, server, frames, if server.phase == Sending then l.server.offset else l.confirmed);
      }
    case Finishes =>
      if CanFinish(cfg, l.server) {
        var (server, frames) := ServerFinish(cfg, l.server);
        QuietOk(cfg, l, server, frames, l.confirmed);
      }
    case Gets(ack) =>
      var (server, frames) := ServerReceive(cfg, l.server, ack);
      QuietOk(cfg, l, server, frames, l.confirmed);
  }

  /**
   Whatever a peer acknowledges, the server sends the file in order in frames of at most a chunk, is never more than
   one window ahead of what the peer has confirmed, and sends the finish only after the whole file.
   */
  lemma {:induction false} ServerSendsInOrder(cfg: Config, turns: seq<Turn>)
    ensures LoneOk(cfg, Alone(cfg, turns))
  {
    if turns == [] {
      assert cfg.file[..0] == [];
    } else {
      ServerSendsInOrder(cfg, turns[..|turns| - 1]);
      TurnOk(cfg, Alone(cfg, turns[..|turns| - 1]), turns[|turns| - 1]);
    }
  }
}
