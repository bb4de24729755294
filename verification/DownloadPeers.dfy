/** Both download parties as the program writes them: objects whose fields each call changes. */
module DownloadPeers {
  import opened Prelude
  import opened Download

  class DownloadServer {
    const cfg: Config
    var offset: nat
    var credit: int
    var slot: Option<Ack>
    var phase: ServerPhase

    ghost function View(): Server
      reads this
    {
      Server(offset, credit, slot, phase)
    }

    constructor (cfg: Config)
      ensures this.cfg == cfg && View() == Initial(cfg).server
    {
      this.cfg := cfg;
      offset, credit, slot, phase := 0, cfg.window, None, Sending;
    }

    /**
     The stretch of run between two waits, each read as long or short as the file system makes it: it sends
     exactly the bytes that the credit and the file allow, in order and in frames of at most one chunk.
     */
    method SendBurst() returns (frames: seq<Frame>)
      requires ValidConfig(cfg) && 0 <= credit && offset <= |cfg.file| && phase == Sending
      modifies this`offset, this`credit
      ensures offset == Min(|cfg.file|, old(offset) + old(credit)) && credit == old(credit) - (offset - old(offset))
      ensures Chain(cfg, frames, old(offset), offset, false)
      ensures forall i :: 0 <= i < |frames| ==> frames[i].Data? && |frames[i].data| <= cfg.chunk
    {
      frames := [];
      while offset < |cfg.file| && 0 < credit
        invariant old(offset) <= offset <= |cfg.file| && 0 <= credit == old(credit) - (offset - old(offset))
        invariant Chain(cfg, frames, old(offset), offset, false)
        invariant forall i :: 0 <= i < |frames| ==> frames[i].Data? && |frames[i].data| <= cfg.chunk
        decreases |cfg.file| - offset
      {
        var limit := Min(cfg.chunk, Min(credit, |cfg.file| - offset));
        var n: nat :| 0 < n <= limit;
        var chunk := cfg.file[offset..offset + n];
        ChainSnoc(cfg, frames, old(offset), offset, chunk);
        frames := frames + [Data(offset, chunk)];
        offset := offset + n;
        credit := credit - n;
      }
    }

    /** The body of the wait at zero credit. */
    method TakeAcknowledgement() returns (ok: bool)
      requires CanTakeAck(cfg, View())
      modifies this
      ensures ok <==> old(slot).value.offset == offset
      ensures ok ==> credit == old(credit) + old(slot).value.window
      ensures View() == ServerTakeAck(cfg, old(View())).0
      ensures ok <==> ServerTakeAck(cfg, old(View())).1 == []
    {
      var ack := slot.value;
      slot := None;
      if ack.offset != offset {
        phase := Broken;
        return false;
      }
      credit := credit + ack.window;
      return true;
    }

    method HandleFrame(ack: Ack) returns (ok: bool)
      modifies this`slot
      ensures ok <==> old(slot).None? && 0 <= ack.offset <= |cfg.file| && 0 <= ack.window <= cfg.window
      ensures slot == if ok then Some(ack) else old(slot)
      ensures View() == ServerReceive(cfg, old(View()), ack).0
      ensures ok <==> ServerReceive(cfg, old(View()), ack).1 == []
    {
      if ack.offset < 0 || ack.offset > |cfg.file| || ack.window < 0 || ack.window > cfg.window {
        return false;
      }
      if slot.Some? {
        return false; // acknowledgement backpressure
      }
      slot := Some(ack);
      return true;
    }
  }

  class DownloadClient {
    const cfg: Config
    var offset: nat
    var sinceAck: nat
    var received: seq<byte>
    var phase: ClientPhase

    ghost function View(): Client
      reads this
    {
      Client(offset, sinceAck, received, phase)
    }

    constructor (cfg: Config)
      ensures this.cfg == cfg && View() == Initial(cfg).client
    {
      this.cfg := cfg;
      offset, sinceAck, received, phase := 0, 0, [], Receiving;
    }

    method Receive(frame: Frame) returns (acks: seq<Ack>)
      modifies this
      ensures (View(), acks) == ClientReceive(cfg, old(View()), frame)
    {
      acks := [];
      match frame {
        case Data(at, data) =>
          if at != offset || |data| == 0 || |data| > |cfg.file| - offset || |data| > cfg.window - sinceAck {
            phase := Rejected;
            return;
          }
          received := received + data;
          offset := offset + |data|;
          sinceAck := sinceAck + |data|;
          if sinceAck == cfg.window {
            acks := [Ack(offset, sinceAck)];
            sinceAck := 0;
          }
        case Finish(size, digest) =>
          if size != offset || size != |cfg.file| || digest != cfg.sha(received) {
            phase := Rejected;
            return;
          }
          phase := Completed;
        case StreamError =>
          phase := Rejected;
      }
    }
  }
}
