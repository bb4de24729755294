/**
 Choosing chunk and window sizes from measured round trips: access/files/estimator.go and
 access/files/transfer/policy.go. Go's 64-bit arithmetic is written out.
 */
module Estimator {
  import opened Prelude
  import Download
  import UploadState

  const KIB := 1024
  const SECOND := 1_000_000_000
  const MILLISECOND := 1_000_000
  const MIN_CHUNK := 4 * KIB
  const MAX_CHUNK := 256 * KIB
  const MIN_WINDOW := 64 * KIB
  const MAX_WINDOW := 8192 * KIB
  const BASE_CHUNK := 64 * KIB
  const BASE_WINDOW := 1024 * KIB

  /** Two's complement reduction to int64. */
  function Wrap64(x: int): int {
    (x + MAX_INT64 + 1) % (2 * MAX_INT64 + 2) - MAX_INT64 - 1
  }

  /** Division truncating toward zero. */
  function Quot(x: int, y: int): int
    requires 0 < y
  {
    if x < 0 then -(-x / y) else x / y
  }

  datatype Policy = Policy(chunk: int, window: int)

  function Normalized(p: Policy): Policy {
    var chunk := Min(MAX_CHUNK, Max(MIN_CHUNK, p.chunk));
    var window := Min(MAX_WINDOW, Max(MIN_WINDOW, p.window));
    Policy(chunk, Max(window, chunk))
  }

  /** The policy for a round-trip time alone. */
  function Tier(rtt: int): Policy {
    if rtt <= 2 * MILLISECOND then Policy(64 * KIB, 4096 * KIB)
    else if rtt <= 30 * MILLISECOND then Policy(32 * KIB, 2048 * KIB)
    else if rtt <= 120 * MILLISECOND then Policy(16 * KIB, 1024 * KIB)
    else Policy(8 * KIB, 512 * KIB)
  }

  /** Bytes in flight that keep the link busy twice over, as computed in 64 bits. */
  function Target(rtt: int, bandwidth: int): int {
    var product := Quot(Wrap64(rtt * bandwidth), SECOND);
    Min(MAX_WINDOW, Wrap64((if product <= 0 then 1 else product) * 2))
  }

  function Adapt(measured: int, bandwidth: int): Policy {
    var rtt := Max(0, measured);
    var tier := Tier(rtt);
    if bandwidth <= 0 then Normalized(tier)
    else
      var target := Target(rtt, bandwidth);
      Normalized(if 0 < target < tier.window then tier.(window := target) else tier)
  }

  datatype Estimate = Estimate(
    rtt: int, bandwidth: int,
    lastSend: Option<int>, lastSentBytes: int,
    lastAck: Option<int>, lastAckOffset: int,
    samples: nat)

  function Current(e: Estimate): Policy {
    if e.samples < 2 then Policy(BASE_CHUNK, BASE_WINDOW)
    else
      var p := Normalized(Adapt(e.rtt, e.bandwidth));
      Policy(Min(p.chunk, BASE_CHUNK), Min(p.window, BASE_WINDOW))
  }

  /**
   Whatever was measured, including sums and products that wrap, the advertised sizes stay within
   fixed bounds: a valid configuration of the download protocol, and chunks an upload accepts.
   */
  lemma PolicyIsBounded(e: Estimate, file: seq<byte>, sha: seq<byte> -> seq<byte>)
    ensures MIN_CHUNK <= Current(e).chunk <= BASE_CHUNK
    ensures Current(e).chunk <= UploadState.CHUNK_LIMIT
    ensures MIN_WINDOW <= Current(e).window <= BASE_WINDOW
    ensures Current(e).chunk <= Current(e).window
    ensures Download.ValidConfig(Download.Config(file, Current(e).window, Current(e).chunk, sha))
  {
    assert BASE_CHUNK == MIN_WINDOW;
  }

  lemma WrapIsIdentity(x: int)
    requires -MAX_INT64 - 1 <= x <= MAX_INT64
    ensures Wrap64(x) == x
  {
  }

  lemma WrapRange(x: int)
    ensures -MAX_INT64 - 1 <= Wrap64(x) <= MAX_INT64
  {
  }

  /** The window a fully measured link gets is at least twice its bandwidth-delay product, up to the caps. */
  predicate KeepsLinkBusy(rtt: nat, bandwidth: nat, window: int) {
    Min(Min(Tier(rtt).window, BASE_WINDOW), 2 * (rtt * bandwidth / SECOND)) <= window
  }

  lemma TargetValue(rtt: nat, bandwidth: nat)
    ensures var p := Wrap64(rtt * bandwidth);
            Target(rtt, bandwidth) == Min(MAX_WINDOW, if p < SECOND then 2 else 2 * (p / SECOND))
  {
    var p := Wrap64(rtt * bandwidth);
    WrapRange(rtt * bandwidth);
    WrapIsIdentity((if Quot(p, SECOND) <= 0 then 1 else Quot(p, SECOND)) * 2);
  }

  lemma WindowFromTarget(e: Estimate)
    requires 2 <= e.samples && 0 <= e.rtt && 0 < e.bandwidth
    ensures var capped := Min(Tier(e.rtt).window, BASE_WINDOW);
            && 8 * MIN_WINDOW <= capped
            && Current(e).window == Max(MIN_WINDOW, Min(capped, Target(e.rtt, e.bandwidth)))
  {
    TargetValue(e.rtt, e.bandwidth);
  }

  /** That holds exactly if the 64-bit product does not wrap, or wraps to something still large enough. */
  lemma BusyUnlessProductWraps(e: Estimate)
    requires 2 <= e.samples && 0 <= e.rtt <= MAX_INT64 && 0 < e.bandwidth <= MAX_INT64
    ensures KeepsLinkBusy(e.rtt, e.bandwidth, Current(e).window) <==>
            || e.rtt * e.bandwidth <= MAX_INT64
            || Min(Tier(e.rtt).window, BASE_WINDOW) <= 2 * (Wrap64(e.rtt * e.bandwidth) / SECOND)
  {
    var product := e.rtt * e.bandwidth;
    WindowFromTarget(e);
    TargetValue(e.rtt, e.bandwidth);
    if product <= MAX_INT64 {
      WrapIsIdentity(product);
    }
  }

  /** Ten seconds at a gigabyte per second: the product wraps and the window falls to its minimum. */
  lemma WrappedProductStarves(e: Estimate)
    requires e.samples == 2 && e.rtt == 10 * SECOND && e.bandwidth == SECOND
    ensures !KeepsLinkBusy(e.rtt, e.bandwidth, Current(e).window) && Current(e).window == MIN_WINDOW
  {
    WindowFromTarget(e);
    TargetValue(e.rtt, e.bandwidth);
  }

  // ---- Measuring ----------------------------------------------------------------------------

  /** Exponential average; 0 means nothing measured yet. */
  function Average(average: int, sample: int): int {
    if average == 0 then sample else Quot(Wrap64(Wrap64(average * 7) + sample), 8)
  }

  function Sent(e: Estimate, now: int, bytes: int): Estimate {
    e.(lastSend := Some(now), lastSentBytes := bytes)
  }

  /** `rate` is the throughput since the previous acknowledgement, as floating point gives it. */
  function Acknowledged(e: Estimate, now: int, offset: int, rate: int): Estimate {
    var timed := e.lastSend.Some? && e.lastSentBytes == offset && e.lastSend.value < now;
    var rated := e.lastAck.Some? && e.lastAckOffset < offset && e.lastAck.value < now;
    Estimate(
      if timed then Average(e.rtt, now - e.lastSend.value) else e.rtt,
      if rated then Average(e.bandwidth, rate) else e.bandwidth,
      e.lastSend, e.lastSentBytes,
      Some(now), offset, e.samples + 1)
  }

  datatype Event = Send(now: int, bytes: int) | Ack(now: int, offset: int, rate: int)

  const FRESH := Estimate(0, 0, None, 0, None, 0, 0)

  function Observe(e: Estimate, event: Event): Estimate {
    match event
    case Send(now, bytes) => Sent(e, now, bytes)
    case Ack(now, offset, rate) => Acknowledged(e, now, offset, rate)
  }

  function Run(events: seq<Event>): Estimate {
    if events == [] then FRESH else Observe(Run(events[..|events| - 1]), events[|events| - 1])
  }

  /** All readings fall in [from, to], in order. */
  predicate Timely(events: seq<Event>, from: int, to: int) {
    && (forall i :: 0 <= i < |events| ==> from <= events[i].now <= to)
    && (forall i, j :: 0 <= i < j < |events| ==> events[i].now <= events[j].now)
  }

  lemma AverageWithin(average: int, sample: int, span: int)
    requires 0 <= average <= span && 0 <= sample <= span && 8 * span <= MAX_INT64
    ensures 0 <= Average(average, sample) <= span
  {
    WrapIsIdentity(average * 7);
    WrapIsIdentity(average * 7 + sample);
  }

  /** Over every run shorter than an eighth of the clock's range, the estimate never exceeds the time elapsed. */
  lemma {:induction false} EstimateIsElapsedTime(events: seq<Event>, from: int, to: int)
    requires from <= to && Timely(events, from, to) && 8 * (to - from) <= MAX_INT64
    ensures 0 <= Run(events).rtt <= to - from
    ensures Run(events).lastSend.Some? ==> from <= Run(events).lastSend.value <= to
  {
    if events != [] {
      var front, last := events[..|events| - 1], events[|events| - 1];
      EstimateIsElapsedTime(front, from, to);
      var e := Run(front);
      if last.Ack? && e.lastSend.Some? && e.lastSend.value < last.now {
        AverageWithin(e.rtt, last.now - e.lastSend.value, to - from);
      }
    }
  }

  // ---- What a run has measured --------------------------------------------------------------

  function LastSend(events: seq<Event>): (send: Option<Event>)
    ensures send.Some? ==> send.value.Send?
  {
    if events == [] then None
    else if events[|events| - 1].Send? then Some(events[|events| - 1])
    else LastSend(events[..|events| - 1])
  }

  function LastAck(events: seq<Event>): (ack: Option<Event>)
    ensures ack.Some? ==> ack.value.Ack?
  {
    if events == [] then None
    else if events[|events| - 1].Ack? then Some(events[|events| - 1])
    else LastAck(events[..|events| - 1])
  }

  /** An acknowledgement of exactly what had been sent, after the last send. */
  predicate Answers(send: Option<Event>, ack: Event)
    requires send.Some? ==> send.value.Send?
  {
    ack.Ack? && send.Some? && send.value.bytes == ack.offset && send.value.now < ack.now
  }

  /** One that advances since the last one, in offset and time. */
  predicate Advances(last: Option<Event>, ack: Event)
    requires last.Some? ==> last.value.Ack?
  {
    ack.Ack? && last.Some? && last.value.offset < ack.offset && last.value.now < ack.now
  }

  /** The round trips of a run. */
  function RoundTrips(events: seq<Event>): seq<int> {
    if events == [] then []
    else
      var front, last := events[..|events| - 1], events[|events| - 1];
      var send := LastSend(front);
      if Answers(send, last) then RoundTrips(front) + [last.now - send.value.now] else RoundTrips(front)
  }

  /** The throughputs between acknowledgements. */
  function Rates(events: seq<Event>): seq<int> {
    if events == [] then []
    else
      var front, last := events[..|events| - 1], events[|events| - 1];
      if Advances(LastAck(front), last) then Rates(front) + [last.rate] else Rates(front)
  }

  function Acks(events: seq<Event>): nat {
    if events == [] then 0 else Acks(events[..|events| - 1]) + if events[|events| - 1].Ack? then 1 else 0
  }

  function Smoothed(samples: seq<int>): int {
    if samples == [] then 0 else Average(Smoothed(samples[..|samples| - 1]), samples[|samples| - 1])
  }

  lemma SmoothedSnoc(samples: seq<int>, x: int)
    ensures Smoothed(samples + [x]) == Average(Smoothed(samples), x)
  {
    assert (samples + [x])[..|samples|] == samples;
  }

  /** The estimate remembers the last send and the last acknowledgement. */
  predicate Remembers(e: Estimate, send: Option<Event>, ack: Option<Event>)
    requires (send.Some? ==> send.value.Send?) && (ack.Some? ==> ack.value.Ack?)
  {
    && (if send.None? then e.lastSend.None?
        else e.lastSend == Some(send.value.now) && e.lastSentBytes == send.value.bytes)
    && (if ack.None? then e.lastAck.None?
        else e.lastAck == Some(ack.value.now) && e.lastAckOffset == ack.value.offset)
  }

  lemma {:induction false} LastsAreKept(events: seq<Event>)
    ensures Remembers(Run(events), LastSend(events), LastAck(events))
  {
    if events != [] { LastsAreKept(events[..|events| - 1]); }
  }

  lemma ObservedTrip(e: Estimate, send: Option<Event>, ack: Option<Event>, event: Event)
    requires (send.Some? ==> send.value.Send?) && (ack.Some? ==> ack.value.Ack?) && Remembers(e, send, ack)
    ensures Observe(e, event).rtt == if Answers(send, event) then Average(e.rtt, event.now - send.value.now) else e.rtt
  {
  }

  lemma ObservedRate(e: Estimate, send: Option<Event>, ack: Option<Event>, event: Event)
    requires (send.Some? ==> send.value.Send?) && (ack.Some? ==> ack.value.Ack?) && Remembers(e, send, ack)
    ensures Observe(e, event).bandwidth ==
              if Advances(ack, event) then Average(e.bandwidth, event.rate) else e.bandwidth
  {
  }

  lemma SmoothedMore(samples: seq<int>, more: bool, x: int, average: int)
    requires average == Smoothed(samples)
    ensures Smoothed(if more then samples + [x] else samples) == if more then Average(average, x) else average
  {
    SmoothedSnoc(samples, x);
  }

  lemma {:induction false} TripsMeasured(events: seq<Event>)
    ensures Run(events).rtt == Smoothed(RoundTrips(events))
  {
    if events != [] {
      var front, last := events[..|events| - 1], events[|events| - 1];
      TripsMeasured(front);
      LastsAreKept(front);
      ObservedTrip(Run(front), LastSend(front), LastAck(front), last);
      var more := Answers(LastSend(front), last);
      SmoothedMore(RoundTrips(front), more, if more then last.now - LastSend(front).value.now else 0, Run(front).rtt);
    }
  }

  lemma {:induction false} RatesMeasured(events: seq<Event>)
    ensures Run(events).bandwidth == Smoothed(Rates(events))
  {
    if events != [] {
      var front, last := events[..|events| - 1], events[|events| - 1];
      RatesMeasured(front);
      LastsAreKept(front);
      ObservedRate(Run(front), LastSend(front), LastAck(front), last);
      var more := Advances(LastAck(front), last);
      SmoothedMore(Rates(front), more, if more then last.rate else 0, Run(front).bandwidth);
    }
  }

  lemma {:induction false} AcksCounted(events: seq<Event>)
    ensures Run(events).samples == Acks(events)
  {
    if events != [] { AcksCounted(events[..|events| - 1]); }
  }

  /** The estimates are the smoothed round trips and throughputs of the run; every acknowledgement counts. */
  lemma RunMeasures(events: seq<Event>)
    ensures Run(events).rtt == Smoothed(RoundTrips(events))
    ensures Run(events).bandwidth == Smoothed(Rates(events))
    ensures Run(events).samples == Acks(events)
  {
    TripsMeasured(events);
    RatesMeasured(events);
    AcksCounted(events);
  }

  predicate AllWithin(samples: seq<int>, lo: int, hi: int) {
    forall i :: 0 <= i < |samples| ==> lo <= samples[i] <= hi
  }

  lemma AverageBetween(average: int, sample: int, lo: int, hi: int)
    requires 0 <= lo <= average <= hi && lo <= sample <= hi && 8 * hi <= MAX_INT64
    ensures lo <= Average(average, sample) <= hi
  {
    WrapIsIdentity(average * 7);
    WrapIsIdentity(average * 7 + sample);
  }

  /** An estimate lies between the smallest and the largest of its samples. */
  lemma {:induction false} SmoothedWithin(samples: seq<int>, lo: int, hi: int)
    requires samples != [] && 0 <= lo <= hi && AllWithin(samples, lo, hi) && 8 * hi <= MAX_INT64
    ensures lo <= Smoothed(samples) <= hi
  {
    var front, last := samples[..|samples| - 1], samples[|samples| - 1];
    if front != [] {
      SmoothedWithin(front, lo, hi);
      AverageBetween(Smoothed(front), last, lo, hi);
    }
  }

  function Distance(average: int, sample: int): nat {
    if average < sample - 7 then sample - 7 - average else if sample < average then average - sample else 0
  }

  lemma AverageApproaches(average: int, sample: int)
    requires 0 <= average <= MAX_INT64 / 8 && 0 <= sample <= MAX_INT64 / 8
    ensures 0 <= Average(average, sample) <= MAX_INT64 / 8
    ensures Distance(Average(average, sample), sample) <= Max(0, Distance(average, sample) - 1)
  {
    WrapIsIdentity(average * 7);
    WrapIsIdentity(average * 7 + sample);
  }

  /** The samples, followed by `n` that are all the same. */
  function Followed(samples: seq<int>, sample: int, n: nat): seq<int> {
    if n == 0 then samples else Followed(samples, sample, n - 1) + [sample]
  }

  lemma {:induction false} DistanceShrinks(earlier: seq<int>, sample: int, n: nat)
    requires 0 <= sample <= MAX_INT64 / 8 && 0 <= Smoothed(earlier) <= MAX_INT64 / 8
    ensures var e := Smoothed(Followed(earlier, sample, n));
            0 <= e <= MAX_INT64 / 8 && Distance(e, sample) <= Max(0, Distance(Smoothed(earlier), sample) - n)
  {
    if n > 0 {
      DistanceShrinks(earlier, sample, n - 1);
      SmoothedSnoc(Followed(earlier, sample, n - 1), sample);
      AverageApproaches(Smoothed(Followed(earlier, sample, n - 1)), sample);
    }
  }

  /** And it follows the link: samples that keep coming out the same pull it to within 7 units below them. */
  lemma SmoothedFollows(earlier: seq<int>, sample: int, n: nat)
    requires 0 <= sample <= MAX_INT64 / 8 && 0 <= Smoothed(earlier) <= MAX_INT64 / 8
    requires Smoothed(earlier) - n <= sample <= Smoothed(earlier) + n
    ensures sample - 7 <= Smoothed(Followed(earlier, sample, n)) <= sample
  {
    DistanceShrinks(earlier, sample, n);
  }

  lemma ChunkByLatency(e: Estimate)
    requires 2 <= e.samples && 0 <= e.rtt
    ensures var p, ms := Current(e), 1_000_000;
            && p.chunk == (if e.rtt <= 2 * ms then 0x1_0000 else if e.rtt <= 30 * ms then 0x8000
                           else if e.rtt <= 120 * ms then 0x4000 else 0x2000)
            && Min(Tier(e.rtt).window, BASE_WINDOW) == (if e.rtt <= 120 * ms then 0x10_0000 else 0x8_0000)
            && (e.bandwidth == 0 ==> p.window == Min(Tier(e.rtt).window, BASE_WINDOW))
  {
  }

  lemma WindowByProduct(e: Estimate, product: nat)
    requires 2 <= e.samples && 0 <= e.rtt && 0 < e.bandwidth && product == e.rtt * e.bandwidth <= MAX_INT64
    ensures var cap := Min(Tier(e.rtt).window, BASE_WINDOW);
            Current(e).window == Max(0x1_0000, Min(cap, 2 * (product / 1_000_000_000)))
  {
    WindowFromTarget(e);
    TargetValue(e.rtt, e.bandwidth);
    WrapIsIdentity(product);
  }

  /** The policy for round-trip time and rate. */
  function TablePolicy(rtt: nat, rate: nat): Policy {
    var ms := 1_000_000;
    var chunk := if rtt <= 2 * ms then 0x1_0000 else if rtt <= 30 * ms then 0x8000
                 else if rtt <= 120 * ms then 0x4000 else 0x2000;
    var cap := if rtt <= 120 * ms then 0x10_0000 else 0x8_0000;
    Policy(chunk, if rate == 0 then cap else Max(0x1_0000, Min(cap, 2 * (rtt * rate / 1_000_000_000))))
  }

  lemma PolicyByEstimate(e: Estimate)
    requires 0 <= e.rtt && 0 <= e.bandwidth && e.rtt * e.bandwidth <= MAX_INT64
    ensures Current(e) == if e.samples < 2 then Policy(0x1_0000, 0x10_0000) else TablePolicy(e.rtt, e.bandwidth)
  {
    if 2 <= e.samples {
      ChunkByLatency(e);
      if 0 < e.bandwidth { WindowByProduct(e, e.rtt * e.bandwidth); }
    }
  }

  /**
   The policy in use: the defaults until two acknowledgements have come; then a chunk by the round-trip time, and a
   window for it that twice the bandwidth-delay product, if known and computed without a wrap, can lower.
   */
  lemma PolicyInUse(events: seq<Event>)
    requires var rtt, rate := Smoothed(RoundTrips(events)), Smoothed(Rates(events));
             0 <= rtt && 0 <= rate && rtt * rate <= MAX_INT64
    ensures Current(Run(events)) ==
              if Acks(events) < 2 then Policy(0x1_0000, 0x10_0000)
              else TablePolicy(Smoothed(RoundTrips(events)), Smoothed(Rates(events)))
  {
    RunMeasures(events);
    PolicyByEstimate(Run(events));
  }

  class Estimates {
    var rtt: int
    var bandwidth: int
    var lastSendAt: Option<int>
    var lastSentBytes: int
    var lastAckAt: Option<int>
    var lastAckOffset: int
    var samples: nat

    function View(): Estimate
      reads this
    {
      Estimate(rtt, bandwidth, lastSendAt, lastSentBytes, lastAckAt, lastAckOffset, samples)
    }

    constructor ()
      ensures View() == FRESH
    {
      rtt, bandwidth, lastSendAt, lastSentBytes, lastAckAt, lastAckOffset, samples := 0, 0, None, 0, None, 0, 0;
    }

    method ObserveDownloadSend(now: int, bytes: int)
      modifies `lastSendAt, `lastSentBytes
      ensures View() == Sent(old(View()), now, bytes)
    {
      lastSendAt, lastSentBytes := Some(now), bytes;
    }

    method ObserveAck(now: int, offset: int, rate: int)
      modifies this
      ensures View() == Acknowledged(old(View()), now, offset, rate)
    {
      if lastSendAt.Some? && lastSentBytes == offset {
        var elapsed := now - lastSendAt.value;
        if elapsed > 0 {
          if rtt == 0 {
            rtt := elapsed;
          } else {
            rtt := Quot(Wrap64(Wrap64(rtt * 7) + elapsed), 8);
          }
        }
      }
      if lastAckAt.Some? && offset > lastAckOffset && now - lastAckAt.value > 0 {
        if bandwidth == 0 {
          bandwidth := rate;
        } else {
          bandwidth := Quot(Wrap64(Wrap64(bandwidth * 7) + rate), 8);
        }
      }
      lastAckAt, lastAckOffset, samples := Some(now), offset, samples + 1;
    }

    method CurrentPolicy() returns (p: Policy)
      ensures p == Current(View())
      ensures MIN_CHUNK <= p.chunk <= BASE_CHUNK && MIN_WINDOW <= p.window <= BASE_WINDOW && p.chunk <= p.window
    {
      PolicyIsBounded(View(), [], bytes => bytes);
      if samples < 2 {
        return Policy(BASE_CHUNK, BASE_WINDOW);
      }
      p := Normalized(Adapt(rtt, bandwidth));
      if p.window > BASE_WINDOW {
        p := p.(window := BASE_WINDOW);
      }
      if p.chunk > BASE_CHUNK {
        p := p.(chunk := BASE_CHUNK);
      }
    }
  }
}
