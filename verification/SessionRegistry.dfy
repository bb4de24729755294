/**
 The stream registry of a client session (access/server/session.go, terminal.go, files.go): channel
 numbers, the channel and token tables and the retired set, under every order of allocation,
 publication, failed open, retirement and mass release.
 */
module SessionRegistry {
  import opened Prelude

  type Channel = nat
  type Token = seq<byte>

  const MAX_CHANNEL := 65535
  const FIRST_FREE := 6

  /** A stream binding; `serial` is its identity as an object. */
  datatype Binding = Binding(serial: nat, channel: Channel, token: Token, isLocal: bool)

  datatype Registry = Registry(
    nextChannel: nat, channels: map<Channel, Binding>, tokens: map<Token, Binding>, retired: set<Channel>)

  const INITIAL_REGISTRY := Registry(FIRST_FREE, map[], map[], {})

  /** Big-endian channel prefix of every token that access issues. */
  function Prefix(channel: Channel): Token
    requires channel <= MAX_CHANNEL
  {
    [channel / 256, channel % 256]
  }

  /** The three token forms differ only in what follows the channel. */
  function IssueToken(channel: Channel, rest: Token): Token
    requires channel <= MAX_CHANNEL
  {
    Prefix(channel) + rest
  }

  lemma TokenNamesChannel(a: Channel, b: Channel, restA: Token, restB: Token)
    requires a <= MAX_CHANNEL && b <= MAX_CHANNEL && IssueToken(a, restA) == IssueToken(b, restB)
    ensures a == b
  {
    assert IssueToken(a, restA)[0] == a / 256 && IssueToken(a, restA)[1] == a % 256;
    assert IssueToken(b, restB)[0] == b / 256 && IssueToken(b, restB)[1] == b % 256;
  }

  // ---- Operations ---------------------------------------------------------------------------

  predicate CanAllocate(r: Registry) {
    r.nextChannel < MAX_CHANNEL
  }

  function Allocate(r: Registry): Registry
    requires CanAllocate(r)
  {
    r.(nextChannel := r.nextChannel + 1)
  }

  /** Publication of a binding under its channel and its token. */
  function Register(r: Registry, b: Binding): Registry {
    r.(channels := r.channels[b.channel := b], tokens := r.tokens[b.token := b])
  }

  /** releaseLocalChannel, after a failed open. */
  function ReleaseLocal(r: Registry, channel: Channel): Registry {
    if channel == 0 then r else r.(channels := r.channels - {channel})
  }

  /** retireBinding: removes what is still this binding, and always marks the channel. */
  function Retire(r: Registry, b: Binding): Registry {
    Registry(r.nextChannel,
             if b.channel in r.channels && r.channels[b.channel] == b then r.channels - {b.channel} else r.channels,
             if b.token in r.tokens && r.tokens[b.token] == b then r.tokens - {b.token} else r.tokens,
             r.retired + {b.channel})
  }

  function ReleaseAll(r: Registry): Registry {
    Registry(r.nextChannel, map[], map[], r.retired + r.channels.Keys)
  }

  datatype Routing = Deliver(binding: Binding) | Ignore | Unbound

  /** handleStreamFrame up to the resource: `emptyClose` is a close frame without payload. */
  function Route(r: Registry, channel: Channel, emptyClose: bool): Routing {
    if channel in r.channels then Deliver(r.channels[channel])
    else if channel in r.retired || emptyClose then Ignore
    else Unbound
  }

  // ---- Runs ---------------------------------------------------------------------------------

  /** `reserved` are channels handed out and not yet published; `issued` are all bindings ever published. */
  datatype System = System(registry: Registry, reserved: set<Channel>, issued: set<Binding>)

  const INITIAL := System(INITIAL_REGISTRY, {}, {})

  datatype Event =
    | AllocateLocal
    | RegisterLocal(channel: Channel, rest: Token, serial: nat)
    | OpenFailed(channel: Channel)
    | PublishAttachment(rest: Token, serial: nat)
    | RetireBinding(binding: Binding)
    | ReleaseAllStreams

  function Step(s: System, e: Event): System {
    match e
    case AllocateLocal =>
      if !CanAllocate(s.registry) then s
      else s.(registry := Allocate(s.registry), reserved := s.reserved + {s.registry.nextChannel + 1})
    case RegisterLocal(channel, rest, serial) =>
      if channel !in s.reserved || MAX_CHANNEL < channel then s
      else
        var b := Binding(serial, channel, IssueToken(channel, rest), true);
        System(Register(s.registry, b), s.reserved - {channel}, s.issued + {b})
    case OpenFailed(channel) =>
      if channel !in s.reserved then s
      else s.(registry := ReleaseLocal(s.registry, channel), reserved := s.reserved - {channel})
    case PublishAttachment(rest, serial) =>
      if !CanAllocate(s.registry) then s
      else
        var channel := s.registry.nextChannel + 1;
        var b := Binding(serial, channel, IssueToken(channel, rest), false);
        s.(registry := Register(Allocate(s.registry), b), issued := s.issued + {b})
    case RetireBinding(b) => if b !in s.issued then s else s.(registry := Retire(s.registry, b))
    case ReleaseAllStreams => s.(registry := ReleaseAll(s.registry))
  }

  function Run(events: seq<Event>): System {
    if events == [] then INITIAL else Step(Run(events[..|events| - 1]), events[|events| - 1])
  }

  // ---- The invariant ------------------------------------------------------------------------

  ghost predicate InRange(s: System, channel: Channel) {
    FIRST_FREE < channel <= s.registry.nextChannel <= MAX_CHANNEL
  }

  /** An issued binding has a token that names its channel, and is live or retired. */
  ghost predicate IssuedOk(s: System, b: Binding) {
    && InRange(s, b.channel) && b.channel !in s.reserved
    && 2 <= |b.token| && b.token[..2] == Prefix(b.channel)
    && (Live(s.registry, b) || b.channel in s.registry.retired)
  }

  ghost predicate Live(r: Registry, b: Binding) {
    b.channel in r.channels && r.channels[b.channel] == b
  }

  ghost predicate Inv(s: System) {
    && FIRST_FREE <= s.registry.nextChannel <= MAX_CHANNEL
    && (forall channel :: channel in s.reserved ==> InRange(s, channel))
    && (forall b :: b in s.issued ==> IssuedOk(s, b))
    && OneBindingPerChannel(s.issued)
    && RetiredWereIssued(s.registry.retired, s.issued)
    && TablesOk(s.registry, s.issued)
  }

  ghost predicate OneBindingPerChannel(issued: set<Binding>) {
    forall a, b :: a in issued && b in issued && a.channel == b.channel ==> a == b
  }

  ghost predicate RetiredWereIssued(retired: set<Channel>, issued: set<Binding>) {
    forall channel :: channel in retired ==> exists b :: b in issued && b.channel == channel
  }

  /** The two tables hold the same issued bindings, and no retired channel. */
  ghost predicate TablesOk(r: Registry, issued: set<Binding>) {
    && r.channels.Keys !! r.retired
    && (forall channel :: channel in r.channels ==>
          var b := r.channels[channel];
          b in issued && b.channel == channel && b.token in r.tokens && r.tokens[b.token] == b)
    && (forall token :: token in r.tokens ==> r.tokens[token].token == token && Live(r, r.tokens[token]))
  }

  /** Bindings with one token are one binding, whatever the random parts were. */
  lemma TokensDiffer(s: System, b: Binding, channel: Channel, rest: Token)
    requires Inv(s) && b in s.issued && channel <= MAX_CHANNEL && b.channel != channel
    ensures b.token != IssueToken(channel, rest)
  {
    assert IssuedOk(s, b);
    if b.token == IssueToken(channel, rest) {
      assert b.token == IssueToken(b.channel, b.token[2..]);
      TokenNamesChannel(b.channel, channel, b.token[2..], rest);
    }
  }

  /** Publishing a binding on a channel that no binding had disturbs no other entry. */
  lemma RegisterInv(s: System, b: Binding, rest: Token)
    requires Inv(s) && InRange(s, b.channel) && b.channel !in s.reserved && b.token == IssueToken(b.channel, rest)
    requires forall a :: a in s.issued ==> a.channel != b.channel
    ensures Inv(s.(registry := Register(s.registry, b), issued := s.issued + {b}))
  {
    var t := s.(registry := Register(s.registry, b), issued := s.issued + {b});
    assert b.token[..2] == Prefix(b.channel);
    forall a | a in s.issued ensures a.token != b.token && IssuedOk(t, a) {
      TokensDiffer(s, a, b.channel, rest);
      assert IssuedOk(s, a);
    }
    RegisterTables(s, b);
    RetiredStayIssued(s.registry.retired, s.issued, b);
  }

  lemma RetiredStayIssued(retired: set<Channel>, issued: set<Binding>, b: Binding)
    requires RetiredWereIssued(retired, issued)
    ensures RetiredWereIssued(retired, issued + {b})
  {
    forall channel | channel in retired ensures exists a :: a in issued + {b} && a.channel == channel {
      var a :| a in issued && a.channel == channel;
      assert a in issued + {b};
    }
  }

  lemma RegisterTables(s: System, b: Binding)
    requires Inv(s) && forall a :: a in s.issued ==> a.channel != b.channel && a.token != b.token
    ensures TablesOk(Register(s.registry, b), s.issued + {b})
  {
    var r := Register(s.registry, b);
    forall token | token in r.tokens ensures r.tokens[token].token == token && Live(r, r.tokens[token]) {
      if token != b.token { assert s.registry.tokens[token] in s.issued; }
    }
  }

  /** The channel allocated last is in range and not in use yet. */
  ghost predicate TopIsFree(s: System) {
    && InRange(s, s.registry.nextChannel) && s.registry.nextChannel !in s.reserved
    && forall a :: a in s.issued ==> a.channel != s.registry.nextChannel
  }

  lemma NextIsFresh(s: System)
    requires Inv(s) && CanAllocate(s.registry)
    ensures Inv(s.(registry := Allocate(s.registry)))
    ensures TopIsFree(s.(registry := Allocate(s.registry)))
  {
    var t := s.(registry := Allocate(s.registry));
    forall a | a in s.issued ensures IssuedOk(t, a) { assert IssuedOk(s, a); }
  }

  lemma AllocateInv(s: System)
    requires Inv(s) && CanAllocate(s.registry)
    ensures Inv(Step(s, AllocateLocal))
  {
    NextIsFresh(s);
    var t := Step(s, AllocateLocal);
    forall a | a in s.issued ensures IssuedOk(t, a) { assert IssuedOk(s, a); }
  }

  lemma UnreserveInv(s: System, channel: Channel)
    requires Inv(s) && channel in s.reserved
    ensures Inv(s.(reserved := s.reserved - {channel}))
    ensures channel !in s.registry.channels && forall a :: a in s.issued ==> a.channel != channel
  {
    var t := s.(reserved := s.reserved - {channel});
    forall a | a in s.issued ensures IssuedOk(t, a) && a.channel != channel { assert IssuedOk(s, a); }
  }

  lemma RetireInv(s: System, b: Binding)
    requires Inv(s) && b in s.issued
    ensures Inv(Step(s, RetireBinding(b)))
  {
    var t := Step(s, RetireBinding(b));
    assert IssuedOk(s, b);
    forall a | a in t.issued ensures IssuedOk(t, a) { assert IssuedOk(s, a); }
    RetireTables(s, b);
  }

  lemma RetireTables(s: System, b: Binding)
    requires Inv(s) && b in s.issued
    ensures TablesOk(Retire(s.registry, b), s.issued)
  {
    var r := Retire(s.registry, b);
    forall token | token in r.tokens ensures r.tokens[token].token == token && Live(r, r.tokens[token]) {
      assert Live(s.registry, s.registry.tokens[token]);
    }
  }

  lemma ReleaseAllInv(s: System)
    requires Inv(s)
    ensures Inv(Step(s, ReleaseAllStreams))
  {
    var t := Step(s, ReleaseAllStreams);
    forall a | a in t.issued ensures IssuedOk(t, a) { assert IssuedOk(s, a); }
    forall channel | channel in t.registry.retired ensures exists a :: a in t.issued && a.channel == channel {
      if channel in s.registry.channels { assert s.registry.channels[channel] in t.issued; }
    }
  }

  lemma RegisterLocalInv(s: System, channel: Channel, rest: Token, serial: nat)
    requires Inv(s) && channel in s.reserved
    ensures Inv(Step(s, RegisterLocal(channel, rest, serial)))
  {
    UnreserveInv(s, channel);
    assert InRange(s, channel);
    var b := Binding(serial, channel, IssueToken(channel, rest), true);
    RegisterInv(s.(reserved := s.reserved - {channel}), b, rest);
  }

  lemma PublishInv(s: System, rest: Token, serial: nat)
    requires Inv(s) && CanAllocate(s.registry)
    ensures Inv(Step(s, PublishAttachment(rest, serial)))
  {
    NextIsFresh(s);
    PublishOnInv(s.(registry := Allocate(s.registry)), rest, serial);
  }

  lemma PublishOnInv(s: System, rest: Token, serial: nat)
    requires Inv(s) && TopIsFree(s)
    ensures var b := Binding(serial, s.registry.nextChannel, IssueToken(s.registry.nextChannel, rest), false);
            Inv(s.(registry := Register(s.registry, b), issued := s.issued + {b}))
  {
    RegisterInv(s, Binding(serial, s.registry.nextChannel, IssueToken(s.registry.nextChannel, rest), false), rest);
  }

  lemma OpenFailedInv(s: System, channel: Channel)
    requires Inv(s) && channel in s.reserved
    ensures Inv(Step(s, OpenFailed(channel)))
  {
    UnreserveInv(s, channel);
    assert s.registry.channels - {channel} == s.registry.channels;
  }

  lemma StepInv(s: System, e: Event)
    requires Inv(s)
    ensures Inv(Step(s, e))
  {
    match e
    case AllocateLocal => if CanAllocate(s.registry) { AllocateInv(s); }
    case RegisterLocal(channel, rest, serial) =>
      if channel in s.reserved { RegisterLocalInv(s, channel, rest, serial); }
    case OpenFailed(channel) => if channel in s.reserved { OpenFailedInv(s, channel); }
    case PublishAttachment(rest, serial) => if CanAllocate(s.registry) { PublishInv(s, rest, serial); }
    case RetireBinding(b) => if b in s.issued { RetireInv(s, b); }
    case ReleaseAllStreams => ReleaseAllInv(s);
  }

  lemma {:induction false} RunInv(events: seq<Event>)
    ensures Inv(Run(events))
  {
    if events != [] {
      RunInv(events[..|events| - 1]);
      StepInv(Run(events[..|events| - 1]), events[|events| - 1]);
    }
  }

  // ---- What every run guarantees ------------------------------------------------------------

  /** The channel and token tables are inverse to each other, without assuming anything of the random bytes. */
  lemma TablesAreInBijection(events: seq<Event>, b: Binding)
    ensures var r := Run(events).registry;
            && (b.channel in r.channels && r.channels[b.channel] == b <==>
                 b.token in r.tokens && r.tokens[b.token] == b)
            && (forall channel :: channel in r.channels ==> r.channels[channel].channel == channel)
            && (forall token :: token in r.tokens ==> r.tokens[token].token == token)
            && r.channels.Values == r.tokens.Values
  {
    RunInv(events);
    var r := Run(events).registry;
    forall a ensures a in r.channels.Values <==> a in r.tokens.Values {
      if a in r.channels.Values {
        assert a.token in r.tokens && r.tokens[a.token] == a;
      }
      if a in r.tokens.Values {
        assert a.channel in r.channels && r.channels[a.channel] == a;
      }
    }
  }

  /** No two bindings of a session ever share a channel. */
  lemma ChannelsAreNeverReused(events: seq<Event>, a: Binding, b: Binding)
    requires a in Run(events).issued && b in Run(events).issued && a.channel == b.channel
    ensures a == b
  {
    RunInv(events);
  }

  lemma {:induction false} RetiredStays(before: seq<Event>, after: seq<Event>, channel: Channel)
    requires channel in Run(before).registry.retired
    ensures channel in Run(before + after).registry.retired
  {
    if after == [] {
      assert before + after == before;
    } else {
      RetiredStays(before, after[..|after| - 1], channel);
      assert (before + after)[..|before + after| - 1] == before + after[..|after| - 1];
    }
  }

  /** The event retires the binding, which is published. */
  predicate RetiresNow(s: System, e: Event, b: Binding) {
    b in s.issued && (e == RetireBinding(b) || e.ReleaseAllStreams?)
  }

  predicate RetiredAt(events: seq<Event>, b: Binding, k: nat) {
    k < |events| && RetiresNow(Run(events[..k]), events[k], b)
  }

  lemma RetiredAtFront(events: seq<Event>, b: Binding, k: nat)
    requires events != []
    ensures var front, last := events[..|events| - 1], events[|events| - 1];
            RetiredAt(events, b, k) <==> RetiredAt(front, b, k) || (k == |front| && RetiresNow(Run(front), last, b))
  {
    var front := events[..|events| - 1];
    if k < |front| { assert front[..k] == events[..k] && front[k] == events[k]; }
  }

  lemma NewIsNotRetired(s: System, e: Event, b: Binding)
    requires Inv(s) && b !in s.issued && b in Step(s, e).issued
    ensures b.channel !in Step(s, e).registry.retired
  {
    StepInv(s, e);
  }

  lemma StepRetires(s: System, e: Event, b: Binding)
    requires Inv(s) && b in s.issued
    ensures b.channel in Step(s, e).registry.retired <==>
            b.channel in s.registry.retired || e == RetireBinding(b) || e.ReleaseAllStreams?
  {
    assert IssuedOk(s, b);
  }

  /** A binding is retired exactly by its own retirement or a release of all streams, after its publication. */
  lemma {:induction false} RetiredIff(events: seq<Event>, b: Binding)
    requires b in Run(events).issued
    ensures b.channel in Run(events).registry.retired <==> exists k: nat :: RetiredAt(events, b, k)
  {
    if events != [] {
      var front, last := events[..|events| - 1], events[|events| - 1];
      RunInv(front);
      forall k: nat
        ensures RetiredAt(events, b, k) <==> RetiredAt(front, b, k) || (k == |front| && RetiresNow(Run(front), last, b))
      {
        RetiredAtFront(events, b, k);
      }
      if b in Run(front).issued {
        RetiredIff(front, b);
        StepRetires(Run(front), last, b);
        if last == RetireBinding(b) || last.ReleaseAllStreams? { assert RetiredAt(events, b, |front|); }
      } else {
        NewIsNotRetired(Run(front), last, b);
        forall k: nat ensures !RetiredAt(front, b, k) { if k < |front| { IssuedStays(front, k, b); } }
      }
    }
  }

  lemma {:induction false} IssuedStays(events: seq<Event>, k: nat, b: Binding)
    requires k <= |events|
    ensures b in Run(events[..k]).issued ==> b in Run(events).issued
    decreases |events|
  {
    if k < |events| {
      assert events[..|events| - 1][..k] == events[..k];
      IssuedStays(events[..|events| - 1], k, b);
    } else {
      assert events[..k] == events;
    }
  }

  /** Every frame that arrives on a channel after its retirement is ignored without an error. */
  lemma LateFramesAreIgnored(before: seq<Event>, after: seq<Event>, channel: Channel, emptyClose: bool)
    requires channel in Run(before).registry.retired
    ensures Route(Run(before + after).registry, channel, emptyClose) == Ignore
  {
    RetiredStays(before, after, channel);
    RunInv(before + after);
  }

  /** A frame reaches a published binding exactly until its retirement or a release of all streams. */
  lemma FramesReachTheLive(events: seq<Event>, b: Binding, emptyClose: bool)
    requires b in Run(events).issued
    ensures Route(Run(events).registry, b.channel, emptyClose) ==
            if exists k: nat :: RetiredAt(events, b, k) then Ignore else Deliver(b)
  {
    RunInv(events);
    RetiredIff(events, b);
    assert IssuedOk(Run(events), b);
  }

  /** A frame on a channel that was never published is an error, unless it is an empty close. */
  lemma UnpublishedIsUnbound(events: seq<Event>, channel: Channel, emptyClose: bool)
    requires forall b :: b in Run(events).issued ==> b.channel != channel
    ensures Route(Run(events).registry, channel, emptyClose) == if emptyClose then Ignore else Unbound
  {
    RunInv(events);
  }

  // ---- Publication --------------------------------------------------------------------------

  /** How many channels have been asked for. */
  function Asked(events: seq<Event>): nat {
    if events == [] then 0
    else
      var last := events[|events| - 1];
      Asked(events[..|events| - 1]) + if last.AllocateLocal? || last.PublishAttachment? then 1 else 0
  }

  lemma {:induction false} ChannelsAreCounted(events: seq<Event>)
    ensures Run(events).registry.nextChannel == 6 + Min(Asked(events), 65529)
  {
    if events != [] { ChannelsAreCounted(events[..|events| - 1]); }
  }

  lemma RunSnoc(events: seq<Event>, e: Event)
    ensures Run(events + [e]) == Step(Run(events), e)
  {
    assert (events + [e])[..|events|] == events;
  }

  /**
   An attachment is published on the next channel, from 7 on, under a token that begins with the channel's two bytes,
   exactly if fewer than 65529 channels have been asked for; frames then reach it.
   */
  lemma AttachmentIsPublishedIff(events: seq<Event>, rest: Token, serial: nat, emptyClose: bool)
    ensures var n, s, t := Asked(events), Run(events), Run(events + [PublishAttachment(rest, serial)]);
            if n < 65529 then
              var b := Binding(serial, 7 + n, [(7 + n) / 256, (7 + n) % 256] + rest, false);
              t.issued == s.issued + {b} && Route(t.registry, 7 + n, emptyClose) == Deliver(b)
            else t == s
  {
    ChannelsAreCounted(events);
    RunSnoc(events, PublishAttachment(rest, serial));
  }

  /** A local open gets its channel by the same count, and publishes exactly one binding on it. */
  lemma LocalIsPublished(events: seq<Event>, rest: Token, serial: nat, emptyClose: bool)
    requires Asked(events) < 65529
    ensures var channel, t := 7 + Asked(events), Run(events + [AllocateLocal]);
            && channel in t.reserved && t.issued == Run(events).issued
            && var r := Run(events + [AllocateLocal] + [RegisterLocal(channel, rest, serial)]);
               var b := Binding(serial, channel, [channel / 256, channel % 256] + rest, true);
               && r.issued == t.issued + {b} && channel !in r.reserved
               && Route(r.registry, channel, emptyClose) == Deliver(b)
  {
    ChannelsAreCounted(events);
    RunSnoc(events, AllocateLocal);
    RunSnoc(events + [AllocateLocal], RegisterLocal(7 + Asked(events), rest, serial));
  }

  /** handleStreamFrame looks at the tables twice; anything may happen in between. */
  function RouteByTwoLooks(first: Registry, second: Registry, channel: Channel, emptyClose: bool): Routing {
    if channel in first.channels then Deliver(first.channels[channel])
    else if channel in second.retired || emptyClose then Ignore
    else Unbound
  }

  /** Its answer is that of one look, at the first moment or at the second. */
  lemma TwoLooksAreOne(before: seq<Event>, between: seq<Event>, channel: Channel, emptyClose: bool)
    ensures var first, second := Run(before).registry, Run(before + between).registry;
            var answer := RouteByTwoLooks(first, second, channel, emptyClose);
            answer == Route(first, channel, emptyClose) || answer == Route(second, channel, emptyClose)
  {
    RunInv(before + between);
    if channel in Run(before).registry.retired { RetiredStays(before, between, channel); }
  }
}
