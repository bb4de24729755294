/** The session object that owns the stream registry; each method holds streamsMu once. */
module ServerSession {
  import opened Prelude
  import opened SessionRegistry

  class Session {
    var channels: map<Channel, Binding>
    var tokens: map<Token, Binding>
    var retired: set<Channel>
    var nextChannel: nat

    ghost function View(): Registry
      reads this
    {
      Registry(nextChannel, channels, tokens, retired)
    }

    constructor ()
      ensures View() == INITIAL_REGISTRY
    {
      channels, tokens, retired, nextChannel := map[], map[], {}, FIRST_FREE;
    }

    /** None when the channel space is exhausted. */
    method AllocateChannel() returns (channel: Option<Channel>)
      modifies this`nextChannel
      ensures channel.Some? <==> old(nextChannel) < 65535
      ensures channel.Some? ==> View() == Allocate(old(View())) && channel.value == nextChannel <= MAX_CHANNEL
      ensures channel.None? ==> View() == old(View())
    {
      if nextChannel >= MAX_CHANNEL {
        return None;
      }
      nextChannel := nextChannel + 1;
      return Some(nextChannel);
    }

    method ReleaseLocalChannel(channel: Channel)
      modifies this`channels
      ensures View() == ReleaseLocal(old(View()), channel)
    {
      if channel == 0 {
        return;
      }
      channels := channels - {channel};
    }

    method RegisterBinding(binding: Binding)
      modifies this`channels, this`tokens
      ensures View() == Register(old(View()), binding)
    {
      channels := channels[binding.channel := binding];
      tokens := tokens[binding.token := binding];
    }

    /** publishAttachmentBinding: the channel is written over the first two of 32 random bytes. */
    method PublishAttachmentBinding(random: Token, serial: nat) returns (token: Option<Token>)
      requires |random| == 32
      modifies this`channels, this`tokens, this`nextChannel
      ensures token.Some? <==> old(nextChannel) < 65535
      ensures token.None? ==> View() == old(View())
      ensures token.Some? ==>
              && nextChannel <= MAX_CHANNEL && token.value == IssueToken(nextChannel, random[2..])
              && View() == Register(Allocate(old(View())), Binding(serial, nextChannel, token.value, false))
    {
      var channel := AllocateChannel();
      if channel.None? {
        return None;
      }
      var issued := random[0 := channel.value / 256][1 := channel.value % 256];
      assert issued == IssueToken(channel.value, random[2..]);
      RegisterBinding(Binding(serial, channel.value, issued, false));
      return Some(issued);
    }

    method RetireStream(binding: Binding)
      modifies this`channels, this`tokens, this`retired
      ensures View() == Retire(old(View()), binding)
    {
      if binding.channel in channels && channels[binding.channel] == binding {
        channels := channels - {binding.channel};
      }
      if binding.token in tokens && tokens[binding.token] == binding {
        tokens := tokens - {binding.token};
      }
      retired := retired + {binding.channel};
    }

    /** Marks every live channel before both tables are replaced. */
    method ReleaseAllStreams() returns (released: set<Binding>)
      modifies this`channels, this`tokens, this`retired
      ensures View() == ReleaseAll(old(View())) && released == old(channels).Values
    {
      released := channels.Values;
      var pending := channels.Keys;
      while pending != {}
        invariant channels == old(channels) && tokens == old(tokens)
        invariant pending <= channels.Keys && retired == old(retired) + (channels.Keys - pending)
        decreases pending
      {
        var channel :| channel in pending;
        retired := retired + {channel};
        pending := pending - {channel};
      }
      assert channels.Keys - {} == channels.Keys;
      channels := map[];
      tokens := map[];
    }

    method FindBinding(channel: Channel) returns (binding: Option<Binding>)
      ensures binding == if channel in channels then Some(channels[channel]) else None
    {
      return if channel in channels then Some(channels[channel]) else None;
    }

    method WasRetired(channel: Channel) returns (was: bool)
      ensures was <==> channel in retired
    {
      return channel in retired;
    }

    /** handleStreamFrame up to the resource, when nothing comes between its two looks. */
    method RouteFrame(channel: Channel, emptyClose: bool) returns (routing: Routing)
      ensures routing == Route(View(), channel, emptyClose)
    {
      var binding := FindBinding(channel);
      if binding.Some? {
        return Deliver(binding.value);
      }
      var was := WasRetired(channel);
      return if was || emptyClose then Ignore else Unbound;
    }
  }
}
