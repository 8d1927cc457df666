/** The manager object: runs mapped to shared, reference-counted channels of subscribers. */
module StreamManager {
  import opened Common
  import opened EventLog
  import opened Mailbox

  class RunChannel {
    var refCount: int
    var subscribers: seq<Subscriber>

    constructor ()
      ensures refCount == 0 && subscribers == []
    {
      refCount, subscribers := 0, [];
    }
  }

  class WebSocketManager {
    var channels: map<string, RunChannel>

    /** Distinct runs have distinct channels; a mapped channel's count is the number of its subscribers, and positive. */
    ghost predicate Valid()
      reads this, channels.Values
    {
      && (forall r, q :: r in channels && q in channels && r != q ==> channels[r] != channels[q])
      && (forall r :: r in channels ==>
            0 < channels[r].refCount == |channels[r].subscribers| && Distinct(channels[r].subscribers))
    }

    constructor ()
      ensures Valid() && channels == map[]
    {
      channels := map[];
    }

    method AcquireChannel(run: string, sub: Subscriber) returns (channel: RunChannel)
      requires Valid() && forall r :: r in channels ==> sub !in channels[r].subscribers
      modifies this, channels.Values
      ensures Valid() && channels == old(channels)[run := channel]
      ensures run in old(channels) ==> channel == old(channels[run])
      ensures channel.subscribers == (if run in old(channels) then old(channels[run].subscribers) else []) + [sub]
      ensures forall r :: r in old(channels) && r != run ==> unchanged(old(channels[r]))
    {
      if run !in channels {
        channel := new RunChannel();
        channels := channels[run := channel];
      } else {
        channel := channels[run];
      }
      channel.refCount := channel.refCount + 1;
      channel.subscribers := channel.subscribers + [sub];
    }

    /** Every subscriber releases what it acquired: a mapped channel is left under its run by one of its subscribers. */
    predicate IsHeld(run: string, sub: Subscriber, channel: RunChannel)
      reads this, channel
    {
      forall r :: r in channels && channels[r] == channel ==> r == run && sub in channel.subscribers
    }

    /**
     * The locked half of a release; true when the caller must tear the channel down. The run may be
     * unmapped by then, or mapped to a newer channel: `CloseAll` clears the map under its subscribers.
     */
    method ReleaseChannel(run: string, sub: Subscriber, channel: RunChannel) returns (teardown: bool)
      requires Valid()
      modifies this, channel
      ensures channel.subscribers == Without(old(channel.subscribers), sub)
      ensures channel.refCount == old(channel.refCount) - 1 && (teardown <==> channel.refCount <= 0)
      ensures channels == if teardown then old(channels) - {run} else old(channels)
      ensures old(IsHeld(run, sub, channel)) ==> Valid()
      ensures old(IsHeld(run, sub, channel)) && run in old(channels) && old(channels[run]) == channel ==>
                (teardown <==> channel.subscribers == [])
    {
      if IsHeld(run, sub, channel) && run in channels && channels[run] == channel {
        WithoutLaw(channel.subscribers, sub);
      }
      channel.subscribers := Without(channel.subscribers, sub);
      channel.refCount := channel.refCount - 1;
      if channel.refCount > 0 {
        return false;
      }
      channels := channels - {run};
      return true;
    }

    /** The locked half of `close()`: no run stays mapped; the channels keep their subscribers. */
    method CloseAll() returns (unmapped: set<RunChannel>)
      requires Valid()
      modifies this
      ensures Valid() && channels == map[] && unmapped == old(channels.Values)
    {
      unmapped := channels.Values;
      channels := map[];
    }
  }

  /** Every subscriber of the channel is offered the event once; the loop never yields. */
  method Fanout(channel: RunChannel, e: Event)
    requires Distinct(channel.subscribers)
    requires forall i :: 0 <= i < |channel.subscribers| ==> channel.subscribers[i].Valid()
    modifies channel.subscribers
    ensures forall i :: 0 <= i < |channel.subscribers| ==>
              var sub := channel.subscribers[i];
              sub.Valid() && sub.box == Offer(old(sub.box), e, sub.limits)
  {
    var subs := channel.subscribers;
    for n := 0 to |subs|
      invariant channel.subscribers == subs
      invariant forall i :: 0 <= i < n ==> subs[i].Valid() && subs[i].box == Offer(old(subs[i].box), e, subs[i].limits)
      invariant forall i :: n <= i < |subs| ==> unchanged(subs[i])
    {
      assert forall i :: 0 <= i < |subs| && i != n ==> subs[i] != subs[n];
      subs[n].Deliver(e);
    }
  }
}
