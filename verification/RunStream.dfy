/**
 * The event stream of one run as a step system: a publisher, the reader of each pub/sub channel,
 * and subscribers that attach, backfill, read and leave in any interleaving.
 *
 * Assumptions: a publish (PUBLISH, LPUSH, LTRIM) is one atomic step, Redis does not fail, and
 * publishers use fresh event ids. A SUBSCRIBE takes effect at some moment before its await returns.
 */
module RunStream {
  import opened Common
  import opened EventLog
  import opened Mailbox

  datatype Config = Config(listSize: int, limits: Limits)

  datatype Phase = Opening | Attached | Fetched(snapshot: seq<Event>) | Live | Gone

  /**
   * `joinedAt`: the position in the run's history from which the subscriber's channel fans out to it.
   * `fetchedAt`: how much had been published when its LRANGE ran.
   */
  datatype Sub = Sub(phase: Phase, chan: nat, joinedAt: nat, fetchedAt: nat, box: Box)

  /** The pub/sub connection delivers the history in order; `read` is the reader's position in it. */
  datatype Channel = Channel(refCount: int, members: seq<nat>, read: nat, closed: bool)

  /** The manager's lock, held across the SUBSCRIBE of a new channel; `since` once it took effect. */
  datatype Lock = Free | Held(sub: nat, since: Option<nat>)

  datatype Stream = Stream(
    history: seq<Event>, buffer: seq<Event>, lock: Lock, mapped: Option<nat>,
    channels: seq<Channel>, subs: seq<Sub>)

  datatype Step =
    | Publish(e: Event)
    | Connect | SubscribeLands | Attach | AbortOpening
    | FanOut(c: nat)
    | Fetch(s: nat) | Backfill(s: nat) | Send(s: nat)
    | Disconnect(s: nat) | Teardown(c: nat)

  const INITIAL := Stream([], [], Free, None, [], [])

  predicate IsAttached(s: Sub) {
    s.phase.Attached? || s.phase.Fetched? || s.phase.Live?
  }

  predicate IsFresh(history: seq<Event>, e: Event) {
    e.id == "" || forall i :: 0 <= i < |history| ==> history[i].id != e.id
  }

  predicate Enabled(st: Stream, step: Step) {
    match step
    case Publish(e) => IsFresh(st.history, e)
    case Connect => st.lock.Free?
    case SubscribeLands => st.lock.Held? && st.lock.since.None?
    case Attach => st.lock.Held? && st.lock.since.Some? && st.lock.sub < |st.subs|
    case AbortOpening => st.lock.Held? && st.lock.sub < |st.subs|
    case FanOut(c) => c < |st.channels| && !st.channels[c].closed && st.channels[c].read < |st.history|
    case Fetch(s) => s < |st.subs| && st.subs[s].phase.Attached?
    case Backfill(s) => s < |st.subs| && st.subs[s].phase.Fetched?
    case Send(s) => s < |st.subs| && IsAttached(st.subs[s]) && st.subs[s].box.queue != []
    case Disconnect(s) => s < |st.subs| && IsAttached(st.subs[s]) && st.lock.Free? && st.subs[s].chan < |st.channels|
    case Teardown(c) => c < |st.channels| && st.channels[c].refCount <= 0 && !st.channels[c].closed
  }

  /** The fan-out loop: every member of the channel is offered the event. */
  function Delivered(subs: seq<Sub>, members: seq<nat>, e: Event, limits: Limits): seq<Sub> {
    seq(|subs|, i requires 0 <= i < |subs| =>
      if i in members then subs[i].(box := Offer(subs[i].box, e, limits)) else subs[i])
  }

  /** `_acquire_channel` when the run is already mapped: no await, so one step. */
  function Join(st: Stream, c: nat): Stream
    requires c < |st.channels|
  {
    var ch := st.channels[c];
    st.(channels := st.channels[c := ch.(refCount := ch.refCount + 1, members := ch.members + [|st.subs|])],
        subs := st.subs + [Sub(Attached, c, ch.read, 0, EMPTY)])
  }

  /** `_acquire_channel` after the awaited SUBSCRIBE of a channel that did not exist. */
  function Open(st: Stream, s: nat, since: nat): Stream
    requires s < |st.subs|
  {
    st.(channels := st.channels + [Channel(1, [s], since, false)],
        mapped := Some(|st.channels|),
        lock := Free,
        subs := st.subs[s := st.subs[s].(phase := Attached, chan := |st.channels|, joinedAt := since)])
  }

  /** The locked half of `_release_channel`: whatever the run maps to is unmapped at count zero. */
  function Leave(st: Stream, s: nat): Stream
    requires s < |st.subs| && st.subs[s].chan < |st.channels|
  {
    var c := st.subs[s].chan;
    var ch := st.channels[c];
    st.(channels := st.channels[c := ch.(refCount := ch.refCount - 1, members := Without(ch.members, s))],
        mapped := if ch.refCount - 1 > 0 then st.mapped else None,
        subs := st.subs[s := st.subs[s].(phase := Gone)])
  }

  /** LRANGE answers newest first; the subscriber keeps the answer oldest first. */
  function AfterFetch(sub: Sub, buffer: seq<Event>, published: nat): Sub {
    sub.(phase := Fetched(Reverse(buffer)), fetchedAt := published)
  }

  function AfterBackfill(sub: Sub, limits: Limits): Sub
    requires sub.phase.Fetched?
  {
    sub.(phase := Live, box := OfferAll(sub.box, sub.phase.snapshot, limits))
  }

  function Apply(st: Stream, step: Step, cfg: Config): Stream
    requires Enabled(st, step)
  {
    match step
    case Publish(e) => st.(history := st.history + [e], buffer := Pushed(st.buffer, e, cfg.listSize))
    case Connect =>
      if st.mapped.Some? && st.mapped.value < |st.channels| then Join(st, st.mapped.value)
      else st.(lock := Held(|st.subs|, None), subs := st.subs + [Sub(Opening, 0, 0, 0, EMPTY)])
    case SubscribeLands => st.(lock := Held(st.lock.sub, Some(|st.history|)))
    case Attach => Open(st, st.lock.sub, st.lock.since.value)
    case AbortOpening =>
      st.(lock := Free, subs := st.subs[st.lock.sub := st.subs[st.lock.sub].(phase := Gone)])
    case FanOut(c) =>
      var ch := st.channels[c];
      st.(channels := st.channels[c := ch.(read := ch.read + 1)],
          subs := Delivered(st.subs, ch.members, st.history[ch.read], cfg.limits))
    case Fetch(s) => st.(subs := st.subs[s := AfterFetch(st.subs[s], st.buffer, |st.history|)])
    case Backfill(s) => st.(subs := st.subs[s := AfterBackfill(st.subs[s], cfg.limits)])
    case Send(s) => st.(subs := st.subs[s := st.subs[s].(box := Take(st.subs[s].box))])
    case Disconnect(s) => Leave(st, s)
    case Teardown(c) => st.(channels := st.channels[c := st.channels[c].(closed := true)])
  }

  /** Any interleaving: a step that is not enabled when its turn comes does nothing. */
  function Run(st: Stream, steps: seq<Step>, cfg: Config): Stream {
    if steps == [] then st
    else
      var before := Run(st, steps[..|steps| - 1], cfg);
      var step := steps[|steps| - 1];
      if Enabled(before, step) then Apply(before, step, cfg) else before
  }

  // ----- the invariant -----

  /** What a subscriber that joined at `joinedAt` has been given once its channel is at `read`. */
  ghost predicate Covered(sub: Sub, read: nat, history: seq<Event>, cfg: Config) {
    && sub.joinedAt <= read <= |history|
    && (forall k :: sub.joinedAt <= k < read ==> history[k] in sub.box.enqueued)
    && (sub.phase.Fetched? ==>
          && sub.joinedAt <= sub.fetchedAt <= |history|
          && sub.phase.snapshot == Retained(history[..sub.fetchedAt], cfg.listSize))
    && (sub.phase.Live? ==>
          && sub.joinedAt <= sub.fetchedAt <= |history|
          && forall e :: e in Retained(history[..sub.fetchedAt], cfg.listSize) ==> e in sub.box.enqueued)
  }

  /** A subscriber's place: it waits for the lock it holds, or its channel lists it and has covered its share. */
  ghost predicate SubLaw(i: nat, sub: Sub, channels: seq<Channel>, lock: Lock, history: seq<Event>, cfg: Config) {
    && (sub.phase.Opening? ==> lock.Held? && lock.sub == i && sub.box == EMPTY)
    && (IsAttached(sub) ==>
          && sub.chan < |channels| && i in channels[sub.chan].members
          && Covered(sub, channels[sub.chan].read, history, cfg))
  }

  /** A channel is mapped exactly while it has members, and its count is the number of them. */
  ghost predicate ChannelLaw(c: nat, ch: Channel, mapped: Option<nat>, subs: seq<Sub>, published: nat) {
    && Distinct(ch.members) && ch.refCount == |ch.members| && ch.read <= published
    && (forall i :: i in ch.members ==> i < |subs| && IsAttached(subs[i]) && subs[i].chan == c)
    && (ch.members != [] <==> mapped == Some(c))
    && (ch.closed ==> ch.members == [])
  }

  ghost predicate LockLaw(st: Stream) {
    st.lock.Held? ==>
      && st.mapped.None? && st.lock.sub < |st.subs| && st.subs[st.lock.sub].phase.Opening?
      && (st.lock.since.Some? ==> st.lock.since.value <= |st.history|)
  }

  ghost predicate LinkLaw(st: Stream, cfg: Config) {
    && LockLaw(st)
    && (st.mapped.Some? ==> st.mapped.value < |st.channels|)
    && (forall c :: 0 <= c < |st.channels| ==> ChannelLaw(c, st.channels[c], st.mapped, st.subs, |st.history|))
    && (forall i :: 0 <= i < |st.subs| ==> SubLaw(i, st.subs[i], st.channels, st.lock, st.history, cfg))
  }

  /** What a subscriber holds: nothing that was not published, and only ids it was given in its window. */
  ghost predicate HoldingLaw(sub: Sub, history: seq<Event>) {
    && WindowIsRecorded(sub.box) && Knows(sub.box, history)
    && (sub.phase.Fetched? ==> forall e :: e in sub.phase.snapshot ==> e in history)
  }

  ghost predicate AllHold(subs: seq<Sub>, history: seq<Event>) {
    forall i :: 0 <= i < |subs| ==> HoldingLaw(subs[i], history)
  }

  ghost predicate DataLaw(st: Stream, cfg: Config) {
    && UniqueIds(st.history)
    && st.buffer == Reverse(Retained(st.history, cfg.listSize))
    && AllHold(st.subs, st.history)
  }

  ghost predicate Law(st: Stream, cfg: Config) {
    LinkLaw(st, cfg) && DataLaw(st, cfg)
  }

  // ----- what one subscriber holds -----

  lemma {:induction false} PublishKeepsHolding(sub: Sub, e: Event, history: seq<Event>)
    requires HoldingLaw(sub, history)
    ensures HoldingLaw(sub, history + [e])
  {
  }

  lemma {:induction false} OfferKeepsHolding(sub: Sub, e: Event, history: seq<Event>, limits: Limits)
    requires HoldingLaw(sub, history) && UniqueIds(history) && e in history
    ensures HoldingLaw(sub.(box := Offer(sub.box, e, limits)), history)
  {
    OfferDelivers(sub.box, e, history, limits);
    OfferKeepsRecorded(sub.box, e, limits);
  }

  lemma {:induction false} RetainedIsPart(history: seq<Event>, n: int, e: Event)
    requires e in Retained(history, n)
    ensures e in history
  {
  }

  lemma {:induction false} FetchKeepsHolding(sub: Sub, history: seq<Event>, listSize: int)
    requires HoldingLaw(sub, history)
    ensures HoldingLaw(AfterFetch(sub, Reverse(Retained(history, listSize)), |history|), history)
  {
    ReverseTwice(Retained(history, listSize));
    forall e | e in Retained(history, listSize) ensures e in history { RetainedIsPart(history, listSize, e); }
  }

  lemma {:induction false} BackfillKeepsHolding(sub: Sub, history: seq<Event>, limits: Limits)
    requires HoldingLaw(sub, history) && UniqueIds(history) && sub.phase.Fetched?
    ensures HoldingLaw(AfterBackfill(sub, limits), history)
  {
    OfferAllDelivers(sub.box, sub.phase.snapshot, history, limits);
  }

  lemma {:induction false} SendKeepsHolding(sub: Sub, history: seq<Event>)
    requires HoldingLaw(sub, history) && sub.box.queue != []
    ensures HoldingLaw(sub.(box := Take(sub.box)), history)
  {
  }

  /** Attaching and leaving hand nothing over. */
  lemma {:induction false} SameBoxKeepsHolding(sub: Sub, sub': Sub, history: seq<Event>)
    requires HoldingLaw(sub, history) && sub'.box == sub.box && !sub'.phase.Fetched?
    ensures HoldingLaw(sub', history)
  {
  }

  lemma {:induction false} NewSubHoldsNothing(sub: Sub, history: seq<Event>)
    requires sub.box == EMPTY && !sub.phase.Fetched?
    ensures HoldingLaw(sub, history)
  {
  }

  // ----- what all subscribers hold -----

  lemma {:induction false} UpdateKeepsAll(subs: seq<Sub>, s: nat, sub: Sub, history: seq<Event>)
    requires AllHold(subs, history) && s < |subs| && HoldingLaw(sub, history)
    ensures AllHold(subs[s := sub], history)
  {
  }

  lemma {:induction false} PublishKeepsAll(subs: seq<Sub>, e: Event, history: seq<Event>)
    requires AllHold(subs, history)
    ensures AllHold(subs, history + [e])
  {
    forall i | 0 <= i < |subs| ensures HoldingLaw(subs[i], history + [e]) {
      PublishKeepsHolding(subs[i], e, history);
    }
  }

  lemma {:induction false} FanOutKeepsAll(subs: seq<Sub>, members: seq<nat>, e: Event, history: seq<Event>, limits: Limits)
    requires AllHold(subs, history) && UniqueIds(history) && e in history
    ensures AllHold(Delivered(subs, members, e, limits), history)
  {
    var subs' := Delivered(subs, members, e, limits);
    forall i | 0 <= i < |subs'| ensures HoldingLaw(subs'[i], history) {
      OfferKeepsHolding(subs[i], e, history, limits);
    }
  }

  lemma {:induction false} PublishKeepsUnique(history: seq<Event>, e: Event)
    requires UniqueIds(history) && IsFresh(history, e)
    ensures UniqueIds(history + [e])
  {
  }

  /** One subscriber's own steps: fetching, backfilling, sending. */
  lemma {:induction false} OwnStepKeepsData(st: Stream, step: Step, cfg: Config)
    requires DataLaw(st, cfg) && Enabled(st, step) && (step.Fetch? || step.Backfill? || step.Send?)
    ensures DataLaw(Apply(st, step, cfg), cfg)
  {
    var sub := st.subs[step.s];
    if step.Fetch? {
      FetchKeepsHolding(sub, st.history, cfg.listSize);
    } else if step.Backfill? {
      BackfillKeepsHolding(sub, st.history, cfg.limits);
    } else {
      SendKeepsHolding(sub, st.history);
    }
    UpdateKeepsAll(st.subs, step.s, Apply(st, step, cfg).subs[step.s], st.history);
  }

  /** The steps that attach a subscriber or let it go. */
  lemma {:induction false} PlaceStepKeepsData(st: Stream, step: Step, cfg: Config)
    requires DataLaw(st, cfg) && Enabled(st, step) && (step.Attach? || step.AbortOpening? || step.Disconnect?)
    ensures DataLaw(Apply(st, step, cfg), cfg)
  {
    var s := if step.Disconnect? then step.s else st.lock.sub;
    var sub := Apply(st, step, cfg).subs[s];
    SameBoxKeepsHolding(st.subs[s], sub, st.history);
    UpdateKeepsAll(st.subs, s, sub, st.history);
  }

  lemma {:induction false} ConnectKeepsData(st: Stream, cfg: Config)
    requires DataLaw(st, cfg) && Enabled(st, Connect)
    ensures DataLaw(Apply(st, Connect, cfg), cfg)
  {
    var subs := Apply(st, Connect, cfg).subs;
    NewSubHoldsNothing(subs[|st.subs|], st.history);
  }

  // ----- who is attached where -----

  lemma {:induction false} PublishKeepsLinks(st: Stream, e: Event, cfg: Config)
    requires LinkLaw(st, cfg) && Enabled(st, Publish(e))
    ensures LinkLaw(Apply(st, Publish(e), cfg), cfg)
  {
    var st' := Apply(st, Publish(e), cfg);
    forall i | 0 <= i < |st.subs| ensures SubLaw(i, st'.subs[i], st'.channels, st'.lock, st'.history, cfg) {
      var sub := st.subs[i];
      assert SubLaw(i, sub, st.channels, st.lock, st.history, cfg);
      if IsAttached(sub) && sub.fetchedAt <= |st.history| {
        assert st'.history[..sub.fetchedAt] == st.history[..sub.fetchedAt];
      }
    }
    forall c | 0 <= c < |st.channels| ensures ChannelLaw(c, st'.channels[c], st'.mapped, st'.subs, |st'.history|) {
      assert ChannelLaw(c, st.channels[c], st.mapped, st.subs, |st.history|);
    }
  }

  lemma {:induction false} ConnectKeepsLinks(st: Stream, cfg: Config)
    requires LinkLaw(st, cfg) && Enabled(st, Connect)
    ensures LinkLaw(Apply(st, Connect, cfg), cfg)
  {
    var st' := Apply(st, Connect, cfg);
    var n := |st.subs|;
    forall c | 0 <= c < |st'.channels| ensures ChannelLaw(c, st'.channels[c], st'.mapped, st'.subs, |st'.history|) {
      assert ChannelLaw(c, st.channels[c], st.mapped, st.subs, |st.history|);
      assert n !in st.channels[c].members;
    }
    forall i | 0 <= i < |st'.subs| ensures SubLaw(i, st'.subs[i], st'.channels, st'.lock, st'.history, cfg) {
      if i < n {
        assert SubLaw(i, st.subs[i], st.channels, st.lock, st.history, cfg);
      } else if st.mapped.Some? {
        assert ChannelLaw(st.mapped.value, st.channels[st.mapped.value], st.mapped, st.subs, |st.history|);
      }
    }
  }

  lemma {:induction false} AttachKeepsLinks(st: Stream, cfg: Config)
    requires LinkLaw(st, cfg) && Enabled(st, Attach)
    ensures LinkLaw(Apply(st, Attach, cfg), cfg)
  {
    var st' := Apply(st, Attach, cfg);
    var s := st.lock.sub;
    assert SubLaw(s, st.subs[s], st.channels, st.lock, st.history, cfg);
    forall c | 0 <= c < |st'.channels| ensures ChannelLaw(c, st'.channels[c], st'.mapped, st'.subs, |st'.history|) {
      if c < |st.channels| {
        assert ChannelLaw(c, st.channels[c], st.mapped, st.subs, |st.history|);
      }
    }
    forall i | 0 <= i < |st'.subs| ensures SubLaw(i, st'.subs[i], st'.channels, st'.lock, st'.history, cfg) {
      assert SubLaw(i, st.subs[i], st.channels, st.lock, st.history, cfg);
    }
  }

  /** The lock steps touch neither channels nor attached subscribers. */
  lemma {:induction false} LockStepKeepsLinks(st: Stream, step: Step, cfg: Config)
    requires LinkLaw(st, cfg) && Enabled(st, step) && (step.SubscribeLands? || step.AbortOpening?)
    ensures LinkLaw(Apply(st, step, cfg), cfg)
  {
    var st' := Apply(st, step, cfg);
    forall c | 0 <= c < |st'.channels| ensures ChannelLaw(c, st'.channels[c], st'.mapped, st'.subs, |st'.history|) {
      assert ChannelLaw(c, st.channels[c], st.mapped, st.subs, |st.history|);
    }
    forall i | 0 <= i < |st'.subs| ensures SubLaw(i, st'.subs[i], st'.channels, st'.lock, st'.history, cfg) {
      assert SubLaw(i, st.subs[i], st.channels, st.lock, st.history, cfg);
    }
  }

  lemma {:induction false} OfferExtendsCoverage(sub: Sub, read: nat, history: seq<Event>, cfg: Config)
    requires Covered(sub, read, history, cfg) && read < |history| && UniqueIds(history)
    requires HoldingLaw(sub, history)
    ensures Covered(sub.(box := Offer(sub.box, history[read], cfg.limits)), read + 1, history, cfg)
  {
    OfferDelivers(sub.box, history[read], history, cfg.limits);
  }

  lemma {:induction false} FetchKeepsCoverage(sub: Sub, read: nat, history: seq<Event>, cfg: Config)
    requires Covered(sub, read, history, cfg)
    ensures Covered(AfterFetch(sub, Reverse(Retained(history, cfg.listSize)), |history|), read, history, cfg)
  {
    ReverseTwice(Retained(history, cfg.listSize));
    assert history[..|history|] == history;
  }

  lemma {:induction false} BackfillKeepsCoverage(sub: Sub, read: nat, history: seq<Event>, cfg: Config)
    requires Covered(sub, read, history, cfg) && UniqueIds(history)
    requires HoldingLaw(sub, history) && sub.phase.Fetched?
    ensures Covered(AfterBackfill(sub, cfg.limits), read, history, cfg)
  {
    OfferAllDelivers(sub.box, sub.phase.snapshot, history, cfg.limits);
  }

  /** One fan-out as seen by one subscriber, member of the channel or not. */
  lemma {:induction false} FanOutToSub(st: Stream, c: nat, i: nat, cfg: Config)
    requires LinkLaw(st, cfg) && Enabled(st, FanOut(c)) && i < |st.subs|
    requires UniqueIds(st.history) && HoldingLaw(st.subs[i], st.history)
    ensures var st' := Apply(st, FanOut(c), cfg);
            SubLaw(i, st'.subs[i], st'.channels, st'.lock, st'.history, cfg)
  {
    var sub, ch := st.subs[i], st.channels[c];
    assert SubLaw(i, sub, st.channels, st.lock, st.history, cfg);
    if i in ch.members {
      assert ChannelLaw(c, ch, st.mapped, st.subs, |st.history|);
      OfferExtendsCoverage(sub, ch.read, st.history, cfg);
    } else {
      assert IsAttached(sub) ==> sub.chan != c;
    }
  }

  lemma {:induction false} FanOutKeepsLinks(st: Stream, c: nat, cfg: Config)
    requires Law(st, cfg) && Enabled(st, FanOut(c))
    ensures LinkLaw(Apply(st, FanOut(c), cfg), cfg)
  {
    var st' := Apply(st, FanOut(c), cfg);
    forall d | 0 <= d < |st'.channels| ensures ChannelLaw(d, st'.channels[d], st'.mapped, st'.subs, |st'.history|) {
      assert ChannelLaw(d, st.channels[d], st.mapped, st.subs, |st.history|);
    }
    forall i | 0 <= i < |st'.subs| ensures SubLaw(i, st'.subs[i], st'.channels, st'.lock, st'.history, cfg) {
      assert HoldingLaw(st.subs[i], st.history);
      FanOutToSub(st, c, i, cfg);
    }
  }

  /** Replacing one subscriber in place, when its attachment does not change. */
  lemma {:induction false} SubStepKeepsLinks(st: Stream, s: nat, sub: Sub, cfg: Config)
    requires LinkLaw(st, cfg) && s < |st.subs| && IsAttached(st.subs[s])
    requires IsAttached(sub) && sub.chan == st.subs[s].chan
    requires SubLaw(s, sub, st.channels, st.lock, st.history, cfg)
    ensures LinkLaw(st.(subs := st.subs[s := sub]), cfg)
  {
    var st' := st.(subs := st.subs[s := sub]);
    forall d | 0 <= d < |st'.channels| ensures ChannelLaw(d, st'.channels[d], st'.mapped, st'.subs, |st'.history|) {
      assert ChannelLaw(d, st.channels[d], st.mapped, st.subs, |st.history|);
      SubStepKeepsChannel(d, st.channels[d], st.mapped, st.subs, s, sub, |st.history|);
    }
    forall i | 0 <= i < |st'.subs| ensures SubLaw(i, st'.subs[i], st'.channels, st'.lock, st'.history, cfg) {
      assert SubLaw(i, st.subs[i], st.channels, st.lock, st.history, cfg);
    }
  }

  lemma {:induction false} SubStepKeepsChannel(d: nat, ch: Channel, mapped: Option<nat>, subs: seq<Sub>,
        s: nat, sub: Sub, published: nat)
    requires ChannelLaw(d, ch, mapped, subs, published)
    requires s < |subs| && IsAttached(subs[s]) && IsAttached(sub) && sub.chan == subs[s].chan
    ensures ChannelLaw(d, ch, mapped, subs[s := sub], published)
  {
  }

  /** Where an attached subscriber stands. */
  lemma {:induction false} PlaceOf(st: Stream, s: nat, cfg: Config) returns (read: nat)
    requires LinkLaw(st, cfg) && s < |st.subs| && IsAttached(st.subs[s])
    ensures var sub := st.subs[s];
            && sub.chan < |st.channels| && s in st.channels[sub.chan].members
            && read == st.channels[sub.chan].read && Covered(sub, read, st.history, cfg)
  {
    assert SubLaw(s, st.subs[s], st.channels, st.lock, st.history, cfg);
    read := st.channels[st.subs[s].chan].read;
  }

  /** One subscriber's own step, given that it keeps what that subscriber is covered for. */
  lemma {:induction false} OwnStepKeepsLinks(st: Stream, step: Step, cfg: Config)
    requires LinkLaw(st, cfg) && Enabled(st, step) && (step.Fetch? || step.Backfill? || step.Send?)
    requires st.buffer == Reverse(Retained(st.history, cfg.listSize))
    requires UniqueIds(st.history) && HoldingLaw(st.subs[step.s], st.history)
    ensures LinkLaw(Apply(st, step, cfg), cfg)
  {
    var s := step.s;
    var sub := st.subs[s];
    var read := PlaceOf(st, s, cfg);
    if step.Fetch? {
      FetchKeepsCoverage(sub, read, st.history, cfg);
    } else if step.Backfill? {
      BackfillKeepsCoverage(sub, read, st.history, cfg);
    }
    SubStepKeepsLinks(st, s, Apply(st, step, cfg).subs[s], cfg);
  }

  lemma {:induction false} DisconnectKeepsChannels(st: Stream, s: nat, cfg: Config)
    requires LinkLaw(st, cfg) && Enabled(st, Disconnect(s))
    ensures var st' := Apply(st, Disconnect(s), cfg);
            && Distinct(st.channels[st.subs[s].chan].members) && s in st.channels[st.subs[s].chan].members
            && (st'.mapped.Some? ==> st'.mapped.value < |st'.channels|)
            && forall d :: 0 <= d < |st'.channels| ==>
                 ChannelLaw(d, st'.channels[d], st'.mapped, st'.subs, |st'.history|)
  {
    var st' := Apply(st, Disconnect(s), cfg);
    var c := st.subs[s].chan;
    assert SubLaw(s, st.subs[s], st.channels, st.lock, st.history, cfg);
    assert ChannelLaw(c, st.channels[c], st.mapped, st.subs, |st.history|);
    WithoutLaw(st.channels[c].members, s);
    forall d | 0 <= d < |st'.channels| ensures ChannelLaw(d, st'.channels[d], st'.mapped, st'.subs, |st'.history|) {
      assert ChannelLaw(d, st.channels[d], st.mapped, st.subs, |st.history|);
    }
  }

  lemma {:induction false} DisconnectKeepsLinks(st: Stream, s: nat, cfg: Config)
    requires LinkLaw(st, cfg) && Enabled(st, Disconnect(s))
    ensures LinkLaw(Apply(st, Disconnect(s), cfg), cfg)
  {
    var st' := Apply(st, Disconnect(s), cfg);
    DisconnectKeepsChannels(st, s, cfg);
    WithoutLaw(st.channels[st.subs[s].chan].members, s);
    forall i | 0 <= i < |st'.subs| ensures SubLaw(i, st'.subs[i], st'.channels, st'.lock, st'.history, cfg) {
      assert SubLaw(i, st.subs[i], st.channels, st.lock, st.history, cfg);
    }
  }

  /** Teardown runs after the lock was given up; it only ever meets an unmapped, empty channel. */
  lemma {:induction false} TeardownIsSafe(st: Stream, c: nat, cfg: Config)
    requires LinkLaw(st, cfg) && Enabled(st, Teardown(c))
    ensures st.mapped != Some(c) && st.channels[c].members == []
    ensures LinkLaw(Apply(st, Teardown(c), cfg), cfg)
  {
    var st' := Apply(st, Teardown(c), cfg);
    assert ChannelLaw(c, st.channels[c], st.mapped, st.subs, |st.history|);
    forall d | 0 <= d < |st'.channels| ensures ChannelLaw(d, st'.channels[d], st'.mapped, st'.subs, |st'.history|) {
      assert ChannelLaw(d, st.channels[d], st.mapped, st.subs, |st.history|);
    }
    forall i | 0 <= i < |st'.subs| ensures SubLaw(i, st'.subs[i], st'.channels, st'.lock, st'.history, cfg) {
      assert SubLaw(i, st.subs[i], st.channels, st.lock, st.history, cfg);
    }
  }

  lemma {:induction false} StepKeepsLinks(st: Stream, step: Step, cfg: Config)
    requires Law(st, cfg) && Enabled(st, step)
    ensures LinkLaw(Apply(st, step, cfg), cfg)
  {
    match step
    case Publish(e) => PublishKeepsLinks(st, e, cfg);
    case Connect => ConnectKeepsLinks(st, cfg);
    case SubscribeLands => LockStepKeepsLinks(st, step, cfg);
    case AbortOpening => LockStepKeepsLinks(st, step, cfg);
    case Attach => AttachKeepsLinks(st, cfg);
    case FanOut(c) => FanOutKeepsLinks(st, c, cfg);
    case Fetch(s) => OwnStepKeepsLinks(st, step, cfg);
    case Backfill(s) => OwnStepKeepsLinks(st, step, cfg);
    case Send(s) => OwnStepKeepsLinks(st, step, cfg);
    case Disconnect(s) => DisconnectKeepsLinks(st, s, cfg);
    case Teardown(c) => TeardownIsSafe(st, c, cfg);
  }

  lemma {:induction false} StepKeepsData(st: Stream, step: Step, cfg: Config)
    requires DataLaw(st, cfg) && Enabled(st, step)
    ensures DataLaw(Apply(st, step, cfg), cfg)
  {
    match step
    case Publish(e) =>
      PublishKeepsNewest(st.history, e, cfg.listSize);
      PublishKeepsUnique(st.history, e);
      PublishKeepsAll(st.subs, e, st.history);
    case Connect => ConnectKeepsData(st, cfg);
    case SubscribeLands =>
    case Attach => PlaceStepKeepsData(st, step, cfg);
    case AbortOpening => PlaceStepKeepsData(st, step, cfg);
    case FanOut(c) =>
      var ch := st.channels[c];
      FanOutKeepsAll(st.subs, ch.members, st.history[ch.read], st.history, cfg.limits);
    case Fetch(_) => OwnStepKeepsData(st, step, cfg);
    case Backfill(_) => OwnStepKeepsData(st, step, cfg);
    case Send(_) => OwnStepKeepsData(st, step, cfg);
    case Disconnect(_) => PlaceStepKeepsData(st, step, cfg);
    case Teardown(_) =>
  }

  lemma {:induction false} EveryRunKeepsLaw(steps: seq<Step>, cfg: Config)
    ensures Law(Run(INITIAL, steps, cfg), cfg)
  {
    if steps == [] {
      assert Reverse<Event>([]) == [];
    } else {
      EveryRunKeepsLaw(steps[..|steps| - 1], cfg);
      var before := Run(INITIAL, steps[..|steps| - 1], cfg);
      if Enabled(before, steps[|steps| - 1]) {
        StepKeepsLinks(before, steps[|steps| - 1], cfg);
        StepKeepsData(before, steps[|steps| - 1], cfg);
      }
    }
  }

  lemma {:induction false} EverySubIsCovered(steps: seq<Step>, cfg: Config, s: nat)
    requires var st := Run(INITIAL, steps, cfg); s < |st.subs| && IsAttached(st.subs[s])
    ensures var st := Run(INITIAL, steps, cfg);
            st.subs[s].chan < |st.channels| && Covered(st.subs[s], st.channels[st.subs[s].chan].read, st.history, cfg)
  {
    EveryRunKeepsLaw(steps, cfg);
    var st := Run(INITIAL, steps, cfg);
    assert SubLaw(s, st.subs[s], st.channels, st.lock, st.history, cfg);
  }

  /**
   * No gaps. When a subscriber's backfill is done and its channel's reader has caught up, the only
   * events it was never given are those from before it joined that had already left the newest
   * `listSize` when its LRANGE ran.
   */
  lemma {:induction false} NoGaps(steps: seq<Step>, cfg: Config, s: nat, k: nat)
    requires cfg.listSize >= 1
    requires var st := Run(INITIAL, steps, cfg);
             && s < |st.subs| && st.subs[s].phase.Live? && k < |st.history|
             && st.subs[s].chan < |st.channels| && st.channels[st.subs[s].chan].read == |st.history|
    ensures var st := Run(INITIAL, steps, cfg);
            st.history[k] in st.subs[s].box.enqueued || (k < st.subs[s].joinedAt && k < st.subs[s].fetchedAt - cfg.listSize)
  {
    EverySubIsCovered(steps, cfg, s);
    var st := Run(INITIAL, steps, cfg);
    var sub := st.subs[s];
    if k < sub.joinedAt && k >= sub.fetchedAt - cfg.listSize {
      NewestAreRetained(st.history[..sub.fetchedAt], cfg.listSize, k);
    }
  }

  lemma {:induction false} NewestAreRetained(history: seq<Event>, n: int, k: nat)
    requires n >= 1 && |history| - n <= k < |history|
    ensures history[k] in Retained(history, n)
  {
    var kept := Retained(history, n);
    assert kept[k - (|history| - |kept|)] == history[k];
  }

  /** The members of a channel are the subscribers attached to it, each once. */
  ghost predicate MembersAreAttached(c: nat, members: seq<nat>, subs: seq<Sub>) {
    && Distinct(members)
    && (forall i :: i in members ==> i < |subs| && IsAttached(subs[i]) && subs[i].chan == c)
    && (forall i :: 0 <= i < |subs| && IsAttached(subs[i]) && subs[i].chan == c ==> i in members)
  }

  /** What every reachable state says about one channel. */
  lemma {:induction false} EveryChannelIsLawful(steps: seq<Step>, cfg: Config, c: nat)
    requires c < |Run(INITIAL, steps, cfg).channels|
    ensures var st := Run(INITIAL, steps, cfg);
            && ChannelLaw(c, st.channels[c], st.mapped, st.subs, |st.history|)
            && MembersAreAttached(c, st.channels[c].members, st.subs)
  {
    EveryRunKeepsLaw(steps, cfg);
    var st := Run(INITIAL, steps, cfg);
    assert ChannelLaw(c, st.channels[c], st.mapped, st.subs, |st.history|);
    forall i | 0 <= i < |st.subs| && IsAttached(st.subs[i]) && st.subs[i].chan == c ensures i in st.channels[c].members {
      assert SubLaw(i, st.subs[i], st.channels, st.lock, st.history, cfg);
    }
  }

  // ----- every mailbox obeys its own laws, whatever it is offered -----

  ghost predicate LawfulAt(subs: seq<Sub>, i: nat, limits: Limits)
    requires i < |subs|
  {
    BoxLaw(subs[i].box, limits)
  }

  ghost predicate AllLawful(subs: seq<Sub>, limits: Limits) {
    forall i :: 0 <= i < |subs| ==> LawfulAt(subs, i, limits)
  }

  lemma {:induction false} SameBoxSameLaw(subs: seq<Sub>, i: nat, subs': seq<Sub>, j: nat, limits: Limits)
    requires i < |subs| && j < |subs'| && subs'[j].box == subs[i].box && LawfulAt(subs, i, limits)
    ensures LawfulAt(subs', j, limits)
  {
  }

  lemma {:induction false} UpdateKeepsLawful(subs: seq<Sub>, s: nat, sub: Sub, limits: Limits)
    requires AllLawful(subs, limits) && s < |subs| && LawfulAt([sub], 0, limits)
    ensures AllLawful(subs[s := sub], limits)
  {
    var subs' := subs[s := sub];
    forall i | 0 <= i < |subs'| ensures LawfulAt(subs', i, limits) {
      if i == s {
        SameBoxSameLaw([sub], 0, subs', i, limits);
      } else {
        SameBoxSameLaw(subs, i, subs', i, limits);
      }
    }
  }

  lemma {:induction false} DeliveredAt(subs: seq<Sub>, members: seq<nat>, e: Event, i: nat, limits: Limits)
    requires i < |subs| && LawfulAt(subs, i, limits)
    ensures LawfulAt(Delivered(subs, members, e, limits), i, limits)
  {
    OfferKeepsLaw(subs[i].box, e, limits);
  }

  lemma {:induction false} DeliveredIsLawful(subs: seq<Sub>, members: seq<nat>, e: Event, limits: Limits)
    requires AllLawful(subs, limits)
    ensures AllLawful(Delivered(subs, members, e, limits), limits)
  {
    forall i | 0 <= i < |subs| ensures LawfulAt(Delivered(subs, members, e, limits), i, limits) {
      DeliveredAt(subs, members, e, i, limits);
    }
  }

  lemma {:induction false} EmptyBoxIsLawful(limits: Limits)
    ensures BoxLaw(EMPTY, limits)
  {
  }

  lemma {:induction false} BackfilledIsLawful(subs: seq<Sub>, s: nat, limits: Limits)
    requires AllLawful(subs, limits) && s < |subs| && subs[s].phase.Fetched?
    ensures AllLawful(subs[s := AfterBackfill(subs[s], limits)], limits)
  {
    assert LawfulAt(subs, s, limits);
    OfferAllKeepsLaw(subs[s].box, subs[s].phase.snapshot, limits);
    UpdateKeepsLawful(subs, s, AfterBackfill(subs[s], limits), limits);
  }

  lemma {:induction false} SentIsLawful(subs: seq<Sub>, s: nat, limits: Limits)
    requires AllLawful(subs, limits) && s < |subs| && subs[s].box.queue != []
    ensures AllLawful(subs[s := subs[s].(box := Take(subs[s].box))], limits)
  {
    assert LawfulAt(subs, s, limits);
    TakeKeepsLaw(subs[s].box, limits);
    UpdateKeepsLawful(subs, s, subs[s].(box := Take(subs[s].box)), limits);
  }

  lemma {:induction false} MovedIsLawful(subs: seq<Sub>, s: nat, sub: Sub, limits: Limits)
    requires AllLawful(subs, limits) && s < |subs| && sub.box == subs[s].box
    ensures AllLawful(subs[s := sub], limits)
  {
    SameBoxSameLaw(subs, s, [sub], 0, limits);
    UpdateKeepsLawful(subs, s, sub, limits);
  }

  lemma {:induction false} JoinedIsLawful(subs: seq<Sub>, sub: Sub, limits: Limits)
    requires AllLawful(subs, limits) && sub.box == EMPTY
    ensures AllLawful(subs + [sub], limits)
  {
    EmptyBoxIsLawful(limits);
    forall i | 0 <= i < |subs| + 1 ensures LawfulAt(subs + [sub], i, limits) {
      if i < |subs| { SameBoxSameLaw(subs, i, subs + [sub], i, limits); }
    }
  }

  lemma {:induction false} StepKeepsLawful(st: Stream, step: Step, cfg: Config)
    requires AllLawful(st.subs, cfg.limits) && Enabled(st, step)
    ensures AllLawful(Apply(st, step, cfg).subs, cfg.limits)
  {
    var subs, subs', limits := st.subs, Apply(st, step, cfg).subs, cfg.limits;
    match step
    case Publish(_) =>
    case Connect => JoinedIsLawful(subs, subs'[|subs|], limits);
    case SubscribeLands =>
    case Attach => MovedIsLawful(subs, st.lock.sub, subs'[st.lock.sub], limits);
    case AbortOpening => MovedIsLawful(subs, st.lock.sub, subs'[st.lock.sub], limits);
    case FanOut(c) =>
      var ch := st.channels[c];
      DeliveredIsLawful(subs, ch.members, st.history[ch.read], limits);
    case Fetch(s) => MovedIsLawful(subs, s, subs'[s], limits);
    case Backfill(s) => BackfilledIsLawful(subs, s, limits);
    case Send(s) => SentIsLawful(subs, s, limits);
    case Disconnect(s) => MovedIsLawful(subs, s, subs'[s], limits);
    case Teardown(_) =>
  }

  lemma {:induction false} EveryRunKeepsLawful(steps: seq<Step>, cfg: Config)
    ensures AllLawful(Run(INITIAL, steps, cfg).subs, cfg.limits)
  {
    if steps != [] {
      EveryRunKeepsLawful(steps[..|steps| - 1], cfg);
      var before := Run(INITIAL, steps[..|steps| - 1], cfg);
      if Enabled(before, steps[|steps| - 1]) { StepKeepsLawful(before, steps[|steps| - 1], cfg); }
    }
  }

  /** In every reachable state each subscriber's queue and window obey their laws. */
  lemma {:induction false} EveryBoxIsLawful(steps: seq<Step>, cfg: Config, s: nat)
    requires s < |Run(INITIAL, steps, cfg).subs|
    ensures BoxLaw(Run(INITIAL, steps, cfg).subs[s].box, cfg.limits)
  {
    EveryRunKeepsLawful(steps, cfg);
    assert LawfulAt(Run(INITIAL, steps, cfg).subs, s, cfg.limits);
  }
}
