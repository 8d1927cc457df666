/** What can always still happen in a run's event stream: subscribers come in, are served to the last event, and leave. */
module Service {
  import opened Common
  import opened EventLog
  import opened Mailbox
  import opened RunStream
  import opened RefCounts

  lemma {:induction false} RunSnoc(st: Stream, steps: seq<Step>, step: Step, cfg: Config)
    ensures var before := Run(st, steps, cfg);
            Run(st, steps + [step], cfg) == if Enabled(before, step) then Apply(before, step, cfg) else before
  {
    assert (steps + [step])[..|steps|] == steps;
  }

  lemma {:induction false} RunConcat(st: Stream, a: seq<Step>, b: seq<Step>, cfg: Config)
    ensures Run(st, a + b, cfg) == Run(Run(st, a, cfg), b, cfg)
  {
    if b == [] {
      assert a + b == a;
    } else {
      assert (a + b)[..|a + b| - 1] == a + b[..|b| - 1];
      RunConcat(st, a, b[..|b| - 1], cfg);
    }
  }

  lemma {:induction false} RunCons(st: Stream, step: Step, more: seq<Step>, cfg: Config)
    requires Enabled(st, step)
    ensures Run(st, [step] + more, cfg) == Run(Apply(st, step, cfg), more, cfg)
  {
    RunConcat(st, [step], more, cfg);
    assert [step][..0] == [];
  }

  lemma {:induction false} StepKeepsLaw(st: Stream, step: Step, cfg: Config)
    requires Law(st, cfg) && Enabled(st, step)
    ensures Law(Apply(st, step, cfg), cfg)
  {
    StepKeepsLinks(st, step, cfg);
    StepKeepsData(st, step, cfg);
  }

  // ----- sending -----

  /** The sender of an attached subscriber can take the oldest queued event at any time, backfill done or not. */
  lemma {:induction false} SenderNeverWaits(steps: seq<Step>, cfg: Config, s: nat)
    requires var st := Run(INITIAL, steps, cfg);
             && s < |st.subs| && (st.subs[s].phase.Attached? || st.subs[s].phase.Fetched? || st.subs[s].phase.Live?)
             && st.subs[s].box.queue != []
    ensures var before, after := Run(INITIAL, steps, cfg), Run(INITIAL, steps + [Send(s)], cfg);
            var queue := before.subs[s].box.queue;
            && after.history == before.history && after.channels == before.channels && |after.subs| == |before.subs|
            && QueueLaw(before.subs[s].box, cfg.limits) && QueueLaw(after.subs[s].box, cfg.limits)
            && after.subs[s].box.queue == queue[1..]
            && Sent(after.subs[s].box) == Sent(before.subs[s].box) + [queue[0]]
  {
    EveryBoxIsLawful(steps, cfg, s);
    RunSnoc(INITIAL, steps, Send(s), cfg);
    TakeKeepsLaw(Run(INITIAL, steps, cfg).subs[s].box, cfg.limits);
  }

  // ----- an attached subscriber can be served to the end -----

  predicate Serves(step: Step) {
    step.FanOut? || step.Fetch? || step.Backfill? || step.Send?
  }

  ghost predicate ServesOnly(steps: seq<Step>) {
    forall i :: 0 <= i < |steps| ==> Serves(steps[i])
  }

  /** Nobody came or went, and nothing was published. */
  ghost predicate SamePlaces(st: Stream, st': Stream) {
    && st'.history == st.history && |st'.subs| == |st.subs| && |st'.channels| == |st.channels|
    && (forall i :: 0 <= i < |st.subs| ==>
          st'.subs[i].chan == st.subs[i].chan && st'.subs[i].joinedAt == st.subs[i].joinedAt)
    && (forall i :: 0 <= i < |st.subs| && IsAttached(st.subs[i]) ==> IsAttached(st'.subs[i]))
    && (forall c :: 0 <= c < |st.channels| ==> st'.channels[c].closed == st.channels[c].closed)
  }

  lemma {:induction false} ServingKeepsPlaces(st: Stream, step: Step, cfg: Config)
    requires Enabled(st, step) && Serves(step)
    ensures SamePlaces(st, Apply(st, step, cfg))
  {
  }

  lemma {:induction false} PlacesTransitive(a: Stream, b: Stream, c: Stream)
    requires SamePlaces(a, b) && SamePlaces(b, c)
    ensures SamePlaces(a, c)
  {
  }

  /** The step comes first, then the rest. */
  lemma {:induction false} ServeFirst(st: Stream, step: Step, rest: seq<Step>, cfg: Config) returns (more: seq<Step>)
    requires Law(st, cfg) && Enabled(st, step) && Serves(step) && ServesOnly(rest)
    requires var next := Apply(st, step, cfg); SamePlaces(next, Run(next, rest, cfg))
    ensures ServesOnly(more) && Run(st, more, cfg) == Run(Apply(st, step, cfg), rest, cfg)
    ensures SamePlaces(st, Run(st, more, cfg))
  {
    more := [step] + rest;
    RunCons(st, step, rest, cfg);
    ServingKeepsPlaces(st, step, cfg);
    PlacesTransitive(st, Apply(st, step, cfg), Run(st, more, cfg));
  }

  /** The reader of an open channel can catch up with what was published. */
  lemma {:induction false} ReaderCanCatchUp(st: Stream, c: nat, cfg: Config) returns (more: seq<Step>)
    requires Law(st, cfg) && c < |st.channels| && !st.channels[c].closed
    ensures ServesOnly(more)
    ensures var after := Run(st, more, cfg);
            Law(after, cfg) && SamePlaces(st, after) && after.channels[c].read == |after.history|
    decreases |st.history| - st.channels[c].read
  {
    more := [];
    assert ChannelLaw(c, st.channels[c], st.mapped, st.subs, |st.history|);
    if st.channels[c].read < |st.history| {
      StepKeepsLaw(st, FanOut(c), cfg);
      var rest := ReaderCanCatchUp(Apply(st, FanOut(c), cfg), c, cfg);
      more := ServeFirst(st, FanOut(c), rest, cfg);
    }
  }

  /** Caught up, backfilled and drained. */
  ghost predicate IsServed(st: Stream, s: nat) {
    && s < |st.subs| && st.subs[s].phase.Live? && st.subs[s].box.queue == []
    && st.subs[s].chan < |st.channels| && st.channels[st.subs[s].chan].read == |st.history|
  }

  /** One subscriber's next own step. */
  function OwnStep(sub: Sub, s: nat): Step {
    if sub.phase.Attached? then Fetch(s) else if sub.phase.Fetched? then Backfill(s) else Send(s)
  }

  function OwnWork(sub: Sub): (nat, nat) {
    (if sub.phase.Attached? then 2 else if sub.phase.Fetched? then 1 else 0, |sub.box.queue|)
  }

  lemma {:induction false} SubscriberCanFinish(st: Stream, s: nat, cfg: Config) returns (more: seq<Step>)
    requires Law(st, cfg) && s < |st.subs| && IsAttached(st.subs[s])
    requires st.subs[s].chan < |st.channels| && st.channels[st.subs[s].chan].read == |st.history|
    ensures ServesOnly(more) && SamePlaces(st, Run(st, more, cfg)) && IsServed(Run(st, more, cfg), s)
    decreases OwnWork(st.subs[s]).0, OwnWork(st.subs[s]).1
  {
    more := [];
    var step := OwnStep(st.subs[s], s);
    if !IsServed(st, s) {
      StepKeepsLaw(st, step, cfg);
      var rest := SubscriberCanFinish(Apply(st, step, cfg), s, cfg);
      more := ServeFirst(st, step, rest, cfg);
    }
  }

  /** From every reachable state, serving alone brings an attached subscriber everything it is still due. */
  lemma {:induction false} EveryoneCanBeServed(steps: seq<Step>, cfg: Config, s: nat) returns (more: seq<Step>)
    requires s < |Run(INITIAL, steps, cfg).subs| && IsAttached(Run(INITIAL, steps, cfg).subs[s])
    ensures ServesOnly(more)
    ensures var before, after := Run(INITIAL, steps, cfg), Run(INITIAL, steps + more, cfg);
            SamePlaces(before, after) && IsServed(after, s)
  {
    EveryRunKeepsLaw(steps, cfg);
    var st := Run(INITIAL, steps, cfg);
    var c := st.subs[s].chan;
    var read := PlaceOf(st, s, cfg);
    assert ChannelLaw(c, st.channels[c], st.mapped, st.subs, |st.history|);
    var first := ReaderCanCatchUp(st, c, cfg);
    var caughtUp := Run(st, first, cfg);
    var second := SubscriberCanFinish(caughtUp, s, cfg);
    more := first + second;
    RunConcat(st, first, second, cfg);
    RunConcat(INITIAL, steps, more, cfg);
    PlacesTransitive(st, caughtUp, Run(st, more, cfg));
  }

  /**
   * And then it was sent, not only queued, every event but those that were gone when it came, if its queue
   * has no bound or was never asked to hold more than that.
   */
  lemma {:induction false} ServedWasSent(steps: seq<Step>, cfg: Config, s: nat, k: nat)
    requires var st := Run(INITIAL, steps, cfg);
             && IsServed(st, s) && k < |st.history| && cfg.listSize >= 1
             && (cfg.limits.queueSize > 0 ==> |st.subs[s].box.enqueued| <= cfg.limits.queueSize)
    ensures var st := Run(INITIAL, steps, cfg);
            var sub := st.subs[s];
            && QueueLaw(sub.box, cfg.limits)
            && (st.history[k] in Sent(sub.box) || (k < sub.joinedAt && k < sub.fetchedAt - cfg.listSize))
  {
    var box := Run(INITIAL, steps, cfg).subs[s].box;
    NoGaps(steps, cfg, s, k);
    EveryBoxIsLawful(steps, cfg, s);
    NothingDroppedWithinBound(box, cfg.limits);
    assert Sent(box) + [] == Sent(box);
  }

  // ----- coming in -----

  /** A subscriber of a run that is already mapped joins its channel at once, where its reader is. */
  lemma {:induction false} JoinsTheMappedChannel(steps: seq<Step>, cfg: Config)
    requires Run(INITIAL, steps, cfg).lock.Free? && Run(INITIAL, steps, cfg).mapped.Some?
    ensures var before, after := Run(INITIAL, steps, cfg), Run(INITIAL, steps + [Connect], cfg);
            var c, s := before.mapped.value, |before.subs|;
            && c < |before.channels| && |after.subs| == s + 1 && after.mapped == before.mapped
            && after.subs[s] == Sub(Attached, c, before.channels[c].read, 0, EMPTY)
            && after.channels[c].members == before.channels[c].members + [s]
            && after.channels[c].refCount == before.channels[c].refCount + 1
  {
    EveryRunKeepsLaw(steps, cfg);
    RunSnoc(INITIAL, steps, Connect, cfg);
  }

  ghost predicate PublishesOnly(steps: seq<Step>) {
    forall i :: 0 <= i < |steps| ==> steps[i].Publish?
  }

  lemma {:induction false} PublishingLeavesOpening(st: Stream, more: seq<Step>, cfg: Config)
    requires PublishesOnly(more)
    ensures var after := Run(st, more, cfg);
            after.lock == st.lock && after.subs == st.subs && after.channels == st.channels && after.mapped == st.mapped
  {
    if more != [] { PublishingLeavesOpening(st, more[..|more| - 1], cfg); }
  }

  lemma {:induction false} SubscribeThenPublish(st: Stream, more: seq<Step>, cfg: Config)
    requires st.lock.Held? && st.lock.since.None? && PublishesOnly(more)
    ensures var after := Run(st, [SubscribeLands] + more, cfg);
            && after.lock == Held(st.lock.sub, Some(|st.history|))
            && after.subs == st.subs && after.channels == st.channels && after.mapped == st.mapped
  {
    RunCons(st, SubscribeLands, more, cfg);
    PublishingLeavesOpening(Apply(st, SubscribeLands, cfg), more, cfg);
  }

  /** The first subscriber's channel hands out everything published since its SUBSCRIBE, not since it attached. */
  lemma {:induction false} OpensAtItsSubscribe(steps: seq<Step>, more: seq<Step>, cfg: Config)
    requires var st := Run(INITIAL, steps, cfg); st.lock.Held? && st.lock.since.None?
    requires PublishesOnly(more)
    ensures var before, after := Run(INITIAL, steps, cfg), Run(INITIAL, steps + ([SubscribeLands] + more) + [Attach], cfg);
            var s, c := before.lock.sub, |before.channels|;
            && s < |after.subs| && after.subs[s].phase.Attached? && after.subs[s].chan == c
            && after.subs[s].joinedAt == |before.history|
            && after.channels == before.channels + [Channel(1, [s], |before.history|, false)]
            && after.mapped == Some(c) && after.lock.Free?
  {
    EveryRunKeepsLaw(steps, cfg);
    var st := Run(INITIAL, steps, cfg);
    RunConcat(INITIAL, steps, [SubscribeLands] + more, cfg);
    SubscribeThenPublish(st, more, cfg);
    RunSnoc(INITIAL, steps + ([SubscribeLands] + more), Attach, cfg);
  }

  /** An opening that fails gives the lock back and leaves nothing mapped. */
  lemma {:induction false} FailedOpeningLetsGo(steps: seq<Step>, cfg: Config)
    requires Run(INITIAL, steps, cfg).lock.Held?
    ensures var before, after := Run(INITIAL, steps, cfg), Run(INITIAL, steps + [AbortOpening], cfg);
            && after.lock.Free? && after.mapped.None? && after.channels == before.channels
            && before.lock.sub < |after.subs| && after.subs[before.lock.sub].phase.Gone?
  {
    EveryRunKeepsLaw(steps, cfg);
    RunSnoc(INITIAL, steps, AbortOpening, cfg);
  }

  // ----- leaving -----

  /**
   * A subscriber that leaves is gone from its channel and from nowhere else. If it was the last, the run is
   * unmapped in the same step, and the teardown that follows closes the channel.
   */
  lemma {:induction false} LastOneClosesTheChannel(steps: seq<Step>, cfg: Config, s: nat)
    requires var st := Run(INITIAL, steps, cfg);
             s < |st.subs| && IsAttached(st.subs[s]) && st.lock.Free?
    ensures var before, left := Run(INITIAL, steps, cfg), Run(INITIAL, steps + [Disconnect(s)], cfg);
            var c := before.subs[s].chan;
            var closed := Run(INITIAL, steps + [Disconnect(s)] + [Teardown(c)], cfg);
            && left.subs == before.subs[s := before.subs[s].(phase := Gone)]
            && AttachedTo(left.subs, c) == AttachedTo(before.subs, c) - {s}
            && (AttachedTo(before.subs, c) != {s} ==> left.mapped == before.mapped == Some(c) && closed == left)
            && (AttachedTo(before.subs, c) == {s} ==>
                  left.mapped.None? && c < |closed.channels| && closed.channels[c].closed && closed.mapped.None?)
  {
    EveryRunKeepsLaw(steps, cfg);
    var before := Run(INITIAL, steps, cfg);
    var c := before.subs[s].chan;
    var read := PlaceOf(before, s, cfg);
    RunSnoc(INITIAL, steps, Disconnect(s), cfg);
    var left := Run(INITIAL, steps + [Disconnect(s)], cfg);
    RefCountLaw(steps, cfg, c);
    RefCountLaw(steps + [Disconnect(s)], cfg, c);
    EveryChannelIsLawful(steps, cfg, c);
    EveryChannelIsLawful(steps + [Disconnect(s)], cfg, c);
    assert s in AttachedTo(before.subs, c);
    assert AttachedTo(left.subs, c) == AttachedTo(before.subs, c) - {s};
    RunSnoc(INITIAL, steps + [Disconnect(s)], Teardown(c), cfg);
  }
}
