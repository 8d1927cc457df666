/** What deduplication means for a whole run: each event once, as long as the window holds the run. */
module Deliveries {
  import opened Common
  import opened EventLog
  import opened Mailbox
  import opened RunStream

  // ----- ids that come back only after a window of others -----

  lemma {:induction false} SpacedPrefix(ids: seq<string>, window: nat, n: nat)
    requires Spaced(ids, window) && n <= |ids|
    ensures Spaced(ids[..n], window)
  {
  }

  /** If there are no more than `window` ids to choose from, none ever comes back. */
  lemma {:induction false} SpacedFewAreDistinct(ids: seq<string>, window: nat, all: set<string>)
    requires Spaced(ids, window) && |all| <= window && Elements(ids) <= all
    ensures Distinct(ids)
  {
    if ids != [] {
      var n := |ids| - 1;
      var init, last := ids[..n], ids[n];
      SpacedPrefix(ids, window, n);
      assert Elements(init) <= all by { forall x | x in init ensures x in all { assert x in ids; } }
      SpacedFewAreDistinct(init, window, all);
      if last in init {
        var p :| 0 <= p < n && init[p] == last;
        DistinctStretchFits(ids, all, p, n);
      }
    }
  }

  /** A stretch without repeats is no longer than there are ids. */
  lemma {:induction false} DistinctStretchFits(ids: seq<string>, all: set<string>, p: nat, q: nat)
    requires p < q < |ids| && Elements(ids) <= all && Distinct(ids[..q])
    ensures q - p <= |all|
  {
    var stretch := ids[p..q];
    assert Distinct(stretch) by {
      forall i, j | 0 <= i < j < |stretch| ensures stretch[i] != stretch[j] {
        assert ids[..q][p + i] != ids[..q][p + j];
      }
    }
    DistinctSize(stretch);
    assert Elements(stretch) <= all by { forall x | x in stretch ensures x in all { assert x in ids; } }
    SubsetSize(Elements(stretch), all);
  }

  lemma {:induction false} RecordedHolds(events: seq<Event>, e: Event)
    requires e in events && e.id != ""
    ensures e.id in Recorded(events)
  {
    var i :| 0 <= i < |events| && events[i] == e;
    RecordedAt(events, i);
  }

  /** Every id a subscriber recorded is one the run published. */
  lemma {:induction false} RecordedArePublished(box: Box, history: seq<Event>)
    requires Knows(box, history)
    ensures Elements(Recorded(box.enqueued)) <= Elements(Recorded(history))
  {
    forall id | id in Recorded(box.enqueued) ensures id in Recorded(history) {
      var e := RecordedBelongs(box.enqueued, id);
      RecordedNotEmpty(box.enqueued, id);
      RecordedHolds(history, e);
    }
  }

  lemma {:induction false} RecordedNotEmpty(events: seq<Event>, id: string)
    requires id in Recorded(events)
    ensures id != ""
  {
    var init := events[..|events| - 1];
    if id in Recorded(init) { RecordedNotEmpty(init, id); }
  }

  // ----- whole runs -----

  lemma {:induction false} EverySubHolds(steps: seq<Step>, cfg: Config, s: nat)
    requires s < |Run(INITIAL, steps, cfg).subs|
    ensures var st := Run(INITIAL, steps, cfg); HoldingLaw(st.subs[s], st.history)
  {
    EveryRunKeepsLaw(steps, cfg);
  }

  /** A run with at most `window` identified events enqueues none of them twice for any subscriber. */
  lemma {:induction false} NoDuplicates(steps: seq<Step>, cfg: Config, s: nat)
    requires var st := Run(INITIAL, steps, cfg);
             s < |st.subs| && |Recorded(st.history)| <= cfg.limits.window
    ensures Distinct(Recorded(Run(INITIAL, steps, cfg).subs[s].box.enqueued))
  {
    var st := Run(INITIAL, steps, cfg);
    var box := st.subs[s].box;
    EveryBoxIsLawful(steps, cfg, s);
    EverySubHolds(steps, cfg, s);
    RecordedArePublished(box, st.history);
    SizeIsBounded(Recorded(st.history));
    SpacedFewAreDistinct(Recorded(box.enqueued), cfg.limits.window, Elements(Recorded(st.history)));
  }

  /** The event stands at one place of the list, and its id at no other. */
  ghost predicate IsThereOnce(e: Event, events: seq<Event>) {
    exists p :: 0 <= p < |events| && events[p] == e
      && forall q :: 0 <= q < |events| && events[q].id == e.id ==> q == p
  }

  lemma {:induction false} DistinctIdsOnce(events: seq<Event>, e: Event)
    requires Distinct(Recorded(events)) && e in events && e.id != ""
    ensures IsThereOnce(e, events)
  {
    var p :| 0 <= p < |events| && events[p] == e;
    forall q | 0 <= q < |events| && events[q].id == e.id ensures q == p {
      if p < q { TwoPlacesTwoRecords(events, p, q); }
      if q < p { TwoPlacesTwoRecords(events, q, p); }
    }
  }

  lemma {:induction false} TwoPlacesTwoRecords(events: seq<Event>, p: nat, q: nat)
    requires p < q < |events| && events[p].id == events[q].id != ""
    ensures !Distinct(Recorded(events))
  {
    RecordedAt(events, p);
    RecordedAt(events, q);
    assert events[..q] == events[..p + 1] + events[p + 1..q];
    RecordedConcat(events[..p + 1], events[p + 1..q]);
    var i, j := |Recorded(events[..p])|, |Recorded(events[..q])|;
    assert i < j;
    assert Recorded(events)[i] == Recorded(events)[j];
  }

  /**
   * Exactly once: in a run of at most `window` identified events, a subscriber whose backfill is done
   * and whose channel is read to the end was given each identified event once, unless it came before
   * the subscriber joined and had already left the newest `listSize`.
   */
  lemma {:induction false} ExactlyOnce(steps: seq<Step>, cfg: Config, s: nat, k: nat)
    requires cfg.listSize >= 1
    requires var st := Run(INITIAL, steps, cfg);
             && s < |st.subs| && st.subs[s].phase.Live? && k < |st.history| && st.history[k].id != ""
             && st.subs[s].chan < |st.channels| && st.channels[st.subs[s].chan].read == |st.history|
             && |Recorded(st.history)| <= cfg.limits.window
    ensures var st := Run(INITIAL, steps, cfg);
            IsThereOnce(st.history[k], st.subs[s].box.enqueued)
            || (k < st.subs[s].joinedAt && k < st.subs[s].fetchedAt - cfg.listSize)
  {
    var st := Run(INITIAL, steps, cfg);
    NoGaps(steps, cfg, s, k);
    NoDuplicates(steps, cfg, s);
    if st.history[k] in st.subs[s].box.enqueued {
      DistinctIdsOnce(st.subs[s].box.enqueued, st.history[k]);
    }
  }

  // ----- publishers that give no ids: every event is identified -----

  /** What a run publishes, in order. */
  function Published(steps: seq<Step>): seq<Event> {
    if steps == [] then []
    else Published(steps[..|steps| - 1]) + (if steps[|steps| - 1].Publish? then [steps[|steps| - 1].e] else [])
  }

  /** Every event was published from a draft without an id, with a fresh id of its own. */
  ghost predicate AreStamped(events: seq<Event>, drafts: seq<Draft>, freshIds: seq<string>) {
    && |events| == |drafts| == |freshIds| && Distinct(freshIds) && "" !in freshIds
    && forall i :: 0 <= i < |events| ==> drafts[i].id.None? && events[i] == Stamp(drafts[i], freshIds[i])
  }

  lemma {:induction false} StampedPrefix(events: seq<Event>, drafts: seq<Draft>, freshIds: seq<string>, n: nat)
    requires AreStamped(events, drafts, freshIds) && n <= |events|
    ensures AreStamped(events[..n], drafts[..n], freshIds[..n])
  {
  }

  /** The last of the stamped events is new among the others. */
  lemma {:induction false} StampedLastIsFresh(events: seq<Event>, drafts: seq<Draft>, freshIds: seq<string>)
    requires AreStamped(events, drafts, freshIds) && events != []
    ensures IsFresh(events[..|events| - 1], events[|events| - 1])
  {
    var n := |events| - 1;
    forall i | 0 <= i < n ensures events[..n][i].id != events[n].id { assert freshIds[i] != freshIds[n]; }
  }

  /** So everything is published, identified, and under an id of its own. */
  lemma {:induction false} StampedRunIsIdentified(steps: seq<Step>, cfg: Config, drafts: seq<Draft>, freshIds: seq<string>)
    requires AreStamped(Published(steps), drafts, freshIds)
    ensures var history := Run(INITIAL, steps, cfg).history;
            && history == Published(steps) && |history| == |drafts| && UniqueIds(history)
            && forall i :: 0 <= i < |history| ==>
                 history[i].id == freshIds[i] != "" && history[i].body == drafts[i].body
  {
    if steps != [] {
      var init, last := steps[..|steps| - 1], steps[|steps| - 1];
      var events, n := Published(steps), |Published(init)|;
      StampedPrefix(events, drafts, freshIds, n);
      assert events[..n] == Published(init);
      StampedRunIsIdentified(init, cfg, drafts[..n], freshIds[..n]);
      if last.Publish? { StampedLastIsFresh(events, drafts, freshIds); }
    }
    EveryRunKeepsLaw(steps, cfg);
    forall i | 0 <= i < |freshIds| ensures freshIds[i] != "" { assert freshIds[i] in freshIds; }
  }

  /**
   * Then exactly once means every event there is: with at most `window` drafts published, none of them
   * carrying an id, each event reaches the subscriber once, save those that were gone when it came.
   */
  lemma {:induction false} EveryStampedEventOnce(steps: seq<Step>, cfg: Config, drafts: seq<Draft>,
        freshIds: seq<string>, s: nat, k: nat)
    requires AreStamped(Published(steps), drafts, freshIds) && |drafts| <= cfg.limits.window
    requires cfg.listSize >= 1 && k < |drafts|
    requires var st := Run(INITIAL, steps, cfg);
             && s < |st.subs| && st.subs[s].phase.Live?
             && st.subs[s].chan < |st.channels| && st.channels[st.subs[s].chan].read == |st.history|
    ensures var st := Run(INITIAL, steps, cfg);
            IsThereOnce(Event(freshIds[k], drafts[k].body), st.subs[s].box.enqueued)
            || (k < st.subs[s].joinedAt && k < st.subs[s].fetchedAt - cfg.listSize)
  {
    StampedRunIsIdentified(steps, cfg, drafts, freshIds);
    RecordedIsNoLonger(Run(INITIAL, steps, cfg).history);
    ExactlyOnce(steps, cfg, s, k);
  }

  lemma {:induction false} RecordedIsNoLonger(events: seq<Event>)
    ensures |Recorded(events)| <= |events|
  {
    if events != [] { RecordedIsNoLonger(events[..|events| - 1]); }
  }

  // ----- a window smaller than the backlog -----

  lemma {:induction false} RunSnoc(steps: seq<Step>, step: Step, cfg: Config)
    ensures var before := Run(INITIAL, steps, cfg);
            Run(INITIAL, steps + [step], cfg) == if Enabled(before, step) then Apply(before, step, cfg) else before
  {
    assert (steps + [step])[..|steps|] == steps;
  }

  function Attaching(a: Event): seq<Step> {
    [] + [Publish(a)] + [Connect] + [SubscribeLands] + [Attach]
  }

  /** One event before a subscriber comes, one right after; then the reader is faster than the LRANGE. */
  function Race(a: Event, b: Event): seq<Step> {
    Attaching(a) + [Publish(b)] + [FanOut(0)] + [Fetch(0)] + [Backfill(0)]
  }

  /** The stream of that run with `history` published, its one subscriber being `sub`, its channel at `read`. */
  function Racing(history: seq<Event>, buffer: seq<Event>, read: nat, sub: Sub): Stream {
    Stream(history, buffer, Free, Some(0), [Channel(1, [0], read, false)], [sub])
  }

  function Joined(box: Box): Sub {
    Sub(Attached, 0, 1, 0, box)
  }

  lemma {:induction false} RaceAttaches(a: Event, cfg: Config)
    requires cfg.listSize >= 2
    ensures Run(INITIAL, Attaching(a), cfg) == Racing([a], [a], 1, Joined(EMPTY))
  {
    var one := [] + [Publish(a)];
    RunSnoc([], Publish(a), cfg);
    assert [] + [a] == [a] && [a] + [] == [a];
    RunSnoc(one, Connect, cfg);
    RunSnoc(one + [Connect], SubscribeLands, cfg);
    RunSnoc(one + [Connect] + [SubscribeLands], Attach, cfg);
  }

  lemma {:induction false} SecondPublished(a: Event, b: Event, cfg: Config)
    requires a.id != b.id && cfg.listSize >= 2
    ensures var st := Racing([a], [a], 1, Joined(EMPTY));
            Enabled(st, Publish(b)) && Apply(st, Publish(b), cfg) == Racing([a, b], [b, a], 1, Joined(EMPTY))
  {
    assert [a] + [b] == [a, b] && [b] + [a] == [b, a];
  }

  lemma {:induction false} SecondFannedOut(a: Event, b: Event, cfg: Config)
    ensures var st := Racing([a, b], [b, a], 1, Joined(EMPTY));
            && Enabled(st, FanOut(0))
            && Apply(st, FanOut(0), cfg) == Racing([a, b], [b, a], 2, Joined(Offer(EMPTY, b, cfg.limits)))
  {
    var subs := [Joined(EMPTY)];
    assert 0 in [0];
    assert Delivered(subs, [0], b, cfg.limits) == [Joined(Offer(EMPTY, b, cfg.limits))];
  }

  lemma {:induction false} BothFetched(a: Event, b: Event, box: Box, cfg: Config)
    ensures var st := Racing([a, b], [b, a], 2, Joined(box));
            && Enabled(st, Fetch(0))
            && Apply(st, Fetch(0), cfg) == Racing([a, b], [b, a], 2, Sub(Fetched([a, b]), 0, 1, 2, box))
  {
    assert Reverse([b, a]) == [a, b];
  }

  lemma {:induction false} BothBackfilled(a: Event, b: Event, box: Box, cfg: Config)
    ensures var st := Racing([a, b], [b, a], 2, Sub(Fetched([a, b]), 0, 1, 2, box));
            && Enabled(st, Backfill(0))
            && Apply(st, Backfill(0), cfg)
               == Racing([a, b], [b, a], 2, Sub(Live, 0, 1, 2, OfferAll(box, [a, b], cfg.limits)))
  {
  }

  /** A window of one holds the last id it was offered. */
  lemma {:induction false} OfferToSmall(box: Box, e: Event, limits: Limits)
    requires limits.window == 1 && limits.queueSize <= 0 && e.id != "" && (box.window == [] || e.id != box.window[0])
    requires |box.window| <= 1
    ensures Offer(box, e, limits).window == [e.id] && Offer(box, e, limits).enqueued == box.enqueued + [e]
  {
  }

  lemma {:induction false} TwoInBox(a: Event, b: Event, limits: Limits)
    requires a.id != "" && b.id != "" && a.id != b.id && limits.window == 1 && limits.queueSize <= 0
    ensures OfferAll(Offer(EMPTY, b, limits), [a, b], limits).enqueued == [b, a, b]
  {
    var first := Offer(EMPTY, b, limits);
    OfferToSmall(EMPTY, b, limits);
    OfferToSmall(first, a, limits);
    var second := Offer(first, a, limits);
    OfferToSmall(second, b, limits);
    assert [a, b][..1] == [a] && [a][..0] == [];
    assert OfferAll(first, [a], limits) == second;
    assert [] + [b] + [a] + [b] == [b, a, b];
  }

  lemma {:induction false} RaceDelivers(a: Event, b: Event, cfg: Config)
    requires a.id != b.id && cfg.listSize >= 2
    ensures var box := OfferAll(Offer(EMPTY, b, cfg.limits), [a, b], cfg.limits);
            Run(INITIAL, Race(a, b), cfg)
               == Racing([a, b], [b, a], 2, Sub(Live, 0, 1, 2, box))
  {
    var steps, box := Attaching(a), Offer(EMPTY, b, cfg.limits);
    RaceAttaches(a, cfg);
    SecondPublished(a, b, cfg);
    RunSnoc(steps, Publish(b), cfg);
    SecondFannedOut(a, b, cfg);
    RunSnoc(steps + [Publish(b)], FanOut(0), cfg);
    BothFetched(a, b, box, cfg);
    RunSnoc(steps + [Publish(b)] + [FanOut(0)], Fetch(0), cfg);
    BothBackfilled(a, b, box, cfg);
    RunSnoc(steps + [Publish(b)] + [FanOut(0)] + [Fetch(0)], Backfill(0), cfg);
  }

  /** With a window of one the race does deliver an event twice. */
  lemma {:induction false} SmallWindowDuplicates(a: Event, b: Event, cfg: Config)
    requires a.id != "" && b.id != "" && a.id != b.id
    requires cfg.listSize >= 2 && cfg.limits.window == 1 && cfg.limits.queueSize <= 0
    ensures var st := Run(INITIAL, Race(a, b), cfg);
            |st.subs| == 1 && st.subs[0].box.enqueued == [b, a, b]
  {
    RaceDelivers(a, b, cfg);
    TwoInBox(a, b, cfg.limits);
  }
}
