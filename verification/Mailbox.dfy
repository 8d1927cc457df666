/** One WebSocket subscriber: a dedup window in front of a bounded queue that drops its oldest entry. */
module Mailbox {
  import opened Common
  import opened EventLog

  /**
   * `window` and `queue` are the subscriber's deque and queue. `enqueued` and `fate` are its history:
   * every event ever put on the queue, and for each that left it whether the sender took it (true)
   * or overflow dropped it (false).
   */
  datatype Box = Box(window: seq<string>, queue: seq<Event>, enqueued: seq<Event>, fate: seq<bool>)

  /** A `queueSize` of zero or less makes an unbounded asyncio queue. */
  datatype Limits = Limits(window: nat, queueSize: int)

  const EMPTY := Box([], [], [], [])

  predicate Seen(box: Box, id: string) {
    id != "" && id in box.window
  }

  function Remember(window: seq<string>, id: string, limits: Limits): seq<string> {
    if id == "" then window else LastN(window + [id], limits.window)
  }

  predicate IsFull(queue: seq<Event>, limits: Limits) {
    limits.queueSize > 0 && |queue| >= limits.queueSize
  }

  /** Skip a known id; otherwise remember it and enqueue, dropping the oldest entry on overflow. */
  function Offer(box: Box, e: Event, limits: Limits): Box {
    if Seen(box, e.id) then box
    else
      var full := IsFull(box.queue, limits);
      Box(Remember(box.window, e.id, limits),
          (if full then box.queue[1..] else box.queue) + [e],
          box.enqueued + [e],
          if full then box.fate + [false] else box.fate)
  }

  function OfferAll(box: Box, events: seq<Event>, limits: Limits): Box {
    if events == [] then box else Offer(OfferAll(box, events[..|events| - 1], limits), events[|events| - 1], limits)
  }

  function Take(box: Box): Box
    requires box.queue != []
  {
    box.(queue := box.queue[1..], fate := box.fate + [true])
  }

  // ----- drop-oldest -----

  /** What the sender has taken so far: by construction a subsequence of the enqueue order. */
  function Sent(box: Box): seq<Event>
    requires |box.fate| <= |box.enqueued|
  {
    Pick(box.enqueued[..|box.fate|], box.fate)
  }

  /**
   * The queue is the suffix of the enqueue history whose fate is still open, within its bound, and
   * an event is only ever dropped when `queueSize` newer ones have been enqueued behind it.
   */
  ghost predicate QueueLaw(box: Box, limits: Limits) {
    && |box.fate| + |box.queue| == |box.enqueued|
    && box.queue == box.enqueued[|box.fate|..]
    && (limits.queueSize > 0 ==> |box.queue| <= limits.queueSize)
    && (forall p :: 0 <= p < |box.fate| && !box.fate[p] ==>
          limits.queueSize > 0 && p + limits.queueSize < |box.enqueued|)
  }

  // ----- dedup window -----

  /** The ids that were recorded in the window, in order: those of the identified enqueued events. */
  function Recorded(events: seq<Event>): seq<string> {
    if events == [] then []
    else Recorded(events[..|events| - 1]) + (if events[|events| - 1].id == "" then [] else [events[|events| - 1].id])
  }

  /** A recorded id comes back only after at least `window` other ids were recorded in between. */
  ghost predicate Spaced(ids: seq<string>, window: nat) {
    forall p, q :: 0 <= p < q < |ids| && ids[p] == ids[q] ==> q - p > window
  }

  /** `window` is the newest `n` of `ids`, or all of them if there are fewer. */
  ghost predicate IsNewest(window: seq<string>, ids: seq<string>, n: nat) {
    && |window| == (if |ids| <= n then |ids| else n)
    && forall k :: 0 <= k < |window| ==> window[k] == ids[|ids| - |window| + k]
  }

  ghost predicate DedupLaw(box: Box, limits: Limits) {
    IsNewest(box.window, Recorded(box.enqueued), limits.window) && Spaced(Recorded(box.enqueued), limits.window)
  }

  ghost predicate BoxLaw(box: Box, limits: Limits) {
    QueueLaw(box, limits) && DedupLaw(box, limits)
  }

  lemma {:induction false} RecordedSnoc(events: seq<Event>, e: Event)
    ensures Recorded(events + [e]) == Recorded(events) + (if e.id == "" then [] else [e.id])
  {
    assert (events + [e])[..|events|] == events;
  }

  lemma {:induction false} NewestSnoc(window: seq<string>, ids: seq<string>, id: string, n: nat)
    requires IsNewest(window, ids, n)
    ensures IsNewest(LastN(window + [id], n), ids + [id], n)
  {
    var last, all := LastN(window + [id], n), ids + [id];
    forall k | 0 <= k < |last| ensures last[k] == all[|all| - |last| + k] {
      assert last[k] == (window + [id])[|window| + 1 - |last| + k];
    }
  }

  lemma {:induction false} SpacedSnoc(ids: seq<string>, id: string, window: seq<string>, n: nat)
    requires Spaced(ids, n) && IsNewest(window, ids, n) && id !in window
    ensures Spaced(ids + [id], n)
  {
    forall p | 0 <= p < |ids| && |ids| - p <= n ensures ids[p] != id {
      assert window[p - (|ids| - |window|)] == ids[p];
    }
  }

  lemma {:induction false} OfferKeepsDedup(box: Box, e: Event, limits: Limits)
    requires DedupLaw(box, limits)
    ensures DedupLaw(Offer(box, e, limits), limits)
  {
    if !Seen(box, e.id) {
      RecordedSnoc(box.enqueued, e);
      var ids := Recorded(box.enqueued);
      if e.id == "" {
        assert ids + [] == ids;
      } else {
        NewestSnoc(box.window, ids, e.id, limits.window);
        SpacedSnoc(ids, e.id, box.window, limits.window);
      }
    }
  }

  lemma {:induction false} OfferKeepsQueue(box: Box, e: Event, limits: Limits)
    requires QueueLaw(box, limits)
    ensures QueueLaw(Offer(box, e, limits), limits)
  {
  }

  /** An offer sends nothing: what it pushes out is dropped, not sent. */
  lemma {:induction false} OfferSendsNothing(box: Box, e: Event, limits: Limits)
    requires QueueLaw(box, limits)
    ensures QueueLaw(Offer(box, e, limits), limits) && Sent(Offer(box, e, limits)) == Sent(box)
  {
    OfferKeepsQueue(box, e, limits);
    var n, after := |box.fate|, Offer(box, e, limits);
    if |after.fate| > n {
      assert after.enqueued[..n + 1] == box.enqueued[..n] + [after.enqueued[n]];
      PickConcat(box.enqueued[..n], box.fate, [after.enqueued[n]], [false]);
      assert Sent(box) + [] == Sent(box);
    } else {
      assert after.enqueued[..n] == box.enqueued[..n];
    }
  }

  /** As long as no more was enqueued than the queue can hold, every event was sent or is still to be sent. */
  lemma {:induction false} NothingDroppedWithinBound(box: Box, limits: Limits)
    requires QueueLaw(box, limits) && (limits.queueSize > 0 ==> |box.enqueued| <= limits.queueSize)
    ensures Sent(box) + box.queue == box.enqueued
  {
    forall p | 0 <= p < |box.fate| ensures box.fate[p] {
      assert p + limits.queueSize >= |box.enqueued| || limits.queueSize <= 0;
    }
    PickAll(box.enqueued[..|box.fate|], box.fate);
    assert box.enqueued == box.enqueued[..|box.fate|] + box.enqueued[|box.fate|..];
  }

  lemma {:induction false} OfferAllSendsNothing(box: Box, events: seq<Event>, limits: Limits)
    requires QueueLaw(box, limits)
    ensures QueueLaw(OfferAll(box, events, limits), limits) && Sent(OfferAll(box, events, limits)) == Sent(box)
  {
    if events != [] {
      OfferAllSendsNothing(box, events[..|events| - 1], limits);
      OfferSendsNothing(OfferAll(box, events[..|events| - 1], limits), events[|events| - 1], limits);
    }
  }

  lemma {:induction false} OfferKeepsLaw(box: Box, e: Event, limits: Limits)
    requires BoxLaw(box, limits)
    ensures BoxLaw(Offer(box, e, limits), limits)
  {
    OfferKeepsDedup(box, e, limits);
    OfferKeepsQueue(box, e, limits);
  }

  lemma {:induction false} TakeKeepsLaw(box: Box, limits: Limits)
    requires BoxLaw(box, limits) && box.queue != []
    ensures BoxLaw(Take(box), limits)
    ensures Sent(Take(box)) == Sent(box) + [box.queue[0]]
  {
    var n := |box.fate|;
    var fate := box.fate + [true];
    assert box.queue[0] == box.enqueued[n];
    assert box.enqueued[..n + 1] == box.enqueued[..n] + [box.enqueued[n]];
    PickConcat(box.enqueued[..n], box.fate, [box.enqueued[n]], [true]);
  }

  lemma {:induction false} OfferAllKeepsLaw(box: Box, events: seq<Event>, limits: Limits)
    requires BoxLaw(box, limits)
    ensures BoxLaw(OfferAll(box, events, limits), limits)
  {
    if events != [] {
      var before := OfferAll(box, events[..|events| - 1], limits);
      OfferAllKeepsLaw(box, events[..|events| - 1], limits);
      OfferKeepsLaw(before, events[|events| - 1], limits);
    }
  }

  lemma {:induction false} NewestOfSpacedAreDistinct(window: seq<string>, ids: seq<string>, n: nat)
    requires Spaced(ids, n) && IsNewest(window, ids, n)
    ensures Distinct(window)
  {
    forall i, j | 0 <= i < j < |window| ensures window[i] != window[j] {
      SpacedNearby(ids, n, |ids| - |window| + i, |ids| - |window| + j);
    }
  }

  lemma {:induction false} SpacedNearby(ids: seq<string>, window: nat, p: nat, q: nat)
    requires Spaced(ids, window) && p < q < |ids| && q - p <= window
    ensures ids[p] != ids[q]
  {
  }

  /** The law at a glance: the window has no repeats and never exceeds its bound. */
  lemma {:induction false} WindowIsDistinct(box: Box, limits: Limits)
    requires DedupLaw(box, limits)
    ensures Distinct(box.window) && |box.window| <= limits.window
  {
    NewestOfSpacedAreDistinct(box.window, Recorded(box.enqueued), limits.window);
  }

  lemma {:induction false} RecordedConcat(a: seq<Event>, b: seq<Event>)
    ensures Recorded(a + b) == Recorded(a) + Recorded(b)
  {
    if b == [] {
      assert a + b == a;
    } else {
      var init, last := b[..|b| - 1], b[|b| - 1];
      RecordedConcat(a, init);
      Associates(a, init, [last]);
      assert init + [last] == b;
      RecordedSnoc(a + init, last);
      RecordedSnoc(init, last);
      Associates(Recorded(a), Recorded(init), if last.id == "" then [] else [last.id]);
    }
  }

  /** Where an identified event's id sits in the recorded ids. */
  lemma {:induction false} RecordedAt(s: seq<Event>, p: nat)
    requires p < |s| && s[p].id != ""
    ensures |Recorded(s[..p + 1])| == |Recorded(s[..p])| + 1 <= |Recorded(s)|
    ensures Recorded(s)[|Recorded(s[..p])|] == s[p].id
  {
    assert s[..p + 1] == s[..p] + [s[p]];
    RecordedSnoc(s[..p], s[p]);
    assert s == s[..p + 1] + s[p + 1..];
    RecordedConcat(s[..p + 1], s[p + 1..]);
  }

  /** An identified event enqueued twice had at least a whole window of other ids enqueued in between. */
  lemma {:induction false} RepeatsAreFarApart(box: Box, limits: Limits, p: nat, q: nat)
    requires DedupLaw(box, limits) && p < q < |box.enqueued|
    requires box.enqueued[p].id == box.enqueued[q].id != ""
    ensures |Recorded(box.enqueued[p + 1..q])| >= limits.window
  {
    var s := box.enqueued;
    RecordedAt(s, p);
    RecordedAt(s, q);
    assert s[..q] == s[..p + 1] + s[p + 1..q];
    RecordedConcat(s[..p + 1], s[p + 1..q]);
  }

  // ----- delivery: what one offer guarantees when event ids are unique -----

  ghost predicate UniqueIds(history: seq<Event>) {
    forall i, j :: 0 <= i < j < |history| && history[i].id != "" ==> history[i].id != history[j].id
  }

  lemma {:induction false} SameIdSameEvent(history: seq<Event>, x: Event, y: Event)
    requires UniqueIds(history) && x in history && y in history && x.id == y.id != ""
    ensures x == y
  {
  }

  /** Everything enqueued was published. */
  ghost predicate Knows(box: Box, history: seq<Event>) {
    forall e :: e in box.enqueued ==> e in history
  }

  /** A recorded id belongs to some enqueued event. */
  lemma {:induction false} RecordedBelongs(events: seq<Event>, id: string) returns (e: Event)
    requires id in Recorded(events)
    ensures e in events && e.id == id
  {
    var init, last := events[..|events| - 1], events[|events| - 1];
    if id in Recorded(init) {
      e := RecordedBelongs(init, id);
    } else {
      e := last;
    }
  }

  /** The window holds recorded ids only. */
  ghost predicate WindowIsRecorded(box: Box) {
    forall id :: id in box.window ==> id in Recorded(box.enqueued)
  }

  lemma {:induction false} OfferKeepsRecorded(box: Box, e: Event, limits: Limits)
    requires WindowIsRecorded(box)
    ensures WindowIsRecorded(Offer(box, e, limits))
  {
    if !Seen(box, e.id) { RecordedSnoc(box.enqueued, e); }
  }

  lemma {:induction false} OfferDelivers(box: Box, e: Event, history: seq<Event>, limits: Limits)
    requires WindowIsRecorded(box) && Knows(box, history) && UniqueIds(history) && e in history
    ensures var after := Offer(box, e, limits);
            Knows(after, history) && e in after.enqueued && (forall x :: x in box.enqueued ==> x in after.enqueued)
  {
    if Seen(box, e.id) {
      var x := RecordedBelongs(box.enqueued, e.id);
      SameIdSameEvent(history, x, e);
    } else {
      assert Offer(box, e, limits).enqueued == box.enqueued + [e];
    }
  }

  lemma {:induction false} OfferAllDelivers(box: Box, events: seq<Event>, history: seq<Event>, limits: Limits)
    requires WindowIsRecorded(box) && Knows(box, history) && UniqueIds(history)
    requires forall e :: e in events ==> e in history
    ensures var after := OfferAll(box, events, limits);
            && WindowIsRecorded(after) && Knows(after, history)
            && (forall e :: e in events ==> e in after.enqueued)
            && (forall x :: x in box.enqueued ==> x in after.enqueued)
  {
    if events != [] {
      var init, last := events[..|events| - 1], events[|events| - 1];
      OfferAllDelivers(box, init, history, limits);
      OfferKeepsRecorded(OfferAll(box, init, limits), last, limits);
      OfferDelivers(OfferAll(box, init, limits), last, history, limits);
      assert events == init + [last];
    }
  }

  /** Each event has an id of its own, and none of them was recorded before. */
  ghost predicate AreNew(events: seq<Event>, recorded: seq<string>) {
    && (forall i :: 0 <= i < |events| ==> events[i].id != "" && events[i].id !in recorded)
    && (forall i, j :: 0 <= i < j < |events| ==> events[i].id != events[j].id)
  }

  lemma {:induction false} LastIsNew(earlier: seq<Event>, events: seq<Event>)
    requires events != [] && AreNew(events, Recorded(earlier))
    ensures var init, last := events[..|events| - 1], events[|events| - 1];
            AreNew(init, Recorded(earlier)) && last.id != "" && last.id !in Recorded(earlier + init)
  {
    var n := |events| - 1;
    RecordedConcat(earlier, events[..n]);
    forall e | e in events[..n] ensures e.id != events[n].id {
      var i :| 0 <= i < n && events[..n][i] == e;
      assert events[i].id != events[n].id;
    }
    NotAmongRecorded(events[..n], events[n].id);
  }

  lemma {:induction false} NotAmongRecorded(events: seq<Event>, id: string)
    requires forall e :: e in events ==> e.id != id
    ensures id !in Recorded(events)
  {
    if events != [] { NotAmongRecorded(events[..|events| - 1], id); }
  }

  lemma {:induction false} UnrecordedIsEnqueued(box: Box, earlier: seq<Event>, init: seq<Event>, e: Event, limits: Limits)
    requires WindowIsRecorded(box) && box.enqueued == earlier + init && e.id !in Recorded(earlier + init)
    ensures var after := Offer(box, e, limits);
            after.enqueued == earlier + (init + [e]) && WindowIsRecorded(after)
  {
    OfferKeepsRecorded(box, e, limits);
    Associates(earlier, init, [e]);
  }

  /** New events are all enqueued, in the order they are offered. */
  lemma {:induction false} NewEventsKeepOrder(box: Box, events: seq<Event>, limits: Limits)
    requires WindowIsRecorded(box) && AreNew(events, Recorded(box.enqueued))
    ensures var after := OfferAll(box, events, limits);
            after.enqueued == box.enqueued + events && WindowIsRecorded(after)
  {
    if events == [] {
      assert box.enqueued + [] == box.enqueued;
    } else {
      var init, last := events[..|events| - 1], events[|events| - 1];
      LastIsNew(box.enqueued, events);
      NewEventsKeepOrder(box, init, limits);
      UnrecordedIsEnqueued(OfferAll(box, init, limits), box.enqueued, init, last, limits);
      assert init + [last] == events;
    }
  }

  // ----- the subscriber object -----

  class Subscriber {
    const limits: Limits
    var dedup: seq<string>
    var queue: seq<Event>
    ghost var box: Box

    ghost predicate Valid()
      reads this
    {
      dedup == box.window && queue == box.queue && BoxLaw(box, limits)
    }

    constructor (limits: Limits)
      ensures Valid() && box == EMPTY && this.limits == limits
    {
      this.limits := limits;
      dedup, queue, box := [], [], EMPTY;
    }

    /** True for a known id; an unknown one is recorded, and a missing one never counts as seen. */
    method HasSeen(id: string) returns (seen: bool)
      modifies this`dedup
      ensures seen == (id != "" && id in old(dedup))
      ensures dedup == if seen then old(dedup) else Remember(old(dedup), id, limits)
    {
      if id == "" {
        return false;
      }
      if id in dedup {
        return true;
      }
      dedup := LastN(dedup + [id], limits.window);
      return false;
    }

    /** The body shared by fan-out and backfill: skip a known id, else enqueue dropping the oldest. */
    method Enqueue(e: Event)
      modifies this`dedup, this`queue
      ensures var after := Offer(Box(old(dedup), old(queue), [], []), e, limits);
              dedup == after.window && queue == after.queue
    {
      var seen := HasSeen(e.id);
      if seen {
        return;
      }
      if IsFull(queue, limits) {
        queue := queue[1..];
      }
      queue := queue + [e];
    }

    /** One offer, with its history. */
    method Deliver(e: Event)
      requires Valid()
      modifies this
      ensures Valid() && box == Offer(old(box), e, limits) && Sent(box) == Sent(old(box))
    {
      OfferKeepsLaw(box, e, limits);
      OfferSendsNothing(box, e, limits);
      box := Offer(box, e, limits);
      Enqueue(e);
    }

    /** The loop over the backfilled events; it runs without yielding. */
    method Backfill(buffered: seq<Event>)
      requires Valid()
      modifies this
      ensures Valid() && box == OfferAll(old(box), buffered, limits) && Sent(box) == Sent(old(box))
    {
      OfferAllSendsNothing(box, buffered, limits);
      for i := 0 to |buffered|
        invariant Valid() && box == OfferAll(old(box), buffered[..i], limits)
      {
        assert buffered[..i + 1][..i] == buffered[..i];
        Deliver(buffered[i]);
      }
      assert buffered[..|buffered|] == buffered;
    }

    /** The sender takes the oldest queued event. */
    method Get() returns (e: Event)
      requires Valid() && queue != []
      modifies this
      ensures Valid() && box == Take(old(box)) && Sent(box) == Sent(old(box)) + [e]
    {
      TakeKeepsLaw(box, limits);
      box := Take(box);
      e := queue[0];
      queue := queue[1..];
    }
  }
}
