/** The drain task against the capture handler, interleaved at every await; nothing accepted is lost in silence. */
module BronzeDrain {
  import opened Common
  import opened Envelopes
  import opened Recorder

  /** Where the drain coroutine is suspended. */
  datatype Drain =
    | Waiting
    | Collecting(hand: seq<Envelope>)
    | Writing(batch: seq<Envelope>) | WritingLast(batch: seq<Envelope>) | WritingLeftover(batch: seq<Envelope>)
    | Finished

  /**
   * `accepted` and `handed` are the history: envelopes the queue took, and the arguments of every
   * `append_events` call. `lost` was in hand at the cancellation, `interrupted` was the argument of
   * a call the cancellation cut short, and `cut` counts the calls made before it.
   */
  datatype Bronze = Bronze(
    queue: seq<Option<Envelope>>, drain: Drain, stopped: bool, cancelled: bool,
    accepted: seq<Envelope>, handed: seq<seq<Envelope>>,
    lost: seq<Envelope>, interrupted: seq<Envelope>, cut: nat)

  datatype Step = Capture(raw: Envelope) | BeginStop | GetFirst | GetMore | Deadline | Written | Cancel

  const INITIAL := Bronze([], Waiting, false, false, [], [], [], [], 0)

  predicate Enabled(st: Bronze, step: Step) {
    match step
    case Capture(raw) => !st.stopped
    case BeginStop => !st.stopped
    case GetFirst => st.drain.Waiting? && st.queue != []
    case GetMore => st.drain.Collecting? && st.queue != []
    case Deadline => st.drain.Collecting?
    case Written => st.drain.Writing? || st.drain.WritingLast? || st.drain.WritingLeftover?
    case Cancel => st.stopped && !st.cancelled && !st.drain.Finished?
  }

  /** A call of `append_events` begins. */
  function Hand(st: Bronze, batch: seq<Envelope>, drain: Drain): Bronze {
    st.(handed := st.handed + [batch], drain := drain)
  }

  /** The CancelledError handler: the whole rest of the queue goes out as one batch. */
  function Cancelled(st: Bronze): Bronze {
    var leftover := Items(st.queue);
    var st' := st.(
      cancelled := true, queue := [], cut := |st.handed|,
      lost := if st.drain.Collecting? then st.drain.hand else [],
      interrupted := if st.drain.Writing? || st.drain.WritingLast? then st.drain.batch else []);
    if leftover == [] then st'.(drain := Finished) else Hand(st', leftover, WritingLeftover(leftover))
  }

  function Apply(st: Bronze, step: Step, capacity: int): Bronze
    requires Enabled(st, step)
  {
    match step
    case Capture(raw) =>
      if HasRoom(st.queue, capacity)
      then st.(queue := st.queue + [Some(raw)], accepted := st.accepted + [raw]) else st
    case BeginStop =>
      st.(stopped := true, queue := if HasRoom(st.queue, capacity) then st.queue + [None] else st.queue)
    case GetFirst =>
      var rest := st.(queue := st.queue[1..]);
      if st.queue[0].None? then rest.(drain := Finished) else rest.(drain := Collecting([st.queue[0].value]))
    case GetMore =>
      var rest := st.(queue := st.queue[1..]);
      if st.queue[0].None? then Hand(rest, st.drain.hand, WritingLast(st.drain.hand))
      else
        var hand := st.drain.hand + [st.queue[0].value];
        if |hand| < BATCH_SIZE then rest.(drain := Collecting(hand)) else Hand(rest, hand, Writing(hand))
    case Deadline => Hand(st, st.drain.hand, Writing(st.drain.hand))
    case Written => st.(drain := if st.drain.Writing? then Waiting else Finished)
    case Cancel => Cancelled(st)
  }

  function Run(st: Bronze, steps: seq<Step>, capacity: int): Bronze {
    if steps == [] then st
    else
      var before := Run(st, steps[..|steps| - 1], capacity);
      var step := steps[|steps| - 1];
      if Enabled(before, step) then Apply(before, step, capacity) else before
  }

  function Flatten(batches: seq<seq<Envelope>>): seq<Envelope> {
    if batches == [] then [] else Flatten(batches[..|batches| - 1]) + batches[|batches| - 1]
  }

  function InHand(drain: Drain): seq<Envelope> {
    if drain.Collecting? then drain.hand else []
  }

  ghost predicate BatchesBounded(batches: seq<seq<Envelope>>) {
    forall i :: 0 <= i < |batches| ==> 1 <= |batches[i]| <= BATCH_SIZE
  }

  /** Handed batches, then the batch in hand, then the queue: exactly what was accepted, in order. */
  ghost predicate Conserved(st: Bronze) {
    && st.accepted == Flatten(st.handed) + InHand(st.drain) + Items(st.queue)
    && BatchesBounded(st.handed)
    && (st.drain.Collecting? ==> 1 <= |st.drain.hand| < BATCH_SIZE)
    && !st.drain.WritingLeftover?
  }

  /** The only sentinel is at the back of a stopped queue; past it the queue is empty. */
  ghost predicate SentinelLast(st: Bronze) {
    && (forall i :: 0 <= i < |st.queue| && st.queue[i].None? ==> st.stopped && i == |st.queue| - 1)
    && (st.drain.Finished? || st.drain.WritingLast? ==> st.stopped && st.queue == [])
  }

  /** After a cancellation: calls before it, what was in hand, then the rest of the queue in one last batch. */
  ghost predicate Accounted(st: Bronze) {
    && st.stopped && st.queue == [] && (st.drain.Finished? || st.drain.WritingLeftover?)
    && st.cut <= |st.handed| <= st.cut + 1
    && BatchesBounded(st.handed[..st.cut])
    && st.accepted == Flatten(st.handed[..st.cut]) + st.lost + Flatten(st.handed[st.cut..])
    && |st.lost| < BATCH_SIZE
    && (st.lost == [] || st.interrupted == [])
    && (st.interrupted != [] ==> st.cut > 0 && st.interrupted == st.handed[st.cut - 1])
  }

  ghost predicate Law(st: Bronze, capacity: int) {
    && (if st.cancelled then Accounted(st)
        else Conserved(st) && SentinelLast(st)
             && (st.drain.Writing? || st.drain.WritingLast? ==>
                   st.handed != [] && st.drain.batch == st.handed[|st.handed| - 1]))
    && (capacity > 0 ==> |st.queue| <= capacity)
  }

  lemma {:induction false} ItemsHead(queue: seq<Option<Envelope>>)
    requires queue != []
    ensures Items(queue) == (if queue[0].Some? then [queue[0].value] else []) + Items(queue[1..])
  {
    if |queue| > 1 {
      ItemsHead(queue[..|queue| - 1]);
      assert queue[..|queue| - 1][1..] == queue[1..][..|queue| - 2];
    } else {
      assert queue[..0] == [] && queue[1..] == [];
    }
  }

  lemma {:induction false} ItemsSnoc(queue: seq<Option<Envelope>>, x: Option<Envelope>)
    ensures Items(queue + [x]) == Items(queue) + (if x.Some? then [x.value] else [])
  {
    assert (queue + [x])[..|queue|] == queue;
  }

  lemma {:induction false} FlattenSnoc(batches: seq<seq<Envelope>>, b: seq<Envelope>)
    ensures Flatten(batches + [b]) == Flatten(batches) + b
  {
    assert (batches + [b])[..|batches|] == batches;
  }

  /** An envelope accepted at the back of the queue is conserved there. */
  lemma {:induction false} CaptureConserves(st: Bronze, raw: Envelope)
    requires Conserved(st)
    ensures Conserved(st.(queue := st.queue + [Some(raw)], accepted := st.accepted + [raw]))
  {
    ItemsSnoc(st.queue, Some(raw));
    Associates(Flatten(st.handed) + InHand(st.drain), Items(st.queue), [raw]);
  }

  lemma {:induction false} SentinelConserves(st: Bronze)
    requires Conserved(st)
    ensures Conserved(st.(stopped := true, queue := st.queue + [None]))
  {
    ItemsSnoc(st.queue, None);
    assert Items(st.queue) + [] == Items(st.queue);
  }

  lemma {:induction false} CaptureKeepsLaw(st: Bronze, raw: Envelope, capacity: int)
    requires Law(st, capacity) && Enabled(st, Capture(raw))
    ensures Law(Apply(st, Capture(raw), capacity), capacity)
  {
    CaptureConserves(st, raw);
  }

  lemma {:induction false} BeginStopKeepsLaw(st: Bronze, capacity: int)
    requires Law(st, capacity) && Enabled(st, BeginStop)
    ensures Law(Apply(st, BeginStop, capacity), capacity)
  {
    SentinelConserves(st);
  }

  lemma {:induction false} GetFirstKeepsLaw(st: Bronze, capacity: int)
    requires Law(st, capacity) && Enabled(st, GetFirst)
    ensures Law(Apply(st, GetFirst, capacity), capacity)
  {
    ItemsHead(st.queue);
  }

  /** Handing over what is collected moves it from hand to the handed batches. */
  lemma {:induction false} HandConserves(accepted: seq<Envelope>, handed: seq<seq<Envelope>>,
        batch: seq<Envelope>, queued: seq<Envelope>)
    requires accepted == Flatten(handed) + batch + queued
    requires BatchesBounded(handed) && 1 <= |batch| <= BATCH_SIZE
    ensures accepted == Flatten(handed + [batch]) + [] + queued
    ensures BatchesBounded(handed + [batch])
  {
    FlattenSnoc(handed, batch);
  }

  lemma {:induction false} GetSentinelKeepsLaw(st: Bronze, capacity: int)
    requires Law(st, capacity) && Enabled(st, GetMore) && st.queue[0].None?
    ensures Law(Apply(st, GetMore, capacity), capacity)
  {
    ItemsHead(st.queue);
    assert st.queue[1..] == [];
    HandConserves(st.accepted, st.handed, st.drain.hand, []);
  }

  /** One envelope moves from the front of the queue to the batch in hand. */
  lemma {:induction false} TakeNext(before: seq<Envelope>, hand: seq<Envelope>, queue: seq<Option<Envelope>>)
    requires queue != [] && queue[0].Some?
    ensures before + hand + Items(queue) == before + (hand + [queue[0].value]) + Items(queue[1..])
  {
    var x := queue[0].value;
    ItemsHead(queue);
    Associates(before + hand, [x], Items(queue[1..]));
    Associates(before, hand, [x]);
  }

  lemma {:induction false} GetMoreConserves(st: Bronze, capacity: int)
    requires Conserved(st) && st.drain.Collecting? && st.queue != [] && st.queue[0].Some?
    ensures Conserved(Apply(st, GetMore, capacity))
  {
    var hand := st.drain.hand + [st.queue[0].value];
    TakeNext(Flatten(st.handed), st.drain.hand, st.queue);
    if |hand| == BATCH_SIZE { HandConserves(st.accepted, st.handed, hand, Items(st.queue[1..])); }
  }

  lemma {:induction false} SentinelStaysLast(st: Bronze, st': Bronze)
    requires SentinelLast(st) && st.queue != [] && st.queue[0].Some?
    requires st'.queue == st.queue[1..] && st'.stopped == st.stopped && !st'.drain.Finished? && !st'.drain.WritingLast?
    ensures SentinelLast(st')
  {
    forall i | 0 <= i < |st'.queue| && st'.queue[i].None? ensures st'.stopped && i == |st'.queue| - 1 {
      assert st.queue[i + 1].None?;
    }
  }

  lemma {:induction false} GetMoreKeepsLaw(st: Bronze, capacity: int)
    requires Law(st, capacity) && Enabled(st, GetMore) && st.queue[0].Some?
    ensures Law(Apply(st, GetMore, capacity), capacity)
  {
    GetMoreConserves(st, capacity);
    SentinelStaysLast(st, Apply(st, GetMore, capacity));
  }

  lemma {:induction false} FlushKeepsLaw(st: Bronze, step: Step, capacity: int)
    requires Law(st, capacity) && Enabled(st, step) && (step.Deadline? || step.Written?)
    ensures Law(Apply(st, step, capacity), capacity)
  {
    if step.Deadline? { HandConserves(st.accepted, st.handed, st.drain.hand, Items(st.queue)); }
  }

  /** What a cancellation hands over, told apart from what was handed over before it. */
  lemma {:induction false} CutHanded(handed: seq<seq<Envelope>>, leftover: seq<Envelope>)
    ensures var after := if leftover == [] then handed else handed + [leftover];
            after[..|handed|] == handed && Flatten(after[|handed|..]) == leftover
  {
    if leftover == [] {
      assert handed[|handed|..] == [];
    } else {
      assert (handed + [leftover])[|handed|..] == [leftover];
      FlattenSnoc([], leftover);
      assert [] + [leftover] == [leftover];
    }
  }

  lemma {:induction false} CancelKeepsLaw(st: Bronze, capacity: int)
    requires Law(st, capacity) && Enabled(st, Cancel)
    ensures Law(Apply(st, Cancel, capacity), capacity)
  {
    CutHanded(st.handed, Items(st.queue));
  }

  lemma {:induction false} StepKeepsLaw(st: Bronze, step: Step, capacity: int)
    requires Law(st, capacity) && Enabled(st, step)
    ensures Law(Apply(st, step, capacity), capacity)
  {
    match step
    case Capture(raw) => CaptureKeepsLaw(st, raw, capacity);
    case BeginStop => BeginStopKeepsLaw(st, capacity);
    case Cancel => CancelKeepsLaw(st, capacity);
    case GetFirst => GetFirstKeepsLaw(st, capacity);
    case GetMore =>
      if st.queue[0].None? { GetSentinelKeepsLaw(st, capacity); } else { GetMoreKeepsLaw(st, capacity); }
    case Deadline => FlushKeepsLaw(st, step, capacity);
    case Written => FlushKeepsLaw(st, step, capacity);
  }

  lemma {:induction false} EveryRunKeepsLaw(steps: seq<Step>, capacity: int)
    ensures Law(Run(INITIAL, steps, capacity), capacity)
  {
    if steps != [] {
      EveryRunKeepsLaw(steps[..|steps| - 1], capacity);
      var before, step := Run(INITIAL, steps[..|steps| - 1], capacity), steps[|steps| - 1];
      if Enabled(before, step) { StepKeepsLaw(before, step, capacity); }
    }
  }

  /** In every reachable state before a cancellation nothing accepted is missing, repeated or reordered. */
  lemma {:induction false} NothingLostBeforeCancel(steps: seq<Step>, capacity: int)
    requires !Run(INITIAL, steps, capacity).cancelled
    ensures Conserved(Run(INITIAL, steps, capacity))
  {
    EveryRunKeepsLaw(steps, capacity);
  }

  /**
   * When the drain has finished, so that `stop()` returns: on the sentinel path everything accepted
   * was handed over; after a cancellation all but fewer than ten in hand, and then no call was cut short.
   */
  lemma {:induction false} StopAccountsForEverything(steps: seq<Step>, capacity: int)
    requires Run(INITIAL, steps, capacity).drain.Finished?
    ensures var st := Run(INITIAL, steps, capacity);
            && st.stopped && st.queue == []
            && (!st.cancelled ==> st.accepted == Flatten(st.handed) && BatchesBounded(st.handed))
            && (st.cancelled ==> Accounted(st))
  {
    EveryRunKeepsLaw(steps, capacity);
  }

  // ----- what is accepted -----

  lemma {:induction false} RunSnoc(st: Bronze, steps: seq<Step>, step: Step, capacity: int)
    ensures var before := Run(st, steps, capacity);
            Run(st, steps + [step], capacity) == if Enabled(before, step) then Apply(before, step, capacity) else before
  {
    assert (steps + [step])[..|steps|] == steps;
  }

  lemma {:induction false} StoppedIff(steps: seq<Step>, capacity: int)
    ensures Run(INITIAL, steps, capacity).stopped <==> BeginStop in steps
  {
    if steps != [] {
      var init, last := steps[..|steps| - 1], steps[|steps| - 1];
      StoppedIff(init, capacity);
      assert steps == init + [last];
    }
  }

  /** Until the stop every envelope is accepted that finds room; one that does not changes nothing. */
  lemma {:induction false} CaptureIsAccepted(steps: seq<Step>, raw: Envelope, capacity: int)
    requires BeginStop !in steps
    ensures var before, after := Run(INITIAL, steps, capacity), Run(INITIAL, steps + [Capture(raw)], capacity);
            && (capacity <= 0 || |before.queue| < capacity ==>
                  after == before.(queue := before.queue + [Some(raw)], accepted := before.accepted + [raw]))
            && (0 < capacity <= |before.queue| ==> after == before)
  {
    StoppedIff(steps, capacity);
    RunSnoc(INITIAL, steps, Capture(raw), capacity);
  }

  /** Stopping leaves one sentinel behind what was accepted, if it finds room. */
  lemma {:induction false} StopIsSignalled(steps: seq<Step>, capacity: int)
    requires BeginStop !in steps
    ensures var before, after := Run(INITIAL, steps, capacity), Run(INITIAL, steps + [BeginStop], capacity);
            && (capacity <= 0 || |before.queue| < capacity ==>
                  after == before.(stopped := true, queue := before.queue + [None]))
            && (0 < capacity <= |before.queue| ==>
                  after == before.(stopped := true))
  {
    StoppedIff(steps, capacity);
    RunSnoc(INITIAL, steps, BeginStop, capacity);
  }

  /** Every envelope captured before the stop, in order. */
  function Captured(steps: seq<Step>): seq<Envelope> {
    if steps == [] then []
    else
      var init, last := steps[..|steps| - 1], steps[|steps| - 1];
      Captured(init) + (if last.Capture? && BeginStop !in init then [last.raw] else [])
  }

  /** A queue without a bound refuses nothing. */
  lemma {:induction false} UnboundedAcceptsAll(steps: seq<Step>, capacity: int)
    requires capacity <= 0
    ensures Run(INITIAL, steps, capacity).accepted == Captured(steps)
  {
    if steps != [] {
      UnboundedAcceptsAll(steps[..|steps| - 1], capacity);
      StoppedIff(steps[..|steps| - 1], capacity);
    }
  }

  // ----- the drain can always finish its work -----

  lemma {:induction false} RunCons(st: Bronze, step: Step, more: seq<Step>, capacity: int)
    requires Enabled(st, step)
    ensures Run(st, [step] + more, capacity) == Run(Apply(st, step, capacity), more, capacity)
  {
    if more == [] {
      assert [step] + more == [] + [step];
      RunSnoc(st, [], step, capacity);
    } else {
      var init, last := more[..|more| - 1], more[|more| - 1];
      RunCons(st, step, init, capacity);
      RunSnoc(st, [step] + init, last, capacity);
      assert [step] + more == ([step] + init) + [last];
    }
  }

  lemma {:induction false} RunConcat(st: Bronze, a: seq<Step>, b: seq<Step>, capacity: int)
    ensures Run(st, a + b, capacity) == Run(Run(st, a, capacity), b, capacity)
  {
    if b == [] {
      assert a + b == a;
    } else {
      assert (a + b)[..|a + b| - 1] == a + b[..|b| - 1];
      RunConcat(st, a, b[..|b| - 1], capacity);
    }
  }

  predicate IsDrainStep(step: Step) {
    step.GetFirst? || step.GetMore? || step.Deadline? || step.Written?
  }

  /** The drain's own next step, when it has one. */
  function NextStep(st: Bronze): Step {
    if st.drain.Waiting? then GetFirst
    else if st.drain.Collecting? then (if st.queue == [] then Deadline else GetMore)
    else Written
  }

  function DrainWork(st: Bronze): nat {
    3 * |st.queue| + match st.drain
                     case Collecting(_) => 2
                     case Writing(_) => 1
                     case WritingLast(_) => 1
                     case _ => 0
  }

  /** It has seen the sentinel, or will. */
  predicate IsSignalled(st: Bronze) {
    None in st.queue || st.drain.WritingLast? || st.drain.Finished?
  }

  lemma {:induction false} NextStepWorks(st: Bronze, capacity: int)
    requires Law(st, capacity) && !st.cancelled && !st.drain.Finished? && !(st.drain.Waiting? && st.queue == [])
    ensures Enabled(st, NextStep(st))
    ensures var after := Apply(st, NextStep(st), capacity);
            && DrainWork(after) < DrainWork(st) && !after.cancelled && after.accepted == st.accepted
            && (IsSignalled(st) ==> IsSignalled(after))
  {
    if st.queue != [] { assert st.queue == [st.queue[0]] + st.queue[1..]; }
  }

  /**
   * Whatever state capture, drain and stop have reached, the drain's own steps alone hand over
   * everything accepted so far, and with the sentinel on its way they finish the drain.
   */
  lemma {:induction false} DrainCatchesUp(st: Bronze, capacity: int) returns (more: seq<Step>)
    requires Law(st, capacity) && !st.cancelled
    ensures forall i :: 0 <= i < |more| ==> IsDrainStep(more[i])
    ensures var after := Run(st, more, capacity);
            && after.accepted == st.accepted == Flatten(after.handed) && after.queue == [] && !after.cancelled
            && (after.drain.Waiting? || after.drain.Finished?) && (IsSignalled(st) ==> after.drain.Finished?)
    decreases DrainWork(st)
  {
    more := [];
    if !st.drain.Finished? && !(st.drain.Waiting? && st.queue == []) {
      var step := NextStep(st);
      NextStepWorks(st, capacity);
      StepKeepsLaw(st, step, capacity);
      var rest := DrainCatchesUp(Apply(st, step, capacity), capacity);
      RunCons(st, step, rest, capacity);
      more := [step] + rest;
    }
  }

  lemma {:induction false} EveryRunCanBeDrained(steps: seq<Step>, capacity: int) returns (more: seq<Step>)
    requires !Run(INITIAL, steps, capacity).cancelled
    ensures forall i :: 0 <= i < |more| ==> IsDrainStep(more[i])
    ensures var before, after := Run(INITIAL, steps, capacity), Run(INITIAL, steps + more, capacity);
            && after.accepted == before.accepted == Flatten(after.handed) && after.queue == []
            && (IsSignalled(before) ==> after.drain.Finished?)
  {
    EveryRunKeepsLaw(steps, capacity);
    more := DrainCatchesUp(Run(INITIAL, steps, capacity), capacity);
    RunConcat(INITIAL, steps, more, capacity);
  }

  /**
   * What a cancellation does: everything still queued goes out in one last call; lost is what was in hand
   * between two calls, and cut short is the call under way, of which there cannot be both.
   */
  lemma {:induction false} CancellationHits(steps: seq<Step>, capacity: int)
    requires BeginStop in steps
    requires !Run(INITIAL, steps, capacity).cancelled && !Run(INITIAL, steps, capacity).drain.Finished?
    ensures var before, after := Run(INITIAL, steps, capacity), Run(INITIAL, steps + [Cancel], capacity);
            && after.cancelled && after.accepted == before.accepted
               == Flatten(before.handed) + after.lost + Items(before.queue)
            && after.handed == before.handed + (if Items(before.queue) == [] then [] else [Items(before.queue)])
            && (after.lost != [] <==> before.drain.Collecting?)
            && (after.interrupted != [] <==> before.drain.Writing? || before.drain.WritingLast?)
            && (after.interrupted != [] ==> before.handed != [] && after.interrupted == before.handed[|before.handed| - 1])
  {
    StoppedIff(steps, capacity);
    EveryRunKeepsLaw(steps, capacity);
    RunSnoc(INITIAL, steps, Cancel, capacity);
  }

  /** And when the grace period of `stop()` runs out, the cancellation and one last write end it. */
  lemma {:induction false} CancelEndsIt(steps: seq<Step>, capacity: int)
    requires BeginStop in steps && !Run(INITIAL, steps, capacity).cancelled
    ensures Run(INITIAL, steps + [Cancel] + [Written], capacity).drain.Finished?
  {
    StoppedIff(steps, capacity);
    EveryRunKeepsLaw(steps, capacity);
    RunSnoc(INITIAL, steps, Cancel, capacity);
    RunSnoc(INITIAL, steps + [Cancel], Written, capacity);
  }

  // ----- batches fill up -----

  /** The drain takes `n` items without a pause. */
  function Gets(n: nat): seq<Step>
    requires n >= 1
  {
    if n == 1 then [GetFirst] else Gets(n - 1) + [GetMore]
  }

  ghost predicate NoSentinel(queue: seq<Option<Envelope>>, n: nat) {
    n <= |queue| && forall i :: 0 <= i < n ==> queue[i].Some?
  }

  lemma {:induction false} ItemsCount(queue: seq<Option<Envelope>>)
    requires NoSentinel(queue, |queue|)
    ensures |Items(queue)| == |queue|
  {
    if queue != [] { ItemsCount(queue[..|queue| - 1]); }
  }

  /** What the first `n` queued envelopes are, one more at a time. */
  lemma {:induction false} FirstItems(queue: seq<Option<Envelope>>, n: nat)
    requires 1 <= n && NoSentinel(queue, n)
    ensures Items(queue[..n]) == Items(queue[..n - 1]) + [queue[n - 1].value] && |Items(queue[..n])| == n
    ensures queue[n - 1..][1..] == queue[n..]
  {
    assert queue[..n] == queue[..n - 1] + [queue[n - 1]];
    ItemsSnoc(queue[..n - 1], queue[n - 1]);
    ItemsCount(queue[..n]);
  }

  /** The drain with `queue` left and `hand` collected. */
  function Midway(st: Bronze, queue: seq<Option<Envelope>>, hand: seq<Envelope>): Bronze {
    st.(queue := queue, drain := Collecting(hand))
  }

  lemma {:induction false} TakesOneMore(st: Bronze, queue: seq<Option<Envelope>>, hand: seq<Envelope>, capacity: int)
    requires queue != [] && queue[0].Some?
    ensures var more := hand + [queue[0].value];
            && Enabled(Midway(st, queue, hand), GetMore)
            && Apply(Midway(st, queue, hand), GetMore, capacity)
               == if |more| < 10 then Midway(st, queue[1..], more)
                  else st.(queue := queue[1..], handed := st.handed + [more], drain := Writing(more))
  {
  }

  lemma {:induction false} RunOne(st: Bronze, step: Step, capacity: int)
    requires Enabled(st, step)
    ensures Run(st, [step], capacity) == Apply(st, step, capacity)
  {
    assert [step][..0] == [];
  }

  lemma {:induction false} TakesFirst(st: Bronze, capacity: int)
    requires st.drain.Waiting? && NoSentinel(st.queue, 1)
    ensures Enabled(st, GetFirst)
    ensures Apply(st, GetFirst, capacity) == Midway(st, st.queue[1..], Items(st.queue[..1]))
  {
    FirstItems(st.queue, 1);
    assert st.queue[..0] == [];
    assert Items(st.queue[..1]) == [st.queue[0].value];
  }

  lemma {:induction false} TakesNext(st: Bronze, n: nat, capacity: int)
    requires 1 < n && NoSentinel(st.queue, n)
    requires Run(st, Gets(n - 1), capacity) == Midway(st, st.queue[n - 1..], Items(st.queue[..n - 1]))
    ensures var hand := Items(st.queue[..n]);
            Run(st, Gets(n), capacity)
            == if n < 10 then Midway(st, st.queue[n..], hand)
               else st.(queue := st.queue[n..], handed := st.handed + [hand], drain := Writing(hand))
  {
    FirstItems(st.queue, n);
    RunSnoc(st, Gets(n - 1), GetMore, capacity);
    TakesOneMore(st, st.queue[n - 1..], Items(st.queue[..n - 1]), capacity);
  }

  lemma {:induction false} TakesAsLongAsTheyCome(st: Bronze, n: nat, capacity: int)
    requires st.drain.Waiting? && 1 <= n < 10 && NoSentinel(st.queue, n)
    ensures Run(st, Gets(n), capacity) == Midway(st, st.queue[n..], Items(st.queue[..n]))
  {
    if n == 1 {
      TakesFirst(st, capacity);
      RunOne(st, GetFirst, capacity);
    } else {
      TakesAsLongAsTheyCome(st, n - 1, capacity);
      TakesNext(st, n, capacity);
    }
  }

  /** Ten envelopes waiting go out in one call. */
  lemma {:induction false} TenAreOneBatch(st: Bronze, capacity: int)
    requires st.drain.Waiting? && NoSentinel(st.queue, 10)
    ensures var batch, after := Items(st.queue[..10]), Run(st, Gets(10), capacity);
            after == st.(queue := st.queue[10..], handed := st.handed + [batch], drain := Writing(batch)) && |batch| == 10
  {
    FirstItems(st.queue, 10);
    TakesAsLongAsTheyCome(st, 9, capacity);
    TakesNext(st, 10, capacity);
  }
}
