/** The recovery engine: strategies in cost order, each claimed win verified on the page it left behind. */
module Recovery {
  import opened Common
  import opened Actions
  import opened Pages

  datatype FailureMode =
    | ElementNotFound | ElementNotInteractable | UnexpectedModal | NavigationFailed
    | ValidationError | Timeout | NetworkError | UnknownFailure

  datatype Status = Success | Failed | Recovered

  datatype Event =
    | RunStarted(nActions: nat)
    | ActionStarted(index: nat, id: nat)
    | ActionSucceeded(index: nat, id: nat)
    | ActionFailed(index: nat, id: nat, mode: FailureMode)
    | RecoveryStarted(strategy: string)
    | RecoveryFailed(strategy: string)
    | RecoverySucceeded(strategy: string)
    | RunFinished(status: Status, nSucceeded: nat, nFailed: nat)

  datatype Decision = Decision(applicable: bool, succeeded: bool, newSelector: Option<Selector>, rationale: string)

  /** `Cancelled` is the task's own cancellation, the one error an attempt does not absorb. */
  datatype Outcome = Decided(decision: Decision) | TimedOut | Raised(error: string) | Cancelled

  /** `attempt` is any behaviour at all: what it answers and the world it leaves, from the world it finds. */
  datatype Strategy = Strategy(
    name: string, modes: set<FailureMode>, costTier: int,
    attempt: (World, Action, FailureMode) -> (Outcome, World))

  datatype RecoveryAction = RecoveryAction(strategy: string, rationale: string, newSelector: Option<Selector>)

  // ----- the stable sort of the constructor -----

  function InsertByTier(sorted: seq<Strategy>, s: Strategy): seq<Strategy> {
    if sorted == [] then [s]
    else if sorted[|sorted| - 1].costTier <= s.costTier then sorted + [s]
    else InsertByTier(sorted[..|sorted| - 1], s) + [sorted[|sorted| - 1]]
  }

  function SortByTier(strategies: seq<Strategy>): seq<Strategy> {
    if strategies == [] then []
    else InsertByTier(SortByTier(strategies[..|strategies| - 1]), strategies[|strategies| - 1])
  }

  function OfTier(strategies: seq<Strategy>, tier: int): seq<Strategy> {
    if strategies == [] then []
    else OfTier(strategies[..|strategies| - 1], tier)
         + (if strategies[|strategies| - 1].costTier == tier then [strategies[|strategies| - 1]] else [])
  }

  ghost predicate IsSorted(strategies: seq<Strategy>) {
    forall i, j :: 0 <= i < j < |strategies| ==> strategies[i].costTier <= strategies[j].costTier
  }

  lemma {:induction false} InsertKeepsSorted(sorted: seq<Strategy>, s: Strategy)
    requires IsSorted(sorted)
    ensures IsSorted(InsertByTier(sorted, s))
    ensures forall x :: x in InsertByTier(sorted, s) ==> x in sorted || x == s
  {
    if sorted != [] && sorted[|sorted| - 1].costTier > s.costTier {
      var init, last := sorted[..|sorted| - 1], sorted[|sorted| - 1];
      InsertKeepsSorted(init, s);
      var inserted := InsertByTier(init, s);
      forall i | 0 <= i < |inserted| ensures inserted[i].costTier <= last.costTier {
        assert inserted[i] in init || inserted[i] == s;
      }
    }
  }

  lemma {:induction false} OfTierSnoc(a: seq<Strategy>, x: Strategy, tier: int)
    ensures OfTier(a + [x], tier) == OfTier(a, tier) + (if x.costTier == tier then [x] else [])
  {
    assert (a + [x])[..|a|] == a;
  }

  lemma {:induction false} InsertIsStable(sorted: seq<Strategy>, s: Strategy, tier: int)
    requires IsSorted(sorted)
    ensures OfTier(InsertByTier(sorted, s), tier) == OfTier(sorted, tier) + (if s.costTier == tier then [s] else [])
  {
    if sorted == [] || sorted[|sorted| - 1].costTier <= s.costTier {
      OfTierSnoc(sorted, s, tier);
      if sorted == [] { assert [s][..0] == []; }
    } else {
      var init, last := sorted[..|sorted| - 1], sorted[|sorted| - 1];
      InsertIsStable(init, s, tier);
      OfTierSnoc(InsertByTier(init, s), last, tier);
      var l, t := if last.costTier == tier then [last] else [], if s.costTier == tier then [s] else [];
      OneIsEmpty(OfTier(init, tier), l, t);
    }
  }

  lemma {:induction false} OneIsEmpty<T>(x: seq<T>, l: seq<T>, t: seq<T>)
    requires l == [] || t == []
    ensures (x + t) + l == (x + l) + t
  {
  }

  /** The sort is by tier, and strategies of one tier stay in the order they were given. */
  lemma {:induction false} SortIsStable(strategies: seq<Strategy>, tier: int)
    ensures IsSorted(SortByTier(strategies))
    ensures OfTier(SortByTier(strategies), tier) == OfTier(strategies, tier)
  {
    if strategies != [] {
      var sorted := SortByTier(strategies[..|strategies| - 1]);
      SortIsStable(strategies[..|strategies| - 1], tier);
      InsertKeepsSorted(sorted, strategies[|strategies| - 1]);
      InsertIsStable(sorted, strategies[|strategies| - 1], tier);
    }
  }

  // ----- one attempt, declaratively -----

  function Applicable(strategies: seq<Strategy>, mode: FailureMode): seq<Strategy> {
    if strategies == [] then []
    else Applicable(strategies[..|strategies| - 1], mode)
         + (if mode in strategies[|strategies| - 1].modes then [strategies[|strategies| - 1]] else [])
  }

  /** The failed action, why it failed, and the world the engine found. */
  datatype Case = Case(action: Action, mode: FailureMode, world: World)

  /** The world after the first `n` strategies have each been tried once. */
  function WorldAfter(app: seq<Strategy>, n: nat, c: Case): World
    requires n <= |app|
  {
    if n == 0 then c.world else app[n - 1].attempt(WorldAfter(app, n - 1, c), c.action, c.mode).1
  }

  function OutcomeOf(app: seq<Strategy>, i: nat, c: Case): Outcome
    requires i < |app|
  {
    app[i].attempt(WorldAfter(app, i, c), c.action, c.mode).0
  }

  predicate Verified(page: Page, selector: Option<Selector>) {
    selector.None? || Resolve(page, selector.value).Some?
  }

  /** The selector a claimed win is checked against: the strategy's new one, else the action's own. */
  function VerifierSelector(d: Decision, action: Action): Option<Selector> {
    if d.newSelector.Some? then d.newSelector else action.selector
  }

  /** Strategy `i` claims to have fixed the page and the claim holds on the page it left. */
  predicate Wins(app: seq<Strategy>, i: nat, c: Case)
    requires i < |app|
  {
    var o := OutcomeOf(app, i, c);
    && o.Decided? && o.decision.applicable && o.decision.succeeded
    && Verified(WorldAfter(app, i + 1, c).page, VerifierSelector(o.decision, c.action))
  }

  predicate IsCancelled(app: seq<Strategy>, i: nat, c: Case)
    requires i < |app|
  {
    OutcomeOf(app, i, c).Cancelled?
  }

  /** Strategy `i` is the last one tried. */
  predicate Ends(app: seq<Strategy>, i: nat, c: Case)
    requires i < |app|
  {
    Wins(app, i, c) || IsCancelled(app, i, c)
  }

  /** How a strategy's turn shows in the trace; one that declines, or is cancelled, stays silent after its start. */
  datatype Turn = Won(name: string) | Lost(name: string) | Silent(name: string)

  function TurnOf(app: seq<Strategy>, i: nat, c: Case): Turn
    requires i < |app|
  {
    var o, name := OutcomeOf(app, i, c), app[i].name;
    if Wins(app, i, c) then Won(name)
    else if o.Cancelled? || (o.Decided? && !o.decision.applicable) then Silent(name)
    else Lost(name)
  }

  function EventsOf(turn: Turn): seq<Event> {
    match turn
    case Won(name) => [RecoveryStarted(name), RecoverySucceeded(name)]
    case Lost(name) => [RecoveryStarted(name), RecoveryFailed(name)]
    case Silent(name) => [RecoveryStarted(name)]
  }

  function Fired(app: seq<Strategy>, i: nat, c: Case): seq<Event>
    requires i < |app|
  {
    EventsOf(TurnOf(app, i, c))
  }

  function FiredUpTo(app: seq<Strategy>, n: nat, c: Case): seq<Event>
    requires n <= |app|
  {
    if n == 0 then [] else FiredUpTo(app, n - 1, c) + Fired(app, n - 1, c)
  }

  /**
   * Strategy `i` decided that it applied and succeeded, and on the page it left the selector it named, or
   * else the action's own, matches exactly one element by one of its strategies; with neither, its word is taken.
   */
  ghost predicate IsVerifiedWin(app: seq<Strategy>, i: nat, c: Case)
    requires i < |app|
  {
    var o, page := OutcomeOf(app, i, c), WorldAfter(app, i + 1, c).page;
    && o.Decided? && o.decision.applicable && o.decision.succeeded
    && (o.decision.newSelector.Some? ==> ResolvesUniquely(page, o.decision.newSelector.value))
    && (o.decision.newSelector.None? && c.action.selector.Some? ==> ResolvesUniquely(page, c.action.selector.value))
  }

  lemma {:induction false} WinsIff(app: seq<Strategy>, i: nat, c: Case)
    requires i < |app|
    ensures Wins(app, i, c) <==> IsVerifiedWin(app, i, c)
  {
    var o, page := OutcomeOf(app, i, c), WorldAfter(app, i + 1, c).page;
    if o.Decided? {
      if o.decision.newSelector.Some? { ResolveIffUnique(page, o.decision.newSelector.value); }
      if c.action.selector.Some? { ResolveIffUnique(page, c.action.selector.value); }
    }
  }

  /** A turn starts the strategy, and then tells a win from a failure; who declined or was cancelled says nothing. */
  lemma {:induction false} TurnShowsOutcome(app: seq<Strategy>, i: nat, c: Case)
    requires i < |app|
    ensures var events, o, name := Fired(app, i, c), OutcomeOf(app, i, c), app[i].name;
            && events[..1] == [RecoveryStarted(name)] && |events| <= 2
            && (IsVerifiedWin(app, i, c) <==> events[1..] == [RecoverySucceeded(name)])
            && (events[1..] == [RecoveryFailed(name)] <==>
                  (o.TimedOut? || o.Raised? || (o.Decided? && o.decision.applicable && !IsVerifiedWin(app, i, c))))
  {
    WinsIff(app, i, c);
  }

  ghost predicate HasWin(app: seq<Strategy>, c: Case) {
    exists j :: 0 <= j < |app| && IsVerifiedWin(app, j, c)
  }

  ghost predicate NeverCancelled(app: seq<Strategy>, c: Case) {
    forall j :: 0 <= j < |app| ==> !IsCancelled(app, j, c)
  }

  /** The index of the first strategy from `i` on that ends the attempt, or the number of strategies. */
  function FirstEnd(app: seq<Strategy>, i: nat, c: Case): (k: nat)
    requires i <= |app|
    ensures i <= k <= |app|
    ensures k < |app| ==> Ends(app, k, c)
    ensures forall j :: i <= j < k ==> !Ends(app, j, c)
    decreases |app| - i
  {
    if i == |app| || Ends(app, i, c) then i else FirstEnd(app, i + 1, c)
  }

  /** `cancelled` stands for the cancellation raised to the caller instead of a result. */
  datatype Attempted = Attempted(result: Option<RecoveryAction>, world: World, events: seq<Event>, cancelled: bool)

  /** What one call does: try up to and including the first verified win, or a cancellation. */
  function Recover(strategies: seq<Strategy>, c: Case): Attempted {
    var app := Applicable(strategies, c.mode);
    var k := FirstEnd(app, 0, c);
    if k == |app| then Attempted(None, WorldAfter(app, k, c), FiredUpTo(app, k, c), false)
    else if !Wins(app, k, c) then Attempted(None, WorldAfter(app, k + 1, c), FiredUpTo(app, k + 1, c), true)
    else
      var d := OutcomeOf(app, k, c).decision;
      Attempted(Some(RecoveryAction(app[k].name, d.rationale, d.newSelector)),
                WorldAfter(app, k + 1, c), FiredUpTo(app, k + 1, c), false)
  }

  /** A call past the depth limit, or for a failure without a mode, does nothing. */
  function RecoverGated(strategies: seq<Strategy>, action: Action, mode: Option<FailureMode>, world: World,
                        depth: int, maxDepth: int): Attempted
  {
    if depth >= maxDepth || mode.None? then Attempted(None, world, [], false)
    else Recover(strategies, Case(action, mode.value, world))
  }

  lemma {:induction false} ApplicableSnoc(a: seq<Strategy>, x: Strategy, mode: FailureMode)
    ensures Applicable(a + [x], mode) == Applicable(a, mode) + (if mode in x.modes then [x] else [])
  {
    assert (a + [x])[..|a|] == a;
  }

  /** Filtering by failure mode and filtering by tier commute. */
  lemma {:induction false} ApplicableKeepsTiers(strategies: seq<Strategy>, mode: FailureMode, tier: int)
    ensures OfTier(Applicable(strategies, mode), tier) == Applicable(OfTier(strategies, tier), mode)
  {
    if strategies != [] {
      var init, last := strategies[..|strategies| - 1], strategies[|strategies| - 1];
      ApplicableKeepsTiers(init, mode, tier);
      var app, same := Applicable(init, mode), OfTier(init, tier);
      assert app + [] == app && same + [] == same;
      assert OfTier(app, tier) + [] == OfTier(app, tier);
      if mode in last.modes { OfTierSnoc(app, last, tier); }
      if last.costTier == tier { ApplicableSnoc(same, last, mode); }
    }
  }

  lemma {:induction false} ApplicableIsSorted(strategies: seq<Strategy>, mode: FailureMode)
    requires IsSorted(strategies)
    ensures var app := Applicable(strategies, mode);
            IsSorted(app) && (forall s :: s in app <==> s in strategies && mode in s.modes)
  {
    if strategies != [] {
      var init, last := strategies[..|strategies| - 1], strategies[|strategies| - 1];
      ApplicableIsSorted(init, mode);
      assert strategies == init + [last];
      var app := Applicable(init, mode);
      forall i | 0 <= i < |app| ensures app[i].costTier <= last.costTier {
        assert app[i] in init;
      }
    }
  }

  /**
   * Of strategies sorted by tier exactly the matching ones are tried, by tier, and within a tier in
   * the order they had.
   */
  lemma {:induction false} ApplicableLaw(strategies: seq<Strategy>, mode: FailureMode, tier: int)
    requires IsSorted(strategies)
    ensures var app := Applicable(strategies, mode);
            && IsSorted(app) && OfTier(app, tier) == Applicable(OfTier(strategies, tier), mode)
            && (forall s :: s in app <==> s in strategies && mode in s.modes)
  {
    ApplicableIsSorted(strategies, mode);
    ApplicableKeepsTiers(strategies, mode, tier);
  }

  /** The order in which an engine built with `given` tries strategies: by tier, then as given. */
  ghost predicate InStableCostOrder(app: seq<Strategy>, given: seq<Strategy>, mode: FailureMode) {
    IsSorted(app) && forall tier: int :: OfTier(app, tier) == Applicable(OfTier(given, tier), mode)
  }

  lemma {:induction false} TriedInStableCostOrder(given: seq<Strategy>, mode: FailureMode)
    ensures InStableCostOrder(Applicable(SortByTier(given), mode), given, mode)
  {
    SortIsStable(given, 0);
    ApplicableIsSorted(SortByTier(given), mode);
    forall tier: int
      ensures OfTier(Applicable(SortByTier(given), mode), tier) == Applicable(OfTier(given, tier), mode)
    {
      SortIsStable(given, tier);
      ApplicableKeepsTiers(SortByTier(given), mode, tier);
    }
  }

  /**
   * What an engine built with `given` does: its result is the first verified win among the matching
   * strategies in stable cost order, with that strategy's selector, page and events. Without a
   * cancellation there is no result exactly when there is no such win, and then every matching strategy
   * had its turn; a cancellation ends the attempt at the strategy it hits.
   */
  ghost predicate IsFirstVerifiedWin(given: seq<Strategy>, c: Case, r: Attempted) {
    var app := Applicable(SortByTier(given), c.mode);
    && InStableCostOrder(app, given, c.mode)
    && (NeverCancelled(app, c) ==> !r.cancelled && (r.result.Some? <==> HasWin(app, c)))
    && (r.result.None? && !r.cancelled ==>
          !HasWin(app, c) && r.world == WorldAfter(app, |app|, c) && r.events == FiredUpTo(app, |app|, c))
    && (r.result.Some? || r.cancelled ==> exists k: nat :: IsFirstEnd(app, k, c, r))
  }

  /** Strategy `k` ended the attempt: by its win, or by a cancellation without a result. */
  ghost predicate IsFirstEnd(app: seq<Strategy>, k: nat, c: Case, r: Attempted) {
    && k < |app| && (forall j :: 0 <= j < k ==> !IsVerifiedWin(app, j, c) && !IsCancelled(app, j, c))
    && r.world == WorldAfter(app, k + 1, c) && r.events == FiredUpTo(app, k + 1, c)
    && r.cancelled == IsCancelled(app, k, c)
    && if r.cancelled then r.result.None?
       else
         && IsVerifiedWin(app, k, c)
         && var d := OutcomeOf(app, k, c).decision;
            r.result == Some(RecoveryAction(app[k].name, d.rationale, d.newSelector))
  }

  lemma {:induction false} RecoversByFirstVerifiedWin(given: seq<Strategy>, c: Case)
    ensures IsFirstVerifiedWin(given, c, Recover(SortByTier(given), c))
  {
    var app := Applicable(SortByTier(given), c.mode);
    TriedInStableCostOrder(given, c.mode);
    EndDecides(app, c);
    var r := Recover(SortByTier(given), c);
    if r.result.Some? || r.cancelled { var k := ResultIsFirstEnd(SortByTier(given), c); }
  }

  /** Reaching the end of the list means nobody won; without cancellations, stopping earlier means a win. */
  lemma {:induction false} EndDecides(app: seq<Strategy>, c: Case)
    ensures var k := FirstEnd(app, 0, c);
            && (k == |app| ==> !HasWin(app, c))
            && (k < |app| && Wins(app, k, c) ==> HasWin(app, c))
            && (k < |app| && NeverCancelled(app, c) ==> Wins(app, k, c))
  {
    var k := FirstEnd(app, 0, c);
    if k == |app| {
      forall j | 0 <= j < |app| ensures !IsVerifiedWin(app, j, c) {
        WinsIff(app, j, c);
        assert !Ends(app, j, c);
      }
    } else {
      WinsIff(app, k, c);
    }
  }

  lemma {:induction false} ResultIsFirstEnd(strategies: seq<Strategy>, c: Case) returns (k: nat)
    requires Recover(strategies, c).result.Some? || Recover(strategies, c).cancelled
    ensures IsFirstEnd(Applicable(strategies, c.mode), k, c, Recover(strategies, c))
  {
    var app := Applicable(strategies, c.mode);
    k := FirstEnd(app, 0, c);
    WinsIff(app, k, c);
    forall j | 0 <= j < k ensures !IsVerifiedWin(app, j, c) && !IsCancelled(app, j, c) {
      WinsIff(app, j, c);
      assert !Ends(app, j, c);
    }
  }

  // ----- the engine object -----

  /** The sink shared by engine and executor. */
  class Emitter {
    var trace: seq<Event>

    constructor ()
      ensures trace == []
    {
      trace := [];
    }

    method Emit(e: Event)
      modifies this
      ensures trace == old(trace) + [e]
    {
      trace := trace + [e];
    }
  }

  /** The live page. */
  class Session {
    var world: World

    constructor (world: World)
      ensures this.world == world
    {
      this.world := world;
    }
  }

  class RecoveryEngine {
    const strategies: seq<Strategy>
    const emitter: Emitter

    constructor (strategies: seq<Strategy>, emitter: Emitter)
      ensures this.strategies == SortByTier(strategies) && this.emitter == emitter
    {
      this.strategies := SortByTier(strategies);
      this.emitter := emitter;
    }

    /** One strategy's turn: attempt, then verify a claimed win. True means the cancellation goes on to the caller. */
    method Try(app: seq<Strategy>, i: nat, session: Session, ghost c: Case, action: Action, mode: FailureMode)
      returns (won: Option<RecoveryAction>, cancelled: bool)
      requires i < |app| && session.world == WorldAfter(app, i, c) && c.action == action && c.mode == mode
      modifies session, emitter
      ensures session.world == WorldAfter(app, i + 1, c)
      ensures emitter.trace == old(emitter.trace) + Fired(app, i, c)
      ensures cancelled <==> IsCancelled(app, i, c)
      ensures won.Some? <==> Wins(app, i, c)
      ensures won.Some? ==> var d := OutcomeOf(app, i, c).decision;
                            won.value == RecoveryAction(app[i].name, d.rationale, d.newSelector)
    {
      var strategy := app[i];
      emitter.Emit(RecoveryStarted(strategy.name));
      var (outcome, world) := strategy.attempt(session.world, action, mode);
      session.world := world;
      if outcome.Cancelled? {
        return None, true;
      }
      if !outcome.Decided? {
        emitter.Emit(RecoveryFailed(strategy.name));
        return None, false;
      }
      var decision := outcome.decision;
      if !decision.applicable {
        return None, false;
      }
      if !decision.succeeded {
        emitter.Emit(RecoveryFailed(strategy.name));
        return None, false;
      }
      var selector := VerifierSelector(decision, action);
      if selector.Some? {
        var resolved := ResolveSelector(session.world.page, selector.value);
        if resolved.None? {
          emitter.Emit(RecoveryFailed(strategy.name));
          return None, false;
        }
      }
      emitter.Emit(RecoverySucceeded(strategy.name));
      return Some(RecoveryAction(strategy.name, decision.rationale, decision.newSelector)), false;
    }

    method Attempt(action: Action, mode: Option<FailureMode>, session: Session, maxDepth: int, depth: int)
      returns (result: Option<RecoveryAction>, cancelled: bool)
      modifies session, emitter
      ensures var r := RecoverGated(strategies, action, mode, old(session.world), depth, maxDepth);
              && result == r.result && cancelled == r.cancelled && session.world == r.world
              && emitter.trace == old(emitter.trace) + r.events
      ensures depth >= maxDepth || mode.None? ==>
                result.None? && !cancelled && session.world == old(session.world) && emitter.trace == old(emitter.trace)
      ensures old(emitter.trace) <= emitter.trace
      ensures depth < maxDepth && mode.Some? ==> forall given :: strategies == SortByTier(given) ==>
                var r := Attempted(result, session.world, emitter.trace[|old(emitter.trace)|..], cancelled);
                IsFirstVerifiedWin(given, Case(action, mode.value, old(session.world)), r)
    {
      if depth >= maxDepth || mode.None? {
        return None, false;
      }
      forall given | strategies == SortByTier(given)
        ensures IsFirstVerifiedWin(given, Case(action, mode.value, session.world),
                                   RecoverGated(strategies, action, mode, session.world, depth, maxDepth))
      {
        RecoversByFirstVerifiedWin(given, Case(action, mode.value, session.world));
      }
      ghost var c := Case(action, mode.value, session.world);
      var app := Applicable(strategies, mode.value);
      for i := 0 to |app|
        invariant session.world == WorldAfter(app, i, c)
        invariant emitter.trace == old(emitter.trace) + FiredUpTo(app, i, c)
        invariant FirstEnd(app, i, c) == FirstEnd(app, 0, c)
      {
        Associates(old(emitter.trace), FiredUpTo(app, i, c), Fired(app, i, c));
        result, cancelled := Try(app, i, session, c, action, mode.value);
        if result.Some? || cancelled {
          return;
        }
      }
      return None, false;
    }
  }
}
