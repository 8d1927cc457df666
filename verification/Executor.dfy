/** Replay of a recording: dispatch, failure, recovery, and the event trace a client follows. */
module Executor {
  import opened Common
  import opened Actions
  import opened Envelopes
  import opened Pages
  import opened Recovery

  // ----- dispatching one action -----

  /**
   * `Unresolved`, a Playwright timeout, or any other caught error with its message. `Uncaught` is an
   * error outside the three caught classes, a cancellation for one, which aborts the run.
   */
  datatype Failure = Unresolved | PlaywrightTimeout | Other(message: string) | Uncaught(error: string)

  /**
   * The browser operations: a failure or None, and the world afterwards. `capture` takes the failure
   * artifacts; an error it does not absorb aborts the run.
   */
  datatype Driver = Driver(
    navigate: (World, string) -> (Option<Failure>, World),
    perform: (World, Action, Query) -> (Option<Failure>, World),
    capture: World -> (Option<string>, World))

  function DispatchNavigate(driver: Driver, w: World, action: Action): (Option<Failure>, World) {
    match action.payload
    case NavigatePayload(url) => driver.navigate(w, url)
    case RawPayload(rawUrl, _, _) =>
      if IsSet(rawUrl) then driver.navigate(w, rawUrl.value) else (Some(Other("action has no url")), w)
    case _ => (Some(Other("payload has no url")), w)
  }

  function DispatchLocator(driver: Driver, w: World, action: Action, query: Query): (Option<Failure>, World) {
    match action.actionType
    case Click => driver.perform(w, action, query)
    case Input => driver.perform(w, action, query)
    case KeyPress => driver.perform(w, action, query)
    case Hover => driver.perform(w, action, query)
    case Select =>
      if action.payload.SelectPayload? then driver.perform(w, action, query)
      else (Some(Other("payload has no options")), w)
    case _ => (Some(Other("action type is not supported")), w)
  }

  function Dispatch(driver: Driver, w: World, action: Action): (Option<Failure>, World) {
    if action.actionType.Navigate? then DispatchNavigate(driver, w, action)
    else if action.selector.None? then (Some(Unresolved), w)
    else match Resolve(w.page, action.selector.value)
      case None => (Some(Unresolved), w)
      case Some((query, _)) => DispatchLocator(driver, w, action, query)
  }

  predicate Mentions(message: string, part: string) {
    part <= message || (message != [] && Mentions(message[1..], part))
  }

  function ClassifyFailure(failure: Failure): FailureMode
    requires !failure.Uncaught?
  {
    match failure
    case Unresolved => ElementNotFound
    case PlaywrightTimeout => Timeout
    case Other(text) =>
      var message := Lower(text);
      if Mentions(message, "not visible") || Mentions(message, "not interactable") || Mentions(message, "is hidden")
      then ElementNotInteractable
      else if Mentions(message, "navigation") then NavigationFailed
      else UnknownFailure
  }

  // ----- one action, one run -----

  datatype Execution = Execution(
    actionId: nat, status: Status, mode: Option<FailureMode>, recovery: Option<RecoveryAction>)

  /** `strategies` is the wired engine's list, absent when no engine is configured. */
  datatype Setup = Setup(driver: Driver, strategies: Option<seq<Strategy>>, maxDepth: int)

  /** `execution` is absent when an error aborted the action, and with it the run. */
  datatype ActionOutcome = ActionOutcome(execution: Option<Execution>, world: World, events: seq<Event>)

  function AttemptRecovery(setup: Setup, action: Action, mode: FailureMode, w: World): Attempted {
    if setup.strategies.None? then Attempted(None, w, [], false)
    else RecoverGated(setup.strategies.value, action, Some(mode), w, 0, setup.maxDepth)
  }

  function FailedExecution(action: Action, mode: FailureMode, r: Attempted): Option<Execution> {
    if r.cancelled then None
    else Some(Execution(action.id, if r.result.Some? then Status.Recovered else Failed, Some(mode), r.result))
  }

  function ExecuteOne(setup: Setup, w: World, action: Action, index: nat): ActionOutcome {
    var (failure, w1) := Dispatch(setup.driver, w, action);
    var o := Concluded(setup, w1, action, index, failure);
    o.(events := [ActionStarted(index, action.id)] + o.events)
  }

  /** The rest of an action once the browser is done with it. */
  function Concluded(setup: Setup, w: World, action: Action, index: nat, failure: Option<Failure>): ActionOutcome {
    if failure.None? then
      ActionOutcome(Some(Execution(action.id, Success, None, None)), w, [ActionSucceeded(index, action.id)])
    else if failure.value.Uncaught? then ActionOutcome(None, w, [])
    else FailOne(setup, w, action, index, failure.value)
  }

  /** An action that failed with a caught error: artifacts, report, recovery. */
  function FailOne(setup: Setup, w: World, action: Action, index: nat, failure: Failure): ActionOutcome
    requires !failure.Uncaught?
  {
    var (broken, w1) := setup.driver.capture(w);
    if broken.Some? then ActionOutcome(None, w1, [])
    else
      var mode := ClassifyFailure(failure);
      var r := AttemptRecovery(setup, action, mode, w1);
      ActionOutcome(FailedExecution(action, mode, r), r.world, [ActionFailed(index, action.id, mode)] + r.events)
  }

  datatype Progress = Progress(executions: seq<Execution>, world: World, events: seq<Event>, aborted: bool)

  /** The first `n` actions, or as many as came before the one that aborted the run. */
  function ExecuteUpTo(setup: Setup, w: World, actions: seq<Action>, n: nat): (p: Progress)
    requires n <= |actions|
    ensures if p.aborted then |p.executions| < n else |p.executions| == n
  {
    if n == 0 then Progress([], w, [], false)
    else Advance(setup, ExecuteUpTo(setup, w, actions, n - 1), actions[n - 1])
  }

  function Advance(setup: Setup, p: Progress, action: Action): (q: Progress)
    ensures p.aborted ==> q == p
    ensures !p.aborted ==> |q.executions| == (if q.aborted then |p.executions| else |p.executions| + 1)
  {
    if p.aborted then p
    else
      var o := ExecuteOne(setup, p.world, action, |p.executions|);
      if o.execution.None? then Progress(p.executions, o.world, p.events + o.events, true)
      else Progress(p.executions + [o.execution.value], o.world, p.events + o.events, false)
  }

  function CountFailed(executions: seq<Execution>): nat {
    if executions == [] then 0
    else CountFailed(executions[..|executions| - 1]) + (if executions[|executions| - 1].status.Failed? then 1 else 0)
  }

  function CountSucceeded(executions: seq<Execution>): nat {
    if executions == [] then 0
    else
      var last := executions[|executions| - 1].status;
      CountSucceeded(executions[..|executions| - 1]) + (if last.Success? || last.Recovered? then 1 else 0)
  }

  function OverallStatus(executions: seq<Execution>): Status {
    if CountFailed(executions) > 0 then Failed else Success
  }

  /** The trace of a run over `n` actions; an aborted one has no end. */
  function RunTrace(n: nat, p: Progress): seq<Event> {
    [RunStarted(n)] + p.events
    + (if p.aborted then []
       else [RunFinished(OverallStatus(p.executions), CountSucceeded(p.executions), CountFailed(p.executions))])
  }

  ghost predicate SomeFailed(executions: seq<Execution>) {
    exists i :: 0 <= i < |executions| && executions[i].status.Failed?
  }

  /** The totals cover every execution, and the failures are counted exactly when there are some. */
  lemma {:induction false} TotalsAddUp(executions: seq<Execution>)
    ensures CountSucceeded(executions) + CountFailed(executions) == |executions|
    ensures CountFailed(executions) > 0 <==> SomeFailed(executions)
  {
    if executions != [] {
      var init := executions[..|executions| - 1];
      TotalsAddUp(init);
      if SomeFailed(init) {
        var i :| 0 <= i < |init| && init[i].status.Failed?;
        assert executions[i].status.Failed?;
      }
      if SomeFailed(executions) && !executions[|executions| - 1].status.Failed? {
        var i :| 0 <= i < |executions| && executions[i].status.Failed?;
        assert init[i].status.Failed?;
      }
    }
  }

  lemma {:induction false} OverallStep(executions: seq<Execution>, e: Execution)
    ensures OverallStatus(executions + [e]) == (if e.status.Failed? then Failed else OverallStatus(executions))
  {
    assert (executions + [e])[..|executions|] == executions;
  }

  lemma {:induction false} TraceParts(before: seq<Event>, started: Event, body: seq<Event>, finished: Event)
    ensures before + [started] + body + [finished] == before + ([started] + body + [finished])
  {
  }

  lemma {:induction false} AbortedParts(before: seq<Event>, started: Event, body: seq<Event>)
    ensures before + [started] + body == before + ([started] + body + [])
  {
  }

  lemma {:induction false} NothingAfterAbort(setup: Setup, p: Progress, action: Action)
    requires p.aborted
    ensures Advance(setup, p, action) == p
  {
  }

  lemma {:induction false} StaysAborted(setup: Setup, w: World, actions: seq<Action>, i: nat, n: nat)
    requires i <= n <= |actions| && ExecuteUpTo(setup, w, actions, i).aborted
    ensures ExecuteUpTo(setup, w, actions, n) == ExecuteUpTo(setup, w, actions, i)
    decreases n - i
  {
    if i < n {
      StaysAborted(setup, w, actions, i, n - 1);
      NothingAfterAbort(setup, ExecuteUpTo(setup, w, actions, n - 1), actions[n - 1]);
    }
  }

  // ----- what replaying one action means -----

  /** The URL a NAVIGATE action goes to, typed or from a plain dictionary. */
  ghost predicate Visits(action: Action, url: string) {
    && action.actionType.Navigate?
    && (action.payload == NavigatePayload(url)
        || (action.payload.RawPayload? && action.payload.rawUrl == Some(url) && url != ""))
  }

  /** The actions the browser performs on an element. */
  ghost predicate IsPerformed(action: Action) {
    || action.actionType.Click? || action.actionType.Input? || action.actionType.KeyPress? || action.actionType.Hover?
    || (action.actionType.Select? && action.payload.SelectPayload?)
  }

  /**
   * The action ended as the browser did: with success and the browser's world if it reported no failure,
   * by an abort if the failure is not one the executor catches, and else with that failure handled from there.
   */
  ghost predicate EndsAs(setup: Setup, action: Action, index: nat, failure: Option<Failure>, w1: World, o: ActionOutcome) {
    var started := ActionStarted(index, action.id);
    && (o.execution.Some? && o.execution.value.status.Success? <==> failure.None?)
    && (failure.None? ==> o == ActionOutcome(Some(Execution(action.id, Success, None, None)), w1,
                                             [started, ActionSucceeded(index, action.id)]))
    && (failure.Some? && failure.value.Uncaught? ==> o == ActionOutcome(None, w1, [started]))
    && (failure.Some? && !failure.value.Uncaught? ==>
          var f := FailOne(setup, w1, action, index, failure.value);
          o == ActionOutcome(f.execution, f.world, [started] + f.events))
  }

  /** An action on an element succeeds exactly if performing it on the selector's best match does. */
  lemma {:induction false} PerformingDecides(setup: Setup, w: World, action: Action, index: nat, q: Query)
    requires IsPerformed(action) && action.selector.Some? && IsBest(w.page, action.selector.value, q)
    ensures var (failure, w1) := setup.driver.perform(w, action, q);
            EndsAs(setup, action, index, failure, w1, ExecuteOne(setup, w, action, index))
  {
    BestIsResolved(w.page, action.selector.value, q);
  }

  lemma {:induction false} NavigatingDecides(setup: Setup, w: World, action: Action, index: nat, url: string)
    requires Visits(action, url)
    ensures var (failure, w1) := setup.driver.navigate(w, url);
            EndsAs(setup, action, index, failure, w1, ExecuteOne(setup, w, action, index))
  {
  }

  /** The browser has nothing to do: no match for the selector, no URL, or a type it does not know. */
  ghost predicate IsOutOfReach(w: World, action: Action) {
    if action.actionType.Navigate? then forall url :: !Visits(action, url)
    else IsUnmatched(w, action) || !IsPerformed(action)
  }

  ghost predicate IsUnmatched(w: World, action: Action) {
    action.selector.None? || !ResolvesUniquely(w.page, action.selector.value)
  }

  lemma {:induction false} DispatchOutOfReach(driver: Driver, w: World, action: Action)
    requires IsOutOfReach(w, action)
    ensures var (failure, w1) := Dispatch(driver, w, action);
            w1 == w && failure.Some?
            && if !action.actionType.Navigate? && IsUnmatched(w, action) then failure.value.Unresolved?
               else failure.value.Other?
  {
    if action.actionType.Navigate? {
      if action.payload.NavigatePayload? { assert Visits(action, action.payload.url); }
      if action.payload.RawPayload? && IsSet(action.payload.rawUrl) { assert Visits(action, action.payload.rawUrl.value); }
    } else if action.selector.Some? {
      ResolveIffUnique(w.page, action.selector.value);
    }
  }

  /** Such an action fails where it stands, and never succeeds. */
  lemma {:induction false} OutOfReachFails(setup: Setup, w: World, action: Action, index: nat) returns (failure: Failure)
    requires IsOutOfReach(w, action)
    ensures EndsAs(setup, action, index, Some(failure), w, ExecuteOne(setup, w, action, index))
    ensures if !action.actionType.Navigate? && IsUnmatched(w, action) then failure.Unresolved? else failure.Other?
  {
    DispatchOutOfReach(setup.driver, w, action);
    failure := Dispatch(setup.driver, w, action).0.value;
  }

  // ----- what a failure comes to -----

  ghost predicate ReadsAt(message: string, i: nat, part: string) {
    i + |part| <= |message| && forall k :: 0 <= k < |part| ==> SameLetter(message[i + k], part[k])
  }

  /** `part`, which is in lower case, occurs in the message in some case. */
  ghost predicate Tells(message: string, part: string) {
    exists i: nat :: ReadsAt(message, i, part)
  }

  ghost predicate TellsNotInteractable(message: string) {
    Tells(message, "not visible") || Tells(message, "not interactable") || Tells(message, "is hidden")
  }

  /** The mode under which a caught failure is reported. */
  ghost predicate IsMode(failure: Failure, mode: FailureMode) {
    && (mode.ElementNotFound? <==> failure.Unresolved?)
    && (mode.Timeout? <==> failure.PlaywrightTimeout?)
    && (failure.Other? ==>
          if TellsNotInteractable(failure.message) then mode.ElementNotInteractable?
          else if Tells(failure.message, "navigation") then mode.NavigationFailed?
          else mode.UnknownFailure?)
  }

  predicate IsLower(part: string) {
    forall k :: 0 <= k < |part| ==> !('A' <= part[k] <= 'Z')
  }

  lemma {:induction false} LowerLetter(s: string, i: nat, part: string)
    requires IsLower(part) && i + |part| <= |s|
    ensures part <= Lower(s)[i..] <==> ReadsAt(s, i, part)
  {
    var t := Lower(s);
    forall k | 0 <= k < |part| ensures t[i..][k] == part[k] <==> SameLetter(s[i + k], part[k]) {
      assert t[i..][k] == t[i + k];
    }
    if ReadsAt(s, i, part) {
      assert t[i..][..|part|] == part;
    }
    if part <= t[i..] {
      forall k | 0 <= k < |part| ensures SameLetter(s[i + k], part[k]) { assert t[i..][k] == part[k]; }
    }
  }

  lemma {:induction false} MentionsIsAt(message: string, part: string)
    ensures Mentions(message, part) <==> exists i: nat :: i <= |message| && part <= message[i..]
    decreases |message|
  {
    assert message[0..] == message;
    if message != [] {
      MentionsIsAt(message[1..], part);
      forall i: nat | 1 <= i <= |message| ensures message[i..] == message[1..][i - 1..] { }
      if i: nat :| i <= |message| && part <= message[i..] {
        if i > 0 { assert part <= message[1..][i - 1..]; }
      }
      if i: nat :| i <= |message| - 1 && part <= message[1..][i..] {
        assert part <= message[i + 1..];
      }
    }
  }

  lemma {:induction false} MentionsIffTells(s: string, part: string)
    requires IsLower(part)
    ensures Mentions(Lower(s), part) <==> Tells(s, part)
  {
    MentionsIsAt(Lower(s), part);
    if i: nat :| i <= |s| && part <= Lower(s)[i..] { LowerLetter(s, i, part); }
    if i: nat :| ReadsAt(s, i, part) { LowerLetter(s, i, part); }
  }

  lemma {:induction false} ModeIsToldByFailure(failure: Failure)
    requires !failure.Uncaught?
    ensures IsMode(failure, ClassifyFailure(failure))
  {
    if failure.Other? {
      MentionsIffTells(failure.message, "not visible");
      MentionsIffTells(failure.message, "not interactable");
      MentionsIffTells(failure.message, "is hidden");
      MentionsIffTells(failure.message, "navigation");
    }
  }

  /** Recovery is on: an engine is wired and at least one level of it is allowed. */
  ghost predicate HasEngine(setup: Setup, given: seq<Strategy>) {
    setup.strategies == Some(SortByTier(given)) && setup.maxDepth >= 1
  }

  /** How a caught failure ends once its artifacts are taken: as recovery ends, under the mode of the failure. */
  lemma {:induction false} FailureEndsAsRecovery(setup: Setup, given: seq<Strategy>, w: World, action: Action,
        index: nat, failure: Failure) returns (mode: FailureMode, r: Attempted)
    requires !failure.Uncaught? && HasEngine(setup, given) && setup.driver.capture(w).0.None?
    ensures IsMode(failure, mode) && IsFirstVerifiedWin(given, Case(action, mode, setup.driver.capture(w).1), r)
    ensures var status := if r.result.Some? then Status.Recovered else Failed;
            FailOne(setup, w, action, index, failure) ==
            ActionOutcome(if r.cancelled then None else Some(Execution(action.id, status, Some(mode), r.result)),
                          r.world, [ActionFailed(index, action.id, mode)] + r.events)
  {
    mode := ClassifyFailure(failure);
    ModeIsToldByFailure(failure);
    var c := Case(action, mode, setup.driver.capture(w).1);
    r := Recover(SortByTier(given), c);
    RecoversByFirstVerifiedWin(given, c);
  }

  /** Where nobody is cancelled, an action whose failure is caught ends recovered exactly if some matching strategy wins. */
  lemma {:induction false} RecoveredIffWin(setup: Setup, given: seq<Strategy>, w: World, action: Action, index: nat,
        failure: Failure, w1: World, mode: FailureMode)
    requires EndsAs(setup, action, index, Some(failure), w1, ExecuteOne(setup, w, action, index))
    requires !failure.Uncaught? && HasEngine(setup, given) && setup.driver.capture(w1).0.None? && IsMode(failure, mode)
    requires NeverCancelled(Applicable(SortByTier(given), mode), Case(action, mode, setup.driver.capture(w1).1))
    ensures var o := ExecuteOne(setup, w, action, index);
            var c := Case(action, mode, setup.driver.capture(w1).1);
            && o.execution.Some? && o.execution.value.mode == Some(mode)
            && o.execution.value.status ==
               (if HasWin(Applicable(SortByTier(given), mode), c) then Status.Recovered else Failed)
  {
    var m, r := FailureEndsAsRecovery(setup, given, w1, action, index, failure);
    assert m == mode;
  }

  /** Without recovery, or without its artifacts, a caught failure stays one. */
  lemma {:induction false} UnrecoveredFailure(setup: Setup, w: World, action: Action, index: nat, failure: Failure)
    requires !failure.Uncaught?
    ensures var (broken, w1) := setup.driver.capture(w);
            var o := FailOne(setup, w, action, index, failure);
            && (broken.Some? ==> o == ActionOutcome(None, w1, []))
            && (broken.None? && (setup.strategies.None? || setup.maxDepth <= 0) ==>
                  exists mode :: IsMode(failure, mode)
                    && o == ActionOutcome(Some(Execution(action.id, Failed, Some(mode), None)), w1,
                                          [ActionFailed(index, action.id, mode)]))
  {
    ModeIsToldByFailure(failure);
    var mode, w1 := ClassifyFailure(failure), setup.driver.capture(w).1;
    assert [ActionFailed(index, action.id, mode)] + [] == [ActionFailed(index, action.id, mode)];
  }

  // ----- the executor object -----

  class Executor {
    const driver: Driver
    const session: Session
    const emitter: Emitter
    const engine: RecoveryEngine?
    const maxDepth: int

    constructor (driver: Driver, session: Session, emitter: Emitter, engine: RecoveryEngine?, maxDepth: int)
      requires engine != null ==> engine.emitter == emitter
      ensures this.driver == driver && this.session == session && this.emitter == emitter
      ensures this.engine == engine && this.maxDepth == maxDepth && SharesEmitter()
    {
      this.driver, this.session, this.emitter, this.engine, this.maxDepth := driver, session, emitter, engine, maxDepth;
    }

    /** Engine and executor report to one emitter, as the replay handler wires them. */
    predicate SharesEmitter() {
      engine != null ==> engine.emitter == emitter
    }

    function SetupOf(): Setup {
      Setup(driver, if engine == null then None else Some(engine.strategies), maxDepth)
    }

    /** None stands for an error of the capture, or the cancellation of a recovery, raised to the caller. */
    method RecordFailure(action: Action, failure: Failure, index: nat) returns (execution: Option<Execution>)
      requires SharesEmitter() && !failure.Uncaught?
      modifies session, emitter
      ensures var o := FailOne(SetupOf(), old(session.world), action, index, failure);
              execution == o.execution && session.world == o.world && emitter.trace == old(emitter.trace) + o.events
    {
      var (broken, world) := driver.capture(session.world);
      session.world := world;
      if broken.Some? {
        return None;
      }
      var mode := ClassifyFailure(failure);
      emitter.Emit(ActionFailed(index, action.id, mode));
      var recovery, cancelled := None, false;
      if engine != null {
        recovery, cancelled := engine.Attempt(action, Some(mode), session, maxDepth, 0);
      }
      if cancelled {
        return None;
      }
      var status := if recovery.Some? then Status.Recovered else Failed;
      return Some(Execution(action.id, status, Some(mode), recovery));
    }

    /** What is left once the browser is done with the action. */
    method Conclude(action: Action, failure: Option<Failure>, index: nat) returns (execution: Option<Execution>)
      requires SharesEmitter()
      modifies session, emitter
      ensures var o := Concluded(SetupOf(), old(session.world), action, index, failure);
              execution == o.execution && session.world == o.world && emitter.trace == old(emitter.trace) + o.events
    {
      if failure.Some? {
        if failure.value.Uncaught? {
          return None;
        }
        execution := RecordFailure(action, failure.value, index);
        return;
      }
      emitter.Emit(ActionSucceeded(index, action.id));
      return Some(Execution(action.id, Success, None, None));
    }

    method ExecuteAction(action: Action, index: nat) returns (execution: Option<Execution>)
      requires SharesEmitter()
      modifies session, emitter
      ensures var o := ExecuteOne(SetupOf(), old(session.world), action, index);
              execution == o.execution && session.world == o.world && emitter.trace == old(emitter.trace) + o.events
    {
      emitter.Emit(ActionStarted(index, action.id));
      var (failure, world) := Dispatch(driver, session.world, action);
      session.world := world;
      ghost var o := Concluded(SetupOf(), world, action, index, failure);
      execution := Conclude(action, failure, index);
      Associates(old(emitter.trace), [ActionStarted(index, action.id)], o.events);
    }

    /**
     * Every action in order, whatever became of the earlier ones, unless an error aborts the run: then
     * it is raised, there is no status, and no end is reported.
     */
    method Run(actions: seq<Action>) returns (status: Option<Status>, executions: seq<Execution>)
      requires SharesEmitter()
      modifies session, emitter
      ensures var p := ExecuteUpTo(SetupOf(), old(session.world), actions, |actions|);
              && executions == p.executions && session.world == p.world
              && status == (if p.aborted then None else Some(OverallStatus(p.executions)))
              && emitter.trace == old(emitter.trace) + RunTrace(|actions|, p)
    {
      executions := [];
      var overall := Success;
      emitter.Emit(RunStarted(|actions|));
      ghost var setup, w, base := SetupOf(), old(session.world), emitter.trace;
      ghost var p := Progress([], w, [], false);
      for index := 0 to |actions|
        invariant p == ExecuteUpTo(setup, w, actions, index) && !p.aborted
        invariant executions == p.executions && session.world == p.world
        invariant emitter.trace == base + p.events
        invariant overall == OverallStatus(executions)
      {
        ghost var o := ExecuteOne(setup, p.world, actions[index], index);
        var execution := ExecuteAction(actions[index], index);
        Associates(base, p.events, o.events);
        p := Advance(setup, p, actions[index]);
        if execution.None? {
          StaysAborted(setup, w, actions, index + 1, |actions|);
          AbortedParts(old(emitter.trace), RunStarted(|actions|), p.events);
          return None, executions;
        }
        OverallStep(executions, execution.value);
        executions := executions + [execution.value];
        if execution.value.status.Failed? {
          overall := Failed;
        }
      }
      ghost var finished := RunFinished(overall, CountSucceeded(executions), CountFailed(executions));
      TraceParts(old(emitter.trace), RunStarted(|actions|), p.events, finished);
      emitter.Emit(RunFinished(overall, CountSucceeded(executions), CountFailed(executions)));
      return Some(overall), executions;
    }
  }
}
