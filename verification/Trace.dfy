/** What a client of the event stream can conclude: the trace alone tells how every action ended. */
module Trace {
  import opened Common
  import opened Actions
  import opened Pages
  import opened Recovery
  import opened Executor

  /**
   * A reader of the stream. `done` is how each finished action ended; a failed action stays open
   * until its next event shows whether it was recovered; `trying` is the strategy under way.
   */
  datatype Reader =
    | Idle
    | Between(n: nat, done: seq<Status>)
    | Acting(n: nat, done: seq<Status>)
    | Recovering(n: nat, done: seq<Status>, trying: Option<string>)
    | Over(done: seq<Status>)
    | Confused

  function Settle(r: Reader): Reader {
    if r.Recovering? then Between(r.n, r.done + [Failed]) else r
  }

  function FailedIn(done: seq<Status>): nat {
    if done == [] then 0 else FailedIn(done[..|done| - 1]) + (if done[|done| - 1].Failed? then 1 else 0)
  }

  /** The grammar: anything out of place, any wrong index or total, confuses the reader for good. */
  function Observe(r: Reader, e: Event): Reader {
    match e
    case RunStarted(n) => if r.Idle? then Between(n, []) else Confused
    case ActionStarted(i, _) =>
      var s := Settle(r);
      if s.Between? && i == |s.done| < s.n then Acting(s.n, s.done) else Confused
    case ActionSucceeded(i, _) =>
      if r.Acting? && i == |r.done| then Between(r.n, r.done + [Success]) else Confused
    case ActionFailed(i, _, _) =>
      if r.Acting? && i == |r.done| then Recovering(r.n, r.done, None) else Confused
    case RecoveryStarted(name) => if r.Recovering? then r.(trying := Some(name)) else Confused
    case RecoveryFailed(name) =>
      if r.Recovering? && r.trying == Some(name) then r.(trying := None) else Confused
    case RecoverySucceeded(name) =>
      if r.Recovering? && r.trying == Some(name) then Between(r.n, r.done + [Status.Recovered]) else Confused
    case RunFinished(status, ok, failed) =>
      var s := Settle(r);
      if s.Between? && |s.done| == s.n && failed == FailedIn(s.done) && ok + failed == s.n
         && status == (if failed > 0 then Failed else Success)
      then Over(s.done) else Confused
  }

  function Read(r: Reader, trace: seq<Event>): Reader {
    if trace == [] then r else Observe(Read(r, trace[..|trace| - 1]), trace[|trace| - 1])
  }

  lemma {:induction false} ReadConcat(r: Reader, a: seq<Event>, b: seq<Event>)
    ensures Read(r, a + b) == Read(Read(r, a), b)
  {
    if b == [] {
      assert a + b == a;
    } else {
      assert (a + b)[..|a + b| - 1] == a + b[..|b| - 1];
      ReadConcat(r, a, b[..|b| - 1]);
    }
  }

  lemma {:induction false} ReadOne(r: Reader, e: Event)
    ensures Read(r, [e]) == Observe(r, e)
  {
    assert [e][..0] == [];
  }

  lemma {:induction false} ReadTwo(r: Reader, e: Event, f: Event)
    ensures Read(r, [e, f]) == Observe(Observe(r, e), f)
  {
    assert [e, f][..1] == [e];
    ReadOne(r, e);
  }

  predicate StaysOpen(r: Reader, after: Reader)
    requires r.Recovering?
  {
    after.Recovering? && after.n == r.n && after.done == r.done
  }

  /** One strategy's turn, read while its action is still open. */
  lemma {:induction false} ReadTurn(r: Reader, turn: Turn)
    requires r.Recovering?
    ensures var after := Read(r, EventsOf(turn));
            if turn.Won? then after == Between(r.n, r.done + [Status.Recovered]) else StaysOpen(r, after)
  {
    var events, started := EventsOf(turn), RecoveryStarted(turn.name);
    if turn.Silent? {
      ReadOne(r, started);
    } else {
      ReadTwo(r, started, events[1]);
    }
  }

  function EventsOfAll(turns: seq<Turn>): seq<Event> {
    if turns == [] then [] else EventsOfAll(turns[..|turns| - 1]) + EventsOf(turns[|turns| - 1])
  }

  ghost predicate NobodyWins(turns: seq<Turn>) {
    forall i :: 0 <= i < |turns| ==> !turns[i].Won?
  }

  /** As long as no strategy has won, the action stays open. */
  lemma {:induction false} ReadLosers(r: Reader, turns: seq<Turn>)
    requires r.Recovering? && NobodyWins(turns)
    ensures StaysOpen(r, Read(r, EventsOfAll(turns)))
  {
    if turns != [] {
      var init, last := turns[..|turns| - 1], turns[|turns| - 1];
      ReadLosers(r, init);
      ReadConcat(r, EventsOfAll(init), EventsOf(last));
      ReadTurn(Read(r, EventsOfAll(init)), last);
    }
  }

  /** The turns of the first `n` strategies, when none of them wins. */
  lemma {:induction false} LosersTurns(app: seq<Strategy>, n: nat, c: Case) returns (turns: seq<Turn>)
    requires n <= |app| && forall j :: 0 <= j < n ==> !Wins(app, j, c)
    ensures NobodyWins(turns) && EventsOfAll(turns) == FiredUpTo(app, n, c)
  {
    turns := [];
    if n > 0 {
      var init := LosersTurns(app, n - 1, c);
      OneMoreLoser(init, TurnOf(app, n - 1, c));
      turns := init + [TurnOf(app, n - 1, c)];
    }
  }

  lemma {:induction false} OneMoreLoser(turns: seq<Turn>, turn: Turn)
    requires NobodyWins(turns) && !turn.Won?
    ensures NobodyWins(turns + [turn]) && EventsOfAll(turns + [turn]) == EventsOfAll(turns) + EventsOf(turn)
  {
    assert (turns + [turn])[..|turns|] == turns;
  }

  lemma {:induction false} ReadRecover(r: Reader, strategies: seq<Strategy>, c: Case)
    requires r.Recovering?
    ensures var a := Recover(strategies, c);
            var after := Read(r, a.events);
            if a.result.Some? then after == Between(r.n, r.done + [Status.Recovered]) else StaysOpen(r, after)
    ensures Recover(strategies, c).cancelled ==> Recover(strategies, c).result.None?
  {
    var app := Applicable(strategies, c.mode);
    var k := FirstEnd(app, 0, c);
    forall j | 0 <= j < k ensures !Wins(app, j, c) { assert !Ends(app, j, c); }
    var turns := LosersTurns(app, k, c);
    ReadLosers(r, turns);
    if k < |app| {
      ReadConcat(r, FiredUpTo(app, k, c), Fired(app, k, c));
      ReadTurn(Read(r, FiredUpTo(app, k, c)), TurnOf(app, k, c));
    }
  }

  /** The recovery part of a failed action, whatever the engine's configuration; a cancelled one leaves it open. */
  lemma {:induction false} ReadAttempt(r: Reader, setup: Setup, action: Action, mode: FailureMode, w: World)
    requires r.Recovering?
    ensures var a := AttemptRecovery(setup, action, mode, w);
            var after := Read(r, a.events);
            if a.cancelled then IsOpen(after, r.n, r.done)
            else Settle(after) == Between(r.n, r.done + [if a.result.Some? then Status.Recovered else Failed])
  {
    if setup.strategies.Some? && 0 < setup.maxDepth {
      ReadRecover(r, setup.strategies.value, Case(action, mode, w));
    }
  }

  /** The reader is in the middle of the action after `done`. */
  predicate IsOpen(r: Reader, n: nat, done: seq<Status>) {
    (r.Acting? || r.Recovering?) && r.n == n && r.done == done
  }

  /** The rest of an action that failed with a caught error. */
  lemma {:induction false} ReadFailure(r: Reader, setup: Setup, w: World, action: Action, index: nat, failure: Failure)
    requires !failure.Uncaught? && r.Acting? && index == |r.done| < r.n
    ensures var o := FailOne(setup, w, action, index, failure);
            var after := Read(r, o.events);
            if o.execution.None? then IsOpen(after, r.n, r.done)
            else Settle(after) == Between(r.n, r.done + [o.execution.value.status])
  {
    var (broken, w1) := setup.driver.capture(w);
    if broken.None? {
      var mode := ClassifyFailure(failure);
      var failed := ActionFailed(index, action.id, mode);
      ReadOne(r, failed);
      ReadConcat(r, [failed], AttemptRecovery(setup, action, mode, w1).events);
      ReadAttempt(Recovering(r.n, r.done, None), setup, action, mode, w1);
    }
  }

  /** The rest of an action once the browser is done with it. */
  lemma {:induction false} ReadConcluded(r: Reader, setup: Setup, w: World, action: Action, index: nat,
        failure: Option<Failure>)
    requires r.Acting? && index == |r.done| < r.n
    ensures var o := Concluded(setup, w, action, index, failure);
            var after := Read(r, o.events);
            if o.execution.None? then IsOpen(after, r.n, r.done)
            else Settle(after) == Between(r.n, r.done + [o.execution.value.status])
  {
    if failure.None? {
      ReadOne(r, ActionSucceeded(index, action.id));
    } else if !failure.value.Uncaught? {
      ReadFailure(r, setup, w, action, index, failure.value);
    }
  }

  /** One action's block, read from any point where the action is the next one due. */
  lemma {:induction false} ReadAction(r: Reader, setup: Setup, w: World, action: Action, index: nat)
    requires Settle(r).Between? && index == |Settle(r).done| < Settle(r).n
    ensures var o := ExecuteOne(setup, w, action, index);
            var after := Read(r, o.events);
            if o.execution.None? then IsOpen(after, Settle(r).n, Settle(r).done)
            else Settle(after) == Between(Settle(r).n, Settle(r).done + [o.execution.value.status])
  {
    var (failure, w1) := Dispatch(setup.driver, w, action);
    var started, o := ActionStarted(index, action.id), Concluded(setup, w1, action, index, failure);
    ReadOne(r, started);
    ReadConcat(r, [started], o.events);
    ReadConcluded(Acting(Settle(r).n, Settle(r).done), setup, w1, action, index, failure);
  }

  function Statuses(executions: seq<Execution>): (s: seq<Status>)
    ensures |s| == |executions|
    ensures forall i :: 0 <= i < |executions| ==> s[i] == executions[i].status
  {
    seq(|executions|, i requires 0 <= i < |executions| => executions[i].status)
  }

  lemma {:induction false} FailuresAgree(executions: seq<Execution>)
    ensures FailedIn(Statuses(executions)) == CountFailed(executions)
  {
    if executions != [] {
      var init := executions[..|executions| - 1];
      FailuresAgree(init);
      assert Statuses(executions)[..|init|] == Statuses(init);
    }
  }

  /** What has been read of a run is what its executions say; an aborted run ends inside an action. */
  ghost predicate ReadSoFar(n: nat, p: Progress) {
    var after := Read(Between(n, []), p.events);
    if p.aborted then |p.executions| < n && IsOpen(after, n, Statuses(p.executions))
    else Settle(after) == Between(n, Statuses(p.executions))
  }

  lemma {:induction false} ReadAdvance(setup: Setup, n: nat, p: Progress, action: Action)
    requires ReadSoFar(n, p) && (p.aborted || |p.executions| < n)
    ensures ReadSoFar(n, Advance(setup, p, action))
  {
    if !p.aborted {
      var o := ExecuteOne(setup, p.world, action, |p.executions|);
      ReadConcat(Between(n, []), p.events, o.events);
      ReadAction(Read(Between(n, []), p.events), setup, p.world, action, |p.executions|);
      if o.execution.Some? { StatusesSnoc(p.executions, o.execution.value); }
    }
  }

  lemma {:induction false} StatusesSnoc(executions: seq<Execution>, e: Execution)
    ensures Statuses(executions + [e]) == Statuses(executions) + [e.status]
  {
  }

  lemma {:induction false} ReadUpTo(setup: Setup, w: World, actions: seq<Action>, k: nat)
    requires k <= |actions|
    ensures ReadSoFar(|actions|, ExecuteUpTo(setup, w, actions, k))
  {
    if k > 0 {
      ReadUpTo(setup, w, actions, k - 1);
      ReadAdvance(setup, |actions|, ExecuteUpTo(setup, w, actions, k - 1), actions[k - 1]);
    }
  }

  ghost predicate Fits(e: Execution, action: Action) {
    e.actionId == action.id && (e.status.Recovered? <==> e.recovery.Some?)
  }

  ghost predicate Aligned(executions: seq<Execution>, actions: seq<Action>) {
    |executions| <= |actions| && forall i :: 0 <= i < |executions| ==> Fits(executions[i], actions[i])
  }

  lemma {:induction false} ExecutionFits(setup: Setup, w: World, action: Action, index: nat)
    ensures var o := ExecuteOne(setup, w, action, index);
            o.execution.Some? ==> Fits(o.execution.value, action)
  {
  }

  lemma {:induction false} AdvanceAligns(setup: Setup, p: Progress, actions: seq<Action>, action: Action)
    requires Aligned(p.executions, actions)
    requires p.aborted || (|p.executions| < |actions| && action == actions[|p.executions|])
    ensures Aligned(Advance(setup, p, action).executions, actions)
  {
    if !p.aborted { ExecutionFits(setup, p.world, action, |p.executions|); }
  }

  lemma {:induction false} ExecutionsAlign(setup: Setup, w: World, actions: seq<Action>, k: nat)
    requires k <= |actions|
    ensures Aligned(ExecuteUpTo(setup, w, actions, k).executions, actions)
  {
    if k > 0 {
      ExecutionsAlign(setup, w, actions, k - 1);
      AdvanceAligns(setup, ExecuteUpTo(setup, w, actions, k - 1), actions, actions[k - 1]);
    }
  }

  function Finished(executions: seq<Execution>): Event {
    RunFinished(OverallStatus(executions), CountSucceeded(executions), CountFailed(executions))
  }

  lemma {:induction false} ReadFinished(r: Reader, executions: seq<Execution>)
    requires Settle(r) == Between(|executions|, Statuses(executions))
    ensures Observe(r, Finished(executions)) == Over(Statuses(executions))
  {
    FailuresAgree(executions);
    TotalsAddUp(executions);
  }

  lemma {:induction false} ReadRun(p: Progress, n: nat)
    requires ReadSoFar(n, p) && (!p.aborted ==> n == |p.executions|)
    ensures var after := Read(Idle, RunTrace(n, p));
            if p.aborted then IsOpen(after, n, Statuses(p.executions)) else after == Over(Statuses(p.executions))
  {
    var started := RunStarted(n);
    ReadOne(Idle, started);
    ReadConcat(Idle, [started], p.events);
    if p.aborted {
      assert RunTrace(n, p) == [started] + p.events;
    } else {
      ReadConcat(Idle, [started] + p.events, [Finished(p.executions)]);
      ReadOne(Read(Idle, [started] + p.events), Finished(p.executions));
      ReadFinished(Read(Idle, [started] + p.events), p.executions);
    }
  }

  /**
   * Every run's trace follows the grammar, and reading it back gives exactly how each action ended. A
   * completed run has one execution for each action, its totals add up, and it failed if and only if
   * some action did; the trace of an aborted run stops inside the action that aborted it.
   */
  lemma {:induction false} TraceTellsTheRun(setup: Setup, w: World, actions: seq<Action>)
    ensures var p := ExecuteUpTo(setup, w, actions, |actions|);
            var after := Read(Idle, RunTrace(|actions|, p));
            && Aligned(p.executions, actions)
            && CountSucceeded(p.executions) + CountFailed(p.executions) == |p.executions|
            && (OverallStatus(p.executions).Failed? <==> SomeFailed(p.executions))
            && if p.aborted then |p.executions| < |actions| && IsOpen(after, |actions|, Statuses(p.executions))
               else |p.executions| == |actions| && after == Over(Statuses(p.executions))
  {
    var p := ExecuteUpTo(setup, w, actions, |actions|);
    ReadUpTo(setup, w, actions, |actions|);
    ReadRun(p, |actions|);
    ExecutionsAlign(setup, w, actions, |actions|);
    TotalsAddUp(p.executions);
  }

  // ----- what a reader that follows has seen -----

  /** The event that has to come right before an answer. */
  ghost predicate Answers(e: Event, before: Event) {
    match e
    case ActionSucceeded(i, id) => before.ActionStarted? && before.index == i
    case ActionFailed(i, id, _) => before.ActionStarted? && before.index == i
    case RecoveryFailed(name) => before == RecoveryStarted(name)
    case RecoverySucceeded(name) => before == RecoveryStarted(name)
    case _ => true
  }

  /** What the reader waits for is the last thing it saw begin. */
  lemma {:induction false} WaitsForLast(trace: seq<Event>)
    ensures var r := Read(Idle, trace);
            && (r.Acting? ==> trace != [] && trace[|trace| - 1].ActionStarted? && trace[|trace| - 1].index == |r.done|)
            && (r.Recovering? && r.trying.Some? ==> trace != [] && trace[|trace| - 1] == RecoveryStarted(r.trying.value))
  {
    if trace != [] { WaitsForLast(trace[..|trace| - 1]); }
  }

  lemma {:induction false} ConfusedForGood(trace: seq<Event>, n: nat)
    requires n <= |trace| && Read(Idle, trace[..n]).Confused?
    ensures Read(Idle, trace).Confused?
    decreases |trace| - n
  {
    if n < |trace| {
      assert trace[..n + 1][..n] == trace[..n];
      ConfusedForGood(trace, n + 1);
    } else {
      assert trace[..n] == trace;
    }
  }

  /** A trace the reader can follow answers every start right away, with the same action or strategy. */
  lemma {:induction false} AnswersFollowTheirStart(trace: seq<Event>, i: nat)
    requires 0 < i < |trace| && !Read(Idle, trace).Confused?
    ensures Answers(trace[i], trace[i - 1])
  {
    if !Answers(trace[i], trace[i - 1]) {
      WaitsForLast(trace[..i]);
      assert trace[..i + 1][..i] == trace[..i];
      ConfusedForGood(trace, i + 1);
    }
  }

  /** So does the trace of every run, aborted or not. */
  lemma {:induction false} RunAnswersItsStarts(setup: Setup, w: World, actions: seq<Action>, i: nat)
    requires var trace := RunTrace(|actions|, ExecuteUpTo(setup, w, actions, |actions|)); 0 < i < |trace|
    ensures var trace := RunTrace(|actions|, ExecuteUpTo(setup, w, actions, |actions|)); Answers(trace[i], trace[i - 1])
  {
    TraceTellsTheRun(setup, w, actions);
    AnswersFollowTheirStart(RunTrace(|actions|, ExecuteUpTo(setup, w, actions, |actions|)), i);
  }
}
