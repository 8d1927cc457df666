/** The daily LLM budget: spend is checked before a call and recorded after it, with other calls in between. */
module Budget {
  import opened Common

  // ----- rates -----

  datatype Rates = Rates(input: real, output: real)

  const MODEL_RATES: map<string, Rates> := map[
    "claude-opus-4-7" := Rates(0.000015, 0.000075),
    "claude-opus-4-6" := Rates(0.000015, 0.000075),
    "claude-sonnet-4-6" := Rates(0.000003, 0.000015),
    "claude-sonnet-4-5" := Rates(0.000003, 0.000015),
    "claude-haiku-4-5-20251001" := Rates(0.000001, 0.000005)]

  /** An unknown model is free, and so never moves the budget. */
  function ComputeCost(model: string, inputTokens: nat, outputTokens: nat): (cost: real)
    ensures cost >= 0.0
    ensures cost == 0.0 <==> model !in MODEL_RATES || (inputTokens == 0 && outputTokens == 0)
  {
    if model !in MODEL_RATES then 0.0
    else inputTokens as real * MODEL_RATES[model].input + outputTokens as real * MODEL_RATES[model].output
  }

  /** A call costs its tokens, each at its price: an output token five times an input token. */
  lemma {:induction false} CostIsByTheToken(model: string, inputTokens: nat, outputTokens: nat)
    ensures ComputeCost(model, inputTokens, outputTokens)
            == (inputTokens + 5 * outputTokens) as real * ComputeCost(model, 1, 0)
    ensures ComputeCost(model, 0, 1) == 5.0 * ComputeCost(model, 1, 0)
  {
    if model in MODEL_RATES {
      var rate := MODEL_RATES[model].input;
      assert MODEL_RATES[model].output == 5.0 * rate;
      assert outputTokens as real * (5.0 * rate) == 5.0 * outputTokens as real * rate;
      assert (inputTokens as real + 5.0 * outputTokens as real) * rate
             == inputTokens as real * rate + 5.0 * outputTokens as real * rate;
    }
  }

  /** The price list, in dollars for a million input tokens. */
  lemma {:induction false} PriceOfAMillion(model: string)
    ensures ComputeCost(model, 1_000_000, 0) ==
            if model in {"claude-opus-4-7", "claude-opus-4-6"} then 15.0
            else if model in {"claude-sonnet-4-6", "claude-sonnet-4-5"} then 3.0
            else if model == "claude-haiku-4-5-20251001" then 1.0 else 0.0
  {
  }

  // ----- the guard -----

  /** Days are numbered; a day nothing was recorded on has spent nothing. */
  type Ledger = map<nat, real>

  function SpentOn(ledger: Ledger, day: nat): real {
    if day in ledger then ledger[day] else 0.0
  }

  function Recorded(ledger: Ledger, day: nat, usd: real): Ledger {
    if usd <= 0.0 then ledger else ledger[day := SpentOn(ledger, day) + usd]
  }

  class BudgetGuard {
    const cap: real
    var mem: Ledger

    constructor (cap: real)
      ensures this.cap == cap && mem == map[]
    {
      this.cap := cap;
      mem := map[];
    }

    /** False stands for the budget-exceeded error. */
    method CheckOrRaise(today: nat) returns (ok: bool)
      ensures ok <==> (if today in mem then mem[today] else 0.0) < cap
    {
      var spend := 0.0;
      if today in mem { spend := mem[today]; }
      ok := !(spend >= cap);
    }

    method RecordSpend(today: nat, usd: real)
      modifies this
      ensures mem == Recorded(old(mem), today, usd)
      ensures forall d: nat :: SpentOn(mem, d) == SpentOn(old(mem), d) + (if d == today && usd > 0.0 then usd else 0.0)
    {
      if usd <= 0.0 {
        return;
      }
      var spend := 0.0;
      if today in mem { spend := mem[today]; }
      mem := mem[today := spend + usd];
    }
  }

  // ----- concurrent classify calls -----

  /**
   * Where a running call stands. The check names its day before it reads the counter, and the
   * record names its day before it adds to it; midnight may fall in between.
   */
  datatype Call =
    | Checking(day: nat)
    | Passed
    | Calling
    | Answered(cost: real)
    | Stamped(day: nat, cost: real)
    | Ended

  /** `maxRunning` bounds the calls in progress, `maxCost` the price of one, `permits` the semaphore. */
  datatype Config = Config(cap: real, maxRunning: nat, maxCost: real, permits: nat)

  datatype State = State(today: nat, ledger: Ledger, calls: seq<Call>)

  datatype Step =
    | Begin
    | Check(call: nat)
    | Enter(call: nat)
    | Answer(call: nat, cost: real)
    | Stamp(call: nat)
    | Record(call: nat)
    | Abort(call: nat)
    | Midnight

  function One(b: bool): nat { if b then 1 else 0 }

  function Running(calls: seq<Call>): nat {
    if calls == [] then 0 else Running(calls[..|calls| - 1]) + One(!calls[|calls| - 1].Ended?)
  }

  function InCall(calls: seq<Call>): nat {
    if calls == [] then 0 else InCall(calls[..|calls| - 1]) + One(calls[|calls| - 1].Calling?)
  }

  predicate Enabled(config: Config, s: State, step: Step) {
    match step
    case Begin => Running(s.calls) < config.maxRunning
    case Check(i) => i < |s.calls| && s.calls[i].Checking?
    case Enter(i) => i < |s.calls| && s.calls[i].Passed? && InCall(s.calls) < config.permits
    case Answer(i, cost) => i < |s.calls| && s.calls[i].Calling? && cost <= config.maxCost
    case Stamp(i) => i < |s.calls| && s.calls[i].Answered?
    case Record(i) => i < |s.calls| && s.calls[i].Stamped?
    case Abort(i) => i < |s.calls| && !s.calls[i].Ended?
    case Midnight => true
  }

  function After(config: Config, s: State, step: Step): Call
    requires Enabled(config, s, step) && !step.Begin? && !step.Midnight?
  {
    var call := s.calls[step.call];
    match step
    case Check(_) => if SpentOn(s.ledger, call.day) >= config.cap then Ended else Passed
    case Enter(_) => Calling
    case Answer(_, cost) => Answered(cost)
    case Stamp(_) => if call.cost <= 0.0 then Ended else Stamped(s.today, call.cost)
    case Record(_) => Ended
    case Abort(_) => Ended
  }

  function Apply(config: Config, s: State, step: Step): State {
    if !Enabled(config, s, step) then s
    else if step.Begin? then s.(calls := s.calls + [Checking(s.today)])
    else if step.Midnight? then s.(today := s.today + 1)
    else
      var ledger := if step.Record? then Recorded(s.ledger, s.calls[step.call].day, s.calls[step.call].cost) else s.ledger;
      State(s.today, ledger, s.calls[step.call := After(config, s, step)])
  }

  function Run(config: Config, s: State, steps: seq<Step>): State {
    if steps == [] then s else Apply(config, Run(config, s, steps[..|steps| - 1]), steps[|steps| - 1])
  }

  function Initial(spent: real): State {
    State(0, map[0 := spent], [])
  }

  ghost predicate Sane(config: Config, spent: real) {
    config.cap > 0.0 && config.maxCost >= 0.0 && spent < config.cap
  }

  // ----- what may still be added to a day -----

  /** The most `call` can still add to day `d`, when today is `today`. */
  function Weight(call: Call, d: nat, today: nat, maxCost: real): real {
    match call
    case Checking(day) => if d == today && day != today then maxCost else 0.0
    case Passed => if d == today then maxCost else 0.0
    case Calling => if d == today then maxCost else 0.0
    case Answered(_) => if d == today then maxCost else 0.0
    case Stamped(day, cost) => if day == d then cost else 0.0
    case Ended => 0.0
  }

  function Exposure(calls: seq<Call>, d: nat, today: nat, maxCost: real): real {
    if calls == [] then 0.0
    else Exposure(calls[..|calls| - 1], d, today, maxCost) + Weight(calls[|calls| - 1], d, today, maxCost)
  }

  predicate CallLaw(call: Call, today: nat, maxCost: real) {
    match call
    case Checking(day) => day <= today
    case Answered(cost) => cost <= maxCost
    case Stamped(day, cost) => day <= today && 0.0 < cost <= maxCost
    case _ => true
  }

  ghost predicate CallsLaw(calls: seq<Call>, today: nat, maxCost: real) {
    forall i :: 0 <= i < |calls| ==> CallLaw(calls[i], today, maxCost)
  }

  /** The price of `n` calls at `cost` each. */
  function Price(n: nat, cost: real): real {
    n as real * cost
  }

  function Ceiling(config: Config): real {
    config.cap + Price(config.maxRunning, config.maxCost)
  }

  ghost predicate DayLaw(config: Config, s: State, d: nat) {
    if d > s.today then SpentOn(s.ledger, d) == 0.0
    else SpentOn(s.ledger, d) + Exposure(s.calls, d, s.today, config.maxCost) < Ceiling(config)
  }

  ghost predicate Law(config: Config, s: State) {
    && CallsLaw(s.calls, s.today, config.maxCost) && Running(s.calls) <= config.maxRunning
    && forall d: nat :: DayLaw(config, s, d)
  }

  lemma {:induction false} ExposureUpdate(calls: seq<Call>, i: nat, call: Call, d: nat, today: nat, maxCost: real)
    requires i < |calls|
    ensures Exposure(calls[i := call], d, today, maxCost)
            == Exposure(calls, d, today, maxCost) - Weight(calls[i], d, today, maxCost) + Weight(call, d, today, maxCost)
  {
    var n := |calls| - 1;
    if i < n {
      ExposureUpdate(calls[..n], i, call, d, today, maxCost);
      assert calls[i := call][..n] == calls[..n][i := call];
    } else {
      assert calls[i := call][..n] == calls[..n];
    }
  }

  lemma {:induction false} RunningUpdate(calls: seq<Call>, i: nat, call: Call)
    requires i < |calls|
    ensures Running(calls[i := call]) + One(!calls[i].Ended?) == Running(calls) + One(!call.Ended?)
  {
    var n := |calls| - 1;
    if i < n {
      RunningUpdate(calls[..n], i, call);
      assert calls[i := call][..n] == calls[..n][i := call];
    } else {
      assert calls[i := call][..n] == calls[..n];
    }
  }

  lemma {:induction false} PriceGrows(m: nat, n: nat, cost: real)
    requires m <= n && cost >= 0.0
    ensures Price(m, cost) <= Price(n, cost)
  {
  }

  lemma {:induction false} PriceOfOneMore(n: nat, cost: real)
    ensures Price(n + 1, cost) == Price(n, cost) + cost
  {
  }

  lemma {:induction false} ExposureIsBounded(calls: seq<Call>, d: nat, today: nat, maxCost: real)
    requires maxCost >= 0.0 && CallsLaw(calls, today, maxCost)
    ensures Exposure(calls, d, today, maxCost) <= Price(Running(calls), maxCost)
  {
    if calls != [] {
      ExposureIsBounded(calls[..|calls| - 1], d, today, maxCost);
      PriceOfOneMore(Running(calls[..|calls| - 1]), maxCost);
    }
  }

  /** A day whose spend is still under the cap stays under the ceiling, whatever is under way. */
  lemma {:induction false} UnderCapIsUnderCeiling(config: Config, s: State, d: nat)
    requires config.maxCost >= 0.0 && CallsLaw(s.calls, s.today, config.maxCost)
    requires Running(s.calls) <= config.maxRunning
    requires SpentOn(s.ledger, d) < config.cap && d <= s.today
    ensures DayLaw(config, s, d)
  {
    ExposureIsBounded(s.calls, d, s.today, config.maxCost);
    PriceGrows(Running(s.calls), config.maxRunning, config.maxCost);
  }

  lemma {:induction false} BeginKeepsLaw(config: Config, s: State)
    requires Law(config, s) && Enabled(config, s, Begin)
    ensures Law(config, Apply(config, s, Begin))
  {
    var calls := s.calls + [Checking(s.today)];
    assert calls[..|s.calls|] == s.calls;
    forall d: nat ensures DayLaw(config, Apply(config, s, Begin), d) {
      assert DayLaw(config, s, d);
    }
  }

  lemma {:induction false} MidnightKeepsLaw(config: Config, s: State)
    requires Law(config, s) && config.cap > 0.0 && config.maxCost >= 0.0
    ensures Law(config, Apply(config, s, Midnight))
  {
    var t := Apply(config, s, Midnight);
    forall i | 0 <= i < |t.calls| ensures CallLaw(t.calls[i], t.today, config.maxCost) {
      assert CallLaw(s.calls[i], s.today, config.maxCost);
    }
    forall d: nat ensures DayLaw(config, t, d) {
      assert DayLaw(config, s, d);
      if d == t.today {
        UnderCapIsUnderCeiling(config, t, d);
      } else if d <= s.today {
        PastExposure(s.calls, d, s.today, config.maxCost);
      }
    }
  }

  /** Once a day is over, only what is already stamped with it can be added. */
  lemma {:induction false} PastExposure(calls: seq<Call>, d: nat, today: nat, maxCost: real)
    requires d <= today && maxCost >= 0.0
    ensures Exposure(calls, d, today + 1, maxCost) <= Exposure(calls, d, today, maxCost)
  {
    if calls != [] { PastExposure(calls[..|calls| - 1], d, today, maxCost); }
  }

  /** A call's own step moves at most as much from its weight to the ledger as the weight it had. */
  lemma {:induction false} CallKeepsDay(config: Config, s: State, step: Step, d: nat)
    requires Law(config, s) && config.maxCost >= 0.0
    requires Enabled(config, s, step) && !step.Begin? && !step.Midnight?
    ensures DayLaw(config, Apply(config, s, step), d)
  {
    var t := Apply(config, s, step);
    var i, call := step.call, After(config, s, step);
    assert DayLaw(config, s, d) && CallLaw(s.calls[i], s.today, config.maxCost);
    ExposureUpdate(s.calls, i, call, d, s.today, config.maxCost);
    if step.Check? && call.Passed? && d == s.today == s.calls[i].day {
      CallKeepsCalls(config, s, step);
      UnderCapIsUnderCeiling(config, t, d);
    }
  }

  lemma {:induction false} CallKeepsCalls(config: Config, s: State, step: Step)
    requires Law(config, s)
    requires Enabled(config, s, step) && !step.Begin? && !step.Midnight?
    ensures var t := Apply(config, s, step);
            CallsLaw(t.calls, t.today, config.maxCost) && Running(t.calls) <= config.maxRunning
  {
    assert CallLaw(s.calls[step.call], s.today, config.maxCost);
    RunningUpdate(s.calls, step.call, After(config, s, step));
  }

  lemma {:induction false} StepKeepsLaw(config: Config, s: State, step: Step)
    requires Law(config, s) && config.cap > 0.0 && config.maxCost >= 0.0
    ensures Law(config, Apply(config, s, step))
  {
    if Enabled(config, s, step) {
      if step.Begin? {
        BeginKeepsLaw(config, s);
      } else if step.Midnight? {
        MidnightKeepsLaw(config, s);
      } else {
        CallKeepsCalls(config, s, step);
        forall d: nat ensures DayLaw(config, Apply(config, s, step), d) {
          CallKeepsDay(config, s, step, d);
        }
      }
    }
  }

  lemma {:induction false} EveryRunKeepsLaw(config: Config, spent: real, steps: seq<Step>)
    requires Sane(config, spent)
    ensures Law(config, Run(config, Initial(spent), steps))
  {
    if steps == [] {
      forall d: nat ensures DayLaw(config, Initial(spent), d) {
        if d == 0 { UnderCapIsUnderCeiling(config, Initial(spent), d); }
      }
    } else {
      EveryRunKeepsLaw(config, spent, steps[..|steps| - 1]);
      StepKeepsLaw(config, Run(config, Initial(spent), steps[..|steps| - 1]), steps[|steps| - 1]);
    }
  }

  lemma {:induction false} ExposureIsNonNegative(calls: seq<Call>, d: nat, today: nat, maxCost: real)
    requires maxCost >= 0.0 && CallsLaw(calls, today, maxCost)
    ensures Exposure(calls, d, today, maxCost) >= 0.0
  {
    if calls != [] { ExposureIsNonNegative(calls[..|calls| - 1], d, today, maxCost); }
  }

  /** No interleaving takes any day's spend to the cap plus one full-price call per running slot. */
  lemma {:induction false} OvershootIsBounded(config: Config, spent: real, steps: seq<Step>, d: nat)
    requires Sane(config, spent)
    ensures SpentOn(Run(config, Initial(spent), steps).ledger, d) < Ceiling(config)
  {
    EveryRunKeepsLaw(config, spent, steps);
    var s := Run(config, Initial(spent), steps);
    assert DayLaw(config, s, d);
    if d <= s.today {
      ExposureIsNonNegative(s.calls, d, s.today, config.maxCost);
    } else {
      PriceGrows(0, config.maxRunning, config.maxCost);
    }
  }

  // ----- what the counters show -----

  /** What the calls recorded on day `d` came to. */
  function PaidOn(config: Config, s: State, steps: seq<Step>, d: nat): real {
    if steps == [] then 0.0
    else
      var before, step := Run(config, s, steps[..|steps| - 1]), steps[|steps| - 1];
      PaidOn(config, s, steps[..|steps| - 1], d)
      + (if step.Record? && step.call < |before.calls| && before.calls[step.call].Stamped?
            && before.calls[step.call].day == d
         then before.calls[step.call].cost else 0.0)
  }

  /** A day's counter shows what was there and what was recorded on that day, nothing more and nothing less. */
  lemma {:induction false} LedgerIsConserved(config: Config, spent: real, steps: seq<Step>, d: nat)
    requires Sane(config, spent)
    ensures SpentOn(Run(config, Initial(spent), steps).ledger, d)
            == (if d == 0 then spent else 0.0) + PaidOn(config, Initial(spent), steps, d)
  {
    if steps != [] {
      var init := steps[..|steps| - 1];
      LedgerIsConserved(config, spent, init, d);
      EveryRunKeepsLaw(config, spent, init);
      StepIsConserved(config, Run(config, Initial(spent), init), steps[|steps| - 1], d);
    }
  }

  lemma {:induction false} StepIsConserved(config: Config, s: State, step: Step, d: nat)
    requires CallsLaw(s.calls, s.today, config.maxCost)
    ensures SpentOn(Apply(config, s, step).ledger, d) == SpentOn(s.ledger, d)
            + (if step.Record? && step.call < |s.calls| && s.calls[step.call].Stamped? && s.calls[step.call].day == d
               then s.calls[step.call].cost else 0.0)
  {
    if step.Record? && Enabled(config, s, step) { assert CallLaw(s.calls[step.call], s.today, config.maxCost); }
  }

  /** A running call can always be given up: its slot is free again and nothing is charged. */
  lemma {:induction false} AbortFreesSlot(config: Config, s: State, i: nat)
    requires i < |s.calls| && !s.calls[i].Ended?
    ensures var after := Apply(config, s, Abort(i));
            && Running(after.calls) == Running(s.calls) - 1 && after.ledger == s.ledger && after.today == s.today
            && after.calls == s.calls[i := Ended]
  {
    RunningUpdate(s.calls, i, Ended);
  }

  // ----- what the semaphore does bound -----

  lemma {:induction false} InCallUpdate(calls: seq<Call>, i: nat, call: Call)
    requires i < |calls|
    ensures InCall(calls[i := call]) + One(calls[i].Calling?) == InCall(calls) + One(call.Calling?)
  {
    var n := |calls| - 1;
    if i < n {
      InCallUpdate(calls[..n], i, call);
      assert calls[i := call][..n] == calls[..n][i := call];
    } else {
      assert calls[i := call][..n] == calls[..n];
    }
  }

  /** The calls that are waiting for their model's answer. */
  ghost function CallingOf(calls: seq<Call>): set<nat> {
    set i: nat | i < |calls| && calls[i].Calling?
  }

  lemma {:induction false} InCallIsSize(calls: seq<Call>)
    ensures InCall(calls) == |CallingOf(calls)|
  {
    if calls != [] {
      var n := |calls| - 1;
      var rest := CallingOf(calls[..n]);
      InCallIsSize(calls[..n]);
      assert CallingOf(calls) == if calls[n].Calling? then rest + {n} else rest;
    }
  }

  lemma {:induction false} StepKeepsPermits(config: Config, s: State, step: Step)
    requires InCall(s.calls) <= config.permits
    ensures InCall(Apply(config, s, step).calls) <= config.permits
  {
    if Enabled(config, s, step) && !step.Midnight? {
      if step.Begin? {
        assert (s.calls + [Checking(s.today)])[..|s.calls|] == s.calls;
      } else {
        InCallUpdate(s.calls, step.call, After(config, s, step));
      }
    }
  }

  /** At no moment of any run do more calls wait for an answer than there are permits. */
  lemma {:induction false} PermitsBoundCalls(config: Config, spent: real, steps: seq<Step>)
    ensures |CallingOf(Run(config, Initial(spent), steps).calls)| <= config.permits
  {
    var s := Run(config, Initial(spent), steps);
    InCallIsSize(s.calls);
    if steps != [] {
      var before := Run(config, Initial(spent), steps[..|steps| - 1]);
      PermitsBoundCalls(config, spent, steps[..|steps| - 1]);
      InCallIsSize(before.calls);
      StepKeepsPermits(config, before, steps[|steps| - 1]);
    }
  }

  // ----- the bound is sharp, and the semaphore does not lower it -----

  lemma {:induction false} RunSnoc(config: Config, s: State, steps: seq<Step>, step: Step)
    ensures Run(config, s, steps + [step]) == Apply(config, Run(config, s, steps), step)
  {
    assert (steps + [step])[..|steps|] == steps;
  }

  /** `done` calls are over and `waiting` have passed the check. */
  function Queue(done: nat, waiting: nat): (calls: seq<Call>)
    ensures |calls| == done + waiting
  {
    seq(done, _ => Ended) + seq(waiting, _ => Passed)
  }

  lemma {:induction false} QueueCounts(done: nat, waiting: nat)
    ensures Running(Queue(done, waiting)) == waiting && InCall(Queue(done, waiting)) == 0
    decreases done + waiting
  {
    var calls := Queue(done, waiting);
    if waiting > 0 {
      QueueCounts(done, waiting - 1);
      assert calls[..|calls| - 1] == Queue(done, waiting - 1);
    } else if done > 0 {
      QueueCounts(done - 1, 0);
      assert calls[..|calls| - 1] == Queue(done - 1, 0);
    }
  }

  lemma {:induction false} QueueMoves(done: nat, waiting: nat)
    ensures (Queue(done, waiting) + [Checking(0)])[done + waiting := Passed] == Queue(done, waiting + 1)
    ensures Queue(done, waiting + 1)[done := Ended] == Queue(done + 1, waiting)
  {
  }

  /** What the ledger and the calls look like when `done` calls have paid and `waiting` have passed the check. */
  function Paid(config: Config, spent: real, done: nat, waiting: nat): State {
    State(0, map[0 := spent + Price(done, config.maxCost)], Queue(done, waiting))
  }

  /** One more call begins and passes the check while nothing has been paid yet. */
  lemma {:induction false} OneCallPasses(config: Config, spent: real, k: nat)
    requires Sane(config, spent) && k < config.maxRunning
    ensures Run(config, Paid(config, spent, 0, k), [Begin] + [Check(k)]) == Paid(config, spent, 0, k + 1)
  {
    var s := Paid(config, spent, 0, k);
    QueueCounts(0, k);
    RunSnoc(config, s, [], Begin);
    assert [] + [Begin] == [Begin];
    RunSnoc(config, s, [Begin], Check(k));
    QueueMoves(0, k);
  }

  lemma {:induction false} AllPassTheCheck(config: Config, spent: real, k: nat) returns (steps: seq<Step>)
    requires Sane(config, spent) && k <= config.maxRunning
    ensures Run(config, Initial(spent), steps) == Paid(config, spent, 0, k)
  {
    steps := [];
    if k > 0 {
      steps := AllPassTheCheck(config, spent, k - 1);
      RunConcat(config, Initial(spent), steps, [Begin] + [Check(k - 1)]);
      OneCallPasses(config, spent, k - 1);
      steps := steps + ([Begin] + [Check(k - 1)]);
    }
  }

  /** A waiting call gets its permit and its answer. */
  lemma {:induction false} CallIsAnswered(config: Config, s: State, i: nat)
    requires i < |s.calls| && s.calls[i].Passed? && InCall(s.calls) < config.permits
    ensures Run(config, s, [Enter(i)] + [Answer(i, config.maxCost)])
            == s.(calls := s.calls[i := Answered(config.maxCost)])
  {
    var entered := s.(calls := s.calls[i := Calling]);
    RunSnoc(config, s, [], Enter(i));
    assert [] + [Enter(i)] == [Enter(i)];
    RunSnoc(config, s, [Enter(i)], Answer(i, config.maxCost));
    assert entered.calls[i := Answered(config.maxCost)] == s.calls[i := Answered(config.maxCost)];
  }

  /** A waiting call is made, answered at full price and recorded. */
  lemma {:induction false} OneCallPays(config: Config, s: State, i: nat)
    requires i < |s.calls| && s.calls[i].Passed? && InCall(s.calls) < config.permits && config.maxCost > 0.0
    ensures Run(config, s, Payment(i, config.maxCost))
            == State(s.today, Recorded(s.ledger, s.today, config.maxCost), s.calls[i := Ended])
  {
    var c := config.maxCost;
    var first := [Enter(i)] + [Answer(i, c)];
    var answered, stamped := s.calls[i := Answered(c)], s.calls[i := Stamped(s.today, c)];
    CallIsAnswered(config, s, i);
    RunSnoc(config, s, first, Stamp(i));
    assert answered[i := Stamped(s.today, c)] == stamped;
    RunSnoc(config, s, first + [Stamp(i)], Record(i));
    assert stamped[i := Ended] == s.calls[i := Ended];
  }

  lemma {:induction false} RunConcat(config: Config, s: State, a: seq<Step>, b: seq<Step>)
    ensures Run(config, s, a + b) == Run(config, Run(config, s, a), b)
  {
    if b == [] {
      assert a + b == a;
    } else {
      assert (a + b)[..|a + b| - 1] == a + b[..|b| - 1];
      RunConcat(config, s, a, b[..|b| - 1]);
    }
  }

  function Payment(i: nat, cost: real): seq<Step> {
    [Enter(i)] + [Answer(i, cost)] + [Stamp(i)] + [Record(i)]
  }

  lemma {:induction false} NextCallPays(config: Config, spent: real, j: nat, waiting: nat)
    requires config.permits >= 1 && config.maxCost > 0.0
    ensures Run(config, Paid(config, spent, j, waiting + 1), Payment(j, config.maxCost))
            == Paid(config, spent, j + 1, waiting)
  {
    QueueCounts(j, waiting + 1);
    OneCallPays(config, Paid(config, spent, j, waiting + 1), j);
    PriceOfOneMore(j, config.maxCost);
    QueueMoves(j, waiting);
  }

  lemma {:induction false} CallsPayOneByOne(config: Config, spent: real, j: nat) returns (steps: seq<Step>)
    requires Sane(config, spent) && j <= config.maxRunning && config.permits >= 1 && config.maxCost > 0.0
    ensures Run(config, Initial(spent), steps) == Paid(config, spent, j, config.maxRunning - j)
  {
    if j == 0 {
      steps := AllPassTheCheck(config, spent, config.maxRunning);
    } else {
      steps := CallsPayOneByOne(config, spent, j - 1);
      NextCallPays(config, spent, j - 1, config.maxRunning - j);
      RunConcat(config, Initial(spent), steps, Payment(j - 1, config.maxCost));
      steps := steps + Payment(j - 1, config.maxCost);
    }
  }

  /**
   * With any number of permits, even one, some run spends every running slot's full price on top of
   * what was spent when they passed the check: the bound depends on the calls running, not on the semaphore.
   */
  lemma {:induction false} OvershootIsReached(config: Config, spent: real) returns (steps: seq<Step>)
    requires Sane(config, spent) && config.permits >= 1 && config.maxCost > 0.0
    ensures SpentOn(Run(config, Initial(spent), steps).ledger, 0) == spent + Price(config.maxRunning, config.maxCost)
  {
    steps := CallsPayOneByOne(config, spent, config.maxRunning);
  }

  /**
   * A call is charged to the day it is answered on, not to the day it was checked against: past midnight a
   * full price lands on a day whose counter it never looked at.
   */
  lemma {:induction false} ChargedAfterMidnight(config: Config, spent: real)
    requires Sane(config, spent) && config.maxRunning >= 1 && config.permits >= 1 && config.maxCost > 0.0
    ensures var after := Run(config, Initial(spent), [Begin] + [Check(0)] + [Midnight] + Payment(0, config.maxCost));
            after.today == 1 && SpentOn(after.ledger, 0) == spent && SpentOn(after.ledger, 1) == config.maxCost
  {
    QueueCounts(0, 1);
    OneCallPasses(config, spent, 0);
    assert Queue(0, 0) == [] && Paid(config, spent, 0, 0) == Initial(spent);
    var passed := Paid(config, spent, 0, 1);
    RunSnoc(config, Initial(spent), [Begin] + [Check(0)], Midnight);
    RunConcat(config, Initial(spent), [Begin] + [Check(0)] + [Midnight], Payment(0, config.maxCost));
    OneCallPays(config, passed.(today := 1), 0);
  }

  /** A call begun before midnight and checked after it is checked against the day it began on. */
  lemma {:induction false} CheckedAgainstItsDay(config: Config, s: State)
    requires Running(s.calls) < config.maxRunning
    ensures var i := |s.calls|;
            var after := Run(config, s, [Begin] + [Midnight] + [Check(i)]);
            && |after.calls| == i + 1 && after.ledger == s.ledger && after.today == s.today + 1
            && after.calls[i] ==
               if (if s.today in s.ledger then s.ledger[s.today] else 0.0) < config.cap then Passed else Ended
  {
    RunSnoc(config, s, [], Begin);
    assert [] + [Begin] == [Begin];
    RunSnoc(config, s, [Begin], Midnight);
    RunSnoc(config, s, [Begin] + [Midnight], Check(|s.calls|));
  }
}
