/** The engine as written: pipelines that loop over actions and rules and share one mutable context. */
module HeuristicEngine {
  import opened Common
  import opened Actions
  import opened HeuristicRules

  /** Shared by every rule of one `Process` call; `coalesced` is the scratch entry of the burst rule. */
  class RuleContext {
    var actions: seq<Action>
    var index: nat
    var coalesced: Marks

    constructor (actions: seq<Action>)
      ensures this.actions == actions && index == 0 && coalesced == None
    {
      this.actions := actions;
      index := 0;
      coalesced := None;
    }
  }

  class FilterPipeline {
    const rules: seq<FilterRule>

    constructor (rules: seq<FilterRule>)
      ensures this.rules == rules
    {
      this.rules := rules;
    }

    /** An action stays when no rule rejects it; the context tells rules where they are. */
    method Apply(actions: seq<Action>, ctx: RuleContext) returns (kept: seq<Action>)
      requires ctx.actions == actions
      modifies ctx`index
      ensures kept == Filtered(rules, actions, ctx.coalesced)
    {
      kept := [];
      ghost var flags := Verdicts(rules, actions, ctx.coalesced);
      for i := 0 to |actions|
        invariant ctx.actions == actions && ctx.coalesced == old(ctx.coalesced)
        invariant kept == Pick(actions[..i], flags[..i])
      {
        ctx.index := i;
        var keep := true;
        for r := 0 to |rules|
          invariant keep && forall k :: 0 <= k < r ==> Keeps(rules[k], actions, i, ctx.coalesced)
        {
          if !Keeps(rules[r], ctx.actions, ctx.index, ctx.coalesced) {
            keep := false;
            break;
          }
        }
        PickSnoc(actions, flags, i);
        if keep {
          kept := kept + [actions[i]];
        }
      }
      assert actions[..|actions|] == actions && flags[..|actions|] == flags;
    }
  }

  /** The burst scan: walk forward from the context's index while the next action joins the burst. */
  method ScanFollowers(action: Action, ctx: RuleContext) returns (followers: seq<int>, lastValue: string)
    requires ctx.index < |ctx.actions| && IsInput(action)
    ensures var e := ScanEnd(action, ctx.actions, action.timestamp, ctx.index + 1);
            && |followers| == e - ctx.index - 1
            && (forall k :: 0 <= k < |followers| ==> followers[k] == ctx.actions[ctx.index + 1 + k].sequence)
            && lastValue == if followers == [] then action.payload.value else ctx.actions[e - 1].payload.value
  {
    followers := [];
    lastValue := action.payload.value;
    var prevTs := action.timestamp;
    var i := ctx.index + 1;
    while i < |ctx.actions|
      invariant ctx.index < i <= |ctx.actions|
      invariant ScanEnd(action, ctx.actions, prevTs, i) == ScanEnd(action, ctx.actions, action.timestamp, ctx.index + 1)
      invariant |followers| == i - ctx.index - 1
      invariant forall k :: 0 <= k < |followers| ==> followers[k] == ctx.actions[ctx.index + 1 + k].sequence
      invariant followers == [] ==> lastValue == action.payload.value
      invariant followers != [] ==> IsInput(ctx.actions[i - 1]) && lastValue == ctx.actions[i - 1].payload.value
    {
      var cand := ctx.actions[i];
      if !cand.actionType.Input? || cand.selector != action.selector || !cand.payload.InputPayload? {
        break;
      }
      if cand.timestamp - prevTs > BURST_GAP {
        break;
      }
      followers := followers + [cand.sequence];
      lastValue, prevTs := cand.payload.value, cand.timestamp;
      i := i + 1;
    }
  }

  /** The burst leader takes the last value; its followers go into the shared scratch set. */
  method CoalesceBursts(action: Action, ctx: RuleContext) returns (r: Action)
    requires ctx.index < |ctx.actions|
    modifies ctx`coalesced
    ensures r == Coalesce(action, ctx.actions, ctx.index, old(ctx.coalesced)).0
    ensures ctx.coalesced == Coalesce(action, ctx.actions, ctx.index, old(ctx.coalesced)).1
  {
    if !IsInput(action) {
      return action;
    }
    if ctx.coalesced.None? {
      ctx.coalesced := Some({});
    }
    var coalesced := ctx.coalesced.value;
    if action.sequence in coalesced {
      return action;
    }
    var followers, lastValue := ScanFollowers(action, ctx);
    CoalesceMarks(action, ctx.actions, ctx.index, old(ctx.coalesced), followers, lastValue);
    if followers == [] {
      return action;
    }
    ctx.coalesced := Some(coalesced + set x | x in followers);
    r := if lastValue == action.payload.value then action else WithValue(action, lastValue);
  }

  /** The rule in terms of what the scan found. */
  lemma {:induction false} CoalesceMarks(action: Action, actions: seq<Action>, index: nat, marks: Marks,
        followers: seq<int>, lastValue: string)
    requires index < |actions| && IsInput(action) && action.sequence !in Marked(marks)
    requires var e := ScanEnd(action, actions, action.timestamp, index + 1);
             && |followers| == e - index - 1
             && (forall k :: 0 <= k < |followers| ==> followers[k] == actions[index + 1 + k].sequence)
             && lastValue == if followers == [] then action.payload.value else actions[e - 1].payload.value
    ensures Coalesce(action, actions, index, marks)
            == if followers == [] then (action, Some(Marked(marks)))
               else (WithValue(action, lastValue), Some(Marked(marks) + set x | x in followers))
  {
    var e := ScanEnd(action, actions, action.timestamp, index + 1);
    if followers != [] { FollowerSet(followers, actions[index + 1..e]); }
  }

  lemma {:induction false} FollowerSet(followers: seq<int>, actions: seq<Action>)
    requires |followers| == |actions|
    requires forall k :: 0 <= k < |followers| ==> followers[k] == actions[k].sequence
    ensures (set x | x in followers) == Sequences(actions)
  {
    forall x | x in Sequences(actions) ensures x in followers {
      var k :| 0 <= k < |actions| && actions[k].sequence == x;
      assert followers[k] == x;
    }
    forall x | x in followers ensures x in Sequences(actions) {
      var k :| 0 <= k < |followers| && followers[k] == x;
      assert actions[k] in actions;
    }
  }

  class NormalizePipeline {
    const rules: seq<NormalizeRule>
    const canon: string -> string

    constructor (rules: seq<NormalizeRule>, canon: string -> string)
      ensures this.rules == rules && this.canon == canon
    {
      this.rules := rules;
      this.canon := canon;
    }

    method ApplyRule(rule: NormalizeRule, action: Action, ctx: RuleContext) returns (r: Action)
      requires ctx.index < |ctx.actions|
      modifies ctx`coalesced
      ensures (r, ctx.coalesced) == Normalize(rule, canon, action, ctx.actions, ctx.index, old(ctx.coalesced))
    {
      match rule
      case TrimInputValue => r := Trim(action);
      case CoalesceInputBursts => r := CoalesceBursts(action, ctx);
      case CanonicalizeUrl => r := Canonicalize(action, canon);
    }

    /** Every action threaded through every rule; marks accumulate in the context along the way. */
    method Apply(actions: seq<Action>, ctx: RuleContext) returns (out: seq<Action>)
      requires ctx.actions == actions
      modifies ctx`index, ctx`coalesced
      ensures (out, ctx.coalesced) == Normalized(rules, canon, actions, |actions|, old(ctx.coalesced))
    {
      out := [];
      for i := 0 to |actions|
        invariant ctx.actions == actions
        invariant (out, ctx.coalesced) == Normalized(rules, canon, actions, i, old(ctx.coalesced))
      {
        ctx.index := i;
        var current := actions[i];
        ghost var before := ctx.coalesced;
        for r := 0 to |rules|
          invariant ctx.actions == actions && ctx.index == i
          invariant (current, ctx.coalesced) == Chain(rules, r, canon, actions[i], actions, i, before)
        {
          current := ApplyRule(rules[r], current, ctx);
        }
        out := out + [current];
      }
    }
  }

  // ----- classification -----

  datatype Intent =
    | Login | Search | FormFill | FormSubmit | Navigation | DataExtraction
    | Confirmation | DismissModal | Selection | Unknown

  datatype Verdict = Verdict(intent: Intent, confidence: real, reasoning: string, source: string)

  type ClassifyRule = (Action, seq<Action>, nat) -> Option<Verdict>

  const NO_RULE_MATCHED := Verdict(Unknown, 0.0, "no rule matched", "default")

  /** Candidate `k` is at least as confident as every other, and strictly more than the earlier ones. */
  ghost predicate IsEarliestBest(candidates: seq<Option<Verdict>>, k: nat) {
    && k < |candidates| && candidates[k].Some? && candidates[k].value.confidence > -1.0
    && forall j :: 0 <= j < |candidates| && candidates[j].Some? ==>
         && candidates[j].value.confidence <= candidates[k].value.confidence
         && (j < k ==> candidates[j].value.confidence < candidates[k].value.confidence)
  }

  /** The verdict is the earliest best candidate; the default only if none beats the floor of -1. */
  ghost predicate IsVerdictOf(candidates: seq<Option<Verdict>>, v: Verdict) {
    || (exists k: nat :: IsEarliestBest(candidates, k) && v == candidates[k].value)
    || (v == Verdict(Unknown, 0.0, "no rule matched", "default")
        && forall k :: 0 <= k < |candidates| && candidates[k].Some? ==> candidates[k].value.confidence <= -1.0)
  }

  function Candidates(rules: seq<ClassifyRule>, action: Action, actions: seq<Action>, index: nat): seq<Option<Verdict>> {
    seq(|rules|, r requires 0 <= r < |rules| => rules[r](action, actions, index))
  }

  method Classify(rules: seq<ClassifyRule>, action: Action, actions: seq<Action>, index: nat) returns (v: Verdict)
    ensures IsVerdictOf(Candidates(rules, action, actions, index), v)
  {
    ghost var candidates := Candidates(rules, action, actions, index);
    var best: Option<nat> := None;
    var bestConfidence := -1.0;
    v := NO_RULE_MATCHED;
    for r := 0 to |rules|
      invariant best.None? ==> bestConfidence == -1.0 && v == NO_RULE_MATCHED
      invariant best.Some? ==> best.value < r && candidates[best.value] == Some(v) && v.confidence == bestConfidence > -1.0
      invariant forall j :: 0 <= j < r && candidates[j].Some? ==>
                  && candidates[j].value.confidence <= bestConfidence
                  && (best.Some? && j < best.value ==> candidates[j].value.confidence < bestConfidence)
    {
      var candidate := rules[r](action, actions, index);
      if candidate.Some? && candidate.value.confidence > bestConfidence {
        best, bestConfidence, v := Some(r), candidate.value.confidence, candidate.value;
      }
    }
    if best.Some? {
      assert IsEarliestBest(candidates, best.value);
    }
  }

  class Engine {
    const filters: FilterPipeline
    const normalizers: NormalizePipeline
    const classifiers: seq<ClassifyRule>

    constructor (filters: FilterPipeline, normalizers: NormalizePipeline, classifiers: seq<ClassifyRule>)
      ensures this.filters == filters && this.normalizers == normalizers && this.classifiers == classifiers
    {
      this.filters := filters;
      this.normalizers := normalizers;
      this.classifiers := classifiers;
    }

    function Rules(): Ruleset {
      Ruleset(filters.rules, normalizers.rules, normalizers.canon)
    }

    /** The filter pass, the normalize pass and the second filter pass, each over the list the last one left. */
    method Clean(actions: seq<Action>, ctx: RuleContext) returns (cleaned: seq<Action>)
      requires ctx.actions == actions && ctx.coalesced.None?
      modifies ctx
      ensures cleaned == Cleaned(Rules(), actions) && ctx.actions == cleaned
    {
      var filtered := filters.Apply(actions, ctx);
      ctx.actions := filtered;
      var normalized := normalizers.Apply(filtered, ctx);
      ctx.actions := normalized;
      cleaned := filters.Apply(normalized, ctx);
      ctx.actions := cleaned;
    }

    /** One verdict for each action that survives the cleaning, computed against the cleaned list. */
    method Process(actions: seq<Action>) returns (results: seq<(Action, Verdict)>)
      ensures |results| == |Cleaned(Rules(), actions)|
      ensures forall i :: 0 <= i < |results| ==>
                var cleaned := Cleaned(Rules(), actions);
                && results[i].0 == cleaned[i]
                && IsVerdictOf(Candidates(classifiers, cleaned[i], cleaned, i), results[i].1)
    {
      var ctx := new RuleContext(actions);
      var cleaned := Clean(actions, ctx);
      results := [];
      for i := 0 to |cleaned|
        invariant |results| == i && ctx.actions == cleaned
        invariant forall k :: 0 <= k < i ==>
                    && results[k].0 == cleaned[k]
                    && IsVerdictOf(Candidates(classifiers, cleaned[k], cleaned, k), results[k].1)
      {
        ctx.index := i;
        var verdict := Classify(classifiers, cleaned[i], ctx.actions, ctx.index);
        results := results + [(cleaned[i], verdict)];
      }
    }
  }
}
