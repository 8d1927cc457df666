/** The filter and normalize rules of the heuristic tier, one predicate or function a rule. */
module HeuristicRules {
  import opened Common
  import opened Actions
  import opened Text

  const FOLLOWUP_WINDOW := 2_000_000  // 2000 ms
  const BURST_GAP := 200_000          // 200 ms

  /** `ctx.scratch["coalesced_indexes"]`: absent until the coalescing rule first needs it. */
  type Marks = Option<set<int>>

  function Marked(marks: Marks): set<int> {
    if marks.Some? then marks.value else {}
  }

  // ----- filters: each looks at actions[i] in its list and says whether to keep it -----

  datatype FilterRule = DropFocusBlurOnly | DropDuplicateNavigate | DropDisabledTarget | DropCoalescedFollowers

  const DEFAULT_FILTERS: seq<FilterRule> :=
    [DropFocusBlurOnly, DropDuplicateNavigate, DropDisabledTarget, DropCoalescedFollowers]

  /** The nearest later INPUT on the same selector, if any, lies within the follow-up window. */
  predicate HasFollowUp(action: Action, actions: seq<Action>, from: nat)
    decreases |actions| - from
  {
    if from >= |actions| then false
    else if !actions[from].actionType.Input? || actions[from].selector != action.selector then
      HasFollowUp(action, actions, from + 1)
    else actions[from].timestamp - action.timestamp <= FOLLOWUP_WINDOW
  }

  predicate IsBlankInput(a: Action) {
    IsInput(a) && a.payload.value == ""
  }

  function NavigateUrl(a: Action): Option<string> {
    if !a.actionType.Navigate? then None
    else match a.payload
      case NavigatePayload(url) => Some(url)
      case RawPayload(rawUrl, _, _) => rawUrl
      case _ => None
  }

  predicate IsRepeatedNavigate(actions: seq<Action>, i: nat)
    requires i < |actions|
  {
    i > 0 && NavigateUrl(actions[i]).Some? && NavigateUrl(actions[i - 1]) == NavigateUrl(actions[i])
  }

  predicate IsDisabled(a: Action) {
    a.context.Some? && !a.context.value.isEnabled
  }

  predicate Keeps(rule: FilterRule, actions: seq<Action>, i: nat, marks: Marks)
    requires i < |actions|
  {
    match rule
    case DropFocusBlurOnly => IsBlankInput(actions[i]) ==> HasFollowUp(actions[i], actions, i + 1)
    case DropDuplicateNavigate => !IsRepeatedNavigate(actions, i)
    case DropDisabledTarget => !IsDisabled(actions[i])
    case DropCoalescedFollowers => actions[i].sequence !in Marked(marks)
  }

  predicate KeepsAll(rules: seq<FilterRule>, actions: seq<Action>, i: nat, marks: Marks)
    requires i < |actions|
  {
    forall rule :: rule in rules ==> Keeps(rule, actions, i, marks)
  }

  /** One keep flag an action: the filter pass keeps `Pick(actions, Verdicts(...))`. */
  function Verdicts(rules: seq<FilterRule>, actions: seq<Action>, marks: Marks): (flags: seq<bool>)
    ensures |flags| == |actions|
    ensures forall i :: 0 <= i < |actions| ==> flags[i] == KeepsAll(rules, actions, i, marks)
  {
    seq(|actions|, i requires 0 <= i < |actions| => KeepsAll(rules, actions, i, marks))
  }

  function Filtered(rules: seq<FilterRule>, actions: seq<Action>, marks: Marks): seq<Action> {
    Pick(actions, Verdicts(rules, actions, marks))
  }

  // ----- normalizers -----

  datatype NormalizeRule = TrimInputValue | CoalesceInputBursts | CanonicalizeUrl

  const DEFAULT_NORMALIZERS: seq<NormalizeRule> := [TrimInputValue, CoalesceInputBursts, CanonicalizeUrl]

  /** Sensitive values are left exactly as typed; of any other typed value the outer whitespace goes. */
  function Trim(a: Action): (b: Action)
    ensures SameButPayload(a, b)
    ensures IsInput(a) && !a.payload.isSensitive ==> b.payload.value == Strip(a.payload.value)
    ensures !IsInput(a) || a.payload.isSensitive ==> b == a
  {
    if IsInput(a) && !a.payload.isSensitive then WithValue(a, Strip(a.payload.value)) else a
  }

  /** `canon` stands for the URL library's canonical form. */
  function Canonicalize(a: Action, canon: string -> string): (b: Action)
    ensures SameButPayload(a, b)
  {
    if a.actionType.Navigate? && a.payload.NavigatePayload?
    then a.(payload := a.payload.(url := canon(a.payload.url))) else a
  }

  /** Where the scan that starts after `action` stops: the first index past its rapid followers. */
  function ScanEnd(action: Action, actions: seq<Action>, prevTs: int, i: nat): (e: nat)
    ensures i <= e && (i <= |actions| ==> e <= |actions|)
    ensures i < e <= |actions| ==> IsInput(actions[e - 1])
    decreases |actions| - i
  {
    if i < |actions| && IsInput(actions[i]) && actions[i].selector == action.selector
       && actions[i].timestamp - prevTs <= BURST_GAP
    then ScanEnd(action, actions, actions[i].timestamp, i + 1)
    else i
  }

  function Sequences(actions: seq<Action>): set<int> {
    set a | a in actions :: a.sequence
  }

  /** The coalescing rule as one function: the action it returns and the marks it leaves in scratch. */
  function Coalesce(action: Action, actions: seq<Action>, index: nat, marks: Marks): (Action, Marks)
    requires index < |actions|
  {
    if !IsInput(action) then (action, marks)
    else if action.sequence in Marked(marks) then (action, Some(Marked(marks)))
    else
      var e := ScanEnd(action, actions, action.timestamp, index + 1);
      if e == index + 1 then (action, Some(Marked(marks)))
      else (WithValue(action, actions[e - 1].payload.value),
            Some(Marked(marks) + Sequences(actions[index + 1..e])))
  }

  function Normalize(rule: NormalizeRule, canon: string -> string, action: Action,
                     actions: seq<Action>, index: nat, marks: Marks): (Action, Marks)
    requires index < |actions|
  {
    match rule
    case TrimInputValue => (Trim(action), marks)
    case CoalesceInputBursts => Coalesce(action, actions, index, marks)
    case CanonicalizeUrl => (Canonicalize(action, canon), marks)
  }

  /** One action threaded through the first `k` rules in order. */
  function Chain(rules: seq<NormalizeRule>, k: nat, canon: string -> string, action: Action,
                 actions: seq<Action>, index: nat, marks: Marks): (Action, Marks)
    requires k <= |rules| && index < |actions|
    decreases k, index
  {
    if k == 0 then (action, marks)
    else
      var (current, m) := Chain(rules, k - 1, canon, action, actions, index, marks);
      Normalize(rules[k - 1], canon, current, actions, index, m)
  }

  /** The first `n` actions through the normalize pass, and the scratch marks left behind. */
  function Normalized(rules: seq<NormalizeRule>, canon: string -> string,
                      actions: seq<Action>, n: nat, marks: Marks): (r: (seq<Action>, Marks))
    requires n <= |actions|
    ensures |r.0| == n
  {
    if n == 0 then ([], marks)
    else
      var (out, m) := Normalized(rules, canon, actions, n - 1, marks);
      var (a, m') := Chain(rules, |rules|, canon, actions[n - 1], actions, n - 1, m);
      (out + [a], m')
  }

  // ----- the whole cleaning pipeline: filter, normalize, filter again -----

  datatype Ruleset = Ruleset(filters: seq<FilterRule>, normalizers: seq<NormalizeRule>, canon: string -> string)

  function Cleaned(rules: Ruleset, actions: seq<Action>): seq<Action> {
    var filtered := Filtered(rules.filters, actions, None);
    var (normalized, marks) := Normalized(rules.normalizers, rules.canon, filtered, |filtered|, None);
    Filtered(rules.filters, normalized, marks)
  }
}
