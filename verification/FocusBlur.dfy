/** When running the focus/blur filter once is enough: dropping an empty input can strand the one before it. */
module FocusBlur {
  import opened Common
  import opened Actions
  import opened HeuristicRules
  import opened Bursts
  import opened Cleaning

  const RULE: seq<FilterRule> := [DropFocusBlurOnly]

  /** What the filter looks for: the nearest later INPUT on the same selector, or the end of the list. */
  function Next(action: Action, actions: seq<Action>, from: nat): (j: nat)
    requires from <= |actions|
    ensures from <= j <= |actions|
    ensures j < |actions| ==> IsNext(action, actions[j])
    ensures forall k :: from <= k < j ==> !IsNext(action, actions[k])
    decreases |actions| - from
  {
    if from == |actions| || IsNext(action, actions[from]) then from else Next(action, actions, from + 1)
  }

  predicate IsNext(action: Action, later: Action) {
    later.actionType.Input? && later.selector == action.selector
  }

  predicate Near(action: Action, later: Action) {
    later.timestamp - action.timestamp <= FOLLOWUP_WINDOW
  }

  predicate IsKept(actions: seq<Action>, i: nat)
    requires i < |actions|
  {
    Keeps(DropFocusBlurOnly, actions, i, None)
  }

  lemma {:induction false} FollowUpIsNext(action: Action, actions: seq<Action>, from: nat)
    requires from <= |actions|
    ensures var j := Next(action, actions, from);
            HasFollowUp(action, actions, from) <==> j < |actions| && Near(action, actions[j])
    decreases |actions| - from
  {
    if from < |actions| && !IsNext(action, actions[from]) { FollowUpIsNext(action, actions, from + 1); }
  }

  lemma {:induction false} FollowUpShift(action: Action, head: Action, tail: seq<Action>, from: nat)
    ensures HasFollowUp(action, [head] + tail, from + 1) == HasFollowUp(action, tail, from)
    decreases |tail| - from
  {
    if from < |tail| { FollowUpShift(action, head, tail, from + 1); }
  }

  /** Every element of `s` passes the filter, read against `s` itself. */
  predicate Stable(s: seq<Action>) {
    s == [] || ((IsBlankInput(s[0]) ==> HasFollowUp(s[0], s[1..], 0)) && Stable(s[1..]))
  }

  lemma {:induction false} StableMeansKept(s: seq<Action>, i: nat)
    requires Stable(s) && i < |s|
    ensures IsKept(s, i)
  {
    assert s == [s[0]] + s[1..];
    if i == 0 {
      FollowUpShift(s[0], s[0], s[1..], 0);
    } else {
      StableMeansKept(s[1..], i - 1);
      FollowUpShift(s[i], s[0], s[1..], i);
    }
  }

  lemma {:induction false} KeptMeansStable(s: seq<Action>)
    requires forall i :: 0 <= i < |s| ==> IsKept(s, i)
    ensures Stable(s)
  {
    if s != [] {
      var tail := s[1..];
      assert s == [s[0]] + tail;
      assert IsKept(s, 0);
      FollowUpShift(s[0], s[0], tail, 0);
      forall i | 0 <= i < |tail| ensures IsKept(tail, i) {
        assert IsKept(s, i + 1);
        FollowUpShift(tail[i], s[0], tail, i + 1);
      }
      KeptMeansStable(tail);
    }
  }

  /** What one pass leaves of the actions from `k` on. */
  function Rest(actions: seq<Action>, k: nat): seq<Action>
    requires k <= |actions|
    decreases |actions| - k
  {
    if k == |actions| then []
    else if IsKept(actions, k) then [actions[k]] + Rest(actions, k + 1)
    else Rest(actions, k + 1)
  }

  lemma {:induction false} RestIsPass(actions: seq<Action>, k: nat)
    requires k <= |actions|
    ensures Pick(actions[k..], Verdicts(RULE, actions, None)[k..]) == Rest(actions, k)
    decreases |actions| - k
  {
    if k < |actions| {
      RestIsPass(actions, k + 1);
      SingleRule(DropFocusBlurOnly, actions, k, None);
      var flags := Verdicts(RULE, actions, None);
      assert actions[k..][1..] == actions[k + 1..] && flags[k..][1..] == flags[k + 1..];
    }
  }

  /** The nearest later INPUT on the same selector that the filter keeps, or the end of the list. */
  function NextKept(action: Action, actions: seq<Action>, from: nat): (j: nat)
    requires from <= |actions|
    ensures from <= j <= |actions|
    ensures j < |actions| ==> IsNext(action, actions[j]) && IsKept(actions, j)
    ensures forall k :: from <= k < j ==> !(IsNext(action, actions[k]) && IsKept(actions, k))
    decreases |actions| - from
  {
    if from == |actions| || (IsNext(action, actions[from]) && IsKept(actions, from)) then from
    else NextKept(action, actions, from + 1)
  }

  predicate KeptNear(action: Action, actions: seq<Action>, from: nat)
    requires from <= |actions|
  {
    var j := NextKept(action, actions, from);
    j < |actions| && Near(action, actions[j])
  }

  /** After a pass the look-ahead sees the kept inputs only. */
  lemma {:induction false} FollowUpAfterPass(action: Action, actions: seq<Action>, k: nat)
    requires k <= |actions|
    ensures HasFollowUp(action, Rest(actions, k), 0) <==> KeptNear(action, actions, k)
    decreases |actions| - k
  {
    if k < |actions| {
      FollowUpAfterPass(action, actions, k + 1);
      if IsKept(actions, k) { FollowUpShift(action, actions[k], Rest(actions, k + 1), 0); }
    }
  }

  /** Every kept empty input from `k` on still has what it was kept for once the pass is over. */
  ghost predicate StillFollowed(actions: seq<Action>, k: nat) {
    forall i :: k <= i < |actions| && IsBlankInput(actions[i]) && IsKept(actions, i) ==>
      KeptNear(actions[i], actions, i + 1)
  }

  lemma {:induction false} RestIsStableIff(actions: seq<Action>, k: nat)
    requires k <= |actions|
    ensures Stable(Rest(actions, k)) <==> StillFollowed(actions, k)
    decreases |actions| - k
  {
    if k < |actions| {
      RestIsStableIff(actions, k + 1);
      FollowUpAfterPass(actions[k], actions, k + 1);
      var tail := Rest(actions, k + 1);
      assert ([actions[k]] + tail)[1..] == tail;
    }
  }

  ghost predicate IsFixpoint(s: seq<Action>) {
    Filtered(RULE, s, None) == s
  }

  lemma {:induction false} PickDrops<T>(s: seq<T>, f: seq<bool>, i: nat)
    requires |s| == |f| && i < |f| && !f[i]
    ensures |Pick(s, f)| < |s|
  {
    if i > 0 { PickDrops(s[1..], f[1..], i - 1); }
  }

  lemma {:induction false} FixpointIsStable(s: seq<Action>)
    ensures IsFixpoint(s) <==> Stable(s)
  {
    var flags := Verdicts(RULE, s, None);
    forall i | 0 <= i < |s| ensures flags[i] == IsKept(s, i) { SingleRule(DropFocusBlurOnly, s, i, None); }
    if Stable(s) {
      forall i | 0 <= i < |s| ensures flags[i] { StableMeansKept(s, i); }
      PickAll(s, flags);
    }
    if IsFixpoint(s) {
      forall i | 0 <= i < |s| ensures IsKept(s, i) {
        if !flags[i] { PickDrops(s, flags, i); }
      }
      KeptMeansStable(s);
    }
  }

  /**
   * One pass is enough exactly when every empty input it keeps has, within the window, a next input
   * on its selector among those it keeps.
   */
  lemma {:induction false} OnePassIsEnoughIff(actions: seq<Action>)
    ensures IsFixpoint(Filtered(RULE, actions, None)) <==> StillFollowed(actions, 0)
  {
    RestIsPass(actions, 0);
    assert actions[0..] == actions && Verdicts(RULE, actions, None)[0..] == Verdicts(RULE, actions, None);
    FixpointIsStable(Rest(actions, 0));
    RestIsStableIff(actions, 0);
  }

  // ----- the condition on the inputs alone -----

  /** An empty input was kept for the sake of an empty input that is itself dropped. */
  ghost predicate Stranded(actions: seq<Action>, i: nat)
    requires i < |actions|
  {
    && IsBlankInput(actions[i]) && IsKept(actions, i)
    && var j := Next(actions[i], actions, i + 1); j < |actions| && !IsKept(actions, j)
  }

  ghost predicate NoneStranded(actions: seq<Action>) {
    forall i :: 0 <= i < |actions| ==> !Stranded(actions, i)
  }

  ghost predicate TimeOrdered(actions: seq<Action>) {
    forall i, j :: 0 <= i < j < |actions| ==> actions[i].timestamp <= actions[j].timestamp
  }

  lemma {:induction false} NextIsNextKept(action: Action, actions: seq<Action>, from: nat)
    requires from <= |actions|
    ensures var j := Next(action, actions, from);
            j == |actions| || IsKept(actions, j) ==> NextKept(action, actions, from) == j
  {
  }

  /** Whatever the order of the timestamps, a list that strands no empty input needs one pass only. */
  lemma {:induction false} OnePassIsEnough(actions: seq<Action>)
    requires NoneStranded(actions)
    ensures IsFixpoint(Filtered(RULE, actions, None))
  {
    forall i | 0 <= i < |actions| && IsBlankInput(actions[i]) && IsKept(actions, i)
      ensures KeptNear(actions[i], actions, i + 1)
    {
      assert !Stranded(actions, i);
      FollowUpIsNext(actions[i], actions, i + 1);
      NextIsNextKept(actions[i], actions, i + 1);
    }
    OnePassIsEnoughIff(actions);
  }

  /** In time order a stranded input has no later input within the window. */
  lemma {:induction false} StrandedInTimeOrder(actions: seq<Action>, i: nat)
    requires i < |actions| && TimeOrdered(actions) && Stranded(actions, i)
    ensures !KeptNear(actions[i], actions, i + 1)
  {
    var j, m := Next(actions[i], actions, i + 1), NextKept(actions[i], actions, i + 1);
    FollowUpIsNext(actions[j], actions, j + 1);
    var n := Next(actions[j], actions, j + 1);
    if m < |actions| {
      assert IsNext(actions[j], actions[m]) && j < m && n <= m;
      assert actions[n].timestamp <= actions[m].timestamp;
    }
  }

  /** On a list in time order one pass is enough exactly when no empty input is stranded. */
  lemma {:induction false} OnePassInTimeOrder(actions: seq<Action>)
    requires TimeOrdered(actions)
    ensures IsFixpoint(Filtered(RULE, actions, None)) <==> NoneStranded(actions)
  {
    if NoneStranded(actions) {
      OnePassIsEnough(actions);
    } else {
      var i :| 0 <= i < |actions| && Stranded(actions, i);
      StrandedInTimeOrder(actions, i);
      OnePassIsEnoughIff(actions);
    }
  }

  /** Two empty inputs a second apart: the first is kept for the second's sake, and a second pass drops it. */
  lemma {:induction false} ChainedEmptyInputsAreStranded(a: Action, b: Action)
    requires IsBlankInput(a) && IsBlankInput(b) && b.selector == a.selector && b.timestamp == a.timestamp + 1_000_000
    ensures Stranded([a, b], 0) && !IsFixpoint(Filtered(RULE, [a, b], None))
  {
    var actions := [a, b];
    assert IsNext(a, actions[1]);
    assert !IsKept(actions, 1);
    assert Next(a, actions, 1) == 1;
    FollowUpIsNext(a, actions, 1);
    assert Stranded(actions, 0);
    OnePassInTimeOrder(actions);
  }

  /** Out of time order a stranded input can be saved by a later one: `c` is too late for `b`, not for `a`. */
  lemma {:induction false} StrandedYetSaved(a: Action, b: Action, c: Action)
    requires IsBlankInput(a) && IsBlankInput(b) && IsInput(c) && !IsBlankInput(c)
    requires a.selector == b.selector == c.selector
    requires b.timestamp == a.timestamp - 1_000_000 && c.timestamp == a.timestamp + 1_500_000
    ensures Stranded([a, b, c], 0) && IsFixpoint(Filtered(RULE, [a, b, c], None))
  {
    var actions := [a, b, c];
    FollowUpIsNext(a, actions, 1);
    FollowUpIsNext(b, actions, 2);
    assert IsNext(a, actions[1]) && IsNext(a, actions[2]) && IsNext(b, actions[2]);
    assert IsKept(actions, 0) && !IsKept(actions, 1) && IsKept(actions, 2);
    assert NextKept(a, actions, 1) == 2;
    OnePassIsEnoughIff(actions);
  }
}
