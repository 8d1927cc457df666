/**
 * When the whole pipeline leaves two equal navigations next to each other. The duplicate-navigate
 * filter looks one action back in the list of its own pass, so it misses a repeat whose gap only
 * that pass empties.
 */
module RepeatedVisits {
  import opened Common
  import opened Actions
  import opened HeuristicRules
  import opened Text
  import opened Bursts
  import opened Cleaning

  predicate SameVisit(a: Action, b: Action) {
    NavigateUrl(a).Some? && NavigateUrl(a) == NavigateUrl(b)
  }

  // ----- adjacent repeats in what a pass keeps -----

  /** The first kept position from `k` on, or the end of the list. */
  function FirstKept(flags: seq<bool>, k: nat): (j: nat)
    requires k <= |flags|
    ensures k <= j <= |flags| && (j < |flags| ==> flags[j])
    ensures forall p :: k <= p < j ==> !flags[p]
    decreases |flags| - k
  {
    if k == |flags| || flags[k] then k else FirstKept(flags, k + 1)
  }

  /** Two kept positions of the same URL with nothing kept between them. */
  ghost predicate Meet(xs: seq<Action>, flags: seq<bool>, i: nat, j: nat)
    requires |flags| == |xs|
  {
    i < j < |xs| && flags[i] && flags[j] && SameVisit(xs[i], xs[j]) && forall p :: i < p < j ==> !flags[p]
  }

  ghost predicate SomeMeet(xs: seq<Action>, flags: seq<bool>, k: nat)
    requires |flags| == |xs|
  {
    exists i: nat, j: nat :: k <= i && Meet(xs, flags, i, j)
  }

  lemma {:induction false} PickStep<T>(xs: seq<T>, flags: seq<bool>, k: nat)
    requires |flags| == |xs| && k < |xs|
    ensures Pick(xs[k..], flags[k..]) == (if flags[k] then [xs[k]] else []) + Pick(xs[k + 1..], flags[k + 1..])
  {
    assert xs[k..][1..] == xs[k + 1..] && flags[k..][1..] == flags[k + 1..];
  }

  lemma {:induction false} PickHead<T>(xs: seq<T>, flags: seq<bool>, k: nat)
    requires |flags| == |xs| && k <= |xs|
    ensures var s, h := Pick(xs[k..], flags[k..]), FirstKept(flags, k);
            (s == [] <==> h == |xs|) && (h < |xs| ==> s[0] == xs[h])
    decreases |xs| - k
  {
    if k < |xs| {
      PickHead(xs, flags, k + 1);
      PickStep(xs, flags, k);
    }
  }

  lemma {:induction false} NoRepeatsCons(head: Action, tail: seq<Action>)
    ensures NoRepeats([head] + tail) <==> NoRepeats(tail) && (tail == [] || !SameVisit(head, tail[0]))
  {
    var s := [head] + tail;
    if NoRepeats(s) {
      forall i | 0 <= i < |tail| ensures !IsRepeatedNavigate(tail, i) { assert !IsRepeatedNavigate(s, i + 1); }
      if tail != [] { assert !IsRepeatedNavigate(s, 1); }
    } else {
      var i :| 0 <= i < |s| && IsRepeatedNavigate(s, i);
      if i > 1 { assert IsRepeatedNavigate(tail, i - 1); }
    }
  }

  lemma {:induction false} MeetingsFrom(xs: seq<Action>, flags: seq<bool>, k: nat)
    requires |flags| == |xs| && k < |xs|
    ensures var h := FirstKept(flags, k + 1);
            SomeMeet(xs, flags, k) <==>
            SomeMeet(xs, flags, k + 1) || (flags[k] && h < |xs| && SameVisit(xs[k], xs[h]))
  {
    var h := FirstKept(flags, k + 1);
    if SomeMeet(xs, flags, k) {
      var i: nat, j: nat :| k <= i && Meet(xs, flags, i, j);
      if i == k { assert h == j; }
    }
    if flags[k] && h < |xs| && SameVisit(xs[k], xs[h]) { assert Meet(xs, flags, k, h); }
  }

  /** What is kept has an adjacent repeat exactly where two kept visits to one URL meet. */
  lemma {:induction false} RepeatsAreMeetings(xs: seq<Action>, flags: seq<bool>, k: nat)
    requires |flags| == |xs| && k <= |xs|
    ensures NoRepeats(Pick(xs[k..], flags[k..])) <==> !SomeMeet(xs, flags, k)
    decreases |xs| - k
  {
    if k < |xs| {
      RepeatsAreMeetings(xs, flags, k + 1);
      PickStep(xs, flags, k);
      PickHead(xs, flags, k + 1);
      MeetingsFrom(xs, flags, k);
      var tail := Pick(xs[k + 1..], flags[k + 1..]);
      if flags[k] { NoRepeatsCons(xs[k], tail); } else { assert [] + tail == tail; }
    }
  }

  // ----- what the second pass keeps -----

  /** An input emptied by trimming, or empty from the start, that no typing follows. */
  predicate IsStrayBlank(out: seq<Action>, k: nat)
    requires k < |out|
  {
    IsBlankInput(out[k]) && !HasFollowUp(out[k], out, k + 1)
  }

  /** Two visits to one URL with at least one action between them, and only stray blanks. */
  ghost predicate EmptiedGap(out: seq<Action>, i: nat, j: nat) {
    i + 1 < j < |out| && SameVisit(out[i], out[j]) && forall k :: i < k < j ==> IsStrayBlank(out, k)
  }

  /** The list `out` between the passes, and the flags of the second pass over it. */
  ghost predicate IsSecondPass(f: seq<Action>, out: seq<Action>, flags: seq<bool>) {
    && |out| == |f| == |flags|
    && (forall k :: 0 <= k < |f| ==> SameButPayload(f[k], out[k]))
    && (forall k :: 0 <= k < |f| ==>
          (flags[k] <==> !IsStrayBlank(out, k) && !IsRepeatedNavigate(out, k) && !Follows(f, k)))
    && (forall l :: 0 <= l < |f| && IsInput(f[l]) && !Follows(f, l) && RunEnd(f, l) > l + 1 ==> flags[l])
  }

  lemma {:induction false} SecondPassLaw(rules: Ruleset, actions: seq<Action>)
    requires IsDefault(rules) && DistinctSequences(actions)
    ensures var f := Filtered(rules.filters, actions, None);
            var (out, m) := Normalized(rules.normalizers, rules.canon, f, |f|, None);
            IsSecondPass(f, out, Verdicts(rules.filters, out, m))
  {
    var f := Filtered(rules.filters, actions, None);
    var (out, m) := Normalized(rules.normalizers, rules.canon, f, |f|, None);
    var flags := Verdicts(rules.filters, out, m);
    ThinsPick(actions, Verdicts(rules.filters, actions, None));
    ThinsKeepsDistinct(f, actions);
    NormalizePassMeaning(rules.canon, f);
    forall k | 0 <= k < |f|
      ensures SameButPayload(f[k], out[k])
      ensures flags[k] <==> !IsStrayBlank(out, k) && !IsRepeatedNavigate(out, k) && !Follows(f, k)
    {
      assert out[k] == NormalForm(f, k, rules.canon);
      FilteredEnabled(actions, None, f[k]);
      DefaultKeeps(out, k, m);
    }
    forall l | 0 <= l < |f| && IsInput(f[l]) && !Follows(f, l) && RunEnd(f, l) > l + 1 ensures flags[l] {
      FilteredEnabled(actions, None, f[l]);
      LeaderKept(rules.canon, f, out, l, m);
    }
  }

  lemma {:induction false} BurstIsInputs(f: seq<Action>, l: nat, k: nat)
    requires InBurst(f, l, k) && l < k
    ensures RunEnd(f, l) > l + 1 && forall p :: l <= p <= k ==> IsInput(f[p])
  {
    RunFollows(f, l);
    forall p | l <= p <= k ensures IsInput(f[p]) {
      assert Follows(f, if p == l then l + 1 else p);
    }
  }

  lemma {:induction false} FollowerHasKeptLeader(f: seq<Action>, out: seq<Action>, flags: seq<bool>, k: nat)
    returns (l: nat)
    requires IsSecondPass(f, out, flags) && k < |f| && Follows(f, k)
    ensures l < k && flags[l] && forall p :: l <= p <= k ==> IsInput(f[p])
  {
    l := BurstLeader(f, k);
    BurstIsInputs(f, l, k);
  }

  /** A burst after a visit has a kept leader after it too. */
  lemma {:induction false} NoFollowerBetween(f: seq<Action>, out: seq<Action>, flags: seq<bool>, i: nat, k: nat)
    requires IsSecondPass(f, out, flags) && i < k < |f| && NavigateUrl(out[i]).Some?
    requires forall p :: i < p <= k ==> !flags[p]
    ensures !Follows(f, k)
  {
    if Follows(f, k) {
      var l := FollowerHasKeptLeader(f, out, flags, k);
    }
  }

  lemma {:induction false} DroppedVisitRepeats(f: seq<Action>, out: seq<Action>, flags: seq<bool>, k: nat)
    requires IsSecondPass(f, out, flags) && k < |f| && NavigateUrl(out[k]).Some? && !flags[k]
    ensures IsRepeatedNavigate(out, k)
  {
    assert SameButPayload(f[k], out[k]);
  }

  /** While nothing is kept after the visit at `i`, every visit is to its URL. */
  lemma {:induction false} VisitsAgree(f: seq<Action>, out: seq<Action>, flags: seq<bool>, i: nat, k: nat)
    requires IsSecondPass(f, out, flags) && i <= k < |f|
    requires NavigateUrl(out[i]).Some? && NavigateUrl(out[k]).Some? && forall p :: i < p <= k ==> !flags[p]
    ensures SameVisit(out[i], out[k])
    decreases k
  {
    if i < k {
      DroppedVisitRepeats(f, out, flags, k);
      VisitsAgree(f, out, flags, i, k - 1);
    }
  }

  /** The last visit before `j`, given that there is one at `i`. */
  lemma {:induction false} LastVisit(out: seq<Action>, i: nat, j: nat) returns (v: nat)
    requires i < j <= |out| && NavigateUrl(out[i]).Some?
    ensures i <= v < j && NavigateUrl(out[v]).Some? && forall k :: v < k < j ==> NavigateUrl(out[k]).None?
    decreases j
  {
    if NavigateUrl(out[j - 1]).Some? { v := j - 1; } else { v := LastVisit(out, i, j - 1); }
  }

  lemma {:induction false} MeetingEmptiesGap(f: seq<Action>, out: seq<Action>, flags: seq<bool>, i: nat, j: nat)
    returns (v: nat)
    requires IsSecondPass(f, out, flags) && Meet(out, flags, i, j)
    ensures EmptiedGap(out, v, j)
  {
    v := LastVisit(out, i, j);
    VisitsAgree(f, out, flags, i, v);
    assert !IsRepeatedNavigate(out, j);
    forall k | v < k < j ensures IsStrayBlank(out, k) {
      NoFollowerBetween(f, out, flags, i, k);
      assert !flags[k] && !IsRepeatedNavigate(out, k);
    }
  }

  /** The kept head of the run of repeats that ends at `i`. */
  lemma {:induction false} KeptHead(f: seq<Action>, out: seq<Action>, flags: seq<bool>, i: nat) returns (h: nat)
    requires IsSecondPass(f, out, flags) && i < |f| && NavigateUrl(out[i]).Some?
    ensures h <= i && flags[h] && SameVisit(out[h], out[i]) && forall p :: h < p <= i ==> !flags[p]
  {
    if IsRepeatedNavigate(out, i) { h := KeptHead(f, out, flags, i - 1); } else { h := i; }
  }

  lemma {:induction false} EmptiedGapMeets(f: seq<Action>, out: seq<Action>, flags: seq<bool>, i: nat, j: nat)
    returns (h: nat)
    requires IsSecondPass(f, out, flags) && EmptiedGap(out, i, j)
    ensures Meet(out, flags, h, j)
  {
    h := KeptHead(f, out, flags, i);
    assert IsStrayBlank(out, j - 1);
    forall p | h < p < j ensures !flags[p] {
      if p > i { assert IsStrayBlank(out, p); }
    }
  }

  ghost predicate SomeEmptiedGap(out: seq<Action>) {
    exists i: nat, j: nat :: EmptiedGap(out, i, j)
  }

  /**
   * The pipeline leaves two equal navigations next to each other exactly when the list between its
   * two filter passes has two visits to one URL with something between them, and nothing but stray
   * blank inputs.
   */
  lemma {:induction false} RepeatsRemainIff(rules: Ruleset, actions: seq<Action>)
    requires IsDefault(rules) && DistinctSequences(actions)
    ensures var f := Filtered(rules.filters, actions, None);
            var out := Normalized(rules.normalizers, rules.canon, f, |f|, None).0;
            !NoRepeats(Cleaned(rules, actions)) <==> SomeEmptiedGap(out)
  {
    var f := Filtered(rules.filters, actions, None);
    var (out, m) := Normalized(rules.normalizers, rules.canon, f, |f|, None);
    var flags := Verdicts(rules.filters, out, m);
    SecondPassLaw(rules, actions);
    RepeatsAreMeetings(out, flags, 0);
    assert out[0..] == out && flags[0..] == flags;
    if SomeMeet(out, flags, 0) {
      var i: nat, j: nat :| Meet(out, flags, i, j);
      var v := MeetingEmptiesGap(f, out, flags, i, j);
    }
    if SomeEmptiedGap(out) {
      var i: nat, j: nat :| EmptiedGap(out, i, j);
      var h := EmptiedGapMeets(f, out, flags, i, j);
      assert Meet(out, flags, h, j);
    }
  }

  // ----- an example -----

  /** Two visits to one page with an input of spaces between them, all enabled. */
  ghost predicate IsInterruptedVisit(actions: seq<Action>) {
    && |actions| == 3 && DistinctSequences(actions) && (forall i :: 0 <= i < 3 ==> !IsDisabled(actions[i]))
    && actions[0].actionType.Navigate? && actions[0].payload.NavigatePayload?
    && actions[2].actionType.Navigate? && actions[2].payload == actions[0].payload
    && IsInput(actions[1]) && !actions[1].payload.isSensitive && actions[1].payload.value == " "
  }

  lemma {:induction false} InterruptedVisitPassesFirst(actions: seq<Action>)
    requires IsInterruptedVisit(actions)
    ensures Filtered(DEFAULT_FILTERS, actions, None) == actions
  {
    forall i | 0 <= i < 3 ensures Verdicts(DEFAULT_FILTERS, actions, None)[i] {
      DefaultKeeps(actions, i, None);
    }
    PickAll(actions, Verdicts(DEFAULT_FILTERS, actions, None));
  }

  /** An action with no burst around it is only trimmed and canonicalized. */
  lemma {:induction false} LoneForm(canon: string -> string, actions: seq<Action>, i: nat)
    requires i < |actions| && !Follows(actions, i) && (i + 1 < |actions| ==> !Follows(actions, i + 1))
    ensures NormalForm(actions, i, canon) == Canonicalize(Trim(actions[i]), canon)
  {
    MergeOfRun(canon, actions, i);
  }

  lemma {:induction false} InterruptedVisitNormalized(canon: string -> string, actions: seq<Action>)
    requires IsInterruptedVisit(actions)
    ensures var (out, m) := Normalized(DEFAULT_NORMALIZERS, canon, actions, 3, None);
            && out[0] == Canonicalize(actions[0], canon) && out[2] == Canonicalize(actions[2], canon)
            && out[1] == WithValue(actions[1], "")
            && (forall i :: 0 <= i < 3 ==> actions[i].sequence !in Marked(m))
  {
    NormalizePassMeaning(canon, actions);
    LoneForm(canon, actions, 0);
    LoneForm(canon, actions, 1);
    LoneForm(canon, actions, 2);
    StripEmptiesBlanks(" ");
  }

  /** Visiting, typing only spaces, visiting again: each pass alone is right, together they leave the repeat. */
  lemma {:induction false} PipelineCanLeaveRepeats(rules: Ruleset, actions: seq<Action>)
    requires IsDefault(rules) && IsInterruptedVisit(actions)
    ensures !NoRepeats(Cleaned(rules, actions))
  {
    InterruptedVisitPassesFirst(actions);
    InterruptedVisitNormalized(rules.canon, actions);
    var out := Normalized(rules.normalizers, rules.canon, actions, 3, None).0;
    assert EmptiedGap(out, 0, 2) by { assert !HasFollowUp(out[1], out, 2); }
    RepeatsRemainIff(rules, actions);
  }
}
