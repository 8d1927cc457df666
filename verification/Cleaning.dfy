/** What the whole filter, normalize, filter pipeline keeps: typed input is never lost. */
module Cleaning {
  import opened Common
  import opened Actions
  import opened HeuristicRules
  import opened Text
  import opened Bursts

  ghost predicate IsDefault(rules: Ruleset) {
    rules.filters == DEFAULT_FILTERS && rules.normalizers == DEFAULT_NORMALIZERS
  }

  /** The element was not reported disabled. */
  ghost predicate IsUsable(a: Action) {
    a.context.None? || a.context.value.isEnabled
  }

  ghost predicate HasTypedValue(a: Action) {
    a.actionType.Input? && a.payload.InputPayload?
  }

  /** The value says something: a sensitive one is never trimmed, of any other one some character is no whitespace. */
  ghost predicate HasText(a: Action)
    requires HasTypedValue(a)
  {
    var value := a.payload.value;
    if a.payload.isSensitive then value != "" else exists k :: 0 <= k < |value| && !IsSpace(value[k])
  }

  /** An INPUT with text, on an element that was not reported disabled. */
  ghost predicate IsTyped(a: Action) {
    HasTypedValue(a) && HasText(a) && IsUsable(a)
  }

  lemma {:induction false} TypedIsNotEmptied(a: Action)
    requires HasTypedValue(a)
    ensures IsInput(a) && (HasText(a) <==> Trim(a).payload.value != "")
    ensures HasText(a) ==> a.payload.value != ""
  {
    StripEmptiesBlanks(a.payload.value);
  }

  /** Position `j` is in the burst that starts at `leader`. */
  ghost predicate InBurst(actions: seq<Action>, leader: nat, j: nat) {
    leader <= j < |actions| && !Follows(actions, leader) && j < RunEnd(actions, leader)
  }

  lemma {:induction false} DefaultKeeps(actions: seq<Action>, i: nat, marks: Marks)
    requires i < |actions|
    ensures KeepsAll(DEFAULT_FILTERS, actions, i, marks) <==>
            && Keeps(DropFocusBlurOnly, actions, i, marks) && Keeps(DropDuplicateNavigate, actions, i, marks)
            && Keeps(DropDisabledTarget, actions, i, marks) && Keeps(DropCoalescedFollowers, actions, i, marks)
  {
    var r := DEFAULT_FILTERS;
    assert r[0] == DropFocusBlurOnly && r[1] == DropDuplicateNavigate;
    assert r[2] == DropDisabledTarget && r[3] == DropCoalescedFollowers;
  }

  /** The first pass drops no typed input and leaves nothing disabled. */
  lemma {:induction false} FirstPass(actions: seq<Action>, i: nat)
    requires i < |actions| && IsTyped(actions[i])
    ensures actions[i] in Filtered(DEFAULT_FILTERS, actions, None)
  {
    TypedIsNotEmptied(actions[i]);
    DefaultKeeps(actions, i, None);
    PickMembers(actions, Verdicts(DEFAULT_FILTERS, actions, None));
  }

  lemma {:induction false} FilteredEnabled(actions: seq<Action>, marks: Marks, a: Action)
    requires a in Filtered(DEFAULT_FILTERS, actions, marks)
    ensures IsUsable(a)
  {
    var flags := Verdicts(DEFAULT_FILTERS, actions, marks);
    PickMembers(actions, flags);
    var i :| 0 <= i < |actions| && flags[i] && actions[i] == a;
    DefaultKeeps(actions, i, marks);
  }

  lemma {:induction false} BurstLeader(actions: seq<Action>, j: nat) returns (leader: nat)
    requires j < |actions|
    ensures InBurst(actions, leader, j) && RunEnd(actions, leader) == RunEnd(actions, j)
  {
    if Follows(actions, j) {
      leader := BurstLeader(actions, j - 1);
    } else {
      leader := j;
    }
  }

  /** A normalized burst leader has text of its own, or a follower right behind it. */
  lemma {:induction false} LeaderKept(canon: string -> string, f: seq<Action>, out: seq<Action>, l: nat, marks: Marks)
    requires |out| == |f| && l < |f| && HasTypedValue(f[l]) && IsUsable(f[l]) && !Follows(f, l)
    requires forall i :: 0 <= i < |f| ==> out[i] == NormalForm(f, i, canon)
    requires f[l].sequence !in Marked(marks)
    requires RunEnd(f, l) > l + 1 || HasText(f[l])
    ensures KeepsAll(DEFAULT_FILTERS, out, l, marks)
  {
    DefaultKeeps(out, l, marks);
    MergeOfRun(canon, f, l);
    TypedIsNotEmptied(f[l]);
    assert out[l] == NormalForm(f, l, canon);
    if RunEnd(f, l) > l + 1 {
      RunFollows(f, l);
      assert Follows(f, l + 1);
      assert out[l + 1] == NormalForm(f, l + 1, canon);
      assert HasFollowUp(out[l], out, l + 1);
    } else {
      assert out[l] == Trim(f[l]);
    }
  }

  /** `a` is represented in the output: by itself, or by the leader of the burst it belongs to. */
  ghost predicate Represented(rules: Ruleset, actions: seq<Action>, a: Action) {
    var filtered := Filtered(rules.filters, actions, None);
    exists leader: nat, j: nat :: InBurst(filtered, leader, j) && filtered[j] == a
                     && NormalForm(filtered, leader, rules.canon) in Cleaned(rules, actions)
  }

  lemma {:induction false} SurvivesSecondPass(rules: Ruleset, f: seq<Action>, l: nat)
    requires IsDefault(rules) && DistinctSequences(f) && l < |f|
    requires HasTypedValue(f[l]) && IsUsable(f[l]) && !Follows(f, l)
    requires RunEnd(f, l) > l + 1 || HasText(f[l])
    ensures var (out, m) := Normalized(rules.normalizers, rules.canon, f, |f|, None);
            NormalForm(f, l, rules.canon) in Filtered(rules.filters, out, m)
  {
    var (out, m) := Normalized(rules.normalizers, rules.canon, f, |f|, None);
    NormalizePassMeaning(rules.canon, f);
    LeaderKept(rules.canon, f, out, l, m);
    PickMembers(out, Verdicts(rules.filters, out, m));
    assert out[l] == NormalForm(f, l, rules.canon);
  }

  /** Typed input is never lost through the three cleaning passes. */
  lemma {:induction false} TypedInputIsNeverLost(rules: Ruleset, actions: seq<Action>, i: nat)
    requires IsDefault(rules) && DistinctSequences(actions)
    requires i < |actions| && IsTyped(actions[i])
    ensures Represented(rules, actions, actions[i])
  {
    var f := Filtered(rules.filters, actions, None);
    FirstPass(actions, i);
    var j :| 0 <= j < |f| && f[j] == actions[i];
    var l := BurstLeader(f, j);
    ThinsPick(actions, Verdicts(rules.filters, actions, None));
    ThinsKeepsDistinct(f, actions);
    FilteredEnabled(actions, None, f[l]);
    if l < j {
      RunFollows(f, l);
      assert Follows(f, l + 1);
    }
    SurvivesSecondPass(rules, f, l);
    assert InBurst(f, l, j) && f[j] == actions[i];
  }

  lemma {:induction false} NormalizePassIsPointwise(rules: seq<NormalizeRule>, canon: string -> string,
                                                    actions: seq<Action>, n: nat, marks: Marks)
    requires n <= |actions|
    ensures var out := Normalized(rules, canon, actions, n, marks).0;
            forall i :: 0 <= i < n ==> SameButPayload(actions[i], out[i])
  {
    if n > 0 {
      NormalizePassIsPointwise(rules, canon, actions, n - 1, marks);
      ChainKeepsIdentity(rules, |rules|, canon, actions[n - 1], actions, n - 1,
                         Normalized(rules, canon, actions, n - 1, marks).1);
    }
  }

  lemma {:induction false} ChainKeepsIdentity(rules: seq<NormalizeRule>, k: nat, canon: string -> string,
        action: Action,
                                              actions: seq<Action>, index: nat, marks: Marks)
    requires k <= |rules| && index < |actions|
    ensures SameButPayload(action, Chain(rules, k, canon, action, actions, index, marks).0)
    decreases k
  {
    if k > 0 {
      ChainKeepsIdentity(rules, k - 1, canon, action, actions, index, marks);
    }
  }

  /** Whatever the rules, cleaning only removes actions and rewrites payloads: order and identity stay. */
  lemma {:induction false} CleaningThins(rules: Ruleset, actions: seq<Action>)
    ensures Thins(Cleaned(rules, actions), actions)
  {
    var f := Filtered(rules.filters, actions, None);
    var (out, m) := Normalized(rules.normalizers, rules.canon, f, |f|, None);
    ThinsPick(actions, Verdicts(rules.filters, actions, None));
    NormalizePassIsPointwise(rules.normalizers, rules.canon, f, |f|, None);
    ThinsPointwise(out, f);
    ThinsPick(out, Verdicts(rules.filters, out, m));
    ThinsTransitive(out, f, actions);
    ThinsTransitive(Cleaned(rules, actions), out, actions);
  }

  // ----- the duplicate-navigate filter on its own -----

  ghost predicate NoRepeats(actions: seq<Action>) {
    forall i :: 0 <= i < |actions| ==> !IsRepeatedNavigate(actions, i)
  }

  lemma {:induction false} RepeatsRemoved(actions: seq<Action>, flags: seq<bool>, k: nat)
    requires |flags| == |actions| && k <= |actions|
    requires forall i :: 0 <= i < |actions| ==> (flags[i] <==> !IsRepeatedNavigate(actions, i))
    ensures var s := Pick(actions[k..], flags[k..]);
            && NoRepeats(s)
            && (s != [] && k > 0 && NavigateUrl(actions[k - 1]).Some? ==>
                  NavigateUrl(s[0]) != NavigateUrl(actions[k - 1]))
    decreases |actions| - k
  {
    if k < |actions| {
      RepeatsRemoved(actions, flags, k + 1);
      var s, t := Pick(actions[k..], flags[k..]), Pick(actions[k + 1..], flags[k + 1..]);
      assert actions[k..][1..] == actions[k + 1..] && flags[k..][1..] == flags[k + 1..];
      assert s == if flags[k] then [actions[k]] + t else t;
      forall i | 0 <= i < |s| ensures !IsRepeatedNavigate(s, i) {
        if flags[k] && i > 0 {
          assert s[i] == t[i - 1] && !IsRepeatedNavigate(t, i - 1);
          if i > 1 { assert s[i - 1] == t[i - 2]; }
        } else if !flags[k] {
          assert !IsRepeatedNavigate(t, i);
        }
      }
    }
  }

  /** One run of the filter keeps the first of every repeat and leaves none, so a second run changes nothing. */
  lemma {:induction false} DuplicateNavigateIsFixpoint(actions: seq<Action>)
    ensures var once := Filtered([DropDuplicateNavigate], actions, None);
            && NoRepeats(once) && Filtered([DropDuplicateNavigate], once, None) == once
            && (forall i :: 0 <= i < |actions| && !IsRepeatedNavigate(actions, i) ==> actions[i] in once)
  {
    var flags := Verdicts([DropDuplicateNavigate], actions, None);
    forall i | 0 <= i < |actions| ensures flags[i] <==> !IsRepeatedNavigate(actions, i) {
      SingleRule(DropDuplicateNavigate, actions, i, None);
    }
    RepeatsRemoved(actions, flags, 0);
    assert actions[0..] == actions && flags[0..] == flags;
    PickMembers(actions, flags);
    var once := Pick(actions, flags);
    forall i | 0 <= i < |once| ensures Verdicts([DropDuplicateNavigate], once, None)[i] {
      SingleRule(DropDuplicateNavigate, once, i, None);
      assert !IsRepeatedNavigate(once, i);
    }
    PickAll(once, Verdicts([DropDuplicateNavigate], once, None));
  }
}
