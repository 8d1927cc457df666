/** What the default pipeline keeps, drops and rewrites, told by the recorded fields alone. */
module Survivors {
  import opened Common
  import opened Actions
  import opened HeuristicRules
  import opened Text
  import opened Bursts
  import opened Cleaning

  ghost predicate HasSequence(actions: seq<Action>, sequence: int) {
    exists k :: 0 <= k < |actions| && actions[k].sequence == sequence
  }

  /** Neither a typed input nor a navigation: nothing but a disabled element speaks against it. */
  ghost predicate IsPlain(a: Action) {
    !HasTypedValue(a) && !a.actionType.Navigate?
  }

  /** The address a navigation was recorded with, typed or in a plain dictionary. */
  ghost function AddressOf(a: Action): Option<string> {
    if !a.actionType.Navigate? then None
    else if a.payload.NavigatePayload? then Some(a.payload.url)
    else if a.payload.RawPayload? then a.payload.rawUrl
    else None
  }

  /** A navigation as it is stored: a typed address in canonical form. */
  ghost function Stored(a: Action, canon: string -> string): Action {
    if a.actionType.Navigate? && a.payload.NavigatePayload?
    then a.(payload := NavigatePayload(canon(a.payload.url))) else a
  }

  // ----- where a kept action comes from -----

  lemma {:induction false} PickedAt<T>(s: seq<T>, f: seq<bool>, k: nat) returns (i: nat)
    requires |s| == |f| && k < |Pick(s, f)|
    ensures i < |s| && f[i] && s[i] == Pick(s, f)[k]
    ensures Pick(s[..i], f[..i]) == Pick(s, f)[..k]
  {
    var n := |s| - 1;
    assert s[..n + 1] == s && f[..n + 1] == f;
    PickSnoc(s, f, n);
    if k < |Pick(s[..n], f[..n])| {
      i := PickedAt(s[..n], f[..n], k);
      assert s[..n][..i] == s[..i] && f[..n][..i] == f[..i];
    } else {
      i := n;
    }
  }

  /** Every kept action passed the first filters as recorded, and only its payload can have changed. */
  lemma {:induction false} CameThrough(rules: Ruleset, actions: seq<Action>, x: Action) returns (i: nat)
    requires IsDefault(rules) && x in Cleaned(rules, actions)
    ensures i < |actions| && SameButPayload(actions[i], x) && KeepsAll(DEFAULT_FILTERS, actions, i, None)
  {
    var f := Filtered(rules.filters, actions, None);
    var (out, m) := Normalized(rules.normalizers, rules.canon, f, |f|, None);
    NormalizePassIsPointwise(rules.normalizers, rules.canon, f, |f|, None);
    PickMembers(out, Verdicts(rules.filters, out, m));
    var l :| 0 <= l < |out| && out[l] == x;
    i := PickedAt(actions, Verdicts(rules.filters, actions, None), l);
  }

  lemma {:induction false} SequenceTells(actions: seq<Action>, i: nat, j: nat)
    requires DistinctSequences(actions) && i < |actions| && j < |actions|
    requires actions[i].sequence == actions[j].sequence
    ensures i == j
  {
  }

  lemma {:induction false} RejectedIsGone(rules: Ruleset, actions: seq<Action>, i: nat)
    requires IsDefault(rules) && DistinctSequences(actions) && i < |actions|
    requires !KeepsAll(DEFAULT_FILTERS, actions, i, None)
    ensures !HasSequence(Cleaned(rules, actions), actions[i].sequence)
  {
    var cleaned := Cleaned(rules, actions);
    forall k | 0 <= k < |cleaned| ensures cleaned[k].sequence != actions[i].sequence {
      var j := CameThrough(rules, actions, cleaned[k]);
      if cleaned[k].sequence == actions[i].sequence { SequenceTells(actions, i, j); }
    }
  }

  // ----- disabled elements -----

  /** No action on an element that was reported disabled is left. */
  lemma {:induction false} OnlyUsableIsLeft(rules: Ruleset, actions: seq<Action>, x: Action)
    requires IsDefault(rules) && x in Cleaned(rules, actions)
    ensures IsUsable(x)
  {
    var f := Filtered(rules.filters, actions, None);
    var (out, m) := Normalized(rules.normalizers, rules.canon, f, |f|, None);
    FilteredEnabled(out, m, x);
  }

  // ----- actions that are neither typed inputs nor navigations -----

  lemma {:induction false} PlainNormalForm(f: seq<Action>, l: nat, canon: string -> string)
    requires l < |f| && !HasTypedValue(f[l])
    ensures NormalForm(f, l, canon) == Stored(f[l], canon) && !Follows(f, l)
  {
    MergeOfRun(canon, f, l);
    RunFollows(f, l);
  }

  lemma {:induction false} FilteredIsDistinct(actions: seq<Action>, flags: seq<bool>)
    requires |flags| == |actions| && DistinctSequences(actions)
    ensures DistinctSequences(Pick(actions, flags))
  {
    ThinsPick(actions, flags);
    ThinsKeepsDistinct(Pick(actions, flags), actions);
  }

  /** An action kept by the first pass that no rewriting touches and the second filters keep. */
  lemma {:induction false} KeptTwice(rules: Ruleset, actions: seq<Action>, i: nat) returns (l: nat)
    requires IsDefault(rules) && DistinctSequences(actions) && i < |actions| && !HasTypedValue(actions[i])
    requires KeepsAll(DEFAULT_FILTERS, actions, i, None)
    ensures var f := Filtered(rules.filters, actions, None);
            var (out, m) := Normalized(rules.normalizers, rules.canon, f, |f|, None);
            && l < |f| && f[l] == actions[i] && |out| == |f| && out[l] == Stored(actions[i], rules.canon)
            && out[l].sequence !in Marked(m)
            && (KeepsAll(DEFAULT_FILTERS, out, l, m) ==> out[l] in Cleaned(rules, actions))
  {
    var flags := Verdicts(rules.filters, actions, None);
    var f := Filtered(rules.filters, actions, None);
    PickMembers(actions, flags);
    l :| 0 <= l < |f| && f[l] == actions[i];
    FilteredIsDistinct(actions, flags);
    var (out, m) := Normalized(rules.normalizers, rules.canon, f, |f|, None);
    NormalizePassMeaning(rules.canon, f);
    PlainNormalForm(f, l, rules.canon);
    PickMembers(out, Verdicts(rules.filters, out, m));
  }

  /** Such an action survives, unchanged, exactly if its element was not disabled. */
  lemma {:induction false} PlainSurvivesIff(rules: Ruleset, actions: seq<Action>, i: nat)
    requires IsDefault(rules) && DistinctSequences(actions) && i < |actions| && IsPlain(actions[i])
    ensures IsUsable(actions[i]) ==> actions[i] in Cleaned(rules, actions)
    ensures !IsUsable(actions[i]) ==> !HasSequence(Cleaned(rules, actions), actions[i].sequence)
  {
    DefaultKeeps(actions, i, None);
    if IsUsable(actions[i]) {
      var l := KeptTwice(rules, actions, i);
      var f := Filtered(rules.filters, actions, None);
      var (out, m) := Normalized(rules.normalizers, rules.canon, f, |f|, None);
      DefaultKeeps(out, l, m);
    } else {
      RejectedIsGone(rules, actions, i);
    }
  }

  // ----- navigations -----

  /** No earlier visit has this one's address, as recorded or as stored. */
  ghost predicate IsFirstVisit(actions: seq<Action>, i: nat, canon: string -> string)
    requires i < |actions|
  {
    actions[i].actionType.Navigate? && forall j :: 0 <= j < i && AddressOf(actions[j]).Some? ==>
      && AddressOf(actions[j]) != AddressOf(actions[i])
      && AddressOf(Stored(actions[j], canon)) != AddressOf(Stored(actions[i], canon))
  }

  lemma {:induction false} AddressIsUrl(a: Action)
    ensures NavigateUrl(a) == AddressOf(a)
  {
  }

  /** What stands right before a kept action comes from before it. */
  lemma {:induction false} EarlierIsEarlier(actions: seq<Action>, flags: seq<bool>, i: nat, l: nat) returns (j: nat)
    requires |flags| == |actions| && DistinctSequences(actions) && i < |actions|
    requires 0 < l < |Pick(actions, flags)| && Pick(actions, flags)[l] == actions[i]
    ensures j < i && Pick(actions, flags)[l - 1] == actions[j]
  {
    var f := Pick(actions, flags);
    var k := PickedAt(actions, flags, l);
    SequenceTells(actions, i, k);
    j := PickedAt(actions[..i], flags[..i], l - 1);
  }

  /** A normalized action's address is the one its original is stored with. */
  lemma {:induction false} NormalAddress(f: seq<Action>, k: nat, canon: string -> string)
    requires k < |f|
    ensures AddressOf(NormalForm(f, k, canon)) == AddressOf(Stored(f[k], canon))
  {
    MergeOfRun(canon, f, k);
    RunFollows(f, k);
  }

  /** The first visit to a page on an element not disabled survives, with its address in canonical form. */
  lemma {:induction false} FirstVisitSurvives(rules: Ruleset, actions: seq<Action>, i: nat)
    requires IsDefault(rules) && DistinctSequences(actions) && i < |actions|
    requires IsUsable(actions[i]) && IsFirstVisit(actions, i, rules.canon)
    ensures Stored(actions[i], rules.canon) in Cleaned(rules, actions)
  {
    var flags := Verdicts(rules.filters, actions, None);
    var f := Filtered(rules.filters, actions, None);
    DefaultKeeps(actions, i, None);
    AddressIsUrl(actions[i]);
    if i > 0 { AddressIsUrl(actions[i - 1]); }
    var l := KeptTwice(rules, actions, i);
    var (out, m) := Normalized(rules.normalizers, rules.canon, f, |f|, None);
    if l > 0 {
      var j := EarlierIsEarlier(actions, flags, i, l);
      PreviousStored(rules, actions, l - 1);
      AddressIsUrl(out[l - 1]);
      AddressIsUrl(out[l]);
    }
    DefaultKeeps(out, l, m);
  }

  lemma {:induction false} PreviousStored(rules: Ruleset, actions: seq<Action>, k: nat)
    requires IsDefault(rules) && DistinctSequences(actions) && k < |Filtered(rules.filters, actions, None)|
    ensures var f := Filtered(rules.filters, actions, None);
            AddressOf(Normalized(rules.normalizers, rules.canon, f, |f|, None).0[k]) == AddressOf(Stored(f[k], rules.canon))
  {
    var flags := Verdicts(rules.filters, actions, None);
    var f := Filtered(rules.filters, actions, None);
    FilteredIsDistinct(actions, flags);
    NormalizePassMeaning(rules.canon, f);
    NormalAddress(f, k, rules.canon);
  }

  /** A second visit right behind the first to the same address does not. */
  lemma {:induction false} RepeatedVisitIsGone(rules: Ruleset, actions: seq<Action>, i: nat)
    requires IsDefault(rules) && DistinctSequences(actions) && 0 < i < |actions|
    requires AddressOf(actions[i]).Some? && AddressOf(actions[i - 1]) == AddressOf(actions[i])
    ensures !HasSequence(Cleaned(rules, actions), actions[i].sequence)
  {
    DefaultKeeps(actions, i, None);
    AddressIsUrl(actions[i]);
    AddressIsUrl(actions[i - 1]);
    RejectedIsGone(rules, actions, i);
  }

  // ----- inputs -----

  /** An input left empty, with no later input on its selector within two seconds. */
  ghost predicate IsStray(actions: seq<Action>, i: nat)
    requires i < |actions|
  {
    && HasTypedValue(actions[i]) && actions[i].payload.value == ""
    && forall j :: i < j < |actions| && actions[j].actionType.Input? && actions[j].selector == actions[i].selector ==>
         actions[j].timestamp - actions[i].timestamp > 2_000_000
  }

  lemma {:induction false} NoFollowUp(actions: seq<Action>, i: nat, from: nat)
    requires i < from <= |actions| && IsStray(actions, i)
    ensures !HasFollowUp(actions[i], actions, from)
    decreases |actions| - from
  {
    if from < |actions| { NoFollowUp(actions, i, from + 1); }
  }

  lemma {:induction false} StrayInputIsGone(rules: Ruleset, actions: seq<Action>, i: nat)
    requires IsDefault(rules) && DistinctSequences(actions) && i < |actions| && IsStray(actions, i)
    ensures !HasSequence(Cleaned(rules, actions), actions[i].sequence)
  {
    DefaultKeeps(actions, i, None);
    NoFollowUp(actions, i, i + 1);
    RejectedIsGone(rules, actions, i);
  }

  /** A typed value as it is stored when nothing is merged into it. */
  ghost function Typed(a: Action): Action
    requires HasTypedValue(a)
  {
    if a.payload.isSensitive then a else a.(payload := a.payload.(value := Strip(a.payload.value)))
  }

  /** Two inputs with text on one selector, in time order or not. */
  ghost predicate AreTwoInputs(actions: seq<Action>) {
    && |actions| == 2 && DistinctSequences(actions) && IsTyped(actions[0]) && IsTyped(actions[1])
    && actions[0].selector == actions[1].selector
  }

  lemma {:induction false} BothPass(rules: Ruleset, actions: seq<Action>)
    requires IsDefault(rules) && AreTwoInputs(actions)
    ensures Filtered(rules.filters, actions, None) == actions
  {
    forall i | 0 <= i < 2 ensures KeepsAll(DEFAULT_FILTERS, actions, i, None) {
      TypedIsNotEmptied(actions[i]);
      DefaultKeeps(actions, i, None);
    }
    PickAll(actions, Verdicts(rules.filters, actions, None));
  }

  lemma {:induction false} PickTwo<T>(s: seq<T>, f: seq<bool>)
    requires |s| == |f| == 2 && f[0]
    ensures Pick(s, f) == if f[1] then [s[0], s[1]] else [s[0]]
  {
    assert s[1..][1..] == [] && f[1..][1..] == [];
  }

  /** The normal forms of two inputs: merged into the first within 200 ms, else each for itself. */
  lemma {:induction false} TwoNormalForms(actions: seq<Action>, canon: string -> string)
    requires AreTwoInputs(actions)
    ensures var close := actions[1].timestamp - actions[0].timestamp <= 200_000;
            && Follows(actions, 1) == close && NormalForm(actions, 1, canon) == Typed(actions[1])
            && NormalForm(actions, 0, canon) ==
               if close then actions[0].(payload := actions[0].payload.(value := actions[1].payload.value))
               else Typed(actions[0])
  {
    TypedIsNotEmptied(actions[0]);
    TypedIsNotEmptied(actions[1]);
    MergeOfRun(canon, actions, 0);
    MergeOfRun(canon, actions, 1);
  }

  /** They come out as one, the first with the second's value as typed, exactly if 200 ms or less lie between. */
  lemma {:induction false} TwoInputsMergeIff(rules: Ruleset, actions: seq<Action>)
    requires IsDefault(rules) && AreTwoInputs(actions)
    ensures Cleaned(rules, actions) ==
            if actions[1].timestamp - actions[0].timestamp <= 200_000
            then [actions[0].(payload := actions[0].payload.(value := actions[1].payload.value))]
            else [Typed(actions[0]), Typed(actions[1])]
  {
    var (out, m) := Normalized(rules.normalizers, rules.canon, actions, 2, None);
    BothPass(rules, actions);
    NormalizePassMeaning(rules.canon, actions);
    TwoNormalForms(actions, rules.canon);
    TypedIsNotEmptied(actions[0]);
    TypedIsNotEmptied(actions[1]);
    DefaultKeeps(out, 0, m);
    DefaultKeeps(out, 1, m);
    PickTwo(out, Verdicts(rules.filters, out, m));
  }
}
