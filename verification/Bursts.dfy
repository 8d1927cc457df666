/**
 * The meaning of coalescing. The code marks followers in one pass and drops them in a later one;
 * here a list is simply cut into maximal bursts and one action is kept for each.
 */
module Bursts {
  import opened Common
  import opened Actions
  import opened HeuristicRules
  import opened Text

  /** Two neighbours belong to one burst. */
  predicate Joins(a: Action, b: Action) {
    IsInput(a) && IsInput(b) && a.selector == b.selector && b.timestamp - a.timestamp <= BURST_GAP
  }

  predicate Follows(actions: seq<Action>, i: nat)
    requires i < |actions|
  {
    i > 0 && Joins(actions[i - 1], actions[i])
  }

  /** The end of the burst that contains position `i`. */
  function RunEnd(actions: seq<Action>, i: nat): (e: nat)
    requires i < |actions|
    ensures i < e <= |actions|
    decreases |actions| - i
  {
    if i + 1 < |actions| && Joins(actions[i], actions[i + 1]) then RunEnd(actions, i + 1) else i + 1
  }

  lemma {:induction false} RunFollows(actions: seq<Action>, i: nat)
    requires i < |actions|
    ensures forall j :: i < j < RunEnd(actions, i) ==> Follows(actions, j)
    ensures RunEnd(actions, i) < |actions| ==> !Follows(actions, RunEnd(actions, i))
    decreases |actions| - i
  {
    if i + 1 < |actions| && Joins(actions[i], actions[i + 1]) { RunFollows(actions, i + 1); }
  }

  /** The list from `i` on, cut into maximal bursts. */
  function BurstsFrom(actions: seq<Action>, i: nat): (bursts: seq<seq<Action>>)
    requires i <= |actions|
    ensures forall k :: 0 <= k < |bursts| ==> bursts[k] != []
    decreases |actions| - i
  {
    if i == |actions| then []
    else [actions[i..RunEnd(actions, i)]] + BurstsFrom(actions, RunEnd(actions, i))
  }

  function Flatten(bursts: seq<seq<Action>>): seq<Action> {
    if bursts == [] then [] else bursts[0] + Flatten(bursts[1..])
  }

  ghost predicate IsBurst(b: seq<Action>) {
    b != [] && forall i :: 0 < i < |b| ==> Joins(b[i - 1], b[i])
  }

  /** The last action of `left` and the first of `right` are in different bursts. */
  ghost predicate Apart(left: seq<Action>, right: seq<Action>) {
    left != [] && right != [] && !Joins(left[|left| - 1], right[0])
  }

  ghost predicate IsMaximal(bursts: seq<seq<Action>>) {
    bursts != [] ==> IsBurst(bursts[0]) && (|bursts| > 1 ==> Apart(bursts[0], bursts[1])) && IsMaximal(bursts[1..])
  }

  lemma {:induction false} FlattenBursts(actions: seq<Action>, i: nat)
    requires i <= |actions|
    ensures Flatten(BurstsFrom(actions, i)) == actions[i..]
    decreases |actions| - i
  {
    if i < |actions| {
      var e := RunEnd(actions, i);
      FlattenBursts(actions, e);
      assert BurstsFrom(actions, i)[1..] == BurstsFrom(actions, e);
      assert actions[i..] == actions[i..e] + actions[e..];
    }
  }

  /** Segmentation is a partition into bursts, none of which could be extended. */
  lemma {:induction false} BurstsPartition(actions: seq<Action>, i: nat)
    requires i <= |actions|
    ensures Flatten(BurstsFrom(actions, i)) == actions[i..]
    ensures IsMaximal(BurstsFrom(actions, i))
    decreases |actions| - i
  {
    FlattenBursts(actions, i);
    if i < |actions| {
      var e := RunEnd(actions, i);
      RunFollows(actions, i);
      BurstsPartition(actions, e);
      assert BurstsFrom(actions, i)[1..] == BurstsFrom(actions, e);
      var b := actions[i..e];
      forall j | 0 < j < |b| ensures Joins(b[j - 1], b[j]) {
        assert Follows(actions, i + j);
      }
      if e < |actions| {
        assert b[|b| - 1] == actions[e - 1] && actions[e..RunEnd(actions, e)][0] == actions[e];
      }
    }
  }

  /** What one burst becomes: its first member, carrying the last member's value as it was recorded. */
  function Merge(burst: seq<Action>, canon: string -> string): (merged: Action)
    requires burst != []
    ensures SameButPayload(burst[0], merged)
  {
    var leader := Trim(burst[0]);
    var last := burst[|burst| - 1];
    if |burst| > 1 && IsInput(leader) && IsInput(last)
    then WithValue(leader, last.payload.value)
    else Canonicalize(leader, canon)
  }

  function MergeAll(bursts: seq<seq<Action>>, canon: string -> string): seq<Action>
    requires forall k :: 0 <= k < |bursts| ==> bursts[k] != []
  {
    if bursts == [] then [] else [Merge(bursts[0], canon)] + MergeAll(bursts[1..], canon)
  }

  // ----- the normalize pass in closed form -----

  /** The sequence numbers of the non-first burst members among the first `n` actions. */
  function FollowerMarks(actions: seq<Action>, n: nat): set<int>
    requires n <= |actions|
  {
    set j | 0 <= j < n && Follows(actions, j) :: actions[j].sequence
  }

  function NormalForm(actions: seq<Action>, i: nat, canon: string -> string): (a: Action)
    requires i < |actions|
    ensures SameButPayload(actions[i], a)
  {
    if Follows(actions, i) then Trim(actions[i]) else Merge(actions[i..RunEnd(actions, i)], canon)
  }

  lemma {:induction false} ScanReachesRunEnd(action: Action, actions: seq<Action>, i: nat)
    requires i < |actions| && IsInput(actions[i]) && actions[i].selector == action.selector
    ensures ScanEnd(action, actions, actions[i].timestamp, i + 1) == RunEnd(actions, i)
    decreases |actions| - i
  {
    if i + 1 < |actions| && Joins(actions[i], actions[i + 1]) {
      ScanReachesRunEnd(action, actions, i + 1);
    }
  }

  lemma {:induction false} ChainUnfolds(canon: string -> string, action: Action, actions: seq<Action>, i: nat,
        marks: Marks)
    requires i < |actions|
    ensures var (a, m) := Coalesce(Trim(action), actions, i, marks);
            Chain(DEFAULT_NORMALIZERS, 3, canon, action, actions, i, marks) == (Canonicalize(a, canon), m)
  {
    var r := DEFAULT_NORMALIZERS;
    assert Chain(r, 1, canon, action, actions, i, marks) == (Trim(action), marks);
    assert Chain(r, 2, canon, action, actions, i, marks) == Coalesce(Trim(action), actions, i, marks);
  }

  /** A sequence number is marked exactly when its action follows within a burst seen so far. */
  lemma {:induction false} MarkedIffFollows(actions: seq<Action>, n: nat, i: nat)
    requires DistinctSequences(actions) && i < |actions| && n <= |actions|
    ensures actions[i].sequence in FollowerMarks(actions, n) <==> i < n && Follows(actions, i)
  {
  }

  /** A burst that starts at `i` marks precisely the members after its first. */
  lemma {:induction false} MarksOfRun(actions: seq<Action>, i: nat)
    requires i < |actions| && !Follows(actions, i)
    ensures FollowerMarks(actions, RunEnd(actions, i))
         == FollowerMarks(actions, i) + Sequences(actions[i + 1..RunEnd(actions, i)])
  {
    var e := RunEnd(actions, i);
    RunFollows(actions, i);
    forall x | x in Sequences(actions[i + 1..e]) ensures x in FollowerMarks(actions, e) {
      var j :| 0 <= j < e - i - 1 && actions[i + 1..e][j].sequence == x;
      assert Follows(actions, i + 1 + j) && actions[i + 1 + j].sequence == x;
    }
    forall x | x in FollowerMarks(actions, e) && x !in FollowerMarks(actions, i)
      ensures x in Sequences(actions[i + 1..e])
    {
      var j :| 0 <= j < e && Follows(actions, j) && actions[j].sequence == x;
      assert actions[i + 1..e][j - i - 1] == actions[j];
    }
  }

  lemma {:induction false} MergeOfRun(canon: string -> string, actions: seq<Action>, i: nat)
    requires i < |actions|
    ensures var e := RunEnd(actions, i);
            && (IsInput(actions[i]) ==> IsInput(actions[e - 1]))
            && Merge(actions[i..e], canon)
            == if e > i + 1 then WithValue(Trim(actions[i]), actions[e - 1].payload.value)
               else Canonicalize(Trim(actions[i]), canon)
  {
    var e := RunEnd(actions, i);
    var b := actions[i..e];
    assert b[0] == actions[i] && b[e - i - 1] == actions[e - 1];
    RunFollows(actions, i);
    if e > i + 1 {
      assert Follows(actions, i + 1) && Follows(actions, e - 1);
    }
  }

  /** The rule on a burst leader: its value becomes the last member's, and the rest is marked. */
  lemma {:induction false} CoalesceLeader(actions: seq<Action>, i: nat, marks: Marks)
    requires i < |actions| && IsInput(actions[i]) && actions[i].sequence !in Marked(marks)
    requires IsInput(actions[RunEnd(actions, i) - 1])
    ensures var e := RunEnd(actions, i);
            var (a, m) := Coalesce(Trim(actions[i]), actions, i, marks);
            && Marked(m) == Marked(marks) + Sequences(actions[i + 1..e])
            && a == if e > i + 1 then WithValue(Trim(actions[i]), actions[e - 1].payload.value)
                    else Trim(actions[i])
  {
    var e := RunEnd(actions, i);
    ScanReachesRunEnd(Trim(actions[i]), actions, i);
    CoalesceAtEnd(Trim(actions[i]), actions, i, e, marks);
  }

  lemma {:induction false} CoalesceAtEnd(action: Action, actions: seq<Action>, i: nat, e: nat, marks: Marks)
    requires i < e <= |actions| && IsInput(action) && action.sequence !in Marked(marks) && IsInput(actions[e - 1])
    requires ScanEnd(action, actions, action.timestamp, i + 1) == e
    ensures var (a, m) := Coalesce(action, actions, i, marks);
            && Marked(m) == Marked(marks) + Sequences(actions[i + 1..e])
            && a == if e > i + 1 then WithValue(action, actions[e - 1].payload.value) else action
  {
    if e == i + 1 { assert actions[i + 1..e] == []; }
  }

  /** What the coalescing rule makes of position `i`, given the marks left by the earlier positions. */
  lemma {:induction false} CoalesceStep(canon: string -> string, actions: seq<Action>, i: nat, marks: Marks)
    requires DistinctSequences(actions) && i < |actions|
    requires Marked(marks) == FollowerMarks(actions, if i == 0 then 0 else RunEnd(actions, i - 1))
    ensures var (a, m) := Coalesce(Trim(actions[i]), actions, i, marks);
            && Canonicalize(a, canon) == NormalForm(actions, i, canon)
            && Marked(m) == FollowerMarks(actions, RunEnd(actions, i))
  {
    MarkedIffFollows(actions, if i == 0 then 0 else RunEnd(actions, i - 1), i);
    if !Follows(actions, i) {
      MarksOfRun(actions, i);
      MergeOfRun(canon, actions, i);
      if IsInput(actions[i]) {
        CoalesceLeader(actions, i, marks);
      } else {
        assert actions[i + 1..i + 1] == [];
      }
    }
  }

  lemma {:induction false} NormalizeStep(canon: string -> string, actions: seq<Action>, i: nat, marks: Marks)
    requires DistinctSequences(actions) && i < |actions|
    requires Marked(marks) == FollowerMarks(actions, if i == 0 then 0 else RunEnd(actions, i - 1))
    ensures var (a, m) := Chain(DEFAULT_NORMALIZERS, 3, canon, actions[i], actions, i, marks);
            a == NormalForm(actions, i, canon) && Marked(m) == FollowerMarks(actions, RunEnd(actions, i))
  {
    ChainUnfolds(canon, actions[i], actions, i, marks);
    CoalesceStep(canon, actions, i, marks);
  }

  lemma {:induction false} NormalizePassPrefix(canon: string -> string, actions: seq<Action>, n: nat)
    requires DistinctSequences(actions) && n <= |actions|
    ensures var (out, m) := Normalized(DEFAULT_NORMALIZERS, canon, actions, n, None);
            && (forall i :: 0 <= i < n ==> out[i] == NormalForm(actions, i, canon))
            && Marked(m) == FollowerMarks(actions, if n == 0 then 0 else RunEnd(actions, n - 1))
  {
    if n > 0 {
      NormalizePassPrefix(canon, actions, n - 1);
      var (out, m) := Normalized(DEFAULT_NORMALIZERS, canon, actions, n - 1, None);
      var (a, m') := Chain(DEFAULT_NORMALIZERS, 3, canon, actions[n - 1], actions, n - 1, m);
      assert Normalized(DEFAULT_NORMALIZERS, canon, actions, n, None) == (out + [a], m');
      NormalizeStep(canon, actions, n - 1, m);
    }
  }

  /** The pass over a whole list: every action in normal form, and exactly the followers marked. */
  lemma {:induction false} NormalizePassMeaning(canon: string -> string, actions: seq<Action>)
    requires DistinctSequences(actions)
    ensures var (out, m) := Normalized(DEFAULT_NORMALIZERS, canon, actions, |actions|, None);
            && (forall i :: 0 <= i < |actions| ==> out[i] == NormalForm(actions, i, canon))
            && (forall i :: 0 <= i < |actions| ==>
                  (actions[i].sequence in Marked(m) <==> Follows(actions, i)))
  {
    NormalizePassPrefix(canon, actions, |actions|);
    forall i | 0 <= i < |actions|
      ensures actions[i].sequence in FollowerMarks(actions, |actions|) <==> Follows(actions, i)
    {
      MarkedIffFollows(actions, |actions|, i);
    }
  }

  /**
   * A burst of two or more carries its last member's value as recorded, before trimming; so the
   * merged value is a trimmed one only if the last member was typed without outer whitespace.
   */
  lemma {:induction false} MergedValueIsAsRecorded(canon: string -> string, actions: seq<Action>, i: nat)
    requires i < |actions| && IsInput(actions[i]) && !Follows(actions, i) && RunEnd(actions, i) > i + 1
    ensures var merged, last := NormalForm(actions, i, canon), actions[RunEnd(actions, i) - 1];
            && IsInput(merged) && IsInput(last) && merged.payload.value == last.payload.value
            && (merged.payload.value == Strip(last.payload.value) <==> IsTrimmed(last.payload.value))
  {
    MergeOfRun(canon, actions, i);
    StripMeaning(actions[RunEnd(actions, i) - 1].payload.value);
  }

  /** Typing "x" and then " x" within the gap: one action remains, and its value keeps the space. */
  lemma {:induction false} MergedValueCanBeUntrimmed(canon: string -> string, actions: seq<Action>)
    requires |actions| == 2 && DistinctSequences(actions) && Joins(actions[0], actions[1])
    requires actions[0].payload.value == "x" && actions[1].payload.value == " x"
    ensures var (out, m) := Normalized(DEFAULT_NORMALIZERS, canon, actions, 2, None);
            out[0].payload.InputPayload? && out[0].payload.value == " x" && !IsTrimmed(out[0].payload.value)
  {
    NormalizePassMeaning(canon, actions);
    MergedValueIsAsRecorded(canon, actions, 0);
  }

  lemma {:induction false} PickLeaders(canon: string -> string, actions: seq<Action>, out: seq<Action>,
        flags: seq<bool>, k: nat)
    requires |out| == |flags| == |actions| && k <= |actions|
    requires forall i :: 0 <= i < |actions| ==> out[i] == NormalForm(actions, i, canon)
    requires forall i :: 0 <= i < |actions| ==> (flags[i] <==> !Follows(actions, i))
    requires k < |actions| ==> !Follows(actions, k)
    ensures Pick(out[k..], flags[k..]) == MergeAll(BurstsFrom(actions, k), canon)
    decreases |actions| - k
  {
    if k < |actions| {
      var e := RunEnd(actions, k);
      RunFollows(actions, k);
      PickLeaders(canon, actions, out, flags, e);
      PickSkip(out, flags, k + 1, e);
      assert out[k..][1..] == out[k + 1..] && flags[k..][1..] == flags[k + 1..];
      assert BurstsFrom(actions, k)[1..] == BurstsFrom(actions, e);
    }
  }

  lemma {:induction false} PickSkip<T>(s: seq<T>, f: seq<bool>, i: nat, j: nat)
    requires i <= j <= |s| == |f| && forall k :: i <= k < j ==> !f[k]
    ensures Pick(s[i..], f[i..]) == Pick(s[j..], f[j..])
    decreases j - i
  {
    if i < j {
      PickSkip(s, f, i + 1, j);
      assert s[i..][1..] == s[i + 1..] && f[i..][1..] == f[i + 1..];
    }
  }

  lemma {:induction false} SingleRule(rule: FilterRule, actions: seq<Action>, i: nat, marks: Marks)
    requires i < |actions|
    ensures KeepsAll([rule], actions, i, marks) == Keeps(rule, actions, i, marks)
  {
    assert rule in [rule];
  }

  lemma {:induction false} SweepFlags(actions: seq<Action>, out: seq<Action>, marks: Marks)
    requires |out| == |actions|
    requires forall i :: 0 <= i < |actions| ==> SameButPayload(actions[i], out[i])
    ensures forall i :: 0 <= i < |actions| ==>
              Verdicts([DropCoalescedFollowers], out, marks)[i] == (actions[i].sequence !in Marked(marks))
  {
    forall i | 0 <= i < |actions|
      ensures Verdicts([DropCoalescedFollowers], out, marks)[i] == (actions[i].sequence !in Marked(marks))
    {
      SingleRule(DropCoalescedFollowers, out, i, marks);
    }
  }

  lemma {:induction false} SweepKeepsLeaders(canon: string -> string, actions: seq<Action>, out: seq<Action>,
        marks: Marks)
    requires |out| == |actions|
    requires forall i :: 0 <= i < |actions| ==> out[i] == NormalForm(actions, i, canon)
    requires forall i :: 0 <= i < |actions| ==> (actions[i].sequence in Marked(marks) <==> Follows(actions, i))
    ensures Filtered([DropCoalescedFollowers], out, marks) == MergeAll(BurstsFrom(actions, 0), canon)
  {
    var flags := Verdicts([DropCoalescedFollowers], out, marks);
    SweepFlags(actions, out, marks);
    PickLeaders(canon, actions, out, flags, 0);
    assert out[0..] == out && flags[0..] == flags;
  }

  /**
   * Coalescing refines segmentation: normalize, then drop what the scratch set marks, and what
   * remains is one merged action for each maximal burst, in order.
   */
  lemma {:induction false} CoalescingIsSegmentation(canon: string -> string, actions: seq<Action>)
    requires DistinctSequences(actions)
    ensures var (out, m) := Normalized(DEFAULT_NORMALIZERS, canon, actions, |actions|, None);
            Filtered([DropCoalescedFollowers], out, m) == MergeAll(BurstsFrom(actions, 0), canon)
  {
    var (out, m) := Normalized(DEFAULT_NORMALIZERS, canon, actions, |actions|, None);
    NormalizePassMeaning(canon, actions);
    SweepKeepsLeaders(canon, actions, out, m);
  }
}
