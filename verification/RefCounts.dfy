/** The reference count of a channel against the set of subscribers it serves. */
module RefCounts {
  import opened Common
  import opened RunStream

  /** The subscribers attached to channel `c` now. */
  function AttachedTo(subs: seq<Sub>, c: nat): set<nat> {
    set i: nat | i < |subs| && IsAttached(subs[i]) && subs[i].chan == c
  }

  lemma {:induction false} MembersCountAttached(c: nat, members: seq<nat>, subs: seq<Sub>)
    requires MembersAreAttached(c, members, subs)
    ensures |members| == |AttachedTo(subs, c)|
  {
    assert AttachedTo(subs, c) == Elements(members);
    DistinctSize(members);
  }

  /**
   * In every reachable state a channel is mapped exactly while its count, which is the number of
   * attached subscribers, is positive; a teardown only ever meets an unmapped channel with none.
   */
  lemma {:induction false} RefCountLaw(steps: seq<Step>, cfg: Config, c: nat)
    requires c < |Run(INITIAL, steps, cfg).channels|
    ensures var st := Run(INITIAL, steps, cfg);
            && (st.mapped == Some(c) <==> st.channels[c].refCount > 0)
            && st.channels[c].refCount == |AttachedTo(st.subs, c)|
            && (Enabled(st, Teardown(c)) ==> st.mapped != Some(c) && AttachedTo(st.subs, c) == {})
  {
    EveryChannelIsLawful(steps, cfg, c);
    var st := Run(INITIAL, steps, cfg);
    MembersCountAttached(c, st.channels[c].members, st.subs);
  }
}
