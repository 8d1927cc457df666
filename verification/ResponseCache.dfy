/** The in-memory LLM response cache: a bounded, insertion-ordered map whose entries expire. */
module ResponseCache {
  import opened Common

  /** `payload` is the serialised response. */
  datatype Entry = Entry(key: string, expires: int, payload: string)

  // ----- the store: a dictionary in insertion order -----

  function IndexFrom(store: seq<Entry>, key: string, from: nat): (i: nat)
    requires from <= |store|
    ensures from <= i <= |store| && (i < |store| ==> store[i].key == key)
    ensures forall j :: from <= j < i ==> store[j].key != key
    decreases |store| - from
  {
    if from == |store| || store[from].key == key then from else IndexFrom(store, key, from + 1)
  }

  /** Where `key` is, or the size of the store. */
  function IndexOf(store: seq<Entry>, key: string): (i: nat)
    ensures i <= |store| && (i < |store| ==> store[i].key == key)
    ensures forall j :: 0 <= j < i ==> store[j].key != key
  {
    IndexFrom(store, key, 0)
  }

  function Remove(store: seq<Entry>, i: nat): seq<Entry>
    requires i < |store|
  {
    store[..i] + store[i + 1..]
  }

  function Lookup(store: seq<Entry>, key: string, now: int): Option<string> {
    var i := IndexOf(store, key);
    if i == |store| || store[i].expires < now then None else Some(store[i].payload)
  }

  function AfterGet(store: seq<Entry>, key: string, now: int): seq<Entry> {
    var i := IndexOf(store, key);
    if i < |store| && store[i].expires < now then Remove(store, i) else store
  }

  /** A new key in a full store takes the oldest entry's room; with no entry to evict the call fails. */
  predicate Evicts(store: seq<Entry>, max: int, key: string) {
    |store| >= max && IndexOf(store, key) == |store|
  }

  function AfterSet(store: seq<Entry>, max: int, e: Entry): seq<Entry> {
    var i := IndexOf(store, e.key);
    if i < |store| then store[i := e]
    else if !Evicts(store, max, e.key) then store + [e]
    else if store == [] then store
    else store[1..] + [e]
  }

  // ----- traces -----

  datatype Op =
    | Get(key: string, now: int)
    | Put(key: string, now: int, payload: string, ttl: int)

  function EntryOf(op: Op): Entry
    requires op.Put?
  {
    Entry(op.key, op.now + op.ttl, op.payload)
  }

  function Store(max: int, ops: seq<Op>): seq<Entry> {
    if ops == [] then []
    else
      var before, op := Store(max, ops[..|ops| - 1]), ops[|ops| - 1];
      if op.Get? then AfterGet(before, op.key, op.now) else AfterSet(before, max, EntryOf(op))
  }

  ghost predicate Clocked(ops: seq<Op>) {
    forall i, j :: 0 <= i < j < |ops| ==> ops[i].now <= ops[j].now
  }

  // ----- what a plain map would hold -----

  /** The last value put under `key`. */
  function Latest(ops: seq<Op>, key: string): Option<Entry> {
    if ops == [] then None
    else
      var op := ops[|ops| - 1];
      if op.Put? && op.key == key then Some(EntryOf(op)) else Latest(ops[..|ops| - 1], key)
  }

  /** The last operation put a key the store did not have. */
  predicate Inserts(max: int, ops: seq<Op>)
    requires ops != []
  {
    var op := ops[|ops| - 1];
    op.Put? && IndexOf(Store(max, ops[..|ops| - 1]), op.key) == |Store(max, ops[..|ops| - 1])|
  }

  /** New-key insertions since `key` itself was last inserted as a new key. */
  function Since(max: int, ops: seq<Op>, key: string): nat {
    if ops == [] then 0
    else if !Inserts(max, ops) then Since(max, ops[..|ops| - 1], key)
    else if ops[|ops| - 1].key == key then 0
    else Since(max, ops[..|ops| - 1], key) + 1
  }

  /** `key` was pushed out by a new key and has not been put since. */
  predicate Evicted(max: int, ops: seq<Op>, key: string) {
    if ops == [] then false
    else
      var before, op := Store(max, ops[..|ops| - 1]), ops[|ops| - 1];
      if op.Put? && op.key == key then false
      else if op.Put? && before != [] && before[0].key == key && Evicts(before, max, op.key) then true
      else Evicted(max, ops[..|ops| - 1], key)
  }

  // ----- the invariant -----

  ghost predicate KeysDistinct(store: seq<Entry>) {
    forall i, j :: 0 <= i < j < |store| ==> store[i].key != store[j].key
  }

  ghost predicate KeyLaw(max: int, ops: seq<Op>, key: string) {
    var store := Store(max, ops);
    var i, latest := IndexOf(store, key), Latest(ops, key);
    && (Evicted(max, ops, key) ==> Since(max, ops, key) >= max)
    && (if i < |store|
        then latest == Some(store[i]) && !Evicted(max, ops, key) && Since(max, ops, key) >= |store| - 1 - i
        else latest.None? || Evicted(max, ops, key) || (ops != [] && latest.value.expires < ops[|ops| - 1].now))
  }

  ghost predicate StoreLaw(max: int, ops: seq<Op>) {
    KeysDistinct(Store(max, ops)) && |Store(max, ops)| <= max
  }

  lemma {:induction false} IndexIs(store: seq<Entry>, i: nat)
    requires KeysDistinct(store) && i < |store|
    ensures IndexOf(store, store[i].key) == i
  {
  }

  /** Where `key` is after entry `r` is dropped. */
  lemma {:induction false} IndexAfterRemove(store: seq<Entry>, r: nat, key: string)
    requires KeysDistinct(store) && r < |store|
    ensures var i, after := IndexOf(store, key), Remove(store, r);
            var j := IndexOf(after, key);
            if i == r || i == |store| then j == |after|
            else j < |after| && after[j] == store[i] && j == (if i < r then i else i - 1)
  {
    var i, after := IndexOf(store, key), Remove(store, r);
    assert KeysDistinct(after);
    if i < r { IndexIs(after, i); }
    if r < i < |store| { IndexIs(after, i - 1); }
  }

  /** Where `key` is after another key is put. */
  lemma {:induction false} IndexAfterSet(store: seq<Entry>, max: int, e: Entry, key: string)
    requires KeysDistinct(store) && key != e.key
    ensures var i, after := IndexOf(store, key), AfterSet(store, max, e);
            var j, lost := IndexOf(after, key), if Evicts(store, max, e.key) && store != [] then 1 else 0;
            if i == |store| || i < lost then j == |after|
            else j == i - lost && j < |after| && after[j] == store[i]
  {
    var i, after := IndexOf(store, key), AfterSet(store, max, e);
    assert KeysDistinct(after);
    if i < |store| && !Evicts(store, max, e.key) { IndexIs(after, i); }
    if 0 < i < |store| && Evicts(store, max, e.key) { IndexIs(after, i - 1); }
  }

  lemma {:induction false} OwnIndexAfterSet(store: seq<Entry>, max: int, e: Entry)
    requires KeysDistinct(store) && max >= 1
    ensures var i, after := IndexOf(store, e.key), AfterSet(store, max, e);
            var j := IndexOf(after, e.key);
            j < |after| && after[j] == e && j == (if i < |store| then i else |after| - 1)
  {
    var i, after := IndexOf(store, e.key), AfterSet(store, max, e);
    assert KeysDistinct(after);
    IndexIs(after, if i < |store| then i else |after| - 1);
  }

  /** What an operation on the trace does to each of the derived facts about another key. */
  lemma {:induction false} Unfold(max: int, ops: seq<Op>, op: Op, key: string)
    requires op.Get? || op.key != key
    ensures var all, before := ops + [op], Store(max, ops);
            && Store(max, all) == (if op.Get? then AfterGet(before, op.key, op.now) else AfterSet(before, max, EntryOf(op)))
            && Latest(all, key) == Latest(ops, key)
            && Since(max, all, key) == Since(max, ops, key)
                                       + (if op.Put? && IndexOf(before, op.key) == |before| then 1 else 0)
            && (Evicted(max, all, key) <==>
                  Evicted(max, ops, key)
                  || (op.Put? && before != [] && before[0].key == key && Evicts(before, max, op.key)))
  {
    assert (ops + [op])[..|ops|] == ops;
  }

  lemma {:induction false} GetKeepsKeyLaw(max: int, ops: seq<Op>, op: Op, key: string)
    requires op.Get? && (ops == [] || ops[|ops| - 1].now <= op.now)
    requires StoreLaw(max, ops) && KeyLaw(max, ops, key)
    ensures KeyLaw(max, ops + [op], key)
  {
    Unfold(max, ops, op, key);
    var before := Store(max, ops);
    var r := IndexOf(before, op.key);
    if r < |before| && before[r].expires < op.now { IndexAfterRemove(before, r, key); }
  }

  lemma {:induction false} PutKeepsOwnLaw(max: int, ops: seq<Op>, op: Op)
    requires max >= 1 && op.Put? && StoreLaw(max, ops) && KeyLaw(max, ops, op.key)
    ensures KeyLaw(max, ops + [op], op.key)
  {
    assert (ops + [op])[..|ops|] == ops;
    OwnIndexAfterSet(Store(max, ops), max, EntryOf(op));
  }

  lemma {:induction false} PutKeepsOthersLaw(max: int, ops: seq<Op>, op: Op, key: string)
    requires max >= 1 && op.Put? && op.key != key && (ops == [] || ops[|ops| - 1].now <= op.now)
    requires StoreLaw(max, ops) && KeyLaw(max, ops, key)
    ensures KeyLaw(max, ops + [op], key)
  {
    Unfold(max, ops, op, key);
    IndexAfterSet(Store(max, ops), max, EntryOf(op), key);
  }

  lemma {:induction false} GetKeepsStore(store: seq<Entry>, key: string, now: int)
    requires KeysDistinct(store)
    ensures KeysDistinct(AfterGet(store, key, now)) && |AfterGet(store, key, now)| <= |store|
  {
  }

  lemma {:induction false} SetKeepsStore(store: seq<Entry>, max: int, e: Entry)
    requires max >= 1 && KeysDistinct(store) && |store| <= max
    ensures KeysDistinct(AfterSet(store, max, e)) && |AfterSet(store, max, e)| <= max
  {
  }

  lemma {:induction false} StepKeepsStoreLaw(max: int, ops: seq<Op>)
    requires max >= 1 && ops != [] && StoreLaw(max, ops[..|ops| - 1])
    ensures StoreLaw(max, ops)
  {
    var before, op := Store(max, ops[..|ops| - 1]), ops[|ops| - 1];
    if op.Get? {
      GetKeepsStore(before, op.key, op.now);
    } else {
      SetKeepsStore(before, max, EntryOf(op));
    }
  }

  lemma {:induction false} EveryTraceKeepsStoreLaw(max: int, ops: seq<Op>)
    requires max >= 1
    ensures StoreLaw(max, ops)
  {
    if ops != [] {
      EveryTraceKeepsStoreLaw(max, ops[..|ops| - 1]);
      StepKeepsStoreLaw(max, ops);
    }
  }

  lemma {:induction false} OpKeepsKeyLaw(max: int, ops: seq<Op>, op: Op, key: string)
    requires max >= 1 && StoreLaw(max, ops) && KeyLaw(max, ops, key)
    requires ops == [] || ops[|ops| - 1].now <= op.now
    ensures KeyLaw(max, ops + [op], key)
  {
    if op.Get? {
      GetKeepsKeyLaw(max, ops, op, key);
    } else if op.key == key {
      PutKeepsOwnLaw(max, ops, op);
    } else {
      PutKeepsOthersLaw(max, ops, op, key);
    }
  }

  lemma {:induction false} ClockedInit(ops: seq<Op>)
    requires ops != [] && Clocked(ops)
    ensures var init := ops[..|ops| - 1];
            Clocked(init) && (init == [] || init[|init| - 1].now <= ops[|ops| - 1].now)
  {
  }

  lemma {:induction false} EveryTraceKeepsKeyLaw(max: int, ops: seq<Op>, key: string)
    requires max >= 1 && Clocked(ops)
    ensures KeyLaw(max, ops, key)
  {
    if ops != [] {
      var init, op := ops[..|ops| - 1], ops[|ops| - 1];
      ClockedInit(ops);
      EveryTraceKeepsKeyLaw(max, init, key);
      EveryTraceKeepsStoreLaw(max, init);
      OpKeepsKeyLaw(max, init, op, key);
      assert init + [op] == ops;
    }
  }

  /**
   * After any trace, a get hits exactly when a plain map's value is unexpired and the key has not
   * been evicted, and then it returns that value; an eviction takes at least `max` insertions of new
   * keys after the key's own.
   */
  lemma {:induction false} CacheRefinesMap(max: int, ops: seq<Op>, key: string, now: int)
    requires max >= 1 && Clocked(ops + [Get(key, now)])
    ensures var latest, got := Latest(ops, key), Lookup(Store(max, ops), key, now);
            && (got.Some? <==> latest.Some? && now <= latest.value.expires && !Evicted(max, ops, key))
            && (got.Some? ==> got.value == latest.value.payload)
    ensures Evicted(max, ops, key) ==> Since(max, ops, key) >= max
    ensures |Store(max, ops)| <= max
  {
    var all := ops + [Get(key, now)];
    assert Clocked(ops) by {
      forall i, j | 0 <= i < j < |ops| ensures ops[i].now <= ops[j].now { assert all[i].now <= all[j].now; }
    }
    assert ops != [] ==> all[|ops| - 1].now <= all[|ops|].now;
    EveryTraceKeepsKeyLaw(max, ops, key);
    EveryTraceKeepsStoreLaw(max, ops);
  }

  /** Overwriting a key in the store pushes nothing out and keeps everybody's place. */
  lemma {:induction false} OverwritingEvictsNothing(max: int, ops: seq<Op>, op: Op, key: string)
    requires op.Put? && IndexOf(Store(max, ops), op.key) < |Store(max, ops)|
    ensures var before, after := Store(max, ops), Store(max, ops + [op]);
            && IndexOf(after, key) == IndexOf(before, key) && |after| == |before|
            && (key != op.key ==> Evicted(max, ops + [op], key) == Evicted(max, ops, key))
  {
    assert (ops + [op])[..|ops|] == ops;
    var before, after := Store(max, ops), Store(max, ops + [op]);
    assert forall j :: 0 <= j < |before| ==> after[j].key == before[j].key;
  }

  /** Built with no room, the cache never holds anything: every set fails. */
  lemma {:induction false} NoRoomNoEntries(max: int, ops: seq<Op>)
    requires max <= 0
    ensures Store(max, ops) == []
  {
    if ops != [] { NoRoomNoEntries(max, ops[..|ops| - 1]); }
  }

  // ----- what one operation leaves -----

  ghost predicate IsBefore(store: seq<Entry>, x: Entry, y: Entry) {
    exists k, l :: 0 <= k < l < |store| && store[k] == x && store[l] == y
  }

  /** A get removes the key's entry if that has expired, and nothing else; what stays keeps its order. */
  ghost predicate IsSwept(before: seq<Entry>, after: seq<Entry>, key: string, now: int) {
    && (forall e :: e in after <==> e in before && !(e.key == key && e.expires < now))
    && (forall i, j :: 0 <= i < j < |after| ==> IsBefore(before, after[i], after[j]))
  }

  lemma {:induction false} RemoveKeepsOrder(store: seq<Entry>, r: nat, i: nat, j: nat)
    requires r < |store| && i < j < |store| - 1
    ensures IsBefore(store, Remove(store, r)[i], Remove(store, r)[j])
  {
    var k, l := if i < r then i else i + 1, if j < r then j else j + 1;
    assert store[k] == Remove(store, r)[i] && store[l] == Remove(store, r)[j];
  }

  lemma {:induction false} RemoveLeavesOthers(store: seq<Entry>, r: nat)
    requires KeysDistinct(store) && r < |store|
    ensures forall e :: e in Remove(store, r) <==> e in store && e.key != store[r].key
  {
    var after := Remove(store, r);
    forall e | e in store && e.key != store[r].key ensures e in after {
      var i :| 0 <= i < |store| && store[i] == e;
      assert after[if i < r then i else i - 1] == e;
    }
    forall i | 0 <= i < |after| ensures after[i] in store && after[i].key != store[r].key {
      assert after[i] == store[if i < r then i else i + 1];
    }
  }

  lemma {:induction false} GetSweepsExpired(store: seq<Entry>, key: string, now: int)
    requires KeysDistinct(store)
    ensures IsSwept(store, AfterGet(store, key, now), key, now)
  {
    var i := IndexOf(store, key);
    if i < |store| {
      assert forall e :: e in store && e.key == key ==> e == store[i];
    }
    if i < |store| && store[i].expires < now {
      RemoveLeavesOthers(store, i);
      forall j, k | 0 <= j < k < |store| - 1 ensures IsBefore(store, Remove(store, i)[j], Remove(store, i)[k]) {
        RemoveKeepsOrder(store, i, j, k);
      }
    }
  }

  ghost predicate HasKey(store: seq<Entry>, key: string) {
    exists i :: 0 <= i < |store| && store[i].key == key
  }

  /** A put leaves its entry and every other key's; only a new key in a full store costs one entry, the oldest. */
  lemma {:induction false} PutCostsTheOldest(store: seq<Entry>, max: int, e: Entry)
    requires KeysDistinct(store) && max >= 1
    ensures var full := |store| >= max && !HasKey(store, e.key);
            forall x :: x in AfterSet(store, max, e) <==>
                        x == e || (x in store && x.key != e.key && (full && store != [] ==> x != store[0]))
  {
    var i, after := IndexOf(store, e.key), AfterSet(store, max, e);
    assert HasKey(store, e.key) <==> i < |store|;
    if i < |store| {
      forall x | x in store && x.key != e.key ensures x in after {
        var k :| 0 <= k < |store| && store[k] == x;
        assert after[k] == x;
      }
      assert after[i] == e;
      forall k | 0 <= k < |after| && k != i ensures after[k] in store && after[k].key != e.key {
        assert after[k] == store[k];
      }
    } else if |store| >= max && store != [] {
      assert store == [store[0]] + store[1..];
      assert forall k :: 0 < k < |store| ==> store[k] != store[0];
    }
  }

  // ----- a cache with room for every key -----

  /** The keys that were ever put. */
  function PutKeys(ops: seq<Op>): set<string> {
    set k | 0 <= k < |ops| && ops[k].Put? :: ops[k].key
  }

  function KeysOf(store: seq<Entry>): set<string> {
    set k | 0 <= k < |store| :: store[k].key
  }

  lemma {:induction false} DistinctKeyCount(store: seq<Entry>)
    requires KeysDistinct(store)
    ensures |KeysOf(store)| == |store|
  {
    if store != [] {
      var init, last := store[..|store| - 1], store[|store| - 1];
      DistinctKeyCount(init);
      assert KeysOf(store) == KeysOf(init) + {last.key};
      assert last.key !in KeysOf(init);
    }
  }

  lemma {:induction false} StoredWerePut(max: int, ops: seq<Op>)
    ensures KeysOf(Store(max, ops)) <= PutKeys(ops)
  {
    if ops != [] {
      var init, op := ops[..|ops| - 1], ops[|ops| - 1];
      StoredWerePut(max, init);
      assert PutKeys(init) <= PutKeys(ops);
      var before, after := Store(max, init), Store(max, ops);
      forall k | 0 <= k < |after| ensures after[k].key in PutKeys(ops) {
        if after[k].key !in KeysOf(before) {
          assert op.Put? && after[k] == EntryOf(op);
          assert ops[|ops| - 1].key in PutKeys(ops);
        }
      }
    }
  }

  /** With no more keys than places, nothing is ever pushed out. */
  lemma {:induction false} FewKeysEvictNothing(max: int, ops: seq<Op>, key: string)
    requires max >= 1 && |PutKeys(ops)| <= max
    ensures !Evicted(max, ops, key)
  {
    if ops != [] {
      var init, op := ops[..|ops| - 1], ops[|ops| - 1];
      assert PutKeys(init) <= PutKeys(ops);
      SubsetSize(PutKeys(init), PutKeys(ops));
      FewKeysEvictNothing(max, init, key);
      var before := Store(max, init);
      if op.Put? && Evicts(before, max, op.key) {
        EveryTraceKeepsStoreLaw(max, init);
        DistinctKeyCount(before);
        StoredWerePut(max, init);
        assert op.key in PutKeys(ops) && op.key !in KeysOf(before);
        SubsetSize(KeysOf(before) + {op.key}, PutKeys(ops));
      }
    }
  }

  /** Then the cache is a plain map whose values expire: a get hits exactly if the last value put still lives. */
  lemma {:induction false} WithRoomItIsAMap(max: int, ops: seq<Op>, key: string, now: int)
    requires max >= 1 && |PutKeys(ops)| <= max && Clocked(ops + [Get(key, now)])
    ensures var latest, got := Latest(ops, key), Lookup(Store(max, ops), key, now);
            got == if latest.Some? && now <= latest.value.expires then Some(latest.value.payload) else None
  {
    FewKeysEvictNothing(max, ops, key);
    CacheRefinesMap(max, ops, key, now);
  }

  /** Operation `k` is the last that put `key`. */
  ghost predicate IsLastPut(ops: seq<Op>, k: nat, key: string) {
    && k < |ops| && ops[k].Put? && ops[k].key == key
    && forall l :: k < l < |ops| && ops[l].Put? ==> ops[l].key != key
  }

  /** The last value put under a key: its own payload, living as long as the time to live it was given. */
  lemma {:induction false} LatestIsLastPut(ops: seq<Op>, key: string)
    ensures var latest := Latest(ops, key);
            && (latest.None? <==> forall k :: 0 <= k < |ops| && ops[k].Put? ==> ops[k].key != key)
            && (latest.Some? ==> exists k: nat :: IsLastPut(ops, k, key)
                                   && latest.value == Entry(key, ops[k].now + ops[k].ttl, ops[k].payload))
  {
    if ops != [] {
      var n := |ops| - 1;
      LatestIsLastPut(ops[..n], key);
      if ops[n].Put? && ops[n].key == key {
        assert IsLastPut(ops, n, key);
      } else if Latest(ops, key).Some? {
        var k: nat :| IsLastPut(ops[..n], k, key)
                 && Latest(ops, key).value == Entry(key, ops[k].now + ops[k].ttl, ops[k].payload);
        assert IsLastPut(ops, k, key);
      }
    }
  }

  // ----- the cache object -----

  class InMemoryResponseCache {
    const max: int
    var store: seq<Entry>

    constructor (max: int)
      ensures this.max == max && store == []
    {
      this.max := max;
      store := [];
    }

    method FetchOrDrop(key: string, now: int) returns (response: Option<string>)
      modifies this
      ensures response == Lookup(old(store), key, now) && store == AfterGet(old(store), key, now)
      ensures old(KeysDistinct(store)) ==> IsSwept(old(store), store, key, now)
    {
      if KeysDistinct(store) { GetSweepsExpired(store, key, now); }
      var i := IndexOf(store, key);
      if i == |store| {
        return None;
      }
      if store[i].expires < now {
        store := store[..i] + store[i + 1..];
        return None;
      }
      return Some(store[i].payload);
    }

    /** False stands for the error of asking an empty store for its oldest entry. */
    method Keep(key: string, payload: string, ttl: int, now: int) returns (ok: bool)
      modifies this
      ensures store == AfterSet(old(store), max, Entry(key, now + ttl, payload))
      ensures ok <==> !(Evicts(old(store), max, key) && old(store) == [])
    {
      var i := IndexOf(store, key);
      var e := Entry(key, now + ttl, payload);
      if |store| >= max && i == |store| {
        if store == [] {
          return false;
        }
        store := store[1..];
      }
      i := IndexOf(store, key);
      store := if i < |store| then store[i := e] else store + [e];
      return true;
    }
  }
}
