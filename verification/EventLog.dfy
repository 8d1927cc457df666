/** Published progress events: one pipeline of PUBLISH, LPUSH and LTRIM, and the backfill that reads the list back. */
module EventLog {
  import opened Common

  /** `id` is the "event_id" field; the empty string stands for a missing or empty one. */
  datatype Event = Event(id: string, body: string)

  /** An event as the caller hands it over, before `publish_progress` fills in a missing id. */
  datatype Draft = Draft(id: Option<string>, body: string)

  function Stamp(draft: Draft, freshId: string): Event {
    Event(if draft.id.Some? then draft.id.value else freshId, draft.body)
  }

  /** Redis LTRIM key 0 stop: a negative stop counts from the end of the list. */
  function LTrim<T>(list: seq<T>, stop: int): seq<T> {
    var end := if stop >= 0 then stop + 1 else |list| + stop + 1;
    if end <= 0 then [] else if end >= |list| then list else list[..end]
  }

  /** LPUSH, then LTRIM to `bufferSize - 1`; the list is newest first. */
  function Pushed(list: seq<Event>, e: Event, bufferSize: int): seq<Event> {
    LTrim([e] + list, bufferSize - 1)
  }

  /** What the list is meant to hold, oldest first, after `history` was published. */
  function Retained(history: seq<Event>, bufferSize: int): seq<Event> {
    if bufferSize >= 1 then LastN(history, bufferSize) else if bufferSize == 0 then history else []
  }

  lemma {:induction false} ReverseSnoc<T>(s: seq<T>, x: T)
    ensures Reverse(s + [x]) == [x] + Reverse(s)
  {
    if s == [] {
      assert [x][1..] == [];
    } else {
      assert (s + [x])[1..] == s[1..] + [x];
      ReverseSnoc(s[1..], x);
    }
  }

  /**
   * The capped list is the reverse of the newest `bufferSize` events. A bound of 0 trims to "0 -1"
   * and so keeps everything; a negative bound keeps nothing.
   */
  lemma {:induction false} PublishKeepsNewest(history: seq<Event>, e: Event, bufferSize: int)
    ensures Pushed(Reverse(Retained(history, bufferSize)), e, bufferSize) == Reverse(Retained(history + [e], bufferSize))
  {
    var kept := Retained(history, bufferSize);
    ReverseSnoc(kept, e);
    if bufferSize >= 1 {
      var next := kept + [e];
      if |history| < bufferSize {
        assert Retained(history + [e], bufferSize) == next;
      } else {
        assert Retained(history + [e], bufferSize) == next[1..];
        assert Reverse(next) == Reverse(next[1..]) + [next[0]];
        assert Pushed(Reverse(kept), e, bufferSize) == Reverse(next)[..bufferSize];
      }
    }
  }

  lemma {:induction false} ReverseTwice<T>(s: seq<T>)
    ensures Reverse(Reverse(s)) == s
  {
    if s != [] {
      ReverseTwice(s[1..]);
      ReverseSnoc(Reverse(s[1..]), s[0]);
    }
  }

  /** The Redis keys of one run. `history` is what was published so far; only `list` is stored. */
  class RunLog {
    const bufferSize: int
    var list: seq<Event>
    ghost var history: seq<Event>

    ghost predicate Valid()
      reads this
    {
      list == Reverse(Retained(history, bufferSize))
    }

    constructor (bufferSize: int)
      ensures Valid() && history == [] && this.bufferSize == bufferSize
    {
      this.bufferSize := bufferSize;
      list, history := [], [];
      new;
      assert Reverse<Event>([]) == [];
    }

    method Publish(draft: Draft, freshId: string) returns (e: Event)
      requires Valid()
      modifies this
      ensures Valid()
      ensures e.body == draft.body && (draft.id.Some? ==> e.id == draft.id.value) && (draft.id.None? ==> e.id == freshId)
      ensures e == Stamp(draft, freshId) && history == old(history) + [e]
    {
      e := Stamp(draft, freshId);
      PublishKeepsNewest(history, e, bufferSize);
      list := LTrim([e] + list, bufferSize - 1);
      history := history + [e];
    }

    /** LRANGE 0 -1 is newest first, so the result is read off back to front. */
    method Backfill() returns (out: seq<Event>)
      requires Valid()
      ensures out == Retained(history, bufferSize)
    {
      out := [];
      var i := |list|;
      while i > 0
        invariant 0 <= i <= |list| && |out| == |list| - i
        invariant forall k :: 0 <= k < |out| ==> out[k] == list[|list| - 1 - k]
      {
        i := i - 1;
        out := out + [list[i]];
      }
      assert out == Reverse(list);
      ReverseTwice(Retained(history, bufferSize));
    }
  }
}
