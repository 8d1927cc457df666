/**
 * Capture and the bronze queue: a page-side producer that never waits, a drain task that batches,
 * a sentinel, and a cancellation when stopping takes too long.
 */
module Recorder {
  import opened Common
  import opened Actions
  import opened Envelopes

  const BATCH_SIZE := 10

  // ----- building actions -----

  /** `Burned`: the sequence number was taken, then the record failed validation. */
  datatype Built = Nothing | Burned | Made(action: Action)

  function BuildAction(raw: Envelope, sequence: int, schema: Schema): Built {
    var target, payload := OrEmpty(Get(raw, "target")), OrEmpty(Get(raw, "payload"));
    match KindOf(raw)
    case None => Nothing
    case Some(kind) =>
      if !target.Obj? || !schema.payloadOk(kind, payload) || !schema.targetOk(target.fields) then Nothing
      else if !schema.recordOk(raw) then Burned
      else Made(schema.shape(kind, raw).(sequence := sequence + 1, actionType := kind))
  }

  /** An action is made of a well-formed envelope that passes as a record; a bad record costs its number. */
  lemma {:induction false} BuiltIff(raw: Envelope, sequence: int, schema: Schema, kind: ActionType)
    ensures var built := BuildAction(raw, sequence, schema);
            && (built.Made? && built.action.actionType == kind <==> IsWellFormed(raw, kind, schema) && schema.recordOk(raw))
            && (built.Made? ==> built.action.sequence == sequence + 1)
            && (IsWellFormed(raw, kind, schema) && !schema.recordOk(raw) ==> built.Burned?)
            && (built.Burned? ==> !schema.recordOk(raw) && exists k :: IsWellFormed(raw, k, schema))
  {
    WellFormedIff(raw, kind, schema);
    if KindOf(raw).Some? { WellFormedIff(raw, KindOf(raw).value, schema); }
  }

  // ----- the queue between capture and drain; None is the sentinel -----

  /** A capacity of zero or less makes an unbounded asyncio queue. */
  predicate HasRoom<T>(queue: seq<T>, capacity: int) {
    capacity <= 0 || |queue| < capacity
  }

  function Items(queue: seq<Option<Envelope>>): seq<Envelope> {
    if queue == [] then []
    else Items(queue[..|queue| - 1]) + (if queue[|queue| - 1].Some? then [queue[|queue| - 1].value] else [])
  }

  class Recorder {
    const schema: Schema
    const capacity: int
    const bronzeEnabled: bool
    var sequence: int
    var actions: seq<Action>
    var stopped: bool
    var lastMainFrameUrl: Option<string>
    var queue: seq<Option<Envelope>>

    /**
     * Sequence numbers strictly increase along the recording and none is ahead of the counter,
     * so a recording always satisfies the premise of the heuristic tier.
     */
    ghost predicate Valid()
      reads this
      ensures Valid() ==> DistinctSequences(actions)
    {
      && (forall i, j :: 0 <= i < j < |actions| ==> actions[i].sequence < actions[j].sequence)
      && (forall i :: 0 <= i < |actions| ==> actions[i].sequence <= sequence)
    }

    constructor (schema: Schema, capacity: int, bronzeEnabled: bool)
      ensures Valid() && actions == [] && sequence == 0 && !stopped && queue == []
      ensures this.schema == schema && this.capacity == capacity && this.bronzeEnabled == bronzeEnabled
    {
      this.schema, this.capacity, this.bronzeEnabled := schema, capacity, bronzeEnabled;
      sequence, actions, stopped, lastMainFrameUrl, queue := 0, [], false, None, [];
    }

    /** The envelope is queued if there is room, whatever then becomes of the action; nothing waits. */
    method OnCapture(raw: Envelope)
      requires Valid()
      modifies this`sequence, this`actions, this`queue
      ensures Valid()
      ensures stopped ==> sequence == old(sequence) && actions == old(actions) && queue == old(queue)
      ensures !stopped && bronzeEnabled && (capacity <= 0 || |old(queue)| < capacity) ==> queue == old(queue) + [Some(raw)]
      ensures stopped || !bronzeEnabled || 0 < capacity <= |old(queue)| ==> queue == old(queue)
      ensures !stopped ==>
                match BuildAction(raw, old(sequence), schema)
                   case Nothing => actions == old(actions) && sequence == old(sequence)
                   case Burned => actions == old(actions) && sequence == old(sequence) + 1
                   case Made(a) => actions == old(actions) + [a] && sequence == old(sequence) + 1 == a.sequence
    {
      if stopped {
        return;
      }
      if bronzeEnabled {
        if HasRoom(queue, capacity) {
          queue := queue + [Some(raw)];
        }
      }
      match BuildAction(raw, sequence, schema) {
        case Nothing =>
        case Burned => sequence := sequence + 1;
        case Made(a) =>
          sequence := sequence + 1;
          actions := actions + [a];
      }
    }

    /** A main-frame navigation to a new, non-empty URL becomes a NAVIGATE action. */
    method OnFrameNavigated(isMainFrame: bool, url: string, navigate: Action)
      requires Valid()
      modifies this`sequence, this`actions, this`lastMainFrameUrl
      ensures Valid()
      ensures var taken := !stopped && isMainFrame && url != "" && old(lastMainFrameUrl) != Some(url);
              && sequence == (if taken then old(sequence) + 1 else old(sequence))
              && lastMainFrameUrl == (if taken then Some(url) else old(lastMainFrameUrl))
              && actions == if taken
                            then old(actions) + [navigate.(sequence := sequence, actionType := Navigate,
                                                           payload := NavigatePayload(url), url := url)]
                            else old(actions)
    {
      if stopped || !isMainFrame {
        return;
      }
      if url == "" || lastMainFrameUrl == Some(url) {
        return;
      }
      lastMainFrameUrl := Some(url);
      sequence := sequence + 1;
      actions := actions + [navigate.(sequence := sequence, actionType := Navigate,
                                      payload := NavigatePayload(url), url := url)];
    }

    /** The first half of `stop()`: freeze capture, then leave the sentinel if the queue has room. */
    method BeginStop()
      modifies this`stopped, this`queue
      ensures stopped
      ensures !old(stopped) && bronzeEnabled && (capacity <= 0 || |old(queue)| < capacity) ==> queue == old(queue) + [None]
      ensures old(stopped) || !bronzeEnabled || 0 < capacity <= |old(queue)| ==> queue == old(queue)
    {
      if stopped {
        return;
      }
      stopped := true;
      if bronzeEnabled && HasRoom(queue, capacity) {
        queue := queue + [None];
      }
    }
  }
}
