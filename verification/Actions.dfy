/** Recorded actions: what the recorder captures, the heuristics clean and the executor replays. */
module Actions {
  import opened Common

  datatype ActionType =
    | Click | Input | Navigate | Select | Hover | KeyPress | Scroll | Wait | Assert | Upload

  /** Targeting strategies, most robust first; equality is field by field. */
  datatype Selector = Selector(
    role: Option<string>, accessibleName: Option<string>, testId: Option<string>,
    textContent: Option<string>, css: Option<string>, xpath: Option<string>,
    nth: Option<int>, frameUrl: Option<string>)

  datatype ElementContext = ElementContext(tag: string, isVisible: bool, isEnabled: bool)

  /** `RawPayload` stands for a plain dictionary; only its "url", "key" and "value" strings are ever read. */
  datatype Payload =
    | ClickPayload(button: string)
    | InputPayload(value: string, isSensitive: bool, clearFirst: bool)
    | NavigatePayload(url: string)
    | SelectPayload(values: seq<string>)
    | RawPayload(rawUrl: Option<string>, rawKey: Option<string>, rawValue: Option<string>)

  /** `timestamp` is in microseconds, the resolution of the recorder's clock. */
  datatype Action = Action(
    id: nat, sequence: int, timestamp: int, actionType: ActionType, payload: Payload,
    selector: Option<Selector>, context: Option<ElementContext>, url: string)

  predicate IsInput(a: Action) {
    a.actionType.Input? && a.payload.InputPayload?
  }

  /** `b` is `a` up to its payload, and an INPUT with a typed payload keeps being one. */
  predicate SameButPayload(a: Action, b: Action) {
    && b == a.(payload := b.payload)
    && a.payload.InputPayload? == b.payload.InputPayload?
  }

  /** The action with another typed value; an action without an InputPayload stays as it is. */
  function WithValue(a: Action, value: string): (b: Action)
    ensures SameButPayload(a, b) && IsInput(b) == IsInput(a)
    ensures a.payload.InputPayload? ==> b.payload.value == value
    ensures a.payload.InputPayload? && a.payload.value == value ==> b == a
  {
    if a.payload.InputPayload? then a.(payload := a.payload.(value := value)) else a
  }

  ghost predicate DistinctSequences(actions: seq<Action>) {
    forall i, j :: 0 <= i < j < |actions| ==> actions[i].sequence != actions[j].sequence
  }

  /** `out` is an order-preserving subsequence of `source`, element for element equal up to payload. */
  ghost predicate Thins(out: seq<Action>, source: seq<Action>)
    decreases |source|
  {
    || out == []
    || (source != [] && SameButPayload(source[0], out[0]) && Thins(out[1..], source[1..]))
    || (source != [] && Thins(out, source[1..]))
  }

  lemma {:induction false} ThinsPick(s: seq<Action>, f: seq<bool>)
    requires |s| == |f|
    ensures Thins(Pick(s, f), s)
  {
    if s != [] {
      ThinsPick(s[1..], f[1..]);
      if f[0] {
        assert Pick(s, f)[1..] == Pick(s[1..], f[1..]);
      } else {
        assert Pick(s, f) == Pick(s[1..], f[1..]);
      }
    }
  }

  lemma {:induction false} ThinsPointwise(out: seq<Action>, s: seq<Action>)
    requires |out| == |s|
    requires forall i :: 0 <= i < |s| ==> SameButPayload(s[i], out[i])
    ensures Thins(out, s)
    decreases |s|
  {
    if s != [] { ThinsPointwise(out[1..], s[1..]); }
  }

  lemma {:induction false} ThinsTransitive(a: seq<Action>, b: seq<Action>, c: seq<Action>)
    requires Thins(a, b) && Thins(b, c)
    ensures Thins(a, c)
    decreases |b| + |c|
  {
    if a != [] && b != [] {
      if SameButPayload(c[0], b[0]) && Thins(b[1..], c[1..]) {
        if SameButPayload(b[0], a[0]) && Thins(a[1..], b[1..]) {
          ThinsTransitive(a[1..], b[1..], c[1..]);
        } else {
          ThinsTransitive(a, b[1..], c[1..]);
        }
      } else {
        ThinsTransitive(a, b, c[1..]);
      }
    }
  }

  /** Thinning never introduces a repeated sequence number. */
  lemma {:induction false} ThinsKeepsDistinct(a: seq<Action>, b: seq<Action>)
    requires Thins(a, b) && DistinctSequences(b)
    ensures DistinctSequences(a)
    ensures forall x :: x in a ==> exists y :: y in b && y.sequence == x.sequence
    decreases |b|
  {
    if a != [] {
      assert forall i, j :: 0 <= i < j < |b[1..]| ==> b[1..][i].sequence != b[1..][j].sequence by {
        forall i, j | 0 <= i < j < |b| - 1 ensures b[1..][i].sequence != b[1..][j].sequence {
          assert b[i + 1].sequence != b[j + 1].sequence;
        }
      }
      if SameButPayload(b[0], a[0]) && Thins(a[1..], b[1..]) {
        ThinsKeepsDistinct(a[1..], b[1..]);
        forall x | x in a ensures exists y :: y in b && y.sequence == x.sequence {
          if x == a[0] { assert b[0] in b; }
        }
        forall i, j | 0 <= i < j < |a| ensures a[i].sequence != a[j].sequence {
          if i == 0 {
            assert a[j] == a[1..][j - 1];
            var y :| y in b[1..] && y.sequence == a[j].sequence;
            var k :| 0 <= k < |b| - 1 && b[1..][k] == y;
            assert b[0].sequence != b[k + 1].sequence;
          } else {
            assert a[1..][i - 1].sequence != a[1..][j - 1].sequence;
          }
        }
      } else {
        ThinsKeepsDistinct(a, b[1..]);
      }
    }
  }
}
