/** Raw page-side envelopes as decoded JSON, and how the recorder and silver promotion read them. */
module Envelopes {
  import opened Common
  import opened Actions

  datatype Json =
    | Null | Bool(b: bool) | Number(r: real) | Str(s: string)
    | Arr(items: seq<Json>) | Obj(fields: map<string, Json>)

  type Envelope = map<string, Json>

  function Get(d: Envelope, key: string): Json {
    if key in d then d[key] else Null
  }

  predicate Truthy(j: Json) {
    match j
    case Null => false
    case Bool(b) => b
    case Number(r) => r != 0.0
    case Str(s) => s != ""
    case Arr(items) => items != []
    case Obj(fields) => fields != map[]
  }

  /** `value or {}` */
  function OrEmpty(j: Json): Json {
    if Truthy(j) then j else Obj(map[])
  }

  function Lower(s: string): string {
    seq(|s|, i requires 0 <= i < |s| => if 'A' <= s[i] <= 'Z' then s[i] - 'A' + 'a' else s[i])
  }

  /** The letters agree, whatever the case of the first. */
  predicate SameLetter(c: char, lower: char) {
    c == lower || ('A' <= c <= 'Z' && c as int + 32 == lower as int)
  }

  /** The event taxonomy shared by `_build_action` and `_build_payload`. */
  function KindOf(raw: Envelope): Option<ActionType> {
    var target := OrEmpty(Get(raw, "target"));
    match Get(raw, "event_type")
    case Str(name) =>
      if name == "click" then Some(Click)
      else if name == "input" then Some(Input)
      else if name == "change" then
        var tag := if target.Obj? then Get(target.fields, "tag") else Null;
        Some(if tag.Str? && Lower(tag.s) == "select" then Select else Input)
      else if name == "keydown" then Some(KeyPress)
      else None
    case _ => None
  }

  /**
   * The validating constructors, one yes or no each: the typed payload, the selector and element
   * context built from the target, and what wraps them, the recorder's record (`recordOk`) or the silver
   * row (`rowOk`). `shape` copies the plain fields.
   */
  datatype Schema = Schema(
    payloadOk: (ActionType, Json) -> bool,
    targetOk: Envelope -> bool,
    recordOk: Envelope -> bool,
    rowOk: Envelope -> bool,
    shape: (ActionType, Envelope) -> Action)

  // ----- what an envelope is, field by field -----

  /** `raw.get(key) or {}`: the field, or an empty object for a missing or falsy one. */
  ghost predicate IsField(raw: Envelope, key: string, j: Json) {
    if key in raw && raw[key] != Null && raw[key] != Bool(false) && raw[key] != Number(0.0) && raw[key] != Str("")
       && raw[key] != Arr([]) && raw[key] != Obj(map[])
    then j == raw[key] else j == Obj(map[])
  }

  lemma {:induction false} FieldIs(raw: Envelope, key: string, j: Json)
    ensures IsField(raw, key, j) <==> j == OrEmpty(Get(raw, key))
  {
  }

  /** The target's tag reads "select", in whatever case. */
  ghost predicate IsSelectTarget(raw: Envelope) {
    && "target" in raw && raw["target"].Obj? && "tag" in raw["target"].fields && raw["target"].fields["tag"].Str?
    && var tag, name := raw["target"].fields["tag"].s, "select";
       |tag| == |name| && forall k :: 0 <= k < |name| ==> SameLetter(tag[k], name[k])
  }

  /** The kind of action an envelope's "event_type" stands for. */
  ghost predicate IsKind(raw: Envelope, kind: ActionType) {
    && "event_type" in raw && raw["event_type"].Str?
    && var name := raw["event_type"].s;
       match kind
       case Click => name == "click"
       case Input => name == "input" || (name == "change" && !IsSelectTarget(raw))
       case Select => name == "change" && IsSelectTarget(raw)
       case KeyPress => name == "keydown"
       case _ => false
  }

  lemma {:induction false} LowerReads(s: string, name: string)
    requires forall k :: 0 <= k < |name| ==> !('A' <= name[k] <= 'Z')
    ensures Lower(s) == name <==> |s| == |name| && forall k :: 0 <= k < |name| ==> SameLetter(s[k], name[k])
  {
    forall k | 0 <= k < |name| && |s| == |name| ensures Lower(s)[k] == name[k] <==> SameLetter(s[k], name[k]) {
    }
  }

  /** The taxonomy is told by the event type, and for "change" by the target's tag. */
  lemma {:induction false} KindIs(raw: Envelope, kind: ActionType)
    ensures KindOf(raw) == Some(kind) <==> IsKind(raw, kind)
  {
    if "target" in raw && raw["target"].Obj? && "tag" in raw["target"].fields && raw["target"].fields["tag"].Str? {
      LowerReads(raw["target"].fields["tag"].s, "select");
    }
  }

  /** The envelope names a kind of action, and its target and payload pass that kind's constructors. */
  ghost predicate IsWellFormed(raw: Envelope, kind: ActionType, schema: Schema) {
    && IsKind(raw, kind)
    && (exists payload: Json :: IsField(raw, "payload", payload) && schema.payloadOk(kind, payload))
    && (exists target: Envelope :: IsField(raw, "target", Obj(target)) && schema.targetOk(target))
  }

  lemma {:induction false} WellFormedIff(raw: Envelope, kind: ActionType, schema: Schema)
    ensures var target, payload := OrEmpty(Get(raw, "target")), OrEmpty(Get(raw, "payload"));
            IsWellFormed(raw, kind, schema) <==>
            KindOf(raw) == Some(kind) && target.Obj? && schema.payloadOk(kind, payload) && schema.targetOk(target.fields)
  {
    KindIs(raw, kind);
    var target, payload := OrEmpty(Get(raw, "target")), OrEmpty(Get(raw, "payload"));
    FieldIs(raw, "payload", payload);
    FieldIs(raw, "target", target);
    forall j: Json | IsField(raw, "payload", j) ensures j == payload { FieldIs(raw, "payload", j); }
    forall t: Envelope | IsField(raw, "target", Obj(t)) ensures Obj(t) == target { FieldIs(raw, "target", Obj(t)); }
  }
}
