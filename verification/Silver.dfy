/** Promotion of the bronze log into silver rows: resume from the row count, skip what does not convert. */
module Silver {
  import opened Common
  import opened Actions
  import opened Envelopes
  import opened Text
  import R = Recorder

  /** What a row stores besides its number. */
  datatype Body = Body(kind: ActionType, raw: Envelope)

  datatype Row = Row(sequence: nat, body: Body)

  /** How lines are read: the JSON parser and the validating constructors. */
  datatype Reader = Reader(parse: string -> Option<Json>, schema: Schema)

  datatype Conversion = NoRow | Invalid | RowOf(row: Row)

  /** `_envelope_to_row`; `Invalid` is a validation error raised on the way. */
  function EnvelopeToRow(raw: Envelope, sequence: nat, schema: Schema): Conversion {
    var target, payload := OrEmpty(Get(raw, "target")), OrEmpty(Get(raw, "payload"));
    if !Get(raw, "event_type").Str? then NoRow
    else if !target.Obj? || !payload.Obj? then NoRow
    else match KindOf(raw)
      case None => NoRow
      case Some(kind) =>
        if !schema.payloadOk(kind, payload) || !schema.targetOk(target.fields) || !schema.rowOk(raw) then Invalid
        else RowOf(Row(sequence, Body(kind, raw)))
  }

  /** What a line of the log contributes, whatever number its row is given. */
  type Converter = string -> Option<Body>

  function Convert(line: string, reader: Reader): Option<Body> {
    var parsed := reader.parse(line);
    if parsed.None? || !parsed.value.Obj? then None
    else match EnvelopeToRow(parsed.value.fields, 0, reader.schema)
      case RowOf(row) => Some(row.body)
      case _ => None
  }

  function ConverterOf(reader: Reader): Converter {
    line => Convert(line, reader)
  }

  function Kept(body: Option<Body>): seq<Body> {
    if body.None? then [] else [body.value]
  }

  /** The lines that convert, converted, in order. */
  function Bodies(lines: seq<string>, convert: Converter): (bodies: seq<Body>)
    ensures |bodies| <= |lines|
  {
    if lines == [] then [] else Kept(convert(lines[0])) + Bodies(lines[1..], convert)
  }

  /** Rows numbered from `base + 1`. */
  function NumberFrom(bodies: seq<Body>, base: nat): (rows: seq<Row>)
    ensures |rows| == |bodies|
    ensures forall i :: 0 <= i < |rows| ==> rows[i] == Row(base + i + 1, bodies[i])
  {
    seq(|bodies|, i requires 0 <= i < |bodies| => Row(base + i + 1, bodies[i]))
  }

  /** The part of the log a promotion looks at. */
  function Suffix(lines: seq<string>, count: nat): seq<string> {
    if count >= |lines| then [] else lines[count..]
  }

  /** One promotion: the lines past the row count, appended as rows. */
  function Promoted(rows: seq<Row>, lines: seq<string>, convert: Converter): seq<Row> {
    rows + NumberFrom(Bodies(Suffix(lines, |rows|), convert), |rows|)
  }

  lemma {:induction false} BodiesConcat(a: seq<string>, b: seq<string>, convert: Converter)
    ensures Bodies(a + b, convert) == Bodies(a, convert) + Bodies(b, convert)
  {
    if a == [] {
      assert a + b == b;
    } else {
      assert (a + b)[1..] == a[1..] + b;
      BodiesConcat(a[1..], b, convert);
      var head, x, y := Kept(convert(a[0])), Bodies(a[1..], convert), Bodies(b, convert);
      assert head + (x + y) == (head + x) + y;
    }
  }

  lemma {:induction false} BodiesSnoc(lines: seq<string>, n: nat, convert: Converter)
    requires n < |lines|
    ensures Bodies(lines[..n + 1], convert) == Bodies(lines[..n], convert) + Kept(convert(lines[n]))
  {
    assert lines[..n + 1] == lines[..n] + [lines[n]];
    BodiesConcat(lines[..n], [lines[n]], convert);
    assert Bodies([lines[n]], convert) == Kept(convert(lines[n])) + [] by { assert [lines[n]][1..] == []; }
  }

  function RowAt(body: Option<Body>, sequence: nat): Option<Row> {
    if body.None? then None else Some(Row(sequence, body.value))
  }

  function RowIf(body: Option<Body>, sequence: nat): seq<Row> {
    if body.None? then [] else [Row(sequence, body.value)]
  }

  /** What the first `n` of the new lines add to a table of `base` rows. */
  function Added(lines: seq<string>, n: nat, base: nat, convert: Converter): seq<Row>
    requires n <= |lines|
  {
    NumberFrom(Bodies(lines[..n], convert), base)
  }

  lemma {:induction false} AddedStep(lines: seq<string>, n: nat, base: nat, convert: Converter)
    requires n < |lines|
    ensures var added := Added(lines, n, base, convert);
            Added(lines, n + 1, base, convert) == added + RowIf(convert(lines[n]), base + |added| + 1)
  {
    BodiesSnoc(lines, n, convert);
  }

  lemma {:induction false} AddedAtEnds(lines: seq<string>, base: nat, convert: Converter)
    ensures Added(lines, 0, base, convert) == []
    ensures Added(lines, |lines|, base, convert) == NumberFrom(Bodies(lines, convert), base)
  {
    assert lines[..|lines|] == lines && lines[..0] == [];
  }

  /** The outcome of a conversion does not depend on the number it is given. */
  lemma {:induction false} ConversionIgnoresNumber(raw: Envelope, sequence: nat, schema: Schema)
    ensures var numbered, plain := EnvelopeToRow(raw, sequence, schema), EnvelopeToRow(raw, 0, schema);
            && numbered.RowOf? == plain.RowOf?
            && (plain.RowOf? ==> numbered.row == Row(sequence, plain.row.body))
  {
  }

  // ----- which lines convert, field by field -----

  ghost predicate HasObjectPayload(raw: Envelope) {
    exists payload: Envelope :: IsField(raw, "payload", Obj(payload))
  }

  /** The line is a JSON object that names a kind of action, whose parts and row pass their constructors. */
  ghost predicate HoldsAction(line: string, reader: Reader, body: Body) {
    && reader.parse(line) == Some(Obj(body.raw)) && IsWellFormed(body.raw, body.kind, reader.schema)
    && HasObjectPayload(body.raw) && reader.schema.rowOk(body.raw)
  }

  lemma {:induction false} ObjectPayload(raw: Envelope)
    ensures HasObjectPayload(raw) <==> OrEmpty(Get(raw, "payload")).Obj?
  {
    var payload := OrEmpty(Get(raw, "payload"));
    FieldIs(raw, "payload", payload);
    if payload.Obj? { assert IsField(raw, "payload", Obj(payload.fields)); }
    forall p: Envelope | IsField(raw, "payload", Obj(p)) ensures payload.Obj? { FieldIs(raw, "payload", Obj(p)); }
  }

  lemma {:induction false} ConvertIff(line: string, reader: Reader, body: Body)
    ensures Convert(line, reader) == Some(body) <==> HoldsAction(line, reader, body)
  {
    WellFormedIff(body.raw, body.kind, reader.schema);
    ObjectPayload(body.raw);
  }

  /**
   * The promotion's conversion is documented as a mirror of the recorder's. Where record and row both pass,
   * one makes an action of a kind exactly if the other makes a row of it, unless a payload that is no object
   * passes for that kind: then the recorder has an action and silver no row.
   */
  lemma {:induction false} MirrorsRecorderIff(raw: Envelope, sequence: int, number: nat, schema: Schema, kind: ActionType)
    requires schema.recordOk(raw) && schema.rowOk(raw)
    ensures var built := R.BuildAction(raw, sequence, schema);
            var made := built.Made? && built.action.actionType == kind;
            var promoted := EnvelopeToRow(raw, number, schema) == RowOf(Row(number, Body(kind, raw)));
            && (promoted ==> made)
            && ((made <==> promoted) <==> HasObjectPayload(raw) || !IsWellFormed(raw, kind, schema))
  {
    R.BuiltIff(raw, sequence, schema, kind);
    WellFormedIff(raw, kind, schema);
    ObjectPayload(raw);
  }

  class SilverTable {
    const reader: Reader
    var rows: seq<Row>

    constructor (reader: Reader)
      ensures rows == [] && this.reader == reader
    {
      this.reader := reader;
      rows := [];
    }

    /** One line of the loop: the row it yields when it is next to be numbered `sequence`, if any. */
    method ConvertLine(line: string, sequence: nat) returns (row: Option<Row>)
      ensures row == RowAt(Convert(line, reader), sequence)
    {
      var parsed := reader.parse(line);
      if parsed.None? || !parsed.value.Obj? {
        return None;
      }
      ConversionIgnoresNumber(parsed.value.fields, sequence, reader.schema);
      var conversion := EnvelopeToRow(parsed.value.fields, sequence, reader.schema);
      row := if conversion.RowOf? then Some(conversion.row) else None;
    }

    /** The loop over the lines past the row count; `sequence` is taken back when a line yields no row. */
    method ConvertLines(lines: seq<string>, base: nat) returns (added: seq<Row>)
      ensures added == NumberFrom(Bodies(lines, ConverterOf(reader)), base)
    {
      var sequence := base;
      added := [];
      AddedAtEnds(lines, base, ConverterOf(reader));
      for index := 0 to |lines|
        invariant added == Added(lines, index, base, ConverterOf(reader)) && sequence == base + |added|
      {
        AddedStep(lines, index, base, ConverterOf(reader));
        sequence := sequence + 1;
        var row := ConvertLine(lines[index], sequence);
        if row.Some? {
          added := added + [row.value];
        } else {
          sequence := sequence - 1;
        }
      }
    }

    method PromoteLines(lines: seq<string>) returns (inserted: nat)
      requires |rows| < |lines|
      modifies this
      ensures rows == Promoted(old(rows), lines, ConverterOf(reader))
      ensures |rows| == |old(rows)| + inserted
    {
      var added := ConvertLines(lines[|rows|..], |rows|);
      inserted := |added|;
      rows := rows + added;
    }

    /** `file` is the bronze JSONL, absent if the recording never wrote one. */
    method Promote(file: Option<string>) returns (inserted: nat)
      modifies this
      ensures rows == if file.Some? then Promoted(old(rows), Lines(file.value), ConverterOf(reader)) else old(rows)
      ensures |rows| == |old(rows)| + inserted
    {
      if file.None? {
        return 0;
      }
      var lines := Lines(file.value);
      if |rows| >= |lines| {
        return 0;
      }
      inserted := PromoteLines(lines);
    }
  }

  // ----- runs: the log grows, promotions happen at any time -----

  datatype Store = Store(lines: seq<string>, rows: seq<Row>)

  datatype Step = Append(lines: seq<string>) | Promote

  function Apply(st: Store, step: Step, convert: Converter): Store {
    match step
    case Append(lines) => st.(lines := st.lines + lines)
    case Promote => st.(rows := Promoted(st.rows, st.lines, convert))
  }

  function Run(steps: seq<Step>, convert: Converter): Store {
    if steps == [] then Store([], []) else Apply(Run(steps[..|steps| - 1], convert), steps[|steps| - 1], convert)
  }

  ghost predicate Numbered(rows: seq<Row>) {
    forall i :: 0 <= i < |rows| ==> rows[i].sequence == i + 1
  }

  /** Any interleaving keeps the rows numbered 1 to count, and never more rows than lines. */
  lemma {:induction false} NumbersAreContiguous(steps: seq<Step>, convert: Converter)
    ensures Numbered(Run(steps, convert).rows) && |Run(steps, convert).rows| <= |Run(steps, convert).lines|
  {
    if steps != [] { NumbersAreContiguous(steps[..|steps| - 1], convert); }
  }

  function Repeat(rows: seq<Row>, lines: seq<string>, n: nat, convert: Converter): seq<Row> {
    if n == 0 then rows else Promoted(Repeat(rows, lines, n - 1, convert), lines, convert)
  }

  ghost predicate IsFixpoint(rows: seq<Row>, lines: seq<string>, convert: Converter) {
    Promoted(rows, lines, convert) == rows
  }

  /** A promotion that inserts nothing changes nothing; one that inserts stays within the log. */
  lemma {:induction false} PromotionProgress(rows: seq<Row>, lines: seq<string>, convert: Converter)
    requires |rows| <= |lines|
    ensures |rows| <= |Promoted(rows, lines, convert)| <= |lines|
    ensures |Promoted(rows, lines, convert)| == |rows| <==> IsFixpoint(rows, lines, convert)
  {
  }

  /** On a fixed log at most `lines - rows` promotions insert anything; from then on they change nothing. */
  lemma {:induction false} PromotionsReachFixpoint(rows: seq<Row>, lines: seq<string>, n: nat, convert: Converter)
    requires |rows| <= |lines|
    ensures var after := Repeat(rows, lines, n, convert);
            && |after| <= |lines|
            && (|after| >= |rows| + n || IsFixpoint(after, lines, convert))
            && (n >= |lines| - |rows| ==> IsFixpoint(after, lines, convert))
  {
    if n > 0 {
      PromotionsReachFixpoint(rows, lines, n - 1, convert);
      PromotionProgress(Repeat(rows, lines, n - 1, convert), lines, convert);
    }
    PromotionProgress(Repeat(rows, lines, n, convert), lines, convert);
  }

  // ----- nothing that converts is lost -----

  ghost predicate HasRow(rows: seq<Row>, body: Body) {
    exists k :: 0 <= k < |rows| && rows[k].body == body
  }

  /** Every convertible line among the first `n` has a row with its body. */
  ghost predicate AllKept(rows: seq<Row>, lines: seq<string>, n: nat, convert: Converter) {
    n <= |lines| && forall i :: 0 <= i < n && convert(lines[i]).Some? ==> HasRow(rows, convert(lines[i]).value)
  }

  lemma {:induction false} BodiesHold(lines: seq<string>, i: nat, convert: Converter) returns (b: nat)
    requires i < |lines| && convert(lines[i]).Some?
    ensures b < |Bodies(lines, convert)| && Bodies(lines, convert)[b] == convert(lines[i]).value
  {
    if i == 0 {
      b := 0;
    } else {
      var rest := BodiesHold(lines[1..], i - 1, convert);
      b := |Kept(convert(lines[0]))| + rest;
    }
  }

  lemma {:induction false} PromotionKeepsLine(rows: seq<Row>, lines: seq<string>, i: nat, convert: Converter)
    requires |rows| <= i < |lines| && convert(lines[i]).Some?
    ensures HasRow(Promoted(rows, lines, convert), convert(lines[i]).value)
  {
    var b := BodiesHold(Suffix(lines, |rows|), i - |rows|, convert);
    assert Promoted(rows, lines, convert)[|rows| + b].body == convert(lines[i]).value;
  }

  lemma {:induction false} PromotionKeepsRow(rows: seq<Row>, lines: seq<string>, body: Body, convert: Converter)
    requires HasRow(rows, body)
    ensures HasRow(Promoted(rows, lines, convert), body)
  {
    var k :| 0 <= k < |rows| && rows[k].body == body;
    assert Promoted(rows, lines, convert)[k] == rows[k];
  }

  lemma {:induction false} PromotionKeepsAll(rows: seq<Row>, lines: seq<string>, n: nat, convert: Converter)
    requires |rows| <= n && AllKept(rows, lines, n, convert)
    ensures AllKept(Promoted(rows, lines, convert), lines, |lines|, convert)
  {
    forall i | 0 <= i < |lines| && convert(lines[i]).Some?
      ensures HasRow(Promoted(rows, lines, convert), convert(lines[i]).value)
    {
      if i < n {
        PromotionKeepsRow(rows, lines, convert(lines[i]).value, convert);
      } else {
        PromotionKeepsLine(rows, lines, i, convert);
      }
    }
  }

  /** How long the log was at the last promotion. */
  function PromotedLines(steps: seq<Step>, convert: Converter): nat {
    if steps == [] then 0
    else if steps[|steps| - 1].Promote? then |Run(steps[..|steps| - 1], convert).lines|
    else PromotedLines(steps[..|steps| - 1], convert)
  }

  /**
   * A rerun may insert a line again, and never leaves one out: after any interleaving every
   * convertible line the log had at the last promotion has its row, whatever else is in the log.
   */
  lemma {:induction false} NothingConvertibleIsLost(steps: seq<Step>, convert: Converter)
    ensures var st, n := Run(steps, convert), PromotedLines(steps, convert);
            |st.rows| <= n && AllKept(st.rows, st.lines, n, convert)
  {
    if steps != [] {
      var init := steps[..|steps| - 1];
      var before := Run(init, convert);
      NothingConvertibleIsLost(init, convert);
      if steps[|steps| - 1].Promote? {
        PromotionKeepsAll(before.rows, before.lines, PromotedLines(init, convert), convert);
        PromotionProgress(before.rows, before.lines, convert);
      }
    }
  }

  /** So every line that holds an action keeps its row, of its kind and with its envelope. */
  lemma {:induction false} EveryActionHasItsRow(steps: seq<Step>, reader: Reader, i: nat, body: Body)
    requires i < PromotedLines(steps, ConverterOf(reader)) && i < |Run(steps, ConverterOf(reader)).lines|
    requires HoldsAction(Run(steps, ConverterOf(reader)).lines[i], reader, body)
    ensures HasRow(Run(steps, ConverterOf(reader)).rows, body)
  {
    ConvertIff(Run(steps, ConverterOf(reader)).lines[i], reader, body);
    NothingConvertibleIsLost(steps, ConverterOf(reader));
  }

  lemma {:induction false} BodiesComeFromLines(lines: seq<string>, b: nat, convert: Converter) returns (i: nat)
    requires b < |Bodies(lines, convert)|
    ensures i < |lines| && convert(lines[i]) == Some(Bodies(lines, convert)[b])
  {
    var head := Kept(convert(lines[0]));
    if b < |head| {
      i := 0;
    } else {
      var rest := BodiesComeFromLines(lines[1..], b - |head|, convert);
      i := rest + 1;
    }
  }

  /** And no row is made up: each is the conversion of some line of the log. */
  lemma {:induction false} EveryRowHasItsLine(steps: seq<Step>, convert: Converter, k: nat) returns (i: nat)
    requires k < |Run(steps, convert).rows|
    ensures var st := Run(steps, convert);
            i < |st.lines| && convert(st.lines[i]) == Some(st.rows[k].body)
  {
    var before := Run(steps[..|steps| - 1], convert);
    if k < |before.rows| {
      i := EveryRowHasItsLine(steps[..|steps| - 1], convert, k);
    } else {
      var todo := Suffix(before.lines, |before.rows|);
      var rest := BodiesComeFromLines(todo, k - |before.rows|, convert);
      i := |before.rows| + rest;
    }
  }

  // ----- when every line converts -----

  ghost predicate AllConvertible(lines: seq<string>, convert: Converter) {
    forall i :: 0 <= i < |lines| ==> convert(lines[i]).Some?
  }

  ghost predicate NoneConvertible(lines: seq<string>, convert: Converter) {
    forall i :: 0 <= i < |lines| ==> convert(lines[i]).None?
  }

  lemma {:induction false} CountExtremes(lines: seq<string>, convert: Converter)
    ensures |Bodies(lines, convert)| == |lines| <==> AllConvertible(lines, convert)
    ensures Bodies(lines, convert) == [] <==> NoneConvertible(lines, convert)
  {
    if lines != [] {
      CountExtremes(lines[1..], convert);
      assert lines == [lines[0]] + lines[1..];
    }
  }

  lemma {:induction false} PromotionCompletesMap(lines: seq<string>, n: nat, convert: Converter)
    requires n <= |lines| && AllConvertible(lines, convert)
    ensures |Bodies(lines[..n], convert)| == n
    ensures Promoted(NumberFrom(Bodies(lines[..n], convert), 0), lines, convert) == NumberFrom(Bodies(lines, convert), 0)
  {
    CountExtremes(lines[..n], convert);
    assert lines == lines[..n] + lines[n..];
    BodiesConcat(lines[..n], lines[n..], convert);
    assert Suffix(lines, n) == lines[n..];
  }

  /**
   * If every line converts, then however appends and promotions were split up, the rows are the log
   * mapped line by line as far as it was promoted, and one more promotion completes the map.
   */
  lemma {:induction false} SplitRunsEqualOneRun(steps: seq<Step>, convert: Converter)
    requires AllConvertible(Run(steps, convert).lines, convert)
    ensures var st := Run(steps, convert);
            && |st.rows| <= |st.lines|
            && st.rows == NumberFrom(Bodies(st.lines[..|st.rows|], convert), 0)
            && Promoted(st.rows, st.lines, convert) == NumberFrom(Bodies(st.lines, convert), 0)
  {
    NumbersAreContiguous(steps, convert);
    var st := Run(steps, convert);
    if steps != [] {
      var before := Run(steps[..|steps| - 1], convert);
      assert before.lines == st.lines[..|before.lines|];
      SplitRunsEqualOneRun(steps[..|steps| - 1], convert);
      if steps[|steps| - 1].Promote? {
        CountExtremes(st.lines, convert);
        assert st.lines[..|st.lines|] == st.lines;
      } else {
        assert st.lines[..|st.rows|] == before.lines[..|st.rows|];
      }
    }
    PromotionCompletesMap(st.lines, |st.rows|, convert);
  }

  // ----- when a rerun inserts nothing -----

  /** No convertible line comes after an unconvertible one. */
  ghost predicate UnconvertibleLast(lines: seq<string>, convert: Converter) {
    forall i, j :: 0 <= i < j < |lines| && convert(lines[j]).Some? ==> convert(lines[i]).Some?
  }

  /** With the unconvertible lines last, any cut has only convertible lines before it or none after it. */
  lemma {:induction false} CutSorted(lines: seq<string>, n: nat, convert: Converter)
    requires UnconvertibleLast(lines, convert) && n <= |lines|
    ensures |Bodies(lines[..n], convert)| == n || Bodies(lines[n..], convert) == []
  {
    CountExtremes(lines[..n], convert);
    CountExtremes(lines[n..], convert);
    if i :| n <= i < |lines| && convert(lines[i]).Some? {
      assert AllConvertible(lines[..n], convert);
    } else {
      assert NoneConvertible(lines[n..], convert);
    }
  }

  /** If `k` lines convert, none does past position `k` exactly when the unconvertible lines come last. */
  lemma {:induction false} CountCut(lines: seq<string>, convert: Converter)
    ensures var k := |Bodies(lines, convert)|;
            Bodies(lines[k..], convert) == [] <==> UnconvertibleLast(lines, convert)
  {
    var k := |Bodies(lines, convert)|;
    assert lines == lines[..k] + lines[k..];
    BodiesConcat(lines[..k], lines[k..], convert);
    CountExtremes(lines[..k], convert);
    CountExtremes(lines[k..], convert);
    if Bodies(lines[k..], convert) == [] {
      forall j | k <= j < |lines| ensures convert(lines[j]).None? { assert lines[j] == lines[k..][j - k]; }
      forall i | 0 <= i < k ensures convert(lines[i]).Some? { assert lines[i] == lines[..k][i]; }
    }
    if UnconvertibleLast(lines, convert) { CutSorted(lines, k, convert); }
  }

  /**
   * The documentation calls promotion idempotent. It is exactly when, in the part of the log it had
   * to read, the unconvertible lines all come last.
   */
  lemma {:induction false} IdempotentIff(rows: seq<Row>, lines: seq<string>, convert: Converter)
    ensures IsFixpoint(Promoted(rows, lines, convert), lines, convert)
       <==> UnconvertibleLast(Suffix(lines, |rows|), convert)
  {
    var todo := Suffix(lines, |rows|);
    var once := Promoted(rows, lines, convert);
    assert Suffix(lines, |once|) == todo[|Bodies(todo, convert)|..];
    CountCut(todo, convert);
  }

  /** A log of one malformed and one good line: the rerun inserts the good line again. */
  lemma {:induction false} RerunCanDuplicate(good: string, bad: string, convert: Converter)
    requires convert(good).Some? && convert(bad).None?
    ensures var once := Promoted([], [bad, good], convert);
            var twice := Promoted(once, [bad, good], convert);
            |once| == 1 && |twice| == 2 && twice[1].body == once[0].body
  {
    var lines := [bad, good];
    assert lines[1..] == [good] && [good][1..] == [];
    assert Bodies([good], convert) == [convert(good).value];
    assert Bodies(lines, convert) == [convert(good).value];
    assert Suffix(lines, 0) == lines && Suffix(lines, 1) == [good];
  }
}
