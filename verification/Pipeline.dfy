/** From the page to the derived tables: what was captured is what the log, the table and the rows hold. */
module Pipeline {
  import opened Common
  import opened Envelopes
  import opened Text
  import R = Recorder
  import B = BronzeDrain
  import C = Compact
  import S = Silver

  /** The log that the drain's calls leave, each one appending a batch. */
  function LogOf(batches: seq<seq<Envelope>>, codec: C.Codec): string {
    if batches == [] then ""
    else LogOf(batches[..|batches| - 1], codec) + Terminated(C.Dumped(batches[|batches| - 1], codec))
  }

  lemma {:induction false} WritableParts(a: seq<Envelope>, b: seq<Envelope>, codec: C.Codec)
    requires C.AreWritable(a + b, codec)
    ensures C.AreWritable(a, codec) && C.AreWritable(b, codec)
  {
    forall i | 0 <= i < |a| ensures C.IsWritable(a[i], codec) { assert C.IsWritable((a + b)[i], codec); }
    forall i | 0 <= i < |b| ensures C.IsWritable(b[i], codec) { assert C.IsWritable((a + b)[|a| + i], codec); }
  }

  lemma {:induction false} DumpedConcat(a: seq<Envelope>, b: seq<Envelope>, codec: C.Codec)
    ensures C.Dumped(a + b, codec) == C.Dumped(a, codec) + C.Dumped(b, codec)
  {
  }

  lemma {:induction false} NoLines()
    ensures Lines("") == []
  {
    assert Split("") == [""] && IsBlank("") && [""][1..] == [];
  }

  /** One call more: the lines of its batch come after the lines there were. */
  lemma {:induction false} CallAppends(log: string, before: seq<Envelope>, batch: seq<Envelope>, codec: C.Codec)
    requires IsTerminated(log) && Lines(log) == C.Dumped(before, codec) && C.AreWritable(batch, codec)
    ensures var after := log + Terminated(C.Dumped(batch, codec));
            IsTerminated(after) && Lines(after) == C.Dumped(before + batch, codec)
  {
    C.AppendedLines(log, batch, codec);
    DumpedConcat(before, batch, codec);
  }

  lemma {:induction false} LinesOfLog(batches: seq<seq<Envelope>>, codec: C.Codec)
    requires C.AreWritable(B.Flatten(batches), codec)
    ensures IsTerminated(LogOf(batches, codec)) && Lines(LogOf(batches, codec)) == C.Dumped(B.Flatten(batches), codec)
  {
    if batches == [] {
      NoLines();
    } else {
      var init, last := batches[..|batches| - 1], batches[|batches| - 1];
      WritableParts(B.Flatten(init), last, codec);
      LinesOfLog(init, codec);
      CallAppends(LogOf(init, codec), B.Flatten(init), last, codec);
    }
  }

  /** Reading the log back gives the batches one after another. */
  lemma {:induction false} LogIsRead(batches: seq<seq<Envelope>>, codec: C.Codec)
    requires C.AreWritable(B.Flatten(batches), codec)
    ensures C.Contents(LogOf(batches, codec), codec.parse) == B.Flatten(batches)
  {
    LinesOfLog(batches, codec);
    C.DumpedIsRead(B.Flatten(batches), codec);
  }

  /** The recording came to its end: the drain has finished, without having to be cancelled. */
  ghost predicate IsRecorded(steps: seq<B.Step>, capacity: int) {
    var st := B.Run(B.INITIAL, steps, capacity);
    st.drain.Finished? && !st.cancelled
  }

  /**
   * End to end: after a recording that was not cut off, the compacted table holds one row for every envelope
   * the bounded queue accepted, in order, and with no bound for every envelope captured before the stop.
   */
  lemma {:induction false} CapturedIsCompacted(steps: seq<B.Step>, capacity: int, id: string, readable: bool, size: int,
        now: int, codec: C.Codec)
    requires IsRecorded(steps, capacity)
    requires C.AreWritable(B.Run(B.INITIAL, steps, capacity).accepted, codec)
    ensures var st := B.Run(B.INITIAL, steps, capacity);
            var (table, artifacts) := C.Compacted(id, Some(LogOf(st.handed, codec)), None, [], readable, size, now, codec);
            && (capacity <= 0 ==> st.accepted == B.Captured(steps))
            && (st.accepted == [] ==> table.None?)
            && (st.accepted != [] ==> table.Some? && C.IsTableOf(table.value, id, st.accepted, codec.dump))
  {
    var st := B.Run(B.INITIAL, steps, capacity);
    AllWasHanded(steps, capacity);
    if capacity <= 0 { B.UnboundedAcceptsAll(steps, capacity); }
    LogIsRead(st.handed, codec);
    FirstCompaction(LogOf(st.handed, codec), id, readable, size, now, codec);
  }

  lemma {:induction false} AllWasHanded(steps: seq<B.Step>, capacity: int)
    requires IsRecorded(steps, capacity)
    ensures var st := B.Run(B.INITIAL, steps, capacity); st.accepted == B.Flatten(st.handed)
  {
    B.StopAccountsForEverything(steps, capacity);
  }

  lemma {:induction false} FirstCompaction(log: string, id: string, readable: bool, size: int, now: int, codec: C.Codec)
    ensures var (table, artifacts) := C.Compacted(id, Some(log), None, [], readable, size, now, codec);
            var contents := C.Contents(log, codec.parse);
            && (contents == [] ==> table.None?)
            && (contents != [] ==> table.Some? && C.IsTableOf(table.value, id, contents, codec.dump))
  {
    C.TableOfIsTable(id, C.Contents(log, codec.parse), codec.dump);
  }

  // ----- the silver rows against the recorder's own actions -----

  /** The actions the recorder makes of the envelopes, by kind. */
  function Recorded(envelopes: seq<Envelope>, schema: Schema): seq<S.Body> {
    if envelopes == [] then []
    else
      (match R.BuildAction(envelopes[0], 0, schema)
       case Made(action) => [S.Body(action.actionType, envelopes[0])]
       case _ => [])
      + Recorded(envelopes[1..], schema)
  }

  /** The payload is an object, and the envelope passes as a record exactly if it passes as a row. */
  ghost predicate IsMirrored(raw: Envelope, schema: Schema) {
    S.HasObjectPayload(raw) && (schema.recordOk(raw) <==> schema.rowOk(raw))
  }

  lemma {:induction false} LineIsRecorded(raw: Envelope, codec: C.Codec, schema: Schema)
    requires C.IsWritable(raw, codec) && IsMirrored(raw, schema)
    ensures var convert := S.ConverterOf(S.Reader(codec.parse, schema));
            Recorded([raw], schema) == S.Kept(convert(codec.dump(raw)))
  {
    var reader := S.Reader(codec.parse, schema);
    var built, line := R.BuildAction(raw, 0, schema), codec.dump(raw);
    assert [raw][1..] == [];
    if built.Made? {
      R.BuiltIff(raw, 0, schema, built.action.actionType);
      S.ConvertIff(line, reader, S.Body(built.action.actionType, raw));
    }
    var body := S.Convert(line, reader);
    if body.Some? {
      S.ConvertIff(line, reader, body.value);
      R.BuiltIff(raw, 0, schema, body.value.kind);
    }
  }

  lemma {:induction false} LinesAreRecorded(envelopes: seq<Envelope>, codec: C.Codec, schema: Schema)
    requires C.AreWritable(envelopes, codec) && forall i :: 0 <= i < |envelopes| ==> IsMirrored(envelopes[i], schema)
    ensures var convert := S.ConverterOf(S.Reader(codec.parse, schema));
            S.Bodies(C.Dumped(envelopes, codec), convert) == Recorded(envelopes, schema)
  {
    if envelopes != [] {
      var head, rest := envelopes[0], envelopes[1..];
      assert envelopes == [head] + rest;
      WritableParts([head], rest, codec);
      forall i | 0 <= i < |rest| ensures IsMirrored(rest[i], schema) { assert IsMirrored(envelopes[i + 1], schema); }
      assert C.IsWritable(envelopes[0], codec) && IsMirrored(envelopes[0], schema);
      LineIsRecorded(head, codec, schema);
      LinesAreRecorded(rest, codec, schema);
      assert [head][1..] == [] && Recorded([head], schema) + [] == Recorded([head], schema);
      assert C.Dumped(envelopes, codec)[1..] == C.Dumped(rest, codec);
    }
  }

  /**
   * End to end: promoting the log of such a recording gives the rows of the recorder's own actions, each with
   * its kind and envelope, in order, numbered from one.
   */
  lemma {:induction false} PromotedIsRecorded(steps: seq<B.Step>, capacity: int, codec: C.Codec, schema: Schema)
    requires IsRecorded(steps, capacity)
    requires var accepted := B.Run(B.INITIAL, steps, capacity).accepted;
             C.AreWritable(accepted, codec) && forall i :: 0 <= i < |accepted| ==> IsMirrored(accepted[i], schema)
    ensures var st, convert := B.Run(B.INITIAL, steps, capacity), S.ConverterOf(S.Reader(codec.parse, schema));
            S.Promoted([], Lines(LogOf(st.handed, codec)), convert) == S.NumberFrom(Recorded(st.accepted, schema), 0)
  {
    var st := B.Run(B.INITIAL, steps, capacity);
    AllWasHanded(steps, capacity);
    LinesOfLog(st.handed, codec);
    LinesAreRecorded(st.accepted, codec, schema);
    var lines := Lines(LogOf(st.handed, codec));
    assert S.Suffix(lines, 0) == lines;
  }
}
