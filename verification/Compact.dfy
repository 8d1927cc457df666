/** Compaction of a recording's JSONL into Parquet, and the row-count check that skips it. */
module Compact {
  import opened Common
  import opened Envelopes
  import opened Text

  const SCHEMA_VERSION := 1

  /** The columnar table, one sequence a column. */
  datatype Table = Table(
    recordingId: seq<string>, sequence: seq<nat>, eventType: seq<Option<string>>, timestampMs: seq<Option<int>>,
    frameUrl: seq<Option<string>>, url: seq<Option<string>>, envelopeJson: seq<string>, schemaVersion: seq<int>)

  const EMPTY := Table([], [], [], [], [], [], [], [])

  function TextOrNone(j: Json): Option<string> {
    if j.Str? then Some(j.s) else None
  }

  /** `int(ts)` of a number truncates toward zero; a boolean is not a number here. */
  function WholeOrNone(j: Json): Option<int> {
    if !j.Number? then None
    else Some(if j.r >= 0.0 then j.r.Floor else -(-j.r).Floor)
  }

  /** The column holds the field's text, and nothing if the field is missing or no text. */
  ghost predicate IsTextOf(column: Option<string>, e: Envelope, key: string) {
    if key in e && e[key].Str? then column == Some(e[key].s) else column.None?
  }

  /** The column holds the number's whole part, nearer to zero, and nothing if there is no number. */
  ghost predicate IsWholeOf(column: Option<int>, e: Envelope, key: string) {
    if key in e && e[key].Number? then
      column.Some? && var n, r := column.value as real, e[key].r;
                      if r >= 0.0 then 0.0 <= n <= r < n + 1.0 else n - 1.0 < r <= n <= 0.0
    else column.None?
  }

  lemma {:induction false} ColumnsOf(e: Envelope, key: string)
    ensures IsTextOf(TextOrNone(Get(e, key)), e, key) && IsWholeOf(WholeOrNone(Get(e, key)), e, key)
  {
  }

  /** Row `i` of the table is row `i` of every column. */
  ghost predicate HoldsRow(t: Table, i: nat, id: string, e: Envelope, dump: Envelope -> string) {
    && i < |t.recordingId| && i < |t.sequence| && i < |t.eventType| && i < |t.timestampMs|
    && i < |t.frameUrl| && i < |t.url| && i < |t.envelopeJson| && i < |t.schemaVersion|
    && t.recordingId[i] == id && t.sequence[i] == i
    && IsTextOf(t.eventType[i], e, "event_type") && IsWholeOf(t.timestampMs[i], e, "timestamp_ms")
    && IsTextOf(t.frameUrl[i], e, "frame_url") && IsTextOf(t.url[i], e, "url")
    && t.envelopeJson[i] == dump(e) && t.schemaVersion[i] == 1
  }

  ghost predicate HasRows(t: Table, n: nat) {
    && |t.recordingId| == n && |t.sequence| == n && |t.eventType| == n && |t.timestampMs| == n
    && |t.frameUrl| == n && |t.url| == n && |t.envelopeJson| == n && |t.schemaVersion| == n
  }

  /** `t` is the table of `envelopes`: as many rows, row `i` holding sequence `i` and envelope `i`. */
  ghost predicate IsTableOf(t: Table, id: string, envelopes: seq<Envelope>, dump: Envelope -> string) {
    HasRows(t, |envelopes|) && forall i :: 0 <= i < |envelopes| ==> HoldsRow(t, i, id, envelopes[i], dump)
  }

  function AddRow(t: Table, id: string, sequence: nat, e: Envelope, dump: Envelope -> string): Table {
    Table(t.recordingId + [id], t.sequence + [sequence],
          t.eventType + [TextOrNone(Get(e, "event_type"))], t.timestampMs + [WholeOrNone(Get(e, "timestamp_ms"))],
          t.frameUrl + [TextOrNone(Get(e, "frame_url"))], t.url + [TextOrNone(Get(e, "url"))],
          t.envelopeJson + [dump(e)], t.schemaVersion + [SCHEMA_VERSION])
  }

  function TableOf(id: string, envelopes: seq<Envelope>, dump: Envelope -> string): Table {
    if envelopes == [] then EMPTY
    else
      var n := |envelopes| - 1;
      AddRow(TableOf(id, envelopes[..n], dump), id, n, envelopes[n], dump)
  }

  lemma {:induction false} LastRow(t: Table, id: string, n: nat, e: Envelope, dump: Envelope -> string)
    requires HasRows(t, n)
    ensures HoldsRow(AddRow(t, id, n, e, dump), n, id, e, dump)
  {
    ColumnsOf(e, "event_type");
    ColumnsOf(e, "timestamp_ms");
    ColumnsOf(e, "frame_url");
    ColumnsOf(e, "url");
  }

  /** The specification function builds the table. */
  lemma {:induction false} TableOfIsTable(id: string, envelopes: seq<Envelope>, dump: Envelope -> string)
    ensures IsTableOf(TableOf(id, envelopes, dump), id, envelopes, dump)
  {
    if envelopes != [] {
      var n := |envelopes| - 1;
      TableOfIsTable(id, envelopes[..n], dump);
      var before, after := TableOf(id, envelopes[..n], dump), TableOf(id, envelopes, dump);
      forall i | 0 <= i < |envelopes| ensures HoldsRow(after, i, id, envelopes[i], dump) {
        if i < n {
          assert HoldsRow(before, i, id, envelopes[..n][i], dump);
        } else {
          LastRow(TableOf(id, envelopes[..n], dump), id, n, envelopes[n], dump);
        }
      }
    }
  }

  /** Reading the JSON column back gives the envelopes again, if the JSON library round-trips them. */
  lemma {:induction false} TableRoundTrips(id: string, envelopes: seq<Envelope>, dump: Envelope -> string,
        parse: string -> Option<Json>)
    requires forall i :: 0 <= i < |envelopes| ==> parse(dump(envelopes[i])) == Some(Obj(envelopes[i]))
    ensures var t := TableOf(id, envelopes, dump);
            |t.envelopeJson| == |envelopes|
            && forall i :: 0 <= i < |envelopes| ==> parse(t.envelopeJson[i]) == Some(Obj(envelopes[i]))
  {
    TableOfIsTable(id, envelopes, dump);
    var t := TableOf(id, envelopes, dump);
    forall i | 0 <= i < |envelopes| ensures parse(t.envelopeJson[i]) == Some(Obj(envelopes[i])) {
      assert HoldsRow(t, i, id, envelopes[i], dump);
    }
  }

  // ----- reading the log -----

  function ObjectsOf(lines: seq<string>, parse: string -> Option<Json>): seq<Envelope> {
    if lines == [] then []
    else
      var parsed := parse(lines[0]);
      (if parsed.Some? && parsed.value.Obj? then [parsed.value.fields] else []) + ObjectsOf(lines[1..], parse)
  }

  lemma {:induction false} ObjectsConcat(a: seq<string>, b: seq<string>, parse: string -> Option<Json>)
    ensures ObjectsOf(a + b, parse) == ObjectsOf(a, parse) + ObjectsOf(b, parse)
  {
    if a == [] {
      assert a + b == b;
    } else {
      assert (a + b)[1..] == a[1..] + b;
      ObjectsConcat(a[1..], b, parse);
      var parsed := parse(a[0]);
      var head := if parsed.Some? && parsed.value.Obj? then [parsed.value.fields] else [];
      assert head + (ObjectsOf(a[1..], parse) + ObjectsOf(b, parse))
             == (head + ObjectsOf(a[1..], parse)) + ObjectsOf(b, parse);
    }
  }

  lemma {:induction false} ObjectsSnoc(lines: seq<string>, n: nat, parse: string -> Option<Json>)
    requires n < |lines|
    ensures ObjectsOf(lines[..n + 1], parse) == ObjectsOf(lines[..n], parse) + ObjectsOf([lines[n]], parse)
    ensures var parsed := parse(lines[n]);
            ObjectsOf([lines[n]], parse) == if parsed.Some? && parsed.value.Obj? then [parsed.value.fields] else []
  {
    assert lines[..n + 1] == lines[..n] + [lines[n]];
    ObjectsConcat(lines[..n], [lines[n]], parse);
    assert [lines[n]][1..] == [];
  }

  // ----- the files of one recording -----

  datatype Artifact = Artifact(sizeBytes: int, createdAt: int)

  datatype Codec = Codec(parse: string -> Option<Json>, dump: Envelope -> string)

  /** Artifact `k` is the first of the most recently created ones. */
  ghost predicate IsLatest(artifacts: seq<Artifact>, k: nat) {
    && k < |artifacts| && (forall j :: 0 <= j < k ==> artifacts[j].createdAt < artifacts[k].createdAt)
    && (forall j :: k < j < |artifacts| ==> artifacts[j].createdAt <= artifacts[k].createdAt)
  }

  /** Python's `max` by creation time. */
  function Latest(artifacts: seq<Artifact>): (latest: Artifact)
    requires artifacts != []
  {
    if |artifacts| == 1 then artifacts[0]
    else
      var rest, last := Latest(artifacts[..|artifacts| - 1]), artifacts[|artifacts| - 1];
      if last.createdAt > rest.createdAt then last else rest
  }

  lemma {:induction false} LatestIsLatest(artifacts: seq<Artifact>) returns (k: nat)
    requires artifacts != []
    ensures IsLatest(artifacts, k) && artifacts[k] == Latest(artifacts)
  {
    var n := |artifacts| - 1;
    k := 0;
    if n > 0 {
      k := LatestIsLatest(artifacts[..n]);
      if artifacts[n].createdAt > artifacts[k].createdAt { k := n; }
    }
  }

  lemma {:induction false} OthersAreNotLatest(artifacts: seq<Artifact>, k: nat, j: nat)
    requires IsLatest(artifacts, k) && j < |artifacts| && j != k
    ensures !IsLatest(artifacts, j)
  {
    if j < k {
      assert artifacts[j].createdAt < artifacts[k].createdAt;
    } else {
      assert artifacts[j].createdAt <= artifacts[k].createdAt;
    }
  }

  function Contents(log: string, parse: string -> Option<Json>): seq<Envelope> {
    ObjectsOf(Lines(log), parse)
  }

  /** The skip check: a usable artifact, and a readable file with one row for every valid envelope. */
  predicate IsCompact(parquet: Option<Table>, artifacts: seq<Artifact>, readable: bool, count: nat) {
    && artifacts != [] && parquet.Some? && Latest(artifacts).sizeBytes > 0 && readable
    && |parquet.value.recordingId| == count
  }

  class RecordingFiles {
    const recordingId: string
    const codec: Codec
    var log: Option<string>
    var parquet: Option<Table>
    var artifacts: seq<Artifact>

    constructor (recordingId: string, codec: Codec)
      ensures this.recordingId == recordingId && this.codec == codec && log.None? && parquet.None? && artifacts == []
    {
      this.recordingId, this.codec := recordingId, codec;
      log, parquet, artifacts := None, None, [];
    }

    method ReadEnvelopes(text: string) returns (envelopes: seq<Envelope>)
      ensures envelopes == Contents(text, codec.parse)
    {
      envelopes := [];
      var lines := Lines(text);
      for i := 0 to |lines|
        invariant envelopes == ObjectsOf(lines[..i], codec.parse)
      {
        ObjectsSnoc(lines, i, codec.parse);
        var parsed := codec.parse(lines[i]);
        if parsed.Some? && parsed.value.Obj? {
          envelopes := envelopes + [parsed.value.fields];
        }
      }
      assert lines[..|lines|] == lines;
    }

    method BuildTable(envelopes: seq<Envelope>) returns (table: Table)
      ensures table == TableOf(recordingId, envelopes, codec.dump)
    {
      table := EMPTY;
      for sequence := 0 to |envelopes|
        invariant table == TableOf(recordingId, envelopes[..sequence], codec.dump)
      {
        assert envelopes[..sequence + 1][..sequence] == envelopes[..sequence];
        table := AddRow(table, recordingId, sequence, envelopes[sequence], codec.dump);
      }
      assert envelopes[..|envelopes|] == envelopes;
    }

    /**
     * `readable`, `size` and `now` are what the file system and the clock answer. True when a path
     * is returned, which is on every call that finds at least one envelope.
     */
    method CompactToParquet(readable: bool, size: int, now: int) returns (found: bool)
      modifies this`parquet, this`artifacts
      ensures (parquet, artifacts) ==
              Compacted(recordingId, log, old(parquet), old(artifacts), readable, size, now, codec)
      ensures found <==> log.Some? && Contents(log.value, codec.parse) != []
    {
      if log.None? {
        return false;
      }
      var envelopes := ReadEnvelopes(log.value);
      if envelopes == [] {
        return false;
      }
      if IsCompact(parquet, artifacts, readable, |envelopes|) {
        return true;
      }
      var table := BuildTable(envelopes);
      parquet := Some(table);
      artifacts := artifacts + [Artifact(size, now)];
      return true;
    }
  }

  function Compacted(id: string, log: Option<string>, parquet: Option<Table>, artifacts: seq<Artifact>,
                     readable: bool, size: int, now: int, codec: Codec): (Option<Table>, seq<Artifact>)
  {
    if log.None? || Contents(log.value, codec.parse) == [] then (parquet, artifacts)
    else
      var envelopes := Contents(log.value, codec.parse);
      if IsCompact(parquet, artifacts, readable, |envelopes|) then (parquet, artifacts)
      else (Some(TableOf(id, envelopes, codec.dump)), artifacts + [Artifact(size, now)])
  }

  // ----- when a compaction has nothing to do -----

  /** What the file system and the clock answer to one compaction. */
  datatype Answers = Answers(readable: bool, size: int, now: int)

  /** The latest artifact is of a file that was not empty. */
  ghost predicate IsRegistered(artifacts: seq<Artifact>) {
    exists k: nat :: IsLatest(artifacts, k) && artifacts[k].sizeBytes > 0
  }

  /** The check passes exactly for a registered, readable file with one row for every envelope. */
  lemma {:induction false} CompactIff(parquet: Option<Table>, artifacts: seq<Artifact>, readable: bool, count: nat)
    ensures IsCompact(parquet, artifacts, readable, count) <==>
            parquet.Some? && |parquet.value.recordingId| == count && readable && IsRegistered(artifacts)
  {
    if artifacts != [] {
      var k := LatestIsLatest(artifacts);
      forall j: nat | j < |artifacts| && j != k ensures !IsLatest(artifacts, j) { OthersAreNotLatest(artifacts, k, j); }
    }
  }

  lemma {:induction false} TableRows(id: string, envelopes: seq<Envelope>, dump: Envelope -> string)
    ensures |TableOf(id, envelopes, dump).recordingId| == |envelopes|
  {
    TableOfIsTable(id, envelopes, dump);
  }

  /**
   * Compacting an unchanged log again does nothing exactly if the file can be read and its latest artifact
   * is not of size zero; otherwise the same table is written and registered once more.
   */
  lemma {:induction false} SecondCompactionSkipsIff(id: string, log: string, parquet: Option<Table>,
        artifacts: seq<Artifact>, first: Answers, again: Answers, codec: Codec)
    requires Contents(log, codec.parse) != []
    ensures var (p, a) := Compacted(id, Some(log), parquet, artifacts, first.readable, first.size, first.now, codec);
            var (q, b) := Compacted(id, Some(log), p, a, again.readable, again.size, again.now, codec);
            && ((q, b) == (p, a) <==> again.readable && IsRegistered(a))
            && (!(again.readable && IsRegistered(a)) ==>
                  q == Some(TableOf(id, Contents(log, codec.parse), codec.dump))
                  && b == a + [Artifact(again.size, again.now)])
  {
    var envelopes := Contents(log, codec.parse);
    var (p, a) := Compacted(id, Some(log), parquet, artifacts, first.readable, first.size, first.now, codec);
    TableRows(id, envelopes, codec.dump);
    CompactIff(parquet, artifacts, first.readable, |envelopes|);
    CompactIff(p, a, again.readable, |envelopes|);
  }

  /** So with a clock that moved on since every earlier artifact, a file just written is left alone. */
  lemma {:induction false} FreshFileIsLeftAlone(id: string, log: string, parquet: Option<Table>, artifacts: seq<Artifact>,
        size: int, now: int, again: Answers, codec: Codec)
    requires Contents(log, codec.parse) != [] && size > 0
    requires forall i :: 0 <= i < |artifacts| ==> artifacts[i].createdAt < now
    ensures var (p, a) := Compacted(id, Some(log), parquet, artifacts, false, size, now, codec);
            again.readable ==> Compacted(id, Some(log), p, a, true, again.size, again.now, codec) == (p, a)
  {
    var (p, a) := Compacted(id, Some(log), parquet, artifacts, false, size, now, codec);
    assert IsLatest(a, |artifacts|) && a[|artifacts|].sizeBytes > 0;
    SecondCompactionSkipsIff(id, log, parquet, artifacts, Answers(false, size, now), again, codec);
  }

  // ----- what was appended is what is read -----

  /** The text of an envelope is one line that is read back as the envelope. */
  ghost predicate IsWritable(e: Envelope, codec: Codec) {
    '\n' !in codec.dump(e) && !IsBlank(codec.dump(e)) && codec.parse(codec.dump(e)) == Some(Obj(e))
  }

  ghost predicate AreWritable(envelopes: seq<Envelope>, codec: Codec) {
    forall i :: 0 <= i < |envelopes| ==> IsWritable(envelopes[i], codec)
  }

  function Dumped(envelopes: seq<Envelope>, codec: Codec): (lines: seq<string>)
    ensures |lines| == |envelopes| && forall i :: 0 <= i < |lines| ==> lines[i] == codec.dump(envelopes[i])
  {
    seq(|envelopes|, i requires 0 <= i < |envelopes| => codec.dump(envelopes[i]))
  }

  lemma {:induction false} DumpedIsRead(envelopes: seq<Envelope>, codec: Codec)
    requires AreWritable(envelopes, codec)
    ensures NonBlank(Dumped(envelopes, codec)) == Dumped(envelopes, codec)
    ensures ObjectsOf(Dumped(envelopes, codec), codec.parse) == envelopes
  {
    if envelopes != [] {
      var lines := Dumped(envelopes, codec);
      assert IsWritable(envelopes[0], codec);
      assert AreWritable(envelopes[1..], codec) by {
        forall i | 0 <= i < |envelopes| - 1 ensures IsWritable(envelopes[1..][i], codec) {
          assert IsWritable(envelopes[i + 1], codec);
        }
      }
      DumpedIsRead(envelopes[1..], codec);
      assert lines[1..] == Dumped(envelopes[1..], codec);
      assert lines == [lines[0]] + lines[1..];
    }
  }

  lemma {:induction false} AppendedLines(log: string, envelopes: seq<Envelope>, codec: Codec)
    requires IsTerminated(log) && AreWritable(envelopes, codec)
    ensures IsTerminated(log + Terminated(Dumped(envelopes, codec)))
    ensures Lines(log + Terminated(Dumped(envelopes, codec))) == Lines(log) + Dumped(envelopes, codec)
  {
    var lines := Dumped(envelopes, codec);
    forall i | 0 <= i < |lines| ensures '\n' !in lines[i] { assert IsWritable(envelopes[i], codec); }
    AppendExtendsLines(log, lines);
    DumpedIsRead(envelopes, codec);
  }

  /** Appending envelopes to a log adds exactly them to what is read from it. */
  lemma {:induction false} AppendedIsRead(log: string, envelopes: seq<Envelope>, codec: Codec)
    requires IsTerminated(log) && AreWritable(envelopes, codec)
    ensures IsTerminated(log + Terminated(Dumped(envelopes, codec)))
    ensures Contents(log + Terminated(Dumped(envelopes, codec)), codec.parse) == Contents(log, codec.parse) + envelopes
  {
    var lines := Dumped(envelopes, codec);
    AppendedLines(log, envelopes, codec);
    DumpedIsRead(envelopes, codec);
    ObjectsConcat(Lines(log), lines, codec.parse);
  }

  // ----- runs: the log only grows by newline-terminated appends; compactions overlap as they like -----

  /**
   * Where a compaction is suspended: after reading the log, after listing the artifacts, before the
   * write it decided on, before registering what it wrote.
   */
  datatype Work =
    | Read(envelopes: seq<Envelope>)
    | Listed(envelopes: seq<Envelope>, listed: seq<Artifact>)
    | Building(envelopes: seq<Envelope>)
    | Written(size: int)
    | Ended

  datatype Files = Files(log: Option<string>, parquet: Option<Table>, artifacts: seq<Artifact>, works: seq<Work>)

  datatype Step =
    | Append(lines: seq<string>)
    | Begin
    | List(w: nat)
    | Check(w: nat, readable: bool)
    | Write(w: nat, size: int)
    | Register(w: nat, now: int)

  const NO_FILES := Files(None, None, [], [])

  /** JSON text contains no raw newline, so an append is a list of newline-free lines. */
  ghost predicate IsAppendOnly(steps: seq<Step>) {
    forall i :: 0 <= i < |steps| && steps[i].Append? ==>
      forall j :: 0 <= j < |steps[i].lines| ==> '\n' !in steps[i].lines[j]
  }

  function LogText(log: Option<string>): string {
    if log.Some? then log.value else ""
  }

  function Present(st: Files, codec: Codec): seq<Envelope> {
    Contents(LogText(st.log), codec.parse)
  }

  predicate Enabled(st: Files, step: Step) {
    match step
    case Append(lines) => lines != []
    case Begin => true
    case List(w) => w < |st.works| && st.works[w].Read?
    case Check(w, _) => w < |st.works| && st.works[w].Listed?
    case Write(w, _) => w < |st.works| && st.works[w].Building?
    case Register(w, _) => w < |st.works| && st.works[w].Written?
  }

  function Apply(st: Files, step: Step, id: string, codec: Codec): Files {
    if !Enabled(st, step) then st
    else match step
      case Append(lines) => st.(log := Some(LogText(st.log) + Terminated(lines)))
      case Begin =>
        var envelopes := Present(st, codec);
        st.(works := st.works + [if envelopes == [] then Ended else Read(envelopes)])
      case List(w) => st.(works := st.works[w := Listed(st.works[w].envelopes, st.artifacts)])
      case Check(w, readable) =>
        var work := st.works[w];
        var skip := IsCompact(st.parquet, work.listed, readable, |work.envelopes|);
        st.(works := st.works[w := if skip then Ended else Building(work.envelopes)])
      case Write(w, size) =>
        st.(parquet := Some(TableOf(id, st.works[w].envelopes, codec.dump)), works := st.works[w := Written(size)])
      case Register(w, now) =>
        st.(artifacts := st.artifacts + [Artifact(st.works[w].size, now)], works := st.works[w := Ended])
  }

  function Run(st: Files, steps: seq<Step>, id: string, codec: Codec): Files {
    if steps == [] then st
    else Apply(Run(st, steps[..|steps| - 1], id, codec), steps[|steps| - 1], id, codec)
  }

  /** What a compaction read and still works with. */
  function InWork(work: Work): seq<Envelope> {
    match work
    case Read(envelopes) => envelopes
    case Listed(envelopes, _) => envelopes
    case Building(envelopes) => envelopes
    case _ => []
  }

  ghost predicate IsPrefixTable(t: Table, contents: seq<Envelope>, id: string, codec: Codec) {
    exists read: seq<Envelope> :: read <= contents && t == TableOf(id, read, codec.dump)
  }

  /** Whatever a compaction works with, and whatever the Parquet file holds, is a prefix of the log's envelopes. */
  ghost predicate Law(st: Files, id: string, codec: Codec) {
    && IsTerminated(LogText(st.log))
    && (st.parquet.Some? ==> IsPrefixTable(st.parquet.value, Present(st, codec), id, codec))
    && (forall w :: 0 <= w < |st.works| ==> InWork(st.works[w]) <= Present(st, codec))
  }

  lemma {:induction false} AppendGrows(st: Files, lines: seq<string>, id: string, codec: Codec)
    requires IsTerminated(LogText(st.log)) && forall j :: 0 <= j < |lines| ==> '\n' !in lines[j]
    ensures var st' := Apply(st, Append(lines), id, codec);
            IsTerminated(LogText(st'.log)) && Present(st, codec) <= Present(st', codec)
  {
    if lines != [] {
      AppendExtendsLines(LogText(st.log), lines);
      ObjectsConcat(Lines(LogText(st.log)), NonBlank(lines), codec.parse);
    }
  }

  lemma {:induction false} LongerLogKeepsTable(t: Table, before: seq<Envelope>, after: seq<Envelope>,
        id: string, codec: Codec)
    requires IsPrefixTable(t, before, id, codec) && before <= after
    ensures IsPrefixTable(t, after, id, codec)
  {
    var read: seq<Envelope> :| read <= before && t == TableOf(id, read, codec.dump);
    assert read <= after;
  }

  lemma {:induction false} AppendKeepsLaw(st: Files, lines: seq<string>, id: string, codec: Codec)
    requires Law(st, id, codec) && forall j :: 0 <= j < |lines| ==> '\n' !in lines[j]
    ensures Law(Apply(st, Append(lines), id, codec), id, codec)
  {
    var st' := Apply(st, Append(lines), id, codec);
    AppendGrows(st, lines, id, codec);
    if st.parquet.Some? {
      LongerLogKeepsTable(st.parquet.value, Present(st, codec), Present(st', codec), id, codec);
    }
    forall w | 0 <= w < |st.works| ensures InWork(st'.works[w]) <= Present(st', codec) {
      assert InWork(st.works[w]) <= Present(st, codec);
    }
  }

  /** A step of compaction `w` leaves it with what it read, or with nothing. */
  lemma {:induction false} OwnStepKeepsWork(st: Files, step: Step, w: nat, id: string, codec: Codec)
    requires Law(st, id, codec) && Enabled(st, step) && !step.Append? && !step.Begin? && w < |st.works|
    ensures var st' := Apply(st, step, id, codec);
            st'.log == st.log && |st'.works| == |st.works| && InWork(st'.works[w]) <= Present(st, codec)
  {
    assert InWork(st.works[w]) <= Present(st, codec);
  }

  lemma {:induction false} OwnStepKeepsLaw(st: Files, step: Step, id: string, codec: Codec)
    requires Law(st, id, codec) && Enabled(st, step) && !step.Append? && !step.Begin?
    ensures Law(Apply(st, step, id, codec), id, codec)
  {
    var st' := Apply(st, step, id, codec);
    forall w | 0 <= w < |st'.works| ensures InWork(st'.works[w]) <= Present(st', codec) {
      OwnStepKeepsWork(st, step, w, id, codec);
    }
    if step.Write? { assert InWork(st.works[step.w]) <= Present(st, codec); }
  }

  lemma {:induction false} BeginKeepsLaw(st: Files, id: string, codec: Codec)
    requires Law(st, id, codec)
    ensures Law(Apply(st, Begin, id, codec), id, codec)
  {
  }

  lemma {:induction false} StepKeepsLaw(st: Files, step: Step, id: string, codec: Codec)
    requires Law(st, id, codec) && (step.Append? ==> forall j :: 0 <= j < |step.lines| ==> '\n' !in step.lines[j])
    ensures Law(Apply(st, step, id, codec), id, codec)
  {
    if step.Append? {
      AppendKeepsLaw(st, step.lines, id, codec);
    } else if step.Begin? {
      BeginKeepsLaw(st, id, codec);
    } else if Enabled(st, step) {
      OwnStepKeepsLaw(st, step, id, codec);
    }
  }

  /** At every moment of every interleaving the Parquet file, if there is one, is the table of a prefix of the log. */
  lemma {:induction false} ParquetIsPrefixTable(steps: seq<Step>, id: string, codec: Codec)
    requires IsAppendOnly(steps)
    ensures Law(Run(NO_FILES, steps, id, codec), id, codec)
  {
    if steps != [] {
      var init := steps[..|steps| - 1];
      assert IsAppendOnly(init);
      ParquetIsPrefixTable(init, id, codec);
      StepKeepsLaw(Run(NO_FILES, init, id, codec), steps[|steps| - 1], id, codec);
    }
  }

  // ----- what a compaction's decision means -----

  /** The row count of a table gives away which prefix it is the table of. */
  lemma {:induction false} SameCountSameTable(t: Table, read: seq<Envelope>, contents: seq<Envelope>,
        id: string, codec: Codec)
    requires IsPrefixTable(t, contents, id, codec) && read <= contents && |t.recordingId| == |read|
    ensures t == TableOf(id, read, codec.dump)
  {
    var other: seq<Envelope> :| other <= contents && t == TableOf(id, other, codec.dump);
    TableOfIsTable(id, other, codec.dump);
    assert other == read;
  }

  lemma {:induction false} TablesTellPrefixes(read: seq<Envelope>, contents: seq<Envelope>, id: string, codec: Codec)
    requires read <= contents
    ensures TableOf(id, read, codec.dump) == TableOf(id, contents, codec.dump) <==> read == contents
  {
    TableOfIsTable(id, read, codec.dump);
    TableOfIsTable(id, contents, codec.dump);
  }

  /** The step by which compaction `w` decides: it skips, or it replaces the file. */
  predicate Decides(st: Files, step: Step, id: string, codec: Codec) {
    && Enabled(st, step)
    && (step.Write? || (step.Check? && Apply(st, step, id, codec).works[step.w].Ended?))
  }

  /**
   * The skip is sound, and so is the write: whatever else is under way, a compaction that skips or
   * replaces the file leaves the table of the log as it read it. That is the table a rebuild from the
   * present log gives exactly if no envelope was appended in between.
   */
  lemma {:induction false} DecisionIsTheLogAsRead(steps: seq<Step>, step: Step, id: string, codec: Codec)
    requires IsAppendOnly(steps) && Decides(Run(NO_FILES, steps, id, codec), step, id, codec)
    ensures var before := Run(NO_FILES, steps, id, codec);
            var after := Apply(before, step, id, codec);
            var read, present := before.works[step.w].envelopes, Present(before, codec);
            && read <= present && after.parquet == Some(TableOf(id, read, codec.dump))
            && IsTableOf(after.parquet.value, id, read, codec.dump)
            && (after.parquet == Some(TableOf(id, present, codec.dump)) <==> read == present)
  {
    var before := Run(NO_FILES, steps, id, codec);
    var read, present := before.works[step.w].envelopes, Present(before, codec);
    ParquetIsPrefixTable(steps, id, codec);
    assert InWork(before.works[step.w]) <= present;
    if step.Check? { SameCountSameTable(before.parquet.value, read, present, id, codec); }
    TableOfIsTable(id, read, codec.dump);
    TablesTellPrefixes(read, present, id, codec);
  }

  // ----- one compaction without interruption -----

  function Compaction(w: nat, readable: bool, size: int, now: int): seq<Step> {
    [Begin] + [List(w)] + [Check(w, readable)] + [Write(w, size)] + [Register(w, now)]
  }

  lemma {:induction false} RunSnoc(st: Files, steps: seq<Step>, step: Step, id: string, codec: Codec)
    ensures Run(st, steps + [step], id, codec) == Apply(Run(st, steps, id, codec), step, id, codec)
  {
    assert (steps + [step])[..|steps|] == steps;
  }

  lemma {:induction false} RunOne(st: Files, step: Step, id: string, codec: Codec)
    ensures Run(st, [step], id, codec) == Apply(st, step, id, codec)
  {
    assert [step][..0] == [];
  }

  /** The first half: what the log holds is read, and the artifacts are listed. */
  lemma {:induction false} RunReads(st: Files, id: string, codec: Codec)
    ensures var after := Run(st, [Begin] + [List(|st.works|)], id, codec);
            after == st.(works := st.works
                                  + [if Present(st, codec) == [] then Ended else Listed(Present(st, codec), st.artifacts)])
  {
    RunOne(st, Begin, id, codec);
    RunSnoc(st, [Begin], List(|st.works|), id, codec);
  }

  lemma {:induction false} RunDecides(st: Files, readable: bool, size: int, now: int, id: string, codec: Codec)
    ensures var w := |st.works|;
            var read := Run(st, [Begin] + [List(w)], id, codec);
            Run(st, Compaction(w, readable, size, now), id, codec)
            == Decided(read, w, readable, size, now, id, codec)
  {
    var w := |st.works|;
    var steps := [Begin] + [List(w)];
    RunSnoc(st, steps, Check(w, readable), id, codec);
    RunSnoc(st, steps + [Check(w, readable)], Write(w, size), id, codec);
    RunSnoc(st, steps + [Check(w, readable)] + [Write(w, size)], Register(w, now), id, codec);
  }

  lemma {:induction false} NoLogNoContents(codec: Codec)
    ensures Contents("", codec.parse) == []
  {
    assert Split("") == [""] && IsBlank("") && [""][1..] == [];
  }

  /** The check, the write and the registration of a compaction that has listed the artifacts. */
  function Decided(st: Files, w: nat, readable: bool, size: int, now: int, id: string, codec: Codec): Files {
    Apply(Apply(Apply(st, Check(w, readable), id, codec), Write(w, size), id, codec), Register(w, now), id, codec)
  }

  lemma {:induction false} EndedStays(st: Files, w: nat, readable: bool, size: int, now: int, id: string, codec: Codec)
    requires w < |st.works| && st.works[w].Ended?
    ensures Decided(st, w, readable, size, now, id, codec) == st
  {
  }

  lemma {:induction false} ListedDecides(st: Files, w: nat, readable: bool, size: int, now: int, id: string,
        codec: Codec)
    requires w < |st.works| && st.works[w].Listed?
    ensures var after, work := Decided(st, w, readable, size, now, id, codec), st.works[w];
            && after.log == st.log
            && if IsCompact(st.parquet, work.listed, readable, |work.envelopes|)
               then after.parquet == st.parquet && after.artifacts == st.artifacts
               else after.parquet == Some(TableOf(id, work.envelopes, codec.dump))
                    && after.artifacts == st.artifacts + [Artifact(size, now)]
  {
    var checked := Apply(st, Check(w, readable), id, codec);
    if checked.works[w].Ended? {
      assert Apply(checked, Write(w, size), id, codec) == checked;
    } else {
      WriteStands(checked, w, size, id, codec);
    }
  }

  /** Its steps together do what the method does in one go. */
  lemma {:induction false} UninterruptedIsCompacted(st: Files, readable: bool, size: int, now: int, id: string,
        codec: Codec)
    ensures var after := Run(st, Compaction(|st.works|, readable, size, now), id, codec);
            && after.log == st.log
            && (after.parquet, after.artifacts) ==
               Compacted(id, st.log, st.parquet, st.artifacts, readable, size, now, codec)
  {
    var w := |st.works|;
    RunReads(st, id, codec);
    RunDecides(st, readable, size, now, id, codec);
    NoLogNoContents(codec);
    var read := Run(st, [Begin] + [List(w)], id, codec);
    if read.works[w].Ended? {
      EndedStays(read, w, readable, size, now, id, codec);
    } else {
      ListedDecides(read, w, readable, size, now, id, codec);
    }
  }

  /**
   * Run on its own, a compaction that finds envelopes leaves the table of the present log, whatever
   * compactions and appends came before, finished or not.
   */
  lemma {:induction false} CompactionIsCurrent(steps: seq<Step>, readable: bool, size: int, now: int,
        id: string, codec: Codec)
    requires IsAppendOnly(steps)
    ensures var before := Run(NO_FILES, steps, id, codec);
            var after := Run(before, Compaction(|before.works|, readable, size, now), id, codec);
            var contents := Present(after, codec);
            contents == Present(before, codec)
            && (contents != [] ==>
                  after.parquet.Some? && IsTableOf(after.parquet.value, id, contents, codec.dump)
                  && after.parquet.value == TableOf(id, contents, codec.dump))
  {
    var before := Run(NO_FILES, steps, id, codec);
    var contents := Present(before, codec);
    ParquetIsPrefixTable(steps, id, codec);
    UninterruptedIsCompacted(before, readable, size, now, id, codec);
    TableOfIsTable(id, contents, codec.dump);
    if before.parquet.Some? && |before.parquet.value.recordingId| == |contents| {
      SameCountSameTable(before.parquet.value, contents, contents, id, codec);
    }
    NoLogNoContents(codec);
  }

  // ----- two compactions at once -----

  lemma {:induction false} WriteStands(st: Files, w: nat, size: int, id: string, codec: Codec)
    requires w < |st.works| && st.works[w].Building?
    ensures var st' := Apply(st, Write(w, size), id, codec);
            && st'.log == st.log && st'.parquet == Some(TableOf(id, st.works[w].envelopes, codec.dump))
            && |st'.works| == |st.works| && st'.works[w] == Written(size)
            && forall v :: 0 <= v < |st.works| && v != w ==> st'.works[v] == st.works[v]
  {
  }

  /**
   * Of two compactions that both decided to write, the one that read less can write last: the file
   * then goes back to the older table.
   */
  lemma {:induction false} OlderReadCanWriteLast(st: Files, older: nat, newer: nat, size: int, id: string, codec: Codec)
    requires older < |st.works| && newer < |st.works| && st.works[older].Building? && st.works[newer].Building?
    requires st.works[older].envelopes < st.works[newer].envelopes == Present(st, codec)
    ensures var first := Apply(st, Write(newer, size), id, codec);
            var last := Apply(first, Write(older, size), id, codec);
            && first.parquet == Some(TableOf(id, Present(st, codec), codec.dump))
            && Present(last, codec) == Present(st, codec)
            && last.parquet.Some? && last.parquet != Some(TableOf(id, Present(last, codec), codec.dump))
            && |last.works| == |st.works| && last.works[older] == last.works[newer] == Written(size)
  {
    var first := Apply(st, Write(newer, size), id, codec);
    WriteStands(st, newer, size, id, codec);
    WriteStands(first, older, size, id, codec);
    TablesTellPrefixes(st.works[older].envelopes, Present(st, codec), id, codec);
  }

  /** A line as the recorder appends it: a JSON object on one line. */
  ghost predicate IsEnvelope(line: string, codec: Codec) {
    '\n' !in line && !IsBlank(line) && codec.parse(line).Some? && codec.parse(line).value.Obj?
  }

  ghost predicate AreEnvelopes(lines: seq<string>, codec: Codec) {
    forall i :: 0 <= i < |lines| ==> IsEnvelope(lines[i], codec)
  }

  lemma {:induction false} EveryLineCounts(lines: seq<string>, codec: Codec)
    requires AreEnvelopes(lines, codec)
    ensures |Contents(Terminated(lines), codec.parse)| == |lines|
  {
    forall i | 0 <= i < |lines| ensures '\n' !in lines[i] { assert IsEnvelope(lines[i], codec); }
    LinesOfTerminated(lines);
    NothingIsSkipped(lines, codec);
  }

  lemma {:induction false} NothingIsSkipped(lines: seq<string>, codec: Codec)
    requires AreEnvelopes(lines, codec)
    ensures NonBlank(lines) == lines && |ObjectsOf(lines, codec.parse)| == |lines|
  {
    if lines != [] {
      assert IsEnvelope(lines[0], codec);
      forall i | 0 <= i < |lines| - 1 ensures IsEnvelope(lines[1..][i], codec) {
        assert IsEnvelope(lines[i + 1], codec);
      }
      NothingIsSkipped(lines[1..], codec);
    }
  }

  lemma {:induction false} TerminatedTwo(first: string, second: string)
    ensures Terminated([first]) + Terminated([second]) == Terminated([first, second])
  {
    assert [first][1..] == [] && [second][1..] == [] && [first, second][1..] == [second];
  }

  /** The second line adds one envelope to the log of the first. */
  lemma {:induction false} AppendTo(st: Files, first: string, second: string, id: string, codec: Codec)
    requires IsEnvelope(first, codec) && IsEnvelope(second, codec) && st.log == Some(Terminated([first]))
    ensures var st' := Apply(st, Append([second]), id, codec);
            |Present(st, codec)| == 1 && |Present(st', codec)| == 2 && Present(st, codec) <= Present(st', codec)
  {
    TerminatedTwo(first, second);
    EveryLineCounts([first], codec);
    EveryLineCounts([first, second], codec);
    LinesOfTerminated([first]);
    AppendGrows(st, [second], id, codec);
  }

  /** A compaction reads what is there and lists no artifact. */
  lemma {:induction false} BeginAndList(steps: seq<Step>, id: string, codec: Codec)
    requires Present(Run(NO_FILES, steps, id, codec), codec) != [] && Run(NO_FILES, steps, id, codec).artifacts == []
    ensures var st := Run(NO_FILES, steps, id, codec);
            Run(NO_FILES, steps + [Begin] + [List(|st.works|)], id, codec)
            == st.(works := st.works + [Listed(Present(st, codec), [])])
  {
    var st := Run(NO_FILES, steps, id, codec);
    RunSnoc(NO_FILES, steps, Begin, id, codec);
    RunSnoc(NO_FILES, steps + [Begin], List(|st.works|), id, codec);
  }

  /** One compaction reads before an append and another after it; neither finds an artifact to check. */
  function Overlap(first: string, second: string): seq<Step> {
    [Append([first])] + [Begin] + [List(0)] + [Append([second])] + [Begin] + [List(1)]
  }

  lemma {:induction false} OverlapReads(first: string, second: string, id: string, codec: Codec)
    requires IsEnvelope(first, codec) && IsEnvelope(second, codec)
    ensures var st := Run(NO_FILES, Overlap(first, second), id, codec);
            && st.parquet.None? && st.artifacts == [] && |st.works| == 2
            && st.works[0].Listed? && st.works[1].Listed? && st.works[0].listed == st.works[1].listed == []
            && st.works[0].envelopes < st.works[1].envelopes == Present(st, codec)
  {
    var one := [Append([first])];
    RunOne(NO_FILES, Append([first]), id, codec);
    assert "" + Terminated([first]) == Terminated([first]);
    var a := Run(NO_FILES, one, id, codec);
    AppendTo(a, first, second, id, codec);
    BeginAndList(one, id, codec);
    var two := one + [Begin] + [List(0)];
    RunSnoc(NO_FILES, two, Append([second]), id, codec);
    AppendTo(Run(NO_FILES, two, id, codec), first, second, id, codec);
    BeginAndList(two + [Append([second])], id, codec);
  }

  lemma {:induction false} AppendOnlySnoc(steps: seq<Step>, step: Step)
    requires IsAppendOnly(steps) && (step.Append? ==> forall j :: 0 <= j < |step.lines| ==> '\n' !in step.lines[j])
    ensures IsAppendOnly(steps + [step])
  {
  }

  /** Two listed compactions that found no artifacts decide to write, and write in the wrong order. */
  lemma {:induction false} BothWrite(steps: seq<Step>, size: int, id: string, codec: Codec) returns (more: seq<Step>)
    requires var st := Run(NO_FILES, steps, id, codec);
             && IsAppendOnly(steps) && |st.works| == 2 && st.parquet.None?
             && st.works[0].Listed? && st.works[1].Listed? && st.works[0].listed == st.works[1].listed == []
    ensures IsAppendOnly(more)
    ensures var st := Run(NO_FILES, steps, id, codec);
            Run(NO_FILES, more, id, codec)
            == Apply(Apply(BothBuilding(st), Write(1, size), id, codec), Write(0, size), id, codec)
  {
    RunSnoc(NO_FILES, steps, Check(0, true), id, codec);
    AppendOnlySnoc(steps, Check(0, true));
    more := steps + [Check(0, true)];
    RunSnoc(NO_FILES, more, Check(1, true), id, codec);
    AppendOnlySnoc(more, Check(1, true));
    more := more + [Check(1, true)];
    RunSnoc(NO_FILES, more, Write(1, size), id, codec);
    AppendOnlySnoc(more, Write(1, size));
    more := more + [Write(1, size)];
    RunSnoc(NO_FILES, more, Write(0, size), id, codec);
    AppendOnlySnoc(more, Write(0, size));
    more := more + [Write(0, size)];
  }

  lemma {:induction false} OverlapIsAppendOnly(first: string, second: string, codec: Codec)
    requires IsEnvelope(first, codec) && IsEnvelope(second, codec)
    ensures IsAppendOnly(Overlap(first, second))
  {
    var steps := [Append([first])];
    AppendOnlySnoc(steps, Begin);
    AppendOnlySnoc(steps + [Begin], List(0));
    AppendOnlySnoc(steps + [Begin] + [List(0)], Append([second]));
    AppendOnlySnoc(steps + [Begin] + [List(0)] + [Append([second])], Begin);
    AppendOnlySnoc(steps + [Begin] + [List(0)] + [Append([second])] + [Begin], List(1));
  }

  /** Both compactions past their check, with what they read. */
  function BothBuilding(st: Files): (decided: Files)
    requires |st.works| == 2 && st.works[0].Listed? && st.works[1].Listed?
    ensures decided.log == st.log && |decided.works| == 2
    ensures decided.works[0] == Building(st.works[0].envelopes) && decided.works[1] == Building(st.works[1].envelopes)
  {
    st.(works := [Building(st.works[0].envelopes), Building(st.works[1].envelopes)])
  }

  lemma {:induction false} WriteInWrongOrder(steps: seq<Step>, size: int, id: string,
        codec: Codec) returns (more: seq<Step>)
    requires var st := Run(NO_FILES, steps, id, codec);
             && IsAppendOnly(steps) && |st.works| == 2 && st.parquet.None?
             && st.works[0].Listed? && st.works[1].Listed? && st.works[0].listed == st.works[1].listed == []
             && st.works[0].envelopes < st.works[1].envelopes == Present(st, codec)
    ensures IsAppendOnly(more)
    ensures var st := Run(NO_FILES, more, id, codec);
            && |st.works| == 2 && st.works[0] == st.works[1] == Written(size)
            && st.parquet.Some? && st.parquet != Some(TableOf(id, Present(st, codec), codec.dump))
  {
    more := BothWrite(steps, size, id, codec);
    OlderReadCanWriteLast(BothBuilding(Run(NO_FILES, steps, id, codec)), 0, 1, size, id, codec);
  }

  /** So some run writes a table of the present log and then puts an older one in its place. */
  lemma {:induction false} CompactionCanGoBack(first: string, second: string, size: int, id: string, codec: Codec)
    returns (steps: seq<Step>)
    requires IsEnvelope(first, codec) && IsEnvelope(second, codec)
    ensures IsAppendOnly(steps)
    ensures var st := Run(NO_FILES, steps, id, codec);
            && |st.works| == 2 && st.works[0] == st.works[1] == Written(size)
            && st.parquet.Some? && st.parquet != Some(TableOf(id, Present(st, codec), codec.dump))
  {
    OverlapReads(first, second, id, codec);
    OverlapIsAppendOnly(first, second, codec);
    steps := WriteInWrongOrder(Overlap(first, second), size, id, codec);
  }
}
