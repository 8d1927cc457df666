/** Python strings as the code uses them: `strip`, and `split("\n")` over newline-terminated files. */
module Text {

  /** The characters `str.strip` removes. */
  predicate IsSpace(c: char) {
    || '\t' <= c <= '\r' || '\U{1c}' <= c <= ' ' || c == '\U{85}' || c == '\U{a0}' || c == '\U{1680}'
    || '\U{2000}' <= c <= '\U{200a}' || c == '\U{2028}' || c == '\U{2029}' || c == '\U{202f}'
    || c == '\U{205f}' || c == '\U{3000}'
  }

  function StripLeft(s: string): string {
    if s != "" && IsSpace(s[0]) then StripLeft(s[1..]) else s
  }

  function StripRight(s: string): string {
    if s != "" && IsSpace(s[|s| - 1]) then StripRight(s[..|s| - 1]) else s
  }

  function Strip(s: string): string {
    StripRight(StripLeft(s))
  }

  predicate IsBlank(s: string) {
    forall i :: 0 <= i < |s| ==> IsSpace(s[i])
  }

  /** Stripping empties exactly the blank values. */
  lemma {:induction false} StripEmptiesBlanks(s: string)
    ensures Strip(s) == "" <==> IsBlank(s)
  {
    StripLeftBlank(s);
    StripRightBlank(StripLeft(s));
  }

  lemma {:induction false} StripLeftBlank(s: string)
    ensures IsBlank(StripLeft(s)) <==> IsBlank(s)
  {
    if s != "" && IsSpace(s[0]) {
      StripLeftBlank(s[1..]);
      assert s == [s[0]] + s[1..];
    }
  }

  lemma {:induction false} StripRightBlank(s: string)
    ensures StripRight(s) == "" <==> IsBlank(s)
  {
    if s != "" && IsSpace(s[|s| - 1]) {
      StripRightBlank(s[..|s| - 1]);
      assert s == s[..|s| - 1] + [s[|s| - 1]];
    }
  }

  /** Nothing to strip at either end. */
  predicate IsTrimmed(s: string) {
    s == "" || (!IsSpace(s[0]) && !IsSpace(s[|s| - 1]))
  }

  /** `core` is `s` without some of its outer whitespace. */
  ghost predicate IsCoreOf(core: string, s: string) {
    exists i: nat, j: nat :: i <= j <= |s| && core == s[i..j] && IsBlank(s[..i]) && IsBlank(s[j..])
  }

  lemma {:induction false} StripLeftDrops(s: string) returns (i: nat)
    ensures i <= |s| && StripLeft(s) == s[i..] && IsBlank(s[..i])
    ensures StripLeft(s) == "" || !IsSpace(StripLeft(s)[0])
  {
    i := 0;
    if s != "" && IsSpace(s[0]) {
      var tail := s[1..];
      var k := StripLeftDrops(tail);
      i := k + 1;
      assert s[i..] == tail[k..];
      forall j | 0 <= j < i ensures IsSpace(s[..i][j]) {
        if j > 0 { assert s[j] == tail[..k][j - 1]; }
      }
    }
  }

  lemma {:induction false} StripRightDrops(s: string) returns (j: nat)
    ensures j <= |s| && StripRight(s) == s[..j] && IsBlank(s[j..])
    ensures StripRight(s) == "" || !IsSpace(StripRight(s)[j - 1])
  {
    j := |s|;
    if s != "" && IsSpace(s[|s| - 1]) {
      j := StripRightDrops(s[..|s| - 1]);
      assert s[j..] == s[..|s| - 1][j..] + [s[|s| - 1]];
    }
  }

  /** Stripping drops outer whitespace only, and all of it: a value is left alone iff it had none. */
  lemma {:induction false} StripMeaning(s: string)
    ensures IsCoreOf(Strip(s), s) && IsTrimmed(Strip(s))
    ensures Strip(s) == s <==> IsTrimmed(s)
  {
    var i := StripLeftDrops(s);
    var t := s[i..];
    var j := StripRightDrops(t);
    assert t[..j] == s[i..i + j] && t[j..] == s[i + j..];
  }

  // ----- lines of a JSONL file -----

  /** text.split("\n"): one piece more than there are newlines. */
  function Split(text: string): (pieces: seq<string>)
    ensures |pieces| >= 1
  {
    if text == "" then [""]
    else
      var rest := Split(text[1..]);
      if text[0] == '\n' then [""] + rest else [[text[0]] + rest[0]] + rest[1..]
  }

  function NonBlank(lines: seq<string>): seq<string> {
    if lines == [] then []
    else (if IsBlank(lines[0]) then [] else [lines[0]]) + NonBlank(lines[1..])
  }

  /** The lines a reader of the file sees. */
  function Lines(text: string): seq<string> {
    NonBlank(Split(text))
  }

  /** What one append writes: every line followed by a newline. */
  function Terminated(lines: seq<string>): string {
    if lines == [] then "" else lines[0] + "\n" + Terminated(lines[1..])
  }

  ghost predicate IsTerminated(text: string) {
    text == "" || text[|text| - 1] == '\n'
  }

  /** `Split` grows its first piece or starts a new one; either way what follows the pieces is untouched. */
  lemma {:induction false} GlueTail(head: string, x: seq<string>, r: seq<string>)
    requires |x| >= 2
    ensures ([head] + x[1..])[..|x| - 1] + r == [head] + (x[..|x| - 1] + r)[1..]
    ensures ([head] + x[1..])[|x| - 1] == x[|x| - 1]
  {
  }

  lemma {:induction false} GlueBlank(x: seq<string>, r: seq<string>)
    requires |x| >= 1
    ensures ([""] + x)[..|x|] + r == [""] + (x[..|x| - 1] + r)
  {
  }

  lemma {:induction false} SplitConcat(a: string, b: string)
    requires IsTerminated(a)
    ensures Split(a)[|Split(a)| - 1] == ""
    ensures Split(a + b) == Split(a)[..|Split(a)| - 1] + Split(b)
  {
    if a == "" {
      assert a + b == b;
    } else {
      assert (a + b)[1..] == a[1..] + b;
      SplitConcat(a[1..], b);
      var x := Split(a[1..]);
      if a[0] == '\n' {
        GlueBlank(x, Split(b));
      } else {
        GlueTail([a[0]] + x[0], x, Split(b));
      }
    }
  }

  lemma {:induction false} SplitLine(line: string, rest: string)
    requires '\n' !in line
    ensures Split(line + "\n" + rest) == [line] + Split(rest)
  {
    if line == "" {
      assert (line + "\n" + rest)[1..] == rest;
    } else {
      assert (line + "\n" + rest)[1..] == line[1..] + "\n" + rest;
      SplitLine(line[1..], rest);
      assert [line[0]] + line[1..] == line;
    }
  }

  lemma {:induction false} NonBlankConcat(a: seq<string>, b: seq<string>)
    ensures NonBlank(a + b) == NonBlank(a) + NonBlank(b)
  {
    if a == [] {
      assert a + b == b;
    } else {
      assert (a + b)[1..] == a[1..] + b;
      NonBlankConcat(a[1..], b);
      var head := if IsBlank(a[0]) then [] else [a[0]];
      assert head + (NonBlank(a[1..]) + NonBlank(b)) == (head + NonBlank(a[1..])) + NonBlank(b);
    }
  }

  lemma {:induction false} LinesOfTerminated(lines: seq<string>)
    requires forall i :: 0 <= i < |lines| ==> '\n' !in lines[i]
    ensures Lines(Terminated(lines)) == NonBlank(lines) && IsTerminated(Terminated(lines))
  {
    if lines != [] {
      LinesOfTerminated(lines[1..]);
      SplitLine(lines[0], Terminated(lines[1..]));
      assert ([lines[0]] + Split(Terminated(lines[1..])))[1..] == Split(Terminated(lines[1..]));
    } else {
      assert Split("") == [""] && IsBlank("");
    }
  }

  /** Appending terminated lines to a terminated file adds exactly those lines that are not blank. */
  lemma {:induction false} AppendExtendsLines(text: string, lines: seq<string>)
    requires IsTerminated(text) && forall i :: 0 <= i < |lines| ==> '\n' !in lines[i]
    ensures Lines(text + Terminated(lines)) == Lines(text) + NonBlank(lines)
    ensures IsTerminated(text + Terminated(lines))
  {
    var more, init := Terminated(lines), Split(text)[..|Split(text)| - 1];
    LinesOfTerminated(lines);
    SplitConcat(text, more);
    assert Split(text + more) == init + Split(more);
    NonBlankConcat(init, Split(more));
    TrailingBlank(Split(text));
  }

  /** The empty piece after the last newline is not a line. */
  lemma {:induction false} TrailingBlank(pieces: seq<string>)
    requires pieces != [] && pieces[|pieces| - 1] == ""
    ensures NonBlank(pieces) == NonBlank(pieces[..|pieces| - 1])
  {
    assert pieces == pieces[..|pieces| - 1] + [""];
    NonBlankConcat(pieces[..|pieces| - 1], [""]);
    assert IsBlank("") && [""][1..] == [];
  }
}
