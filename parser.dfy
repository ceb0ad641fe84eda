/**
 * `parse_jsonl_file`: turns the lines of a JSON-lines file into the parsed objects
 * (`good`) and the rejected lines (`bad`), skipping blank lines. The file has already
 * been read and split into lines; `json.loads` is the `decode` parameter.
 */
module Parser {
  import opened Wrappers
  import opened Json
  import Text

  /** A line that decoded to a JSON object; `data` is that object's members. */
  datatype ParsedLine = ParsedLine(lineNumber: nat, data: seq<(string, Json)>)

  /** A line that could not be turned into a JSON object. */
  datatype BadLine = BadLine(lineNumber: int, rawText: string, reason: string)

  /** What `json.loads` does with one stripped line: a value, or a JSONDecodeError. */
  datatype DecodeResult = Decoded(value: Json) | DecodeError(msg: string, colno: int)

  /** The three ways one line can end. */
  datatype LineOutcome = Blank | Good(parsed: ParsedLine) | Bad(bad: BadLine)

  const InvalidJsonPrefix := "invalid JSON: "
  const NotObjectPrefix := "expected JSON object, got "

  /** The body of the parser's loop for the line numbered `lineNumber` (1-based). */
  function ClassifyLine(lineNumber: nat, line: string, decode: string -> DecodeResult): (r: LineOutcome)
    ensures r.Blank? <==> Text.Strip(line) == []
    ensures r.Good? ==> r.parsed.lineNumber == lineNumber && decode(Text.Strip(line)) == Decoded(JObject(r.parsed.data))
    ensures r.Bad? ==> r.bad.lineNumber == lineNumber && r.bad.rawText == Text.Strip(line)
  {
    var raw := Text.Strip(line);
    if raw == [] then Blank
    else
      match decode(raw)
      case DecodeError(msg, colno) =>
        Bad(BadLine(lineNumber, raw, InvalidJsonPrefix + msg + " (col " + Text.IntToString(colno) + ")"))
      case Decoded(v) =>
        if v.JObject? then Good(ParsedLine(lineNumber, v.members))
        else Bad(BadLine(lineNumber, raw, NotObjectPrefix + TypeName(v)))
  }

  /** What one line adds to `good`. */
  function GoodOf(o: LineOutcome): seq<ParsedLine>
  {
    if o.Good? then [o.parsed] else []
  }

  /** What one line adds to `bad`. */
  function BadOf(o: LineOutcome): seq<BadLine>
  {
    if o.Bad? then [o.bad] else []
  }

  /** The outcome of the last of `lines`, numbered `|lines|`. */
  function LastOutcome(lines: seq<string>, decode: string -> DecodeResult): LineOutcome
    requires |lines| > 0
  {
    ClassifyLine(|lines|, lines[|lines| - 1], decode)
  }

  /** The `good` list after the first `|lines|` lines. */
  function GoodLines(lines: seq<string>, decode: string -> DecodeResult): (r: seq<ParsedLine>)
    ensures |r| <= |lines|
  {
    if |lines| == 0 then []
    else GoodLines(lines[..|lines| - 1], decode) + GoodOf(LastOutcome(lines, decode))
  }

  /** The `bad` list after the first `|lines|` lines. */
  function BadLines(lines: seq<string>, decode: string -> DecodeResult): (r: seq<BadLine>)
    ensures |r| <= |lines|
  {
    if |lines| == 0 then []
    else BadLines(lines[..|lines| - 1], decode) + BadOf(LastOutcome(lines, decode))
  }

  /** An outcome carries the number of the line it was computed for. */
  lemma OutcomeKeepsNumber(n: nat, line: string, decode: string -> DecodeResult)
    ensures ClassifyLine(n, line, decode).Good? ==> ClassifyLine(n, line, decode).parsed.lineNumber == n
    ensures ClassifyLine(n, line, decode).Bad? ==> ClassifyLine(n, line, decode).bad.lineNumber == n
  {
  }

  /** `parse_jsonl_file`: the line loop, appending to `good` and `bad` in place. */
  method ParseJsonlFile(lines: seq<string>, decode: string -> DecodeResult)
    returns (good: seq<ParsedLine>, bad: seq<BadLine>)
    ensures good == GoodLines(lines, decode)
    ensures bad == BadLines(lines, decode)
  {
    good, bad := [], [];
    for i := 0 to |lines|
      invariant good == GoodLines(lines[..i], decode)
      invariant bad == BadLines(lines[..i], decode)
    {
      assert lines[..i + 1][..i] == lines[..i];
      var lineNumber := i + 1;
      var raw := Text.Strip(lines[i]);
      if raw == [] {
        continue;
      }
      match decode(raw)
      case DecodeError(msg, colno) =>
        bad := bad + [BadLine(lineNumber, raw, InvalidJsonPrefix + msg + " (col " + Text.IntToString(colno) + ")")];
      case Decoded(v) =>
        if !v.JObject? {
          bad := bad + [BadLine(lineNumber, raw, NotObjectPrefix + TypeName(v))];
        } else {
          good := good + [ParsedLine(lineNumber, v.members)];
        }
    }
    assert lines[..|lines|] == lines;
  }

  // ---------------------------------------------------------------------
  // What the two lists hold
  // ---------------------------------------------------------------------

  /** The (0-based) positions of the lines that are not blank. */
  function NonBlankPositions(lines: seq<string>): set<nat>
  {
    set i: nat | i < |lines| && Text.Strip(lines[i]) != []
  }

  /** Every entry of `good` is the outcome of the line it names: a line that decoded to an object. */
  lemma {:induction false} GoodEntriesComeFromTheirLines(lines: seq<string>, decode: string -> DecodeResult)
    ensures forall g :: g in GoodLines(lines, decode) ==>
      1 <= g.lineNumber <= |lines| && ClassifyLine(g.lineNumber, lines[g.lineNumber - 1], decode) == Good(g)
  {
    if |lines| > 0 {
      var n := |lines|;
      var init := lines[..n - 1];
      GoodEntriesComeFromTheirLines(init, decode);
      OutcomeKeepsNumber(n, lines[n - 1], decode);
      var g0 := GoodLines(init, decode);
      var last := GoodOf(LastOutcome(lines, decode));
      assert GoodLines(lines, decode) == g0 + last;
      forall g: ParsedLine | g in g0 + last
        ensures 1 <= g.lineNumber <= n && ClassifyLine(g.lineNumber, lines[g.lineNumber - 1], decode) == Good(g)
      {
        if g in g0 {
          assert init[g.lineNumber - 1] == lines[g.lineNumber - 1];
        }
      }
    }
  }

  /** Every entry of `bad` is the outcome of the line it names. */
  lemma {:induction false} BadEntriesComeFromTheirLines(lines: seq<string>, decode: string -> DecodeResult)
    ensures forall b :: b in BadLines(lines, decode) ==>
      1 <= b.lineNumber <= |lines| && ClassifyLine(b.lineNumber, lines[b.lineNumber - 1], decode) == Bad(b)
  {
    if |lines| > 0 {
      var n := |lines|;
      var init := lines[..n - 1];
      BadEntriesComeFromTheirLines(init, decode);
      OutcomeKeepsNumber(n, lines[n - 1], decode);
      var b0 := BadLines(init, decode);
      var last := BadOf(LastOutcome(lines, decode));
      assert BadLines(lines, decode) == b0 + last;
      forall b: BadLine | b in b0 + last
        ensures 1 <= b.lineNumber <= n && ClassifyLine(b.lineNumber, lines[b.lineNumber - 1], decode) == Bad(b)
      {
        if b in b0 {
          assert init[b.lineNumber - 1] == lines[b.lineNumber - 1];
        }
      }
    }
  }

  /** No non-blank line is lost: each one has its entry in `good` or in `bad`. */
  lemma {:induction false} EveryLineHasAnEntry(lines: seq<string>, decode: string -> DecodeResult, n: nat)
    requires 1 <= n <= |lines|
    ensures ClassifyLine(n, lines[n - 1], decode).Good? ==>
      exists k :: 0 <= k < |GoodLines(lines, decode)| && GoodLines(lines, decode)[k].lineNumber == n
    ensures ClassifyLine(n, lines[n - 1], decode).Bad? ==>
      exists k :: 0 <= k < |BadLines(lines, decode)| && BadLines(lines, decode)[k].lineNumber == n
  {
    var init := lines[..|lines| - 1];
    var good, bad := GoodLines(lines, decode), BadLines(lines, decode);
    OutcomeKeepsNumber(n, lines[n - 1], decode);
    if n == |lines| {
      match ClassifyLine(n, lines[n - 1], decode)
      case Good(p) => assert good[|good| - 1] == p;
      case Bad(b) => assert bad[|bad| - 1] == b;
      case Blank =>
    } else {
      assert init[n - 1] == lines[n - 1];
      EveryLineHasAnEntry(init, decode, n);
      var g0, b0 := GoodLines(init, decode), BadLines(init, decode);
      assert good[..|g0|] == g0;
      assert bad[..|b0|] == b0;
    }
  }

  /** `good` is in strictly increasing line-number order. */
  lemma {:induction false} GoodLineNumbersIncrease(lines: seq<string>, decode: string -> DecodeResult)
    ensures forall i, j :: 0 <= i < j < |GoodLines(lines, decode)| ==>
      GoodLines(lines, decode)[i].lineNumber < GoodLines(lines, decode)[j].lineNumber
  {
    if |lines| > 0 {
      var n := |lines|;
      var init := lines[..n - 1];
      GoodLineNumbersIncrease(init, decode);
      GoodEntriesComeFromTheirLines(init, decode);
      OutcomeKeepsNumber(n, lines[n - 1], decode);
      var g0, good := GoodLines(init, decode), GoodLines(lines, decode);
      assert good == g0 + GoodOf(LastOutcome(lines, decode));
      forall i, j | 0 <= i < j < |good| ensures good[i].lineNumber < good[j].lineNumber {
        if j >= |g0| {
          assert good[i] in g0;
        } else {
          assert good[i] == g0[i] && good[j] == g0[j];
        }
      }
    }
  }

  /** `bad` is in strictly increasing line-number order. */
  lemma {:induction false} BadLineNumbersIncrease(lines: seq<string>, decode: string -> DecodeResult)
    ensures forall i, j :: 0 <= i < j < |BadLines(lines, decode)| ==>
      BadLines(lines, decode)[i].lineNumber < BadLines(lines, decode)[j].lineNumber
  {
    if |lines| > 0 {
      var n := |lines|;
      var init := lines[..n - 1];
      BadLineNumbersIncrease(init, decode);
      BadEntriesComeFromTheirLines(init, decode);
      OutcomeKeepsNumber(n, lines[n - 1], decode);
      var b0, bad := BadLines(init, decode), BadLines(lines, decode);
      assert bad == b0 + BadOf(LastOutcome(lines, decode));
      forall i, j | 0 <= i < j < |bad| ensures bad[i].lineNumber < bad[j].lineNumber {
        if j >= |b0| {
          assert bad[i] in b0;
        } else {
          assert bad[i] == b0[i] && bad[j] == b0[j];
        }
      }
    }
  }

  /** One more line adds one non-blank position exactly when it is not blank. */
  lemma NonBlankStep(lines: seq<string>)
    requires |lines| > 0
    ensures NonBlankPositions(lines) == NonBlankPositions(lines[..|lines| - 1])
      + (if Text.Strip(lines[|lines| - 1]) == [] then {} else {|lines| - 1})
    ensures |lines| - 1 !in NonBlankPositions(lines[..|lines| - 1])
  {
    var n := |lines|;
    var init := lines[..n - 1];
    var last := if Text.Strip(lines[n - 1]) == [] then {} else {n - 1};
    forall i: nat | i in NonBlankPositions(lines) ensures i in NonBlankPositions(init) + last {
      if i < n - 1 { assert init[i] == lines[i]; }
    }
    forall i: nat | i in NonBlankPositions(init) + last ensures i in NonBlankPositions(lines) {
      if i < n - 1 { assert init[i] == lines[i]; }
    }
  }

  /** One line lands in exactly one list unless it is blank. */
  lemma OneOutcomePerLine(lines: seq<string>, decode: string -> DecodeResult)
    requires |lines| > 0
    ensures |GoodOf(LastOutcome(lines, decode))| + |BadOf(LastOutcome(lines, decode))|
      == if Text.Strip(lines[|lines| - 1]) == [] then 0 else 1
  {
  }

  /** A line is counted once: `len(good) + len(bad)` is the number of non-blank lines. */
  lemma {:induction false} CountsNonBlankLines(lines: seq<string>, decode: string -> DecodeResult)
    ensures |GoodLines(lines, decode)| + |BadLines(lines, decode)| == |NonBlankPositions(lines)|
  {
    if |lines| == 0 {
      assert NonBlankPositions(lines) == {};
    } else {
      CountsNonBlankLines(lines[..|lines| - 1], decode);
      NonBlankStep(lines);
      OneOutcomePerLine(lines, decode);
    }
  }

  /**
   * A whitespace-only line is skipped: its outcome is neither good nor bad, so by
   * GoodEntriesComeFromTheirLines and BadEntriesComeFromTheirLines no entry names it.
   */
  lemma BlankLineIsSkipped(n: nat, line: string, decode: string -> DecodeResult)
    requires Text.AllSpace(line)
    ensures ClassifyLine(n, line, decode) == Blank
  {
    Text.StripEmptyIffBlank(line);
  }

  /**
   * A line that fails to decode is rejected with its stripped text and an
   * "invalid JSON:" reason; one that decodes to a non-object is rejected naming the type.
   */
  lemma RejectionReasons(n: nat, line: string, decode: string -> DecodeResult)
    requires Text.Strip(line) != []
    ensures decode(Text.Strip(line)).DecodeError? ==>
      var o := ClassifyLine(n, line, decode);
      o.Bad? && o.bad.rawText == Text.Strip(line) && o.bad.reason[..|InvalidJsonPrefix|] == InvalidJsonPrefix
    ensures decode(Text.Strip(line)).Decoded? && !decode(Text.Strip(line)).value.JObject? ==>
      ClassifyLine(n, line, decode)
        == Bad(BadLine(n, Text.Strip(line), NotObjectPrefix + TypeName(decode(Text.Strip(line)).value)))
    ensures decode(Text.Strip(line)).Decoded? && decode(Text.Strip(line)).value.JObject? ==>
      ClassifyLine(n, line, decode) == Good(ParsedLine(n, decode(Text.Strip(line)).value.members))
  {
  }

  /** Empty input gives `([], [])`. */
  lemma EmptyInput(decode: string -> DecodeResult)
    ensures GoodLines([], decode) == [] && BadLines([], decode) == []
  {
  }
}
