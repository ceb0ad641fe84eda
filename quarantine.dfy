/**
 * The quarantine writer: every rejected line is appended, as one JSON record, to a
 * per-day, per-source-file log under the quarantine directory.
 */
module Quarantine {
  import opened Wrappers
  import opened Fs
  import opened Json
  import Text
  import Parser
  import Paths

  /** The sub-directory `quarantine_line` adds below the directory it is given. */
  const Subdir := "invalid_jsonl"

  /** A calendar date as `datetime.date` holds it. */
  datatype Date = Date(year: int, month: int, day: int)

  predicate IsLeap(year: int)
  {
    year % 4 == 0 && (year % 100 != 0 || year % 400 == 0)
  }

  function DaysInMonth(year: int, month: int): int
  {
    if month == 2 then (if IsLeap(year) then 29 else 28)
    else if month in {4, 6, 9, 11} then 30
    else 31
  }

  /** The dates `datetime.date` can represent. */
  predicate ValidDate(d: Date)
  {
    1 <= d.year <= 9999 && 1 <= d.month <= 12 && 1 <= d.day <= DaysInMonth(d.year, d.month)
  }

  /** `date.strftime("%Y-%m-%d")`. */
  function DateText(d: Date): string
    requires ValidDate(d)
  {
    Text.ZeroPad(d.year, 4) + "-" + Text.ZeroPad(d.month, 2) + "-" + Text.ZeroPad(d.day, 2)
  }

  /** The three fields of a `YYYY-MM-DD` text are found back at fixed offsets. */
  lemma DashedParts(y: string, m: string, d: string)
    requires |y| == 4 && |m| == 2 && |d| == 2
    ensures var t := y + "-" + m + "-" + d;
            |t| == 10 && t[..4] == y && t[5..7] == m && t[8..] == d
  {
  }

  /** The partition name of a valid date is exactly ten characters, `YYYY-MM-DD`. */
  lemma DateTextShape(d: Date)
    requires ValidDate(d)
    ensures var t := DateText(d);
            |t| == 10 && t[..4] == Text.ZeroPad(d.year, 4) && t[4] == '-'
            && t[5..7] == Text.ZeroPad(d.month, 2) && t[7] == '-' && t[8..] == Text.ZeroPad(d.day, 2)
  {
    Text.ZeroPadExactWidth(d.year, 4);
    Text.ZeroPadExactWidth(d.month, 2);
    Text.ZeroPadExactWidth(d.day, 2);
    DashedParts(Text.ZeroPad(d.year, 4), Text.ZeroPad(d.month, 2), Text.ZeroPad(d.day, 2));
  }

  /** Different days get different partition directories. */
  lemma DateTextInjective(d1: Date, d2: Date)
    requires ValidDate(d1) && ValidDate(d2)
    requires DateText(d1) == DateText(d2)
    ensures d1 == d2
  {
    DateTextShape(d1);
    DateTextShape(d2);
    Text.ZeroPadInjective(d1.year, d2.year, 4);
    Text.ZeroPadInjective(d1.month, d2.month, 2);
    Text.ZeroPadInjective(d1.day, d2.day, 2);
  }

  /** `quarantine_dir / "invalid_jsonl" / "YYYY-MM-DD"`. */
  function DayDir(quarantineDir: Path, today: Date): (r: Path)
    requires ValidDate(today)
    ensures quarantineDir <= r && |r| == |quarantineDir| + 2
  {
    quarantineDir + [Subdir, DateText(today)]
  }

  /** The log a bad line from `sourceFile` goes to: named after the source file. */
  function LogPath(quarantineDir: Path, sourceFile: Path, today: Date): (r: Path)
    requires ValidDate(today)
    ensures |r| == |quarantineDir| + 3 && r[..|r| - 1] == DayDir(quarantineDir, today)
    ensures r[|r| - 1] == Name(sourceFile)
  {
    DayDir(quarantineDir, today) + [Name(sourceFile)]
  }

  /** The five members of one quarantine record, in the order they are written. */
  function RecordMembers(bad: Parser.BadLine, sourceFile: Path, stampedAt: string): seq<(string, Json)>
  {
    [("quarantined_at_utc", JString(stampedAt)),
     ("source_file", JString(PathText(sourceFile))),
     ("line_number", JInt(bad.lineNumber)),
     ("reason", JString(bad.reason)),
     ("raw_text", JString(bad.rawText))]
  }

  /** The line appended for one bad line: `json.dumps(record)`, without its newline. */
  function RecordLine(bad: Parser.BadLine, sourceFile: Path, stampedAt: string, quote: string -> string): (r: string)
    ensures |r| >= 2 && r[0] == '{' && r[|r| - 1] == '}'
  {
    DefaultDumps(JObject(RecordMembers(bad, sourceFile, stampedAt)), quote)
  }

  /**
   * A record keeps everything about the bad line: read back by key it gives the time,
   * the source file, and the line's number, reason and raw text unchanged.
   */
  lemma RecordKeepsTheBadLine(bad: Parser.BadLine, sourceFile: Path, stampedAt: string)
    ensures var ms := RecordMembers(bad, sourceFile, stampedAt);
            Get(ms, "quarantined_at_utc") == Some(JString(stampedAt))
            && Get(ms, "source_file") == Some(JString(PathText(sourceFile)))
            && Get(ms, "line_number") == Some(JInt(bad.lineNumber))
            && Get(ms, "reason") == Some(JString(bad.reason))
            && Get(ms, "raw_text") == Some(JString(bad.rawText))
  {
    var m5 := [("raw_text", JString(bad.rawText))];
    var m4 := [("reason", JString(bad.reason))] + m5;
    var m3 := [("line_number", JInt(bad.lineNumber))] + m4;
    var m2 := [("source_file", JString(PathText(sourceFile)))] + m3;
    var ms := [("quarantined_at_utc", JString(stampedAt))] + m2;
    assert ms == RecordMembers(bad, sourceFile, stampedAt);
    GetPrepend([], "raw_text", JString(bad.rawText), "raw_text");
    GetPrepend(m5, "reason", JString(bad.reason), "raw_text");
    GetPrepend(m5, "reason", JString(bad.reason), "reason");
    GetPrepend(m4, "line_number", JInt(bad.lineNumber), "raw_text");
    GetPrepend(m4, "line_number", JInt(bad.lineNumber), "reason");
    GetPrepend(m4, "line_number", JInt(bad.lineNumber), "line_number");
    GetPrepend(m3, "source_file", JString(PathText(sourceFile)), "raw_text");
    GetPrepend(m3, "source_file", JString(PathText(sourceFile)), "reason");
    GetPrepend(m3, "source_file", JString(PathText(sourceFile)), "line_number");
    GetPrepend(m3, "source_file", JString(PathText(sourceFile)), "source_file");
    GetPrepend(m2, "quarantined_at_utc", JString(stampedAt), "raw_text");
    GetPrepend(m2, "quarantined_at_utc", JString(stampedAt), "reason");
    GetPrepend(m2, "quarantined_at_utc", JString(stampedAt), "line_number");
    GetPrepend(m2, "quarantined_at_utc", JString(stampedAt), "source_file");
    GetPrepend(m2, "quarantined_at_utc", JString(stampedAt), "quarantined_at_utc");
  }

  /**
   * `quarantine_line`: makes sure the day's directory exists, then appends the record for
   * `bad` to the log named after `sourceFile`. The partition date and the record's stamp
   * (the current UTC time in ISO format, to the second) are passed in.
   */
  method QuarantineLine(fs: FileSystem, quarantineDir: Path, sourceFile: Path, bad: Parser.BadLine,
                        today: Date, stampedAt: string, quote: string -> string)
    requires ValidDate(today)
    modifies fs
    ensures fs.dirs == old(fs.dirs) + Prefixes(DayDir(quarantineDir, today))
    ensures var log := LogPath(quarantineDir, sourceFile, today);
            fs.files == old(fs.files)[log := Lines(old(fs.files), log) + [RecordLine(bad, sourceFile, stampedAt, quote)]]
  {
    var dayDir := DayDir(quarantineDir, today);
    fs.MakeDirs(dayDir);
    var log := LogPath(quarantineDir, sourceFile, today);
    fs.AppendLine(log, RecordLine(bad, sourceFile, stampedAt, quote));
  }

  /**
   * Logs never mix: bad lines from source files with different names, or quarantined on
   * different days, land in different files.
   */
  lemma SeparateLogs(quarantineDir: Path, source1: Path, today1: Date, source2: Path, today2: Date)
    requires ValidDate(today1) && ValidDate(today2)
    requires Name(source1) != Name(source2) || today1 != today2
    ensures LogPath(quarantineDir, source1, today1) != LogPath(quarantineDir, source2, today2)
  {
    var p1, p2 := LogPath(quarantineDir, source1, today1), LogPath(quarantineDir, source2, today2);
    if p1 == p2 {
      assert p1[..|p1| - 1] == p2[..|p2| - 1];
      assert DayDir(quarantineDir, today1)[|quarantineDir| + 1] == DateText(today1);
      assert DayDir(quarantineDir, today2)[|quarantineDir| + 1] == DateText(today2);
      DateTextInjective(today1, today2);
    }
  }

  lemma SubdirRepeated(dataRoot: Path, qd: Path, day: string, name: string)
    requires qd == dataRoot + ["quarantine", Subdir]
    ensures qd + [Subdir, day] + [name] == dataRoot + ["quarantine", Subdir, Subdir, day, name]
  {
  }

  /**
   * Where quarantined lines actually land when given `ProjectPaths.quarantine_dir`, which
   * already ends in `invalid_jsonl`: the sub-directory appears twice.
   */
  lemma ProjectQuarantineLogPath(rawRoot: Path, dataRoot: Path, sourceFile: Path, today: Date)
    requires ValidDate(today)
    ensures LogPath(Paths.FromSettings(rawRoot, dataRoot).quarantineDir, sourceFile, today)
            == dataRoot + ["quarantine", "invalid_jsonl", "invalid_jsonl", DateText(today), Name(sourceFile)]
  {
    var qd := Paths.FromSettings(rawRoot, dataRoot).quarantineDir;
    assert LogPath(qd, sourceFile, today) == qd + [Subdir, DateText(today)] + [Name(sourceFile)];
    SubdirRepeated(dataRoot, qd, DateText(today), Name(sourceFile));
  }
}
