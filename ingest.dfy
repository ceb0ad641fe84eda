/**
 * `ingest_file`: parse one settled file, quarantine the lines that do not parse or do not
 * validate, flatten the valid events into rows, and insert the rows into `silver_events`,
 * where an `event_id` already present wins (`ON CONFLICT (event_id) DO NOTHING`).
 */
module Ingest {
  import opened Wrappers
  import opened Json
  import opened Fs
  import Envelope
  import Parser
  import Validate
  import Row
  import Quarantine
  import Discovery

  // ---------------------------------------------------------------------
  // The event store
  // ---------------------------------------------------------------------

  /** `silver_events`, keyed by its primary key `event_id`. */
  type Store = map<string, Row.SilverRow>

  /** One insert with `ON CONFLICT (event_id) DO NOTHING`. */
  function InsertRow(store: Store, r: Row.SilverRow): (s: Store)
    ensures s.Keys == store.Keys + {r.eventId}
    ensures forall id :: id in store ==> s[id] == store[id]
    ensures r.eventId !in store ==> s[r.eventId] == r
  {
    if r.eventId in store then store else store[r.eventId := r]
  }

  /** The store after inserting `rows` one after the other. */
  function InsertAll(store: Store, rows: seq<Row.SilverRow>): (s: Store)
    ensures store.Keys <= s.Keys
  {
    if rows == [] then store else InsertRow(InsertAll(store, rows[..|rows| - 1]), rows[|rows| - 1])
  }

  /** The ids of a batch of rows. */
  function Ids(rows: seq<Row.SilverRow>): set<string>
  {
    set k | 0 <= k < |rows| :: rows[k].eventId
  }

  lemma InsertAllStep(store: Store, rows: seq<Row.SilverRow>, i: nat)
    requires i < |rows|
    ensures InsertAll(store, rows[..i + 1]) == InsertRow(InsertAll(store, rows[..i]), rows[i])
  {
    assert rows[..i + 1][..i] == rows[..i];
  }

  lemma IdsStep(rows: seq<Row.SilverRow>)
    requires rows != []
    ensures Ids(rows) == Ids(rows[..|rows| - 1]) + {rows[|rows| - 1].eventId}
  {
    var init := rows[..|rows| - 1];
    forall id | id in Ids(rows) ensures id in Ids(init) + {rows[|rows| - 1].eventId}
    {
      var k :| 0 <= k < |rows| && rows[k].eventId == id;
      if k < |init| {
        assert init[k] == rows[k];
      }
    }
    forall id | id in Ids(init) ensures id in Ids(rows)
    {
      var k :| 0 <= k < |init| && init[k].eventId == id;
      assert rows[k] == init[k];
    }
  }

  /** The `silver_events` table. */
  class EventStore {
    var rows: Store

    constructor (rows0: Store)
      ensures rows == rows0
    {
      rows := rows0;
    }

    /** `_silver_count`. */
    method Count() returns (n: nat)
      ensures n == |rows|
    {
      n := |rows|;
    }

    /** `executemany` of the insert: each row in turn, a present `event_id` skipped. */
    method ExecuteMany(batch: seq<Row.SilverRow>)
      modifies this
      ensures rows == InsertAll(old(rows), batch)
    {
      for i := 0 to |batch|
        invariant rows == InsertAll(old(rows), batch[..i])
      {
        InsertAllStep(old(rows), batch, i);
        if batch[i].eventId !in rows {
          rows := rows[batch[i].eventId := batch[i]];
        }
      }
      assert batch[..|batch|] == batch;
    }
  }

  /** Inserting never changes or removes a row already there. */
  lemma {:induction false} InsertAllKeepsExisting(store: Store, rows: seq<Row.SilverRow>, id: string)
    requires id in store
    ensures id in InsertAll(store, rows) && InsertAll(store, rows)[id] == store[id]
  {
    if rows != [] {
      InsertAllKeepsExisting(store, rows[..|rows| - 1], id);
    }
  }

  /** Afterwards the store holds exactly its old ids and the batch's ids. */
  lemma {:induction false} InsertAllKeys(store: Store, rows: seq<Row.SilverRow>)
    ensures InsertAll(store, rows).Keys == store.Keys + Ids(rows)
  {
    if rows != [] {
      InsertAllKeys(store, rows[..|rows| - 1]);
      IdsStep(rows);
    }
  }

  /**
   * Within a batch the first row with a new `event_id` is the one stored; later rows
   * with the same id are skipped.
   */
  lemma {:induction false} InsertAllFirstWins(store: Store, rows: seq<Row.SilverRow>, i: nat)
    requires i < |rows| && rows[i].eventId !in store
    requires forall j :: 0 <= j < i ==> rows[j].eventId != rows[i].eventId
    ensures rows[i].eventId in InsertAll(store, rows) && InsertAll(store, rows)[rows[i].eventId] == rows[i]
  {
    var init := rows[..|rows| - 1];
    var id := rows[i].eventId;
    if i == |rows| - 1 {
      InsertAllKeys(store, init);
    } else {
      assert init[i] == rows[i];
      forall j | 0 <= j < i ensures init[j].eventId != init[i].eventId
      {
        assert init[j] == rows[j];
      }
      InsertAllFirstWins(store, init, i);
    }
  }

  /** Each insert adds at most one row, and only when its id is new. */
  lemma {:induction false} InsertAllGrowth(store: Store, rows: seq<Row.SilverRow>)
    ensures |store| <= |InsertAll(store, rows)| <= |store| + |rows|
  {
    if rows != [] {
      InsertAllGrowth(store, rows[..|rows| - 1]);
    }
  }

  /** A batch whose ids are all present already changes nothing. */
  lemma {:induction false} InsertAllOfPresentIds(store: Store, rows: seq<Row.SilverRow>)
    requires Ids(rows) <= store.Keys
    ensures InsertAll(store, rows) == store
  {
    if rows != [] {
      IdsStep(rows);
      InsertAllOfPresentIds(store, rows[..|rows| - 1]);
    }
  }

  /** Inserting the same batch twice is inserting it once. */
  lemma InsertAllIdempotent(store: Store, rows: seq<Row.SilverRow>)
    ensures InsertAll(InsertAll(store, rows), rows) == InsertAll(store, rows)
  {
    InsertAllKeys(store, rows);
    InsertAllOfPresentIds(InsertAll(store, rows), rows);
  }

  // ---------------------------------------------------------------------
  // One file
  // ---------------------------------------------------------------------

  /**
   * What `ingest_file` gets from outside: the quarantine directory, the partition date,
   * the quarantine records' stamp, the current time for the skew check (microseconds),
   * and the JSON library's decoding, timestamp parsing and string quoting.
   */
  datatype IngestContext = IngestContext(
    quarantineDir: Path,
    today: Quarantine.Date,
    stampedAt: string,
    now: int,
    decode: string -> Parser.DecodeResult,
    parseTime: Json -> Envelope.TimeParse,
    quote: string -> string)

  /** `validate_envelope(parsed.data)`. */
  function Validated(p: Parser.ParsedLine, ctx: IngestContext): Result<Envelope.Envelope, Validate.EnvelopeError>
  {
    Validate.ValidateEnvelope(p.data, ctx.now, ctx.parseTime)
  }

  /** The row for a valid line of `file`. */
  function RowOf(p: Parser.ParsedLine, env: Envelope.Envelope, file: Path, ctx: IngestContext): Row.SilverRow
  {
    Row.FromEnvelope(env, PathText(file), p.lineNumber, ctx.quote)
  }

  /** The quarantine entry for a line that failed validation: the object re-serialised compactly. */
  function RejectedLine(p: Parser.ParsedLine, e: Validate.EnvelopeError, ctx: IngestContext): Parser.BadLine
  {
    Parser.BadLine(p.lineNumber, Compact(JObject(p.data), ctx.quote), Validate.Message(e))
  }

  /** What one parsed line adds to `rows`. */
  function RowsOf(p: Parser.ParsedLine, file: Path, ctx: IngestContext): seq<Row.SilverRow>
  {
    var v := Validated(p, ctx);
    if v.Success? then [RowOf(p, v.value, file, ctx)] else []
  }

  /** What one parsed line adds to the quarantine. */
  function RejectedOf(p: Parser.ParsedLine, ctx: IngestContext): seq<Parser.BadLine>
  {
    var v := Validated(p, ctx);
    if v.Failure? then [RejectedLine(p, v.error, ctx)] else []
  }

  /** The rows of the valid lines, in line order. */
  function ValidRows(good: seq<Parser.ParsedLine>, file: Path, ctx: IngestContext): seq<Row.SilverRow>
  {
    if good == [] then []
    else
      ValidRows(good[..|good| - 1], file, ctx) + RowsOf(good[|good| - 1], file, ctx)
  }

  /** The quarantine entries of the lines that failed validation, in line order. */
  function Rejected(good: seq<Parser.ParsedLine>, ctx: IngestContext): seq<Parser.BadLine>
  {
    if good == [] then []
    else
      Rejected(good[..|good| - 1], ctx) + RejectedOf(good[|good| - 1], ctx)
  }

  /** The lines written for the given entries. */
  function RecordLines(bads: seq<Parser.BadLine>, file: Path, ctx: IngestContext): seq<string>
  {
    if bads == [] then []
    else RecordLines(bads[..|bads| - 1], file, ctx) + [Quarantine.RecordLine(bads[|bads| - 1], file, ctx.stampedAt, ctx.quote)]
  }

  /** `files` after appending `lines` to the file at `log` (nothing happens for no lines). */
  function AppendLines(files: map<Path, seq<string>>, log: Path, lines: seq<string>): map<Path, seq<string>>
  {
    if lines == [] then files else files[log := Lines(files, log) + lines]
  }

  /** The directories after `n` quarantine writes into `dayDir`. */
  function DirsAfter(dirs: set<Path>, dayDir: Path, n: nat): set<Path>
  {
    if n == 0 then dirs else dirs + Prefixes(dayDir)
  }

  lemma RecordLinesStep(bads: seq<Parser.BadLine>, file: Path, ctx: IngestContext, i: nat)
    requires i < |bads|
    ensures RecordLines(bads[..i + 1], file, ctx)
            == RecordLines(bads[..i], file, ctx) + [Quarantine.RecordLine(bads[i], file, ctx.stampedAt, ctx.quote)]
  {
    assert bads[..i + 1][..i] == bads[..i];
  }

  lemma {:induction false} RecordLinesConcat(a: seq<Parser.BadLine>, b: seq<Parser.BadLine>, file: Path, ctx: IngestContext)
    ensures RecordLines(a + b, file, ctx) == RecordLines(a, file, ctx) + RecordLines(b, file, ctx)
    decreases |b|
  {
    if b != [] {
      var init := b[..|b| - 1];
      assert (a + b)[..|a + b| - 1] == a + init;
      RecordLinesConcat(a, init, file, ctx);
    } else {
      assert a + b == a;
    }
  }

  lemma RecordLinesLength(bads: seq<Parser.BadLine>, file: Path, ctx: IngestContext)
    ensures |RecordLines(bads, file, ctx)| == |bads|
  {
  }

  /** Appending one line after others is appending them all at once. */
  lemma AppendOneMore(files: map<Path, seq<string>>, log: Path, lines: seq<string>, line: string)
    ensures AppendLines(files, log, lines + [line])
            == AppendLines(files, log, lines)[log := Lines(AppendLines(files, log, lines), log) + [line]]
  {
    var m := AppendLines(files, log, lines);
    assert lines + [line] != [];
    if lines == [] {
      assert lines + [line] == [line];
      assert m == files;
    } else {
      assert m[log] == Lines(files, log) + lines;
      assert Lines(m, log) == Lines(files, log) + lines;
      assert Lines(files, log) + lines + [line] == Lines(files, log) + (lines + [line]);
    }
  }

  lemma AppendTwice(files: map<Path, seq<string>>, log: Path, a: seq<string>, b: seq<string>)
    ensures AppendLines(AppendLines(files, log, a), log, b) == AppendLines(files, log, a + b)
  {
    if a == [] {
      assert a + b == b;
    } else if b != [] {
      assert Lines(files, log) + a + b == Lines(files, log) + (a + b);
    } else {
      assert a + b == a;
    }
  }

  /** The quarantine after the record lines `recs` were appended to `log` in `dayDir`. */
  predicate Written(files0: map<Path, seq<string>>, dirs0: set<Path>, log: Path, dayDir: Path, recs: seq<string>,
                    files: map<Path, seq<string>>, dirs: set<Path>)
  {
    files == AppendLines(files0, log, recs) && dirs == DirsAfter(dirs0, dayDir, |recs|)
  }

  lemma WrittenStep(files0: map<Path, seq<string>>, dirs0: set<Path>, log: Path, dayDir: Path, recs: seq<string>,
                    line: string, files: map<Path, seq<string>>, dirs: set<Path>,
                    files': map<Path, seq<string>>, dirs': set<Path>)
    requires Written(files0, dirs0, log, dayDir, recs, files, dirs)
    requires files' == files[log := Lines(files, log) + [line]]
    requires dirs' == dirs + Prefixes(dayDir)
    ensures Written(files0, dirs0, log, dayDir, recs + [line], files', dirs')
  {
    AppendOneMore(files0, log, recs, line);
  }

  /** Where the quarantine records of `file` go in this run. */
  function LogOf(file: Path, ctx: IngestContext): Path
    requires Quarantine.ValidDate(ctx.today)
  {
    Quarantine.LogPath(ctx.quarantineDir, file, ctx.today)
  }

  function DayDirOf(ctx: IngestContext): Path
    requires Quarantine.ValidDate(ctx.today)
  {
    Quarantine.DayDir(ctx.quarantineDir, ctx.today)
  }

  /** The first loop of `ingest_file`: quarantine each line that did not parse. */
  method QuarantineAll(fs: FileSystem, file: Path, bads: seq<Parser.BadLine>, ctx: IngestContext)
    requires Quarantine.ValidDate(ctx.today)
    modifies fs
    ensures Written(old(fs.files), old(fs.dirs), LogOf(file, ctx), DayDirOf(ctx), RecordLines(bads, file, ctx), fs.files, fs.dirs)
  {
    ghost var log, dayDir := LogOf(file, ctx), DayDirOf(ctx);
    for i := 0 to |bads|
      invariant Written(old(fs.files), old(fs.dirs), log, dayDir, RecordLines(bads[..i], file, ctx), fs.files, fs.dirs)
    {
      ghost var files, dirs := fs.files, fs.dirs;
      Quarantine.QuarantineLine(fs, ctx.quarantineDir, file, bads[i], ctx.today, ctx.stampedAt, ctx.quote);
      RecordLinesStep(bads, file, ctx, i);
      WrittenStep(old(fs.files), old(fs.dirs), log, dayDir, RecordLines(bads[..i], file, ctx),
                  Quarantine.RecordLine(bads[i], file, ctx.stampedAt, ctx.quote), files, dirs, fs.files, fs.dirs);
    }
    assert bads[..|bads|] == bads;
  }

  lemma ValidationStep(good: seq<Parser.ParsedLine>, file: Path, ctx: IngestContext, i: nat)
    requires i < |good|
    ensures ValidRows(good[..i + 1], file, ctx) == ValidRows(good[..i], file, ctx) + RowsOf(good[i], file, ctx)
    ensures Rejected(good[..i + 1], ctx) == Rejected(good[..i], ctx) + RejectedOf(good[i], ctx)
  {
    assert good[..i + 1][..i] == good[..i];
  }

  /** Two batches of quarantine writes to the same log are one batch of their concatenation. */
  lemma WrittenConcat(files0: map<Path, seq<string>>, dirs0: set<Path>, log: Path, dayDir: Path,
                      a: seq<string>, files1: map<Path, seq<string>>, dirs1: set<Path>,
                      b: seq<string>, files2: map<Path, seq<string>>, dirs2: set<Path>)
    requires Written(files0, dirs0, log, dayDir, a, files1, dirs1)
    requires Written(files1, dirs1, log, dayDir, b, files2, dirs2)
    ensures Written(files0, dirs0, log, dayDir, a + b, files2, dirs2)
  {
    AppendTwice(files0, log, a, b);
    if a == [] {
      assert a + b == b;
    }
  }

  /** One turn of the second loop of `ingest_file`: validate one parsed line. */
  method ValidateLine(fs: FileSystem, file: Path, parsed: Parser.ParsedLine, ctx: IngestContext)
    returns (row: seq<Row.SilverRow>, rejected: nat)
    requires Quarantine.ValidDate(ctx.today)
    modifies fs
    ensures row == RowsOf(parsed, file, ctx)
    ensures rejected == |RejectedOf(parsed, ctx)|
    ensures Written(old(fs.files), old(fs.dirs), LogOf(file, ctx), DayDirOf(ctx),
                    RecordLines(RejectedOf(parsed, ctx), file, ctx), fs.files, fs.dirs)
  {
    var v := Validated(parsed, ctx);
    if v.Failure? {
      var bad := RejectedLine(parsed, v.error, ctx);
      Quarantine.QuarantineLine(fs, ctx.quarantineDir, file, bad, ctx.today, ctx.stampedAt, ctx.quote);
      assert RecordLines([bad], file, ctx) == [Quarantine.RecordLine(bad, file, ctx.stampedAt, ctx.quote)];
      row, rejected := [], 1;
    } else {
      row, rejected := [RowOf(parsed, v.value, file, ctx)], 0;
    }
  }

  /**
   * The second loop of `ingest_file`: validate each parsed line, quarantining a failure
   * and collecting the row of a success.
   */
  method ValidateAll(fs: FileSystem, file: Path, good: seq<Parser.ParsedLine>, ctx: IngestContext)
    returns (rows: seq<Row.SilverRow>, validationErrors: nat)
    requires Quarantine.ValidDate(ctx.today)
    modifies fs
    ensures rows == ValidRows(good, file, ctx)
    ensures validationErrors == |Rejected(good, ctx)|
    ensures Written(old(fs.files), old(fs.dirs), LogOf(file, ctx), DayDirOf(ctx), RecordLines(Rejected(good, ctx), file, ctx), fs.files, fs.dirs)
  {
    rows, validationErrors := [], 0;
    ghost var files0, dirs0 := fs.files, fs.dirs;
    ghost var log, dayDir := LogOf(file, ctx), DayDirOf(ctx);
    for i := 0 to |good|
      invariant rows == ValidRows(good[..i], file, ctx)
      invariant validationErrors == |Rejected(good[..i], ctx)|
      invariant Written(files0, dirs0, log, dayDir, RecordLines(Rejected(good[..i], ctx), file, ctx), fs.files, fs.dirs)
    {
      ghost var files, dirs := fs.files, fs.dirs;
      var row, rejected := ValidateLine(fs, file, good[i], ctx);
      ValidationStep(good, file, ctx, i);
      RecordLinesConcat(Rejected(good[..i], ctx), RejectedOf(good[i], ctx), file, ctx);
      WrittenConcat(files0, dirs0, log, dayDir, RecordLines(Rejected(good[..i], ctx), file, ctx), files, dirs,
                    RecordLines(RejectedOf(good[i], ctx), file, ctx), fs.files, fs.dirs);
      rows := rows + row;
      validationErrors := validationErrors + rejected;
    }
    assert good[..|good|] == good;
  }

  /** `IngestStats`. */
  datatype IngestStats = IngestStats(total: int, accepted: int, duplicate: int, quarantined: int)

  /** The good lines of the file. */
  function Good(lines: seq<string>, ctx: IngestContext): seq<Parser.ParsedLine>
  {
    Parser.GoodLines(lines, ctx.decode)
  }

  /** Every line quarantined, in the order written: parse failures, then validation failures. */
  function QuarantinedLines(lines: seq<string>, ctx: IngestContext): seq<Parser.BadLine>
  {
    Parser.BadLines(lines, ctx.decode) + Rejected(Good(lines, ctx), ctx)
  }

  /** The store after ingesting the file. */
  function StoreAfter(store: Store, lines: seq<string>, file: Path, ctx: IngestContext): Store
  {
    InsertAll(store, ValidRows(Good(lines, ctx), file, ctx))
  }

  /** The statistics reported for the file. */
  function Stats(store: Store, lines: seq<string>, file: Path, ctx: IngestContext): (s: IngestStats)
    ensures s.accepted + s.duplicate == |ValidRows(Good(lines, ctx), file, ctx)|
    ensures s.quarantined == |QuarantinedLines(lines, ctx)|
  {
    var accepted := |StoreAfter(store, lines, file, ctx)| - |store|;
    IngestStats(
      |Good(lines, ctx)| + |Parser.BadLines(lines, ctx.decode)|,
      accepted,
      |ValidRows(Good(lines, ctx), file, ctx)| - accepted,
      |QuarantinedLines(lines, ctx)|)
  }

  /**
   * Step 3 of `ingest_file`: insert the rows, counting the inserted ones as the growth
   * of the table; no rows, nothing accepted.
   */
  method UpsertRows(store: EventStore, rows: seq<Row.SilverRow>) returns (accepted: int)
    modifies store
    ensures store.rows == InsertAll(old(store.rows), rows)
    ensures accepted == |store.rows| - |old(store.rows)|
  {
    if |rows| > 0 {
      var pre := store.Count();
      store.ExecuteMany(rows);
      InsertAllGrowth(old(store.rows), rows);
      var post := store.Count();
      accepted := post - pre;
    } else {
      accepted := 0;
    }
  }

  /**
   * `ingest_file` on a file whose lines are `lines`: every quarantined line is appended
   * to the file's log for the day, the valid rows are inserted, and `accepted` is the
   * growth of the store.
   */
  method IngestFile(fs: FileSystem, store: EventStore, file: Discovery.FoundFile, lines: seq<string>, ctx: IngestContext)
    returns (stats: IngestStats)
    requires Quarantine.ValidDate(ctx.today)
    modifies fs, store
    ensures store.rows == StoreAfter(old(store.rows), lines, file.path, ctx)
    ensures Written(old(fs.files), old(fs.dirs), LogOf(file.path, ctx), DayDirOf(ctx),
                    RecordLines(QuarantinedLines(lines, ctx), file.path, ctx), fs.files, fs.dirs)
    ensures stats == Stats(old(store.rows), lines, file.path, ctx)
  {
    ghost var files0, dirs0 := fs.files, fs.dirs;
    var good, bad := Parser.ParseJsonlFile(lines, ctx.decode);
    QuarantineAll(fs, file.path, bad, ctx);
    ghost var files1, dirs1 := fs.files, fs.dirs;
    var rows, validationErrors := ValidateAll(fs, file.path, good, ctx);
    RecordLinesConcat(bad, Rejected(good, ctx), file.path, ctx);
    WrittenConcat(files0, dirs0, LogOf(file.path, ctx), DayDirOf(ctx), RecordLines(bad, file.path, ctx), files1, dirs1,
                  RecordLines(Rejected(good, ctx), file.path, ctx), fs.files, fs.dirs);
    var accepted := UpsertRows(store, rows);
    stats := IngestStats(|good| + |bad|, accepted, |rows| - accepted, |bad| + validationErrors);
  }

  // ---------------------------------------------------------------------
  // Properties of a run
  // ---------------------------------------------------------------------

  lemma {:induction false} EveryParsedLineIsRowOrRejected(good: seq<Parser.ParsedLine>, file: Path, ctx: IngestContext)
    ensures |ValidRows(good, file, ctx)| + |Rejected(good, ctx)| == |good|
  {
    if good != [] {
      EveryParsedLineIsRowOrRejected(good[..|good| - 1], file, ctx);
    }
  }

  /**
   * The counts add up: `total` is the number of non-blank lines and equals
   * `accepted + duplicate + quarantined`; `accepted` and `duplicate` are both within
   * `0..len(rows)`.
   */
  lemma StatsAddUp(store: Store, lines: seq<string>, file: Path, ctx: IngestContext)
    ensures var s := Stats(store, lines, file, ctx);
            s.total == |Parser.NonBlankPositions(lines)|
            && s.total == s.accepted + s.duplicate + s.quarantined
            && 0 <= s.accepted <= |ValidRows(Good(lines, ctx), file, ctx)|
            && 0 <= s.duplicate <= |ValidRows(Good(lines, ctx), file, ctx)|
  {
    Parser.CountsNonBlankLines(lines, ctx.decode);
    EveryParsedLineIsRowOrRejected(Good(lines, ctx), file, ctx);
    InsertAllGrowth(store, ValidRows(Good(lines, ctx), file, ctx));
  }

  /** Every valid line's `event_id` is in the store afterwards, and no other new id is. */
  lemma ValidEventsAreStored(store: Store, lines: seq<string>, file: Path, ctx: IngestContext)
    ensures StoreAfter(store, lines, file, ctx).Keys == store.Keys + Ids(ValidRows(Good(lines, ctx), file, ctx))
  {
    InsertAllKeys(store, ValidRows(Good(lines, ctx), file, ctx));
  }

  /** Rows already in the store are never changed by an ingest. */
  lemma ExistingRowsUnchanged(store: Store, lines: seq<string>, file: Path, ctx: IngestContext, id: string)
    requires id in store
    ensures id in StoreAfter(store, lines, file, ctx) && StoreAfter(store, lines, file, ctx)[id] == store[id]
  {
    InsertAllKeepsExisting(store, ValidRows(Good(lines, ctx), file, ctx), id);
  }

  /**
   * Ingesting the same file again inserts nothing: the store is unchanged, `accepted` is
   * 0 and every valid row counts as a duplicate.
   */
  lemma ReingestAcceptsNothing(store: Store, lines: seq<string>, file: Path, ctx: IngestContext)
    ensures StoreAfter(StoreAfter(store, lines, file, ctx), lines, file, ctx) == StoreAfter(store, lines, file, ctx)
    ensures Stats(StoreAfter(store, lines, file, ctx), lines, file, ctx).accepted == 0
    ensures Stats(StoreAfter(store, lines, file, ctx), lines, file, ctx).duplicate
            == |ValidRows(Good(lines, ctx), file, ctx)|
  {
    InsertAllIdempotent(store, ValidRows(Good(lines, ctx), file, ctx));
  }

  /** Each valid row is the flattened envelope of a good line, tagged with its file and line. */
  lemma {:induction false} ValidRowsComeFromValidLines(good: seq<Parser.ParsedLine>, file: Path, ctx: IngestContext, k: nat)
    requires k < |ValidRows(good, file, ctx)|
    ensures exists j :: 0 <= j < |good| && Validated(good[j], ctx).Success?
                        && ValidRows(good, file, ctx)[k] == RowOf(good[j], Validated(good[j], ctx).value, file, ctx)
  {
    var init := good[..|good| - 1];
    if k < |ValidRows(init, file, ctx)| {
      ValidRowsComeFromValidLines(init, file, ctx, k);
      var j :| 0 <= j < |init| && Validated(init[j], ctx).Success?
               && ValidRows(init, file, ctx)[k] == RowOf(init[j], Validated(init[j], ctx).value, file, ctx);
      assert good[j] == init[j];
    } else {
      assert Validated(good[|good| - 1], ctx).Success?;
    }
  }

  /**
   * A line that fails validation is quarantined with its line number, the error's text
   * as the reason, and as raw text the parsed object re-serialised compactly, not the
   * original line.
   */
  lemma {:induction false} RejectedLinesAreReserialised(good: seq<Parser.ParsedLine>, ctx: IngestContext, k: nat)
    requires k < |Rejected(good, ctx)|
    ensures exists j :: 0 <= j < |good| && Validated(good[j], ctx).Failure?
                        && Rejected(good, ctx)[k] == Parser.BadLine(good[j].lineNumber,
                                                                    Compact(JObject(good[j].data), ctx.quote),
                                                                    Validate.Message(Validated(good[j], ctx).error))
  {
    var init := good[..|good| - 1];
    if k < |Rejected(init, ctx)| {
      RejectedLinesAreReserialised(init, ctx, k);
      var j :| 0 <= j < |init| && Validated(init[j], ctx).Failure?
               && Rejected(init, ctx)[k] == Parser.BadLine(init[j].lineNumber,
                                                           Compact(JObject(init[j].data), ctx.quote),
                                                           Validate.Message(Validated(init[j], ctx).error));
      assert good[j] == init[j];
    } else {
      assert Validated(good[|good| - 1], ctx).Failure?;
    }
  }

  /** A file with no rejected line leaves the quarantine untouched. */
  lemma NothingQuarantinedLeavesNoTrace(files: map<Path, seq<string>>, dirs: set<Path>, lines: seq<string>,
                                        file: Path, ctx: IngestContext)
    requires Quarantine.ValidDate(ctx.today)
    requires QuarantinedLines(lines, ctx) == []
    ensures Written(files, dirs, LogOf(file, ctx), DayDirOf(ctx), RecordLines(QuarantinedLines(lines, ctx), file, ctx), files, dirs)
  {
  }
}
