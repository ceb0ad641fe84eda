/**
 * The migration runner: apply, in file-name order, every `*.sql` file whose stem is not
 * yet recorded in `schema_migrations`, one statement at a time.
 */
module SqlRunner {
  import Text

  /** A migration file in the SQL directory: its name (matching `*.sql`) and its text. */
  datatype SqlFile = SqlFile(name: string, text: string)

  /** The name matches the glob `*.sql`. */
  predicate IsSqlName(name: string)
  {
    |name| >= 4 && name[|name| - 4..] == ".sql"
  }

  /**
   * `path.stem` for a name matching `*.sql`: the name without `.sql`, except for the bare
   * name `.sql`, which has no suffix and is its own stem.
   */
  function Stem(name: string): (r: string)
    ensures |r| <= |name| && r == name[..|r|]
    ensures |r| < |name| <==> IsSqlName(name) && name != ".sql"
    ensures |r| < |name| ==> |r| == |name| - 4
  {
    if IsSqlName(name) && |name| > 4 then name[..|name| - 4] else name
  }

  // ---------------------------------------------------------------------
  // Statements of a file
  // ---------------------------------------------------------------------

  /** The non-empty stripped pieces, in order. */
  function NonBlankPieces(pieces: seq<string>): seq<string>
  {
    if pieces == [] then []
    else
      var init := NonBlankPieces(pieces[..|pieces| - 1]);
      var stmt := Text.Strip(pieces[|pieces| - 1]);
      if stmt == "" then init else init + [stmt]
  }

  lemma NonBlankStep(pieces: seq<string>, i: nat)
    requires i < |pieces|
    ensures NonBlankPieces(pieces[..i + 1])
            == NonBlankPieces(pieces[..i]) + (if Text.Strip(pieces[i]) == "" then [] else [Text.Strip(pieces[i])])
  {
    assert pieces[..i + 1][..i] == pieces[..i];
  }

  /** The statements `_execute_sql_file` runs: the text split on `;`, stripped, blanks dropped. */
  function Statements(sql: string): (r: seq<string>)
    ensures forall k :: 0 <= k < |r| ==> IsStatement(r[k])
  {
    Text.SplitPartsLackSeparator(sql, ';');
    NonBlankPiecesAreStatements(Text.Split(sql, ';'));
    NonBlankPieces(Text.Split(sql, ';'))
  }

  /** A statement as it is run: non-empty, without surrounding blanks or a `;`. */
  predicate IsStatement(stmt: string)
  {
    stmt != "" && Text.Strip(stmt) == stmt && ';' !in stmt
  }

  lemma {:induction false} NonBlankPiecesAreStatements(pieces: seq<string>)
    requires forall k :: 0 <= k < |pieces| ==> ';' !in pieces[k]
    ensures forall k :: 0 <= k < |NonBlankPieces(pieces)| ==> IsStatement(NonBlankPieces(pieces)[k])
  {
    if pieces != [] {
      var last := pieces[|pieces| - 1];
      NonBlankPiecesAreStatements(pieces[..|pieces| - 1]);
      Text.StripIdempotent(last);
      Text.StripIsTrimmedSlice(last);
    }
  }

  lemma {:induction false} NonBlankPiecesOfStatements(stmts: seq<string>)
    requires forall k :: 0 <= k < |stmts| ==> stmts[k] != "" && Text.Strip(stmts[k]) == stmts[k]
    ensures NonBlankPieces(stmts) == stmts
  {
    if stmts != [] {
      var init, last := stmts[..|stmts| - 1], stmts[|stmts| - 1];
      NonBlankPiecesOfStatements(init);
      assert NonBlankPieces(stmts) == NonBlankPieces(init) + [last];
      assert stmts == init + [last];
    }
  }

  /**
   * Nothing is lost or invented: statements joined with `;` come back out exactly, in
   * order, with a trailing `;` or without.
   */
  lemma StatementsRoundTrip(stmts: seq<string>)
    requires |stmts| >= 1
    requires forall k :: 0 <= k < |stmts| ==> IsStatement(stmts[k])
    ensures Statements(Text.Join(stmts, ";")) == stmts
    ensures Statements(Text.Join(stmts + [""], ";")) == stmts
  {
    Text.SplitJoin(stmts, ';');
    NonBlankPiecesOfStatements(stmts);
    var withEnd := stmts + [""];
    assert forall k :: 0 <= k < |withEnd| ==> ';' !in withEnd[k];
    Text.SplitJoin(withEnd, ';');
    assert withEnd[..|withEnd| - 1] == stmts;
    assert Text.Strip("") == "";
  }

  // ---------------------------------------------------------------------
  // Pending migrations
  // ---------------------------------------------------------------------

  predicate SortedByName(fs: seq<SqlFile>)
  {
    forall i :: 0 <= i < |fs| - 1 ==> Text.StrLe(fs[i].name, fs[i + 1].name)
  }

  function InsertByName(f: SqlFile, s: seq<SqlFile>): (r: seq<SqlFile>)
    requires SortedByName(s)
    ensures SortedByName(r) && multiset(r) == multiset(s) + multiset{f}
    ensures |r| == |s| + 1 && (r[0] == f || (s != [] && r[0] == s[0]))
  {
    if s == [] then [f]
    else if Text.StrLe(f.name, s[0].name) then [f] + s
    else
      Text.StrLeTotal(f.name, s[0].name);
      assert s == [s[0]] + s[1..];
      [s[0]] + InsertByName(f, s[1..])
  }

  /** `sorted(paths)` for files of one directory: by name. */
  function SortByName(s: seq<SqlFile>): (r: seq<SqlFile>)
    ensures SortedByName(r) && multiset(r) == multiset(s)
  {
    if s == [] then []
    else
      assert s == s[..|s| - 1] + [s[|s| - 1]];
      InsertByName(s[|s| - 1], SortByName(s[..|s| - 1]))
  }

  predicate AllSqlNames(files: seq<SqlFile>)
  {
    forall k :: 0 <= k < |files| ==> IsSqlName(files[k].name)
  }

  /** The files whose stem is not recorded, in directory order. */
  function Unapplied(files: seq<SqlFile>, applied: set<string>): (r: seq<SqlFile>)
  {
    if files == [] then []
    else
      var f := files[|files| - 1];
      Unapplied(files[..|files| - 1], applied) + (if Stem(f.name) !in applied then [f] else [])
  }

  /** The pending migrations: the unapplied files, sorted by name. */
  function Pending(files: seq<SqlFile>, applied: set<string>): (r: seq<SqlFile>)
    ensures SortedByName(r) && multiset(r) == multiset(Unapplied(files, applied))
  {
    SortByName(Unapplied(files, applied))
  }

  /** All stems in the directory. */
  function Stems(files: seq<SqlFile>): set<string>
  {
    set k | 0 <= k < |files| :: Stem(files[k].name)
  }

  /** The statements of the given files, file after file. */
  function AllStatements(fs: seq<SqlFile>): seq<string>
  {
    if fs == [] then [] else AllStatements(fs[..|fs| - 1]) + Statements(fs[|fs| - 1].text)
  }

  lemma AllStatementsStep(fs: seq<SqlFile>, i: nat)
    requires i < |fs|
    ensures AllStatements(fs[..i + 1]) == AllStatements(fs[..i]) + Statements(fs[i].text)
  {
    assert fs[..i + 1][..i] == fs[..i];
  }

  lemma StemsStep(fs: seq<SqlFile>, i: nat)
    requires i < |fs|
    ensures Stems(fs[..i + 1]) == Stems(fs[..i]) + {Stem(fs[i].name)}
  {
    var a, b := fs[..i + 1], fs[..i];
    forall s | s in Stems(a) ensures s in Stems(b) + {Stem(fs[i].name)}
    {
      var k :| 0 <= k < |a| && s == Stem(a[k].name);
      if k < i {
        assert b[k] == a[k];
      }
    }
    forall s | s in Stems(b) ensures s in Stems(a)
    {
      var k :| 0 <= k < |b| && s == Stem(b[k].name);
      assert a[k] == b[k];
    }
    assert a[i] == fs[i];
  }

  /** The database after the files `done` have been applied, starting from `applied0`/`executed0`. */
  predicate Progress(applied0: set<string>, executed0: seq<string>, done: seq<SqlFile>,
                     applied: set<string>, executed: seq<string>)
  {
    applied == applied0 + Stems(done) && executed == executed0 + AllStatements(done)
  }

  lemma ProgressStep(applied0: set<string>, executed0: seq<string>, fs: seq<SqlFile>, i: nat,
                     applied: set<string>, executed: seq<string>, applied': set<string>, executed': seq<string>)
    requires i < |fs|
    requires Progress(applied0, executed0, fs[..i], applied, executed)
    requires executed' == executed + Statements(fs[i].text)
    requires applied' == applied + {Stem(fs[i].name)}
    ensures Progress(applied0, executed0, fs[..i + 1], applied', executed')
  {
    AllStatementsStep(fs, i);
    ConcatAssoc(executed0, AllStatements(fs[..i]), Statements(fs[i].text));
    StemsStep(fs, i);
  }

  lemma ConcatAssoc(a: seq<string>, b: seq<string>, c: seq<string>)
    ensures (a + b) + c == a + (b + c)
  {
  }

  /** Stems are the version keys, and `version` is the table's primary key. */
  predicate DistinctStems(files: seq<SqlFile>)
  {
    forall i, j :: 0 <= i < j < |files| ==> Stem(files[i].name) != Stem(files[j].name)
  }

  /** The warehouse as far as migrations go: the recorded versions and the statements run. */
  class MigrationDb {
    var applied: set<string>
    var executed: seq<string>

    constructor (applied0: set<string>)
      ensures applied == applied0 && executed == []
    {
      applied := applied0;
      executed := [];
    }

    /** `_execute_sql_file`: run each non-blank statement of the text, in order. */
    method ExecuteSqlFile(sql: string)
      modifies this
      ensures executed == old(executed) + Statements(sql)
      ensures applied == old(applied)
    {
      var pieces := Text.Split(sql, ';');
      ghost var executed0 := executed;
      for i := 0 to |pieces|
        invariant executed == executed0 + NonBlankPieces(pieces[..i])
        invariant applied == old(applied)
      {
        NonBlankStep(pieces, i);
        var stmt := Text.Strip(pieces[i]);
        if stmt != "" {
          ConcatAssoc(executed0, NonBlankPieces(pieces[..i]), [stmt]);
          executed := executed + [stmt];
        }
      }
      assert pieces[..|pieces|] == pieces;
    }

    /** The loop of `apply_pending_migrations`: run each file, then record its stem. */
    method ApplyInOrder(pending: seq<SqlFile>)
      modifies this
      ensures applied == old(applied) + Stems(pending)
      ensures executed == old(executed) + AllStatements(pending)
    {
      ghost var applied0, executed0 := applied, executed;
      for i := 0 to |pending|
        invariant Progress(applied0, executed0, pending[..i], applied, executed)
      {
        ghost var appliedBefore, executedBefore := applied, executed;
        ExecuteSqlFile(pending[i].text);
        applied := applied + {Stem(pending[i].name)};
        ProgressStep(applied0, executed0, pending, i, appliedBefore, executedBefore, applied, executed);
      }
      assert pending[..|pending|] == pending;
    }

    /**
     * `apply_pending_migrations`: run every pending file in name order, record its stem,
     * and return how many there were.
     */
    method ApplyPendingMigrations(files: seq<SqlFile>) returns (count: nat)
      requires AllSqlNames(files) && DistinctStems(files)
      modifies this
      ensures count == |Pending(files, old(applied))|
      ensures applied == old(applied) + Stems(Pending(files, old(applied)))
      ensures executed == old(executed) + AllStatements(Pending(files, old(applied)))
    {
      var pending := Pending(files, applied);
      ApplyInOrder(pending);
      return |pending|;
    }
  }

  lemma {:induction false} UnappliedMembers(files: seq<SqlFile>, applied: set<string>, f: SqlFile)
    ensures f in Unapplied(files, applied) <==> f in files && Stem(f.name) !in applied
  {
    if files != [] {
      var init := files[..|files| - 1];
      UnappliedMembers(init, applied, f);
      assert files == init + [files[|files| - 1]];
    }
  }

  /**
   * The pending list, specified: sorted by name, and a file is in it exactly when it is
   * in the directory and its stem has not been applied.
   */
  lemma PendingIffUnapplied(files: seq<SqlFile>, applied: set<string>, f: SqlFile)
    ensures SortedByName(Pending(files, applied))
    ensures f in Pending(files, applied) <==> f in files && Stem(f.name) !in applied
  {
    var u := Unapplied(files, applied);
    assert f in Pending(files, applied) <==> f in multiset(Pending(files, applied));
    assert f in u <==> f in multiset(u);
    UnappliedMembers(files, applied, f);
  }

  /**
   * After a run, every stem in the directory is applied: the pending files' stems are
   * exactly the directory's stems that were missing.
   */
  lemma AppliedAfterwardsCoversDirectory(files: seq<SqlFile>, applied: set<string>)
    ensures applied + Stems(Pending(files, applied)) == applied + Stems(files)
  {
    var pending := Pending(files, applied);
    var added := Stems(pending);
    forall s | s in added ensures s in Stems(files)
    {
      var k :| 0 <= k < |pending| && s == Stem(pending[k].name);
      PendingIffUnapplied(files, applied, pending[k]);
      var j :| 0 <= j < |files| && files[j] == pending[k];
    }
    forall s | s in Stems(files) && s !in applied ensures s in added
    {
      var j :| 0 <= j < |files| && s == Stem(files[j].name);
      PendingIffUnapplied(files, applied, files[j]);
      var k :| 0 <= k < |pending| && pending[k] == files[j];
    }
  }

  /** Once every stem is applied nothing is pending: a second run applies 0 migrations. */
  lemma SecondRunAppliesNothing(files: seq<SqlFile>, applied: set<string>)
    ensures Pending(files, applied + Stems(files)) == []
  {
    var pending := Pending(files, applied + Stems(files));
    if pending != [] {
      PendingIffUnapplied(files, applied + Stems(files), pending[0]);
    }
  }
}
