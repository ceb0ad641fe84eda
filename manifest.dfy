/**
 * The ingest manifest: one record per file path with the fingerprint (mtime, size) it
 * was ingested at, so that unchanged files are skipped and corrected files re-ingested.
 */
module Manifest {
  import opened Fs
  import Discovery

  /** One `ingest_manifest` row, keyed elsewhere by `file_path`. */
  datatype ManifestRecord = ManifestRecord(mtime: int, size: int, eventCount: int, errorCount: int, ingestedAt: int)

  /** The manifest table: `file_path` (the path's text) to its record. */
  type Table = map<string, ManifestRecord>

  /** `is_already_ingested`: a record exists with this path, mtime and size. */
  predicate IsAlreadyIngested(table: Table, f: Discovery.FoundFile)
    ensures IsAlreadyIngested(table, f) ==> PathText(f.path) in table
  {
    var key := PathText(f.path);
    key in table && table[key].mtime == f.mtime && table[key].size == f.size
  }

  /** The table after the upsert `mark_ingested` performs. */
  function Upsert(table: Table, f: Discovery.FoundFile, eventCount: int, errorCount: int, now: int): (r: Table)
    ensures table.Keys <= r.Keys
    ensures |r| <= |table| + 1
  {
    table[PathText(f.path) := ManifestRecord(f.mtime, f.size, eventCount, errorCount, now)]
  }

  /** The manifest as the database holds it. */
  class ManifestStore {
    var table: Table

    constructor (table0: Table)
      ensures table == table0
    {
      table := table0;
    }

    /**
     * `mark_ingested`: insert the file's record or, when its path is already recorded,
     * replace that record. The database's `now()` is a parameter.
     */
    method MarkIngested(f: Discovery.FoundFile, eventCount: int, errorCount: int, now: int)
      modifies this
      ensures table == Upsert(old(table), f, eventCount, errorCount, now)
    {
      table := table[PathText(f.path) := ManifestRecord(f.mtime, f.size, eventCount, errorCount, now)];
    }
  }

  /** A file just marked is recognised as ingested. */
  lemma MarkedIsIngested(table: Table, f: Discovery.FoundFile, eventCount: int, errorCount: int, now: int)
    ensures IsAlreadyIngested(Upsert(table, f, eventCount, errorCount, now), f)
  {
  }

  /** The same path with a different mtime or size is a new version, not yet ingested. */
  lemma ChangedFingerprintIsNew(table: Table, f: Discovery.FoundFile, g: Discovery.FoundFile,
                                eventCount: int, errorCount: int, now: int)
    requires g.path == f.path && (g.mtime != f.mtime || g.size != f.size)
    ensures !IsAlreadyIngested(Upsert(table, f, eventCount, errorCount, now), g)
  {
  }

  /** The lookup is exact: true iff the path's record carries exactly this fingerprint. */
  lemma IngestedIffSameFingerprint(table: Table, f: Discovery.FoundFile, g: Discovery.FoundFile,
                                   eventCount: int, errorCount: int, now: int)
    requires g.path == f.path
    ensures IsAlreadyIngested(Upsert(table, f, eventCount, errorCount, now), g)
            <==> g.mtime == f.mtime && g.size == f.size
  {
  }

  /**
   * Upserting keeps one record per path: the set of recorded paths grows by at most this
   * one, so marking an already recorded path adds no row.
   */
  lemma UpsertAddsAtMostOneRecord(table: Table, f: Discovery.FoundFile, eventCount: int, errorCount: int, now: int)
    ensures Upsert(table, f, eventCount, errorCount, now).Keys == table.Keys + {PathText(f.path)}
    ensures PathText(f.path) in table ==> |Upsert(table, f, eventCount, errorCount, now)| == |table|
  {
    var t := Upsert(table, f, eventCount, errorCount, now);
    if PathText(f.path) in table {
      assert t.Keys == table.Keys;
    }
  }

  /** Re-marking a recorded path replaces its mtime, size and counts. */
  lemma UpsertReplacesRecord(table: Table, f: Discovery.FoundFile, eventCount: int, errorCount: int, now: int)
    ensures var r := Upsert(table, f, eventCount, errorCount, now)[PathText(f.path)];
            r.mtime == f.mtime && r.size == f.size && r.eventCount == eventCount && r.errorCount == errorCount
  {
  }

  /** Records for other paths are left as they were, and so is their lookup. */
  lemma OtherRecordsUnaffected(table: Table, f: Discovery.FoundFile, g: Discovery.FoundFile,
                               eventCount: int, errorCount: int, now: int)
    requires PathText(g.path) != PathText(f.path)
    ensures var t := Upsert(table, f, eventCount, errorCount, now);
            (PathText(g.path) in t <==> PathText(g.path) in table)
            && (PathText(g.path) in table ==> t[PathText(g.path)] == table[PathText(g.path)])
            && (IsAlreadyIngested(t, g) <==> IsAlreadyIngested(table, g))
  {
  }
}
