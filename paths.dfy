/** `ProjectPaths`: every directory piper manages, derived from `data_root`. */
module Paths {
  import opened Fs

  datatype ProjectPaths = ProjectPaths(
    rawRoot: Path,
    dataRoot: Path,
    warehouseDir: Path,
    silverDir: Path,
    stateDir: Path,
    quarantineDir: Path,
    runLogsDir: Path)

  /** `ProjectPaths.from_settings`: the raw and data roots as configured. */
  function FromSettings(rawRoot: Path, dataRoot: Path): (p: ProjectPaths)
    ensures p.rawRoot == rawRoot && p.dataRoot == dataRoot
    ensures p.warehouseDir == dataRoot + ["warehouse"]
    ensures p.silverDir == dataRoot + ["silver"]
    ensures p.stateDir == dataRoot + ["state"]
    ensures p.runLogsDir == dataRoot + ["run_logs"]
    ensures p.quarantineDir == dataRoot + ["quarantine", "invalid_jsonl"]
  {
    ProjectPaths(
      rawRoot, dataRoot,
      Child(dataRoot, "warehouse"),
      Child(dataRoot, "silver"),
      Child(dataRoot, "state"),
      Child(Child(dataRoot, "quarantine"), "invalid_jsonl"),
      Child(dataRoot, "run_logs"))
  }

  /** The five output directories, in the order `ensure_output_dirs` creates them. */
  function OutputDirs(p: ProjectPaths): seq<Path>
  {
    [p.warehouseDir, p.silverDir, p.stateDir, p.quarantineDir, p.runLogsDir]
  }

  /** Every directory that creating each of `ds` with its parents makes sure exists. */
  function CreatedBy(ds: seq<Path>): set<Path>
  {
    if ds == [] then {} else CreatedBy(ds[..|ds| - 1]) + Prefixes(ds[|ds| - 1])
  }

  /** `ensure_output_dirs`: creates the five output directories and their missing parents. */
  method EnsureOutputDirs(p: ProjectPaths, fs: FileSystem)
    modifies fs
    ensures fs.dirs == old(fs.dirs) + CreatedBy(OutputDirs(p))
    ensures fs.files == old(fs.files)
  {
    var ds := OutputDirs(p);
    for i := 0 to |ds|
      invariant fs.dirs == old(fs.dirs) + CreatedBy(ds[..i])
      invariant fs.files == old(fs.files)
    {
      fs.MakeDirs(ds[i]);
      assert ds[..i + 1][..i] == ds[..i];
    }
    assert ds[..|ds|] == ds;
  }

  lemma {:induction false} CreatedByMembers(ds: seq<Path>, q: Path)
    ensures q in CreatedBy(ds) <==> exists k :: 0 <= k < |ds| && q in Prefixes(ds[k])
  {
    if ds != [] {
      var init := ds[..|ds| - 1];
      CreatedByMembers(init, q);
      if q in CreatedBy(init) {
        var k :| 0 <= k < |init| && q in Prefixes(init[k]);
        assert ds[k] == init[k];
      }
      if q in Prefixes(ds[|ds| - 1]) {
      } else if exists k :: 0 <= k < |ds| && q in Prefixes(ds[k]) {
        var k :| 0 <= k < |ds| && q in Prefixes(ds[k]);
        assert k < |init| && init[k] == ds[k];
      }
    }
  }

  /** An ancestor of `base + tail` is an ancestor of `base` or extends `base` by part of `tail`. */
  lemma PrefixOfExtension(base: Path, tail: Path, q: Path)
    requires q in Prefixes(base + tail)
    ensures (|q| <= |base| && q == base[..|q|]) || (|q| > |base| && q == base + tail[..|q| - |base|])
  {
    var whole := base + tail;
    if |q| <= |base| {
      assert base[..|q|] == whole[..|q|];
    } else {
      assert q == whole[..|q|];
      assert whole[..|q|] == base + tail[..|q| - |base|];
    }
  }

  /**
   * Every directory `ensure_output_dirs` creates is one of the five output directories,
   * `data_root/quarantine`, `data_root`, or an ancestor of `data_root`.
   */
  lemma CreatesOnlyOutputDirsAndTheirParents(rawRoot: Path, dataRoot: Path, q: Path)
    requires q in CreatedBy(OutputDirs(FromSettings(rawRoot, dataRoot)))
    ensures q in OutputDirs(FromSettings(rawRoot, dataRoot))
            || q == dataRoot + ["quarantine"]
            || (|q| <= |dataRoot| && q == dataRoot[..|q|])
  {
    var p := FromSettings(rawRoot, dataRoot);
    var ds := OutputDirs(p);
    CreatedByMembers(ds, q);
    var k :| 0 <= k < 5 && q in Prefixes(ds[k]);
    if k == 3 {
      PrefixOfExtension(dataRoot, ["quarantine", "invalid_jsonl"], q);
      if |q| == |dataRoot| + 1 {
        assert ["quarantine", "invalid_jsonl"][..1] == ["quarantine"];
      } else if |q| == |dataRoot| + 2 {
        assert ["quarantine", "invalid_jsonl"][..2] == ["quarantine", "invalid_jsonl"];
      }
    } else {
      var name := if k == 0 then "warehouse" else if k == 1 then "silver" else if k == 2 then "state" else "run_logs";
      assert ds[k] == dataRoot + [name];
      PrefixOfExtension(dataRoot, [name], q);
      if |q| > |dataRoot| {
        assert [name][..1] == [name];
      }
    }
  }

  /** All five output directories exist afterwards. */
  lemma OutputDirsAreCreated(p: ProjectPaths, k: nat)
    requires k < 5
    requires OutputDirs(p)[k] != []
    ensures OutputDirs(p)[k] in CreatedBy(OutputDirs(p))
  {
    CreatedByMembers(OutputDirs(p), OutputDirs(p)[k]);
  }

  /**
   * `raw_root` is left alone: when it is neither inside `data_root` nor `data_root` or
   * one of its ancestors, `ensure_output_dirs` does not create it.
   */
  lemma RawRootNotCreated(rawRoot: Path, dataRoot: Path)
    requires !(|rawRoot| <= |dataRoot| && rawRoot == dataRoot[..|rawRoot|])
    requires !(|dataRoot| <= |rawRoot| && dataRoot == rawRoot[..|dataRoot|])
    ensures rawRoot !in CreatedBy(OutputDirs(FromSettings(rawRoot, dataRoot)))
  {
    if rawRoot in CreatedBy(OutputDirs(FromSettings(rawRoot, dataRoot))) {
      CreatesOnlyOutputDirsAndTheirParents(rawRoot, dataRoot, rawRoot);
    }
  }

  /** A second `ensure_output_dirs` changes nothing. */
  lemma EnsureOutputDirsIdempotent(dirs: set<Path>, p: ProjectPaths)
    ensures (dirs + CreatedBy(OutputDirs(p))) + CreatedBy(OutputDirs(p)) == dirs + CreatedBy(OutputDirs(p))
  {
  }
}
