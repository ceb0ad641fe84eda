/**
 * The slice of the filesystem the ingest path touches: paths as component lists, the set
 * of existing directories, and files as the lines appended to them.
 */
module Fs {
  import Text

  /**
   * A path as the '/'-separated components of its text; an absolute path starts with
   * the empty component, so `/data/raw` is `["", "data", "raw"]`.
   */
  type Path = seq<string>

  /** `path / name`. */
  function Child(p: Path, name: string): (r: Path)
    ensures |r| == |p| + 1 && r[..|p|] == p && r[|p|] == name
  {
    p + [name]
  }

  /** `path.name`: the final component. */
  function Name(p: Path): string
  {
    if p == [] then "" else p[|p| - 1]
  }

  /** `str(path)`. */
  function PathText(p: Path): string
  {
    Text.Join(p, "/")
  }

  /** What `mkdir(parents=True)` makes sure exists: the path and each of its ancestors. */
  function Prefixes(p: Path): (r: set<Path>)
    ensures p != [] ==> p in r
    ensures forall q :: q in r ==> 1 <= |q| <= |p| && q == p[..|q|]
  {
    assert p != [] ==> p[..|p|] == p;
    set i | 1 <= i <= |p| :: p[..i]
  }

  /** The lines a file holds, none if it does not exist. */
  function Lines(files: map<Path, seq<string>>, p: Path): seq<string>
  {
    if p in files then files[p] else []
  }

  /** Directories, and the files (as lines) under them. */
  class FileSystem {
    var dirs: set<Path>
    var files: map<Path, seq<string>>

    constructor (dirs0: set<Path>, files0: map<Path, seq<string>>)
      ensures dirs == dirs0 && files == files0
    {
      dirs := dirs0;
      files := files0;
    }

    /** `path.mkdir(parents=True, exist_ok=True)`. */
    method MakeDirs(p: Path)
      modifies this
      ensures dirs == old(dirs) + Prefixes(p)
      ensures files == old(files)
    {
      dirs := dirs + Prefixes(p);
    }

    /** Opening `p` for append and writing one line: the file is created when missing. */
    method AppendLine(p: Path, line: string)
      requires |p| >= 1 && p[..|p| - 1] in dirs
      modifies this
      ensures files == old(files)[p := Lines(old(files), p) + [line]]
      ensures dirs == old(dirs)
    {
      files := files[p := Lines(files, p) + [line]];
    }
  }
}
