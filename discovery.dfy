/**
 * Discovery of settled JSON-lines files: keep the regular `*.jsonl` files whose
 * modification time is at least `settle_seconds` old, oldest first.
 */
module Discovery {
  import opened Fs
  import Text

  /** The fingerprint of a discovered file; modification times are whole seconds here. */
  datatype FoundFile = FoundFile(path: Path, size: int, mtime: int)

  /**
   * One path the recursive `*.jsonl` glob yields under the raw root, with what `is_file`
   * and `stat` report for it.
   */
  datatype Candidate = Candidate(path: Path, isFile: bool, size: int, mtime: int)

  // ---------------------------------------------------------------------
  // The `(mtime, path)` order
  // ---------------------------------------------------------------------

  /** Path order: the component lists compared element by element, a prefix first. */
  predicate PathLe(p: Path, q: Path)
  {
    p == [] || (q != [] && ((p[0] != q[0] && Text.StrLe(p[0], q[0])) || (p[0] == q[0] && PathLe(p[1..], q[1..]))))
  }

  lemma {:induction false} PathLeTotal(p: Path, q: Path)
    ensures PathLe(p, q) || PathLe(q, p)
  {
    if p != [] && q != [] {
      if p[0] == q[0] {
        PathLeTotal(p[1..], q[1..]);
      } else {
        Text.StrLeTotal(p[0], q[0]);
      }
    }
  }

  /** The sort key `(f.mtime, f.path)`, compared as a tuple. */
  predicate KeyLe(a: FoundFile, b: FoundFile)
  {
    a.mtime < b.mtime || (a.mtime == b.mtime && PathLe(a.path, b.path))
  }

  lemma KeyLeTotal(a: FoundFile, b: FoundFile)
    ensures KeyLe(a, b) || KeyLe(b, a)
  {
    PathLeTotal(a.path, b.path);
  }

  /** Paths ordered both ways are the same path. */
  lemma {:induction false} PathLeAntisymmetric(p: Path, q: Path)
    requires PathLe(p, q) && PathLe(q, p)
    ensures p == q
  {
    if p != [] && q != [] {
      if p[0] != q[0] {
        Text.StrLeAntisymmetric(p[0], q[0]);
      } else {
        PathLeAntisymmetric(p[1..], q[1..]);
        assert p == [p[0]] + p[1..] && q == [q[0]] + q[1..];
      }
    }
  }

  /**
   * The `(mtime, path)` key leaves no ties between different files: two files ordered
   * both ways have the same mtime and the same path, so the sorted order is unique.
   */
  lemma KeyLeAntisymmetric(a: FoundFile, b: FoundFile)
    requires KeyLe(a, b) && KeyLe(b, a)
    ensures a.mtime == b.mtime && a.path == b.path
  {
    PathLeAntisymmetric(a.path, b.path);
  }

  /** Each file's key is at most the next one's. */
  predicate Sorted(s: seq<FoundFile>)
  {
    forall i :: 0 <= i < |s| - 1 ==> KeyLe(s[i], s[i + 1])
  }

  /** Places `x` before the first element it does not follow. */
  function Insert(x: FoundFile, s: seq<FoundFile>): (r: seq<FoundFile>)
    requires Sorted(s)
    ensures Sorted(r) && multiset(r) == multiset(s) + multiset{x}
    ensures |r| == |s| + 1 && (r[0] == x || (s != [] && r[0] == s[0]))
  {
    if s == [] then [x]
    else if KeyLe(x, s[0]) then [x] + s
    else
      KeyLeTotal(x, s[0]);
      var rest := Insert(x, s[1..]);
      assert s == [s[0]] + s[1..];
      [s[0]] + rest
  }

  /** `sorted(files, key=lambda f: (f.mtime, f.path))`. */
  function SortByKey(s: seq<FoundFile>): (r: seq<FoundFile>)
    ensures Sorted(r) && multiset(r) == multiset(s)
  {
    if s == [] then []
    else
      assert s == s[..|s| - 1] + [s[|s| - 1]];
      Insert(s[|s| - 1], SortByKey(s[..|s| - 1]))
  }

  // ---------------------------------------------------------------------
  // The settle filter
  // ---------------------------------------------------------------------

  /** A candidate is settled when it is a regular file modified at or before the cutoff. */
  predicate IsSettled(c: Candidate, cutoff: int)
  {
    c.isFile && c.mtime <= cutoff
  }

  function Found(c: Candidate): FoundFile
  {
    FoundFile(c.path, c.size, c.mtime)
  }

  /** The settled candidates' fingerprints, in glob order. */
  function Settled(cs: seq<Candidate>, cutoff: int): seq<FoundFile>
  {
    if cs == [] then []
    else
      var init := cs[..|cs| - 1];
      var last := cs[|cs| - 1];
      Settled(init, cutoff) + (if IsSettled(last, cutoff) then [Found(last)] else [])
  }

  lemma SettledStep(cs: seq<Candidate>, i: nat, cutoff: int)
    requires i < |cs|
    ensures Settled(cs[..i + 1], cutoff)
            == Settled(cs[..i], cutoff) + (if IsSettled(cs[i], cutoff) then [Found(cs[i])] else [])
  {
    assert cs[..i + 1][..i] == cs[..i];
  }

  /**
   * `discover_settled_files`: nothing when the root is not a directory; otherwise the
   * settled candidates, sorted oldest first. The current time is a parameter.
   */
  method DiscoverSettledFiles(rootIsDir: bool, settleSeconds: int, now: int, candidates: seq<Candidate>)
    returns (found: seq<FoundFile>)
    ensures !rootIsDir ==> found == []
    ensures rootIsDir ==> found == SortByKey(Settled(candidates, now - settleSeconds))
  {
    if !rootIsDir {
      return [];
    }
    var cutoff := now - settleSeconds;
    var settled: seq<FoundFile> := [];
    for i := 0 to |candidates|
      invariant settled == Settled(candidates[..i], cutoff)
    {
      var c := candidates[i];
      SettledStep(candidates, i, cutoff);
      if c.isFile && c.mtime <= cutoff {
        settled := settled + [FoundFile(c.path, c.size, c.mtime)];
      }
    }
    assert candidates[..|candidates|] == candidates;
    found := SortByKey(settled);
  }

  /**
   * A fingerprint is in the settled list exactly when some candidate is a regular file,
   * old enough, and has that path, size and mtime.
   */
  lemma {:induction false} SettledMembers(cs: seq<Candidate>, cutoff: int, f: FoundFile)
    ensures f in Settled(cs, cutoff) <==> exists c :: c in cs && IsSettled(c, cutoff) && f == Found(c)
  {
    if cs != [] {
      var init := cs[..|cs| - 1];
      SettledMembers(init, cutoff, f);
      assert cs == init + [cs[|cs| - 1]];
      if exists c :: c in cs && IsSettled(c, cutoff) && f == Found(c) {
        var c :| c in cs && IsSettled(c, cutoff) && f == Found(c);
        if c != cs[|cs| - 1] {
          assert c in init;
        }
      }
    }
  }

  /**
   * The discovery result, specified: a file is returned iff it is a regular `*.jsonl`
   * file with `mtime <= now - settle_seconds` (the boundary is inclusive), carrying its
   * size and mtime; and the result is in `(mtime, path)` order.
   */
  lemma DiscoveredIffSettled(candidates: seq<Candidate>, settleSeconds: int, now: int, f: FoundFile)
    ensures Sorted(SortByKey(Settled(candidates, now - settleSeconds)))
    ensures f in SortByKey(Settled(candidates, now - settleSeconds))
            <==> exists c :: c in candidates && c.isFile && c.mtime <= now - settleSeconds
                             && f == FoundFile(c.path, c.size, c.mtime)
  {
    var settled := Settled(candidates, now - settleSeconds);
    var sorted := SortByKey(settled);
    assert multiset(sorted) == multiset(settled);
    assert f in sorted <==> f in multiset(sorted);
    assert f in settled <==> f in multiset(settled);
    SettledMembers(candidates, now - settleSeconds, f);
  }

  /** A file modified exactly `settle_seconds` ago is settled; one a second later is not. */
  lemma SettleBoundaryInclusive(c: Candidate, settleSeconds: int, now: int)
    requires c.isFile
    ensures c.mtime == now - settleSeconds ==> IsSettled(c, now - settleSeconds)
    ensures c.mtime == now - settleSeconds + 1 ==> !IsSettled(c, now - settleSeconds)
  {
  }

  /** The settled files are at most the globbed ones, and all of them when every file has settled. */
  lemma {:induction false} SettledCount(cs: seq<Candidate>, cutoff: int)
    ensures |Settled(cs, cutoff)| <= |cs|
    ensures (forall k :: 0 <= k < |cs| ==> IsSettled(cs[k], cutoff)) ==> |Settled(cs, cutoff)| == |cs|
  {
    if cs != [] {
      var init := cs[..|cs| - 1];
      SettledCount(init, cutoff);
      if forall k :: 0 <= k < |cs| ==> IsSettled(cs[k], cutoff) {
        assert forall k :: 0 <= k < |init| ==> init[k] == cs[k];
      }
    }
  }
}
