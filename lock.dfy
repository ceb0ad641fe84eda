/**
 * The run lock: a PID file in the state directory that keeps two ingest runs apart.
 * A lock left by a process that is no longer alive is taken over.
 */
module Lock {
  import opened Wrappers
  import opened Fs
  import Text

  const LockFileName := "piper.lock"

  /** `state_dir / "piper.lock"`. */
  function LockPath(stateDir: Path): Path
  {
    Child(stateDir, LockFileName)
  }

  /**
   * What `os.kill(pid, 0)` does with a pid it can pass to the system: succeed, or raise
   * ProcessLookupError or PermissionError.
   */
  datatype ProbeResult = Signalled | NoSuchProcess | NotPermitted

  /** The range of a C `int`, the type `os.kill` converts its pid to. */
  const CIntMin := -0x8000_0000
  const CIntMax := 0x7fff_ffff

  predicate InCIntRange(n: int)
  {
    CIntMin <= n <= CIntMax
  }

  /**
   * `_is_alive`: a process that exists but may not be signalled still counts as alive.
   * A pid outside the C `int` range makes `os.kill` raise OverflowError, which no handler
   * catches, so it propagates to the caller.
   */
  function IsAlive(probe: int -> ProbeResult, pid: int): (r: Result<bool, string>)
    ensures r.Failure? <==> !InCIntRange(pid)
    ensures r.Failure? ==> r.error == "OverflowError"
    ensures r.Success? ==> (r.value <==> probe(pid) == Signalled || probe(pid) == NotPermitted)
  {
    if !InCIntRange(pid) then Failure("OverflowError") else Success(probe(pid) != NoSuchProcess)
  }

  /** `_read_pid` on the lock file's content: None when it is missing or not an integer. */
  function ReadPid(content: Option<string>): (r: Option<int>)
    ensures content.None? ==> r.None?
    ensures r.Some? ==> content.Some? && Text.Strip(content.value) != ""
  {
    match content
    case None => None
    case Some(text) => Text.ParseInt(Text.Strip(text))
  }

  /** A lock written by a process reads back as that process's pid. */
  lemma OwnPidReadsBack(pid: int)
    ensures ReadPid(Some(Text.IntToString(pid))) == Some(pid)
  {
    Text.IntToStringStripped(pid);
    Text.IntToStringRoundTrip(pid);
  }

  /** Text that is not an integer reads as no pid at all. */
  lemma GarbageReadsAsNoPid(text: string)
    requires Text.ParseInt(Text.Strip(text)).None?
    ensures ReadPid(Some(text)) == None
  {
  }

  /**
   * How `acquire` ends: the lock is taken; `LockError` names the live holder in its
   * message; or the recorded pid is outside the C `int` range and `os.kill` raised
   * OverflowError.
   */
  datatype AcquireOutcome = Acquired | LockError(holder: int, message: string) | PidOverflow(holder: int)

  const LockErrorPrefix := "piper is already running (PID "

  /** `str(LockError(...))`: the holder's pid in decimal, then the lock file's path. */
  function LockErrorMessage(holder: int, lockPath: Path): (r: string)
    ensures |r| > |LockErrorPrefix| + |Text.IntToString(holder)|
    ensures r[..|LockErrorPrefix|] == LockErrorPrefix
    ensures r[|LockErrorPrefix|..|LockErrorPrefix| + |Text.IntToString(holder)|] == Text.IntToString(holder)
  {
    var pidText := Text.IntToString(holder);
    var r := LockErrorPrefix + pidText + ").  Lock file: " + PathText(lockPath);
    assert r[..|LockErrorPrefix|] == LockErrorPrefix;
    assert r[|LockErrorPrefix|..|LockErrorPrefix| + |pidText|] == pidText;
    r
  }

  /** The pid the message shows reads back as the holder's pid. */
  lemma LockErrorMessageNamesHolder(holder: int, lockPath: Path)
    ensures var r := LockErrorMessage(holder, lockPath);
            Text.ParseInt(r[|LockErrorPrefix|..|LockErrorPrefix| + |Text.IntToString(holder)|]) == Some(holder)
  {
    Text.IntToStringRoundTrip(holder);
  }

  /**
   * How a `with RunLock(...)` block ends: `__enter__` raised LockError or OverflowError
   * and the body did not run, or the body returned or raised.
   */
  datatype ScopeOutcome = NotEntered(holder: int) | EnterOverflowed(holder: int) | BodyReturned | BodyRaised

  /** The lock file: its content, or None while it does not exist. */
  class LockFile {
    var content: Option<string>

    constructor (content0: Option<string>)
      ensures content == content0
    {
      content := content0;
    }
  }

  /** `RunLock`: the lock file's path, this process's pid and the file itself. */
  class RunLock {
    const lockPath: Path
    const pid: int
    const file: LockFile

    /** `RunLock(state_dir)`; `os.getpid()` is a parameter. */
    constructor (stateDir: Path, pid: int, file: LockFile)
      ensures lockPath == LockPath(stateDir) && this.pid == pid && this.file == file
    {
      lockPath := LockPath(stateDir);
      this.pid := pid;
      this.file := file;
    }

    /**
     * `acquire`: create the file with our pid; when it exists and records a live pid,
     * fail naming that pid and leave the file alone; when the recorded pid is outside
     * the C `int` range, `os.kill`'s OverflowError escapes and the file is left alone;
     * otherwise (a dead pid or content that is no integer) overwrite it with our pid.
     */
    method Acquire(probe: int -> ProbeResult) returns (outcome: AcquireOutcome)
      modifies file
      ensures old(file.content).None? ==> outcome == Acquired && file.content == Some(Text.IntToString(pid))
      ensures old(file.content).Some? && ReadPid(old(file.content)).Some?
              && IsAlive(probe, ReadPid(old(file.content)).value) == Success(true)
              ==> outcome == LockError(ReadPid(old(file.content)).value,
                                       LockErrorMessage(ReadPid(old(file.content)).value, lockPath))
                  && file.content == old(file.content)
      ensures old(file.content).Some? && ReadPid(old(file.content)).Some?
              && IsAlive(probe, ReadPid(old(file.content)).value).Failure?
              ==> outcome == PidOverflow(ReadPid(old(file.content)).value) && file.content == old(file.content)
      ensures old(file.content).Some?
              && (ReadPid(old(file.content)).None? || IsAlive(probe, ReadPid(old(file.content)).value) == Success(false))
              ==> outcome == Acquired && file.content == Some(Text.IntToString(pid))
    {
      if file.content.None? {
        file.content := Some(Text.IntToString(pid));
        return Acquired;
      }
      var existing := ReadPid(file.content);
      if existing.Some? {
        if !InCIntRange(existing.value) {
          return PidOverflow(existing.value);
        }
        if probe(existing.value) != NoSuchProcess {
          return LockError(existing.value, LockErrorMessage(existing.value, lockPath));
        }
      }
      file.content := Some(Text.IntToString(pid));
      return Acquired;
    }

    /** `release`: delete the file only while it records our own pid; a missing file is fine. */
    method Release()
      modifies file
      ensures ReadPid(old(file.content)) == Some(pid) ==> file.content == None
      ensures ReadPid(old(file.content)) != Some(pid) ==> file.content == old(file.content)
    {
      if ReadPid(file.content) == Some(pid) {
        file.content := None;
      }
    }

    /**
     * `with RunLock(state_dir): body`. When `__enter__` raises, the body does not run and
     * the file is untouched; once the lock is taken, `__exit__` releases it whether the
     * body returned or raised, so no lock of ours is left behind.
     */
    method Scoped(probe: int -> ProbeResult, bodyRaises: bool) returns (outcome: ScopeOutcome)
      modifies file
      ensures outcome.NotEntered? <==> old(file.content).Some? && ReadPid(old(file.content)).Some?
                                       && IsAlive(probe, ReadPid(old(file.content)).value) == Success(true)
      ensures outcome.EnterOverflowed? <==> old(file.content).Some? && ReadPid(old(file.content)).Some?
                                            && !InCIntRange(ReadPid(old(file.content)).value)
      ensures (outcome.NotEntered? || outcome.EnterOverflowed?) ==>
                outcome.holder == ReadPid(old(file.content)).value && file.content == old(file.content)
      ensures outcome.BodyReturned? || outcome.BodyRaised? ==>
                file.content == None && (outcome == BodyRaised <==> bodyRaises)
    {
      var acquired := Acquire(probe);
      if acquired.LockError? {
        return NotEntered(acquired.holder);
      }
      if acquired.PidOverflow? {
        return EnterOverflowed(acquired.holder);
      }
      OwnPidReadsBack(pid);
      Release();
      outcome := if bodyRaises then BodyRaised else BodyReturned;
    }
  }
}
