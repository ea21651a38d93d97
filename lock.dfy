/**
 * `ProtectedFilePath`: exclusive access to a path, marked by a `.lock`
 * directory next to it. Entering creates the directory, retrying on a fixed
 * back-off schedule; leaving removes it.
 */
module Lock {
  import opened Common
  import opened Host

  /** `WAIT_INTERVALS_SEC`, in tenths of a second. */
  const WaitIntervals: seq<nat> := [1, 2, 3, 5, 7, 10]

  /** The time spent sleeping before attempt `k`: the intervals of the `k` failed attempts before it. */
  function Waited(k: nat): (w: nat)
    requires k <= |WaitIntervals|
  {
    if k == 0 then 0 else Waited(k - 1) + WaitIntervals[k - 1]
  }

  /**
   * Whether the lock directory is absent at time `t`, for a directory that
   * was `present` when the schedule began and whose holder (if any) removes it
   * at `release`.
   */
  predicate FreeAt(present: bool, release: Option<nat>, t: nat) {
    !present || (release.Some? && release.value <= t)
  }

  /** The first attempt from `k` on that finds the directory absent, or 6 when none does. */
  function FirstFree(present: bool, release: Option<nat>, start: nat, k: nat): (i: nat)
    requires k <= |WaitIntervals|
    ensures k <= i <= |WaitIntervals|
    ensures i < |WaitIntervals| ==> FreeAt(present, release, start + Waited(i))
    ensures forall j :: k <= j < i ==> !FreeAt(present, release, start + Waited(j))
    decreases |WaitIntervals| - k
  {
    if k == |WaitIntervals| then k
    else if FreeAt(present, release, start + Waited(k)) then k
    else FirstFree(present, release, start, k + 1)
  }

  /** The attempt the schedule stops at is determined by which attempts found the directory present. */
  lemma {:induction false} FirstFreeIs(present: bool, release: Option<nat>, start: nat, k: nat, i: nat)
    requires k <= i <= |WaitIntervals|
    requires forall j :: k <= j < i ==> !FreeAt(present, release, start + Waited(j))
    requires i < |WaitIntervals| ==> FreeAt(present, release, start + Waited(i))
    ensures FirstFree(present, release, start, k) == i
    decreases i - k
  {
    if k < i {
      FirstFreeIs(present, release, start, k + 1, i);
    }
  }

  /** The attempt times: 0, 0.1, 0.3, 0.6, 1.1 and 1.8 s after the first; a failure costs 2.8 s in all. */
  lemma Schedule()
    ensures Waited(1) == 1 && Waited(2) == 3 && Waited(3) == 6 && Waited(4) == 11 && Waited(5) == 18
    ensures Waited(|WaitIntervals|) == 28
  {
  }

  /** An absent lock directory is taken at the first attempt. */
  lemma AbsentTakenAtOnce(release: Option<nat>, start: nat)
    ensures FirstFree(false, release, start, 0) == 0
  {
  }

  /** A directory nobody releases is never taken. */
  lemma HeldForeverTimesOut(start: nat)
    ensures FirstFree(true, None, start, 0) == |WaitIntervals|
  {
    FirstFreeIs(true, None, start, 0, |WaitIntervals|);
  }

  /**
   * A directory released at `t` is taken exactly when the release comes no
   * later than the sixth attempt, 1.8 s after the first.
   */
  lemma ReleasedTakenIff(start: nat, t: nat)
    ensures FirstFree(true, Some(t), start, 0) < |WaitIntervals| <==> t <= start + Waited(5)
  {
    Schedule();
  }

  /** The guard of one path. */
  class ProtectedFilePath {
    const filePath: string
    const lockdirPath: string
    const noop: bool

    /** `ProtectedFilePath(file_path, noop)`: the lock directory is the path with ".lock" appended. */
    constructor (filePath: string, noop: bool)
      ensures this.filePath == filePath && this.noop == noop
      ensures lockdirPath == filePath + ".lock"
    {
      this.filePath := filePath;
      this.lockdirPath := filePath + ".lock";
      this.noop := noop;
    }

    /** Whether the lock directory was there when a schedule starting on `os` began, and its release. */
    function Present(os: Os): bool
      reads os
    {
      lockdirPath in os.dirs
    }

    function Release(os: Os): Option<nat>
      reads os
    {
      if lockdirPath in os.releases then Some(os.releases[lockdirPath]) else None
    }

    /**
     * `__enter__`: one `mkdir` per interval, stopping at the first that
     * succeeds; every failed attempt sleeps its interval, the sixth included,
     * and then the guard gives up with an error. In noop mode nothing happens.
     */
    method Enter(os: Os) returns (r: Result<(), Fault>, attempts: nat)
      requires os.Valid()
      modifies os
      ensures os.Valid()
      ensures os.files == old(os.files) && os.procs == old(os.procs) && os.nextPid == old(os.nextPid)
      ensures noop ==> r.Ok? && attempts == 0 && os.dirs == old(os.dirs) && os.releases == old(os.releases) && os.clock == old(os.clock)
      ensures !noop ==>
        var i := FirstFree(old(Present(os)), old(Release(os)), old(os.clock), 0);
        && (r.Ok? <==> i < |WaitIntervals|)
        && (r.Ok? ==> attempts == i + 1 && os.clock == old(os.clock) + Waited(i)
                      && os.dirs == Surviving(old(os.dirs), old(os.releases), os.clock) + {lockdirPath}
                      && os.releases == old(os.releases) - {lockdirPath})
        && (r.Err? ==> attempts == |WaitIntervals| && os.clock == old(os.clock) + Waited(|WaitIntervals|)
                       && os.dirs == Surviving(old(os.dirs), old(os.releases), os.clock)
                       && os.releases == old(os.releases)
                       && r.error == LockError(lockdirPath))
    {
      if noop {
        return Ok(()), 0;
      }
      ghost var present, release, start := Present(os), Release(os), os.clock;
      ghost var dirs0, releases0 := os.dirs, os.releases;
      var i := 0;
      while i < |WaitIntervals|
        invariant 0 <= i <= |WaitIntervals|
        invariant os.Valid()
        invariant os.clock == start + Waited(i)
        invariant os.dirs == Surviving(dirs0, releases0, os.clock)
        invariant os.releases == releases0
        invariant os.files == old(os.files) && os.procs == old(os.procs) && os.nextPid == old(os.nextPid)
        invariant forall j :: 0 <= j < i ==> !FreeAt(present, release, start + Waited(j))
      {
        var ok := os.Mkdir(lockdirPath);
        if ok {
          FirstFreeIs(present, release, start, 0, i);
          return Ok(()), i + 1;
        }
        ghost var before := os.clock;
        os.Sleep(WaitIntervals[i]);
        SurvivingTwice(dirs0, releases0, before, os.clock);
        i := i + 1;
      }
      FirstFreeIs(present, release, start, 0, i);
      return Err(LockError(lockdirPath)), |WaitIntervals|;
    }

    /**
     * `with` twice on the same path: once the first entry has succeeded and
     * the lock has been released, the second entry takes it at its first
     * attempt, without waiting.
     */
    method EnterExitEnter(os: Os) returns (first: Result<(), Fault>, second: Result<(), Fault>, attempts: nat)
      requires os.Valid() && !noop
      modifies os
      ensures os.Valid()
      ensures first.Ok? <==> FirstFree(old(Present(os)), old(Release(os)), old(os.clock), 0) < |WaitIntervals|
      ensures first.Ok? ==>
        && second.Ok? && attempts == 1 && lockdirPath in os.dirs
        && os.clock == old(os.clock) + Waited(FirstFree(old(Present(os)), old(Release(os)), old(os.clock), 0))
      ensures first.Err? ==> second == first && attempts == 0
    {
      var tries;
      first, tries := Enter(os);
      if first.Err? {
        return first, first, 0;
      }
      var exited := Exit(os);
      assert exited.Ok?;
      AbsentTakenAtOnce(Release(os), os.clock);
      second, attempts := Enter(os);
    }

    /**
     * `__enter__` on a lock directory that does not exist: the first `mkdir`
     * succeeds, so no time passes and only the lock directory is added.
     */
    method EnterFree(os: Os)
      requires os.Valid() && !noop && lockdirPath !in os.dirs
      modifies os
      ensures os.Valid()
      ensures os.files == old(os.files) && os.procs == old(os.procs) && os.nextPid == old(os.nextPid) && os.clock == old(os.clock)
      ensures os.dirs == old(os.dirs) + {lockdirPath} && os.releases == old(os.releases) - {lockdirPath}
    {
      AbsentTakenAtOnce(Release(os), os.clock);
      var entered, _ := Enter(os);
      assert entered.Ok?;
    }

    /** `__exit__` on a lock directory this invocation holds: it is removed, and nothing else changes. */
    method ExitHeld(os: Os)
      requires os.Valid() && !noop && lockdirPath in os.dirs
      modifies os
      ensures os.Valid()
      ensures os.files == old(os.files) && os.procs == old(os.procs) && os.nextPid == old(os.nextPid) && os.clock == old(os.clock)
      ensures os.dirs == old(os.dirs) - {lockdirPath} && os.releases == old(os.releases)
    {
      var exited := Exit(os);
      assert exited.Ok?;
    }

    /**
     * `__exit__`: remove the lock directory. A failed `rmdir` raises an
     * `OSError`, which the `except IOError` clause does not catch, so it is
     * not turned into this module's error. In noop mode nothing happens.
     */
    method Exit(os: Os) returns (r: Result<(), Fault>)
      requires os.Valid()
      modifies os
      ensures os.Valid()
      ensures os.files == old(os.files) && os.procs == old(os.procs) && os.nextPid == old(os.nextPid)
      ensures os.releases == old(os.releases) && os.clock == old(os.clock)
      ensures noop ==> r.Ok? && os.dirs == old(os.dirs)
      ensures !noop ==> (r.Ok? <==> lockdirPath in old(os.dirs)) && os.dirs == old(os.dirs) - {lockdirPath}
      ensures !noop && r.Err? ==> r.error == OSError(lockdirPath)
    {
      if noop {
        return Ok(());
      }
      var ok := os.Rmdir(lockdirPath);
      if !ok {
        return Err(OSError(lockdirPath));
      }
      return Ok(());
    }
  }
}
