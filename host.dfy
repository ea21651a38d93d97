/**
 * The operating system the supervisor drives, reduced to what its decisions
 * depend on: a set of directories (lock directories among them), a map from
 * file path to contents, a process table and a clock.
 *
 * Nothing happens behind the supervisor's back except what the state says
 * will happen: a lock directory held by another invocation disappears at its
 * release time, and a process exits at its exit time, which a stop command or
 * a signal can bring forward according to the process's reaction. The clock
 * counts tenths of a second.
 */
module Host {
  import opened Common
  import opened Text

  /** The three ways `stop` can act on a process, in escalation order. */
  datatype Stage = StopCommand | Terminate | Kill

  /** How long after each stage a process exits (`None`: the stage does not stop it). */
  datatype Reaction = Reaction(onStopCommand: Option<nat>, onTerminate: Option<nat>, onKill: Option<nat>)

  function Delay(r: Reaction, s: Stage): Option<nat> {
    match s
    case StopCommand => r.onStopCommand
    case Terminate => r.onTerminate
    case Kill => r.onKill
  }

  /**
   * A process-table entry: owner, command line, executable name, the time it
   * exits (if ever), whether it is a child of this invocation (an exited child
   * stays in the table as a zombie) and its reaction to each stop stage.
   */
  datatype Proc = Proc(user: string, cmdline: seq<string>, name: string, exitAt: Option<nat>, child: bool, reaction: Reaction)

  predicate Exited(p: Proc, t: nat) {
    p.exitAt.Some? && p.exitAt.value <= t
  }

  /** The process is still in the table at time `t`: not exited, or a child that has become a zombie. */
  predicate Alive(p: Proc, t: nat) {
    !Exited(p, t) || p.child
  }

  /** `psutil.Process(pid)` finds the process at time `t` (zombies included); so does `is_running()`. */
  predicate Exists(procs: map<int, Proc>, pid: int, t: nat) {
    pid in procs && Alive(procs[pid], t)
  }

  /** The process has exited but, being a child, has not been reaped. */
  predicate Zombie(procs: map<int, Proc>, pid: int, t: nat) {
    pid in procs && Exited(procs[pid], t) && procs[pid].child
  }

  /** A running process that receives `s` at time `t` exits by `t` plus its delay for `s`. */
  function Receive(p: Proc, s: Stage, t: nat): (q: Proc)
    ensures q.user == p.user && q.cmdline == p.cmdline && q.name == p.name && q.child == p.child
    ensures Exited(p, t) ==> q == p
    ensures Delay(p.reaction, s).None? ==> q == p
    ensures !Exited(p, t) && Delay(p.reaction, s).Some? ==> Exited(q, t + Delay(p.reaction, s).value)
  {
    if Exited(p, t) then p
    else match Delay(p.reaction, s)
      case None => p
      case Some(d) =>
        if p.exitAt.Some? && p.exitAt.value <= t + d then p
        else p.(exitAt := Some(t + d))
  }

  /** The directories of `dirs` still there at time `t`: held ones go at their release time. */
  function Surviving(dirs: set<string>, releases: map<string, nat>, t: nat): (r: set<string>)
    ensures r <= dirs
    ensures forall x :: x in dirs && x !in releases ==> x in r
  {
    set x | x in dirs && !(x in releases && releases[x] <= t)
  }

  /** Waiting in two steps leaves the same directories as waiting in one. */
  lemma SurvivingTwice(dirs: set<string>, releases: map<string, nat>, t: nat, u: nat)
    requires t <= u
    ensures Surviving(Surviving(dirs, releases, t), releases, u) == Surviving(dirs, releases, u)
  {
  }

  /** The errors the core raises or lets through, named after the Python exceptions. */
  datatype Fault =
    | LockError(lockdir: string)   // protected_file_path.Error: the lock directory could not be created
    | OSError(path: string)        // an os.rmdir or os.remove that failed, not wrapped
    | IndexError                   // start_cmd[0] on an empty start command
    | KeyError(key: string)        // a template value that is not there
    | ValueError(text: string)     // int() of a text that is no integer
    | TemplateError                // template.Error: a placeholder names no key
    | ServiceError                 // service.Error from the constructor
    | SystemExit(code: int)        // sys.exit

  /** The service operations the command-line interface invokes. */
  datatype Op = OpStart | OpStop | OpGraceful

  /** One invocation of a service operation: the service's name, the operation and how it ended. */
  datatype Call = Call(service: string, op: Op, outcome: Result<(), Fault>)

  /**
   * A record, kept for the proofs only, of the service operations invoked
   * against the operating system, in order. Only the service operations
   * themselves append to it.
   */
  class CallLog {
    ghost var calls: seq<Call>

    constructor ()
      ensures calls == []
    {
      calls := [];
    }
  }

  class Os {
    /** The directories that exist. */
    var dirs: set<string>
    /** Directories held by another invocation, and when it removes them. */
    var releases: map<string, nat>
    /** The files that exist, and their contents. */
    var files: map<string, string>
    /** The process table. */
    var procs: map<int, Proc>
    /** Tenths of a second since an arbitrary origin. */
    var clock: nat
    /** The pid the next spawned process gets. */
    var nextPid: int
    /** `getpass.getuser()`. */
    const user: string
    /** When a spawned process exits, counted from its spawn. */
    const spawnExit: Option<nat>
    /** How a spawned process reacts to the stop stages. */
    const spawnReaction: Reaction
    /** The service operations invoked so far. */
    ghost const log: CallLog

    /** Held directories are released in the future, and fresh pids are positive and unused. */
    predicate Valid()
      reads this
    {
      && (forall d :: d in dirs && d in releases ==> clock < releases[d])
      && nextPid > 0
      && (forall pid :: pid in procs ==> 0 < pid < nextPid)
    }

    constructor (dirs: set<string>, releases: map<string, nat>, files: map<string, string>, procs: map<int, Proc>,
                 clock: nat, nextPid: int, user: string, spawnExit: Option<nat>, spawnReaction: Reaction, ghost log: CallLog)
      ensures this.dirs == dirs && this.releases == releases && this.files == files && this.procs == procs
      ensures this.clock == clock && this.nextPid == nextPid && this.user == user
      ensures this.spawnExit == spawnExit && this.spawnReaction == spawnReaction && this.log == log
    {
      this.dirs := dirs;
      this.releases := releases;
      this.files := files;
      this.procs := procs;
      this.clock := clock;
      this.nextPid := nextPid;
      this.user := user;
      this.spawnExit := spawnExit;
      this.spawnReaction := spawnReaction;
      this.log := log;
    }

    /** `os.mkdir`: fails when the directory exists, otherwise creates it. */
    method Mkdir(p: string) returns (ok: bool)
      requires Valid()
      modifies this
      ensures Valid()
      ensures ok <==> p !in old(dirs)
      ensures dirs == old(dirs) + {p}
      ensures releases == if ok then old(releases) - {p} else old(releases)
      ensures files == old(files) && procs == old(procs) && clock == old(clock) && nextPid == old(nextPid)
    {
      ok := p !in dirs;
      if ok {
        dirs := dirs + {p};
        releases := releases - {p};
      }
    }

    /** `os.rmdir`: fails when the directory does not exist, otherwise removes it. */
    method Rmdir(p: string) returns (ok: bool)
      requires Valid()
      modifies this
      ensures Valid()
      ensures ok <==> p in old(dirs)
      ensures dirs == old(dirs) - {p}
      ensures releases == old(releases) && files == old(files) && procs == old(procs)
      ensures clock == old(clock) && nextPid == old(nextPid)
    {
      ok := p in dirs;
      dirs := dirs - {p};
    }

    /** `time.sleep`: time passes and every held directory whose release time has come is gone. */
    method Sleep(d: nat)
      requires Valid()
      modifies this
      ensures Valid()
      ensures clock == old(clock) + d
      ensures dirs == Surviving(old(dirs), old(releases), clock)
      ensures releases == old(releases) && files == old(files) && procs == old(procs) && nextPid == old(nextPid)
    {
      clock := clock + d;
      dirs := Surviving(dirs, releases, clock);
    }

    /** `open(p).read()`, or `None` for the `IOError` of a missing file. */
    method Read(p: string) returns (r: Option<string>)
      ensures r == if p in files then Some(files[p]) else None
    {
      r := if p in files then Some(files[p]) else None;
    }

    /** `open(p, 'w').write(c)`. */
    method Write(p: string, c: string)
      requires Valid()
      modifies this
      ensures Valid()
      ensures files == old(files)[p := c]
      ensures dirs == old(dirs) && releases == old(releases) && procs == old(procs)
      ensures clock == old(clock) && nextPid == old(nextPid)
    {
      files := files[p := c];
    }

    /** `os.remove`: fails when the file does not exist. */
    method Remove(p: string) returns (ok: bool)
      requires Valid()
      modifies this
      ensures Valid()
      ensures ok <==> p in old(files)
      ensures files == old(files) - {p}
      ensures dirs == old(dirs) && releases == old(releases) && procs == old(procs)
      ensures clock == old(clock) && nextPid == old(nextPid)
    {
      ok := p in files;
      files := files - {p};
    }

    /** `proc.is_running()`. */
    method IsRunning(pid: int) returns (b: bool)
      ensures b == Exists(procs, pid, clock)
    {
      b := Exists(procs, pid, clock);
    }

    /**
     * The process `psutil.Popen(args=args, executable=executable)` creates at
     * time `t`: a child owned by the current user, whose command line is
     * `args` and whose name is the executable's base name.
     */
    function Spawned(args: seq<string>, executable: string, t: nat): (p: Proc)
      ensures p.user == user && p.cmdline == args && p.name == Basename(executable) && p.child
      ensures p.reaction == spawnReaction && (p.exitAt.Some? <==> spawnExit.Some?)
      ensures spawnExit.Some? ==> p.exitAt.value == t + spawnExit.value
    {
      Proc(user, args, Basename(executable), if spawnExit.Some? then Some(t + spawnExit.value) else None, true, spawnReaction)
    }

    /** `psutil.Popen(args=args, executable=executable)`: the process `Spawned` describes, at the next pid. */
    method Spawn(args: seq<string>, executable: string) returns (pid: int)
      requires Valid()
      modifies this
      ensures Valid()
      ensures pid == old(nextPid) && pid !in old(procs) && nextPid == old(nextPid) + 1
      ensures procs == old(procs)[pid := Spawned(args, executable, clock)]
      ensures dirs == old(dirs) && releases == old(releases) && files == old(files) && clock == old(clock)
    {
      pid := nextPid;
      procs := procs[pid := Spawned(args, executable, clock)];
      nextPid := nextPid + 1;
    }

    /**
     * A stop stage delivered to `pid`: `terminate()`, `kill()`, or the stop
     * command run against it. A process that is already gone is left alone
     * (`NoSuchProcess` is ignored).
     */
    method Deliver(pid: int, s: Stage)
      requires Valid()
      modifies this
      ensures Valid()
      ensures procs == if pid in old(procs) then old(procs)[pid := Receive(old(procs)[pid], s, clock)] else old(procs)
      ensures dirs == old(dirs) && releases == old(releases) && files == old(files)
      ensures clock == old(clock) && nextPid == old(nextPid)
    {
      if pid in procs {
        procs := procs[pid := Receive(procs[pid], s, clock)];
      }
    }
  }
}
