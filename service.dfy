/**
 * `ServiceProfile`: how one service is configured from the template values,
 * how its running process is identified from its pid file, and how it is
 * started, stopped and gracefully restarted against the operating system of
 * module Host.
 */
module Service {
  import opened Common
  import opened Text
  import opened Template
  import opened Host
  import opened Lock

  // ---------------------------------------------------------------------
  // Command templates
  // ---------------------------------------------------------------------

  /** An element of a command template: a plain string, or a `SplitResult` that is word-split once rendered. */
  datatype Arg = Literal(text: string) | SplitResult(text: string)

  /** `shlex.split`, which the model does not interpret. */
  type Splitter = string -> seq<string>

  /** A renderer's `render`, taken as a function value (`Renderer.Render` of module Template). */
  type RenderFn = string -> Result<string, TemplateError>

  /** What one rendered element contributes: nothing when empty, its words for a `SplitResult`, else itself. */
  function Piece(a: Arg, v: string, split: Splitter): seq<string> {
    if v == [] then []
    else if a.SplitResult? then split(v)
    else [v]
  }

  /** `render_cmd_from_tmpl` as a function: the pieces of the elements in template order, or the first error. */
  function RenderCmd(rend: RenderFn, tmpl: seq<Arg>, split: Splitter): Result<seq<string>, TemplateError>
    decreases |tmpl|
  {
    if tmpl == [] then Ok([])
    else
      var init :- RenderCmd(rend, tmpl[..|tmpl| - 1], split);
      var v :- rend(tmpl[|tmpl| - 1].text);
      Ok(init + Piece(tmpl[|tmpl| - 1], v, split))
  }

  /** A one-element template contributes that element's piece. */
  lemma RenderCmdOne(rend: RenderFn, a: Arg, split: Splitter)
    ensures rend(a.text).Err? ==> RenderCmd(rend, [a], split) == Err(rend(a.text).error)
    ensures rend(a.text).Ok? ==> RenderCmd(rend, [a], split) == Ok(Piece(a, rend(a.text).value, split))
  {
    assert [a][..0] == [];
    if rend(a.text).Ok? {
      assert [] + Piece(a, rend(a.text).value, split) == Piece(a, rend(a.text).value, split);
    }
  }

  /**
   * Rendering a concatenation renders the parts in order and concatenates
   * their commands; the first part's error comes first.
   */
  lemma {:induction false} RenderCmdConcat(rend: RenderFn, a: seq<Arg>, b: seq<Arg>, split: Splitter)
    ensures RenderCmd(rend, a, split).Err? ==> RenderCmd(rend, a + b, split) == RenderCmd(rend, a, split)
    ensures RenderCmd(rend, a, split).Ok? && RenderCmd(rend, b, split).Err? ==>
      RenderCmd(rend, a + b, split) == RenderCmd(rend, b, split)
    ensures RenderCmd(rend, a, split).Ok? && RenderCmd(rend, b, split).Ok? ==>
      RenderCmd(rend, a + b, split) == Ok(RenderCmd(rend, a, split).value + RenderCmd(rend, b, split).value)
    decreases |b|
  {
    if b == [] {
      assert a + b == a;
      if RenderCmd(rend, a, split).Ok? {
        assert RenderCmd(rend, a, split).value + [] == RenderCmd(rend, a, split).value;
      }
    } else {
      var b' := b[..|b| - 1];
      var z := b[|b| - 1];
      assert (a + b)[..|a + b| - 1] == a + b';
      assert (a + b)[|a + b| - 1] == z;
      RenderCmdConcat(rend, a, b', split);
      if RenderCmd(rend, a, split).Ok? && RenderCmd(rend, b', split).Ok? && rend(z.text).Ok? {
        var x, y := RenderCmd(rend, a, split).value, RenderCmd(rend, b', split).value;
        assert x + y + Piece(z, rend(z.text).value, split) == x + (y + Piece(z, rend(z.text).value, split));
      }
    }
  }

  /** The command renders exactly when every element does. */
  lemma {:induction false} RenderCmdOkIff(rend: RenderFn, tmpl: seq<Arg>, split: Splitter)
    ensures RenderCmd(rend, tmpl, split).Ok? <==> forall i :: 0 <= i < |tmpl| ==> rend(tmpl[i].text).Ok?
    decreases |tmpl|
  {
    if tmpl != [] {
      var init := tmpl[..|tmpl| - 1];
      RenderCmdOkIff(rend, init, split);
      assert forall i :: 0 <= i < |init| ==> init[i] == tmpl[i];
    }
  }

  /** Elements that render to the empty string leave no argument behind, whatever their kind. */
  lemma DropsEmpty(rend: RenderFn, tmpl: seq<Arg>, a: Arg, split: Splitter)
    requires rend(a.text) == Ok([])
    ensures RenderCmd(rend, tmpl + [a], split) == RenderCmd(rend, tmpl, split)
  {
    RenderCmdConcat(rend, tmpl, [a], split);
    RenderCmdOne(rend, a, split);
    if RenderCmd(rend, tmpl, split).Ok? {
      assert RenderCmd(rend, tmpl, split).value + [] == RenderCmd(rend, tmpl, split).value;
    }
  }

  /** One more element that renders: its piece is appended. */
  lemma RenderCmdStep(rend: RenderFn, tmpl: seq<Arg>, i: nat, split: Splitter)
    requires i < |tmpl| && RenderCmd(rend, tmpl[..i], split).Ok? && rend(tmpl[i].text).Ok?
    ensures RenderCmd(rend, tmpl[..i + 1], split) ==
      Ok(RenderCmd(rend, tmpl[..i], split).value + Piece(tmpl[i], rend(tmpl[i].text).value, split))
  {
    var t := tmpl[..i + 1];
    assert t[..|t| - 1] == tmpl[..i];
    assert t[|t| - 1] == tmpl[i];
  }

  /** An element that does not render ends the whole render with its error. */
  lemma {:induction false} RenderCmdStops(rend: RenderFn, tmpl: seq<Arg>, i: nat, split: Splitter)
    requires i < |tmpl| && RenderCmd(rend, tmpl[..i], split).Ok? && rend(tmpl[i].text).Err?
    ensures RenderCmd(rend, tmpl, split) == Err(rend(tmpl[i].text).error)
  {
    var t := tmpl[..i] + [tmpl[i]];
    RenderCmdOne(rend, tmpl[i], split);
    RenderCmdConcat(rend, tmpl[..i], [tmpl[i]], split);
    RenderCmdConcat(rend, t, tmpl[i + 1..], split);
    assert t + tmpl[i + 1..] == tmpl;
  }

  /** `render_cmd_from_tmpl`: build the command element by element, appending or splicing. */
  method RenderCmdFromTmpl(rend: RenderFn, tmpl: seq<Arg>, split: Splitter) returns (r: Result<seq<string>, TemplateError>)
    ensures r == RenderCmd(rend, tmpl, split)
  {
    var cmd: seq<string> := [];
    for i := 0 to |tmpl|
      invariant RenderCmd(rend, tmpl[..i], split) == Ok(cmd)
    {
      var val := tmpl[i];
      var renderedVal := rend(val.text);
      if renderedVal.Err? {
        RenderCmdStops(rend, tmpl, i, split);
        return Err(renderedVal.error);
      }
      RenderCmdStep(rend, tmpl, i, split);
      if renderedVal.value != [] {
        if val.SplitResult? {
          cmd := cmd + split(renderedVal.value);
        } else {
          cmd := cmd + [renderedVal.value];
        }
      } else {
        assert cmd + [] == cmd;
      }
    }
    assert tmpl[..|tmpl|] == tmpl;
    return Ok(cmd);
  }

  // ---------------------------------------------------------------------
  // Template values
  // ---------------------------------------------------------------------

  /** A runtime template key and the function that derives its value from the values so far. */
  type RuntimeKey = (string, map<string, string> -> string)

  /** Whether a runtime key may be added: not already a value, and holding neither "___" nor ' '. */
  predicate Addable(values: map<string, string>, key: string) {
    key !in values && !HasTriple(key) && ' ' !in key
  }

  /**
   * The values after the runtime keys, taken in order: each addable key gets
   * its function's value on the values so far.
   */
  function WithRuntimeValues(values: map<string, string>, fns: seq<RuntimeKey>): map<string, string>
    decreases |fns|
  {
    if fns == [] then values
    else
      var init := WithRuntimeValues(values, fns[..|fns| - 1]);
      var key := fns[|fns| - 1].0;
      if Addable(init, key) then init[key := fns[|fns| - 1].1(init)] else init
  }

  /** Runtime keys never override a value, and never add a key holding "___" or a space. */
  lemma {:induction false} RuntimeValuesExtend(values: map<string, string>, fns: seq<RuntimeKey>)
    ensures forall k :: k in values ==> k in WithRuntimeValues(values, fns) && WithRuntimeValues(values, fns)[k] == values[k]
    ensures forall k :: k in WithRuntimeValues(values, fns) && k !in values ==> !HasTriple(k) && ' ' !in k
    ensures forall k :: k in WithRuntimeValues(values, fns) && k !in values ==> exists i :: 0 <= i < |fns| && fns[i].0 == k
    decreases |fns|
  {
    if fns != [] {
      var init := fns[..|fns| - 1];
      RuntimeValuesExtend(values, init);
      forall k | k in WithRuntimeValues(values, fns) && k !in values && k in WithRuntimeValues(values, init)
        ensures exists i :: 0 <= i < |fns| && fns[i].0 == k
      {
        var i :| 0 <= i < |init| && init[i].0 == k;
        assert fns[i] == init[i];
      }
    }
  }

  /** `<name>.enabled` turns the service on exactly for these five spellings. */
  predicate EnabledFlag(v: string) {
    v == "True" || v == "true" || v == "1" || v == "on" || v == "yes"
  }

  /** The flag is matched exactly: other cases, surrounding blanks and other words of assent leave a service disabled. */
  lemma EnabledExactSpelling()
    ensures EnabledFlag("True") && EnabledFlag("on") && EnabledFlag("yes") && EnabledFlag("1")
    ensures !EnabledFlag("TRUE") && !EnabledFlag("Yes") && !EnabledFlag(" true") && !EnabledFlag("y") && !EnabledFlag("")
  {
  }

  /** A stop-stage wait: a number of seconds, or `SubstitutePropertyValue` naming the property that holds it. */
  datatype Seconds = Fixed(n: int) | FromProperty(key: string)

  /** `int(values[key])`. */
  function IntValue(values: map<string, string>, key: string): (r: Result<int, Fault>)
    ensures r.Err? ==> (key !in values && r.error == KeyError(key)) || (key in values && r.error == ValueError(values[key]))
    ensures key in values && ParseInt(values[key]).Some? ==> r == Ok(ParseInt(values[key]).value)
  {
    if key !in values then Err(KeyError(key))
    else match ParseInt(values[key])
      case None => Err(ValueError(values[key]))
      case Some(n) => Ok(n)
  }

  /** A property written as `str(n)` reads back as `n`. */
  lemma IntValueRoundTrip(values: map<string, string>, key: string, n: int)
    ensures IntValue(values[key := IntToString(n)], key) == Ok(n)
  {
    IntToStringRoundTrip(n);
  }

  /** `values[key]`. */
  function Value(values: map<string, string>, key: string): (r: Result<string, Fault>)
    ensures r.Ok? <==> key in values
    ensures r.Ok? ==> r.value == values[key]
    ensures r.Err? ==> r.error == KeyError(key)
  {
    if key in values then Ok(values[key]) else Err(KeyError(key))
  }

  /** The seconds a stage waits once the values are known. */
  function ResolveSeconds(s: Seconds, values: map<string, string>): (r: Result<Seconds, Fault>)
    ensures r.Ok? ==> r.value.Fixed?
    ensures s.Fixed? ==> r == Ok(s)
    ensures s.FromProperty? && s.key in values && ParseInt(values[s.key]).Some? ==> r == Ok(Fixed(ParseInt(values[s.key]).value))
  {
    match s
    case Fixed(_) => Ok(s)
    case FromProperty(key) =>
      var n :- IntValue(values, key);
      Ok(Fixed(n))
  }

  /** Every environment entry rendered, or the error of one that fails. */
  function RenderEnv(rend: RenderFn, envTmpl: map<string, string>): (r: Result<map<string, string>, TemplateError>)
    ensures r.Ok? <==> forall k :: k in envTmpl ==> rend(envTmpl[k]).Ok?
    ensures r.Ok? ==> r.value.Keys == envTmpl.Keys && forall k :: k in envTmpl ==> Ok(r.value[k]) == rend(envTmpl[k])
    ensures r.Err? ==> r.error == KeyNotFound
  {
    if forall k :: k in envTmpl ==> rend(envTmpl[k]).Ok? then
      Ok(map k | k in envTmpl :: rend(envTmpl[k]).value)
    else Err(KeyNotFound)
  }

  function FromTemplate<T>(r: Result<T, TemplateError>): (s: Result<T, Fault>)
    ensures s.Ok? <==> r.Ok?
    ensures s.Ok? ==> s.value == r.value
    ensures s.Err? ==> s.error == TemplateError
  {
    match r
    case Ok(v) => Ok(v)
    case Err(_) => Err(TemplateError)
  }

  // ---------------------------------------------------------------------
  // The process behind a pid file
  // ---------------------------------------------------------------------

  /** What a pid file says about the service's process. */
  datatype Lookup =
    | NoFile            // no pid file
    | Corrupt           // the contents are no integer
    | Gone(pid: int)    // no such process
    | Stale(pid: int)   // a process that is neither ours nor a zombie
    | Found(pid: int)   // the service's process

  /**
   * The identity check: a process counts as the service's when it belongs to
   * the current user and its command line starts with the process name, or
   * when it is a zombie.
   */
  predicate Matches(procs: map<int, Proc>, pid: int, t: nat, user: string, processName: string)
    requires pid in procs
  {
    || (procs[pid].user == user && |procs[pid].cmdline| > 0 && procs[pid].cmdline[0] == processName)
    || Zombie(procs, pid, t)
  }

  /** The decision `_get_running_process_if_exists` takes on the pid file's contents. */
  function Identify(contents: Option<string>, procs: map<int, Proc>, t: nat, user: string, processName: string): (l: Lookup)
    ensures l.Found? <==>
      contents.Some? && ParseInt(contents.value).Some? && Exists(procs, ParseInt(contents.value).value, t)
      && Matches(procs, ParseInt(contents.value).value, t, user, processName)
    ensures l.NoFile? <==> contents.None?
    ensures l.Corrupt? <==> contents.Some? && ParseInt(contents.value).None?
    ensures (l.Gone? || l.Stale? || l.Found?) ==> contents.Some? && ParseInt(contents.value) == Some(l.pid)
  {
    match contents
    case None => NoFile
    case Some(c) =>
      match ParseInt(c)
      case None => Corrupt
      case Some(pid) =>
        if !Exists(procs, pid, t) then Gone(pid)
        else if Matches(procs, pid, t, user, processName) then Found(pid)
        else Stale(pid)
  }

  /** The process `_get_running_process_if_exists` returns. */
  function FoundPid(l: Lookup): (r: Option<int>)
    ensures r.Some? <==> l.Found?
    ensures r.Some? ==> r.value == l.pid
  {
    if l.Found? then Some(l.pid) else None
  }

  /** Whether the pid file is removed: always when corrupt, and when stale or dangling if asked to. */
  predicate RemovesFile(l: Lookup, deleteStale: bool) {
    l.Corrupt? || (deleteStale && (l.Gone? || l.Stale?))
  }

  function LookupRelease(releases: map<string, nat>, d: string): Option<nat> {
    if d in releases then Some(releases[d]) else None
  }

  /**
   * The body of `_get_running_process_if_exists` inside the lock: read the
   * pid file, decide, and delete what is to be deleted.
   */
  method Inspect(os: Os, pidfileName: string, processName: string, deleteStale: bool) returns (look: Lookup)
    requires os.Valid()
    modifies os
    ensures os.Valid()
    ensures look == Identify(GetValue(old(os.files), pidfileName), old(os.procs), os.clock, os.user, processName)
    ensures os.files == if RemovesFile(look, deleteStale) then old(os.files) - {pidfileName} else old(os.files)
    ensures os.procs == if look.Corrupt? then KilledByName(old(os.procs), Basename(processName), os.clock) else old(os.procs)
    ensures os.dirs == old(os.dirs) && os.releases == old(os.releases) && os.clock == old(os.clock) && os.nextPid == old(os.nextPid)
  {
    var contents := os.Read(pidfileName);
    var pid: Option<int> := None;
    if contents.None? {
      look := NoFile;
    } else if ParseInt(contents.value).None? {
      look := Corrupt;
      KillByName(os, Basename(processName));
      var removed := os.Remove(pidfileName);
      assert removed;
    } else {
      pid := ParseInt(contents.value);
    }
    if pid.Some? {
      var running := os.IsRunning(pid.value);
      if !running {
        look := Gone(pid.value);
      } else if Matches(os.procs, pid.value, os.clock, os.user, processName) {
        look := Found(pid.value);
      } else {
        look := Stale(pid.value);
      }
      if !look.Found? && deleteStale {
        var removed := os.Remove(pidfileName);
        assert removed;
      }
    }
  }

  /** A pid file as `start` writes it, for a live process it spawned, identifies that process. */
  lemma WrittenPidIdentifies(procs: map<int, Proc>, pid: int, t: nat, user: string, processName: string)
    requires pid > 0 && pid in procs && Exists(procs, pid, t)
    requires procs[pid].user == user && |procs[pid].cmdline| > 0 && procs[pid].cmdline[0] == processName
    ensures Identify(Some(IntToString(pid)), procs, t, user, processName) == Found(pid)
  {
    IntToStringRoundTrip(pid);
  }

  /**
   * The pid file written for a child of this invocation always parses, and
   * with the expected process name it finds that child, which counts as
   * running exactly while it has not exited.
   */
  lemma OwnChildIdentified(procs: map<int, Proc>, pid: int, t: nat, user: string, processName: string)
    requires pid > 0 && pid in procs && procs[pid].user == user && procs[pid].child && |procs[pid].cmdline| > 0
    ensures !Identify(Some(IntToString(pid)), procs, t, user, processName).Corrupt?
    ensures procs[pid].cmdline[0] == processName ==>
      && Identify(Some(IntToString(pid)), procs, t, user, processName) == Found(pid)
      && (Zombie(procs, pid, t) <==> Exited(procs[pid], t))
  {
    IntToStringRoundTrip(pid);
  }

  /** Once its process is gone, the pid file it left behind is dangling. */
  lemma WrittenPidDangles(procs: map<int, Proc>, pid: int, t: nat, user: string, processName: string)
    requires pid > 0 && !Exists(procs, pid, t)
    ensures Identify(Some(IntToString(pid)), procs, t, user, processName) == Gone(pid)
  {
    IntToStringRoundTrip(pid);
  }

  /** `proc.kill()` for every process whose name is `name`; the others are untouched. */
  function KilledByName(procs: map<int, Proc>, name: string, t: nat): (r: map<int, Proc>)
    ensures r.Keys == procs.Keys
    ensures forall pid :: pid in procs && procs[pid].name != name ==> r[pid] == procs[pid]
    ensures forall pid :: pid in procs ==> r[pid] == Receive(procs[pid], Kill, t) || r[pid] == procs[pid]
  {
    map pid | pid in procs :: if procs[pid].name == name then Receive(procs[pid], Kill, t) else procs[pid]
  }

  /** Every running process of that name is killed: it exits by its kill delay. */
  lemma KilledByNameExits(procs: map<int, Proc>, name: string, t: nat, pid: int)
    requires pid in procs && procs[pid].name == name && !Exited(procs[pid], t) && procs[pid].reaction.onKill.Some?
    ensures Exited(KilledByName(procs, name, t)[pid], t + procs[pid].reaction.onKill.value)
  {
  }

  /** The `psutil.process_iter()` loop that kills every process named `name`, in pid order. */
  method KillByName(os: Os, name: string)
    requires os.Valid()
    modifies os
    ensures os.Valid()
    ensures os.procs == KilledByName(old(os.procs), name, os.clock)
    ensures os.dirs == old(os.dirs) && os.releases == old(os.releases) && os.files == old(os.files)
    ensures os.clock == old(os.clock) && os.nextPid == old(os.nextPid)
  {
    ghost var procs0 := os.procs;
    for pid := 1 to os.nextPid
      invariant os.Valid()
      invariant os.procs.Keys == procs0.Keys
      invariant forall p :: p in procs0 ==>
        os.procs[p] == (if p < pid && procs0[p].name == name then Receive(procs0[p], Kill, os.clock) else procs0[p])
      invariant os.dirs == old(os.dirs) && os.releases == old(os.releases) && os.files == old(os.files)
      invariant os.clock == old(os.clock) && os.nextPid == old(os.nextPid)
    {
      if pid in os.procs && os.procs[pid].name == name {
        os.Deliver(pid, Kill);
      }
    }
    assert forall p :: p in procs0 ==> os.procs[p] == KilledByName(procs0, name, os.clock)[p];
  }

  // ---------------------------------------------------------------------
  // wait_dots
  // ---------------------------------------------------------------------

  /** A second, in clock ticks. */
  const Second: nat := 10

  /** The number of checks `range(wait_secs)` allows. */
  function Checks(secs: int): nat {
    if secs < 0 then 0 else secs
  }

  /** The first check from `k` on, one a second from `start`, that finds the process `p` gone, or `Checks(secs)`. */
  function FirstGone(p: Proc, start: nat, secs: int, k: nat): (i: nat)
    requires k <= Checks(secs)
    ensures k <= i <= Checks(secs)
    ensures i < Checks(secs) ==> !Alive(p, start + Second * i)
    ensures forall j :: k <= j < i ==> Alive(p, start + Second * j)
    decreases Checks(secs) - k
  {
    if k == Checks(secs) then k
    else if !Alive(p, start + Second * k) then k
    else FirstGone(p, start, secs, k + 1)
  }

  /** A process that is gone stays gone. */
  lemma GoneStaysGone(p: Proc, t: nat, u: nat)
    requires t <= u && !Alive(p, t)
    ensures !Alive(p, u)
  {
  }

  /**
   * `wait_dots` reports a stop exactly when the process is gone by the last
   * of its checks; with no seconds to wait it reports none.
   */
  lemma {:induction false} FirstGoneIff(p: Proc, start: nat, secs: int)
    ensures FirstGone(p, start, secs, 0) < Checks(secs) <==>
      Checks(secs) > 0 && !Alive(p, start + Second * (Checks(secs) - 1))
  {
    var i := FirstGone(p, start, secs, 0);
    if i < Checks(secs) {
      GoneStaysGone(p, start + Second * i, start + Second * (Checks(secs) - 1));
    }
  }

  /**
   * `wait_dots`: up to `secs` checks a second apart, stopping at the first
   * that finds the process gone. The process is one `psutil` has handed
   * out, so it has an entry in the table.
   */
  method WaitDots(os: Os, secs: int, pid: int) returns (stopped: bool)
    requires os.Valid() && pid in os.procs
    modifies os
    ensures os.Valid()
    ensures var i := FirstGone(old(os.procs)[pid], old(os.clock), secs, 0);
      && (stopped <==> i < Checks(secs))
      && os.clock == old(os.clock) + Second * i
    ensures stopped ==> !Exists(os.procs, pid, os.clock)
    ensures os.dirs == Surviving(old(os.dirs), old(os.releases), os.clock)
    ensures os.releases == old(os.releases) && os.files == old(os.files) && os.procs == old(os.procs)
    ensures os.nextPid == old(os.nextPid)
  {
    ghost var start, dirs0 := os.clock, os.dirs;
    var k := 0;
    while k < secs
      invariant 0 <= k <= Checks(secs)
      invariant os.Valid()
      invariant os.clock == start + Second * k
      invariant os.dirs == Surviving(dirs0, old(os.releases), os.clock)
      invariant os.releases == old(os.releases) && os.files == old(os.files) && os.procs == old(os.procs)
      invariant os.nextPid == old(os.nextPid)
      invariant pid in os.procs && forall j :: 0 <= j < k ==> Alive(os.procs[pid], start + Second * j)
    {
      var running := os.IsRunning(pid);
      if !running {
        FirstGoneIs(os.procs[pid], start, secs, 0, k);
        return true;
      }
      ghost var before := os.clock;
      os.Sleep(Second);
      SurvivingTwice(dirs0, old(os.releases), before, os.clock);
      k := k + 1;
    }
    FirstGoneIs(os.procs[pid], start, secs, 0, k);
    return false;
  }

  /** The check `wait_dots` stops at is determined by which checks found the process. */
  lemma {:induction false} FirstGoneIs(p: Proc, start: nat, secs: int, k: nat, i: nat)
    requires k <= i <= Checks(secs)
    requires forall j :: k <= j < i ==> Alive(p, start + Second * j)
    requires i < Checks(secs) ==> !Alive(p, start + Second * i)
    ensures FirstGone(p, start, secs, k) == i
    decreases i - k
  {
    if k < i {
      FirstGoneIs(p, start, secs, k + 1, i);
    }
  }

  /** The wait after launching: `range(start_wait_seconds)` sleeps of a second each. */
  method Pause(os: Os, secs: int)
    requires os.Valid()
    modifies os
    ensures os.Valid()
    ensures os.clock == old(os.clock) + Second * Checks(secs)
    ensures os.dirs == Surviving(old(os.dirs), old(os.releases), os.clock)
    ensures os.releases == old(os.releases) && os.files == old(os.files) && os.procs == old(os.procs)
    ensures os.nextPid == old(os.nextPid)
  {
    ghost var start, dirs0 := os.clock, os.dirs;
    for k := 0 to Checks(secs)
      invariant os.Valid()
      invariant os.clock == start + Second * k
      invariant os.dirs == Surviving(dirs0, old(os.releases), os.clock)
      invariant os.releases == old(os.releases) && os.files == old(os.files) && os.procs == old(os.procs)
      invariant os.nextPid == old(os.nextPid)
    {
      ghost var before := os.clock;
      os.Sleep(Second);
      SurvivingTwice(dirs0, old(os.releases), before, os.clock);
    }
  }

  // ---------------------------------------------------------------------
  // Stop escalation
  // ---------------------------------------------------------------------

  /** The stages `stop` may go through, in order: the stop command if there is one, SIGTERM, SIGKILL. */
  function Plan(hasStopCmd: bool, runSigterm: bool, runSigkill: bool): (p: seq<Stage>)
    ensures |p| <= 3
    ensures StopCommand in p <==> hasStopCmd
    ensures Terminate in p <==> runSigterm
    ensures Kill in p <==> runSigkill
    ensures forall i, j :: 0 <= i < j < |p| ==> StageRank(p[i]) < StageRank(p[j])
  {
    (if hasStopCmd then [StopCommand] else []) + (if runSigterm then [Terminate] else []) + (if runSigkill then [Kill] else [])
  }

  function StageRank(s: Stage): nat {
    match s
    case StopCommand => 0
    case Terminate => 1
    case Kill => 2
  }

  /** One stage that ran, and whether the poll after it saw the process stop. */
  datatype StageRun = StageRun(stage: Stage, stopped: bool)

  function Stages(runs: seq<StageRun>): (r: seq<Stage>)
    ensures |r| == |runs| && forall i :: 0 <= i < |runs| ==> r[i] == runs[i].stage
  {
    seq(|runs|, i requires 0 <= i < |runs| => runs[i].stage)
  }

  /** The escalation went through a prefix of the plan, each stage only while the process was not seen stopped. */
  predicate Escalated(plan: seq<Stage>, runs: seq<StageRun>) {
    && Stages(runs) <= plan
    && (forall i :: 0 <= i < |runs| - 1 ==> !runs[i].stopped)
    && (|runs| < |plan| ==> |runs| > 0 && runs[|runs| - 1].stopped)
  }

  /** Whether the last stage that ran saw the process stop. */
  predicate SawStop(runs: seq<StageRun>) {
    |runs| > 0 && runs[|runs| - 1].stopped
  }

  /** The stages of a list of stages with their poll lengths. */
  function StagesOf(stages: seq<(Stage, int)>): (r: seq<Stage>)
    ensures |r| == |stages| && forall i :: 0 <= i < |stages| ==> r[i] == stages[i].0
  {
    seq(|stages|, i requires 0 <= i < |stages| => stages[i].0)
  }

  /**
   * What `stop` goes through, from time `t`, for the process `p`: each stage
   * in turn acts on the process and is followed by a poll of its length; the
   * first poll that finds the process gone ends the escalation.
   */
  function Escalate(p: Proc, t: nat, stages: seq<(Stage, int)>): seq<StageRun>
    decreases |stages|
  {
    if stages == [] then []
    else
      var q := Receive(p, stages[0].0, t);
      var i := FirstGone(q, t, stages[0].1, 0);
      if i < Checks(stages[0].1) then [StageRun(stages[0].0, true)]
      else [StageRun(stages[0].0, false)] + Escalate(q, t + Second * i, stages[1..])
  }

  /** The process `p` as the stages of `Escalate(p, t, stages)` leave it: each stage that runs acts on it once. */
  function EscalatedProc(p: Proc, t: nat, stages: seq<(Stage, int)>): (r: Proc)
    ensures r.user == p.user && r.cmdline == p.cmdline && r.name == p.name && r.child == p.child && r.reaction == p.reaction
    decreases |stages|
  {
    if stages == [] then p
    else
      var q := Receive(p, stages[0].0, t);
      var i := FirstGone(q, t, stages[0].1, 0);
      if i < Checks(stages[0].1) then q
      else EscalatedProc(q, t + Second * i, stages[1..])
  }

  /** One stage `s` acting at `t` on the process `p`, which becomes `q`, and the poll after it, which ends at `u`. */
  predicate StageEffect(s: (Stage, int), p: Proc, t: nat, stopped: bool, q: Proc, u: nat) {
    && q == Receive(p, s.0, t)
    && var i := FirstGone(q, t, s.1, 0);
      (stopped <==> i < Checks(s.1)) && u == t + Second * i
  }

  /** One stage of the escalation: its poll's report, then the rest from the time that poll ends. */
  lemma EscalateStep(p: Proc, t: nat, s: (Stage, int), tail: seq<(Stage, int)>, q: Proc, stopped: bool, u: nat)
    requires StageEffect(s, p, t, stopped, q, u)
    ensures Escalate(p, t, [s] + tail) ==
      [StageRun(s.0, stopped)] + if stopped then [] else Escalate(q, u, tail)
  {
    assert ([s] + tail)[1..] == tail;
  }

  /**
   * What the stage `s`, when `ran` says it is configured, leaves: it runs
   * only while the process has not been seen stopped, turning the runs so
   * far, the flag, the process `p` and the time `t` into `runs'`,
   * `stopped'`, `q` and `t'`.
   */
  predicate StageFollows(ran: bool, s: (Stage, int), runs: seq<StageRun>, stopped: bool, p: Proc, t: nat,
                         runs': seq<StageRun>, stopped': bool, q: Proc, t': nat)
  {
    if !ran || stopped then runs' == runs && stopped' == stopped && q == p && t' == t
    else StageEffect(s, p, t, stopped', q, t') && runs' == runs + [StageRun(s.0, stopped')]
  }

  /** A run of the stage `s` moves its report from what is to come onto the runs so far. */
  lemma RanStage(goal: seq<StageRun>, runs: seq<StageRun>, p: Proc, t: nat, s: (Stage, int), tail: seq<(Stage, int)>,
                 stopped': bool, q: Proc, t': nat)
    requires goal == runs + Escalate(p, t, [s] + tail)
    requires StageEffect(s, p, t, stopped', q, t')
    ensures goal == (runs + [StageRun(s.0, stopped')]) + (if stopped' then [] else Escalate(q, t', tail))
  {
    EscalateStep(p, t, s, tail, q, stopped', t');
    AppendAssoc(runs, [StageRun(s.0, stopped')], if stopped' then [] else Escalate(q, t', tail));
  }

  lemma AppendAssoc<T>(a: seq<T>, b: seq<T>, c: seq<T>)
    ensures a + (b + c) == (a + b) + c
  {
  }

  /**
   * The whole escalation `goal` is made of the runs so far and, unless the
   * process has been seen stopped, what `stages` still do to the process
   * `p` from time `t`.
   */
  predicate Remaining(goal: seq<StageRun>, runs: seq<StageRun>, stopped: bool, p: Proc, t: nat, stages: seq<(Stage, int)>) {
    goal == runs + (if stopped then [] else Escalate(p, t, stages))
  }

  /** An optional stage, run only while the process has not been seen stopped, keeps the escalation on course. */
  lemma OptionalStage(goal: seq<StageRun>, runs: seq<StageRun>, stopped: bool, p: Proc, t: nat,
                      ran: bool, s: (Stage, int), tail: seq<(Stage, int)>,
                      runs': seq<StageRun>, stopped': bool, q: Proc, t': nat)
    requires Remaining(goal, runs, stopped, p, t, (if ran then [s] else []) + tail)
    requires StageFollows(ran, s, runs, stopped, p, t, runs', stopped', q, t')
    ensures Remaining(goal, runs', stopped', q, t', tail)
  {
    if stopped {
    } else if ran {
      RanStage(goal, runs, p, t, s, tail, stopped', q, t');
    } else {
      assert [] + tail == tail;
    }
  }

  /** With no stage left, the runs are the whole escalation. */
  lemma NothingRemaining(goal: seq<StageRun>, runs: seq<StageRun>, stopped: bool, p: Proc, t: nat)
    requires Remaining(goal, runs, stopped, p, t, [])
    ensures goal == runs
  {
    assert runs + [] == runs;
  }

  /**
   * The process the escalation leaves behind, `last`, is the process `p` at
   * time `t` once the stages still to come have acted on it; a process seen
   * stopped is left alone.
   */
  predicate RemainingProc(last: Proc, stopped: bool, p: Proc, t: nat, stages: seq<(Stage, int)>) {
    last == if stopped then p else EscalatedProc(p, t, stages)
  }

  /** An optional stage, run only while the process has not been seen stopped, keeps the process on course for `last`. */
  lemma OptionalStageProc(last: Proc, runs: seq<StageRun>, stopped: bool, p: Proc, t: nat,
                          ran: bool, s: (Stage, int), tail: seq<(Stage, int)>,
                          runs': seq<StageRun>, stopped': bool, q: Proc, t': nat)
    requires RemainingProc(last, stopped, p, t, (if ran then [s] else []) + tail)
    requires StageFollows(ran, s, runs, stopped, p, t, runs', stopped', q, t')
    ensures RemainingProc(last, stopped', q, t', tail)
  {
    if !stopped && ran {
      assert ([s] + tail)[0] == s && ([s] + tail)[1..] == tail;
    } else if !stopped {
      assert [] + tail == tail;
    }
  }

  /**
   * The process table after acting on `pid`: only that process has changed,
   * and the one process added, if any, is `spawned`: a new pid and its entry.
   */
  predicate OnlyStopped(before: map<int, Proc>, after: map<int, Proc>, pid: int, spawned: Option<(int, Proc)>) {
    && pid in before && pid in after
    && match spawned
       case None => after == before[pid := after[pid]]
       case Some((n, q)) => n !in before && after == before[pid := after[pid]][n := q]
  }

  /** A step that adds nothing after one that may have spawned: together they change what the first did, and `pid`. */
  lemma OnlyStoppedThen(a: map<int, Proc>, b: map<int, Proc>, c: map<int, Proc>, pid: int, spawned: Option<(int, Proc)>)
    requires OnlyStopped(a, b, pid, spawned) && OnlyStopped(b, c, pid, None)
    ensures OnlyStopped(a, c, pid, spawned)
  {
    if spawned.Some? {
      var (n, q) := spawned.value;
      assert n != pid;
      assert c[n] == b[n] == q;
      assert c == a[pid := c[pid]][n := q];
    }
  }

  /** The stages of a non-empty list: its first, then those of the rest. */
  lemma StagesOfCons(stages: seq<(Stage, int)>)
    requires stages != []
    ensures StagesOf(stages) == [stages[0].0] + StagesOf(stages[1..])
  {
    assert forall i :: 0 <= i < |stages| - 1 ==> stages[1..][i] == stages[i + 1];
  }

  /** A run list read from its first entry. */
  lemma RunsCons(plan: seq<Stage>, r0: StageRun, rest: seq<StageRun>)
    requires plan != [] && r0.stage == plan[0]
    ensures Stages([r0] + rest) == [r0.stage] + Stages(rest)
    ensures SawStop([r0] + rest) == if rest == [] then r0.stopped else SawStop(rest)
    ensures !r0.stopped && Escalated(plan[1..], rest) ==> Escalated(plan, [r0] + rest)
    ensures r0.stopped && rest == [] ==> Escalated(plan, [r0])
  {
    var runs := [r0] + rest;
    assert forall i :: 0 < i < |runs| ==> runs[i] == rest[i - 1];
    assert Stages(runs) == [r0.stage] + Stages(rest);
  }

  /** The escalation goes through a prefix of the stages, each only while the process was not seen stopped. */
  lemma {:induction false} EscalateEscalated(p: Proc, t: nat, stages: seq<(Stage, int)>)
    ensures Escalated(StagesOf(stages), Escalate(p, t, stages))
    decreases |stages|
  {
    if stages != [] {
      var q := Receive(p, stages[0].0, t);
      var i := FirstGone(q, t, stages[0].1, 0);
      var stopped, u := i < Checks(stages[0].1), t + Second * i;
      var rest := if stopped then [] else Escalate(q, u, stages[1..]);
      assert stages == [stages[0]] + stages[1..];
      EscalateStep(p, t, stages[0], stages[1..], q, stopped, u);
      if !stopped {
        EscalateEscalated(q, u, stages[1..]);
      }
      StagesOfCons(stages);
      RunsCons(StagesOf(stages), StageRun(stages[0].0, stopped), rest);
    }
  }

  /** A process that never exits and ignores every stage goes through them all without being seen stopped. */
  lemma {:induction false} UnheededEscalationFails(p: Proc, t: nat, stages: seq<(Stage, int)>)
    requires p.exitAt.None?
    requires forall i :: 0 <= i < |stages| ==> Delay(p.reaction, stages[i].0).None?
    ensures Stages(Escalate(p, t, stages)) == StagesOf(stages)
    ensures !SawStop(Escalate(p, t, stages))
    decreases |stages|
  {
    if stages != [] {
      assert Receive(p, stages[0].0, t) == p;
      FirstGoneIs(p, t, stages[0].1, 0, Checks(stages[0].1));
      var u := t + Second * Checks(stages[0].1);
      var rest := Escalate(p, u, stages[1..]);
      assert stages == [stages[0]] + stages[1..];
      EscalateStep(p, t, stages[0], stages[1..], p, false, u);
      assert forall i :: 0 <= i < |stages| - 1 ==> stages[1..][i] == stages[i + 1];
      UnheededEscalationFails(p, u, stages[1..]);
      StagesOfCons(stages);
      RunsCons(StagesOf(stages), StageRun(stages[0].0, false), rest);
    }
  }

  /**
   * A process that is no child of the supervisor and is gone, or exits
   * because of the first stage, before that stage's last poll is seen stopped
   * right there: no further stage runs.
   */
  lemma PromptStageStops(p: Proc, t: nat, stages: seq<(Stage, int)>)
    requires stages != [] && !p.child && Checks(stages[0].1) > 0
    requires || Exited(p, t)
             || (Delay(p.reaction, stages[0].0).Some?
                 && Delay(p.reaction, stages[0].0).value <= Second * (Checks(stages[0].1) - 1))
    ensures Escalate(p, t, stages) == [StageRun(stages[0].0, true)]
    ensures EscalatedProc(p, t, stages) == Receive(p, stages[0].0, t)
  {
    FirstGoneIff(Receive(p, stages[0].0, t), t, stages[0].1);
  }

  /** The same process is left as it was by the escalation. */
  lemma {:induction false} UnheededUntouched(p: Proc, t: nat, stages: seq<(Stage, int)>)
    requires p.exitAt.None?
    requires forall i :: 0 <= i < |stages| ==> Delay(p.reaction, stages[i].0).None?
    ensures EscalatedProc(p, t, stages) == p
    decreases |stages|
  {
    if stages != [] {
      assert Receive(p, stages[0].0, t) == p;
      FirstGoneIs(p, t, stages[0].1, 0, Checks(stages[0].1));
      assert forall i :: 0 <= i < |stages| - 1 ==> stages[1..][i] == stages[i + 1];
      UnheededUntouched(p, t + Second * Checks(stages[0].1), stages[1..]);
    }
  }

  /** Without any stage to run, `stop` can never see the process stop. */
  lemma EmptyPlanNeverStops(runs: seq<StageRun>)
    requires Escalated([], runs)
    ensures !SawStop(runs)
  {
  }

  /** A process not seen stopped has gone through every stage of the plan. */
  lemma NotStoppedRanAll(plan: seq<Stage>, runs: seq<StageRun>)
    requires Escalated(plan, runs) && !SawStop(runs)
    ensures Stages(runs) == plan
  {
  }

  /**
   * A process seen stopped has been given an exit time, and is no child of
   * the supervisor: a child's zombie is still found by every poll.
   */
  lemma {:induction false} StoppedHasExited(p: Proc, t: nat, stages: seq<(Stage, int)>)
    requires SawStop(Escalate(p, t, stages))
    ensures EscalatedProc(p, t, stages).exitAt.Some? && !p.child
    decreases |stages|
  {
    var q := Receive(p, stages[0].0, t);
    var i := FirstGone(q, t, stages[0].1, 0);
    var stopped, u := i < Checks(stages[0].1), t + Second * i;
    assert stages == [stages[0]] + stages[1..];
    EscalateStep(p, t, stages[0], stages[1..], q, stopped, u);
    if !stopped {
      var rest := Escalate(q, u, stages[1..]);
      assert Escalate(p, t, stages) == [StageRun(stages[0].0, false)] + rest;
      StoppedHasExited(q, u, stages[1..]);
    }
  }

  /** A process that has already exited is left as it is by every stage (`NoSuchProcess` is ignored). */
  lemma {:induction false} ExitedLeftAlone(p: Proc, t: nat, stages: seq<(Stage, int)>)
    requires Exited(p, t)
    ensures EscalatedProc(p, t, stages) == p
    decreases |stages|
  {
    if stages != [] {
      var i := FirstGone(p, t, stages[0].1, 0);
      if i >= Checks(stages[0].1) {
        ExitedLeftAlone(p, t + Second * i, stages[1..]);
      }
    }
  }

  // ---------------------------------------------------------------------
  // Template assignment
  // ---------------------------------------------------------------------

  /** `values`+runtime keys, as the `for` loop over `runtime_template_key_functions` builds it. */
  method AddRuntimeValues(templateValues: map<string, string>, fns: seq<RuntimeKey>) returns (values: map<string, string>)
    ensures values == WithRuntimeValues(templateValues, fns)
  {
    values := templateValues;
    for i := 0 to |fns|
      invariant values == WithRuntimeValues(templateValues, fns[..i])
    {
      assert fns[..i + 1][..i] == fns[..i];
      var key := fns[i].0;
      if key !in values && !HasTriple(key) && ' ' !in key {
        values := values[key := fns[i].1(values)];
      }
    }
    assert fns[..|fns|] == fns;
  }

  /** A validation function: the title of a required setup step, or "" when none is needed. */
  type Validation = map<string, string> -> string

  /** The constructor's arguments, which no method changes (pre-start and pre-graceful functions left out). */
  datatype Definition = Definition(
    cliName: string,
    name: string,
    processName: string,
    startCmdTmpl: seq<Arg>,
    stopCmdTmpl: seq<Arg>,
    gracefulCmdTmpl: seq<Arg>,
    envTmpl: map<string, string>,
    cwdKey: Option<string>,
    propValidationFunctions: seq<Validation>,
    runtimeTemplateKeyFunctions: seq<RuntimeKey>,
    runSigterm: bool,
    runSigkill: bool,
    afterStopCmdSeconds: Seconds,
    afterSigtermSeconds: Seconds,
    afterSigkillSeconds: Seconds,
    externalPidfileKey: Option<string>,
    externalProcnameKey: Option<string>,
    split: Splitter)

  /** The rendered fields `assign_template_values` sets: the three commands and the environment. */
  datatype Commands = Commands(startCmd: seq<string>, stopCmd: seq<string>, gracefulCmd: seq<string>, env: map<string, string>)

  /** The fields read from the values: working directory, log file, priority, pid file, enabled flag and the rest. */
  datatype Settings = Settings(
    cwd: Option<string>,
    stdout: string,
    priority: int,
    pidFile: string,
    enabled: bool,
    snapCmd: Option<string>,
    startWaitSeconds: int)

  /** The externally managed pid file and process name, and the stop-stage waits. */
  datatype Externals = Externals(
    externalPidfile: Option<string>,
    externalProcname: Option<string>,
    afterStopCmdSeconds: int,
    afterSigtermSeconds: int,
    afterSigkillSeconds: int)

  /** Everything `assign_template_values` sets. */
  datatype Assigned = Assigned(values: map<string, string>, commands: Commands, settings: Settings, externals: Externals)

  /** The template values with the runtime keys added: the map every field is rendered from. */
  function ValuesOf(d: Definition, templateValues: map<string, string>): map<string, string> {
    WithRuntimeValues(templateValues, d.runtimeTemplateKeyFunctions)
  }

  /** `template.Renderer(values).render`. */
  function RenderWith(values: map<string, string>): RenderFn
    requires EncodeInjective(values.Keys)
  {
    e => NewRenderer(values).Render(e)
  }

  /** `values[key]` for an optional key. */
  function ValueIfKey(values: map<string, string>, key: Option<string>): (r: Result<Option<string>, Fault>)
    ensures key.None? ==> r == Ok(None)
    ensures key.Some? ==> (r.Ok? <==> key.value in values)
    ensures key.Some? && r.Ok? ==> r.value == Some(values[key.value])
    ensures r.Err? ==> r.error == KeyError(key.value)
  {
    match key
    case None => Ok(None)
    case Some(k) => if k in values then Ok(Some(values[k])) else Err(KeyError(k))
  }

  /** `values.get(key)`. */
  function GetValue(values: map<string, string>, key: string): (r: Option<string>)
    ensures r.Some? <==> key in values
    ensures r.Some? ==> r.value == values[key]
  {
    if key in values then Some(values[key]) else None
  }

  function SecondsOf(s: Seconds, values: map<string, string>): Result<int, Fault> {
    var f :- ResolveSeconds(s, values);
    Ok(f.n)
  }

  /** The commands and the environment, rendered in that order; the first failure is the result. */
  function RenderedCommands(d: Definition, values: map<string, string>): (r: Result<Commands, Fault>)
    requires EncodeInjective(values.Keys)
    ensures r.Ok? <==>
      && RenderCmd(RenderWith(values), d.startCmdTmpl, d.split).Ok?
      && RenderCmd(RenderWith(values), d.stopCmdTmpl, d.split).Ok?
      && RenderCmd(RenderWith(values), d.gracefulCmdTmpl, d.split).Ok?
      && RenderEnv(RenderWith(values), d.envTmpl).Ok?
    ensures r.Ok? ==>
      && RenderCmd(RenderWith(values), d.startCmdTmpl, d.split) == Ok(r.value.startCmd)
      && RenderCmd(RenderWith(values), d.stopCmdTmpl, d.split) == Ok(r.value.stopCmd)
      && RenderCmd(RenderWith(values), d.gracefulCmdTmpl, d.split) == Ok(r.value.gracefulCmd)
      && RenderEnv(RenderWith(values), d.envTmpl) == Ok(r.value.env)
    ensures r.Err? ==> r.error == TemplateError
  {
    var rend := RenderWith(values);
    var startCmd :- FromTemplate(RenderCmd(rend, d.startCmdTmpl, d.split));
    var stopCmd :- FromTemplate(RenderCmd(rend, d.stopCmdTmpl, d.split));
    var gracefulCmd :- FromTemplate(RenderCmd(rend, d.gracefulCmdTmpl, d.split));
    var env :- FromTemplate(RenderEnv(rend, d.envTmpl));
    Ok(Commands(startCmd, stopCmd, gracefulCmd, env))
  }

  /** The commands and the environment, rendered as `render_cmd_from_tmpl` and the `env` comprehension do. */
  method RenderCommands(d: Definition, values: map<string, string>) returns (r: Result<Commands, Fault>)
    requires EncodeInjective(values.Keys)
    ensures r == RenderedCommands(d, values)
  {
    var rend := RenderWith(values);
    var start := RenderCmdFromTmpl(rend, d.startCmdTmpl, d.split);
    if start.Err? { return Err(TemplateError); }
    var stop := RenderCmdFromTmpl(rend, d.stopCmdTmpl, d.split);
    if stop.Err? { return Err(TemplateError); }
    var graceful := RenderCmdFromTmpl(rend, d.gracefulCmdTmpl, d.split);
    if graceful.Err? { return Err(TemplateError); }
    var env := RenderEnv(rend, d.envTmpl);
    if env.Err? { return Err(TemplateError); }
    return Ok(Commands(start.value, stop.value, graceful.value, env.value));
  }

  /**
   * The fields read from the values, in the order they are assigned: a
   * missing key is a `KeyError`, an integer that does not parse a
   * `ValueError`; `<name>.snap_cmd` is optional.
   */
  function ReadSettings(d: Definition, values: map<string, string>): (r: Result<Settings, Fault>)
    ensures r.Ok? <==>
      && (d.cwdKey.Some? ==> d.cwdKey.value in values)
      && d.name + ".stdout" in values
      && d.name + ".priority" in values && ParseInt(values[d.name + ".priority"]).Some?
      && "main.pidfile_dir" in values
      && d.name + ".enabled" in values
      && "main.start_wait_seconds" in values && ParseInt(values["main.start_wait_seconds"]).Some?
    ensures r.Ok? ==>
      && r.value.cwd == (if d.cwdKey.Some? then Some(values[d.cwdKey.value]) else None)
      && r.value.stdout == values[d.name + ".stdout"]
      && Some(r.value.priority) == ParseInt(values[d.name + ".priority"])
      && r.value.pidFile == Join(values["main.pidfile_dir"], d.name + ".pid")
      && (r.value.enabled <==> EnabledFlag(values[d.name + ".enabled"]))
      && r.value.snapCmd == GetValue(values, d.name + ".snap_cmd")
      && Some(r.value.startWaitSeconds) == ParseInt(values["main.start_wait_seconds"])
    ensures r.Err? ==> r.error.KeyError? || r.error.ValueError?
  {
    var cwd :- ValueIfKey(values, d.cwdKey);
    var stdout :- Value(values, d.name + ".stdout");
    var priority :- IntValue(values, d.name + ".priority");
    var pidfileDir :- Value(values, "main.pidfile_dir");
    var enabledValue :- Value(values, d.name + ".enabled");
    var snapCmd := GetValue(values, d.name + ".snap_cmd");
    var startWaitSeconds :- IntValue(values, "main.start_wait_seconds");
    Ok(Settings(cwd, stdout, priority, Join(pidfileDir, d.name + ".pid"), EnabledFlag(enabledValue), snapCmd, startWaitSeconds))
  }

  /** The external pid file and process name, then the stop-stage waits, property-substituted where asked. */
  function ReadExternals(d: Definition, values: map<string, string>): (r: Result<Externals, Fault>)
    ensures r.Ok? <==>
      && (d.externalPidfileKey.Some? ==> d.externalPidfileKey.value in values)
      && (d.externalProcnameKey.Some? ==> d.externalProcnameKey.value in values)
      && ResolveSeconds(d.afterStopCmdSeconds, values).Ok?
      && ResolveSeconds(d.afterSigtermSeconds, values).Ok?
      && ResolveSeconds(d.afterSigkillSeconds, values).Ok?
    ensures r.Ok? ==>
      && r.value.externalPidfile == (if d.externalPidfileKey.Some? then Some(values[d.externalPidfileKey.value]) else None)
      && r.value.externalProcname == (if d.externalProcnameKey.Some? then Some(values[d.externalProcnameKey.value]) else None)
      && ResolveSeconds(d.afterStopCmdSeconds, values) == Ok(Fixed(r.value.afterStopCmdSeconds))
      && ResolveSeconds(d.afterSigtermSeconds, values) == Ok(Fixed(r.value.afterSigtermSeconds))
      && ResolveSeconds(d.afterSigkillSeconds, values) == Ok(Fixed(r.value.afterSigkillSeconds))
    ensures r.Err? ==> r.error.KeyError? || r.error.ValueError?
  {
    var externalPidfile :- ValueIfKey(values, d.externalPidfileKey);
    var externalProcname :- ValueIfKey(values, d.externalProcnameKey);
    var afterStop :- SecondsOf(d.afterStopCmdSeconds, values);
    var afterSigterm :- SecondsOf(d.afterSigtermSeconds, values);
    var afterSigkill :- SecondsOf(d.afterSigkillSeconds, values);
    Ok(Externals(externalPidfile, externalProcname, afterStop, afterSigterm, afterSigkill))
  }

  /**
   * `assign_template_values`: the values with the runtime keys, then the
   * rendered fields, then the fields read from the values; the first
   * failure is the result.
   */
  function Assignment(d: Definition, templateValues: map<string, string>): (r: Result<Assigned, Fault>)
    requires EncodeInjective(ValuesOf(d, templateValues).Keys)
    ensures var values := ValuesOf(d, templateValues);
      && (r.Ok? <==> RenderedCommands(d, values).Ok? && ReadSettings(d, values).Ok? && ReadExternals(d, values).Ok?)
      && (r.Ok? ==> r.value == Assigned(values, RenderedCommands(d, values).value, ReadSettings(d, values).value, ReadExternals(d, values).value))
      && (RenderedCommands(d, values).Err? ==> r == Err(TemplateError))
  {
    var values := ValuesOf(d, templateValues);
    var commands := RenderedCommands(d, values);
    var settings := ReadSettings(d, values);
    var externals := ReadExternals(d, values);
    if commands.Err? then Err(TemplateError)
    else if settings.Err? then Err(settings.error)
    else if externals.Err? then Err(externals.error)
    else Ok(Assigned(values, commands.value, settings.value, externals.value))
  }

  /** `assign_template_values` fails only on a template that does not render or a missing or malformed value. */
  lemma AssignmentFaults(d: Definition, templateValues: map<string, string>)
    requires EncodeInjective(ValuesOf(d, templateValues).Keys)
    ensures Assignment(d, templateValues).Err? ==>
      var e := Assignment(d, templateValues).error;
      e == TemplateError || e.KeyError? || e.ValueError?
  {
  }

  // ---------------------------------------------------------------------
  // The service profile
  // ---------------------------------------------------------------------

  /** `ServiceProfile(...)`: refused when the service could not be stopped at all. */
  method NewServiceProfile(d: Definition) returns (r: Result<ServiceProfile, Fault>)
    ensures r.Err? <==> !d.runSigterm && d.stopCmdTmpl == []
    ensures r.Err? ==> r.error == ServiceError
    ensures r.Ok? ==> fresh(r.value) && r.value.def == d && r.value.Initial()
  {
    if !d.runSigterm && d.stopCmdTmpl == [] {
      return Err(ServiceError);
    }
    var profile := new ServiceProfile(d);
    return Ok(profile);
  }

  /** How one service is configured, found, started and stopped. */
  class ServiceProfile {
    const def: Definition
    var afterStopCmdSeconds: Seconds
    var afterSigtermSeconds: Seconds
    var afterSigkillSeconds: Seconds
    var externalPidfile: Option<string>
    var externalProcname: Option<string>
    var startCmd: seq<string>
    var stopCmd: seq<string>
    var gracefulCmd: seq<string>
    var env: map<string, string>
    var cwd: Option<string>
    var values: map<string, string>
    var stdout: Option<string>
    var enabled: bool
    var pidFile: Option<string>
    var priority: Option<int>
    var snapCmd: Option<string>
    var startWaitSeconds: Option<int>

    /** The state right after construction: nothing assigned yet. */
    predicate Initial()
      reads this
    {
      && afterStopCmdSeconds == def.afterStopCmdSeconds
      && afterSigtermSeconds == def.afterSigtermSeconds
      && afterSigkillSeconds == def.afterSigkillSeconds
      && externalPidfile == None && externalProcname == None
      && startCmd == [] && stopCmd == [] && gracefulCmd == []
      && env == map[] && cwd == None && values == map[] && stdout == None
      && !enabled && pidFile == None && priority == None && snapCmd == None && startWaitSeconds == None
    }

    /** The state `assign_template_values` leaves: what `start`, `stop` and `graceful` rely on. */
    predicate Ready()
      reads this
    {
      && pidFile.Some? && startWaitSeconds.Some? && priority.Some?
      && afterStopCmdSeconds.Fixed? && afterSigtermSeconds.Fixed? && afterSigkillSeconds.Fixed?
    }

    /** The fields hold exactly the assigned record `a`. */
    predicate Holds(a: Assigned)
      reads this
    {
      values == a.values && HoldsCommands(a.commands) && HoldsSettings(a.settings) && HoldsExternals(a.externals)
    }

    predicate HoldsCommands(c: Commands)
      reads this
    {
      startCmd == c.startCmd && stopCmd == c.stopCmd && gracefulCmd == c.gracefulCmd && env == c.env
    }

    predicate HoldsSettings(s: Settings)
      reads this
    {
      && cwd == s.cwd && stdout == Some(s.stdout) && priority == Some(s.priority)
      && pidFile == Some(s.pidFile) && enabled == s.enabled && snapCmd == s.snapCmd
      && startWaitSeconds == Some(s.startWaitSeconds)
    }

    predicate HoldsExternals(e: Externals)
      reads this
    {
      && externalPidfile == e.externalPidfile && externalProcname == e.externalProcname
      && afterStopCmdSeconds == Fixed(e.afterStopCmdSeconds)
      && afterSigtermSeconds == Fixed(e.afterSigtermSeconds)
      && afterSigkillSeconds == Fixed(e.afterSigkillSeconds)
    }

    /** The constructor proper: it takes the definition as given. */
    constructor (d: Definition)
      requires d.runSigterm || d.stopCmdTmpl != []
      ensures def == d && Initial()
    {
      def := d;
      afterStopCmdSeconds := d.afterStopCmdSeconds;
      afterSigtermSeconds := d.afterSigtermSeconds;
      afterSigkillSeconds := d.afterSigkillSeconds;
      externalPidfile := None;
      externalProcname := None;
      startCmd := [];
      stopCmd := [];
      gracefulCmd := [];
      env := map[];
      cwd := None;
      values := map[];
      stdout := None;
      enabled := false;
      pidFile := None;
      priority := None;
      snapCmd := None;
      startWaitSeconds := None;
    }

    /**
     * `assign_template_values`. The fields are set only once every one of
     * them could be computed (see README).
     */
    method AssignTemplateValues(templateValues: map<string, string>) returns (r: Result<(), Fault>)
      requires EncodeInjective(ValuesOf(def, templateValues).Keys)
      modifies this
      ensures r.Ok? <==> Assignment(def, templateValues).Ok?
      ensures r.Ok? ==> Holds(Assignment(def, templateValues).value) && Ready()
      ensures r.Err? ==> r.error == Assignment(def, templateValues).error && unchanged(this)
    {
      var vals := AddRuntimeValues(templateValues, def.runtimeTemplateKeyFunctions);
      var commands := RenderCommands(def, vals);
      if commands.Err? { return Err(commands.error); }
      var settings := ReadSettings(def, vals);
      if settings.Err? { return Err(settings.error); }
      var externals := ReadExternals(def, vals);
      if externals.Err? { return Err(externals.error); }
      Store(Assigned(vals, commands.value, settings.value, externals.value));
      return Ok(());
    }

    /** The field assignments of `assign_template_values`. */
    method Store(a: Assigned)
      modifies this
      ensures Holds(a)
    {
      values := a.values;
      StoreCommands(a.commands);
      StoreSettings(a.settings);
      StoreExternals(a.externals);
    }

    method StoreCommands(c: Commands)
      modifies this`startCmd, this`stopCmd, this`gracefulCmd, this`env
      ensures HoldsCommands(c)
    {
      startCmd, stopCmd, gracefulCmd, env := c.startCmd, c.stopCmd, c.gracefulCmd, c.env;
    }

    method StoreSettings(s: Settings)
      modifies this`cwd, this`stdout, this`priority, this`pidFile, this`enabled, this`snapCmd, this`startWaitSeconds
      ensures HoldsSettings(s)
    {
      cwd := s.cwd;
      stdout := Some(s.stdout);
      priority := Some(s.priority);
      pidFile := Some(s.pidFile);
      enabled := s.enabled;
      snapCmd := s.snapCmd;
      startWaitSeconds := Some(s.startWaitSeconds);
    }

    method StoreExternals(e: Externals)
      modifies this`externalPidfile, this`externalProcname, this`afterStopCmdSeconds, this`afterSigtermSeconds, this`afterSigkillSeconds
      ensures HoldsExternals(e)
    {
      externalPidfile := e.externalPidfile;
      externalProcname := e.externalProcname;
      afterStopCmdSeconds := Fixed(e.afterStopCmdSeconds);
      afterSigtermSeconds := Fixed(e.afterSigtermSeconds);
      afterSigkillSeconds := Fixed(e.afterSigkillSeconds);
    }

    /** `_get_process_name`. */
    function ProcessName(): string
      reads this
    {
      if externalProcname.Some? then externalProcname.value else def.processName
    }

    /** `_get_pidfile`. */
    function PidFileName(): Option<string>
      reads this
    {
      if externalPidfile.Some? then externalPidfile else pidFile
    }

    /** `_is_externally_managed_process`. */
    predicate IsExternallyManaged()
      reads this
    {
      externalPidfile.Some?
    }

    /** The lock directory that guards the pid file. */
    function LockDir(): string
      reads this
      requires PidFileName().Some?
    {
      PidFileName().value + ".lock"
    }

    /** Whether a lock on the pid file, begun on the state of `os`, is taken within the back-off schedule. */
    predicate LockTaken(os: Os)
      reads this, os
      requires PidFileName().Some?
    {
      FirstFree(LockDir() in os.dirs, LookupRelease(os.releases, LockDir()), os.clock, 0) < |WaitIntervals|
    }

    /** When that lock is taken, or given up. */
    function LockedAt(os: Os): nat
      reads this, os
      requires PidFileName().Some?
    {
      os.clock + Waited(FirstFree(LockDir() in os.dirs, LookupRelease(os.releases, LockDir()), os.clock, 0))
    }

    /** What the pid file of `os` says about its process once that lock is taken. */
    function Seen(os: Os): Lookup
      reads this, os
      requires PidFileName().Some?
    {
      Identify(GetValue(os.files, PidFileName().value), os.procs, LockedAt(os), os.user, ProcessName())
    }

    /**
     * `_get_running_process_if_exists`: under the pid file's lock (a no-op
     * unless stale pid files are to be deleted), read the pid and decide
     * whether it is the service's process. A corrupt pid file is always
     * deleted, after every process named like the service is killed; a
     * dangling or stale one only when asked to. Apart from the lock, nothing
     * can fail: each file removed was just read.
     */
    method GetRunningProcess(os: Os, deleteStale: bool) returns (r: Result<Option<int>, Fault>, look: Lookup)
      requires os.Valid() && Ready()
      modifies os
      ensures os.Valid() && os.nextPid == old(os.nextPid)
      ensures os.releases == old(os.releases) || os.releases == old(os.releases) - {LockDir()}
      ensures !deleteStale ==> r.Ok? && os.clock == old(os.clock) && os.dirs == old(os.dirs) && os.releases == old(os.releases)
      ensures r.Err? <==> deleteStale && !old(LockTaken(os))
      ensures deleteStale && r.Ok? ==> os.clock == old(LockedAt(os)) && look == old(Seen(os)) && LockDir() !in os.dirs
      ensures r.Err? ==> r.error == LockError(LockDir()) && os.files == old(os.files) && os.procs == old(os.procs)
      ensures old(os.clock) <= os.clock <= old(os.clock) + Waited(|WaitIntervals|)
      ensures LockDir() !in os.dirs || LockDir() in old(os.dirs)
      ensures forall x :: x in old(os.dirs) && x !in old(os.releases) && x != LockDir() ==> x in os.dirs
      ensures r.Ok? ==>
        && look == Identify(GetValue(old(os.files), PidFileName().value), old(os.procs), os.clock, os.user, ProcessName())
        && r.value == FoundPid(look)
        && os.files == (if RemovesFile(look, deleteStale) then old(os.files) - {PidFileName().value} else old(os.files))
        && os.procs == (if look.Corrupt? then KilledByName(old(os.procs), Basename(ProcessName()), os.clock) else old(os.procs))
    {
      var pidfileName := PidFileName().value;
      var processName := ProcessName();
      var lock := new ProtectedFilePath(pidfileName, !deleteStale);
      var entered, _ := lock.Enter(os);
      if entered.Err? {
        return Err(entered.error), NoFile;
      }
      look := Inspect(os, pidfileName, processName, deleteStale);
      var exited := lock.Exit(os);
      assert exited.Ok?;
      return Ok(FoundPid(look)), look;
    }

    /** The stages `stop` may run for this service. */
    function StopPlan(): seq<Stage>
      reads this
    {
      Plan(stopCmd != [], def.runSigterm, def.runSigkill)
    }

    /** The stages of the plan, each with the seconds of the poll that follows it. */
    function StopStages(): (r: seq<(Stage, int)>)
      reads this
      requires Ready()
      ensures StagesOf(r) == StopPlan()
    {
      (if stopCmd != [] then [(StopCommand, afterStopCmdSeconds.n)] else []) + SignalStages()
    }

    /** The signal stages of the plan, SIGTERM then SIGKILL, each with its wait. */
    function SignalStages(): seq<(Stage, int)>
      reads this
      requires Ready()
    {
      (if def.runSigterm then [(Terminate, afterSigtermSeconds.n)] else [])
      + (if def.runSigkill then [(Kill, afterSigkillSeconds.n)] else [])
    }

    /**
     * The escalation inside `stop`: the stop command (spawned, and acting on
     * the process), then SIGTERM, then SIGKILL, each only while the poll
     * after the previous stage has not seen the process stop.
     */
    method RunStages(os: Os, pid: int) returns (runs: seq<StageRun>)
      requires os.Valid() && Ready() && pid in os.procs
      modifies os
      ensures os.Valid()
      ensures runs == Escalate(old(os.procs)[pid], old(os.clock), StopStages())
      ensures SawStop(runs) ==> !Exists(os.procs, pid, os.clock)
      ensures os.files == old(os.files) && os.releases == old(os.releases)
      ensures forall x :: x in old(os.dirs) && x !in old(os.releases) ==> x in os.dirs
      ensures os.nextPid == old(os.nextPid) + (if stopCmd != [] then 1 else 0)
      ensures OnlyStopped(old(os.procs), os.procs, pid, StopSpawn(os, old(os.nextPid), old(os.clock)))
      ensures os.procs[pid] == EscalatedProc(old(os.procs)[pid], old(os.clock), StopStages())
    {
      ghost var goal := Escalate(os.procs[pid], os.clock, StopStages());
      ghost var last := EscalatedProc(os.procs[pid], os.clock, StopStages());
      var stopped;
      runs, stopped := NextStage(os, pid, stopCmd != [], StopCommand, afterStopCmdSeconds.n, [], false, goal, last, SignalStages());
      ghost var procs1 := os.procs;
      runs, stopped := RunSignals(os, pid, runs, stopped, goal, last);
      OnlyStoppedThen(old(os.procs), procs1, os.procs, pid, StopSpawn(os, old(os.nextPid), old(os.clock)));
    }

    /** The stop command, spawned as pid `n` at time `t`, when the service has one. */
    function StopSpawn(os: Os, n: int, t: nat): (r: Option<(int, Proc)>)
      reads this
      ensures r.Some? <==> stopCmd != []
      ensures r.Some? ==> r.value.0 == n && r.value.1.cmdline == stopCmd && r.value.1.name == Basename(stopCmd[0])
    {
      if stopCmd != [] then Some((n, os.Spawned(stopCmd, stopCmd[0], t))) else None
    }

    /** The SIGTERM and SIGKILL steps of the escalation, after the stop command. */
    method RunSignals(os: Os, pid: int, runs: seq<StageRun>, stopped: bool, ghost goal: seq<StageRun>, ghost last: Proc)
      returns (runs': seq<StageRun>, stopped': bool)
      requires os.Valid() && Ready() && pid in os.procs
      requires SawStop(runs) == stopped && (stopped ==> !Exists(os.procs, pid, os.clock))
      requires Remaining(goal, runs, stopped, os.procs[pid], os.clock, SignalStages())
      requires RemainingProc(last, stopped, os.procs[pid], os.clock, SignalStages())
      modifies os
      ensures os.Valid() && runs' == goal
      ensures SawStop(runs') == stopped' && (stopped' ==> !Exists(os.procs, pid, os.clock))
      ensures os.files == old(os.files) && os.releases == old(os.releases)
      ensures forall x :: x in old(os.dirs) && x !in old(os.releases) ==> x in os.dirs
      ensures os.nextPid == old(os.nextPid)
      ensures OnlyStopped(old(os.procs), os.procs, pid, None) && os.procs[pid] == last
    {
      ghost var c := if def.runSigkill then [(Kill, afterSigkillSeconds.n)] else [];
      runs', stopped' := NextStage(os, pid, def.runSigterm, Terminate, afterSigtermSeconds.n, runs, stopped, goal, last, c);
      ghost var procs1 := os.procs;
      assert c + [] == c;
      runs', stopped' := NextStage(os, pid, def.runSigkill, Kill, afterSigkillSeconds.n, runs', stopped', goal, last, []);
      OnlyStoppedThen(old(os.procs), procs1, os.procs, pid, None);
      NothingRemaining(goal, runs', stopped', os.procs[pid], os.clock);
    }

    /**
     * One `if` of the escalation: when the stage is `configured` and the
     * process has not been seen stopped, run it and record how it went.
     */
    method NextStage(os: Os, pid: int, configured: bool, stage: Stage, secs: int, runs: seq<StageRun>, stopped: bool,
                     ghost goal: seq<StageRun>, ghost last: Proc, ghost tail: seq<(Stage, int)>)
      returns (runs': seq<StageRun>, stopped': bool)
      requires os.Valid() && pid in os.procs && (configured && stage == StopCommand ==> stopCmd != [])
      requires SawStop(runs) == stopped && (stopped ==> !Exists(os.procs, pid, os.clock))
      requires Remaining(goal, runs, stopped, os.procs[pid], os.clock, (if configured then [(stage, secs)] else []) + tail)
      requires RemainingProc(last, stopped, os.procs[pid], os.clock, (if configured then [(stage, secs)] else []) + tail)
      modifies os
      ensures os.Valid() && pid in os.procs
      ensures Remaining(goal, runs', stopped', os.procs[pid], os.clock, tail)
      ensures RemainingProc(last, stopped', os.procs[pid], os.clock, tail)
      ensures os.procs[pid] == if configured && !stopped then Receive(old(os.procs)[pid], stage, old(os.clock)) else old(os.procs)[pid]
      ensures SawStop(runs') == stopped' && (stopped' ==> !Exists(os.procs, pid, os.clock))
      ensures os.files == old(os.files) && os.releases == old(os.releases)
      ensures forall x :: x in old(os.dirs) && x !in old(os.releases) ==> x in os.dirs
      ensures os.nextPid == old(os.nextPid) + (if configured && !stopped && stage == StopCommand then 1 else 0)
      ensures OnlyStopped(old(os.procs), os.procs, pid,
                          if configured && !stopped && stage == StopCommand then StopSpawn(os, old(os.nextPid), old(os.clock)) else None)
    {
      runs', stopped' := runs, stopped;
      if configured && !stopped {
        stopped' := RunStage(os, pid, stage, secs);
        runs' := runs + [StageRun(stage, stopped')];
      }
      OptionalStage(goal, runs, stopped, old(os.procs)[pid], old(os.clock), configured, (stage, secs), tail,
                    runs', stopped', os.procs[pid], os.clock);
      OptionalStageProc(last, runs, stopped, old(os.procs)[pid], old(os.clock), configured, (stage, secs), tail,
                        runs', stopped', os.procs[pid], os.clock);
    }

    /** One stage: act on the process (spawning the stop command first), then poll for `secs` seconds. */
    method RunStage(os: Os, pid: int, stage: Stage, secs: int) returns (stopped: bool)
      requires os.Valid() && pid in os.procs && (stage == StopCommand ==> stopCmd != [])
      modifies os
      ensures os.Valid()
      ensures pid in os.procs && StageEffect((stage, secs), old(os.procs)[pid], old(os.clock), stopped, os.procs[pid], os.clock)
      ensures stopped ==> !Exists(os.procs, pid, os.clock)
      ensures os.files == old(os.files) && os.releases == old(os.releases)
      ensures forall x :: x in old(os.dirs) && x !in old(os.releases) ==> x in os.dirs
      ensures os.nextPid == old(os.nextPid) + (if stage == StopCommand then 1 else 0)
      ensures OnlyStopped(old(os.procs), os.procs, pid, if stage == StopCommand then StopSpawn(os, old(os.nextPid), old(os.clock)) else None)
    {
      if stage == StopCommand {
        var n := os.Spawn(stopCmd, stopCmd[0]);
        assert n != pid;
      }
      os.Deliver(pid, stage);
      stopped := WaitDots(os, secs, pid);
    }

    /**
     * The locked part of `stop` for the process `pid`, entered right after
     * the lookup released the lock, so that it is taken at the first
     * attempt: escalate, then, if the process was seen stopped, remove the
     * pid file unless it is managed externally; otherwise exit with status
     * 1, keeping the pid file.
     */
    method Halt(os: Os, pid: int) returns (r: Result<(), Fault>, runs: seq<StageRun>)
      requires os.Valid() && Ready() && pid in os.procs && PidFileName().value in os.files && LockDir() !in os.dirs
      modifies os
      ensures os.Valid()
      ensures runs == Escalate(old(os.procs)[pid], old(os.clock), StopStages())
      ensures (r.Ok? <==> SawStop(runs)) && (r.Err? ==> r.error == SystemExit(1))
      ensures os.files == if SawStop(runs) && !IsExternallyManaged() then old(os.files) - {PidFileName().value} else old(os.files)
      ensures SawStop(runs) ==> !Exists(os.procs, pid, os.clock)
      ensures os.nextPid == old(os.nextPid) + (if stopCmd != [] then 1 else 0)
      ensures OnlyStopped(old(os.procs), os.procs, pid, StopSpawn(os, old(os.nextPid), old(os.clock)))
      ensures os.procs[pid] == EscalatedProc(old(os.procs)[pid], old(os.clock), StopStages())
    {
      var lock := new ProtectedFilePath(PidFileName().value, false);
      lock.EnterFree(os);
      runs := RunStages(os, pid);
      if SawStop(runs) && !IsExternallyManaged() {
        var removed := os.Remove(pidFile.value);
        assert removed;
      }
      lock.ExitHeld(os);
      if !SawStop(runs) {
        return Err(SystemExit(1)), runs;
      }
      return Ok(()), runs;
    }

    /**
     * `stop`: find the process (deleting a stale pid file), and if there is
     * one, escalate under the lock. The lookup releases the lock it takes,
     * so the escalation's own lock is taken at once, at the time the lookup
     * read the pid file.
     */
    method Stop(os: Os) returns (r: Result<(), Fault>, found: Option<int>, runs: seq<StageRun>)
      requires os.Valid() && Ready()
      modifies os, os.log
      ensures os.Valid() && os.log.calls == old(os.log.calls) + [Call(def.name, OpStop, r)]
      ensures !old(LockTaken(os)) ==>
        r == Err(LockError(LockDir())) && found.None? && runs == [] && os.files == old(os.files) && os.procs == old(os.procs)
      ensures old(LockTaken(os)) ==> found == FoundPid(old(Seen(os)))
      ensures old(LockTaken(os)) && found.None? ==>
        && r.Ok? && runs == [] && os.nextPid == old(os.nextPid)
        && os.files == (if RemovesFile(old(Seen(os)), true) then old(os.files) - {PidFileName().value} else old(os.files))
        && os.procs == (if old(Seen(os)).Corrupt? then KilledByName(old(os.procs), Basename(ProcessName()), old(LockedAt(os)))
                        else old(os.procs))
      ensures found.Some? ==>
        && runs == Escalate(old(os.procs)[found.value], old(LockedAt(os)), StopStages())
        && Escalated(StopPlan(), runs)
        && (r.Ok? <==> SawStop(runs)) && (r.Err? ==> r.error == SystemExit(1))
        && os.files == (if SawStop(runs) && !IsExternallyManaged() then old(os.files) - {PidFileName().value} else old(os.files))
        && OnlyStopped(old(os.procs), os.procs, found.value, StopSpawn(os, old(os.nextPid), old(LockedAt(os))))
        && os.procs[found.value] == EscalatedProc(old(os.procs)[found.value], old(LockedAt(os)), StopStages())
      ensures SawStop(runs) ==> found.Some? && !Exists(os.procs, found.value, os.clock)
    {
      var resolved, _ := GetRunningProcess(os, true);
      runs := [];
      if resolved.Err? {
        r, found := Err(resolved.error), None;
      } else if resolved.value.None? {
        r, found := Ok(()), None;
      } else {
        found := resolved.value;
        ghost var p := os.procs[found.value];
        r, runs := Halt(os, found.value);
        EscalateEscalated(p, old(LockedAt(os)), StopStages());
      }
      os.log.calls := os.log.calls + [Call(def.name, OpStop, r)];
    }

    /** The process `Popen(cmd, executable=start_cmd[0])` creates at time `t`: a child of this user. */
    function Launched(os: Os, t: nat): (p: Proc)
      reads this
      requires startCmd != []
      ensures p.user == os.user && p.child
      ensures p.cmdline == [def.processName] + startCmd[1..] && p.name == Basename(startCmd[0])
    {
      os.Spawned([def.processName] + startCmd[1..], startCmd[0], t)
    }

    /**
     * The locked part of `start`, entered right after the lookup released
     * the lock, so that it is taken at the first attempt: spawn the start
     * command with the process name as its first argument, and record its
     * pid unless the pid file is managed externally. `start_cmd[0]` of an
     * empty command raises `IndexError`, and the lock is released on the way
     * out.
     */
    method Launch(os: Os) returns (r: Result<(), Fault>, spawned: Option<int>)
      requires os.Valid() && Ready() && LockDir() !in os.dirs
      modifies os
      ensures os.Valid()
      ensures spawned.Some? <==> r.Ok?
      ensures r.Err? <==> startCmd == []
      ensures r.Err? ==> r.error == IndexError && os.nextPid == old(os.nextPid) && os.procs == old(os.procs) && os.files == old(os.files)
      ensures spawned.Some? ==>
        && spawned.value == old(os.nextPid) && os.nextPid == old(os.nextPid) + 1 && spawned.value in os.procs
        && os.procs == old(os.procs)[spawned.value := Launched(os, old(os.clock))]
        && os.procs[spawned.value].user == os.user && os.procs[spawned.value].child
        && os.procs[spawned.value].cmdline == [def.processName] + startCmd[1..]
        && os.procs[spawned.value].name == Basename(startCmd[0])
        && os.files == (if IsExternallyManaged() then old(os.files) else old(os.files)[PidFileName().value := IntToString(spawned.value)])
      ensures os.clock == old(os.clock) && os.dirs <= old(os.dirs) && LockDir() !in os.dirs
    {
      var pidfileName := PidFileName().value;
      var lock := new ProtectedFilePath(pidfileName, false);
      lock.EnterFree(os);
      if startCmd == [] {
        lock.ExitHeld(os);
        return Err(IndexError), None;
      }
      var pid := os.Spawn([def.processName] + startCmd[1..], startCmd[0]);
      if !IsExternallyManaged() {
        os.Write(pidfileName, IntToString(pid));
      }
      lock.ExitHeld(os);
      return Ok(()), Some(pid);
    }

    /**
     * `_get_running_process_if_exists(delete_stale_pidfiles=True)` while the
     * lock directory is absent: the lock is taken at once, so no time passes.
     */
    method LookAgain(os: Os) returns (found: Option<int>, look: Lookup)
      requires os.Valid() && Ready() && LockDir() !in os.dirs
      modifies os
      ensures os.Valid() && os.nextPid == old(os.nextPid) && os.clock == old(os.clock)
      ensures look == Identify(GetValue(old(os.files), PidFileName().value), old(os.procs), os.clock, os.user, ProcessName())
      ensures found == FoundPid(look)
      ensures os.files == (if RemovesFile(look, true) then old(os.files) - {PidFileName().value} else old(os.files))
      ensures os.procs == (if look.Corrupt? then KilledByName(old(os.procs), Basename(ProcessName()), os.clock) else old(os.procs))
    {
      AbsentTakenAtOnce(LookupRelease(os.releases, LockDir()), os.clock);
      var r;
      r, look := GetRunningProcess(os, true);
      assert r.Ok?;
      found := r.value;
    }

    /**
     * What `start` does when no running process was found: launch, sleep
     * `main.start_wait_seconds`, and look again. The start succeeds only if
     * that lookup finds a process and it is no zombie; otherwise it exits
     * with status 1. When this supervisor writes the pid file itself and the
     * process name is the service's own, that is exactly when the spawned
     * process has not exited.
     */
    method LaunchAndCheck(os: Os) returns (r: Result<(), Fault>, spawned: Option<int>, post: Lookup)
      requires os.Valid() && Ready() && LockDir() !in os.dirs
      modifies os
      ensures os.Valid()
      ensures spawned.Some? <==> startCmd != []
      ensures spawned.None? ==>
        r == Err(IndexError) && os.nextPid == old(os.nextPid) && os.procs == old(os.procs) && os.files == old(os.files)
      ensures spawned.Some? ==>
        && spawned.value == old(os.nextPid) && os.nextPid == old(os.nextPid) + 1 && spawned.value in os.procs
        && os.procs[spawned.value].user == os.user
        && os.procs[spawned.value].cmdline == [def.processName] + startCmd[1..]
        && os.procs[spawned.value].name == Basename(startCmd[0])
        && os.clock == old(os.clock) + Second * Checks(startWaitSeconds.value)
        && (r.Ok? <==> post.Found? && !Zombie(os.procs, post.pid, os.clock))
        && (r.Err? ==> r.error == SystemExit(1))
      ensures spawned.Some? ==>
        var files1 := if IsExternallyManaged() then old(os.files) else old(os.files)[PidFileName().value := IntToString(spawned.value)];
        var procs1 := old(os.procs)[spawned.value := Launched(os, old(os.clock))];
        && post == Identify(GetValue(files1, PidFileName().value), procs1, os.clock, os.user, ProcessName())
        && os.files == (if RemovesFile(post, true) then files1 - {PidFileName().value} else files1)
        && os.procs == (if post.Corrupt? then KilledByName(procs1, Basename(ProcessName()), os.clock) else procs1)
      ensures spawned.Some? && !IsExternallyManaged() ==>
        && os.procs == old(os.procs)[spawned.value := os.procs[spawned.value]]
        && post == Identify(Some(IntToString(spawned.value)), os.procs, os.clock, os.user, ProcessName())
      ensures spawned.Some? && !IsExternallyManaged() && ProcessName() == def.processName ==>
        (r.Ok? <==> !Exited(os.procs[spawned.value], os.clock))
    {
      r, spawned := Launch(os);
      if r.Err? {
        return r, None, NoFile;
      }
      Pause(os, startWaitSeconds.value);
      ghost var procs1, files1 := os.procs, os.files;
      var found;
      found, post := LookAgain(os);
      assert os.procs[spawned.value] == Receive(procs1[spawned.value], Kill, os.clock) || os.procs[spawned.value] == procs1[spawned.value];
      if !IsExternallyManaged() {
        assert GetValue(files1, PidFileName().value) == Some(IntToString(spawned.value));
        OwnChildIdentified(procs1, spawned.value, os.clock, os.user, ProcessName());
      }
      if found.Some? && !Zombie(os.procs, found.value, os.clock) {
        return Ok(()), spawned, post;
      }
      return Err(SystemExit(1)), spawned, post;
    }

    /**
     * `start`: nothing at all when the service's process is already running
     * (a stale pid file is deleted on the way); otherwise launch it and
     * check that it came up.
     */
    method Start(os: Os) returns (r: Result<(), Fault>, running: Option<int>, spawned: Option<int>, post: Lookup)
      requires os.Valid() && Ready()
      modifies os, os.log
      ensures os.Valid() && os.log.calls == old(os.log.calls) + [Call(def.name, OpStart, r)]
      ensures !old(LockTaken(os)) ==>
        && r == Err(LockError(LockDir())) && running.None? && spawned.None?
        && os.files == old(os.files) && os.procs == old(os.procs) && os.nextPid == old(os.nextPid)
      ensures old(LockTaken(os)) ==> running == FoundPid(old(Seen(os)))
      ensures running.Some? ==>
        && r.Ok? && spawned.None?
        && os.files == old(os.files) && os.procs == old(os.procs) && os.nextPid == old(os.nextPid)
      ensures old(LockTaken(os)) && running.None? ==> (spawned.Some? <==> startCmd != [])
      ensures old(LockTaken(os)) && running.None? && startCmd == [] ==> r == Err(IndexError)
      ensures spawned.None? ==> os.nextPid == old(os.nextPid)
      ensures spawned.Some? ==>
        && spawned.value == old(os.nextPid) && spawned.value in os.procs
        && os.procs[spawned.value].user == os.user
        && os.procs[spawned.value].cmdline == [def.processName] + startCmd[1..]
        && os.procs[spawned.value].name == Basename(startCmd[0])
        && os.clock == old(LockedAt(os)) + Second * Checks(startWaitSeconds.value)
        && (r.Ok? <==> post.Found? && !Zombie(os.procs, post.pid, os.clock))
        && (r.Err? ==> r.error == SystemExit(1))
      ensures spawned.Some? && !IsExternallyManaged() ==>
        post == Identify(Some(IntToString(spawned.value)), os.procs, os.clock, os.user, ProcessName())
      ensures spawned.Some? && !IsExternallyManaged() && ProcessName() == def.processName ==>
        (r.Ok? <==> !Exited(os.procs[spawned.value], os.clock))
      ensures old(LockTaken(os)) && running.None? ==>
        var files0 := if RemovesFile(old(Seen(os)), true) then old(os.files) - {PidFileName().value} else old(os.files);
        var procs0 := if old(Seen(os)).Corrupt? then KilledByName(old(os.procs), Basename(ProcessName()), old(LockedAt(os)))
                      else old(os.procs);
        && (spawned.None? ==> os.files == files0 && os.procs == procs0)
        && (spawned.Some? ==>
              var files1 := if IsExternallyManaged() then files0 else files0[PidFileName().value := IntToString(spawned.value)];
              var procs1 := procs0[spawned.value := Launched(os, old(LockedAt(os)))];
              && post == Identify(GetValue(files1, PidFileName().value), procs1, os.clock, os.user, ProcessName())
              && os.files == (if RemovesFile(post, true) then files1 - {PidFileName().value} else files1)
              && os.procs == (if post.Corrupt? then KilledByName(procs1, Basename(ProcessName()), os.clock) else procs1))
    {
      var resolved, _ := GetRunningProcess(os, true);
      if resolved.Err? {
        r, running, spawned, post := Err(resolved.error), None, None, NoFile;
      } else if resolved.value.Some? {
        r, running, spawned, post := Ok(()), resolved.value, None, NoFile;
      } else {
        running := None;
        r, spawned, post := LaunchAndCheck(os);
      }
      os.log.calls := os.log.calls + [Call(def.name, OpStart, r)];
    }

    /**
     * `graceful`: nothing for a service without a graceful-restart command;
     * otherwise, if its process is running, spawn that command under the lock.
     */
    method Graceful(os: Os) returns (r: Result<(), Fault>, running: Option<int>, spawned: Option<int>)
      requires os.Valid() && Ready()
      modifies os, os.log
      ensures os.Valid() && os.log.calls == old(os.log.calls) + [Call(def.name, OpGraceful, r)]
      ensures gracefulCmd == [] ==> r.Ok? && running.None? && spawned.None? && unchanged(os)
      ensures gracefulCmd != [] && !old(LockTaken(os)) ==>
        && r == Err(LockError(LockDir())) && running.None? && spawned.None?
        && os.files == old(os.files) && os.procs == old(os.procs) && os.nextPid == old(os.nextPid)
      ensures gracefulCmd != [] && old(LockTaken(os)) ==> r.Ok? && running == FoundPid(old(Seen(os)))
      ensures running.None? ==> spawned.None? && os.nextPid == old(os.nextPid)
      ensures running.Some? ==>
        && spawned.Some? && spawned.value == old(os.nextPid) && spawned.value in os.procs
        && os.procs == old(os.procs)[spawned.value := os.Spawned(gracefulCmd, gracefulCmd[0], old(LockedAt(os)))]
        && os.files == old(os.files)
      ensures gracefulCmd != [] && old(LockTaken(os)) && running.None? ==>
        && os.files == (if RemovesFile(old(Seen(os)), true) then old(os.files) - {PidFileName().value} else old(os.files))
        && os.procs == (if old(Seen(os)).Corrupt? then KilledByName(old(os.procs), Basename(ProcessName()), old(LockedAt(os)))
                        else old(os.procs))
    {
      r, running, spawned := Ok(()), None, None;
      if gracefulCmd != [] {
        var resolved, _ := GetRunningProcess(os, true);
        if resolved.Err? {
          r := Err(resolved.error);
        } else if resolved.value.Some? {
          running := resolved.value;
          var lock := new ProtectedFilePath(PidFileName().value, false);
          lock.EnterFree(os);
          var pid := os.Spawn(gracefulCmd, gracefulCmd[0]);
          lock.ExitHeld(os);
          spawned := Some(pid);
        }
      }
      os.log.calls := os.log.calls + [Call(def.name, OpGraceful, r)];
    }

    /**
     * `status`: the running process, found without the lock and without
     * deleting a dangling or stale pid file; a corrupt one is still deleted,
     * after every process named like the service is killed.
     */
    method Status(os: Os) returns (running: Option<int>)
      requires os.Valid() && Ready()
      modifies os
      ensures os.Valid()
      ensures var look := Identify(GetValue(old(os.files), PidFileName().value), old(os.procs), old(os.clock), os.user, ProcessName());
        && running == FoundPid(look)
        && os.files == (if look.Corrupt? then old(os.files) - {PidFileName().value} else old(os.files))
        && os.procs == (if look.Corrupt? then KilledByName(old(os.procs), Basename(ProcessName()), old(os.clock)) else old(os.procs))
      ensures os.clock == old(os.clock) && os.dirs == old(os.dirs) && os.nextPid == old(os.nextPid)
    {
      var resolved, _ := GetRunningProcess(os, false);
      running := resolved.value;
    }
  }

  /**
   * After assignment, the process name and pid file are the external ones
   * when their keys are configured, and otherwise the service's own process
   * name and `<main.pidfile_dir>/<name>.pid`.
   */
  lemma SelectedNames(sp: ServiceProfile, d: Definition, templateValues: map<string, string>)
    requires EncodeInjective(ValuesOf(d, templateValues).Keys) && sp.def == d
    requires Assignment(d, templateValues).Ok? && sp.Holds(Assignment(d, templateValues).value)
    ensures var values := ValuesOf(d, templateValues);
      && sp.ProcessName() == (if d.externalProcnameKey.Some? then values[d.externalProcnameKey.value] else d.processName)
      && sp.PidFileName() == Some(if d.externalPidfileKey.Some? then values[d.externalPidfileKey.value]
                                  else Join(values["main.pidfile_dir"], d.name + ".pid"))
      && (sp.IsExternallyManaged() <==> d.externalPidfileKey.Some?)
  {
  }
}
