# platform_cli in Dafny

A model of `platform_cli`, the front end that starts, stops, restarts and
checks the services of a platform installation. The services are described
by property templates. The model covers four parts, each with its
properties proved:

- **Templates** (`template.dfy`, examples in `template_examples.dfy`).
  - Dotted property names are transcoded to `___` and back around a strict
    mustache rendering.
  - The fixed-point loop resolves every value of a property map against the
    map itself within a budget of passes.
  - The mustache engine is modelled as plain `{{name}}` substitution with a
    strict missing-key error and identity escaping.
- **The lock-directory guard** (`lock.dfy`). `ProtectedFilePath` takes a
  path by creating `<path>.lock`, retrying on a fixed six-step back-off, and
  releases it by removing the directory.
- **Service profiles** (`service.dfy`). One class per service:
  - construction and the assignment of template values;
  - the choice of pid file and process name;
  - the stale-pid decision;
  - the bounded poll of `wait_dots`;
  - `start` with its verification, `stop` with its escalation, and
    `graceful`.
- **The command line** (`supervisor.dfy`):
  - the stable ordering of services by priority into an ordered map;
  - start, stop, restart and status in their orders;
  - the skip-setup gate;
  - the setup-step map and the setup verdict.

The operating system is the class `Host.Os` in `host.dfy`. Its state is:

- a set of directories, some held by another invocation until a given time;
- a map from file path to contents;
- a process table, where each process has an owner, a command line, an exit
  time and a reaction to each stop stage;
- the current user;
- a clock in tenths of a second.

`wait_dots`, `time.sleep` and the lock back-off advance the clock. A
process exits at its exit time. An exited child of this invocation stays in
the table as a zombie.

`Text` (`text.dfy`) holds the parts of Python's `int()`, `str()`,
`os.path.basename` and `os.path.join` the core relies on. `Common`
(`common.dfy`) holds `Option` and `Result`. Errors are `Result` values that
name the Python exception: `KeyError`, `ValueError`, `IndexError`, the
modules' own `Error` classes, and `SystemExit(1)` for `sys.exit(1)`.

Where the documentation and the code disagree, the model follows the code:

- Reference cycles do not make `render_values_in_template_map` fail:
  - `a = {{a}}` is stable at once;
  - `a = {{b}}, b = {{a}}` settles after two passes on the swapped
    placeholders (`TwoCycleRenderValues`);
  - only values that keep growing exhaust the budget.
- `CLI.status` is documented as showing the enabled services, but it reports
  every service.
- `CLI.restart` is documented as restarting the enabled services. Without
  `--graceful` it stops every service, then starts the enabled ones.
- `ProtectedFilePath.__exit__` wraps only `IOError`. The `OSError` of a
  failed `rmdir` passes through unwrapped.

Names in the model differ from the Python names:

| model | Python |
|---|---|
| `Encode` / `Decode` | `_dots_to_triple_under` and `_triple_under_to_dots` |
| `Inspect` | the body of `_get_running_process_if_exists` under the lock |
| `Identify` | its decision |
| `GetRunningProcess` | the whole method, lock included |

## Model

| member | source | states |
|---|---|---|
| Template.EncodeRemovesDots | platform_cli/template.py:30-32 | the encoding holds no '.', and it is two characters longer per '.' of the input |
| Template.EncodeDotFree | platform_cli/template.py:30-32 | a string without '.' is its own encoding |
| Template.DecodeWithoutTriple | platform_cli/template.py:35-37 | decoding leaves a string without "___" unchanged |
| Template.DecodeEncode | platform_cli/template.py:30-37 | decoding undoes encoding for strings without "_." and without "___" |
| Template.DecodeEncodeCounterexample | platform_cli/template.py:30-37 | the round trip fails in general: `a_.b` encodes to `a____b` and decodes to `a._b` |
| Template.TranscodableInjective | platform_cli/template.py:25-27 | on keys that round-trip, re-keying by the encoding merges no two keys |
| Template.DotFreeInjective | platform_cli/template.py:25-27 | on dot-free keys, re-keying by the encoding merges no two keys |
| Template.EncodeKeysForEngine | platform_cli/template.py:43-46 | the map handed to the renderer has no key with a '.', and exactly as many keys as the map it came from |
| Template.DecodeKeysAndValues | platform_cli/template.py:20-22 | on a map keyed by encoded keys, the result has the original keys, each with the decoded value |
| Template.KeysAndValuesRoundTrip | platform_cli/template.py:75-93 | re-keying keys and values by the decoding gives back the original map, for keys and values without "_." and "___" |
| Template.SubstituteOkIff | platform_cli/template.py:48-54 | rendering succeeds exactly when every placeholder names a key of the value map |
| Template.RenderPlaceholder | platform_cli/template.py:43-56 | `{{k}}` renders to the decoded value of `k`, inserted without escaping; a value without "___" comes out unchanged |
| Template.RenderMissingKey | platform_cli/template.py:46-54 | a placeholder naming an absent key is an error, never a blank |
| Template.SubstituteLiteralPrefix | platform_cli/template.py:52 | text without '{' passes through in front of what follows it, and so does an error from what follows |
| Template.DotFreeRenderer | platform_cli/template.py:79 | on dot-free keys, `Renderer(previous_run)` holds `previous_run` itself |
| Template.Pass | platform_cli/template.py:79-84 | one pass keeps the key set, and it fails only with the missing-key error |
| Template.PassOk | platform_cli/template.py:79-84 | a pass gives `m` when every value renders, against the previous map, to its entry in `m` |
| Template.PassErr | platform_cli/template.py:80-84 | a pass fails when any one value fails to render |
| Template.BuildRenderer | platform_cli/template.py:79 | on dot-free keys, the renderer built from `previous_run` is the one `Pass` renders against |
| Template.RenderPass | platform_cli/template.py:79-84 | the loop over `previous_run` computes the pass |
| Template.RenderValuesInTemplateMap | platform_cli/template.py:59-93 | the loop with its `for`/`else` computes `RenderValues` |
| Template.ZeroRunsFail | platform_cli/template.py:78-91 | with a budget of 0 passes, the error is raised |
| Template.IterateStable | platform_cli/template.py:85-86 | the loop stops only at a map that one more pass leaves unchanged |
| Template.IterateKeys | platform_cli/template.py:78-88 | the passes keep the key set |
| Template.IterateMoreBudget | platform_cli/template.py:78-91 | a larger budget gives the same result once a budget suffices |
| Template.RenderValuesFixpoint | platform_cli/template.py:85-93 | on success, the result has the input's keys, and it is the decoding of a map a pass leaves unchanged |
| Template.RenderValuesMoreRuns | platform_cli/template.py:59-93 | success within `n` passes gives the same map within `n + 1` |
| TemplateExamples.SelfTaggedStable | platform_cli/template.py:85-86 | a map whose values are `{{own key}}` is stable after one pass |
| TemplateExamples.TwoCycle | platform_cli/template.py:78-88 | the two-cycle `a = {{b}}, b = {{a}}` needs two passes and ends on `a = {{a}}, b = {{b}}` |
| TemplateExamples.TwoCycleRenderValues | platform_cli/template.py:59-93 | `render_values_in_template_map` on the two-cycle fails with one pass and succeeds with two |
| TemplateExamples.GrowingNeverConverges | platform_cli/template.py:78-91 | `a = q{{a}}` grows on every pass, so no budget suffices |
| TemplateExamples.GrowingRenderValues | platform_cli/template.py:89-91 | `render_values_in_template_map` on `a = q{{a}}` fails for every budget |
| TemplateExamples.ChainResolves | platform_cli/template.py:62-70 | a chain `a = r`, `b = s{{a}}`, `c = t{{b}}` is not stable after two passes; after three it is `c = tsr` |
| TemplateExamples.HomeResolves | platform_cli/template.py:59-93 | the documented example `main.home`, `fooservice.home = {{main.home}}/fooservice`, `fooservice.bin = {{fooservice.home}}/bin`: two passes do not settle, three give every value fully substituted under its dotted name |
| Lock.ProtectedFilePath.constructor | platform_cli/protected_file_path.py:20-24 | the lock directory is the path followed by ".lock" |
| Lock.FirstFree | platform_cli/protected_file_path.py:29-32 | the attempt that succeeds is the first to find the directory absent, none before it did, or there is none of the six |
| Lock.Schedule | platform_cli/protected_file_path.py:18 | attempts come 0.1, 0.3, 0.6, 1.1 and 1.8 s after the first; a failure sleeps 2.8 s in all |
| Lock.AbsentTakenAtOnce | platform_cli/protected_file_path.py:29-32 | an absent lock directory is taken at the first attempt |
| Lock.HeldForeverTimesOut | platform_cli/protected_file_path.py:29-37 | a directory nobody releases is never taken |
| Lock.ReleasedTakenIff | platform_cli/protected_file_path.py:18-37 | a directory released at `t` is taken exactly when `t` comes no later than the sixth attempt |
| Lock.ProtectedFilePath.Enter | platform_cli/protected_file_path.py:26-37 | noop does nothing; otherwise success at the first free attempt, with the directory created and the clock advanced by the earlier intervals; failure after six attempts and 2.8 s with the lock error; files and processes untouched |
| Lock.ProtectedFilePath.EnterFree | platform_cli/protected_file_path.py:26-37 | an absent lock directory is created by the first `mkdir`: no time passes and nothing else changes |
| Lock.ProtectedFilePath.Exit | platform_cli/protected_file_path.py:39-46 | noop does nothing; otherwise the directory is removed, and its absence is an `OSError` that is not wrapped |
| Lock.ProtectedFilePath.ExitHeld | platform_cli/protected_file_path.py:39-46 | a held lock directory is removed without error, and nothing else changes |
| Lock.ProtectedFilePath.EnterExitEnter | platform_cli/protected_file_path.py:26-46 | entering, leaving and entering again: the second entry succeeds exactly when the first did, at the first attempt and with no more waiting |
| Text.IntToStringRoundTrip | platform_cli/service.py:241-242 | a pid written with `str` reads back with `int(read().strip())` |
| Text.Basename | platform_cli/service.py:248 | `os.path.basename`: the part after the last '/' |
| Text.Join | platform_cli/service.py:178-179 | `os.path.join` of two parts: an absolute second part wins, otherwise the parts are joined with one '/' |
| Service.NewServiceProfile | platform_cli/service.py:103-104 | construction fails exactly when there is neither SIGTERM nor a stop command; otherwise the fields have their initial values |
| Service.ServiceProfile.constructor | platform_cli/service.py:103-142 | the definition is kept, and the assigned fields start empty |
| Service.RenderCmdFromTmpl | platform_cli/service.py:148-162 | the loop computes `RenderCmd`: the pieces of the elements in template order, or the first error |
| Service.RenderCmdOne | platform_cli/service.py:155-161 | one element: `''` is dropped, a `SplitResult` is split and spliced, anything else is one argument |
| Service.RenderCmdConcat | platform_cli/service.py:154-162 | rendering a concatenation concatenates the renderings, and the first error wins |
| Service.RenderCmdOkIff | platform_cli/service.py:154-162 | rendering succeeds exactly when every element renders |
| Service.DropsEmpty | platform_cli/service.py:157 | an element rendering to `''` adds nothing |
| Service.AddRuntimeValues | platform_cli/service.py:164-167 | the loop over the runtime key functions computes `WithRuntimeValues` |
| Service.RuntimeValuesExtend | platform_cli/service.py:164-167 | runtime keys never override a template value; each key added is free of "___" and ' ' and is one of the runtime keys |
| Service.RenderedCommands | platform_cli/service.py:168-173 | the three commands and the environment, each rendered from its template, or the template error |
| Service.RenderCommands | platform_cli/service.py:168-173 | the calls of `render_cmd_from_tmpl` and the `env` comprehension compute `RenderedCommands` |
| Service.IntValueRoundTrip | platform_cli/service.py:177 | a property holding `str(n)` reads back through `int(values[key])` as `n` |
| Service.ResolveSeconds | platform_cli/service.py:188-193 | a fixed wait stays; a property-substituted wait becomes the integer of that property |
| Service.ReadSettings | platform_cli/service.py:174-183 | succeeds exactly when every value read exists and parses; the fields are cwd, stdout, priority, the pid file under `main.pidfile_dir`, the enabled flag, the optional `snap_cmd` and the start wait |
| Service.EnabledExactSpelling | platform_cli/service.py:180-181 | `True`, `true`, `1`, `on` and `yes` enable a service; any other spelling, such as `TRUE`, `Yes` or ` true`, does not |
| Service.ReadExternals | platform_cli/service.py:184-193 | succeeds exactly when every configured external key and substituted wait is present and parses; gives the external pid file and process name and the three waits |
| Service.Assignment | platform_cli/service.py:145-193 | assignment succeeds exactly when rendering, reading and resolving all do; a rendering failure is the template error |
| Service.AssignmentFaults | platform_cli/service.py:145-193 | assignment fails only with the template error, a `KeyError` or a `ValueError` |
| Service.ServiceProfile.AssignTemplateValues | platform_cli/service.py:145-193 | on success the profile holds every computed field and is ready; on failure it returns that error |
| Service.SelectedNames | platform_cli/service.py:201-219 | the process name and pid file are the external ones when their keys are configured, otherwise `process_name` and `main.pidfile_dir/<name>.pid`; the process is externally managed exactly when an external pid file key is configured |
| Service.Identify | platform_cli/service.py:240-266 | a process is found exactly when the pid file parses to a pid that exists, and it is the user's own with the expected `cmdline[0]` or a zombie; no file and an unparsable file are their own cases |
| Service.WrittenPidIdentifies | platform_cli/service.py:251-262 | a pid written for a live process of this user with the expected command line is found |
| Service.WrittenPidDangles | platform_cli/service.py:252-257 | a pid written for a process that has gone is reported gone |
| Service.OwnChildIdentified | platform_cli/service.py:251-262 | a pid file written for a child always parses; with the expected process name it finds the child, which is a zombie exactly when it has exited |
| Service.Inspect | platform_cli/service.py:240-266 | the lookup is that decision; an unparsable file is always removed and kills the processes of that name; a stale file is removed only when asked |
| Service.KilledByName | platform_cli/service.py:247-249 | killing by name leaves the processes with other names as they were |
| Service.KilledByNameExits | platform_cli/service.py:247-249 | a running process of that name that reacts to SIGKILL exits |
| Service.KillByName | platform_cli/service.py:247-249 | the loop over the process table computes `KilledByName` |
| Service.ServiceProfile.GetRunningProcess | platform_cli/service.py:221-266 | without deletion, no lock and no error; with deletion, the lock error exactly when the back-off fails; otherwise the pid found by `Identify` and the resulting file and process changes |
| Service.ServiceProfile.LookAgain | platform_cli/service.py:221-266 | the lookup with deletion while the lock directory is absent: no lock error and no time passing; the pid found is the one `Identify` decides, with its file and process changes |
| Service.FirstGone | platform_cli/service.py:32-40 | the first check that finds the process gone, with every check before it finding it present |
| Service.FirstGoneIff | platform_cli/service.py:32-40 | the poll finds the process gone exactly when the last check would |
| Service.WaitDots | platform_cli/service.py:32-40 | True exactly when one of at most `wait_secs` checks, one a second, finds the process gone; with 0 seconds it is False and no time passes |
| Service.Pause | platform_cli/service.py:297-300 | the wait after launching advances the clock by one second per `start_wait_seconds` and changes no file or process |
| Service.Plan | platform_cli/service.py:400-434 | the stages are the stop command if any, SIGTERM if enabled and SIGKILL if enabled, in that order |
| Service.EscalateEscalated | platform_cli/service.py:393-434 | the escalation runs a prefix of the planned stages in order, each only while the process was not seen stopped |
| Service.UnheededEscalationFails | platform_cli/service.py:400-435 | a process that never exits and ignores every stage goes through all of them without being seen stopped |
| Service.PromptStageStops | platform_cli/service.py:400-413 | a process that is gone, or reacts to the first stage before its last poll, is seen stopped at once; no further stage runs, so only the first stage acts on it |
| Service.EmptyPlanNeverStops | platform_cli/service.py:393-435 | with no stage configured, the process is never seen stopped |
| Service.NotStoppedRanAll | platform_cli/service.py:413-435 | a process not seen stopped went through every planned stage |
| Service.StoppedHasExited | platform_cli/service.py:400-434 | a process seen stopped has been given an exit time by the escalation and is no child of the supervisor |
| Service.ExitedLeftAlone | platform_cli/service.py:418-432 | a process that has already exited is left as it is by every stage |
| Service.UnheededUntouched | platform_cli/service.py:400-434 | a process that never exits and ignores every stage is left unchanged by the escalation |
| Service.ServiceProfile.StopStages | platform_cli/service.py:400-434 | the stages with their waits follow the plan: stop command, SIGTERM, SIGKILL, each if configured |
| Service.ServiceProfile.RunStages | platform_cli/service.py:400-434 | the stages run are exactly the escalation of the plan from the process and time at entry, and the process is left as those stages leave it (`EscalatedProc`); a stop seen means the process is gone; no file changes; no other process changes, and with a stop command exactly one process is added, at the next pid: the child `Popen(stop_cmd)` creates |
| Service.OnlyStoppedThen | platform_cli/service.py:404-434 | two steps that each change only the process being stopped, the first possibly adding the stop command, together change only that process and add at most that command |
| Service.ServiceProfile.NextStage | platform_cli/service.py:400-434 | one `if not proc_stopped` step: a configured stage acts on the process only while it was not seen stopped, and what remains of the escalation, and of what it does to the process, is the rest of the stages; only that process changes, plus the stop command when that stage runs |
| Service.ServiceProfile.RunSignals | platform_cli/service.py:413-434 | the SIGTERM and SIGKILL steps complete the escalation and leave the process as the escalation does; they spawn nothing, change no file and change no other process |
| Service.ServiceProfile.RunStage | platform_cli/service.py:400-434 | one stage: the stop command is spawned at the next pid as the child `Popen(stop_cmd)` creates, or the signal delivered, then the process is polled; a stop seen means it is gone; no other process changes |
| Service.ServiceProfile.Halt | platform_cli/service.py:398-446 | under the lock: the escalation of the plan, with the process left as its stages leave it; success exactly when a stop was seen, else `sys.exit(1)`; the pid file is removed exactly when a stop was seen and it is not externally managed; no other process changes, except the stop command spawned at the next pid |
| Service.ServiceProfile.Stop | platform_cli/service.py:389-446 | a lock failure is the lock error; the pid found is the lookup's; no process: the lookup's own file and process changes only; a process: the escalation of the plan from the time the lock was held, success exactly when it was seen stopped, otherwise `sys.exit(1)`; the found process is left exactly as the stages that ran leave it; the pid file is removed exactly on success for an own pid file; no other process changes, except the stop command spawned at the next pid; the call and its outcome are appended to the call log |
| Service.ServiceProfile.Launched | platform_cli/service.py:286-291 | the process `Popen` creates belongs to the user, is a child, has argv `[process_name] + start_cmd[1:]` and is named after the basename of `start_cmd[0]` |
| Service.ServiceProfile.Launch | platform_cli/service.py:276-295 | an empty start command is an `IndexError` that changes nothing; otherwise the next pid is spawned with argv `[process_name] + start_cmd[1:]`, named after the basename of `start_cmd[0]`, and its pid is written unless externally managed; no time passes and the lock stays free |
| Service.ServiceProfile.LaunchAndCheck | platform_cli/service.py:276-312 | launch, wait `start_wait_seconds`, look again: success exactly when the lookup finds a process that is no zombie, else `sys.exit(1)`; the files and processes afterwards are the pid write and the spawned process, followed by the second lookup's own removal and kill; for an own pid file the lookup finds the spawned pid, and with the expected process name success means the spawned process has not exited |
| Service.ServiceProfile.Start | platform_cli/service.py:269-312 | a lock failure is the lock error; the pid found is the lookup's; a running process means success with nothing spawned or changed; otherwise the first lookup's removal and kill, then an empty start command is an `IndexError` that changes nothing more, and a spawned process is written, waited for and looked up again as `LaunchAndCheck` states, with the files and processes after each step; the call and its outcome are appended to the call log |
| Service.ServiceProfile.Graceful | platform_cli/service.py:341-365 | no graceful command: nothing happens; a lock failure is the lock error; otherwise success with the pid the lookup finds; no running process: nothing is spawned and only the lookup's own removal and kill happen; a running one: the child `Popen(graceful_cmd)` creates is added at the next pid, with no other process or file change; the call and its outcome are appended to the call log |
| Service.ServiceProfile.Status | platform_cli/service.py:314-320 | the pid reported is the one the lookup finds; a corrupt pid file is deleted and the processes of that name are killed; otherwise no file or process changes; no lock is taken and no time passes |
| Supervisor.SortSortedPermutation | platform_cli/cli.py:31-34 | the sort by priority is ordered, a missing priority first, and a permutation |
| Supervisor.SortStable | platform_cli/cli.py:31-34 | services of equal priority keep their input order |
| Supervisor.OrderedDictNames | platform_cli/cli.py:31-34 | the ordered map lists each name once, exactly the names given, which are its keys |
| Supervisor.LastValueWins | platform_cli/cli.py:31-34 | a name maps to the value of its last pair |
| Supervisor.OrderedByPriority | platform_cli/cli.py:31-34 | with distinct names, the ordered map's keys and values are the sorted services in order |
| Supervisor.Prepare | platform_cli/cli.py:28-29 | each `assign_template_values` leaves the service ready or fails with an assignment error |
| Supervisor.AssignAll | platform_cli/cli.py:28-29 | the loop leaves every service ready or fails with an assignment error |
| Supervisor.LookUpAll | platform_cli/cli.py:31-34 | the services filed under the names, in the order of the names, each defined under its own name |
| Supervisor.ValuesInOrder | platform_cli/cli.py:31-34 | `services_by_name.values()` in key order, each service ready and filed under its own name |
| Supervisor.NewCli | platform_cli/cli.py:19-34 | an assignment error, or a front end over ready services whose ordered map is the stable priority order |
| Supervisor.Put | platform_cli/cli.py:167 | `setup_steps[title] = v`: a new title goes last and an existing one keeps its place |
| Supervisor.AddLine | platform_cli/cli.py:182-190 | `setdefault` then `append`: exactly one line is added under the title |
| Supervisor.AddRequirementsTitles | platform_cli/cli.py:165-167 | the requirements come first, in order, as titles |
| Supervisor.AddValidationsTitles | platform_cli/cli.py:175-178 | every non-empty message of a validation function becomes a title |
| Supervisor.AddChecksTitles | platform_cli/cli.py:173-178 | only the validations of enabled services add titles |
| Supervisor.AddSuggestionsTitles | platform_cli/cli.py:180-190 | a `KeyError` exactly when a suggested property has no current value; otherwise every reason becomes a title |
| Supervisor.SuggestionsStopAt | platform_cli/cli.py:180-190 | the first `KeyError` ends the loop over the suggestions |
| Supervisor.SetupStepsTitles | platform_cli/cli.py:162-191 | the titles are the requirements (first), the enable prompt when no examined service is enabled, the complaints of enabled services and the reasons of suggestions; a `KeyError` exactly when a suggested property is missing |
| Supervisor.SetupCompleteIff | platform_cli/cli.py:162-191 | no steps exactly when there are no requirements and no suggestions, some examined service is enabled and all its validations pass |
| Supervisor.Cli.GetSetupSteps | platform_cli/cli.py:162-191 | the loops compute `SetupSteps` |
| Supervisor.Cli.EnabledServicesExactly | platform_cli/cli.py:196-197 | with no service name, the services examined are exactly the enabled ones |
| Supervisor.Cli.SetupVerdictAll | platform_cli/cli.py:194-212 | `setup` with no name returns True exactly when there are no requirements and no suggestions, some service is enabled and no enabled service's validation complains |
| Supervisor.Cli.SkipSetupSpellings | platform_cli/cli.py:118-119 | `--skip-setup` always skips the setup check; `main.skip_setup` skips it only as `True`, `true` or `1`, and `on` or `yes` do not |
| Supervisor.Cli.Setup | platform_cli/cli.py:194-212 | returns the setup verdict on the examined services |
| Supervisor.CallsMadeAt | platform_cli/cli.py:124-127 | a logged run is, call by call, the operation on each name acted on, in order, every call but the last a success and the last one ending as the run did |
| Supervisor.LoggedSnoc | platform_cli/cli.py:124-127 | after calls that all succeeded, one more call extends the run by its service's name and ends it as that call ended |
| Supervisor.NamedAt | platform_cli/cli.py:31-34 | the service at each place of `services_by_name.values()` is the one defined under the key at that place |
| Supervisor.Invoke | platform_cli/cli.py:127 | one service's `start`, `stop` or `graceful`: exactly that call, under the service's own name, is appended to the call log |
| Supervisor.InvokeEnabled | platform_cli/cli.py:124-127 | the loop over `services_by_name.values()` that skips disabled services: the operation is invoked on the enabled services, in priority order, one call each, up to and including the first failure, and on nothing else; the enabled services are left as they were |
| Supervisor.Cli.Start | platform_cli/cli.py:116-130 | a setup that runs and fails exits before any service starts and invokes nothing; otherwise `start` is invoked on the enabled services in priority order, or on the one named, stopping at the first failure, and the call log holds exactly those calls |
| Supervisor.Cli.Stop | platform_cli/cli.py:132-138 | `stop` is invoked on every service in reverse priority order, or on the one named, and the call log holds exactly those calls |
| Supervisor.Cli.StopAll | platform_cli/cli.py:134-136 | `stop` is invoked on every service, enabled or not, in exactly the reverse order, up to and including the first failure, and on nothing else |
| Supervisor.Cli.GracefulRestart | platform_cli/cli.py:142-147 | `graceful` is invoked on the enabled services in priority order, or on the one named, up to the first failure, and on nothing else |
| Supervisor.Cli.Restart | platform_cli/cli.py:140-151 | graceful: only `graceful` calls, on the enabled services in priority order, and nothing is stopped; otherwise the log holds the `stop` calls of `stop` followed by the `start` calls of `start`, none when the stop failed; a failed setup starts nothing, and success means everything stopped and then started |
| Supervisor.Cli.Status | platform_cli/cli.py:153-159 | one report per service in priority order, enabled or not, or for the one named |

## Left out

- The mustache engine beyond plain `{{name}}` tags: sections, partials, whitespace trimming of tag names and attribute lookup are not modelled. Every `{{` with a `}}` after it is read as a lookup of the text up to the first `}}`: `{{}}`, which pystache leaves as text, is a lookup of the empty name and fails with the missing-key error unless the empty name is a key; the comment, unescaped and delimiter-change tags `{{! }}`, `{{& }}`, `{{{ }}}` and `{{= =}}` are read as lookups of that text (for `{{{x}}}` the name `{x`, followed by a literal `}`).
- The rendering model needs the encoding to be injective on the keys of a map (`EncodeInjective`). Without that, Python's re-keying drops entries in dict iteration order.
- The fixed-point results need keys without "_." and "___" (`Transcodable`): decoding undoes the encoding only for those keys.
- Dictionaries whose iteration order matters are sequences: the OS requirements, the differing suggestions and `runtime_template_key_functions`. Python 2 fixes no order for a dict; the model adds the runtime keys in sequence order, each function seeing the keys added before it.
- `props.py` and `config.py` are not part of this model: the template values and the differing suggestions are inputs to `NewCli`.
- The `enable`, `disable`, `list`, `set`, `del` and `doc` subcommands are not modelled; they belong to `config.py`.
- `snap` and `main.system_info_cmd` spawn a shell and copy its output; they are not modelled.
- psutil is reduced to `Host.Os`: `Popen` is a spawn that always succeeds, terminate and kill act through each process's reaction, and a spawn that fails is not modelled.
- `shlex.split` is a function parameter.
- The validation, runtime-key and pre-start/pre-graceful functions are function values or left out. The pre-start and pre-graceful hooks have no effect the core depends on.
- Console and log output, colours, timestamps, `textwrap` and the `status -v` listening addresses are not modelled.
- `os.makedirs` of the stdout directory and the appending to the stdout file are not modelled.
- The argparse wiring is not modelled, except that a service name must be a key of `services_by_name`.
- Concurrent invocations are not modelled: one invocation runs against a directory set, and other holders' releases are fixed in advance.
- `__exit__` leaving an exception from the guarded block to propagate is not modelled: the model's guarded blocks return errors as values.
- Service.ServiceProfile.AssignTemplateValues: assigns all fields or none. Python assigns fields one by one and can raise midway; the difference is not observable, because `CLI.__init__` then aborts.
- Supervisor.NewCli: states readiness and the kinds of error, not the values assigned; `AssignTemplateValues` states those.
- Supervisor.Cli.Status: reports the names in order, not the pid found at each step; `ServiceProfile.Status` states that for one service.
- Supervisor.Cli.Start: the call log records which service operation was invoked, on which service and with what outcome; what each call did to files and processes is stated by `ServiceProfile.Start`, not repeated here. The same holds for `Stop`, `Restart` and the loops.
- TemplateExamples.ChainResolves: is stated for dot-free keys and for values with text before the placeholder; `HomeResolves` states the documented example with dotted keys and text after the placeholder.
- Text.ParseDecimal: does not accept blanks between the sign and the digits, which Python 2 `int()` does.
- Host.Os.Mkdir: fails only when the directory already exists. A missing or unwritable parent directory (a missing `main.pidfile_dir`, say) makes every `mkdir` of the lock directory fail, so the command fails with the lock error; the model does not capture that.
- Service.KilledByName: kills every process of that name, whoever owns it. Without root, killing another user's process raises psutil's `AccessDenied`, which aborts the lookup before the pid file is removed; the model does not capture that error.
- Service.ServiceProfile.Start: for an externally managed pid file, the check after the wait is stated through the lookup `post`, not through the spawned process; a spawned process never writes that file in the model.
