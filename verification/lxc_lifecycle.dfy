/**
 * Starting, stopping and destroying containers, cleaning up ghost entries,
 * reading a container's status and the full verification report
 * (src/deployment/lxc.rs).
 */
module LxcLifecycle {
  import opened Common
  import opened Text
  import opened Executor
  import opened LxcCommon
  import opened LxcExistence

  // ------------------------------------------------------- configuration

  function ConfigFileProbe(path: string): string {
    "test -f " + path + " && echo 'found' || echo 'not found'"
  }

  /** `find_container_config_path(_by_name)`: the first candidate whose probe says "found". */
  function FindConfig(sh: Shell, paths: seq<string>, log: seq<Event>): (t: Traced<Option<string>>)
    ensures log <= t.log
    ensures Sleeps(t.log) == Sleeps(log)
    ensures Gated(sh.mode, sh.caps, log) ==> Gated(sh.mode, sh.caps, t.log)
    ensures t.value.Some? ==> t.value.value in paths
    ensures !Permitted(sh.mode, sh.caps, true) ==> t.value.None?
    decreases |paths|
  {
    if paths == [] then Traced(None, log)
    else
      var probe := Run(sh, ConfigFileProbe(paths[0]), true, log);
      RunRequests(sh, ConfigFileProbe(paths[0]), true, log);
      if Says(probe.value, "found") then Traced(Some(paths[0]), probe.log)
      else FindConfig(sh, paths[1..], probe.log)
  }

  /** Any first probe that ran and mentions "found" (the negative echo included) selects the first candidate. */
  lemma FirstCandidateWins(sh: Shell, paths: seq<string>, log: seq<Event>)
    requires |paths| > 0 && Permitted(sh.mode, sh.caps, true)
    requires var o := sh.host(|log| + 1, ArgvFor(ConfigFileProbe(paths[0]), true));
      o.Exited? && Contains(o.out, "found")
    ensures FindConfig(sh, paths, log).value == Some(paths[0])
  {
  }

  method FindConfigPath(ex: CommandExecutor, name: string, home: string, host: Host, log: seq<Event>)
    returns (path: Option<string>, log': seq<Event>)
    ensures Traced(path, log') == FindConfig(Shell(ex.mode, ex.caps, host), ConfigPaths(name, home), log)
  {
    ghost var sh := Shell(ex.mode, ex.caps, host);
    var paths := ConfigPaths(name, home);
    log' := log;
    var i := 0;
    while i < |paths|
      invariant 0 <= i <= |paths|
      invariant FindConfig(sh, paths, log) == FindConfig(sh, paths[i..], log')
    {
      assert paths[i..][1..] == paths[i + 1..];
      var found;
      found, log' := RunProbe(ex, ConfigFileProbe(paths[i]), true, "found", host, log');
      if found {
        return Some(paths[i]), log';
      }
      i := i + 1;
    }
    return None, log';
  }

  // ---------------------------------------------------------- start / stop

  datatype Verb = Start | Stop

  function Program(verb: Verb): string {
    match verb
    case Start => "lxc-start"
    case Stop => "lxc-stop"
  }

  /** The first command: `-f CONFIG` when a configuration was found, `-P /var/lib/lxc` otherwise. */
  function FirstCommand(verb: Verb, name: string, config: Option<string>): string {
    match config
    case Some(c) => Program(verb) + " -f " + c + " -n " + name
    case None => Program(verb) + " -P /var/lib/lxc -n " + name
  }

  function ConfigExistsProbe(name: string): string {
    "test -f /var/lib/lxc/" + name + "/config && echo 'exists' || echo 'missing'"
  }

  function ExplicitCommand(verb: Verb, name: string): string {
    Program(verb) + " -f /var/lib/lxc/" + name + "/config -n " + name
  }

  /** Whether the explicit-configuration retry applies after the first command. */
  predicate NeedsRetryCheck(first: Result<CommandOutput>, config: Option<string>) {
    first.Ok? && first.value.exitCode != Some(0) && config.None?
  }

  /** After a failed first command: check the configuration file and, if that mentions "exists", retry with it. */
  function Retry(sh: Shell, verb: Verb, name: string, first: Traced<Result<CommandOutput>>): (t: Traced<Result<CommandOutput>>)
    ensures Gated(sh.mode, sh.caps, first.log) ==> Gated(sh.mode, sh.caps, t.log)
  {
    var check := Run(sh, ConfigExistsProbe(name), true, first.log);
    if Says(check.value, "exists") then Run(sh, ExplicitCommand(verb, name), true, check.log)
    else Traced(first.value, check.log)
  }

  /**
   * `start_container(_by_name)` / `stop_container(_by_name)` after the
   * configuration search: one command, then, only if it exited with
   * something other than 0 and no configuration was found, the retry.
   */
  function Lifecycle(sh: Shell, verb: Verb, name: string, config: Option<string>, log: seq<Event>)
    : (t: Traced<Result<CommandOutput>>)
    ensures Gated(sh.mode, sh.caps, log) ==> Gated(sh.mode, sh.caps, t.log)
  {
    var first := Run(sh, FirstCommand(verb, name, config), true, log);
    if NeedsRetryCheck(first.value, config) then Retry(sh, verb, name, first) else first
  }

  /**
   * The answer: the first command's outcome unless the configuration check
   * ran and said "exists", in which case it is the explicit retry's.
   */
  lemma LifecycleOutcome(sh: Shell, verb: Verb, name: string, config: Option<string>, log: seq<Event>)
    ensures var t := Lifecycle(sh, verb, name, config, log);
      var first := Run(sh, FirstCommand(verb, name, config), true, log);
      var check := Run(sh, ConfigExistsProbe(name), true, first.log);
      (!NeedsRetryCheck(first.value, config) ==> t == first)
      && (NeedsRetryCheck(first.value, config) && !Says(check.value, "exists") ==> t == Traced(first.value, check.log))
      && (NeedsRetryCheck(first.value, config) && Says(check.value, "exists") ==>
            t == Run(sh, ExplicitCommand(verb, name), true, check.log))
  {
  }

  /** The retry issues the configuration check and, if it said "exists", the explicit command. */
  lemma RetryRequests(sh: Shell, verb: Verb, name: string, first: Traced<Result<CommandOutput>>)
    ensures var t := Retry(sh, verb, name, first);
      var check := Run(sh, ConfigExistsProbe(name), true, first.log);
      Requests(t.log) == Requests(first.log) + [ConfigExistsProbe(name)]
        + (if Says(check.value, "exists") then [ExplicitCommand(verb, name)] else [])
      && Sleeps(t.log) == Sleeps(first.log) && first.log <= t.log
  {
    var check := Run(sh, ConfigExistsProbe(name), true, first.log);
    RunRequests(sh, ConfigExistsProbe(name), true, first.log);
    if Says(check.value, "exists") {
      RunRequests(sh, ExplicitCommand(verb, name), true, check.log);
    }
  }

  /** The commands issued: the first one, then the configuration check, then the explicit retry, as far as each applies. */
  lemma LifecycleRequests(sh: Shell, verb: Verb, name: string, config: Option<string>, log: seq<Event>)
    ensures var t := Lifecycle(sh, verb, name, config, log);
      var first := Run(sh, FirstCommand(verb, name, config), true, log);
      !NeedsRetryCheck(first.value, config) ==> Requests(t.log) == Requests(log) + [FirstCommand(verb, name, config)]
    ensures var t := Lifecycle(sh, verb, name, config, log);
      var first := Run(sh, FirstCommand(verb, name, config), true, log);
      var check := Run(sh, ConfigExistsProbe(name), true, first.log);
      NeedsRetryCheck(first.value, config) ==>
        Requests(t.log) == Requests(log) + [FirstCommand(verb, name, config), ConfigExistsProbe(name)]
          + (if Says(check.value, "exists") then [ExplicitCommand(verb, name)] else [])
    ensures var t := Lifecycle(sh, verb, name, config, log);
      Sleeps(t.log) == Sleeps(log) && log <= t.log
  {
    var first := Run(sh, FirstCommand(verb, name, config), true, log);
    if NeedsRetryCheck(first.value, config) {
      RetriedRequests(sh, verb, name, config, log);
    } else {
      DirectRequests(sh, verb, name, config, log);
    }
  }

  lemma DirectRequests(sh: Shell, verb: Verb, name: string, config: Option<string>, log: seq<Event>)
    requires !NeedsRetryCheck(Run(sh, FirstCommand(verb, name, config), true, log).value, config)
    ensures var t := Lifecycle(sh, verb, name, config, log);
      Requests(t.log) == Requests(log) + [FirstCommand(verb, name, config)]
      && Sleeps(t.log) == Sleeps(log) && log <= t.log
  {
    RunRequests(sh, FirstCommand(verb, name, config), true, log);
  }

  lemma RetriedRequests(sh: Shell, verb: Verb, name: string, config: Option<string>, log: seq<Event>)
    requires NeedsRetryCheck(Run(sh, FirstCommand(verb, name, config), true, log).value, config)
    ensures var t := Lifecycle(sh, verb, name, config, log);
      var first := Run(sh, FirstCommand(verb, name, config), true, log);
      var check := Run(sh, ConfigExistsProbe(name), true, first.log);
      Requests(t.log) == Requests(log) + [FirstCommand(verb, name, config), ConfigExistsProbe(name)]
        + (if Says(check.value, "exists") then [ExplicitCommand(verb, name)] else [])
      && Sleeps(t.log) == Sleeps(log) && log <= t.log
  {
    var first := Run(sh, FirstCommand(verb, name, config), true, log);
    assert Lifecycle(sh, verb, name, config, log) == Retry(sh, verb, name, first);
    RunRequests(sh, FirstCommand(verb, name, config), true, log);
    RetryRequests(sh, verb, name, first);
    AppendPair(Requests(log), FirstCommand(verb, name, config), ConfigExistsProbe(name));
  }

  lemma AppendPair(xs: seq<string>, a: string, b: string)
    ensures xs + [a] + [b] == xs + [a, b]
  {
  }

  /** The whole operation: configuration search, then the command and its possible retry. */
  function StartStop(sh: Shell, verb: Verb, name: string, home: string, log: seq<Event>)
    : (t: Traced<Result<CommandOutput>>)
    ensures Gated(sh.mode, sh.caps, log) ==> Gated(sh.mode, sh.caps, t.log)
  {
    var config := FindConfig(sh, ConfigPaths(name, home), log);
    Lifecycle(sh, verb, name, config.value, config.log)
  }

  /** Outside Admin mode every step is refused: the first command goes out with `-P` and is refused too. */
  lemma StartStopRefusedWithoutAdmin(sh: Shell, verb: Verb, name: string, home: string, log: seq<Event>)
    requires !Permitted(sh.mode, sh.caps, true)
    ensures StartStop(sh, verb, name, home, log).value.Err?
    ensures StartStop(sh, verb, name, home, log).value.error == if sh.mode != Admin then NotAllowed(AdminRefused) else MissingTool(SudoMissing)
  {
  }

  /** The command and its possible retry, once the configuration search has run. */
  method RunLifecycle(ex: CommandExecutor, verb: Verb, name: string, config: Option<string>, host: Host, log: seq<Event>)
    returns (result: Result<CommandOutput>, log': seq<Event>)
    ensures Traced(result, log') == Lifecycle(Shell(ex.mode, ex.caps, host), verb, name, config, log)
  {
    result, log' := ex.RunShell(FirstCommand(verb, name, config), true, host, log);
    if result.Ok? && result.value.exitCode != Some(0) && config.None? {
      var check;
      check, log' := ex.RunShell(ConfigExistsProbe(name), true, host, log');
      if check.Ok? && Contains(check.value.stdout, "exists") {
        result, log' := ex.RunShell(ExplicitCommand(verb, name), true, host, log');
      }
    }
  }

  /** `start_container` and `start_container_by_name`. */
  method StartContainer(ex: CommandExecutor, name: string, home: string, host: Host, log: seq<Event>)
    returns (result: Result<CommandOutput>, log': seq<Event>)
    ensures Traced(result, log') == StartStop(Shell(ex.mode, ex.caps, host), Start, name, home, log)
  {
    var config;
    config, log' := FindConfigPath(ex, name, home, host, log);
    result, log' := RunLifecycle(ex, Start, name, config, host, log');
  }

  /** `stop_container` and `stop_container_by_name`. */
  method StopContainer(ex: CommandExecutor, name: string, home: string, host: Host, log: seq<Event>)
    returns (result: Result<CommandOutput>, log': seq<Event>)
    ensures Traced(result, log') == StartStop(Shell(ex.mode, ex.caps, host), Stop, name, home, log)
  {
    var config;
    config, log' := FindConfigPath(ex, name, home, host, log);
    result, log' := RunLifecycle(ex, Stop, name, config, host, log');
  }

  // -------------------------------------------------------------- destroy

  /** `destroy_container`: a single privileged `lxc-destroy -n NAME`. */
  function DestroyContainer(sh: Shell, name: string, log: seq<Event>): (t: Traced<Result<CommandOutput>>)
    ensures Requests(t.log) == Requests(log) + ["lxc-destroy -n " + name]
  {
    RunRequests(sh, "lxc-destroy -n " + name, true, log);
    Run(sh, "lxc-destroy -n " + name, true, log)
  }

  function ForcedDestroy(name: string): string {
    "lxc-destroy -f -n " + name + " 2>&1"
  }

  /**
   * `destroy_container_by_name`: stop (result ignored), pause one second,
   * then the forced destroy, whose result is the answer.
   */
  function DestroyByName(sh: Shell, name: string, home: string, log: seq<Event>): (t: Traced<Result<CommandOutput>>)
    ensures Gated(sh.mode, sh.caps, log) ==> Gated(sh.mode, sh.caps, t.log)
  {
    var stopped := StartStop(sh, Stop, name, home, log);
    GatedSleep(sh.mode, sh.caps, stopped.log, 1000);
    Run(sh, ForcedDestroy(name), true, stopped.log + [Sleep(1000)])
  }

  /** Start and stop take no pause and only extend the log. */
  lemma StartStopLog(sh: Shell, verb: Verb, name: string, home: string, log: seq<Event>)
    ensures Sleeps(StartStop(sh, verb, name, home, log).log) == Sleeps(log)
    ensures log <= StartStop(sh, verb, name, home, log).log
  {
    var config := FindConfig(sh, ConfigPaths(name, home), log);
    LifecycleRequests(sh, verb, name, config.value, config.log);
  }

  /** The one-second pause is the only one taken, and the forced destroy is the last command issued. */
  lemma DestroyByNameLog(sh: Shell, name: string, home: string, log: seq<Event>)
    ensures var t := DestroyByName(sh, name, home, log);
      Sleeps(t.log) == Sleeps(log) + [1000]
      && |Requests(t.log)| > 0 && Requests(t.log)[|Requests(t.log)| - 1] == ForcedDestroy(name)
  {
    var stopped := StartStop(sh, Stop, name, home, log);
    StartStopLog(sh, Stop, name, home, log);
    SleepRequests(stopped.log, 1000);
    RunRequests(sh, ForcedDestroy(name), true, stopped.log + [Sleep(1000)]);
  }

  /** Whatever the stop attempt did, the answer is the forced destroy's own outcome on the same host position. */
  lemma DestroyIgnoresStop(sh: Shell, name: string, home: string, log: seq<Event>)
    ensures var t := DestroyByName(sh, name, home, log);
      var at := |StartStop(sh, Stop, name, home, log).log| + 2;
      Permitted(sh.mode, sh.caps, true) ==>
        (t.value.Ok? <==> sh.host(at, ArgvFor(ForcedDestroy(name), true)).Exited?)
        && (t.value.Ok? ==> t.value.value.exitCode == sh.host(at, ArgvFor(ForcedDestroy(name), true)).code)
  {
    var paused := StartStop(sh, Stop, name, home, log).log + [Sleep(1000)];
    assert DestroyByName(sh, name, home, log) == Run(sh, ForcedDestroy(name), true, paused);
    assert |paused| + 1 == |StartStop(sh, Stop, name, home, log).log| + 2;
  }

  method DestroyContainerByName(ex: CommandExecutor, name: string, home: string, host: Host, log: seq<Event>)
    returns (result: Result<CommandOutput>, log': seq<Event>)
    ensures Traced(result, log') == DestroyByName(Shell(ex.mode, ex.caps, host), name, home, log)
  {
    var stopped;
    stopped, log' := StopContainer(ex, name, home, host, log);
    log' := log' + [Sleep(1000)];
    result, log' := ex.RunShell(ForcedDestroy(name), true, host, log');
  }

  // -------------------------------------------------------- ghost cleanup

  function GhostCleanupCommands(name: string): seq<string> {
    ["sudo -n lxc-ls -1 2>/dev/null | grep -q '^" + name + "$' || true",
     "sudo -n rm -f /var/lib/lxc/.lxc-lock-" + name + " 2>/dev/null || true",
     "sudo -n rm -f /var/lib/lxc/" + name + "/.lxc-lock 2>/dev/null || true"]
  }

  /** The cleanup commands, each run privileged with its outcome discarded. */
  function RunAll(sh: Shell, cmds: seq<string>, log: seq<Event>): (l: seq<Event>)
    ensures Gated(sh.mode, sh.caps, log) ==> Gated(sh.mode, sh.caps, l)
    decreases |cmds|
  {
    if cmds == [] then log
    else RunAll(sh, cmds[1..], Run(sh, cmds[0], true, log).log)
  }

  /** Each command is handed to the executor, in order. */
  lemma {:induction false} RunAllRequests(sh: Shell, cmds: seq<string>, log: seq<Event>)
    ensures Requests(RunAll(sh, cmds, log)) == Requests(log) + cmds
    decreases |cmds|
  {
    if cmds != [] {
      RunRequests(sh, cmds[0], true, log);
      RunAllRequests(sh, cmds[1..], Run(sh, cmds[0], true, log).log);
      assert [cmds[0]] + cmds[1..] == cmds;
    }
  }

  /** `cleanup_ghost_container`: always success with exit 0 and empty output, after issuing all three commands. */
  method CleanupGhostContainer(ex: CommandExecutor, name: string, host: Host, log: seq<Event>)
    returns (result: Result<CommandOutput>, log': seq<Event>)
    ensures result == Ok(CommandOutput(Some(0), "", ""))
    ensures log' == RunAll(Shell(ex.mode, ex.caps, host), GhostCleanupCommands(name), log)
    ensures Requests(log') == Requests(log) + GhostCleanupCommands(name)
  {
    ghost var sh := Shell(ex.mode, ex.caps, host);
    var cmds := GhostCleanupCommands(name);
    log' := log;
    for i := 0 to |cmds|
      invariant RunAll(sh, cmds, log) == RunAll(sh, cmds[i..], log')
    {
      assert cmds[i..][1..] == cmds[i + 1..];
      var ignored;
      ignored, log' := ex.RunShell(cmds[i], true, host, log');
    }
    assert cmds[|cmds|..] == [];
    RunAllRequests(sh, cmds, log);
    result := Ok(CommandOutput(Some(0), "", ""));
  }

  // --------------------------------------------------------------- status

  /** How a status probe's output is read. */
  datatype Reading =
    | Verbatim(rejectError: bool)  // the trimmed line, unless "UNKNOWN", empty or (optionally) mentioning "error"
    | Upper                        // the same, upper-cased, rejecting "error"
    | Normalised                   // RUNNING / STOPPED / FROZEN found in the upper-cased line
    | AttachWord                   // "RUNNING" or "STOPPED" echoed by the attach probe
    | ExitZero                     // "RUNNING" when the probe exits with 0

  datatype StatusProbe = StatusProbe(cmd: string, admin: bool, reading: Reading)

  /** A usable status line: not the "UNKNOWN" echo, not empty. */
  predicate Informative(status: string) {
    status != "UNKNOWN" && status != ""
  }

  /** One of the three container states. */
  predicate StateWord(s: string) {
    s == "RUNNING" || s == "STOPPED" || s == "FROZEN"
  }

  /** A reading that can only ever yield one of the three states. */
  predicate FixedReading(reading: Reading) {
    reading.Normalised? || reading.AttachWord? || reading.ExitZero?
  }

  /** The status a probe's outcome yields, if any; a refused or failed probe yields none. */
  function ReadStatus(reading: Reading, r: Result<CommandOutput>): (s: Option<string>)
    ensures r.Err? ==> s.None?
    ensures s.Some? ==> s.value != "" && (reading.Verbatim? ==> Informative(s.value))
    ensures FixedReading(reading) && s.Some? ==> StateWord(s.value)
  {
    if r.Err? then None
    else
      var line := Trim(r.value.stdout);
      match reading
      case Verbatim(rejectError) =>
        if Informative(line) && !(rejectError && Contains(ToLower(line), "error")) then Some(line) else None
      case Upper =>
        if Informative(line) && !Contains(ToLower(line), "error") then Some(ToUpper(line)) else None
      case Normalised =>
        if !Informative(line) then None
        else if Contains(ToUpper(line), "RUNNING") then Some("RUNNING")
        else if Contains(ToUpper(line), "STOPPED") then Some("STOPPED")
        else if Contains(ToUpper(line), "FROZEN") then Some("FROZEN")
        else None
      case AttachWord =>
        if Contains(r.value.stdout, "RUNNING") then Some("RUNNING")
        else if Contains(r.value.stdout, "STOPPED") then Some("STOPPED")
        else None
      case ExitZero =>
        if r.value.exitCode == Some(0) then Some("RUNNING") else None
  }

  /** Runs the probes in order; the first one yielding a status decides, otherwise "UNKNOWN". */
  function Cascade(sh: Shell, probes: seq<StatusProbe>, log: seq<Event>): (t: Traced<string>)
    ensures t.value != ""
    ensures Gated(sh.mode, sh.caps, log) ==> Gated(sh.mode, sh.caps, t.log)
    decreases |probes|
  {
    if probes == [] then Traced("UNKNOWN", log)
    else
      var probe := Run(sh, probes[0].cmd, probes[0].admin, log);
      match ReadStatus(probes[0].reading, probe.value)
      case Some(s) => Traced(s, probe.log)
      case None => Cascade(sh, probes[1..], probe.log)
  }

  /** The cascade answers "UNKNOWN" or a status that one of its probes can yield. */
  lemma {:induction false} CascadeAnswers(sh: Shell, probes: seq<StatusProbe>, log: seq<Event>)
    ensures var s := Cascade(sh, probes, log).value;
      s == "UNKNOWN" || exists k :: 0 <= k < |probes| && Yields(probes[k], s)
    decreases |probes|
  {
    if probes != [] {
      var probe := Run(sh, probes[0].cmd, probes[0].admin, log);
      match ReadStatus(probes[0].reading, probe.value)
      case Some(s) =>
        assert Yields(probes[0], s);
      case None =>
        var rest := Cascade(sh, probes[1..], probe.log);
        CascadeAnswers(sh, probes[1..], probe.log);
        if rest.value != "UNKNOWN" {
          var k :| 0 <= k < |probes| - 1 && Yields(probes[1..][k], rest.value);
          assert probes[1..][k] == probes[k + 1];
        }
    }
  }

  /** `s` is a status that some outcome of `probe` can yield. */
  ghost predicate Yields(probe: StatusProbe, s: string) {
    exists r :: ReadStatus(probe.reading, r) == Some(s)
  }

  const InfoStatusTail := " -s 2>/dev/null | grep 'State:' | awk '{print $2}' || echo 'UNKNOWN'"
  const ListStatusTail := " --format csv -c s 2>/dev/null | head -1 || echo 'UNKNOWN'"
  const AttachStatusTail := " -- echo 'running' 2>/dev/null && echo 'RUNNING' || echo 'STOPPED'"
  const AttachRunningTail := " -- echo 'running' 2>/dev/null || echo 'UNKNOWN'"

  function InfoStatusProbe(name: string): string {
    "lxc-info -n " + name + InfoStatusTail
  }

  function ListStatusProbe(name: string): string {
    "lxc list " + name + ListStatusTail
  }

  function AttachStatusProbe(name: string): string {
    "lxc-attach -n " + name + AttachStatusTail
  }

  function AttachRunningProbe(name: string): string {
    "lxc-attach -n " + name + AttachRunningTail
  }

  /** The probes of `get_container_status`: lxc-info, lxc list (normalised), then a privileged lxc-attach. */
  function OwnStatusProbes(name: string): seq<StatusProbe> {
    [StatusProbe(InfoStatusProbe(name), false, Verbatim(false))] + OwnFallbackProbes(name)
  }

  /** The probes `get_container_status` falls back on after lxc-info. */
  function OwnFallbackProbes(name: string): seq<StatusProbe> {
    [StatusProbe(ListStatusProbe(name), false, Normalised),
     StatusProbe(AttachRunningProbe(name), true, ExitZero)]
  }

  /** The probes of `get_container_status_by_name`: privileged first, then unprivileged, for lxc-info and lxc-attach. */
  function NamedStatusProbes(name: string): seq<StatusProbe> {
    [StatusProbe("sudo -n " + InfoStatusProbe(name), true, Verbatim(true)),
     StatusProbe(InfoStatusProbe(name), false, Verbatim(true)),
     StatusProbe(ListStatusProbe(name), false, Upper),
     StatusProbe("sudo -n " + AttachStatusProbe(name), true, AttachWord),
     StatusProbe(AttachStatusProbe(name), false, AttachWord)]
  }

  /** A status reader: the cascade, whose answer is always `Ok`. */
  function Status(sh: Shell, probes: seq<StatusProbe>, log: seq<Event>): (t: Traced<Result<string>>)
    ensures t.value.Ok? && t.value.value != ""
    ensures Gated(sh.mode, sh.caps, log) ==> Gated(sh.mode, sh.caps, t.log)
  {
    var c := Cascade(sh, probes, log);
    Traced(Ok(c.value), c.log)
  }

  /** `get_container_status`. */
  function ContainerStatus(sh: Shell, name: string, log: seq<Event>): Traced<Result<string>> {
    Status(sh, OwnStatusProbes(name), log)
  }

  /** `get_container_status_by_name`. */
  function StatusByName(sh: Shell, name: string, log: seq<Event>): Traced<Result<string>> {
    Status(sh, NamedStatusProbes(name), log)
  }

  /** `get_container_status` answers RUNNING, STOPPED, FROZEN or UNKNOWN, unless lxc-info printed a line, which it passes on trimmed. */
  lemma OwnStatusValues(sh: Shell, name: string, log: seq<Event>)
    ensures var s := ContainerStatus(sh, name, log).value.value;
      var info := Run(sh, InfoStatusProbe(name), false, log).value;
      StateWord(s) || s == "UNKNOWN" || (info.Ok? && s == Trim(info.value.stdout))
  {
    var probes := OwnStatusProbes(name);
    var first := Run(sh, probes[0].cmd, false, log);
    if ReadStatus(probes[0].reading, first.value).None? {
      assert probes[1..] == OwnFallbackProbes(name);
      LaterOwnProbesNormalised(sh, name, first.log);
    }
  }

  /** The probes after lxc-info only ever answer one of the three states, or UNKNOWN. */
  lemma LaterOwnProbesNormalised(sh: Shell, name: string, log: seq<Event>)
    ensures var s := Cascade(sh, OwnFallbackProbes(name), log).value;
      StateWord(s) || s == "UNKNOWN"
  {
    CascadeOfFixed(sh, OwnFallbackProbes(name), log);
  }

  /** A cascade of probes that can only yield states answers a state, or UNKNOWN. */
  lemma CascadeOfFixed(sh: Shell, probes: seq<StatusProbe>, log: seq<Event>)
    requires forall j :: 0 <= j < |probes| ==> FixedReading(probes[j].reading)
    ensures var s := Cascade(sh, probes, log).value;
      StateWord(s) || s == "UNKNOWN"
  {
    var s := Cascade(sh, probes, log).value;
    CascadeAnswers(sh, probes, log);
    if s != "UNKNOWN" {
      var k :| 0 <= k < |probes| && Yields(probes[k], s);
      var r :| ReadStatus(probes[k].reading, r) == Some(s);
    }
  }

  /** With every probe refused or failing, both status readers fall back to "UNKNOWN". */
  lemma {:induction false} CascadeUnknownWhenAllFail(sh: Shell, probes: seq<StatusProbe>, log: seq<Event>)
    requires forall n: nat, argv: Argv :: sh.host(n, argv).SpawnFailed?
    ensures Cascade(sh, probes, log).value == "UNKNOWN"
    decreases |probes|
  {
    if probes != [] {
      var probe := Run(sh, probes[0].cmd, probes[0].admin, log);
      assert probe.value.Err?;
      CascadeUnknownWhenAllFail(sh, probes[1..], probe.log);
    }
  }

  /** A probe the executor refuses is skipped: the cascade goes on with the next one. */
  lemma CascadeSkipsRefused(sh: Shell, probes: seq<StatusProbe>, log: seq<Event>)
    requires |probes| > 0 && !Permitted(sh.mode, sh.caps, probes[0].admin)
    ensures Cascade(sh, probes, log) == Cascade(sh, probes[1..], log + [Request(probes[0].cmd, probes[0].admin)])
  {
  }

  // --------------------------------------------------------- verification

  datatype ContainerVerification = ContainerVerification(
    exists_: bool,
    detectableByLs: bool,
    detectableByList: bool,
    detectableByFilesystem: bool,
    canGetStatus: bool,
    canAttach: bool,
    isRunning: bool,
    errors: seq<string>)

  /** Rust's `{:?}` rendering of an `Option<i32>` exit code. */
  function ShowExitCode(code: Option<int>): string {
    match code
    case None => "None"
    case Some(c) => "Some(" + (if c < 0 then "-" + ShowNat(-c) else ShowNat(c)) + ")"
  }

  /** The outcome of one stage of the report: whether it passed and the messages it added. */
  datatype Check = Check(passed: bool, errors: seq<string>)

  const NotDetectedByLs := "Container non détecté par lxc-ls"
  const NotDetectedByList := "Container non détecté par lxc list"
  const NotInFileSystem := "Container non trouvé dans le système de fichiers"

  /** Stage 2: `lxc-ls`, then with `sudo` when that did not find the name; only the plain probe can add a message. */
  function LsCheck(sh: Shell, name: string, log: seq<Event>): (t: Traced<Check>)
    ensures var plain := Run(sh, PlainListingProbe(name), false, log);
      (t.value.errors == [NotDetectedByLs] <==> plain.value.Ok? && !Says(plain.value, "found"))
      && (t.value.errors == [] <==> !(plain.value.Ok? && !Says(plain.value, "found")))
      && (Says(plain.value, "found") ==> t.value.passed)
    ensures Gated(sh.mode, sh.caps, log) ==> Gated(sh.mode, sh.caps, t.log)
  {
    var plain := Run(sh, PlainListingProbe(name), false, log);
    var found := Says(plain.value, "found");
    var errors := if plain.value.Ok? && !found then [NotDetectedByLs] else [];
    if found then Traced(Check(true, errors), plain.log)
    else
      var sudo := Run(sh, SudoListingProbe(name), true, plain.log);
      Traced(Check(Says(sudo.value, "found"), errors), sudo.log)
  }

  function ListProbe(name: string): string {
    "lxc list " + name + " --format csv -c n 2>/dev/null | grep -q '^" + name + FoundEcho
  }

  /** Stage 3: `lxc list NAME`; a message only when it answered without "found". */
  function ListCheck(sh: Shell, name: string, log: seq<Event>): (t: Traced<Check>)
    ensures var list := Run(sh, ListProbe(name), false, log);
      t.value.passed == Says(list.value, "found")
      && t.value.errors == (if list.value.Ok? && !t.value.passed then [NotDetectedByList] else [])
      && t.log == list.log
    ensures Gated(sh.mode, sh.caps, log) ==> Gated(sh.mode, sh.caps, t.log)
  {
    var list := Run(sh, ListProbe(name), false, log);
    var found := Says(list.value, "found");
    Traced(Check(found, if list.value.Ok? && !found then [NotDetectedByList] else []), list.log)
  }

  /** Stage 4: the two container directories, checked with `Path::exists` (given as `pathExists`). */
  function FileSystemCheck(name: string, home: string, pathExists: string -> bool): (c: Check)
    ensures c.passed <==> pathExists(ContainerDirs(name, home)[0]) || pathExists(ContainerDirs(name, home)[1])
    ensures c.errors == [] <==> c.passed
  {
    var dirs := ContainerDirs(name, home);
    var found := pathExists(dirs[0]) || pathExists(dirs[1]);
    Check(found, if found then [] else [NotInFileSystem])
  }

  const NotRunning := "Container existe mais n'est pas en cours d'exécution (statut: "

  /** Stage 5: the status; running exactly when it reads "RUNNING", a message otherwise. */
  function StatusCheck(sh: Shell, name: string, log: seq<Event>): (t: Traced<Check>)
    ensures var status := ContainerStatus(sh, name, log);
      t.log == status.log
      && (t.value.passed <==> status.value == Ok("RUNNING"))
      && (t.value.errors == [] <==> t.value.passed)
    ensures Gated(sh.mode, sh.caps, log) ==> Gated(sh.mode, sh.caps, t.log)
  {
    var status := ContainerStatus(sh, name, log);
    Traced(StatusVerdict(status.value.value), status.log)
  }

  /** What the status stage records for a status reading: passed on RUNNING, otherwise a message naming the status. */
  function StatusVerdict(status: string): (c: Check)
    ensures c.passed <==> status == "RUNNING"
    ensures c.errors == [] <==> c.passed
    ensures !c.passed ==> |c.errors| == 1 && EndsWith(c.errors[0], status + ")")
  {
    if status == "RUNNING" then Check(true, [])
    else Check(false, [NotRunning + status + ")"])
  }

  const AttachError := "Erreur lors de l'accès via lxc-attach: "
  const AttachFails := "lxc-attach échoue avec code: "

  function AttachProbe(name: string): string {
    "lxc-attach -n " + name + " -- echo 'test' 2>&1"
  }

  /** Stage 6: a privileged `lxc-attach`; passes on exit 0, otherwise one message naming the refusal or the exit code. */
  function AttachCheck(sh: Shell, name: string, log: seq<Event>): (t: Traced<Check>)
    ensures var attach := Run(sh, AttachProbe(name), true, log);
      t.log == attach.log
      && (t.value.passed <==> attach.value.Ok? && attach.value.value.exitCode == Some(0))
      && (t.value.errors == [] <==> t.value.passed)
      && |t.value.errors| <= 1
    ensures Gated(sh.mode, sh.caps, log) ==> Gated(sh.mode, sh.caps, t.log)
  {
    var attach := Run(sh, AttachProbe(name), true, log);
    match attach.value
    case Err(e) => Traced(Check(false, [AttachError + e.Display()]), attach.log)
    case Ok(out) =>
      if out.exitCode == Some(0) then Traced(Check(true, []), attach.log)
      else Traced(Check(false, [AttachFails + ShowExitCode(out.exitCode) + ", stderr: " + out.stderr]),
                  attach.log)
  }

  const NotExisting := "Le container n'existe pas selon check_container_exists_with_executor()"

  /** Assembles the report from the stages' outcomes, the messages in stage order. */
  function Report(exists_: bool, ls: Check, list: Check, fs: Check, status: Check, attach: Check): (v: ContainerVerification)
    requires fs.errors == [] <==> fs.passed
    requires status.errors == [] <==> status.passed
    requires attach.errors == [] <==> attach.passed
    ensures !v.exists_ ==> NotExisting in v.errors
    ensures v.errors == [] ==> v.exists_ && v.detectableByFilesystem && v.isRunning && v.canAttach
    ensures v.exists_ == exists_ && v.detectableByLs == ls.passed && v.detectableByList == list.passed
    ensures v.detectableByFilesystem == fs.passed && v.canGetStatus
    ensures v.isRunning == status.passed && v.canAttach == attach.passed
  {
    var head := if exists_ then [] else [NotExisting];
    var errors := head + ls.errors + list.errors + fs.errors + status.errors + attach.errors;
    assert !exists_ ==> errors[0] == NotExisting;
    ContainerVerification(exists_, ls.passed, list.passed, fs.passed, true, attach.passed, status.passed, errors)
  }

  /** Stage 2 as `verify_container` runs it. */
  method LsStage(ex: CommandExecutor, name: string, host: Host, log: seq<Event>) returns (c: Check, log': seq<Event>)
    ensures Traced(c, log') == LsCheck(Shell(ex.mode, ex.caps, host), name, log)
  {
    var output;
    output, log' := ex.RunShell(PlainListingProbe(name), false, host, log);
    c := Check(false, []);
    if output.Ok? {
      if Contains(output.value.stdout, "found") {
        c := c.(passed := true);
      } else {
        c := c.(errors := [NotDetectedByLs]);
      }
    }
    if !c.passed {
      output, log' := ex.RunShell(SudoListingProbe(name), true, host, log');
      if output.Ok? && Contains(output.value.stdout, "found") {
        c := c.(passed := true);
      }
    }
  }

  /** Stage 3 as `verify_container` runs it. */
  method ListStage(ex: CommandExecutor, name: string, host: Host, log: seq<Event>) returns (c: Check, log': seq<Event>)
    ensures Traced(c, log') == ListCheck(Shell(ex.mode, ex.caps, host), name, log)
  {
    var output;
    output, log' := ex.RunShell(ListProbe(name), false, host, log);
    c := Check(false, []);
    if output.Ok? {
      if Contains(output.value.stdout, "found") {
        c := c.(passed := true);
      } else {
        c := c.(errors := [NotDetectedByList]);
      }
    }
  }

  /** The cascade with at least one probe left: its head decides, or the rest of the cascade does. */
  lemma CascadeHead(sh: Shell, probes: seq<StatusProbe>, log: seq<Event>)
    requires probes != []
    ensures var probe := Run(sh, probes[0].cmd, probes[0].admin, log);
      var s := ReadStatus(probes[0].reading, probe.value);
      Cascade(sh, probes, log) == if s.Some? then Traced(s.value, probe.log) else Cascade(sh, probes[1..], probe.log)
  {
  }

  /** `get_container_status` as the source runs it: lxc-info, then lxc list, then a privileged lxc-attach. */
  method GetContainerStatus(ex: CommandExecutor, name: string, host: Host, log: seq<Event>)
    returns (r: Result<string>, log': seq<Event>)
    ensures Traced(r, log') == ContainerStatus(Shell(ex.mode, ex.caps, host), name, log)
  {
    ghost var sh := Shell(ex.mode, ex.caps, host);
    ghost var probes := OwnStatusProbes(name);
    ghost var fallback := OwnFallbackProbes(name);
    assert probes[1..] == fallback && fallback[1..][1..] == [];
    CascadeHead(sh, probes, log);
    var status;
    status, log' := InfoStep(ex, name, host, log);
    if status.Some? {
      return Ok(status.value), log';
    }
    CascadeHead(sh, fallback, log');
    status, log' := ListStep(ex, name, host, log');
    if status.Some? {
      return Ok(status.value), log';
    }
    CascadeHead(sh, fallback[1..], log');
    status, log' := AttachStep(ex, name, host, log');
    if status.Some? {
      return Ok(status.value), log';
    }
    r := Ok("UNKNOWN");
  }

  /** The lxc-info step: its trimmed line, unless it is "UNKNOWN" or empty. */
  method InfoStep(ex: CommandExecutor, name: string, host: Host, log: seq<Event>)
    returns (status: Option<string>, log': seq<Event>)
    ensures var probe := Run(Shell(ex.mode, ex.caps, host), InfoStatusProbe(name), false, log);
      status == ReadStatus(Verbatim(false), probe.value) && log' == probe.log
  {
    var output;
    output, log' := ex.RunShell(InfoStatusProbe(name), false, host, log);
    status := None;
    if output.Ok? {
      var line := Trim(output.value.stdout);
      if line != "UNKNOWN" && line != "" {
        status := Some(line);
      }
    }
  }

  /** The lxc list step: the first state named in the upper-cased line. */
  method ListStep(ex: CommandExecutor, name: string, host: Host, log: seq<Event>)
    returns (status: Option<string>, log': seq<Event>)
    ensures var probe := Run(Shell(ex.mode, ex.caps, host), ListStatusProbe(name), false, log);
      status == ReadStatus(Normalised, probe.value) && log' == probe.log
  {
    var output;
    output, log' := ex.RunShell(ListStatusProbe(name), false, host, log);
    status := None;
    if output.Ok? {
      var line := Trim(output.value.stdout);
      if line != "UNKNOWN" && line != "" {
        var upper := ToUpper(line);
        if Contains(upper, "RUNNING") {
          status := Some("RUNNING");
        } else if Contains(upper, "STOPPED") {
          status := Some("STOPPED");
        } else if Contains(upper, "FROZEN") {
          status := Some("FROZEN");
        }
      }
    }
  }

  /** The privileged lxc-attach step: RUNNING when it exits with 0. */
  method AttachStep(ex: CommandExecutor, name: string, host: Host, log: seq<Event>)
    returns (status: Option<string>, log': seq<Event>)
    ensures var probe := Run(Shell(ex.mode, ex.caps, host), AttachRunningProbe(name), true, log);
      status == ReadStatus(ExitZero, probe.value) && log' == probe.log
  {
    var output;
    output, log' := ex.RunShell(AttachRunningProbe(name), true, host, log);
    status := None;
    if output.Ok? && output.value.exitCode == Some(0) {
      status := Some("RUNNING");
    }
  }

  /** Stage 5 as `verify_container` runs it: the status is read, and anything but RUNNING adds a message naming it. */
  method StatusStage(ex: CommandExecutor, name: string, host: Host, log: seq<Event>) returns (c: Check, log': seq<Event>)
    ensures Traced(c, log') == StatusCheck(Shell(ex.mode, ex.caps, host), name, log)
  {
    var status;
    status, log' := GetContainerStatus(ex, name, host, log);
    c := Check(false, []);
    var running := status.value == "RUNNING";
    c := c.(passed := running);
    if !running {
      c := c.(errors := [NotRunning + status.value + ")"]);
    }
    assert c == StatusVerdict(status.value);
  }

  /** Stage 6 as `verify_container` runs it. */
  method AttachStage(ex: CommandExecutor, name: string, host: Host, log: seq<Event>) returns (c: Check, log': seq<Event>)
    ensures Traced(c, log') == AttachCheck(Shell(ex.mode, ex.caps, host), name, log)
    ensures c.errors == [] <==> c.passed
    ensures Gated(ex.mode, ex.caps, log) ==> Gated(ex.mode, ex.caps, log')
  {
    var output;
    output, log' := ex.RunShell(AttachProbe(name), true, host, log);
    match output
    case Err(e) =>
      c := Check(false, [AttachError + e.Display()]);
    case Ok(out) =>
      if out.exitCode == Some(0) {
        c := Check(true, []);
      } else {
        c := Check(false, [AttachFails + ShowExitCode(out.exitCode) + ", stderr: " + out.stderr]);
      }
  }

  /**
   * `verify_container`: the existence check, then the stages in order, each
   * failure adding its message to the record.
   */
  function Verification(sh: Shell, name: string, home: string, pathExists: string -> bool, log: seq<Event>)
    : (t: Traced<ContainerVerification>)
    ensures t.value.canGetStatus
    ensures !t.value.exists_ ==> NotExisting in t.value.errors
    ensures t.value.detectableByFilesystem <==> pathExists(ContainerDirs(name, home)[0]) || pathExists(ContainerDirs(name, home)[1])
    // an empty error list vouches for existence, the file system, a running container and a working attach
    ensures t.value.errors == [] ==> t.value.exists_ && t.value.detectableByFilesystem && t.value.isRunning && t.value.canAttach
    ensures Gated(sh.mode, sh.caps, log) ==> Gated(sh.mode, sh.caps, t.log)
  {
    var exists_ := Exists(sh, name, home, log);
    var ls := LsCheck(sh, name, exists_.log);
    var list := ListCheck(sh, name, ls.log);
    var status := StatusCheck(sh, name, list.log);
    var attach := AttachCheck(sh, name, status.log);
    Traced(Report(exists_.value, ls.value, list.value, FileSystemCheck(name, home, pathExists), status.value, attach.value),
           attach.log)
  }

  /**
   * What each flag of the report records: the existence verdict, "found"
   * from `lxc list`, RUNNING from the status reader and a zero exit from the
   * attach probe, each probe running on the log the previous stage left.
   */
  lemma VerificationFlags(sh: Shell, name: string, home: string, pathExists: string -> bool, log: seq<Event>)
    ensures var v := Verification(sh, name, home, pathExists, log).value;
      var exists_ := Exists(sh, name, home, log);
      var ls := LsCheck(sh, name, exists_.log);
      var list := Run(sh, ListProbe(name), false, ls.log);
      var status := ContainerStatus(sh, name, list.log);
      var attach := Run(sh, AttachProbe(name), true, status.log);
      v.exists_ == exists_.value
      && v.detectableByLs == ls.value.passed
      && (v.detectableByList <==> Says(list.value, "found"))
      && (v.isRunning <==> status.value == Ok("RUNNING"))
      && (v.canAttach <==> attach.value.Ok? && attach.value.value.exitCode == Some(0))
  {
  }

  /** `verify_container` as the source runs it, stage after stage; the report itself is always `Ok`. */
  method VerifyContainer(ex: CommandExecutor, name: string, home: string, pathExists: string -> bool,
                         host: Host, log: seq<Event>)
    returns (r: Result<ContainerVerification>, log': seq<Event>)
    ensures r.Ok? && Traced(r.value, log') == Verification(Shell(ex.mode, ex.caps, host), name, home, pathExists, log)
  {
    var exists_, ls, list, status, attach;
    exists_, log' := CheckContainerExists(ex, name, home, host, log);
    ls, list, log' := ListingStages(ex, name, host, log');
    var fs := FileSystemCheck(name, home, pathExists);
    status, attach, log' := ServiceStages(ex, name, host, log');
    r := Ok(Report(exists_, ls, list, fs, status, attach));
  }

  /** Stages 2 and 3: whether the LXC tools list the container. */
  method ListingStages(ex: CommandExecutor, name: string, host: Host, log: seq<Event>)
    returns (ls: Check, list: Check, log': seq<Event>)
    ensures var sh := Shell(ex.mode, ex.caps, host);
      var l := LsCheck(sh, name, log);
      ls == l.value && Traced(list, log') == ListCheck(sh, name, l.log)
    ensures Gated(ex.mode, ex.caps, log) ==> Gated(ex.mode, ex.caps, log')
  {
    ls, log' := LsStage(ex, name, host, log);
    list, log' := ListStage(ex, name, host, log');
  }

  /** Stages 5 and 6: the status and an attach; each adds a message exactly when it fails. */
  method ServiceStages(ex: CommandExecutor, name: string, host: Host, log: seq<Event>)
    returns (status: Check, attach: Check, log': seq<Event>)
    ensures var sh := Shell(ex.mode, ex.caps, host);
      var st := StatusCheck(sh, name, log);
      status == st.value && Traced(attach, log') == AttachCheck(sh, name, st.log)
    ensures status.errors == [] <==> status.passed
    ensures attach.errors == [] <==> attach.passed
    ensures Gated(ex.mode, ex.caps, log) ==> Gated(ex.mode, ex.caps, log')
  {
    status, log' := StatusStage(ex, name, host, log);
    attach, log' := AttachStage(ex, name, host, log');
  }
}
