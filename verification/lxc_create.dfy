/**
 * Creating a container (`create_container` in src/deployment/lxc.rs): the
 * tool check, the duplicate check, the optional RHEL configuration step, the
 * `lxc-create` attempt with its `download` fallback, and the bounded
 * re-verification that follows a successful creation.
 *
 * Whether `lxc-create` is on the PATH and the outcome of the RHEL
 * configuration step (file-system writes) are parameters.
 */
module LxcCreate {
  import opened Common
  import opened Text
  import opened Executor
  import opened Distribution
  import opened LxcCommon
  import opened LxcExistence

  /** The number of existence checks after a successful creation. */
  const MaxConfirmations: nat := 5

  /** The pause before the first check, in milliseconds. */
  const SettleMillis: nat := 500

  function NotInstalledMessage(info: DistributionInfo): string {
    "LXC n'est pas installé. Installez-le avec: " + InstallCommand(info, ["lxc", "lxc-templates"])
  }

  function AlreadyExistsMessage(name: string): string {
    "Le container " + name + " existe déjà"
  }

  /** The LXC 1.x syntax, tried first. */
  function TemplateCreate(name: string, version: string): string {
    "lxc-create -n " + name + " -t alpine -- --release v" + version
  }

  /** The `download` syntax of later LXC releases, the fallback. */
  function DownloadCreate(name: string, version: string): string {
    "lxc-create -n " + name + " -t download -- --dist alpine --release " + version + " --arch amd64"
  }

  /** A command that ran and exited with status 0. */
  predicate Succeeded(r: Result<CommandOutput>) {
    r.Ok? && r.value.exitCode == Some(0)
  }

  /** The first syntax, then the second exactly when the first did not succeed; the answer is the last one tried. */
  function Attempts(sh: Shell, name: string, version: string, log: seq<Event>): (t: Traced<Result<CommandOutput>>)
    ensures Gated(sh.mode, sh.caps, log) ==> Gated(sh.mode, sh.caps, t.log)
  {
    var first := Run(sh, TemplateCreate(name, version), true, log);
    if Succeeded(first.value) then first
    else Run(sh, DownloadCreate(name, version), true, first.log)
  }

  /** The commands the attempts issue: the fallback exactly when the first attempt failed or exited non-zero. */
  lemma AttemptsRequests(sh: Shell, name: string, version: string, log: seq<Event>)
    ensures var first := Run(sh, TemplateCreate(name, version), true, log);
      var t := Attempts(sh, name, version, log);
      Requests(t.log) == Requests(log) + [TemplateCreate(name, version)]
        + (if Succeeded(first.value) then [] else [DownloadCreate(name, version)])
      && (Succeeded(first.value) ==> t.value == first.value)
      && (!Succeeded(first.value) ==> t.value == Run(sh, DownloadCreate(name, version), true, first.log).value)
    ensures NoPause(log, Attempts(sh, name, version, log).log)
  {
    var first := Run(sh, TemplateCreate(name, version), true, log);
    RunRequests(sh, TemplateCreate(name, version), true, log);
    RunNoPause(sh, TemplateCreate(name, version), true, log);
    if !Succeeded(first.value) {
      RunRequests(sh, DownloadCreate(name, version), true, first.log);
      RunNoPause(sh, DownloadCreate(name, version), true, first.log);
      NoPauseTrans(log, first.log, Run(sh, DownloadCreate(name, version), true, first.log).log);
    }
  }

  /**
   * Check number `attempt` and the ones after it: stop at the first check
   * that finds the container, and pause `500 * attempt` ms after a failed
   * check, except after the last.
   */
  function Confirm(sh: Shell, name: string, home: string, attempt: nat, log: seq<Event>): (t: Traced<bool>)
    requires 1 <= attempt <= MaxConfirmations + 1
    ensures Gated(sh.mode, sh.caps, log) ==> Gated(sh.mode, sh.caps, t.log)
    decreases MaxConfirmations + 1 - attempt
  {
    if attempt > MaxConfirmations then Traced(false, log)
    else
      var check := Exists(sh, name, home, log);
      if check.value then Traced(true, check.log)
      else
        GatedSleep(sh.mode, sh.caps, check.log, 500 * attempt);
        Confirm(sh, name, home, attempt + 1, PauseAfter(check.log, attempt))
  }

  /** The pause after failed check number `attempt`: none after the last. */
  function PauseAfter(log: seq<Event>, attempt: nat): seq<Event> {
    if attempt < MaxConfirmations then log + [Sleep(500 * attempt)] else log
  }

  /** The pauses taken from check number `attempt` on when every check fails. */
  function PauseSchedule(attempt: nat): (r: seq<nat>)
    requires 1 <= attempt <= MaxConfirmations + 1
    ensures |r| == if attempt == MaxConfirmations + 1 then 0 else MaxConfirmations - attempt
    ensures forall i :: 0 <= i < |r| ==> r[i] == 500 * (attempt + i)
    decreases MaxConfirmations + 1 - attempt
  {
    if attempt >= MaxConfirmations then [] else [500 * attempt] + PauseSchedule(attempt + 1)
  }

  /**
   * The outcome `t` of the checks from number `attempt` on, started at
   * `log`, took a prefix of the schedule's pauses, and the whole schedule
   * when no check found the container.
   */
  predicate PausedWithin(log: seq<Event>, attempt: nat, t: Traced<bool>)
    requires 1 <= attempt <= MaxConfirmations + 1
  {
    log <= t.log
    && Sleeps(log) <= Sleeps(t.log) <= Sleeps(log) + PauseSchedule(attempt)
    && (!t.value ==> Sleeps(t.log) == Sleeps(log) + PauseSchedule(attempt))
  }

  /** A failed check followed by its pause extends the bound for the next check to this one. */
  lemma PauseStep(log: seq<Event>, checked: seq<Event>, attempt: nat, t: Traced<bool>)
    requires 1 <= attempt <= MaxConfirmations
    requires NoPause(log, checked)
    requires PausedWithin(PauseAfter(checked, attempt), attempt + 1, t)
    ensures PausedWithin(log, attempt, t)
  {
    var paused := PauseAfter(checked, attempt);
    Prefix(log, checked, paused);
    if attempt < MaxConfirmations {
      ScheduleStep(Sleeps(log), Sleeps(paused), attempt);
    } else {
      assert paused == checked;
    }
    Prefix(log, paused, t.log);
    Prefix(Sleeps(log), Sleeps(paused), Sleeps(t.log));
  }

  /** The pause of a failed check, followed by the schedule of the next check, is this check's schedule. */
  lemma ScheduleStep(before: seq<nat>, after: seq<nat>, attempt: nat)
    requires 1 <= attempt < MaxConfirmations
    requires after == before + [500 * attempt]
    ensures before <= after && after + PauseSchedule(attempt + 1) == before + PauseSchedule(attempt)
  {
    assert PauseSchedule(attempt) == [500 * attempt] + PauseSchedule(attempt + 1);
  }

  lemma Prefix<T>(a: seq<T>, b: seq<T>, c: seq<T>)
    requires a <= b && b <= c
    ensures a <= c
  {
  }

  /** A check that finds the container ends the loop within the schedule. */
  lemma FoundStops(log: seq<Event>, checked: seq<Event>, attempt: nat)
    requires 1 <= attempt <= MaxConfirmations
    requires NoPause(log, checked)
    ensures PausedWithin(log, attempt, Traced(true, checked))
  {
    assert Sleeps(log) <= Sleeps(log) + PauseSchedule(attempt);
  }

  /**
   * The pauses of the confirmation loop are a prefix of the schedule (no
   * pause after the fifth check), and the whole schedule when no check
   * finds the container.
   */
  lemma {:induction false} ConfirmPauses(sh: Shell, name: string, home: string, attempt: nat, log: seq<Event>)
    requires 1 <= attempt <= MaxConfirmations + 1
    ensures PausedWithin(log, attempt, Confirm(sh, name, home, attempt, log))
    decreases MaxConfirmations + 1 - attempt, 1
  {
    if attempt <= MaxConfirmations {
      if Exists(sh, name, home, log).value {
        ExistsNoPause(sh, name, home, log);
        FoundStops(log, Exists(sh, name, home, log).log, attempt);
      } else {
        MissedPauses(sh, name, home, attempt, log);
      }
    }
  }

  /** A failed check, its pause, then the remaining checks stay within the schedule. */
  lemma {:induction false} MissedPauses(sh: Shell, name: string, home: string, attempt: nat, log: seq<Event>)
    requires 1 <= attempt <= MaxConfirmations && !Exists(sh, name, home, log).value
    ensures PausedWithin(log, attempt, Confirm(sh, name, home, attempt, log))
    decreases MaxConfirmations + 1 - attempt, 0
  {
    var check := Exists(sh, name, home, log);
    ExistsNoPause(sh, name, home, log);
    var paused := PauseAfter(check.log, attempt);
    var next := Confirm(sh, name, home, attempt + 1, paused);
    assert Confirm(sh, name, home, attempt, log) == next;
    ConfirmPauses(sh, name, home, attempt + 1, paused);
    PauseStep(log, check.log, attempt, next);
  }

  /** Once a check finds the container, no further check runs. */
  lemma ConfirmStopsAtFirstSuccess(sh: Shell, name: string, home: string, attempt: nat, log: seq<Event>)
    requires 1 <= attempt <= MaxConfirmations
    requires Exists(sh, name, home, log).value
    ensures Confirm(sh, name, home, attempt, log) == Traced(true, Exists(sh, name, home, log).log)
  {
  }

  /**
   * The answer of `create_container`: the missing tool, the duplicate and a
   * failed RHEL configuration end it early; otherwise it is the last
   * creation attempt's result, re-verified (without effect on the result)
   * only when that attempt exited with status 0.
   */
  function Create(sh: Shell, name: string, version: string, home: string, info: DistributionInfo,
                  lxcInstalled: bool, rhelSetup: Option<ExecError>, log: seq<Event>)
    : (t: Traced<Result<CommandOutput>>)
    ensures Gated(sh.mode, sh.caps, log) ==> Gated(sh.mode, sh.caps, t.log)
  {
    if !lxcInstalled then Traced(Err(MissingTool(NotInstalledMessage(info))), log)
    else
      var duplicate := Exists(sh, name, home, log);
      if duplicate.value then Traced(Err(Failed(AlreadyExistsMessage(name))), duplicate.log)
      else if NeedsRootForLxc(info) && rhelSetup.Some? then Traced(Err(rhelSetup.value), duplicate.log)
      else
        var created := Attempts(sh, name, version, duplicate.log);
        if Succeeded(created.value) then
          GatedSleep(sh.mode, sh.caps, created.log, SettleMillis);
          Traced(created.value, Confirm(sh, name, home, 1, created.log + [Sleep(SettleMillis)]).log)
        else created
  }

  /** Without `lxc-create` on the PATH nothing at all is issued. */
  lemma MissingToolFirst(sh: Shell, name: string, version: string, home: string, info: DistributionInfo,
                         rhelSetup: Option<ExecError>, log: seq<Event>)
    ensures var t := Create(sh, name, version, home, info, false, rhelSetup, log);
      t.value.Err? && t.value.error.MissingTool? && t.log == log
      && EndsWith(t.value.error.msg, InstallCommand(info, ["lxc", "lxc-templates"]))
  {
  }

  /** An existing container is refused with only the duplicate check's probes issued: no `lxc-create` runs. */
  lemma DuplicateRejectedBeforeCreate(sh: Shell, name: string, version: string, home: string, info: DistributionInfo,
                                      rhelSetup: Option<ExecError>, log: seq<Event>)
    requires Exists(sh, name, home, log).value
    ensures var t := Create(sh, name, version, home, info, true, rhelSetup, log);
      t.value == Err(Failed(AlreadyExistsMessage(name))) && t.log == Exists(sh, name, home, log).log
  {
  }

  /**
   * Once past the checks, the answer is the last creation attempt's result,
   * whatever the re-verification found; the duplicate check came first, and
   * the re-verification starts with the half-second pause.
   */
  lemma ResultIsLastAttempt(sh: Shell, name: string, version: string, home: string, info: DistributionInfo,
                            rhelSetup: Option<ExecError>, log: seq<Event>)
    requires !Exists(sh, name, home, log).value
    requires !(NeedsRootForLxc(info) && rhelSetup.Some?)
    ensures var duplicate := Exists(sh, name, home, log);
      var created := Attempts(sh, name, version, duplicate.log);
      var t := Create(sh, name, version, home, info, true, rhelSetup, log);
      t.value == created.value
      && duplicate.log <= created.log <= t.log
      && (Succeeded(created.value) ==> created.log + [Sleep(SettleMillis)] <= t.log)
      && (!Succeeded(created.value) ==> t.log == created.log)
  {
    var duplicate := Exists(sh, name, home, log);
    var created := Attempts(sh, name, version, duplicate.log);
    AttemptsRequests(sh, name, version, duplicate.log);
    if Succeeded(created.value) {
      var paused := created.log + [Sleep(SettleMillis)];
      ConfirmPauses(sh, name, home, 1, paused);
    }
  }

  /** A failed RHEL configuration step ends the operation before any `lxc-create`. */
  lemma RhelSetupFailureStops(sh: Shell, name: string, version: string, home: string, info: DistributionInfo,
                              e: ExecError, log: seq<Event>)
    requires info.distro == RHEL || info.distro == CentOS
    requires !Exists(sh, name, home, log).value
    ensures var t := Create(sh, name, version, home, info, true, Some(e), log);
      t.value == Err(e) && t.log == Exists(sh, name, home, log).log
  {
  }

  method CreationAttempts(ex: CommandExecutor, name: string, version: string, host: Host, log: seq<Event>)
    returns (result: Result<CommandOutput>, log': seq<Event>)
    ensures Traced(result, log') == Attempts(Shell(ex.mode, ex.caps, host), name, version, log)
  {
    result, log' := ex.RunShell(TemplateCreate(name, version), true, host, log);
    if result.Err? || result.value.exitCode != Some(0) {
      result, log' := ex.RunShell(DownloadCreate(name, version), true, host, log');
    }
  }

  /** The re-verification loop: up to five checks, with growing pauses between them. */
  method ConfirmLoop(ex: CommandExecutor, name: string, home: string, host: Host, log: seq<Event>)
    returns (verified: bool, log': seq<Event>)
    ensures Traced(verified, log') == Confirm(Shell(ex.mode, ex.caps, host), name, home, 1, log)
  {
    ghost var sh := Shell(ex.mode, ex.caps, host);
    verified := false;
    log' := log;
    var attempt := 1;
    while attempt <= MaxConfirmations
      invariant 1 <= attempt <= MaxConfirmations + 1
      invariant Confirm(sh, name, home, 1, log) == Confirm(sh, name, home, attempt, log')
      decreases MaxConfirmations + 1 - attempt
    {
      var found;
      found, log' := CheckContainerExists(ex, name, home, host, log');
      if found {
        verified := true;
        break;
      }
      if attempt < MaxConfirmations {
        log' := log' + [Sleep(500 * attempt)];
      }
      attempt := attempt + 1;
    }
  }

  /** `create_container`. */
  method CreateContainer(ex: CommandExecutor, name: string, version: string, home: string, info: DistributionInfo,
                         lxcInstalled: bool, rhelSetup: Option<ExecError>, host: Host, log: seq<Event>)
    returns (result: Result<CommandOutput>, log': seq<Event>)
    ensures Traced(result, log') == Create(Shell(ex.mode, ex.caps, host), name, version, home, info, lxcInstalled, rhelSetup, log)
  {
    if !lxcInstalled {
      return Err(MissingTool(NotInstalledMessage(info))), log;
    }
    var duplicate;
    duplicate, log' := CheckContainerExists(ex, name, home, host, log);
    if duplicate {
      return Err(Failed(AlreadyExistsMessage(name))), log';
    }
    if NeedsRootForLxc(info) && rhelSetup.Some? {
      return Err(rhelSetup.value), log';
    }
    result, log' := CreationAttempts(ex, name, version, host, log');
    if result.Ok? && result.value.exitCode == Some(0) {
      log' := log' + [Sleep(SettleMillis)];
      var verified;
      verified, log' := ConfirmLoop(ex, name, home, host, log');
    }
  }
}
