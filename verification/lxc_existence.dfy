/**
 * Whether a container exists (`check_container_exists_with_executor`) and
 * whether it is fully gone (`check_container_fully_removed`), both decided
 * by privileged probes through the executor.
 */
module LxcExistence {
  import opened Common
  import opened Text
  import opened Executor
  import opened LxcCommon

  /** The ends of the `test` probes: what they echo either way. */
  const FoundOrNot := " && echo 'found' || echo 'not found'"
  const YesOrNo := " && echo 'yes' || echo 'no'"
  const ExistsOrNot := " && echo 'exists' || echo 'not exists'"

  function DirProbe(path: string): string {
    "test -d " + path + FoundOrNot
  }

  function ConfigProbe(path: string): string {
    "test -f " + path + "/config" + YesOrNo
  }

  function RootfsProbe(path: string): string {
    "test -d " + path + "/rootfs" + YesOrNo
  }

  /** The end of every `grep -q '^NAME$'` probe: echo whether the name matched. */
  const FoundEcho := "$' && echo 'found' || echo 'not found'"

  function SudoListingProbe(name: string): string {
    "sudo -n lxc-ls -1 2>/dev/null | grep -q '^" + name + FoundEcho
  }

  function PlainListingProbe(name: string): string {
    "lxc-ls -1 2>/dev/null | grep -q '^" + name + FoundEcho
  }

  function LxdListingProbe(name: string): string {
    "lxc list --format csv -c n 2>/dev/null | grep -q '^" + name + FoundEcho
  }

  /** First loop: probes the directories in order and stops at the first whose probe says "found". */
  function DirFound(sh: Shell, paths: seq<string>, log: seq<Event>): (t: Traced<bool>)
    ensures Gated(sh.mode, sh.caps, log) ==> Gated(sh.mode, sh.caps, t.log)
    ensures !Permitted(sh.mode, sh.caps, true) ==> !t.value
    decreases |paths|
  {
    if paths == [] then Traced(false, log)
    else
      var probe := Run(sh, DirProbe(paths[0]), true, log);
      if Says(probe.value, "found") then Traced(true, probe.log)
      else DirFound(sh, paths[1..], probe.log)
  }

  /** Second loop: both structure probes run for each path; either answering "yes" stops the loop. */
  function ValidStructure(sh: Shell, paths: seq<string>, log: seq<Event>): (t: Traced<bool>)
    ensures Gated(sh.mode, sh.caps, log) ==> Gated(sh.mode, sh.caps, t.log)
    ensures !Permitted(sh.mode, sh.caps, true) ==> !t.value
    decreases |paths|
  {
    if paths == [] then Traced(false, log)
    else
      var probe := StructureCheck(sh, paths[0], log);
      if probe.value then probe else ValidStructure(sh, paths[1..], probe.log)
  }

  /** One directory's two probes, `config` then `rootfs`: yes when both ran and either said "yes". */
  function StructureCheck(sh: Shell, path: string, log: seq<Event>): (t: Traced<bool>)
    ensures Gated(sh.mode, sh.caps, log) ==> Gated(sh.mode, sh.caps, t.log)
    ensures !Permitted(sh.mode, sh.caps, true) ==> !t.value
    ensures NoPause(log, t.log)
  {
    var config := Run(sh, ConfigProbe(path), true, log);
    var rootfs := Run(sh, RootfsProbe(path), true, config.log);
    RunNoPause(sh, ConfigProbe(path), true, log);
    RunNoPause(sh, RootfsProbe(path), true, config.log);
    NoPauseTrans(log, config.log, rootfs.log);
    Traced(config.value.Ok? && rootfs.value.Ok?
           && (Contains(config.value.value.stdout, "yes") || Contains(rootfs.value.value.stdout, "yes")),
           rootfs.log)
  }

  /** The three listing probes, stopping at the first that says "found". */
  function Listing(sh: Shell, name: string, log: seq<Event>): (t: Traced<bool>)
    ensures Gated(sh.mode, sh.caps, log) ==> Gated(sh.mode, sh.caps, t.log)
  {
    var sudo := Run(sh, SudoListingProbe(name), true, log);
    if Says(sudo.value, "found") then Traced(true, sudo.log)
    else
      var plain := Run(sh, PlainListingProbe(name), false, sudo.log);
      if Says(plain.value, "found") then Traced(true, plain.log)
      else
        var lxd := Run(sh, LxdListingProbe(name), false, plain.log);
        Traced(Says(lxd.value, "found"), lxd.log)
  }

  /** `check_container_exists_with_executor`. */
  function Exists(sh: Shell, name: string, home: string, log: seq<Event>): (t: Traced<bool>)
    ensures Gated(sh.mode, sh.caps, log) ==> Gated(sh.mode, sh.caps, t.log)
  {
    var dirs := ContainerDirs(name, home);
    var dir := DirFound(sh, dirs, log);
    if !dir.value then dir
    else
      var structure := ValidStructure(sh, dirs, dir.log);
      if !structure.value then structure
      else
        var listed := Listing(sh, name, structure.log);
        Traced(listed.value || structure.value, listed.log)
  }

  lemma {:induction false} DirFoundNoPause(sh: Shell, paths: seq<string>, log: seq<Event>)
    ensures NoPause(log, DirFound(sh, paths, log).log)
    decreases |paths|
  {
    if paths != [] {
      var probe := Run(sh, DirProbe(paths[0]), true, log);
      RunNoPause(sh, DirProbe(paths[0]), true, log);
      if !Says(probe.value, "found") {
        DirFoundNoPause(sh, paths[1..], probe.log);
        NoPauseTrans(log, probe.log, DirFound(sh, paths[1..], probe.log).log);
      }
    }
  }

  lemma {:induction false} ValidStructureNoPause(sh: Shell, paths: seq<string>, log: seq<Event>)
    ensures NoPause(log, ValidStructure(sh, paths, log).log)
    decreases |paths|
  {
    if paths != [] {
      var probe := StructureCheck(sh, paths[0], log);
      if !probe.value {
        ValidStructureNoPause(sh, paths[1..], probe.log);
        NoPauseTrans(log, probe.log, ValidStructure(sh, paths[1..], probe.log).log);
      }
    }
  }

  lemma ListingNoPause(sh: Shell, name: string, log: seq<Event>)
    ensures NoPause(log, Listing(sh, name, log).log)
  {
    var sudo := Run(sh, SudoListingProbe(name), true, log);
    var plain := Run(sh, PlainListingProbe(name), false, sudo.log);
    RunNoPause(sh, SudoListingProbe(name), true, log);
    RunNoPause(sh, PlainListingProbe(name), false, sudo.log);
    RunNoPause(sh, LxdListingProbe(name), false, plain.log);
    NoPauseTrans(log, sudo.log, plain.log);
    NoPauseTrans(log, plain.log, Run(sh, LxdListingProbe(name), false, plain.log).log);
  }

  /** The existence check only issues probes: it never pauses. */
  lemma ExistsNoPause(sh: Shell, name: string, home: string, log: seq<Event>)
    ensures NoPause(log, Exists(sh, name, home, log).log)
  {
    var dirs := ContainerDirs(name, home);
    var dir := DirFound(sh, dirs, log);
    DirFoundNoPause(sh, dirs, log);
    var structure := ValidStructure(sh, dirs, dir.log);
    ValidStructureNoPause(sh, dirs, dir.log);
    NoPauseTrans(log, dir.log, structure.log);
    ListingNoPause(sh, name, structure.log);
    NoPauseTrans(log, structure.log, Listing(sh, name, structure.log).log);
  }

  /**
   * The verdict is exactly "some directory probe said found, and then some
   * structure probe said yes": the listing probes that follow never change it.
   */
  lemma ExistsVerdict(sh: Shell, name: string, home: string, log: seq<Event>)
    ensures var dirs := ContainerDirs(name, home);
      var dir := DirFound(sh, dirs, log);
      Exists(sh, name, home, log).value == (dir.value && ValidStructure(sh, dirs, dir.log).value)
  {
  }

  /** Outside Admin mode (or without sudo) every probe is refused, so no container ever exists. */
  lemma NothingExistsWithoutAdmin(sh: Shell, name: string, home: string, log: seq<Event>)
    requires !Permitted(sh.mode, sh.caps, true)
    ensures !Exists(sh, name, home, log).value
  {
  }

  /** A first directory probe that ran and echoed "not found" still counts as a found directory. */
  lemma NotFoundEchoFindsDirectory(sh: Shell, name: string, home: string, log: seq<Event>, code: Option<int>, err: string)
    requires Permitted(sh.mode, sh.caps, true)
    requires sh.host(|log| + 1, ArgvFor(DirProbe(ContainerDirs(name, home)[0]), true)) == Exited(code, "not found\n", err)
    ensures DirFound(sh, ContainerDirs(name, home), log).value
  {
    NegativeEchoReadsPositive(code, err);
  }

  /** The directory loop of `check_container_exists_with_executor`. */
  method DirFoundLoop(ex: CommandExecutor, paths: seq<string>, host: Host, log: seq<Event>)
    returns (found: bool, log': seq<Event>)
    ensures Traced(found, log') == DirFound(Shell(ex.mode, ex.caps, host), paths, log)
  {
    ghost var sh := Shell(ex.mode, ex.caps, host);
    found, log' := false, log;
    var i := 0;
    while i < |paths|
      invariant 0 <= i <= |paths|
      invariant DirFound(sh, paths, log) == DirFound(sh, paths[i..], log')
    {
      assert paths[i..][1..] == paths[i + 1..];
      var yes;
      yes, log' := RunProbe(ex, DirProbe(paths[i]), true, "found", host, log');
      if yes {
        found := true;
        break;
      }
      i := i + 1;
    }
  }

  /** The structure loop of `check_container_exists_with_executor`. */
  method ValidStructureLoop(ex: CommandExecutor, paths: seq<string>, host: Host, log: seq<Event>)
    returns (valid: bool, log': seq<Event>)
    ensures Traced(valid, log') == ValidStructure(Shell(ex.mode, ex.caps, host), paths, log)
  {
    ghost var sh := Shell(ex.mode, ex.caps, host);
    valid, log' := false, log;
    var i := 0;
    while i < |paths|
      invariant 0 <= i <= |paths|
      invariant ValidStructure(sh, paths, log) == ValidStructure(sh, paths[i..], log')
    {
      assert paths[i..][1..] == paths[i + 1..];
      var yes;
      yes, log' := StructureProbe(ex, paths[i], host, log');
      if yes {
        valid := true;
        break;
      }
      i := i + 1;
    }
  }

  /** The body of the structure loop: both probes run, and the answer is the structure check's. */
  method StructureProbe(ex: CommandExecutor, path: string, host: Host, log: seq<Event>)
    returns (yes: bool, log': seq<Event>)
    ensures Traced(yes, log') == StructureCheck(Shell(ex.mode, ex.caps, host), path, log)
  {
    var config, rootfs;
    config, log' := ex.RunShell(ConfigProbe(path), true, host, log);
    rootfs, log' := ex.RunShell(RootfsProbe(path), true, host, log');
    yes := config.Ok? && rootfs.Ok?
      && (Contains(config.value.stdout, "yes") || Contains(rootfs.value.stdout, "yes"));
  }

  /** `check_container_exists_with_executor`. */
  method CheckContainerExists(ex: CommandExecutor, name: string, home: string, host: Host, log: seq<Event>)
    returns (exists_: bool, log': seq<Event>)
    ensures Traced(exists_, log') == Exists(Shell(ex.mode, ex.caps, host), name, home, log)
  {
    var dirs := ContainerDirs(name, home);
    var dir;
    dir, log' := DirFoundLoop(ex, dirs, host, log);
    if !dir {
      return false, log';
    }
    var valid;
    valid, log' := ValidStructureLoop(ex, dirs, host, log');
    if !valid {
      return false, log';
    }
    var listed;
    listed, log' := ListingProbes(ex, name, host, log');
    return listed || valid, log';
  }

  /** The listing probes of `check_container_exists_with_executor`. */
  method ListingProbes(ex: CommandExecutor, name: string, host: Host, log: seq<Event>)
    returns (listed: bool, log': seq<Event>)
    ensures Traced(listed, log') == Listing(Shell(ex.mode, ex.caps, host), name, log)
  {
    var output;
    output, log' := ex.RunShell(SudoListingProbe(name), true, host, log);
    if output.Ok? && Contains(output.value.stdout, "found") {
      return true, log';
    }
    output, log' := ex.RunShell(PlainListingProbe(name), false, host, log');
    if output.Ok? && Contains(output.value.stdout, "found") {
      return true, log';
    }
    output, log' := ex.RunShell(LxdListingProbe(name), false, host, log');
    listed := output.Ok? && Contains(output.value.stdout, "found");
  }

  // ------------------------------------------------------------ removal

  function RemovedProbe(path: string): string {
    "test -d " + path + ExistsOrNot
  }

  /** `check_container_fully_removed`: false at the first probe that ran and mentions "exists". */
  function FullyRemoved(sh: Shell, paths: seq<string>, log: seq<Event>): (t: Traced<bool>)
    ensures Gated(sh.mode, sh.caps, log) ==> Gated(sh.mode, sh.caps, t.log)
    ensures !Permitted(sh.mode, sh.caps, true) ==> t.value
    decreases |paths|
  {
    if paths == [] then Traced(true, log)
    else
      var probe := Run(sh, RemovedProbe(paths[0]), true, log);
      if Says(probe.value, "exists") then Traced(false, probe.log)
      else FullyRemoved(sh, paths[1..], probe.log)
  }

  /**
   * Because "not exists" contains "exists", a removal probe that ran and
   * echoed its negative answer already makes the container count as present.
   */
  lemma NotExistsEchoBlocksRemoval(sh: Shell, paths: seq<string>, log: seq<Event>, code: Option<int>, err: string)
    requires Permitted(sh.mode, sh.caps, true) && |paths| > 0
    requires sh.host(|log| + 1, ArgvFor(RemovedProbe(paths[0]), true)) == Exited(code, "not exists\n", err)
    ensures !FullyRemoved(sh, paths, log).value
  {
    NegativeEchoReadsPositive(code, err);
  }

  /** Each probe that could not even start leaves the answer open; when all of them fail, the container counts as removed. */
  lemma {:induction false} AllProbesFailingMeansRemoved(sh: Shell, paths: seq<string>, log: seq<Event>)
    requires forall n: nat, argv: Argv :: sh.host(n, argv).SpawnFailed?
    ensures FullyRemoved(sh, paths, log).value
    decreases |paths|
  {
    if paths != [] {
      var probe := Run(sh, RemovedProbe(paths[0]), true, log);
      assert probe.value.Err?;
      AllProbesFailingMeansRemoved(sh, paths[1..], probe.log);
    }
  }

  /** `check_container_fully_removed`. */
  method CheckContainerFullyRemoved(ex: CommandExecutor, name: string, home: string, host: Host, log: seq<Event>)
    returns (removed: bool, log': seq<Event>)
    ensures Traced(removed, log') == FullyRemoved(Shell(ex.mode, ex.caps, host), ContainerDirs(name, home), log)
  {
    ghost var sh := Shell(ex.mode, ex.caps, host);
    var paths := ContainerDirs(name, home);
    log' := log;
    var i := 0;
    while i < |paths|
      invariant 0 <= i <= |paths|
      invariant FullyRemoved(sh, paths, log) == FullyRemoved(sh, paths[i..], log')
    {
      assert paths[i..][1..] == paths[i + 1..];
      var output;
      output, log' := ex.RunShell(RemovedProbe(paths[i]), true, host, log');
      if output.Ok? && Contains(output.value.stdout, "exists") {
        return false, log';
      }
      i := i + 1;
    }
    return true, log';
  }
}
