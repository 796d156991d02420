/**
 * The command executor (src/pres/executor.rs): the single gate through which
 * the application runs shell commands.  A command marked as requiring admin
 * rights runs as `sudo -n sh -c CMD` and only in Admin mode with sudo
 * available; every other command runs as `sh -lc CMD`.
 *
 * The operating system is a scripted oracle `Host`: given the position of a
 * spawn in the event log and the argument vector, it says how the process
 * ended.  Each call appends to an explicit event log, so the order of the
 * commands an operation issues can be stated and proved.
 */
module Executor {
  import opened Common
  import opened Text

  datatype ActionMode = ReadOnly | Safe | Admin

  /** Exit code (absent when the process was killed by a signal) and captured output. */
  datatype CommandOutput = CommandOutput(exitCode: Option<int>, stdout: string, stderr: string)

  datatype ExecError = NotAllowed(msg: string) | MissingTool(msg: string) | Failed(msg: string)
  {
    /** The user-facing rendering: a per-variant prefix followed by the message. */
    function Display(): (r: string)
      ensures EndsWith(r, msg)
      ensures NotAllowed? <==> StartsWith(r, "Action non autorisée: ")
      ensures MissingTool? <==> StartsWith(r, "Outil manquant: ")
      ensures Failed? <==> StartsWith(r, "Échec: ")
    {
      var prefix := match this
        case NotAllowed(_) => "Action non autorisée: "
        case MissingTool(_) => "Outil manquant: "
        case Failed(_) => "Échec: ";
      var r := prefix + msg;
      assert r[..|prefix|] == prefix && r[0] == prefix[0];
      r
    }
  }

  datatype Result<T> = Ok(value: T) | Err(error: ExecError)

  /** The part of the host capabilities the executor consults. */
  datatype Capabilities = Capabilities(hasSudo: bool)

  /** Program name and arguments of one spawned process. */
  datatype Argv = Argv(program: string, args: seq<string>)

  /** How a spawn ended: the process ran to an exit status, or could not be started. */
  datatype SpawnOutcome = Exited(code: Option<int>, out: string, err: string) | SpawnFailed(reason: string)

  /**
   * One entry of the event log: a command handed to the executor (with its
   * admin flag), a process actually spawned, or a pause of the calling thread.
   */
  datatype Event = Request(cmd: string, admin: bool) | Spawn(argv: Argv) | Sleep(millis: nat)

  /** The operating system, scripted: position of the spawn in the log and argv to outcome. */
  type Host = (nat, Argv) -> SpawnOutcome

  /** A value together with the event log after computing it. */
  datatype Traced<T> = Traced(value: T, log: seq<Event>)

  const AdminRefused := "Action admin refusée: passez en mode Admin"
  const SudoMissing := "sudo est requis en mode Admin mais introuvable"
  const SpawnFailedSudo := "Impossible d'exécuter la commande avec sudo: "
  const SpawnFailedPlain := "Impossible d'exécuter la commande: "

  /** The executor lets the command through. */
  predicate Permitted(mode: ActionMode, caps: Capabilities, requiresAdmin: bool) {
    !requiresAdmin || (mode == Admin && caps.hasSudo)
  }

  /** The process started for a permitted command. */
  function ArgvFor(cmd: string, requiresAdmin: bool): Argv {
    if requiresAdmin then Argv("sudo", ["-n", "sh", "-c", cmd]) else Argv("sh", ["-lc", cmd])
  }

  /**
   * The log discipline of the executor: every spawned process directly
   * follows the request it serves, that request was permitted in `mode`,
   * and the process is the one `ArgvFor` prescribes.
   */
  predicate Gated(mode: ActionMode, caps: Capabilities, log: seq<Event>) {
    forall i :: 0 <= i < |log| && log[i].Spawn? ==>
      0 < i && log[i - 1].Request? && Permitted(mode, caps, log[i - 1].admin)
      && log[i].argv == ArgvFor(log[i - 1].cmd, log[i - 1].admin)
  }

  /** Appending pauses keeps the log discipline. */
  lemma GatedSleep(mode: ActionMode, caps: Capabilities, log: seq<Event>, ms: nat)
    ensures Gated(mode, caps, log) ==> Gated(mode, caps, log + [Sleep(ms)])
  {
  }

  /** Under the discipline, no `sudo` process is ever started outside Admin mode. */
  lemma {:induction false} NoSudoOutsideAdmin(mode: ActionMode, caps: Capabilities, log: seq<Event>, i: nat)
    requires Gated(mode, caps, log) && mode != Admin
    requires i < |log| && log[i].Spawn?
    ensures log[i].argv.program == "sh"
    ensures |log[i].argv.args| > 0 && log[i].argv.args[0] == "-lc"
  {
    assert !log[i - 1].admin;
  }

  /** What `run_shell` does: the gate, then the spawn, then the captured output. */
  function Execute(mode: ActionMode, caps: Capabilities, cmd: string, requiresAdmin: bool,
                   host: Host, log: seq<Event>): (t: Traced<Result<CommandOutput>>)
    // the request is always recorded; a spawn follows it exactly when it is permitted
    ensures Permitted(mode, caps, requiresAdmin) ==>
      t.log == log + [Request(cmd, requiresAdmin), Spawn(ArgvFor(cmd, requiresAdmin))]
    ensures !Permitted(mode, caps, requiresAdmin) ==> t.log == log + [Request(cmd, requiresAdmin)]
    // refusals: the mode is checked before the presence of sudo
    ensures requiresAdmin && mode != Admin ==> t.value == Err(NotAllowed(AdminRefused))
    ensures requiresAdmin && mode == Admin && !caps.hasSudo ==> t.value == Err(MissingTool(SudoMissing))
    // a permitted command succeeds exactly when its process could be started,
    // and then the exit code and both streams are passed on unchanged
    ensures Permitted(mode, caps, requiresAdmin) ==>
      var o := host(|log| + 1, ArgvFor(cmd, requiresAdmin));
      (t.value.Ok? <==> o.Exited?)
      && (o.Exited? ==> t.value.value == CommandOutput(o.code, o.out, o.err))
      && (o.SpawnFailed? ==> t.value.error.Failed?)
    ensures Gated(mode, caps, log) ==> Gated(mode, caps, t.log)
  {
    var requested := log + [Request(cmd, requiresAdmin)];
    if requiresAdmin && mode != Admin then
      Traced(Err(NotAllowed(AdminRefused)), requested)
    else if requiresAdmin && !caps.hasSudo then
      Traced(Err(MissingTool(SudoMissing)), requested)
    else
      var argv := ArgvFor(cmd, requiresAdmin);
      var spawned := requested + [Spawn(argv)];
      match host(|requested|, argv)
      case Exited(code, out, err) => Traced(Ok(CommandOutput(code, out, err)), spawned)
      case SpawnFailed(reason) =>
        var prefix := if requiresAdmin then SpawnFailedSudo else SpawnFailedPlain;
        Traced(Err(Failed(prefix + reason)), spawned)
  }

  /** A command that does not require admin rights is never refused, whatever the mode. */
  lemma PlainCommandsNeverRefused(mode: ActionMode, caps: Capabilities, cmd: string, host: Host, log: seq<Event>)
    ensures var t := Execute(mode, caps, cmd, false, host, log);
      t.value.Ok? || t.value.error.Failed?
  {
  }

  /** The executor: an action mode the application changes, and fixed capabilities. */
  class CommandExecutor {
    var mode: ActionMode
    const caps: Capabilities

    constructor (mode: ActionMode, caps: Capabilities)
      ensures this.mode == mode && this.caps == caps
    {
      this.mode := mode;
      this.caps := caps;
    }

    method SetMode(mode: ActionMode)
      modifies this
      ensures this.mode == mode
    {
      this.mode := mode;
    }

    function Mode(): ActionMode
      reads this
    {
      mode
    }

    /** Runs `cmd` through the gate in the current mode. */
    method RunShell(cmd: string, requiresAdmin: bool, host: Host, log: seq<Event>)
      returns (r: Result<CommandOutput>, log': seq<Event>)
      ensures Traced(r, log') == Execute(mode, caps, cmd, requiresAdmin, host, log)
    {
      var t := Execute(mode, caps, cmd, requiresAdmin, host, log);
      r, log' := t.value, t.log;
    }
  }
}
