/**
 * Shared vocabulary of the LXC model (src/deployment/lxc.rs): every probe goes
 * through the command executor, and its verdict is read from the captured
 * standard output with a plain substring test.
 */
module LxcCommon {
  import opened Common
  import opened Text
  import opened Executor

  /** What a call through the executor depends on: its mode, the host capabilities and the scripted host. */
  datatype Shell = Shell(mode: ActionMode, caps: Capabilities, host: Host)

  /** `executor.run_shell(cmd, admin)`. */
  function Run(sh: Shell, cmd: string, admin: bool, log: seq<Event>): Traced<Result<CommandOutput>> {
    Execute(sh.mode, sh.caps, cmd, admin, sh.host, log)
  }

  /** `if let Ok(o) = r { o.stdout.contains(word) }`: the probe ran and its output holds `word` anywhere. */
  predicate Says(r: Result<CommandOutput>, word: string) {
    r.Ok? && Contains(r.value.stdout, word)
  }

  /** A probe as the loops run it: through the executor, answering whether it ran and mentions `word`. */
  method RunProbe(ex: CommandExecutor, cmd: string, admin: bool, word: string, host: Host, log: seq<Event>)
    returns (yes: bool, log': seq<Event>)
    ensures var t := Run(Shell(ex.mode, ex.caps, host), cmd, admin, log);
      yes == Says(t.value, word) && log' == t.log
  {
    var output;
    output, log' := ex.RunShell(cmd, admin, host, log);
    yes := output.Ok? && Contains(output.value.stdout, word);
  }

  /** The commands handed to the executor, in order. */
  function Requests(log: seq<Event>): (r: seq<string>)
    ensures |r| <= |log|
  {
    if log == [] then []
    else Requests(log[..|log| - 1]) + (if log[|log| - 1].Request? then [log[|log| - 1].cmd] else [])
  }

  /** The pauses taken, in order. */
  function Sleeps(log: seq<Event>): (r: seq<nat>)
    ensures |r| <= |log|
  {
    if log == [] then []
    else Sleeps(log[..|log| - 1]) + (if log[|log| - 1].Sleep? then [log[|log| - 1].millis] else [])
  }

  lemma {:induction false} RequestsAppend(a: seq<Event>, b: seq<Event>)
    ensures Requests(a + b) == Requests(a) + Requests(b)
    ensures Sleeps(a + b) == Sleeps(a) + Sleeps(b)
    decreases |b|
  {
    if b != [] {
      var b' := b[..|b| - 1];
      assert (a + b)[..|a + b| - 1] == a + b';
      RequestsAppend(a, b');
    } else {
      assert a + b == a;
    }
  }

  /** The log of a single event. */
  lemma SingleEvent(e: Event)
    ensures Requests([e]) == (if e.Request? then [e.cmd] else [])
    ensures Sleeps([e]) == (if e.Sleep? then [e.millis] else [])
  {
    assert [e][..0] == [];
  }

  /** Every call records exactly its own command and takes no pause. */
  lemma RunRequests(sh: Shell, cmd: string, admin: bool, log: seq<Event>)
    ensures Requests(Run(sh, cmd, admin, log).log) == Requests(log) + [cmd]
    ensures Sleeps(Run(sh, cmd, admin, log).log) == Sleeps(log)
    ensures log <= Run(sh, cmd, admin, log).log
  {
    var t := Run(sh, cmd, admin, log);
    if Permitted(sh.mode, sh.caps, admin) {
      assert t.log == log + [Request(cmd, admin), Spawn(ArgvFor(cmd, admin))];
      RequestThenSpawn(log, cmd, admin, ArgvFor(cmd, admin));
    } else {
      assert t.log == log + [Request(cmd, admin)];
      RequestOnly(log, cmd, admin);
    }
  }

  lemma RequestOnly(log: seq<Event>, cmd: string, admin: bool)
    ensures Requests(log + [Request(cmd, admin)]) == Requests(log) + [cmd]
    ensures Sleeps(log + [Request(cmd, admin)]) == Sleeps(log)
  {
    RequestsAppend(log, [Request(cmd, admin)]);
    SingleEvent(Request(cmd, admin));
  }

  lemma RequestThenSpawn(log: seq<Event>, cmd: string, admin: bool, argv: Argv)
    ensures Requests(log + [Request(cmd, admin), Spawn(argv)]) == Requests(log) + [cmd]
    ensures Sleeps(log + [Request(cmd, admin), Spawn(argv)]) == Sleeps(log)
  {
    var requested := log + [Request(cmd, admin)];
    assert log + [Request(cmd, admin), Spawn(argv)] == requested + [Spawn(argv)];
    RequestOnly(log, cmd, admin);
    RequestsAppend(requested, [Spawn(argv)]);
    SingleEvent(Spawn(argv));
  }

  /** The log only grew, and took no pause on the way. */
  predicate NoPause(log: seq<Event>, log': seq<Event>) {
    log <= log' && Sleeps(log') == Sleeps(log)
  }

  lemma NoPauseTrans(a: seq<Event>, b: seq<Event>, c: seq<Event>)
    requires NoPause(a, b) && NoPause(b, c)
    ensures NoPause(a, c)
  {
  }

  /** A call through the executor takes no pause. */
  lemma RunNoPause(sh: Shell, cmd: string, admin: bool, log: seq<Event>)
    ensures NoPause(log, Run(sh, cmd, admin, log).log)
  {
    RunRequests(sh, cmd, admin, log);
  }

  /** A pause records no command. */
  lemma SleepRequests(log: seq<Event>, ms: nat)
    ensures Requests(log + [Sleep(ms)]) == Requests(log)
    ensures Sleeps(log + [Sleep(ms)]) == Sleeps(log) + [ms]
  {
    assert (log + [Sleep(ms)])[..|log|] == log;
  }

  /** An admin probe outside Admin mode is refused without reaching the host. */
  lemma AdminProbeRefused(sh: Shell, cmd: string, log: seq<Event>)
    requires !Permitted(sh.mode, sh.caps, true)
    ensures Run(sh, cmd, true, log).value.Err?
    ensures Run(sh, cmd, true, log).log == log + [Request(cmd, true)]
  {
  }

  /**
   * The existence probes echo 'found' or 'not found' (or 'exists' / 'not
   * exists') and test for the positive word, which the negative echo also
   * contains: a probe that ran at all reads as positive.
   */
  lemma NegativeEchoReadsPositive(code: Option<int>, err: string)
    ensures Says(Ok(CommandOutput(code, "not found\n", err)), "found")
    ensures Says(Ok(CommandOutput(code, "not exists\n", err)), "exists")
  {
    ContainsInfix("not ", "found", "\n");
    assert "not " + "found" + "\n" == "not found\n";
    ContainsInfix("not ", "exists", "\n");
    assert "not " + "exists" + "\n" == "not exists\n";
  }

  /** `std::env::var("HOME").unwrap_or_default()`. */
  function HomeOrDefault(home: Option<string>): string {
    match home
    case Some(h) => h
    case None => ""
  }

  /** The three places a container directory may live, in probing order. */
  function ContainerDirs(name: string, home: string): seq<string> {
    ["/var/lib/lxc/" + name, home + "/.local/share/lxc/" + name, "/var/lib/lxd/containers/" + name]
  }

  /** The three places a container configuration may live, in probing order. */
  function ConfigPaths(name: string, home: string): seq<string> {
    ["/var/lib/lxc/" + name + "/config", "/var/lib/lxd/containers/" + name + "/config",
     home + "/.local/share/lxc/" + name + "/config"]
  }
}
