# RMDB-TUI core, modelled in Dafny

RMDB-TUI is a terminal application that installs RMDB and manages the LXC
containers it runs in. This project models the parts of it that decide
things:

- the command executor, which gates every shell command on the action mode
  (read-only, safe or admin) and on the presence of `sudo`;
- the LXC deployment operations: existence and removal checks, creation with
  its fallback and re-verification, start and stop with configuration
  discovery and retry, destroy, ghost cleanup, the status readers, the
  verification report, and the merged container listing;
- the sudo keep-alive guard and its two flags;
- the administrator prompt, the mode choice at boot, menu navigation, the
  container-name entry and the destroy outcome test of the main application;
- the installer's version comparison, toolchain checks, Go architecture
  mapping, configuration builders and installation dispatch;
- distribution detection and package-manager commands;
- keyboard decoding, string truncation and terminal geometry.

## How the outside world appears

- **Processes.** Processes started through the executor are answered by a
  scripted oracle `Executor.Host`. It maps the position of the spawn in an
  explicit event log, plus the argument vector, to how the process ended.
- **The event log.** Every operation returns its value together with the
  extended log (`Executor.Traced`). The log records each command handed to
  the executor (`Request`), each process actually started (`Spawn`) and each
  pause (`Sleep`). This makes the order and the count of commands statable.
- **Log discipline.** `Executor.Gated` says that a process is only ever
  started right after a permitted request, with the argument vector the
  executor prescribes. Every LXC operation's spec function preserves it.
- **The password prompt.** It starts `sudo` directly, not through the
  executor. It has its own oracle, `App.SudoHost`, keyed by position,
  arguments and standard input, and its own log of `sudo` runs and pauses.
- **Keys.** The keyboard is a finite sequence of key reads. The source
  blocks on the next key forever; the model needs a way for the keys to run
  out. The results `KeysExhausted`, `KeysRanOut` and `Undecided` are that
  case, and nothing in the source corresponds to them.
- **Other inputs.** File contents and file existence (`/etc/os-release`,
  `read_dir`, `Path::exists`) are parameters. So are the `HOME` variable, the
  programs whose `--version` probe starts, and the `tput` readings.
- **Methods and spec functions.** Each method that mirrors a Rust function
  with loops or mutable state is proved equal to a recursive spec function.
  The properties are proved about those functions.

Some behaviours of the source are modelled as written, though they look
unintended:

- **Negative echoes read as positive.** Several probes echo `found` /
  `not found` (or `exists` / `not exists`) and then test for the positive
  word, which the negative echo also contains. So a probe that ran at all
  reads as positive (`LxcCommon.NegativeEchoReadsPositive`,
  `LxcExistence.NotFoundEchoFindsDirectory`,
  `LxcExistence.NotExistsEchoBlocksRemoval`,
  `LxcLifecycle.FirstCandidateWins`).
- **Any "not found" counts for destroy.** The destroy outcome test accepts
  any error output containing "not found". That includes the shell's
  complaint about a missing `lxc-destroy` (`App.NotFoundCounts`).
- **No `q` in typed text.** The keyboard decodes `q` as Quit, so a password
  or a container name typed at the keyboard can never contain a `q`
  (`App.TypedTextHasNoQ`).
- **Short terminals skip the mode choice.** On a terminal of 16 lines or
  fewer, `boot_sequence` returns before the mode question. Boot then
  succeeds in the current mode, which is Safe (`App.MainApp.BootSequence`).

## Model

| member | source | states |
|---|---|---|
| Executor.ExecError.Display | src/pres/executor.rs:25-33 | the rendering ends with the message and starts with the prefix of exactly its own variant |
| Executor.Execute | src/pres/executor.rs:53-92 | the request is always logged and a spawn follows exactly when permitted; NotAllowed outside Admin takes precedence over MissingTool without sudo; a permitted command succeeds iff its process started, passing the exit code and both streams on unchanged, and a spawn failure is Failed; the log discipline is preserved |
| Executor.NoSudoOutsideAdmin | src/pres/executor.rs:53-82 | under the log discipline, outside Admin mode every spawned process is `sh -lc`, never `sudo` |
| Executor.PlainCommandsNeverRefused | src/pres/executor.rs:53-54 | a command not requiring admin is never refused in any mode, ReadOnly included: it either runs or fails to spawn |
| Executor.GatedSleep | src/pres/executor.rs:53-92 | pauses between executor calls keep the log discipline |
| Executor.CommandExecutor.constructor | src/pres/executor.rs:41-43 | the executor starts with the given mode and capabilities |
| Executor.CommandExecutor.SetMode | src/pres/executor.rs:45-51 | after `set_mode(m)` the mode read back is `m` |
| Executor.CommandExecutor.RunShell | src/pres/executor.rs:53-92 | the call's result and log are those of the executor's gate in the current mode |
| LxcCommon.AdminProbeRefused | src/pres/executor.rs:53-64 | an admin probe the gate does not permit (outside Admin mode, or without sudo) is refused with only its request logged, never reaching the host |
| LxcCommon.NegativeEchoReadsPositive | src/deployment/lxc.rs:272-274 | the outputs "not found" and "not exists" pass the tests for "found" and "exists" |
| LxcExistence.DirFound | src/deployment/lxc.rs:270-279 | the directory loop keeps the log discipline and never finds anything when admin probes are not permitted |
| LxcExistence.ValidStructure | src/deployment/lxc.rs:288-305 | the structure loop keeps the log discipline and never answers yes when admin probes are not permitted |
| LxcExistence.Listing | src/deployment/lxc.rs:315-336 | the three listing probes keep the log discipline |
| LxcExistence.Exists | src/deployment/lxc.rs:261-342 | the whole existence check keeps the log discipline |
| LxcExistence.DirFoundNoPause | src/deployment/lxc.rs:270-279 | the directory loop only extends the log and never pauses |
| LxcExistence.ValidStructureNoPause | src/deployment/lxc.rs:288-305 | the structure loop only extends the log and never pauses |
| LxcExistence.ListingNoPause | src/deployment/lxc.rs:315-336 | the listing probes only extend the log and never pause |
| LxcExistence.ExistsNoPause | src/deployment/lxc.rs:261-342 | the existence check only extends the log and never pauses |
| LxcExistence.ExistsVerdict | src/deployment/lxc.rs:261-342 | the answer is exactly "a directory probe said found, then a structure probe said yes"; the listing probes never change it |
| LxcExistence.NothingExistsWithoutAdmin | src/deployment/lxc.rs:271-284 | outside Admin mode, or without sudo, no container ever exists |
| LxcExistence.NotFoundEchoFindsDirectory | src/deployment/lxc.rs:272-276 | a first directory probe that echoed "not found" counts as a found directory |
| LxcCommon.RunProbe | src/deployment/lxc.rs:887-891 | a probe run through the executor answers whether it ran and its output mentions the word, and leaves the log the executor model leaves |
| LxcExistence.DirFoundLoop | src/deployment/lxc.rs:270-279 | the loop's answer and log are those of the directory-loop function |
| LxcExistence.StructureCheck | src/deployment/lxc.rs:292-303 | one directory's config and rootfs probes keep the log discipline, never pause, and never answer yes when admin probes are not permitted |
| LxcExistence.StructureProbe | src/deployment/lxc.rs:292-303 | the loop body's answer and log are those of the one-directory structure check |
| LxcExistence.ValidStructureLoop | src/deployment/lxc.rs:288-305 | the loop's answer and log are those of the structure-loop function |
| LxcExistence.ListingProbes | src/deployment/lxc.rs:315-336 | the probes' answer and log are those of the listing function |
| LxcExistence.CheckContainerExists | src/deployment/lxc.rs:261-342 | the method's answer and log are those of the existence function |
| LxcExistence.FullyRemoved | src/deployment/lxc.rs:345-362 | the removal check keeps the log discipline and answers "removed" whenever admin probes are not permitted |
| LxcExistence.NotExistsEchoBlocksRemoval | src/deployment/lxc.rs:353-356 | a first probe that echoed "not exists" makes the container count as still present |
| LxcExistence.AllProbesFailingMeansRemoved | src/deployment/lxc.rs:352-361 | when no probe can even start, the container counts as removed |
| LxcExistence.CheckContainerFullyRemoved | src/deployment/lxc.rs:345-362 | the loop's answer and log are those of the removal function |
| LxcCreate.Attempts | src/deployment/lxc.rs:186-228 | the two creation attempts keep the log discipline |
| LxcCreate.AttemptsRequests | src/deployment/lxc.rs:186-228 | the `download` command is issued iff the first attempt failed or exited other than 0; the answer is the last attempt's result; no pause is taken |
| LxcCreate.Confirm | src/deployment/lxc.rs:236-249 | the re-verification loop keeps the log discipline |
| LxcCreate.PauseSchedule | src/deployment/lxc.rs:246-248 | after failed checks the pauses are 500 times the check number, one fewer than the checks remaining, none after the fifth |
| LxcCreate.ConfirmPauses | src/deployment/lxc.rs:236-249 | the loop's pauses are a prefix of the schedule, and the whole schedule when no check finds the container |
| LxcCreate.ConfirmStopsAtFirstSuccess | src/deployment/lxc.rs:238-242 | once a check finds the container, no further check or pause follows |
| LxcCreate.Create | src/deployment/lxc.rs:153-257 | container creation keeps the log discipline |
| LxcCreate.MissingToolFirst | src/deployment/lxc.rs:156-162 | without `lxc-create` the answer is MissingTool with the install command, and nothing at all is issued |
| LxcCreate.DuplicateRejectedBeforeCreate | src/deployment/lxc.rs:173-178 | an existing container is refused as Failed with only the existence probes issued: no `lxc-create` |
| LxcCreate.ResultIsLastAttempt | src/deployment/lxc.rs:186-257 | past the checks the answer is the last attempt's result, whatever the re-verification found; re-verification starts with the 500 ms pause and happens only after an exit 0 |
| LxcCreate.RhelSetupFailureStops | src/deployment/lxc.rs:181-184 | a failing RHEL configuration step on RHEL or CentOS ends creation with its error before any `lxc-create` |
| LxcCreate.CreationAttempts | src/deployment/lxc.rs:186-228 | the method's result and log are those of the attempts function |
| LxcCreate.ConfirmLoop | src/deployment/lxc.rs:236-249 | the `for attempt in 1..=5` loop's answer and log are those of the confirmation function |
| LxcCreate.CreateContainer | src/deployment/lxc.rs:153-257 | the method's result and log are those of the creation function |
| LxcLifecycle.FindConfig | src/deployment/lxc.rs:386-403 | the configuration search only extends the log, never pauses, keeps the discipline, returns one of the candidates, and finds none outside Admin mode |
| LxcLifecycle.FirstCandidateWins | src/deployment/lxc.rs:393-398 | any first probe that ran and mentions "found" selects the first candidate, the negative echo included |
| LxcLifecycle.FindConfigPath | src/deployment/lxc.rs:879-896 | the loop's answer and log are those of the configuration-search function |
| LxcLifecycle.Retry | src/deployment/lxc.rs:422-437 | the retry keeps the log discipline |
| LxcLifecycle.Lifecycle | src/deployment/lxc.rs:419-437 | a start or stop command with its possible retry keeps the log discipline |
| LxcLifecycle.LifecycleOutcome | src/deployment/lxc.rs:419-437 | the answer is the first command's unless it exited other than 0 with no configuration found and the check said "exists", in which case it is the explicit retry's |
| LxcLifecycle.RetryRequests | src/deployment/lxc.rs:422-437 | the retry issues the configuration check and, iff that said "exists", the explicit command, with no pause |
| LxcLifecycle.LifecycleRequests | src/deployment/lxc.rs:546-574 | the commands issued are the first, then the check and the explicit retry as far as each applies; no pause |
| LxcLifecycle.StartStop | src/deployment/lxc.rs:405-448 | the whole start or stop keeps the log discipline |
| LxcLifecycle.StartStopRefusedWithoutAdmin | src/deployment/lxc.rs:405-448 | outside Admin mode start and stop are refused with NotAllowed, and in Admin mode without sudo with MissingTool |
| LxcLifecycle.RunLifecycle | src/deployment/lxc.rs:419-437 | the method's result and log are those of the command-and-retry function |
| LxcLifecycle.StartContainer | src/deployment/lxc.rs:898-927 | the method's result and log are those of the start function |
| LxcLifecycle.StopContainer | src/deployment/lxc.rs:929-957 | the method's result and log are those of the stop function |
| LxcLifecycle.DestroyContainer | src/deployment/lxc.rs:576-579 | destroy issues exactly one command, `lxc-destroy -n NAME` |
| LxcLifecycle.DestroyByName | src/deployment/lxc.rs:960-968 | destroy by name keeps the log discipline |
| LxcLifecycle.StartStopLog | src/deployment/lxc.rs:898-957 | start and stop only extend the log and never pause |
| LxcLifecycle.DestroyByNameLog | src/deployment/lxc.rs:960-968 | the one-second pause is the only pause, and the forced destroy is the last command issued |
| LxcLifecycle.DestroyIgnoresStop | src/deployment/lxc.rs:962-967 | whatever the stop did, the answer is the forced destroy's own outcome from the host |
| LxcLifecycle.DestroyContainerByName | src/deployment/lxc.rs:960-968 | the method's result and log are those of the destroy-by-name function |
| LxcLifecycle.RunAll | src/deployment/lxc.rs:373-375 | running the cleanup commands keeps the log discipline |
| LxcLifecycle.RunAllRequests | src/deployment/lxc.rs:373-375 | each cleanup command is handed to the executor, in order |
| LxcLifecycle.CleanupGhostContainer | src/deployment/lxc.rs:365-383 | the answer is always Ok with exit 0 and empty output, after issuing all three commands in order |
| LxcLifecycle.ReadStatus | src/deployment/lxc.rs:1032-1066 | a refused or failed probe yields no status; a yielded status is never empty, never the UNKNOWN echo when read verbatim, and is RUNNING, STOPPED or FROZEN for the normalised, attach and exit-code readings |
| LxcLifecycle.Cascade | src/deployment/lxc.rs:824-875 | the answer is never empty, and the log discipline is kept |
| LxcLifecycle.CascadeAnswers | src/deployment/lxc.rs:824-875 | the answer is UNKNOWN or a status that one of the probes can yield |
| LxcLifecycle.Status | src/deployment/lxc.rs:1026-1070 | a status reader always answers Ok with a non-empty status |
| LxcLifecycle.CascadeOfFixed | src/deployment/lxc.rs:1026-1070 | a cascade whose probes can only read RUNNING, STOPPED or FROZEN answers one of those or UNKNOWN |
| LxcLifecycle.OwnStatusValues | src/deployment/lxc.rs:1026-1070 | `get_container_status` answers RUNNING, STOPPED, FROZEN or UNKNOWN, or else the trimmed line lxc-info printed |
| LxcLifecycle.CascadeUnknownWhenAllFail | src/deployment/lxc.rs:874 | when no probe can start, the status is UNKNOWN |
| LxcLifecycle.CascadeSkipsRefused | src/deployment/lxc.rs:827-832 | a probe the executor refuses is skipped and the next one is tried |
| LxcLifecycle.LsCheck | src/deployment/lxc.rs:470-487 | the lxc-ls message is added iff the plain probe answered without "found"; a plain "found" passes the stage |
| LxcLifecycle.ListCheck | src/deployment/lxc.rs:490-497 | the stage passes iff `lxc list` said "found"; a message only when it answered otherwise |
| LxcLifecycle.FileSystemCheck | src/deployment/lxc.rs:500-512 | the stage passes iff one of the two directories exists, and adds a message iff it fails |
| LxcLifecycle.StatusCheck | src/deployment/lxc.rs:515-526 | the stage passes iff the status is RUNNING, and adds a message iff it fails |
| LxcLifecycle.AttachCheck | src/deployment/lxc.rs:529-541 | the stage passes iff lxc-attach exited 0, and adds exactly one message iff it fails |
| LxcLifecycle.Report | src/deployment/lxc.rs:451-544 | the record holds each stage's flag; a non-existing container carries its message; an empty error list vouches for existence, file system, running and attach |
| LxcLifecycle.LsStage | src/deployment/lxc.rs:470-487 | the stage's outcome and log are those of the lxc-ls stage function |
| LxcLifecycle.ListStage | src/deployment/lxc.rs:490-497 | the stage's outcome and log are those of the lxc-list stage function |
| LxcLifecycle.GetContainerStatus | src/deployment/lxc.rs:1026-1070 | the three probes, run one after the other with early returns, answer what the status reader's cascade answers, on the same log |
| LxcLifecycle.InfoStep | src/deployment/lxc.rs:1028-1037 | the lxc-info step yields its trimmed line unless it is UNKNOWN or empty, as the verbatim reading does |
| LxcLifecycle.ListStep | src/deployment/lxc.rs:1039-1056 | the lxc list step yields the first of RUNNING, STOPPED, FROZEN in the upper-cased line, as the normalised reading does |
| LxcLifecycle.AttachStep | src/deployment/lxc.rs:1058-1066 | the privileged lxc-attach step yields RUNNING exactly on exit 0 |
| LxcLifecycle.StatusVerdict | src/deployment/lxc.rs:515-526 | passed iff the status is RUNNING; otherwise exactly one message, ending with the status |
| LxcLifecycle.StatusStage | src/deployment/lxc.rs:515-526 | runs the status reader, then records RUNNING as passed and anything else with its message, exactly as the status stage function |
| LxcLifecycle.AttachStage | src/deployment/lxc.rs:529-541 | the stage's outcome and log are those of the attach stage function |
| LxcLifecycle.ListingStages | src/deployment/lxc.rs:470-497 | the lxc-ls outcome is the lxc-ls stage's, and the lxc list outcome and final log are the lxc list stage's on the log lxc-ls left; the log discipline is kept |
| LxcLifecycle.ServiceStages | src/deployment/lxc.rs:515-541 | the status outcome is the status stage's, and the attach outcome and final log are the attach stage's on the log the status stage left; each adds a message exactly when it fails; the log discipline is kept |
| LxcLifecycle.Verification | src/deployment/lxc.rs:451-544 | the report of the six stages chained on the log: a non-existing container carries its message; the file-system flag is exactly "a directory exists"; an empty error list vouches for existence, file system, running and attach; the log discipline is kept |
| LxcLifecycle.VerificationFlags | src/deployment/lxc.rs:463-541 | each flag is its stage's outcome: the existence verdict, the lxc-ls stage, "found" from lxc list, RUNNING from the status reader, exit 0 from lxc-attach |
| LxcLifecycle.VerifyContainer | src/deployment/lxc.rs:451-544 | the report is always Ok, and the report and the final log are exactly the chained stages' |
| LxcList.AddKeepsCollected | src/deployment/lxc.rs:585-586 | collecting a new name keeps `found_names` equal to the names collected, each once |
| LxcList.SudoPassExample | src/deployment/lxc.rs:593-626 | the privileged pass over "web01", the shell's complaint, a blank line and "db-2" takes exactly web01 and db-2 |
| LxcList.BlankDropped | src/deployment/lxc.rs:596-618 | a blank line is not taken for a name |
| LxcList.ErrorLineDropped | src/deployment/lxc.rs:596-618 | the shell's complaint about a missing lxc-ls is not taken for a name |
| LxcList.CleanPick | src/deployment/lxc.rs:596-618 | a name under 50 characters of lower-case letters, digits and inner dashes, without `m`, `n` or `r` and not starting with `s` (so free of every error word), is taken as it is |
| LxcList.CleanName | src/deployment/lxc.rs:596-618 | a name of that shape is its own trim and passes the privileged filter |
| LxcList.ForeignChar | src/deployment/lxc.rs:600 | a line without surrounding blanks that holds a character other than alphanumerics, `-` and `_` is dropped by the privileged pass |
| LxcList.CsvRows | src/deployment/lxc.rs:660-735 | each CSV output line is classified on its own, in order |
| LxcList.AddCollects | src/deployment/lxc.rs:619-623 | collecting a name not yet found keeps the listing consistent and only appends |
| LxcList.AddProbedCollects | src/deployment/lxc.rs:619-623 | collecting a name adds exactly that name, whatever status the lookup reports |
| LxcList.LsLinesCollect | src/deployment/lxc.rs:596-625 | an lxc-ls loop only appends, and collects exactly the accepted names it had not found yet |
| LxcList.CsvLinesCollect | src/deployment/lxc.rs:660-735 | the lxc list loop only appends, and collects exactly the names of its rows not found yet |
| LxcList.CsvRowFields | src/deployment/lxc.rs:660-735 | a row with at least two fields and an accepted name gives that name with the upper-cased second field; the NAME header is skipped |
| LxcList.CsvFieldsNeedNoLookup | src/deployment/lxc.rs:660-735 | when every row has its status field, the lxc list loop issues no command |
| LxcList.DirLinesCollect | src/deployment/lxc.rs:744-794 | a privileged directory loop only appends, and only collects accepted names not found yet |
| LxcList.EntryLinesCollect | src/deployment/lxc.rs:797-814 | the read_dir loop collects exactly the non-hidden entries with a config or rootfs not found yet |
| LxcList.LsPassCollects | src/deployment/lxc.rs:593-651 | an lxc-ls pass collects exactly the accepted names of its output, when the command ran |
| LxcList.CsvPassCollects | src/deployment/lxc.rs:653-738 | the lxc list pass collects its rows' names only when `lxc` exists and the whole output is free of error words |
| LxcList.BasePassCollects | src/deployment/lxc.rs:740-815 | a base-directory pass only adds, and collects every accepted read_dir entry |
| LxcList.PassesCollect | src/deployment/lxc.rs:584-815 | the four passes never collect a name twice; every name the privileged lxc-ls accepted and every accepted read_dir entry is collected |
| LxcList.Insert | src/deployment/lxc.rs:818 | inserting into the sorted list is a permutation of the list plus the element |
| LxcList.InsertSorted | src/deployment/lxc.rs:818 | inserting into a list sorted by name keeps it sorted |
| LxcList.SortByName | src/deployment/lxc.rs:818 | the sort is a permutation of its input |
| LxcList.SortByNameSorted | src/deployment/lxc.rs:818 | the sort's output is sorted by name |
| LxcList.SortDistinct | src/deployment/lxc.rs:818 | sorting keeps the names distinct |
| LxcList.SortedDistinctIsStrict | src/deployment/lxc.rs:815-820 | sorted with distinct names means strictly ascending |
| LxcList.ListAllContract | src/deployment/lxc.rs:584-821 | the listing always succeeds, is a permutation of what was collected, repeats no name, is strictly ascending by name, and contains every accepted privileged lxc-ls name and read_dir entry |
| LxcList.Collect | src/deployment/lxc.rs:619-623 | the step's listing and log are those of the collect function |
| LxcList.ScanLsLines | src/deployment/lxc.rs:596-625 | the loop's listing and log are those of the lxc-ls loop function |
| LxcList.RunLsPass | src/deployment/lxc.rs:593-651 | the pass's listing and log are those of the lxc-ls pass function |
| LxcList.CollectRow | src/deployment/lxc.rs:700-733 | one row collects its new name (with its field status, or the looked-up one) or nothing, so the rest of the loop goes on as the CSV loop function says |
| LxcList.ScanCsvLines | src/deployment/lxc.rs:660-735 | the loop's listing and log are those of the CSV loop function |
| LxcList.RunCsvPass | src/deployment/lxc.rs:653-738 | the pass's listing and log are those of the lxc list pass function |
| LxcList.ProbeContainer | src/deployment/lxc.rs:771-782 | the probe's answer and log are those of `is_container`, the rootfs probe only after a config probe that did not say yes |
| LxcList.ScanDirLines | src/deployment/lxc.rs:744-794 | the loop's listing and log are those of the directory loop function |
| LxcList.ScanEntries | src/deployment/lxc.rs:797-814 | the loop's listing and log are those of the read_dir loop function |
| LxcList.RunBasePass | src/deployment/lxc.rs:740-815 | the pass's listing and log are those of the base-directory pass function |
| LxcList.ListAllContainers | src/deployment/lxc.rs:584-821 | the method's result and log are those of the listing function, with statuses from `get_container_status_by_name` |
| SudoSession.ReauthMeansUnclearedFailure | src/pres/sudo.rs:26-36 | the reauth flag is up exactly when some probe of the running worker failed and no clear came after it |
| SudoSession.ClearHoldsUntilFailure | src/pres/sudo.rs:53-59 | after a clear, the flag stays down through successful probes and stops |
| SudoSession.SudoKeepAliveGuard.Start | src/pres/sudo.rs:18-51 | after start both flags are down and a worker is attached with the interval |
| SudoSession.SudoKeepAliveGuard.ProbeTick | src/pres/sudo.rs:26-36 | a failed probe of a worker that has not seen stop raises the flag; a successful one never lowers it |
| SudoSession.SudoKeepAliveGuard.ClearReauthFlag | src/pres/sudo.rs:57-59 | after clearing, `needs_reauth` reads false; stop and the handle are untouched |
| SudoSession.SudoKeepAliveGuard.Stop | src/pres/sudo.rs:61-66 | stop raises the stop flag, takes the handle and joins the worker iff it was attached |
| SudoSession.SudoKeepAliveGuard.Drop | src/pres/sudo.rs:69-73 | dropping the guard stops it |
| SudoSession.StopTwice | src/pres/sudo.rs:61-66 | stopping twice joins the worker at most once |
| SudoSession.WaitBetweenProbes | src/pres/sudo.rs:37-42 | the wait runs at most ceil(interval/250) chunks, each while stop was not seen, and ends when the interval elapsed or stop was seen |
| Input.ReadKey | src/pres/input.rs:20-56 | only an empty stream fails; at most three bytes are read; a character key is one typeable byte; arrows take three bytes |
| Input.ReadKeyBytes | src/pres/input.rs:20-56 | decoding the bytes of any known key yields that key and consumes exactly its bytes, whatever follows |
| Utils.TruncateString | src/pres/utils.rs:1-7 | a short string is unchanged; a longer one is its first `max-3` characters followed by "..."; the result is at most `max` characters, or 3 when `max < 3` |
| Utils.TruncateStringIdempotent | src/pres/utils.rs:1-7 | truncating twice with the same width equals truncating once |
| Utils.TruncateStringExact | src/pres/utils.rs:9-11 | the exact truncation is a prefix of `s` of length `min(|s|, max)` |
| Utils.TruncationsAgreeOnPrefix | src/pres/utils.rs:1-11 | past the width, the marked truncation is the exact truncation to `max-3` plus "...", of the same length as the exact one |
| Terminal.ParseTput | src/pres/terminal.rs:100-121 | a reading is accepted only when its trimmed output parses as a `u16` |
| Terminal.GetSize | src/pres/terminal.rs:100-121 | the size is (cols, lines) when both parse, and 80 x 24 otherwise |
| Terminal.GetSizeReadsDecimal | src/pres/terminal.rs:100-121 | a terminal printing its size in decimal, possibly padded, is read exactly |
| Terminal.Terminal.constructor | src/pres/terminal.rs:88-98 | the new terminal holds the size read |
| Terminal.Terminal.UpdateSize | src/pres/terminal.rs:123-127 | the stored size is replaced by a fresh reading |
| Terminal.Terminal.GetBoxDimensions | src/pres/terminal.rs:162-166 | the box starts at the origin and is at least 1 x 1, and exactly the size otherwise |
| Terminal.Terminal.GetMaxVisibleItems | src/pres/terminal.rs:168-171 | `h - 10` rows from 15 lines up, 5 rows from 10 to 14 lines, never fewer than 5 |
| Terminal.Terminal.CalculateRequiredHeight | src/pres/terminal.rs:173-178 | at least the minimum height, and `max(content + header + footer + 6, min)` when the sum fits in `u16` |
| Terminal.Terminal.TryResize | src/pres/terminal.rs:145-152 | the resize succeeds iff the size read back is the one requested |
| Terminal.Terminal.RequestOptimalSize | src/pres/terminal.rs:154-160 | an optimal terminal is not resized and answers true; otherwise the optimal size is requested and the answer is whether it took |
| Terminal.Terminal.ResizeForContent | src/pres/terminal.rs:180-189 | a resize to the optimal width and required height is requested iff the terminal is too short or not of optimal width |
| Terminal.OptimalIsValid | src/pres/terminal.rs:137-143 | an optimal terminal is a valid one |
| Distribution.Display | src/data/distribution.rs:256-270 | every name is non-empty and holds no `=` or quote |
| Distribution.IdLikeTable | src/data/distribution.rs:70-87 | rhel or fedora gives CentOS if centos is also present, else RHEL; otherwise debian gives Ubuntu if ubuntu is also present, else Debian; otherwise nothing |
| Distribution.ScanOsRelease | src/data/distribution.rs:49-89 | a verdict is that of some line; no verdict means no line is decisive |
| Distribution.FirstDecisiveLineWins | src/data/distribution.rs:49-89 | the first decisive line decides, whatever follows it |
| Distribution.DetectDistribution | src/data/distribution.rs:47-115 | the loop's answer is the os-release verdict, else the marker-file fallback |
| Distribution.KeyValueOfPlainLine | src/data/distribution.rs:51-54 | the value read from `KEY=value` with a plain lower-case value is that value |
| Distribution.IdTableOfDisplay | src/data/distribution.rs:56-64 | the ID table recognises every name Display gives |
| Distribution.DisplayIdRoundTrip | src/data/distribution.rs:56-64 | every distribution except Unknown, written as an `ID=` line, is detected as itself |
| Distribution.VersionFrom | src/data/distribution.rs:118-126 | a version comes from some `VERSION_ID=` line |
| Distribution.DetectVersionForDistro | src/data/distribution.rs:117-137 | the loop's answer is the first VERSION_ID value, else the Debian version file for Debian only |
| Distribution.FirstAvailable | src/data/distribution.rs:158-175 | the manager chosen is one in the probe order whose probe starts, or Apt when none does |
| Distribution.DetectPackageManager | src/data/distribution.rs:139-177 | Debian and Ubuntu get Apt; the Red Hat family gets Dnf iff dnf starts, else Yum; Arch Pacman; OpenSUSE Zypper; Alpine Apk; Unknown the first available |
| Distribution.UnknownPrefersApt | src/data/distribution.rs:158-161 | on an unknown system with apt-get, apt-get is preferred |
| Distribution.Detect | src/data/distribution.rs:34-45 | the distribution, its version and its package manager are each detected as specified |
| Distribution.InstallPrefix | src/data/distribution.rs:179-189 | each install prefix is non-empty and ends with a space |
| Distribution.InstallCommand | src/data/distribution.rs:179-189 | the command is the manager's prefix followed by the packages joined with single spaces |
| Distribution.InstallCommandPackages | src/data/distribution.rs:179-189 | the package list is read back from the install command by splitting after the prefix |
| Distribution.UpdateCommand | src/data/distribution.rs:191-200 | the command starts with the manager's tool, and ends with a fallback to `true`, which tolerates a failing update, iff the manager is Yum or Dnf |
| Distribution.PackageName | src/data/distribution.rs:202-211 | every distribution uses the base package name unchanged |
| Distribution.NeedsRootForLxc | src/data/distribution.rs:250-253 | true exactly for RHEL and CentOS, not Fedora |
| Installer.AtLeastFromIsLexicographic | src/deployment/installer.rs:344-365 | the comparison loop holds iff all components agree, or they agree up to one where the installed one is larger |
| Installer.AtLeastReflexive | src/deployment/installer.rs:344-365 | every version is at least itself |
| Installer.AtLeastTotal | src/deployment/installer.rs:344-365 | of any two versions, one is at least the other |
| Installer.TrailingZeroIgnored | src/deployment/installer.rs:353-364 | a trailing zero component changes no comparison, on either side |
| Installer.TrailingZeroComponentIgnored | src/deployment/installer.rs:344-365 | a version and the same version followed by ".0" are each at least the other |
| Installer.ShortAndLongFormsAgree | src/deployment/installer.rs:344-365 | "1.70" and "1.70.0" compare as equal in both directions, for rustc and go |
| Installer.ComponentValue | src/deployment/installer.rs:354-355 | a non-numeric or out-of-u32 component counts as 0, any other as its value |
| Installer.Components | src/deployment/installer.rs:349-355 | each dot-separated piece gives its own component |
| Installer.CompareVersions | src/deployment/installer.rs:344-365 | the method's answer is the reference version order on cleaned, padded components |
| Installer.CompareParts | src/deployment/installer.rs:352-364 | the indexed loop's answer is the component-wise order with missing components read as 0 |
| Installer.VersionAtLeastReflexive | src/deployment/installer.rs:344-365 | `compare_versions(v, v)` is true |
| Installer.InstalledVerdict | src/deployment/installer.rs:289-306 | a failed probe passes its error on; "not_installed" or a missing token gives Ok(false); Ok(true) only for a token at least the required version |
| Installer.CheckRustInstalled | src/deployment/installer.rs:289-306 | one unprivileged probe; the answer reads the second token against 1.70.0 |
| Installer.CheckGoInstalled | src/deployment/installer.rs:381-398 | one unprivileged probe; the answer reads the third token without "go" against 1.21.0 |
| Installer.GoArch | src/deployment/installer.rs:496-509 | every architecture recognised maps to one of the five Go names |
| Installer.GoArchFixpoint | src/deployment/installer.rs:496-509 | each Go architecture name maps to itself |
| Installer.DetectGoArchitecture | src/deployment/installer.rs:483-512 | an unsupported OS fails without a command; otherwise one uname probe, and success iff the trimmed, lower-cased machine name is recognised, with the failure message naming it |
| Installer.NewConfig | src/deployment/installer.rs:68-81 | Alpine 3.19, Rocky 9, both toolchains on, no names, logger or mode |
| Installer.WithLogger | src/deployment/installer.rs:83-86 | sets the logger and leaves every other field unchanged |
| Installer.WithContainerName | src/deployment/installer.rs:88-91 | sets the container name and leaves every other field unchanged |
| Installer.WithVmName | src/deployment/installer.rs:93-96 | sets the VM name and leaves every other field unchanged |
| Installer.WithAlpineVersion | src/deployment/installer.rs:98-101 | sets the Alpine version and leaves every other field unchanged |
| Installer.WithRockyVersion | src/deployment/installer.rs:103-106 | sets the Rocky version and leaves every other field unchanged |
| Installer.WithRustInstall | src/deployment/installer.rs:108-111 | sets the Rust flag and leaves every other field unchanged |
| Installer.WithGoInstall | src/deployment/installer.rs:113-116 | sets the Go flag and leaves every other field unchanged |
| Installer.WithInstallationMode | src/deployment/installer.rs:118-121 | sets the installation mode and leaves every other field unchanged |
| Installer.BuildersCommute | src/deployment/installer.rs:83-121 | builders on different fields commute; on the same field the last wins |
| Installer.RunSteps | src/deployment/installer.rs:148-267 | steps run in order and stop at the first error, which is the answer; no error means every step ran and succeeded |
| Installer.Install | src/deployment/installer.rs:139-267 | a missing container or VM name (or version) fails before any step; otherwise the type's planned steps run until one fails, and success carries the type's message with exit 0 |
| Installer.HostInstallCreatesNothing | src/deployment/installer.rs:148-176 | a host installation never creates a container or a VM |
| App.Dismiss | src/pres/main_app.rs:1576-1585 | the error screen consumes exactly one key, of any kind, when there is one |
| App.MainApp.ShowErrorMessage | src/pres/main_app.rs:1576-1585 | the method reads one key and ignores it, as the error-screen function says |
| App.Typed | src/pres/input.rs:50-54 | the key presses that type a string carry its characters, one per key |
| App.Typing | src/pres/main_app.rs:360-385 | reading a line consumes at least the key that ends it |
| App.TypingEnds | src/pres/main_app.rs:360-385 | the line ends at the first Enter (entered) or Quit (abandoned), leaving the keys after it; without either the keys run out |
| App.TypingTyped | src/pres/main_app.rs:360-385 | typing the characters of `s` then Enter yields exactly `s` |
| App.TypedTextHasNoQ | src/pres/main_app.rs:374-379 | text typed at the keyboard never contains `q` |
| App.ExitCode | src/pres/main_app.rs:522 | the code read is 0 exactly when the process exited with status 0; an absent code is not 0 |
| App.AttemptKeeps | src/pres/main_app.rs:415-645 | a submission extends the log, keeps the discipline (secret only on stdin, verify only after a successful validation and the 200 ms pause) and its faithfulness to the host |
| App.PromptKeeps | src/pres/main_app.rs:298-646 | the whole prompt keeps that discipline and faithfulness |
| App.AttemptConfirmed | src/pres/main_app.rs:522-645 | a submission answers yes only after validate exit 0, 200 ms, verify exit 0, 800 ms, with the host's own replies |
| App.PromptAuthenticatedMeansConfirmed | src/pres/main_app.rs:298-646 | the prompt answers yes only right after such a confirmed submission |
| App.PromptConsumes | src/pres/main_app.rs:298-646 | a yes follows the Enter that submitted the password; a cancellation follows a Quit |
| App.EmptyPasswordStartsOver | src/pres/main_app.rs:387-413 | an empty password is not submitted: after a key other than Quit the prompt starts over |
| App.RejectedPasswordStartsOver | src/pres/main_app.rs:528-563 | a rejected password is retried after any key but Quit, with the failed validation logged |
| App.ChooseMode | src/pres/main_app.rs:219-251 | the choice is confirmed by Enter or declined by Quit, leaving the keys after it; undecided iff neither key is pressed |
| App.ChosenIsLastDigit | src/pres/main_app.rs:219-251 | keys other than Enter and Quit followed by Enter confirm the last digit among them, or the initial selection when there is none, leaving the keys after Enter |
| App.EnterChoosesAdmin | src/pres/main_app.rs:204 | at boot, Enter straight away chooses Admin |
| App.MovesRotate | src/pres/main_app.rs:123-144 | Up is the rotation `(s + len - 1) % len` and Down `(s + 1) % len` |
| App.MovesUndo | src/pres/main_app.rs:123-144 | Up and Down undo each other |
| App.ScrolledOffset | src/pres/main_app.rs:719-726 | the selection is in the window; the window does not move when the selection is visible, and otherwise moves the least amount |
| App.NameTyping | src/pres/main_app.rs:3416-3446 | an entered name is never empty and holds only alphanumerics, `-` and `_` |
| App.NameTypingTyped | src/pres/main_app.rs:3416-3446 | typing a valid name then Enter yields exactly that name |
| App.EmptyNameIsDefault | src/pres/main_app.rs:3419-3424 | Enter on an empty line gives "rmdb" |
| App.ForeignCharDropped | src/pres/main_app.rs:3434-3439 | a character other than alphanumerics, `-` and `_` is dropped |
| App.DestroyOutsideAdminNotDone | src/pres/main_app.rs:3586-3608 | outside Admin mode the forced destroy is refused, so it never counts as done |
| App.NotFoundCounts | src/pres/main_app.rs:3588 | any error output containing "not found" counts as done |
| App.FailedDestroyNotDone | src/pres/main_app.rs:3588 | without exit 0 and without either phrase, the destroy is not done |
| App.MainApp.constructor | src/pres/main_app.rs:58-79 | Safe mode, no guard, the first menu line selected, the executor in the same mode |
| App.MainApp.ShowSudoPasswordPrompt | src/pres/main_app.rs:298-646 | the nested loops' result, remaining keys and log are those of the prompt function |
| App.MainApp.EnsureAdmin | src/pres/main_app.rs:278-296 | outside Admin: no, after the error screen has taken one key, with no prompt and the guard untouched; Admin without reauth: yes; with reauth: yes iff the prompt confirms, which alone clears the flag, and a cancel leaves it up |
| App.MainApp.ReadModeChoice | src/pres/main_app.rs:203-251 | the loop's choice is the mode-choice function started on Admin |
| App.MainApp.BootSequence | src/pres/main_app.rs:161-276 | 16 lines or fewer: yes at once; otherwise the chosen mode is set on the app and executor; Admin without sudo fails after the error screen has taken one key; Admin needs a confirmed password, and only then starts the 60 s keep-alive |
| App.MainApp.UpdateMenuOffset | src/pres/main_app.rs:719-726 | the new offset is the least move that keeps the selection visible; nothing else changes |
| App.MainApp.Navigate | src/pres/main_app.rs:92-144 | Up and Down move the selection with wrap-around and the window follows it |
| App.MainApp.ReadContainerName | src/pres/main_app.rs:3416-3446 | the loop's result is the name-entry function, never empty and made of name characters |

## Left out

- Rendering: all screen drawing, colours, cursor moves and ANSI output in the main application and the UI module.
- The keep-alive worker thread: it is modelled one pass at a time (`ProbeTick`, `WaitBetweenProbes`), not as concurrent execution; real sleep timings are not modelled.
- Logging through the deployment logger is not modelled: it has no effect on results.
- `check_lxc_installed` (a `which` call) is the `lxcInstalled` parameter of creation. `check_lxc_templates` is not modelled: creation only logs its answer.
- `setup_lxc_config_for_rhel`: only its outcome, as the `rhelSetup` parameter, is modelled. It is file-system plumbing.
- `install_rmdb_in_container` and `get_container_info` are not modelled: they are long shell-script plumbing with no decision logic.
- `lxc_config_path` and `lxc_container_path` are not modelled: they only choose a path from `Path::exists` and `HOME`.
- `InstallationMode::display_name` and `short_name` are not modelled: they are constant tables.
- Installer.Install: the commands run by each step (`install_on_host`, `install_in_container`, `install_in_vm`, `RustInstaller::install`, `GoInstaller::install`) are an outcome parameter; only their order and the stop at the first error are modelled.
- The `HOME` variable, `read_dir`, `Path::exists`, the release files, the `--version` probes and the `tput` outputs are parameters.
- Unicode: the name checks use ASCII alphanumerics, and both lower-casing and upper-casing are ASCII only. `char::is_alphanumeric`, `to_lowercase` and `to_uppercase` also handle other scripts. `to_uppercase` can lengthen a string (`ß` becomes `SS`). It is applied to the status field of the CSV listing pass (src/deployment/lxc.rs:704) and in both status readers (src/deployment/lxc.rs:848 and 1047). The model keeps the length there.
- LxcList.SortByName: the in-place `sort_by` is modelled as a stable insertion sort on a sequence. With distinct names, both give the same strictly ascending list.
- LxcList.ListAllContainers: the log discipline is not stated for the listing passes.
- LxcList.DirLinesCollect: it bounds the names collected by the privileged directory pass, but does not fix them. Which names are kept depends on the configuration and rootfs probes.
- LxcLifecycle.StatusStage: the `Err` arm of stage 5 (src/deployment/lxc.rs:523-525) has no counterpart. `get_container_status` always returns `Ok`, as `LxcLifecycle.Status` states.
- App.MainApp.BootSequence: requires a terminal of at least 2 lines. Below that, the `u16` subtraction `box_h - 2` underflows.
- App.MainApp.Navigate: requires the terminal to be at least 24 lines high, because the main loop handles no key below that. The width check of the same loop is not modelled.
- Terminal.Terminal.GetMaxVisibleItems: requires at least 10 lines. Below that, the `u16` subtraction underflows.
- App.MainApp.ShowSudoPasswordPrompt: a failed spawn, a failed write of the password and a failed wait are folded into `SudoReply`. Each leads to the same error-then-retry path as in the source.
- The main loop's Enter, Quit and Backspace handling, `execute_menu`, the submenus and `MenuState` are not modelled. Entering a submenu replaces `menu_items`, which the model keeps fixed.
- The remaining screens of the main application, and the modules the core only calls, are not modelled: the API client, the GUI, host and VM deployment, the logger, capabilities probing and the menus.
