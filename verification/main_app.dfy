/**
 * The foreground application (src/pres/main_app.rs): the boot-time choice of
 * the action mode, the sudo password prompt with its two-step confirmation,
 * the Admin gate in front of privileged actions, menu navigation, the entry
 * of a container name and the test that decides whether a destroy is done.
 *
 * Key presses are a finite input sequence consumed from the front; when it
 * runs out before the application would stop waiting, the model reports
 * that instead of blocking.  The two `sudo` processes the prompt starts
 * directly (not through the executor) are answered by a scripted oracle
 * `SudoHost`, and every process and pause is recorded in an `AuthEvent` log.
 */
module App {
  import opened Common
  import opened Text
  import opened Executor
  import opened Input
  import opened SudoSession
  import LxcCommon
  import LxcLifecycle
  import Terminal

  // ------------------------------------------------------------ key input

  /** `rest` is what remains of `keys` after at least one key was read. */
  predicate ProperSuffix(rest: seq<KeyRead>, keys: seq<KeyRead>) {
    |rest| < |keys| && rest == keys[|keys| - |rest|..]
  }

  /** The last key read before `rest`. */
  function LastRead(keys: seq<KeyRead>, rest: seq<KeyRead>): KeyRead
    requires ProperSuffix(rest, keys)
  {
    keys[|keys| - |rest| - 1]
  }

  /** Keys as the keyboard delivers them: a character key carries a typeable character. */
  predicate FromKeyboard(keys: seq<KeyRead>) {
    forall i :: 0 <= i < |keys| && keys[i].KeyOk? && keys[i].key.Char? ==> Typeable(keys[i].key.c)
  }

  /**
   * `show_error_message`: the message stays up until a key is read, whatever
   * it is (a failed read dismisses it too); with no keys left nothing is read.
   */
  function Dismiss(keys: seq<KeyRead>): (rest: seq<KeyRead>)
    ensures keys != [] ==> ProperSuffix(rest, keys) && |rest| == |keys| - 1
    ensures keys == [] ==> rest == []
  {
    if keys == [] then [] else keys[1..]
  }

  /** The key presses that type `s`. */
  function Typed(s: string): (r: seq<KeyRead>)
    ensures |r| == |s|
    ensures forall i :: 0 <= i < |s| ==> r[i] == KeyOk(Char(s[i]))
  {
    if |s| == 0 then [] else [KeyOk(Char(s[0]))] + Typed(s[1..])
  }

  /** How a line of input ended: Enter with the text, Quit, or no keys left. */
  datatype Entry = Entered(text: string, rest: seq<KeyRead>) | QuitPressed(rest: seq<KeyRead>) | KeysRanOut

  /** Enter and Quit are the keys that end a line of input. */
  predicate Ends(k: KeyRead) {
    k == KeyOk(Enter) || k == KeyOk(Quit)
  }

  // -------------------------------------------------------------- password

  /**
   * Reading the password: characters are pushed, Backspace pops, Enter ends
   * the line, Quit abandons it, every other key and failed read is ignored.
   */
  function Typing(keys: seq<KeyRead>, typed: string): (e: Entry)
    ensures e.Entered? ==> |e.rest| < |keys|
    decreases |keys|
  {
    if |keys| == 0 then KeysRanOut
    else if keys[0] == KeyOk(Enter) then Entered(typed, keys[1..])
    else if keys[0] == KeyOk(Quit) then QuitPressed(keys[1..])
    else Typing(keys[1..], Edit(typed, keys[0]))
  }

  /** The effect of a key other than Enter and Quit on the text typed so far. */
  function Edit(typed: string, k: KeyRead): string {
    match k
    case KeyOk(Backspace) => if |typed| == 0 then typed else typed[..|typed| - 1]
    case KeyOk(Char(c)) => typed + [c]
    case _ => typed
  }

  /**
   * The line ends at the first Enter or Quit: the keys left are those after
   * it, and without either key the keys run out.
   */
  lemma {:induction false} TypingEnds(keys: seq<KeyRead>, typed: string)
    ensures var e := Typing(keys, typed);
      (e.Entered? ==> ProperSuffix(e.rest, keys) && LastRead(keys, e.rest) == KeyOk(Enter))
      && (e.QuitPressed? ==> ProperSuffix(e.rest, keys) && LastRead(keys, e.rest) == KeyOk(Quit))
      && (e.KeysRanOut? <==> forall i :: 0 <= i < |keys| ==> !Ends(keys[i]))
    decreases |keys|
  {
    if |keys| > 0 {
      var rest := keys[1..];
      assert forall i :: 1 <= i < |keys| ==> keys[i] == rest[i - 1];
      if !Ends(keys[0]) {
        var next := Edit(typed, keys[0]);
        TypingEnds(rest, next);
        var e := Typing(rest, next);
        if !e.KeysRanOut? {
          SuffixOfSuffix(keys, rest, e.rest);
        }
      }
    }
  }

  /** Typing the characters of `s` and then Enter yields exactly `s` after what was already typed. */
  lemma {:induction false} TypingTyped(s: string, typed: string, rest: seq<KeyRead>)
    ensures Typing(Typed(s) + [KeyOk(Enter)] + rest, typed) == Entered(typed + s, rest)
    decreases |s|
  {
    if |s| == 0 {
      assert Typed(s) + [KeyOk(Enter)] + rest == [KeyOk(Enter)] + rest;
    } else {
      var keys := Typed(s) + [KeyOk(Enter)] + rest;
      assert keys[0] == KeyOk(Char(s[0]));
      assert keys[1..] == Typed(s[1..]) + [KeyOk(Enter)] + rest;
      TypingTyped(s[1..], typed + [s[0]], rest);
      assert typed + [s[0]] + s[1..] == typed + s;
    }
  }

  /**
   * The keyboard turns `q` into Quit, so no character key carries a `q`: a
   * password typed at the keyboard can never contain one.
   */
  lemma {:induction false} TypedTextHasNoQ(keys: seq<KeyRead>, typed: string)
    requires FromKeyboard(keys) && 'q' !in typed
    ensures Typing(keys, typed).Entered? ==> 'q' !in Typing(keys, typed).text
    decreases |keys|
  {
    if |keys| > 0 && !Ends(keys[0]) {
      var next := Edit(typed, keys[0]);
      if keys[0].KeyOk? && keys[0].key.Char? {
        assert Typeable(keys[0].key.c);
      }
      assert 'q' !in next;
      TypedTextHasNoQ(keys[1..], next);
    }
  }

  /** What a `sudo` process started by the prompt reported back. */
  datatype SudoReply = CannotStart | StdinClosed | WaitFailed | Finished(code: Option<int>)

  /** The operating system for the prompt: position in the log, arguments and standard input to the reply. */
  type SudoHost = (nat, seq<string>, string) -> SudoReply

  /** A `sudo` process with its arguments, the text fed on its standard input and its reply; or a pause. */
  datatype AuthEvent = Sudo(args: seq<string>, stdin: string, reply: SudoReply) | Pause(ms: nat)

  /** `sudo -S -v`: validate with the password read from standard input. */
  const ValidateArgs: seq<string> := ["-S", "-v"]
  /** `sudo -n -v`: check, without prompting, that the timestamp is valid. */
  const VerifyArgs: seq<string> := ["-n", "-v"]

  /** `status.code().unwrap_or(-1)`. */
  function ExitCode(code: Option<int>): (c: int)
    ensures c == 0 <==> code == Some(0)
  {
    match code
    case Some(n) => n
    case None => -1
  }

  /** The process ran and exited with code exactly 0. */
  predicate Succeeded(reply: SudoReply) {
    reply.Finished? && ExitCode(reply.code) == 0
  }

  /**
   * One submission of a non-empty password: `sudo -S -v` with the password
   * and a newline on its standard input; only if that exits 0, a 200 ms
   * pause and `sudo -n -v`; only if that exits 0 as well, the 800 ms pause
   * of the success screen and a positive answer.
   */
  function Attempt(host: SudoHost, password: string, log: seq<AuthEvent>): (seq<AuthEvent>, bool) {
    var line := password + "\n";
    var validated := log + [Sudo(ValidateArgs, line, host(|log|, ValidateArgs, line))];
    if !Succeeded(host(|log|, ValidateArgs, line)) then (validated, false)
    else
      var paused := validated + [Pause(200)];
      var verified := paused + [Sudo(VerifyArgs, "", host(|paused|, VerifyArgs, ""))];
      if !Succeeded(host(|paused|, VerifyArgs, "")) then (verified, false)
      else (verified + [Pause(800)], true)
  }

  /** How the prompt ended: confirmed, cancelled with Quit, or out of keys while waiting. */
  datatype PromptResult = Authenticated | Cancelled | KeysExhausted

  datatype Prompted = Prompted(result: PromptResult, rest: seq<KeyRead>, log: seq<AuthEvent>)

  /**
   * `show_sudo_password_prompt`: read a password; an empty one is not
   * submitted; a submission that is not confirmed, like an empty password,
   * shows an error and waits for a key, after which Quit cancels and any
   * other key (or failed read) starts over.
   */
  function Prompt(host: SudoHost, keys: seq<KeyRead>, log: seq<AuthEvent>): Prompted
    decreases |keys|
  {
    match Typing(keys, "")
    case KeysRanOut => Prompted(KeysExhausted, [], log)
    case QuitPressed(rest) => Prompted(Cancelled, rest, log)
    case Entered(password, rest) =>
      var (attempted, ok) := if password == "" then (log, false) else Attempt(host, password, log);
      if ok then Prompted(Authenticated, rest, attempted)
      else if |rest| == 0 then Prompted(KeysExhausted, [], attempted)
      else if rest[0] == KeyOk(Quit) then Prompted(Cancelled, rest[1..], attempted)
      else Prompt(host, rest[1..], attempted)
  }

  /** The secret only ever goes to the standard input of `sudo -S -v`, as a non-empty line. */
  predicate SecretOnStdin(e: AuthEvent) {
    e.Sudo? && e.args == ValidateArgs && |e.stdin| >= 2 && e.stdin[|e.stdin| - 1] == '\n'
  }

  /**
   * The log discipline of the prompt: every `sudo` process is either a
   * validation fed a non-empty password, or a check with nothing on its
   * standard input that directly follows a 200 ms pause after a validation
   * that exited 0.
   */
  predicate Disciplined(log: seq<AuthEvent>) {
    forall i :: 0 <= i < |log| ==> Placed(log, i)
  }

  /** The event at `i` respects the discipline. */
  predicate Placed(log: seq<AuthEvent>, i: int)
    requires 0 <= i < |log|
  {
    log[i].Sudo? ==>
      (SecretOnStdin(log[i])
       || (log[i].args == VerifyArgs && log[i].stdin == "" && 2 <= i && log[i - 1] == Pause(200)
           && log[i - 2].Sudo? && log[i - 2].args == ValidateArgs && Succeeded(log[i - 2].reply)))
  }

  /** Every reply in the log is the one the host gave at that position. */
  predicate Answered(host: SudoHost, log: seq<AuthEvent>) {
    forall i :: 0 <= i < |log| && log[i].Sudo? ==> log[i].reply == host(i, log[i].args, log[i].stdin)
  }

  /** Appending an event that respects the discipline keeps it. */
  lemma DisciplinedSnoc(log: seq<AuthEvent>, e: AuthEvent)
    requires Disciplined(log)
    requires e.Sudo? ==>
      (SecretOnStdin(e)
       || (e.args == VerifyArgs && e.stdin == "" && |log| >= 2 && log[|log| - 1] == Pause(200)
           && log[|log| - 2].Sudo? && log[|log| - 2].args == ValidateArgs && Succeeded(log[|log| - 2].reply)))
    ensures Disciplined(log + [e])
  {
    var all := log + [e];
    forall i | 0 <= i < |all|
      ensures Placed(all, i)
    {
      if i < |log| {
        assert Placed(log, i);
        assert all[i] == log[i];
        if 2 <= i {
          assert all[i - 1] == log[i - 1] && all[i - 2] == log[i - 2];
        }
      }
    }
  }

  /** Appending the host's own reply keeps the log faithful to the host. */
  lemma AnsweredSnoc(host: SudoHost, log: seq<AuthEvent>, e: AuthEvent)
    requires Answered(host, log)
    requires e.Sudo? ==> e.reply == host(|log|, e.args, e.stdin)
    ensures Answered(host, log + [e])
  {
    var all := log + [e];
    forall i | 0 <= i < |all| - 1 && all[i].Sudo?
      ensures all[i].reply == host(i, all[i].args, all[i].stdin)
    {
      assert all[i] == log[i];
    }
  }

  /** A submission only extends the log, and keeps its discipline and its faithfulness to the host. */
  lemma AttemptKeeps(host: SudoHost, password: string, log: seq<AuthEvent>)
    requires password != ""
    ensures var (after, _) := Attempt(host, password, log);
      log < after
      && (Disciplined(log) ==> Disciplined(after))
      && (Answered(host, log) ==> Answered(host, after))
  {
    var line := password + "\n";
    var validate := Sudo(ValidateArgs, line, host(|log|, ValidateArgs, line));
    assert SecretOnStdin(validate);
    var validated := log + [validate];
    var paused := validated + [Pause(200)];
    var verify := Sudo(VerifyArgs, "", host(|paused|, VerifyArgs, ""));
    var verified := paused + [verify];
    if Disciplined(log) {
      DisciplinedSnoc(log, validate);
      if Succeeded(validate.reply) {
        DisciplinedSnoc(validated, Pause(200));
        DisciplinedSnoc(paused, verify);
        DisciplinedSnoc(verified, Pause(800));
      }
    }
    if Answered(host, log) {
      AnsweredSnoc(host, log, validate);
      if Succeeded(validate.reply) {
        AnsweredSnoc(host, validated, Pause(200));
        AnsweredSnoc(host, paused, verify);
        AnsweredSnoc(host, verified, Pause(800));
      }
    }
  }

  /** The prompt only extends the log, and keeps its discipline and its faithfulness to the host. */
  lemma {:induction false} PromptKeeps(host: SudoHost, keys: seq<KeyRead>, log: seq<AuthEvent>)
    ensures var p := Prompt(host, keys, log);
      log <= p.log
      && (Disciplined(log) ==> Disciplined(p.log))
      && (Answered(host, log) ==> Answered(host, p.log))
    decreases |keys|
  {
    match Typing(keys, "")
    case KeysRanOut =>
    case QuitPressed(_) =>
    case Entered(password, rest) =>
      var (attempted, ok) := if password == "" then (log, false) else Attempt(host, password, log);
      if password != "" {
        AttemptKeeps(host, password, log);
      }
      if !ok && |rest| > 0 && rest[0] != KeyOk(Quit) {
        PromptKeeps(host, rest[1..], attempted);
      }
  }

  /**
   * The log ends with a confirmed submission: `sudo -S -v` fed a non-empty
   * password and exited with code exactly 0, then a 200 ms pause, then
   * `sudo -n -v` with nothing on its standard input exited with code exactly
   * 0, then the 800 ms pause of the success screen; both replies are the
   * host's.
   */
  predicate EndsConfirmed(host: SudoHost, log: seq<AuthEvent>) {
    var n := |log|;
    n >= 4
    && SecretOnStdin(log[n - 4]) && Succeeded(log[n - 4].reply)
    && log[n - 4].reply == host(n - 4, ValidateArgs, log[n - 4].stdin)
    && log[n - 3] == Pause(200)
    && log[n - 2].Sudo? && log[n - 2].args == VerifyArgs && log[n - 2].stdin == ""
    && Succeeded(log[n - 2].reply) && log[n - 2].reply == host(n - 2, VerifyArgs, "")
    && log[n - 1] == Pause(800)
  }

  /** A submission answers yes only when it ends the log with a confirmation. */
  lemma AttemptConfirmed(host: SudoHost, password: string, log: seq<AuthEvent>)
    requires password != ""
    ensures var (after, ok) := Attempt(host, password, log);
      ok ==> |after| == |log| + 4 && EndsConfirmed(host, after)
  {
    var line := password + "\n";
    assert |line| >= 2 && line[|line| - 1] == '\n';
  }

  /** The prompt answers yes only right after a confirmed submission. */
  lemma {:induction false} PromptAuthenticatedMeansConfirmed(host: SudoHost, keys: seq<KeyRead>, log: seq<AuthEvent>)
    ensures var p := Prompt(host, keys, log);
      p.result == Authenticated ==> |p.log| >= |log| + 4 && EndsConfirmed(host, p.log)
    decreases |keys|
  {
    match Typing(keys, "")
    case KeysRanOut =>
    case QuitPressed(_) =>
    case Entered(password, rest) =>
      var (attempted, ok) := if password == "" then (log, false) else Attempt(host, password, log);
      if password != "" {
        AttemptConfirmed(host, password, log);
        AttemptKeeps(host, password, log);
      }
      if !ok && |rest| > 0 && rest[0] != KeyOk(Quit) {
        PromptAuthenticatedMeansConfirmed(host, rest[1..], attempted);
      }
  }

  /** Reading one more key keeps `rest` a suffix, and the key read is the head of what remained. */
  lemma SuffixStep(keys: seq<KeyRead>, rest: seq<KeyRead>)
    requires ProperSuffix(rest, keys) && |rest| > 0
    ensures ProperSuffix(rest[1..], keys) && LastRead(keys, rest[1..]) == rest[0]
  {
    assert keys[|keys| - |rest[1..]|..] == rest[1..];
  }

  /** A suffix of a suffix is a suffix, with the same last key read. */
  lemma SuffixOfSuffix(keys: seq<KeyRead>, mid: seq<KeyRead>, rest: seq<KeyRead>)
    requires ProperSuffix(mid, keys) && ProperSuffix(rest, mid)
    ensures ProperSuffix(rest, keys) && LastRead(keys, rest) == LastRead(mid, rest)
  {
    assert keys[|keys| - |rest|..] == rest by {
      assert mid[|mid| - |rest|..] == rest;
    }
  }

  /**
   * A yes follows the Enter that submitted the password; a cancellation
   * follows a Quit; running out of keys leaves none.
   */
  lemma {:induction false} PromptConsumes(host: SudoHost, keys: seq<KeyRead>, log: seq<AuthEvent>)
    ensures var p := Prompt(host, keys, log);
      (p.result == Authenticated ==> ProperSuffix(p.rest, keys) && LastRead(keys, p.rest) == KeyOk(Enter))
      && (p.result == Cancelled ==> ProperSuffix(p.rest, keys) && LastRead(keys, p.rest) == KeyOk(Quit))
      && (p.result == KeysExhausted ==> p.rest == [])
    decreases |keys|
  {
    match Typing(keys, "")
    case KeysRanOut =>
    case QuitPressed(_) =>
      TypingEnds(keys, "");
    case Entered(password, rest) =>
      TypingEnds(keys, "");
      var (attempted, ok) := if password == "" then (log, false) else Attempt(host, password, log);
      if !ok && |rest| > 0 {
        SuffixStep(keys, rest);
        if rest[0] != KeyOk(Quit) {
          PromptConsumes(host, rest[1..], attempted);
          var p := Prompt(host, rest[1..], attempted);
          if p.result != KeysExhausted {
            SuffixOfSuffix(keys, rest[1..], p.rest);
          }
        }
      }
  }

  /** An empty password is not submitted: after the key that dismisses the error, the prompt starts over. */
  lemma EmptyPasswordStartsOver(host: SudoHost, dismiss: KeyRead, more: seq<KeyRead>, log: seq<AuthEvent>)
    requires dismiss != KeyOk(Quit)
    ensures Prompt(host, [KeyOk(Enter), dismiss] + more, log) == Prompt(host, more, log)
  {
    var keys := [KeyOk(Enter), dismiss] + more;
    assert keys[1..] == [dismiss] + more && keys[1..][1..] == more;
  }

  /**
   * A password the host rejects is retried: after the key that dismisses the
   * error, the prompt starts over with the failed validation on the log.
   */
  lemma RejectedPasswordStartsOver(host: SudoHost, keys: seq<KeyRead>, password: string, rest: seq<KeyRead>,
                                   log: seq<AuthEvent>)
    requires Typing(keys, "") == Entered(password, rest) && password != ""
    requires |rest| > 0 && rest[0] != KeyOk(Quit)
    requires !Succeeded(host(|log|, ValidateArgs, password + "\n"))
    ensures Prompt(host, keys, log)
         == Prompt(host, rest[1..], log + [Sudo(ValidateArgs, password + "\n", host(|log|, ValidateArgs, password + "\n"))])
  {
  }

  // ----------------------------------------------------------- mode choice

  /** How the mode choice at boot ended. */
  datatype ModeChoice = Chosen(mode: ActionMode, rest: seq<KeyRead>) | Declined(rest: seq<KeyRead>) | Undecided

  /** The keys `1`, `2` and `3` select a mode. */
  predicate IsModeKey(k: KeyRead) {
    k == KeyOk(Char('1')) || k == KeyOk(Char('2')) || k == KeyOk(Char('3'))
  }

  function ModeOfKey(k: KeyRead): ActionMode
    requires IsModeKey(k)
  {
    if k == KeyOk(Char('1')) then ReadOnly else if k == KeyOk(Char('2')) then Safe else Admin
  }

  /** The boot loop: digits change the selection, Enter confirms it, Quit leaves the application. */
  function ChooseMode(keys: seq<KeyRead>, selected: ActionMode): (c: ModeChoice)
    ensures c.Chosen? ==> ProperSuffix(c.rest, keys) && LastRead(keys, c.rest) == KeyOk(Enter)
    ensures c.Declined? ==> ProperSuffix(c.rest, keys) && LastRead(keys, c.rest) == KeyOk(Quit)
    ensures c.Undecided? <==> forall i :: 0 <= i < |keys| ==> !Ends(keys[i])
    decreases |keys|
  {
    if |keys| == 0 then Undecided
    else
      var rest := keys[1..];
      assert forall i :: 1 <= i < |keys| ==> keys[i] == rest[i - 1];
      if keys[0] == KeyOk(Enter) then Chosen(selected, rest)
      else if keys[0] == KeyOk(Quit) then Declined(rest)
      else if IsModeKey(keys[0]) then ChooseMode(rest, ModeOfKey(keys[0]))
      else ChooseMode(rest, selected)
  }

  /** The mode of the most recent digit among `keys`, or `fallback` when there is none. */
  function LastMode(keys: seq<KeyRead>, fallback: ActionMode): ActionMode
    decreases |keys|
  {
    if |keys| == 0 then fallback
    else if IsModeKey(keys[|keys| - 1]) then ModeOfKey(keys[|keys| - 1])
    else LastMode(keys[..|keys| - 1], fallback)
  }

  lemma {:induction false} LastModeCons(k: KeyRead, keys: seq<KeyRead>, fallback: ActionMode)
    ensures LastMode([k] + keys, fallback) == LastMode(keys, if IsModeKey(k) then ModeOfKey(k) else fallback)
    decreases |keys|
  {
    if |keys| > 0 {
      var all := [k] + keys;
      assert all[|all| - 1] == keys[|keys| - 1];
      assert all[..|all| - 1] == [k] + keys[..|keys| - 1];
      LastModeCons(k, keys[..|keys| - 1], fallback);
    } else {
      assert ([k] + keys)[..0] == [];
    }
  }

  /** The confirmed mode is the last digit pressed before Enter, or the initial selection when none was. */
  lemma {:induction false} ChosenIsLastDigit(pressed: seq<KeyRead>, rest: seq<KeyRead>, selected: ActionMode)
    requires forall i :: 0 <= i < |pressed| ==> !Ends(pressed[i])
    ensures ChooseMode(pressed + [KeyOk(Enter)] + rest, selected) == Chosen(LastMode(pressed, selected), rest)
    decreases |pressed|
  {
    var keys := pressed + [KeyOk(Enter)] + rest;
    if |pressed| == 0 {
      assert keys[0] == KeyOk(Enter) && keys[1..] == rest;
    } else {
      var next := if IsModeKey(pressed[0]) then ModeOfKey(pressed[0]) else selected;
      assert keys[0] == pressed[0];
      assert keys[1..] == pressed[1..] + [KeyOk(Enter)] + rest;
      assert ChooseMode(keys, selected) == ChooseMode(keys[1..], next);
      ChosenIsLastDigit(pressed[1..], rest, next);
      LastModeCons(pressed[0], pressed[1..], selected);
      assert [pressed[0]] + pressed[1..] == pressed;
    }
  }

  /** At boot the selection starts on Admin: pressing Enter straight away chooses it. */
  lemma EnterChoosesAdmin(rest: seq<KeyRead>)
    ensures ChooseMode([KeyOk(Enter)] + rest, Admin) == Chosen(Admin, rest)
  {
    assert ([KeyOk(Enter)] + rest)[1..] == rest;
  }

  // ------------------------------------------------------------ navigation

  /** Up: one line up, from the first line to the last. */
  function MoveUp(selected: nat, len: nat): nat
    requires len > 0
  {
    if selected > 0 then selected - 1 else len - 1
  }

  /** Down: one line down, from the last line to the first. */
  function MoveDown(selected: nat, len: nat): nat
    requires len > 0
  {
    if selected < len - 1 then selected + 1 else 0
  }

  /** On a valid selection, Up and Down are the rotations by one of the menu. */
  lemma MovesRotate(selected: nat, len: nat)
    requires selected < len
    ensures MoveUp(selected, len) == (selected + len - 1) % len
    ensures MoveDown(selected, len) == (selected + 1) % len
  {
    if selected == 0 {
      ModOfSmall(len - 1, len);
    } else {
      ModOfShifted(selected - 1, len);
    }
    if selected == len - 1 {
      ModOfShifted(0, len);
    } else {
      ModOfSmall(selected + 1, len);
    }
  }

  lemma ModOfSmall(a: nat, len: nat)
    requires a < len
    ensures a % len == a
  {
  }

  lemma ModOfShifted(a: nat, len: nat)
    requires a < len
    ensures (a + len) % len == a
  {
  }

  /** Up and Down undo each other on a valid selection. */
  lemma MovesUndo(selected: nat, len: nat)
    requires selected < len
    ensures MoveDown(MoveUp(selected, len), len) == selected
    ensures MoveUp(MoveDown(selected, len), len) == selected
  {
  }

  function Dist(a: nat, b: nat): nat {
    if a <= b then b - a else a - b
  }

  /**
   * `update_menu_offset`: the first visible line after a move.  The window
   * moves only when the selection left it, and then by the least amount that
   * brings the selection back into view.
   */
  function ScrolledOffset(selected: nat, offset: nat, maxVisible: nat): (o: nat)
    ensures maxVisible >= 1 ==> o <= selected < o + maxVisible
    ensures offset <= selected < offset + maxVisible ==> o == offset
    ensures forall other: nat :: other <= selected < other + maxVisible ==> Dist(o, offset) <= Dist(other, offset)
  {
    if selected < offset then selected
    else if selected >= offset + maxVisible then selected - maxVisible + 1
    else offset
  }

  /** `MainApp::MIN_HEIGHT`: keys are only handled when the terminal is at least this high. */
  const MinHeight: nat := 24

  // --------------------------------------------------------- container name

  /** Characters a container name may contain. */
  predicate NameChar(c: char) {
    Text.IsAsciiAlphanumeric(c) || c == '-' || c == '_'
  }

  predicate IsName(s: string) {
    forall i :: 0 <= i < |s| ==> NameChar(s[i])
  }

  /** The name used when none is typed. */
  const DefaultName := "rmdb"

  /**
   * Reading a container name: only name characters are appended, Backspace
   * pops, Quit abandons; at Enter a name that is blank after trimming
   * becomes `rmdb`.  The name is never empty and holds only name characters.
   */
  function NameTyping(keys: seq<KeyRead>, name: string): (e: Entry)
    requires IsName(name)
    ensures e.Entered? ==> e.text != "" && IsName(e.text)
    decreases |keys|
  {
    if |keys| == 0 then KeysRanOut
    else
      var rest := keys[1..];
      match keys[0]
      case KeyOk(Enter) =>
        if Trim(name) == "" then Entered(DefaultName, rest)
        else Entered(name, rest)
      case KeyOk(Quit) => QuitPressed(rest)
      case KeyOk(Backspace) => NameTyping(rest, if |name| == 0 then name else name[..|name| - 1])
      case KeyOk(Char(c)) => NameTyping(rest, if NameChar(c) then name + [c] else name)
      case _ => NameTyping(rest, name)
  }

  /** Typing a valid name and Enter yields that name. */
  lemma {:induction false} NameTypingTyped(s: string, name: string, rest: seq<KeyRead>)
    requires IsName(name) && IsName(s) && name + s != ""
    ensures NameTyping(Typed(s) + [KeyOk(Enter)] + rest, name) == Entered(name + s, rest)
    decreases |s|
  {
    var keys := Typed(s) + [KeyOk(Enter)] + rest;
    if |s| == 0 {
      assert keys == [KeyOk(Enter)] + rest && keys[1..] == rest;
      assert name + s == name;
      TrimOfTrimmed(name);
    } else {
      assert keys[0] == KeyOk(Char(s[0]));
      assert keys[1..] == Typed(s[1..]) + [KeyOk(Enter)] + rest;
      assert NameChar(s[0]);
      assert name + [s[0]] + s[1..] == name + s;
      NameTypingTyped(s[1..], name + [s[0]], rest);
    }
  }

  /** Enter on an empty line gives the default name. */
  lemma EmptyNameIsDefault(rest: seq<KeyRead>)
    ensures NameTyping([KeyOk(Enter)] + rest, "") == Entered(DefaultName, rest)
  {
    assert ([KeyOk(Enter)] + rest)[1..] == rest;
  }

  /** A character that is not a name character is dropped. */
  lemma ForeignCharDropped(c: char, keys: seq<KeyRead>, name: string)
    requires IsName(name) && !NameChar(c)
    ensures NameTyping([KeyOk(Char(c))] + keys, name) == NameTyping(keys, name)
  {
    assert ([KeyOk(Char(c))] + keys)[1..] == keys;
  }

  // -------------------------------------------------------- destroy outcome

  /**
   * The reinstall flow counts the destroy as done when it exited with code
   * 0, or when its error output says the container does not exist or was
   * not found; an executor error never counts.
   */
  predicate DestroyDone(r: Result<CommandOutput>) {
    r.Ok? && (r.value.exitCode == Some(0)
              || Contains(r.value.stderr, "does not exist") || Contains(r.value.stderr, "not found"))
  }

  /** Outside Admin mode the executor refuses the forced destroy, so it never counts as done. */
  lemma DestroyOutsideAdminNotDone(sh: LxcCommon.Shell, name: string, home: string, log: seq<Event>)
    requires sh.mode != Admin
    ensures !DestroyDone(LxcLifecycle.DestroyByName(sh, name, home, log).value)
  {
  }

  /**
   * Any error output mentioning "not found" counts, whatever was not found:
   * a missing `lxc-destroy` command makes the destroy count as done.
   */
  lemma NotFoundCounts(out: CommandOutput, before: string, after: string)
    requires out.stderr == before + "not found" + after
    ensures DestroyDone(Ok(out))
  {
    ContainsInfix(before, "not found", after);
  }

  /** Without a zero exit code and without either phrase, the destroy is not done. */
  lemma FailedDestroyNotDone(out: CommandOutput)
    requires out.exitCode != Some(0)
    requires !Contains(out.stderr, "does not exist") && !Contains(out.stderr, "not found")
    ensures !DestroyDone(Ok(out))
  {
  }

  // ------------------------------------------------------------ application

  /** `MainApp`: the state the foreground updates, with its executor and keep-alive guard. */
  class MainApp {
    var actionMode: ActionMode
    var keepalive: Option<SudoKeepAliveGuard>
    var selectedMenu: nat
    var menuOffset: nat
    var menuItems: seq<string>
    const capabilities: Capabilities
    const executor: CommandExecutor

    /** The guard, when there is one. */
    ghost function Guards(): set<object>
      reads this
    {
      if keepalive.Some? then {keepalive.value} else {}
    }

    /**
     * The executor runs in the mode the application shows, it was given the
     * application's capabilities, the guard is consistent, and the
     * selection is a line of the menu.
     */
    ghost predicate Valid()
      reads this, executor, Guards()
    {
      executor.mode == actionMode && executor.caps == capabilities
      && (keepalive.Some? ==> keepalive.value.Valid())
      && selectedMenu < |menuItems|
    }

    /** The guard's reauth flag; no guard means no reauth. */
    ghost function Reauth(): bool
      reads this, Guards()
    {
      keepalive.Some? && keepalive.value.needsReauth
    }

    /** `new`: Safe mode, no guard, the first line of the main menu selected. */
    constructor (menu: seq<string>, capabilities: Capabilities)
      requires |menu| > 0
      ensures Valid() && fresh(executor)
      ensures actionMode == Safe && keepalive == None
      ensures selectedMenu == 0 && menuOffset == 0 && menuItems == menu
      ensures this.capabilities == capabilities
    {
      actionMode := Safe;
      keepalive := None;
      selectedMenu := 0;
      menuOffset := 0;
      menuItems := menu;
      this.capabilities := capabilities;
      executor := new CommandExecutor(Safe, capabilities);
    }

    /** `show_sudo_password_prompt`: the retry loop around reading and confirming a password. */
    method ShowSudoPasswordPrompt(host: SudoHost, keys: seq<KeyRead>, log: seq<AuthEvent>)
      returns (r: PromptResult, rest: seq<KeyRead>, log': seq<AuthEvent>)
      ensures Prompted(r, rest, log') == Prompt(host, keys, log)
    {
      var cur, trail := keys, log;
      while true
        invariant Prompt(host, keys, log) == Prompt(host, cur, trail)
        decreases |cur|
      {
        var password := "";
        var k := cur;
        while true
          invariant Typing(cur, "") == Typing(k, password)
          invariant |k| <= |cur|
          decreases |k|
        {
          if |k| == 0 {
            return KeysExhausted, [], trail;
          }
          var key := k[0];
          k := k[1..];
          match key
          case KeyOk(Enter) =>
            break;
          case KeyOk(Quit) =>
            return Cancelled, k, trail;
          case KeyOk(Backspace) =>
            if |password| > 0 {
              password := password[..|password| - 1];
            }
          case KeyOk(Char(c)) =>
            password := password + [c];
          case _ =>
        }
        if password != "" {
          var line := password + "\n";
          var reply := host(|trail|, ValidateArgs, line);
          trail := trail + [Sudo(ValidateArgs, line, reply)];
          if Succeeded(reply) {
            trail := trail + [Pause(200)];
            var check := host(|trail|, VerifyArgs, "");
            trail := trail + [Sudo(VerifyArgs, "", check)];
            if Succeeded(check) {
              trail := trail + [Pause(800)];
              return Authenticated, k, trail;
            }
          }
        }
        if |k| == 0 {
          return KeysExhausted, [], trail;
        }
        if k[0] == KeyOk(Quit) {
          return Cancelled, k[1..], trail;
        }
        cur := k[1..];
      }
    }

    /**
     * `ensure_admin`: outside Admin mode the answer is no, after an error
     * screen that takes one key, with no prompt and the guard untouched; in Admin mode with the reauth flag up the prompt
     * runs, and only a confirmed password lowers the flag and answers yes.
     */
    method EnsureAdmin(host: SudoHost, keys: seq<KeyRead>, log: seq<AuthEvent>)
      returns (ok: bool, rest: seq<KeyRead>, log': seq<AuthEvent>)
      requires Valid()
      modifies Guards()
      ensures Valid()
      ensures actionMode != Admin ==> !ok && rest == Dismiss(keys) && log' == log && unchanged(Guards())
      ensures actionMode == Admin && !old(Reauth()) ==> ok && rest == keys && log' == log && unchanged(Guards())
      ensures actionMode == Admin && old(Reauth()) ==>
        var p := Prompt(host, keys, log);
        ok == (p.result == Authenticated) && rest == p.rest && log' == p.log
        && (ok ==> !Reauth() && keepalive.value.history == old(keepalive.value.history) + [Clear])
        && (!ok ==> unchanged(Guards()) && Reauth())
    {
      if actionMode != Admin {
        rest := ShowErrorMessage(keys);
        return false, rest, log;
      }
      var needsReauth := keepalive.Some? && keepalive.value.NeedsReauth();
      if !needsReauth {
        return true, keys, log;
      }
      var r;
      r, rest, log' := ShowSudoPasswordPrompt(host, keys, log);
      if r != Authenticated {
        return false, rest, log';
      }
      keepalive.value.ClearReauthFlag();
      ok := true;
    }

    /** `show_error_message`: the screen is drawn, then one key is read and ignored. */
    method ShowErrorMessage(keys: seq<KeyRead>) returns (rest: seq<KeyRead>)
      ensures rest == Dismiss(keys)
    {
      rest := keys;
      if |rest| > 0 {
        rest := rest[1..];
      }
    }

    /** The interval of the keep-alive started at boot. */
    static const KeepAliveMs: nat := 60000

    /** The mode-choice loop of `boot_sequence`, starting on Admin. */
    method ReadModeChoice(keys: seq<KeyRead>) returns (c: ModeChoice)
      ensures c == ChooseMode(keys, Admin)
    {
      var selected := Admin;
      var k := keys;
      while |k| > 0
        invariant ChooseMode(keys, Admin) == ChooseMode(k, selected)
        decreases |k|
      {
        var key := k[0];
        k := k[1..];
        if key == KeyOk(Enter) {
          return Chosen(selected, k);
        } else if key == KeyOk(Quit) {
          return Declined(k);
        } else if key == KeyOk(Char('1')) {
          selected := ReadOnly;
        } else if key == KeyOk(Char('2')) {
          selected := Safe;
        } else if key == KeyOk(Char('3')) {
          selected := Admin;
        }
      }
      c := Undecided;
    }

    /**
     * `boot_sequence`.  On a terminal of 16 lines or fewer the mode question does
     * not fit and boot succeeds at once, in the current mode.  Otherwise the
     * chosen mode is applied to the application and to the executor; Admin
     * needs sudo and a confirmed password, and only then is a keep-alive
     * started (dropping any earlier guard).  Quit at the choice aborts.
     */
    method BootSequence(host: SudoHost, keys: seq<KeyRead>, log: seq<AuthEvent>, term: Terminal.Terminal)
      returns (ok: bool, rest: seq<KeyRead>, log': seq<AuthEvent>)
      requires Valid()
      requires term.height >= 2
      modifies this, executor, Guards()
      ensures Valid()
      ensures selectedMenu == old(selectedMenu) && menuOffset == old(menuOffset) && menuItems == old(menuItems)
      ensures term.height <= 16 ==>
        ok && rest == keys && log' == log && actionMode == old(actionMode) && keepalive == old(keepalive)
      ensures term.height > 16 ==>
        var c := ChooseMode(keys, Admin);
        (!c.Chosen? ==> !ok && log' == log && actionMode == old(actionMode) && keepalive == old(keepalive))
        && (c.Chosen? ==> actionMode == c.mode && executor.mode == c.mode)
        && (c.Chosen? && c.mode != Admin ==> ok && rest == c.rest && log' == log && keepalive == old(keepalive))
        && (c.Chosen? && c.mode == Admin && !capabilities.hasSudo ==>
              !ok && rest == Dismiss(c.rest) && log' == log && keepalive == old(keepalive))
        && (c.Chosen? && c.mode == Admin && capabilities.hasSudo ==>
              var p := Prompt(host, c.rest, log);
              rest == p.rest && log' == p.log && ok == (p.result == Authenticated)
              && (ok ==> keepalive.Some? && fresh(keepalive.value) && keepalive.value.handle == Some(Worker(KeepAliveMs))
                         && !keepalive.value.needsReauth && !keepalive.value.stop)
              && (!ok ==> keepalive == old(keepalive)))
    {
      // the layout needs 14 lines below the top of the box and two above its bottom
      var boxHeight := term.GetBoxDimensions().3;
      if 14 >= boxHeight - 2 {
        return true, keys, log;
      }
      var c := ReadModeChoice(keys);
      if !c.Chosen? {
        return false, if c.Declined? then c.rest else [], log;
      }
      actionMode := c.mode;
      executor.SetMode(actionMode);
      rest, log' := c.rest, log;
      if actionMode == Admin {
        if !capabilities.hasSudo {
          rest := ShowErrorMessage(rest);
          return false, rest, log';
        }
        var r;
        r, rest, log' := ShowSudoPasswordPrompt(host, c.rest, log);
        if r != Authenticated {
          return false, rest, log';
        }
        var guard := new SudoKeepAliveGuard.Start(KeepAliveMs);
        if keepalive.Some? {
          keepalive.value.Drop();
        }
        keepalive := Some(guard);
      }
      ok := true;
    }

    /** `update_menu_offset`. */
    method UpdateMenuOffset(maxVisible: nat)
      modifies this
      ensures menuOffset == ScrolledOffset(selectedMenu, old(menuOffset), maxVisible)
      ensures selectedMenu == old(selectedMenu) && menuItems == old(menuItems)
      ensures actionMode == old(actionMode) && keepalive == old(keepalive)
    {
      if selectedMenu < menuOffset {
        menuOffset := selectedMenu;
      } else if selectedMenu >= menuOffset + maxVisible {
        menuOffset := selectedMenu - maxVisible + 1;
      }
    }

    /**
     * Up and Down in the main loop, which only handles keys once the
     * terminal is at least 24 lines high: the selection moves with
     * wrap-around and the window follows it.
     */
    method Navigate(key: Key, term: Terminal.Terminal)
      requires Valid() && (key == Up || key == Down)
      requires term.height >= MinHeight
      modifies this
      ensures Valid()
      ensures selectedMenu == if key == Up then MoveUp(old(selectedMenu), |menuItems|)
                              else MoveDown(old(selectedMenu), |menuItems|)
      ensures menuOffset <= selectedMenu < menuOffset + term.GetMaxVisibleItems()
      ensures menuItems == old(menuItems) && actionMode == old(actionMode) && keepalive == old(keepalive)
    {
      if key == Up {
        if selectedMenu > 0 {
          selectedMenu := selectedMenu - 1;
        } else {
          selectedMenu := |menuItems| - 1;
        }
      } else {
        if selectedMenu < |menuItems| - 1 {
          selectedMenu := selectedMenu + 1;
        } else {
          selectedMenu := 0;
        }
      }
      UpdateMenuOffset(term.GetMaxVisibleItems());
    }

    /** The name entry of `containers_add`. */
    method ReadContainerName(keys: seq<KeyRead>) returns (e: Entry)
      ensures e == NameTyping(keys, "")
      ensures e.Entered? ==> e.text != "" && IsName(e.text)
    {
      var name := "";
      var k := keys;
      while |k| > 0
        invariant IsName(name)
        invariant NameTyping(keys, "") == NameTyping(k, name)
        decreases |k|
      {
        var key := k[0];
        k := k[1..];
        match key
        case KeyOk(Enter) =>
          if Trim(name) == "" {
            name := DefaultName;
          }
          return Entered(name, k);
        case KeyOk(Quit) =>
          return QuitPressed(k);
        case KeyOk(Backspace) =>
          if |name| > 0 {
            name := name[..|name| - 1];
          }
        case KeyOk(Char(c)) =>
          if NameChar(c) {
            name := name + [c];
          }
        case _ =>
      }
      e := KeysRanOut;
    }
  }
}
