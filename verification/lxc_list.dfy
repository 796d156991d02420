/**
 * `list_all_containers` (src/deployment/lxc.rs): four passes over different
 * sources of container names, merged into one list without repeating a
 * name, then sorted by name.
 *
 * The directory listing of `std::fs::read_dir` and `Path::exists` are
 * parameters; everything else goes through the executor.
 */
module LxcList {
  import opened Common
  import opened Text
  import opened Executor
  import opened LxcCommon
  import opened LxcLifecycle

  datatype ContainerInfo = ContainerInfo(name: string, status: string)

  // ------------------------------------------------------------ the merge

  /** No name appears twice. */
  predicate Distinct(cs: seq<ContainerInfo>) {
    forall i, j :: 0 <= i < j < |cs| ==> cs[i].name != cs[j].name
  }

  function NameSet(cs: seq<ContainerInfo>): set<string> {
    set c | c in cs :: c.name
  }

  /** `found_names` holds exactly the names collected so far, and each was collected once. */
  predicate Collected(cs: seq<ContainerInfo>, found: set<string>) {
    Distinct(cs) && found == NameSet(cs)
  }

  /** Collecting a name not yet found keeps the two in step. */
  lemma AddKeepsCollected(cs: seq<ContainerInfo>, found: set<string>, c: ContainerInfo)
    requires Collected(cs, found) && c.name !in found
    ensures Collected(cs + [c], found + {c.name})
  {
    assert forall d :: d in cs + [c] <==> d in cs || d == c;
    forall i | 0 <= i < |cs|
      ensures cs[i].name != c.name
    {
      assert cs[i] in cs;
    }
  }

  // -------------------------------------------------------------- filters

  /** The words whose presence (lower-cased) marks a line as an error message. */
  const ErrorWords: seq<string> := ["error", "permission denied", "bash:", "commande", "inconnue", "command not found"]

  /** The words whose presence (lower-cased) discards the whole `lxc list` output. */
  const CsvErrorWords: seq<string> := ["error", "bash:", "commande", "inconnue", "command not found"]

  predicate FreeOf(s: string, words: seq<string>) {
    forall i :: 0 <= i < |words| ==> !Contains(s, words[i])
  }

  predicate NameChar(c: char) {
    IsAsciiAlphanumeric(c) || c == '-' || c == '_'
  }

  /** The character check: alphanumerics, `-` and `_` only, not starting or ending with `-`, no space, no colon. */
  predicate StrictName(s: string) {
    (forall i :: 0 <= i < |s| ==> NameChar(s[i]))
    && !StartsWith(s, "-") && !EndsWith(s, "-") && !Contains(s, " ") && !Contains(s, ":")
  }

  /** The keyword and length filter of the `lxc-ls` passes. */
  predicate NotAnError(line: string) {
    line != [] && !StartsWith(line, "sudo:") && FreeOf(ToLower(line), ErrorWords) && Utf8Len(line) < 50
  }

  /** A trimmed `lxc-ls` line kept by a pass: the privileged pass adds the character check. */
  predicate LsAccepts(line: string, strict: bool) {
    NotAnError(line) && (strict ==> StrictName(line))
  }

  /** A name from `lxc list` CSV output: "commande" and "inconnue" are tested case-sensitively there. */
  predicate CsvAccepts(name: string) {
    name != [] && name != "NAME"
    && !Contains(ToLower(name), "error") && !Contains(ToLower(name), "bash:")
    && !Contains(name, "commande") && !Contains(name, "inconnue")
    && Utf8Len(name) < 50 && StrictName(name)
  }

  /** A name from a privileged directory listing, before the configuration probes. */
  predicate DirAccepts(name: string) {
    !StartsWith(name, ".") && NotAnError(name) && StrictName(name)
  }

  /** The names a pass can take from one line. */
  function LsPick(line: string, privileged: bool): set<string> {
    if LsAccepts(Trim(line), privileged) then {Trim(line)} else {}
  }

  /** The names a `lxc-ls` pass can collect from its output lines. */
  function LsNames(lines: seq<string>, privileged: bool): set<string>
    decreases |lines|
  {
    if lines == [] then {} else LsPick(lines[0], privileged) + LsNames(lines[1..], privileged)
  }

  /** The names the `lxc list` pass can collect from its rows. */
  function CsvNames(rows: seq<CsvRow>): set<string>
    decreases |rows|
  {
    if rows == [] then {} else (if rows[0].Skipped? then {} else {rows[0].name}) + CsvNames(rows[1..])
  }

  /** The names of a privileged directory listing that are worth probing. */
  function DirNames(lines: seq<string>): set<string>
    decreases |lines|
  {
    if lines == [] then {}
    else (if DirAccepts(Trim(lines[0])) then {Trim(lines[0])} else {}) + DirNames(lines[1..])
  }

  function ChildPath(base: string, name: string, leaf: string): string {
    base + "/" + name + "/" + leaf
  }

  /** A directory entry taken by the unprivileged pass: not hidden, with a `config` or a `rootfs`. */
  predicate EntryAccepts(base: string, name: string, pathExists: string -> bool) {
    !StartsWith(name, ".") && (pathExists(ChildPath(base, name, "config")) || pathExists(ChildPath(base, name, "rootfs")))
  }

  function EntryNames(base: string, entries: seq<string>, pathExists: string -> bool): set<string>
    decreases |entries|
  {
    if entries == [] then {}
    else (if EntryAccepts(base, entries[0], pathExists) then {entries[0]} else {}) + EntryNames(base, entries[1..], pathExists)
  }

  /** The privileged pass keeps real names and drops the error and blank lines. */
  lemma SudoPassExample(web: string, complaint: string, blank: string, db: string)
    requires web == "web01" && complaint == "bash: lxc-ls: command not found" && blank == "  " && db == "db-2"
    ensures LsNames([web, complaint, blank, db], true) == {web, db}
  {
    PickedAsIs(web);
    PickedAsIs(db);
    ErrorLineDropped(complaint);
    BlankDropped(blank);
    LsNamesOfFour(web, complaint, blank, db, true);
  }

  /** The two names of the example are taken as they are. */
  lemma PickedAsIs(t: string)
    requires t == "web01" || t == "db-2"
    ensures LsPick(t, true) == {t}
  {
    if t == "web01" {
      CleanPick("web01");
    } else {
      CleanPick("db-2");
    }
  }

  /** A blank line is not taken for a name. */
  lemma BlankDropped(blank: string)
    requires blank == "  "
    ensures LsPick(blank, true) == {}
  {
    assert Trim(blank) == [];
  }

  /** A clean name is taken as it is. */
  lemma CleanPick(t: string)
    requires 0 < |t| < 50 && t[0] != 's' && t[0] != '-' && t[|t| - 1] != '-'
    requires forall i :: 0 <= i < |t| ==> IsAsciiDigit(t[i]) || IsAsciiLower(t[i]) || t[i] == '-'
    requires 'm' !in t && 'n' !in t && 'r' !in t
    ensures LsPick(t, true) == {t}
  {
    CleanName(t);
  }

  /** The names of four lines are those of each line. */
  lemma LsNamesOfFour(a: string, x: string, y: string, b: string, privileged: bool)
    ensures LsNames([a, x, y, b], privileged)
         == LsPick(a, privileged) + LsPick(x, privileged) + LsPick(y, privileged) + LsPick(b, privileged)
  {
    LsNamesCons(b, [], privileged);
    LsNamesCons(y, [b], privileged);
    LsNamesCons(x, [y, b], privileged);
    LsNamesCons(a, [x, y, b], privileged);
  }

  /** The names of a line followed by others are that line's and theirs. */
  lemma LsNamesCons(line: string, lines: seq<string>, privileged: bool)
    ensures LsNames([line] + lines, privileged) == LsPick(line, privileged) + LsNames(lines, privileged)
  {
    assert ([line] + lines)[1..] == lines;
  }

  /** The shell's complaint about a missing `lxc-ls` is not taken for a name. */
  lemma ErrorLineDropped(bad: string)
    requires bad == "bash: lxc-ls: command not found"
    ensures LsPick(bad, true) == {}
  {
    assert !NameChar(bad[4]) && !IsWhitespace(bad[0]) && !IsWhitespace(bad[|bad| - 1]);
    ForeignChar(bad, 4);
  }

  /** A line without surrounding blanks that holds a character no name may contain is dropped by the privileged pass. */
  lemma ForeignChar(s: string, k: nat)
    requires k < |s| && !NameChar(s[k]) && !IsWhitespace(s[0]) && !IsWhitespace(s[|s| - 1])
    ensures !LsAccepts(Trim(s), true)
  {
    TrimOfTrimmed(s);
  }

  /**
   * A short name of lower-case letters, digits and inner dashes, without
   * 'm', 'n' or 'r' and not starting with 's', is its own trim and passes
   * the privileged filter.
   */
  lemma CleanName(t: string)
    requires 0 < |t| < 50 && t[0] != 's' && t[0] != '-' && t[|t| - 1] != '-'
    requires forall i :: 0 <= i < |t| ==> IsAsciiDigit(t[i]) || IsAsciiLower(t[i]) || t[i] == '-'
    requires 'm' !in t && 'n' !in t && 'r' !in t
    ensures Trim(t) == t && LsAccepts(t, true)
  {
    TrimOfTrimmed(t);
    CleanNotAnError(t);
    CleanStrict(t);
  }

  lemma CleanNotAnError(t: string)
    requires 0 < |t| < 50 && t[0] != 's'
    requires forall i :: 0 <= i < |t| ==> IsAsciiDigit(t[i]) || IsAsciiLower(t[i]) || t[i] == '-'
    requires 'm' !in t && 'n' !in t && 'r' !in t
    ensures NotAnError(t)
  {
    Utf8LenBounds(t);
    assert ToLower(t) == t;
    assert !StartsWith(t, "sudo:");
    AbsentChar(t, " ", 0);
    AbsentChar(t, ":", 0);
    FreeOfErrorWords(t);
  }

  lemma CleanStrict(t: string)
    requires 0 < |t| && t[0] != '-' && t[|t| - 1] != '-'
    requires forall i :: 0 <= i < |t| ==> IsAsciiDigit(t[i]) || IsAsciiLower(t[i]) || t[i] == '-'
    ensures StrictName(t)
  {
    assert !StartsWith(t, "-") && !EndsWith(t, "-");
    AbsentChar(t, " ", 0);
    AbsentChar(t, ":", 0);
  }

  /** No error word fits in a text without 'm', 'n', 'r', space or colon. */
  lemma FreeOfErrorWords(t: string)
    requires 'm' !in t && 'n' !in t && 'r' !in t && ' ' !in t && ':' !in t
    ensures FreeOf(t, ErrorWords)
  {
    forall i | 0 <= i < |ErrorWords|
      ensures !Contains(t, ErrorWords[i])
    {
      var w := ErrorWords[i];
      var k := if i == 1 then 10 else if i == 2 then 4 else if i == 3 then 2 else if i == 5 then 7 else 1;
      assert k < |w| && w[k] in {'m', 'n', 'r', ' ', ':'};
      AbsentChar(t, w, k);
    }
  }

  /** A word with a character that `s` lacks does not occur in `s`. */
  lemma {:induction false} AbsentChar(s: string, w: string, k: nat)
    requires k < |w| && w[k] !in s
    ensures !Contains(s, w)
    decreases |s|
  {
    if |s| > 0 {
      assert forall x :: x in s[1..] ==> x in s;
      AbsentChar(s[1..], w, k);
    }
    NotPrefix(s, w, k);
  }

  /** A word with a character that `s` lacks does not start `s`. */
  lemma NotPrefix(s: string, w: string, k: nat)
    requires k < |w| && w[k] !in s
    ensures !StartsWith(s, w)
  {
    if |w| <= |s| {
      assert s[..|w|][k] == s[k];
    }
  }

  // ------------------------------------------------------------ the passes

  /** The containers collected so far, and `found_names`. */
  datatype Listing = Listing(containers: seq<ContainerInfo>, found: set<string>)

  function Add(acc: Listing, c: ContainerInfo): Listing {
    Listing(acc.containers + [c], acc.found + {c.name})
  }

  /** `unwrap_or_else(|_| "UNKNOWN")` on the status lookup. */
  function StatusOr(r: Result<string>): string {
    if r.Ok? then r.value else "UNKNOWN"
  }

  /**
   * How the passes learn a status: `get_container_status_by_name`, whose five
   * probes are modelled in `LxcLifecycle`.  The passes take it as a
   * parameter, so that what they collect can be reasoned about apart from it.
   */
  type StatusLookup = (string, seq<Event>) -> Traced<Result<string>>

  function NamedStatus(sh: Shell): StatusLookup {
    (name, log) => StatusByName(sh, name, log)
  }

  /** Collects `name` with the status `lookup` reports for it. */
  function AddProbed(lookup: StatusLookup, name: string, acc: Listing, log: seq<Event>): Traced<Listing> {
    var st := lookup(name, log);
    Traced(Add(acc, ContainerInfo(name, StatusOr(st.value))), st.log)
  }

  function LsCommand(privileged: bool): string {
    if privileged then "sudo -n lxc-ls -1 2>&1" else "lxc-ls -1 2>&1"
  }

  /** The loop over the lines of one `lxc-ls` pass. */
  function LsLines(sh: Shell, lookup: StatusLookup, lines: seq<string>, privileged: bool, acc: Listing, log: seq<Event>): (t: Traced<Listing>)
    decreases |lines|
  {
    if lines == [] then Traced(acc, log)
    else
      var name := Trim(lines[0]);
      if !LsAccepts(name, privileged) || name in acc.found then
        LsLines(sh, lookup, lines[1..], privileged, acc, log)
      else
        var added := AddProbed(lookup, name, acc, log);
        LsLines(sh, lookup, lines[1..], privileged, added.value, added.log)
  }

  /** An `lxc-ls` pass: with sudo and the character check, or without both. */
  function LsPass(sh: Shell, lookup: StatusLookup, privileged: bool, acc: Listing, log: seq<Event>): (t: Traced<Listing>)
  {
    var out := Run(sh, LsCommand(privileged), privileged, log);
    if out.value.Ok? then LsLines(sh, lookup, Lines(out.value.value.stdout), privileged, acc, out.log)
    else Traced(acc, out.log)
  }

  const LxcProbe := "command -v lxc >/dev/null 2>&1 && echo 'exists' || echo 'not found'"
  const LxcListCommand := "lxc list --format csv -c n,s 2>/dev/null"

  /** What one line of `lxc list` output contributes. */
  datatype CsvRow = Skipped | NameOnly(name: string) | NameAndStatus(name: string, status: string)

  /**
   * A blank line or a rejected name is skipped; with two fields or more the
   * second is the status, upper-cased; a lone field needs a status lookup.
   */
  function CsvRowOf(line: string): CsvRow {
    var t := Trim(line);
    var parts := Split(t, ',');
    var name := Trim(parts[0]);
    if t == [] || !CsvAccepts(name) then Skipped
    else if |parts| >= 2 then NameAndStatus(name, ToUpper(Trim(parts[1])))
    else NameOnly(name)
  }

  function CsvRows(lines: seq<string>): (rows: seq<CsvRow>)
    ensures |rows| == |lines| && forall i :: 0 <= i < |lines| ==> rows[i] == CsvRowOf(lines[i])
  {
    seq(|lines|, i requires 0 <= i < |lines| => CsvRowOf(lines[i]))
  }

  /** The loop over the rows of `lxc list` output. */
  function CsvLines(sh: Shell, lookup: StatusLookup, rows: seq<CsvRow>, acc: Listing, log: seq<Event>): Traced<Listing>
    decreases |rows|
  {
    if rows == [] then Traced(acc, log)
    else
      match rows[0]
      case Skipped => CsvLines(sh, lookup, rows[1..], acc, log)
      case NameAndStatus(name, status) =>
        if name in acc.found then CsvLines(sh, lookup, rows[1..], acc, log)
        else CsvLines(sh, lookup, rows[1..], Add(acc, ContainerInfo(name, status)), log)
      case NameOnly(name) =>
        if name in acc.found then CsvLines(sh, lookup, rows[1..], acc, log)
        else
          var added := AddProbed(lookup, name, acc, log);
          CsvLines(sh, lookup, rows[1..], added.value, added.log)
  }

  /** The `lxc list` pass: only when an `lxc` binary is found, and only when its whole output looks clean. */
  function CsvPass(sh: Shell, lookup: StatusLookup, acc: Listing, log: seq<Event>): (t: Traced<Listing>)
  {
    var probe := Run(sh, LxcProbe, false, log);
    if !Says(probe.value, "exists") then Traced(acc, probe.log)
    else
      var out := Run(sh, LxcListCommand, false, probe.log);
      if out.value.Ok? && FreeOf(ToLower(out.value.value.stdout), CsvErrorWords) then
        CsvLines(sh, lookup, CsvRows(Lines(out.value.value.stdout)), acc, out.log)
      else
        Traced(acc, out.log)
  }

  const LxcBase := "/var/lib/lxc"
  const LxdBase := "/var/lib/lxd/containers"

  function DirListCommand(base: string): string {
    "sudo -n ls -1 " + base + " 2>&1"
  }

  function ConfigFileTest(base: string, name: string): string {
    "sudo -n test -f " + base + "/" + name + "/config && echo 'yes' || echo 'no'"
  }

  function RootfsTest(base: string, name: string): string {
    "sudo -n test -d " + base + "/" + name + "/rootfs && echo 'yes' || echo 'no'"
  }

  /** `is_container`: the configuration probe, and the rootfs probe only when the first did not say yes. */
  function IsContainer(sh: Shell, base: string, name: string, log: seq<Event>): (t: Traced<bool>)
  {
    var config := Run(sh, ConfigFileTest(base, name), true, log);
    if Says(config.value, "yes") then Traced(true, config.log)
    else
      var rootfs := Run(sh, RootfsTest(base, name), true, config.log);
      Traced(Says(rootfs.value, "yes"), rootfs.log)
  }

  /** The loop over a privileged directory listing. */
  function DirLines(sh: Shell, lookup: StatusLookup, base: string, lines: seq<string>, acc: Listing, log: seq<Event>): (t: Traced<Listing>)
    decreases |lines|
  {
    if lines == [] then Traced(acc, log)
    else
      var name := Trim(lines[0]);
      if !DirAccepts(name) || name in acc.found then
        DirLines(sh, lookup, base, lines[1..], acc, log)
      else
        var probe := IsContainer(sh, base, name, log);
        if !probe.value then
          DirLines(sh, lookup, base, lines[1..], acc, probe.log)
        else
          var added := AddProbed(lookup, name, acc, probe.log);
          DirLines(sh, lookup, base, lines[1..], added.value, added.log)
  }

  /** The loop over the entries `read_dir` returned, without sudo and without the name checks. */
  function EntryLines(sh: Shell, lookup: StatusLookup, base: string, entries: seq<string>, pathExists: string -> bool,
                      acc: Listing, log: seq<Event>): (t: Traced<Listing>)
    decreases |entries|
  {
    if entries == [] then Traced(acc, log)
    else
      var name := entries[0];
      if !EntryAccepts(base, name, pathExists) || name in acc.found then
        EntryLines(sh, lookup, base, entries[1..], pathExists, acc, log)
      else
        var added := AddProbed(lookup, name, acc, log);
        EntryLines(sh, lookup, base, entries[1..], pathExists, added.value, added.log)
  }

  /** One base directory: the privileged listing with its probes, then the unprivileged `read_dir`. */
  function BasePass(sh: Shell, lookup: StatusLookup, base: string, readDir: string -> Option<seq<string>>, pathExists: string -> bool,
                    acc: Listing, log: seq<Event>): (t: Traced<Listing>)
  {
    var out := Run(sh, DirListCommand(base), true, log);
    var listed := if out.value.Ok? then DirLines(sh, lookup, base, Lines(out.value.value.stdout), acc, out.log)
                  else Traced(acc, out.log);
    match readDir(base)
    case None => listed
    case Some(entries) => EntryLines(sh, lookup, base, entries, pathExists, listed.value, listed.log)
  }

  /** The four passes in their order, starting from nothing found. */
  function Passes(sh: Shell, lookup: StatusLookup, readDir: string -> Option<seq<string>>, pathExists: string -> bool,
                  log: seq<Event>): (t: Traced<Listing>)
  {
    var sudoLs := LsPass(sh, lookup, true, Listing([], {}), log);
    var plainLs := LsPass(sh, lookup, false, sudoLs.value, sudoLs.log);
    var csv := CsvPass(sh, lookup, plainLs.value, plainLs.log);
    var lxc := BasePass(sh, lookup, LxcBase, readDir, pathExists, csv.value, csv.log);
    BasePass(sh, lookup, LxdBase, readDir, pathExists, lxc.value, lxc.log)
  }

  // ------------------------------------------------- what the passes collect

  predicate Consistent(acc: Listing) {
    Collected(acc.containers, acc.found)
  }

  /** Collecting a name not yet found keeps the listing consistent and only appends. */
  lemma AddCollects(acc: Listing, c: ContainerInfo)
    requires Consistent(acc) && c.name !in acc.found
    ensures Consistent(Add(acc, c)) && acc.containers <= Add(acc, c).containers
  {
    AddKeepsCollected(acc.containers, acc.found, c);
  }

  /** `AddProbed` collects `name`, whatever status it learns. */
  lemma AddProbedCollects(lookup: StatusLookup, name: string, acc: Listing, log: seq<Event>)
    requires Consistent(acc) && name !in acc.found
    ensures var r := AddProbed(lookup, name, acc, log).value;
      Consistent(r) && acc.containers <= r.containers && r.found == acc.found + {name}
  {
    AddCollects(acc, ContainerInfo(name, StatusOr(lookup(name, log).value)));
  }

  lemma Prefix<T>(a: seq<T>, b: seq<T>, c: seq<T>)
    requires a <= b && b <= c
    ensures a <= c
  {
    assert c[..|a|] == b[..|a|];
  }

  /** An `lxc-ls` loop collects exactly the accepted names it had not found yet. */
  lemma {:induction false} LsLinesCollect(sh: Shell, lookup: StatusLookup, lines: seq<string>, privileged: bool,
                                          acc: Listing, log: seq<Event>)
    requires Consistent(acc)
    ensures var r := LsLines(sh, lookup, lines, privileged, acc, log).value;
      Consistent(r) && acc.containers <= r.containers && r.found == acc.found + LsNames(lines, privileged)
    decreases |lines|
  {
    if lines != [] {
      var name := Trim(lines[0]);
      if !LsAccepts(name, privileged) || name in acc.found {
        LsLinesCollect(sh, lookup, lines[1..], privileged, acc, log);
        LsSkipStep(sh, lookup, lines, privileged, acc, log);
      } else {
        var added := AddProbed(lookup, name, acc, log);
        AddProbedCollects(lookup, name, acc, log);
        LsLinesCollect(sh, lookup, lines[1..], privileged, added.value, added.log);
        LsAddStep(sh, lookup, lines, privileged, acc, log);
      }
    }
  }

  /** A line whose name is rejected or already found adds nothing. */
  lemma LsSkipStep(sh: Shell, lookup: StatusLookup, lines: seq<string>, privileged: bool, acc: Listing, log: seq<Event>)
    requires lines != [] && (!LsAccepts(Trim(lines[0]), privileged) || Trim(lines[0]) in acc.found)
    requires var r := LsLines(sh, lookup, lines[1..], privileged, acc, log).value;
      Consistent(r) && acc.containers <= r.containers && r.found == acc.found + LsNames(lines[1..], privileged)
    ensures var r := LsLines(sh, lookup, lines, privileged, acc, log).value;
      Consistent(r) && acc.containers <= r.containers && r.found == acc.found + LsNames(lines, privileged)
  {
    var rest := LsLines(sh, lookup, lines[1..], privileged, acc, log);
    assert LsLines(sh, lookup, lines, privileged, acc, log) == rest;
    assert LsNames(lines, privileged) == LsPick(lines[0], privileged) + LsNames(lines[1..], privileged);
    assert LsPick(lines[0], privileged) <= acc.found;
  }

  /** A line with a new accepted name adds exactly that name. */
  lemma LsAddStep(sh: Shell, lookup: StatusLookup, lines: seq<string>, privileged: bool, acc: Listing, log: seq<Event>)
    requires lines != [] && LsAccepts(Trim(lines[0]), privileged) && Trim(lines[0]) !in acc.found
    requires var added := AddProbed(lookup, Trim(lines[0]), acc, log);
      var r := LsLines(sh, lookup, lines[1..], privileged, added.value, added.log).value;
      acc.containers <= added.value.containers && added.value.found == acc.found + {Trim(lines[0])}
      && Consistent(r) && added.value.containers <= r.containers
      && r.found == added.value.found + LsNames(lines[1..], privileged)
    ensures var r := LsLines(sh, lookup, lines, privileged, acc, log).value;
      Consistent(r) && acc.containers <= r.containers && r.found == acc.found + LsNames(lines, privileged)
  {
    var added := AddProbed(lookup, Trim(lines[0]), acc, log);
    var r := LsLines(sh, lookup, lines[1..], privileged, added.value, added.log).value;
    assert LsPick(lines[0], privileged) == {Trim(lines[0])};
    Prefix(acc.containers, added.value.containers, r.containers);
  }

  /** The `lxc list` loop collects exactly the names of its rows it had not found yet. */
  lemma {:induction false} CsvLinesCollect(sh: Shell, lookup: StatusLookup, rows: seq<CsvRow>, acc: Listing, log: seq<Event>)
    requires Consistent(acc)
    ensures var r := CsvLines(sh, lookup, rows, acc, log).value;
      Consistent(r) && acc.containers <= r.containers && r.found == acc.found + CsvNames(rows)
    decreases |rows|
  {
    if rows != [] {
      var r := CsvLines(sh, lookup, rows, acc, log).value;
      match rows[0]
      case Skipped =>
        CsvLinesCollect(sh, lookup, rows[1..], acc, log);
      case NameAndStatus(name, status) =>
        if name in acc.found {
          CsvLinesCollect(sh, lookup, rows[1..], acc, log);
        } else {
          var next := Add(acc, ContainerInfo(name, status));
          AddCollects(acc, ContainerInfo(name, status));
          CsvLinesCollect(sh, lookup, rows[1..], next, log);
          Prefix(acc.containers, next.containers, r.containers);
        }
      case NameOnly(name) =>
        if name in acc.found {
          CsvLinesCollect(sh, lookup, rows[1..], acc, log);
        } else {
          var added := AddProbed(lookup, name, acc, log);
          AddProbedCollects(lookup, name, acc, log);
          CsvLinesCollect(sh, lookup, rows[1..], added.value, added.log);
          Prefix(acc.containers, added.value.containers, r.containers);
        }
    }
  }

  /** A row with a status field is collected with that status, and the header row is skipped. */
  lemma CsvRowFields(line: string)
    ensures var parts := Split(Trim(line), ',');
      CsvRowOf(line).NameAndStatus? <==> Trim(line) != [] && CsvAccepts(Trim(parts[0])) && |parts| >= 2
    ensures var parts := Split(Trim(line), ',');
      CsvRowOf(line).NameAndStatus? ==> CsvRowOf(line) == NameAndStatus(Trim(parts[0]), ToUpper(Trim(parts[1])))
    ensures Trim(Split(Trim(line), ',')[0]) == "NAME" ==> CsvRowOf(line).Skipped?
  {
  }

  /**
   * When no row lacks its status field, the `lxc list` loop looks up no
   * status: it issues no command at all.
   */
  lemma {:induction false} CsvFieldsNeedNoLookup(sh: Shell, lookup: StatusLookup, rows: seq<CsvRow>, acc: Listing, log: seq<Event>)
    requires forall i :: 0 <= i < |rows| ==> !rows[i].NameOnly?
    ensures CsvLines(sh, lookup, rows, acc, log).log == log
    decreases |rows|
  {
    if rows != [] {
      assert forall i :: 0 <= i < |rows| - 1 ==> rows[1..][i] == rows[i + 1];
      assert !rows[0].NameOnly?;
      match rows[0]
      case Skipped =>
        CsvFieldsNeedNoLookup(sh, lookup, rows[1..], acc, log);
      case NameAndStatus(name, status) =>
        if name in acc.found {
          CsvFieldsNeedNoLookup(sh, lookup, rows[1..], acc, log);
        } else {
          CsvFieldsNeedNoLookup(sh, lookup, rows[1..], Add(acc, ContainerInfo(name, status)), log);
        }
    }
  }

  /** A privileged directory loop collects only accepted names, and only names not found yet. */
  lemma {:induction false} DirLinesCollect(sh: Shell, lookup: StatusLookup, base: string, lines: seq<string>,
                                           acc: Listing, log: seq<Event>)
    requires Consistent(acc)
    ensures var r := DirLines(sh, lookup, base, lines, acc, log).value;
      Consistent(r) && acc.containers <= r.containers && acc.found <= r.found <= acc.found + DirNames(lines)
    decreases |lines|
  {
    if lines != [] {
      var name := Trim(lines[0]);
      var r := DirLines(sh, lookup, base, lines, acc, log).value;
      if !DirAccepts(name) || name in acc.found {
        DirLinesCollect(sh, lookup, base, lines[1..], acc, log);
      } else {
        var probe := IsContainer(sh, base, name, log);
        if !probe.value {
          DirLinesCollect(sh, lookup, base, lines[1..], acc, probe.log);
        } else {
          var added := AddProbed(lookup, name, acc, probe.log);
          AddProbedCollects(lookup, name, acc, probe.log);
          DirLinesCollect(sh, lookup, base, lines[1..], added.value, added.log);
          Prefix(acc.containers, added.value.containers, r.containers);
        }
      }
    }
  }

  /** The `read_dir` loop collects exactly the accepted entries not found yet. */
  lemma {:induction false} EntryLinesCollect(sh: Shell, lookup: StatusLookup, base: string, entries: seq<string>,
                                             pathExists: string -> bool, acc: Listing, log: seq<Event>)
    requires Consistent(acc)
    ensures var r := EntryLines(sh, lookup, base, entries, pathExists, acc, log).value;
      Consistent(r) && acc.containers <= r.containers && r.found == acc.found + EntryNames(base, entries, pathExists)
    decreases |entries|
  {
    if entries != [] {
      var name := entries[0];
      var r := EntryLines(sh, lookup, base, entries, pathExists, acc, log).value;
      if !EntryAccepts(base, name, pathExists) || name in acc.found {
        EntryLinesCollect(sh, lookup, base, entries[1..], pathExists, acc, log);
      } else {
        var added := AddProbed(lookup, name, acc, log);
        AddProbedCollects(lookup, name, acc, log);
        EntryLinesCollect(sh, lookup, base, entries[1..], pathExists, added.value, added.log);
        Prefix(acc.containers, added.value.containers, r.containers);
      }
    }
  }

  /** An `lxc-ls` pass collects exactly the accepted names of its output that were not found yet. */
  lemma LsPassCollects(sh: Shell, lookup: StatusLookup, privileged: bool, acc: Listing, log: seq<Event>)
    requires Consistent(acc)
    ensures var out := Run(sh, LsCommand(privileged), privileged, log).value;
      var r := LsPass(sh, lookup, privileged, acc, log).value;
      Consistent(r) && acc.containers <= r.containers
      && r.found == acc.found + (if out.Ok? then LsNames(Lines(out.value.stdout), privileged) else {})
  {
    var out := Run(sh, LsCommand(privileged), privileged, log);
    if out.value.Ok? {
      LsLinesCollect(sh, lookup, Lines(out.value.value.stdout), privileged, acc, out.log);
    }
  }

  /**
   * The `lxc list` pass collects the names of its rows only when an `lxc`
   * binary answered and the whole output is free of error words.
   */
  lemma CsvPassCollects(sh: Shell, lookup: StatusLookup, acc: Listing, log: seq<Event>)
    requires Consistent(acc)
    ensures var probe := Run(sh, LxcProbe, false, log);
      var out := Run(sh, LxcListCommand, false, probe.log).value;
      var r := CsvPass(sh, lookup, acc, log).value;
      Consistent(r) && acc.containers <= r.containers
      && r.found == acc.found + (if Says(probe.value, "exists") && out.Ok? && FreeOf(ToLower(out.value.stdout), CsvErrorWords)
                                 then CsvNames(CsvRows(Lines(out.value.stdout))) else {})
  {
    var probe := Run(sh, LxcProbe, false, log);
    var out := Run(sh, LxcListCommand, false, probe.log);
    if Says(probe.value, "exists") && out.value.Ok? && FreeOf(ToLower(out.value.value.stdout), CsvErrorWords) {
      CsvLinesCollect(sh, lookup, CsvRows(Lines(out.value.value.stdout)), acc, out.log);
    }
  }

  /** A base directory pass only adds, and collects every accepted entry `read_dir` returned. */
  lemma BasePassCollects(sh: Shell, lookup: StatusLookup, base: string, readDir: string -> Option<seq<string>>,
                         pathExists: string -> bool, acc: Listing, log: seq<Event>)
    requires Consistent(acc)
    ensures var r := BasePass(sh, lookup, base, readDir, pathExists, acc, log).value;
      Consistent(r) && acc.containers <= r.containers && acc.found <= r.found
      && (readDir(base).Some? ==> EntryNames(base, readDir(base).value, pathExists) <= r.found)
  {
    var out := Run(sh, DirListCommand(base), true, log);
    var listed := if out.value.Ok? then DirLines(sh, lookup, base, Lines(out.value.value.stdout), acc, out.log)
                  else Traced(acc, out.log);
    if out.value.Ok? {
      DirLinesCollect(sh, lookup, base, Lines(out.value.value.stdout), acc, out.log);
    }
    if readDir(base).Some? {
      EntryLinesCollect(sh, lookup, base, readDir(base).value, pathExists, listed.value, listed.log);
      Prefix(acc.containers, listed.value.containers, BasePass(sh, lookup, base, readDir, pathExists, acc, log).value.containers);
    }
  }

  /**
   * The four passes together never collect a name twice; every name the
   * privileged `lxc-ls` accepted and every accepted `read_dir` entry of
   * either base directory is among those collected.
   */
  lemma PassesCollect(sh: Shell, lookup: StatusLookup, readDir: string -> Option<seq<string>>,
                      pathExists: string -> bool, log: seq<Event>)
    ensures var r := Passes(sh, lookup, readDir, pathExists, log).value;
      var out := Run(sh, LsCommand(true), true, log).value;
      Consistent(r)
      && (out.Ok? ==> LsNames(Lines(out.value.stdout), true) <= r.found)
      && (readDir(LxcBase).Some? ==> EntryNames(LxcBase, readDir(LxcBase).value, pathExists) <= r.found)
      && (readDir(LxdBase).Some? ==> EntryNames(LxdBase, readDir(LxdBase).value, pathExists) <= r.found)
  {
    var empty := Listing([], {});
    assert Consistent(empty);
    var sudoLs := LsPass(sh, lookup, true, empty, log);
    LsPassCollects(sh, lookup, true, empty, log);
    var plainLs := LsPass(sh, lookup, false, sudoLs.value, sudoLs.log);
    LsPassCollects(sh, lookup, false, sudoLs.value, sudoLs.log);
    var csv := CsvPass(sh, lookup, plainLs.value, plainLs.log);
    CsvPassCollects(sh, lookup, plainLs.value, plainLs.log);
    var lxc := BasePass(sh, lookup, LxcBase, readDir, pathExists, csv.value, csv.log);
    BasePassCollects(sh, lookup, LxcBase, readDir, pathExists, csv.value, csv.log);
    BasePassCollects(sh, lookup, LxdBase, readDir, pathExists, lxc.value, lxc.log);
  }

  // ------------------------------------------------------------ the order

  /** `str::cmp` as "comes strictly before": lexicographic on code points, which is the byte order of UTF-8. */
  predicate Below(a: string, b: string)
    decreases |a|
  {
    if a == [] then b != []
    else if b == [] then false
    else if a[0] != b[0] then a[0] < b[0]
    else Below(a[1..], b[1..])
  }

  lemma {:induction false} BelowAsymmetric(a: string, b: string)
    ensures !(Below(a, b) && Below(b, a))
    decreases |a|
  {
    if a != [] && b != [] && a[0] == b[0] {
      BelowAsymmetric(a[1..], b[1..]);
    }
  }

  lemma {:induction false} BelowTransitive(a: string, b: string, c: string)
    requires Below(a, b) && Below(b, c)
    ensures Below(a, c)
    decreases |a|
  {
    if a != [] && a[0] == b[0] && b[0] == c[0] {
      BelowTransitive(a[1..], b[1..], c[1..]);
    }
  }

  lemma {:induction false} BelowTotal(a: string, b: string)
    ensures a == b || Below(a, b) || Below(b, a)
    decreases |a|
  {
    if a != [] && b != [] && a[0] == b[0] {
      BelowTotal(a[1..], b[1..]);
      if a[1..] == b[1..] {
        assert a == [a[0]] + a[1..] && b == [b[0]] + b[1..];
      }
    }
  }

  /** Not after: the order `sort_by` leaves neighbouring elements in. */
  predicate NotAfter(a: string, b: string) {
    !Below(b, a)
  }

  lemma NotAfterTransitive(a: string, b: string, c: string)
    requires NotAfter(a, b) && NotAfter(b, c)
    ensures NotAfter(a, c)
  {
    if Below(c, a) {
      BelowTotal(a, b);
      if Below(a, b) {
        BelowTransitive(c, a, b);
      } else if Below(b, a) {
        assert false;
      }
    }
  }

  predicate SortedByName(cs: seq<ContainerInfo>) {
    forall i, j :: 0 <= i < j < |cs| ==> NotAfter(cs[i].name, cs[j].name)
  }

  /** Each name strictly before the next: sorted and without repetition. */
  predicate StrictlySorted(cs: seq<ContainerInfo>) {
    forall i, j :: 0 <= i < j < |cs| ==> Below(cs[i].name, cs[j].name)
  }

  /** Places `c` before the first element that does not come before it. */
  function Insert(c: ContainerInfo, cs: seq<ContainerInfo>): (r: seq<ContainerInfo>)
    ensures multiset(r) == multiset(cs) + multiset{c}
    decreases |cs|
  {
    if cs == [] || !Below(cs[0].name, c.name) then [c] + cs
    else
      assert cs == [cs[0]] + cs[1..];
      [cs[0]] + Insert(c, cs[1..])
  }

  lemma {:induction false} InsertSorted(c: ContainerInfo, cs: seq<ContainerInfo>)
    requires SortedByName(cs)
    ensures SortedByName(Insert(c, cs))
    decreases |cs|
  {
    var r := Insert(c, cs);
    if cs == [] {
    } else if !Below(cs[0].name, c.name) {
      forall j | 1 <= j < |r|
        ensures NotAfter(c.name, r[j].name)
      {
        assert r[j] == cs[j - 1];
        if j > 1 {
          NotAfterTransitive(c.name, cs[0].name, cs[j - 1].name);
        }
      }
    } else {
      InsertSorted(c, cs[1..]);
      BelowAsymmetric(cs[0].name, c.name);
      forall j | 1 <= j < |r|
        ensures NotAfter(cs[0].name, r[j].name)
      {
        assert r[j] in multiset(Insert(c, cs[1..]));
        assert r[j] == c || r[j] in cs[1..];
        if r[j] != c {
          var k :| 0 <= k < |cs[1..]| && cs[1..][k] == r[j];
          assert cs[k + 1] == r[j];
        }
      }
    }
  }

  /** `containers.sort_by(|a, b| a.name.cmp(&b.name))`: a stable sort by name. */
  function SortByName(cs: seq<ContainerInfo>): (r: seq<ContainerInfo>)
    ensures multiset(r) == multiset(cs)
    decreases |cs|
  {
    if cs == [] then []
    else
      assert cs == [cs[0]] + cs[1..];
      Insert(cs[0], SortByName(cs[1..]))
  }

  lemma {:induction false} SortByNameSorted(cs: seq<ContainerInfo>)
    ensures SortedByName(SortByName(cs))
    decreases |cs|
  {
    if cs != [] {
      SortByNameSorted(cs[1..]);
      InsertSorted(cs[0], SortByName(cs[1..]));
    }
  }

  /** Sequences with the same elements have the same names. */
  lemma SameNames(a: seq<ContainerInfo>, b: seq<ContainerInfo>)
    requires multiset(a) == multiset(b)
    ensures NameSet(a) == NameSet(b)
  {
    assert forall c :: c in a <==> c in multiset(a);
    assert forall c :: c in b <==> c in multiset(b);
  }

  lemma {:induction false} InsertDistinct(c: ContainerInfo, cs: seq<ContainerInfo>)
    requires Distinct(cs) && c.name !in NameSet(cs)
    ensures Distinct(Insert(c, cs))
    decreases |cs|
  {
    var r := Insert(c, cs);
    if cs == [] {
    } else if !Below(cs[0].name, c.name) {
      forall j | 1 <= j < |r|
        ensures r[j].name != c.name
      {
        assert r[j] == cs[j - 1] && cs[j - 1] in cs;
      }
    } else {
      var rest := Insert(c, cs[1..]);
      assert forall d :: d in cs[1..] ==> d in cs;
      InsertDistinct(c, cs[1..]);
      SameNames(rest, cs[1..] + [c]);
      forall j | 1 <= j < |r|
        ensures r[j].name != cs[0].name
      {
        assert r[j] in rest;
        assert r[j].name in NameSet(cs[1..] + [c]);
        var k :| 0 <= k < |cs[1..] + [c]| && (cs[1..] + [c])[k].name == r[j].name;
        if k < |cs| - 1 {
          assert (cs[1..] + [c])[k] == cs[k + 1];
        } else {
          assert cs[0] in cs;
        }
      }
    }
  }

  /** Sorting keeps the names apart. */
  lemma {:induction false} SortDistinct(cs: seq<ContainerInfo>)
    requires Distinct(cs)
    ensures Distinct(SortByName(cs))
    decreases |cs|
  {
    if cs != [] {
      SortDistinct(cs[1..]);
      SameNames(SortByName(cs[1..]), cs[1..]);
      forall k | 0 <= k < |cs[1..]|
        ensures cs[1..][k].name != cs[0].name
      {
        assert cs[1..][k] == cs[k + 1];
      }
      InsertDistinct(cs[0], SortByName(cs[1..]));
    }
  }

  /** Sorted without repeated names means each name strictly before the next. */
  lemma SortedDistinctIsStrict(cs: seq<ContainerInfo>)
    requires SortedByName(cs) && Distinct(cs)
    ensures StrictlySorted(cs)
  {
    forall i, j | 0 <= i < j < |cs|
      ensures Below(cs[i].name, cs[j].name)
    {
      BelowTotal(cs[i].name, cs[j].name);
    }
  }

  // ----------------------------------------------------- list_all_containers

  /** `list_all_containers`: the four passes, then the sort; it never fails. */
  function ListAll(sh: Shell, lookup: StatusLookup, readDir: string -> Option<seq<string>>,
                   pathExists: string -> bool, log: seq<Event>): Traced<Result<seq<ContainerInfo>>>
  {
    var collected := Passes(sh, lookup, readDir, pathExists, log);
    Traced(Ok(SortByName(collected.value.containers)), collected.log)
  }

  /**
   * The listing always succeeds, holds each collected container once, and is
   * strictly ascending by name; the names the privileged `lxc-ls` accepted and
   * the accepted `read_dir` entries are all in it.
   */
  lemma ListAllContract(sh: Shell, lookup: StatusLookup, readDir: string -> Option<seq<string>>,
                        pathExists: string -> bool, log: seq<Event>)
    ensures var r := ListAll(sh, lookup, readDir, pathExists, log).value;
      var collected := Passes(sh, lookup, readDir, pathExists, log).value;
      r.Ok? && multiset(r.value) == multiset(collected.containers)
      && Distinct(r.value) && SortedByName(r.value) && StrictlySorted(r.value)
    ensures var names := NameSet(ListAll(sh, lookup, readDir, pathExists, log).value.value);
      var out := Run(sh, LsCommand(true), true, log).value;
      (out.Ok? ==> LsNames(Lines(out.value.stdout), true) <= names)
      && (readDir(LxcBase).Some? ==> EntryNames(LxcBase, readDir(LxcBase).value, pathExists) <= names)
      && (readDir(LxdBase).Some? ==> EntryNames(LxdBase, readDir(LxdBase).value, pathExists) <= names)
  {
    var collected := Passes(sh, lookup, readDir, pathExists, log).value;
    var sorted := SortByName(collected.containers);
    PassesCollect(sh, lookup, readDir, pathExists, log);
    SortByNameSorted(collected.containers);
    SortDistinct(collected.containers);
    SortedDistinctIsStrict(sorted);
    SameNames(sorted, collected.containers);
  }

  // ------------------------------------------------------------ the loops

  /** Collects `name` with the status `lookup` reports: `found_names.insert`, then `containers.push`. */
  method Collect(lookup: StatusLookup, name: string, acc: Listing, log: seq<Event>)
    returns (acc': Listing, log': seq<Event>)
    ensures Traced(acc', log') == AddProbed(lookup, name, acc, log)
  {
    var st := lookup(name, log);
    acc' := Listing(acc.containers + [ContainerInfo(name, StatusOr(st.value))], acc.found + {name});
    log' := st.log;
  }

  method ScanLsLines(ex: CommandExecutor, host: Host, lookup: StatusLookup, lines: seq<string>, privileged: bool,
                     acc: Listing, log: seq<Event>)
    returns (acc': Listing, log': seq<Event>)
    ensures Traced(acc', log') == LsLines(Shell(ex.mode, ex.caps, host), lookup, lines, privileged, acc, log)
  {
    ghost var sh := Shell(ex.mode, ex.caps, host);
    acc', log' := acc, log;
    var i := 0;
    while i < |lines|
      invariant 0 <= i <= |lines|
      invariant LsLines(sh, lookup, lines, privileged, acc, log) == LsLines(sh, lookup, lines[i..], privileged, acc', log')
    {
      assert lines[i..][0] == lines[i] && lines[i..][1..] == lines[i + 1..];
      var name := Trim(lines[i]);
      if LsAccepts(name, privileged) && name !in acc'.found {
        acc', log' := Collect(lookup, name, acc', log');
      }
      i := i + 1;
    }
  }

  method RunLsPass(ex: CommandExecutor, host: Host, lookup: StatusLookup, privileged: bool, acc: Listing, log: seq<Event>)
    returns (acc': Listing, log': seq<Event>)
    ensures Traced(acc', log') == LsPass(Shell(ex.mode, ex.caps, host), lookup, privileged, acc, log)
  {
    var out;
    out, log' := ex.RunShell(LsCommand(privileged), privileged, host, log);
    acc' := acc;
    if out.Ok? {
      acc', log' := ScanLsLines(ex, host, lookup, Lines(out.value.stdout), privileged, acc, log');
    }
  }

  method ScanCsvLines(ex: CommandExecutor, host: Host, lookup: StatusLookup, lines: seq<string>, acc: Listing, log: seq<Event>)
    returns (acc': Listing, log': seq<Event>)
    ensures Traced(acc', log') == CsvLines(Shell(ex.mode, ex.caps, host), lookup, CsvRows(lines), acc, log)
  {
    ghost var sh := Shell(ex.mode, ex.caps, host);
    ghost var rows := CsvRows(lines);
    acc', log' := acc, log;
    var i := 0;
    while i < |lines|
      invariant 0 <= i <= |lines|
      invariant CsvLines(sh, lookup, rows, acc, log) == CsvLines(sh, lookup, rows[i..], acc', log')
    {
      assert rows[i..][0] == CsvRowOf(lines[i]) && rows[i..][1..] == rows[i + 1..];
      acc', log' := CollectRow(sh, lookup, CsvRowOf(lines[i]), rows[i..], acc', log');
      i := i + 1;
    }
  }

  /** One row of the `lxc list` loop: the rest of the loop goes on from the listing and log it leaves. */
  method CollectRow(ghost sh: Shell, lookup: StatusLookup, row: CsvRow, ghost rows: seq<CsvRow>, acc: Listing, log: seq<Event>)
    returns (acc': Listing, log': seq<Event>)
    requires rows != [] && rows[0] == row
    ensures CsvLines(sh, lookup, rows, acc, log) == CsvLines(sh, lookup, rows[1..], acc', log')
  {
    acc', log' := acc, log;
    match row {
      case Skipped =>
      case NameAndStatus(name, status) =>
        if name !in acc.found {
          acc' := Listing(acc.containers + [ContainerInfo(name, status)], acc.found + {name});
        }
      case NameOnly(name) =>
        if name !in acc.found {
          acc', log' := Collect(lookup, name, acc, log);
        }
    }
  }

  method RunCsvPass(ex: CommandExecutor, host: Host, lookup: StatusLookup, acc: Listing, log: seq<Event>)
    returns (acc': Listing, log': seq<Event>)
    ensures Traced(acc', log') == CsvPass(Shell(ex.mode, ex.caps, host), lookup, acc, log)
  {
    var probe;
    probe, log' := ex.RunShell(LxcProbe, false, host, log);
    acc' := acc;
    if Says(probe, "exists") {
      var out;
      out, log' := ex.RunShell(LxcListCommand, false, host, log');
      if out.Ok? && FreeOf(ToLower(out.value.stdout), CsvErrorWords) {
        acc', log' := ScanCsvLines(ex, host, lookup, Lines(out.value.stdout), acc, log');
      }
    }
  }

  /** `is_container`, with the rootfs probe issued only when the configuration probe did not say yes. */
  method ProbeContainer(ex: CommandExecutor, host: Host, base: string, name: string, log: seq<Event>)
    returns (isContainer: bool, log': seq<Event>)
    ensures Traced(isContainer, log') == IsContainer(Shell(ex.mode, ex.caps, host), base, name, log)
  {
    var config;
    config, log' := ex.RunShell(ConfigFileTest(base, name), true, host, log);
    isContainer := Says(config, "yes");
    if !isContainer {
      var rootfs;
      rootfs, log' := ex.RunShell(RootfsTest(base, name), true, host, log');
      isContainer := Says(rootfs, "yes");
    }
  }

  method ScanDirLines(ex: CommandExecutor, host: Host, lookup: StatusLookup, base: string, lines: seq<string>,
                      acc: Listing, log: seq<Event>)
    returns (acc': Listing, log': seq<Event>)
    ensures Traced(acc', log') == DirLines(Shell(ex.mode, ex.caps, host), lookup, base, lines, acc, log)
  {
    ghost var sh := Shell(ex.mode, ex.caps, host);
    acc', log' := acc, log;
    var i := 0;
    while i < |lines|
      invariant 0 <= i <= |lines|
      invariant DirLines(sh, lookup, base, lines, acc, log) == DirLines(sh, lookup, base, lines[i..], acc', log')
    {
      assert lines[i..][0] == lines[i] && lines[i..][1..] == lines[i + 1..];
      var name := Trim(lines[i]);
      if DirAccepts(name) && name !in acc'.found {
        var isContainer;
        isContainer, log' := ProbeContainer(ex, host, base, name, log');
        if isContainer {
          acc', log' := Collect(lookup, name, acc', log');
        }
      }
      i := i + 1;
    }
  }

  method ScanEntries(ex: CommandExecutor, host: Host, lookup: StatusLookup, base: string, entries: seq<string>,
                     pathExists: string -> bool, acc: Listing, log: seq<Event>)
    returns (acc': Listing, log': seq<Event>)
    ensures Traced(acc', log') == EntryLines(Shell(ex.mode, ex.caps, host), lookup, base, entries, pathExists, acc, log)
  {
    ghost var sh := Shell(ex.mode, ex.caps, host);
    acc', log' := acc, log;
    var i := 0;
    while i < |entries|
      invariant 0 <= i <= |entries|
      invariant EntryLines(sh, lookup, base, entries, pathExists, acc, log)
             == EntryLines(sh, lookup, base, entries[i..], pathExists, acc', log')
    {
      assert entries[i..][0] == entries[i] && entries[i..][1..] == entries[i + 1..];
      var name := entries[i];
      if EntryAccepts(base, name, pathExists) && name !in acc'.found {
        acc', log' := Collect(lookup, name, acc', log');
      }
      i := i + 1;
    }
  }

  method RunBasePass(ex: CommandExecutor, host: Host, lookup: StatusLookup, base: string,
                     readDir: string -> Option<seq<string>>, pathExists: string -> bool, acc: Listing, log: seq<Event>)
    returns (acc': Listing, log': seq<Event>)
    ensures Traced(acc', log') == BasePass(Shell(ex.mode, ex.caps, host), lookup, base, readDir, pathExists, acc, log)
  {
    var out;
    out, log' := ex.RunShell(DirListCommand(base), true, host, log);
    acc' := acc;
    if out.Ok? {
      acc', log' := ScanDirLines(ex, host, lookup, base, Lines(out.value.stdout), acc, log');
    }
    match readDir(base) {
      case None =>
      case Some(entries) =>
        acc', log' := ScanEntries(ex, host, lookup, base, entries, pathExists, acc', log');
    }
  }

  /** `list_all_containers`. */
  method ListAllContainers(ex: CommandExecutor, host: Host, readDir: string -> Option<seq<string>>,
                           pathExists: string -> bool, log: seq<Event>)
    returns (r: Result<seq<ContainerInfo>>, log': seq<Event>)
    ensures Traced(r, log') == ListAll(Shell(ex.mode, ex.caps, host), NamedStatus(Shell(ex.mode, ex.caps, host)),
                                       readDir, pathExists, log)
  {
    var lookup := NamedStatus(Shell(ex.mode, ex.caps, host));
    var acc := Listing([], {});
    acc, log' := RunLsPass(ex, host, lookup, true, acc, log);
    acc, log' := RunLsPass(ex, host, lookup, false, acc, log');
    acc, log' := RunCsvPass(ex, host, lookup, acc, log');
    acc, log' := RunBasePass(ex, host, lookup, LxcBase, readDir, pathExists, acc, log');
    acc, log' := RunBasePass(ex, host, lookup, LxdBase, readDir, pathExists, acc, log');
    r := Ok(SortByName(acc.containers));
  }
}
