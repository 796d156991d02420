/**
 * The installer (src/deployment/installer.rs): installation configuration and
 * its builders, the dispatch on the installation type, the toolchain version
 * checks with their dotted-version comparison, and the mapping of `uname -m`
 * to a Go download architecture.
 */
module Installer {
  import opened Common
  import opened Text
  import opened Executor

  const RequiredRustVersion := "1.70.0"
  const RequiredGoVersion := "1.21.0"

  // ---------------------------------------------------------------- versions

  /** Component `i` of a version, zero past its end. */
  function Pad(v: seq<nat>, i: nat): nat {
    if i < |v| then v[i] else 0
  }

  function Max(a: nat, b: nat): nat { if a >= b then a else b }

  /** The comparison loop from component `i` to `n`: the first differing component decides, equality means at least. */
  function AtLeastFrom(a: seq<nat>, b: seq<nat>, i: nat, n: nat): bool
    decreases n - i
  {
    if i >= n then true
    else if Pad(a, i) > Pad(b, i) then true
    else if Pad(a, i) < Pad(b, i) then false
    else AtLeastFrom(a, b, i + 1, n)
  }

  /** Component-wise numeric order with missing trailing components read as 0. */
  predicate AtLeast(a: seq<nat>, b: seq<nat>) {
    AtLeastFrom(a, b, 0, Max(|a|, |b|))
  }

  /** Components `i` up to `k` of the two versions agree. */
  predicate AgreeBetween(a: seq<nat>, b: seq<nat>, i: nat, k: nat) {
    forall j :: i <= j < k ==> Pad(a, j) == Pad(b, j)
  }

  /**
   * Reference reading of the order: either all components up to `n` agree,
   * or they agree up to some `k` where `a`'s component is the larger.
   */
  lemma {:induction false} AtLeastFromIsLexicographic(a: seq<nat>, b: seq<nat>, i: nat, n: nat)
    requires i <= n
    ensures AtLeastFrom(a, b, i, n) <==>
      (AgreeBetween(a, b, i, n) || exists k :: i <= k < n && AgreeBetween(a, b, i, k) && Pad(a, k) > Pad(b, k))
    decreases n - i
  {
    if i < n {
      AtLeastFromIsLexicographic(a, b, i + 1, n);
      if Pad(a, i) == Pad(b, i) {
        if exists k :: i + 1 <= k < n && AgreeBetween(a, b, i + 1, k) && Pad(a, k) > Pad(b, k) {
          var k :| i + 1 <= k < n && AgreeBetween(a, b, i + 1, k) && Pad(a, k) > Pad(b, k);
          assert AgreeBetween(a, b, i, k);
        }
        if exists k :: i <= k < n && AgreeBetween(a, b, i, k) && Pad(a, k) > Pad(b, k) {
          var k :| i <= k < n && AgreeBetween(a, b, i, k) && Pad(a, k) > Pad(b, k);
          assert k > i && AgreeBetween(a, b, i + 1, k);
        }
      } else {
        assert AgreeBetween(a, b, i, i);
        assert !AgreeBetween(a, b, i, n);
        forall k | i < k < n
          ensures !AgreeBetween(a, b, i, k)
        {
          assert Pad(a, i) != Pad(b, i);
        }
      }
    }
  }

  /** Every version is at least itself. */
  lemma {:induction false} AtLeastReflexive(a: seq<nat>)
    ensures AtLeast(a, a)
  {
    AtLeastFromIsLexicographic(a, a, 0, Max(|a|, |a|));
  }

  /** Any two versions are comparable: one of them is at least the other. */
  lemma {:induction false} AtLeastTotal(a: seq<nat>, b: seq<nat>)
    ensures AtLeast(a, b) || AtLeast(b, a)
  {
    var n := Max(|a|, |b|);
    assert Max(|b|, |a|) == n;
    AtLeastFromIsLexicographic(a, b, 0, n);
    AtLeastFromIsLexicographic(b, a, 0, n);
    if !AtLeast(a, b) {
      assert !AgreeBetween(a, b, 0, n);
      var k := FirstDifference(a, b, 0, n);
      assert Pad(a, k) < Pad(b, k);
      assert AgreeBetween(b, a, 0, k);
    }
  }

  /** The first component at which two versions differ, when they do. */
  lemma {:induction false} FirstDifference(a: seq<nat>, b: seq<nat>, i: nat, n: nat) returns (k: nat)
    requires i <= n && !AgreeBetween(a, b, i, n)
    ensures i <= k < n && AgreeBetween(a, b, i, k) && Pad(a, k) != Pad(b, k)
    decreases n - i
  {
    if Pad(a, i) != Pad(b, i) {
      k := i;
    } else {
      k := FirstDifference(a, b, i + 1, n);
      assert AgreeBetween(a, b, i, k);
    }
  }

  /** Comparing further than both lengths changes nothing: the extra components are zero on both sides. */
  lemma {:induction false} AtLeastFromExtend(a: seq<nat>, b: seq<nat>, i: nat, n: nat, m: nat)
    requires i <= n <= m && |a| <= n && |b| <= n
    ensures AtLeastFrom(a, b, i, n) == AtLeastFrom(a, b, i, m)
    decreases m - i
  {
    if i < n {
      AtLeastFromExtend(a, b, i + 1, n, m);
    } else {
      ZeroTail(a, b, i, m);
    }
  }

  /** Past both lengths every component is zero on both sides, so the comparison holds. */
  lemma {:induction false} ZeroTail(a: seq<nat>, b: seq<nat>, i: nat, m: nat)
    requires |a| <= i && |b| <= i
    ensures AtLeastFrom(a, b, i, m)
    decreases m - i
  {
    if i < m {
      ZeroTail(a, b, i + 1, m);
    }
  }

  /** The comparison only looks at padded components. */
  lemma {:induction false} AtLeastFromSamePads(a: seq<nat>, a': seq<nat>, b: seq<nat>, i: nat, n: nat)
    requires forall j :: 0 <= j < n ==> Pad(a, j) == Pad(a', j)
    ensures AtLeastFrom(a, b, i, n) == AtLeastFrom(a', b, i, n)
    decreases n - i
  {
    if i < n {
      AtLeastFromSamePads(a, a', b, i + 1, n);
    }
  }

  /** A trailing zero component makes no difference: "1.70" and "1.70.0" compare as equal. */
  lemma TrailingZeroIgnored(a: seq<nat>, b: seq<nat>)
    ensures AtLeast(a + [0], b) == AtLeast(a, b)
    ensures AtLeast(b, a + [0]) == AtLeast(b, a)
  {
    var n := Max(|a|, |b|);
    var m := Max(|a| + 1, |b|);
    assert forall j :: 0 <= j < m ==> Pad(a + [0], j) == Pad(a, j);
    AtLeastFromSamePads(a + [0], a, b, 0, m);
    AtLeastFromExtend(a, b, 0, n, m);
    AtLeastFromSamePadsRight(b, a + [0], a, 0, m);
    AtLeastFromExtend(b, a, 0, n, m);
    assert Max(|b|, |a| + 1) == m && Max(|b|, |a|) == n;
  }

  lemma {:induction false} AtLeastFromSamePadsRight(a: seq<nat>, b: seq<nat>, b': seq<nat>, i: nat, n: nat)
    requires forall j :: 0 <= j < n ==> Pad(b, j) == Pad(b', j)
    ensures AtLeastFrom(a, b, i, n) == AtLeastFrom(a, b', i, n)
    decreases n - i
  {
    if i < n {
      AtLeastFromSamePadsRight(a, b, b', i + 1, n);
    }
  }

  /**
   * A trailing ".0" makes no difference: a version and the same version
   * followed by ".0" are each at least the other.
   */
  lemma TrailingZeroComponentIgnored(v: string, prefix: string)
    requires |v| > 0 && !IsWhitespace(v[0]) && !IsWhitespace(v[|v| - 1])
    requires |prefix| > 0 && !StartsWith(v, prefix) && !StartsWith(v + ".0", prefix)
    ensures VersionAtLeast(v, v + ".0", prefix) && VersionAtLeast(v + ".0", v, prefix)
  {
    var parts := Components(Split(v, '.'));
    assert InstalledNumbers(v, prefix) == parts && RequiredNumbers(v) == parts by {
      NumbersOfPlain(v, prefix);
    }
    LongFormNumbers(v, prefix);
    TrailingZeroIgnored(parts, parts);
    AtLeastReflexive(parts);
  }

  /** The numbers of a version followed by ".0" are those of the version followed by 0. */
  lemma LongFormNumbers(v: string, prefix: string)
    requires |v| > 0 && !IsWhitespace(v[0]) && !IsWhitespace(v[|v| - 1])
    requires |prefix| > 0 && !StartsWith(v + ".0", prefix)
    ensures InstalledNumbers(v + ".0", prefix) == Components(Split(v, '.')) + [0]
    ensures RequiredNumbers(v + ".0") == Components(Split(v, '.')) + [0]
  {
    LongFormPlain(v, prefix);
    LongFormComponents(v);
  }

  lemma LongFormPlain(v: string, prefix: string)
    requires |v| > 0 && !IsWhitespace(v[0]) && !IsWhitespace(v[|v| - 1])
    requires |prefix| > 0 && !StartsWith(v + ".0", prefix)
    ensures InstalledNumbers(v + ".0", prefix) == Components(Split(v + ".0", '.'))
    ensures RequiredNumbers(v + ".0") == Components(Split(v + ".0", '.'))
  {
    var long := v + ".0";
    assert long[0] == v[0] && long[|long| - 1] == '0';
    NumbersOfPlain(long, prefix);
  }

  lemma LongFormComponents(v: string)
    ensures Components(Split(v + ".0", '.')) == Components(Split(v, '.')) + [0]
  {
    SplitDotZero(v);
    var zero := ZeroPiece();
    ComponentsAppend(Split(v, '.'), zero);
  }

  lemma SplitDotZero(v: string)
    ensures Split(v + ".0", '.') == Split(v, '.') + ["0"]
  {
    var zero := ZeroPiece();
    assert v + ".0" == v + ['.'] + zero;
    SplitAppend(v, '.', zero);
  }

  /** A version with no surrounding White_Space and without the tool prefix is left as it is. */
  lemma CleanOfPlain(v: string, prefix: string)
    requires |v| > 0 && !IsWhitespace(v[0]) && !IsWhitespace(v[|v| - 1])
    requires |prefix| > 0 && !StartsWith(v, prefix)
    ensures Trim(v) == v && CleanInstalled(v, prefix) == v
  {
    TrimOfTrimmed(v);
    assert TrimStartMatches(v, prefix) == v;
  }

  lemma ComponentsAppend(parts: seq<string>, piece: string)
    ensures Components(parts + [piece]) == Components(parts) + [Component(piece)]
  {
    var l := Components(parts + [piece]);
    var r := Components(parts) + [Component(piece)];
    assert |l| == |r|;
    forall i | 0 <= i < |l|
      ensures l[i] == r[i]
    {
      if i < |parts| {
        assert (parts + [piece])[i] == parts[i];
      }
    }
  }

  lemma NumbersOfPlain(v: string, prefix: string)
    requires |v| > 0 && !IsWhitespace(v[0]) && !IsWhitespace(v[|v| - 1])
    requires |prefix| > 0 && !StartsWith(v, prefix)
    ensures InstalledNumbers(v, prefix) == Components(Split(v, '.'))
    ensures RequiredNumbers(v) == Components(Split(v, '.'))
  {
    CleanOfPlain(v, prefix);
  }

  /** The piece "0" has no dot and reads as the component 0. */
  lemma ZeroPiece() returns (zero: string)
    ensures zero == "0" && '.' !in zero && Component(zero) == 0
  {
    zero := "0";
    assert AllDigits(zero) && DigitsValue(zero) == 0;
  }

  /** "1.70" and "1.70.0" compare as equal in both directions. */
  lemma ShortAndLongFormsAgree(short: string, long: string, prefix: string)
    requires short == "1.70" && long == "1.70.0" && prefix in {"rustc", "go"}
    ensures VersionAtLeast(short, long, prefix) && VersionAtLeast(long, short, prefix)
  {
    assert !StartsWith(short, prefix) && !StartsWith(short + ".0", prefix) by {
      assert short[0] != prefix[0];
    }
    assert short + ".0" == long;
    TrailingZeroComponentIgnored(short, prefix);
  }

  /** `s.parse::<u32>().ok().unwrap_or(0)`: anything that is not a `u32` counts as 0. */
  function Component(s: string): nat {
    match ParseUnsigned(s, U32Limit)
    case None => 0
    case Some(v) => v
  }

  /** Unparseable components (not digits, or beyond `u32`) count as 0; others as their value. */
  lemma ComponentValue(s: string)
    ensures ParseUnsigned(s, U32Limit).None? ==> Component(s) == 0
    ensures ParseUnsigned(s, U32Limit).Some? ==> Component(s) == ParseUnsigned(s, U32Limit).value < U32Limit
  {
  }

  function Components(parts: seq<string>): (r: seq<nat>)
    ensures |r| == |parts|
    ensures forall i :: 0 <= i < |parts| ==> r[i] == Component(parts[i])
  {
    seq(|parts|, i requires 0 <= i < |parts| => Component(parts[i]))
  }

  /** The installed version after `trim`, `trim_start_matches(prefix)`, `trim`. */
  function CleanInstalled(installed: string, prefix: string): string {
    Trim(TrimStartMatches(Trim(installed), prefix))
  }

  /** What `compare_versions` answers. */
  predicate VersionAtLeast(installed: string, required: string, prefix: string) {
    AtLeast(InstalledNumbers(installed, prefix), RequiredNumbers(required))
  }

  function InstalledNumbers(installed: string, prefix: string): seq<nat> {
    Components(Split(CleanInstalled(installed, prefix), '.'))
  }

  function RequiredNumbers(required: string): seq<nat> {
    Components(Split(Trim(required), '.'))
  }

  /**
   * `compare_versions` (identical in `RustInstaller` with prefix "rustc" and
   * `GoInstaller` with prefix "go"): walks the components of both versions up
   * to the longer one, missing or unparseable components read as 0.
   */
  method CompareVersions(installed: string, required: string, prefix: string) returns (r: bool)
    ensures r == VersionAtLeast(installed, required, prefix)
  {
    var installedParts := Split(CleanInstalled(installed, prefix), '.');
    var requiredParts := Split(Trim(required), '.');
    r := CompareParts(installedParts, requiredParts);
  }

  lemma PadComponents(parts: seq<string>, i: nat)
    ensures Pad(Components(parts), i) == if i < |parts| then Component(parts[i]) else 0
  {
  }

  /** The loop of `compare_versions` over the dot-separated pieces. */
  method CompareParts(installedParts: seq<string>, requiredParts: seq<string>) returns (r: bool)
    ensures r == AtLeast(Components(installedParts), Components(requiredParts))
  {
    ghost var a := Components(installedParts);
    ghost var b := Components(requiredParts);
    var n := if |installedParts| >= |requiredParts| then |installedParts| else |requiredParts|;
    assert n == Max(|a|, |b|);
    for i := 0 to n
      invariant AtLeast(a, b) == AtLeastFrom(a, b, i, n)
    {
      var installedNum := if i < |installedParts| then Component(installedParts[i]) else 0;
      var requiredNum := if i < |requiredParts| then Component(requiredParts[i]) else 0;
      PadComponents(installedParts, i);
      PadComponents(requiredParts, i);
      assert installedNum == Pad(a, i) && requiredNum == Pad(b, i);
      if installedNum > requiredNum {
        return true;
      } else if installedNum < requiredNum {
        return false;
      }
    }
    return true;
  }

  /** A version without the tool prefix compares as at least itself. */
  lemma VersionAtLeastReflexive(v: string, prefix: string)
    requires |prefix| > 0 && !StartsWith(Trim(v), prefix)
    ensures VersionAtLeast(v, v, prefix)
  {
    var t := Trim(v);
    assert TrimStartMatches(t, prefix) == t;
    TrimOfTrimmed(t);
    assert CleanInstalled(v, prefix) == t;
    AtLeastReflexive(Components(Split(t, '.')));
  }

  // ------------------------------------------------------- toolchain checks

  const RustCheckCmd := "command -v rustc >/dev/null 2>&1 && rustc --version 2>/dev/null || echo 'not_installed'"
  const GoCheckCmd := "command -v go >/dev/null 2>&1 && go version 2>/dev/null || echo 'not_installed'"

  /** The version token `check_rust_installed` reads: the second word of "rustc X.Y.Z (...)". */
  function RustVersionToken(stdout: string): Option<string> {
    var words := SplitWhitespace(Trim(stdout));
    if |words| >= 2 then Some(words[1]) else None
  }

  /** The version token `check_go_installed` reads: the third word of "go version goX.Y.Z os/arch", without "go". */
  function GoVersionToken(stdout: string): Option<string> {
    var words := SplitWhitespace(Trim(stdout));
    if |words| >= 3 then Some(TrimStartMatches(words[2], "go")) else None
  }

  /** The answer of a toolchain check from the probe's outcome. */
  function InstalledVerdict(probe: Result<CommandOutput>, token: Option<string>, required: string, prefix: string): (r: Result<bool>)
    ensures probe.Err? ==> r == Err(probe.error)
    ensures probe.Ok? && Contains(probe.value.stdout, "not_installed") ==> r == Ok(false)
    ensures probe.Ok? && token.None? ==> r == Ok(false)
    ensures r == Ok(true) ==> probe.Ok? && token.Some? && VersionAtLeast(token.value, required, prefix)
  {
    if probe.Err? then Err(probe.error)
    else if Contains(probe.value.stdout, "not_installed") then Ok(false)
    else if token.None? then Ok(false)
    else Ok(VersionAtLeast(token.value, required, prefix))
  }

  /** `check_rust_installed`: one unprivileged probe, then the version comparison with 1.70.0. */
  method CheckRustInstalled(ex: CommandExecutor, host: Host, log: seq<Event>) returns (r: Result<bool>, log': seq<Event>)
    ensures var t := Execute(ex.mode, ex.caps, RustCheckCmd, false, host, log);
      log' == t.log
      && r == InstalledVerdict(t.value, if t.value.Ok? then RustVersionToken(t.value.value.stdout) else None,
                               RequiredRustVersion, "rustc")
  {
    var output;
    output, log' := ex.RunShell(RustCheckCmd, false, host, log);
    if output.Err? {
      return Err(output.error), log';
    }
    if Contains(output.value.stdout, "not_installed") {
      return Ok(false), log';
    }
    var token := RustVersionToken(output.value.stdout);
    if token.Some? {
      var ok := CompareVersions(token.value, RequiredRustVersion, "rustc");
      return Ok(ok), log';
    }
    return Ok(false), log';
  }

  /** `check_go_installed`: one unprivileged probe, then the version comparison with 1.21.0. */
  method CheckGoInstalled(ex: CommandExecutor, host: Host, log: seq<Event>) returns (r: Result<bool>, log': seq<Event>)
    ensures var t := Execute(ex.mode, ex.caps, GoCheckCmd, false, host, log);
      log' == t.log
      && r == InstalledVerdict(t.value, if t.value.Ok? then GoVersionToken(t.value.value.stdout) else None,
                               RequiredGoVersion, "go")
  {
    var output;
    output, log' := ex.RunShell(GoCheckCmd, false, host, log);
    if output.Err? {
      return Err(output.error), log';
    }
    if Contains(output.value.stdout, "not_installed") {
      return Ok(false), log';
    }
    var token := GoVersionToken(output.value.stdout);
    if token.Some? {
      var ok := CompareVersions(token.value, RequiredGoVersion, "go");
      return Ok(ok), log';
    }
    return Ok(false), log';
  }

  // ------------------------------------------------------ Go architecture

  datatype TargetOs = Linux | MacOs | Windows | OtherOs

  const UnameCmd := "uname -m"

  /** The Go download name of a machine architecture as `uname -m` prints it (trimmed, lower-cased). */
  function GoArch(arch: string): (r: Option<string>)
    ensures r.Some? ==> r.value in {"amd64", "arm64", "armv6l", "ppc64le", "s390x"}
  {
    if arch == "x86_64" || arch == "amd64" then Some("amd64")
    else if arch == "aarch64" || arch == "arm64" then Some("arm64")
    else if arch == "armv7l" || arch == "armv6l" then Some("armv6l")
    else if arch == "ppc64le" then Some("ppc64le")
    else if arch == "s390x" then Some("s390x")
    else None
  }

  /** Every Go architecture name maps to itself. */
  lemma GoArchFixpoint(name: string)
    requires name in {"amd64", "arm64", "armv6l", "ppc64le", "s390x"}
    ensures GoArch(name) == Some(name)
  {
  }

  /**
   * `detect_go_architecture`: the OS from the build target (no command for an
   * unsupported one), then `uname -m`, trimmed and lower-cased, through the table.
   */
  function DetectGoArchitecture(os: TargetOs, mode: ActionMode, caps: Capabilities, host: Host, log: seq<Event>)
    : (t: Traced<Result<(string, string)>>)
    ensures os == OtherOs ==> t == Traced(Err(Failed("OS non supporté pour l'installation de Go")), log)
    ensures os != OtherOs ==> t.log == Execute(mode, caps, UnameCmd, false, host, log).log
    ensures t.value.Ok? ==>
      t.value.value.0 in {"linux", "darwin", "windows"} && t.value.value.1 in {"amd64", "arm64", "armv6l", "ppc64le", "s390x"}
    ensures os != OtherOs && Execute(mode, caps, UnameCmd, false, host, log).value.Ok? ==>
      var arch := ToLower(Trim(Execute(mode, caps, UnameCmd, false, host, log).value.value.stdout));
      (t.value.Ok? <==> GoArch(arch).Some?)
      && (GoArch(arch).None? ==> t.value == Err(Failed("Architecture non supportée : " + arch)))
  {
    if os == OtherOs then Traced(Err(Failed("OS non supporté pour l'installation de Go")), log)
    else
      var osName := match os
        case Linux => "linux"
        case MacOs => "darwin"
        case Windows => "windows";
      var probe := Execute(mode, caps, UnameCmd, false, host, log);
      if probe.value.Err? then Traced(Err(probe.value.error), probe.log)
      else
        var arch := ToLower(Trim(probe.value.value.stdout));
        match GoArch(arch)
        case None => Traced(Err(Failed("Architecture non supportée : " + arch)), probe.log)
        case Some(goArch) => Traced(Ok((osName, goArch)), probe.log)
  }

  // ---------------------------------------------------------- configuration

  datatype InstallationMode = DesktopGui | WebServer | TerminalTui
  datatype InstallationType = Host | ContainerAlpine | VmRocky

  /** The deployment logger, of which only the presence matters here. */
  datatype DeploymentLogger = DeploymentLogger(logFile: string)

  datatype InstallationConfig = InstallationConfig(
    installationType: InstallationType,
    rmdbSourcePath: string,
    containerName: Option<string>,
    vmName: Option<string>,
    alpineVersion: Option<string>,
    rockyVersion: Option<string>,
    installRust: bool,
    installGo: bool,
    logger: Option<DeploymentLogger>,
    installationMode: Option<InstallationMode>)

  /** `InstallationConfig::new`: Alpine 3.19, Rocky 9, both toolchains, no names, logger or mode. */
  function NewConfig(installationType: InstallationType, rmdbSourcePath: string): (c: InstallationConfig)
    ensures c.installationType == installationType && c.rmdbSourcePath == rmdbSourcePath
    ensures c.alpineVersion == Some("3.19") && c.rockyVersion == Some("9")
    ensures c.installRust && c.installGo
    ensures c.containerName.None? && c.vmName.None? && c.logger.None? && c.installationMode.None?
  {
    InstallationConfig(installationType, rmdbSourcePath, None, None, Some("3.19"), Some("9"), true, true, None, None)
  }

  // Each builder sets its own field; undoing that one change gives the original back.

  function WithLogger(c: InstallationConfig, logger: DeploymentLogger): (r: InstallationConfig)
    ensures r.logger == Some(logger) && r.(logger := c.logger) == c
  {
    c.(logger := Some(logger))
  }

  function WithContainerName(c: InstallationConfig, name: string): (r: InstallationConfig)
    ensures r.containerName == Some(name) && r.(containerName := c.containerName) == c
  {
    c.(containerName := Some(name))
  }

  function WithVmName(c: InstallationConfig, name: string): (r: InstallationConfig)
    ensures r.vmName == Some(name) && r.(vmName := c.vmName) == c
  {
    c.(vmName := Some(name))
  }

  function WithAlpineVersion(c: InstallationConfig, version: string): (r: InstallationConfig)
    ensures r.alpineVersion == Some(version) && r.(alpineVersion := c.alpineVersion) == c
  {
    c.(alpineVersion := Some(version))
  }

  function WithRockyVersion(c: InstallationConfig, version: string): (r: InstallationConfig)
    ensures r.rockyVersion == Some(version) && r.(rockyVersion := c.rockyVersion) == c
  {
    c.(rockyVersion := Some(version))
  }

  function WithRustInstall(c: InstallationConfig, install: bool): (r: InstallationConfig)
    ensures r.installRust == install && r.(installRust := c.installRust) == c
  {
    c.(installRust := install)
  }

  function WithGoInstall(c: InstallationConfig, install: bool): (r: InstallationConfig)
    ensures r.installGo == install && r.(installGo := c.installGo) == c
  {
    c.(installGo := install)
  }

  function WithInstallationMode(c: InstallationConfig, mode: InstallationMode): (r: InstallationConfig)
    ensures r.installationMode == Some(mode) && r.(installationMode := c.installationMode) == c
  {
    c.(installationMode := Some(mode))
  }

  /** Builders on different fields commute; the last call on the same field wins. */
  lemma BuildersCommute(c: InstallationConfig, name: string, vm: string, a: string, b: string)
    ensures WithContainerName(WithVmName(c, vm), name) == WithVmName(WithContainerName(c, name), vm)
    ensures WithContainerName(WithContainerName(c, a), b) == WithContainerName(c, b)
  {
  }

  // --------------------------------------------------------------- dispatch

  /** The steps an installation runs; their own commands are not part of this model. */
  datatype InstallStep =
    | InstallRustStep
    | InstallGoStep
    | InstallRmdbOnHost(sourcePath: string)
    | CreateContainer(name: string, alpineVersion: string)
    | InstallRmdbInContainer(name: string, sourcePath: string)
    | CreateVm(name: string, rockyVersion: string)
    | InstallRmdbInVm(name: string, sourcePath: string)

  /** How each step ends. */
  type StepRunner = InstallStep -> Result<CommandOutput>

  function Toolchains(c: InstallationConfig): seq<InstallStep> {
    (if c.installRust then [InstallRustStep] else []) + (if c.installGo then [InstallGoStep] else [])
  }

  /** Every one of `steps` ends without error. */
  predicate AllOk(steps: seq<InstallStep>, run: StepRunner) {
    forall i :: 0 <= i < |steps| ==> run(steps[i]).Ok?
  }

  /** Runs steps in order and stops at the first error (the `?` operator). */
  function RunSteps(steps: seq<InstallStep>, run: StepRunner): (r: (Option<ExecError>, seq<InstallStep>))
    ensures r.1 <= steps
    ensures r.0.None? <==> r.1 == steps && AllOk(steps, run)
    ensures r.0.Some? ==>
      |r.1| > 0 && run(r.1[|r.1| - 1]) == Err(r.0.value) && AllOk(r.1[..|r.1| - 1], run)
    decreases |steps|
  {
    if |steps| == 0 then (None, [])
    else match run(steps[0])
      case Err(e) => (Some(e), [steps[0]])
      case Ok(_) =>
        var rest := RunSteps(steps[1..], run);
        RunStepsCons(steps, run, rest);
        (rest.0, [steps[0]] + rest.1)
  }

  /** A successful first step followed by the run of the others is the run of all of them. */
  lemma RunStepsCons(steps: seq<InstallStep>, run: StepRunner, rest: (Option<ExecError>, seq<InstallStep>))
    requires |steps| > 0 && run(steps[0]).Ok?
    requires rest.1 <= steps[1..]
    requires rest.0.None? <==> rest.1 == steps[1..] && AllOk(steps[1..], run)
    requires rest.0.Some? ==>
      |rest.1| > 0 && run(rest.1[|rest.1| - 1]) == Err(rest.0.value) && AllOk(rest.1[..|rest.1| - 1], run)
    ensures var ran := [steps[0]] + rest.1;
      ran <= steps
      && (rest.0.None? <==> ran == steps && AllOk(steps, run))
      && (rest.0.Some? ==> |ran| > 0 && run(ran[|ran| - 1]) == Err(rest.0.value) && AllOk(ran[..|ran| - 1], run))
  {
    var ran := [steps[0]] + rest.1;
    assert steps == [steps[0]] + steps[1..];
    assert AllOk(steps, run) <==> AllOk(steps[1..], run) by {
      assert forall i :: 1 <= i < |steps| ==> steps[i] == steps[1..][i - 1];
    }
    if rest.0.Some? {
      assert ran[..|ran| - 1] == [steps[0]] + rest.1[..|rest.1| - 1];
    }
  }

  /** The steps each installation type plans, or the error for a missing name or version. */
  function Plan(c: InstallationConfig): Result<(seq<InstallStep>, string)> {
    match c.installationType
    case Host =>
      Ok((Toolchains(c) + [InstallRmdbOnHost(c.rmdbSourcePath)], "RMDB installé avec succès sur le système hôte"))
    case ContainerAlpine =>
      if c.containerName.None? then Err(Failed("Nom du container requis"))
      else if c.alpineVersion.None? then Err(Failed("Version Alpine requise"))
      else
        var name := c.containerName.value;
        Ok((Toolchains(c) + [CreateContainer(name, c.alpineVersion.value), InstallRmdbInContainer(name, c.rmdbSourcePath)],
            "RMDB installé avec succès dans le container " + name))
    case VmRocky =>
      if c.vmName.None? then Err(Failed("Nom de la VM requise"))
      else if c.rockyVersion.None? then Err(Failed("Version Rocky requise"))
      else
        var name := c.vmName.value;
        Ok((Toolchains(c) + [CreateVm(name, c.rockyVersion.value), InstallRmdbInVm(name, c.rmdbSourcePath)],
            "RMDB installé avec succès dans la VM " + name))
  }

  /**
   * `RMDBInstaller::install`: dispatches on the installation type; a missing
   * container or VM name (or version) fails before any step; otherwise the
   * planned steps run in order until one fails.
   */
  function Install(c: InstallationConfig, run: StepRunner): (r: (Result<CommandOutput>, seq<InstallStep>))
    ensures c.installationType == ContainerAlpine && c.containerName.None? ==>
      r == (Err(Failed("Nom du container requis")), [])
    ensures c.installationType == VmRocky && c.vmName.None? ==>
      r == (Err(Failed("Nom de la VM requise")), [])
    ensures Plan(c).Err? ==> r == (Err(Plan(c).error), [])
    ensures Plan(c).Ok? ==> r.1 <= Plan(c).value.0
    ensures Plan(c).Ok? ==>
      (r.0.Ok? <==> r.1 == Plan(c).value.0 && AllOk(r.1, run))
    ensures r.0.Ok? ==> r.0.value == CommandOutput(Some(0), Plan(c).value.1, "")
  {
    match Plan(c)
    case Err(e) => (Err(e), [])
    case Ok((steps, message)) =>
      var ran := RunSteps(steps, run);
      if ran.0.Some? then (Err(ran.0.value), ran.1)
      else (Ok(CommandOutput(Some(0), message, "")), ran.1)
  }

  /** A host installation never creates a container or a virtual machine. */
  lemma HostInstallCreatesNothing(c: InstallationConfig, run: StepRunner)
    requires c.installationType == Host
    ensures forall step :: step in Install(c, run).1 ==> !step.CreateContainer? && !step.CreateVm?
  {
    var r := Install(c, run);
    var tools := Toolchains(c);
    var steps := tools + [InstallRmdbOnHost(c.rmdbSourcePath)];
    assert Plan(c).value.0 == steps;
    forall step | step in r.1
      ensures !step.CreateContainer? && !step.CreateVm?
    {
      var i :| 0 <= i < |r.1| && r.1[i] == step;
      assert step == steps[i];
      if i < |tools| {
        assert step in tools;
      }
    }
  }
}
