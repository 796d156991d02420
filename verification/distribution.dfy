/**
 * Host distribution detection and package-manager commands
 * (src/data/distribution.rs).  File contents, file existence and the
 * `--version` probes of package managers are inputs.
 */
module Distribution {
  import opened Common
  import opened Text

  datatype LinuxDistribution = Debian | Ubuntu | Fedora | RHEL | CentOS | Arch | OpenSUSE | Alpine | Unknown

  datatype PackageManager = Apt | Yum | Dnf | Pacman | Zypper | Apk

  datatype DistributionInfo = DistributionInfo(distro: LinuxDistribution, version: Option<string>, packageManager: PackageManager)

  /**
   * The files `detect_distribution` and `detect_version_for_distro` look at:
   * the content of /etc/os-release (if readable), whether /etc/debian_version
   * exists and its content, whether /etc/redhat-release exists and its
   * content, and whether /etc/arch-release and /etc/alpine-release exist.
   */
  datatype ReleaseFiles = ReleaseFiles(
    osRelease: Option<string>,
    debianVersionExists: bool,
    debianVersion: Option<string>,
    redhatReleaseExists: bool,
    redhatRelease: Option<string>,
    archReleaseExists: bool,
    alpineReleaseExists: bool)

  /** `Display`: the lower-case name of the distribution. */
  function Display(d: LinuxDistribution): (r: string)
    ensures |r| > 0 && '=' !in r && '"' !in r
  {
    match d
    case Debian => "debian"
    case Ubuntu => "ubuntu"
    case Fedora => "fedora"
    case RHEL => "rhel"
    case CentOS => "centos"
    case Arch => "arch"
    case OpenSUSE => "opensuse"
    case Alpine => "alpine"
    case Unknown => "unknown"
  }

  /** The `ID=` table; `None` for an unrecognised identifier. */
  function IdTable(id: string): Option<LinuxDistribution> {
    if id == "debian" then Some(Debian)
    else if id == "ubuntu" then Some(Ubuntu)
    else if id == "fedora" then Some(Fedora)
    else if id == "rhel" || id == "redhat" then Some(RHEL)
    else if id == "centos" then Some(CentOS)
    else if id == "arch" || id == "archlinux" then Some(Arch)
    else if id == "opensuse" || id == "opensuse-leap" || id == "opensuse-tumbleweed" then Some(OpenSUSE)
    else if id == "alpine" then Some(Alpine)
    else None
  }

  /** The `ID_LIKE=` rules: a RHEL family or a Debian family; `None` otherwise. */
  function IdLikeTable(idLike: string): (r: Option<LinuxDistribution>)
    ensures (Contains(idLike, "rhel") || Contains(idLike, "fedora")) ==>
      r == Some(if Contains(idLike, "centos") then CentOS else RHEL)
    ensures !(Contains(idLike, "rhel") || Contains(idLike, "fedora")) && Contains(idLike, "debian") ==>
      r == Some(if Contains(idLike, "ubuntu") then Ubuntu else Debian)
    ensures !Contains(idLike, "rhel") && !Contains(idLike, "fedora") && !Contains(idLike, "debian") ==> r == None
  {
    if Contains(idLike, "rhel") || Contains(idLike, "fedora") then
      if Contains(idLike, "centos") then Some(CentOS) else Some(RHEL)
    else if Contains(idLike, "debian") then
      if Contains(idLike, "ubuntu") then Some(Ubuntu) else Some(Debian)
    else None
  }

  /** `line.split('=').nth(1)` with the quotes trimmed and the text lower-cased. */
  function KeyValue(line: string): string {
    var pieces := Split(line, '=');
    if |pieces| >= 2 then ToLower(TrimMatches(pieces[1], '"')) else ""
  }

  /** What one os-release line decides, if anything. */
  function LineVerdict(line: string): Option<LinuxDistribution> {
    if StartsWith(line, "ID=") && IdTable(KeyValue(line)).Some? then IdTable(KeyValue(line))
    else if StartsWith(line, "ID_LIKE=") then IdLikeTable(KeyValue(line))
    else None
  }

  /** The os-release scan: the verdict of the first decisive line. */
  function ScanOsRelease(lines: seq<string>): (r: Option<LinuxDistribution>)
    ensures r.Some? ==> exists i :: 0 <= i < |lines| && LineVerdict(lines[i]) == r
    ensures r.None? ==> forall i :: 0 <= i < |lines| ==> LineVerdict(lines[i]).None?
    decreases |lines|
  {
    if |lines| == 0 then None
    else if LineVerdict(lines[0]).Some? then LineVerdict(lines[0])
    else ScanOsRelease(lines[1..])
  }

  /** The first decisive line wins, whatever follows it. */
  lemma {:induction false} FirstDecisiveLineWins(before: seq<string>, line: string, after: seq<string>)
    requires forall i :: 0 <= i < |before| ==> LineVerdict(before[i]).None?
    requires LineVerdict(line).Some?
    ensures ScanOsRelease(before + [line] + after) == LineVerdict(line)
    decreases |before|
  {
    var lines := before + [line] + after;
    if |before| > 0 {
      assert lines[0] == before[0];
      assert lines[1..] == before[1..] + [line] + after;
      assert ScanOsRelease(lines) == ScanOsRelease(lines[1..]);
      FirstDecisiveLineWins(before[1..], line, after);
    } else {
      assert lines[0] == line;
    }
  }

  /** The file-based fallbacks, in order, when os-release decides nothing. */
  function Fallback(files: ReleaseFiles): LinuxDistribution {
    if files.debianVersionExists then Debian
    else if files.redhatReleaseExists && files.redhatRelease.Some? then
      var lower := ToLower(files.redhatRelease.value);
      if Contains(lower, "centos") then CentOS
      else if Contains(lower, "fedora") then Fedora
      else RHEL
    else if files.archReleaseExists then Arch
    else if files.alpineReleaseExists then Alpine
    else Unknown
  }

  /** The result of `detect_distribution`. */
  function DetectedDistribution(files: ReleaseFiles): LinuxDistribution {
    var scanned := if files.osRelease.Some? then ScanOsRelease(Lines(files.osRelease.value)) else None;
    if scanned.Some? then scanned.value else Fallback(files)
  }

  /** `detect_distribution`: scans os-release line by line, then falls back on marker files. */
  method DetectDistribution(files: ReleaseFiles) returns (d: LinuxDistribution)
    ensures d == DetectedDistribution(files)
  {
    if files.osRelease.Some? {
      var lines := Lines(files.osRelease.value);
      var i := 0;
      while i < |lines|
        invariant 0 <= i <= |lines|
        invariant ScanOsRelease(lines) == ScanOsRelease(lines[i..])
      {
        var line := lines[i];
        assert lines[i..][1..] == lines[i + 1..];
        if StartsWith(line, "ID=") {
          var id := KeyValue(line);
          var known := IdTable(id);
          if known.Some? {
            return known.value;
          }
        }
        if StartsWith(line, "ID_LIKE=") {
          var idLike := KeyValue(line);
          if Contains(idLike, "rhel") || Contains(idLike, "fedora") {
            if Contains(idLike, "centos") {
              return CentOS;
            }
            return RHEL;
          }
          if Contains(idLike, "debian") {
            if Contains(idLike, "ubuntu") {
              return Ubuntu;
            }
            return Debian;
          }
        }
        i := i + 1;
      }
    }
    if files.debianVersionExists {
      return Debian;
    }
    if files.redhatReleaseExists && files.redhatRelease.Some? {
      var lower := ToLower(files.redhatRelease.value);
      if Contains(lower, "centos") {
        return CentOS;
      }
      if Contains(lower, "fedora") {
        return Fedora;
      }
      return RHEL;
    }
    if files.archReleaseExists {
      return Arch;
    }
    if files.alpineReleaseExists {
      return Alpine;
    }
    return Unknown;
  }

  /** `split('=').nth(1)` after a key whose name has no `=`. */
  lemma ValueAfterKey(key: string, value: string)
    requires '=' !in key && '=' !in value
    ensures Split(key + "=" + value, '=') == [key, value]
  {
    SplitJoin([key, value], '=');
  }

  /** The value of a `KEY=value` line whose value is lower case and has no `=` or quote. */
  lemma KeyValueOfPlainLine(key: string, value: string)
    requires '=' !in key && '=' !in value && '"' !in value && |value| > 0
    requires forall i :: 0 <= i < |value| ==> !IsAsciiUpper(value[i])
    ensures KeyValue(key + "=" + value) == value
  {
    ValueAfterKey(key, value);
    assert TrimMatches(value, '"') == value;
    LowerOfLower(value);
  }

  /** The `ID=` table recognises every name `Display` gives. */
  lemma IdTableOfDisplay(d: LinuxDistribution)
    requires d != Unknown
    ensures IdTable(Display(d)) == Some(d)
  {
    match d
    case Debian => assert Display(d) == "debian";
    case Ubuntu => assert Display(d) == "ubuntu";
    case Fedora => assert Display(d) == "fedora";
    case RHEL => assert Display(d) == "rhel";
    case CentOS => assert Display(d) == "centos";
    case Arch => assert Display(d) == "arch";
    case OpenSUSE => assert Display(d) == "opensuse";
    case Alpine => assert Display(d) == "alpine";
  }

  /**
   * Round trip: the name `Display` gives a distribution, written as an
   * os-release `ID=` line, is detected as that distribution.
   */
  lemma DisplayIdRoundTrip(d: LinuxDistribution)
    requires d != Unknown
    ensures LineVerdict("ID=" + Display(d)) == Some(d)
    ensures ScanOsRelease(["ID=" + Display(d)]) == Some(d)
  {
    var name := Display(d);
    DisplayIsLower(d);
    KeyValueOfPlainLine("ID", name);
    assert "ID" + "=" + name == "ID=" + name;
    assert StartsWith("ID=" + name, "ID=");
    IdTableOfDisplay(d);
  }

  /** The names `Display` gives hold no upper-case letter. */
  lemma DisplayIsLower(d: LinuxDistribution)
    ensures forall i :: 0 <= i < |Display(d)| ==> !IsAsciiUpper(Display(d)[i])
  {
    match d
    case Debian =>
    case Ubuntu =>
    case Fedora =>
    case RHEL =>
    case CentOS =>
    case Arch =>
    case OpenSUSE =>
    case Alpine =>
    case Unknown =>
  }

  /** Lower-casing a string with no upper-case letter leaves it unchanged. */
  lemma LowerOfLower(s: string)
    requires forall i :: 0 <= i < |s| ==> !IsAsciiUpper(s[i])
    ensures ToLower(s) == s
  {
  }

  /** `detect_version_for_distro`: the first `VERSION_ID=` value, else the Debian version file. */
  function VersionFrom(lines: seq<string>): (r: Option<string>)
    ensures r.Some? ==> exists i :: 0 <= i < |lines| && StartsWith(lines[i], "VERSION_ID=")
    decreases |lines|
  {
    if |lines| == 0 then None
    else if StartsWith(lines[0], "VERSION_ID=") then
      assert lines[0][10] == '=';
      SplitHasSecondPiece(lines[0], '=');
      Some(TrimMatches(Split(lines[0], '=')[1], '"'))
    else VersionFrom(lines[1..])
  }

  function DetectedVersion(files: ReleaseFiles, d: LinuxDistribution): Option<string> {
    var scanned := if files.osRelease.Some? then VersionFrom(Lines(files.osRelease.value)) else None;
    if scanned.Some? then scanned
    else if d == Debian && files.debianVersion.Some? then Some(Trim(files.debianVersion.value))
    else None
  }

  method DetectVersionForDistro(files: ReleaseFiles, d: LinuxDistribution) returns (v: Option<string>)
    ensures v == DetectedVersion(files, d)
    ensures v.Some? && d != Debian ==> files.osRelease.Some?
  {
    if files.osRelease.Some? {
      var lines := Lines(files.osRelease.value);
      var i := 0;
      while i < |lines|
        invariant 0 <= i <= |lines|
        invariant VersionFrom(lines) == VersionFrom(lines[i..])
      {
        assert lines[i..][1..] == lines[i + 1..];
        if StartsWith(lines[i], "VERSION_ID=") {
          assert lines[i][10] == '=';
          SplitHasSecondPiece(lines[i], '=');
          return Some(TrimMatches(Split(lines[i], '=')[1], '"'));
        }
        i := i + 1;
      }
    }
    if d == Debian && files.debianVersion.Some? {
      return Some(Trim(files.debianVersion.value));
    }
    return None;
  }

  /** The program name each manager's `--version` probe runs. */
  function Tool(pm: PackageManager): string {
    match pm
    case Apt => "apt-get"
    case Yum => "yum"
    case Dnf => "dnf"
    case Pacman => "pacman"
    case Zypper => "zypper"
    case Apk => "apk"
  }

  /** Probe order for an unknown distribution. */
  const ProbeOrder: seq<PackageManager> := [Apt, Dnf, Yum, Pacman, Zypper, Apk]

  /** The first manager of `order` whose probe could be started; Apt when none. */
  function FirstAvailable(order: seq<PackageManager>, startable: set<string>): (pm: PackageManager)
    ensures (exists i :: 0 <= i < |order| && Tool(order[i]) in startable) ==> pm in order && Tool(pm) in startable
    ensures (forall i :: 0 <= i < |order| ==> Tool(order[i]) !in startable) ==> pm == Apt
    decreases |order|
  {
    if |order| == 0 then Apt
    else if Tool(order[0]) in startable then order[0]
    else FirstAvailable(order[1..], startable)
  }

  /**
   * `detect_package_manager`: fixed per family, a `dnf` probe for the Red
   * Hat family, and the first startable manager for an unknown system.
   * `startable` holds the programs whose `--version` probe could be spawned.
   */
  function DetectPackageManager(d: LinuxDistribution, startable: set<string>): (pm: PackageManager)
    ensures (d == Debian || d == Ubuntu) ==> pm == Apt
    ensures (d == Fedora || d == RHEL || d == CentOS) ==> pm == (if "dnf" in startable then Dnf else Yum)
    ensures d == Arch ==> pm == Pacman
    ensures d == OpenSUSE ==> pm == Zypper
    ensures d == Alpine ==> pm == Apk
    ensures d == Unknown ==> pm == FirstAvailable(ProbeOrder, startable)
  {
    match d
    case Debian => Apt
    case Ubuntu => Apt
    case Fedora => if "dnf" in startable then Dnf else Yum
    case RHEL => if "dnf" in startable then Dnf else Yum
    case CentOS => if "dnf" in startable then Dnf else Yum
    case Arch => Pacman
    case OpenSUSE => Zypper
    case Alpine => Apk
    case Unknown => FirstAvailable(ProbeOrder, startable)
  }

  /** On an unknown system with `apt-get` and `dnf` both present, `apt-get` is preferred. */
  lemma UnknownPrefersApt(startable: set<string>)
    requires "apt-get" in startable
    ensures DetectPackageManager(Unknown, startable) == Apt
  {
  }

  /** `DistributionInfo::detect`. */
  method Detect(files: ReleaseFiles, startable: set<string>) returns (info: DistributionInfo)
    ensures info.distro == DetectedDistribution(files)
    ensures info.version == DetectedVersion(files, info.distro)
    ensures info.packageManager == DetectPackageManager(info.distro, startable)
  {
    var distro := DetectDistribution(files);
    var version := DetectVersionForDistro(files, distro);
    info := DistributionInfo(distro, version, DetectPackageManager(distro, startable));
  }

  /** The install prefix of each manager, up to and including its trailing space. */
  function InstallPrefix(pm: PackageManager): (r: string)
    ensures |r| > 0 && r[|r| - 1] == ' '
  {
    match pm
    case Apt => "apt-get install -y "
    case Yum => "yum install -y "
    case Dnf => "dnf install -y "
    case Pacman => "pacman -S --noconfirm "
    case Zypper => "zypper install -y "
    case Apk => "apk add "
  }

  /** `install_command`: the manager's prefix, then the packages separated by single spaces. */
  function InstallCommand(info: DistributionInfo, packages: seq<string>): (r: string)
    ensures StartsWith(r, InstallPrefix(info.packageManager))
    ensures r[|InstallPrefix(info.packageManager)|..] == Join(packages, " ")
  {
    var prefix := InstallPrefix(info.packageManager);
    var r := prefix + Join(packages, " ");
    assert r[..|prefix|] == prefix;
    r
  }

  /** The package list can be read back from an install command by splitting after the prefix. */
  lemma InstallCommandPackages(info: DistributionInfo, packages: seq<string>)
    requires |packages| >= 1
    requires forall i :: 0 <= i < |packages| ==> ' ' !in packages[i]
    ensures Split(InstallCommand(info, packages)[|InstallPrefix(info.packageManager)|..], ' ') == packages
  {
    SplitJoin(packages, ' ');
  }

  /** `update_command`: one fixed string per manager; only Yum and Dnf tolerate a non-zero exit. */
  function UpdateCommand(info: DistributionInfo): (r: string)
    ensures EndsWith(r, " || true") <==> (info.packageManager == Yum || info.packageManager == Dnf)
    ensures StartsWith(r, Tool(info.packageManager))
  {
    match info.packageManager
    case Apt => PlainCommand("apt-get", " update"); "apt-get" + " update"
    case Yum => TolerantCommand("yum", " check-update"); "yum" + " check-update" + " || true"
    case Dnf => TolerantCommand("dnf", " check-update"); "dnf" + " check-update" + " || true"
    case Pacman => PlainCommand("pacman", " -Sy"); "pacman" + " -Sy"
    case Zypper => PlainCommand("zypper", " refresh"); "zypper" + " refresh"
    case Apk => PlainCommand("apk", " update"); "apk" + " update"
  }

  /** A command without a `|` starts with its tool and cannot end with the `|| true` fallback. */
  lemma PlainCommand(tool: string, tail: string)
    requires '|' !in tool && '|' !in tail
    ensures StartsWith(tool + tail, tool) && !EndsWith(tool + tail, " || true")
  {
    var s := tool + tail;
    assert s[..|tool|] == tool;
    if 8 <= |s| {
      var k := |s| - 7;
      assert s[k] != '|' by {
        if k < |tool| { assert s[k] == tool[k]; } else { assert s[k] == tail[k - |tool|]; }
      }
      assert s[|s| - 8..][1] == s[k];
    }
  }

  /** A command with the fallback appended starts with its tool and ends with the fallback. */
  lemma TolerantCommand(tool: string, tail: string)
    ensures StartsWith(tool + tail + " || true", tool) && EndsWith(tool + tail + " || true", " || true")
  {
    var s := tool + tail + " || true";
    assert s[..|tool|] == tool;
    assert s[|s| - 8..] == " || true";
  }

  /** `package_name`: every distribution uses the same package names. */
  function PackageName(info: DistributionInfo, basePackage: string): (r: string)
    ensures r == basePackage
  {
    if basePackage == "lxc-templates" then "lxc-templates" else basePackage
  }

  /** `needs_root_for_lxc`: only RHEL and CentOS, not Fedora. */
  function NeedsRootForLxc(info: DistributionInfo): (r: bool)
    ensures r <==> info.distro in {RHEL, CentOS}
  {
    info.distro == RHEL || info.distro == CentOS
  }
}
