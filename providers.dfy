/** The provider contract (provider/interface.go), the factory
    (provider/factory.go) and the derivations of the four providers
    (provider/remi.go, provider/litespeed.go, provider/altphp.go,
    provider/docker.go): service names, socket and config paths, the
    minimum-version gate of InstallPHP and the fixed available-version lists.

    The contract is a closed set of four kinds; a provider value carries the
    registry and OS family it was created with, and every operation dispatches
    on its kind. */
module Providers {
  import opened Wrappers
  import opened GoStrings
  import opened OS
  import Registry

  datatype ProviderKind = Remi | LiteSpeed | AltPHP | Docker

  /** The ProviderType constants. */
  function TypeName(k: ProviderKind): string {
    match k
    case Remi => "remi"
    case LiteSpeed => "lsphp"
    case AltPHP => "alt-php"
    case Docker => "docker"
  }

  const ProviderNames: set<string> := {"remi", "lsphp", "alt-php", "docker"}

  /** The switch on a provider string shared by the factory and the pool
      manager. */
  function ParseProviderType(s: string): (r: Option<ProviderKind>)
    ensures r.Some? <==> s in ProviderNames
    ensures r.Some? ==> TypeName(r.value) == s
  {
    match s
    case "remi" => Some(Remi)
    case "lsphp" => Some(LiteSpeed)
    case "alt-php" => Some(AltPHP)
    case "docker" => Some(Docker)
    case _ => None
  }

  /** Exactly four identifiers, pairwise distinct, each read back as its kind. */
  lemma ProviderNamesDistinct(k1: ProviderKind, k2: ProviderKind)
    ensures TypeName(k1) == TypeName(k2) <==> k1 == k2
    ensures TypeName(k1) in ProviderNames
    ensures ParseProviderType(TypeName(k1)) == Some(k1)
    ensures |ProviderNames| == 4
  {
  }

  datatype Provider = Provider(kind: ProviderKind, db: Registry.Database, osFamily: OSFamily)

  datatype ProviderFactory = ProviderFactory(db: Registry.Database, osFamily: OSFamily)

  /** GetProviderType. */
  function GetProviderType(p: Provider): (t: string)
    ensures t in ProviderNames
    ensures ParseProviderType(t) == Some(p.kind)
  {
    TypeName(p.kind)
  }

  /** CreateProvider: one of the four kinds, carrying the factory's registry
      and OS family; any other name is an error and no provider. */
  function CreateProvider(f: ProviderFactory, providerType: string): (r: Result<Provider, string>)
    ensures r.Ok? <==> providerType in ProviderNames
    ensures r.Ok? ==> GetProviderType(r.value) == providerType
    ensures r.Ok? ==> r.value.db == f.db && r.value.osFamily == f.osFamily
    ensures r.Err? ==> r.error == "unknown provider type: " + providerType
  {
    match ParseProviderType(providerType)
    case Some(k) => Ok(Provider(k, f.db, f.osFamily))
    case None => Err("unknown provider type: " + providerType)
  }

  /** GetDefaultProvider: the remi provider. */
  function GetDefaultProvider(f: ProviderFactory): (r: Result<Provider, string>)
    ensures r == CreateProvider(f, "remi")
    ensures r.Ok? && r.value.kind == Remi
  {
    CreateProvider(f, TypeName(Remi))
  }

  // ---------------------------------------------------------------------------
  // Names and paths

  /** The version with its dots removed, as package and directory names use it. */
  function VersionNum(version: string): (vn: string)
    ensures '.' !in vn
  {
    RemoveDots(version)
  }

  /** GetServiceName. */
  function ServiceName(p: Provider, version: string): string {
    match p.kind
    case Remi =>
      if p.osFamily == RHEL then "php" + VersionNum(version) + "-php-fpm" else "php" + version + "-fpm"
    case LiteSpeed => "lsws"
    case AltPHP => "alt-php" + VersionNum(version) + "-php-fpm"
    case Docker => "php-" + version + "-fpm"
  }

  /** GetSocketPath. */
  function SocketPath(p: Provider, username: string, version: string): string {
    match p.kind
    case Remi =>
      if p.osFamily == RHEL then "/var/opt/remi/php" + VersionNum(version) + "/run/php-fpm/" + username + ".sock"
      else "/var/run/php/php" + version + "-" + username + ".sock"
    case LiteSpeed => "/tmp/lsphp" + VersionNum(version) + "-" + username + ".sock"
    case AltPHP => "/var/run/alt-php" + VersionNum(version) + "/" + username + ".sock"
    case Docker => "/var/run/docker/php-" + version + "-" + username + ".sock"
  }

  /** GetConfigPath: filepath.Join of the provider's elements. */
  function ConfigPath(p: Provider, username: string, version: string): string {
    match p.kind
    case Remi =>
      if p.osFamily == RHEL then
        PathJoin(["/etc/opt/remi", "php" + VersionNum(version), "php-fpm.d", username + ".conf"])
      else
        PathJoin(["/etc/php", version, "fpm/pool.d", username + ".conf"])
    case LiteSpeed => PathJoin(["/usr/local/lsws/conf", username + "-" + version + ".conf"])
    case AltPHP => PathJoin(["/etc/opt/alt/php%s", VersionNum(version), "php-fpm.d", username + ".conf"])
    case Docker => PathJoin(["/etc/docker/php", version, username + ".conf"])
  }

  /** The config file's directory and file name, the shape every provider's
      Join produces. */
  function ConfigDir(p: Provider, version: string): string {
    match p.kind
    case Remi =>
      if p.osFamily == RHEL then "/etc/opt/remi/php" + VersionNum(version) + "/php-fpm.d"
      else PathJoin(["/etc/php", version, "fpm/pool.d"])
    case LiteSpeed => "/usr/local/lsws/conf"
    case AltPHP => PathJoin(["/etc/opt/alt/php%s", VersionNum(version), "php-fpm.d"])
    case Docker => PathJoin(["/etc/docker/php", version])
  }

  function ConfigFileName(p: Provider, username: string, version: string): string {
    if p.kind == LiteSpeed then username + "-" + version + ".conf" else username + ".conf"
  }

  /** Every config path is the provider's directory, a slash and the file. */
  lemma ConfigPathShape(p: Provider, username: string, version: string)
    ensures ConfigPath(p, username, version)
         == ConfigDir(p, version) + "/" + ConfigFileName(p, username, version)
  {
    match p.kind
    case Remi =>
      if p.osFamily == RHEL {
        RemiRhelConfigShape(p, username, version);
      } else {
        RemiDebianConfigShape(p, username, version);
      }
    case LiteSpeed =>
      LiteSpeedConfigShape(p, username, version);
    case AltPHP =>
      AltPHPConfigShape(p, username, version);
    case Docker =>
      DockerConfigShape(p, username, version);
  }

  lemma RemiRhelConfigShape(p: Provider, username: string, version: string)
    requires p.kind == Remi && p.osFamily == RHEL
    ensures ConfigPath(p, username, version)
         == ConfigDir(p, version) + "/" + ConfigFileName(p, username, version)
  {
    var file := username + ".conf";
    var dir := ["/etc/opt/remi", "php" + VersionNum(version), "php-fpm.d"];
    PathJoin3(dir[0], dir[1], dir[2]);
    PathJoinLast(dir, file);
    assert dir + [file] == ["/etc/opt/remi", "php" + VersionNum(version), "php-fpm.d", file];
  }

  lemma RemiDebianConfigShape(p: Provider, username: string, version: string)
    requires p.kind == Remi && p.osFamily != RHEL
    ensures ConfigPath(p, username, version)
         == ConfigDir(p, version) + "/" + ConfigFileName(p, username, version)
  {
    var file := username + ".conf";
    var dir := ["/etc/php", version, "fpm/pool.d"];
    PathJoinLast(dir, file);
    assert dir + [file] == ["/etc/php", version, "fpm/pool.d", file];
  }

  lemma LiteSpeedConfigShape(p: Provider, username: string, version: string)
    requires p.kind == LiteSpeed
    ensures ConfigPath(p, username, version)
         == ConfigDir(p, version) + "/" + ConfigFileName(p, username, version)
  {
    var file := username + "-" + version + ".conf";
    PathJoinSingle("/usr/local/lsws/conf");
    PathJoinLast(["/usr/local/lsws/conf"], file);
    assert ["/usr/local/lsws/conf"] + [file] == ["/usr/local/lsws/conf", file];
  }

  lemma AltPHPConfigShape(p: Provider, username: string, version: string)
    requires p.kind == AltPHP
    ensures ConfigPath(p, username, version)
         == ConfigDir(p, version) + "/" + ConfigFileName(p, username, version)
  {
    var file := username + ".conf";
    var dir := ["/etc/opt/alt/php%s", VersionNum(version), "php-fpm.d"];
    PathJoinLast(dir, file);
    assert dir + [file] == ["/etc/opt/alt/php%s", VersionNum(version), "php-fpm.d", file];
  }

  lemma DockerConfigShape(p: Provider, username: string, version: string)
    requires p.kind == Docker
    ensures ConfigPath(p, username, version)
         == ConfigDir(p, version) + "/" + ConfigFileName(p, username, version)
  {
    var file := username + ".conf";
    PathJoinLast(["/etc/docker/php", version], file);
    assert ["/etc/docker/php", version] + [file] == ["/etc/docker/php", version, file];
  }

  /** The directory the pool manager creates for a config file (filepath.Dir
      of the config path) is the provider's config directory, for a username
      and version without a slash. */
  lemma ConfigPathDir(p: Provider, username: string, version: string)
    requires '/' !in username && '/' !in version
    ensures PathDir(ConfigPath(p, username, version)) == ConfigDir(p, version)
  {
    ConfigPathShape(p, username, version);
    var file := ConfigFileName(p, username, version);
    assert '/' !in file by {
      if p.kind == LiteSpeed {
        assert file == username + "-" + version + ".conf";
      }
    }
    PathDirAppend(ConfigDir(p, version), file);
    if ConfigDir(p, version) == [] {
      match p.kind
      case Remi =>
        if p.osFamily != RHEL {
          NonEmptyHead(["/etc/php", version, "fpm/pool.d"]);
        }
      case AltPHP =>
        NonEmptyHead(["/etc/opt/alt/php%s", VersionNum(version), "php-fpm.d"]);
      case Docker =>
        NonEmptyHead(["/etc/docker/php", version]);
      case LiteSpeed =>
    }
  }

  /** A join whose first element is non-empty is non-empty. */
  lemma NonEmptyHead(elems: seq<string>)
    requires elems != [] && elems[0] != []
    ensures PathJoin(elems) != []
  {
    assert NonEmpty(elems) == [elems[0]] + NonEmpty(elems[1..]);
    var parts := NonEmpty(elems);
    if |parts| == 1 {
      assert JoinWith(parts, '/') == parts[0];
    } else {
      assert JoinWith(parts, '/') == parts[0] + [('/')] + JoinWith(parts[1..], '/');
    }
  }

  /** Remi on RHEL: packages of the remi repository under /var/opt/remi and
      /etc/opt/remi, named by the version's digits. */
  lemma RemiRhelNames(db: Registry.Database, username: string, version: string)
    ensures var p := Provider(Remi, db, RHEL);
      && ServiceName(p, version) == "php" + VersionNum(version) + "-php-fpm"
      && SocketPath(p, username, version)
         == "/var/opt/remi/php" + VersionNum(version) + "/run/php-fpm/" + username + ".sock"
      && ConfigPath(p, username, version)
         == "/etc/opt/remi/php" + VersionNum(version) + "/php-fpm.d/" + username + ".conf"
  {
    ConfigPathShape(Provider(Remi, db, RHEL), username, version);
  }

  /** Remi on Debian: the ondrej layout, named by the dotted version. */
  lemma RemiDebianNames(db: Registry.Database, username: string, version: string)
    requires version != []
    ensures var p := Provider(Remi, db, Debian);
      && ServiceName(p, version) == "php" + version + "-fpm"
      && SocketPath(p, username, version) == "/var/run/php/php" + version + "-" + username + ".sock"
      && ConfigPath(p, username, version) == "/etc/php/" + version + "/fpm/pool.d/" + username + ".conf"
  {
    PathJoin4("/etc/php", version, "fpm/pool.d", username + ".conf");
  }

  /** LiteSpeed: one web-server service for every version. */
  lemma LiteSpeedNames(p: Provider, username: string, version: string)
    requires p.kind == LiteSpeed
    ensures ServiceName(p, version) == "lsws"
    ensures SocketPath(p, username, version) == "/tmp/lsphp" + VersionNum(version) + "-" + username + ".sock"
    ensures ConfigPath(p, username, version) == "/usr/local/lsws/conf/" + username + "-" + version + ".conf"
  {
    ConfigPathShape(p, username, version);
  }

  /** Alt-PHP keeps the "%s" of its directory template literally in the path. */
  lemma AltPHPNames(p: Provider, username: string, version: string)
    requires p.kind == AltPHP && VersionNum(version) != []
    ensures ServiceName(p, version) == "alt-php" + VersionNum(version) + "-php-fpm"
    ensures SocketPath(p, username, version) == "/var/run/alt-php" + VersionNum(version) + "/" + username + ".sock"
    ensures ConfigPath(p, username, version)
         == "/etc/opt/alt/php%s/" + VersionNum(version) + "/php-fpm.d/" + username + ".conf"
    ensures Contains(ConfigPath(p, username, version), "%s")
  {
    AltPHPConfigPath(p, username, version);
    var rest := "/" + VersionNum(version) + "/php-fpm.d/" + username + ".conf";
    assert "/etc/opt/alt/php%s" + rest == "/etc/opt/alt/php" + "%s" + rest;
    ContainsMiddle("/etc/opt/alt/php", "%s", rest);
  }

  lemma AltPHPConfigPath(p: Provider, username: string, version: string)
    requires p.kind == AltPHP && VersionNum(version) != []
    ensures ConfigPath(p, username, version)
         == "/etc/opt/alt/php%s" + ("/" + VersionNum(version) + "/php-fpm.d/" + username + ".conf")
  {
    var vn := VersionNum(version);
    PathJoin4("/etc/opt/alt/php%s", vn, "php-fpm.d", username + ".conf");
    assert "/etc/opt/alt/php%s" + "/" + vn + "/" + "php-fpm.d" + "/" + (username + ".conf")
        == "/etc/opt/alt/php%s" + ("/" + vn + "/php-fpm.d/" + username + ".conf");
  }

  /** Docker: dotted version in every name. */
  lemma DockerNames(p: Provider, username: string, version: string)
    requires p.kind == Docker && version != []
    ensures ServiceName(p, version) == "php-" + version + "-fpm"
    ensures SocketPath(p, username, version) == "/var/run/docker/php-" + version + "-" + username + ".sock"
    ensures ConfigPath(p, username, version) == "/etc/docker/php/" + version + "/" + username + ".conf"
  {
    PathJoin3("/etc/docker/php", version, username + ".conf");
  }

  /** For one provider and version, two users never share a socket or a
      config file. */
  lemma PathsSeparateUsers(p: Provider, u1: string, u2: string, version: string)
    requires u1 != u2
    ensures SocketPath(p, u1, version) != SocketPath(p, u2, version)
    ensures ConfigPath(p, u1, version) != ConfigPath(p, u2, version)
  {
    SocketsSeparateUsers(p, u1, u2, version);
    ConfigsSeparateUsers(p, u1, u2, version);
  }

  lemma ConfigsSeparateUsers(p: Provider, u1: string, u2: string, version: string)
    requires u1 != u2
    ensures ConfigPath(p, u1, version) != ConfigPath(p, u2, version)
  {
    ConfigPathShape(p, u1, version);
    ConfigPathShape(p, u2, version);
    var dir := ConfigDir(p, version) + "/";
    var f1, f2 := ConfigFileName(p, u1, version), ConfigFileName(p, u2, version);
    assert ConfigPath(p, u1, version) == dir + f1;
    assert ConfigPath(p, u2, version) == dir + f2;
    if dir + f1 == dir + f2 {
      assert f1 == f2 by {
        assert f1 == (dir + f1)[|dir|..];
        assert f2 == (dir + f2)[|dir|..];
      }
      var suf := if p.kind == LiteSpeed then "-" + version + ".conf" else ".conf";
      assert f1 == u1 + suf;
      assert f2 == u2 + suf;
      assert "" + u1 + suf == u1 + suf;
      assert "" + u2 + suf == u2 + suf;
      ConcatCancel("", u1, u2, suf);
    }
  }

  lemma SocketsSeparateUsers(p: Provider, u1: string, u2: string, version: string)
    requires u1 != u2
    ensures SocketPath(p, u1, version) != SocketPath(p, u2, version)
  {
    var vn := VersionNum(version);
    match p.kind {
      case Remi =>
        if p.osFamily == RHEL {
          SocketCancel("/var/opt/remi/php" + vn + "/run/php-fpm/", u1, u2, ".sock");
        } else {
          SocketCancel("/var/run/php/php" + version + "-", u1, u2, ".sock");
        }
      case LiteSpeed => SocketCancel("/tmp/lsphp" + vn + "-", u1, u2, ".sock");
      case AltPHP => SocketCancel("/var/run/alt-php" + vn + "/", u1, u2, ".sock");
      case Docker => SocketCancel("/var/run/docker/php-" + version + "-", u1, u2, ".sock");
    }
  }

  lemma SocketCancel(pre: string, a: string, b: string, suf: string)
    ensures pre + a + suf == pre + b + suf <==> a == b
  {
    if pre + a + suf == pre + b + suf {
      ConcatCancel(pre, a, b, suf);
    }
  }

  // ---------------------------------------------------------------------------
  // InstallPHP: the minimum-version gate and what follows it

  /** The two dot-separated leading parts must not be below "7" and "4" in
      Go's string order (so the comparison is by text, not by number). */
  function VersionGate(version: string): (err: Option<string>)
    ensures |Split(version, '.')| < 2 ==> err == Some("invalid PHP version format: " + version)
    ensures err.Some? ==> err.value in {"invalid PHP version format: " + version,
                                        "PHP version " + version + " is not supported. Minimum version is 7.4"}
  {
    var parts := Split(version, '.');
    if |parts| < 2 then Some("invalid PHP version format: " + version)
    else
      var major, minor := parts[0], parts[1];
      if LexLess(major, "7") || (major == "7" && LexLess(minor, "4")) then
        Some("PHP version " + version + " is not supported. Minimum version is 7.4")
      else None
  }

  /** For a one-digit major and a dot-free minor the gate reads:
      major above 7, or major 7 and a minor whose first digit is at least 4. */
  lemma GateOneDigitMajor(d: char, minor: string)
    requires '.' != d && '.' !in minor
    ensures VersionGate([d] + "." + minor).None?
        <==> d > '7' || (d == '7' && minor != [] && minor[0] >= '4')
  {
    SplitAtFirstSep([d], minor, '.');
    SplitNoSep(minor, '.');
    assert [d] + "." + minor == [d] + ['.'] + minor;
    LexLessSingle([d], '7');
    LexLessSingle(minor, '4');
  }

  /** "10.0" is refused: "10" sorts before "7". */
  lemma GateRefusesTen()
    ensures VersionGate("10.0") == Some("PHP version " + "10.0" + " is not supported. Minimum version is 7.4")
  {
    SplitAtFirstSep("10", "0", '.');
    assert "10" + ['.'] + "0" == "10.0";
    SplitNoSep("0", '.');
    assert Split("10.0", '.') == ["10", "0"];
    assert LexLess("10", "7");
  }

  /** "7.10" is refused: "10" sorts before "4". */
  lemma GateRefusesSevenTen()
    ensures VersionGate("7.10").Some?
  {
    GateOneDigitMajor('7', "10");
    assert [('7')] + "." + "10" == "7.10";
  }

  /** A version without a dot is malformed. */
  lemma GateRefusesBare(version: string)
    requires '.' !in version
    ensures VersionGate(version) == Some("invalid PHP version format: " + version)
  {
    SplitNoSep(version, '.');
  }

  /** What InstallPHP does once it has looked at the version: refuse it, or go
      on to the OS-specific installer with the version and its digits. */
  datatype InstallStep = Refused(message: string) | RunInstaller(version: string, versionNum: string, family: OSFamily)

  /** InstallPHP up to the installer: remi and LiteSpeed gate the version;
      Alt-PHP and Docker are not implemented. */
  function InstallPHP(p: Provider, version: string): (r: InstallStep)
    ensures p.kind in {AltPHP, Docker} ==> r.Refused?
    ensures p.kind in {Remi, LiteSpeed} ==> (r.Refused? <==> VersionGate(version).Some?)
    ensures r.RunInstaller? ==> r.version == version && r.versionNum == VersionNum(version)
                                && r.family == p.osFamily
  {
    match p.kind
    case AltPHP => Refused("Alt-PHP provider not yet implemented")
    case Docker => Refused("Docker PHP provider not yet implemented")
    case _ =>
      var gate := VersionGate(version);
      if gate.Some? then Refused(gate.value) else RunInstaller(version, VersionNum(version), p.osFamily)
  }

  // ---------------------------------------------------------------------------
  // ListAvailablePHP

  const AvailableVersions: seq<string> := ["8.3", "8.2", "8.1", "8.0", "7.4"]

  /** ListAvailablePHP: the same five versions for every provider and family. */
  function ListAvailablePHP(p: Provider): (vs: seq<string>)
    ensures vs == AvailableVersions
  {
    if p.osFamily == RHEL then ["8.3", "8.2", "8.1", "8.0", "7.4"] else ["8.3", "8.2", "8.1", "8.0", "7.4"]
  }

  /** Every listed version passes the gate, and the list is newest first. */
  lemma AvailableVersionsPassGate()
    ensures forall i :: 0 <= i < |AvailableVersions| ==> VersionGate(AvailableVersions[i]).None?
    ensures forall i :: 0 <= i < |AvailableVersions| - 1 ==>
      LexLess(AvailableVersions[i + 1], AvailableVersions[i])
  {
    GateShortPasses('8', '3');
    GateShortPasses('8', '2');
    GateShortPasses('8', '1');
    GateShortPasses('8', '0');
    GateShortPasses('7', '4');
    AvailableDescending();
  }

  /** A version of two single digits from 7.4 on passes the gate. */
  lemma GateShortPasses(d: char, m: char)
    requires d == '8' || (d == '7' && '4' <= m <= '9')
    requires m != '.'
    ensures VersionGate([d, '.', m]).None?
  {
    GateOneDigitMajor(d, [m]);
    assert [d] + "." + [m] == [d, '.', m];
  }

  lemma AvailableDescending()
    ensures LexLess("8.2", "8.3") && LexLess("8.1", "8.2") && LexLess("8.0", "8.1") && LexLess("7.4", "8.0")
  {
  }
}
