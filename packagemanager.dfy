/** The stand-alone package manager (manager/package.go): the remi/ondrej
    installer entry point with the same minimum-version gate as the providers,
    a registry-first listing that does not look at the package manager column,
    and the fixed list of available versions. */
module PackageManagement {
  import opened Wrappers
  import opened GoStrings
  import opened OS
  import opened Providers
  import opened Discovery
  import Registry

  datatype PackageManager = PackageManager(osFamily: OSFamily, db: Registry.Database)

  /** NewPackageManager once the registry is open: the family is what the
      detector decides from the probes. */
  function NewPackageManager(db: Registry.Database, probes: Probes): (pm: PackageManager)
    ensures pm.db == db
    ensures probes.redhatRelease ==> pm.osFamily == RHEL
    ensures pm.osFamily == Debian <==> !probes.redhatRelease && (probes.debianVersion || LsbSaysDebian(probes))
  {
    PackageManager(Detect(probes), db)
  }

  /** InstallPHP up to the installer: the gate, then the family's installer
      with the version and its digits. */
  function InstallPHP(pm: PackageManager, version: string): (r: InstallStep)
    ensures r.Refused? <==> VersionGate(version).Some?
    ensures r.Refused? ==> r.message == VersionGate(version).value
    ensures r.RunInstaller? ==> r == RunInstaller(version, VersionNum(version), pm.osFamily)
  {
    match VersionGate(version)
    case Some(msg) => Refused(msg)
    case None => RunInstaller(version, VersionNum(version), pm.osFamily)
  }

  /** The package manager's gate is the remi provider's. */
  lemma InstallPHPAsRemi(pm: PackageManager, f: ProviderFactory, version: string)
    requires f.osFamily == pm.osFamily
    ensures var p := CreateProvider(f, "remi");
      p.Ok? && InstallPHP(pm, version) == Providers.InstallPHP(p.value, version)
  {
  }

  /** Every active row of the registry when there is one, otherwise what the
      remi probe yields. */
  function InstalledVersions(family: OSFamily, dbRows: seq<Registry.PHPVersionRow>, output: Option<string>): seq<string> {
    var fromDb := ActiveVersions(dbRows, None);
    if fromDb != [] then fromDb else ProbeVersions(Remi, family, output)
  }

  /** ListInstalledPHP of the package manager. */
  method ListInstalledPHP(pm: PackageManager, dbFault: bool, output: Option<string>) returns (versions: seq<string>)
    ensures versions == InstalledVersions(pm.osFamily, ListedRows(pm.db, dbFault), output)
  {
    var rows, err := pm.db.ListPHPVersions(dbFault);
    if err.None? && |rows| > 0 {
      versions := FilterActive(rows, None);
      if |versions| > 0 {
        return;
      }
    }
    match output {
      case None => versions := [];
      case Some(out) =>
        if pm.osFamily == RHEL {
          versions := ParseLines(ParseFpmLine, Split(out, '\n'));
        } else {
          versions := ParseLines(ParseEtcPhpLine, Split(TrimSpace(out), '\n'));
        }
    }
  }

  /** With an active row in the registry the listing is the registry's active
      versions, whichever package manager installed them; otherwise it is the
      probe's. */
  lemma RegistryFirstAnyManager(family: OSFamily, rows: seq<Registry.PHPVersionRow>, output: Option<string>)
    ensures (exists i :: 0 <= i < |rows| && rows[i].status == Registry.ActiveStatus) ==>
      && InstalledVersions(family, rows, output) == ActiveVersions(rows, None)
      && forall v :: v in InstalledVersions(family, rows, output) <==>
           exists i :: 0 <= i < |rows| && rows[i].status == Registry.ActiveStatus && rows[i].version == v
    ensures (forall i :: 0 <= i < |rows| ==> rows[i].status != Registry.ActiveStatus) ==>
      InstalledVersions(family, rows, output) == ProbeVersions(Remi, family, output)
  {
    ActiveVersionsMembers(rows, None);
    if exists i :: 0 <= i < |rows| && rows[i].status == Registry.ActiveStatus {
      var i :| 0 <= i < |rows| && rows[i].status == Registry.ActiveStatus;
      assert Selected(rows[i], None);
      assert rows[i].version in ActiveVersions(rows, None);
    }
    if ActiveVersions(rows, None) != [] {
      var v := ActiveVersions(rows, None)[0];
      assert v in ActiveVersions(rows, None);
    }
  }

  /** When every active row was installed through remi, the package manager
      and the remi provider list the same versions. */
  lemma AgreesWithRemi(family: OSFamily, rows: seq<Registry.PHPVersionRow>, output: Option<string>)
    requires forall i :: 0 <= i < |rows| && rows[i].status == Registry.ActiveStatus ==> rows[i].packageManager == "remi"
    ensures InstalledVersions(family, rows, output) == Discovery.InstalledVersions(Remi, family, rows, output)
  {
    ActiveVersionsSameSelection(rows);
  }

  lemma {:induction false} ActiveVersionsSameSelection(rows: seq<Registry.PHPVersionRow>)
    requires forall i :: 0 <= i < |rows| && rows[i].status == Registry.ActiveStatus ==> rows[i].packageManager == "remi"
    ensures ActiveVersions(rows, None) == ActiveVersions(rows, Some("remi"))
    decreases |rows|
  {
    if rows != [] {
      var init := rows[..|rows| - 1];
      forall i | 0 <= i < |init| && init[i].status == Registry.ActiveStatus ensures init[i].packageManager == "remi" {
        assert init[i] == rows[i];
      }
      ActiveVersionsSameSelection(init);
    }
  }

  /** ListAvailablePHP: the same five versions on both families. */
  function ListAvailablePHP(pm: PackageManager): (vs: seq<string>)
    ensures vs == AvailableVersions
    ensures forall i :: 0 <= i < |vs| ==> VersionGate(vs[i]).None?
  {
    AvailableVersionsPassGate();
    if pm.osFamily == RHEL then ["8.3", "8.2", "8.1", "8.0", "7.4"] else ["8.3", "8.2", "8.1", "8.0", "7.4"]
  }
}
