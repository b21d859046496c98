/** Operating-system family detection (system/os.go). The three probes the
    detector makes (two marker files and the output of `lsb_release -is`) are
    its inputs; `None` stands for a failed `lsb_release` command. */
module OS {
  import opened Wrappers
  import opened GoStrings

  datatype OSFamily = RHEL | Debian

  /** The family's name as stored and compared ("rhel" / "debian"). */
  function FamilyName(f: OSFamily): string {
    match f
    case RHEL => "rhel"
    case Debian => "debian"
  }

  lemma FamilyNameInjective(f: OSFamily, g: OSFamily)
    ensures FamilyName(f) == FamilyName(g) <==> f == g
    ensures FamilyName(f) in {"rhel", "debian"}
  {
  }

  datatype Probes = Probes(redhatRelease: bool, debianVersion: bool, lsbRelease: Option<string>)

  /** The distributor id as the detector compares it: trimmed and lower-cased. */
  function Distro(output: string): (d: string)
    ensures |d| <= |output|
    ensures d == [] || (!IsSpace(d[0]) && !IsSpace(d[|d| - 1]))
    ensures forall i :: 0 <= i < |d| ==> !('A' <= d[i] <= 'Z')
  {
    var t := TrimSpace(output);
    LowerKeepsEnds(t);
    ToLower(t)
  }

  /** Lower-casing the output first does not change the id. */
  lemma DistroIgnoresCase(output: string)
    ensures Distro(ToLower(output)) == Distro(output)
  {
    TrimSpaceLower(output);
    ToLowerIdempotent(TrimSpace(output));
  }

  predicate RhelMarked(d: string) {
    Contains(d, "redhat") || Contains(d, "centos") || Contains(d, "rocky")
    || Contains(d, "alma") || Contains(d, "fedora")
  }

  predicate DebianMarked(d: string) {
    Contains(d, "debian") || Contains(d, "ubuntu")
  }

  /** The lsb_release output names a Debian-family distribution and no RHEL one. */
  predicate LsbSaysDebian(p: Probes) {
    p.lsbRelease.Some? && DebianMarked(Distro(p.lsbRelease.value))
    && !RhelMarked(Distro(p.lsbRelease.value))
  }

  /** The /etc/redhat-release marker wins; then /etc/debian_version; then the
      lsb_release id, RHEL names first; and RHEL when nothing is conclusive. */
  function Detect(p: Probes): (f: OSFamily)
    ensures p.redhatRelease ==> f == RHEL
    ensures !p.redhatRelease && p.debianVersion ==> f == Debian
    ensures f == Debian <==> !p.redhatRelease && (p.debianVersion || LsbSaysDebian(p))
  {
    if p.redhatRelease then RHEL
    else if p.debianVersion then Debian
    else if p.lsbRelease.Some? && RhelMarked(Distro(p.lsbRelease.value)) then RHEL
    else if p.lsbRelease.Some? && DebianMarked(Distro(p.lsbRelease.value)) then Debian
    else RHEL
  }

  /** With no marker file and no usable lsb_release output the answer is RHEL. */
  lemma DetectDefault(p: Probes)
    requires !p.redhatRelease && !p.debianVersion && p.lsbRelease.None?
    ensures Detect(p) == RHEL
  {
  }

  /** A distributor id naming both families counts as RHEL. */
  lemma DetectRhelNamesFirst(p: Probes)
    requires !p.redhatRelease && !p.debianVersion && p.lsbRelease.Some?
    requires RhelMarked(Distro(p.lsbRelease.value))
    ensures Detect(p) == RHEL
  {
  }

  /** The lsb_release id is compared without regard to ASCII case. */
  lemma DetectIgnoresCase(redhat: bool, debian: bool, output: string)
    ensures Detect(Probes(redhat, debian, Some(ToLower(output))))
         == Detect(Probes(redhat, debian, Some(output)))
  {
    DistroIgnoresCase(output);
  }

  lemma DistroUbuntu()
    ensures Distro("Ubuntu\n") == "ubuntu"
  {
    var out := "Ubuntu\n";
    assert TrimLeftSpace(out) == out;
    assert out[..|out| - 1] == "Ubuntu";
    assert TrimRightSpace(out) == "Ubuntu";
    assert ToLower("Ubuntu") == "ubuntu";
  }

  lemma UbuntuMarks()
    ensures DebianMarked("ubuntu") && !RhelMarked("ubuntu")
  {
    var d := "ubuntu";
    assert OccursAt(d, "ubuntu", 0);
    ContainsAt(d, "ubuntu", 0);
    assert 'r' !in d && 'c' !in d && 'a' !in d && 'f' !in d;
    NotContains(d, "redhat");
    NotContains(d, "centos");
    NotContains(d, "rocky");
    NotContains(d, "alma");
    NotContains(d, "fedora");
  }

  /** `lsb_release -is` printing "Ubuntu" and a newline, on a host without
      either marker file, is detected as Debian. */
  lemma DetectUbuntu()
    ensures Detect(Probes(false, false, Some("Ubuntu\n"))) == Debian
  {
    DistroUbuntu();
    UbuntuMarks();
  }
}
