/** Installed-version discovery (ListInstalledPHP of provider/remi.go,
    provider/litespeed.go, provider/altphp.go and provider/docker.go): the
    registry is asked first, and only when it has no matching active row is
    the output of one probe command (dnf/yum list, rpm -qa, dpkg -l or
    ls /etc/php) parsed line by line back into "d.m" versions.

    The probe's output is a parameter (None when the command failed). */
module Discovery {
  import opened Wrappers
  import opened GoStrings
  import opened OS
  import opened Providers
  import Registry
  import Ordering

  // ---------------------------------------------------------------------------
  // Package names and their versions

  /** "%s.%s" of the first character and the rest: how a package's version
      digits are read back as a version. */
  function DottedVersion(versionNum: string): string
    requires |versionNum| >= 2
  {
    versionNum[..1] + "." + versionNum[1..]
  }

  /** The fpm package the remi installer asks for. */
  function RemiFpmPackage(versionNum: string): string {
    "php" + versionNum + "-php-fpm"
  }

  /** The common package the LiteSpeed installer asks for. */
  function LsphpCommonPackage(versionNum: string): string {
    "lsphp" + versionNum + "-common"
  }

  /** A version of a one-digit major and a digit minor, as "8.2". */
  predicate ShortVersion(d: char, m: string) {
    IsDigit(d) && m != [] && IsDigits(m)
  }

  lemma DigitsHaveNoMarks(s: string)
    requires IsDigits(s)
    ensures '.' !in s && '-' !in s && '\n' !in s && NoSpace(s)
  {
    assert forall i :: 0 <= i < |s| ==> IsDigit(s[i]);
  }

  /** Removing the dot of "d.m" and reading the digits back are inverse. */
  lemma VersionNumRoundTrip(d: char, m: string)
    requires ShortVersion(d, m)
    ensures VersionNum([d] + "." + m) == [d] + m
    ensures DottedVersion(VersionNum([d] + "." + m)) == [d] + "." + m
  {
    DigitsHaveNoMarks(m);
    RemoveDotsAppend([d] + ".", m);
    RemoveDotsAppend([d], ".");
    assert RemoveDots(".") == [];
    assert RemoveDots([d]) == [d];
    RemoveDotsIdentity(m);
    var vn := [d] + m;
    assert vn[..1] == [d] && vn[1..] == m;
  }

  /** And in the other direction, for the digits of a package name. */
  lemma DottedVersionRoundTrip(versionNum: string)
    requires |versionNum| >= 2 && '.' !in versionNum
    ensures VersionNum(DottedVersion(versionNum)) == versionNum
  {
    var a, b := versionNum[..1], versionNum[1..];
    assert '.' !in a && '.' !in b by {
      assert forall c :: c in a ==> c in versionNum;
      assert forall c :: c in b ==> c in versionNum;
    }
    RemoveDotsAppend(a + ".", b);
    RemoveDotsAppend(a, ".");
    assert RemoveDots(".") == [];
    RemoveDotsIdentity(a);
    RemoveDotsIdentity(b);
    assert a + b == versionNum;
  }

  // ---------------------------------------------------------------------------
  // One line of probe output

  /** `dnf|yum list installed php*-php-fpm`: the first field, without its
      "php" prefix, up to "-php-fpm", at least two characters long. */
  function ParseFpmLine(line: string): Option<string> {
    if Contains(line, "php") && Contains(line, "fpm") then
      var parts := Fields(line);
      if |parts| > 0 && HasPrefix(parts[0], "php") then
        var rest := TrimPrefix(parts[0], "php");
        var idx := IndexOf(rest, "-php-fpm");
        if idx > 0 && |rest[..idx]| >= 2 then Some(DottedVersion(rest[..idx])) else None
      else None
    else None
  }

  /** `rpm -qa --queryformat "%{NAME}\n"`: a name starting with "lsphp" and
      containing "common"; the digits between "lsphp" and the first '-'. */
  function ParseLsphpRpmLine(line: string): Option<string> {
    if HasPrefix(line, "lsphp") && Contains(line, "common") then
      var pkgName := Split(line, '-')[0];
      if HasPrefix(pkgName, "lsphp") then
        var versionNum := TrimPrefix(pkgName, "lsphp");
        if |versionNum| >= 2 then Some(DottedVersion(versionNum)) else None
      else None
    else None
  }

  /** `dpkg -l`: the same extraction on the second field of a line that
      mentions both "lsphp" and "common". */
  function ParseLsphpDpkgLine(line: string): Option<string> {
    if Contains(line, "lsphp") && Contains(line, "common") then
      var parts := Fields(line);
      if |parts| >= 2 && HasPrefix(parts[1], "lsphp") then
        var versionNum := TrimPrefix(Split(parts[1], '-')[0], "lsphp");
        if |versionNum| >= 2 then Some(DottedVersion(versionNum)) else None
      else None
    else None
  }

  /** `ls /etc/php`: a trimmed entry that is non-empty and has no blank. */
  function ParseEtcPhpLine(line: string): (r: Option<string>)
    ensures r.Some? ==> r.value != [] && ' ' !in r.value
    ensures r.Some? ==> !IsSpace(r.value[0]) && !IsSpace(r.value[|r.value| - 1])
    ensures NoSpace(line) && line != [] ==> r == Some(line)
  {
    var t := TrimSpace(line);
    EtcPhpEntry(line);
    if t != "" && !Contains(t, " ") then NoBlank(t); Some(t) else None
  }

  /** An entry without white space is its own trim and holds no blank. */
  lemma EtcPhpEntry(v: string)
    ensures NoSpace(v) && v != [] ==> TrimSpace(v) == v && !Contains(v, " ")
  {
    if NoSpace(v) && v != [] {
      TrimSpaceIdentity(v);
      assert ' ' !in v by {
        assert forall k :: 0 <= k < |v| ==> v[k] != ' ';
      }
      NotContains(v, " ");
    }
  }

  /** Each parser's result from its intermediate values. */
  lemma ParseFpmLineFrom(line: string, pkg: string, k: int)
    requires Contains(line, "php") && Contains(line, "fpm")
    requires Fields(line) != [] && Fields(line)[0] == pkg && HasPrefix(pkg, "php")
    requires IndexOf(TrimPrefix(pkg, "php"), "-php-fpm") == k && k >= 2
    ensures ParseFpmLine(line) == Some(DottedVersion(TrimPrefix(pkg, "php")[..k]))
  {
  }

  lemma ParseLsphpRpmLineFrom(line: string, versionNum: string)
    requires HasPrefix(line, "lsphp") && Contains(line, "common")
    requires Split(line, '-')[0] == "lsphp" + versionNum && |versionNum| >= 2
    ensures ParseLsphpRpmLine(line) == Some(DottedVersion(versionNum))
  {
    assert TrimPrefix("lsphp" + versionNum, "lsphp") == versionNum;
  }

  lemma ParseLsphpDpkgLineFrom(line: string, pkg: string, versionNum: string)
    requires Contains(line, "lsphp") && Contains(line, "common")
    requires |Fields(line)| >= 2 && Fields(line)[1] == pkg && HasPrefix(pkg, "lsphp")
    requires Split(pkg, '-')[0] == "lsphp" + versionNum && |versionNum| >= 2
    ensures ParseLsphpDpkgLine(line) == Some(DottedVersion(versionNum))
  {
    var head := Split(pkg, '-')[0];
    assert TrimPrefix(head, "lsphp") == versionNum by {
      assert "lsphp" <= head;
      assert head[5..] == versionNum;
    }
  }

  /** The empty piece after the output's final newline yields nothing. */
  lemma ParseEmptyLine()
    ensures ParseFpmLine("") == None && ParseLsphpRpmLine("") == None
    ensures ParseLsphpDpkgLine("") == None && ParseEtcPhpLine("") == None
  {
    NotContains("", "php");
    NotContains("", "lsphp");
    assert TrimSpace("") == "";
  }

  // ---------------------------------------------------------------------------
  // All lines

  /** The versions the lines yield, in line order. */
  function Keep(parse: string -> Option<string>, lines: seq<string>): (r: seq<string>)
    ensures |r| <= |lines|
    decreases |lines|
  {
    if lines == [] then []
    else
      var init := Keep(parse, lines[..|lines| - 1]);
      match parse(lines[|lines| - 1])
      case Some(v) => init + [v]
      case None => init
  }

  /** The loop over the lines that appends every parsed version. */
  method ParseLines(parse: string -> Option<string>, lines: seq<string>) returns (versions: seq<string>)
    ensures versions == Keep(parse, lines)
  {
    versions := [];
    var i := 0;
    while i < |lines|
      invariant 0 <= i <= |lines|
      invariant versions == Keep(parse, lines[..i])
    {
      assert lines[..i + 1][..i] == lines[..i];
      match parse(lines[i]) {
        case Some(v) => versions := versions + [v];
        case None =>
      }
      i := i + 1;
    }
    assert lines[..i] == lines;
  }

  /** Parsing is line by line: the output of two chunks is the output of each. */
  lemma {:induction false} KeepAppend(parse: string -> Option<string>, a: seq<string>, b: seq<string>)
    ensures Keep(parse, a + b) == Keep(parse, a) + Keep(parse, b)
    decreases |b|
  {
    if b == [] {
      assert a + b == a;
    } else {
      var b' := b[..|b| - 1];
      KeepAppend(parse, a, b');
      assert (a + b)[..|a + b| - 1] == a + b';
      assert (a + b)[|a + b| - 1] == b[|b| - 1];
    }
  }

  /** Lines that each parse to a version yield exactly those versions. */
  lemma {:induction false} KeepPointwise(parse: string -> Option<string>, lines: seq<string>, versions: seq<string>)
    requires |lines| == |versions|
    requires forall i :: 0 <= i < |lines| ==> parse(lines[i]) == Some(versions[i])
    ensures Keep(parse, lines) == versions
    decreases |lines|
  {
    if lines != [] {
      var n := |lines| - 1;
      KeepPointwise(parse, lines[..n], versions[..n]);
      assert versions == versions[..n] + [versions[n]];
    }
  }

  /** A newline-terminated listing of such lines: the empty piece after the
      last newline adds nothing. */
  lemma ListingRoundTrip(parse: string -> Option<string>, lines: seq<string>, versions: seq<string>)
    requires parse("") == None
    requires |lines| == |versions|
    requires forall i :: 0 <= i < |lines| ==> '\n' !in lines[i] && parse(lines[i]) == Some(versions[i])
    ensures Keep(parse, Split(JoinWith(lines, '\n') + "\n", '\n')) == versions
  {
    var pieces := lines + [""];
    if lines == [] {
      assert JoinWith(lines, '\n') + "\n" == [] + ['\n'] + "";
      SplitAtFirstSep([], "", '\n');
      assert Split("", '\n') == [""];
    } else {
      JoinWithSnoc(lines, "", '\n');
      assert JoinWith(lines, '\n') + "\n" == JoinWith(lines, '\n') + ['\n'] + "";
      forall i | 0 <= i < |pieces| ensures '\n' !in pieces[i] {
        if i < |lines| { assert pieces[i] == lines[i]; }
      }
      SplitJoin(pieces, '\n');
    }
    KeepAppend(parse, lines, [""]);
    KeepPointwise(parse, lines, versions);
    assert [""][..0] == [];
    assert Keep(parse, [""]) == [];
    assert versions + [] == versions;
  }

  // ---------------------------------------------------------------------------
  // Round trips against the names the installers build

  /** A `dnf list installed` line for the package the remi installer asks for
      (the name with an arch suffix, then the version and repository columns)
      reads back as the version that was installed. */
  lemma FpmLineRoundTrip(d: char, m: string, arch: string, tail: string)
    requires ShortVersion(d, m)
    requires NoSpace(arch)
    requires tail == [] || IsSpace(tail[0])
    ensures ParseFpmLine(RemiFpmPackage(VersionNum([d] + "." + m)) + arch + tail) == Some([d] + "." + m)
  {
    VersionNumRoundTrip(d, m);
    var vn := [d] + m;
    var pkg := RemiFpmPackage(vn) + arch;
    FpmPackageName(d, m, arch);
    FieldsHead(pkg, tail);
    FpmLineMentions(vn, arch, tail);
    ParseFpmLineFrom(pkg + tail, pkg, |vn|);
  }

  /** The package name is one field, and its digits end where "-php-fpm" starts. */
  lemma FpmPackageName(d: char, m: string, arch: string)
    requires ShortVersion(d, m) && NoSpace(arch)
    ensures var pkg := RemiFpmPackage([d] + m) + arch;
      && pkg != [] && NoSpace(pkg) && HasPrefix(pkg, "php")
      && IndexOf(TrimPrefix(pkg, "php"), "-php-fpm") == 1 + |m|
      && TrimPrefix(pkg, "php")[..1 + |m|] == [d] + m
  {
    DigitsHaveNoMarks(m);
    var vn := [d] + m;
    var pkg := RemiFpmPackage(vn) + arch;
    forall i | 0 <= i < |pkg| ensures !IsSpace(pkg[i]) {
      if i < 3 {
        assert pkg[i] == "php"[i];
      } else if i < 3 + |vn| {
        assert pkg[i] == vn[i - 3];
        if i > 3 { assert vn[i - 3] == m[i - 4]; }
      } else if i < 3 + |vn| + 8 {
        assert pkg[i] == "-php-fpm"[i - 3 - |vn|];
      } else {
        assert pkg[i] == arch[i - 3 - |vn| - 8];
      }
    }
    assert pkg == "php" + (vn + ("-php-fpm" + arch));
    assert TrimPrefix(pkg, "php") == vn + ("-php-fpm" + arch);
    assert '-' !in vn;
    IndexAfter(vn, "-php-fpm" + arch, "-php-fpm");
  }

  lemma FpmLineMentions(vn: string, arch: string, tail: string)
    ensures Contains(RemiFpmPackage(vn) + arch + tail, "php")
    ensures Contains(RemiFpmPackage(vn) + arch + tail, "fpm")
  {
    var line := RemiFpmPackage(vn) + arch + tail;
    assert line == "" + "php" + (vn + "-php-fpm" + arch + tail);
    ContainsMiddle("", "php", vn + "-php-fpm" + arch + tail);
    assert line == ("php" + vn + "-php-") + "fpm" + (arch + tail);
    ContainsMiddle("php" + vn + "-php-", "fpm", arch + tail);
  }

  /** The "lsphp<digits>-common" name of an rpm listing reads back as the
      version. */
  lemma LsphpRpmRoundTrip(d: char, m: string)
    requires ShortVersion(d, m)
    ensures ParseLsphpRpmLine(LsphpCommonPackage(VersionNum([d] + "." + m))) == Some([d] + "." + m)
  {
    VersionNumRoundTrip(d, m);
    LsphpNameParts(d, m);
    var vn := [d] + m;
    var line := LsphpCommonPackage(vn);
    assert line == ("lsphp" + vn + "-") + "common" + "";
    ContainsMiddle("lsphp" + vn + "-", "common", "");
    ParseLsphpRpmLineFrom(line, vn);
  }

  /** The package name splits at its first '-' into "lsphp" and the digits. */
  lemma LsphpNameParts(d: char, m: string)
    requires ShortVersion(d, m)
    ensures Split(LsphpCommonPackage([d] + m), '-')[0] == "lsphp" + ([d] + m)
    ensures NoSpace(LsphpCommonPackage([d] + m)) && HasPrefix(LsphpCommonPackage([d] + m), "lsphp")
  {
    DigitsHaveNoMarks(m);
    var head := "lsphp" + ([d] + m);
    LsphpHeadNoDash(d, m);
    SplitAtFirstSep(head, "common", '-');
    assert LsphpCommonPackage([d] + m) == head + ['-'] + "common";
    LsphpNameNoSpace(d, m);
  }

  lemma LsphpHeadNoDash(d: char, m: string)
    requires ShortVersion(d, m) && '-' !in m
    ensures '-' !in "lsphp" + ([d] + m)
  {
    var head := "lsphp" + ([d] + m);
    forall i | 0 <= i < |head| ensures head[i] != '-' {
      if i >= 6 { assert head[i] == m[i - 6]; }
    }
  }

  lemma LsphpNameNoSpace(d: char, m: string)
    requires ShortVersion(d, m) && NoSpace(m)
    ensures NoSpace(LsphpCommonPackage([d] + m))
  {
    var name := LsphpCommonPackage([d] + m);
    forall i | 0 <= i < |name| ensures !IsSpace(name[i]) {
      if 6 <= i < 6 + |m| {
        assert name[i] == m[i - 6];
      }
    }
  }

  /** A `dpkg -l` line: status column, blanks, the package name, then the
      remaining columns. */
  lemma LsphpDpkgRoundTrip(status: string, gap: string, d: char, m: string, tail: string)
    requires status != [] && NoSpace(status)
    requires gap != [] && forall i :: 0 <= i < |gap| ==> IsSpace(gap[i])
    requires ShortVersion(d, m)
    requires tail == [] || IsSpace(tail[0])
    ensures ParseLsphpDpkgLine(status + gap + LsphpCommonPackage(VersionNum([d] + "." + m)) + tail)
         == Some([d] + "." + m)
  {
    VersionNumRoundTrip(d, m);
    LsphpNameParts(d, m);
    var vn := [d] + m;
    var name := LsphpCommonPackage(vn);
    var line := status + gap + name + tail;
    DpkgFields(status, gap, name, tail);
    DpkgLineMentions(status + gap, vn, tail);
    ParseLsphpDpkgLineFrom(line, name, vn);
  }

  /** The fields of a dpkg line: the status, then the package name. */
  lemma DpkgFields(status: string, gap: string, name: string, tail: string)
    requires status != [] && NoSpace(status)
    requires gap != [] && forall i :: 0 <= i < |gap| ==> IsSpace(gap[i])
    requires name != [] && NoSpace(name)
    requires tail == [] || IsSpace(tail[0])
    ensures var fs := Fields(status + gap + name + tail); |fs| >= 2 && fs[0] == status && fs[1] == name
  {
    var line := status + gap + name + tail;
    assert Fields(line) == [status] + ([name] + Fields(tail)) by {
      var after := gap + (name + tail);
      assert line == status + after;
      assert after[0] == gap[0];
      FieldsHead(status, after);
      DpkgNameField(gap, name, tail);
    }
  }

  /** After the status column: the blanks, then the package name field. */
  lemma DpkgNameField(gap: string, name: string, tail: string)
    requires forall i :: 0 <= i < |gap| ==> IsSpace(gap[i])
    requires name != [] && NoSpace(name)
    requires tail == [] || IsSpace(tail[0])
    ensures Fields(gap + (name + tail)) == [name] + Fields(tail)
  {
    FieldsSkipSpaces(gap, name + tail);
    FieldsHead(name, tail);
  }

  lemma DpkgLineMentions(pre: string, vn: string, tail: string)
    ensures Contains(pre + LsphpCommonPackage(vn) + tail, "lsphp")
    ensures Contains(pre + LsphpCommonPackage(vn) + tail, "common")
  {
    var line := pre + LsphpCommonPackage(vn) + tail;
    assert line == pre + "lsphp" + (vn + "-common" + tail);
    ContainsMiddle(pre, "lsphp", vn + "-common" + tail);
    assert line == (pre + "lsphp" + vn + "-") + "common" + tail;
    ContainsMiddle(pre + "lsphp" + vn + "-", "common", tail);
  }

  /** The `ls /etc/php` listing of version directories (one per line, with a
      final newline) reads back as exactly those directories; an empty
      listing gives no version. */
  lemma EtcPhpRoundTrip(dirs: seq<string>)
    requires forall i :: 0 <= i < |dirs| ==> dirs[i] != [] && NoSpace(dirs[i])
    ensures Keep(ParseEtcPhpLine, Split(TrimSpace(JoinWith(dirs, '\n') + "\n"), '\n')) == dirs
  {
    if dirs == [] {
      EtcPhpEmptyListing();
    } else {
      EtcPhpListingLines(dirs);
      EtcPhpEntries(dirs);
      KeepPointwise(ParseEtcPhpLine, dirs, dirs);
    }
  }

  lemma EtcPhpEmptyListing()
    ensures Keep(ParseEtcPhpLine, Split(TrimSpace(JoinWith([], '\n') + "\n"), '\n')) == []
  {
    assert JoinWith([], '\n') + "\n" == "\n";
    assert TrimLeftSpace("\n") == "";
    assert Split("", '\n') == [""];
    ParseEmptyLine();
    assert [""][..0] == [];
  }

  /** A non-empty listing splits back into its entries. */
  lemma EtcPhpListingLines(dirs: seq<string>)
    requires dirs != []
    requires forall i :: 0 <= i < |dirs| ==> dirs[i] != [] && NoSpace(dirs[i])
    ensures Split(TrimSpace(JoinWith(dirs, '\n') + "\n"), '\n') == dirs
  {
    EtcPhpListingTrimmed(dirs);
    EtcPhpListingSplits(dirs);
  }

  /** The final newline is all TrimSpace takes off the listing. */
  lemma EtcPhpListingTrimmed(dirs: seq<string>)
    requires dirs != []
    requires forall i :: 0 <= i < |dirs| ==> dirs[i] != [] && NoSpace(dirs[i])
    ensures TrimSpace(JoinWith(dirs, '\n') + "\n") == JoinWith(dirs, '\n')
  {
    var j := JoinWith(dirs, '\n');
    JoinWithEnds(dirs, '\n');
    NoSpaceEnds(dirs[0]);
    NoSpaceEnds(dirs[|dirs| - 1]);
    TrimSpaceNewline(j);
  }

  lemma NoSpaceEnds(v: string)
    requires v != [] && NoSpace(v)
    ensures !IsSpace(v[0]) && !IsSpace(v[|v| - 1])
  {
  }

  /** Entries without blanks hold no newline, so the listing splits back into them. */
  lemma EtcPhpListingSplits(dirs: seq<string>)
    requires dirs != []
    requires forall i :: 0 <= i < |dirs| ==> dirs[i] != [] && NoSpace(dirs[i])
    ensures Split(JoinWith(dirs, '\n'), '\n') == dirs
  {
    forall i | 0 <= i < |dirs| ensures '\n' !in dirs[i] {
      var v := dirs[i];
      assert forall k :: 0 <= k < |v| ==> v[k] != '\n';
    }
    SplitJoin(dirs, '\n');
  }

  /** Every entry without blanks is kept as it is. */
  lemma EtcPhpEntries(dirs: seq<string>)
    requires forall i :: 0 <= i < |dirs| ==> dirs[i] != [] && NoSpace(dirs[i])
    ensures forall i :: 0 <= i < |dirs| ==> ParseEtcPhpLine(dirs[i]) == Some(dirs[i])
  {
  }

  /** The joined listing starts with the first entry's first character and
      ends with the last entry's last character. */
  lemma {:induction false} JoinWithEnds(parts: seq<string>, sep: char)
    requires parts != [] && forall i :: 0 <= i < |parts| ==> parts[i] != []
    ensures var j := JoinWith(parts, sep);
      j != [] && j[0] == parts[0][0] && j[|j| - 1] == parts[|parts| - 1][|parts[|parts| - 1]| - 1]
    decreases |parts|
  {
    if |parts| > 1 {
      JoinWithEnds(parts[1..], sep);
      assert parts[1..][|parts[1..]| - 1] == parts[|parts| - 1];
    }
  }

  /** TrimSpace drops the final newline of a listing and nothing else. */
  lemma TrimSpaceNewline(j: string)
    requires j != [] && !IsSpace(j[0]) && !IsSpace(j[|j| - 1])
    ensures TrimSpace(j + "\n") == j
  {
    var s := j + "\n";
    assert s[0] == j[0];
    assert TrimLeftSpace(s) == s;
    assert s[..|s| - 1] == j;
    assert TrimRightSpace(j) == j;
  }

  // ---------------------------------------------------------------------------
  // The registry first

  /** An active row, of the given package manager when one is given. */
  predicate Selected(row: Registry.PHPVersionRow, packageManager: Option<string>) {
    row.status == Registry.ActiveStatus && (packageManager.None? || row.packageManager == packageManager.value)
  }

  /** The versions of the selected rows, in table order. */
  function ActiveVersions(rows: seq<Registry.PHPVersionRow>, packageManager: Option<string>): (r: seq<string>)
    ensures |r| <= |rows|
    decreases |rows|
  {
    if rows == [] then []
    else
      var init := ActiveVersions(rows[..|rows| - 1], packageManager);
      var last := rows[|rows| - 1];
      if Selected(last, packageManager) then init + [last.version] else init
  }

  /** The loop over the registry rows. */
  method FilterActive(rows: seq<Registry.PHPVersionRow>, packageManager: Option<string>)
    returns (versions: seq<string>)
    ensures versions == ActiveVersions(rows, packageManager)
  {
    versions := [];
    var i := 0;
    while i < |rows|
      invariant 0 <= i <= |rows|
      invariant versions == ActiveVersions(rows[..i], packageManager)
    {
      assert rows[..i + 1][..i] == rows[..i];
      if rows[i].status == Registry.ActiveStatus && (packageManager.None? || rows[i].packageManager == packageManager.value) {
        versions := versions + [rows[i].version];
      }
      i := i + 1;
    }
    assert rows[..i] == rows;
  }

  /** A version is listed exactly when some selected row has it. */
  lemma {:induction false} ActiveVersionsMembers(rows: seq<Registry.PHPVersionRow>, packageManager: Option<string>)
    ensures forall v :: v in ActiveVersions(rows, packageManager) <==>
      exists i :: 0 <= i < |rows| && Selected(rows[i], packageManager) && rows[i].version == v
    decreases |rows|
  {
    if rows != [] {
      var init := rows[..|rows| - 1];
      ActiveVersionsMembers(init, packageManager);
      forall v
        ensures v in ActiveVersions(rows, packageManager) <==>
          exists i :: 0 <= i < |rows| && Selected(rows[i], packageManager) && rows[i].version == v
      {
        if exists i :: 0 <= i < |rows| && Selected(rows[i], packageManager) && rows[i].version == v {
          var i :| 0 <= i < |rows| && Selected(rows[i], packageManager) && rows[i].version == v;
          if i < |rows| - 1 {
            assert init[i] == rows[i];
          }
        }
        if v in ActiveVersions(init, packageManager) {
          var i :| 0 <= i < |init| && Selected(init[i], packageManager) && init[i].version == v;
          assert rows[i] == init[i];
        }
      }
    }
  }

  // ---------------------------------------------------------------------------
  // ListInstalledPHP

  /** What the probe output yields for a provider and family. */
  function ProbeVersions(kind: ProviderKind, family: OSFamily, output: Option<string>): seq<string> {
    match output
    case None => []
    case Some(out) =>
      match kind
      case Remi =>
        if family == RHEL then Keep(ParseFpmLine, Split(out, '\n')) else Keep(ParseEtcPhpLine, Split(TrimSpace(out), '\n'))
      case LiteSpeed =>
        if family == RHEL then Keep(ParseLsphpRpmLine, Split(out, '\n')) else Keep(ParseLsphpDpkgLine, Split(out, '\n'))
      case AltPHP => []
      case Docker => []
  }

  /** The registry's active rows of the provider's package manager when there
      are any, otherwise what the probe yields; nothing for the stubs. */
  function InstalledVersions(kind: ProviderKind, family: OSFamily,
                             dbRows: seq<Registry.PHPVersionRow>, output: Option<string>): seq<string> {
    if kind in {AltPHP, Docker} then []
    else
      var fromDb := ActiveVersions(dbRows, Some(TypeName(kind)));
      if fromDb != [] then fromDb else ProbeVersions(kind, family, output)
  }

  /** The registry rows as ListPHPVersions returns them: none on a failure. */
  function ListedRows(db: Registry.Database, dbFault: bool): seq<Registry.PHPVersionRow>
    reads db
  {
    if dbFault then [] else Ordering.SortBy(db.versions, Registry.VersionDescLe)
  }

  /** ListInstalledPHP of remi, LiteSpeed, Alt-PHP and Docker. */
  method ListInstalledPHP(p: Provider, dbFault: bool, output: Option<string>) returns (versions: seq<string>)
    ensures versions == InstalledVersions(p.kind, p.osFamily, ListedRows(p.db, dbFault), output)
  {
    if p.kind == AltPHP || p.kind == Docker {
      return [];
    }
    var rows, err := p.db.ListPHPVersions(dbFault);
    if err.None? && |rows| > 0 {
      versions := FilterActive(rows, Some(GetProviderType(p)));
      if |versions| > 0 {
        return;
      }
    } else {
      assert ActiveVersions(rows, Some(TypeName(p.kind))) == [];
    }
    match output {
      case None => versions := [];
      case Some(out) =>
        if p.kind == Remi {
          if p.osFamily == RHEL {
            versions := ParseLines(ParseFpmLine, Split(out, '\n'));
          } else {
            versions := ParseLines(ParseEtcPhpLine, Split(TrimSpace(out), '\n'));
          }
        } else {
          if p.osFamily == RHEL {
            versions := ParseLines(ParseLsphpRpmLine, Split(out, '\n'));
          } else {
            versions := ParseLines(ParseLsphpDpkgLine, Split(out, '\n'));
          }
        }
    }
  }

  /** Alt-PHP and Docker list nothing, whatever is installed. */
  lemma StubsListNothing(kind: ProviderKind, family: OSFamily, rows: seq<Registry.PHPVersionRow>, output: Option<string>)
    requires kind == AltPHP || kind == Docker
    ensures InstalledVersions(kind, family, rows, output) == []
  {
  }

  /** When the registry holds an active row of the provider's package manager,
      the listing is the registry's, whatever the probe would say; otherwise it
      is the probe's. */
  lemma RegistryFirst(kind: ProviderKind, family: OSFamily, rows: seq<Registry.PHPVersionRow>, output: Option<string>)
    requires kind == Remi || kind == LiteSpeed
    ensures (exists i :: 0 <= i < |rows| && Selected(rows[i], Some(TypeName(kind))))
        ==> InstalledVersions(kind, family, rows, output) == ActiveVersions(rows, Some(TypeName(kind)))
    ensures (forall i :: 0 <= i < |rows| ==> !Selected(rows[i], Some(TypeName(kind))))
        ==> InstalledVersions(kind, family, rows, output) == ProbeVersions(kind, family, output)
  {
    var pm := Some(TypeName(kind));
    ActiveVersionsMembers(rows, pm);
    if exists i :: 0 <= i < |rows| && Selected(rows[i], pm) {
      var i :| 0 <= i < |rows| && Selected(rows[i], pm);
      assert rows[i].version in ActiveVersions(rows, pm);
    }
    if ActiveVersions(rows, pm) != [] {
      assert ActiveVersions(rows, pm)[0] in ActiveVersions(rows, pm);
    }
  }

  /** Remi on RHEL: a dnf listing of the fpm packages of the given versions
      (each line the package name with its arch suffix, then the version and
      repository columns) reads back as those versions. */
  lemma RemiRhelProbeRoundTrip(majors: seq<char>, minors: seq<string>, archs: seq<string>, tails: seq<string>,
                               lines: seq<string>)
    requires |minors| == |majors| && |archs| == |majors| && |tails| == |majors| && |lines| == |majors|
    requires forall i :: 0 <= i < |majors| ==>
      && ShortVersion(majors[i], minors[i]) && NoSpace(archs[i]) && (tails[i] == [] || IsSpace(tails[i][0]))
      && '\n' !in archs[i] + tails[i]
      && lines[i] == RemiFpmPackage(VersionNum([majors[i]] + "." + minors[i])) + archs[i] + tails[i]
    ensures ProbeVersions(Remi, RHEL, Some(JoinWith(lines, '\n') + "\n"))
         == seq(|majors|, i requires 0 <= i < |majors| => [majors[i]] + "." + minors[i])
  {
    var versions := seq(|majors|, i requires 0 <= i < |majors| => [majors[i]] + "." + minors[i]);
    forall i | 0 <= i < |lines| ensures '\n' !in lines[i] && ParseFpmLine(lines[i]) == Some(versions[i]) {
      FpmListedLine(majors[i], minors[i], archs[i], tails[i]);
    }
    ParseEmptyLine();
    ListingRoundTrip(ParseFpmLine, lines, versions);
  }

  lemma FpmListedLine(d: char, m: string, arch: string, tail: string)
    requires ShortVersion(d, m) && NoSpace(arch) && (tail == [] || IsSpace(tail[0]))
    requires '\n' !in arch + tail
    ensures var line := RemiFpmPackage(VersionNum([d] + "." + m)) + arch + tail;
      '\n' !in line && ParseFpmLine(line) == Some([d] + "." + m)
  {
    FpmLineRoundTrip(d, m, arch, tail);
    FpmLineNewlines(d, m, arch, tail);
  }

  lemma FpmLineNewlines(d: char, m: string, arch: string, tail: string)
    requires ShortVersion(d, m) && '\n' !in arch + tail
    ensures '\n' !in RemiFpmPackage(VersionNum([d] + "." + m)) + arch + tail
  {
    VersionNumRoundTrip(d, m);
    FpmPackageNewlines(d, m, arch + tail);
    assert RemiFpmPackage([d] + m) + arch + tail == RemiFpmPackage([d] + m) + (arch + tail);
  }

  lemma FpmPackageNewlines(d: char, m: string, rest: string)
    requires IsDigit(d) && IsDigits(m) && '\n' !in rest
    ensures '\n' !in RemiFpmPackage([d] + m) + rest
  {
    DigitsHaveNoMarks(m);
    var s := RemiFpmPackage([d] + m) + rest;
    forall k | 0 <= k < |s| ensures s[k] != '\n' {
      if 4 <= k < 4 + |m| {
        assert s[k] == m[k - 4];
      } else if k >= 4 + |m| + 8 {
        assert s[k] == rest[k - 4 - |m| - 8];
      }
    }
  }

  /** LiteSpeed on RHEL: an rpm listing of the common packages of the given
      versions reads back as those versions. */
  lemma LiteSpeedRhelProbeRoundTrip(majors: seq<char>, minors: seq<string>, lines: seq<string>)
    requires |minors| == |majors| && |lines| == |majors|
    requires forall i :: 0 <= i < |majors| ==>
      ShortVersion(majors[i], minors[i]) && lines[i] == LsphpCommonPackage(VersionNum([majors[i]] + "." + minors[i]))
    ensures ProbeVersions(LiteSpeed, RHEL, Some(JoinWith(lines, '\n') + "\n"))
         == seq(|majors|, i requires 0 <= i < |majors| => [majors[i]] + "." + minors[i])
  {
    var versions := seq(|majors|, i requires 0 <= i < |majors| => [majors[i]] + "." + minors[i]);
    forall i | 0 <= i < |lines| ensures '\n' !in lines[i] && ParseLsphpRpmLine(lines[i]) == Some(versions[i]) {
      LsphpListedLine(majors[i], minors[i]);
    }
    ParseEmptyLine();
    ListingRoundTrip(ParseLsphpRpmLine, lines, versions);
  }

  lemma LsphpListedLine(d: char, m: string)
    requires ShortVersion(d, m)
    ensures var line := LsphpCommonPackage(VersionNum([d] + "." + m));
      '\n' !in line && ParseLsphpRpmLine(line) == Some([d] + "." + m)
  {
    LsphpRpmRoundTrip(d, m);
    VersionNumRoundTrip(d, m);
    DigitsHaveNoMarks(m);
    var line := LsphpCommonPackage([d] + m);
    forall k | 0 <= k < |line| ensures line[k] != '\n' {
      if 6 <= k < 6 + |m| {
        assert line[k] == m[k - 6];
      }
    }
  }

  /** Remi on Debian: the `ls /etc/php` listing of version directories reads
      back as those directories. */
  lemma RemiDebianProbeRoundTrip(dirs: seq<string>)
    requires forall i :: 0 <= i < |dirs| ==> dirs[i] != [] && NoSpace(dirs[i])
    ensures ProbeVersions(Remi, Debian, Some(JoinWith(dirs, '\n') + "\n")) == dirs
  {
    EtcPhpRoundTrip(dirs);
  }
}
