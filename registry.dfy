/** The persistent registry (db/database.go, db/models.go): the php_versions
    and pools tables held in insertion order, their key and foreign-key
    constraints as the class invariant, and the row semantics of every query.

    Key chosen for pools: (username, php_version, provider), the conflict
    target of the pool upsert. The schema text as written declares neither a
    provider column nor that key; SchemaAsWritten and SchemaCorrected below
    record the difference. Timestamps and ids are one insertion counter. */
module Registry {
  import opened Wrappers
  import opened GoStrings
  import opened Ordering

  const DefaultDBPath: string := "/var/lib/lightweight-php/lightweight-php.db"

  /** The status both tables give a new row. */
  const ActiveStatus: string := "active"

  /** The database file actually opened for a requested path. */
  function ResolveDBPath(dbPath: string): (r: string)
    ensures r != []
    ensures dbPath != "" ==> r == dbPath
    ensures dbPath == "" ==> r == DefaultDBPath
  {
    if dbPath == "" then DefaultDBPath else dbPath
  }

  /** The connection string: the file with foreign-key enforcement switched on. */
  function DataSourceName(dbPath: string): (dsn: string)
    ensures ResolveDBPath(dbPath) <= dsn
    ensures dsn[|ResolveDBPath(dbPath)|..] == "?_pragma=foreign_keys(1)"
  {
    ResolveDBPath(dbPath) + "?_pragma=foreign_keys(1)"
  }

  datatype PHPVersionRow = PHPVersionRow(
    id: nat, version: string, installedAt: nat, status: string,
    packageManager: string, osFamily: string)

  datatype PoolRow = PoolRow(
    id: nat, username: string, phpVersion: string, provider: string,
    socketPath: string, configPath: string, status: string,
    createdAt: nat, updatedAt: nat)

  datatype DbError = IoError | UniqueViolation | ForeignKeyViolation | NoRows

  // ---------------------------------------------------------------------------
  // Schema text: columns and unique keys of the pools table

  datatype TableSchema = TableSchema(columns: set<string>, uniqueKeys: set<set<string>>)

  /** The pools table as db/database.go declares it. */
  const SchemaAsWritten: TableSchema := TableSchema(
    {"id", "username", "php_version", "socket_path", "config_path", "status",
     "created_at", "updated_at"},
    {{"username", "php_version"}})

  /** The pools table the queries of db/models.go are written against. */
  const SchemaCorrected: TableSchema := TableSchema(
    {"id", "username", "php_version", "provider", "socket_path", "config_path",
     "status", "created_at", "updated_at"},
    {{"username", "php_version", "provider"}})

  /** The columns the pool upsert names and its conflict target. */
  const UpsertColumns: set<string> :=
    {"username", "php_version", "provider", "socket_path", "config_path", "status"}
  const UpsertConflictTarget: set<string> := {"username", "php_version", "provider"}

  /** SQLite prepares the upsert only if every named column exists and the
      conflict target is exactly one of the table's unique keys. */
  predicate UpsertPrepares(t: TableSchema) {
    UpsertColumns <= t.columns && UpsertConflictTarget in t.uniqueKeys
  }

  /** The columns the pool SELECTs of GetPool, GetPoolByUsernameAndVersion and
      ListPools name; SQLite prepares them only if every one exists. */
  const SelectColumns: set<string> :=
    {"id", "username", "php_version", "provider", "socket_path", "config_path",
     "status", "created_at", "updated_at"}

  predicate SelectPrepares(t: TableSchema) {
    SelectColumns <= t.columns
  }

  /** As written, neither the upsert nor the pool SELECTs can be prepared:
      the schema has no provider column, and its only key leaves provider out. */
  lemma SchemaAsWrittenRejectsUpsert()
    ensures "provider" !in SchemaAsWritten.columns
    ensures UpsertConflictTarget !in SchemaAsWritten.uniqueKeys
    ensures !UpsertPrepares(SchemaAsWritten)
    ensures !SelectPrepares(SchemaAsWritten)
  {
    assert "provider" in UpsertColumns && "provider" in SelectColumns;
    assert "provider" in UpsertConflictTarget && "provider" !in {"username", "php_version"};
  }

  /** With the provider column and the (username, php_version, provider) key
      the upsert and the SELECTs prepare; this is the table the class below models. */
  lemma SchemaCorrectedAcceptsUpsert()
    ensures UpsertPrepares(SchemaCorrected)
    ensures SelectPrepares(SchemaCorrected)
    ensures SchemaAsWritten.columns + {"provider"} == SchemaCorrected.columns
  {
  }

  // ---------------------------------------------------------------------------
  // Table invariants

  predicate SamePoolKey(a: PoolRow, b: PoolRow) {
    a.username == b.username && a.phpVersion == b.phpVersion && a.provider == b.provider
  }

  predicate VersionsUnique(vs: seq<PHPVersionRow>) {
    forall i, j :: 0 <= i < j < |vs| ==> vs[i].version != vs[j].version
  }

  predicate PoolKeysUnique(ps: seq<PoolRow>) {
    forall i, j :: 0 <= i < j < |ps| ==> !SamePoolKey(ps[i], ps[j])
  }

  predicate HasVersion(vs: seq<PHPVersionRow>, version: string) {
    exists i :: 0 <= i < |vs| && vs[i].version == version
  }

  /** FOREIGN KEY (php_version) REFERENCES php_versions(version). */
  predicate ForeignKeysHold(vs: seq<PHPVersionRow>, ps: seq<PoolRow>) {
    forall i :: 0 <= i < |ps| ==> HasVersion(vs, ps[i].phpVersion)
  }

  /** Rows are stored in creation order, each stamped before `clock`. */
  predicate CreatedInOrder(ps: seq<PoolRow>, clock: nat) {
    && (forall i, j :: 0 <= i < j < |ps| ==> ps[i].createdAt < ps[j].createdAt)
    && (forall i :: 0 <= i < |ps| ==> ps[i].createdAt <= ps[i].updatedAt < clock)
  }

  predicate InstalledBefore(vs: seq<PHPVersionRow>, clock: nat) {
    forall i :: 0 <= i < |vs| ==> vs[i].installedAt < clock
  }

  predicate TablesValid(vs: seq<PHPVersionRow>, ps: seq<PoolRow>, clock: nat) {
    && VersionsUnique(vs) && InstalledBefore(vs, clock)
    && PoolKeysUnique(ps) && ForeignKeysHold(vs, ps) && CreatedInOrder(ps, clock)
  }

  // ---------------------------------------------------------------------------
  // Row transitions

  function NewVersionRow(version: string, packageManager: string, osFamily: string, clock: nat): PHPVersionRow {
    PHPVersionRow(clock, version, clock, ActiveStatus, packageManager, osFamily)
  }

  function NewPoolRow(username: string, phpVersion: string, provider: string,
                      socketPath: string, configPath: string, clock: nat): PoolRow {
    PoolRow(clock, username, phpVersion, provider, socketPath, configPath, ActiveStatus, clock, clock)
  }

  /** The position of the row with key (username, phpVersion, provider). */
  function PoolIndex(ps: seq<PoolRow>, username: string, phpVersion: string, provider: string): (k: int)
    ensures -1 <= k < |ps|
    ensures k >= 0 ==> ps[k].username == username && ps[k].phpVersion == phpVersion && ps[k].provider == provider
    ensures k == -1 <==> forall i :: 0 <= i < |ps| ==>
      !(ps[i].username == username && ps[i].phpVersion == phpVersion && ps[i].provider == provider)
    decreases |ps|
  {
    if ps == [] then -1
    else if ps[|ps| - 1].username == username && ps[|ps| - 1].phpVersion == phpVersion
         && ps[|ps| - 1].provider == provider then |ps| - 1
    else PoolIndex(ps[..|ps| - 1], username, phpVersion, provider)
  }

  /** INSERT ... ON CONFLICT(username, php_version, provider) DO UPDATE:
      the table after the pool upsert. */
  function PoolUpsert(ps: seq<PoolRow>, username: string, phpVersion: string, provider: string,
                      socketPath: string, configPath: string, clock: nat): seq<PoolRow> {
    var k := PoolIndex(ps, username, phpVersion, provider);
    if k >= 0 then ps[k := ps[k].(socketPath := socketPath, configPath := configPath, updatedAt := clock)]
    else ps + [NewPoolRow(username, phpVersion, provider, socketPath, configPath, clock)]
  }

  /** DELETE FROM pools WHERE username = ?: the other rows, in order. */
  function PoolsWithout(ps: seq<PoolRow>, username: string): (r: seq<PoolRow>)
    ensures |r| <= |ps|
    ensures forall i :: 0 <= i < |r| ==> r[i].username != username
    decreases |ps|
  {
    if ps == [] then []
    else if ps[0].username == username then PoolsWithout(ps[1..], username)
    else [ps[0]] + PoolsWithout(ps[1..], username)
  }

  /** UPDATE pools SET status = ?, updated_at = now WHERE username = ?. */
  function PoolsWithStatus(ps: seq<PoolRow>, username: string, status: string, clock: nat): (r: seq<PoolRow>)
    ensures |r| == |ps|
  {
    seq(|ps|, i requires 0 <= i < |ps| =>
      if ps[i].username == username then ps[i].(status := status, updatedAt := clock) else ps[i])
  }

  predicate HasUser(ps: seq<PoolRow>, username: string) {
    exists i :: 0 <= i < |ps| && ps[i].username == username
  }

  /** SELECT ... WHERE username = ? ORDER BY created_at DESC LIMIT 1: the
      user's row with the greatest creation stamp, the earliest of equals. */
  function LatestPool(ps: seq<PoolRow>, username: string): (r: Option<PoolRow>)
    ensures r.Some? <==> HasUser(ps, username)
    ensures r.Some? ==> r.value in ps && r.value.username == username
    ensures r.Some? ==> forall i :: 0 <= i < |ps| && ps[i].username == username ==> ps[i].createdAt <= r.value.createdAt
    decreases |ps|
  {
    if ps == [] then None
    else
      var init := ps[..|ps| - 1];
      var rest := LatestPool(init, username);
      var x := ps[|ps| - 1];
      assert forall i :: 0 <= i < |init| ==> init[i] == ps[i];
      if x.username == username && (rest.None? || x.createdAt > rest.value.createdAt) then Some(x) else rest
  }

  // ---------------------------------------------------------------------------
  // What the transitions keep and change

  /** A new version row keeps the tables valid exactly when its version is new. */
  lemma VersionInsertValid(vs: seq<PHPVersionRow>, ps: seq<PoolRow>, clock: nat,
                           version: string, pm: string, os: string)
    requires TablesValid(vs, ps, clock)
    requires !HasVersion(vs, version)
    ensures TablesValid(vs + [NewVersionRow(version, pm, os, clock)], ps, clock + 1)
  {
    var vs' := vs + [NewVersionRow(version, pm, os, clock)];
    forall i | 0 <= i < |ps|
      ensures HasVersion(vs', ps[i].phpVersion)
    {
      var j :| 0 <= j < |vs| && vs[j].version == ps[i].phpVersion;
      assert vs'[j] == vs[j];
    }
  }

  /** Deleting a user's rows ignores a row of that user appended at the end. */
  lemma {:induction false} PoolsWithoutSnoc(ps: seq<PoolRow>, x: PoolRow, username: string)
    requires x.username == username
    ensures PoolsWithout(ps + [x], username) == PoolsWithout(ps, username)
    decreases |ps|
  {
    if ps == [] {
      assert [] + [x] == [x];
      assert [x][1..] == [];
    } else {
      assert (ps + [x])[0] == ps[0];
      assert (ps + [x])[1..] == ps[1..] + [x];
      PoolsWithoutSnoc(ps[1..], x, username);
    }
  }

  /** The upsert: on a key match only that row's paths and update stamp change;
      otherwise one active row is appended. */
  lemma PoolUpsertEffect(ps: seq<PoolRow>, u: string, v: string, p: string, sock: string, conf: string, clock: nat)
    ensures var k := PoolIndex(ps, u, v, p);
      k >= 0 ==> (
        && |PoolUpsert(ps, u, v, p, sock, conf, clock)| == |ps|
        && (forall i :: 0 <= i < |ps| && i != k ==> PoolUpsert(ps, u, v, p, sock, conf, clock)[i] == ps[i])
        && PoolUpsert(ps, u, v, p, sock, conf, clock)[k]
           == ps[k].(socketPath := sock, configPath := conf, updatedAt := clock))
    ensures PoolIndex(ps, u, v, p) < 0 ==>
      PoolUpsert(ps, u, v, p, sock, conf, clock)
      == ps + [PoolRow(clock, u, v, p, sock, conf, ActiveStatus, clock, clock)]
  {
  }

  /** The upsert keeps the tables valid when the version row exists. */
  lemma PoolUpsertValid(vs: seq<PHPVersionRow>, ps: seq<PoolRow>, clock: nat,
                        u: string, v: string, p: string, sock: string, conf: string)
    requires TablesValid(vs, ps, clock)
    requires HasVersion(vs, v)
    ensures TablesValid(vs, PoolUpsert(ps, u, v, p, sock, conf, clock), clock + 1)
  {
    var k := PoolIndex(ps, u, v, p);
    var ps' := PoolUpsert(ps, u, v, p, sock, conf, clock);
    if k >= 0 {
      forall i, j | 0 <= i < j < |ps'|
        ensures !SamePoolKey(ps'[i], ps'[j]) && ps'[i].createdAt < ps'[j].createdAt
      {
        assert SamePoolKey(ps'[i], ps'[j]) <==> SamePoolKey(ps[i], ps[j]);
      }
    } else {
      var row := NewPoolRow(u, v, p, sock, conf, clock);
      assert ps' == ps + [row];
      forall i, j | 0 <= i < j < |ps'|
        ensures !SamePoolKey(ps'[i], ps'[j])
      {
        if j == |ps| {
          assert ps'[j] == row && ps'[i] == ps[i];
        }
      }
      forall i | 0 <= i < |ps'|
        ensures HasVersion(vs, ps'[i].phpVersion)
      {
        if i == |ps| {
          assert ps'[i] == row;
        }
      }
    }
  }

  /** Deleting by username leaves exactly the other users' rows, in order. */
  lemma {:induction false} PoolsWithoutRows(ps: seq<PoolRow>, username: string)
    ensures forall q :: q in PoolsWithout(ps, username) <==> q in ps && q.username != username
    ensures !HasUser(PoolsWithout(ps, username), username)
    ensures HasUser(ps, username) ==> |PoolsWithout(ps, username)| < |ps|
    ensures !HasUser(ps, username) ==> PoolsWithout(ps, username) == ps
    decreases |ps|
  {
    if ps != [] {
      PoolsWithoutRows(ps[1..], username);
      var r := PoolsWithout(ps[1..], username);
      if HasUser(ps, username) && ps[0].username != username {
        var i :| 0 <= i < |ps| && ps[i].username == username;
        assert ps[1..][i - 1].username == username;
      }
      if !HasUser(ps, username) {
        assert ps == [ps[0]] + ps[1..];
        assert !HasUser(ps[1..], username) by {
          forall i | 0 <= i < |ps[1..]| ensures ps[1..][i].username != username {
            assert ps[1..][i] == ps[i + 1];
          }
        }
      }
    }
  }

  /** Dropping the first row keeps the tables valid. */
  lemma TablesValidTail(vs: seq<PHPVersionRow>, ps: seq<PoolRow>, clock: nat)
    requires TablesValid(vs, ps, clock) && ps != []
    ensures TablesValid(vs, ps[1..], clock)
    ensures forall q :: q in ps[1..] ==> !SamePoolKey(ps[0], q) && ps[0].createdAt < q.createdAt
  {
    forall q | q in ps[1..]
      ensures !SamePoolKey(ps[0], q) && ps[0].createdAt < q.createdAt
    {
      var m :| 0 <= m < |ps[1..]| && ps[1..][m] == q;
      assert ps[m + 1] == q;
    }
  }

  /** A row that precedes, and differs in key from, every row of a valid table
      can be put in front of it. */
  lemma TablesValidCons(vs: seq<PHPVersionRow>, x: PoolRow, r: seq<PoolRow>, clock: nat)
    requires TablesValid(vs, r, clock)
    requires HasVersion(vs, x.phpVersion) && x.createdAt <= x.updatedAt < clock
    requires forall q :: q in r ==> !SamePoolKey(x, q) && x.createdAt < q.createdAt
    ensures TablesValid(vs, [x] + r, clock)
  {
    var r' := [x] + r;
    forall i, j | 0 <= i < j < |r'|
      ensures !SamePoolKey(r'[i], r'[j]) && r'[i].createdAt < r'[j].createdAt
    {
      assert r'[j] == r[j - 1];
      if i > 0 {
        assert r'[i] == r[i - 1];
      } else {
        assert r[j - 1] in r;
      }
    }
    forall i | 0 <= i < |r'|
      ensures HasVersion(vs, r'[i].phpVersion) && r'[i].createdAt <= r'[i].updatedAt < clock
    {
      if i > 0 {
        assert r'[i] == r[i - 1];
      }
    }
  }

  /** Deleting preserves order and the invariants. */
  lemma {:induction false} PoolsWithoutValid(vs: seq<PHPVersionRow>, ps: seq<PoolRow>, clock: nat, username: string)
    requires TablesValid(vs, ps, clock)
    ensures TablesValid(vs, PoolsWithout(ps, username), clock)
    decreases |ps|
  {
    if ps != [] {
      TablesValidTail(vs, ps, clock);
      PoolsWithoutValid(vs, ps[1..], clock, username);
      PoolsWithoutRows(ps[1..], username);
      if ps[0].username != username {
        TablesValidCons(vs, ps[0], PoolsWithout(ps[1..], username), clock);
      }
    }
  }

  /** The status update touches exactly the user's rows, and only their
      status and update stamp. */
  lemma PoolsWithStatusEffect(ps: seq<PoolRow>, username: string, status: string, clock: nat)
    ensures forall i :: 0 <= i < |ps| && ps[i].username == username ==>
      PoolsWithStatus(ps, username, status, clock)[i] == ps[i].(status := status, updatedAt := clock)
    ensures forall i :: 0 <= i < |ps| && ps[i].username != username ==>
      PoolsWithStatus(ps, username, status, clock)[i] == ps[i]
  {
  }

  lemma PoolsWithStatusValid(vs: seq<PHPVersionRow>, ps: seq<PoolRow>, clock: nat, username: string, status: string)
    requires TablesValid(vs, ps, clock)
    ensures TablesValid(vs, PoolsWithStatus(ps, username, status, clock), clock + 1)
  {
    var ps' := PoolsWithStatus(ps, username, status, clock);
    assert forall i :: 0 <= i < |ps| ==> SamePoolKey(ps'[i], ps[i]) && ps'[i].createdAt == ps[i].createdAt;
    assert forall i, j :: 0 <= i < j < |ps| ==> !SamePoolKey(ps'[i], ps'[j]);
  }

  // ---------------------------------------------------------------------------
  // The orders of the two listing queries

  /** ORDER BY version DESC (Go / SQLite byte order on the text). */
  predicate VersionDescLe(a: PHPVersionRow, b: PHPVersionRow) {
    a.version == b.version || LexLess(b.version, a.version)
  }

  /** ORDER BY username, created_at DESC. */
  predicate PoolListLe(a: PoolRow, b: PoolRow) {
    LexLess(a.username, b.username) || (a.username == b.username && a.createdAt >= b.createdAt)
  }

  lemma VersionDescPreorder()
    ensures TotalPreorder(VersionDescLe)
  {
    forall a: PHPVersionRow, b: PHPVersionRow
      ensures VersionDescLe(a, b) || VersionDescLe(b, a)
    {
      LexLessTotal(a.version, b.version);
    }
    forall a: PHPVersionRow, b: PHPVersionRow, c: PHPVersionRow | VersionDescLe(a, b) && VersionDescLe(b, c)
      ensures VersionDescLe(a, c)
    {
      LexLessTransitive(c.version, b.version, a.version);
    }
  }

  lemma PoolListPreorder()
    ensures TotalPreorder(PoolListLe)
  {
    forall a: PoolRow, b: PoolRow
      ensures PoolListLe(a, b) || PoolListLe(b, a)
    {
      LexLessTotal(a.username, b.username);
    }
    forall a: PoolRow, b: PoolRow, c: PoolRow | PoolListLe(a, b) && PoolListLe(b, c)
      ensures PoolListLe(a, c)
    {
      LexLessTransitive(a.username, b.username, c.username);
    }
  }

  /** The version listing: every row once, strictly descending by version. */
  lemma VersionListing(vs: seq<PHPVersionRow>)
    requires VersionsUnique(vs)
    ensures multiset(SortBy(vs, VersionDescLe)) == multiset(vs)
    ensures forall i, j :: 0 <= i < j < |vs| ==>
      LexLess(SortBy(vs, VersionDescLe)[j].version, SortBy(vs, VersionDescLe)[i].version)
  {
    VersionDescPreorder();
    SortBySorted(vs, VersionDescLe);
    var r := SortBy(vs, VersionDescLe);
    forall i, j | 0 <= i < j < |vs|
      ensures LexLess(r[j].version, r[i].version)
    {
      assert VersionDescLe(r[i], r[j]);
      DistinctPositionsDistinctVersions(vs, r, i, j);
    }
  }

  /** In a permutation of a table with unique versions, two positions hold
      two different versions. */
  lemma DistinctPositionsDistinctVersions(vs: seq<PHPVersionRow>, r: seq<PHPVersionRow>, i: int, j: int)
    requires VersionsUnique(vs) && multiset(r) == multiset(vs)
    requires 0 <= i < j < |r|
    ensures r[i].version != r[j].version
  {
    assert r[i] in multiset(vs) && r[j] in multiset(vs);
    var a :| 0 <= a < |vs| && vs[a] == r[i];
    var b :| 0 <= b < |vs| && vs[b] == r[j];
    assert r[i].version == r[j].version ==> a == b;
    CountUnique(vs, a);
    assert r == r[..i] + [r[i]] + r[i + 1..j] + [r[j]] + r[j + 1..];
    assert a == b ==> multiset(r)[r[i]] >= 2;
  }

  /** With unique versions each row occurs once. */
  lemma {:induction false} CountUnique(vs: seq<PHPVersionRow>, a: int)
    requires VersionsUnique(vs) && 0 <= a < |vs|
    ensures multiset(vs)[vs[a]] == 1
    decreases |vs|
  {
    var x := vs[a];
    var last := |vs| - 1;
    assert vs == vs[..last] + [vs[last]];
    assert VersionsUnique(vs[..last]) by {
      forall i, j | 0 <= i < j < |vs[..last]| ensures vs[..last][i].version != vs[..last][j].version {
        assert vs[..last][i] == vs[i] && vs[..last][j] == vs[j];
      }
    }
    if a == last {
      assert x !in vs[..last] by {
        forall i | 0 <= i < last ensures vs[..last][i] != x { assert vs[i].version != vs[last].version; }
      }
    } else {
      CountUnique(vs[..last], a);
      assert vs[..last][a] == x;
      assert vs[last] != x by { assert vs[a].version != vs[last].version; }
    }
  }

  /** The pool listing: every row once, by username, newest first within one. */
  lemma PoolListing(ps: seq<PoolRow>)
    ensures multiset(SortBy(ps, PoolListLe)) == multiset(ps)
    ensures forall i, j :: 0 <= i < j < |ps| ==>
      var r := SortBy(ps, PoolListLe);
      LexLess(r[i].username, r[j].username)
      || (r[i].username == r[j].username && r[i].createdAt >= r[j].createdAt)
  {
    PoolListPreorder();
    SortBySorted(ps, PoolListLe);
  }

  // ---------------------------------------------------------------------------
  // The registry

  class Database {
    /** The file the connection was opened on, with foreign keys enforced. */
    const dataSource: string
    var versions: seq<PHPVersionRow>
    var pools: seq<PoolRow>
    /** The insertion counter: next id and next timestamp. */
    var clock: nat

    ghost predicate Valid()
      reads this
    {
      TablesValid(versions, pools, clock)
    }

    /** NewDatabase: an empty path selects the default file. `CREATE TABLE IF
        NOT EXISTS` keeps what the file already holds, so the tables are the
        stored ones (both empty, with the counter at 0, for a new file); SQLite
        kept them within the schema's constraints. */
    constructor (dbPath: string, storedVersions: seq<PHPVersionRow>, storedPools: seq<PoolRow>, storedClock: nat)
      requires TablesValid(storedVersions, storedPools, storedClock)
      ensures Valid()
      ensures dataSource == DataSourceName(dbPath)
      ensures versions == storedVersions && pools == storedPools && clock == storedClock
    {
      dataSource := DataSourceName(dbPath);
      versions := storedVersions;
      pools := storedPools;
      clock := storedClock;
    }

    /** INSERT INTO php_versions with status 'active'; the version is unique. */
    method CreatePHPVersion(version: string, packageManager: string, osFamily: string, fault: bool)
      returns (err: Option<DbError>)
      requires Valid()
      modifies this
      ensures Valid()
      ensures pools == old(pools)
      ensures fault ==> err == Some(IoError)
      ensures !fault && HasVersion(old(versions), version) ==> err == Some(UniqueViolation)
      ensures err.None? <==> !fault && !HasVersion(old(versions), version)
      ensures err.Some? ==> versions == old(versions) && clock == old(clock)
      ensures err.None? ==> versions == old(versions) + [NewVersionRow(version, packageManager, osFamily, old(clock))]
      ensures err.None? ==> clock == old(clock) + 1
    {
      if fault {
        return Some(IoError);
      }
      var present := FindVersion(version);
      if present.Some? {
        return Some(UniqueViolation);
      }
      VersionInsertValid(versions, pools, clock, version, packageManager, osFamily);
      versions := versions + [NewVersionRow(version, packageManager, osFamily, clock)];
      clock := clock + 1;
      err := None;
    }

    /** The scan behind `WHERE version = ?`. */
    method FindVersion(version: string) returns (r: Option<PHPVersionRow>)
      ensures r.Some? <==> HasVersion(versions, version)
      ensures r.Some? ==> r.value in versions && r.value.version == version
    {
      r := None;
      for i := 0 to |versions|
        invariant r.Some? <==> exists j :: 0 <= j < i && versions[j].version == version
        invariant r.Some? ==> r.value in versions && r.value.version == version
      {
        if r.None? && versions[i].version == version {
          r := Some(versions[i]);
        }
      }
    }

    /** GetPHPVersion: the row for `version`; absent, with no error, when there
        is none. */
    method GetPHPVersion(version: string, fault: bool) returns (r: Result<Option<PHPVersionRow>, DbError>)
      ensures fault <==> r.Err?
      ensures r.Err? ==> r.error == IoError
      ensures r.Ok? ==> (r.value.Some? <==> HasVersion(versions, version))
      ensures r.Ok? && r.value.Some? ==> r.value.value in versions && r.value.value.version == version
    {
      if fault {
        return Err(IoError);
      }
      var found := FindVersion(version);
      r := Ok(found);
    }

    /** ListPHPVersions: every row ordered by version, newest text first; an
        empty list, never a missing one, beside an error. */
    method ListPHPVersions(fault: bool) returns (rows: seq<PHPVersionRow>, err: Option<DbError>)
      ensures fault ==> rows == [] && err == Some(IoError)
      ensures !fault ==> rows == SortBy(versions, VersionDescLe) && err.None?
    {
      if fault {
        return [], Some(IoError);
      }
      rows := [];
      for i := 0 to |versions|
        invariant rows == SortBy(versions[..i], VersionDescLe)
      {
        assert versions[..i + 1][..i] == versions[..i];
        rows := Insert(rows, versions[i], VersionDescLe);
      }
      assert versions[..|versions|] == versions;
      err := None;
    }

    /** CreatePool: insert an active row, or on a key match update only the
        paths and the update stamp; a new row needs its version row. */
    method CreatePool(username: string, phpVersion: string, provider: string,
                      socketPath: string, configPath: string, fault: bool)
      returns (err: Option<DbError>)
      requires Valid()
      modifies this
      ensures Valid()
      ensures versions == old(versions)
      ensures fault ==> err == Some(IoError)
      ensures (!fault && PoolIndex(old(pools), username, phpVersion, provider) < 0
               && !HasVersion(versions, phpVersion)) ==> err == Some(ForeignKeyViolation)
      ensures err.None? <==>
        !fault && (PoolIndex(old(pools), username, phpVersion, provider) >= 0 || HasVersion(versions, phpVersion))
      ensures err.Some? ==> pools == old(pools) && clock == old(clock)
      ensures err.None? ==> pools == PoolUpsert(old(pools), username, phpVersion, provider, socketPath, configPath, old(clock))
      ensures err.None? ==> clock == old(clock) + 1
    {
      if fault {
        return Some(IoError);
      }
      var k := PoolIndex(pools, username, phpVersion, provider);
      if k < 0 {
        var present := FindVersion(phpVersion);
        if present.None? {
          return Some(ForeignKeyViolation);
        }
      } else {
        assert HasVersion(versions, pools[k].phpVersion);
      }
      PoolUpsertValid(versions, pools, clock, username, phpVersion, provider, socketPath, configPath);
      pools := PoolUpsert(pools, username, phpVersion, provider, socketPath, configPath, clock);
      clock := clock + 1;
      err := None;
    }

    /** GetPool: the user's most recently created row; absent, with no error,
        when the user has none. */
    method GetPool(username: string, fault: bool) returns (r: Result<Option<PoolRow>, DbError>)
      ensures fault <==> r.Err?
      ensures r.Err? ==> r.error == IoError
      ensures r.Ok? ==> (r.value.Some? <==> HasUser(pools, username))
      ensures r.Ok? && r.value.Some? ==> r.value.value in pools && r.value.value.username == username
      ensures r.Ok? && r.value.Some? ==> forall i :: 0 <= i < |pools| && pools[i].username == username
                                          ==> pools[i].createdAt <= r.value.value.createdAt
      ensures r.Ok? ==> r.value == LatestPool(pools, username)
    {
      if fault {
        return Err(IoError);
      }
      var best: Option<PoolRow> := None;
      for i := 0 to |pools|
        invariant best == LatestPool(pools[..i], username)
      {
        assert pools[..i + 1][..i] == pools[..i];
        if pools[i].username == username && (best.None? || pools[i].createdAt > best.value.createdAt) {
          best := Some(pools[i]);
        }
      }
      assert pools[..|pools|] == pools;
      r := Ok(best);
    }

    /** GetPoolByUsernameAndVersion: a row of that user and version (the query
        names no order, so which provider's row is not promised). */
    method GetPoolByUsernameAndVersion(username: string, phpVersion: string, fault: bool)
      returns (r: Result<Option<PoolRow>, DbError>)
      ensures fault <==> r.Err?
      ensures r.Err? ==> r.error == IoError
      ensures r.Ok? ==> (r.value.Some? <==>
        exists i :: 0 <= i < |pools| && pools[i].username == username && pools[i].phpVersion == phpVersion)
      ensures r.Ok? && r.value.Some? ==> r.value.value in pools
      ensures r.Ok? && r.value.Some? ==> r.value.value.username == username && r.value.value.phpVersion == phpVersion
    {
      if fault {
        return Err(IoError);
      }
      var found: Option<PoolRow> := None;
      for i := 0 to |pools|
        invariant found.Some? <==> exists j :: 0 <= j < i && pools[j].username == username
                                      && pools[j].phpVersion == phpVersion
        invariant found.Some? ==> found.value in pools && found.value.username == username
                                  && found.value.phpVersion == phpVersion
      {
        if found.None? && pools[i].username == username && pools[i].phpVersion == phpVersion {
          found := Some(pools[i]);
        }
      }
      r := Ok(found);
    }

    /** ListPools: every row, by username and newest first. */
    method ListPools(fault: bool) returns (r: Result<seq<PoolRow>, DbError>)
      ensures fault ==> r == Err(IoError)
      ensures !fault ==> r == Ok(SortBy(pools, PoolListLe))
    {
      if fault {
        return Err(IoError);
      }
      var rows: seq<PoolRow> := [];
      for i := 0 to |pools|
        invariant rows == SortBy(pools[..i], PoolListLe)
      {
        assert pools[..i + 1][..i] == pools[..i];
        rows := Insert(rows, pools[i], PoolListLe);
      }
      assert pools[..|pools|] == pools;
      r := Ok(rows);
    }

    /** DeletePool: every row of the user goes; none to delete is ErrNoRows. */
    method DeletePool(username: string, fault: bool) returns (err: Option<DbError>)
      requires Valid()
      modifies this
      ensures Valid()
      ensures versions == old(versions) && clock == old(clock)
      ensures fault ==> err == Some(IoError)
      ensures !fault && !HasUser(old(pools), username) ==> err == Some(NoRows)
      ensures err.None? <==> !fault && HasUser(old(pools), username)
      ensures err.Some? ==> pools == old(pools)
      ensures err.None? ==> pools == PoolsWithout(old(pools), username)
    {
      if fault {
        return Some(IoError);
      }
      var remaining := PoolsWithout(pools, username);
      PoolsWithoutRows(pools, username);
      if |remaining| == |pools| {
        return Some(NoRows);
      }
      PoolsWithoutValid(versions, pools, clock, username);
      pools := remaining;
      err := None;
    }

    /** UpdatePoolStatus: sets the status of all the user's rows; no rows is
        not an error. */
    method UpdatePoolStatus(username: string, status: string, fault: bool) returns (err: Option<DbError>)
      requires Valid()
      modifies this
      ensures Valid()
      ensures versions == old(versions)
      ensures err.Some? <==> fault
      ensures err.Some? ==> err == Some(IoError) && pools == old(pools) && clock == old(clock)
      ensures err.None? ==> pools == PoolsWithStatus(old(pools), username, status, old(clock))
      ensures err.None? ==> clock == old(clock) + 1
    {
      if fault {
        return Some(IoError);
      }
      PoolsWithStatusValid(versions, pools, clock, username, status);
      pools := PoolsWithStatus(pools, username, status, clock);
      clock := clock + 1;
      err := None;
    }
  }
}
