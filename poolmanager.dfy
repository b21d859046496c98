/** The pool lifecycle manager (manager/pool.go). A PoolManager owns the
    registry, the provider factory and the part of the host it touches: the
    files and directories it creates, and the `systemctl` calls it makes. The
    OS user and group tables, the embedded template and the template renderer
    are fixed for the manager's lifetime; how each file-system, registry and
    service call turns out is an `Env` parameter of the operation.

    Each operation is specified by a function from the old `World` to the
    error and the new `World`; the lemmas below state about those functions
    what the step order means: which failures happen before any effect,
    which failure undoes the file write, and what a reload failure leaves in
    place. */
module PoolManagement {
  import opened Wrappers
  import opened GoStrings
  import opened OS
  import opened Templates
  import opened PoolSettings
  import opened Providers
  import opened Ordering
  import Registry
  import opened PoolErrors

  /** An OS account as user.Lookup reports it (the fields the manager reads). */
  datatype Account = Account(uid: string, gid: string)

  /** What does not change while the manager runs: the user table, the group
      table (gid to name), the embedded template text and the renderer. */
  datatype Host = Host(users: map<string, Account>, groups: map<string, string>,
                       embedded: string, render: Renderer)

  /** The registry queries whose I/O can fail. */
  datatype Query = LookupVersion | InsertVersion | LookupPool | InsertPool | DeleteRows | ListRows

  /** How the environment answers: the directories MkdirAll cannot create,
      the paths WriteFile and Remove fail on, the services for which
      `systemctl reload` and `systemctl reload-or-restart` fail, and the
      queries that fail with an I/O error. */
  datatype Env = Env(mkdirFails: set<string>, writeFails: set<string>, removeFails: set<string>,
                     reloadFails: set<string>, restartFails: set<string>, dbFaults: set<Query>)

  /** An action the manager attempted on the host or the registry, in order. */
  datatype Effect =
    | MakeDirs(dir: string)
    | WriteConfig(path: string)
    | RemoveConfig(path: string)
    | RegisterVersion(version: string)
    | SavePool(username: string, phpVersion: string, provider: string)
    | DeleteUserPools(username: string)
    | Reload(service: string)
    | ReloadOrRestart(service: string)

  /** The Pool record ListPools returns. */
  datatype Pool = Pool(user: string, phpVersion: string, provider: string, status: string,
                       configPath: string, socketPath: string)

  /** Everything the operations change: the files (path to content), the
      directories, both registry tables and their clock, and the actions
      attempted so far. */
  datatype World = World(files: map<string, string>, dirs: set<string>,
                         versions: seq<Registry.PHPVersionRow>, pools: seq<Registry.PoolRow>,
                         clock: nat, effects: seq<Effect>)

  // ---------------------------------------------------------------------------
  // The single steps

  /** os.Stat succeeds on a file or a directory. */
  predicate PathExists(w: World, path: string) {
    path in w.files || path in w.dirs
  }

  /** os.MkdirAll: attempted; the directory exists afterwards unless it fails. */
  function MkdirStep(w: World, dir: string, env: Env): World {
    var w1 := w.(effects := w.effects + [MakeDirs(dir)]);
    if dir in env.mkdirFails then w1 else w1.(dirs := w1.dirs + {dir})
  }

  /** os.WriteFile: attempted; replaces the content unless it fails. */
  function WriteStep(w: World, path: string, text: string, env: Env): World {
    var w1 := w.(effects := w.effects + [WriteConfig(path)]);
    if path in env.writeFails then w1 else w1.(files := w1.files[path := text])
  }

  /** os.Remove: attempted; the path is gone afterwards unless it fails. */
  function RemoveStep(w: World, path: string, env: Env): World {
    var w1 := w.(effects := w.effects + [RemoveConfig(path)]);
    if path in env.removeFails then w1 else w1.(files := w1.files - {path}, dirs := w1.dirs - {path})
  }

  /** reloadFPMService: `systemctl reload`, and `systemctl reload-or-restart`
      only when that fails. */
  function ReloadAttempts(service: string, env: Env): (r: seq<Effect>)
    ensures 1 <= |r| <= 2
    ensures r[0] == Reload(service)
    ensures |r| == 2 <==> service in env.reloadFails
    ensures |r| == 2 ==> r[1] == ReloadOrRestart(service)
  {
    if service in env.reloadFails then [Reload(service), ReloadOrRestart(service)] else [Reload(service)]
  }

  /** The reload fails only when both commands fail. */
  predicate ReloadSucceeds(service: string, env: Env) {
    service !in env.reloadFails || service !in env.restartFails
  }

  function ReloadStep(w: World, service: string, env: Env): World {
    w.(effects := w.effects + ReloadAttempts(service, env))
  }

  /** The provider a stored row names, remi for a name that is none of the four. */
  function FallbackType(providerType: string): (t: string)
    ensures t in ProviderNames
    ensures providerType in ProviderNames ==> t == providerType
    ensures providerType !in ProviderNames ==> t == TypeName(Remi)
  {
    if providerType in ProviderNames then providerType else "remi"
  }

  /** The pool's group: the name of the user's primary group when the gid is
      set and known, the username otherwise. */
  function GroupName(h: Host, username: string): string
    requires username in h.users
  {
    var gid := h.users[username].gid;
    if gid != "" && gid in h.groups then h.groups[gid] else username
  }

  /** The embedded pool template. */
  function PoolTemplate(h: Host): (t: string)
    ensures LoadTemplate(PoolTemplateName, h.embedded) == Ok(t)
  {
    LoadTemplate(PoolTemplateName, h.embedded).value
  }

  /** generatePoolConfig: the template rendered over the defaults. */
  function GeneratePoolConfig(h: Host, username: string, socketPath: string): Result<string, string>
    requires username in h.users
  {
    h.render(PoolTemplate(h), DefaultPoolConfigData(username, GroupName(h, username), socketPath))
  }

  /** The configuration UpdatePoolConfig renders: the settings over the
      defaults, never over what the file held before. */
  function UpdatedConfig(h: Host, username: string, socketPath: string, settings: Settings): Result<string, string>
    requires username in h.users
  {
    h.render(PoolTemplate(h), Overlay(DefaultPoolConfigData(username, GroupName(h, username), socketPath), settings))
  }

  // ---------------------------------------------------------------------------
  // The operations, as functions of the world

  /** CreatePool up to the file write. */
  function CreateOutcome(h: Host, f: ProviderFactory, w: World, username: string, phpVersion: string,
                         providerType: string, env: Env): (Option<PoolError>, World)
  {
    if username !in h.users then (Some(NoSuchUser(username)), w)
    else if providerType !in ProviderNames then (Some(InvalidProvider(providerType)), w)
    else
      var p := CreateProvider(f, providerType).value;
      var socket := SocketPath(p, username, phpVersion);
      var config := ConfigPath(p, username, phpVersion);
      var poolDir := PathDir(config);
      var w1 := MkdirStep(w, poolDir, env);
      if poolDir in env.mkdirFails then (Some(PoolDirFailed), w1)
      else if PathExists(w1, config) then (Some(PoolExists(username, phpVersion, providerType)), w1)
      else match GeneratePoolConfig(h, username, socket)
        case Err(m) => (Some(RenderFailed(m)), w1)
        case Ok(text) =>
          var w2 := WriteStep(w1, config, text, env);
          if config in env.writeFails then (Some(WriteFailed), w2)
          else CommitOutcome(f, w2, username, phpVersion, providerType, socket, config,
                             ServiceName(p, phpVersion), env)
  }

  /** The registry part of a new version row: registered with the provider's
      name as package manager and the family's name. */
  function Registered(w: World, f: ProviderFactory, phpVersion: string, providerType: string): World {
    w.(versions := w.versions + [Registry.NewVersionRow(phpVersion, providerType, FamilyName(f.osFamily), w.clock)],
       clock := w.clock + 1)
  }

  /** CreatePool from the socket directory on. */
  function CommitOutcome(f: ProviderFactory, w: World, username: string, phpVersion: string, providerType: string,
                         socket: string, config: string, service: string, env: Env): (Option<PoolError>, World)
  {
    var socketDir := PathDir(socket);
    var w1 := MkdirStep(w, socketDir, env);
    if socketDir in env.mkdirFails then (Some(SocketDirFailed), w1)
    else if LookupVersion in env.dbFaults then (Some(VersionLookupFailed), w1)
    else
      var known := Registry.HasVersion(w1.versions, phpVersion);
      var w2 := if known then w1 else w1.(effects := w1.effects + [RegisterVersion(phpVersion)]);
      if !known && InsertVersion in env.dbFaults then (Some(VersionRegisterFailed), w2)
      else
        var w3 := if known then w2 else Registered(w2, f, phpVersion, providerType);
        SaveOutcome(w3, username, phpVersion, providerType, socket, config, service, env)
  }

  /** CreatePool from the pool insert on: a failed insert removes the file
      just written; after a good one the reload decides the error. */
  function SaveOutcome(w: World, username: string, phpVersion: string, providerType: string,
                       socket: string, config: string, service: string, env: Env): (Option<PoolError>, World)
  {
    var w1 := w.(effects := w.effects + [SavePool(username, phpVersion, providerType)]);
    if InsertPool in env.dbFaults then (Some(PoolSaveFailed), RemoveStep(w1, config, env))
    else
      var w2 := w1.(pools := Registry.PoolUpsert(w1.pools, username, phpVersion, providerType, socket, config, w1.clock),
                    clock := w1.clock + 1);
      (if ReloadSucceeds(service, env) then None else Some(ReloadFailed), ReloadStep(w2, service, env))
  }

  /** DeletePool. */
  function DeleteOutcome(f: ProviderFactory, w: World, username: string, env: Env): (Option<PoolError>, World) {
    if LookupPool in env.dbFaults then (Some(PoolLookupFailed), w)
    else match Registry.LatestPool(w.pools, username)
      case None => (Some(PoolNotFound(username)), w)
      case Some(row) =>
        var present := PathExists(w, row.configPath);
        var w1 := if present then RemoveStep(w, row.configPath, env) else w;
        if present && row.configPath in env.removeFails then (Some(RemoveFailed), w1)
        else
          var service := ServiceName(CreateProvider(f, FallbackType(row.provider)).value, row.phpVersion);
          var w2 := ReloadStep(w1, service, env);
          var w3 := w2.(effects := w2.effects + [DeleteUserPools(username)]);
          if DeleteRows in env.dbFaults then (Some(PoolDeleteFailed), w3)
          else (None, w3.(pools := Registry.PoolsWithout(w3.pools, username)))
  }

  /** UpdatePoolConfig. */
  function UpdateOutcome(h: Host, f: ProviderFactory, w: World, username: string, settings: Settings,
                         env: Env): (Option<PoolError>, World) {
    if LookupPool in env.dbFaults then (Some(PoolLookupFailed), w)
    else match Registry.LatestPool(w.pools, username)
      case None => (Some(PoolNotFound(username)), w)
      case Some(row) =>
        if username !in h.users then (Some(UserLookupFailed), w)
        else match UpdatedConfig(h, username, row.socketPath, settings)
          case Err(m) => (Some(RenderTemplateFailed(m)), w)
          case Ok(text) =>
            var w1 := WriteStep(w, row.configPath, text, env);
            if row.configPath in env.writeFails then (Some(WriteFailed), w1)
            else
              var service := ServiceName(CreateProvider(f, FallbackType(row.provider)).value, row.phpVersion);
              (if ReloadSucceeds(service, env) then None else Some(ReloadFailed), ReloadStep(w1, service, env))
  }

  /** The Pool of a registry row. */
  function PoolOf(row: Registry.PoolRow): Pool {
    Pool(row.username, row.phpVersion, row.provider, row.status, row.configPath, row.socketPath)
  }

  // ---------------------------------------------------------------------------
  // The manager

  class PoolManager {
    const osFamily: OSFamily
    const db: Registry.Database
    const factory: ProviderFactory
    const host: Host
    var files: map<string, string>
    var dirs: set<string>
    var effects: seq<Effect>

    ghost predicate Valid()
      reads this, db
    {
      db.Valid() && factory == ProviderFactory(db, osFamily)
    }

    /** The manager's view of the world. */
    function State(): World
      reads this, db
    {
      World(files, dirs, db.versions, db.pools, db.clock, effects)
    }

    /** NewPoolManager over an opened registry: the family is what the
        detector decides, and the factory reaches the same registry. */
    constructor (probes: Probes, db: Registry.Database, host: Host, files: map<string, string>, dirs: set<string>)
      requires db.Valid()
      ensures Valid()
      ensures osFamily == Detect(probes) && this.db == db && this.host == host
      ensures this.files == files && this.dirs == dirs && effects == []
    {
      osFamily := Detect(probes);
      this.db := db;
      factory := ProviderFactory(db, Detect(probes));
      this.host := host;
      this.files := files;
      this.dirs := dirs;
      effects := [];
    }

    method MkdirAll(dir: string, env: Env) returns (ok: bool)
      modifies this
      ensures ok <==> dir !in env.mkdirFails
      ensures State() == MkdirStep(old(State()), dir, env)
    {
      effects := effects + [MakeDirs(dir)];
      ok := dir !in env.mkdirFails;
      if ok {
        dirs := dirs + {dir};
      }
    }

    method WriteFile(path: string, text: string, env: Env) returns (ok: bool)
      modifies this
      ensures ok <==> path !in env.writeFails
      ensures State() == WriteStep(old(State()), path, text, env)
    {
      effects := effects + [WriteConfig(path)];
      ok := path !in env.writeFails;
      if ok {
        files := files[path := text];
      }
    }

    method Remove(path: string, env: Env) returns (ok: bool)
      modifies this
      ensures ok <==> path !in env.removeFails
      ensures State() == RemoveStep(old(State()), path, env)
    {
      effects := effects + [RemoveConfig(path)];
      ok := path !in env.removeFails;
      if ok {
        files := files - {path};
        dirs := dirs - {path};
      }
    }

    /** reloadFPMService. */
    method ReloadFPMService(service: string, env: Env) returns (ok: bool)
      modifies this
      ensures ok <==> ReloadSucceeds(service, env)
      ensures State() == ReloadStep(old(State()), service, env)
    {
      effects := effects + [Reload(service)];
      ok := service !in env.reloadFails;
      if !ok {
        effects := effects + [ReloadOrRestart(service)];
        ok := service !in env.restartFails;
      }
    }

    /** CreatePool. */
    method CreatePool(username: string, phpVersion: string, providerType: string, env: Env)
      returns (err: Option<PoolError>)
      requires Valid()
      modifies this, db
      ensures Valid()
      ensures (err, State()) == CreateOutcome(host, factory, old(State()), username, phpVersion, providerType, env)
    {
      if username !in host.users {
        return Some(NoSuchUser(username));
      }
      if providerType !in ProviderNames {
        return Some(InvalidProvider(providerType));
      }
      var p := CreateProvider(factory, providerType).value;
      var socket := SocketPath(p, username, phpVersion);
      var config := ConfigPath(p, username, phpVersion);
      var ok := MkdirAll(PathDir(config), env);
      if !ok {
        return Some(PoolDirFailed);
      }
      if config in files || config in dirs {
        return Some(PoolExists(username, phpVersion, providerType));
      }
      var generated := GeneratePoolConfig(host, username, socket);
      if generated.Err? {
        return Some(RenderFailed(generated.error));
      }
      ok := WriteFile(config, generated.value, env);
      if !ok {
        return Some(WriteFailed);
      }
      err := Commit(username, phpVersion, providerType, socket, config, ServiceName(p, phpVersion), env);
    }

    /** CreatePool from the socket directory on. */
    method Commit(username: string, phpVersion: string, providerType: string,
                  socket: string, config: string, service: string, env: Env)
      returns (err: Option<PoolError>)
      requires Valid()
      modifies this, db
      ensures Valid()
      ensures (err, State()) == CommitOutcome(factory, old(State()), username, phpVersion, providerType,
                                              socket, config, service, env)
    {
      ghost var w0 := State();
      var ok := MkdirAll(PathDir(socket), env);
      if !ok {
        return Some(SocketDirFailed);
      }
      ghost var w1 := State();
      var found := db.GetPHPVersion(phpVersion, LookupVersion in env.dbFaults);
      if found.Err? {
        return Some(VersionLookupFailed);
      }
      ghost var known := Registry.HasVersion(w1.versions, phpVersion);
      if found.value.None? {
        effects := effects + [RegisterVersion(phpVersion)];
        ghost var w2 := State();
        assert w2 == w1.(effects := w1.effects + [RegisterVersion(phpVersion)]);
        var e := db.CreatePHPVersion(phpVersion, providerType, FamilyName(osFamily), InsertVersion in env.dbFaults);
        if e.Some? {
          assert State() == w2;
          return Some(VersionRegisterFailed);
        }
        assert State() == Registered(w2, factory, phpVersion, providerType);
        assert db.versions[|db.versions| - 1].version == phpVersion;
      }
      ghost var w3 := State();
      assert w3 == if known then w1
                   else Registered(w1.(effects := w1.effects + [RegisterVersion(phpVersion)]), factory, phpVersion, providerType);
      assert CommitOutcome(factory, w0, username, phpVersion, providerType, socket, config, service, env)
          == SaveOutcome(w3, username, phpVersion, providerType, socket, config, service, env);
      err := Save(username, phpVersion, providerType, socket, config, service, env);
    }

    /** CreatePool from the pool insert on. */
    method Save(username: string, phpVersion: string, providerType: string,
                socket: string, config: string, service: string, env: Env)
      returns (err: Option<PoolError>)
      requires Valid() && Registry.HasVersion(db.versions, phpVersion)
      modifies this, db
      ensures Valid()
      ensures (err, State()) == SaveOutcome(old(State()), username, phpVersion, providerType,
                                            socket, config, service, env)
    {
      effects := effects + [SavePool(username, phpVersion, providerType)];
      var e := db.CreatePool(username, phpVersion, providerType, socket, config, InsertPool in env.dbFaults);
      if e.Some? {
        var removed := Remove(config, env);
        return Some(PoolSaveFailed);
      }
      var ok := ReloadFPMService(service, env);
      if !ok {
        return Some(ReloadFailed);
      }
      err := None;
    }

    /** DeletePool. */
    method DeletePool(username: string, env: Env) returns (err: Option<PoolError>)
      requires Valid()
      modifies this, db
      ensures Valid()
      ensures (err, State()) == DeleteOutcome(factory, old(State()), username, env)
    {
      var found := db.GetPool(username, LookupPool in env.dbFaults);
      if found.Err? {
        return Some(PoolLookupFailed);
      }
      if found.value.None? {
        return Some(PoolNotFound(username));
      }
      var row := found.value.value;
      ghost var w0 := State();
      ghost var present := PathExists(w0, row.configPath);
      if row.configPath in files || row.configPath in dirs {
        var ok := Remove(row.configPath, env);
        if !ok {
          return Some(RemoveFailed);
        }
      }
      ghost var w1 := State();
      assert w1 == if present then RemoveStep(w0, row.configPath, env) else w0;
      var p := CreateProvider(factory, FallbackType(row.provider)).value;
      var reloaded := ReloadFPMService(ServiceName(p, row.phpVersion), env);
      effects := effects + [DeleteUserPools(username)];
      ghost var w3 := State();
      assert w3 == ReloadStep(w1, ServiceName(p, row.phpVersion), env).(effects := w3.effects);
      var e := db.DeletePool(username, DeleteRows in env.dbFaults);
      if e.Some? {
        assert State() == w3;
        return Some(PoolDeleteFailed);
      }
      assert State() == w3.(pools := Registry.PoolsWithout(w3.pools, username));
      err := None;
    }

    /** UpdatePoolConfig. */
    method UpdatePoolConfig(username: string, settings: Settings, env: Env) returns (err: Option<PoolError>)
      requires Valid()
      modifies this
      ensures Valid()
      ensures (err, State()) == UpdateOutcome(host, factory, old(State()), username, settings, env)
    {
      var found := db.GetPool(username, LookupPool in env.dbFaults);
      if found.Err? {
        return Some(PoolLookupFailed);
      }
      if found.value.None? {
        return Some(PoolNotFound(username));
      }
      var row := found.value.value;
      if username !in host.users {
        return Some(UserLookupFailed);
      }
      var data := DefaultPoolConfigData(username, GroupName(host, username), row.socketPath);
      data := ApplyPoolSettings(data, settings);
      var rendered := host.render(PoolTemplate(host), data);
      if rendered.Err? {
        return Some(RenderTemplateFailed(rendered.error));
      }
      var ok := WriteFile(row.configPath, rendered.value, env);
      if !ok {
        return Some(WriteFailed);
      }
      var p := CreateProvider(factory, FallbackType(row.provider)).value;
      ok := ReloadFPMService(ServiceName(p, row.phpVersion), env);
      if !ok {
        return Some(ReloadFailed);
      }
      err := None;
    }

    /** ListPools: the registry's listing, one Pool per row, in its order. */
    method ListPools(env: Env) returns (r: Result<seq<Pool>, PoolError>)
      ensures ListRows in env.dbFaults ==> r == Err(PoolListFailed)
      ensures ListRows !in env.dbFaults ==> r.Ok? && |r.value| == |db.pools|
      ensures ListRows !in env.dbFaults ==> forall i :: 0 <= i < |r.value| ==>
        r.value[i] == PoolOf(SortBy(db.pools, Registry.PoolListLe)[i])
    {
      var rows := db.ListPools(ListRows in env.dbFaults);
      if rows.Err? {
        return Err(PoolListFailed);
      }
      var listed := rows.value;
      assert |listed| == |db.pools| && listed == SortBy(db.pools, Registry.PoolListLe);
      var pools: seq<Pool> := [];
      for i := 0 to |listed|
        invariant |pools| == i
        invariant forall k :: 0 <= k < i ==> pools[k] == PoolOf(listed[k])
      {
        pools := pools + [PoolOf(listed[i])];
      }
      r := Ok(pools);
    }
  }

  // ---------------------------------------------------------------------------
  // What the step order means

  /** The paths and the service of a CreatePool call. */
  function ConfigFor(f: ProviderFactory, username: string, phpVersion: string, providerType: string): string
    requires providerType in ProviderNames
  {
    ConfigPath(CreateProvider(f, providerType).value, username, phpVersion)
  }

  function SocketFor(f: ProviderFactory, username: string, phpVersion: string, providerType: string): string
    requires providerType in ProviderNames
  {
    SocketPath(CreateProvider(f, providerType).value, username, phpVersion)
  }

  function ServiceFor(f: ProviderFactory, phpVersion: string, providerType: string): string
    requires providerType in ProviderNames
  {
    ServiceName(CreateProvider(f, providerType).value, phpVersion)
  }

  /** An environment in which nothing fails. */
  const Calm: Env := Env({}, {}, {}, {}, {}, {})

  /** The registry holds a pool row with this key and these paths. */
  predicate HasPoolRow(ps: seq<Registry.PoolRow>, username: string, phpVersion: string, provider: string,
                       socket: string, config: string) {
    exists i :: 0 <= i < |ps| && ps[i].username == username && ps[i].phpVersion == phpVersion
      && ps[i].provider == provider && ps[i].socketPath == socket && ps[i].configPath == config
  }

  /** An unknown user or provider name is refused before anything happens. */
  lemma CreateRejectsUnknown(h: Host, f: ProviderFactory, w: World, username: string, phpVersion: string,
                             providerType: string, env: Env)
    ensures username !in h.users ==>
      CreateOutcome(h, f, w, username, phpVersion, providerType, env) == (Some(NoSuchUser(username)), w)
    ensures username in h.users && providerType !in ProviderNames ==>
      CreateOutcome(h, f, w, username, phpVersion, providerType, env) == (Some(InvalidProvider(providerType)), w)
  {
  }

  /** A file already at the config path is left as it is, and so is the
      registry; only the pool directory may have been created. */
  lemma CreateKeepsExisting(h: Host, f: ProviderFactory, w: World, username: string, phpVersion: string,
                            providerType: string, env: Env)
    requires username in h.users && providerType in ProviderNames
    requires PathDir(ConfigFor(f, username, phpVersion, providerType)) !in env.mkdirFails
    requires ConfigFor(f, username, phpVersion, providerType) in w.files
    ensures var o := CreateOutcome(h, f, w, username, phpVersion, providerType, env);
      && o.0 == Some(PoolExists(username, phpVersion, providerType))
      && o.1.files == w.files
      && o.1.dirs == w.dirs + {PathDir(ConfigFor(f, username, phpVersion, providerType))}
      && o.1.versions == w.versions && o.1.pools == w.pools
  {
  }

  /** Only a failed pool insert removes the file CreatePool wrote: after it
      (and a removal that works) the files are as before; a failure at the
      socket directory or at either version step keeps the new file, and
      the pool table is untouched in all of these. */
  lemma CreateRollsBackOnlyOnInsert(h: Host, f: ProviderFactory, w: World, username: string, phpVersion: string,
                                    providerType: string, env: Env)
    requires username in h.users && providerType in ProviderNames
    ensures var o := CreateOutcome(h, f, w, username, phpVersion, providerType, env);
      var config := ConfigFor(f, username, phpVersion, providerType);
      o.0 == Some(PoolSaveFailed) && config !in env.removeFails ==> o.1.files == w.files && o.1.pools == w.pools
    ensures var o := CreateOutcome(h, f, w, username, phpVersion, providerType, env);
      var config := ConfigFor(f, username, phpVersion, providerType);
      var text := GeneratePoolConfig(h, username, SocketFor(f, username, phpVersion, providerType));
      (o.0 == Some(SocketDirFailed) || o.0 == Some(VersionLookupFailed) || o.0 == Some(VersionRegisterFailed)) ==>
        && text.Ok? && config !in w.files
        && o.1.files == w.files[config := text.value]
        && o.1.pools == w.pools && o.1.versions == w.versions
  {
    var o := CreateOutcome(h, f, w, username, phpVersion, providerType, env);
    if CommitStageError(o.0) {
      var config := ConfigFor(f, username, phpVersion, providerType);
      var socket := SocketFor(f, username, phpVersion, providerType);
      CreateReachesCommit(h, f, w, username, phpVersion, providerType, env);
      var text := GeneratePoolConfig(h, username, socket).value;
      var w2 := WriteStep(MkdirStep(w, PathDir(config), env), config, text, env);
      assert w2.files == w.files[config := text] && w2.pools == w.pools && w2.versions == w.versions;
      CommitRollsBack(f, w2, username, phpVersion, providerType, socket, config,
                      ServiceFor(f, phpVersion, providerType), env);
      assert w.files[config := text] - {config} == w.files;
    }
  }

  /** The actions CreatePool attempts from the socket directory on when the
      pool insert works: the socket directory, the version row when it was
      missing, the pool row, then the reload. */
  function CommitEffects(username: string, phpVersion: string, providerType: string, socket: string,
                         service: string, known: bool, env: Env): seq<Effect> {
    [MakeDirs(PathDir(socket))] + (if known then [] else [RegisterVersion(phpVersion)])
    + [SavePool(username, phpVersion, providerType)] + ReloadAttempts(service, env)
  }

  /** The pool insert and the reload, when the insert works. */
  lemma SaveCommits(w: World, username: string, phpVersion: string, providerType: string,
                    socket: string, config: string, service: string, env: Env)
    ensures var o := SaveOutcome(w, username, phpVersion, providerType, socket, config, service, env);
      (o.0 == None || o.0 == Some(ReloadFailed)) ==>
        && o.1.files == w.files && o.1.versions == w.versions
        && o.1.pools == Registry.PoolUpsert(w.pools, username, phpVersion, providerType, socket, config, w.clock)
        && o.1.effects == w.effects + [SavePool(username, phpVersion, providerType)] + ReloadAttempts(service, env)
    ensures var o := SaveOutcome(w, username, phpVersion, providerType, socket, config, service, env);
      o.0 == Some(ReloadFailed) ==> !ReloadSucceeds(service, env)
  {
  }

  /** CreatePool from the socket directory on, when the insert works. */
  lemma CommitCommits(f: ProviderFactory, w: World, username: string, phpVersion: string, providerType: string,
                      socket: string, config: string, service: string, env: Env)
    ensures var o := CommitOutcome(f, w, username, phpVersion, providerType, socket, config, service, env);
      var known := Registry.HasVersion(w.versions, phpVersion);
      (o.0 == None || o.0 == Some(ReloadFailed)) ==>
        && o.1.files == w.files
        && o.1.versions == (if known then w.versions
                            else w.versions + [Registry.NewVersionRow(phpVersion, providerType, FamilyName(f.osFamily), w.clock)])
        && o.1.pools == Registry.PoolUpsert(w.pools, username, phpVersion, providerType, socket, config,
                                            if known then w.clock else w.clock + 1)
        && o.1.effects == w.effects + CommitEffects(username, phpVersion, providerType, socket, service, known, env)
    ensures var o := CommitOutcome(f, w, username, phpVersion, providerType, socket, config, service, env);
      o.0 == Some(ReloadFailed) ==> !ReloadSucceeds(service, env)
  {
    var o := CommitOutcome(f, w, username, phpVersion, providerType, socket, config, service, env);
    var known := Registry.HasVersion(w.versions, phpVersion);
    if (o.0 == None || o.0 == Some(ReloadFailed)) {
      var w1 := MkdirStep(w, PathDir(socket), env);
      var w2 := if known then w1 else w1.(effects := w1.effects + [RegisterVersion(phpVersion)]);
      var w3 := if known then w2 else Registered(w2, f, phpVersion, providerType);
      assert o == SaveOutcome(w3, username, phpVersion, providerType, socket, config, service, env);
      SaveCommits(w3, username, phpVersion, providerType, socket, config, service, env);
      assert w3.effects == w.effects + [MakeDirs(PathDir(socket))] + (if known then [] else [RegisterVersion(phpVersion)]);
      assert o.1.effects == w3.effects + [SavePool(username, phpVersion, providerType)] + ReloadAttempts(service, env);
    }
  }

  /** The outcomes that only the steps from the socket directory on produce. */
  predicate CommitStageError(e: Option<PoolError>) {
    e == None || e == Some(SocketDirFailed) || e == Some(VersionLookupFailed)
    || e == Some(VersionRegisterFailed) || e == Some(PoolSaveFailed) || e == Some(ReloadFailed)
  }

  /** A CreatePool that returns no error, or an error of a step from the
      socket directory on, got past every step before them: it is the commit
      stage over the world with the pool directory made and the rendered file
      written. */
  lemma CreateReachesCommit(h: Host, f: ProviderFactory, w: World, username: string, phpVersion: string,
                            providerType: string, env: Env)
    requires username in h.users && providerType in ProviderNames
    requires CommitStageError(CreateOutcome(h, f, w, username, phpVersion, providerType, env).0)
    ensures var config := ConfigFor(f, username, phpVersion, providerType);
      var socket := SocketFor(f, username, phpVersion, providerType);
      && GeneratePoolConfig(h, username, socket).Ok?
      && config !in w.files
      && PathDir(config) !in env.mkdirFails && config !in env.writeFails
      && CreateOutcome(h, f, w, username, phpVersion, providerType, env)
         == CommitOutcome(f, WriteStep(MkdirStep(w, PathDir(config), env), config,
                                       GeneratePoolConfig(h, username, socket).value, env),
                          username, phpVersion, providerType, socket, config,
                          ServiceFor(f, phpVersion, providerType), env)
  {
  }

  /** The commit stage over the world with the pool directory made and the
      file written, described in terms of the world before both. */
  lemma WrittenCommits(f: ProviderFactory, w: World, username: string, phpVersion: string, providerType: string,
                       socket: string, config: string, text: string, service: string, env: Env)
    requires PathDir(config) !in env.mkdirFails && config !in env.writeFails
    ensures var o := CommitOutcome(f, WriteStep(MkdirStep(w, PathDir(config), env), config, text, env),
                                   username, phpVersion, providerType, socket, config, service, env);
      var known := Registry.HasVersion(w.versions, phpVersion);
      (o.0 == None || o.0 == Some(ReloadFailed)) ==>
        && o.1.files == w.files[config := text]
        && o.1.pools == Registry.PoolUpsert(w.pools, username, phpVersion, providerType, socket, config,
                                            if known then w.clock else w.clock + 1)
        && o.1.versions == (if known then w.versions
                            else w.versions + [Registry.NewVersionRow(phpVersion, providerType, FamilyName(f.osFamily), w.clock)])
        && o.1.effects == w.effects + [MakeDirs(PathDir(config)), WriteConfig(config)]
                          + CommitEffects(username, phpVersion, providerType, socket, service, known, env)
        && (o.0 == Some(ReloadFailed) ==> !ReloadSucceeds(service, env))
  {
    var w2 := WriteStep(MkdirStep(w, PathDir(config), env), config, text, env);
    assert w2.files == w.files[config := text];
    assert w2.pools == w.pools && w2.clock == w.clock && w2.versions == w.versions;
    assert w2.effects == w.effects + [MakeDirs(PathDir(config)), WriteConfig(config)];
    CommitCommits(f, w2, username, phpVersion, providerType, socket, config, service, env);
  }

  /** The commit stage's failures before the pool insert leave the files and
      both tables; a failed insert removes the file and leaves the pool table. */
  lemma CommitRollsBack(f: ProviderFactory, w: World, username: string, phpVersion: string, providerType: string,
                        socket: string, config: string, service: string, env: Env)
    ensures var o := CommitOutcome(f, w, username, phpVersion, providerType, socket, config, service, env);
      (o.0 == Some(SocketDirFailed) || o.0 == Some(VersionLookupFailed) || o.0 == Some(VersionRegisterFailed)) ==>
        o.1.files == w.files && o.1.pools == w.pools && o.1.versions == w.versions
    ensures var o := CommitOutcome(f, w, username, phpVersion, providerType, socket, config, service, env);
      o.0 == Some(PoolSaveFailed) && config !in env.removeFails ==>
        o.1.files == w.files - {config} && o.1.pools == w.pools
  {
  }

  /** After a CreatePool that returns no error or only the reload failure,
      the rendered file and the pool row both exist, a missing version row
      was registered first, and the actions ran in this order. */
  lemma CreateCommits(h: Host, f: ProviderFactory, w: World, username: string, phpVersion: string,
                      providerType: string, env: Env)
    requires username in h.users && providerType in ProviderNames
    requires var o := CreateOutcome(h, f, w, username, phpVersion, providerType, env);
      o.0 == None || o.0 == Some(ReloadFailed)
    ensures var o := CreateOutcome(h, f, w, username, phpVersion, providerType, env);
      var config := ConfigFor(f, username, phpVersion, providerType);
      var socket := SocketFor(f, username, phpVersion, providerType);
      var known := Registry.HasVersion(w.versions, phpVersion);
      && GeneratePoolConfig(h, username, socket).Ok?
      && config !in w.files
      && o.1.files == w.files[config := GeneratePoolConfig(h, username, socket).value]
      && o.1.pools == Registry.PoolUpsert(w.pools, username, phpVersion, providerType, socket, config,
                                          if known then w.clock else w.clock + 1)
      && o.1.versions == (if known then w.versions
                          else w.versions + [Registry.NewVersionRow(phpVersion, providerType, FamilyName(f.osFamily), w.clock)])
      && o.1.effects == w.effects + [MakeDirs(PathDir(config)), WriteConfig(config)]
                        + CommitEffects(username, phpVersion, providerType, socket,
                                        ServiceFor(f, phpVersion, providerType), known, env)
      && (o.0 == Some(ReloadFailed) ==> !ReloadSucceeds(ServiceFor(f, phpVersion, providerType), env))
  {
    var config := ConfigFor(f, username, phpVersion, providerType);
    var socket := SocketFor(f, username, phpVersion, providerType);
    var service := ServiceFor(f, phpVersion, providerType);
    CreateReachesCommit(h, f, w, username, phpVersion, providerType, env);
    var text := GeneratePoolConfig(h, username, socket).value;
    WrittenCommits(f, w, username, phpVersion, providerType, socket, config, text, service, env);
  }

  /** Every CreatePool that gets as far as the reload leaves a pool row with
      the provider's socket and config paths. */
  lemma CreateLeavesRow(h: Host, f: ProviderFactory, w: World, username: string, phpVersion: string,
                        providerType: string, env: Env)
    requires username in h.users && providerType in ProviderNames
    requires var o := CreateOutcome(h, f, w, username, phpVersion, providerType, env);
      o.0 == None || o.0 == Some(ReloadFailed)
    ensures var o := CreateOutcome(h, f, w, username, phpVersion, providerType, env);
        HasPoolRow(o.1.pools, username, phpVersion, providerType,
                   SocketFor(f, username, phpVersion, providerType), ConfigFor(f, username, phpVersion, providerType))
  {
    var o := CreateOutcome(h, f, w, username, phpVersion, providerType, env);
    var config := ConfigFor(f, username, phpVersion, providerType);
    var socket := SocketFor(f, username, phpVersion, providerType);
    CreateCommits(h, f, w, username, phpVersion, providerType, env);
    var clock := if Registry.HasVersion(w.versions, phpVersion) then w.clock else w.clock + 1;
    var ps := Registry.PoolUpsert(w.pools, username, phpVersion, providerType, socket, config, clock);
    Registry.PoolUpsertEffect(w.pools, username, phpVersion, providerType, socket, config, clock);
    var k := Registry.PoolIndex(w.pools, username, phpVersion, providerType);
    if k >= 0 {
      assert ps[k].socketPath == socket && ps[k].configPath == config;
    } else {
      assert ps[|w.pools|].socketPath == socket && ps[|w.pools|].configPath == config;
    }
  }

  /** The config path is longer than its directory, so the directory
      CreatePool makes is never the file it checks for. */
  lemma PathDirShorter(p: string)
    requires |p| >= 2
    ensures |PathDir(p)| < |p|
  {
  }

  /** With nothing failing and no file at the config path, CreatePool
      succeeds for any version string whatever: it applies no version check. */
  lemma CreateSucceedsCalmly(h: Host, f: ProviderFactory, w: World, username: string, phpVersion: string,
                             providerType: string)
    requires username in h.users && providerType in ProviderNames
    requires !PathExists(w, ConfigFor(f, username, phpVersion, providerType))
    requires GeneratePoolConfig(h, username, SocketFor(f, username, phpVersion, providerType)).Ok?
    ensures CreateOutcome(h, f, w, username, phpVersion, providerType, Calm).0 == None
  {
    var p := CreateProvider(f, providerType).value;
    var config := ConfigFor(f, username, phpVersion, providerType);
    ConfigPathShape(p, username, phpVersion);
    PathDirShorter(config);
    assert PathDir(config) != config;
  }

  /** DeletePool of a user without rows reports not found and changes nothing. */
  lemma DeleteMissing(f: ProviderFactory, w: World, username: string, env: Env)
    requires LookupPool !in env.dbFaults && !Registry.HasUser(w.pools, username)
    ensures DeleteOutcome(f, w, username, env) == (Some(PoolNotFound(username)), w)
  {
  }

  /** DeletePool removes the newest row's file when there is one (a missing
      file is no error), ignores the reload, and deletes every row of the
      user last, only after the removal worked. */
  lemma DeleteOrder(f: ProviderFactory, w: World, username: string, env: Env)
    requires LookupPool !in env.dbFaults && Registry.HasUser(w.pools, username)
    ensures var row := Registry.LatestPool(w.pools, username).value;
      var o := DeleteOutcome(f, w, username, env);
      && (o.0 == Some(RemoveFailed) ==>
            PathExists(w, row.configPath) && o.1.files == w.files && o.1.pools == w.pools)
      && (o.0.None? <==>
            (!PathExists(w, row.configPath) || row.configPath !in env.removeFails) && DeleteRows !in env.dbFaults)
      && (o.0.None? ==>
            && o.1.pools == Registry.PoolsWithout(w.pools, username)
            && !Registry.HasUser(o.1.pools, username)
            && o.1.files == w.files - {row.configPath}
            && o.1.effects != [] && o.1.effects[|o.1.effects| - 1] == DeleteUserPools(username))
  {
    Registry.PoolsWithoutRows(w.pools, username);
    var row := Registry.LatestPool(w.pools, username).value;
    if !PathExists(w, row.configPath) {
      assert w.files - {row.configPath} == w.files;
    }
  }

  /** UpdatePoolConfig writes, before the reload, the settings rendered over
      the defaults at the newest row's config path; the registry is not
      touched. */
  lemma UpdateFromDefaults(h: Host, f: ProviderFactory, w: World, username: string, settings: Settings, env: Env)
    requires LookupPool !in env.dbFaults && Registry.HasUser(w.pools, username) && username in h.users
    ensures var row := Registry.LatestPool(w.pools, username).value;
      var o := UpdateOutcome(h, f, w, username, settings, env);
      var text := UpdatedConfig(h, username, row.socketPath, settings);
      && o.1.pools == w.pools && o.1.versions == w.versions
      && ((o.0 == None || o.0 == Some(ReloadFailed)) ==>
            text.Ok? && o.1.files == w.files[row.configPath := text.value])
      && (o.0 == Some(ReloadFailed) ==> !ReloadSucceeds(
            ServiceName(CreateProvider(f, FallbackType(row.provider)).value, row.phpVersion), env))
  {
  }

  /** Two updates in a row leave the file the second alone would write: no
      earlier setting survives. */
  lemma UpdateLastWins(h: Host, f: ProviderFactory, w: World, username: string, s1: Settings, s2: Settings, env: Env)
    requires UpdateOutcome(h, f, w, username, s1, env).0.None?
    requires UpdateOutcome(h, f, w, username, s2, env).0.None?
    ensures UpdateOutcome(h, f, UpdateOutcome(h, f, w, username, s1, env).1, username, s2, env).1.files
         == UpdateOutcome(h, f, w, username, s2, env).1.files
  {
    var row := Registry.LatestPool(w.pools, username).value;
    var t1 := UpdatedConfig(h, username, row.socketPath, s1).value;
    var t2 := UpdatedConfig(h, username, row.socketPath, s2).value;
    assert w.files[row.configPath := t1][row.configPath := t2] == w.files[row.configPath := t2];
  }

  /** An update without recognised settings writes what CreatePool wrote for
      the same user and socket. */
  lemma UpdateWithoutSettingsRegenerates(h: Host, username: string, socketPath: string)
    requires username in h.users
    ensures UpdatedConfig(h, username, socketPath, map[]) == GeneratePoolConfig(h, username, socketPath)
  {
    OverlayEmpty(DefaultPoolConfigData(username, GroupName(h, username), socketPath));
  }

  /** CreatePool reports a failed render as a failure to generate the pool
      configuration, with the renderer's message, and only when it got as far
      as rendering. */
  lemma CreateRenderMessage(h: Host, f: ProviderFactory, w: World, username: string, phpVersion: string,
                            providerType: string, env: Env)
    ensures var e := CreateOutcome(h, f, w, username, phpVersion, providerType, env).0;
      e.Some? ==> !e.value.RenderTemplateFailed?
    ensures var e := CreateOutcome(h, f, w, username, phpVersion, providerType, env).0;
      e.Some? && e.value.RenderFailed? ==>
        && username in h.users && providerType in ProviderNames
        && PathDir(ConfigFor(f, username, phpVersion, providerType)) !in env.mkdirFails
        && !PathExists(MkdirStep(w, PathDir(ConfigFor(f, username, phpVersion, providerType)), env),
                       ConfigFor(f, username, phpVersion, providerType))
        && GeneratePoolConfig(h, username, SocketFor(f, username, phpVersion, providerType))
           == Err(e.value.message)
        && Message(e.value) == "failed to generate pool config"
  {
    var e := CreateOutcome(h, f, w, username, phpVersion, providerType, env).0;
    if e.Some? && e.value.RenderFailed? {
      GenerateFailedMessage(e.value.message);
    }
    if username in h.users && providerType in ProviderNames {
      var p := CreateProvider(f, providerType).value;
      var socket := SocketPath(p, username, phpVersion);
      var config := ConfigPath(p, username, phpVersion);
      var w1 := MkdirStep(w, PathDir(config), env);
      if PathDir(config) !in env.mkdirFails && !PathExists(w1, config) && GeneratePoolConfig(h, username, socket).Ok? {
        var w2 := WriteStep(w1, config, GeneratePoolConfig(h, username, socket).value, env);
        if config !in env.writeFails {
          CommitErrors(f, w2, username, phpVersion, providerType, socket, config, ServiceName(p, phpVersion), env);
        }
      }
    }
  }

  /** The commit stage fails only with its own errors. */
  lemma CommitErrors(f: ProviderFactory, w: World, username: string, phpVersion: string, providerType: string,
                     socket: string, config: string, service: string, env: Env)
    ensures CommitStageError(CommitOutcome(f, w, username, phpVersion, providerType, socket, config, service, env).0)
  {
  }

  /** UpdatePoolConfig reports a failed render as a failure to render the
      template, with the renderer's message. */
  lemma UpdateRenderMessage(h: Host, f: ProviderFactory, w: World, username: string, settings: Settings, env: Env)
    ensures var e := UpdateOutcome(h, f, w, username, settings, env).0;
      e.Some? ==> !e.value.RenderFailed?
    ensures var e := UpdateOutcome(h, f, w, username, settings, env).0;
      e.Some? && e.value.RenderTemplateFailed? ==>
        && username in h.users && Registry.HasUser(w.pools, username)
        && UpdatedConfig(h, username, Registry.LatestPool(w.pools, username).value.socketPath, settings)
           == Err(e.value.message)
        && Message(e.value) == "failed to render template"
  {
    var e := UpdateOutcome(h, f, w, username, settings, env).0;
    if e.Some? && e.value.RenderTemplateFailed? {
      RenderTemplateMessage(e.value.message);
    }
  }


  /** Creating the first pool of a user and deleting it again, with nothing
      failing, leaves the files and the pool table as they were. */
  lemma CreateThenDelete(h: Host, f: ProviderFactory, w: World, username: string, phpVersion: string,
                         providerType: string)
    requires username in h.users && providerType in ProviderNames
    requires !Registry.HasUser(w.pools, username)
    requires CreateOutcome(h, f, w, username, phpVersion, providerType, Calm).0 == None
    ensures var c := CreateOutcome(h, f, w, username, phpVersion, providerType, Calm).1;
      var d := DeleteOutcome(f, c, username, Calm);
      d.0 == None && d.1.files == w.files && d.1.pools == w.pools
  {
    var config := ConfigFor(f, username, phpVersion, providerType);
    var socket := SocketFor(f, username, phpVersion, providerType);
    CreateCommits(h, f, w, username, phpVersion, providerType, Calm);
    var clock := if Registry.HasVersion(w.versions, phpVersion) then w.clock else w.clock + 1;
    DeleteUndoesFirstCreate(f, w, CreateOutcome(h, f, w, username, phpVersion, providerType, Calm).1,
                            username, phpVersion, providerType, socket, config,
                            GeneratePoolConfig(h, username, socket).value, clock);
  }

  /** A world that holds one new file and the user's first row over another
      world: DeletePool, nothing failing, takes both away again. */
  lemma DeleteUndoesFirstCreate(f: ProviderFactory, w: World, c: World, username: string, phpVersion: string,
                                providerType: string, socket: string, config: string, text: string, clock: nat)
    requires !Registry.HasUser(w.pools, username) && config !in w.files
    requires c.files == w.files[config := text]
    requires c.pools == Registry.PoolUpsert(w.pools, username, phpVersion, providerType, socket, config, clock)
    ensures var d := DeleteOutcome(f, c, username, Calm);
      d.0 == None && d.1.files == w.files && d.1.pools == w.pools
  {
    var row := Registry.NewPoolRow(username, phpVersion, providerType, socket, config, clock);
    assert Registry.PoolIndex(w.pools, username, phpVersion, providerType) < 0;
    Registry.PoolUpsertEffect(w.pools, username, phpVersion, providerType, socket, config, clock);
    assert c.pools == w.pools + [row];
    DeleteNewest(f, c, w.pools, row, username, Calm);
    assert w.files[config := text] - {config} == w.files;
    Registry.PoolsWithoutSnoc(w.pools, row, username);
    Registry.PoolsWithoutRows(w.pools, username);
  }

  /** DeletePool, nothing failing, when the user's only row is the last one. */
  lemma DeleteNewest(f: ProviderFactory, w: World, ps: seq<Registry.PoolRow>, row: Registry.PoolRow,
                     username: string, env: Env)
    requires w.pools == ps + [row] && row.username == username && !Registry.HasUser(ps, username)
    requires PathExists(w, row.configPath) && row.configPath !in env.removeFails
    requires LookupPool !in env.dbFaults && DeleteRows !in env.dbFaults
    ensures DeleteOutcome(f, w, username, env).0 == None
    ensures DeleteOutcome(f, w, username, env).1.files == w.files - {row.configPath}
    ensures DeleteOutcome(f, w, username, env).1.pools == Registry.PoolsWithout(w.pools, username)
  {
    assert (ps + [row])[..|ps|] == ps;
    assert Registry.LatestPool(w.pools, username) == Some(row);
  }

  /** The pool listing: every row once, by username. */
  lemma ListingOrder(ps: seq<Registry.PoolRow>)
    ensures |SortBy(ps, Registry.PoolListLe)| == |ps|
    ensures forall i, j :: 0 <= i < j < |ps| ==>
      var r := SortBy(ps, Registry.PoolListLe);
      LexLess(PoolOf(r[i]).user, PoolOf(r[j]).user) || PoolOf(r[i]).user == PoolOf(r[j]).user
    ensures forall k :: 0 <= k < |ps| ==>
      exists i :: 0 <= i < |ps| && SortBy(ps, Registry.PoolListLe)[i] == ps[k]
  {
    Registry.PoolListing(ps);
    var r := SortBy(ps, Registry.PoolListLe);
    forall k | 0 <= k < |ps|
      ensures exists i :: 0 <= i < |ps| && r[i] == ps[k]
    {
      assert ps[k] in multiset(ps);
      assert ps[k] in r;
    }
  }
}
