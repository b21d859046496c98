# lightweight-php: a verified model of the pool and provider core

lightweight-php provisions per-user PHP-FPM pools on a Linux host. A pool is
three things:

- a configuration file rendered from a template;
- a socket path;
- a row in a SQLite registry.

Four interchangeable providers decide where those artifacts live: remi (with
the ondrej layout on Debian), LiteSpeed (`lsphp`), Alt-PHP and Docker. This
project models that core in Dafny and proves properties of the model. It
covers:

- **OS-family detection** (`os.dfy`, module `OS`). The three probe results
  (`/etc/redhat-release`, `/etc/debian_version` and the `lsb_release -is`
  output) are parameters. Detection is a priority cascade that defaults to
  RHEL.
- **Providers** (`providers.dfy`, module `Providers`). This is the closed set
  of four provider kinds, with:
  - the factory;
  - service names, socket paths and config paths per kind and OS family;
  - the minimum-version gate of `InstallPHP`, which compares by string, not by
    number;
  - the fixed list of available versions.
- **Installed-version discovery** (`discovery.dfy`, module `Discovery`). The
  registry is consulted first; otherwise probe output is parsed line by line.
  Round-trip lemmas show that the package names the installers build parse
  back to their "d.m" version.
- **The package manager** (`packagemanager.dfy`, module `PackageManagement`).
  It has the same gate, a registry-first listing that keeps rows of any
  package manager, and the fixed list.
- **The registry** (`registry.dfy`, module `Registry`). Class `Database` holds
  the `php_versions` and `pools` tables in insertion order. Its invariant
  `Valid()` states:
  - version uniqueness;
  - pool-key uniqueness;
  - the foreign key from pools to versions;
  - creation order.

  Each query is a method whose contract gives the new tables as a function of
  the old ones.
- **Pool configuration data** (`templates.dfy`, module `Templates`). This
  covers the defaults record, the embedded template lookup, and template
  execution as an opaque renderer.
- **The settings merge** (`settings.dfy`, module `PoolSettings`).
  `ApplyPoolSettings` is the loop over the settings map. It is proved equal to
  a field-by-field overlay, and lemmas about that overlay follow.
- **The manager's errors** (`poolerrors.dfy`, module `PoolErrors`). There is
  one error per failing step, and `Message` gives the text each error starts
  with.
- **The pool lifecycle manager** (`poolmanager.dfy`, module `PoolManagement`).
  Class `PoolManager` holds:
  - the file map and directory set;
  - an effect trace;
  - the registry;
  - the provider factory;
  - a `Host`: the OS user and group tables, the embedded template and the
    renderer.

  `CreatePool`, `DeletePool`, `UpdatePoolConfig`, `ListPools` and
  `reloadFPMService` work on that state step by step, in the source's order.
  Each one's contract is `(err, State()) == XOutcome(..., old(State()), ...)`,
  where `XOutcome` is a function over a `World` value. The lemmas about the
  outcome functions state:
  - which failure undoes which effect;
  - which rows and files exist afterwards;
  - what is attempted, in what order.

The environment's answers are given as an `Env` value: which directory
creations, writes, removals, reloads and restarts fail, and which registry
queries fail with an I/O error. The effect trace records every attempted
action in order.

Shared helpers are in separate files:

- `wrappers.dfy` has `Option` and `Result`.
- `gostrings.dfy` has `strings.Split`, `Fields`, `TrimSpace`, `ToLower`,
  `Contains`, `Index`, `filepath.Join` and `filepath.Dir`, and Go's byte-wise
  string `<` as `LexLess`.
- `ordering.dfy` has a stable insertion sort by a total preorder, which
  stands for SQL `ORDER BY`.

### Where the code and its own description differ (the model follows the code)

- `UpdatePoolConfig` rebuilds the configuration from `DefaultPoolConfigData`
  plus the given settings. It does not start from the pool's previous
  settings, so fields absent from the settings revert to their defaults
  (manager/pool.go:272).
- `CreatePool` applies no version check. Any version string is accepted and
  auto-registered.
- `DeletePool` removes the config file of the user's newest pool only, but
  deletes every pool row of the user.
- The pool key. The upsert targets `(username, php_version, provider)`, but
  the schema declares `UNIQUE(username, php_version)` and has no `provider`
  column. The model takes `(username, php_version, provider)` as the key of
  the `Database` invariant. See "## Findings".

## Model

| member | source | states |
|---|---|---|
| OS.Detect | system/os.go:22-49 | redhat-release present gives RHEL whatever the other probes say; otherwise debian_version gives Debian; the result is Debian exactly when there is no redhat marker and either debian_version or an lsb id naming a Debian-family distribution and no RHEL one |
| OS.DetectDefault | system/os.go:22-49 | with no marker file and no lsb output the family is RHEL (Detect never fails) |
| OS.DetectRhelNamesFirst | system/os.go:34-45 | an lsb id that names an RHEL distribution is RHEL even if it also names a Debian one (the RHEL names are checked first) |
| OS.DetectIgnoresCase | system/os.go:34-38 | lower-casing the lsb output does not change the decision |
| OS.DetectUbuntu | system/os.go:34-45 | "Ubuntu\n" from lsb_release, with no marker files, gives Debian |
| OS.FamilyNameInjective | system/os.go:22-49 | the stored family names "rhel" and "debian" tell the families apart |
| OS.Distro | system/os.go:34-36 | the compared id has no white space at either end and no upper-case ASCII letter, and is never longer than the output |
| OS.DistroIgnoresCase | system/os.go:34-36 | lower-casing the output before the trim and lower-casing gives the same id |
| Providers.ProviderNamesDistinct | provider/interface.go:28-35 | exactly four identifiers "remi", "lsphp", "alt-php", "docker", pairwise distinct, each parsed back to its own kind |
| Providers.ParseProviderType | provider/factory.go:32-46 | the switch on the provider string recognises exactly the four identifiers |
| Providers.GetProviderType | provider/remi.go:27-29 | a provider reports its own identifier |
| Providers.CreateProvider | provider/factory.go:32-46 | the four known types yield a provider of that kind, carrying the factory's registry and OS family, whose type is the requested string; any other string yields the "unknown provider type" error |
| Providers.GetDefaultProvider | provider/factory.go:48-50 | equals CreateProvider of "remi" |
| Providers.VersionNum | provider/remi.go:32-33 | the version with every dot removed |
| Providers.RemiRhelNames | provider/remi.go:31-53 | on RHEL: service "php"+digits+"-php-fpm", socket under /var/opt/remi/php<digits>/run/php-fpm, config under /etc/opt/remi/php<digits>/php-fpm.d |
| Providers.RemiDebianNames | provider/remi.go:31-53 | on Debian: service "php"+version+"-fpm", socket /var/run/php/php<v>-<user>.sock, config /etc/php/<v>/fpm/pool.d/<user>.conf |
| Providers.LiteSpeedNames | provider/litespeed.go:30-44 | service "lsws" for every version; socket /tmp/lsphp<digits>-<user>.sock; config /usr/local/lsws/conf/<user>-<version>.conf |
| Providers.AltPHPNames | provider/altphp.go:29-42 | service "alt-php"+digits+"-php-fpm"; socket /var/run/alt-php<digits>/<user>.sock; the config path keeps the literal "%s" of the directory |
| Providers.DockerNames | provider/docker.go:28-41 | dots kept: service "php-"+v+"-fpm", socket /var/run/docker/php-<v>-<user>.sock, config /etc/docker/php/<v>/<user>.conf |
| Providers.ConfigPathShape | provider/interface.go:20-24 | every config path is the provider's directory for the version, a slash, and a file name built from the user |
| Providers.ConfigPathDir | manager/pool.go:99-104 | the directory the pool manager creates for a config path is that provider directory |
| Providers.PathsSeparateUsers | provider/remi.go:39-53 | for one provider and version, two different users get different socket paths and different config paths |
| Providers.ConfigsSeparateUsers | provider/remi.go:47-53 | distinct users give distinct config paths |
| Providers.SocketsSeparateUsers | provider/remi.go:39-45 | distinct users give distinct socket paths |
| Providers.VersionGate | provider/remi.go:57-65 | fewer than two dot-separated parts is the format error; every refusal is one of the two messages |
| Providers.GateOneDigitMajor | provider/remi.go:57-65 | for one-digit majors the gate passes exactly when the major is above 7, or 7 with a minor starting at '4' or above |
| Providers.GateRefusesTen | provider/remi.go:61-63 | "10.0" is refused as below 7.4, because "10" < "7" as text |
| Providers.GateRefusesSevenTen | provider/remi.go:61-63 | "7.10" is refused |
| Providers.GateRefusesBare | provider/remi.go:57-60 | a version without a dot gets the format error |
| Providers.InstallPHP | provider/litespeed.go:46-65 | remi and LiteSpeed refuse exactly what the gate refuses, and otherwise go on to the family's installer with the version and its digits; Alt-PHP and Docker always refuse (provider/altphp.go:44-47, provider/docker.go:43-46) |
| Providers.ListAvailablePHP | provider/remi.go:418-446 | the five versions 8.3, 8.2, 8.1, 8.0, 7.4 for every provider and family |
| Providers.AvailableVersionsPassGate | provider/litespeed.go:204-214 | every available version passes the gate, and the list is strictly newest first |
| Discovery.VersionNumRoundTrip | provider/remi.go:32-33 | removing the dot of "d.m" and reading the digits back as first character + "." + rest give "d.m" again |
| Discovery.DottedVersionRoundTrip | provider/remi.go:359-366 | in the other direction, for the digit string of a package name |
| Discovery.ParseEtcPhpLine | provider/remi.go:400-409 | a kept `ls /etc/php` entry is non-empty, has no white space at either end and no blank inside; an entry without white space is kept exactly as it is |
| Discovery.ParseEmptyLine | provider/remi.go:353-356 | the empty piece after the last newline yields nothing |
| Discovery.ParseLines | provider/remi.go:349-372 | the loop over the output lines returns the versions the lines yield, in line order |
| Discovery.KeepAppend | provider/remi.go:349-372 | parsing is line by line: the versions of two chunks are the versions of each, concatenated |
| Discovery.KeepPointwise | provider/remi.go:349-372 | lines that each parse to a version yield exactly those versions |
| Discovery.ListingRoundTrip | provider/remi.go:349-372 | a newline-terminated listing of version lines yields exactly those versions |
| Discovery.FpmLineRoundTrip | provider/remi.go:118 | a dnf line for the package "php"+d+m+"-php-fpm" the installer asks for parses back to "d.m" |
| Discovery.LsphpRpmRoundTrip | provider/litespeed.go:71 | the name "lsphp"+d+m+"-common" the installer asks for parses back to "d.m" |
| Discovery.LsphpDpkgRoundTrip | provider/litespeed.go:173-195 | a dpkg line naming that package parses back to "d.m" |
| Discovery.EtcPhpRoundTrip | provider/remi.go:400-409 | the `ls /etc/php` listing of space-free version directories yields exactly those entries |
| Discovery.ActiveVersions | provider/remi.go:331-342 | the versions of the active rows (of the given package manager when one is given), in table order |
| Discovery.FilterActive | provider/remi.go:331-342 | the loop over the registry rows computes ActiveVersions |
| Discovery.ActiveVersionsMembers | provider/litespeed.go:128-139 | a version is listed exactly when some active row of that package manager has it |
| Discovery.ListInstalledPHP | provider/remi.go:329-416 | registry first (a failed listing counts as empty), then the family's probe parse; LiteSpeed at provider/litespeed.go:126-202, the stubs at provider/altphp.go:49-52 and provider/docker.go:48-52 |
| Discovery.StubsListNothing | provider/altphp.go:49-52 | Alt-PHP and Docker list no versions whatever is installed (also provider/docker.go:48-52) |
| Discovery.RegistryFirst | provider/remi.go:331-342 | with an active row of the provider's own package manager the listing is the registry's; without one it is the probe's |
| Discovery.RemiRhelProbeRoundTrip | provider/remi.go:349-372 | a dnf listing of the fpm packages of given one-digit-major versions lists exactly those versions, in order |
| Discovery.LiteSpeedRhelProbeRoundTrip | provider/litespeed.go:144-170 | an rpm listing of the common packages of given versions lists exactly those versions |
| Discovery.RemiDebianProbeRoundTrip | provider/remi.go:400-409 | the /etc/php listing of version directories lists exactly those directories |
| PackageManagement.NewPackageManager | manager/package.go:18-31 | the family is the detector's decision on the probes |
| PackageManagement.InstallPHP | manager/package.go:33-53 | refused exactly when the gate refuses, with the gate's message; otherwise the family's installer with the version and its digits |
| PackageManagement.InstallPHPAsRemi | manager/package.go:35-43 | the package manager's gate and installer step equal the remi provider's |
| PackageManagement.ListInstalledPHP | manager/package.go:318-409 | registry first, keeping every active row whatever its package manager, then the remi probe parse |
| PackageManagement.RegistryFirstAnyManager | manager/package.go:320-331 | with any active row the listing is exactly the active versions, of any package manager; with none it is the probe's |
| PackageManagement.AgreesWithRemi | manager/package.go:320-331 | when every active row was installed through remi, the package manager and the remi provider list the same versions |
| PackageManagement.ListAvailablePHP | manager/package.go:411-443 | the same five versions on both families, each passing the gate |
| Templates.DefaultPoolConfigData | templates/template.go:39-63 | pool name and user are the username, group and socket the arguments; 50/5/5/35/500 with min_spare <= start <= max_spare <= max_children; "0660", "dynamic", "off", "on", "128M", the sendmail path; error log /var/log/fpm-php.<user>.log; the five optional fields empty |
| Templates.DefaultsDependOnArguments | templates/template.go:39-63 | two users' defaults are equal exactly when their username, group and socket are |
| Templates.LoadTemplate | templates/template.go:81-92 | succeeds exactly for "pool.conf.tmpl", with the embedded text; any other name is "template <name> not found" |
| PoolSettings.OnOff | manager/pool.go:361-380 | booleans are written "on"/"off" |
| PoolSettings.FieldOf | manager/pool.go:318-399 | a key names a field exactly when it is one of the sixteen recognised keys |
| PoolSettings.FieldKeyBijection | manager/pool.go:318-399 | each recognised key names one field and each field one key |
| PoolSettings.ApplySetting | manager/pool.go:318-399 | an unrecognised key or a value of another type changes nothing; pool name, user, group, socket and error log are never touched |
| PoolSettings.OverlayUpdate | manager/pool.go:318-399 | merging one more key is one iteration of the loop |
| PoolSettings.ApplyPoolSettings | manager/pool.go:316-402 | the loop over the map, in any visiting order, returns the field-by-field overlay and never fails |
| PoolSettings.OverlayEmpty | manager/pool.go:316-402 | an empty settings object changes nothing |
| PoolSettings.OverlayIgnoresUnknown | manager/pool.go:318-399 | adding an unknown key changes nothing |
| PoolSettings.OverlayIgnoresOther | manager/pool.go:318-399 | adding a value of a type no key accepts changes nothing |
| PoolSettings.OverlayKeepsIdentity | manager/pool.go:316-402 | the identity fields are never changed by the merge |
| PoolSettings.OverlayIdempotent | manager/pool.go:316-402 | merging the same settings twice is merging them once |
| PoolSettings.ApplySettingCommutes | manager/pool.go:318-399 | two different keys can be applied in either order, so the map's visiting order does not matter |
| PoolSettings.DefaultsOverlay | manager/pool.go:272-275 | with no effective settings the update renders the defaults |
| PoolSettings.DisplayErrorsFlag | manager/pool.go:361-380 | display_errors / log_errors given as booleans become "on"/"off" |
| Registry.ResolveDBPath | db/database.go:20-23 | an empty path selects the default database file; any other path is used as given |
| Registry.DataSourceName | db/database.go:31 | the connection string is the resolved file path followed by "?_pragma=foreign_keys(1)" |
| Registry.SchemaAsWrittenRejectsUpsert | db/database.go:56-67 | the declared pools table has no provider column and no (username, php_version, provider) key, so neither the upsert of db/models.go:93-98 nor the pool SELECTs of db/models.go:108, 134 and 158 can be prepared |
| Registry.SchemaCorrectedAcceptsUpsert | db/models.go:91-102 | with the provider column and that key the upsert and the pool SELECTs prepare |
| Registry.PoolIndex | db/models.go:93-98 | finds the row with the conflict key, or reports that none has it |
| Registry.PoolsWithout | db/models.go:185-201 | the delete leaves no row of the user and never adds rows |
| Registry.LatestPool | db/models.go:104-128 | present exactly when the user has a row; a row of that user with the greatest creation stamp |
| Registry.VersionInsertValid | db/database.go:47-54 | appending a version row for a new version keeps uniqueness, the foreign keys and the stamps valid |
| Registry.PoolUpsertEffect | db/models.go:91-102 | on a key match only that row's socket path, config path and updated_at change; otherwise one active row is appended |
| Registry.PoolUpsertValid | db/database.go:56-67 | the upsert keeps key uniqueness, the foreign key to an existing version and creation order |
| Registry.PoolsWithoutRows | db/models.go:185-201 | the delete leaves exactly the other users' rows, in order; fewer rows when the user had one, the same table when not |
| Registry.PoolsWithoutSnoc | db/models.go:185-201 | a row of the user added last is deleted with the others |
| Registry.PoolsWithoutValid | db/models.go:185-201 | deleting keeps the table invariants |
| Registry.PoolsWithStatusEffect | db/models.go:203-209 | exactly the user's rows get the new status and stamp; all others are unchanged |
| Registry.PoolsWithStatusValid | db/models.go:203-209 | the status update keeps the table invariants |
| Registry.VersionListing | db/models.go:59-89 | the version listing holds every row exactly once, strictly descending by version text |
| Registry.PoolListing | db/models.go:156-183 | the pool listing holds every row exactly once, by username and, within one user, newest first |
| Registry.Database.constructor | db/database.go:20-67 | opens the resolved file with foreign keys on; the tables are the ones the file already holds (`CREATE TABLE IF NOT EXISTS` keeps them), and are empty with the counter at 0 for a new file |
| Registry.Database.CreatePHPVersion | db/models.go:29-35 | an I/O error, or a unique violation for a known version, changes nothing; otherwise one active row with the given package manager and family is appended |
| Registry.Database.FindVersion | db/models.go:37-57 | finds the row of that version exactly when there is one |
| Registry.Database.GetPHPVersion | db/models.go:37-57 | an error only on an I/O fault; absent with no error exactly when no row has the version |
| Registry.Database.ListPHPVersions | db/models.go:59-89 | on a fault an empty list and the error; otherwise the rows ordered by version, newest text first |
| Registry.Database.CreatePool | db/models.go:91-102 | an I/O fault, or a new key whose version has no row (the foreign key), is an error and changes nothing; otherwise the pools table becomes PoolUpsert of the old one |
| Registry.Database.GetPool | db/models.go:104-128 | absent with no error exactly when the user has no row; otherwise LatestPool, the user's newest row |
| Registry.Database.GetPoolByUsernameAndVersion | db/models.go:130-154 | absent with no error exactly when the user has no row of that version; otherwise such a row |
| Registry.Database.ListPools | db/models.go:156-183 | the rows ordered by username, then newest first; the I/O error on a fault |
| Registry.Database.DeletePool | db/models.go:185-201 | every row of the user goes; with none the error is ErrNoRows and nothing changes |
| Registry.Database.UpdatePoolStatus | db/models.go:203-209 | all of the user's rows get the status; succeeds even with no rows |
| PoolErrors.Message | manager/pool.go:66-313 | every error of a failing step starts with "failed to"; the unknown-user, exists and not-found errors name the user |
| PoolManagement.CreateRenderMessage | manager/pool.go:119-123 | CreatePool reports a render failure only after the user, provider, directory and exists checks passed, with the renderer's message, as "failed to generate pool config"; it never reports the update's render error |
| PoolManagement.UpdateRenderMessage | manager/pool.go:279-283 | UpdatePoolConfig reports a render failure for a user with a row, with the renderer's message over the defaults and settings, as "failed to render template"; it never reports the create's error |
| PoolManagement.FallbackType | manager/pool.go:190-203 | a known provider string stays as it is; any other falls back to remi |
| PoolManagement.ReloadAttempts | manager/pool.go:437-445 | `systemctl reload` first, then `reload-or-restart` only when the reload fails |
| PoolManagement.PoolTemplate | manager/pool.go:420-423 | the template is the embedded pool.conf.tmpl |
| PoolManagement.PoolManager.constructor | manager/pool.go:37-64 | the family is the detector's; the registry and host are the ones given; no action recorded |
| PoolManagement.PoolManager.MkdirAll | manager/pool.go:102-104 | succeeds exactly unless the environment refuses the directory; the new state is MkdirStep |
| PoolManagement.PoolManager.WriteFile | manager/pool.go:126-128 | succeeds exactly unless the environment refuses the path; the new content is the text |
| PoolManagement.PoolManager.Remove | manager/pool.go:157-161 | succeeds exactly unless the environment refuses; the path is gone afterwards |
| PoolManagement.PoolManager.ReloadFPMService | manager/pool.go:437-445 | fails exactly when both commands fail; records one or two attempts |
| PoolManagement.PoolManager.CreatePool | manager/pool.go:66-170 | error and new state are CreateOutcome of the old state, in the source's step order |
| PoolManagement.PoolManager.Commit | manager/pool.go:131-167 | the steps from the socket directory on are CommitOutcome |
| PoolManagement.PoolManager.Save | manager/pool.go:157-167 | the insert, the rollback on its failure, and the reload are SaveOutcome |
| PoolManagement.PoolManager.DeletePool | manager/pool.go:172-217 | error and new state are DeleteOutcome of the old state |
| PoolManagement.PoolManager.UpdatePoolConfig | manager/pool.go:240-314 | error and new state are UpdateOutcome of the old state, with the merge done by the ApplyPoolSettings loop |
| PoolManagement.PoolManager.ListPools | manager/pool.go:219-238 | a listing fault is an error; otherwise one Pool per registry row, in the registry's order |
| PoolManagement.CreateRejectsUnknown | manager/pool.go:68-86 | an unknown user or provider string is an error and nothing is created, written or recorded |
| PoolManagement.CreateKeepsExisting | manager/pool.go:99-109 | a file already at the config path gives the exists error; every file is unchanged, only the pool directory may be new, the tables are untouched |
| PoolManagement.CreateRollsBackOnlyOnInsert | manager/pool.go:126-161 | a failed pool insert removes the written file (unless removal fails) and adds no row; socket-directory, version-lookup and version-registration failures leave the written file in place |
| PoolManagement.CreateReachesCommit | manager/pool.go:102-128 | a create that ends without error, or with an error of a step from the socket directory on (socket directory, version lookup or registration, pool insert, reload), rendered, found no file, created the directory and wrote the file |
| PoolManagement.CreateCommits | manager/pool.go:131-167 | after such a create: the file holds the rendered text, the row is upserted, a missing version row was registered with the provider string and family name, the actions are in source order, and the reload error means both reload commands failed |
| PoolManagement.CreateLeavesRow | manager/pool.go:157-167 | a create that reaches the reload leaves the config file and a pool row with the key and paths, whether or not the reload failed |
| PoolManagement.CreateSucceedsCalmly | manager/pool.go:66-170 | for any version string, with no file at the path, a rendering template and nothing failing, the create returns no error: there is no version check |
| PoolManagement.DeleteMissing | manager/pool.go:174-180 | with no row the error is not-found and nothing changes |
| PoolManagement.DeleteOrder | manager/pool.go:183-214 | a failed file removal changes no row; success exactly when the file was absent or removable and the row delete works; then every row of the user is gone and the file too, and the row delete is the last action |
| PoolManagement.UpdateFromDefaults | manager/pool.go:272-288 | the file written is the settings merged over the defaults, not over the previous settings, and it is written before the reload |
| PoolManagement.UpdateLastWins | manager/pool.go:272-288 | after two updates the files are those the second alone writes |
| PoolManagement.UpdateWithoutSettingsRegenerates | manager/pool.go:404-435 | an update with no settings renders what the create rendered |
| PoolManagement.CreateThenDelete | manager/pool.go:66-217 | creating a user's first pool with nothing failing and then deleting it succeeds and restores the files and the pool rows |
| PoolManagement.DeleteNewest | manager/pool.go:172-217 | deleting when the user's only row is the last one removes it and its file |
| PoolManagement.ListingOrder | manager/pool.go:219-238 | the listing holds every row, ordered by username |

## Left out

- Package installation. `installPHPRHEL`, `installPHPDebian`, `ensureRemiRepo` and `installLSPHP*` run dnf, yum, apt-get, rpm, curl and systemctl. The model stops at the version gate with an `InstallStep` saying which installer would run.
- Command output. The dnf/yum, rpm, dpkg and `ls /etc/php` outputs are parameters (`Option<string>`; `None` when the command fails). dnf and yum output are parsed the same way, as the source does.
- Real I/O. Files, directories, `user.Lookup`, systemctl and SQLite become a file map, a directory set, a `Host` user and group table, and per-operation failure sets in `Env`. Error causes are not carried: every registry failure is `IoError`. `Message` gives the text of each error without the wrapped cause that Go appends after ": ".
- SQL text and SQLite query planning. Tables are sequences in insertion order, and `ORDER BY` is a stable sort.
- Time. `id`, `installed_at`, `created_at` and `updated_at` come from one insertion counter.
- Registry.LatestPool: with equal creation stamps SQLite's choice is unspecified. The model takes the earliest such row; stamps are unique under the invariant.
- The template text. `pool.conf.tmpl` is not part of this model. Template execution (`RenderPoolConfig`) is an opaque `Renderer` function value, given either the text or an error message.
- PoolSettings.ApplyPoolSettings: JSON numbers are modelled as integers. The `int(v)` truncation and the `%.0f` formatting of float64 values are not modelled.
- Go's `filepath.Join` and `filepath.Dir` cleaning of `.` and `..` elements and repeated slashes. `PathJoin` only joins the non-empty elements with "/". CreatePool checks no version, so a version or username holding `/`, `.` or `..` gives a path that differs from Go's. Remi on Debian with version "8.2/" gives "/etc/php/8.2//fpm/pool.d/alice.conf", where Go cleans this to the path for "8.2". Docker with version ".." keeps "/etc/docker/php/../alice.conf", where Go has "/etc/docker/alice.conf". On such inputs, the file map's exists check and PathsSeparateUsers, ConfigsSeparateUsers and SocketsSeparateUsers are about the uncleaned strings. Go may fail there with "already exists" where the model writes a second file.
- Strings are sequences of Unicode code points, not Go's byte strings. Lengths, indexes and slices count characters, not bytes. On non-ASCII command output the parsers' length checks therefore differ. For the dnf line "phpé-php-fpm", Go's `versionNum` is two bytes long and yields "\xc3.\xa9"; the model yields no version. Output that is not valid UTF-8 cannot be represented.
- `strings.ToLower` beyond ASCII.
- NewDatabase: failures of `sql.Open`, `os.MkdirAll` and schema creation are not modelled. The constructor always succeeds.
- Registry.Database.constructor: the stored tables are given as parameters instead of read from the file, and must satisfy the table invariant. That invariant covers unique versions and pool keys, the foreign key, stamps below the counter, and rows in creation order. A file written only through these queries satisfies it; a file edited by other means is not modelled.
- The provider factory's own database connection. Providers carry the same registry the pool manager uses.
- The failure branches of CreatePool's second `user.Lookup` and of generatePoolConfig's `user.LookupId`. The user table is constant, so a user found once is found again. A failing `user.LookupGroupId` is modelled as a gid missing from the group table, so the group falls back to the username.
- CreatePool's re-detection of the OS family. The manager's family, detected once, is used.
- The unused `fpmDir` field of NewPoolManager.
- MkdirAll records only the directory asked for, not its parents.
- The HTTP layer (api/router.go) and the CLI (cmd/, main.go): argument parsing and printing only.

## Findings

| source | as written | input that shows it | evidently intended | confidence | as-written member | corrected member |
|---|---|---|---|---|---|---|
| db/database.go:56-67 | the pools table has no `provider` column and its only key is `UNIQUE(username, php_version)`, yet the upsert at db/models.go:93-98 inserts `provider` and names `ON CONFLICT(username, php_version, provider)`. The SELECTs of GetPool, GetPoolByUsernameAndVersion and ListPools (db/models.go:108, 134, 158) also name `provider`. So DeletePool and UpdatePoolConfig would fail with "failed to get pool from database", and ListPools with "failed to list pools from database" | any `CreatePool("alice", "8.2", "remi", …)` on a fresh database prepares a statement naming a missing column and a conflict target that matches no unique index, which SQLite refuses | a `provider` column and `UNIQUE(username, php_version, provider)`, matching the upsert and the SELECTs | not executed | Registry.SchemaAsWrittenRejectsUpsert | Registry.SchemaCorrectedAcceptsUpsert |
