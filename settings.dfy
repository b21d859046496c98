/** The settings merge of the pool manager (applyPoolSettings in
    manager/pool.go): a JSON object decoded into a map whose recognised keys
    overwrite one typed field of the pool data each. */
module PoolSettings {
  import opened Wrappers
  import opened GoStrings
  import opened Templates

  /** A decoded JSON value as the merge tells them apart. JSON numbers are
      modelled as integers; `Other` is null, an array or an object. */
  datatype SettingValue = Number(n: int) | Text(s: string) | Flag(b: bool) | Other

  type Settings = map<string, SettingValue>

  /** The keys the merge acts on. */
  const RecognisedKeys: set<string> := {
    "max_children", "start_servers", "min_spare_servers", "max_spare_servers",
    "max_requests", "process_manager", "memory_limit", "max_execution_time",
    "upload_max_filesize", "post_max_size", "display_errors", "log_errors",
    "date_timezone", "sendmail_path", "process_idle_timeout", "listen_mode"}

  /** "on" / "off" for a boolean switch. */
  function OnOff(b: bool): (s: string)
    ensures s == "on" <==> b
    ensures s in {"on", "off"}
  {
    if b then "on" else "off"
  }

  /** The sixteen fields of the pool data a setting can overwrite. */
  datatype Field =
    | MaxChildren | StartServers | MinSpareServers | MaxSpareServers | MaxRequests
    | ProcessManager | MemoryLimit | MaxExecutionTime | UploadMaxFilesize | PostMaxSize
    | DisplayErrors | LogErrors | DateTimezone | SendmailPath | ProcessIdleTimeout | ListenMode

  /** The merge's switch on the key: the field a key names, if any. */
  function FieldOf(key: string): (f: Option<Field>)
    ensures f.Some? <==> key in RecognisedKeys
  {
    match key
    case "max_children" => Some(MaxChildren)
    case "start_servers" => Some(StartServers)
    case "min_spare_servers" => Some(MinSpareServers)
    case "max_spare_servers" => Some(MaxSpareServers)
    case "max_requests" => Some(MaxRequests)
    case "process_manager" => Some(ProcessManager)
    case "memory_limit" => Some(MemoryLimit)
    case "max_execution_time" => Some(MaxExecutionTime)
    case "upload_max_filesize" => Some(UploadMaxFilesize)
    case "post_max_size" => Some(PostMaxSize)
    case "display_errors" => Some(DisplayErrors)
    case "log_errors" => Some(LogErrors)
    case "date_timezone" => Some(DateTimezone)
    case "sendmail_path" => Some(SendmailPath)
    case "process_idle_timeout" => Some(ProcessIdleTimeout)
    case "listen_mode" => Some(ListenMode)
    case _ => None
  }

  /** The key that names a field. */
  function KeyOf(f: Field): string {
    match f
    case MaxChildren => "max_children"
    case StartServers => "start_servers"
    case MinSpareServers => "min_spare_servers"
    case MaxSpareServers => "max_spare_servers"
    case MaxRequests => "max_requests"
    case ProcessManager => "process_manager"
    case MemoryLimit => "memory_limit"
    case MaxExecutionTime => "max_execution_time"
    case UploadMaxFilesize => "upload_max_filesize"
    case PostMaxSize => "post_max_size"
    case DisplayErrors => "display_errors"
    case LogErrors => "log_errors"
    case DateTimezone => "date_timezone"
    case SendmailPath => "sendmail_path"
    case ProcessIdleTimeout => "process_idle_timeout"
    case ListenMode => "listen_mode"
  }

  /** Each recognised key names exactly one field and each field one key. */
  lemma FieldKeyBijection(key: string, f: Field)
    ensures FieldOf(KeyOf(f)) == Some(f)
    ensures FieldOf(key) == Some(f) <==> key == KeyOf(f)
  {
  }

  /** One field overwritten from a value of a type it accepts: integers for
      the process counts, strings everywhere else, decimal text for a number
      on the two time fields, and on / off for a boolean on the two error
      switches. */
  function ApplyField(d: PoolConfigData, f: Field, v: SettingValue): PoolConfigData {
    match f
    case MaxChildren => if v.Number? then d.(maxChildren := v.n) else d
    case StartServers => if v.Number? then d.(startServers := v.n) else d
    case MinSpareServers => if v.Number? then d.(minSpareServers := v.n) else d
    case MaxSpareServers => if v.Number? then d.(maxSpareServers := v.n) else d
    case MaxRequests => if v.Number? then d.(maxRequests := v.n) else d
    case ProcessManager => if v.Text? then d.(processManager := v.s) else d
    case MemoryLimit => if v.Text? then d.(memoryLimit := v.s) else d
    case MaxExecutionTime =>
      if v.Text? then d.(maxExecutionTime := v.s)
      else if v.Number? then d.(maxExecutionTime := IntToDecimal(v.n))
      else d
    case UploadMaxFilesize => if v.Text? then d.(uploadMaxFilesize := v.s) else d
    case PostMaxSize => if v.Text? then d.(postMaxSize := v.s) else d
    case DisplayErrors =>
      if v.Text? then d.(displayErrors := v.s)
      else if v.Flag? then d.(displayErrors := OnOff(v.b))
      else d
    case LogErrors =>
      if v.Text? then d.(logErrors := v.s)
      else if v.Flag? then d.(logErrors := OnOff(v.b))
      else d
    case DateTimezone => if v.Text? then d.(dateTimezone := v.s) else d
    case SendmailPath => if v.Text? then d.(sendmailPath := v.s) else d
    case ProcessIdleTimeout =>
      if v.Text? then d.(processIdleTimeout := v.s)
      else if v.Number? then d.(processIdleTimeout := IntToDecimal(v.n))
      else d
    case ListenMode => if v.Text? then d.(listenMode := v.s) else d
  }

  /** The effect of one key on the pool data, as one iteration of the merge
      loop: only the field named by a recognised key, and only when the value
      has a type that key accepts. */
  function ApplySetting(d: PoolConfigData, key: string, v: SettingValue): (r: PoolConfigData)
    ensures key !in RecognisedKeys ==> r == d
    ensures v.Other? ==> r == d
    ensures r.poolName == d.poolName && r.username == d.username && r.group == d.group
    ensures r.socketPath == d.socketPath && r.errorLog == d.errorLog
  {
    match FieldOf(key)
    case None => d
    case Some(f) => ApplyField(d, f, v)
  }

  // Field-wise reading of a settings map: the value a field ends with.

  function Lookup(m: Settings, f: Field): Option<SettingValue> {
    if KeyOf(f) in m then Some(m[KeyOf(f)]) else None
  }

  function NumberOr(v: Option<SettingValue>, dflt: int): int {
    if v.Some? && v.value.Number? then v.value.n else dflt
  }

  function TextOr(v: Option<SettingValue>, dflt: string): string {
    if v.Some? && v.value.Text? then v.value.s else dflt
  }

  /** A string field that also takes a number, printed in decimal. */
  function TextOrNumberOr(v: Option<SettingValue>, dflt: string): string {
    if v.Some? && v.value.Text? then v.value.s
    else if v.Some? && v.value.Number? then IntToDecimal(v.value.n)
    else dflt
  }

  /** A string field that also takes a boolean, printed as on or off. */
  function TextOrFlagOr(v: Option<SettingValue>, dflt: string): string {
    if v.Some? && v.value.Text? then v.value.s
    else if v.Some? && v.value.Flag? then OnOff(v.value.b)
    else dflt
  }

  /** The pool data after the whole settings map is merged in, stated field by
      field and independently of any iteration order. */
  function Overlay(d: PoolConfigData, m: Settings): PoolConfigData {
    d.(
      listenMode := TextOr(Lookup(m, ListenMode), d.listenMode),
      processManager := TextOr(Lookup(m, ProcessManager), d.processManager),
      maxChildren := NumberOr(Lookup(m, MaxChildren), d.maxChildren),
      startServers := NumberOr(Lookup(m, StartServers), d.startServers),
      minSpareServers := NumberOr(Lookup(m, MinSpareServers), d.minSpareServers),
      maxSpareServers := NumberOr(Lookup(m, MaxSpareServers), d.maxSpareServers),
      maxRequests := NumberOr(Lookup(m, MaxRequests), d.maxRequests),
      processIdleTimeout := TextOrNumberOr(Lookup(m, ProcessIdleTimeout), d.processIdleTimeout),
      sendmailPath := TextOr(Lookup(m, SendmailPath), d.sendmailPath),
      displayErrors := TextOrFlagOr(Lookup(m, DisplayErrors), d.displayErrors),
      logErrors := TextOrFlagOr(Lookup(m, LogErrors), d.logErrors),
      memoryLimit := TextOr(Lookup(m, MemoryLimit), d.memoryLimit),
      maxExecutionTime := TextOrNumberOr(Lookup(m, MaxExecutionTime), d.maxExecutionTime),
      uploadMaxFilesize := TextOr(Lookup(m, UploadMaxFilesize), d.uploadMaxFilesize),
      postMaxSize := TextOr(Lookup(m, PostMaxSize), d.postMaxSize),
      dateTimezone := TextOr(Lookup(m, DateTimezone), d.dateTimezone))
  }

  /** Setting the key of a field changes the lookup of that field only. */
  lemma LookupAt(m: Settings, f: Field, v: SettingValue)
    ensures forall g :: Lookup(m[KeyOf(f) := v], g) == (if g == f then Some(v) else Lookup(m, g))
  {
    forall g
      ensures Lookup(m[KeyOf(f) := v], g) == (if g == f then Some(v) else Lookup(m, g))
    {
      FieldKeyBijection(KeyOf(g), f);
      FieldKeyBijection(KeyOf(f), g);
    }
  }

  /** Merging one more key into a map that lacks it is one loop iteration. */
  lemma OverlayUpdate(d: PoolConfigData, m: Settings, key: string, v: SettingValue)
    requires key !in m
    ensures Overlay(d, m[key := v]) == ApplySetting(Overlay(d, m), key, v)
  {
    match FieldOf(key)
    case None =>
      LookupUnknown(m, key, v);
    case Some(f) =>
      FieldKeyBijection(key, f);
      OverlayUpdateField(d, m, f, v);
  }

  /** Setting a field's key, absent before, applies that field's update. */
  lemma OverlayUpdateField(d: PoolConfigData, m: Settings, f: Field, v: SettingValue)
    requires KeyOf(f) !in m
    ensures Overlay(d, m[KeyOf(f) := v]) == ApplyField(Overlay(d, m), f, v)
  {
    LookupAt(m, f, v);
    if f in CountFields {
      OverlayUpdateCount(d, m, f, v);
    } else if f in MixedFields {
      OverlayUpdateMixed(d, m, f, v);
    } else {
      OverlayUpdateText(d, m, f, v);
    }
  }

  const CountFields: set<Field> := {MaxChildren, StartServers, MinSpareServers, MaxSpareServers, MaxRequests}
  const MixedFields: set<Field> := {MaxExecutionTime, ProcessIdleTimeout, DisplayErrors, LogErrors}

  /** OverlayUpdateField for a process count. */
  lemma OverlayUpdateCount(d: PoolConfigData, m: Settings, f: Field, v: SettingValue)
    requires KeyOf(f) !in m && f in CountFields
    requires forall g :: Lookup(m[KeyOf(f) := v], g) == (if g == f then Some(v) else Lookup(m, g))
    ensures Overlay(d, m[KeyOf(f) := v]) == ApplyField(Overlay(d, m), f, v)
  {
    match f
    case MaxChildren =>
    case StartServers =>
    case MinSpareServers =>
    case MaxSpareServers =>
    case MaxRequests =>
  }

  /** OverlayUpdateField for a field that takes a number or a boolean besides text. */
  lemma OverlayUpdateMixed(d: PoolConfigData, m: Settings, f: Field, v: SettingValue)
    requires KeyOf(f) !in m && f in MixedFields
    requires forall g :: Lookup(m[KeyOf(f) := v], g) == (if g == f then Some(v) else Lookup(m, g))
    ensures Overlay(d, m[KeyOf(f) := v]) == ApplyField(Overlay(d, m), f, v)
  {
    match f
    case MaxExecutionTime =>
    case ProcessIdleTimeout =>
    case DisplayErrors =>
    case LogErrors =>
  }

  /** OverlayUpdateField for a field that takes text only. */
  lemma OverlayUpdateText(d: PoolConfigData, m: Settings, f: Field, v: SettingValue)
    requires KeyOf(f) !in m && f !in CountFields && f !in MixedFields
    requires forall g :: Lookup(m[KeyOf(f) := v], g) == (if g == f then Some(v) else Lookup(m, g))
    ensures Overlay(d, m[KeyOf(f) := v]) == ApplyField(Overlay(d, m), f, v)
  {
    match f
    case ProcessManager =>
    case MemoryLimit =>
    case UploadMaxFilesize =>
    case PostMaxSize =>
    case DateTimezone =>
    case SendmailPath =>
    case ListenMode =>
  }

  /** applyPoolSettings: visits the keys in an arbitrary order (Go's map
      order) and applies each; the result is the field-wise overlay whatever
      the order. It never fails. */
  method ApplyPoolSettings(data: PoolConfigData, settings: Settings) returns (r: PoolConfigData)
    ensures r == Overlay(data, settings)
  {
    r := data;
    var todo := settings.Keys;
    ghost var visited: Settings := map[];
    OverlayEmpty(data);
    VisitStart(settings);
    while todo != {}
      invariant Visiting(settings, visited, todo)
      invariant r == Overlay(data, visited)
      decreases |todo|
    {
      var key :| key in todo;
      VisitStep(settings, visited, todo, key);
      r := MergeKey(data, visited, r, key, settings[key]);
      visited := visited[key := settings[key]];
      todo := todo - {key};
    }
    VisitEnd(settings, visited, todo);
  }

  /** The merge loop's bookkeeping: the keys still to visit are those not
      yet visited, and what was visited is a part of the settings. */
  ghost predicate Visiting(settings: Settings, visited: Settings, todo: set<string>) {
    && todo == settings.Keys - visited.Keys
    && forall k :: k in visited ==> k in settings && visited[k] == settings[k]
  }

  lemma VisitStart(settings: Settings)
    ensures Visiting(settings, map[], settings.Keys)
  {
  }

  lemma VisitStep(settings: Settings, visited: Settings, todo: set<string>, key: string)
    requires Visiting(settings, visited, todo) && key in todo
    ensures key in settings && key !in visited
    ensures Visiting(settings, visited[key := settings[key]], todo - {key})
    ensures |todo - {key}| < |todo|
  {
  }

  lemma VisitEnd(settings: Settings, visited: Settings, todo: set<string>)
    requires Visiting(settings, visited, todo) && todo == {}
    ensures visited == settings
  {
    forall k | k in settings ensures k in visited {
      assert k !in settings.Keys - visited.Keys;
    }
    assert visited.Keys == settings.Keys;
  }

  /** One iteration of the merge: the next key's value over what the keys
      visited so far gave. */
  method MergeKey(ghost data: PoolConfigData, ghost visited: Settings, d: PoolConfigData, key: string, v: SettingValue)
    returns (r: PoolConfigData)
    requires key !in visited && d == Overlay(data, visited)
    ensures r == Overlay(data, visited[key := v])
  {
    OverlayUpdate(data, visited, key, v);
    r := ApplySetting(d, key, v);
  }

  /** An empty settings object leaves the data as it was. */
  lemma OverlayEmpty(d: PoolConfigData)
    ensures Overlay(d, map[]) == d
  {
  }

  /** A key the merge does not know, whatever its value, changes nothing. */
  lemma OverlayIgnoresUnknown(d: PoolConfigData, m: Settings, key: string, v: SettingValue)
    requires key !in RecognisedKeys
    ensures Overlay(d, m[key := v]) == Overlay(d, m)
  {
    LookupUnknown(m, key, v);
  }

  /** A key that names no field leaves every field's lookup as it was. */
  lemma LookupUnknown(m: Settings, key: string, v: SettingValue)
    requires FieldOf(key).None?
    ensures forall f :: Lookup(m[key := v], f) == Lookup(m, f)
  {
    forall f
      ensures Lookup(m[key := v], f) == Lookup(m, f)
    {
      FieldKeyBijection(key, f);
    }
  }

  /** A value of a type no key accepts changes nothing. */
  lemma OverlayIgnoresOther(d: PoolConfigData, m: Settings, key: string)
    requires key !in m
    ensures Overlay(d, m[key := Other]) == Overlay(d, m)
  {
    OverlayUpdate(d, m, key, Other);
  }

  /** The identity fields of a pool are never touched by the merge. */
  lemma OverlayKeepsIdentity(d: PoolConfigData, m: Settings)
    ensures Overlay(d, m).poolName == d.poolName && Overlay(d, m).username == d.username
    ensures Overlay(d, m).group == d.group && Overlay(d, m).socketPath == d.socketPath
    ensures Overlay(d, m).errorLog == d.errorLog
  {
  }

  /** Merging the same settings twice is merging them once. */
  lemma OverlayIdempotent(d: PoolConfigData, m: Settings)
    ensures Overlay(Overlay(d, m), m) == Overlay(d, m)
  {
  }

  /** Two different keys can be applied in either order: the reason the
      merge's outcome does not depend on Go's map iteration order. */
  lemma ApplySettingCommutes(d: PoolConfigData, k1: string, v1: SettingValue, k2: string, v2: SettingValue)
    requires k1 != k2
    ensures ApplySetting(ApplySetting(d, k1, v1), k2, v2) == ApplySetting(ApplySetting(d, k2, v2), k1, v1)
  {
    var m: Settings := map[];
    OverlayEmpty(d);
    OverlayUpdate(d, m, k1, v1);
    OverlayUpdate(d, m[k1 := v1], k2, v2);
    OverlayUpdate(d, m, k2, v2);
    OverlayUpdate(d, m[k2 := v2], k1, v1);
    assert m[k1 := v1][k2 := v2] == m[k2 := v2][k1 := v1];
  }

  /** The merge over the defaults, as the pool manager's update uses it: every
      field the settings do not set takes its default value. */
  lemma DefaultsOverlay(username: string, group: string, socketPath: string, m: Settings)
    requires forall k :: k in m ==> k !in RecognisedKeys || m[k].Other?
    ensures Overlay(DefaultPoolConfigData(username, group, socketPath), m)
         == DefaultPoolConfigData(username, group, socketPath)
  {
  }

  /** Boolean switches are written as "on" / "off". */
  lemma DisplayErrorsFlag(d: PoolConfigData, m: Settings, b: bool)
    ensures Overlay(d, m["display_errors" := Flag(b)]).displayErrors == (if b then "on" else "off")
    ensures Overlay(d, m["log_errors" := Flag(b)]).logErrors == (if b then "on" else "off")
  {
    assert Lookup(m["display_errors" := Flag(b)], DisplayErrors) == Some(Flag(b));
    assert Lookup(m["log_errors" := Flag(b)], LogErrors) == Some(Flag(b));
  }
}
