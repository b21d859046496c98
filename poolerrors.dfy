/** The errors of the pool lifecycle manager (manager/pool.go) and the text
    each one starts with. */
module PoolErrors {
  import opened GoStrings

  /** The errors the operations return, one per failing step. */
  datatype PoolError =
    | NoSuchUser(username: string)
    | InvalidProvider(providerType: string)
    | PoolDirFailed
    | PoolExists(username: string, phpVersion: string, providerType: string)
    | RenderFailed(message: string)
    | RenderTemplateFailed(message: string)
    | WriteFailed
    | SocketDirFailed
    | VersionLookupFailed
    | VersionRegisterFailed
    | PoolSaveFailed
    | ReloadFailed
    | PoolLookupFailed
    | PoolNotFound(username: string)
    | UserLookupFailed
    | RemoveFailed
    | PoolDeleteFailed
    | PoolListFailed

  /** The text each error starts with: the whole message for the errors that
      wrap nothing, the part before the wrapped error otherwise. The errors of
      a failing step all start with "failed to"; those about a user name it. */
  function Message(e: PoolError): (r: string)
    ensures e.NoSuchUser? || e.InvalidProvider? || e.PoolExists? || e.PoolNotFound? || "failed to " <= r
    ensures (e.NoSuchUser? || e.PoolExists? || e.PoolNotFound?) ==> Contains(r, e.username)
  {
    if e.NoSuchUser? then
      ContainsMiddle("user ", e.username, " does not exist");
      "user " + e.username + " does not exist"
    else if e.InvalidProvider? then
      "invalid provider type: " + e.providerType + ". Supported: remi, lsphp, alt-php, docker"
    else if e.PoolExists? then
      var tail := " with PHP " + e.phpVersion + " and provider " + e.providerType + " already exists";
      ContainsMiddle("pool for user ", e.username, tail);
      "pool for user " + e.username + tail
    else if e.PoolNotFound? then
      ContainsMiddle("pool for user ", e.username, " not found");
      "pool for user " + e.username + " not found"
    else
      "failed to " + StepAction(e)
  }

  /** What a failed step was doing: its error text after "failed to ". */
  function StepAction(e: PoolError): string
    requires !(e.NoSuchUser? || e.InvalidProvider? || e.PoolExists? || e.PoolNotFound?)
  {
    match e
    case PoolDirFailed => "create pool directory"
    case RenderFailed(_) => "generate pool config"
    case RenderTemplateFailed(_) => "render template"
    case WriteFailed => "write pool config"
    case SocketDirFailed => "create socket directory"
    case VersionLookupFailed => "check PHP version"
    case VersionRegisterFailed => "register PHP version"
    case PoolSaveFailed => "save pool to database"
    case ReloadFailed => "reload PHP-FPM"
    case PoolLookupFailed => "get pool from database"
    case UserLookupFailed => "lookup user"
    case RemoveFailed => "remove pool file"
    case PoolDeleteFailed => "delete pool from database"
    case PoolListFailed => "list pools from database"
  }

  /** How a failed render of CreatePool reads. */
  lemma GenerateFailedMessage(m: string)
    ensures Message(RenderFailed(m)) == "failed to generate pool config"
  {
  }

  /** How a failed render of UpdatePoolConfig reads. */
  lemma RenderTemplateMessage(m: string)
    ensures Message(RenderTemplateFailed(m)) == "failed to render template"
  {
  }
}
