/** Pool configuration data, its defaults and the embedded template lookup
    (templates/template.go). Template execution is not interpreted: it is a
    function value of type `Renderer`. */
module Templates {
  import opened Wrappers

  /** The values the pool template is executed with, field for field. */
  datatype PoolConfigData = PoolConfigData(
    poolName: string,
    username: string,
    group: string,
    socketPath: string,
    listenMode: string,
    processManager: string,
    maxChildren: int,
    startServers: int,
    minSpareServers: int,
    maxSpareServers: int,
    maxRequests: int,
    processIdleTimeout: string,
    sendmailPath: string,
    displayErrors: string,
    errorLog: string,
    logErrors: string,
    memoryLimit: string,
    maxExecutionTime: string,
    uploadMaxFilesize: string,
    postMaxSize: string,
    dateTimezone: string)

  /** Template execution: the rendered text or an error message, never both,
      and a function of the template text and the data alone. */
  type Renderer = (string, PoolConfigData) -> Result<string, string>

  /** The process-manager bounds PHP-FPM expects of a dynamic pool. */
  predicate SpareBoundsOrdered(d: PoolConfigData) {
    0 < d.minSpareServers <= d.startServers <= d.maxSpareServers <= d.maxChildren
  }

  /** The per-user error log path. */
  function ErrorLogPath(username: string): string {
    "/var/log/fpm-php." + username + ".log"
  }

  function DefaultPoolConfigData(username: string, group: string, socketPath: string): (d: PoolConfigData)
    ensures d.poolName == username && d.username == username
    ensures d.group == group && d.socketPath == socketPath
    ensures d.maxChildren == 50 && d.startServers == 5 && d.minSpareServers == 5
    ensures d.maxSpareServers == 35 && d.maxRequests == 500
    ensures SpareBoundsOrdered(d)
    ensures d.listenMode == "0660" && d.processManager == "dynamic"
    ensures d.displayErrors == "off" && d.logErrors == "on" && d.memoryLimit == "128M"
    ensures d.sendmailPath == "/usr/sbin/sendmail -t -i -f www@my.domain.com"
    ensures d.errorLog == ErrorLogPath(username)
    ensures d.processIdleTimeout == "" && d.maxExecutionTime == "" && d.uploadMaxFilesize == ""
    ensures d.postMaxSize == "" && d.dateTimezone == ""
  {
    PoolConfigData(
      poolName := username,
      username := username,
      group := group,
      socketPath := socketPath,
      listenMode := "0660",
      processManager := "dynamic",
      maxChildren := 50,
      startServers := 5,
      minSpareServers := 5,
      maxSpareServers := 35,
      maxRequests := 500,
      processIdleTimeout := "",
      sendmailPath := "/usr/sbin/sendmail -t -i -f www@my.domain.com",
      displayErrors := "off",
      errorLog := ErrorLogPath(username),
      logErrors := "on",
      memoryLimit := "128M",
      maxExecutionTime := "",
      uploadMaxFilesize := "",
      postMaxSize := "",
      dateTimezone := "")
  }

  /** The defaults of two users differ exactly in the user-specific fields. */
  lemma DefaultsDependOnArguments(u1: string, g1: string, s1: string, u2: string, g2: string, s2: string)
    ensures DefaultPoolConfigData(u1, g1, s1) == DefaultPoolConfigData(u2, g2, s2)
        <==> u1 == u2 && g1 == g2 && s1 == s2
  {
  }

  const PoolTemplateName: string := "pool.conf.tmpl"

  /** The embedded template set holds exactly one template, named
      "pool.conf.tmpl"; `embedded` is its text. */
  function LoadTemplate(name: string, embedded: string): (r: Result<string, string>)
    ensures r.Ok? <==> name == PoolTemplateName
    ensures r.Ok? ==> r.value == embedded
    ensures r.Err? ==> r.error == "template " + name + " not found"
  {
    var templates := map[PoolTemplateName := embedded];
    if name in templates then Ok(templates[name]) else Err("template " + name + " not found")
  }
}
