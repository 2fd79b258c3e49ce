/** The driver entry point (driver/driver.go): turning a data source name into a connection. */
module Driver {
  import opened Wrappers
  import opened Text

  /** Druid's SQL endpoint, appended to the data source name. */
  const QueryPath: string := "/druid/v2/sql"

  /** The User-Agent header every request carries. */
  const UserAgent: string := "proullon/druid/1.0"

  /** What NewConn is given; the HTTP client it creates is not modelled. */
  datatype Conn = Conn(endpoint: string, userAgent: string)

  datatype OpenError = InvalidDsn  // "invalid dsn"

  /** Open: an empty dsn is refused; otherwise one trailing `/` is dropped and the path appended. */
  function Open(dsn: string): (r: Result<Conn, OpenError>)
    ensures r.Failure? <==> dsn == ""
    ensures r.Success? ==> r.value.userAgent == UserAgent && HasSuffix(r.value.endpoint, QueryPath)
    ensures r.Success? && dsn[|dsn| - 1] == '/' ==> r.value.endpoint == dsn[..|dsn| - 1] + QueryPath
    ensures r.Success? && dsn[|dsn| - 1] != '/' ==> r.value.endpoint == dsn + QueryPath
  {
    if dsn == "" then Failure(InvalidDsn)
    else Success(Conn(TrimSuffix(dsn, "/") + QueryPath, UserAgent))
  }

  /** A host with or without one trailing slash opens the same endpoint. */
  lemma OpenTrailingSlash(host: string)
    requires host != "" && host[|host| - 1] != '/'
    ensures Open(host + "/") == Open(host)
  {
    var dsn := host + "/";
    assert dsn[..|dsn| - 1] == host;
  }

  /** Only one slash is dropped: a double slash leaves one before the path. */
  lemma OpenDoubleSlash(host: string)
    ensures Open(host + "//").Success?
    ensures Open(host + "//").value.endpoint == host + "/" + QueryPath
  {
    var dsn := host + "//";
    assert dsn[..|dsn| - 1] == host + "/";
  }

  /** A lone slash opens the bare path. */
  lemma OpenSlash()
    ensures Open("/") == Success(Conn(QueryPath, UserAgent))
  {
    assert "/"[..0] == "";
  }
}
