/**
 * The prepared statement (driver/stmt.go): the request body sent to Druid, the
 * placeholder count reported to `database/sql`, and the checks Query makes before and
 * after the HTTP exchange.
 */
module Statement {
  import opened Wrappers
  import opened Values
  import opened Placeholders
  import opened ResultSet

  /** The JSON body posted to `/druid/v2/sql`. */
  datatype DruidQuery = DruidQuery(query: string, resultFormat: string, header: bool, typesHeader: bool)

  /** Druid is asked for the `array` format with a names row and a types row. */
  function NewQuery(q: string): (r: DruidQuery)
    ensures r.query == q && r.resultFormat == "array" && r.header && r.typesHeader
  {
    DruidQuery(q, "array", true, true)
  }

  /** The request Query builds. */
  datatype Request = Request(
    verb: string,
    endpoint: string,
    contentType: string,
    userAgent: string,
    body: DruidQuery)

  /** What reading the response body gave. */
  datatype Body = ReadFailed(reason: string) | Read(response: Response)

  /**
   * What happened to the request: `http.NewRequest` refused the endpoint, the client
   * failed, or the server answered with a status and a body.
   */
  datatype Exchange =
    | RequestRejected(reason: string)
    | TransportFailed(reason: string)
    | Answered(statusCode: int, status: string, body: Body)

  datatype QueryError =
    | EmptyStatement                   // "empty statement"
    | Fatal(panic: Panic)              // a recovered panic: "fatalf error: ..."
    | CannotPrepare(reason: string)    // "cannot prepare query (...)"
    | CannotQueryServer(reason: string) // "cannot query server (...)"
    | CannotQuery(status: string)      // "cannot query: <status>"
    | ReadError(reason: string)        // the error of io.ReadAll
    | ParseFailed(error: ParseError)   // the error of parseResponse

  datatype ExecError = NotImplemented  // "not implemented"

  /** A prepared statement. The HTTP client it holds is not modelled. */
  datatype Stmt = Stmt(endpoint: string, userAgent: string, query: string, numInput: nat) {

    /** The count stored at prepare time is the query's placeholder count. */
    ghost predicate Valid() {
      IsArgumentCount(query, numInput)
    }

    /** Reports how many ordinal placeholders `$1` .. `$n` the query holds. */
    function NumInput(): (n: int)
      requires Valid()
      ensures n >= 0 && IsArgumentCount(query, n)
    {
      numInput
    }

    function Close(): (err: Option<QueryError>)
      ensures err.None?
    {
      None
    }

    function Exec(args: seq<Value>): (r: Result<(), ExecError>)
      ensures r.Failure? && r.error == NotImplemented
    {
      Failure(NotImplemented)
    }

    /** The request Query builds once the statement is non-empty and translated. */
    function Outgoing(args: seq<Value>): (req: Option<Request>)
      ensures req.Some? <==> query != "" && Translate(query, args).Translated?
      ensures req.Some? ==>
        && req.value.verb == "POST"
        && req.value.endpoint == endpoint
        && req.value.contentType == "application/json"
        && req.value.userAgent == userAgent
        && req.value.body == NewQuery(Translate(query, args).text)
    {
      if query == "" then None
      else
        match Translate(query, args)
        case Panicked(_) => None
        case Translated(text) => Some(Request("POST", endpoint, "application/json", userAgent, NewQuery(text)))
    }

    /**
     * The request that goes out: the one Query builds, unless `http.NewRequest`
     * rejects it, in which case nothing is sent.
     */
    function Sent(args: seq<Value>, exchange: Exchange): (req: Option<Request>)
      ensures req.Some? <==> query != "" && Translate(query, args).Translated? && !exchange.RequestRejected?
      ensures req.Some? ==> req == Outgoing(args)
    {
      if exchange.RequestRejected? then None else Outgoing(args)
    }

    /** What Query returns: the parsed table, or the first error met on the way. */
    function QueryResult(args: seq<Value>, exchange: Exchange): (r: Result<Table, QueryError>)
      ensures r.Success? <==>
        && Outgoing(args).Some?
        && exchange.Answered? && exchange.statusCode == 200 && exchange.body.Read?
        && ParseTable(exchange.body.response).Success?
      ensures r.Success? ==> r.value == ParseTable(exchange.body.response).value
      ensures query == "" ==> r == Failure(EmptyStatement)
      ensures query != "" && Translate(query, args).Panicked? ==>
        r == Failure(Fatal(Translate(query, args).panic))
      ensures Outgoing(args).Some? && exchange.Answered? && exchange.statusCode != 200 ==>
        r == Failure(CannotQuery(exchange.status))
    {
      if query == "" then Failure(EmptyStatement)
      else
        match Translate(query, args)
        case Panicked(p) => Failure(Fatal(p))
        case Translated(_) =>
          match exchange
          case RequestRejected(reason) => Failure(CannotPrepare(reason))
          case TransportFailed(reason) => Failure(CannotQueryServer(reason))
          case Answered(statusCode, status, body) =>
            if statusCode != 200 then Failure(CannotQuery(status))
            else
              match body
              case ReadFailed(reason) => Failure(ReadError(reason))
              case Read(response) =>
                match ParseTable(response)
                case Success(table) => Success(table)
                case Failure(HeaderNotString(p)) => Failure(Fatal(ConversionPanic(p)))
                case Failure(e) => Failure(ParseFailed(e))
    }

    /**
     * Query: refuses an empty statement, translates the placeholders, sends the request
     * and parses the answer; a panic on the way is recovered as an error.
     */
    method Query(args: seq<Value>, exchange: Exchange) returns (sent: Option<Request>, rows: Rows?, err: Option<QueryError>)
      ensures sent == Sent(args, exchange)
      ensures QueryResult(args, exchange).Failure? ==> err == Some(QueryResult(args, exchange).error)
      ensures QueryResult(args, exchange).Success? ==>
        && err == None
        && rows != null && fresh(rows) && rows.Valid()
        && rows.State() == Cursor(QueryResult(args, exchange).value.columnNames, QueryResult(args, exchange).value.rows, 0)
    {
      if query == "" {
        return None, null, Some(EmptyStatement);
      }
      var finalQuery := ReplaceArguments(query, args);
      if finalQuery.Panicked? {
        return None, null, Some(Fatal(finalQuery.panic));
      }
      var data := NewQuery(finalQuery.text);
      sent := Some(Request("POST", endpoint, "application/json", userAgent, data));
      match exchange
      case RequestRejected(reason) =>
        return None, null, Some(CannotPrepare(reason));
      case TransportFailed(reason) =>
        return sent, null, Some(CannotQueryServer(reason));
      case Answered(statusCode, status, body) =>
        if statusCode != 200 {
          return sent, null, Some(CannotQuery(status));
        }
        match body
        case ReadFailed(reason) =>
          return sent, null, Some(ReadError(reason));
        case Read(response) =>
          var parsed, parseErr := ParseResponse(response);
          match parseErr
          case None =>
            rows, err := parsed, None;
          case Some(HeaderNotString(p)) =>
            rows, err := null, Some(Fatal(ConversionPanic(p)));
          case Some(e) =>
            rows, err := parsed, Some(ParseFailed(e));
    }
  }

  /** prepareStatement: records where and how to send the query and counts its placeholders. */
  method PrepareStatement(endpoint: string, userAgent: string, query: string) returns (s: Stmt)
    ensures s.endpoint == endpoint && s.userAgent == userAgent && s.query == query
    ensures s.Valid()
  {
    var numInput := CountArguments(query);
    s := Stmt(endpoint, userAgent, query, numInput);
  }

  /** Preparing a query twice reports the same count both times. */
  lemma NumInputDeterministic(s: Stmt, t: Stmt)
    requires s.Valid() && t.Valid() && s.query == t.query
    ensures s.NumInput() == t.NumInput()
  {
    ArgumentCountUnique(s.query, s.numInput, t.numInput);
  }

  /** An empty statement is refused before anything is translated or sent. */
  lemma EmptyStatementSendsNothing(s: Stmt, args: seq<Value>, exchange: Exchange)
    requires s.query == ""
    ensures s.Sent(args, exchange) == None && s.QueryResult(args, exchange) == Failure(EmptyStatement)
  {
  }
}
