# A Dafny model of the proullon/druid SQL driver

The driver plugs Apache Druid into Go's `database/sql`. `Open` turns a data
source name into the URL of Druid's SQL endpoint. A prepared statement counts its
ordinal placeholders (`$1`, `$2`, ...). `Query` does three things:

- it substitutes the arguments into the query text, in one of two modes;
- it posts the query to Druid in the `array` result format;
- it turns the decoded JSON answer into a cursor that `database/sql` drives through `Next`.

The project models that core and proves what it does:

- `text.dfy` (module `Text`): the parts of `strings` and `strconv` the driver uses. These are `Count`, `HasSuffix`, `TrimSuffix`, `Split`, `Atoi`, and `%d` printing of integers.
- `values.dfy` (module `Values`): the dynamic `driver.Value` / `interface{}` cells as a tagged union, with their `%v` rendering `Render` (driver/stmt.go:232 and 252). `Render` has no contract of its own. What it produces is stated where it is used: `OrdinalValues`, `ReplaceAnonymous`, `AnonymousNilIsPrinted` and `QuotedQueryLeavesStringsBare`.
- `placeholders.dfy` (module `Placeholders`): `countArguments` and `replaceArguments` in both modes.
  - Anonymous mode (`replaceArgumentsODBC`) replaces each `?` in turn.
  - Ordinal mode rewrites every match of the pattern `[^\$]\$[0-9]+`.
  - Each is a method with loops, proved equal to a specification function. The ordinal rewrite is also proved equal to an independent one-pass definition.
- `rows.dfy` (module `ResultSet`): `parseResponse` and the `Rows` cursor.
  - `Rows` is a class whose methods update `currentRow` and the column names in place.
  - `Next` writes into the caller's `array`.
  - The cursor's behaviour is also given as a state machine on values (`Step`). Lemmas about whole sequences of calls are proved over it.
- `statement.dfy` (module `Statement`): the request body, `prepareStatement`, `NumInput`, `Close`, `Exec`, and `Query`.
  - The HTTP exchange is a parameter of `Query`.
  - Panics raised during translation or parsing come back as errors, as the `recover` in `Query` makes them.
- `driver.dfy` (module `Driver`): `Open`.

Some behaviours of the code worth knowing:

- Ordinal mode wraps every non-nil argument in `$$`, numbers included.
- Anonymous mode prints nil as `<nil>`.
- Whether strings are left bare depends only on whether the whole query ends in `'`.
- Only row 0 of the response is taken as the header. The types row that Druid sends because `typesHeader` is set therefore becomes the first data row (`ResultSet.TypesRowIsFirstRow`).

## Model

| member | source | states |
|---|---|---|
| Placeholders.CountArguments | driver/stmt.go:52-61 | returns n such that `$1`..`$n` all occur in the query and `$(n+1)` does not |
| Placeholders.MarkerBound | driver/stmt.go:53-58 | a `$k` that occurs is below 10^len(query), so the counting loop stops |
| Placeholders.ArgumentCountUnique | driver/stmt.go:52-61 | at most one number satisfies the count's definition |
| Placeholders.FindMarkers | driver/stmt.go:210-217 | the matches found are complete matches of `[^\$]\$[0-9]+` (non-`$` character, `$`, maximal digit run), left to right and non-overlapping |
| Placeholders.FindMarkersComplete | driver/stmt.go:210-217 | every place the pattern could start is found, except the last digit of a found match directly followed by `$` (as in `$1$2`) |
| Placeholders.ParseIndexIsAtoi | driver/stmt.go:220-222 | the index is `Atoi` of the byte slice after the match's first character minus its first byte: the digits after an ASCII predecessor; after a multi-byte one, a continuation byte or the `$` comes before the digits, so `Atoi` fails |
| Placeholders.SpliceIsRewrite | driver/stmt.go:217-241 | finding all matches and then splicing equals a one-pass left-to-right rewrite that keeps each match's first character and replaces its `$N` |
| Placeholders.OrdinalIsRewrite | driver/stmt.go:217-243 | the ordinal translation: zero matches panic on `allloc[-1]` (index -1, length 0); otherwise it is the one-pass rewrite, where an unreadable index returns the query unchanged and an index outside 1..len(args) panics with index N-1 |
| Placeholders.OrdinalValues | driver/stmt.go:228-233 | argument N becomes `null` when nil and `$$`+`%v`+`$$` otherwise |
| Placeholders.ReplaceOrdinal | driver/stmt.go:217-243 | the loop over the matches computes exactly the ordinal translation (`Ordinal`) |
| Placeholders.SpliceFromIsSplice | driver/stmt.go:219-239 | splicing from match i by position equals splicing the remaining matches |
| Placeholders.InterleaveSplitIsFill | driver/stmt.go:249-259 | `parts[0] + v0 + parts[1] + ...` over `Split(q, "?")` replaces each `?` of q, left to right, by the next value |
| Placeholders.AnonymousIsInterleave | driver/stmt.go:249-259 | in anonymous mode the output is `parts[0]`, then each value followed by the next part |
| Placeholders.ReplaceAnonymous | driver/stmt.go:246-262 | the loop fills each `?` with its argument's `%v`, a string wrapped in `$$` unless the query ends in `'` |
| Placeholders.FillWithMarksIsIdentity | driver/stmt.go:249-259 | filling every `?` with `?` returns the query: the rewrite loses no text |
| Placeholders.FillNothing | driver/stmt.go:249-250 | a query without `?` is unchanged by the anonymous rewrite |
| Placeholders.NoArgumentsKeepQuery | driver/stmt.go:246-262 | with no `?` and no arguments the query is returned as written |
| Placeholders.Translate | driver/stmt.go:208-244 | when the query holds as many `?` as there are arguments, the anonymous path is taken and never panics |
| Placeholders.ReplaceArguments | driver/stmt.go:208-244 | anonymous mode exactly when the number of `?` equals len(args), ordinal mode otherwise |
| Placeholders.NoMatchPanics | driver/stmt.go:217-241 | on the ordinal path, a query the pattern never matches panics with index -1 |
| Placeholders.MarkerAtStartIsNotReplaced | driver/stmt.go:210 | `$1` at offset 0 is not a match: the call panics |
| Placeholders.MarkerAfterDollarIsNotReplaced | driver/stmt.go:210 | `$$1` is not a match: the call panics |
| Placeholders.SingleMarker | driver/stmt.go:217-241 | the one match of `a$1` is replaced by the first argument's text, keeping the `a` |
| Placeholders.NilBecomesNull | driver/stmt.go:228-235 | `a$1` with a nil argument gives `anull` |
| Placeholders.AdjacentHead | driver/stmt.go:217-241 | the first match of `a$1$2` is `a$1`: its `$1` is replaced by the first argument's text |
| Placeholders.AdjacentTail | driver/stmt.go:217-241 | the text after the first match of `a$1$2` holds no match and is copied as is |
| Placeholders.AdjacentMarkers | driver/stmt.go:217-241 | `a$1$2` gives `a$$x$$$2`: the second marker stays |
| Placeholders.IndexZeroPanics | driver/stmt.go:229 | `$0` panics with index -1 |
| Placeholders.WidePredecessorKeepsQuery | driver/stmt.go:220-226 | a multi-byte character before `$1` makes `Atoi` fail, and the query is returned unchanged |
| Placeholders.QuotedQueryLeavesStringsBare | driver/stmt.go:253-256 | in a query ending in `'` a string goes in bare |
| Placeholders.UnquotedQueryWrapsStrings | driver/stmt.go:253-256 | otherwise a string is wrapped in `$$` |
| Placeholders.AnonymousNilIsPrinted | driver/stmt.go:252 | nil is printed as `<nil>` in anonymous mode |
| Text.AtoiRoundTrip | driver/stmt.go:222 | `Atoi` reads back the decimal text of every non-negative int64 |
| Text.AtoiInSlice | driver/stmt.go:222 | reading digits by position equals `Atoi` of the slice |
| Text.SplitLength | driver/stmt.go:249 | `Split` on `?` gives one more piece than there are `?` |
| Text.JoinSplit | driver/stmt.go:249 | joining the pieces with `?` gives the string back |
| Text.SplitPiecesFree | driver/stmt.go:249 | no piece contains `?` |
| Text.TrimSuffix | driver/driver.go:32 | drops the suffix exactly when present, otherwise returns the string |
| Statement.NewQuery | driver/stmt.go:36-43 | the body carries the query, format `array`, header and types header on |
| Statement.PrepareStatement | driver/stmt.go:63-79 | the statement keeps endpoint, user agent and query, and stores the placeholder count |
| Statement.Stmt.NumInput | driver/stmt.go:98-100 | returns the placeholder count of the query |
| Statement.NumInputDeterministic | driver/stmt.go:98-100 | two statements prepared from the same query report the same count |
| Statement.Stmt.Close | driver/stmt.go:85-87 | closing a statement returns no error |
| Statement.Stmt.Exec | driver/stmt.go:104-106 | Exec always fails with "not implemented" |
| Statement.Stmt.Outgoing | driver/stmt.go:170-187 | a request is built iff the statement is non-empty and the translation did not panic; it is a POST of the translated query to the endpoint with the JSON content type and the statement's user agent |
| Statement.Stmt.Sent | driver/stmt.go:178-192 | a request goes out iff the statement is non-empty, the translation did not panic and `http.NewRequest` accepted it; what goes out is the request built (`Outgoing`) |
| Statement.Stmt.QueryResult | driver/stmt.go:162-205 | Query succeeds iff the request is sent, the server answers 200, the body is read and parsed; an empty statement fails with "empty statement", a panic with "fatalf error", another status with "cannot query" |
| Statement.Stmt.Query | driver/stmt.go:162-205 | sends `Sent(args, exchange)`, returns the error of `QueryResult`, or a fresh cursor at row 0 over the parsed table |
| Statement.EmptyStatementSendsNothing | driver/stmt.go:170-172 | an empty statement fails before any translation or request, whatever the arguments |
| ResultSet.HeaderNames | driver/rows.go:42-45 | the names are row 0's strings in order, or the position of the first non-string cell, where the conversion panics |
| ResultSet.ParseTable | driver/rows.go:32-63 | parse succeeds iff the response decodes, is non-empty and row 0 is all strings; then the names are row 0 and the rows are rows 1..n; an empty response gives `sql.ErrNoRows` |
| ResultSet.TypesRowIsFirstRow | driver/rows.go:42-53 | with Druid's names row and types row, the types row becomes the first data row |
| ResultSet.ParseResponse | driver/rows.go:32-63 | the loops build exactly `ParseTable`'s names and rows, with the cursor at 0, or return its error with an empty `Rows` |
| ResultSet.ScanRowCells | driver/rows.go:90-109 | a bool, string, int, int64 or float64 cell is copied into dest; a nil cell or any other kind leaves dest as it was |
| ResultSet.ScanRowCopies | driver/rows.go:90-109 | a row of copyable cells is copied whole |
| ResultSet.ScanRowIdempotent | driver/rows.go:90-109 | scanning the same row twice equals scanning it once |
| ResultSet.Step | driver/rows.go:81-111 | Next succeeds iff rows remain and dest is as wide as the current row, then advances by one; an exhausted cursor fails with "no next data record", a width mismatch with "number of refs passed to scan does not match column count"; on error nothing changes; names and rows never change |
| ResultSet.Run | driver/rows.go:81-111 | a sequence of Next calls keeps the cursor invariant and returns one error slot per call |
| ResultSet.ExhaustedStaysExhausted | driver/rows.go:82-84 | once exhausted, every later Next fails with "no next data record" and changes nothing |
| ResultSet.DrainReadsEveryRow | driver/rows.go:81-125 | calling Next until it fails, with dest as wide as every row of copyable cells, yields the remaining rows in order and ends exhausted |
| ResultSet.Rows.constructor | driver/rows.go:55-62 | a new cursor holds the given names and rows at row 0 |
| ResultSet.Rows.Empty | driver/rows.go:36-39 | `&Rows{}` has no names and no rows |
| ResultSet.Rows.Columns | driver/rows.go:69-71 | returns the stored column names |
| ResultSet.Rows.Close | driver/rows.go:74-76 | closing returns no error |
| ResultSet.Rows.HasNextResultSet | driver/rows.go:123-125 | true iff `currentRow < len(rows)`, given the invariant `0 <= currentRow <= len(rows)` |
| ResultSet.Rows.NextResultSet | driver/rows.go:114-120 | fails with "NextResult is empty" and no change when exhausted, otherwise advances by one |
| ResultSet.Rows.Next | driver/rows.go:81-111 | updates the cursor and dest exactly as `Step`, keeping the invariant |
| ResultSet.Rows.SetColumns | driver/rows.go:127-129 | replaces the column names and nothing else |
| Driver.Open | driver/driver.go:27-36 | an empty dsn fails with "invalid dsn"; otherwise the endpoint is the dsn without one trailing `/`, then `/druid/v2/sql`; the user agent is `proullon/druid/1.0` |
| Driver.OpenTrailingSlash | driver/driver.go:32-34 | `h/` and `h` open the same endpoint |
| Driver.OpenDoubleSlash | driver/driver.go:32-34 | `h//` keeps one slash before the path |
| Driver.OpenSlash | driver/driver.go:28-34 | `/` is accepted and opens `/druid/v2/sql` |

## Left out

- The HTTP exchange of `Query`: it is a parameter (`Exchange`). Building the request, the client call, the status and reading the body are inputs. Only the checks the driver makes on them are modelled.
- `json.Marshal` of the request and `json.Unmarshal` of the response. The request is a record, and the response arrives already decoded (`Response`). An undecodable body is an input case.
- `reflect`: the type switch of `Next` is a match on the `Value` constructors. `Other` stands for any type whose name is none of `bool`, `string`, `int`, `int64`, `float64`.
- `%v` of floats and of other types: their text is carried in the value (`Float64`, `Other`), and there is no formatting.
- The `sync.Mutex` in the result set (never locked), and the log calls.
- The commented-out body of `Exec` (driver/stmt.go:108-157): dead code.
- driver/conn.go and driver/tx.go are not part of this model. `Prepare` only forwards to `prepareStatement`; the transaction methods do nothing.
- `init`/`NewDriver` registration with `database/sql` (driver/driver.go:12-25), the command-line tool and the end-to-end test.
- Placeholders.CountArguments: returns a `nat`. The `-1` after the loop in the source is only reachable when `id` overflows, which the unbounded counter cannot do.
- Placeholders.ParseIndex: the query is a sequence of characters, not bytes. A multi-byte character before `$` is modelled by its effect: the slice then starts with a continuation byte (three- and four-byte characters) or with the `$` (two-byte ones), and `Atoi` fails either way.
- Text.AtoiIn: only unsigned digit strings reach it, so signs are not modelled.
- ResultSet.Rows: `Rows` and its inner `resultSet` are one class.
- ResultSet.ParseResponse: when row 0 holds a non-string, the source panics before returning anything. The model returns an empty `Rows` with `HeaderNotString`, and `Query` turns that into the recovered "fatalf error".
- Statement.Stmt.Query: on a parse error the source returns the empty `Rows` with the error. The model returns it too, but says nothing about it.
