# Product API core, modelled in Dafny

This project models the logic at the centre of a small product-catalogue REST
service. That logic has three parts:

- **The parameter binder** (`db.js`).
  - `buildQueryWithNamedParams` rewrites each positional `?` of a SQL template
    to `@p0`, `@p1`, ..., left to right. It counts the replacements and fails
    with a "Parameter count mismatch" error when the count differs from the
    number of arguments.
  - `query` binds argument `i` under the name `p<i>` on a fresh request. It
    then rewrites the template and sends it once.
- **The API-key gate** (`auth.js`).
  - `getTokenFromRequest` takes the credential from a non-blank `x-api-key`
    header (trimmed). Failing that, it takes it from `Authorization: Bearer
    <token>`.
  - `timingSafeMatch` compares UTF-8 encodings.
  - `authenticate` gives 500 when no key is configured. It gives 401 when the
    credential is missing or wrong, and lets the request through otherwise.
- **The route handlers** (`server.js`).
  - `GET /products` appends one `AND <column> = ?` clause per truthy filter
    (category, color, size) and pushes its value.
  - `POST /products` normalises the payload into a list of products. It sends
    one six-argument insert per product and gathers the inserted ids and the
    row counts into a response.

## Layout

| file | module | contents |
|---|---|---|
| `wrappers.dfy` | `Wrappers` | `Option` and `Result` |
| `js_string.dfy` | `JsString` | the JavaScript string operations the core relies on: `trim`, `split(" ")`, and the decimal form of a natural number in a template literal |
| `utf8.dfy` | `Utf8` | `Buffer.from(s, "utf8")` as a UTF-8 encoder, with a decoder that inverts it and proves it injective |
| `db.dfy` | `Db` | the specification `Rewrite` of the binder, and the loop `BuildQueryWithNamedParams` proved against it; the named bindings; the pool and request as classes whose state is the log of statements sent; `Query` |
| `auth.dfy` | `Auth` | token extraction, the byte comparison and the gate's verdict, all pure functions of the headers and the configured key |
| `server.dfy` | `Server` | JavaScript values, the GET filter builder (a method over `sql`/`params`), the POST payload and insert loop (a method proved against the recursive `InsertRun`), and response shaping |

The database is a function from the statements already sent and the new
statement to an outcome: either a result holding a recordset and `rowsAffected`,
or a failure. The pool records every statement it sends, so "nothing is sent"
and "exactly these statements are sent, in this order" are statements about
`Pool.sent`. Validation (the Joi schemas) is a function parameter that returns
an error message or nothing, and so is `JSON.parse`.

Two consequences of the code as written:

- **Splitting the `Authorization` header.** `authHeader.split(" ")`
  (auth.js:26) splits at every space, and only the first two fields are kept.
  So `Bearer` followed by two spaces yields no token
  (`Auth.DoubleSpaceYieldsNothing`). Text after a second space is dropped
  (`Auth.BearerTokenExtracted`).
- **Binding comes before the count check.** `query` binds every argument on
  the request (db.js:66-68) before it builds the query (db.js:70). On a count
  mismatch the error is thrown there, and nothing is sent (`Db.Query`).

## Model

| member | source | states |
|---|---|---|
| JsString.TrimStart | auth.js:17 | the result is a suffix of the input, the dropped prefix is all whitespace, and the result does not start with whitespace |
| JsString.TrimEnd | auth.js:17 | the result is a prefix of the input, the dropped suffix is all whitespace, and the result does not end with whitespace |
| JsString.Trim | auth.js:17-18 | `trim()` yields a string with no whitespace at either end; it is empty exactly when the input is blank, and it is never longer than the input |
| JsString.TrimOfTrimmed | auth.js:17-18 | trimming a string that has no whitespace at either end leaves it unchanged |
| JsString.TrimIdempotent | auth.js:17-18 | trimming twice is trimming once |
| JsString.TrimPadded | auth.js:17-18 | whitespace around a non-empty trimmed core is removed, and the core is kept intact |
| JsString.Split | auth.js:26 | `split(sep)` yields at least one field, no field holds the separator, and joining the fields with the separator gives back the input |
| JsString.SplitNoSeparator | auth.js:26 | a string without the separator splits into itself alone |
| JsString.SplitAtFirst | auth.js:26 | the first field ends at the first separator, and the rest is split the same way |
| JsString.SplitJoin | auth.js:26 | splitting the join of separator-free fields gives those fields back |
| JsString.NatToString | db.js:48 | the decimal form of `n` is non-empty, made of digits, and has no leading zero except for 0 |
| JsString.ParseNatToString | db.js:48 | reading the decimal form back gives `n` |
| JsString.NatToStringInjective | db.js:48 | different numbers have different decimal forms |
| Utf8.SequenceLength | auth.js:5-6 | the length announced by a lead byte is between 1 and 4 |
| Utf8.Encode | auth.js:5-6 | a string's UTF-8 buffer holds between one and four bytes per character |
| Utf8.EncodeChar | auth.js:5-6 | one character encodes to 1 to 4 bytes, and its lead byte announces that length |
| Utf8.CodePoints | auth.js:5-6 | one code point per character |
| Utf8.DecodeEncodeChar | auth.js:5-6 | decoding a character's bytes gives back its code point |
| Utf8.DecodeEncode | auth.js:5-6 | decoding the UTF-8 buffer of a string gives back the string's code points |
| Utf8.EncodeInjective | auth.js:5-12 | two strings with the same UTF-8 buffer are equal |
| Db.ParamName | db.js:67 | the input name `p${k}` starts with `p` and holds no `?` |
| Db.ParamRef | db.js:48 | the named placeholder `@p${k}` holds no `?` |
| Db.ParamNamesDistinct | db.js:66-68 | different indices are bound under different names |
| Db.CountPlaceholders | db.js:46-53 | the number of `?` the scan counts, never more than the template's length |
| Db.NoPlaceholders | db.js:46-53 | the count is zero exactly when the template holds no `?` |
| Db.Rewrite | db.js:47-51 | the template with each `?` replaced, left to right, by `@p${k}`; the result holds no `?` |
| Db.RewriteWithoutMarkers | db.js:47-59 | a template without `?` has zero placeholders and is returned unchanged |
| Db.CountAppend | db.js:47-51 | the placeholders of a concatenation are those of its parts |
| Db.RewriteAppend | db.js:46-51 | rewriting a concatenation rewrites each part, and the second part's numbering continues where the first part's stopped |
| Db.RewriteNthMarker | db.js:46-51 | the `?` preceded by `j` others becomes `@p${j}`, and the text on either side is rewritten on its own |
| Db.RewriteJoin | db.js:47-51 | with marker-free segments joined by `?`, the count is one per join, the segments are copied unchanged and in order, and the joins are named `@p${k}`, `@p${k+1}`, ... |
| Db.RewriteBySegments | db.js:47-51 | for every template, the text between markers is copied unchanged and in order, the j-th `?` becomes `@p${j}`, and the count is the number of markers |
| Db.MismatchMessage | db.js:55 | the error text starts with "Parameter count mismatch: query expects " and ends with a full stop |
| Db.ErrorMessage | db.js:54-56 | the message of a thrown error: for a mismatch, the "Parameter count mismatch" text with both counts; for a database failure, the driver's message |
| Db.MismatchErrorsByMessage | db.js:54-56 | two mismatch errors with the same message are the same error |
| Db.MismatchMessageInjective | db.js:53-57 | the mismatch message carries both counts: equal messages have equal counts |
| Db.ScanStep | db.js:47-51 | one step of the scan: a `?` is counted and replaced by the next name, and any other character is copied |
| Db.BuildQueryWithNamedParams | db.js:45-60 | the scan fails with `Mismatch(count, params.length)` exactly when the counts differ; otherwise it returns the left-to-right rewrite |
| Db.Prepare | db.js:66-70 | what `query` sends or throws: a mismatch error carrying both counts exactly when the counts differ; otherwise a text with no `?` and one binding per argument, the k-th binding being `p${k}` with `params[k]` |
| Db.LookupBindings | db.js:66-68 | after binding `params` in order, the name `p${k}` holds `params[k]` |
| Db.PreparedBindsEveryPlaceholder | db.js:66-71 | in a statement that passes the count check, every placeholder `@p${k}` names `params[k]` |
| Db.Completed | db.js:71-72 | a database answer becomes `[recordset \|\| [], result]`: the recordset when present and `[]` when absent, with the whole result; a failure becomes the thrown error |
| Db.Pool.constructor | db.js:43 | a new pool has sent nothing |
| Db.Pool.NewRequest | db.js:64 | `pool.request()` is a fresh request with no inputs |
| Db.Pool.Execute | db.js:71 | sending appends exactly one statement to the log, and the answer depends on the statements sent before |
| Db.Request.constructor | db.js:64 | a new request has no inputs |
| Db.Request.Input | db.js:67 | `request.input` adds exactly one binding, at the end |
| Db.Request.Query | db.js:71 | `request.query` sends the text with every input bound so far, as one statement |
| Db.Query | db.js:62-73 | on a count mismatch, the mismatch error is returned and nothing is sent; otherwise exactly one statement is sent (the rewritten text with `p${i}` bound to `params[i]`), and its answer is returned |
| Auth.KeyFromEnvironment | auth.js:2 | the configured key is `API_KEY` when that is set and non-empty, else `DUMMY_TOKEN` |
| Auth.TimingSafeEqual | auth.js:12 | byte-by-byte comparison of equal-length buffers holds exactly when they are equal |
| Auth.TimingSafeMatch | auth.js:4-13 | the match is false whenever the UTF-8 lengths differ, and true exactly when the UTF-8 buffers are equal, an absent value counting as the empty string |
| Auth.TimingSafeMatchIsEquality | auth.js:4-13 | the match holds exactly when the two strings are equal |
| Auth.BearerToken | auth.js:26-31 | a token taken from the authorization header is trimmed |
| Auth.TokenFromRequest | auth.js:15-32 | a non-blank `x-api-key` wins, trimmed, whatever `Authorization` says; with neither a usable key header nor a non-blank authorization header there is no token |
| Auth.BearerTokenExtracted | auth.js:26-31 | `Bearer <token>`, optionally followed by more space-separated text, yields the trimmed token |
| Auth.BearerTokenRequired | auth.js:26-31 | a token comes only from a header that starts with exactly `Bearer ` and has a non-empty second field, and the token is that field trimmed |
| Auth.JoinAfterSecond | auth.js:26 | a field list reads as its first field, the separator, its second field, and then either nothing or text that starts with the separator |
| Auth.PaddedApiKeyTrimmed | auth.js:16-19 | an `x-api-key` padded with whitespace yields the key inside it |
| Auth.BearerTokenVerbatim | auth.js:26-31 | a Bearer token with no surrounding whitespace is returned as is |
| Auth.DoubleSpaceYieldsNothing | auth.js:26-29 | `Bearer` followed by two spaces yields no token, whatever follows |
| Auth.AuthorizationConsulted | auth.js:21-31 | without a usable `x-api-key`, a non-blank authorization header decides the token |
| Auth.Authenticate | auth.js:34-50 | no configured key gives 500 for every request; a configured key with a missing or empty token gives 401 "API key missing"; 500 is given only when no key is configured |
| Auth.AllowedIffKeyMatches | auth.js:34-50 | `next()` runs exactly when a key is configured and the extracted token equals it |
| Auth.WrongKeyRejected | auth.js:45-47 | a present token that differs from the key gives 401 "Invalid API key" |
| Auth.PaddedKeyAdmitsNothing | auth.js:35-49 | a configured key with whitespace at either end admits no request, because tokens are always trimmed |
| Auth.BasicExample | auth.js:26-29 | `Basic abc` yields no token |
| Server.Present | server.js:101-114 | each kept filter names one of the looked-at columns and carries that column's truthy value, and no more filters are kept than columns looked at |
| Server.FilterSql | server.js:98-114 | the filtered select always begins with `SELECT * FROM products WHERE 1=1`, and clauses are only appended after it |
| Server.FilterParams | server.js:99-114 | the arguments are the values of the kept filters, one each, in order |
| Server.ClauseBinds | server.js:102 | each appended clause holds one `?`, which the binder names `@p${k}` |
| Server.FilterSqlBinds | server.js:98-114 | the built SQL holds one `?` per filter, and the j-th is named `@p${j}` inside the j-th filter's clause |
| Server.FilterQueryBinds | server.js:96-114 | for every request, the GET query passes the binder's count check |
| Server.FilterStatementBinds | server.js:96-117 | the GET statement is prepared without error, and `@p${j}` is bound to the value of the j-th truthy filter |
| Server.FilterAdd | server.js:101-104 | a filter whose value is truthy appends its clause and its value, and any other filter appends nothing |
| Server.FilterConditionsUnfold | server.js:101-114 | the filters are examined in the order category, color, size |
| Server.BuildFilterQuery | server.js:96-114 | the built SQL and arguments are those of the truthy filters, in order, with as many `?` as arguments; with no filter, the SQL is exactly `SELECT * FROM products WHERE 1=1` and there are no arguments |
| Server.GetProducts | server.js:90-126 | a validation error gives 400 with its message and sends nothing; otherwise exactly one statement is sent, and the answer is 200 with the records or 500 on failure |
| Server.Payload | server.js:25-32 | the payload is `body.products` when that is truthy (and not a string to parse), and the body itself when it is neither that nor a string |
| Server.ProductList | server.js:39 | an array payload is the list itself; any other payload becomes a one-element list |
| Server.InsertTemplate | server.js:45-49 | the insert template holds exactly six `?`, and rewritten its values read `@p0` to `@p5` |
| Server.ProductParams | server.js:52-59 | the insert arguments are the product's six properties in column order; a null or undefined product throws instead |
| Server.InsertedId | server.js:61 | the id pushed is the first row's `insertId` when that is truthy, and `null` otherwise |
| Server.RowsAffected | server.js:62 | the count added is `rowsAffected[0]` when that exists, and 0 otherwise |
| Server.InsertRun | server.js:51-63 | the loop keeps the statements sent before it as the log's prefix and appends at most one insert per product; a completed loop has gathered one id per product after the earlier ones |
| Server.InsertBinds | server.js:45-59 | every product's insert passes the count check, and `@p${i}` holds the product's i-th column value |
| Server.Answers | server.js:51-63 | one database answer per logged statement from `lo` on |
| Server.Ids | server.js:61 | one id per answer |
| Server.InsertRunLog | server.js:51-59 | the loop only appends to the log: one insert per product reached, in product order, and never more than one per product |
| Server.InsertRunComplete | server.js:51-63 | a completed loop has sent exactly one insert per product and every insert succeeded; the ids are one per product, in order, each from its own insert's answer; `affectedRows` is the sum of the answers' row counts |
| Server.InsertRunOk | server.js:51-63 | the converse: the loop completes without error exactly when it sent one insert per product and every insert was answered without failure |
| Server.InsertRunStopsAtNull | server.js:51-59 | reading a property of a null or undefined product stops the loop before that product's insert: every earlier insert succeeded, nothing more is sent, and the earlier inserts stay sent |
| Server.InsertRunStopsAtFailure | server.js:51-59 | a failed insert stops the loop: it is the last statement sent, every earlier insert succeeded, its error is the loop's, and the earlier inserts stay sent |
| Server.AnswersAfter | server.js:51-63 | the ids and the row total of a run of answers are those of its first answer followed by those of the rest |
| Server.InsertProducts | server.js:41-63 | the loop's log and outcome are exactly those of the insert run that starts from no ids and zero rows |
| Server.InsertResponse | server.js:65-84 | an error gives 500 with "An unexpected error occurred."; success gives 200 — with one product, "Product added successfully", `productId` and `affectedRows`; with any other count, "Products added successfully", `productIds` (every id, in order) and `totalInserted` |
| Server.PostProducts | server.js:24-85 | a validation error gives 400 with its message and sends nothing; otherwise the products are inserted in order and answered by `InsertResponse` |
| Server.SingleProductResponse | server.js:61-71 | a single product that is inserted is answered with the id and row count of its own insert |

## Left out

- Express, cors, multer and body-parser wiring, `dotenv` and `app.listen` (server.js:1-19, 128-132). This is framework plumbing with no logic of its own.
- The mssql pool configuration (db.js:1-43), including the `parseInt` port fallback.
- Db.Query: the connection step (`await poolPromise`, db.js:63) is not modelled. In the source, an unreachable database makes `query` throw the connection error before any argument is bound and before the count check. That error wins over a count mismatch, and nothing reaches the database. The model has no such step: with a passing count check, `Db.Query` always records exactly one statement in `Pool.sent`, and a failure appears only as that statement's `Failed` outcome.
- Db.Query: the default `params = []` of db.js:62 is not modelled; the argument list is always given. Every call site in server.js passes one (server.js:52-59, 117).
- The timing independence of `crypto.timingSafeEqual`. Only its equality result is modelled; time is not observable in Dafny.
- UTF-8 encoding of lone surrogates. Dafny characters are Unicode scalar values, so strings holding a lone surrogate (which `Buffer.from` would turn into U+FFFD) cannot be written.
- The Joi schemas of validation.js. Validation is a function parameter returning the first error message or nothing, so the rules the schemas enforce are not modelled.
- `JSON.parse`. It is a parameter that returns the parsed value or nothing on a syntax error.
- Error logging and the `NODE_ENV`-dependent `error` field of 500 responses (server.js:79-83, 120-124). The model's 500 body carries only the message.
- Asynchronous execution and pool concurrency. Each handler runs to completion on its own.
- Header-name case folding and array-valued headers. A header is missing, a string, or some other value.
- Server.JsValue: numbers are reals. `NaN` and the distinction between integers and floating point are not modelled; `rowsAffected` counts are integers.
- Server.InsertRun: the binder's mismatch branch is not repeated in the loop's specification. `Server.InsertBinds` proves that this branch never fires for the insert template.
- Determinism of the rewrite (db.js:45-60) needs no lemma: `Rewrite` and every function here are mathematical functions of their inputs.
