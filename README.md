# SQL execution and result normalisation, modelled in Dafny

This project models the data layer of a Node/MySQL GraphQL and REST server.
The core is the `DataBase` class (`server/src/shared/Database.ts`). It turns a list of
stored-procedure parameters into `CALL proc(?,...,@out,...);`. It fetches OUT variables
with a follow-up `SELECT @a,@b;`. It runs ad-hoc SQL with a multi-statement error rewrite,
answers existence checks, and classifies the driver's untyped reply into a `SqlResult`
(ordered row sets, plus the write summary of the last INSERT, UPDATE or DELETE). Next to it
is the REST response envelope (`src/shared/HttpResponse.ts`).

Files and modules:

- `js_values.dfy` (`JsValues`): JavaScript values and their truthiness, thrown errors,
  `startsWith`, `Array.prototype.join`, counting `;` matches, and splitting (the reference
  that a joined list is read back against).
- `driver.dfy` (`Driver`): the payload shapes and bind lists. It also holds `Connection`, a
  pool or connection that records every statement it runs. The server's answer is an
  abstract function of the statements already run on that connection and of the new one.
  So a `SELECT @out` can see what the `CALL` before it set, but only on the same connection.
- `result_classifier.dfy` (`ResultClassifier`): `isResultSetHeader` and the pure meaning of
  `createSqlResult`, with lemmas on order and on last-wins overwriting.
- `procedure_call.dfy` (`ProcedureCall`): `SqlParam` and the statement-building loop of
  `call` (`addParam` and the concatenation of the SQL), with its specification functions.
- `sql_results.dfy` (`SqlResults`): the `SqlResult` class and its accessors.
- `database.dfy` (`Database`): the `DataBase` class, with `Call`, `Query`, `Exists` and
  `CreateSqlResult` as imperative methods proved against the functions above.
- `http_response.dfy` (`HttpResponses`): the response envelope as records. The status
  code and body that the source writes to express are part of the returned record.

Behaviour of the code that a first reading might not expect (the model follows the code):

- The multi-statement check runs only after the driver has rejected the SQL. It does not
  run before anything is sent.
- In the multi-result loop, every non-iterable entry overwrites `resultSetHeader`, whether
  or not it has the six summary keys. Only the first entry is tested for that shape.
- A flat table is stored as `data` itself, not wrapped as `[payload]`.
- OUT values keep their `@` key. The accessors add `@` to the name instead of stripping it
  from the stored keys.
- `call` binds IN values as given: unlike `query`, it never turns `undefined` into `null`.
- The rewrite needs `multiStatements === false`. An options object that leaves it undefined
  gets the driver's error back unchanged.

`call` binds the IN values followed by the OUT variable names (`inV.concat(outV)`), but the
statement has a `?` only for each IN value. `ProcedureCall.PlaceholdersAndBinds` states
both counts. The model keeps the bind list as written.

## Model

| member | source | states |
|---|---|---|
| `ProcedureCall.BuildCallStatement` | server/src/shared/Database.ts:186-231 | the loop yields `CALL proc(<IN ? then OUT @name, joined by ,>);`, binds `inV ++ outV`, one `??` per OUT variable; with no parameters the argument list is empty and so are the bind and OUT lists |
| `ProcedureCall.NoParamCall` | server/src/shared/Database.ts:188-204 | with no parameters the statement is exactly `CALL proc();` with no bind values and no OUT placeholder |
| `ProcedureCall.GroupsAppend` | server/src/shared/Database.ts:191-201 | each group (IN placeholders, IN values, OUT placeholders, OUT variables) of `a + b` is that of `a` followed by that of `b`: order is kept within a group |
| `ProcedureCall.GroupSizes` | server/src/shared/Database.ts:223-231 | every parameter lands in exactly one group; one `?` per IN value and one `??` per OUT variable |
| `ProcedureCall.OutSelectNeededIff` | server/src/shared/Database.ts:211-216 | an OUT placeholder exists (so the follow-up SELECT runs) if and only if some parameter's direction is not `in` |
| `ProcedureCall.ArgListRoundTrip` | server/src/shared/Database.ts:203 | splitting the argument text at `,` gives back every IN `?` followed by every OUT `@name` (OUT names without commas) |
| `ProcedureCall.PlaceholdersAndBinds` | server/src/shared/Database.ts:203-208 | the CALL text holds one `?` per IN value plus those of the procedure name (pasted in unchecked), for OUT names without `?`, while the bind list is the IN values followed by one entry per OUT variable |
| `Database.DataBase.Call` | server/src/shared/Database.ts:183-232 | on the given connection (else the pool) it runs the CALL; only when an OUT parameter exists does it run `SELECT <OUT vars joined by ,>;` right after on the same connection; `outParams` is null without OUT parameters, else element 0 of that SELECT; a rejection of either statement is rethrown; the result is the classified payload |
| `Database.GetOutputs` | server/src/shared/Database.ts:170-172 | the output object is element 0 of the SELECT's rows, `undefined` when there is none, never null |
| `Database.OutParamReadBack` | server/src/shared/Database.ts:59-63 | every OUT parameter's `@name` is a column the follow-up SELECT names; the key `getOutputVal(name)` reads is that column exactly when the name lacks `@` |
| `SqlResults.SqlResult.constructor` | server/src/shared/Database.ts:48-53 | a new result has empty `data`, the given fields and outParams, and `{}` as header |
| `SqlResults.OutputKey` | server/src/shared/Database.ts:61 | the key always starts with `@`; it is the name itself exactly when the name already starts with `@`, else `@` + name |
| `SqlResults.PrefixedNameSameKey` | server/src/shared/Database.ts:71 | for a name without `@`, the name and `@` + name normalise to the same key |
| `SqlResults.SqlResult.GetOutputVal` | server/src/shared/Database.ts:59-63 | throws a TypeError exactly when `outParams` is null or undefined; otherwise the value under the normalised key, `undefined` when absent |
| `SqlResults.SqlResult.GetOutputJsonVal` | server/src/shared/Database.ts:69-73 | the same lookup, with its failure passed on, then the parser applied to the value found |
| `SqlResults.SqlResult.OutputNamePrefixInsensitive` | server/src/shared/Database.ts:59-73 | reading `n` and `@n` gives the same raw and parsed answers |
| `SqlResults.SqlResult.GetData` | server/src/shared/Database.ts:80-86 | index -1 (the default) gives the whole `data`; an index inside `data` gives that element; any other index gives `undefined` |
| `Database.DataBase.Query` | server/src/shared/Database.ts:241-278 | the caller's params have every undefined value replaced by null; a missing `options.conn` is set to the pool; one statement is sent, by the text protocol only when `multiStatements` is true; success gives the classified payload with `{}` as outParams; a rejection is mapped by `QueryError` |
| `Database.NullForUndefined` | server/src/shared/Database.ts:242-246 | same keys; no value is undefined afterwards; undefined becomes null and every other value is kept |
| `Database.NullForUndefinedIdempotent` | server/src/shared/Database.ts:242-246 | normalising again changes nothing |
| `Database.QueryError` | server/src/shared/Database.ts:268-277 | the error is replaced if and only if the SQL has more than one `;` and `multiStatements` is `false`; the replacement is a plain error whose message is the fixed text followed by the driver's message |
| `JsValues.Count` | server/src/shared/Database.ts:270-273 | the number of `;` matches is at most the length, and zero exactly when there is no `;` |
| `Database.OriginalErrorKept` | server/src/shared/Database.ts:270-276 | with at most one `;`, or with `multiStatements` not `false`, the driver's error is rethrown unchanged |
| `Database.TwoStatementsReported` | server/src/shared/Database.ts:270-274 | any two `;`-terminated statements are reported as a multi-statement error when the option is `false` |
| `Database.DataBase.Exists` | server/src/shared/Database.ts:287-296 | one prepared statement on the given connection (else the pool); a rejection is rethrown; otherwise true exactly when the reply holds at least one row |
| `Database.HasRows` | server/src/shared/Database.ts:295 | true if and only if the reply is an array with at least one element |
| `Database.ExistsMatchesFlatData` | server/src/shared/Database.ts:287-322 | for a plain table, `exists` holds exactly when the `data` a query would return is non-empty |
| `Database.DataBase.CreateSqlResult` | server/src/shared/Database.ts:308-337 | the result's data and header are those of `Classify` of the payload, and its fields and outParams are the ones given; the loop is proved against `RowSets` and `LastRecord` |
| `ResultClassifier.IsResultSetHeader` | server/src/shared/Database.ts:344-352 | true if and only if the object's keys include all of fieldCount, affectedRows, insertId, info, serverStatus and warningStatus |
| `ResultClassifier.Classify` | server/src/shared/Database.ts:313-336 | a bare object is the header and `data` is empty; an empty array, or one whose first element is neither iterable nor header-shaped, is `data` unchanged with header `{}`; otherwise `data` holds only iterable entries |
| `ResultClassifier.RowSets` | server/src/shared/Database.ts:325-333 | the kept entries are all iterable and no more than the payload's entries |
| `ResultClassifier.RowSetsAppend` | server/src/shared/Database.ts:326-329 | keeping row sets commutes with concatenation, so `data` follows payload order |
| `ResultClassifier.RowSetsMembers` | server/src/shared/Database.ts:326-329 | an entry is in `data` if and only if it is in the payload and iterable |
| `ResultClassifier.RowSetsAllIterable` | server/src/shared/Database.ts:326-329 | a payload of row sets only is kept whole |
| `ResultClassifier.LastRecordAppend` | server/src/shared/Database.ts:329-331 | the header after `a + b` is the one `b` leaves when it starts from the one `a` left: later entries overwrite earlier ones |
| `ResultClassifier.LastRecordIsLast` | server/src/shared/Database.ts:326-332 | the header stays at its initial value when every entry is iterable; otherwise it is the fields of a non-iterable entry followed only by row sets |
| `ResultClassifier.LaterSummaryWins` | server/src/shared/Database.ts:299-332 | of two write summaries, the later is reported and the earlier discarded, whatever row sets come between or after |
| `ResultClassifier.ClassifyMultiple` | server/src/shared/Database.ts:324-333 | in the multi-result case `data` is exactly the iterable entries in order, and the header is the last non-iterable entry, or `{}` when there is none |
| `HttpResponses.DataOrNull` | src/shared/HttpResponse.ts:28 | a `data` parameter defaulted to `null` is never `undefined`, and any other value passes unchanged |
| `HttpResponses.NewHttpResponse` | src/shared/HttpResponse.ts:23-35 | the status written equals `code`, and the body is exactly `{success, msg, errors, data}` from the arguments, except that `data` given as `undefined` becomes `null` (its default) |
| `HttpResponses.DefaultResponse` | src/shared/HttpResponse.ts:23-28 | the defaults are 200, success true, `OK`, no errors, `null` data |
| `HttpResponses.ErrorCodeAndMessage` | src/shared/HttpResponse.ts:58-64 | codes `400`, `401`, `403` and `404` map to their own status and no other code does; every other code maps to 500; the message is the status's reason phrase |
| `HttpResponses.HttpResponseError` | src/shared/HttpResponse.ts:52-74 | success false and data null; status from the code; `errors` is `[result.err]` when present, else empty; `. Data was invalid.` is appended exactly when the result succeeded, its data is falsy and the status is 500 |
| `HttpResponses.ErrorResponseIsSubclass` | src/shared/HttpResponse.ts:46-207 | the error response equals the dedicated subclass for its code (BadRequest, Unauthorized, Forbidden, NotFound, InternalServerError) built with the same errors |
| `HttpResponses.ErrorResponseStatusAndMessage` | src/shared/HttpResponse.ts:58-71 | an error response's status lies between 400 and 500; its message starts with that status's reason phrase and differs from it only for a 500 with a successful result whose data is falsy |
| `HttpResponses.HttpResponseOk` | src/shared/HttpResponse.ts:91-93 | status 200, success true, no errors, the given message, and the given data with `undefined` turned into `null` by the default |
| `HttpResponses.HttpResponseCreated` | src/shared/HttpResponse.ts:110-112 | status 201, success true, no errors, the given message, and the given data with `undefined` turned into `null` by the default |
| `HttpResponses.HttpResponseBadRequest` | src/shared/HttpResponse.ts:129-131 | status 400, success false, data null, the given errors and message |
| `HttpResponses.HttpResponseUnauthorized` | src/shared/HttpResponse.ts:148-150 | status 401, success false, data null, the given errors and message |
| `HttpResponses.HttpResponseForbidden` | src/shared/HttpResponse.ts:167-169 | status 403, success false, data null, the given errors and message |
| `HttpResponses.HttpResponseNotFound` | src/shared/HttpResponse.ts:186-188 | status 404, success false, data null, the given errors and message |
| `HttpResponses.HttpResponseInternalServerError` | src/shared/HttpResponse.ts:205-207 | status 500, success false, data null, the given errors and message |

## Left out

- Pool and connection creation, the lazy singleton and its configuration (`getNewConnPool`,
  `getDbConnection`, `Instance`) are driver I/O. The pool is a `Connection` passed to the
  `DataBase` constructor.
- A pool may run the CALL and its follow-up SELECT on two different pooled connections.
  The model treats a pool as one session with one statement log.
- Promises and `await`: the model is sequential. Concurrent callers, connection affinity
  across requests, and the check-then-act race of `exists` are not modelled.
- `JSON.parse` is a parameter of `GetOutputJsonVal`.
- Writing to the express response (`res.statusCode`, `res.send`) is recorded in the
  returned `HttpResponse` value. Nothing is sent.
- JavaScript numbers are modelled as integers, so `NaN` and fractional values are not
  covered. Objects the layer never looks into are opaque values.
- `IErr` and `IResult` (`src/shared/Err`, `src/shared/Result`) are not part of this model.
  Only the error message, `success`, `data`, `err` and the error code are kept.
- `query` walks `Object.keys(params)` in insertion order. The model walks the key set in an
  arbitrary order. The result is the same, because each key is rewritten independently.
- An absent `params` array in `call` is modelled as the empty sequence. A direction other
  than `in` is treated as OUT, as the source's `else` branch does.
- Entries that are `null` or `undefined`, which would make `createSqlResult` throw on
  `rows[0][Symbol.iterator]`, are not modelled. The driver never produces them.
- Strings as top-level payload entries (strings are iterable in JavaScript) are not modelled.
- `getOutputs` and `exists` on a bare (non-array) reply read element 0 and `length` of a
  plain object. They are modelled as `undefined`, which holds for the write summaries the
  driver returns.
- Database.OutParamReadBack: an OUT parameter declared with a leading `@` is selected as
  `@@name`, a MySQL system variable, while `getOutputVal` reads key `@name`. The lemma
  states only that the keys differ; what MySQL answers for `@@name` is server behaviour.
- The text of a TypeError message follows V8's wording. Only its kind matters to the
  contracts.
- The repositories, services, resolvers, routes, GraphQL wiring and query-file loading only
  call this layer, so they are not modelled.
