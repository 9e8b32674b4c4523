/** The `DataBase` class: stored-procedure calls, ad-hoc queries and
    existence checks against a connection (the pool when none is given),
    each turning the driver's reply into a `SqlResult`. */
module Database {
  import opened JsValues
  import opened Driver
  import opened ResultClassifier
  import opened ProcedureCall
  import opened SqlResults

  /** A key/value parameter object given to `query` or `exists`. `query`
      rewrites its values in place, so the caller sees the change. */
  class ParamBag {
    var values: map<string, Value>

    constructor (values: map<string, Value>)
      ensures this.values == values
    {
      this.values := values;
    }
  }

  /** `IQueryOptions`. `multiStatements` may be left undefined (None). */
  class QueryOptions {
    var multiStatements: Option<bool>
    var conn: Connection?

    constructor (multiStatements: Option<bool>, conn: Connection?)
      ensures this.multiStatements == multiStatements && this.conn == conn
    {
      this.multiStatements := multiStatements;
      this.conn := conn;
    }
  }

  /** The parameter values `query` binds: every `undefined` replaced by `null`. */
  function NullForUndefined(m: map<string, Value>): (r: map<string, Value>)
    ensures r.Keys == m.Keys
    ensures forall k :: k in r ==> r[k] != Undefined
    ensures forall k :: k in m && m[k] != Undefined ==> r[k] == m[k]
    ensures forall k :: k in m && m[k] == Undefined ==> r[k] == Null
  {
    map k | k in m :: if m[k] == Undefined then Null else m[k]
  }

  const MultiStatementMessage: string :=
    "The sql have possible multi statements and multiStatements option is false. Inner: "

  /** What `query` throws when the driver rejects `sql` with `e`. */
  function QueryError(sql: string, multiStatements: Option<bool>, e: Error): (r: Error)
    ensures r != e <==> Count(sql, ';') > 1 && multiStatements == Some(false)
    ensures r != e ==> r == Error(PlainErrorKind, MultiStatementMessage + e.message)
  {
    if Count(sql, ';') > 1 && multiStatements == Some(false) then
      Error(PlainErrorKind, MultiStatementMessage + e.message)
    else e
  }

  /** `(rows as Array<any>).length > 0`; a bare object has no length, and
      `undefined > 0` is false. */
  function HasRows(rows: Payload): (b: bool)
    ensures b <==> rows.Arr? && |rows.entries| > 0
  {
    match rows
    case Arr(entries) => |entries| > 0
    case Bare(_) => false
  }

  /** `getOutputs(rowData)`: element 0 of the follow-up SELECT's rows. */
  function GetOutputs(rowData: Payload): (o: OutParams)
    ensures o != NullOut
    ensures o.OutEntry? <==> rowData.Arr? && |rowData.entries| > 0
    ensures o.OutEntry? ==> o.entry == rowData.entries[0]
  {
    match rowData
    case Arr(entries) => if |entries| > 0 then OutEntry(entries[0]) else UndefinedOut
    case Bare(_) => UndefinedOut
  }

  /** The result `createSqlResult(rows, fields, outputParams)` builds. */
  function Envelope(rows: Payload, fields: seq<FieldPacket>, outputParams: OutParams): ResultView
  {
    var c := Classify(rows);
    ResultView(c.data, fields, outputParams, c.header)
  }

  class DataBase {
    const pool: Connection

    constructor (pool: Connection)
      ensures this.pool == pool
    {
      this.pool := pool;
    }

    /** `if (!conn) conn = this.Pool`. */
    function Target(conn: Connection?): Connection
    {
      if conn == null then pool else conn
    }

    /** The connection `query` runs on: `options.conn`, else the pool. */
    function ChosenConn(options: QueryOptions?): Connection
      reads options
    {
      if options == null || options.conn == null then pool else options.conn
    }

    /** `call(proc, params, conn)`: runs `CALL proc(...)` and, only when an
        OUT parameter was declared, `SELECT @a,...;` right after it on the
        same connection; `outParams` is then the first row of that SELECT,
        and `null` otherwise. A rejection of either statement is rethrown. */
    method Call(proc: string, params: seq<SqlParam>, conn: Connection?) returns (r: Result<SqlResult, Error>)
      modifies Target(conn)
      ensures var c := Target(conn);
        var call := Stmt(ExecutePath, CallSql(proc, params), Positional(BindValues(params)));
        var first := c.respond(old(c.log), call);
        && (first.Failed? ==> c.log == old(c.log) + [call] && r == Failure(first.error))
        && (first.Answered? && !HasOutParam(params) ==>
              && c.log == old(c.log) + [call]
              && r.Success? && fresh(r.value)
              && r.value.View() == Envelope(first.payload, first.fields, NullOut))
        && (first.Answered? && HasOutParam(params) ==>
              var select := Stmt(ExecutePath, OutSelectSql(params), NoBinds);
              var second := c.respond(old(c.log) + [call], select);
              && c.log == old(c.log) + [call, select]
              && (second.Failed? ==> r == Failure(second.error))
              && (second.Answered? ==>
                    && r.Success? && fresh(r.value)
                    && r.value.View() == Envelope(first.payload, first.fields, GetOutputs(second.payload))))
    {
      var c := Target(conn);
      var sql, binds, outPH, outV := BuildCallStatement(proc, params);
      var reply := c.Execute(sql, Positional(binds));
      if reply.Failed? {
        return Failure(reply.error);
      }
      var outResults := NullOut;
      OutSelectNeededIff(params);
      if |outPH| > 0 {
        var outSql := "SELECT " + Join(outV, ",") + ";";
        var outReply := c.Execute(outSql, NoBinds);
        if outReply.Failed? {
          return Failure(outReply.error);
        }
        outResults := GetOutputs(outReply.payload);
      }
      var res := CreateSqlResult(reply.payload, reply.fields, outResults);
      r := Success(res);
    }

    /** `query(sql, params, options)`: replaces every `undefined` parameter
        value by `null` in place, defaults the options (a missing `conn`
        is set to the pool on the caller's object), runs `sql` by the text
        protocol when `multiStatements` is true and as a prepared statement
        otherwise, and on a rejection throws the multi-statement error or
        the driver's own error (see `QueryError`). */
    method Query(sql: string, params: ParamBag?, options: QueryOptions?) returns (r: Result<SqlResult, Error>)
      modifies params, options, ChosenConn(options)
      ensures params != null ==> params.values == NullForUndefined(old(params.values))
      ensures options != null ==>
        options.multiStatements == old(options.multiStatements) && options.conn == old(ChosenConn(options))
      ensures var c := old(ChosenConn(options));
        var multi := if options == null then Some(false) else options.multiStatements;
        var stmt := Stmt(if multi == Some(true) then QueryPath else ExecutePath, sql,
                         if params == null then NoBinds else Named(params.values));
        var reply := c.respond(old(c.log), stmt);
        && c.log == old(c.log) + [stmt]
        && (reply.Failed? ==> r == Failure(QueryError(sql, multi, reply.error)))
        && (reply.Answered? ==>
              && r.Success? && fresh(r.value)
              && r.value.View() == Envelope(reply.payload, reply.fields, OutEntry(Record(map[]))))
    {
      if params != null {
        var keys := params.values.Keys;
        while keys != {}
          modifies params
          invariant keys <= params.values.Keys == old(params.values).Keys
          invariant forall k :: k in params.values && k in keys ==> params.values[k] == old(params.values)[k]
          invariant forall k :: k in params.values && k !in keys ==>
            params.values[k] == NullForUndefined(old(params.values))[k]
          decreases keys
        {
          var k :| k in keys;
          if params.values[k] == Undefined {
            params.values := params.values[k := Null];
          }
          keys := keys - {k};
        }
      }

      var multi: Option<bool>;
      var c: Connection;
      if options == null {
        multi, c := Some(false), pool;
      } else {
        if options.conn == null {
          options.conn := pool;
        }
        multi, c := options.multiStatements, options.conn;
      }

      var binds := if params == null then NoBinds else Named(params.values);
      var reply: Reply;
      if multi == Some(true) {
        reply := c.Query(sql, binds);
      } else {
        reply := c.Execute(sql, binds);
      }
      match reply
      case Answered(rows, fields) =>
        var res := CreateSqlResult(rows, fields, OutEntry(Record(map[])));
        r := Success(res);
      case Failed(e) =>
        r := Failure(QueryError(sql, multi, e));
    }

    /** `exists(sql, params, conn)`: whether the statement returned at least one row. */
    method Exists(sql: string, params: ParamBag?, conn: Connection?) returns (r: Result<bool, Error>)
      modifies Target(conn)
      ensures var c := Target(conn);
        var stmt := Stmt(ExecutePath, sql, if params == null then NoBinds else Named(params.values));
        var reply := c.respond(old(c.log), stmt);
        && c.log == old(c.log) + [stmt]
        && (reply.Failed? ==> r == Failure(reply.error))
        && (reply.Answered? ==> r == Success(HasRows(reply.payload)))
    {
      var c := Target(conn);
      var reply := c.Execute(sql, if params == null then NoBinds else Named(params.values));
      match reply
      case Answered(rows, _) => r := Success(HasRows(rows));
      case Failed(e) => r := Failure(e);
    }

    /** `createSqlResult(rows, fields, outputParams)`: a flat table is kept
        whole; otherwise the loop keeps the iterable entries in `data` and
        lets every other entry overwrite `resultSetHeader`; a bare object is
        the header itself. */
    method CreateSqlResult(rows: Payload, fields: seq<FieldPacket>, outputParams: OutParams)
      returns (callRes: SqlResult)
      ensures fresh(callRes)
      ensures callRes.View() == Envelope(rows, fields, outputParams)
    {
      callRes := new SqlResult(fields, outputParams);
      match rows
      case Bare(header) =>
        callRes.resultSetHeader := header;
      case Arr(entries) =>
        if IsFlat(entries) {
          callRes.data := entries;
          return;
        }
        var data: seq<Entry> := [];
        var i := 0;
        while i < |entries|
          invariant 0 <= i <= |entries|
          invariant data == RowSets(entries[..i])
          invariant callRes.resultSetHeader == LastRecord(entries[..i], map[])
          invariant callRes.data == [] && callRes.fields == fields && callRes.outParams == outputParams
        {
          assert entries[..i + 1][..i] == entries[..i];
          if Iterable(entries[i]) {
            data := data + [entries[i]];
          } else {
            callRes.resultSetHeader := entries[i].fields;
          }
          i := i + 1;
        }
        assert entries[..i] == entries;
        callRes.data := data;
    }
  }

  /** Normalising the parameters twice changes nothing more. */
  lemma NullForUndefinedIdempotent(m: map<string, Value>)
    ensures NullForUndefined(NullForUndefined(m)) == NullForUndefined(m)
  {
  }

  /** A statement with at most one `;` is never reported as multi-statement,
      and neither is any SQL when `multiStatements` was left undefined. */
  lemma OriginalErrorKept(sql: string, multiStatements: Option<bool>, e: Error)
    requires Count(sql, ';') <= 1 || multiStatements != Some(false)
    ensures QueryError(sql, multiStatements, e) == e
  {
  }

  /** Two `;`-terminated statements are reported as multi-statement when the
      option is false, with the driver's message kept at the end. */
  lemma {:induction false} TwoStatementsReported(first: string, second: string, e: Error)
    ensures QueryError(first + ";" + second + ";", Some(false), e) ==
      Error(PlainErrorKind, MultiStatementMessage + e.message)
  {
    CountAppend(first + ";" + second, ";", ';');
    CountAppend(first + ";", second, ';');
    CountAppend(first, ";", ';');
  }

  /** Every OUT parameter's session variable `@name` is a column of the
      follow-up SELECT; `getOutputVal(name)` reads exactly that column when
      the name lacks `@`, and a different key (the name itself) otherwise. */
  lemma {:induction false} OutParamReadBack(params: seq<SqlParam>, i: int)
    requires 0 <= i < |params| && params[i].dir == Out
    ensures "@" + params[i].name in OutVars(params)
    ensures OutputKey(params[i].name) == "@" + params[i].name <==> !StartsWith(params[i].name, "@")
    ensures !StartsWith(params[i].name, "@") ==> OutputKey(params[i].name) in OutVars(params)
  {
    GroupsAppend(params[..i], params[i..]);
    assert params[..i] + params[i..] == params;
    GroupsAppend([params[i]], params[i + 1..]);
    assert [params[i]] + params[i + 1..] == params[i..];
    assert OutVars([params[i]]) == ["@" + params[i].name];
  }

  /** For a plain table of rows, `exists` holds exactly when the data a
      `query` of the same payload would return is non-empty. */
  lemma ExistsMatchesFlatData(rows: Payload)
    requires rows.Arr? && IsFlat(rows.entries)
    ensures HasRows(rows) <==> Envelope(rows, [], NullOut).data != []
  {
  }
}
