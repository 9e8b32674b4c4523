/** The database driver as the data layer sees it: untyped payloads, bind
    values, and a connection (or pool) that answers each statement. What the
    server answers is an abstract function of everything already run on the
    connection and of the new statement, so session variables set by one
    statement can be read by a later one on the same connection. */
module Driver {
  import opened JsValues

  /** A row object, column name to value. */
  type Row = map<string, Value>

  /** One top-level element of a driver payload: something iterable (the rows
      of one statement) or a plain object (a row, or a write summary). */
  datatype Entry = RowSet(rows: seq<Row>) | Record(fields: Row)

  /** What `execute`/`query` resolve to as `rows`: an array, or a bare object
      (the write summary of a single INSERT, UPDATE or DELETE). */
  datatype Payload = Arr(entries: seq<Entry>) | Bare(fields: Row)

  /** Column metadata handed back next to the rows; the data layer only passes it on. */
  datatype FieldPacket = FieldPacket(name: string)

  /** The second argument of `execute`/`query`: absent, positional (`?`) or named (`:key`). */
  datatype Binds = NoBinds | Positional(values: seq<Value>) | Named(named: map<string, Value>)

  /** `execute` (prepared statement) or `query` (text protocol, several statements allowed). */
  datatype Path = ExecutePath | QueryPath

  datatype Stmt = Stmt(path: Path, sql: string, binds: Binds)

  /** The settled promise: `[rows, fields]`, or a rejection. */
  datatype Reply = Answered(payload: Payload, fields: seq<FieldPacket>) | Failed(error: Error)

  /** A pool or a single connection. `log` is every statement it has run, in order. */
  class Connection {
    var log: seq<Stmt>
    const respond: (seq<Stmt>, Stmt) -> Reply

    constructor (respond: (seq<Stmt>, Stmt) -> Reply)
      ensures log == [] && this.respond == respond
    {
      log := [];
      this.respond := respond;
    }

    /** `conn.execute(sql, binds)`. */
    method Execute(sql: string, binds: Binds) returns (r: Reply)
      modifies this
      ensures log == old(log) + [Stmt(ExecutePath, sql, binds)]
      ensures r == respond(old(log), Stmt(ExecutePath, sql, binds))
    {
      r := respond(log, Stmt(ExecutePath, sql, binds));
      log := log + [Stmt(ExecutePath, sql, binds)];
    }

    /** `conn.query(sql, binds)`. */
    method Query(sql: string, binds: Binds) returns (r: Reply)
      modifies this
      ensures log == old(log) + [Stmt(QueryPath, sql, binds)]
      ensures r == respond(old(log), Stmt(QueryPath, sql, binds))
    {
      r := respond(log, Stmt(QueryPath, sql, binds));
      log := log + [Stmt(QueryPath, sql, binds)];
    }
  }
}
