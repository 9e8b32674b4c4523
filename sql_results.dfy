/** The result envelope every repository reads: the row sets of the
    statements, the column metadata, the OUT parameters of a procedure call,
    and the write summary of the last INSERT, UPDATE or DELETE. */
module SqlResults {
  import opened JsValues
  import opened Driver

  /** `outParams`: `null` when a call declared no OUT parameter, `undefined`
      when the follow-up SELECT produced no row, otherwise the first entry of
      that SELECT (or `{}`, which `query` passes). */
  datatype OutParams = NullOut | UndefinedOut | OutEntry(entry: Entry)

  /** What `getData` hands back: the whole `data`, one element of it, or
      `undefined` for an index outside it. */
  datatype DataView = Whole(sets: seq<Entry>) | Item(entry: Entry) | Missing

  /** The four fields of a result, as one value. */
  datatype ResultView = ResultView(data: seq<Entry>, fields: seq<FieldPacket>, outParams: OutParams, header: Row)

  /** The key an output parameter is stored under: the session variable
      name, which always starts with `@`. */
  function OutputKey(name: string): (key: string)
    ensures StartsWith(key, "@")
    ensures key == name <==> StartsWith(name, "@")
    ensures key != name ==> key == "@" + name
  {
    if StartsWith(name, "@") then name else "@" + name
  }

  /** A name and the same name with `@` in front address the same key. */
  lemma PrefixedNameSameKey(name: string)
    requires !StartsWith(name, "@")
    ensures OutputKey(name) == OutputKey("@" + name) == "@" + name
  {
  }

  /** The error JavaScript throws when a property is read from `null` or `undefined`. */
  function ReadOfNothing(what: string, key: string): Error
  {
    Error(TypeErrorKind, "Cannot read properties of " + what + " (reading '" + key + "')")
  }

  class SqlResult {
    var data: seq<Entry>
    var fields: seq<FieldPacket>
    var outParams: OutParams
    var resultSetHeader: Row

    constructor (fields: seq<FieldPacket>, outParams: OutParams)
      ensures View() == ResultView([], fields, outParams, map[])
    {
      data := [];
      this.fields := fields;
      this.outParams := outParams;
      resultSetHeader := map[];
    }

    function View(): ResultView
      reads this
    {
      ResultView(data, fields, outParams, resultSetHeader)
    }

    /** `getOutputVal(name)`: the OUT value stored under `OutputKey(name)`,
        `undefined` when there is no such key, and a thrown TypeError when
        there are no output parameters at all. */
    function GetOutputVal(name: string): (r: Result<Value, Error>)
      reads this
      ensures r.Failure? <==> outParams == NullOut || outParams == UndefinedOut
      ensures r.Failure? ==> r.error.kind == TypeErrorKind
      ensures outParams.OutEntry? && outParams.entry.Record? && OutputKey(name) in outParams.entry.fields ==>
        r == Success(outParams.entry.fields[OutputKey(name)])
      ensures outParams.OutEntry? && (outParams.entry.RowSet? || OutputKey(name) !in outParams.entry.fields) ==>
        r == Success(Undefined)
    {
      var key := OutputKey(name);
      match outParams
      case NullOut => Failure(ReadOfNothing("null", key))
      case UndefinedOut => Failure(ReadOfNothing("undefined", key))
      case OutEntry(RowSet(_)) => Success(Undefined)
      case OutEntry(Record(row)) => Success(if key in row then row[key] else Undefined)
    }

    /** `getOutputJsonVal(name)`: the same lookup, then `parse` (JSON.parse,
        which may itself throw) applied to the value found. */
    function GetOutputJsonVal(name: string, parse: Value -> Result<Value, Error>): (r: Result<Value, Error>)
      reads this
      ensures GetOutputVal(name).Failure? ==> r == GetOutputVal(name)
      ensures GetOutputVal(name).Success? ==> r == parse(GetOutputVal(name).value)
    {
      match GetOutputVal(name)
      case Failure(e) => Failure(e)
      case Success(v) => parse(v)
    }

    /** `getData(idx = -1)`: all of `data` for -1, else `data[idx]`, which is
        `undefined` outside the array. */
    function GetData(idx: int := -1): (r: DataView)
      reads this
      ensures idx == -1 <==> r.Whole?
      ensures r.Whole? ==> r.sets == data
      ensures r.Item? <==> 0 <= idx < |data|
      ensures r.Item? ==> r.entry == data[idx]
    {
      if idx == -1 then Whole(data)
      else if 0 <= idx < |data| then Item(data[idx])
      else Missing
    }

    /** Reading an OUT parameter by `n` or by `@n` gives the same answer,
        raw or parsed. */
    lemma OutputNamePrefixInsensitive(name: string, parse: Value -> Result<Value, Error>)
      requires !StartsWith(name, "@")
      ensures GetOutputVal(name) == GetOutputVal("@" + name)
      ensures GetOutputJsonVal(name, parse) == GetOutputJsonVal("@" + name, parse)
    {
      PrefixedNameSameKey(name);
    }
  }
}
