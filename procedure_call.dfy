/** Stored-procedure parameters and the text of `CALL proc(...)`: IN
    parameters become `?` placeholders with a bound value, OUT parameters
    become session variables `@name` written into the statement, and a
    follow-up `SELECT @a,@b;` reads those variables back. */
module ProcedureCall {
  import opened JsValues

  /** The declared direction; anything other than `in` is handled as OUT. */
  datatype Dir = In | Out

  /** `SqlParam(name, value, dir)`; its fields are only read after construction. */
  datatype SqlParam = SqlParam(name: string, value: Value, dir: Dir)

  /** One `?` per IN parameter, in order. */
  function InPlaceholders(ps: seq<SqlParam>): seq<string>
  {
    if |ps| == 0 then []
    else InPlaceholders(ps[..|ps| - 1]) + (if ps[|ps| - 1].dir == In then ["?"] else [])
  }

  /** The values of the IN parameters, in order. */
  function InValues(ps: seq<SqlParam>): seq<Value>
  {
    if |ps| == 0 then []
    else InValues(ps[..|ps| - 1]) + (if ps[|ps| - 1].dir == In then [ps[|ps| - 1].value] else [])
  }

  /** One `??` per OUT parameter; only their number is ever used. */
  function OutPlaceholders(ps: seq<SqlParam>): seq<string>
  {
    if |ps| == 0 then []
    else OutPlaceholders(ps[..|ps| - 1]) + (if ps[|ps| - 1].dir == In then [] else ["??"])
  }

  /** `@name` for each OUT parameter, in order. */
  function OutVars(ps: seq<SqlParam>): seq<string>
  {
    if |ps| == 0 then []
    else OutVars(ps[..|ps| - 1]) + (if ps[|ps| - 1].dir == In then [] else ["@" + ps[|ps| - 1].name])
  }

  function AsStrings(xs: seq<string>): (vs: seq<Value>)
    ensures |vs| == |xs| && forall i :: 0 <= i < |xs| ==> vs[i] == Str(xs[i])
  {
    if |xs| == 0 then [] else [Str(xs[0])] + AsStrings(xs[1..])
  }

  /** The text between the parentheses: IN placeholders, then OUT variables. */
  function ArgList(ps: seq<SqlParam>): string
  {
    Join(InPlaceholders(ps) + OutVars(ps), ",")
  }

  function CallSql(proc: string, ps: seq<SqlParam>): string
  {
    "CALL " + proc + "(" + ArgList(ps) + ");"
  }

  /** What is passed to `execute` with the CALL: `inV.concat(outV)`. */
  function BindValues(ps: seq<SqlParam>): seq<Value>
  {
    InValues(ps) + AsStrings(OutVars(ps))
  }

  /** The follow-up statement that reads the OUT variables. */
  function OutSelectSql(ps: seq<SqlParam>): string
  {
    "SELECT " + Join(OutVars(ps), ",") + ";"
  }

  predicate HasOutParam(ps: seq<SqlParam>) {
    exists i :: 0 <= i < |ps| && ps[i].dir != In
  }

  /** The statement-building half of `call`: the loop over the parameters
      that feeds `addParam`, and the concatenation of the SQL text. */
  method BuildCallStatement(proc: string, params: seq<SqlParam>)
    returns (sql: string, binds: seq<Value>, outPH: seq<string>, outV: seq<string>)
    ensures sql == CallSql(proc, params)
    ensures binds == BindValues(params)
    ensures outPH == OutPlaceholders(params) && outV == OutVars(params)
    ensures |params| == 0 ==> ArgList(params) == "" && binds == [] && outPH == []
  {
    sql := "CALL " + proc + "(";
    var inPH: seq<string> := [];
    var inV: seq<Value> := [];
    outPH, outV := [], [];
    var i := 0;
    while i < |params|
      invariant 0 <= i <= |params|
      invariant inPH == InPlaceholders(params[..i]) && inV == InValues(params[..i])
      invariant outPH == OutPlaceholders(params[..i]) && outV == OutVars(params[..i])
    {
      var p := params[i];
      assert params[..i + 1][..i] == params[..i];
      if p.dir == In {
        inPH := inPH + ["?"];
        inV := inV + [p.value];
      } else {
        outPH := outPH + ["??"];
        outV := outV + ["@" + p.name];
      }
      i := i + 1;
    }
    assert params[..i] == params;
    sql := sql + Join(inPH + outV, ",");
    sql := sql + ");";
    binds := inV + AsStrings(outV);
  }

  /** With no parameters the statement is exactly `CALL proc();`. */
  lemma NoParamCall(proc: string)
    ensures CallSql(proc, []) == "CALL " + proc + "();"
    ensures BindValues([]) == [] && OutPlaceholders([]) == []
  {
  }

  /** Every parameter lands in exactly one group, and each group has one
      placeholder per value. */
  lemma {:induction false} GroupSizes(ps: seq<SqlParam>)
    ensures |InPlaceholders(ps)| == |InValues(ps)|
    ensures |OutPlaceholders(ps)| == |OutVars(ps)|
    ensures |InValues(ps)| + |OutVars(ps)| == |ps|
    ensures forall j :: 0 <= j < |InPlaceholders(ps)| ==> InPlaceholders(ps)[j] == "?"
  {
    if |ps| > 0 {
      GroupSizes(ps[..|ps| - 1]);
    }
  }

  /** Order within each group is the order of the parameter list: building
      the groups of `a + b` is building those of `a`, then those of `b`. */
  lemma GroupsAppend(a: seq<SqlParam>, b: seq<SqlParam>)
    ensures InPlaceholders(a + b) == InPlaceholders(a) + InPlaceholders(b)
    ensures InValues(a + b) == InValues(a) + InValues(b)
    ensures OutPlaceholders(a + b) == OutPlaceholders(a) + OutPlaceholders(b)
    ensures OutVars(a + b) == OutVars(a) + OutVars(b)
  {
    InGroupsAppend(a, b);
    OutGroupsAppend(a, b);
  }

  lemma {:induction false} InGroupsAppend(a: seq<SqlParam>, b: seq<SqlParam>)
    ensures InPlaceholders(a + b) == InPlaceholders(a) + InPlaceholders(b)
    ensures InValues(a + b) == InValues(a) + InValues(b)
  {
    if |b| == 0 {
      assert a + b == a;
    } else {
      var ab := a + b;
      assert ab[..|ab| - 1] == a + b[..|b| - 1];
      InGroupsAppend(a, b[..|b| - 1]);
    }
  }

  lemma {:induction false} OutGroupsAppend(a: seq<SqlParam>, b: seq<SqlParam>)
    ensures OutPlaceholders(a + b) == OutPlaceholders(a) + OutPlaceholders(b)
    ensures OutVars(a + b) == OutVars(a) + OutVars(b)
  {
    if |b| == 0 {
      assert a + b == a;
    } else {
      var ab := a + b;
      assert ab[..|ab| - 1] == a + b[..|b| - 1];
      OutGroupsAppend(a, b[..|b| - 1]);
    }
  }

  /** The follow-up SELECT is needed (there is an OUT placeholder) exactly
      when some parameter is not an IN parameter. */
  lemma {:induction false} OutSelectNeededIff(ps: seq<SqlParam>)
    ensures |OutPlaceholders(ps)| > 0 <==> HasOutParam(ps)
  {
    if |ps| > 0 {
      var prefix := ps[..|ps| - 1];
      OutSelectNeededIff(prefix);
      if HasOutParam(prefix) {
        var i :| 0 <= i < |prefix| && prefix[i].dir != In;
        assert ps[i] == prefix[i];
      }
      if HasOutParam(ps) && ps[|ps| - 1].dir == In {
        var i :| 0 <= i < |ps| && ps[i].dir != In;
        assert prefix[i] == ps[i];
      }
    }
  }

  lemma {:induction false} OutVarsNoComma(ps: seq<SqlParam>)
    requires forall i :: 0 <= i < |ps| && ps[i].dir == Out ==> ',' !in ps[i].name
    ensures forall j :: 0 <= j < |OutVars(ps)| ==> ',' !in OutVars(ps)[j]
  {
    if |ps| > 0 {
      OutVarsNoComma(ps[..|ps| - 1]);
    }
  }

  /** Reading the argument list back: splitting it at `,` gives every IN `?`
      followed by every OUT `@name`, provided no OUT name contains a comma. */
  lemma {:induction false} ArgListRoundTrip(ps: seq<SqlParam>)
    requires |ps| > 0
    requires forall i :: 0 <= i < |ps| && ps[i].dir == Out ==> ',' !in ps[i].name
    ensures Split(ArgList(ps), ',') == InPlaceholders(ps) + OutVars(ps)
  {
    var args := InPlaceholders(ps) + OutVars(ps);
    GroupSizes(ps);
    OutVarsNoComma(ps);
    assert forall j :: 0 <= j < |args| ==> ',' !in args[j] by {
      forall j | 0 <= j < |args| ensures ',' !in args[j] {
        if j < |InPlaceholders(ps)| {
          assert args[j] == "?";
        } else {
          assert args[j] == OutVars(ps)[j - |InPlaceholders(ps)|];
        }
      }
    }
    SplitJoin(args, ',');
  }

  /** The CALL text holds one `?` per IN parameter, besides any `?` in the
      procedure name, which is pasted in unchecked, provided no OUT name holds
      a `?` (IN names never reach the text); yet the values bound with it are
      the IN values followed by the OUT variable names. */
  lemma {:induction false} PlaceholdersAndBinds(proc: string, ps: seq<SqlParam>)
    requires forall i :: 0 <= i < |ps| && ps[i].dir == Out ==> '?' !in ps[i].name
    ensures Count(ArgList(ps), '?') == |InValues(ps)|
    ensures Count(CallSql(proc, ps), '?') == Count(proc, '?') + |InValues(ps)|
    ensures |BindValues(ps)| == |InValues(ps)| + |OutVars(ps)|
    ensures BindValues(ps)[..|InValues(ps)|] == InValues(ps)
  {
    GroupSizes(ps);
    CountJoin(InPlaceholders(ps) + OutVars(ps));
    PiecesCount(ps);
    CountAppend("CALL " + proc + "(" + ArgList(ps), ");", '?');
    CountAppend("CALL " + proc + "(", ArgList(ps), '?');
    CountAppend("CALL " + proc, "(", '?');
    CountAppend("CALL ", proc, '?');
  }

  /** The total number of `?` in a list of pieces. */
  function CountAll(xs: seq<string>): nat
  {
    if |xs| == 0 then 0 else Count(xs[0], '?') + CountAll(xs[1..])
  }

  lemma {:induction false} CountAllAppend(a: seq<string>, b: seq<string>)
    ensures CountAll(a + b) == CountAll(a) + CountAll(b)
  {
    if |a| > 0 {
      assert (a + b)[1..] == a[1..] + b;
      CountAllAppend(a[1..], b);
    } else {
      assert a + b == b;
    }
  }

  /** Joining with `,` adds no `?`. */
  lemma {:induction false} CountJoin(xs: seq<string>)
    ensures Count(Join(xs, ","), '?') == CountAll(xs)
  {
    if |xs| > 1 {
      CountJoin(xs[1..]);
      CountAppend(xs[0] + ",", Join(xs[1..], ","), '?');
      CountAppend(xs[0], ",", '?');
    } else if |xs| == 1 {
      assert xs[1..] == [];
    }
  }

  lemma {:induction false} PiecesCount(ps: seq<SqlParam>)
    requires forall i :: 0 <= i < |ps| && ps[i].dir == Out ==> '?' !in ps[i].name
    ensures CountAll(InPlaceholders(ps)) == |InValues(ps)|
    ensures CountAll(OutVars(ps)) == 0
    ensures CountAll(InPlaceholders(ps) + OutVars(ps)) == |InValues(ps)|
  {
    if |ps| > 0 {
      var prefix := ps[..|ps| - 1];
      var p := ps[|ps| - 1];
      PiecesCount(prefix);
      if p.dir == In {
        CountAllAppend(InPlaceholders(prefix), ["?"]);
        assert Count("?", '?') == 1 by { assert "?"[1..] == ""; }
        assert CountAll(["?"]) == 1 by { assert ["?"][1..] == []; }
        assert InPlaceholders(ps) == InPlaceholders(prefix) + ["?"];
        assert InValues(ps) == InValues(prefix) + [p.value];
        assert OutVars(ps) == OutVars(prefix) + [] == OutVars(prefix);
      } else {
        CountAllAppend(OutVars(prefix), ["@" + p.name]);
        CountAppend("@", p.name, '?');
        assert CountAll(["@" + p.name]) == 0 by { assert ["@" + p.name][1..] == []; }
        assert OutVars(ps) == OutVars(prefix) + ["@" + p.name];
        assert InPlaceholders(ps) == InPlaceholders(prefix) + [] == InPlaceholders(prefix);
        assert InValues(ps) == InValues(prefix) + [] == InValues(prefix);
      }
    }
    CountAllAppend(InPlaceholders(ps), OutVars(ps));
  }
}
