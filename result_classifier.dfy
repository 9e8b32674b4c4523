/** How `createSqlResult` splits a driver payload into the ordered row sets
    (`data`) and the write summary (`resultSetHeader`). The split is
    duck-typed: an entry is a row set when it is iterable, and a plain object
    is a write summary when its keys include the six summary keys. */
module ResultClassifier {
  import opened JsValues
  import opened Driver

  /** The keys every write summary (mysql2's ResultSetHeader) carries. */
  const HeaderKeys: set<string> :=
    {"fieldCount", "affectedRows", "insertId", "info", "serverStatus", "warningStatus"}

  /** `isResultSetHeader(obj)`: all six summary keys are among the object's keys. */
  predicate IsResultSetHeader(obj: Row)
    ensures IsResultSetHeader(obj) <==> HeaderKeys <= obj.Keys
  {
    && "fieldCount" in obj
    && "affectedRows" in obj
    && "insertId" in obj
    && "info" in obj
    && "serverStatus" in obj
    && "warningStatus" in obj
  }

  /** `typeof e[Symbol.iterator] === "function"`. */
  predicate Iterable(e: Entry) {
    e.RowSet?
  }

  /** The array is one flat table of rows: it is empty, or its first element is
      neither iterable nor shaped like a write summary. */
  predicate IsFlat(entries: seq<Entry>) {
    |entries| == 0 || (!Iterable(entries[0]) && !IsResultSetHeader(entries[0].fields))
  }

  /** The iterable entries, in their original order. */
  function RowSets(entries: seq<Entry>): (r: seq<Entry>)
    ensures |r| <= |entries|
    ensures forall i :: 0 <= i < |r| ==> Iterable(r[i])
  {
    if |entries| == 0 then []
    else
      var last := entries[|entries| - 1];
      RowSets(entries[..|entries| - 1]) + (if Iterable(last) then [last] else [])
  }

  /** The fields of the last non-iterable entry, or `init` when there is none. */
  function LastRecord(entries: seq<Entry>, init: Row): Row
  {
    if |entries| == 0 then init
    else
      var last := entries[|entries| - 1];
      if Iterable(last) then LastRecord(entries[..|entries| - 1], init) else last.fields
  }

  /** What `createSqlResult` stores in `data` and `resultSetHeader`. */
  datatype Classification = Classification(data: seq<Entry>, header: Row)

  function Classify(payload: Payload): (c: Classification)
    ensures payload.Bare? ==> c.data == [] && c.header == payload.fields
    ensures payload.Arr? && IsFlat(payload.entries) ==>
      c.data == payload.entries && c.header == map[]
    ensures payload.Arr? && !IsFlat(payload.entries) ==>
      |c.data| <= |payload.entries| && forall i :: 0 <= i < |c.data| ==> Iterable(c.data[i])
  {
    match payload
    case Bare(fields) => Classification([], fields)
    case Arr(entries) =>
      if IsFlat(entries) then Classification(entries, map[])
      else Classification(RowSets(entries), LastRecord(entries, map[]))
  }

  /** Keeping row sets commutes with concatenation: the order of the payload
      is the order of `data`. */
  lemma {:induction false} RowSetsAppend(a: seq<Entry>, b: seq<Entry>)
    ensures RowSets(a + b) == RowSets(a) + RowSets(b)
  {
    if |b| == 0 {
      assert a + b == a;
    } else {
      var b' := b[..|b| - 1];
      assert (a + b)[..|a + b| - 1] == a + b';
      RowSetsAppend(a, b');
    }
  }

  /** An entry is kept exactly when it is in the payload and iterable. */
  lemma {:induction false} RowSetsMembers(entries: seq<Entry>, e: Entry)
    ensures e in RowSets(entries) <==> e in entries && Iterable(e)
  {
    if |entries| > 0 {
      var init := entries[..|entries| - 1];
      RowSetsMembers(init, e);
      assert entries == init + [entries[|entries| - 1]];
    }
  }

  /** A payload made only of row sets is kept whole. */
  lemma {:induction false} RowSetsAllIterable(entries: seq<Entry>)
    requires forall i :: 0 <= i < |entries| ==> Iterable(entries[i])
    ensures RowSets(entries) == entries
  {
    if |entries| > 0 {
      RowSetsAllIterable(entries[..|entries| - 1]);
      assert entries == entries[..|entries| - 1] + [entries[|entries| - 1]];
    }
  }

  /** Overwriting in order: the summary after `a + b` is the one `b` leaves
      when started from the one `a` left. */
  lemma {:induction false} LastRecordAppend(a: seq<Entry>, b: seq<Entry>, init: Row)
    ensures LastRecord(a + b, init) == LastRecord(b, LastRecord(a, init))
  {
    if |b| == 0 {
      assert a + b == a;
    } else {
      var b' := b[..|b| - 1];
      assert (a + b)[..|a + b| - 1] == a + b';
      LastRecordAppend(a, b', init);
    }
  }

  /** The summary is `init` when every entry is iterable; otherwise it is the
      fields of a non-iterable entry after which only row sets follow. */
  lemma {:induction false} LastRecordIsLast(entries: seq<Entry>, init: Row)
    ensures (forall i :: 0 <= i < |entries| ==> Iterable(entries[i])) ==>
      LastRecord(entries, init) == init
    ensures (exists i :: 0 <= i < |entries| && !Iterable(entries[i])) ==>
      exists j :: 0 <= j < |entries| && entries[j] == Record(LastRecord(entries, init)) &&
        forall k :: j < k < |entries| ==> Iterable(entries[k])
  {
    if |entries| > 0 {
      var n := |entries| - 1;
      var prefix := entries[..n];
      LastRecordIsLast(prefix, init);
      if Iterable(entries[n]) {
        assert forall i :: 0 <= i < n ==> prefix[i] == entries[i];
        if exists i :: 0 <= i < |entries| && !Iterable(entries[i]) {
          var i :| 0 <= i < |entries| && !Iterable(entries[i]);
          assert !Iterable(prefix[i]);
        }
      } else {
        assert entries[n] == Record(LastRecord(entries, init));
      }
    }
  }

  /** Of two summaries, the later one is reported and the earlier one is
      discarded, whatever row sets come between or after them. */
  lemma {:induction false} LaterSummaryWins(before: seq<Entry>, first: Row, between: seq<Entry>,
                                           second: Row, after: seq<Entry>)
    requires forall i :: 0 <= i < |after| ==> Iterable(after[i])
    ensures LastRecord(before + [Record(first)] + between + [Record(second)] + after, map[]) == second
  {
    var prefix := before + [Record(first)] + between;
    LastRecordAppend(prefix + [Record(second)], after, map[]);
    LastRecordIsLast(after, LastRecord(prefix + [Record(second)], map[]));
    assert (prefix + [Record(second)])[..|prefix|] == prefix;
  }

  /** The multi-result case in full: `data` holds exactly the iterable
      entries, in payload order, and `resultSetHeader` is the last
      non-iterable entry, or `{}` when there is none. */
  lemma {:induction false} ClassifyMultiple(entries: seq<Entry>)
    requires !IsFlat(entries)
    ensures var c := Classify(Arr(entries));
      && (forall e :: e in c.data <==> e in entries && Iterable(e))
      && (forall k :: 0 <= k <= |entries| ==>
            c.data == RowSets(entries[..k]) + RowSets(entries[k..]))
      && ((forall i :: 0 <= i < |entries| ==> Iterable(entries[i])) ==>
            c.data == entries && c.header == map[])
      && ((exists i :: 0 <= i < |entries| && !Iterable(entries[i])) ==>
            exists j :: 0 <= j < |entries| && entries[j] == Record(c.header) &&
              forall k :: j < k < |entries| ==> Iterable(entries[k]))
  {
    var c := Classify(Arr(entries));
    forall e ensures e in c.data <==> e in entries && Iterable(e) {
      RowSetsMembers(entries, e);
    }
    forall k | 0 <= k <= |entries|
      ensures c.data == RowSets(entries[..k]) + RowSets(entries[k..])
    {
      RowSetsAppend(entries[..k], entries[k..]);
      assert entries[..k] + entries[k..] == entries;
    }
    if forall i :: 0 <= i < |entries| ==> Iterable(entries[i]) {
      RowSetsAllIterable(entries);
    }
    LastRecordIsLast(entries, map[]);
  }
}
