/** Append: the two conditional INSERT statements, the specification both refine, and the conflict check. */
module Appending {
  import opened Filters
  import opened WhereClause
  import opened Streams

  // ---- the specification ----

  datatype AppendResult = Appended | ConcurrencyConflict

  /** The rows that inserting the events adds: consecutive sequence numbers from the next value on. */
  function Numbered(next: nat, events: seq<Event>): (r: seq<StoredEvent>)
    ensures |r| == |events|
    ensures forall i | 0 <= i < |r| :: r[i] == StoredEvent(next + i, events[i])
  {
    seq(|events|, i requires 0 <= i < |events| => StoredEvent(next + i, events[i]))
  }

  function Insert(t: EventsTable, events: seq<Event>): EventsTable {
    EventsTable(t.rows + Numbered(t.next, events), t.next + |events|)
  }

  /** All events in order if the filter's maximum is the expected one, otherwise nothing. */
  function AppendTo(t: EventsTable, f: Filter, expected: nat, events: seq<Event>): (EventsTable, AppendResult) {
    if events == [] then (t, Appended)
    else if CurrentMax(f, t.rows) == expected then (Insert(t, events), Appended)
    else (t, ConcurrencyConflict)
  }

  // ---- the statements ----

  /** SELECT of one event's values, and UNION ALL of two such statements. */
  datatype ValuesStmt = SelectOne(event: Event) | UnionAll(left: ValuesStmt, right: ValuesStmt)

  function Rows(stmt: ValuesStmt): seq<Event> {
    match stmt
    case SelectOne(event) => [event]
    case UnionAll(left, right) => Rows(left) + Rows(right)
  }

  /** Both forms carry the context's WHERE clause, the values and the expected maximum. */
  datatype InsertStmt =
    | InsertSingle(context: Expr, event: Event, expected: nat)
    | InsertMultiple(context: Expr, vals: ValuesStmt, expected: nat)

  /** The context CTE: an aggregate without GROUP BY, hence always one row. */
  function ContextRows(rows: seq<StoredEvent>, context: Expr): seq<Nullable> {
    [MaxSequence(rows, context)]
  }

  /** FROM context WHERE COALESCE(max_seq, 0) = expected, selecting constants. */
  function SelectConstant(context: seq<Nullable>, event: Event, expected: nat): seq<Event> {
    if context == [] then []
    else (if Coalesce(context[0], 0) == expected then [event] else []) + SelectConstant(context[1..], event, expected)
  }

  /** FROM context, vals WHERE COALESCE(max_seq, 0) = expected: every pair of rows that passes. */
  function SelectVals(context: seq<Nullable>, vals: seq<Event>, expected: nat): seq<Event> {
    if context == [] then []
    else JoinOneContextRow(context[0], vals, expected) + SelectVals(context[1..], vals, expected)
  }

  function JoinOneContextRow(max: Nullable, vals: seq<Event>, expected: nat): seq<Event> {
    if vals == [] then []
    else (if Coalesce(max, 0) == expected then [vals[0]] else []) + JoinOneContextRow(max, vals[1..], expected)
  }

  function SelectedForInsert(rows: seq<StoredEvent>, stmt: InsertStmt): seq<Event> {
    var context := ContextRows(rows, stmt.context);
    match stmt
    case InsertSingle(_, event, expected) => SelectConstant(context, event, expected)
    case InsertMultiple(_, vals, expected) => SelectVals(context, Rows(vals), expected)
  }

  /** Running the statement: the new table and the number of rows affected. */
  function RunInsert(t: EventsTable, stmt: InsertStmt): (EventsTable, nat) {
    var selected := SelectedForInsert(t.rows, stmt);
    (Insert(t, selected), |selected|)
  }

  // ---- building them ----

  method BuildInsertQueryForSingleEvent(event: Event, f: Filter, expected: nat) returns (stmt: InsertStmt)
    ensures stmt.InsertSingle? && Encodes(stmt, f, expected, [event])
  {
    var context := AddWhereClause(f);
    stmt := InsertSingle(context, event, expected);
  }

  method BuildInsertQueryForMultipleEvents(events: seq<Event>, f: Filter, expected: nat) returns (stmt: InsertStmt)
    requires |events| > 0
    ensures stmt.InsertMultiple? && Encodes(stmt, f, expected, events)
  {
    var context := AddWhereClause(f);
    var unionStatements := new ValuesStmt[|events|];
    for i := 0 to |events|
      invariant forall k | 0 <= k < i :: unionStatements[k] == SelectOne(events[k])
    {
      unionStatements[i] := SelectOne(events[i]);
    }
    var valuesStmt := unionStatements[0];
    for i := 1 to unionStatements.Length
      invariant Rows(valuesStmt) == events[..i]
    {
      valuesStmt := UnionAll(valuesStmt, unionStatements[i]);
    }
    assert events[..|events|] == events;
    stmt := InsertMultiple(context, valuesStmt, expected);
  }

  /** buildAppendQuery: the form depends on the number of events; zero events are an error. */
  datatype BuiltQuery = Built(stmt: InsertStmt) | CantBuildQueryForZeroEvents

  method BuildAppendQuery(events: seq<Event>, f: Filter, expected: nat) returns (query: BuiltQuery)
    ensures query.CantBuildQueryForZeroEvents? <==> events == []
    ensures query.Built? ==> Encodes(query.stmt, f, expected, events) && (query.stmt.InsertSingle? <==> |events| == 1)
  {
    if |events| == 0 {
      query := CantBuildQueryForZeroEvents;
    } else if |events| == 1 {
      var stmt := BuildInsertQueryForSingleEvent(events[0], f, expected);
      assert events == [events[0]];
      query := Built(stmt);
    } else {
      var stmt := BuildInsertQueryForMultipleEvents(events, f, expected);
      query := Built(stmt);
    }
  }

  /** A statement of either form for the filter, the expected maximum and the events. */
  predicate Encodes(stmt: InsertStmt, f: Filter, expected: nat, events: seq<Event>) {
    && stmt.context == Where(f) && stmt.expected == expected
    && (if stmt.InsertSingle? then [stmt.event] else Rows(stmt.vals)) == events
  }

  /** validateAppendResult. */
  function ValidateAppendResult(rowsAffected: nat, expectedEventCount: nat): AppendResult {
    if rowsAffected < expectedEventCount then ConcurrencyConflict else Appended
  }

  // ---- refinement ----

  lemma {:induction false} OneContextRowIsAllOrNothing(max: Nullable, vals: seq<Event>, expected: nat)
    ensures JoinOneContextRow(max, vals, expected) == if Coalesce(max, 0) == expected then vals else []
  {
    if vals != [] {
      OneContextRowIsAllOrNothing(max, vals[1..], expected);
      assert vals == [vals[0]] + vals[1..];
    }
  }

  lemma SelectedIsAllOrNothing(rows: seq<StoredEvent>, stmt: InsertStmt, f: Filter, expected: nat, events: seq<Event>)
    requires Encodes(stmt, f, expected, events)
    ensures SelectedForInsert(rows, stmt) == if CurrentMax(f, rows) == expected then events else []
  {
    var max := MaxSequence(rows, Where(f));
    if stmt.InsertMultiple? {
      OneContextRowIsAllOrNothing(max, events, expected);
      assert SelectVals([max], events, expected) == JoinOneContextRow(max, events, expected) + [];
    } else {
      assert SelectConstant([max], stmt.event, expected)
             == (if Coalesce(max, 0) == expected then [stmt.event] else []) + [];
    }
  }

  /**
    Either form, for any number of events, does what the specification says: the table afterwards, and the
    result validateAppendResult derives from the rows affected. A conflict is reported exactly when nothing changed.
   */
  lemma BothFormsRefineAppend(t: EventsTable, stmt: InsertStmt, f: Filter, expected: nat, events: seq<Event>)
    requires Encodes(stmt, f, expected, events) && events != []
    ensures var (u, rowsAffected) := RunInsert(t, stmt);
            && (u, ValidateAppendResult(rowsAffected, |events|)) == AppendTo(t, f, expected, events)
            && (ValidateAppendResult(rowsAffected, |events|).ConcurrencyConflict? <==> u == t)
            && (rowsAffected == 0 || rowsAffected == |events|)
  {
    SelectedIsAllOrNothing(t.rows, stmt, f, expected, events);
    assert Insert(t, []) == t;
  }

  // ---- properties of the specification ----

  lemma InsertExtends(t: EventsTable, events: seq<Event>)
    requires ValidTable(t)
    ensures ValidTable(Insert(t, events)) && Extends(t, Insert(t, events))
    ensures Events(Insert(t, events).rows) == Events(t.rows) + events
  {
  }

  lemma AppendExtends(t: EventsTable, f: Filter, expected: nat, events: seq<Event>)
    requires ValidTable(t)
    ensures var u := AppendTo(t, f, expected, events).0; ValidTable(u) && Extends(t, u)
  {
    InsertExtends(t, events);
  }

  /** Query then Append: with the queried maximum, events are appended exactly when no matching row came in between. */
  lemma QueryThenAppend(t: EventsTable, u: EventsTable, f: Filter, events: seq<Event>)
    requires ValidTable(t) && ValidTable(u) && Extends(t, u) && events != []
    ensures AppendTo(u, f, Query(f, t.rows).max, events).1.Appended?
            <==> forall i | |t.rows| <= i < |u.rows| :: !Matches(f, u.rows[i])
    ensures AppendTo(u, f, Query(f, t.rows).max, events).1.Appended?
            <==> Query(f, u.rows).events == Query(f, t.rows).events
  {
    SameMaxIffSameStream(f, t, u);
    MaxIsLastOfStream(f, t.rows);
    var before, after := Stream(f, t.rows), Stream(f, u.rows);
    if Events(before) == Events(after) {
      assert |before| == |after|;
      assert before == after;
    }
  }

  // ---- rivals: many clients with the same queried maximum ----

  /** At least one of the rows that an append now would add matches the filter. */
  ghost predicate Touches(t: EventsTable, f: Filter, events: seq<Event>) {
    exists row | row in Numbered(t.next, events) :: Matches(f, row)
  }

  /** The appends one after the other, all with the same filter and expected maximum. */
  function AppendAll(t: EventsTable, f: Filter, expected: nat, batches: seq<seq<Event>>)
    : (EventsTable, seq<AppendResult>)
    decreases |batches|
  {
    if batches == [] then (t, [])
    else
      var (u, result) := AppendTo(t, f, expected, batches[0]);
      var (v, results) := AppendAll(u, f, expected, batches[1..]);
      (v, [result] + results)
  }

  ghost predicate NoneEmpty(batches: seq<seq<Event>>) {
    forall i | 0 <= i < |batches| :: batches[i] != []
  }

  lemma {:induction false} LosersChangeNothing(t: EventsTable, f: Filter, expected: nat, batches: seq<seq<Event>>)
    requires CurrentMax(f, t.rows) != expected && NoneEmpty(batches)
    ensures var (u, results) := AppendAll(t, f, expected, batches);
            u == t && |results| == |batches| && forall i | 0 <= i < |results| :: results[i].ConcurrencyConflict?
    decreases |batches|
  {
    if batches != [] {
      LosersChangeNothing(t, f, expected, batches[1..]);
    }
  }

  /** An append moves its filter's maximum exactly when its events touch the filter. */
  lemma InsertMovesMaxIffTouching(t: EventsTable, f: Filter, events: seq<Event>)
    requires ValidTable(t)
    ensures CurrentMax(f, Insert(t, events).rows) != CurrentMax(f, t.rows) <==> Touches(t, f, events)
  {
    InsertExtends(t, events);
    SameMaxIffSameStream(f, t, Insert(t, events));
    AddedRows(t, events);
    AnyMatchByIndex(f, Numbered(t.next, events));
  }

  lemma AddedRows(t: EventsTable, events: seq<Event>)
    ensures var u, added := Insert(t, events), Numbered(t.next, events);
            && (forall k | 0 <= k < |added| :: u.rows[|t.rows| + k] == added[k])
            && (forall i | |t.rows| <= i < |u.rows| :: u.rows[i] == added[i - |t.rows|])
  {
    assert Insert(t, events).rows == t.rows + Numbered(t.next, events);
  }

  lemma AnyMatchByIndex(f: Filter, rows: seq<StoredEvent>)
    ensures (exists row | row in rows :: Matches(f, row)) <==> exists k | 0 <= k < |rows| :: Matches(f, rows[k])
  {
    if row :| row in rows && Matches(f, row) {
      var k :| 0 <= k < |rows| && rows[k] == row;
      assert Matches(f, rows[k]);
    }
    if k :| 0 <= k < |rows| && Matches(f, rows[k]) {
      assert rows[k] in rows;
    }
  }

  lemma MovedMaxStopsRivals(t: EventsTable, f: Filter, expected: nat, batches: seq<seq<Event>>)
    requires batches != [] && NoneEmpty(batches)
    requires CurrentMax(f, t.rows) == expected != CurrentMax(f, Insert(t, batches[0]).rows)
    ensures var (u, results) := AppendAll(t, f, expected, batches);
            && u == Insert(t, batches[0])
            && |results| == |batches|
            && forall i | 0 <= i < |results| :: results[i].Appended? <==> i == 0
  {
    LosersChangeNothing(Insert(t, batches[0]), f, expected, batches[1..]);
  }

  /**
    Any number of clients that queried the same filter on the same table: if the first one's events touch the
    filter, exactly the first append succeeds, and the table gains exactly its events.
   */
  lemma FirstRivalWins(t: EventsTable, f: Filter, batches: seq<seq<Event>>)
    requires ValidTable(t) && batches != [] && NoneEmpty(batches)
    requires Touches(t, f, batches[0])
    ensures var (u, results) := AppendAll(t, f, Query(f, t.rows).max, batches);
            && u == Insert(t, batches[0])
            && |results| == |batches|
            && forall i | 0 <= i < |results| :: results[i].Appended? <==> i == 0
  {
    MaxIsLastOfStream(f, t.rows);
    InsertMovesMaxIffTouching(t, f, batches[0]);
    MovedMaxStopsRivals(t, f, Query(f, t.rows).max, batches);
  }

  /** The table that the rival at position k meets. */
  function TableMet(t: EventsTable, f: Filter, expected: nat, batches: seq<seq<Event>>, k: nat): EventsTable
    requires k <= |batches|
  {
    AppendAll(t, f, expected, batches[..k]).0
  }

  /** None of the first k rivals' events touch the filter on the table that rival meets. */
  ghost predicate NoneTouched(t: EventsTable, f: Filter, expected: nat, batches: seq<seq<Event>>, k: nat)
    requires k <= |batches|
  {
    forall j | 0 <= j < k :: !Touches(TableMet(t, f, expected, batches, j), f, batches[j])
  }

  /** Without the first rival, the others meet the same tables. */
  lemma TableMetByOthers(t: EventsTable, f: Filter, expected: nat, batches: seq<seq<Event>>, k: nat)
    requires 0 < k <= |batches|
    ensures TableMet(t, f, expected, batches, k)
            == TableMet(AppendTo(t, f, expected, batches[0]).0, f, expected, batches[1..], k - 1)
  {
    assert batches[..k][1..] == batches[1..][..k - 1];
  }

  lemma NoneTouchedByOthers(t: EventsTable, f: Filter, expected: nat, batches: seq<seq<Event>>, k: nat)
    requires 0 < k <= |batches|
    ensures NoneTouched(t, f, expected, batches, k)
            <==> !Touches(t, f, batches[0])
                 && NoneTouched(AppendTo(t, f, expected, batches[0]).0, f, expected, batches[1..], k - 1)
  {
    var u, rest := AppendTo(t, f, expected, batches[0]).0, batches[1..];
    assert batches[..0] == [];
    assert TableMet(t, f, expected, batches, 0) == t;
    forall j | 0 < j < k
      ensures TableMet(t, f, expected, batches, j) == TableMet(u, f, expected, rest, j - 1) && batches[j] == rest[j - 1]
    {
      TableMetByOthers(t, f, expected, batches, j);
    }
    if NoneTouched(t, f, expected, batches, k) {
      forall j | 0 <= j < k - 1 ensures !Touches(TableMet(u, f, expected, rest, j), f, rest[j]) {
        assert !Touches(TableMet(t, f, expected, batches, j + 1), f, batches[j + 1]);
      }
    }
  }

  lemma {:induction false} RivalsFrom(t: EventsTable, f: Filter, expected: nat, batches: seq<seq<Event>>, k: nat)
    requires ValidTable(t) && NoneEmpty(batches) && k < |batches| && CurrentMax(f, t.rows) == expected
    ensures var results := AppendAll(t, f, expected, batches).1;
            |results| == |batches| && (results[k].Appended? <==> NoneTouched(t, f, expected, batches, k))
    decreases |batches|
  {
    var u, rest := AppendTo(t, f, expected, batches[0]).0, batches[1..];
    AppendExtends(t, f, expected, batches[0]);
    InsertMovesMaxIffTouching(t, f, batches[0]);
    if Touches(t, f, batches[0]) {
      MovedMaxStopsRivals(t, f, expected, batches);
    } else if rest != [] {
      RivalsFrom(u, f, expected, rest, if k == 0 then 0 else k - 1);
    }
    if k > 0 {
      NoneTouchedByOthers(t, f, expected, batches, k);
    }
  }

  /**
    Any number of clients that queried the same filter on the same table: each one succeeds if and only if no
    earlier one's events touched the filter on the table it met.
   */
  lemma RivalWinsIffNoneTouchedBefore(t: EventsTable, f: Filter, batches: seq<seq<Event>>, k: nat)
    requires ValidTable(t) && NoneEmpty(batches) && k < |batches|
    ensures var expected := Query(f, t.rows).max;
            var results := AppendAll(t, f, expected, batches).1;
            |results| == |batches| && (results[k].Appended? <==> NoneTouched(t, f, expected, batches, k))
  {
    MaxIsLastOfStream(f, t.rows);
    RivalsFrom(t, f, Query(f, t.rows).max, batches, k);
  }

  /** Of two rivals the second loses if and only if the first one's events touch the filter. */
  lemma SecondRivalLosesIffTouched(t: EventsTable, f: Filter, first: seq<Event>, second: seq<Event>)
    requires ValidTable(t) && first != [] && second != []
    ensures var expected := Query(f, t.rows).max;
            AppendTo(AppendTo(t, f, expected, first).0, f, expected, second).1.ConcurrencyConflict?
            <==> Touches(t, f, first)
  {
    MaxIsLastOfStream(f, t.rows);
    InsertMovesMaxIffTouching(t, f, first);
  }
}
