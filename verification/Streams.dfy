/** The events table, the dynamic event stream a filter selects from it, and its maximum sequence number. */
module Streams {
  import opened Filters
  import opened WhereClause

  /**
    The events table: its rows in sequence order, and the next value of its sequence_number sequence.
    Sequence values may be skipped, never reused.
   */
  datatype EventsTable = EventsTable(rows: seq<StoredEvent>, next: nat)

  const EMPTY_TABLE := EventsTable([], 1)

  ghost predicate ValidTable(t: EventsTable) {
    && t.next >= 1
    && (forall i | 0 <= i < |t.rows| :: 1 <= t.rows[i].sequenceNumber < t.next)
    && (forall i, j | 0 <= i < j < |t.rows| :: t.rows[i].sequenceNumber < t.rows[j].sequenceNumber)
  }

  /** u is a later state of t: nothing changed or removed, only newer rows added. */
  ghost predicate Extends(t: EventsTable, u: EventsTable) {
    && t.rows <= u.rows && t.next <= u.next
    && (forall i | |t.rows| <= i < |u.rows| :: u.rows[i].sequenceNumber >= t.next)
  }

  lemma ExtendsIsTransitive(t: EventsTable, u: EventsTable, v: EventsTable)
    requires Extends(t, u) && Extends(u, v)
    ensures Extends(t, v)
  {
    assert forall i | 0 <= i < |u.rows| :: v.rows[i] == u.rows[i];
  }

  // ---- the SQL statements ----

  /** SELECT ... WHERE root ORDER BY sequence_number. */
  function SelectRows(rows: seq<StoredEvent>, root: Expr): seq<StoredEvent> {
    if rows == [] then []
    else
      var last := rows[|rows| - 1];
      SelectRows(rows[..|rows| - 1], root) + if Selected(root, last) then [last] else []
  }

  /** SELECT MAX(sequence_number) ... WHERE root: NULL over no rows. */
  datatype Nullable = Null | Value(n: nat)

  function MaxSequence(rows: seq<StoredEvent>, root: Expr): Nullable {
    if rows == [] then Null
    else
      var last, rest := rows[|rows| - 1], MaxSequence(rows[..|rows| - 1], root);
      if !Selected(root, last) then rest
      else if rest.Null? || rest.n < last.sequenceNumber then Value(last.sequenceNumber)
      else rest
  }

  function Coalesce(n: Nullable, default: nat): nat {
    if n.Null? then default else n.n
  }

  // ---- streams ----

  /** The dynamic event stream of a filter: the rows that match it, in sequence order. */
  function Stream(f: Filter, rows: seq<StoredEvent>): seq<StoredEvent> {
    if rows == [] then []
    else
      var last := rows[|rows| - 1];
      Stream(f, rows[..|rows| - 1]) + if Matches(f, last) then [last] else []
  }

  /** The StorableEvents of rows. */
  function Events(rows: seq<StoredEvent>): (r: seq<Event>)
    ensures |r| == |rows|
    ensures forall i | 0 <= i < |r| :: r[i] == rows[i].event
  {
    seq(|rows|, i requires 0 <= i < |rows| => rows[i].event)
  }

  /** The sequence number of the last row, 0 for none. */
  function LastSequence(rows: seq<StoredEvent>): nat {
    if rows == [] then 0 else rows[|rows| - 1].sequenceNumber
  }

  /** The expected maximum the append statement compares with. */
  function CurrentMax(f: Filter, rows: seq<StoredEvent>): nat {
    Coalesce(MaxSequence(rows, Where(f)), 0)
  }

  lemma {:induction false} SelectIsStream(f: Filter, rows: seq<StoredEvent>)
    ensures SelectRows(rows, Where(f)) == Stream(f, rows)
  {
    if rows != [] {
      SelectIsStream(f, rows[..|rows| - 1]);
      WhereSelectsMatching(f, rows[|rows| - 1]);
    }
  }

  lemma {:induction false} StreamConcat(f: Filter, a: seq<StoredEvent>, b: seq<StoredEvent>)
    ensures Stream(f, a + b) == Stream(f, a) + Stream(f, b)
  {
    if b == [] {
      assert a + b == a;
    } else {
      assert (a + b)[..|a + b| - 1] == a + b[..|b| - 1];
      StreamConcat(f, a, b[..|b| - 1]);
    }
  }

  /** A stream has exactly the matching rows. */
  lemma {:induction false} StreamElements(f: Filter, rows: seq<StoredEvent>, row: StoredEvent)
    ensures row in Stream(f, rows) <==> row in rows && Matches(f, row)
  {
    if rows != [] {
      StreamElements(f, rows[..|rows| - 1], row);
      assert rows == rows[..|rows| - 1] + [rows[|rows| - 1]];
    }
  }

  ghost predicate Increasing(rows: seq<StoredEvent>) {
    forall i, j | 0 <= i < j < |rows| :: rows[i].sequenceNumber < rows[j].sequenceNumber
  }

  lemma {:induction false} StreamIsIncreasing(f: Filter, rows: seq<StoredEvent>)
    requires Increasing(rows)
    ensures Increasing(Stream(f, rows))
  {
    if rows != [] {
      var init, last := rows[..|rows| - 1], rows[|rows| - 1];
      StreamIsIncreasing(f, init);
      var s := Stream(f, init);
      forall i | 0 <= i < |s| ensures s[i].sequenceNumber < last.sequenceNumber {
        StreamElements(f, init, s[i]);
        var k :| 0 <= k < |init| && init[k] == s[i];
        assert rows[k] == s[i];
      }
    }
  }

  /** MAX over the WHERE clause is the last row of the ordered stream; COALESCE gives 0 for an empty one. */
  lemma {:induction false} MaxIsLastOfStream(f: Filter, rows: seq<StoredEvent>)
    requires Increasing(rows)
    ensures CurrentMax(f, rows) == LastSequence(Stream(f, rows))
    ensures MaxSequence(rows, Where(f)).Null? <==> Stream(f, rows) == []
  {
    if rows != [] {
      var init, last := rows[..|rows| - 1], rows[|rows| - 1];
      MaxIsLastOfStream(f, init);
      WhereSelectsMatching(f, last);
      var s := Stream(f, init);
      if s != [] {
        var x := s[|s| - 1];
        StreamElements(f, init, x);
        var k :| 0 <= k < |init| && init[k] == x;
        assert rows[k] == x;
      }
    }
  }

  lemma NoStreamIffNoMatch(f: Filter, rows: seq<StoredEvent>)
    ensures Stream(f, rows) == [] <==> forall i | 0 <= i < |rows| :: !Matches(f, rows[i])
  {
    if Stream(f, rows) == [] {
      forall i | 0 <= i < |rows| ensures !Matches(f, rows[i]) {
        StreamElements(f, rows, rows[i]);
      }
    } else {
      StreamElements(f, rows, Stream(f, rows)[0]);
    }
  }

  /** What a later table adds to a stream: the matching ones among its new rows, from the earlier next value on. */
  lemma LaterStream(f: Filter, t: EventsTable, u: EventsTable) returns (newer: seq<StoredEvent>)
    requires Extends(t, u)
    ensures Stream(f, u.rows) == Stream(f, t.rows) + newer
    ensures forall i | 0 <= i < |newer| :: newer[i].sequenceNumber >= t.next
    ensures newer == [] <==> forall i | |t.rows| <= i < |u.rows| :: !Matches(f, u.rows[i])
  {
    var added := u.rows[|t.rows|..];
    assert u.rows == t.rows + added;
    StreamConcat(f, t.rows, added);
    newer := Stream(f, added);
    NoStreamIffNoMatch(f, added);
    assert forall i | |t.rows| <= i < |u.rows| :: u.rows[i] == added[i - |t.rows|];
    forall i | 0 <= i < |newer| ensures newer[i].sequenceNumber >= t.next {
      StreamElements(f, added, newer[i]);
      var k :| 0 <= k < |added| && added[k] == newer[i];
      assert u.rows[|t.rows| + k] == newer[i];
    }
  }

  /**
    The concurrency check sees every change: between a table and a later one the maximum is the same
    if and only if the stream is the same, that is, if and only if no matching row was added.
   */
  lemma SameMaxIffSameStream(f: Filter, t: EventsTable, u: EventsTable)
    requires ValidTable(t) && ValidTable(u) && Extends(t, u)
    ensures CurrentMax(f, u.rows) >= CurrentMax(f, t.rows)
    ensures CurrentMax(f, u.rows) == CurrentMax(f, t.rows) <==> Stream(f, u.rows) == Stream(f, t.rows)
    ensures Stream(f, u.rows) == Stream(f, t.rows) <==> forall i | |t.rows| <= i < |u.rows| :: !Matches(f, u.rows[i])
    ensures Stream(f, t.rows) <= Stream(f, u.rows)
  {
    MaxIsLastOfStream(f, t.rows);
    MaxIsLastOfStream(f, u.rows);
    LastIsBelowNext(f, t);
    var before := Stream(f, t.rows);
    var newer := LaterStream(f, t, u);
    assert before + [] == before;
    assert newer != [] ==> (before + newer)[|before + newer| - 1] == newer[|newer| - 1];
  }

  lemma LastIsBelowNext(f: Filter, t: EventsTable)
    requires ValidTable(t)
    ensures LastSequence(Stream(f, t.rows)) < t.next
  {
    var s := Stream(f, t.rows);
    if s != [] {
      StreamElements(f, t.rows, s[|s| - 1]);
    }
  }

  // ---- reading a result set ----

  /** What the driver hands over for one row: a scan failure, or values whose JSON may be malformed. */
  datatype Fetched = Unscannable | Scanned(row: StoredEvent, payloadIsJson: bool, metadataIsJson: bool)

  datatype QueryError =
    | QueryingEventsFailed
    | ScanningDBRowFailed
    | BuildingStorableEventFailed
    | RowIterationFailed

  datatype QueryResult = QueryResult(events: seq<Event>, max: nat) | QueryFailed(error: QueryError)

  predicate IsReadable(fetched: Fetched) {
    fetched.Scanned? && fetched.payloadIsJson && fetched.metadataIsJson
  }

  ghost predicate AllReadable(fetched: seq<Fetched>) {
    forall i | 0 <= i < |fetched| :: IsReadable(fetched[i])
  }

  function RowsOf(fetched: seq<Fetched>): (r: seq<StoredEvent>)
    requires AllReadable(fetched)
    ensures |r| == |fetched|
    ensures forall i | 0 <= i < |r| :: r[i] == fetched[i].row
  {
    seq(|fetched|, i requires 0 <= i < |fetched| => fetched[i].row)
  }

  /**
    processQueryResults: all events with the last row's sequence number; or the error of the first bad row;
    or, if all rows were good, the iteration error.
   */
  method ProcessQueryResults(fetched: seq<Fetched>, iterationFails: bool) returns (result: QueryResult)
    ensures AllReadable(fetched) && !iterationFails ==>
              result == QueryResult(Events(RowsOf(fetched)), LastSequence(RowsOf(fetched)))
    ensures AllReadable(fetched) && iterationFails ==> result == QueryFailed(RowIterationFailed)
    ensures forall i | 0 <= i < |fetched| && AllReadable(fetched[..i]) && !IsReadable(fetched[i]) ::
              result == QueryFailed(if fetched[i].Unscannable? then ScanningDBRowFailed
                                    else BuildingStorableEventFailed)
  {
    var eventStream: seq<Event> := [];
    var maxSequenceNumber := 0;
    for i := 0 to |fetched|
      invariant AllReadable(fetched[..i])
      invariant eventStream == Events(RowsOf(fetched[..i]))
      invariant maxSequenceNumber == LastSequence(RowsOf(fetched[..i]))
    {
      assert forall k | i < k < |fetched| :: fetched[..k][i] == fetched[i];
      assert forall k | 0 <= k < i :: fetched[..i][k] == fetched[k];
      if fetched[i].Unscannable? {
        return QueryFailed(ScanningDBRowFailed);
      }
      if !fetched[i].payloadIsJson || !fetched[i].metadataIsJson {
        return QueryFailed(BuildingStorableEventFailed);
      }
      eventStream := eventStream + [fetched[i].row.event];
      maxSequenceNumber := fetched[i].row.sequenceNumber;
    }
    assert fetched[..|fetched|] == fetched;
    if iterationFails {
      return QueryFailed(RowIterationFailed);
    }
    result := QueryResult(eventStream, maxSequenceNumber);
  }

  /** Query on a table whose rows are all readable. */
  function Query(f: Filter, rows: seq<StoredEvent>): QueryResult {
    QueryResult(Events(Stream(f, rows)), LastSequence(Stream(f, rows)))
  }
}
