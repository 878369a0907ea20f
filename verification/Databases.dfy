/** One committed state of the database, and what each statement does to it. */
module Databases {
  import opened Filters
  import opened Streams
  import opened Appending
  import opened Snapshots

  datatype Option<+T> = None | Some(value: T)

  datatype Database<S> = Database(events: EventsTable, snapshots: SnapshotsTable<S>)

  function AppendEvents<S>(db: Database<S>, f: Filter, expected: nat, events: seq<Event>): Database<S> {
    db.(events := AppendTo(db.events, f, expected, events).0)
  }

  function SaveRow<S>(db: Database<S>, key: SnapshotKey, row: SnapshotRow<S>): Database<S> {
    db.(snapshots := Upsert(db.snapshots, key, row))
  }

  function DeleteRow<S>(db: Database<S>, key: SnapshotKey): Database<S> {
    db.(snapshots := db.snapshots - {key})
  }

  function LoadRow<S>(db: Database<S>, key: SnapshotKey): Option<SnapshotRow<S>> {
    if key in db.snapshots then Some(db.snapshots[key]) else None
  }

  /** Sequence values that a rolled-back transaction drew and nobody will use. */
  function SkipSequence<S>(db: Database<S>, n: nat): Database<S> {
    db.(events := db.events.(next := db.events.next + n))
  }

  // ---- statements sent through Exec ----

  datatype Statement<S> =
    | InsertEvents(stmt: InsertStmt)
    | UpsertSnapshot(key: SnapshotKey, row: SnapshotRow<S>)
    | DeleteSnapshotRow(key: SnapshotKey)

  /** The state after the statement and the number of rows affected. */
  function RunStatement<S>(db: Database<S>, statement: Statement<S>): (Database<S>, nat) {
    match statement
    case InsertEvents(stmt) =>
      var (table, rowsAffected) := RunInsert(db.events, stmt);
      (db.(events := table), rowsAffected)
    case UpsertSnapshot(key, row) => (SaveRow(db, key, row), 1)
    case DeleteSnapshotRow(key) => (DeleteRow(db, key), if key in db.snapshots then 1 else 0)
  }

  /**
    What happens to a statement on its way: it runs and the answer comes back; it never runs; it runs but an error
    comes back; it runs but the number of rows affected cannot be had.
   */
  datatype Delivery = Delivered | Lost | Unacknowledged | Uncounted

  datatype ExecResult = Affected(n: nat) | AffectedUnknown | ExecFailed

  function DeliveredState<S>(db: Database<S>, statement: Statement<S>, delivery: Delivery): Database<S> {
    if delivery.Lost? then db else RunStatement(db, statement).0
  }

  // ---- rows on their way to the client ----

  datatype RowFault = NotScannable | PayloadNotJson | MetadataNotJson

  /** A query is refused, or its rows arrive: some of them bad, and perhaps only those before a break. */
  datatype Transfer = Refused | Transferred(faults: map<nat, RowFault>, breaksAfter: Option<nat>)

  /** How many of n rows arrive. */
  function Arriving(transfer: Transfer, n: nat): (k: nat)
    requires transfer.Transferred?
    ensures k <= n
  {
    if transfer.breaksAfter.Some? && transfer.breaksAfter.value < n then transfer.breaksAfter.value else n
  }

  function FetchedRow(row: StoredEvent, i: nat, faults: map<nat, RowFault>): Fetched {
    if i !in faults then Scanned(row, true, true)
    else
      match faults[i]
      case NotScannable => Unscannable
      case PayloadNotJson => Scanned(row, false, true)
      case MetadataNotJson => Scanned(row, true, false)
  }

  function Arrived(selected: seq<StoredEvent>, transfer: Transfer): (r: seq<Fetched>)
    requires transfer.Transferred?
    ensures |r| == Arriving(transfer, |selected|)
    ensures forall i | 0 <= i < |r| :: r[i] == FetchedRow(selected[i], i, transfer.faults)
  {
    seq(Arriving(transfer, |selected|),
        i requires 0 <= i < Arriving(transfer, |selected|) => FetchedRow(selected[i], i, transfer.faults))
  }

  datatype OpenedRows = NoRows | Rows(fetched: seq<Fetched>, iterationFails: bool)

  /** ConsistencyLevel of the context; the default is strong. */
  datatype ConsistencyLevel = StrongConsistency | EventualConsistency

  function GetConsistencyLevel(contextValue: Option<ConsistencyLevel>): ConsistencyLevel {
    if contextValue.Some? then contextValue.value else StrongConsistency
  }
}
