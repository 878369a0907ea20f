/** The adapter's primary/replica routing and the event store's operations on top of it. */
module EventStores {
  import opened Filters
  import opened Streams
  import opened Appending
  import opened Snapshots
  import opened Databases
  import opened Serialization
  import WhereClause

  /** A database server, as its connection pool reaches it. */
  class Server<S> {
    var db: Database<S>

    constructor (db: Database<S>)
      ensures this.db == db
    {
      this.db := db;
    }
  }

  /** PGXAdapter: reads go to the replica only if there is one and the context asks for eventual consistency. */
  class PGXAdapter<S> {
    const pool: Server<S>
    const replicaPool: Server?<S>

    constructor (pool: Server<S>, replicaPool: Server?<S>)
      ensures this.pool == pool && this.replicaPool == replicaPool
    {
      this.pool := pool;
      this.replicaPool := replicaPool;
    }

    /** The selected rows of the primary, or of the replica; those before a break, the faulty ones marked. */
    method Query(contextValue: Option<ConsistencyLevel>, where: WhereClause.Expr, transfer: Transfer)
      returns (rows: OpenedRows)
      ensures rows.NoRows? <==> transfer.Refused?
      ensures rows.Rows? ==>
                var asksReplica := replicaPool != null && contextValue == Some(EventualConsistency);
                var db := (if asksReplica then replicaPool else pool).db;
                var selected := SelectRows(db.events.rows, where);
                && rows.fetched == Arrived(selected, transfer)
                && (rows.iterationFails <==> transfer.breaksAfter.Some?)
                && (!rows.iterationFails ==> |rows.fetched| == |selected|)
                && (rows.iterationFails && transfer.breaksAfter.value < |selected| ==>
                      |rows.fetched| == transfer.breaksAfter.value)
                && (forall i | 0 <= i < |rows.fetched| && i !in transfer.faults ::
                      rows.fetched[i] == Scanned(selected[i], true, true))
    {
      var server := pool;
      if replicaPool != null && GetConsistencyLevel(contextValue) == EventualConsistency {
        server := replicaPool;
      }
      if transfer.Refused? {
        return NoRows;
      }
      rows := Rows(Arrived(SelectRows(server.db.events.rows, where), transfer), transfer.breaksAfter.Some?);
    }

    /** A row, none, or an error on the way. */
    method QueryRow(contextValue: Option<ConsistencyLevel>, key: SnapshotKey, scans: bool) returns (row: ScannedRow<S>)
      ensures row.ScanFailed? <==> !scans
      ensures scans ==>
                var asksReplica := replicaPool != null && contextValue == Some(EventualConsistency);
                var db := (if asksReplica then replicaPool else pool).db;
                row == if key in db.snapshots then FoundRow(db.snapshots[key]) else NoRow
    {
      var server := pool;
      if replicaPool != null && GetConsistencyLevel(contextValue) == EventualConsistency {
        server := replicaPool;
      }
      if !scans {
        return ScanFailed;
      }
      var loaded := LoadRow(server.db, key);
      row := if loaded.None? then NoRow else FoundRow(loaded.value);
    }

    /** Writes always go to the primary; an error does not say whether the statement has run. */
    method Exec(statement: Statement<S>, delivery: Delivery) returns (result: ExecResult)
      modifies pool
      ensures pool.db == DeliveredState(old(pool.db), statement, delivery)
      ensures delivery.Delivered? ==> result == Affected(RunStatement(old(pool.db), statement).1)
      ensures delivery.Uncounted? ==> result == AffectedUnknown
      ensures delivery.Lost? || delivery.Unacknowledged? ==> result == ExecFailed
    {
      if delivery.Lost? {
        return ExecFailed;
      }
      var (db, n) := RunStatement(pool.db, statement);
      pool.db := db;
      result := match delivery
        case Delivered => Affected(n)
        case Uncounted => AffectedUnknown
        case _ => ExecFailed;
    }
  }

  datatype ScannedRow<S> = NoRow | FoundRow(row: SnapshotRow<S>) | ScanFailed

  datatype Snapshot<S> = Snapshot(projectionType: string, filterHash: string, sequenceNumber: nat, data: S,
                                  createdAt: Time)

  datatype SnapshotError =
    | ErrEmptyProjectionType
    | ErrEmptyFilterHash
    | ErrInvalidSnapshotJSON
    | ErrSavingSnapshotFailed
    | ErrLoadingSnapshotFailed
    | ErrDeletingSnapshotFailed

  datatype LoadResult<S> = Found(snapshot: Snapshot<S>) | NotFound | LoadFailed(error: SnapshotError)

  datatype AppendError = ErrAppendingEventFailed | ErrGettingRowsAffectedFailed

  datatype AppendOutcome = Decided(result: AppendResult) | AppendFailed(error: AppendError)

  /** The first bad row, in the order of arrival. */
  ghost predicate FirstFault(transfer: Transfer, i: nat)
    requires transfer.Transferred?
  {
    i in transfer.faults && forall j | 0 <= j < i :: j !in transfer.faults
  }

  ghost predicate NoFaultBelow(transfer: Transfer, n: nat)
    requires transfer.Transferred?
  {
    forall i | 0 <= i < n :: i !in transfer.faults
  }

  lemma WithoutFaultsReadable(stream: seq<StoredEvent>, transfer: Transfer)
    requires transfer.Transferred? && NoFaultBelow(transfer, Arriving(transfer, |stream|))
    ensures AllReadable(Arrived(stream, transfer))
    ensures transfer.breaksAfter.None? ==> RowsOf(Arrived(stream, transfer)) == stream
  {
  }

  lemma FirstFaultIsFirstBadRow(stream: seq<StoredEvent>, transfer: Transfer, i: nat)
    requires transfer.Transferred? && i < Arriving(transfer, |stream|) && FirstFault(transfer, i)
    ensures var arrived := Arrived(stream, transfer);
            && AllReadable(arrived[..i]) && !IsReadable(arrived[i])
            && (arrived[i].Unscannable? <==> transfer.faults[i].NotScannable?)
  {
  }

  /** The row loop on what arrived of a stream. */
  method ProcessArrived(rows: OpenedRows, ghost stream: seq<StoredEvent>, ghost transfer: Transfer)
    returns (result: QueryResult)
    requires transfer.Transferred? && rows == Rows(Arrived(stream, transfer), transfer.breaksAfter.Some?)
    ensures NoFaultBelow(transfer, Arriving(transfer, |stream|)) ==>
              result == if transfer.breaksAfter.None? then QueryResult(Events(stream), LastSequence(stream))
                        else QueryFailed(RowIterationFailed)
    ensures forall i | 0 <= i < Arriving(transfer, |stream|) && FirstFault(transfer, i) ::
              result == QueryFailed(if transfer.faults[i].NotScannable? then ScanningDBRowFailed
                                    else BuildingStorableEventFailed)
  {
    result := ProcessQueryResults(rows.fetched, rows.iterationFails);
    if NoFaultBelow(transfer, Arriving(transfer, |stream|)) {
      WithoutFaultsReadable(stream, transfer);
    }
    forall i | 0 <= i < Arriving(transfer, |stream|) && FirstFault(transfer, i)
      ensures result == QueryFailed(if transfer.faults[i].NotScannable? then ScanningDBRowFailed
                                    else BuildingStorableEventFailed)
    {
      FirstFaultIsFirstBadRow(stream, transfer, i);
    }
  }

  class EventStore<S> {
    const adapter: PGXAdapter<S>
    const render: Time -> string
    const digest: string -> string
    const isJson: S -> bool

    constructor (adapter: PGXAdapter<S>, render: Time -> string, digest: string -> string, isJson: S -> bool)
      ensures this.adapter == adapter && this.render == render && this.digest == digest && this.isJson == isJson
    {
      this.adapter := adapter;
      this.render := render;
      this.digest := digest;
      this.isJson := isJson;
    }

    /**
      The filter's stream on the server the context selects, with its maximum sequence number. A refused query, the
      first bad row that arrives and a break in between are errors: a stream cut short is never returned.
     */
    method Query(contextValue: Option<ConsistencyLevel>, f: Filter, transfer: Transfer) returns (result: QueryResult)
      ensures transfer.Refused? ==> result == QueryFailed(QueryingEventsFailed)
      ensures transfer.Transferred? ==>
                var asksReplica := adapter.replicaPool != null && contextValue == Some(EventualConsistency);
                var db := (if asksReplica then adapter.replicaPool else adapter.pool).db;
                var rows := db.events.rows;
                var n := Arriving(transfer, |Stream(f, rows)|);
                && (NoFaultBelow(transfer, n) ==>
                      result == if transfer.breaksAfter.None?
                                then QueryResult(Events(Stream(f, rows)), LastSequence(Stream(f, rows)))
                                else QueryFailed(RowIterationFailed))
                && (forall i | 0 <= i < n && FirstFault(transfer, i) ::
                      result == QueryFailed(if transfer.faults[i].NotScannable? then ScanningDBRowFailed
                                            else BuildingStorableEventFailed))
    {
      var where := WhereClause.AddWhereClause(f);
      var rows := adapter.Query(contextValue, where, transfer);
      if rows.NoRows? {
        return QueryFailed(QueryingEventsFailed);
      }
      ghost var asksReplica := adapter.replicaPool != null && contextValue == Some(EventualConsistency);
      ghost var db := (if asksReplica then adapter.replicaPool else adapter.pool).db;
      SelectIsStream(f, db.events.rows);
      result := ProcessArrived(rows, Stream(f, db.events.rows), transfer);
    }

    /**
      All events or none on the primary, decided by the filter's current maximum there. After an error the events
      may have been appended or not; after a conflict they have not.
     */
    method Append(f: Filter, expectedMaxSequenceNumber: nat, storableEvents: seq<Event>, delivery: Delivery)
      returns (outcome: AppendOutcome)
      modifies adapter.pool
      ensures var before, after := old(adapter.pool.db), adapter.pool.db;
              var holds := CurrentMax(f, before.events.rows) == expectedMaxSequenceNumber;
              && (storableEvents == [] || delivery.Lost? || !holds ==> after == before)
              && (storableEvents != [] && !delivery.Lost? && holds ==>
                    && after.snapshots == before.snapshots
                    && after.events.rows == before.events.rows + Numbered(before.events.next, storableEvents)
                    && after.events.next == before.events.next + |storableEvents|)
      ensures storableEvents == [] ==> outcome == Decided(Appended)
      ensures storableEvents != [] ==>
                match delivery
                case Delivered =>
                  outcome == Decided(if CurrentMax(f, old(adapter.pool.db.events.rows)) == expectedMaxSequenceNumber
                                     then Appended else ConcurrencyConflict)
                case Uncounted => outcome == AppendFailed(ErrGettingRowsAffectedFailed)
                case _ => outcome == AppendFailed(ErrAppendingEventFailed)
      ensures outcome == Decided(ConcurrencyConflict) ==> adapter.pool.db == old(adapter.pool.db)
    {
      if |storableEvents| == 0 {
        return Decided(Appended);
      }
      var query := BuildAppendQuery(storableEvents, f, expectedMaxSequenceNumber);
      BothFormsRefineAppend(adapter.pool.db.events, query.stmt, f, expectedMaxSequenceNumber, storableEvents);
      var executed := adapter.Exec(InsertEvents(query.stmt), delivery);
      match executed {
        case ExecFailed => outcome := AppendFailed(ErrAppendingEventFailed);
        case AffectedUnknown => outcome := AppendFailed(ErrGettingRowsAffectedFailed);
        case Affected(n) => outcome := Decided(ValidateAppendResult(n, |storableEvents|));
      }
    }

    /** Snapshot.Validate. */
    function Validate(snapshot: Snapshot<S>): Option<SnapshotError> {
      if snapshot.projectionType == "" then Some(ErrEmptyProjectionType)
      else if snapshot.filterHash == "" then Some(ErrEmptyFilterHash)
      else if !isJson(snapshot.data) then Some(ErrInvalidSnapshotJSON)
      else None
    }

    /** An invalid snapshot changes nothing; a valid one is upserted with the database's time, not its own. */
    method SaveSnapshot(snapshot: Snapshot<S>, now: Time, delivery: Delivery) returns (error: Option<SnapshotError>)
      modifies adapter.pool
      ensures snapshot.projectionType == "" ==> error == Some(ErrEmptyProjectionType)
      ensures snapshot.projectionType != "" && snapshot.filterHash == "" ==> error == Some(ErrEmptyFilterHash)
      ensures snapshot.projectionType != "" && snapshot.filterHash != "" && !isJson(snapshot.data) ==>
                error == Some(ErrInvalidSnapshotJSON)
      ensures snapshot.projectionType != "" && snapshot.filterHash != "" && isJson(snapshot.data) ==>
                error == if delivery.Lost? || delivery.Unacknowledged? then Some(ErrSavingSnapshotFailed) else None
      ensures delivery.Lost? || (error.Some? && error != Some(ErrSavingSnapshotFailed)) ==>
                adapter.pool.db == old(adapter.pool.db)
      ensures !delivery.Lost? && (error.None? || error == Some(ErrSavingSnapshotFailed)) ==>
                var key := SnapshotKey(snapshot.projectionType, snapshot.filterHash);
                var before, after := old(adapter.pool.db.snapshots), adapter.pool.db.snapshots;
                && adapter.pool.db.events == old(adapter.pool.db.events)
                && after.Keys == before.Keys + {key}
                && (forall other | other in before && other != key :: after[other] == before[other])
                && after[key] == if key in before && before[key].sequenceNumber > snapshot.sequenceNumber
                                 then before[key]
                                 else SnapshotRow(snapshot.sequenceNumber, snapshot.data, now)
    {
      error := Validate(snapshot);
      if error.Some? {
        return;
      }
      ghost var before := adapter.pool.db.snapshots;
      var key := SnapshotKey(snapshot.projectionType, snapshot.filterHash);
      var executed := adapter.Exec(UpsertSnapshot(key, SnapshotRow(snapshot.sequenceNumber, snapshot.data, now)),
                                   delivery);
      if executed.ExecFailed? {
        error := Some(ErrSavingSnapshotFailed);
      }
      UpsertKeepsHigherRow(before, key, SnapshotRow(snapshot.sequenceNumber, snapshot.data, now));
    }

    /** The row of the projection type and the filter's hash; not finding one is no error. */
    method LoadSnapshot(contextValue: Option<ConsistencyLevel>, projectionType: string, f: Filter, scans: bool)
      returns (result: LoadResult<S>)
      ensures projectionType == "" ==> result == LoadFailed(ErrEmptyProjectionType)
      ensures projectionType != "" && !scans ==> result == LoadFailed(ErrLoadingSnapshotFailed)
      ensures projectionType != "" && scans ==>
                var key := SnapshotKey(projectionType, Hash(f, render, digest));
                var asksReplica := adapter.replicaPool != null && contextValue == Some(EventualConsistency);
                var db := (if asksReplica then adapter.replicaPool else adapter.pool).db;
                && (result.NotFound? <==> key !in db.snapshots)
                && (key in db.snapshots ==>
                      var row := db.snapshots[key];
                      result == Found(Snapshot(projectionType, key.filterHash, row.sequenceNumber, row.data,
                                               row.createdAt)))
    {
      if projectionType == "" {
        return LoadFailed(ErrEmptyProjectionType);
      }
      var serialized := Serialize(f, render);
      var key := SnapshotKey(projectionType, "sha256:" + digest(serialized));
      var scanned := adapter.QueryRow(contextValue, key, scans);
      match scanned {
        case ScanFailed => result := LoadFailed(ErrLoadingSnapshotFailed);
        case NoRow => result := NotFound;
        case FoundRow(row) =>
          result := Found(Snapshot(projectionType, key.filterHash, row.sequenceNumber, row.data, row.createdAt));
      }
    }

    /** Deleting what is not there changes nothing and is no error. */
    method DeleteSnapshot(projectionType: string, f: Filter, delivery: Delivery) returns (error: Option<SnapshotError>)
      modifies adapter.pool
      ensures projectionType == "" ==> error == Some(ErrEmptyProjectionType) && adapter.pool.db == old(adapter.pool.db)
      ensures projectionType != "" ==>
                && error == (if delivery.Delivered? then None else Some(ErrDeletingSnapshotFailed))
                && (delivery.Lost? ==> adapter.pool.db == old(adapter.pool.db))
                && (!delivery.Lost? ==>
                      var key := SnapshotKey(projectionType, Hash(f, render, digest));
                      var before, after := old(adapter.pool.db.snapshots), adapter.pool.db.snapshots;
                      && adapter.pool.db.events == old(adapter.pool.db.events)
                      && after.Keys == before.Keys - {key}
                      && (forall other | other in after :: after[other] == before[other]))
    {
      if projectionType == "" {
        return Some(ErrEmptyProjectionType);
      }
      var serialized := Serialize(f, render);
      var key := SnapshotKey(projectionType, "sha256:" + digest(serialized));
      var executed := adapter.Exec(DeleteSnapshotRow(key), delivery);
      error := if executed.Affected? then None else Some(ErrDeletingSnapshotFailed);
    }
  }
}
