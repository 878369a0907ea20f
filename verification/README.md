# Dynamic-stream event store: a verified model

The event store keeps one append-only table of events. A *filter* selects a dynamic event stream from it, and the same
filter guards an append: the events go in only if the stream's maximum sequence number is still the one the client
saw. Snapshots cache the fold of a stream. This project models

- filter values: the sanitizers, the fluent builder and its interfaces, serialization and hash, reopening
  (`Text`, `Filters`, `Sanitizing`, `PredicateOrder`, `Builder`, `BuilderChains`, `Serialization`, `Ambiguity`);
- the filter-to-WHERE compiler and its meaning (`WhereClause`);
- querying and appending: the statements, their refinement of one specification, the row loop, the conflict check
  (`Streams`, `Appending`);
- snapshots: the guarded upsert and the replay laws (`Snapshots`);
- the adapter's primary/replica routing and the event store's operations as classes (`Databases`, `EventStores`);
- any number of clients on a primary and a lagging replica, as a state machine over statements
  (`Protocol`, `SnapshotProtocol`, `SnapshotHazards`).

`dafny verify dfyconfig.toml` checks all of it.

## Assumptions about the outside

- Every SQL statement is one atomic step, and sequence numbers increase in commit order. One statement draws
  consecutive numbers; values may be skipped between statements. This is the intent of `docs/core-concepts.md:93-108`.
- The rows of UNION ALL and of the join with the one-row context come in the order of the events.
- The query builder drops an empty And/Or list when it nests it and writes no WHERE clause for an empty outermost list.
- Of a payload only the top-level string fields are kept, and strings hold no quotes or backslashes, so that
  containment of a one-field object is equality of that field.
- Strings are compared by character; for valid UTF-8 this is Go's byte order.
- `slices.SortFunc` promises a permutation sorted by key, not stability. The in-place sort of the model is one such sort;
  the lemmas hold for all.
- SHA-256 is a collision-free function of the serialization, `time.Format(RFC3339Nano)` an injective, bar-free
  rendering of instants (section 5.6 of RFC 3339). Both are parameters.
- What the driver does is a parameter: a query is refused, broken off or brings bad rows; a statement is lost, runs but
  reports an error, or runs without telling the number of rows affected (the pgx driver always tells).
- `uint` and BIGSERIAL are unbounded naturals.
- A decision is a function of the queried events; a projection has one initial state and one event function.

## Where code and documentation differ

- The builder's documentation promises that duplicate predicates are removed. The code sorts by key only, so equal
  predicates with another value of the same key between them stay, and the order within a key, hence the hash, can
  depend on the argument order. `PredicateOrder` gives the exact conditions.
- Different filters are documented to have different snapshots. Delimiters are not escaped, so different filters can share
  a serialization, hence a row. `Ambiguity.IdentifiesIffUnambiguous` says exactly which commas, equals signs and bars are
  harmless. The snapshot results speak of any set of filters whose hashes differ.
- The projection pattern saves the maximum of the incremental query, which is 0 when nothing is new. The upsert keeps
  the higher row, so this is harmless unless the row was deleted meanwhile, or was deleted earlier and the load came
  from a replica that had not applied the delete. `SnapshotProtocol` proves the exact condition.
- Reopening a filter replaces its own sequence bound, so the pattern's snapshot of a filter with such a bound is the
  fold of the filter without it. `OwnBoundIsForgotten` shows it, `OwnFoldIffNothingBelowOwnBound` and
  `ReplaySplitsIffNothingHidden` say exactly when it makes no difference to a stored row and to a replay.
- An append of zero events succeeds without any check, so serializability speaks of appends with at least one event.

## Model

| member | source | states |
|---|---|---|
| `Serialization.Serialize` | eventstore/filter.go:78-124 | the loops produce the specified string: item parts joined by one bar, items and bounds by two, empty parts left out |
| `Serialization.SerializedExample` | eventstore/filter.go:78-124 | the format spelled out on a filter with every kind of part: labels, separators, order, AND and OR |
| `Text.DecimalReadsBack` | eventstore/filter.go:118-120 | the rendering of a number reads back as that number in decimal, without leading zeros |
| `Serialization.SerializeIsInjective` | eventstore/filter.go:78-124 | equal strings mean equal filters (items in order, AND/OR flags, all bounds) if no event type holds a comma or a bar, no value a bar, and either no key an equals sign and no value a comma, or no key a comma or a bar and no value an equals sign; for every injective bar-free rendering of times |
| `Serialization.GroupsAreReadable` | eventstore/filter.go:107-123 | reading back: if every part is non-empty and is either free of bars or, when predicates are read from the left, a list of predicates (whose keys may hold bars), then the parts of every item and bound can be read back from the whole string |
| `Serialization.ReadableFromTheLeft` | eventstore/filter.go:90-98 | a joined predicate list followed by a bar and any further text is told apart from every other, and its end is seen, if keys hold no equals sign and values no comma or bar |
| `Serialization.ReadableFromTheRight` | eventstore/filter.go:90-98 | a joined predicate list can be read from the right if keys hold no comma or bar and values no equals sign |
| `Serialization.HashIsInjective` | eventstore/filter.go:70-74 | different filters with unambiguous delimiters have different hashes, given a collision-free digest |
| `Serialization.HashNamesItsAlgorithm` | eventstore/filter.go:70-74 | a hash is the algorithm's name and the digest of the serialization |
| `Ambiguity.IdentifiesIffUnambiguous` | eventstore/filter.go:78-124 | exact, for every choice of which commas, equals signs and bars event types, keys and values may hold: no two different sanitized filters share a serialization if and only if event types hold no comma or bar, values no bar, and either keys hold no equals sign and values no comma, or keys hold no comma or bar and values no equals sign |
| `Ambiguity.CommaInTypeMisleads` | eventstore/filter.go:86-88 | a comma makes one event type serialize like two; both filters sanitized, for any two plain names in order |
| `Ambiguity.BarInTypeMisleads` | eventstore/filter.go:86-107 | a bar in an event type makes one item serialize like two |
| `Ambiguity.BarInValueMisleads` | eventstore/filter.go:90-107 | a bar in a value makes one item serialize like two, without any comma or further equals sign |
| `Ambiguity.BarInKeyAndCommaInValueMislead` | eventstore/filter.go:90-107 | so does a bar in a key where values may hold commas |
| `Ambiguity.BarAndEqualsInKeyMislead` | eventstore/filter.go:90-107 | and a bar in a key where keys may hold equals signs |
| `Ambiguity.TwoDelimitersMislead` | eventstore/filter.go:90-98 | each forbidden pair of delimiters in keys and values lets two different filters serialize alike |
| `Sanitizing.SanitizeEventTypes` | eventstore/filter.go:408-424 | delete, sort and compact in place on a fresh copy: the result is the one strictly ascending list of exactly the non-empty arguments, the function SanitizedTypes of them; the caller's slice is not written |
| `Text.LessIffSmallerAtFirstDifference` | eventstore/filter.go:419-420 | the order is that of Go strings: after a common prefix the one that ends, or whose next character is smaller, comes first |
| `Sanitizing.SanitizedTypesAreUnique` | eventstore/filter.go:419-420 | there is only one strictly ascending list of a given set, which is why the method computes that function |
| `Sanitizing.SanitizingTypesIsCanonical` | eventstore/filter.go:408-424 | order, repetition and empty arguments do not matter |
| `Sanitizing.SanitizingTypesIsIdempotent` | eventstore/filter.go:408-424 | sanitizing a sanitized list changes nothing |
| `Sanitizing.SanitizePredicates` | eventstore/filter.go:495-520 | delete, sort by key and compact in place on a fresh copy give a possible result of the key-only, unstable sort |
| `Sanitizing.SanitizedPredicatesAreWellFormed` | eventstore/filter.go:500-516 | every possible result is sorted by key, has no equal neighbours and holds exactly the complete predicates given |
| `Sanitizing.SanitizingKeepsMatching` | eventstore/filter.go:495-520 | AND and OR matching is the same before and after sanitizing the complete predicates |
| `PredicateOrder.DuplicateFreeIffNoSplitRepeat` | eventstore/filter.go:502-516 | the documented removal of duplicates holds for every sort outcome if and only if no predicate given twice shares its key with another value |
| `PredicateOrder.DuplicateCanSurvive` | eventstore/filter.go:502-516 | k=v, k=w, k=v is a possible result: the duplicate stays |
| `PredicateOrder.DeterminedIffOneValuePerKey` | eventstore/filter.go:502-514 | the result is determined by the arguments if and only if no key has two values |
| `PredicateOrder.OneValuePerKeyIsCanonical` | eventstore/filter.go:495-520 | with one value per key the result depends only on the set of complete predicates |
| `Builder.FinalizedFilter` | eventstore/filter.go:356-583 | along every chain the interfaces allow: one item more than OrMatching calls; item i holds exactly the sanitized event types and a possible sanitized list of the predicates that the calls between OrMatching number i and the next give, nothing where no call gives any, and asks for all predicates exactly if AllPredicatesOf is among them; never both a time bound and a sequence bound |
| `Builder.PredicatesOfItem` | eventstore/filter.go:434-520 | the predicates of item i are exactly the complete ones among the arguments of that item's calls |
| `Builder.BoundsAreThoseGiven` | eventstore/filter.go:529-562 | each bound of the finalized filter is the argument of the last call that gives it, and zero if none does |
| `Builder.MatchingAnyEventFilter` | eventstore/filter.go:574-576 | MatchingAnyEvent is offered only at the start and gives the empty filter |
| `BuilderChains.FinalizeIffChain` | eventstore/filter.go:182-352 | the method sets of the builder interfaces accept exactly the chains of a small grammar: a bound alone, or items joined by OrMatching and at most one kind of bound |
| `Filters.ReopeningSelectsOwnRowsAbove` | eventstore/filter.go:39-46 | a filter can be reopened exactly if it has no time bound, and reopened at n, at or above its own bound, it matches exactly its own rows above n |
| `Filters.MatchesInPlainTerms` | eventstore/postgresengine/postgres.go:785-839 | the direct meaning, over indices: some restricting item matches or none restricts; times inclusive, sequence number exclusive, zero for no bound |
| `Filters.ItemMatchesInPlainTerms` | eventstore/postgresengine/postgres.go:807-839 | an item's event types are alternatives; its predicates hold all or one of them, each by equality of the payload's field |
| `WhereClause.AddWhereClause` | eventstore/postgresengine/postgres.go:785-870 | the nested loops build a tree that selects exactly the rows matching the filter and contains no empty list below its root |
| `WhereClause.WhereSelectsMatching` | eventstore/postgresengine/postgres.go:785-839 | the compiled tree and the direct meaning agree on every row: some non-empty item or no non-empty item, inclusive time bounds, exclusive sequence bound |
| `WhereClause.WhereHasNoEmptyListInside` | eventstore/postgresengine/postgres.go:790-796 | dropping empty lists at each level leaves none inside the tree |
| `Streams.ProcessQueryResults` | eventstore/postgresengine/postgres.go:411-452 | all events and the last row's number; or the error of the first bad row; or the iteration error if all rows were good |
| `Streams.SelectIsStream` | eventstore/postgresengine/postgres.go:360-377 | the ordered SELECT with the compiled clause returns the filter's stream |
| `Streams.MaxIsLastOfStream` | eventstore/postgresengine/postgres.go:629-640 | COALESCE(MAX, 0) over the compiled clause is the number the row loop ends with |
| `Streams.SameMaxIffSameStream` | eventstore/postgresengine/postgres.go:640 | between a table and a later one the maximum is unchanged if and only if the stream is, if and only if no matching row was added |
| `Appending.BuildInsertQueryForMultipleEvents` | eventstore/postgresengine/postgres.go:660-720 | the array and UNION ALL loops carry all events in order, the compiled clause and the expected maximum |
| `Appending.BuildAppendQuery` | eventstore/postgresengine/postgres.go:579-618 | the single form for one event, the multiple form for more, an error for none |
| `Appending.BothFormsRefineAppend` | eventstore/postgresengine/postgres.go:620-720 | either statement, for any number of events, inserts all or none; the rows-affected check reports a conflict exactly when the table is unchanged |
| `Appending.QueryThenAppend` | eventstore/postgresengine/postgres.go:462-495 | with the queried maximum an append succeeds exactly when no matching row came in between, exactly when the query would still give the same events |
| `Appending.FirstRivalWins` | eventstore/postgresengine/postgres.go:756-783 | of any number of appends with the same queried maximum exactly the first succeeds, if one of its rows matches the filter |
| `Appending.RivalWinsIffNoneTouchedBefore` | eventstore/postgresengine/postgres.go:756-783 | of any number of appends with the same queried maximum each succeeds if and only if no earlier one's rows touched the filter on the table it met |
| `Appending.SecondRivalLosesIffTouched` | eventstore/postgresengine/postgres.go:756-783 | a rival loses if and only if the winner's rows touch the filter; with both the same, repeating an append whose answer was lost is refused exactly then |
| `Snapshots.LastMaximumIsStored` | eventstore/postgresengine/postgres.go:910-963 | after any sequence of saves on any keys, from any table on, the row of a key is, in all columns, the last one carrying the maximum among the row stored before and those saved under the key |
| `Snapshots.StoredSequenceNeverDecreases` | eventstore/postgresengine/postgres.go:928-931 | the stored sequence number of a key never decreases, from any table on |
| `Snapshots.PermutedSavesAgree` | eventstore/postgresengine/postgres.go:910-963 | permuting saves gives the same table, from any table on, if those under one key have distinct sequence numbers |
| `Snapshots.ReplaySplitsIffNothingHidden` | eventstore/filter.go:612-625 | a replay splits at a snapshot into the events up to it and the reopened stream if and only if the filter's own bound, which reopening drops, hides nothing above it; a bound not above the snapshot never does |
| `Snapshots.FoldFromSnapshot` | eventstore/filter.go:612-625 | folding from a snapshot equals folding from the start |
| `Snapshots.IncrementIsFaithful` | docs/snapshots.md:105-135 | folding an incremental query, even one served by an older state, gives the right state for the last event it returned |
| `Snapshots.OwnFoldIffNothingBelowOwnBound` | eventstore/filter.go:612-625 | reopening drops the filter's own bound: the events the pattern folds up to n are the filter's own, and every projection folds them alike, if and only if no matching row numbered up to n is shut out by that bound |
| `EventStores.PGXAdapter.Query` | eventstore/postgresengine/internal/adapters/pgx_adapter.go:32-46 | the rows are the replica's only if there is one and the context asks for eventual consistency, otherwise the primary's; a refused query gives none, a break those before it |
| `EventStores.PGXAdapter.QueryRow` | eventstore/postgresengine/internal/adapters/pgx_adapter.go:51-61 | the row of the replica's table under the same condition, otherwise the primary's; or the scan error |
| `EventStores.PGXAdapter.Exec` | eventstore/postgresengine/internal/adapters/pgx_adapter.go:64-71 | writes change the primary and nothing else; an error leaves open whether they did |
| `EventStores.EventStore.Query` | eventstore/postgresengine/postgres.go:245-276 | events and maximum of the filter's stream on the replica if there is one and eventual consistency is asked for, otherwise on the primary; a refused query, the first bad row that arrives, or a break is the error, so a stream cut short is never returned |
| `EventStores.EventStore.Append` | eventstore/postgresengine/postgres.go:462-495 | if the filter's current maximum is the expected one the primary gains exactly the events, consecutively numbered, otherwise nothing changes and a conflict is reported; snapshots stay; zero events touch nothing; execution and rows-affected errors, after which the events may be there |
| `EventStores.EventStore.SaveSnapshot` | eventstore/postgresengine/postgres.go:874-908 | an empty type, an empty hash and malformed data are refused in this order and change nothing; otherwise the key has the new row with the database's time, or keeps the stored one if its number is higher; every other row and the events stay; the execution error |
| `EventStores.EventStore.LoadSnapshot` | eventstore/postgresengine/postgres.go:967-1019 | the row of the projection type and the filter's hash, from the server the routing selects, not found, the error for an empty type, or the scan error |
| `EventStores.EventStore.DeleteSnapshot` | eventstore/postgresengine/postgres.go:1045-1098 | removes that row and nothing else; no error if it is absent; execution and rows-affected errors |
| `Protocol.RunIsSerial` | eventstore/postgresengine/postgres.go:454-495 | serializability: every interleaving leaves exactly the log that the successful commands leave when executed alone in log order, and each decides on the same events |
| `Protocol.NoWrongDecision` | eventstore/postgresengine/postgres.go:756-783 | in every reachable world, whichever database served the query, an append succeeds if and only if it was decided on exactly the primary's current stream; otherwise the tables are unchanged and a conflict is reported, so no conflict is spurious |
| `Protocol.CommandSucceedsIffStreamUnchanged` | eventstore/postgresengine/postgres.go:462-495 | from a query at either level to the append, whatever happens in between: the command decides on the stream its database showed, and its append succeeds if and only if the primary then has exactly that stream |
| `Protocol.SessionIsKeptInRuns` | eventstore/postgresengine/postgres.go:245-276 | what a client has queried or loaded is changed by its own steps only |
| `Protocol.LogIsInitialPlusBatches` | eventstore/postgresengine/postgres.go:462-495 | the log is the initial log followed by the successful batches in order |
| `Protocol.LogOnlyGrows` | eventstore/postgresengine/internal/adapters/pgx_adapter.go:64-71 | in every reachable world the primary's log extends the earlier one and the replica's log is a prefix of it |
| `Protocol.ReplicationCatchesUp` | eventstore/postgresengine/internal/adapters/pgx_adapter.go:64-71 | k replication steps show the k-th next committed state and change nothing else |
| `Protocol.StrongReadsAreMonotone` | eventstore/postgresengine/internal/adapters/pgx_adapter.go:33-38 | an earlier strong read is a prefix of every later one |
| `Protocol.OwnWritesAreSeen` | eventstore/postgresengine/internal/adapters/pgx_adapter.go:33-38 | after a successful append every later strong read has the earlier stream and then the matching appended rows |
| `Protocol.EventualReadIsPrefix` | eventstore/postgresengine/internal/adapters/pgx_adapter.go:35-38 | an eventual read is a prefix of the strong one |
| `Protocol.EventualReadsAreMonotone` | eventstore/postgresengine/internal/adapters/pgx_adapter.go:35-38 | with one replica an earlier eventual read is a prefix of every later one |
| `Protocol.UnambiguousSetupIsSound` | eventstore/filter.go:70-74 | the snapshot results hold for any set of filters with pairwise different hashes; filters with unambiguous delimiters are such a set |
| `SnapshotProtocol.SaveIsFaithfulIffNoHazard` | eventstore/postgresengine/postgres.go:924-955 | a save keeps every row right (the fold of the reopened filter's events up to its number) if and only if it does not store a non-initial state under number 0 without a higher row to keep |
| `SnapshotProtocol.RunKeepsSnapshotsFaithful` | docs/snapshots.md:86-160 | over every hazard-free interleaving, reads from either database, all stored snapshots and all states in flight stay right, and none is of a filter with a time bound |
| `SnapshotProtocol.HazardBreaksSnapshot` | eventstore/postgresengine/postgres.go:924-955 | every hazardous save does store a wrong row |
| `SnapshotProtocol.StaysFaithfulIffHazardFree` | eventstore/postgresengine/postgres.go:924-955 | exact over whole runs: the stored snapshots are right in every world of a run if and only if the run is hazard-free |
| `SnapshotProtocol.StoredSnapshotIsOwnFold` | docs/snapshots.md:86-160 | after every hazard-free run from the empty database a stored snapshot is of a filter without time bounds and is the fold of its filter's own events up to its number, if the filter has no sequence bound or its bound shuts out no matching event up to there |
| `SnapshotProtocol.ProjectRefusesTimeBounds` | eventstore/filter.go:39-46 | a loaded filter with a time bound is not projected: the world stays as it is |
| `SnapshotProtocol.SnapshotsFaithfulWithoutDeletes` | docs/snapshots.md:86-160 | from an empty database every run without deletes keeps all snapshots right, empty incremental queries included |
| `SnapshotProtocol.SnapshotsFaithfulInQuietRuns` | docs/snapshots.md:72-80 | with deletes as well, if loads are strong and no session on the row is open at a delete |
| `SnapshotProtocol.ProjectionIsPrefixFold` | eventstore/postgresengine/internal/adapters/pgx_adapter.go:51-61 | whatever mix of databases served load and query, the projection is the fold of a prefix of the primary's stream, at least of what the database that served the query shows |
| `SnapshotProtocol.StrongProjectionIsFullReplay` | docs/snapshots.md:86-160 | with a strong incremental query the projection equals a full replay of the reopened filter, hence of the filter itself if it has no sequence bound, wherever and whenever the snapshot was loaded |
| `SnapshotHazards.DeleteBetweenLoadAndSave` | eventstore/postgresengine/postgres.go:1045-1098 | a delete between load and save stores a wrong snapshot |
| `SnapshotHazards.DeleteNotYetReplicated` | eventstore/postgresengine/internal/adapters/pgx_adapter.go:51-61 | so does a delete before an eventual load that the replica has not applied yet |
| `SnapshotHazards.HazardsAreReachable` | docs/snapshots.md:86-160 | both start from worlds that a run from the empty database reaches |
| `SnapshotHazards.OwnBoundIsForgotten` | eventstore/filter.go:612-625 | a run from the empty database that stores, for a filter with a sequence bound of its own, a snapshot that is not the fold of the filter's events |

## Left out

- Time zones: a time is an instant; two renderings of one instant in different zones, and the resulting different hashes, are not modelled.
- Failures in the state machine: lost statements and answers are outcomes of the event store's operations; in the state machine a statement runs or is not sent, and a client that retries is another session.
- Errors of query building and of context cancellation and timeouts as such: to the caller they are execution errors.
- Isolation, locking and commit ordering inside PostgreSQL, exhaustion of the sequence, and 64-bit limits.
- SQL text, dialect pooling, and the query builder's and drivers' internals.
- Nested payload values, JSON validity and quoting inside predicate literals.
- Metadata beyond being carried along, logging, metrics, tracing and durations.
- Constructors with options and custom table names, connection pools.
- The sql and sqlx adapters, which route like the pgx adapter.
- FilterBuilder: the value receivers are modelled as values; two chains that share one intermediate builder, whose items slices may share memory, are not.
- Sort: the in-place sort is an insertion sort; the standard library's algorithm is not part of this model.
