/** Snapshots under any interleaving: when every stored row is right for its sequence number. */
module SnapshotProtocol {
  import opened Filters
  import opened Streams
  import opened Snapshots
  import opened Databases
  import opened Protocol

  ghost predicate RowFaithful<S>(db: Database<S>, setup: Setup<S>, p: string, f: Filter) {
    Key(setup, p, f) in db.snapshots ==>
      var row := db.snapshots[Key(setup, p, f)];
      !HasTimeBounds(f) && Faithful(setup.projection(p), f, db.events, row.sequenceNumber, row.data)
  }

  /**
    Every row is the fold of its reopened filter's events up to its sequence number, on this state's own log; and no
    row is of a filter with a time bound, which the pattern does not project.
   */
  ghost predicate RowsFaithful<S>(db: Database<S>, setup: Setup<S>) {
    forall p, f | setup.inUse(f) :: RowFaithful(db, setup, p, f)
  }

  /** Up to which sequence number a session's state has folded: an empty incremental query leaves it where it was. */
  function Reached<S>(s: Session<S>): nat
    requires !s.Queried?
  {
    if s.Projected? then ReachedFrom(s.from, s.max) else s.from
  }

  ghost predicate SessionFaithful<S>(s: Session<S>, setup: Setup<S>, t: EventsTable) {
    && (!s.Queried? ==>
          setup.inUse(s.filter) && Faithful(setup.projection(s.projectionType), s.filter, t, Reached(s), s.state))
    && (s.Projected? ==> !HasTimeBounds(s.filter))
  }

  ghost predicate AllRowsFaithful<S>(states: seq<Database<S>>, setup: Setup<S>) {
    forall i | 0 <= i < |states| :: RowsFaithful(states[i], setup)
  }

  ghost predicate SessionsFaithful<S>(w: World<S>, setup: Setup<S>) {
    forall c | c in w.sessions :: SessionFaithful(w.sessions[c], setup, w.primary.events)
  }

  /** The invariant: rows of the primary and of every state the replica may still show, and states in flight. */
  ghost predicate SnapshotsFaithful<S>(w: World<S>, setup: Setup<S>) {
    && LogsOrdered(w)
    && AllRowsFaithful(w.lagging + [w.primary], setup)
    && SessionsFaithful(w, setup)
  }

  // ---- one save ----

  /**
    The upsert is about to store a non-initial state under sequence number 0: the incremental query was empty,
    so the client saves 0, and there is no row with a higher number to protect the table from it.
   */
  ghost predicate Hazard<S>(db: Database<S>, setup: Setup<S>, s: Session<S>) {
    s.Projected? && s.max == 0 && s.state != setup.projection(s.projectionType).initial &&
    var key := Key(setup, s.projectionType, s.filter);
    key !in db.snapshots || db.snapshots[key].sequenceNumber == 0
  }

  function Saved<S>(db: Database<S>, setup: Setup<S>, s: Session<S>, now: Time): Database<S>
    requires s.Projected?
  {
    SaveRow(db, Key(setup, s.projectionType, s.filter), SnapshotRow(s.max, s.state, now))
  }

  lemma OtherRowsUntouched<S>(db: Database<S>, setup: Setup<S>, s: Session<S>, now: Time, p: string, f: Filter)
    requires SoundSetup(setup) && s.Projected? && setup.inUse(s.filter) && setup.inUse(f)
    requires RowFaithful(db, setup, p, f) && !(p == s.projectionType && f == s.filter)
    ensures RowFaithful(Saved(db, setup, s, now), setup, p, f)
  {
  }

  lemma OwnRowFaithfulIffNoHazard<S>(db: Database<S>, setup: Setup<S>, s: Session<S>, now: Time)
    requires s.Projected? && ValidTable(db.events)
    requires RowFaithful(db, setup, s.projectionType, s.filter) && SessionFaithful(s, setup, db.events)
    ensures RowFaithful(Saved(db, setup, s, now), setup, s.projectionType, s.filter) <==> !Hazard(db, setup, s)
  {
    var projection := setup.projection(s.projectionType);
    FaithfulAtZero(projection, s.filter, db.events, s.state);
    var key := Key(setup, s.projectionType, s.filter);
    if key in db.snapshots && db.snapshots[key].sequenceNumber == 0 {
      FaithfulAtZero(projection, s.filter, db.events, db.snapshots[key].data);
    }
  }

  /** A save keeps every row right if and only if it is not a hazard. */
  lemma SaveIsFaithfulIffNoHazard<S>(db: Database<S>, setup: Setup<S>, s: Session<S>, now: Time)
    requires SoundSetup(setup) && s.Projected? && ValidTable(db.events)
    requires RowsFaithful(db, setup) && SessionFaithful(s, setup, db.events)
    ensures RowsFaithful(Saved(db, setup, s, now), setup) <==> !Hazard(db, setup, s)
  {
    assert RowFaithful(db, setup, s.projectionType, s.filter);
    OwnRowFaithfulIffNoHazard(db, setup, s, now);
    if !Hazard(db, setup, s) {
      forall p, f | setup.inUse(f) ensures RowFaithful(Saved(db, setup, s, now), setup, p, f) {
        assert RowFaithful(db, setup, p, f);
        if !(p == s.projectionType && f == s.filter) {
          OtherRowsUntouched(db, setup, s, now, p, f);
        }
      }
    }
  }

  // ---- every step ----

  lemma RowsFaithfulForever<S>(db: Database<S>, setup: Setup<S>, u: EventsTable)
    requires ValidTable(db.events) && Extends(db.events, u) && RowsFaithful(db, setup)
    ensures RowsFaithful(db.(events := u), setup)
  {
    var later := db.(events := u);
    forall p, f | setup.inUse(f) ensures RowFaithful(later, setup, p, f) {
      assert RowFaithful(db, setup, p, f);
      if Key(setup, p, f) in db.snapshots {
        var row := db.snapshots[Key(setup, p, f)];
        FaithfulForever(setup.projection(p), f, db.events, u, row.sequenceNumber, row.data);
      }
    }
  }

  lemma SessionFaithfulForever<S>(s: Session<S>, setup: Setup<S>, t: EventsTable, u: EventsTable)
    requires ValidTable(t) && Extends(t, u) && SessionFaithful(s, setup, t)
    ensures SessionFaithful(s, setup, u)
  {
    if !s.Queried? {
      FaithfulForever(setup.projection(s.projectionType), s.filter, t, u, Reached(s), s.state);
    }
  }

  lemma LastAndFirst<S>(w: World<S>, setup: Setup<S>)
    requires AllRowsFaithful(w.lagging + [w.primary], setup)
    ensures RowsFaithful(w.primary, setup) && RowsFaithful(Replica(w), setup)
  {
    var states := w.lagging + [w.primary];
    assert states[|states| - 1] == w.primary && states[0] == Replica(w);
  }

  lemma CommitKeepsRowsFaithful<S>(w: World<S>, setup: Setup<S>, db: Database<S>)
    requires AllRowsFaithful(w.lagging + [w.primary], setup) && RowsFaithful(db, setup)
    ensures var after := Commit(w, db); AllRowsFaithful(after.lagging + [after.primary], setup)
  {
    var states, after := w.lagging + [w.primary], Commit(w, db);
    if w.hasReplica {
      assert after.lagging + [after.primary] == states + [db];
    } else {
      assert after.lagging + [after.primary] == [db];
    }
  }

  lemma LogCommitKeepsRowsFaithful<S>(w: World<S>, setup: Setup<S>, u: EventsTable)
    requires AllRowsFaithful(w.lagging + [w.primary], setup)
    requires ValidTable(w.primary.events) && Extends(w.primary.events, u)
    ensures var after := Commit(w, w.primary.(events := u)); AllRowsFaithful(after.lagging + [after.primary], setup)
  {
    LastAndFirst(w, setup);
    RowsFaithfulForever(w.primary, setup, u);
    CommitKeepsRowsFaithful(w, setup, w.primary.(events := u));
  }

  lemma SaveCommitKeepsRowsFaithful<S>(w: World<S>, setup: Setup<S>, s: Session<S>, now: Time)
    requires SoundSetup(setup) && s.Projected? && ValidTable(w.primary.events)
    requires AllRowsFaithful(w.lagging + [w.primary], setup) && SessionFaithful(s, setup, w.primary.events)
    requires !Hazard(w.primary, setup, s)
    ensures var after := Commit(w, Saved(w.primary, setup, s, now));
            AllRowsFaithful(after.lagging + [after.primary], setup)
  {
    LastAndFirst(w, setup);
    SaveIsFaithfulIffNoHazard(w.primary, setup, s, now);
    CommitKeepsRowsFaithful(w, setup, Saved(w.primary, setup, s, now));
  }

  lemma DeleteKeepsRowsFaithful<S>(db: Database<S>, setup: Setup<S>, key: SnapshotKey)
    requires RowsFaithful(db, setup)
    ensures RowsFaithful(DeleteRow(db, key), setup)
  {
    forall p, f | setup.inUse(f) ensures RowFaithful(DeleteRow(db, key), setup, p, f) {
      assert RowFaithful(db, setup, p, f);
    }
  }

  lemma DeleteCommitKeepsRowsFaithful<S>(w: World<S>, setup: Setup<S>, key: SnapshotKey)
    requires AllRowsFaithful(w.lagging + [w.primary], setup)
    ensures var after := Commit(w, DeleteRow(w.primary, key)); AllRowsFaithful(after.lagging + [after.primary], setup)
  {
    LastAndFirst(w, setup);
    DeleteKeepsRowsFaithful(w.primary, setup, key);
    CommitKeepsRowsFaithful(w, setup, DeleteRow(w.primary, key));
  }

  /** Snapshots are taken of filters in use, so that their hashes tell them apart. */
  predicate Clean<S>(setup: Setup<S>, action: Action) {
    action.Load? ==> setup.inUse(action.filter)
  }

  ghost predicate HazardousStep<S>(w: World<S>, setup: Setup<S>, action: Action) {
    action.Save? && action.client in w.sessions && Hazard(w.primary, setup, w.sessions[action.client])
  }

  lemma RowsAfterAppend<S>(w: World<S>, setup: Setup<S>, client: nat)
    requires SnapshotsFaithful(w, setup)
    ensures var next := StepAppend(w, client); AllRowsFaithful(next.lagging + [next.primary], setup)
  {
    OrderedMeansPrefix(w);
    AppendStepExtends(w, client);
    if Batch(w, client) != [] {
      LogCommitKeepsRowsFaithful(w, setup, StepAppend(w, client).primary.events);
    }
  }

  lemma RowsAfterSave<S>(w: World<S>, setup: Setup<S>, client: nat, now: Time)
    requires SoundSetup(setup) && SnapshotsFaithful(w, setup) && !HazardousStep(w, setup, Save(client, now))
    ensures var next := StepSave(w, setup, client, now); AllRowsFaithful(next.lagging + [next.primary], setup)
  {
    OrderedMeansPrefix(w);
    if client in w.sessions && w.sessions[client].Projected? {
      SaveCommitKeepsRowsFaithful(w, setup, w.sessions[client], now);
    }
  }

  lemma RowsAfterReplicate<S>(w: World<S>, setup: Setup<S>)
    requires SnapshotsFaithful(w, setup)
    ensures var next := StepReplicate(w); AllRowsFaithful(next.lagging + [next.primary], setup)
  {
    if w.lagging != [] {
      assert w.lagging[1..] + [w.primary] == (w.lagging + [w.primary])[1..];
    }
  }

  lemma RowsAfterSkip<S>(w: World<S>, setup: Setup<S>, n: nat)
    requires SnapshotsFaithful(w, setup)
    ensures var next := Commit(w, SkipSequence(w.primary, n)); AllRowsFaithful(next.lagging + [next.primary], setup)
  {
    OrderedMeansPrefix(w);
    SkipExtends(w.primary, n);
    LogCommitKeepsRowsFaithful(w, setup, SkipSequence(w.primary, n).events);
  }

  lemma RowsAfterDelete<S>(w: World<S>, setup: Setup<S>, projectionType: string, f: Filter)
    requires SnapshotsFaithful(w, setup)
    ensures var next := StepDelete(w, setup, projectionType, f); AllRowsFaithful(next.lagging + [next.primary], setup)
  {
    if projectionType != "" {
      DeleteCommitKeepsRowsFaithful(w, setup, Key(setup, projectionType, f));
    }
  }

  lemma ReadsChangeNoState<S>(w: World<S>, setup: Setup<S>, action: Action)
    requires action.Query? || action.Load? || action.Project?
    ensures var next := Step(w, setup, action); next.lagging == w.lagging && next.primary == w.primary
  {
  }

  lemma RowsAfterStep<S>(w: World<S>, setup: Setup<S>, action: Action)
    requires SoundSetup(setup) && SnapshotsFaithful(w, setup) && !HazardousStep(w, setup, action)
    ensures var next := Step(w, setup, action); AllRowsFaithful(next.lagging + [next.primary], setup)
  {
    match action
    case Append(client) => RowsAfterAppend(w, setup, client);
    case Skip(n) => RowsAfterSkip(w, setup, n);
    case Delete(projectionType, f) => RowsAfterDelete(w, setup, projectionType, f);
    case Save(client, now) => RowsAfterSave(w, setup, client, now);
    case Replicate => RowsAfterReplicate(w, setup);
    case _ => ReadsChangeNoState(w, setup, action);
  }

  /** A load from either database gives a state that is right on the primary. */
  lemma LoadIsFaithful<S>(w: World<S>, setup: Setup<S>, level: ConsistencyLevel, p: string, f: Filter)
    requires SnapshotsFaithful(w, setup) && setup.inUse(f)
    ensures match LoadRow(ReadFrom(w, level), Key(setup, p, f))
            case None => Faithful(setup.projection(p), f, w.primary.events, 0, setup.projection(p).initial)
            case Some(row) => Faithful(setup.projection(p), f, w.primary.events, row.sequenceNumber, row.data)
  {
    var db := ReadFrom(w, level);
    ReadsSeePrefix(w, level);
    LastAndFirst(w, setup);
    assert RowFaithful(db, setup, p, f);
    FaithfulAtZero(setup.projection(p), f, w.primary.events, setup.projection(p).initial);
    if Key(setup, p, f) in db.snapshots {
      var row := db.snapshots[Key(setup, p, f)];
      FaithfulForever(setup.projection(p), f, db.events, w.primary.events, row.sequenceNumber, row.data);
    }
  }

  lemma ProjectIsFaithful<S>(w: World<S>, setup: Setup<S>, client: nat, level: ConsistencyLevel)
    requires SnapshotsFaithful(w, setup) && client in w.sessions
    ensures SessionFaithful(StepProject(w, setup, client, level).sessions[client], setup, w.primary.events)
  {
    var s := w.sessions[client];
    assert SessionFaithful(s, setup, w.primary.events);
    if s.Loaded? {
      ReadsSeePrefix(w, level);
      IncrementIsFaithful(setup.projection(s.projectionType), s.filter, ReadFrom(w, level).events, w.primary.events,
                          s.from, s.state);
    }
  }

  predicate Opens(action: Action, c: nat) {
    action.Load? && c == action.client && action.projectionType != ""
  }

  /** The step opens the client's session, or takes it from loaded to projected. */
  predicate Concerns<S>(w: World<S>, action: Action, c: nat) {
    || Opens(action, c)
    || (action.Project? && c == action.client && c in w.sessions)
  }

  lemma OtherSessionsAreKept<S>(w: World<S>, setup: Setup<S>, action: Action, c: nat)
    requires c in Step(w, setup, action).sessions && !Step(w, setup, action).sessions[c].Queried?
    requires !Concerns(w, action, c)
    ensures c in w.sessions && Step(w, setup, action).sessions[c] == w.sessions[c]
  {
  }

  lemma ConcernedSessionIsFaithful<S>(w: World<S>, setup: Setup<S>, action: Action, c: nat)
    requires SnapshotsFaithful(w, setup) && Clean(setup, action)
    requires c in Step(w, setup, action).sessions && Concerns(w, action, c)
    ensures SessionFaithful(Step(w, setup, action).sessions[c], setup, w.primary.events)
  {
    if action.Load? {
      LoadIsFaithful(w, setup, action.level, action.projectionType, action.filter);
    } else {
      ProjectIsFaithful(w, setup, c, action.level);
    }
  }

  lemma SessionsAfterStep<S>(w: World<S>, setup: Setup<S>, action: Action)
    requires SnapshotsFaithful(w, setup) && Clean(setup, action)
    ensures SessionsFaithful(Step(w, setup, action), setup)
  {
    StepKeepsLogsOrdered(w, setup, action);
    OrderedMeansPrefix(w);
    var next := Step(w, setup, action);
    forall c | c in next.sessions ensures SessionFaithful(next.sessions[c], setup, next.primary.events) {
      if Concerns(w, action, c) {
        ConcernedSessionIsFaithful(w, setup, action, c);
        ReadsChangeNoState(w, setup, action);
      } else if !next.sessions[c].Queried? {
        OtherSessionsAreKept(w, setup, action, c);
        SessionFaithfulForever(w.sessions[c], setup, w.primary.events, next.primary.events);
      }
    }
  }

  lemma StepKeepsSnapshotsFaithful<S>(w: World<S>, setup: Setup<S>, action: Action)
    requires SoundSetup(setup) && SnapshotsFaithful(w, setup) && Clean(setup, action)
             && !HazardousStep(w, setup, action)
    ensures SnapshotsFaithful(Step(w, setup, action), setup)
  {
    StepKeepsLogsOrdered(w, setup, action);
    RowsAfterStep(w, setup, action);
    SessionsAfterStep(w, setup, action);
  }

  // ---- every run ----

  ghost predicate CleanRun<S>(setup: Setup<S>, actions: seq<Action>) {
    forall i | 0 <= i < |actions| :: Clean(setup, actions[i])
  }

  ghost predicate HazardFree<S>(w: World<S>, setup: Setup<S>, actions: seq<Action>)
    decreases |actions|
  {
    actions == [] || (!HazardousStep(w, setup, actions[0])
                      && HazardFree(Step(w, setup, actions[0]), setup, actions[1..]))
  }

  /**
    In every hazard-free interleaving of appends, replication, loads, incremental queries, saves and deletes,
    with reads from either database, every stored snapshot and every projection in flight stays right.
   */
  lemma {:induction false} RunKeepsSnapshotsFaithful<S>(w: World<S>, setup: Setup<S>, actions: seq<Action>)
    requires SoundSetup(setup) && SnapshotsFaithful(w, setup) && CleanRun(setup, actions)
             && HazardFree(w, setup, actions)
    ensures SnapshotsFaithful(Run(w, setup, actions), setup)
    decreases |actions|
  {
    if actions != [] {
      assert Clean(setup, actions[0]);
      StepKeepsSnapshotsFaithful(w, setup, actions[0]);
      assert CleanRun(setup, actions[1..]);
      RunKeepsSnapshotsFaithful(Step(w, setup, actions[0]), setup, actions[1..]);
    }
  }

  /** A hazardous save does store a wrong row: the condition is exact. */
  lemma HazardBreaksSnapshot<S>(w: World<S>, setup: Setup<S>, action: Action)
    requires SoundSetup(setup) && SnapshotsFaithful(w, setup) && HazardousStep(w, setup, action)
    ensures !RowsFaithful(Step(w, setup, action).primary, setup)
  {
    OrderedMeansPrefix(w);
    LastAndFirst(w, setup);
    assert SessionFaithful(w.sessions[action.client], setup, w.primary.events);
    SaveIsFaithfulIffNoHazard(w.primary, setup, w.sessions[action.client], action.now);
  }

  /** In every world of the run, its first and its last included, the primary's rows are right. */
  ghost predicate StaysFaithful<S>(w: World<S>, setup: Setup<S>, actions: seq<Action>)
    decreases |actions|
  {
    && RowsFaithful(w.primary, setup)
    && (actions == [] || StaysFaithful(Step(w, setup, actions[0]), setup, actions[1..]))
  }

  /** Snapshots are right throughout a run if and only if the run is hazard-free. */
  lemma {:induction false} StaysFaithfulIffHazardFree<S>(w: World<S>, setup: Setup<S>, actions: seq<Action>)
    requires SoundSetup(setup) && SnapshotsFaithful(w, setup) && CleanRun(setup, actions)
    ensures StaysFaithful(w, setup, actions) <==> HazardFree(w, setup, actions)
    decreases |actions|
  {
    LastAndFirst(w, setup);
    if actions != [] {
      if HazardousStep(w, setup, actions[0]) {
        HazardBreaksSnapshot(w, setup, actions[0]);
      } else {
        assert Clean(setup, actions[0]);
        StepKeepsSnapshotsFaithful(w, setup, actions[0]);
        assert CleanRun(setup, actions[1..]);
        StaysFaithfulIffHazardFree(Step(w, setup, actions[0]), setup, actions[1..]);
      }
    }
  }

  /** A loaded filter with a time bound is not projected: nothing happens. */
  lemma ProjectRefusesTimeBounds<S>(w: World<S>, setup: Setup<S>, client: nat, level: ConsistencyLevel)
    requires client in w.sessions && w.sessions[client].Loaded?
    requires w.sessions[client].filter.occurredFrom != ZERO_TIME || w.sessions[client].filter.occurredUntil != ZERO_TIME
    ensures Step(w, setup, Project(client, level)) == w
  {
  }

  /**
    What a stored row is for its own filter: after every hazard-free run from the empty database, the fold of the
    filter's own events up to its number, unless the filter's own sequence bound, which reopening drops, shuts out
    a matching event up to there. A filter with a time bound never has a row.
   */
  lemma StoredSnapshotIsOwnFold<S>(setup: Setup<S>, hasReplica: bool, actions: seq<Action>, p: string, f: Filter)
    requires SoundSetup(setup) && CleanRun(setup, actions) && HazardFree(Initial<S>(hasReplica), setup, actions)
    requires setup.inUse(f)
    ensures var db := Run(Initial<S>(hasReplica), setup, actions).primary;
            Key(setup, p, f) in db.snapshots ==>
              var row := db.snapshots[Key(setup, p, f)];
              && f.occurredFrom == ZERO_TIME && f.occurredUntil == ZERO_TIME
              && (f.sequenceNumberHigherThan == 0 || NothingBelowOwnBound(f, db.events.rows, row.sequenceNumber) ==>
                    row.data == Fold(setup.projection(p), setup.projection(p).initial,
                                     Events(UpTo(Stream(f, db.events.rows), row.sequenceNumber))))
  {
    InitialIsFaithful(setup, hasReplica);
    RunKeepsSnapshotsFaithful(Initial<S>(hasReplica), setup, actions);
    var w := Run(Initial<S>(hasReplica), setup, actions);
    LastAndFirst(w, setup);
    OrderedMeansPrefix(w);
    assert RowFaithful(w.primary, setup, p, f);
    if Key(setup, p, f) in w.primary.snapshots {
      var row := w.primary.snapshots[Key(setup, p, f)];
      if f.sequenceNumberHigherThan == 0 || NothingBelowOwnBound(f, w.primary.events.rows, row.sequenceNumber) {
        FaithfulIsOwnFold(setup.projection(p), f, w.primary.events, row.sequenceNumber, row.data);
      }
    }
  }

  /**
    Whatever mix of databases served the load and the incremental query, the projection is the fold of a prefix
    of the primary's stream of the filter: no event skipped, none repeated. The prefix holds at least what the
    database that served the query shows.
   */
  lemma ProjectionIsPrefixFold<S>(w: World<S>, setup: Setup<S>, client: nat, level: ConsistencyLevel) returns (k: nat)
    requires SnapshotsFaithful(w, setup) && client in w.sessions && w.sessions[client].Loaded?
    requires !HasTimeBounds(w.sessions[client].filter)
    ensures var s := Step(w, setup, Project(client, level)).sessions[client];
            var stream := Stream(Unbounded(s.filter), w.primary.events.rows);
            var p := setup.projection(s.projectionType);
            && |Stream(Unbounded(s.filter), ReadFrom(w, level).events.rows)| <= k <= |stream|
            && s.Projected? && s.state == Fold(p, p.initial, Events(stream[..k]))
  {
    var s := w.sessions[client];
    assert SessionFaithful(s, setup, w.primary.events);
    ReadsSeePrefix(w, level);
    k := IncrementIsPrefixFold(setup.projection(s.projectionType), s.filter, ReadFrom(w, level).events,
                               w.primary.events, s.from, s.state);
    SessionAfterProject(w, setup, client, level);
  }

  lemma SessionAfterProject<S>(w: World<S>, setup: Setup<S>, client: nat, level: ConsistencyLevel)
    requires client in w.sessions && w.sessions[client].Loaded? && !HasTimeBounds(w.sessions[client].filter)
    ensures var s := w.sessions[client];
            var newer := Stream(WithSequenceNumberHigherThan(s.filter, s.from), ReadFrom(w, level).events.rows);
            Step(w, setup, Project(client, level)).sessions[client]
            == Projected(s.projectionType, s.filter, s.from, LastSequence(newer),
                         Fold(setup.projection(s.projectionType), s.state, Events(newer)))
  {
  }

  /** With a strong incremental query the projection is a full replay, wherever the snapshot was loaded from. */
  lemma StrongProjectionIsFullReplay<S>(w: World<S>, setup: Setup<S>, client: nat)
    requires SnapshotsFaithful(w, setup) && client in w.sessions && w.sessions[client].Loaded?
    requires !HasTimeBounds(w.sessions[client].filter)
    ensures var s := Step(w, setup, Project(client, StrongConsistency)).sessions[client];
            var p := setup.projection(s.projectionType);
            && s.Projected? && s.state == Fold(p, p.initial, Events(Stream(Unbounded(s.filter), w.primary.events.rows)))
            && (s.filter.sequenceNumberHigherThan == 0 ==>
                  s.state == Fold(p, p.initial, Events(Stream(s.filter, w.primary.events.rows))))
  {
    var k := ProjectionIsPrefixFold(w, setup, client, StrongConsistency);
    SessionAfterProject(w, setup, client, StrongConsistency);
    var f := w.sessions[client].filter;
    WholeStream(Stream(Unbounded(f), w.primary.events.rows), k);
    if f.sequenceNumberHigherThan == 0 {
      UnboundedFilter(f);
    }
  }

  lemma WholeStream(stream: seq<StoredEvent>, k: nat)
    requires |stream| <= k <= |stream|
    ensures stream[..k] == stream
  {
  }

  // ---- runs that cannot have a hazard ----

  ghost predicate Covered<S>(key: SnapshotKey, n: nat, db: Database<S>) {
    n > 0 ==> key in db.snapshots && db.snapshots[key].sequenceNumber >= n
  }

  function SessionKey<S>(setup: Setup<S>, s: Session<S>): SnapshotKey
    requires !s.Queried?
  {
    Key(setup, s.projectionType, s.filter)
  }

  /** Every session that started from a snapshot still finds that row, or a later one, in the primary. */
  ghost predicate SessionsCovered<S>(w: World<S>, setup: Setup<S>) {
    forall c | c in w.sessions && !w.sessions[c].Queried? ::
      Covered(SessionKey(setup, w.sessions[c]), w.sessions[c].from, w.primary)
  }

  /**
    No careless delete: none while a session on the row is open, and no load of a row that the primary no longer
    has (a lagging replica may still show a deleted one).
   */
  ghost predicate Careful<S>(w: World<S>, setup: Setup<S>, action: Action) {
    && (action.Delete? ==> forall c | c in w.sessions && !w.sessions[c].Queried? ::
          SessionKey(setup, w.sessions[c]) != Key(setup, action.projectionType, action.filter))
    && (action.Load? ==>
          var key := Key(setup, action.projectionType, action.filter);
          var loaded := LoadRow(ReadFrom(w, action.level), key);
          loaded.Some? ==> Covered(key, loaded.value.sequenceNumber, w.primary))
  }

  ghost predicate CarefulRun<S>(w: World<S>, setup: Setup<S>, actions: seq<Action>)
    decreases |actions|
  {
    actions == [] || (Careful(w, setup, actions[0]) && CarefulRun(Step(w, setup, actions[0]), setup, actions[1..]))
  }

  lemma CoveredMeansNoHazard<S>(w: World<S>, setup: Setup<S>, action: Action)
    requires SnapshotsFaithful(w, setup) && SessionsCovered(w, setup)
    ensures !HazardousStep(w, setup, action)
  {
    if action.Save? && action.client in w.sessions && w.sessions[action.client].Projected? {
      var s := w.sessions[action.client];
      assert SessionFaithful(s, setup, w.primary.events);
      assert Covered(SessionKey(setup, s), s.from, w.primary);
      OrderedMeansPrefix(w);
      FaithfulAtZero(setup.projection(s.projectionType), s.filter, w.primary.events, s.state);
    }
  }

  /** The upsert never lowers a row, and only a delete removes one. */
  lemma RowsOnlyRise<S>(w: World<S>, setup: Setup<S>, action: Action, key: SnapshotKey, n: nat)
    requires Covered(key, n, w.primary)
    requires action.Delete? ==> key != Key(setup, action.projectionType, action.filter)
    ensures Covered(key, n, Step(w, setup, action).primary)
  {
  }

  /** A session that this step did not open keeps its row key and its starting point. */
  lemma SessionKeepsStart<S>(w: World<S>, setup: Setup<S>, action: Action, c: nat)
    requires var next := Step(w, setup, action); c in next.sessions && !next.sessions[c].Queried?
    requires !Opens(action, c)
    ensures var next := Step(w, setup, action);
            && c in w.sessions && !w.sessions[c].Queried?
            && SessionKey(setup, w.sessions[c]) == SessionKey(setup, next.sessions[c])
            && w.sessions[c].from == next.sessions[c].from
  {
    if !Concerns(w, action, c) {
      OtherSessionsAreKept(w, setup, action, c);
    }
  }

  lemma OpenedIsCovered<S>(w: World<S>, setup: Setup<S>, action: Action)
    requires action.Load? && action.projectionType != "" && Careful(w, setup, action)
    ensures var s := Step(w, setup, action).sessions[action.client];
            !s.Queried? && Covered(SessionKey(setup, s), s.from, Step(w, setup, action).primary)
  {
  }

  lemma StepKeepsSessionsCovered<S>(w: World<S>, setup: Setup<S>, action: Action)
    requires SessionsCovered(w, setup) && Careful(w, setup, action)
    ensures SessionsCovered(Step(w, setup, action), setup)
  {
    forall c | c in Step(w, setup, action).sessions && !Step(w, setup, action).sessions[c].Queried?
      ensures Covered(SessionKey(setup, Step(w, setup, action).sessions[c]), Step(w, setup, action).sessions[c].from,
                      Step(w, setup, action).primary)
    {
      if Opens(action, c) {
        OpenedIsCovered(w, setup, action);
      } else {
        SessionKeepsStart(w, setup, action, c);
        RowsOnlyRise(w, setup, action, SessionKey(setup, w.sessions[c]), w.sessions[c].from);
      }
    }
  }

  /** Careful runs are hazard-free, so the snapshots of every careful run are right. */
  lemma {:induction false} CarefulRunIsHazardFree<S>(w: World<S>, setup: Setup<S>, actions: seq<Action>)
    requires SoundSetup(setup) && SnapshotsFaithful(w, setup) && CleanRun(setup, actions)
    requires SessionsCovered(w, setup) && CarefulRun(w, setup, actions)
    ensures HazardFree(w, setup, actions) && SnapshotsFaithful(Run(w, setup, actions), setup)
    decreases |actions|
  {
    if actions != [] {
      CoveredMeansNoHazard(w, setup, actions[0]);
      assert Clean(setup, actions[0]);
      StepKeepsSnapshotsFaithful(w, setup, actions[0]);
      StepKeepsSessionsCovered(w, setup, actions[0]);
      assert CleanRun(setup, actions[1..]);
      CarefulRunIsHazardFree(Step(w, setup, actions[0]), setup, actions[1..]);
    }
  }

  // ---- without deletes every run is careful ----

  ghost predicate NoDeletes(actions: seq<Action>) {
    forall i | 0 <= i < |actions| :: !actions[i].Delete?
  }

  /** Every row that an earlier state shows is in the primary as well, at least as far on. */
  ghost predicate RowsKept<S>(w: World<S>) {
    forall i, key | 0 <= i < |w.lagging| && key in w.lagging[i].snapshots ::
      Covered(key, w.lagging[i].snapshots[key].sequenceNumber, w.primary)
  }

  lemma StepKeepsRowsKept<S>(w: World<S>, setup: Setup<S>, action: Action)
    requires RowsKept(w) && !action.Delete?
    ensures RowsKept(Step(w, setup, action))
  {
    var next := Step(w, setup, action);
    forall i, key | 0 <= i < |next.lagging| && key in next.lagging[i].snapshots
      ensures Covered(key, next.lagging[i].snapshots[key].sequenceNumber, next.primary)
    {
      var n := next.lagging[i].snapshots[key].sequenceNumber;
      if action.Replicate? {
        assert next.lagging[i] == w.lagging[i + 1];
      } else if i < |w.lagging| {
        assert next.lagging[i] == w.lagging[i];
      } else {
        assert next.lagging[i] == w.primary;
      }
      assert Covered(key, n, w.primary);
      RowsOnlyRise(w, setup, action, key, n);
    }
  }

  lemma {:induction false} WithoutDeletesCareful<S>(w: World<S>, setup: Setup<S>, actions: seq<Action>)
    requires RowsKept(w) && NoDeletes(actions)
    ensures CarefulRun(w, setup, actions)
    decreases |actions|
  {
    if actions != [] {
      assert !actions[0].Delete?;
      StepKeepsRowsKept(w, setup, actions[0]);
      assert NoDeletes(actions[1..]);
      WithoutDeletesCareful(Step(w, setup, actions[0]), setup, actions[1..]);
    }
  }

  lemma InitialIsFaithful<S>(setup: Setup<S>, hasReplica: bool)
    ensures var w := Initial<S>(hasReplica); SnapshotsFaithful(w, setup) && SessionsCovered(w, setup) && RowsKept(w)
  {
    var w := Initial<S>(hasReplica);
    InitialIsSafe<S>(hasReplica);
    assert RowsFaithful(w.primary, setup);
  }

  /** From an empty database, without deletes, every stored snapshot is right in every reachable world. */
  lemma SnapshotsFaithfulWithoutDeletes<S>(setup: Setup<S>, hasReplica: bool, actions: seq<Action>)
    requires SoundSetup(setup) && CleanRun(setup, actions) && NoDeletes(actions)
    ensures SnapshotsFaithful(Run(Initial<S>(hasReplica), setup, actions), setup)
  {
    var w := Initial<S>(hasReplica);
    InitialIsFaithful(setup, hasReplica);
    WithoutDeletesCareful(w, setup, actions);
    CarefulRunIsHazardFree(w, setup, actions);
  }

  /** Loads are strong (or there is no replica), and a row is deleted only while no session on it is open. */
  ghost predicate QuietRun<S>(w: World<S>, setup: Setup<S>, actions: seq<Action>)
    decreases |actions|
  {
    actions == [] ||
    (&& (actions[0].Load? ==> actions[0].level.StrongConsistency? || !w.hasReplica)
     && (actions[0].Delete? ==> forall c | c in w.sessions && !w.sessions[c].Queried? ::
           SessionKey(setup, w.sessions[c]) != Key(setup, actions[0].projectionType, actions[0].filter))
     && QuietRun(Step(w, setup, actions[0]), setup, actions[1..]))
  }

  lemma {:induction false} QuietRunIsCareful<S>(w: World<S>, setup: Setup<S>, actions: seq<Action>)
    requires QuietRun(w, setup, actions)
    ensures CarefulRun(w, setup, actions)
    decreases |actions|
  {
    if actions != [] {
      QuietRunIsCareful(Step(w, setup, actions[0]), setup, actions[1..]);
    }
  }

  /** With deletes, too, if loads are strong and deletes are quiet. */
  lemma SnapshotsFaithfulInQuietRuns<S>(setup: Setup<S>, hasReplica: bool, actions: seq<Action>)
    requires SoundSetup(setup) && CleanRun(setup, actions) && QuietRun(Initial<S>(hasReplica), setup, actions)
    ensures SnapshotsFaithful(Run(Initial<S>(hasReplica), setup, actions), setup)
  {
    var w := Initial<S>(hasReplica);
    InitialIsFaithful(setup, hasReplica);
    QuietRunIsCareful(w, setup, actions);
    CarefulRunIsHazardFree(w, setup, actions);
  }
}
