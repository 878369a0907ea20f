/**
  Any number of clients, one primary and possibly a lagging replica. Every statement is one atomic step.
  Command clients query, decide and append; projection clients load, query incrementally, fold and save.
 */
module Protocol {
  import opened Filters
  import opened Streams
  import opened Appending
  import opened Snapshots
  import opened Databases
  import opened Serialization

  /**
    What the environment supplies: rendering of times, the digest, the projection of each type, and the filters
    that snapshots are taken of.
   */
  datatype Setup<!S> = Setup(
    render: Time -> string, digest: string -> string, projection: string -> Projection<S>, inUse: Filter -> bool)

  /** The hash tells the filters in use apart. */
  ghost predicate SoundSetup<S>(setup: Setup<S>) {
    forall f, g | setup.inUse(f) && setup.inUse(g) ::
      Hash(f, setup.render, setup.digest) == Hash(g, setup.render, setup.digest) ==> f == g
  }

  /** It does so for any filters whose delimiters are unambiguous. */
  lemma UnambiguousSetupIsSound<S>(setup: Setup<S>, d: Delimiters)
    requires RendersTimes(setup.render) && CollisionFree(setup.digest) && Unambiguous(d)
    requires forall f | setup.inUse(f) :: Permitted(f, d)
    ensures SoundSetup(setup)
  {
    forall f, g | setup.inUse(f) && setup.inUse(g)
                  && Hash(f, setup.render, setup.digest) == Hash(g, setup.render, setup.digest)
      ensures f == g
    {
      HashIsInjective(f, g, d, setup.render, setup.digest);
    }
  }

  function Key<S>(setup: Setup<S>, projectionType: string, f: Filter): SnapshotKey {
    SnapshotKey(projectionType, Hash(f, setup.render, setup.digest))
  }

  /** A command: the filter of its consistency boundary, and its decision as a function of the stream. */
  datatype Command = Command(filter: Filter, decide: seq<Event> -> seq<Event>)

  datatype Session<S> =
    | Queried(command: Command, events: seq<Event>, max: nat)
    | Loaded(projectionType: string, filter: Filter, from: nat, state: S)
    | Projected(projectionType: string, filter: Filter, from: nat, max: nat, state: S)

  /**
    The primary's state, the earlier committed states from the one the replica shows up to the primary's last
    but one (none if the replica is up to date or absent), and the clients' sessions.
   */
  datatype World<S> = World(
    primary: Database<S>, lagging: seq<Database<S>>, hasReplica: bool, sessions: map<nat, Session<S>>)

  datatype Action =
    | Query(client: nat, level: ConsistencyLevel, command: Command)
    | Append(client: nat)
    | Load(client: nat, level: ConsistencyLevel, projectionType: string, filter: Filter)
    | Project(client: nat, level: ConsistencyLevel)
    | Save(client: nat, now: Time)
    | Delete(projectionType: string, filter: Filter)
    | Replicate
    | Skip(n: nat)

  // ---- steps ----

  /** The replica's state; without lag it is the primary's. */
  function Replica<S>(w: World<S>): Database<S> {
    if w.lagging == [] then w.primary else w.lagging[0]
  }

  /** The adapter's routing of reads. */
  function ReadFrom<S>(w: World<S>, level: ConsistencyLevel): Database<S> {
    if w.hasReplica && level.EventualConsistency? then Replica(w) else w.primary
  }

  /** A statement sent through Exec: it runs on the primary; the replica falls one more state behind. */
  function Commit<S>(w: World<S>, db: Database<S>): World<S> {
    w.(primary := db, lagging := if w.hasReplica then w.lagging + [w.primary] else [])
  }

  function SetSession<S>(w: World<S>, client: nat, session: Session<S>): World<S> {
    w.(sessions := w.sessions[client := session])
  }

  function StepQuery<S>(w: World<S>, client: nat, level: ConsistencyLevel, command: Command): World<S> {
    var result := Streams.Query(command.filter, ReadFrom(w, level).events.rows);
    SetSession(w, client, Queried(command, result.events, result.max))
  }

  /** What the client would append now. */
  function Batch<S>(w: World<S>, client: nat): seq<Event> {
    if client in w.sessions && w.sessions[client].Queried?
    then w.sessions[client].command.decide(w.sessions[client].events)
    else []
  }

  function StepAppend<S>(w: World<S>, client: nat): World<S> {
    var events := Batch(w, client);
    if events == [] then w
    else
      var session := w.sessions[client];
      Commit(w, AppendEvents(w.primary, session.command.filter, session.max, events))
  }

  function StepLoad<S>(w: World<S>, setup: Setup<S>, client: nat, level: ConsistencyLevel, projectionType: string,
                       f: Filter): World<S> {
    if projectionType == "" then w
    else
      match LoadRow(ReadFrom(w, level), Key(setup, projectionType, f))
      case None => SetSession(w, client, Loaded(projectionType, f, 0, setup.projection(projectionType).initial))
      case Some(row) => SetSession(w, client, Loaded(projectionType, f, row.sequenceNumber, row.data))
  }

  function StepProject<S>(w: World<S>, setup: Setup<S>, client: nat, level: ConsistencyLevel): World<S> {
    if client in w.sessions && w.sessions[client].Loaded?
       && ReopenForSequenceFiltering(w.sessions[client].filter).SequenceFilteringCapable?
    then
      var s := w.sessions[client];
      var result := Streams.Query(WithSequenceNumberHigherThan(s.filter, s.from), ReadFrom(w, level).events.rows);
      SetSession(w, client, Projected(s.projectionType, s.filter, s.from, result.max,
                                      Fold(setup.projection(s.projectionType), s.state, result.events)))
    else w
  }

  function StepSave<S>(w: World<S>, setup: Setup<S>, client: nat, now: Time): World<S> {
    if client in w.sessions && w.sessions[client].Projected? then
      var s := w.sessions[client];
      var saved := SaveRow(w.primary, Key(setup, s.projectionType, s.filter), SnapshotRow(s.max, s.state, now));
      Commit(w, saved).(sessions := w.sessions - {client})
    else w
  }

  function StepDelete<S>(w: World<S>, setup: Setup<S>, projectionType: string, f: Filter): World<S> {
    if projectionType == "" then w else Commit(w, DeleteRow(w.primary, Key(setup, projectionType, f)))
  }

  function StepReplicate<S>(w: World<S>): World<S> {
    if w.lagging == [] then w else w.(lagging := w.lagging[1..])
  }

  function Step<S>(w: World<S>, setup: Setup<S>, action: Action): World<S> {
    match action
    case Query(client, level, command) => StepQuery(w, client, level, command)
    case Append(client) => StepAppend(w, client)
    case Load(client, level, projectionType, f) => StepLoad(w, setup, client, level, projectionType, f)
    case Project(client, level) => StepProject(w, setup, client, level)
    case Save(client, now) => StepSave(w, setup, client, now)
    case Delete(projectionType, f) => StepDelete(w, setup, projectionType, f)
    case Replicate => StepReplicate(w)
    case Skip(n) => Commit(w, SkipSequence(w.primary, n))
  }

  function Run<S>(w: World<S>, setup: Setup<S>, actions: seq<Action>): World<S>
    decreases |actions|
  {
    if actions == [] then w else Run(Step(w, setup, actions[0]), setup, actions[1..])
  }

  // ---- the log only grows, and the replica shows a prefix of it ----

  ghost predicate OrderedStates<S>(states: seq<Database<S>>) {
    && (forall i | 0 <= i < |states| :: ValidTable(states[i].events))
    && (forall i, j | 0 <= i < j < |states| :: Extends(states[i].events, states[j].events))
  }

  /** Every committed state the replica has still to show, and the primary's, in order. */
  ghost predicate LogsOrdered<S>(w: World<S>) {
    OrderedStates(w.lagging + [w.primary])
  }

  lemma CommitKeepsLogsOrdered<S>(w: World<S>, db: Database<S>)
    requires LogsOrdered(w) && ValidTable(db.events) && Extends(w.primary.events, db.events)
    ensures LogsOrdered(Commit(w, db))
  {
    var states := w.lagging + [w.primary];
    var after := states + [db];
    forall i | 0 <= i < |states| ensures Extends(states[i].events, db.events) {
      if i < |states| - 1 {
        ExtendsIsTransitive(states[i].events, states[|states| - 1].events, db.events);
      }
    }
    assert OrderedStates(after);
    assert w.hasReplica ==> Commit(w, db).lagging + [db] == after;
    assert [] + [db] == [db];
  }

  lemma SkipExtends<S>(db: Database<S>, n: nat)
    requires ValidTable(db.events)
    ensures ValidTable(SkipSequence(db, n).events) && Extends(db.events, SkipSequence(db, n).events)
    ensures SkipSequence(db, n).events.rows == db.events.rows && SkipSequence(db, n).events.next == db.events.next + n
  {
  }

  lemma AppendStepExtends<S>(w: World<S>, client: nat)
    requires LogsOrdered(w)
    ensures LogsOrdered(StepAppend(w, client)) && Extends(w.primary.events, StepAppend(w, client).primary.events)
  {
    assert w.primary == (w.lagging + [w.primary])[|w.lagging|];
    if Batch(w, client) != [] {
      var s := w.sessions[client];
      AppendExtends(w.primary.events, s.command.filter, s.max, Batch(w, client));
      CommitKeepsLogsOrdered(w, AppendEvents(w.primary, s.command.filter, s.max, Batch(w, client)));
    }
  }

  lemma ReplicateKeepsLogsOrdered<S>(w: World<S>)
    requires LogsOrdered(w)
    ensures LogsOrdered(StepReplicate(w))
  {
    if w.lagging != [] {
      var states := w.lagging + [w.primary];
      assert w.lagging[1..] + [w.primary] == states[1..];
    }
  }

  /** One step: the order of states is kept, and the primary's log only grows. */
  lemma StepKeepsLogsOrdered<S>(w: World<S>, setup: Setup<S>, action: Action)
    requires LogsOrdered(w)
    ensures LogsOrdered(Step(w, setup, action)) && Extends(w.primary.events, Step(w, setup, action).primary.events)
  {
    assert w.primary == (w.lagging + [w.primary])[|w.lagging|];
    match action
    case Append(client) => AppendStepExtends(w, client);
    case Replicate => ReplicateKeepsLogsOrdered(w);
    case Skip(n) =>
      SkipExtends(w.primary, n);
      CommitKeepsLogsOrdered(w, SkipSequence(w.primary, n));
    case Save(client, now) =>
      if client in w.sessions && w.sessions[client].Projected? {
        var s := w.sessions[client];
        CommitKeepsLogsOrdered(w, SaveRow(w.primary, Key(setup, s.projectionType, s.filter),
                                          SnapshotRow(s.max, s.state, now)));
      }
    case Delete(projectionType, f) =>
      CommitKeepsLogsOrdered(w, DeleteRow(w.primary, Key(setup, projectionType, f)));
    case _ =>
  }

  /** In every reachable world the replica shows an earlier state of the primary's log, a prefix of it. */
  lemma {:induction false} LogOnlyGrows<S>(w: World<S>, setup: Setup<S>, actions: seq<Action>)
    requires LogsOrdered(w)
    ensures var after := Run(w, setup, actions);
            && LogsOrdered(after)
            && Extends(w.primary.events, after.primary.events)
            && ReplicaIsPrefix(after)
    decreases |actions|
  {
    if actions == [] {
      OrderedMeansPrefix(w);
    } else {
      var next := Step(w, setup, actions[0]);
      StepKeepsLogsOrdered(w, setup, actions[0]);
      LogOnlyGrows(next, setup, actions[1..]);
      ExtendsIsTransitive(w.primary.events, next.primary.events, Run(w, setup, actions).primary.events);
    }
  }

  ghost predicate ReplicaIsPrefix<S>(w: World<S>) {
    && ValidTable(w.primary.events) && ValidTable(Replica(w).events)
    && Extends(Replica(w).events, w.primary.events)
    && Replica(w).events.rows <= w.primary.events.rows
  }

  lemma OrderedMeansPrefix<S>(w: World<S>)
    requires LogsOrdered(w)
    ensures ReplicaIsPrefix(w)
  {
    var states := w.lagging + [w.primary];
    assert states[|states| - 1] == w.primary && states[0] == Replica(w);
  }

  /** Whatever the level, a read sees a state that the primary's log extends. */
  lemma ReadsSeePrefix<S>(w: World<S>, level: ConsistencyLevel)
    requires LogsOrdered(w)
    ensures ValidTable(ReadFrom(w, level).events) && ValidTable(w.primary.events)
    ensures Extends(ReadFrom(w, level).events, w.primary.events)
  {
    OrderedMeansPrefix(w);
  }

  // ---- decisions ----

  /**
    Neither the queried maximum nor the queried events are ahead of the primary's, and the maximum is current
    exactly if all events of the stream were queried.
   */
  ghost predicate DecidedSoundly(command: Command, events: seq<Event>, max: nat, t: EventsTable) {
    var stream := Stream(command.filter, t.rows);
    && max <= CurrentMax(command.filter, t.rows)
    && |events| <= |stream|
    && (max == CurrentMax(command.filter, t.rows) <==> |events| == |stream|)
    && (|events| == |stream| ==> events == Events(stream))
  }

  ghost predicate DecisionsSound<S>(w: World<S>) {
    forall c | c in w.sessions && w.sessions[c].Queried? ::
      DecidedSoundly(w.sessions[c].command, w.sessions[c].events, w.sessions[c].max, w.primary.events)
  }

  /** A prefix of a stream is as long as the stream only if it is the stream. */
  lemma LengthsTell(t: EventsTable, u: EventsTable, f: Filter)
    requires Stream(f, t.rows) <= Stream(f, u.rows)
    ensures |Stream(f, t.rows)| <= |Stream(f, u.rows)|
    ensures |Stream(f, t.rows)| == |Stream(f, u.rows)| <==> Stream(f, t.rows) == Stream(f, u.rows)
  {
  }

  lemma DecidedSoundlyForever(command: Command, events: seq<Event>, max: nat, t: EventsTable, u: EventsTable)
    requires ValidTable(t) && ValidTable(u) && Extends(t, u) && DecidedSoundly(command, events, max, t)
    ensures DecidedSoundly(command, events, max, u)
  {
    SameMaxIffSameStream(command.filter, t, u);
    LengthsTell(t, u, command.filter);
  }

  lemma QueryDecidesSoundly(command: Command, q: EventsTable, t: EventsTable)
    requires ValidTable(q) && ValidTable(t) && Extends(q, t)
    ensures var result := Streams.Query(command.filter, q.rows);
            DecidedSoundly(command, result.events, result.max, t)
  {
    MaxIsLastOfStream(command.filter, q.rows);
    SameMaxIffSameStream(command.filter, q, t);
    LengthsTell(q, t, command.filter);
  }

  ghost predicate CommandSafe<S>(w: World<S>) {
    LogsOrdered(w) && DecisionsSound(w)
  }

  lemma QueriedSessionIsOldOrNew<S>(w: World<S>, setup: Setup<S>, action: Action, c: nat)
    requires c in Step(w, setup, action).sessions && Step(w, setup, action).sessions[c].Queried?
    ensures (action.Query? && action.client == c)
            || (c in w.sessions && w.sessions[c] == Step(w, setup, action).sessions[c])
  {
  }

  lemma StepKeepsCommandSafe<S>(w: World<S>, setup: Setup<S>, action: Action)
    requires CommandSafe(w)
    ensures CommandSafe(Step(w, setup, action))
  {
    StepKeepsLogsOrdered(w, setup, action);
    var next := Step(w, setup, action);
    OrderedMeansPrefix(w);
    OrderedMeansPrefix(next);
    if action.Query? {
      ReadsSeePrefix(w, action.level);
      QueryDecidesSoundly(action.command, ReadFrom(w, action.level).events, w.primary.events);
    }
    forall c | c in next.sessions && next.sessions[c].Queried?
      ensures DecidedSoundly(next.sessions[c].command, next.sessions[c].events, next.sessions[c].max,
                             next.primary.events)
    {
      var s := next.sessions[c];
      QueriedSessionIsOldOrNew(w, setup, action, c);
      if !(action.Query? && action.client == c) {
        DecidedSoundlyForever(s.command, s.events, s.max, w.primary.events, next.primary.events);
      }
    }
  }

  /** The guard of the client's append holds now. */
  predicate Succeeds<S>(w: World<S>, client: nat) {
    && Batch(w, client) != []
    && CurrentMax(w.sessions[client].command.filter, w.primary.events.rows) == w.sessions[client].max
  }

  /** An append succeeds if and only if it was decided on exactly the primary's stream; otherwise nothing changes. */
  lemma AppendDecidedOnCurrentStream<S>(w: World<S>, client: nat)
    requires CommandSafe(w) && Batch(w, client) != []
    ensures var s := w.sessions[client];
            var (table, result) := AppendTo(w.primary.events, s.command.filter, s.max, Batch(w, client));
            && (result.Appended? <==> Succeeds(w, client))
            && (Succeeds(w, client) <==> s.events == Events(Stream(s.command.filter, w.primary.events.rows)))
            && (result.Appended? ==>
                  StepAppend(w, client).primary.events == Insert(w.primary.events, s.command.decide(s.events)))
            && (result.ConcurrencyConflict? ==> StepAppend(w, client).primary == w.primary)
  {
    assert DecidedSoundly(w.sessions[client].command, w.sessions[client].events, w.sessions[client].max,
                          w.primary.events);
  }

  // ---- a command from its query to its append ----

  /** A step of the client's own that replaces or closes its session. */
  predicate Replaces(action: Action, client: nat) {
    match action
    case Query(c, _, _) => c == client
    case Load(c, _, _, _) => c == client
    case Project(c, _) => c == client
    case Save(c, _) => c == client
    case _ => false
  }

  ghost predicate NoneReplaces(actions: seq<Action>, client: nat) {
    forall i | 0 <= i < |actions| :: !Replaces(actions[i], client)
  }

  lemma SessionIsKept<S>(w: World<S>, setup: Setup<S>, action: Action, client: nat)
    requires client in w.sessions && !Replaces(action, client)
    ensures client in Step(w, setup, action).sessions && Step(w, setup, action).sessions[client] == w.sessions[client]
  {
  }

  /** A client's session is its own: only its own queries, loads, projections and saves change it. */
  lemma {:induction false} SessionIsKeptInRuns<S>(w: World<S>, setup: Setup<S>, actions: seq<Action>, client: nat)
    requires client in w.sessions && NoneReplaces(actions, client)
    ensures var after := Run(w, setup, actions);
            client in after.sessions && after.sessions[client] == w.sessions[client]
    decreases |actions|
  {
    if actions != [] {
      assert !Replaces(actions[0], client);
      SessionIsKept(w, setup, actions[0], client);
      assert NoneReplaces(actions[1..], client);
      SessionIsKeptInRuns(Step(w, setup, actions[0]), setup, actions[1..], client);
    }
  }

  lemma QuerySeesStream<S>(w: World<S>, setup: Setup<S>, client: nat, level: ConsistencyLevel, command: Command)
    ensures var next := Step(w, setup, Query(client, level, command));
            var seen := Stream(command.filter, ReadFrom(w, level).events.rows);
            && client in next.sessions && next.sessions[client] == Queried(command, Events(seen), LastSequence(seen))
            && next.primary == w.primary
  {
  }

  /**
    A command from its query, at either level, to its append, whatever happens in between: it decides on the stream
    that the database it asked showed, and its append succeeds if and only if the primary then has exactly
    that stream.
   */
  lemma CommandSucceedsIffStreamUnchanged<S>(w: World<S>, setup: Setup<S>, client: nat, level: ConsistencyLevel,
                                             command: Command, between: seq<Action>)
    requires LogsOrdered(w) && NoneReplaces(between, client)
    ensures var seen := Stream(command.filter, ReadFrom(w, level).events.rows);
            var later := Run(Step(w, setup, Query(client, level, command)), setup, between);
            var batch := command.decide(Events(seen));
            && Batch(later, client) == batch
            && (batch != [] ==>
                  var current := Stream(command.filter, later.primary.events.rows);
                  var after := Step(later, setup, Append(client)).primary.events;
                  && (current == seen ==> after == Insert(later.primary.events, batch))
                  && (current != seen ==> after == later.primary.events))
  {
    var next := Step(w, setup, Query(client, level, command));
    var later := Run(next, setup, between);
    QuerySeesStream(w, setup, client, level, command);
    SessionIsKeptInRuns(next, setup, between, client);
    StepKeepsLogsOrdered(w, setup, Query(client, level, command));
    LogOnlyGrows(next, setup, between);
    ReadsSeePrefix(w, level);
    var q, t := ReadFrom(w, level).events, later.primary.events;
    ExtendsIsTransitive(q, w.primary.events, t);
    OrderedMeansPrefix(later);
    MaxIsLastOfStream(command.filter, q.rows);
    SameMaxIffSameStream(command.filter, q, t);
  }

  // ---- serializability ----

  /** What happened to the log, in log order: a successful command with its events, or skipped sequence values. */
  datatype Commitment = Executed(command: Command, batch: seq<Event>) | Skipped(n: nat)

  function CommitmentsOf<S>(w: World<S>, action: Action): seq<Commitment> {
    if action.Append? && Succeeds(w, action.client) then
      [Executed(w.sessions[action.client].command, Batch(w, action.client))]
    else if action.Skip? then [Skipped(action.n)]
    else []
  }

  function Commitments<S>(w: World<S>, setup: Setup<S>, actions: seq<Action>): seq<Commitment>
    decreases |actions|
  {
    if actions == [] then []
    else CommitmentsOf(w, actions[0]) + Commitments(Step(w, setup, actions[0]), setup, actions[1..])
  }

  /** A command executed alone: query, decide and append without anything in between. */
  function ExecuteAlone(t: EventsTable, command: Command): EventsTable {
    var result := Streams.Query(command.filter, t.rows);
    AppendTo(t, command.filter, result.max, command.decide(result.events)).0
  }

  function Execute(t: EventsTable, commitment: Commitment): EventsTable {
    match commitment
    case Executed(command, _) => ExecuteAlone(t, command)
    case Skipped(n) => t.(next := t.next + n)
  }

  function ExecuteSerially(t: EventsTable, commitments: seq<Commitment>): EventsTable
    decreases |commitments|
  {
    if commitments == [] then t else ExecuteSerially(Execute(t, commitments[0]), commitments[1..])
  }

  /** Executed on t, a command decides on the very batch it appended in the interleaved run. */
  ghost predicate SameDecision(t: EventsTable, commitment: Commitment) {
    match commitment
    case Executed(command, batch) => batch != [] && batch == command.decide(Events(Stream(command.filter, t.rows)))
    case Skipped(_) => true
  }

  ghost predicate SameDecisions(t: EventsTable, commitments: seq<Commitment>)
    decreases |commitments|
  {
    commitments == []
    || (SameDecision(t, commitments[0]) && SameDecisions(Execute(t, commitments[0]), commitments[1..]))
  }

  lemma StepIsSerial<S>(w: World<S>, setup: Setup<S>, action: Action)
    requires CommandSafe(w)
    ensures ExecuteSerially(w.primary.events, CommitmentsOf(w, action)) == Step(w, setup, action).primary.events
    ensures SameDecisions(w.primary.events, CommitmentsOf(w, action))
  {
    OrderedMeansPrefix(w);
    if action.Append? && Batch(w, action.client) != [] {
      AppendDecidedOnCurrentStream(w, action.client);
      MaxIsLastOfStream(w.sessions[action.client].command.filter, w.primary.events.rows);
    }
  }

  /**
    Serializability: every interleaving leaves exactly the log, sequence numbers included, that executing the
    successful commands alone in log order leaves, and each of them decides on the same events.
   */
  lemma {:induction false} RunIsSerial<S>(w: World<S>, setup: Setup<S>, actions: seq<Action>)
    requires CommandSafe(w)
    ensures var log := Commitments(w, setup, actions);
            && ExecuteSerially(w.primary.events, log) == Run(w, setup, actions).primary.events
            && SameDecisions(w.primary.events, log)
            && CommandSafe(Run(w, setup, actions))
    decreases |actions|
  {
    if actions != [] {
      var next := Step(w, setup, actions[0]);
      StepKeepsCommandSafe(w, setup, actions[0]);
      StepIsSerial(w, setup, actions[0]);
      RunIsSerial(next, setup, actions[1..]);
      var first, rest := CommitmentsOf(w, actions[0]), Commitments(next, setup, actions[1..]);
      if first == [] {
        assert first + rest == rest;
      } else {
        assert (first + rest)[1..] == rest && first[1..] == [];
      }
    }
  }

  // ---- conservation ----

  function BatchOf(commitment: Commitment): seq<Event> {
    if commitment.Executed? then commitment.batch else []
  }

  function Batches(commitments: seq<Commitment>): seq<Event>
    decreases |commitments|
  {
    if commitments == [] then [] else BatchOf(commitments[0]) + Batches(commitments[1..])
  }

  lemma ExecuteAddsBatch(t: EventsTable, commitment: Commitment)
    requires ValidTable(t) && SameDecision(t, commitment)
    ensures ValidTable(Execute(t, commitment))
    ensures Events(Execute(t, commitment).rows) == Events(t.rows) + BatchOf(commitment)
  {
    if commitment.Executed? {
      MaxIsLastOfStream(commitment.command.filter, t.rows);
      InsertExtends(t, commitment.batch);
    }
  }

  lemma ConcatAssociates<T>(a: seq<T>, b: seq<T>, c: seq<T>)
    ensures (a + b) + c == a + (b + c)
  {
  }

  lemma {:induction false} SerialLogHasBatches(t: EventsTable, commitments: seq<Commitment>)
    requires ValidTable(t) && SameDecisions(t, commitments)
    ensures Events(ExecuteSerially(t, commitments).rows) == Events(t.rows) + Batches(commitments)
    decreases |commitments|
  {
    if commitments != [] {
      var next, rest := Execute(t, commitments[0]), commitments[1..];
      ExecuteAddsBatch(t, commitments[0]);
      SerialLogHasBatches(next, rest);
      ConcatAssociates(Events(t.rows), BatchOf(commitments[0]), Batches(rest));
    }
  }

  /** Nothing is lost, duplicated or reordered: the log is the initial one and the successful batches in order. */
  lemma LogIsInitialPlusBatches<S>(w: World<S>, setup: Setup<S>, actions: seq<Action>)
    requires CommandSafe(w)
    ensures Events(Run(w, setup, actions).primary.events.rows)
            == Events(w.primary.events.rows) + Batches(Commitments(w, setup, actions))
  {
    OrderedMeansPrefix(w);
    RunIsSerial(w, setup, actions);
    SerialLogHasBatches(w.primary.events, Commitments(w, setup, actions));
  }

  // ---- monotone reads ----

  /** Strong reads never go back: what was read stays a prefix of what is read later. */
  lemma StrongReadsAreMonotone<S>(w: World<S>, setup: Setup<S>, actions: seq<Action>, f: Filter)
    requires LogsOrdered(w)
    ensures var earlier := Stream(f, ReadFrom(w, StrongConsistency).events.rows);
            earlier <= Stream(f, ReadFrom(Run(w, setup, actions), StrongConsistency).events.rows)
  {
    LogOnlyGrows(w, setup, actions);
    OrderedMeansPrefix(w);
    SameMaxIffSameStream(f, w.primary.events, Run(w, setup, actions).primary.events);
  }

  /** After a successful append every later strong read has the earlier stream and then the matching appended rows. */
  lemma OwnWritesAreSeen<S>(w: World<S>, setup: Setup<S>, client: nat, actions: seq<Action>, f: Filter)
    requires LogsOrdered(w) && Succeeds(w, client)
    ensures var added := Numbered(w.primary.events.next, Batch(w, client));
            Stream(f, w.primary.events.rows) + Stream(f, added)
            <= Stream(f, ReadFrom(Run(w, setup, [Append(client)] + actions), StrongConsistency).events.rows)
  {
    var next := Step(w, setup, Append(client));
    StepKeepsLogsOrdered(w, setup, Append(client));
    assert ([Append(client)] + actions)[1..] == actions;
    StrongReadsAreMonotone(next, setup, actions, f);
    StreamConcat(f, w.primary.events.rows, Numbered(w.primary.events.next, Batch(w, client)));
  }

  /** Eventual reads may lag but are never wrong: they see a prefix of what a strong read sees. */
  lemma EventualReadIsPrefix<S>(w: World<S>, f: Filter)
    requires LogsOrdered(w)
    ensures Stream(f, ReadFrom(w, EventualConsistency).events.rows) <= Stream(f, w.primary.events.rows)
  {
    ReadsSeePrefix(w, EventualConsistency);
    SameMaxIffSameStream(f, ReadFrom(w, EventualConsistency).events, w.primary.events);
  }

  /** A step never takes the replica back. */
  lemma ReplicaOnlyAdvances<S>(w: World<S>, setup: Setup<S>, action: Action)
    requires LogsOrdered(w)
    ensures Extends(Replica(w).events, Replica(Step(w, setup, action)).events)
    ensures ValidTable(Replica(w).events) && Step(w, setup, action).hasReplica == w.hasReplica
  {
    var states := w.lagging + [w.primary];
    assert states[0] == Replica(w) && states[|states| - 1] == w.primary;
    StepKeepsLogsOrdered(w, setup, action);
    var next := Step(w, setup, action);
    if action.Replicate? && w.lagging != [] {
      assert Replica(next) == states[1];
    } else if next.lagging == [] {
      assert Replica(next) == next.primary;
      if w.lagging != [] {
        ExtendsIsTransitive(Replica(w).events, w.primary.events, next.primary.events);
      }
    }
  }

  /** Each replication step shows the next committed state, in order; nothing else changes. */
  lemma {:induction false} ReplicationCatchesUp<S>(w: World<S>, setup: Setup<S>, k: nat)
    requires k <= |w.lagging|
    ensures var after := Run(w, setup, seq(k, i => Replicate));
            && Replica(after) == (w.lagging + [w.primary])[k]
            && after == w.(lagging := after.lagging) && |after.lagging| == |w.lagging| - k
    decreases k
  {
    var steps := seq(k, i => Replicate);
    if k > 0 {
      var next := Step(w, setup, Replicate);
      assert steps[1..] == seq(k - 1, i => Replicate);
      assert next.lagging + [next.primary] == (w.lagging + [w.primary])[1..];
      ReplicationCatchesUp(next, setup, k - 1);
    }
  }

  /** With one replica, eventual reads never go back either. */
  lemma {:induction false} EventualReadsAreMonotone<S>(w: World<S>, setup: Setup<S>, actions: seq<Action>, f: Filter)
    requires LogsOrdered(w) && w.hasReplica
    ensures var earlier := Stream(f, ReadFrom(w, EventualConsistency).events.rows);
            earlier <= Stream(f, ReadFrom(Run(w, setup, actions), EventualConsistency).events.rows)
    decreases |actions|
  {
    if actions != [] {
      var next := Step(w, setup, actions[0]);
      ReplicaOnlyAdvances(w, setup, actions[0]);
      StepKeepsLogsOrdered(w, setup, actions[0]);
      OrderedMeansPrefix(next);
      SameMaxIffSameStream(f, Replica(w).events, Replica(next).events);
      EventualReadsAreMonotone(next, setup, actions[1..], f);
    }
  }

  // ---- where runs start ----

  function Initial<S>(hasReplica: bool): World<S> {
    World(Database(EMPTY_TABLE, map[]), [], hasReplica, map[])
  }

  lemma InitialIsSafe<S>(hasReplica: bool)
    ensures CommandSafe(Initial<S>(hasReplica))
  {
  }

  /**
    No wrong decision gets through in any reachable world, whichever database served the query and however far
    behind it was: an append succeeds if and only if it was decided on exactly the stream the primary has at that
    moment; otherwise it leaves both tables as they were and reports a conflict, so no conflict is spurious.
   */
  lemma NoWrongDecision<S>(setup: Setup<S>, hasReplica: bool, actions: seq<Action>, client: nat)
    requires Batch(Run(Initial<S>(hasReplica), setup, actions), client) != []
    ensures var w := Run(Initial<S>(hasReplica), setup, actions);
            var s := w.sessions[client];
            var (table, result) := AppendTo(w.primary.events, s.command.filter, s.max, Batch(w, client));
            && StepAppend(w, client).primary.events == table
            && (result.Appended? <==> s.events == Events(Stream(s.command.filter, w.primary.events.rows)))
            && (result.Appended? ==> table == Insert(w.primary.events, s.command.decide(s.events)))
            && (result.ConcurrencyConflict? ==> StepAppend(w, client).primary == w.primary)
  {
    InitialIsSafe<S>(hasReplica);
    RunIsSerial(Initial<S>(hasReplica), setup, actions);
    AppendDecidedOnCurrentStream(Run(Initial<S>(hasReplica), setup, actions), client);
  }
}
