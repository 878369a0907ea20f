/** Runs in which a delete lets a wrong snapshot be stored: both conditions on careful runs are needed. */
module SnapshotHazards {
  import opened Filters
  import opened Streams
  import opened Appending
  import opened Snapshots
  import opened Databases
  import opened Protocol
  import opened SnapshotProtocol

  lemma RunOfOne<S>(w: World<S>, setup: Setup<S>, a: Action)
    ensures Run(w, setup, [a]) == Step(w, setup, a)
  {
    assert [a][1..] == [];
  }

  lemma RunOfFour<S>(w: World<S>, setup: Setup<S>, a: Action, b: Action, c: Action, d: Action)
    ensures Run(w, setup, [a, b, c, d]) == Step(Step(Step(Step(w, setup, a), setup, b), setup, c), setup, d)
  {
    assert [a, b, c, d][1..] == [b, c, d] && [b, c, d][1..] == [c, d] && [c, d][1..] == [d];
    RunOfOne(Step(Step(Step(w, setup, a), setup, b), setup, c), setup, d);
    assert Run(Step(Step(w, setup, a), setup, b), setup, [c, d])
        == Run(Step(Step(Step(w, setup, a), setup, b), setup, c), setup, [d]);
    assert Run(Step(w, setup, a), setup, [b, c, d]) == Run(Step(Step(w, setup, a), setup, b), setup, [c, d]);
  }

  /** The primary holds a snapshot that has folded something and covers the whole stream of its filter. */
  ghost predicate UpToDateSnapshot<S>(w: World<S>, setup: Setup<S>, p: string, f: Filter) {
    && p != "" && setup.inUse(f) && !HasTimeBounds(f)
    && Key(setup, p, f) in w.primary.snapshots
    && var row := w.primary.snapshots[Key(setup, p, f)];
       row.data != setup.projection(p).initial
       && Stream(WithSequenceNumberHigherThan(f, row.sequenceNumber), w.primary.events.rows) == []
  }

  /** The projection of a state that has nothing new to fold is that state, reported with maximum 0. */
  lemma NothingNewToFold<S>(w: World<S>, setup: Setup<S>, client: nat)
    requires client in w.sessions && w.sessions[client].Loaded? && !HasTimeBounds(w.sessions[client].filter)
    requires Stream(WithSequenceNumberHigherThan(w.sessions[client].filter, w.sessions[client].from),
                    w.primary.events.rows) == []
    ensures var s := w.sessions[client];
            StepProject(w, setup, client, StrongConsistency)
            == SetSession(w, client, Projected(s.projectionType, s.filter, s.from, 0, s.state))
  {
  }

  /** From a loaded session whose row is gone: project and save store a wrong snapshot. */
  lemma OrphanedSessionBreaksSnapshot<S>(w: World<S>, setup: Setup<S>, client: nat, now: Time)
    requires SoundSetup(setup) && SnapshotsFaithful(w, setup)
    requires client in w.sessions && w.sessions[client].Loaded? && !HasTimeBounds(w.sessions[client].filter)
    requires var s := w.sessions[client];
             && s.state != setup.projection(s.projectionType).initial
             && Key(setup, s.projectionType, s.filter) !in w.primary.snapshots
             && Stream(WithSequenceNumberHigherThan(s.filter, s.from), w.primary.events.rows) == []
    ensures var projected := Step(w, setup, Project(client, StrongConsistency));
            !RowsFaithful(Step(projected, setup, Save(client, now)).primary, setup)
  {
    NothingNewToFold(w, setup, client);
    var projected := Step(w, setup, Project(client, StrongConsistency));
    StepKeepsSnapshotsFaithful(w, setup, Project(client, StrongConsistency));
    HazardBreaksSnapshot(projected, setup, Save(client, now));
  }

  /** The client has loaded the snapshot and only then its row is deleted. */
  lemma DeleteOrphansSession<S>(w: World<S>, setup: Setup<S>, client: nat, p: string, f: Filter)
    requires SoundSetup(setup) && SnapshotsFaithful(w, setup) && UpToDateSnapshot(w, setup, p, f)
    ensures var deleted := Step(Step(w, setup, Load(client, StrongConsistency, p, f)), setup, Delete(p, f));
            var row := w.primary.snapshots[Key(setup, p, f)];
            && SnapshotsFaithful(deleted, setup)
            && client in deleted.sessions && deleted.sessions[client] == Loaded(p, f, row.sequenceNumber, row.data)
            && Key(setup, p, f) !in deleted.primary.snapshots && deleted.primary.events == w.primary.events
  {
    var load := Load(client, StrongConsistency, p, f);
    StepKeepsSnapshotsFaithful(w, setup, load);
    StepKeepsSnapshotsFaithful(Step(w, setup, load), setup, Delete(p, f));
  }

  /** A delete between a client's load and its save, all reads strong. */
  lemma DeleteBetweenLoadAndSave<S>(w: World<S>, setup: Setup<S>, client: nat, p: string, f: Filter, now: Time)
    requires SoundSetup(setup) && SnapshotsFaithful(w, setup) && UpToDateSnapshot(w, setup, p, f)
    ensures var actions := [Load(client, StrongConsistency, p, f), Delete(p, f), Project(client, StrongConsistency),
                            Save(client, now)];
            !RowsFaithful(Run(w, setup, actions).primary, setup)
  {
    var load, delete := Load(client, StrongConsistency, p, f), Delete(p, f);
    DeleteOrphansSession(w, setup, client, p, f);
    OrphanedSessionBreaksSnapshot(Step(Step(w, setup, load), setup, delete), setup, client, now);
    RunOfFour(w, setup, load, delete, Project(client, StrongConsistency), Save(client, now));
  }

  /** A delete before the load: the replica still shows the deleted row to an eventual load. */
  lemma DeleteNotYetReplicated<S>(w: World<S>, setup: Setup<S>, client: nat, p: string, f: Filter, now: Time)
    requires SoundSetup(setup) && SnapshotsFaithful(w, setup) && UpToDateSnapshot(w, setup, p, f)
    requires w.hasReplica && w.lagging == []
    ensures var actions := [Delete(p, f), Load(client, EventualConsistency, p, f), Project(client, StrongConsistency),
                            Save(client, now)];
            !RowsFaithful(Run(w, setup, actions).primary, setup)
  {
    var delete, load := Delete(p, f), Load(client, EventualConsistency, p, f);
    var deleted := Step(w, setup, delete);
    StepKeepsSnapshotsFaithful(w, setup, delete);
    assert ReadFrom(deleted, EventualConsistency) == w.primary;
    StepKeepsSnapshotsFaithful(deleted, setup, load);
    OrphanedSessionBreaksSnapshot(Step(deleted, setup, load), setup, client, now);
    RunOfFour(w, setup, delete, load, Project(client, StrongConsistency), Save(client, now));
  }

  // ---- such worlds are reachable ----

  function AppendOne(e: Event): Command {
    Command(EMPTY_FILTER, (events: seq<Event>) => [e])
  }

  /** A filter for any event, with or without a sequence bound. */
  predicate ForAnyEvent(f: Filter) {
    f.items == [] && !HasTimeBounds(f)
  }

  lemma OneRowStream(f: Filter, e: Event, n: nat)
    requires ForAnyEvent(f)
    ensures Stream(WithSequenceNumberHigherThan(f, n), [StoredEvent(1, e)])
            == if n == 0 then [StoredEvent(1, e)] else []
  {
    var rows := [StoredEvent(1, e)];
    assert rows[..0] == [];
    ReopenedMatches(f, n, rows[0]);
  }

  /** One client appends an event to the empty log. */
  lemma FirstAppend<S>(setup: Setup<S>, e: Event)
    ensures var w := Step(Step(Initial<S>(true), setup, Query(0, StrongConsistency, AppendOne(e))), setup, Append(0));
            && w.primary == Database(EventsTable([StoredEvent(1, e)], 2), map[])
            && w.hasReplica && |w.lagging| == 1
  {
    var queried := Step(Initial<S>(true), setup, Query(0, StrongConsistency, AppendOne(e)));
    assert Batch(queried, 0) == [e];
    assert Numbered(1, [e]) == [StoredEvent(1, e)];
    assert [] + [StoredEvent(1, e)] == [StoredEvent(1, e)];
  }

  /** Another one loads, projects and saves. */
  lemma FirstSnapshot<S>(w: World<S>, setup: Setup<S>, p: string, f: Filter, e: Event, now: Time)
    requires ForAnyEvent(f)
    requires w.primary == Database(EventsTable([StoredEvent(1, e)], 2), map[]) && w.hasReplica && |w.lagging| == 1
             && p != ""
    ensures var loaded := Step(w, setup, Load(1, StrongConsistency, p, f));
            var after := Step(Step(loaded, setup, Project(1, StrongConsistency)), setup, Save(1, now));
            && after.primary.events == w.primary.events
            && after.primary.snapshots
               == map[Key(setup, p, f) :=
                      SnapshotRow(1, setup.projection(p).apply(setup.projection(p).initial, e), now)]
            && after.hasReplica && |after.lagging| == 2
  {
    OneRowStream(f, e, 0);
    var rows, initial := [StoredEvent(1, e)], setup.projection(p).initial;
    assert Events(rows) == [e];
    assert [e][..0] == [];
    assert Fold(setup.projection(p), initial, [e]) == setup.projection(p).apply(initial, e);
    var loaded := Step(w, setup, Load(1, StrongConsistency, p, f));
    assert loaded.sessions[1] == Loaded(p, f, 0, initial);
    var projected := Step(loaded, setup, Project(1, StrongConsistency));
    assert projected.sessions[1] == Projected(p, f, 0, 1, setup.projection(p).apply(initial, e));
  }

  lemma {:induction false} RunConcat<S>(w: World<S>, setup: Setup<S>, a: seq<Action>, b: seq<Action>)
    ensures Run(w, setup, a + b) == Run(Run(w, setup, a), setup, b)
    decreases |a|
  {
    if a == [] {
      assert a + b == b;
    } else {
      assert (a + b)[1..] == a[1..] + b;
      RunConcat(Step(w, setup, a[0]), setup, a[1..], b);
    }
  }

  function Prelude(p: string, f: Filter, e: Event, now: Time): seq<Action> {
    [Query(0, StrongConsistency, AppendOne(e)), Append(0), Load(1, StrongConsistency, p, f),
     Project(1, StrongConsistency)]
    + [Save(1, now), Replicate, Replicate]
  }

  lemma RunOfThree<S>(w: World<S>, setup: Setup<S>, a: Action, b: Action, c: Action)
    ensures Run(w, setup, [a, b, c]) == Step(Step(Step(w, setup, a), setup, b), setup, c)
  {
    assert [a, b, c][1..] == [b, c] && [b, c][1..] == [c];
    RunOfOne(Step(Step(w, setup, a), setup, b), setup, c);
    assert Run(Step(w, setup, a), setup, [b, c]) == Run(Step(Step(w, setup, a), setup, b), setup, [c]);
  }

  lemma ReplicateTwice<S>(w: World<S>, setup: Setup<S>)
    requires |w.lagging| == 2
    ensures Step(Step(w, setup, Replicate), setup, Replicate) == w.(lagging := [])
  {
  }

  lemma AfterPrelude<S>(setup: Setup<S>, p: string, f: Filter, e: Event, now: Time)
    requires p != "" && ForAnyEvent(f)
    ensures var w := Run(Initial<S>(true), setup, Prelude(p, f, e, now));
            && w.primary.events == EventsTable([StoredEvent(1, e)], 2)
            && w.primary.snapshots
               == map[Key(setup, p, f) :=
                      SnapshotRow(1, setup.projection(p).apply(setup.projection(p).initial, e), now)]
            && w.hasReplica && w.lagging == []
  {
    var query, append := Query(0, StrongConsistency, AppendOne(e)), Append(0);
    var load, project, save := Load(1, StrongConsistency, p, f), Project(1, StrongConsistency), Save(1, now);
    var start := Initial<S>(true);
    FirstAppend(setup, e);
    var appended := Step(Step(start, setup, query), setup, append);
    FirstSnapshot(appended, setup, p, f, e, now);
    var projected := Step(Step(appended, setup, load), setup, project);
    RunOfFour(start, setup, query, append, load, project);
    RunConcat(start, setup, [query, append, load, project], [save, Replicate, Replicate]);
    RunOfThree(projected, setup, save, Replicate, Replicate);
    ReplicateTwice(Step(projected, setup, save), setup);
  }

  /** For every projection that one event changes: a run from the empty database to a world the hazards start from. */
  lemma HazardsAreReachable<S>(setup: Setup<S>, p: string, f: Filter, e: Event, now: Time)
    requires SoundSetup(setup) && p != "" && setup.inUse(f) && ForAnyEvent(f)
    requires setup.projection(p).apply(setup.projection(p).initial, e) != setup.projection(p).initial
    ensures var w := Run(Initial<S>(true), setup, Prelude(p, f, e, now));
            && SnapshotsFaithful(w, setup) && UpToDateSnapshot(w, setup, p, f)
            && w.hasReplica && w.lagging == []
  {
    AfterPrelude(setup, p, f, e, now);
    OneRowStream(f, e, 1);
    SnapshotsFaithfulWithoutDeletes(setup, true, Prelude(p, f, e, now));
  }

  /**
    Reopening forgets the filter's own bound: with a bound of 1 or more and one event numbered 1, the run stores a
    snapshot that has folded the event, although the filter's own stream is empty.
   */
  lemma OwnBoundIsForgotten<S>(setup: Setup<S>, p: string, f: Filter, e: Event, now: Time)
    requires p != "" && ForAnyEvent(f) && f.sequenceNumberHigherThan >= 1
    requires setup.projection(p).apply(setup.projection(p).initial, e) != setup.projection(p).initial
    ensures var db := Run(Initial<S>(true), setup, Prelude(p, f, e, now)).primary;
            && Key(setup, p, f) in db.snapshots
            && var row := db.snapshots[Key(setup, p, f)];
               row.data != Fold(setup.projection(p), setup.projection(p).initial,
                                Events(UpTo(Stream(f, db.events.rows), row.sequenceNumber)))
  {
    AfterPrelude(setup, p, f, e, now);
    OneRowStream(f, e, f.sequenceNumberHigherThan);
    assert WithSequenceNumberHigherThan(f, f.sequenceNumberHigherThan) == f;
    assert Events([]) == [];
  }
}
