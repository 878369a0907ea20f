/** Snapshots: the guarded upsert, and why a snapshot plus the newer events equals a full replay. */
module Snapshots {
  import opened Filters
  import opened Streams

  // ---- the snapshots table ----

  datatype SnapshotKey = SnapshotKey(projectionType: string, filterHash: string)

  datatype SnapshotRow<S> = SnapshotRow(sequenceNumber: nat, data: S, createdAt: Time)

  type SnapshotsTable<S> = map<SnapshotKey, SnapshotRow<S>>

  function Greatest(a: nat, b: nat): nat {
    if a < b then b else a
  }

  /** INSERT ... ON CONFLICT DO UPDATE: the three columns, each by its own expression. */
  function Upsert<S>(snapshots: SnapshotsTable<S>, key: SnapshotKey, excluded: SnapshotRow<S>): SnapshotsTable<S> {
    if key !in snapshots then snapshots[key := excluded]
    else
      var stored := snapshots[key];
      snapshots[key := SnapshotRow(
        Greatest(stored.sequenceNumber, excluded.sequenceNumber),
        if excluded.sequenceNumber >= stored.sequenceNumber then excluded.data else stored.data,
        if excluded.sequenceNumber >= stored.sequenceNumber then excluded.createdAt else stored.createdAt)]
  }

  /** The three column expressions together keep the stored row or take the new one whole; no other row changes. */
  lemma UpsertKeepsHigherRow<S>(snapshots: SnapshotsTable<S>, key: SnapshotKey, excluded: SnapshotRow<S>)
    ensures var after := Upsert(snapshots, key, excluded);
            && after.Keys == snapshots.Keys + {key}
            && (forall other | other in snapshots && other != key :: after[other] == snapshots[other])
            && after[key] == if key in snapshots && snapshots[key].sequenceNumber > excluded.sequenceNumber
                             then snapshots[key] else excluded
  {
  }

  /** A save: the row and its key. */
  datatype KeyedRow<S> = KeyedRow(key: SnapshotKey, row: SnapshotRow<S>)

  /** A sequence of saves on any keys, from any table on. */
  function SaveAll<S>(snapshots: SnapshotsTable<S>, saves: seq<KeyedRow<S>>): SnapshotsTable<S> {
    if saves == [] then snapshots
    else
      var last := saves[|saves| - 1];
      Upsert(SaveAll(snapshots, saves[..|saves| - 1]), last.key, last.row)
  }

  /** The rows saved under a key, in order. */
  function SavedUnder<S>(saves: seq<KeyedRow<S>>, key: SnapshotKey): seq<SnapshotRow<S>> {
    if saves == [] then []
    else
      var last := saves[|saves| - 1];
      SavedUnder(saves[..|saves| - 1], key) + if last.key == key then [last.row] else []
  }

  /** The rows that compete for a key: the one stored before, if any, and those saved under it. */
  function Rivals<S>(snapshots: SnapshotsTable<S>, saves: seq<KeyedRow<S>>, key: SnapshotKey): seq<SnapshotRow<S>> {
    (if key in snapshots then [snapshots[key]] else []) + SavedUnder(saves, key)
  }

  lemma {:induction false} SavedUnderElements<S>(saves: seq<KeyedRow<S>>, key: SnapshotKey, row: SnapshotRow<S>)
    ensures row in SavedUnder(saves, key) <==> KeyedRow(key, row) in saves
  {
    if saves != [] {
      SavedUnderElements(saves[..|saves| - 1], key, row);
      assert saves == saves[..|saves| - 1] + [saves[|saves| - 1]];
    }
  }

  lemma RivalsElements<S>(snapshots: SnapshotsTable<S>, saves: seq<KeyedRow<S>>, key: SnapshotKey, row: SnapshotRow<S>)
    ensures row in Rivals(snapshots, saves, key)
            <==> (key in snapshots && row == snapshots[key]) || row in SavedUnder(saves, key)
  {
  }

  lemma {:induction false} SavedUnderConcat<S>(a: seq<KeyedRow<S>>, b: seq<KeyedRow<S>>, key: SnapshotKey)
    ensures SavedUnder(a + b, key) == SavedUnder(a, key) + SavedUnder(b, key)
  {
    if b == [] {
      assert a + b == a;
    } else {
      assert (a + b)[..|a + b| - 1] == a + b[..|b| - 1];
      SavedUnderConcat(a, b[..|b| - 1], key);
    }
  }

  /** The position of the last row that carries the maximum. */
  ghost predicate IsLastMaximum<S>(rows: seq<SnapshotRow<S>>, k: nat) {
    && k < |rows|
    && (forall i | 0 <= i <= k :: rows[i].sequenceNumber <= rows[k].sequenceNumber)
    && (forall i | k < i < |rows| :: rows[i].sequenceNumber < rows[k].sequenceNumber)
  }

  /** The last maximum of all rows but the last, or else the last row, is the last maximum of all. */
  lemma LaterMaximum<S>(init: seq<SnapshotRow<S>>, last: SnapshotRow<S>, m: nat)
    requires IsLastMaximum(init, m)
    ensures IsLastMaximum(init + [last], if last.sequenceNumber >= init[m].sequenceNumber then |init| else m)
  {
    var rows := init + [last];
    assert forall i | 0 <= i < |init| :: rows[i] == init[i];
    assert forall i | 0 <= i < |init| :: init[i].sequenceNumber <= init[m].sequenceNumber;
  }

  /** A save adds a rival for its own key only. */
  lemma RivalsOfLast<S>(snapshots: SnapshotsTable<S>, saves: seq<KeyedRow<S>>, key: SnapshotKey)
    requires saves != []
    ensures var init, last := saves[..|saves| - 1], saves[|saves| - 1];
            Rivals(snapshots, saves, key)
            == Rivals(snapshots, init, key) + if last.key == key then [last.row] else []
  {
  }

  lemma {:induction false} StoredIffRivals<S>(snapshots: SnapshotsTable<S>, saves: seq<KeyedRow<S>>, key: SnapshotKey)
    ensures key in SaveAll(snapshots, saves) <==> Rivals(snapshots, saves, key) != []
  {
    if saves != [] {
      RivalsOfLast(snapshots, saves, key);
      StoredIffRivals(snapshots, saves[..|saves| - 1], key);
    }
  }

  /**
    After any sequence of saves on any keys, from any table on, the row of a key is, in all its columns, the last one
    that carries the maximum sequence number among the row stored before and those saved under the key.
   */
  lemma {:induction false} LastMaximumIsStored<S>(snapshots: SnapshotsTable<S>, saves: seq<KeyedRow<S>>,
                                                  key: SnapshotKey)
    returns (k: nat)
    requires Rivals(snapshots, saves, key) != []
    ensures IsLastMaximum(Rivals(snapshots, saves, key), k)
    ensures key in SaveAll(snapshots, saves)
    ensures SaveAll(snapshots, saves)[key] == Rivals(snapshots, saves, key)[k]
  {
    StoredIffRivals(snapshots, saves, key);
    if saves == [] {
      k := 0;
    } else {
      var init, last := saves[..|saves| - 1], saves[|saves| - 1];
      var before := Rivals(snapshots, init, key);
      RivalsOfLast(snapshots, saves, key);
      UpsertKeepsHigherRow(SaveAll(snapshots, init), last.key, last.row);
      StoredIffRivals(snapshots, init, key);
      if before == [] {
        k := 0;
      } else {
        k := LastMaximumIsStored(snapshots, init, key);
        if last.key == key {
          LaterMaximum(before, last.row, k);
          k := if last.row.sequenceNumber >= before[k].sequenceNumber then |before| else k;
        } else {
          assert before + [] == before;
        }
      }
    }
  }

  /** Over a run of saves the stored sequence number of a key never decreases. */
  lemma StoredSequenceNeverDecreases<S>(snapshots: SnapshotsTable<S>, saves: seq<KeyedRow<S>>, more: seq<KeyedRow<S>>,
                                        key: SnapshotKey)
    requires key in SaveAll(snapshots, saves)
    ensures key in SaveAll(snapshots, saves + more)
    ensures SaveAll(snapshots, saves)[key].sequenceNumber <= SaveAll(snapshots, saves + more)[key].sequenceNumber
  {
    StoredIffRivals(snapshots, saves, key);
    var before, after := Rivals(snapshots, saves, key), Rivals(snapshots, saves + more, key);
    SavedUnderConcat(saves, more, key);
    assert after == before + SavedUnder(more, key);
    var k := LastMaximumIsStored(snapshots, saves, key);
    var n := LastMaximumIsStored(snapshots, saves + more, key);
    assert after[k] == before[k];
  }

  /** No two saves under one key have the same sequence number. */
  ghost predicate DistinctSequences<S>(saves: seq<KeyedRow<S>>) {
    forall i, j | 0 <= i < j < |saves| && saves[i].key == saves[j].key ::
      saves[i].row.sequenceNumber != saves[j].row.sequenceNumber
  }

  lemma PermutedRivals<S>(snapshots: SnapshotsTable<S>, saves: seq<KeyedRow<S>>, permuted: seq<KeyedRow<S>>,
                          key: SnapshotKey, row: SnapshotRow<S>)
    requires multiset(saves) == multiset(permuted)
    ensures row in SavedUnder(saves, key) <==> row in SavedUnder(permuted, key)
    ensures row in Rivals(snapshots, saves, key) <==> row in Rivals(snapshots, permuted, key)
  {
    SavedUnderElements(saves, key, row);
    SavedUnderElements(permuted, key, row);
    assert KeyedRow(key, row) in multiset(saves) <==> KeyedRow(key, row) in multiset(permuted);
    RivalsElements(snapshots, saves, key, row);
    RivalsElements(snapshots, permuted, key, row);
  }

  lemma SameSequenceSameRow<S>(saves: seq<KeyedRow<S>>, key: SnapshotKey, x: SnapshotRow<S>, y: SnapshotRow<S>)
    requires DistinctSequences(saves) && x in SavedUnder(saves, key) && y in SavedUnder(saves, key)
    requires x.sequenceNumber == y.sequenceNumber
    ensures x == y
  {
    SavedUnderElements(saves, key, x);
    SavedUnderElements(saves, key, y);
  }

  lemma PermutedRowsAgree<S>(snapshots: SnapshotsTable<S>, saves: seq<KeyedRow<S>>, permuted: seq<KeyedRow<S>>,
                             key: SnapshotKey)
    requires multiset(saves) == multiset(permuted) && DistinctSequences(saves)
    requires Rivals(snapshots, saves, key) != [] && Rivals(snapshots, permuted, key) != []
    ensures key in SaveAll(snapshots, saves) && key in SaveAll(snapshots, permuted)
    ensures SaveAll(snapshots, saves)[key] == SaveAll(snapshots, permuted)[key]
  {
    var a, b := Rivals(snapshots, saves, key), Rivals(snapshots, permuted, key);
    var j := LastMaximumIsStored(snapshots, saves, key);
    var k := LastMaximumIsStored(snapshots, permuted, key);
    PermutedRivals(snapshots, saves, permuted, key, a[j]);
    PermutedRivals(snapshots, saves, permuted, key, b[k]);
    assert a[j] in b && b[k] in a;
    assert a[j].sequenceNumber == b[k].sequenceNumber;
    RivalsElements(snapshots, saves, key, a[j]);
    RivalsElements(snapshots, permuted, key, b[k]);
    if a[j] in SavedUnder(saves, key) && b[k] in SavedUnder(saves, key) {
      SameSequenceSameRow(saves, key, a[j], b[k]);
    }
  }

  /** The order of saves does not matter if those under one key have distinct sequence numbers. */
  lemma PermutedSavesAgree<S>(snapshots: SnapshotsTable<S>, saves: seq<KeyedRow<S>>, permuted: seq<KeyedRow<S>>)
    requires multiset(saves) == multiset(permuted) && DistinctSequences(saves)
    ensures SaveAll(snapshots, saves) == SaveAll(snapshots, permuted)
  {
    var a, b := SaveAll(snapshots, saves), SaveAll(snapshots, permuted);
    forall key ensures key in a <==> key in b {
      PermutedKeysAgree(snapshots, saves, permuted, key);
    }
    forall key | key in a ensures a[key] == b[key] {
      StoredIffRivals(snapshots, saves, key);
      StoredIffRivals(snapshots, permuted, key);
      PermutedRowsAgree(snapshots, saves, permuted, key);
    }
  }

  lemma PermutedKeysAgree<S>(snapshots: SnapshotsTable<S>, saves: seq<KeyedRow<S>>, permuted: seq<KeyedRow<S>>,
                             key: SnapshotKey)
    requires multiset(saves) == multiset(permuted)
    ensures key in SaveAll(snapshots, saves) <==> key in SaveAll(snapshots, permuted)
  {
    StoredIffRivals(snapshots, saves, key);
    StoredIffRivals(snapshots, permuted, key);
    var a, b := Rivals(snapshots, saves, key), Rivals(snapshots, permuted, key);
    if a != [] {
      PermutedRivals(snapshots, saves, permuted, key, a[0]);
    }
    if b != [] {
      PermutedRivals(snapshots, saves, permuted, key, b[0]);
    }
  }

  // ---- projections ----

  /** A projection: its initial state and how one event changes it. */
  datatype Projection<!S> = Projection(initial: S, apply: (S, Event) -> S)

  function Fold<S>(p: Projection<S>, state: S, events: seq<Event>): S {
    if events == [] then state else p.apply(Fold(p, state, events[..|events| - 1]), events[|events| - 1])
  }

  lemma {:induction false} FoldConcat<S>(p: Projection<S>, state: S, a: seq<Event>, b: seq<Event>)
    ensures Fold(p, state, a + b) == Fold(p, Fold(p, state, a), b)
  {
    if b == [] {
      assert a + b == a;
    } else {
      assert (a + b)[..|a + b| - 1] == a + b[..|b| - 1];
      FoldConcat(p, state, a, b[..|b| - 1]);
    }
  }

  // ---- a stream cut at a sequence number ----

  function UpTo(rows: seq<StoredEvent>, n: nat): seq<StoredEvent> {
    if rows == [] then []
    else UpTo(rows[..|rows| - 1], n) + if rows[|rows| - 1].sequenceNumber <= n then [rows[|rows| - 1]] else []
  }

  function Above(rows: seq<StoredEvent>, n: nat): seq<StoredEvent> {
    if rows == [] then []
    else Above(rows[..|rows| - 1], n) + if rows[|rows| - 1].sequenceNumber > n then [rows[|rows| - 1]] else []
  }

  lemma {:induction false} AllUpTo(rows: seq<StoredEvent>, n: nat)
    requires forall i | 0 <= i < |rows| :: rows[i].sequenceNumber <= n
    ensures UpTo(rows, n) == rows && Above(rows, n) == []
  {
    if rows != [] {
      var init := rows[..|rows| - 1];
      assert forall i | 0 <= i < |init| :: init[i] == rows[i];
      AllUpTo(init, n);
      assert rows[|rows| - 1].sequenceNumber <= n;
      assert UpTo(rows, n) == UpTo(init, n) + [rows[|rows| - 1]];
      assert Above(rows, n) == Above(init, n) + [];
    }
  }

  lemma {:induction false} AllAbove(rows: seq<StoredEvent>, n: nat)
    requires forall i | 0 <= i < |rows| :: rows[i].sequenceNumber > n
    ensures UpTo(rows, n) == [] && Above(rows, n) == rows
  {
    if rows != [] {
      var init := rows[..|rows| - 1];
      assert forall i | 0 <= i < |init| :: init[i] == rows[i];
      AllAbove(init, n);
      assert rows[|rows| - 1].sequenceNumber > n;
      assert UpTo(rows, n) == UpTo(init, n) + [];
      assert Above(rows, n) == Above(init, n) + [rows[|rows| - 1]];
    }
  }

  lemma {:induction false} UpToConcat(a: seq<StoredEvent>, b: seq<StoredEvent>, n: nat)
    ensures UpTo(a + b, n) == UpTo(a, n) + UpTo(b, n)
  {
    if b == [] {
      assert a + b == a;
    } else {
      assert (a + b)[..|a + b| - 1] == a + b[..|b| - 1];
      UpToConcat(a, b[..|b| - 1], n);
    }
  }

  /** Cutting an increasing list gives a prefix and the rest. */
  lemma {:induction false} CutIsPrefixAndRest(rows: seq<StoredEvent>, n: nat)
    requires Increasing(rows)
    ensures UpTo(rows, n) + Above(rows, n) == rows
  {
    if rows != [] {
      var init, last := rows[..|rows| - 1], rows[|rows| - 1];
      if last.sequenceNumber <= n {
        assert forall i | 0 <= i < |init| :: init[i] == rows[i];
        AllUpTo(rows, n);
      } else {
        CutIsPrefixAndRest(init, n);
        assert UpTo(rows, n) + Above(rows, n) == (UpTo(init, n) + Above(init, n)) + [last];
      }
    }
  }

  lemma {:induction false} AboveElements(rows: seq<StoredEvent>, n: nat, row: StoredEvent)
    ensures row in Above(rows, n) <==> row in rows && row.sequenceNumber > n
    ensures row in UpTo(rows, n) <==> row in rows && row.sequenceNumber <= n
  {
    if rows != [] {
      AboveElements(rows[..|rows| - 1], n, row);
      assert rows == rows[..|rows| - 1] + [rows[|rows| - 1]];
    }
  }

  // ---- reopening a filter at a snapshot ----

  /** No row between the snapshot and the filter's own bound has a matching event. */
  ghost predicate NothingHiddenByOwnBound(f: Filter, rows: seq<StoredEvent>, n: nat) {
    forall i | 0 <= i < |rows| && n < rows[i].sequenceNumber <= f.sequenceNumberHigherThan ::
      !ItemsMatch(f.items, rows[i].event)
  }

  ghost predicate Positive(rows: seq<StoredEvent>) {
    forall i | 0 <= i < |rows| :: rows[i].sequenceNumber >= 1
  }

  lemma ReopenedMatches(f: Filter, n: nat, row: StoredEvent)
    requires !HasTimeBounds(f) && row.sequenceNumber >= 1
    ensures Matches(WithSequenceNumberHigherThan(f, n), row)
            <==> ItemsMatch(f.items, row.event) && row.sequenceNumber > n
    ensures Matches(f, row) <==> ItemsMatch(f.items, row.event) && row.sequenceNumber > f.sequenceNumberHigherThan
  {
  }

  lemma {:induction false} ReopenedStream(f: Filter, rows: seq<StoredEvent>, n: nat)
    requires !HasTimeBounds(f) && Positive(rows) && NothingHiddenByOwnBound(f, rows, n)
    ensures Stream(WithSequenceNumberHigherThan(f, n), rows) == Above(Stream(f, rows), n)
  {
    if rows != [] {
      var init, last := rows[..|rows| - 1], rows[|rows| - 1];
      assert forall i | 0 <= i < |init| :: init[i] == rows[i];
      ReopenedStream(f, init, n);
      ReopenedMatches(f, n, last);
      var s := Stream(f, init);
      assert (s + [last])[..|s|] == s && s + [] == s;
    }
  }

  /**
    A full replay splits at sequence number n - the matching events up to n, then the stream of the filter
    reopened at n - if and only if the filter's own bound, which reopening drops, hides no event above n.
    A bound of at most n never does.
   */
  lemma ReplaySplitsIffNothingHidden(f: Filter, t: EventsTable, n: nat)
    requires ValidTable(t) && !HasTimeBounds(f)
    ensures Stream(f, t.rows) == UpTo(Stream(f, t.rows), n) + Stream(WithSequenceNumberHigherThan(f, n), t.rows)
            <==> NothingHiddenByOwnBound(f, t.rows, n)
    ensures f.sequenceNumberHigherThan <= n ==> NothingHiddenByOwnBound(f, t.rows, n)
  {
    var reopened := WithSequenceNumberHigherThan(f, n);
    if NothingHiddenByOwnBound(f, t.rows, n) {
      ReopenedStream(f, t.rows, n);
      StreamIsIncreasing(f, t.rows);
      CutIsPrefixAndRest(Stream(f, t.rows), n);
    } else {
      var i :| 0 <= i < |t.rows| && n < t.rows[i].sequenceNumber <= f.sequenceNumberHigherThan
          && ItemsMatch(f.items, t.rows[i].event);
      var row := t.rows[i];
      ReopenedMatches(f, n, row);
      StreamElements(reopened, t.rows, row);
      StreamElements(f, t.rows, row);
      assert row in UpTo(Stream(f, t.rows), n) + Stream(reopened, t.rows);
    }
  }

  /** Folding from a snapshot at n equals folding from the start. */
  lemma FoldFromSnapshot<S>(p: Projection<S>, f: Filter, t: EventsTable, n: nat)
    requires ValidTable(t) && !HasTimeBounds(f) && f.sequenceNumberHigherThan <= n
    ensures var snapshot := Fold(p, p.initial, Events(UpTo(Stream(f, t.rows), n)));
            Fold(p, snapshot, Events(Stream(WithSequenceNumberHigherThan(f, n), t.rows)))
            == Fold(p, p.initial, Events(Stream(f, t.rows)))
  {
    ReplaySplitsIffNothingHidden(f, t, n);
    var a, b := UpTo(Stream(f, t.rows), n), Stream(WithSequenceNumberHigherThan(f, n), t.rows);
    assert Events(a + b) == Events(a) + Events(b);
    FoldConcat(p, p.initial, Events(a), Events(b));
  }

  // ---- when a projection state is right for a sequence number ----

  /** The filter as the projection pattern queries it: reopened, its own bound and time bounds dropped. */
  function Unbounded(f: Filter): Filter {
    WithSequenceNumberHigherThan(f, 0)
  }

  lemma UnboundedFilter(f: Filter)
    requires !HasTimeBounds(f) && f.sequenceNumberHigherThan == 0
    ensures Unbounded(f) == f
  {
  }

  /**
    data is right for n: the fold of the unbounded filter's events up to n, a sequence number the table has passed.
    OwnFoldIffNothingBelowOwnBound says when these are the filter's own events.
   */
  ghost predicate Faithful<S>(p: Projection<S>, f: Filter, t: EventsTable, n: nat, data: S) {
    n < t.next && data == Fold(p, p.initial, Events(UpTo(Stream(Unbounded(f), t.rows), n)))
  }

  // ---- when the unbounded filter's events are the filter's own ----

  /** No row up to n that the filter's own bound shuts out has a matching event. */
  ghost predicate NothingBelowOwnBound(f: Filter, rows: seq<StoredEvent>, n: nat) {
    forall i | 0 <= i < |rows| && rows[i].sequenceNumber <= n && rows[i].sequenceNumber <= f.sequenceNumberHigherThan ::
      !ItemsMatch(f.items, rows[i].event)
  }

  /** The own cut lacks events exactly if the own bound shuts some out. */
  lemma {:induction false} OwnCutIsShorter(f: Filter, rows: seq<StoredEvent>, n: nat)
    requires !HasTimeBounds(f) && Positive(rows)
    ensures var own, all := UpTo(Stream(f, rows), n), UpTo(Stream(Unbounded(f), rows), n);
            && |own| <= |all|
            && (|own| == |all| <==> own == all)
            && (own == all <==> NothingBelowOwnBound(f, rows, n))
  {
    if rows != [] {
      var init, last := rows[..|rows| - 1], rows[|rows| - 1];
      assert forall i | 0 <= i < |init| :: init[i] == rows[i];
      OwnCutIsShorter(f, init, n);
      CutOfLast(f, init, last, n);
      CutOfLast(Unbounded(f), init, last, n);
      ReopenedMatches(f, 0, last);
      NothingBelowOfLast(f, rows, n);
    }
  }

  lemma NothingBelowOfLast(f: Filter, rows: seq<StoredEvent>, n: nat)
    requires rows != []
    ensures var last := rows[|rows| - 1];
            NothingBelowOwnBound(f, rows, n)
            <==> NothingBelowOwnBound(f, rows[..|rows| - 1], n)
                 && !(last.sequenceNumber <= n && last.sequenceNumber <= f.sequenceNumberHigherThan
                      && ItemsMatch(f.items, last.event))
  {
    var init := rows[..|rows| - 1];
    assert forall i | 0 <= i < |init| :: init[i] == rows[i];
  }

  lemma CutOfLast(f: Filter, init: seq<StoredEvent>, last: StoredEvent, n: nat)
    ensures UpTo(Stream(f, init + [last]), n)
            == UpTo(Stream(f, init), n) + if Matches(f, last) && last.sequenceNumber <= n then [last] else []
  {
    var s := Stream(f, init);
    assert (init + [last])[..|init|] == init;
    assert (s + [last])[..|s|] == s && s + [] == s;
  }

  /** The projection that records what it is given. */
  const RECORD: Projection<seq<Event>> := Projection([], Recorded)

  function Recorded(state: seq<Event>, e: Event): seq<Event> {
    state + [e]
  }

  lemma {:induction false} RecordIsFaithful(events: seq<Event>)
    ensures Fold(RECORD, [], events) == events
  {
    if events != [] {
      var init, last := events[..|events| - 1], events[|events| - 1];
      RecordIsFaithful(init);
      assert Recorded(init, last) == events;
    }
  }

  /**
    Reopening drops the filter's own sequence bound. The state that is right for n is the fold of the filter's own
    events up to n, whatever the projection, if and only if that bound shuts out no matching event up to n.
   */
  lemma OwnFoldIffNothingBelowOwnBound(f: Filter, t: EventsTable, n: nat)
    requires ValidTable(t) && !HasTimeBounds(f)
    ensures var own, all := UpTo(Stream(f, t.rows), n), UpTo(Stream(Unbounded(f), t.rows), n);
            && (own == all <==> NothingBelowOwnBound(f, t.rows, n))
            && (Fold(RECORD, [], Events(own)) == Fold(RECORD, [], Events(all)) <==> NothingBelowOwnBound(f, t.rows, n))
  {
    var own, all := UpTo(Stream(f, t.rows), n), UpTo(Stream(Unbounded(f), t.rows), n);
    OwnCutIsShorter(f, t.rows, n);
    RecordIsFaithful(Events(own));
    RecordIsFaithful(Events(all));
    if own != all {
      assert |Events(own)| != |Events(all)|;
    }
  }

  /** A filter without a sequence bound of its own: right means the fold of its own events. */
  lemma FaithfulIsOwnFold<S>(p: Projection<S>, f: Filter, t: EventsTable, n: nat, data: S)
    requires ValidTable(t) && !HasTimeBounds(f) && Faithful(p, f, t, n, data)
    requires f.sequenceNumberHigherThan == 0 || NothingBelowOwnBound(f, t.rows, n)
    ensures data == Fold(p, p.initial, Events(UpTo(Stream(f, t.rows), n)))
  {
    if f.sequenceNumberHigherThan == 0 {
      UnboundedFilter(f);
    } else {
      OwnFoldIffNothingBelowOwnBound(f, t, n);
    }
  }

  // ---- a right state stays right ----

  lemma StreamSequencesAreOld(f: Filter, t: EventsTable)
    requires ValidTable(t)
    ensures forall i | 0 <= i < |Stream(f, t.rows)| :: 1 <= Stream(f, t.rows)[i].sequenceNumber < t.next
  {
    var s := Stream(f, t.rows);
    forall i | 0 <= i < |s| ensures 1 <= s[i].sequenceNumber < t.next {
      StreamElements(f, t.rows, s[i]);
    }
  }

  /** Cutting below what an earlier table had reached gives the same list in every later table. */
  lemma CutIsStable(f: Filter, t: EventsTable, u: EventsTable, n: nat)
    requires ValidTable(t) && Extends(t, u) && n < t.next
    ensures UpTo(Stream(f, u.rows), n) == UpTo(Stream(f, t.rows), n)
  {
    var newer := LaterStream(f, t, u);
    AllAbove(newer, n);
    UpToConcat(Stream(f, t.rows), newer, n);
  }

  lemma FaithfulForever<S>(p: Projection<S>, f: Filter, t: EventsTable, u: EventsTable, n: nat, data: S)
    requires ValidTable(t) && Extends(t, u) && Faithful(p, f, t, n, data)
    ensures Faithful(p, f, u, n, data)
  {
    CutIsStable(Unbounded(f), t, u, n);
  }

  lemma FaithfulAtZero<S>(p: Projection<S>, f: Filter, t: EventsTable, data: S)
    requires ValidTable(t)
    ensures Faithful(p, f, t, 0, data) <==> data == p.initial
  {
    StreamSequencesAreOld(Unbounded(f), t);
    AllAbove(Stream(Unbounded(f), t.rows), 0);
  }

  lemma IncrementalStream(f: Filter, t: EventsTable, n: nat)
    requires ValidTable(t)
    ensures Stream(WithSequenceNumberHigherThan(f, n), t.rows) == Above(Stream(Unbounded(f), t.rows), n)
  {
    ReopenedStream(Unbounded(f), t.rows, n);
  }

  /** What an incremental query on q returns after n: the rest of q's stream, ending at its last row. */
  lemma IncrementCompletesStream(f: Filter, q: EventsTable, n: nat)
    requires ValidTable(q)
    ensures var seen, newer := Stream(Unbounded(f), q.rows), Stream(WithSequenceNumberHigherThan(f, n), q.rows);
            && UpTo(seen, n) + newer == seen
            && (newer != [] ==> n < LastSequence(newer) < q.next && UpTo(seen, LastSequence(newer)) == seen)
  {
    var seen, newer := Stream(Unbounded(f), q.rows), Stream(WithSequenceNumberHigherThan(f, n), q.rows);
    IncrementalStream(f, q, n);
    StreamIsIncreasing(Unbounded(f), q.rows);
    CutIsPrefixAndRest(seen, n);
    if newer != [] {
      var last := newer[|newer| - 1];
      AboveElements(seen, n, last);
      StreamElements(Unbounded(f), q.rows, last);
      assert seen[|seen| - 1] == last;
      AllUpTo(seen, last.sequenceNumber);
    }
  }

  /** Up to where a state has folded after an increment that starts from n and reports this maximum. */
  function ReachedFrom(n: nat, max: nat): nat {
    if max > 0 then max else n
  }

  /** After the increment every event of q's stream has been folded. */
  lemma IncrementCoversQueried(f: Filter, q: EventsTable, n: nat)
    requires ValidTable(q)
    ensures var seen := Stream(Unbounded(f), q.rows);
            var reached := ReachedFrom(n, LastSequence(Stream(WithSequenceNumberHigherThan(f, n), q.rows)));
            forall i | 0 <= i < |seen| :: seen[i].sequenceNumber <= reached
  {
    var seen, newer := Stream(Unbounded(f), q.rows), Stream(WithSequenceNumberHigherThan(f, n), q.rows);
    var reached := ReachedFrom(n, LastSequence(newer));
    IncrementCompletesStream(f, q, n);
    assert newer == [] ==> UpTo(seen, n) + newer == UpTo(seen, n);
    assert UpTo(seen, reached) == seen;
    forall i | 0 <= i < |seen| ensures seen[i].sequenceNumber <= reached {
      AboveElements(seen, reached, seen[i]);
    }
  }

  lemma FoldOfParts<S>(p: Projection<S>, a: seq<StoredEvent>, b: seq<StoredEvent>)
    ensures Fold(p, p.initial, Events(a + b)) == Fold(p, Fold(p, p.initial, Events(a)), Events(b))
  {
    assert Events(a + b) == Events(a) + Events(b);
    FoldConcat(p, p.initial, Events(a), Events(b));
  }

  /**
    The incremental step: from a state that is right for n on the table t, folding the events above n that an
    earlier or equal table q shows gives the state that is right for q's last matching event.
   */
  lemma IncrementIsFaithful<S>(p: Projection<S>, f: Filter, q: EventsTable, t: EventsTable, n: nat, data: S)
    requires ValidTable(q) && ValidTable(t) && Extends(q, t) && Faithful(p, f, t, n, data)
    ensures var newer := Stream(WithSequenceNumberHigherThan(f, n), q.rows);
            newer != [] ==>
              LastSequence(newer) > 0 && Faithful(p, f, t, LastSequence(newer), Fold(p, data, Events(newer)))
  {
    var newer := Stream(WithSequenceNumberHigherThan(f, n), q.rows);
    if newer != [] {
      IncrementCompletesStream(f, q, n);
      CutIsStable(Unbounded(f), q, t, LastSequence(newer));
      CutIsStable(Unbounded(f), q, t, n);
      FoldOfParts(p, UpTo(Stream(Unbounded(f), q.rows), n), newer);
    }
  }

  /** The elements numbered up to n are those before the cut. */
  lemma CutSeparates(s: seq<StoredEvent>, n: nat)
    requires UpTo(s, n) + Above(s, n) == s
    ensures forall i | 0 <= i < |s| :: i < |UpTo(s, n)| <==> s[i].sequenceNumber <= n
  {
    var k := |UpTo(s, n)|;
    forall i | 0 <= i < |s| ensures i < k <==> s[i].sequenceNumber <= n {
      assert s[i] == if i < k then UpTo(s, n)[i] else Above(s, n)[i - k];
      AboveElements(s, n, s[i]);
    }
  }

  /** A right state is the fold of a prefix of the stream: no event is skipped or repeated. */
  lemma FaithfulIsPrefixFold<S>(p: Projection<S>, f: Filter, t: EventsTable, n: nat, data: S) returns (k: nat)
    requires ValidTable(t) && Faithful(p, f, t, n, data)
    ensures var stream := Stream(Unbounded(f), t.rows);
            && k <= |stream| && data == Fold(p, p.initial, Events(stream[..k]))
            && (forall i | 0 <= i < |stream| :: i < k <==> stream[i].sequenceNumber <= n)
  {
    var stream := Stream(Unbounded(f), t.rows);
    StreamIsIncreasing(Unbounded(f), t.rows);
    CutIsPrefixAndRest(stream, n);
    CutSeparates(stream, n);
    k := |UpTo(stream, n)|;
    assert stream[..k] == UpTo(stream, n);
  }

  /**
    Folding the events above n that an earlier or equal table q shows gives the fold of a prefix of t's stream,
    at least of what q shows of it.
   */
  lemma IncrementIsPrefixFold<S>(p: Projection<S>, f: Filter, q: EventsTable, t: EventsTable, n: nat, data: S)
    returns (k: nat)
    requires ValidTable(q) && ValidTable(t) && Extends(q, t) && Faithful(p, f, t, n, data)
    ensures var stream := Stream(Unbounded(f), t.rows);
            && |Stream(Unbounded(f), q.rows)| <= k <= |stream|
            && Fold(p, data, Events(Stream(WithSequenceNumberHigherThan(f, n), q.rows)))
               == Fold(p, p.initial, Events(stream[..k]))
  {
    var newer := Stream(WithSequenceNumberHigherThan(f, n), q.rows);
    var reached, state := ReachedFrom(n, LastSequence(newer)), Fold(p, data, Events(newer));
    IncrementIsFaithful(p, f, q, t, n, data);
    assert Faithful(p, f, t, reached, state);
    k := FaithfulIsPrefixFold(p, f, t, reached, state);
    IncrementCoversQueried(f, q, n);
    SameMaxIffSameStream(Unbounded(f), q, t);
    PrefixEndsBeforeCut(Stream(Unbounded(f), q.rows), Stream(Unbounded(f), t.rows), k, reached);
  }

  lemma PrefixEndsBeforeCut(seen: seq<StoredEvent>, stream: seq<StoredEvent>, k: nat, n: nat)
    requires seen <= stream && forall i | 0 <= i < |stream| :: i < k <==> stream[i].sequenceNumber <= n
    requires forall i | 0 <= i < |seen| :: seen[i].sequenceNumber <= n
    ensures |seen| <= k
  {
    if seen != [] {
      assert stream[|seen| - 1] == seen[|seen| - 1];
    }
  }
}
