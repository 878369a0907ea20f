/** Stored events, and filters with the meaning their documentation gives them. */
module Filters {

  /** An instant; 0 is Go's zero time, which filters read as "no bound". */
  type Time = int

  const ZERO_TIME: Time := 0

  /** A StorableEvent; of the payload, the top-level string fields that predicates can test. */
  datatype Event = Event(eventType: string, occurredAt: Time, payload: map<string, string>, metadata: string)

  /** A row of the events table. */
  datatype StoredEvent = StoredEvent(sequenceNumber: nat, event: Event)

  datatype FilterPredicate = P(key: string, val: string)

  datatype FilterItem = FilterItem(eventTypes: seq<string>, predicates: seq<FilterPredicate>,
                                   allPredicatesMustMatch: bool)

  datatype Filter = Filter(items: seq<FilterItem>, occurredFrom: Time, occurredUntil: Time,
                           sequenceNumberHigherThan: nat)

  const EMPTY_ITEM := FilterItem([], [], false)
  const EMPTY_FILTER := Filter([], ZERO_TIME, ZERO_TIME, 0)

  // ---- reopening a finalized filter for sequence filtering ----

  datatype Reopened = SequenceFilteringCapable(baseFilter: Filter) | SequenceFilteringIncompatible

  predicate HasTimeBounds(f: Filter) {
    f.occurredFrom != ZERO_TIME || f.occurredUntil != ZERO_TIME
  }

  function ReopenForSequenceFiltering(f: Filter): Reopened {
    if HasTimeBounds(f) then SequenceFilteringIncompatible else SequenceFilteringCapable(f)
  }

  /** The reopened builder's WithSequenceNumberHigherThan(n).Finalize(): replaces the filter's own bound. */
  function WithSequenceNumberHigherThan(baseFilter: Filter, sequenceNumber: nat): Filter {
    Filter(baseFilter.items, ZERO_TIME, ZERO_TIME, sequenceNumber)
  }

  // ---- what a filter selects ----

  predicate PredicateHolds(p: FilterPredicate, e: Event) {
    p.key in e.payload && e.payload[p.key] == p.val
  }

  predicate PredicatesHold(predicates: seq<FilterPredicate>, all: bool, e: Event) {
    if all then forall p | p in predicates :: PredicateHolds(p, e)
    else exists p | p in predicates :: PredicateHolds(p, e)
  }

  predicate IsEmptyItem(item: FilterItem) {
    item.eventTypes == [] && item.predicates == []
  }

  /** Event types are alternatives; an absent list of types or of predicates restricts nothing. */
  predicate ItemMatches(item: FilterItem, e: Event) {
    && (item.eventTypes == [] || e.eventType in item.eventTypes)
    && (item.predicates == [] || PredicatesHold(item.predicates, item.allPredicatesMustMatch, e))
  }

  /** Items are alternatives; items without any condition count only when there is no other item. */
  predicate ItemsMatch(items: seq<FilterItem>, e: Event) {
    || (forall item | item in items :: IsEmptyItem(item))
    || (exists item | item in items :: !IsEmptyItem(item) && ItemMatches(item, e))
  }

  predicate TimesMatch(f: Filter, e: Event) {
    && (f.occurredFrom == ZERO_TIME || f.occurredFrom <= e.occurredAt)
    && (f.occurredUntil == ZERO_TIME || e.occurredAt <= f.occurredUntil)
  }

  predicate SequenceMatches(f: Filter, sequenceNumber: nat) {
    f.sequenceNumberHigherThan == 0 || sequenceNumber > f.sequenceNumberHigherThan
  }

  predicate Matches(f: Filter, row: StoredEvent) {
    ItemsMatch(f.items, row.event) && TimesMatch(f, row.event) && SequenceMatches(f, row.sequenceNumber)
  }

  /** One item in plain terms, for an item that restricts anything. */
  lemma ItemMatchesInPlainTerms(item: FilterItem, e: Event)
    requires |item.eventTypes| > 0 || |item.predicates| > 0
    ensures ItemMatches(item, e)
            <==> && (|item.eventTypes| > 0 ==>
                       exists i | 0 <= i < |item.eventTypes| :: item.eventTypes[i] == e.eventType)
                 && (|item.predicates| > 0 && item.allPredicatesMustMatch ==>
                       forall p | p in item.predicates :: p.key in e.payload && e.payload[p.key] == p.val)
                 && (|item.predicates| > 0 && !item.allPredicatesMustMatch ==>
                       exists p | p in item.predicates :: p.key in e.payload && e.payload[p.key] == p.val)
  {
    if ItemMatches(item, e) && |item.predicates| > 0 && !item.allPredicatesMustMatch {
      var p :| p in item.predicates && PredicateHolds(p, e);
      assert p.key in e.payload && e.payload[p.key] == p.val;
    }
  }

  /** Items are alternatives; bounds restrict all of them: times inclusively, the sequence number exclusively. */
  lemma MatchesInPlainTerms(f: Filter, row: StoredEvent)
    ensures Matches(f, row)
            <==> && ((exists i | 0 <= i < |f.items| ::
                        |f.items[i].eventTypes| + |f.items[i].predicates| > 0 && ItemMatches(f.items[i], row.event))
                     || forall i | 0 <= i < |f.items| :: |f.items[i].eventTypes| + |f.items[i].predicates| == 0)
                 && (f.occurredFrom == 0 || row.event.occurredAt >= f.occurredFrom)
                 && (f.occurredUntil == 0 || row.event.occurredAt <= f.occurredUntil)
                 && (f.sequenceNumberHigherThan == 0 || row.sequenceNumber >= f.sequenceNumberHigherThan + 1)
  {
    assert forall i | 0 <= i < |f.items| :: f.items[i] in f.items;
  }

  /**
    A filter can be reopened exactly if it has no time bound, and reopening it at n, at or above its own bound, selects
    exactly its own rows above n: nothing is widened.
   */
  lemma ReopeningSelectsOwnRowsAbove(f: Filter, n: nat, row: StoredEvent)
    requires n >= f.sequenceNumberHigherThan && row.sequenceNumber >= 1
    ensures ReopenForSequenceFiltering(f).SequenceFilteringIncompatible?
            <==> f.occurredFrom != ZERO_TIME || f.occurredUntil != ZERO_TIME
    ensures match ReopenForSequenceFiltering(f)
            case SequenceFilteringCapable(base) =>
              Matches(WithSequenceNumberHigherThan(base, n), row) <==> Matches(f, row) && row.sequenceNumber > n
            case SequenceFilteringIncompatible => true
  {
  }
}
