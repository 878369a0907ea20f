/** The filter-to-WHERE compiler: the expression tree it builds, and what the tree selects. */
module WhereClause {
  import opened Filters

  /**
    The query builder's expressions. It drops an empty list when it nests it in another list and writes no
    WHERE clause for an empty outermost list.
   */
  datatype Expr =
    | EventTypeIs(eventType: string)
    | PayloadContains(key: string, val: string)
    | OccurredAtGte(time: Time)
    | OccurredAtLte(time: Time)
    | SequenceNumberGt(n: nat)
    | AndList(parts: seq<Expr>)
    | OrList(parts: seq<Expr>)

  predicate IsEmptyList(e: Expr) {
    (e.AndList? || e.OrList?) && e.parts == []
  }

  function DropEmpty(es: seq<Expr>): seq<Expr> {
    if es == [] then []
    else DropEmpty(es[..|es| - 1]) + if IsEmptyList(es[|es| - 1]) then [] else [es[|es| - 1]]
  }

  /** goqu.And and goqu.Or. */
  function And(es: seq<Expr>): Expr {
    AndList(DropEmpty(es))
  }

  function Or(es: seq<Expr>): Expr {
    OrList(DropEmpty(es))
  }

  /** SQL's meaning of an expression for one row of the events table. */
  predicate Holds(e: Expr, row: StoredEvent) {
    match e
    case EventTypeIs(eventType) => row.event.eventType == eventType
    case PayloadContains(key, val) => key in row.event.payload && row.event.payload[key] == val
    case OccurredAtGte(time) => row.event.occurredAt >= time
    case OccurredAtLte(time) => row.event.occurredAt <= time
    case SequenceNumberGt(n) => row.sequenceNumber > n
    case AndList(parts) => forall p | p in parts :: Holds(p, row)
    case OrList(parts) => exists p | p in parts :: Holds(p, row)
  }

  /** SELECT ... WHERE root: an empty root leaves the clause out. */
  predicate Selected(root: Expr, row: StoredEvent) {
    IsEmptyList(root) || Holds(root, row)
  }

  /** Below the root no list is empty, so every list the tree holds is really written as SQL. */
  ghost predicate NoEmptyListInside(e: Expr) {
    e.AndList? || e.OrList? ==> forall p | p in e.parts :: !IsEmptyList(p) && NoEmptyListInside(p)
  }

  // ---- the tree, as a function of the filter ----

  function EventTypeExpressions(eventTypes: seq<string>): (r: seq<Expr>)
    ensures |r| == |eventTypes|
    ensures forall i | 0 <= i < |r| :: r[i] == EventTypeIs(eventTypes[i])
  {
    seq(|eventTypes|, i requires 0 <= i < |eventTypes| => EventTypeIs(eventTypes[i]))
  }

  function PredicateExpressions(predicates: seq<FilterPredicate>): (r: seq<Expr>)
    ensures |r| == |predicates|
    ensures forall i | 0 <= i < |r| :: r[i] == PayloadContains(predicates[i].key, predicates[i].val)
  {
    seq(|predicates|, i requires 0 <= i < |predicates| => PayloadContains(predicates[i].key, predicates[i].val))
  }

  function ItemExpression(item: FilterItem): Expr {
    var types, predicates := EventTypeExpressions(item.eventTypes), PredicateExpressions(item.predicates);
    And([Or(types), if item.allPredicatesMustMatch then And(predicates) else Or(predicates)])
  }

  function ItemExpressions(items: seq<FilterItem>): (r: seq<Expr>)
    ensures |r| == |items|
    ensures forall i | 0 <= i < |r| :: r[i] == ItemExpression(items[i])
  {
    seq(|items|, i requires 0 <= i < |items| => ItemExpression(items[i]))
  }

  function OccurredAtExpressions(f: Filter): seq<Expr> {
    (if f.occurredFrom != ZERO_TIME then [OccurredAtGte(f.occurredFrom)] else [])
    + if f.occurredUntil != ZERO_TIME then [OccurredAtLte(f.occurredUntil)] else []
  }

  function SequenceExpressions(f: Filter): seq<Expr> {
    if f.sequenceNumberHigherThan > 0 then [SequenceNumberGt(f.sequenceNumberHigherThan)] else []
  }

  function Where(f: Filter): Expr {
    And([Or(ItemExpressions(f.items)), And(OccurredAtExpressions(f)), And(SequenceExpressions(f))])
  }

  // ---- the loops that build it ----

  method BuildItemExpression(item: FilterItem) returns (e: Expr)
    ensures e == ItemExpression(item)
  {
    var eventTypeExpressions: seq<Expr> := [];
    var predicateExpressions: seq<Expr> := [];
    for i := 0 to |item.eventTypes|
      invariant eventTypeExpressions == EventTypeExpressions(item.eventTypes)[..i]
    {
      eventTypeExpressions := eventTypeExpressions + [EventTypeIs(item.eventTypes[i])];
    }
    for i := 0 to |item.predicates|
      invariant predicateExpressions == PredicateExpressions(item.predicates)[..i]
    {
      predicateExpressions := predicateExpressions + [PayloadContains(item.predicates[i].key, item.predicates[i].val)];
    }
    assert eventTypeExpressions == EventTypeExpressions(item.eventTypes);
    assert predicateExpressions == PredicateExpressions(item.predicates);
    var predicatesExpressionList;
    if item.allPredicatesMustMatch {
      predicatesExpressionList := And(predicateExpressions);
    } else {
      predicatesExpressionList := Or(predicateExpressions);
    }
    e := And([Or(eventTypeExpressions), predicatesExpressionList]);
  }

  method BuildFilterItemsExpressions(f: Filter) returns (itemsExpressions: seq<Expr>)
    ensures itemsExpressions == ItemExpressions(f.items)
  {
    itemsExpressions := [];
    for i := 0 to |f.items|
      invariant itemsExpressions == ItemExpressions(f.items)[..i]
    {
      var e := BuildItemExpression(f.items[i]);
      itemsExpressions := itemsExpressions + [e];
    }
  }

  method BuildOccurredAtExpressions(f: Filter) returns (es: seq<Expr>)
    ensures es == OccurredAtExpressions(f)
  {
    es := [];
    if f.occurredFrom != ZERO_TIME {
      es := es + [OccurredAtGte(f.occurredFrom)];
    }
    if f.occurredUntil != ZERO_TIME {
      es := es + [OccurredAtLte(f.occurredUntil)];
    }
  }

  method BuildSequenceExpressions(f: Filter) returns (es: seq<Expr>)
    ensures es == SequenceExpressions(f)
  {
    es := [];
    if f.sequenceNumberHigherThan > 0 {
      es := es + [SequenceNumberGt(f.sequenceNumberHigherThan)];
    }
  }

  /** Accepts exactly the rows that match the filter, and never nests an empty list. */
  method AddWhereClause(f: Filter) returns (where: Expr)
    ensures where == Where(f)
    ensures forall row :: Selected(where, row) <==> Matches(f, row)
    ensures NoEmptyListInside(where)
  {
    var itemsExpressions := BuildFilterItemsExpressions(f);
    var occurredAtExpressions := BuildOccurredAtExpressions(f);
    var sequenceExpressions := BuildSequenceExpressions(f);
    where := And([Or(itemsExpressions), And(occurredAtExpressions), And(sequenceExpressions)]);
    forall row ensures Selected(where, row) <==> Matches(f, row) {
      WhereSelectsMatching(f, row);
    }
    WhereHasNoEmptyListInside(f);
  }

  // ---- what the tree means ----

  lemma {:induction false} DropEmptyElements(es: seq<Expr>, e: Expr)
    ensures e in DropEmpty(es) <==> e in es && !IsEmptyList(e)
  {
    if es != [] {
      DropEmptyElements(es[..|es| - 1], e);
      assert es == es[..|es| - 1] + [es[|es| - 1]];
    }
  }

  /** An And or Or holds of what its non-empty parts hold of. */
  lemma AndHolds(es: seq<Expr>, row: StoredEvent)
    ensures Holds(And(es), row) <==> forall e | e in es && !IsEmptyList(e) :: Holds(e, row)
    ensures IsEmptyList(And(es)) <==> forall e | e in es :: IsEmptyList(e)
  {
    forall e ensures e in DropEmpty(es) <==> e in es && !IsEmptyList(e) {
      DropEmptyElements(es, e);
    }
    if DropEmpty(es) != [] {
      DropEmptyElements(es, DropEmpty(es)[0]);
    }
  }

  lemma OrHolds(es: seq<Expr>, row: StoredEvent)
    ensures Holds(Or(es), row) <==> exists e | e in es && !IsEmptyList(e) :: Holds(e, row)
    ensures IsEmptyList(Or(es)) <==> forall e | e in es :: IsEmptyList(e)
  {
    forall e ensures e in DropEmpty(es) <==> e in es && !IsEmptyList(e) {
      DropEmptyElements(es, e);
    }
    if DropEmpty(es) != [] {
      DropEmptyElements(es, DropEmpty(es)[0]);
    }
  }

  lemma EventTypesMeaning(eventTypes: seq<string>, row: StoredEvent)
    ensures var e := Or(EventTypeExpressions(eventTypes));
            && (IsEmptyList(e) <==> eventTypes == [])
            && (Holds(e, row) <==> row.event.eventType in eventTypes)
  {
    var es := EventTypeExpressions(eventTypes);
    OrHolds(es, row);
    if eventTypes != [] {
      assert es[0] in es;
    }
    if row.event.eventType in eventTypes {
      var i :| 0 <= i < |eventTypes| && eventTypes[i] == row.event.eventType;
      assert es[i] in es && Holds(es[i], row);
    }
  }

  /** A list of two or three parts, empty ones included, restricts what its non-empty parts restrict. */
  lemma AndOfTwo(a: Expr, b: Expr, row: StoredEvent)
    ensures IsEmptyList(And([a, b])) <==> IsEmptyList(a) && IsEmptyList(b)
    ensures Holds(And([a, b]), row) <==> (IsEmptyList(a) || Holds(a, row)) && (IsEmptyList(b) || Holds(b, row))
  {
    var es := [a, b];
    AndHolds(es, row);
    assert es[0] == a && es[1] == b && a in es && b in es;
  }

  lemma AndOfThree(a: Expr, b: Expr, c: Expr, row: StoredEvent)
    ensures IsEmptyList(And([a, b, c])) <==> IsEmptyList(a) && IsEmptyList(b) && IsEmptyList(c)
    ensures Holds(And([a, b, c]), row)
            <==> (IsEmptyList(a) || Holds(a, row)) && (IsEmptyList(b) || Holds(b, row))
                 && (IsEmptyList(c) || Holds(c, row))
  {
    var es := [a, b, c];
    AndHolds(es, row);
    assert es[0] == a && es[1] == b && es[2] == c && a in es && b in es && c in es;
  }

  lemma PredicateExpressionsMeaning(predicates: seq<FilterPredicate>, row: StoredEvent)
    ensures (forall e | e in PredicateExpressions(predicates) :: Holds(e, row))
            <==> PredicatesHold(predicates, true, row.event)
    ensures (exists e | e in PredicateExpressions(predicates) :: Holds(e, row))
            <==> PredicatesHold(predicates, false, row.event)
  {
    var es := PredicateExpressions(predicates);
    assert forall i | 0 <= i < |es| :: es[i] in es && predicates[i] in predicates;
    assert forall i | 0 <= i < |es| :: Holds(es[i], row) <==> PredicateHolds(predicates[i], row.event);
  }

  lemma PredicatesMeaning(predicates: seq<FilterPredicate>, all: bool, row: StoredEvent)
    ensures var es := PredicateExpressions(predicates);
            var e := if all then And(es) else Or(es);
            && (IsEmptyList(e) <==> predicates == [])
            && (Holds(e, row) <==> PredicatesHold(predicates, all, row.event))
  {
    var es := PredicateExpressions(predicates);
    PredicateExpressionsMeaning(predicates, row);
    assert forall e | e in es :: e.PayloadContains?;
    if predicates != [] {
      assert es[0] in es;
    }
    if all {
      AndHolds(es, row);
    } else {
      OrHolds(es, row);
    }
  }

  lemma ItemMeaning(item: FilterItem, row: StoredEvent)
    ensures IsEmptyList(ItemExpression(item)) <==> IsEmptyItem(item)
    ensures Holds(ItemExpression(item), row) <==> ItemMatches(item, row.event)
  {
    EventTypesMeaning(item.eventTypes, row);
    PredicatesMeaning(item.predicates, item.allPredicatesMustMatch, row);
    var predicates := PredicateExpressions(item.predicates);
    AndOfTwo(Or(EventTypeExpressions(item.eventTypes)),
             if item.allPredicatesMustMatch then And(predicates) else Or(predicates), row);
  }

  lemma ItemsMeaning(items: seq<FilterItem>, row: StoredEvent)
    ensures var e := Or(ItemExpressions(items));
            && (IsEmptyList(e) <==> forall item | item in items :: IsEmptyItem(item))
            && (Holds(e, row) <==> exists item | item in items :: !IsEmptyItem(item) && ItemMatches(item, row.event))
  {
    var es := ItemExpressions(items);
    OrHolds(es, row);
    forall i | 0 <= i < |items|
      ensures es[i] in es && items[i] in items
      ensures IsEmptyList(es[i]) <==> IsEmptyItem(items[i])
      ensures Holds(es[i], row) <==> ItemMatches(items[i], row.event)
    {
      ItemMeaning(items[i], row);
    }
  }

  lemma TimesMeaning(f: Filter, row: StoredEvent)
    ensures var e := And(OccurredAtExpressions(f));
            IsEmptyList(e) || Holds(e, row) <==> TimesMatch(f, row.event)
  {
    var es := OccurredAtExpressions(f);
    AndHolds(es, row);
    assert f.occurredFrom != ZERO_TIME ==> OccurredAtGte(f.occurredFrom) == es[0] && es[0] in es;
    assert f.occurredUntil != ZERO_TIME ==> OccurredAtLte(f.occurredUntil) == es[|es| - 1] && es[|es| - 1] in es;
  }

  lemma SequenceMeaning(f: Filter, row: StoredEvent)
    ensures var e := And(SequenceExpressions(f));
            IsEmptyList(e) || Holds(e, row) <==> SequenceMatches(f, row.sequenceNumber)
  {
    var es := SequenceExpressions(f);
    AndHolds(es, row);
    assert f.sequenceNumberHigherThan > 0 ==> es[0] in es;
  }

  /** The compiled tree selects a row exactly when the row matches the filter. */
  lemma WhereSelectsMatching(f: Filter, row: StoredEvent)
    ensures Selected(Where(f), row) <==> Matches(f, row)
  {
    ItemsMeaning(f.items, row);
    TimesMeaning(f, row);
    SequenceMeaning(f, row);
    AndOfThree(Or(ItemExpressions(f.items)), And(OccurredAtExpressions(f)), And(SequenceExpressions(f)), row);
  }

  lemma ListHasNoEmptyListInside(es: seq<Expr>)
    requires forall e | e in es :: NoEmptyListInside(e)
    ensures NoEmptyListInside(And(es)) && NoEmptyListInside(Or(es))
  {
    forall e | e in DropEmpty(es) ensures !IsEmptyList(e) && NoEmptyListInside(e) {
      DropEmptyElements(es, e);
    }
  }

  lemma ItemHasNoEmptyListInside(item: FilterItem)
    ensures NoEmptyListInside(ItemExpression(item))
  {
    var types, predicates := EventTypeExpressions(item.eventTypes), PredicateExpressions(item.predicates);
    ListHasNoEmptyListInside(types);
    ListHasNoEmptyListInside(predicates);
    ListHasNoEmptyListInside([Or(types), if item.allPredicatesMustMatch then And(predicates) else Or(predicates)]);
  }

  lemma WhereHasNoEmptyListInside(f: Filter)
    ensures NoEmptyListInside(Where(f))
  {
    var items := ItemExpressions(f.items);
    forall i | 0 <= i < |items| ensures NoEmptyListInside(items[i]) {
      ItemHasNoEmptyListInside(f.items[i]);
    }
    ListHasNoEmptyListInside(items);
    ListHasNoEmptyListInside(OccurredAtExpressions(f));
    ListHasNoEmptyListInside(SequenceExpressions(f));
    ListHasNoEmptyListInside([Or(items), And(OccurredAtExpressions(f)), And(SequenceExpressions(f))]);
  }
}
