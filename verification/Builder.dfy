/** The fluent filter builder: its value-receiver methods, and the call chains its interfaces allow. */
module Builder {
  import opened Filters
  import opened Sanitizing

  /** A method call of the builder; the And... variants share a constructor with the method they forward to. */
  datatype Call =
    | Matching
    | AnyEventTypeOf(eventTypes: seq<string>)
    | AnyPredicateOf(predicates: seq<FilterPredicate>)
    | AllPredicatesOf(predicates: seq<FilterPredicate>)
    | OccurredFrom(time: Time)
    | OccurredUntil(time: Time)
    | WithSequenceNumber(sequenceNumber: nat)
    | OrMatching

  /** How the standard library's sort orders a list of predicates. */
  type SortFunction = seq<FilterPredicate> -> seq<FilterPredicate>

  /** What sanitizePredicates returns when its sort behaves like the function sort. */
  function SanitizedPredicates(predicates: seq<FilterPredicate>, sort: SortFunction): seq<FilterPredicate> {
    Compacted(sort(Complete(predicates)))
  }

  ghost predicate SortsByKey(sort: SortFunction) {
    forall s :: SortOf(sort(s), s, KEY_LEQ)
  }

  /** filterBuilder: every method works on a copy of the receiver. */
  datatype FilterBuilder = FilterBuilder(filter: Filter, currentFilterItem: FilterItem) {

    function Apply(call: Call, sort: SortFunction): FilterBuilder {
      var item := currentFilterItem;
      match call
      case Matching => this.(currentFilterItem := EMPTY_ITEM)
      case AnyEventTypeOf(eventTypes) =>
        this.(currentFilterItem := item.(eventTypes := item.eventTypes + SanitizedTypes(eventTypes)))
      case AnyPredicateOf(predicates) =>
        this.(currentFilterItem := item.(predicates := item.predicates + SanitizedPredicates(predicates, sort)))
      case AllPredicatesOf(predicates) =>
        this.(currentFilterItem := item.(allPredicatesMustMatch := true,
                                         predicates := item.predicates + SanitizedPredicates(predicates, sort)))
      case OccurredFrom(time) => this.(filter := filter.(occurredFrom := time))
      case OccurredUntil(time) => this.(filter := filter.(occurredUntil := time))
      case WithSequenceNumber(n) => this.(filter := filter.(sequenceNumberHigherThan := n))
      case OrMatching => FilterBuilder(filter.(items := filter.items + [item]), EMPTY_ITEM)
    }

    function MatchingAnyEvent(): Filter {
      filter
    }

    function Finalize(): Filter {
      filter.(items := filter.items + [currentFilterItem])
    }
  }

  const BUILD_EVENT_FILTER := FilterBuilder(EMPTY_FILTER, EMPTY_ITEM)

  function BuilderAfter(calls: seq<Call>, sort: SortFunction): FilterBuilder {
    if calls == [] then BUILD_EVENT_FILTER
    else BuilderAfter(calls[..|calls| - 1], sort).Apply(calls[|calls| - 1], sort)
  }

  // ---- the interfaces ----

  /** The interface type a chain has reached; NotOffered once a call is not in the method set. */
  datatype Stage =
    | Start
    | EmptyItem
    | LackingPredicates
    | LackingEventTypes
    | CompletedItem
    | WithOccurredFrom
    | WithOccurredUntil
    | WithOccurredFromToUntil
    | WithSequence
    | NotOffered

  predicate CanStillGrow(stage: Stage) {
    stage.LackingPredicates? || stage.LackingEventTypes? || stage.CompletedItem?
  }

  function Next(stage: Stage, call: Call): Stage {
    match call
    case Matching => if stage.Start? then EmptyItem else NotOffered
    case AnyEventTypeOf(eventTypes) =>
      if eventTypes == [] then NotOffered
      else if stage.EmptyItem? then LackingPredicates
      else if stage.LackingEventTypes? then CompletedItem
      else NotOffered
    case AnyPredicateOf(predicates) => AfterPredicates(stage, predicates)
    case AllPredicatesOf(predicates) => AfterPredicates(stage, predicates)
    case OccurredFrom(_) => if stage.Start? || CanStillGrow(stage) then WithOccurredFrom else NotOffered
    case OccurredUntil(_) =>
      if stage.Start? || CanStillGrow(stage) then WithOccurredUntil
      else if stage.WithOccurredFrom? then WithOccurredFromToUntil
      else NotOffered
    case WithSequenceNumber(_) => if stage.Start? || CanStillGrow(stage) then WithSequence else NotOffered
    case OrMatching => if CanStillGrow(stage) then EmptyItem else NotOffered
  }

  function AfterPredicates(stage: Stage, predicates: seq<FilterPredicate>): Stage {
    if predicates == [] then NotOffered
    else if stage.EmptyItem? then LackingEventTypes
    else if stage.LackingPredicates? then CompletedItem
    else NotOffered
  }

  function StageAfter(calls: seq<Call>): Stage {
    if calls == [] then Start else Next(StageAfter(calls[..|calls| - 1]), calls[|calls| - 1])
  }

  predicate OffersFinalize(stage: Stage) {
    !stage.Start? && !stage.EmptyItem? && !stage.NotOffered?
  }

  predicate OffersMatchingAnyEvent(stage: Stage) {
    stage.Start?
  }

  // ---- what a chain of calls says, read without running the builder ----

  /** How many of the calls are OrMatching. */
  ghost function OrMatchings(calls: seq<Call>): nat {
    |set j | 0 <= j < |calls| && calls[j].OrMatching?|
  }

  /** The item that call j is about: one per OrMatching before it. */
  ghost function PartOf(calls: seq<Call>, j: nat): nat
    requires j <= |calls|
  {
    OrMatchings(calls[..j])
  }

  predicate GivesPredicates(call: Call) {
    call.AnyPredicateOf? || call.AllPredicatesOf?
  }

  /** Item i is the sanitized arguments of the calls about it; what no call gives is absent. */
  ghost predicate ItemIsAsked(calls: seq<Call>, i: nat, item: FilterItem) {
    && (forall j | 0 <= j < |calls| && PartOf(calls, j) == i ::
          && (calls[j].AnyEventTypeOf? ==> IsSanitizedTypes(item.eventTypes, calls[j].eventTypes))
          && (GivesPredicates(calls[j]) ==> IsSanitizedPredicates(item.predicates, calls[j].predicates)))
    && (item.eventTypes != [] ==> exists j | 0 <= j < |calls| :: PartOf(calls, j) == i && calls[j].AnyEventTypeOf?)
    && (item.predicates != [] ==> exists j | 0 <= j < |calls| :: PartOf(calls, j) == i && GivesPredicates(calls[j]))
    && (item.allPredicatesMustMatch
        <==> exists j | 0 <= j < |calls| :: PartOf(calls, j) == i && calls[j].AllPredicatesOf?)
  }

  lemma OrMatchingsOfSnoc(calls: seq<Call>, call: Call)
    ensures OrMatchings(calls + [call]) == OrMatchings(calls) + if call.OrMatching? then 1 else 0
  {
    var longer := calls + [call];
    var before := set j | 0 <= j < |calls| && calls[j].OrMatching?;
    var after := set j | 0 <= j < |longer| && longer[j].OrMatching?;
    assert after == if call.OrMatching? then before + {|calls|} else before;
  }

  lemma PartOfSnoc(calls: seq<Call>, call: Call)
    ensures forall j | 0 <= j <= |calls| :: PartOf(calls + [call], j) == PartOf(calls, j)
    ensures PartOf(calls, |calls|) == OrMatchings(calls)
  {
    assert forall j | 0 <= j <= |calls| :: (calls + [call])[..j] == calls[..j];
    assert calls[..|calls|] == calls;
  }

  lemma {:induction false} PartsAreBounded(calls: seq<Call>, j: nat)
    requires j <= |calls|
    ensures PartOf(calls, j) <= OrMatchings(calls)
    decreases |calls| - j
  {
    if j < |calls| {
      assert calls[..j + 1] == calls[..j] + [calls[j]];
      OrMatchingsOfSnoc(calls[..j], calls[j]);
      PartsAreBounded(calls, j + 1);
    } else {
      assert calls[..j] == calls;
    }
  }

  /** No call about the open item gives event types. */
  ghost predicate NoTypesYet(calls: seq<Call>) {
    forall j | 0 <= j < |calls| && PartOf(calls, j) == OrMatchings(calls) :: !calls[j].AnyEventTypeOf?
  }

  ghost predicate NoPredicatesYet(calls: seq<Call>) {
    forall j | 0 <= j < |calls| && PartOf(calls, j) == OrMatchings(calls) :: !GivesPredicates(calls[j])
  }

  // ---- every legal chain builds what it says ----

  /** What is known about calls and bounds when a chain has reached a stage. */
  ghost predicate Consistent(stage: Stage, calls: seq<Call>, f: Filter) {
    && (stage.Start? || stage.EmptyItem? || stage.LackingEventTypes? ==> NoTypesYet(calls))
    && (stage.Start? || stage.EmptyItem? || stage.LackingPredicates? ==> NoPredicatesYet(calls))
    && (stage.Start? || stage.EmptyItem? || CanStillGrow(stage) || stage.WithSequence? ==> !HasTimeBounds(f))
    && (!stage.WithSequence? ==> f.sequenceNumberHigherThan == 0)
  }

  lemma YetOfSnoc(calls: seq<Call>, call: Call)
    ensures call.OrMatching? ==> NoTypesYet(calls + [call]) && NoPredicatesYet(calls + [call])
    ensures !call.OrMatching? && !call.AnyEventTypeOf? && NoTypesYet(calls) ==> NoTypesYet(calls + [call])
    ensures !call.OrMatching? && !GivesPredicates(call) && NoPredicatesYet(calls) ==> NoPredicatesYet(calls + [call])
  {
    var longer := calls + [call];
    PartOfSnoc(calls, call);
    OrMatchingsOfSnoc(calls, call);
    forall j | 0 <= j < |calls| ensures longer[j] == calls[j] && PartOf(longer, j) <= OrMatchings(calls) {
      PartsAreBounded(calls, j);
    }
  }

  lemma StepKeepsConsistent(stage: Stage, calls: seq<Call>, b: FilterBuilder, call: Call, sort: SortFunction)
    requires Consistent(stage, calls, b.filter) && !Next(stage, call).NotOffered?
    ensures Consistent(Next(stage, call), calls + [call], b.Apply(call, sort).filter)
  {
    YetOfSnoc(calls, call);
  }

  /** Each item as the calls so far ask for it, the open one included. */
  ghost predicate ItemsAreAsked(calls: seq<Call>, items: seq<FilterItem>) {
    |items| == 1 + OrMatchings(calls) && forall i | 0 <= i < |items| :: ItemIsAsked(calls, i, items[i])
  }

  /** A call about another item does not concern this one. */
  lemma OtherItemStays(calls: seq<Call>, call: Call, i: nat, item: FilterItem)
    requires ItemIsAsked(calls, i, item)
    requires i != OrMatchings(calls) || call.OrMatching? || call.Matching? || IsBoundCall(call)
    ensures ItemIsAsked(calls + [call], i, item)
  {
    var longer := calls + [call];
    PartOfSnoc(calls, call);
    assert forall j | 0 <= j < |calls| :: longer[j] == calls[j];
  }

  predicate IsBoundCall(call: Call) {
    call.OccurredFrom? || call.OccurredUntil? || call.WithSequenceNumber?
  }

  lemma EventTypesAreAsked(calls: seq<Call>, call: Call, item: FilterItem)
    requires ItemIsAsked(calls, OrMatchings(calls), item) && NoTypesYet(calls) && call.AnyEventTypeOf?
    ensures ItemIsAsked(calls + [call], OrMatchings(calls),
                        item.(eventTypes := item.eventTypes + SanitizedTypes(call.eventTypes)))
  {
    var longer, i := calls + [call], OrMatchings(calls);
    PartOfSnoc(calls, call);
    assert longer[|calls|] == call && PartOf(longer, |calls|) == i;
    assert forall j | 0 <= j < |calls| :: longer[j] == calls[j];
    assert item.eventTypes == [];
    assert item.eventTypes + SanitizedTypes(call.eventTypes) == SanitizedTypes(call.eventTypes);
  }

  lemma PredicatesAreAsked(calls: seq<Call>, call: Call, item: FilterItem, sort: SortFunction)
    requires ItemIsAsked(calls, OrMatchings(calls), item) && NoPredicatesYet(calls)
    requires GivesPredicates(call) && SortsByKey(sort)
    ensures ItemIsAsked(calls + [call], OrMatchings(calls),
                        item.(predicates := item.predicates + SanitizedPredicates(call.predicates, sort),
                              allPredicatesMustMatch := call.AllPredicatesOf?))
    ensures !item.allPredicatesMustMatch
  {
    var longer, i := calls + [call], OrMatchings(calls);
    PartOfSnoc(calls, call);
    assert longer[|calls|] == call && PartOf(longer, |calls|) == i;
    assert forall j | 0 <= j < |calls| :: longer[j] == calls[j];
    assert item.predicates == [];
    assert item.predicates + SanitizedPredicates(call.predicates, sort) == SanitizedPredicates(call.predicates, sort);
    assert SortOf(sort(Complete(call.predicates)), Complete(call.predicates), KEY_LEQ);
  }

  lemma OpenedItemIsAsked(calls: seq<Call>)
    ensures ItemIsAsked(calls + [OrMatching], OrMatchings(calls) + 1, EMPTY_ITEM)
  {
    var longer := calls + [OrMatching];
    PartOfSnoc(calls, OrMatching);
    forall j | 0 <= j < |longer| ensures PartOf(longer, j) <= OrMatchings(calls) {
      PartsAreBounded(calls, j);
    }
  }

  /** The open item after a call other than OrMatching. */
  lemma OpenItemIsAsked(calls: seq<Call>, call: Call, b: FilterBuilder, sort: SortFunction)
    requires SortsByKey(sort) && !call.OrMatching? && ItemIsAsked(calls, OrMatchings(calls), b.currentFilterItem)
    requires call.Matching? ==> b.currentFilterItem == EMPTY_ITEM
    requires call.AnyEventTypeOf? ==> NoTypesYet(calls)
    requires GivesPredicates(call) ==> NoPredicatesYet(calls)
    ensures ItemIsAsked(calls + [call], OrMatchings(calls), b.Apply(call, sort).currentFilterItem)
  {
    if call.AnyEventTypeOf? {
      EventTypesAreAsked(calls, call, b.currentFilterItem);
    } else if GivesPredicates(call) {
      PredicatesAreAsked(calls, call, b.currentFilterItem, sort);
    } else {
      OtherItemStays(calls, call, OrMatchings(calls), b.currentFilterItem);
    }
  }

  lemma StepKeepsItemsAsked(calls: seq<Call>, call: Call, b: FilterBuilder, sort: SortFunction)
    requires SortsByKey(sort) && ItemsAreAsked(calls, b.Finalize().items)
    requires call.Matching? ==> b.currentFilterItem == EMPTY_ITEM
    requires call.AnyEventTypeOf? ==> NoTypesYet(calls)
    requires GivesPredicates(call) ==> NoPredicatesYet(calls)
    ensures ItemsAreAsked(calls + [call], b.Apply(call, sort).Finalize().items)
  {
    var closed, n := b.filter.items, OrMatchings(calls);
    var items, later := b.Finalize().items, b.Apply(call, sort).Finalize().items;
    OrMatchingsOfSnoc(calls, call);
    assert |closed| == n && items[n] == b.currentFilterItem;
    forall i | 0 <= i < n ensures ItemIsAsked(calls + [call], i, later[i]) {
      assert later[i] == items[i];
      OtherItemStays(calls, call, i, items[i]);
    }
    if call.OrMatching? {
      OtherItemStays(calls, call, n, items[n]);
      OpenedItemIsAsked(calls);
    } else {
      OpenItemIsAsked(calls, call, b, sort);
    }
  }

  lemma {:induction false} ChainIsAsked(calls: seq<Call>, sort: SortFunction)
    requires SortsByKey(sort) && !StageAfter(calls).NotOffered?
    ensures var b := BuilderAfter(calls, sort);
            && Consistent(StageAfter(calls), calls, b.filter)
            && ItemsAreAsked(calls, b.Finalize().items)
            && (StageAfter(calls).Start? ==> b.currentFilterItem == EMPTY_ITEM)
  {
    if calls == [] {
      assert OrMatchings([]) == 0;
    } else {
      var init, last := calls[..|calls| - 1], calls[|calls| - 1];
      assert calls == init + [last];
      ChainIsAsked(init, sort);
      StepKeepsConsistent(StageAfter(init), init, BuilderAfter(init, sort), last, sort);
      StepKeepsItemsAsked(init, last, BuilderAfter(init, sort), sort);
    }
  }

  ghost predicate SanitizedItem(item: FilterItem) {
    && StrictlyAscending(item.eventTypes) && "" !in item.eventTypes
    && Ascending(item.predicates, KEY_LEQ) && NoEqualNeighbours(item.predicates)
    && (forall p | p in item.predicates :: p.key != "" && p.val != "")
  }

  lemma AskedItemIsSanitized(calls: seq<Call>, i: nat, item: FilterItem)
    requires ItemIsAsked(calls, i, item)
    ensures SanitizedItem(item)
  {
    if item.predicates != [] {
      var j :| 0 <= j < |calls| && PartOf(calls, j) == i && GivesPredicates(calls[j]);
      SanitizedPredicatesAreWellFormed(item.predicates, calls[j].predicates);
    }
  }

  /**
    Along every chain the interfaces allow: one item more than there are OrMatching calls; item i holds the sanitized
    arguments of the calls between the OrMatching calls i and i + 1 and nothing else, and asks for all predicates
    exactly if AllPredicatesOf is among these calls; and never both a time bound and a sequence bound.
   */
  lemma FinalizedFilter(calls: seq<Call>, sort: SortFunction)
    requires SortsByKey(sort) && OffersFinalize(StageAfter(calls))
    ensures var f := BuilderAfter(calls, sort).Finalize();
            && |f.items| == 1 + OrMatchings(calls)
            && (forall i | 0 <= i < |f.items| :: ItemIsAsked(calls, i, f.items[i]) && SanitizedItem(f.items[i]))
            && ((f.occurredFrom != ZERO_TIME || f.occurredUntil != ZERO_TIME) ==> f.sequenceNumberHigherThan == 0)
  {
    ChainIsAsked(calls, sort);
    var items := BuilderAfter(calls, sort).Finalize().items;
    forall i | 0 <= i < |items| ensures ItemIsAsked(calls, i, items[i]) && SanitizedItem(items[i]) {
      AskedItemIsSanitized(calls, i, items[i]);
    }
  }

  /** An item's predicates are exactly the complete ones that the calls about it give. */
  lemma PredicatesOfItem(calls: seq<Call>, sort: SortFunction, i: nat, p: FilterPredicate)
    requires SortsByKey(sort) && OffersFinalize(StageAfter(calls)) && i <= OrMatchings(calls)
    ensures var items := BuilderAfter(calls, sort).Finalize().items;
            && |items| == 1 + OrMatchings(calls)
            && (p in items[i].predicates
                <==> p.key != "" && p.val != ""
                     && exists j | 0 <= j < |calls| ::
                          PartOf(calls, j) == i && GivesPredicates(calls[j]) && p in calls[j].predicates)
  {
    FinalizedFilter(calls, sort);
    var item := BuilderAfter(calls, sort).Finalize().items[i];
    assert ItemIsAsked(calls, i, item);
    if j :| 0 <= j < |calls| && PartOf(calls, j) == i && GivesPredicates(calls[j])
            && (p in item.predicates || p in calls[j].predicates) {
      SanitizedPredicatesAreWellFormed(item.predicates, calls[j].predicates);
    }
  }

  /** The chain without items: MatchingAnyEvent is offered at the start only and gives the empty filter. */
  lemma MatchingAnyEventFilter(calls: seq<Call>, sort: SortFunction)
    requires OffersMatchingAnyEvent(StageAfter(calls))
    ensures calls == [] && BuilderAfter(calls, sort).MatchingAnyEvent() == Filter([], 0, 0, 0)
  {
  }

  // ---- the bounds of a finalized filter are those given ----

  const GIVES_FROM: Call -> bool := (call: Call) => call.OccurredFrom?
  const GIVES_UNTIL: Call -> bool := (call: Call) => call.OccurredUntil?
  const GIVES_SEQUENCE: Call -> bool := (call: Call) => call.WithSequenceNumber?

  ghost predicate IsLast(calls: seq<Call>, j: nat, kind: Call -> bool) {
    j < |calls| && kind(calls[j]) && forall k | j < k < |calls| :: !kind(calls[k])
  }

  ghost predicate IsNever(calls: seq<Call>, kind: Call -> bool) {
    forall j | 0 <= j < |calls| :: !kind(calls[j])
  }

  lemma LastOfSnoc(calls: seq<Call>, call: Call, kind: Call -> bool)
    ensures forall j: nat ::
              IsLast(calls + [call], j, kind) <==> if kind(call) then j == |calls| else IsLast(calls, j, kind)
    ensures IsNever(calls + [call], kind) <==> !kind(call) && IsNever(calls, kind)
  {
    var longer := calls + [call];
    assert longer[|calls|] == call && forall j | 0 <= j < |calls| :: longer[j] == calls[j];
  }

  /** Each bound is the argument of the last call that gives it, and zero if none does. */
  lemma {:induction false} BoundsAreThoseGiven(calls: seq<Call>, sort: SortFunction)
    ensures var f := BuilderAfter(calls, sort).Finalize();
            && (forall j: nat | IsLast(calls, j, GIVES_FROM) :: f.occurredFrom == calls[j].time)
            && (forall j: nat | IsLast(calls, j, GIVES_UNTIL) :: f.occurredUntil == calls[j].time)
            && (forall j: nat | IsLast(calls, j, GIVES_SEQUENCE) ::
                  f.sequenceNumberHigherThan == calls[j].sequenceNumber)
            && (IsNever(calls, GIVES_FROM) ==> f.occurredFrom == ZERO_TIME)
            && (IsNever(calls, GIVES_UNTIL) ==> f.occurredUntil == ZERO_TIME)
            && (IsNever(calls, GIVES_SEQUENCE) ==> f.sequenceNumberHigherThan == 0)
  {
    if calls != [] {
      var init, last := calls[..|calls| - 1], calls[|calls| - 1];
      assert calls == init + [last];
      BoundsAreThoseGiven(init, sort);
      LastOfSnoc(init, last, GIVES_FROM);
      LastOfSnoc(init, last, GIVES_UNTIL);
      LastOfSnoc(init, last, GIVES_SEQUENCE);
    }
  }
}
