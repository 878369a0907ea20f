/** Which call chains the builder's interfaces accept: the interfaces against a grammar. */
module BuilderChains {
  import opened Builder

  predicate IsEventTypesCall(call: Call) {
    call.AnyEventTypeOf? && call.eventTypes != []
  }

  predicate IsPredicatesCall(call: Call) {
    (call.AnyPredicateOf? || call.AllPredicatesOf?) && call.predicates != []
  }

  /** Event types, predicates, or both in either order; no argument list is empty. */
  predicate IsItem(calls: seq<Call>) {
    || (|calls| == 1 && (IsEventTypesCall(calls[0]) || IsPredicatesCall(calls[0])))
    || (|calls| == 2 && IsEventTypesCall(calls[0]) && IsPredicatesCall(calls[1]))
    || (|calls| == 2 && IsPredicatesCall(calls[0]) && IsEventTypesCall(calls[1]))
  }

  /** No bound, time bounds with the lower one first, or a sequence bound. */
  predicate IsBound(calls: seq<Call>) {
    || |calls| == 0
    || (|calls| == 1 && (calls[0].OccurredFrom? || calls[0].OccurredUntil? || calls[0].WithSequenceNumber?))
    || (|calls| == 2 && calls[0].OccurredFrom? && calls[1].OccurredUntil?)
  }

  /** Matching, then the given items, each followed by OrMatching. */
  function Lead(items: seq<seq<Call>>): seq<Call> {
    if items == [] then [Matching] else Lead(items[..|items| - 1]) + items[|items| - 1] + [OrMatching]
  }

  ghost predicate AreItems(items: seq<seq<Call>>) {
    forall i | 0 <= i < |items| :: IsItem(items[i])
  }

  /** chain = bound | Matching item { OrMatching item } [ bound ] */
  ghost predicate IsChain(calls: seq<Call>) {
    || (calls != [] && IsBound(calls))
    || (exists items, item, bound ::
          AreItems(items) && IsItem(item) && IsBound(bound) && calls == Lead(items) + item + bound)
  }

  lemma StageOfSnoc(calls: seq<Call>, call: Call)
    ensures StageAfter(calls + [call]) == Next(StageAfter(calls), call)
  {
    assert (calls + [call])[..|calls + [call]| - 1] == calls;
  }

  lemma StageOfTwo(calls: seq<Call>, more: seq<Call>)
    ensures |more| == 1 ==> StageAfter(calls + more) == Next(StageAfter(calls), more[0])
    ensures |more| == 2 ==> StageAfter(calls + more) == Next(Next(StageAfter(calls), more[0]), more[1])
  {
    if |more| == 1 {
      assert more == [more[0]];
      StageOfSnoc(calls, more[0]);
    } else if |more| == 2 {
      assert calls + more == (calls + [more[0]]) + [more[1]];
      StageOfSnoc(calls, more[0]);
      StageOfSnoc(calls + [more[0]], more[1]);
    }
  }

  lemma {:induction false} LeadStage(items: seq<seq<Call>>)
    requires AreItems(items)
    ensures StageAfter(Lead(items)).EmptyItem?
  {
    if items == [] {
      assert [Matching][..0] == [];
    } else {
      var init, last := items[..|items| - 1], items[|items| - 1];
      LeadStage(init);
      StageOfTwo(Lead(init), last);
      StageOfSnoc(Lead(init) + last, OrMatching);
    }
  }

  lemma ItemStage(calls: seq<Call>, item: seq<Call>)
    requires StageAfter(calls).EmptyItem? && IsItem(item)
    ensures CanStillGrow(StageAfter(calls + item))
  {
    StageOfTwo(calls, item);
  }

  lemma BoundIsOffered(calls: seq<Call>, bound: seq<Call>)
    requires CanStillGrow(StageAfter(calls)) || (StageAfter(calls).Start? && bound != [])
    requires IsBound(bound)
    ensures OffersFinalize(StageAfter(calls + bound))
  {
    StageOfTwo(calls, bound);
    assert bound == [] ==> calls + bound == calls;
  }

  lemma ChainsAreOffered(calls: seq<Call>)
    requires IsChain(calls)
    ensures OffersFinalize(StageAfter(calls))
  {
    if calls != [] && IsBound(calls) {
      BoundIsOffered([], calls);
      assert [] + calls == calls;
    } else {
      var items, item, bound :| AreItems(items) && IsItem(item) && IsBound(bound)
          && calls == Lead(items) + item + bound;
      LeadStage(items);
      ItemStage(Lead(items), item);
      BoundIsOffered(Lead(items) + item, bound);
    }
  }

  /** A chain so far: finished items, the open one, the bound; or a bound only. */
  datatype Parse = Parse(items: seq<seq<Call>>, item: seq<Call>, bound: seq<Call>) | BoundOnly(bound: seq<Call>)

  ghost predicate Parses(calls: seq<Call>, parse: Parse) {
    match parse
    case Parse(items, item, bound) =>
      && AreItems(items) && (item == [] || IsItem(item)) && IsBound(bound) && (item == [] ==> bound == [])
      && calls == Lead(items) + item + bound
    case BoundOnly(bound) => IsBound(bound) && calls == bound
  }

  function BoundStage(bound: seq<Call>): Stage
    requires bound != []
  {
    if |bound| == 2 then WithOccurredFromToUntil
    else if bound[0].OccurredFrom? then WithOccurredFrom
    else if bound[0].OccurredUntil? then WithOccurredUntil
    else WithSequence
  }

  function StageOfParse(parse: Parse): Stage {
    if parse.bound != [] then BoundStage(parse.bound)
    else if parse.BoundOnly? then Start
    else if parse.item == [] then EmptyItem
    else if |parse.item| == 2 then CompletedItem
    else if parse.item[0].AnyEventTypeOf? then LackingPredicates
    else LackingEventTypes
  }

  /** How a parse goes on with the next call. */
  function Extend(parse: Parse, call: Call): Parse {
    if call.Matching? then Parse([], [], [])
    else if call.OrMatching? && parse.Parse? then Parse(parse.items + [parse.item], [], [])
    else if (call.AnyEventTypeOf? || call.AnyPredicateOf? || call.AllPredicatesOf?) && parse.Parse? then
      parse.(item := parse.item + [call])
    else parse.(bound := parse.bound + [call])
  }

  lemma LeadGrows(items: seq<seq<Call>>, item: seq<Call>)
    ensures Lead(items + [item]) == Lead(items) + item + [OrMatching]
  {
    assert (items + [item])[..|items|] == items;
  }

  lemma ExtendItems(calls: seq<Call>, parse: Parse)
    requires parse.Parse? && Parses(calls, parse) && !Next(StageOfParse(parse), OrMatching).NotOffered?
    ensures Parses(calls + [OrMatching], Extend(parse, OrMatching))
  {
    LeadGrows(parse.items, parse.item);
    assert calls == Lead(parse.items) + parse.item;
    assert Lead(parse.items + [parse.item]) + [] + [] == calls + [OrMatching];
  }

  lemma ExtendItem(calls: seq<Call>, parse: Parse, call: Call)
    requires parse.Parse? && Parses(calls, parse) && !Next(StageOfParse(parse), call).NotOffered?
    requires call.AnyEventTypeOf? || call.AnyPredicateOf? || call.AllPredicatesOf?
    ensures Parses(calls + [call], Extend(parse, call))
            && StageOfParse(Extend(parse, call)) == Next(StageOfParse(parse), call)
  {
    assert parse.bound == [];
    assert Lead(parse.items) + (parse.item + [call]) + [] == (Lead(parse.items) + parse.item + []) + [call];
  }

  lemma ExtendBound(calls: seq<Call>, parse: Parse, call: Call)
    requires Parses(calls, parse) && !Next(StageOfParse(parse), call).NotOffered?
    requires call.OccurredFrom? || call.OccurredUntil? || call.WithSequenceNumber?
    ensures Parses(calls + [call], Extend(parse, call))
            && StageOfParse(Extend(parse, call)) == Next(StageOfParse(parse), call)
  {
    assert parse.Parse? ==>
             Lead(parse.items) + parse.item + (parse.bound + [call])
             == (Lead(parse.items) + parse.item + parse.bound) + [call];
  }

  lemma ExtendParses(calls: seq<Call>, parse: Parse, call: Call)
    requires Parses(calls, parse) && !Next(StageOfParse(parse), call).NotOffered?
    ensures Parses(calls + [call], Extend(parse, call))
            && StageOfParse(Extend(parse, call)) == Next(StageOfParse(parse), call)
  {
    match call
    case Matching => assert calls + [call] == Lead([]) + [] + [];
    case OrMatching => ExtendItems(calls, parse);
    case AnyEventTypeOf(_) => ExtendItem(calls, parse, call);
    case AnyPredicateOf(_) => ExtendItem(calls, parse, call);
    case AllPredicatesOf(_) => ExtendItem(calls, parse, call);
    case _ => ExtendBound(calls, parse, call);
  }

  lemma {:induction false} OfferedChainsParse(calls: seq<Call>) returns (parse: Parse)
    requires !StageAfter(calls).NotOffered?
    ensures Parses(calls, parse) && StageOfParse(parse) == StageAfter(calls)
  {
    if calls == [] {
      parse := BoundOnly([]);
    } else {
      var init, last := calls[..|calls| - 1], calls[|calls| - 1];
      assert calls == init + [last];
      var before := OfferedChainsParse(init);
      ExtendParses(init, before, last);
      parse := Extend(before, last);
    }
  }

  /** Finalize can be called on exactly the chains of the grammar. */
  lemma FinalizeIffChain(calls: seq<Call>)
    ensures OffersFinalize(StageAfter(calls)) <==> IsChain(calls)
  {
    if OffersFinalize(StageAfter(calls)) {
      var parse := OfferedChainsParse(calls);
    } else if IsChain(calls) {
      ChainsAreOffered(calls);
    }
  }
}
