/** Which delimiters in event types, keys and values let two filters share a serialization: the exact condition. */
module Ambiguity {
  import opened Filters
  import opened Sanitizing
  import opened Builder
  import opened Serialization
  import Text

  // ---- filters and their texts ----

  function ItemsFilter(items: seq<FilterItem>): Filter {
    Filter(items, ZERO_TIME, ZERO_TIME, 0)
  }

  function TypesItem(eventTypes: seq<string>): FilterItem {
    FilterItem(eventTypes, [], false)
  }

  function PredicatesItem(ps: seq<FilterPredicate>): FilterItem {
    FilterItem([], ps, false)
  }

  ghost predicate Collide(f: Filter, g: Filter, render: Time -> string) {
    f != g && Serialized(f, render) == Serialized(g, render)
  }

  /** An OR item whose serialization has this one part between its number and its logic. */
  ghost predicate HasPart(item: FilterItem, part: string) {
    !item.allPredicatesMustMatch && EventTypesParts(item.eventTypes) + PredicatesParts(item.predicates) == [part]
  }

  const LOGIC := "predicate_logic:OR"

  lemma ItemText(item: FilterItem, i: nat, part: string)
    requires HasPart(item, part)
    ensures Text.Join(ItemParts(item, i), "|") == "item:" + Text.Decimal(i) + "|" + (part + "|" + LOGIC)
  {
    var number := "item:" + Text.Decimal(i);
    var types, predicates := EventTypesParts(item.eventTypes), PredicatesParts(item.predicates);
    assert [number] + types + predicates + [LOGIC] == [number] + (types + predicates) + [LOGIC];
    assert ItemParts(item, i) == [number, part, LOGIC];
    Text.JoinThree(number, part, LOGIC, "|");
  }

  /** The text of an item that has the part, with its number. */
  function NumberedText(number: string, part: string): string {
    number + "|" + (part + "|" + LOGIC)
  }

  lemma FirstNumbers()
    ensures "item:" + Text.Decimal(0) == "item:0" && "item:" + Text.Decimal(1) == "item:1"
  {
  }

  lemma GroupsOfTwo(a: FilterItem, b: FilterItem, render: Time -> string)
    ensures Groups(ItemsFilter([a, b]), render) == [ItemParts(a, 0), ItemParts(b, 1)]
  {
  }

  lemma OneItemText(a: FilterItem, part: string, render: Time -> string)
    requires HasPart(a, part)
    ensures Serialized(ItemsFilter([a]), render) == NumberedText("item:0", part)
  {
    ItemText(a, 0, part);
    FirstNumbers();
    assert Groups(ItemsFilter([a]), render) == [ItemParts(a, 0)];
  }

  lemma TwoItemsText(a: FilterItem, part: string, b: FilterItem, other: string, render: Time -> string)
    requires HasPart(a, part) && HasPart(b, other)
    ensures Serialized(ItemsFilter([a, b]), render)
            == NumberedText("item:0", part) + "||" + NumberedText("item:1", other)
  {
    ItemText(a, 0, part);
    ItemText(b, 1, other);
    FirstNumbers();
    var first, second := NumberedText("item:0", part), NumberedText("item:1", other);
    GroupsOfTwo(a, b, render);
    assert JoinEach([ItemParts(a, 0), ItemParts(b, 1)]) == [first, second];
    Text.JoinTwo(first, second, "||");
  }

  /** What stands between the parts of the first two items. */
  const SEAM := "|" + LOGIC + "||" + "item:1" + "|"

  lemma Reassociate(number: string, x: string, bar: string, logic: string, bars: string, next: string, y: string)
    ensures number + bar + ((x + (bar + logic + bars + next + bar) + y) + bar + logic)
            == (number + bar + (x + bar + logic)) + bars + (next + bar + (y + bar + logic))
  {
  }

  /** A part that contains the seam looks like the parts of two items. */
  lemma SeamMisleads(a: FilterItem, b: FilterItem, c: FilterItem, part: string, other: string, render: Time -> string)
    requires HasPart(a, part + SEAM + other) && HasPart(b, part) && HasPart(c, other)
    ensures Collide(ItemsFilter([a]), ItemsFilter([b, c]), render)
  {
    OneItemText(a, part + SEAM + other, render);
    TwoItemsText(b, part, c, other, render);
    Reassociate("item:0", part, "|", LOGIC, "||", "item:1", other);
    assert |ItemsFilter([a]).items| != |ItemsFilter([b, c]).items|;
  }

  lemma SamePartMisleads(a: FilterItem, b: FilterItem, part: string, render: Time -> string)
    requires a != b && HasPart(a, part) && HasPart(b, part)
    ensures Collide(ItemsFilter([a]), ItemsFilter([b]), render)
  {
    OneItemText(a, part, render);
    OneItemText(b, part, render);
    assert ItemsFilter([a]).items[0] != ItemsFilter([b]).items[0];
  }

  lemma HasTypePart(eventType: string)
    ensures HasPart(TypesItem([eventType]), EVENT_TYPES + eventType)
  {
  }

  lemma HasOnePredicate(p: FilterPredicate, joined: string)
    requires joined == PredicateString(p)
    ensures HasPart(PredicatesItem([p]), PREDICATES + joined)
  {
  }

  lemma HasTwoPredicates(p: FilterPredicate, q: FilterPredicate, joined: string)
    requires joined == PredicateString(p) + "," + PredicateString(q)
    ensures HasPart(PredicatesItem([p, q]), PREDICATES + joined)
  {
    assert PredicateStrings([p, q]) == [PredicateString(p), PredicateString(q)];
    Text.JoinTwo(PredicateString(p), PredicateString(q), ",");
  }

  lemma SplitAfter(a: string, b: string, c: string, d: string)
    ensures a + (b + c + d) == (a + b) + c + d
  {
  }

  lemma SplitBefore(a: string, b: string, c: string, d: string, e: string, f: string)
    ensures (a + b + (c + d)) + e + f == a + b + (c + (d + e + f))
  {
  }

  /** The delimiters are permitted, and the item is one that the builder can make. */
  ghost predicate PossibleItem(item: FilterItem, d: Delimiters) {
    PermittedItem(item, d) && SanitizedItem(item)
  }

  ghost predicate Possible(f: Filter, d: Delimiters) {
    forall i | 0 <= i < |f.items| :: PossibleItem(f.items[i], d)
  }

  /** Two possible filters that share a serialization. */
  ghost predicate Mislead(f: Filter, g: Filter, d: Delimiters, render: Time -> string) {
    Possible(f, d) && Possible(g, d) && Collide(f, g, render)
  }

  /** A string that has the seam and a heading inside holds no other comma or equals sign. */
  lemma SeamHoldsOnlyBars(a: string, heading: string, b: string)
    requires heading == EVENT_TYPES || heading == PREDICATES
    ensures ',' in a + SEAM + (heading + b) <==> ',' in a || ',' in b
    ensures '=' in a + SEAM + (heading + b) <==> '=' in a || '=' in b
  {
    assert ',' !in SEAM && '=' !in SEAM;
    assert ',' !in EVENT_TYPES && '=' !in EVENT_TYPES && ',' !in PREDICATES && '=' !in PREDICATES;
  }

  /** Not empty and without delimiters. */
  ghost predicate Plain(s: string) {
    s != "" && ',' !in s && '=' !in s && '|' !in s
  }

  lemma OnePredicateIsPermitted(p: FilterPredicate, d: Delimiters)
    requires PermittedPredicate(p, d) && p.key != "" && p.val != ""
    ensures PossibleItem(PredicatesItem([p]), d)
  {
  }

  lemma TwoPredicatesArePermitted(p: FilterPredicate, q: FilterPredicate, d: Delimiters)
    requires PermittedPredicate(p, d) && PermittedPredicate(q, d)
    requires p.key != "" && p.val != "" && q.key != "" && q.val != "" && p.key[0] < q.key[0]
    ensures PossibleItem(PredicatesItem([p, q]), d)
  {
    assert KEY_LEQ(p, q);
  }

  lemma OneTypeIsPermitted(a: string, d: Delimiters)
    requires PermittedType(a, d) && a != ""
    ensures PossibleItem(TypesItem([a]), d)
  {
  }

  lemma TwoTypesArePermitted(a: string, b: string, d: Delimiters)
    requires PermittedType(a, d) && PermittedType(b, d) && a != "" && b != "" && a[0] < b[0]
    ensures PossibleItem(TypesItem([a, b]), d)
  {
    assert Text.Less(a, b);
  }

  lemma PlainTypeIsPermitted(a: string, d: Delimiters)
    requires Plain(a)
    ensures PossibleItem(TypesItem([a]), d) && HasPart(TypesItem([a]), EVENT_TYPES + a)
  {
  }

  lemma PlainPredicateIsPermitted(k: string, v: string, d: Delimiters)
    requires Plain(k) && Plain(v)
    ensures PossibleItem(PredicatesItem([P(k, v)]), d)
    ensures HasPart(PredicatesItem([P(k, v)]), PREDICATES + (k + "=" + v))
  {
    HasOnePredicate(P(k, v), k + "=" + v);
  }

  /** Permitted items that a seam lets collide. */
  lemma PermittedSeamMisleads(a: FilterItem, b: FilterItem, c: FilterItem, part: string, other: string,
                              d: Delimiters, render: Time -> string)
    requires HasPart(a, part + SEAM + other) && HasPart(b, part) && HasPart(c, other)
    requires PossibleItem(a, d) && PossibleItem(b, d) && PossibleItem(c, d)
    ensures Mislead(ItemsFilter([a]), ItemsFilter([b, c]), d, render)
  {
    SeamMisleads(a, b, c, part, other, render);
  }

  /** Permitted items that have the same part collide. */
  lemma PermittedSamePartMisleads(a: FilterItem, b: FilterItem, part: string, d: Delimiters, render: Time -> string)
    requires a != b && HasPart(a, part) && HasPart(b, part) && PossibleItem(a, d) && PossibleItem(b, d)
    ensures Mislead(ItemsFilter([a]), ItemsFilter([b]), d, render)
  {
    SamePartMisleads(a, b, part, render);
  }

  lemma HasTwoTypes(a: string, b: string)
    ensures HasPart(TypesItem([a, b]), EVENT_TYPES + (a + "," + b))
  {
    Text.JoinTwo(a, b, ",");
  }

  /** A comma makes one event type look like two. */
  lemma CommaInTypeMisleads(a: string, b: string, d: Delimiters, render: Time -> string)
    requires d.commaInType && Plain(a) && Plain(b) && a[0] < b[0]
    ensures Mislead(ItemsFilter([TypesItem([a + "," + b])]), ItemsFilter([TypesItem([a, b])]), d, render)
  {
    OneTypeIsPermitted(a + "," + b, d);
    TwoTypesArePermitted(a, b, d);
    HasTypePart(a + "," + b);
    HasTwoTypes(a, b);
    assert |TypesItem([a + "," + b]).eventTypes| != |TypesItem([a, b]).eventTypes|;
    PermittedSamePartMisleads(TypesItem([a + "," + b]), TypesItem([a, b]), EVENT_TYPES + (a + "," + b), d, render);
  }

  /** A bar lets an event type end its item and begin another. */
  lemma BarInTypeMisleads(a: string, b: string, d: Delimiters, render: Time -> string)
    requires d.barInType && Plain(a) && Plain(b)
    ensures Mislead(ItemsFilter([TypesItem([a + SEAM + (EVENT_TYPES + b)])]),
                    ItemsFilter([TypesItem([a]), TypesItem([b])]), d, render)
  {
    SeamHoldsOnlyBars(a, EVENT_TYPES, b);
    OneTypeIsPermitted(a + SEAM + (EVENT_TYPES + b), d);
    HasTypePart(a + SEAM + (EVENT_TYPES + b));
    PlainTypeIsPermitted(a, d);
    PlainTypeIsPermitted(b, d);
    SplitAfter(EVENT_TYPES, a, SEAM, EVENT_TYPES + b);
    PermittedSeamMisleads(TypesItem([a + SEAM + (EVENT_TYPES + b)]), TypesItem([a]), TypesItem([b]),
                          EVENT_TYPES + a, EVENT_TYPES + b, d, render);
  }

  /** So does a bar in a value. */
  lemma BarInValueMisleads(k: string, v: string, a: string, d: Delimiters, render: Time -> string)
    requires d.barInValue && Plain(k) && Plain(v) && Plain(a)
    ensures Mislead(ItemsFilter([PredicatesItem([P(k, v + SEAM + (EVENT_TYPES + a))])]),
                    ItemsFilter([PredicatesItem([P(k, v)]), TypesItem([a])]), d, render)
  {
    var p := P(k, v + SEAM + (EVENT_TYPES + a));
    SeamHoldsOnlyBars(v, EVENT_TYPES, a);
    OnePredicateIsPermitted(p, d);
    HasOnePredicate(p, PredicateString(p));
    PlainPredicateIsPermitted(k, v, d);
    PlainTypeIsPermitted(a, d);
    SplitAfter(k + "=", v, SEAM, EVENT_TYPES + a);
    SplitAfter(PREDICATES, k + "=" + v, SEAM, EVENT_TYPES + a);
    PermittedSeamMisleads(PredicatesItem([p]), PredicatesItem([P(k, v)]), TypesItem([a]),
                          PREDICATES + (k + "=" + v), EVENT_TYPES + a, d, render);
  }

  /** A bar in a key does it together with a comma in a value. */
  lemma BarInKeyAndCommaInValueMislead(k: string, v: string, a: string, b: string, w: string, d: Delimiters,
                                       render: Time -> string)
    requires d.barInKey && d.commaInValue && Plain(k) && Plain(v) && Plain(a) && Plain(b) && Plain(w)
    requires k[0] < a[0]
    ensures Mislead(ItemsFilter([PredicatesItem([P(k, v), P(a + SEAM + (PREDICATES + b), w)])]),
                    ItemsFilter([PredicatesItem([P(k, v + "," + a)]), PredicatesItem([P(b, w)])]), d, render)
  {
    var p, q, r := P(k, v), P(a + SEAM + (PREDICATES + b), w), P(k, v + "," + a);
    SeamHoldsOnlyBars(a, PREDICATES, b);
    TwoPredicatesArePermitted(p, q, d);
    OnePredicateIsPermitted(r, d);
    PlainPredicateIsPermitted(b, w, d);
    var other := PREDICATES + (b + "=" + w);
    HasTwoPredicates(p, q, PredicateString(p) + "," + PredicateString(q));
    HasOnePredicate(r, PredicateString(r));
    SplitBefore(a, SEAM, PREDICATES, b, "=", w);
    SplitAfter(PredicateString(p) + ",", a, SEAM, other);
    SplitAfter(k + "=", v, ",", a);
    SplitAfter(PREDICATES, PredicateString(r), SEAM, other);
    PermittedSeamMisleads(PredicatesItem([p, q]), PredicatesItem([r]), PredicatesItem([P(b, w)]),
                          PREDICATES + PredicateString(r), other, d, render);
  }

  /** And together with an equals sign in a key. */
  lemma BarAndEqualsInKeyMislead(k: string, v: string, b: string, w: string, d: Delimiters, render: Time -> string)
    requires d.barInKey && d.equalsInKey && Plain(k) && Plain(v) && Plain(b) && Plain(w)
    ensures Mislead(ItemsFilter([PredicatesItem([P((k + "=" + v) + SEAM + (PREDICATES + b), w)])]),
                    ItemsFilter([PredicatesItem([P(k, v)]), PredicatesItem([P(b, w)])]), d, render)
  {
    var p := P((k + "=" + v) + SEAM + (PREDICATES + b), w);
    SeamHoldsOnlyBars(k + "=" + v, PREDICATES, b);
    OnePredicateIsPermitted(p, d);
    PlainPredicateIsPermitted(k, v, d);
    PlainPredicateIsPermitted(b, w, d);
    var other := PREDICATES + (b + "=" + w);
    HasOnePredicate(p, PredicateString(p));
    SplitBefore(k + "=" + v, SEAM, PREDICATES, b, "=", w);
    SplitAfter(PREDICATES, k + "=" + v, SEAM, other);
    PermittedSeamMisleads(PredicatesItem([p]), PredicatesItem([P(k, v)]), PredicatesItem([P(b, w)]),
                          PREDICATES + (k + "=" + v), other, d, render);
  }

  /** Two permitted lists whose first predicates differ and that join to the same string. */
  lemma ListsMislead(ps: seq<FilterPredicate>, qs: seq<FilterPredicate>, joined: string, d: Delimiters,
                     render: Time -> string)
    requires ps != [] && qs != [] && ps[0] != qs[0]
    requires HasPart(PredicatesItem(ps), PREDICATES + joined) && HasPart(PredicatesItem(qs), PREDICATES + joined)
    requires PossibleItem(PredicatesItem(ps), d) && PossibleItem(PredicatesItem(qs), d)
    ensures Mislead(ItemsFilter([PredicatesItem(ps)]), ItemsFilter([PredicatesItem(qs)]), d, render)
  {
    assert PredicatesItem(ps).predicates[0] != PredicatesItem(qs).predicates[0];
    PermittedSamePartMisleads(PredicatesItem(ps), PredicatesItem(qs), PREDICATES + joined, d, render);
  }

  lemma EqualsInKeyAndValueMislead(d: Delimiters, render: Time -> string)
    requires d.equalsInKey && d.equalsInValue
    ensures Mislead(ItemsFilter([PredicatesItem([P("a=b", "c")])]),
                    ItemsFilter([PredicatesItem([P("a", "b=c")])]), d, render)
  {
    HasOnePredicate(P("a=b", "c"), "a=b=c");
    HasOnePredicate(P("a", "b=c"), "a=b=c");
    OnePredicateIsPermitted(P("a=b", "c"), d);
    OnePredicateIsPermitted(P("a", "b=c"), d);
    ListsMislead([P("a=b", "c")], [P("a", "b=c")], "a=b=c", d, render);
  }

  lemma CommaAndEqualsInKeyMislead(d: Delimiters, render: Time -> string)
    requires d.commaInKey && d.equalsInKey
    ensures Mislead(ItemsFilter([PredicatesItem([P("a=x,b", "y")])]),
                    ItemsFilter([PredicatesItem([P("a", "x"), P("b", "y")])]), d, render)
  {
    HasOnePredicate(P("a=x,b", "y"), "a=x,b=y");
    HasTwoPredicates(P("a", "x"), P("b", "y"), "a=x,b=y");
    OnePredicateIsPermitted(P("a=x,b", "y"), d);
    TwoPredicatesArePermitted(P("a", "x"), P("b", "y"), d);
    ListsMislead([P("a=x,b", "y")], [P("a", "x"), P("b", "y")], "a=x,b=y", d, render);
  }

  lemma CommaAndEqualsInValueMislead(d: Delimiters, render: Time -> string)
    requires d.commaInValue && d.equalsInValue
    ensures Mislead(ItemsFilter([PredicatesItem([P("a", "x,b=y")])]),
                    ItemsFilter([PredicatesItem([P("a", "x"), P("b", "y")])]), d, render)
  {
    HasOnePredicate(P("a", "x,b=y"), "a=x,b=y");
    HasTwoPredicates(P("a", "x"), P("b", "y"), "a=x,b=y");
    OnePredicateIsPermitted(P("a", "x,b=y"), d);
    TwoPredicatesArePermitted(P("a", "x"), P("b", "y"), d);
    ListsMislead([P("a", "x,b=y")], [P("a", "x"), P("b", "y")], "a=x,b=y", d, render);
  }

  lemma CommaInKeyAndValueMislead(d: Delimiters, render: Time -> string)
    requires d.commaInKey && d.commaInValue
    ensures Mislead(ItemsFilter([PredicatesItem([P("a", "x"), P("b,c", "y")])]),
                    ItemsFilter([PredicatesItem([P("a", "x,b"), P("c", "y")])]), d, render)
  {
    HasTwoPredicates(P("a", "x"), P("b,c", "y"), "a=x,b,c=y");
    HasTwoPredicates(P("a", "x,b"), P("c", "y"), "a=x,b,c=y");
    TwoPredicatesArePermitted(P("a", "x"), P("b,c", "y"), d);
    TwoPredicatesArePermitted(P("a", "x,b"), P("c", "y"), d);
    ListsMislead([P("a", "x"), P("b,c", "y")], [P("a", "x,b"), P("c", "y")], "a=x,b,c=y", d, render);
  }

  // ---- the exact condition ----

  /** No two permitted filters that the builder can make share a serialization. */
  ghost predicate IdentifiesPermitted(d: Delimiters, render: Time -> string) {
    forall f, g :: !Mislead(f, g, d, render)
  }

  /** A delimiter that misleads by itself. */
  lemma OneDelimiterMisleads(d: Delimiters, render: Time -> string)
    requires d.commaInType || d.barInType || d.barInValue
    ensures !IdentifiesPermitted(d, render)
  {
    if d.commaInType {
      CommaInTypeMisleads("A", "B", d, render);
    } else if d.barInType {
      BarInTypeMisleads("A", "B", d, render);
    } else {
      BarInValueMisleads("k", "v", "A", d, render);
    }
  }

  /** Two delimiters that mislead together. */
  lemma TwoDelimitersMislead(d: Delimiters, render: Time -> string)
    requires (d.equalsInKey || d.commaInValue) && (d.commaInKey || d.barInKey || d.equalsInValue)
    ensures !IdentifiesPermitted(d, render)
  {
    if d.equalsInKey && d.equalsInValue {
      EqualsInKeyAndValueMislead(d, render);
    } else if d.equalsInKey && d.commaInKey {
      CommaAndEqualsInKeyMislead(d, render);
    } else if d.equalsInKey {
      BarAndEqualsInKeyMislead("k", "v", "l", "w", d, render);
    } else if d.equalsInValue {
      CommaAndEqualsInValueMislead(d, render);
    } else if d.commaInKey {
      CommaInKeyAndValueMislead(d, render);
    } else {
      BarInKeyAndCommaInValueMislead("k", "v", "l", "m", "w", d, render);
    }
  }

  /**
    Serialization identifies the builder's filters with the given delimiters if and only if event types hold no
    comma and no bar, values hold no bar, and either keys hold no equals sign and values no comma, or keys hold no
    comma and no bar and values no equals sign.
   */
  lemma IdentifiesIffUnambiguous(d: Delimiters, render: Time -> string)
    requires RendersTimes(render)
    ensures IdentifiesPermitted(d, render)
            <==> !d.commaInType && !d.barInType && !d.barInValue
                 && ((!d.equalsInKey && !d.commaInValue) || (!d.commaInKey && !d.barInKey && !d.equalsInValue))
  {
    if Unambiguous(d) {
      forall f, g ensures !Mislead(f, g, d, render) {
        if Mislead(f, g, d, render) {
          assert Permitted(f, d) && Permitted(g, d);
          SerializeIsInjective(f, g, d, render);
        }
      }
    } else if d.commaInType || d.barInType || d.barInValue {
      OneDelimiterMisleads(d, render);
    } else {
      TwoDelimitersMislead(d, render);
    }
  }
}
