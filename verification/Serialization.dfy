/** Filter.Serialize and Filter.Hash, and why the serialization identifies a filter with unambiguous delimiters. */
module Serialization {
  import opened Filters
  import Text

  // ---- the parts of a serialization ----

  const EVENT_TYPES := "event_types:"
  const PREDICATES := "predicates:"

  function PredicateString(p: FilterPredicate): string {
    p.key + "=" + p.val
  }

  function PredicateStrings(predicates: seq<FilterPredicate>): (r: seq<string>)
    ensures |r| == |predicates|
    ensures forall i | 0 <= i < |r| :: r[i] == PredicateString(predicates[i])
  {
    seq(|predicates|, i requires 0 <= i < |predicates| => PredicateString(predicates[i]))
  }

  function EventTypesParts(eventTypes: seq<string>): seq<string> {
    if eventTypes == [] then [] else [EVENT_TYPES + Text.Join(eventTypes, ",")]
  }

  function PredicatesParts(predicates: seq<FilterPredicate>): seq<string> {
    if predicates == [] then [] else [PREDICATES + Text.Join(PredicateStrings(predicates), ",")]
  }

  function LogicPart(allPredicatesMustMatch: bool): string {
    if allPredicatesMustMatch then "predicate_logic:AND" else "predicate_logic:OR"
  }

  function ItemParts(item: FilterItem, i: nat): seq<string> {
    ["item:" + Text.Decimal(i)] + EventTypesParts(item.eventTypes) + PredicatesParts(item.predicates)
    + [LogicPart(item.allPredicatesMustMatch)]
  }

  /** One group of parts for each item. */
  function ItemGroups(items: seq<FilterItem>): (r: seq<seq<string>>)
    ensures |r| == |items|
    ensures forall i | 0 <= i < |r| :: r[i] == ItemParts(items[i], i)
  {
    seq(|items|, i requires 0 <= i < |items| => ItemParts(items[i], i))
  }

  function TimeGroups(name: string, t: Time, render: Time -> string): seq<seq<string>> {
    if t == ZERO_TIME then [] else [[name + render(t)]]
  }

  function SequenceGroups(n: nat): seq<seq<string>> {
    if n == 0 then [] else [["sequence_higher_than:" + Text.Decimal(n)]]
  }

  function BoundGroups(f: Filter, render: Time -> string): seq<seq<string>> {
    TimeGroups("occurred_from:", f.occurredFrom, render)
    + TimeGroups("occurred_until:", f.occurredUntil, render)
    + SequenceGroups(f.sequenceNumberHigherThan)
  }

  function Groups(f: Filter, render: Time -> string): seq<seq<string>> {
    ItemGroups(f.items) + BoundGroups(f, render)
  }

  function JoinEach(groups: seq<seq<string>>): (r: seq<string>)
    ensures |r| == |groups|
    ensures forall i | 0 <= i < |r| :: r[i] == Text.Join(groups[i], "|")
  {
    seq(|groups|, i requires 0 <= i < |groups| => Text.Join(groups[i], "|"))
  }

  /** What Serialize returns; render stands for time.Format(RFC3339Nano). */
  function Serialized(f: Filter, render: Time -> string): string {
    Text.Join(JoinEach(Groups(f, render)), "||")
  }

  // ---- Serialize itself ----

  method SerializeItem(item: FilterItem, i: nat) returns (part: string)
    ensures part == Text.Join(ItemParts(item, i), "|")
  {
    var itemParts := ["item:" + Text.Decimal(i)];
    if |item.eventTypes| > 0 {
      itemParts := itemParts + [EVENT_TYPES + Text.Join(item.eventTypes, ",")];
    }
    assert itemParts == ["item:" + Text.Decimal(i)] + EventTypesParts(item.eventTypes);
    ghost var withTypes := itemParts;
    if |item.predicates| > 0 {
      var predicateStrings := JoinablePredicates(item.predicates);
      itemParts := itemParts + [PREDICATES + Text.Join(predicateStrings, ",")];
    }
    assert itemParts == withTypes + PredicatesParts(item.predicates);
    if item.allPredicatesMustMatch {
      itemParts := itemParts + ["predicate_logic:AND"];
    } else {
      itemParts := itemParts + ["predicate_logic:OR"];
    }
    part := Text.Join(itemParts, "|");
  }

  method JoinablePredicates(predicates: seq<FilterPredicate>) returns (predicateStrings: seq<string>)
    ensures predicateStrings == PredicateStrings(predicates)
  {
    predicateStrings := [];
    for k := 0 to |predicates|
      invariant predicateStrings == PredicateStrings(predicates)[..k]
    {
      predicateStrings := predicateStrings + [predicates[k].key + "=" + predicates[k].val];
    }
  }

  method SerializeItems(items: seq<FilterItem>) returns (parts: seq<string>)
    ensures parts == JoinEach(ItemGroups(items))
  {
    parts := [];
    for i := 0 to |items|
      invariant parts == JoinEach(ItemGroups(items))[..i]
    {
      var part := SerializeItem(items[i], i);
      parts := parts + [part];
    }
  }

  lemma JoinedTimeGroups(name: string, t: Time, render: Time -> string)
    ensures JoinEach(TimeGroups(name, t, render)) == if t == ZERO_TIME then [] else [name + render(t)]
  {
  }

  lemma JoinedSequenceGroups(n: nat)
    ensures JoinEach(SequenceGroups(n)) == if n == 0 then [] else ["sequence_higher_than:" + Text.Decimal(n)]
  {
  }

  lemma JoinedGroups(items: seq<seq<string>>, from: seq<seq<string>>, until: seq<seq<string>>, bound: seq<seq<string>>)
    ensures JoinEach(items + (from + until + bound))
            == JoinEach(items) + JoinEach(from) + JoinEach(until) + JoinEach(bound)
  {
  }

  method Serialize(f: Filter, render: Time -> string) returns (s: string)
    ensures s == Serialized(f, render)
  {
    var parts := SerializeItems(f.items);
    ghost var items := parts;
    JoinedTimeGroups("occurred_from:", f.occurredFrom, render);
    JoinedTimeGroups("occurred_until:", f.occurredUntil, render);
    JoinedSequenceGroups(f.sequenceNumberHigherThan);
    JoinedGroups(ItemGroups(f.items), TimeGroups("occurred_from:", f.occurredFrom, render),
                 TimeGroups("occurred_until:", f.occurredUntil, render), SequenceGroups(f.sequenceNumberHigherThan));
    if f.occurredFrom != ZERO_TIME {
      parts := parts + ["occurred_from:" + render(f.occurredFrom)];
    }
    assert parts == items + JoinEach(TimeGroups("occurred_from:", f.occurredFrom, render));
    ghost var withFrom := parts;
    if f.occurredUntil != ZERO_TIME {
      parts := parts + ["occurred_until:" + render(f.occurredUntil)];
    }
    assert parts == withFrom + JoinEach(TimeGroups("occurred_until:", f.occurredUntil, render));
    ghost var withUntil := parts;
    if f.sequenceNumberHigherThan > 0 {
      parts := parts + ["sequence_higher_than:" + Text.Decimal(f.sequenceNumberHigherThan)];
    }
    assert parts == withUntil + JoinEach(SequenceGroups(f.sequenceNumberHigherThan));
    s := Text.Join(parts, "||");
  }

  // ---- when equal serializations mean equal filters ----

  /** Which delimiters event types, keys and values may contain; equals signs in event types never matter. */
  datatype Delimiters = Delimiters(
    commaInType: bool, barInType: bool,
    commaInKey: bool, equalsInKey: bool, barInKey: bool,
    commaInValue: bool, equalsInValue: bool, barInValue: bool)

  /** A key ends at the first equals sign, a value at the first comma or bar. */
  predicate FromLeft(d: Delimiters) {
    !d.equalsInKey && !d.commaInValue && !d.barInValue
  }

  /** Read backwards, a value ends at the first equals sign, a key at the first comma. */
  predicate FromRight(d: Delimiters) {
    !d.commaInKey && !d.equalsInValue && !d.barInKey && !d.barInValue
  }

  predicate Unambiguous(d: Delimiters) {
    !d.commaInType && !d.barInType && (FromLeft(d) || FromRight(d))
  }

  ghost predicate PermittedType(eventType: string, d: Delimiters) {
    (',' in eventType ==> d.commaInType) && ('|' in eventType ==> d.barInType)
  }

  ghost predicate PermittedTypes(eventTypes: seq<string>, d: Delimiters) {
    forall i | 0 <= i < |eventTypes| :: PermittedType(eventTypes[i], d)
  }

  ghost predicate PermittedPredicate(p: FilterPredicate, d: Delimiters) {
    && (',' in p.key ==> d.commaInKey) && ('=' in p.key ==> d.equalsInKey) && ('|' in p.key ==> d.barInKey)
    && (',' in p.val ==> d.commaInValue) && ('=' in p.val ==> d.equalsInValue) && ('|' in p.val ==> d.barInValue)
  }

  ghost predicate PermittedPredicates(predicates: seq<FilterPredicate>, d: Delimiters) {
    forall i | 0 <= i < |predicates| :: PermittedPredicate(predicates[i], d)
  }

  ghost predicate PermittedItem(item: FilterItem, d: Delimiters) {
    PermittedTypes(item.eventTypes, d) && PermittedPredicates(item.predicates, d)
  }

  /** Every event type, key and value holds permitted delimiters only. */
  ghost predicate Permitted(f: Filter, d: Delimiters) {
    forall i | 0 <= i < |f.items| :: PermittedItem(f.items[i], d)
  }

  /** What the proofs need of RFC3339Nano: no bar, and different instants look different. */
  ghost predicate RendersTimes(render: Time -> string) {
    && (forall t :: '|' !in render(t))
    && (forall t, u :: render(t) == render(u) ==> t == u)
  }

  // ---- reading a predicate list ----

  function JoinedPredicates(ps: seq<FilterPredicate>): string {
    Text.Join(PredicateStrings(ps), ",")
  }

  ghost predicate LeftReadable(ps: seq<FilterPredicate>) {
    && ps != []
    && forall i | 0 <= i < |ps| :: '=' !in ps[i].key && ',' !in ps[i].val && '|' !in ps[i].val
  }

  /** What follows the first value: the other predicates, the bar that ends the part, and the rest of the string. */
  function AfterFirst(ps: seq<FilterPredicate>, rest: string): string
    requires ps != []
  {
    if |ps| == 1 then "|" + rest else "," + (JoinedPredicates(ps[1..]) + "|" + rest)
  }

  lemma KeyThenValue(ps: seq<FilterPredicate>, rest: string)
    requires ps != []
    ensures JoinedPredicates(ps) + "|" + rest == ps[0].key + "=" + (ps[0].val + AfterFirst(ps, rest))
  {
    var k, v := ps[0].key, ps[0].val;
    if |ps| == 1 {
      assert (k + "=" + v) + "|" + rest == k + "=" + (v + ("|" + rest));
    } else {
      assert PredicateStrings(ps)[1..] == PredicateStrings(ps[1..]);
      var more := JoinedPredicates(ps[1..]);
      assert ((k + "=" + v) + "," + more) + "|" + rest == k + "=" + (v + ("," + (more + "|" + rest)));
    }
  }

  /** The value ends at the first comma or bar. */
  lemma ValueEnds(v: string, after: string, w: string, afterW: string)
    requires ',' !in v && '|' !in v && ',' !in w && '|' !in w
    requires after != [] && (after[0] == ',' || after[0] == '|')
    requires afterW != [] && (afterW[0] == ',' || afterW[0] == '|')
    requires v + after == w + afterW
    ensures v == w && after == afterW
  {
    var whole := v + after;
    assert whole[|v|] == after[0] && whole[|w|] == afterW[0];
    assert forall i | 0 <= i < |v| :: whole[i] == v[i];
    assert forall i | 0 <= i < |w| :: whole[i] == w[i];
    assert |v| == |w|;
    assert v == whole[..|v|] && w == whole[..|w|];
    assert after == whole[|v|..] && afterW == whole[|w|..];
  }

  /**
    Keys without equals signs, values without commas and bars: the list is read from the left, and its end is
    seen whatever follows, even if keys contain bars.
   */
  lemma {:induction false} ReadableFromTheLeft(ps: seq<FilterPredicate>, x: string, qs: seq<FilterPredicate>, y: string)
    requires LeftReadable(ps) && LeftReadable(qs)
    requires JoinedPredicates(ps) + "|" + x == JoinedPredicates(qs) + "|" + y
    ensures ps == qs && x == y
  {
    KeyThenValue(ps, x);
    KeyThenValue(qs, y);
    Text.HeadEndsAtMark(ps[0].key, ps[0].val + AfterFirst(ps, x), qs[0].key, qs[0].val + AfterFirst(qs, y), '=');
    ValueEnds(ps[0].val, AfterFirst(ps, x), qs[0].val, AfterFirst(qs, y));
    if |ps| == 1 {
      assert AfterFirst(qs, y)[0] == '|';
      assert x == AfterFirst(ps, x)[1..] && y == AfterFirst(qs, y)[1..];
    } else {
      assert AfterFirst(qs, y)[0] == ',';
      var ps', qs' := ps[1..], qs[1..];
      assert JoinedPredicates(ps') + "|" + x == AfterFirst(ps, x)[1..];
      assert JoinedPredicates(qs') + "|" + y == AfterFirst(qs, y)[1..];
      ReadableFromTheLeft(ps', x, qs', y);
      assert ps == [ps[0]] + ps' && qs == [qs[0]] + qs';
    }
  }

  function Reversed<T>(s: seq<T>): (r: seq<T>)
    ensures |r| == |s| && forall i | 0 <= i < |s| :: r[i] == s[|s| - 1 - i]
  {
    seq(|s|, i requires 0 <= i < |s| => s[|s| - 1 - i])
  }

  lemma ReversedElements<T>(s: seq<T>, x: T)
    ensures x in Reversed(s) <==> x in s
  {
    if x in s {
      var i :| 0 <= i < |s| && s[i] == x;
      assert Reversed(s)[|s| - 1 - i] == x;
    }
  }

  /** The predicate whose string reads backwards. */
  function MirrorPredicate(p: FilterPredicate): FilterPredicate {
    P(Reversed(p.val), Reversed(p.key))
  }

  function Mirror(ps: seq<FilterPredicate>): (r: seq<FilterPredicate>)
    ensures |r| == |ps| && forall i | 0 <= i < |ps| :: r[i] == MirrorPredicate(ps[|ps| - 1 - i])
  {
    seq(|ps|, i requires 0 <= i < |ps| => MirrorPredicate(ps[|ps| - 1 - i]))
  }

  lemma ReversedConcat<T>(s: seq<T>, t: seq<T>)
    ensures Reversed(s + t) == Reversed(t) + Reversed(s)
  {
  }

  lemma MirroredStringReadsBackwards(p: FilterPredicate)
    ensures Reversed(PredicateString(p)) == PredicateString(MirrorPredicate(p))
  {
    ReversedConcat(p.key + "=", p.val);
    ReversedConcat(p.key, "=");
    assert Reversed("=") == "=";
    assert Reversed(p.val) + ("=" + Reversed(p.key)) == Reversed(p.val) + "=" + Reversed(p.key);
  }

  lemma MirrorPutsFirstLast(ps: seq<FilterPredicate>)
    requires ps != []
    ensures PredicateStrings(Mirror(ps)) == PredicateStrings(Mirror(ps[1..]))
            + [PredicateString(MirrorPredicate(ps[0]))]
  {
    var mirrored, rest := Mirror(ps), Mirror(ps[1..]);
    assert forall i | 0 <= i < |rest| :: mirrored[i] == rest[i];
  }

  lemma {:induction false} MirrorReadsBackwards(ps: seq<FilterPredicate>)
    requires ps != []
    ensures Reversed(JoinedPredicates(ps)) == JoinedPredicates(Mirror(ps))
  {
    var first := PredicateString(ps[0]);
    MirroredStringReadsBackwards(ps[0]);
    MirrorPutsFirstLast(ps);
    var last := PredicateString(MirrorPredicate(ps[0]));
    if |ps| == 1 {
      assert PredicateStrings(Mirror(ps)) == [last];
    } else {
      var rest := ps[1..];
      MirrorReadsBackwards(rest);
      assert PredicateStrings(ps)[1..] == PredicateStrings(rest);
      Text.JoinConcat(PredicateStrings(Mirror(rest)), [last], ",");
      ReversedConcat(first + ",", JoinedPredicates(rest));
      ReversedConcat(first, ",");
      assert Reversed(",") == ",";
      assert JoinedPredicates(Mirror(rest)) + ("," + last) == JoinedPredicates(Mirror(rest)) + "," + last;
    }
  }

  lemma ReversedIsInjective<T>(s: seq<T>, t: seq<T>)
    requires Reversed(s) == Reversed(t)
    ensures s == t
  {
    assert |s| == |t|;
    forall i | 0 <= i < |s| ensures s[i] == t[i] {
      assert Reversed(s)[|s| - 1 - i] == s[i] && Reversed(t)[|s| - 1 - i] == t[i];
    }
  }

  lemma MirrorIsInjective(ps: seq<FilterPredicate>, qs: seq<FilterPredicate>)
    requires Mirror(ps) == Mirror(qs)
    ensures ps == qs
  {
    assert |ps| == |qs|;
    forall i | 0 <= i < |ps| ensures ps[i] == qs[i] {
      var j := |ps| - 1 - i;
      assert Mirror(ps)[j] == MirrorPredicate(ps[i]) && Mirror(qs)[j] == MirrorPredicate(qs[i]);
      ReversedIsInjective(ps[i].key, qs[i].key);
      ReversedIsInjective(ps[i].val, qs[i].val);
    }
  }

  lemma MirrorSwapsRoles(ps: seq<FilterPredicate>)
    requires ps != []
    requires forall i | 0 <= i < |ps| :: ',' !in ps[i].key && '|' !in ps[i].key && '=' !in ps[i].val
    ensures LeftReadable(Mirror(ps))
  {
    forall i | 0 <= i < |ps|
      ensures '=' !in Mirror(ps)[i].key && ',' !in Mirror(ps)[i].val && '|' !in Mirror(ps)[i].val
    {
      var p := ps[|ps| - 1 - i];
      ReversedElements(p.val, '=');
      ReversedElements(p.key, ',');
      ReversedElements(p.key, '|');
    }
  }

  /** Keys without commas and bars, values without equals signs: the list is read from the right. */
  lemma ReadableFromTheRight(ps: seq<FilterPredicate>, qs: seq<FilterPredicate>)
    requires ps != [] && qs != []
    requires forall i | 0 <= i < |ps| :: ',' !in ps[i].key && '|' !in ps[i].key && '=' !in ps[i].val
    requires forall i | 0 <= i < |qs| :: ',' !in qs[i].key && '|' !in qs[i].key && '=' !in qs[i].val
    requires JoinedPredicates(ps) == JoinedPredicates(qs)
    ensures ps == qs
  {
    MirrorReadsBackwards(ps);
    MirrorReadsBackwards(qs);
    MirrorSwapsRoles(ps);
    MirrorSwapsRoles(qs);
    ReadableFromTheLeft(Mirror(ps), "", Mirror(qs), "");
    MirrorIsInjective(ps, qs);
  }

  // ---- reading the parts between bars ----

  lemma JoinAvoids(parts: seq<string>, separator: string, mark: char)
    requires Text.Avoids(parts, mark) && mark !in separator
    ensures mark !in Text.Join(parts, separator)
  {
    if |parts| > 1 {
      assert forall i | 0 <= i < |parts| - 1 :: mark !in parts[1..][i];
      JoinAvoids(parts[1..], separator, mark);
    }
  }

  ghost predicate PredicatesPart(part: string, ps: seq<FilterPredicate>) {
    LeftReadable(ps) && part == PREDICATES + JoinedPredicates(ps)
  }

  ghost predicate OtherPart(part: string) {
    '|' !in part && !(PREDICATES <= part)
  }

  /** Only a predicates part may contain bars, and only if predicates are read from the left. */
  ghost predicate LegiblePart(part: string, d: Delimiters) {
    if FromLeft(d) then OtherPart(part) || exists ps :: PredicatesPart(part, ps) else '|' !in part
  }

  ghost predicate LegibleParts(parts: seq<string>, d: Delimiters) {
    forall i | 0 <= i < |parts| :: LegiblePart(parts[i], d)
  }

  lemma SamePrefix(prefix: string, x: string, y: string)
    requires prefix + x == prefix + y
    ensures x == y
  {
    assert x == (prefix + x)[|prefix|..] && y == (prefix + y)[|prefix|..];
  }

  /** A part of another kind is not mistaken for a predicates part. */
  lemma KindsOfPartsDiffer(p: string, x: string, q: string, y: string)
    requires OtherPart(p) && PREDICATES <= q
    ensures p + "|" + x != q + "|" + y
  {
    var left, right := p + "|" + x, q + "|" + y;
    assert left[|p|] == '|' && forall i | 0 <= i < |p| :: left[i] == p[i];
    assert '|' !in PREDICATES && forall i | 0 <= i < |PREDICATES| :: right[i] == PREDICATES[i];
    assert |p| >= |PREDICATES| ==> exists i | 0 <= i < |PREDICATES| :: p[i] != PREDICATES[i];
  }

  lemma PredicatesPartIsReadable(p: string, x: string, q: string, y: string)
    requires (exists ps :: PredicatesPart(p, ps)) && (exists qs :: PredicatesPart(q, qs))
    requires p + "|" + x == q + "|" + y
    ensures p == q && x == y
  {
    var ps :| PredicatesPart(p, ps);
    var qs :| PredicatesPart(q, qs);
    var j, k := JoinedPredicates(ps), JoinedPredicates(qs);
    assert p + "|" + x == PREDICATES + (j + "|" + x);
    assert q + "|" + y == PREDICATES + (k + "|" + y);
    SamePrefix(PREDICATES, j + "|" + x, k + "|" + y);
    ReadableFromTheLeft(ps, x, qs, y);
  }

  lemma FirstPartIsReadable(p: string, x: string, q: string, y: string, d: Delimiters)
    requires FromLeft(d) && LegiblePart(p, d) && LegiblePart(q, d)
    requires p + "|" + x == q + "|" + y
    ensures p == q && x == y
  {
    if OtherPart(p) && OtherPart(q) {
      Text.HeadEndsAtMark(p, x, q, y, '|');
    } else if OtherPart(p) {
      KindsOfPartsDiffer(p, x, q, y);
    } else if OtherPart(q) {
      KindsOfPartsDiffer(q, y, p, x);
    } else {
      PredicatesPartIsReadable(p, x, q, y);
    }
  }

  /** What follows the first part and its bar, in a list of parts that ends with a bar. */
  function AfterFirstPart(parts: seq<string>): string
    requires parts != []
  {
    if |parts| == 1 then "" else Text.Join(parts[1..], "|") + "|"
  }

  lemma FirstPartFirst(parts: seq<string>)
    requires parts != []
    ensures Text.Join(parts, "|") + "|" == parts[0] + "|" + AfterFirstPart(parts)
  {
    if |parts| > 1 {
      var rest := Text.Join(parts[1..], "|");
      assert (parts[0] + "|" + rest) + "|" == parts[0] + "|" + (rest + "|");
    }
  }

  /** The list of parts can be read back from the string they are joined to. */
  lemma {:induction false} PartsAreReadable(ps: seq<string>, qs: seq<string>, d: Delimiters)
    requires ps != [] && qs != [] && LegibleParts(ps, d) && LegibleParts(qs, d)
    requires Text.Join(ps, "|") == Text.Join(qs, "|")
    ensures ps == qs
  {
    if FromLeft(d) {
      FirstPartFirst(ps);
      FirstPartFirst(qs);
      FirstPartIsReadable(ps[0], AfterFirstPart(ps), qs[0], AfterFirstPart(qs), d);
      assert |ps| == 1 <==> |qs| == 1;
      if |ps| > 1 {
        var x, y := Text.Join(ps[1..], "|"), Text.Join(qs[1..], "|");
        assert x == (x + "|")[..|x|] && y == (y + "|")[..|y|];
        PartsAreReadable(ps[1..], qs[1..], d);
      }
      assert ps == [ps[0]] + ps[1..] && qs == [qs[0]] + qs[1..];
    } else {
      Text.JoinIsInjective(ps, qs, '|');
    }
  }

  // ---- reading the groups between double bars ----

  ghost predicate LegibleGroup(group: seq<string>, d: Delimiters) {
    group != [] && LegibleParts(group, d) && forall i | 0 <= i < |group| :: group[i] != ""
  }

  ghost predicate LegibleGroups(groups: seq<seq<string>>, d: Delimiters) {
    forall i | 0 <= i < |groups| :: LegibleGroup(groups[i], d)
  }

  /** A part without a bar that does not begin like a predicates part is legible. */
  lemma PlainPart(part: string, d: Delimiters)
    requires '|' !in part && (|part| > 9 && part[9] == PREDICATES[9] ==> part[0] != 'p')
    ensures LegiblePart(part, d)
  {
    assert PREDICATES[0] == 'p';
  }

  lemma EventTypesPartsAreLegible(eventTypes: seq<string>, d: Delimiters)
    requires Unambiguous(d) && PermittedTypes(eventTypes, d)
    ensures LegibleParts(EventTypesParts(eventTypes), d)
  {
    forall i | 0 <= i < |eventTypes| ensures '|' !in eventTypes[i] {
      assert PermittedType(eventTypes[i], d);
    }
    JoinAvoids(eventTypes, ",", '|');
    PlainPart(EVENT_TYPES + Text.Join(eventTypes, ","), d);
  }

  lemma PredicatesPartsAreLegible(predicates: seq<FilterPredicate>, d: Delimiters)
    requires Unambiguous(d) && PermittedPredicates(predicates, d)
    ensures LegibleParts(PredicatesParts(predicates), d)
  {
    forall i | 0 <= i < |predicates| ensures PermittedPredicate(predicates[i], d) {}
    if predicates == [] {
    } else if FromLeft(d) {
      assert PredicatesPart(PREDICATES + JoinedPredicates(predicates), predicates);
    } else {
      forall i | 0 <= i < |predicates| ensures '|' !in PredicateStrings(predicates)[i] {
        assert PermittedPredicate(predicates[i], d);
      }
      JoinAvoids(PredicateStrings(predicates), ",", '|');
    }
  }

  lemma ItemPartsAreLegible(item: FilterItem, i: nat, d: Delimiters)
    requires Unambiguous(d) && PermittedItem(item, d)
    ensures LegibleGroup(ItemParts(item, i), d)
  {
    EventTypesPartsAreLegible(item.eventTypes, d);
    PredicatesPartsAreLegible(item.predicates, d);
    PlainPart("item:" + Text.Decimal(i), d);
    PlainPart(LogicPart(item.allPredicatesMustMatch), d);
  }

  lemma OnePartIsLegible(part: string, d: Delimiters)
    requires '|' !in part && part != "" && part[0] != 'p'
    ensures LegibleGroup([part], d)
  {
    PlainPart(part, d);
  }

  lemma BoundGroupsAreLegible(f: Filter, d: Delimiters, render: Time -> string)
    requires RendersTimes(render)
    ensures LegibleGroups(BoundGroups(f, render), d)
  {
    OnePartIsLegible("occurred_from:" + render(f.occurredFrom), d);
    OnePartIsLegible("occurred_until:" + render(f.occurredUntil), d);
    OnePartIsLegible("sequence_higher_than:" + Text.Decimal(f.sequenceNumberHigherThan), d);
  }

  lemma GroupsAreLegible(f: Filter, d: Delimiters, render: Time -> string)
    requires Unambiguous(d) && Permitted(f, d) && RendersTimes(render)
    ensures LegibleGroups(Groups(f, render), d)
  {
    forall i | 0 <= i < |f.items| ensures LegibleGroup(ItemGroups(f.items)[i], d) {
      ItemPartsAreLegible(f.items[i], i, d);
    }
    BoundGroupsAreLegible(f, d, render);
  }

  /** "||" between groups joined by "|" is "|" between all parts, with an empty part between groups. */
  lemma {:induction false} DoubleBarIsAnEmptyPart(groups: seq<seq<string>>)
    requires forall i | 0 <= i < |groups| :: groups[i] != []
    ensures Text.Join(JoinEach(groups), "||") == Text.Join(Text.Join(groups, [""]), "|")
    ensures groups != [] ==> Text.Join(groups, [""]) != []
  {
    if |groups| > 1 {
      var head, rest := groups[0], Text.Join(groups[1..], [""]);
      assert JoinEach(groups)[1..] == JoinEach(groups[1..]);
      DoubleBarIsAnEmptyPart(groups[1..]);
      Text.JoinConcat(head + [""], rest, "|");
      Text.JoinConcat(head, [""], "|");
      var h, r := Text.Join(head, "|"), Text.Join(rest, "|");
      assert h + "|" + "" + "|" + r == h + "||" + r;
    }
  }

  lemma FlatPartsAreLegible(groups: seq<seq<string>>, d: Delimiters)
    requires LegibleGroups(groups, d)
    ensures LegibleParts(Text.Join(groups, [""]), d)
    ensures groups != [] ==> Text.Join(groups, [""]) != [] && Text.Join(groups, [""])[0] != ""
  {
    if |groups| > 1 {
      FlatPartsAreLegible(groups[1..], d);
      PlainPart("", d);
    }
    if |groups| > 0 {
      assert LegibleGroup(groups[0], d);
    }
  }

  lemma JoinOfNonEmpty(parts: seq<string>)
    requires parts != [] && parts[0] != ""
    ensures Text.Join(parts, "|") != ""
  {
  }

  /** Groups of legible, non-empty parts can be read back from the whole string. */
  lemma GroupsAreReadable(gs: seq<seq<string>>, hs: seq<seq<string>>, d: Delimiters)
    requires LegibleGroups(gs, d) && LegibleGroups(hs, d)
    requires Text.Join(JoinEach(gs), "||") == Text.Join(JoinEach(hs), "||")
    ensures gs == hs
  {
    forall i | 0 <= i < |gs| ensures gs[i] != [] && "" !in gs[i] {
      assert LegibleGroup(gs[i], d);
    }
    forall i | 0 <= i < |hs| ensures hs[i] != [] && "" !in hs[i] {
      assert LegibleGroup(hs[i], d);
    }
    DoubleBarIsAnEmptyPart(gs);
    DoubleBarIsAnEmptyPart(hs);
    FlatPartsAreLegible(gs, d);
    FlatPartsAreLegible(hs, d);
    if gs != [] && hs != [] {
      PartsAreReadable(Text.Join(gs, [""]), Text.Join(hs, [""]), d);
      Text.JoinIsInjective(gs, hs, "");
    } else if gs != [] {
      JoinOfNonEmpty(Text.Join(gs, [""]));
      assert false;
    } else if hs != [] {
      JoinOfNonEmpty(Text.Join(hs, [""]));
      assert false;
    }
  }

  // ---- reading the items and the bounds ----

  lemma EventTypesAreReadable(xs: seq<string>, ys: seq<string>, d: Delimiters)
    requires Unambiguous(d) && PermittedTypes(xs, d) && PermittedTypes(ys, d)
    requires EventTypesParts(xs) == EventTypesParts(ys)
    ensures xs == ys
  {
    if xs != [] {
      assert forall i | 0 <= i < |xs| :: PermittedType(xs[i], d);
      assert forall i | 0 <= i < |ys| :: PermittedType(ys[i], d);
      SamePrefix(EVENT_TYPES, Text.Join(xs, ","), Text.Join(ys, ","));
      Text.JoinIsInjective(xs, ys, ',');
    }
  }

  lemma PredicatesAreReadable(ps: seq<FilterPredicate>, qs: seq<FilterPredicate>, d: Delimiters)
    requires Unambiguous(d) && PermittedPredicates(ps, d) && PermittedPredicates(qs, d)
    requires PredicatesParts(ps) == PredicatesParts(qs)
    ensures ps == qs
  {
    if ps != [] {
      SamePrefix(PREDICATES, JoinedPredicates(ps), JoinedPredicates(qs));
      assert forall i | 0 <= i < |ps| :: PermittedPredicate(ps[i], d);
      assert forall i | 0 <= i < |qs| :: PermittedPredicate(qs[i], d);
      if FromLeft(d) {
        ReadableFromTheLeft(ps, "", qs, "");
      } else {
        ReadableFromTheRight(ps, qs);
      }
    }
  }

  /** At most one element of a kind, then elements of other kinds: the list splits in one way only. */
  lemma KindSplits<T(!new)>(kind: T -> bool, a: seq<T>, rest: seq<T>, b: seq<T>, other: seq<T>)
    requires |a| <= 1 && |b| <= 1 && a + rest == b + other
    requires forall x | x in a || x in b :: kind(x)
    requires forall x | x in rest || x in other :: !kind(x)
    ensures a == b && rest == other
  {
    var whole := a + rest;
    assert a != [] ==> whole[0] == a[0] && a[0] in a;
    assert b != [] ==> whole[0] == b[0] && b[0] in b;
    assert a == [] && rest != [] ==> whole[0] == rest[0] && rest[0] in rest;
    assert b == [] && other != [] ==> whole[0] == other[0] && other[0] in other;
    assert |a| == |b|;
    assert a == whole[..|a|] && b == whole[..|b|];
    assert rest == whole[|a|..] && other == whole[|b|..];
  }

  lemma PartsBeginDifferently(item: FilterItem)
    ensures forall part | part in EventTypesParts(item.eventTypes) :: part != "" && part[0] == 'e'
    ensures forall part | part in PredicatesParts(item.predicates) :: part != "" && part[0] == 'p'
  {
  }

  lemma SameMiddle<T>(first: T, ta: seq<T>, pa: seq<T>, la: T, tb: seq<T>, pb: seq<T>, lb: T)
    requires [first] + ta + pa + [la] == [first] + tb + pb + [lb]
    ensures ta + pa == tb + pb && la == lb
  {
    var whole := [first] + ta + pa + [la];
    var n := |whole|;
    assert whole[n - 1] == la && ([first] + tb + pb + [lb])[n - 1] == lb;
    assert whole[1..n - 1] == ta + pa;
    assert ([first] + tb + pb + [lb])[1..n - 1] == tb + pb;
  }

  lemma LogicIsReadable(a: bool, b: bool)
    requires LogicPart(a) == LogicPart(b)
    ensures a == b
  {
    assert |LogicPart(true)| != |LogicPart(false)|;
  }

  lemma ItemIsReadable(a: FilterItem, b: FilterItem, i: nat, d: Delimiters)
    requires Unambiguous(d) && PermittedItem(a, d) && PermittedItem(b, d)
    requires ItemParts(a, i) == ItemParts(b, i)
    ensures a == b
  {
    var ta, pa := EventTypesParts(a.eventTypes), PredicatesParts(a.predicates);
    var tb, pb := EventTypesParts(b.eventTypes), PredicatesParts(b.predicates);
    SameMiddle("item:" + Text.Decimal(i), ta, pa, LogicPart(a.allPredicatesMustMatch),
               tb, pb, LogicPart(b.allPredicatesMustMatch));
    LogicIsReadable(a.allPredicatesMustMatch, b.allPredicatesMustMatch);
    PartsBeginDifferently(a);
    PartsBeginDifferently(b);
    KindSplits(part => part != "" && part[0] == 'e', ta, pa, tb, pb);
    EventTypesAreReadable(a.eventTypes, b.eventTypes, d);
    PredicatesAreReadable(a.predicates, b.predicates, d);
  }

  ghost predicate IsItemGroup(group: seq<string>) {
    group != [] && group[0] != "" && group[0][0] == 'i'
  }

  lemma ItemGroupsAreItemGroups(items: seq<FilterItem>)
    ensures forall i | 0 <= i < |items| :: IsItemGroup(ItemGroups(items)[i])
  {
    forall i | 0 <= i < |items| ensures IsItemGroup(ItemGroups(items)[i]) {
      assert ItemParts(items[i], i)[0] == "item:" + Text.Decimal(i);
    }
  }

  lemma BoundGroupsAreNotItemGroups(f: Filter, render: Time -> string)
    ensures forall i | 0 <= i < |BoundGroups(f, render)| :: !IsItemGroup(BoundGroups(f, render)[i])
  {
    assert !IsItemGroup(["occurred_from:" + render(f.occurredFrom)]);
    assert !IsItemGroup(["occurred_until:" + render(f.occurredUntil)]);
    assert !IsItemGroup(["sequence_higher_than:" + Text.Decimal(f.sequenceNumberHigherThan)]);
  }

  lemma TimeGroupsAreReadable(name: string, t: Time, u: Time, render: Time -> string)
    requires RendersTimes(render)
    requires TimeGroups(name, t, render) == TimeGroups(name, u, render)
    ensures t == u
  {
    if t != ZERO_TIME {
      SamePrefix(name, render(t), render(u));
    }
  }

  lemma SequenceGroupsAreReadable(m: nat, n: nat)
    requires SequenceGroups(m) == SequenceGroups(n)
    ensures m == n
  {
    if m != 0 {
      SamePrefix("sequence_higher_than:", Text.Decimal(m), Text.Decimal(n));
      Text.DecimalIsInjective(m, n);
    }
  }

  /** The tenth letter of a bound's first part tells the three kinds of bound apart. */
  predicate HasKind(group: seq<string>, letter: char) {
    group != [] && |group[0]| > 9 && group[0][9] == letter
  }

  /** At most one group, of the given kind. */
  ghost predicate KindIs(groups: seq<seq<string>>, letter: char) {
    |groups| <= 1 && forall group | group in groups :: HasKind(group, letter)
  }

  /** At most one group of each kind, the kinds in a fixed order: the list splits in one way only. */
  lemma KindsAreReadable(a: seq<seq<string>>, b: seq<seq<string>>, c: seq<seq<string>>,
                         x: seq<seq<string>>, y: seq<seq<string>>, z: seq<seq<string>>)
    requires KindIs(a, 'f') && KindIs(x, 'f')
    requires KindIs(b, 'u') && KindIs(y, 'u')
    requires KindIs(c, 'h') && KindIs(z, 'h')
    requires a + b + c == x + y + z
    ensures a == x && b == y && c == z
  {
    assert a + (b + c) == a + b + c && x + (y + z) == x + y + z;
    KindSplits(group => HasKind(group, 'f'), a, b + c, x, y + z);
    KindSplits(group => HasKind(group, 'u'), b, c, y, z);
  }

  lemma BoundsAreReadable(f: Filter, g: Filter, render: Time -> string)
    requires RendersTimes(render)
    requires BoundGroups(f, render) == BoundGroups(g, render)
    ensures f.occurredFrom == g.occurredFrom && f.occurredUntil == g.occurredUntil
    ensures f.sequenceNumberHigherThan == g.sequenceNumberHigherThan
  {
    KindsAreReadable(TimeGroups("occurred_from:", f.occurredFrom, render),
                     TimeGroups("occurred_until:", f.occurredUntil, render),
                     SequenceGroups(f.sequenceNumberHigherThan),
                     TimeGroups("occurred_from:", g.occurredFrom, render),
                     TimeGroups("occurred_until:", g.occurredUntil, render),
                     SequenceGroups(g.sequenceNumberHigherThan));
    TimeGroupsAreReadable("occurred_from:", f.occurredFrom, g.occurredFrom, render);
    TimeGroupsAreReadable("occurred_until:", f.occurredUntil, g.occurredUntil, render);
    SequenceGroupsAreReadable(f.sequenceNumberHigherThan, g.sequenceNumberHigherThan);
  }

  /** The items end where the first group that is not an item group begins. */
  lemma ItemsEndAtBounds(items: seq<FilterItem>, bounds: seq<seq<string>>, others: seq<FilterItem>,
                         more: seq<seq<string>>)
    requires ItemGroups(items) + bounds == ItemGroups(others) + more
    requires forall i | 0 <= i < |bounds| :: !IsItemGroup(bounds[i])
    ensures |items| >= |others|
  {
    ItemGroupsAreItemGroups(others);
    var whole := ItemGroups(items) + bounds;
    assert forall k | 0 <= k < |others| :: IsItemGroup(whole[k]);
    assert forall k | |items| <= k < |whole| :: whole[k] == bounds[k - |items|];
    assert |items| < |whole| ==> !IsItemGroup(whole[|items|]);
  }

  /** Serialize identifies filters with unambiguous delimiters: same string, same filter. */
  lemma SerializeIsInjective(f: Filter, g: Filter, d: Delimiters, render: Time -> string)
    requires RendersTimes(render) && Unambiguous(d) && Permitted(f, d) && Permitted(g, d)
    requires Serialized(f, render) == Serialized(g, render)
    ensures f == g
  {
    GroupsAreLegible(f, d, render);
    GroupsAreLegible(g, d, render);
    GroupsAreReadable(Groups(f, render), Groups(g, render), d);
    BoundGroupsAreNotItemGroups(f, render);
    BoundGroupsAreNotItemGroups(g, render);
    var fi, fb, gi, gb := ItemGroups(f.items), BoundGroups(f, render), ItemGroups(g.items), BoundGroups(g, render);
    ItemsEndAtBounds(f.items, fb, g.items, gb);
    ItemsEndAtBounds(g.items, gb, f.items, fb);
    assert fi == (fi + fb)[..|fi|] && gi == (gi + gb)[..|gi|];
    assert fb == (fi + fb)[|fi|..] && gb == (gi + gb)[|gi|..];
    forall i | 0 <= i < |f.items| ensures f.items[i] == g.items[i] {
      assert fi[i] == gi[i];
      ItemIsReadable(f.items[i], g.items[i], i, d);
    }
    BoundsAreReadable(f, g, render);
  }

  // ---- an example ----

  const EXAMPLE := Filter(
    [FilterItem(["A", "B"], [P("k", "v"), P("l", "w")], true), FilterItem([], [P("x", "y")], false)], 5, 7, 12)

  lemma ExampleFirstItem()
    ensures Text.Join(ItemParts(EXAMPLE.items[0], 0), "|")
            == "item:0" + "|" + ("event_types:A,B" + "|" + ("predicates:k=v,l=w" + "|" + "predicate_logic:AND"))
  {
    ExampleEventTypes();
    ExamplePredicates();
    assert "item:" + Text.Decimal(0) == "item:0";
    Text.JoinFour("item:0", "event_types:A,B", "predicates:k=v,l=w", "predicate_logic:AND", "|");
    assert ItemParts(EXAMPLE.items[0], 0)
           == ["item:0", "event_types:A,B", "predicates:k=v,l=w", "predicate_logic:AND"];
  }

  lemma ExampleEventTypes()
    ensures EventTypesParts(["A", "B"]) == ["event_types:A,B"]
  {
    Text.JoinTwo("A", "B", ",");
    assert "A" + "," + "B" == "A,B";
    assert EVENT_TYPES + "A,B" == "event_types:A,B";
  }

  lemma ExamplePredicates()
    ensures PredicatesParts([P("k", "v"), P("l", "w")]) == ["predicates:k=v,l=w"]
    ensures PredicatesParts([P("x", "y")]) == ["predicates:x=y"]
  {
    assert PredicateString(P("k", "v")) == "k=v" && PredicateString(P("l", "w")) == "l=w";
    assert PredicateStrings([P("k", "v"), P("l", "w")]) == ["k=v", "l=w"];
    Text.JoinTwo("k=v", "l=w", ",");
    assert "k=v" + "," + "l=w" == "k=v,l=w";
    assert PREDICATES + "k=v,l=w" == "predicates:k=v,l=w";
    assert PredicateString(P("x", "y")) == "x=y";
    assert PredicateStrings([P("x", "y")]) == ["x=y"];
    assert Text.Join(["x=y"], ",") == "x=y";
    assert PREDICATES + "x=y" == "predicates:x=y";
  }

  lemma ExampleSecondItem()
    ensures Text.Join(ItemParts(EXAMPLE.items[1], 1), "|")
            == "item:1" + "|" + ("predicates:x=y" + "|" + "predicate_logic:OR")
  {
    ExamplePredicates();
    assert "item:" + Text.Decimal(1) == "item:1";
    Text.JoinThree("item:1", "predicates:x=y", "predicate_logic:OR", "|");
    assert ItemParts(EXAMPLE.items[1], 1) == ["item:1", "predicates:x=y", "predicate_logic:OR"];
  }

  lemma ExampleBounds(render: Time -> string)
    ensures JoinEach(BoundGroups(EXAMPLE, render))
            == ["occurred_from:" + render(5), "occurred_until:" + render(7), "sequence_higher_than:12"]
  {
    assert Text.Decimal(12) == Text.Decimal(1) + "2";
    assert "sequence_higher_than:" + Text.Decimal(12) == "sequence_higher_than:12";
  }

  /** The format, on a filter with every kind of part. */
  lemma SerializedExample(render: Time -> string)
    ensures Serialized(EXAMPLE, render)
            == "item:0" + "|" + ("event_types:A,B" + "|" + ("predicates:k=v,l=w" + "|" + "predicate_logic:AND")) + "||"
               + ("item:1" + "|" + ("predicates:x=y" + "|" + "predicate_logic:OR") + "||"
                  + ("occurred_from:" + render(5) + "||"
                     + ("occurred_until:" + render(7) + "||" + "sequence_higher_than:12")))
  {
    ExampleFirstItem();
    ExampleSecondItem();
    ExampleBounds(render);
    var items, bounds := JoinEach(ItemGroups(EXAMPLE.items)), JoinEach(BoundGroups(EXAMPLE, render));
    assert JoinEach(Groups(EXAMPLE, render)) == items + bounds;
    assert items + bounds == [items[0]] + [items[1], bounds[0], bounds[1], bounds[2]];
    assert (items + bounds)[1..] == [items[1], bounds[0], bounds[1], bounds[2]];
    Text.JoinFour(items[1], bounds[0], bounds[1], bounds[2], "||");
  }

  // ---- Hash ----

  /** Hash, with digest standing for SHA-256 and its hexadecimal rendering. */
  function Hash(f: Filter, render: Time -> string, digest: string -> string): string {
    "sha256:" + digest(Serialized(f, render))
  }

  /** The hash names its algorithm; the rest is the digest of the serialization. */
  lemma HashNamesItsAlgorithm(f: Filter, render: Time -> string, digest: string -> string)
    ensures var h := Hash(f, render, digest);
            |h| >= 7 && h[..7] == "sha256:" && h[7..] == digest(Serialized(f, render))
  {
  }

  ghost predicate CollisionFree(digest: string -> string) {
    forall s, t :: digest(s) == digest(t) ==> s == t
  }

  /** Different filters with unambiguous delimiters have different hashes, so their snapshots never share a row. */
  lemma HashIsInjective(f: Filter, g: Filter, d: Delimiters, render: Time -> string, digest: string -> string)
    requires RendersTimes(render) && CollisionFree(digest) && Unambiguous(d) && Permitted(f, d) && Permitted(g, d)
    requires Hash(f, render, digest) == Hash(g, render, digest)
    ensures f == g
  {
    SamePrefix("sha256:", digest(Serialized(f, render)), digest(Serialized(g, render)));
    SerializeIsInjective(f, g, d, render);
  }
}
