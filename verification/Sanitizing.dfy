/** The filter builder's sanitizers: delete, sort and compact a private copy of the arguments in place. */
module Sanitizing {
  import opened Filters
  import Text

  // ---- the three slice operations ----

  /** The elements that slices.DeleteFunc keeps. */
  function Kept<T>(s: seq<T>, keep: T -> bool): seq<T> {
    if s == [] then []
    else Kept(s[..|s| - 1], keep) + if keep(s[|s| - 1]) then [s[|s| - 1]] else []
  }

  lemma {:induction false} KeptElements<T>(s: seq<T>, keep: T -> bool, x: T)
    ensures x in Kept(s, keep) <==> x in s && keep(x)
  {
    if s != [] {
      KeptElements(s[..|s| - 1], keep, x);
      assert s == s[..|s| - 1] + [s[|s| - 1]];
    }
  }

  /** What slices.Compact leaves: every element that differs from the one before it. */
  function Compacted<T(==)>(s: seq<T>): seq<T> {
    if |s| <= 1 then s
    else Compacted(s[..|s| - 1]) + if s[|s| - 1] == s[|s| - 2] then [] else [s[|s| - 1]]
  }

  ghost predicate NoEqualNeighbours<T>(s: seq<T>) {
    forall i | 0 < i < |s| :: s[i - 1] != s[i]
  }

  lemma {:induction false} CompactedKeepsEnds<T>(s: seq<T>)
    ensures s != [] ==> Compacted(s) != [] && Compacted(s)[0] == s[0]
                        && Compacted(s)[|Compacted(s)| - 1] == s[|s| - 1]
    ensures NoEqualNeighbours(Compacted(s))
  {
    if |s| > 1 {
      CompactedKeepsEnds(s[..|s| - 1]);
    }
  }

  lemma {:induction false} CompactedElements<T>(s: seq<T>, x: T)
    ensures x in Compacted(s) <==> x in s
  {
    if |s| > 1 {
      CompactedElements(s[..|s| - 1], x);
      assert s == s[..|s| - 1] + [s[|s| - 1]];
    }
  }

  /** No equal neighbours: nothing to compact. */
  lemma {:induction false} CompactedFixpoint<T>(s: seq<T>)
    requires NoEqualNeighbours(s)
    ensures Compacted(s) == s
  {
    if |s| > 1 {
      CompactedFixpoint(s[..|s| - 1]);
    }
  }

  ghost predicate TotalPreorder<T(!new)>(leq: (T, T) -> bool) {
    && (forall x, y :: leq(x, y) || leq(y, x))
    && (forall x, y, z :: leq(x, y) && leq(y, z) ==> leq(x, z))
  }

  ghost predicate Ascending<T>(s: seq<T>, leq: (T, T) -> bool) {
    forall i, j | 0 <= i < j < |s| :: leq(s[i], s[j])
  }

  /** All that slices.Sort and slices.SortFunc promise (the latter is not stable). */
  ghost predicate SortOf<T>(sorted: seq<T>, s: seq<T>, leq: (T, T) -> bool) {
    Ascending(sorted, leq) && multiset(sorted) == multiset(s)
  }

  lemma SortOfElements<T>(sorted: seq<T>, s: seq<T>, leq: (T, T) -> bool)
    requires SortOf(sorted, s, leq)
    ensures forall x :: x in sorted <==> x in s
  {
    forall x ensures x in sorted <==> x in s {
      assert x in sorted <==> x in multiset(sorted);
      assert x in s <==> x in multiset(s);
    }
  }

  lemma {:induction false} CompactedStaysAscending<T>(s: seq<T>, leq: (T, T) -> bool)
    requires Ascending(s, leq)
    ensures Ascending(Compacted(s), leq)
  {
    if |s| > 1 {
      var init := s[..|s| - 1];
      CompactedStaysAscending(init, leq);
      var c := Compacted(init);
      forall k | 0 <= k < |c| ensures leq(c[k], s[|s| - 1]) {
        CompactedElements(init, c[k]);
        var i :| 0 <= i < |init| && init[i] == c[k];
        assert init[i] == s[i];
      }
    }
  }

  /** slices.DeleteFunc: moves the kept elements to the front and returns how many there are. */
  method DeleteFunc<T>(a: array<T>, keep: T -> bool) returns (n: nat)
    modifies a
    ensures n <= a.Length && a[..n] == Kept(old(a[..]), keep)
  {
    n := 0;
    for i := 0 to a.Length
      invariant n <= i
      invariant a[..n] == Kept(old(a[..])[..i], keep)
      invariant forall k | i <= k < a.Length :: a[k] == old(a[k])
    {
      assert old(a[..])[..i + 1][..i] == old(a[..])[..i];
      if keep(a[i]) {
        ghost var front := a[..n];
        a[n] := a[i];
        n := n + 1;
        assert a[..n] == front + [old(a[..])[i]];
      }
    }
    assert old(a[..])[..a.Length] == old(a[..]);
  }

  /** slices.Compact on the first n elements. */
  method Compact<T(==)>(a: array<T>, n: nat) returns (m: nat)
    requires n <= a.Length
    modifies a
    ensures m <= n && a[..m] == Compacted(old(a[..n]))
  {
    if n <= 1 {
      return n;
    }
    m := 1;
    ghost var s := a[..n];
    for i := 1 to n
      invariant 1 <= m <= i
      invariant a[..m] == Compacted(s[..i])
      invariant forall k | i <= k < n :: a[k] == s[k]
    {
      CompactedStep(s, i);
      assert a[m - 1] == a[..m][m - 1];
      if a[i] != a[m - 1] {
        ghost var front := a[..m];
        a[m] := a[i];
        m := m + 1;
        assert a[..m] == front + [s[i]];
      }
    }
    assert s[..n] == s;
  }

  lemma CompactedStep<T>(s: seq<T>, i: nat)
    requires 0 < i < |s|
    ensures var c := Compacted(s[..i]);
            c != [] && Compacted(s[..i + 1]) == if s[i] == c[|c| - 1] then c else c + [s[i]]
  {
    assert s[..i + 1][..i] == s[..i];
    CompactedKeepsEnds(s[..i]);
  }

  /** An in-place sort of the first n elements. */
  method Sort<T(!new)>(a: array<T>, n: nat, leq: (T, T) -> bool)
    requires n <= a.Length && TotalPreorder(leq)
    modifies a
    ensures SortOf(a[..n], old(a[..n]), leq)
  {
    for i := 0 to n
      invariant multiset(a[..n]) == multiset(old(a[..n]))
      invariant Ascending(a[..i], leq)
    {
      assert a[..n][..i] == a[..i];
      SortOneMore(a, n, i, leq);
    }
  }

  /** Puts element i in its place among the ascending ones before it. */
  method SortOneMore<T(!new)>(a: array<T>, n: nat, i: nat, leq: (T, T) -> bool)
    requires i < n <= a.Length && TotalPreorder(leq) && Ascending(a[..n][..i], leq)
    modifies a
    ensures multiset(a[..n]) == multiset(old(a[..n])) && Ascending(a[..i + 1], leq)
  {
    ghost var s := a[..n];
    ghost var j := SinkLast(a, n, i, leq);
    MovedIsPermutation(s, i, j);
    MovedIsAscending(s, i, j, leq);
    assert a[..i + 1] == a[..n][..i + 1];
  }

  /** The list with element i taken out and put back at position j. */
  function Moved<T>(s: seq<T>, i: nat, j: nat): (r: seq<T>)
    requires j <= i < |s|
    ensures |r| == |s|
  {
    s[..j] + [s[i]] + s[j..i] + s[i + 1..]
  }

  lemma MovedIsPermutation<T>(s: seq<T>, i: nat, j: nat)
    requires j <= i < |s|
    ensures multiset(Moved(s, i, j)) == multiset(s)
  {
    assert s == s[..j] + s[j..i] + [s[i]] + s[i + 1..];
  }

  lemma MovedOneFurther<T>(s: seq<T>, i: nat, j: nat)
    requires 0 < j <= i < |s|
    ensures var m := Moved(s, i, j); m[j] == s[i] && m[j - 1] == s[j - 1]
                                     && Moved(s, i, j - 1) == m[j - 1 := s[i]][j := s[j - 1]]
  {
  }

  lemma MovedIsAscending<T(!new)>(s: seq<T>, i: nat, j: nat, leq: (T, T) -> bool)
    requires j <= i < |s| && TotalPreorder(leq) && Ascending(s[..i], leq)
    requires j > 0 ==> leq(s[j - 1], s[i])
    requires forall q | j <= q < i :: !leq(s[q], s[i])
    ensures Ascending(Moved(s, i, j)[..i + 1], leq)
  {
    var m := Moved(s, i, j);
    assert forall p, q | 0 <= p < q < i :: leq(s[..i][p], s[..i][q]);
    assert forall p | 0 <= p < j :: leq(s[p], s[i]) by {
      assert forall p | 0 <= p < j - 1 :: leq(s[..i][p], s[..i][j - 1]);
    }
    assert forall p | 0 <= p < j :: m[p] == s[p];
    assert m[j] == s[i];
    assert forall p | j < p <= i :: m[p] == s[p - 1];
  }

  /** Swaps element i down past the elements it is not to follow. */
  method SinkLast<T(!new)>(a: array<T>, n: nat, i: nat, leq: (T, T) -> bool) returns (ghost j: nat)
    requires i < n <= a.Length
    modifies a
    ensures j <= i && a[..n] == Moved(old(a[..n]), i, j)
    ensures j > 0 ==> leq(old(a[j - 1]), old(a[i]))
    ensures forall q | j <= q < i :: !leq(old(a[q]), old(a[i]))
  {
    ghost var s := a[..n];
    var k := i;
    while k > 0 && !leq(a[k - 1], a[k])
      invariant 0 <= k <= i
      invariant a[..n] == Moved(s, i, k)
      invariant forall q | k <= q < i :: !leq(s[q], s[i])
    {
      MovedOneFurther(s, i, k);
      assert a[k - 1] == a[..n][k - 1] && a[k] == a[..n][k];
      Swap(a, n, k);
      k := k - 1;
    }
    assert a[k] == a[..n][k] == s[i];
    assert k > 0 ==> a[k - 1] == a[..n][k - 1] == s[k - 1];
    j := k;
  }

  method Swap<T>(a: array<T>, n: nat, j: nat)
    requires 0 < j < n <= a.Length
    modifies a
    ensures a[..n] == old(a[..n])[j - 1 := old(a[j])][j := old(a[j - 1])]
  {
    a[j - 1], a[j] := a[j], a[j - 1];
  }

  // ---- sanitizeEventTypes ----

  const IS_NAMED: string -> bool := (e: string) => e != ""
  const STRING_LEQ: (string, string) -> bool := (x: string, y: string) => !Text.Less(y, x)

  lemma StringLeqIsTotalPreorder()
    ensures TotalPreorder(STRING_LEQ)
  {
    forall x, y ensures STRING_LEQ(x, y) || STRING_LEQ(y, x) {
      if Text.Less(y, x) {
        Text.LessIsAsymmetric(y, x);
      }
    }
    forall x, y, z | STRING_LEQ(x, y) && STRING_LEQ(y, z) ensures STRING_LEQ(x, z) {
      Text.LessIsTotal(x, y);
      Text.LessIsTotal(y, z);
      if Text.Less(z, x) {
        if x == y {
        } else if y == z {
        } else {
          Text.LessIsTransitive(x, y, z);
          Text.LessIsAsymmetric(x, z);
        }
      }
    }
  }

  ghost predicate StrictlyAscending(s: seq<string>) {
    forall i, j | 0 <= i < j < |s| :: Text.Less(s[i], s[j])
  }

  /** The sanitized form of a list of event types: its non-empty members, strictly ascending. */
  ghost predicate IsSanitizedTypes(r: seq<string>, input: seq<string>) {
    StrictlyAscending(r) && forall x :: x in r <==> x in input && x != ""
  }

  lemma AscendingWithoutEqualNeighbours(s: seq<string>)
    requires Ascending(s, STRING_LEQ) && NoEqualNeighbours(s)
    ensures StrictlyAscending(s)
  {
    forall i, j | 0 <= i < j < |s| ensures Text.Less(s[i], s[j]) {
      assert STRING_LEQ(s[i], s[i + 1]) && s[i] != s[i + 1];
      Text.LessIsTotal(s[i], s[i + 1]);
      if i + 1 < j {
        assert STRING_LEQ(s[i + 1], s[j]);
        Text.LessIsTotal(s[i + 1], s[j]);
        if s[i + 1] != s[j] {
          Text.LessIsTransitive(s[i], s[i + 1], s[j]);
        }
      }
    }
  }

  lemma CompactedSortIsSanitized(sorted: seq<string>, input: seq<string>)
    requires SortOf(sorted, Kept(input, IS_NAMED), STRING_LEQ)
    ensures IsSanitizedTypes(Compacted(sorted), input)
  {
    CompactedStaysAscending(sorted, STRING_LEQ);
    CompactedKeepsEnds(sorted);
    AscendingWithoutEqualNeighbours(Compacted(sorted));
    SortOfElements(sorted, Kept(input, IS_NAMED), STRING_LEQ);
    forall x ensures x in Compacted(sorted) <==> x in input && x != "" {
      CompactedElements(sorted, x);
      KeptElements(input, IS_NAMED, x);
      assert x in sorted <==> x in Kept(input, IS_NAMED);
    }
  }

  method SortStrings(a: array<string>, n: nat)
    requires n <= a.Length
    modifies a
    ensures SortOf(a[..n], old(a[..n]), STRING_LEQ)
  {
    StringLeqIsTotalPreorder();
    Sort(a, n, STRING_LEQ);
  }

  /** append([]T{first}, rest...): a fresh slice, the caller's is only read. */
  method Prepend<T>(first: T, rest: array<T>) returns (all: array<T>)
    ensures fresh(all) && all[..] == [first] + rest[..]
  {
    all := new T[1 + rest.Length](i requires 0 <= i < 1 + rest.Length reads rest =>
                                    if i == 0 then first else rest[i - 1]);
  }

  /** slices.Clip of the first m elements. */
  method Clip<T>(a: array<T>, m: nat) returns (clipped: array<T>)
    requires m <= a.Length
    ensures fresh(clipped) && clipped[..] == a[..m]
  {
    clipped := new T[m](i requires 0 <= i < m <= a.Length reads a => a[i]);
  }

  /** The arguments are copied into a fresh slice; only that copy is rearranged. */
  method SanitizeEventTypes(eventType: string, eventTypes: array<string>) returns (sanitized: array<string>)
    ensures fresh(sanitized)
    ensures sanitized[..] == SanitizedTypes([eventType] + eventTypes[..])
    ensures IsSanitizedTypes(sanitized[..], [eventType] + eventTypes[..])
  {
    var all := Prepend(eventType, eventTypes);
    var n := DeleteFunc(all, IS_NAMED);
    SortStrings(all, n);
    CompactedSortIsSanitized(all[..n], [eventType] + eventTypes[..]);
    var m := Compact(all, n);
    sanitized := Clip(all, m);
    SanitizedListIsTheOne(sanitized[..], [eventType] + eventTypes[..]);
  }

  lemma SanitizedListIsTheOne(r: seq<string>, input: seq<string>)
    requires IsSanitizedTypes(r, input)
    ensures r == SanitizedTypes(input)
  {
    var s := SanitizedTypes(input);
    forall x ensures x in r <==> x in s {
      assert x in r <==> x in input && x != "";
    }
    SanitizedTypesAreUnique(r, s);
  }

  lemma {:induction false} SanitizedTypesAreUnique(a: seq<string>, b: seq<string>)
    requires StrictlyAscending(a) && StrictlyAscending(b)
    requires forall x :: x in a <==> x in b
    ensures a == b
  {
    assert a != [] ==> a[0] in b;
    assert b != [] ==> b[0] in a;
    if a != [] {
      var i :| 0 <= i < |b| && b[i] == a[0];
      var j :| 0 <= j < |a| && a[j] == b[0];
      if i > 0 && j > 0 {
        Text.LessIsAsymmetric(b[0], b[i]);
        assert false;
      }
      var a', b' := a[1..], b[1..];
      assert a == [a[0]] + a' && b == [b[0]] + b';
      forall x ensures x in a' <==> x in b' {
        assert x in a <==> x in b;
        if x == a[0] {
          NotInTail(a);
          NotInTail(b);
        }
      }
      SanitizedTypesAreUnique(a', b');
    }
  }

  lemma NotInTail(s: seq<string>)
    requires s != [] && StrictlyAscending(s)
    ensures s[0] !in s[1..]
  {
    forall k | 0 < k < |s| ensures s[k] != s[0] {
      Text.LessIsAsymmetric(s[0], s[k]);
    }
  }

  function InsertType(x: string, s: seq<string>): seq<string> {
    if s == [] || Text.Less(x, s[0]) then [x] + s
    else if x == s[0] then s
    else [s[0]] + InsertType(x, s[1..])
  }

  lemma {:induction false} InsertTypeElements(x: string, s: seq<string>, y: string)
    ensures y in InsertType(x, s) <==> y == x || y in s
  {
    if s != [] && !Text.Less(x, s[0]) && x != s[0] {
      InsertTypeElements(x, s[1..], y);
      assert s == [s[0]] + s[1..];
    }
  }

  lemma {:induction false} InsertTypeStaysAscending(x: string, s: seq<string>)
    requires StrictlyAscending(s)
    ensures StrictlyAscending(InsertType(x, s))
  {
    if s == [] {
    } else if Text.Less(x, s[0]) {
      forall k | 0 < k < |s| ensures Text.Less(x, s[k]) {
        Text.LessIsTransitive(x, s[0], s[k]);
      }
    } else if x != s[0] {
      Text.LessIsTotal(x, s[0]);
      InsertTypeStaysAscending(x, s[1..]);
      var r := InsertType(x, s[1..]);
      forall k | 0 <= k < |r| ensures Text.Less(s[0], r[k]) {
        InsertTypeElements(x, s[1..], r[k]);
      }
    }
  }

  /** What sanitizeEventTypes computes, as a function of the arguments alone. */
  function SanitizedTypes(input: seq<string>): (r: seq<string>)
    ensures IsSanitizedTypes(r, input)
  {
    if input == [] then []
    else
      var last, rest := input[|input| - 1], SanitizedTypes(input[..|input| - 1]);
      SanitizedTypesStep(input, rest);
      if last == "" then rest else InsertType(last, rest)
  }

  lemma SanitizedTypesStep(input: seq<string>, rest: seq<string>)
    requires input != [] && IsSanitizedTypes(rest, input[..|input| - 1])
    ensures var last := input[|input| - 1];
            IsSanitizedTypes(if last == "" then rest else InsertType(last, rest), input)
  {
    var last := input[|input| - 1];
    assert input == input[..|input| - 1] + [last];
    InsertTypeStaysAscending(last, rest);
    forall x ensures x in InsertType(last, rest) <==> x == last || x in rest {
      InsertTypeElements(last, rest, x);
    }
  }

  /** Only the set of arguments matters: neither their order nor repetitions nor empty ones. */
  lemma SanitizingTypesIsCanonical(xs: seq<string>, ys: seq<string>)
    requires forall x | x != "" :: x in xs <==> x in ys
    ensures SanitizedTypes(xs) == SanitizedTypes(ys)
  {
    var a, b := SanitizedTypes(xs), SanitizedTypes(ys);
    forall x ensures x in a <==> x in b {
      assert x in a <==> x in xs && x != "";
    }
    SanitizedTypesAreUnique(a, b);
  }

  lemma SanitizingTypesIsIdempotent(xs: seq<string>)
    ensures SanitizedTypes(SanitizedTypes(xs)) == SanitizedTypes(xs)
  {
    var once := SanitizedTypes(xs);
    forall x | x != "" ensures x in once <==> x in xs {
      assert x in once <==> x in xs && x != "";
    }
    SanitizingTypesIsCanonical(once, xs);
  }

  // ---- sanitizePredicates ----

  const IS_COMPLETE: FilterPredicate -> bool := (p: FilterPredicate) => p.key != "" && p.val != ""
  const KEY_LEQ: (FilterPredicate, FilterPredicate) -> bool := (p: FilterPredicate, q: FilterPredicate) =>
      !Text.Less(q.key, p.key)

  lemma KeyLeqIsTotalPreorder()
    ensures TotalPreorder(KEY_LEQ)
  {
    StringLeqIsTotalPreorder();
    forall p, q ensures KEY_LEQ(p, q) || KEY_LEQ(q, p) {
      assert STRING_LEQ(p.key, q.key) || STRING_LEQ(q.key, p.key);
    }
    forall p, q, r | KEY_LEQ(p, q) && KEY_LEQ(q, r) ensures KEY_LEQ(p, r) {
      assert STRING_LEQ(p.key, q.key) && STRING_LEQ(q.key, r.key);
    }
  }

  /** The predicates with both a key and a value. */
  function Complete(predicates: seq<FilterPredicate>): seq<FilterPredicate> {
    Kept(predicates, IS_COMPLETE)
  }

  /** A possible result of sanitizePredicates: the sort is by key only and need not be stable. */
  ghost predicate IsSanitizedPredicates(r: seq<FilterPredicate>, input: seq<FilterPredicate>) {
    exists sorted :: SortOf(sorted, Complete(input), KEY_LEQ) && r == Compacted(sorted)
  }

  method SortByKey(a: array<FilterPredicate>, n: nat)
    requires n <= a.Length
    modifies a
    ensures SortOf(a[..n], old(a[..n]), KEY_LEQ)
  {
    KeyLeqIsTotalPreorder();
    Sort(a, n, KEY_LEQ);
  }

  method SanitizePredicates(first: FilterPredicate, predicates: array<FilterPredicate>)
      returns (sanitized: array<FilterPredicate>)
    ensures fresh(sanitized)
    ensures IsSanitizedPredicates(sanitized[..], [first] + predicates[..])
  {
    var all := Prepend(first, predicates);
    var n := DeleteFunc(all, IS_COMPLETE);
    SortByKey(all, n);
    ghost var sorted := all[..n];
    var m := Compact(all, n);
    sanitized := Clip(all, m);
    assert SortOf(sorted, Complete([first] + predicates[..]), KEY_LEQ);
  }

  /** Sorted by key, no equal neighbours, and exactly the complete predicates of the input. */
  lemma SanitizedPredicatesAreWellFormed(r: seq<FilterPredicate>, input: seq<FilterPredicate>)
    requires IsSanitizedPredicates(r, input)
    ensures Ascending(r, KEY_LEQ) && NoEqualNeighbours(r)
    ensures forall p :: p in r <==> p in input && p.key != "" && p.val != ""
  {
    var sorted :| SortOf(sorted, Complete(input), KEY_LEQ) && r == Compacted(sorted);
    CompactedStaysAscending(sorted, KEY_LEQ);
    CompactedKeepsEnds(sorted);
    SortOfElements(sorted, Complete(input), KEY_LEQ);
    forall p ensures p in r <==> p in input && p.key != "" && p.val != "" {
      CompactedElements(sorted, p);
      KeptElements(input, IS_COMPLETE, p);
      assert p in sorted <==> p in Complete(input);
    }
  }

  /** Sanitizing does not change which events the complete predicates accept, under AND or OR. */
  lemma SanitizingKeepsMatching(r: seq<FilterPredicate>, input: seq<FilterPredicate>, all: bool, e: Event)
    requires IsSanitizedPredicates(r, input)
    ensures PredicatesHold(r, all, e) == PredicatesHold(Complete(input), all, e)
  {
    SanitizedPredicatesAreWellFormed(r, input);
    forall p ensures p in r <==> p in Complete(input) {
      KeptElements(input, IS_COMPLETE, p);
      assert p in r <==> p in input && p.key != "" && p.val != "";
    }
  }
}
