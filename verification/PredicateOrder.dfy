/** When sanitizePredicates removes every duplicate, and when its result is canonical: it sorts by key only. */
module PredicateOrder {
  import opened Filters
  import opened Sanitizing
  import Text

  // ---- building possible sort results ----

  function InsertByKey(p: FilterPredicate, s: seq<FilterPredicate>): seq<FilterPredicate> {
    if s == [] || KEY_LEQ(p, s[0]) then [p] + s else [s[0]] + InsertByKey(p, s[1..])
  }

  lemma {:induction false} InsertByKeyIsSorted(p: FilterPredicate, s: seq<FilterPredicate>)
    requires Ascending(s, KEY_LEQ)
    ensures Ascending(InsertByKey(p, s), KEY_LEQ)
    ensures multiset(InsertByKey(p, s)) == multiset{p} + multiset(s)
  {
    if s == [] {
    } else if KEY_LEQ(p, s[0]) {
      forall k | 0 < k < |s| ensures KEY_LEQ(p, s[k]) {
        KeyLeqTransitive(p, s[0], s[k]);
      }
    } else {
      InsertByKeyIsSorted(p, s[1..]);
      assert s == [s[0]] + s[1..];
      KeyLeqTotal(p, s[0]);
      HeadStaysLeast(p, s);
    }
  }

  lemma HeadStaysLeast(p: FilterPredicate, s: seq<FilterPredicate>)
    requires s != [] && Ascending(s, KEY_LEQ) && KEY_LEQ(s[0], p)
    requires multiset(InsertByKey(p, s[1..])) == multiset{p} + multiset(s[1..])
    ensures forall k | 0 <= k < |InsertByKey(p, s[1..])| :: KEY_LEQ(s[0], InsertByKey(p, s[1..])[k])
  {
    var r := InsertByKey(p, s[1..]);
    forall k | 0 <= k < |r| ensures KEY_LEQ(s[0], r[k]) {
      assert r[k] in multiset(r);
      assert r[k] == p || r[k] in multiset(s[1..]);
      if r[k] != p {
        assert r[k] in s[1..];
      }
    }
  }

  lemma KeyLeqTotal(p: FilterPredicate, q: FilterPredicate)
    ensures KEY_LEQ(p, q) || KEY_LEQ(q, p)
  {
    KeyLeqIsTotalPreorder();
  }

  lemma KeyLeqTransitive(p: FilterPredicate, q: FilterPredicate, r: FilterPredicate)
    requires KEY_LEQ(p, q) && KEY_LEQ(q, r)
    ensures KEY_LEQ(p, r)
  {
    KeyLeqIsTotalPreorder();
  }

  lemma KeyLeqBothWays(p: FilterPredicate, q: FilterPredicate)
    requires KEY_LEQ(p, q) && KEY_LEQ(q, p)
    ensures p.key == q.key
  {
    Text.LessIsTotal(p.key, q.key);
  }

  function SortedByKey(s: seq<FilterPredicate>): seq<FilterPredicate> {
    if s == [] then [] else InsertByKey(s[0], SortedByKey(s[1..]))
  }

  lemma {:induction false} SortedByKeyIsSort(s: seq<FilterPredicate>)
    ensures SortOf(SortedByKey(s), s, KEY_LEQ)
  {
    if s != [] {
      SortedByKeyIsSort(s[1..]);
      InsertByKeyIsSorted(s[0], SortedByKey(s[1..]));
      assert s == [s[0]] + s[1..];
    }
  }

  // ---- the first predicate with a given key ----

  predicate IsFirst(p: FilterPredicate, s: seq<FilterPredicate>) {
    exists i | 0 <= i < |s| :: s[i] == p && forall j | 0 <= j < i :: s[j].key != p.key
  }

  lemma FirstIsUnique(p: FilterPredicate, q: FilterPredicate, s: seq<FilterPredicate>)
    requires IsFirst(p, s) && IsFirst(q, s) && p.key == q.key
    ensures p == q
  {
  }

  lemma {:induction false} InsertedIsFirst(p: FilterPredicate, s: seq<FilterPredicate>)
    requires Ascending(s, KEY_LEQ)
    ensures IsFirst(p, InsertByKey(p, s))
  {
    if s == [] || KEY_LEQ(p, s[0]) {
      assert InsertByKey(p, s)[0] == p;
    } else {
      InsertedIsFirst(p, s[1..]);
      var r := InsertByKey(p, s[1..]);
      var i :| 0 <= i < |r| && r[i] == p && forall j | 0 <= j < i :: r[j].key != p.key;
      SameKeyIsLeq(p, s[0]);
      assert InsertByKey(p, s)[i + 1] == p;
    }
  }

  lemma SameKeyIsLeq(p: FilterPredicate, q: FilterPredicate)
    ensures p.key == q.key ==> KEY_LEQ(p, q)
  {
    KeyLeqIsTotalPreorder();
    assert KEY_LEQ(p, p);
  }

  lemma {:induction false} CompactedKeepsFirst(p: FilterPredicate, s: seq<FilterPredicate>)
    requires IsFirst(p, s)
    ensures IsFirst(p, Compacted(s))
  {
    if |s| > 1 {
      var init, last := s[..|s| - 1], s[|s| - 1];
      var i :| 0 <= i < |s| && s[i] == p && forall j | 0 <= j < i :: s[j].key != p.key;
      if i < |init| {
        assert init[i] == p;
        CompactedKeepsFirst(p, init);
        var c := Compacted(init);
        var k :| 0 <= k < |c| && c[k] == p && forall j | 0 <= j < k :: c[j].key != p.key;
        assert Compacted(s)[k] == p;
      } else {
        var c := Compacted(init);
        forall j | 0 <= j < |c| ensures c[j].key != p.key {
          CompactedElements(init, c[j]);
          assert c[j] in init;
        }
        assert s[|s| - 2].key != p.key;
        assert Compacted(s)[|c|] == p;
      }
    }
  }

  lemma TakeOne(s: seq<FilterPredicate>, p: FilterPredicate) returns (rest: seq<FilterPredicate>)
    requires p in s
    ensures multiset(s) == multiset{p} + multiset(rest)
  {
    var i :| 0 <= i < |s| && s[i] == p;
    rest := s[..i] + s[i + 1..];
    assert s == s[..i] + [p] + s[i + 1..];
  }

  /** Every complete predicate can end up as the first of its key. */
  lemma AnyCanBeFirst(p: FilterPredicate, input: seq<FilterPredicate>) returns (r: seq<FilterPredicate>)
    requires p in Complete(input)
    ensures IsSanitizedPredicates(r, input) && IsFirst(p, r)
  {
    var others := TakeOne(Complete(input), p);
    SortedByKeyIsSort(others);
    var sorted := InsertByKey(p, SortedByKey(others));
    InsertByKeyIsSorted(p, SortedByKey(others));
    InsertedIsFirst(p, SortedByKey(others));
    CompactedKeepsFirst(p, sorted);
    r := Compacted(sorted);
    assert SortOf(sorted, Complete(input), KEY_LEQ);
  }

  // ---- canonical exactly when no key has two values ----

  ghost predicate OneValuePerKey(predicates: seq<FilterPredicate>) {
    forall p, q | p in predicates && q in predicates && p.key == q.key :: p == q
  }

  lemma SameHead(a: seq<FilterPredicate>, b: seq<FilterPredicate>)
    requires a != [] && b != [] && a[0] in b && b[0] in a
    requires Ascending(a, KEY_LEQ) && Ascending(b, KEY_LEQ) && OneValuePerKey(a)
    ensures a[0] == b[0]
  {
    var i :| 0 <= i < |b| && b[i] == a[0];
    var j :| 0 <= j < |a| && a[j] == b[0];
    SameKeyIsLeq(a[0], a[0]);
    SameKeyIsLeq(b[0], b[0]);
    assert KEY_LEQ(a[0], b[0]) && KEY_LEQ(b[0], a[0]);
    KeyLeqBothWays(a[0], b[0]);
    assert a[0] in a;
  }

  lemma {:induction false} AscendingByKeyIsUnique(a: seq<FilterPredicate>, b: seq<FilterPredicate>)
    requires Ascending(a, KEY_LEQ) && Ascending(b, KEY_LEQ)
    requires NoEqualNeighbours(a) && NoEqualNeighbours(b)
    requires forall p :: p in a <==> p in b
    requires OneValuePerKey(a)
    ensures a == b
  {
    assert a != [] ==> a[0] in b;
    assert b != [] ==> b[0] in a;
    if a != [] {
      SameHead(a, b);
      OneValuePerKeyBySet(a, b);
      FirstIsGone(a);
      FirstIsGone(b);
      SameTailElements(a, b);
      TailStaysOrdered(a);
      TailStaysOrdered(b);
      AscendingByKeyIsUnique(a[1..], b[1..]);
      assert a == [a[0]] + a[1..] && b == [b[0]] + b[1..];
    }
  }

  lemma OneValuePerKeyBySet(a: seq<FilterPredicate>, b: seq<FilterPredicate>)
    requires OneValuePerKey(a) && forall p :: p in a <==> p in b
    ensures OneValuePerKey(b)
  {
    forall p, q | p in b && q in b && p.key == q.key ensures p == q {
      assert p in a && q in a;
    }
  }

  lemma TailStaysOrdered(s: seq<FilterPredicate>)
    requires s != [] && Ascending(s, KEY_LEQ) && NoEqualNeighbours(s) && OneValuePerKey(s)
    ensures Ascending(s[1..], KEY_LEQ) && NoEqualNeighbours(s[1..]) && OneValuePerKey(s[1..])
  {
    assert forall p | p in s[1..] :: p in s;
  }

  lemma SameTailElements(a: seq<FilterPredicate>, b: seq<FilterPredicate>)
    requires a != [] && b != [] && a[0] == b[0] && a[0] !in a[1..] && b[0] !in b[1..]
    requires forall p :: p in a <==> p in b
    ensures forall p :: p in a[1..] <==> p in b[1..]
  {
    assert a == [a[0]] + a[1..] && b == [b[0]] + b[1..];
    forall p ensures p in a[1..] <==> p in b[1..] {
      assert p in a <==> p in b;
    }
  }

  lemma FirstIsGone(s: seq<FilterPredicate>)
    requires s != [] && Ascending(s, KEY_LEQ) && NoEqualNeighbours(s) && OneValuePerKey(s)
    ensures s[0] !in s[1..]
  {
    assert |s| > 1 ==> s[0] in s && s[1] in s;
    forall k | 0 < k < |s| ensures s[k] != s[0] {
      if s[k] == s[0] && k > 1 {
        assert KEY_LEQ(s[0], s[1]) && KEY_LEQ(s[1], s[k]);
        KeyLeqBothWays(s[0], s[1]);
      }
    }
  }

  /** With one value per key the result depends only on the set of complete predicates. */
  lemma OneValuePerKeyIsCanonical(r: seq<FilterPredicate>, input: seq<FilterPredicate>,
                                  r': seq<FilterPredicate>, input': seq<FilterPredicate>)
    requires IsSanitizedPredicates(r, input) && IsSanitizedPredicates(r', input')
    requires forall p :: p in Complete(input) <==> p in Complete(input')
    requires OneValuePerKey(Complete(input))
    ensures r == r'
  {
    SanitizedPredicatesAreWellFormed(r, input);
    SanitizedPredicatesAreWellFormed(r', input');
    forall p ensures p in r <==> p in Complete(input) {
      KeptElements(input, IS_COMPLETE, p);
    }
    forall p ensures p in r' <==> p in Complete(input) {
      assert p in Complete(input) <==> p in Complete(input');
      KeptElements(input', IS_COMPLETE, p);
    }
    AscendingByKeyIsUnique(r, r');
  }

  /** The result is determined by the arguments if and only if no key occurs with two values. */
  lemma DeterminedIffOneValuePerKey(input: seq<FilterPredicate>)
    ensures (forall r, r' | IsSanitizedPredicates(r, input) && IsSanitizedPredicates(r', input) :: r == r')
            <==> OneValuePerKey(Complete(input))
  {
    if OneValuePerKey(Complete(input)) {
      forall r, r' | IsSanitizedPredicates(r, input) && IsSanitizedPredicates(r', input) ensures r == r' {
        OneValuePerKeyIsCanonical(r, input, r', input);
      }
    } else {
      var p, q :| p in Complete(input) && q in Complete(input) && p.key == q.key && p != q;
      var r := AnyCanBeFirst(p, input);
      var r' := AnyCanBeFirst(q, input);
      if r == r' {
        FirstIsUnique(p, q, r);
      }
    }
  }

  // ---- duplicate-free exactly when no repeated predicate shares its key with another value ----

  ghost predicate Distinct<T>(s: seq<T>) {
    forall i, j | 0 <= i < j < |s| :: s[i] != s[j]
  }

  ghost predicate RepeatSplitByOtherValue(predicates: seq<FilterPredicate>) {
    exists p, q :: multiset(predicates)[p] >= 2 && q in predicates && p.key == q.key && p != q
  }

  lemma {:induction false} CompactedConcat<T>(a: seq<T>, b: seq<T>)
    requires a != [] && b != [] && a[|a| - 1] != b[0]
    ensures Compacted(a + b) == Compacted(a) + Compacted(b)
  {
    var s := a + b;
    if |b| == 1 {
      assert s[..|s| - 1] == a;
    } else {
      assert s[..|s| - 1] == a + b[..|b| - 1];
      CompactedConcat(a, b[..|b| - 1]);
    }
  }

  lemma CompactedGrowsByLast<T>(s: seq<T>)
    requires |s| > 1
    ensures var c := Compacted(s[..|s| - 1]); Compacted(s) == c || Compacted(s) == c + [s[|s| - 1]]
  {
  }

  lemma CountOfAppended<T>(s: seq<T>, last: T, x: T)
    ensures multiset(s + [last])[x] == multiset(s)[x] + if x == last then 1 else 0
  {
  }

  lemma {:induction false} CompactedCountsNoMore<T>(s: seq<T>, x: T)
    ensures multiset(Compacted(s))[x] <= multiset(s)[x]
  {
    if |s| > 1 {
      var init, last := s[..|s| - 1], s[|s| - 1];
      CompactedCountsNoMore(init, x);
      assert s == init + [last];
      CountOfAppended(init, last, x);
      CountOfAppended(Compacted(init), last, x);
      CompactedGrowsByLast(s);
    }
  }

  /** Inserting p, then q with the same key, then p again leaves q between two p's. */
  lemma {:induction false} InsertedTogether(p: FilterPredicate, q: FilterPredicate, s: seq<FilterPredicate>)
      returns (pre: seq<FilterPredicate>, post: seq<FilterPredicate>)
    requires p.key == q.key
    ensures InsertByKey(p, InsertByKey(q, InsertByKey(p, s))) == pre + [p] + ([q, p] + post)
  {
    SameKeyIsLeq(p, q);
    SameKeyIsLeq(q, p);
    if s == [] || KEY_LEQ(p, s[0]) {
      pre, post := [], s;
      assert ([q] + ([p] + s)) == [q, p] + s;
    } else {
      var pre', post' := InsertedTogether(p, q, s[1..]);
      pre, post := [s[0]] + pre', post';
      assert InsertByKey(p, s)[1..] == InsertByKey(p, s[1..]);
      assert InsertByKey(q, InsertByKey(p, s)) == [s[0]] + InsertByKey(q, InsertByKey(p, s[1..]));
      assert InsertByKey(q, InsertByKey(p, s))[1..] == InsertByKey(q, InsertByKey(p, s[1..]));
    }
  }

  lemma TwiceInConcat<T>(a: seq<T>, b: seq<T>, x: T)
    requires x in a && x in b
    ensures !Distinct(a + b)
  {
    var i :| 0 <= i < |a| && a[i] == x;
    var j :| 0 <= j < |b| && b[j] == x;
    assert (a + b)[i] == (a + b)[|a| + j];
  }

  /** A sort result in which q stands between two p's. */
  lemma SplitRepeatSorted(s: seq<FilterPredicate>, p: FilterPredicate, q: FilterPredicate)
      returns (pre: seq<FilterPredicate>, post: seq<FilterPredicate>)
    requires multiset(s)[p] >= 2 && q in s && p.key == q.key && p != q
    ensures SortOf(pre + [p] + ([q, p] + post), s, KEY_LEQ)
  {
    var one := TakeOne(s, p);
    assert p in multiset(one) && q in multiset(s);
    assert q in multiset(one);
    var two := TakeOne(one, p);
    assert q in multiset(two);
    var rest := TakeOne(two, q);
    SortedByKeyIsSort(rest);
    var r0 := SortedByKey(rest);
    InsertByKeyIsSorted(p, r0);
    InsertByKeyIsSorted(q, InsertByKey(p, r0));
    InsertByKeyIsSorted(p, InsertByKey(q, InsertByKey(p, r0)));
    pre, post := InsertedTogether(p, q, r0);
  }

  lemma CompactedKeepsSplitRepeat(pre: seq<FilterPredicate>, p: FilterPredicate, q: FilterPredicate,
                                  post: seq<FilterPredicate>)
    requires p != q
    ensures !Distinct(Compacted(pre + [p] + ([q, p] + post)))
  {
    var a, b := pre + [p], [q, p] + post;
    assert a[|a| - 1] == p && b[0] == q && b[1] == p;
    CompactedConcat(a, b);
    CompactedElements(a, p);
    CompactedElements(b, p);
    TwiceInConcat(Compacted(a), Compacted(b), p);
  }

  lemma SplitRepeatSurvives(input: seq<FilterPredicate>, p: FilterPredicate, q: FilterPredicate)
      returns (r: seq<FilterPredicate>)
    requires multiset(Complete(input))[p] >= 2 && q in Complete(input) && p.key == q.key && p != q
    ensures IsSanitizedPredicates(r, input) && !Distinct(r)
  {
    var pre, post := SplitRepeatSorted(Complete(input), p, q);
    CompactedKeepsSplitRepeat(pre, p, q, post);
    r := Compacted(pre + [p] + ([q, p] + post));
  }

  lemma CountOfTwo<T>(s: seq<T>, i: nat, j: nat)
    requires i < j < |s| && s[i] == s[j]
    ensures multiset(s)[s[i]] >= 2
  {
    assert s == s[..i] + [s[i]] + s[i + 1..j] + [s[j]] + s[j + 1..];
  }

  lemma RepeatInResult(r: seq<FilterPredicate>, input: seq<FilterPredicate>, i: nat, j: nat)
    requires IsSanitizedPredicates(r, input) && i < j < |r| && r[i] == r[j]
    ensures RepeatSplitByOtherValue(Complete(input))
  {
    SanitizedPredicatesAreWellFormed(r, input);
    var q := r[i + 1];
    assert NoEqualNeighbours(r) && r[i] != q;
    assert KEY_LEQ(r[i], q) && KEY_LEQ(q, r[j]);
    KeyLeqBothWays(r[i], q);
    CountOfTwo(r, i, j);
    var sorted :| SortOf(sorted, Complete(input), KEY_LEQ) && r == Compacted(sorted);
    CompactedCountsNoMore(sorted, r[i]);
    assert q in r;
    CompactedElements(sorted, q);
    SortOfElements(sorted, Complete(input), KEY_LEQ);
    assert multiset(r)[r[i]] <= multiset(sorted)[r[i]] == multiset(Complete(input))[r[i]];
  }

  /**
    Every possible result is duplicate-free if and only if no predicate that is given twice
    shares its key with a predicate of another value. The documentation promises "removing duplicates".
   */
  lemma DuplicateFreeIffNoSplitRepeat(input: seq<FilterPredicate>)
    ensures (forall r | IsSanitizedPredicates(r, input) :: Distinct(r)) <==> !RepeatSplitByOtherValue(Complete(input))
  {
    if RepeatSplitByOtherValue(Complete(input)) {
      var p, q :| multiset(Complete(input))[p] >= 2 && q in Complete(input) && p.key == q.key && p != q;
      var r := SplitRepeatSurvives(input, p, q);
    } else {
      forall r | IsSanitizedPredicates(r, input) ensures Distinct(r) {
        forall i, j | 0 <= i < j < |r| ensures r[i] != r[j] {
          if r[i] == r[j] {
            RepeatInResult(r, input, i, j);
          }
        }
      }
    }
  }

  lemma {:induction false} CompleteListIsKept(ps: seq<FilterPredicate>)
    requires forall i | 0 <= i < |ps| :: ps[i].key != "" && ps[i].val != ""
    ensures Complete(ps) == ps
  {
    if ps != [] {
      CompleteListIsKept(ps[..|ps| - 1]);
    }
  }

  lemma SameKeyIsAscending(ps: seq<FilterPredicate>)
    requires forall i, j | 0 <= i < j < |ps| :: ps[i].key == ps[j].key
    ensures Ascending(ps, KEY_LEQ)
  {
    forall i, j | 0 <= i < j < |ps| ensures KEY_LEQ(ps[i], ps[j]) {
      SameKeyIsLeq(ps[i], ps[j]);
    }
  }

  lemma SortedInputIsAResult(ps: seq<FilterPredicate>)
    requires Complete(ps) == ps && Ascending(ps, KEY_LEQ) && NoEqualNeighbours(ps)
    ensures IsSanitizedPredicates(ps, ps)
  {
    CompactedFixpoint(ps);
    assert SortOf(ps, Complete(ps), KEY_LEQ);
  }

  /** The shortest surviving duplicate: k=v, k=w, k=v is already sorted by key. */
  lemma DuplicateCanSurvive(k: string, v: string, w: string)
    requires k != "" && v != "" && w != "" && v != w
    ensures var ps := [P(k, v), P(k, w), P(k, v)]; IsSanitizedPredicates(ps, ps) && !Distinct(ps)
  {
    var ps := [P(k, v), P(k, w), P(k, v)];
    CompleteListIsKept(ps);
    SameKeyIsAscending(ps);
    SortedInputIsAResult(ps);
    assert ps[0] == ps[2];
  }
}
