/** Strings as Go's standard library treats them: byte-wise order, decimal rendering, joining. */
module Text {

  /** Go's `<` on strings: lexicographic, a proper prefix comes first. */
  predicate Less(a: string, b: string) {
    if b == [] then false
    else if a == [] then true
    else a[0] < b[0] || (a[0] == b[0] && Less(a[1..], b[1..]))
  }

  /**
    Less without recursion: there is a common prefix after which a ends and b goes on, or after which a's next
    character is the smaller one.
   */
  lemma {:induction false} LessIffSmallerAtFirstDifference(a: string, b: string)
    ensures Less(a, b)
            <==> exists k | 0 <= k <= |a| && k <= |b| ::
                   a[..k] == b[..k] && ((k == |a| && k < |b|) || (k < |a| && k < |b| && a[k] < b[k]))
  {
    if Less(a, b) {
      var k := SmallerAtFirstDifference(a, b);
    }
    if k :| 0 <= k <= |a| && k <= |b|
            && a[..k] == b[..k] && ((k == |a| && k < |b|) || (k < |a| && k < |b| && a[k] < b[k])) {
      FirstDifferenceDecides(a, b, k);
    }
  }

  lemma {:induction false} SmallerAtFirstDifference(a: string, b: string) returns (k: nat)
    requires Less(a, b)
    ensures k <= |a| && k <= |b| && a[..k] == b[..k]
    ensures (k == |a| && k < |b|) || (k < |a| && k < |b| && a[k] < b[k])
  {
    if a == [] || a[0] < b[0] {
      k := 0;
    } else {
      var k' := SmallerAtFirstDifference(a[1..], b[1..]);
      k := k' + 1;
      assert a[..k] == [a[0]] + a[1..][..k'] && b[..k] == [b[0]] + b[1..][..k'];
    }
  }

  lemma {:induction false} FirstDifferenceDecides(a: string, b: string, k: nat)
    requires k <= |a| && k <= |b| && a[..k] == b[..k]
    requires (k == |a| && k < |b|) || (k < |a| && k < |b| && a[k] < b[k])
    ensures Less(a, b)
  {
    if k > 0 {
      assert a[0] == a[..k][0] == b[..k][0] == b[0];
      assert a[1..][..k - 1] == a[..k][1..] && b[1..][..k - 1] == b[..k][1..];
      FirstDifferenceDecides(a[1..], b[1..], k - 1);
    }
  }

  lemma {:induction false} LessIsTotal(a: string, b: string)
    ensures Less(a, b) || a == b || Less(b, a)
  {
    if a != [] && b != [] && a[0] == b[0] {
      LessIsTotal(a[1..], b[1..]);
      assert a == [a[0]] + a[1..] && b == [b[0]] + b[1..];
    }
  }

  lemma {:induction false} LessIsAsymmetric(a: string, b: string)
    requires Less(a, b)
    ensures !Less(b, a) && a != b
  {
    if a != [] && a[0] == b[0] {
      LessIsAsymmetric(a[1..], b[1..]);
    }
  }

  lemma {:induction false} LessIsTransitive(a: string, b: string, c: string)
    requires Less(a, b) && Less(b, c)
    ensures Less(a, c)
  {
    if a != [] && a[0] == b[0] == c[0] {
      LessIsTransitive(a[1..], b[1..], c[1..]);
    }
  }

  /** `strings.Join`, for any element type: the parts in order with the separator in between. */
  function Join<T>(parts: seq<seq<T>>, separator: seq<T>): seq<T> {
    if |parts| == 0 then []
    else if |parts| == 1 then parts[0]
    else parts[0] + separator + Join(parts[1..], separator)
  }

  lemma {:induction false} JoinConcat<T>(left: seq<seq<T>>, right: seq<seq<T>>, separator: seq<T>)
    requires left != [] && right != []
    ensures Join(left + right, separator) == Join(left, separator) + separator + Join(right, separator)
  {
    if |left| == 1 {
      assert (left + right)[1..] == right;
    } else {
      assert (left + right)[1..] == left[1..] + right;
      JoinConcat(left[1..], right, separator);
      var rest, last := Join(left[1..], separator), Join(right, separator);
      assert left[0] + separator + (rest + separator + last) == (left[0] + separator + rest) + separator + last;
    }
  }

  lemma JoinTwo<T>(x: seq<T>, y: seq<T>, separator: seq<T>)
    ensures Join([x, y], separator) == x + separator + y
  {
    assert [x, y][1..] == [y];
  }

  lemma JoinThree<T>(x: seq<T>, y: seq<T>, z: seq<T>, separator: seq<T>)
    ensures Join([x, y, z], separator) == x + separator + (y + separator + z)
  {
    assert [x, y, z][1..] == [y, z];
    JoinTwo(y, z, separator);
  }

  lemma JoinFour<T>(w: seq<T>, x: seq<T>, y: seq<T>, z: seq<T>, separator: seq<T>)
    ensures Join([w, x, y, z], separator) == w + separator + (x + separator + (y + separator + z))
  {
    assert [w, x, y, z][1..] == [x, y, z];
    JoinThree(x, y, z, separator);
  }

  ghost predicate Avoids<T>(parts: seq<seq<T>>, mark: T) {
    forall i | 0 <= i < |parts| :: mark !in parts[i]
  }

  /** The first occurrence of the mark is where the head ends. */
  lemma HeadEndsAtMark<T>(x: seq<T>, xs: seq<T>, y: seq<T>, ys: seq<T>, mark: T)
    requires mark !in x && mark !in y
    requires x + [mark] + xs == y + [mark] + ys
    ensures x == y && xs == ys
  {
    var whole := x + [mark] + xs;
    assert whole[|x|] == mark && whole[|y|] == mark;
    assert forall i | 0 <= i < |x| :: whole[i] == x[i];
    assert forall i | 0 <= i < |y| :: whole[i] == y[i];
    assert |x| == |y|;
    assert x == whole[..|x|] && y == whole[..|y|];
    assert xs == whole[|x| + 1..] && ys == whole[|y| + 1..];
  }

  lemma JoinShowsMark<T>(ps: seq<seq<T>>, mark: T)
    requires ps != [] && Avoids(ps, mark)
    ensures mark in Join(ps, [mark]) <==> |ps| > 1
  {
    if |ps| > 1 {
      assert Join(ps, [mark])[|ps[0]|] == mark;
    }
  }

  /** Joining with a mark that no part contains can be undone. */
  lemma {:induction false} JoinIsInjective<T>(ps: seq<seq<T>>, qs: seq<seq<T>>, mark: T)
    requires ps != [] && qs != []
    requires Avoids(ps, mark) && Avoids(qs, mark)
    requires Join(ps, [mark]) == Join(qs, [mark])
    ensures ps == qs
  {
    JoinShowsMark(ps, mark);
    JoinShowsMark(qs, mark);
    if |ps| > 1 {
      HeadEndsAtMark(ps[0], Join(ps[1..], [mark]), qs[0], Join(qs[1..], [mark]), mark);
      JoinIsInjective(ps[1..], qs[1..], mark);
      assert ps == [ps[0]] + ps[1..] && qs == [qs[0]] + qs[1..];
    }
  }

  const DIGITS := "0123456789"

  /** `fmt.Sprintf("%d", n)`. */
  function Decimal(n: nat): (s: string)
    ensures s != [] && (|s| == 1 <==> n < 10)
    ensures forall i | 0 <= i < |s| :: s[i] in DIGITS
  {
    if n < 10 then [DIGITS[n]] else Decimal(n / 10) + [DIGITS[n % 10]]
  }

  predicate IsDigit(c: char) {
    '0' <= c <= '9'
  }

  /** The number that a string of decimal digits denotes. */
  function ValueOf(s: string): nat
    requires forall i | 0 <= i < |s| :: IsDigit(s[i])
  {
    if s == [] then 0
    else
      var last := s[|s| - 1];
      assert IsDigit(last);
      10 * ValueOf(s[..|s| - 1]) + (last as int - '0' as int)
  }

  lemma DigitIsItsValue(d: nat)
    requires d < 10
    ensures IsDigit(DIGITS[d]) && DIGITS[d] as int - '0' as int == d
  {
    assert DIGITS == ['0', '1', '2', '3', '4', '5', '6', '7', '8', '9'];
  }

  /** Decimal is the decimal numeral of n, without leading zeros. */
  lemma {:induction false} DecimalReadsBack(n: nat)
    ensures forall i | 0 <= i < |Decimal(n)| :: IsDigit(Decimal(n)[i])
    ensures ValueOf(Decimal(n)) == n
    ensures Decimal(n)[0] == '0' ==> n == 0
  {
    var s, d := Decimal(n), n % 10;
    DigitIsItsValue(d);
    if n < 10 {
      assert s[..0] == [];
    } else {
      DecimalReadsBack(n / 10);
      assert s[..|s| - 1] == Decimal(n / 10) && s[|s| - 1] == DIGITS[d];
    }
  }

  lemma DecimalIsInjective(m: nat, n: nat)
    requires Decimal(m) == Decimal(n)
    ensures m == n
  {
    DecimalReadsBack(m);
    DecimalReadsBack(n);
  }
}
