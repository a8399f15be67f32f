/** Orders, sorts and the orders of byte strings that the selectors depend on.

    Go's `sort.Slice` and `sort.SliceStable` are modelled by `SortBy`. Every caller
    sorts by a strict total order on the elements at hand, or by a weak order whose
    ties it resolves afterwards, so which sorting algorithm runs is not observable:
    `SortedIsAscending` shows the result is the unique ascending listing. */
module Orders {

  type Less<!T> = (T, T) -> bool

  function Elements<T>(xs: seq<T>): set<T> {
    set x | x in xs
  }

  ghost predicate Distinct<T>(xs: seq<T>) {
    forall i, j :: 0 <= i < j < |xs| ==> xs[i] != xs[j]
  }

  /** `less` never relates two elements both ways, and not-less is transitive. */
  ghost predicate WeakOn<T(!new)>(less: Less<T>, s: set<T>) {
    && (forall x, y :: x in s && y in s && less(x, y) ==> !less(y, x))
    && (forall x, y, z :: x in s && y in s && z in s && !less(x, y) && !less(y, z) ==> !less(x, z))
  }

  /** A weak order in which distinct elements never tie. */
  ghost predicate TotalOn<T(!new)>(less: Less<T>, s: set<T>) {
    && WeakOn(less, s)
    && (forall x, y :: x in s && y in s && x != y ==> less(x, y) || less(y, x))
  }

  lemma TotalSubset<T(!new)>(less: Less<T>, s: set<T>, t: set<T>)
    requires TotalOn(less, s) && t <= s
    ensures TotalOn(less, t)
  {
  }

  /** No later element is before an earlier one. */
  ghost predicate WeaklySorted<T>(less: Less<T>, xs: seq<T>) {
    forall i, j :: 0 <= i < j < |xs| ==> !less(xs[j], xs[i])
  }

  ghost predicate StrictlySorted<T>(less: Less<T>, xs: seq<T>) {
    forall i, j :: 0 <= i < j < |xs| ==> less(xs[i], xs[j])
  }

  // ----- sorting -----

  /** Places `x` before the first element that is not below it. */
  function Insert<T>(x: T, xs: seq<T>, less: Less<T>): (r: seq<T>)
    ensures multiset(r) == multiset(xs) + multiset{x}
    ensures |r| == |xs| + 1
  {
    if xs == [] || !less(xs[0], x) then
      [x] + xs
    else
      assert xs == [xs[0]] + xs[1..];
      [xs[0]] + Insert(x, xs[1..], less)
  }

  function SortBy<T>(xs: seq<T>, less: Less<T>): (r: seq<T>)
    ensures multiset(r) == multiset(xs)
    ensures |r| == |xs|
  {
    if xs == [] then
      []
    else
      assert xs == [xs[0]] + xs[1..];
      Insert(xs[0], SortBy(xs[1..], less), less)
  }

  lemma SubsetSize<T>(a: set<T>, b: set<T>)
    requires a <= b
    ensures |a| <= |b|
    ensures |a| == |b| ==> a == b
  {
    assert b == a + (b - a);
  }

  lemma SameMultisetSameElements<T>(xs: seq<T>, ys: seq<T>)
    requires multiset(xs) == multiset(ys)
    ensures Elements(xs) == Elements(ys)
  {
    forall x ensures x in xs <==> x in ys {
      assert x in multiset(xs) <==> x in multiset(ys);
    }
  }

  lemma {:induction false} InsertSorts<T(!new)>(x: T, xs: seq<T>, less: Less<T>)
    requires WeakOn(less, Elements(xs) + {x}) && WeaklySorted(less, xs)
    ensures WeaklySorted(less, Insert(x, xs, less))
  {
    if xs == [] {
    } else if !less(xs[0], x) {
      var r := [x] + xs;
      forall i, j | 0 <= i < j < |r| ensures !less(r[j], r[i]) {
        if i == 0 && j > 1 {
          assert !less(xs[j - 1], xs[0]) && !less(xs[0], x);
        }
      }
    } else {
      var t := Insert(x, xs[1..], less);
      assert Elements(xs[1..]) + {x} <= Elements(xs) + {x};
      InsertSorts(x, xs[1..], less);
      assert xs == [xs[0]] + xs[1..];
      forall j | 0 <= j < |t| ensures !less(t[j], xs[0]) {
        assert t[j] in multiset(t);
        assert t[j] == x || t[j] in xs[1..];
      }
    }
  }

  lemma {:induction false} SortBySorts<T(!new)>(xs: seq<T>, less: Less<T>)
    requires WeakOn(less, Elements(xs))
    ensures WeaklySorted(less, SortBy(xs, less))
  {
    if xs == [] {
    } else {
      var t := SortBy(xs[1..], less);
      SameMultisetSameElements(t, xs[1..]);
      assert Elements(xs) == Elements(xs[1..]) + {xs[0]} by {
        assert xs == [xs[0]] + xs[1..];
      }
      SortBySorts(xs[1..], less);
      InsertSorts(xs[0], t, less);
    }
  }

  lemma {:induction false} DistinctCount<T>(xs: seq<T>)
    requires Distinct(xs)
    ensures |Elements(xs)| == |xs|
  {
    if xs != [] {
      var n := |xs| - 1;
      assert xs == xs[..n] + [xs[n]];
      assert Elements(xs) == Elements(xs[..n]) + {xs[n]};
      DistinctCount(xs[..n]);
    }
  }

  lemma DistinctByMultiset<T>(xs: seq<T>, ys: seq<T>)
    requires Distinct(xs) && multiset(xs) == multiset(ys)
    ensures Distinct(ys)
  {
    forall i, j | 0 <= i < j < |ys| ensures ys[i] != ys[j] {
      if ys[i] == ys[j] {
        var x := ys[i];
        assert ys == ys[..i] + [x] + ys[i + 1..j] + [x] + ys[j + 1..];
        assert multiset(ys)[x] >= 2;
        DistinctMultiplicity(xs, x);
        assert false;
      }
    }
  }

  lemma {:induction false} DistinctMultiplicity<T>(xs: seq<T>, x: T)
    requires Distinct(xs)
    ensures multiset(xs)[x] <= 1
  {
    if xs == [] {
    } else {
      DistinctMultiplicity(xs[1..], x);
      assert xs == [xs[0]] + xs[1..];
      if xs[0] == x {
        assert x !in xs[1..];
        assert x !in multiset(xs[1..]);
      }
    }
  }

  /** Sorting distinct elements by a total order is strict. */
  lemma SortByStrict<T(!new)>(xs: seq<T>, less: Less<T>)
    requires TotalOn(less, Elements(xs)) && Distinct(xs)
    ensures StrictlySorted(less, SortBy(xs, less))
    ensures Elements(SortBy(xs, less)) == Elements(xs)
    ensures Distinct(SortBy(xs, less))
  {
    var r := SortBy(xs, less);
    SortBySorts(xs, less);
    DistinctByMultiset(xs, r);
    SameMultisetSameElements(r, xs);
    forall i, j | 0 <= i < j < |r| ensures less(r[i], r[j]) {
      assert r[i] in Elements(r) && r[j] in Elements(r);
    }
  }

  // ----- the first element of a set -----

  ghost predicate IsTop<T>(less: Less<T>, s: set<T>, x: T) {
    x in s && forall y :: y in s && y != x ==> less(x, y)
  }

  lemma TopExists<T(!new)>(less: Less<T>, s: set<T>)
    requires s != {} && TotalOn(less, s)
    ensures exists x :: IsTop(less, s, x)
  {
    var y :| y in s;
    var rest := s - {y};
    if rest == {} {
      assert s == {y};
      assert IsTop(less, s, y);
    } else {
      TopExists(less, rest);
      var x :| IsTop(less, rest, x);
      if less(y, x) {
        forall z | z in s && z != y ensures less(y, z) {
          if z != x {
            assert !less(z, x) && !less(x, y);
          }
        }
        assert IsTop(less, s, y);
      } else {
        assert IsTop(less, s, x);
      }
    }
  }

  lemma TopUnique<T(!new)>(less: Less<T>, s: set<T>, x: T, y: T)
    requires WeakOn(less, s) && IsTop(less, s, x) && IsTop(less, s, y)
    ensures x == y
  {
  }

  ghost function Top<T(!new)>(less: Less<T>, s: set<T>): (x: T)
    requires s != {} && TotalOn(less, s)
    ensures IsTop(less, s, x)
  {
    TopExists(less, s);
    var x :| IsTop(less, s, x);
    x
  }

  /** The elements of `s` in order. */
  ghost function Ascending<T(!new)>(less: Less<T>, s: set<T>): (r: seq<T>)
    requires TotalOn(less, s)
    ensures Elements(r) == s
    ensures |r| == |s|
  {
    if s == {} then
      []
    else
      var x := Top(less, s);
      var t := Ascending(less, s - {x});
      ElementsCons(x, t);
      [x] + t
  }

  lemma ElementsCons<T>(x: T, xs: seq<T>)
    ensures Elements([x] + xs) == {x} + Elements(xs)
  {
  }

  /** Any strictly sorted listing is the ascending one: sorted order has no freedom left. */
  lemma {:induction false} SortedIsAscending<T(!new)>(less: Less<T>, xs: seq<T>)
    requires TotalOn(less, Elements(xs)) && StrictlySorted(less, xs)
    ensures xs == Ascending(less, Elements(xs))
  {
    if xs == [] {
    } else {
      var s := Elements(xs);
      assert IsTop(less, s, xs[0]);
      TopUnique(less, s, xs[0], Top(less, s));
      assert Elements(xs[1..]) == s - {xs[0]} by {
        assert xs == [xs[0]] + xs[1..];
        assert forall k :: 1 <= k < |xs| ==> less(xs[0], xs[k]);
        assert !less(xs[0], xs[0]);
      }
      SortedIsAscending(less, xs[1..]);
    }
  }

  /** Library sorting of distinct elements by a total order depends only on the set sorted. */
  lemma SortByIsAscending<T(!new)>(xs: seq<T>, less: Less<T>)
    requires TotalOn(less, Elements(xs)) && Distinct(xs)
    ensures SortBy(xs, less) == Ascending(less, Elements(xs))
  {
    SortByStrict(xs, less);
    SortedIsAscending(less, SortBy(xs, less));
  }

  // ----- byte strings -----

  /** Lexicographic order of byte strings, as `bytes.Compare` and Go's string `<`. */
  predicate LexLess(a: string, b: string) {
    b != [] && (a == [] || a[0] < b[0] || (a[0] == b[0] && LexLess(a[1..], b[1..])))
  }

  lemma {:induction false} LexAsymmetric(a: string, b: string)
    ensures LexLess(a, b) ==> !LexLess(b, a)
    ensures !LexLess(a, a)
    decreases |a| + |b|
  {
    if a != [] {
      if b != [] {
        LexAsymmetric(a[1..], b[1..]);
      } else {
        LexAsymmetric(a[1..], []);
      }
    }
  }

  lemma {:induction false} LexTotal(a: string, b: string)
    ensures a != b ==> LexLess(a, b) || LexLess(b, a)
  {
    if a != [] && b != [] {
      LexTotal(a[1..], b[1..]);
      assert a == [a[0]] + a[1..] && b == [b[0]] + b[1..];
    }
  }

  lemma {:induction false} LexTransitive(a: string, b: string, c: string)
    requires !LexLess(a, b) && !LexLess(b, c)
    ensures !LexLess(a, c)
  {
    if c != [] && b != [] && a != [] {
      if a[0] == b[0] == c[0] {
        LexTransitive(a[1..], b[1..], c[1..]);
      }
    }
  }

  // ----- decimal numerals -----

  function Digit(d: nat): char
    requires d < 10
  {
    '0' + d as char
  }

  /** `strconv.FormatUint(n, 10)`. */
  function Decimal(n: nat): (s: string)
    ensures s != []
    ensures forall i :: 0 <= i < |s| ==> '0' <= s[i] <= '9'
  {
    if n < 10 then [Digit(n)] else Decimal(n / 10) + [Digit(n % 10)]
  }

  function Numeral(s: string): nat
    requires forall i :: 0 <= i < |s| ==> '0' <= s[i] <= '9'
  {
    if s == [] then 0 else 10 * Numeral(s[..|s| - 1]) + (s[|s| - 1] - '0') as nat
  }

  lemma {:induction false} NumeralOfDecimal(n: nat)
    ensures Numeral(Decimal(n)) == n
  {
    if n < 10 {
    } else {
      NumeralOfDecimal(n / 10);
      assert Decimal(n)[..|Decimal(n)| - 1] == Decimal(n / 10);
    }
  }

  lemma DecimalInjective(m: nat, n: nat)
    requires Decimal(m) == Decimal(n)
    ensures m == n
  {
    NumeralOfDecimal(m);
    NumeralOfDecimal(n);
  }
}
