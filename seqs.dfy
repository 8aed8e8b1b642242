/**
 * Sequence operations the application performs with array methods
 * (`reduce` for sums, `filter`, `map`, and the stable `sort`), together with
 * the facts about them that the allocation proofs rely on: sums and counts
 * split over concatenation and do not depend on the order of the elements.
 */
module Seqs {

  /** `s.reduce((acc, x) => acc + f(x), 0)`: accumulated left to right. */
  function Sum<T>(s: seq<T>, f: T -> real): real
  {
    if s == [] then 0.0 else Sum(s[..|s| - 1], f) + f(s[|s| - 1])
  }

  /** Number of elements of `s` satisfying `p`. */
  function Count<T>(s: seq<T>, p: T -> bool): nat
  {
    if s == [] then 0 else Count(s[..|s| - 1], p) + (if p(s[|s| - 1]) then 1 else 0)
  }

  /** `s.filter(p)`: the elements satisfying `p`, in their original order. */
  function Filter<T>(s: seq<T>, p: T -> bool): (r: seq<T>)
    ensures |r| <= |s|
  {
    if s == [] then []
    else Filter(s[..|s| - 1], p) + (if p(s[|s| - 1]) then [s[|s| - 1]] else [])
  }

  /** `s.map(f)`. */
  function Map<T, U>(s: seq<T>, f: T -> U): (r: seq<U>)
    ensures |r| == |s| && forall i | 0 <= i < |s| :: r[i] == f(s[i])
  {
    seq(|s|, i requires 0 <= i < |s| => f(s[i]))
  }

  /** Ascending order of `key`. */
  predicate Sorted<T>(s: seq<T>, key: T -> real)
  {
    forall i, j | 0 <= i < j < |s| :: key(s[i]) <= key(s[j])
  }

  /** Places `x` before the first element whose key is not smaller than its own. */
  function Insert<T>(x: T, s: seq<T>, key: T -> real): (r: seq<T>)
    ensures |r| == |s| + 1
    ensures multiset(r) == multiset(s) + multiset{x}
    ensures r[0] == x || (s != [] && r[0] == s[0])
  {
    if s == [] || key(x) <= key(s[0]) then [x] + s
    else
      assert s == [s[0]] + s[1..];
      [s[0]] + Insert(x, s[1..], key)
  }

  /**
   * A stable sort by ascending `key`, as `Array.prototype.sort` with the
   * comparator `(a, b) => key(a) - key(b)`: elements with equal keys keep
   * their relative order (`SortByEstable`).
   */
  function SortBy<T>(s: seq<T>, key: T -> real): (r: seq<T>)
    ensures |r| == |s|
    ensures multiset(r) == multiset(s)
    ensures Sorted(r, key)
  {
    if s == [] then []
    else
      var t := SortBy(s[1..], key);
      InsertSorted(s[0], t, key);
      assert s == [s[0]] + s[1..];
      Insert(s[0], t, key)
  }

  lemma {:induction false} InsertSorted<T>(x: T, s: seq<T>, key: T -> real)
    requires Sorted(s, key)
    ensures Sorted(Insert(x, s, key), key)
    decreases |s|
  {
    if s == [] || key(x) <= key(s[0]) {
      var r := [x] + s;
      forall i, j | 0 <= i < j < |r| ensures key(r[i]) <= key(r[j]) {
        if i == 0 {
          assert key(s[0]) <= key(s[j - 1]);
        }
      }
    } else {
      var t := Insert(x, s[1..], key);
      assert Sorted(s[1..], key) by {
        forall i, j | 0 <= i < j < |s[1..]| ensures key(s[1..][i]) <= key(s[1..][j]) {
          assert s[1..][i] == s[i + 1] && s[1..][j] == s[j + 1];
        }
      }
      InsertSorted(x, s[1..], key);
      assert key(s[0]) <= key(t[0]) by {
        if t[0] != x {
          assert t[0] == s[1];
        }
      }
      var r := [s[0]] + t;
      forall i, j | 0 <= i < j < |r| ensures key(r[i]) <= key(r[j]) {
        if i == 0 && j > 1 {
          assert key(t[0]) <= key(t[j - 1]);
        }
      }
    }
  }

  /** The elements whose key is `v`. */
  function ClaveIgual<T>(key: T -> real, v: real): T -> bool
  {
    (x: T) => key(x) == v
  }

  /**
   * `SortBy` is stable: the elements of any one key come out in the order
   * they went in.
   */
  lemma {:induction false} SortByEstable<T>(s: seq<T>, key: T -> real, v: real)
    ensures Filter(SortBy(s, key), ClaveIgual(key, v)) == Filter(s, ClaveIgual(key, v))
    decreases |s|
  {
    if s != [] {
      var p := ClaveIgual(key, v);
      SortByEstable(s[1..], key, v);
      InsertEstable(s[0], SortBy(s[1..], key), key, v);
      assert s == [s[0]] + s[1..];
      FilterAppend([s[0]], s[1..], p);
    }
  }

  /** Inserting `x` into sorted `s` puts it before every element of its key. */
  lemma {:induction false} InsertEstable<T>(x: T, s: seq<T>, key: T -> real, v: real)
    requires Sorted(s, key)
    ensures Filter(Insert(x, s, key), ClaveIgual(key, v)) == Filter([x], ClaveIgual(key, v)) + Filter(s, ClaveIgual(key, v))
    decreases |s|
  {
    var p := ClaveIgual(key, v);
    if s == [] || key(x) <= key(s[0]) {
      FilterAppend([x], s, p);
    } else {
      assert s == [s[0]] + s[1..];
      InsertEstable(x, s[1..], key, v);
      FilterAppend([s[0]], Insert(x, s[1..], key), p);
      FilterAppend([s[0]], s[1..], p);
      FilterSingle(x, p);
      FilterSingle(s[0], p);
    }
  }

  lemma SumSingle<T>(x: T, f: T -> real)
    ensures Sum([x], f) == f(x)
  {
    assert [x][..0] == [];
  }

  lemma {:induction false} SumAppend<T>(a: seq<T>, b: seq<T>, f: T -> real)
    ensures Sum(a + b, f) == Sum(a, f) + Sum(b, f)
    decreases |b|
  {
    if b == [] {
      assert a + b == a;
    } else {
      var b' := b[..|b| - 1];
      assert (a + b)[..|a + b| - 1] == a + b';
      SumAppend(a, b', f);
    }
  }

  lemma {:induction false} CountAppend<T>(a: seq<T>, b: seq<T>, p: T -> bool)
    ensures Count(a + b, p) == Count(a, p) + Count(b, p)
    decreases |b|
  {
    if b == [] {
      assert a + b == a;
    } else {
      var b' := b[..|b| - 1];
      assert (a + b)[..|a + b| - 1] == a + b';
      CountAppend(a, b', p);
    }
  }

  lemma {:induction false} FilterAppend<T>(a: seq<T>, b: seq<T>, p: T -> bool)
    ensures Filter(a + b, p) == Filter(a, p) + Filter(b, p)
    decreases |b|
  {
    if b == [] {
      assert a + b == a;
    } else {
      var b' := b[..|b| - 1];
      assert (a + b)[..|a + b| - 1] == a + b';
      FilterAppend(a, b', p);
    }
  }

  /** Removing the element at `k` splits `b` around it. */
  lemma SplitAt<T>(b: seq<T>, k: nat)
    requires k < |b|
    ensures b == b[..k] + [b[k]] + b[k + 1..]
    ensures multiset(b[..k] + b[k + 1..]) == multiset(b) - multiset{b[k]}
  {
    assert b == b[..k] + [b[k]] + b[k + 1..];
  }

  lemma MapAppend<T, U>(a: seq<T>, b: seq<T>, f: T -> U)
    ensures Map(a + b, f) == Map(a, f) + Map(b, f)
  {
    var l, r := Map(a + b, f), Map(a, f) + Map(b, f);
    assert |l| == |r|;
    forall i | 0 <= i < |l| ensures l[i] == r[i] {
      if i < |a| {
        assert (a + b)[i] == a[i];
      } else {
        assert (a + b)[i] == b[i - |a|];
      }
    }
  }

  /**
   * The last element of `a` sits at some position `k` of its permutation `b`,
   * and what is left on either side is a permutation of each other.
   */
  lemma Quitar<T>(a: seq<T>, b: seq<T>) returns (k: nat)
    requires a != [] && multiset(a) == multiset(b)
    ensures k < |b| && b[k] == a[|a| - 1]
    ensures multiset(a[..|a| - 1]) == multiset(b[..k] + b[k + 1..])
  {
    var x := a[|a| - 1];
    assert a == a[..|a| - 1] + [x];
    assert x in multiset(b);
    k :| 0 <= k < |b| && b[k] == x;
    SplitAt(b, k);
  }

  lemma SumSinElemento<T>(b: seq<T>, k: nat, f: T -> real)
    requires k < |b|
    ensures Sum(b, f) == Sum(b[..k] + b[k + 1..], f) + f(b[k])
  {
    SplitAt(b, k);
    SumAppend(b[..k] + [b[k]], b[k + 1..], f);
    SumSnoc(b[..k], b[k], f);
    SumAppend(b[..k], b[k + 1..], f);
  }

  /** The sum does not depend on the order of the elements. */
  lemma {:induction false} SumPerm<T>(a: seq<T>, b: seq<T>, f: T -> real)
    requires multiset(a) == multiset(b)
    ensures Sum(a, f) == Sum(b, f)
    decreases |a|
  {
    if a == [] {
      assert |b| == |multiset(b)| == 0;
    } else {
      var k := Quitar(a, b);
      SumPerm(a[..|a| - 1], b[..k] + b[k + 1..], f);
      SumSinElemento(b, k, f);
    }
  }

  lemma CountSinElemento<T>(b: seq<T>, k: nat, p: T -> bool)
    requires k < |b|
    ensures Count(b, p) == Count(b[..k] + b[k + 1..], p) + (if p(b[k]) then 1 else 0)
  {
    SplitAt(b, k);
    CountAppend(b[..k] + [b[k]], b[k + 1..], p);
    assert (b[..k] + [b[k]])[..k] == b[..k];
    CountAppend(b[..k], b[k + 1..], p);
  }

  /** The count does not depend on the order of the elements. */
  lemma {:induction false} CountPerm<T>(a: seq<T>, b: seq<T>, p: T -> bool)
    requires multiset(a) == multiset(b)
    ensures Count(a, p) == Count(b, p)
    decreases |a|
  {
    if a == [] {
      assert |b| == |multiset(b)| == 0;
    } else {
      var k := Quitar(a, b);
      CountPerm(a[..|a| - 1], b[..k] + b[k + 1..], p);
      CountSinElemento(b, k, p);
    }
  }

  lemma MapSinElemento<T, U>(b: seq<T>, k: nat, f: T -> U)
    requires k < |b|
    ensures multiset(Map(b, f)) == multiset(Map(b[..k] + b[k + 1..], f)) + multiset{f(b[k])}
  {
    SplitAt(b, k);
    MapAppend(b[..k] + [b[k]], b[k + 1..], f);
    MapAppend(b[..k], [b[k]], f);
    MapAppend(b[..k], b[k + 1..], f);
  }

  /** Mapping a permutation gives a permutation of the images. */
  lemma {:induction false} MapPerm<T, U>(a: seq<T>, b: seq<T>, f: T -> U)
    requires multiset(a) == multiset(b)
    ensures multiset(Map(a, f)) == multiset(Map(b, f))
    decreases |a|
  {
    if a == [] {
      assert |b| == |multiset(b)| == 0;
    } else {
      var k := Quitar(a, b);
      var a' := a[..|a| - 1];
      MapPerm(a', b[..k] + b[k + 1..], f);
      MapSinElemento(b, k, f);
      assert Map(a, f) == Map(a', f) + [f(b[k])];
    }
  }

  lemma FilterSinElemento<T>(b: seq<T>, k: nat, p: T -> bool)
    requires k < |b|
    ensures multiset(Filter(b, p)) == multiset(Filter(b[..k] + b[k + 1..], p)) + multiset(if p(b[k]) then [b[k]] else [])
  {
    var lo, x, hi := b[..k], b[k], b[k + 1..];
    SplitAt(b, k);
    FilterAppend(lo + [x], hi, p);
    assert (lo + [x])[..k] == lo;
    FilterAppend(lo, hi, p);
  }

  /** Filtering a permutation gives a permutation of the filtered elements. */
  lemma {:induction false} FilterPerm<T>(a: seq<T>, b: seq<T>, p: T -> bool)
    requires multiset(a) == multiset(b)
    ensures multiset(Filter(a, p)) == multiset(Filter(b, p))
    decreases |a|
  {
    if a == [] {
      assert |b| == |multiset(b)| == 0;
    } else {
      var k := Quitar(a, b);
      FilterPerm(a[..|a| - 1], b[..k] + b[k + 1..], p);
      FilterSinElemento(b, k, p);
    }
  }

  lemma FilterSingle<T>(x: T, p: T -> bool)
    ensures Filter([x], p) == if p(x) then [x] else []
  {
    assert [x][..0] == [];
  }

  /** Splitting a sequence by a predicate and its negation preserves the sum. */
  lemma {:induction false} SumFilterSplit<T>(s: seq<T>, f: T -> real, p: T -> bool, q: T -> bool)
    requires forall x :: q(x) == !p(x)
    ensures Sum(s, f) == Sum(Filter(s, p), f) + Sum(Filter(s, q), f)
    decreases |s|
  {
    if s != [] {
      var s' := s[..|s| - 1];
      var x := s[|s| - 1];
      assert s == s' + [x];
      SumFilterSplit(s', f, p, q);
      FilterAppend(s', [x], p);
      FilterAppend(s', [x], q);
      FilterSingle(x, p);
      FilterSingle(x, q);
      SumAppend(Filter(s', p), Filter([x], p), f);
      SumAppend(Filter(s', q), Filter([x], q), f);
      SumAppend(s', [x], f);
      assert Sum([x], f) == f(x) by {
        assert [x][..0] == [];
      }
      assert Sum([], f) == 0.0;
    }
  }

  /** Replacing one element changes the sum by the difference of the two values. */
  lemma SumUpdate<T>(s: seq<T>, k: nat, x: T, f: T -> real)
    requires k < |s|
    ensures Sum(s[k := x], f) == Sum(s, f) - f(s[k]) + f(x)
  {
    var lo, hi := s[..k], s[k + 1..];
    SplitAt(s, k);
    assert s[k := x] == lo + [x] + hi;
    SumAppend(lo + [x], hi, f);
    SumAppend(lo, [x], f);
    SumAppend(lo + [s[k]], hi, f);
    SumAppend(lo, [s[k]], f);
    SumSingle(x, f);
    SumSingle(s[k], f);
  }

  /** Replacing one element changes the count by at most that element's contribution. */
  lemma CountUpdate<T>(s: seq<T>, k: nat, x: T, p: T -> bool)
    requires k < |s|
    ensures Count(s[k := x], p) == Count(s, p) - (if p(s[k]) then 1 else 0) + (if p(x) then 1 else 0)
  {
    var lo, hi := s[..k], s[k + 1..];
    SplitAt(s, k);
    assert s[k := x] == lo + [x] + hi;
    CountAppend(lo + [x], hi, p);
    CountAppend(lo, [x], p);
    CountAppend(lo + [s[k]], hi, p);
    CountAppend(lo, [s[k]], p);
    assert [x][..0] == [] && [s[k]][..0] == [];
  }

  /** Every element of a permutation of `a` sits at some position of `a`. */
  lemma PermIndex<T>(a: seq<T>, b: seq<T>, i: nat) returns (j: nat)
    requires multiset(a) == multiset(b) && i < |b|
    ensures j < |a| && a[j] == b[i]
  {
    assert b[i] in multiset(b);
    assert b[i] in a;
    j :| 0 <= j < |a| && a[j] == b[i];
  }

  lemma {:induction false} CountTodos<T>(s: seq<T>, p: T -> bool)
    requires forall i | 0 <= i < |s| :: p(s[i])
    ensures Count(s, p) == |s|
    decreases |s|
  {
    if s != [] {
      CountTodos(s[..|s| - 1], p);
    }
  }

  /**
   * Taking the elements that satisfy `p`, then those of the rest that satisfy
   * `h`, gives the elements that satisfy `h`, when `p` implies `h`.
   */
  lemma {:induction false} FilterUnion<T>(s: seq<T>, p: T -> bool, q: T -> bool, h: T -> bool)
    requires forall x :: q(x) == !p(x)
    requires forall x :: p(x) ==> h(x)
    ensures multiset(Filter(s, p)) + multiset(Filter(Filter(s, q), h)) == multiset(Filter(s, h))
    decreases |s|
  {
    if s != [] {
      var s' := s[..|s| - 1];
      FilterUnion(s', p, q, h);
      var X, Y, Z := FilterUnionPaso(s, p, q, h);
      SumaMultisets(multiset(Filter(s', p)), multiset(Filter(Filter(s', q), h)), multiset(Filter(s', h)), X, Y, Z);
    }
  }

  lemma SumaMultisets<T>(a: multiset<T>, b: multiset<T>, c: multiset<T>, x: multiset<T>, y: multiset<T>, z: multiset<T>)
    requires a + b == c && x + y == z
    ensures (a + x) + (b + y) == c + z
  {
  }

  /** How the last element of `s` adds to each of the three filtered sequences of `FilterUnion`. */
  lemma FilterUnionPaso<T>(s: seq<T>, p: T -> bool, q: T -> bool, h: T -> bool)
    returns (X: multiset<T>, Y: multiset<T>, Z: multiset<T>)
    requires s != []
    requires forall x :: q(x) == !p(x)
    requires forall x :: p(x) ==> h(x)
    ensures multiset(Filter(s, p)) == multiset(Filter(s[..|s| - 1], p)) + X
    ensures multiset(Filter(Filter(s, q), h)) == multiset(Filter(Filter(s[..|s| - 1], q), h)) + Y
    ensures multiset(Filter(s, h)) == multiset(Filter(s[..|s| - 1], h)) + Z
    ensures X + Y == Z
  {
    var s', x := s[..|s| - 1], s[|s| - 1];
    var fq := Filter(s', q);
    X := multiset(if p(x) then [x] else []);
    Y := multiset(if q(x) && h(x) then [x] else []);
    Z := multiset(if h(x) then [x] else []);
    if q(x) {
      assert Filter(s, q) == fq + [x];
      FilterSnoc(fq, x, h);
    } else {
      assert Filter(s, q) == fq;
    }
  }

  lemma FilterSnoc<T>(s: seq<T>, x: T, p: T -> bool)
    ensures Filter(s + [x], p) == Filter(s, p) + (if p(x) then [x] else [])
  {
    assert (s + [x])[..|s|] == s;
  }

  /** A prefix one element longer filters to the old result plus that element, if it passes. */
  lemma FilterPrefix<T>(s: seq<T>, i: nat, p: T -> bool)
    requires i < |s|
    ensures Filter(s[..i + 1], p) == Filter(s[..i], p) + (if p(s[i]) then [s[i]] else [])
  {
    assert s[..i + 1][..i] == s[..i];
  }

  lemma PrefijoSnoc<T>(s: seq<T>, i: nat)
    requires i < |s|
    ensures s[..i + 1] == s[..i] + [s[i]]
  {
  }

  lemma SumPrefix<T>(s: seq<T>, i: nat, f: T -> real)
    requires i < |s|
    ensures Sum(s[..i + 1], f) == Sum(s[..i], f) + f(s[i])
  {
    assert s[..i + 1][..i] == s[..i];
  }

  lemma SumSnoc<T>(s: seq<T>, x: T, f: T -> real)
    ensures Sum(s + [x], f) == Sum(s, f) + f(x)
  {
    assert (s + [x])[..|s|] == s;
  }

  /** The filtered sequence holds exactly the elements that pass. */
  lemma {:induction false} FilterMiembro<T>(s: seq<T>, p: T -> bool)
    ensures forall x :: x in Filter(s, p) <==> x in s && p(x)
    decreases |s|
  {
    if s != [] {
      FilterMiembro(s[..|s| - 1], p);
      assert s == s[..|s| - 1] + [s[|s| - 1]];
    }
  }

  /** Filtering keeps as many elements as pass the test. */
  lemma {:induction false} FilterCount<T>(s: seq<T>, p: T -> bool)
    ensures |Filter(s, p)| == Count(s, p)
    decreases |s|
  {
    if s != [] {
      FilterCount(s[..|s| - 1], p);
    }
  }
}
