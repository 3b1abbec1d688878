/** The order of strings and the sorting of slices, as packages strings and sort have them. */
module Order {
  predicate StrLess(a: string, b: string) {
    b != [] && (a == [] || a[0] < b[0] || (a[0] == b[0] && StrLess(a[1..], b[1..])))
  }

  lemma StrLessTotal(a: string, b: string)
    ensures a == b || StrLess(a, b) || StrLess(b, a)
  {
    if a != [] && b != [] && a[0] == b[0] {
      StrLessTotal(a[1..], b[1..]);
      assert a == [a[0]] + a[1..] && b == [b[0]] + b[1..];
    }
  }

  lemma StrLessAsymmetric(a: string, b: string)
    ensures StrLess(a, b) ==> !StrLess(b, a)
  {
  }

  lemma {:induction false} StrLessBetween(a: string, b: string, c: string)
    ensures StrLess(a, c) ==> StrLess(a, b) || StrLess(b, c)
    decreases |c|
  {
    if StrLess(a, c) && b != [] && a != [] && a[0] == c[0] == b[0] {
      StrLessBetween(a[1..], b[1..], c[1..]);
    }
  }

  /** The strings differ first at k, and there a ends or has the smaller character. */
  predicate LessAt(a: string, b: string, k: nat) {
    k <= |a| && k < |b| && a[..k] == b[..k] && (k == |a| || a[k] < b[k])
  }

  lemma {:induction false} StrLessIff(a: string, b: string)
    ensures StrLess(a, b) <==> exists k: nat :: LessAt(a, b, k)
    decreases |b|
  {
    if a == [] || b == [] || a[0] != b[0] {
      assert b != [] ==> a[..0] == b[..0];
      assert StrLess(a, b) ==> LessAt(a, b, 0);
      if k: nat :| LessAt(a, b, k) {
        assert k > 0 ==> a[..k][0] == b[..k][0];
      }
    } else {
      StrLessIff(a[1..], b[1..]);
      if k: nat :| LessAt(a[1..], b[1..], k) {
        assert a[..k+1] == [a[0]] + a[1..][..k] && b[..k+1] == [b[0]] + b[1..][..k];
        assert LessAt(a, b, k + 1);
      }
      if k: nat :| LessAt(a, b, k) {
        assert k > 0;
        assert a[1..][..k-1] == a[..k][1..] && b[1..][..k-1] == b[..k][1..];
        assert LessAt(a[1..], b[1..], k - 1);
      }
    }
  }

  /** What sort asks of a less function: equivalent elements may differ. */
  ghost predicate WeakOrder<T(!new)>(less: (T, T) -> bool) {
    && (forall x, y :: less(x, y) ==> !less(y, x))
    && (forall x, y, z :: less(x, z) ==> less(x, y) || less(y, z))
  }

  predicate Sorted<T>(s: seq<T>, less: (T, T) -> bool) {
    forall i, j :: 0 <= i < j < |s| ==> !less(s[j], s[i])
  }

  /** The first k elements are in order, but for the one at j, which is in order
      only with those after it. */
  ghost predicate SortedBut<T>(s: seq<T>, less: (T, T) -> bool, k: nat, j: nat)
    requires k <= |s|
  {
    forall x, y :: 0 <= x < y < k && y != j ==> !less(s[y], s[x])
  }

  lemma SwapKeeps<T(!new)>(s: seq<T>, less: (T, T) -> bool, k: nat, j: nat)
    requires WeakOrder(less) && 0 < j < k <= |s| && SortedBut(s, less, k, j) && less(s[j], s[j-1])
    ensures SortedBut(s[j := s[j-1]][j-1 := s[j]], less, k, j - 1)
  {
  }

  lemma PlacedInOrder<T(!new)>(s: seq<T>, less: (T, T) -> bool, k: nat, j: nat)
    requires WeakOrder(less) && j < k <= |s| && SortedBut(s, less, k, j)
    requires j == 0 || !less(s[j], s[j-1])
    ensures Sorted(s[..k], less)
  {
    forall x | 0 <= x < j ensures !less(s[j], s[x]) {
      if x < j - 1 {
        assert !less(s[j-1], s[x]);
      }
    }
  }

  /** The elements of s that less does not tell from x, in their order. */
  function Class<T>(s: seq<T>, less: (T, T) -> bool, x: T): seq<T> {
    if s == [] then []
    else
      var last := s[|s|-1];
      Class(s[..|s|-1], less, x) + (if !less(last, x) && !less(x, last) then [last] else [])
  }

  /** r has the elements of s, and those that less does not tell apart in the same order. */
  ghost predicate Stable<T(!new)>(s: seq<T>, r: seq<T>, less: (T, T) -> bool) {
    multiset(r) == multiset(s) && forall x :: Class(r, less, x) == Class(s, less, x)
  }

  lemma {:induction false} ClassConcat<T>(s: seq<T>, t: seq<T>, less: (T, T) -> bool, x: T)
    ensures Class(s + t, less, x) == Class(s, less, x) + Class(t, less, x)
    decreases |t|
  {
    if t == [] {
      assert s + t == s;
    } else {
      ClassConcat(s, t[..|t|-1], less, x);
      assert (s + t)[..|s + t| - 1] == s + t[..|t|-1];
    }
  }

  lemma ClassOfThree<T>(a: seq<T>, m: seq<T>, b: seq<T>, less: (T, T) -> bool, x: T)
    ensures Class(a + m + b, less, x) == Class(a, less, x) + Class(m, less, x) + Class(b, less, x)
  {
    hide Class;
    ClassConcat(a + m, b, less, x);
    ClassConcat(a, m, less, x);
  }

  lemma ClassOfOne<T>(u: T, less: (T, T) -> bool, x: T)
    ensures Class([u], less, x) == if !less(u, x) && !less(x, u) then [u] else []
  {
    assert [u][..0] == [];
  }

  /** Two elements that are out of order are never in one class. */
  lemma SwappedPair<T(!new)>(u: T, v: T, less: (T, T) -> bool, x: T)
    requires WeakOrder(less) && less(v, u)
    ensures Class([v, u], less, x) == Class([u, v], less, x)
  {
    assert less(v, x) || less(x, u);
    hide Class;
    ClassConcat([u], [v], less, x);
    ClassConcat([v], [u], less, x);
    assert [u] + [v] == [u, v] && [v] + [u] == [v, u];
    ClassOfOne(u, less, x);
    ClassOfOne(v, less, x);
  }

  lemma SwapBetween<T(!new)>(a: seq<T>, u: T, v: T, b: seq<T>, less: (T, T) -> bool)
    requires WeakOrder(less) && less(v, u)
    ensures Stable(a + [u, v] + b, a + [v, u] + b, less)
  {
    hide Class, WeakOrder;
    assert multiset(a + [v, u] + b) == multiset(a) + multiset([v, u]) + multiset(b);
    assert multiset(a + [u, v] + b) == multiset(a) + multiset([u, v]) + multiset(b);
    assert multiset([v, u]) == multiset{v, u} == multiset([u, v]);
    forall x ensures Class(a + [v, u] + b, less, x) == Class(a + [u, v] + b, less, x) {
      ClassOfThree(a, [u, v], b, less, x);
      ClassOfThree(a, [v, u], b, less, x);
      SwappedPair(u, v, less, x);
    }
  }

  /** Swapping neighbours that are out of order keeps every class. */
  lemma SwapStable<T(!new)>(s: seq<T>, r: seq<T>, less: (T, T) -> bool, j: nat)
    requires WeakOrder(less) && 0 < j < |s| && less(s[j], s[j-1]) && r == s[j := s[j-1]][j-1 := s[j]]
    ensures Stable(s, r, less)
  {
    hide Class, WeakOrder, Stable;
    assert s == s[..j-1] + [s[j-1], s[j]] + s[j+1..];
    assert r == s[..j-1] + [s[j], s[j-1]] + s[j+1..];
    SwapBetween(s[..j-1], s[j-1], s[j], s[j+1..], less);
  }

  lemma StableSelf<T(!new)>(s: seq<T>, less: (T, T) -> bool)
    ensures Stable(s, s, less)
  {
  }

  lemma StableTransitive<T(!new)>(s: seq<T>, m: seq<T>, r: seq<T>, less: (T, T) -> bool)
    requires Stable(s, m, less) && Stable(m, r, less)
    ensures Stable(s, r, less)
  {
  }

  method Sort<T(!new)>(a: array<T>, less: (T, T) -> bool)
    requires WeakOrder(less)
    modifies a
    ensures Sorted(a[..], less) && Stable(old(a[..]), a[..], less)
  {
    hide Stable;
    assert Stable(a[..], a[..], less) by {
      StableSelf(a[..], less);
    }
    for k := 0 to a.Length
      invariant Sorted(a[..k], less)
      invariant Stable(old(a[..]), a[..], less)
    {
      var j := k;
      assert forall x :: 0 <= x < k ==> a[..k][x] == a[..][x];
      while j > 0 && less(a[j], a[j-1])
        invariant 0 <= j <= k
        invariant SortedBut(a[..], less, k + 1, j)
        invariant Stable(old(a[..]), a[..], less)
      {
        SwapKeeps(a[..], less, k + 1, j);
        ghost var s := a[..];
        a[j-1], a[j] := a[j], a[j-1];
        assert a[..] == s[j := s[j-1]][j-1 := s[j]];
        SwapStable(s, a[..], less, j);
        StableTransitive(old(a[..]), s, a[..], less);
        j := j - 1;
      }
      PlacedInOrder(a[..], less, k + 1, j);
      assert a[..][..k+1] == a[..k+1];
    }
    assert a[..a.Length] == a[..];
  }

  /** The same on a slice that only the caller holds. */
  method SortSeq<T(!new)>(s: seq<T>, less: (T, T) -> bool) returns (r: seq<T>)
    requires WeakOrder(less)
    ensures Sorted(r, less) && Stable(s, r, less)
  {
    var a := new T[|s|](i requires 0 <= i < |s| => s[i]);
    assert a[..] == s;
    Sort(a, less);
    r := a[..];
  }

  predicate Distinct<T(==)>(s: seq<T>) {
    forall i, j :: 0 <= i < j < |s| ==> s[i] != s[j]
  }

  lemma {:induction false} DistinctCount<T>(s: seq<T>, x: T)
    requires Distinct(s)
    ensures multiset(s)[x] <= 1
    decreases |s|
  {
    if s != [] {
      var init, last := s[..|s|-1], s[|s|-1];
      assert s == init + [last];
      DistinctCount(init, x);
      assert last !in init;
      assert last !in multiset(init);
    }
  }

  lemma TwiceCount<T>(s: seq<T>, i: nat, j: nat)
    requires i < j < |s| && s[i] == s[j]
    ensures multiset(s)[s[j]] >= 2
  {
    assert s == s[..j] + [s[j]] + s[j+1..];
    assert s[i] in s[..j] && s[i] in multiset(s[..j]);
    assert multiset(s) == multiset(s[..j]) + multiset{s[j]} + multiset(s[j+1..]);
  }

  /** Sorting makes no duplicates. */
  lemma SortedDistinct<T>(s: seq<T>, r: seq<T>)
    requires Distinct(s) && multiset(r) == multiset(s)
    ensures Distinct(r)
  {
    forall i, j | 0 <= i < j < |r| ensures r[i] != r[j] {
      if r[i] == r[j] {
        TwiceCount(r, i, j);
        DistinctCount(s, r[j]);
      }
    }
  }

  lemma SameMembers<T>(s: seq<T>, r: seq<T>)
    requires multiset(r) == multiset(s)
    ensures forall x :: x in r <==> x in s
  {
    forall x ensures x in r <==> x in s {
      assert x in multiset(r) <==> x in r;
      assert x in multiset(s) <==> x in s;
    }
  }
}
