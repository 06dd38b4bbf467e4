/** Sequence helpers mirroring the JavaScript array methods the dashboard uses. */
module Seqs {

  /** `xs.filter(f)`: the elements satisfying `f`, in their original order. */
  function Filter<T>(xs: seq<T>, f: T -> bool): (r: seq<T>)
    ensures |r| <= |xs|
    ensures forall i :: 0 <= i < |r| ==> r[i] in xs && f(r[i])
    ensures forall i :: 0 <= i < |xs| && f(xs[i]) ==> xs[i] in r
    ensures |r| == |xs| <==> forall i :: 0 <= i < |xs| ==> f(xs[i])
  {
    if |xs| == 0 then []
    else
      var rest := Filter(xs[1..], f);
      if f(xs[0]) then [xs[0]] + rest else rest
  }

  lemma {:induction false} FilterAppend<T>(a: seq<T>, b: seq<T>, f: T -> bool)
    ensures Filter(a + b, f) == Filter(a, f) + Filter(b, f)
  {
    if |a| == 0 {
      assert a + b == b;
    } else {
      var ab := a + b;
      assert ab[0] == a[0];
      assert ab[1..] == a[1..] + b;
      FilterAppend(a[1..], b, f);
      if f(a[0]) {
        ConsAppend(a[0], Filter(a[1..], f), Filter(b, f));
      }
    }
  }

  /** A one-element list is kept exactly when its element passes. */
  lemma FilterSingle<T>(x: T, f: T -> bool)
    ensures Filter([x], f) == if f(x) then [x] else []
  {
    assert [x][1..] == [];
  }

  /**
   * Every value passing `f` is kept as often as it occurs, and every other
   * value is dropped; with `FilterAppend` and `FilterSingle` this fixes the
   * result on every list, order and multiplicity included.
   */
  lemma {:induction false} FilterCounts<T>(xs: seq<T>, f: T -> bool)
    ensures forall x :: multiset(Filter(xs, f))[x] == if f(x) then multiset(xs)[x] else 0
  {
    if |xs| > 0 {
      FilterCounts(xs[1..], f);
      assert xs == [xs[0]] + xs[1..];
      assert multiset(xs) == multiset([xs[0]]) + multiset(xs[1..]);
      if f(xs[0]) {
        assert multiset(Filter(xs, f)) == multiset([xs[0]]) + multiset(Filter(xs[1..], f));
      }
    }
  }

  lemma ConsAppend<T>(x: T, a: seq<T>, b: seq<T>)
    ensures [x] + (a + b) == ([x] + a) + b
  {
  }

  /** Where each element of a concatenation comes from. */
  lemma AppendIndex<T>(a: seq<T>, b: seq<T>)
    ensures forall i :: 0 <= i < |a| ==> (a + b)[i] == a[i]
    ensures forall i :: |a| <= i < |a + b| ==> (a + b)[i] == b[i - |a|]
  {
  }

  /** Filtering twice by the same predicate changes nothing the second time. */
  lemma FilterIdempotent<T>(xs: seq<T>, f: T -> bool)
    ensures Filter(Filter(xs, f), f) == Filter(xs, f)
  {
    var r := Filter(xs, f);
    assert |Filter(r, f)| == |r|;
    FilterAllKept(r, f);
  }

  lemma {:induction false} FilterAllKept<T>(xs: seq<T>, f: T -> bool)
    requires forall i :: 0 <= i < |xs| ==> f(xs[i])
    ensures Filter(xs, f) == xs
  {
    if |xs| > 0 {
      FilterAllKept(xs[1..], f);
    }
  }

  /** The number of elements satisfying `f` (`xs.filter(f).length`). */
  function Count<T>(xs: seq<T>, f: T -> bool): (n: nat)
    ensures n <= |xs|
  {
    |Filter(xs, f)|
  }

  /** Counting over a concatenation adds the counts of its halves. */
  lemma CountAppend<T>(a: seq<T>, b: seq<T>, f: T -> bool)
    ensures Count(a + b, f) == Count(a, f) + Count(b, f)
  {
    FilterAppend(a, b, f);
  }

  /**
   * `xs.splice(i, 1)` for a non-negative index: removes the element at `i`,
   * and leaves the sequence alone when `i` is past the end.
   */
  function RemoveAt<T>(xs: seq<T>, i: nat): (r: seq<T>)
    ensures i < |xs| ==> |r| == |xs| - 1
    ensures i < |xs| ==> forall k :: 0 <= k < i ==> r[k] == xs[k]
    ensures i < |xs| ==> forall k :: i <= k < |r| ==> r[k] == xs[k + 1]
    ensures i >= |xs| ==> r == xs
  {
    if i < |xs| then xs[..i] + xs[i + 1..] else xs
  }

  /**
   * `xs.filter((_, k) => k !== i)`: keep every element whose index differs
   * from `i`, defined element by element.
   */
  function ExceptIndex<T>(xs: seq<T>, i: int): seq<T>
  {
    if |xs| == 0 then []
    else (if i == 0 then [] else [xs[0]]) + ExceptIndex(xs[1..], i - 1)
  }

  /** The splice form and the index-filter form of removal agree. */
  lemma {:induction false} RemoveAtIsExceptIndex<T>(xs: seq<T>, i: nat)
    ensures RemoveAt(xs, i) == ExceptIndex(xs, i)
  {
    if |xs| == 0 {
    } else if i == 0 {
      ExceptNegative(xs[1..], -1);
      assert RemoveAt(xs, i) == xs[1..];
    } else {
      RemoveAtIsExceptIndex(xs[1..], i - 1);
      if i < |xs| {
        assert xs[..i] + xs[i + 1..] == [xs[0]] + (xs[1..][..i - 1] + xs[1..][i..]);
      }
    }
  }

  lemma {:induction false} ExceptNegative<T>(xs: seq<T>, i: int)
    requires i < 0
    ensures ExceptIndex(xs, i) == xs
  {
    if |xs| > 0 {
      ExceptNegative(xs[1..], i - 1);
    }
  }

  /** `xs.reduce((sum, x) => sum + f(x), 0)`. */
  function Sum<T>(xs: seq<T>, f: T -> int): int
  {
    if |xs| == 0 then 0 else f(xs[0]) + Sum(xs[1..], f)
  }

  lemma {:induction false} SumAppend<T>(a: seq<T>, b: seq<T>, f: T -> int)
    ensures Sum(a + b, f) == Sum(a, f) + Sum(b, f)
  {
    if |a| == 0 {
      assert a + b == b;
    } else {
      assert (a + b)[1..] == a[1..] + b;
      SumAppend(a[1..], b, f);
    }
  }

  /** `[...new Set(xs)]`: the distinct elements in order of first occurrence. */
  function Distinct<T(==)>(xs: seq<T>): seq<T>
  {
    DistinctAfter(xs, {})
  }

  /** The elements of `xs` not in `seen`, each kept at its first occurrence. */
  function DistinctAfter<T(==)>(xs: seq<T>, seen: set<T>): (r: seq<T>)
    ensures forall i :: 0 <= i < |r| ==> r[i] in xs && r[i] !in seen
    ensures forall i :: 0 <= i < |xs| && xs[i] !in seen ==> xs[i] in r
    ensures forall i, j :: 0 <= i < j < |r| ==> r[i] != r[j]
  {
    if |xs| == 0 then []
    else if xs[0] in seen then DistinctAfter(xs[1..], seen)
    else
      var rest := DistinctAfter(xs[1..], seen + {xs[0]});
      [xs[0]] + rest
  }

  /** `DistinctAfter` lists what it keeps in the order the values first occur in `xs`. */
  lemma {:induction false} DistinctAfterOrder<T>(xs: seq<T>, seen: set<T>)
    ensures forall i, j :: 0 <= i < j < |DistinctAfter(xs, seen)| ==>
      FirstIndex(xs, DistinctAfter(xs, seen)[i]) < FirstIndex(xs, DistinctAfter(xs, seen)[j])
  {
    if |xs| > 0 {
      var r := DistinctAfter(xs, seen);
      if xs[0] in seen {
        DistinctAfterOrder(xs[1..], seen);
        assert r == DistinctAfter(xs[1..], seen);
        forall i, j | 0 <= i < j < |r|
          ensures FirstIndex(xs, r[i]) < FirstIndex(xs, r[j])
        {
          assert r[i] in xs[1..] && r[j] in xs[1..];
          assert r[i] != xs[0] && r[j] != xs[0];
          FirstIndexTail(xs, r[i]);
          FirstIndexTail(xs, r[j]);
        }
      } else {
        var rest := DistinctAfter(xs[1..], seen + {xs[0]});
        DistinctAfterOrder(xs[1..], seen + {xs[0]});
        assert r == [xs[0]] + rest;
        forall i, j | 0 <= i < j < |r|
          ensures FirstIndex(xs, r[i]) < FirstIndex(xs, r[j])
        {
          assert r[j] == rest[j - 1] && r[j] in xs[1..] && r[j] != xs[0];
          FirstIndexTail(xs, r[j]);
          if i > 0 {
            assert r[i] == rest[i - 1] && r[i] in xs[1..] && r[i] != xs[0];
            FirstIndexTail(xs, r[i]);
          }
        }
      }
    }
  }

  /** Index of the first occurrence of `x` in `xs`. */
  function FirstIndex<T(==)>(xs: seq<T>, x: T): (k: nat)
    requires x in xs
    ensures k < |xs| && xs[k] == x
    ensures forall j :: 0 <= j < k ==> xs[j] != x
  {
    if xs[0] == x then 0 else 1 + FirstIndex(xs[1..], x)
  }

  /** `xs.findIndex(p)`, except that a miss yields the length instead of -1. */
  function FindFirst<T>(xs: seq<T>, p: T -> bool): (k: nat)
    ensures k <= |xs|
    ensures k < |xs| ==> p(xs[k])
    ensures forall j :: 0 <= j < k ==> !p(xs[j])
  {
    if |xs| == 0 then 0
    else if p(xs[0]) then 0
    else 1 + FindFirst(xs[1..], p)
  }

  /** Past a different head, the first index is one more than in the tail. */
  lemma FirstIndexTail<T>(xs: seq<T>, x: T)
    requires |xs| > 0 && x in xs[1..] && x != xs[0]
    ensures FirstIndex(xs, x) == 1 + FirstIndex(xs[1..], x)
  {
  }

}
