/**
 * Generic list operations behind the components' `filter`, `find`,
 * `reduce`, `sort` and `slice` calls.
 */
module Seqs {
  import opened Wrappers

  /** `s.filter(p)`: the elements satisfying `p`, in their original order. */
  function Filter<T(!new)>(s: seq<T>, p: T -> bool): (r: seq<T>)
    ensures |r| <= |s|
    ensures forall x :: x in r <==> x in s && p(x)
    ensures forall i :: 0 <= i < |r| ==> p(r[i])
  {
    if s == [] then []
    else if p(s[0]) then [s[0]] + Filter(s[1..], p)
    else Filter(s[1..], p)
  }

  /** Filtering distributes over concatenation, so it keeps the input order. */
  lemma {:induction false} FilterAppend<T(!new)>(a: seq<T>, b: seq<T>, p: T -> bool)
    ensures Filter(a + b, p) == Filter(a, p) + Filter(b, p)
  {
    if a == [] {
      assert a + b == b;
    } else {
      assert (a + b)[0] == a[0] && (a + b)[1..] == a[1..] + b;
      FilterAppend(a[1..], b, p);
    }
  }

  /** Nothing passes, nothing is kept. */
  lemma FilterNone<T(!new)>(s: seq<T>, p: T -> bool)
    requires forall x :: x in s ==> !p(x)
    ensures Filter(s, p) == []
  {
  }

  /** Filtering keeps the list intact exactly when every element passes. */
  lemma {:induction false} FilterKeepsAll<T(!new)>(s: seq<T>, p: T -> bool)
    ensures Filter(s, p) == s <==> forall i :: 0 <= i < |s| ==> p(s[i])
  {
    if s != [] {
      FilterKeepsAll(s[1..], p);
      if !p(s[0]) {
        assert |Filter(s, p)| < |s| by { assert |Filter(s[1..], p)| <= |s[1..]|; }
      } else {
        assert forall i :: 1 <= i < |s| ==> s[i] == s[1..][i - 1];
      }
    }
  }

  /** Filtering with two predicates that can never both hold splits the list. */
  lemma {:induction false} FilterSplit<T(!new)>(s: seq<T>, p: T -> bool, q: T -> bool)
    requires forall x :: x in s ==> p(x) != q(x)
    ensures |Filter(s, p)| + |Filter(s, q)| == |s|
  {
    if s != [] {
      FilterSplit(s[1..], p, q);
    }
  }

  /** Filtering with a weaker predicate keeps at least as many elements. */
  lemma {:induction false} FilterWeaker<T(!new)>(s: seq<T>, p: T -> bool, q: T -> bool)
    requires forall x :: x in s && p(x) ==> q(x)
    ensures |Filter(s, p)| <= |Filter(s, q)|
  {
    if s != [] {
      FilterWeaker(s[1..], p, q);
    }
  }

  /** Filtering twice is filtering once with the conjunction. */
  lemma {:induction false} FilterFilter<T(!new)>(s: seq<T>, p: T -> bool, q: T -> bool, pq: T -> bool)
    requires forall x :: x in s ==> (pq(x) <==> p(x) && q(x))
    ensures Filter(Filter(s, p), q) == Filter(s, pq)
  {
    if s != [] {
      FilterFilter(s[1..], p, q, pq);
    }
  }

  /** `s.reduce((sum, x) => sum + f(x), 0)` on exact amounts. */
  function Sum<T>(s: seq<T>, f: T -> real): real
  {
    if s == [] then 0.0 else f(s[0]) + Sum(s[1..], f)
  }

  /** A sum of non-negative amounts is non-negative. */
  lemma {:induction false} SumNonNegative<T(!new)>(s: seq<T>, f: T -> real)
    requires forall x :: x in s ==> f(x) >= 0.0
    ensures Sum(s, f) >= 0.0
  {
    if s != [] {
      SumNonNegative(s[1..], f);
    }
  }

  /** Summing over a filtered list never exceeds the full sum when amounts are non-negative. */
  lemma {:induction false} SumFilterAtMost<T(!new)>(s: seq<T>, f: T -> real, p: T -> bool)
    requires forall x :: x in s ==> f(x) >= 0.0
    ensures Sum(Filter(s, p), f) <= Sum(s, f)
  {
    if s != [] {
      SumFilterAtMost(s[1..], f, p);
    }
  }

  /** `s.findIndex(p)`, with `None` for -1. */
  function FindIndex<T>(s: seq<T>, p: T -> bool): (r: Option<nat>)
    ensures r.Some? ==> r.value < |s| && p(s[r.value])
    ensures r.Some? ==> forall j :: 0 <= j < r.value ==> !p(s[j])
    ensures r.None? <==> forall j :: 0 <= j < |s| ==> !p(s[j])
  {
    if s == [] then None
    else if p(s[0]) then Some(0)
    else match FindIndex(s[1..], p)
      case None => None
      case Some(k) => Some(k + 1)
  }

  /** `s.find(p)`: the first element satisfying `p`, or `undefined`. */
  function Find<T(!new)>(s: seq<T>, p: T -> bool): (r: Option<T>)
    ensures r.Some? ==> r.value in s && p(r.value)
    ensures r.None? <==> forall x :: x in s ==> !p(x)
    ensures r.Some? ==> exists k :: 0 <= k < |s| && s[k] == r.value && forall j :: 0 <= j < k ==> !p(s[j])
  {
    match FindIndex(s, p)
    case None => None
    case Some(k) => Some(s[k])
  }

  /** Being the first element to pass: the value `Find` returns, stated by position. */
  lemma FindIsFirst<T(!new)>(s: seq<T>, p: T -> bool, k: nat)
    requires k < |s| && p(s[k]) && forall j :: 0 <= j < k ==> !p(s[j])
    ensures Find(s, p) == Some(s[k])
  {
  }

  /** Keys never increase along the list. */
  ghost predicate SortedDesc<T>(s: seq<T>, key: T -> real)
  {
    forall i, j :: 0 <= i < j < |s| ==> key(s[i]) >= key(s[j])
  }

  /**
   * Insert `x` into a list sorted by decreasing key, before the first
   * element whose key is not larger, so that equal keys keep input order.
   */
  function Insert<T(!new)>(x: T, s: seq<T>, key: T -> real): (r: seq<T>)
    ensures multiset(r) == multiset(s) + multiset{x}
    ensures |r| == |s| + 1
  {
    if s == [] || key(s[0]) <= key(x) then [x] + s
    else
      assert s == [s[0]] + s[1..];
      [s[0]] + Insert(x, s[1..], key)
  }

  /** A sorted list stays sorted under a head whose key bounds all of it. */
  lemma SortedCons<T>(h: T, rest: seq<T>, key: T -> real)
    requires SortedDesc(rest, key)
    requires forall y :: y in rest ==> key(h) >= key(y)
    ensures SortedDesc([h] + rest, key)
  {
    var r := [h] + rest;
    forall i, j | 0 <= i < j < |r| ensures key(r[i]) >= key(r[j]) {
      assert r[j] == rest[j - 1];
      if i > 0 {
        assert r[i] == rest[i - 1];
      } else {
        assert rest[j - 1] in rest;
      }
    }
  }

  /** The tail of a sorted list is sorted, and its head bounds it. */
  lemma SortedTail<T>(s: seq<T>, key: T -> real)
    requires s != [] && SortedDesc(s, key)
    ensures SortedDesc(s[1..], key)
    ensures forall y :: y in s[1..] ==> key(s[0]) >= key(y)
  {
    var tail := s[1..];
    forall i, j | 0 <= i < j < |tail| ensures key(tail[i]) >= key(tail[j]) {
      assert tail[i] == s[i + 1] && tail[j] == s[j + 1];
    }
    forall y | y in tail ensures key(s[0]) >= key(y) {
      var m :| 0 <= m < |tail| && tail[m] == y;
      assert s[m + 1] == y;
    }
  }

  lemma {:induction false} InsertSorted<T(!new)>(x: T, s: seq<T>, key: T -> real)
    requires SortedDesc(s, key)
    ensures SortedDesc(Insert(x, s, key), key)
  {
    if s != [] && key(s[0]) > key(x) {
      var tail := s[1..];
      SortedTail(s, key);
      var rest := Insert(x, tail, key);
      InsertSorted(x, tail, key);
      forall y | y in rest ensures key(s[0]) >= key(y) {
        assert y in multiset(rest);
        if y != x {
          assert y in multiset(tail);
        }
      }
      SortedCons(s[0], rest, key);
    }
  }

  lemma Regroup<T>(a: seq<T>, b: seq<T>, c: seq<T>, d: seq<T>)
    ensures a + (b + c + d) == a + b + c + d
  {
  }

  /** Putting the head back in front of a split of the tail is the same split of the whole list. */
  lemma ConsSplit<T>(s: seq<T>, k: nat, x: T)
    requires 0 < k <= |s|
    ensures [s[0]] + (s[1..][..k - 1] + [x] + s[1..][k - 1..]) == s[..k] + [x] + s[k..]
  {
    var front, back := s[1..][..k - 1], s[1..][k - 1..];
    assert s[..k] == [s[0]] + front;
    assert s[k..] == back;
    Regroup([s[0]], front, [x], back);
  }

  /** `Insert` places `x` just before the first element whose key is not larger than its own. */
  lemma {:induction false} InsertAt<T(!new)>(x: T, s: seq<T>, key: T -> real, k: nat)
    requires k <= |s|
    requires forall m :: 0 <= m < k ==> key(s[m]) > key(x)
    requires k == |s| || key(s[k]) <= key(x)
    ensures Insert(x, s, key) == s[..k] + [x] + s[k..]
  {
    if k == 0 {
      assert s[..k] + [x] + s[k..] == [x] + s;
    } else {
      var rest := s[1..];
      assert key(s[0]) > key(x);
      assert Insert(x, s, key) == [s[0]] + Insert(x, rest, key);
      forall m | 0 <= m < k - 1 ensures key(rest[m]) > key(x) {
        assert rest[m] == s[m + 1];
      }
      assert k - 1 == |rest| || rest[k - 1] == s[k];
      InsertAt(x, rest, key, k - 1);
      ConsSplit(s, k, x);
    }
  }

  /**
   * `s.sort((a, b) => key(b) - key(a))`: largest key first.
   * JavaScript's sort is stable, and so is this insertion sort.
   */
  function SortDesc<T(!new)>(s: seq<T>, key: T -> real): (r: seq<T>)
    ensures SortedDesc(r, key)
    ensures multiset(r) == multiset(s)
    ensures |r| == |s|
  {
    if s == [] then []
    else
      assert s == [s[0]] + s[1..];
      var rest := SortDesc(s[1..], key);
      InsertSorted(s[0], rest, key);
      Insert(s[0], rest, key)
  }

  /** Sorting keeps exactly the elements it was given. */
  lemma SortDescSameElements<T(!new)>(s: seq<T>, key: T -> real)
    ensures forall x :: x in SortDesc(s, key) <==> x in s
  {
    var r := SortDesc(s, key);
    forall x ensures x in r <==> x in s {
      assert x in r <==> x in multiset(r);
      assert x in s <==> x in multiset(s);
    }
  }

  /** Sorting a non-empty list inserts its head into its sorted tail. */
  lemma SortDescCons<T(!new)>(s: seq<T>, key: T -> real)
    requires s != []
    ensures SortDesc(s, key) == Insert(s[0], SortDesc(s[1..], key), key)
  {
  }

  /** `s.slice(0, n)`. */
  function Take<T>(s: seq<T>, n: nat): (r: seq<T>)
    ensures |r| == if |s| < n then |s| else n
    ensures r <= s
  {
    if |s| < n then s else s[..n]
  }

  /**
   * The first `n` of a list sorted by decreasing key are its top `n`: an
   * element left out has a key no larger than any element kept.
   */
  lemma TakeKeepsTop<T>(s: seq<T>, key: T -> real, n: nat, k: nat)
    requires SortedDesc(s, key) && k < |s| && s[k] !in Take(s, n)
    ensures |Take(s, n)| == n
    ensures forall i :: 0 <= i < n ==> key(Take(s, n)[i]) >= key(s[k])
  {
    assert forall i :: 0 <= i < |Take(s, n)| ==> s[i] in Take(s, n);
  }

  /** `new Set(s.map(f))`: the keys of the list's elements. */
  function Image<T(==), K>(s: seq<T>, f: T -> K): (r: set<K>)
    ensures forall x :: x in s ==> f(x) in r
  {
    set x | x in s :: f(x)
  }

  /** A list has no more distinct keys than elements, and has one when it is not empty. */
  lemma {:induction false} ImageSizeAtMost<T, K>(s: seq<T>, f: T -> K)
    ensures |Image(s, f)| <= |s|
    ensures s == [] <==> Image(s, f) == {}
  {
    if s != [] {
      ImageSizeAtMost(s[1..], f);
      assert Image(s, f) == Image(s[1..], f) + {f(s[0])};
    }
  }
}
