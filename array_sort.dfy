/**
 * `Array.prototype.sort` with a comparator `(a, b) => key(b) - key(a)`, as
 * the screens call it: on the array itself, largest key first, and stable,
 * so elements with equal keys keep their order.
 */
module ArraySort {
  import Seqs

  /**
   * One pass: `a[i]` moves rightwards past every later element whose key
   * is strictly larger, and those shift one place left.
   */
  method InsertFrom<T(!new)>(a: array<T>, i: nat, key: T -> real)
    requires i < a.Length
    modifies a
    ensures a[..i] == old(a[..i])
    ensures a[i..] == Seqs.Insert(old(a[i]), old(a[i + 1..]), key)
  {
    ghost var prefix := a[..i];
    ghost var sorted := a[i + 1..];
    var x := a[i];
    var j := i;
    while j + 1 < a.Length && key(a[j + 1]) > key(x)
      invariant i <= j < a.Length
      invariant a[..i] == prefix
      invariant a[i..j] == sorted[..j - i]
      invariant a[j + 1..] == sorted[j - i..]
      invariant forall m :: 0 <= m < j - i ==> key(sorted[m]) > key(x)
    {
      ghost var before := a[..];
      a[j] := a[j + 1];
      ShiftStep(before, a[..], i, j, prefix, sorted);
      j := j + 1;
    }
    Seqs.InsertAt(x, sorted, key, j - i);
    ghost var before := a[..];
    a[j] := x;
    WriteInside(before, a[..], i, j, x);
  }

  /** Copying the element after the gap into it moves the gap one place right. */
  lemma ShiftStep<T>(before: seq<T>, after: seq<T>, i: nat, j: nat, prefix: seq<T>, sorted: seq<T>)
    requires i <= j && j + 1 < |before| && j - i < |sorted| && after == before[j := before[j + 1]]
    requires before[..i] == prefix && before[i..j] == sorted[..j - i] && before[j + 1..] == sorted[j - i..]
    ensures after[..i] == prefix
    ensures after[i..j + 1] == sorted[..j + 1 - i]
    ensures after[j + 2..] == sorted[j + 1 - i..]
  {
    assert after[i..j + 1] == before[i..j] + [before[j + 1]];
    assert before[j + 1] == before[j + 1..][0] == sorted[j - i];
    assert sorted[..j + 1 - i] == sorted[..j - i] + [sorted[j - i]];
    assert after[j + 2..] == before[j + 1..][1..];
  }

  /** Writing `x` at `j` changes nothing before `i`, and puts `x` between the unchanged pieces. */
  lemma WriteInside<T>(before: seq<T>, after: seq<T>, i: nat, j: nat, x: T)
    requires i <= j < |before| && after == before[j := x]
    ensures after[..i] == before[..i]
    ensures after[i..] == before[i..j] + [x] + before[j + 1..]
  {
  }

  /** Passes run from the right end leftwards; the sorted suffix grows by one each time. */
  method SortDescInPlace<T(!new)>(a: array<T>, key: T -> real)
    modifies a
    ensures a[..] == Seqs.SortDesc(old(a[..]), key)
  {
    ghost var orig := a[..];
    var n := a.Length;
    if n == 0 {
      return;
    }
    Seqs.SortDescCons(orig[n - 1..], key);
    assert orig[n - 1..][1..] == [];
    var i := n - 1;
    while i > 0
      invariant 0 <= i < n
      invariant a[..i] == orig[..i]
      invariant a[i..] == Seqs.SortDesc(orig[i..], key)
    {
      assert a[i - 1] == a[..i][i - 1] == orig[..i][i - 1];
      i := i - 1;
      ghost var tail := orig[i..];
      assert a[i] == tail[0];
      assert tail[1..] == orig[i + 1..];
      InsertFrom(a, i, key);
      Seqs.SortDescCons(tail, key);
    }
  }
}
