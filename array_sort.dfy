/** `Array.prototype.sort` with a comparator `(a, b) => key(b) - key(a)`:
    an in-place sort into non-increasing key order. */
module ArraySort {

  /** Keys never increase from left to right. */
  ghost predicate SortedDescending<T>(s: seq<T>, key: T -> int) {
    forall i, j :: 0 <= i < j < |s| ==> key(s[i]) >= key(s[j])
  }

  /** Exchange two cells of `a`. */
  method Swap<T>(a: array<T>, i: int, j: int)
    requires 0 <= i < a.Length && 0 <= j < a.Length
    modifies a
    ensures a[..] == old(a[..])[i := old(a[j])][j := old(a[i])]
    ensures multiset(a[..]) == multiset(old(a[..]))
  {
    a[i], a[j] := a[j], a[i];
  }

  /** Sort `a` in place by insertion: each element moves left past every
      element with a smaller key. The result is ordered by non-increasing
      key and holds the same elements as before. */
  method SortDescendingBy<T>(a: array<T>, key: T -> int)
    modifies a
    ensures SortedDescending(a[..], key)
    ensures multiset(a[..]) == multiset(old(a[..]))
  {
    if a.Length == 0 {
      return;
    }
    var i := 1;
    while i < a.Length
      invariant 1 <= i <= a.Length
      invariant SortedDescending(a[..i], key)
      invariant multiset(a[..]) == multiset(old(a[..]))
    {
      var j := i;
      while j > 0 && key(a[j - 1]) < key(a[j])
        invariant 0 <= j <= i
        invariant forall p, q :: 0 <= p < q <= i && p != j && q != j ==> key(a[p]) >= key(a[q])
        invariant forall q :: j < q <= i ==> key(a[j]) >= key(a[q])
        invariant multiset(a[..]) == multiset(old(a[..]))
      {
        Swap(a, j - 1, j);
        j := j - 1;
      }
      i := i + 1;
    }
    assert a[..] == a[..i];
  }
}
