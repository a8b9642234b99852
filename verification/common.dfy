/** Stock result types shared by every module of the project. */
module Common {

  datatype Option<+T> = None | Some(value: T)

  datatype Result<+T, +E> = Ok(value: T) | Err(error: E)

  predicate NoRepeats<T(==)>(s: seq<T>) {
    forall i, j :: 0 <= i < j < |s| ==> s[i] != s[j]
  }

  lemma NoRepeatsSnoc<T>(s: seq<T>, x: T)
    requires NoRepeats(s) && x !in s
    ensures NoRepeats(s + [x])
  {
  }

  lemma {:induction false} SubsetCount<T>(a: set<T>, b: set<T>)
    requires a <= b
    ensures |a| <= |b|
  {
    if a != {} {
      var x :| x in a;
      SubsetCount(a - {x}, b - {x});
    }
  }

  lemma {:induction false} FewerThanListed<T>(s: set<T>, list: seq<T>)
    requires forall x :: x in s ==> x in list
    ensures |s| <= |list|
  {
    if list == [] {
      assert s == {};
    } else {
      var last := list[|list| - 1];
      assert list == list[..|list| - 1] + [last];
      FewerThanListed(s - {last}, list[..|list| - 1]);
      assert |s| <= |s - {last}| + 1;
    }
  }
}

/** Facts about products and quotients, one at a time. */
module Division {

  lemma MulLess(a: int, b: int, factor: int)
    requires factor > 0 && a * factor < b * factor
    ensures a < b
  {
  }

  lemma Distribute(q: int, x: int)
    ensures (q + 1) * x == q * x + x
  {
  }

  lemma QuotientFits(a: nat, n: nat)
    requires n > 0
    ensures (a / n) * n <= a
  {
    assert a == (a / n) * n + a % n;
  }

  lemma MulMonotone(a: nat, b: nat, factor: nat)
    requires a <= b
    ensures a * factor <= b * factor
  {
  }

  lemma QuotientAtMost(q: nat, r: nat, q': nat, r': nat, n: nat)
    requires r < n && r' < n && q * n + r == q' * n + r'
    ensures q <= q'
  {
    assert (q - q') * n == r' - r;
    MulLess(q - q', 1, n);
  }

  lemma DivModIs(a: nat, n: nat, q: nat, r: nat)
    requires n > 0 && a == q * n + r && r < n
    ensures a / n == q && a % n == r
  {
    assert a == (a / n) * n + a % n;
    QuotientAtMost(q, r, a / n, a % n, n);
    QuotientAtMost(a / n, a % n, q, r, n);
  }
}
