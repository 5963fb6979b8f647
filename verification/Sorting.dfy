/** Sorting with repeats removed, as `sort` followed by `dedup`. */
module Sorting {
  import opened Common

  ghost predicate Asymmetric<T(!new)>(less: (T, T) -> bool) {
    forall x, y :: less(x, y) ==> !less(y, x)
  }

  ghost predicate TotalOrder<T(!new)>(less: (T, T) -> bool) {
    && Asymmetric(less)
    && (forall x, y, z :: less(x, y) && less(y, z) ==> less(x, z))
    && (forall x, y :: less(x, y) || less(y, x) || x == y)
  }

  ghost predicate Ascends<T>(less: (T, T) -> bool, s: seq<T>) {
    forall i, j :: 0 <= i < j < |s| ==> less(s[i], s[j])
  }

  /** An ascending sequence is determined by its elements. */
  lemma {:induction false} AscendingUnique<T(!new)>(less: (T, T) -> bool, a: seq<T>, b: seq<T>)
    requires Asymmetric(less) && Ascends(less, a) && Ascends(less, b)
    requires forall x :: x in a <==> x in b
    ensures a == b
  {
    if x :| x in a {
      assert x in b;
      HeadIsLeast(less, a, b[0]);
      HeadIsLeast(less, b, a[0]);
      TailElements(less, a);
      TailElements(less, b);
      AscendingUnique(less, a[1..], b[1..]);
      assert a == [a[0]] + a[1..] && b == [b[0]] + b[1..];
    } else {
      HasElement(a);
      HasElement(b);
    }
  }

  lemma HasElement<T>(a: seq<T>)
    ensures a == [] || exists x :: x in a
  {
    if a != [] { assert a[0] in a; }
  }

  lemma HeadIsLeast<T(!new)>(less: (T, T) -> bool, a: seq<T>, x: T)
    requires Ascends(less, a) && x in a
    ensures x == a[0] || less(a[0], x)
  {
  }

  lemma TailElements<T(!new)>(less: (T, T) -> bool, a: seq<T>)
    requires Asymmetric(less) && Ascends(less, a) && a != []
    ensures forall x :: x in a[1..] <==> x in a && x != a[0]
  {
    forall x ensures x in a[1..] <==> x in a && x != a[0] {
      assert a == [a[0]] + a[1..];
      if x in a[1..] {
        var i :| 0 <= i < |a| - 1 && a[1..][i] == x;
        assert less(a[0], a[i + 1]);
      }
    }
  }

  /** The place of `x` in an ascending sequence. */
  method Place<T(==, !new)>(less: (T, T) -> bool, s: seq<T>, x: T) returns (k: nat)
    requires TotalOrder(less) && Ascends(less, s)
    ensures k <= |s| && (forall i :: 0 <= i < k ==> less(s[i], x)) && (forall i :: k <= i < |s| ==> !less(s[i], x))
  {
    k := 0;
    while k < |s| && less(s[k], x)
      invariant k <= |s| && forall i :: 0 <= i < k ==> less(s[i], x)
    {
      k := k + 1;
    }
    forall i | k <= i < |s| ensures !less(s[i], x) {
      assert k < i ==> less(s[k], s[i]);
    }
  }

  method SortedUnique<T(==, !new)>(less: (T, T) -> bool, s: seq<T>) returns (r: seq<T>)
    requires TotalOrder(less)
    ensures Ascends(less, r) && forall x :: x in r <==> x in s
  {
    r := [];
    for i := 0 to |s|
      invariant Ascends(less, r) && forall x :: x in r <==> x in s[..i]
    {
      var k := Place(less, r, s[i]);
      assert s[..i + 1] == s[..i] + [s[i]];
      if k == |r| || r[k] != s[i] {
        r := r[..k] + [s[i]] + r[k..];
      }
    }
    assert s[..|s|] == s;
  }

  // ----- orders

  predicate Smaller(a: nat, b: nat) { a < b }

  lemma SmallerOrders()
    ensures TotalOrder(Smaller)
  {
  }

  /** The order of texts: by the first character that differs. */
  predicate Precedes(a: string, b: string) {
    b != "" && (a == "" || a[0] < b[0] || (a[0] == b[0] && Precedes(a[1..], b[1..])))
  }

  lemma {:induction false} PrecedesOne(a: string, b: string)
    ensures !(Precedes(a, b) && Precedes(b, a)) && (Precedes(a, b) || Precedes(b, a) || a == b)
  {
    if a != "" && b != "" {
      PrecedesOne(a[1..], b[1..]);
      assert a == [a[0]] + a[1..] && b == [b[0]] + b[1..];
    }
  }

  lemma {:induction false} PrecedesChains(a: string, b: string, c: string)
    requires Precedes(a, b) && Precedes(b, c)
    ensures Precedes(a, c)
  {
    if a != "" && a[0] == b[0] && b[0] == c[0] {
      PrecedesChains(a[1..], b[1..], c[1..]);
    }
  }

  lemma PrecedesOrders()
    ensures TotalOrder(Precedes)
  {
    forall a, b ensures !(Precedes(a, b) && Precedes(b, a)) && (Precedes(a, b) || Precedes(b, a) || a == b) {
      PrecedesOne(a, b);
    }
    forall a, b, c | Precedes(a, b) && Precedes(b, c) ensures Precedes(a, c) {
      PrecedesChains(a, b, c);
    }
  }

  /** One text comes before another if it is the beginning of it, or has the smaller
      character at the first place where they differ. */
  lemma {:induction false} PrecedesIs(a: string, b: string)
    ensures Precedes(a, b) <==>
            || (|a| < |b| && b[..|a|] == a)
            || exists i :: 0 <= i < |a| && i < |b| && a[..i] == b[..i] && a[i] < b[i]
  {
    if a != "" && b != "" && a[0] == b[0] {
      PrecedesIs(a[1..], b[1..]);
      assert a == [a[0]] + a[1..] && b == [b[0]] + b[1..];
      if |a| < |b| && b[1..][..|a| - 1] == a[1..] { assert b[..|a|] == [b[0]] + b[1..][..|a| - 1]; }
      if |a| < |b| && b[..|a|] == a { assert b[1..][..|a| - 1] == b[..|a|][1..]; }
      if i :| 0 <= i < |a| && i < |b| && a[..i] == b[..i] && a[i] < b[i] {
        assert a[1..][..i - 1] == a[..i][1..] && b[1..][..i - 1] == b[..i][1..];
        assert a[1..][i - 1] < b[1..][i - 1];
      }
      if i :| 0 <= i < |a| - 1 && i < |b| - 1 && a[1..][..i] == b[1..][..i] && a[1..][i] < b[1..][i] {
        assert a[..i + 1] == [a[0]] + a[1..][..i] && b[..i + 1] == [b[0]] + b[1..][..i];
        assert a[i + 1] < b[i + 1];
      }
    } else if a != "" && b != "" && a[0] < b[0] {
      assert a[..0] == b[..0];
    }
  }
}
