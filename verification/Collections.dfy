/** Finite sums over sets, and sequences without repetition. */
module Collections {

  datatype Option<+T> = None | Some(value: T)

  type byte = b: int | 0 <= b < 256
  type bytes = seq<byte>

  // ---------------------------------------------------------------- sums

  ghost function Sum<T>(xs: set<T>, f: T -> int): int {
    if xs == {} then 0
    else
      var x :| x in xs;
      f(x) + Sum(xs - {x}, f)
  }

  /** The sum does not depend on the order in which elements are picked. */
  lemma {:induction false} SumPick<T>(xs: set<T>, f: T -> int, x: T)
    requires x in xs
    ensures Sum(xs, f) == f(x) + Sum(xs - {x}, f)
    decreases xs
  {
    var y :| y in xs && Sum(xs, f) == f(y) + Sum(xs - {y}, f);
    if y != x {
      SumPick(xs - {y}, f, x);
      SumPick(xs - {x}, f, y);
      assert xs - {y} - {x} == xs - {x} - {y};
    }
  }

  lemma {:induction false} SumSame<T>(xs: set<T>, f: T -> int, g: T -> int)
    requires forall x :: x in xs ==> f(x) == g(x)
    ensures Sum(xs, f) == Sum(xs, g)
    decreases xs
  {
    if xs != {} {
      var x :| x in xs;
      SumPick(xs, f, x);
      SumPick(xs, g, x);
      SumSame(xs - {x}, f, g);
    }
  }

  lemma {:induction false} SumAtMost<T>(xs: set<T>, f: T -> int, g: T -> int)
    requires forall x :: x in xs ==> f(x) <= g(x)
    ensures Sum(xs, f) <= Sum(xs, g)
    decreases xs
  {
    if xs != {} {
      var x :| x in xs;
      SumPick(xs, f, x);
      SumPick(xs, g, x);
      SumAtMost(xs - {x}, f, g);
    }
  }

  /** Two summands that agree away from `x` give sums that differ by the difference at `x`. */
  lemma SumChange<T>(xs: set<T>, f: T -> int, g: T -> int, x: T)
    requires x in xs
    requires forall y :: y in xs && y != x ==> f(y) == g(y)
    ensures Sum(xs, g) == Sum(xs, f) + g(x) - f(x)
  {
    SumPick(xs, f, x);
    SumPick(xs, g, x);
    SumSame(xs - {x}, f, g);
  }

  lemma {:induction false} SumCovers<T>(xs: set<T>, f: T -> int, x: T)
    requires x in xs && forall y :: y in xs ==> 0 <= f(y)
    ensures f(x) <= Sum(xs, f)
    decreases xs
  {
    SumPick(xs, f, x);
    if xs != {x} {
      var y :| y in xs - {x};
      SumCovers(xs - {x}, f, y);
    }
  }

  // ----------------------------------------------------------- sequences

  ghost predicate NoDup<T>(s: seq<T>) {
    forall i, j :: 0 <= i < j < |s| ==> s[i] != s[j]
  }

  lemma {:induction false} NoDupBound<T>(s: seq<T>, xs: set<T>)
    requires NoDup(s)
    requires forall i :: 0 <= i < |s| ==> s[i] in xs
    ensures |s| <= |xs|
  {
    if s != [] {
      var n := |s| - 1;
      assert |xs - {s[n]}| == |xs| - 1;
      NoDupBound(s[..n], xs - {s[n]});
    }
  }
}
