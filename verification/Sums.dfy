/** Finite sums of reals and the inequalities between a sum and its squares. */
module Sums {
  function Sum(s: seq<real>): real {
    if s == [] then 0.0 else Sum(s[..|s| - 1]) + s[|s| - 1]
  }

  function Square(x: real): real { x * x }

  function Squares(s: seq<real>): (r: seq<real>)
    ensures |r| == |s| && forall i :: 0 <= i < |s| ==> r[i] == Square(s[i])
  {
    seq(|s|, i requires 0 <= i < |s| => Square(s[i]))
  }

  function Times(a: real, b: real): real { a * b }

  function Ratio(part: real, total: real): real
    requires total != 0.0
  {
    part / total
  }

  function Scale(c: real, s: seq<real>): (r: seq<real>)
    ensures |r| == |s| && forall i :: 0 <= i < |s| ==> r[i] == Times(c, s[i])
  {
    seq(|s|, i requires 0 <= i < |s| => Times(c, s[i]))
  }

  predicate NonNegative(s: seq<real>) {
    forall i :: 0 <= i < |s| ==> s[i] >= 0.0
  }

  lemma SumSnoc(s: seq<real>, x: real)
    ensures Sum(s + [x]) == Sum(s) + x
  {
    assert (s + [x])[..|s|] == s;
  }

  lemma TimesPositive(a: real, b: real)
    requires a > 0.0 && b > 0.0
    ensures Times(a, b) > 0.0
  {}

  lemma SumTake(s: seq<real>, i: nat)
    requires i < |s|
    ensures Sum(s[..i + 1]) == Sum(s[..i]) + s[i]
  {
    assert s[..i + 1] == s[..i] + [s[i]];
    SumSnoc(s[..i], s[i]);
  }

  lemma {:induction false} SumAppend(a: seq<real>, b: seq<real>)
    ensures Sum(a + b) == Sum(a) + Sum(b)
  {
    if b == [] {
      assert a + b == a;
    } else {
      var n := |b| - 1;
      SumAppend(a, b[..n]);
      assert a + b == (a + b[..n]) + [b[n]];
      SumSnoc(a + b[..n], b[n]);
    }
  }

  lemma Distribute(c: real, a: real, b: real)
    ensures Times(c, a + b) == Times(c, a) + Times(c, b)
    ensures Times(c, 0.0) == 0.0
  {}

  lemma RatioAdd(a: real, b: real, total: real)
    requires total != 0.0
    ensures Ratio(a + b, total) == Ratio(a, total) + Ratio(b, total)
    ensures Ratio(0.0, total) == 0.0 && Ratio(total, total) == 1.0
  {
    var r := Ratio(total, total);
    assert r * total == total;
    assert (r - 1.0) * total == 0.0;
  }

  lemma SquareNonNegative(x: real)
    ensures Square(x) >= 0.0
  {
    if x < 0.0 { assert x * x == (-x) * (-x); }
  }

  lemma SquareOfDifference(x: real, y: real)
    ensures Square(y) + Square(x) - 2.0 * x * y >= 0.0
  {
    SquareNonNegative(y - x);
    assert (y - x) * (y - x) == y * y - y * x - x * y + x * x;
  }

  lemma {:induction false} SumScale(c: real, s: seq<real>)
    ensures Sum(Scale(c, s)) == Times(c, Sum(s))
  {
    hide Times;
    if s == [] {
      Distribute(c, 0.0, 0.0);
    } else {
      var n := |s| - 1;
      SumScale(c, s[..n]);
      assert Scale(c, s)[..n] == Scale(c, s[..n]);
      Distribute(c, Sum(s[..n]), s[n]);
    }
  }

  lemma {:induction false} SumAdd(a: seq<real>, b: seq<real>, c: seq<real>)
    requires |a| == |b| == |c| && forall i :: 0 <= i < |a| ==> c[i] == a[i] + b[i]
    ensures Sum(c) == Sum(a) + Sum(b)
  {
    if a != [] {
      var n := |a| - 1;
      SumAdd(a[..n], b[..n], c[..n]);
    }
  }

  lemma {:induction false} SumNonNegative(s: seq<real>)
    requires NonNegative(s)
    ensures Sum(s) >= 0.0
    ensures forall i :: 0 <= i < |s| ==> s[i] <= Sum(s)
  {
    if s != [] { SumNonNegative(s[..|s| - 1]); }
  }

  lemma {:induction false} SumZero(s: seq<real>)
    requires forall i :: 0 <= i < |s| ==> s[i] == 0.0
    ensures Sum(s) == 0.0
  {
    if s != [] { SumZero(s[..|s| - 1]); }
  }

  lemma {:induction false} SumOnes(s: seq<real>)
    requires forall i :: 0 <= i < |s| ==> s[i] == 1.0
    ensures Sum(s) == |s| as real
  {
    if s != [] { SumOnes(s[..|s| - 1]); }
  }

  /** The squared distances to x, spread out. */
  lemma {:induction false} SpreadAround(s: seq<real>, x: real)
    ensures Sum(Squares(s)) + |s| as real * Square(x) - 2.0 * x * Sum(s) >= 0.0
  {
    if s != [] {
      var n := |s| - 1;
      var q, t, y := Sum(Squares(s[..n])), Sum(s[..n]), s[n];
      SpreadAround(s[..n], x);
      assert Squares(s)[..n] == Squares(s[..n]);
      assert |s| as real * Square(x) == n as real * Square(x) + Square(x);
      assert 2.0 * x * (t + y) == 2.0 * x * t + 2.0 * x * y;
      SquareOfDifference(x, y);
    }
  }

  lemma OneMore(n: nat, q: real, y: real)
    ensures (n + 1) as real * (q + y) == n as real * q + n as real * y + q + y
  {}

  /** The square of a sum is at most the number of terms times the sum of the squares. */
  lemma {:induction false} CauchySchwarz(s: seq<real>)
    ensures Square(Sum(s)) <= |s| as real * Sum(Squares(s))
  {
    if s != [] {
      var n := |s| - 1;
      var q, t, y := Sum(Squares(s[..n])), Sum(s[..n]), s[n];
      CauchySchwarz(s[..n]);
      SpreadAround(s[..n], y);
      assert Squares(s)[..n] == Squares(s[..n]);
      assert Square(t + y) == Square(t) + 2.0 * y * t + Square(y);
      OneMore(n, q, Square(y));
    }
  }

  /** Without negative terms the squares never sum to more than the square of the sum. */
  lemma {:induction false} SquaresAtMost(s: seq<real>)
    requires NonNegative(s)
    ensures Sum(Squares(s)) <= Square(Sum(s))
  {
    if s != [] {
      var n := |s| - 1;
      var t, y := Sum(s[..n]), s[n];
      SquaresAtMost(s[..n]);
      SumNonNegative(s[..n]);
      assert Squares(s)[..n] == Squares(s[..n]);
      assert Square(t + y) == Square(t) + 2.0 * (t * y) + Square(y);
      assert t * y >= 0.0;
    }
  }

  // ---------------------------------------------------------------- weighted draws

  /** Where a uniform draw falls on a total. */
  function Target(u: real, total: real): real { Times(u, total) }

  lemma TargetBelow(u: real, total: real)
    requires 0.0 <= u < 1.0 && total > 0.0
    ensures 0.0 <= Target(u, total) < total
  {
    assert (1.0 - u) * total > 0.0;
  }

  /** The target lies in part i of the running sum. */
  predicate Hits(weights: seq<real>, i: int, target: real) {
    0 <= i < |weights| && Sum(weights[..i]) <= target < Sum(weights[..i + 1])
  }

  lemma {:induction false} SumGrows(weights: seq<real>, i: nat, j: nat)
    requires i <= j <= |weights| && forall k :: 0 <= k < |weights| ==> weights[k] > 0.0
    ensures Sum(weights[..i]) <= Sum(weights[..j])
    ensures i < j ==> Sum(weights[..i]) < Sum(weights[..j])
    decreases j
  {
    if i < j {
      SumGrows(weights, i, j - 1);
      SumTake(weights, j - 1);
    }
  }

  /** The parts of positive weights do not overlap and are as wide as the weights. */
  lemma HitsOnce(weights: seq<real>, i: int, j: int, target: real)
    requires forall k :: 0 <= k < |weights| ==> weights[k] > 0.0
    requires Hits(weights, i, target) && Hits(weights, j, target)
    ensures i == j && Sum(weights[..i + 1]) - Sum(weights[..i]) == weights[i]
  {
    if i < j { SumGrows(weights, i + 1, j); }
    if j < i { SumGrows(weights, j + 1, i); }
    SumTake(weights, i);
  }

  // ---------------------------------------------------------------- sums over sets

  /** The sum of f over a set; SetSumAny shows that the order does not matter. */
  ghost function SetSum<T(!new)>(xs: set<T>, f: T -> real): real {
    if xs == {} then 0.0
    else
      var x :| x in xs;
      f(x) + SetSum(xs - {x}, f)
  }

  lemma {:induction false} SetSumAny<T(!new)>(xs: set<T>, f: T -> real, y: T)
    requires y in xs
    ensures SetSum(xs, f) == f(y) + SetSum(xs - {y}, f)
    decreases |xs|
  {
    var x :| x in xs && SetSum(xs, f) == f(x) + SetSum(xs - {x}, f);
    if x != y {
      SetSumAny(xs - {x}, f, y);
      SetSumAny(xs - {y}, f, x);
      assert xs - {x} - {y} == xs - {y} - {x};
    }
  }

  lemma SetSumAdd<T(!new)>(xs: set<T>, f: T -> real, y: T)
    requires y !in xs
    ensures SetSum(xs + {y}, f) == SetSum(xs, f) + f(y)
  {
    SetSumAny(xs + {y}, f, y);
    assert xs + {y} - {y} == xs;
  }

  lemma {:induction false} SetSumSame<T(!new)>(xs: set<T>, f: T -> real, g: T -> real)
    requires forall x :: x in xs ==> f(x) == g(x)
    ensures SetSum(xs, f) == SetSum(xs, g)
    decreases |xs|
  {
    if xs != {} {
      var x :| x in xs;
      SetSumAny(xs, f, x);
      SetSumAny(xs, g, x);
      SetSumSame(xs - {x}, f, g);
    }
  }

  lemma {:induction false} SetSumPlus<T(!new)>(xs: set<T>, f: T -> real, g: T -> real, h: T -> real)
    requires forall x :: x in xs ==> h(x) == f(x) + g(x)
    ensures SetSum(xs, h) == SetSum(xs, f) + SetSum(xs, g)
    decreases |xs|
  {
    if xs != {} {
      var x :| x in xs;
      SetSumAny(xs, f, x);
      SetSumAny(xs, g, x);
      SetSumAny(xs, h, x);
      SetSumPlus(xs - {x}, f, g, h);
    }
  }

  lemma {:induction false} SetSumConstant<T(!new)>(xs: set<T>, f: T -> real, c: real)
    requires forall x :: x in xs ==> f(x) == c
    ensures SetSum(xs, f) == Times(|xs| as real, c)
    decreases |xs|
  {
    if xs != {} {
      var x :| x in xs;
      SetSumAny(xs, f, x);
      SetSumConstant(xs - {x}, f, c);
      assert |xs| as real == |xs - {x}| as real + 1.0;
      OneMoreTimes(|xs - {x}| as real, c);
    }
  }

  lemma OneMoreTimes(n: real, c: real)
    ensures Times(n + 1.0, c) == Times(n, c) + c
  {}
}
