/** `np.interp` and `np.linspace` over exact reals: clamped piecewise-linear
    interpolation through strictly increasing sample points. */
module Interpolation {

  predicate Increasing(xs: seq<real>) {
    forall i :: 0 <= i < |xs| - 1 ==> xs[i] < xs[i + 1]
  }

  predicate AllWithin(ys: seq<real>, lo: real, hi: real) {
    forall i :: 0 <= i < |ys| ==> lo <= ys[i] <= hi
  }

  predicate NonDecreasing(ys: seq<real>) {
    forall i :: 0 <= i < |ys| - 1 ==> ys[i] <= ys[i + 1]
  }

  lemma {:induction false} IncreasingPair(xs: seq<real>, i: int, j: int)
    requires Increasing(xs) && 0 <= i < j < |xs|
    ensures xs[i] < xs[j]
    decreases j - i
  {
    if j > i + 1 {
      IncreasingPair(xs, i + 1, j);
    }
  }

  lemma {:induction false} NonDecreasingPair(ys: seq<real>, i: int, j: int)
    requires NonDecreasing(ys) && 0 <= i <= j < |ys|
    ensures ys[i] <= ys[j]
    decreases j - i
  {
    if j > i {
      NonDecreasingPair(ys, i + 1, j);
    }
  }

  /** The straight line through `(x0, y0)` and `(x1, y1)` evaluated at `x`. */
  function Segment(x: real, x0: real, x1: real, y0: real, y1: real): real
    requires x0 < x1
  {
    y0 + (x - x0) * (y1 - y0) / (x1 - x0)
  }

  /** Dividing a product by `d` scales one factor by `1/d`. */
  lemma ScaleDiv(p: real, q: real, d: real)
    requires d != 0.0
    ensures p * q / d == (p / d) * q
  {
    var t := p / d;
    assert t * d == p;
    assert p * q == (t * q) * d;
  }

  /** On `[x0, x1]` the line stays between its end values and meets them at
      the ends. */
  lemma SegmentBetween(x: real, x0: real, x1: real, y0: real, y1: real)
    requires x0 < x1 && x0 <= x <= x1
    ensures y0 <= y1 ==> y0 <= Segment(x, x0, x1, y0, y1) <= y1
    ensures y1 <= y0 ==> y1 <= Segment(x, x0, x1, y0, y1) <= y0
    ensures x == x1 ==> Segment(x, x0, x1, y0, y1) == y1
    ensures x == x0 ==> Segment(x, x0, x1, y0, y1) == y0
  {
    var t := (x - x0) / (x1 - x0);
    assert 0.0 <= t <= 1.0;
    ScaleDiv(x - x0, y1 - y0, x1 - x0);
    if y0 <= y1 {
      assert 0.0 <= t * (y1 - y0) <= y1 - y0;
    } else {
      assert y1 - y0 <= t * (y1 - y0) <= 0.0;
    }
  }

  /** On `[x0, x1]` a rising or flat line does not decrease. */
  lemma SegmentMonotone(a: real, b: real, x0: real, x1: real, y0: real, y1: real)
    requires x0 < x1 && a <= b && y0 <= y1
    ensures Segment(a, x0, x1, y0, y1) <= Segment(b, x0, x1, y0, y1)
  {
    var ta := (a - x0) / (x1 - x0);
    var tb := (b - x0) / (x1 - x0);
    assert ta <= tb;
    ScaleDiv(a - x0, y1 - y0, x1 - x0);
    ScaleDiv(b - x0, y1 - y0, x1 - x0);
    assert ta * (y1 - y0) <= tb * (y1 - y0);
  }

  /** `np.interp(x, xs, ys)`: the first value left of the first sample
      point, the last value right of the last one, and the line through
      the two neighbouring samples in between. */
  function Interp(x: real, xs: seq<real>, ys: seq<real>): (y: real)
    requires |xs| == |ys| > 0 && Increasing(xs)
    ensures x <= xs[0] ==> y == ys[0]
    ensures xs[|xs| - 1] <= x ==> y == ys[|ys| - 1]
    decreases |xs|
  {
    if |xs| == 1 then ys[0]
    else if x <= xs[0] then
      IncreasingPair(xs, 0, |xs| - 1);
      ys[0]
    else if x <= xs[1] then
      assert |xs| > 2 ==> xs[1] < xs[|xs| - 1] by {
        if |xs| > 2 { IncreasingPair(xs, 1, |xs| - 1); }
      }
      SegmentBetween(x, xs[0], xs[1], ys[0], ys[1]);
      Segment(x, xs[0], xs[1], ys[0], ys[1])
    else Interp(x, xs[1..], ys[1..])
  }

  /** Interpolation never leaves the range of the sample values. */
  lemma {:induction false} InterpWithin(x: real, xs: seq<real>, ys: seq<real>, lo: real, hi: real)
    requires |xs| == |ys| > 0 && Increasing(xs)
    requires AllWithin(ys, lo, hi)
    ensures lo <= Interp(x, xs, ys) <= hi
    decreases |xs|
  {
    if x <= xs[0] || |xs| == 1 {
    } else if x <= xs[1] {
      SegmentBetween(x, xs[0], xs[1], ys[0], ys[1]);
    } else {
      InterpWithin(x, xs[1..], ys[1..], lo, hi);
    }
  }

  /** At every sample point interpolation returns that sample's value. */
  lemma {:induction false} InterpAtSample(xs: seq<real>, ys: seq<real>, k: int)
    requires |xs| == |ys| > 0 && Increasing(xs)
    requires 0 <= k < |xs|
    ensures Interp(xs[k], xs, ys) == ys[k]
    decreases |xs|
  {
    if k == 0 {
    } else {
      IncreasingPair(xs, 0, k);
      if k == 1 {
        SegmentBetween(xs[1], xs[0], xs[1], ys[0], ys[1]);
      } else {
        IncreasingPair(xs, 1, k);
        InterpAtSample(xs[1..], ys[1..], k - 1);
      }
    }
  }

  /** Interpolating nondecreasing sample values gives a nondecreasing
      function. */
  lemma {:induction false} InterpMonotone(a: real, b: real, xs: seq<real>, ys: seq<real>)
    requires |xs| == |ys| > 0 && Increasing(xs) && NonDecreasing(ys)
    requires a <= b
    ensures Interp(a, xs, ys) <= Interp(b, xs, ys)
    decreases |xs|
  {
    if |xs| == 1 {
    } else if a <= xs[0] {
      InterpWithin(b, xs, ys, ys[0], ys[|ys| - 1]) by {
        forall i | 0 <= i < |ys|
          ensures ys[0] <= ys[i] <= ys[|ys| - 1]
        {
          NonDecreasingPair(ys, 0, i);
          NonDecreasingPair(ys, i, |ys| - 1);
        }
      }
    } else if a <= xs[1] {
      SegmentBetween(a, xs[0], xs[1], ys[0], ys[1]);
      if b <= xs[1] {
        SegmentMonotone(a, b, xs[0], xs[1], ys[0], ys[1]);
      } else {
        var rest := ys[1..];
        InterpWithin(b, xs[1..], rest, ys[1], ys[|ys| - 1]) by {
          forall i | 0 <= i < |rest|
            ensures ys[1] <= rest[i] <= ys[|ys| - 1]
          {
            NonDecreasingPair(ys, 1, i + 1);
            NonDecreasingPair(ys, i + 1, |ys| - 1);
          }
        }
      }
    } else {
      InterpMonotone(a, b, xs[1..], ys[1..]);
    }
  }

  predicate NonIncreasing(ys: seq<real>) {
    forall i :: 0 <= i < |ys| - 1 ==> ys[i] >= ys[i + 1]
  }

  /** The sample values with their signs flipped. */
  function Negated(ys: seq<real>): (r: seq<real>)
    ensures |r| == |ys|
    ensures forall i :: 0 <= i < |ys| ==> r[i] == -ys[i]
  {
    seq(|ys|, i requires 0 <= i < |ys| => -ys[i])
  }

  lemma SegmentNegated(x: real, x0: real, x1: real, y0: real, y1: real)
    requires x0 < x1
    ensures Segment(x, x0, x1, -y0, -y1) == -Segment(x, x0, x1, y0, y1)
  {
    assert (x - x0) * (-y1 - -y0) == -((x - x0) * (y1 - y0));
  }

  /** Interpolation is linear in the sample values: flipping their signs
      flips the sign of every interpolated value. */
  lemma {:induction false} InterpNegated(x: real, xs: seq<real>, ys: seq<real>)
    requires |xs| == |ys| > 0 && Increasing(xs)
    ensures Interp(x, xs, Negated(ys)) == -Interp(x, xs, ys)
    decreases |xs|
  {
    if |xs| == 1 || x <= xs[0] {
    } else if x <= xs[1] {
      SegmentNegated(x, xs[0], xs[1], ys[0], ys[1]);
    } else {
      assert Negated(ys)[1..] == Negated(ys[1..]);
      InterpNegated(x, xs[1..], ys[1..]);
    }
  }

  /** Interpolating nonincreasing sample values gives a nonincreasing
      function. */
  lemma InterpAntitone(a: real, b: real, xs: seq<real>, ys: seq<real>)
    requires |xs| == |ys| > 0 && Increasing(xs) && NonIncreasing(ys)
    requires a <= b
    ensures Interp(a, xs, ys) >= Interp(b, xs, ys)
  {
    InterpMonotone(a, b, xs, Negated(ys));
    InterpNegated(a, xs, ys);
    InterpNegated(b, xs, ys);
  }

  /** `np.linspace(a, b, n)`: `n` evenly spaced points from `a` to `b`. */
  function Linspace(a: real, b: real, n: nat): (s: seq<real>)
    requires n >= 2
    ensures |s| == n
    ensures s[0] == a && s[n - 1] == b
    ensures a < b ==> Increasing(s)
  {
    var m := (n - 1) as real;
    var step := (b - a) / m;
    var s := seq(n, i => LinspacePoint(a, step, i as real));
    LinspaceLastPoint(a, b, m);
    assert s[n - 1] == LinspacePoint(a, step, m);
    assert a < b ==> Increasing(s) by {
      if a < b {
        assert step > 0.0;
        forall i | 0 <= i < n - 1
          ensures s[i] < s[i + 1]
        {
          assert s[i + 1] == LinspacePoint(a, step, i as real + 1.0) == s[i] + step;
        }
      }
    }
    s
  }

  function LinspacePoint(a: real, step: real, i: real): real {
    a + i * step
  }

  lemma LinspaceLastPoint(a: real, b: real, m: real)
    requires m > 0.0
    ensures LinspacePoint(a, (b - a) / m, m) == b
  {
    assert m * ((b - a) / m) == b - a;
  }
}
