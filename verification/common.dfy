/** Shared vocabulary of the channel pipeline: optional values, tagged
    success/failure results, and two-dimensional array shapes. */
module Common {

  /** Python's `None` versus a present value. */
  datatype Option<+T> = None | Some(value: T) {
    function GetOr(default: T): T {
      match this
      case Some(v) => v
      case None => default
    }
  }

  /** A result that either carries a value or the reason it failed
      (an exception caught and turned into a return value). */
  datatype Outcome<+T> = Ok(value: T) | Fail(reason: string)

  /** The `(rows, cols)` shape tuple of a two-dimensional numpy array. */
  datatype Shape = Shape(rows: nat, cols: nat) {
    function Pixels(): nat {
      rows * cols
    }
  }

  /** `1024 * 1024`: both stores report sizes in these megabytes. */
  const BytesPerMb: real := 1048576.0

  /** Python's `int(x)` on a real: truncation toward zero. */
  function Trunc(x: real): (r: int)
    ensures 0.0 <= x ==> r as real <= x < r as real + 1.0
    ensures x < 0.0 ==> r as real - 1.0 < x <= r as real
    ensures 0.0 <= x ==> 0 <= r
  {
    if x >= 0.0 then x.Floor else -((-x).Floor)
  }

  /** numpy's `np.clip(x, lo, hi)` for `lo <= hi`. */
  function Clip(x: real, lo: real, hi: real): (r: real)
    requires lo <= hi
    ensures lo <= r <= hi
    ensures lo <= x <= hi ==> r == x
    ensures x < lo ==> r == lo
    ensures hi < x ==> r == hi
  {
    if x < lo then lo else if x > hi then hi else x
  }

  /** Python's `abs` on a real. */
  function Abs(x: real): (r: real)
    ensures 0.0 <= r && (r == x || r == -x)
  {
    if x < 0.0 then -x else x
  }

  /** `max()` of a non-empty array (`np.nanmax` when nothing is missing). */
  function SeqMax(s: seq<real>): (m: real)
    requires |s| > 0
    ensures exists i :: 0 <= i < |s| && s[i] == m
    ensures forall i :: 0 <= i < |s| ==> s[i] <= m
  {
    if |s| == 1 then s[0]
    else
      var rest := SeqMax(s[1..]);
      assert forall i :: 1 <= i < |s| ==> s[i] == s[1..][i - 1];
      if s[0] >= rest then s[0] else rest
  }

  /** `min()` of a non-empty array. */
  function SeqMin(s: seq<real>): (m: real)
    requires |s| > 0
    ensures exists i :: 0 <= i < |s| && s[i] == m
    ensures forall i :: 0 <= i < |s| ==> m <= s[i]
  {
    if |s| == 1 then s[0]
    else
      var rest := SeqMin(s[1..]);
      assert forall i :: 1 <= i < |s| ==> s[i] == s[1..][i - 1];
      if s[0] <= rest then s[0] else rest
  }

  /** The number of elements `s[::step]` keeps from `n`: `ceil(n / step)`. */
  function StridedLength(n: nat, step: nat): nat
    requires step > 0
  {
    (n + step - 1) / step
  }

  /** Division by `d` counts a block of `d` more as exactly one more. */
  lemma DivAddDivisor(a: nat, d: nat)
    requires d > 0
    ensures (a + d) / d == a / d + 1
  {
    var q, r := a / d, a % d;
    assert a == q * d + r;
    assert a + d == (q + 1) * d + r;
    DivUnique(a + d, d, q + 1, r);
  }

  /** The quotient is the only `q` that leaves a remainder in `[0, d)`. */
  lemma DivUnique(n: int, d: int, q: int, r: int)
    requires d > 0 && 0 <= r < d && n == q * d + r
    ensures n / d == q
  {
    var q2, r2 := n / d, n % d;
    assert n == q2 * d + r2 && 0 <= r2 < d;
    MulStep(q, q2, d);
    MulStep(q2, q, d);
  }

  /** A larger factor adds at least one more `d`. */
  lemma MulStep(x: int, y: int, d: nat)
    ensures x < y ==> x * d + d <= y * d
  {
    if x < y {
      MulLeft(x + 1, y, d);
      assert (x + 1) * d == x * d + d;
    }
  }

  lemma MulLeft(x: int, y: int, d: nat)
    requires x <= y
    ensures x * d <= y * d
  {
  }

  lemma StridedLengthStep(n: nat, step: nat)
    requires step > 0
    ensures n == 0 ==> StridedLength(n, step) == 0
    ensures 0 < n <= step ==> StridedLength(n, step) == 1
    ensures n > step ==> StridedLength(n, step) == StridedLength(n - step, step) + 1
  {
    if n > step {
      DivAddDivisor(n - step + step - 1, step);
    } else if n > 0 {
      DivAddDivisor(n - 1, step);
    }
  }

  /** Python's `s[::step]`: every `step`-th element, starting with the first. */
  function Stride<T>(s: seq<T>, step: nat): (r: seq<T>)
    requires step > 0
    ensures |r| == StridedLength(|s|, step)
    ensures forall i :: 0 <= i < |r| ==> i * step < |s| && r[i] == s[i * step]
    decreases |s|
  {
    StridedLengthStep(|s|, step);
    if |s| == 0 then []
    else if |s| <= step then [s[0]]
    else
      var rest := Stride(s[step..], step);
      StrideShift(s, step, rest);
      [s[0]] + rest
  }

  lemma StrideShift<T>(s: seq<T>, step: nat, rest: seq<T>)
    requires step > 0 && |s| > step
    requires forall i :: 0 <= i < |rest| ==> i * step < |s| - step && rest[i] == s[step..][i * step]
    ensures forall i :: 1 <= i < |rest| + 1 ==> i * step < |s| && ([s[0]] + rest)[i] == s[i * step]
  {
    forall i | 1 <= i < |rest| + 1
      ensures i * step < |s| && ([s[0]] + rest)[i] == s[i * step]
    {
      assert (i - 1) * step + step == i * step;
    }
  }

  /** Every element of `s` lies in the byte range [0, 255]. */
  predicate AllBytes(s: seq<int>) {
    forall i :: 0 <= i < |s| ==> 0 <= s[i] <= 255
  }

  /** Strictly increasing, stated on neighbours. */
  predicate StrictlyIncreasing(s: seq<int>) {
    forall i :: 0 <= i < |s| - 1 ==> s[i] < s[i + 1]
  }

  /** Strictly increasing, stated on every pair. */
  predicate StrictlyIncreasingPairs(s: seq<int>) {
    forall i, j :: 0 <= i < j < |s| ==> s[i] < s[j]
  }

  lemma {:induction false} NeighboursGivePairs(s: seq<int>, i: int, j: int)
    requires StrictlyIncreasing(s)
    requires 0 <= i < j < |s|
    ensures s[i] < s[j]
    decreases j - i
  {
    if j > i + 1 {
      NeighboursGivePairs(s, i + 1, j);
    }
  }

  lemma StrictlyIncreasingAllPairs(s: seq<int>)
    requires StrictlyIncreasing(s)
    ensures StrictlyIncreasingPairs(s)
  {
    forall i, j | 0 <= i < j < |s|
      ensures s[i] < s[j]
    {
      NeighboursGivePairs(s, i, j);
    }
  }
}
