/** Which loaded channel carries the scene's coordinate arrays, and how far
    those arrays are thinned before the solar-angle computation. */
module Coordinates {
  import opened Common

  // ---------------------------------------------------------------------
  // Coordinate carrier
  // ---------------------------------------------------------------------

  /** The Level 1b loader attaches the coordinate arrays to C02, or to the
      first requested channel when C02 is not requested at all. */
  predicate Level1bCarrier(channel: string, requested: seq<string>)
    requires channel in requested
  {
    channel == "C02" || (channel == requested[0] && "C02" !in requested)
  }

  /** The Level 2 loader attaches them to the first requested channel,
      whatever it is. */
  predicate Level2Carrier(channel: string, requested: seq<string>)
    requires channel in requested
  {
    channel == requested[0]
  }

  /** The channel that ends up carrying the coordinates in a Level 1b load. */
  function ExpectedCarrier(requested: seq<string>): (c: string)
    requires |requested| > 0
    ensures c in requested
  {
    if "C02" in requested then "C02" else requested[0]
  }

  /** Exactly one requested channel carries the coordinates: C02 when it is
      requested, else the first requested channel. */
  lemma Level1bCarrierIsUnique(requested: seq<string>)
    requires |requested| > 0
    ensures forall c :: c in requested ==> (Level1bCarrier(c, requested) <==> c == ExpectedCarrier(requested))
  {
  }

  /** The two loaders pick the same carrier exactly when C02 is not
      requested or is requested first. */
  lemma LoadersAgreeOnCarrier(requested: seq<string>)
    requires |requested| > 0
    ensures (forall c :: c in requested ==> (Level1bCarrier(c, requested) <==> Level2Carrier(c, requested)))
            <==> ("C02" !in requested || requested[0] == "C02")
  {
    if "C02" in requested && requested[0] != "C02" {
      assert Level1bCarrier("C02", requested) && !Level2Carrier("C02", requested);
    }
  }

  // ---------------------------------------------------------------------
  // Solar-angle downsampling
  // ---------------------------------------------------------------------

  /** Grids with more columns than this are thinned by 8 instead of 4. */
  const WideGridColumns: nat := 3000
  /** The thinned grid should keep at least this many points per axis. */
  const MinimumSamples: nat := 20

  /** The thinning factor wanted before the sample-count cap: 8 for a wide
      grid, 4 otherwise. */
  function PreferredFactor(nx: nat): nat {
    if nx > WideGridColumns then 8 else 4
  }

  /** A thinning factor is admissible when it does not exceed the preferred
      one and, unless it is 1, keeps 20 samples on both axes. */
  predicate Admissible(f: nat, nx: nat, ny: nat) {
    1 <= f <= PreferredFactor(nx) && (f == 1 || (f * MinimumSamples <= nx && f * MinimumSamples <= ny))
  }

  /** `max(min(8 if nx > 3000 else 4, nx // 20, ny // 20), 1)`: the largest
      admissible factor. */
  function DownsampleFactor(nx: nat, ny: nat): (f: nat)
    ensures 1 <= f <= 8
    ensures nx <= WideGridColumns ==> f <= 4
    ensures Admissible(f, nx, ny)
    ensures f < PreferredFactor(nx) ==>
            (f + 1) * MinimumSamples > nx || (f + 1) * MinimumSamples > ny
  {
    var capped := Min(PreferredFactor(nx), Min(nx / MinimumSamples, ny / MinimumSamples));
    if capped < 1 then 1 else capped
  }

  /** No admissible factor is larger than the one chosen, so the chosen
      factor is the unique largest admissible one. */
  lemma {:induction false} DownsampleFactorIsLargest(nx: nat, ny: nat, g: nat)
    requires Admissible(g, nx, ny)
    ensures g <= DownsampleFactor(nx, ny)
    ensures g == DownsampleFactor(nx, ny) <==>
            (g == PreferredFactor(nx) || (g + 1) * MinimumSamples > nx || (g + 1) * MinimumSamples > ny)
  {
    var f := DownsampleFactor(nx, ny);
    if g > 1 {
      DivLowerBound(g, nx);
      DivLowerBound(g, ny);
    }
    if g != f && g < PreferredFactor(nx) {
      assert g + 1 <= f;
      MulMonotone(g + 1, f);
    }
  }

  lemma DivLowerBound(g: nat, n: nat)
    requires g * MinimumSamples <= n
    ensures g <= n / MinimumSamples
  {
  }

  lemma MulMonotone(a: nat, b: nat)
    requires a <= b
    ensures a * MinimumSamples <= b * MinimumSamples
  {
  }

  function Min(a: int, b: int): int {
    if a <= b then a else b
  }

  /** When both axes have at least 20 coordinates, the thinned axes keep at
      least 20 each; a shorter axis is not thinned at all. */
  lemma {:induction false} DownsampleKeepsEnoughSamples(x: seq<real>, y: seq<real>)
    ensures var f := DownsampleFactor(|x|, |y|);
            (|x| >= MinimumSamples && |y| >= MinimumSamples ==>
               |Stride(x, f)| >= MinimumSamples && |Stride(y, f)| >= MinimumSamples)
            && (|x| < MinimumSamples || |y| < MinimumSamples ==> Stride(x, f) == x && Stride(y, f) == y)
  {
    var f := DownsampleFactor(|x|, |y|);
    if |x| >= MinimumSamples && |y| >= MinimumSamples {
      StridedLengthAtLeast(|x|, f);
      StridedLengthAtLeast(|y|, f);
    }
    if |x| < MinimumSamples || |y| < MinimumSamples {
      assert f == 1;
      StrideByOne(x);
      StrideByOne(y);
    }
  }

  lemma StridedLengthAtLeast(n: nat, f: nat)
    requires 1 <= f && (f == 1 || f * MinimumSamples <= n) && n >= MinimumSamples
    ensures StridedLength(n, f) >= MinimumSamples
  {
    if f > 1 {
      DivAddDivisorFloor(n, f);
    }
  }

  lemma DivAddDivisorFloor(n: nat, f: nat)
    requires f > 1 && f * MinimumSamples <= n
    ensures (n + f - 1) / f >= MinimumSamples
  {
    var q := (n + f - 1) / f;
    assert n + f - 1 < q * f + f;
    if q < MinimumSamples {
      MulLeft(q + 1, MinimumSamples, f);
    }
  }

  lemma StrideByOne<T>(s: seq<T>)
    ensures Stride(s, 1) == s
  {
    var r := Stride(s, 1);
    assert |r| == |s|;
    forall i | 0 <= i < |s|
      ensures r[i] == s[i]
    {
      assert i * 1 == i;
    }
  }
}
