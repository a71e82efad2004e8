/** The fixed constants of the infrared enhancement: the breakpoint
    temperatures (degrees Celsius) of each channel family, the integer
    enhancement value attached to each breakpoint, and the key colours of
    each family's colour table. */
module EnhancementTables {
  import opened Common

  /** One 8-bit colour. */
  datatype Rgb = Rgb(r: int, g: int, b: int) {
    predicate IsByteColor() {
      0 <= r <= 255 && 0 <= g <= 255 && 0 <= b <= 255
    }
  }

  predicate AllByteColors(cs: seq<Rgb>) {
    forall i :: 0 <= i < |cs| ==> cs[i].IsByteColor()
  }

  /** `int(i * 255 / (n - 1))`: the enhancement value of breakpoint `i` of
      `n`, spread evenly over 0..255. */
  function IndexValue(i: nat, n: nat): int
    requires n >= 2
  {
    i * 255 / (n - 1)
  }

  /** The enhancement values of all `n` breakpoints of a family. */
  function IndexValues(n: nat): (v: seq<int>)
    requires n >= 2
    ensures |v| == n
    ensures forall i :: 0 <= i < n ==> v[i] == IndexValue(i, n)
  {
    seq(n, i requires 0 <= i < n => IndexValue(i, n))
  }

  lemma DivMonotone(a: nat, b: nat, d: nat)
    requires d > 0 && a <= b
    ensures a / d <= b / d
  {
    var qa, qb := a / d, b / d;
    assert qa * d <= a;
    assert b < qb * d + d;
    if qa > qb {
      assert qa >= qb + 1;
      MulMonotone(qb + 1, qa, d);
    }
  }

  lemma MulMonotone(x: nat, y: nat, d: nat)
    requires x <= y
    ensures x * d <= y * d
  {
  }

  lemma IndexValueMonotone(i: nat, j: nat, n: nat)
    requires n >= 2 && i <= j
    ensures IndexValue(i, n) <= IndexValue(j, n)
  {
    MulMonotone(i, j, 255);
    DivMonotone(i * 255, j * 255, n - 1);
  }

  lemma IndexValueEnds(n: nat)
    requires n >= 2
    ensures IndexValue(0, n) == 0
    ensures IndexValue(n - 1, n) == 255
  {
    var d := n - 1;
    assert d * 255 == 255 * d;
    assert (255 * d) / d == 255;
  }

  /** The breakpoint values start at 0, end at 255, never decrease and are
      all bytes. */
  lemma IndexValuesSpanBytes(n: nat)
    requires n >= 2
    ensures IndexValues(n)[0] == 0
    ensures IndexValues(n)[n - 1] == 255
    ensures forall i, j :: 0 <= i <= j < n ==> IndexValues(n)[i] <= IndexValues(n)[j]
    ensures AllBytes(IndexValues(n))
  {
    var v := IndexValues(n);
    IndexValueEnds(n);
    forall i, j | 0 <= i <= j < n
      ensures v[i] <= v[j]
    {
      IndexValueMonotone(i, j, n);
    }
    forall i | 0 <= i < n
      ensures 0 <= v[i] <= 255
    {
      IndexValueMonotone(0, i, n);
      IndexValueMonotone(i, n - 1, n);
    }
  }

  // ---------------------------------------------------------------------
  // Shortwave infrared (C07)
  // ---------------------------------------------------------------------

  /** Temperature span of the C07 enhancement curve and colour positions. */
  const ShortwaveMin: int := -83
  const ShortwaveMax: int := 127

  const ShortwaveKeyTemps: seq<int> :=
    [-83, -78, -73, -68, -63, -58, -53, -48, -43, -42, -38, -33, -28,
     -23, -18, -13, -8, -3, 2, 7, 13, 17, 22, 27, 32, 38, 42, 47,
     52, 57, 62, 67, 72, 77, 82, 87, 92, 97, 102, 107, 112, 117, 122, 127]

  /** The C07 key colours in the order they are written down; the colour
      table uses them reversed. */
  const ShortwaveKeyColorsListed: seq<Rgb> :=
    [Rgb(122, 122, 122), Rgb(101, 101, 101), Rgb(79, 79, 79), Rgb(58, 58, 58), Rgb(35, 35, 35),
     Rgb(70, 0, 0), Rgb(252, 0, 0), Rgb(255, 149, 0), Rgb(201, 255, 0), Rgb(172, 255, 0),
     Rgb(0, 249, 3), Rgb(0, 2, 114), Rgb(0, 166, 206), Rgb(186, 186, 186), Rgb(177, 177, 177),
     Rgb(167, 167, 167), Rgb(156, 156, 156), Rgb(145, 145, 145), Rgb(135, 135, 135), Rgb(125, 125, 125),
     Rgb(112, 112, 112), Rgb(103, 103, 103), Rgb(91, 91, 91), Rgb(80, 80, 80), Rgb(69, 69, 69),
     Rgb(56, 56, 56), Rgb(53, 53, 53), Rgb(49, 49, 49), Rgb(46, 46, 46), Rgb(44, 44, 44),
     Rgb(40, 40, 40), Rgb(37, 37, 37), Rgb(34, 34, 34), Rgb(31, 31, 31), Rgb(27, 27, 27),
     Rgb(24, 24, 24), Rgb(21, 21, 21), Rgb(17, 17, 17), Rgb(14, 14, 14), Rgb(11, 11, 11),
     Rgb(8, 8, 8), Rgb(5, 5, 5), Rgb(2, 2, 2), Rgb(0, 0, 0)]

  function Reverse<T>(s: seq<T>): (r: seq<T>)
    ensures |r| == |s|
    ensures forall i :: 0 <= i < |s| ==> r[i] == s[|s| - 1 - i]
  {
    seq(|s|, i requires 0 <= i < |s| => s[|s| - 1 - i])
  }

  // ---------------------------------------------------------------------
  // Water vapour (C08, C09, C10)
  // ---------------------------------------------------------------------

  /** Breakpoints of the water-vapour enhancement curve. */
  const WaterVaporCurveTemps: seq<int> :=
    [-93, -88, -83, -78, -73, -68, -63, -58, -54, -53,
     -48, -43, -38, -33, -30, -28, -23, -18, -13, -8,
     -5, -3, 2, 7]

  /** Breakpoints of the water-vapour colour table, written out separately. */
  const WaterVaporColorTemps: seq<int> :=
    [-93, -88, -83, -78, -73, -68, -63, -58, -54, -53, -48, -43, -38, -33, -30, -28, -23, -18, -13, -8, -5, -3, 2, 7]

  const WaterVaporColors: seq<Rgb> :=
    [Rgb(9, 239, 227), Rgb(26, 207, 170), Rgb(43, 176, 114), Rgb(61, 144, 57), Rgb(77, 137, 47),
     Rgb(100, 152, 73), Rgb(122, 167, 99), Rgb(145, 182, 126), Rgb(164, 194, 148), Rgb(170, 200, 156),
     Rgb(206, 223, 198), Rgb(243, 248, 241), Rgb(224, 224, 238), Rgb(169, 169, 207), Rgb(137, 137, 190),
     Rgb(92, 92, 166), Rgb(21, 21, 105), Rgb(199, 199, 25), Rgb(255, 216, 0), Rgb(255, 149, 0),
     Rgb(255, 109, 0), Rgb(255, 81, 0), Rgb(255, 9, 0), Rgb(0, 0, 0)]

  // ---------------------------------------------------------------------
  // Longwave infrared window (C11 to C16)
  // ---------------------------------------------------------------------

  /** Breakpoints of the window-channel enhancement curve. */
  const WindowCurveTemps: seq<int> :=
    [-110, -105, -100, -95, -90, -85, -80, -75, -70, -65,
     -60, -59, -55, -50, -45, -40, -35, -30, -25, -20,
     -15, -10, -5, 0, 5, 6, 10, 15, 20, 25, 30, 31,
     35, 40, 45, 50, 55, 57]

  /** Breakpoints of the window-channel colour table, written out separately. */
  const WindowColorTemps: seq<int> :=
    [-110, -105, -100, -95, -90, -85, -80, -75, -70, -65, -60, -59, -55, -50, -45, -40, -35, -30, -25, -20, -15, -10, -5, 0, 5, 6, 10, 15, 20, 25, 30, 31, 35, 40, 45, 50, 55, 57]

  const WindowColors: seq<Rgb> :=
    [Rgb(255, 255, 255), Rgb(255, 255, 255), Rgb(255, 255, 255), Rgb(187, 187, 187), Rgb(103, 103, 103),
     Rgb(8, 11, 11), Rgb(104, 0, 0), Rgb(223, 0, 0), Rgb(255, 79, 0), Rgb(255, 184, 0),
     Rgb(219, 255, 0), Rgb(199, 255, 0), Rgb(67, 255, 0), Rgb(0, 144, 50), Rgb(0, 9, 120),
     Rgb(0, 149, 197), Rgb(199, 186, 186), Rgb(182, 182, 182), Rgb(176, 176, 176), Rgb(168, 168, 168),
     Rgb(157, 157, 157), Rgb(146, 146, 146), Rgb(136, 136, 136), Rgb(125, 125, 125), Rgb(114, 114, 114),
     Rgb(113, 113, 113), Rgb(103, 103, 103), Rgb(92, 92, 92), Rgb(80, 80, 80), Rgb(69, 69, 69),
     Rgb(58, 58, 58), Rgb(55, 55, 55), Rgb(48, 48, 48), Rgb(37, 37, 37), Rgb(28, 28, 28),
     Rgb(18, 18, 18), Rgb(9, 9, 9), Rgb(5, 5, 5)]

  /** The C07 tables are well formed: the breakpoints strictly increase
      from the curve's lower end to its upper end, there is one key colour
      per breakpoint, and every key colour is a byte colour. */
  lemma ShortwaveTablesWellFormed()
    ensures |ShortwaveKeyTemps| == |ShortwaveKeyColorsListed| == 44
    ensures StrictlyIncreasing(ShortwaveKeyTemps)
    ensures ShortwaveKeyTemps[0] == ShortwaveMin && ShortwaveKeyTemps[43] == ShortwaveMax
    ensures AllByteColors(ShortwaveKeyColorsListed)
  {
  }

  /** The water-vapour tables are well formed, and the curve breakpoints
      coincide with the colour breakpoints written out separately. */
  lemma WaterVaporTablesWellFormed()
    ensures |WaterVaporCurveTemps| == |WaterVaporColors| == 24
    ensures StrictlyIncreasing(WaterVaporCurveTemps)
    ensures WaterVaporColorTemps == WaterVaporCurveTemps
    ensures AllByteColors(WaterVaporColors)
  {
  }

  /** The window-channel tables are well formed, and the curve breakpoints
      coincide with the colour breakpoints written out separately. */
  lemma WindowTablesWellFormed()
    ensures |WindowCurveTemps| == |WindowColors| == 38
    ensures StrictlyIncreasing(WindowCurveTemps)
    ensures WindowColorTemps == WindowCurveTemps
    ensures AllByteColors(WindowColors)
  {
  }
}
