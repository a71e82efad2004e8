/** The infrared lookup tables of the fast IR processor: a temperature to
    enhancement-value curve per channel family, a 256-row colour table per
    family, the 3000-row temperature to colour table built from the two,
    and the per-code caches that keep each table once it is built. */
module Enhancement {
  import opened Common
  import opened Interpolation
  import opened EnhancementTables
  import Calibration

  /** The four ways a channel code is enhanced. */
  datatype Family = Shortwave | WaterVapor | Window | Unclassified

  /** `channel_code == 'C07'`, `in ['C08', 'C09', 'C10']`,
      `in ['C11', ..., 'C16']`, and everything else. */
  function FamilyOf(code: string): (f: Family)
    ensures f == Shortwave <==> code == "C07"
    ensures f == WaterVapor <==> code == "C08" || code == "C09" || code == "C10"
    ensures f == Window <==>
            (code == "C11" || code == "C12" || code == "C13" || code == "C14" || code == "C15" || code == "C16")
  {
    if code == "C07" then Shortwave
    else if code in ["C08", "C09", "C10"] then WaterVapor
    else if code in ["C11", "C12", "C13", "C14", "C15", "C16"] then Window
    else Unclassified
  }

  /** The codes with an enhancement curve of their own are exactly the
      infrared channels of the fallback Planck-constant table, C07 to C16. */
  lemma EveryIrChannelIsEnhanced(code: string)
    ensures FamilyOf(code) != Unclassified <==> code in Calibration.ChannelConstantsTable
  {
  }

  // ---------------------------------------------------------------------
  // Integer tables viewed as reals
  // ---------------------------------------------------------------------

  function Reals(s: seq<int>): (r: seq<real>)
    ensures |r| == |s|
    ensures forall i :: 0 <= i < |s| ==> r[i] == s[i] as real
  {
    seq(|s|, i requires 0 <= i < |s| => s[i] as real)
  }

  lemma RealsIncreasing(s: seq<int>)
    requires StrictlyIncreasing(s)
    ensures Increasing(Reals(s))
  {
  }

  lemma RealsOfIndexValues(n: nat)
    requires n >= 2
    ensures NonDecreasing(Reals(IndexValues(n)))
    ensures AllWithin(Reals(IndexValues(n)), 0.0, 255.0)
    ensures Reals(IndexValues(n))[0] == 0.0 && Reals(IndexValues(n))[n - 1] == 255.0
  {
    IndexValuesSpanBytes(n);
  }

  lemma RealsOfBytes(s: seq<int>)
    requires AllBytes(s)
    ensures AllWithin(Reals(s), 0.0, 255.0)
  {
  }

  // ---------------------------------------------------------------------
  // Enhancement curves
  // ---------------------------------------------------------------------

  /** C07: the temperature placed on [-83, 127], scaled to 0..255, clipped,
      and inverted so that cold scenes are bright. */
  function ShortwaveCurve(t: real): (e: real)
    ensures 0.0 <= e <= 255.0
    ensures t <= ShortwaveMin as real ==> e == 255.0
    ensures t >= ShortwaveMax as real ==> e == 0.0
  {
    var normalized := (t - ShortwaveMin as real) / (ShortwaveMax - ShortwaveMin) as real;
    255.0 - Clip(normalized * 255.0, 0.0, 255.0)
  }

  /** Water vapour: interpolation through the 24 breakpoints and their
      index values. */
  function WaterVaporCurve(t: real): (e: real)
    ensures 0.0 <= e <= 255.0
    ensures t <= WaterVaporCurveTemps[0] as real ==> e == 0.0
    ensures t >= WaterVaporCurveTemps[23] as real ==> e == 255.0
  {
    WaterVaporTablesWellFormed();
    RealsIncreasing(WaterVaporCurveTemps);
    RealsOfIndexValues(24);
    InterpWithin(t, Reals(WaterVaporCurveTemps), Reals(IndexValues(24)), 0.0, 255.0);
    Interp(t, Reals(WaterVaporCurveTemps), Reals(IndexValues(24)))
  }

  /** Window channels: interpolation through the 38 breakpoints and their
      index values. */
  function WindowCurve(t: real): (e: real)
    ensures 0.0 <= e <= 255.0
    ensures t <= WindowCurveTemps[0] as real ==> e == 0.0
    ensures t >= WindowCurveTemps[37] as real ==> e == 255.0
  {
    WindowTablesWellFormed();
    RealsIncreasing(WindowCurveTemps);
    RealsOfIndexValues(38);
    InterpWithin(t, Reals(WindowCurveTemps), Reals(IndexValues(38)), 0.0, 255.0);
    Interp(t, Reals(WindowCurveTemps), Reals(IndexValues(38)))
  }

  /** Every other code: [-100, 100] scaled linearly onto 0..255 and clipped. */
  function DefaultCurve(t: real): (e: real)
    ensures 0.0 <= e <= 255.0
    ensures t <= -100.0 ==> e == 0.0
    ensures t >= 100.0 ==> e == 255.0
  {
    Clip((t + 100.0) / 200.0 * 255.0, 0.0, 255.0)
  }

  /** The enhancement value of a temperature (degrees Celsius) before the
      conversion to an unsigned byte. */
  function EnhancementCurve(code: string, t: real): (e: real)
    ensures 0.0 <= e <= 255.0
  {
    match FamilyOf(code)
    case Shortwave => ShortwaveCurve(t)
    case WaterVapor =>
      WaterVaporTablesWellFormed();
      RealsIncreasing(WaterVaporCurveTemps);
      RealsOfIndexValues(24);
      InterpWithin(t, Reals(WaterVaporCurveTemps), Reals(IndexValues(24)), 0.0, 255.0);
      WaterVaporCurve(t)
    case Window =>
      WindowTablesWellFormed();
      RealsIncreasing(WindowCurveTemps);
      RealsOfIndexValues(38);
      InterpWithin(t, Reals(WindowCurveTemps), Reals(IndexValues(38)), 0.0, 255.0);
      WindowCurve(t)
    case Unclassified => DefaultCurve(t)
  }

  /** `enhanced.astype(np.uint8)` of one curve value. */
  function EnhancedValue(code: string, t: real): (v: int)
    ensures 0 <= v <= 255
    ensures v as real <= EnhancementCurve(code, t) < v as real + 1.0
  {
    Trunc(EnhancementCurve(code, t))
  }

  lemma ClipMonotone(a: real, b: real, lo: real, hi: real)
    requires lo <= hi && a <= b
    ensures Clip(a, lo, hi) <= Clip(b, lo, hi)
  {
  }

  lemma TruncMonotone(a: real, b: real)
    requires 0.0 <= a <= b
    ensures Trunc(a) <= Trunc(b)
  {
  }

  /** The curves are monotone in temperature: C07 never gets brighter as the
      scene warms, every other family never gets darker. */
  lemma EnhancementCurveMonotone(code: string, a: real, b: real)
    requires a <= b
    ensures FamilyOf(code) == Shortwave ==> EnhancementCurve(code, a) >= EnhancementCurve(code, b)
    ensures FamilyOf(code) != Shortwave ==> EnhancementCurve(code, a) <= EnhancementCurve(code, b)
  {
    match FamilyOf(code)
    case Shortwave =>
      var d := (ShortwaveMax - ShortwaveMin) as real;
      assert (a - ShortwaveMin as real) / d <= (b - ShortwaveMin as real) / d;
      ClipMonotone((a - ShortwaveMin as real) / d * 255.0, (b - ShortwaveMin as real) / d * 255.0, 0.0, 255.0);
    case WaterVapor =>
      WaterVaporTablesWellFormed();
      RealsIncreasing(WaterVaporCurveTemps);
      RealsOfIndexValues(24);
      InterpMonotone(a, b, Reals(WaterVaporCurveTemps), Reals(IndexValues(24)));
    case Window =>
      WindowTablesWellFormed();
      RealsIncreasing(WindowCurveTemps);
      RealsOfIndexValues(38);
      InterpMonotone(a, b, Reals(WindowCurveTemps), Reals(IndexValues(38)));
    case Unclassified =>
      ClipMonotone((a + 100.0) / 200.0 * 255.0, (b + 100.0) / 200.0 * 255.0, 0.0, 255.0);
  }

  /** At each water-vapour or window breakpoint the curve takes exactly that
      breakpoint's index value. */
  lemma CurveAtBreakpoints(code: string, k: int)
    ensures FamilyOf(code) == WaterVapor && 0 <= k < |WaterVaporCurveTemps| ==>
              EnhancedValue(code, WaterVaporCurveTemps[k] as real) == IndexValues(24)[k]
    ensures FamilyOf(code) == Window && 0 <= k < |WindowCurveTemps| ==>
              EnhancedValue(code, WindowCurveTemps[k] as real) == IndexValues(38)[k]
  {
    if FamilyOf(code) == WaterVapor && 0 <= k < |WaterVaporCurveTemps| {
      WaterVaporTablesWellFormed();
      RealsIncreasing(WaterVaporCurveTemps);
      InterpAtSample(Reals(WaterVaporCurveTemps), Reals(IndexValues(24)), k);
    }
    if FamilyOf(code) == Window && 0 <= k < |WindowCurveTemps| {
      WindowTablesWellFormed();
      RealsIncreasing(WindowCurveTemps);
      InterpAtSample(Reals(WindowCurveTemps), Reals(IndexValues(38)), k);
    }
  }

  // ---------------------------------------------------------------------
  // Temperature table
  // ---------------------------------------------------------------------

  /** `{'temp_celsius': ..., 'enhanced': ...}`. */
  datatype TemperatureTable = TemperatureTable(temps: seq<real>, enhanced: seq<int>)

  predicate WellFormedTemperatureTable(t: TemperatureTable) {
    |t.temps| == |t.enhanced| > 0 && Increasing(t.temps) && AllBytes(t.enhanced)
  }

  const TemperatureTableSize: nat := 30000

  /** `_create_temperature_enhancement_lut` without its cache: 30000 evenly
      spaced temperatures from -150 to 150 and their byte enhancement
      values. */
  function TemperatureLut(code: string): (t: TemperatureTable)
    ensures WellFormedTemperatureTable(t)
    ensures |t.temps| == TemperatureTableSize
    ensures t.temps[0] == -150.0 && t.temps[TemperatureTableSize - 1] == 150.0
  {
    var temps := Linspace(-150.0, 150.0, TemperatureTableSize);
    TemperatureTable(temps, seq(TemperatureTableSize, i requires 0 <= i < TemperatureTableSize => EnhancedValue(code, temps[i])))
  }

  /** The enhancement column follows its curve's direction: nonincreasing
      for C07, nondecreasing for every other code. */
  lemma TemperatureLutMonotone(code: string, i: int, j: int)
    requires 0 <= i <= j < TemperatureTableSize
    ensures FamilyOf(code) == Shortwave ==> TemperatureLut(code).enhanced[i] >= TemperatureLut(code).enhanced[j]
    ensures FamilyOf(code) != Shortwave ==> TemperatureLut(code).enhanced[i] <= TemperatureLut(code).enhanced[j]
  {
    var temps := TemperatureLut(code).temps;
    if i < j {
      IncreasingPair(temps, i, j);
    }
    EnhancementCurveMonotone(code, temps[i], temps[j]);
    if FamilyOf(code) == Shortwave {
      TruncMonotone(EnhancementCurve(code, temps[j]), EnhancementCurve(code, temps[i]));
    } else {
      TruncMonotone(EnhancementCurve(code, temps[i]), EnhancementCurve(code, temps[j]));
    }
  }

  // ---------------------------------------------------------------------
  // Colour table
  // ---------------------------------------------------------------------

  const ColorTableSize: nat := 256

  /** Colour-table positions of the breakpoints: each temperature placed on
      `[lo, hi]` as a fraction. */
  function Positions(temps: seq<int>, lo: int, hi: int): (p: seq<real>)
    requires lo < hi
    ensures |p| == |temps|
    ensures forall i :: 0 <= i < |temps| ==> p[i] == (temps[i] - lo) as real / (hi - lo) as real
  {
    seq(|temps|, i requires 0 <= i < |temps| => (temps[i] - lo) as real / (hi - lo) as real)
  }

  lemma PositionsSpanUnit(temps: seq<int>, lo: int, hi: int)
    requires lo < hi && |temps| > 0 && StrictlyIncreasing(temps)
    requires temps[0] == lo && temps[|temps| - 1] == hi
    ensures Increasing(Positions(temps, lo, hi))
    ensures Positions(temps, lo, hi)[0] == 0.0
    ensures Positions(temps, lo, hi)[|temps| - 1] == 1.0
  {
    var p := Positions(temps, lo, hi);
    var d := (hi - lo) as real;
    assert p[|temps| - 1] == d / d == 1.0;
    forall i | 0 <= i < |temps| - 1
      ensures p[i] < p[i + 1]
    {
      assert d > 0.0;
      assert (temps[i] - lo) as real < (temps[i + 1] - lo) as real;
      DivStrictMonotone((temps[i] - lo) as real, (temps[i + 1] - lo) as real, d);
    }
  }

  lemma DivStrictMonotone(a: real, b: real, d: real)
    requires a < b && d > 0.0
    ensures a / d < b / d
  {
    assert b / d - a / d == (b - a) / d;
  }

  /** One colour component of every key colour. */
  function Component(cs: seq<Rgb>, k: nat): (ys: seq<real>)
    requires k < 3
    ensures |ys| == |cs|
  {
    seq(|cs|, i requires 0 <= i < |cs| => (if k == 0 then cs[i].r else if k == 1 then cs[i].g else cs[i].b) as real)
  }

  lemma ComponentWithinBytes(cs: seq<Rgb>, k: nat)
    requires k < 3 && AllByteColors(cs)
    ensures AllWithin(Component(cs, k), 0.0, 255.0)
  {
  }

  /** One component of one row of an interpolated colour table. */
  function InterpolatedComponent(x: real, positions: seq<real>, colors: seq<Rgb>, k: nat): (v: int)
    requires |positions| == |colors| > 0 && Increasing(positions) && AllByteColors(colors) && k < 3
    ensures 0 <= v <= 255
  {
    ComponentWithinBytes(colors, k);
    InterpWithin(x, positions, Component(colors, k), 0.0, 255.0);
    Trunc(Interp(x, positions, Component(colors, k)))
  }

  /** A colour table interpolated component by component at 256 evenly
      spaced positions of [0, 1]. */
  function InterpolatedColorLut(positions: seq<real>, colors: seq<Rgb>): (lut: seq<Rgb>)
    requires |positions| == |colors| > 0 && Increasing(positions) && AllByteColors(colors)
    ensures |lut| == ColorTableSize
    ensures AllByteColors(lut)
  {
    var indices := Linspace(0.0, 1.0, ColorTableSize);
    seq(ColorTableSize, i requires 0 <= i < ColorTableSize =>
      Rgb(InterpolatedComponent(indices[i], positions, colors, 0),
          InterpolatedComponent(indices[i], positions, colors, 1),
          InterpolatedComponent(indices[i], positions, colors, 2)))
  }

  /** With positions running from 0 to 1, the first row of the table is the
      first key colour and the last row is the last key colour. */
  lemma InterpolatedColorLutEnds(positions: seq<real>, colors: seq<Rgb>)
    requires |positions| == |colors| > 0 && Increasing(positions) && AllByteColors(colors)
    requires positions[0] == 0.0 && positions[|positions| - 1] == 1.0
    ensures InterpolatedColorLut(positions, colors)[0] == colors[0]
    ensures InterpolatedColorLut(positions, colors)[ColorTableSize - 1] == colors[|colors| - 1]
  {
  }

  /** The grey ramp used for codes without a colour table. */
  function GreyRamp(): (lut: seq<Rgb>)
    ensures |lut| == ColorTableSize
    ensures AllByteColors(lut)
  {
    seq(ColorTableSize, i requires 0 <= i < ColorTableSize => Rgb(i, i, i))
  }

  /** `_create_color_lut` without its cache. */
  function ColorLut(code: string): (lut: seq<Rgb>)
    ensures |lut| == ColorTableSize
    ensures AllByteColors(lut)
    ensures FamilyOf(code) == Unclassified ==> forall i :: 0 <= i < ColorTableSize ==> lut[i] == Rgb(i, i, i)
  {
    match FamilyOf(code)
    case Shortwave =>
      ShortwaveTablesWellFormed();
      PositionsSpanUnit(ShortwaveKeyTemps, ShortwaveMin, ShortwaveMax);
      InterpolatedColorLut(Positions(ShortwaveKeyTemps, ShortwaveMin, ShortwaveMax), Reverse(ShortwaveKeyColorsListed))
    case WaterVapor =>
      WaterVaporTablesWellFormed();
      PositionsSpanUnit(WaterVaporColorTemps, -93, 7);
      InterpolatedColorLut(Positions(WaterVaporColorTemps, -93, 7), WaterVaporColors)
    case Window =>
      WindowTablesWellFormed();
      PositionsSpanUnit(WindowColorTemps, -110, 57);
      InterpolatedColorLut(Positions(WindowColorTemps, -110, 57), WindowColors)
    case Unclassified => GreyRamp()
  }

  lemma ShortwaveColorLutEnds()
    ensures ColorLut("C07")[0] == Rgb(0, 0, 0) && ColorLut("C07")[255] == Rgb(122, 122, 122)
  {
    ShortwaveTablesWellFormed();
    PositionsSpanUnit(ShortwaveKeyTemps, ShortwaveMin, ShortwaveMax);
    var colors := Reverse(ShortwaveKeyColorsListed);
    assert colors[0] == Rgb(0, 0, 0);
    assert colors[43] == ShortwaveKeyColorsListed[0] == Rgb(122, 122, 122);
    InterpolatedColorLutEnds(Positions(ShortwaveKeyTemps, ShortwaveMin, ShortwaveMax), colors);
  }

  lemma WaterVaporColorLutEnds(code: string)
    requires FamilyOf(code) == WaterVapor
    ensures ColorLut(code)[0] == Rgb(9, 239, 227) && ColorLut(code)[255] == Rgb(0, 0, 0)
  {
    WaterVaporTablesWellFormed();
    PositionsSpanUnit(WaterVaporColorTemps, -93, 7);
    InterpolatedColorLutEnds(Positions(WaterVaporColorTemps, -93, 7), WaterVaporColors);
  }

  lemma WindowColorLutEnds(code: string)
    requires FamilyOf(code) == Window
    ensures ColorLut(code)[0] == Rgb(255, 255, 255) && ColorLut(code)[255] == Rgb(5, 5, 5)
  {
    WindowTablesWellFormed();
    PositionsSpanUnit(WindowColorTemps, -110, 57);
    InterpolatedColorLutEnds(Positions(WindowColorTemps, -110, 57), WindowColors);
  }

  /** The two ends of each family's colour table. The C07 key colours are
      used reversed, so its table starts at black and ends at the grey
      listed first. */
  lemma ColorLutEnds(code: string)
    ensures FamilyOf(code) == Shortwave ==>
              ColorLut(code)[0] == Rgb(0, 0, 0) && ColorLut(code)[255] == Rgb(122, 122, 122)
    ensures FamilyOf(code) == WaterVapor ==>
              ColorLut(code)[0] == Rgb(9, 239, 227) && ColorLut(code)[255] == Rgb(0, 0, 0)
    ensures FamilyOf(code) == Window ==>
              ColorLut(code)[0] == Rgb(255, 255, 255) && ColorLut(code)[255] == Rgb(5, 5, 5)
    ensures FamilyOf(code) == Unclassified ==>
              ColorLut(code)[0] == Rgb(0, 0, 0) && ColorLut(code)[255] == Rgb(255, 255, 255)
  {
    match FamilyOf(code)
    case Shortwave =>
      assert code == "C07";
      ShortwaveColorLutEnds();
    case WaterVapor => WaterVaporColorLutEnds(code);
    case Window => WindowColorLutEnds(code);
    case Unclassified =>
  }

  // ---------------------------------------------------------------------
  // Combined table
  // ---------------------------------------------------------------------

  /** `{'temp_range': ..., 'rgb_lut': ...}`. */
  datatype CombinedTable = CombinedTable(temps: seq<real>, rgb: seq<Rgb>)

  const CombinedTableSize: nat := 3000

  /** `int(np.clip(np.interp(temp, temp_celsius, enhanced), 0, 255))`: the
      colour-table row a temperature looks up. */
  function EnhancementIndex(temp: real, t: TemperatureTable): (k: int)
    requires WellFormedTemperatureTable(t)
    ensures 0 <= k < ColorTableSize
  {
    Trunc(Clip(Interp(temp, t.temps, Reals(t.enhanced)), 0.0, 255.0))
  }

  /** The clip is a safety net that never acts: interpolating byte values
      already stays within [0, 255]. */
  lemma ClipNeverActs(temp: real, t: TemperatureTable)
    requires WellFormedTemperatureTable(t)
    ensures var e := Interp(temp, t.temps, Reals(t.enhanced));
            0.0 <= e <= 255.0 && Clip(e, 0.0, 255.0) == e
  {
    RealsOfBytes(t.enhanced);
    InterpWithin(temp, t.temps, Reals(t.enhanced), 0.0, 255.0);
  }

  /** The combined table of a temperature table and a colour table: 3000
      evenly spaced temperatures from -150 to 150, each mapped to the
      colour-table row its enhancement value selects. */
  function CombinedFrom(t: TemperatureTable, colors: seq<Rgb>): (c: CombinedTable)
    requires WellFormedTemperatureTable(t) && |colors| == ColorTableSize
    ensures |c.temps| == |c.rgb| == CombinedTableSize
    ensures c.temps == Linspace(-150.0, 150.0, CombinedTableSize)
    ensures c.temps[0] == -150.0 && c.temps[CombinedTableSize - 1] == 150.0
    ensures forall i :: 0 <= i < CombinedTableSize ==>
              exists k :: 0 <= k < ColorTableSize && c.rgb[i] == colors[k]
  {
    var temps := Linspace(-150.0, 150.0, CombinedTableSize);
    var rgb := seq(CombinedTableSize, i requires 0 <= i < CombinedTableSize => colors[EnhancementIndex(temps[i], t)]);
    assert forall i :: 0 <= i < CombinedTableSize ==> rgb[i] == colors[EnhancementIndex(temps[i], t)];
    CombinedTable(temps, rgb)
  }

  /** Each row of a combined table holds the colour that the clipped
      enhancement value of the row's temperature selects. */
  lemma CombinedFromRows(t: TemperatureTable, colors: seq<Rgb>)
    requires WellFormedTemperatureTable(t) && |colors| == ColorTableSize
    ensures var c := CombinedFrom(t, colors);
            forall i :: 0 <= i < CombinedTableSize ==> c.rgb[i] == colors[EnhancementIndex(c.temps[i], t)]
  {
  }

  /** The combined table of one channel code. */
  function CombinedLut(code: string): (c: CombinedTable)
    ensures |c.temps| == |c.rgb| == CombinedTableSize
    ensures AllByteColors(c.rgb)
  {
    var c := CombinedFrom(TemperatureLut(code), ColorLut(code));
    assert AllByteColors(c.rgb) by {
      forall i | 0 <= i < CombinedTableSize
        ensures c.rgb[i].IsByteColor()
      {
        var k :| 0 <= k < ColorTableSize && c.rgb[i] == ColorLut(code)[k];
      }
    }
    c
  }

  /** Each row of a code's combined table pairs a temperature of the
      evenly spaced grid from -150 to 150 with the colour-table row that the
      clipped enhancement value of that temperature selects. */
  lemma CombinedLutRows(code: string)
    ensures CombinedLut(code).temps == Linspace(-150.0, 150.0, CombinedTableSize)
    ensures forall i :: 0 <= i < CombinedTableSize ==>
              CombinedLut(code).rgb[i] == ColorLut(code)[EnhancementIndex(CombinedLut(code).temps[i], TemperatureLut(code))]
  {
    CombinedLutIsCombinedFrom(code);
    CombinedFromRows(TemperatureLut(code), ColorLut(code));
  }

  /** Along the combined table the colour-table row that is looked up moves
      in one direction only: it never rises for C07 as the temperature
      grows, and never falls for any other code. */
  lemma CombinedIndexMonotone(code: string, i: int, j: int)
    requires 0 <= i <= j < CombinedTableSize
    ensures var c := CombinedLut(code);
            FamilyOf(code) == Shortwave ==>
              EnhancementIndex(c.temps[i], TemperatureLut(code)) >= EnhancementIndex(c.temps[j], TemperatureLut(code))
    ensures var c := CombinedLut(code);
            FamilyOf(code) != Shortwave ==>
              EnhancementIndex(c.temps[i], TemperatureLut(code)) <= EnhancementIndex(c.temps[j], TemperatureLut(code))
  {
    var c := CombinedLut(code);
    var t := TemperatureLut(code);
    var ys := Reals(t.enhanced);
    CombinedLutRows(code);
    if i < j {
      IncreasingPair(c.temps, i, j);
    }
    var a := Interp(c.temps[i], t.temps, ys);
    var b := Interp(c.temps[j], t.temps, ys);
    ClipNeverActs(c.temps[i], t);
    ClipNeverActs(c.temps[j], t);
    if FamilyOf(code) == Shortwave {
      assert NonIncreasing(ys) by {
        forall k | 0 <= k < |ys| - 1 ensures ys[k] >= ys[k + 1] {
          TemperatureLutMonotone(code, k, k + 1);
        }
      }
      InterpAntitone(c.temps[i], c.temps[j], t.temps, ys);
      TruncMonotone(b, a);
    } else {
      assert NonDecreasing(ys) by {
        forall k | 0 <= k < |ys| - 1 ensures ys[k] <= ys[k + 1] {
          TemperatureLutMonotone(code, k, k + 1);
        }
      }
      InterpMonotone(c.temps[i], c.temps[j], t.temps, ys);
      TruncMonotone(a, b);
    }
  }

  /** The coldest and warmest rows of the combined table: a temperature
      beyond either end of the table takes the colour of the enhancement
      value at that end. */
  lemma CombinedEndRows(code: string)
    ensures CombinedLut(code).rgb[0] == ColorLut(code)[EnhancedValue(code, -150.0)]
    ensures CombinedLut(code).rgb[CombinedTableSize - 1] == ColorLut(code)[EnhancedValue(code, 150.0)]
  {
    var t := TemperatureLut(code);
    var last := TemperatureTableSize - 1;
    assert Reals(t.enhanced)[0] == EnhancedValue(code, -150.0) as real;
    assert Reals(t.enhanced)[last] == EnhancedValue(code, 150.0) as real;
    ClipNeverActs(-150.0, t);
    ClipNeverActs(150.0, t);
  }

  /** The enhancement values at the two ends of the temperature range:
      C07 runs from 255 down to 0, every other family from 0 up to 255. */
  lemma CurveEnds(code: string)
    ensures FamilyOf(code) == Shortwave ==> EnhancedValue(code, -150.0) == 255 && EnhancedValue(code, 150.0) == 0
    ensures FamilyOf(code) != Shortwave ==> EnhancedValue(code, -150.0) == 0 && EnhancedValue(code, 150.0) == 255
  {
    match FamilyOf(code)
    case Shortwave =>
      assert ShortwaveCurve(-150.0) == 255.0;
      assert ShortwaveCurve(150.0) == 0.0;
    case WaterVapor =>
      WaterVaporTablesWellFormed();
      RealsIncreasing(WaterVaporCurveTemps);
      RealsOfIndexValues(24);
      assert WaterVaporCurve(-150.0) == 0.0;
      assert WaterVaporCurve(150.0) == 255.0;
    case Window =>
      WindowTablesWellFormed();
      RealsIncreasing(WindowCurveTemps);
      RealsOfIndexValues(38);
      assert Reals(WindowCurveTemps)[0] == -110.0 && Reals(WindowCurveTemps)[37] == 57.0;
      assert WindowCurve(-150.0) == 0.0;
      assert WindowCurve(150.0) == 255.0;
    case Unclassified =>
      assert DefaultCurve(-150.0) == 0.0;
      assert DefaultCurve(150.0) == 255.0;
  }

  /** The colours of the coldest (-150) and warmest (150) rows of each
      family's combined table. */
  lemma CombinedEndColors(code: string)
    ensures FamilyOf(code) == Shortwave ==>
              CombinedLut(code).rgb[0] == Rgb(122, 122, 122) && CombinedLut(code).rgb[2999] == Rgb(0, 0, 0)
    ensures FamilyOf(code) == WaterVapor ==>
              CombinedLut(code).rgb[0] == Rgb(9, 239, 227) && CombinedLut(code).rgb[2999] == Rgb(0, 0, 0)
    ensures FamilyOf(code) == Window ==>
              CombinedLut(code).rgb[0] == Rgb(255, 255, 255) && CombinedLut(code).rgb[2999] == Rgb(5, 5, 5)
    ensures FamilyOf(code) == Unclassified ==>
              CombinedLut(code).rgb[0] == Rgb(0, 0, 0) && CombinedLut(code).rgb[2999] == Rgb(255, 255, 255)
  {
    CombinedEndRows(code);
    CurveEnds(code);
    ColorLutEnds(code);
  }

  // ---------------------------------------------------------------------
  // Caches
  // ---------------------------------------------------------------------

  /** The processor's three per-code caches. */
  datatype LutCache = LutCache(
    temperature: map<string, TemperatureTable>,
    color: map<string, seq<Rgb>>,
    combined: map<string, CombinedTable>)

  /** Every cached table is the table its builder makes for that code. */
  predicate Coherent(cache: LutCache) {
    && (forall code :: code in cache.temperature ==> cache.temperature[code] == TemperatureLut(code))
    && (forall code :: code in cache.color ==> cache.color[code] == ColorLut(code))
    && (forall code :: code in cache.combined ==> cache.combined[code] == CombinedLut(code))
  }

  const EmptyCache: LutCache := LutCache(map[], map[], map[])

  lemma EmptyCacheIsCoherent()
    ensures Coherent(EmptyCache)
  {
  }

  /** `_create_temperature_enhancement_lut`: a cached table is returned as
      it is; otherwise the table is built and cached. */
  function CachedTemperatureLut(cache: LutCache, code: string): (r: (LutCache, TemperatureTable))
    ensures code in cache.temperature ==> r == (cache, cache.temperature[code])
    ensures r.0.temperature == cache.temperature[code := r.1]
    ensures r.0.color == cache.color && r.0.combined == cache.combined
    ensures Coherent(cache) ==> Coherent(r.0) && r.1 == TemperatureLut(code)
  {
    if code in cache.temperature then (cache, cache.temperature[code])
    else
      var t := TemperatureLut(code);
      (cache.(temperature := cache.temperature[code := t]), t)
  }

  /** `_create_color_lut`: a cached table is returned as it is; otherwise
      the table is built and cached. */
  function CachedColorLut(cache: LutCache, code: string): (r: (LutCache, seq<Rgb>))
    ensures code in cache.color ==> r == (cache, cache.color[code])
    ensures r.0.color == cache.color[code := r.1]
    ensures r.0.temperature == cache.temperature && r.0.combined == cache.combined
    ensures Coherent(cache) ==> Coherent(r.0) && r.1 == ColorLut(code)
  {
    if code in cache.color then (cache, cache.color[code])
    else
      var lut := ColorLut(code);
      (cache.(color := cache.color[code := lut]), lut)
  }

  /** `create_combined_temperature_to_rgb_lut`: a cached combined table is
      returned with every cache untouched; otherwise the two component
      tables are fetched through their own caches, combined, and the result
      is cached. The caches only ever receive tables their builders made,
      so they are coherent whenever this is called. */
  function CreateCombinedLut(cache: LutCache, code: string): (r: (LutCache, CombinedTable))
    requires Coherent(cache)
    ensures code in cache.combined ==> r == (cache, cache.combined[code])
    ensures Coherent(r.0) && r.1 == CombinedLut(code)
    ensures code in r.0.combined && r.0.combined[code] == r.1
    ensures code in cache.combined || (code in r.0.temperature && code in r.0.color)
    ensures cache.temperature.Keys <= r.0.temperature.Keys && cache.color.Keys <= r.0.color.Keys
    ensures r.0.combined.Keys == cache.combined.Keys + {code}
  {
    if code in cache.combined then (cache, cache.combined[code])
    else
      var (c1, t) := CachedTemperatureLut(cache, code);
      var (c2, colors) := CachedColorLut(c1, code);
      var combined := CombinedFrom(t, colors);
      CombinedLutIsCombinedFrom(code);
      (c2.(combined := c2.combined[code := combined]), combined)
  }

  lemma CombinedLutIsCombinedFrom(code: string)
    ensures CombinedLut(code) == CombinedFrom(TemperatureLut(code), ColorLut(code))
  {
  }

  /** A repeat request for the same code returns the same table and leaves
      all three caches exactly as the first request left them. */
  lemma {:induction false} RepeatRequestIsCached(cache: LutCache, code: string)
    requires Coherent(cache)
    ensures var (c1, t1) := CreateCombinedLut(cache, code);
            CreateCombinedLut(c1, code) == (c1, t1)
  {
    var (c1, t1) := CreateCombinedLut(cache, code);
    assert code in c1.combined && c1.combined[code] == t1;
  }
}
