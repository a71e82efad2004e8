/** Calibration of raw radiance: the visible kappa0 / min-max / unchanged
    rule and the infrared Planck-constant selection. Arrays are calibrated
    pixel by pixel, so they are modelled as flat sequences of pixels. */
module Calibration {
  import opened Common

  // ---------------------------------------------------------------------
  // Visible and near-infrared channels
  // ---------------------------------------------------------------------

  /** A pixel of a float array: a number, or `None` for NaN. */
  type Pixel = Option<real>

  /** Elementwise product with a scalar; NaN stays NaN. */
  function Scale(s: seq<Pixel>, k: real): (r: seq<Pixel>)
    ensures |r| == |s|
    ensures forall i :: 0 <= i < |s| ==> (r[i].Some? <==> s[i].Some?)
    ensures forall i :: 0 <= i < |s| && s[i].Some? ==> r[i].value == s[i].value * k
  {
    seq(|s|, i requires 0 <= i < |s| => if s[i].Some? then Some(s[i].value * k) else None)
  }

  /** Elementwise division by a positive scalar; NaN stays NaN. */
  function DivideBy(s: seq<Pixel>, d: real): (r: seq<Pixel>)
    requires d > 0.0
    ensures |r| == |s|
    ensures forall i :: 0 <= i < |s| ==> (r[i].Some? <==> s[i].Some?)
    ensures forall i :: 0 <= i < |s| && s[i].Some? ==> r[i].value == s[i].value / d
  {
    seq(|s|, i requires 0 <= i < |s| => if s[i].Some? then Some(s[i].value / d) else None)
  }

  /** `np.nanmax`: the largest pixel that is not NaN, or NaN when every
      pixel is NaN (numpy warns and returns NaN rather than raising). */
  function NanMax(s: seq<Pixel>): (m: Pixel)
    ensures m.None? <==> forall i :: 0 <= i < |s| ==> s[i].None?
    ensures m.Some? ==> exists i :: 0 <= i < |s| && s[i].Some? && s[i].value == m.value
    ensures m.Some? ==> forall i :: 0 <= i < |s| && s[i].Some? ==> s[i].value <= m.value
  {
    if |s| == 0 then None
    else
      var rest := NanMax(s[1..]);
      assert forall i :: 1 <= i < |s| ==> s[i] == s[1..][i - 1];
      if s[0].None? then rest
      else if rest.None? || s[0].value >= rest.value then s[0]
      else rest
  }

  /** The visible calibration branch shared by both workers: with a kappa0
      the radiance is scaled by it; without one it is divided by its
      `nanmax` when that is positive, and returned unchanged when the
      maximum is not positive or is NaN (every pixel missing). `np.nanmax`
      of an empty array raises, which the worker reports as a failure. */
  function CalibrateVisible(radiance: seq<Pixel>, kappa0: Option<real>): (r: Outcome<seq<Pixel>>)
    ensures kappa0.Some? ==> r.Ok? && r.value == Scale(radiance, kappa0.value)
    ensures kappa0.Some? ==> |r.value| == |radiance|
                             && (forall i :: 0 <= i < |radiance| ==> (r.value[i].Some? <==> radiance[i].Some?))
                             && forall i :: 0 <= i < |radiance| && radiance[i].Some? ==>
                                  r.value[i].value == radiance[i].value * kappa0.value
    ensures kappa0.None? ==> (r.Fail? <==> |radiance| == 0)
    ensures kappa0.None? && r.Ok? && (forall i :: 0 <= i < |radiance| ==> radiance[i].None?) ==> r.value == radiance
    ensures kappa0.None? && r.Ok? && (forall i :: 0 <= i < |radiance| && radiance[i].Some? ==> radiance[i].value <= 0.0) ==>
              r.value == radiance
    ensures kappa0.None? && NanMax(radiance).Some? && NanMax(radiance).value > 0.0 ==>
              r.Ok? && |r.value| == |radiance|
              && (forall i :: 0 <= i < |radiance| ==> (r.value[i].Some? <==> radiance[i].Some?))
              && forall i :: 0 <= i < |radiance| && radiance[i].Some? ==>
                   r.value[i].value == radiance[i].value / NanMax(radiance).value
  {
    match kappa0
    case Some(k) => Ok(Scale(radiance, k))
    case None =>
      if |radiance| == 0 then Fail("zero-size array to reduction operation")
      else
        var m := NanMax(radiance);
        if m.Some? && m.value > 0.0 then Ok(DivideBy(radiance, m.value)) else Ok(radiance)
  }

  /** Min-max fallback: the brightest pixel maps to exactly 1, nothing
      exceeds 1, NaN pixels stay NaN, and the pixel ordering is kept. */
  lemma {:induction false} MinMaxPeakIsOne(radiance: seq<Pixel>)
    requires NanMax(radiance).Some? && NanMax(radiance).value > 0.0
    ensures CalibrateVisible(radiance, None).Ok?
    ensures var out := CalibrateVisible(radiance, None).value;
            && |out| == |radiance|
            && (forall i :: 0 <= i < |out| ==> (out[i].Some? <==> radiance[i].Some?))
            && (exists i :: 0 <= i < |out| && out[i] == Some(1.0))
            && (forall i :: 0 <= i < |out| && out[i].Some? ==> out[i].value <= 1.0)
            && (forall i, j ::
                  (0 <= i < |out| && 0 <= j < |out| && radiance[i].Some? && radiance[j].Some?
                   && radiance[i].value <= radiance[j].value) ==> out[i].value <= out[j].value)
  {
    var m := NanMax(radiance).value;
    assert |radiance| > 0;
    assert CalibrateVisible(radiance, None) == Ok(DivideBy(radiance, m));
    NormalizedProperties(radiance, m);
  }

  lemma NormalizedProperties(s: seq<Pixel>, m: real)
    requires NanMax(s) == Some(m) && m > 0.0
    ensures var out := DivideBy(s, m);
            && (exists i :: 0 <= i < |out| && out[i] == Some(1.0))
            && (forall i :: 0 <= i < |out| && out[i].Some? ==> out[i].value <= 1.0)
            && (forall i, j ::
                  (0 <= i < |out| && 0 <= j < |out| && s[i].Some? && s[j].Some?
                   && s[i].value <= s[j].value) ==> out[i].value <= out[j].value)
  {
    var out := DivideBy(s, m);
    var i :| 0 <= i < |s| && s[i].Some? && s[i].value == m;
    assert out[i].value == m / m == 1.0;
    assert out[i] == Some(1.0);
    forall j | 0 <= j < |out| && out[j].Some?
      ensures out[j].value <= 1.0
    {
      DivMonotone(s[j].value, m, m);
    }
    forall a, b | 0 <= a < |out| && 0 <= b < |out| && s[a].Some? && s[b].Some? && s[a].value <= s[b].value
      ensures out[a].value <= out[b].value
    {
      DivMonotone(s[a].value, s[b].value, m);
    }
  }

  lemma DivMonotone(x: real, y: real, d: real)
    requires d > 0.0 && x <= y
    ensures x / d <= y / d
  {
  }

  /** Applying the min-max fallback to its own output changes nothing. */
  lemma {:induction false} MinMaxIdempotent(radiance: seq<Pixel>)
    requires |radiance| > 0
    ensures CalibrateVisible(radiance, None).Ok?
    ensures CalibrateVisible(CalibrateVisible(radiance, None).value, None)
            == CalibrateVisible(radiance, None)
  {
    var m := NanMax(radiance);
    if m.Some? && m.value > 0.0 {
      MinMaxPeakIsOne(radiance);
      var out := CalibrateVisible(radiance, None).value;
      PeakOneIsNanMax(out);
      DivideByOne(out);
    }
  }

  /** Pixels whose present values peak at exactly 1 have `nanmax` 1. */
  lemma PeakOneIsNanMax(s: seq<Pixel>)
    requires exists i :: 0 <= i < |s| && s[i] == Some(1.0)
    requires forall i :: 0 <= i < |s| && s[i].Some? ==> s[i].value <= 1.0
    ensures NanMax(s) == Some(1.0)
  {
    var i :| 0 <= i < |s| && s[i] == Some(1.0);
    assert s[i].Some?;
  }

  lemma DivideByOne(s: seq<Pixel>)
    ensures DivideBy(s, 1.0) == s
  {
    var r := DivideBy(s, 1.0);
    forall i | 0 <= i < |s|
      ensures r[i] == s[i]
    {
    }
  }

  // ---------------------------------------------------------------------
  // Infrared channels
  // ---------------------------------------------------------------------

  /** The four Planck calibration constants of an infrared channel. */
  datatype PlanckConstants = PlanckConstants(fk1: real, fk2: real, bc1: real, bc2: real)

  /** A row of the fallback table: central wavelength and Planck constants. */
  datatype ChannelConstants = ChannelConstants(wavelength: real, planck: PlanckConstants)

  /** `CHANNEL_CONSTANTS`, keyed by channel code. */
  const ChannelConstantsTable: map<string, ChannelConstants> :=
    map[
      "C07" := ChannelConstants(3.8853, PlanckConstants(5449.58, 920.062, 0.43616, 0.99715)),
      "C08" := ChannelConstants(6.2428, PlanckConstants(2083.80, 897.668, 0.27387, 0.99636)),
      "C09" := ChannelConstants(6.9419, PlanckConstants(1673.80, 895.963, 0.30802, 0.99574)),
      "C10" := ChannelConstants(7.3414, PlanckConstants(1499.79, 894.765, 0.33708, 0.99536)),
      "C11" := ChannelConstants(8.4447, PlanckConstants(1128.55, 889.377, 0.39298, 0.99419)),
      "C12" := ChannelConstants(9.6136, PlanckConstants(868.052, 878.786, 0.47261, 0.99248)),
      "C13" := ChannelConstants(10.3499, PlanckConstants(747.300, 868.467, 0.53083, 0.99111)),
      "C14" := ChannelConstants(11.1949, PlanckConstants(634.106, 855.701, 0.60474, 0.98917)),
      "C15" := ChannelConstants(12.2740, PlanckConstants(516.292, 836.581, 0.70681, 0.98622)),
      "C16" := ChannelConstants(13.2807, PlanckConstants(431.815, 816.406, 0.81669, 0.98279))
    ]

  /** Constants a loaded file may carry; any of them may be absent. */
  datatype RecordConstants = RecordConstants(fk1: Option<real>, fk2: Option<real>,
                                             bc1: Option<real>, bc2: Option<real>)

  /** The stand-in dataset the workers build: only when the record has an
      `fk1` is one passed to the calibration at all. */
  function StandInDataset(record: RecordConstants): (ds: Option<RecordConstants>)
    ensures ds.Some? <==> record.fk1.Some?
    ensures ds.Some? ==> ds.value == record
  {
    if record.fk1.Some? then Some(record) else None
  }

  predicate Complete(c: RecordConstants) {
    c.fk1.Some? && c.fk2.Some? && c.bc1.Some? && c.bc2.Some?
  }

  /** `CHANNEL_CONSTANTS.get(code, CHANNEL_CONSTANTS['C13'])`. */
  function TableConstants(code: string): (c: PlanckConstants)
    ensures code in ChannelConstantsTable ==> c == ChannelConstantsTable[code].planck
    ensures code !in ChannelConstantsTable ==> c == ChannelConstantsTable["C13"].planck
  {
    if code in ChannelConstantsTable then ChannelConstantsTable[code].planck
    else ChannelConstantsTable["C13"].planck
  }

  /** The constant selection of `radiance_to_brightness_temp`: a dataset
      whose four constants can all be read supplies them; reading a missing
      one raises inside the `try`, and both that case and the absence of a
      dataset fall back to the channel's table row, or to C13's row for an
      unrecognised code. */
  function SelectConstants(code: string, ds: Option<RecordConstants>): (c: PlanckConstants)
    ensures ds.Some? && Complete(ds.value) ==>
              c == PlanckConstants(ds.value.fk1.value, ds.value.fk2.value, ds.value.bc1.value, ds.value.bc2.value)
    ensures !(ds.Some? && Complete(ds.value)) && code in ChannelConstantsTable ==>
              c == ChannelConstantsTable[code].planck
    ensures !(ds.Some? && Complete(ds.value)) && code !in ChannelConstantsTable ==>
              c == ChannelConstantsTable["C13"].planck
  {
    if ds.Some? && Complete(ds.value) then
      PlanckConstants(ds.value.fk1.value, ds.value.fk2.value, ds.value.bc1.value, ds.value.bc2.value)
    else
      TableConstants(code)
  }

  /** Every fallback row has positive constants, which is what makes the
      brightness temperature of a positive radiance finite. */
  predicate PhysicallyValid(c: PlanckConstants) {
    c.fk1 > 0.0 && c.fk2 > 0.0 && c.bc2 > 0.0
  }

  lemma FallbackTableIsValid(code: string, ds: Option<RecordConstants>)
    requires !(ds.Some? && Complete(ds.value))
    ensures PhysicallyValid(SelectConstants(code, ds))
  {
  }

  /** A record's constants are all-or-nothing: the selected constants come
      entirely from the record or entirely from one table row, never mixed. */
  lemma SelectionNeverMixesSources(code: string, record: RecordConstants)
    ensures var c := SelectConstants(code, StandInDataset(record));
            (Complete(record) && c == PlanckConstants(record.fk1.value, record.fk2.value,
                                                      record.bc1.value, record.bc2.value))
            || (exists k :: k in ChannelConstantsTable && c == ChannelConstantsTable[k].planck)
  {
    if !Complete(record) {
      var k := if code in ChannelConstantsTable then code else "C13";
      assert k in ChannelConstantsTable;
    }
  }

  /** Brightness temperature of one pixel, with the natural logarithm left
      as a parameter. Non-positive radiance is "no data"; a zero divisor
      (which numpy turns into an infinity or NaN) is "no data" as well. */
  function PixelTemperature(radiance: real, c: PlanckConstants, ln: real -> real): (t: Option<real>)
    ensures radiance <= 0.0 ==> t.None?
    ensures t.Some? <==> radiance > 0.0 && ln(c.fk1 / radiance + 1.0) != 0.0 && c.bc2 != 0.0
    ensures t.Some? ==> c.bc1 + c.bc2 * t.value == c.fk2 / ln(c.fk1 / radiance + 1.0)
  {
    if radiance > 0.0 && ln(c.fk1 / radiance + 1.0) != 0.0 && c.bc2 != 0.0 then
      var effective := c.fk2 / ln(c.fk1 / radiance + 1.0);
      TimesQuotient(effective - c.bc1, c.bc2);
      Some((effective - c.bc1) / c.bc2)
    else None
  }

  lemma TimesQuotient(a: real, b: real)
    requires b != 0.0
    ensures b * (a / b) == a
  {
  }

  /** `radiance_to_brightness_temp` after constant selection. */
  function BrightnessTemperature(radiance: seq<real>, c: PlanckConstants, ln: real -> real): (bt: seq<Option<real>>)
    ensures |bt| == |radiance|
    ensures forall i :: 0 <= i < |radiance| ==> (bt[i].Some? ==> radiance[i] > 0.0)
    ensures forall i :: 0 <= i < |radiance| ==> bt[i] == PixelTemperature(radiance[i], c, ln)
  {
    seq(|radiance|, i requires 0 <= i < |radiance| => PixelTemperature(radiance[i], c, ln))
  }

  /** The exponent of the inverse Planck relation, `fk2 / (bc1 + bc2 * t)`. */
  function PlanckExponent(t: real, c: PlanckConstants): real
    requires c.bc1 + c.bc2 * t != 0.0
  {
    c.fk2 / (c.bc1 + c.bc2 * t)
  }

  /** The inverse Planck relation: the radiance a blackbody of temperature
      `t` produces, with the exponential left as a parameter. */
  function InversePlanck(t: real, c: PlanckConstants, exp: real -> real): real
    requires c.bc1 + c.bc2 * t != 0.0
    requires exp(PlanckExponent(t, c)) != 1.0
  {
    c.fk1 / (exp(PlanckExponent(t, c)) - 1.0)
  }

  /** Round trip: the radiance of a known temperature calibrates back to
      exactly that temperature, for any logarithm that inverts the
      exponential and any exponential that exceeds 1 on positive inputs. */
  lemma {:induction false} BrightnessTemperatureRoundTrip(t: real, c: PlanckConstants,
                                                          ln: real -> real, exp: real -> real)
    requires PhysicallyValid(c)
    requires c.bc1 + c.bc2 * t > 0.0
    requires forall y :: ln(exp(y)) == y
    requires forall y :: y > 0.0 ==> exp(y) > 1.0
    ensures exp(PlanckExponent(t, c)) != 1.0
    ensures PixelTemperature(InversePlanck(t, c, exp), c, ln) == Some(t)
  {
    var y := PlanckExponent(t, c);
    ExponentInvertsToTemperature(t, c);
    var e := exp(y);
    assert e > 1.0;
    var rad := c.fk1 / (e - 1.0);
    assert InversePlanck(t, c, exp) == rad;
    DivideByQuotient(c.fk1, e - 1.0);
    assert ln(c.fk1 / rad + 1.0) == y;
  }

  /** The Planck exponent of a temperature is positive, and the linear
      band correction maps it back to that temperature. */
  lemma ExponentInvertsToTemperature(t: real, c: PlanckConstants)
    requires PhysicallyValid(c)
    requires c.bc1 + c.bc2 * t > 0.0
    ensures PlanckExponent(t, c) > 0.0
    ensures (c.fk2 / PlanckExponent(t, c) - c.bc1) / c.bc2 == t
  {
    var d := c.bc1 + c.bc2 * t;
    assert PlanckExponent(t, c) == c.fk2 / d;
    DivideByQuotient(c.fk2, d);
    assert c.fk2 / PlanckExponent(t, c) - c.bc1 == c.bc2 * t;
    assert (c.bc2 * t) / c.bc2 == t;
  }

  lemma DivideByQuotient(a: real, b: real)
    requires a > 0.0 && b > 0.0
    ensures a / b > 0.0
    ensures a / (a / b) == b
  {
    var q := a / b;
    assert q * b == a;
  }
}
