/** The GOES projection authority: the fixed-grid extent read once from the
    first loaded file, the three-band resolution classifier, the
    geotransform handed out for an array of any size, and the process-wide
    slot that holds the authority once it is initialised. */
module Projection {
  import opened Common

  /** The projection variable and coordinate arrays of one loaded file
      (scan angles in radians, height in metres). */
  datatype ProjectionSource = ProjectionSource(
    satLon: real, satHeight: real, semiMajor: real, semiMinor: real,
    invFlattening: real, sweepAxis: string,
    x: seq<real>, y: seq<real>)

  /** The state of an initialised authority. */
  datatype Authority = Authority(
    satLon: real, satHeight: real, semiMajor: real, semiMinor: real,
    invFlattening: real, sweepAxis: string,
    xMin: real, xMax: real, yMin: real, yMax: real,
    xExtent: real, yExtent: real,
    sourceResolutionKm: real)

  // ---------------------------------------------------------------------
  // Resolution classes
  // ---------------------------------------------------------------------

  /** Pixel sizes (radians) below this are 0.5 km pixels. */
  const HalfKmLimit: real := 0.000021
  /** Pixel sizes (radians) below this, and not below the first limit, are
      1 km pixels; everything else is 2 km. */
  const OneKmLimit: real := 0.000042

  /** The nominal pixel size in radians of each ABI resolution in km. */
  const ResolutionMap: map<real, real> := map[0.5 := 0.000014, 1.0 := 0.000028, 2.0 := 0.000056]

  /** The resolution in km a pixel size in radians is classified as. */
  function ResolutionClass(pixelSize: real): (km: real)
    ensures km == 0.5 || km == 1.0 || km == 2.0
    ensures km == 0.5 <==> pixelSize < HalfKmLimit
    ensures km == 2.0 <==> OneKmLimit <= pixelSize
  {
    if pixelSize < HalfKmLimit then 0.5
    else if pixelSize < OneKmLimit then 1.0
    else 2.0
  }

  /** A larger pixel is never classified as a finer resolution. */
  lemma ResolutionClassMonotone(a: real, b: real)
    requires a <= b
    ensures ResolutionClass(a) <= ResolutionClass(b)
  {
  }

  /** Each nominal pixel size falls in the band of its own resolution. */
  lemma NominalSizesClassifyToTheirResolution()
    ensures forall km :: km in ResolutionMap ==> ResolutionClass(ResolutionMap[km]) == km
  {
  }

  // ---------------------------------------------------------------------
  // Initialisation
  // ---------------------------------------------------------------------

  /** `GOESProjectionAuthority.__init__`: the extent is the min and max of
      the coordinate arrays, and the file's own resolution comes from the
      spacing of its first two x coordinates. An empty coordinate array, or
      an x array with a single entry, raises. */
  function InitAuthority(src: ProjectionSource): (r: Outcome<Authority>)
    ensures r.Fail? <==> |src.x| < 2 || |src.y| == 0
    ensures r.Ok? ==> var a := r.value;
              && a.satHeight == src.satHeight
              && a.xExtent == a.xMax - a.xMin >= 0.0
              && a.yExtent == a.yMax - a.yMin >= 0.0
              && (forall i :: 0 <= i < |src.x| ==> a.xMin <= src.x[i] <= a.xMax)
              && (forall i :: 0 <= i < |src.y| ==> a.yMin <= src.y[i] <= a.yMax)
              && (exists i :: 0 <= i < |src.x| && src.x[i] == a.xMin)
              && (exists i :: 0 <= i < |src.x| && src.x[i] == a.xMax)
              && (exists i :: 0 <= i < |src.y| && src.y[i] == a.yMin)
              && (exists i :: 0 <= i < |src.y| && src.y[i] == a.yMax)
              && a.sourceResolutionKm == ResolutionClass(Abs(src.x[1] - src.x[0]))
  {
    if |src.x| == 0 || |src.y| == 0 then Fail("zero-size array to reduction operation")
    else if |src.x| < 2 then Fail("index 1 is out of bounds")
    else
      var xMin, xMax := SeqMin(src.x), SeqMax(src.x);
      var yMin, yMax := SeqMin(src.y), SeqMax(src.y);
      Ok(Authority(src.satLon, src.satHeight, src.semiMajor, src.semiMinor,
                   src.invFlattening, src.sweepAxis,
                   xMin, xMax, yMin, yMax, xMax - xMin, yMax - yMin,
                   ResolutionClass(Abs(src.x[1] - src.x[0]))))
  }

  // ---------------------------------------------------------------------
  // Resolution detection and geotransform
  // ---------------------------------------------------------------------

  /** What `detect_resolution_from_dimensions` returns. */
  datatype Detection = Detection(km: real, dx: real, dy: real)

  /** `detect_resolution_from_dimensions`: the extent divided by the array
      size gives the pixel spacing, and the x spacing is classified. A zero
      width or height is a division by zero. */
  function DetectResolution(a: Authority, width: nat, height: nat): (r: Outcome<Detection>)
    ensures r.Fail? <==> width == 0 || height == 0
    ensures r.Ok? ==> r.value.dx * width as real == a.xExtent
    ensures r.Ok? ==> r.value.dy * height as real == a.yExtent
    ensures r.Ok? ==> r.value.km == ResolutionClass(Abs(r.value.dx))
  {
    if width == 0 || height == 0 then Fail("float division by zero")
    else
      var dx := a.xExtent / width as real;
      var dy := a.yExtent / height as real;
      Ok(Detection(ResolutionClass(Abs(dx)), dx, dy))
  }

  /** An array with more columns over the same extent is never classified
      as a coarser resolution; this is how upscaled products are recognised
      as finer than their source channel. */
  lemma WiderArrayNeverCoarser(a: Authority, w1: nat, w2: nat, height: nat)
    requires 0 < w1 <= w2 && height > 0
    requires a.xExtent >= 0.0
    ensures DetectResolution(a, w2, height).value.km <= DetectResolution(a, w1, height).value.km
  {
    var d1 := DetectResolution(a, w1, height).value;
    var d2 := DetectResolution(a, w2, height).value;
    DivideByLarger(a.xExtent, w1 as real, w2 as real);
    ResolutionClassMonotone(Abs(d2.dx), Abs(d1.dx));
  }

  lemma DivideByLarger(x: real, p: real, q: real)
    requires x >= 0.0 && 0.0 < p <= q
    ensures 0.0 <= x / q <= x / p
  {
    assert x / p - x / q == x * (q - p) / (p * q);
  }

  /** `get_geotransform`: the GDAL six-tuple `[origin x, pixel width, 0,
      origin y, 0, -pixel height]` in metres, with the origin at the upper
      left corner of the extent. */
  function Geotransform(a: Authority, width: nat, height: nat): (r: Outcome<seq<real>>)
    ensures r.Fail? <==> width == 0 || height == 0
    ensures r.Ok? ==> |r.value| == 6
    ensures r.Ok? ==> r.value[2] == 0.0 && r.value[4] == 0.0 && r.value[5] <= 0.0
    ensures r.Ok? ==> r.value[0] == a.xMin * a.satHeight && r.value[3] == a.yMax * a.satHeight
    ensures r.Ok? ==> r.value[1] * width as real == a.xExtent * a.satHeight
    ensures r.Ok? ==> r.value[5] * height as real == -Abs(a.yExtent * a.satHeight)
  {
    match DetectResolution(a, width, height)
    case Fail(reason) => Fail(reason)
    case Ok(d) =>
      ScaledSpacing(d.dx, width as real, a.xExtent, a.satHeight);
      ScaledSpacing(d.dy, height as real, a.yExtent, a.satHeight);
      Ok([a.xMin * a.satHeight, d.dx * a.satHeight, 0.0,
          a.yMax * a.satHeight, 0.0, -Abs(d.dy * a.satHeight)])
  }

  /** A spacing that spans an extent in `n` steps, scaled by `h`, spans the
      scaled extent; so does its negated magnitude, up to sign. */
  lemma ScaledSpacing(d: real, n: real, extent: real, h: real)
    requires n > 0.0 && d * n == extent
    ensures d * h * n == extent * h
    ensures -Abs(d * h) * n == -Abs(extent * h)
  {
    assert d * h * n == (d * n) * h;
    if d * h < 0.0 {
      assert extent * h == d * h * n;
    }
  }

  /** The geotransform of an array of any size covers exactly the
      authority's extent: `width` pixels to the right of the origin lie at
      the right edge of the extent and, for a positive satellite height,
      `height` pixels below it lie at the bottom edge. */
  lemma GeotransformCoversExtent(a: Authority, width: nat, height: nat)
    requires width > 0 && height > 0
    requires a.yExtent == a.yMax - a.yMin >= 0.0 && a.xExtent == a.xMax - a.xMin
    ensures var gt := Geotransform(a, width, height).value;
            gt[0] + width as real * gt[1] == a.xMax * a.satHeight
    ensures a.satHeight >= 0.0 ==>
              var gt := Geotransform(a, width, height).value;
              gt[3] + height as real * gt[5] == a.yMin * a.satHeight
  {
    var d := DetectResolution(a, width, height).value;
    var gt := Geotransform(a, width, height).value;
    var h := a.satHeight;
    assert gt[1] == d.dx * h;
    assert width as real * (d.dx * h) == (d.dx * width as real) * h;
    assert (a.xMax - a.xMin) * h == a.xMax * h - a.xMin * h;
    if h >= 0.0 {
      DivideByLarger(a.yExtent, height as real, height as real);
      assert d.dy * h >= 0.0;
      assert gt[5] == -(d.dy * h);
      assert height as real * (d.dy * h) == (d.dy * height as real) * h;
      assert (a.yMax - a.yMin) * h == a.yMax * h - a.yMin * h;
    }
  }

  // ---------------------------------------------------------------------
  // The process-wide slot
  // ---------------------------------------------------------------------

  /** `get_projection_authority`: the authority, or an error when it has not
      been initialised. */
  function GetProjectionAuthority(slot: Option<Authority>): (r: Outcome<Authority>)
    ensures r.Ok? <==> slot.Some?
    ensures r.Ok? ==> r.value == slot.value
  {
    match slot
    case None => Fail("GOES Projection Authority not initialized")
    case Some(a) => Ok(a)
  }

  /** A loaded file that yields an authority: it could be opened and its
      coordinate arrays are large enough. */
  predicate Usable(file: Option<ProjectionSource>) {
    file.Some? && InitAuthority(file.value).Ok?
  }

  /** The initialisation step of one channel load: an empty slot is filled
      from the channel's file; a failure leaves it empty (and fails that
      channel's load); a filled slot is never touched again. A file that
      could not be opened at all is `None`. */
  function InitializeOnce(slot: Option<Authority>, file: Option<ProjectionSource>): (r: Option<Authority>)
    ensures slot.Some? ==> r == slot
    ensures slot.None? && Usable(file) ==> r == Some(InitAuthority(file.value).value)
    ensures slot.None? && !Usable(file) ==> r.None?
  {
    if slot.Some? then slot
    else if file.None? then None
    else
      match InitAuthority(file.value)
      case Ok(a) => Some(a)
      case Fail(_) => None
  }

  /** The slot after loading each channel's file in turn. */
  function LoadAuthority(slot: Option<Authority>, files: seq<Option<ProjectionSource>>): (r: Option<Authority>)
    ensures slot.Some? ==> r == slot
    ensures r.None? ==> slot.None? && forall k :: 0 <= k < |files| ==> !Usable(files[k])
    decreases |files|
  {
    if |files| == 0 then slot
    else
      var r := LoadAuthority(InitializeOnce(slot, files[0]), files[1..]);
      assert r.None? ==> forall k :: 1 <= k < |files| ==> files[k] == files[1..][k - 1];
      r
  }

  /** Once set, the authority survives every later load unchanged. */
  lemma {:induction false} LoadKeepsAuthority(a: Authority, files: seq<Option<ProjectionSource>>)
    ensures LoadAuthority(Some(a), files) == Some(a)
    decreases |files|
  {
    if |files| > 0 {
      LoadKeepsAuthority(a, files[1..]);
    }
  }

  /** Starting from an empty slot, the authority is initialised from the
      first usable file, and stays uninitialised only when no file is
      usable. */
  lemma {:induction false} AuthorityFromFirstUsableFile(files: seq<Option<ProjectionSource>>)
    ensures LoadAuthority(None, files).None? <==> forall k :: 0 <= k < |files| ==> !Usable(files[k])
    ensures forall k :: 0 <= k < |files| && Usable(files[k]) && (forall j :: 0 <= j < k ==> !Usable(files[j])) ==>
              LoadAuthority(None, files) == Some(InitAuthority(files[k].value).value)
    decreases |files|
  {
    if |files| > 0 {
      var rest := files[1..];
      if Usable(files[0]) {
        LoadKeepsAuthority(InitAuthority(files[0].value).value, rest);
      } else {
        assert LoadAuthority(None, files) == LoadAuthority(None, rest);
        AuthorityFromFirstUsableFile(rest);
        assert (forall k :: 0 <= k < |files| ==> !Usable(files[k])) <==>
               (forall k :: 0 <= k < |rest| ==> !Usable(rest[k])) by {
          assert forall k :: 1 <= k < |files| ==> files[k] == rest[k - 1];
        }
        forall k | 0 <= k < |files| && Usable(files[k]) && (forall j :: 0 <= j < k ==> !Usable(files[j]))
          ensures LoadAuthority(None, files) == Some(InitAuthority(files[k].value).value)
        {
          FirstUsableInRest(files, k);
        }
      }
    }
  }

  /** When the first file is unusable, the first usable file sits one
      place earlier in the remaining files. */
  lemma FirstUsableInRest(files: seq<Option<ProjectionSource>>, k: int)
    requires 0 <= k < |files| && !Usable(files[0])
    requires Usable(files[k]) && forall j :: 0 <= j < k ==> !Usable(files[j])
    ensures 1 <= k && files[1..][k - 1] == files[k]
    ensures forall j :: 0 <= j < k - 1 ==> !Usable(files[1..][j])
  {
    forall j | 0 <= j < k - 1
      ensures !Usable(files[1..][j])
    {
      assert files[1..][j] == files[j + 1];
    }
  }
}
