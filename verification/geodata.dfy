/** The geospatial export helper: strided grid sampling, the padded image
    and sampled grid dimensions, the lat/lon bounds, and the conversion of
    numpy values to JSON-ready Python values. */
module Geodata {
  import opened Common

  // ---------------------------------------------------------------------
  // sample_grid
  // ---------------------------------------------------------------------

  /** A numpy array by rank: a 2-D grid, a 3-D grid whose last axis holds
      each cell's values, or an array of any other rank, kept flat. */
  datatype NdArray =
    | Rank2(grid: seq<seq<real>>)
    | Rank3(cells: seq<seq<seq<real>>>)
    | OtherRank(ndim: nat, flat: seq<real>)

  /** Every row of the grid has `cols` entries. */
  predicate Rectangular<T>(g: seq<seq<T>>, cols: nat) {
    forall i :: 0 <= i < |g| ==> |g[i]| == cols
  }

  /** Every index a `::step` slice keeps lies inside the sliced length. */
  lemma StridedIndexInRange(n: nat, step: nat, i: nat)
    requires step > 0 && i < StridedLength(n, step)
    ensures i * step < n
  {
    var q := StridedLength(n, step);
    assert q * step <= n + step - 1;
    MulLeft(i + 1, q, step);
  }

  /** `row[::rate]`. */
  function SampleRow<T>(row: seq<T>, rate: nat): (out: seq<T>)
    requires rate > 0
    ensures |out| == StridedLength(|row|, rate)
    ensures forall j :: 0 <= j < |out| ==> j * rate < |row| && out[j] == row[j * rate]
  {
    var out := seq(StridedLength(|row|, rate), j requires 0 <= j < StridedLength(|row|, rate) =>
      StridedIndexInRange(|row|, rate, j); row[j * rate]);
    assert forall j :: 0 <= j < |out| ==> j * rate < |row| && out[j] == row[j * rate] by {
      forall j | 0 <= j < |out|
        ensures j * rate < |row| && out[j] == row[j * rate]
      {
        StridedIndexInRange(|row|, rate, j);
      }
    }
    out
  }

  /** Sampling one row is the same slice the solar-angle thinning takes. */
  lemma SampleRowIsStride<T>(row: seq<T>, rate: nat)
    requires rate > 0
    ensures SampleRow(row, rate) == Stride(row, rate)
  {
    var a, b := SampleRow(row, rate), Stride(row, rate);
    assert |a| == |b|;
    forall k | 0 <= k < |a|
      ensures a[k] == b[k]
    {
    }
  }

  /** `g[::rate, ::rate]` on the first two axes of a grid. */
  function SampleRows<T>(g: seq<seq<T>>, rate: nat): (out: seq<seq<T>>)
    requires rate > 0
    ensures |out| == StridedLength(|g|, rate)
    ensures forall i :: 0 <= i < |out| ==> i * rate < |g| && out[i] == SampleRow(g[i * rate], rate)
  {
    var out := seq(StridedLength(|g|, rate), i requires 0 <= i < StridedLength(|g|, rate) =>
      StridedIndexInRange(|g|, rate, i); SampleRow(g[i * rate], rate));
    assert forall i :: 0 <= i < |out| ==> i * rate < |g| && out[i] == SampleRow(g[i * rate], rate) by {
      forall i | 0 <= i < |out|
        ensures i * rate < |g| && out[i] == SampleRow(g[i * rate], rate)
      {
        StridedIndexInRange(|g|, rate, i);
      }
    }
    out
  }

  /** `sample_grid`: a 2-D array keeps every `rate`-th row and column, a
      3-D array does the same and keeps each cell's last-axis vector whole,
      and any other rank comes back untouched. A zero rate is the error
      Python raises for a zero slice step, and only arises when slicing. */
  function SampleGrid(arr: NdArray, rate: nat): (r: Outcome<NdArray>)
    ensures r.Fail? <==> rate == 0 && !arr.OtherRank?
    ensures arr.OtherRank? ==> r == Ok(arr)
    ensures r.Ok? && arr.Rank2? ==> r.value.Rank2?
    ensures r.Ok? && arr.Rank3? ==> r.value.Rank3?
  {
    if arr.OtherRank? then Ok(arr)
    else if rate == 0 then Fail("slice step cannot be zero")
    else match arr
      case Rank2(g) => Ok(Rank2(SampleRows(g, rate)))
      case Rank3(c) => Ok(Rank3(SampleRows(c, rate)))
  }

  /** A rows x cols grid samples to a ceil(rows/rate) x ceil(cols/rate)
      grid whose cell (i, j) is the input's cell (i*rate, j*rate). */
  lemma SampledGridShape(g: seq<seq<real>>, cols: nat, rate: nat)
    requires rate > 0 && Rectangular(g, cols)
    ensures SampleGrid(Rank2(g), rate).Ok?
    ensures var out := SampleGrid(Rank2(g), rate).value.grid;
            |out| == StridedLength(|g|, rate) && Rectangular(out, StridedLength(cols, rate))
            && forall i, j :: 0 <= i < |out| && 0 <= j < |out[i]| ==>
                 i * rate < |g| && j * rate < |g[i * rate]| && out[i][j] == g[i * rate][j * rate]
  {
    assert SampleGrid(Rank2(g), rate).value.grid == SampleRows(g, rate);
  }

  /** For a 3-D grid only the first two axes are thinned: every sampled
      cell is the input's cell vector, unchanged. */
  lemma SampledCellsKeepLastAxis(c: seq<seq<seq<real>>>, rate: nat)
    requires rate > 0
    ensures SampleGrid(Rank3(c), rate).Ok?
    ensures var out := SampleGrid(Rank3(c), rate).value.cells;
            |out| == StridedLength(|c|, rate)
            && forall i, j :: 0 <= i < |out| && 0 <= j < |out[i]| ==>
                 i * rate < |c| && j * rate < |c[i * rate]| && out[i][j] == c[i * rate][j * rate]
  {
    assert SampleGrid(Rank3(c), rate).value.cells == SampleRows(c, rate);
  }

  // ---------------------------------------------------------------------
  // Dimensions
  // ---------------------------------------------------------------------

  /** The rate the export samples the stored grids with. */
  const ExportSampleRate: nat := 2

  /** The padding dictionary's four sides. */
  const PaddingSides: seq<string> := ["left", "right", "top", "bottom"]

  /** The padded image size: the core size plus the padding on both sides;
      a missing side is the `KeyError` the dictionary lookup raises. */
  function TotalDimensions(coreWidth: int, coreHeight: int, padding: map<string, int>): (r: Outcome<(int, int)>)
    ensures r.Fail? <==> exists side :: side in PaddingSides && side !in padding
    ensures r.Ok? ==> r.value.0 - coreWidth == padding["left"] + padding["right"]
    ensures r.Ok? ==> r.value.1 - coreHeight == padding["top"] + padding["bottom"]
  {
    if "left" !in padding then Fail("KeyError: 'left'")
    else if "right" !in padding then Fail("KeyError: 'right'")
    else if "top" !in padding then Fail("KeyError: 'top'")
    else if "bottom" !in padding then Fail("KeyError: 'bottom'")
    else Ok((coreWidth + padding["left"] + padding["right"], coreHeight + padding["top"] + padding["bottom"]))
  }

  /** `grid_dimensions`: the number of sampled rows, and the length of the
      first row, or 0 when there are no rows. */
  function GridDimensions(sampled: seq<seq<real>>): (dims: (nat, nat))
    ensures dims.0 == |sampled|
    ensures |sampled| > 0 ==> dims.1 == |sampled[0]|
    ensures |sampled| == 0 ==> dims.1 == 0
  {
    (|sampled|, if |sampled| > 0 then |sampled[0]| else 0)
  }

  /** The reported grid dimensions of a sampled rows x cols grid are the
      strided lengths of both axes, and 0 x 0 for a grid with no rows. */
  lemma GridDimensionsOfSampledGrid(g: seq<seq<real>>, cols: nat, rate: nat)
    requires rate > 0 && Rectangular(g, cols)
    ensures var dims := GridDimensions(SampleRows(g, rate));
            dims.0 == StridedLength(|g|, rate)
            && (|g| > 0 ==> dims.1 == StridedLength(cols, rate))
            && (|g| == 0 ==> dims == (0, 0))
  {
    if |g| > 0 {
      StridedLengthStep(|g|, rate);
      assert |SampleRows(g, rate)| > 0;
    }
  }

  // ---------------------------------------------------------------------
  // Bounds
  // ---------------------------------------------------------------------

  /** All entries of a grid, row after row. */
  function Flatten(g: seq<seq<real>>): (flat: seq<real>)
    ensures forall i, j :: 0 <= i < |g| && 0 <= j < |g[i]| ==> g[i][j] in flat
    ensures forall x :: x in flat ==> exists i, j :: 0 <= i < |g| && 0 <= j < |g[i]| && g[i][j] == x
  {
    if |g| == 0 then []
    else
      var rest := Flatten(g[1..]);
      assert forall i :: 1 <= i < |g| ==> g[i] == g[1..][i - 1];
      g[0] + rest
  }

  /** `min_lat, max_lat, min_lon, max_lon`. */
  datatype Bounds = Bounds(minLat: real, maxLat: real, minLon: real, maxLon: real)

  /** The least and greatest entry of a grid; reducing a zero-size array
      raises a `ValueError`. */
  function GridRange(g: seq<seq<real>>): (r: Outcome<(real, real)>)
    ensures r.Fail? <==> |Flatten(g)| == 0
    ensures r.Ok? ==> r.value.0 <= r.value.1
    ensures r.Ok? ==> forall i, j :: 0 <= i < |g| && 0 <= j < |g[i]| ==> r.value.0 <= g[i][j] <= r.value.1
    ensures r.Ok? ==> r.value.0 in Flatten(g) && r.value.1 in Flatten(g)
  {
    var flat := Flatten(g);
    if |flat| == 0 then Fail("zero-size array to reduction operation")
    else
      var lo, hi := SeqMin(flat), SeqMax(flat);
      assert flat[0] <= hi;
      Ok((lo, hi))
  }

  // ---------------------------------------------------------------------
  // The export record
  // ---------------------------------------------------------------------

  /** The inputs the export reads from the metadata archive. */
  datatype GridMetadata = GridMetadata(coreWidth: int, coreHeight: int, padding: map<string, int>, resolutionFactor: int)

  /** The numeric part of the exported record. */
  datatype GeoData = GeoData(
    bounds: Bounds,
    totalWidth: int,
    totalHeight: int,
    coreWidth: int,
    coreHeight: int,
    gridRows: nat,
    gridCols: nat,
    latGrid: seq<seq<real>>,
    lonGrid: seq<seq<real>>,
    sampleRate: int)

  /** `create_conus_json` / `create_oklahoma_json` up to the file write: the
      padded size (failing on a missing side), then the bounds (failing on
      a zero-size grid), then the grids sampled at rate 2 and the combined
      sample rate. */
  function CreateGeoData(meta: GridMetadata, lat: seq<seq<real>>, lon: seq<seq<real>>): (r: Outcome<GeoData>)
    ensures r.Fail? <==> TotalDimensions(meta.coreWidth, meta.coreHeight, meta.padding).Fail?
                         || |Flatten(lat)| == 0 || |Flatten(lon)| == 0
    ensures r.Ok? ==> r.value.sampleRate == meta.resolutionFactor * ExportSampleRate
    ensures r.Ok? ==> r.value.bounds.minLat <= r.value.bounds.maxLat && r.value.bounds.minLon <= r.value.bounds.maxLon
    ensures r.Ok? ==> r.value.bounds.minLat in Flatten(lat) && r.value.bounds.maxLat in Flatten(lat)
                      && r.value.bounds.minLon in Flatten(lon) && r.value.bounds.maxLon in Flatten(lon)
    ensures r.Ok? ==> forall x :: x in Flatten(lat) ==> r.value.bounds.minLat <= x <= r.value.bounds.maxLat
    ensures r.Ok? ==> forall x :: x in Flatten(lon) ==> r.value.bounds.minLon <= x <= r.value.bounds.maxLon
    ensures r.Ok? ==> r.value.latGrid == SampleRows(lat, ExportSampleRate)
                      && r.value.lonGrid == SampleRows(lon, ExportSampleRate)
    ensures r.Ok? ==> r.value.coreWidth == meta.coreWidth && r.value.coreHeight == meta.coreHeight
  {
    match TotalDimensions(meta.coreWidth, meta.coreHeight, meta.padding)
    case Fail(e) => Fail(e)
    case Ok(total) =>
      match GridRange(lat)
      case Fail(e) => Fail(e)
      case Ok(latRange) =>
        match GridRange(lon)
        case Fail(e) => Fail(e)
        case Ok(lonRange) =>
          var sampledLat := SampleRows(lat, ExportSampleRate);
          var dims := GridDimensions(sampledLat);
          Ok(GeoData(Bounds(latRange.0, latRange.1, lonRange.0, lonRange.1),
                     total.0, total.1, meta.coreWidth, meta.coreHeight, dims.0, dims.1,
                     sampledLat, SampleRows(lon, ExportSampleRate),
                     meta.resolutionFactor * ExportSampleRate))
  }

  /** A grid with no rows has no entries. */
  lemma NoRowsNoEntries(g: seq<seq<real>>)
    requires |g| == 0
    ensures |Flatten(g)| == 0
  {
  }

  /** Whenever the export gets past the bounds, the sampled latitude grid
      has a first row, so the closing report's unguarded `sampled_lat[0]`
      is always defined and agrees with the reported column count. */
  lemma ReportedGridSizeIsDefined(meta: GridMetadata, lat: seq<seq<real>>, lon: seq<seq<real>>)
    requires CreateGeoData(meta, lat, lon).Ok?
    ensures var d := CreateGeoData(meta, lat, lon).value;
            |d.latGrid| > 0 && d.gridRows == |d.latGrid| && d.gridCols == |d.latGrid[0]|
  {
    if |lat| == 0 {
      NoRowsNoEntries(lat);
    }
    StridedLengthStep(|lat|, ExportSampleRate);
  }

  /** The exported image size is the core size padded on both sides, and
      the sampled bounds enclose every grid entry. */
  lemma ExportedDimensionsAndBounds(meta: GridMetadata, lat: seq<seq<real>>, lon: seq<seq<real>>)
    requires CreateGeoData(meta, lat, lon).Ok?
    ensures var d := CreateGeoData(meta, lat, lon).value;
            d.totalWidth == meta.coreWidth + meta.padding["left"] + meta.padding["right"]
            && d.totalHeight == meta.coreHeight + meta.padding["top"] + meta.padding["bottom"]
            && (forall i, j :: 0 <= i < |lat| && 0 <= j < |lat[i]| ==> d.bounds.minLat <= lat[i][j] <= d.bounds.maxLat)
            && (forall i, j :: 0 <= i < |lon| && 0 <= j < |lon[i]| ==> d.bounds.minLon <= lon[i][j] <= d.bounds.maxLon)
  {
  }

  // ---------------------------------------------------------------------
  // convert_to_json_friendly
  // ---------------------------------------------------------------------

  /** numpy scalar widths. Only the 32- and 64-bit ones are converted. */
  datatype IntWidth = I8 | I16 | I32 | I64 | U8 | U16 | U32 | U64
  datatype FloatWidth = F16 | F32 | F64

  /** The Python values the helper meets. A dictionary is its entries in
      insertion order. */
  datatype PyValue =
    | PyNone
    | PyInt(i: int)
    | PyFloat(x: real)
    | PyStr(s: string)
    | PyList(items: seq<PyValue>)
    | PyDict(entries: seq<(string, PyValue)>)
    | NpInt(iw: IntWidth, ni: int)
    | NpFloat(fw: FloatWidth, nx: real)
    | NpArray(elements: seq<PyValue>)

  /** `ndarray.tolist()`: nested lists, every numpy scalar of any width
      turned into the Python number of the same value. */
  function ToList(v: PyValue): (r: PyValue)
    ensures v.NpArray? ==> r.PyList? && |r.items| == |v.elements|
    ensures v.NpArray? ==> forall k :: 0 <= k < |v.elements| ==> r.items[k] == ToList(v.elements[k])
    ensures v.NpInt? ==> r == PyInt(v.ni)
    ensures v.NpFloat? ==> r == PyFloat(v.nx)
    ensures !(v.NpArray? || v.NpInt? || v.NpFloat?) ==> r == v
  {
    match v
    case NpInt(_, i) => PyInt(i)
    case NpFloat(_, x) => PyFloat(x)
    case NpArray(es) => PyList(seq(|es|, k requires 0 <= k < |es| => ToList(es[k])))
    case _ => v
  }

  /** An array value as numpy holds it: numpy scalars, or arrays of such
      values. */
  predicate NumpyArrayValue(v: PyValue) {
    match v
    case NpInt(_, _) => true
    case NpFloat(_, _) => true
    case NpArray(es) => forall k :: 0 <= k < |es| ==> NumpyArrayValue(es[k])
    case _ => false
  }

  /** A value with no numpy scalar or array anywhere inside it. */
  predicate NumpyFree(v: PyValue) {
    match v
    case NpInt(_, _) => false
    case NpFloat(_, _) => false
    case NpArray(_) => false
    case PyList(items) => forall k :: 0 <= k < |items| ==> NumpyFree(items[k])
    case PyDict(es) => forall k :: 0 <= k < |es| ==> NumpyFree(es[k].1)
    case _ => true
  }

  /** `tolist()` of a numpy value leaves nothing of numpy behind: the
      result is plain Python numbers in nested lists. */
  lemma {:induction false} ToListIsNumpyFree(v: PyValue)
    requires NumpyArrayValue(v)
    ensures NumpyFree(ToList(v))
  {
    match v
    case NpArray(es) =>
      var r := ToList(v);
      forall k | 0 <= k < |es| ensures NumpyFree(r.items[k]) {
        ToListIsNumpyFree(es[k]);
      }
    case _ =>
  }

  /** `convert_to_json_friendly`: arrays become lists, 32- and 64-bit numpy
      scalars become Python numbers, dictionaries are converted value by
      value, and everything else (lists included) is returned as it is. */
  function JsonFriendly(v: PyValue): (r: PyValue)
    ensures v.PyDict? ==> r.PyDict? && |r.entries| == |v.entries|
                          && forall k :: 0 <= k < |v.entries| ==> r.entries[k].0 == v.entries[k].0
    ensures v.PyDict? ==> forall k :: 0 <= k < |v.entries| ==> r.entries[k].1 == JsonFriendly(v.entries[k].1)
    ensures v.NpArray? ==> r == ToList(v)
    ensures v.NpInt? && (v.iw == I32 || v.iw == I64) ==> r == PyInt(v.ni)
    ensures v.NpFloat? && (v.fw == F32 || v.fw == F64) ==> r == PyFloat(v.nx)
    ensures v.NpInt? && !(v.iw == I32 || v.iw == I64) ==> r == v
    ensures v.NpFloat? && !(v.fw == F32 || v.fw == F64) ==> r == v
    ensures !(v.NpArray? || v.NpInt? || v.NpFloat? || v.PyDict?) ==> r == v
  {
    match v
    case NpArray(_) => ToList(v)
    case NpInt(w, i) => if w == I32 || w == I64 then PyInt(i) else v
    case NpFloat(w, x) => if w == F32 || w == F64 then PyFloat(x) else v
    case PyDict(es) => PyDict(seq(|es|, k requires 0 <= k < |es| => (es[k].0, JsonFriendly(es[k].1))))
    case _ => v
  }

  /** A value the helper leaves alone: no array, no 32- or 64-bit numpy
      scalar at the top or among a dictionary's values. */
  predicate Friendly(v: PyValue) {
    match v
    case NpArray(_) => false
    case NpInt(w, _) => w != I32 && w != I64
    case NpFloat(w, _) => w != F32 && w != F64
    case PyDict(es) => forall k :: 0 <= k < |es| ==> Friendly(es[k].1)
    case _ => true
  }

  /** The conversion's fixed points are exactly the friendly values, and
      every result is friendly, so converting twice is converting once. */
  lemma {:induction false} JsonFriendlyFixesFriendly(v: PyValue)
    ensures Friendly(JsonFriendly(v))
    ensures JsonFriendly(v) == v <==> Friendly(v)
  {
    match v
    case NpArray(es) => assert JsonFriendly(v).PyList?;
    case PyDict(es) =>
      var r := JsonFriendly(v);
      forall k | 0 <= k < |es|
        ensures Friendly(r.entries[k].1)
        ensures JsonFriendly(es[k].1) == es[k].1 <==> Friendly(es[k].1)
      {
        JsonFriendlyFixesFriendly(es[k].1);
      }
      if Friendly(v) {
        assert r.entries == es;
      } else {
        var k :| 0 <= k < |es| && !Friendly(es[k].1);
        assert r.entries[k] != es[k];
      }
    case _ =>
  }

  lemma JsonFriendlyIsIdempotent(v: PyValue)
    ensures JsonFriendly(JsonFriendly(v)) == JsonFriendly(v)
  {
    JsonFriendlyFixesFriendly(v);
    JsonFriendlyFixesFriendly(JsonFriendly(v));
  }
}
