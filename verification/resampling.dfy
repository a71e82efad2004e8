/** Resolution reconciliation: the per-domain requirement tables, the
    target-shape rules of the three processing paths, and the shape
    arithmetic of the upscaler. */
module Resampling {
  import opened Common
  import opened PathSelection

  /** A channel's declared resolution rule. */
  datatype Requirement = Native | Upscale2x | Upscale4x {
    /** The integer zoom a rule applies to both dimensions. */
    function Factor(): (k: nat)
      ensures k == 1 || k == 2 || k == 4
      ensures k == 1 <==> Native?
    {
      match this
      case Native => 1
      case Upscale2x => 2
      case Upscale4x => 4
    }
  }

  /** The sixteen ABI channel codes. */
  const AllChannelCodes: seq<string> :=
    ["C01", "C02", "C03", "C04", "C05", "C06", "C07", "C08",
     "C09", "C10", "C11", "C12", "C13", "C14", "C15", "C16"]

  /** The requirement table used outside the full-disk domain. */
  const RegionalRequirements: map<string, Requirement> :=
    map[
      "C02" := Native, "C04" := Native, "C09" := Native,
      "C11" := Upscale4x, "C12" := Upscale4x, "C14" := Upscale4x,
      "C15" := Upscale4x, "C16" := Native,
      "C01" := Upscale2x, "C03" := Upscale2x, "C05" := Upscale2x,
      "C06" := Upscale4x, "C07" := Upscale4x, "C08" := Upscale4x,
      "C10" := Upscale4x, "C13" := Upscale4x
    ]

  /** `get_level2_channel_requirements`. */
  function Level2Requirements(domainType: string): (m: map<string, Requirement>)
    ensures m.Keys == set c | c in AllChannelCodes
    ensures domainType == "full_disk" ==> forall c :: c in m ==> m[c] == Native
    ensures domainType != "full_disk" ==> m == RegionalRequirements
  {
    if domainType == "full_disk" then map c | c in AllChannelCodes :: Native
    else RegionalRequirements
  }

  /** `get_standard_channel_requirements`: a second, literal copy of the table. */
  function StandardRequirements(): (m: map<string, Requirement>)
    ensures m.Keys == set c | c in AllChannelCodes
  {
    map[
      "C02" := Native, "C04" := Native, "C09" := Native,
      "C11" := Upscale4x, "C12" := Upscale4x, "C14" := Upscale4x,
      "C15" := Upscale4x, "C16" := Native,
      "C01" := Upscale2x, "C03" := Upscale2x, "C05" := Upscale2x,
      "C06" := Upscale4x, "C07" := Upscale4x, "C08" := Upscale4x,
      "C10" := Upscale4x, "C13" := Upscale4x
    ]
  }

  /** `requirements.get(code, 'native')`. */
  function RequirementOf(table: map<string, Requirement>, code: string): Requirement {
    if code in table then table[code] else Native
  }

  /** The shape a rule produces from a native shape. */
  function ApplyRequirement(req: Requirement, native: Shape): Shape {
    Shape(native.rows * req.Factor(), native.cols * req.Factor())
  }

  /** `get_target_shape`. The source's fall-through branch that returns the
      reference shape cannot be reached, since every table entry is one of
      the three rules; the reference shape is therefore never consulted. */
  function TargetShape(code: string, native: Shape, reference: Option<Shape>, domainType: string): (s: Shape)
    ensures RequirementOf(Level2Requirements(domainType), code) == Native ==> s == native
    ensures RequirementOf(Level2Requirements(domainType), code) == Upscale2x ==>
            s == Shape(2 * native.rows, 2 * native.cols)
    ensures RequirementOf(Level2Requirements(domainType), code) == Upscale4x ==>
            s == Shape(4 * native.rows, 4 * native.cols)
    ensures code !in AllChannelCodes ==> s == native
  {
    ApplyRequirement(RequirementOf(Level2Requirements(domainType), code), native)
  }

  /** `get_standard_target_shape`. */
  function StandardTargetShape(code: string, native: Shape, reference: Option<Shape>): (s: Shape)
    ensures RequirementOf(StandardRequirements(), code) == Native ==> s == native
    ensures RequirementOf(StandardRequirements(), code) == Upscale2x ==>
            s == Shape(2 * native.rows, 2 * native.cols)
    ensures RequirementOf(StandardRequirements(), code) == Upscale4x ==>
            s == Shape(4 * native.rows, 4 * native.cols)
    ensures code !in AllChannelCodes ==> s == native
  {
    ApplyRequirement(RequirementOf(StandardRequirements(), code), native)
  }

  /** The target shape each processing path hands to its workers: the
      Level-2-aware path consults the domain table, the full-disk path always
      keeps the native shape, the CONUS path consults the standard table. */
  function PathTargetShape(path: ProcessingPath, code: string, native: Shape,
                           reference: Option<Shape>, domainType: string): (s: Shape)
    ensures path == EnhancedFullDisk ==> s == native
    ensures path == Level2Aware && domainType == "full_disk" ==> s == native
    ensures path != EnhancedFullDisk && domainType != "full_disk" ==>
            s == StandardTargetShape(code, native, reference)
    ensures s.rows >= native.rows && s.cols >= native.cols
  {
    match path
    case Level2Aware => TargetShape(code, native, reference, domainType)
    case EnhancedFullDisk => native
    case StandardConus => StandardTargetShape(code, native, reference)
  }

  /** The standard table is exactly the Level 2 table of every domain
      other than full disk, so the two target-shape rules agree there. */
  lemma StandardMatchesRegional(code: string, native: Shape, reference: Option<Shape>, domainType: string)
    requires domainType != "full_disk"
    ensures StandardRequirements() == Level2Requirements(domainType)
    ensures StandardTargetShape(code, native, reference) == TargetShape(code, native, reference, domainType)
  {
  }

  /** In the full-disk domain nothing is upscaled, whatever the path and
      whatever the channel code. */
  lemma FullDiskIsAlwaysNative(path: ProcessingPath, code: string, native: Shape, reference: Option<Shape>)
    requires path != StandardConus
    ensures PathTargetShape(path, code, native, reference, "full_disk") == native
  {
  }

  /** The zoom factor a path applies to a channel. */
  function PathFactor(path: ProcessingPath, code: string, domainType: string): nat {
    match path
    case Level2Aware => RequirementOf(Level2Requirements(domainType), code).Factor()
    case EnhancedFullDisk => 1
    case StandardConus => RequirementOf(StandardRequirements(), code).Factor()
  }

  /** Every target shape is the native shape scaled by 1, 2 or 4 in both
      dimensions, so a target never has fewer pixels than its source. */
  lemma TargetIsIntegerMultiple(path: ProcessingPath, code: string, native: Shape,
                                reference: Option<Shape>, domainType: string)
    ensures var k := PathFactor(path, code, domainType);
            (k == 1 || k == 2 || k == 4) &&
            PathTargetShape(path, code, native, reference, domainType) == Shape(k * native.rows, k * native.cols)
    ensures PathTargetShape(path, code, native, reference, domainType).Pixels() >= native.Pixels()
  {
    var k := PathFactor(path, code, domainType);
    var t := PathTargetShape(path, code, native, reference, domainType);
    assert t == Shape(k * native.rows, k * native.cols);
    ScaledPixels(k, native.rows, native.cols);
  }

  lemma ScaledPixels(k: nat, r: nat, c: nat)
    requires k >= 1
    ensures (k * r) * (k * c) >= r * c
  {
    assert k * r >= r;
    assert k * c >= c;
    assert (k * r) * (k * c) >= r * (k * c) >= r * c;
  }

  /** The shape part of `fast_upscale_array`: a zoom of exactly (1, 1)
      returns the array as it is; any other zoom produces
      `(int(rows * zy), int(cols * zx))`. */
  function ZoomedShape(shape: Shape, zy: real, zx: real): (s: Shape)
    requires 0.0 <= zy && 0.0 <= zx
    ensures zy == 1.0 && zx == 1.0 ==> s == shape
    ensures s.rows as real <= shape.rows as real * zy < s.rows as real + 1.0
    ensures s.cols as real <= shape.cols as real * zx < s.cols as real + 1.0
  {
    if zy == 1.0 && zx == 1.0 then shape
    else Shape(Trunc(shape.rows as real * zy), Trunc(shape.cols as real * zx))
  }

  /** The upscaling step of both workers: when the native shape differs
      from the target, the zoom is `target / native` per dimension (a
      division by zero for an empty native dimension, which the worker
      reports as a failed channel), and the array is upscaled unless that
      zoom is (1, 1). A zoom that is neither (2, 2) nor (4, 4) goes to the
      bilinear kernel, whose ratios divide by the zoomed shape, so an empty
      target dimension is a division by zero as well. */
  function ResampledShape(current: Shape, target: Shape): (r: Outcome<Shape>)
    ensures r.Fail? <==> current != target &&
                         (current.rows == 0 || current.cols == 0 || target.rows == 0 || target.cols == 0)
    ensures r.Ok? ==> r.value == target
  {
    if current == target then Ok(current)
    else if current.rows == 0 || current.cols == 0 then Fail("division by zero")
    else if target.rows == 0 || target.cols == 0 then Fail("division by zero")
    else
      var zy := target.rows as real / current.rows as real;
      var zx := target.cols as real / current.cols as real;
      MulDivCancel(target.rows as real, current.rows as real);
      MulDivCancel(target.cols as real, current.cols as real);
      var s := ZoomedShape(current, zy, zx);
      IntegerSqueeze(s.rows, target.rows);
      IntegerSqueeze(s.cols, target.cols);
      Ok(s)
  }

  lemma MulDivCancel(a: real, b: real)
    requires b != 0.0
    ensures b * (a / b) == a
  {
  }

  /** An integer within less than one above another integer is that integer. */
  lemma IntegerSqueeze(k: int, n: int)
    requires k as real <= n as real < k as real + 1.0
    ensures k == n
  {
  }

  /** A worker always delivers an array of exactly the target shape its path
      assigned, for every channel with a non-empty native shape. */
  lemma {:induction false} WorkerReachesPathTarget(path: ProcessingPath, code: string, native: Shape,
                                                   reference: Option<Shape>, domainType: string)
    requires native.rows > 0 && native.cols > 0
    ensures ResampledShape(native, PathTargetShape(path, code, native, reference, domainType))
            == Ok(PathTargetShape(path, code, native, reference, domainType))
  {
  }
}
