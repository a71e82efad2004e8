/** The scene-wide reference shape chosen after loading: C02's native shape
    when C02 loaded, otherwise the first largest native shape. */
module ReferenceShape {
  import opened Common

  /** One entry of the loaded-channel dictionary, in insertion order. */
  datatype LoadedChannel = LoadedChannel(code: string, nativeShape: Shape)

  predicate HasCode(loaded: seq<LoadedChannel>, code: string) {
    exists i :: 0 <= i < |loaded| && loaded[i].code == code
  }

  /** `k` is the earliest entry with strictly positive and maximal pixel
      count: later entries are never larger, earlier entries are strictly
      smaller. */
  predicate FirstLargest(loaded: seq<LoadedChannel>, k: int) {
    && 0 <= k < |loaded|
    && loaded[k].nativeShape.Pixels() > 0
    && (forall j :: 0 <= j < |loaded| ==> loaded[j].nativeShape.Pixels() <= loaded[k].nativeShape.Pixels())
    && (forall j :: 0 <= j < k ==> loaded[j].nativeShape.Pixels() < loaded[k].nativeShape.Pixels())
  }

  /** There is at most one first-largest entry, so the choice is determined. */
  lemma FirstLargestUnique(loaded: seq<LoadedChannel>, k1: int, k2: int)
    requires FirstLargest(loaded, k1) && FirstLargest(loaded, k2)
    ensures k1 == k2
  {
  }

  /** The reference-shape block of all three processing paths. The loaded
      dictionary has distinct codes; the search keeps the running maximum
      starting from 0 and replaces it only on a strictly larger pixel count,
      so ties keep the earlier shape, and a scene whose loaded shapes all
      have zero pixels gets no reference shape. */
  method ChooseReferenceShape(loaded: seq<LoadedChannel>) returns (r: Option<Shape>)
    requires forall i, j :: 0 <= i < j < |loaded| ==> loaded[i].code != loaded[j].code
    ensures forall i :: 0 <= i < |loaded| && loaded[i].code == "C02" ==> r == Some(loaded[i].nativeShape)
    ensures !HasCode(loaded, "C02") ==>
              (r.None? <==> forall j :: 0 <= j < |loaded| ==> loaded[j].nativeShape.Pixels() == 0)
    ensures !HasCode(loaded, "C02") && r.Some? ==>
              exists k :: FirstLargest(loaded, k) && r.value == loaded[k].nativeShape
    ensures |loaded| == 0 ==> r.None?
  {
    var c := 0;
    while c < |loaded|
      invariant 0 <= c <= |loaded|
      invariant forall j :: 0 <= j < c ==> loaded[j].code != "C02"
    {
      if loaded[c].code == "C02" {
        return Some(loaded[c].nativeShape);
      }
      c := c + 1;
    }
    r := None;
    var maxPixels := 0;
    var best := -1;
    var i := 0;
    while i < |loaded|
      invariant 0 <= i <= |loaded|
      invariant -1 <= best < i
      invariant best == -1 <==> maxPixels == 0
      invariant best == -1 ==> r.None? && forall j :: 0 <= j < i ==> loaded[j].nativeShape.Pixels() == 0
      invariant best >= 0 ==> r == Some(loaded[best].nativeShape) && maxPixels == loaded[best].nativeShape.Pixels() > 0
      invariant forall j :: 0 <= j < i ==> loaded[j].nativeShape.Pixels() <= maxPixels
      invariant best >= 0 ==> forall j :: 0 <= j < best ==> loaded[j].nativeShape.Pixels() < maxPixels
    {
      var pixels := loaded[i].nativeShape.rows * loaded[i].nativeShape.cols;
      if pixels > maxPixels {
        maxPixels := pixels;
        r := Some(loaded[i].nativeShape);
        best := i;
      }
      i := i + 1;
    }
    if best >= 0 {
      assert FirstLargest(loaded, best);
    }
  }
}
