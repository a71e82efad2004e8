/** The processed-channel store of the two table-driven paths (standard
    CONUS and enhanced full disk), and the sequential fold that merges
    worker results into it. */
module ChannelStore {
  import opened Common

  /** What the store keeps of an array: its shape and its size in bytes. */
  datatype ArrayInfo = ArrayInfo(shape: Shape, nbytes: nat)

  /** A channel's metadata dictionary (`time_coverage_start` and friends). */
  type Metadata = map<string, string>

  /** One entry of `channels`. */
  datatype StoredChannel = StoredChannel(calibrated: ArrayInfo, enhanced: ArrayInfo, channelType: string, shape: Shape)

  /** `coordinate_data` as the store keeps it. */
  datatype CoordinateData = CoordinateData(x: seq<real>, y: seq<real>, projectionInfo: string, primaryChannel: string)

  /** `solar_angles`: the solar zenith angle and its cosine per pixel. */
  datatype SolarAngles = SolarAngles(sza: seq<real>, cosSza: seq<real>)

  /** `ChannelDataStore`. Python dictionaries remember insertion order;
      `order` is the key order shared by `channels` and `metadata`, which
      always receive the same keys together. */
  datatype Store = Store(
    channels: map<string, StoredChannel>,
    metadata: map<string, Metadata>,
    order: seq<string>,
    coordinates: Option<CoordinateData>,
    solarAngles: Option<SolarAngles>,
    processingTimes: map<string, real>)

  predicate Distinct(s: seq<string>) {
    forall i, j :: 0 <= i < j < |s| ==> s[i] != s[j]
  }

  /** The store's invariant: the key order lists each channel once, the
      metadata has exactly the channel keys, and only stored channels have
      processing times. */
  predicate Valid(store: Store) {
    && Distinct(store.order)
    && (forall i :: 0 <= i < |store.order| ==> store.order[i] in store.channels)
    && (forall k :: k in store.channels ==> k in store.order)
    && store.metadata.Keys == store.channels.Keys
    && store.processingTimes.Keys <= store.channels.Keys
  }

  const EmptyStore: Store := Store(map[], map[], [], None, None, map[])

  lemma EmptyStoreIsValid()
    ensures Valid(EmptyStore)
  {
  }

  /** Python truthiness of an optional float: present and non-zero. */
  predicate Truthy(t: Option<real>) {
    t.Some? && t.value != 0.0
  }

  /** `store_channel`: the channel and its metadata are stored under
      `code`, which keeps its position if already present and is appended
      otherwise; a processing time is recorded only when it is truthy.
      Every other key, the coordinates and the solar angles are left as
      they were. */
  function StoreChannel(store: Store, code: string, calibrated: ArrayInfo, enhanced: ArrayInfo,
                        channelType: string, metadata: Metadata, processingTime: Option<real>): (s: Store)
    ensures code in s.channels && s.channels[code].calibrated == calibrated
    ensures s.channels[code].enhanced == enhanced && s.channels[code].channelType == channelType
    ensures s.channels[code].shape == calibrated.shape
    ensures code in s.metadata && s.metadata[code] == metadata
    ensures forall k :: k != code ==> (k in s.channels <==> k in store.channels)
    ensures forall k :: k != code && k in store.channels ==> s.channels[k] == store.channels[k]
    ensures forall k :: k != code ==> (k in s.metadata <==> k in store.metadata)
    ensures forall k :: k != code && k in store.metadata ==> s.metadata[k] == store.metadata[k]
    ensures Truthy(processingTime) ==> s.processingTimes == store.processingTimes[code := processingTime.value]
    ensures !Truthy(processingTime) ==> s.processingTimes == store.processingTimes
    ensures code in store.order ==> s.order == store.order
    ensures code !in store.order ==> s.order == store.order + [code]
    ensures s.coordinates == store.coordinates && s.solarAngles == store.solarAngles
    ensures Valid(store) ==> Valid(s)
  {
    Store(
      store.channels[code := StoredChannel(calibrated, enhanced, channelType, calibrated.shape)],
      store.metadata[code := metadata],
      if code in store.order then store.order else store.order + [code],
      store.coordinates,
      store.solarAngles,
      if Truthy(processingTime) then store.processingTimes[code := processingTime.value] else store.processingTimes)
  }

  /** `store_coordinate_data`: replaces the coordinates; the primary channel
      is recorded as C02 whichever channel supplied them. */
  function StoreCoordinateData(store: Store, x: seq<real>, y: seq<real>, projectionInfo: string): (s: Store)
    ensures s.coordinates == Some(CoordinateData(x, y, projectionInfo, "C02"))
    ensures s.(coordinates := store.coordinates) == store
  {
    store.(coordinates := Some(CoordinateData(x, y, projectionInfo, "C02")))
  }

  /** `store_solar_angles`. */
  function StoreSolarAngles(store: Store, sza: seq<real>, cosSza: seq<real>): (s: Store)
    ensures s.solarAngles == Some(SolarAngles(sza, cosSza))
    ensures s.(solarAngles := store.solarAngles) == store
  {
    store.(solarAngles := Some(SolarAngles(sza, cosSza)))
  }

  // ---------------------------------------------------------------------
  // Summary
  // ---------------------------------------------------------------------

  /** The dictionary `get_summary` returns. */
  datatype Summary = Summary(
    totalChannels: nat,
    totalSizeMb: real,
    hasCoordinates: bool,
    hasSolarAngles: bool,
    channelTypes: map<string, string>,
    avgProcessingTime: real)

  /** The bytes held by one channel's two arrays. */
  function ChannelBytes(c: StoredChannel): nat {
    c.calibrated.nbytes + c.enhanced.nbytes
  }

  /** The bytes held by the channels listed in `keys`. */
  function TotalBytes(keys: seq<string>, channels: map<string, StoredChannel>): nat
    requires forall k :: k in keys ==> k in channels
  {
    if |keys| == 0 then 0 else ChannelBytes(channels[keys[0]]) + TotalBytes(keys[1..], channels)
  }

  /** The megabytes of the channels listed in `keys`, accumulated channel by
      channel as the summary loop does; the sum of the per-channel quotients
      is the total byte count over 2^20. */
  function SizeMb(keys: seq<string>, channels: map<string, StoredChannel>): (mb: real)
    requires forall k :: k in keys ==> k in channels
    ensures mb >= 0.0
    ensures mb == TotalBytes(keys, channels) as real / BytesPerMb
  {
    if |keys| == 0 then 0.0
    else
      var c := channels[keys[0]];
      var rest := SizeMb(keys[1..], channels);
      DivAdd(ChannelBytes(c) as real, TotalBytes(keys[1..], channels) as real, BytesPerMb);
      (c.calibrated.nbytes + c.enhanced.nbytes) as real / BytesPerMb + rest
  }

  lemma DivAdd(a: real, b: real, d: real)
    requires d > 0.0
    ensures a / d + b / d == (a + b) / d
  {
  }

  /** Appending a key adds that channel's bytes. */
  lemma {:induction false} TotalBytesAppend(keys: seq<string>, channels: map<string, StoredChannel>, k: string)
    requires forall j :: j in keys ==> j in channels
    requires k in channels
    ensures TotalBytes(keys + [k], channels) == TotalBytes(keys, channels) + ChannelBytes(channels[k])
    decreases |keys|
  {
    if |keys| > 0 {
      assert (keys + [k])[1..] == keys[1..] + [k];
      TotalBytesAppend(keys[1..], channels, k);
    }
  }

  /** Changing the channel under a key that occurs once in `keys` replaces
      that channel's bytes and nothing else. */
  lemma {:induction false} TotalBytesUpdate(keys: seq<string>, channels: map<string, StoredChannel>,
                                            k: string, c: StoredChannel)
    requires forall j :: j in keys ==> j in channels
    requires Distinct(keys)
    ensures k in keys ==>
            TotalBytes(keys, channels[k := c]) + ChannelBytes(channels[k])
            == TotalBytes(keys, channels) + ChannelBytes(c)
    ensures k !in keys ==> TotalBytes(keys, channels[k := c]) == TotalBytes(keys, channels)
    decreases |keys|
  {
    if |keys| > 0 {
      assert Distinct(keys[1..]) by {
        forall i, j | 0 <= i < j < |keys[1..]| ensures keys[1..][i] != keys[1..][j] {
          assert keys[1..][i] == keys[i + 1] && keys[1..][j] == keys[j + 1];
        }
      }
      if keys[0] == k {
        assert k !in keys[1..] by {
          forall i | 0 <= i < |keys[1..]| ensures keys[1..][i] != k {
            assert keys[1..][i] == keys[i + 1];
          }
        }
      }
      TotalBytesUpdate(keys[1..], channels, k, c);
    }
  }

  /** The sum and the number of the processing times of the keys listed. */
  function TimeSum(keys: seq<string>, times: map<string, real>): real {
    if |keys| == 0 then 0.0
    else (if keys[0] in times then times[keys[0]] else 0.0) + TimeSum(keys[1..], times)
  }

  function TimeCount(keys: seq<string>, times: map<string, real>): nat {
    if |keys| == 0 then 0
    else (if keys[0] in times then 1 else 0) + TimeCount(keys[1..], times)
  }

  lemma {:induction false} TimeBounds(keys: seq<string>, times: map<string, real>, lo: real, hi: real)
    requires forall k :: k in times ==> lo <= times[k] <= hi
    ensures TimeCount(keys, times) as real * lo <= TimeSum(keys, times) <= TimeCount(keys, times) as real * hi
    decreases |keys|
  {
    if |keys| > 0 {
      var rest := keys[1..];
      TimeBounds(rest, times, lo, hi);
      var c := TimeCount(rest, times) as real;
      if keys[0] in times {
        assert TimeCount(keys, times) as real == c + 1.0;
        assert TimeSum(keys, times) == times[keys[0]] + TimeSum(rest, times);
        BoundStep(c, times[keys[0]], TimeSum(rest, times), lo, hi);
      } else {
        assert TimeCount(keys, times) == TimeCount(rest, times);
        assert TimeSum(keys, times) == TimeSum(rest, times);
      }
    }
  }

  lemma BoundStep(c: real, x: real, sum: real, lo: real, hi: real)
    requires lo <= x <= hi && c * lo <= sum <= c * hi
    ensures (c + 1.0) * lo <= x + sum <= (c + 1.0) * hi
  {
    assert (c + 1.0) * lo == c * lo + lo;
    assert (c + 1.0) * hi == c * hi + hi;
  }

  lemma {:induction false} TimeCountPositive(keys: seq<string>, times: map<string, real>, k: string)
    requires k in keys && k in times
    ensures TimeCount(keys, times) > 0
    decreases |keys|
  {
    if keys[0] != k {
      assert k in keys[1..];
      TimeCountPositive(keys[1..], times, k);
    }
  }

  /** Dropping a time whose key is not listed changes neither the sum nor
      the count. */
  lemma {:induction false} TimesIgnoreUnlisted(keys: seq<string>, times: map<string, real>, k: string)
    requires k !in keys
    ensures TimeCount(keys, times - {k}) == TimeCount(keys, times)
    ensures TimeSum(keys, times - {k}) == TimeSum(keys, times)
    decreases |keys|
  {
    if |keys| > 0 {
      assert k !in keys[1..];
      TimesIgnoreUnlisted(keys[1..], times, k);
    }
  }

  /** With distinct keys listing every timed key, the count is the number
      of recorded times, so the average is the mean of all of them. */
  lemma {:induction false} TimeCountIsSize(keys: seq<string>, times: map<string, real>)
    requires Distinct(keys)
    requires forall k :: k in times ==> k in keys
    ensures TimeCount(keys, times) == |times|
    decreases |keys|
  {
    if |keys| == 0 {
      assert times == map[];
    } else {
      var k, rest := keys[0], keys[1..];
      DistinctTail(keys);
      var others := times - {k};
      assert forall x :: x in others ==> x in rest by {
        forall x | x in others ensures x in rest {
          assert x in keys && x != k;
        }
      }
      TimeCountIsSize(rest, others);
      TimesIgnoreUnlisted(rest, times, k);
      RemoveSize(times, k);
    }
  }

  /** The tail of a distinct list is distinct and lacks the head. */
  lemma DistinctTail(keys: seq<string>)
    requires Distinct(keys) && |keys| > 0
    ensures Distinct(keys[1..]) && keys[0] !in keys[1..]
  {
    var rest := keys[1..];
    forall i, j | 0 <= i < j < |rest| ensures rest[i] != rest[j] {
      assert rest[i] == keys[i + 1] && rest[j] == keys[j + 1];
    }
    forall i | 0 <= i < |rest| ensures rest[i] != keys[0] {
      assert rest[i] == keys[i + 1];
    }
  }

  /** Removing a key drops one entry exactly when the key is present. */
  lemma RemoveSize(times: map<string, real>, k: string)
    ensures |times - {k}| == if k in times then |times| - 1 else |times|
  {
    assert (times - {k}).Keys == times.Keys - {k};
    if k !in times {
      assert times - {k} == times;
    }
  }

  lemma MeanBetween(sum: real, n: real, lo: real, hi: real)
    requires n > 0.0 && n * lo <= sum <= n * hi
    ensures lo <= sum / n <= hi
  {
    assert sum / n - lo == (sum - n * lo) / n;
    assert hi - sum / n == (n * hi - sum) / n;
  }

  /** `get_summary`. */
  function GetSummary(store: Store): (s: Summary)
    requires Valid(store)
    ensures s.totalChannels == |store.channels|
    ensures s.totalSizeMb >= 0.0
    ensures s.totalSizeMb == TotalBytes(store.order, store.channels) as real / BytesPerMb
    ensures s.hasCoordinates <==> store.coordinates.Some?
    ensures s.hasSolarAngles <==> store.solarAngles.Some?
    ensures s.channelTypes.Keys == store.channels.Keys
    ensures forall k :: k in s.channelTypes ==> s.channelTypes[k] == store.channels[k].channelType
    ensures |store.processingTimes| == 0 ==> s.avgProcessingTime == 0.0
    ensures |store.processingTimes| > 0 ==>
              s.avgProcessingTime == TimeSum(store.order, store.processingTimes) / |store.processingTimes| as real
  {
    assert forall k :: k in store.processingTimes ==> k in store.order by {
      forall k | k in store.processingTimes ensures k in store.order {
        assert k in store.channels;
      }
    }
    var avg := MeanTime(store.order, store.processingTimes);
    Summary(
      |store.channels|,
      SizeMb(store.order, store.channels),
      store.coordinates.Some?,
      store.solarAngles.Some?,
      map k | k in store.channels :: store.channels[k].channelType,
      avg)
  }

  /** The mean of all recorded times, 0 when none is recorded, given a
      key order that lists every timed key once. */
  function MeanTime(keys: seq<string>, times: map<string, real>): (avg: real)
    requires Distinct(keys) && forall k :: k in times ==> k in keys
    ensures |times| == 0 ==> avg == 0.0
    ensures |times| > 0 ==> avg == TimeSum(keys, times) / |times| as real
  {
    TimeCountIsSize(keys, times);
    if |times| == 0 then 0.0 else AverageTime(keys, times)
  }

  /** The average processing time is a true mean: it lies between any
      lower and upper bound of the recorded times. */
  lemma AverageWithinBounds(store: Store, lo: real, hi: real)
    requires Valid(store) && |store.processingTimes| > 0
    requires forall k :: k in store.processingTimes ==> lo <= store.processingTimes[k] <= hi
    ensures lo <= GetSummary(store).avgProcessingTime <= hi
  {
    var times := store.processingTimes;
    var k :| k in times;
    assert k in store.channels && k in store.order;
    AverageBetween(store.order, times, lo, hi, k);
  }

  /** The mean of the times recorded for `keys`. */
  function AverageTime(keys: seq<string>, times: map<string, real>): (avg: real)
    ensures TimeCount(keys, times) == 0 ==> avg == 0.0
    ensures TimeCount(keys, times) > 0 ==> avg * TimeCount(keys, times) as real == TimeSum(keys, times)
  {
    var count := TimeCount(keys, times);
    if count == 0 then 0.0 else TimeSum(keys, times) / count as real
  }

  lemma AverageBetween(keys: seq<string>, times: map<string, real>, lo: real, hi: real, k: string)
    requires k in keys && k in times
    requires forall k :: k in times ==> lo <= times[k] <= hi
    ensures lo <= AverageTime(keys, times) <= hi
  {
    TimeCountPositive(keys, times, k);
    TimeBounds(keys, times, lo, hi);
    MeanBetween(TimeSum(keys, times), TimeCount(keys, times) as real, lo, hi);
  }

  /** Storing a channel changes the summary's total size by exactly that
      channel's bytes over 2^20: a new code adds its arrays, a code already
      present swaps its old arrays for the new ones. */
  lemma StoreChannelSize(store: Store, code: string, calibrated: ArrayInfo, enhanced: ArrayInfo,
                         channelType: string, metadata: Metadata, processingTime: Option<real>)
    requires Valid(store)
    ensures var s := StoreChannel(store, code, calibrated, enhanced, channelType, metadata, processingTime);
            var added := (calibrated.nbytes + enhanced.nbytes) as real / BytesPerMb;
            && (code !in store.channels ==>
                  GetSummary(s).totalSizeMb == GetSummary(store).totalSizeMb + added)
            && (code in store.channels ==>
                  GetSummary(s).totalSizeMb
                  == GetSummary(store).totalSizeMb + added - ChannelBytes(store.channels[code]) as real / BytesPerMb)
  {
    var s := StoreChannel(store, code, calibrated, enhanced, channelType, metadata, processingTime);
    var c := StoredChannel(calibrated, enhanced, channelType, calibrated.shape);
    assert s.channels == store.channels[code := c];
    if code in store.channels {
      assert s.order == store.order;
      TotalBytesUpdate(store.order, store.channels, code, c);
    } else {
      assert code !in store.order;
      TotalBytesUpdate(store.order, store.channels, code, c);
      TotalBytesAppend(store.order, s.channels, code);
    }
  }

  // ---------------------------------------------------------------------
  // Aggregation of worker results
  // ---------------------------------------------------------------------

  /** What a worker hands back for one channel. */
  datatype WorkerResult =
    | Succeeded(code: string, calibrated: ArrayInfo, enhanced: ArrayInfo, channelType: string,
                metadata: Metadata, processingTime: real, coordinates: Option<CoordinateData>)
    | Failed(code: string, error: string)

  /** The store and the two counters of the merge loop. */
  datatype Aggregation = Aggregation(store: Store, successful: nat, failed: nat)

  /** One iteration of the merge loop: a success is stored (with its
      coordinates, when it carries them) and counted, a failure is only
      counted. */
  function Merge(st: Aggregation, r: WorkerResult): (m: Aggregation)
    ensures r.Failed? ==> m == st.(failed := st.failed + 1)
    ensures r.Succeeded? ==> m.successful == st.successful + 1 && m.failed == st.failed
    ensures r.Succeeded? ==> r.code in m.store.channels && m.store.channels[r.code].calibrated == r.calibrated
                              && m.store.channels[r.code].enhanced == r.enhanced
    ensures r.Succeeded? ==> m.store.order == st.store.order + (if r.code in st.store.order then [] else [r.code])
    ensures Valid(st.store) ==> Valid(m.store)
  {
    match r
    case Failed(_, _) => st.(failed := st.failed + 1)
    case Succeeded(code, calibrated, enhanced, channelType, metadata, time, coordinates) =>
      var s1 := StoreChannel(st.store, code, calibrated, enhanced, channelType, metadata, Some(time));
      var s2 := if coordinates.Some? then StoreCoordinateData(s1, coordinates.value.x, coordinates.value.y, coordinates.value.projectionInfo)
                else s1;
      st.(store := s2, successful := st.successful + 1)
  }

  function SuccessCount(results: seq<WorkerResult>): (n: nat)
    ensures n <= |results|
  {
    if |results| == 0 then 0
    else (if results[0].Succeeded? then 1 else 0) + SuccessCount(results[1..])
  }

  /** The sequential merge loop over the worker results in order. Every
      result is counted exactly once, as a success or as a failure, and the
      store stays valid. */
  function Aggregate(st: Aggregation, results: seq<WorkerResult>): (r: Aggregation)
    ensures r.successful == st.successful + SuccessCount(results)
    ensures r.successful + r.failed == st.successful + st.failed + |results|
    ensures Valid(st.store) ==> Valid(r.store)
    decreases |results|
  {
    if |results| == 0 then st
    else Aggregate(Merge(st, results[0]), results[1..])
  }

  /** The codes of the successful results. */
  function SuccessCodes(results: seq<WorkerResult>): set<string> {
    set i | 0 <= i < |results| && results[i].Succeeded? :: results[i].code
  }

  /** The codes of the successful results in the order they occur. */
  function SuccessOrder(results: seq<WorkerResult>): (codes: seq<string>)
    ensures forall k :: k in codes <==> k in SuccessCodes(results)
  {
    if |results| == 0 then []
    else
      var rest := SuccessOrder(results[1..]);
      assert forall k :: k in SuccessCodes(results) <==>
               (results[0].Succeeded? && k == results[0].code) || k in SuccessCodes(results[1..]) by {
        assert forall i :: 1 <= i < |results| ==> results[i] == results[1..][i - 1];
      }
      if results[0].Succeeded? then [results[0].code] + rest else rest
  }

  /** The tasks are built from a dictionary, so every result has its own
      code. */
  predicate DistinctCodes(results: seq<WorkerResult>) {
    forall i, j :: 0 <= i < j < |results| ==> results[i].code != results[j].code
  }

  /** At most one result carries coordinate data. */
  predicate AtMostOneCarrier(results: seq<WorkerResult>) {
    forall i, j :: 0 <= i < |results| && 0 <= j < |results| && Carries(results[i]) && Carries(results[j]) ==> i == j
  }

  predicate Carries(r: WorkerResult) {
    r.Succeeded? && r.coordinates.Some?
  }

  /** The stored entry and the recorded coordinates a success produces. */
  function EntryOf(r: WorkerResult): StoredChannel
    requires r.Succeeded?
  {
    StoredChannel(r.calibrated, r.enhanced, r.channelType, r.calibrated.shape)
  }

  function CoordinatesOf(r: WorkerResult): CoordinateData
    requires r.Succeeded? && r.coordinates.Some?
  {
    CoordinateData(r.coordinates.value.x, r.coordinates.value.y, r.coordinates.value.projectionInfo, "C02")
  }

  /** One merge step, field by field. */
  lemma MergeEffect(st: Aggregation, r: WorkerResult)
    ensures var s := Merge(st, r).store;
            && s.channels == (if r.Succeeded? then st.store.channels[r.code := EntryOf(r)] else st.store.channels)
            && s.metadata == (if r.Succeeded? then st.store.metadata[r.code := r.metadata] else st.store.metadata)
            && s.processingTimes == (if r.Succeeded? && r.processingTime != 0.0
                                     then st.store.processingTimes[r.code := r.processingTime]
                                     else st.store.processingTimes)
            && s.coordinates == (if Carries(r) then Some(CoordinatesOf(r)) else st.store.coordinates)
            && s.solarAngles == st.store.solarAngles
  {
  }

  lemma SplitFirst(results: seq<WorkerResult>)
    requires |results| > 0
    ensures forall i :: 1 <= i < |results| ==> results[i] == results[1..][i - 1]
    ensures DistinctCodes(results) ==> DistinctCodes(results[1..])
    ensures DistinctCodes(results) ==> results[0].code !in SuccessCodes(results[1..])
    ensures DistinctCodes(results) ==> results[0].code !in TimedCodes(results[1..])
    ensures SuccessCodes(results) == (if results[0].Succeeded? then {results[0].code} else {}) + SuccessCodes(results[1..])
    ensures TimedCodes(results) == (if results[0].Succeeded? && results[0].processingTime != 0.0 then {results[0].code} else {})
                                   + TimedCodes(results[1..])
  {
    var rest := results[1..];
    assert forall i :: 1 <= i < |results| ==> results[i] == rest[i - 1];
    assert SuccessCodes(results) == (if results[0].Succeeded? then {results[0].code} else {}) + SuccessCodes(rest) by {
      forall k | k in SuccessCodes(rest)
        ensures k in SuccessCodes(results)
      {
        var i :| 0 <= i < |rest| && rest[i].Succeeded? && rest[i].code == k;
        assert results[i + 1] == rest[i];
      }
    }
    assert TimedCodes(results) == (if results[0].Succeeded? && results[0].processingTime != 0.0 then {results[0].code} else {})
                                  + TimedCodes(rest) by {
      forall k | k in TimedCodes(rest)
        ensures k in TimedCodes(results)
      {
        var i :| 0 <= i < |rest| && rest[i].Succeeded? && rest[i].processingTime != 0.0 && rest[i].code == k;
        assert results[i + 1] == rest[i];
      }
    }
  }

  /** The channels the merge loop leaves in the store: each successful
      result's entry under its own code, every other channel as it was. */
  lemma {:induction false} AggregateChannels(st: Aggregation, results: seq<WorkerResult>)
    requires DistinctCodes(results)
    ensures var f := Aggregate(st, results).store;
            && f.channels.Keys == st.store.channels.Keys + SuccessCodes(results)
            && (forall i :: 0 <= i < |results| && results[i].Succeeded? ==> f.channels[results[i].code] == EntryOf(results[i]))
            && (forall k :: k in st.store.channels && k !in SuccessCodes(results) ==> f.channels[k] == st.store.channels[k])
    decreases |results|
  {
    if |results| > 0 {
      var r, rest := results[0], results[1..];
      SplitFirst(results);
      MergeEffect(st, r);
      AggregateChannels(Merge(st, r), rest);
    }
  }

  /** The metadata the merge loop leaves in the store. */
  lemma {:induction false} AggregateMetadata(st: Aggregation, results: seq<WorkerResult>)
    requires DistinctCodes(results)
    ensures var f := Aggregate(st, results).store;
            && f.metadata.Keys == st.store.metadata.Keys + SuccessCodes(results)
            && (forall i :: 0 <= i < |results| && results[i].Succeeded? ==> f.metadata[results[i].code] == results[i].metadata)
            && (forall k :: k in st.store.metadata && k !in SuccessCodes(results) ==> f.metadata[k] == st.store.metadata[k])
    decreases |results|
  {
    if |results| > 0 {
      var r, rest := results[0], results[1..];
      SplitFirst(results);
      MergeEffect(st, r);
      AggregateMetadata(Merge(st, r), rest);
    }
  }

  /** The codes whose successful result has a non-zero processing time. */
  function TimedCodes(results: seq<WorkerResult>): set<string> {
    set i | 0 <= i < |results| && results[i].Succeeded? && results[i].processingTime != 0.0 :: results[i].code
  }

  /** The processing times the merge loop records: only non-zero ones. */
  lemma {:induction false} AggregateTimes(st: Aggregation, results: seq<WorkerResult>)
    requires DistinctCodes(results)
    ensures var f := Aggregate(st, results).store;
            && f.processingTimes.Keys == st.store.processingTimes.Keys + TimedCodes(results)
            && (forall i :: 0 <= i < |results| && results[i].Succeeded? && results[i].processingTime != 0.0 ==>
                  f.processingTimes[results[i].code] == results[i].processingTime)
            && (forall k :: k in st.store.processingTimes && k !in TimedCodes(results) ==>
                  f.processingTimes[k] == st.store.processingTimes[k])
    decreases |results|
  {
    if |results| > 0 {
      var r, rest := results[0], results[1..];
      SplitFirst(results);
      MergeEffect(st, r);
      AggregateTimes(Merge(st, r), rest);
    }
  }

  /** The coordinates the merge loop leaves in the store: those of the one
      carrier, or the previous ones when no result carries any. The solar
      angles are never touched. */
  lemma {:induction false} AggregateCoordinates(st: Aggregation, results: seq<WorkerResult>)
    requires AtMostOneCarrier(results)
    ensures var f := Aggregate(st, results).store;
            && (forall i :: 0 <= i < |results| && Carries(results[i]) ==> f.coordinates == Some(CoordinatesOf(results[i])))
            && ((forall i :: 0 <= i < |results| ==> !Carries(results[i])) ==> f.coordinates == st.store.coordinates)
            && f.solarAngles == st.store.solarAngles
    decreases |results|
  {
    if |results| > 0 {
      var r, rest := results[0], results[1..];
      SplitFirst(results);
      assert AtMostOneCarrier(rest) by {
        forall i, j | 0 <= i < |rest| && 0 <= j < |rest| && Carries(rest[i]) && Carries(rest[j])
          ensures i == j
        {
          assert results[i + 1] == rest[i] && results[j + 1] == rest[j];
        }
      }
      MergeEffect(st, r);
      AggregateCoordinates(Merge(st, r), rest);
      if Carries(r) {
        forall i | 0 <= i < |rest|
          ensures !Carries(rest[i])
        {
          assert results[i + 1] == rest[i];
        }
      }
    }
  }

  /** Under distinct codes the success counter is the number of distinct
      successful codes. */
  lemma {:induction false} SuccessCountIsCodeCount(results: seq<WorkerResult>)
    requires DistinctCodes(results)
    ensures SuccessCount(results) == |SuccessCodes(results)|
    decreases |results|
  {
    if |results| > 0 {
      SplitFirst(results);
      SuccessCountIsCodeCount(results[1..]);
    }
  }

  lemma SameElements(a: seq<WorkerResult>, b: seq<WorkerResult>)
    requires multiset(a) == multiset(b)
    ensures forall r :: r in a <==> r in b
    ensures |a| == |b|
  {
    forall r
      ensures r in a <==> r in b
    {
      assert r in a <==> r in multiset(a);
      assert r in b <==> r in multiset(b);
    }
    assert |multiset(a)| == |multiset(b)|;
  }

  /** A result of one ordering, found in the other. */
  lemma FindIn(b: seq<WorkerResult>, r: WorkerResult) returns (j: int)
    requires r in b
    ensures 0 <= j < |b| && b[j] == r
  {
    j :| 0 <= j < |b| && b[j] == r;
  }

  lemma CodesOfSameElements(a: seq<WorkerResult>, b: seq<WorkerResult>)
    requires forall r :: r in a <==> r in b
    ensures SuccessCodes(a) == SuccessCodes(b)
    ensures TimedCodes(a) == TimedCodes(b)
  {
    forall k | k in SuccessCodes(a)
      ensures k in SuccessCodes(b)
    {
      var i :| 0 <= i < |a| && a[i].Succeeded? && a[i].code == k;
      var j := FindIn(b, a[i]);
    }
    forall k | k in SuccessCodes(b)
      ensures k in SuccessCodes(a)
    {
      var j :| 0 <= j < |b| && b[j].Succeeded? && b[j].code == k;
      var i := FindIn(a, b[j]);
    }
    forall k | k in TimedCodes(a)
      ensures k in TimedCodes(b)
    {
      var i :| 0 <= i < |a| && a[i].Succeeded? && a[i].processingTime != 0.0 && a[i].code == k;
      var j := FindIn(b, a[i]);
    }
    forall k | k in TimedCodes(b)
      ensures k in TimedCodes(a)
    {
      var j :| 0 <= j < |b| && b[j].Succeeded? && b[j].processingTime != 0.0 && b[j].code == k;
      var i := FindIn(a, b[j]);
    }
  }

  /** The two orderings of the same results, with the conditions the
      source guarantees: distinct codes and at most one carrier. */
  predicate Reordering(a: seq<WorkerResult>, b: seq<WorkerResult>) {
    && multiset(a) == multiset(b)
    && DistinctCodes(a) && DistinctCodes(b)
    && AtMostOneCarrier(a) && AtMostOneCarrier(b)
  }

  lemma ChannelsOrderIndependent(st: Aggregation, a: seq<WorkerResult>, b: seq<WorkerResult>)
    requires Reordering(a, b)
    ensures Aggregate(st, a).store.channels == Aggregate(st, b).store.channels
  {
    var fa, fb := Aggregate(st, a).store, Aggregate(st, b).store;
    SameElements(a, b);
    CodesOfSameElements(a, b);
    AggregateChannels(st, a);
    AggregateChannels(st, b);
    forall k | k in fa.channels && k in SuccessCodes(a)
      ensures fa.channels[k] == fb.channels[k]
    {
      var i :| 0 <= i < |a| && a[i].Succeeded? && a[i].code == k;
      var j := FindIn(b, a[i]);
    }
  }

  lemma MetadataOrderIndependent(st: Aggregation, a: seq<WorkerResult>, b: seq<WorkerResult>)
    requires Reordering(a, b)
    ensures Aggregate(st, a).store.metadata == Aggregate(st, b).store.metadata
  {
    var fa, fb := Aggregate(st, a).store, Aggregate(st, b).store;
    SameElements(a, b);
    CodesOfSameElements(a, b);
    AggregateMetadata(st, a);
    AggregateMetadata(st, b);
    forall k | k in fa.metadata && k in SuccessCodes(a)
      ensures fa.metadata[k] == fb.metadata[k]
    {
      var i :| 0 <= i < |a| && a[i].Succeeded? && a[i].code == k;
      var j := FindIn(b, a[i]);
    }
  }

  lemma TimesOrderIndependent(st: Aggregation, a: seq<WorkerResult>, b: seq<WorkerResult>)
    requires Reordering(a, b)
    ensures Aggregate(st, a).store.processingTimes == Aggregate(st, b).store.processingTimes
  {
    var fa, fb := Aggregate(st, a).store, Aggregate(st, b).store;
    SameElements(a, b);
    CodesOfSameElements(a, b);
    AggregateTimes(st, a);
    AggregateTimes(st, b);
    forall k | k in fa.processingTimes && k in TimedCodes(a)
      ensures fa.processingTimes[k] == fb.processingTimes[k]
    {
      var i :| 0 <= i < |a| && a[i].Succeeded? && a[i].processingTime != 0.0 && a[i].code == k;
      var j := FindIn(b, a[i]);
    }
  }

  lemma CoordinatesOrderIndependent(st: Aggregation, a: seq<WorkerResult>, b: seq<WorkerResult>)
    requires Reordering(a, b)
    ensures Aggregate(st, a).store.coordinates == Aggregate(st, b).store.coordinates
  {
    SameElements(a, b);
    AggregateCoordinates(st, a);
    AggregateCoordinates(st, b);
    if exists i :: 0 <= i < |a| && Carries(a[i]) {
      var i :| 0 <= i < |a| && Carries(a[i]);
      var j := FindIn(b, a[i]);
    } else {
      forall j | 0 <= j < |b|
        ensures !Carries(b[j])
      {
        var i := FindIn(a, b[j]);
      }
    }
  }

  /** The final store does not depend on the order in which the results
      are merged: any reordering of the same results gives the same
      channels, metadata, processing times, coordinates and counts. Only
      the key order, and with it which channel's metadata is read first,
      follows the merge order. */
  lemma OrderIndependent(st: Aggregation, a: seq<WorkerResult>, b: seq<WorkerResult>)
    requires Reordering(a, b)
    ensures Aggregate(st, a).store.channels == Aggregate(st, b).store.channels
    ensures Aggregate(st, a).store.metadata == Aggregate(st, b).store.metadata
    ensures Aggregate(st, a).store.processingTimes == Aggregate(st, b).store.processingTimes
    ensures Aggregate(st, a).store.coordinates == Aggregate(st, b).store.coordinates
    ensures Aggregate(st, a).successful == Aggregate(st, b).successful
    ensures Aggregate(st, a).failed == Aggregate(st, b).failed
  {
    ChannelsOrderIndependent(st, a, b);
    MetadataOrderIndependent(st, a, b);
    TimesOrderIndependent(st, a, b);
    CoordinatesOrderIndependent(st, a, b);
    SameElements(a, b);
    CodesOfSameElements(a, b);
    SuccessCountIsCodeCount(a);
    SuccessCountIsCodeCount(b);
  }

  /** Starting from an empty store, the key order is the order in which
      the successful results were merged, so the scene's scan time is read
      from the first successful result. */
  lemma {:induction false} InsertionOrderFollowsMerge(st: Aggregation, results: seq<WorkerResult>)
    requires DistinctCodes(results)
    requires forall i :: 0 <= i < |results| ==> results[i].code !in st.store.order
    ensures Aggregate(st, results).store.order == st.store.order + SuccessOrder(results)
    decreases |results|
  {
    if |results| > 0 {
      var rest := results[1..];
      assert forall i :: 1 <= i < |results| ==> results[i] == rest[i - 1];
      assert DistinctCodes(rest);
      var st1 := Merge(st, results[0]);
      assert st1.store.order == st.store.order + (if results[0].Succeeded? then [results[0].code] else []);
      assert forall i :: 0 <= i < |rest| ==> rest[i].code !in st1.store.order;
      InsertionOrderFollowsMerge(st1, rest);
      assert st.store.order + SuccessOrder(results)
             == st1.store.order + SuccessOrder(rest);
    }
  }
}
