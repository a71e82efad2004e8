/** The RGB recipe catalog, the worker registry, the choice of products to
    create from the loaded channels, and the store the created products
    are kept in. */
module RgbCatalog {
  import opened Common

  /** The display group of a product. */
  datatype Category = Core | Basic | Atmospheric | Hazards | Weather | Composite

  /** A product recipe: the channels it needs, the registry name of its
      worker, and its group. */
  datatype Recipe = Recipe(channels: seq<string>, worker: string, description: string, category: Category)

  /** The worker functions the registry can hand out. */
  datatype Worker =
    | Geocolor | TrueColor | DayCloudPhase | CloudMicrophysics | Airmass | Dust | Ash
    | FireTemperature | NightMicrophysics | DaySnowFog | SplitWindowDifference
    | DifferentialWaterVapor | SimpleWaterVapor | DayLandCloudFire
    | SplitWindowOptimized | SandwichOptimized | DaySnowFogNightFogCore

  /** `RGB_CATALOG`. */
  const Catalog: map<string, Recipe> := map[
    "geocolor" := Recipe(["C01", "C02", "C03", "C07", "C13"], "rgb_worker_geocolor",
                         "Sophisticated geocolor with day/night blending", Core),
    "cloud_microphysics" := Recipe(["C02", "C05", "C07", "C13", "C15"], "rgb_worker_cloud_microphysics",
                                   "Cloud microphysics RGB for 24-hour composite", Core),
    "true_color" := Recipe(["C01", "C02", "C03"], "rgb_worker_true_color",
                           "Basic true color (use geocolor for better results)", Basic),
    "day_cloud_phase" := Recipe(["C02", "C05", "C13"], "rgb_worker_day_cloud_phase",
                                "Day cloud phase only (use cloud_microphysics for 24h)", Basic),
    "airmass" := Recipe(["C08", "C10", "C12", "C13"], "rgb_worker_airmass",
                        "Airmass RGB for jet streams and fronts", Atmospheric),
    "simple_water_vapor" := Recipe(["C08", "C09", "C10"], "rgb_worker_simple_water_vapor",
                                   "Simple water vapor RGB", Atmospheric),
    "differential_water_vapor" := Recipe(["C08", "C10"], "rgb_worker_differential_water_vapor",
                                         "Differential water vapor", Atmospheric),
    "dust" := Recipe(["C11", "C13", "C14", "C15"], "rgb_worker_dust", "Dust RGB for dust storms", Hazards),
    "ash" := Recipe(["C11", "C13", "C15"], "rgb_worker_ash", "Volcanic ash RGB", Hazards),
    "fire_temperature" := Recipe(["C07", "C06", "C05"], "rgb_worker_fire_temperature",
                                 "Fire temperature RGB", Hazards),
    "day_land_cloud_fire" := Recipe(["C06", "C03", "C02"], "rgb_worker_day_land_cloud_fire",
                                    "Day land cloud fire RGB", Hazards),
    "day_snow_fog" := Recipe(["C03", "C05", "C07", "C13"], "rgb_worker_day_snow_fog", "Day snow fog RGB", Weather),
    "night_microphysics" := Recipe(["C07", "C13", "C15"], "rgb_worker_night_microphysics",
                                   "Nighttime microphysics (fog, low clouds)", Weather),
    "split_window" := Recipe(["C13", "C15"], "rgb_worker_split_window_optimized",
                             "Split window RGB with temperature analysis", Weather),
    "split_window_difference" := Recipe(["C13", "C15"], "rgb_worker_split_window_difference",
                                        "Split window difference", Weather),
    "day_snow_fog_night_fog" := Recipe(["C03", "C05", "C07", "C13"], "rgb_worker_day_snow_fog_night_fog",
                                       "24-hour fog detection: Day snow fog + Night fog (cyan)", Weather),
    "sandwich" := Recipe(["C02", "C13"], "rgb_worker_sandwich_optimized",
                         "Sandwich RGB for 24-hour day/night composite", Composite)
  ]

  /** The catalog's keys in the order the dictionary lists them. */
  const CatalogOrder: seq<string> := [
    "geocolor", "cloud_microphysics", "true_color", "day_cloud_phase",
    "airmass", "simple_water_vapor", "differential_water_vapor",
    "dust", "ash", "fire_temperature", "day_land_cloud_fire",
    "day_snow_fog", "night_microphysics", "split_window", "split_window_difference",
    "day_snow_fog_night_fog", "sandwich"]

  /** `get_rgb_worker_registry`. */
  const WorkerRegistry: map<string, Worker> := map[
    "rgb_worker_geocolor" := Geocolor,
    "rgb_worker_true_color" := TrueColor,
    "rgb_worker_day_cloud_phase" := DayCloudPhase,
    "rgb_worker_cloud_microphysics" := CloudMicrophysics,
    "rgb_worker_airmass" := Airmass,
    "rgb_worker_dust" := Dust,
    "rgb_worker_ash" := Ash,
    "rgb_worker_fire_temperature" := FireTemperature,
    "rgb_worker_night_microphysics" := NightMicrophysics,
    "rgb_worker_day_snow_fog" := DaySnowFog,
    "rgb_worker_split_window_difference" := SplitWindowDifference,
    "rgb_worker_differential_water_vapor" := DifferentialWaterVapor,
    "rgb_worker_simple_water_vapor" := SimpleWaterVapor,
    "rgb_worker_day_land_cloud_fire" := DayLandCloudFire,
    "rgb_worker_split_window_optimized" := SplitWindowOptimized,
    "rgb_worker_sandwich_optimized" := SandwichOptimized,
    "rgb_worker_day_snow_fog_night_fog" := DaySnowFogNightFogCore
  ]

  /** The catalog order lists every catalog key exactly once. */
  lemma CatalogOrderListsCatalog()
    ensures forall i, j :: 0 <= i < j < |CatalogOrder| ==> CatalogOrder[i] != CatalogOrder[j]
    ensures forall name :: name in CatalogOrder <==> name in Catalog
  {
  }

  /** The registry name under which each worker is registered. */
  function RegistryName(w: Worker): string {
    match w
    case Geocolor => "rgb_worker_geocolor"
    case TrueColor => "rgb_worker_true_color"
    case DayCloudPhase => "rgb_worker_day_cloud_phase"
    case CloudMicrophysics => "rgb_worker_cloud_microphysics"
    case Airmass => "rgb_worker_airmass"
    case Dust => "rgb_worker_dust"
    case Ash => "rgb_worker_ash"
    case FireTemperature => "rgb_worker_fire_temperature"
    case NightMicrophysics => "rgb_worker_night_microphysics"
    case DaySnowFog => "rgb_worker_day_snow_fog"
    case SplitWindowDifference => "rgb_worker_split_window_difference"
    case DifferentialWaterVapor => "rgb_worker_differential_water_vapor"
    case SimpleWaterVapor => "rgb_worker_simple_water_vapor"
    case DayLandCloudFire => "rgb_worker_day_land_cloud_fire"
    case SplitWindowOptimized => "rgb_worker_split_window_optimized"
    case SandwichOptimized => "rgb_worker_sandwich_optimized"
    case DaySnowFogNightFogCore => "rgb_worker_day_snow_fog_night_fog"
  }

  /** Every recipe's worker name resolves in the registry. */
  lemma EveryCatalogWorkerResolves()
    ensures forall name :: name in Catalog ==> Catalog[name].worker in WorkerRegistry
  {
  }

  /** The registry hands every worker out under its own name and nothing
      else: lookup and `RegistryName` are inverse, so no two names share a
      worker. */
  lemma RegistryIsOneToOne()
    ensures forall w: Worker :: RegistryName(w) in WorkerRegistry && WorkerRegistry[RegistryName(w)] == w
    ensures forall n :: n in WorkerRegistry ==> RegistryName(WorkerRegistry[n]) == n
  {
  }

  // ---------------------------------------------------------------------
  // Product selection
  // ---------------------------------------------------------------------

  /** A product can be made: it is in the catalog and every channel it
      needs has been loaded. */
  predicate Creatable(name: string, available: set<string>) {
    name in Catalog && forall ch :: ch in Catalog[name].channels ==> ch in available
  }

  /** The filter loop of `create_rgb_products_unified`: the requested names
      that can be made, in request order. */
  function SelectProducts(requested: seq<string>, available: set<string>): (selected: seq<string>)
    ensures forall name :: name in selected <==> name in requested && Creatable(name, available)
    ensures |selected| <= |requested|
  {
    if |requested| == 0 then []
    else
      var rest := SelectProducts(requested[1..], available);
      assert forall name :: name in requested <==> name == requested[0] || name in requested[1..];
      if Creatable(requested[0], available) then [requested[0]] + rest else rest
  }

  /** Selection keeps request order: selecting from two lists one after
      the other is the same as selecting from their concatenation. */
  lemma {:induction false} SelectionPreservesOrder(a: seq<string>, b: seq<string>, available: set<string>)
    ensures SelectProducts(a + b, available) == SelectProducts(a, available) + SelectProducts(b, available)
    decreases |a|
  {
    if |a| > 0 {
      assert (a + b)[0] == a[0];
      assert (a + b)[1..] == a[1..] + b;
      SelectionPreservesOrder(a[1..], b, available);
    } else {
      assert a + b == b;
    }
  }

  /** `RGB_PRODUCTS_TO_CREATE if RGB_PRODUCTS_TO_CREATE else list(RGB_CATALOG.keys())`:
      no setting, or an empty list, means the whole catalog. */
  function RequestedProducts(configured: Option<seq<string>>): (requested: seq<string>)
    ensures configured.Some? && |configured.value| > 0 ==> requested == configured.value
    ensures configured.None? || |configured.value| == 0 ==> requested == CatalogOrder
  {
    if configured.Some? && |configured.value| > 0 then configured.value else CatalogOrder
  }

  /** `get_available_products`: the catalog products whose channels are all
      loaded, in catalog order. */
  function AvailableProducts(available: set<string>): (products: seq<string>)
    ensures forall name :: name in products <==> Creatable(name, available)
    ensures forall i, j :: 0 <= i < j < |products| ==> products[i] != products[j]
  {
    CatalogOrderListsCatalog();
    AvailableAmong(CatalogOrder, available)
  }

  function AvailableAmong(names: seq<string>, available: set<string>): (products: seq<string>)
    requires forall n :: n in names ==> n in Catalog
    ensures forall name :: name in products <==> name in names && Creatable(name, available)
    ensures (forall i, j :: 0 <= i < j < |names| ==> names[i] != names[j]) ==>
            forall i, j :: 0 <= i < j < |products| ==> products[i] != products[j]
    decreases |names|
  {
    if |names| == 0 then []
    else
      var rest := AvailableAmong(names[1..], available);
      DistinctTail(names);
      if forall ch :: ch in Catalog[names[0]].channels ==> ch in available then [names[0]] + rest else rest
  }

  /** Dropping the head of a list without repeats leaves a list without
      repeats that does not contain the head. */
  lemma DistinctTail(names: seq<string>)
    requires |names| > 0
    ensures (forall i, j :: 0 <= i < j < |names| ==> names[i] != names[j]) ==>
            (forall i, j :: 0 <= i < j < |names[1..]| ==> names[1..][i] != names[1..][j]) && names[0] !in names[1..]
  {
    if forall i, j :: 0 <= i < j < |names| ==> names[i] != names[j] {
      forall i | 0 <= i < |names[1..]| ensures names[1..][i] != names[0] {
        assert names[1..][i] == names[i + 1];
      }
    }
  }

  lemma {:induction false} AvailableAmongIsSelection(names: seq<string>, available: set<string>)
    requires forall n :: n in names ==> n in Catalog
    ensures AvailableAmong(names, available) == SelectProducts(names, available)
    decreases |names|
  {
    if |names| > 0 {
      AvailableAmongIsSelection(names[1..], available);
    }
  }

  /** With nothing requested, the products chosen for creation are exactly
      the products reported as available. */
  lemma DefaultRequestSelectsAvailable(configured: Option<seq<string>>, available: set<string>)
    requires configured.None? || |configured.value| == 0
    ensures SelectProducts(RequestedProducts(configured), available) == AvailableProducts(available)
  {
    AvailableAmongIsSelection(CatalogOrder, available);
  }

  // ---------------------------------------------------------------------
  // The RGB store
  // ---------------------------------------------------------------------

  /** What the store keeps of an RGB array. */
  datatype RgbArray = RgbArray(shape: Shape, nbytes: nat)

  /** The processing statistics recorded with a product. */
  datatype Stats = Stats(methodName: string, processingTime: real)

  /** `UnifiedRGBDataStore`, with the products' insertion order. */
  datatype RgbStore = RgbStore(
    products: map<string, RgbArray>,
    order: seq<string>,
    creationTimes: map<string, real>,
    processingStats: map<string, Stats>)

  const EmptyRgbStore: RgbStore := RgbStore(map[], [], map[], map[])

  /** `store_rgb`: the array is stored under its name (appended to the
      order when new); a creation time is recorded only when non-zero, and
      statistics whenever given. Other products are untouched. */
  function StoreRgb(store: RgbStore, name: string, rgb: RgbArray,
                    creationTime: Option<real>, stats: Option<Stats>): (s: RgbStore)
    ensures s.products == store.products[name := rgb]
    ensures name in store.order ==> s.order == store.order
    ensures name !in store.order ==> s.order == store.order + [name]
    ensures creationTime.Some? && creationTime.value != 0.0 ==>
              s.creationTimes == store.creationTimes[name := creationTime.value]
    ensures !(creationTime.Some? && creationTime.value != 0.0) ==> s.creationTimes == store.creationTimes
    ensures stats.Some? ==> s.processingStats == store.processingStats[name := stats.value]
    ensures stats.None? ==> s.processingStats == store.processingStats
  {
    RgbStore(
      store.products[name := rgb],
      if name in store.order then store.order else store.order + [name],
      if creationTime.Some? && creationTime.value != 0.0 then store.creationTimes[name := creationTime.value]
      else store.creationTimes,
      if stats.Some? then store.processingStats[name := stats.value] else store.processingStats)
  }

  /** The store's order lists each stored product once, and times and
      statistics are kept only for stored products. */
  predicate WellFormed(store: RgbStore) {
    (forall i, j :: 0 <= i < j < |store.order| ==> store.order[i] != store.order[j])
    && (forall i :: 0 <= i < |store.order| ==> store.order[i] in store.products)
    && (forall name :: name in store.products ==> name in store.order)
    && (forall name :: name in store.creationTimes ==> name in store.products)
    && (forall name :: name in store.processingStats ==> name in store.products)
  }

  lemma StoreRgbKeepsWellFormed(store: RgbStore, name: string, rgb: RgbArray,
                                creationTime: Option<real>, stats: Option<Stats>)
    requires WellFormed(store)
    ensures WellFormed(StoreRgb(store, name, rgb, creationTime, stats))
  {
  }

  /** What a worker returns, or the exception it raised. */
  datatype WorkerOutcome =
    | Produced(rgb: RgbArray, methodName: string)
    | Unsuccessful(error: string)
    | Raised(error: string)

  /** The creation loop over the selected products. The worker outcomes and
      the measured run times come from outside (`run` and `elapsed`); a
      product whose worker is missing from the registry is skipped. */
  function CreateFrom(store: RgbStore, selected: seq<string>, run: Worker -> WorkerOutcome,
                      elapsed: string -> real): (s: RgbStore)
    requires forall name :: name in selected ==> name in Catalog
    ensures forall name :: name in s.products <==> name in store.products || (name in selected && Made(name, run))
    ensures forall name :: name in selected && Made(name, run) ==>
              s.products[name] == Produce(name, run).rgb
              && name in s.processingStats
              && s.processingStats[name] == Stats(Produce(name, run).methodName, elapsed(name))
    ensures forall name :: name in s.creationTimes <==>
              name in store.creationTimes || (name in selected && Made(name, run) && elapsed(name) != 0.0)
    ensures forall name :: name in selected && Made(name, run) && elapsed(name) != 0.0 ==>
              s.creationTimes[name] == elapsed(name)
    ensures forall name :: !(name in selected && Made(name, run)) ==> Untouched(store, s, name)
    ensures WellFormed(store) ==> WellFormed(s)
    decreases |selected|
  {
    if |selected| == 0 then store
    else
      var next := CreateOne(store, selected[0], run, elapsed);
      assert forall n :: n in selected <==> n == selected[0] || n in selected[1..];
      CreateFrom(next, selected[1..], run, elapsed)
  }

  /** The store holds the same array, creation time and statistics for
      `name` before and after. */
  predicate Untouched(before: RgbStore, after: RgbStore, name: string) {
    && (name in after.products <==> name in before.products)
    && (name in before.products ==> after.products[name] == before.products[name])
    && (name in after.creationTimes <==> name in before.creationTimes)
    && (name in before.creationTimes ==> after.creationTimes[name] == before.creationTimes[name])
    && (name in after.processingStats <==> name in before.processingStats)
    && (name in before.processingStats ==> after.processingStats[name] == before.processingStats[name])
  }

  /** What the product's worker returns. */
  function Produce(name: string, run: Worker -> WorkerOutcome): WorkerOutcome
    requires name in Catalog && Catalog[name].worker in WorkerRegistry
  {
    run(WorkerRegistry[Catalog[name].worker])
  }

  /** One turn of the creation loop: the product is stored when its worker
      resolves and produces an array, and the store is otherwise unchanged. */
  function CreateOne(store: RgbStore, name: string, run: Worker -> WorkerOutcome,
                     elapsed: string -> real): (s: RgbStore)
    requires name in Catalog
    ensures Made(name, run) ==> s.products == store.products[name := run(WorkerRegistry[Catalog[name].worker]).rgb]
    ensures Made(name, run) ==>
              s.processingStats == store.processingStats[name := Stats(Produce(name, run).methodName, elapsed(name))]
    ensures Made(name, run) && elapsed(name) != 0.0 ==> s.creationTimes == store.creationTimes[name := elapsed(name)]
    ensures Made(name, run) && elapsed(name) == 0.0 ==> s.creationTimes == store.creationTimes
    ensures !Made(name, run) ==> s == store
    ensures WellFormed(store) ==> WellFormed(s)
  {
    var workerName := Catalog[name].worker;
    if workerName !in WorkerRegistry then store
    else match run(WorkerRegistry[workerName])
      case Produced(rgb, methodName) =>
        StoreRgb(store, name, rgb, Some(elapsed(name)), Some(Stats(methodName, elapsed(name))))
      case _ => store
  }

  /** The product's worker resolves and produces an array. */
  predicate Made(name: string, run: Worker -> WorkerOutcome)
    requires name in Catalog
  {
    Catalog[name].worker in WorkerRegistry && run(WorkerRegistry[Catalog[name].worker]).Produced?
  }

  /** `create_rgb_products_unified`. When nothing can be made the loop runs
      over an empty selection and the store stays empty, which is the
      early return of the source. */
  function CreateRgbProducts(configured: Option<seq<string>>, available: set<string>,
                             run: Worker -> WorkerOutcome, elapsed: string -> real): (s: RgbStore)
    ensures forall name :: name in s.products ==>
              name in Catalog && Made(name, run)
              && s.products[name] == Produce(name, run).rgb
              && name in s.processingStats
              && s.processingStats[name] == Stats(Produce(name, run).methodName, elapsed(name))
    ensures forall name :: name in s.creationTimes <==> name in s.products && elapsed(name) != 0.0
    ensures forall name :: name in s.creationTimes ==> s.creationTimes[name] == elapsed(name)
    ensures s.processingStats.Keys == s.products.Keys
  {
    CreateFrom(EmptyRgbStore, SelectProducts(RequestedProducts(configured), available), run, elapsed)
  }

  /** A product ends up in the store exactly when it was requested (or
      nothing was), it is in the catalog, all its channels are loaded, and
      its worker produced an array. */
  lemma CreatedProductsAreExactlyTheMadeOnes(configured: Option<seq<string>>, available: set<string>,
                                              run: Worker -> WorkerOutcome, elapsed: string -> real)
    ensures forall name :: name in CreateRgbProducts(configured, available, run, elapsed).products <==>
              name in RequestedProducts(configured) && Creatable(name, available) && Made(name, run)
  {
  }

  /** The created store is well formed. */
  lemma CreatedStoreIsWellFormed(configured: Option<seq<string>>, available: set<string>,
                                 run: Worker -> WorkerOutcome, elapsed: string -> real)
    ensures WellFormed(CreateRgbProducts(configured, available, run, elapsed))
  {
  }

  // ---------------------------------------------------------------------
  // Summary grouping
  // ---------------------------------------------------------------------

  /** The catalog products among `names` that belong to category `c`, in
      the order of `names`. */
  function InCategory(names: seq<string>, c: Category): (members: seq<string>)
    ensures forall n :: n in members <==> n in names && n in Catalog && Catalog[n].category == c
    decreases |names|
  {
    if |names| == 0 then []
    else
      var init := InCategory(names[..|names| - 1], c);
      var last := names[|names| - 1];
      assert forall n :: n in names <==> n in names[..|names| - 1] || n == last;
      if last in Catalog && Catalog[last].category == c then init + [last] else init
  }

  /** Filtering a list without repeats gives a list without repeats, so no
      product is listed twice under its category. */
  lemma {:induction false} InCategoryKeepsDistinct(names: seq<string>, c: Category)
    requires forall i, j :: 0 <= i < j < |names| ==> names[i] != names[j]
    ensures forall i, j :: 0 <= i < j < |InCategory(names, c)| ==> InCategory(names, c)[i] != InCategory(names, c)[j]
    decreases |names|
  {
    if |names| > 0 {
      var prefix, last := names[..|names| - 1], names[|names| - 1];
      assert forall i, j :: 0 <= i < j < |prefix| ==> prefix[i] != prefix[j] by {
        forall i, j | 0 <= i < j < |prefix| ensures prefix[i] != prefix[j] {
          assert prefix[i] == names[i] && prefix[j] == names[j];
        }
      }
      InCategoryKeepsDistinct(prefix, c);
      assert last !in prefix by {
        forall i | 0 <= i < |prefix| ensures prefix[i] != last {
          assert prefix[i] == names[i];
        }
      }
      var init := InCategory(prefix, c);
      if last in Catalog && Catalog[last].category == c {
        var m := init + [last];
        assert InCategory(names, c) == m;
        assert last !in init;
        forall i, j | 0 <= i < j < |m| ensures m[i] != m[j] {
          if j < |init| {
            assert m[i] == init[i] && m[j] == init[j];
          } else {
            assert m[j] == last && m[i] == init[i] && m[i] in init;
          }
        }
      }
    }
  }

  /** The `categories` part of `get_summary`: walking the store order, each
      catalog product is appended to its category's list; names outside the
      catalog are skipped. A category is present exactly when it has a
      member, and its list is that category's products in store order. */
  function GroupByCategory(names: seq<string>): (groups: map<Category, seq<string>>)
    ensures forall c :: c in groups <==> |InCategory(names, c)| > 0
    ensures forall c :: c in groups ==> groups[c] == InCategory(names, c)
    decreases |names|
  {
    if |names| == 0 then map[]
    else
      var init := GroupByCategory(names[..|names| - 1]);
      var last := names[|names| - 1];
      if last !in Catalog then init
      else
        var c := Catalog[last].category;
        init[c := (if c in init then init[c] else []) + [last]]
  }

  /** The dictionary `get_summary` returns. */
  datatype RgbSummary = RgbSummary(
    totalProducts: nat,
    totalSizeMb: real,
    products: seq<string>,
    shapes: map<string, Shape>,
    categories: map<Category, seq<string>>,
    creationTimes: map<string, real>,
    processingStats: map<string, Stats>)

  /** The bytes of the products listed in `names`. */
  function RgbBytes(names: seq<string>, products: map<string, RgbArray>): nat
    requires forall n :: n in names ==> n in products
  {
    if |names| == 0 then 0 else products[names[0]].nbytes + RgbBytes(names[1..], products)
  }

  /** `get_summary`: the product count and list follow the store's order,
      the size is the stored bytes over 2^20, each shape is its product's,
      the categories group exactly the stored catalog products, and the
      creation times and statistics are copies of the store's. */
  function GetRgbSummary(store: RgbStore): (summary: RgbSummary)
    requires WellFormed(store)
    ensures summary.totalProducts == |store.products|
    ensures summary.totalSizeMb >= 0.0
    ensures summary.totalSizeMb == RgbBytes(store.order, store.products) as real / BytesPerMb
    ensures |store.products| == 0 ==> summary.totalSizeMb == 0.0
    ensures summary.products == store.order
    ensures summary.shapes.Keys == store.products.Keys
    ensures forall n :: n in summary.shapes ==> summary.shapes[n] == store.products[n].shape
    ensures forall c, n :: c in summary.categories && n in summary.categories[c] <==>
              n in store.products && n in Catalog && Catalog[n].category == c
    ensures summary.categories == GroupByCategory(store.order)
    ensures forall c :: c in summary.categories <==> |InCategory(store.order, c)| > 0
    ensures forall c :: c in summary.categories ==> summary.categories[c] == InCategory(store.order, c)
    ensures forall c, i, j :: c in summary.categories && 0 <= i < j < |summary.categories[c]| ==>
              summary.categories[c][i] != summary.categories[c][j]
    ensures summary.creationTimes == store.creationTimes
    ensures summary.processingStats == store.processingStats
  {
    DistinctOrderCountsKeys(store);
    forall c {
      InCategoryKeepsDistinct(store.order, c);
    }
    RgbSummary(|store.order|, RgbBytes(store.order, store.products) as real / BytesPerMb, store.order,
               map name | name in store.products :: store.products[name].shape,
               GroupByCategory(store.order),
               store.creationTimes, store.processingStats)
  }

  /** Appending a name adds that product's bytes. */
  lemma {:induction false} RgbBytesAppend(names: seq<string>, products: map<string, RgbArray>, name: string)
    requires forall n :: n in names ==> n in products
    requires name in products
    ensures RgbBytes(names + [name], products) == RgbBytes(names, products) + products[name].nbytes
    decreases |names|
  {
    if |names| > 0 {
      assert (names + [name])[1..] == names[1..] + [name];
      RgbBytesAppend(names[1..], products, name);
    }
  }

  /** Changing the array under a name that occurs once in `names` replaces
      that array's bytes and nothing else. */
  lemma {:induction false} RgbBytesUpdate(names: seq<string>, products: map<string, RgbArray>,
                                          name: string, rgb: RgbArray)
    requires forall n :: n in names ==> n in products
    requires forall i, j :: 0 <= i < j < |names| ==> names[i] != names[j]
    ensures name in names ==>
            RgbBytes(names, products[name := rgb]) + products[name].nbytes == RgbBytes(names, products) + rgb.nbytes
    ensures name !in names ==> RgbBytes(names, products[name := rgb]) == RgbBytes(names, products)
    decreases |names|
  {
    if |names| > 0 {
      var rest := names[1..];
      assert forall i, j :: 0 <= i < j < |rest| ==> rest[i] != rest[j] by {
        forall i, j | 0 <= i < j < |rest| ensures rest[i] != rest[j] {
          assert rest[i] == names[i + 1] && rest[j] == names[j + 1];
        }
      }
      if names[0] == name {
        assert name !in rest by {
          forall i | 0 <= i < |rest| ensures rest[i] != name {
            assert rest[i] == names[i + 1];
          }
        }
      }
      RgbBytesUpdate(rest, products, name, rgb);
    }
  }

  /** Storing a product changes the summary's total size by exactly its
      bytes over 2^20: a new name adds them, an existing name swaps the old
      array's bytes for the new one's. */
  lemma StoreRgbSize(store: RgbStore, name: string, rgb: RgbArray,
                     creationTime: Option<real>, stats: Option<Stats>)
    requires WellFormed(store)
    ensures WellFormed(StoreRgb(store, name, rgb, creationTime, stats))
    ensures var s := StoreRgb(store, name, rgb, creationTime, stats);
            && (name !in store.products ==>
                  GetRgbSummary(s).totalSizeMb == GetRgbSummary(store).totalSizeMb + rgb.nbytes as real / BytesPerMb)
            && (name in store.products ==>
                  GetRgbSummary(s).totalSizeMb
                  == GetRgbSummary(store).totalSizeMb + (rgb.nbytes as real - store.products[name].nbytes as real) / BytesPerMb)
  {
    var s := StoreRgb(store, name, rgb, creationTime, stats);
    StoreRgbKeepsWellFormed(store, name, rgb, creationTime, stats);
    var before := RgbBytes(store.order, store.products);
    var after := RgbBytes(s.order, s.products);
    assert GetRgbSummary(store).totalSizeMb == before as real / BytesPerMb;
    assert GetRgbSummary(s).totalSizeMb == after as real / BytesPerMb;
    RgbBytesUpdate(store.order, store.products, name, rgb);
    if name in store.products {
      assert after + store.products[name].nbytes == before + rgb.nbytes;
      ShiftQuotient(before as real, after as real, rgb.nbytes as real - store.products[name].nbytes as real);
    } else {
      RgbBytesAppend(store.order, s.products, name);
      assert after == before + rgb.nbytes;
      ShiftQuotient(before as real, after as real, rgb.nbytes as real);
    }
  }

  lemma ShiftQuotient(before: real, after: real, delta: real)
    requires after == before + delta
    ensures after / BytesPerMb == before / BytesPerMb + delta / BytesPerMb
  {
  }

  lemma DistinctOrderCountsKeys(store: RgbStore)
    requires WellFormed(store)
    ensures |store.order| == |store.products|
  {
    var keys := set i | 0 <= i < |store.order| :: store.order[i];
    assert keys == store.products.Keys;
    DistinctCardinality(store.order);
  }

  lemma {:induction false} DistinctCardinality(s: seq<string>)
    requires forall i, j :: 0 <= i < j < |s| ==> s[i] != s[j]
    ensures |set i | 0 <= i < |s| :: s[i]| == |s|
    decreases |s|
  {
    if |s| > 0 {
      var init := s[..|s| - 1];
      DistinctCardinality(init);
      var a := set i | 0 <= i < |init| :: init[i];
      var b := set i | 0 <= i < |s| :: s[i];
      assert b == a + {s[|s| - 1]};
      assert s[|s| - 1] !in a;
    }
  }
}
