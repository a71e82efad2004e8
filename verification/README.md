# GOES channel pipeline: decision and table logic

This project models, in Dafny, the decision and table logic of a GOES-R ABI
channel-processing pipeline (`color_plus.py`), together with the grid-export
helpers of `convert_geodata.py`. It covers the following:

- **Processing path.** The choice between the Level-2-aware,
  enhanced-full-disk and standard-CONUS paths.
- **Resolution reconciliation.** The per-domain channel requirement tables,
  the target shape of every channel, the full-disk "always native" rule and
  the shape arithmetic of the upscaler.
- **Reference shape.** The reference shape of a scene.
- **Visible calibration.** kappa0 scaling, min-max normalisation, or the
  data unchanged.
- **Infrared constant selection.** Dataset constants, else the per-channel
  table, else C13. The brightness-temperature formula takes the logarithm as
  a parameter.
- **IR lookup tables.** The breakpoint tables with their integer index
  values, the colour control tables and the grey ramp. Also the
  30000-entry temperature table, the 256-entry colour table and the
  3000-row combined table, plus the per-channel caches.
- **Projection authority.** The extent, the three-band resolution
  classifier, the geotransform and the initialise-once global slot.
- **Small integer rules.** The solar-angle downsample factor and the choice
  of the channel that carries the coordinate arrays.
- **Channel store.** `ChannelDataStore` with its summary, and the sequential
  fold of worker results into it on the standard CONUS and full-disk paths. The fold's final store does not depend on
  the order of the results.
- **RGB products.** The RGB recipe catalog and the worker registry. Also
  product selection, the unified RGB store and its summary, and the creation
  loop, where the worker functions are a parameter.
- **Geodata export.** The strided `sample_grid`, the padded and sampled
  dimensions, the lat/lon bounds, the exported record, and
  `convert_to_json_friendly`.

Floating-point values are exact reals. `int()` of a non-negative value is the
floor (`Common.Trunc`) and `np.clip` is `Common.Clip`. `np.interp` is the
clamped piecewise-linear `Interpolation.Interp` and `np.linspace` is the exact
grid `Interpolation.Linspace`. Arrays are sequences. Python dictionaries are
maps, with a separate sequence wherever their insertion order is observable.
A Python exception is the `Fail` case of `Common.Outcome`.

Modules, one per file: `Common`, `PathSelection`, `Resampling`,
`ReferenceShape`, `Calibration`, `Interpolation`, `EnhancementTables`,
`Enhancement`, `Projection`, `Coordinates`, `ChannelStore`, `RgbCatalog`,
`Geodata`.

## Model

| member | source | states |
|---|---|---|
| PathSelection.DataLevel | color_plus.py:27-29 | The data level is the one recorded in the download summary, and "level1b" when there is no summary or it records none |
| PathSelection.DomainType | color_plus.py:30 | The domain is the configured one, defaulting to "conus" |
| PathSelection.DeterminePath | color_plus.py:573-583 | Level-2-aware exactly when the level is "level2" or a summary exists; otherwise enhanced full disk exactly when the domain is "full_disk"; standard CONUS in every other case (each as an if-and-only-if) |
| PathSelection.SummaryDecidesLevel2Path | color_plus.py:556-583 | With the level read from the summary, the Level-2-aware path is taken exactly when a summary exists; without one, the domain alone decides between full disk and CONUS |
| PathSelection.DefaultConfigurationIsConus | color_plus.py:556-583 | No summary and no configured domain selects the standard CONUS path |
| Resampling.Level2Requirements | color_plus.py:610-624 | The table covers exactly the sixteen ABI channels; on a full-disk domain every one is native; on any other domain it is the regional table |
| Resampling.StandardRequirements | color_plus.py:1336-1345 | The standard table covers exactly the sixteen ABI channels |
| Resampling.TargetShape | color_plus.py:774-786 | A native channel keeps its shape, an upscale_2x channel doubles both dimensions, an upscale_4x channel quadruples both, and an unknown code keeps its native shape |
| Resampling.StandardTargetShape | color_plus.py:1347-1359 | The same rules over the standard table |
| Resampling.StandardMatchesRegional | color_plus.py:614-624 | The standard table equals the Level 2 table of every non-full-disk domain, so both rules give the same target shape there |
| Resampling.PathTargetShape | color_plus.py:1794-1797 | The full-disk path keeps the native shape; the Level-2-aware path keeps it too on a full-disk domain; on every other domain both table-driven paths give the standard table's target; no target is smaller than the native shape in either dimension |
| Resampling.FullDiskIsAlwaysNative | color_plus.py:1794-1797 | On the full disk, the Level-2-aware and full-disk paths both keep every channel at its native shape |
| Resampling.TargetIsIntegerMultiple | color_plus.py:774-786 | On every path a target shape is the native shape times 1, 2 or 4 in both dimensions, and never has fewer pixels |
| Resampling.ZoomedShape | color_plus.py:749-754 | The upscaler's output shape is the floor of shape times zoom in each dimension, and a zoom of (1, 1) keeps the shape |
| Resampling.ResampledShape | color_plus.py:840-847 | The upscaling step fails (division by zero) exactly when the shapes differ and either the current shape has an empty dimension (the zoom divides by it) or the target has one (the bilinear branch of `fast_upscale_array`, lines 766-767, divides by the zoomed shape); otherwise it reaches the target shape |
| Resampling.WorkerReachesPathTarget | color_plus.py:840-847 | A worker given a non-empty native shape ends at exactly the target shape its path chose |
| ReferenceShape.FirstLargestUnique | color_plus.py:1215-1220 | At most one loaded entry is the earliest one of strictly maximal pixel count |
| ReferenceShape.ChooseReferenceShape | color_plus.py:1211-1220 | C02's native shape when C02 was loaded; otherwise the shape of the earliest entry with the largest positive pixel count, and None exactly when no loaded shape has a pixel |
| Calibration.CalibrateVisible | color_plus.py:824-834 | A pixel is a value or NaN (`None`). With kappa0, every present pixel is multiplied by kappa0 and NaN stays NaN. Without it, an empty array fails (nanmax of nothing); when every pixel is NaN, or the largest present value is not positive, the data is returned unchanged; a positive nanmax divides every present pixel by it |
| Calibration.NanMax | color_plus.py:833 | `np.nanmax`: NaN exactly when every pixel is NaN; otherwise a present value that no present value exceeds |
| Calibration.MinMaxPeakIsOne | color_plus.py:833-834 | Min-max normalisation keeps NaN pixels where they are, maps some pixel to exactly 1, none above 1, and keeps the order of the present pixels |
| Calibration.MinMaxIdempotent | color_plus.py:833-834 | Normalising already normalised data changes nothing |
| Calibration.PeakOneIsNanMax | color_plus.py:833 | Data whose present values reach 1 and never exceed it has nanmax 1 |
| Calibration.StandInDataset | color_plus.py:820 | The worker passes the record's constants on exactly when it has fk1 |
| Calibration.TableConstants | color_plus.py:349-360 | The table's constants for a listed channel, and C13's for any other code |
| Calibration.SelectConstants | color_plus.py:365-383 | Complete dataset constants win; otherwise the channel's table entry, or C13's when the code is not listed |
| Calibration.FallbackTableIsValid | color_plus.py:349-383 | Whenever the table is used, the constants are physically valid (fk1, fk2 and bc2 positive) |
| Calibration.SelectionNeverMixesSources | color_plus.py:365-383 | The selected constants come wholly from the dataset or wholly from one table row, never a mixture |
| Calibration.BrightnessTemperature | color_plus.py:396-405 | Per pixel, the Planck inverse where radiance is positive, and no value (NaN) elsewhere |
| Calibration.PixelTemperature | color_plus.py:396-403 | A value exactly when radiance is positive and the two divisors are non-zero; that value t satisfies bc1 + bc2*t = fk2 / ln(fk1/radiance + 1), the effective temperature |
| Calibration.BrightnessTemperatureRoundTrip | color_plus.py:400-403 | For valid constants, the radiance that the forward Planck law gives for a temperature converts back to that same temperature |
| Interpolation.InterpWithin | color_plus.py:231 | Interpolation never leaves the range of the sample values |
| Interpolation.InterpAtSample | color_plus.py:231 | At a breakpoint, interpolation returns that breakpoint's value |
| Interpolation.InterpMonotone | color_plus.py:231 | With non-decreasing values, interpolation is non-decreasing in its argument |
| Interpolation.Interp | color_plus.py:231 | Left of the first breakpoint the first value, right of the last breakpoint the last value |
| Interpolation.InterpNegated | color_plus.py:231 | Interpolation is linear in the values: negating them negates the result |
| Interpolation.InterpAntitone | color_plus.py:231 | With non-increasing values, interpolation is non-increasing in its argument |
| Interpolation.Linspace | color_plus.py:219 | n points, the first is the start and the last the stop, strictly increasing when start < stop |
| EnhancementTables.IndexValues | color_plus.py:230 | One index value per breakpoint, each the integer part of i*255/(n-1) |
| EnhancementTables.IndexValuesSpanBytes | color_plus.py:230 | The index values start at 0, end at 255, never decrease and are all bytes |
| EnhancementTables.ShortwaveTablesWellFormed | color_plus.py:258-273 | The C07 tables pair 44 strictly increasing temperatures from -83 to 127 with 44 byte colours |
| EnhancementTables.WaterVaporTablesWellFormed | color_plus.py:227-230 | The water-vapour curve has 24 strictly increasing breakpoints, the colour table uses the same temperatures, and its 24 colours are bytes |
| EnhancementTables.WindowTablesWellFormed | color_plus.py:233-237 | The window curve has 38 strictly increasing breakpoints, the colour table uses the same temperatures, and its 38 colours are bytes |
| Enhancement.FamilyOf | color_plus.py:222-240 | C07 is shortwave, C08 to C10 water vapour, C11 to C16 window, each as an if-and-only-if; every other code is unclassified |
| Enhancement.EveryIrChannelIsEnhanced | color_plus.py:222-240 | The codes with a curve of their own are exactly the ten infrared codes of the Planck-constant table |
| Enhancement.ShortwaveCurve | color_plus.py:222-225 | The C07 enhancement lies in [0, 255], is 255 at or below -83 and 0 at or above 127 |
| Enhancement.WaterVaporCurve | color_plus.py:226-231 | The water-vapour enhancement lies in [0, 255], is 0 at or below the first breakpoint (-93) and 255 at or above the last (7) |
| Enhancement.WindowCurve | color_plus.py:232-238 | The window enhancement lies in [0, 255], is 0 at or below -110 and 255 at or above 57 |
| Enhancement.DefaultCurve | color_plus.py:239-240 | The default enhancement lies in [0, 255], is 0 at or below -100 and 255 at or above 100 |
| Enhancement.RealsOfIndexValues | color_plus.py:230-231 | The index values, read as reals, are non-decreasing between 0 and 255 |
| Enhancement.EnhancementCurve | color_plus.py:222-240 | Every channel family's enhancement lies in [0, 255] |
| Enhancement.EnhancedValue | color_plus.py:244 | The stored byte is the integer part of the enhancement |
| Enhancement.EnhancementCurveMonotone | color_plus.py:222-240 | Shortwave enhancement falls as temperature rises; every other family's rises |
| Enhancement.CurveAtBreakpoints | color_plus.py:226-238 | At each breakpoint temperature the water-vapour and window enhancements equal that breakpoint's index value |
| Enhancement.TemperatureLut | color_plus.py:212-245 | 30000 strictly increasing temperatures from -150 to 150, each with a byte enhancement |
| Enhancement.TemperatureLutMonotone | color_plus.py:219-244 | Along the temperature table the bytes fall for shortwave and rise for every other family |
| Enhancement.Positions | color_plus.py:273 | Each key temperature is placed at its fraction of the way from the low end to the high end |
| Enhancement.PositionsSpanUnit | color_plus.py:273 | The positions rise strictly from 0 to 1 |
| Enhancement.ComponentWithinBytes | color_plus.py:275-277 | One colour channel of byte colours lies within [0, 255] |
| Enhancement.InterpolatedComponent | color_plus.py:275-277 | An interpolated colour component stored in the uint8 table is a byte |
| Enhancement.InterpolatedColorLut | color_plus.py:274-277 | The interpolated colour table has 256 byte colours |
| Enhancement.InterpolatedColorLutEnds | color_plus.py:274-277 | Its first row is the first control colour and its last row the last control colour |
| Enhancement.GreyRamp | color_plus.py:304-307 | The default table has 256 byte colours |
| Enhancement.ColorLut | color_plus.py:248-310 | Every channel's colour table has 256 byte colours, and an unclassified channel gets the grey ramp (i, i, i) |
| Enhancement.ColorLutEnds | color_plus.py:254-307 | The end rows of each family's colour table are the family's end colours, the shortwave list taken reversed |
| Enhancement.EnhancementIndex | color_plus.py:326-327 | The index into the colour table always lies in 0..255 |
| Enhancement.ClipNeverActs | color_plus.py:326-327 | Interpolating the byte table already yields a value in [0, 255], so the clip never changes it |
| Enhancement.CombinedFrom | color_plus.py:322-328 | 3000 rows whose temperatures are the evenly spaced grid from -150 to 150, each row one of the colour table's entries |
| Enhancement.CombinedFromRows | color_plus.py:322-328 | Row i holds the colour-table entry at the clipped integer enhancement of row i's temperature |
| Enhancement.CombinedLut | color_plus.py:312-340 | The combined table has 3000 temperatures and 3000 byte colours |
| Enhancement.CombinedLutIsCombinedFrom | color_plus.py:312-340 | A code's combined table is built from that code's temperature table and colour table |
| Enhancement.CombinedLutRows | color_plus.py:319-328 | For every code, the temperatures are the grid from -150 to 150 and row i is `ColorLut(code)` at the clipped index of row i's temperature through `TemperatureLut(code)` |
| Enhancement.CombinedIndexMonotone | color_plus.py:322-328 | Along the combined table the selected colour-table row never rises for C07 and never falls for any other code |
| Enhancement.CombinedEndRows | color_plus.py:322-328 | The combined table's end rows are the colours indexed by the enhancement of -150 and of 150 |
| Enhancement.CurveEnds | color_plus.py:222-240 | At -150 the enhancement is 0 (255 for shortwave), and at 150 it is 255 (0 for shortwave) |
| Enhancement.CombinedEndColors | color_plus.py:312-335 | The combined table's first and last colours for each channel family |
| Enhancement.EmptyCacheIsCoherent | color_plus.py:206-209 | The empty caches hold only correct tables |
| Enhancement.CachedTemperatureLut | color_plus.py:212-245 | A cached code returns the cached table and leaves all caches unchanged; otherwise only the temperature cache gains this code; coherent caches stay coherent and yield the correct table |
| Enhancement.CachedColorLut | color_plus.py:248-310 | The same for the colour cache |
| Enhancement.CreateCombinedLut | color_plus.py:312-340 | Returns the correct combined table and caches it under the code; a cached code is returned without change; otherwise both component tables get cached too; no cached key is lost |
| Enhancement.RepeatRequestIsCached | color_plus.py:312-316 | A second request for the same code returns the same table and leaves all caches as the first request left them |
| Projection.ResolutionClass | color_plus.py:144-149 | 0.5 km exactly below 0.000021 rad, 2 km exactly from 0.000042 rad up, 1 km between |
| Projection.ResolutionClassMonotone | color_plus.py:144-149 | A larger pixel never classifies to a finer resolution |
| Projection.NominalSizesClassifyToTheirResolution | color_plus.py:50-54 | Each nominal pixel size of the resolution map classifies to its own resolution |
| Projection.InitAuthority | color_plus.py:56-94 | Fails when x has fewer than two points or y is empty; otherwise the extent is the exact min and max of the coordinates, the extents are non-negative, and the source resolution classifies the first x spacing |
| Projection.DetectResolution | color_plus.py:131-151 | Fails on a zero width or height (division by zero); otherwise the spacings times the dimensions give back the extents, and the class is that of the x spacing |
| Projection.WiderArrayNeverCoarser | color_plus.py:137-149 | More columns over the same extent never give a coarser resolution |
| Projection.Geotransform | color_plus.py:153-178 | Six entries: the origin at (x_min*h, y_max*h), no rotation terms, a column step that spans the scaled x extent in `width` steps, and a row step whose `height` steps span minus the magnitude of the scaled y extent |
| Projection.GeotransformCoversExtent | color_plus.py:162-178 | Stepping width columns from the origin reaches x_max*h, and stepping height rows reaches y_min*h |
| Projection.GetProjectionAuthority | color_plus.py:193-201 | Fails exactly when the slot is uninitialised, and otherwise returns the stored authority |
| Projection.InitializeOnce | color_plus.py:703-705 | A filled slot is never replaced; an empty slot is filled from a usable file and stays empty otherwise |
| Projection.LoadAuthority | color_plus.py:695-705 | A filled slot stays as it is; the slot is empty after the loads only if it was empty before and no file was usable |
| Projection.LoadKeepsAuthority | color_plus.py:695-705 | Once initialised, loading further channels keeps the same authority |
| Projection.AuthorityFromFirstUsableFile | color_plus.py:695-705 | After the loading loop, the slot holds the authority of the first usable file, and is empty exactly when no file is usable |
| Coordinates.ExpectedCarrier | color_plus.py:730 | The carrier is one of the requested channels |
| Coordinates.Level1bCarrierIsUnique | color_plus.py:729-736 | Exactly one requested channel carries the coordinates: C02 when it is requested, else the first channel |
| Coordinates.LoadersAgreeOnCarrier | color_plus.py:668-674 | The Level 2 and Level 1b loaders pick the same carrier exactly when C02 is not requested or is requested first |
| Coordinates.DownsampleFactor | color_plus.py:939-941 | The factor lies in 1..8, is at most the preferred 8 (wide grid) or 4, exceeds 1 only when both axes keep 20 samples per step, and stops below the preferred factor only because one more step would leave an axis with fewer than 20 |
| Coordinates.DownsampleFactorIsLargest | color_plus.py:939-941 | Every admissible factor is at most the chosen one, so the chosen factor is the largest admissible one, and it is characterised by that maximality |
| Coordinates.DownsampleKeepsEnoughSamples | color_plus.py:939-945 | When both axes have 20 or more coordinates, the thinned axes keep at least 20; a shorter axis is not thinned at all |
| ChannelStore.EmptyStoreIsValid | color_plus.py:501-506 | A new store satisfies the store invariant |
| ChannelStore.StoreChannel | color_plus.py:508-519 | The channel and its metadata are stored under the code; every other key, the coordinates and the solar angles are unchanged; a new code is appended to the key order and an existing one keeps its place; a time is recorded only when truthy; the invariant is kept |
| ChannelStore.StoreCoordinateData | color_plus.py:521-528 | Only the coordinates change, and they record the arrays with primary channel C02 |
| ChannelStore.StoreSolarAngles | color_plus.py:530-535 | Only the solar angles change |
| ChannelStore.SizeMb | color_plus.py:539-541 | The sum of each channel's (calibrated + enhanced) bytes over 2^20 equals the total byte count over 2^20, and is never negative |
| ChannelStore.GetSummary | color_plus.py:537-550 | The channel count, the total size as all stored bytes over 2^20, one type per stored channel and the coordinate and solar flags as stored; the average time is 0 when no time was recorded, and otherwise the sum of all recorded times divided by their number |
| ChannelStore.StoreChannelSize | color_plus.py:508-541 | Storing a new code adds its (calibrated + enhanced) bytes over 2^20 to the summary's size; storing an existing code swaps its old bytes for the new ones |
| ChannelStore.MeanTime | color_plus.py:549 | The mean of every recorded time: 0 when none is recorded, otherwise their sum over their number (the order lists each timed key once) |
| ChannelStore.TimeCountIsSize | color_plus.py:549 | When the key order lists each timed key once, the times it counts are exactly the recorded ones, so no time is skipped or counted twice |
| ChannelStore.AverageTime | color_plus.py:549 | 0 when no time is recorded; otherwise the average times the number of recorded times is their sum |
| ChannelStore.AverageWithinBounds | color_plus.py:549 | The average processing time lies between any bounds on the recorded times |
| ChannelStore.SuccessCount | color_plus.py:1692-1715 | The success count never exceeds the number of results |
| ChannelStore.Merge | color_plus.py:1695-1711 | A failure only counts a failure; a success counts a success, stores its two arrays under its code, appends a new code to the key order, and keeps the store invariant |
| ChannelStore.Aggregate | color_plus.py:1692-1715 | The successes add the successful results, successes plus failures grow by the number of results, and the store invariant is kept |
| ChannelStore.SuccessOrder | color_plus.py:1695-1703 | The codes in the merge order are exactly the successful codes |
| ChannelStore.MergeEffect | color_plus.py:1695-1715 | Merging one result writes only its own code's channel, metadata and time, and the coordinates when it carries them; a failure writes nothing |
| ChannelStore.AggregateChannels | color_plus.py:1692-1715 | After the fold the channel keys are the old keys plus the successful codes, each holding its own result's arrays, with untouched old keys unchanged |
| ChannelStore.AggregateMetadata | color_plus.py:1692-1715 | The same for the metadata |
| ChannelStore.AggregateTimes | color_plus.py:1692-1715 | Times are recorded exactly for the successes with a non-zero time |
| ChannelStore.AggregateCoordinates | color_plus.py:1705-1711 | The coordinates are those of the one result that carries them, or unchanged when none does; the solar angles are untouched |
| ChannelStore.SuccessCountIsCodeCount | color_plus.py:1692-1715 | With distinct codes, the success count equals the number of stored codes |
| ChannelStore.CodesOfSameElements | color_plus.py:1692-1715 | Results with the same elements store the same codes and times |
| ChannelStore.ChannelsOrderIndependent | color_plus.py:1692-1715 | The stored channels do not depend on the order in which the results arrive |
| ChannelStore.MetadataOrderIndependent | color_plus.py:1692-1715 | Nor does the stored metadata |
| ChannelStore.TimesOrderIndependent | color_plus.py:1692-1715 | Nor do the recorded times |
| ChannelStore.CoordinatesOrderIndependent | color_plus.py:1692-1715 | Nor do the coordinates |
| ChannelStore.OrderIndependent | color_plus.py:1692-1715 | The whole fold, counts included, is independent of result order; only the key order differs |
| ChannelStore.InsertionOrderFollowsMerge | color_plus.py:1692-1703 | On a store without these codes, the key order gains the successful codes in merge order |
| RgbCatalog.CatalogOrderListsCatalog | color_plus.py:2047-2161 | The catalog's key order lists every recipe once and nothing else |
| RgbCatalog.EveryCatalogWorkerResolves | color_plus.py:2047-2184 | Every recipe's worker name is in the registry |
| RgbCatalog.RegistryIsOneToOne | color_plus.py:2164-2184 | Registry names and worker functions correspond one to one |
| RgbCatalog.SelectProducts | color_plus.py:3128-3141 | A name is selected exactly when it was requested, is in the catalog, and has all its channels available |
| RgbCatalog.SelectionPreservesOrder | color_plus.py:3128-3141 | Selection distributes over concatenation, so it keeps the request order |
| RgbCatalog.RequestedProducts | color_plus.py:3128 | A non-empty configured list is used as given; otherwise the whole catalog in catalog order |
| RgbCatalog.AvailableAmongIsSelection | color_plus.py:3242-3252 | The available-product listing is selection over the catalog order |
| RgbCatalog.AvailableProducts | color_plus.py:3242-3252 | A product is listed exactly when it is in the catalog and all its channels are loaded, and no product is listed twice |
| RgbCatalog.AvailableAmong | color_plus.py:3246-3250 | A name is kept exactly when it is among the given names and can be made; without repeats in, no repeats out |
| RgbCatalog.DefaultRequestSelectsAvailable | color_plus.py:3128-3141 | With nothing requested, the products created from are exactly the available products, in catalog order |
| RgbCatalog.StoreRgb | color_plus.py:2012-2018 | The product is stored under its name, a new name is appended to the key order, a time is recorded only when truthy, and stats whenever given |
| RgbCatalog.StoreRgbKeepsWellFormed | color_plus.py:2012-2018 | Storing keeps the order distinct and in step with the products, and times and stats only for stored products |
| RgbCatalog.CreateFrom | color_plus.py:3180-3213 | After the loop the products are the old ones plus exactly the selected products whose worker succeeded; each of those holds its worker's array and the statistics (method, elapsed time), and gets a creation time, the elapsed time, when that is non-zero; every other name keeps its array, time and statistics |
| RgbCatalog.CreateOne | color_plus.py:3184-3210 | A successful worker stores its array, its statistics and (when non-zero) its elapsed time under the product's name; a failure or an exception leaves the store unchanged |
| RgbCatalog.CreatedProductsAreExactlyTheMadeOnes | color_plus.py:3114-3213 | A product ends up stored exactly when it was requested, can be made from the available channels, and its worker succeeded |
| RgbCatalog.CreatedStoreIsWellFormed | color_plus.py:3114-3213 | The created store satisfies the store invariant |
| RgbCatalog.CreateRgbProducts | color_plus.py:3114-3213 | Every stored product is a catalog product whose worker succeeded, and holds that worker's array and statistics; creation times are recorded exactly for the products with a non-zero elapsed time; statistics exist exactly for the stored products |
| RgbCatalog.InCategory | color_plus.py:2030-2035 | The names of one category are exactly the given catalog names in that category |
| RgbCatalog.GroupByCategory | color_plus.py:2029-2035 | A category appears exactly when it has a product, and lists exactly its products |
| RgbCatalog.InCategoryKeepsDistinct | color_plus.py:2029-2035 | Grouping a store order without repeats lists no product twice under its category |
| RgbCatalog.GetRgbSummary | color_plus.py:2024-2045 | The product count, the product list in insertion order, each product's own shape, the categories (a key only for a category with a stored product, each list holding that category's stored products once each, in store order), and copies of the creation times and statistics; the size is the bytes of every stored product over 2^20, so never negative and 0 for an empty store |
| RgbCatalog.StoreRgbSize | color_plus.py:2012-2026 | Storing a new product adds its bytes over 2^20 to the summary's size; replacing one swaps its old bytes for the new ones |
| RgbCatalog.DistinctOrderCountsKeys | color_plus.py:2038-2040 | The reported product list has exactly as many entries as the store has products |
| Geodata.SampleRow | convert_geodata.py:32 | A `::rate` slice has ceil(n/rate) entries, entry j being element j*rate |
| Geodata.SampleRowIsStride | convert_geodata.py:32 | The row slice agrees with the general strided slice |
| Geodata.SampleRows | convert_geodata.py:32 | The sampled rows are every rate-th row, each sampled in turn |
| Geodata.SampleGrid | convert_geodata.py:29-35 | A zero step fails on 2-D and 3-D arrays, any other rank is returned unchanged, and the rank is kept |
| Geodata.SampledGridShape | convert_geodata.py:31-32 | A rectangular 2-D grid becomes a ceil(rows/r) by ceil(cols/r) grid with out[i][j] = arr[i*r][j*r] |
| Geodata.SampledCellsKeepLastAxis | convert_geodata.py:33-34 | A 3-D array is strided on its first two axes and each kept cell is whole |
| Geodata.TotalDimensions | convert_geodata.py:58-59 | Fails exactly when a padding side is missing (KeyError); otherwise the totals exceed the core size by left+right and top+bottom |
| Geodata.GridDimensions | convert_geodata.py:97-100 | Rows is the number of sampled rows; cols is the first row's length, or 0 with no rows |
| Geodata.GridDimensionsOfSampledGrid | convert_geodata.py:68-70 | The reported grid dimensions of a sampled rectangular grid are the strided dimensions |
| Geodata.Flatten | convert_geodata.py:62-65 | The flattened grid holds exactly the grid's entries |
| Geodata.GridRange | convert_geodata.py:62-65 | Fails exactly on a grid without entries (min of an empty array); otherwise min <= max, every entry lies between them, and both are attained |
| Geodata.CreateGeoData | convert_geodata.py:52-113 | Fails exactly when padding is incomplete or a grid has no entries; otherwise the grids are the lat and lon grids sampled at rate 2, the core size is passed through, the sample rate is the resolution factor times 2, and each bound is an entry of its grid that no entry passes, that is the grid's minimum or maximum |
| Geodata.ReportedGridSizeIsDefined | convert_geodata.py:123 | Whenever the record was built, the sampled grid has a first row, so the final report can index it |
| Geodata.ExportedDimensionsAndBounds | convert_geodata.py:58-65 | The exported size is the core plus the padding, and the exported bounds enclose every lat and lon |
| Geodata.ToList | convert_geodata.py:18-19 | An array becomes a list of the same length whose entries are its elements converted in turn; a numpy scalar becomes the Python number of the same value; anything else is returned as it is |
| Geodata.ToListIsNumpyFree | convert_geodata.py:18-19 | Converting a numpy value leaves no numpy scalar or array anywhere inside the result |
| Geodata.JsonFriendly | convert_geodata.py:16-26 | An array becomes its `tolist()`; a 32- or 64-bit numpy integer or float becomes the Python number of the same value and any other width is kept; a dict keeps its keys in order with each value converted; everything else, lists included, is returned unchanged |
| Geodata.JsonFriendlyFixesFriendly | convert_geodata.py:16-26 | Every converted value is JSON-friendly, and a value is left unchanged exactly when it already is |
| Geodata.JsonFriendlyIsIdempotent | convert_geodata.py:16-26 | Converting twice is the same as converting once |

`create_oklahoma_json` (convert_geodata.py:128-213) repeats the steps of
`create_conus_json` line for line, so `Geodata.CreateGeoData` models both.

## Left out

- The Level-2-aware path merges its results into an `OptimizedMemoryStore` (color_plus.py:1183), a class that is not part of this model. Only the `ChannelDataStore` fold of the standard CONUS and full-disk paths (lines 1692-1715 and 1847-1870) is modelled, and the Level-2 store is not claimed to behave the same.
- The Planck logarithm and exponential are not defined here. `Calibration.BrightnessTemperature` and `Calibration.BrightnessTemperatureRoundTrip` take them as function parameters, and the round trip assumes only that they are inverse and that exp maps positives above 1.
- The numba kernels (`numba_visible_calibration`, `numba_radiance_to_brightness_temp`, `numba_fast_upscale_2x/4x`, `numba_bilinear_upscale`, `ultra_fast_temperature_to_rgb_lut`, the `numba_*_core` RGB formulas, `numba_visible_enhancement`) are not part of this model, because their source is not available. The IR enhancement model covers the lookup-table builders of the primary path (color_plus.py:203-337), used by `enhance_ir_channel` at lines 415-434. The fallback kernels `numba_ir_enhancement_c07_corrected`, `numba_ir_enhancement_water_vapor_corrected` and `numba_ir_enhancement_window_corrected` (lines 451-466) are not modelled, and the model does not claim they agree with the tables.
- The sqrt visible enhancement (color_plus.py:483-492) is left out as a floating-point pixel transform outside the table logic.
- Solar declination, hour angle and zenith angles, and the pyproj reprojection (color_plus.py:897-1166, 1462-1591), are left out as transcendental numerics and a foreign library. Only the downsample factor is modelled.
- Pixel values from `scipy.ndimage.zoom` and the bilinear upscalers are left out. `Resampling.ZoomedShape` and `Resampling.ResampledShape` model output shapes only. Because numba is present (color_plus.py:14), `fast_upscale_array` always takes its numba branch; the `scipy` branch at line 772 is not modelled.
- Floating-point rounding is left out: all real arithmetic is exact. Float32 and uint8 conversions appear only where they change a value, i.e. the integer part taken when a table is stored as bytes.
- NaN is modelled as an absent value (`Option`) in two places. In visible calibration a NaN pixel is absent and nanmax is the maximum of the values present; in the brightness-temperature result (`Calibration.PixelTemperature`, `Calibration.BrightnessTemperature`) a pixel with non-positive radiance or a zero divisor has no value. Everywhere else pixel values are plain reals.
- CalibrateVisible: the kappa0 branch models the numpy expression at color_plus.py:831. With numba present (line 14) the kernel `numba_visible_calibration` at lines 826-829 runs instead; its source is not available, so its float32 rounding is not modelled.
- BrightnessTemperature: models the numpy fallback at color_plus.py:396-403. With numba present (line 14) `numba_radiance_to_brightness_temp` at lines 386-393 runs instead; its source is not available.
- Geodata.GridRange: NaN latitudes or longitudes are not modelled. The grids are plain reals, so the propagation of NaN through `min()` and `max()` is not represented.
- The ThreadPoolExecutor path is left out as concurrency. The sequential merge loop is modelled instead, together with the lemma that the result does not depend on the order in which results arrive.
- Loading from NetCDF, HDF5 and NPZ files, writing JSON, pickle files in a temporary directory, memory reporting, timing and printing are all I/O. The loaded records are inputs, and the worker clock is the `elapsed` parameter of `RgbCatalog.CreateFrom`.
- The RGB worker functions are the `run` parameter of `RgbCatalog.CreateFrom`. Its result is a success with an array and a method name, an unsuccessful result, or an exception.
- RgbCatalog.CreateFrom: `run` and `elapsed` are functions of the product name, so a request that names a product twice gets the same result and time both times. The source re-runs the worker and overwrites the entry; as the last write wins either way, only a differing second run is not represented.
- OSR WKT and PROJ string building, `get_info_dict`, the valid-coordinate mask, and the geocolor land-mask, night-lights and coordinate-grid helpers are left out. They rely on GDAL, pyproj or undefined globals.
- The brightness image of the geodata export (a mean over the colour axis, convert_geodata.py:74-78) is left out as a float average of pixel values.
- Geodata.SampleGrid: a negative sample rate (a reversing slice) is not modelled. The rate is a natural number, and a zero rate fails as Python's `ValueError` does.
- Geodata.TotalDimensions: padding values are taken to be integers. Non-integer padding values are not modelled.
- Geodata.CreateGeoData: the lat/lon grids are taken as 2-D sequences of rows. Other ranks are not modelled.
- ReferenceShape.ChooseReferenceShape: the source returns None also when every loaded shape has zero pixels, since the running maximum starts at 0 and the comparison is strict. The model follows the code.
- ChannelStore.StoreCoordinateData: records primary channel "C02" whichever channel supplied the coordinates, as color_plus.py:521-528 does.
- Enhancement.CreateCombinedLut: requires the caches to hold only correct tables (`Coherent`). That is the only state the processor can reach from its empty caches, since a cache entry is written only by the builders.
- RgbCatalog.StoreRgb: a stats dictionary is stored whenever one is given. The creation loop always passes a non-empty one, so Python's truthiness test on it is not modelled separately.
