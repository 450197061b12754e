# Earthquake visualizer: the feed pipeline, in Dafny

This project models the logic of the earthquake map app (`src/App.jsx`):
the helpers between the USGS GeoJSON feed and the map widget. They are:

- the **normaliser**, which flattens each feed feature into an event record
  (`lon, lat, depth` from `geometry.coordinates`, plus the properties) and
  drops records without finite coordinates or with a non-numeric magnitude
  (module `Feed`);
- the **magnitude filter** and the **summary statistics** the data hook
  derives from the events: count, average magnitude, strongest event
  (module `Aggregation`);
- **`calculateBounds`**, the loop that finds the rectangle the map is fitted
  to (module `Bounds`, an imperative method checked against a fold);
- the **icon resolver**: colour bands, marker size, and the module-wide icon
  cache keyed by half-magnitude bucket (module `Icons`, the cache as a class
  whose `MakeIcon` updates a `map<int, Icon>` field).

`Sequences` holds `map`/`filter` over sequences, with the fact that a
filter is an order-preserving subsequence that keeps exactly the passing
positions. `Wrappers` holds `Option`, the model of null/undefined.

Numbers are Dafny `real`s. A raw feed value is `Finite`, `NaN`, `Infinite`
or `Missing` (null or undefined). After validation, an event has real
coordinates and an `Option<real>` magnitude. JavaScript's `Math.round(x)` is
`(x + 0.5).Floor`.

Two behaviours of the code differ from what a reader might expect, and the
model follows the code:
- **Unknown magnitudes under a threshold.** One could expect events of unknown
  magnitude to survive the threshold filter. Line 117 substitutes `-Infinity`
  for a missing magnitude, so every nonzero threshold drops them; only a
  threshold of 0 (falsy) keeps everything.
- **Ties for the strongest event.** One could expect ties to go to the first
  event. The reduce on line 126 keeps its accumulator only when it is strictly
  greater, so ties go to the last maximal event.

## Model

| member | source | states |
|---|---|---|
| `Feed.Normalize` | src/App.jsx:80-99 | A `features` value that is not an array yields no events; otherwise there are never more events than features |
| `Feed.Flatten` | src/App.jsx:82-98 | The mapping step: absent coordinates read as `[null, null, null]`, so lat, lon and depth are missing; absent properties read as `{}`, so the magnitude is missing and the descriptive fields are empty; the id is copied |
| `Feed.NormalizeSelectsValidFeatures` | src/App.jsx:80-99 | The events are the features at strictly increasing positions, so the normaliser is an order-preserving subsequence. A feature is kept iff its longitude and latitude are finite and its magnitude is absent or not NaN. Each event has `lon = coordinates[0]`, `lat = coordinates[1]`, `depth = coordinates[2]`, plus the feature's magnitude, id and properties (absent properties read as `{}`) |
| `Feed.NaNLongitudeDropped` | src/App.jsx:99 | Three features, one with coordinates `[NaN, 10, 5]`, normalise to two events |
| `Sequences.FilterIsKeptSubsequence` | src/App.jsx:117 | `filter` returns the elements at the passing positions, in their original order, and keeps every passing position |
| `Aggregation.FilterByMag` | src/App.jsx:116-119 | The `filtered` memo never holds more events than its input; what it keeps is stated in the three lemmas below |
| `Aggregation.FilterByMagZero` | src/App.jsx:116-119 | A threshold of 0 is falsy, so the filtered view equals the input |
| `Aggregation.FilterByMagSelects` | src/App.jsx:116-119 | With a nonzero threshold, the view is an order-preserving subsequence. Position i is kept iff its magnitude is present and `>= minMag` |
| `Aggregation.FilterByMagDropsUnknown` | src/App.jsx:117 | With a nonzero threshold, every shown event has a known magnitude at or above it, and every such input event is shown |
| `Aggregation.UnknownMagnitudeDroppedAtThreshold` | src/App.jsx:117 | Events with magnitudes 2, unknown and 5 under threshold 3 leave only the magnitude-5 event |
| `Aggregation.Stats` | src/App.jsx:121-128 | `count` is the length. The empty collection gives exactly `{count: 0, avgMag: 0, max: null}`. Otherwise `avgMag * count` equals the sum of `mag ?? 0` |
| `Aggregation.SumMags` | src/App.jsx:123-125 | The reduce over `mag ?? 0`: a collection of unknown magnitudes sums to 0, and non-negative magnitudes give a non-negative sum |
| `Aggregation.SumMagsPermutation` | src/App.jsx:123-125 | The sum of `mag ?? 0` is the same for any reordering of the collection |
| `Aggregation.StatsOrderIndependent` | src/App.jsx:123-125 | Count and average magnitude do not depend on the order of the events |
| `Aggregation.Strongest` | src/App.jsx:126 | The `max` reduce starting from null: null iff the collection is empty, otherwise a member of the collection |
| `Aggregation.StrongestIsLastMaximum` | src/App.jsx:126 | On a non-empty collection, the reduce returns the event at the last position whose compared magnitude (null as 0) is maximal, so ties go to the later event |
| `Aggregation.StrongestIsMaximal` | src/App.jsx:126 | When all magnitudes are known, `max` is a member of the collection with magnitude at least every member's |
| `Aggregation.StatsReportsStrongest` | src/App.jsx:122-127 | A non-empty collection's stats carry the strongest event, which is a member of the collection |
| `Bounds.CalculateBounds` | src/App.jsx:146-162 | The loop over the points returns null for no points and otherwise the box the seeded min/max fold gives |
| `Bounds.Enclose` | src/App.jsx:148-157 | The seeded min/max fold the loop computes: on one or more points it never gives an inverted box (`minLat <= maxLat`, `minLon <= maxLon`) |
| `Bounds.EncloseContains` | src/App.jsx:148-157 | Every point lies within the box, and each edge reaches at least as far as its seed (90, -90, 180, -180) |
| `Bounds.EncloseAttained` | src/App.jsx:148-157 | Each edge of the box is its seed value or the coordinate of some point |
| `Bounds.BoundsAreExtremes` | src/App.jsx:146-162 | The result is null iff there are no points. For points inside [-90, 90] × [-180, 180], the box contains every point and each edge is attained by a point, so the corners are exactly the component-wise min and max |
| `Bounds.EncloseMonotone` | src/App.jsx:152-157 | A box built from a superset of the points reaches at least as far on every side |
| `Bounds.BoundsOrderIndependent` | src/App.jsx:146-162 | Two point sequences with the same members, in any order or multiplicity, give the same result |
| `Bounds.AntimeridianBoxGoesLongWay` | src/App.jsx:152-157 | Points at longitudes 179 and -179 give `minLon = -179`, `maxLon = 179`: the box runs 358 degrees the long way round, not across the antimeridian |
| `Bounds.BoundsSinglePoint` | src/App.jsx:146-162 | A single point on the globe gives a degenerate box with that point as both corners |
| `Bounds.SeedBoundsPointOffGlobe` | src/App.jsx:148-153 | The seeds take part: for a single point with latitude above 90, the southern edge is 90, not the point's latitude |
| `Icons.GetColor` | src/App.jsx:21-27 | The colour is grey exactly when the magnitude is unknown; the bands themselves are in `ColorBands` |
| `Icons.MagToSize` | src/App.jsx:29-32 | Unknown magnitude gives 18. A known magnitude gives a size in [14, 42], equal to `12 + 4 * mag` between magnitudes 0.5 and 7.5 |
| `Icons.UnknownMagnitudeVisual` | src/App.jsx:21-32 | An unknown magnitude gets the grey `#9CA3AF` icon of size 18 |
| `Icons.ColorBands` | src/App.jsx:21-27 | A known magnitude is never grey. It is green iff `< 2.5`, yellow iff in [2.5, 4.5), orange iff in [4.5, 6), red iff `>= 6` |
| `Icons.VisualMonotone` | src/App.jsx:21-32 | A larger magnitude never gets a milder colour band or a smaller size |
| `Icons.Round` | src/App.jsx:36 | `Math.round` returns the integer within half a unit of its argument, with halves rounded up |
| `Icons.BucketKey` | src/App.jsx:36 | The key `Math.round((mag ?? 0) * 2)` is the integer k with `2k - 1 <= 4 * (mag ?? 0) < 2k + 1` |
| `Icons.BucketMembership` | src/App.jsx:36 | The key `Math.round(2 * m)` equals k iff `2k - 1 <= 4m < 2k + 1` |
| `Icons.BucketCollisions` | src/App.jsx:34-40 | An unknown magnitude and 0.1 share key 0 but need different icons. 2.4 and 2.6 share key 5 but fall in the green and yellow bands |
| `Icons.Describe` | src/App.jsx:39-56 | The descriptor built on a miss shows the given magnitude; it is grey with size 18 exactly when the magnitude is unknown, and otherwise sized within [14, 42] |
| `Icons.IconCache.constructor` | src/App.jsx:34 | The cache starts empty |
| `Icons.IconCache.MakeIcon` | src/App.jsx:35-60 | A hit returns the stored icon and leaves the cache unchanged. A miss stores the icon for the given magnitude under its key only. No entry is lost or changed. Every stored icon is the descriptor of some magnitude in its bucket (the class invariant) |
| `Icons.ResolveTwice` | src/App.jsx:35-60 | Resolving the same magnitude twice returns the same icon |
| `Icons.FirstMagnitudeFixesBucket` | src/App.jsx:35-60 | On a fresh cache, the first magnitude requested in a bucket fixes the icon that every later magnitude in that bucket receives |

## Left out

- The fetch lifecycle of `useEarthquakes` (src/App.jsx:69-114) is not modelled: `fetch`, the `AbortController`, the `active` flag, and the loading, error and `updatedAt` state. It is asynchronous browser I/O. Only the normalising expression inside it (lines 80-99) is modelled.
- React state and memoisation (`useState`, `useEffect`, `useMemo`) are left out; the memoised bodies are plain functions.
- Marker clustering is left out: it is done entirely by the external `react-leaflet-markercluster` component, whose code is not part of this model.
- Map-widget calls are left out: `FitBounds` (`fitBounds`/`setView`), the zoom control, tile layer and map container are Leaflet calls. The presentational components and the `resetTrigger` counter are UI only.
- The `L.divIcon` options and HTML template are left out. The icon is modelled as its size, colour and the magnitude it shows, without the `toFixed(1)` text.
- Formatting and clock calls (`toFixed`, `toLocaleString`, `toLocaleTimeString`, `Date.now()`) and the `FEEDS` URL table are left out.
- Arithmetic is exact real arithmetic. IEEE-754 rounding in the sum, the division and `mag * 2` is not modelled.
- Feed.RawMag: an infinite magnitude is not representable. The source lets one through the normaliser, since `isNaN(Infinity)` is false, and JSON only produces one from an out-of-range literal.
- Feed.RawNum: `Missing` covers both null and undefined, and `NaN` covers every value `isNaN` flags. The normaliser treats null and undefined alike. The one place they differ is the strongest-event comparison, and there the model treats a missing magnitude as JSON null (coerced to 0). An absent `mag` key (undefined) would compare false with everything in the source.
- Non-numeric feed values that JavaScript coerces are not modelled. One example is a string magnitude like `"5"`, which passes `isNaN` and would be concatenated into the sum.
- Feed.RawFeature, Feed.Normalize: a feature that is `null`, or whose `coordinates` is a number or a plain object, is not representable. In the source it makes the mapping at src/App.jsx:83 throw a TypeError. The catch at lines 102-103 reports that as the fetch error, so `setData` (line 100) never runs and the whole batch is discarded while the previous data stays. `Normalize` models only the silent per-record drop that line 99 applies to representable features.
- Aggregation.Passes: the threshold is a real number. A NaN threshold, which is also falsy, is not modelled; the slider produces only 0 to 7 in steps of 0.5.
- Bounds: there is no antimeridian handling, in the source or the model. Events either side of longitude 180 give a box that runs the long way round the globe (179 and -179 give a box 358 degrees wide); the box is never inverted.
