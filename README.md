# astro-cli-toolkit core in Dafny

This project models the computational core of the astro-cli-toolkit, a command-line stargazing helper. The model has six parts:

- **Records** (`models.dfy`). The frozen records `StellarObject`, `ObserverLocation`, `HorizontalCoordinates` and `VisibilityInfo`. Each range-checked one is a subset type, and its checked constructor reports the first failing check.
- **Time scales and the coordinate transform** (`coordinates.dfy`):
  - the Julian Day of a calendar date (Meeus, *Astronomical Algorithms*, chapter 7);
  - local sidereal time from a linear GMST model referenced to J2000.0, wrapped into [0, 24);
  - the equatorial-to-horizontal transform, with its clamped `acos` argument, quadrant flip, azimuth wrap and altitude floor.
- **The rise/set solver and the visibility samplers** (`visibility.dfy`):
  - the hour angle at which a star reaches an altitude;
  - the meridian transit after a day's midnight;
  - the three rise/set regimes;
  - the point-in-time sampler and the windowed sampler, which are loops that build and stably sort a result list;
  - the result filter.
- **The catalog pipeline** (`catalog.dfy`): per-row parse, validate and convert with counters and an error list, the order-preserving filters, and the stable sorts.
- **Location input** (`location.dfy`):
  - reading a coordinate as decimal, degrees-minutes-seconds or degrees-minutes;
  - the branches of `parse_location_input`;
  - city suggestions;
  - the suitability check and the descriptive zones of a location.
- **Supporting modules**:
  - `angles.dfy`: degree/radian conversion, the trigonometric functions as a parameter, Python's float `%`;
  - `text.dfy`: strip, case mapping, split, substring test, string order;
  - `seqs.dfy`: comprehensions, slicing, `dict.fromkeys`;
  - `sorting.dfy`: Python's stable `sorted`;
  - `wrappers.dfy`: `Option`.

Modelling choices:

- **Trigonometry.** The functions `sin`, `cos`, `asin` and `acos` are a `TrigFunctions` value passed to every operation that uses them. The subset type `Angles.Trig` carries the only facts the proofs use:
  - `asin` lies in [-pi/2, pi/2];
  - `acos` lies in [0, pi] on [-1, 1];
  - no cosine of a double is exactly zero.

  Oddness of `sin` and evenness of `cos` (`HasParity`) are required only by the two lemmas about mirror symmetry.
- **Time.** Instants are real hours since 2000-01-01T00:00 UTC. Midnight is the whole day below an instant, and the Julian Day at instant t is 2451544.5 + t/24. The positions the samplers compute use the Julian Day of t cut down to its whole second (`SourceJulianDayAt`), because `calculate_julian_day` never reads the microseconds. Lemmas tie this scale to the calendar Julian Day and to `replace(hour=0, ...)`.
- **Arithmetic.** Numbers are exact reals. Python's `int()` on a float truncates toward zero (`Trunc`), and `%` on floats is the floored remainder (`FloorMod`).
- **Loops.** The source's loops are methods whose loop invariants tie the running state to a specification function. The specification functions carry the properties as lemmas.

Where the docstrings and the code disagree, the model follows the code:

- `parse_location_input` advertises inputs like `40.7128N, 74.0060W`. The code only accepts them if `float()` or one of the two patterns does, so the model parses exactly the three recognised forms.
- `calculate_rise_set_times` says it ignores the time component, and it does, through `replace(hour=0, ...)` (`TransitTimeSameDay`).

The samplers use the corrected rise/set solver of the finding below. `Visibility.RiseSetCorrectionDifference` and `Visibility.NowRecordCorrection` state how that differs from the source as written.

Each method in `visibility.dfy` is proved against a specification function: `CurrentVisibility` against `NowRecords`, `CollectWindowRecords` against `WindowRecords`, and `ScanSamples` against `AnyAbove` and `BestIndex`. The same holds for `ProcessStarCatalog` (`Objects`, `Errors`), `ValidateCatalogEntry` (`Problems`) and `SuggestSimilarCities` (`Matches`, `Dedup`).

## Model

| member | source | states |
|---|---|---|
| Models.NewStellarObject | src/data/models.py:21-26 | a star is built iff 0 <= RA <= 24 and -90 <= Dec <= 90; the RA check is reported first; all six fields are kept |
| Models.NewObserverLocation | src/data/models.py:35-42 | built iff -90 <= latitude <= 90 and -180 <= longitude <= 180, latitude reported first; an absent timezone offset becomes 0 |
| Models.NewHorizontalCoordinates | src/data/models.py:51-56 | built iff 0 <= altitude <= 90 and 0 <= azimuth <= 360, altitude reported first |
| Angles.AsinDegrees | src/calculations/coordinates.py:122-123 | the arcsine in degrees lies in [-90, 90] |
| Angles.AcosDegrees | src/calculations/coordinates.py:131-132 | the arccosine of a value in [-1, 1], in degrees, lies in [0, 180] |
| Angles.Clamp | src/calculations/coordinates.py:130 | `max(-1, min(1, x))` lies in [-1, 1], is x inside the interval and the nearer end outside it |
| Angles.FloorMod | src/calculations/coordinates.py:74 | Python's float `x % m` for m > 0 lies in [0, m) and differs from x by a whole multiple of m |
| Coordinates.HoursDegreesRoundTrip | src/calculations/coordinates.py:23-30 | hours-to-degrees and degrees-to-hours are inverse to each other, with 15 degrees per hour |
| Coordinates.Trunc | src/calculations/coordinates.py:55 | `int(x)` truncates toward zero: same sign as x and less than 1 closer to zero |
| Coordinates.ShiftedYearMonth | src/calculations/coordinates.py:48-50 | January and February become months 13 and 14 of the previous year; the shifted month is in [3, 14] and the month count is unchanged |
| Coordinates.TimeOfDay | src/calculations/coordinates.py:45 | the fractional hour of a valid time lies in [0, 24) |
| Coordinates.JulianDayIntegerPart | src/calculations/coordinates.py:52-55 | the two `int()` truncations of the float formula equal the integer quotients 1461(y+4716) div 4 and 306001(m+1) div 10000, so the Julian Day is a whole day count - 1524.5 + hours/24 |
| Coordinates.JulianDayEpochs | src/calculations/coordinates.py:33-57 | 2000-01-01T00:00 has Julian Day 2451544.5 and 2000-01-01T12:00 (J2000.0) has 2451545.0 |
| Coordinates.InstantOf | src/calculations/coordinates.py:33-57 | the instant of a calendar time has that calendar time's Julian Day |
| Coordinates.WholeSecond | src/calculations/coordinates.py:42-45 | the instant cut down to its whole second: at most t, less than a second before it, and on a whole second |
| Coordinates.SourceJulianDayOfCalendarTime | src/calculations/coordinates.py:33-57 | a calendar time lies on a whole second, so the truncation leaves its instant unchanged, and the Julian Day the source computes there is the calendar Julian Day |
| Coordinates.Midnight | src/calculations/visibility.py:83-88 | midnight is a whole number of days since the epoch, at most t and less than a day before it |
| Coordinates.MidnightOfCalendarTime | src/calculations/visibility.py:85 | flooring an instant to whole days equals setting the calendar time of day to 00:00:00 |
| Coordinates.WrapHours | src/calculations/coordinates.py:74-76 | the wrap gives a value in [0, 24) a whole number of days from the input (the `< 0` correction never fires) |
| Coordinates.LocalSiderealTime | src/calculations/coordinates.py:60-84 | LST is in [0, 24) for every Julian Day and longitude, and a whole number of days from GMST + longitude/15 |
| Coordinates.AzimuthCosine | src/calculations/coordinates.py:126-130 | the clamped `acos` argument is in [-1, 1]; the division never divides by zero |
| Coordinates.UnflippedAzimuth | src/calculations/coordinates.py:131-132 | the azimuth before the quadrant flip is in [0, 180] |
| Coordinates.WrapDegreesOfTurn | src/calculations/coordinates.py:140 | `az % 360` on az in [0, 360] is az, except 360 which becomes 0 |
| Coordinates.AltAz | src/calculations/coordinates.py:87-141 | the altitude is the geometric altitude floored at 0; the azimuth is below 360; it is the unflipped `acos` azimuth when sin(HA) <= 0 and its mirror 360 - az (0 staying 0) when sin(HA) > 0 |
| Coordinates.VisibilityThreshold | src/calculations/coordinates.py:144-149 | an object is visible iff its altitude exceeds the threshold; with the floor at 0, every object passes a negative threshold and none passes a threshold of 90 or more |
| Visibility.HourAngleForAltitude | src/calculations/visibility.py:27-67 | None exactly when the hour-angle cosine is below -1 or above 1; otherwise an hour angle in [0, 180] |
| Visibility.HoursToTransit | src/calculations/visibility.py:93-99 | the hours to transit differ from RA - LST by whole days and lie in [0, 24) for RA in [0, 24] and LST in [0, 24) |
| Visibility.TransitTime | src/calculations/visibility.py:70-106 | the transit lies in [midnight, midnight + 24 x 23.934469591/24) |
| Visibility.TransitTimeSameDay | src/calculations/visibility.py:83-89 | instants of the same day give the same transit |
| Visibility.MaxAltitude | src/calculations/visibility.py:128-135 | the culmination altitude lies in [-90, 90] |
| Visibility.RiseSetFromFlags | src/calculations/visibility.py:141-203 | the two regime flags are never both set; never-visible has no times; circumpolar has only the transit; otherwise rise is present iff the hour angle exists, and then transit - rise == set - transit and rise <= transit <= set; the fallback has only the transit |
| Visibility.RiseSetAsWritten | src/calculations/visibility.py:109-203 | the source's flags: never-visible iff dec + lat < -90 or the culmination altitude is negative; circumpolar iff dec + lat > 90 and not never-visible; never-visible has no times, circumpolar only the transit, otherwise a transit |
| Visibility.RiseSet | src/calculations/visibility.py:109-203 | the corrected regimes: never-visible iff the culmination altitude is negative; circumpolar iff abs(dec + lat) > 90 and not never-visible; each with its times |
| Visibility.RiseSetAgreesInNorth | src/calculations/visibility.py:138-139 | for observers on or north of the equator, the corrected solver gives the source's result |
| Visibility.RiseSetCorrectionDifference | src/calculations/visibility.py:138-150 | the correction never changes rise or set; it changes the transit exactly when dec + lat < -90 and the culmination is above the horizon, where the source has none |
| Visibility.RegimeMirrorSymmetric | src/calculations/visibility.py:128-139 | reflecting star and observer through the equator keeps the culmination altitude and the corrected circumpolar flag |
| Visibility.SouthernCircumpolarMisreported | src/calculations/visibility.py:138-150 | as written, Alpha Centauri from Sydney (abs(dec + lat) > 94) is reported never visible with no transit; whenever it culminates above the horizon, its northern mirror is reported circumpolar as written and the star itself circumpolar by the corrected solver |
| Visibility.SortByAltitudeDescSpec | src/calculations/visibility.py:278 | the final sort is descending by altitude, a permutation, and stable for equal altitudes |
| Visibility.NowRecordsMembers | src/calculations/visibility.py:302-322 | a record is listed iff it is the record of an input star whose altitude exceeds the threshold; no more records than stars |
| Visibility.CurrentVisibility | src/calculations/visibility.py:281-325 | the loop yields the visible stars' records (position now, rise/set/transit of the day from the corrected solver, the transit as the time of maximum) in input order, then stably sorted by altitude |
| Visibility.NowRecordCorrection | src/calculations/visibility.py:312-321 | the record with the corrected solver equals the source's record except its time of maximum, which the source leaves None exactly when dec + lat < -90 and the star culminates above the horizon |
| Visibility.SampleCountSpec | src/calculations/visibility.py:238 | sample k (start + k steps) is taken exactly when k < SampleCount |
| Visibility.SampleTimeAfterStart | src/calculations/visibility.py:253 | with a positive step, no sample is before the start |
| Visibility.MaxSeenSpec | src/calculations/visibility.py:249-251 | the running maximum bounds every sample seen, and above -90 it is attained by one |
| Visibility.BestIndexSpec | src/calculations/visibility.py:249-251 | `best_time` is the first sample attaining the maximum: every earlier sample is strictly lower |
| Visibility.AnyAboveSpec | src/calculations/visibility.py:246-247 | `ever_visible` holds iff some sample is above the threshold |
| Visibility.ScanSamples | src/calculations/visibility.py:233-253 | the sampling loop leaves `ever_visible` and `best_time` as AnyAbove and BestIndex say |
| Visibility.WindowRecordPresent | src/calculations/visibility.py:238-255 | a star gets a record iff one of its samples in [start, end] is above the threshold |
| Visibility.WindowRecordBest | src/calculations/visibility.py:238-275 | the record carries the highest sampled altitude and, as its time, the first sample in [start, end] reaching it |
| Visibility.ScanStar | src/calculations/visibility.py:231-275 | one iteration of the star loop builds the window record of that star |
| Visibility.WindowRecordsMembers | src/calculations/visibility.py:229-276 | a record is listed iff it is the window record of some input star |
| Visibility.CollectWindowRecords | src/calculations/visibility.py:229-276 | the star loop yields the window records in input order |
| Visibility.NoWindowRecords | src/calculations/visibility.py:238-247 | a window ending before its start (or a step of zero or less) gives no record, the sampling loop taking no sample |
| Visibility.MinutesToHours | src/calculations/visibility.py:253 | `timedelta(minutes=m)` is m/60 hours, positive for positive m |
| Visibility.VisibilityForTimeRange | src/calculations/visibility.py:206-278 | `calculate_visibility_for_time_range` gives the window records sorted stably by descending altitude; with no star or a window ending before its start, for any step, the result is empty |
| Visibility.FilterVisibleObjects | src/calculations/visibility.py:328-351 | the records with altitude >= min_altitude, in order, cut to `[:max_results]`: all of them without a limit, exactly the limit when it is between 0 and their number |
| Seqs.FilterKeepsExactly | src/data/catalog_processor.py:199-202 | a comprehension keeps exactly the passing elements, each as often as it occurs, as an order-preserving subsequence |
| Seqs.FilterTwice | src/data/catalog_processor.py:178-184 | filtering twice is filtering by the conjunction |
| Seqs.TakePy | src/calculations/visibility.py:349 | `s[:n]` is a prefix of length min(n, len) for n >= 0, and drops -n elements from the end for n < 0 |
| Seqs.DedupSpec | src/data/location_parser.py:266 | `list(dict.fromkeys(s))` has each element of s once and nothing else, in first-occurrence order: the result for every prefix of s is a prefix of the result |
| Seqs.FilterMapMembers | src/calculations/visibility.py:300-322 | an append loop lists exactly the present values of its per-element result |
| Sorting.InsertionSortSpec | src/data/catalog_processor.py:225-240 | `sorted(key=...)` is ordered, a permutation, and keeps equal keys in input order |
| Text.StripEmpty | src/data/location_parser.py:175-177 | `s.strip()` is empty iff every character of s is whitespace in Python's sense (`str.isspace`: the ASCII controls 9-13 and 28-31, space, U+0085, U+00A0 and the Unicode space separators) |
| Text.SplitJoin | src/data/location_parser.py:196 | joining the parts of `split(',')` with commas gives the input back, and no part holds a comma |
| Text.Split | src/data/location_parser.py:195-197 | `split(',')` has one more part than the input has commas |
| Catalog.ParseCatalogEntry | src/data/catalog_processor.py:51-67 | the row fails to parse iff a numeric field is not a number; absent numbers read as 0 and absent texts as empty; texts are stripped |
| Catalog.ProblemsSpec | src/data/catalog_processor.py:75-100 | the entry is valid iff no problem is reported; a problem is reported iff its check fails; the problems follow the order of the checks, each at most once |
| Catalog.ValidateCatalogEntry | src/data/catalog_processor.py:70-100 | the checks append their problems in order; valid iff name and constellation are non-empty, 0 <= RA <= 24, -90 <= Dec <= 90, -2 <= magnitude <= 7 |
| Catalog.ToStellarObject | src/data/catalog_processor.py:103-115 | a validated entry converts without error and keeps all six fields |
| Catalog.RowLandsOnce | src/data/catalog_processor.py:141-155 | every row is either converted or reported, not both, under its own row number |
| Catalog.CountsAddUp | src/data/catalog_processor.py:138-156 | converted rows plus reported rows make all rows |
| Catalog.ErrorsAreRejectedRows | src/data/catalog_processor.py:143-151 | every reported row number names a rejected row |
| Catalog.ErrorsIncreasing | src/data/catalog_processor.py:139-151 | errors are listed in increasing row order, so no row is reported twice |
| Catalog.ErrorsComplete | src/data/catalog_processor.py:143-151 | every rejected row is reported |
| Catalog.ObjectsSpec | src/data/catalog_processor.py:154-155 | the output holds exactly the conversions of the accepted rows |
| Catalog.BlankNameRejected | src/data/catalog_processor.py:58-79 | a row whose name is absent, empty or only whitespace (Python's whitespace set) is never converted, and is reported with a missing name |
| Catalog.ProcessStarCatalog | src/data/catalog_processor.py:132-164 | total = number of rows, valid = number of stars, valid + errors = total, data is None iff no star was produced, success iff data is present |
| Catalog.FilterByMagnitudeSpec | src/data/catalog_processor.py:167-184 | the two passes are one filter by the given bounds; no bounds returns the input |
| Catalog.FilterByConstellationSpec | src/data/catalog_processor.py:187-202 | with a query, exactly the stars whose lowercased constellation contains the lowercased query, each as often as it occurs, in input order; None returns the input |
| Catalog.UpperAll | src/data/catalog_processor.py:217 | the list of uppercased codes, element by element |
| Catalog.FilterBySpectralTypeSpec | src/data/catalog_processor.py:205-222 | keeps the stars with a non-empty type whose first letter, uppercased, equals an uppercased listed code; None or an empty list returns the input |
| Catalog.ApplyFiltersIsOneFilter | src/data/catalog_processor.py:244-262 | the composition magnitude, constellation, spectral type is one filter by all three conditions |
| Catalog.ApplyFiltersSpec | src/data/catalog_processor.py:244-262 | the result keeps exactly the stars passing all three, each as often as it occurs, in input order |
| Catalog.SortByBrightnessSpec | src/data/catalog_processor.py:225-230 | sorted by magnitude, brightest first, a permutation, stable |
| Catalog.SortByNameSpec | src/data/catalog_processor.py:233-235 | sorted alphabetically by name, a permutation, stable |
| Catalog.SortByConstellationSpec | src/data/catalog_processor.py:238-240 | sorted by (constellation, magnitude), a permutation, stable |
| Location.ParseCoordinateString | src/data/location_parser.py:104-160 | a plain number is tried first, then DMS, then DM; a pattern's value has magnitude d + m/60 (+ s/3600) and is negative iff the direction is S or W; failure carries the normalised text |
| Location.Lookup | src/data/location_parser.py:186-187 | a hit is a table entry with that key; a miss means no entry has it |
| Location.LookupFinds | src/data/location_parser.py:186-187 | in a table with distinct keys every entry is found under its key |
| Location.CityLocation | src/data/location_parser.py:187-190 | a city's location is the checked `ObserverLocation` of its coordinates and display name |
| Location.ParseLocationInput | src/data/location_parser.py:163-249 | in every result, a location is present iff the parse succeeded iff there is no error |
| Location.EmptyInputRejected | src/data/location_parser.py:175-182 | an input is rejected as empty iff it is all whitespace (Python's whitespace set, U+00A0 included) |
| Location.CityTriedFirst | src/data/location_parser.py:184-192 | a city key in any case, with surrounding whitespace, gives the table's location before any coordinate parsing |
| Location.UnknownFormatUnlessOneComma | src/data/location_parser.py:194-249 | an input that is not a city and does not hold exactly one comma is of unknown format |
| Location.CoordinatePath | src/data/location_parser.py:195-242 | the latitude is reported before the longitude is looked at; success carries both parsed values, in range; two in-range values always succeed |
| Location.SuggestSimilarCities | src/data/location_parser.py:252-267 | the loop collects the matching display names in table order, then de-duplicates and cuts to `[:max_suggestions]` |
| Location.SuggestionsSpec | src/data/location_parser.py:258-267 | suggestions are distinct, at most max_suggestions, each a matching city's name, in first-match order: the distinct names matched by the first k cities, when no more than the suggestions, are the first suggestions; below the limit every matching city is represented |
| Location.ValidateLocationForAstronomy | src/data/location_parser.py:306-320 | accepts iff abs(lat) <= 85 and not (abs(lat) < 0.1 and abs(lon) < 0.1); rejects as too close to a pole iff abs(lat) > 85 |
| Location.SuitabilitySymmetric | src/data/location_parser.py:312-316 | the check depends only on abs(lat) and abs(lon) |
| Location.GetLocationInfo | src/data/location_parser.py:328-330 | northern iff latitude >= 0, eastern iff longitude >= 0 |
| Location.ZonesMonotone | src/data/location_parser.py:333-351 | further from the equator never gives a lower climate zone or a lower circumpolar class (both skies, some, many) |
| Location.ZonesAgree | src/data/location_parser.py:334-351 | both skies are visible exactly in the tropical and subtropical zones; many circumpolar stars only in the subarctic or arctic zone |

## Left out

- Reading the catalog file (`read_catalog_file`, the `Path(filename).exists()` branch of `process_star_catalog`): file I/O. The pipeline is modelled over the rows `csv.DictReader` would yield.
- `float()` on catalog fields and on coordinate text, and the two `re.match` patterns: these are number parsing and a regex engine. Their outcomes are parameters (`NumberField`, `Location.Scanner`). The model keeps only that the decimal groups are never negative.
- NaN and infinities, which `float()` accepts: reals have neither. Likewise the accuracy of IEEE doubles, and of the real `sin`/`cos`/`asin`/`acos`, which are parameters with range facts only.
- Angles.Trig: Python's `math.asin` raises ValueError outside [-1, 1]. The model's `asin` is total, and the altitude's argument is not shown to stay within [-1, 1].
- Visibility.HourAngleForAltitude: the `ZeroDivisionError` handler is not modelled because no double cosine is zero, so the handler is unreachable. `ValueError` cannot arise either, since `acos` is only called once the value is inside [-1, 1].
- `datetime` time zones and `astimezone` conversion: instants are UTC hours.
- The `date` vs `datetime` branch of `calculate_transit_time`: both reach the same midnight.
- A CSV row shorter than the header, for which `DictReader` yields None fields and `.strip()` raises an uncaught AttributeError: the model's absent text columns read as empty.
- Visibility.VisibilityForTimeRange: requires a positive `time_step_minutes` unless there is no star or the window ends before it starts. With a star and start <= end, a step of 0 never ends the source's sampling loop, and a negative step raises OverflowError once the sample time passes `datetime.min`. The model excludes both.
- Visibility.CurrentVisibility: builds its records with the corrected rise/set solver (see Findings), not `calculate_rise_set_times` as written, which the source calls. `NowRecordCorrection` states the one difference: for a southern star with dec + lat < -90 that culminates above the horizon, the model's `max_altitude_time` is the transit where the source has None.
- Visibility.NowRecordsMembers: lists the records of the corrected solver, with the same difference as `CurrentVisibility`.
- Visibility.WindowRecord: uses the corrected solver too, but takes only rise and set from it. Those never change under the correction (`RiseSetCorrectionDifference`), so the windowed sampler gives the source's records.
- Catalog.FilterByConstellationSpec: case mapping (`Text.Lower`) covers ASCII, the Latin-1 letters and the basic Greek and Cyrillic alphabets. Other scripts, and 'Σ', whose lower case depends on its position, are left unchanged, whereas `str.lower()` maps them.
- Catalog.FilterBySpectralTypeSpec: `Text.Upper` covers the same ranges. 'ß' stays unchanged, where `str.upper()` gives the two characters "SS".
- Location.CityTriedFirst: the city key is looked up with the same partial `Text.Lower`, as are the suggestions (`Location.SuggestionsSpec`) and the uppercasing of coordinate text (`Location.ParseCoordinateString`).
- The `timezone_offset` default of `ObserverLocation`: the argument is an `Option`, and None gives 0. The other defaults of the source (`min_altitude=0.0`, `time_step_minutes=60`, `max_results=None`, `max_suggestions=5`, `altitude=0.0`, the filters' None) are Dafny default parameter values.
- String formatting: `format_coordinates`, `format_coordinate_dms`, `format_location_help`, the numbers inside error messages, and the DMS strings of `get_location_info`. The four-decimal number format in a coordinate location's name is a parameter (`fixed4`). Error messages are reduced to the branch that produced them and the value they print. The "; " join of validation problems is the list of problems.
- `get_all_supported_cities` and `SearchCriteria`: they are not part of this model.
- The contents of `CITY_COORDINATES`: the table is a parameter, a sequence of entries in dictionary order.
- The CLI (`src/cli/main.py`), the catalog generators and the entry point: presentation, data and I/O.

## Findings

| source | as written | input that shows it | evidently intended | confidence | as-written member | corrected member |
|---|---|---|---|---|---|---|
| src/calculations/visibility.py:138-139 | `is_circumpolar = dec + lat > 90` and `is_never_visible = dec + lat < -90 or max_altitude < 0` | Alpha Centauri (dec -60.83) from Sydney (lat -33.87): dec + lat = -94.7, so the star never sets but is reported never visible, with no transit | circumpolar when abs(dec + lat) > 90 in either hemisphere; never visible only when the culmination altitude is negative | not executed; follows from the spherical geometry with trigonometric parity | Visibility.SouthernCircumpolarMisreported | Visibility.RiseSet |
