# NepalWeapTools, modelled in Dafny

NepalWeapTools prepares input files for the WEAP water-allocation model of Nepalese
catchments. This project models its four pure pieces of logic and proves their properties:

- **`util.date_standardiser`** (`date_standardiser.dfy`, with `digits.dfy` and `calendar.dfy`).
  - It reads an ISO 8601 calendar date, optionally followed by a time of day that is
    discarded. Otherwise it reads `DD/Mon/YYYY`.
  - It writes the date back as `YYYY-MM-DD`.
  - A string that neither grammar accepts is an error, and so is one naming a day the
    Gregorian calendar does not have.
- **`MeasVar`** (`measvar.dfy`).
  - It left-joins a station frame onto the calibration dates, with pandas' semantics for
    duplicate and missing labels.
  - It builds the WEAP export: three header rows, and column names suffixed with the unit.
- **The loaders of `HydroData` and `MeteoData`** (`loaders.dfy`, `station_merge.dfy`).
  - Every `Date` cell is standardised, rows without a date are dropped and counted, and the
    frame is indexed by date.
  - Meteorological sheets are narrowed to the requested stations.
  - Each hydrological station sheet is renamed after its station and merged onto the dates.
  - The loaders take the date standardiser as a parameter (`Loaders.Standardiser`). The
    workbook loaders use `DateStandardiser.Standardise`, as `Loaders.LoadedDatesCanonical`
    shows.
- **`LulcData`** (`lulc.dfy`).
  - Pixel counts of the ICIMOD land-cover classes become hectares.
  - The classes are folded into WEAP's five land uses.
  - The result is written as one constant row per modelled year, under a four-line header.
- **The demand arithmetic of `UrbDemData.__init__`** (`urban_demand.dfy`).
  - The plumbing percentage is validated.
  - Each ward's household population is split into plumbed and unplumbed people and priced
    at the per-person rates.
  - Students are priced at the per-student rate.
  - The domestic and institutional columns are outer-joined on the ward.

Python exceptions are `Failure` values of `Wrappers.Result`. Numbers are `real` and dates
are strings.

The domain of the date standardiser is the `YYYY-MM-DD[(T| )HH:MM[:SS]]` subset of ISO 8601,
plus `strptime`'s `%d/%b/%Y` under CPython's rules:
- the day is `1`..`9`, `01`..`31`, or a space followed by `1`..`9`;
- the month is an English three-letter abbreviation, compared case-insensitively;
- the year is exactly four ASCII digits.

**Where the code and its description disagree.** The loaders are written as if an
unreadable date yields a missing value:
- the `skipped_rows` parameter is documented as counting rows whose dates could not be
  handled (`NepalWeapTools/dataprep.py:72-73`);
- both loaders follow `.apply(util.date_standardiser)` with `dropna(subset=['Date'])` and
  count the rows dropped (`NepalWeapTools/dataprep.py:189-193` and `:272-278`).

But `util.date_standardiser` raises `ValueError` on such a date rather than returning a
missing value, so the load aborts. `dropna` therefore never drops a row of a sheet that
loads. The model follows the code:
`Loaders.LoadSheet` and `Loaders.HydroMeasure` prove `skippedRows == 0` on success, and the
first bad cell is returned as `BadDate`.

To verify, give every file to Dafny 4.11 at once, from this directory:

    dafny verify --resource-limit 2000000 --verification-time-limit 0 --warn-contradictory-assumptions *.dfy

## Model

| member | source | states |
|---|---|---|
| DateStandardiser.Standardise | NepalWeapTools/util.py:25-33 | Succeeds exactly when the ISO grammar or the `DD/Mon/YYYY` grammar accepts the string. The result is always ten characters: dashes at positions 4 and 7, digits elsewhere. A failure carries the input (the ValueError). |
| DateStandardiser.ParseIsoDate | NepalWeapTools/util.py:29 | Accepts exactly a digit/dash `YYYY-MM-DD` prefix naming a real calendar day, followed by nothing or by a valid `(T| )HH:MM[:SS]` time. The date it returns is valid. |
| DateStandardiser.ParseDayMonYear | NepalWeapTools/util.py:31 | Anything it returns is a valid calendar date. It accepts only the 10- or 11-character `D/Mon/YYYY` and `DD/Mon/YYYY` shapes. The date returned has the year read from the last four digits, the month named by the three letters, and the day read from the `%d` field. |
| DateStandardiser.MonthOfToken | NepalWeapTools/util.py:31 | A month token names month `m` iff its lower-cased form is the m-th abbreviation `jan`..`dec`. Otherwise it matches none of them. |
| DateStandardiser.DayOfToken | NepalWeapTools/util.py:31 | A `%d` token reads as a day in 1..31 and is one or two characters long. The day is the decimal value of its digits, after a leading space if there is one. |
| DateStandardiser.FormatDate | NepalWeapTools/util.py:33 | `strftime('%Y-%m-%d')` of a valid date is in canonical `YYYY-MM-DD` shape. |
| DateStandardiser.GrammarsDisjoint | NepalWeapTools/util.py:28-31 | No string is accepted by both grammars, so trying ISO first never hides a `DD/Mon/YYYY` reading. |
| DateStandardiser.FormatFields | NepalWeapTools/util.py:29-33 | The printed date has an ISO prefix whose fields are the date itself. |
| DateStandardiser.IsoRoundTrip | NepalWeapTools/util.py:29-33 | Parsing a printed valid date gives the date back. |
| DateStandardiser.FieldsFormat | NepalWeapTools/util.py:29-33 | Printing the fields of an ISO-prefixed valid date reproduces its first ten characters, leading zeros included. |
| DateStandardiser.CanonicalUnchanged | NepalWeapTools/util.py:28-33 | A valid `YYYY-MM-DD` date is returned unchanged. |
| DateStandardiser.CanonicalShapeFixed | NepalWeapTools/util.py:28-33 | A canonically shaped string is returned unchanged exactly when it names a real day, and is rejected otherwise. |
| DateStandardiser.Idempotent | NepalWeapTools/util.py:25-33 | Standardising an output again gives the same output. |
| DateStandardiser.TimeDiscarded | NepalWeapTools/util.py:29-33 | An ISO date followed by a valid time of day succeeds iff the bare date does, with the same result. |
| DateStandardiser.IsoDateWithTime | NepalWeapTools/util.py:29-33 | A printed date with a time appended standardises to the printed date. |
| DateStandardiser.DayMonYearMapped | NepalWeapTools/util.py:28-33 | `DD/Mon/YYYY` with the month spelled `Jan`..`Dec` maps to the `YYYY-MM-DD` of the same day. |
| DateStandardiser.DayMonYearSpellings | NepalWeapTools/util.py:28-33 | Any accepted day token (`5`, `05`, ` 5`) and any accepted spelling of the month, in any letter case, with a four-digit year, map to the `YYYY-MM-DD` of the date they name. |
| DateStandardiser.DayMonYearParses | NepalWeapTools/util.py:31 | The `DD/Mon/YYYY` spelling of any valid date parses back to that date. |
| DateStandardiser.IsoRejected | NepalWeapTools/util.py:28-31 | A ten-character ISO date naming a non-existent day raises: the fallback grammar cannot accept it. |
| DateStandardiser.RejectsThirtyFirstOfAprilIso | NepalWeapTools/util.py:28-31 | `2021-04-31` raises. |
| DateStandardiser.RejectsLeapDayOfCommonYearIso | NepalWeapTools/util.py:28-31 | `2019-02-29` raises. |
| DateStandardiser.RejectsMonthThirteen | NepalWeapTools/util.py:28-31 | `2020-13-01` raises. |
| DateStandardiser.RejectsThirtyFirstOfApril | NepalWeapTools/util.py:28-31 | `31/Apr/2020` raises. |
| DateStandardiser.RejectsLeapDayOfCommonYear | NepalWeapTools/util.py:28-31 | `29/Feb/2019` raises. |
| DateStandardiser.RejectsForeignStrings | NepalWeapTools/util.py:28-31 | `05/Foo/2020` and `hello` raise. |
| DateStandardiser.FormatExample | NepalWeapTools/util.py:33 | 5 March 2020 prints as `2020-03-05`. |
| DateStandardiser.AcceptsLeapDay | NepalWeapTools/util.py:28-33 | `2020-02-29` is returned unchanged. |
| DateStandardiser.AcceptsFifthOfJanuary | NepalWeapTools/util.py:28-33 | `2020-01-05` is returned unchanged. |
| DateStandardiser.AcceptsTimestamp | NepalWeapTools/util.py:29-33 | `2020-01-05 00:00:00`, the `str()` of a parsed Excel date, maps to `2020-01-05`. |
| DateStandardiser.AcceptsDayMonYear | NepalWeapTools/util.py:28-33 | `05/Mar/2020` maps to `2020-03-05`. |
| DateStandardiser.AcceptsSpacePaddedDay | NepalWeapTools/util.py:28-33 | ` 5/Jan/2020`, with a space before the one-digit day, maps to `2020-01-05`. |
| DateStandardiser.AcceptsShortLowerCaseDay | NepalWeapTools/util.py:28-33 | `5/mar/2020` maps to `2020-03-05`: one-digit day, lower-case month. |
| Calendar.DaysInMonth | NepalWeapTools/util.py:29-31 | February has 29 days exactly in leap years and 28 otherwise. April, June, September and November have 30; the rest have 31. |
| Calendar.LeapYearExamples | NepalWeapTools/util.py:29-31 | The leap rule `datetime` applies: 2000, 2020 and 2024 are leap years; 1900, 2019 and 2100 are not. |
| Calendar.DaysBeforeMonth | NepalWeapTools/util.py:29-31 | The days before month m of a year lie between 28 and 31 per month, and the days before January and February are the same in every year. |
| Calendar.DaysBeforeMonthYears | NepalWeapTools/util.py:29-31 | Only February's length depends on the year: any two years have the same days before January and February, and from March on they differ by exactly their leap days. |
| Calendar.YearLength | NepalWeapTools/util.py:29-31 | The month lengths add up to 366 days exactly in leap years, and to 365 otherwise. |
| Digits.ValueOfPadded | NepalWeapTools/util.py:33 | Reading a zero-padded `%m`/`%d`/`%Y` field gives back the number written. |
| Digits.PaddedValueOf | NepalWeapTools/util.py:33 | Re-padding the value of a digit field to its width reproduces the field, leading zeros included. |
| MeasVar.Matches | NepalWeapTools/dataprep.py:83 | Every row the join attaches to a key is a right row labelled with that key. There is at least one iff the key is a right label. |
| MeasVar.MatchesUnique | NepalWeapTools/dataprep.py:83 | With distinct right labels, a label matches exactly its own row. |
| MeasVar.Lookup | NepalWeapTools/dataprep.py:83 | The row attached to a key is a row labelled with it, or all NaN when the key is absent. |
| MeasVar.LookupAt | NepalWeapTools/dataprep.py:83 | With distinct labels, looking up a frame's own label returns that label's row. |
| MeasVar.JoinRow | NepalWeapTools/dataprep.py:83 | One left row becomes at least one output row. Every output row keeps the left label and has the width of both column lists. |
| MeasVar.JoinRowUnique | NepalWeapTools/dataprep.py:83 | With distinct right labels, a left row becomes exactly one row: itself extended by the looked-up right row. |
| MeasVar.MergeLeft | NepalWeapTools/dataprep.py:83 | The left merge is well formed and never has fewer rows than the left frame. Its columns are the left ones followed by the right ones; a name both sides have is suffixed `_x` on the left and `_y` on the right. |
| MeasVar.Suffixed | NepalWeapTools/dataprep.py:196 | A name the other side of the merge lacks is kept. A name it has gets the side's suffix. |
| MeasVar.DisjointColumns | NepalWeapTools/dataprep.py:196 | Without a shared name, the merged columns are the left ones followed by the right ones. |
| MeasVar.SharedColumnSuffixed | NepalWeapTools/dataprep.py:196 | Merging a column `A` with a column `A` gives `A_x` and `A_y`. |
| MeasVar.MergeLeftUnique | NepalWeapTools/dataprep.py:83 | With distinct right labels, the merge keeps the left index. Row i is left row i followed by the right row for its label, or NaN. |
| MeasVar.DateFrame | NepalWeapTools/dataprep.py:82 | `pd.DataFrame(index=dates)` has no columns and is indexed by exactly the dates. |
| MeasVar.LeftJoin | NepalWeapTools/dataprep.py:82-83 | Joining onto the dates keeps the frame's columns and gives at least one row per date. |
| MeasVar.LeftJoinOneRowPerDate | NepalWeapTools/dataprep.py:82-83 | With unique source dates: one row per calibration date, in order, holding that date's readings, or NaN when the source lacks the date. |
| MeasVar.LeftJoinIdempotent | NepalWeapTools/dataprep.py:82-83 | Joining onto the same distinct dates twice equals joining once. |
| MeasVar.NewMeasVar | NepalWeapTools/dataprep.py:75-83 | The constructor stores its arguments and keeps the frame's columns. With unique source dates, the data is indexed by the calibration dates and each row is that date's readings. |
| MeasVar.WithUnit | NepalWeapTools/dataprep.py:92-93 | A name is unchanged when the unit is `Unspecified`. Otherwise it is the name followed by ` [unit]`. |
| MeasVar.WeapColumnNames | NepalWeapTools/dataprep.py:91-93 | The export columns are `$Columns = Date` and then the frame's columns in order, each passed through the unit rule. |
| MeasVar.ToWeapData | NepalWeapTools/dataprep.py:91-103 | Three header rows as wide as the export columns. The first two start with `$ListSeparator = ,` and `$DecimalSymbol = .` and are otherwise blank. The third holds the names. Dates and readings pass through unchanged. |
| MeasVar.UnspecifiedKeepsNames | NepalWeapTools/dataprep.py:91-93 | Without a unit, the name row is `$Columns = Date` followed by the frame's own column names. |
| MeasVar.UnitSuffixStrips | NepalWeapTools/dataprep.py:92-93 | With a unit, the date column still starts with `$Columns = Date`, and every station name is its original name followed by exactly ` [unit]`. |
| MeasVar.StreamflowHeaderExample | NepalWeapTools/dataprep.py:91-103 | A two-station `m3/s` export has the header rows `$ListSeparator = ,`/blank/blank, `$DecimalSymbol = .`/blank/blank and `$Columns = Date [m3/s]`, `A [m3/s]`, `B [m3/s]`. |
| StationMerge.MergeStationColumn | NepalWeapTools/dataprep.py:196 | Merging a one-column station frame with distinct dates keeps the date index and existing cells. It appends the station's reading for each date. |
| StationMerge.JoinOntoOwnDates | NepalWeapTools/dataprep.py:199-206 | The constructor's join of the merged station frame onto the same distinct dates leaves every row as it is. |
| StationMerge.MergeAll | NepalWeapTools/dataprep.py:185-196 | Merging station frames in order adds one column per station frame. While no name repeats, the columns are the base columns followed by the frames' names, in list order. |
| StationMerge.RepeatedStationSuffixed | NepalWeapTools/dataprep.py:185-196 | A station listed twice gives the columns `A_x` and `A_y`, not two columns named `A`. |
| StationMerge.AppendReadings | NepalWeapTools/dataprep.py:196 | If column j holds frame j's readings, merging the next frame keeps them and adds its readings as the last column. |
| StationMerge.ReadingsStep | NepalWeapTools/dataprep.py:185-196 | One more iteration of the station loop preserves: "column j holds frame j's reading for each date". |
| StationMerge.MergeAllReadings | NepalWeapTools/dataprep.py:185-196 | After the loop, with distinct dates per station, row i is calibration date i and column j is station j's reading for it, or NaN. |
| Loaders.Collect | NepalWeapTools/dataprep.py:190 | Applying the standardiser cell by cell succeeds iff every cell succeeds. Otherwise the first failing cell is reported. |
| Loaders.StandardiseDates | NepalWeapTools/dataprep.py:190 | `.apply(util.date_standardiser)` gives each cell's standardised date, or raises on the first cell that does not parse. |
| Loaders.CountMissing | NepalWeapTools/dataprep.py:189-193 | The skipped-row count is at most the row count, and is zero iff every row has a date. |
| Loaders.DropMissingDates | NepalWeapTools/dataprep.py:191 | `dropna` keeps exactly the rows that have a date, in their original order: the k-th kept row and date are those at the k-th dated position. |
| Loaders.DatedPositions | NepalWeapTools/dataprep.py:191 | The dated positions are exactly the rows that have a date, in ascending order, one per such row. |
| Loaders.DropKeepsPresentRows | NepalWeapTools/dataprep.py:191 | When every row has a date, `dropna` keeps every row and its date, in order. |
| Loaders.LoadSheet | NepalWeapTools/dataprep.py:272-279 | A sheet loads iff every date cell parses, and otherwise raises for the first bad cell. On success, columns and rows are unchanged, the index is the standardised dates (distinct when they standardise distinctly), and no rows are skipped. |
| Loaders.LoadedDatesCanonical | NepalWeapTools/dataprep.py:275 | Loaded with the workbook's standardiser, every index entry is a canonical `YYYY-MM-DD` date. |
| Loaders.KeptPositions | NepalWeapTools/dataprep.py:282 | The kept column positions are exactly those whose name is a requested station, in ascending order. |
| Loaders.SelectStations | NepalWeapTools/dataprep.py:282 | `columns.isin(stations)` keeps the index. Every kept column is a requested station and every requested column is kept, in sheet order, with its cells. |
| Loaders.KeepAllPositions | NepalWeapTools/dataprep.py:282 | When every column is requested, every position is kept. |
| Loaders.SelectAllKeepsFrame | NepalWeapTools/dataprep.py:282 | A frame whose columns are all requested passes through unchanged. |
| Loaders.SelectIdempotent | NepalWeapTools/dataprep.py:282 | Filtering by the station list twice equals filtering once. |
| Loaders.MeteoMeasure | NepalWeapTools/dataprep.py:269-292 | One meteorological measurement loads iff its date cells parse, and otherwise raises for the first bad one. It has no unit and skips no rows. Its columns are the requested stations present in the sheet, in sheet order. With distinct standardised dates, it is indexed by the calibration dates, and cell (i, k) is the k-th kept station's reading for calibration date i, or NaN. |
| Loaders.SelectedLookup | NepalWeapTools/dataprep.py:282-290 | Narrowing to the stations commutes with the join's lookup: the narrowed row of a date holds, at each kept position, what the whole row holds there. |
| Loaders.SelectedJoin | NepalWeapTools/dataprep.py:282-290 | A frame with distinct dates, narrowed and then joined onto the calibration dates, holds each kept column's reading for each calibration date. |
| Loaders.Standardised | NepalWeapTools/dataprep.py:190 | The standardised column has one entry per cell: that cell's standardised date. |
| Loaders.DistinctDates | NepalWeapTools/dataprep.py:190-194 | Cells that standardise to distinct results give an index without duplicates. |
| Loaders.HydroError | NepalWeapTools/dataprep.py:189-195 | A failing station sheet raises for its first bad date. If all its dates parse, it raises the length mismatch of renaming its columns to `[station]`. |
| Loaders.StationFrame | NepalWeapTools/dataprep.py:189-195 | A station sheet loads into a frame with the single column `station`, its rows, and its standardised dates as index. |
| Loaders.LoadSheetOfStation | NepalWeapTools/dataprep.py:189-195 | The shared load step fails on a station sheet only with that sheet's error. On a good sheet it gives the station frame before the rename, with nothing skipped. |
| Loaders.StationFrames | NepalWeapTools/dataprep.py:185-195 | The loaded station frames are one per sheet, in list order, each with one column. |
| Loaders.SplitLastStation | NepalWeapTools/dataprep.py:185-195 | The loop's facts about all sheets are the facts about all but the last sheet, plus those about the last. |
| Loaders.LoadStation | NepalWeapTools/dataprep.py:189-195 | One station sheet loads iff its dates parse and it has one data column; it then gives the station frame, renamed after the station, with nothing skipped. Otherwise it raises the first bad date, or else the length mismatch of the rename. |
| Loaders.LoadStations | NepalWeapTools/dataprep.py:185-195 | The station loop succeeds iff every sheet loads and has one data column, giving the station frames in order with nothing skipped. Otherwise it raises the first failing sheet's error. |
| Loaders.MergeStations | NepalWeapTools/dataprep.py:178-196 | The merge loop starting from `pd.DataFrame(index=date_range)` computes the frames merged in list order. |
| Loaders.StationColumns | NepalWeapTools/dataprep.py:195-196 | The merged frame has one column per station. When no station is listed twice, each column is named after its station, in list order. |
| Loaders.StationReadings | NepalWeapTools/dataprep.py:185-196 | With distinct dates in every sheet, row i of the merged frame is calibration date i, and column k is station k's reading for it, or NaN. |
| Loaders.HydroMeasure | NepalWeapTools/dataprep.py:181-209 | One hydrological measurement succeeds iff every station sheet is good, and otherwise raises the first failure. On success: given measure, dates and unit; one column per station, named after it in list order when no station is listed twice; zero skipped rows. With distinct calibration dates and distinct standardised dates in every sheet, row i is calibration date i, and cell (i, k) is station k's reading for it, or NaN. |
| Lulc.ClassOfCode | NepalWeapTools/dataprep.py:338-351 | Raster values 1 to 11 and 15 name an ICIMOD class whose code is that value. No other value names one. |
| Lulc.CodeRoundTrip | NepalWeapTools/dataprep.py:338-351 | Every class is found again under its own raster value. |
| Lulc.ThirtyMetrePixel | NepalWeapTools/dataprep.py:354-356 | A 30 m pixel covers 0.09 ha. |
| Lulc.ScalePointwise | NepalWeapTools/dataprep.py:396-397 | Scaling the table multiplies every class column by the same factor. |
| Lulc.ScaleClass | NepalWeapTools/dataprep.py:396-397 | For each single class, its scaled area is its count times the factor. |
| Lulc.HectaresPerClass | NepalWeapTools/dataprep.py:396-397 | Every class area in hectares is its pixel count times `raster_res² / 10000`. |
| Lulc.AggregateConserves | NepalWeapTools/dataprep.py:400-410 | The five land uses hold all the area except glacier, snow and unclassified. |
| Lulc.AggregateIgnoresIceAndUnclassified | NepalWeapTools/dataprep.py:400-410 | Glacier, snow and unclassified areas reach none of the five land uses. |
| Lulc.AggregateRoutesEachClass | NepalWeapTools/dataprep.py:400-410 | Each remaining class feeds exactly one land use. Forest and other wooded land feed Forest; grassland, bare soil and bare rock feed Grassland; waterbody and riverbed feed Waterbody; cropland feeds Agriculture; built-up feeds Urban. |
| Lulc.ScaledForest | NepalWeapTools/dataprep.py:400 | Forest [ha] of the scaled table is (Forest + Other wooded land) times the factor. |
| Lulc.ScaledGrassland | NepalWeapTools/dataprep.py:401 | Grassland [ha] of the scaled table is (Grassland + Bare soil + Bare rock) times the factor. |
| Lulc.ScaledWaterbody | NepalWeapTools/dataprep.py:402 | Waterbody [ha] of the scaled table is (Waterbody + Riverbed) times the factor. |
| Lulc.AggregateScaled | NepalWeapTools/dataprep.py:396-410 | The five output columns of a scaled table, in WEAP order, are each grouped class sum times the factor. |
| Lulc.AreasFromPixels | NepalWeapTools/dataprep.py:396-410 | The five areas in hectares come straight from the pixel counts and the pixel area. |
| Lulc.Years | NepalWeapTools/dataprep.py:412 | `range(start_year, end_year)`: `end_year − start_year` years (none if not positive), from start_year upward, with the end year excluded. |
| Lulc.DefaultWindow | NepalWeapTools/dataprep.py:379-412 | The default window 2000 to 2021 gives 21 years, 2000 through 2020, without 2021. |
| Lulc.CatchmentSheet | NepalWeapTools/dataprep.py:430-446 | Four header lines six cells wide: `# Catchment name`, the list-separator line, the decimal-symbol line (each otherwise blank) and the column names. Then one row per year, every row holding the same five areas. |
| Lulc.LulcToWeap | NepalWeapTools/dataprep.py:393-446 | One sheet per subcatchment, in table order, with one row per modelled year. Row i is year `start_year + i`, and holds the five grouped pixel counts of its subcatchment times the pixel area. |
| Lulc.SheetAreasFromPixels | NepalWeapTools/dataprep.py:393-446 | End to end, row i of a subcatchment's sheet is year `start_year + i`. It holds the five grouped pixel counts times the pixel area. |
| UrbanDemand.PlumbingProportions | NepalWeapTools/dataprep.py:533-540 | Percentages outside [0, 100] raise ValueError. Otherwise the plumbed proportion is perc/100, and the two proportions lie in [0, 1] and sum to 1. |
| UrbanDemand.PlumbingBoundsAccepted | NepalWeapTools/dataprep.py:533-534 | 0 and 100 are accepted, giving all-unplumbed and all-plumbed splits. |
| UrbanDemand.PopulationSplitConserved | NepalWeapTools/dataprep.py:539-558 | Plumbed plus unplumbed people equal households times average household size. |
| UrbanDemand.DomesticIgnoresTotalPopulation | NepalWeapTools/dataprep.py:553-574 | Domestic demand does not depend on `Total population`. |
| UrbanDemand.DomesticDemandBetweenRates | NepalWeapTools/dataprep.py:556-563 | For non-negative households and household size, and an unplumbed rate no higher than the plumbed one: domestic demand lies between the household population priced wholly at the lower rate and wholly at the higher rate. |
| UrbanDemand.DomesticDemandAtBounds | NepalWeapTools/dataprep.py:539-563 | At 100% and 0% plumbing, everyone is priced at the plumbed or the unplumbed rate respectively. |
| UrbanDemand.DomesticDemandExample | NepalWeapTools/dataprep.py:556-563 | 100 households of 4 at 80% with the default rates: 320 plumbed and 80 unplumbed people, 39.44 m3/day. |
| UrbanDemand.TotalDomesticIsBlendedRate | NepalWeapTools/dataprep.py:556-563 | Summed over wards, domestic demand is the total household population priced at the blended per-person rate. |
| UrbanDemand.TotalInstitutionalIsStudentRate | NepalWeapTools/dataprep.py:580 | Summed over wards, institutional demand is all attending students times the per-student rate. |
| UrbanDemand.DomesticByWard | NepalWeapTools/dataprep.py:553-574 | The `Ward`-indexed domestic column has exactly the population wards as keys, each mapped to its ward's domestic demand. |
| UrbanDemand.InstitutionalByWard | NepalWeapTools/dataprep.py:578-581 | The `Ward`-indexed institutional column has exactly the student wards as keys, each mapped to attending students times the rate. |
| UrbanDemand.OuterMerge | NepalWeapTools/dataprep.py:582 | The outer merge has the union of the wards as keys. A column is present for a ward iff its table has the ward, and then holds that table's value. |
| UrbanDemand.StandardiseSetting | NepalWeapTools/dataprep.py:537-538 | A modelling date is standardised iff the date standardiser accepts it, giving a canonical date. Otherwise it raises for that text. |
| UrbanDemand.BuildUrbanDemand | NepalWeapTools/dataprep.py:533-582 | Success iff all three settings are acceptable. Failures come in source order: a bad percentage first, then a bad start date, then a bad end date. On success it holds the split and both standardised dates. The demand table's wards are the union of both workbooks' wards, holding each ward's domestic and institutional demand. |

## Left out

- The time locale: `%b` is read as the English month abbreviations of the C locale, which
  Python uses unless the program sets `LC_TIME`; other locales are not modelled.
- File, Excel, shapefile and raster reading, path construction, CSV writing and `print`.
  These are I/O. A worksheet is a `Loaders.RawSheet` of date-cell texts and readings; an
  export is the table the CSV writer would receive.
- `pd.date_range` (dataprep.py:169-170, 251-252): library behaviour. The calibration dates
  are an input sequence of strings.
- `util.compare_sheet_names`, `get_raster_deets`, `get_zonal_stats`, `get_osm_locations`
  and `rescale_to_census`. Their code is not in `util.py`. The zonal statistics enter
  `Lulc.LulcToWeap` as a table of pixel counts per class.
- The commercial-demand step of `UrbDemData.__init__` (dataprep.py:584-611): it only calls
  the helpers above. The CRS checks, reprojection and `total_bounds` are thin geopandas
  wrappers.
- `HydroData` loop details around I/O:
  - `current_index` is reset inside the loop, so every measurement gets `units[0]`;
  - `base_var_df` is shared across measurements.
  `Loaders.HydroMeasure` models one measurement with its unit as a parameter.
- `Loaders.HydroMeasure` loads every station sheet, then merges. The source reads and merges
  one station at a time. An exception discards the partial frame either way, so the result
  and the error raised are the same.
- Loaders.HydroMeasure: the column names are promised only when no station is listed twice.
  The merge at dataprep.py:196 suffixes a repeated station `_x`/`_y`, and the model does the
  same (`StationMerge.RepeatedStationSuffixed`). When the suffixing would itself create a
  duplicate name, as for a station listed four times, pandas warns or raises `MergeError`,
  depending on its version. The model does not raise and keeps the duplicate name.
- UrbanDemand.InstitutionalByWard: every student-workbook column except `Currently attending`
  is carried through the outer merge into the demand table (dataprep.py:581-582). The model
  keeps only the computed institutional demand, because those columns are copied unchanged
  and take no part in any computation.
- `__str__` of every class (`MeteoData.__str__` is nested inside `__init__` and never becomes
  a method), and `outputvis.py`, whose function has no body.
- Floating point: demand and areas are exact `real`s, with no rounding.
- Pandas' NaN arithmetic in the outer merge: a missing column is `None`, not NaN.
- Pandas row-order details:
  - the outer merge's ward order (its result is a map);
  - the order of rows the left join produces for duplicate right labels, beyond "one row per
    match" (`MeasVar.MergeLeft`).
- Duplicate ward numbers in the population or student workbooks. `UrbanDemand.DomesticByWard`,
  `UrbanDemand.InstitutionalByWard` and `UrbanDemand.BuildUrbanDemand` require distinct
  wards, because pandas would multiply rows in the outer merge.
- DateStandardiser.Standardise: only part of `fromisoformat` is covered.
  - Forms outside `YYYY-MM-DD[(T| )HH:MM[:SS]]` are not in the model: fractional seconds,
    UTC offsets, week dates, the basic format without dashes.
  - Digits are ASCII only, whereas `strptime` also accepts other Unicode decimal digits.
- DateStandardiser.Standardise: a Timestamp cell that is not an ISO string raises a
  TypeError in `strptime`, not a ValueError. Both are the single error `Unparseable`.
- DateStandardiser.FormatDate: years below 1000 are written with four digits. The C
  library's `%Y` on some platforms writes them unpadded. The output contract (always ten
  characters) therefore holds as stated for years 1000 to 9999 on every platform.
