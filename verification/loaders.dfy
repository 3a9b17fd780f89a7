/** Loading of station worksheets into measured variables: every `Date` cell goes through
    the date standardiser, rows without a date are dropped and counted, and the remaining
    rows are indexed by date. Meteorological sheets hold one column per station and are
    narrowed to the stations asked for; hydrological workbooks hold one sheet per station,
    whose single data column is renamed after the station and merged onto the dates. */
module Loaders {
  import opened Wrappers
  import DateStandardiser
  import opened MeasVar
  import opened StationMerge

  /** A worksheet as read: the text of each `Date` cell, and the other columns. */
  datatype RawSheet = RawSheet(dates: seq<string>, columns: seq<string>, rows: seq<seq<Cell>>)

  predicate RawWellFormed(s: RawSheet) {
    |s.dates| == |s.rows| && forall i | 0 <= i < |s.rows| :: |s.rows[i]| == |s.columns|
  }

  /** The exceptions that abort a load. */
  datatype LoadError =
    | BadDate(text: string)
    | ColumnCountMismatch(station: string, found: nat)

  /** The date standardiser the loaders apply to every `Date` cell; the workbook loaders
      use `DateStandardiser.Standardise`. */
  type Standardiser = string -> Result<string, DateStandardiser.DateError>

  predicate Parses(std: Standardiser, text: string) {
    std(text).Success?
  }

  /** What the standardiser makes of each cell. */
  function Outcomes(std: Standardiser, dates: seq<string>): (r: seq<Result<string, DateStandardiser.DateError>>)
    ensures |r| == |dates|
    ensures forall i | 0 <= i < |dates| :: r[i] == std(dates[i])
  {
    seq(|dates|, i requires 0 <= i < |dates| => std(dates[i]))
  }

  /** Distinct cells standardise to distinct dates. */
  predicate StandardisedDistinct(std: Standardiser, dates: seq<string>) {
    var outcomes := Outcomes(std, dates);
    forall i, j | 0 <= i < j < |outcomes| :: outcomes[i] != outcomes[j]
  }

  /** Gathers per-cell outcomes: the dates if every cell parsed, else the first cell that
      did not. */
  function Collect(raw: seq<string>, outcomes: seq<Result<string, DateStandardiser.DateError>>)
    : (r: Result<seq<string>, LoadError>)
    requires |raw| == |outcomes|
    ensures r.Success? <==> forall i | 0 <= i < |raw| :: outcomes[i].Success?
    ensures r.Success? ==> |r.value| == |raw|
    ensures r.Success? ==> forall i | 0 <= i < |raw| :: r.value[i] == outcomes[i].value
    ensures r.Failure? ==>
      exists i | 0 <= i < |raw| ::
        && outcomes[i].Failure? && r.error == BadDate(raw[i])
        && forall j | 0 <= j < i :: outcomes[j].Success?
    decreases |raw|
  {
    if |raw| == 0 then Success([])
    else if outcomes[0].Failure? then Failure(BadDate(raw[0]))
    else
      var rest := Collect(raw[1..], outcomes[1..]);
      assert forall i | 1 <= i < |raw| :: raw[1..][i - 1] == raw[i] && outcomes[1..][i - 1] == outcomes[i];
      if rest.Failure? then
        assert exists i | 0 <= i < |raw| ::
          && outcomes[i].Failure? && rest.error == BadDate(raw[i])
          && forall j | 0 <= j < i :: outcomes[j].Success? by {
          var i :| 0 <= i < |raw| - 1 && outcomes[1..][i].Failure? && rest.error == BadDate(raw[1..][i])
            && forall j | 0 <= j < i :: outcomes[1..][j].Success?;
          assert outcomes[i + 1].Failure? && rest.error == BadDate(raw[i + 1]);
        }
        Failure(rest.error)
      else
        Success([outcomes[0].value] + rest.value)
  }

  /** `this_df['Date'].apply(util.date_standardiser)`: the first cell that does not parse
      raises and ends the load. */
  function StandardiseDates(std: Standardiser, raw: seq<string>): (r: Result<seq<string>, LoadError>)
    ensures r.Success? <==> forall i | 0 <= i < |raw| :: Parses(std, raw[i])
    ensures r.Success? ==> |r.value| == |raw|
    ensures r.Success? ==>
      forall i | 0 <= i < |raw| :: r.value[i] == std(raw[i]).value
    ensures r.Failure? ==>
      exists i | 0 <= i < |raw| ::
        && !Parses(std, raw[i]) && r.error == BadDate(raw[i])
        && forall j | 0 <= j < i :: Parses(std, raw[j])
  {
    Collect(raw, Outcomes(std, raw))
  }

  /** The number of rows without a date. */
  function CountMissing(dates: seq<Option<string>>): (n: nat)
    ensures n <= |dates|
    ensures n == 0 <==> forall i | 0 <= i < |dates| :: dates[i].Some?
    decreases |dates|
  {
    if |dates| == 0 then 0
    else
      var last := |dates| - 1;
      assert forall i | 0 <= i < last :: dates[..last][i] == dates[i];
      CountMissing(dates[..last]) + (if dates[last].None? then 1 else 0)
  }

  /** The positions of the rows that have a date, in ascending order. */
  function DatedPositions(dates: seq<Option<string>>): (p: seq<nat>)
    ensures |p| == |dates| - CountMissing(dates)
    ensures forall k | 0 <= k < |p| :: p[k] < |dates| && dates[p[k]].Some?
    ensures forall k, l | 0 <= k < l < |p| :: p[k] < p[l]
    ensures forall i | 0 <= i < |dates| && dates[i].Some? :: i in p
    decreases |dates|
  {
    if |dates| == 0 then []
    else
      var last := |dates| - 1;
      assert forall i | 0 <= i < last :: dates[..last][i] == dates[i];
      var init := DatedPositions(dates[..last]);
      if dates[last].Some? then init + [last] else init
  }

  /** `dropna(subset=['Date'])`: the rows that have a date, in order, with their dates. */
  function DropMissingDates(dates: seq<Option<string>>, rows: seq<seq<Cell>>): (r: (seq<string>, seq<seq<Cell>>))
    requires |dates| == |rows|
    ensures |r.0| == |r.1| == |dates| - CountMissing(dates)
    ensures var p := DatedPositions(dates);
      forall k | 0 <= k < |p| :: r.0[k] == dates[p[k]].value && r.1[k] == rows[p[k]]
    decreases |dates|
  {
    if |dates| == 0 then ([], [])
    else
      var last := |dates| - 1;
      assert forall i | 0 <= i < last :: dates[..last][i] == dates[i] && rows[..last][i] == rows[i];
      var init := DropMissingDates(dates[..last], rows[..last]);
      if dates[last].Some? then (init.0 + [dates[last].value], init.1 + [rows[last]]) else init
  }

  /** When every row has a date, every position is a dated one. */
  lemma {:induction false} AllDatedPositions(dates: seq<Option<string>>)
    requires forall i | 0 <= i < |dates| :: dates[i].Some?
    ensures |DatedPositions(dates)| == |dates|
    ensures forall k | 0 <= k < |dates| :: DatedPositions(dates)[k] == k
    decreases |dates|
  {
    if |dates| > 0 {
      var last := |dates| - 1;
      var init := dates[..last];
      forall i | 0 <= i < last ensures init[i].Some? {
        assert init[i] == dates[i];
      }
      AllDatedPositions(init);
    }
  }

  /** Rows whose dates are all present are kept, every one of them, in order. */
  lemma DropKeepsPresentRows(dates: seq<Option<string>>, rows: seq<seq<Cell>>)
    requires |dates| == |rows|
    requires forall i | 0 <= i < |dates| :: dates[i].Some?
    ensures DropMissingDates(dates, rows).1 == rows
    ensures forall i | 0 <= i < |dates| :: DropMissingDates(dates, rows).0[i] == dates[i].value
  {
    AllDatedPositions(dates);
  }

  /** Dropping the rows without a date from rows that all carry one keeps every row, in order. */
  function KeepDated(dates: seq<string>, rows: seq<seq<Cell>>): (kept: (seq<string>, seq<seq<Cell>>))
    requires |dates| == |rows|
    ensures kept.0 == dates && kept.1 == rows
  {
    var present := seq(|dates|, i requires 0 <= i < |dates| => Some(dates[i]));
    DropKeepsPresentRows(present, rows);
    DropMissingDates(present, rows)
  }

  /** A sheet after its dates are standardised and it is indexed by them. */
  datatype LoadedSheet = LoadedSheet(frame: Frame, skippedRows: nat)

  /** The shared load step: standardise the dates, drop the rows without one, count the rows
      dropped and index the frame by date. Because the standardiser raises rather than
      returning a missing date, no row is ever dropped by a load that succeeds. */
  function LoadSheet(std: Standardiser, sheet: RawSheet): (r: Result<LoadedSheet, LoadError>)
    requires RawWellFormed(sheet)
    ensures r.Success? <==> forall i | 0 <= i < |sheet.dates| :: Parses(std, sheet.dates[i])
    ensures r.Failure? ==>
      exists i | 0 <= i < |sheet.dates| ::
        && !Parses(std, sheet.dates[i]) && r.error == BadDate(sheet.dates[i])
        && forall j | 0 <= j < i :: Parses(std, sheet.dates[j])
    ensures r.Success? ==> WellFormed(r.value.frame)
    ensures r.Success? ==> r.value.frame.columns == sheet.columns && r.value.frame.rows == sheet.rows
    ensures r.Success? ==> |r.value.frame.index| == |sheet.dates|
    ensures r.Success? ==> forall i | 0 <= i < |sheet.dates| ::
      r.value.frame.index[i] == std(sheet.dates[i]).value
    ensures r.Success? && StandardisedDistinct(std, sheet.dates) ==> NoDuplicates(r.value.frame.index)
    ensures r.Success? ==> r.value.skippedRows == 0
  {
    var dates :- StandardiseDates(std, sheet.dates);
    var kept := KeepDated(dates, sheet.rows);
    Success(LoadedSheet(Frame(sheet.columns, kept.0, kept.1), |sheet.rows| - |kept.1|))
  }

  /** Loaded with the workbook's standardiser, every date of the index is a canonical
      `YYYY-MM-DD` date. */
  lemma LoadedDatesCanonical(sheet: RawSheet)
    requires RawWellFormed(sheet)
    ensures var r := LoadSheet(DateStandardiser.Standardise, sheet);
      r.Success? ==> forall i | 0 <= i < |r.value.frame.index| :: DateStandardiser.IsCanonical(r.value.frame.index[i])
  {
    var r := LoadSheet(DateStandardiser.Standardise, sheet);
    if r.Success? {
      forall i | 0 <= i < |r.value.frame.index| ensures DateStandardiser.IsCanonical(r.value.frame.index[i]) {
        assert Parses(DateStandardiser.Standardise, sheet.dates[i]);
      }
    }
  }

  /** The positions of the columns named in `stations`, in ascending order. */
  function KeptPositions(columns: seq<string>, stations: seq<string>): (p: seq<nat>)
    ensures forall k | 0 <= k < |p| :: p[k] < |columns| && columns[p[k]] in stations
    ensures forall k, l | 0 <= k < l < |p| :: p[k] < p[l]
    ensures forall j | 0 <= j < |columns| && columns[j] in stations :: j in p
    decreases |columns|
  {
    if |columns| == 0 then []
    else
      var last := |columns| - 1;
      var init := KeptPositions(columns[..last], stations);
      if columns[last] in stations then init + [last] else init
  }

  /** The entries of `s` at positions `p`, in the order of `p`. */
  function Pick<T>(s: seq<T>, p: seq<nat>): (r: seq<T>)
    requires forall k | 0 <= k < |p| :: p[k] < |s|
    ensures |r| == |p| && forall k | 0 <= k < |p| :: r[k] == s[p[k]]
  {
    seq(|p|, k requires 0 <= k < |p| => s[p[k]])
  }

  /** `this_df.loc[:, this_df.columns.isin(stations)]`. */
  function SelectStations(f: Frame, stations: seq<string>): (r: Frame)
    requires WellFormed(f)
    ensures WellFormed(r) && r.index == f.index
    ensures forall c | c in r.columns :: c in stations
    ensures forall j | 0 <= j < |f.columns| && f.columns[j] in stations :: f.columns[j] in r.columns
    ensures var p := KeptPositions(f.columns, stations);
      && |r.columns| == |p|
      && (forall k | 0 <= k < |p| :: r.columns[k] == f.columns[p[k]])
      && forall i, k | 0 <= i < |f.rows| && 0 <= k < |p| :: r.rows[i][k] == f.rows[i][p[k]]
  {
    var p := KeptPositions(f.columns, stations);
    var names := Pick(f.columns, p);
    assert forall j | 0 <= j < |f.columns| && f.columns[j] in stations :: f.columns[j] in names by {
      forall j | 0 <= j < |f.columns| && f.columns[j] in stations ensures f.columns[j] in names {
        var k :| 0 <= k < |p| && p[k] == j;
        assert names[k] == f.columns[j];
      }
    }
    Frame(names, f.index, seq(|f.rows|, i requires 0 <= i < |f.rows| => Pick(f.rows[i], p)))
  }

  /** When every column is wanted, every position is kept. */
  lemma {:induction false} KeepAllPositions(columns: seq<string>, stations: seq<string>)
    requires forall c | c in columns :: c in stations
    ensures |KeptPositions(columns, stations)| == |columns|
    ensures forall k | 0 <= k < |columns| :: KeptPositions(columns, stations)[k] == k
    decreases |columns|
  {
    if |columns| > 0 {
      var last := |columns| - 1;
      var init := columns[..last];
      forall c | c in init ensures c in stations {
        assert c in columns;
      }
      KeepAllPositions(init, stations);
      assert columns[last] in columns;
      assert KeptPositions(columns, stations) == KeptPositions(init, stations) + [last];
    }
  }

  /** A frame whose columns are all wanted passes through the selection unchanged, so the
      selection is idempotent. */
  lemma SelectAllKeepsFrame(f: Frame, stations: seq<string>)
    requires WellFormed(f)
    requires forall c | c in f.columns :: c in stations
    ensures SelectStations(f, stations) == f
  {
    KeepAllPositions(f.columns, stations);
    var p := KeptPositions(f.columns, stations);
    var r := SelectStations(f, stations);
    forall k | 0 <= k < |f.columns| ensures r.columns[k] == f.columns[k] {
      assert p[k] == k;
    }
    forall i | 0 <= i < |f.rows| ensures r.rows[i] == f.rows[i] {
      forall k | 0 <= k < |f.columns| ensures r.rows[i][k] == f.rows[i][k] {
        assert p[k] == k;
      }
    }
    assert r.columns == f.columns && r.rows == f.rows;
  }

  lemma SelectIdempotent(f: Frame, stations: seq<string>)
    requires WellFormed(f)
    ensures SelectStations(SelectStations(f, stations), stations) == SelectStations(f, stations)
  {
    SelectAllKeepsFrame(SelectStations(f, stations), stations);
  }

  /** A worksheet whose dates all parse, indexed by its standardised dates. */
  function DatedSheet(std: Standardiser, sheet: RawSheet): (f: Frame)
    requires RawWellFormed(sheet) && DatesParse(std, sheet.dates)
    ensures WellFormed(f)
  {
    Frame(sheet.columns, Standardised(std, sheet.dates), sheet.rows)
  }

  /** Narrowing to the stations commutes with the join's lookup: the narrowed row of a date
      holds, at each kept position, what the whole row holds there. */
  lemma SelectedLookup(f: Frame, stations: seq<string>, key: string)
    requires WellFormed(f) && NoDuplicates(f.index)
    ensures var p := KeptPositions(f.columns, stations);
      forall k | 0 <= k < |p| :: Lookup(SelectStations(f, stations), key)[k] == Lookup(f, key)[p[k]]
  {
    var g := SelectStations(f, stations);
    if key in f.index {
      var i :| 0 <= i < |f.index| && f.index[i] == key;
      LookupAt(f, i);
      LookupAt(g, i);
    }
  }

  /** One `MeteoData` measurement: its worksheet loaded, narrowed to the stations asked for,
      and joined onto the calibration dates, with no unit. */
  function MeteoMeasure(std: Standardiser, measure: string, sheet: RawSheet, stations: seq<string>, dateRange: seq<string>)
    : (r: Result<MeasVarData, LoadError>)
    requires RawWellFormed(sheet)
    ensures r.Success? <==> DatesParse(std, sheet.dates)
    ensures r.Failure? ==>
      exists i | 0 <= i < |sheet.dates| ::
        && !Parses(std, sheet.dates[i]) && r.error == BadDate(sheet.dates[i])
        && forall j | 0 <= j < i :: Parses(std, sheet.dates[j])
    ensures r.Success? ==> r.value.measure == measure && r.value.dateRange == dateRange
    ensures r.Success? ==> r.value.unit == Unspecified && r.value.skippedRows == 0
    ensures r.Success? ==> WellFormed(r.value.baseData)
    ensures r.Success? ==> forall c | c in r.value.baseData.columns :: c in stations
    ensures r.Success? ==> forall j | 0 <= j < |sheet.columns| && sheet.columns[j] in stations ::
      sheet.columns[j] in r.value.baseData.columns
    ensures r.Success? ==>
      var p := KeptPositions(sheet.columns, stations);
      && |r.value.baseData.columns| == |p|
      && forall k | 0 <= k < |p| :: r.value.baseData.columns[k] == sheet.columns[p[k]]
    ensures r.Success? && StandardisedDistinct(std, sheet.dates) ==>
      var p := KeptPositions(sheet.columns, stations);
      && r.value.baseData.index == dateRange
      && forall i, k | 0 <= i < |dateRange| && 0 <= k < |p| ::
           r.value.baseData.rows[i][k] == Lookup(DatedSheet(std, sheet), dateRange[i])[p[k]]
  {
    var loaded :- LoadSheet(std, sheet);
    assert loaded.frame == DatedSheet(std, sheet);
    SelectedJoin(loaded.frame, stations, dateRange);
    Success(NewMeasVar(SelectStations(loaded.frame, stations), measure, dateRange, Unspecified, loaded.skippedRows))
  }

  /** A frame with distinct dates, narrowed to the stations and joined onto the calibration
      dates, holds each kept column's reading for each calibration date. */
  lemma SelectedJoin(f: Frame, stations: seq<string>, dateRange: seq<string>)
    requires WellFormed(f)
    ensures var p := KeptPositions(f.columns, stations);
      var j := LeftJoin(dateRange, SelectStations(f, stations));
      NoDuplicates(f.index) ==>
        && j.index == dateRange
        && forall i, k | 0 <= i < |dateRange| && 0 <= k < |p| :: j.rows[i][k] == Lookup(f, dateRange[i])[p[k]]
  {
    if NoDuplicates(f.index) {
      var g := SelectStations(f, stations);
      LeftJoinOneRowPerDate(dateRange, g);
      forall i | 0 <= i < |dateRange| {
        SelectedLookup(f, stations, dateRange[i]);
      }
    }
  }

  /** A hydrological worksheet and the station it is named after. */
  datatype StationSheet = StationSheet(station: string, sheet: RawSheet)

  /** Every `Date` cell standardises. */
  predicate DatesParse(std: Standardiser, dates: seq<string>) {
    forall i | 0 <= i < |dates| :: Parses(std, dates[i])
  }

  /** The standardised dates of cells that all parse. */
  function Standardised(std: Standardiser, dates: seq<string>): (r: seq<string>)
    requires DatesParse(std, dates)
    ensures |r| == |dates| && forall i | 0 <= i < |dates| :: r[i] == std(dates[i]).value
  {
    seq(|dates|, i requires 0 <= i < |dates| => std(dates[i]).value)
  }

  /** Cells that standardise to distinct results give distinct dates. */
  lemma DistinctDates(std: Standardiser, dates: seq<string>)
    requires DatesParse(std, dates) && StandardisedDistinct(std, dates)
    ensures NoDuplicates(Standardised(std, dates))
  {
    var outcomes := Outcomes(std, dates);
    var r := Standardised(std, dates);
    forall i, j | 0 <= i < j < |dates| ensures r[i] != r[j] {
      assert outcomes[i] != outcomes[j];
    }
  }

  /** A station sheet loads, and has the one data column that is renamed after the station. */
  predicate HydroSheetOk(std: Standardiser, s: StationSheet) {
    DatesParse(std, s.sheet.dates) && |s.sheet.columns| == 1
  }

  /** The exception a failing station sheet raises: its first bad date comes first, then the
      length mismatch of `this_df.columns = [station]`. */
  function HydroError(std: Standardiser, s: StationSheet): (e: LoadError)
    requires !HydroSheetOk(std, s)
    ensures !DatesParse(std, s.sheet.dates) ==>
      exists i | 0 <= i < |s.sheet.dates| ::
        && !Parses(std, s.sheet.dates[i]) && e == BadDate(s.sheet.dates[i])
        && forall j | 0 <= j < i :: Parses(std, s.sheet.dates[j])
    ensures DatesParse(std, s.sheet.dates) ==> e == ColumnCountMismatch(s.station, |s.sheet.columns|)
  {
    if !DatesParse(std, s.sheet.dates) then StandardiseDates(std, s.sheet.dates).error
    else ColumnCountMismatch(s.station, |s.sheet.columns|)
  }

  /** A loaded station sheet with its column renamed after the station. */
  function StationFrame(std: Standardiser, s: StationSheet): (f: Frame)
    requires RawWellFormed(s.sheet) && HydroSheetOk(std, s)
    ensures WellFormed(f) && f.columns == [s.station] && f.rows == s.sheet.rows
    ensures f.index == Standardised(std, s.sheet.dates)
    ensures StandardisedDistinct(std, s.sheet.dates) ==> NoDuplicates(f.index)
  {
    assert StandardisedDistinct(std, s.sheet.dates) ==> NoDuplicates(Standardised(std, s.sheet.dates)) by {
      if StandardisedDistinct(std, s.sheet.dates) {
        DistinctDates(std, s.sheet.dates);
      }
    }
    Frame([s.station], Standardised(std, s.sheet.dates), s.sheet.rows)
  }

  /** The reading a station sheet holds for `date`, or NaN. */
  function StationCell(std: Standardiser, s: StationSheet, date: string): Cell
    requires RawWellFormed(s.sheet) && HydroSheetOk(std, s)
  {
    Lookup(StationFrame(std, s), date)[0]
  }

  /** The shared load step, applied to a station sheet, fails with the sheet's date error or
      gives its frame before the rename, with nothing dropped. */
  lemma LoadSheetOfStation(std: Standardiser, s: StationSheet)
    requires RawWellFormed(s.sheet)
    ensures LoadSheet(std, s.sheet).Failure? ==>
      !HydroSheetOk(std, s) && LoadSheet(std, s.sheet).error == HydroError(std, s)
    ensures HydroSheetOk(std, s) ==>
      && LoadSheet(std, s.sheet).Success?
      && LoadSheet(std, s.sheet).value.frame.(columns := [s.station]) == StationFrame(std, s)
      && LoadSheet(std, s.sheet).value.skippedRows == 0
  {
    var r := LoadSheet(std, s.sheet);
    if r.Success? && HydroSheetOk(std, s) {
      var f := r.value.frame;
      assert f.index == Standardised(std, s.sheet.dates);
    }
  }

  /** Every station sheet loaded and renamed, in list order. */
  function StationFrames(std: Standardiser, sheets: seq<StationSheet>): (r: seq<Frame>)
    requires forall k | 0 <= k < |sheets| :: RawWellFormed(sheets[k].sheet) && HydroSheetOk(std, sheets[k])
    ensures |r| == |sheets| && OneColumnFrames(r)
    ensures forall k | 0 <= k < |sheets| :: r[k] == StationFrame(std, sheets[k])
  {
    seq(|sheets|, k requires 0 <= k < |sheets| => StationFrame(std, sheets[k]))
  }

  /** How the facts about a list of station sheets split into those about all but the last
      sheet and those about the last. */
  lemma SplitLastStation(std: Standardiser, sheets: seq<StationSheet>)
    requires |sheets| > 0 && forall k | 0 <= k < |sheets| :: RawWellFormed(sheets[k].sheet)
    ensures var n := |sheets| - 1;
      && (forall k | 0 <= k < n :: sheets[..n][k] == sheets[k])
      && ((forall k | 0 <= k < |sheets| :: HydroSheetOk(std, sheets[k])) <==>
          (forall k | 0 <= k < n :: HydroSheetOk(std, sheets[..n][k])) && HydroSheetOk(std, sheets[n]))
    ensures var n := |sheets| - 1;
      (forall k | 0 <= k < |sheets| :: HydroSheetOk(std, sheets[k])) ==>
        StationFrames(std, sheets) == StationFrames(std, sheets[..n]) + [StationFrame(std, sheets[n])]
  {
    var n := |sheets| - 1;
    if forall k | 0 <= k < |sheets| :: HydroSheetOk(std, sheets[k]) {
      var all := StationFrames(std, sheets);
      var init := StationFrames(std, sheets[..n]);
      assert forall k | 0 <= k < n :: all[k] == init[k];
    }
  }

  /** One station sheet loaded and its single column renamed after the station. */
  function LoadStation(std: Standardiser, s: StationSheet): (r: Result<LoadedSheet, LoadError>)
    requires RawWellFormed(s.sheet)
    ensures r.Success? <==> HydroSheetOk(std, s)
    ensures r.Success? ==> r.value.frame == StationFrame(std, s) && r.value.skippedRows == 0
    ensures r.Failure? ==> r.error == HydroError(std, s)
  {
    LoadSheetOfStation(std, s);
    var sheetLoad :- LoadSheet(std, s.sheet);
    if |s.sheet.columns| != 1 then Failure(ColumnCountMismatch(s.station, |s.sheet.columns|))
    else Success(LoadedSheet(sheetLoad.frame.(columns := [s.station]), sheetLoad.skippedRows))
  }

  /** The loaded station frames and the rows dropped from them. */
  datatype Loaded = Loaded(frames: seq<Frame>, skippedRows: nat)

  /** The station sheets loaded in list order, each renamed after its station; the first
      sheet that fails aborts the whole load with its exception. */
  function LoadStations(std: Standardiser, sheets: seq<StationSheet>): (r: Result<Loaded, LoadError>)
    requires forall k | 0 <= k < |sheets| :: RawWellFormed(sheets[k].sheet)
    ensures r.Success? <==> forall k | 0 <= k < |sheets| :: HydroSheetOk(std, sheets[k])
    ensures r.Success? ==> r.value.frames == StationFrames(std, sheets) && r.value.skippedRows == 0
    ensures r.Failure? ==>
      exists k | 0 <= k < |sheets| ::
        && !HydroSheetOk(std, sheets[k]) && r.error == HydroError(std, sheets[k])
        && forall j | 0 <= j < k :: HydroSheetOk(std, sheets[j])
    decreases |sheets|
  {
    if |sheets| == 0 then Success(Loaded([], 0))
    else
      var n := |sheets| - 1;
      SplitLastStation(std, sheets);
      var prior :- LoadStations(std, sheets[..n]);
      var station :- LoadStation(std, sheets[n]);
      Success(Loaded(prior.frames + [station.frame], prior.skippedRows + station.skippedRows))
  }

  /** The merge loop: the station frames merged onto the calibration dates one by one. */
  method MergeStations(dateRange: seq<string>, frames: seq<Frame>) returns (base: Frame)
    requires OneColumnFrames(frames)
    ensures base == MergeAll(DateFrame(dateRange), frames)
  {
    base := DateFrame(dateRange);
    var k := 0;
    while k < |frames|
      invariant 0 <= k <= |frames|
      invariant base == MergeAll(DateFrame(dateRange), frames[..k])
    {
      MergeAllStep(DateFrame(dateRange), frames, k);
      base := MergeLeft(base, frames[k]);
      k := k + 1;
    }
    assert frames[..k] == frames;
  }

  /** The stations of the sheets, in list order. */
  function StationNames(sheets: seq<StationSheet>): (names: seq<string>)
    ensures |names| == |sheets| && forall k | 0 <= k < |sheets| :: names[k] == sheets[k].station
  {
    seq(|sheets|, k requires 0 <= k < |sheets| => sheets[k].station)
  }

  /** The merged station frames carry one column per station; while no station is listed
      twice, each is named after its station, in list order. */
  lemma StationColumns(std: Standardiser, sheets: seq<StationSheet>, dateRange: seq<string>)
    requires forall k | 0 <= k < |sheets| :: RawWellFormed(sheets[k].sheet) && HydroSheetOk(std, sheets[k])
    ensures var merged := MergeAll(DateFrame(dateRange), StationFrames(std, sheets));
      && |merged.columns| == |sheets|
      && (NoDuplicates(StationNames(sheets)) ==> forall k | 0 <= k < |sheets| :: merged.columns[k] == sheets[k].station)
  {
    var frames := StationFrames(std, sheets);
    StationFrameNames(std, sheets);
    MergedNames(dateRange, frames, StationNames(sheets));
  }

  /** Each loaded station frame's one column is its station's name. */
  lemma StationFrameNames(std: Standardiser, sheets: seq<StationSheet>)
    requires forall k | 0 <= k < |sheets| :: RawWellFormed(sheets[k].sheet) && HydroSheetOk(std, sheets[k])
    ensures FrameNames(StationFrames(std, sheets)) == StationNames(sheets)
  {
    var frames := StationFrames(std, sheets);
    assert forall k | 0 <= k < |sheets| :: FrameNames(frames)[k] == frames[k].columns[0];
  }

  /** With distinct dates in every sheet, the merged station frames hold, for each calibration
      date and station, that station's reading for the date or NaN. */
  lemma StationReadings(std: Standardiser, sheets: seq<StationSheet>, dateRange: seq<string>)
    requires forall k | 0 <= k < |sheets| :: RawWellFormed(sheets[k].sheet) && HydroSheetOk(std, sheets[k])
    requires forall k | 0 <= k < |sheets| :: StandardisedDistinct(std, sheets[k].sheet.dates)
    ensures var merged := MergeAll(DateFrame(dateRange), StationFrames(std, sheets));
      && merged.index == dateRange
      && forall i, k | 0 <= i < |dateRange| && 0 <= k < |sheets| ::
           merged.rows[i][k] == StationCell(std, sheets[k], dateRange[i])
  {
    var frames := StationFrames(std, sheets);
    assert forall k | 0 <= k < |sheets| :: NoDuplicates(frames[k].index);
    MergeAllReadings(dateRange, frames);
  }

  /** One `HydroData` measurement: each station's sheet is loaded, renamed after the station
      and left-merged onto the calibration dates, so the variable has one column per station in
      list order; the first failing sheet aborts the load. */
  method HydroMeasure(std: Standardiser, measure: string, dateRange: seq<string>, unit: string, sheets: seq<StationSheet>)
    returns (r: Result<MeasVarData, LoadError>)
    requires forall k | 0 <= k < |sheets| :: RawWellFormed(sheets[k].sheet)
    ensures r.Success? <==> forall k | 0 <= k < |sheets| :: HydroSheetOk(std, sheets[k])
    ensures r.Failure? ==>
      exists k | 0 <= k < |sheets| ::
        && !HydroSheetOk(std, sheets[k]) && r.error == HydroError(std, sheets[k])
        && forall j | 0 <= j < k :: HydroSheetOk(std, sheets[j])
    ensures r.Success? ==> r.value.measure == measure && r.value.dateRange == dateRange
    ensures r.Success? ==> r.value.unit == unit && r.value.skippedRows == 0
    ensures r.Success? ==> WellFormed(r.value.baseData) && |r.value.baseData.columns| == |sheets|
    ensures r.Success? && NoDuplicates(StationNames(sheets)) ==>
      forall k | 0 <= k < |sheets| :: r.value.baseData.columns[k] == sheets[k].station
    ensures r.Success? && NoDuplicates(dateRange)
            && (forall k | 0 <= k < |sheets| :: StandardisedDistinct(std, sheets[k].sheet.dates)) ==>
      && r.value.baseData.index == dateRange
      && forall i, k | 0 <= i < |dateRange| && 0 <= k < |sheets| ::
           r.value.baseData.rows[i][k] == StationCell(std, sheets[k], dateRange[i])
  {
    var loaded := LoadStations(std, sheets);
    if loaded.Failure? {
      return Failure(loaded.error);
    }
    var base := MergeStations(dateRange, loaded.value.frames);
    var m := NewMeasVar(base, measure, dateRange, unit, loaded.value.skippedRows);
    StationColumns(std, sheets, dateRange);
    if NoDuplicates(dateRange) && forall j | 0 <= j < |sheets| :: StandardisedDistinct(std, sheets[j].sheet.dates) {
      StationReadings(std, sheets, dateRange);
      JoinOntoOwnDates(base, dateRange);
    }
    r := Success(m);
  }
}
