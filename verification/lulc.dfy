/** `LulcData`: per-subcatchment pixel counts of the ICIMOD land-cover classes become areas in
    hectares, are folded into the five land uses WEAP expects, and are written as one
    constant row per modelled year under a four-line WEAP header. */
module Lulc {
  import opened Wrappers

  /** The ICIMOD land-use/land-cover classes of the integer raster. */
  datatype IcimodClass =
    | Waterbody | Glacier | Snow | Forest | Riverbed | BuiltUp | Cropland
    | BareSoil | BareRock | Grassland | OtherWoodedLand | Unclassified

  /** The raster value of each class. */
  function CodeOf(c: IcimodClass): int {
    match c
    case Waterbody => 1
    case Glacier => 2
    case Snow => 3
    case Forest => 4
    case Riverbed => 5
    case BuiltUp => 6
    case Cropland => 7
    case BareSoil => 8
    case BareRock => 9
    case Grassland => 10
    case OtherWoodedLand => 11
    case Unclassified => 15
  }

  /** Class lookup by raster value: codes 1 to 11 and 15 name a class, nothing else does. */
  function ClassOfCode(code: int): (r: Option<IcimodClass>)
    ensures r.Some? <==> 1 <= code <= 11 || code == 15
    ensures r.Some? ==> CodeOf(r.value) == code
  {
    if code == 1 then Some(Waterbody)
    else if code == 2 then Some(Glacier)
    else if code == 3 then Some(Snow)
    else if code == 4 then Some(Forest)
    else if code == 5 then Some(Riverbed)
    else if code == 6 then Some(BuiltUp)
    else if code == 7 then Some(Cropland)
    else if code == 8 then Some(BareSoil)
    else if code == 9 then Some(BareRock)
    else if code == 10 then Some(Grassland)
    else if code == 11 then Some(OtherWoodedLand)
    else if code == 15 then Some(Unclassified)
    else None
  }

  /** Every class is found again under its own raster value. */
  lemma CodeRoundTrip(c: IcimodClass)
    ensures ClassOfCode(CodeOf(c)) == Some(c)
  {
  }

  /** The column name each class gets in the zonal statistics table. */
  function ClassName(c: IcimodClass): string {
    match c
    case Waterbody => "Waterbody"
    case Glacier => "Glacier"
    case Snow => "Snow"
    case Forest => "Forest"
    case Riverbed => "Riverbed"
    case BuiltUp => "Built-up area"
    case Cropland => "Cropland"
    case BareSoil => "Bare soil"
    case BareRock => "Bare rock"
    case Grassland => "Grassland"
    case OtherWoodedLand => "Other wooded land"
    case Unclassified => "None"
  }

  /** One subcatchment's row of the zonal statistics: a number per class. */
  datatype ClassTable = ClassTable(
    waterbody: real, glacier: real, snow: real, forest: real, riverbed: real, builtUp: real,
    cropland: real, bareSoil: real, bareRock: real, grassland: real, otherWooded: real,
    unclassified: real)

  function Get(t: ClassTable, c: IcimodClass): real {
    match c
    case Waterbody => t.waterbody
    case Glacier => t.glacier
    case Snow => t.snow
    case Forest => t.forest
    case Riverbed => t.riverbed
    case BuiltUp => t.builtUp
    case Cropland => t.cropland
    case BareSoil => t.bareSoil
    case BareRock => t.bareRock
    case Grassland => t.grassland
    case OtherWoodedLand => t.otherWooded
    case Unclassified => t.unclassified
  }

  /** Sum over all twelve classes. */
  function Total(t: ClassTable): real {
    t.waterbody + t.glacier + t.snow + t.forest + t.riverbed + t.builtUp + t.cropland
    + t.bareSoil + t.bareRock + t.grassland + t.otherWooded + t.unclassified
  }

  /** Area of one pixel in hectares, from the raster resolution in metres. */
  function PixelAreaHa(rasterRes: real): real {
    rasterRes * rasterRes / 10000.0
  }

  /** Every class column multiplied by the same factor. */
  function Scale(t: ClassTable, k: real): ClassTable {
    ClassTable(
      t.waterbody * k, t.glacier * k, t.snow * k, t.forest * k, t.riverbed * k, t.builtUp * k,
      t.cropland * k, t.bareSoil * k, t.bareRock * k, t.grassland * k, t.otherWooded * k,
      t.unclassified * k)
  }

  lemma ScalePointwise(t: ClassTable, k: real)
    ensures forall c :: Get(Scale(t, k), c) == Get(t, c) * k
  {
    forall c ensures Get(Scale(t, k), c) == Get(t, c) * k {
      ScaleClass(t, k, c);
    }
  }

  lemma ScaleClass(t: ClassTable, k: real, c: IcimodClass)
    ensures Get(Scale(t, k), c) == Get(t, c) * k
  {
    match c {
      case Waterbody =>
      case Glacier =>
      case Snow =>
      case Forest =>
      case Riverbed =>
      case BuiltUp =>
      case Cropland =>
      case BareSoil =>
      case BareRock =>
      case Grassland =>
      case OtherWoodedLand =>
      case Unclassified =>
    }
  }

  /** Pixel counts to hectares, applied to every class column. */
  function ToHectares(counts: ClassTable, rasterRes: real): ClassTable {
    Scale(counts, PixelAreaHa(rasterRes))
  }

  /** Every class's area is its pixel count times the area of one pixel. */
  lemma HectaresPerClass(counts: ClassTable, rasterRes: real)
    ensures forall c :: Get(ToHectares(counts, rasterRes), c) == Get(counts, c) * PixelAreaHa(rasterRes)
  {
    ScalePointwise(counts, PixelAreaHa(rasterRes));
  }

  /** A 30 m pixel covers 0.09 ha. */
  lemma ThirtyMetrePixel()
    ensures PixelAreaHa(30.0) == 0.09
  {
  }

  /** The five WEAP land-use areas of a subcatchment. */
  datatype WeapAreas = WeapAreas(agriculture: real, forest: real, grassland: real, waterbody: real, urban: real)

  /** Folding ICIMOD classes into WEAP land uses. */
  function Aggregate(areas: ClassTable): WeapAreas {
    WeapAreas(
      areas.cropland,
      areas.forest + areas.otherWooded,
      areas.grassland + areas.bareSoil + areas.bareRock,
      areas.waterbody + areas.riverbed,
      areas.builtUp)
  }

  /** The five land uses together hold all the area except glacier, snow and unclassified. */
  lemma AggregateConserves(areas: ClassTable)
    ensures var r := Aggregate(areas);
      r.agriculture + r.forest + r.grassland + r.waterbody + r.urban
        == Total(areas) - Get(areas, Glacier) - Get(areas, Snow) - Get(areas, Unclassified)
  {
  }

  /** Glacier, snow and unclassified pixels reach none of the five land uses. */
  lemma AggregateIgnoresIceAndUnclassified(areas: ClassTable, glacier: real, snow: real, none: real)
    ensures Aggregate(areas.(glacier := glacier, snow := snow, unclassified := none)) == Aggregate(areas)
  {
  }

  /** Every other class reaches exactly one land use: adding area to it grows that land use
      by the same amount and leaves the other four alone. */
  lemma AggregateRoutesEachClass(areas: ClassTable, extra: real)
    ensures Aggregate(areas.(forest := areas.forest + extra)) == Aggregate(areas).(forest := Aggregate(areas).forest + extra)
    ensures Aggregate(areas.(otherWooded := areas.otherWooded + extra)) == Aggregate(areas).(forest := Aggregate(areas).forest + extra)
    ensures Aggregate(areas.(grassland := areas.grassland + extra)) == Aggregate(areas).(grassland := Aggregate(areas).grassland + extra)
    ensures Aggregate(areas.(bareSoil := areas.bareSoil + extra)) == Aggregate(areas).(grassland := Aggregate(areas).grassland + extra)
    ensures Aggregate(areas.(bareRock := areas.bareRock + extra)) == Aggregate(areas).(grassland := Aggregate(areas).grassland + extra)
    ensures Aggregate(areas.(waterbody := areas.waterbody + extra)) == Aggregate(areas).(waterbody := Aggregate(areas).waterbody + extra)
    ensures Aggregate(areas.(riverbed := areas.riverbed + extra)) == Aggregate(areas).(waterbody := Aggregate(areas).waterbody + extra)
    ensures Aggregate(areas.(cropland := areas.cropland + extra)) == Aggregate(areas).(agriculture := Aggregate(areas).agriculture + extra)
    ensures Aggregate(areas.(builtUp := areas.builtUp + extra)) == Aggregate(areas).(urban := Aggregate(areas).urban + extra)
  {
  }

  const YearHeader := "$Columns = Year"
  const ListSeparator := "$ListSeparator = ,"
  const DecimalSymbol := "$DecimalSymbol = ."
  const LandUseHeaders: seq<string> :=
    ["Agriculture [ha]", "Forest [ha]", "Grassland [ha]", "Waterbody [ha]", "Urban [ha]"]

  /** The land-use values in `LandUseHeaders` order. */
  function Columns(a: WeapAreas): seq<real> {
    [a.agriculture, a.forest, a.grassland, a.waterbody, a.urban]
  }

  /** `list(range(start_year, end_year))`: the end year itself is not included. */
  function Years(startYear: int, endYear: int): (r: seq<int>)
    ensures |r| == if endYear > startYear then endYear - startYear else 0
    ensures forall i | 0 <= i < |r| :: r[i] == startYear + i
    ensures endYear !in r
    ensures forall y :: y in r <==> startYear <= y < endYear
    decreases endYear - startYear
  {
    if endYear <= startYear then [] else [startYear] + Years(startYear + 1, endYear)
  }

  datatype YearRow = YearRow(year: int, areas: seq<real>)

  /** One subcatchment's WEAP file: four header lines over six columns, then the years. */
  datatype LulcSheet = LulcSheet(header: seq<seq<string>>, rows: seq<YearRow>)

  function Blanks(n: nat): (r: seq<string>)
    ensures |r| == n && forall k | 0 <= k < n :: r[k] == ""
  {
    seq(n, k => "")
  }

  function CatchmentSheet(name: string, areas: WeapAreas, startYear: int, endYear: int): (r: LulcSheet)
    ensures |r.header| == 4 && forall h | 0 <= h < 4 :: |r.header[h]| == 1 + |LandUseHeaders|
    ensures r.header[0][0] == "# Catchment " + name
    ensures r.header[1][0] == ListSeparator && r.header[2][0] == DecimalSymbol
    ensures forall h, k | 0 <= h < 3 && 1 <= k < 6 :: r.header[h][k] == ""
    ensures r.header[3] == [YearHeader] + LandUseHeaders
    ensures |r.rows| == |Years(startYear, endYear)|
    ensures forall i | 0 <= i < |r.rows| :: r.rows[i].year == startYear + i
    ensures forall i, j | 0 <= i < |r.rows| && 0 <= j < |r.rows| :: r.rows[i].areas == r.rows[j].areas
    ensures forall i | 0 <= i < |r.rows| :: r.rows[i].areas == Columns(areas)
  {
    var years := Years(startYear, endYear);
    var blanks := Blanks(|LandUseHeaders|);
    LulcSheet(
      [["# Catchment " + name] + blanks, [ListSeparator] + blanks, [DecimalSymbol] + blanks,
       [YearHeader] + LandUseHeaders],
      seq(|years|, i requires 0 <= i < |years| => YearRow(years[i], Columns(areas))))
  }

  /** A subcatchment's name and its zonal-statistics pixel counts. */
  datatype SubcatchmentStats = SubcatchmentStats(name: string, pixels: ClassTable)

  /** `LulcData.to_weap_data`: one sheet per subcatchment, in table order. */
  function LulcToWeap(stats: seq<SubcatchmentStats>, rasterRes: real, startYear: int, endYear: int)
    : (r: seq<(string, LulcSheet)>)
    ensures |r| == |stats|
    ensures forall s | 0 <= s < |r| :: r[s].0 == stats[s].name
    ensures forall s | 0 <= s < |r| ::
      r[s].1 == CatchmentSheet(stats[s].name, Aggregate(ToHectares(stats[s].pixels, rasterRes)), startYear, endYear)
    ensures forall s | 0 <= s < |r| :: |r[s].1.rows| == |Years(startYear, endYear)|
    ensures forall s, i | 0 <= s < |r| && 0 <= i < |r[s].1.rows| ::
      var k := PixelAreaHa(rasterRes);
      var p := stats[s].pixels;
      && r[s].1.rows[i].year == startYear + i
      && r[s].1.rows[i].areas == [p.cropland * k, (p.forest + p.otherWooded) * k,
                                  (p.grassland + p.bareSoil + p.bareRock) * k,
                                  (p.waterbody + p.riverbed) * k, p.builtUp * k]
  {
    assert forall s | 0 <= s < |stats| ::
      var k := PixelAreaHa(rasterRes);
      var p := stats[s].pixels;
      Columns(Aggregate(ToHectares(p, rasterRes)))
        == [p.cropland * k, (p.forest + p.otherWooded) * k,
            (p.grassland + p.bareSoil + p.bareRock) * k,
            (p.waterbody + p.riverbed) * k, p.builtUp * k] by {
      forall s | 0 <= s < |stats| {
        AreasFromPixels(stats[s].pixels, rasterRes);
      }
    }
    seq(|stats|, s requires 0 <= s < |stats| =>
      (stats[s].name, CatchmentSheet(stats[s].name, Aggregate(ToHectares(stats[s].pixels, rasterRes)), startYear, endYear)))
  }

  /** Arithmetic support for the `Scaled*` lemmas: scaling distributes over a sum. */
  lemma Distribute(a: real, b: real, k: real)
    ensures (a + b) * k == a * k + b * k
  {
  }

  /** The five land-use areas of a scaled table, column by column. */
  lemma {:induction false} AggregateScaled(p: ClassTable, k: real)
    ensures Columns(Aggregate(Scale(p, k)))
         == [p.cropland * k, (p.forest + p.otherWooded) * k,
             (p.grassland + p.bareSoil + p.bareRock) * k,
             (p.waterbody + p.riverbed) * k, p.builtUp * k]
  {
    var a := Aggregate(Scale(p, k));
    assert a.agriculture == p.cropland * k && a.urban == p.builtUp * k;
    ScaledForest(p, k);
    ScaledGrassland(p, k);
    ScaledWaterbody(p, k);
  }

  lemma ScaledForest(p: ClassTable, k: real)
    ensures Aggregate(Scale(p, k)).forest == (p.forest + p.otherWooded) * k
  {
    Distribute(p.forest, p.otherWooded, k);
  }

  lemma ScaledGrassland(p: ClassTable, k: real)
    ensures Aggregate(Scale(p, k)).grassland == (p.grassland + p.bareSoil + p.bareRock) * k
  {
    Distribute(p.grassland, p.bareSoil, k);
    Distribute(p.grassland + p.bareSoil, p.bareRock, k);
  }

  lemma ScaledWaterbody(p: ClassTable, k: real)
    ensures Aggregate(Scale(p, k)).waterbody == (p.waterbody + p.riverbed) * k
  {
    Distribute(p.waterbody, p.riverbed, k);
  }

  /** The five land-use areas in hectares, straight from the pixel counts. */
  lemma {:induction false} AreasFromPixels(p: ClassTable, rasterRes: real)
    ensures var k := PixelAreaHa(rasterRes);
      Columns(Aggregate(ToHectares(p, rasterRes)))
        == [p.cropland * k, (p.forest + p.otherWooded) * k,
            (p.grassland + p.bareSoil + p.bareRock) * k,
            (p.waterbody + p.riverbed) * k, p.builtUp * k]
  {
    AggregateScaled(p, PixelAreaHa(rasterRes));
  }

  /** End to end: every year row of a subcatchment's sheet carries the same five areas, each
      the hectares of the classes it gathers. */
  lemma {:induction false} SheetAreasFromPixels(stats: seq<SubcatchmentStats>, rasterRes: real, startYear: int, endYear: int, s: int, i: int)
    requires 0 <= s < |stats|
    requires 0 <= i < |Years(startYear, endYear)|
    ensures var k := PixelAreaHa(rasterRes);
      var p := stats[s].pixels;
      var row := LulcToWeap(stats, rasterRes, startYear, endYear)[s].1.rows[i];
      && row.year == startYear + i
      && row.areas == [p.cropland * k, (p.forest + p.otherWooded) * k,
                       (p.grassland + p.bareSoil + p.bareRock) * k,
                       (p.waterbody + p.riverbed) * k, p.builtUp * k]
  {
    var areas := Aggregate(ToHectares(stats[s].pixels, rasterRes));
    var sheet := CatchmentSheet(stats[s].name, areas, startYear, endYear);
    assert LulcToWeap(stats, rasterRes, startYear, endYear)[s].1 == sheet;
    assert |sheet.rows| == |Years(startYear, endYear)|;
    assert sheet.rows[i].areas == Columns(areas) && sheet.rows[i].year == startYear + i;
    AreasFromPixels(stats[s].pixels, rasterRes);
  }

  /** The default modelling window 2000 to 2021 gives 21 rows, 2000 through 2020. */
  lemma DefaultWindow()
    ensures |Years(2000, 2021)| == 21
    ensures Years(2000, 2021)[0] == 2000 && Years(2000, 2021)[20] == 2020
    ensures 2021 !in Years(2000, 2021)
  {
  }
}
