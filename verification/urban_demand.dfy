/** The demand arithmetic of `UrbDemData.__init__`: validate the plumbing percentage, split
    each ward's household population into plumbed and unplumbed people, price both at their
    per-person rates, price students at the per-student rate, and outer-join the domestic and
    institutional columns on the ward number. Quantities are in m3/day over `real`. */
module UrbanDemand {
  import opened Wrappers
  import DateStandardiser

  type WardId = int

  /** The four columns of the population workbook that the demand step keeps. */
  datatype PopulationRow = PopulationRow(
    ward: WardId,
    totalPopulation: real,
    households: real,
    avgHouseholdSize: real)

  /** One row of the student workbook: `Ward` and `Currently attending`. */
  datatype StudentRow = StudentRow(ward: WardId, attending: real)

  /** Per-person daily demand of plumbed and unplumbed homes, and per-student daily demand. */
  datatype DemandRates = DemandRates(fullPlumbHome: real, notPlumbHome: real, student: real)

  /** The keyword defaults of the constructor. */
  const DefaultRates := DemandRates(0.112, 0.045, 0.01)

  /** Proportions of households with and without full plumbing. */
  datatype PlumbingSplit = PlumbingSplit(full: real, notPlumbed: real)

  datatype SetupError =
    | InvalidPlumbingPercentage(given: real)
    | InvalidDate(text: string)

  /** The range check on `perc_full_plumb` and the two proportions derived from it. */
  function PlumbingProportions(perc: real): (r: Result<PlumbingSplit, SetupError>)
    ensures r.Failure? <==> perc < 0.0 || perc > 100.0
    ensures r.Failure? ==> r.error == InvalidPlumbingPercentage(perc)
    ensures r.Success? ==> r.value.full * 100.0 == perc
    ensures r.Success? ==> 0.0 <= r.value.full <= 1.0 && 0.0 <= r.value.notPlumbed <= 1.0
    ensures r.Success? ==> r.value.full + r.value.notPlumbed == 1.0
  {
    if perc < 0.0 || perc > 100.0 then Failure(InvalidPlumbingPercentage(perc))
    else
      var full := perc / 100.0;
      Success(PlumbingSplit(full, 1.0 - full))
  }

  function HouseholdPop(row: PopulationRow): real {
    row.households * row.avgHouseholdSize
  }

  function PlumbedPop(row: PopulationRow, split: PlumbingSplit): real {
    HouseholdPop(row) * split.full
  }

  function UnplumbedPop(row: PopulationRow, split: PlumbingSplit): real {
    HouseholdPop(row) * split.notPlumbed
  }

  /** `Domestic demand [m3/d]` of one ward. */
  function DomesticDemand(row: PopulationRow, split: PlumbingSplit, rates: DemandRates): real {
    PlumbedPop(row, split) * rates.fullPlumbHome + UnplumbedPop(row, split) * rates.notPlumbHome
  }

  /** `Institutional demand [m3/d]` of one ward. */
  function InstitutionalDemand(row: StudentRow, rates: DemandRates): real {
    row.attending * rates.student
  }

  // ---------------------------------------------------------------------------
  // Ward-indexed columns

  function PopulationWards(rows: seq<PopulationRow>): set<WardId> {
    set i | 0 <= i < |rows| :: rows[i].ward
  }

  function StudentWards(rows: seq<StudentRow>): set<WardId> {
    set i | 0 <= i < |rows| :: rows[i].ward
  }

  predicate UniquePopulationWards(rows: seq<PopulationRow>) {
    forall i, j | 0 <= i < j < |rows| :: rows[i].ward != rows[j].ward
  }

  predicate UniqueStudentWards(rows: seq<StudentRow>) {
    forall i, j | 0 <= i < j < |rows| :: rows[i].ward != rows[j].ward
  }

  /** The domestic demand column indexed by ward (`set_index('Ward')`). */
  function DomesticByWard(rows: seq<PopulationRow>, split: PlumbingSplit, rates: DemandRates): (m: map<WardId, real>)
    requires UniquePopulationWards(rows)
    ensures m.Keys == PopulationWards(rows)
    ensures forall i | 0 <= i < |rows| :: m[rows[i].ward] == DomesticDemand(rows[i], split, rates)
  {
    if |rows| == 0 then map[]
    else
      var init := rows[..|rows| - 1];
      var last := rows[|rows| - 1];
      assert UniquePopulationWards(init) && PopulationWards(rows) == PopulationWards(init) + {last.ward} by {
        PopulationWardsSnoc(rows);
      }
      DomesticByWard(init, split, rates)[last.ward := DomesticDemand(last, split, rates)]
  }

  lemma PopulationWardsSnoc(rows: seq<PopulationRow>)
    requires |rows| > 0 && UniquePopulationWards(rows)
    ensures UniquePopulationWards(rows[..|rows| - 1])
    ensures PopulationWards(rows) == PopulationWards(rows[..|rows| - 1]) + {rows[|rows| - 1].ward}
    ensures rows[|rows| - 1].ward !in PopulationWards(rows[..|rows| - 1])
  {
    var init := rows[..|rows| - 1];
    forall w | w in PopulationWards(rows) ensures w in PopulationWards(init) + {rows[|rows| - 1].ward} {
      var i :| 0 <= i < |rows| && rows[i].ward == w;
      if i < |rows| - 1 { assert init[i] == rows[i]; }
    }
    forall w | w in PopulationWards(init) ensures w in PopulationWards(rows) && w != rows[|rows| - 1].ward {
      var i :| 0 <= i < |init| && init[i].ward == w;
      assert rows[i] == init[i];
    }
  }

  /** The institutional demand column indexed by ward. */
  function InstitutionalByWard(rows: seq<StudentRow>, rates: DemandRates): (m: map<WardId, real>)
    requires UniqueStudentWards(rows)
    ensures m.Keys == StudentWards(rows)
    ensures forall i | 0 <= i < |rows| :: m[rows[i].ward] == InstitutionalDemand(rows[i], rates)
  {
    if |rows| == 0 then map[]
    else
      var init := rows[..|rows| - 1];
      var last := rows[|rows| - 1];
      assert UniqueStudentWards(init) && StudentWards(rows) == StudentWards(init) + {last.ward} by {
        StudentWardsSnoc(rows);
      }
      InstitutionalByWard(init, rates)[last.ward := InstitutionalDemand(last, rates)]
  }

  lemma StudentWardsSnoc(rows: seq<StudentRow>)
    requires |rows| > 0 && UniqueStudentWards(rows)
    ensures UniqueStudentWards(rows[..|rows| - 1])
    ensures StudentWards(rows) == StudentWards(rows[..|rows| - 1]) + {rows[|rows| - 1].ward}
    ensures rows[|rows| - 1].ward !in StudentWards(rows[..|rows| - 1])
  {
    var init := rows[..|rows| - 1];
    forall w | w in StudentWards(rows) ensures w in StudentWards(init) + {rows[|rows| - 1].ward} {
      var i :| 0 <= i < |rows| && rows[i].ward == w;
      if i < |rows| - 1 { assert init[i] == rows[i]; }
    }
    forall w | w in StudentWards(init) ensures w in StudentWards(rows) && w != rows[|rows| - 1].ward {
      var i :| 0 <= i < |init| && init[i].ward == w;
      assert rows[i] == init[i];
    }
  }

  /** A ward's row after the outer join: a column is absent when its table had no such ward. */
  datatype WardDemand = WardDemand(domestic: Option<real>, institutional: Option<real>)

  function Lookup(m: map<WardId, real>, w: WardId): Option<real> {
    if w in m then Some(m[w]) else None
  }

  /** `demand_data.merge(inst_data, how='outer', left_index=True, right_index=True)`. */
  function OuterMerge(domestic: map<WardId, real>, institutional: map<WardId, real>): (r: map<WardId, WardDemand>)
    ensures r.Keys == domestic.Keys + institutional.Keys
    ensures forall w | w in r :: r[w].domestic.Some? <==> w in domestic
    ensures forall w | w in r :: r[w].institutional.Some? <==> w in institutional
    ensures forall w | w in domestic :: r[w].domestic == Some(domestic[w])
    ensures forall w | w in institutional :: r[w].institutional == Some(institutional[w])
  {
    map w | w in domestic.Keys + institutional.Keys :: WardDemand(Lookup(domestic, w), Lookup(institutional, w))
  }

  /** `util.date_standardiser` on a constructor argument, its ValueError reported as `InvalidDate`. */
  function StandardiseSetting(text: string): (r: Result<string, SetupError>)
    ensures r.Success? <==> DateStandardiser.Standardise(text).Success?
    ensures r.Failure? ==> r.error == InvalidDate(text)
    ensures r.Success? ==> DateStandardiser.IsCanonical(r.value)
  {
    match DateStandardiser.Standardise(text)
    case Success(iso) => Success(iso)
    case Failure(_) => Failure(InvalidDate(text))
  }

  /** What the constructor has computed when it reaches the commercial-demand step. */
  datatype UrbanSetup = UrbanSetup(
    split: PlumbingSplit,
    startDate: string,
    endDate: string,
    demand: map<WardId, WardDemand>)

  /** The constructor up to the commercial step: the percentage is checked before anything
      else, then the two modelling dates are standardised, then the demand table is built. */
  function BuildUrbanDemand(
    perc: real, startDate: string, endDate: string,
    population: seq<PopulationRow>, students: seq<StudentRow>, rates: DemandRates
  ): (r: Result<UrbanSetup, SetupError>)
    requires UniquePopulationWards(population) && UniqueStudentWards(students)
    ensures (perc < 0.0 || perc > 100.0) ==> r == Failure(InvalidPlumbingPercentage(perc))
    ensures r.Failure? && r.error.InvalidDate? ==>
      r.error.text in {startDate, endDate} && DateStandardiser.Standardise(r.error.text).Failure?
    ensures 0.0 <= perc <= 100.0 && DateStandardiser.Standardise(startDate).Failure? ==>
      r == Failure(InvalidDate(startDate))
    ensures 0.0 <= perc <= 100.0 && DateStandardiser.Standardise(startDate).Success?
            && DateStandardiser.Standardise(endDate).Failure? ==>
      r == Failure(InvalidDate(endDate))
    ensures r.Success? <==>
      && 0.0 <= perc <= 100.0
      && DateStandardiser.Standardise(startDate).Success?
      && DateStandardiser.Standardise(endDate).Success?
    ensures r.Success? ==> r.value.split == PlumbingProportions(perc).value
    ensures r.Success? ==>
      && r.value.startDate == DateStandardiser.Standardise(startDate).value
      && r.value.endDate == DateStandardiser.Standardise(endDate).value
    ensures r.Success? ==> r.value.demand.Keys == PopulationWards(population) + StudentWards(students)
    ensures r.Success? ==> forall i | 0 <= i < |population| ::
      r.value.demand[population[i].ward].domestic == Some(DomesticDemand(population[i], r.value.split, rates))
    ensures r.Success? ==> forall i | 0 <= i < |students| ::
      r.value.demand[students[i].ward].institutional == Some(students[i].attending * rates.student)
  {
    var split :- PlumbingProportions(perc);
    var start :- StandardiseSetting(startDate);
    var end :- StandardiseSetting(endDate);
    var domestic := DomesticByWard(population, split, rates);
    var institutional := InstitutionalByWard(students, rates);
    Success(UrbanSetup(split, start, end, OuterMerge(domestic, institutional)))
  }

  // ---------------------------------------------------------------------------
  // Properties

  /** Both end points of the percentage range are accepted. */
  lemma PlumbingBoundsAccepted()
    ensures PlumbingProportions(0.0) == Success(PlumbingSplit(0.0, 1.0))
    ensures PlumbingProportions(100.0) == Success(PlumbingSplit(1.0, 0.0))
  {
  }

  /** Plumbed and unplumbed people together are exactly the household population. */
  lemma PopulationSplitConserved(perc: real, row: PopulationRow)
    requires PlumbingProportions(perc).Success?
    ensures PlumbedPop(row, PlumbingProportions(perc).value) + UnplumbedPop(row, PlumbingProportions(perc).value)
         == row.households * row.avgHouseholdSize
  {
    var split := PlumbingProportions(perc).value;
    calc {
      PlumbedPop(row, split) + UnplumbedPop(row, split);
      HouseholdPop(row) * (split.full + split.notPlumbed);
      HouseholdPop(row);
    }
  }

  /** Domestic demand depends on households and their size, never on `Total population`. */
  lemma DomesticIgnoresTotalPopulation(row: PopulationRow, other: real, split: PlumbingSplit, rates: DemandRates)
    ensures DomesticDemand(row.(totalPopulation := other), split, rates) == DomesticDemand(row, split, rates)
  {
  }

  /** Domestic demand is the household population priced at a blend of the two rates, so it
      lies between pricing everyone at the lower and everyone at the higher rate. */
  lemma DomesticDemandBetweenRates(perc: real, row: PopulationRow, rates: DemandRates)
    requires PlumbingProportions(perc).Success?
    requires row.households >= 0.0 && row.avgHouseholdSize >= 0.0
    requires rates.notPlumbHome <= rates.fullPlumbHome
    ensures var d := DomesticDemand(row, PlumbingProportions(perc).value, rates);
      HouseholdPop(row) * rates.notPlumbHome <= d <= HouseholdPop(row) * rates.fullPlumbHome
  {
    var split := PlumbingProportions(perc).value;
    var h := HouseholdPop(row);
    assert h >= 0.0;
    var d := DomesticDemand(row, split, rates);
    assert d == h * rates.notPlumbHome + h * split.full * (rates.fullPlumbHome - rates.notPlumbHome);
    var g := rates.fullPlumbHome - rates.notPlumbHome;
    assert 0.0 <= split.full * g <= g;
    assert h * split.full * g == h * (split.full * g);
    assert h * split.full * (rates.fullPlumbHome - rates.notPlumbHome) >= 0.0;
    assert h * split.full * (rates.fullPlumbHome - rates.notPlumbHome)
        <= h * (rates.fullPlumbHome - rates.notPlumbHome);
  }

  /** With every home plumbed, or none, everyone is priced at the single matching rate. */
  lemma DomesticDemandAtBounds(row: PopulationRow, rates: DemandRates)
    ensures DomesticDemand(row, PlumbingProportions(100.0).value, rates) == HouseholdPop(row) * rates.fullPlumbHome
    ensures DomesticDemand(row, PlumbingProportions(0.0).value, rates) == HouseholdPop(row) * rates.notPlumbHome
  {
  }

  /** 100 households of 4 people at 80% plumbing with the default rates use 39.44 m3/day. */
  lemma DomesticDemandExample()
    ensures DomesticDemand(PopulationRow(1, 0.0, 100.0, 4.0), PlumbingProportions(80.0).value, DefaultRates) == 39.44
    ensures PlumbedPop(PopulationRow(1, 0.0, 100.0, 4.0), PlumbingProportions(80.0).value) == 320.0
    ensures UnplumbedPop(PopulationRow(1, 0.0, 100.0, 4.0), PlumbingProportions(80.0).value) == 80.0
  {
    assert PlumbingProportions(80.0).value == PlumbingSplit(0.8, 0.2);
  }

  function TotalHouseholdPop(rows: seq<PopulationRow>): real {
    if |rows| == 0 then 0.0 else TotalHouseholdPop(rows[..|rows| - 1]) + HouseholdPop(rows[|rows| - 1])
  }

  function TotalDomestic(rows: seq<PopulationRow>, split: PlumbingSplit, rates: DemandRates): real {
    if |rows| == 0 then 0.0
    else TotalDomestic(rows[..|rows| - 1], split, rates) + DomesticDemand(rows[|rows| - 1], split, rates)
  }

  /** Summed over wards, domestic demand is the municipality's household population priced
      at the blended per-person rate: the split is per person, not per ward. */
  lemma {:induction false} TotalDomesticIsBlendedRate(rows: seq<PopulationRow>, split: PlumbingSplit, rates: DemandRates)
    ensures TotalDomestic(rows, split, rates)
         == TotalHouseholdPop(rows) * (split.full * rates.fullPlumbHome + split.notPlumbed * rates.notPlumbHome)
  {
    if |rows| > 0 {
      TotalDomesticIsBlendedRate(rows[..|rows| - 1], split, rates);
    }
  }

  function TotalAttending(rows: seq<StudentRow>): real {
    if |rows| == 0 then 0.0 else TotalAttending(rows[..|rows| - 1]) + rows[|rows| - 1].attending
  }

  function TotalInstitutional(rows: seq<StudentRow>, rates: DemandRates): real {
    if |rows| == 0 then 0.0
    else TotalInstitutional(rows[..|rows| - 1], rates) + InstitutionalDemand(rows[|rows| - 1], rates)
  }

  /** Summed over wards, institutional demand is all attending students at the student rate. */
  lemma {:induction false} TotalInstitutionalIsStudentRate(rows: seq<StudentRow>, rates: DemandRates)
    ensures TotalInstitutional(rows, rates) == TotalAttending(rows) * rates.student
  {
    if |rows| > 0 {
      TotalInstitutionalIsStudentRate(rows[..|rows| - 1], rates);
    }
  }
}
