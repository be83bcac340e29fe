/** Fire management cost estimates: area burned per fire management option,
    converted to acres and priced with the cost per acre of a randomly mapped
    reference year, then a five-model average per option and a total over the
    options per model. */
module Cost {
  import opened Wrappers
  import opened Stats
  import opened Measures
  import opened Luts
  import opened Paths
  import opened Table
  import opened Settings

  /** A year of known costs, as `randint(2011, 2017)` draws it. */
  type CostYear = y: int | 2011 <= y < 2017 witness 2011

  /** The simulation years that receive a reference cost year: 1950..2099. */
  const FirstMappedYear: int := 1950
  const EndMappedYear: int := 2100

  const TotalOption: string := "total"

  /** One row of the cost table, indexed by year. */
  datatype CostRow = CostRow(
    year: int,
    treatment: string,
    scenario: string,
    model: string,
    option: string,
    /** Mean area burned over the replicates, in square kilometres. */
    area: Option<real>,
    cost: Option<real>)

  type YearMap = map<int, int>

  /** Every mapped year has a row in the cost table. */
  predicate YearMapOk(yearMap: YearMap)
  {
    forall y :: y in yearMap ==> yearMap[y] in FmoCosts()
  }

  /** The seeded random map from simulation year to reference cost year;
      `draws` are the successive values of the generator. */
  function RandomCostMap(draws: seq<CostYear>): (yearMap: YearMap)
    requires |draws| == EndMappedYear - FirstMappedYear
    ensures forall y :: y in yearMap <==> FirstMappedYear <= y < EndMappedYear
    ensures forall y :: y in yearMap ==> yearMap[y] == draws[y - FirstMappedYear] as int
    ensures forall y :: y in yearMap ==> 2011 <= yearMap[y] < 2017
    ensures YearMapOk(yearMap)
  {
    Successive(FirstMappedYear, draws)
  }

  /** The years from `start` on, each mapped to its own draw. */
  function Successive(start: int, draws: seq<CostYear>): (yearMap: YearMap)
    ensures forall y :: y in yearMap <==> start <= y < start + |draws|
    ensures forall y :: y in yearMap ==> yearMap[y] == draws[y - start] as int
  {
    if |draws| == 0 then map[]
    else Successive(start, draws[..|draws| - 1])[start + |draws| - 1 := draws[|draws| - 1] as int]
  }

  // ---------------------------------------------------------------------------
  // Source files
  // ---------------------------------------------------------------------------

  /** Path of the area-burned file of one option. Historical runs exist only
      for the one historical treatment and have no model. */
  function CostFilename(cfg: Settings, dataDir: string, treatment: string, scenario: string,
                        model: string, option: string): (path: string)
    ensures scenario == HistoricalScenario
            ==> EndsWith(path, "alfresco_totalareaburned" + "_" + option + "_" + cfg.historicalFmoPrefix
                               + "_" + cfg.historicalDatePostfix + ".csv")
    ensures scenario != HistoricalScenario
            ==> EndsWith(path, "alfresco_totalareaburned" + "_" + option + "_"
                               + (cfg.fmoPrefix + "_" + scenario + "_" + model) + "_" + cfg.datePostfix + ".csv")
  {
    if scenario == HistoricalScenario then
      var p, d := cfg.historicalFmoPrefix, cfg.historicalDatePostfix;
      Join4("_", "alfresco_totalareaburned", option, p, d);
      PathJoinEndsWith(dataDir, ["FireManagementOptions", cfg.historicalCategory, p, "total_area_burned",
                                 Join("_", ["alfresco_totalareaburned", option, p, d]) + ".csv"]);
      HistoricalPath(cfg, dataDir, option)
    else
      var fragment := Join("_", [cfg.fmoPrefix, scenario, model]);
      Join3("_", cfg.fmoPrefix, scenario, model);
      Join4("_", "alfresco_totalareaburned", option, fragment, cfg.datePostfix);
      PathJoinEndsWith(dataDir, ["FireManagementOptions", treatment, fragment, "total_area_burned",
                                 Join("_", ["alfresco_totalareaburned", option, fragment, cfg.datePostfix]) + ".csv"]);
      FuturePath(cfg, dataDir, treatment, scenario, model, option)
  }

  function HistoricalPath(cfg: Settings, dataDir: string, option: string): string
  {
    PathJoin(dataDir, [
      "FireManagementOptions", cfg.historicalCategory, cfg.historicalFmoPrefix, "total_area_burned",
      Join("_", ["alfresco_totalareaburned", option, cfg.historicalFmoPrefix, cfg.historicalDatePostfix]) + ".csv"])
  }

  function FuturePath(cfg: Settings, dataDir: string, treatment: string, scenario: string,
                      model: string, option: string): string
  {
    var fragment := Join("_", [cfg.fmoPrefix, scenario, model]);
    var filename := Join("_", ["alfresco_totalareaburned", option, fragment, cfg.datePostfix]) + ".csv";
    PathJoin(dataDir, ["FireManagementOptions", treatment, fragment, "total_area_burned", filename])
  }

  /** The historical file name depends only on the option. */
  lemma HistoricalCostFilename(cfg: Settings, dataDir: string, option: string)
    requires PlainNames(cfg) && Dir(dataDir) && Name(option)
    ensures (HistoricalPath(cfg, dataDir, option)
             == dataDir + "/" + "FireManagementOptions" + "/" + cfg.historicalCategory + "/" + cfg.historicalFmoPrefix
                + "/" + "total_area_burned" + "/" + ("alfresco_totalareaburned" + "_" + option + "_" + cfg.historicalFmoPrefix + "_" + cfg.historicalDatePostfix + ".csv"))
  {
    var p, d := cfg.historicalFmoPrefix, cfg.historicalDatePostfix;
    CsvName(option, p, d);
    var filename := Join("_", ["alfresco_totalareaburned", option, p, d]) + ".csv";
    PathJoin5(dataDir, "FireManagementOptions", cfg.historicalCategory, p, "total_area_burned", filename);
  }

  /** The future file lives under the treatment and the
      prefix-scenario-model fragment, which also names the file. */
  lemma FutureCostFilename(cfg: Settings, dataDir: string, treatment: string, scenario: string, model: string, option: string)
    requires PlainNames(cfg) && Dir(dataDir)
    requires Name(treatment) && Name(scenario) && Name(model) && Name(option)
    ensures (FuturePath(cfg, dataDir, treatment, scenario, model, option)
             == dataDir + "/" + "FireManagementOptions" + "/" + treatment + "/" + (cfg.fmoPrefix + "_" + scenario + "_" + model) + "/" + "total_area_burned"
                + "/" + ("alfresco_totalareaburned" + "_" + option + "_" + (cfg.fmoPrefix + "_" + scenario + "_" + model) + "_" + cfg.datePostfix + ".csv"))
  {
    FragmentName(cfg.fmoPrefix, scenario, model);
    var fragment := Join("_", [cfg.fmoPrefix, scenario, model]);
    CsvName(option, fragment, cfg.datePostfix);
    var filename := Join("_", ["alfresco_totalareaburned", option, fragment, cfg.datePostfix]) + ".csv";
    PathJoin5(dataDir, "FireManagementOptions", treatment, fragment, "total_area_burned", filename);
  }

  /** Different options never share a file. */
  lemma CostFilenameSeparatesOptions(cfg: Settings, dataDir: string, treatment: string, scenario: string,
                                     model: string, o1: string, o2: string)
    requires CostFilename(cfg, dataDir, treatment, scenario, model, o1)
          == CostFilename(cfg, dataDir, treatment, scenario, model, o2)
    ensures o1 == o2
  {
    if scenario == HistoricalScenario {
      var p, d := cfg.historicalFmoPrefix, cfg.historicalDatePostfix;
      var tail := ["FireManagementOptions", cfg.historicalCategory, p, "total_area_burned"];
      var f1 := Join("_", ["alfresco_totalareaburned", o1, p, d]) + ".csv";
      var f2 := Join("_", ["alfresco_totalareaburned", o2, p, d]) + ".csv";
      assert tail + [f1] == ["FireManagementOptions", cfg.historicalCategory, p, "total_area_burned", f1];
      assert tail + [f2] == ["FireManagementOptions", cfg.historicalCategory, p, "total_area_burned", f2];
      FileNameSeparates(dataDir, tail, cfg.historicalFmoPrefix, cfg.historicalDatePostfix, o1, o2);
    } else {
      var fragment := Join("_", [cfg.fmoPrefix, scenario, model]);
      var d := cfg.datePostfix;
      var tail := ["FireManagementOptions", treatment, fragment, "total_area_burned"];
      var f1 := Join("_", ["alfresco_totalareaburned", o1, fragment, d]) + ".csv";
      var f2 := Join("_", ["alfresco_totalareaburned", o2, fragment, d]) + ".csv";
      assert tail + [f1] == ["FireManagementOptions", treatment, fragment, "total_area_burned", f1];
      assert tail + [f2] == ["FireManagementOptions", treatment, fragment, "total_area_burned", f2];
      FileNameSeparates(dataDir, tail, fragment, cfg.datePostfix, o1, o2);
    }
  }

  // ---------------------------------------------------------------------------
  // Cost of one row
  // ---------------------------------------------------------------------------

  /** Cost per acre for a year and option, through the random year map. */
  function CostFactor(yearMap: YearMap, year: int, option: string): (r: Result<real, Error>)
    ensures YearMapOk(yearMap) ==> (r.Ok? <==> year in yearMap && option in FmoOptionCodes())
    ensures r.Err? && year in yearMap && YearMapOk(yearMap) ==> r.error == UnknownOption(option)
    ensures r.Err? && year !in yearMap ==> r.error == UnknownYear(year)
    ensures r.Ok? ==> r.value > 0.0
  {
    if year !in yearMap then Err(UnknownYear(year))
    else
      var mapped := yearMap[year];
      if mapped !in FmoCosts() then Err(UnknownYear(mapped))
      else if option !in FmoCosts()[mapped] then Err(UnknownOption(option))
      else Ok(FmoCosts()[mapped][option])
  }

  /** A cost that is the acres of a present area priced at the cost per acre,
      to the nearest dollar. */
  predicate Priced(factor: real, area: Option<real>, cost: Option<real>)
  {
    && area.Some? && cost.Some? && Whole(cost.value)
    && -0.5 <= cost.value - ToAcres(area.value) as real * factor <= 0.5
  }

  /** `compute_row_cost`: the year and option are looked up first, then the
      area is rounded to acres, which fails when the area is missing (NaN). */
  function ComputeRowCost(yearMap: YearMap, year: int, option: string, area: Option<real>): (r: Result<real, Error>)
    ensures r.Ok? <==> CostFactor(yearMap, year, option).Ok? && area.Some?
    ensures CostFactor(yearMap, year, option).Err? ==> r == Err(CostFactor(yearMap, year, option).error)
    ensures CostFactor(yearMap, year, option).Ok? && area.None? ==> r == Err(MissingArea(year, option))
    ensures r.Ok? ==> Priced(CostFactor(yearMap, year, option).value, area, Some(r.value))
    ensures r.Ok? && area.value >= 0.0 ==> r.value >= 0.0
  {
    var factor :- CostFactor(yearMap, year, option);
    if area.None? then Err(MissingArea(year, option))
    else
      PriceIsPriced(factor, area.value);
      Ok(Price(factor, area.value) as real)
  }

  lemma PriceIsPriced(factor: real, km2: real)
    ensures Priced(factor, Some(km2), Some(Price(factor, km2) as real))
  {
    var dollars := Price(factor, km2);
    assert (dollars as real).Floor == dollars;
  }

  /** Whole dollars for an area in square kilometres at a cost per acre. */
  function Price(factor: real, km2: real): (dollars: int)
    ensures -0.5 <= dollars as real - ToAcres(km2) as real * factor <= 0.5
    ensures km2 >= 0.0 && factor >= 0.0 ==> dollars >= 0
  {
    var acres := ToAcres(km2);
    assert km2 >= 0.0 && factor >= 0.0 ==> acres >= 0 && acres as real * factor >= 0.0;
    Round(acres as real * factor)
  }

  /** Why a row of `year` and `option` with `area` cannot be priced: the
      failed lookup, or, once the lookup succeeds, the missing area. */
  predicate PricingError(yearMap: YearMap, year: int, option: string, area: Option<real>, e: Error)
  {
    if CostFactor(yearMap, year, option).Err? then e == CostFactor(yearMap, year, option).error
    else area.None? && e == MissingArea(year, option)
  }

  /** A cost row whose cost is the priced area of its own year and option. */
  ghost predicate Costed(yearMap: YearMap, row: CostRow)
  {
    && CostFactor(yearMap, row.year, row.option).Ok?
    && Priced(CostFactor(yearMap, row.year, row.option).value, row.area, row.cost)
  }

  // ---------------------------------------------------------------------------
  // Per-model cost frames
  // ---------------------------------------------------------------------------

  /** The row of one year of one option's file: the mean over the replicates
      of that year, aligned on the year, priced. */
  function FileRow(yearMap: YearMap, csv: Csv, year: int, treatment: string, scenario: string,
                   model: string, option: string): (r: Result<CostRow, Error>)
    ensures r.Ok? <==> CostFactor(yearMap, year, option).Ok? && HasReplicates(csv, year)
    ensures r.Ok? ==> && r.value.year == year && r.value.treatment == treatment && r.value.scenario == scenario
                      && r.value.model == model && r.value.option == option
                      && r.value.area == MeanAt(csv, year) && Costed(yearMap, r.value)
    ensures r.Err? ==> PricingError(yearMap, year, option, MeanAt(csv, year), r.error)
  {
    var area := MeanAt(csv, year);
    var cost :- ComputeRowCost(yearMap, year, option, area);
    Ok(CostRow(year, treatment, scenario, model, option, area, Some(cost)))
  }

  /** A row read from the file of its own option for the given treatment,
      scenario and model: the replicate mean of its year, priced. */
  ghost predicate FromFile(cfg: Settings, files: Files, dataDir: string, yearMap: YearMap,
                           treatment: string, scenario: string, model: string, row: CostRow)
  {
    var path := CostFilename(cfg, dataDir, treatment, scenario, model, row.option);
    && row.treatment == treatment && row.scenario == scenario && row.model == model
    && path in files && row.area == MeanAt(files[path], row.year)
    && Costed(yearMap, row)
  }

  /** The frame of one option, or no rows when its file does not exist. */
  function OptionRows(cfg: Settings, files: Files, dataDir: string, yearMap: YearMap, years: seq<int>,
                      treatment: string, scenario: string, model: string, option: string): (r: Result<seq<CostRow>, Error>)
    ensures r.Ok? <==> (CostFilename(cfg, dataDir, treatment, scenario, model, option) in files ==>
                          forall y :: y in years ==> && CostFactor(yearMap, y, option).Ok?
                                                     && HasReplicates(files[CostFilename(cfg, dataDir, treatment, scenario, model, option)], y))
    ensures r.Ok? ==> |r.value| == (if CostFilename(cfg, dataDir, treatment, scenario, model, option) in files then |years| else 0)
    ensures r.Ok? ==> forall i :: 0 <= i < |r.value| ==>
              && r.value[i].year == years[i] && r.value[i].option == option
              && FromFile(cfg, files, dataDir, yearMap, treatment, scenario, model, r.value[i])
    ensures r.Err? ==> && CostFilename(cfg, dataDir, treatment, scenario, model, option) in files
                       && exists y :: && y in years
                                      && PricingError(yearMap, y, option, MeanAt(files[CostFilename(cfg, dataDir, treatment, scenario, model, option)], y), r.error)
  {
    var path := CostFilename(cfg, dataDir, treatment, scenario, model, option);
    if path in files then
      FrameOrFail(years, y => FileRow(yearMap, files[path], y, treatment, scenario, model, option))
    else Ok([])
  }

  function OptionSteps(cfg: Settings, files: Files, dataDir: string, yearMap: YearMap, years: seq<int>,
                       treatment: string, scenario: string, model: string): string -> Result<seq<CostRow>, Error>
  {
    o => OptionRows(cfg, files, dataDir, yearMap, years, treatment, scenario, model, o)
  }

  /** `get_cost_df`: the frames of the options whose file exists, in option order. */
  function GetCostDf(cfg: Settings, files: Files, dataDir: string, yearMap: YearMap, years: seq<int>,
                     treatment: string, scenario: string, model: string): (r: Result<seq<CostRow>, Error>)
    ensures r.Ok? ==> forall i :: 0 <= i < |r.value| ==>
              && r.value[i].treatment == treatment && r.value[i].scenario == scenario && r.value[i].model == model
  {
    CollectedRunFields(cfg, files, dataDir, yearMap, years, treatment, scenario, model);
    CollectAll(FmoOptionCodes(), OptionSteps(cfg, files, dataDir, yearMap, years, treatment, scenario, model))
  }

  /** The rows collected over the options carry the run's own labels. */
  lemma CollectedRunFields(cfg: Settings, files: Files, dataDir: string, yearMap: YearMap, years: seq<int>,
                           treatment: string, scenario: string, model: string)
    ensures var r := CollectAll(FmoOptionCodes(), OptionSteps(cfg, files, dataDir, yearMap, years, treatment, scenario, model));
            r.Ok? ==> forall i :: 0 <= i < |r.value| ==>
              && r.value[i].treatment == treatment && r.value[i].scenario == scenario && r.value[i].model == model
  {
    var r := CollectAll(FmoOptionCodes(), OptionSteps(cfg, files, dataDir, yearMap, years, treatment, scenario, model));
    CollectedOptionRows(cfg, files, dataDir, yearMap, years, treatment, scenario, model, FmoOptionCodes());
    if r.Ok? {
      forall i | 0 <= i < |r.value|
        ensures r.value[i].treatment == treatment && r.value[i].scenario == scenario && r.value[i].model == model
      {
        assert r.value[i] in r.value;
      }
    }
  }

  /** Reading one run succeeds exactly when every year of an existing file has
      a cost factor and replicates. */
  lemma GetCostDfLookups(cfg: Settings, files: Files, dataDir: string, yearMap: YearMap, years: seq<int>,
                         treatment: string, scenario: string, model: string)
    ensures GetCostDf(cfg, files, dataDir, yearMap, years, treatment, scenario, model).Ok?
            <==> forall o, y ::
                   (o in FmoOptionCodes() && CostFilename(cfg, dataDir, treatment, scenario, model, o) in files && y in years)
                   ==> && CostFactor(yearMap, y, o).Ok?
                       && HasReplicates(files[CostFilename(cfg, dataDir, treatment, scenario, model, o)], y)
  {
    var f := OptionSteps(cfg, files, dataDir, yearMap, years, treatment, scenario, model);
    assert GetCostDf(cfg, files, dataDir, yearMap, years, treatment, scenario, model) == CollectAll(FmoOptionCodes(), f);
    forall o | o in FmoOptionCodes()
      ensures f(o) == OptionRows(cfg, files, dataDir, yearMap, years, treatment, scenario, model, o)
    {
    }
  }

  /** When reading one run fails, it fails with the pricing error of a year of
      an existing option file. */
  lemma GetCostDfError(cfg: Settings, files: Files, dataDir: string, yearMap: YearMap, years: seq<int>,
                       treatment: string, scenario: string, model: string)
    ensures GetCostDf(cfg, files, dataDir, yearMap, years, treatment, scenario, model).Err?
            ==> exists o, y :: && o in FmoOptionCodes() && CostFilename(cfg, dataDir, treatment, scenario, model, o) in files
                               && y in years
                               && PricingError(yearMap, y, o, MeanAt(files[CostFilename(cfg, dataDir, treatment, scenario, model, o)], y),
                                               GetCostDf(cfg, files, dataDir, yearMap, years, treatment, scenario, model).error)
  {
    var f := OptionSteps(cfg, files, dataDir, yearMap, years, treatment, scenario, model);
    var r := GetCostDf(cfg, files, dataDir, yearMap, years, treatment, scenario, model);
    assert r == CollectAll(FmoOptionCodes(), f);
    if r.Err? {
      var o :| o in FmoOptionCodes() && f(o) == Err(r.error);
      assert f(o) == OptionRows(cfg, files, dataDir, yearMap, years, treatment, scenario, model, o);
      var y :| && y in years
               && PricingError(yearMap, y, o, MeanAt(files[CostFilename(cfg, dataDir, treatment, scenario, model, o)], y), r.error);
    }
  }

  /** The rows of `get_cost_df` are exactly one per year of each option whose
      file exists, each the replicate mean of that file's year, priced. */
  lemma GetCostDfRows(cfg: Settings, files: Files, dataDir: string, yearMap: YearMap, years: seq<int>,
                      treatment: string, scenario: string, model: string)
    ensures GetCostDf(cfg, files, dataDir, yearMap, years, treatment, scenario, model).Ok?
            ==> forall row :: row in GetCostDf(cfg, files, dataDir, yearMap, years, treatment, scenario, model).value ==>
                  && row.option in FmoOptionCodes() && row.year in years
                  && FromFile(cfg, files, dataDir, yearMap, treatment, scenario, model, row)
    ensures GetCostDf(cfg, files, dataDir, yearMap, years, treatment, scenario, model).Ok?
            ==> forall o, i ::
                  (o in FmoOptionCodes() && CostFilename(cfg, dataDir, treatment, scenario, model, o) in files && 0 <= i < |years|)
                  ==> exists row :: row in GetCostDf(cfg, files, dataDir, yearMap, years, treatment, scenario, model).value && row.option == o && row.year == years[i]
  {
    CollectedOptionRows(cfg, files, dataDir, yearMap, years, treatment, scenario, model, FmoOptionCodes());
    CollectedOptionYears(cfg, files, dataDir, yearMap, years, treatment, scenario, model, FmoOptionCodes());
  }

  /** The option frames collected over any list of options hold only rows
      of those options' files. */
  lemma CollectedOptionRows(cfg: Settings, files: Files, dataDir: string, yearMap: YearMap, years: seq<int>,
                            treatment: string, scenario: string, model: string, options: seq<string>)
    ensures CollectAll(options, OptionSteps(cfg, files, dataDir, yearMap, years, treatment, scenario, model)).Ok?
            ==> forall row :: row in CollectAll(options, OptionSteps(cfg, files, dataDir, yearMap, years, treatment, scenario, model)).value ==>
                  && row.option in options && row.year in years
                  && FromFile(cfg, files, dataDir, yearMap, treatment, scenario, model, row)
  {
    var f := OptionSteps(cfg, files, dataDir, yearMap, years, treatment, scenario, model);
    var r := CollectAll(options, f);
    CollectAllMembers(options, f);
    if r.Ok? {
      forall row | row in r.value
        ensures row.option in options && row.year in years
        ensures FromFile(cfg, files, dataDir, yearMap, treatment, scenario, model, row)
      {
        var o :| o in options && f(o).Ok? && row in f(o).value;
        var i :| 0 <= i < |f(o).value| && f(o).value[i] == row;
      }
    }
  }

  /** ... and a row for every year of every option whose file exists. */
  lemma CollectedOptionYears(cfg: Settings, files: Files, dataDir: string, yearMap: YearMap, years: seq<int>,
                             treatment: string, scenario: string, model: string, options: seq<string>)
    ensures CollectAll(options, OptionSteps(cfg, files, dataDir, yearMap, years, treatment, scenario, model)).Ok?
            ==> forall o, i ::
                  (o in options && CostFilename(cfg, dataDir, treatment, scenario, model, o) in files && 0 <= i < |years|)
                  ==> exists row :: row in CollectAll(options, OptionSteps(cfg, files, dataDir, yearMap, years, treatment, scenario, model)).value && row.option == o && row.year == years[i]
  {
    var f := OptionSteps(cfg, files, dataDir, yearMap, years, treatment, scenario, model);
    var r := CollectAll(options, f);
    CollectAllMembers(options, f);
    if r.Ok? {
      forall o, i | o in options && CostFilename(cfg, dataDir, treatment, scenario, model, o) in files && 0 <= i < |years|
        ensures exists row :: row in r.value && row.option == o && row.year == years[i]
      {
        var rows := f(o).value;
        assert |rows| == |years|;
        var row := rows[i];
        assert row.option == o && row.year == years[i];
        assert row in rows;
      }
    }
  }

  // ---------------------------------------------------------------------------
  // Five-model averages and totals
  // ---------------------------------------------------------------------------

  type Key = (string, string, string)

  function AreaOf(row: CostRow): Option<real> { row.area }
  function CostOf(row: CostRow): Option<real> { row.cost }

  /** Rows of treatment, scenario and option `k` (the rows averaged for `k`). */
  predicate OfOption(k: Key, row: CostRow)
  {
    row.treatment == k.0 && row.scenario == k.1 && row.option == k.2
  }

  /** Rows of treatment, scenario and model `k` (the rows totalled for `k`). */
  predicate OfModel(k: Key, row: CostRow)
  {
    row.treatment == k.0 && row.scenario == k.1 && row.model == k.2
  }

  function OptionYear(k: Key, year: int): CostRow -> bool
  {
    row => OfOption(k, row) && row.year == year
  }

  function ModelYear(k: Key, year: int): CostRow -> bool
  {
    row => OfModel(k, row) && row.year == year
  }

  /** Some row of treatment, scenario and option `k` has an area in `year`. */
  predicate HasArea(table: seq<CostRow>, k: Key, year: int)
  {
    exists i :: 0 <= i < |table| && OfOption(k, table[i]) && table[i].year == year && table[i].area.Some?
  }

  /** The mean over the option's rows of a year has a value exactly when one
      of those rows has an area. */
  lemma OptionMeanPresent(table: seq<CostRow>, k: Key, year: int)
    ensures MeanSkipNa(Select(table, OptionYear(k, year), AreaOf)).Some? <==> HasArea(table, k, year)
  {
    var areas := Select(table, OptionYear(k, year), AreaOf);
    if HasArea(table, k, year) {
      var i :| 0 <= i < |table| && OfOption(k, table[i]) && table[i].year == year && table[i].area.Some?;
      assert OptionYear(k, year)(table[i]);
      assert AreaOf(table[i]) in areas;
      var j :| 0 <= j < |areas| && areas[j] == table[i].area;
      assert table[i].area.value in Present(areas);
    }
    if |Present(areas)| > 0 {
      assert Present(areas)[0] in Present(areas);
      assert Some(Present(areas)[0]) in areas;
      var i :| 0 <= i < |table| && OptionYear(k, year)(table[i]) && AreaOf(table[i]) == Some(Present(areas)[0]);
    }
  }

  /** The five-model average row of one year: the mean of the areas present
      among that year's rows of the option, priced again; it cannot be priced
      when no row of the option has an area in that year. */
  function AverageRow(yearMap: YearMap, year: int, k: Key, table: seq<CostRow>): (r: Result<CostRow, Error>)
    ensures r.Ok? <==> CostFactor(yearMap, year, k.2).Ok? && HasArea(table, k, year)
    ensures r.Ok? ==> && r.value.year == year && OfOption(k, r.value) && r.value.model == ModelAverage
                      && r.value.area == MeanSkipNa(Select(table, OptionYear(k, year), AreaOf))
                      && Costed(yearMap, r.value)
    ensures r.Err? ==> PricingError(yearMap, year, k.2, MeanSkipNa(Select(table, OptionYear(k, year), AreaOf)), r.error)
  {
    var area := MeanSkipNa(Select(table, OptionYear(k, year), AreaOf));
    OptionMeanPresent(table, k, year);
    var cost :- ComputeRowCost(yearMap, year, k.2, area);
    Ok(CostRow(year, k.0, k.1, ModelAverage, k.2, area, Some(cost)))
  }

  function AverageStep(yearMap: YearMap, years: seq<int>, k: Key, table: seq<CostRow>): Result<seq<CostRow>, Error>
  {
    FrameOrFail(years, y => AverageRow(yearMap, y, k, table))
  }

  function AverageSteps(yearMap: YearMap, years: seq<int>): (Key, seq<CostRow>) -> Result<seq<CostRow>, Error>
  {
    (k, table) => AverageStep(yearMap, years, k, table)
  }

  /** The total row of one year: area and cost summed over that year's rows
      of the model, missing when the model has no row in that year. */
  function TotalRow(year: int, k: Key, table: seq<CostRow>): (row: CostRow)
    ensures row.year == year && OfModel(k, row) && row.option == TotalOption
    ensures row.area.Some? <==> row.cost.Some?
    ensures row.area.Some? <==> exists i :: 0 <= i < |table| && OfModel(k, table[i]) && table[i].year == year
  {
    var rows := Select(table, ModelYear(k, year), AreaOf);
    var costs := Select(table, ModelYear(k, year), CostOf);
    SelectSameRows(table, ModelYear(k, year), AreaOf, CostOf);
    SelectEmpty(table, ModelYear(k, year), AreaOf);
    CostRow(year, k.0, k.1, k.2, TotalOption, GroupSum(rows), GroupSum(costs))
  }

  /** The totals of a table split in two are the totals of the parts added,
      a part with no row of the model in that year adding nothing. */
  lemma TotalRowSplits(year: int, k: Key, a: seq<CostRow>, b: seq<CostRow>)
    ensures TotalRow(year, k, a + b).area == JoinSums(TotalRow(year, k, a).area, TotalRow(year, k, b).area)
    ensures TotalRow(year, k, a + b).cost == JoinSums(TotalRow(year, k, a).cost, TotalRow(year, k, b).cost)
  {
    SelectConcat(a, b, ModelYear(k, year), AreaOf);
    SelectConcat(a, b, ModelYear(k, year), CostOf);
    GroupSumConcat(Select(a, ModelYear(k, year), AreaOf), Select(b, ModelYear(k, year), AreaOf));
    GroupSumConcat(Select(a, ModelYear(k, year), CostOf), Select(b, ModelYear(k, year), CostOf));
  }

  /** Rows of other models or years leave the totals unchanged. */
  lemma TotalRowIgnoresOthers(year: int, k: Key, table: seq<CostRow>, extra: seq<CostRow>)
    requires forall i :: 0 <= i < |extra| ==> !(OfModel(k, extra[i]) && extra[i].year == year)
    ensures TotalRow(year, k, table + extra) == TotalRow(year, k, table)
  {
    forall i | 0 <= i < |extra|
      ensures !ModelYear(k, year)(extra[i])
    {
    }
    SelectIgnoresRejected(table, extra, ModelYear(k, year), AreaOf);
    SelectIgnoresRejected(table, extra, ModelYear(k, year), CostOf);
  }

  /** When every row is one of the model's rows of the year, with areas `vs`
      and costs `cs`, the total area is the sum of `vs` and the total cost the
      sum of `cs`. */
  lemma TotalRowSums(year: int, k: Key, table: seq<CostRow>, vs: seq<real>, cs: seq<real>)
    requires |table| > 0 && |vs| == |table| && |cs| == |table|
    requires forall i :: 0 <= i < |table| ==>
               && OfModel(k, table[i]) && table[i].year == year
               && table[i].area == Some(vs[i]) && table[i].cost == Some(cs[i])
    ensures TotalRow(year, k, table).area == Some(Sum(vs))
    ensures TotalRow(year, k, table).cost == Some(Sum(cs))
  {
    forall i | 0 <= i < |table|
      ensures ModelYear(k, year)(table[i]) && AreaOf(table[i]) == Some(vs[i]) && CostOf(table[i]) == Some(cs[i])
    {
    }
    GroupSumOfSelected(table, ModelYear(k, year), AreaOf, vs);
    GroupSumOfSelected(table, ModelYear(k, year), CostOf, cs);
  }

  function TotalStep(years: seq<int>, k: Key, table: seq<CostRow>): Result<seq<CostRow>, Error>
  {
    Ok(seq(|years|, i requires 0 <= i < |years| => TotalRow(years[i], k, table)))
  }

  function TotalSteps(years: seq<int>): (Key, seq<CostRow>) -> Result<seq<CostRow>, Error>
  {
    (k, table) => TotalStep(years, k, table)
  }

  /** Each key's averages computed from one fixed table. */
  function AveragesFrom(yearMap: YearMap, years: seq<int>, table: seq<CostRow>): Key -> Result<seq<CostRow>, Error>
  {
    k => AverageStep(yearMap, years, k, table)
  }

  /** Each key's totals computed from one fixed table. */
  function TotalsFrom(years: seq<int>, table: seq<CostRow>): Key -> Result<seq<CostRow>, Error>
  {
    k => TotalStep(years, k, table)
  }

  /** The treatment-scenario-option keys of the averaging loop. */
  function AverageKeys(): seq<Key>
  {
    Cross3(TreatmentCodes(), ScenarioCodes(), FmoOptionCodes())
  }

  /** The treatment-scenario-model keys of the totalling loop, the average included. */
  function TotalKeys(): seq<Key>
  {
    Cross3(TreatmentCodes(), ScenarioCodes(), ModelCodes() + [ModelAverage])
  }

  /** The historical rows: the one historical run, which has no model. */
  function HistoricalRows(cfg: Settings, files: Files, dataDir: string, yearMap: YearMap): Result<seq<CostRow>, Error>
  {
    GetCostDf(cfg, files, dataDir, yearMap, cfg.historicalYears, HistoricalTreatment, HistoricalScenario, "")
  }

  /** The future rows, in treatment, scenario, model order. */
  function FutureRows(cfg: Settings, files: Files, dataDir: string, yearMap: YearMap): Result<seq<CostRow>, Error>
  {
    CollectAll(FutureKeys(), FutureFrames(cfg, files, dataDir, yearMap))
  }

  /** The historical rows, then the future rows. */
  function BaseRows(cfg: Settings, files: Files, dataDir: string, yearMap: YearMap): Result<seq<CostRow>, Error>
  {
    var hist :- HistoricalRows(cfg, files, dataDir, yearMap);
    var future :- FutureRows(cfg, files, dataDir, yearMap);
    Ok(hist + future)
  }

  /** The treatment-scenario-model keys of the future runs. */
  function FutureKeys(): seq<Key>
  {
    Cross3(TreatmentCodes(), ScenarioCodes(), ModelCodes())
  }

  function FutureFrames(cfg: Settings, files: Files, dataDir: string, yearMap: YearMap): Key -> Result<seq<CostRow>, Error>
  {
    (k: Key) => GetCostDf(cfg, files, dataDir, yearMap, cfg.futureYears, k.0, k.1, k.2)
  }

  /** `process`: draw the year map, read the per-model rows, then run the
      loops, which append each new frame to the table that the next key filters. */
  function Process(cfg: Settings, files: Files, dataDir: string, draws: seq<CostYear>): (r: Result<seq<CostRow>, Error>)
    requires |draws| == EndMappedYear - FirstMappedYear
    ensures BaseRows(cfg, files, dataDir, RandomCostMap(draws)).Err? ==> r == Err(BaseRows(cfg, files, dataDir, RandomCostMap(draws)).error)
    ensures r.Ok? ==> && BaseRows(cfg, files, dataDir, RandomCostMap(draws)).Ok?
                      && |BaseRows(cfg, files, dataDir, RandomCostMap(draws)).value| <= |r.value|
                      && r.value[..|BaseRows(cfg, files, dataDir, RandomCostMap(draws)).value|] == BaseRows(cfg, files, dataDir, RandomCostMap(draws)).value
  {
    Run(cfg, files, dataDir, RandomCostMap(draws))
  }

  /** `process` once the year map is drawn. */
  function Run(cfg: Settings, files: Files, dataDir: string, yearMap: YearMap): (r: Result<seq<CostRow>, Error>)
    ensures BaseRows(cfg, files, dataDir, yearMap).Err? ==> r == Err(BaseRows(cfg, files, dataDir, yearMap).error)
    ensures r.Ok? ==> && BaseRows(cfg, files, dataDir, yearMap).Ok?
                      && |BaseRows(cfg, files, dataDir, yearMap).value| <= |r.value|
                      && r.value[..|BaseRows(cfg, files, dataDir, yearMap).value|] == BaseRows(cfg, files, dataDir, yearMap).value
  {
    var base :- BaseRows(cfg, files, dataDir, yearMap);
    Aggregate(yearMap, cfg.futureYears, base)
  }

  /** The averaging loop over the per-model rows, then the totalling loop. */
  function Aggregate(yearMap: YearMap, years: seq<int>, base: seq<CostRow>): (r: Result<seq<CostRow>, Error>)
    ensures r.Ok? ==> |base| <= |r.value| && r.value[..|base|] == base
  {
    var averaged :- AppendLoop(AverageKeys(), base, AverageSteps(yearMap, years));
    var r := AppendLoop(TotalKeys(), averaged, TotalSteps(years));
    assert r.Ok? ==> r.value[..|base|] == averaged[..|base|];
    r
  }

  /** Reference definition: each average is computed from the per-model rows
      alone and each total from the per-model and average rows alone. */
  function ProcessBatch(cfg: Settings, files: Files, dataDir: string, draws: seq<CostYear>): Result<seq<CostRow>, Error>
    requires |draws| == EndMappedYear - FirstMappedYear
  {
    RunBatch(cfg, files, dataDir, RandomCostMap(draws))
  }

  function RunBatch(cfg: Settings, files: Files, dataDir: string, yearMap: YearMap): Result<seq<CostRow>, Error>
  {
    var base :- BaseRows(cfg, files, dataDir, yearMap);
    AggregateBatch(yearMap, cfg.futureYears, base)
  }

  function AggregateBatch(yearMap: YearMap, years: seq<int>, base: seq<CostRow>): Result<seq<CostRow>, Error>
  {
    var averages :- CollectAll(AverageKeys(), AveragesFrom(yearMap, years, base));
    var totals :- CollectAll(TotalKeys(), TotalsFrom(years, base + averages));
    Ok(base + averages + totals)
  }
  // ---------------------------------------------------------------------------
  // The loops read only their own key's rows
  // ---------------------------------------------------------------------------

  lemma AverageStepLocal(yearMap: YearMap, years: seq<int>, k: Key, table: seq<CostRow>, extra: seq<CostRow>)
    requires Untouched(OfOption, k, extra)
    ensures AverageStep(yearMap, years, k, table + extra) == AverageStep(yearMap, years, k, table)
  {
    forall y | y in years
      ensures AverageRow(yearMap, y, k, table + extra) == AverageRow(yearMap, y, k, table)
    {
      SelectIgnoresRejected(table, extra, OptionYear(k, y), AreaOf);
    }
    FrameOrFailExt(years, y => AverageRow(yearMap, y, k, table + extra), y => AverageRow(yearMap, y, k, table));
  }

  lemma AverageStepsAreLocal(yearMap: YearMap, years: seq<int>)
    ensures LocalStep(AverageSteps(yearMap, years), OfOption)
    ensures SeparateOutputs(AverageSteps(yearMap, years), OfOption)
  {
    forall k, t, extra | Untouched(OfOption, k, extra)
      ensures AverageSteps(yearMap, years)(k, t + extra) == AverageSteps(yearMap, years)(k, t)
    {
      AverageStepLocal(yearMap, years, k, t, extra);
    }
    forall k, k', t | k != k' && AverageSteps(yearMap, years)(k, t).Ok?
      ensures Untouched(OfOption, k', AverageSteps(yearMap, years)(k, t).value)
    {
      var rows := AverageStep(yearMap, years, k, t).value;
      forall i | 0 <= i < |rows|
        ensures !OfOption(k', rows[i])
      {
        assert AverageRow(yearMap, years[i], k, t) == Ok(rows[i]);
      }
    }
  }

  lemma TotalStepLocal(years: seq<int>, k: Key, table: seq<CostRow>, extra: seq<CostRow>)
    requires Untouched(OfModel, k, extra)
    ensures TotalStep(years, k, table + extra) == TotalStep(years, k, table)
  {
    forall i | 0 <= i < |years|
      ensures TotalRow(years[i], k, table + extra) == TotalRow(years[i], k, table)
    {
      SelectIgnoresRejected(table, extra, ModelYear(k, years[i]), AreaOf);
      SelectIgnoresRejected(table, extra, ModelYear(k, years[i]), CostOf);
    }
    var s1, s2 := TotalStep(years, k, table + extra).value, TotalStep(years, k, table).value;
    assert |s1| == |s2|;
    assert forall i :: 0 <= i < |s1| ==> s1[i] == s2[i];
    assert s1 == s2;
  }

  lemma TotalStepsAreLocal(years: seq<int>)
    ensures LocalStep(TotalSteps(years), OfModel)
    ensures SeparateOutputs(TotalSteps(years), OfModel)
  {
    forall k, t, extra | Untouched(OfModel, k, extra)
      ensures TotalSteps(years)(k, t + extra) == TotalSteps(years)(k, t)
    {
      TotalStepLocal(years, k, t, extra);
    }
  }

  lemma AverageKeysDistinct()
    ensures Distinct(AverageKeys())
  {
    Cross3Distinct(TreatmentCodes(), ScenarioCodes(), FmoOptionCodes());
  }

  lemma TotalKeysDistinct()
    ensures Distinct(TotalKeys())
  {
    var models := ModelCodes() + [ModelAverage];
    SentinelsAreNotCatalogued();
    forall i, j | 0 <= i < j < |models|
      ensures models[i] != models[j]
    {
      if j == |models| - 1 {
        assert models[i] in ModelCodes();
      }
    }
    Cross3Distinct(TreatmentCodes(), ScenarioCodes(), models);
  }

  /** The averaging loop, which appends inside the loop, equals the averages
      of all keys computed from the table it starts with. */
  lemma AveragingIsBatch(keys: seq<Key>, yearMap: YearMap, years: seq<int>, base: seq<CostRow>)
    requires Distinct(keys)
    ensures AppendLoop(keys, base, AverageSteps(yearMap, years))
            == AppendBatch(base, CollectAll(keys, AveragesFrom(yearMap, years, base)))
  {
    var averaging := AverageSteps(yearMap, years);
    AverageStepsAreLocal(yearMap, years);
    assert base + [] == base;
    AppendLoopIsBatch(keys, base, [], averaging, OfOption);
    CollectAllExt(keys, AtTable(averaging, base), AveragesFrom(yearMap, years, base));
  }

  /** The same for the totalling loop. */
  lemma TotallingIsBatch(keys: seq<Key>, years: seq<int>, base: seq<CostRow>)
    requires Distinct(keys)
    ensures AppendLoop(keys, base, TotalSteps(years))
            == AppendBatch(base, CollectAll(keys, TotalsFrom(years, base)))
  {
    var totalling := TotalSteps(years);
    TotalStepsAreLocal(years);
    assert base + [] == base;
    AppendLoopIsBatch(keys, base, [], totalling, OfModel);
    CollectAllExt(keys, AtTable(totalling, base), TotalsFrom(years, base));
  }

  /** Appending each average or total to the table inside the loop gives
      the same table as computing all averages from the per-model rows and all
      totals from the per-model and average rows. */
  lemma AggregateIsBatch(yearMap: YearMap, years: seq<int>, base: seq<CostRow>)
    ensures Aggregate(yearMap, years, base) == AggregateBatch(yearMap, years, base)
  {
    AverageKeysDistinct();
    AveragingIsBatch(AverageKeys(), yearMap, years, base);
    var a := CollectAll(AverageKeys(), AveragesFrom(yearMap, years, base));
    if a.Ok? {
      TotalsAreBatch(yearMap, years, base, a.value);
    } else {
      assert AppendLoop(AverageKeys(), base, AverageSteps(yearMap, years)) == Err(a.error);
    }
  }

  /** Once the averages are in, the totalling loop gives the batch totals. */
  lemma TotalsAreBatch(yearMap: YearMap, years: seq<int>, base: seq<CostRow>, averages: seq<CostRow>)
    requires AppendLoop(AverageKeys(), base, AverageSteps(yearMap, years)) == Ok(base + averages)
    requires CollectAll(AverageKeys(), AveragesFrom(yearMap, years, base)) == Ok(averages)
    ensures Aggregate(yearMap, years, base) == AggregateBatch(yearMap, years, base)
  {
    var averaged := base + averages;
    TotalKeysDistinct();
    TotallingIsBatch(TotalKeys(), years, averaged);
    var t := CollectAll(TotalKeys(), TotalsFrom(years, averaged));
    assert Aggregate(yearMap, years, base) == AppendLoop(TotalKeys(), averaged, TotalSteps(years));
    assert AggregateBatch(yearMap, years, base) == AppendBatch(averaged, t);
  }

  lemma ProcessIsBatch(cfg: Settings, files: Files, dataDir: string, draws: seq<CostYear>)
    requires |draws| == EndMappedYear - FirstMappedYear
    ensures Process(cfg, files, dataDir, draws) == ProcessBatch(cfg, files, dataDir, draws)
  {
    RunIsBatch(cfg, files, dataDir, RandomCostMap(draws));
  }

  lemma RunIsBatch(cfg: Settings, files: Files, dataDir: string, yearMap: YearMap)
    ensures Run(cfg, files, dataDir, yearMap) == RunBatch(cfg, files, dataDir, yearMap)
  {
    var b := BaseRows(cfg, files, dataDir, yearMap);
    if b.Ok? {
      AggregateIsBatch(yearMap, cfg.futureYears, b.value);
    }
  }

  // ---------------------------------------------------------------------------
  // When a run completes, and how it fails
  // ---------------------------------------------------------------------------

  /** A year outside the years the random map covers. */
  predicate Unmapped(e: Error)
  {
    e.UnknownYear? && !(FirstMappedYear <= e.year < EndMappedYear)
  }

  /** How a run stops once the year map has the drawn shape: on a year the map
      does not cover, or on a row of a known option with no area. */
  predicate CostFailure(e: Error)
  {
    Unmapped(e) || (e.MissingArea? && e.option in FmoOptionCodes())
  }

  /** The shape of the random map: the simulation years, each to a known cost year. */
  ghost predicate MapsSimulationYears(yearMap: YearMap)
  {
    YearMapOk(yearMap) && forall y :: y in yearMap <==> FirstMappedYear <= y < EndMappedYear
  }

  /** Every year of `years` has a reference cost year. */
  predicate YearsMapped(years: seq<int>)
  {
    forall y :: y in years ==> FirstMappedYear <= y < EndMappedYear
  }

  predicate FutureYearsMapped(cfg: Settings)
  {
    YearsMapped(cfg.futureYears)
  }

  /** Every year read from an existing file of one run has a reference year
      and replicates in that file. */
  ghost predicate RunReadable(cfg: Settings, files: Files, dataDir: string, years: seq<int>,
                              treatment: string, scenario: string, model: string)
  {
    forall o, y ::
      (o in FmoOptionCodes() && CostFilename(cfg, dataDir, treatment, scenario, model, o) in files && y in years)
      ==> && FirstMappedYear <= y < EndMappedYear
          && HasReplicates(files[CostFilename(cfg, dataDir, treatment, scenario, model, o)], y)
  }

  /** The historical run reads over the historical years. */
  ghost predicate HistoricalReadable(cfg: Settings, files: Files, dataDir: string)
  {
    RunReadable(cfg, files, dataDir, cfg.historicalYears, HistoricalTreatment, HistoricalScenario, "")
  }

  /** Every future run reads over the future years. */
  ghost predicate FutureReadable(cfg: Settings, files: Files, dataDir: string)
  {
    forall k :: k in FutureKeys() ==> RunReadable(cfg, files, dataDir, cfg.futureYears, k.0, k.1, k.2)
  }

  /** Some model has the file of treatment, scenario and option `k`. */
  ghost predicate Covered(cfg: Settings, files: Files, dataDir: string, k: Key)
  {
    exists m :: m in ModelCodes() && CostFilename(cfg, dataDir, k.0, k.1, m, k.2) in files
  }

  /** Every key of `keys` has some model's file. */
  ghost predicate AllCovered(cfg: Settings, files: Files, dataDir: string, keys: seq<Key>)
  {
    forall k :: k in keys ==> Covered(cfg, files, dataDir, k)
  }

  /** When there are future years, every treatment, scenario and option has
      the file of at least one model, so that each has an area to average. */
  ghost predicate OptionsCovered(cfg: Settings, files: Files, dataDir: string)
  {
    |cfg.futureYears| > 0 ==> AllCovered(cfg, files, dataDir, AverageKeys())
  }

  /** With a valid year map, the only failure of a cost lookup for a known
      option is a year the map does not cover. */
  lemma CostFactorFails(yearMap: YearMap, year: int, option: string)
    requires YearMapOk(yearMap) && option in FmoOptionCodes()
    ensures CostFactor(yearMap, year, option).Err? <==> year !in yearMap
    ensures CostFactor(yearMap, year, option).Err? ==> CostFactor(yearMap, year, option).error == UnknownYear(year)
  {
  }

  /** With a map of the drawn shape, a row of a known option that cannot be
      priced fails on an unmapped year or a missing area. */
  lemma PricingFails(yearMap: YearMap, year: int, option: string, area: Option<real>, e: Error)
    requires MapsSimulationYears(yearMap) && option in FmoOptionCodes()
    requires PricingError(yearMap, year, option, area, e)
    ensures CostFailure(e)
  {
    CostFactorFails(yearMap, year, option);
  }

  /** Reading one run's files succeeds exactly when every year of every
      existing file is mapped and has replicates there, and otherwise fails
      on an unmapped year or a missing area. */
  lemma GetCostDfOk(cfg: Settings, files: Files, dataDir: string, yearMap: YearMap, years: seq<int>,
                    treatment: string, scenario: string, model: string)
    requires MapsSimulationYears(yearMap)
    ensures GetCostDf(cfg, files, dataDir, yearMap, years, treatment, scenario, model).Ok?
            <==> RunReadable(cfg, files, dataDir, years, treatment, scenario, model)
  {
    GetCostDfLookups(cfg, files, dataDir, yearMap, years, treatment, scenario, model);
    if RunReadable(cfg, files, dataDir, years, treatment, scenario, model) {
      forall o, y | o in FmoOptionCodes() && CostFilename(cfg, dataDir, treatment, scenario, model, o) in files && y in years
        ensures CostFactor(yearMap, y, o).Ok?
      {
        CostFactorFails(yearMap, y, o);
      }
    } else {
      var o, y :| && o in FmoOptionCodes() && CostFilename(cfg, dataDir, treatment, scenario, model, o) in files && y in years
                  && !(FirstMappedYear <= y < EndMappedYear
                       && HasReplicates(files[CostFilename(cfg, dataDir, treatment, scenario, model, o)], y));
      CostFactorFails(yearMap, y, o);
    }
  }

  /** With a map of the drawn shape, reading one run can only fail on an
      unmapped year or a missing area. */
  lemma GetCostDfFails(cfg: Settings, files: Files, dataDir: string, yearMap: YearMap, years: seq<int>,
                       treatment: string, scenario: string, model: string)
    requires MapsSimulationYears(yearMap)
    ensures GetCostDf(cfg, files, dataDir, yearMap, years, treatment, scenario, model).Err?
            ==> CostFailure(GetCostDf(cfg, files, dataDir, yearMap, years, treatment, scenario, model).error)
  {
    GetCostDfError(cfg, files, dataDir, yearMap, years, treatment, scenario, model);
    var r := GetCostDf(cfg, files, dataDir, yearMap, years, treatment, scenario, model);
    if r.Err? {
      var o, y :| && o in FmoOptionCodes() && CostFilename(cfg, dataDir, treatment, scenario, model, o) in files
                  && y in years
                  && PricingError(yearMap, y, o, MeanAt(files[CostFilename(cfg, dataDir, treatment, scenario, model, o)], y), r.error);
      PricingFails(yearMap, y, o, MeanAt(files[CostFilename(cfg, dataDir, treatment, scenario, model, o)], y), r.error);
    }
  }

  lemma FutureFrameOk(cfg: Settings, files: Files, dataDir: string, yearMap: YearMap, k: Key)
    requires MapsSimulationYears(yearMap)
    ensures FutureFrames(cfg, files, dataDir, yearMap)(k).Ok?
            <==> RunReadable(cfg, files, dataDir, cfg.futureYears, k.0, k.1, k.2)
    ensures FutureFrames(cfg, files, dataDir, yearMap)(k).Err?
            ==> CostFailure(FutureFrames(cfg, files, dataDir, yearMap)(k).error)
  {
    GetCostDfOk(cfg, files, dataDir, yearMap, cfg.futureYears, k.0, k.1, k.2);
    GetCostDfFails(cfg, files, dataDir, yearMap, cfg.futureYears, k.0, k.1, k.2);
  }

  /** The future runs of a list of keys all read exactly when each of them
      is readable. */
  lemma FutureFramesOk(keys: seq<Key>, cfg: Settings, files: Files, dataDir: string, yearMap: YearMap)
    requires MapsSimulationYears(yearMap)
    ensures CollectAll(keys, FutureFrames(cfg, files, dataDir, yearMap)).Ok?
            <==> forall k :: k in keys ==> RunReadable(cfg, files, dataDir, cfg.futureYears, k.0, k.1, k.2)
  {
    var f := FutureFrames(cfg, files, dataDir, yearMap);
    forall k | k in keys
      ensures f(k).Ok? <==> RunReadable(cfg, files, dataDir, cfg.futureYears, k.0, k.1, k.2)
    {
      FutureFrameOk(cfg, files, dataDir, yearMap, k);
    }
  }

  /** A future run fails only on an unmapped year or a missing area. */
  lemma FutureFramesFail(keys: seq<Key>, cfg: Settings, files: Files, dataDir: string, yearMap: YearMap)
    requires MapsSimulationYears(yearMap)
    ensures CollectAll(keys, FutureFrames(cfg, files, dataDir, yearMap)).Err?
            ==> CostFailure(CollectAll(keys, FutureFrames(cfg, files, dataDir, yearMap)).error)
  {
    var f := FutureFrames(cfg, files, dataDir, yearMap);
    forall k | k in keys && f(k).Err?
      ensures CostFailure(f(k).error)
    {
      FutureFrameOk(cfg, files, dataDir, yearMap, k);
    }
    CollectAllErr(keys, f, CostFailure);
  }

  /** Every year is mapped, and some row of the option `k` in `table` has
      an area in it. */
  predicate AverageReady(yearMap: YearMap, years: seq<int>, k: Key, table: seq<CostRow>)
  {
    forall y :: y in years ==> y in yearMap && HasArea(table, k, y)
  }

  /** The averages of one option complete exactly when every year is mapped
      and some row of the option has an area in it. */
  lemma AverageStepOk(yearMap: YearMap, years: seq<int>, k: Key, table: seq<CostRow>)
    requires MapsSimulationYears(yearMap) && k.2 in FmoOptionCodes()
    ensures AverageStep(yearMap, years, k, table).Ok? <==> AverageReady(yearMap, years, k, table)
    ensures AverageStep(yearMap, years, k, table).Err? ==> CostFailure(AverageStep(yearMap, years, k, table).error)
  {
    forall y | y in years
      ensures AverageRow(yearMap, y, k, table).Ok? <==> y in yearMap && HasArea(table, k, y)
    {
      CostFactorFails(yearMap, y, k.2);
    }
    var r := AverageStep(yearMap, years, k, table);
    if r.Err? {
      var y :| y in years && AverageRow(yearMap, y, k, table) == Err(r.error);
      PricingFails(yearMap, y, k.2, MeanSkipNa(Select(table, OptionYear(k, y), AreaOf)), r.error);
    }
  }

  /** The averaging loop over distinct option keys completes exactly when
      every key is ready in the table it starts from, and otherwise fails on
      an unmapped year or a missing area. */
  lemma AveragingOk(keys: seq<Key>, yearMap: YearMap, years: seq<int>, table: seq<CostRow>)
    requires MapsSimulationYears(yearMap)
    requires Distinct(keys) && forall k :: k in keys ==> k.2 in FmoOptionCodes()
    ensures AppendLoop(keys, table, AverageSteps(yearMap, years)).Ok?
            <==> forall k :: k in keys ==> AverageReady(yearMap, years, k, table)
    ensures AppendLoop(keys, table, AverageSteps(yearMap, years)).Err? ==>
              CostFailure(AppendLoop(keys, table, AverageSteps(yearMap, years)).error)
  {
    AveragingIsBatch(keys, yearMap, years, table);
    var f := AveragesFrom(yearMap, years, table);
    var c := CollectAll(keys, f);
    assert AppendLoop(keys, table, AverageSteps(yearMap, years)) == AppendBatch(table, c);
    forall k | k in keys
      ensures f(k).Ok? <==> AverageReady(yearMap, years, k, table)
      ensures f(k).Err? ==> CostFailure(f(k).error)
    {
      assert f(k) == AverageStep(yearMap, years, k, table);
      AverageStepOk(yearMap, years, k, table);
    }
    CollectAllErr(keys, f, CostFailure);
  }

  /** Every key of `keys` has an area in every year of `years`. */
  predicate AllHaveAreas(keys: seq<Key>, years: seq<int>, table: seq<CostRow>)
  {
    forall k, y :: k in keys && y in years ==> HasArea(table, k, y)
  }

  /** Every key of a non-empty list is ready exactly when every year is
      mapped and every key has an area in every year. */
  lemma AllReady(yearMap: YearMap, years: seq<int>, keys: seq<Key>, table: seq<CostRow>)
    requires MapsSimulationYears(yearMap) && |keys| > 0
    ensures (forall k :: k in keys ==> AverageReady(yearMap, years, k, table))
            <==> YearsMapped(years) && AllHaveAreas(keys, years, table)
  {
    if forall k :: k in keys ==> AverageReady(yearMap, years, k, table) {
      assert keys[0] in keys;
      assert AverageReady(yearMap, years, keys[0], table);
    }
  }

  /** The totalling loop never fails. */
  lemma TotallingOk(keys: seq<Key>, years: seq<int>, table: seq<CostRow>)
    ensures AppendLoop(keys, table, TotalSteps(years)).Ok?
  {
    AppendLoopOk(keys, table, TotalSteps(years));
  }

  lemma AverageKeysOptions()
    ensures |AverageKeys()| > 0
    ensures forall k :: k in AverageKeys() ==> k.0 in TreatmentCodes() && k.1 in ScenarioCodes() && k.2 in FmoOptionCodes()
  {
    var t, s, o := TreatmentCodes(), ScenarioCodes(), FmoOptionCodes();
    assert |t| == 3 && |s| == 3 && |o| == 4;
    Cross3Has(t, s, o);
    assert |AverageKeys()| == |t| * (|s| * |o|);
    forall k | k in AverageKeys()
      ensures k.0 in t && k.1 in s && k.2 in o
    {
      assert k == (k.0, k.1, k.2);
    }
  }

  /** The aggregation completes exactly when every future year is mapped and
      every treatment, scenario and option has an area in each of them, and
      otherwise fails on an unmapped year or a missing area. */
  lemma AggregateOk(yearMap: YearMap, years: seq<int>, base: seq<CostRow>)
    requires MapsSimulationYears(yearMap)
    ensures Aggregate(yearMap, years, base).Ok? <==> YearsMapped(years) && AllHaveAreas(AverageKeys(), years, base)
    ensures Aggregate(yearMap, years, base).Err? ==> CostFailure(Aggregate(yearMap, years, base).error)
  {
    AverageKeysOptions();
    AverageKeysDistinct();
    AveragingOk(AverageKeys(), yearMap, years, base);
    AllReady(yearMap, years, AverageKeys(), base);
    var a := AppendLoop(AverageKeys(), base, AverageSteps(yearMap, years));
    if a.Ok? {
      TotallingOk(TotalKeys(), years, a.value);
    }
  }

  /** The historical run reads exactly when it is readable, and otherwise
      fails on an unmapped year or a missing area. */
  lemma HistoricalRowsOk(cfg: Settings, files: Files, dataDir: string, yearMap: YearMap)
    requires MapsSimulationYears(yearMap)
    ensures HistoricalRows(cfg, files, dataDir, yearMap).Ok? <==> HistoricalReadable(cfg, files, dataDir)
    ensures HistoricalRows(cfg, files, dataDir, yearMap).Err?
            ==> CostFailure(HistoricalRows(cfg, files, dataDir, yearMap).error)
  {
    GetCostDfOk(cfg, files, dataDir, yearMap, cfg.historicalYears, HistoricalTreatment, HistoricalScenario, "");
    GetCostDfFails(cfg, files, dataDir, yearMap, cfg.historicalYears, HistoricalTreatment, HistoricalScenario, "");
  }

  /** The per-model rows read exactly when the historical run and every
      future run are readable. */
  lemma BaseRowsOk(cfg: Settings, files: Files, dataDir: string, yearMap: YearMap)
    requires MapsSimulationYears(yearMap)
    ensures BaseRows(cfg, files, dataDir, yearMap).Ok?
            <==> HistoricalReadable(cfg, files, dataDir) && FutureReadable(cfg, files, dataDir)
  {
    HistoricalRowsOk(cfg, files, dataDir, yearMap);
    FutureFramesOk(FutureKeys(), cfg, files, dataDir, yearMap);
  }

  /** Reading the per-model rows fails only on an unmapped year or a missing area. */
  lemma BaseRowsFail(cfg: Settings, files: Files, dataDir: string, yearMap: YearMap)
    requires MapsSimulationYears(yearMap)
    ensures BaseRows(cfg, files, dataDir, yearMap).Err?
            ==> CostFailure(BaseRows(cfg, files, dataDir, yearMap).error)
  {
    if HistoricalRows(cfg, files, dataDir, yearMap).Err? {
      HistoricalRowsOk(cfg, files, dataDir, yearMap);
    } else {
      FutureRowsFail(cfg, files, dataDir, yearMap);
    }
  }

  lemma FutureRowsFail(cfg: Settings, files: Files, dataDir: string, yearMap: YearMap)
    requires MapsSimulationYears(yearMap)
    ensures FutureRows(cfg, files, dataDir, yearMap).Err?
            ==> CostFailure(FutureRows(cfg, files, dataDir, yearMap).error)
  {
    FutureFramesFail(FutureKeys(), cfg, files, dataDir, yearMap);
  }

  /** No historical row has a treatment of the averaging loop. */
  lemma HistoricalRowsNotAveraged(cfg: Settings, files: Files, dataDir: string, yearMap: YearMap)
    requires HistoricalRows(cfg, files, dataDir, yearMap).Ok?
    ensures forall i :: 0 <= i < |HistoricalRows(cfg, files, dataDir, yearMap).value| ==>
              HistoricalRows(cfg, files, dataDir, yearMap).value[i].treatment !in TreatmentCodes()
  {
    SentinelsAreNotCatalogued();
  }

  /** A future row with an area in a year of the averaging loop comes from
      an existing file of some model. */
  lemma FutureAreaHasFile(cfg: Settings, files: Files, dataDir: string, yearMap: YearMap, k: Key, row: CostRow)
    requires FutureRows(cfg, files, dataDir, yearMap).Ok? && row in FutureRows(cfg, files, dataDir, yearMap).value
    requires OfOption(k, row)
    ensures Covered(cfg, files, dataDir, k)
  {
    var frames := FutureFrames(cfg, files, dataDir, yearMap);
    CollectAllMembers(FutureKeys(), frames);
    var key :| key in FutureKeys() && frames(key).Ok? && row in frames(key).value;
    GetCostDfRows(cfg, files, dataDir, yearMap, cfg.futureYears, key.0, key.1, key.2);
    Cross3Has(TreatmentCodes(), ScenarioCodes(), ModelCodes());
    assert key == (key.0, key.1, key.2);
    assert key.2 in ModelCodes();
    assert CostFilename(cfg, dataDir, k.0, k.1, key.2, k.2) in files;
  }

  /** An existing file of some model gives a future row with an area in
      every future year. */
  lemma FileGivesFutureArea(cfg: Settings, files: Files, dataDir: string, yearMap: YearMap, k: Key, m: string, y: int)
    requires FutureRows(cfg, files, dataDir, yearMap).Ok?
    requires k.0 in TreatmentCodes() && k.1 in ScenarioCodes() && k.2 in FmoOptionCodes()
    requires m in ModelCodes() && CostFilename(cfg, dataDir, k.0, k.1, m, k.2) in files
    requires y in cfg.futureYears
    ensures HasArea(FutureRows(cfg, files, dataDir, yearMap).value, k, y)
  {
    var frames := FutureFrames(cfg, files, dataDir, yearMap);
    var future := FutureRows(cfg, files, dataDir, yearMap).value;
    var key := (k.0, k.1, m);
    Cross3Has(TreatmentCodes(), ScenarioCodes(), ModelCodes());
    assert key in FutureKeys();
    CollectAllMembers(FutureKeys(), frames);
    assert frames(key) == GetCostDf(cfg, files, dataDir, yearMap, cfg.futureYears, k.0, k.1, m);
    GetCostDfRows(cfg, files, dataDir, yearMap, cfg.futureYears, k.0, k.1, m);
    var j :| 0 <= j < |cfg.futureYears| && cfg.futureYears[j] == y;
    var row :| row in frames(key).value && row.option == k.2 && row.year == cfg.futureYears[j];
    assert row in future;
    var i :| 0 <= i < |future| && future[i] == row;
    assert OfOption(k, future[i]) && future[i].year == y && future[i].area.Some?;
  }

  /** Rows of another treatment in front of a table add no area to `k`. */
  lemma AreasOfParts(hist: seq<CostRow>, future: seq<CostRow>, k: Key, y: int)
    requires forall i :: 0 <= i < |hist| ==> hist[i].treatment != k.0
    ensures HasArea(hist + future, k, y) <==> HasArea(future, k, y)
  {
    var all := hist + future;
    if HasArea(all, k, y) {
      var i :| 0 <= i < |all| && OfOption(k, all[i]) && all[i].year == y && all[i].area.Some?;
      assert i >= |hist|;
      assert all[i] == future[i - |hist|];
    }
    if HasArea(future, k, y) {
      var i :| 0 <= i < |future| && OfOption(k, future[i]) && future[i].year == y && future[i].area.Some?;
      assert all[|hist| + i] == future[i];
    }
  }

  /** Once the per-model rows are read, a treatment, scenario and option of
      the averaging loop has an area in a future year exactly when some
      model's file of it exists. */
  lemma BaseAreas(cfg: Settings, files: Files, dataDir: string, yearMap: YearMap, k: Key, y: int)
    requires HistoricalRows(cfg, files, dataDir, yearMap).Ok? && FutureRows(cfg, files, dataDir, yearMap).Ok?
    requires k.0 in TreatmentCodes() && k.1 in ScenarioCodes() && k.2 in FmoOptionCodes()
    requires y in cfg.futureYears
    ensures HasArea(HistoricalRows(cfg, files, dataDir, yearMap).value + FutureRows(cfg, files, dataDir, yearMap).value, k, y)
            <==> Covered(cfg, files, dataDir, k)
  {
    var hist := HistoricalRows(cfg, files, dataDir, yearMap).value;
    var future := FutureRows(cfg, files, dataDir, yearMap).value;
    HistoricalRowsNotAveraged(cfg, files, dataDir, yearMap);
    AreasOfParts(hist, future, k, y);
    if HasArea(future, k, y) {
      var i :| 0 <= i < |future| && OfOption(k, future[i]) && future[i].year == y && future[i].area.Some?;
      FutureAreaHasFile(cfg, files, dataDir, yearMap, k, future[i]);
    }
    if Covered(cfg, files, dataDir, k) {
      var m :| m in ModelCodes() && CostFilename(cfg, dataDir, k.0, k.1, m, k.2) in files;
      FileGivesFutureArea(cfg, files, dataDir, yearMap, k, m, y);
    }
  }

  /** When a key has an area in a year exactly when it is covered, every key
      has an area in every year exactly when, there being a year, every key
      is covered. */
  lemma AreasWhenCovered(keys: seq<Key>, years: seq<int>, base: seq<CostRow>, cfg: Settings, files: Files, dataDir: string)
    requires forall k, y :: k in keys && y in years ==> (HasArea(base, k, y) <==> Covered(cfg, files, dataDir, k))
    ensures AllHaveAreas(keys, years, base) <==> (|years| > 0 ==> AllCovered(cfg, files, dataDir, keys))
  {
    if |years| > 0 {
      var y0 := years[0];
      assert y0 in years;
      if AllHaveAreas(keys, years, base) {
        forall k | k in keys
          ensures Covered(cfg, files, dataDir, k)
        {
          assert HasArea(base, k, y0);
        }
      }
    }
    if |years| > 0 ==> AllCovered(cfg, files, dataDir, keys) {
      forall k, y | k in keys && y in years
        ensures HasArea(base, k, y)
      {
        assert Covered(cfg, files, dataDir, k);
      }
    }
  }

  /** Once the per-model rows are read, the aggregation completes exactly when
      every future year is mapped and every option is covered by some model. */
  lemma AggregateOfBase(cfg: Settings, files: Files, dataDir: string, yearMap: YearMap)
    requires MapsSimulationYears(yearMap) && BaseRows(cfg, files, dataDir, yearMap).Ok?
    ensures Aggregate(yearMap, cfg.futureYears, BaseRows(cfg, files, dataDir, yearMap).value).Ok?
            <==> FutureYearsMapped(cfg) && OptionsCovered(cfg, files, dataDir)
  {
    var hist := HistoricalRows(cfg, files, dataDir, yearMap).value;
    var future := FutureRows(cfg, files, dataDir, yearMap).value;
    var base := hist + future;
    var keys := AverageKeys();
    assert BaseRows(cfg, files, dataDir, yearMap).value == base;
    AggregateOk(yearMap, cfg.futureYears, base);
    AverageKeysOptions();
    forall k, y | k in keys && y in cfg.futureYears
      ensures HasArea(base, k, y) <==> Covered(cfg, files, dataDir, k)
    {
      BaseAreas(cfg, files, dataDir, yearMap, k, y);
    }
    AreasWhenCovered(keys, cfg.futureYears, base, cfg, files, dataDir);
  }

  /** With a year map of the drawn shape, a run completes exactly when the
      historical and future runs are readable, every future year is mapped,
      and every treatment, scenario and option has some model's file. */
  lemma RunSucceeds(cfg: Settings, files: Files, dataDir: string, yearMap: YearMap)
    requires MapsSimulationYears(yearMap)
    ensures Run(cfg, files, dataDir, yearMap).Ok?
            <==> && HistoricalReadable(cfg, files, dataDir) && FutureReadable(cfg, files, dataDir)
                 && FutureYearsMapped(cfg) && OptionsCovered(cfg, files, dataDir)
  {
    BaseRowsOk(cfg, files, dataDir, yearMap);
    if BaseRows(cfg, files, dataDir, yearMap).Ok? {
      AggregateOfBase(cfg, files, dataDir, yearMap);
    }
  }

  /** With a year map of the drawn shape, a run fails only on an unmapped
      year or a missing area. */
  lemma RunFails(cfg: Settings, files: Files, dataDir: string, yearMap: YearMap)
    requires MapsSimulationYears(yearMap)
    ensures Run(cfg, files, dataDir, yearMap).Err?
            ==> CostFailure(Run(cfg, files, dataDir, yearMap).error)
  {
    BaseRowsFail(cfg, files, dataDir, yearMap);
    var b := BaseRows(cfg, files, dataDir, yearMap);
    if b.Ok? {
      AggregateOk(yearMap, cfg.futureYears, b.value);
    }
  }

  /** A run completes exactly when every year of every existing file has a
      reference cost year and replicates, every future year has a reference
      cost year, and every treatment, scenario and option has some model's
      file to average. */
  lemma ProcessSucceeds(cfg: Settings, files: Files, dataDir: string, draws: seq<CostYear>)
    requires |draws| == EndMappedYear - FirstMappedYear
    ensures Process(cfg, files, dataDir, draws).Ok?
            <==> && HistoricalReadable(cfg, files, dataDir) && FutureReadable(cfg, files, dataDir)
                 && FutureYearsMapped(cfg) && OptionsCovered(cfg, files, dataDir)
  {
    var yearMap := RandomCostMap(draws);
    assert MapsSimulationYears(yearMap);
    RunSucceeds(cfg, files, dataDir, yearMap);
  }

  /** A run fails only on a year the random map does not cover or on a row
      with no area. */
  lemma ProcessFails(cfg: Settings, files: Files, dataDir: string, draws: seq<CostYear>)
    requires |draws| == EndMappedYear - FirstMappedYear
    ensures Process(cfg, files, dataDir, draws).Err?
            ==> CostFailure(Process(cfg, files, dataDir, draws).error)
  {
    RunFails(cfg, files, dataDir, RandomCostMap(draws));
  }
}
