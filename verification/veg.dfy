/** Vegetation counts: per run and region, the median deciduous and
    coniferous counts of each year; then a five-model median per treatment,
    scenario and region; then statewide sums over the fire management zones. */
module Veg {
  import opened Wrappers
  import opened Stats
  import opened Paths
  import opened Table
  import opened Luts
  import opened Settings
  import opened Runs

  const DeciduousForest: string := "Deciduous"
  const BlackSpruce: string := "BlackSpruce"
  const WhiteSpruce: string := "WhiteSpruce"
  const DeciduousColumn: string := "deciduous"

  /** One row of the vegetation table, indexed by year. */
  datatype VegRow = VegRow(
    year: int,
    treatment: string,
    scenario: string,
    model: string,
    region: string,
    deciduous: Option<real>,
    coniferous: Option<real>)

  // ---------------------------------------------------------------------------
  // Source files
  // ---------------------------------------------------------------------------

  /** `get_veg_filename`: the historical scenario reads the historical
      category's directory whatever treatment and model it is given. */
  function VegFilename(cfg: Settings, dataDir: string, spatialPrefix: string, treatment: string, scenario: string,
                       model: string, region: string, forest: string): (path: string)
    ensures scenario == HistoricalScenario
            ==> EndsWith(path, "alfresco_vegcounts" + "_" + region + "_" + forest + "_" + cfg.historicalFmoPrefix
                               + "_" + cfg.historicalDatePostfix + ".csv")
    ensures scenario != HistoricalScenario
            ==> EndsWith(path, "alfresco_vegcounts" + "_" + region + "_" + forest + "_"
                               + (cfg.fmoPrefix + "_" + scenario + "_" + model) + "_" + cfg.datePostfix + ".csv")
  {
    if scenario == HistoricalScenario then
      var filename := Join("_", ["alfresco_vegcounts", region, forest, cfg.historicalFmoPrefix, cfg.historicalDatePostfix]) + ".csv";
      Join5("_", "alfresco_vegcounts", region, forest, cfg.historicalFmoPrefix, cfg.historicalDatePostfix);
      PathJoinEndsWith(dataDir, [spatialPrefix, cfg.historicalCategory, cfg.historicalFmoPrefix, "veg_counts", filename]);
      PathJoin(dataDir, [spatialPrefix, cfg.historicalCategory, cfg.historicalFmoPrefix, "veg_counts", filename])
    else
      var fragment := Join("_", [cfg.fmoPrefix, scenario, model]);
      var filename := Join("_", ["alfresco_vegcounts", region, forest, fragment, cfg.datePostfix]) + ".csv";
      Join3("_", cfg.fmoPrefix, scenario, model);
      Join5("_", "alfresco_vegcounts", region, forest, fragment, cfg.datePostfix);
      PathJoinEndsWith(dataDir, [spatialPrefix, treatment, fragment, "veg_counts", filename]);
      PathJoin(dataDir, [spatialPrefix, treatment, fragment, "veg_counts", filename])
  }

  lemma HistoricalVegPath(cfg: Settings, dataDir: string, spatialPrefix: string, treatment: string, model: string,
                          region: string, forest: string)
    requires PlainNames(cfg) && Dir(dataDir) && Name(spatialPrefix) && Name(region) && Name(forest)
    ensures VegFilename(cfg, dataDir, spatialPrefix, treatment, HistoricalScenario, model, region, forest)
            == dataDir + "/" + spatialPrefix + "/" + cfg.historicalCategory + "/" + cfg.historicalFmoPrefix + "/" + "veg_counts"
               + "/" + ("alfresco_vegcounts" + "_" + region + "_" + forest + "_" + cfg.historicalFmoPrefix
                        + "_" + cfg.historicalDatePostfix + ".csv")
  {
    VegCsvName(region, forest, cfg.historicalFmoPrefix, cfg.historicalDatePostfix);
    PathJoin5(dataDir, spatialPrefix, cfg.historicalCategory, cfg.historicalFmoPrefix, "veg_counts",
              Join("_", ["alfresco_vegcounts", region, forest, cfg.historicalFmoPrefix, cfg.historicalDatePostfix]) + ".csv");
  }

  lemma FutureVegPath(cfg: Settings, dataDir: string, spatialPrefix: string, treatment: string, scenario: string,
                      model: string, region: string, forest: string)
    requires PlainNames(cfg) && Dir(dataDir) && Name(spatialPrefix) && Name(region) && Name(forest)
    requires Name(treatment) && Name(scenario) && Name(model) && scenario != HistoricalScenario
    ensures VegFilename(cfg, dataDir, spatialPrefix, treatment, scenario, model, region, forest)
            == dataDir + "/" + spatialPrefix + "/" + treatment + "/" + (cfg.fmoPrefix + "_" + scenario + "_" + model)
               + "/" + "veg_counts" + "/" + ("alfresco_vegcounts" + "_" + region + "_" + forest + "_"
                                            + (cfg.fmoPrefix + "_" + scenario + "_" + model) + "_" + cfg.datePostfix + ".csv")
  {
    var fragment := cfg.fmoPrefix + "_" + scenario + "_" + model;
    FragmentName(cfg.fmoPrefix, scenario, model);
    VegCsvName(region, forest, fragment, cfg.datePostfix);
    PathJoin5(dataDir, spatialPrefix, treatment, fragment, "veg_counts",
              Join("_", ["alfresco_vegcounts", region, forest, fragment, cfg.datePostfix]) + ".csv");
  }

  /** The three forest types of one run and region are three different files. */
  lemma VegFilenameSeparatesForests(cfg: Settings, dataDir: string, spatialPrefix: string, treatment: string,
                                    scenario: string, model: string, region: string, f1: string, f2: string)
    requires VegFilename(cfg, dataDir, spatialPrefix, treatment, scenario, model, region, f1)
          == VegFilename(cfg, dataDir, spatialPrefix, treatment, scenario, model, region, f2)
    ensures f1 == f2
  {
    if scenario == HistoricalScenario {
      var tail := [spatialPrefix, cfg.historicalCategory, cfg.historicalFmoPrefix, "veg_counts"];
      var n1 := Join("_", ["alfresco_vegcounts", region, f1, cfg.historicalFmoPrefix, cfg.historicalDatePostfix]) + ".csv";
      var n2 := Join("_", ["alfresco_vegcounts", region, f2, cfg.historicalFmoPrefix, cfg.historicalDatePostfix]) + ".csv";
      assert tail + [n1] == [spatialPrefix, cfg.historicalCategory, cfg.historicalFmoPrefix, "veg_counts", n1];
      assert tail + [n2] == [spatialPrefix, cfg.historicalCategory, cfg.historicalFmoPrefix, "veg_counts", n2];
      VegFileSeparates(dataDir, tail, region, cfg.historicalFmoPrefix, cfg.historicalDatePostfix, f1, f2);
    } else {
      var fragment := Join("_", [cfg.fmoPrefix, scenario, model]);
      var tail := [spatialPrefix, treatment, fragment, "veg_counts"];
      var n1 := Join("_", ["alfresco_vegcounts", region, f1, fragment, cfg.datePostfix]) + ".csv";
      var n2 := Join("_", ["alfresco_vegcounts", region, f2, fragment, cfg.datePostfix]) + ".csv";
      assert tail + [n1] == [spatialPrefix, treatment, fragment, "veg_counts", n1];
      assert tail + [n2] == [spatialPrefix, treatment, fragment, "veg_counts", n2];
      VegFileSeparates(dataDir, tail, region, fragment, cfg.datePostfix, f1, f2);
    }
  }

  // ---------------------------------------------------------------------------
  // One run and region, tidied
  // ---------------------------------------------------------------------------

  /** Treatment, scenario and model a run is tidied under. */
  function RunLabels(source: Source): (string, string, string)
  {
    match source
    case Historical => (HistoricalTreatment, HistoricalScenario, "")
    case Future(t, s, m) => (t, s, m)
  }

  function JobYears(cfg: Settings, source: Source): seq<int>
  {
    if source.Historical? then cfg.historicalYears else cfg.futureYears
  }

  function ForestPath(cfg: Settings, dataDir: string, job: Job, forest: string): string
  {
    var l := RunLabels(job.source);
    VegFilename(cfg, dataDir, job.spatialPrefix, l.0, l.1, l.2, job.region, forest)
  }

  /** Median deciduous count of a year; missing when the file is absent. */
  function DeciduousAt(files: Files, path: string, year: int): Option<real>
  {
    if path in files then MedianAt(files[path], year) else None
  }

  /** Median coniferous count of a year: the two spruce medians added when
      both files exist, otherwise the one that exists. */
  function ConiferousAt(files: Files, white: string, black: string, year: int): (r: Option<real>)
    ensures white !in files && black !in files ==> r.None?
    ensures white in files || black in files
            ==> (r.Some? <==> && (white in files ==> year in files[white] && |files[white][year]| > 0)
                              && (black in files ==> year in files[black] && |files[black][year]| > 0))
    ensures r.Some? ==> r.value == (if white in files then MedianAt(files[white], year).value else 0.0)
                                   + (if black in files then MedianAt(files[black], year).value else 0.0)
  {
    if white in files && black in files then AddOpt(MedianAt(files[white], year), MedianAt(files[black], year))
    else if white in files then MedianAt(files[white], year)
    else if black in files then MedianAt(files[black], year)
    else None
  }

  function TidiedRow(cfg: Settings, files: Files, dataDir: string, job: Job, year: int): VegRow
  {
    var l := RunLabels(job.source);
    VegRow(year, l.0, l.1, l.2, job.region,
           DeciduousAt(files, ForestPath(cfg, dataDir, job, DeciduousForest), year),
           ConiferousAt(files, ForestPath(cfg, dataDir, job, WhiteSpruce), ForestPath(cfg, dataDir, job, BlackSpruce), year))
  }

  /** `get_tidied_veg_count_df`: the run stops when neither spruce file exists. */
  function TidiedFrame(cfg: Settings, files: Files, dataDir: string, job: Job): (r: Result<seq<VegRow>, Error>)
    ensures r.Ok? <==> HasSpruce(cfg, files, dataDir, job)
    ensures r.Err? ==> r.error == MissingSpruce(job.spatialPrefix, RunLabels(job.source).0, RunLabels(job.source).1,
                                                RunLabels(job.source).2, job.region)
    ensures r.Ok? ==> |r.value| == |JobYears(cfg, job.source)|
    ensures r.Ok? ==> forall i :: 0 <= i < |r.value| ==>
              && r.value[i].year == JobYears(cfg, job.source)[i] && r.value[i].region == job.region
              && r.value[i].deciduous == DeciduousAt(files, ForestPath(cfg, dataDir, job, DeciduousForest), r.value[i].year)
              && r.value[i].coniferous == ConiferousAt(files, ForestPath(cfg, dataDir, job, WhiteSpruce),
                                                       ForestPath(cfg, dataDir, job, BlackSpruce), r.value[i].year)
  {
    var l := RunLabels(job.source);
    if ForestPath(cfg, dataDir, job, WhiteSpruce) !in files && ForestPath(cfg, dataDir, job, BlackSpruce) !in files
    then Err(MissingSpruce(job.spatialPrefix, l.0, l.1, l.2, job.region))
    else
      var years := JobYears(cfg, job.source);
      Ok(seq(|years|, i requires 0 <= i < |years| => TidiedRow(cfg, files, dataDir, job, years[i])))
  }

  function TidiedFrames(cfg: Settings, files: Files, dataDir: string): Job -> Result<seq<VegRow>, Error>
  {
    job => TidiedFrame(cfg, files, dataDir, job)
  }

  /** A run has spruce data when one of its two spruce files exists. */
  predicate HasSpruce(cfg: Settings, files: Files, dataDir: string, job: Job)
  {
    ForestPath(cfg, dataDir, job, WhiteSpruce) in files || ForestPath(cfg, dataDir, job, BlackSpruce) in files
  }

  /** The concatenated table has a deciduous column exactly when one of the
      frames was given one: when the deciduous file of some planned run exists. */
  predicate HasDeciduous(cfg: Settings, files: Files, dataDir: string)
  {
    exists job :: job in VegJobs(cfg) && ForestPath(cfg, dataDir, job, DeciduousForest) in files
  }

  /** The tidied rows of every run, historical runs first within each spatial prefix. */
  function BaseRows(cfg: Settings, files: Files, dataDir: string): Result<seq<VegRow>, Error>
  {
    CollectAll(VegJobs(cfg), TidiedFrames(cfg, files, dataDir))
  }

  /** Reading succeeds exactly when every planned run has spruce data, and
      otherwise stops on a planned run without any. */
  lemma BaseRowsOk(cfg: Settings, files: Files, dataDir: string)
    ensures BaseRows(cfg, files, dataDir).Ok? <==> forall job :: Planned(cfg, job) ==> HasSpruce(cfg, files, dataDir, job)
    ensures BaseRows(cfg, files, dataDir).Err?
            ==> exists job :: && Planned(cfg, job) && !HasSpruce(cfg, files, dataDir, job)
                              && BaseRows(cfg, files, dataDir).error
                                 == MissingSpruce(job.spatialPrefix, RunLabels(job.source).0, RunLabels(job.source).1,
                                                  RunLabels(job.source).2, job.region)
  {
    var f := TidiedFrames(cfg, files, dataDir);
    forall job
      ensures job in VegJobs(cfg) <==> Planned(cfg, job)
      ensures f(job).Ok? <==> HasSpruce(cfg, files, dataDir, job)
    {
      VegJobsArePlanned(cfg, job);
      assert f(job) == TidiedFrame(cfg, files, dataDir, job);
    }
    var r := BaseRows(cfg, files, dataDir);
    if r.Err? {
      var job :| job in VegJobs(cfg) && f(job) == Err(r.error);
      assert f(job) == TidiedFrame(cfg, files, dataDir, job);
    }
  }

  lemma TidiedFrameRows(cfg: Settings, files: Files, dataDir: string, job: Job, row: VegRow)
    requires TidiedFrame(cfg, files, dataDir, job).Ok? && row in TidiedFrame(cfg, files, dataDir, job).value
    ensures row.year in JobYears(cfg, job.source) && row == TidiedRow(cfg, files, dataDir, job, row.year)
  {
    var frame := TidiedFrame(cfg, files, dataDir, job).value;
    var i :| 0 <= i < |frame| && frame[i] == row;
    assert JobYears(cfg, job.source)[i] == row.year;
  }

  /** Every row read is the tidied row of its year of a planned run ... */
  lemma BaseRowsAreTidied(cfg: Settings, files: Files, dataDir: string, row: VegRow)
    requires BaseRows(cfg, files, dataDir).Ok? && row in BaseRows(cfg, files, dataDir).value
    ensures exists job :: && Planned(cfg, job) && row.year in JobYears(cfg, job.source)
                          && row == TidiedRow(cfg, files, dataDir, job, row.year)
  {
    var f := TidiedFrames(cfg, files, dataDir);
    CollectAllMembers(VegJobs(cfg), f);
    var job :| job in VegJobs(cfg) && f(job).Ok? && row in f(job).value;
    VegJobsArePlanned(cfg, job);
    TidiedFrameRows(cfg, files, dataDir, job, row);
  }

  lemma TidiedFrameCovers(cfg: Settings, files: Files, dataDir: string, job: Job, y: int)
    requires TidiedFrame(cfg, files, dataDir, job).Ok? && y in JobYears(cfg, job.source)
    ensures TidiedRow(cfg, files, dataDir, job, y) in TidiedFrame(cfg, files, dataDir, job).value
  {
    var years := JobYears(cfg, job.source);
    var i :| 0 <= i < |years| && years[i] == y;
    assert TidiedFrame(cfg, files, dataDir, job).value[i] == TidiedRow(cfg, files, dataDir, job, y);
  }

  /** ... and every year of every planned run has its row. */
  lemma BaseRowsCover(cfg: Settings, files: Files, dataDir: string, job: Job, y: int)
    requires BaseRows(cfg, files, dataDir).Ok? && Planned(cfg, job) && y in JobYears(cfg, job.source)
    ensures TidiedRow(cfg, files, dataDir, job, y) in BaseRows(cfg, files, dataDir).value
  {
    var f := TidiedFrames(cfg, files, dataDir);
    VegJobsArePlanned(cfg, job);
    assert f(job) == TidiedFrame(cfg, files, dataDir, job);
    TidiedFrameCovers(cfg, files, dataDir, job, y);
    CollectAllMembers(VegJobs(cfg), f);
  }

  // ---------------------------------------------------------------------------
  // Five-model medians
  // ---------------------------------------------------------------------------

  /** Treatment, scenario and region of a five-model median. */
  type GroupKey = (string, string, string)

  /** Treatment, scenario, region, for the regions of each spatial prefix in turn. */
  function MedianKeys(cfg: Settings): seq<GroupKey>
  {
    var m := cfg.spatialPrefixMap;
    Flatten(seq(|m|, p requires 0 <= p < |m| => Cross3(TreatmentCodes(), ScenarioCodes(), m[p].1)))
  }

  /** The rows a median groups by year: every row of the key's treatment,
      scenario and region, whatever its model. */
  predicate InGroup(k: GroupKey, year: int, row: VegRow)
  {
    row.treatment == k.0 && row.scenario == k.1 && row.region == k.2 && row.year == year
  }

  function InGroupAt(k: GroupKey, year: int): VegRow -> bool
  {
    row => InGroup(k, year, row)
  }

  function DeciduousOf(row: VegRow): Option<real> { row.deciduous }
  function ConiferousOf(row: VegRow): Option<real> { row.coniferous }

  /** `groupby("year").median()` of one column, aligned on a year: missing
      when the group has no present value. */
  function GroupMedian(table: seq<VegRow>, k: GroupKey, year: int, column: VegRow -> Option<real>): Option<real>
  {
    MedianSkipNa(Select(table, InGroupAt(k, year), column))
  }

  function MedianRow(cfg: Settings, table: seq<VegRow>, k: GroupKey, year: int): VegRow
  {
    VegRow(year, k.0, k.1, cfg.modelAvg, k.2,
           GroupMedian(table, k, year, DeciduousOf), GroupMedian(table, k, year, ConiferousOf))
  }

  function MedianFrame(cfg: Settings, table: seq<VegRow>, k: GroupKey): seq<VegRow>
  {
    seq(|cfg.futureYears|, i requires 0 <= i < |cfg.futureYears| => MedianRow(cfg, table, k, cfg.futureYears[i]))
  }

  /** All the median frames, computed from the same table and appended after the loop. */
  function Medians(cfg: Settings, table: seq<VegRow>): seq<VegRow>
  {
    var keys := MedianKeys(cfg);
    Flatten(seq(|keys|, j requires 0 <= j < |keys| => MedianFrame(cfg, table, keys[j])))
  }

  /** A group median exists exactly when some row of the group has a value ... */
  lemma GroupMedianPresent(table: seq<VegRow>, k: GroupKey, year: int, column: VegRow -> Option<real>)
    ensures GroupMedian(table, k, year, column).Some?
            <==> exists i :: 0 <= i < |table| && InGroup(k, year, table[i]) && column(table[i]).Some?
  {
    var xs := Select(table, InGroupAt(k, year), column);
    if exists i :: 0 <= i < |table| && InGroup(k, year, table[i]) && column(table[i]).Some? {
      var i :| 0 <= i < |table| && InGroup(k, year, table[i]) && column(table[i]).Some?;
      assert InGroupAt(k, year)(table[i]);
      assert column(table[i]) in xs;
      var j :| 0 <= j < |xs| && xs[j] == column(table[i]);
      assert xs[j].value in Present(xs);
    }
    if |Present(xs)| > 0 {
      var v := Present(xs)[0];
      assert Some(v) in xs;
    }
  }

  /** ... and it lies between any bounds of the group's values. */
  lemma GroupMedianBetween(table: seq<VegRow>, k: GroupKey, year: int, column: VegRow -> Option<real>, lo: real, hi: real)
    requires forall i :: 0 <= i < |table| && InGroup(k, year, table[i]) && column(table[i]).Some?
                         ==> lo <= column(table[i]).value <= hi
    ensures GroupMedian(table, k, year, column).Some? ==> lo <= GroupMedian(table, k, year, column).value <= hi
  {
    var xs := Select(table, InGroupAt(k, year), column);
    var vs := Present(xs);
    forall n | 0 <= n < |vs|
      ensures lo <= vs[n] <= hi
    {
      assert vs[n] in vs;
      assert Some(vs[n]) in xs;
    }
    if |vs| > 0 {
      MedianBetween(vs, lo, hi);
    }
  }

  /** Rows outside the group never change its median. */
  lemma GroupMedianIgnoresOthers(table: seq<VegRow>, extra: seq<VegRow>, k: GroupKey, year: int,
                                 column: VegRow -> Option<real>)
    requires forall i :: 0 <= i < |extra| ==> !InGroup(k, year, extra[i])
    ensures GroupMedian(table + extra, k, year, column) == GroupMedian(table, k, year, column)
  {
    SelectIgnoresRejected(table, extra, InGroupAt(k, year), column);
  }

  // ---------------------------------------------------------------------------
  // Statewide sums over the fire management zones
  // ---------------------------------------------------------------------------

  /** `t.loc[year].sum()["deciduous"]` and `["coniferous"]` of the selected
      rows. A year with no selected row is a key error. A year with a single
      one selects a Series of labels and counts, which `.sum()` cannot add up.
      A table without the deciduous column is a key error. Otherwise missing
      values are skipped. */
  function SumRow(table: seq<VegRow>, keep: VegRow -> bool, year: int, treatment: string, scenario: string, model: string,
                  region: string, hasDeciduous: bool): Result<VegRow, Error>
  {
    var decs := Select(table, keep, DeciduousOf);
    if |decs| == 0 then Err(MissingYear(year))
    else if |decs| == 1 then Err(SingleRow(year))
    else if !hasDeciduous then Err(MissingColumn(DeciduousColumn))
    else Ok(VegRow(year, treatment, scenario, model, region,
                   Some(SumSkipNa(decs)), Some(SumSkipNa(Select(table, keep, ConiferousOf)))))
  }

  /** A sum exists exactly when the table has the deciduous column and two
      rows are selected; otherwise it stops with the error of the first check
      that fails. */
  lemma SumRowOk(table: seq<VegRow>, keep: VegRow -> bool, year: int, treatment: string, scenario: string, model: string,
                 region: string, hasDeciduous: bool)
    ensures SumRow(table, keep, year, treatment, scenario, model, region, hasDeciduous).Ok?
            <==> hasDeciduous && KeepsTwo(table, keep)
    ensures (forall i :: 0 <= i < |table| ==> !keep(table[i]))
            ==> SumRow(table, keep, year, treatment, scenario, model, region, hasDeciduous) == Err(MissingYear(year))
    ensures (exists i :: 0 <= i < |table| && keep(table[i])) && !KeepsTwo(table, keep)
            ==> SumRow(table, keep, year, treatment, scenario, model, region, hasDeciduous) == Err(SingleRow(year))
    ensures KeepsTwo(table, keep) && !hasDeciduous
            ==> SumRow(table, keep, year, treatment, scenario, model, region, hasDeciduous)
                == Err(MissingColumn(DeciduousColumn))
  {
    SelectEmpty(table, keep, DeciduousOf);
    SelectMany(table, keep, DeciduousOf);
  }

  /** Splitting the table splits the sums. */
  lemma SumRowSplits(a: seq<VegRow>, b: seq<VegRow>, keep: VegRow -> bool, year: int, treatment: string,
                     scenario: string, model: string, region: string, hasDeciduous: bool)
    requires SumRow(a, keep, year, treatment, scenario, model, region, hasDeciduous).Ok?
    requires SumRow(b, keep, year, treatment, scenario, model, region, hasDeciduous).Ok?
    ensures SumRow(a + b, keep, year, treatment, scenario, model, region, hasDeciduous).Ok?
    ensures SumRow(a + b, keep, year, treatment, scenario, model, region, hasDeciduous).value.deciduous.value
            == SumRow(a, keep, year, treatment, scenario, model, region, hasDeciduous).value.deciduous.value
               + SumRow(b, keep, year, treatment, scenario, model, region, hasDeciduous).value.deciduous.value
    ensures SumRow(a + b, keep, year, treatment, scenario, model, region, hasDeciduous).value.coniferous.value
            == SumRow(a, keep, year, treatment, scenario, model, region, hasDeciduous).value.coniferous.value
               + SumRow(b, keep, year, treatment, scenario, model, region, hasDeciduous).value.coniferous.value
  {
    SelectConcat(a, b, keep, DeciduousOf);
    SelectConcat(a, b, keep, ConiferousOf);
    SumSkipNaConcat(Select(a, keep, DeciduousOf), Select(b, keep, DeciduousOf));
    SumSkipNaConcat(Select(a, keep, ConiferousOf), Select(b, keep, ConiferousOf));
  }

  /** Rows that are not selected never change a sum. */
  lemma SumRowIgnoresOthers(table: seq<VegRow>, extra: seq<VegRow>, keep: VegRow -> bool, year: int, treatment: string,
                            scenario: string, model: string, region: string, hasDeciduous: bool)
    requires forall i :: 0 <= i < |extra| ==> !keep(extra[i])
    ensures SumRow(table + extra, keep, year, treatment, scenario, model, region, hasDeciduous)
            == SumRow(table, keep, year, treatment, scenario, model, region, hasDeciduous)
  {
    SelectIgnoresRejected(table, extra, keep, DeciduousOf);
    SelectIgnoresRejected(table, extra, keep, ConiferousOf);
  }

  /** The errors a statewide sum over `years` stops with: a year with no
      selected row or a single one, or a table without the deciduous column. */
  predicate SumFailure(e: Error, years: seq<int>, hasDeciduous: bool)
  {
    || ((e.MissingYear? || e.SingleRow?) && e.year in years)
    || (e == MissingColumn(DeciduousColumn) && !hasDeciduous)
  }

  /** The historical sum takes every zone row of the year, of any treatment,
      scenario or model. */
  function ZoneRowsAt(zones: seq<string>, year: int): VegRow -> bool
  {
    (row: VegRow) => row.region in zones && row.year == year
  }

  function HistoricalSum(cfg: Settings, zones: seq<string>, table: seq<VegRow>, year: int, hasDeciduous: bool)
    : Result<VegRow, Error>
  {
    SumRow(table, ZoneRowsAt(zones, year), year, HistoricalTreatment, HistoricalScenario, "", cfg.statewide, hasDeciduous)
  }

  function HistoricalStatewide(cfg: Settings, zones: seq<string>, table: seq<VegRow>, hasDeciduous: bool)
    : Result<seq<VegRow>, Error>
  {
    FrameOrFail(cfg.historicalYears, y => HistoricalSum(cfg, zones, table, y, hasDeciduous))
  }

  /** The historical sums exist exactly when the table has the deciduous
      column and every historical year has two zone rows, and otherwise stop
      with a sum's error. */
  lemma HistoricalStatewideOk(cfg: Settings, zones: seq<string>, table: seq<VegRow>, hasDeciduous: bool)
    ensures HistoricalStatewide(cfg, zones, table, hasDeciduous).Ok?
            <==> forall y :: y in cfg.historicalYears ==> hasDeciduous && KeepsTwo(table, ZoneRowsAt(zones, y))
    ensures HistoricalStatewide(cfg, zones, table, hasDeciduous).Err?
            ==> SumFailure(HistoricalStatewide(cfg, zones, table, hasDeciduous).error, cfg.historicalYears, hasDeciduous)
  {
    forall y | y in cfg.historicalYears
      ensures HistoricalSum(cfg, zones, table, y, hasDeciduous).Ok? <==> hasDeciduous && KeepsTwo(table, ZoneRowsAt(zones, y))
      ensures HistoricalSum(cfg, zones, table, y, hasDeciduous).Err?
              ==> SumFailure(HistoricalSum(cfg, zones, table, y, hasDeciduous).error, cfg.historicalYears, hasDeciduous)
    {
      SumRowOk(table, ZoneRowsAt(zones, y), y, HistoricalTreatment, HistoricalScenario, "", cfg.statewide, hasDeciduous);
    }
  }

  /** The future sum of a treatment, scenario and model takes that run's zone rows. */
  predicate ReadsZone(zones: seq<string>, k: Key, row: VegRow)
  {
    row.region in zones && row.treatment == k.0 && row.scenario == k.1 && row.model == k.2
  }

  function KeyZoneRowsAt(zones: seq<string>, k: Key, year: int): VegRow -> bool
  {
    row => ReadsZone(zones, k, row) && row.year == year
  }

  function StatewideSum(cfg: Settings, zones: seq<string>, k: Key, table: seq<VegRow>, year: int, hasDeciduous: bool)
    : Result<VegRow, Error>
  {
    SumRow(table, KeyZoneRowsAt(zones, k, year), year, k.0, k.1, k.2, cfg.statewide, hasDeciduous)
  }

  function StatewideStep(cfg: Settings, zones: seq<string>, k: Key, table: seq<VegRow>, hasDeciduous: bool)
    : Result<seq<VegRow>, Error>
  {
    FrameOrFail(cfg.futureYears, y => StatewideSum(cfg, zones, k, table, y, hasDeciduous))
  }

  function StatewideSteps(cfg: Settings, zones: seq<string>, hasDeciduous: bool)
    : (Key, seq<VegRow>) -> Result<seq<VegRow>, Error>
  {
    (k, table) => StatewideStep(cfg, zones, k, table, hasDeciduous)
  }

  function StatewidesFrom(cfg: Settings, zones: seq<string>, table: seq<VegRow>, hasDeciduous: bool)
    : Key -> Result<seq<VegRow>, Error>
  {
    k => StatewideStep(cfg, zones, k, table, hasDeciduous)
  }

  function ZoneReads(zones: seq<string>): (Key, VegRow) -> bool
  {
    (k, row) => ReadsZone(zones, k, row)
  }

  /** The models with the average added as a dictionary key: it is not added
      again when it already is one. */
  function WithAverage(models: seq<string>, average: string): seq<string>
  {
    if average in models then models else models + [average]
  }

  lemma WithAverageHas(models: seq<string>, average: string, x: string)
    ensures x in WithAverage(models, average) <==> x in models || x == average
  {
  }

  /** A model listed once is listed once with the average added. */
  lemma WithAverageDistinct(models: seq<string>, average: string)
    requires Distinct(models)
    ensures Distinct(WithAverage(models, average))
  {
  }

  /** Treatment, scenario, model, the average included. */
  function StatewideKeys(cfg: Settings): seq<Key>
  {
    Cross3(TreatmentCodes(), ScenarioCodes(), WithAverage(ModelCodes(), cfg.modelAvg))
  }

  /** Rows of regions that are not zones never change a statewide sum ... */
  lemma StatewideIgnoresOtherRegions(cfg: Settings, zones: seq<string>, table: seq<VegRow>, extra: seq<VegRow>,
                                     hasDeciduous: bool)
    requires forall i :: 0 <= i < |extra| ==> extra[i].region !in zones
    ensures HistoricalStatewide(cfg, zones, table + extra, hasDeciduous)
            == HistoricalStatewide(cfg, zones, table, hasDeciduous)
    ensures forall k :: StatewideStep(cfg, zones, k, table + extra, hasDeciduous)
                        == StatewideStep(cfg, zones, k, table, hasDeciduous)
  {
    forall y | y in cfg.historicalYears
      ensures HistoricalSum(cfg, zones, table + extra, y, hasDeciduous) == HistoricalSum(cfg, zones, table, y, hasDeciduous)
    {
      SumRowIgnoresOthers(table, extra, ZoneRowsAt(zones, y), y, HistoricalTreatment, HistoricalScenario, "",
                          cfg.statewide, hasDeciduous);
    }
    FrameOrFailExt(cfg.historicalYears, y => HistoricalSum(cfg, zones, table + extra, y, hasDeciduous),
                   y => HistoricalSum(cfg, zones, table, y, hasDeciduous));
    forall k
      ensures StatewideStep(cfg, zones, k, table + extra, hasDeciduous) == StatewideStep(cfg, zones, k, table, hasDeciduous)
    {
      StatewideStepLocal(cfg, zones, k, table, extra, hasDeciduous);
    }
  }

  /** ... so the ecoregions are never counted statewide. */
  lemma StatewideIgnoresEcoregions(cfg: Settings, table: seq<VegRow>, extra: seq<VegRow>, hasDeciduous: bool)
    requires forall i :: 0 <= i < |extra| ==> extra[i].region in EcoregionCodes()
    ensures HistoricalStatewide(cfg, ZoneCodes(), table + extra, hasDeciduous)
            == HistoricalStatewide(cfg, ZoneCodes(), table, hasDeciduous)
    ensures forall k :: StatewideStep(cfg, ZoneCodes(), k, table + extra, hasDeciduous)
                        == StatewideStep(cfg, ZoneCodes(), k, table, hasDeciduous)
  {
    ZonesAndEcoregionsDisjoint();
    StatewideIgnoresOtherRegions(cfg, ZoneCodes(), table, extra, hasDeciduous);
  }

  lemma StatewideStepLocal(cfg: Settings, zones: seq<string>, k: Key, table: seq<VegRow>, extra: seq<VegRow>,
                           hasDeciduous: bool)
    requires forall i :: 0 <= i < |extra| ==> !ReadsZone(zones, k, extra[i])
    ensures StatewideStep(cfg, zones, k, table + extra, hasDeciduous) == StatewideStep(cfg, zones, k, table, hasDeciduous)
  {
    forall y | y in cfg.futureYears
      ensures StatewideSum(cfg, zones, k, table + extra, y, hasDeciduous) == StatewideSum(cfg, zones, k, table, y, hasDeciduous)
    {
      SumRowIgnoresOthers(table, extra, KeyZoneRowsAt(zones, k, y), y, k.0, k.1, k.2, cfg.statewide, hasDeciduous);
    }
    FrameOrFailExt(cfg.futureYears, y => StatewideSum(cfg, zones, k, table + extra, y, hasDeciduous),
                   y => StatewideSum(cfg, zones, k, table, y, hasDeciduous));
  }

  /** The future sums read only their own run's zone rows and write rows of
      the statewide region, which must not be a zone. */
  lemma StatewideStepsAreLocal(cfg: Settings, zones: seq<string>, hasDeciduous: bool)
    requires cfg.statewide !in zones
    ensures LocalStep(StatewideSteps(cfg, zones, hasDeciduous), ZoneReads(zones))
    ensures InertOutputs(StatewideSteps(cfg, zones, hasDeciduous), ZoneReads(zones))
  {
    var step := StatewideSteps(cfg, zones, hasDeciduous);
    forall k, t, extra | Untouched(ZoneReads(zones), k, extra)
      ensures step(k, t + extra) == step(k, t)
    {
      StatewideStepLocal(cfg, zones, k, t, extra, hasDeciduous);
    }
    forall k, k', t | step(k, t).Ok?
      ensures Untouched(ZoneReads(zones), k', step(k, t).value)
    {
      var rows := StatewideStep(cfg, zones, k, t, hasDeciduous).value;
      forall i | 0 <= i < |rows|
        ensures rows[i].region == cfg.statewide
      {
        assert StatewideSum(cfg, zones, k, t, cfg.futureYears[i], hasDeciduous) == Ok(rows[i]);
      }
    }
  }

  // ---------------------------------------------------------------------------
  // The whole step
  // ---------------------------------------------------------------------------

  /** `process`: the tidied runs concatenated, the medians appended together,
      the historical sums, then the future sums appended one run at a time. */
  function Process(cfg: Settings, files: Files, dataDir: string): (r: Result<seq<VegRow>, Error>)
    ensures BaseRows(cfg, files, dataDir).Err? ==> r == Err(BaseRows(cfg, files, dataDir).error)
    ensures r.Ok? ==> && BaseRows(cfg, files, dataDir).Ok?
                      && |BaseRows(cfg, files, dataDir).value| <= |r.value|
                      && r.value[..|BaseRows(cfg, files, dataDir).value|] == BaseRows(cfg, files, dataDir).value
  {
    var base :- BaseRows(cfg, files, dataDir);
    if |VegJobs(cfg)| == 0 then Err(NoFrames)
    else Aggregate(cfg, ZoneCodes(), base, HasDeciduous(cfg, files, dataDir))
  }

  /** The steps after reading, on a table that has a deciduous column or not.
      The first median already looks the column up. */
  function Aggregate(cfg: Settings, zones: seq<string>, base: seq<VegRow>, hasDeciduous: bool)
    : (r: Result<seq<VegRow>, Error>)
    ensures r.Ok? ==> |base| <= |r.value| && r.value[..|base|] == base
  {
    if !hasDeciduous && |MedianKeys(cfg)| > 0 then Err(MissingColumn(DeciduousColumn))
    else
      var withMedians := base + Medians(cfg, base);
      var r := Summed(cfg, zones, withMedians, hasDeciduous);
      assert r.Ok? ==> r.value[..|base|] == withMedians[..|base|];
      r
  }

  /** The historical sums, then the future sums one run at a time. */
  function Summed(cfg: Settings, zones: seq<string>, table: seq<VegRow>, hasDeciduous: bool)
    : (r: Result<seq<VegRow>, Error>)
    ensures r.Ok? ==> |table| <= |r.value| && r.value[..|table|] == table
  {
    var historical :- HistoricalStatewide(cfg, zones, table, hasDeciduous);
    var r := AppendLoop(StatewideKeys(cfg), table + historical, StatewideSteps(cfg, zones, hasDeciduous));
    assert r.Ok? ==> r.value[..|table|] == (table + historical)[..|table|];
    r
  }

  /** Reference definition: every future sum from the same table. */
  function ProcessBatch(cfg: Settings, files: Files, dataDir: string): Result<seq<VegRow>, Error>
  {
    var base :- BaseRows(cfg, files, dataDir);
    if |VegJobs(cfg)| == 0 then Err(NoFrames)
    else AggregateBatch(cfg, ZoneCodes(), base, HasDeciduous(cfg, files, dataDir))
  }

  function AggregateBatch(cfg: Settings, zones: seq<string>, base: seq<VegRow>, hasDeciduous: bool)
    : Result<seq<VegRow>, Error>
  {
    if !hasDeciduous && |MedianKeys(cfg)| > 0 then Err(MissingColumn(DeciduousColumn))
    else
      var withMedians := base + Medians(cfg, base);
      var historical :- HistoricalStatewide(cfg, zones, withMedians, hasDeciduous);
      var sums :- CollectAll(StatewideKeys(cfg), StatewidesFrom(cfg, zones, withMedians + historical, hasDeciduous));
      Ok(withMedians + historical + sums)
  }

  lemma SummingIsBatch(cfg: Settings, zones: seq<string>, keys: seq<Key>, base: seq<VegRow>, hasDeciduous: bool)
    requires cfg.statewide !in zones
    ensures AppendLoop(keys, base, StatewideSteps(cfg, zones, hasDeciduous))
            == AppendBatch(base, CollectAll(keys, StatewidesFrom(cfg, zones, base, hasDeciduous)))
  {
    var step := StatewideSteps(cfg, zones, hasDeciduous);
    StatewideStepsAreLocal(cfg, zones, hasDeciduous);
    assert base + [] == base;
    AppendLoopIsBatchInert(keys, base, [], step, ZoneReads(zones));
    CollectAllExt(keys, AtTable(step, base), StatewidesFrom(cfg, zones, base, hasDeciduous));
  }

  /** Appending each future sum inside the loop gives the reference table,
      as long as the statewide region is not a zone. */
  lemma AggregateIsBatch(cfg: Settings, zones: seq<string>, base: seq<VegRow>, hasDeciduous: bool)
    requires cfg.statewide !in zones
    ensures Aggregate(cfg, zones, base, hasDeciduous) == AggregateBatch(cfg, zones, base, hasDeciduous)
  {
    var withMedians := base + Medians(cfg, base);
    var h := HistoricalStatewide(cfg, zones, withMedians, hasDeciduous);
    if h.Ok? {
      SummingIsBatch(cfg, zones, StatewideKeys(cfg), withMedians + h.value, hasDeciduous);
    }
  }

  lemma ProcessIsBatch(cfg: Settings, files: Files, dataDir: string)
    requires cfg.statewide !in ZoneCodes()
    ensures Process(cfg, files, dataDir) == ProcessBatch(cfg, files, dataDir)
  {
    var b := BaseRows(cfg, files, dataDir);
    if b.Ok? {
      AggregateIsBatch(cfg, ZoneCodes(), b.value, HasDeciduous(cfg, files, dataDir));
    }
  }

  /** One key's future sums fail only with the error of a future year's sum. */
  lemma StatewideStepFails(cfg: Settings, zones: seq<string>, k: Key, table: seq<VegRow>, hasDeciduous: bool)
    ensures StatewideStep(cfg, zones, k, table, hasDeciduous).Err?
            ==> SumFailure(StatewideStep(cfg, zones, k, table, hasDeciduous).error, cfg.futureYears, hasDeciduous)
  {
    var r := StatewideStep(cfg, zones, k, table, hasDeciduous);
    if r.Err? {
      var y :| y in cfg.futureYears && StatewideSum(cfg, zones, k, table, y, hasDeciduous) == Err(r.error);
    }
  }

  /** Aggregation fails only on a historical or future year with no zone row
      or a single one, or on a table without the deciduous column. */
  lemma AggregateFails(cfg: Settings, zones: seq<string>, base: seq<VegRow>, hasDeciduous: bool)
    ensures Aggregate(cfg, zones, base, hasDeciduous).Err?
            ==> SumFailure(Aggregate(cfg, zones, base, hasDeciduous).error, cfg.historicalYears + cfg.futureYears,
                           hasDeciduous)
  {
    if hasDeciduous || |MedianKeys(cfg)| == 0 {
      var withMedians := base + Medians(cfg, base);
      HistoricalStatewideOk(cfg, zones, withMedians, hasDeciduous);
      var h := HistoricalStatewide(cfg, zones, withMedians, hasDeciduous);
      if h.Ok? {
        var step := StatewideSteps(cfg, zones, hasDeciduous);
        var allowed := (e: Error) => SumFailure(e, cfg.futureYears, hasDeciduous);
        forall k, t | k in StatewideKeys(cfg) && step(k, t).Err?
          ensures allowed(step(k, t).error)
        {
          assert step(k, t) == StatewideStep(cfg, zones, k, t, hasDeciduous);
          StatewideStepFails(cfg, zones, k, t, hasDeciduous);
        }
        AppendLoopErr(StatewideKeys(cfg), withMedians + h.value, step, allowed);
      }
    }
  }

  /** A run fails only on a planned run without spruce data, on a plan
      without any run, on a year with no zone row or a single one, or on a
      table without the deciduous column. */
  lemma ProcessFails(cfg: Settings, files: Files, dataDir: string)
    ensures Process(cfg, files, dataDir).Err?
            ==> || Process(cfg, files, dataDir).error.MissingSpruce?
                || (Process(cfg, files, dataDir).error == NoFrames && forall job :: !Planned(cfg, job))
                || SumFailure(Process(cfg, files, dataDir).error, cfg.historicalYears + cfg.futureYears,
                              HasDeciduous(cfg, files, dataDir))
  {
    var b := BaseRows(cfg, files, dataDir);
    if b.Err? {
      BaseRowsOk(cfg, files, dataDir);
    } else if |VegJobs(cfg)| == 0 {
      forall job
        ensures !Planned(cfg, job)
      {
        VegJobsArePlanned(cfg, job);
      }
    } else {
      AggregateFails(cfg, ZoneCodes(), b.value, HasDeciduous(cfg, files, dataDir));
    }
  }

  /** With no planned run there is no frame to concatenate. */
  lemma ProcessOfNoRuns(cfg: Settings, files: Files, dataDir: string)
    requires forall job :: !Planned(cfg, job)
    ensures Process(cfg, files, dataDir) == Err(NoFrames)
  {
    if |VegJobs(cfg)| > 0 {
      VegJobsArePlanned(cfg, VegJobs(cfg)[0]);
    }
  }

  /** When every planned run has spruce data but no planned run has a
      deciduous file, `process` stops on the first median's deciduous column. */
  lemma ProcessNeedsDeciduous(cfg: Settings, files: Files, dataDir: string, job: Job)
    requires Planned(cfg, job)
    requires forall j :: Planned(cfg, j) ==> HasSpruce(cfg, files, dataDir, j)
    requires forall j :: Planned(cfg, j) ==> ForestPath(cfg, dataDir, j, DeciduousForest) !in files
    ensures Process(cfg, files, dataDir) == Err(MissingColumn(DeciduousColumn))
  {
    BaseRowsOk(cfg, files, dataDir);
    forall j | j in VegJobs(cfg)
      ensures ForestPath(cfg, dataDir, j, DeciduousForest) !in files
    {
      VegJobsArePlanned(cfg, j);
    }
    VegJobsArePlanned(cfg, job);
    MedianKeysOfPlanned(cfg, job);
  }

  /** A planned run's region gives the medians a key. */
  lemma MedianKeysOfPlanned(cfg: Settings, job: Job)
    requires Planned(cfg, job)
    ensures |MedianKeys(cfg)| > 0
  {
    var p :| 0 <= p < |cfg.spatialPrefixMap| && job.spatialPrefix == cfg.spatialPrefixMap[p].0
             && job.region in cfg.spatialPrefixMap[p].1;
    CrossesNonEmpty(TreatmentCodes(), ScenarioCodes(), cfg.spatialPrefixMap, p, job.region);
  }
}
