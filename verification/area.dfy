/** Total area burned: one row per year of every historical and future run
    of every region (the replicate mean), then a five-model average per
    region, treatment and scenario, then "AllFMZs" rows summing the fire
    management zones. */
module Area {
  import opened Wrappers
  import opened Stats
  import opened Paths
  import opened Table
  import opened Luts
  import opened Settings
  import opened Runs

  const AllZones: string := "AllFMZs"

  /** One row of the area table, indexed by year. Historical rows leave the
      scenario and the model unset (pandas: NaN). */
  datatype AreaRow = AreaRow(
    year: int,
    treatment: string,
    scenario: Option<string>,
    model: Option<string>,
    region: string,
    /** Square kilometres burned. */
    area: Option<real>)

  // ---------------------------------------------------------------------------
  // Source files
  // ---------------------------------------------------------------------------

  /** `get_source_filename`: whatever the directories, the file is named
      after the region and the run. */
  function SourceFilename(dataDir: string, spatialPrefix: string, treatment: string, prefix: string,
                          postfix: string, region: string): (path: string)
    ensures EndsWith(path, "alfresco_totalareaburned" + "_" + region + "_" + prefix + "_" + postfix + ".csv")
  {
    var filename := Join("_", ["alfresco_totalareaburned", region, prefix, postfix]) + ".csv";
    Join4("_", "alfresco_totalareaburned", region, prefix, postfix);
    PathJoinEndsWith(dataDir, [spatialPrefix, treatment, prefix, "total_area_burned", filename]);
    PathJoin(dataDir, [spatialPrefix, treatment, prefix, "total_area_burned", filename])
  }

  /** The treatment directory of a run: the historical category for the
      historical run. */
  function RunTreatment(cfg: Settings, source: Source): string
  {
    if source.Historical? then cfg.historicalCategory else source.treatment
  }

  /** The run directory, which also names the file. */
  function RunPrefix(cfg: Settings, source: Source): string
  {
    if source.Historical? then cfg.historicalFmoPrefix
    else Join("_", [cfg.fmoPrefix, source.scenario, source.model])
  }

  function RunPostfix(cfg: Settings, source: Source): string
  {
    if source.Historical? then cfg.historicalDatePostfix else cfg.datePostfix
  }

  /** The source file of a run. */
  function JobPath(cfg: Settings, dataDir: string, job: Job): string
  {
    SourceFilename(dataDir, job.spatialPrefix, RunTreatment(cfg, job.source), RunPrefix(cfg, job.source),
                   RunPostfix(cfg, job.source), job.region)
  }

  lemma SourceFilenameShape(dataDir: string, spatialPrefix: string, treatment: string, prefix: string,
                            postfix: string, region: string)
    requires Dir(dataDir) && Name(spatialPrefix) && Name(treatment) && Name(prefix) && Name(postfix) && Name(region)
    ensures SourceFilename(dataDir, spatialPrefix, treatment, prefix, postfix, region)
            == dataDir + "/" + spatialPrefix + "/" + treatment + "/" + prefix + "/" + "total_area_burned"
               + "/" + ("alfresco_totalareaburned" + "_" + region + "_" + prefix + "_" + postfix + ".csv")
  {
    CsvName(region, prefix, postfix);
    var filename := Join("_", ["alfresco_totalareaburned", region, prefix, postfix]) + ".csv";
    PathJoin5(dataDir, spatialPrefix, treatment, prefix, "total_area_burned", filename);
  }

  /** A historical run reads the historical category and the historical
      prefix and postfix. */
  lemma HistoricalSourcePath(cfg: Settings, dataDir: string, spatialPrefix: string, region: string)
    requires PlainNames(cfg) && Dir(dataDir) && Name(spatialPrefix) && Name(region)
    ensures JobPath(cfg, dataDir, Job(spatialPrefix, region, Historical))
            == dataDir + "/" + spatialPrefix + "/" + cfg.historicalCategory + "/" + cfg.historicalFmoPrefix + "/" + "total_area_burned"
               + "/" + ("alfresco_totalareaburned" + "_" + region + "_" + cfg.historicalFmoPrefix + "_" + cfg.historicalDatePostfix + ".csv")
  {
    SourceFilenameShape(dataDir, spatialPrefix, cfg.historicalCategory, cfg.historicalFmoPrefix, cfg.historicalDatePostfix, region);
  }

  /** A future run reads its treatment and the prefix-scenario-model fragment,
      with the future postfix. */
  lemma FutureSourcePath(cfg: Settings, dataDir: string, spatialPrefix: string, region: string,
                         treatment: string, scenario: string, model: string)
    requires PlainNames(cfg) && Dir(dataDir) && Name(spatialPrefix) && Name(region)
    requires Name(treatment) && Name(scenario) && Name(model)
    ensures JobPath(cfg, dataDir, Job(spatialPrefix, region, Future(treatment, scenario, model)))
            == dataDir + "/" + spatialPrefix + "/" + treatment + "/" + (cfg.fmoPrefix + "_" + scenario + "_" + model) + "/" + "total_area_burned"
               + "/" + ("alfresco_totalareaburned" + "_" + region + "_" + (cfg.fmoPrefix + "_" + scenario + "_" + model) + "_" + cfg.datePostfix + ".csv")
  {
    FragmentName(cfg.fmoPrefix, scenario, model);
    SourceFilenameShape(dataDir, spatialPrefix, treatment, cfg.fmoPrefix + "_" + scenario + "_" + model, cfg.datePostfix, region);
  }

  /** Two regions of the same run never share a source file. */
  lemma SourceFilenameSeparatesRegions(dataDir: string, spatialPrefix: string, treatment: string, prefix: string,
                                       postfix: string, r1: string, r2: string)
    requires SourceFilename(dataDir, spatialPrefix, treatment, prefix, postfix, r1)
          == SourceFilename(dataDir, spatialPrefix, treatment, prefix, postfix, r2)
    ensures r1 == r2
  {
    var tail := [spatialPrefix, treatment, prefix, "total_area_burned"];
    var f1 := Join("_", ["alfresco_totalareaburned", r1, prefix, postfix]) + ".csv";
    var f2 := Join("_", ["alfresco_totalareaburned", r2, prefix, postfix]) + ".csv";
    assert tail + [f1] == [spatialPrefix, treatment, prefix, "total_area_burned", f1];
    assert tail + [f2] == [spatialPrefix, treatment, prefix, "total_area_burned", f2];
    FileNameSeparates(dataDir, tail, prefix, postfix, r1, r2);
  }

  // ---------------------------------------------------------------------------
  // Per-run rows
  // ---------------------------------------------------------------------------

  function JobYears(cfg: Settings, source: Source): seq<int>
  {
    if source.Historical? then cfg.historicalYears else cfg.futureYears
  }

  /** The row of one year of a run: the run's labels and the replicate mean
      of that year in its file (missing when the file lacks the year). */
  function JobRow(cfg: Settings, job: Job, csv: Csv, year: int): AreaRow
  {
    match job.source
    case Historical => AreaRow(year, cfg.historicalCategory, None, None, job.region, MeanAt(csv, year))
    case Future(t, s, m) => AreaRow(year, t, Some(s), Some(m), job.region, MeanAt(csv, year))
  }

  /** The frame of one run; reading a file that does not exist fails. */
  function JobFrame(cfg: Settings, files: Files, dataDir: string, job: Job): (r: Result<seq<AreaRow>, Error>)
    ensures r.Ok? <==> JobPath(cfg, dataDir, job) in files
    ensures r.Err? ==> r.error == MissingFile(JobPath(cfg, dataDir, job))
    ensures r.Ok? ==> |r.value| == |JobYears(cfg, job.source)|
    ensures r.Ok? ==> forall i :: 0 <= i < |r.value| ==>
              && r.value[i].year == JobYears(cfg, job.source)[i] && r.value[i].region == job.region
              && r.value[i].area == MeanAt(files[JobPath(cfg, dataDir, job)], r.value[i].year)
  {
    var csv :- ReadCsv(files, JobPath(cfg, dataDir, job));
    var years := JobYears(cfg, job.source);
    Ok(seq(|years|, i requires 0 <= i < |years| => JobRow(cfg, job, csv, years[i])))
  }

  function JobFrames(cfg: Settings, files: Files, dataDir: string): Job -> Result<seq<AreaRow>, Error>
  {
    job => JobFrame(cfg, files, dataDir, job)
  }

  /** The per-model rows of every run, in loop order. */
  function BaseRows(cfg: Settings, files: Files, dataDir: string): Result<seq<AreaRow>, Error>
  {
    CollectAll(AreaJobs(cfg), JobFrames(cfg, files, dataDir))
  }

  /** Reading the runs succeeds exactly when every planned run's file exists,
      and otherwise fails on the file of a planned run that does not. */
  lemma BaseRowsOk(cfg: Settings, files: Files, dataDir: string)
    ensures BaseRows(cfg, files, dataDir).Ok? <==> forall job :: Planned(cfg, job) ==> JobPath(cfg, dataDir, job) in files
    ensures BaseRows(cfg, files, dataDir).Err?
            ==> exists job :: && Planned(cfg, job) && JobPath(cfg, dataDir, job) !in files
                              && BaseRows(cfg, files, dataDir).error == MissingFile(JobPath(cfg, dataDir, job))
  {
    var f := JobFrames(cfg, files, dataDir);
    forall job
      ensures job in AreaJobs(cfg) <==> Planned(cfg, job)
      ensures f(job).Ok? <==> JobPath(cfg, dataDir, job) in files
    {
      AreaJobsArePlanned(cfg, job);
      assert f(job) == JobFrame(cfg, files, dataDir, job);
    }
    var r := BaseRows(cfg, files, dataDir);
    if r.Err? {
      var job :| job in AreaJobs(cfg) && f(job) == Err(r.error);
      assert f(job) == JobFrame(cfg, files, dataDir, job);
    }
  }

  /** The rows of one run's frame are the replicate means of the run's years. */
  lemma JobFrameRows(cfg: Settings, files: Files, dataDir: string, job: Job, row: AreaRow)
    requires JobFrame(cfg, files, dataDir, job).Ok? && row in JobFrame(cfg, files, dataDir, job).value
    ensures JobPath(cfg, dataDir, job) in files && row.year in JobYears(cfg, job.source)
    ensures row == JobRow(cfg, job, files[JobPath(cfg, dataDir, job)], row.year)
  {
    var frame := JobFrame(cfg, files, dataDir, job).value;
    var i :| 0 <= i < |frame| && frame[i] == row;
    assert JobYears(cfg, job.source)[i] == row.year;
  }

  lemma JobFrameCovers(cfg: Settings, files: Files, dataDir: string, job: Job, y: int)
    requires JobPath(cfg, dataDir, job) in files && y in JobYears(cfg, job.source)
    ensures JobFrame(cfg, files, dataDir, job).Ok?
    ensures JobRow(cfg, job, files[JobPath(cfg, dataDir, job)], y) in JobFrame(cfg, files, dataDir, job).value
  {
    var years := JobYears(cfg, job.source);
    var i :| 0 <= i < |years| && years[i] == y;
    assert JobFrame(cfg, files, dataDir, job).value[i] == JobRow(cfg, job, files[JobPath(cfg, dataDir, job)], y);
  }

  /** Every row read is the replicate mean of its year in its own planned
      run's file ... */
  lemma BaseRowsAreMeans(cfg: Settings, files: Files, dataDir: string, row: AreaRow)
    requires BaseRows(cfg, files, dataDir).Ok? && row in BaseRows(cfg, files, dataDir).value
    ensures exists job :: && Planned(cfg, job) && JobPath(cfg, dataDir, job) in files
                          && row.year in JobYears(cfg, job.source)
                          && row == JobRow(cfg, job, files[JobPath(cfg, dataDir, job)], row.year)
  {
    var f := JobFrames(cfg, files, dataDir);
    CollectAllMembers(AreaJobs(cfg), f);
    var job :| job in AreaJobs(cfg) && f(job).Ok? && row in f(job).value;
    AreaJobsArePlanned(cfg, job);
    JobFrameRows(cfg, files, dataDir, job, row);
  }

  /** ... and every year of every planned run has its row. */
  lemma BaseRowsCover(cfg: Settings, files: Files, dataDir: string, job: Job, y: int)
    requires BaseRows(cfg, files, dataDir).Ok? && Planned(cfg, job) && y in JobYears(cfg, job.source)
    ensures JobPath(cfg, dataDir, job) in files
    ensures JobRow(cfg, job, files[JobPath(cfg, dataDir, job)], y) in BaseRows(cfg, files, dataDir).value
  {
    var f := JobFrames(cfg, files, dataDir);
    AreaJobsArePlanned(cfg, job);
    JobFrameCovers(cfg, files, dataDir, job, y);
    CollectAllMembers(AreaJobs(cfg), f);
  }

  // ---------------------------------------------------------------------------
  // Filtered columns aligned on a year index
  // ---------------------------------------------------------------------------

  /** The rows one column of a wide frame is taken from. A filter without a
      scenario or model matches any value there. */
  datatype Filter = Filter(region: string, treatment: string, scenario: Option<string>, model: Option<string>)

  predicate Passes(f: Filter, row: AreaRow)
  {
    && row.region == f.region && row.treatment == f.treatment
    && (f.scenario.Some? ==> row.scenario == f.scenario)
    && (f.model.Some? ==> row.model == f.model)
  }

  function PassesFilter(f: Filter): AreaRow -> bool
  {
    row => Passes(f, row)
  }

  function PassesIn(f: Filter, year: int): AreaRow -> bool
  {
    row => Passes(f, row) && row.year == year
  }

  function YearOf(row: AreaRow): int { row.year }
  function AreaOf(row: AreaRow): Option<real> { row.area }

  predicate NoRepeats(s: seq<int>)
  {
    forall i, j :: 0 <= i < j < |s| ==> s[i] != s[j]
  }

  /** pandas aligns a filtered column on a frame's year index only when the
      column's own index repeats no year. */
  predicate Alignable(table: seq<AreaRow>, f: Filter)
  {
    NoRepeats(Select(table, PassesFilter(f), YearOf))
  }

  predicate AllAlignable(table: seq<AreaRow>, filters: seq<Filter>)
  {
    forall j :: 0 <= j < |filters| ==> Alignable(table, filters[j])
  }

  /** The value an aligned column holds for `year`: the area of the filtered
      row of that year, missing when there is none. */
  function ValueAt(table: seq<AreaRow>, f: Filter, year: int): Option<real>
  {
    var vs := Select(table, PassesIn(f, year), AreaOf);
    if |vs| == 0 then None else vs[0]
  }

  /** One year's row of a wide frame whose columns are the filters. */
  function Aligned(table: seq<AreaRow>, filters: seq<Filter>, year: int): seq<Option<real>>
  {
    seq(|filters|, j requires 0 <= j < |filters| => ValueAt(table, filters[j], year))
  }

  lemma NoRepeatsCons(a: int, rest: seq<int>)
    requires NoRepeats([a] + rest)
    ensures NoRepeats(rest) && a !in rest
  {
    var s := [a] + rest;
    forall i, j | 0 <= i < j < |rest|
      ensures rest[i] != rest[j]
    {
      assert rest[i] == s[i + 1] && rest[j] == s[j + 1];
    }
    forall k | 0 <= k < |rest|
      ensures rest[k] != a
    {
      assert rest[k] == s[k + 1] && s[0] == a;
    }
  }

  /** The rows after the first of an alignable column are alignable. */
  lemma AlignableTail(table: seq<AreaRow>, f: Filter)
    requires Alignable(table, f) && |table| > 0
    ensures Alignable(table[1..], f)
  {
    var rest := Select(table[1..], PassesFilter(f), YearOf);
    if Passes(f, table[0]) {
      assert Select(table, PassesFilter(f), YearOf) == [table[0].year] + rest;
      NoRepeatsCons(table[0].year, rest);
    } else {
      assert Select(table, PassesFilter(f), YearOf) == rest;
    }
  }

  /** In an alignable column, no later filtered row repeats the year of a
      filtered first row. */
  lemma FirstYearUnique(table: seq<AreaRow>, f: Filter, i: int)
    requires Alignable(table, f) && 0 < i < |table| && Passes(f, table[0]) && Passes(f, table[i])
    ensures table[i].year != table[0].year
  {
    var rest := Select(table[1..], PassesFilter(f), YearOf);
    assert Select(table, PassesFilter(f), YearOf) == [table[0].year] + rest;
    NoRepeatsCons(table[0].year, rest);
    assert PassesFilter(f)(table[1..][i - 1]);
    assert table[i].year in rest;
  }

  /** A filtered first row gives the value at its own year. */
  lemma ValueAtHead(table: seq<AreaRow>, f: Filter)
    requires |table| > 0 && Passes(f, table[0])
    ensures ValueAt(table, f, table[0].year) == table[0].area
  {
    assert PassesIn(f, table[0].year)(table[0]);
    SelectHead(table, PassesIn(f, table[0].year), AreaOf);
  }

  /** A first row that is not of `year` or fails the filter does not matter. */
  lemma ValueAtSkip(table: seq<AreaRow>, f: Filter, year: int)
    requires |table| > 0 && !(Passes(f, table[0]) && table[0].year == year)
    ensures ValueAt(table, f, year) == ValueAt(table[1..], f, year)
  {
    assert !PassesIn(f, year)(table[0]);
    SelectSkip(table, PassesIn(f, year), AreaOf);
  }

  /** In an alignable column, two filtered rows have different years. */
  lemma {:induction false} AlignedYearsDiffer(table: seq<AreaRow>, f: Filter, i: int, k: int)
    requires Alignable(table, f) && 0 <= i < k < |table| && Passes(f, table[i]) && Passes(f, table[k])
    ensures table[i].year != table[k].year
  {
    if i == 0 {
      FirstYearUnique(table, f, k);
    } else {
      AlignableTail(table, f);
      assert table[1..][i - 1] == table[i] && table[1..][k - 1] == table[k];
      AlignedYearsDiffer(table[1..], f, i - 1, k - 1);
    }
  }

  /** A filtered row whose year no other filtered row has gives the value at
      that year. */
  lemma {:induction false} ValueAtUnique(table: seq<AreaRow>, f: Filter, i: int)
    requires 0 <= i < |table| && Passes(f, table[i])
    requires forall k :: 0 <= k < |table| && k != i && Passes(f, table[k]) ==> table[k].year != table[i].year
    ensures ValueAt(table, f, table[i].year) == table[i].area
  {
    if i == 0 {
      ValueAtHead(table, f);
    } else {
      var tail := table[1..];
      ValueAtSkip(table, f, table[i].year);
      forall k | 0 <= k < |tail| && k != i - 1 && Passes(f, tail[k])
        ensures tail[k].year != tail[i - 1].year
      {
        assert tail[k] == table[k + 1];
      }
      ValueAtUnique(tail, f, i - 1);
    }
  }

  /** In an alignable column, each filtered row's area sits at its own year. */
  lemma ValueAtRow(table: seq<AreaRow>, f: Filter, i: int)
    requires Alignable(table, f) && 0 <= i < |table| && Passes(f, table[i])
    ensures ValueAt(table, f, table[i].year) == table[i].area
  {
    forall k | 0 <= k < |table| && k != i && Passes(f, table[k])
      ensures table[k].year != table[i].year
    {
      if k < i {
        AlignedYearsDiffer(table, f, k, i);
      } else {
        AlignedYearsDiffer(table, f, i, k);
      }
    }
    ValueAtUnique(table, f, i);
  }

  /** A year with no filtered row is missing from the column. */
  lemma ValueAtMissing(table: seq<AreaRow>, f: Filter, year: int)
    requires forall i :: 0 <= i < |table| ==> !(Passes(f, table[i]) && table[i].year == year)
    ensures ValueAt(table, f, year) == None
  {
    SelectNone(table, PassesIn(f, year), AreaOf);
  }

  /** Rows no filter passes change neither alignment nor values. */
  lemma FiltersIgnore(table: seq<AreaRow>, extra: seq<AreaRow>, filters: seq<Filter>)
    requires forall i, j :: 0 <= i < |extra| && 0 <= j < |filters| ==> !Passes(filters[j], extra[i])
    ensures AllAlignable(table + extra, filters) == AllAlignable(table, filters)
    ensures forall y :: Aligned(table + extra, filters, y) == Aligned(table, filters, y)
  {
    forall j | 0 <= j < |filters|
      ensures Select(table + extra, PassesFilter(filters[j]), YearOf) == Select(table, PassesFilter(filters[j]), YearOf)
    {
      SelectIgnoresRejected(table, extra, PassesFilter(filters[j]), YearOf);
    }
    forall y
      ensures Aligned(table + extra, filters, y) == Aligned(table, filters, y)
    {
      forall j | 0 <= j < |filters|
        ensures ValueAt(table + extra, filters[j], y) == ValueAt(table, filters[j], y)
      {
        SelectIgnoresRejected(table, extra, PassesIn(filters[j], y), AreaOf);
      }
    }
  }

  /** Some row passing the filter has area `v` in `year`. */
  predicate HasRow(table: seq<AreaRow>, f: Filter, year: int, v: real)
  {
    exists i :: 0 <= i < |table| && Passes(f, table[i]) && table[i].year == year && table[i].area == Some(v)
  }

  /** When every column has its row of `year`, the frame's row for that year
      holds exactly those areas. */
  lemma AlignedRows(table: seq<AreaRow>, filters: seq<Filter>, year: int, vs: seq<real>)
    requires AllAlignable(table, filters) && |vs| == |filters|
    requires forall j :: 0 <= j < |filters| ==> HasRow(table, filters[j], year, vs[j])
    ensures Aligned(table, filters, year) == seq(|vs|, j requires 0 <= j < |vs| => Some(vs[j]))
  {
    forall j | 0 <= j < |filters|
      ensures ValueAt(table, filters[j], year) == Some(vs[j])
    {
      var i :| 0 <= i < |table| && Passes(filters[j], table[i]) && table[i].year == year && table[i].area == Some(vs[j]);
      ValueAtRow(table, filters[j], i);
    }
  }

  /** When no column has a row of `year`, the frame's row for that year is all missing. */
  lemma AlignedNone(table: seq<AreaRow>, filters: seq<Filter>, year: int)
    requires forall i, j :: 0 <= i < |table| && 0 <= j < |filters| ==> !(Passes(filters[j], table[i]) && table[i].year == year)
    ensures Present(Aligned(table, filters, year)) == []
  {
    forall j | 0 <= j < |filters|
      ensures ValueAt(table, filters[j], year) == None
    {
      ValueAtMissing(table, filters[j], year);
    }
    PresentOfNone(Aligned(table, filters, year));
  }

  // ---------------------------------------------------------------------------
  // Five-model averages
  // ---------------------------------------------------------------------------

  /** Region, treatment and scenario of a five-model average. */
  type AvgKey = (string, string, string)

  /** One column per model, of the rows of the key's region, treatment and scenario. */
  function ModelColumns(models: seq<string>, k: AvgKey): seq<Filter>
  {
    seq(|models|, j requires 0 <= j < |models| => Filter(k.0, k.1, Some(k.2), Some(models[j])))
  }

  /** The average row of one year: the mean of the models' areas present. */
  function AverageRow(models: seq<string>, k: AvgKey, table: seq<AreaRow>, year: int): AreaRow
  {
    AreaRow(year, k.1, Some(k.2), Some(ModelAverage), k.0, MeanSkipNa(Aligned(table, ModelColumns(models, k), year)))
  }

  function AverageStep(models: seq<string>, years: seq<int>, k: AvgKey, table: seq<AreaRow>): Result<seq<AreaRow>, Error>
  {
    if AllAlignable(table, ModelColumns(models, k))
    then Ok(seq(|years|, i requires 0 <= i < |years| => AverageRow(models, k, table, years[i])))
    else Err(DuplicateIndex)
  }

  function AverageSteps(models: seq<string>, years: seq<int>): (AvgKey, seq<AreaRow>) -> Result<seq<AreaRow>, Error>
  {
    (k, table) => AverageStep(models, years, k, table)
  }

  function AveragesFrom(models: seq<string>, years: seq<int>, table: seq<AreaRow>): AvgKey -> Result<seq<AreaRow>, Error>
  {
    k => AverageStep(models, years, k, table)
  }

  /** Region, treatment, scenario, for the regions of each spatial prefix in turn. */
  function AverageKeys(cfg: Settings): seq<AvgKey>
  {
    var m := cfg.spatialPrefixMap;
    Flatten(seq(|m|, p requires 0 <= p < |m| => Cross3(m[p].1, TreatmentCodes(), ScenarioCodes())))
  }

  /** The rows the average of `k` reads: a listed model's row of its region,
      treatment and scenario. */
  predicate ReadsModel(models: seq<string>, k: AvgKey, row: AreaRow)
  {
    && row.region == k.0 && row.treatment == k.1 && row.scenario == Some(k.2)
    && row.model.Some? && row.model.value in models
  }

  function AverageReads(models: seq<string>): (AvgKey, AreaRow) -> bool
  {
    (k, row) => ReadsModel(models, k, row)
  }

  /** When each model has its row of the year, the average is the mean of
      their areas ... */
  lemma AverageIsModelMean(models: seq<string>, k: AvgKey, table: seq<AreaRow>, year: int, vs: seq<real>)
    requires AllAlignable(table, ModelColumns(models, k)) && |vs| == |models|
    requires forall j :: 0 <= j < |vs| ==> HasRow(table, ModelColumns(models, k)[j], year, vs[j])
    ensures AverageRow(models, k, table, year).area == Mean(vs)
  {
    AlignedRows(table, ModelColumns(models, k), year, vs);
    PresentOfSome(vs);
  }

  /** ... and missing when no model has a row of that year. */
  lemma AverageOfNoRows(models: seq<string>, k: AvgKey, table: seq<AreaRow>, year: int)
    requires forall i :: 0 <= i < |table| ==> !(ReadsModel(models, k, table[i]) && table[i].year == year)
    ensures AverageRow(models, k, table, year).area == None
  {
    var filters := ModelColumns(models, k);
    forall i, j | 0 <= i < |table| && 0 <= j < |filters|
      ensures !(Passes(filters[j], table[i]) && table[i].year == year)
    {
      assert models[j] in models;
    }
    AlignedNone(table, filters, year);
  }

  lemma ModelColumnsRead(models: seq<string>, k: AvgKey, j: int, row: AreaRow)
    requires 0 <= j < |models| && Passes(ModelColumns(models, k)[j], row)
    ensures ReadsModel(models, k, row)
  {
    assert models[j] in models;
  }

  lemma AverageStepLocal(models: seq<string>, years: seq<int>, k: AvgKey, table: seq<AreaRow>, extra: seq<AreaRow>)
    requires forall i :: 0 <= i < |extra| ==> !ReadsModel(models, k, extra[i])
    ensures AverageStep(models, years, k, table + extra) == AverageStep(models, years, k, table)
  {
    var filters := ModelColumns(models, k);
    forall i, j | 0 <= i < |extra| && 0 <= j < |filters|
      ensures !Passes(filters[j], extra[i])
    {
      if Passes(filters[j], extra[i]) {
        ModelColumnsRead(models, k, j, extra[i]);
      }
    }
    FiltersIgnore(table, extra, filters);
    if AllAlignable(table, filters) {
      var a := AverageStep(models, years, k, table + extra).value;
      var b := AverageStep(models, years, k, table).value;
      forall i | 0 <= i < |years|
        ensures a[i] == b[i]
      {
        assert Aligned(table + extra, filters, years[i]) == Aligned(table, filters, years[i]);
      }
      assert a == b;
    }
  }

  /** The averages read only their own key's model rows and write rows of a
      model that is not listed. */
  lemma AverageStepsAreLocal(models: seq<string>, years: seq<int>)
    requires ModelAverage !in models
    ensures LocalStep(AverageSteps(models, years), AverageReads(models))
    ensures InertOutputs(AverageSteps(models, years), AverageReads(models))
  {
    forall k, t, extra | Untouched(AverageReads(models), k, extra)
      ensures AverageSteps(models, years)(k, t + extra) == AverageSteps(models, years)(k, t)
    {
      AverageStepLocal(models, years, k, t, extra);
    }
  }

  // ---------------------------------------------------------------------------
  // Sums over the fire management zones
  // ---------------------------------------------------------------------------

  /** One column per zone, of the rows of the given treatment (and scenario
      and model, when given). */
  function ZoneColumns(zones: seq<string>, treatment: string, scenario: Option<string>, model: Option<string>): seq<Filter>
  {
    seq(|zones|, j requires 0 <= j < |zones| => Filter(zones[j], treatment, scenario, model))
  }

  /** The "AllFMZs" row of one year: the zones' areas summed, missing ones
      skipped (all missing sums to 0). */
  function ZoneSumRow(zones: seq<string>, year: int, treatment: string, scenario: Option<string>, model: Option<string>,
                      table: seq<AreaRow>): AreaRow
  {
    AreaRow(year, treatment, scenario, model, AllZones,
            Some(SumSkipNa(Aligned(table, ZoneColumns(zones, treatment, scenario, model), year))))
  }

  function ZoneSumFrame(zones: seq<string>, years: seq<int>, treatment: string, scenario: Option<string>, model: Option<string>,
                        table: seq<AreaRow>): Result<seq<AreaRow>, Error>
  {
    if AllAlignable(table, ZoneColumns(zones, treatment, scenario, model))
    then Ok(seq(|years|, i requires 0 <= i < |years| => ZoneSumRow(zones, years[i], treatment, scenario, model, table)))
    else Err(DuplicateIndex)
  }

  /** The historical sum filters the zones on the historical treatment only. */
  function HistoricalStatewide(zones: seq<string>, cfg: Settings, table: seq<AreaRow>): Result<seq<AreaRow>, Error>
  {
    ZoneSumFrame(zones, cfg.historicalYears, cfg.historicalCategory, None, None, table)
  }

  function StatewideStep(zones: seq<string>, years: seq<int>, k: Key, table: seq<AreaRow>): Result<seq<AreaRow>, Error>
  {
    ZoneSumFrame(zones, years, k.0, Some(k.1), Some(k.2), table)
  }

  function StatewideSteps(zones: seq<string>, years: seq<int>): (Key, seq<AreaRow>) -> Result<seq<AreaRow>, Error>
  {
    (k, table) => StatewideStep(zones, years, k, table)
  }

  function StatewidesFrom(zones: seq<string>, years: seq<int>, table: seq<AreaRow>): Key -> Result<seq<AreaRow>, Error>
  {
    k => StatewideStep(zones, years, k, table)
  }

  /** Treatment, scenario, model, the five-model average included. */
  function StatewideKeys(): seq<Key>
  {
    Cross3(TreatmentCodes(), ScenarioCodes(), ModelCodes() + [ModelAverage])
  }

  /** The rows the future sum of `k` reads: zone rows of its treatment,
      scenario and model. */
  predicate ReadsZone(zones: seq<string>, k: Key, row: AreaRow)
  {
    row.region in zones && row.treatment == k.0 && row.scenario == Some(k.1) && row.model == Some(k.2)
  }

  function ZoneReads(zones: seq<string>): (Key, AreaRow) -> bool
  {
    (k, row) => ReadsZone(zones, k, row)
  }

  lemma ZoneColumnsRead(zones: seq<string>, treatment: string, scenario: Option<string>, model: Option<string>,
                        j: int, row: AreaRow)
    requires 0 <= j < |zones| && Passes(ZoneColumns(zones, treatment, scenario, model)[j], row)
    ensures row.region in zones
  {
    assert zones[j] in zones;
  }

  lemma ZoneSumRowsAgree(zones: seq<string>, years: seq<int>, treatment: string, scenario: Option<string>, model: Option<string>,
                         table: seq<AreaRow>, extra: seq<AreaRow>)
    requires forall i, j :: 0 <= i < |extra| && 0 <= j < |zones|
               ==> !Passes(ZoneColumns(zones, treatment, scenario, model)[j], extra[i])
    ensures ZoneSumFrame(zones, years, treatment, scenario, model, table + extra)
            == ZoneSumFrame(zones, years, treatment, scenario, model, table)
  {
    var filters := ZoneColumns(zones, treatment, scenario, model);
    FiltersIgnore(table, extra, filters);
    if AllAlignable(table, filters) {
      var a := ZoneSumFrame(zones, years, treatment, scenario, model, table + extra).value;
      var b := ZoneSumFrame(zones, years, treatment, scenario, model, table).value;
      forall i | 0 <= i < |years|
        ensures a[i] == b[i]
      {
        assert Aligned(table + extra, filters, years[i]) == Aligned(table, filters, years[i]);
      }
      assert a == b;
    }
  }

  /** Rows of regions that are not zones never change a zone sum ... */
  lemma ZoneSumIgnoresOtherRegions(zones: seq<string>, years: seq<int>, treatment: string, scenario: Option<string>,
                                   model: Option<string>, table: seq<AreaRow>, extra: seq<AreaRow>)
    requires forall i :: 0 <= i < |extra| ==> extra[i].region !in zones
    ensures ZoneSumFrame(zones, years, treatment, scenario, model, table + extra)
            == ZoneSumFrame(zones, years, treatment, scenario, model, table)
  {
    forall i, j | 0 <= i < |extra| && 0 <= j < |zones|
      ensures !Passes(ZoneColumns(zones, treatment, scenario, model)[j], extra[i])
    {
      if Passes(ZoneColumns(zones, treatment, scenario, model)[j], extra[i]) {
        ZoneColumnsRead(zones, treatment, scenario, model, j, extra[i]);
      }
    }
    ZoneSumRowsAgree(zones, years, treatment, scenario, model, table, extra);
  }

  /** ... so the ecoregions are never summed into the statewide figures. */
  lemma StatewideIgnoresEcoregions(years: seq<int>, treatment: string, scenario: Option<string>, model: Option<string>,
                                   table: seq<AreaRow>, extra: seq<AreaRow>)
    requires forall i :: 0 <= i < |extra| ==> extra[i].region in EcoregionCodes()
    ensures ZoneSumFrame(ZoneCodes(), years, treatment, scenario, model, table + extra)
            == ZoneSumFrame(ZoneCodes(), years, treatment, scenario, model, table)
  {
    ZonesAndEcoregionsDisjoint();
    ZoneSumIgnoresOtherRegions(ZoneCodes(), years, treatment, scenario, model, table, extra);
  }

  /** When each zone has its row of the year, the sum is the sum of their areas. */
  lemma ZoneSumOfRows(zones: seq<string>, year: int, treatment: string, scenario: Option<string>, model: Option<string>,
                      table: seq<AreaRow>, vs: seq<real>)
    requires AllAlignable(table, ZoneColumns(zones, treatment, scenario, model)) && |vs| == |zones|
    requires forall j :: 0 <= j < |vs| ==> HasRow(table, Filter(zones[j], treatment, scenario, model), year, vs[j])
    ensures ZoneSumRow(zones, year, treatment, scenario, model, table).area == Some(Sum(vs))
  {
    var filters := ZoneColumns(zones, treatment, scenario, model);
    forall j | 0 <= j < |filters|
      ensures HasRow(table, filters[j], year, vs[j])
    {
      assert filters[j] == Filter(zones[j], treatment, scenario, model);
    }
    AlignedRows(table, filters, year, vs);
    PresentOfSome(vs);
  }

  /** ... and 0 when no zone has a row of that year. */
  lemma ZoneSumOfNoRows(zones: seq<string>, year: int, treatment: string, scenario: Option<string>, model: Option<string>,
                        table: seq<AreaRow>)
    requires forall i :: 0 <= i < |table| ==> !(table[i].region in zones && table[i].treatment == treatment && table[i].year == year)
    ensures ZoneSumRow(zones, year, treatment, scenario, model, table).area == Some(0.0)
  {
    var filters := ZoneColumns(zones, treatment, scenario, model);
    forall i, j | 0 <= i < |table| && 0 <= j < |filters|
      ensures !(Passes(filters[j], table[i]) && table[i].year == year)
    {
      assert zones[j] in zones;
    }
    AlignedNone(table, filters, year);
  }

  lemma StatewideStepLocal(zones: seq<string>, years: seq<int>, k: Key, table: seq<AreaRow>, extra: seq<AreaRow>)
    requires forall i :: 0 <= i < |extra| ==> !ReadsZone(zones, k, extra[i])
    ensures StatewideStep(zones, years, k, table + extra) == StatewideStep(zones, years, k, table)
  {
    var filters := ZoneColumns(zones, k.0, Some(k.1), Some(k.2));
    forall i, j | 0 <= i < |extra| && 0 <= j < |zones|
      ensures !Passes(filters[j], extra[i])
    {
      if Passes(filters[j], extra[i]) {
        ZoneColumnsRead(zones, k.0, Some(k.1), Some(k.2), j, extra[i]);
      }
    }
    ZoneSumRowsAgree(zones, years, k.0, Some(k.1), Some(k.2), table, extra);
  }

  /** The future sums read only zone rows of their own key and write rows of
      a region that is not a zone. */
  lemma StatewideStepsAreLocal(zones: seq<string>, years: seq<int>)
    requires AllZones !in zones
    ensures LocalStep(StatewideSteps(zones, years), ZoneReads(zones))
    ensures InertOutputs(StatewideSteps(zones, years), ZoneReads(zones))
  {
    forall k, t, extra | Untouched(ZoneReads(zones), k, extra)
      ensures StatewideSteps(zones, years)(k, t + extra) == StatewideSteps(zones, years)(k, t)
    {
      StatewideStepLocal(zones, years, k, t, extra);
    }
  }

  // ---------------------------------------------------------------------------
  // The whole step
  // ---------------------------------------------------------------------------

  /** `process`: the per-model rows, the averaging loop and the future
      zone-sum loop, each appending to the table the next key filters. */
  function Process(cfg: Settings, files: Files, dataDir: string): (r: Result<seq<AreaRow>, Error>)
    ensures BaseRows(cfg, files, dataDir).Err? ==> r == Err(BaseRows(cfg, files, dataDir).error)
    ensures r.Ok? ==> && BaseRows(cfg, files, dataDir).Ok?
                      && |BaseRows(cfg, files, dataDir).value| <= |r.value|
                      && r.value[..|BaseRows(cfg, files, dataDir).value|] == BaseRows(cfg, files, dataDir).value
  {
    var base :- BaseRows(cfg, files, dataDir);
    Aggregate(ZoneCodes(), ModelCodes(), cfg, base)
  }

  function Aggregate(zones: seq<string>, models: seq<string>, cfg: Settings, base: seq<AreaRow>): (r: Result<seq<AreaRow>, Error>)
    ensures r.Ok? ==> |base| <= |r.value| && r.value[..|base|] == base
  {
    var averaged :- AppendLoop(AverageKeys(cfg), base, AverageSteps(models, cfg.futureYears));
    var historical :- HistoricalStatewide(zones, cfg, averaged);
    var r := AppendLoop(StatewideKeys(), averaged + historical, StatewideSteps(zones, cfg.futureYears));
    assert r.Ok? ==> r.value[..|base|] == (averaged + historical)[..|base|];
    r
  }

  /** Reference definition: every average from the per-model rows, the
      historical sum from those and the averages, every future sum from all
      of them. */
  function ProcessBatch(cfg: Settings, files: Files, dataDir: string): Result<seq<AreaRow>, Error>
  {
    var base :- BaseRows(cfg, files, dataDir);
    AggregateBatch(ZoneCodes(), ModelCodes(), cfg, base)
  }

  function AggregateBatch(zones: seq<string>, models: seq<string>, cfg: Settings, base: seq<AreaRow>): Result<seq<AreaRow>, Error>
  {
    var averages :- CollectAll(AverageKeys(cfg), AveragesFrom(models, cfg.futureYears, base));
    var historical :- HistoricalStatewide(zones, cfg, base + averages);
    var sums :- CollectAll(StatewideKeys(), StatewidesFrom(zones, cfg.futureYears, base + averages + historical));
    Ok(base + averages + historical + sums)
  }

  lemma AveragingIsBatch(models: seq<string>, keys: seq<AvgKey>, years: seq<int>, base: seq<AreaRow>)
    requires ModelAverage !in models
    ensures AppendLoop(keys, base, AverageSteps(models, years))
            == AppendBatch(base, CollectAll(keys, AveragesFrom(models, years, base)))
  {
    var step := AverageSteps(models, years);
    AverageStepsAreLocal(models, years);
    assert base + [] == base;
    AppendLoopIsBatchInert(keys, base, [], step, AverageReads(models));
    CollectAllExt(keys, AtTable(step, base), AveragesFrom(models, years, base));
  }

  lemma SummingIsBatch(zones: seq<string>, keys: seq<Key>, years: seq<int>, base: seq<AreaRow>)
    requires AllZones !in zones
    ensures AppendLoop(keys, base, StatewideSteps(zones, years))
            == AppendBatch(base, CollectAll(keys, StatewidesFrom(zones, years, base)))
  {
    var step := StatewideSteps(zones, years);
    StatewideStepsAreLocal(zones, years);
    assert base + [] == base;
    AppendLoopIsBatchInert(keys, base, [], step, ZoneReads(zones));
    CollectAllExt(keys, AtTable(step, base), StatewidesFrom(zones, years, base));
  }

  /** Appending inside the loops gives the same table as the reference
      definition, as long as the average's model is not listed and the
      statewide region is not a zone. */
  lemma AggregateIsBatch(zones: seq<string>, models: seq<string>, cfg: Settings, base: seq<AreaRow>)
    requires ModelAverage !in models && AllZones !in zones
    ensures Aggregate(zones, models, cfg, base) == AggregateBatch(zones, models, cfg, base)
  {
    AveragingIsBatch(models, AverageKeys(cfg), cfg.futureYears, base);
    var a := CollectAll(AverageKeys(cfg), AveragesFrom(models, cfg.futureYears, base));
    if a.Ok? {
      var h := HistoricalStatewide(zones, cfg, base + a.value);
      if h.Ok? {
        SummingIsBatch(zones, StatewideKeys(), cfg.futureYears, base + a.value + h.value);
      }
    }
  }

  lemma ProcessIsBatch(cfg: Settings, files: Files, dataDir: string)
    ensures Process(cfg, files, dataDir) == ProcessBatch(cfg, files, dataDir)
  {
    var b := BaseRows(cfg, files, dataDir);
    if b.Ok? {
      SentinelsAreNotCatalogued();
      AggregateIsBatch(ZoneCodes(), ModelCodes(), cfg, b.value);
    }
  }

  /** Aggregation fails only on a column that cannot be aligned. */
  lemma AggregateFails(zones: seq<string>, models: seq<string>, cfg: Settings, base: seq<AreaRow>)
    ensures Aggregate(zones, models, cfg, base).Err? ==> Aggregate(zones, models, cfg, base).error == DuplicateIndex
  {
    var isDup := (e: Error) => e == DuplicateIndex;
    AppendLoopErr(AverageKeys(cfg), base, AverageSteps(models, cfg.futureYears), isDup);
    var a := AppendLoop(AverageKeys(cfg), base, AverageSteps(models, cfg.futureYears));
    if a.Ok? {
      var h := HistoricalStatewide(zones, cfg, a.value);
      if h.Ok? {
        AppendLoopErr(StatewideKeys(), a.value + h.value, StatewideSteps(zones, cfg.futureYears), isDup);
      }
    }
  }

  /** A run fails only on a missing source file of a planned run or a column
      that cannot be aligned. */
  lemma ProcessFails(cfg: Settings, files: Files, dataDir: string)
    ensures Process(cfg, files, dataDir).Err?
            ==> || (exists job :: Planned(cfg, job) && Process(cfg, files, dataDir).error == MissingFile(JobPath(cfg, dataDir, job)))
                || Process(cfg, files, dataDir).error == DuplicateIndex
  {
    BaseRowsOk(cfg, files, dataDir);
    var b := BaseRows(cfg, files, dataDir);
    if b.Ok? {
      AggregateFails(ZoneCodes(), ModelCodes(), cfg, b.value);
    }
  }
}
