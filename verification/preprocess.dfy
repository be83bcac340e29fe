/** The standalone total-area-burned script: for every fire management zone,
    the yearly mean area burned in acres, for the historical run and for
    every treatment, scenario and model run, each frame closed by a
    statewide column summing the zones. */
module Preprocess {
  import opened Wrappers
  import opened Stats
  import opened Paths
  import opened Table
  import opened Measures
  import opened Luts
  import opened Wide

  const DataDir: string := "data"
  const FmoPrefix: string := "fmo99s95i"
  const HistoricalFmoPrefix: string := "fmo99s95i_historical_CRU32"
  const DatePostfix: string := "2014_2099"
  const HistoricalDatePostfix: string := "1950_2013"
  const HistoricalCategories: seq<string> := ["cru_none", "cru_tx0"]
  /** Name of the column of zone sums. */
  const Statewide: string := "statewide"

  /** The total-area-burned file of one zone of one run. */
  function ZoneFile(zone: string, run: string, date: string): string
  {
    Join("_", ["alfresco_totalareaburned", zone, run, date]) + ".csv"
  }

  /** The historical file of a zone. This script has no spatial-prefix level. */
  function HistoricalPath(zone: string): (path: string)
    ensures EndsWith(path, "alfresco_totalareaburned" + "_" + zone + "_" + HistoricalFmoPrefix + "_" + HistoricalDatePostfix + ".csv")
  {
    Join4("_", "alfresco_totalareaburned", zone, HistoricalFmoPrefix, HistoricalDatePostfix);
    PathJoinEndsWith(DataDir, [HistoricalCategories[1], HistoricalFmoPrefix, "total_area_burned",
                               ZoneFile(zone, HistoricalFmoPrefix, HistoricalDatePostfix)]);
    PathJoin(DataDir, [HistoricalCategories[1], HistoricalFmoPrefix, "total_area_burned",
                       ZoneFile(zone, HistoricalFmoPrefix, HistoricalDatePostfix)])
  }

  /** The directory level and run name of a scenario and model. */
  function Fragment(scenario: string, model: string): string
  {
    Join("_", [FmoPrefix, scenario, model])
  }

  /** The file of a zone in one treatment, scenario and model run. */
  function FuturePath(treatment: string, scenario: string, model: string, zone: string): (path: string)
    ensures EndsWith(path, "alfresco_totalareaburned" + "_" + zone + "_" + (FmoPrefix + "_" + scenario + "_" + model)
                           + "_" + DatePostfix + ".csv")
  {
    Join3("_", FmoPrefix, scenario, model);
    Join4("_", "alfresco_totalareaburned", zone, Fragment(scenario, model), DatePostfix);
    PathJoinEndsWith(DataDir, [treatment, Fragment(scenario, model), "total_area_burned",
                               ZoneFile(zone, Fragment(scenario, model), DatePostfix)]);
    PathJoin(DataDir, [treatment, Fragment(scenario, model), "total_area_burned",
                       ZoneFile(zone, Fragment(scenario, model), DatePostfix)])
  }

  /** `to_acres(source_data.mean(axis=1))`: the replicate mean of each year
      in whole acres, within half an acre of the exact conversion; a year
      without replicates stays NaN. */
  function AcreSeries(csv: Csv): (r: Series)
    ensures r.Keys == csv.Keys
    ensures forall y :: y in csv ==> (r[y].Some? <==> |csv[y]| > 0)
    ensures forall y :: y in csv && |csv[y]| > 0 ==> Whole(r[y].value)
    ensures forall y :: y in csv && |csv[y]| > 0
              ==> -0.5 <= r[y].value - Mean(csv[y]).value * AcresPerSquareKm <= 0.5
  {
    map y | y in csv :: match Mean(csv[y]) case None => None case Some(v) => Some(ToAcres(v) as real)
  }

  /** One column per zone of its file's acre series, then the statewide sum. */
  function AcreFrame(files: Files, zones: seq<string>, pathOf: string -> string): Result<Frame, Error>
  {
    ZoneFrame(files, zones, Statewide, pathOf, AcreSeries)
  }

  /** The historical frame. */
  function HistoricalFrame(files: Files, zones: seq<string>): Result<Frame, Error>
  {
    AcreFrame(files, zones, HistoricalPath)
  }

  /** The zone files of one treatment, scenario and model run. */
  function RunPaths(treatment: string, scenario: string, model: string): string -> string
  {
    z => FuturePath(treatment, scenario, model, z)
  }

  /** The frame of one treatment, scenario and model run. */
  function FutureFrame(files: Files, zones: seq<string>, treatment: string, scenario: string, model: string)
    : Result<Frame, Error>
  {
    AcreFrame(files, zones, RunPaths(treatment, scenario, model))
  }

  /** The pickled dictionary: the historical frame under "historical", and one
      frame per treatment, scenario and model under the treatment's code. */
  datatype TotalAreaBurned = TotalAreaBurned(historical: Frame, runs: map<string, map<string, map<string, Frame>>>)

  function FutureFrameOf(files: Files, zones: seq<string>): (string, string, string) -> Result<Frame, Error>
  {
    (t, s, m) => FutureFrame(files, zones, t, s, m)
  }

  /** The script over the given zones, treatments, scenarios and models. */
  function RunOver(files: Files, zones: seq<string>, treatments: seq<string>, scenarios: seq<string>, models: seq<string>)
    : Result<TotalAreaBurned, Error>
  {
    var historical :- HistoricalFrame(files, zones);
    var runs :- TreatmentMap(treatments, scenarios, models, FutureFrameOf(files, zones), map[]);
    Ok(TotalAreaBurned(historical, runs))
  }

  /** The script over the lookup-table catalogues. */
  function Run(files: Files): (r: Result<TotalAreaBurned, Error>)
    ensures r.Ok? ==> HistoricalFrame(files, ZoneCodes()).Ok? && r.value.historical == HistoricalFrame(files, ZoneCodes()).value
    ensures r.Ok? ==> forall t :: t in r.value.runs <==> t in TreatmentCodes()
  {
    var r := RunOver(files, ZoneCodes(), TreatmentCodes(), ScenarioCodes(), ModelCodes());
    if r.Ok? then
      RunOverShape(files, ZoneCodes(), TreatmentCodes(), ScenarioCodes(), ModelCodes());
      r
    else r
  }

  // ---------------------------------------------------------------------------
  // Paths
  // ---------------------------------------------------------------------------

  /** The fixed names are plain path components. */
  lemma ConstantsAreNames()
    ensures Dir(DataDir)
    ensures Name(FmoPrefix) && Name(HistoricalFmoPrefix) && Name(DatePostfix) && Name(HistoricalDatePostfix)
    ensures Name(HistoricalCategories[1]) && Name("total_area_burned")
  {
  }

  /** The historical file of a zone sits in the second historical category,
      straight under the data directory: no spatial-prefix level. */
  lemma HistoricalPathShape(zone: string)
    requires Name(zone)
    ensures HistoricalPath(zone)
            == DataDir + "/" + HistoricalCategories[1] + "/" + HistoricalFmoPrefix + "/" + "total_area_burned" + "/"
               + ("alfresco_totalareaburned" + "_" + zone + "_" + HistoricalFmoPrefix + "_" + HistoricalDatePostfix + ".csv")
  {
    ConstantsAreNames();
    CsvName(zone, HistoricalFmoPrefix, HistoricalDatePostfix);
    var tail := [HistoricalCategories[1], HistoricalFmoPrefix, "total_area_burned",
                 ZoneFile(zone, HistoricalFmoPrefix, HistoricalDatePostfix)];
    PathJoinOfNames(DataDir, tail);
    assert [DataDir] + tail == [DataDir, tail[0], tail[1], tail[2], tail[3]];
    Join5("/", DataDir, tail[0], tail[1], tail[2], tail[3]);
  }

  /** The file of a zone in a run sits under the treatment and the
      prefix-scenario-model fragment, which also names the file. */
  lemma FuturePathShape(treatment: string, scenario: string, model: string, zone: string)
    requires Name(treatment) && Name(scenario) && Name(model) && Name(zone)
    ensures FuturePath(treatment, scenario, model, zone)
            == DataDir + "/" + treatment + "/" + (FmoPrefix + "_" + scenario + "_" + model) + "/" + "total_area_burned" + "/"
               + ("alfresco_totalareaburned" + "_" + zone + "_" + (FmoPrefix + "_" + scenario + "_" + model) + "_" + DatePostfix + ".csv")
  {
    ConstantsAreNames();
    FragmentName(FmoPrefix, scenario, model);
    var fragment := Fragment(scenario, model);
    CsvName(zone, fragment, DatePostfix);
    var tail := [treatment, fragment, "total_area_burned", ZoneFile(zone, fragment, DatePostfix)];
    PathJoinOfNames(DataDir, tail);
    assert [DataDir] + tail == [DataDir, tail[0], tail[1], tail[2], tail[3]];
    Join5("/", DataDir, tail[0], tail[1], tail[2], tail[3]);
  }

  /** Different zones read different historical files. */
  lemma HistoricalPathsSeparate(z1: string, z2: string)
    requires HistoricalPath(z1) == HistoricalPath(z2)
    ensures z1 == z2
  {
    var dir := [HistoricalCategories[1], HistoricalFmoPrefix, "total_area_burned"];
    var f1 := ZoneFile(z1, HistoricalFmoPrefix, HistoricalDatePostfix);
    var f2 := ZoneFile(z2, HistoricalFmoPrefix, HistoricalDatePostfix);
    assert dir + [f1] == [HistoricalCategories[1], HistoricalFmoPrefix, "total_area_burned", f1];
    assert dir + [f2] == [HistoricalCategories[1], HistoricalFmoPrefix, "total_area_burned", f2];
    FileNameSeparates(DataDir, dir, HistoricalFmoPrefix, HistoricalDatePostfix, z1, z2);
  }

  /** Different zones of one run read different files. */
  lemma FuturePathsSeparate(treatment: string, scenario: string, model: string, z1: string, z2: string)
    requires FuturePath(treatment, scenario, model, z1) == FuturePath(treatment, scenario, model, z2)
    ensures z1 == z2
  {
    var fragment := Fragment(scenario, model);
    var dir := [treatment, fragment, "total_area_burned"];
    var f1 := ZoneFile(z1, fragment, DatePostfix);
    var f2 := ZoneFile(z2, fragment, DatePostfix);
    assert dir + [f1] == [treatment, fragment, "total_area_burned", f1];
    assert dir + [f2] == [treatment, fragment, "total_area_burned", f2];
    FileNameSeparates(DataDir, dir, fragment, DatePostfix, z1, z2);
  }

  // ---------------------------------------------------------------------------
  // The run
  // ---------------------------------------------------------------------------

  /** The historical frame is built exactly when every zone's historical
      file exists; otherwise it stops on one of them. */
  lemma HistoricalFrameOk(files: Files, zones: seq<string>)
    ensures HistoricalFrame(files, zones).Ok? <==> forall z :: z in zones ==> HistoricalPath(z) in files
    ensures HistoricalFrame(files, zones).Err?
            ==> exists z :: z in zones && HistoricalFrame(files, zones).error == MissingFile(HistoricalPath(z))
  {
    ZoneFrameOk(files, zones, Statewide, HistoricalPath, AcreSeries);
  }

  /** A run's frame is built exactly when every zone's file of the run
      exists; otherwise it stops on one of them. */
  lemma FutureFrameOk(files: Files, zones: seq<string>, t: string, s: string, m: string)
    ensures FutureFrame(files, zones, t, s, m).Ok? <==> forall z :: z in zones ==> FuturePath(t, s, m, z) in files
    ensures FutureFrame(files, zones, t, s, m).Err?
            ==> exists z :: z in zones && FutureFrame(files, zones, t, s, m).error == MissingFile(FuturePath(t, s, m, z))
  {
    ZoneFrameOk(files, zones, Statewide, RunPaths(t, s, m), AcreSeries);
    forall z ensures RunPaths(t, s, m)(z) == FuturePath(t, s, m, z) {}
  }

  /** The script completes exactly when every historical and every run file
      of every zone exists. */
  lemma RunOverOk(files: Files, zones: seq<string>, treatments: seq<string>, scenarios: seq<string>, models: seq<string>)
    ensures RunOver(files, zones, treatments, scenarios, models).Ok?
            <==> && (forall z :: z in zones ==> HistoricalPath(z) in files)
                 && (forall t, s, m, z :: t in treatments && s in scenarios && m in models && z in zones
                       ==> FuturePath(t, s, m, z) in files)
  {
    var frameOf := FutureFrameOf(files, zones);
    TreatmentMapOk(treatments, scenarios, models, frameOf, map[]);
    HistoricalFrameOk(files, zones);
    var r := TreatmentMap(treatments, scenarios, models, frameOf, map[]);
    if forall t, s, m, z :: t in treatments && s in scenarios && m in models && z in zones ==> FuturePath(t, s, m, z) in files {
      forall t, s, m | t in treatments && s in scenarios && m in models
        ensures frameOf(t, s, m).Ok?
      {
        assert frameOf(t, s, m) == FutureFrame(files, zones, t, s, m);
        FutureFrameOk(files, zones, t, s, m);
      }
    }
    if r.Ok? {
      forall t, s, m, z | t in treatments && s in scenarios && m in models && z in zones
        ensures FuturePath(t, s, m, z) in files
      {
        assert frameOf(t, s, m) == FutureFrame(files, zones, t, s, m);
        FutureFrameOk(files, zones, t, s, m);
      }
    }
  }

  /** A script that stops, stops on a missing historical or run file. */
  lemma RunOverFails(files: Files, zones: seq<string>, treatments: seq<string>, scenarios: seq<string>, models: seq<string>)
    requires RunOver(files, zones, treatments, scenarios, models).Err?
    ensures || (exists z :: z in zones && RunOver(files, zones, treatments, scenarios, models).error == MissingFile(HistoricalPath(z)))
            || (exists t, s, m, z :: && t in treatments && s in scenarios && m in models && z in zones
                                     && RunOver(files, zones, treatments, scenarios, models).error == MissingFile(FuturePath(t, s, m, z)))
  {
    var frameOf := FutureFrameOf(files, zones);
    HistoricalFrameOk(files, zones);
    if HistoricalFrame(files, zones).Ok? {
      TreatmentMapOk(treatments, scenarios, models, frameOf, map[]);
      var r := TreatmentMap(treatments, scenarios, models, frameOf, map[]);
      var t, s, m :| t in treatments && s in scenarios && m in models && frameOf(t, s, m) == Err(r.error);
      assert frameOf(t, s, m) == FutureFrame(files, zones, t, s, m);
      FutureFrameOk(files, zones, t, s, m);
    }
  }

  /** A completed run holds one frame per treatment, scenario and model,
      each the frame of that run's files. */
  lemma RunOverShape(files: Files, zones: seq<string>, treatments: seq<string>, scenarios: seq<string>, models: seq<string>)
    requires RunOver(files, zones, treatments, scenarios, models).Ok?
    ensures RunOver(files, zones, treatments, scenarios, models).value.historical == HistoricalFrame(files, zones).value
    ensures forall t :: t in RunOver(files, zones, treatments, scenarios, models).value.runs <==> t in treatments
    ensures forall t, s :: t in treatments
              ==> (s in RunOver(files, zones, treatments, scenarios, models).value.runs[t] <==> s in scenarios)
    ensures forall t, s, m :: t in treatments && s in scenarios
              ==> (m in RunOver(files, zones, treatments, scenarios, models).value.runs[t][s] <==> m in models)
    ensures forall t, s, m :: t in treatments && s in scenarios && m in models
              ==> && FutureFrame(files, zones, t, s, m).Ok?
                  && RunOver(files, zones, treatments, scenarios, models).value.runs[t][s][m] == FutureFrame(files, zones, t, s, m).value
  {
    var frameOf := FutureFrameOf(files, zones);
    TreatmentMapOk(treatments, scenarios, models, frameOf, map[]);
    var runs := TreatmentMap(treatments, scenarios, models, frameOf, map[]).value;
    forall t, s, m | t in treatments && s in scenarios && m in models
      ensures FutureFrame(files, zones, t, s, m).Ok? && runs[t][s][m] == FutureFrame(files, zones, t, s, m).value
    {
      assert frameOf(t, s, m) == FutureFrame(files, zones, t, s, m);
    }
  }

  /** Over the catalogues, the historical frame does not collide with a
      treatment, and the script completes exactly when every file exists. */
  lemma RunOk(files: Files)
    ensures "historical" !in TreatmentCodes()
    ensures Run(files).Ok?
            <==> && (forall z :: z in ZoneCodes() ==> HistoricalPath(z) in files)
                 && (forall t, s, m, z :: t in TreatmentCodes() && s in ScenarioCodes() && m in ModelCodes() && z in ZoneCodes()
                       ==> FuturePath(t, s, m, z) in files)
  {
    SentinelsAreNotCatalogued();
    RunOverOk(files, ZoneCodes(), TreatmentCodes(), ScenarioCodes(), ModelCodes());
  }

  // ---------------------------------------------------------------------------
  // The frames
  // ---------------------------------------------------------------------------

  lemma {:induction false} SumOfWholes(xs: seq<real>)
    requires forall i :: 0 <= i < |xs| ==> Whole(xs[i])
    ensures Whole(Sum(xs))
  {
    if |xs| > 0 {
      SumOfWholes(xs[1..]);
      var a, b := xs[0].Floor, Sum(xs[1..]).Floor;
      assert Sum(xs) == (a + b) as real;
    }
  }

  /** Zone cells are rounded before they are summed, so every statewide
      total is a whole number of acres. */
  lemma StatewideIsWhole(f: Frame, zones: seq<string>, y: int)
    requires forall i :: 0 <= i < |zones| && Cell(f, zones[i], y).Some? ==> Whole(Cell(f, zones[i], y).value)
    ensures Whole(SumSkipNa(Cells(f, zones, y)))
  {
    var xs := Cells(f, zones, y);
    var p := Present(xs);
    forall i | 0 <= i < |p|
      ensures Whole(p[i])
    {
      assert p[i] in p;
      var j :| 0 <= j < |xs| && xs[j] == Some(p[i]);
    }
    SumOfWholes(p);
  }

  /** A zone frame of this script has one column per zone and then
      "statewide"; each zone column is the zone's yearly mean in whole acres;
      the statewide column is their NaN-skipping sum. The historical frame
      and every run's frame are such frames. */
  lemma AcreFrameShape(files: Files, zones: seq<string>, pathOf: string -> string)
    requires Distinct(zones) && Statewide !in zones
    requires AcreFrame(files, zones, pathOf).Ok?
    ensures AcreFrame(files, zones, pathOf).value.names == zones + [Statewide]
    ensures forall i, y :: 0 <= i < |zones| && y in AcreFrame(files, zones, pathOf).value.index
              ==> Cell(AcreFrame(files, zones, pathOf).value, zones[i], y) == At(AcreSeries(files[pathOf(zones[i])]), y)
    ensures forall y :: y in AcreFrame(files, zones, pathOf).value.index
              ==> Cell(AcreFrame(files, zones, pathOf).value, Statewide, y)
                  == Some(SumSkipNa(Cells(AcreFrame(files, zones, pathOf).value, zones, y)))
  {
    ZoneFrameShape(files, zones, Statewide, pathOf, AcreSeries);
  }

  /** Zone cells are rounded before they are summed, so every statewide
      total of this script is a whole number of acres. */
  lemma StatewideAcresAreWhole(files: Files, zones: seq<string>, pathOf: string -> string, y: int)
    requires Distinct(zones) && Statewide !in zones
    requires AcreFrame(files, zones, pathOf).Ok?
    requires y in AcreFrame(files, zones, pathOf).value.index
    ensures Cell(AcreFrame(files, zones, pathOf).value, Statewide, y).Some?
    ensures Whole(Cell(AcreFrame(files, zones, pathOf).value, Statewide, y).value)
  {
    AcreFrameShape(files, zones, pathOf);
    var f := AcreFrame(files, zones, pathOf).value;
    forall i | 0 <= i < |zones| && Cell(f, zones[i], y).Some?
      ensures Whole(Cell(f, zones[i], y).value)
    {
      ZoneFrameOk(files, zones, Statewide, pathOf, AcreSeries);
      assert pathOf(zones[i]) in files;
    }
    StatewideIsWhole(f, zones, y);
  }
}
