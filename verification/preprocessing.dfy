/** The draft total-area-burned script: for every fire management zone of
    its own list, the yearly mean area burned in square kilometres, for every
    modelled treatment, scenario and model run, each frame closed by a
    statewide column summing the zones. It reads the same run files as the
    pickled script and differs from it in the zone list, the treatments, the
    missing historical frame and the unconverted units. */
module Preprocessing {
  import opened Wrappers
  import opened Stats
  import opened Table
  import opened Measures
  import opened Wide
  import Luts
  import Preprocess

  const ModelledCategories: seq<string> := ["gcm_tx0", "gcm_tx1", "gcm_tx2"]
  const Scenarios: seq<string> := ["rcp45", "rcp60", "rcp85"]
  const Models: seq<string> := ["CCSM4", "GFDL-CM3", "GISS-E2-R", "IPSL-CM5A-LR", "MRI-CGCM3"]
  const Zones: seq<string> := [
    "ChugachNationalForest", "CopperRiverArea", "DeltaArea", "FairbanksArea", "GalenaZone",
    "InteriorBoreal", "KenaiKodiakArea", "MatSuArea", "MilitaryZone", "SouthcentralBoreal",
    "SouthwestArea", "TananaZone", "TokArea", "UpperYukonZone"]

  /** `source_data.mean(axis=1)`: the replicate mean of each year; a year
      without replicates is NaN. */
  function MeanSeries(csv: Csv): (r: Series)
    ensures r.Keys == csv.Keys
    ensures forall y :: y in csv ==> (r[y].Some? <==> |csv[y]| > 0)
    ensures forall y :: y in csv && r[y].Some? ==> r[y].value * (|csv[y]| as real) == Sum(csv[y])
  {
    map y | y in csv :: Mean(csv[y])
  }

  /** The frame of one treatment, scenario and model run, from the same files
      the pickled script reads. */
  function MeanFrame(files: Files, zones: seq<string>, t: string, s: string, m: string): Result<Frame, Error>
  {
    ZoneFrame(files, zones, Preprocess.Statewide, Preprocess.RunPaths(t, s, m), MeanSeries)
  }

  function MeanFrameOf(files: Files, zones: seq<string>): (string, string, string) -> Result<Frame, Error>
  {
    (t, s, m) => MeanFrame(files, zones, t, s, m)
  }

  /** The script over the given zones, treatments, scenarios and models. */
  function RunOver(files: Files, zones: seq<string>, categories: seq<string>, scenarios: seq<string>, models: seq<string>)
    : Result<map<string, map<string, map<string, Frame>>>, Error>
  {
    TreatmentMap(categories, scenarios, models, MeanFrameOf(files, zones), map[])
  }

  /** The script over its own lists. */
  function Run(files: Files): (r: Result<map<string, map<string, map<string, Frame>>>, Error>)
    ensures r.Ok? ==> forall c :: c in r.value <==> c in ModelledCategories
    ensures r.Ok? ==> forall c, s :: c in ModelledCategories ==> (s in r.value[c] <==> s in Scenarios)
  {
    var r := RunOver(files, Zones, ModelledCategories, Scenarios, Models);
    if r.Ok? then
      RunOverShape(files, Zones, ModelledCategories, Scenarios, Models);
      r
    else r
  }

  // ---------------------------------------------------------------------------
  // The lists
  // ---------------------------------------------------------------------------

  /** The zone list has no repeats and no "statewide". */
  lemma ZonesAreDistinct()
    ensures Distinct(Zones) && Preprocess.Statewide !in Zones
  {
  }

  /** The lookup table's zones are this list without its two boreal regions. */
  lemma ZonesExtendLookup()
    ensures Zones[5] == "InteriorBoreal" && Zones[9] == "SouthcentralBoreal"
    ensures Luts.ZoneCodes() == Zones[..5] + Zones[6..9] + Zones[10..]
  {
  }

  // ---------------------------------------------------------------------------
  // The run
  // ---------------------------------------------------------------------------

  /** A run's frame is built exactly when every zone's file of the run
      exists; otherwise it stops on one of them. */
  lemma MeanFrameOk(files: Files, zones: seq<string>, t: string, s: string, m: string)
    ensures MeanFrame(files, zones, t, s, m).Ok? <==> forall z :: z in zones ==> Preprocess.FuturePath(t, s, m, z) in files
    ensures MeanFrame(files, zones, t, s, m).Err?
            ==> exists z :: z in zones && MeanFrame(files, zones, t, s, m).error == MissingFile(Preprocess.FuturePath(t, s, m, z))
  {
    ZoneFrameOk(files, zones, Preprocess.Statewide, Preprocess.RunPaths(t, s, m), MeanSeries);
    forall z ensures Preprocess.RunPaths(t, s, m)(z) == Preprocess.FuturePath(t, s, m, z) {}
  }

  /** The script completes exactly when every run file of every zone exists. */
  lemma RunOverOk(files: Files, zones: seq<string>, categories: seq<string>, scenarios: seq<string>, models: seq<string>)
    ensures RunOver(files, zones, categories, scenarios, models).Ok?
            <==> forall t, s, m, z :: t in categories && s in scenarios && m in models && z in zones
                   ==> Preprocess.FuturePath(t, s, m, z) in files
  {
    var frameOf := MeanFrameOf(files, zones);
    TreatmentMapOk(categories, scenarios, models, frameOf, map[]);
    var r := RunOver(files, zones, categories, scenarios, models);
    if forall t, s, m, z :: t in categories && s in scenarios && m in models && z in zones ==> Preprocess.FuturePath(t, s, m, z) in files {
      forall t, s, m | t in categories && s in scenarios && m in models
        ensures frameOf(t, s, m).Ok?
      {
        assert frameOf(t, s, m) == MeanFrame(files, zones, t, s, m);
        MeanFrameOk(files, zones, t, s, m);
      }
    }
    if r.Ok? {
      forall t, s, m, z | t in categories && s in scenarios && m in models && z in zones
        ensures Preprocess.FuturePath(t, s, m, z) in files
      {
        assert frameOf(t, s, m) == MeanFrame(files, zones, t, s, m);
        MeanFrameOk(files, zones, t, s, m);
      }
    }
  }

  /** A script that stops, stops on a missing run file. */
  lemma RunOverFails(files: Files, zones: seq<string>, categories: seq<string>, scenarios: seq<string>, models: seq<string>)
    requires RunOver(files, zones, categories, scenarios, models).Err?
    ensures exists t, s, m, z :: && t in categories && s in scenarios && m in models && z in zones
                                 && RunOver(files, zones, categories, scenarios, models).error == MissingFile(Preprocess.FuturePath(t, s, m, z))
  {
    var frameOf := MeanFrameOf(files, zones);
    TreatmentMapOk(categories, scenarios, models, frameOf, map[]);
    var r := RunOver(files, zones, categories, scenarios, models);
    var t, s, m :| t in categories && s in scenarios && m in models && frameOf(t, s, m) == Err(r.error);
    assert frameOf(t, s, m) == MeanFrame(files, zones, t, s, m);
    MeanFrameOk(files, zones, t, s, m);
  }

  /** A completed run holds one frame per treatment, scenario and model,
      each the frame of that run's files. */
  lemma RunOverShape(files: Files, zones: seq<string>, categories: seq<string>, scenarios: seq<string>, models: seq<string>)
    requires RunOver(files, zones, categories, scenarios, models).Ok?
    ensures forall t :: t in RunOver(files, zones, categories, scenarios, models).value <==> t in categories
    ensures forall t, s :: t in categories
              ==> (s in RunOver(files, zones, categories, scenarios, models).value[t] <==> s in scenarios)
    ensures forall t, s, m :: t in categories && s in scenarios
              ==> (m in RunOver(files, zones, categories, scenarios, models).value[t][s] <==> m in models)
    ensures forall t, s, m :: t in categories && s in scenarios && m in models
              ==> && MeanFrame(files, zones, t, s, m).Ok?
                  && RunOver(files, zones, categories, scenarios, models).value[t][s][m] == MeanFrame(files, zones, t, s, m).value
  {
    var frameOf := MeanFrameOf(files, zones);
    TreatmentMapOk(categories, scenarios, models, frameOf, map[]);
    var runs := RunOver(files, zones, categories, scenarios, models).value;
    forall t, s, m | t in categories && s in scenarios && m in models
      ensures MeanFrame(files, zones, t, s, m).Ok? && runs[t][s][m] == MeanFrame(files, zones, t, s, m).value
    {
      assert frameOf(t, s, m) == MeanFrame(files, zones, t, s, m);
    }
  }

  /** Over its own lists, the script completes exactly when every run file
      of every zone exists. */
  lemma RunOk(files: Files)
    ensures Run(files).Ok?
            <==> forall t, s, m, z :: t in ModelledCategories && s in Scenarios && m in Models && z in Zones
                   ==> Preprocess.FuturePath(t, s, m, z) in files
  {
    RunOverOk(files, Zones, ModelledCategories, Scenarios, Models);
  }

  // ---------------------------------------------------------------------------
  // The frames
  // ---------------------------------------------------------------------------

  /** A run's frame has one column per zone and then "statewide"; each zone
      column is the zone's yearly mean; the statewide column is their
      NaN-skipping sum. */
  lemma MeanFrameShape(files: Files, zones: seq<string>, t: string, s: string, m: string)
    requires Distinct(zones) && Preprocess.Statewide !in zones
    requires MeanFrame(files, zones, t, s, m).Ok?
    ensures MeanFrame(files, zones, t, s, m).value.names == zones + [Preprocess.Statewide]
    ensures forall i, y :: 0 <= i < |zones| && y in MeanFrame(files, zones, t, s, m).value.index
              ==> Cell(MeanFrame(files, zones, t, s, m).value, zones[i], y)
                  == At(MeanSeries(files[Preprocess.FuturePath(t, s, m, zones[i])]), y)
    ensures forall y :: y in MeanFrame(files, zones, t, s, m).value.index
              ==> Cell(MeanFrame(files, zones, t, s, m).value, Preprocess.Statewide, y)
                  == Some(SumSkipNa(Cells(MeanFrame(files, zones, t, s, m).value, zones, y)))
  {
    var pathOf := Preprocess.RunPaths(t, s, m);
    ZoneFrameShape(files, zones, Preprocess.Statewide, pathOf, MeanSeries);
    forall i | 0 <= i < |zones|
      ensures pathOf(zones[i]) == Preprocess.FuturePath(t, s, m, zones[i])
    {
    }
  }

  /** Frames of columns with the same years have the same index. */
  lemma {:induction false} FirstIndexSameYears(a: seq<(string, Series)>, b: seq<(string, Series)>)
    requires |a| == |b|
    requires forall i :: 0 <= i < |a| ==> a[i].1.Keys == b[i].1.Keys
    ensures FirstIndex(a) == FirstIndex(b)
  {
    if |a| > 0 {
      assert |a[0].1| == |a[0].1.Keys| == |b[0].1.Keys| == |b[0].1|;
      FirstIndexSameYears(a[1..], b[1..]);
    }
  }

  /** Where the draft has a frame, the pickled script has one for the same
      run over the same years. */
  lemma PickledHasDraftYears(files: Files, zones: seq<string>, t: string, s: string, m: string)
    requires MeanFrame(files, zones, t, s, m).Ok?
    ensures Preprocess.FutureFrame(files, zones, t, s, m).Ok?
    ensures Preprocess.FutureFrame(files, zones, t, s, m).value.index == MeanFrame(files, zones, t, s, m).value.index
  {
    var pathOf := Preprocess.RunPaths(t, s, m);
    ZoneFrameOk(files, zones, Preprocess.Statewide, pathOf, MeanSeries);
    ZoneFrameOk(files, zones, Preprocess.Statewide, pathOf, Preprocess.AcreSeries);
    assert Preprocess.FutureFrame(files, zones, t, s, m) == ZoneFrame(files, zones, Preprocess.Statewide, pathOf, Preprocess.AcreSeries);
    ZoneFrameIndex(files, zones, Preprocess.Statewide, pathOf, MeanSeries);
    ZoneFrameIndex(files, zones, Preprocess.Statewide, pathOf, Preprocess.AcreSeries);
    var means := ReadColumns(files, zones, pathOf, MeanSeries).value;
    var acres := ReadColumns(files, zones, pathOf, Preprocess.AcreSeries).value;
    FirstIndexSameYears(means, acres);
  }

  /** The acre series of a file is its mean series converted to whole acres. */
  lemma AcresOfMeans(csv: Csv, y: int)
    ensures At(Preprocess.AcreSeries(csv), y) == match At(MeanSeries(csv), y)
                                                case None => None
                                                case Some(v) => Some(ToAcres(v) as real)
  {
  }

  /** Each zone cell of the pickled script's frame is the draft's cell
      converted to whole acres. */
  lemma PickledIsDraftInAcres(files: Files, zones: seq<string>, t: string, s: string, m: string, i: int, y: int)
    requires Distinct(zones) && Preprocess.Statewide !in zones
    requires MeanFrame(files, zones, t, s, m).Ok?
    requires 0 <= i < |zones| && y in MeanFrame(files, zones, t, s, m).value.index
    ensures Preprocess.FutureFrame(files, zones, t, s, m).Ok?
    ensures Cell(Preprocess.FutureFrame(files, zones, t, s, m).value, zones[i], y)
            == match Cell(MeanFrame(files, zones, t, s, m).value, zones[i], y)
               case None => None
               case Some(v) => Some(ToAcres(v) as real)
  {
    PickledHasDraftYears(files, zones, t, s, m);
    MeanFrameShape(files, zones, t, s, m);
    Preprocess.AcreFrameShape(files, zones, Preprocess.RunPaths(t, s, m));
    var csv := files[Preprocess.FuturePath(t, s, m, zones[i])];
    assert Preprocess.RunPaths(t, s, m)(zones[i]) == Preprocess.FuturePath(t, s, m, zones[i]);
    AcresOfMeans(csv, y);
  }
}
