/** Lookup tables: the region, scenario, model and treatment catalogues (machine
    code and human-readable label, in declaration order) and the historical
    cost per acre of each fire management option for 2011-2017. */
module Luts {
  import opened Table

  datatype Entry = Entry(code: string, name: string)

  function Codes(entries: seq<Entry>): seq<string>
  {
    seq(|entries|, i requires 0 <= i < |entries| => entries[i].code)
  }

  /** A dictionary built from the entries in order; a later entry overwrites
      an earlier one with the same code. */
  function Labels(entries: seq<Entry>): map<string, string>
  {
    if |entries| == 0 then map[]
    else
      var last := entries[|entries| - 1];
      Labels(entries[..|entries| - 1])[last.code := last.name]
  }

  // ---------------------------------------------------------------------------
  // Catalogues
  // ---------------------------------------------------------------------------

  /** Fire management zones. */
  function Zones(): (z: seq<Entry>)
    ensures |z| == 12
    ensures Distinct(Codes(z))
  {
    [ Entry("ChugachNationalForest", "Chugach National Forest"),
      Entry("CopperRiverArea", "Copper River Area"),
      Entry("DeltaArea", "Delta Area"),
      Entry("FairbanksArea", "Fairbanks Area"),
      Entry("GalenaZone", "Galena Zone"),
      Entry("KenaiKodiakArea", "Kenai-Kodiak Area"),
      Entry("MatSuArea", "Mat-Su Area"),
      Entry("MilitaryZone", "Military Zone"),
      Entry("SouthwestArea", "Southwest Area"),
      Entry("TananaZone", "Tanana Zone"),
      Entry("TokArea", "Tok Area"),
      Entry("UpperYukonZone", "Upper Yukon Zone") ]
  }

  function Ecoregions(): (e: seq<Entry>)
    ensures |e| == 6
    ensures Distinct(Codes(e))
  {
    [ Entry("AlaskaRangeTransition", "Alaska Range Transition"),
      Entry("ArcticTundra", "Arctic Tundra"),
      Entry("BeringTaiga", "Bering Taiga"),
      Entry("BeringTundra", "Bering Tundra"),
      Entry("IntermontaneBoreal", "Intermontane Boreal"),
      Entry("PacificMountainsTransition", "Pacific Mountains Transition") ]
  }

  function Scenarios(): (s: seq<Entry>)
    ensures |s| == 3
    ensures Distinct(Codes(s))
  {
    [ Entry("rcp45", "RCP 4.5"), Entry("rcp60", "RCP 6.0"), Entry("rcp85", "RCP 8.5") ]
  }

  function Models(): (m: seq<Entry>)
    ensures |m| == 5
    ensures Distinct(Codes(m))
  {
    [ Entry("CCSM4", "CCSM4"),
      Entry("GFDL-CM3", "GFDL-CM3"),
      Entry("GISS-E2-R", "GISS-E2-R"),
      Entry("IPSL-CM5A-LR", "IPSL-CM5A-LR"),
      Entry("MRI-CGCM3", "MRI-CGCM3") ]
  }

  function VegTypes(): (v: seq<Entry>)
    ensures |v| == 2
    ensures Distinct(Codes(v))
  {
    [ Entry("deciduous", "Deciduous"), Entry("coniferous", "Coniferous") ]
  }

  /** Future-only management treatments. */
  function TreatmentOptions(): (t: seq<Entry>)
    ensures |t| == 3
    ensures Distinct(Codes(t))
  {
    [ Entry("gcm_tx0", "No change (TX0)"),
      Entry("gcm_tx1", "More Full Suppression (TX1)"),
      Entry("gcm_tx2", "No Full Suppression (TX2)") ]
  }

  /** Fire management options, in the order the cost step visits them. */
  function FmoOptions(): (o: seq<Entry>)
    ensures |o| == 4
    ensures Distinct(Codes(o))
  {
    [ Entry("C", "Critical"), Entry("F", "Full"), Entry("M", "Modified"), Entry("L", "Limited") ]
  }

  function ZoneCodes(): seq<string> { Codes(Zones()) }
  function EcoregionCodes(): seq<string> { Codes(Ecoregions()) }
  function ScenarioCodes(): seq<string> { Codes(Scenarios()) }
  function ModelCodes(): seq<string> { Codes(Models()) }
  function TreatmentCodes(): seq<string> { Codes(TreatmentOptions()) }
  function FmoOptionCodes(): seq<string> { Codes(FmoOptions()) }

  // ---------------------------------------------------------------------------
  // Costs per acre
  // ---------------------------------------------------------------------------

  /** Cost per acre by year and fire management option. */
  function FmoCosts(): (costs: map<int, map<string, real>>)
    ensures forall y :: y in costs <==> 2011 <= y <= 2017
    ensures forall y, o :: y in costs ==> (o in costs[y] <==> o in FmoOptionCodes())
    ensures forall y, o :: y in costs && o in costs[y] ==> costs[y][o] > 0.0
  {
    map y | 2011 <= y <= 2017 :: CostsOfYear(y)
  }

  /** One year's row of the cost table. */
  function CostsOfYear(year: int): (row: map<string, real>)
    requires 2011 <= year <= 2017
    ensures forall o :: o in row <==> o in FmoOptionCodes()
    ensures forall o :: o in row ==> row[o] > 0.0
  {
    if year == 2011 then YearCosts(2459.09, 350.73, 16.32, 13.90)
    else if year == 2012 then YearCosts(473.14, 257.41, 22.10, 0.30)
    else if year == 2013 then YearCosts(12868.50, 456.14, 163.92, 7.57)
    else if year == 2014 then YearCosts(11159.65, 76.36, 356.08, 92.00)
    else if year == 2015 then YearCosts(198.39, 88.92, 31.28, 10.62)
    else if year == 2016 then YearCosts(6934.64, 311.76, 56.44, 8.07)
    else YearCosts(8439.06, 119.61, 534.23, 12.04)
  }

  lemma OptionCodesAre()
    ensures FmoOptionCodes() == ["C", "F", "M", "L"]
  {
  }

  /** The costs of the critical, full, modified and limited options. */
  function YearCosts(c: real, f: real, m: real, l: real): (row: map<string, real>)
    requires c > 0.0 && f > 0.0 && m > 0.0 && l > 0.0
    ensures forall o :: o in row <==> o in FmoOptionCodes()
    ensures forall o :: o in row ==> row[o] > 0.0
  {
    OptionCodesAre();
    map["C" := c, "F" := f, "M" := m, "L" := l]
  }

  // ---------------------------------------------------------------------------
  // Facts about the catalogues
  // ---------------------------------------------------------------------------

  /** No fire management zone is also an ecoregion. */
  lemma ZonesAndEcoregionsDisjoint()
    ensures forall z, e :: z in ZoneCodes() && e in EcoregionCodes() ==> z != e
  {
  }

  lemma {:induction false} LabelsOf(entries: seq<Entry>, e: Entry)
    requires Distinct(Codes(entries))
    requires e in entries
    ensures e.code in Labels(entries) && Labels(entries)[e.code] == e.name
  {
    var n := |entries|;
    var init := entries[..n - 1];
    assert Codes(init) == Codes(entries)[..n - 1];
    if e != entries[n - 1] {
      assert e in init;
      LabelsOf(init, e);
      var i :| 0 <= i < n - 1 && entries[i] == e;
      assert Codes(entries)[i] != Codes(entries)[n - 1];
    }
  }

  /** Merging the zone and ecoregion dictionaries keeps every entry of both. */
  lemma MergedRegionsKeepAll()
    ensures forall e :: e in Zones() + Ecoregions() ==>
      e.code in Labels(Zones() + Ecoregions()) && Labels(Zones() + Ecoregions())[e.code] == e.name
  {
    var all := Zones() + Ecoregions();
    ZonesAndEcoregionsDisjoint();
    assert Codes(all) == ZoneCodes() + EcoregionCodes();
    forall i, j | 0 <= i < j < |all|
      ensures Codes(all)[i] != Codes(all)[j]
    {
      if j < 12 {
        assert Codes(all)[j] == ZoneCodes()[j];
      } else if i >= 12 {
        assert Codes(all)[i] == EcoregionCodes()[i - 12];
      } else {
        assert Codes(all)[i] in ZoneCodes();
        assert Codes(all)[j] in EcoregionCodes();
      }
    }
    forall e | e in all
      ensures e.code in Labels(all) && Labels(all)[e.code] == e.name
    {
      LabelsOf(all, e);
    }
  }

  /** The labels the one historical run is tidied under. */
  const HistoricalTreatment: string := "cru_tx0"
  const HistoricalScenario: string := "historical"

  /** The model label of the five-model average rows. */
  const ModelAverage: string := "5modelavg"

  /** The labels added by the aggregation steps never collide with catalogue codes. */
  lemma SentinelsAreNotCatalogued()
    ensures ModelAverage !in ModelCodes()
    ensures "AllFMZs" !in ZoneCodes() && "AllFMZs" !in EcoregionCodes()
    ensures "statewide" !in ZoneCodes()
    ensures HistoricalScenario !in ScenarioCodes() && HistoricalScenario !in TreatmentCodes()
    ensures HistoricalTreatment !in TreatmentCodes()
    ensures "total" !in FmoOptionCodes()
  {
  }
}
