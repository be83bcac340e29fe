/** The simulation runs the area and vegetation steps read: one historical
    run per region, and one future run per region and treatment, scenario
    and model, for every region under every spatial prefix. */
module Runs {
  import opened Luts
  import opened Table
  import opened Settings

  /** Which simulation a source file comes from. */
  datatype Source = Historical | Future(treatment: string, scenario: string, model: string)

  /** One source run: a region under a spatial prefix, historical or future. */
  datatype Job = Job(spatialPrefix: string, region: string, source: Source)

  type Key = (string, string, string)

  /** A historical run, or a future run of one of the given keys. */
  predicate KnownIn(keys: seq<Key>, source: Source)
  {
    source.Future? ==> (source.treatment, source.scenario, source.model) in keys
  }

  /** The future runs come from the catalogued treatments, scenarios and models. */
  predicate KnownSource(source: Source)
  {
    KnownIn(FutureKeys(), source)
  }

  /** A run of a region listed under its spatial prefix, from a known source. */
  ghost predicate Planned(cfg: Settings, job: Job)
  {
    && KnownSource(job.source)
    && exists p :: 0 <= p < |cfg.spatialPrefixMap|
                   && job.spatialPrefix == cfg.spatialPrefixMap[p].0 && job.region in cfg.spatialPrefixMap[p].1
  }

  /** The future runs of one region, in treatment, scenario, model order. */
  function FutureJobs(prefix: string, region: string, keys: seq<Key>): (jobs: seq<Job>)
    ensures |jobs| == |keys|
  {
    seq(|keys|, i requires 0 <= i < |keys| => Job(prefix, region, Future(keys[i].0, keys[i].1, keys[i].2)))
  }

  function FutureKeys(): seq<Key>
  {
    Cross3(TreatmentCodes(), ScenarioCodes(), ModelCodes())
  }

  /** The future runs of every region, the region varying fastest. */
  function FutureJobsOfRegions(prefix: string, regions: seq<string>, key: Key): seq<Job>
  {
    seq(|regions|, i requires 0 <= i < |regions| => Job(prefix, regions[i], Future(key.0, key.1, key.2)))
  }

  function HistoricalJobs(prefix: string, regions: seq<string>): seq<Job>
  {
    seq(|regions|, i requires 0 <= i < |regions| => Job(prefix, regions[i], Historical))
  }

  /** The area step's order: region by region, the historical run then the
      future runs. */
  function AreaJobsOf(prefix: string, regions: seq<string>, keys: seq<Key>): seq<Job>
  {
    Flatten(seq(|regions|, i requires 0 <= i < |regions| => [Job(prefix, regions[i], Historical)] + FutureJobs(prefix, regions[i], keys)))
  }

  function AreaJobs(cfg: Settings): seq<Job>
  {
    AreaJobsIn(cfg.spatialPrefixMap, FutureKeys())
  }

  function AreaJobsIn(m: seq<(string, seq<string>)>, keys: seq<Key>): seq<Job>
  {
    Flatten(seq(|m|, p requires 0 <= p < |m| => AreaJobsOf(m[p].0, m[p].1, keys)))
  }

  /** The vegetation step's order: every region's historical run, then the
      future runs with the region varying fastest. */
  function VegJobsOf(prefix: string, regions: seq<string>, keys: seq<Key>): seq<Job>
  {
    HistoricalJobs(prefix, regions)
      + Flatten(seq(|keys|, k requires 0 <= k < |keys| => FutureJobsOfRegions(prefix, regions, keys[k])))
  }

  function VegJobs(cfg: Settings): seq<Job>
  {
    VegJobsIn(cfg.spatialPrefixMap, FutureKeys())
  }

  function VegJobsIn(m: seq<(string, seq<string>)>, keys: seq<Key>): seq<Job>
  {
    Flatten(seq(|m|, p requires 0 <= p < |m| => VegJobsOf(m[p].0, m[p].1, keys)))
  }

  // ---------------------------------------------------------------------------
  // Both orders run exactly the planned jobs
  // ---------------------------------------------------------------------------

  /** A known future source is a catalogued treatment, scenario and model. */
  lemma KnownSourceIsCatalogued(source: Source)
    requires source.Future?
    ensures KnownSource(source)
            <==> source.treatment in TreatmentCodes() && source.scenario in ScenarioCodes() && source.model in ModelCodes()
  {
    Cross3Has(TreatmentCodes(), ScenarioCodes(), ModelCodes());
  }

  lemma FutureJobsHas(prefix: string, region: string, keys: seq<Key>, job: Job)
    ensures job in FutureJobs(prefix, region, keys)
            <==> job.spatialPrefix == prefix && job.region == region && job.source.Future? && KnownIn(keys, job.source)
  {
    var jobs := FutureJobs(prefix, region, keys);
    if job in jobs {
      var i :| 0 <= i < |jobs| && jobs[i] == job;
      assert keys[i] in keys;
    }
    if job.spatialPrefix == prefix && job.region == region && job.source.Future? && KnownIn(keys, job.source) {
      var src := job.source;
      var i :| 0 <= i < |keys| && keys[i] == (src.treatment, src.scenario, src.model);
      assert jobs[i] == job;
    }
  }

  /** The jobs of one spatial prefix, in the area order: every known run of
      every listed region. */
  lemma AreaJobsOfHas(prefix: string, regions: seq<string>, keys: seq<Key>, job: Job)
    ensures job in AreaJobsOf(prefix, regions, keys)
            <==> job.spatialPrefix == prefix && job.region in regions && KnownIn(keys, job.source)
  {
    var parts := seq(|regions|, i requires 0 <= i < |regions| => [Job(prefix, regions[i], Historical)] + FutureJobs(prefix, regions[i], keys));
    FlattenHas(parts, job);
    if job in AreaJobsOf(prefix, regions, keys) {
      var i :| 0 <= i < |parts| && job in parts[i];
      FutureJobsHas(prefix, regions[i], keys, job);
    }
    if job.spatialPrefix == prefix && job.region in regions && KnownIn(keys, job.source) {
      var i :| 0 <= i < |regions| && regions[i] == job.region;
      FutureJobsHas(prefix, regions[i], keys, job);
      assert job in parts[i];
    }
  }

  lemma FutureJobsOfRegionsHas(prefix: string, regions: seq<string>, key: Key, job: Job)
    ensures job in FutureJobsOfRegions(prefix, regions, key)
            <==> job.spatialPrefix == prefix && job.region in regions && job.source == Future(key.0, key.1, key.2)
  {
    var jobs := FutureJobsOfRegions(prefix, regions, key);
    if job.spatialPrefix == prefix && job.region in regions && job.source == Future(key.0, key.1, key.2) {
      var i :| 0 <= i < |regions| && regions[i] == job.region;
      assert jobs[i] == job;
    }
  }

  lemma HistoricalJobsHas(prefix: string, regions: seq<string>, job: Job)
    ensures job in HistoricalJobs(prefix, regions)
            <==> job.spatialPrefix == prefix && job.region in regions && job.source == Historical
  {
    var jobs := HistoricalJobs(prefix, regions);
    if job.spatialPrefix == prefix && job.region in regions && job.source == Historical {
      var i :| 0 <= i < |regions| && regions[i] == job.region;
      assert jobs[i] == job;
    }
  }

  /** The future part of the vegetation order holds the future runs. */
  lemma VegFutureJobsHas(prefix: string, regions: seq<string>, keys: seq<Key>, job: Job)
    ensures job in Flatten(seq(|keys|, k requires 0 <= k < |keys| => FutureJobsOfRegions(prefix, regions, keys[k])))
            <==> job.spatialPrefix == prefix && job.region in regions && job.source.Future? && KnownIn(keys, job.source)
  {
    var parts := seq(|keys|, k requires 0 <= k < |keys| => FutureJobsOfRegions(prefix, regions, keys[k]));
    FlattenHas(parts, job);
    if job in Flatten(parts) {
      var k :| 0 <= k < |parts| && job in parts[k];
      FutureJobsOfRegionsHas(prefix, regions, keys[k], job);
      assert keys[k] in keys;
    }
    if job.spatialPrefix == prefix && job.region in regions && job.source.Future? && KnownIn(keys, job.source) {
      var src := job.source;
      var k :| 0 <= k < |keys| && keys[k] == (src.treatment, src.scenario, src.model);
      FutureJobsOfRegionsHas(prefix, regions, keys[k], job);
      assert job in parts[k];
    }
  }

  /** The jobs of one spatial prefix, in the vegetation order: the same runs. */
  lemma VegJobsOfHas(prefix: string, regions: seq<string>, keys: seq<Key>, job: Job)
    ensures job in VegJobsOf(prefix, regions, keys)
            <==> job.spatialPrefix == prefix && job.region in regions && KnownIn(keys, job.source)
  {
    HistoricalJobsHas(prefix, regions, job);
    VegFutureJobsHas(prefix, regions, keys, job);
  }

  /** A run of a region listed under its spatial prefix, from the given keys. */
  ghost predicate PlannedIn(m: seq<(string, seq<string>)>, keys: seq<Key>, job: Job)
  {
    && KnownIn(keys, job.source)
    && exists p :: 0 <= p < |m| && job.spatialPrefix == m[p].0 && job.region in m[p].1
  }

  lemma AreaJobsInHas(m: seq<(string, seq<string>)>, keys: seq<Key>, job: Job)
    ensures job in AreaJobsIn(m, keys) <==> PlannedIn(m, keys, job)
  {
    var parts := seq(|m|, p requires 0 <= p < |m| => AreaJobsOf(m[p].0, m[p].1, keys));
    FlattenHas(parts, job);
    if job in AreaJobsIn(m, keys) {
      var p :| 0 <= p < |parts| && job in parts[p];
      AreaJobsOfHas(m[p].0, m[p].1, keys, job);
    }
    if PlannedIn(m, keys, job) {
      var p :| 0 <= p < |m| && job.spatialPrefix == m[p].0 && job.region in m[p].1;
      AreaJobsOfHas(m[p].0, m[p].1, keys, job);
      assert job in parts[p];
    }
  }

  lemma VegJobsInHas(m: seq<(string, seq<string>)>, keys: seq<Key>, job: Job)
    ensures job in VegJobsIn(m, keys) <==> PlannedIn(m, keys, job)
  {
    var parts := seq(|m|, p requires 0 <= p < |m| => VegJobsOf(m[p].0, m[p].1, keys));
    FlattenHas(parts, job);
    if job in VegJobsIn(m, keys) {
      var p :| 0 <= p < |parts| && job in parts[p];
      VegJobsOfHas(m[p].0, m[p].1, keys, job);
    }
    if PlannedIn(m, keys, job) {
      var p :| 0 <= p < |m| && job.spatialPrefix == m[p].0 && job.region in m[p].1;
      VegJobsOfHas(m[p].0, m[p].1, keys, job);
      assert job in parts[p];
    }
  }

  /** The area step reads exactly the planned runs. */
  lemma AreaJobsArePlanned(cfg: Settings, job: Job)
    ensures job in AreaJobs(cfg) <==> Planned(cfg, job)
  {
    AreaJobsInHas(cfg.spatialPrefixMap, FutureKeys(), job);
  }

  /** The vegetation step reads the same runs. */
  lemma VegJobsArePlanned(cfg: Settings, job: Job)
    ensures job in VegJobs(cfg) <==> Planned(cfg, job)
  {
    VegJobsInHas(cfg.spatialPrefixMap, FutureKeys(), job);
  }
}
