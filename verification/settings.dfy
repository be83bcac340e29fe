/** The lookup names the preprocessing modules read from the lookup tables
    but which the lookup-table file does not define. They are taken as one
    explicit configuration value instead of ambient globals. */
module Settings {
  import opened Paths

  datatype Settings = Settings(
    /** Spatial prefix (a directory level) and the regions under it, in order. */
    spatialPrefixMap: seq<(string, seq<string>)>,
    historicalYears: seq<int>,
    futureYears: seq<int>,
    fmoPrefix: string,
    historicalFmoPrefix: string,
    datePostfix: string,
    historicalDatePostfix: string,
    /** `historical_categories[1]`, the historical treatment directory. */
    historicalCategory: string,
    /** Model label of the five-model average rows (`MODEL_AVG`). */
    modelAvg: string,
    /** Region label of the statewide rows (`STATEWIDE`). */
    statewide: string
  )

  /** Every fixed name can stand as one path component. */
  predicate PlainNames(cfg: Settings)
  {
    && Name(cfg.fmoPrefix) && Name(cfg.historicalFmoPrefix)
    && Name(cfg.datePostfix) && Name(cfg.historicalDatePostfix)
    && Name(cfg.historicalCategory)
  }
}
