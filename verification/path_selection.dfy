/** Choice of processing path from the download metadata and configuration. */
module PathSelection {
  import opened Common

  /** The three processing strategies of the orchestrator. */
  datatype ProcessingPath = Level2Aware | EnhancedFullDisk | StandardConus

  /** `DATA_LEVEL`: the summary's `data_level` entry (default `level1b`)
      when a download summary exists, `level1b` otherwise. */
  function DataLevel(summary: Option<map<string, string>>): (level: string)
    ensures summary.None? ==> level == "level1b"
    ensures summary.Some? && "data_level" in summary.value ==> level == summary.value["data_level"]
    ensures summary.Some? && "data_level" !in summary.value ==> level == "level1b"
  {
    match summary
    case None => "level1b"
    case Some(s) => if "data_level" in s then s["data_level"] else "level1b"
  }

  /** `DOMAIN_TYPE`: the configured `domain_type`, `conus` when absent. */
  function DomainType(config: map<string, string>): (domain: string)
    ensures "domain_type" in config ==> domain == config["domain_type"]
    ensures "domain_type" !in config ==> domain == "conus"
  {
    if "domain_type" in config then config["domain_type"] else "conus"
  }

  /** `determine_processing_path`: Level 2 data or a download summary wins,
      then the full-disk domain, and everything else is the CONUS path. */
  function DeterminePath(dataLevel: string, hasSummary: bool, domainType: string): (p: ProcessingPath)
    ensures p.Level2Aware? <==> (dataLevel == "level2" || hasSummary)
    ensures p.EnhancedFullDisk? <==> (dataLevel != "level2" && !hasSummary && domainType == "full_disk")
    ensures p.StandardConus? <==> (dataLevel != "level2" && !hasSummary && domainType != "full_disk")
  {
    if dataLevel == "level2" || hasSummary then Level2Aware
    else if domainType == "full_disk" then EnhancedFullDisk
    else StandardConus
  }

  /** The path the script actually takes from its globals: because the data
      level is only ever read out of a download summary, the Level 2 test is
      subsumed by the summary test, and the summary alone decides whether the
      Level-2-aware path runs. */
  lemma SummaryDecidesLevel2Path(summary: Option<map<string, string>>, config: map<string, string>)
    ensures DeterminePath(DataLevel(summary), summary.Some?, DomainType(config)).Level2Aware?
            <==> summary.Some?
    ensures summary.None? && DomainType(config) == "full_disk" ==>
            DeterminePath(DataLevel(summary), summary.Some?, DomainType(config)) == EnhancedFullDisk
    ensures summary.None? && DomainType(config) != "full_disk" ==>
            DeterminePath(DataLevel(summary), summary.Some?, DomainType(config)) == StandardConus
  {
  }

  /** Without a download summary and with no domain configured, the CONUS path runs. */
  lemma DefaultConfigurationIsConus()
    ensures DeterminePath(DataLevel(None), false, DomainType(map[])) == StandardConus
  {
  }
}
