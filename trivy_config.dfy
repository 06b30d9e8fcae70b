/**
 * The trivy source locations of scanning/app/config.go: where the scanner,
 * its vulnerability database and the vulnerability list are cloned from.
 * SetDefault fills each location the configuration file left empty.
 */
module TrivyConfig {
  const DefaultTrivy := "https://github.com/wjunLu/trivy.git"
  const DefaultTrivyDB := "https://github.com/wjunLu/trivy-db.git"
  const DefaultVulnList := "https://github.com/aquasecurity/vuln-list.git"

  /** A configured location, or the default when none is configured. */
  function OrDefault(v: string, default: string): (r: string)
    ensures v != "" ==> r == v
    ensures v == "" ==> r == default
  {
    if v == "" then default else v
  }

  /** With a non-empty default the location is always set, and defaulting it twice is defaulting it once. */
  lemma OrDefaultSettles(v: string, default: string)
    requires default != ""
    ensures OrDefault(v, default) != ""
    ensures OrDefault(OrDefault(v, default), default) == OrDefault(v, default)
  {
  }

  class TrivyRepo {
    var trivy: string
    var trivyDB: string
    var vulnList: string

    constructor(trivy: string, trivyDB: string, vulnList: string)
      ensures this.trivy == trivy && this.trivyDB == trivyDB && this.vulnList == vulnList
    {
      this.trivy := trivy;
      this.trivyDB := trivyDB;
      this.vulnList := vulnList;
    }

    /** Every location is set. */
    predicate Complete()
      reads this
    {
      trivy != "" && trivyDB != "" && vulnList != ""
    }

    /** Fills each empty location with its default and keeps the configured ones. */
    method SetDefault()
      modifies this
      ensures trivy == OrDefault(old(trivy), DefaultTrivy)
      ensures trivyDB == OrDefault(old(trivyDB), DefaultTrivyDB)
      ensures vulnList == OrDefault(old(vulnList), DefaultVulnList)
      ensures Complete()
      // a second call changes nothing
      ensures old(Complete()) ==> trivy == old(trivy) && trivyDB == old(trivyDB) && vulnList == old(vulnList)
    {
      if trivy == "" {
        trivy := DefaultTrivy;
      }
      if trivyDB == "" {
        trivyDB := DefaultTrivyDB;
      }
      if vulnList == "" {
        vulnList := DefaultVulnList;
      }
    }
  }
}
