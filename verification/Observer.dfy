/** The observer agent's risk weights. */
module Observer {
  import opened Prelude
  import opened CorrelationWindow

  function SeverityWeight(severity: string): int {
    if severity == "INFORMATIONAL" then 2
    else if severity == "LOW" then 8
    else if severity == "MEDIUM" then 18
    else if severity == "HIGH" then 35
    else if severity == "CRITICAL" then 55
    else 5
  }

  function SourceBonus(source: string): int {
    if source == "falco" || source == "security-command-center" then 12
    else if source == "trivy" || source == "prowler" then 6
    else if source == "cloud-logging" then 4
    else if source == "mcp-audit" || source == "mcp-server" then 8
    else 0
  }

  function RiskWeight(severity: string, source: string): int {
    Min(100, SeverityWeight(severity) + SourceBonus(source))
  }

  /**
   * An observation as the observer publishes it: an upper-case severity and the weight that goes with
   * it and with some lower-case source.
   */
  ghost predicate Observed(severity: string, weight: int) {
    && (IsCritical(severity) ==> severity == "CRITICAL")
    && exists source :: weight == RiskWeight(severity, source)
  }

  /** Observed weights lie between 2 and 67, and a critical signal weighs at least 55. */
  lemma WeightRange(severity: string, weight: int)
    requires Observed(severity, weight)
    ensures 2 <= weight <= 67
    ensures IsCritical(severity) ==> weight >= 55
  {
    var source :| weight == RiskWeight(severity, source);
    assert 0 <= SourceBonus(source) <= 12;
  }

  /** The weight of each severity by itself, and what each source adds to it. */
  lemma WeightsTabled(severity: string, source: string)
    ensures var severities := map["UNKNOWN" := 5, "INFORMATIONAL" := 2, "LOW" := 8, "MEDIUM" := 18, "HIGH" := 35, "CRITICAL" := 55];
            var sources := map["falco" := 12, "security-command-center" := 12, "trivy" := 6, "prowler" := 6,
                               "cloud-logging" := 4, "mcp-audit" := 8, "mcp-server" := 8];
            RiskWeight(severity, source)
            == (if severity in severities then severities[severity] else 5) + (if source in sources then sources[source] else 0)
  {
  }

  /** From one source, a higher severity weighs more; an unknown one weighs less than a low one. */
  lemma SeverityOrdersWeights(source: string)
    ensures RiskWeight("INFORMATIONAL", source) < RiskWeight("UNKNOWN", source) < RiskWeight("LOW", source)
          < RiskWeight("MEDIUM", source) < RiskWeight("HIGH", source) < RiskWeight("CRITICAL", source)
  {
  }

  /** The severities and sources whose single observation reaches the shipped threshold of 40. */
  lemma SingleReachesThresholdExactly(severity: string, source: string)
    ensures RiskWeight(severity, source) >= 40 <==>
      || severity == "CRITICAL"
      || (severity == "HIGH" && source in {"falco", "security-command-center", "trivy", "prowler", "mcp-audit", "mcp-server"})
  {
  }
}
