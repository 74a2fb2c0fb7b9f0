/** The three-band reading of a group's average embedding distance. */
module Interpretation {
  import opened Thresholds

  datatype BiasStatus = LowBias | ModerateBias | HighBias

  /** A status with the human-readable message that accompanies it. */
  datatype Reading = Reading(status: BiasStatus, message: string)

  /** The floor of the moderate band: nine tenths of the standard threshold. */
  const MODERATE_FLOOR: real := STANDARD_THRESHOLD * 0.90

  /** The status as it appears in the report. */
  function StatusName(s: BiasStatus): string
  {
    match s
    case LowBias => "low_bias"
    case ModerateBias => "moderate_bias"
    case HighBias => "high_bias"
  }

  function Message(s: BiasStatus): string
  {
    match s
    case LowBias => "Distance above threshold suggests strong within-group separability."
    case ModerateBias => "Distance slightly below threshold; review same-demographic errors."
    case HighBias => "Distance well below threshold; consider rebalancing and threshold tuning."
  }

  /** How severe a status is: 0 for low bias up to 2 for high bias. */
  function Severity(s: BiasStatus): nat
  {
    match s
    case LowBias => 0
    case ModerateBias => 1
    case HighBias => 2
  }

  /** Classifies a distance; the three bands partition the reals at 0.612 and 0.68. */
  function InterpretDistance(value: real): (r: Reading)
    ensures r.status == LowBias <==> value >= 0.68
    ensures r.status == ModerateBias <==> 0.612 <= value < 0.68
    ensures r.status == HighBias <==> value < 0.612
    ensures r.message == Message(r.status)
  {
    if value >= STANDARD_THRESHOLD then Reading(LowBias, Message(LowBias))
    else if value >= MODERATE_FLOOR then Reading(ModerateBias, Message(ModerateBias))
    else Reading(HighBias, Message(HighBias))
  }

  /** A larger distance never reads as more severe bias. */
  lemma SeverityNonIncreasing(u: real, v: real)
    requires u <= v
    ensures Severity(InterpretDistance(v).status) <= Severity(InterpretDistance(u).status)
  {
  }

  /** Distinct statuses carry distinct names, so the report's status string identifies the band. */
  lemma StatusNamesDistinct(s: BiasStatus, t: BiasStatus)
    ensures StatusName(s) == StatusName(t) <==> s == t
  {
    if s != t {
      assert StatusName(s)[0] != StatusName(t)[0];
    }
  }
}
