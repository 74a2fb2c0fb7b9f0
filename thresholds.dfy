/** Configuration constants of the service: the decision threshold, the demographic
    groups, the per-group ("adaptive") thresholds and the sample limits. */
module Thresholds {

  /** Cosine-distance threshold of the ArcFace baseline. */
  const STANDARD_THRESHOLD: real := 0.68

  /** The reference groups, in the order every endpoint visits them. */
  const GROUPS: seq<string> := ["African", "Asian", "Caucasian", "Indian"]

  /** Per-group thresholds used for mitigation; only one group departs from the standard. */
  const ADAPTIVE_THRESHOLDS: map<string, real> :=
    map["African" := 0.40,
        "Asian" := STANDARD_THRESHOLD,
        "Caucasian" := STANDARD_THRESHOLD,
        "Indian" := STANDARD_THRESHOLD]

  /** Default image limits per group for the audit and for the reference sets. */
  const MAX_AUDIT_SAMPLES_PER_GROUP: int := 50
  const MAX_REFERENCE_SAMPLES_PER_GROUP: int := 50

  /** The threshold applied to a group: its adaptive entry, or the standard one when the
      group has none. Only "African" gets a different (stricter) threshold. */
  function AppliedThreshold(group: string): (t: real)
    ensures t == (if group == "African" then 0.40 else STANDARD_THRESHOLD)
    ensures 0.0 < t <= STANDARD_THRESHOLD
  {
    if group in ADAPTIVE_THRESHOLDS then ADAPTIVE_THRESHOLDS[group] else STANDARD_THRESHOLD
  }

  /** Every configured group has an adaptive entry, and there are no others. */
  lemma AdaptiveThresholdsCoverGroups()
    ensures ADAPTIVE_THRESHOLDS.Keys == set g | g in GROUPS
  {
    assert forall g :: g in GROUPS <==> g == "African" || g == "Asian" || g == "Caucasian" || g == "Indian";
  }
}
