/** The fairness-audit endpoint: per-group average distances, their three-band reading
    and the overall fairness score. */
module Audit {
  import opened Wrappers
  import opened Thresholds
  import opened Images
  import opened Distances
  import opened Interpretation
  import opened FairnessScore

  /** One row of `interpretation`. */
  datatype InterpretationEntry = InterpretationEntry(group: string, status: BiasStatus, message: string)

  datatype AuditReport = AuditReport(demographicDistances: seq<GroupDistance>,
                                     threshold: real,
                                     overallFairnessScore: int,
                                     interpretation: seq<InterpretationEntry>)

  /** The interpretation row of one distance entry. */
  function EntryReading(e: GroupDistance): InterpretationEntry
  {
    var reading := InterpretDistance(e.averageDistance);
    InterpretationEntry(e.group, reading.status, reading.message)
  }

  const NO_AUDIT_DATA: string := "No reference images found for audit"

  /** The interpretation loop: one reading per distance entry, in the same order. */
  method BuildInterpretation(distances: seq<GroupDistance>) returns (interpretation: seq<InterpretationEntry>)
    ensures |interpretation| == |distances|
    ensures forall i :: 0 <= i < |distances| ==>
              && interpretation[i].group == distances[i].group
              && interpretation[i].status == InterpretDistance(distances[i].averageDistance).status
              && interpretation[i].message == Message(interpretation[i].status)
  {
    interpretation := [];
    for i := 0 to |distances|
      invariant |interpretation| == i
      invariant forall k :: 0 <= k < i ==> interpretation[k] == EntryReading(distances[k])
    {
      var reading := InterpretDistance(distances[i].averageDistance);
      interpretation := interpretation + [InterpretationEntry(distances[i].group, reading.status, reading.message)];
    }
  }

  /** In every entry the audit collects, the above-threshold flag is set exactly when the
      entry reads as low bias. */
  lemma FlagAgreesWithStatus(store: Store, limit: int, spread: seq<Embedding> -> real)
    ensures forall e :: e in Entries(store, GROUPS, limit, spread) ==>
              (e.isAboveThreshold <==> InterpretDistance(e.averageDistance).status == LowBias)
  {
    EntriesWellFormed(store, GROUPS, limit, spread);
  }

  /** The audit. `spread` stands for the group's mean cosine distance of its embeddings
      to their centroid. Fails when no group yields any embedding. */
  method FairnessAudit(store: Store, spread: seq<Embedding> -> real) returns (r: Result<AuditReport>)
    ensures r.Err? <==> Entries(store, GROUPS, MAX_AUDIT_SAMPLES_PER_GROUP, spread) == []
    ensures r.Err? ==> r.error == NO_AUDIT_DATA
    ensures r.Ok? ==>
              var entries := Entries(store, GROUPS, MAX_AUDIT_SAMPLES_PER_GROUP, spread);
              && r.value.demographicDistances == entries
              && r.value.threshold == STANDARD_THRESHOLD
              && r.value.overallFairnessScore == OverallFairness(entries)
              && r.value.overallFairnessScore <= 100
              && |r.value.interpretation| == |entries|
              && forall i :: 0 <= i < |entries| ==>
                   && r.value.interpretation[i].group == entries[i].group
                   && r.value.interpretation[i].status == InterpretDistance(entries[i].averageDistance).status
                   && r.value.interpretation[i].message == Message(r.value.interpretation[i].status)
                   && (entries[i].isAboveThreshold <==> r.value.interpretation[i].status == LowBias)
                   && 0 < entries[i].sampleCount <= MAX_AUDIT_SAMPLES_PER_GROUP
  {
    var distances := CollectDistances(store, MAX_AUDIT_SAMPLES_PER_GROUP, spread);
    if distances == [] {
      return Err(NO_AUDIT_DATA);
    }
    var interpretation := BuildInterpretation(distances);
    var score := ComputeOverallFairness(distances);
    EntriesWellFormed(store, GROUPS, MAX_AUDIT_SAMPLES_PER_GROUP, spread);
    assert forall i :: 0 <= i < |distances| ==> distances[i] in distances;
    r := Ok(AuditReport(distances, STANDARD_THRESHOLD, score, interpretation));
  }
}
