/** The demographic-affinity endpoint: the group whose reference centroid lies closest
    to the uploaded face, and the threshold decision taken for it. */
module Predict {
  import opened Wrappers
  import opened Thresholds
  import opened Images
  import opened Distances

  const SAFE_STATUS: string := "VERIFIED SAFE"
  const REJECTED_STATUS: string := "REJECTED (Threshold Mismatch)"
  const NO_EMBEDDING: string := "Unable to generate embedding"
  const NO_REFERENCE_DATA: string := "No reference images found"

  datatype Mitigation = Mitigation(appliedThreshold: real, standardThreshold: real,
                                   biasReductionActive: bool, status: string)

  datatype Prediction = Prediction(predictedGroup: string, confidenceScore: real,
                                   distances: seq<GroupDistance>, mitigation: Mitigation)

  /** The position of the entry a stable sort by distance puts first: a smallest
      distance, and the earliest of the smallest. */
  function BestMatch(ds: seq<GroupDistance>): (k: nat)
    requires |ds| > 0
    ensures k < |ds|
    ensures forall j :: 0 <= j < |ds| ==> ds[k].averageDistance <= ds[j].averageDistance
    ensures forall j :: 0 <= j < k ==> ds[j].averageDistance > ds[k].averageDistance
  {
    if |ds| == 1 then 0
    else
      var k := BestMatch(ds[1..]) + 1;
      if ds[k].averageDistance < ds[0].averageDistance then k else 0
  }

  /** The smallest distance of a non-empty list, as a plain fold. */
  function MinDistance(ds: seq<GroupDistance>): real
    requires |ds| > 0
  {
    if |ds| == 1 then ds[0].averageDistance
    else
      var m := MinDistance(ds[..|ds| - 1]);
      var d := ds[|ds| - 1].averageDistance;
      if d < m then d else m
  }

  /** The best match carries the minimum distance. */
  lemma {:induction false} BestMatchHasMinDistance(ds: seq<GroupDistance>)
    requires |ds| > 0
    ensures ds[BestMatch(ds)].averageDistance == MinDistance(ds)
  {
    if |ds| > 1 {
      var init := ds[..|ds| - 1];
      BestMatchHasMinDistance(init);
      var b := BestMatch(init);
      assert init[b] == ds[b];
      var k := BestMatch(ds);
      if k < |ds| - 1 {
        assert ds[k] == init[k];
      }
    }
  }

  /** The selection and mitigation decision over non-empty distance entries. */
  function Decide(distances: seq<GroupDistance>): (p: Prediction)
    requires |distances| > 0
    ensures p.distances == distances
    ensures p.predictedGroup == distances[BestMatch(distances)].group
    ensures p.confidenceScore >= 0.0
    ensures p.confidenceScore == (if MinDistance(distances) < 1.0 then 1.0 - MinDistance(distances) else 0.0)
    ensures p.mitigation.appliedThreshold == (if p.predictedGroup == "African" then 0.40 else STANDARD_THRESHOLD)
    ensures p.mitigation.standardThreshold == STANDARD_THRESHOLD
    ensures p.mitigation.biasReductionActive <==> p.predictedGroup == "African"
    ensures p.mitigation.status == SAFE_STATUS <==> MinDistance(distances) < p.mitigation.appliedThreshold
    ensures p.mitigation.status == SAFE_STATUS || p.mitigation.status == REJECTED_STATUS
  {
    var best := distances[BestMatch(distances)];
    BestMatchHasMinDistance(distances);
    var minDistance := best.averageDistance;
    var c := 1.0 - minDistance;
    var confidence := if c > 0.0 then c else 0.0;
    var applied := AppliedThreshold(best.group);
    var isSafe := minDistance < applied;
    Prediction(best.group, confidence, distances,
               Mitigation(applied, STANDARD_THRESHOLD, applied != STANDARD_THRESHOLD,
                          if isSafe then SAFE_STATUS else REJECTED_STATUS))
  }

  /** The endpoint. `query` is the uploaded face's embedding, if one could be computed;
      `centroidDistance(q, embs)` stands for the cosine distance of `q` to the centroid
      of a group's embeddings. */
  method PredictDemographic(query: Option<Embedding>, store: Store,
                            centroidDistance: (Embedding, seq<Embedding>) -> real)
    returns (r: Result<Prediction>)
    ensures query.None? ==> r == Err(NO_EMBEDDING)
    ensures query.Some? ==>
              var entries := Entries(store, GROUPS, MAX_REFERENCE_SAMPLES_PER_GROUP,
                                     embs => centroidDistance(query.value, embs));
              && (r.Err? <==> entries == [])
              && (r.Err? ==> r.error == NO_REFERENCE_DATA)
              && (r.Ok? ==> r.value == Decide(entries))
  {
    if query.None? {
      return Err(NO_EMBEDDING);
    }
    var embedding := query.value;
    var distances := CollectDistances(store, MAX_REFERENCE_SAMPLES_PER_GROUP,
                                      embs => centroidDistance(embedding, embs));
    if distances == [] {
      return Err(NO_REFERENCE_DATA);
    }
    r := Ok(Decide(distances));
  }
}
