/** The face-comparison endpoint's decision, given what the detector and the verifier
    report. */
module Compare {
  import opened Wrappers
  import opened Thresholds

  /** The keys of the verifier's output the endpoint reads; each one may be missing. */
  datatype VerifyOutput = VerifyOutput(distance: Option<real>, threshold: Option<real>, verified: Option<bool>)

  datatype Comparison = Comparison(face1Detected: bool, face2Detected: bool,
                                   cosineSimilarity: real, isMatch: bool, confidence: real)

  /** The distance read from the verifier, 1.0 when missing. */
  function DistanceOf(v: VerifyOutput): real
  {
    match v.distance
    case Some(d) => d
    case None => 1.0
  }

  /** The threshold read from the verifier, the standard one when missing. */
  function ThresholdOf(v: VerifyOutput): real
  {
    match v.threshold
    case Some(t) => t
    case None => STANDARD_THRESHOLD
  }

  /** Similarity of a distance: `max(0.0, 1.0 - distance)`. */
  function Similarity(distance: real): (s: real)
    ensures s >= 0.0
    ensures s >= 1.0 - distance
    ensures s == 0.0 || s == 1.0 - distance
    ensures distance >= 0.0 ==> s <= 1.0
  {
    var c := 1.0 - distance;
    if c > 0.0 then c else 0.0
  }

  /** The comparison reported for two uploads. The verifier's output is consulted only
      when a face was detected in both. */
  function CompareFaces(face1Detected: bool, face2Detected: bool, verify: VerifyOutput): (c: Comparison)
    ensures c.face1Detected == face1Detected && c.face2Detected == face2Detected
    ensures c.cosineSimilarity >= 0.0
    ensures !(face1Detected && face2Detected) ==>
              c.cosineSimilarity == 0.0 && !c.isMatch && c.confidence == 1.0
    ensures face1Detected && face2Detected ==>
              && c.cosineSimilarity == Similarity(DistanceOf(verify))
              && (verify.verified.Some? ==> c.isMatch == verify.verified.value)
              && (verify.verified.None? ==> (c.isMatch <==> DistanceOf(verify) <= ThresholdOf(verify)))
    ensures c.confidence == if c.isMatch then c.cosineSimilarity else 1.0 - c.cosineSimilarity
  {
    var both := face1Detected && face2Detected;
    var distance := DistanceOf(verify);
    var similarity := if both then Similarity(distance) else 0.0;
    var isMatch := both && match verify.verified
                           case Some(b) => b
                           case None => distance <= ThresholdOf(verify);
    var confidence := if isMatch then similarity else 1.0 - similarity;
    Comparison(face1Detected, face2Detected, similarity, isMatch, confidence)
  }

  /** Similarity and confidence lie in [0, 1] whenever the distance is non-negative. */
  lemma ConfidenceInUnitInterval(face1Detected: bool, face2Detected: bool, verify: VerifyOutput)
    requires DistanceOf(verify) >= 0.0
    ensures var c := CompareFaces(face1Detected, face2Detected, verify);
            0.0 <= c.cosineSimilarity <= 1.0 && 0.0 <= c.confidence <= 1.0
  {
  }

  /** Without a verdict from the verifier, a closer pair is matched whenever a farther
      one is, and it is never less similar. */
  lemma MatchMonotoneInDistance(v1: VerifyOutput, v2: VerifyOutput)
    requires v1.verified.None? && v2.verified.None? && ThresholdOf(v1) == ThresholdOf(v2)
    requires DistanceOf(v1) <= DistanceOf(v2)
    ensures CompareFaces(true, true, v2).isMatch ==> CompareFaces(true, true, v1).isMatch
    ensures CompareFaces(true, true, v2).cosineSimilarity <= CompareFaces(true, true, v1).cosineSimilarity
  {
  }
}
