# FairFace Insight backend: decision and reduction logic

This project models the logic of the FairFace Insight Flask backend (`backend/app.py`)
that decides and reduces. The backend answers five requests: a health check, which
returns the model name, the group list and a timestamp, and four that carry logic: analyse a face, compare two faces,
predict the closest demographic reference group, and run a fairness audit over four
reference groups ("African", "Asian", "Caucasian", "Indian"). Around the
face-detection and embedding calls sits a small amount of logic, and that logic is what
the model covers:

- **Thresholds** (`thresholds.dfy`): the standard cosine-distance threshold 0.68, the
  group list, the per-group adaptive thresholds (0.40 for "African", 0.68 for the
  others) and the threshold lookup with its fallback.
- **Rounding** (`rounding.dfy`): Python's `round`, which is round-half-to-even.
- **Interpretation** (`interpretation.dfy`): the three bias bands of a distance.
- **Images** (`images.dfy`): `_list_images` (keep names whose lower-cased form ends in
  `.jpg`, `.jpeg` or `.png`, then sort them) and `_load_group_embeddings` (keep the first
  `limit` names, embed each, skip failures). Directory listings and the embedder are
  function-valued inputs.
- **Distances** (`distances.dfy`): the loop over groups that the audit and the
  prediction both run. A group is skipped when its folder is missing or none of the
  first `limit` images of its sorted listing embeds. Otherwise it gets an entry with its distance, its sample count and its
  `isAboveThreshold` flag.
- **FairnessScore** (`fairness_score.dfy`): `_compute_overall_fairness`.
- **Audit** (`audit.dfy`): the interpretation loop and the assembly of the audit report.
- **Predict** (`predict.dfy`): best-match selection, confidence and the mitigation
  decision.
- **Compare** (`compare.dfy`): similarity, match and confidence of a face comparison.
- **BoundingBox** (`bounding_box.dfy`): `_format_bounding_box`.

Distances and thresholds are Dafny `real`s. Loops in the source are methods with loops
here. Each one is proved equal to a specification function, and the properties are
proved about those functions as lemmas.

## Model

| member | source | states |
|---|---|---|
| `Thresholds.AppliedThreshold` | backend/app.py:28-33 | The applied threshold is 0.40 for "African" and the standard 0.68 for every other name, including names with no entry; it is positive and never above 0.68 |
| `Thresholds.AdaptiveThresholdsCoverGroups` | backend/app.py:26-33 | The adaptive-threshold table has an entry for exactly the four configured groups |
| `Rounding.RoundHalfEven` | backend/app.py:123 | The result is an integer within 0.5 of the argument, and a tie goes to the even integer |
| `Rounding.RoundAtMost` | backend/app.py:123 | Rounding a value at most an integer gives at most that integer |
| `Rounding.RoundAtLeast` | backend/app.py:123 | Rounding a value at least an integer gives at least that integer |
| `Interpretation.InterpretDistance` | backend/app.py:126-131 | low_bias iff v >= 0.68, moderate_bias iff 0.612 <= v < 0.68, high_bias iff v < 0.612; the message is that status's message |
| `Interpretation.SeverityNonIncreasing` | backend/app.py:126-131 | A larger distance never gets a more severe status |
| `Interpretation.StatusNamesDistinct` | backend/app.py:128-131 | Two statuses have the same report name only when they are the same status |
| `Images.FilterImagesCounts` | backend/app.py:58 | The filtered list keeps every image name as often as the listing has it, and no other name |
| `Images.LexLeTotal` | backend/app.py:59 | Any two strings are comparable in the string order |
| `Images.LexLeAntisymmetric` | backend/app.py:59 | Two strings that each come no later than the other are equal |
| `Images.LexLeTransitive` | backend/app.py:59 | The string order is transitive |
| `Images.InsertCounts` | backend/app.py:59 | Inserting a name adds exactly that name to the list's multiset |
| `Images.InsertKeepsSorted` | backend/app.py:59 | Inserting into a sorted list gives a sorted list |
| `Images.SortSortsAndPermutes` | backend/app.py:59 | The sort returns a sorted permutation of its input |
| `Images.SortedHeadIsLeast` | backend/app.py:59 | The head of a sorted list comes no later than any of its elements |
| `Images.SortIsUnique` | backend/app.py:59 | Two sorted lists with the same elements are equal, so every correct sort gives the modelled result |
| `Images.ListImages` | backend/app.py:55-60 | A folder that is not a directory lists no images |
| `Images.ListImagesContents` | backend/app.py:55-60 | The listing is sorted; a name is in it iff the path is a directory that lists the name and the name's lower-cased form ends in .jpg, .jpeg or .png; each name appears as often as the directory lists it |
| `Images.Truncate` | backend/app.py:136-137 | The result is a prefix of the names; its length is min(limit, count) for a positive limit; a limit of 0 or less keeps every name |
| `Images.Embedded` | backend/app.py:138-144 | There are never more embeddings than names |
| `Images.EmbeddedNonEmpty` | backend/app.py:138-144 | Some embedding comes back iff the embedder succeeds on at least one of the names |
| `Images.EmbeddedConcat` | backend/app.py:139-143 | Embedding two name lists in turn gives their embeddings in turn, so the embeddings keep the listing order |
| `Images.EmbeddedAllFound` | backend/app.py:139-143 | When every image embeds, there is exactly one embedding per name, and the i-th is the i-th name's |
| `Images.EmbeddedReadsOnlyNames` | backend/app.py:139-143 | The embeddings depend only on what the embedder returns for the named images |
| `Images.LoadLooksOnlyAtFirstNames` | backend/app.py:134-144 | With a positive limit, only the first `limit` sorted image names are embedded: embedders that agree on them give the same result |
| `Images.LoadGroupEmbeddings` | backend/app.py:134-144 | The loop returns the embeddings of the truncated sorted image list, in order, skipping failures; with a positive limit it returns at most `limit` of them |
| `Distances.EntriesWellFormed` | backend/app.py:326-344 | There are at most as many entries as groups. Each entry names a visited group and is that group's entry. Its flag is set iff its distance is >= 0.68. Its sample count is positive and, with a positive limit, at most the limit |
| `Distances.EntriesDistinctGroups` | backend/app.py:326-344 | When the groups visited are distinct, no two entries name the same group |
| `Distances.ConfiguredGroupsReportedOnce` | backend/app.py:326-344 | For the four configured groups, each group is reported at most once |
| `Distances.EntriesHaveGroupEntry` | backend/app.py:326-344 | A visited group has an entry in the list iff the group on its own yields an entry |
| `Distances.EntryForPresent` | backend/app.py:326-333 | A group yields an entry iff its folder is a directory and the embedder succeeds on at least one of the first `limit` sorted images in it |
| `Distances.EntriesPresence` | backend/app.py:326-344 | A visited group has an entry iff its folder is a directory and the embedder succeeds on at least one of the first `limit` sorted images in it |
| `Distances.EntriesConcat` | backend/app.py:326-344 | Entries follow the order of the groups visited |
| `Distances.EntriesStep` | backend/app.py:326-344 | Visiting one more group appends that group's entry, if any, to the entries so far |
| `Distances.CollectDistances` | backend/app.py:326-344 | The loop over the groups (the same loop as backend/app.py:266-284 in the prediction) builds exactly the specified entries |
| `FairnessScore.Ratio` | backend/app.py:121 | The ratio is at most 1. It is exactly 1 iff the distance is >= 0.68, and otherwise it is distance/0.68. It is non-negative for a non-negative distance |
| `FairnessScore.SumAtMost` | backend/app.py:123 | A sum of n values each at most c is at most n*c |
| `FairnessScore.SumAtLeast` | backend/app.py:123 | A sum of n values each at least c is at least n*c |
| `FairnessScore.DivWithin` | backend/app.py:123 | Dividing a sum by a positive count keeps bounds that hold for the sum scaled by that count |
| `FairnessScore.MeanWithin` | backend/app.py:123 | The mean of values in [lo, hi] lies in [lo, hi] |
| `FairnessScore.ScoreAtMost100` | backend/app.py:116-123 | The overall score never exceeds 100 |
| `FairnessScore.ScoreInRange` | backend/app.py:116-123 | With non-negative distances the overall score lies in [0, 100] |
| `FairnessScore.ScoreFullWhenAllAbove` | backend/app.py:116-123 | When every group's distance is >= 0.68 the score is exactly 100 |
| `FairnessScore.ComputeOverallFairness` | backend/app.py:116-123 | The loop computes round-half-even(100 * mean of min(d/0.68, 1)), which is 0 for no entries and at most 100 |
| `Audit.BuildInterpretation` | backend/app.py:349-356 | The interpretation list has one entry per distance entry; the i-th carries the i-th group's name, status and message |
| `Audit.FlagAgreesWithStatus` | backend/app.py:339-356 | In every collected entry, isAboveThreshold is true iff the entry's status is low_bias |
| `Audit.FairnessAudit` | backend/app.py:321-361 | The audit fails with its error message iff no group yields an entry. Otherwise the report has the specified entries, threshold 0.68, the overall score (at most 100) and a parallel interpretation list: each item names its entry's group, carries the reading of its distance and that reading's message, and is low_bias exactly when the entry is flagged. Every sample count is in 1..50 |
| `Predict.BestMatch` | backend/app.py:289-290 | The chosen position holds a minimum distance, and every earlier position has a strictly larger distance, so a tie goes to the first entry |
| `Predict.BestMatchHasMinDistance` | backend/app.py:289-292 | The chosen entry's distance equals the minimum computed by a plain fold |
| `Predict.Decide` | backend/app.py:289-311 | The predicted group is the best match's. Confidence is max(0, 1 - min) and is >= 0. The applied threshold is 0.40 for "African" and 0.68 otherwise. Bias reduction is active iff the group is "African". The status is VERIFIED SAFE iff min < applied, and REJECTED (Threshold Mismatch) otherwise |
| `Predict.PredictDemographic` | backend/app.py:261-298 | It fails with "Unable to generate embedding" when the upload has no embedding, and with "No reference images found" iff no group yields an entry; otherwise the result is the decision over the collected entries |
| `Compare.Similarity` | backend/app.py:231 | The similarity is max(0, 1 - distance). It is >= 0, and it is at most 1 when the distance is non-negative |
| `Compare.CompareFaces` | backend/app.py:214-235 | Unless both faces are detected, similarity is 0, there is no match and confidence is 1. Otherwise similarity comes from the distance (1.0 when missing). The match is the verifier's verdict, or distance <= threshold (0.68 when missing) when the verdict is absent. Confidence is the similarity on a match and 1 - similarity otherwise |
| `Compare.ConfidenceInUnitInterval` | backend/app.py:231-235 | With a non-negative distance, similarity and confidence both lie in [0, 1] |
| `Compare.MatchMonotoneInDistance` | backend/app.py:230-233 | With no verdict and the same threshold, a closer pair is matched whenever a farther one is, and is at least as similar |
| `BoundingBox.Trunc` | backend/app.py:66-69 | int() truncates toward zero |
| `BoundingBox.FormatBoundingBox` | backend/app.py:63-72 | No box for a missing or empty area. Otherwise there is a box iff the chosen width and height values are >= 1, so none when both width keys or both height keys are absent. "w"/"h" take precedence over "width"/"height", and a missing x or y defaults to 0. A returned box has positive width and height |
| `BoundingBox.FormatReportedBox` | backend/app.py:63-72 | Formatting a reported box again returns the same box, and a box comes back iff its width and height are positive |

## Left out

- The health check (backend/app.py:155-162) is not modelled: it returns the status "ok", the model name, the group list and a timestamp, and decides nothing.
- The HTTP layer is not modelled: Flask routes, request parsing, JSON responses, CORS, security headers, status codes and the server start-up. The error returns of the prediction and the audit (backend/app.py:264, 287, 347) appear as `Err` with the same message. The 400 answers for a missing upload and the 500 answers carrying exception text are not modelled.
- File-system effects are not modelled: saving and deleting uploads and creating folders. A directory listing is an input function (`None` for a path that is not a directory). `os.path.join` is modelled as `folder + "/" + name`, which is what it does for the plain names used here.
- The DeepFace calls (face detection, embedding, verification) are foreign library calls. The embedder is an input function from path to optional vector. The uploaded face's embedding is an optional input. The verifier's output is an input record with three optional keys. The analyse-face endpoint's detection step, the `MIN_FACE_CONFIDENCE` test and its response assembly are not modelled; only `_format_bounding_box` is.
- `_cosine_distance` (float32 with an epsilon) and the numpy float32 centroid are input functions: `spread` for the audit and `centroidDistance` for the prediction. For the audit, `spread` also covers the mean of the per-image distances (backend/app.py:337), which Python computes in float64.
- Floating point: distances are exact reals. So 0.68 * 0.9 is exactly 0.612 here, while in binary floating point it is slightly above 0.612, and a float distance of exactly 0.612 would read as high_bias. Sums and means are exact too.
- `str.lower` is modelled for ASCII letters only. Other Unicode case mappings are not modelled.
- `list.sort` is modelled by an insertion sort. `Images.SortIsUnique` shows that every correct sort of the same names gives the same list.
- The environment-variable overrides of the sample limits are not modelled; both limits keep their default of 50. Timing, request ids, timestamps, the disclaimer and the static evaluation plan are not modelled either.
- Exceptions raised inside an endpoint (answered with a 500 error) are not modelled, and neither are non-numeric values in a facial area.
- The static `evaluationPlan` of the audit report (backend/app.py:364-377) names FMR, FNMR, TPR parity, EER and ROC-AUC, but the backend never computes any of them; they are constant text in the response and are not modelled.
