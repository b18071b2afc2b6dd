# EduMood recognizer — a Dafny model

EduMood watches a classroom webcam stream and records what emotions the
students' faces show. This project models the core of
`edumood_recognizer.py`:

- the **session ledger** `EduMoodSessionStats`: an append-only list of
  emotion records, and its table view with a fixed eight-column schema;
- the **frame pipeline** `EduMoodRecognizer.recognize`: it counts and mirrors
  every frame and analyses only every N-th one. Frames in between get the
  cached last annotated frame, or the mirrored frame before any analysis. An
  analysed frame appends a latency sample, stamps the session end, refreshes
  the cache and, when labels were found, appends one record;
- the **per-face loop** of `_analyze_frame`: the classifier's answer is either
  a list or a dictionary, or it raised. Lower-cased non-empty labels are
  collected, and a failing face is skipped;
- the **record normalisation**: labels are lower-cased, counted and folded
  into seven keys. Synonyms are merged and unknown labels are dropped;
- the **latency summary** `print_latency_summary`: "no data", or the count,
  average, minimum and maximum, together with the session duration.

The files, all in one project:

- `wrappers.dfy`: `Option`.
- `emotions.dfy`: categories, lower-casing, the synonym table and the
  seven-key record.
- `session_stats.dfy`: the ledger class and its table.
- `face_analysis.dfy`: one frame's faces.
- `latency.dfy`: the summary statistics.
- `recognizer.dfy`: two layers, each tied to the other:
  - the `Step`/`Run` specification of the pipeline, with its lemmas;
  - the `EduMoodRecognizer` class, whose methods are proved against that
    specification.

Frames are a type parameter, and mirroring and drawing are parameters of the
recognizer. Each face arrives with the classifier's answer for it. The clock
readings and the measured latency are inputs of `Recognize` and
`PrintLatencySummary`.

## Model

| member | source | states |
|---|---|---|
| SessionStats.EduMoodSessionStats.constructor | edumood_recognizer.py:21-22 | a new ledger is empty |
| SessionStats.EduMoodSessionStats.AddRecord | edumood_recognizer.py:24-25 | the record is appended at the end; earlier records are unchanged and in order |
| SessionStats.EduMoodSessionStats.ToDataframe | edumood_recognizer.py:27-41 | columns are always the fixed eight; one row per record in insertion order; zero rows for an empty ledger |
| SessionStats.Row | edumood_recognizer.py:166-178 | a row has eight cells: the timestamp first, then each category's count under its own column name |
| SessionStats.ColumnsAreDistinct | edumood_recognizer.py:30-39 | the schema has eight distinct column names |
| SessionStats.RowsSnoc | edumood_recognizer.py:24-25 | appending a record adds its row at the end and keeps every earlier row |
| Emotions.AllEmotionsListsEachOnce | edumood_recognizer.py:169-177 | the record has exactly seven categories, each listed once |
| Emotions.Lower | edumood_recognizer.py:98-100 | ASCII `.lower()`: same length, each upper-case letter becomes its own lower-case letter, no upper-case letter is left, and every other character is kept. `LowerIdempotent` shows a second pass changes nothing |
| Emotions.Lowered | edumood_recognizer.py:163 | the list comprehension keeps the list's length. Every element is lower-case and as long as its label, an already lower-case label is kept as it is, and each element is its label lower-cased |
| Emotions.LowerIdempotent | edumood_recognizer.py:98-100 | a lower-cased label is unchanged by lower-casing again, so the second `.lower()` changes nothing |
| Emotions.LoweredOfLower | edumood_recognizer.py:163 | lower-casing leaves a list of lower-case labels as it is |
| Emotions.Category | edumood_recognizer.py:169-177 | the synonym table: the category each lower-cased label folds into, None for a label with no key. Its agreement with the record is `SingleFollowsTable` and `NormalizeMatchesTable` |
| Emotions.CapitalisedLabelsFold | edumood_recognizer.py:98-100 | capitalised labels such as "Happy" and "SURPRISED" fold into the same categories as their lower-case spellings |
| Emotions.CategoryOfName | edumood_recognizer.py:169-177 | each record key is itself a known label, in its own category |
| Emotions.FromCounter | edumood_recognizer.py:167-178 | the record read off a Counter: each key takes the count of its own spelling plus its synonym, 0 when absent |
| Emotions.Single | edumood_recognizer.py:167-178 | the record of a Counter holding one label; `SingleFields` gives it key by key |
| Emotions.SingleFields | edumood_recognizer.py:167-178 | a one-label Counter gives 1 under the key of its spelling or synonym and 0 under every other key |
| Emotions.Normalize | edumood_recognizer.py:163-178 | the labels are lower-cased, counted and read off into the seven keys. Its meaning is stated by `NormalizeMatchesTable` and `NormalizeTotalBound` |
| Emotions.SingleFollowsTable | edumood_recognizer.py:169-177 | one label counts 1 in the category the synonym table gives it and 0 elsewhere; an unknown label counts nothing |
| Emotions.FromCounterUnion | edumood_recognizer.py:163-178 | counting two batches of labels together gives the key-wise sum of their records |
| Emotions.FromCounterAdd | edumood_recognizer.py:163-178 | one more occurrence in the counter adds exactly that label's contribution to the record |
| Emotions.NormalizeEmpty | edumood_recognizer.py:163-178 | no labels give the all-zero record |
| Emotions.NormalizeSnoc | edumood_recognizer.py:163-178 | one more label adds exactly its lower-cased contribution |
| Emotions.NormalizeDropsUnknown | edumood_recognizer.py:163-178 | a label outside the synonym table does not change the record |
| Emotions.NormalizeMatchesTable | edumood_recognizer.py:163-178 | each key counts exactly the labels that fold into it: surprise/surprised, disgust/disgusted, fear/fearful, and the identity keys |
| Emotions.NormalizeTotal | edumood_recognizer.py:163-178 | the counts add up to the number of known labels |
| Emotions.KnownCountBound | edumood_recognizer.py:163-178 | the known labels are at most all labels, and all of them exactly when every label is known |
| Emotions.NormalizeTotalBound | edumood_recognizer.py:163-178 | the counts add up to at most the number of labels, with equality if and only if every label is in the table |
| Emotions.NormalizeAllUnknown | edumood_recognizer.py:163-178 | labels that are all outside the synonym table give counts that are all zero. That such a frame still appends a record is stated by `StepLedgers` and `NewRecords` |
| Emotions.NormalizeExample | edumood_recognizer.py:163-178 | "surprised", "fear", "happy" give one surprise, one fearful and one happy |
| FaceAnalysis.DominantOf | edumood_recognizer.py:98-100 | the dictionary's `dominant_emotion`, or "" when the key is absent |
| FaceAnalysis.Dominant | edumood_recognizer.py:90-100 | a face is skipped exactly when the classifier raised or returned an empty list. Otherwise the label is the lower-cased `dominant_emotion` of the dictionary, or of the list's first result, and "" when the key is absent |
| FaceAnalysis.OnlyFirstResult | edumood_recognizer.py:97-98 | of a list answer only the first result is read |
| FaceAnalysis.FaceLabels | edumood_recognizer.py:102-103 | a handled face with a non-empty label contributes that label, any other face nothing |
| FaceAnalysis.Labels | edumood_recognizer.py:86-103 | the labels collected over the faces in order. Its properties are `LabelsBound`, `LabelsWellFormed`, `LabelsOfDictionaries` and `SkippedFaceIsIgnored` |
| FaceAnalysis.LabelsOfDictionaries | edumood_recognizer.py:98-103 | faces answered with dictionaries whose `dominant_emotion` is non-empty and lower-case contribute exactly those values, in face order |
| FaceAnalysis.AnnotateFace | edumood_recognizer.py:105-115 | a handled face is drawn with its region and label, even an empty label; a skipped face leaves the frame as it is |
| FaceAnalysis.Annotate | edumood_recognizer.py:88-120 | the frame after drawing every face in order. Its properties are `AnnotateAppend`, `SkippedFaceIsIgnored` and `AllSkipped` |
| FaceAnalysis.LabelsAppend | edumood_recognizer.py:88-103 | labels are collected face by face, in order |
| FaceAnalysis.LabelsBound | edumood_recognizer.py:102-103 | each face contributes at most one label |
| FaceAnalysis.LabelsWellFormed | edumood_recognizer.py:98-103 | every collected label is non-empty and lower-case |
| FaceAnalysis.AnnotateAppend | edumood_recognizer.py:88-115 | faces are drawn one after another, in order |
| FaceAnalysis.SkippedFaceIsIgnored | edumood_recognizer.py:116-118 | a failing face does not abort the loop; the labels and drawing are those of the other faces |
| FaceAnalysis.AllSkipped | edumood_recognizer.py:86-120 | with no face handled, no label is collected and the frame is returned unchanged |
| Latency.Sum | edumood_recognizer.py:191 | the sum of the samples; `SumBetween` and `AverageTimesCount` state its properties |
| Latency.Minimum | edumood_recognizer.py:192 | the smaller of each next sample and the minimum so far; `MinimumIsSmallest` states it is the minimum |
| Latency.Maximum | edumood_recognizer.py:193 | the larger of each next sample and the maximum so far; `MaximumIsLargest` states it is the maximum |
| Latency.Summarize | edumood_recognizer.py:186-193 | the "no data" answer comes exactly when the ledger is empty |
| Latency.MinimumIsSmallest | edumood_recognizer.py:192 | the minimum is a sample and no sample is smaller |
| Latency.MaximumIsLargest | edumood_recognizer.py:193 | the maximum is a sample and no sample is larger |
| Latency.SumBetween | edumood_recognizer.py:191 | samples between lo and hi put the sum between count·lo and count·hi |
| Latency.AverageBetween | edumood_recognizer.py:191 | the exact average of such values lies between lo and hi |
| Latency.SummaryBounds | edumood_recognizer.py:190-193 | for a non-empty ledger: the count is its length, min and max are samples, min ≤ every sample ≤ max, and min ≤ average ≤ max |
| Latency.AverageTimesCount | edumood_recognizer.py:191 | average × count is the sum of the samples |
| Latency.SummaryExample | edumood_recognizer.py:190-193 | samples 10, 30, 20 give count 3, average 20, min 10, max 30 |
| Recognizer.IsAnalysisFrame | edumood_recognizer.py:137 | frame number `count` is analysed when the interval divides it; `AnalysisFrameByAbs` and `RunAnalyses` state what that selects |
| Recognizer.Fresh | edumood_recognizer.py:52-67 | the state of a new recognizer: count 0, no cache, no latencies, no session end, and the ledger as given |
| Recognizer.Cached | edumood_recognizer.py:139-142 | the frame returned without analysis: the cached annotated frame, or the mirrored frame if none is cached |
| Recognizer.NewRecords | edumood_recognizer.py:162-180 | an analysed frame adds no record without labels, otherwise one record of the normalised labels; `StepRecord` states its contents |
| Recognizer.Step | edumood_recognizer.py:128-182 | one call of `recognize`: the new state and the returned frame. Its properties are `StepLedgers`, `StepCaches` and `StepRecord` |
| Recognizer.Run | edumood_recognizer.py:122-182 | successive calls: the final state and the returned frames in order. Its properties are `RunCounts`, `RunAnalyses`, `RunLedgersGrow`, `RunCache`, `RunWithoutAnalysis`, `FreshRun` and `FreshSessionEnd` |
| Recognizer.AnalysisFrameByAbs | edumood_recognizer.py:137 | the sampling test selects the same frames for N and -N |
| Recognizer.AnalysisCountStep | edumood_recognizer.py:137 | one more frame adds one analysis exactly when the frame is due |
| Recognizer.StepLedgers | edumood_recognizer.py:128-180 | every call adds 1 to the frame count. An analysed frame appends exactly one latency sample. A record is appended exactly when the frame is analysed and labels were found. Both ledgers keep their earlier entries |
| Recognizer.StepCaches | edumood_recognizer.py:137-159 | an analysed frame is returned and cached, its latency is the last sample, and its clock reading is the session end. Any other frame changes nothing but the count and returns the cache, or the mirrored frame if nothing is cached |
| Recognizer.StepRecord | edumood_recognizer.py:162-180 | on an analysed frame with at least one label, the call appends exactly one record, which has the call's timestamp and the normalised labels, with 0 < labels ≤ faces. Its counts add up to at most the number of labels, with equality exactly when all are known |
| Recognizer.StepAppends | edumood_recognizer.py:161-180 | an analysed frame appends to the records exactly what `NewRecords` gives for its labels and timestamp |
| Recognizer.NewRecordCounts | edumood_recognizer.py:161-178 | a non-empty label list gives one record of its normalised counts, which add up to at most the number of labels, with equality exactly when all are known |
| Recognizer.RunCounts | edumood_recognizer.py:122-128 | after L calls the frame count has grown by L, and L frames were returned |
| Recognizer.RunAnalyses | edumood_recognizer.py:137-150 | over frames k+1..k+L exactly (k+L)/\|N\| − k/\|N\| analyses happen, one latency sample each |
| Recognizer.RunLedgersGrow | edumood_recognizer.py:150-180 | both ledgers are append-only, and records grow no faster than latency samples |
| Recognizer.RunCache | edumood_recognizer.py:139-159 | the cache and the session end are empty after a run exactly when they were empty before and nothing was analysed, so once set they are never empty again |
| Recognizer.RunWithoutAnalysis | edumood_recognizer.py:137-142 | while no frame is due, only the count changes, and each call returns the cache or its own mirrored frame |
| Recognizer.FreshRun | edumood_recognizer.py:52-67 | a fresh recognizer analyses ⌊L/\|N\|⌋ of its first L frames, and before the first analysis returns each frame mirrored |
| Recognizer.FreshSessionEnd | edumood_recognizer.py:196-197 | started fresh, the recognizer has a session end exactly when it has latency samples |
| Recognizer.EduMoodRecognizer.constructor | edumood_recognizer.py:52-67 | the new state is the fresh one: count 0, empty cache and latency ledger, no session end; the start time and default interval of five are kept |
| Recognizer.EduMoodRecognizer.AnalyzeFrame | edumood_recognizer.py:69-120 | the loop returns the frame with every handled face drawn and the collected labels, as specified by Annotate and Labels |
| Recognizer.EduMoodRecognizer.Recognize | edumood_recognizer.py:122-182 | the new state and the returned frame are exactly one Step of the specification |
| Recognizer.EduMoodRecognizer.PrintLatencySummary | edumood_recognizer.py:185-200 | with no samples, no report and the session end is untouched. Otherwise the latency statistics and the duration from start to end are reported, and the end is taken from the clock only if it was unset |

## Left out

- OpenCV is not modelled: grey conversion, CLAHE, Haar cascade loading and
  detection, cropping, and drawing boxes and text. Detection becomes the
  input sequence of faces, and drawing becomes the `draw` parameter. The
  drawing parameter sees the same region and label as the source's calls.
- DeepFace inference is not modelled. Each face carries the classifier's
  answer: raised, a list of dictionaries, or a dictionary. Exceptions raised
  while drawing are not modelled.
- PyAV frame conversion and `cv2.flip` are not modelled. Frames are a type
  parameter, and mirroring is the `flip` parameter.
- The recognizer's calls are assumed never to overlap. The UI hands
  `recognize` to the streaming library as its frame callback, and reads the
  ledger's table from the script run. The model treats these as serialised
  and does not model concurrent access.
- A latency sample may be negative in the source, because it is the
  difference of two wall-clock readings (`time.time()`), which can step
  backwards. The model's samples are natural numbers, so it excludes this.
- The clocks are inputs of the calls: `time.time()`, `datetime.now()` and
  `strftime`. Latencies are whole milliseconds rather than floats. The
  record's timestamp is a clock reading rather than a formatted string.
  Durations are whole seconds, and `duration_min` is not computed.
- EduMoodRecognizer.PrintLatencySummary returns the reported values rather
  than logging them. All logging is left out.
- Lower-casing covers ASCII letters only. Python's `str.lower` also folds
  other Unicode letters.
- EduMoodSessionStats.AddRecord accepts only records of the seven-key shape.
  The source accepts any dictionary, but the recognizer only ever passes
  this shape.
- The sampling interval is any non-zero integer. The source validates
  nothing: zero raises on every call, which the model excludes by its type.
  A negative interval is accepted by the source and selects the same frames
  as its absolute value, which is what `AnalysisFrameByAbs` states.
- The session end is overwritten on every analysed frame, so the summary's
  duration ends at the last analysed frame. `FreshSessionEnd` shows that a
  recognizer driven only through `recognize` has a session end whenever it
  has samples. So the summary's own clock reading is used only when the
  state was changed some other way.
- In the source the annotated frame is the mirrored image drawn on in
  place. The model returns the drawn frame as a value. Each mirrored frame
  is a fresh array, so no other frame can see the drawing.
- The in-place drawing is also visible within one frame. Each face's crop
  is a view into the frame being drawn on, so a later face may be
  classified on pixels that already carry an earlier face's box. The model
  takes the classifier's answers as inputs, so it cannot represent this.
- `app.py` is not part of this model: the UI wiring, and the per-emotion
  totals sorted for display.
- `test_edumood.py` is not modelled. It reads an image file and asserts only
  a type.
