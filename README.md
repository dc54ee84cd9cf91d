# Gesture Language Lab — a Dafny model of its core

Gesture Language Lab is a browser application. Students record hand gestures
from a webcam, label them, train a small neural network on the recordings, and
then sign in front of the camera while the recognised gestures build up a sentence.

This project models the application's decision-making core and proves properties
of that model:

- the sample store (`DatasetManager`): labels, buckets of feature vectors,
  readiness, balance and imbalance warnings, import and deletions;
- the feature flattening and hand-presence state of the hand tracker;
- the training bookkeeping of `ModelTrainer`: the label encoder and decoder, the
  flattening of the store into training arrays, the `isTraining`/`isTrained`
  flags around the asynchronous fit, and the arg-max decoding of a prediction;
- the live predictor (`GesturePredictor`): a ten-entry sliding window of confident
  labels, the 70% stability rule, and one emission per stable gesture;
- the sentence builder and displays of `OutputManager`;
- the learning modes: validation of the saved mode and the feature-flag tables.

The JavaScript semantics the core depends on are modelled explicitly:

- `JsObject` models the own-key order of plain objects (section 10.1.11.1 of
  ECMA-262). Array-index keys come first in ascending order, then the other keys
  in creation order. `Object.keys`, `for ... in` and `JSON.stringify` all follow it.
- `JsText` models `String.prototype.trim` and the few upper-case mappings that matter.
- Names inherited from `Object.prototype` (`toString`, `__proto__`, ...) are
  modelled where the code can look them up.

Floating-point ratio tests are restated as exact integer inequalities.

Modules follow the source files:

| file | module | source |
|---|---|---|
| wrappers.dfy | Wrappers | `Option` |
| jstext.dfy | JsText | string built-ins |
| jsobject.dfy | JsObject | object key order |
| hands.dfy | Hands | js/core/hands.js |
| dataset.dfy | Dataset | js/core/dataset.js |
| trainer.dfy | Trainer | js/core/trainer.js |
| output.dfy | Output | js/ui/output.js |
| predictor.dfy | Predictor | js/core/predictor.js |
| modes.dfy | Modes | js/config/modes.js |

The classes keep the state they mutate in fields:

- `DatasetManager` holds a `Store` value (the key sequence plus the bucket map) and the current label.
- `ModelTrainer` holds its flags, label tables and model.
- `GesturePredictor` holds its running flag, window, last emission and error record.
- `HandTracker` holds the hand-detected flag and the current landmarks.
- `OutputManager` holds its three page elements.
- `TextElement` holds the text content of one page element.

Page elements are `TextElement` objects that hold their text content. The tensor
library enters through parameters:

- `tensorsOk`: whether the tensors could be built;
- `FitSettled(ok)`: whether `fit` resolved;
- the probability vector `model.predict` returned.

The clock and the learning-mode gates are parameters too.

Behaviour of the code, stated as the code has it:

- `clearLabel` removes a label's whole bucket, and `reset` empties the store.
- `setLabel` creates an empty bucket for a new label. `importDataset` replaces the
  store with whatever was parsed, without validation. A repeated member in the file
  keeps its first position and its last value.
- `train` itself does not check readiness; the train button does (js/ui/controls.js:68).
  - On entry, the label tables gain the current labels before preparation can fail.
  - A fit that fails leaves the newly built, unfitted network in place, and
    `isTrained` keeps its earlier value.
  - The `isTrained()` method of the class is shadowed by the field of the same name.
- `loadMode` accepts a saved value by its upper-case form but returns it as saved.
  So `"INDEPTH"` and `"Normal"` pass the check, but no flag table exists for them.
  `isEnabled` then throws a TypeError, and `"Normal"` is shown with the In-Depth name.
- The dash that `resetDisplay` writes is, in the source file, the three characters
  U+00E2 U+20AC U+201D (a mis-decoded em dash); the model keeps them.
- Signing the four words of the placeholder text one by one after a clear
  rebuilds the placeholder itself, so the current sentence then reads as empty.

## Model

| member | source | states |
|---|---|---|
| JsText.Trim | js/core/dataset.js:14 | the result is the input with a whitespace prefix and a whitespace suffix removed, has no whitespace at either end, and is empty exactly when the input is all whitespace |
| JsText.TrimOfTrimmed | js/ui/output.js:43 | trimming is idempotent: a string with no surrounding whitespace is unchanged |
| JsObject.InsertKeyOrdered | js/core/dataset.js:18 | creating a new property keeps the key order valid (distinct, array indices first and ascending), adds exactly that key, can be undone by deleting it, and appends any key that is not an array index |
| JsObject.WithoutOrdered | js/core/dataset.js:183 | deleting a property keeps the key order valid |
| JsObject.WithoutMembers | js/core/dataset.js:198 | after a deletion the keys are exactly the old keys other than the deleted one |
| JsObject.InsertKeyAtEnd | js/core/dataset.js:137-138 | recreating the keys of a valid object one by one, in its own order, puts each key at the end, so the order is reproduced |
| Hands.FlattenLayout | js/core/hands.js:177-181 | the feature vector has three entries per landmark; entries 3i, 3i+1, 3i+2 are the x, y, z of landmark i |
| Hands.ExtractFeatures | js/core/hands.js:174-184 | null exactly for absent landmarks; otherwise the flattened coordinates, three per landmark |
| Hands.HandTracker.OnResults | js/core/hands.js:72-91 | a hand is detected exactly when at least one landmark list is reported; the first list becomes the current landmarks, otherwise there are none |
| Hands.HandTracker.GetLandmarks | js/core/hands.js:164-166 | landmarks are available exactly when a hand is detected |
| Hands.HandTracker.IsHandDetected | js/core/hands.js:169-171 | a hand is detected exactly when landmarks are held |
| Dataset.Store.SampleCount | js/core/dataset.js:51-53 | the bucket length for a present label, 0 for an absent one |
| Dataset.Store.GetLabels | js/core/dataset.js:65-67 | exactly the labels that have buckets, each once |
| Dataset.FirstShort | js/core/dataset.js:89-93 | the first label position below five samples, or none exactly when every label has at least five |
| Dataset.Store.IsBalanced | js/core/dataset.js:205-215 | true with fewer than two labels; otherwise true exactly when every label's count is below twice every label's count, which is the test 2·(max−min) < max |
| Dataset.Store.IsReadyForTraining | js/core/dataset.js:80-96 | true exactly when there are at least two labels and every label has at least five samples |
| Dataset.Store.ReadinessMessage | js/core/dataset.js:99-118 | "Ready to train!" exactly when ready; "No data collected yet" with no labels; the two-symbol message with one label |
| Dataset.ReadinessNamesFirstShort | js/core/dataset.js:110-115 | with two or more labels, the message names the first label in key order with fewer than five samples, and its count |
| Dataset.MaxCount | js/core/dataset.js:210 | an upper bound of every label's count that some label attains |
| Dataset.MinCount | js/core/dataset.js:211 | a lower bound of every label's count that some label attains |
| Dataset.WithinFactorTwo | js/core/dataset.js:205-215 | for any non-empty list of labels, the test 2·(max−min) < max holds exactly when every label's count is below twice every label's count (so no bucket is empty) |
| Dataset.AllEmptyUnbalanced | js/core/dataset.js:214 | two or more labels without samples are never balanced (0/0 is not below 0.5) |
| Dataset.LowDataMembers | js/core/dataset.js:231-239 | a warning is listed exactly for each label whose count is below 60% of the mean, with that count and the fixed message |
| Dataset.LowDataShorter | js/core/dataset.js:229-239 | there are never more warnings than labels, and fewer when some label reaches 60% of the mean |
| Dataset.NotEveryLabelWarned | js/core/dataset.js:218-242 | with two or more labels, at least one label is never warned about |
| Dataset.PutValid | js/core/dataset.js:18 | storing a bucket keeps the store well formed and changes only that bucket |
| Dataset.RemoveValid | js/core/dataset.js:183 | deleting a label keeps the store well formed |
| Dataset.PutTotal | js/core/dataset.js:43 | replacing one bucket changes the total by the difference of the two lengths |
| Dataset.RemoveTotal | js/core/dataset.js:198 | deleting a label removes exactly its bucket's samples from the total |
| Dataset.SumCountsAppend | js/core/dataset.js:58-60 | the total over two runs of keys is the sum of their totals |
| Dataset.ExportImportRoundTrip | js/core/dataset.js:122 | writing a well-formed store as JSON members in key order and parsing them back gives the same store, key order included |
| Dataset.FromEntries | js/core/dataset.js:137 | the last member read ends up as the bucket of its label |
| Dataset.FromEntriesValid | js/core/dataset.js:137-138 | a parsed store is well formed and has a bucket exactly for each member name in the file |
| Dataset.FromEntriesLast | js/core/dataset.js:137-138 | each label of a parsed store holds the samples of the last member carrying that label |
| Dataset.Store.Entries | js/core/dataset.js:122 | one member per key, in key order, carrying that key's bucket |
| Dataset.InsertSorted | js/core/dataset.js:166 | inserting an entry with a new label into a label-sorted list keeps it sorted and adds exactly that entry |
| Dataset.SortByLabel | js/core/dataset.js:166 | the result is strictly ascending by label and a permutation of the input |
| Dataset.DatasetManager.SetLabel | js/core/dataset.js:13-20 | the current label is the trimmed name; an empty bucket is created only for a non-empty new label; existing buckets and the total are unchanged |
| Dataset.DatasetManager.AddSample | js/core/dataset.js:23-48 | false with no change without a label or landmarks; otherwise the flattened landmarks are appended to the current bucket, nothing else changes, and the total grows by one |
| Dataset.DatasetManager.GetTotalSamples | js/core/dataset.js:56-62 | the sum of the bucket lengths over all labels |
| Dataset.DatasetManager.GetSummary | js/core/dataset.js:155-169 | one entry per label, exactly the labels with their counts, strictly ascending by label |
| Dataset.DatasetManager.GetImbalanceWarnings | js/core/dataset.js:218-242 | empty with fewer than two labels, otherwise the low-data warnings in key order |
| Dataset.DatasetManager.DeleteLastSample | js/core/dataset.js:172-188 | false with no change for an absent or empty bucket; otherwise only the last vector goes, the key goes when the bucket empties, and the total drops by one |
| Dataset.DatasetManager.ClearLabel | js/core/dataset.js:191-202 | false with no change for an absent label; otherwise exactly that key and its bucket go, and the total drops by its count |
| Dataset.DatasetManager.ImportDataset | js/core/dataset.js:135-145 | a parse failure returns false and changes nothing; a parse result replaces the whole store |
| Dataset.DatasetManager.Reset | js/core/dataset.js:148-152 | no labels and no current label |
| Trainer.EncodeFacts | js/core/trainer.js:62-65 | for distinct labels, the encoder holds exactly the labels, each mapped to its position |
| Trainer.DecodeFacts | js/core/trainer.js:62-65 | the decoder holds exactly the positions below the label count, each mapped to its label |
| Trainer.CodecRoundTrip | js/core/trainer.js:62-65 | encoder and decoder are inverse on the current labels, in both directions |
| Trainer.StaleEntrySurvives | js/core/trainer.js:62-65 | an entry for a label that is no longer present stays in the encoder |
| Trainer.FlatShape | js/core/trainer.js:67-74 | both training arrays have one entry per sample, and every class index is below the label count |
| Trainer.FlatPosition | js/core/trainer.js:67-74 | sample o of the label at position j sits right after the samples of the earlier labels and is labelled j |
| Trainer.CollectSamples | js/core/trainer.js:67-74 | the collection loops produce the flattened samples and their class indices |
| Trainer.ArgMaxOf | js/core/trainer.js:158-166 | the first index whose probability is strictly the greatest, starting from index 0 and probability 0 |
| Trainer.ArgMax | js/core/trainer.js:158-166 | the loop settles on that index and probability |
| Trainer.DecodesToKey | js/core/trainer.js:162-173 | with a probability vector no longer than the label list, the chosen index decodes to the label at that position |
| Trainer.ModelTrainer.PrepareData | js/core/trainer.js:56-81 | the tables gain the current labels' codes; the result exists exactly when the tensors can be built and there is a sample, and then holds the flattened arrays, the label count and the width of the first vector |
| Trainer.ModelTrainer.Train | js/core/trainer.js:84-98 | refused while training; otherwise preparation failure lowers the flag and keeps the model, and success installs a fresh network and starts the fit |
| Trainer.ModelTrainer.FitSettled | js/core/trainer.js:105-140 | the flag is lowered on both paths; the model counts as trained only after a fit that succeeded |
| Trainer.ModelTrainer.Predict | js/core/trainer.js:144-182 | nothing without a trained model or when evaluation throws; otherwise the arg-max index, its probability, the decoder's entry and the probabilities |
| Trainer.ModelTrainer.Reset | js/core/trainer.js:208-220 | no model, empty tables, both flags down |
| Output.SentenceOf | js/ui/output.js:61-66 | the trimmed text, or empty exactly when that is empty or the placeholder |
| Output.Appended | js/ui/output.js:43-50 | the word alone when the current sentence is empty or the placeholder; otherwise the trimmed sentence, one space and the word |
| Output.AppendJoined | js/ui/output.js:43-50 | a word is appended after a space to a sentence other than the empty one and the placeholder |
| Output.AppendOverPlaceholder | js/ui/output.js:46-47 | over the placeholder, the word alone becomes the text |
| Output.AppendAllJoins | js/ui/output.js:33-58 | after a clear, adding plain words one by one builds their space-separated join while no earlier run spells the placeholder |
| Output.SentenceIsJoin | js/ui/output.js:33-66 | after a clear, the current sentence is the words joined by single spaces, unless a leading run of them spells the placeholder |
| Output.EarlyRunsClearMeans | js/ui/output.js:46 | the side condition says exactly that no proper leading run of the words joins to the placeholder |
| Output.PlaceholderWordsVanish | js/ui/output.js:46-65 | adding the placeholder's own four words after a clear leaves the current sentence empty |
| Output.OutputManager.AddToSentence | js/ui/output.js:33-51 | no effect without the element; otherwise the word is added as the sentence rule says |
| Output.OutputManager.ClearSentence | js/ui/output.js:54-58 | the element shows the placeholder |
| Output.OutputManager.GetCurrentSentence | js/ui/output.js:61-66 | empty without the element or while it shows the placeholder, otherwise the trimmed text |
| Output.OutputManager.ResetDisplay | js/ui/output.js:69-79 | the dash, "0%" and the placeholder on the elements present, after which the current sentence is empty |
| Output.OutputManager.ExportSentence | js/ui/output.js:82-88 | nothing exactly when the current sentence is empty, otherwise that sentence |
| Predictor.OccBounds | js/core/predictor.js:94-96 | a label is counted exactly when it occurs, and two different labels together occur at most as often as the window is long |
| Predictor.CountKeysFacts | js/core/predictor.js:93-96 | the vote's keys form a valid key order holding exactly the labels that occur and do not name an Object.prototype member |
| Predictor.BestOf | js/core/predictor.js:99-107 | no winner exactly when the count is 0; the winner has the greatest count and is the first key with it |
| Predictor.StableLabel | js/core/predictor.js:87-117 | nothing below a full window; a stable label occurs in the window, is not an Object.prototype name, fills at least 70% of the window and occurs at least as often as every other countable label |
| Predictor.StableIffMajority | js/core/predictor.js:87-117 | on a full window, a label is stable exactly when it fills at least 70% of it and is not an Object.prototype name |
| Predictor.MostCommon | js/core/predictor.js:93-107 | the counting and maximum loops produce the vote |
| Predictor.Push | js/core/predictor.js:65-70 | the window never exceeds ten entries; below ten the label is appended, and on a full window the oldest entry is shifted out and the label appended |
| Predictor.Observe | js/core/predictor.js:53-84 | weak or missing predictions change nothing; otherwise a label is emitted exactly when the full window's stable label is non-empty and differs from the last emission, which then empties the window |
| Predictor.WindowBounded | js/core/predictor.js:68-70 | over any run of predictions the window stays within ten entries |
| Predictor.NoRepeatedEmission | js/core/predictor.js:79-81 | no label is emitted twice in a row, the first emission differs from the previous one, and the last stable gesture is the latest emission |
| Predictor.QuietUntilFull | js/core/predictor.js:76 | while fewer than ten confident predictions have arrived, nothing is emitted and all of them are still in the window |
| Predictor.EmissionsSpaced | js/core/predictor.js:127 | starting from an empty window, as every emission leaves it, an emission needs at least ten confident predictions |
| Predictor.RunSplit | js/core/predictor.js:53-84 | running two pieces of a prediction stream one after the other is running their concatenation: the same final state, and the emissions of the two pieces in order |
| Predictor.TwoEmissionsSpaced | js/core/predictor.js:76-127 | any two emissions of one run are separated by at least ten confident predictions |
| Predictor.GesturePredictor.Start | js/core/predictor.js:19-25 | the predictor is active, whether it was before or not; before the frame loop runs, nothing else changes |
| Predictor.GesturePredictor.Stop | js/core/predictor.js:28-32 | inactive, with the state reset |
| Predictor.GesturePredictor.Reset | js/core/predictor.js:229-233 | empty window, no last emission, no error, no expected gesture |
| Predictor.GesturePredictor.CheckStability | js/core/predictor.js:87-117 | the stable label of the current window |
| Predictor.GesturePredictor.OnStableGesture | js/core/predictor.js:120-128 | the gesture is added to the sentence and the window is emptied |
| Predictor.GesturePredictor.AddToSentence | js/core/predictor.js:131-150 | no effect without the element; otherwise the sentence rule of the output panel |
| Predictor.GesturePredictor.MakePrediction | js/core/predictor.js:53-84 | window and last emission move as the stability rule says, and an emitted label is added to the sentence |
| Predictor.GesturePredictor.SettleWindow | js/core/predictor.js:76-83 | on a full window whose stable label is non-empty and differs from the last emission, that label is added to the sentence, the window is emptied and the label recorded; otherwise nothing changes |
| Predictor.GesturePredictor.DetectError | js/core/predictor.js:184-196 | with insights on and a non-empty expected label that differs from the prediction, the error record is replaced; otherwise nothing changes |
| Predictor.GesturePredictor.ClearSentence | js/core/predictor.js:246-253 | the placeholder returns and the last emission is forgotten |
| Modes.UpperNotInherited | js/config/modes.js:54 | no upper-cased string names an Object.prototype member, so only NORMAL and INDEPTH pass the check |
| Modes.LoadMode | js/config/modes.js:50-61 | "normal" when nothing or an empty string is saved, or the upper-case form is neither NORMAL nor INDEPTH; otherwise the saved string unchanged |
| Modes.ModeFeatures | js/config/modes.js:45-46 | a flag table, with the eleven flag names, exactly for "normal" and "indepth"; an inherited member exactly for Object.prototype names; nothing otherwise |
| Modes.NewLearningMode | js/config/modes.js:44-47 | the loaded mode, with a flag table exactly when the mode is exactly "normal" or "indepth" |
| Modes.GetModeIsLoaded | js/config/modes.js:64-66 | the mode returned is the one `loadMode` settled on, and its upper-case form is NORMAL or INDEPTH |
| Modes.LearningMode.IsEnabled | js/config/modes.js:69-71 | true exactly when the table holds the flag as true; a TypeError exactly when there is no table |
| Modes.LearningMode.GetDisplayName | js/config/modes.js:74-78 | the Normal text exactly when the mode is "normal", the In-Depth text otherwise |
| Modes.TablesMirror | js/config/modes.js:14-41 | both tables have the same eleven flags, each In-Depth flag is the negation of the Normal one, and only friendlyLanguage is on in Normal |
| Modes.CapitalisedModeHasNoFlags | js/config/modes.js:45-60 | every saved value that passes by its upper-case form without being exactly "normal" or "indepth" is kept as written, leaves every flag lookup throwing, and is shown with the In-Depth name |
| Modes.InDepthEnablesAnalytics | js/config/modes.js:28-40 | in In-Depth mode exactly the ten analytical flags are on |

## Left out

- js/core/camera.js: camera access, media streams and alerts are I/O.
- MediaPipe set-up, canvas drawing and the hand-status indicator (js/core/hands.js): rendering and library code.
- The optional callback in `onResults`: it calls code outside this model.
- Building, fitting and evaluating the TensorFlow.js network, and tensor disposal: foreign library code.
  Building the network (`buildModel`, js/core/trainer.js:98) is assumed to succeed: `Train` has no outcome for it, although in the source it can throw inside the same `try`.
  Tensor building is the `tensorsOk` parameter of `Train`, fitting the `ok` parameter of `FitSettled`, and evaluation the probability vector given to `Predict` (`None` when it throws).
- The `onProgress` callback and the epoch and batch settings of `fit`.
- `getModelInfo` and `isCurrentlyTraining`: plain reads of the modelled fields.
- The asynchrony of `train`: it is split at its `await` into `Train` and `FitSettled`.
  `FitSettled` requires a pending fit. Concurrent interleavings are not modelled beyond the `isTraining` flag.
- `predictionLoop`: the requestAnimationFrame driver that feeds `MakePrediction` once per frame while a hand is detected and the model is trained.
  The frame scheduling, and the synchronous first frame that `start` runs (js/core/predictor.js:23), are not modelled. Callers compose `Start` and `MakePrediction`.
- `updatePredictionUI`/`updatePrediction`: display code, which uses `Math.round` on floating-point percentages.
- The HTML of `updateErrorInsights` and the error panel reset in `reset`.
- The `.empty-state` element that `addToSentence` removes: elements are modelled by their text content alone.
- `exportDataset`'s download: it is I/O. The JSON members it writes are `Store.Entries`.
- `JSON.parse` itself: its result is a parameter, either the members in order or `None` when it throws.
- A parsed value that is not an object of arrays is not modelled.
- `getLabelData` and `getDataset`: plain reads of the store.
- js/ui/controls.js, js/ui/panels.js, js/main.js, js/landing.js and `applyModeUI`: event handling and DOM updates.
- Dataset.DatasetManager.GetSummary: `localeCompare` is replaced by code-point order, because locale collation is not modelled. Under code-point order distinct labels never tie; `localeCompare` can return 0 for distinct labels (such as "é" and "e" followed by a combining acute accent), and the order of such labels is not modelled.
- Dataset.DatasetManager.SetLabel: requires that its trimmed label has a bucket or does not name an Object.prototype member. For such names the source reads the inherited member instead of a bucket.
- Dataset.DatasetManager.DeleteLastSample: the same requirement applies to its label.
- Dataset.DatasetManager.ClearLabel: the same requirement applies to its label.
- Dataset.DatasetManager.AddSample: requires that the current label is empty or has a bucket. The source throws a TypeError otherwise; `setLabel` always creates the bucket first.
- Dataset.DatasetManager.AddSample: the "features are null" branch cannot be reached, because `extractFeatures` returns null only for absent landmarks. So the model has no such branch.
- Dataset.LowDataMembers: the 60%-of-mean test is the exact inequality 5·count·n < 3·total. The double rounding of `avgCount * 0.6` is not modelled.
- Dataset.WithinFactorTwo: the balance test is exact as well; IEEE division is not modelled.
- Predictor.StableIffMajority: the 70% test is exact; for counts up to ten it agrees with the double arithmetic.
- Predictor.GesturePredictor.MakePrediction: takes results whose label is a string. An index missing from the decoder (undefined label) is not modelled; `Trainer.DecodesToKey` shows it cannot arise when the network has one output per label.
- Predictor.CountKeysFacts: labels that name Object.prototype members are left out of the vote. In the source their count becomes a string, or for `__proto__` stays `Object.prototype`; neither compares above a number, so they can never win.
- JsText.ToUpper: covers only the one-character mappings that produce ASCII capitals: a–z, dotless i (to I) and long s (to S). Of these, a–z and dotless i are the ones that can turn a saved value into NORMAL or INDEPTH; long s cannot, as neither word has an S. Other characters are unchanged, and length-changing mappings are ignored.
- Trainer.ModelTrainer.PrepareData: the encoder's behaviour for a label named `__proto__` (assigning a number to `__proto__` is ignored, so no entry is added and a lookup reads Object.prototype) is not modelled.
- Floating-point values (coordinates, probabilities) are Dafny reals: NaN and rounding are not modelled.
- The clock is the `now` parameter of `DetectError`, and the learning-mode gate is its `insightsOn` parameter.
