# M-Health digit detector and record logic, modelled in Dafny

M-Health is an Android app. It photographs a blood-pressure monitor's display and reads off three numbers: systolic, diastolic and pulse. A small object detector produces the app's raw output, a channel-major tensor of scores. The core of the app turns that tensor into the three numbers:

1. **Decode** (`getBoundingBox`). Each candidate position picks its best class, where the first maximum wins. A position is kept only when its score is above 0.4 and all four box corners lie in the unit square.
2. **Suppress** (`applyNMS`). Greedy non-maximum suppression drops every box whose intersection-over-union with a kept box reaches 0.5.
3. **Group** (`identifyResult`, `isBox1InsideBox2`). Each box labelled "10" marks one displayed value. It collects up to three digit boxes that lie at least 75% inside it.
4. **Assemble** (`getValueFromDigits`). A marker's digits are sorted left to right and their labels are read as a decimal number.
5. **Route**. The three top-most markers become systolic, diastolic and pulse. With fewer than three markers the result is (0, 0, 0).

The model also covers the smaller deterministic logic around the pipeline:

- the blood-pressure category table with its age adjustment, in both its copies;
- user and record identifiers;
- word capitalisation;
- a user's age and BMI category;
- the camera screen's display and confirmation gate;
- the camera screen's square crop and resize arithmetic.

Coordinates, confidences and BMI values are exact `real`s. Kotlin `Int` arithmetic is written out where it can wrap: the age offsets, the next user number and the record count. Kotlin's `toIntOrNull`, `toString` and `%0Nd` formatting are modelled on ASCII text, in module `KotlinText`.

Modules, following the source:

- `Optional`: the nullable result.
- `KotlinText`: the integer text conversions.
- `StableSort`: `sortedBy`.
- `Boxes`: `BoundingBox.kt`, IoU and containment.
- `Suppression`: `applyNMS`.
- `Decoder`: `getBoundingBox`.
- `Grouping`: `BPValueBoundingBox.kt`, `identifyResult` and `getValueFromDigits`.
- `Detector`: the guards of `detect`.
- `Category`: the view model's `getRecordCategory`.
- `Records`: `BPRecord.kt`.
- `Users`: `BPUser.kt`.
- `Identifiers`: the user and record ids.
- `Capitalize`: `capitalizeWords`.
- `Camera`: `CameraFragment.kt`.

## Model

| member | source | states |
|---|---|---|
| KotlinText.Wrap32 | app/src/main/java/com/example/m_health/model/FirestoreDataViewModel.kt:259 | Kotlin `Int` addition: the result is a 32-bit value congruent to the exact sum modulo 2^32, and equal to it when the sum fits |
| KotlinText.Digits | app/src/main/java/com/example/m_health/model/FirestoreDataViewModel.kt:259 | the decimal digits of a natural number read back as that number, with no leading zero unless the number is 0 |
| KotlinText.ToIntOrNull | app/src/main/java/com/example/m_health/model/DigitDetector.kt:350 | `toIntOrNull`: a result is always an `Int`; empty text and a lone sign give null; an optional `+` or `-` followed by ASCII digits parses to the signed value when it fits in an `Int`, and any other text gives null |
| KotlinText.ZeroPad | app/src/main/java/com/example/m_health/model/FirestoreDataViewModel.kt:164 | `%0Nd` padding is as long as the wider of the digits and the width |
| KotlinText.FormatPaddedRoundTrip | app/src/main/java/com/example/m_health/model/FirestoreDataViewModel.kt:164 | every `Int` formatted with `%0Nd` zero padding parses back to itself |
| KotlinText.IntToStringRoundTrip | app/src/main/java/com/example/m_health/ui/camera/CameraFragment.kt:242-244 | `Int.toString()` followed by `toIntOrNull` returns the original `Int` |
| StableSort.SortBy | app/src/main/java/com/example/m_health/model/DigitDetector.kt:325 | `sortedBy`: the output is a permutation of the input and is ordered by the key |
| StableSort.SortByStable | app/src/main/java/com/example/m_health/model/DigitDetector.kt:331 | `sortedBy` is stable: elements with equal keys keep their input order |
| StableSort.SortByIndices | app/src/main/java/com/example/m_health/model/DigitDetector.kt:331 | stability by position: the sorted sequence is the input rearranged by a permutation of its indices, and elements with equal keys appear in increasing input position |
| StableSort.SortByIdentity | app/src/main/java/com/example/m_health/model/DigitDetector.kt:236 | a sequence already ordered by the key is returned unchanged |
| StableSort.SortByHead | app/src/main/java/com/example/m_health/model/DigitDetector.kt:236-239 | the first element after sorting is the earliest input element with the least key |
| Boxes.IntersectionArea | app/src/main/java/com/example/m_health/model/DigitDetector.kt:267-271 | the clamped intersection area is never negative |
| Boxes.IoU | app/src/main/java/com/example/m_health/model/DigitDetector.kt:266-275 | IoU is non-negative, positive only when the boxes overlap, and at most 1 for boxes whose corners match their size |
| Boxes.IoUSymmetric | app/src/main/java/com/example/m_health/model/DigitDetector.kt:266-275 | IoU does not depend on the order of the two boxes |
| Boxes.IoUSelf | app/src/main/java/com/example/m_health/model/DigitDetector.kt:266-275 | a box of positive area has IoU 1 with itself, and a box of zero area has IoU 0 |
| Boxes.InsideIff | app/src/main/java/com/example/m_health/model/DigitDetector.kt:288-296 | a digit is inside a marker exactly when its area is positive and four times the intersection is at least three times its area |
| Suppression.SurvivorsCount | app/src/main/java/com/example/m_health/model/DigitDetector.kt:242-249 | the inner loop removes every copy of a box the kept box suppresses and keeps every other copy |
| Suppression.GreedySorted | app/src/main/java/com/example/m_health/model/DigitDetector.kt:238-250 | the greedy loop keeps confidence order |
| Suppression.GreedyNoneSuppressed | app/src/main/java/com/example/m_health/model/DigitDetector.kt:238-250 | no two boxes the greedy loop keeps suppress each other |
| Suppression.GreedyCoverage | app/src/main/java/com/example/m_health/model/DigitDetector.kt:238-250 | every dropped copy is suppressed by a kept box of at least equal confidence |
| Suppression.ApplyNMS | app/src/main/java/com/example/m_health/model/DigitDetector.kt:235-253 | `applyNMS` returns a sub-multiset of its input, ordered by non-increasing confidence, in which every pair has IoU below 0.5 |
| Suppression.ApplyNMSKeepsBest | app/src/main/java/com/example/m_health/model/DigitDetector.kt:236-240 | the first box kept is the earliest input box of highest confidence |
| Suppression.ApplyNMSCoverage | app/src/main/java/com/example/m_health/model/DigitDetector.kt:236-249 | every dropped box has IoU at least 0.5 with a kept box of equal or higher confidence |
| Suppression.ApplyNMSIdempotent | app/src/main/java/com/example/m_health/model/DigitDetector.kt:235-253 | applying `applyNMS` to its own output changes nothing |
| Decoder.BestClassSpec | app/src/main/java/com/example/m_health/model/DigitDetector.kt:182-194 | the class scan returns (-1, -1) when there are no class channels; otherwise it returns the highest class score at the position, and its class is the first class with that score |
| Decoder.DecodeAt | app/src/main/java/com/example/m_health/model/DigitDetector.kt:195-215 | a position yields a box exactly when its best score is above 0.4 and all four corners lie in [0, 1]; the box carries that score, its class and label, and the position's geometry |
| Decoder.DecodeUpToPositions | app/src/main/java/com/example/m_health/model/DigitDetector.kt:182-217 | the scan collects, in position order and once each, the box of every position that yields one, and nothing else |
| Decoder.DecodedMembers | app/src/main/java/com/example/m_health/model/DigitDetector.kt:182-217 | a box is collected exactly when some position of the tensor yields it |
| Decoder.GetBoundingBox | app/src/main/java/com/example/m_health/model/DigitDetector.kt:180-221 | `getBoundingBox` is null exactly when no position yields a box; otherwise it is `applyNMS` of the decoded boxes: non-empty, a sub-multiset of them ordered by non-increasing confidence, no two with IoU 0.5 or more, every box decoded from some position |
| Decoder.DroppedSuppressed | app/src/main/java/com/example/m_health/model/DigitDetector.kt:218-220 | every decoded box `getBoundingBox` drops, counted with multiplicity, has IoU 0.5 or more with a reported box of at least its confidence |
| Decoder.ReportedBoxesWellFormed | app/src/main/java/com/example/m_health/model/DigitDetector.kt:195-215 | every reported box has its corners in the unit square and derived from the centre, x1 ≤ x2 and y1 ≤ y2, confidence above 0.4, and a class in range whose label it carries |
| Decoder.NoClassChannelsNoBoxes | app/src/main/java/com/example/m_health/model/DigitDetector.kt:183-195 | with four channels or fewer no class is scanned and `getBoundingBox` is null |
| Detector.Detect | app/src/main/java/com/example/m_health/model/DigitDetector.kt:130-157 | `detect` stops before decoding exactly when the interpreter is missing or a dimension is 0; it reports nothing detected exactly when no position yields a box; otherwise it passes `getBoundingBox`'s non-empty result on and returns the reading `identifyResult` makes from it |
| Detector.DetectedReading | app/src/main/java/com/example/m_health/model/DigitDetector.kt:157-165 | with three or more markers among the reported boxes, the returned triple is the values of the first three groups stably sorted by marker y1: top to bottom, ties going to the earlier marker, each a reported marker with reported digits inside it; every other group is lower than the pulse group, or level with it and later |
| Detector.DetectValuesInt32 | app/src/main/java/com/example/m_health/model/DigitDetector.kt:130-165 | every value `detect` returns is a Kotlin `Int` |
| Detector.NonZeroNeedsThreeMarkers | app/src/main/java/com/example/m_health/model/DigitDetector.kt:130-157 | a result other than (0, 0, 0) needs a ready detector, detected boxes and at least three value markers among them |
| Detector.ReadingFromReportedBoxes | app/src/main/java/com/example/m_health/model/DigitDetector.kt:157 | every marker grouping works on is labelled "10", scored above 0.4, and well-formed in the unit square |
| Detector.NoClassChannelsNothingDetected | app/src/main/java/com/example/m_health/model/DigitDetector.kt:152-156 | a ready detector with no class channels always reports nothing detected |
| Grouping.Markers | app/src/main/java/com/example/m_health/model/DigitDetector.kt:310 | the markers are exactly the input boxes labelled "10", each with its multiplicity in the input |
| Grouping.MarkersAppend | app/src/main/java/com/example/m_health/model/DigitDetector.kt:310 | the marker filter keeps input order: it distributes over concatenation |
| Grouping.NonMarkers | app/src/main/java/com/example/m_health/model/DigitDetector.kt:311 | the non-markers are exactly the input boxes not labelled "10", each with its multiplicity in the input |
| Grouping.NonMarkersAppend | app/src/main/java/com/example/m_health/model/DigitDetector.kt:311 | the non-marker filter keeps input order: it distributes over concatenation |
| Grouping.DigitCandidatesAreNonMarkers | app/src/main/java/com/example/m_health/model/DigitDetector.kt:311 | removing the set of markers from the boxes leaves exactly the boxes not labelled "10" |
| Grouping.Qualifying | app/src/main/java/com/example/m_health/model/DigitDetector.kt:319 | the qualifying digits are exactly the candidates at least 75% inside the marker, each with its multiplicity among the candidates |
| Grouping.QualifyingAppend | app/src/main/java/com/example/m_health/model/DigitDetector.kt:316-319 | the qualifying filter keeps candidate order: it distributes over concatenation |
| Grouping.CollectTakesFirstQualifying | app/src/main/java/com/example/m_health/model/DigitDetector.kt:317-324 | the collecting loop with its `count >= 3` break keeps the first qualifying candidates, up to the room left |
| Grouping.ValueFromDigits | app/src/main/java/com/example/m_health/model/DigitDetector.kt:348-351 | the value is always an `Int`, and 0 when there are no digits |
| Grouping.SingleDigitValue | app/src/main/java/com/example/m_health/model/DigitDetector.kt:348-351 | one to three single-digit labels read as the decimal number they spell, below 1000 |
| Grouping.SumConfSort | app/src/main/java/com/example/m_health/model/DigitDetector.kt:316-327 | sorting the digits does not change their summed confidence |
| Grouping.MakeGroup | app/src/main/java/com/example/m_health/model/DigitDetector.kt:313-328 | a group keeps its marker and holds at most three digits: the first three qualifying candidates, sorted by x1 with equal-x1 digits in candidate order, each a candidate at least 75% inside the marker. Its average confidence is (marker conf + digit confs) / (digits + 1) |
| Grouping.GroupsProperties | app/src/main/java/com/example/m_health/model/DigitDetector.kt:310-328 | each group's value box is labelled "10"; its at most three digits are input boxes not labelled "10", at least 75% inside it and ordered by x1 |
| Grouping.IdentifyResultInt32 | app/src/main/java/com/example/m_health/model/DigitDetector.kt:329-335 | each of the three values `identifyResult` returns is a Kotlin `Int` |
| Grouping.ReadingGroups | app/src/main/java/com/example/m_health/model/DigitDetector.kt:308-335 | with three or more markers the reading is the values of the first three groups stably sorted by marker y1 (ties to the earlier marker), each a marker with its digits inside it; every other group is lower than the pulse group, or level with it and later |
| Grouping.TooFewMarkers | app/src/main/java/com/example/m_health/model/DigitDetector.kt:330 | with fewer than three markers the result is (0, 0, 0) |
| Grouping.RouteOrder | app/src/main/java/com/example/m_health/model/DigitDetector.kt:331-335 | with three or more groups, systolic, diastolic and pulse are the groups at three distinct indices in ascending y1, of two at the same height the earlier index first; every other group is lower than the pulse group, or level with it and at a later index |
| Grouping.RouteExample | app/src/main/java/com/example/m_health/model/DigitDetector.kt:331-335 | markers at y1 0.6, 0.1 and 0.35 become pulse, systolic and diastolic |
| Grouping.RouteTieExample | app/src/main/java/com/example/m_health/model/DigitDetector.kt:331-335 | two markers at the same height keep their input order: the first is systolic |
| Grouping.ValueExamples | app/src/main/java/com/example/m_health/model/DigitDetector.kt:348-351 | labels 1, 2, 5 read as 125; labels 0, 0, 7 read as 7; no digits read as 0 |
| Grouping.AverageConfidenceExample | app/src/main/java/com/example/m_health/model/DigitDetector.kt:316-327 | a marker of confidence 0.8 with digits 0.6 and 0.7 has average confidence 0.7 |
| Grouping.SharedDigitExample | app/src/main/java/com/example/m_health/model/DigitDetector.kt:313-324 | one digit box lying inside two markers belongs to both groups |
| Category.Classify | app/src/main/java/com/example/m_health/model/FirestoreDataViewModel.kt:312-321 | "LOW" exactly when systolic is below 90 or diastolic below 60; "OPTIMAL" exactly when both are in the band below "NORMAL"; every higher category is the first row either value reaches |
| Category.Adjust | app/src/main/java/com/example/m_health/model/FirestoreDataViewModel.kt:276-311 | the adjustment stays an `Int` and equals the exact sum when that fits |
| Category.RecordCategory | app/src/main/java/com/example/m_health/model/FirestoreDataViewModel.kt:272-322 | the category is one of the seven labels; "LOW" exactly when an adjusted value is under its floor; "OPTIMAL" exactly when both adjusted values are in the band below "NORMAL" |
| Category.OffsetBrackets | app/src/main/java/com/example/m_health/model/FirestoreDataViewModel.kt:276-311 | infants get +30/+20, the twenties nothing, 45-49 -7/-4, 50-54 +9/+5, 55-59 -11/-6, and 60 and over -14/-7 |
| Category.OffsetNonIncreasingOutsideFifties | app/src/main/java/com/example/m_health/model/FirestoreDataViewModel.kt:276-311 | outside the 50-54 bracket an older user never gets a larger offset |
| Category.FirstMatchExample | app/src/main/java/com/example/m_health/model/FirestoreDataViewModel.kt:312-321 | at age 25, 150/82 is "NORMAL": the first matching row wins |
| Category.WrapExample | app/src/main/java/com/example/m_health/model/FirestoreDataViewModel.kt:276-278 | an infant's largest `Int` systolic value wraps to a negative number and reads "LOW" |
| Records.CategoryWithColour | app/src/main/java/com/example/m_health/model/data/BPRecord.kt:39-88 | the record's own `when` table gives the same label as the view model's `getRecordCategory`, with the colour of that category; its age offsets are the view model's, which the record class repeats word for word |
| Records.LowWhateverTheOther | app/src/main/java/com/example/m_health/model/data/BPRecord.kt:80 | "LOW" whenever one adjusted value is under its floor, whatever the other value is |
| Category.NotMonotoneInSystolic | app/src/main/java/com/example/m_health/model/FirestoreDataViewModel.kt:314-317 | at age 25 with diastolic 95, systolic 115 gives stage 1 but systolic 125 gives "NORMAL" |
| Users.AgeCountsBirthdays | app/src/main/java/com/example/m_health/model/data/BPUser.kt:44-48 | the age reaches k exactly when the k-th return of the birth's day-of-year number is on or before today, that day included |
| Users.ReachedMonotone | app/src/main/java/com/example/m_health/model/data/BPUser.kt:80-87 | a larger BMI passes at least as many thresholds |
| Users.CategoryForBMI | app/src/main/java/com/example/m_health/model/data/BPUser.kt:80-87 | the category's rank is the number of thresholds 18.5, 24.9, 29.9, 34.9 and 39.9 the BMI reaches |
| Users.BMICategoryMonotone | app/src/main/java/com/example/m_health/model/data/BPUser.kt:80-87 | a larger BMI never gets an earlier category |
| Users.BMIBoundaries | app/src/main/java/com/example/m_health/model/data/BPUser.kt:80-87 | the comparisons are strict, over exact reals: 24.9 is "Overweight", 18.5 is "Normal", 39.9 is "Obese Class III" |
| Identifiers.Highest | app/src/main/java/com/example/m_health/model/FirestoreDataViewModel.kt:247-258 | the highest number is non-negative, at least every parsed "U" suffix, and either 0 or one of those suffixes |
| Identifiers.GenerateNewUserId | app/src/main/java/com/example/m_health/model/FirestoreDataViewModel.kt:246-260 | the new id is "U" followed by a suffix that reads back as the highest number plus one, in `Int` arithmetic |
| Identifiers.NewUserIdIsFresh | app/src/main/java/com/example/m_health/model/FirestoreDataViewModel.kt:246-260 | the new id differs from every existing id while the highest number is below the `Int` maximum |
| Identifiers.FirstUserId | app/src/main/java/com/example/m_health/model/FirestoreDataViewModel.kt:246-260 | a null or empty user list gives "U01" |
| Identifiers.IgnoresUnparseable | app/src/main/java/com/example/m_health/model/FirestoreDataViewModel.kt:251-255 | adding a user whose id has no numeric "U" suffix does not change the new id |
| Identifiers.RecordId | app/src/main/java/com/example/m_health/model/FirestoreDataViewModel.kt:163-164 | the record id is the user id, then "-R", then at least three characters that read back as the record count plus one |
| Capitalize.Split | app/src/main/java/com/example/m_health/model/FirestoreDataViewModel.kt:334 | `split(" ")` gives at least one piece and no piece holds a space |
| Capitalize.JoinSplit | app/src/main/java/com/example/m_health/model/FirestoreDataViewModel.kt:334-340 | joining the pieces of `split(" ")` with spaces gives back the input |
| Capitalize.CapitalizeWords | app/src/main/java/com/example/m_health/model/FirestoreDataViewModel.kt:333-341 | the length is kept, and a character changes only if it is a lower-case letter starting a word, which becomes its capital |
| Capitalize.WordCountPreserved | app/src/main/java/com/example/m_health/model/FirestoreDataViewModel.kt:333-341 | the number of space-separated words is kept |
| Capitalize.Idempotent | app/src/main/java/com/example/m_health/model/FirestoreDataViewModel.kt:333-341 | capitalising twice is the same as capitalising once |
| Capitalize.Example | app/src/main/java/com/example/m_health/model/FirestoreDataViewModel.kt:333-341 | "ann  lee" becomes "Ann  Lee": the empty word between the two spaces is kept |
| Camera.ShowValue | app/src/main/java/com/example/m_health/ui/camera/CameraFragment.kt:242-244 | a positive value is shown as text that reads back as it; the text is "-" exactly when the value is not positive |
| Camera.ShowConfirmRoundTrip | app/src/main/java/com/example/m_health/ui/camera/CameraFragment.kt:242-244 | a reading with every value positive is saved unchanged once shown and confirmed |
| Camera.NonPositiveRejected | app/src/main/java/com/example/m_health/ui/camera/CameraFragment.kt:242-244 | a reading `onDetect` shows with a value that is not positive, (0, 0, 0) included, makes `confirmedResult` save nothing |
| Camera.TextsAfter | app/src/main/java/com/example/m_health/ui/camera/CameraFragment.kt:231-244 | only `onDetect` writes the three texts: exactly the display of the returned triple, "-" exactly where a value is not positive and otherwise text that reads back as the value; nothing detected and an unavailable detector leave the texts as they were |
| Camera.StaleReadingSaved | app/src/main/java/com/example/m_health/ui/camera/CameraFragment.kt:231-233 | after a positive reading was shown, a capture that detects nothing returns (0, 0, 0) and yet `confirmedResult` saves the earlier reading |
| Camera.SavedIsReturned | app/src/main/java/com/example/m_health/ui/camera/CameraFragment.kt:383-400 | with the texts corrected to follow every outcome, the record saved is exactly the triple `detect` returned when all three values are positive, and nothing otherwise |
| Camera.TruncDiv | app/src/main/java/com/example/m_health/ui/camera/CameraFragment.kt:449-450 | Kotlin's `Int` division by a positive divisor rounds toward zero: the quotient times the divisor lies within one divisor of the dividend, on the side of zero |
| Camera.CropAsWritten | app/src/main/java/com/example/m_health/ui/camera/CameraFragment.kt:447-452 | the crop as written is a square whose side is the width, starting at x = 0 and at y = half the height left over, rounded toward zero |
| Camera.CropAsWrittenLeavesLandscape | app/src/main/java/com/example/m_health/ui/camera/CameraFragment.kt:447-452 | on a landscape frame the crop as written falls outside the bitmap |
| Camera.CropAsWrittenExample | app/src/main/java/com/example/m_health/ui/camera/CameraFragment.kt:447-452 | a 4000 by 3000 frame asks for a 4000-pixel square at y = -500 |
| Camera.CropCorrected | app/src/main/java/com/example/m_health/ui/camera/CameraFragment.kt:447-452 | the centred square crop has side min(width, height), lies inside the bitmap, and has margins equal up to one pixel |
| Camera.CropAgreesOnPortrait | app/src/main/java/com/example/m_health/ui/camera/CameraFragment.kt:447-452 | on portrait and square frames the crop as written is already the centred crop |
| Camera.ResizeSide | app/src/main/java/com/example/m_health/ui/camera/CameraFragment.kt:454-457 | the resized square's side is the smaller dimension |

## Left out

- The TensorFlow Lite interpreter, model and label loading, and bitmap scaling in `setup` and `detect` are foreign calls and I/O. The dequantised tensor and the label list are inputs to `Detector.Detect`. Its precondition `ValidTensor` asks for values in [0, 1], which holds because the output is 8-bit and scaled by 1/255 (DigitDetector.kt lines 56-58). It also asks for at least `numChannel - 4` labels.
- Kotlin `Float` rounding, NaN and infinities are not modelled, because coordinates and confidences are exact reals. The thresholds 0.4F and 0.5F are taken as the reals 0.4 and 0.5.
- Boxes.IoU: returns 0 where the union is not positive, where Kotlin would give NaN or a non-positive ratio. For well-shaped boxes neither value reaches 0.5, so the suppression decision is the same. For ill-shaped boxes a zero union with a positive intersection gives infinity in Kotlin, which does suppress.
- Boxes.Inside: a zero-area digit is never inside. In Kotlin, 0/0 gives NaN, and the comparison with NaN is false.
- `getBMI` uses float division and `%.1f` rounding, so it is not modelled. `Users.CategoryForBMI` takes the BMI as a real.
- `Calendar.getInstance()` is a clock. `Users.Age` takes today and the birthday as (year, day of year).
- Users.Age: does not wrap the year difference to 32 bits, because calendar years are far from the `Int` limits.
- `ContextCompat.getColor`, `getResultColor` and the colour resources are Android resources. `Records.CategoryWithColour` returns the colour as a named resource instead of a resolved colour value.
- The detector listener callbacks and the `SystemClock` timing in `detect` are callbacks and a clock. `Detector.Detect` returns a tagged outcome instead.
- All Firestore reads and writes, the asynchronous listeners and Firebase Auth are network I/O. From `setBPRecordData`, only the record-id format is modelled.
- The record timestamp (`Timestamp.now()`) is a clock. `Records.BPRecord` has no time field.
- The camera executor, the pause flag, the `ImageAnalysis` plumbing and the screen navigation are concurrency and UI lifecycle.
- The overlay drawing, the home and profile screens, the adapters and the other activities are UI with no computed result.
- `KotlinText.ToIntOrNull` accepts only ASCII digits, while Kotlin also accepts other Unicode decimal digits. No label or text the app produces contains them.
- `KotlinText.IntToString` and `FormatPadded` print ASCII digits, while `String.format` follows the default locale's digits.
- `Capitalize.CapitalizeWords` upper-cases only ASCII `a`-`z`. Kotlin's `titlecase` with the default locale also covers other letters, and under a Turkish or Azeri locale it turns `i` into `İ`, not `I`.
- Grouping.GroupsProperties: does not restate the average-confidence formula, which `Grouping.MakeGroup` states and `Grouping.Groups` links to every group.
- Identifiers.NewUserIdIsFresh: assumes the highest number is below the `Int` maximum. At the maximum, the next number wraps to a negative value, and `Identifiers.GenerateNewUserId` states that wrapped value.
- Identifiers.RecordId: assumes the record count fits in an `Int`, as a Kotlin list size always does. The read-back part assumes count + 1 fits too.
- Users.AgeCountsBirthdays: counts returns of the birth's day-of-year number, not calendar birthdays. A leap day in between shifts the two apart: someone born on 1 March 2000 (day 61) is still 0 on 1 March 2001 (day 60).
- Users.BMIBoundaries: the boundaries hold over exact reals. The app stores the BMI as a `Float` and compares it with `Double` literals, so a BMI of exactly 24.9 or 29.9 is a `Float` just below the literal and lands one category lower ("Normal", "Overweight"). At 18.5, 34.9 and 39.9 the widened `Float` is not below the literal, so the model agrees.
- Camera.NonPositiveRejected: covers only readings `onDetect` shows. After nothing detected or an unavailable detector, the texts are not rewritten. `Camera.StaleReadingSaved` shows that the earlier reading is then saved.
- Camera.CropAsWritten: `Bitmap.createBitmap` throws on a rectangle outside the bitmap. The model returns the rectangle, and `Camera.WithinBitmap` says whether the call would succeed.

## Findings

| source | as written | input that shows it | evidently intended | confidence | as-written member | corrected member |
|---|---|---|---|---|---|---|
| app/src/main/java/com/example/m_health/ui/camera/CameraFragment.kt:448 | `cropSize = minOf(bitmap.width, bitmap.width)`, so the side is always the width | a 4000 by 3000 landscape frame asks for a 4000-pixel square at y = -500, which lies outside the bitmap, so `createBitmap` throws | side `minOf(bitmap.width, bitmap.height)`: a centred square inside the frame, as `resizeBitmap1x1` computes | high (not executed) | Camera.CropAsWrittenLeavesLandscape | Camera.CropCorrected |
| app/src/main/java/com/example/m_health/ui/camera/CameraFragment.kt:231-233 | `onEmptyDetect` only clears the overlay, so the three value texts keep whatever `onDetect` last wrote, while `confirmedResult` (lines 383-397) saves from those texts | the preview shows 120/80/72; the captured photo detects nothing, so `detect` returns (0, 0, 0) and the category on screen is computed from (0, 0) (line 344), yet confirming saves 120/80/72 | the texts follow every outcome of `detect`: nothing detected shows "-", so a capture that detects nothing saves nothing | medium (not executed) | Camera.StaleReadingSaved | Camera.SavedIsReturned |
