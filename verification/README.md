# Tablet recognition in the browser: a Dafny model

The modelled program recognises an object in a phone camera feed, in the browser.
It has two pipelines.

The **box pipeline** has four parts:

- `findTabletBox` looks for the tablet's frame. It scans a 160-pixel-wide copy of the frame and keeps the rectangle with the highest mean Sobel edge energy. It reads the energy from a summed-area table.
- `preprocessToTensor` crops to that box and packs the pixels into a `[-1, 1]` tensor, in NCHW or NHWC layout.
- `topkSoftmax` turns the classifier's logits into a ranked top-1 and top-3.
- The frame loop in `main.js` throttles itself to one processed frame per 150 ms and keeps the last box it found. It shows the best class under its mapped name, or under `class_<index>` when the mapping has none.

The **automatic-ROI pipeline** (`pipeline-auto-roi.js`) works as follows:

- It keeps the convex four-cornered contours that are large enough and not too elongated, largest first.
- It classifies at most four of them. Each is first put in corner order and normalised into an ImageNet channel-first tensor.
- It smooths the tempered softmax of every slot with an exponential moving average kept under the key `roi_<slot>`.
- It reads out the argmax, with a label and a confidence flag.

## Layout of the model

- `common.dfy` (`Common`): options, bytes, boxes, decimal rendering of indices and the `class_<i>` placeholder.
- `sorting.dfy` (`Sorting`): the stable descending sort that `Array.prototype.sort` performs with a `b - a` comparator, and the ranking of indices by value.
- `softmax.dfy` (`Probability`): the stable softmax and the division by a temperature. `Math.exp` is a parameter assumed positive, and increasing where order matters.
- `pixels.dfy` (`Pixels`): the two per-byte normalisations, the planar and interleaved layouts, and the two packing loops.
- `box.dfy` (`EdgeBox`): `findTabletBox`, which covers the gray and magnitude buffers, the integral table, `sumRect`, the four-level grid search and the scale-back.
- `preprocess.dfy` (`Preprocess`): `preprocessToTensor`, and `topkSoftmax` with its three passes.
- `auto_roi.dfy` (`AutoRoi`): `softmaxWithT`, `orderQuad`, the filter and sort of `detectQuads`, and `toTensorCHW`. It also has `emaInit`/`emaUpdate` as a class over a typed array, and `tick` as a class holding the `emaByTrack` map.
- `frame_loop.dfy` (`FrameLoop`): the `state` object of `main.js`, `loop`, the label fallback, and the flip and auto-box handlers.

Floating-point values are modelled as exact reals.
Floors of float products in `box.js` are written as exact integer quotients, for example `floor(w / 1.33)` is `100 w / 133`.
Typed arrays are Dafny arrays.
Each stateful operation is a method whose postcondition ties the new state to a specification function.
The lemmas are stated over those functions.

## Model

| member | source | states |
|---|---|---|
| Common.NatToString | src/main.js:86 | `String(idx)` is a non-empty string of decimal digits that ends in the last digit of `idx` |
| Common.NatToStringInjective | src/main.js:86 | different indices render as different strings, so `mapping[String(i)]` never mixes up two classes |
| Common.Placeholder | src/main.js:86 | the fallback label is `class_` followed by the decimal index |
| Common.PlaceholderInjective | src/pipeline-auto-roi.js:231 | two different indices never get the same fallback label |
| Sorting.SortDescSorted | src/pipeline-auto-roi.js:106-112 | sorting with a `b - a` comparator gives a permutation of the input, non-increasing in the key |
| Sorting.SortDescKeepsTieOrder | src/preprocess.js:38 | the sort is stable: elements with equal keys keep their input order |
| Sorting.SortDescSameOrder | src/preprocess.js:38 | two keys that order the elements alike give the same sorted sequence |
| Sorting.Indices | src/preprocess.js:38 | `[...probs.keys()]` is `0, 1, ..., n-1` |
| Sorting.RankingMembers | src/preprocess.js:38 | `idxs` is a permutation of `0..n-1` |
| Sorting.RankingOrder | src/preprocess.js:38 | along `idxs` the probabilities never increase, and equal probabilities appear in ascending index order |
| Sorting.RankingHead | src/preprocess.js:38-39 | `idxs[0]` has the largest probability and is the first index that has it |
| Sorting.RankingSameOrder | src/preprocess.js:38 | two vectors that order their entries alike have the same ranking |
| Probability.MaxOf | src/pipeline-auto-roi.js:40 | `Math.max(...xs)` bounds every entry and is one of them |
| Probability.MinOf | src/pipeline-auto-roi.js:97 | `Math.min(...xs)` is below every entry and is one of them |
| Probability.SumScale | src/pipeline-auto-roi.js:42-43 | dividing every entry by `s` divides the total by `s` |
| Probability.Softmax | src/pipeline-auto-roi.js:40-43 | one probability per logit, each in (0, 1], summing to 1 when there are logits |
| Probability.SoftmaxKeepsOrder | src/pipeline-auto-roi.js:40-43 | with an increasing `exp`, two probabilities compare exactly as their logits |
| Probability.TemperedKeepsOrder | src/pipeline-auto-roi.js:39 | dividing by a positive temperature keeps the order of the logits |
| Pixels.Neg1To1 | src/preprocess.js:23 | `v/127.5 - 1` lies in [-1, 1], maps 0 to -1 and 255 to 1, and `(f+1)*127.5` recovers the byte |
| Pixels.ImageNet | src/pipeline-auto-roi.js:160-165 | `(v/255 - MEAN[c])/STD[c]` lies between the images of 0 and 255, and `(f*STD[c]+MEAN[c])*255` recovers the byte |
| Pixels.PlanarAt | src/preprocess.js:23 | channel-first value `c*wh + i` is the normalised channel `c` of pixel `i` |
| Pixels.InterleavedAt | src/preprocess.js:27 | channel-last value `3i + c` is the normalised channel `c` of pixel `i` |
| Pixels.LayoutsPermuted | src/preprocess.js:21-28 | both layouts have length `3 wh`, and `NHWC[3i+c] == NCHW[c*wh+i]` |
| Pixels.AlphaIgnored | src/preprocess.js:23-27 | two rasters that differ only in alpha bytes give the same tensors in both layouts |
| Pixels.PackPlanar | src/preprocess.js:22-23 | the loop writing `i`, `wh+i` and `2wh+i` fills exactly the channel-first sequence |
| Pixels.PackInterleaved | src/preprocess.js:26-27 | the loop with cursors `p` and `q` fills exactly the channel-last sequence |
| Preprocess.SourceRect | src/preprocess.js:9-16 | the frame is cropped iff there is both a box and an overlay; the crop is the box divided by `devicePixelRatio` |
| Preprocess.PreprocessToTensor | src/preprocess.js:3-30 | the source rectangle as above; the data is the channel-first or channel-last `[-1, 1]` packing as `useNCHW` says; the shape is `[1,3,224,224]` or `[1,224,224,3]`, and its product is the data length |
| Preprocess.TensorValuesDecode | src/preprocess.js:23-27 | every tensor value lies in [-1, 1], decodes back to its byte, and sits at the permuted position in the other layout |
| Preprocess.MaxScan | src/preprocess.js:33 | `maxL` stays `-Infinity` only for empty logits; otherwise it bounds every logit and is one of them |
| Preprocess.ExpPass | src/preprocess.js:34-35 | `exps[i] == exp(logits[i] - maxL)`, and `sum` is their left-to-right total |
| Preprocess.DividePass | src/preprocess.js:36-37 | `probs[i] == exps[i] / sum` for every `i` |
| Preprocess.SoftmaxPasses | src/preprocess.js:33-37 | the three passes compute exactly the softmax of the logits |
| Preprocess.TopkSoftmax | src/preprocess.js:32-40 | `top1` is absent iff there are no logits; otherwise it is the first index of the largest probability, with that probability; `top3` is the first `min(k, n)` entries of the stable ranking, each with its own probability |
| Preprocess.RankingFollowsLogits | src/preprocess.js:34-38 | with an increasing `exp`, ranking the probabilities gives the ranking of the logits |
| EdgeBox.AnalysisHeight | src/box.js:7-10 | the analysis height is `floor(160 vh / max(1, vw))`, and at least 1 |
| EdgeBox.Luma | src/box.js:18 | the gray value of a pixel lies in [0, 255] |
| EdgeBox.LumaOfNeutral | src/box.js:18 | a gray pixel (r = g = b) keeps its value, because the weights sum to 1 |
| EdgeBox.GrayFill | src/box.js:17-18 | the gray buffer holds the luma of every pixel, and each value lies in [0, 255] |
| EdgeBox.TapAt | src/box.js:22-28 | the `k`-th kernel tap reads the neighbour at offsets `(i, j)`, and its index is in range |
| EdgeBox.Window | src/box.js:22-28 | the 3x3 loop computes both Sobel convolutions at `(x, y)` |
| EdgeBox.MagAtInterior | src/box.js:29 | at an interior pixel the magnitude is `hypot(gx, gy)` |
| EdgeBox.SobelRow | src/box.js:21-30 | one `y` row writes the interior magnitudes of that row and keeps everything written before |
| EdgeBox.SobelMagnitudes | src/box.js:19-31 | the magnitude buffer is exactly the Sobel magnitude at interior pixels and 0 on the border |
| EdgeBox.MagnitudesShape | src/box.js:19-31 | every magnitude is non-negative, and the one-pixel border stays 0 |
| EdgeBox.BorderPair | src/box.js:20-21 | the last column of one row and the first column of the next row are border pixels |
| EdgeBox.Integral | src/box.js:33 | the table has `(W+1)(H+1)` entries |
| EdgeBox.IntegralAt | src/box.js:33-40 | `ii[y(W+1)+x]` is the sum of `mag` over the columns before `x` and the rows before `y` |
| EdgeBox.ZeroWidth | src/box.js:33-40 | column 0 of the table is 0 |
| EdgeBox.TableStep | src/box.js:37-38 | the entry above plus the running row sum is the next table entry |
| EdgeBox.IntegralRow | src/box.js:35-39 | one `y` row fills that row of the table and keeps the rows before it |
| EdgeBox.IntegralTable | src/box.js:33-40 | the buffer equals the summed-area table of `mag` |
| EdgeBox.SumRectExact | src/box.js:41 | the four-lookup `sumRect` equals the brute-force sum over `x0 <= x < x1`, `y0 <= y < y1` |
| EdgeBox.HeightForIsFloor | src/box.js:47 | the candidate height is `floor(w / ar)` for the aspect ratios 1.33, 1.5 and 1.6 |
| EdgeBox.GridConstants | src/box.js:46 | with `W = 160` the width loop starts at 72, runs while `w <= 152` and steps by 12, so the widths tried are 72, 84, ..., 144; `x` steps by 9 |
| EdgeBox.StepY | src/box.js:50 | the `y` step `max(6, floor(0.06 H))` is at least 6 |
| EdgeBox.GridGap | src/box.js:50 | two different rows visited by the `y` loop are at least one step apart |
| EdgeBox.GridNext | src/box.js:50 | the next row of the `y` loop is again on its grid |
| EdgeBox.GridFloor | src/box.js:50 | every visited row is at least 1 |
| EdgeBox.ScoreNonNeg | src/box.js:51 | the mean energy of every scored candidate is non-negative |
| EdgeBox.TableReadsScore | src/box.js:41-51 | `sumRect(...) / (w*h)` read from the table equals the candidate's mean energy |
| EdgeBox.TableReadsScores | src/box.js:41-51 | the table gives the mean energy of every candidate the loops score |
| EdgeBox.ReadScore | src/box.js:51 | the score read for a valid candidate is its mean energy, and it is non-negative |
| EdgeBox.Visit | src/box.js:51-52 | scoring one candidate replaces `best` only on a strict improvement, so `best` stays the first maximum so far |
| EdgeBox.NextColumn | src/box.js:50 | leaving the `y` loop when `y + h >= H` moves the search to the next `x` |
| EdgeBox.NextWidth | src/box.js:48-49 | a width whose height is below 16 or above `H`, or whose `x` loop is empty, scores nothing |
| EdgeBox.NextAspect | src/box.js:46 | widths above `floor(0.95 W)` end the width loop |
| EdgeBox.Advance | src/box.js:45-56 | moving past candidates that score nothing keeps the search invariant |
| EdgeBox.Finish | src/box.js:44-56 | after the last aspect, `best` is the start value if nothing was scored, else the first candidate in loop order with the highest mean |
| EdgeBox.ChosenUnique | src/box.js:52 | that outcome is unique |
| EdgeBox.ChosenFits | src/box.js:44-50 | the chosen rectangle has `w, h >= 1` and lies within the analysis image |
| EdgeBox.ScoreRow | src/box.js:50-53 | one pass of the `y` loop body keeps `best` the first maximum of the candidates visited |
| EdgeBox.ScanColumn | src/box.js:49-54 | the whole `y` loop for one `x` keeps `best` the first maximum of the candidates visited |
| EdgeBox.SearchBest | src/box.js:43-56 | the four nested loops return the unique chosen pick |
| EdgeBox.RescaleFits | src/box.js:57-63 | `floor(v * size / n)` and `max(1, floor(len * size / n))` keep a segment inside `[0, size)` |
| EdgeBox.ScaleBack | src/box.js:57-63 | for every overlay, the returned box has `x, y >= 0` and `w, h >= 1` |
| EdgeBox.ScaleBackInside | src/box.js:57-63 | with `vw, vh >= 1`, the scaled-back chosen rectangle also satisfies `x+w <= vw` and `y+h <= vh` |
| EdgeBox.Edges | src/box.js:17-31 | the magnitudes of the gray image have one value per analysis pixel |
| EdgeBox.FindTabletBox | src/box.js:4-64 | `null` iff there is no overlay; otherwise the scaled-back first best-scoring rectangle, with `x, y >= 0` and `w, h >= 1` for every overlay, lying within a non-empty overlay |
| AutoRoi.SoftmaxWithT | src/pipeline-auto-roi.js:38-44 | the tempered softmax has one probability per logit, each in (0, 1], summing to 1 |
| AutoRoi.SoftmaxWithTKeepsOrder | src/pipeline-auto-roi.js:38-44 | with an increasing `exp`, tempered probabilities compare exactly as the logits |
| AutoRoi.IndexOfMin | src/pipeline-auto-roi.js:55 | `s.indexOf(Math.min(...s))` is the first index of the minimum |
| AutoRoi.IndexOfMax | src/pipeline-auto-roi.js:56 | `s.indexOf(Math.max(...s))` is the first index of the maximum |
| AutoRoi.OrderQuadAsWritten | src/pipeline-auto-roi.js:53-60 | `orderQuad` as written returns four corners, each one of the input points |
| AutoRoi.OrderQuadAsWrittenCorners | src/pipeline-auto-roi.js:53-60 | as written: `tl` and `br` are the first points of least and greatest `x+y`, `tr` the first point of least `x-y`, and `bl` the first point of greatest `x-y` |
| AutoRoi.OrderQuad | src/pipeline-auto-roi.js:53-60 | the corrected order of the finding below also returns four input points |
| AutoRoi.OrderQuadCorners | src/pipeline-auto-roi.js:53-60 | the corrected order: `tl` and `br` as written, but `tr` the first point of greatest `x-y` and `bl` the first point of least `x-y` |
| AutoRoi.UprightSums | src/pipeline-auto-roi.js:55-56 | on an upright rectangle the extremes of `x+y` are its top-left and bottom-right |
| AutoRoi.UprightDiffs | src/pipeline-auto-roi.js:57-58 | on an upright rectangle the greatest `x-y` is the top-right corner and the least is the bottom-left |
| AutoRoi.OrderQuadUpright | src/pipeline-auto-roi.js:53-60 | the corrected order returns the corners of any upright rectangle as `[tl, tr, br, bl]` |
| AutoRoi.OrderQuadAsWrittenSwaps | src/pipeline-auto-roi.js:57-58 | the order as written returns `[tl, bl, br, tr]` on every upright rectangle |
| AutoRoi.OrderQuadAsWrittenExample | src/pipeline-auto-roi.js:57-59 | on the square (0,0)-(10,10) the written code puts (0,10) second, and the corrected one puts (10,0) there |
| AutoRoi.AreaOf | src/pipeline-auto-roi.js:84 | the contour area is non-negative |
| AutoRoi.AreaOfRotateReverse | src/pipeline-auto-roi.js:84 | the area does not depend on the starting vertex or on the direction of travel |
| AutoRoi.AreaOfUpright | src/pipeline-auto-roi.js:84 | an upright rectangle's area is width times height |
| AutoRoi.Sides | src/pipeline-auto-roi.js:91-96 | four side lengths, one per edge in vertex order |
| AutoRoi.Kept | src/pipeline-auto-roi.js:77-102 | the loop keeps no more quadrilaterals than there are contours |
| AutoRoi.KeptMembers | src/pipeline-auto-roi.js:83-98 | a point list is kept iff some contour has 4 vertices, is convex, has area at least `minAreaRatio w h` and has side ratio below `maxSideRatio` |
| AutoRoi.DetectQuads | src/pipeline-auto-roi.js:63-114 | the result is the kept list stably sorted by area, descending; it is a permutation of the kept list, and it holds exactly the accepted contours |
| AutoRoi.ToTensorCHW | src/pipeline-auto-roi.js:152-168 | the data is the channel-first ImageNet packing, the shape is `[1,3,size,size]`, and its product is the data length |
| AutoRoi.TensorCHWDecode | src/pipeline-auto-roi.js:159-166 | `chw[c*size^2+p]` is the normalised channel `c` of pixel `p`, and it decodes back to the byte |
| AutoRoi.Overwrite | src/pipeline-auto-roi.js:48 | `v.set(probs)` keeps the typed array's length |
| AutoRoi.Blend | src/pipeline-auto-roi.js:49 | the blended vector keeps the typed array's length |
| AutoRoi.EmaStep | src/pipeline-auto-roi.js:47-51 | an update never changes the accumulator's length |
| AutoRoi.FirstStepCopies | src/pipeline-auto-roi.js:46-48 | the first update of a fresh zero state yields exactly the observation |
| AutoRoi.BlendBetween | src/pipeline-auto-roi.js:49 | with `alpha` in [0, 1], each blended entry lies between its old value and the observation |
| AutoRoi.BlendFixed | src/pipeline-auto-roi.js:49 | an average that already equals the observation is left unchanged |
| AutoRoi.BlendSum | src/pipeline-auto-roi.js:49 | the blended total is `alpha` times the old total plus `(1 - alpha)` times the observed total, so totals of 1 stay 1 |
| AutoRoi.BlendExample | src/pipeline-auto-roi.js:49 | prior `[0.5, 0.5]` and observation `[1, 0]` with `alpha = 0.7` give `[0.65, 0.35]` |
| AutoRoi.RepeatedGap | src/pipeline-auto-roi.js:49 | after `n` updates with the same observation, each entry's distance to it is `alpha^n` times the first distance |
| AutoRoi.EmaState.constructor | src/pipeline-auto-roi.js:46 | `emaInit(n)` is a fresh array of `n` zeros, not ready |
| AutoRoi.EmaState.Update | src/pipeline-auto-roi.js:47-51 | the state's own array is updated in place (copy first, blend later), becomes ready and is returned |
| AutoRoi.ReadoutOf | src/pipeline-auto-roi.js:230-232 | there is no top entry iff the smoothed vector is empty; otherwise it is the first index of the largest value; the label is `id2label[i]` or `class_i`; it is confident iff `p >= 0.75` |
| AutoRoi.RoiKeyInjective | src/pipeline-auto-roi.js:225 | different slots get different keys `roi_<qi>` |
| AutoRoi.LaterKey | src/pipeline-auto-roi.js:225 | the key of slot `m` differs from every earlier slot's key |
| AutoRoi.RunSlots | src/pipeline-auto-roi.js:206-241 | a tick draws at most one label per classified slot |
| AutoRoi.RunSlotsHaltedStays | src/pipeline-auto-roi.js:215-230 | once a slot throws, the later slots change nothing |
| AutoRoi.RunSlotsThrows | src/pipeline-auto-roi.js:215-220 | a slot whose warp or inference throws ends the tick, keeping the states and labels of the earlier slots |
| AutoRoi.RunSlotsCompletes | src/pipeline-auto-roi.js:215-232 | when every slot's inference answers and every stored vector and observation has the same length, no slot throws and every slot draws a label |
| AutoRoi.RunSlotsKeys | src/pipeline-auto-roi.js:225-227 | the map gains exactly the keys `roi_0 .. roi_{n-1}`, and every other key keeps its state |
| AutoRoi.RunSlotsSlot | src/pipeline-auto-roi.js:225-232 | slot `i`'s state is created from or blended with its own observation, and its label is read from that state |
| AutoRoi.SlotProbs | src/pipeline-auto-roi.js:206-222 | one outcome for each of the first `min(quads.length, 4)` quadrilaterals: a throw, or the tempered softmax of the classifier's output for the corners in `orderQuad`'s order as written |
| AutoRoi.RoiTracker.constructor | src/pipeline-auto-roi.js:187 | `new Map()` holds no state |
| AutoRoi.RoiTracker.Observe | src/pipeline-auto-roi.js:225-227 | a new key gets a fresh state whose first update copies `probs`; a known key has its own state blended in place; no other key's state changes |
| AutoRoi.RoiTracker.Reuse | src/pipeline-auto-roi.js:226-227 | a known key's state is blended in place, and the map is not changed |
| AutoRoi.RoiTracker.Admit | src/pipeline-auto-roi.js:226-227 | a new key is stored with `emaInit(probs.length)`, and after its first update it holds `probs` |
| AutoRoi.RoiTracker.Classify | src/pipeline-auto-roi.js:215-222 | slot `qi` gets the outcome of warping its corners in the order `warpQuadToCanvas` takes from `orderQuad` as written (line 118) and classifying them: a throw, or the tempered softmax of the logits |
| AutoRoi.RoiTracker.Slot | src/pipeline-auto-roi.js:225-232 | one slot of the tick is one step of the slot run, and a throwing read-out ends the run |
| AutoRoi.RoiTracker.ProcessSlots | src/pipeline-auto-roi.js:206-243 | the `for (qi ...)` loop leaves the map and the drawn labels as the slot run says; the tick reschedules iff no slot's inference or read-out threw |
| AutoRoi.RoiTracker.Tick | src/pipeline-auto-roi.js:189-245 | with the video not ready nothing changes and the tick reschedules; when `cv.imread` or `detectQuads` throws, nothing changes, nothing is drawn and the tick does not reschedule; otherwise the slot run over the sorted accepted quadrilaterals, warped in the written corner order, rescheduling iff no slot threw |
| FrameLoop.Retained | src/main.js:75 | a box from `findTabletBox` replaces the last one, and `null` keeps the last one |
| FrameLoop.StepThrottle | src/main.js:69-104 | a frame is processed iff `lastTs` is 0 or `ts - lastTs >= 150`; a processed frame records `ts`; a skipped one changes only `rafId`; every frame reschedules |
| FrameLoop.StepBox | src/main.js:74-82 | with auto-box on, a found box replaces `lastBox`, and a `null` or a throw keeps it; drawing and preprocessing get `lastBox`; with auto-box off `lastBox` is untouched and both get `null` |
| FrameLoop.ZeroStaysDue | src/main.js:70-71 | a frame processed at `ts = 0` leaves `lastTs` falsy, so the next frame is processed unconditionally |
| FrameLoop.TraceSpaced | src/main.js:70-71 | over any run of frames, two consecutive processed timestamps are at least 150 ms apart unless the earlier one is 0; `lastTs` is the last processed timestamp |
| FrameLoop.TraceKeepsBox | src/main.js:75 | once `lastBox` holds a box, no later frame sets it back to `null` |
| FrameLoop.Flipped | src/main.js:62 | flipping negates `usingBack` and changes nothing else |
| FrameLoop.LabelOf | src/main.js:86 | the shown name is `mapping[String(idx)]` when present, else `class_<idx>` |
| FrameLoop.FallbackLabelsDistinct | src/main.js:90 | two classes the mapping does not name never share a label |
| FrameLoop.UndefinedLabel | src/main.js:86 | with `top1Idx` undefined the name is `mapping['undefined']` when present, else `class_undefined` |
| FrameLoop.ShowResult | src/main.js:83-91 | for non-empty logits: the best class's index, its name and its probability (the largest, first on ties), plus one pill per top-3 entry with its own label and probability; for empty logits: index and probability undefined, the name looked up under `undefined`, and no pills |
| FrameLoop.AppState.constructor | src/main.js:8-22 | the initial state: `lastTs` 0, no box, no frame request, back camera, auto-box on |
| FrameLoop.AppState.Loop | src/main.js:69-104 | `loop(ts)` changes the state exactly as one throttled step does, and reports what was drawn and preprocessed |
| FrameLoop.AppState.OnFlipClick | src/main.js:61-67 | `usingBack` is toggled; the camera restarts facing the new way iff a stream is live |
| FrameLoop.AppState.OnAutoBoxChange | src/main.js:110-113 | `autoBox` takes the checkbox value, and the overlay is cleared iff it was unchecked |

## Left out

- Camera, DOM and canvas work are not part of this model: `getUserMedia`, the overlay sizing, `drawImage` scaling and cropping, `drawBox`, the contour and label drawing, and the anti-moire pass. What they produce enters as data: the raster handed to the packers, and the box finder's result in `FrameLoop`.
- The pixels that `drawImage` and `getImageData` produce for a crop are not modelled. `PreprocessToTensor` receives them as a parameter, next to the source rectangle it computes.
- OpenCV is foreign code. Grayscale conversion, blurs, Canny, `findContours`, `approxPolyDP`, `isContourConvex`, `getPerspectiveTransform` and `warpPerspective` are not modelled. Contours enter as vertex lists with a convexity flag, or as an exception from `cv.imread` and `detectQuads` that ends the tick. `contourArea` is taken to be the shoelace area of the vertices.
- `warpQuadToCanvas`, `applyAntiMoiré`, `toTensorCHW` on the warped canvas and the inference session are one parameter, `classify`, of the tick. It receives the corners in `orderQuad`'s written order and either answers with logits or throws. `toTensorCHW` itself is modelled separately on a raster.
- The Canny thresholds and `eps` are carried in `DetectOptions` but steer only OpenCV.
- `Math.exp` and `Math.hypot` are parameters. Only positivity (and monotonicity, for the order lemmas) of `exp` is used, and only non-negativity of `hypot`.
- The luminance weights are exact reals.
- Floating point is not modelled: Float32 storage, rounding of `vw / W`, NaN and infinities. All arithmetic is exact over reals, and floors of float products are exact integer quotients.
- Asynchrony is not modelled: `requestAnimationFrame`, the fire-and-forget `session.run(...).then` in `loop`, the awaited inference in `tick`, and the OpenCV readiness polling. The inference callback of `loop` is `ShowResult`, called on its own.
- Module loading, `class_mapping.json` fetching and parsing into `id2label` or `mapping`, and the model's input layout detection are not modelled. They enter as parameters (`useNCHW`, `mapping`, `id2label`).
- `onStartClick` and `onStopClick` are not modelled; they only start and stop the camera and the loop.
- The text formatting of results (`toFixed`, percentages) is not modelled. An undefined probability, which `toFixed` prints as `NaN`, is `None`.
- AutoRoi.OrderQuadAsWritten: requires a non-empty point list; `tick` only calls it on four-point quadrilaterals. The same holds for the corrected AutoRoi.OrderQuad.
- AutoRoi.EmaState.Update: requires `|probs| <= v.length` on the first update, where `v.set(probs)` would otherwise throw a RangeError. The tick always creates the state with `probs.length` entries.
- FrameLoop.AppState.Loop: an exception thrown by `preprocessToTensor` or by `session.run` itself is not separated from a normal frame, because it changes none of the modelled state. Only a throwing box finder is modelled.
- A `lastTs` of NaN, which would also be falsy, is not modelled; timestamps are reals.
- Features the code does not have are not modelled: selectable crop and normalisation modes, ROI padding, and smoothing of box coordinates. `preprocess.js` has only the two fixed packings, and `main.js` only reuses `lastBox`.

## Findings

| source | as written | input that shows it | evidently intended | confidence | as-written member | corrected member |
|---|---|---|---|---|---|---|
| src/pipeline-auto-roi.js:57-58 | `tr` is the point of least `x - y` and `bl` the point of greatest `x - y`. With image coordinates (y downward) that puts the bottom-left corner second and the top-right corner fourth. | the square with corners (0,0), (10,0), (10,10), (0,10): the result is `[(0,0), (0,10), (10,10), (10,0)]` | `[tl, tr, br, bl]`: greatest `x - y` for `tr`, least for `bl`, matching the destination corners `[0,0, S,0, S,S, 0,S]` of the perspective warp | not executed; high: the swap follows from the definitions on every upright rectangle | AutoRoi.OrderQuadAsWritten (exhibited by AutoRoi.OrderQuadAsWrittenSwaps and AutoRoi.OrderQuadAsWrittenExample) | AutoRoi.OrderQuad (proved by AutoRoi.OrderQuadUpright and AutoRoi.OrderQuadCorners; the tick keeps the written order, as the program does) |
