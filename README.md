# filtered_camera in Dafny

This project models the core of the viam `filtered_camera` module. The module is a camera component that wraps another camera. It hands an image to data management only when vision services say the image is interesting. It can also hand over the images captured shortly before such a trigger. The model covers these parts:

- **The image buffer** (`image_buffer.dfy`, from `image_buffer/image_buffer.go`):
  - `ImageBuffer` is a class with the fields `recentPast`, `toSend` and `captureTill`.
  - `CleanBuffer` sorts `recentPast` by capture time and drops captures older than the window.
  - `AddToBuffer` places a new capture in `recentPast`, or in `toSend` while a trigger window is open.
  - `MarkShouldSend` opens the window and moves the still-fresh recent past onto `toSend`.
  - `GetCachedData` pops the oldest entry of `toSend`.
  - `CleanBuffer`, `AddToBuffer` and `MarkShouldSend` are proved against the specification function `Fresh`, the entries captured strictly after the cut-off; `GetCachedData` is proved to pop the oldest entry. `WindowDuration` and `Early` give the cut-off with Go's int64 `time.Duration` arithmetic written out.
- **The trigger rule** (`trigger_policy.dfy`, stated on values, from `cam.go`):
  - `Matches`: a label matches when its own threshold, or the wildcard `"*"`, lies strictly below its score.
  - `FirstMatch`: the first matching answer in a list.
  - `Query`, `ServiceStep` and `Decide`: how one service, then a list of services, is consulted.
  - `Evaluate`: inhibitors first, then acceptors; with no decision, the image is accepted exactly when no acceptors are configured.
- **The filtered camera** (`cam.dfy`, from `cam.go`):
  - `Config.Validate`, with the dependency list ordered camera, inhibitors, other services.
  - `imageStats.update`.
  - The `filteredCamera` methods `classificationMatches`, `detectionMatches`, `anyClassificationsMatch`, `anyDetectionsMatch` and `shouldSend`. The two `...Matches` predicates are functions stated against `Matches`; the `any...Match` loops and `shouldSend` are imperative methods proved equal to `FirstMatch` and `Evaluate`. `shouldSend` also updates the accepted and rejected counters.
- **The conditional camera** (`conditional_cam.dfy`, from `conditional_camera/conditional_cam.go`):
  - `Config.Validate`.
  - `shouldSend`: a yes/no answer read from a generic service's reply.
  - `images`: pass-through for requests that are not from data management; otherwise buffer the capture, ask the filter once per image, and pop one queued capture.
- **Shared helpers** (`common.dfy`, from `common.go`): `IsFromDataMgmt` and `ImagesToImage`.
- **Shared types** (`camera_types.dfy`, `wrappers.dfy`): value types, errors and int64 wrap-around.

Conventions:

- Time is an integer count of nanoseconds, with 0 standing for Go's zero `time.Time`. A method that reads the clock takes the reading as a parameter `now`.
- Vision services are known by name. What a service would answer for the image is a parameter `answers: string -> Answers`.
- The conditional camera's filter-service replies are a parameter too, one reply per loop iteration.

## Model

| member | source | states |
|---|---|---|
| ImageBuffer.WindowDuration | image_buffer/image_buffer.go:29-31 | The duration is `windowSeconds` seconds modulo 2^64. For every window that fits in an int64 duration, it is exactly that many whole seconds. |
| ImageBuffer.WholeSecondsFit | image_buffer/image_buffer.go:30 | A window of up to MaxInt64 / 1e9 seconds, times time.Second, does not overflow int64 and is a whole number of seconds. |
| ImageBuffer.Fresh | image_buffer/image_buffer.go:61-67 | The entries kept by cleanBuffer are exactly those of the input captured strictly after the cut-off: each kept one was in the input and is fresh, and each fresh input entry is kept. |
| ImageBuffer.FreshCount | image_buffer/image_buffer.go:61-67 | Dropping stale captures keeps every copy of a fresh capture and no copy of a stale one. |
| ImageBuffer.FreshOfPermutation | image_buffer/image_buffer.go:55-67 | Sorting before the drop changes only the order of what survives, not which captures survive. |
| ImageBuffer.DropStaleHead | image_buffer/image_buffer.go:62-67 | In a list sorted by capture time, popping the head while it is not after the cut-off leaves exactly the fresh captures. |
| ImageBuffer.AllFresh | image_buffer/image_buffer.go:63-65 | When the head of a sorted list is after the cut-off, the whole list is fresh, so the loop may stop there. |
| ImageBuffer.CleanedIsFresh | image_buffer/image_buffer.go:54-68 | What cleanBuffer leaves is sorted and is a permutation of the fresh captures of the original list. |
| ImageBuffer.Insert | image_buffer/image_buffer.go:55-59 | One insertion step of the sort adds exactly the new capture: the multiset grows by that one element. |
| ImageBuffer.InsertSorted | image_buffer/image_buffer.go:55-59 | Inserting into a list sorted by capture time keeps it sorted. |
| ImageBuffer.SortedCons | image_buffer/image_buffer.go:55-59 | A capture no later than every element of a sorted list can be put in front of it and the list stays sorted. |
| ImageBuffer.SortByCapture | image_buffer/image_buffer.go:55-59 | sort.Slice by CapturedAt returns a permutation of its input that is sorted by capture time. |
| ImageBuffer.ImageBuffer.constructor | image_buffer/image_buffer.go:19-27 | The zero ImageBuffer has both queues empty and captureTill at the zero time. |
| ImageBuffer.ImageBuffer.CleanBuffer | image_buffer/image_buffer.go:54-68 | After the call, recentPast is sorted by capture time and holds exactly the captures of the old recentPast that are after now minus the window. |
| ImageBuffer.ImageBuffer.AddToBuffer | image_buffer/image_buffer.go:34-51 | A zero window changes nothing. Otherwise recentPast is cleaned. The new capture then goes to the end of recentPast when captureTill is before now, and to the end of toSend otherwise; the other queue is left as it was. |
| ImageBuffer.ImageBuffer.MarkShouldSend | image_buffer/image_buffer.go:70-81 | captureTill becomes now plus the window, and recentPast empties. toSend keeps its old entries as a prefix, followed by the fresh recent past sorted by capture time. |
| ImageBuffer.ImageBuffer.GetCachedData | image_buffer/image_buffer.go:84-97 | An empty toSend gives nothing. Otherwise it returns the oldest entry and removes it, first in first out. |
| ImageBuffer.TenSecondWindow | image_buffer/image_buffer_test.go:22-56 | Captures at now, now-1s and now-1min, in any order, with a 10-second window: toSend receives exactly [now-1s, now]. |
| ImageBuffer.ThreeCapturesOneStale | image_buffer/image_buffer_test.go:22-56 | With one capture at or before the cut-off and two after it, the sorted fresh list is the two recent captures, oldest first. |
| ImageBuffer.EarlyOfWholeSeconds | image_buffer/image_buffer.go:61 | For a window that does not overflow, the cut-off is now minus exactly the window's seconds. |
| ImageBuffer.FreshOfThree | image_buffer/image_buffer_test.go:22-56 | Of three captures of which only the last is stale, the drop keeps the first two in order. |
| ImageBuffer.SortedPair | image_buffer/image_buffer_test.go:51-54 | A sorted list holding two captures with different times lists the older one first. |
| TriggerPolicy.Lookup | cam.go:260 | Looking up a service that has no entry gives no thresholds, as indexing a Go nil map does. |
| TriggerPolicy.Matches | cam.go:252-271 | An answer matches if and only if some threshold for its own label, or for "*", lies strictly below its score. |
| TriggerPolicy.FirstMatch | cam.go:243-250 | Nothing is found exactly when no answer matches. A result is an answer that matches, with no matching answer before it in the list. |
| TriggerPolicy.StrictThreshold | cam.go:261-266 | A score equal to or below every applicable threshold never matches. |
| TriggerPolicy.MatchesMonotone | cam.go:252-271 | Raising the score of a matching answer keeps it matching. |
| TriggerPolicy.WildcardNotShadowed | cam.go:265-268 | Failing the label's own threshold does not prevent a match through the wildcard. |
| TriggerPolicy.UnconfiguredServiceNotQueried | cam.go:382-397 | A service with neither classification nor object thresholds lets the image pass, whatever it would answer. |
| TriggerPolicy.DecideSkips | cam.go:381-411 | Services that let the image pass are skipped: the decision is that of the rest of the list. |
| TriggerPolicy.InhibitorVetoes | cam.go:381-411 | The first inhibitor that matches rejects the image under the matching label, whatever the acceptors would say. |
| TriggerPolicy.FirstAcceptorWins | cam.go:413-443 | When every inhibitor passes, the first acceptor that matches accepts the image under the matching label. |
| TriggerPolicy.NoDecisionDefault | cam.go:444-451 | When no service decides, the image is accepted if there are no acceptors and rejected if there are some, under "no vision services triggered". |
| TriggerPolicy.InhibitorBeatsAcceptor | cam.go:379-452 | Suppose one service inhibits label "a" above 0.7 and accepts "a" above 0.6. An answer of "a" at 0.75 is rejected. |
| Cam.FirstUnnamedMeaning | cam.go:47-53 | The first entry of vision_services without a name is found exactly when such an entry exists, and it is the earliest one. |
| Cam.Config.Validate | cam.go:55-95 | The checks come in order: a missing camera first, then neither or both of vision and vision_services, then a negative image_frequency, then an unnamed service, reported at its index. The accepted result is [camera, vision] or camera, then the inhibitors, then the other services. |
| Cam.SplitServices | cam.go:79-88 | The loop over vision_services fails at the first unnamed entry. Otherwise it returns the inhibitors and the other services, each group in configuration order. |
| Cam.NamesSnoc | cam.go:83-87 | Appending one entry appends its name to exactly one of the two groups, chosen by its inhibit flag. |
| Cam.UnnamedSnoc | cam.go:79-82 | After a prefix of named entries, one more entry is the first unnamed one exactly when it has no name. |
| Cam.Visions | cam.go:79 | The names of all configured services, one per entry, in order. |
| Cam.DependenciesArePermutation | cam.go:70-94 | Grouping the inhibitors first only reorders the services: each one appears in the dependencies exactly as often as it is configured. |
| Cam.InhibitorsListedFirst | cam_test.go:344-362 | With foo and bar accepting and baz inhibiting, the inhibitors are [baz] and the others are [foo, bar]. |
| Cam.Bumped | cam.go:207-217 | The counter under the label goes up by one, or starts at 1 when the label is new. Every other label keeps its count, and no other key appears. |
| Cam.ImageStats.constructor | cam.go:201-205 | A new counter has total 0 and an empty breakdown. |
| Cam.ImageStats.Update | cam.go:207-217 | The total goes up by one and the breakdown is bumped under the given label. |
| Cam.FilteredCamera.constructor | cam.go:181-199 | The trigger configuration is the one given, and both counters are new, distinct and zero. |
| Cam.FilteredCamera.ClassificationMatches | cam.go:252-271 | The inhibit flag selects the inhibiting or accepting classification thresholds of the service. The answer matches if and only if a threshold for its label or for "*" lies strictly below its score. |
| Cam.FilteredCamera.DetectionMatches | cam.go:283-302 | The same rule over the object thresholds. |
| Cam.FilteredCamera.AnyClassificationsMatch | cam.go:243-250 | The found flag is set exactly when a classification is returned, and that classification is the first matching one in list order. |
| Cam.FilteredCamera.AnyDetectionsMatch | cam.go:273-281 | The found flag is set exactly when a detection is returned, and that detection is the first matching one in list order. |
| Cam.FilteredCamera.QueryService | cam.go:382-410 | One service is asked for classifications only if it has classification thresholds, then for detections only if it has object thresholds. The result is an error, the first matching label, or a pass, as ServiceStep defines. |
| Cam.FilteredCamera.ShouldSend | cam.go:379-452 | The verdict equals Evaluate of the configuration. An acceptance increments acceptedStats under the deciding label, and a rejection increments rejectedStats. A vision-service error is returned and changes neither counter. |
| Common.IsFromDataMgmt | common.go:14-20 | True if and only if `extra` is present and holds the boolean true under the data-management key. A nil `extra` is never from data management. |
| Common.OnlyTheFlagMatters | common.go:14-20 | Entries of `extra` other than the data-management key never change the answer. |
| Common.FromDataMgmtCases | common_test.go:13-44 | A nil map, an empty map, false, and a non-boolean value all say no; true says yes. |
| Common.ImagesToImage | common.go:22-40 | An empty slice or a failing encoding gives no bytes, empty metadata and an error. Otherwise the result is the first image's bytes and MIME type, with its annotations plus exactly one "test_filtered_camera" classification appended. |
| Common.OnlyFirstImageUsed | common_test.go:74-92 | Images after the first never change the result. |
| ConditionalCamera.Config.Validate | conditional_camera/conditional_cam.go:36-50 | Success holds exactly when the camera and filter_service are set and image_frequency is positive; the dependencies are then [camera, filter_service]. Otherwise the first failing check is reported. |
| ConditionalCamera.ShouldSend | conditional_camera/conditional_cam.go:152-158 | A failing call is passed on. The answer is the boolean under "result", exactly when there is one. Any other reply is a failed type assertion, a panic. |
| ConditionalCamera.PollAllMeaning | conditional_camera/conditional_cam.go:130-138 | The loop counts at most one yes per image, and stops with an error exactly when some reply is not a boolean answer. Every image is marked when every reply says yes, and none when none does. |
| ConditionalCamera.Repeat | conditional_camera/conditional_cam.go:135-137 | `n` copies of a capture time: the marks one capture leaves in the buffer. |
| ConditionalCamera.ConditionalCamera.constructor | conditional_camera/conditional_cam.go:84-95 | A camera over a buffer whose queue is given, with no calls made yet. |
| ConditionalCamera.ConditionalCamera.AskFilter | conditional_camera/conditional_cam.go:130-138 | The capture time is marked once for each yes before the first error, and that error, if any, is returned. |
| ConditionalCamera.ConditionalCamera.Images | conditional_camera/conditional_cam.go:118-150 | A camera error, or a request not from data management, returns the camera's reply and changes nothing. Otherwise the capture is added to the ring buffer and each yes marks its time. A filter error is then returned with no images. ToSend becomes the queue as the buffer calls leave it (`queued`); if there is no error its oldest capture is popped and returned, or the no-capture sentinel is returned when it is empty. |

## Left out

- The mutexes of both buffers and of the cameras are not modelled, nor is concurrent access. Each method runs as one atomic step.
- Logging is not modelled. `Infof`/`Debugf` calls have no effect on the state.
- The background capture worker is not modelled, and neither are `captureImageInBackground`, `Close` and the image-frequency ticker. They are timers and goroutines.
- `filteredCamera.images` and `filteredCamera.Image` are not modelled. They call a buffer API (`NewImageBuffer`, a ring buffer) that `image_buffer/image_buffer.go` does not define, so their buffer effects cannot be stated against this buffer.
- The following are not modelled, because they hold no decision logic: `formatStats`, `DoCommand`, `Properties`, `NextPointCloud`, `Name` and the `init` registration (including building the threshold maps from the configuration). The `FilteredCamera` constructor takes those maps ready-made.
- The `lastCached` field of `ImageBuffer` is not modelled; no function of `image_buffer.go` reads or writes it.
- The result limit of 100 on the classification call (`Classifications(ctx, img, 100, nil)`) is not modelled. Each service's answers are given as a list.
- The stats' `startTime` and its formatting are not modelled (clock reads).
- `ImageBuffer.ImageBuffer.MarkShouldSend`: `captureTill` is `now` plus the wrapped int64 duration, as an unbounded integer. Go's `time.Time.Add` overflow behaviour at the extremes of the time range is not modelled.
- `ImageBuffer.Early`: the cut-off of cleanBuffer is likewise `now` plus the wrapped negated duration as an unbounded integer; `time.Time.Add` overflow is not modelled there either.
- `ImageBuffer.ImageBuffer.CleanBuffer`: every `time.Now()` read within one call is the single parameter `now`. AddToBuffer's own comparison with `captureTill` uses the same `now`, although Go reads the clock again.
- `ImageBuffer.SortByCapture`: states only "sorted permutation". `sort.Slice` is not stable, and the order among captures with equal timestamps is left open.
- `ConditionalCamera.ConditionalCamera.Images`: the calls to the newer buffer (`AddToRingBuffer`, `MarkShouldSend(capturedAt)`) are recorded in the logs `ringAdds` and `marks`. How that buffer refills ToSend in response (for instance moving the triggering capture from its ring into ToSend) is not modelled, because its source is not part of this model: the queue those calls leave behind is the parameter `queued`, unconstrained, and the pop and the no-capture sentinel are stated against it.
- `ConditionalCamera.ShouldSend`: a panic on a reply without a boolean under "result" is modelled as the error value `Panic`, which ends the call like any other error.
- Configuration error paths are modelled as values (`At(path)`, `AtService(path, index)`). The Go string formatting `"<path>.vision-service.<index>"` and the error message texts of the host library are not modelled.
- Common.ImagesToImage: `conditional_cam.go` (line 111) calls it with an extra MIME-type argument that the two-argument definition in `common.go` does not take. The model follows `common.go`, and the requested MIME type is not modelled. `NamedImage.Bytes` is the parameter `encode`.
- Scores, thresholds and `image_frequency` are Go `float64` values modelled as `real`: NaN, infinities and rounding cannot be expressed (a NaN score, which never matches in Go, has no counterpart).
- Common.ImagesToImage: only the label of the appended classification is modelled; its confidence is not.
