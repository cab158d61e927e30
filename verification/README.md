# Stimulus sequencing and pupil analysis, modelled in Dafny

This project models the core of a vision-science stimulation rig. The rig has three parts:

- **`StimuTest.cs`** is the world-space stimulus script. After a lead-in wait it shows a red sphere at every location, then a blue sphere at every location. It then recolours the blue sphere and shows it once more at every location for a long time. Every presentation sends a Start and a Stop marker. The script also pushes a two-channel pupil sample every frame. It defines an eye selection for the headset camera, but its only call (StimuTest.cs:83) is commented out, so a run never uses it.
- **`Scripts/newStimu.cs`** is the screen-space variant. It makes red and blue calls to `ShowStimulus` at five visual-field locations. It then dims the background and shows one long melanopsin stimulus. One stimulus object, created on first use, is moved and recoloured by every call. A separate coroutine blanks it when the stimulus duration is over.
- **`otherScripts/resultCalculator.py`** is the offline analysis. It picks the pupil and marker streams of a recording by name, splits the pupil array into left and right channels, and rebases the timestamps to the first pupil sample. It labels one vertical line per marker.

The modules are:

- **`LogicalClock`** (`clock.dfy`) is the clock of the coroutines. A wait of `d` seconds advances it by `Elapse(d) = max(d, 0)`. `Times(k, p)` is `k` waits of period `p`.
- **`Outcomes`** (`outcomes.dfy`) holds `Option` and `Result`.
- **`StimuSchedule`** (`stimu_schedule.dfy`) defines a reference plan of presentations by recursion over a pass, and the event trace of that plan. The method `ShowStimuliSequence` follows the script's nested loops step by step. It is proved to emit exactly the reference trace.
- **`StimuTrace`** (`stimu_trace.dfy`) holds what an observer sees of that trace:
  - the marker stream, with its alternation and timing;
  - at most one active sphere at any time;
  - a clock that never runs backwards.
- **`PupilSample`** holds the per-frame pupil sample of `StimuTest`. **`EyeRendering`** holds its eye-mask selection, which the script defines but does not call.
- **`NewStimu`** (`new_stimu.dfy`) holds:
  - the reference run of `newStimu`, and the method that follows its loops;
  - the timeline of show, hide and background events;
  - a replay of that timeline against a scene holding the stimulus object and the background panel.
- **`ResultCalculator`** (`result_calculator.dfy`) is the analysis as pure functions over a list of streams. Each way the script can stop is modelled as an error value.

Two behaviours of the code that the model keeps as they are:

- A run of `newStimu` with no locations dims the background and then faults at `vfLocations[0]` (Scripts/newStimu.cs:121). Nothing is shown after that. Unity logs the `IndexOutOfRangeException`, but the script itself sends nothing about it.
- `SendPupilData` (StimuTest.cs:250-260) computes the pupil sample from one frame's readings, and `Update` calls it once per frame (StimuTest.cs:268-271). `PupilSample.Sample` models one such frame.

## Model

| member | source | states |
|---|---|---|
| `StimuSchedule.ShowStimuliSequence` | StimuTest.cs:168-238 | The coroutine, loop for loop, emits exactly the reference trace: both chromatic passes, the recolouring of the blue sphere, the long blue pass, and the end of the run. Its clock ends at the reference end time. |
| `StimuSchedule.ChromaticPasses` | StimuTest.cs:172-207 | The lead-in wait and the two chromatic passes (with `isRed` cleared after the first) emit the trace of the red pass followed by the blue pass. They leave the clock where the long pass is due. |
| `StimuSchedule.ChromaticPass` | StimuTest.cs:181-203 | One run of the inner loop emits the trace of one pass over every location in array order. It advances the clock by one chromatic period per location. |
| `StimuSchedule.LongBluePass` | StimuTest.cs:212-235 | The recolouring comes first, followed by one long presentation per location. The clock ends at the end time of the run. |
| `StimuSchedule.Pass` | StimuTest.cs:181-203 | Presentation `j` of a pass is at location `from + j`. It starts `j` periods after the pass starts. |
| `StimuSchedule.ChromaticPlan` | StimuTest.cs:178-207 | Presentations `0..N-1` are red at locations `0..N-1`. Presentations `N..2N-1` are blue at the same locations. Presentation `k` starts `k` chromatic periods after the lead-in. |
| `StimuSchedule.LongPlan` | StimuTest.cs:214-235 | Long presentation `k` is at location `k`. It starts `k` long periods after the long pass is due. |
| `StimuSchedule.PlanOrder` | StimuTest.cs:178-235 | The run is red over every location, then blue, then long blue. Each pass visits the locations in array order. |
| `StimuSchedule.PlanTiming` | StimuTest.cs:175-237 | The first presentation starts when the lead-in is over. Each next one starts one duration plus one interval after the previous one. The run ends one long period after the last presentation started. |
| `StimuSchedule.ShowOnce` | StimuTest.cs:184-201 | One loop iteration emits the four steps of one presentation at the current clock: show, Start marker, hide, Stop marker. It advances the clock by one period of its kind. |
| `StimuSchedule.ExpandAt` | StimuTest.cs:184-201 | Block `k` of four events in a plan's trace is exactly presentation `k`: show, Start marker, hide, Stop marker. |
| `StimuSchedule.EndTimeClosedForm` | StimuTest.cs:175-234 | The run lasts the lead-in plus 2N chromatic periods plus N long periods. With non-negative settings, each wait is its setting. |
| `StimuTrace.MarkersOfExpand` | StimuTest.cs:190-199 | The marker stream of a plan holds, for each presentation in order, its Start marker and then its Stop marker. |
| `StimuTrace.MarkerStream` | StimuTest.cs:178-235 | The marker stream of a run holds exactly two markers per presentation. Markers `2k` and `2k+1` belong to presentation `k`. |
| `StimuTrace.MarkerAlternation` | StimuTest.cs:190-232 | The markers strictly alternate Start and Stop. Marker `i` names the kind and the location of presentation `i/2`. |
| `StimuTrace.MarkerDurations` | StimuTest.cs:175-228 | The first Start marker is sent when the lead-in is over. Each Stop marker follows its Start marker by the stimulation duration of its kind. |
| `StimuTrace.MarkerGaps` | StimuTest.cs:195-226 | Each next Start marker follows the previous Stop marker by the interval of the previous kind. |
| `StimuTrace.MarkerRunEnd` | StimuTest.cs:228-237 | The run ends one long interval after the last Stop marker. |
| `StimuTrace.MarkersStrictlyIncrease` | StimuTest.cs:178-235 | With positive durations and intervals, the marker times strictly increase. |
| `StimuTrace.AtMostOneSphereActive` | StimuTest.cs:184-228 | At most one sphere is active after every prefix of the run. Every activation happens while no sphere is active, and the run ends with no sphere active. |
| `StimuTrace.SpheresPerPass` | StimuTest.cs:172-228 | The first chromatic pass shows and hides only the red sphere. The second chromatic pass (after `isRed` is cleared) and the long pass use only the blue sphere. |
| `StimuTrace.NoOverlap` | StimuTest.cs:193-234 | Each next presentation starts exactly the previous kind's interval after the previous one was hidden. |
| `StimuTrace.TraceChronological` | StimuTest.cs:168-238 | No event of the run, including the recolouring and the end of the run, is taken before an earlier one. |
| `StimuTrace.DefaultRun` | StimuTest.cs:16-35 | With the script's settings and five locations, the run makes 15 presentations and sends 30 markers. It ends 145 seconds in. |
| `PupilSample.Sample` | StimuTest.cs:255-258 | The sample has two channels, left eye first, each the channel value of its eye's reading (×1000 when valid, -1 when not). Decoding each channel recovers the reading the eye's report was meant to carry. |
| `PupilSample.Channel` | StimuTest.cs:255-256 | A channel is non-negative iff the reading is valid and non-negative. A valid reading's channel divided by 1000 is the reading, and an invalid reading gives the sentinel -1. |
| `PupilSample.ChannelRoundTrip` | StimuTest.cs:255-256 | A valid non-negative radius survives scaling and decoding. An invalid reading decodes as no reading. |
| `PupilSample.SentinelExactly` | StimuTest.cs:255-256 | The channel equals the sentinel -1 exactly when the reading is invalid or is the one radius, -0.001, that collides with it. |
| `EyeRendering.ControlEyesRendering` | StimuTest.cs:89-110 | An error is reported exactly when neither eye is selected, and then the mask is left as it was. Otherwise the mask covers the left eye iff it was selected, and the right eye iff it was selected. |
| `EyeRendering.CoverageDeterminesMask` | StimuTest.cs:93-104 | Two masks that cover the same eyes are the same mask, so the coverage stated for a selection pins down the mask that is set. |
| `NewStimu.AdjustBrightness` | Scripts/newStimu.cs:107-110 | Alpha is kept. Luminance 1 leaves the colour unchanged, and luminance 0 gives black with the same alpha. |
| `NewStimu.BrightnessInverse` | Scripts/newStimu.cs:107-110 | Scaling by a non-zero luminance is undone by scaling by its reciprocal. |
| `NewStimu.BrightnessComposes` | Scripts/newStimu.cs:107-110 | Two scalings in a row are one scaling by the product of the luminances. |
| `NewStimu.ChromaticShows` | Scripts/newStimu.cs:55-66 | Call `j` of the chromatic loop is made `j` waits of 3.5 s after the start. It is the red call at location `j/2` for even `j`, and the blue call for odd `j`. |
| `NewStimu.ChromaticLoop` | Scripts/newStimu.cs:55-66 | The loop over the locations makes exactly the reference chromatic calls. It leaves the clock 2N waits of 3.5 s after the start. |
| `NewStimu.PresentStimuli` | Scripts/newStimu.cs:47-71 | The coroutine, with its nested melanopsin phase, makes exactly the reference run. |
| `NewStimu.ChromaticLayout` | Scripts/newStimu.cs:55-66 | For each location in order, the loop makes a red call (luminance 1000) and then a blue call (luminance 170), each lasting half a second. |
| `NewStimu.ChromaticSpacing` | Scripts/newStimu.cs:58-65 | Consecutive chromatic calls are exactly 3.5 s apart. |
| `NewStimu.MelanopsinPhase` | Scripts/newStimu.cs:112-127 | The background is dimmed 7 s per location after the start. With a location, one blue call at luminance 6000 is made at the first location, it is hidden before the run ends, and the run ends 16 s after the dimming. Without a location, the run faults at the dimming. |
| `NewStimu.InterleaveAt` | Scripts/newStimu.cs:93-105 | In the timeline of a sequence of calls, event `2k` is call `k` showing its stimulus and event `2k+1` is the hide that call schedules, one duration later. |
| `NewStimu.InterleaveIncreasing` | Scripts/newStimu.cs:95-105 | A timeline in which every show is directly followed by its own hide has strictly increasing times iff every hide fires after its show and before the next show. |
| `NewStimu.ChromaticTimelineIncreasing` | Scripts/newStimu.cs:58-65 | The chromatic calls, each followed by its own hide, are in strictly increasing time order, so no chromatic hide can blank a later chromatic stimulus. |
| `NewStimu.StimuliHidesInOwnSlot` | Scripts/newStimu.cs:55-127 | With a location, every hide of a run, chromatic or melanopsin, fires after its own show and before the next show, the melanopsin show included. The shows of the run interleaved with their own hides are strictly increasing, so no hide can blank a later stimulus. |
| `NewStimu.TimelineChronological` | Scripts/newStimu.cs:47-127 | The whole timeline of a run never goes back in time, and its last event is no later than the end of the run. |
| `NewStimu.ShowStimulus` | Scripts/newStimu.cs:73-98 | The stimulus ends up at the call's position with the brightness-adjusted colour. The object is created only when there was none, and the background is untouched. |
| `NewStimu.HideStimulus` | Scripts/newStimu.cs:101-105 | The stimulus keeps its place and becomes fully transparent. Nothing else changes. |
| `NewStimu.SetBackgroundOf` | Scripts/newStimu.cs:129-140 | With a panel that has an image, the image gets the brightness-adjusted colour. Without a panel or without an image, the scene is unchanged. The stimulus is never touched. |
| `NewStimu.SetBackgroundGuard` | Scripts/newStimu.cs:129-140 | The background change leaves the scene as it was iff there is no panel, the panel has no image, or the image already has the new colour. It never touches the stimulus. |
| `NewStimu.SetBackgroundIdempotent` | Scripts/newStimu.cs:129-140 | Setting the background twice is setting it once. |
| `NewStimu.CreatedOnce` | Scripts/newStimu.cs:75-84 | Replaying any events creates the stimulus object once exactly when none existed and some event shows it. Afterwards an object exists iff one existed before or something showed it. |
| `NewStimu.ReplayInterleave` | Scripts/newStimu.cs:73-105 | After a sequence of shows, each followed by its own hide, the stimulus is blank at the last show's position, and the background is untouched. |
| `NewStimu.RunOnNewScene` | Scripts/newStimu.cs:47-140 | On a scene with no stimulus object, a run with a location creates the object exactly once. The object ends blank at the first location, and the background is as the guarded change makes it. |
| `NewStimu.DefaultRun` | Scripts/newStimu.cs:17-24 | With the script's five locations, the run makes ten chromatic calls and one melanopsin call. It dims the background 35 s in and ends at 51 s. |
| `ResultCalculator.Select` | otherScripts/resultCalculator.py:24-25 | A stream is selected iff it is in the recording and satisfies the name test. The selection is no longer than the recording. |
| `ResultCalculator.SelectAppend` | otherScripts/resultCalculator.py:24-25 | Selecting from two lists joined is joining the two selections, so the selection keeps the recording's order. |
| `ResultCalculator.ContainsIff` | otherScripts/resultCalculator.py:24-25 | The substring test holds iff the pattern occurs at some index of the name. |
| `ResultCalculator.LowerIdempotent` | otherScripts/resultCalculator.py:24-25 | Lower-casing twice is lower-casing once. |
| `ResultCalculator.OneStreamInBoth` | otherScripts/resultCalculator.py:24-25 | The two selections are independent: a stream named "Pupil_Events" is both a pupil stream and a marker stream. |
| `ResultCalculator.PupilOutletClassified` | otherScripts/resultCalculator.py:24-25 | A stream named like the stimulus script's pupil outlet, "UnityPupilData", is a pupil stream and not a marker stream. |
| `ResultCalculator.EventOutletClassified` | otherScripts/resultCalculator.py:24-25 | A stream named like the stimulus script's event outlet, "UnityEventStream", is a marker stream and not a pupil stream. |
| `ResultCalculator.SplitChannels` | otherScripts/resultCalculator.py:38-43 | Splitting fails exactly when the array has no column. The left channel is column 0, row for row. The right channel is present exactly when there are at least two columns, and is then column 1. |
| `ResultCalculator.SplitJoin` | otherScripts/resultCalculator.py:38-43 | With one or two columns the split succeeds, and joining the channels gives back the array. |
| `ResultCalculator.SentSamplesSplit` | otherScripts/resultCalculator.py:38-43 | The samples the stimulus script sends split back into exactly the left-eye and right-eye channel values. |
| `ResultCalculator.Rebase` | otherScripts/resultCalculator.py:54-56 | Rebasing keeps the length, every difference between timestamps, and their order. Rebasing to the first timestamp makes it zero. |
| `ResultCalculator.RebaseInverse` | otherScripts/resultCalculator.py:54-56 | Rebasing back by the opposite offset restores the timestamps. |
| `ResultCalculator.LabelAt` | otherScripts/resultCalculator.py:66 | A marker sample that is a list is captioned by its first element and fails only when the list is empty. A sample that is not a list is its own caption, and so is a row of a numeric marker array. An index past the samples fails. |
| `ResultCalculator.SentMarkersCaptioned` | otherScripts/resultCalculator.py:65-68 | The markers the stimulus script sends, each a one-element string list (StimuTest.cs:264), are labelled with exactly the names that were sent, one line per marker at its timestamp. |
| `ResultCalculator.Lines` | otherScripts/resultCalculator.py:65-68 | Labelling succeeds iff every marker timestamp has a caption. A successful labelling draws one line per timestamp, at that timestamp, with that marker's caption. |
| `ResultCalculator.PupilChannels` | otherScripts/resultCalculator.py:33-43 | The pupil part succeeds iff there is a pupil stream and the first one is a numeric array with at least one column. The channels are then the split of that stream's array: column 0 on the left, one value per pupil timestamp, and column 1 on the right, present iff there are at least two columns. |
| `ResultCalculator.WithMarkers` | otherScripts/resultCalculator.py:48-68 | The marker part succeeds iff there is a first pupil timestamp and every marker timestamp has a caption. It keeps the channels, has one rebased time per pupil timestamp starting at zero, and draws one line per marker timestamp. |
| `ResultCalculator.Analyze` | otherScripts/resultCalculator.py:33-68 | The script as written succeeds iff the pupil part is usable, a marker stream exists, the first pupil stream has a timestamp, and every marker timestamp of the first marker stream has a caption. |
| `ResultCalculator.AnalyzeIntended` | otherScripts/resultCalculator.py:33-68 | The corrected script succeeds iff the pupil part is usable and, when a marker stream exists, the marker part can succeed. |
| `ResultCalculator.RigRecording` | otherScripts/resultCalculator.py:24-68 | A recording of the rig's own two outlets, with two pupil samples and one "Start" marker, is analysed as written. The pupil times become 0 and 0.5, both channels are plotted, and one line is drawn at 0.5 s captioned "Start". |
| `ResultCalculator.AnalyzeRebases` | otherScripts/resultCalculator.py:48-68 | A successful analysis plots the first pupil stream's channels, as the pupil part splits them, from time zero. It draws one line per marker timestamp of the first marker stream, at that timestamp minus the first pupil timestamp, with the marker's caption. |
| `ResultCalculator.FirstStreamsOnly` | otherScripts/resultCalculator.py:33-51 | Once a pupil stream and a marker stream exist, streams recorded after them change nothing. |
| `ResultCalculator.IntendedDiffersOnlyWithoutMarkers` | otherScripts/resultCalculator.py:48-68 | The corrected analysis equals the one as written whenever there is a marker stream. Without one, it succeeds exactly when the pupil part does, with the recorded pupil timestamps and no marker lines. |
| `ResultCalculator.AsWrittenStopsWithoutMarkers` | otherScripts/resultCalculator.py:48-68 | As written, a recording with a usable pupil stream and no marker stream makes the script stop. The corrected analysis succeeds on it. |
| `ResultCalculator.PupilOnlyRecording` | otherScripts/resultCalculator.py:48-68 | On a recording holding only the pupil outlet, the script as written stops. The corrected analysis plots both channels with no marker lines. |

## Left out

- The position follower `UpdateSpherePosition` and its `StopCoroutine` calls are left out. They only move an already active sphere every frame and do not change the schedule. Head tracking is a collaborator outside the model.
- The fixation light that `Update` of `StimuTest` moves every frame (StimuTest.cs:274-277) is left out. It is rendering only. The other half of `Update`, its call to `SendPupilData` (StimuTest.cs:271), is modelled by `PupilSample.Sample`.
- `WavelengthToRGB` in `newStimu.cs` is left out. Its only callers are commented out.
- LSL outlets and stream creation, FOVE calls, `Debug.Log`, and the plotting and hover cursor of the analysis are left out. They are I/O. The pupil readings and the recording's streams become parameters.
- Float32 arithmetic is modelled over the reals. Rounding of the `* 1000f` scaling and of colour channels is not modelled.
- `ResultCalculator.Rebase`: the float64 timestamp subtraction (resultCalculator.py:54-56) is modelled over the reals. The contract that every difference between timestamps is kept exactly holds for reals. In float64 it holds exactly only when each stamp is within a factor of two of the origin; otherwise rounding can change a difference by an ulp.
- Marker strings are not formatted. A marker is modelled as its edge (Start or Stop), kind and location index, which is what each string names.
- `ResultCalculator.Lower`: only ASCII letters are lower-cased. Python's `str.lower` covers all of Unicode, but the stream names the rig records are ASCII.
- Waits on the logical clock are exact, and a negative wait is clamped to zero. Unity resumes a coroutine on the first frame after a wait, and the next wait starts from that frame, so the overshoots add up: the events after the k-th wait can be up to k frames late. A `StimuTest` run makes 6N+1 waits and can end up to 6N+1 frames after the modelled end time.
- `NewStimu.HideStimulus`: a hide with no stimulus object is a no-op. In the script it would throw inside its coroutine, but no run reaches it, because every hide follows a show.
- `ResultCalculator.PupilChannels`: a pupil stream whose samples are not numbers is reported as `PupilNotNumeric`. What numpy would do with such an array is not modelled.
- A stream's name is modelled as a string. pyxdf stores it as a one-element list, and the script reads element 0.
- Scene and canvas construction (`CreateStimulusCanvas`, `CreateSphereStimulus`, materials and sizes) are left out. Only the colour and position a stimulus ends up with are modelled.

## Findings

| source | as written | input that shows it | evidently intended | confidence | as-written member | corrected member |
|---|---|---|---|---|---|---|
| otherScripts/resultCalculator.py:48-68 | `marker_times` and `marker_labels` are bound only inside `if marker_streams:`, but the loop at line 65 reads `marker_times` unconditionally, so a recording without a marker stream stops with an unbound name | one stream "UnityPupilData" with samples [[3.2, 3.1]] at time 10.0 and no marker stream | plot the pupil channels on their recorded timestamps with no marker lines, as the empty `marker_lines` list and the guard suggest | not executed | `ResultCalculator.PupilOnlyRecording` | `ResultCalculator.IntendedDiffersOnlyWithoutMarkers` |
