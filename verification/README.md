# webvid camera control loop, in Dafny

This project models the per-camera control loop of webvid (`vision/camera.go`)
and the decision logic of its HTTP record handler (`web/handle_record.go`), and
proves properties of that model.

Each camera runs `Serve`, which works as follows:
- If the camera is already busy, it returns at once.
- It opens the device, then ticks forever.
- On each tick it takes a quit signal, a pending command, or, when neither is ready, one frame read.
- Failed reads raise a retry counter, and the inter-tick delay escalates from 20 ms to 1 s and then to 30 s.
- Any successful read resets the backoff.
- Each non-empty frame goes through the filter chain and then to the stream hook. It is written to the recording file while a recording is active.
- A recording stops itself on the first written frame after its deadline.

The handler reads the camera's `Busy` and `Recording` flags and a `duration` query value. It then sends either `RECORD_STOP` or `RECORD_START`, with the duration as an int payload.

The model is functional:
- `Vision.Camera` is an immutable record.
- `CameraLoop.Step` is a pure function from a loop state and one tick event to the next loop state.
- `CameraLoop.Run` and `CameraLoop.Serve` fold `Step` over a finite sequence of events.

Things the source does not compute itself become inputs:
- device read results;
- open and reopen results;
- writer-creation results;
- the current instant;
- the calendar fields of the clock.

Go's dynamic `any` is the datatype `Vision.Value`. A failed type assertion
without `ok` (the `RECORD_START` payload) is a panic, modelled as `None` from
`Vision.DoCmd` and the `Panicked` phase of the loop.

Files:
- `wrappers.dfy`: the Option type.
- `decimal.dfy`: the integer formatting the source uses (`%d`, `%02d`) and `strconv.Atoi` on a 64-bit platform, with the 64-bit wrap-around of `time.Duration` arithmetic.
- `record_name.dfy`: the recording file name (`timeName`) and its inverse.
- `camera.dfy`: the camera record, `Verb.String`, `NewCamera`, `AddFilter`, `startRecording`, `stopRecording` and `doCmd`.
- `camera_loop.dfy`: `Open` outcomes, the deferred shutdown, the filter chain, the tick step, `Serve` and the backoff and recording lemmas.
- `handle_record.dfy`: `HandleRecord.ServeHTTP`.

Behaviour of the code that is easy to misread:
- Starting a recording while one is active only stops it. No new file is opened (`vision/camera.go:192-196`).
- While `HideAll` is set, a capture tick does not read at all. The retry count and delay tier freeze (`vision/camera.go:269-271`).
- The hibernate delay starts at the 12th consecutive failure, because the test is `retry > 10` before the increment (`vision/camera.go:274`). After 11 failures the delay is still 1 s.
- The auto-stop deadline is only checked on a tick that writes a frame. A writer that was created but does not report itself open never triggers it.
- `select` picks at random among the ready cases, quit and command alike. The capture default runs only when neither is ready (`CameraLoop.SelectChoices`).
- `Close` on loop exit closes an open writer but leaves it attached, and `Recording` keeps its value.
- The filters' `Close` hooks are never called; only the stream hook's is.
- The recordings folder constant is unused. Files are named `record_Y_M_D_h_m_s.mp4` with no directory.

## Model

| member | source | states |
|---|---|---|
| `Vision.VerbName` | vision/camera.go:25-36 | "Unknown" exactly for verbs 3 and up, which includes RECORD_START and RECORD_STOP; "Get", "Set", "HideAll" for 0..2 |
| `Vision.CameraName` | vision/camera.go:74-79 | a string id is the name as is; an int id n gives "V4L-0" and the digit for 0..9, and "V4L-" and `%d` of n otherwise (so -5 gives "V4L--5"); `Atoi` reads the suffix back as n; any other id gives "V4L-00" |
| `Vision.NewCamera` | vision/camera.go:74-97 | a new camera has the derived name, requests 1280x720 at 20 fps, is idle, not hidden, not recording, has no writer and no filters, and satisfies the camera invariant |
| `Vision.AddFilter` | vision/camera.go:99-101 | the added filter becomes the last of the chain; nothing else changes |
| `Vision.DurationNanos` | vision/camera.go:207 | for every count of seconds, the result differs from seconds times 10^9 by a multiple of 2^64 (Go's `int64` wrap-around); it is exact while seconds is between -9_223_372_036 and 9_223_372_036 (about 292 years) |
| `Vision.StopRecording` | vision/camera.go:159-181 | afterwards not recording and no writer; an open writer is closed and kept as a finished file; with no writer only the flag changes; nothing else changes |
| `Vision.StartRecording` | vision/camera.go:188-210 | when recording it is exactly a stop; on writer failure recording stays off and no writer is kept; on success recording is on, the writer is named by the clock, and the deadline is now plus the duration |
| `Vision.DoCmd` | vision/camera.go:212-227 | panics exactly for RECORD_START with a non-int payload; GET and unknown verbs change nothing; SET writes the float or 0.0; HIDEALL sets the bool or false; never touches Busy, the stream, the filters or the device handle |
| `Vision.DoCmdKeepsValid` | vision/camera.go:212-227 | every non-panicking command keeps "writer present iff recording" and the other camera invariants |
| `Vision.StopRecordingIdempotent` | vision/camera.go:159-181 | stopping twice equals stopping once |
| `Vision.StopWhenNotRecordingIsNoop` | vision/camera.go:159-163 | stopping a camera that is not recording leaves it unchanged |
| `Vision.StartWhileRecordingOpensNothing` | vision/camera.go:192-196 | a start while recording leaves no writer and finishes the old one if it was open |
| `Vision.StopRecordCmdStops` | vision/camera.go:110-112 | the loop applies StopRecordCmd's command exactly as a stop, whatever its payload |
| `Vision.RecordCmdPanics` | vision/camera.go:223 | `doCmd` panics on RecordCmd's command, for every camera |
| `Vision.RecordCmdFixedStarts` | vision/camera.go:223 | with an int payload the start command never panics and starts a five-second session when the writer opens |
| `RecordName.TimeName` | vision/camera.go:183-186 | the name starts with `record_` and ends with `.mp4` |
| `RecordName.TimeNameRoundTrip` | vision/camera.go:183-186 | parsing a recording name gives back all six clock fields |
| `RecordName.TimeNameInjective` | vision/camera.go:183-186 | two clock readings give the same name only if they agree on all six fields |
| `RecordName.TimeNameFields` | vision/camera.go:183-186 | for every clock reading, the text between `record_` and `.mp4` splits at `_` into the six fields, each printed by `%d`: no zero fill and no plus sign |
| `RecordName.TimeNameUnpadded` | vision/camera.go:185 | an example: 7 March 2024, 09:05:01 gives `record_2024_3_7_9_5_1.mp4` |
| `RecordName.SplitJoin` | vision/camera.go:185 | cutting the joined fields at `_` gives back the fields, since no printed integer contains `_` |
| `Decimal.PadTwo` | vision/camera.go:78 | `%02d` is at least two characters, zero-filled only for 0..9 |
| `Decimal.ParsePadTwo` | vision/camera.go:78 | `Atoi` reads the `%02d` text back as the same integer |
| `Decimal.ParseShowInt` | web/handle_record.go:39 | `Atoi` reads `%d` text back as the same 64-bit integer, negatives included |
| `Decimal.ParsePlusZero` | web/handle_record.go:39 | `Atoi` accepts an explicit plus sign and a leading zero |
| `Decimal.Wrap64` | vision/camera.go:207 | the result is congruent to the exact value modulo 2^64 and equals it when it fits |
| `CameraLoop.SelectChoices` | vision/camera.go:260-267 | capture is possible exactly when neither quit nor a command is ready; each ready case can be taken |
| `CameraLoop.Open` | vision/camera.go:114-140 | the device handle is held exactly on success, which stores the negotiated geometry; a failure leaves the geometry alone; no other field changes |
| `CameraLoop.Shutdown` | vision/camera.go:142-150 | after exit the camera is not busy and holds no device; an open writer is finished but stays attached, and Recording keeps its value; no field other than Busy, the device handle, the writer and the finished files changes |
| `CameraLoop.ApplyFilters` | vision/camera.go:296-298 | the frame leaves the chain with every filter's edit, in list order, after its earlier edits |
| `CameraLoop.Backoff` | vision/camera.go:273-290 | the delay tier is normal exactly at 0 failures and hibernate exactly from 12 failures on |
| `CameraLoop.DelayMillis` | vision/camera.go:152-157 | the sleep is 20 ms exactly in the normal tier, 1 s exactly in the retry tier and 30 s exactly in the hibernate tier |
| `CameraLoop.StepKeepsInv` | vision/camera.go:257-312 | every tick keeps the camera invariants, keeps the delay equal to `Backoff(retry)`, and keeps Busy true exactly while the loop runs |
| `CameraLoop.RunKeepsInv` | vision/camera.go:257-312 | the same holds after any finite number of ticks |
| `CameraLoop.ServeLifecycle` | vision/camera.go:229-249 | a busy camera is returned untouched; a failed open returns with Busy false; otherwise Busy holds exactly while the loop runs |
| `CameraLoop.CommandTickSkipsCapture` | vision/camera.go:263-265 | a command tick leaves retry, delay, stream and device handle untouched; it ends the loop only by the RECORD_START payload panic |
| `CameraLoop.HiddenTickChangesNothing` | vision/camera.go:269-271 | with HideAll set, a capture tick leaves the whole loop state unchanged |
| `CameraLoop.FailedReadBacksOff` | vision/camera.go:273-288 | a failed read adds one to retry; the delay becomes hibernate iff the old retry exceeded 10, else the retry delay |
| `CameraLoop.SuccessfulReadResets` | vision/camera.go:289-294 | any successful read resets retry to 0 and the delay to normal; an empty frame changes nothing else |
| `CameraLoop.ConsecutiveFailures` | vision/camera.go:273-288 | any run of failed reads, from any retry count and with any reopen outcomes, adds one to the count per read and leaves the delay at the tier the count implies; from a fresh count the sleep is 1 s after 1..11 failures and 30 s from the 12th on |
| `CameraLoop.RunSnoc` | vision/camera.go:257 | running one more event after a run is one more tick |
| `CameraLoop.FrameTick` | vision/camera.go:292-311 | the stream gets the filtered frame; the writer gets it exactly when attached, recording and open; the recording stops on that tick exactly when the deadline is strictly before now |
| `CameraLoop.AutoStopOnlyOnWriteTick` | vision/camera.go:302-311 | with no command, recording ends only on a tick that read a frame, wrote it to an open writer and found the deadline passed |
| `CameraLoop.WriteTickContinues` | vision/camera.go:302-311 | one frame tick at or before the deadline, with an open writer, keeps the recording going and appends the filtered frame to the file |
| `CameraLoop.RecordingContinues` | vision/camera.go:302-311 | a run of frame ticks at instants up to the deadline keeps an open-writer recording going, and the file receives every filtered frame in order |
| `CameraLoop.RecordingAutoStops` | vision/camera.go:302-311 | a recording of D seconds, for D between -9_223_372_036 and 9_223_372_036 s (about 292 years either way), 0 and negatives included, started with an open writer: frame ticks up to start + D keep recording; the first frame tick after it writes its frame, finishes the file with every frame of the session, and clears the recording state |
| `CameraLoop.HugeDurationStopsAtOnce` | vision/camera.go:207-208 | a request for 9_223_372_037 s wraps to a deadline about 292 years before the start, so the first frame written at the start instant already ends the recording |
| `CameraLoop.AddFilterRunsLast` | vision/camera.go:99-101 | a filter added with AddFilter makes the last edit on every frame the chain processes, after the filters already there |
| `Web.QueryDuration` | web/handle_record.go:35-43 | the first `duration` value when `Atoi` accepts it, and 5 in every other case (no key, no value, or a rejected value) |
| `Web.HandleRecord` | web/handle_record.go:24-65 | a command is sent iff the camera exists and is busy; otherwise nothing is written; the command is STOP iff recording and START otherwise; the reply is "stop" iff recording, and otherwise "record for <d> seconds" plus a newline; the payload is the int duration |
| `Web.QueryDurationRoundTrip` | web/handle_record.go:35-43 | any 64-bit count of seconds, 0 and negatives included, is used as given; later values are ignored |
| `Web.QueryDurationFallback` | web/handle_record.go:38-42 | an unparsable first value falls back to 5 |
| `Web.StartMessageNamesDuration` | web/handle_record.go:59 | the start reply is "record for <d> seconds" plus a newline, with d readable back from it, and is never "stop" |
| `Web.HandlerThenDoCmd` | web/handle_record.go:54-63 | the handler's command never makes `doCmd` panic; a recording camera stops; a non-recording one starts with the requested duration when the writer opens, and is unchanged when it fails |

## Findings

| source | as written | input that shows it | evidently intended | confidence | as-written member | corrected member |
|---|---|---|---|---|---|---|
| vision/camera.go:106-108 | `RecordCmd` sends `RECORD_START` with payload `true` | any camera that receives it: `doCmd` runs `cmd.Value.(int)` on a bool and panics, which ends the loop and the process | an int payload in seconds, such as the five-second `recordLimit` | not executed; the panic follows from Go's unchecked type assertion; the intended payload is a guess, and `RecordCmd` is not called by the handler, the server or `main` | `Vision.RecordCmdPanics` | `Vision.RecordCmdFixedStarts` |

## Left out

- Device and codec calls are inputs, not models: opening a device, negotiating properties, reading, creating and writing a video writer, the frame matrix, and closing. Negotiated width, height and rate are opaque reals.
- A read from a closed device is whatever read result the event carries. The model does not force it to fail.
- Pixel content is not modelled. A frame is its capture number plus the hooks that edited it. The face-detection filter and JPEG encoding are external library code.
- CameraLoop.FrameTick: the stream hook always publishes. Its JPEG-encoding failure path (log and skip) is not modelled, because the encoder is external.
- CameraLoop.FrameTick: a frame written to the writer is always appended. Write errors are only logged in the source, and the codec is external.
- CameraLoop.RecordingAutoStops: stated only for D between -9_223_372_036 and 9_223_372_036 s. Beyond that, `time.Second * time.Duration(duration)` wraps around and the deadline can land before the start; `CameraLoop.HugeDurationStopsAtOnce` shows one such case.
- Vision.StopRecording: close errors are only logged, and the writer is dropped either way, so they are not modelled.
- Channels, goroutines, `time.Sleep` and blocking sends (`Camera.Command`) are not modelled. A tick's event stands for whatever the `select` delivered; there is no concurrency model.
- The handler reads `Busy` and `Recording` without synchronisation. The model reads them from one camera state.
- Logging, including the handler's dump of query values, is not modelled.
- `HideMain`, `HideThumb` and the frame matrix are not modelled: no modelled logic reads them.
- GET reads the device property and discards the value, so it changes no camera state.
- Time is an unbounded count of nanoseconds. `time.Time.Add` saturation and the monotonic clock reading are not modelled. The two `time.Now()` calls in `startRecording` are two independent inputs (calendar fields, instant).
- The retry counter is an unbounded natural number. A Go `int` would need about 2^63 consecutive failures to overflow.
- The route registration and server startup in `web/serve.go`, the camera list in `appdata/appdata.go`, and the flag parsing in `main.go` are not part of this model.
