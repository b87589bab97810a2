/** The camera record of vision/camera.go and the operations the control loop
    applies to it: naming, command dispatch and the recording sub-state. Device,
    codec and encoder calls are not executed; their outcomes are inputs. */
module Vision {
  import opened Wrappers
  import opened Decimal
  import opened RecordName

  /** `Verb` is a `uint16`; values past RECORD_STOP are representable too. */
  newtype Verb = x: int | 0 <= x < 0x1_0000

  const GET: Verb := 0
  const SET: Verb := 1
  const HIDEALL: Verb := 2
  const RECORD_START: Verb := 3
  const RECORD_STOP: Verb := 4

  /** Names known to `Verb.String`; the recording verbs have none. */
  const CmdList: seq<string> := ["Get", "Set", "HideAll"]

  /** A Go `any` as far as the core inspects it: the dynamic types it asserts
      (`int`, `float64`, `bool`, `string`) and everything else. */
  datatype Value =
    | IntValue(i: int64)
    | FloatValue(f: real)
    | BoolValue(b: bool)
    | StringValue(s: string)
    | Other

  datatype CameraCmd = CameraCmd(action: Verb, property: int, value: Value)

  /** A frame as the pipeline sees it: which capture it came from and the
      hooks that have updated it, oldest first. Pixels are not modelled. */
  datatype Frame = Frame(capture: nat, edits: seq<nat>)

  /** A video writer: its file name, whether the codec reported it open, and
      the frames written to it. */
  datatype Writer = Writer(name: string, isOpen: bool, frames: seq<Frame>)

  /** A device property write made through `video.Set`. */
  datatype Setting = Setting(property: int, value: real)

  /** Outcome of `gocv.VideoWriterFile`: an error (the writer is nil), or a
      writer that may or may not report itself open. */
  datatype WriterOpen = WriterFailed | WriterCreated(isOpen: bool)

  /** The two readings of `time.Now()` that starting a recording makes:
      the calendar fields for the name and the instant for the deadline. */
  datatype Clock = Clock(nanos: int, stamp: Stamp)

  datatype Camera = Camera(
    id: Value,
    api: int,
    name: string,
    recordStop: int,
    filters: seq<nat>,
    hideAll: bool,
    busy: bool,
    recording: bool,
    frameWidth: real,
    frameHeight: real,
    frameRate: real,
    deviceOpen: bool,
    writer: Option<Writer>,
    stream: seq<Frame>,
    settings: seq<Setting>,
    recordings: seq<Writer>)

  const DelayNormalMillis: nat := 20
  const DelayRetryMillis: nat := 1000
  const DelayHibernateMillis: nat := 30000
  const RecordLimitSeconds: int64 := 5
  const NanosPerSecond: int := 1_000_000_000

  /** `Verb.String`: the listed name for verbs 0..2, "Unknown" from 3 upward. */
  function VerbName(v: Verb): (s: string)
    ensures s == "Unknown" <==> v >= 3
    ensures v == GET ==> s == "Get"
    ensures v == SET ==> s == "Set"
    ensures v == HIDEALL ==> s == "HideAll"
  {
    if v as int >= |CmdList| then "Unknown" else CmdList[v]
  }

  /** The display name `NewCamera` derives from an identity: a string as is,
      an `int` through `V4L-%02d`, anything else as if it were the int 0. */
  function CameraName(id: Value): (name: string)
    ensures id.StringValue? ==> name == id.s
    ensures id.IntValue? ==> |name| >= 6 && name[..4] == "V4L-" && ParseInt(name[4..]) == Some(id.i)
    ensures id.IntValue? && 0 <= id.i < 10 ==> name == "V4L-0" + ShowInt(id.i as int)
    ensures id.IntValue? && !(0 <= id.i < 10) ==> name == "V4L-" + ShowInt(id.i as int)
    ensures !id.StringValue? && !id.IntValue? ==> name == "V4L-00"
  {
    match id
    case StringValue(s) => s
    case IntValue(n) =>
      ParsePadTwo(n);
      "V4L-" + PadTwo(n as int)
    case _ => "V4L-" + PadTwo(0)
  }

  /** The state the source's own invariants keep: a writer exists exactly
      while recording, finished files are closed, and an idle camera holds no
      open device. */
  predicate Valid(c: Camera)
  {
    && (c.recording <==> c.writer.Some?)
    && (forall i :: 0 <= i < |c.recordings| ==> !c.recordings[i].isOpen)
    && (!c.busy ==> !c.deviceOpen)
  }

  /** `NewCamera`: 1280x720 at 20 fps requested, idle, not hidden, not
      recording, no writer and no filters. */
  function NewCamera(id: Value, api: int): (c: Camera)
    ensures c.id == id && c.api == api && c.name == CameraName(id)
    ensures c.frameWidth == 1280.0 && c.frameHeight == 720.0 && c.frameRate == 20.0
    ensures !c.busy && !c.recording && !c.hideAll && c.writer.None?
    ensures c.filters == [] && c.stream == [] && c.recordings == []
    ensures Valid(c)
  {
    Camera(id, api, CameraName(id), 0, [], false, false, false,
           1280.0, 720.0, 20.0, false, None, [], [], [])
  }

  /** `AddFilter`: the new filter is appended to the chain. */
  function AddFilter(c: Camera, h: nat): (r: Camera)
    ensures r.filters == c.filters + [h] && r.filters[|c.filters|] == h
    ensures r.(filters := c.filters) == c
  {
    c.(filters := c.filters + [h])
  }

  /** `time.Second * time.Duration(d)`, in nanoseconds, with the int64
      multiplication wrapping around as Go's does. */
  function DurationNanos(seconds: int64): (d: int64)
    ensures -9_223_372_036 <= seconds <= 9_223_372_036 ==> d as int == seconds as int * NanosPerSecond
    ensures (d as int - seconds as int * NanosPerSecond) % 0x1_0000_0000_0000_0000 == 0
    ensures seconds >= 0 && d >= 0 ==> d as int <= seconds as int * NanosPerSecond
  {
    Wrap64(seconds as int * NanosPerSecond)
  }

  /** `stopRecording`: clears the flag and drops the writer, closing it first
      when it is open. A writer that is already closed is simply dropped. */
  function StopRecording(c: Camera): (r: Camera)
    ensures !r.recording && r.writer.None?
    ensures c.writer.None? ==> r == c.(recording := false)
    ensures c.writer.Some? && c.writer.value.isOpen ==>
              r.recordings == c.recordings + [c.writer.value.(isOpen := false)]
    ensures !(c.writer.Some? && c.writer.value.isOpen) ==> r.recordings == c.recordings
    ensures r.(recording := c.recording, writer := c.writer, recordings := c.recordings) == c
  {
    var r := c.(recording := false);
    match c.writer
    case None => r
    case Some(w) =>
      if !w.isOpen then r.(writer := None)
      else r.(writer := None, recordings := c.recordings + [w.(isOpen := false)])
  }

  /** `startRecording(duration)`. When already recording it only stops (no new
      file is opened). Otherwise a writer named by the clock is created; if
      creation fails the camera stays not recording, else recording starts
      with deadline = now + duration seconds. */
  function StartRecording(c: Camera, duration: int64, clock: Clock, outcome: WriterOpen): (r: Camera)
    ensures c.recording ==> r == StopRecording(c)
    ensures !c.recording && outcome.WriterFailed? ==> !r.recording && r == c.(writer := None)
    ensures !c.recording && outcome.WriterCreated? ==>
              && r.recording
              && r.writer == Some(Writer(TimeName(clock.stamp), outcome.isOpen, []))
              && r.recordStop == clock.nanos + DurationNanos(duration) as int
              && r.(recording := c.recording, writer := c.writer, recordStop := c.recordStop) == c
  {
    if c.recording then StopRecording(c)
    else match outcome
      case WriterFailed => c.(writer := None)
      case WriterCreated(isOpen) =>
        c.(writer := Some(Writer(TimeName(clock.stamp), isOpen, [])),
           recording := true,
           recordStop := clock.nanos + DurationNanos(duration) as int)
  }

  /** `f, _ := v.(float64)`: the float, or 0.0 for any other dynamic type. */
  function FloatOrZero(v: Value): (f: real)
    ensures v.FloatValue? ==> f == v.f
    ensures !v.FloatValue? ==> f == 0.0
  {
    if v.FloatValue? then v.f else 0.0
  }

  /** `b, _ := v.(bool)`: the bool, or false for any other dynamic type. */
  function BoolOrFalse(v: Value): (b: bool)
    ensures b <==> v == BoolValue(true)
  {
    v.BoolValue? && v.b
  }

  /** `doCmd`. None is the run-time panic of the unchecked `cmd.Value.(int)`
      assertion on RECORD_START; verbs past RECORD_STOP match no case and do
      nothing. GET reads the device and discards the value. */
  function DoCmd(c: Camera, cmd: CameraCmd, clock: Clock, outcome: WriterOpen): (r: Option<Camera>)
    ensures r.None? <==> cmd.action == RECORD_START && !cmd.value.IntValue?
    ensures cmd.action == GET || cmd.action > RECORD_STOP ==> r == Some(c)
    ensures cmd.action == SET ==>
              r == Some(c.(settings := c.settings + [Setting(cmd.property, FloatOrZero(cmd.value))]))
    ensures cmd.action == HIDEALL ==> r == Some(c.(hideAll := BoolOrFalse(cmd.value)))
    ensures cmd.action == RECORD_STOP ==> r == Some(StopRecording(c))
    ensures cmd.action == RECORD_START && cmd.value.IntValue? ==>
              r == Some(StartRecording(c, cmd.value.i, clock, outcome))
    ensures r.Some? ==> r.value.busy == c.busy && r.value.stream == c.stream
                        && r.value.filters == c.filters && r.value.deviceOpen == c.deviceOpen
  {
    if cmd.action == GET then Some(c)
    else if cmd.action == SET then
      Some(c.(settings := c.settings + [Setting(cmd.property, FloatOrZero(cmd.value))]))
    else if cmd.action == HIDEALL then Some(c.(hideAll := BoolOrFalse(cmd.value)))
    else if cmd.action == RECORD_START then
      match cmd.value
      case IntValue(d) => Some(StartRecording(c, d, clock, outcome))
      case _ => None
    else if cmd.action == RECORD_STOP then Some(StopRecording(c))
    else Some(c)
  }

  /** The command `RecordCmd` sends, as written: RECORD_START with a bool. */
  function RecordCmd(): (cmd: CameraCmd)
    ensures cmd.action == RECORD_START && cmd.value.BoolValue?
  {
    CameraCmd(RECORD_START, 0, BoolValue(true))
  }

  /** The command `StopRecordCmd` sends: RECORD_STOP (its payload is ignored). */
  function StopRecordCmd(): (cmd: CameraCmd)
    ensures cmd.action == RECORD_STOP
  {
    CameraCmd(RECORD_STOP, 0, BoolValue(true))
  }

  /** RecordCmd's command, with the int payload doCmd requires: the default
      recording limit of five seconds. */
  function RecordCmdFixed(): (cmd: CameraCmd)
    ensures cmd.action == RECORD_START && cmd.value == IntValue(RecordLimitSeconds)
  {
    CameraCmd(RECORD_START, 0, IntValue(RecordLimitSeconds))
  }

  // ---- properties of the recording sub-state ----

  /** Every command that does not panic keeps the camera's invariants. */
  lemma DoCmdKeepsValid(c: Camera, cmd: CameraCmd, clock: Clock, outcome: WriterOpen)
    requires Valid(c)
    requires DoCmd(c, cmd, clock, outcome).Some?
    ensures Valid(DoCmd(c, cmd, clock, outcome).value)
  {
  }

  /** Stopping twice is the same as stopping once. */
  lemma StopRecordingIdempotent(c: Camera)
    ensures StopRecording(StopRecording(c)) == StopRecording(c)
  {
  }

  /** Stopping a camera that is not recording changes nothing at all. */
  lemma StopWhenNotRecordingIsNoop(c: Camera)
    requires Valid(c) && !c.recording
    ensures StopRecording(c) == c
  {
  }

  /** Starting while recording opens no second writer: the camera ends with
      no writer and the old one, if it was open, is finished. */
  lemma StartWhileRecordingOpensNothing(c: Camera, d: int64, clock: Clock, outcome: WriterOpen)
    requires Valid(c) && c.recording
    ensures StartRecording(c, d, clock, outcome).writer.None?
    ensures !StartRecording(c, d, clock, outcome).recording
    ensures c.writer.value.isOpen ==>
              StartRecording(c, d, clock, outcome).recordings == c.recordings + [c.writer.value.(isOpen := false)]
  {
  }

  /** StopRecordCmd's command, received by the loop, is exactly a stop. */
  lemma StopRecordCmdStops(c: Camera, clock: Clock, outcome: WriterOpen)
    ensures DoCmd(c, StopRecordCmd(), clock, outcome) == Some(StopRecording(c))
  {
  }

  /** The source's RecordCmd always panics doCmd: it asserts an int payload
      and receives a bool. */
  lemma RecordCmdPanics(c: Camera, clock: Clock, outcome: WriterOpen)
    ensures DoCmd(c, RecordCmd(), clock, outcome).None?
  {
  }

  /** With an int payload the same command never panics, and on an idle
      recorder whose writer opens it starts a five-second session. */
  lemma RecordCmdFixedStarts(c: Camera, clock: Clock, outcome: WriterOpen)
    ensures DoCmd(c, RecordCmdFixed(), clock, outcome).Some?
    ensures !c.recording && outcome.WriterCreated? ==>
              var r := DoCmd(c, RecordCmdFixed(), clock, outcome).value;
              r.recording && r.recordStop == clock.nanos + 5 * NanosPerSecond
  {
  }
}
