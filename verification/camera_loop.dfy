/** `Camera.Serve` in vision/camera.go: the busy guard, the open, and the
    endless tick loop, modelled as a pure step over abstract tick events. */
module CameraLoop {
  import opened Wrappers
  import opened Decimal
  import opened Vision

  /** The three sleep tiers between ticks. */
  datatype Delay = Normal | Retry | Hibernate

  function DelayMillis(d: Delay): (ms: nat)
    ensures ms == DelayNormalMillis <==> d == Normal
    ensures ms == DelayHibernateMillis <==> d == Hibernate
    ensures ms == DelayRetryMillis <==> d == Retry
  {
    match d
    case Normal => DelayNormalMillis
    case Retry => DelayRetryMillis
    case Hibernate => DelayHibernateMillis
  }

  /** Whether the loop is still ticking, has returned, or died in a panic. */
  datatype Phase = Running | Returned | Panicked

  /** The loop's state: the camera plus Serve's locals `retry` and `delay`. */
  datatype Loop = Loop(cam: Camera, retry: nat, delay: Delay, phase: Phase)

  /** Outcome of `Open`: failure, or the negotiated width, height and rate. */
  datatype OpenResult = OpenFailed | Opened(width: real, height: real, fps: real)

  /** Outcome of one `video.Read`. */
  datatype ReadResult = ReadFailed | ReadEmpty | ReadFrame(frame: Frame)

  /** What one pass of the `select` delivers. A command carries the clock and
      writer outcome a recording start would observe; a capture carries the
      read outcome, the outcome of the reopen a failed read triggers, and the
      instant checked against the recording deadline. */
  datatype Event =
    | Quit
    | Command(cmd: CameraCmd, clock: Clock, writerOpen: WriterOpen)
    | Capture(read: ReadResult, reopen: OpenResult, now: int)

  /** Which branch of the `select` ran. */
  datatype Choice = TakeQuit | TakeCommand | TakeCapture

  /** Go's `select` with a `default`: any READY channel case may be taken (the
      runtime picks among ready cases at random, so a quit does not outrank a
      pending command); the default, capture, only when neither is ready. */
  function SelectChoices(quitReady: bool, cmdReady: bool): (r: set<Choice>)
    ensures r != {}
    ensures TakeCapture in r <==> !quitReady && !cmdReady
    ensures TakeQuit in r <==> quitReady
    ensures TakeCommand in r <==> cmdReady
  {
    if !quitReady && !cmdReady then {TakeCapture}
    else (if quitReady then {TakeQuit} else {}) + (if cmdReady then {TakeCommand} else {})
  }

  /** `Open`: records whether a device handle is now held and, on success,
      the negotiated geometry (failures leave the geometry alone). */
  function Open(c: Camera, o: OpenResult): (r: Camera)
    ensures r.deviceOpen <==> o.Opened?
    ensures o.Opened? ==> r.frameWidth == o.width && r.frameHeight == o.height && r.frameRate == o.fps
    ensures o.OpenFailed? ==> r == c.(deviceOpen := false)
    ensures r.busy == c.busy && r.recording == c.recording && r.writer == c.writer
    ensures r.(deviceOpen := c.deviceOpen, frameWidth := c.frameWidth, frameHeight := c.frameHeight,
               frameRate := c.frameRate) == c
  {
    match o
    case OpenFailed => c.(deviceOpen := false)
    case Opened(w, h, f) => c.(deviceOpen := true, frameWidth := w, frameHeight := h, frameRate := f)
  }

  /** Serve's deferred exit: `Busy = false`, then `Close`, which finishes an
      open writer but leaves it attached and `Recording` as it was. */
  function Shutdown(c: Camera): (r: Camera)
    ensures !r.busy && !r.deviceOpen
    ensures r.recording == c.recording && r.writer.Some? == c.writer.Some?
    ensures c.writer.Some? && c.writer.value.isOpen ==>
              r.writer == Some(c.writer.value.(isOpen := false))
              && r.recordings == c.recordings + [c.writer.value.(isOpen := false)]
    ensures !(c.writer.Some? && c.writer.value.isOpen) ==> r == c.(busy := false, deviceOpen := false)
    ensures r.(busy := c.busy, deviceOpen := c.deviceOpen, writer := c.writer, recordings := c.recordings) == c
  {
    var d := c.(busy := false, deviceOpen := false);
    match c.writer
    case Some(w) =>
      if w.isOpen then d.(writer := Some(w.(isOpen := false)), recordings := c.recordings + [w.(isOpen := false)])
      else d
    case None => d
  }

  /** One hook's `Update`: the frame now carries that hook's edit. */
  function Update(h: nat, f: Frame): Frame
  {
    f.(edits := f.edits + [h])
  }

  /** The filter chain, applied in list order, each filter seeing the frame
      the previous one left. */
  function ApplyFilters(fs: seq<nat>, f: Frame): (r: Frame)
    ensures r == Frame(f.capture, f.edits + fs)
    decreases |fs|
  {
    if |fs| == 0 then f else ApplyFilters(fs[1..], Update(fs[0], f))
  }

  /** A successful, non-empty read: filters, then the stream hook, then a
      write if a writer is attached, recording is on and the writer is open;
      only on such a write is the deadline checked, strictly before `now`. */
  function ProcessFrame(c: Camera, f: Frame, now: int): Camera
  {
    var shown := ApplyFilters(c.filters, f);
    var c1 := c.(stream := c.stream + [shown]);
    if c1.writer.Some? && c1.recording && c1.writer.value.isOpen then
      var w := c1.writer.value;
      var c2 := c1.(writer := Some(w.(frames := w.frames + [shown])));
      if c2.recordStop < now then StopRecording(c2) else c2
    else c1
  }

  /** One iteration of Serve's `for` loop, after the sleep. */
  function Step(l: Loop, e: Event): (r: Loop)
    requires l.phase == Running
  {
    match e
    case Quit => l.(cam := Shutdown(l.cam), phase := Returned)
    case Command(cmd, clock, w) =>
      (match DoCmd(l.cam, cmd, clock, w)
       case Some(c) => l.(cam := c)
       case None => l.(cam := Shutdown(l.cam), phase := Panicked))
    case Capture(read, reopen, now) =>
      if l.cam.hideAll then l
      else match read
        case ReadFailed =>
          Loop(Open(l.cam, reopen), l.retry + 1, if l.retry > 10 then Hibernate else Retry, Running)
        case ReadEmpty => l.(retry := 0, delay := Normal)
        case ReadFrame(f) => Loop(ProcessFrame(l.cam, f, now), 0, Normal, Running)
  }

  /** Ticks until the event supply ends or the loop stops running. */
  function Run(l: Loop, es: seq<Event>): Loop
    decreases |es|
  {
    if |es| == 0 || l.phase != Running then l else Run(Step(l, es[0]), es[1..])
  }

  /** `Serve`: a busy camera is left alone; a failed open returns at once;
      otherwise the camera is busy while the loop runs over `es`. */
  function Serve(c: Camera, o: OpenResult, es: seq<Event>): Loop
  {
    if c.busy then Loop(c, 0, Normal, Returned)
    else if o.OpenFailed? then Loop(Open(c, o), 0, Normal, Returned)
    else Run(Loop(Open(c, o).(busy := true), 0, Normal, Running), es)
  }

  /** The delay tier a retry count implies: 0 failures normal, 1..11 the
      retry delay, 12 or more hibernation. */
  function Backoff(retry: nat): (d: Delay)
    ensures d == Normal <==> retry == 0
    ensures d == Hibernate <==> retry >= 12
  {
    if retry == 0 then Normal else if retry <= 11 then Retry else Hibernate
  }

  /** The invariant of a loop Serve started: the camera invariants, the delay
      determined by the retry count, and Busy exactly while running. */
  predicate LoopInv(l: Loop)
  {
    Valid(l.cam) && l.delay == Backoff(l.retry) && (l.cam.busy <==> l.phase == Running)
  }

  /** Every tick keeps the loop invariant. */
  lemma StepKeepsInv(l: Loop, e: Event)
    requires l.phase == Running && LoopInv(l)
    ensures LoopInv(Step(l, e))
  {
    match e
    case Quit =>
    case Command(cmd, clock, w) =>
      if DoCmd(l.cam, cmd, clock, w).Some? {
        DoCmdKeepsValid(l.cam, cmd, clock, w);
      }
    case Capture(read, reopen, now) =>
      if !l.cam.hideAll && read.ReadFrame? {
        ProcessFrameKeepsValid(l.cam, read.frame, now);
      }
  }

  lemma ProcessFrameKeepsValid(c: Camera, f: Frame, now: int)
    requires Valid(c)
    ensures Valid(ProcessFrame(c, f, now))
    ensures ProcessFrame(c, f, now).busy == c.busy
  {
  }

  /** The invariant holds for every run of any length. */
  lemma {:induction false} RunKeepsInv(l: Loop, es: seq<Event>)
    requires LoopInv(l)
    ensures LoopInv(Run(l, es))
    decreases |es|
  {
    if |es| > 0 && l.phase == Running {
      StepKeepsInv(l, es[0]);
      RunKeepsInv(Step(l, es[0]), es[1..]);
    }
  }

  /** Serve's lifecycle: a busy camera is untouched; a failed open leaves the
      camera not busy; otherwise the camera is busy exactly while the loop is
      still running, and the camera invariants hold throughout. */
  lemma ServeLifecycle(c: Camera, o: OpenResult, es: seq<Event>)
    requires Valid(c)
    ensures c.busy ==> Serve(c, o, es).cam == c && Serve(c, o, es).phase == Returned
    ensures !c.busy && o.OpenFailed? ==> !Serve(c, o, es).cam.busy && Serve(c, o, es).phase == Returned
    ensures !c.busy && o.Opened? ==> LoopInv(Serve(c, o, es))
  {
    if !c.busy && o.Opened? {
      RunKeepsInv(Loop(Open(c, o).(busy := true), 0, Normal, Running), es);
    }
  }

  /** A command tick reads nothing: retry count, delay, stream and device
      handle are untouched, and only a panic ends the loop. */
  lemma CommandTickSkipsCapture(l: Loop, cmd: CameraCmd, clock: Clock, w: WriterOpen)
    requires l.phase == Running
    ensures var r := Step(l, Command(cmd, clock, w));
      && r.retry == l.retry && r.delay == l.delay
      && (r.phase == Running ==> r.cam.stream == l.cam.stream && r.cam.deviceOpen == l.cam.deviceOpen)
      && (r.phase == Panicked <==> cmd.action == RECORD_START && !cmd.value.IntValue?)
  {
  }

  /** While HideAll is set a capture tick skips the read entirely, so nothing
      changes: the backoff bookkeeping freezes in whatever tier it was. */
  lemma HiddenTickChangesNothing(l: Loop, read: ReadResult, reopen: OpenResult, now: int)
    requires l.phase == Running && l.cam.hideAll
    ensures Step(l, Capture(read, reopen, now)) == l
  {
  }

  /** A failed read escalates: hibernation once more than ten failures were
      already counted, the retry delay otherwise; the count grows by one. */
  lemma FailedReadBacksOff(l: Loop, reopen: OpenResult, now: int)
    requires l.phase == Running && !l.cam.hideAll
    ensures var r := Step(l, Capture(ReadFailed, reopen, now));
      && r.retry == l.retry + 1
      && (r.delay == Hibernate <==> l.retry > 10)
      && (r.delay == Retry <==> l.retry <= 10)
      && r.cam.stream == l.cam.stream && r.cam.recording == l.cam.recording
  {
  }

  /** Any successful read, even of an empty frame, resets the backoff; an
      empty frame changes nothing else. */
  lemma SuccessfulReadResets(l: Loop, read: ReadResult, reopen: OpenResult, now: int)
    requires l.phase == Running && !l.cam.hideAll && !read.ReadFailed?
    ensures Step(l, Capture(read, reopen, now)).retry == 0
    ensures Step(l, Capture(read, reopen, now)).delay == Normal
    ensures read.ReadEmpty? ==> Step(l, Capture(read, reopen, now)).cam == l.cam
  {
  }

  /** Every event of `es` is a capture tick whose read failed, whatever the
      reopen outcome and the instant. */
  predicate AllFailedReads(es: seq<Event>)
  {
    forall i :: 0 <= i < |es| ==> es[i].Capture? && es[i].read.ReadFailed?
  }

  /** Consecutive failed reads on a visible camera, from any retry count and
      with any reopen outcomes: each adds one to the count, and the delay is
      the tier that count implies. From a fresh count, after k failures the
      sleep is 1 s for k = 1..11 and 30 s from k = 12 on. */
  lemma {:induction false} ConsecutiveFailures(l: Loop, es: seq<Event>)
    requires l.phase == Running && !l.cam.hideAll && l.delay == Backoff(l.retry)
    requires AllFailedReads(es)
    ensures Run(l, es).phase == Running && !Run(l, es).cam.hideAll
    ensures Run(l, es).retry == l.retry + |es|
    ensures Run(l, es).delay == Backoff(l.retry + |es|)
    ensures l.retry == 0 && 1 <= |es| <= 11 ==> DelayMillis(Run(l, es).delay) == 1000
    ensures l.retry == 0 && |es| >= 12 ==> DelayMillis(Run(l, es).delay) == 30000
    decreases |es|
  {
    if |es| > 0 {
      var next := Step(l, es[0]);
      assert next.retry == l.retry + 1;
      assert next.delay == Backoff(l.retry + 1);
      assert AllFailedReads(es[1..]) by {
        forall i | 0 <= i < |es[1..]| ensures es[1..][i].Capture? && es[1..][i].read.ReadFailed? {
          assert es[1..][i] == es[i + 1];
        }
      }
      ConsecutiveFailures(next, es[1..]);
    }
  }

  /** Running `es` then one more event is one more Step after running `es`. */
  lemma {:induction false} RunSnoc(l: Loop, es: seq<Event>, e: Event)
    requires Run(l, es).phase == Running
    ensures Run(l, es + [e]) == Step(Run(l, es), e)
    decreases |es|
  {
    if |es| == 0 {
      assert [e][1..] == [];
    } else {
      assert l.phase == Running;
      assert (es + [e])[1..] == es[1..] + [e];
      RunSnoc(Step(l, es[0]), es[1..], e);
    }
  }

  /** A frame tick: the stream always receives the frame with every filter
      applied in order; the writer receives it exactly when one is attached,
      recording is on and it is open; and recording stops on that tick
      exactly when, in addition, the deadline is strictly before `now`. */
  lemma FrameTick(l: Loop, f: Frame, reopen: OpenResult, now: int)
    requires l.phase == Running && !l.cam.hideAll && (l.cam.recording ==> l.cam.writer.Some?)
    ensures var r := Step(l, Capture(ReadFrame(f), reopen, now));
      var shown := Frame(f.capture, f.edits + l.cam.filters);
      var writes := l.cam.recording && l.cam.writer.value.isOpen;
      && r.cam.stream == l.cam.stream + [shown]
      && (l.cam.recording && !r.cam.recording <==> writes && l.cam.recordStop < now)
      && (writes && l.cam.recordStop < now ==>
            r.cam.recordings == l.cam.recordings + [l.cam.writer.value.(isOpen := false, frames := l.cam.writer.value.frames + [shown])])
      && (writes && l.cam.recordStop >= now ==>
            r.cam.writer == Some(l.cam.writer.value.(frames := l.cam.writer.value.frames + [shown])))
      && (!writes ==> r.cam.writer == l.cam.writer)
  {
  }

  /** Recording can only end on its own (no command) on a tick that read a
      frame, wrote it to an open writer, and found the deadline passed. */
  lemma AutoStopOnlyOnWriteTick(l: Loop, e: Event)
    requires l.phase == Running && Valid(l.cam) && !e.Command?
    requires Step(l, e).phase == Running
    requires l.cam.recording && !Step(l, e).cam.recording
    ensures e.Capture? && e.read.ReadFrame? && !l.cam.hideAll
    ensures l.cam.writer.value.isOpen && l.cam.recordStop < e.now
  {
  }

  /** Every event of `es` is a capture tick that read a frame, at an instant
      no later than `deadline`. */
  predicate FrameTicksUntil(es: seq<Event>, deadline: int)
  {
    forall i :: 0 <= i < |es| ==> es[i].Capture? && es[i].read.ReadFrame? && es[i].now <= deadline
  }

  /** The frames a run of frame ticks hands on, after the filter chain. */
  function Shown(es: seq<Event>, fs: seq<nat>): (r: seq<Frame>)
    requires forall i :: 0 <= i < |es| ==> es[i].Capture? && es[i].read.ReadFrame?
    ensures |r| == |es|
    ensures forall i :: 0 <= i < |es| ==> r[i] == Frame(es[i].read.frame.capture, es[i].read.frame.edits + fs)
  {
    if |es| == 0 then [] else [ApplyFilters(fs, es[0].read.frame)] + Shown(es[1..], fs)
  }

  /** The loop is running, shows frames, and records into an open writer,
      with deadline `stop`, filter chain `fs` and finished files `done`. */
  predicate Writing(l: Loop, stop: int, fs: seq<nat>, done: seq<Writer>)
  {
    && l.phase == Running && !l.cam.hideAll && l.cam.recording
    && l.cam.writer.Some? && l.cam.writer.value.isOpen
    && l.cam.recordStop == stop && l.cam.filters == fs && l.cam.recordings == done
  }

  /** One frame tick at or before the deadline, on a recording with an open
      writer: recording continues and the writer gains the filtered frame. */
  lemma WriteTickContinues(l: Loop, e: Event)
    requires Writing(l, l.cam.recordStop, l.cam.filters, l.cam.recordings)
    requires e.Capture? && e.read.ReadFrame? && e.now <= l.cam.recordStop
    ensures Writing(Step(l, e), l.cam.recordStop, l.cam.filters, l.cam.recordings)
    ensures Step(l, e).cam.writer.value
              == l.cam.writer.value.(frames := l.cam.writer.value.frames + [ApplyFilters(l.cam.filters, e.read.frame)])
  {
    FrameTick(l, e.read.frame, e.reopen, e.now);
  }

  /** While no tick passes the deadline, a recording with an open writer keeps
      going and its file receives every frame in order. */
  lemma {:induction false} RecordingContinues(l: Loop, es: seq<Event>)
    requires Writing(l, l.cam.recordStop, l.cam.filters, l.cam.recordings)
    requires FrameTicksUntil(es, l.cam.recordStop)
    ensures Writing(Run(l, es), l.cam.recordStop, l.cam.filters, l.cam.recordings)
    ensures Run(l, es).cam.writer.value
              == l.cam.writer.value.(frames := l.cam.writer.value.frames + Shown(es, l.cam.filters))
    decreases |es|
  {
    var w := l.cam.writer.value;
    if |es| == 0 {
      assert w.frames + [] == w.frames;
    } else {
      var next := Step(l, es[0]);
      assert Run(l, es) == Run(next, es[1..]);
      WriteTickContinues(l, es[0]);
      FrameTicksTail(es, l.cam.recordStop);
      RecordingContinues(next, es[1..]);
      ShownCons(es, l.cam.filters, w.frames);
    }
  }

  /** Dropping the first tick keeps the rest within the deadline. */
  lemma FrameTicksTail(es: seq<Event>, deadline: int)
    requires |es| > 0 && FrameTicksUntil(es, deadline)
    ensures es[0].Capture? && es[0].read.ReadFrame? && es[0].now <= deadline
    ensures FrameTicksUntil(es[1..], deadline)
  {
    forall i | 0 <= i < |es[1..]|
      ensures es[1..][i].Capture? && es[1..][i].read.ReadFrame? && es[1..][i].now <= deadline
    {
      assert es[1..][i] == es[i + 1];
    }
  }

  /** Writing the first shown frame and then the rest writes them all. */
  lemma ShownCons(es: seq<Event>, fs: seq<nat>, written: seq<Frame>)
    requires |es| > 0 && forall i :: 0 <= i < |es| ==> es[i].Capture? && es[i].read.ReadFrame?
    ensures (written + [ApplyFilters(fs, es[0].read.frame)]) + Shown(es[1..], fs) == written + Shown(es, fs)
  {
    assert Shown(es, fs) == [ApplyFilters(fs, es[0].read.frame)] + Shown(es[1..], fs);
  }

  /** A recording of D seconds, |D| at most 9_223_372_036 (about 292 years),
      zero and negative included, started with an open writer, and no stop
      command: frame ticks at instants up to start + D seconds keep recording
      and write each frame; the first frame tick after that instant writes
      its frame, finishes the file with every frame of the session, and
      clears the recording state. */
  lemma RecordingAutoStops(l: Loop, d: int64, clock: Clock, es: seq<Event>, f: Frame, reopen: OpenResult, now: int)
    requires l.phase == Running && LoopInv(l) && !l.cam.hideAll && !l.cam.recording
    requires -9_223_372_036 <= d <= 9_223_372_036
    requires FrameTicksUntil(es, clock.nanos + d as int * NanosPerSecond)
    ensures var started := Step(l, Command(CameraCmd(RECORD_START, 0, IntValue(d)), clock, WriterCreated(true)));
      var during := Run(started, es);
      && during.phase == Running && during.cam.recording && during.cam.writer.Some?
      && during.cam.writer.value.frames == Shown(es, l.cam.filters)
      && var after := Step(during, Capture(ReadFrame(f), reopen, now));
      && (now <= clock.nanos + d as int * NanosPerSecond ==> after.cam.recording)
      && (now > clock.nanos + d as int * NanosPerSecond ==>
            && !after.cam.recording && after.cam.writer.None?
            && after.cam.recordings == l.cam.recordings
                 + [Writer(RecordName.TimeName(clock.stamp), false, Shown(es, l.cam.filters) + [Frame(f.capture, f.edits + l.cam.filters)])])
  {
    var cmd := CameraCmd(RECORD_START, 0, IntValue(d));
    var started := Step(l, Command(cmd, clock, WriterCreated(true)));
    var name := RecordName.TimeName(clock.stamp);
    assert started.cam.writer == Some(Writer(name, true, []));
    assert started.cam.recordStop == clock.nanos + d as int * NanosPerSecond;
    DoCmdKeepsValid(l.cam, cmd, clock, WriterCreated(true));
    RecordingContinues(started, es);
    var during := Run(started, es);
    assert [] + Shown(es, l.cam.filters) == Shown(es, l.cam.filters);
    assert during.cam.writer == Some(Writer(name, true, Shown(es, l.cam.filters)));
    FrameTick(during, f, reopen, now);
  }

  /** A filter added with AddFilter makes the last edit on every frame the
      chain processes, after all the filters that were there before. */
  lemma AddFilterRunsLast(c: Camera, h: nat, f: Frame)
    ensures ApplyFilters(AddFilter(c, h).filters, f).edits == ApplyFilters(c.filters, f).edits + [h]
  {
    assert f.edits + (c.filters + [h]) == (f.edits + c.filters) + [h];
  }

  /** Past 9_223_372_036 seconds the nanosecond count wraps: a requested
      duration of 9_223_372_037 s yields a deadline about 292 years BEFORE the
      start, so the first frame written at or after the start instant ends
      the recording. */
  lemma HugeDurationStopsAtOnce(l: Loop, clock: Clock, f: Frame, reopen: OpenResult)
    requires l.phase == Running && LoopInv(l) && !l.cam.hideAll && !l.cam.recording
    ensures DurationNanos(9_223_372_037) as int == 9_223_372_037 * NanosPerSecond - 0x1_0000_0000_0000_0000
    ensures DurationNanos(9_223_372_037) < 0
    ensures var started := Step(l, Command(CameraCmd(RECORD_START, 0, IntValue(9_223_372_037)), clock, WriterCreated(true)));
      && started.phase == Running && started.cam.recording
      && !Step(started, Capture(ReadFrame(f), reopen, clock.nanos)).cam.recording
  {
    assert DurationNanos(9_223_372_037) as int == 9_223_372_037 * NanosPerSecond - 0x1_0000_0000_0000_0000;
    var cmd := CameraCmd(RECORD_START, 0, IntValue(9_223_372_037));
    DoCmdKeepsValid(l.cam, cmd, clock, WriterCreated(true));
    var started := Step(l, Command(cmd, clock, WriterCreated(true)));
    FrameTick(started, f, reopen, clock.nanos);
  }
}
