/** `HandleRecord.ServeHTTP` in web/handle_record.go: from the camera's flags
    and the request's `duration` values to the command sent and the reply. */
module Web {
  import opened Wrappers
  import opened Decimal
  import opened Vision

  /** What one request produces: the command pushed onto the camera's command
      channel, if any, and the response body ("" when nothing is written). */
  datatype Reply = Reply(command: Option<CameraCmd>, body: string)

  const DefaultDurationSeconds: int64 := 5

  /** The recording length asked for: the first `duration` value when `Atoi`
      accepts it, else 5. There is no range check. */
  function QueryDuration(query: map<string, seq<string>>): (d: int64)
    ensures d != DefaultDurationSeconds ==>
              "duration" in query && |query["duration"]| > 0 && ParseInt(query["duration"][0]) == Some(d)
    ensures "duration" in query && |query["duration"]| > 0 && ParseInt(query["duration"][0]).Some? ==>
              d == ParseInt(query["duration"][0]).value
    ensures "duration" !in query || |query["duration"]| == 0 ==> d == DefaultDurationSeconds
  {
    if "duration" in query && |query["duration"]| > 0 then
      ParseInt(query["duration"][0]).GetOr(DefaultDurationSeconds)
    else DefaultDurationSeconds
  }

  /** The body `fmt.Sprintln("record for", d, "seconds")` writes. */
  function StartMessage(d: int64): string
  {
    "record for " + ShowInt(d as int) + " seconds\n"
  }

  /** The handler's decision. `cam` is None for a nil camera. An idle camera
      gets nothing. Otherwise the command toggles recording (stop when
      recording, start otherwise) and always carries the int duration. */
  function HandleRecord(cam: Option<Camera>, query: map<string, seq<string>>): (r: Reply)
    ensures r.command.Some? <==> cam.Some? && cam.value.busy
    ensures r.command.None? ==> r.body == ""
    ensures r.command.Some? ==>
              && r.command.value.value == IntValue(QueryDuration(query))
              && (r.command.value.action == RECORD_STOP <==> cam.value.recording)
              && (r.command.value.action == RECORD_START <==> !cam.value.recording)
              && (r.body == "stop" <==> cam.value.recording)
    ensures r.command.Some? && !cam.value.recording ==> r.body == StartMessage(QueryDuration(query))
  {
    match cam
    case None => Reply(None, "")
    case Some(c) =>
      if !c.busy then Reply(None, "")
      else
        var d := QueryDuration(query);
        if c.recording then Reply(Some(CameraCmd(RECORD_STOP, 0, IntValue(d))), "stop")
        else Reply(Some(CameraCmd(RECORD_START, 0, IntValue(d))), StartMessage(d))
  }

  /** Any 64-bit count of seconds, zero and negatives included, written as a
      decimal first `duration` value, is the duration used; later values are
      ignored. */
  lemma QueryDurationRoundTrip(n: int64, rest: seq<string>, query: map<string, seq<string>>)
    ensures QueryDuration(query["duration" := [ShowInt(n as int)] + rest]) == n
  {
    ParseShowInt(n);
  }

  /** A first `duration` value that `Atoi` rejects falls back to 5. */
  lemma QueryDurationFallback(s: string, rest: seq<string>, query: map<string, seq<string>>)
    requires ParseInt(s).None?
    ensures QueryDuration(query["duration" := [s] + rest]) == DefaultDurationSeconds
  {
  }

  /** The start reply names the duration, and only the start reply can be
      read back as one: "stop" is never a start message. */
  lemma StartMessageNamesDuration(d: int64)
    ensures var m := StartMessage(d);
      && m[..11] == "record for "
      && m[|m| - 9..] == " seconds\n"
      && ParseInt(m[11..|m| - 9]) == Some(d)
      && m != "stop"
  {
    var m := StartMessage(d);
    assert m[11..|m| - 9] == ShowInt(d as int);
    ParseShowInt(d);
  }

  /** The handler's command composed with `doCmd` on a busy camera: it never
      panics (the payload is always an int), a recording camera ends up
      stopped with no writer, and an idle recorder whose writer opens starts
      a session whose deadline is the requested number of seconds away. */
  lemma HandlerThenDoCmd(c: Camera, query: map<string, seq<string>>, clock: Clock, outcome: WriterOpen)
    requires Valid(c) && c.busy
    ensures var r := HandleRecord(Some(c), query);
      && r.command.Some?
      && DoCmd(c, r.command.value, clock, outcome).Some?
      && var c' := DoCmd(c, r.command.value, clock, outcome).value;
      && Valid(c')
      && (c.recording ==> !c'.recording && c'.writer.None?)
      && (!c.recording && outcome.WriterCreated? ==>
            c'.recording && c'.recordStop == clock.nanos + DurationNanos(QueryDuration(query)) as int)
      && (!c.recording && outcome.WriterFailed? ==> c' == c)
  {
    DoCmdKeepsValid(c, HandleRecord(Some(c), query).command.value, clock, outcome);
  }
}
