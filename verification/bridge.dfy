/**
 * The per-pipeline orchestration of the voice bridge.
 *
 * The device's callbacks feed one FIFO audio queue: audio chunks and, on a
 * pipeline stop, a stop sentinel. A pipeline start drains that queue, tells
 * the server that a voice session started and advances the device's
 * pipeline events; a forwarding loop then takes items off the queue, relays
 * each chunk to the server, runs the segmenter on it, and on the first stop
 * condition emits RUN_END to the device followed by voice_end to the server.
 *
 * Everything the bridge sends is appended to one output trace. The wall
 * clock appears only as a "deadline expired" observation of the loop.
 */
module Bridge {
  import opened VoiceSegmenter

  datatype Option<T> = None | Some(value: T)

  /** An item of the audio queue: a chunk from the device, or the stop sentinel. */
  datatype QueueItem = Chunk(data: seq<byte>) | Sentinel

  /** What one iteration of the forwarding loop observes. */
  datatype Event = Dequeued(item: QueueItem) | DeadlineExpired

  /** Pipeline events sent to the device. */
  datatype DeviceEvent = RunStart | SttStart | SttVadStart | RunEnd

  /** JSON messages sent to the server. */
  datatype ServerMessage =
    | VoiceStart(conversationId: string, wakeWord: string)
    | VoiceEnd(conversationId: string, audioBytes: nat)

  /** One entry of the output trace. */
  datatype Output =
    | ToDevice(event: DeviceEvent)
    | ToServer(msg: ServerMessage)
    | AudioToServer(data: seq<byte>)

  datatype StopReason = DeviceStopped | VadTimeout | VadEndOfSpeech | MaxDuration

  /** Whether the forwarding loop is still waiting for input or has stopped. */
  datatype Status = Streaming | Stopped(reason: StopReason)

  /** The four VAD durations the bridge reads from its environment, in 10 ms frames. */
  datatype VadSettings = VadSettings(speech: int, silence: int, command: int, timeout: int)

  /** The settings when the environment sets none: 0.3 s, 0.7 s, 1.0 s and 15 s. */
  const DefaultSettings := VadSettings(30, 70, 100, 1500)

  /**
   * The segmenter _forward_audio builds for each run: the four durations come
   * from the settings, the thresholds and the reset duration are the class
   * defaults; unconfigured, it is exactly the default segmenter.
   */
  function SegmenterParams(v: VadSettings): (p: Params)
    ensures p.speech == v.speech && p.silence == v.silence
    ensures p.command == v.command && p.timeout == v.timeout
    ensures p.beforeThreshold == Defaults.beforeThreshold && p.inThreshold == Defaults.inThreshold
    ensures p.reset == Defaults.reset
    ensures v == DefaultSettings ==> p == Defaults
  {
    Defaults.(speech := v.speech, silence := v.silence, command := v.command, timeout := v.timeout)
  }

  /** What handle_pipeline_start leaves behind and sends. */
  datatype Started = Started(queue: seq<QueueItem>, out: seq<Output>, port: int)

  /**
   * What the forwarding loop did with a sequence of observations: its output,
   * whether and why it stopped, the byte counter, how many observations it
   * consumed, and the segmenter it leaves behind.
   */
  datatype Forwarding = Forwarding(
    trace: seq<Output>,
    status: Status,
    audioBytes: nat,
    consumed: nat,
    seg: State
  )

  /** A pipeline run as seen from outside: start, then forwarding. */
  datatype PipelineRun = PipelineRun(trace: seq<Output>, status: Status, audioBytes: nat, port: int)

  /** handle_audio: the chunk joins the back of the queue. */
  function HandleAudio(queue: seq<QueueItem>, data: seq<byte>): (q: seq<QueueItem>)
    ensures |q| == |queue| + 1 && q[..|queue|] == queue && q[|queue|] == Chunk(data)
  {
    queue + [Chunk(data)]
  }

  /** handle_pipeline_stop: the sentinel joins the back of the queue; abort is only logged. */
  function HandlePipelineStop(queue: seq<QueueItem>, abort: bool): (q: seq<QueueItem>)
    ensures |q| == |queue| + 1 && q[..|queue|] == queue && q[|queue|] == Sentinel
  {
    queue + [Sentinel]
  }

  /** handle_audio called once per chunk, in order: the chunks join the back of the queue. */
  function QueueAudio(queue: seq<QueueItem>, chunks: seq<seq<byte>>): (q: seq<QueueItem>)
    ensures |q| == |queue| + |chunks| && q[..|queue|] == queue
    ensures forall i :: 0 <= i < |chunks| ==> q[|queue| + i] == Chunk(chunks[i])
    decreases |chunks|
  {
    if |chunks| == 0 then queue else QueueAudio(HandleAudio(queue, chunks[0]), chunks[1..])
  }

  /** The wake word as sent to the server: a missing phrase becomes "". */
  function WakeWord(phrase: Option<string>): string
  {
    match phrase
    case Some(w) => w
    case None => ""
  }

  /** voice_start to the server, then RUN_START, STT_START, STT_VAD_START to the device. */
  function Banner(conversationId: string, wakeWord: string): seq<Output>
  {
    [ToServer(VoiceStart(conversationId, wakeWord)),
     ToDevice(RunStart), ToDevice(SttStart), ToDevice(SttVadStart)]
  }

  /** RUN_END to the device, then voice_end with the byte counter to the server. */
  function Finish(conversationId: string, audioBytes: nat): seq<Output>
  {
    [ToDevice(RunEnd), ToServer(VoiceEnd(conversationId, audioBytes))]
  }

  /**
   * handle_pipeline_start: discard every stale queue item, then send the
   * banner in order, and answer port 0 (audio comes over the device link).
   */
  function HandlePipelineStart(queue: seq<QueueItem>, conversationId: string, phrase: Option<string>)
    : (r: Started)
    ensures r.queue == []
    ensures |r.out| == 4
    ensures r.out[0] == ToServer(VoiceStart(conversationId, if phrase.Some? then phrase.value else ""))
    ensures r.out[1] == ToDevice(RunStart) && r.out[2] == ToDevice(SttStart)
    ensures r.out[3] == ToDevice(SttVadStart)
    ensures r.port == 0
  {
    Started([], Banner(conversationId, WakeWord(phrase)), 0)
  }

  /** Total length of the chunks dequeued in a sequence of observations. */
  function ChunkBytes(events: seq<Event>): nat
  {
    if |events| == 0 then 0
    else
      (match events[0]
       case Dequeued(Chunk(data)) => |data|
       case _ => 0)
      + ChunkBytes(events[1..])
  }

  /** The audio frames relayed for the chunks of a sequence of observations. */
  function Forwarded(events: seq<Event>): seq<Output>
  {
    if |events| == 0 then []
    else
      (match events[0]
       case Dequeued(Chunk(data)) => [AudioToServer(data)]
       case _ => [])
      + Forwarded(events[1..])
  }

  /** Total length of the audio relayed in a trace. */
  function AudioSum(trace: seq<Output>): nat
  {
    if |trace| == 0 then 0
    else (if trace[0].AudioToServer? then |trace[0].data| else 0) + AudioSum(trace[1..])
  }

  /** The audio frames relayed for a sequence of chunks, one per chunk, in order. */
  function Relayed(chunks: seq<seq<byte>>): (t: seq<Output>)
    ensures |t| == |chunks| && forall i :: 0 <= i < |chunks| ==> t[i] == AudioToServer(chunks[i])
    decreases |chunks|
  {
    if |chunks| == 0 then [] else [AudioToServer(chunks[0])] + Relayed(chunks[1..])
  }

  /** Total length of a sequence of chunks. */
  function Lengths(chunks: seq<seq<byte>>): nat
    decreases |chunks|
  {
    if |chunks| == 0 then 0 else |chunks[0]| + Lengths(chunks[1..])
  }

  predicate IsVadStop(status: Status)
  {
    status == Stopped(VadTimeout) || status == Stopped(VadEndOfSpeech)
  }

  /**
   * The forwarding loop of _forward_audio from a given segmenter and byte
   * counter on: a deadline stops with "max duration", the sentinel with
   * "device stopped"; a chunk is counted, relayed and given to the segmenter,
   * whose stop is a "VAD timeout" when it timed out and "VAD end-of-speech"
   * otherwise. Every stop ends the trace with RUN_END, then voice_end.
   */
  function Loop(p: Params, conversationId: string, seg: State, total: nat,
                events: seq<Event>, vad: nat -> real): (r: Forwarding)
    decreases |events|
    ensures r.consumed <= |events|
    ensures r.status == Streaming ==> r.consumed == |events|
    ensures r.status.Stopped? ==> 0 < r.consumed
    ensures r.audioBytes == total + ChunkBytes(events[..r.consumed])
    ensures seg.frames <= r.seg.frames
  {
    if |events| == 0 then
      Forwarding([], Streaming, total, 0, seg)
    else
      assert events[..1] == [events[0]];
      match events[0]
      case DeadlineExpired =>
        Forwarding(Finish(conversationId, total), Stopped(MaxDuration), total, 1, seg)
      case Dequeued(Sentinel) =>
        Forwarding(Finish(conversationId, total), Stopped(DeviceStopped), total, 1, seg)
      case Dequeued(Chunk(data)) =>
        var total' := total + |data|;
        var processed := Process(p, seg, data, vad);
        if !processed.keep then
          var reason := if processed.state.det.timedOut then VadTimeout else VadEndOfSpeech;
          Forwarding([AudioToServer(data)] + Finish(conversationId, total'), Stopped(reason), total', 1, processed.state)
        else
          var rest := Loop(p, conversationId, processed.state, total', events[1..], vad);
          assert events[..rest.consumed + 1][1..] == events[1..][..rest.consumed];
          rest.(trace := [AudioToServer(data)] + rest.trace, consumed := rest.consumed + 1)
  }

  /**
   * What the loop sends and why it stops: only relayed audio until the first
   * stop condition, then RUN_END and voice_end; the stop reason names the
   * observation that caused it.
   */
  ghost predicate TraceShape(conversationId: string, events: seq<Event>, r: Forwarding)
  {
    && r.consumed <= |events|
    && (r.status == Streaming ==> r.consumed == |events| && r.trace == Forwarded(events))
    && (r.status.Stopped? ==>
          0 < r.consumed && r.trace == Forwarded(events[..r.consumed]) + Finish(conversationId, r.audioBytes))
    && (forall i :: 0 <= i < r.consumed - 1 ==> events[i].Dequeued? && events[i].item.Chunk?)
    && (r.status == Stopped(DeviceStopped) <==>
          0 < r.consumed && events[r.consumed - 1] == Dequeued(Sentinel))
    && (r.status == Stopped(MaxDuration) <==>
          0 < r.consumed && events[r.consumed - 1] == DeadlineExpired)
    && (IsVadStop(r.status) ==>
          0 < r.consumed && events[r.consumed - 1].Dequeued? && events[r.consumed - 1].item.Chunk?)
  }

  lemma {:induction false} LoopTrace(p: Params, conversationId: string, seg: State, total: nat,
                                     events: seq<Event>, vad: nat -> real)
    decreases |events|
    ensures TraceShape(conversationId, events, Loop(p, conversationId, seg, total, events, vad))
  {
    var r := Loop(p, conversationId, seg, total, events, vad);
    if |events| == 0 {
      assert r == Forwarding([], Streaming, total, 0, seg);
    } else {
      assert events[..1] == [events[0]];
      if events[0] == DeadlineExpired {
        assert r == Forwarding(Finish(conversationId, total), Stopped(MaxDuration), total, 1, seg);
      } else if events[0] == Dequeued(Sentinel) {
        assert r == Forwarding(Finish(conversationId, total), Stopped(DeviceStopped), total, 1, seg);
      } else {
        var data := events[0].item.data;
        var processed := Process(p, seg, data, vad);
        if processed.keep {
          var rest := Loop(p, conversationId, processed.state, total + |data|, events[1..], vad);
          assert r == rest.(trace := [AudioToServer(data)] + rest.trace, consumed := rest.consumed + 1);
          LoopTrace(p, conversationId, processed.state, total + |data|, events[1..], vad);
          TraceKeep(conversationId, events, rest);
        } else {
          assert r.trace == [AudioToServer(data)] + Finish(conversationId, total + |data|);
          assert r.consumed == 1 && IsVadStop(r.status);
        }
      }
    }
  }

  /** A relayed chunk in front of a trace of the right shape keeps the shape. */
  lemma TraceKeep(conversationId: string, events: seq<Event>, rest: Forwarding)
    requires |events| > 0 && events[0].Dequeued? && events[0].item.Chunk?
    requires TraceShape(conversationId, events[1..], rest)
    ensures TraceShape(conversationId, events,
      rest.(trace := [AudioToServer(events[0].item.data)] + rest.trace, consumed := rest.consumed + 1))
  {
    var k := rest.consumed + 1;
    assert events[..k][0] == events[0];
    assert events[..k][1..] == events[1..][..rest.consumed];
    if rest.status == Streaming {
      assert events[1..][..rest.consumed] == events[1..];
    }
    if rest.consumed > 0 {
      assert events[k - 1] == events[1..][rest.consumed - 1];
    }
    forall i | 0 <= i < k - 1
      ensures events[i].Dequeued? && events[i].item.Chunk?
    {
      if i > 0 {
        assert events[i] == events[1..][i - 1];
      }
    }
  }

  /**
   * The loop feeds the segmenter exactly the frames cut from the relayed
   * audio: its detector is the fold of the probability stream over those
   * frames, it stops for the VAD exactly when that fold says stop, and the
   * stop is a timeout exactly when the detector timed out.
   */
  ghost predicate DetectorShape(p: Params, seg: State, vad: nat -> real, r: Forwarding)
  {
    && seg.frames <= r.seg.frames
    && Outcome(r.seg.det, !IsVadStop(r.status)) == Run(p, seg.det, Window(vad, seg.frames, r.seg.frames))
    && (IsVadStop(r.status) ==>
          seg.frames < r.seg.frames && Run(p, seg.det, Window(vad, seg.frames, r.seg.frames - 1)).keep)
    && (r.status == Stopped(VadTimeout) <==> IsVadStop(r.status) && r.seg.det.timedOut)
  }

  lemma {:induction false} LoopDetector(p: Params, conversationId: string, seg: State, total: nat,
                                        events: seq<Event>, vad: nat -> real)
    decreases |events|
    ensures DetectorShape(p, seg, vad, Loop(p, conversationId, seg, total, events, vad))
  {
    var r := Loop(p, conversationId, seg, total, events, vad);
    if |events| == 0 || !(events[0].Dequeued? && events[0].item.Chunk?) {
      assert r.seg == seg && !IsVadStop(r.status);
      assert Window(vad, seg.frames, seg.frames) == [];
    } else {
      var data := events[0].item.data;
      var processed := Process(p, seg, data, vad);
      ProcessFrames(p, seg, data, vad);
      if processed.keep {
        var rest := Loop(p, conversationId, processed.state, total + |data|, events[1..], vad);
        assert r == rest.(trace := [AudioToServer(data)] + rest.trace, consumed := rest.consumed + 1);
        LoopDetector(p, conversationId, processed.state, total + |data|, events[1..], vad);
        DetectorKeep(p, seg, processed.state, vad, rest, [AudioToServer(data)] + rest.trace, rest.consumed + 1);
      } else {
        assert r.seg == processed.state;
        assert r.status == Stopped(if processed.state.det.timedOut then VadTimeout else VadEndOfSpeech);
      }
    }
  }

  /** A kept chunk in front of a run of the right shape keeps the shape. */
  lemma DetectorKeep(p: Params, seg: State, seg': State, vad: nat -> real, rest: Forwarding,
                     trace: seq<Output>, consumed: nat)
    requires seg.frames <= seg'.frames
    requires Outcome(seg'.det, true) == Run(p, seg.det, Window(vad, seg.frames, seg'.frames))
    requires DetectorShape(p, seg', vad, rest)
    ensures DetectorShape(p, seg, vad, rest.(trace := trace, consumed := consumed))
  {
    var a, b, c := seg.frames, seg'.frames, rest.seg.frames;
    WindowSplit(vad, a, b, c);
    RunAppend(p, seg.det, Window(vad, a, b), Window(vad, b, c));
    if IsVadStop(rest.status) {
      WindowSplit(vad, a, b, c - 1);
      RunAppend(p, seg.det, Window(vad, a, b), Window(vad, b, c - 1));
    }
  }

  /**
   * Every relayed byte is in a frame cut or still buffered, and unless the
   * VAD stopped the loop, less than a frame is left over.
   */
  ghost predicate BytesShape(r: Forwarding)
  {
    && r.seg.frames * FrameBytes + |r.seg.buf| == r.audioBytes
    && (!IsVadStop(r.status) ==> |r.seg.buf| < FrameBytes)
  }

  lemma {:induction false} LoopBytes(p: Params, conversationId: string, seg: State, total: nat,
                                     events: seq<Event>, vad: nat -> real)
    requires seg.frames * FrameBytes + |seg.buf| == total && |seg.buf| < FrameBytes
    decreases |events|
    ensures BytesShape(Loop(p, conversationId, seg, total, events, vad))
  {
    var r := Loop(p, conversationId, seg, total, events, vad);
    if |events| == 0 || !(events[0].Dequeued? && events[0].item.Chunk?) {
      assert r.seg == seg && r.audioBytes == total;
    } else {
      var data := events[0].item.data;
      var processed := Process(p, seg, data, vad);
      ProcessFrames(p, seg, data, vad);
      if processed.keep {
        var rest := Loop(p, conversationId, processed.state, total + |data|, events[1..], vad);
        assert r == rest.(trace := [AudioToServer(data)] + rest.trace, consumed := rest.consumed + 1);
        LoopBytes(p, conversationId, processed.state, total + |data|, events[1..], vad);
      } else {
        assert r.seg == processed.state && r.audioBytes == total + |data|;
      }
    }
  }

  /**
   * _forward_audio: the loop from a freshly reset segmenter and a zero byte
   * counter; `vad` answers for every frame since that reset.
   */
  function ForwardAudio(p: Params, conversationId: string, events: seq<Event>, vad: nat -> real)
    : (r: Forwarding)
    ensures r.consumed <= |events|
    ensures r.audioBytes == ChunkBytes(events[..r.consumed])
    ensures r.status == Streaming ==> r.consumed == |events| && r.trace == Forwarded(events)
    ensures r.status.Stopped? ==>
      0 < r.consumed && r.trace == Forwarded(events[..r.consumed]) + Finish(conversationId, r.audioBytes)
    ensures forall i :: 0 <= i < r.consumed - 1 ==> events[i].Dequeued? && events[i].item.Chunk?
    ensures r.status == Stopped(DeviceStopped) <==>
      0 < r.consumed && events[r.consumed - 1] == Dequeued(Sentinel)
    ensures r.status == Stopped(MaxDuration) <==>
      0 < r.consumed && events[r.consumed - 1] == DeadlineExpired
    ensures r.seg.frames * FrameBytes + |r.seg.buf| == r.audioBytes
    ensures !IsVadStop(r.status) ==> |r.seg.buf| < FrameBytes
    ensures Outcome(r.seg.det, !IsVadStop(r.status)) == Run(p, Reset(p).det, Window(vad, 0, r.seg.frames))
    ensures IsVadStop(r.status) ==> 0 < r.seg.frames && Run(p, Reset(p).det, Window(vad, 0, r.seg.frames - 1)).keep
    ensures r.status == Stopped(VadTimeout) <==> IsVadStop(r.status) && r.seg.det.timedOut
  {
    var r := Loop(p, conversationId, Reset(p), 0, events, vad);
    LoopTrace(p, conversationId, Reset(p), 0, events, vad);
    LoopDetector(p, conversationId, Reset(p), 0, events, vad);
    LoopBytes(p, conversationId, Reset(p), 0, events, vad);
    r
  }

  lemma {:induction false} AudioSumForwarded(events: seq<Event>)
    ensures AudioSum(Forwarded(events)) == ChunkBytes(events)
    ensures forall i :: 0 <= i < |Forwarded(events)| ==> Forwarded(events)[i].AudioToServer?
    decreases |events|
  {
    if |events| > 0 {
      AudioSumForwarded(events[1..]);
      var head := match events[0] case Dequeued(Chunk(data)) => [AudioToServer(data)] case _ => [];
      AudioSumAppend(head, Forwarded(events[1..]));
    }
  }

  lemma {:induction false} AudioSumAppend(a: seq<Output>, b: seq<Output>)
    ensures AudioSum(a + b) == AudioSum(a) + AudioSum(b)
    decreases |a|
  {
    if |a| == 0 {
      assert a + b == b;
    } else {
      assert (a + b)[0] == a[0];
      assert (a + b)[1..] == a[1..] + b;
      AudioSumAppend(a[1..], b);
    }
  }

  /**
   * The shape of every session trace: the banner; then only relayed audio;
   * then, once stopped, RUN_END followed by a voice_end whose byte counter
   * is the total of the relayed audio.
   */
  ghost predicate SessionTrace(t: seq<Output>, conversationId: string, wakeWord: string, stopped: bool)
  {
    var tail := if stopped then 2 else 0;
    && |t| >= 4 + tail
    && t[..4] == Banner(conversationId, wakeWord)
    && (forall i :: 4 <= i < |t| - tail ==> t[i].AudioToServer?)
    && (stopped ==>
          t[|t| - 2] == ToDevice(RunEnd)
          && t[|t| - 1] == ToServer(VoiceEnd(conversationId, AudioSum(t[4..|t| - 2]))))
  }

  /**
   * A whole pipeline run: the start handler's output, then the output of the
   * forwarding loop it starts with the segmenter the settings describe.
   */
  function Pipeline(settings: VadSettings, queue: seq<QueueItem>, conversationId: string,
                    phrase: Option<string>, events: seq<Event>, vad: nat -> real): (r: PipelineRun)
    ensures SessionTrace(r.trace, conversationId, WakeWord(phrase), r.status.Stopped?)
    ensures r.port == 0
    ensures r.status.Stopped? ==> r.audioBytes == AudioSum(r.trace)
  {
    var s := HandlePipelineStart(queue, conversationId, phrase);
    var f := ForwardAudio(SegmenterParams(settings), conversationId, events, vad);
    StartThenForward(conversationId, WakeWord(phrase), f, events);
    PipelineRun(s.out + f.trace, f.status, f.audioBytes, s.port)
  }

  lemma StartThenForward(conversationId: string, wakeWord: string, f: Forwarding, events: seq<Event>)
    requires f.consumed <= |events|
    requires f.audioBytes == ChunkBytes(events[..f.consumed])
    requires f.status == Streaming ==> f.consumed == |events| && f.trace == Forwarded(events)
    requires f.status.Stopped? ==>
      f.trace == Forwarded(events[..f.consumed]) + Finish(conversationId, f.audioBytes)
    ensures SessionTrace(Banner(conversationId, wakeWord) + f.trace, conversationId, wakeWord, f.status.Stopped?)
    ensures f.status.Stopped? ==> f.audioBytes == AudioSum(Banner(conversationId, wakeWord) + f.trace)
  {
    var fw := Forwarded(events[..f.consumed]);
    var closing := if f.status.Stopped? then Finish(conversationId, f.audioBytes) else [];
    AudioSumForwarded(events[..f.consumed]);
    if f.status == Streaming {
      assert events[..f.consumed] == events;
    }
    assert f.trace == fw + closing;
    SessionOf(conversationId, wakeWord, fw, f.status.Stopped?, f.audioBytes);
    assert Banner(conversationId, wakeWord) + f.trace == Banner(conversationId, wakeWord) + fw + closing;
  }

  /** The banner, relayed audio, and (once stopped) the closing pair form a session trace. */
  lemma SessionOf(conversationId: string, wakeWord: string, audio: seq<Output>, stopped: bool, n: nat)
    requires forall i :: 0 <= i < |audio| ==> audio[i].AudioToServer?
    requires AudioSum(audio) == n
    ensures var t := Banner(conversationId, wakeWord) + audio + (if stopped then Finish(conversationId, n) else []);
      SessionTrace(t, conversationId, wakeWord, stopped) && AudioSum(t) == n
  {
    var b := Banner(conversationId, wakeWord);
    var e := if stopped then Finish(conversationId, n) else [];
    var t := b + audio + e;
    assert t[..4] == b;
    assert t[4..|t| - |e|] == audio;
    NoAudio(b);
    NoAudio(e);
    AudioSumAppend(b, audio);
    AudioSumAppend(b + audio, e);
  }

  lemma {:induction false} NoAudio(t: seq<Output>)
    requires forall i :: 0 <= i < |t| ==> !t[i].AudioToServer?
    ensures AudioSum(t) == 0
    decreases |t|
  {
    if |t| > 0 {
      NoAudio(t[1..]);
    }
  }

  /** Along any session trace, RUN_END is sent at most once and before voice_end. */
  lemma RunEndBeforeVoiceEnd(t: seq<Output>, conversationId: string, wakeWord: string, stopped: bool,
                             i: nat, j: nat)
    requires SessionTrace(t, conversationId, wakeWord, stopped)
    requires i < |t| && j < |t| && t[i] == ToDevice(RunEnd) && t[j].ToServer? && t[j].msg.VoiceEnd?
    ensures stopped && i == |t| - 2 && j == |t| - 1
  {
  }

  /**
   * The segmenter's timeout counts only the frames the VAD model answered for:
   * a "VAD timeout" stop has fed it exactly timeout such frames, and any
   * other outcome fewer.
   */
  lemma ForwardTimeoutActive(p: Params, conversationId: string, events: seq<Event>, vad: nat -> real)
    requires p.timeout >= 1
    ensures var r := ForwardAudio(p, conversationId, events, vad);
      && (r.status == Stopped(VadTimeout) ==> Active(Window(vad, 0, r.seg.frames)) == p.timeout)
      && (r.status != Stopped(VadTimeout) ==> Active(Window(vad, 0, r.seg.frames)) < p.timeout)
  {
    var r := ForwardAudio(p, conversationId, events, vad);
    var n := r.seg.frames;
    var w := Window(vad, 0, n);
    var d0 := Reset(p).det;
    if IsVadStop(r.status) {
      var pre := w[..n - 1];
      assert pre == Window(vad, 0, n - 1);
      assert w == pre + [w[n - 1]];
      ActiveSnoc(pre, w[n - 1]);
      RunLast(p, d0, w);
      var dn := Run(p, d0, pre).state;
      assert dn.timeoutLeft == p.timeout - Active(pre) && !dn.timedOut;
      assert w[n - 1] >= 0.0;
    }
  }

  /**
   * Without warm-up frames the segmenter's timeout fires at exactly the
   * timeout-th frame: a "VAD timeout" stop has fed the VAD exactly that many
   * frames, and any other outcome fewer; a run the VAD did not stop has
   * relayed less than the timeout's worth of audio.
   */
  lemma ForwardTimeout(p: Params, conversationId: string, events: seq<Event>, vad: nat -> real)
    requires p.timeout >= 1
    requires forall i: nat :: vad(i) >= 0.0
    ensures var r := ForwardAudio(p, conversationId, events, vad);
      && (r.status == Stopped(VadTimeout) ==> r.seg.frames == p.timeout)
      && (r.status != Stopped(VadTimeout) ==> r.seg.frames < p.timeout)
      && (!IsVadStop(r.status) ==> r.audioBytes < p.timeout * FrameBytes)
  {
    var r := ForwardAudio(p, conversationId, events, vad);
    var n := r.seg.frames;
    AllActive(Window(vad, 0, n));
    ForwardTimeoutActive(p, conversationId, events, vad);
    if !IsVadStop(r.status) {
      assert (n + 1) * FrameBytes <= p.timeout * FrameBytes;
    }
  }

  /** What the loop observes when it takes the items of a queue in order, before any deadline. */
  function Arrivals(queue: seq<QueueItem>): (events: seq<Event>)
    ensures |events| == |queue|
    ensures forall i :: 0 <= i < |queue| ==> events[i] == Dequeued(queue[i])
  {
    seq(|queue|, i requires 0 <= i < |queue| => Dequeued(queue[i]))
  }

  /**
   * A queue of chunks ending in the stop sentinel, taken in order with no
   * deadline expiring: the loop stops either for the VAD or, having relayed
   * every chunk, as "device stopped" with the total length of all the chunks.
   */
  lemma StopAfterQueue(p: Params, conversationId: string, queue: seq<QueueItem>, vad: nat -> real)
    requires |queue| > 0 && queue[|queue| - 1] == Sentinel
    requires forall i :: 0 <= i < |queue| - 1 ==> queue[i].Chunk?
    ensures var r := ForwardAudio(p, conversationId, Arrivals(queue), vad);
      && (r.status == Stopped(DeviceStopped) || IsVadStop(r.status))
      && (r.status == Stopped(DeviceStopped) ==>
            r.consumed == |queue| && r.audioBytes == ChunkBytes(Arrivals(queue)))
  {
    var events := Arrivals(queue);
    var r := ForwardAudio(p, conversationId, events, vad);
    if r.status.Stopped? {
      assert events[r.consumed - 1] == Dequeued(queue[r.consumed - 1]);
      assert r.status.reason != MaxDuration;
    }
    if r.status == Stopped(DeviceStopped) {
      assert queue[r.consumed - 1] == Sentinel;
      assert events[..r.consumed] == events;
    }
  }

  lemma {:induction false} AllActive(probs: seq<real>)
    requires forall i :: 0 <= i < |probs| ==> probs[i] >= 0.0
    ensures Active(probs) == |probs|
    decreases |probs|
  {
    if |probs| > 0 {
      AllActive(probs[1..]);
    }
  }

  /** The observations of a queue holding exactly these chunks, in order. */
  function ChunkEvents(chunks: seq<seq<byte>>): (events: seq<Event>)
    ensures |events| == |chunks|
    ensures forall i :: 0 <= i < |chunks| ==> events[i] == Dequeued(Chunk(chunks[i]))
  {
    seq(|chunks|, i requires 0 <= i < |chunks| => Dequeued(Chunk(chunks[i])))
  }

  /** Relaying chunk observations, followed by at most one non-chunk observation. */
  lemma {:induction false} RelayChunks(chunks: seq<seq<byte>>, last: seq<Event>)
    requires |last| <= 1 && (|last| == 1 ==> !(last[0].Dequeued? && last[0].item.Chunk?))
    ensures Forwarded(ChunkEvents(chunks) + last) == Relayed(chunks)
    ensures ChunkBytes(ChunkEvents(chunks) + last) == Lengths(chunks)
    decreases |chunks|
  {
    var e := ChunkEvents(chunks) + last;
    if |chunks| == 0 {
      assert e == last;
      if |last| == 1 {
        assert last[1..] == [];
      }
    } else {
      assert e[0] == Dequeued(Chunk(chunks[0]));
      assert e[1..] == ChunkEvents(chunks[1..]) + last;
      RelayChunks(chunks[1..], last);
    }
  }

  /**
   * What the loop observes for a queue built by handle_audio for each chunk
   * and then handle_pipeline_stop: the chunks in order, then the sentinel.
   */
  lemma QueueEvents(chunks: seq<seq<byte>>, abort: bool)
    ensures var queue := HandlePipelineStop(QueueAudio([], chunks), abort);
      && queue[|queue| - 1] == Sentinel
      && (forall i :: 0 <= i < |queue| - 1 ==> queue[i].Chunk?)
      && Arrivals(queue) == ChunkEvents(chunks) + [Dequeued(Sentinel)]
  {
    var queue := HandlePipelineStop(QueueAudio([], chunks), abort);
    var e := ChunkEvents(chunks) + [Dequeued(Sentinel)];
    forall i | 0 <= i < |queue|
      ensures Arrivals(queue)[i] == e[i]
      ensures i < |queue| - 1 ==> queue[i].Chunk?
    {
      if i < |chunks| {
        assert queue[i] == QueueAudio([], chunks)[i];
      }
    }
  }

  /** The relay facts of a run over chunk observations that stopped as its status says. */
  lemma RelayedPrefix(conversationId: string, chunks: seq<seq<byte>>, f: Forwarding)
    requires f.status == Stopped(DeviceStopped) || IsVadStop(f.status)
    requires var events := ChunkEvents(chunks) + [Dequeued(Sentinel)];
      && 0 < f.consumed <= |events|
      && (f.status == Stopped(DeviceStopped) ==> f.consumed == |events|)
      && (IsVadStop(f.status) ==> events[f.consumed - 1].item.Chunk?)
      && f.audioBytes == ChunkBytes(events[..f.consumed])
      && f.trace == Forwarded(events[..f.consumed]) + Finish(conversationId, f.audioBytes)
    ensures var k := if f.status == Stopped(DeviceStopped) then |chunks| else f.consumed;
      && (IsVadStop(f.status) ==> f.consumed <= |chunks|)
      && k <= |chunks|
      && f.audioBytes == Lengths(chunks[..k])
      && f.trace == Relayed(chunks[..k]) + Finish(conversationId, f.audioBytes)
  {
    var events := ChunkEvents(chunks) + [Dequeued(Sentinel)];
    if f.status == Stopped(DeviceStopped) {
      assert events[..f.consumed] == events;
      RelayChunks(chunks, [Dequeued(Sentinel)]);
      assert chunks[..|chunks|] == chunks;
    } else {
      assert f.consumed <= |chunks|;
      assert events[..f.consumed] == ChunkEvents(chunks[..f.consumed]) + [];
      RelayChunks(chunks[..f.consumed], []);
    }
  }

  /**
   * A device session as the callbacks queue it: handle_audio for each chunk,
   * then handle_pipeline_stop (with any abort flag), taken in order with no
   * deadline expiring. The loop stops for the VAD on some chunk, or as
   * "device stopped" after every chunk; either way it relayed exactly the
   * chunks up to the stop, in order, and voice_end carries their total length.
   */
  lemma QueuedSession(p: Params, conversationId: string, chunks: seq<seq<byte>>, abort: bool,
                      vad: nat -> real)
    ensures var queue := HandlePipelineStop(QueueAudio([], chunks), abort);
      var r := ForwardAudio(p, conversationId, Arrivals(queue), vad);
      var k := if r.status == Stopped(DeviceStopped) then |chunks| else r.consumed;
      && (r.status == Stopped(DeviceStopped) || IsVadStop(r.status))
      && (r.status == Stopped(DeviceStopped) ==> r.consumed == |chunks| + 1)
      && (IsVadStop(r.status) ==> 0 < r.consumed <= |chunks|)
      && k <= |chunks|
      && r.audioBytes == Lengths(chunks[..k])
      && r.trace == Relayed(chunks[..k]) + Finish(conversationId, r.audioBytes)
  {
    var queue := HandlePipelineStop(QueueAudio([], chunks), abort);
    var events := Arrivals(queue);
    QueueEvents(chunks, abort);
    StopAfterQueue(p, conversationId, queue, vad);
    var r := ForwardAudio(p, conversationId, events, vad);
    if IsVadStop(r.status) {
      assert events[r.consumed - 1].item.Chunk?;
    }
    RelayedPrefix(conversationId, chunks, r);
  }

  /**
   * A session after a pipeline start: whatever was left in the queue, the
   * start drains it, so the loop sees only the chunks queued since and the
   * sentinel. Nothing stale is relayed or counted, and a stale sentinel
   * cannot end the run.
   */
  lemma DrainedSession(p: Params, conversationId: string, phrase: Option<string>, stale: seq<QueueItem>,
                       chunks: seq<seq<byte>>, abort: bool, vad: nat -> real)
    ensures var s := HandlePipelineStart(stale, conversationId, phrase);
      var queue := HandlePipelineStop(QueueAudio(s.queue, chunks), abort);
      var r := ForwardAudio(p, conversationId, Arrivals(queue), vad);
      var k := if r.status == Stopped(DeviceStopped) then |chunks| else r.consumed;
      && (r.status == Stopped(DeviceStopped) || IsVadStop(r.status))
      && (r.status == Stopped(DeviceStopped) ==> r.consumed == |chunks| + 1)
      && (IsVadStop(r.status) ==> 0 < r.consumed <= |chunks|)
      && k <= |chunks|
      && r.audioBytes == Lengths(chunks[..k])
      && r.trace == Relayed(chunks[..k]) + Finish(conversationId, r.audioBytes)
  {
    assert HandlePipelineStart(stale, conversationId, phrase).queue == [];
    QueuedSession(p, conversationId, chunks, abort, vad);
  }
}
