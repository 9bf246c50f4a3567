# voice-bridge: the segmenter and the pipeline loop, in Dafny

This project models the core of the voice bridge in `voice-bridge/bridge.py`. The bridge sits between an ESPHome voice
satellite and a home-automation server. It has two parts.

**`VoiceSegmenter` (module `VoiceSegmenter`, `segmenter.dfy`)** is the bridge's local end-of-command detector.
- Raw 16 kHz 16-bit PCM is buffered and cut into 10 ms frames of 320 bytes.
- Each frame gets a speech probability from the voice-activity model. A negative probability is a warm-up frame and is skipped.
- A two-state machine runs over the probabilities. In WAITING it looks for enough speech to start a command; in IN_COMMAND it
  looks for enough trailing silence to end it. Five countdown counters drive it: speech, silence, command, timeout and reset.
- Its answer is "keep streaming" or "stop". A `timedOut` flag tells a hard timeout apart from a normal end of speech.
- Every duration is an integer count of 10 ms frames (seconds × 100).
- The detector state (`Detector`) is kept apart from the byte buffer (`State`). So `Run`, the fold of the detector over a
  probability stream, can be reasoned about independently of buffering. `Process` is then proved to feed `Run` exactly the
  frames it cuts.

**The per-pipeline orchestration of `VoiceBridge` (module `Bridge`, `bridge.dfy`)**:
- `handle_audio` and `handle_pipeline_stop` append a chunk or the stop sentinel to the audio queue.
- `handle_pipeline_start` drains the queue, sends `voice_start` and the three opening device events, and answers port 0.
- `_forward_audio` is a pure function over what its loop observes: a dequeued chunk, the dequeued sentinel, or "the deadline
  has passed". It produces the output trace (device events, server JSON messages, relayed audio), the stop reason, the
  `audio_bytes` counter and the segmenter it leaves behind.
- `Pipeline` composes the start handler with one forwarding run. Every such trace is proved to be the banner
  followed by relayed audio and, once the run has stopped, RUN_END and `voice_end`. The `voice_end` byte count is the
  total of the relayed audio.

The voice-activity model is a foreign component and is represented as a parameter `vad: nat -> real`. It gives the
probability the model reports for the n-th frame since the last reset. This is a stream as long as the audio lasts, so no
operation needs a precondition about its length. The fold lemmas read it through `Window(vad, lo, hi)`, the sequence of
probabilities of frames `lo .. hi - 1`.

The bridge builds its segmenter from four durations read from its environment (`VadSettings`, `SegmenterParams`). The
thresholds and the reset duration keep the class defaults.

`handle_pipeline_start` does not check for a forwarding task that is still running: it drains the queue and starts
another one (voice-bridge/bridge.py:284-310). The model covers one start and the forwarding run that start launches.

## Model

| member | source | states |
|---|---|---|
| VoiceSegmenter.Reset | voice-bridge/bridge.py:120-130 | after reset both flags are false, speech/silence/timeout/reset counters are full, the command counter is command − speech, the buffer is empty and no frame has been cut |
| VoiceSegmenter.Step | voice-bridge/bridge.py:158-203 | every non-warm-up frame spends one frame of the timeout in either state; timedOut is raised exactly when the timeout runs out and is never cleared; a timeout stops with no other counter touched; inCommand is never cleared; a stop that is not a timeout happens only on a silence frame inside a command after which the silence and command counters are both spent |
| VoiceSegmenter.WaitingSpeechFrame | voice-bridge/bridge.py:167-176 | in WAITING a frame above the before-command threshold restores the reset counter, spends one speech frame, keeps streaming, and enters IN_COMMAND (with command and silence counters refilled) exactly when the speech counter is spent |
| VoiceSegmenter.WaitingSilenceFrame | voice-bridge/bridge.py:177-183 | in WAITING a frame at or below the threshold keeps streaming and stays WAITING; it spends one reset frame, and when the reset counter is spent it restores both speech and reset counters |
| VoiceSegmenter.CommandSpeechFrame | voice-bridge/bridge.py:195-201 | in IN_COMMAND a speech frame never stops and stays IN_COMMAND; it spends one command frame and one reset frame, restores the silence counter when the reset counter is spent, and leaves the speech counter untouched |
| VoiceSegmenter.CommandSilenceFrame | voice-bridge/bridge.py:186-194 | in IN_COMMAND a frame at or below the in-command threshold stays IN_COMMAND, restores the reset counter, spends one silence and one command frame, leaves the speech counter untouched, and stops if and only if both are spent |
| VoiceSegmenter.Frame | voice-bridge/bridge.py:148-154 | a warm-up frame (negative probability) leaves every counter and flag unchanged and keeps streaming |
| VoiceSegmenter.Run | voice-bridge/bridge.py:144-156 | over any probability stream: inCommand is monotone; while streaming, the timeout counter dropped by exactly the number of non-warm-up frames and is still positive, and timedOut is unchanged; a newly raised timedOut means stop; a stop without timedOut is an end of command with silence and command counters spent |
| VoiceSegmenter.RunAppend | voice-bridge/bridge.py:144-156 | processing a + b is processing a and then, only if still streaming, b |
| VoiceSegmenter.RunLast | voice-bridge/bridge.py:144-156 | when a stream's prefix keeps streaming, the result is decided by its last frame alone |
| VoiceSegmenter.WarmUpIgnored | voice-bridge/bridge.py:149-152 | the detector's result over a stream equals its result over the stream with warm-up frames removed, and the active-frame count is the length of that filtered stream |
| VoiceSegmenter.ResetConsistent | voice-bridge/bridge.py:120-130 | a reset detector of a valid configuration satisfies the reachable-state invariant (reset counter in 1..reset, timedOut iff the timeout is spent, WAITING counters in range) |
| VoiceSegmenter.RunConsistent | voice-bridge/bridge.py:158-203 | the reachable-state invariant is preserved by processing any stream of frames |
| VoiceSegmenter.WaitingSpeech | voice-bridge/bridge.py:167-176 | in WAITING, exactly speechLeft frames of speech enter IN_COMMAND (one frame fewer keeps streaming and stays WAITING), still streaming, with command, silence and reset counters refilled and the timeout spent by that many frames |
| VoiceSegmenter.CommandSpeech | voice-bridge/bridge.py:195-201 | in IN_COMMAND any number of speech frames keep streaming, keep the silence counter full and spend one command frame each |
| VoiceSegmenter.CommandSilence | voice-bridge/bridge.py:186-194 | in IN_COMMAND with no more command frames left than silence frames (commandLeft ≤ silenceLeft), silence stops the detector (not by timeout) at exactly the silenceLeft-th frame and not before |
| VoiceSegmenter.EndOfSpeech | voice-bridge/bridge.py:158-203 | from reset, at least command frames of clear speech followed by at least silence frames of silence stop the detector inside a command without a timeout, and it is still streaming one silent frame earlier |
| VoiceSegmenter.WaitingQuiet | voice-bridge/bridge.py:160-183 | in WAITING, silence never starts a command and the timeout stops the detector at exactly the timeoutLeft-th frame |
| VoiceSegmenter.SilenceTimesOut | voice-bridge/bridge.py:160-165 | for any configuration with a positive timeout: from reset, silence lasting the timeout stops with timedOut set and no command entered, and one frame less keeps streaming |
| VoiceSegmenter.CutFrames | voice-bridge/bridge.py:144-156 | the buffering loop cuts at most one frame per 320 buffered bytes, and after "keep streaming" fewer than 320 bytes are left |
| VoiceSegmenter.CutFramesCount | voice-bridge/bridge.py:144-147 | each frame cut consumes 320 bytes off the front: what remains is the unconsumed suffix, and after "keep streaming" every complete frame was cut |
| VoiceSegmenter.CutFramesFolds | voice-bridge/bridge.py:144-156 | the detector after cutting is the fold over exactly the probabilities of the frames cut, in order, and a stop happens on the last frame cut and not earlier |
| VoiceSegmenter.Process | voice-bridge/bridge.py:140-156 | process never un-cuts frames, and when it answers "keep streaming" less than one frame is buffered |
| VoiceSegmenter.ProcessFrames | voice-bridge/bridge.py:140-156 | every byte of old buffer plus new audio is in a cut frame or still buffered; the buffer is the unconsumed suffix of old buffer followed by new audio; after "keep streaming" all complete frames were cut; the detector saw exactly the cut frames' probabilities in order and stopped on the last |
| Bridge.SegmenterParams | voice-bridge/bridge.py:333-338 | the forwarding loop's segmenter takes speech, silence, command and timeout from the settings and keeps the class thresholds and reset duration; with nothing configured it is exactly the default segmenter |
| Bridge.HandleAudio | voice-bridge/bridge.py:315-317 | the chunk is appended at the back of the queue and nothing already queued changes |
| Bridge.HandlePipelineStop | voice-bridge/bridge.py:319-322 | the stop sentinel is appended at the back of the queue whatever abort is, and nothing already queued changes |
| Bridge.HandlePipelineStart | voice-bridge/bridge.py:269-313 | the queue is empty afterwards; exactly four messages go out in the order voice_start (with the conversation id and the wake word, "" when absent), RUN_START, STT_START, STT_VAD_START; the answer is port 0 |
| Bridge.Loop | voice-bridge/bridge.py:341-373 | the loop consumes observations up to and including the first stop condition and all of them if none occurs, and the byte counter grows by exactly the lengths of the chunks consumed |
| Bridge.LoopTrace | voice-bridge/bridge.py:341-395 | until a stop the loop emits only the relayed chunks in order; a stop appends RUN_END then voice_end with the byte counter; everything consumed before the stop is a chunk; "device stopped" iff the last observation is the sentinel, "max duration" iff it is the deadline, a VAD stop only on a chunk |
| Bridge.LoopDetector | voice-bridge/bridge.py:362-371 | the segmenter's detector is the fold of the probabilities of exactly the frames cut from the relayed audio; the loop stops for the VAD exactly when that fold says stop, on its last frame; the stop is "VAD timeout" iff the detector timed out |
| Bridge.LoopBytes | voice-bridge/bridge.py:362-366 | every relayed byte is in a frame given to the VAD or still buffered in the segmenter, and less than one frame is buffered unless the VAD stopped the loop |
| Bridge.ForwardAudio | voice-bridge/bridge.py:324-395 | from a fresh segmenter and a zero counter: audio_bytes is the total length of the chunks dequeued before the stop; the trace is the relayed chunks, then RUN_END and voice_end(audio_bytes) if stopped; the stop reason matches the stopping observation; the VAD saw exactly the relayed audio's frames |
| Bridge.Pipeline | voice-bridge/bridge.py:269-395 | a whole session's trace is voice_start, RUN_START, STT_START, STT_VAD_START, then only relayed audio, then (once stopped) RUN_END followed by voice_end whose byte count is the total audio relayed; the start answers port 0 |
| Bridge.RunEndBeforeVoiceEnd | voice-bridge/bridge.py:375-395 | in any session trace RUN_END and voice_end occur only as the last two entries, RUN_END first, and only once the session stopped |
| Bridge.ForwardTimeout | voice-bridge/bridge.py:160-165 | for any configuration with a positive timeout and without warm-up frames, a "VAD timeout" stop comes after exactly timeout frames, any other outcome after fewer, and a run the VAD did not stop relayed less than timeout × 320 bytes |
| Bridge.StopAfterQueue | voice-bridge/bridge.py:341-360 | a queue of chunks ending in the stop sentinel, taken in order with no deadline expiring, ends the run either for the VAD or as "device stopped" after every chunk, with audio_bytes the total length of all chunks |
| Bridge.QueueAudio | voice-bridge/bridge.py:315-317 | handle_audio called for each chunk in turn leaves the earlier queue as it was, followed by the chunks in the order they arrived |
| Bridge.QueueEvents | voice-bridge/bridge.py:315-322 | a queue filled by handle_audio for each chunk and then handle_pipeline_stop (whatever abort is) holds only chunks before its last item, the sentinel; the loop dequeues the chunks in order, then the sentinel |
| Bridge.QueuedSession | voice-bridge/bridge.py:315-395 | for a session queued by handle_audio for each chunk then handle_pipeline_stop, with no deadline expiring: the run stops either for the VAD on one of the chunks or as "device stopped" after all of them; the trace is exactly the chunks up to the stop, relayed in order, then RUN_END and voice_end; audio_bytes is their total length |
| Bridge.ForwardTimeoutActive | voice-bridge/bridge.py:148-165 | for any configuration with a positive timeout and any probability stream, warm-up frames included, a "VAD timeout" stop has fed the model exactly timeout non-warm-up frames, and any other outcome fewer |
| Bridge.DrainedSession | voice-bridge/bridge.py:284-289 | whatever a pipeline start finds left in the queue, the run it starts relays and counts only the chunks queued after it, in order, and stops for the VAD or as "device stopped" after all of them; a stale sentinel or chunk never reaches the loop |
| VoiceSegmenter.ActiveSnoc | voice-bridge/bridge.py:149-152 | a frame added at the end of a stream adds one active frame unless it is a warm-up frame |

## Left out

- The voice-activity model (`MicroVad`): a foreign acoustic model, represented by the probability oracle `vad`.
- Float-second counters: the counters are integer frame counts, so the rounding of repeated `-= 0.01` on floats is not
  reproduced (a float countdown may need one frame more or fewer than the integer one).
- Websocket and ESPHome I/O (`_ensure_ws`, `_ws_send_json`, `_ws_send_binary`, the API client): a send is an entry appended
  to the output trace; send failures, dropped audio while disconnected and reconnection are not modelled.
- asyncio concurrency: task creation, the queue shared between callbacks and the loop, and `wait_for` polling. A poll that
  times out before the deadline only loops again, so it is simply the absence of an observation. The real-time deadline is
  the `DeadlineExpired` observation.
- Task cancellation (stop reason "cancelled") and the "unknown" reason left by other exceptions: both need cancellation or
  exceptions from the omitted I/O.
- The stop-reason strings with their formatted seconds, logging and the logged duration: the stop reason is an enumeration.
- `handle_pipeline_start`'s `audio_settings` parameter is unused; its `flags` and `handle_pipeline_stop`'s `abort` are only
  logged.
- A second pipeline start while a forwarding task is still running (two concurrent loops on one queue): concurrency.
- Connection lifecycle, configuration parsing, `on_connect`, `run`, `main`.
- Bridge.Loop: its own contract states only what is consumed and counted; the trace, the detector and the byte
  accounting it promises are stated by Bridge.LoopTrace, Bridge.LoopDetector and Bridge.LoopBytes.
- VoiceSegmenter.Process: its own contract states only frame and buffer bounds; the byte accounting, the suffix and the
  probability fold are stated by VoiceSegmenter.ProcessFrames.
