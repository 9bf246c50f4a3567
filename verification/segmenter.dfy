/**
 * The voice bridge's local end-of-command detector.
 *
 * A segmenter is fed raw 16 kHz 16-bit mono PCM. It cuts the bytes into
 * 10 ms frames of 320 bytes, asks the voice-activity model for a speech
 * probability per frame, and runs a two-state machine (WAITING, IN_COMMAND)
 * over those probabilities with five countdown counters. Its answer is
 * "keep streaming" (true) or "stop" (false); the timedOut flag tells a hard
 * timeout apart from a normal end of speech.
 *
 * Every duration is a count of 10 ms frames (seconds × 100). The acoustic
 * model is not part of this model: the probability of the n-th frame cut
 * since the last reset is the n-th entry of a probability stream supplied
 * by the caller, and a negative entry means "the model is still warming up".
 */
module VoiceSegmenter {

  /** One byte of PCM audio. */
  newtype byte = x: int | 0 <= x < 256

  /** Bytes per VAD frame: 10 ms of 16 kHz 16-bit mono audio. */
  const FrameBytes: nat := 320

  /** Segmenter configuration, every duration counted in 10 ms frames. */
  datatype Params = Params(
    speech: int,            // speech frames before a command has started
    silence: int,           // trailing silence frames that end a command
    command: int,           // minimum command length, leading speech included
    timeout: int,           // frames before the hard timeout
    beforeThreshold: real,  // speech probability threshold while waiting
    inThreshold: real,      // speech probability threshold inside a command
    reset: int              // frames of contrary signal before a counter is restored
  )

  /** The class defaults: 0.3 s, 0.7 s, 1.0 s, 15 s, 0.2, 0.5, 1.0 s. */
  const Defaults := Params(30, 70, 100, 1500, 0.2, 0.5, 100)

  /** Configurations under which the counters behave as countdowns. */
  predicate Valid(p: Params)
  {
    p.speech >= 1 && p.silence >= 1 && p.timeout >= 1 && p.reset >= 1
  }

  /** The state machine: mode, timeout flag and the five countdown counters. */
  datatype Detector = Detector(
    inCommand: bool,
    timedOut: bool,
    speechLeft: int,
    silenceLeft: int,
    commandLeft: int,
    timeoutLeft: int,
    resetLeft: int
  )

  /**
   * A whole segmenter: the detector, the bytes not yet cut into a frame,
   * and how many frames the voice-activity model has been given since reset.
   */
  datatype State = State(det: Detector, buf: seq<byte>, frames: nat)

  /** What a step of the segmenter leaves behind, and whether to keep streaming. */
  datatype Outcome<S> = Outcome(state: S, keep: bool)

  /** reset(): a fresh voice-activity model, an empty buffer, full counters. */
  function Reset(p: Params): (s: State)
    ensures !s.det.inCommand && !s.det.timedOut
    ensures s.det.speechLeft == p.speech && s.det.silenceLeft == p.silence
    ensures s.det.commandLeft == p.command - p.speech
    ensures s.det.timeoutLeft == p.timeout && s.det.resetLeft == p.reset
    ensures s.buf == [] && s.frames == 0
  {
    State(Detector(false, false, p.speech, p.silence, p.command - p.speech, p.timeout, p.reset), [], 0)
  }

  /**
   * One non-warm-up 10 ms frame: the timeout check, then the WAITING or
   * IN_COMMAND branch. Returns the new detector and whether to keep streaming.
   */
  function Step(p: Params, d: Detector, prob: real): (r: Outcome<Detector>)
    // every frame spends one frame of the timeout, whatever the state
    ensures r.state.timeoutLeft == d.timeoutLeft - 1
    // timedOut is raised exactly when the timeout runs out, and never cleared
    ensures r.state.timedOut == (d.timedOut || d.timeoutLeft <= 1)
    ensures d.timeoutLeft <= 1 ==>
      !r.keep && r.state == d.(timeoutLeft := d.timeoutLeft - 1, timedOut := true)
    // once in a command, always in a command
    ensures d.inCommand ==> r.state.inCommand
    // a stop that is not a timeout is a silence frame inside a command
    // after which both the silence and the command counters are spent
    ensures !r.keep && d.timeoutLeft > 1 ==>
      d.inCommand && prob <= p.inThreshold && r.state.silenceLeft <= 0 && r.state.commandLeft <= 0
  {
    var d := d.(timeoutLeft := d.timeoutLeft - 1);
    if d.timeoutLeft <= 0 then
      Outcome(d.(timedOut := true), false)
    else if !d.inCommand then
      if prob > p.beforeThreshold then
        var d := d.(resetLeft := p.reset, speechLeft := d.speechLeft - 1);
        if d.speechLeft <= 0 then
          Outcome(d.(inCommand := true, commandLeft := p.command - p.speech, silenceLeft := p.silence), true)
        else
          Outcome(d, true)
      else
        var d := d.(resetLeft := d.resetLeft - 1);
        if d.resetLeft <= 0 then
          Outcome(d.(speechLeft := p.speech, resetLeft := p.reset), true)
        else
          Outcome(d, true)
    else if prob <= p.inThreshold then
      var d := d.(resetLeft := p.reset, silenceLeft := d.silenceLeft - 1, commandLeft := d.commandLeft - 1);
      Outcome(d, !(d.silenceLeft <= 0 && d.commandLeft <= 0))
    else
      var d := d.(commandLeft := d.commandLeft - 1, resetLeft := d.resetLeft - 1);
      if d.resetLeft <= 0 then
        Outcome(d.(silenceLeft := p.silence, resetLeft := p.reset), true)
      else
        Outcome(d, true)
  }

  /** WAITING, speech: restore the reset counter, count down speech, maybe start. */
  lemma WaitingSpeechFrame(p: Params, d: Detector, prob: real)
    requires d.timeoutLeft > 1 && !d.inCommand && prob > p.beforeThreshold
    ensures var r := Step(p, d, prob);
      && r.keep
      && r.state.resetLeft == p.reset
      && r.state.speechLeft == d.speechLeft - 1
      && (r.state.inCommand <==> d.speechLeft <= 1)
      && (r.state.inCommand ==> r.state.commandLeft == p.command - p.speech && r.state.silenceLeft == p.silence)
      && (!r.state.inCommand ==> r.state.commandLeft == d.commandLeft && r.state.silenceLeft == d.silenceLeft)
  {
  }

  /** WAITING, no speech: count down the reset counter; once spent, restore speech. */
  lemma WaitingSilenceFrame(p: Params, d: Detector, prob: real)
    requires d.timeoutLeft > 1 && !d.inCommand && prob <= p.beforeThreshold
    ensures var r := Step(p, d, prob);
      && r.keep
      && !r.state.inCommand
      && r.state.commandLeft == d.commandLeft && r.state.silenceLeft == d.silenceLeft
      && (d.resetLeft <= 1 ==> r.state.speechLeft == p.speech && r.state.resetLeft == p.reset)
      && (d.resetLeft > 1 ==> r.state.speechLeft == d.speechLeft && r.state.resetLeft == d.resetLeft - 1)
  {
  }

  /**
   * IN_COMMAND, speech: never stops; counts down the command and reset
   * counters, and restores the silence counter once the reset counter is spent.
   */
  lemma CommandSpeechFrame(p: Params, d: Detector, prob: real)
    requires d.timeoutLeft > 1 && d.inCommand && prob > p.inThreshold
    ensures var r := Step(p, d, prob);
      && r.keep && r.state.inCommand
      && r.state.speechLeft == d.speechLeft
      && r.state.commandLeft == d.commandLeft - 1
      && (d.resetLeft <= 1 ==> r.state.silenceLeft == p.silence && r.state.resetLeft == p.reset)
      && (d.resetLeft > 1 ==> r.state.silenceLeft == d.silenceLeft && r.state.resetLeft == d.resetLeft - 1)
  {
  }

  /** IN_COMMAND, silence: counts down silence and command; stops iff both are spent. */
  lemma CommandSilenceFrame(p: Params, d: Detector, prob: real)
    requires d.timeoutLeft > 1 && d.inCommand && prob <= p.inThreshold
    ensures var r := Step(p, d, prob);
      && r.state.inCommand
      && r.state.resetLeft == p.reset
      && r.state.speechLeft == d.speechLeft
      && r.state.silenceLeft == d.silenceLeft - 1
      && r.state.commandLeft == d.commandLeft - 1
      && (!r.keep <==> r.state.silenceLeft <= 0 && r.state.commandLeft <= 0)
  {
  }

  /** One frame as process() handles it: a warm-up frame is skipped. */
  function Frame(p: Params, d: Detector, prob: real): (r: Outcome<Detector>)
    ensures prob < 0.0 ==> r == Outcome(d, true)
  {
    if prob < 0.0 then Outcome(d, true) else Step(p, d, prob)
  }

  /** Number of non-warm-up entries of a probability stream. */
  function Active(probs: seq<real>): nat
  {
    if |probs| == 0 then 0
    else (if probs[0] >= 0.0 then 1 else 0) + Active(probs[1..])
  }

  /** One more frame at the end adds one active frame unless it is a warm-up frame. */
  lemma {:induction false} ActiveSnoc(probs: seq<real>, x: real)
    ensures Active(probs + [x]) == Active(probs) + (if x >= 0.0 then 1 else 0)
    decreases |probs|
  {
    if |probs| == 0 {
      assert probs + [x] == [x];
      assert [x][1..] == [];
    } else {
      assert (probs + [x])[0] == probs[0];
      assert (probs + [x])[1..] == probs[1..] + [x];
      ActiveSnoc(probs[1..], x);
    }
  }

  /** The stream with its warm-up entries removed. */
  function Warm(probs: seq<real>): seq<real>
  {
    if |probs| == 0 then []
    else (if probs[0] >= 0.0 then [probs[0]] else []) + Warm(probs[1..])
  }

  /** A stream of n equal probabilities. */
  function Const(x: real, n: nat): (r: seq<real>)
    ensures |r| == n && forall i :: 0 <= i < n ==> r[i] == x
  {
    seq(n, _ => x)
  }

  /**
   * The detector folded over a probability stream, stopping at the first
   * frame that answers "stop".
   */
  function Run(p: Params, d: Detector, probs: seq<real>): (r: Outcome<Detector>)
    decreases |probs|
    ensures d.inCommand ==> r.state.inCommand
    ensures r.keep ==> r.state.timeoutLeft == d.timeoutLeft - Active(probs) && r.state.timedOut == d.timedOut
    ensures r.keep && Active(probs) > 0 ==> r.state.timeoutLeft >= 1
    ensures !d.timedOut && r.state.timedOut ==> !r.keep && r.state.timeoutLeft <= 0
    ensures !r.keep && !r.state.timedOut ==>
      r.state.inCommand && r.state.silenceLeft <= 0 && r.state.commandLeft <= 0
  {
    if |probs| == 0 then Outcome(d, true)
    else
      var Outcome(d1, keep) := Frame(p, d, probs[0]);
      if !keep then Outcome(d1, false) else Run(p, d1, probs[1..])
  }

  /** Running over a + b is running over a, then (if still streaming) over b. */
  lemma {:induction false} RunAppend(p: Params, d: Detector, a: seq<real>, b: seq<real>)
    ensures Run(p, d, a + b) ==
      (var ra := Run(p, d, a); if ra.keep then Run(p, ra.state, b) else ra)
    decreases |a|
  {
    if |a| == 0 {
      assert a + b == b;
    } else {
      assert (a + b)[0] == a[0];
      assert (a + b)[1..] == a[1..] + b;
      var Outcome(d1, keep) := Frame(p, d, a[0]);
      if keep {
        RunAppend(p, d1, a[1..], b);
      }
    }
  }

  /** The last frame of a stream whose prefix kept streaming decides the result. */
  lemma {:induction false} RunLast(p: Params, d: Detector, probs: seq<real>)
    requires |probs| > 0
    requires Run(p, d, probs[..|probs| - 1]).keep
    ensures Run(p, d, probs) == Frame(p, Run(p, d, probs[..|probs| - 1]).state, probs[|probs| - 1])
  {
    var n := |probs| - 1;
    var last := [probs[n]];
    assert probs == probs[..n] + last;
    RunAppend(p, d, probs[..n], last);
    var dn := Run(p, d, probs[..n]).state;
    assert last[1..] == [];
    assert Run(p, dn, last) == Frame(p, dn, probs[n]);
  }

  /** Warm-up frames are invisible: the detector runs as if they were never cut. */
  lemma {:induction false} WarmUpIgnored(p: Params, d: Detector, probs: seq<real>)
    ensures Run(p, d, probs) == Run(p, d, Warm(probs))
    ensures Active(probs) == |Warm(probs)|
    decreases |probs|
  {
    if |probs| > 0 {
      WarmUpIgnored(p, d, probs[1..]);
      var rest := Warm(probs[1..]);
      if probs[0] >= 0.0 {
        assert Warm(probs) == [probs[0]] + rest;
        assert Warm(probs)[0] == probs[0];
        assert Warm(probs)[1..] == rest;
        var Outcome(d1, keep) := Frame(p, d, probs[0]);
        if keep {
          WarmUpIgnored(p, d1, probs[1..]);
        }
      } else {
        assert Warm(probs) == rest;
      }
    }
  }

  /** The invariant every reachable detector of a valid configuration keeps. */
  ghost predicate Consistent(p: Params, d: Detector)
  {
    && 1 <= d.resetLeft <= p.reset
    && d.timeoutLeft <= p.timeout
    && (d.timedOut <==> d.timeoutLeft <= 0)
    && (!d.inCommand ==>
          1 <= d.speechLeft <= p.speech && d.silenceLeft == p.silence
          && d.commandLeft == p.command - p.speech)
    && (d.inCommand ==> d.silenceLeft <= p.silence)
  }

  lemma ResetConsistent(p: Params)
    requires Valid(p)
    ensures Consistent(p, Reset(p).det)
  {
  }

  lemma {:induction false} RunConsistent(p: Params, d: Detector, probs: seq<real>)
    requires Consistent(p, d)
    ensures Consistent(p, Run(p, d, probs).state)
    decreases |probs|
  {
    if |probs| > 0 {
      var Outcome(d1, keep) := Frame(p, d, probs[0]);
      assert Consistent(p, d1);
      if keep {
        RunConsistent(p, d1, probs[1..]);
      }
    }
  }

  /**
   * WAITING: exactly speechLeft frames of speech start a command, with fresh
   * counters; one frame fewer still leaves the detector waiting.
   */
  lemma {:induction false} WaitingSpeech(p: Params, d: Detector, hi: real, n: nat)
    requires !d.inCommand && d.speechLeft == n >= 1 && d.timeoutLeft > n
    requires hi > p.beforeThreshold && hi >= 0.0
    ensures var r := Run(p, d, Const(hi, n));
      && r.keep && r.state.inCommand && r.state.timedOut == d.timedOut
      && r.state.commandLeft == p.command - p.speech && r.state.silenceLeft == p.silence
      && r.state.resetLeft == p.reset && r.state.timeoutLeft == d.timeoutLeft - n
    ensures n > 1 ==> var r' := Run(p, d, Const(hi, n - 1)); r'.keep && !r'.state.inCommand
    decreases n
  {
    var Outcome(d1, keep) := Step(p, d, hi);
    assert Const(hi, n)[1..] == Const(hi, n - 1);
    if n > 1 {
      assert Const(hi, n - 1)[1..] == Const(hi, n - 2);
      WaitingSpeech(p, d1, hi, n - 1);
    }
  }

  /** IN_COMMAND: speech frames never stop and keep the silence counter full. */
  lemma {:induction false} CommandSpeech(p: Params, d: Detector, hi: real, m: nat)
    requires d.inCommand && d.silenceLeft == p.silence && 1 <= d.resetLeft <= p.reset
    requires d.timeoutLeft > m && hi > p.inThreshold && hi >= 0.0
    ensures var r := Run(p, d, Const(hi, m));
      && r.keep && r.state.inCommand && r.state.timedOut == d.timedOut
      && r.state.silenceLeft == p.silence && 1 <= r.state.resetLeft <= p.reset
      && r.state.commandLeft == d.commandLeft - m && r.state.timeoutLeft == d.timeoutLeft - m
    decreases m
  {
    if m > 0 {
      var Outcome(d1, keep) := Step(p, d, hi);
      assert Const(hi, m)[1..] == Const(hi, m - 1);
      CommandSpeech(p, d1, hi, m - 1);
    }
  }

  /**
   * IN_COMMAND: with no more command frames left than silence frames
   * (commandLeft <= silenceLeft), silence ends the command at exactly the
   * silenceLeft-th frame.
   */
  lemma {:induction false} CommandSilence(p: Params, d: Detector, lo: real, m: nat)
    requires d.inCommand && !d.timedOut
    requires 1 <= d.silenceLeft <= m && d.commandLeft <= d.silenceLeft
    requires d.timeoutLeft > d.silenceLeft && 0.0 <= lo <= p.inThreshold
    ensures var r := Run(p, d, Const(lo, m));
      !r.keep && !r.state.timedOut && r.state.inCommand
    ensures Run(p, d, Const(lo, d.silenceLeft - 1)).keep
    decreases d.silenceLeft
  {
    var Outcome(d1, keep) := Step(p, d, lo);
    assert Const(lo, m)[1..] == Const(lo, m - 1);
    if d.silenceLeft > 1 {
      assert Const(lo, d.silenceLeft - 1)[1..] == Const(lo, d1.silenceLeft - 1);
      CommandSilence(p, d1, lo, m - 1);
    }
  }

  /**
   * End of speech: from a reset, k >= command frames of clear speech followed by
   * m >= silence frames of silence make the detector stop without timing out,
   * and not before the silence-th silent frame.
   */
  lemma EndOfSpeech(p: Params, hi: real, lo: real, k: nat, m: nat)
    requires Valid(p) && p.speech <= p.command <= k && m >= p.silence
    requires p.timeout > k + p.silence
    requires hi > p.beforeThreshold && hi > p.inThreshold && 0.0 <= lo <= p.inThreshold
    ensures var r := Run(p, Reset(p).det, Const(hi, k) + Const(lo, m));
      !r.keep && !r.state.timedOut && r.state.inCommand
    ensures Run(p, Reset(p).det, Const(hi, k) + Const(lo, p.silence - 1)).keep
  {
    var d0 := Reset(p).det;
    assert Const(hi, k) == Const(hi, p.speech) + Const(hi, k - p.speech);
    WaitingSpeech(p, d0, hi, p.speech);
    var d1 := Run(p, d0, Const(hi, p.speech)).state;
    CommandSpeech(p, d1, hi, k - p.speech);
    RunAppend(p, d0, Const(hi, p.speech), Const(hi, k - p.speech));
    var d2 := Run(p, d0, Const(hi, k)).state;
    CommandSilence(p, d2, lo, m);
    RunAppend(p, d0, Const(hi, k), Const(lo, m));
    RunAppend(p, d0, Const(hi, k), Const(lo, p.silence - 1));
  }

  /** WAITING in silence: the timeout fires at exactly the timeoutLeft-th frame. */
  lemma {:induction false} WaitingQuiet(p: Params, d: Detector, lo: real, n: nat)
    requires !d.inCommand && 1 <= d.timeoutLeft <= n
    requires 0.0 <= lo <= p.beforeThreshold
    ensures var r := Run(p, d, Const(lo, n));
      !r.keep && r.state.timedOut && !r.state.inCommand
    ensures Run(p, d, Const(lo, d.timeoutLeft - 1)).keep
    decreases d.timeoutLeft
  {
    var Outcome(d1, keep) := Step(p, d, lo);
    assert Const(lo, n)[1..] == Const(lo, n - 1);
    if d.timeoutLeft > 1 {
      assert Const(lo, d.timeoutLeft - 1)[1..] == Const(lo, d1.timeoutLeft - 1);
      WaitingQuiet(p, d1, lo, n - 1);
    }
  }

  /**
   * Silence only: from a reset, a run of silent frames at least as long as the
   * timeout stops with timedOut set, although no command was ever entered.
   */
  lemma SilenceTimesOut(p: Params, lo: real, n: nat)
    requires p.timeout >= 1 && n >= p.timeout
    requires 0.0 <= lo <= p.beforeThreshold
    ensures var r := Run(p, Reset(p).det, Const(lo, n));
      !r.keep && r.state.timedOut && !r.state.inCommand
    ensures Run(p, Reset(p).det, Const(lo, p.timeout - 1)).keep
  {
    WaitingQuiet(p, Reset(p).det, lo, n);
  }

  /** Frame arithmetic for cutting one more frame off the front of a buffer. */
  lemma FrameShift(n: int, len: int)
    requires len >= FrameBytes
    ensures (n + 1) * FrameBytes == n * FrameBytes + FrameBytes
    ensures (len - FrameBytes) / FrameBytes == len / FrameBytes - 1
  {
  }

  /**
   * The probabilities the VAD gives the frames lo .. hi - 1, counted from the
   * last reset. `vad` stands for the VAD model: what it answers for the n-th
   * frame (negative while it is still warming up).
   */
  function Window(vad: nat -> real, lo: nat, hi: nat): (w: seq<real>)
    requires lo <= hi
    ensures |w| == hi - lo
    ensures forall i :: 0 <= i < |w| ==> w[i] == vad(lo + i)
  {
    seq(hi - lo, i requires 0 <= i < hi - lo => vad(lo + i))
  }

  /** Adjacent windows concatenate. */
  lemma WindowSplit(vad: nat -> real, a: nat, b: nat, c: nat)
    requires a <= b <= c
    ensures Window(vad, a, c) == Window(vad, a, b) + Window(vad, b, c)
  {
    assert forall i :: 0 <= i < c - a ==>
      Window(vad, a, c)[i] == (Window(vad, a, b) + Window(vad, b, c))[i];
  }

  /**
   * The buffering loop of process(): cut whole frames off the front of the
   * buffer, one probability per frame, until fewer than FrameBytes bytes are
   * left or the detector says stop.
   */
  function CutFrames(p: Params, s: State, vad: nat -> real): (r: Outcome<State>)
    decreases |s.buf|
    ensures s.frames <= r.state.frames <= s.frames + |s.buf| / FrameBytes
    ensures r.keep ==> |r.state.buf| < FrameBytes
  {
    if |s.buf| < FrameBytes then Outcome(s, true)
    else
      var f := Frame(p, s.det, vad(s.frames));
      var s' := State(f.state, s.buf[FrameBytes..], s.frames + 1);
      if !f.keep then Outcome(s', false)
      else CutFrames(p, s', vad)
  }

  /**
   * Frames are cut off the front, FrameBytes bytes each: what is left is the
   * unconsumed suffix, and after "keep streaming" every complete frame was cut.
   */
  lemma {:induction false} CutFramesCount(p: Params, s: State, vad: nat -> real)
    decreases |s.buf|
    ensures var r := CutFrames(p, s, vad);
      && (r.state.frames - s.frames) * FrameBytes + |r.state.buf| == |s.buf|
      && r.state.buf == s.buf[(r.state.frames - s.frames) * FrameBytes..]
      && (r.keep ==> r.state.frames == s.frames + |s.buf| / FrameBytes)
  {
    if |s.buf| >= FrameBytes {
      var f := Frame(p, s.det, vad(s.frames));
      var s' := State(f.state, s.buf[FrameBytes..], s.frames + 1);
      if f.keep {
        CutFramesCount(p, s', vad);
        var r := CutFrames(p, s', vad);
        var n := r.state.frames - s'.frames;
        FrameShift(n, |s.buf|);
        assert s.buf[(n + 1) * FrameBytes..] == s'.buf[n * FrameBytes..];
      }
    }
  }

  /**
   * The frames cut from the buffer are handed to the detector in order: the
   * result is the fold of the detector over exactly the probabilities of
   * those frames, and a stop happens on the last frame cut, not earlier.
   */
  lemma {:induction false} CutFramesFolds(p: Params, s: State, vad: nat -> real)
    decreases |s.buf|
    ensures var r := CutFrames(p, s, vad);
      && Outcome(r.state.det, r.keep) == Run(p, s.det, Window(vad, s.frames, r.state.frames))
      && (!r.keep ==> s.frames < r.state.frames && Run(p, s.det, Window(vad, s.frames, r.state.frames - 1)).keep)
  {
    if |s.buf| < FrameBytes {
      assert Window(vad, s.frames, s.frames) == [];
    } else {
      var f := Frame(p, s.det, vad(s.frames));
      var s' := State(f.state, s.buf[FrameBytes..], s.frames + 1);
      if f.keep {
        CutFramesFolds(p, s', vad);
        var r := CutFrames(p, s', vad);
        var w := Window(vad, s.frames, r.state.frames);
        assert w[0] == vad(s.frames);
        assert w[1..] == Window(vad, s'.frames, r.state.frames);
        if !r.keep {
          var w' := Window(vad, s.frames, r.state.frames - 1);
          assert w'[0] == vad(s.frames);
          assert w'[1..] == Window(vad, s'.frames, r.state.frames - 1);
        }
      } else {
        var w := Window(vad, s.frames, s.frames + 1);
        assert w[1..] == [];
        assert Window(vad, s.frames, s.frames) == [];
      }
    }
  }

  /**
   * process(audio): append the audio to the buffer and cut frames in arrival
   * order; `vad` answers for each frame since reset.
   */
  function Process(p: Params, s: State, audio: seq<byte>, vad: nat -> real): (r: Outcome<State>)
    ensures s.frames <= r.state.frames
    ensures r.keep ==> |r.state.buf| < FrameBytes
  {
    CutFrames(p, s.(buf := s.buf + audio), vad)
  }

  /**
   * What process() does with the bytes and the frames: each frame cut
   * consumes FrameBytes bytes off the front of the old buffer followed by the
   * new audio, the rest stays buffered, and after "keep streaming" every
   * complete frame has been cut; the detector has seen exactly the
   * probabilities of the frames cut, in order, stopping on the last of them.
   */
  lemma ProcessFrames(p: Params, s: State, audio: seq<byte>, vad: nat -> real)
    ensures var r := Process(p, s, audio, vad);
      && r.state.frames * FrameBytes + |r.state.buf| == s.frames * FrameBytes + |s.buf| + |audio|
      && r.state.buf == (s.buf + audio)[(r.state.frames - s.frames) * FrameBytes..]
      && (r.keep ==> r.state.frames == s.frames + (|s.buf| + |audio|) / FrameBytes)
      && Outcome(r.state.det, r.keep) == Run(p, s.det, Window(vad, s.frames, r.state.frames))
      && (!r.keep ==> s.frames < r.state.frames && Run(p, s.det, Window(vad, s.frames, r.state.frames - 1)).keep)
  {
    var r := Process(p, s, audio, vad);
    CutFramesCount(p, s.(buf := s.buf + audio), vad);
    CutFramesFolds(p, s.(buf := s.buf + audio), vad);
    assert (r.state.frames - s.frames) * FrameBytes == r.state.frames * FrameBytes - s.frames * FrameBytes;
  }
}
