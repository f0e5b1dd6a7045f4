/**
 * The NDI reception worker: stream metrics shared by all workers, the
 * per-camera reception loop with its frame skipping and staged no-frame
 * recovery, the frame-size guard of frame conversion, and the start-up
 * discovery that fills the source cache.
 *
 * The NDI SDK is abstract: each poll of the loop yields a capture event, and
 * the recovery calls' outcomes travel with the NONE event that triggers them.
 */
module NdiVideo {
  import opened Wrappers
  import Seqs

  const NDI_FRAME_TIMEOUT_MS: int := 100
  const NDI_NO_FRAME_THRESHOLD: int := 100
  /** `max(20, NDI_NO_FRAME_THRESHOLD // 3)` no-frame polls before recovery starts. */
  const RECOVERY_THRESHOLD: int := if NDI_NO_FRAME_THRESHOLD / 3 > 20 then NDI_NO_FRAME_THRESHOLD / 3 else 20
  const DEFAULT_FRAME_SKIP: int := 6

  // ---------------------------------------------------------------------
  // Module-level stream metrics
  // ---------------------------------------------------------------------

  /** The five counters of the shared stream-metrics dictionary. */
  datatype Counts = Counts(active: int, connected: int, failed: int, starts: int, stops: int)
  {
    predicate NonNegative() { active >= 0 && connected >= 0 && failed >= 0 && starts >= 0 && stops >= 0 }
  }

  /** The stream-metrics dictionary every worker updates. */
  class StreamMetrics {
    var counts: Counts

    ghost predicate Valid()
      reads this
    {
      counts.NonNegative()
    }

    constructor ()
      ensures Valid() && counts == Counts(0, 0, 0, 0, 0)
    {
      counts := Counts(0, 0, 0, 0, 0);
    }

    method OnStart()
      requires Valid()
      modifies this
      ensures Valid()
      ensures counts == old(counts).(active := old(counts.active) + 1, starts := old(counts.starts) + 1)
    {
      counts := counts.(active := counts.active + 1, starts := counts.starts + 1);
    }

    method OnConnected()
      requires Valid()
      modifies this
      ensures Valid()
      ensures counts == old(counts).(connected := old(counts.connected) + 1)
    {
      counts := counts.(connected := counts.connected + 1);
    }

    method OnFailed()
      requires Valid()
      modifies this
      ensures Valid()
      ensures counts == old(counts).(failed := old(counts.failed) + 1)
    {
      counts := counts.(failed := counts.failed + 1);
    }

    /**
     * The gauges are decremented but never below zero, so they stay
     * non-negative even after an unmatched stop.
     */
    method OnStop(wasConnected: bool)
      modifies this
      ensures counts.active == if old(counts.active) - 1 < 0 then 0 else old(counts.active) - 1
      ensures counts.stops == old(counts.stops) + 1
      ensures counts.connected == if !wasConnected then old(counts.connected)
                                  else if old(counts.connected) - 1 < 0 then 0 else old(counts.connected) - 1
      ensures counts.failed == old(counts.failed) && counts.starts == old(counts.starts)
      ensures counts.active >= 0 && (wasConnected ==> counts.connected >= 0)
      ensures old(Valid()) ==> Valid()
    {
      counts := counts.(active := if counts.active - 1 < 0 then 0 else counts.active - 1, stops := counts.stops + 1);
      if wasConnected {
        counts := counts.(connected := if counts.connected - 1 < 0 then 0 else counts.connected - 1);
      }
    }
  }

  /** What one worker adds to the counters between its start and its stop. */
  function Contribution(c: Counts, connected: bool, failed: bool): (r: Counts)
    ensures r.active == c.active && r.starts == c.starts && r.stops == c.stops
    ensures r.connected - c.connected == (if connected then 1 else 0)
    ensures r.failed - c.failed == (if failed then 1 else 0)
  {
    c.(connected := c.connected + (if connected then 1 else 0), failed := c.failed + (if failed then 1 else 0))
  }

  // ---------------------------------------------------------------------
  // Frame conversion size guard
  // ---------------------------------------------------------------------

  datatype FourCC = BGRA | RGBA | UYVY | OtherFourCC
  datatype ImageFormat = ARGB32 | RGBA8888 | RGB888
  datatype Image = Image(width: int, height: int, bytesPerLine: int, format: ImageFormat)

  /**
   * A captured video frame as the conversion sees it. `uyvyConverts` is the
   * outcome of the UYVY-to-RGB pixel conversion (empty output or not).
   */
  datatype VideoFrame = VideoFrame(fourcc: FourCC, xres: int, yres: int, lineStride: int, dataLength: nat, uyvyConverts: bool)

  /** `_convert_frame`: an image only for a supported format whose data covers `line_stride * height` bytes. */
  function ConvertFrame(v: VideoFrame): (r: Option<Image>)
    ensures r.Some? ==> v.fourcc != OtherFourCC && v.dataLength >= v.lineStride * v.yres
    ensures r.Some? ==> r.value.width == v.xres && r.value.height == v.yres
    ensures (v.fourcc == BGRA || v.fourcc == RGBA) ==> (r.Some? <==> v.dataLength >= v.lineStride * v.yres)
    ensures v.fourcc == UYVY ==> (r.Some? <==> v.dataLength >= v.lineStride * v.yres && v.uyvyConverts)
    ensures r.Some? && v.fourcc == UYVY ==> r.value.format == RGB888 && r.value.bytesPerLine == v.xres * 3
  {
    if v.fourcc == OtherFourCC || v.dataLength < v.lineStride * v.yres then None
    else match v.fourcc
      case BGRA => Some(Image(v.xres, v.yres, v.lineStride, ARGB32))
      case RGBA => Some(Image(v.xres, v.yres, v.lineStride, RGBA8888))
      case UYVY => if v.uyvyConverts then Some(Image(v.xres, v.yres, v.xres * 3, RGB888)) else None
  }

  // ---------------------------------------------------------------------
  // The reception worker
  // ---------------------------------------------------------------------

  /** Outcome of recreating the receiver and reconnecting. */
  datatype Reconnect = Reconnected | CreateFailed | ConnectFailed

  /**
   * One poll of the loop. A NONE poll carries the outcomes of the recovery
   * calls it may trigger; `Raised` is an exception caught by the per-poll
   * handlers, possibly while a captured video frame was held; `StopRequested`
   * is `stop()` being called between polls.
   */
  datatype Capture =
    | Video(frame: VideoFrame)
    | Audio
    | Metadata
    | NoFrame(manualOk: bool, recreate: Reconnect, probeFrames: int, probeRecreate: Reconnect)
    | ErrorFrame
    | Raised(holdingVideo: bool)
    | StopRequested

  /** Set-up outcome before the loop: NDI missing, source not found, receiver not created, or ready. */
  datatype Setup = NdiUnavailable | SourceNotFound | ReceiverFailed | Ready(finderCreated: bool)

  datatype NdiError = NdiNotAvailable | SourceMissing | ReceiverNotCreated | NotResponding | ReceiveError | LoopException

  datatype Exit = NotStarted | Stopped | EventsExhausted | NoFramesFailure | ErrorFrameExit | ExceptionExit
  {
    predicate IsFailure() { this == NoFramesFailure || this == ErrorFrameExit || this == ExceptionExit }
  }

  /** The error signal each exit emits, if any. */
  function ExitErrors(exit: Exit, setup: Setup): seq<NdiError>
  {
    match exit
    case NotStarted => (if setup.SourceNotFound? then [SourceMissing] else [ReceiverNotCreated])
    case NoFramesFailure => [NotResponding]
    case ErrorFrameExit => [ReceiveError]
    case ExceptionExit => [LoopException]
    case _ => []
  }

  function Abs(x: int): nat { if x < 0 then -x else x }

  /** `skip % (frame_skip + 1) == 0` for 1 <= skip <= |frame_skip + 1| holds exactly at the top of the range. */
  lemma SkipWraps(skip: int, d: int)
    requires d != 0 && 1 <= skip <= Abs(d)
    ensures skip % d == 0 <==> skip == Abs(d)
  {
    if skip < Abs(d) {
      assert skip % d == skip;
    } else if d < 0 {
      assert skip == (-1) * d + 0;
    }
  }

  lemma MulStep(c: nat, p: nat)
    ensures (c + 1) * p == c * p + p
  {
  }

  /** The loop's local variables between polls. */
  datatype LoopState = LoopState(firstFrame: bool, noFrameCount: int, frameCount: nat, skipCount: int, flags: Recovery, exit: Exit)

  /** Which recovery stages are marked attempted. */
  datatype Recovery = Recovery(manual: bool, recreate: bool, probe: bool)
  {
    predicate Exhausted() { manual && recreate && probe }
  }

  /** What one recovery round leaves behind. */
  datatype RecoveryStep = RecoveryStep(flags: Recovery, receiver: bool, resumed: bool, manualTried: bool)

  /** Stage 3: probe once; only a probe that saw frames recreates the receiver. */
  function Probe(flags: Recovery, receiver: bool, probeFrames: int, probeRecreate: Reconnect, manualTried: bool): (r: RecoveryStep)
    ensures r.flags.manual == flags.manual && r.flags.recreate == flags.recreate && r.manualTried == manualTried
    ensures r.flags.probe <==> flags.probe || receiver
    ensures r.resumed <==> !flags.probe && receiver && probeFrames > 0 && probeRecreate == Reconnected
    ensures r.receiver ==> receiver
  {
    if !flags.probe && receiver then
      if probeFrames > 0 then
        RecoveryStep(flags.(probe := true), probeRecreate != CreateFailed, probeRecreate == Reconnected, manualTried)
      else RecoveryStep(flags.(probe := true), receiver, false, manualTried)
    else RecoveryStep(flags, receiver, false, manualTried)
  }

  /**
   * One recovery round on a NONE poll past the threshold: the manual-source
   * reconnect, whose flag is set only when it succeeds; then a single receiver
   * recreation; then a single probe. The first stage that reconnects resumes
   * polling and the later stages wait for the next round.
   */
  function Recover(flags: Recovery, receiver: bool, ev: Capture): (r: RecoveryStep)
    requires ev.NoFrame?
    // flags only go from unset to set
    ensures (flags.manual ==> r.flags.manual) && (flags.recreate ==> r.flags.recreate) && (flags.probe ==> r.flags.probe)
    // the manual reconnect is retried every round until it succeeds, and is marked only then
    ensures r.manualTried <==> !flags.manual && receiver
    ensures r.flags.manual != flags.manual <==> r.manualTried && ev.manualOk
    // recreation comes after a manual attempt; the probe after recreation; neither without a receiver
    ensures r.flags.recreate != flags.recreate ==> receiver && (flags.manual || r.manualTried)
    ensures r.flags.probe != flags.probe ==> receiver && r.flags.recreate
  {
    if !receiver then RecoveryStep(flags, false, false, false)
    else if !flags.manual && ev.manualOk then RecoveryStep(flags.(manual := true), true, true, true)
    else
      var tried := !flags.manual;
      if !flags.recreate then
        if ev.recreate == Reconnected then RecoveryStep(flags.(recreate := true), true, true, tried)
        else Probe(flags.(recreate := true), ev.recreate != CreateFailed, ev.probeFrames, ev.probeRecreate, tried)
      else Probe(flags, true, ev.probeFrames, ev.probeRecreate, tried)
  }

  /**
   * No stage runs without a receiver and none can bring one back; a round
   * that does not resume has run every stage not yet marked (the manual
   * reconnect excepted when it fails), and a resumed round has a receiver.
   */
  lemma RecoverRoundCompleteness(flags: Recovery, receiver: bool, ev: Capture)
    requires ev.NoFrame?
    ensures var r := Recover(flags, receiver, ev);
      && (!receiver ==> r == RecoveryStep(flags, false, false, false))
      && (r.receiver ==> receiver)
      && (receiver && !r.resumed ==> r.flags.recreate && (r.receiver ==> r.flags.probe))
      && (r.resumed ==> r.receiver)
  {
  }

  /**
   * While every manual reconnect fails, its flag never gets set, so the staged
   * recovery never counts as exhausted and no failure is reported.
   */
  lemma {:induction false} FailingManualReconnectNeverExhausts(flags: Recovery, receiver: bool, rounds: seq<Capture>)
    requires !flags.manual
    requires forall k :: 0 <= k < |rounds| ==> rounds[k].NoFrame? && !rounds[k].manualOk
    ensures !RecoverAll(flags, receiver, rounds).flags.Exhausted()
    decreases |rounds|
  {
    if |rounds| > 0 {
      var r := Recover(flags, receiver, rounds[0]);
      FailingManualReconnectNeverExhausts(r.flags, r.receiver, rounds[1..]);
    }
  }

  /** Recovery rounds in a row, none of them resuming polling in between. */
  function RecoverAll(flags: Recovery, receiver: bool, rounds: seq<Capture>): (r: RecoveryStep)
    requires forall k :: 0 <= k < |rounds| ==> rounds[k].NoFrame?
    decreases |rounds|
  {
    if |rounds| == 0 then RecoveryStep(flags, receiver, false, false)
    else
      var s := Recover(flags, receiver, rounds[0]);
      RecoverAll(s.flags, s.receiver, rounds[1..])
  }

  /** Once the manual reconnect has succeeded, one round that does not resume exhausts the stages. */
  lemma ManualDoneThenOneFailedRoundExhausts(flags: Recovery, ev: Capture)
    requires ev.NoFrame? && flags.manual
    requires ev.recreate != Reconnected && ev.recreate != CreateFailed
    requires !(ev.probeFrames > 0 && ev.probeRecreate == Reconnected)
    ensures Recover(flags, true, ev).flags.Exhausted()
  {
  }

  class NdiVideoThread {
    const sourceName: string
    var frameSkip: int
    var running: bool
    var stopEventSet: bool
    var receiver: bool
    var finder: bool
    var buffers: bool
    var metricsStarted: bool
    var metricsConnected: bool
    var metricsFailed: bool
    /** Error signals emitted, in order. */
    var errors: seq<NdiError>
    /** Images emitted through frame_ready, in order. */
    var framesEmitted: seq<Image>
    /** SDK frames (video, audio, metadata) captured and not yet handed back. */
    ghost var framesHeld: int

    constructor (sourceName: string, frameSkip: Option<int>)
      ensures this.sourceName == sourceName && this.frameSkip == frameSkip.GetOr(DEFAULT_FRAME_SKIP)
      ensures !running && !stopEventSet && !receiver && !finder && !buffers
      ensures !metricsStarted && !metricsConnected && !metricsFailed
      ensures errors == [] && framesEmitted == [] && framesHeld == 0
    {
      this.sourceName := sourceName;
      this.frameSkip := frameSkip.GetOr(DEFAULT_FRAME_SKIP);
      running, stopEventSet, receiver, finder, buffers := false, false, false, false, false;
      metricsStarted, metricsConnected, metricsFailed := false, false, false;
      errors, framesEmitted, framesHeld := [], [], 0;
    }

    /** Counts this worker as failed the first time only. */
    method FailOnce(m: StreamMetrics)
      requires m.Valid()
      modifies this`metricsFailed, m
      ensures m.Valid() && metricsFailed
      ensures m.counts == Contribution(old(m.counts), false, !old(metricsFailed))
    {
      if !metricsFailed {
        m.OnFailed();
        metricsFailed := true;
      }
    }

    /** A failure exit: count the failure once and emit the exit's error signal. */
    method Fail(exit: Exit, setup: Setup, m: StreamMetrics)
      requires m.Valid() && exit.IsFailure()
      modifies this`metricsFailed, this`errors, m
      ensures m.Valid() && metricsFailed
      ensures errors == old(errors) + ExitErrors(exit, setup)
      ensures m.counts == Contribution(old(m.counts), false, !old(metricsFailed))
    {
      FailOnce(m);
      errors := errors + ExitErrors(exit, setup);
    }

    /** `stop()`: clears the running flag and sets the stop event; calling it again changes nothing more. */
    method Stop()
      modifies this`running, this`stopEventSet
      ensures !running && stopEventSet
    {
      running := false;
      stopEventSet := true;
    }

    /**
     * `_cleanup`: receiver, finder and conversion buffers end up released, and
     * the stop is counted only if the start was, so a second call changes nothing.
     */
    method Cleanup(m: StreamMetrics)
      requires m.Valid()
      modifies this`receiver, this`finder, this`buffers, this`metricsStarted, m
      ensures m.Valid() && !receiver && !finder && !buffers && !metricsStarted
      ensures old(metricsStarted) ==>
        m.counts.stops == old(m.counts.stops) + 1
        && m.counts.active == (if old(m.counts.active) == 0 then 0 else old(m.counts.active) - 1)
        && m.counts.connected == (if metricsConnected && old(m.counts.connected) > 0 then old(m.counts.connected) - 1
                                  else old(m.counts.connected))
      ensures !old(metricsStarted) ==> m.counts == old(m.counts)
      ensures m.counts.failed == old(m.counts.failed) && m.counts.starts == old(m.counts.starts)
    {
      receiver := false;
      finder := false;
      if metricsStarted {
        m.OnStop(metricsConnected);
        metricsStarted := false;
      }
      buffers := false;
    }

    /**
     * The frame-skip step for one captured video frame: every `frame_skip + 1`-th
     * frame is converted (and emitted when conversion succeeds), and the counter
     * restarts from zero after each conversion.
     */
    method SkipOrConvert(frame: VideoFrame, skipCount: int) returns (newSkip: int, ghost convertedOne: bool)
      requires frameSkip + 1 != 0 && 0 <= skipCount < Abs(frameSkip + 1)
      modifies this`framesEmitted
      ensures 0 <= newSkip < Abs(frameSkip + 1)
      ensures convertedOne <==> skipCount + 1 == Abs(frameSkip + 1)
      ensures convertedOne ==> newSkip == 0
      ensures !convertedOne ==> newSkip == skipCount + 1
      ensures framesEmitted == old(framesEmitted) +
        (if convertedOne && ConvertFrame(frame).Some? then [ConvertFrame(frame).value] else [])
    {
      newSkip := skipCount + 1;
      SkipWraps(newSkip, frameSkip + 1);
      convertedOne := false;
      if newSkip % (frameSkip + 1) == 0 {
        var image := ConvertFrame(frame);
        if image.Some? {
          framesEmitted := framesEmitted + [image.value];
        }
        newSkip := 0;
        convertedOne := true;
      }
    }

    /**
     * A captured video frame: the first frame after a (re)connect counts the
     * stream as connected once; then the frame-skip step; then the frame is
     * freed. With `frame_skip == -1` the modulo raises before the free, which
     * `ok == false` reports with the frame still held.
     */
    method OnVideo(frame: VideoFrame, firstFrame: bool, skipCount: int, m: StreamMetrics)
      returns (ok: bool, newSkip: int, ghost convertedOne: bool)
      requires m.Valid() && (frameSkip + 1 != 0 ==> 0 <= skipCount < Abs(frameSkip + 1))
      modifies this`metricsConnected, this`framesEmitted, this`framesHeld, m
      ensures m.Valid()
      ensures ok <==> frameSkip + 1 != 0
      ensures framesHeld == old(framesHeld) + (if ok then 0 else 1)
      ensures !ok ==> !convertedOne && framesEmitted == old(framesEmitted)
      ensures ok ==> 0 <= newSkip < Abs(frameSkip + 1)
      ensures ok ==> (if convertedOne then newSkip == 0 && skipCount + 1 == Abs(frameSkip + 1) else newSkip == skipCount + 1)
      ensures |framesEmitted| <= |old(framesEmitted)| + (if convertedOne then 1 else 0)
      ensures metricsConnected <==> old(metricsConnected) || firstFrame
      ensures m.counts == Contribution(old(m.counts), metricsConnected && !old(metricsConnected), false)
    {
      framesHeld := framesHeld + 1;
      if firstFrame && !metricsConnected {
        m.OnConnected();
        metricsConnected := true;
      }
      newSkip, convertedOne := skipCount, false;
      if frameSkip + 1 == 0 {
        return false, newSkip, convertedOne;
      }
      newSkip, convertedOne := SkipOrConvert(frame, skipCount);
      framesHeld := framesHeld - 1;
      ok := true;
    }

    /**
     * A NONE poll: one more poll without data; from the recovery threshold on,
     * a recovery round, which either resumes polling from a fresh count or,
     * once every stage is marked and none reconnected, ends the loop.
     */
    method OnNoFrame(ev: Capture, st: LoopState) returns (r: LoopState, ghost manualTried: bool)
      requires ev.NoFrame? && st.exit == EventsExhausted
      modifies this`receiver
      ensures r.frameCount == st.frameCount && r.skipCount == st.skipCount
      ensures r.exit == EventsExhausted || r.exit == NoFramesFailure
      ensures st.noFrameCount + 1 < RECOVERY_THRESHOLD ==>
        r == st.(noFrameCount := st.noFrameCount + 1) && receiver == old(receiver) && !manualTried
      ensures st.noFrameCount + 1 >= RECOVERY_THRESHOLD ==>
        var step := Recover(st.flags, old(receiver), ev);
        r.flags == step.flags && receiver == step.receiver && manualTried == step.manualTried
        && (step.resumed ==> r.noFrameCount == 0 && r.firstFrame && r.exit == EventsExhausted)
        && (!step.resumed ==> r.noFrameCount == st.noFrameCount + 1
                              && (r.exit == NoFramesFailure <==> step.flags.Exhausted()))
      ensures (st.flags.manual ==> r.flags.manual) && (st.flags.recreate ==> r.flags.recreate) && (st.flags.probe ==> r.flags.probe)
      ensures r.flags.manual != st.flags.manual ==> manualTried
      ensures r.flags.recreate != st.flags.recreate ==> st.flags.manual || manualTried
      ensures r.flags.probe != st.flags.probe ==> r.flags.recreate
      ensures r.exit == NoFramesFailure ==> r.flags.Exhausted()
    {
      r, manualTried := st.(noFrameCount := st.noFrameCount + 1), false;
      if r.noFrameCount >= RECOVERY_THRESHOLD {
        var step := Recover(st.flags, receiver, ev);
        manualTried := step.manualTried;
        receiver := step.receiver;
        r := r.(flags := step.flags);
        if step.resumed {
          r := r.(noFrameCount := 0, firstFrame := true);
        } else if step.flags.Exhausted() {
          r := r.(exit := NoFramesFailure);
        }
      }
    }

    /**
     * The body of one poll: the handling of the captured event, and which
     * failure, if any, ends the loop. The failure itself is reported by the
     * loop as it breaks.
     */
    method Handle(ev: Capture, st: LoopState, m: StreamMetrics)
      returns (r: LoopState, ghost convertedOne: bool, ghost manualTried: bool, ghost leaked: bool)
      requires m.Valid() && st.exit == EventsExhausted
      requires frameSkip + 1 != 0 ==> 0 <= st.skipCount < Abs(frameSkip + 1)
      modifies this`running, this`stopEventSet, this`receiver, this`metricsConnected,
               this`framesEmitted, this`framesHeld, m
      ensures m.Valid()
      ensures r.exit == EventsExhausted || r.exit.IsFailure()
      ensures r.exit == ErrorFrameExit <==> ev.ErrorFrame?
      ensures running == (old(running) && !ev.StopRequested?)
      // every SDK frame is freed, except one held when the body raised
      ensures framesHeld == old(framesHeld) + (if leaked then 1 else 0)
      ensures leaked ==> r.exit == ExceptionExit
      // frame skipping
      ensures r.frameCount == st.frameCount + (if ev.Video? then 1 else 0)
      ensures ev.Video? ==> r.noFrameCount == 0
      ensures ev.NoFrame? ==> r.noFrameCount == st.noFrameCount + 1 || r.noFrameCount == 0
      ensures !ev.Video? && !ev.NoFrame? ==> r.noFrameCount == st.noFrameCount
      ensures frameSkip + 1 != 0 ==>
        (0 <= r.skipCount < Abs(frameSkip + 1)
         && r.frameCount - r.skipCount == st.frameCount - st.skipCount + (if convertedOne then Abs(frameSkip + 1) else 0))
      ensures |framesEmitted| <= |old(framesEmitted)| + (if convertedOne then 1 else 0)
      // staged recovery
      ensures (st.flags.manual ==> r.flags.manual) && (st.flags.recreate ==> r.flags.recreate) && (st.flags.probe ==> r.flags.probe)
      ensures r.flags.manual != st.flags.manual ==> manualTried
      ensures r.flags.recreate != st.flags.recreate ==> st.flags.manual || manualTried
      ensures r.flags.probe != st.flags.probe ==> r.flags.recreate
      ensures r.exit == NoFramesFailure ==> r.flags.Exhausted()
      ensures old(metricsConnected) ==> metricsConnected
      ensures m.counts == Contribution(old(m.counts), metricsConnected && !old(metricsConnected), false)
    {
      r, convertedOne, manualTried, leaked := st, false, false, false;
      match ev {
        case StopRequested =>
          Stop();
        case Video(frame) =>
          var ok, skip;
          ok, skip, convertedOne := OnVideo(frame, st.firstFrame, st.skipCount, m);
          r := st.(frameCount := st.frameCount + 1, noFrameCount := 0, skipCount := skip, firstFrame := false);
          if !ok {
            leaked := true;
            r := r.(exit := ExceptionExit);
          }
        case Audio =>
        case Metadata =>
        case NoFrame(_, _, _, _) =>
          r, manualTried := OnNoFrame(ev, st);
        case ErrorFrame =>
          r := st.(exit := ErrorFrameExit);
        case Raised(holdingVideo) =>
          if holdingVideo {
            framesHeld := framesHeld + 1;
            leaked := true;
          }
          r := st.(exit := ExceptionExit);
      }
    }

    /**
     * The `while self.running` loop: each iteration consumes one capture event;
     * the loop ends when stop is requested, when the body picks a failure
     * exit, or when the observed events run out.
     */
    method PollLoop(events: seq<Capture>, m: StreamMetrics)
      returns (st: LoopState, ghost converted: nat, ghost manualTries: nat, ghost leaked: bool)
      requires m.Valid()
      modifies this`running, this`stopEventSet, this`receiver, this`metricsConnected,
               this`framesEmitted, this`framesHeld, m
      ensures m.Valid()
      ensures st.exit == EventsExhausted || st.exit.IsFailure()
      ensures st.exit == EventsExhausted ==> !running || forall k :: 0 <= k < |events| ==> !events[k].ErrorFrame?
      ensures framesHeld == old(framesHeld) + (if leaked then 1 else 0)
      ensures leaked ==> st.exit == ExceptionExit
      ensures frameSkip + 1 != 0 ==> (st.frameCount == converted * Abs(frameSkip + 1) + st.skipCount
                                      && 0 <= st.skipCount < Abs(frameSkip + 1))
      ensures |framesEmitted| <= |old(framesEmitted)| + converted
      ensures st.flags.probe ==> st.flags.recreate
      ensures st.flags.recreate ==> manualTries > 0
      ensures st.flags.manual ==> manualTries > 0
      ensures st.exit == NoFramesFailure ==> st.flags.Exhausted()
      ensures m.counts == Contribution(old(m.counts), metricsConnected && !old(metricsConnected), false)
    {
      st := LoopState(true, 0, 0, 0, Recovery(false, false, false), EventsExhausted);
      var i := 0;
      converted, manualTries, leaked := 0, 0, false;
      ghost var convertedFrames := 0;
      while running && i < |events|
        invariant 0 <= i <= |events|
        invariant m.Valid() && st.exit == EventsExhausted && !leaked
        invariant framesHeld == old(framesHeld)
        invariant frameSkip + 1 != 0 ==> (st.frameCount == convertedFrames + st.skipCount
                                          && 0 <= st.skipCount < Abs(frameSkip + 1))
        invariant convertedFrames == converted * Abs(frameSkip + 1)
        invariant |framesEmitted| <= |old(framesEmitted)| + converted
        invariant st.flags.probe ==> st.flags.recreate
        invariant st.flags.recreate ==> manualTries > 0
        invariant st.flags.manual ==> manualTries > 0
        invariant old(metricsConnected) ==> metricsConnected
        invariant m.counts == Contribution(old(m.counts), metricsConnected && !old(metricsConnected), false)
        invariant running ==> forall k :: 0 <= k < i ==> !events[k].ErrorFrame?
        decreases |events| - i
      {
        ghost var one, tried, held;
        st, one, tried, held := Handle(events[i], st, m);
        i := i + 1;
        if one {
          MulStep(converted, Abs(frameSkip + 1));
          converted, convertedFrames := converted + 1, convertedFrames + Abs(frameSkip + 1);
        }
        if tried {
          manualTries := manualTries + 1;
        }
        if st.exit.IsFailure() {
          leaked := held;
          break;
        }
      }
    }

    /**
     * `_run_reception_loop` from the resolved source on: the set-up failures,
     * then the loop, then the failure report for a loop that ended in one
     * (counted once, with its error signal).
     */
    method ReceptionLoop(setup: Setup, events: seq<Capture>, m: StreamMetrics)
      returns (exit: Exit, st: LoopState, ghost converted: nat, ghost manualTries: nat, ghost leaked: bool)
      requires m.Valid() && !setup.NdiUnavailable?
      modifies this`running, this`stopEventSet, this`receiver, this`finder, this`metricsConnected,
               this`metricsFailed, this`errors, this`framesEmitted, this`framesHeld, m
      ensures m.Valid()
      ensures exit == NotStarted <==> !setup.Ready?
      ensures errors == old(errors) + ExitErrors(exit, setup)
      // every SDK frame is freed unless an exception left one held
      ensures framesHeld == old(framesHeld) + (if leaked then 1 else 0)
      ensures leaked ==> exit == ExceptionExit
      // one in every |frame_skip + 1| video frames is converted
      ensures frameSkip + 1 != 0 ==> (st.frameCount == converted * Abs(frameSkip + 1) + st.skipCount
                                      && 0 <= st.skipCount < Abs(frameSkip + 1))
      ensures |framesEmitted| <= |old(framesEmitted)| + converted
      // staged recovery: each stage is marked only after the one before it was tried
      ensures st.flags.probe ==> st.flags.recreate
      ensures st.flags.recreate ==> manualTries > 0
      ensures st.flags.manual ==> manualTries > 0
      ensures exit == NoFramesFailure ==> st.flags.Exhausted()
      // failure is counted once, and only for a failure exit
      ensures metricsFailed <==> old(metricsFailed) || exit.IsFailure()
      ensures m.counts == Contribution(old(m.counts), metricsConnected && !old(metricsConnected),
                                       metricsFailed && !old(metricsFailed))
    {
      if !setup.Ready? {
        errors := errors + ExitErrors(NotStarted, setup);
        return NotStarted, LoopState(true, 0, 0, 0, Recovery(false, false, false), NotStarted), 0, 0, false;
      }
      finder := setup.finderCreated;
      receiver := true;
      running := true;
      st, converted, manualTries, leaked := PollLoop(events, m);
      exit := if st.exit == EventsExhausted && !running then Stopped else st.exit;
      if exit.IsFailure() {
        Fail(exit, setup, m);
      }
    }

    /**
     * `run()`: counts the start, runs the loop (or reports NDI missing), and
     * always cleans up, so every start is matched by exactly one stop and the
     * stream gauges return to where they were.
     */
    method Run(setup: Setup, events: seq<Capture>, m: StreamMetrics) returns (exit: Exit)
      requires m.Valid()
      requires !metricsStarted && !metricsConnected && !metricsFailed
      modifies this, m
      ensures m.Valid()
      ensures !receiver && !finder && !buffers && !metricsStarted
      ensures m.counts == old(m.counts).(starts := old(m.counts.starts) + 1, stops := old(m.counts.stops) + 1,
                                         failed := old(m.counts.failed) + (if metricsFailed then 1 else 0))
      ensures metricsFailed <==> exit.IsFailure() || setup.NdiUnavailable?
      ensures |errors| == |old(errors)| + (if exit == Stopped || exit == EventsExhausted then 0 else 1)
    {
      m.OnStart();
      metricsStarted := true;
      if setup.NdiUnavailable? {
        FailOnce(m);
        errors := errors + [NdiNotAvailable];
        exit := NotStarted;
      } else {
        ghost var converted, manualTries, leaked;
        var st;
        exit, st, converted, manualTries, leaked := ReceptionLoop(setup, events, m);
      }
      Cleanup(m);
    }
  }

  // ---------------------------------------------------------------------
  // Start-up discovery into the module-level source cache
  // ---------------------------------------------------------------------

  predicate NoDuplicates(s: seq<string>)
  {
    forall i, j :: 0 <= i < j < |s| ==> s[i] != s[j]
  }

  /** The cache after the first `k` polls, each adding the names it brought that were not cached yet. */
  ghost function CacheAfter(names: seq<string>, polls: seq<seq<string>>, k: nat): seq<string>
    requires k <= |polls|
  {
    if k == 0 then names
    else
      var before := CacheAfter(names, polls, k - 1);
      before + Seqs.NewItems(before, polls[k - 1])
  }

  /**
   * Discovery stops after poll `k`: the expected number of sources is cached,
   * the timeout has passed, or no number was expected (one poll only).
   */
  ghost predicate StopsAfter(names: seq<string>, polls: seq<seq<string>>, timedOut: seq<bool>, expected: int, k: nat)
    requires k < |polls| && k < |timedOut|
  {
    (expected > 0 && |CacheAfter(names, polls, k + 1)| >= expected) || timedOut[k] || expected == 0
  }

  /** One more poll adds exactly the names it brought. */
  lemma CacheStep(names: seq<string>, polls: seq<seq<string>>, k: nat, n: string)
    requires 0 < k <= |polls|
    ensures n in CacheAfter(names, polls, k) <==> n in CacheAfter(names, polls, k - 1) || n in polls[k - 1]
  {
    var before := CacheAfter(names, polls, k - 1);
    assert CacheAfter(names, polls, k) == before + Seqs.NewItems(before, polls[k - 1]);
  }

  /** A name was brought by one of the first `k` polls iff by one of the first `k - 1` or by poll `k - 1`. */
  lemma PolledStep(polls: seq<seq<string>>, k: nat, n: string)
    requires 0 < k <= |polls|
    ensures (exists p :: 0 <= p < k && n in polls[p]) <==> (exists p :: 0 <= p < k - 1 && n in polls[p]) || n in polls[k - 1]
  {
    if exists p :: 0 <= p < k && n in polls[p] {
      var p :| 0 <= p < k && n in polls[p];
      assert p < k - 1 || n in polls[k - 1];
    }
  }

  /** The cache after `k` polls holds the names it started with and every name those polls brought. */
  lemma {:induction false} CacheAfterHolds(names: seq<string>, polls: seq<seq<string>>, k: nat, n: string)
    requires k <= |polls|
    ensures n in CacheAfter(names, polls, k) <==> n in names || exists p :: 0 <= p < k && n in polls[p]
  {
    if k > 0 {
      CacheAfterHolds(names, polls, k - 1, n);
      CacheStep(names, polls, k, n);
      PolledStep(polls, k, n);
    }
  }

  /** The source cache keyed by source name, in insertion order. */
  class SourceCache {
    var names: seq<string>

    ghost predicate Valid()
      reads this
    {
      NoDuplicates(names)
    }

    constructor ()
      ensures Valid() && names == []
    {
      names := [];
    }

    /** Adds each polled name not cached yet, in order. */
    method AddAll(polled: seq<string>)
      requires Valid()
      modifies this
      ensures Valid()
      ensures names == old(names) + Seqs.NewItems(old(names), polled)
      ensures forall n :: n in names <==> n in old(names) || n in polled
    {
      var added, k := [], 0;
      while k < |polled|
        invariant 0 <= k <= |polled|
        invariant added == Seqs.NewItems(names, polled[..k])
        invariant unchanged(this)
      {
        Seqs.NewItemsStep(names, polled, k);
        if polled[k] !in names && polled[k] !in added {
          added := added + [polled[k]];
        }
        k := k + 1;
      }
      assert polled[..k] == polled;
      assert NoDuplicates(names);
      Seqs.AppendNewItems(names, polled);
      names := names + added;
    }

    /** The polling loop of discovery: it stops at the first poll that meets a stop condition. */
    method PollUntilStopped(polls: seq<seq<string>>, timedOut: seq<bool>, expected: int) returns (pollsDone: nat)
      requires Valid()
      requires |polls| == |timedOut| && |polls| > 0 && timedOut[|polls| - 1]
      modifies this
      ensures Valid()
      ensures 1 <= pollsDone <= |polls| && names == CacheAfter(old(names), polls, pollsDone)
      ensures StopsAfter(old(names), polls, timedOut, expected, pollsDone - 1)
      ensures forall p :: 0 <= p < pollsDone - 1 ==> !StopsAfter(old(names), polls, timedOut, expected, p)
      ensures expected == 0 ==> pollsDone == 1
    {
      ghost var start := names;
      var i := 0;
      while true
        invariant 0 <= i < |polls|
        invariant Valid()
        invariant names == CacheAfter(start, polls, i)
        invariant forall p :: 0 <= p < i ==> !StopsAfter(start, polls, timedOut, expected, p)
        invariant expected == 0 ==> i == 0
        decreases |polls| - i
      {
        ghost var before := names;
        AddAll(polls[i]);
        assert names == before + Seqs.NewItems(before, polls[i]) == CacheAfter(start, polls, i + 1);
        assert StopsAfter(start, polls, timedOut, expected, i)
          <==> (expected > 0 && |names| >= expected) || timedOut[i] || expected == 0;
        if expected > 0 && |names| >= expected {
          break;
        }
        if timedOut[i] {
          break;
        }
        if expected == 0 {
          break;
        }
        i := i + 1;
      }
      pollsDone := i + 1;
    }

    /**
     * `discover_and_cache_all_sources`: poll until `expected` sources are cached
     * (when `expected > 0`), the clock passes the timeout, or after one poll when
     * `expected == 0`. `polls[i]` is what poll i returned and `timedOut[i]` whether
     * the timeout had elapsed after it; the clock runs out by the last poll.
     */
    method DiscoverAndCache(initialized: bool, polls: seq<seq<string>>, timedOut: seq<bool>, expected: int)
      returns (count: int, ghost pollsDone: nat)
      requires Valid()
      requires |polls| == |timedOut| && |polls| > 0 && timedOut[|polls| - 1]
      modifies this
      ensures Valid()
      ensures !initialized ==> count == 0 && names == old(names) && pollsDone == 0
      ensures initialized ==> 1 <= pollsDone <= |polls| && count == |names|
      ensures pollsDone <= |polls| && names == CacheAfter(old(names), polls, pollsDone)
      ensures forall n :: n in names <==> n in old(names) || exists p :: 0 <= p < pollsDone && n in polls[p]
      // it stops at the first poll that meets a stop condition
      ensures initialized ==> StopsAfter(old(names), polls, timedOut, expected, pollsDone - 1)
      ensures forall p :: 0 <= p < pollsDone - 1 ==> !StopsAfter(old(names), polls, timedOut, expected, p)
      ensures initialized && expected == 0 ==> pollsDone == 1
    {
      pollsDone := 0;
      if !initialized {
        return 0, pollsDone;
      }
      pollsDone := PollUntilStopped(polls, timedOut, expected);
      count := |names|;
      forall n
        ensures n in names <==> n in old(names) || exists p :: 0 <= p < pollsDone && n in polls[p]
      {
        CacheAfterHolds(old(names), polls, pollsDone, n);
      }
    }
  }
}
