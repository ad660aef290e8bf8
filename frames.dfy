/**
 * Per-frame bookkeeping of the application loop (crates/app/src/lib.rs,
 * duplicated in src/app.rs): the ring of in-flight frame slots, the frame
 * statistics with their one-second FPS rollover, and the three-state
 * statistics overlay toggled with F3. Durations are whole nanoseconds.
 */
module AppFrames {
  import opened AppUtils
  import opened Utils

  // ---------------------------------------------------------------------
  // Durations

  const ONE_SEC: nat := 1_000_000_000

  /** `Duration::saturating_sub`: `a - b`, or zero when `b` is longer. */
  function SaturatingSub(a: nat, b: nat): (r: nat)
    ensures a >= b ==> r + b == a
    ensures a < b ==> r == 0
  {
    if a >= b then a - b else 0
  }

  /** `Duration::as_millis`: the whole milliseconds in `d`. */
  function AsMillis(d: nat): (ms: nat)
    ensures ms * 1_000_000 <= d < (ms + 1) * 1_000_000
  {
    d / 1_000_000
  }

  // ---------------------------------------------------------------------
  // In-flight frames

  /** The GPU objects of one frame slot, as opaque handles. */
  datatype FrameHandles = FrameHandles(imageAvailableSemaphore: nat, renderFinishedSemaphore: nat,
                                       fence: nat, timingQueryPool: nat)

  /** One frame slot: its handles and the GUI textures to free once the slot comes round again. */
  datatype PerFrame = PerFrame(handles: FrameHandles, guiTexturesToFree: seq<nat>)

  /** The slot after `current` in a ring of `len` slots. */
  function NextFrame(current: nat, len: nat): (r: nat)
    requires len > 0
    ensures r < len
    ensures current < len ==> r == if current + 1 < len then current + 1 else 0
  {
    (current + 1) % len
  }

  /** The slot reached after `n` advances. */
  function NextFrameN(current: nat, len: nat, n: nat): nat
    requires len > 0
  {
    if n == 0 then current else NextFrame(NextFrameN(current, len, n - 1), len)
  }

  /** Counting up by one steps the remainder by one, wrapping to 0 at `len`. */
  lemma ModSucc(a: nat, len: nat)
    requires len > 0
    ensures (a + 1) % len == if a % len + 1 < len then a % len + 1 else 0
  {
    var q, r := a / len, a % len;
    assert a == q * len + r;
    if r + 1 < len {
      DivModOf(a + 1, len, q, r + 1);
    } else {
      assert a + 1 == (q + 1) * len;
      DivModOf(a + 1, len, q + 1, 0);
    }
  }

  /** `n` advances from slot `current` land on slot (current + n) mod len. */
  lemma {:induction false} NextFrameNIsModular(current: nat, len: nat, n: nat)
    requires len > 0 && current < len
    ensures NextFrameN(current, len, n) == (current + n) % len
  {
    if n == 0 {
      DivModOf(current, len, 0, current);
    } else {
      NextFrameNIsModular(current, len, n - 1);
      ModSucc(current + n - 1, len);
    }
  }

  /** How many advances take slot `current` to slot `target`. */
  function StepsTo(current: nat, target: nat, len: nat): nat
    requires len > 0 && current < len && target < len
  {
    if target >= current then target - current else target + len - current
  }

  /** The ring comes back to its starting slot after exactly `len` advances, and reaches every slot before that. */
  lemma RingReturnsAndCoversAllSlots(current: nat, len: nat)
    requires len > 0 && current < len
    ensures NextFrameN(current, len, len) == current
    ensures forall j :: 0 <= j < len ==> StepsTo(current, j, len) < len && NextFrameN(current, len, StepsTo(current, j, len)) == j
  {
    NextFrameNIsModular(current, len, len);
    DivModOf(current + len, len, 1, current);
    forall j | 0 <= j < len
      ensures StepsTo(current, j, len) < len && NextFrameN(current, len, StepsTo(current, j, len)) == j
    {
      var n := StepsTo(current, j, len);
      NextFrameNIsModular(current, len, n);
      if j >= current {
        DivModOf(j, len, 0, j);
      } else {
        DivModOf(j + len, len, 1, j);
      }
    }
  }

  class InFlightFrames {
    var perFrames: seq<PerFrame>
    var currentFrame: nat

    /** The current slot exists. */
    ghost predicate Valid()
      reads this
    {
      currentFrame < |perFrames|
    }

    /** `InFlightFrames::new`: one slot per set of handles, nothing to free yet, starting at slot 0. */
    constructor (handles: seq<FrameHandles>)
      ensures |perFrames| == |handles| && currentFrame == 0
      ensures forall i :: 0 <= i < |handles| ==> perFrames[i] == PerFrame(handles[i], [])
      ensures |handles| > 0 ==> Valid()
    {
      perFrames := seq(|handles|, i requires 0 <= i < |handles| => PerFrame(handles[i], []));
      currentFrame := 0;
    }

    /** `next`: move to the following slot, wrapping after the last (the ring must not be empty). */
    method Next()
      requires |perFrames| > 0
      modifies this
      ensures perFrames == old(perFrames)
      ensures currentFrame == NextFrame(old(currentFrame), |perFrames|)
      ensures Valid()
    {
      currentFrame := (currentFrame + 1) % |perFrames|;
    }

    /** The slot every accessor reads (semaphores, fence, query pool, textures to free). */
    function Current(): (f: PerFrame)
      reads this
      requires Valid()
      ensures f in perFrames
    {
      perFrames[currentFrame]
    }

    /** `set_gui_textures_to_free`: replace the current slot's list; every other slot is untouched. */
    method SetGuiTexturesToFree(ids: seq<nat>)
      requires Valid()
      modifies this
      ensures Valid() && currentFrame == old(currentFrame) && |perFrames| == |old(perFrames)|
      ensures Current() == old(Current()).(guiTexturesToFree := ids)
      ensures forall i :: 0 <= i < |perFrames| && i != currentFrame ==> perFrames[i] == old(perFrames[i])
    {
      perFrames := perFrames[currentFrame := perFrames[currentFrame].(guiTexturesToFree := ids)];
    }
  }

  /**
   * `gpu_frame_time_ms`: the time between the two timestamps the current
   * slot's query pool recorded, never negative.
   */
  function GpuFrameTime(timestamps: seq<nat>): (d: nat)
    requires |timestamps| == 2
    ensures timestamps[0] <= timestamps[1] ==> timestamps[0] + d == timestamps[1]
    ensures timestamps[0] > timestamps[1] ==> d == 0
  {
    SaturatingSub(timestamps[1], timestamps[0])
  }

  // ---------------------------------------------------------------------
  // Frame statistics

  const MAX_LOG_SIZE: nat := 1000

  /** The FPS part of the statistics: frames since the last rollover, the published FPS and the running timer. */
  datatype FpsState = FpsState(frameCount: nat, fpsCounter: nat, timer: nat)

  /**
   * One tick's effect on the FPS state, for a frame of length `frameTime`.
   * When the timer passes one second it rolls over: one second leaves the
   * timer and the frames counted so far, this one included, are published
   * as the FPS. Otherwise the frame is counted and the FPS is kept.
   */
  function Advance(s: FpsState, frameTime: nat): (r: FpsState)
    ensures var rolled := s.timer + frameTime > ONE_SEC;
      && r.timer + (if rolled then ONE_SEC else 0) == s.timer + frameTime
      && r.frameCount + (if rolled then r.fpsCounter else 0) == s.frameCount + 1
      && (rolled ==> r.frameCount == 0)
      && (!rolled ==> r.fpsCounter == s.fpsCounter)
  {
    var timer := s.timer + frameTime;
    if timer > ONE_SEC then FpsState(0, s.frameCount + 1, timer - ONE_SEC)
    else FpsState(s.frameCount + 1, s.fpsCounter, timer)
  }

  /** A timer at most one second stays so, as long as no single frame is longer than a second. */
  lemma AdvanceKeepsTimerWithinOneSecond(s: FpsState, frameTime: nat)
    requires s.timer <= ONE_SEC && frameTime <= ONE_SEC
    ensures Advance(s, frameTime).timer <= ONE_SEC
  {
  }

  /** Ticking through the frame times `frameTimes` in order. */
  function AdvanceAll(s: FpsState, frameTimes: seq<nat>): FpsState
    decreases |frameTimes|
  {
    if frameTimes == [] then s else AdvanceAll(Advance(s, frameTimes[0]), frameTimes[1..])
  }

  /** The FPS values published by the rollovers during those ticks, in order. */
  function Published(s: FpsState, frameTimes: seq<nat>): seq<nat>
    decreases |frameTimes|
  {
    if frameTimes == [] then []
    else
      var next := Advance(s, frameTimes[0]);
      (if s.timer + frameTimes[0] > ONE_SEC then [next.fpsCounter] else []) + Published(next, frameTimes[1..])
  }

  function Sum(xs: seq<nat>): nat
    decreases |xs|
  {
    if xs == [] then 0 else xs[0] + Sum(xs[1..])
  }

  /**
   * No time and no frame is lost: the final timer plus one second per
   * rollover is the starting timer plus every frame time, and every tick
   * is counted either in one published FPS value or in the current count.
   */
  lemma {:induction false} AdvanceAllConserves(s: FpsState, frameTimes: seq<nat>)
    ensures AdvanceAll(s, frameTimes).timer + ONE_SEC * |Published(s, frameTimes)| == s.timer + Sum(frameTimes)
    ensures AdvanceAll(s, frameTimes).frameCount + Sum(Published(s, frameTimes)) == s.frameCount + |frameTimes|
    decreases |frameTimes|
  {
    if frameTimes != [] {
      var next := Advance(s, frameTimes[0]);
      AdvanceAllConserves(next, frameTimes[1..]);
      var rolled := s.timer + frameTimes[0] > ONE_SEC;
      var head: seq<nat> := if rolled then [next.fpsCounter] else [];
      SumAppend(head, Published(next, frameTimes[1..]));
    }
  }

  lemma {:induction false} SumAppend(a: seq<nat>, b: seq<nat>)
    ensures Sum(a + b) == Sum(a) + Sum(b)
    decreases |a|
  {
    if a == [] {
      assert a + b == b;
    } else {
      SumAppend(a[1..], b);
      assert (a + b)[0] == a[0];
      assert (a + b)[1..] == a[1..] + b;
    }
  }

  class FrameStats {
    var previousFrameTime: nat
    var frameTime: nat
    var cpuTime: nat
    var gpuTime: nat

    const frameTimeMsLog: Queue<nat>
    const cpuTimeMsLog: Queue<nat>
    const gpuTimeMsLog: Queue<nat>

    var totalFrameCount: nat
    var frameCount: nat
    var fpsCounter: nat
    var timer: nat

    /** Three separate logs, each bounded at MAX_LOG_SIZE and within its bound. */
    ghost predicate Valid()
      reads this, frameTimeMsLog, cpuTimeMsLog, gpuTimeMsLog
    {
      && frameTimeMsLog != cpuTimeMsLog && frameTimeMsLog != gpuTimeMsLog && cpuTimeMsLog != gpuTimeMsLog
      && frameTimeMsLog.maxSize == MAX_LOG_SIZE && frameTimeMsLog.Valid()
      && cpuTimeMsLog.maxSize == MAX_LOG_SIZE && cpuTimeMsLog.Valid()
      && gpuTimeMsLog.maxSize == MAX_LOG_SIZE && gpuTimeMsLog.Valid()
    }

    function Fps(): FpsState
      reads this
    {
      FpsState(frameCount, fpsCounter, timer)
    }

    /** `FrameStats::default`: every duration and counter zero, three empty logs. */
    constructor ()
      ensures Valid() && fresh(frameTimeMsLog) && fresh(cpuTimeMsLog) && fresh(gpuTimeMsLog)
      ensures previousFrameTime == 0 && frameTime == 0 && cpuTime == 0 && gpuTime == 0
      ensures frameTimeMsLog.items == [] && cpuTimeMsLog.items == [] && gpuTimeMsLog.items == []
      ensures totalFrameCount == 0 && Fps() == FpsState(0, 0, 0)
    {
      previousFrameTime, frameTime, cpuTime, gpuTime := 0, 0, 0, 0;
      frameTimeMsLog := new Queue(MAX_LOG_SIZE);
      cpuTimeMsLog := new Queue(MAX_LOG_SIZE);
      gpuTimeMsLog := new Queue(MAX_LOG_SIZE);
      totalFrameCount, frameCount, fpsCounter, timer := 0, 0, 0, 0;
    }

    /**
     * `tick`: derive the CPU time, log the previous frame, CPU and GPU
     * times in whole milliseconds, count the frame and advance the FPS
     * timer, rolling over once it passes one second.
     */
    method Tick()
      requires Valid()
      modifies this, frameTimeMsLog, cpuTimeMsLog, gpuTimeMsLog
      ensures Valid()
      ensures cpuTime == SaturatingSub(old(previousFrameTime), old(gpuTime))
      ensures frameTimeMsLog.items == Pushed(old(frameTimeMsLog.items), MAX_LOG_SIZE, AsMillis(old(previousFrameTime)))
      ensures cpuTimeMsLog.items == Pushed(old(cpuTimeMsLog.items), MAX_LOG_SIZE, AsMillis(cpuTime))
      ensures gpuTimeMsLog.items == Pushed(old(gpuTimeMsLog.items), MAX_LOG_SIZE, AsMillis(old(gpuTime)))
      ensures totalFrameCount == old(totalFrameCount) + 1
      ensures Fps() == Advance(old(Fps()), old(frameTime))
      ensures previousFrameTime == old(previousFrameTime) && frameTime == old(frameTime) && gpuTime == old(gpuTime)
    {
      cpuTime := SaturatingSub(previousFrameTime, gpuTime);

      PushedWithinBound(frameTimeMsLog.items, MAX_LOG_SIZE, AsMillis(previousFrameTime));
      frameTimeMsLog.Push(AsMillis(previousFrameTime));
      PushedWithinBound(cpuTimeMsLog.items, MAX_LOG_SIZE, AsMillis(cpuTime));
      cpuTimeMsLog.Push(AsMillis(cpuTime));
      PushedWithinBound(gpuTimeMsLog.items, MAX_LOG_SIZE, AsMillis(gpuTime));
      gpuTimeMsLog.Push(AsMillis(gpuTime));

      totalFrameCount := totalFrameCount + 1;
      frameCount := frameCount + 1;
      timer := timer + frameTime;

      if timer > ONE_SEC {
        fpsCounter := frameCount;
        frameCount := 0;
        timer := timer - ONE_SEC;
      }
    }

    /** `set_frame_time`: the current frame time becomes the previous one. */
    method SetFrameTime(newFrameTime: nat)
      modifies this
      ensures previousFrameTime == old(frameTime) && frameTime == newFrameTime
      ensures cpuTime == old(cpuTime) && gpuTime == old(gpuTime)
      ensures totalFrameCount == old(totalFrameCount) && Fps() == old(Fps())
    {
      previousFrameTime := frameTime;
      frameTime := newFrameTime;
    }

    /** `set_gpu_time_time`: record the GPU time of the last frame. */
    method SetGpuTimeTime(newGpuTime: nat)
      modifies this
      ensures gpuTime == newGpuTime
      ensures previousFrameTime == old(previousFrameTime) && frameTime == old(frameTime) && cpuTime == old(cpuTime)
      ensures totalFrameCount == old(totalFrameCount) && Fps() == old(Fps())
    {
      gpuTime := newGpuTime;
    }
  }

  // ---------------------------------------------------------------------
  // Statistics overlay

  /** How much of the statistics overlay is shown. */
  datatype StatsDisplayMode = None | Basic | Full
  {
    /** `next`: None, Basic, Full, then back to None. */
    function Next(): (r: StatsDisplayMode)
      ensures r != this
    {
      match this
      case None => Basic
      case Basic => Full
      case Full => None
    }
  }

  /** Three steps bring every mode back to itself, passing through all three modes. */
  lemma NextCyclesThroughAllModes(m: StatsDisplayMode)
    ensures m.Next().Next().Next() == m
    ensures m.Next() != m && m.Next().Next() != m && m.Next().Next() != m.Next()
    ensures {m, m.Next(), m.Next().Next()} == {None, Basic, Full}
  {
  }

  datatype KeyCode = F3 | OtherKey
  datatype ElementState = Pressed | Released

  /** The overlay's reaction to a keyboard event: a pressed F3 advances it, anything else leaves it. */
  function OnKeyboardInput(mode: StatsDisplayMode, key: KeyCode, state: ElementState): (r: StatsDisplayMode)
    ensures r != mode <==> key == F3 && state == Pressed
  {
    if key == F3 && state == Pressed then mode.Next() else mode
  }

  /** Pressing F3 three times restores the overlay the user started with. */
  lemma ThreeF3PressesRestoreMode(mode: StatsDisplayMode)
    ensures OnKeyboardInput(OnKeyboardInput(OnKeyboardInput(mode, F3, Pressed), F3, Pressed), F3, Pressed) == mode
  {
    NextCyclesThroughAllModes(mode);
  }
}
