// Animation: a sprite strip with a millisecond frame timer, a frame counter
// and a one-shot deactivation for animations that do not loop.

module Animations {
  import opened Numerics
  import opened Geometry
  import opened Clock

  /** The part of an animation's state its timer changes. */
  datatype FrameTimer = FrameTimer(elapsed: int, frame: int, shouldDraw: bool)

  /**
   * One active timer step: add the frame's milliseconds; once the total is
   * strictly above the frame time, move to the next frame (wrapping to 0 at
   * frameCount, and switching a non-looping animation off), and discard the
   * accumulated time.
   */
  function Tick(t: FrameTimer, frameTime: int, frameCount: int, looping: bool, ms: int): (r: FrameTimer)
    ensures r.frame == t.frame || r.elapsed == 0
    ensures !t.shouldDraw ==> !r.shouldDraw
  {
    var elapsed := t.elapsed + ms;
    if elapsed > frameTime then
      var next := t.frame + 1;
      if next == frameCount then FrameTimer(0, 0, if looping then t.shouldDraw else false)
      else FrameTimer(0, next, t.shouldDraw)
    else FrameTimer(elapsed, t.frame, t.shouldDraw)
  }

  /** With at least one frame, a frame index in range stays in range. */
  lemma TickFrameInRange(t: FrameTimer, frameTime: int, frameCount: int, looping: bool, ms: int)
    requires frameCount >= 1 && 0 <= t.frame < frameCount
    ensures 0 <= Tick(t, frameTime, frameCount, looping, ms).frame < frameCount
  {
  }

  /**
   * The frame advances by at most one, modulo the frame count, and it advances
   * exactly when the accumulated time is strictly above the frame time; in that
   * case the remainder is discarded, otherwise the time keeps accumulating.
   */
  lemma TickAdvancesAtMostOne(t: FrameTimer, frameTime: int, frameCount: int, looping: bool, ms: int)
    requires frameCount >= 1 && 0 <= t.frame < frameCount
    ensures var r := Tick(t, frameTime, frameCount, looping, ms);
      var advanced := t.elapsed + ms > frameTime;
      r.frame == (t.frame + (if advanced then 1 else 0)) % frameCount &&
      r.elapsed == (if advanced then 0 else t.elapsed + ms)
  {
    if t.frame + 1 < frameCount {
      assert (t.frame + 1) % frameCount == t.frame + 1;
    }
    assert t.frame % frameCount == t.frame;
  }

  /** After any active step the accumulated time is at most the frame time. */
  lemma TickElapsedBounded(t: FrameTimer, frameTime: int, frameCount: int, looping: bool, ms: int)
    requires frameTime >= 0
    ensures Tick(t, frameTime, frameCount, looping, ms).elapsed <= frameTime
  {
  }

  /** A looping animation is never switched off. */
  lemma TickLoopingStaysOn(t: FrameTimer, frameTime: int, frameCount: int, ms: int)
    ensures Tick(t, frameTime, frameCount, true, ms).shouldDraw == t.shouldDraw
  {
  }

  /** A non-looping animation is switched off exactly on the step where its frame wraps to 0. */
  lemma TickOneShotStopsOnWrap(t: FrameTimer, frameTime: int, frameCount: int, ms: int)
    requires t.shouldDraw
    ensures var r := Tick(t, frameTime, frameCount, false, ms);
      !r.shouldDraw <==> t.elapsed + ms > frameTime && t.frame + 1 == frameCount
  {
  }

  /** `count` updates in a row, each of `ms` milliseconds, on an active animation. */
  function Ticks(t: FrameTimer, frameTime: int, frameCount: int, looping: bool, ms: int, count: nat): FrameTimer
    decreases count
  {
    if count == 0 then t
    else Tick(Ticks(t, frameTime, frameCount, looping, ms, count - 1), frameTime, frameCount, looping, ms)
  }

  /**
   * A one-shot animation whose every update is longer than its frame time shows
   * each frame exactly once: after k < frameCount updates it is on frame k and
   * still active, and update number frameCount switches it off on frame 0.
   */
  lemma {:induction false} OneShotLifetime(frameTime: int, frameCount: int, ms: int, k: nat)
    requires frameCount >= 1 && ms > frameTime && k <= frameCount
    ensures k < frameCount ==>
      Ticks(FrameTimer(0, 0, true), frameTime, frameCount, false, ms, k) == FrameTimer(0, k, true)
    ensures k == frameCount ==>
      Ticks(FrameTimer(0, 0, true), frameTime, frameCount, false, ms, k) == FrameTimer(0, 0, false)
  {
    if k > 0 {
      OneShotLifetime(frameTime, frameCount, ms, k - 1);
    }
  }

  /** a + b updates in a row are a updates followed by b more. */
  lemma {:induction false} TicksSplit(t: FrameTimer, frameTime: int, frameCount: int, looping: bool, ms: int, a: nat, b: nat)
    ensures Ticks(t, frameTime, frameCount, looping, ms, a + b) ==
            Ticks(Ticks(t, frameTime, frameCount, looping, ms, a), frameTime, frameCount, looping, ms, b)
    decreases b
  {
    if b > 0 {
      TicksSplit(t, frameTime, frameCount, looping, ms, a, b - 1);
    }
  }

  /** Within a frame, updates of ms milliseconds accumulate while the total stays within the frame time. */
  lemma {:induction false} FrameAccumulates(f: int, frameTime: int, frameCount: int, ms: int, j: nat)
    requires ms >= 1 && frameTime >= 0 && j <= frameTime / ms
    ensures Ticks(FrameTimer(0, f, true), frameTime, frameCount, false, ms, j) == FrameTimer(j * ms, f, true)
  {
    if j > 0 {
      FrameAccumulates(f, frameTime, frameCount, ms, j - 1);
      WithinFrame(j, frameTime, ms);
      assert Tick(FrameTimer((j - 1) * ms, f, true), frameTime, frameCount, false, ms) == FrameTimer(j * ms, f, true);
    }
  }

  /** j updates of ms milliseconds, j at most frameTime / ms, stay within the frame time. */
  lemma WithinFrame(j: nat, frameTime: int, ms: int)
    requires ms >= 1 && frameTime >= 0 && 1 <= j <= frameTime / ms
    ensures (j - 1) * ms + ms == j * ms <= frameTime
  {
    MulMonotone(j, frameTime / ms, ms);
  }

  lemma MulMonotone(a: nat, b: nat, m: nat)
    requires a <= b
    ensures a * m <= b * m
  {
  }

  /** The number of updates of ms milliseconds a frame of frameTime milliseconds lasts. */
  function FrameUpdates(frameTime: int, ms: int): (n: nat)
    requires ms >= 1 && frameTime >= 0
    ensures n >= 1
  {
    frameTime / ms + 1
  }

  /**
   * A frame lasts frameTime / ms + 1 updates of ms milliseconds; then the
   * timer moves to the next frame, or, on the last frame of a one-shot
   * animation, switches off on frame 0.
   */
  lemma FrameBlock(f: int, frameTime: int, frameCount: int, ms: int)
    requires ms >= 1 && frameTime >= 0 && 0 <= f < frameCount
    ensures Ticks(FrameTimer(0, f, true), frameTime, frameCount, false, ms, FrameUpdates(frameTime, ms)) ==
            if f + 1 == frameCount then FrameTimer(0, 0, false) else FrameTimer(0, f + 1, true)
  {
    var q := frameTime / ms;
    FrameAccumulates(f, frameTime, frameCount, ms, q);
    assert q * ms + ms > frameTime;
  }

  lemma MulStep(k: nat, b: nat)
    requires k >= 1
    ensures (k - 1) * b + b == k * b
  {
  }

  /**
   * At any constant update length ms >= 1, a one-shot animation started on
   * frame 0 is on frame k and active after k blocks of FrameUpdates updates,
   * for k < frameCount, and off on frame 0 after frameCount blocks.
   */
  lemma {:induction false} OneShotFrames(frameTime: int, frameCount: int, ms: int, k: nat)
    requires ms >= 1 && frameTime >= 0 && 1 <= frameCount && k <= frameCount
    ensures Ticks(FrameTimer(0, 0, true), frameTime, frameCount, false, ms, k * FrameUpdates(frameTime, ms)) ==
            if k == frameCount then FrameTimer(0, 0, false) else FrameTimer(0, k, true)
  {
    if k > 0 {
      var b := FrameUpdates(frameTime, ms);
      OneShotFrames(frameTime, frameCount, ms, k - 1);
      MulStep(k, b);
      TicksSplit(FrameTimer(0, 0, true), frameTime, frameCount, false, ms, (k - 1) * b, b);
      FrameBlock(k - 1, frameTime, frameCount, ms);
    }
  }

  /**
   * Between those block boundaries the animation stays on frame k and active,
   * with j times ms accumulated after the block's first j updates.
   */
  lemma OneShotSchedule(frameTime: int, frameCount: int, ms: int, k: nat, j: nat)
    requires ms >= 1 && frameTime >= 0 && k < frameCount && j < FrameUpdates(frameTime, ms)
    ensures Ticks(FrameTimer(0, 0, true), frameTime, frameCount, false, ms, k * FrameUpdates(frameTime, ms) + j) ==
            FrameTimer(j * ms, k, true)
  {
    var n := k * FrameUpdates(frameTime, ms);
    OneShotFrames(frameTime, frameCount, ms, k);
    TicksSplit(FrameTimer(0, 0, true), frameTime, frameCount, false, ms, n, j);
    FrameAccumulates(k, frameTime, frameCount, ms, j);
  }

  /** The strip layout Animation.Initialize stores: frame size, frame count, frame time and looping. */
  datatype Strip = Strip(frameWidth: int, frameHeight: int, frameCount: int, frameTime: int, looping: bool)

  /** Where and how the current frame is drawn. */
  datatype Placement = Placement(position: Vec, rotation: real, scale: real, layerDepth: real)

  /** The layout, timer and placement of a newly constructed animation. */
  const NoStrip := Strip(0, 0, 0, 0, false)
  const Stopped := FrameTimer(0, 0, false)
  const NoPlacement := Placement(Zero, 0.0, 0.0, 0.0)

  class Animation {
    var strip: Strip
    var timer: FrameTimer
    var initialized: bool
    var placement: Placement
    var sourceRect: Rect

    /** An animation can only be active once it has been initialized. */
    predicate Valid()
      reads this
    {
      timer.shouldDraw ==> initialized
    }

    /** The timer an Update with this game time leaves behind when it does not throw. */
    function Stepped(gameTime: GameTime): FrameTimer
      reads this
    {
      if timer.shouldDraw
      then Tick(timer, strip.frameTime, strip.frameCount, strip.looping, Truncate(gameTime.elapsedMilliseconds))
      else timer
    }

    /** A new animation is neither initialized nor active. */
    constructor ()
      ensures strip == NoStrip && timer == Stopped && !initialized
      ensures placement == NoPlacement && sourceRect == Rect(0, 0, 0, 0) && Valid()
    {
      strip := NoStrip;
      timer := Stopped;
      initialized := false;
      placement := NoPlacement;
      sourceRect := Rect(0, 0, 0, 0);
    }

    /** Puts this animation back into the state of a newly constructed one. */
    method Reset()
      modifies this
      ensures strip == NoStrip && timer == Stopped && !initialized
      ensures placement == NoPlacement && sourceRect == Rect(0, 0, 0, 0) && Valid()
    {
      strip := NoStrip;
      timer := Stopped;
      initialized := false;
      placement := NoPlacement;
      sourceRect := Rect(0, 0, 0, 0);
    }

    /** Stores the strip's geometry and timing and starts the animation at frame 0. */
    method Initialize(position: Vec, frameWidth: int, frameHeight: int, frameCount: int,
                      frameTime: int, scale: real, looping: bool)
      modifies this
      ensures strip == Strip(frameWidth, frameHeight, frameCount, frameTime, looping)
      ensures timer == FrameTimer(0, 0, true) && initialized && Valid()
      ensures placement == old(placement).(position := position, scale := scale, layerDepth := 0.0)
      ensures sourceRect == old(sourceRect)
    {
      strip := Strip(frameWidth, frameHeight, frameCount, frameTime, looping);
      placement := placement.(position := position, scale := scale, layerDepth := 0.0);
      timer := FrameTimer(0, 0, true);
      initialized := true;
    }

    /**
     * Advances the frame timer by the frame's whole milliseconds and selects the
     * current frame's rectangle. An inactive animation returns at once and
     * changes nothing; an active one that was never initialized throws, which is
     * reported as ok == false.
     */
    method Update(gameTime: GameTime) returns (ok: bool)
      modifies this
      ensures ok <==> !(old(timer.shouldDraw) && !initialized)
      ensures old(Valid()) ==> ok && Valid()
      ensures !old(timer.shouldDraw) || !ok ==> unchanged(this)
      ensures ok ==> timer == old(Stepped(gameTime))
      ensures old(timer.shouldDraw) && ok ==>
        sourceRect == Rect(timer.frame * strip.frameWidth, 0, strip.frameWidth, strip.frameHeight)
      ensures strip == old(strip) && initialized == old(initialized) && placement == old(placement)
    {
      if !timer.shouldDraw {
        return true;
      } else if !initialized {
        return false;
      }
      ok := true;
      var elapsed := timer.elapsed + Truncate(gameTime.elapsedMilliseconds);
      var frame := timer.frame;
      var shouldDraw := timer.shouldDraw;
      if elapsed > strip.frameTime {
        frame := frame + 1;
        if frame == strip.frameCount {
          frame := 0;
          if strip.looping == false {
            shouldDraw := false;
          }
        }
        elapsed := 0;
      }
      timer := FrameTimer(elapsed, frame, shouldDraw);
      sourceRect := Rect(frame * strip.frameWidth, 0, strip.frameWidth, strip.frameHeight);
    }

    /**
     * Draw: throws (ok == false) exactly when the animation is active but was
     * never initialized, and puts the sprite on screen exactly when it is active
     * and initialized.
     */
    method Draw() returns (ok: bool, drawn: bool)
      ensures ok <==> !(timer.shouldDraw && !initialized)
      ensures drawn <==> timer.shouldDraw && initialized
      ensures Valid() ==> ok
    {
      if timer.shouldDraw {
        if !initialized {
          return false, false;
        }
        return true, true;
      }
      return true, false;
    }
  }
}
