/**
 * The step schedule of the pixelation hook in src/utils/micro-animations.ts
 * (`usePixelationEffect`).
 *
 * After a start delay the image is redrawn `steps` times with a block size
 * that shrinks from 16 pixels towards 1; after the last step the original
 * source is restored, and the effect's cleanup restores it as well. The canvas
 * drawing is reduced to the block size of each frame.
 */
module Pixelation {

  /** `Math.ceil(n / d)` for a non-negative numerator, as exact integer arithmetic. */
  function CeilDiv(n: nat, d: nat): (r: nat)
    requires d > 0
    ensures r * d >= n
    ensures r == 0 || (r - 1) * d < n
  {
    (n + d - 1) / d
  }

  lemma {:induction false} CeilDivMonotone(n1: nat, n2: nat, d: nat)
    requires d > 0 && n1 <= n2
    ensures CeilDiv(n1, d) <= CeilDiv(n2, d)
  {
    var r1, r2 := CeilDiv(n1, d), CeilDiv(n2, d);
    if r1 > r2 {
      assert (r1 - 1) * d >= r2 * d by {
        assert r1 - 1 >= r2;
        MulMonotone(r2, r1 - 1, d);
      }
    }
  }

  lemma MulMonotone(a: nat, b: nat, d: nat)
    requires a <= b
    ensures a * d <= b * d
  {
  }

  /**
   * `Math.max(1, Math.ceil((steps - currentStep) / steps * 16))`. With no
   * steps JavaScript divides by zero and gets -Infinity, hence 1.
   */
  function PixelSize(steps: nat, currentStep: nat): nat {
    if steps == 0 || currentStep >= steps then 1
    else CeilDiv((steps - currentStep) * 16, steps)
  }

  /** The block size is never below 1 and never above 16. */
  lemma PixelSizeBounds(steps: nat, currentStep: nat)
    ensures 1 <= PixelSize(steps, currentStep) <= 16
  {
    if steps > 0 && currentStep < steps {
      var n := (steps - currentStep) * 16;
      var r := CeilDiv(n, steps);
      assert n <= 16 * steps;
      if r > 16 {
        assert (r - 1) * steps >= 16 * steps by { MulMonotone(16, r - 1, steps); }
      }
    }
  }

  /** The block size never grows as the step counter advances. */
  lemma PixelSizeNonIncreasing(steps: nat, s1: nat, s2: nat)
    requires s1 <= s2
    ensures PixelSize(steps, s2) <= PixelSize(steps, s1)
  {
    PixelSizeBounds(steps, s1);
    if steps > 0 && s2 < steps {
      assert (steps - s2) * 16 <= (steps - s1) * 16;
      CeilDivMonotone((steps - s2) * 16, (steps - s1) * 16, steps);
    }
  }

  /** The image source: the original URL, or a frame rendered with some block size. */
  datatype Source = Url(url: string) | Frame(pixelSize: nat)

  /** The pending timeout: `pixelate` after the start delay, or the next `pixelateStep`. */
  datatype Timer = NoTimer | PixelateTimer(delay: nat) | StepTimer

  datatype Config = Config(steps: nat, startDelay: nat, hasContext: bool)

  /** Defaults of the options object. */
  const DefaultConfig: Config := Config(10, 0, true)

  /** The image's `src`, the closure's `currentStep`, the pending timeout, and every frame drawn so far. */
  datatype State = State(src: Source, currentStep: nat, timer: Timer, drawn: seq<nat>)

  function Mount(c: Config, original: string, hasImage: bool): State {
    State(Url(original), 0, if hasImage then PixelateTimer(c.startDelay) else NoTimer, [])
  }

  /** `pixelateStep`: draw a frame, advance the counter, schedule the next or restore. */
  function Step(c: Config, original: string, s: State): State {
    var size := PixelSize(c.steps, s.currentStep);
    if s.currentStep + 1 <= c.steps then
      State(Frame(size), s.currentStep + 1, StepTimer, s.drawn + [size])
    else
      State(Url(original), s.currentStep + 1, NoTimer, s.drawn + [size])
  }

  /** The pending timeout fires. Without a 2D context `pixelate` returns at once. */
  function Next(c: Config, original: string, s: State): State {
    match s.timer
    case NoTimer => s
    case PixelateTimer(_) =>
      if c.hasContext then Step(c, original, s.(currentStep := 1)) else s.(timer := NoTimer)
    case StepTimer => Step(c, original, s)
  }

  /** The effect's cleanup: clear the timeout and restore the original source. */
  function Cleanup(original: string, s: State): State {
    s.(src := Url(original), timer := NoTimer)
  }

  function Run(c: Config, original: string, s: State, n: nat): State
    decreases n
  {
    if n == 0 then s else Run(c, original, Next(c, original, s), n - 1)
  }

  /** The block sizes of the first `k` frames. */
  function Schedule(steps: nat, k: nat): (r: seq<nat>)
    ensures |r| == k
  {
    if k == 0 then [] else Schedule(steps, k - 1) + [PixelSize(steps, k)]
  }

  /** The frames of a full run shrink monotonically from at most 16 to exactly 1. */
  lemma {:induction false} ScheduleShrinks(steps: nat, k: nat)
    requires 1 <= k
    ensures forall i, j :: 0 <= i <= j < k ==> Schedule(steps, k)[j] <= Schedule(steps, k)[i] <= 16
    ensures k >= steps ==> Schedule(steps, k)[k - 1] == 1
  {
    PixelSizeBounds(steps, k);
    if k > 1 {
      ScheduleShrinks(steps, k - 1);
      var s := Schedule(steps, k);
      forall i | 0 <= i < k - 1
        ensures s[k - 1] <= s[i]
      {
        ScheduleAt(steps, k, i);
        PixelSizeNonIncreasing(steps, i + 1, k);
      }
    }
  }

  lemma {:induction false} ScheduleAt(steps: nat, k: nat, i: nat)
    requires i < k
    ensures Schedule(steps, k)[i] == PixelSize(steps, i + 1)
  {
    if i < k - 1 {
      ScheduleAt(steps, k - 1, i);
    }
  }

  /** The state after `k` of `steps` frames, while more remain (`k < steps`). */
  function Midway(c: Config, k: nat): State {
    State(Frame(PixelSize(c.steps, k)), k + 1, StepTimer, Schedule(c.steps, k))
  }

  /** The state after the whole run. */
  function Finished(c: Config, original: string): State {
    State(Url(original), c.steps + 1, NoTimer, Schedule(c.steps, c.steps))
  }

  lemma {:induction false} RunFromMidway(c: Config, original: string, k: nat)
    requires 1 <= k < c.steps
    ensures Run(c, original, Midway(c, k), c.steps - k) == Finished(c, original)
    decreases c.steps - k
  {
    if k + 1 < c.steps {
      assert Next(c, original, Midway(c, k)) == Midway(c, k + 1);
      RunFromMidway(c, original, k + 1);
    } else {
      assert Next(c, original, Midway(c, k)) == Finished(c, original);
    }
  }

  /**
   * With at least one step and a drawing context, `pixelate` and the steps it
   * schedules draw exactly `steps` frames (step counter 1 to `steps`), then
   * the original source is back and nothing is pending.
   */
  lemma CompleteRun(c: Config, original: string)
    requires c.steps >= 1 && c.hasContext
    ensures Run(c, original, Mount(c, original, true), c.steps) == Finished(c, original)
    ensures |Finished(c, original).drawn| == c.steps
  {
    var m := Mount(c, original, true);
    if c.steps == 1 {
      assert Next(c, original, m) == Finished(c, original);
    } else {
      assert Next(c, original, m) == Midway(c, 1);
      RunFromMidway(c, original, 1);
    }
  }

  /** Cleanup restores the original source at any point, and no firing happens afterwards. */
  lemma {:induction false} CleanupRestores(c: Config, original: string, s: State, n: nat)
    ensures Run(c, original, Cleanup(original, s), n) == Cleanup(original, s)
    ensures Cleanup(original, s).src == Url(original)
    decreases n
  {
    if n > 0 {
      CleanupRestores(c, original, s, n - 1);
    }
  }

  /** The image element the hook drives. */
  class PixelatedImage {
    const original: string
    const config: Config
    var src: Source
    var currentStep: nat
    var timer: Timer
    var drawn: seq<nat>

    function Snapshot(): State
      reads this
    {
      State(src, currentStep, timer, drawn)
    }

    constructor (original: string, config: Config, hasImage: bool)
      ensures this.original == original && this.config == config
      ensures Snapshot() == Mount(config, original, hasImage)
    {
      this.original := original;
      this.config := config;
      src := Url(original);
      currentStep := 0;
      timer := if hasImage then PixelateTimer(config.startDelay) else NoTimer;
      drawn := [];
    }

    method Fire()
      modifies this
      ensures Snapshot() == Next(config, original, old(Snapshot()))
    {
      match timer {
        case NoTimer =>
        case PixelateTimer(_) =>
          if config.hasContext {
            currentStep := 1;
            PixelateStep();
          } else {
            timer := NoTimer;
          }
        case StepTimer =>
          PixelateStep();
      }
    }

    method PixelateStep()
      modifies this
      ensures Snapshot() == Step(config, original, old(Snapshot()))
    {
      var size := PixelSize(config.steps, currentStep);
      src := Frame(size);
      drawn := drawn + [size];
      currentStep := currentStep + 1;
      if currentStep <= config.steps {
        timer := StepTimer;
      } else {
        src := Url(original);
        timer := NoTimer;
      }
    }

    method Unmount()
      modifies this
      ensures Snapshot() == Cleanup(original, old(Snapshot()))
    {
      timer := NoTimer;
      src := Url(original);
    }
  }
}
