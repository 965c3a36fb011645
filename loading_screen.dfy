/**
 * The loading screen of src/components/LoadingScreen.tsx: every 100 ms the
 * progress grows by a random whole number from 5 to 19 and is capped at 100;
 * a 1200 ms timeout ends the loading state.
 */
module LoadingScreen {

  /** `Math.floor(Math.random() * 15 + 5)` for a draw in [0, 1). */
  function Increment(draw: real): (inc: int)
    requires 0.0 <= draw < 1.0
    ensures 5 <= inc <= 19
  {
    (draw * 15.0 + 5.0).Floor
  }

  /** The interval callback's update: `next > 100 ? 100 : next`. */
  function NextProgress(prev: int, draw: real): int
    requires 0.0 <= draw < 1.0
  {
    var next := prev + Increment(draw);
    if next > 100 then 100 else next
  }

  /** Progress never decreases and never exceeds 100; below the cap it grows by 5 to 19. */
  lemma NextProgressBounds(prev: int, draw: real)
    requires 0.0 <= draw < 1.0
    requires prev <= 100
    ensures prev <= NextProgress(prev, draw) <= 100
    ensures NextProgress(prev, draw) == 100 || prev + 5 <= NextProgress(prev, draw) <= prev + 19
  {
  }

  predicate ValidDraws(draws: seq<real>) {
    forall i :: 0 <= i < |draws| ==> 0.0 <= draws[i] < 1.0
  }

  /** Progress after one tick per draw. */
  function ProgressAfter(start: int, draws: seq<real>): int
    requires ValidDraws(draws)
    decreases |draws|
  {
    if draws == [] then start else ProgressAfter(NextProgress(start, draws[0]), draws[1..])
  }

  /** Whatever the draws, `k` ticks from 0 reach at least min(100, 5k) and never pass 100. */
  lemma {:induction false} ProgressLowerBound(start: int, draws: seq<real>)
    requires ValidDraws(draws) && 0 <= start <= 100
    ensures ProgressAfter(start, draws) <= 100
    ensures ProgressAfter(start, draws) >= start
    ensures ProgressAfter(start, draws) >= (if start + 5 * |draws| > 100 then 100 else start + 5 * |draws|)
    decreases |draws|
  {
    if draws != [] {
      var next := NextProgress(start, draws[0]);
      NextProgressBounds(start, draws[0]);
      ProgressLowerBound(next, draws[1..]);
    }
  }

  /** Twenty ticks always reach 100, whatever the draws. */
  lemma ReadyAfterTwentyTicks(draws: seq<real>)
    requires ValidDraws(draws) && |draws| >= 20
    ensures ProgressAfter(0, draws) == 100
  {
    ProgressLowerBound(0, draws);
  }

  /**
   * The 1200 ms timeout leaves room for at most twelve ticks of the 100 ms
   * interval, and twelve of the smallest increments reach only 60: the
   * ready text is not guaranteed to appear before the screen goes away.
   */
  lemma TwelveTicksMayStopShort()
    ensures ValidDraws(seq(12, _ => 0.0))
    ensures ProgressAfter(0, seq(12, _ => 0.0)) == 60
    ensures !ReadyShown(true, ProgressAfter(0, seq(12, _ => 0.0)))
  {
    var draws: seq<real> := seq(12, _ => 0.0);
    assert ValidDraws(draws);
    assert Increment(0.0) == 5;
    SlowestTicks(0, draws);
  }

  /** With every draw 0, each tick below the cap adds exactly 5. */
  lemma {:induction false} SlowestTicks(start: int, draws: seq<real>)
    requires ValidDraws(draws) && forall i :: 0 <= i < |draws| ==> draws[i] == 0.0
    requires 0 <= start && start + 5 * |draws| <= 100
    ensures ProgressAfter(start, draws) == start + 5 * |draws|
    decreases |draws|
  {
    if draws != [] {
      assert NextProgress(start, draws[0]) == start + 5;
      SlowestTicks(start + 5, draws[1..]);
    }
  }

  /** "SYSTEM READY" is on screen when the screen renders and progress has reached 100. */
  predicate ReadyShown(isLoading: bool, progress: int) {
    isLoading && progress >= 100
  }

  class LoadingScreen {
    var progress: int
    var isLoading: bool

    ghost predicate Valid()
      reads this
    {
      0 <= progress <= 100
    }

    constructor ()
      ensures progress == 0 && isLoading
      ensures Valid()
    {
      progress := 0;
      isLoading := true;
    }

    /** The 100 ms interval fires; `draw` is the value `Math.random()` returns. */
    method Tick(draw: real)
      requires Valid() && 0.0 <= draw < 1.0
      modifies this`progress
      ensures Valid()
      ensures progress == NextProgress(old(progress), draw)
      ensures old(progress) <= progress
    {
      var next := progress + Increment(draw);
      progress := if next > 100 then 100 else next;
    }

    /** The 1200 ms timeout fires. */
    method FinishLoading()
      modifies this`isLoading
      ensures !isLoading && !Renders() && !ReadyShown(isLoading, progress)
    {
      isLoading := false;
    }

    /** The screen renders nothing once loading is over. */
    predicate Renders()
      reads this
    {
      isLoading
    }
  }
}
