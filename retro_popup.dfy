/**
 * The popup of src/components/ui/retro-popup.tsx: a visibility flag that
 * follows `open` at once when it opens and 300 ms later when it closes, and
 * the prize spinner built on it. Timer firings and `Math.random()` are
 * parameters of method calls.
 */
module RetroPopup {
  import opened Wrappers

  /** Milliseconds the popup stays on screen after `open` turns false. */
  const HideDelay: nat := 300

  /** The popup renders nothing exactly when it is neither open nor still visible. */
  predicate Renders(open: bool, isVisible: bool) {
    !(!isVisible && !open)
  }

  class Popup {
    var open: bool
    var isVisible: bool
    /** The hide timeout of the last effect run, until it fires or is cleared. */
    var hidePending: bool

    ghost predicate Valid()
      reads this
    {
      (open ==> isVisible && !hidePending) && (hidePending ==> !open)
    }

    /** Mounting runs the effect once with the initial `open`. */
    constructor (open: bool)
      ensures this.open == open && isVisible == open && hidePending == !open
      ensures Valid()
    {
      this.open := open;
      isVisible := open;
      hidePending := !open;
    }

    /**
     * The parent passes a new `open`. The effect depends on `open` only, so an
     * unchanged value does nothing; otherwise the previous run's cleanup clears
     * its hide timeout and the effect runs again.
     */
    method SetOpen(newOpen: bool)
      requires Valid()
      modifies this
      ensures Valid() && open == newOpen
      ensures newOpen ==> isVisible && !hidePending
      ensures newOpen != old(open) && !newOpen ==> isVisible == old(isVisible) && hidePending
      ensures newOpen == old(open) ==> isVisible == old(isVisible) && hidePending == old(hidePending)
    {
      if newOpen != open {
        hidePending := false;
        open := newOpen;
        if newOpen {
          isVisible := true;
        } else {
          hidePending := true;
        }
      }
    }

    /** The 300 ms hide timeout fires, if one is still pending. */
    method HideTimerFires()
      requires Valid()
      modifies this
      ensures Valid() && open == old(open) && !hidePending
      ensures isVisible == (old(isVisible) && !old(hidePending))
    {
      if hidePending {
        isVisible := false;
        hidePending := false;
      }
    }
  }

  /**
   * Closing an open popup keeps it rendered, for its exit animation, until the
   * 300 ms timer fires; after that it renders nothing.
   */
  method CloseRendersUntilHide(p: Popup) returns (renderedWhileClosing: bool)
    requires p.Valid() && p.open
    modifies p
    ensures renderedWhileClosing
    ensures p.Valid() && !p.open && !p.isVisible && !Renders(p.open, p.isVisible)
  {
    p.SetOpen(false);
    renderedWhileClosing := Renders(p.open, p.isVisible);
    p.HideTimerFires();
  }

  /** Closing keeps the popup on screen until the timer fires; re-opening first cancels the timer. */
  method CloseThenReopen(p: Popup)
    requires p.Valid() && p.open
    modifies p
    ensures p.Valid() && p.open && p.isVisible && Renders(p.open, p.isVisible)
  {
    p.SetOpen(false);
    assert Renders(p.open, p.isVisible);
    p.SetOpen(true);
    p.HideTimerFires();
  }

  /** `Math.floor(Math.random() * n)` for a draw in [0, 1). */
  function PickIndex(draw: real, n: nat): (i: int)
    requires 0.0 <= draw < 1.0
    ensures n > 0 ==> 0 <= i < n
    ensures n == 0 ==> i == 0
  {
    ScaledDrawBelow(draw, n);
    (draw * n as real).Floor
  }

  lemma ScaledDrawBelow(draw: real, n: nat)
    requires 0.0 <= draw < 1.0
    ensures 0.0 <= draw * n as real
    ensures n > 0 ==> draw * n as real < n as real
  {
    if n > 0 {
      assert n as real - draw * n as real == (1.0 - draw) * n as real;
    }
  }

  /** `prizes[index]`: a prize from the list, or `undefined` when the list is empty. */
  function Pick(prizes: seq<string>, draw: real): (p: Option<string>)
    requires 0.0 <= draw < 1.0
    ensures p.Some? <==> |prizes| > 0
    ensures p.Some? ==> p.value in prizes
  {
    var i := PickIndex(draw, |prizes|);
    if 0 <= i < |prizes| then Some(prizes[i]) else None
  }

  /** The text of the spin button. */
  function SpinLabel(isSpinning: bool, selectedPrize: Option<string>): string {
    if isSpinning then "SPINNING..." else if Truthy(selectedPrize) then "SPIN AGAIN" else "SPIN"
  }

  /** The "You won" panel shows only with a prize selected and no spin in progress. */
  predicate ResultShown(isSpinning: bool, selectedPrize: Option<string>) {
    Truthy(selectedPrize) && !isSpinning
  }

  /** The label's three cases; an empty-string prize counts as no prize, as in JavaScript. */
  lemma SpinLabelCases(isSpinning: bool, selectedPrize: Option<string>)
    ensures SpinLabel(isSpinning, selectedPrize) == "SPINNING..." <==> isSpinning
    ensures SpinLabel(isSpinning, selectedPrize) == "SPIN AGAIN" <==> ResultShown(isSpinning, selectedPrize)
    ensures SpinLabel(isSpinning, selectedPrize) == "SPIN" <==> !isSpinning && !Truthy(selectedPrize)
  {
  }

  /** The spinner's pending timeout: choosing after 2000 ms, then finishing 1000 ms later. */
  datatype SpinTimer = NoTimer | ChooseTimer | FinishTimer(prize: Option<string>)

  class Spinner {
    const prizes: seq<string>
    var isSpinning: bool
    var selectedPrize: Option<string>
    var timer: SpinTimer
    /** Every value handed to `onSpin`. */
    var awarded: seq<Option<string>>

    ghost predicate Valid()
      reads this
    {
      (isSpinning <==> timer != NoTimer)
      && (timer.FinishTimer? ==> selectedPrize == timer.prize)
      && (selectedPrize.Some? ==> selectedPrize.value in prizes)
    }

    constructor (prizes: seq<string>)
      ensures this.prizes == prizes
      ensures !isSpinning && selectedPrize == None && timer == NoTimer && awarded == []
      ensures Valid()
    {
      this.prizes := prizes;
      isSpinning := false;
      selectedPrize := None;
      timer := NoTimer;
      awarded := [];
    }

    /** `handleSpin`: ignored while spinning, otherwise start spinning and schedule the choice. */
    method HandleSpin()
      requires Valid()
      modifies this
      ensures Valid()
      ensures old(isSpinning) ==> isSpinning && timer == old(timer)
      ensures !old(isSpinning) ==> isSpinning && timer == ChooseTimer
      ensures selectedPrize == old(selectedPrize) && awarded == old(awarded)
    {
      if isSpinning {
        return;
      }
      isSpinning := true;
      timer := ChooseTimer;
    }

    /** The pending timeout fires; `draw` is the value `Math.random()` returns for the choice. */
    method Fire(draw: real)
      requires Valid() && 0.0 <= draw < 1.0
      modifies this
      ensures Valid()
      ensures old(timer) == NoTimer ==>
        isSpinning == old(isSpinning) && selectedPrize == old(selectedPrize) && timer == NoTimer && awarded == old(awarded)
      ensures old(timer) == ChooseTimer ==>
        isSpinning && selectedPrize == Pick(prizes, draw) && timer == FinishTimer(selectedPrize) && awarded == old(awarded)
      ensures old(timer).FinishTimer? ==>
        !isSpinning && timer == NoTimer && selectedPrize == old(selectedPrize)
        && awarded == old(awarded) + [old(selectedPrize)]
    {
      match timer {
        case NoTimer =>
        case ChooseTimer =>
          var randomPrize := Pick(prizes, draw);
          selectedPrize := randomPrize;
          timer := FinishTimer(randomPrize);
        case FinishTimer(prize) =>
          isSpinning := false;
          awarded := awarded + [prize];
          timer := NoTimer;
      }
    }
  }
}
