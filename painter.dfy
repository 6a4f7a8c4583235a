/** `BorderPainter`: the glass-pane painter that holds the current border and runs
    the blink state machine. The Swing timer is an abstract handle; its periodic
    firing is the `Tick` method, which the host calls for the timer that fired.
    The repaint callback is a flag (set or cleared) plus a count of how many
    times it has been invoked. */
module Painter {
  import opened Common
  import opened Colors
  import opened Settings

  /** A `javax.swing.Timer` created by `startBlinking`: a fresh identity and its delay. */
  datatype BlinkTimer = BlinkTimer(id: nat, delay: int)

  /** What `executePaint` draws: a border of this colour, width and style. */
  datatype DrawInstruction = Draw(color: Rgb, width: int, style: BorderStyle)

  class BorderPainter {
    var borderColor: Option<Rgb>
    var borderWidth: int
    var borderStyle: BorderStyle

    var blinkingEnabled: bool
    var blinkingInterval: int
    var blinkTimer: Option<BlinkTimer>
    var isVisible: bool
    var hasRepaintCallback: bool

    /** How many times the repaint callback has been invoked. */
    var repaintRequests: nat
    /** How many timers have been created; the next one gets this number as its id. */
    var timersCreated: nat

    /** The blink state machine's invariant: a timer runs exactly while blinking, at
        the recorded interval; when steady the border is visible; blinking needs a
        colour. */
    ghost predicate Valid()
      reads this
    {
      && TimerValid()
      && (!blinkingEnabled ==> isVisible)
      && (blinkingEnabled ==> borderColor.Some?)
    }

    /** The timer half of the invariant: every handle the painter holds was created
        by it, so a newly created one differs from it. */
    ghost predicate TimerValid()
      reads this
    {
      && (blinkingEnabled <==> blinkTimer.Some?)
      && (blinkTimer.Some? ==> blinkTimer.value.delay == blinkingInterval && blinkTimer.value.id < timersCreated)
    }

    /** The field initialisers. */
    constructor ()
      ensures Valid()
      ensures borderColor == None && borderWidth == 4 && borderStyle == Solid
      ensures !blinkingEnabled && blinkingInterval == 500 && blinkTimer == None && isVisible
      ensures !hasRepaintCallback && repaintRequests == 0 && timersCreated == 0
    {
      borderColor := None;
      borderWidth := 4;
      borderStyle := Solid;
      blinkingEnabled := false;
      blinkingInterval := 500;
      blinkTimer := None;
      isVisible := true;
      hasRepaintCallback := false;
      repaintRequests := 0;
      timersCreated := 0;
    }

    /** `needsRepaint`: the host repaints the glass pane only while there is a colour. */
    method NeedsRepaint() returns (b: bool)
      ensures b <==> borderColor.Some?
    {
      b := borderColor.Some?;
    }

    /** The draw decision of `executePaint`: nothing without a colour, nothing in the
        hidden half of a blink, otherwise the current colour, width and style. */
    method ExecutePaint() returns (d: Option<DrawInstruction>)
      ensures d.Some? <==> borderColor.Some? && (!blinkingEnabled || isVisible)
      ensures d.Some? ==> d.value == Draw(borderColor.value, borderWidth, borderStyle)
    {
      if borderColor.None? {
        return None;
      }
      var color := borderColor.value;
      if blinkingEnabled && !isVisible {
        return None;
      }
      d := Some(Draw(color, borderWidth, borderStyle));
    }

    method SetRepaintCallback()
      requires Valid()
      modifies this
      ensures Valid() && hasRepaintCallback
      ensures borderColor == old(borderColor) && borderWidth == old(borderWidth) && borderStyle == old(borderStyle)
      ensures blinkingEnabled == old(blinkingEnabled) && blinkingInterval == old(blinkingInterval)
      ensures blinkTimer == old(blinkTimer) && isVisible == old(isVisible)
      ensures repaintRequests == old(repaintRequests) && timersCreated == old(timersCreated)
    {
      hasRepaintCallback := true;
    }

    /** `updateBorder`: store the border, then blink exactly when asked to and there is
        a colour. An already running timer with the same interval is kept, and so is
        the visibility phase; otherwise a new timer replaces it. */
    method UpdateBorder(color: Option<Rgb>, width: int, style: BorderStyle, blinking: bool, interval: int)
      requires Valid()
      modifies this
      ensures Valid()
      ensures borderWidth == width && borderColor == color && borderStyle == style
      ensures blinkingEnabled == (blinking && color.Some?)
      ensures hasRepaintCallback == old(hasRepaintCallback) && repaintRequests == old(repaintRequests)
      // blinking continues at the same interval: nothing restarts
      ensures blinking && color.Some? && old(blinkingEnabled) && old(blinkingInterval) == interval ==>
        blinkTimer == old(blinkTimer) && isVisible == old(isVisible) &&
        blinkingInterval == interval && timersCreated == old(timersCreated)
      // blinking starts, or its interval changes: a fresh timer, visible phase
      ensures blinking && color.Some? && !(old(blinkingEnabled) && old(blinkingInterval) == interval) ==>
        blinkTimer == Some(BlinkTimer(old(timersCreated), interval)) && blinkTimer != old(blinkTimer) &&
        blinkingInterval == interval && isVisible && timersCreated == old(timersCreated) + 1
      // no blinking: no timer, visible
      ensures !(blinking && color.Some?) ==>
        blinkTimer == None && isVisible &&
        blinkingInterval == old(blinkingInterval) && timersCreated == old(timersCreated)
    {
      borderWidth := width;
      borderColor := color;
      borderStyle := style;

      var shouldBlink := blinking && color.Some?;

      if shouldBlink {
        if !blinkingEnabled || blinkingInterval != interval {
          StartBlinking(interval);
        }
      } else {
        StopBlinking();
      }
    }

    /** `startBlinking`: stop any timer, then start a new one at `interval`. */
    method StartBlinking(interval: int)
      requires TimerValid() && borderColor.Some?
      modifies this
      ensures Valid()
      ensures blinkingEnabled && blinkingInterval == interval && isVisible
      ensures blinkTimer == Some(BlinkTimer(old(timersCreated), interval)) && timersCreated == old(timersCreated) + 1
      ensures blinkTimer != old(blinkTimer)
      ensures borderColor == old(borderColor) && borderWidth == old(borderWidth) && borderStyle == old(borderStyle)
      ensures hasRepaintCallback == old(hasRepaintCallback) && repaintRequests == old(repaintRequests)
    {
      StopBlinking();

      blinkingEnabled := true;
      blinkingInterval := interval;
      isVisible := true;

      blinkTimer := Some(BlinkTimer(timersCreated, interval));
      timersCreated := timersCreated + 1;
    }

    /** `stopBlinking`: no timer, steady and visible; calling it again changes nothing. */
    method StopBlinking()
      modifies this
      ensures Valid()
      ensures blinkTimer == None && !blinkingEnabled && isVisible
      ensures blinkingInterval == old(blinkingInterval) && timersCreated == old(timersCreated)
      ensures borderColor == old(borderColor) && borderWidth == old(borderWidth) && borderStyle == old(borderStyle)
      ensures hasRepaintCallback == old(hasRepaintCallback) && repaintRequests == old(repaintRequests)
    {
      blinkTimer := None;
      blinkingEnabled := false;
      isVisible := true;
    }

    /** One firing of timer `t`: the live timer flips the visibility and calls the
        repaint callback once, if there is one. A stopped timer no longer fires, so a
        tick from any other handle changes nothing. */
    method Tick(t: BlinkTimer)
      requires Valid()
      modifies this
      ensures Valid()
      ensures old(blinkTimer) == Some(t) ==>
        isVisible == !old(isVisible) &&
        repaintRequests == old(repaintRequests) + (if hasRepaintCallback then 1 else 0)
      ensures old(blinkTimer) != Some(t) ==>
        isVisible == old(isVisible) && repaintRequests == old(repaintRequests)
      ensures borderColor == old(borderColor) && borderWidth == old(borderWidth) && borderStyle == old(borderStyle)
      ensures blinkingEnabled == old(blinkingEnabled) && blinkingInterval == old(blinkingInterval)
      ensures blinkTimer == old(blinkTimer) && timersCreated == old(timersCreated)
      ensures hasRepaintCallback == old(hasRepaintCallback)
    {
      if blinkTimer == Some(t) {
        isVisible := !isVisible;
        if hasRepaintCallback {
          repaintRequests := repaintRequests + 1;
        }
      }
    }

    /** `dispose`: stop blinking and drop the repaint callback. */
    method Dispose()
      modifies this
      ensures Valid()
      ensures blinkTimer == None && !blinkingEnabled && isVisible && !hasRepaintCallback
      ensures borderColor == old(borderColor) && borderWidth == old(borderWidth) && borderStyle == old(borderStyle)
      ensures blinkingInterval == old(blinkingInterval)
      ensures repaintRequests == old(repaintRequests) && timersCreated == old(timersCreated)
    {
      StopBlinking();
      hasRepaintCallback := false;
    }
  }

  /** A blink scenario: blinking at 500 ms, an update that keeps
      500 ms does not restart the timer, 300 ms does; removing the colour stops
      blinking; after `dispose` no tick can request a repaint. */
  method BlinkScenario(red: Rgb)
  {
    var p := new BorderPainter();
    p.SetRepaintCallback();
    p.UpdateBorder(Some(red), 4, Solid, true, 500);
    var first := p.blinkTimer.value;
    assert p.blinkingEnabled && p.isVisible;

    p.Tick(first);
    assert !p.isVisible && p.repaintRequests == 1;
    var hidden := p.ExecutePaint();
    assert hidden == None;

    p.UpdateBorder(Some(red), 4, Solid, true, 500);
    assert p.blinkTimer == Some(first) && !p.isVisible;

    p.UpdateBorder(Some(red), 4, Dashed, true, 300);
    var second := p.blinkTimer.value;
    assert second != first && second.delay == 300 && p.isVisible;

    p.Tick(first);
    assert p.isVisible && p.repaintRequests == 1;

    p.UpdateBorder(None, 4, Solid, true, 300);
    assert !p.blinkingEnabled && p.blinkTimer == None;
    var none := p.ExecutePaint();
    assert none == None;

    p.UpdateBorder(Some(red), 4, Solid, true, 300);
    var third := p.blinkTimer.value;
    p.Dispose();
    p.Tick(third);
    assert p.repaintRequests == 1;
  }
}
