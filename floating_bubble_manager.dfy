/**
 * The floating bubble drawn over other apps when a video link is copied: it
 * can be tapped (open the app with the link), dragged, or dragged into the
 * bottom strip of the screen to dismiss it.
 *
 * The window manager is reduced to the set of views attached to it; the
 * overlay permission, the success of `addView`, the touch events and the
 * presence of the plugin instance are inputs. Touch coordinates are whole
 * pixels.
 */
module FloatingBubbleManager {
  import opened Wrappers
  import opened Android

  /** `MAX_CLICK_DURATION`: a touch shorter than this, in milliseconds, is a tap. */
  const MaxClickDuration: int := 200
  /** A move farther than this, in pixels along either axis, is a drag. */
  const DragSlop: int := 10
  /** Releasing the bubble lower than this many pixels above the bottom of the screen dismisses it. */
  const DismissZone: int := 300
  /** Where a new bubble is placed: `params.x = 0`, `params.y = 200`. */
  const StartX: int := 0
  const StartY: int := 200

  /** The touch events the listener reacts to, with the clock or the raw position it reads. */
  datatype TouchEvent = Down(time: int, rawX: int, rawY: int) | Move(rawX: int, rawY: int) | Up(time: int) | OtherAction

  function Abs(n: int): nat {
    if n < 0 then -n else n
  }

  class BubbleManager {
    /** `displayMetrics.heightPixels`, read once by the constructor. */
    const screenHeight: int
    /** The inflated bubble, by number; `None` for `null`. */
    var bubbleView: Option<nat>
    var currentUrl: Option<string>
    var isDragging: bool
    var initialX: int
    var initialY: int
    var initialTouchX: int
    var initialTouchY: int
    /** `params.x` and `params.y` of the current bubble's layout. */
    var x: int
    var y: int
    /** The current bubble's touch listener's `clickStartTime`. */
    var clickStartTime: int
    /** The views attached to the window manager. */
    var windowViews: set<nat>
    /** How many views have been inflated; the next one gets this number. */
    var inflated: nat
    var effects: seq<Effect>

    /** At most one view is attached, and it is the current bubble. */
    ghost predicate Valid()
      reads this
    {
      windowViews <= (if bubbleView.Some? then {bubbleView.value} else {}) &&
      (bubbleView.Some? ==> bubbleView.value < inflated)
    }

    constructor(screenHeight: int)
      ensures Valid() && this.screenHeight == screenHeight
      ensures bubbleView.None? && currentUrl.None? && !isDragging && windowViews == {} && effects == []
    {
      this.screenHeight := screenHeight;
      bubbleView := None;
      currentUrl := None;
      isDragging := false;
      initialX, initialY, initialTouchX, initialTouchY := 0, 0, 0, 0;
      x, y := 0, 0;
      clickStartTime := 0;
      windowViews := {};
      inflated := 0;
      effects := [];
    }

    /** `isBubbleVisible`: there is a bubble view, attached or not. */
    predicate IsBubbleVisible()
      reads this
    {
      bubbleView.Some?
    }

    /**
     * `showBubble`: without the overlay permission nothing happens; with a
     * bubble already there only the URL changes; otherwise a new bubble is
     * inflated at the start position and added to the window (when `addView`
     * works; the exception is swallowed and the view kept when it does not).
     */
    method ShowBubble(url: string, canDraw: bool, addOk: bool)
      requires Valid()
      modifies this
      ensures Valid()
      ensures !canDraw ==> unchanged(this)
      ensures canDraw ==> currentUrl == Some(url) && IsBubbleVisible()
      ensures unchanged(this`isDragging, this`initialX, this`initialY, this`initialTouchX, this`initialTouchY, this`effects)
      ensures canDraw && old(bubbleView).Some? ==>
        unchanged(this`bubbleView, this`windowViews, this`inflated, this`x, this`y, this`clickStartTime)
      ensures canDraw && old(bubbleView).None? ==>
        bubbleView == Some(old(inflated)) && inflated == old(inflated) + 1 &&
        windowViews == old(windowViews) + (if addOk then {old(inflated)} else {}) &&
        x == StartX && y == StartY && clickStartTime == 0
    {
      if !canDraw {
        return;
      }
      if bubbleView.Some? {
        currentUrl := Some(url);
        return;
      }
      currentUrl := Some(url);
      bubbleView := Some(inflated);
      inflated := inflated + 1;
      x, y := StartX, StartY;
      clickStartTime := 0;
      if addOk {
        windowViews := windowViews + {bubbleView.value};
      }
    }

    /**
     * `hideBubble`: the bubble is removed from the window and forgotten; when
     * `removeView` throws because the view was never attached it is forgotten
     * all the same. Hiding twice is hiding once.
     */
    method HideBubble()
      modifies this`bubbleView, this`windowViews
      ensures !IsBubbleVisible()
      ensures windowViews == old(windowViews) - (if old(bubbleView).Some? then {old(bubbleView).value} else {})
      ensures old(Valid()) ==> Valid() && windowViews == {}
    {
      if bubbleView.Some? {
        windowViews := windowViews - {bubbleView.value};
        bubbleView := None;
      }
    }

    /**
     * `openAppWithUrl`: store the URL as the pending one, tell the plugin (if
     * there is one), open the app, and only then hide the bubble.
     */
    method OpenAppWithUrl(pluginPresent: bool)
      requires Valid()
      modifies this`effects, this`bubbleView, this`windowViews
      ensures Valid() && !IsBubbleVisible() && windowViews == {}
      ensures effects == old(effects) + [PendingUrlStored(currentUrl)] + NotifyAndLaunch(pluginPresent, currentUrl)
    {
      effects := effects + [PendingUrlStored(currentUrl)] + NotifyAndLaunch(pluginPresent, currentUrl);
      HideBubble();
    }

    /**
     * The bubble's touch listener. Only an attached bubble gets touches.
     * `Down` starts a gesture; `Move` follows the finger and marks a drag once
     * it has gone more than `DragSlop` either way; `Up` low on the screen
     * dismisses the bubble, and otherwise a short touch that did not drag
     * opens the app.
     */
    method Touch(e: TouchEvent, pluginPresent: bool) returns (consumed: bool)
      requires Valid() && bubbleView.Some? && bubbleView.value in windowViews
      modifies this
      ensures Valid()
      ensures consumed <==> !e.OtherAction?
      ensures unchanged(this`currentUrl, this`inflated)
      ensures e.OtherAction? ==> unchanged(this)
      ensures e.Down? ==>
        clickStartTime == e.time && !isDragging && initialX == old(x) && initialY == old(y) &&
        initialTouchX == e.rawX && initialTouchY == e.rawY &&
        unchanged(this`bubbleView, this`windowViews, this`x, this`y, this`effects)
      ensures e.Move? ==>
        var dx, dy := e.rawX - old(initialTouchX), e.rawY - old(initialTouchY);
        isDragging == (old(isDragging) || Abs(dx) > DragSlop || Abs(dy) > DragSlop) &&
        x == old(initialX) + dx && y == old(initialY) + dy &&
        unchanged(this`bubbleView, this`windowViews, this`effects, this`clickStartTime) &&
        unchanged(this`initialX, this`initialY, this`initialTouchX, this`initialTouchY)
      ensures e.Up? && old(y) > screenHeight - DismissZone ==>
        !IsBubbleVisible() && windowViews == {} && effects == old(effects) && isDragging == old(isDragging)
      ensures e.Up? && old(y) <= screenHeight - DismissZone ==>
        !isDragging &&
        if !old(isDragging) && e.time - old(clickStartTime) < MaxClickDuration then
          !IsBubbleVisible() && windowViews == {} &&
          effects == old(effects) + [PendingUrlStored(currentUrl)] + NotifyAndLaunch(pluginPresent, currentUrl)
        else
          unchanged(this`bubbleView, this`windowViews, this`effects)
      ensures e.Up? ==>
        unchanged(this`x, this`y, this`clickStartTime, this`initialX, this`initialY, this`initialTouchX, this`initialTouchY)
    {
      match e {
        case Down(time, rawX, rawY) =>
          clickStartTime := time;
          isDragging := false;
          initialX, initialY := x, y;
          initialTouchX, initialTouchY := rawX, rawY;
          return true;
        case Move(rawX, rawY) =>
          var dx, dy := rawX - initialTouchX, rawY - initialTouchY;
          if Abs(dx) > DragSlop || Abs(dy) > DragSlop {
            isDragging := true;
          }
          x, y := initialX + dx, initialY + dy;
          return true;
        case Up(time) =>
          var clickDuration := time - clickStartTime;
          if y > screenHeight - DismissZone {
            HideBubble();
            return true;
          }
          if !isDragging && clickDuration < MaxClickDuration {
            OpenAppWithUrl(pluginPresent);
          }
          isDragging := false;
          return true;
        case OtherAction =>
          return false;
      }
    }
  }
}
