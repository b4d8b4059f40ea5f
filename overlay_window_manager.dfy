/**
 * The save/dismiss overlay drawn over other apps for a copied link. The
 * window manager is reduced to the set of views attached to it; the overlay
 * permission, the success of `addView` and the presence of the plugin
 * instance are inputs.
 */
module OverlayWindowManager {
  import opened Wrappers
  import opened Android
  import ShareActivity

  class OverlayManager {
    /** The inflated overlay, by number; `None` for `null`. */
    var overlayView: Option<nat>
    var currentUrl: Option<string>
    /** The text of the overlay's URL label. */
    var urlText: string
    /** The views attached to the window manager. */
    var windowViews: set<nat>
    /** How many views have been inflated; the next one gets this number. */
    var inflated: nat
    var effects: seq<Effect>

    /** At most one view is attached, and it is the current overlay. */
    ghost predicate Valid()
      reads this
    {
      windowViews <= (if overlayView.Some? then {overlayView.value} else {}) &&
      (overlayView.Some? ==> overlayView.value < inflated)
    }

    constructor()
      ensures Valid() && overlayView.None? && currentUrl.None? && windowViews == {} && effects == []
    {
      overlayView := None;
      currentUrl := None;
      urlText := "";
      windowViews := {};
      inflated := 0;
      effects := [];
    }

    /**
     * `showOverlay`: without the overlay permission nothing happens;
     * otherwise any overlay there is hidden first, and a new one is
     * inflated for `url`, labelled with its truncation, and added to the
     * window (when `addView` works).
     */
    method ShowOverlay(url: string, canDraw: bool, addOk: bool)
      requires Valid()
      modifies this`overlayView, this`currentUrl, this`urlText, this`windowViews, this`inflated
      ensures Valid()
      ensures !canDraw ==> unchanged(this)
      ensures canDraw ==>
        currentUrl == Some(url) && urlText == ShareActivity.TruncateUrl(url) &&
        overlayView == Some(old(inflated)) && inflated == old(inflated) + 1 &&
        windowViews == (if addOk then {old(inflated)} else {})
    {
      if !canDraw {
        return;
      }
      if overlayView.Some? {
        HideOverlay();
      }
      currentUrl := Some(url);
      overlayView := Some(inflated);
      inflated := inflated + 1;
      urlText := ShareActivity.TruncateUrl(url);
      if addOk {
        windowViews := windowViews + {overlayView.value};
      }
    }

    /**
     * `hideOverlay`: the overlay is removed from the window and forgotten;
     * when `removeView` throws it is forgotten all the same. Hiding twice is
     * hiding once.
     */
    method HideOverlay()
      modifies this`overlayView, this`windowViews
      ensures overlayView.None?
      ensures windowViews == old(windowViews) - (if old(overlayView).Some? then {old(overlayView).value} else {})
      ensures old(Valid()) ==> Valid() && windowViews == {}
    {
      if overlayView.Some? {
        windowViews := windowViews - {overlayView.value};
        overlayView := None;
      }
    }

    /** The save button: tell the plugin (if there is one), open the app, then hide. */
    method SaveClicked(pluginPresent: bool)
      requires Valid() && overlayView.Some? && overlayView.value in windowViews
      modifies this`effects, this`overlayView, this`windowViews
      ensures Valid() && overlayView.None? && windowViews == {}
      ensures effects == old(effects) + NotifyAndLaunch(pluginPresent, currentUrl)
    {
      effects := effects + NotifyAndLaunch(pluginPresent, currentUrl);
      HideOverlay();
    }

    /** The dismiss button: only hide. */
    method DismissClicked()
      requires Valid() && overlayView.Some? && overlayView.value in windowViews
      modifies this`overlayView, this`windowViews
      ensures Valid() && overlayView.None? && windowViews == {}
    {
      HideOverlay();
    }
  }
}
