/**
 * The Android foreground service that watches the clipboard and shows the
 * floating bubble for a copied video link.
 *
 * The overlay permission, the clipboard's first text item (`None` when
 * there is no clip, no item or no text) and the success of `addView` are
 * inputs; exceptions caught and logged by the service are left out.
 */
module ClipboardMonitorService {
  import opened Wrappers
  import opened Text
  import opened FloatingBubbleManager
  import ClipboardDetection

  const SupportedDomains: seq<string> :=
    ["youtube.com", "youtu.be", "tiktok.com", "instagram.com/reel", "instagram.com/p", "facebook.com", "fb.watch"]

  /** `Service.START_STICKY` and `Service.START_NOT_STICKY`. */
  const StartSticky: int := 1
  const StartNotSticky: int := 2

  /** Some entry of `domains` occurs in `text`. */
  predicate AnyDomain(text: string, domains: seq<string>)
    decreases |domains|
  {
    domains != [] && (Contains(text, domains[0]) || AnyDomain(text, domains[1..]))
  }

  /** What `isSupportedVideoUrl` computes. */
  predicate IsSupported(text: string) {
    (StartsWith(text, "http://") || StartsWith(text, "https://")) && AnyDomain(text, SupportedDomains)
  }

  /** `isSupportedVideoUrl`: the scheme test, then the loop over the domains with its early return. */
  method IsSupportedVideoUrl(text: string) returns (r: bool)
    ensures r == IsSupported(text)
  {
    if !StartsWith(text, "http://") && !StartsWith(text, "https://") {
      return false;
    }
    var i := 0;
    while i < |SupportedDomains|
      invariant 0 <= i <= |SupportedDomains|
      invariant AnyDomain(text, SupportedDomains) == AnyDomain(text, SupportedDomains[i..])
    {
      assert SupportedDomains[i..][1..] == SupportedDomains[i + 1..];
      if Contains(text, SupportedDomains[i]) {
        return true;
      }
      i := i + 1;
    }
    return false;
  }

  lemma {:induction false} AnyDomainIff(text: string, domains: seq<string>)
    ensures AnyDomain(text, domains) <==> exists k :: 0 <= k < |domains| && Contains(text, domains[k])
    decreases |domains|
  {
    if domains != [] {
      AnyDomainIff(text, domains[1..]);
      if exists k :: 0 <= k < |domains| && Contains(text, domains[k]) {
        var k :| 0 <= k < |domains| && Contains(text, domains[k]);
        if k > 0 {
          assert domains[1..][k - 1] == domains[k];
        }
      }
      if AnyDomain(text, domains[1..]) {
        var k :| 0 <= k < |domains[1..]| && Contains(text, domains[1..][k]);
        assert domains[k + 1] == domains[1..][k];
      }
    }
  }

  /** The service and the web app's hook accept the same clipboard texts. */
  lemma AgreesWithWebHook(text: string)
    ensures IsSupported(text) <==> ClipboardDetection.Accepts(text)
  {
    assert SupportedDomains == ClipboardDetection.SupportedDomains;
    AnyDomainIff(text, SupportedDomains);
  }

  class Service {
    const bubble: BubbleManager
    var lastClipboardText: string
    /** `stopSelf()` has been called. */
    var stopped: bool

    ghost predicate Valid()
      reads this, bubble
    {
      bubble.Valid()
    }

    /** `onCreate`, which builds the bubble manager for a screen `screenHeight` pixels high. */
    constructor(screenHeight: int)
      ensures Valid() && fresh(bubble) && !bubble.IsBubbleVisible()
      ensures lastClipboardText == "" && !stopped
    {
      bubble := new BubbleManager(screenHeight);
      lastClipboardText := "";
      stopped := false;
    }

    /**
     * The clip-changed listener: with the overlay permission, a text that
     * differs from `lastClipboardText` and is supported becomes
     * `lastClipboardText` and is shown in the bubble; anything else changes
     * nothing.
     */
    method OnPrimaryClipChanged(canDraw: bool, clip: Option<string>, addOk: bool)
      requires Valid()
      modifies this`lastClipboardText, bubble
      ensures Valid()
      ensures var shown := canDraw && clip.Some? && clip.value != old(lastClipboardText) && IsSupported(clip.value);
        if shown then lastClipboardText == clip.value && bubble.currentUrl == clip && bubble.IsBubbleVisible()
        else unchanged(this`lastClipboardText) && unchanged(bubble)
    {
      if !canDraw {
        return;
      }
      if clip.Some? {
        var clipText := clip.value;
        if clipText != lastClipboardText {
          var supported := IsSupportedVideoUrl(clipText);
          if supported {
            lastClipboardText := clipText;
            bubble.ShowBubble(clipText, canDraw, addOk);
          }
        }
      }
    }

    /**
     * `restoreBubbleIfUrlExists`: a supported text is shown when no bubble
     * is visible, whether or not it equals `lastClipboardText`.
     */
    method RestoreBubbleIfUrlExists(canDraw: bool, clip: Option<string>, addOk: bool)
      requires Valid()
      modifies this`lastClipboardText, bubble
      ensures Valid()
      ensures var shown := clip.Some? && IsSupported(clip.value) && !old(bubble.IsBubbleVisible());
        (shown ==> lastClipboardText == clip.value && (canDraw ==> bubble.currentUrl == clip && bubble.IsBubbleVisible())) &&
        (!shown ==> unchanged(this`lastClipboardText) && unchanged(bubble))
    {
      if clip.Some? {
        var clipText := clip.value;
        var supported := IsSupportedVideoUrl(clipText);
        if supported && !bubble.IsBubbleVisible() {
          lastClipboardText := clipText;
          bubble.ShowBubble(clipText, canDraw, addOk);
        }
      }
    }

    /**
     * `onStartCommand`: without the overlay permission the service stops and
     * is not restarted; otherwise, when started from the notification
     * (`showBubble` extra set), the bubble is restored, and the service is
     * sticky.
     */
    method OnStartCommand(canDraw: bool, showBubbleExtra: bool, clip: Option<string>, addOk: bool) returns (r: int)
      requires Valid()
      modifies this`stopped, this`lastClipboardText, bubble
      ensures Valid()
      ensures !canDraw ==> r == StartNotSticky && stopped && unchanged(this`lastClipboardText) && unchanged(bubble)
      ensures canDraw ==> r == StartSticky && stopped == old(stopped)
      ensures canDraw ==>
        var shown := showBubbleExtra && clip.Some? && IsSupported(clip.value) && !old(bubble.IsBubbleVisible());
        (shown ==> lastClipboardText == clip.value && bubble.currentUrl == clip && bubble.IsBubbleVisible()) &&
        (!shown ==> unchanged(this`lastClipboardText) && unchanged(bubble))
    {
      if !canDraw {
        stopped := true;
        return StartNotSticky;
      }
      if showBubbleExtra {
        RestoreBubbleIfUrlExists(canDraw, clip, addOk);
      }
      return StartSticky;
    }

    /** `onDestroy`: the bubble is hidden. */
    method OnDestroy()
      requires Valid()
      modifies bubble`bubbleView, bubble`windowViews
      ensures Valid() && !bubble.IsBubbleVisible()
    {
      bubble.HideBubble();
    }
  }
}
