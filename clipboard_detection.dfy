/**
 * The web app's clipboard watcher (`useClipboardDetection`): every two
 * seconds it reads the clipboard and, for a new http(s) link to a supported
 * site, reports it as `detectedUrl`.
 *
 * The hook's React state (`detectedUrl`, `lastChecked`) and the closure
 * variable `lastCheckTime` of the running effect are the fields of a class.
 * The clock and the clipboard read are inputs.
 */
module ClipboardDetection {
  import opened Wrappers
  import opened Text

  const SupportedDomains: seq<string> :=
    ["youtube.com", "youtu.be", "tiktok.com", "instagram.com/reel", "instagram.com/p", "facebook.com", "fb.watch"]

  /** `COOLDOWN`, in milliseconds. */
  const Cooldown: int := 5000

  /** `SUPPORTED_DOMAINS.some(domain => value.includes(domain))`. */
  predicate MentionsDomain(value: string) {
    exists k :: 0 <= k < |SupportedDomains| && Contains(value, SupportedDomains[k])
  }

  predicate IsHttp(value: string) {
    StartsWith(value, "http://") || StartsWith(value, "https://")
  }

  /** The test a new clipboard value must pass to be reported. */
  predicate Accepts(value: string) {
    MentionsDomain(value) && IsHttp(value)
  }

  /** A link to an Instagram profile, rather than a reel or a post, is not reported (the site's name alone is not a listed domain). */
  lemma InstagramNeedsPath()
    ensures "instagram.com" !in SupportedDomains && "instagram.com/reel" in SupportedDomains
  {
    assert SupportedDomains[3] == "instagram.com/reel";
  }

  class Detector {
    /** The hook's `enabled` argument: when false the effect sets up no interval. */
    const enabled: bool
    var detectedUrl: Option<string>
    var lastChecked: string
    /** The running effect's `lastCheckTime`. */
    var lastCheckTime: int

    /**
     * Every run of the effect starts its own `lastCheckTime` at 0, and a
     * detection changes `lastChecked`, a dependency of the effect, which
     * starts a new run: so between checks `lastCheckTime` is always 0.
     */
    ghost predicate Valid()
      reads this
    {
      lastCheckTime == 0
    }

    constructor(enabled: bool)
      ensures Valid() && this.enabled == enabled && detectedUrl.None? && lastChecked == ""
    {
      this.enabled := enabled;
      detectedUrl := None;
      lastChecked := "";
      lastCheckTime := 0;
    }

    /**
     * `checkClipboard` at time `now`: `read` is the value read, `None` when
     * it is absent or the read throws. Within the cooldown nothing is read;
     * an empty, repeated or rejected value changes nothing; an accepted one
     * becomes both `detectedUrl` and `lastChecked`, and `lastCheckTime` is
     * set to `now`.
     */
    method CheckClipboard(now: int, read: Option<string>)
      modifies this`detectedUrl, this`lastChecked, this`lastCheckTime
      ensures var accepted := now - old(lastCheckTime) >= Cooldown && read.Some? && read.value != "" &&
          read.value != old(lastChecked) && Accepts(read.value);
        if accepted then detectedUrl == read && lastChecked == read.value && lastCheckTime == now
        else unchanged(this`detectedUrl, this`lastChecked, this`lastCheckTime)
    {
      if now - lastCheckTime < Cooldown {
        return;
      }
      match read {
        case None =>
        case Some(value) =>
          if value != "" && value != lastChecked {
            var isSupported := MentionsDomain(value);
            if isSupported && IsHttp(value) {
              detectedUrl := Some(value);
              lastChecked := value;
              lastCheckTime := now;
            }
          }
      }
    }

    /** A new run of the effect, on mount and whenever `enabled` or `lastChecked` changes. */
    method RestartEffect()
      modifies this`lastCheckTime
      ensures Valid()
    {
      lastCheckTime := 0;
    }

    /**
     * One tick of the two-second interval, with the re-run of the effect a
     * detection causes. The cooldown thus only holds back checks made in the
     * first five seconds of the clock.
     */
    method Tick(now: int, read: Option<string>)
      requires Valid()
      modifies this`detectedUrl, this`lastChecked, this`lastCheckTime
      ensures Valid()
      ensures var accepted := enabled && now >= Cooldown && read.Some? && read.value != "" &&
          read.value != old(lastChecked) && Accepts(read.value);
        if accepted then detectedUrl == read && lastChecked == read.value
        else unchanged(this`detectedUrl, this`lastChecked)
    {
      if !enabled {
        return;
      }
      var before := lastChecked;
      CheckClipboard(now, read);
      if lastChecked != before {
        RestartEffect();
      }
    }

    /** `dismissUrl`: only `detectedUrl` is cleared, so the same link is not reported again. */
    method DismissUrl()
      modifies this`detectedUrl
      ensures detectedUrl.None?
    {
      detectedUrl := None;
    }
  }
}
