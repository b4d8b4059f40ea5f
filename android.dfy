/**
 * What the Android helpers do to the world outside their own fields, in the
 * order they do it: writes to the shared preferences, calls into the
 * Capacitor plugin, and activity launches.
 */
module Android {
  import opened Wrappers

  datatype Effect =
      /** `prefs.edit().putString("pendingUrl", url).apply()`. */
      PendingUrlStored(url: Option<string>)
      /** `plugin.notifySaveClicked(url)`, made only when the plugin instance exists. */
    | SaveClickNotified(url: Option<string>)
      /** `context.startActivity` for `MainActivity` with the extras `clipboardUrl` and `autoOpenSave = true`. */
    | MainActivityStarted(clipboardUrl: Option<string>)

  /** The effects of telling the plugin and opening the app with `url`. */
  function NotifyAndLaunch(pluginPresent: bool, url: Option<string>): (es: seq<Effect>)
    ensures |es| == (if pluginPresent then 2 else 1)
    ensures es[|es| - 1] == MainActivityStarted(url)
    ensures pluginPresent ==> es[0] == SaveClickNotified(url)
  {
    (if pluginPresent then [SaveClickNotified(url)] else []) + [MainActivityStarted(url)]
  }
}
