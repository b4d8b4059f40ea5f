/**
 * The share target: an activity that receives text shared from another app,
 * shows a quick-save dialog for a video link, and posts it to the
 * `save-video` function.
 *
 * The intent's action, type and text, the build configuration, the stored
 * auth token and the outcome of the HTTP call are inputs. Toasts are kept in
 * the order they are shown.
 */
module ShareActivity {
  import opened Wrappers
  import opened Text
  import opened Http
  import SaveVideo

  const ActionSend: string := "android.intent.action.SEND"

  /** The substrings `handleSharedText` accepts (matched case-sensitively, anywhere in the text). */
  const ShareDomains: seq<string> := ["instagram.com", "tiktok.com", "youtube.com", "youtu.be", "facebook.com"]

  /** The test in `handleSharedText`, for text that is not `null`. */
  predicate IsVideoLink(text: string) {
    Contains(text, "instagram.com") || Contains(text, "tiktok.com") || Contains(text, "youtube.com") ||
    Contains(text, "youtu.be") || Contains(text, "facebook.com")
  }

  /** The test accepts exactly the texts that contain one of the listed domains. */
  lemma IsVideoLinkIff(text: string)
    ensures IsVideoLink(text) <==> exists k :: 0 <= k < |ShareDomains| && Contains(text, ShareDomains[k])
  {
    assert ShareDomains[0] == "instagram.com" && ShareDomains[1] == "tiktok.com";
    assert ShareDomains[2] == "youtube.com" && ShareDomains[3] == "youtu.be" && ShareDomains[4] == "facebook.com";
    if exists k :: 0 <= k < |ShareDomains| && Contains(text, ShareDomains[k]) {
      var k :| 0 <= k < |ShareDomains| && Contains(text, ShareDomains[k]);
      assert k == 0 || k == 1 || k == 2 || k == 3 || k == 4;
    }
    if IsVideoLink(text) {
      var k := if Contains(text, "instagram.com") then 0 else if Contains(text, "tiktok.com") then 1
        else if Contains(text, "youtube.com") then 2 else if Contains(text, "youtu.be") then 3 else 4;
      assert Contains(text, ShareDomains[k]);
    }
  }

  /** There is no scheme check: a bare host name is accepted. */
  lemma NoSchemeCheck()
    ensures IsVideoLink("youtu.be") && !StartsWith("youtu.be", "http")
  {
    assert ContainsAt("youtu.be", "youtu.be", 0);
    assert "youtu.be"[..4][0] == 'y' != "http"[0];
  }

  /** Every listed domain has an `o`, so a text without one is rejected: `fb.watch` links are not accepted. */
  lemma NoLetterORejected(text: string)
    requires 'o' !in text
    ensures !IsVideoLink(text)
  {
    forall sub | sub in ShareDomains ensures !Contains(text, sub) {
      assert 'o' in sub;
      if Contains(text, sub) {
        LetterCarried(text, sub, 'o');
      }
    }
    IsVideoLinkIff(text);
  }

  lemma FbWatchRejected()
    ensures !IsVideoLink("https://fb.watch/x")
  {
    NoLetterORejected("https://fb.watch/x");
  }

  /** A character of an occurrence is a character of the text. */
  lemma LetterCarried(text: string, sub: string, c: char)
    requires Contains(text, sub) && c in sub
    ensures c in text
  {
    var i: nat :| i <= |text| && ContainsAt(text, sub, i);
    var j :| 0 <= j < |sub| && sub[j] == c;
    assert text[i + j] == text[i..i + |sub|][j];
  }

  /** `truncateUrl`: the URL as it is up to 50 characters, otherwise its first 47 and `"..."`. */
  function TruncateUrl(url: string): (r: string)
    ensures |url| <= 50 ==> r == url
    ensures |url| > 50 ==> |r| == 50 && r[..47] == url[..47] && r[47..] == "..."
    ensures |r| <= 50
  {
    if |url| > 50 then url[..47] + "..." else url
  }

  /** A URL that fits is left alone, so truncating twice is truncating once. */
  lemma TruncateIdempotent(url: string)
    ensures TruncateUrl(TruncateUrl(url)) == TruncateUrl(url)
  {
  }

  /** The body `saveVideo` sends: `url` always, `title` only for a non-empty (already trimmed) custom title. */
  predicate IsBody(body: map<string, string>, url: string, customTitle: string) {
    body.Keys == {"url"} + (if customTitle != "" then {"title"} else {}) &&
    body["url"] == url && (customTitle != "" ==> body["title"] == customTitle)
  }

  /** The `JSONObject` put together in `saveVideo`, one `put` at a time. */
  method RequestBody(url: string, customTitle: string) returns (body: map<string, string>)
    ensures IsBody(body, url, customTitle)
  {
    body := map[];
    body := body["url" := url];
    if customTitle != "" {
      body := body["title" := customTitle];
    }
  }

  /**
   * `save-video` demands url, title and platform, and this body never has a
   * platform: every share is answered 400, so the success toast is never shown.
   */
  lemma ShareBodyRejected(body: map<string, string>, url: string, customTitle: string)
    requires IsBody(body, url, customTitle)
    ensures "platform" !in body
    ensures !SaveVideo.HasRequiredFields(SaveVideo.FromStringMembers(body))
  {
    assert "platform" !in {"url"} + (if customTitle != "" then {"title"} else {});
    assert ["url", "title", "platform"][2] == "platform";
  }

  const ConfigError: string := "App configuration error. Please contact support."
  const LoginFirst: string := "Please log in to the app first"
  const SavedText: string := "\U{2713} Video saved successfully!"
  const SaveFailed: string := "Failed to save video"
  const InvalidLink: string := "Please share a valid video link"

  /** The build-time Supabase settings are usable: both present and non-empty. */
  predicate Configured(supabaseUrl: Option<string>, supabaseKey: Option<string>) {
    supabaseUrl.Some? && supabaseKey.Some? && supabaseUrl.value != "" && supabaseKey.value != ""
  }

  class ShareScreen {
    /** The open quick-save dialog and the URL it saves; `None` once dismissed, or before it is built. */
    var dialog: Option<string>
    /** The text of the dialog's URL label. */
    var urlText: string
    /** `finish()` has been called. */
    var finished: bool
    var toasts: seq<Message>
    /** The bodies posted to `save-video` that got a response code. */
    var sent: seq<map<string, string>>

    constructor()
      ensures dialog.None? && urlText == "" && !finished && toasts == [] && sent == []
    {
      dialog := None;
      urlText := "";
      finished := false;
      toasts := [];
      sent := [];
    }

    /**
     * `onCreate`: only `ACTION_SEND` of `text/plain` is handled, by showing
     * the dialog for a video link and otherwise a toast and `finish()`.
     * A send without a type, or any other action, finishes; a send of any
     * other type does neither.
     */
    method OnCreate(action: Option<string>, mime: Option<string>, sharedText: Option<string>)
      modifies this`dialog, this`urlText, this`finished, this`toasts
      ensures action == Some(ActionSend) && mime == Some("text/plain") && sharedText.Some? && IsVideoLink(sharedText.value) ==>
        dialog == Some(sharedText.value) && urlText == TruncateUrl(sharedText.value) &&
        finished == old(finished) && toasts == old(toasts)
      ensures action == Some(ActionSend) && mime == Some("text/plain") && !(sharedText.Some? && IsVideoLink(sharedText.value)) ==>
        unchanged(this`dialog, this`urlText) && finished && toasts == old(toasts) + [Literal(InvalidLink)]
      ensures action != Some(ActionSend) || mime.None? ==>
        unchanged(this`dialog, this`urlText, this`toasts) && finished
      ensures action == Some(ActionSend) && mime.Some? && mime.value != "text/plain" ==>
        unchanged(this`dialog, this`urlText, this`finished, this`toasts)
    {
      if action == Some(ActionSend) && mime.Some? {
        if mime.value == "text/plain" {
          if sharedText.Some? && IsVideoLink(sharedText.value) {
            urlText := TruncateUrl(sharedText.value);
            dialog := Some(sharedText.value);
          } else {
            toasts := toasts + [Literal(InvalidLink)];
            finished := true;
          }
        }
      } else {
        finished := true;
      }
    }

    /** The cancel button: dismiss and finish. */
    method Cancel()
      modifies this`dialog, this`finished
      ensures dialog.None? && finished
    {
      dialog := None;
      finished := true;
    }

    /**
     * The save button, with the background thread run to its end. `titleText`
     * is the title field's text, trimmed the Java way; `response` is the HTTP
     * status, or `None` when the call throws. Every outcome shows one toast,
     * dismisses the dialog and finishes.
     */
    method Save(titleText: string, supabaseUrl: Option<string>, supabaseKey: Option<string>,
                authToken: Option<string>, response: Option<int>)
      requires dialog.Some?
      modifies this`dialog, this`finished, this`toasts, this`sent
      ensures dialog.None? && finished && |toasts| == |old(toasts)| + 1 && toasts[..|old(toasts)|] == old(toasts)
      ensures !Configured(supabaseUrl, supabaseKey) ==> toasts[|toasts| - 1] == Literal(ConfigError) && sent == old(sent)
      ensures Configured(supabaseUrl, supabaseKey) && authToken.None? ==>
        toasts[|toasts| - 1] == Literal(LoginFirst) && sent == old(sent)
      ensures Configured(supabaseUrl, supabaseKey) && authToken.Some? ==>
        (response.Some? ==>
          |sent| == |old(sent)| + 1 && sent[..|old(sent)|] == old(sent) &&
          IsBody(sent[|old(sent)|], old(dialog).value, JavaTrim(titleText))) &&
        (response.None? ==> sent == old(sent)) &&
        toasts[|toasts| - 1] == (match response
          case None => Foreign
          case Some(code) => if code == 200 then Literal(SavedText) else Literal(SaveFailed))
    {
      var url := dialog.value;
      var customTitle := JavaTrim(titleText);
      if !Configured(supabaseUrl, supabaseKey) {
        toasts := toasts + [Literal(ConfigError)];
      } else if authToken.None? {
        toasts := toasts + [Literal(LoginFirst)];
      } else {
        match response {
          case None =>
            toasts := toasts + [Foreign];
          case Some(code) =>
            var body := RequestBody(url, customTitle);
            sent := sent + [body];
            toasts := toasts + [if code == 200 then Literal(SavedText) else Literal(SaveFailed)];
        }
      }
      dialog := None;
      finished := true;
    }
  }
}
