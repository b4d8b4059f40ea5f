# A video-bookmarking app: its edge functions, web dialogs and Android helpers

The app saves links to short videos (YouTube, TikTok, Instagram, Facebook)
into folders. This project models the decision logic of its core in Dafny and
proves properties of that model:

- **Four Supabase edge functions.**
  - `fetch-metadata` classifies a URL by platform and reads the Open Graph
    title, description and image out of the page.
  - `save-video` checks the request, lets the AI gateway pick one of the
    caller's folders, and inserts the row with its `||` defaults.
  - `ai-suggestions` turns the caller's videos and folders into a prompt and
    maps the gateway's failures to statuses.
  - `suggest-folders` returns `JSON.parse` of the gateway's reply, or a fixed
    fallback list.
- **Two web components.**
  - `SaveVideoModal` is the save dialog: form state, tag parsing and joining,
    folder precedence, and the save request.
  - `FolderVideos` is the search filter of the folder page.
- **The web clipboard hook.** `useClipboardDetection` is a domain predicate
  plus a dedupe and cooldown step.
- **Four Android classes.**
  - The clipboard service (`ClipboardMonitorService`).
  - The share target (`ShareActivity`).
  - The save overlay (`OverlayWindowManager`).
  - The floating bubble (`FloatingBubbleManager`), with its tap, drag and
    dismiss gesture.

How the model is built:

- **One module per source file.**
  - The edge functions and the filter are pure functions and lemmas.
  - Code that updates fields or React state step by step is a class whose
    methods have `modifies` frames.
  - `isSupportedVideoUrl` keeps its loop with early return.
- **Shared modules.**
  - `Wrappers` holds `Option`.
  - `Text` holds substring search, JavaScript and Java `trim`, `split` and
    `join`.
  - `Json` holds JSON values, `JSON.parse` as a partial function, and
    JavaScript truthiness.
  - `Http` holds the handlers' response shape, error messages and the AI
    gateway's reply shapes.
  - `Android` holds the log of outside effects: preference writes, plugin
    calls and activity launches.
- **Outside calls are parameters.** Every network and database call, the AI
  gateway, the clock, the clipboard, the overlay permission and the window
  manager's `addView` are inputs.
- **Errors.** An error the code throws itself carries its text
  (`Literal`). One thrown by code outside the model is `Foreign`.

## Model

| member | source | states |
|---|---|---|
| Http.OrNull | supabase/functions/save-video/index.ts:90-94 | `v \|\| null` is present exactly when `v` is a non-empty string, and is then `v` |
| Json.OrElse | supabase/functions/save-video/index.ts:92-95 | `v \|\| d` on JSON values is `v` when `v` is truthy, and `d` otherwise |
| Json.BacktickRejected | supabase/functions/suggest-folders/index.ts:61 | `JSON.parse` throws on any text whose first non-blank character is a backtick |
| Json.ParseRenderedStrings | supabase/functions/suggest-folders/index.ts:61 | `JSON.parse` of the compact rendering of an array of plain strings gives back that array |
| Json.Put | supabase/functions/suggest-folders/index.ts:61 | defining a member: the key ends up holding the new value; a new key is appended; every other member keeps its place and value; keys stay distinct |
| Json.KeyIndex | supabase/functions/suggest-folders/index.ts:61 | the index of a member with the key, or none iff no member has it |
| Json.ParseMembers | supabase/functions/suggest-folders/index.ts:61 | a parsed object's keys are distinct whenever the members already read are |
| Json.ParseObject | supabase/functions/suggest-folders/index.ts:61 | an object parses to an object whose keys are distinct |
| Json.DuplicateKeyLastWins | supabase/functions/suggest-folders/index.ts:61 | `{"a":1,"a":2}` parses to the one-member object `{a: 2}`: a repeated key keeps its last value |
| Json.ParseEmptyArray | supabase/functions/suggest-folders/index.ts:61 | `[]` parses to the empty array and consumes both characters |
| Text.TrimIdempotent | src/pages/FolderVideos.tsx:49 | trimming a trimmed string changes nothing |
| Text.TrimEmptyIff | src/pages/FolderVideos.tsx:49 | a string trims to empty exactly when every character is whitespace |
| Text.BlankIffAllSpace | src/pages/FolderVideos.tsx:49 | `s.trim() === ""` holds exactly when every character of `s` is JavaScript whitespace |
| Text.TrimSlice | src/components/SaveVideoModal.tsx:138 | the trim of a string is one contiguous slice of it |
| Text.TrimKeepsOut | src/components/SaveVideoModal.tsx:138 | trimming adds no character, so a comma-free piece stays comma-free |
| Text.TrimTrimmed | src/components/SaveVideoModal.tsx:138 | a trim neither starts nor ends with whitespace |
| Text.Split | src/components/SaveVideoModal.tsx:138 | `split(",")` gives at least one piece and no piece contains the separator |
| Text.SplitAtSeparator | src/components/SaveVideoModal.tsx:138 | splitting `a + "," + b`, with `a` comma-free, gives `a` followed by the pieces of `b` |
| Text.JoinEmpty | supabase/functions/ai-suggestions/index.ts:49-50 | a join with a non-empty separator is empty exactly when there is no part, or one empty part |
| Text.JoinContainsParts | supabase/functions/ai-suggestions/index.ts:49-50 | every part occurs in the joined string |
| Text.MapCharsContains | src/pages/FolderVideos.tsx:52-56 | lower-casing character by character keeps every occurrence of a substring |
| Text.ContainsTransitive | src/pages/FolderVideos.tsx:53-57 | an occurrence of an occurrence is an occurrence |
| FetchMetadata.ClassifyFirstMarked | supabase/functions/fetch-metadata/index.ts:21-30 | the platform is the first of YouTube, TikTok, Instagram, Facebook whose markers the URL contains (case-sensitive); with none it is `unknown` |
| FetchMetadata.MatchesAtIff | supabase/functions/fetch-metadata/index.ts:43-45 | a match at `i` is the prefix, then one or more non-quote characters, then a quote |
| FetchMetadata.FirstMatch | supabase/functions/fetch-metadata/index.ts:43-45 | the result is a match with none before it, or there is no match at all |
| FetchMetadata.Capture | supabase/functions/fetch-metadata/index.ts:43-45 | a captured group is non-empty and free of quotes |
| FetchMetadata.EmptyContentSkipped | supabase/functions/fetch-metadata/index.ts:43-45 | a prefix followed at once by a quote is no match, so the search moves past it |
| FetchMetadata.CaptureOfFirst | supabase/functions/fetch-metadata/index.ts:43-45 | the first prefix followed by non-empty, quote-free content and a quote yields exactly that content |
| FetchMetadata.Extract | supabase/functions/fetch-metadata/index.ts:43-61 | the title is the first og:title capture or `Untitled`, so never empty and never quoted; description `''` and image `null` by default; uploader `''`; raw url is the input |
| FetchMetadata.Handle | supabase/functions/fetch-metadata/index.ts:9-77 | preflight iff OPTIONS; 200 with metadata or 400 with an error; a missing url gives 400 `URL is required`; success needs a url and a fetched page and carries `Extract` of them |
| FetchMetadata.StatusIgnored | supabase/functions/fetch-metadata/index.ts:34-40 | the page's HTTP status never changes the answer |
| FetchMetadata.FetchedSucceeds | supabase/functions/fetch-metadata/index.ts:34-61 | a non-empty url and a fetched page always succeed, with uploader `''` and the raw url |
| SaveVideo.FirstNamed | supabase/functions/save-video/index.ts:69-72 | the index found holds the name and no earlier folder does; none found means no folder has the name |
| SaveVideo.FromStringMembers | supabase/functions/save-video/index.ts:31-33 | a body of string members passes the required-field check iff it has non-empty `url`, `title` and `platform` |
| SaveVideo.Suggestion | supabase/functions/save-video/index.ts:66-68 | a suggestion exists exactly for an ok reply with string content, and is that content trimmed |
| SaveVideo.ResolveFolder | supabase/functions/save-video/index.ts:38-80 | a supplied `folder_id`, a missing key or no folders leave the id as it was; otherwise the id of the first folder named by the trimmed reply, if any; always the supplied id or one of the caller's folder ids |
| SaveVideo.InsertRow | supabase/functions/save-video/index.ts:85-96 | the row copies the required fields and user id and applies `\|\| null`, `\|\| []`, `\|\| {}`; no optional column is an empty string; tags and source_raw are truthy |
| SaveVideo.Handle | supabase/functions/save-video/index.ts:9-121 | preflight iff OPTIONS; no user gives 400 `Unauthorized` and no insert; a missing field gives 400 `Missing required fields…`; an insert happens iff auth and fields pass; the inserted folder id is null, the supplied id or one of the caller's folder ids, and the supplied id when given; 200 with the row iff the insert succeeds, else 400 |
| AiSuggestions.VideoItems | supabase/functions/ai-suggestions/index.ts:49 | one `title (platform)` item per video, in order |
| AiSuggestions.VideoContext | supabase/functions/ai-suggestions/index.ts:49 | no videos gives `No videos yet`; otherwise the items joined by `", "` |
| AiSuggestions.FolderContext | supabase/functions/ai-suggestions/index.ts:50 | never empty; no folders, or one unnamed folder, gives `No folders yet`; otherwise the names joined by `", "` |
| AiSuggestions.VideoContextMentions | supabase/functions/ai-suggestions/index.ts:49 | every video's item occurs in the context |
| AiSuggestions.FolderContextMentions | supabase/functions/ai-suggestions/index.ts:50 | every folder name occurs in the context unless the context is the default |
| AiSuggestions.UserPrompt | supabase/functions/ai-suggestions/index.ts:72 | the prompt contains both contexts |
| AiSuggestions.Handle | supabase/functions/ai-suggestions/index.ts:9-121 | preflight iff OPTIONS; status 200 iff a suggestion; statuses only 200, 400, 402, 429; no user gives 400 `Unauthorized`; no key gives 400 `LOVABLE_API_KEY not configured`; a suggestion is non-empty and is the reply's content or `No suggestions available` |
| AiSuggestions.GatewayFailure | supabase/functions/ai-suggestions/index.ts:78-94 | a failed gateway status 429 or 402 passes through with its message; any other gives 400 `AI request failed` |
| AiSuggestions.GatewaySuccess | supabase/functions/ai-suggestions/index.ts:96-109 | an ok reply gives 200 with the first choice's content, or `No suggestions available` when it is absent or empty |
| SuggestFolders.TagsText | supabase/functions/suggest-folders/index.ts:25 | never empty; absent tags, no tags, or one empty tag give `none`; otherwise the tags joined by `", "` |
| SuggestFolders.TitleText | supabase/functions/suggest-folders/index.ts:23 | the title when present; an absent title is rendered `undefined` |
| SuggestFolders.UserPrompt | supabase/functions/suggest-folders/index.ts:21-37 | the prompt starts with the fixed request and holds a `Title:` line with the title (or `undefined`), a `Description:` line with a non-empty description or `none`, and a `Tags:` line with the tags text, which is the single tag itself when there is one non-empty tag |
| SuggestFolders.PromptLines | supabase/functions/suggest-folders/index.ts:21-37 | whatever the three values, the template starts with its head and holds each of the three labelled lines |
| SuggestFolders.ParsedContent | supabase/functions/suggest-folders/index.ts:60-61 | `null` content parses to null, text content to `JSON.parse` of it; anything else throws |
| SuggestFolders.Handle | supabase/functions/suggest-folders/index.ts:9-78 | preflight iff OPTIONS; every answer is 200; every fallback carries the five fixed names; a missing key or failed gateway gives its message; a suggestion comes back iff key, ok status and parse succeed, and it is exactly the parsed reply |
| SuggestFolders.FencedReplyFallsBack | supabase/functions/suggest-folders/index.ts:61-74 | a reply in a Markdown code fence is not stripped, so the fallback comes back |
| SuggestFolders.ArrayReplyReturned | supabase/functions/suggest-folders/index.ts:60-65 | a JSON array of plain strings comes back as that array |
| SuggestFolders.ParsedReplyReturned | supabase/functions/suggest-folders/index.ts:60-65 | whatever the reply parses to is returned verbatim |
| SuggestFolders.NullContentReturned | supabase/functions/suggest-folders/index.ts:60-65 | nothing checks array-ness: null content comes back as null |
| SuggestFolders.NumberReplyReturned | supabase/functions/suggest-folders/index.ts:60-65 | nothing checks the elements or the length: `42` comes back as a number |
| SaveVideoModal.CleanPiece | src/components/SaveVideoModal.tsx:138 | a piece contributes its trim, or nothing when that is empty; the trim is trimmed and comma-free when the piece is |
| SaveVideoModal.CleanTags | src/components/SaveVideoModal.tsx:138 | no more tags than pieces; every tag non-empty and without surrounding whitespace |
| SaveVideoModal.CleanTagsCommaFree | src/components/SaveVideoModal.tsx:138 | comma-free pieces give comma-free tags |
| SaveVideoModal.ParseTags | src/components/SaveVideoModal.tsx:138 | every parsed tag is non-empty, has no surrounding whitespace and no comma |
| SaveVideoModal.ParseJoinTags | src/components/SaveVideoModal.tsx:75-77 | parsing the `", "`-join of non-empty, trimmed, comma-free tags gives back the same tags |
| SaveVideoModal.ParseJoinFrom | src/components/SaveVideoModal.tsx:138 | the induction behind the round trip, with a leading space after each comma |
| SaveVideoModal.SaveRequestFor | src/components/SaveVideoModal.tsx:169-178 | trimmed url and title, `platform \|\| "unknown"`, `thumbnail_url \|\| null`, `note \|\| null`, the chosen folder id, and the parsed tags as a JSON array |
| SaveVideoModal.SaveRequestAccepted | src/components/SaveVideoModal.tsx:169-178 | the dialog's request passes `save-video`'s field check exactly when url and title are not blank |
| SaveVideoModal.Modal.constructor | src/components/SaveVideoModal.tsx:28-41 | the initial form: URL step, empty fields, nothing loading, nothing fetched |
| SaveVideoModal.Modal.StartFetch | src/components/SaveVideoModal.tsx:65-67 | the spinner starts and the URL is appended to the fetches started |
| SaveVideoModal.Modal.Open | src/components/SaveVideoModal.tsx:43-51 | the URL is taken; a non-blank one goes to the details step and starts its fetch, a blank one stays on the URL step and fetches nothing |
| SaveVideoModal.Modal.Reset | src/components/SaveVideoModal.tsx:52-62 | closing resets step, url, metadata, tags, note, selection, custom name and suggestions |
| SaveVideoModal.Modal.MetadataArrived | src/components/SaveVideoModal.tsx:70-80 | the metadata is kept; non-empty tags fill the field as their `", "`-join; a suggestion request for title and tags is appended |
| SaveVideoModal.Modal.MetadataFailed | src/components/SaveVideoModal.tsx:82-90 | only the spinner stops |
| SaveVideoModal.Modal.SuggestionsArrived | src/components/SaveVideoModal.tsx:93-119 | the folder list is taken when read; a failed call shows the fixed five names, otherwise the returned suggestions or none |
| SaveVideoModal.Modal.TypeUrl | src/components/SaveVideoModal.tsx:214 | the URL becomes the typed text |
| SaveVideoModal.Modal.ContinueFromUrl | src/components/SaveVideoModal.tsx:121-128 | a blank URL stays on the URL step; any other goes to details and starts its fetch |
| SaveVideoModal.Modal.Back | src/components/SaveVideoModal.tsx:345 | back to the URL step |
| SaveVideoModal.Modal.ClickFolder | src/components/SaveVideoModal.tsx:271-274 | clicking the selected name clears the selection, any other selects it; the custom name clears |
| SaveVideoModal.Modal.TypeCustomName | src/components/SaveVideoModal.tsx:311-314 | a non-empty custom name clears the selection, an empty one leaves it |
| SaveVideoModal.Modal.TypeTags | src/components/SaveVideoModal.tsx:327 | the tags field becomes the typed text |
| SaveVideoModal.Modal.TypeNote | src/components/SaveVideoModal.tsx:337 | the note field becomes the typed text |
| SaveVideoModal.Modal.Save | src/components/SaveVideoModal.tsx:130-194 | no metadata or an empty title sends nothing; a non-blank custom name is created and beats the selection; an existing selected folder supplies its id, a new one is created; neither leaves the id null; a failed create sends nothing; the request is `SaveRequestFor` of the form; the dialog closes iff the save succeeds |
| FolderVideos.Keep | src/pages/FolderVideos.tsx:52-57 | a video is kept iff it is in the list and its title or a tag mentions the query; the result is an order-preserving subsequence |
| FolderVideos.Filtered | src/pages/FolderVideos.tsx:48-60 | the result is always an order-preserving subsequence of the videos |
| FolderVideos.BlankShowsAll | src/pages/FolderVideos.tsx:49-50 | a whitespace-only query shows every video in the original order |
| FolderVideos.KeptIff | src/pages/FolderVideos.tsx:52-57 | for any other query a video is shown iff its lower-cased title, or one of its lower-cased tags, contains the lower-cased query |
| FolderVideos.CaseInsensitive | src/pages/FolderVideos.tsx:52-56 | queries with the same lower-cased form and the same blankness give the same result |
| FolderVideos.QueryNotTrimmed | src/pages/FolderVideos.tsx:49-52 | spaces take part in the match: `"ab"` finds the title `ab` and `" ab"` does not |
| FolderVideos.MatchesNarrower | src/pages/FolderVideos.tsx:53-57 | a video that mentions a longer query mentions every part of it |
| FolderVideos.KeepNarrower | src/pages/FolderVideos.tsx:53-57 | filtering by a longer query is filtering again the results of a query it contains |
| FolderVideos.Narrowing | src/pages/FolderVideos.tsx:49-57 | for non-blank queries, the results for `q2` are those for a contained `q1` filtered again, so they are a subset |
| ClipboardDetection.InstagramNeedsPath | src/hooks/useClipboardDetection.tsx:4-12 | Instagram counts only through `instagram.com/reel` or `instagram.com/p` |
| ClipboardDetection.Detector.constructor | src/hooks/useClipboardDetection.tsx:15-22 | nothing detected, nothing checked, cooldown clock at 0 |
| ClipboardDetection.Detector.CheckClipboard | src/hooks/useClipboardDetection.tsx:25-47 | within the cooldown, or for an empty, repeated or rejected value, nothing changes; an accepted http(s) link to a listed domain becomes `detectedUrl` and `lastChecked`, and the check time is now |
| ClipboardDetection.Detector.RestartEffect | src/hooks/useClipboardDetection.tsx:22-55 | a new effect run starts its check time at 0 |
| ClipboardDetection.Detector.Tick | src/hooks/useClipboardDetection.tsx:18-55 | one interval tick with the re-run a detection causes: a value is detected iff enabled, the clock is past the cooldown, and the value is new and accepted |
| ClipboardDetection.Detector.DismissUrl | src/hooks/useClipboardDetection.tsx:57-59 | only `detectedUrl` clears; `lastChecked` is kept, so the same link is not reported again |
| ClipboardMonitorService.IsSupportedVideoUrl | android/app/src/main/java/app/lovable/bb24c151251e4bf6b5fb576ba91669ef/ClipboardMonitorService.java:83-93 | the loop returns true exactly for http(s) text containing a listed domain |
| ClipboardMonitorService.AnyDomainIff | android/app/src/main/java/app/lovable/bb24c151251e4bf6b5fb576ba91669ef/ClipboardMonitorService.java:87-92 | the list walk finds a domain iff some entry occurs in the text |
| ClipboardMonitorService.AgreesWithWebHook | android/app/src/main/java/app/lovable/bb24c151251e4bf6b5fb576ba91669ef/ClipboardMonitorService.java:26-30 | the service accepts exactly the texts the web hook accepts |
| ClipboardMonitorService.Service.constructor | android/app/src/main/java/app/lovable/bb24c151251e4bf6b5fb576ba91669ef/ClipboardMonitorService.java:24-50 | a new bubble manager with no bubble, an empty last text, not stopped |
| ClipboardMonitorService.Service.OnPrimaryClipChanged | android/app/src/main/java/app/lovable/bb24c151251e4bf6b5fb576ba91669ef/ClipboardMonitorService.java:55-80 | with permission, a new supported text becomes the last text and is shown in the bubble; otherwise neither the last text nor the bubble changes |
| ClipboardMonitorService.Service.RestoreBubbleIfUrlExists | android/app/src/main/java/app/lovable/bb24c151251e4bf6b5fb576ba91669ef/ClipboardMonitorService.java:145-162 | a supported text is shown when no bubble is visible, whether or not it is the last text; otherwise nothing changes |
| ClipboardMonitorService.Service.OnStartCommand | android/app/src/main/java/app/lovable/bb24c151251e4bf6b5fb576ba91669ef/ClipboardMonitorService.java:126-143 | without permission it stops and returns `START_NOT_STICKY`; otherwise `START_STICKY`, restoring the bubble when asked |
| ClipboardMonitorService.Service.OnDestroy | android/app/src/main/java/app/lovable/bb24c151251e4bf6b5fb576ba91669ef/ClipboardMonitorService.java:165-173 | the bubble is hidden |
| ShareActivity.IsVideoLinkIff | android/app/src/main/java/app/lovable/bb24c151251e4bf6b5fb576ba91669ef/ShareActivity.java:45-49 | shared text is accepted iff it contains one of the five listed domains |
| ShareActivity.NoSchemeCheck | android/app/src/main/java/app/lovable/bb24c151251e4bf6b5fb576ba91669ef/ShareActivity.java:45-49 | a bare host name without a scheme is accepted |
| ShareActivity.NoLetterORejected | android/app/src/main/java/app/lovable/bb24c151251e4bf6b5fb576ba91669ef/ShareActivity.java:45-49 | text without the letter `o` is never accepted |
| ShareActivity.FbWatchRejected | android/app/src/main/java/app/lovable/bb24c151251e4bf6b5fb576ba91669ef/ShareActivity.java:45-49 | an `fb.watch` link is rejected |
| ShareActivity.TruncateUrl | android/app/src/main/java/app/lovable/bb24c151251e4bf6b5fb576ba91669ef/ShareActivity.java:164-169 | up to 50 characters the URL is unchanged; longer, it is its first 47 and `...`, exactly 50; never longer than 50 |
| ShareActivity.TruncateIdempotent | android/app/src/main/java/app/lovable/bb24c151251e4bf6b5fb576ba91669ef/OverlayWindowManager.java:125-130 | truncating twice is truncating once |
| ShareActivity.RequestBody | android/app/src/main/java/app/lovable/bb24c151251e4bf6b5fb576ba91669ef/ShareActivity.java:130-134 | the body always has `url`, and has `title` only for a non-empty custom title |
| ShareActivity.ShareBodyRejected | android/app/src/main/java/app/lovable/bb24c151251e4bf6b5fb576ba91669ef/ShareActivity.java:130-145 | the body never has `platform`, so `save-video`'s required-field test of url, title and platform rejects every share and the success toast is unreachable |
| ShareActivity.ShareScreen.constructor | android/app/src/main/java/app/lovable/bb24c151251e4bf6b5fb576ba91669ef/ShareActivity.java:23 | no dialog, not finished, no toasts, nothing sent |
| ShareActivity.ShareScreen.OnCreate | android/app/src/main/java/app/lovable/bb24c151251e4bf6b5fb576ba91669ef/ShareActivity.java:26-56 | `SEND` of `text/plain` opens the dialog for a video link (label truncated) or toasts and finishes; an untyped or non-`SEND` intent finishes; `SEND` of another type does nothing |
| ShareActivity.ShareScreen.Cancel | android/app/src/main/java/app/lovable/bb24c151251e4bf6b5fb576ba91669ef/ShareActivity.java:70-73 | the dialog is dismissed and the activity finishes |
| ShareActivity.ShareScreen.Save | android/app/src/main/java/app/lovable/bb24c151251e4bf6b5fb576ba91669ef/ShareActivity.java:75-162 | one toast, dismissed, finished; a missing config or token sends nothing; a response records the body with the Java-trimmed title; 200 shows the success text, any other code `Failed to save video` |
| OverlayWindowManager.OverlayManager.constructor | android/app/src/main/java/app/lovable/bb24c151251e4bf6b5fb576ba91669ef/OverlayWindowManager.java:21-22 | no overlay, no URL, nothing attached, no effects |
| OverlayWindowManager.OverlayManager.ShowOverlay | android/app/src/main/java/app/lovable/bb24c151251e4bf6b5fb576ba91669ef/OverlayWindowManager.java:30-110 | without permission nothing changes; otherwise any old overlay is removed first, a new one is made for the URL with the truncated label, and at most that one view is attached |
| OverlayWindowManager.OverlayManager.HideOverlay | android/app/src/main/java/app/lovable/bb24c151251e4bf6b5fb576ba91669ef/OverlayWindowManager.java:112-123 | the overlay is forgotten even when removal throws; only it leaves the window; hiding twice is hiding once |
| OverlayWindowManager.OverlayManager.SaveClicked | android/app/src/main/java/app/lovable/bb24c151251e4bf6b5fb576ba91669ef/OverlayWindowManager.java:54-79 | the plugin (if present) is told the URL, then the app is launched, then the overlay is hidden |
| OverlayWindowManager.OverlayManager.DismissClicked | android/app/src/main/java/app/lovable/bb24c151251e4bf6b5fb576ba91669ef/OverlayWindowManager.java:81-84 | only hides: no effect is logged |
| Android.NotifyAndLaunch | android/app/src/main/java/app/lovable/bb24c151251e4bf6b5fb576ba91669ef/OverlayWindowManager.java:56-77 | the plugin call, when there is a plugin, comes before the one launch, which is last |
| FloatingBubbleManager.BubbleManager.constructor | android/app/src/main/java/app/lovable/bb24c151251e4bf6b5fb576ba91669ef/FloatingBubbleManager.java:20-36 | no bubble, no URL, not dragging, nothing attached, no effects |
| FloatingBubbleManager.BubbleManager.ShowBubble | android/app/src/main/java/app/lovable/bb24c151251e4bf6b5fb576ba91669ef/FloatingBubbleManager.java:38-133 | without permission nothing changes; a visible bubble only takes the URL; otherwise a new bubble at (0, 200) is made and attached when `addView` works; at most one view is attached |
| FloatingBubbleManager.BubbleManager.HideBubble | android/app/src/main/java/app/lovable/bb24c151251e4bf6b5fb576ba91669ef/FloatingBubbleManager.java:135-146 | the bubble is forgotten even when removal throws; only it leaves the window; hiding twice is hiding once |
| FloatingBubbleManager.BubbleManager.OpenAppWithUrl | android/app/src/main/java/app/lovable/bb24c151251e4bf6b5fb576ba91669ef/FloatingBubbleManager.java:152-180 | the pending URL is stored, then the plugin is told, then the app is launched, and only then the bubble hides |
| FloatingBubbleManager.BubbleManager.Touch | android/app/src/main/java/app/lovable/bb24c151251e4bf6b5fb576ba91669ef/FloatingBubbleManager.java:78-125 | DOWN records the start and clears dragging; MOVE follows the finger and marks a drag past 10 px; UP below `height - 300` hides without opening; any other UP opens the app iff not dragging and under 200 ms, then clears dragging; other actions are not consumed |

## Left out

- Network and database I/O (fetches, Supabase auth, queries and inserts, the AI gateway, the Android HTTP call) are inputs; the `events` inserts of `save-video` and `ai-suggestions` are left out, because nothing reads it back.
- `SaveVideo.Handle`: the response carries the object handed to `insert`, not the row the database returns with its generated `id` and `created_at`, which the model cannot know.
- CORS headers, logging, React rendering, toasts' appearance, routing, Android views, notifications, the notification channel and `onBind` are presentation or platform plumbing.
- The texts of errors thrown by code outside the model (database errors, `fetch` failures, TypeErrors, SyntaxErrors) are one `Foreign` message.
- The string-valued request fields are a string, absent, or `null`; a non-string value such as a number or `true` in one of them is not modelled. `save-video`'s `tags` and `source_raw` do hold any JSON value.
- `SuggestFolders.TagsText`: a `tags` field that is not an array (where `.join` throws into the fallback answer) is not modelled; `tags` is a list of strings or absent.
- `SuggestFolders.TitleText`: an absent and a `null` title are one `None`, rendered `undefined`; JavaScript renders `null` as `null`.
- `Json.Parse`: JavaScript lists integer-like keys (`"1"`, `"42"`) first in ascending order; the model keeps the order of first appearance for every key.
- `Json.Parse`: lone-surrogate `\u` escapes and the exact value of a number are not modelled; a number keeps its lexeme.
- `ShareActivity.TruncateUrl`: lengths are counted in Unicode characters, while Java's `length()` and `substring` count UTF-16 code units; a URL with characters above U+FFFF is cut at a different place (26 such characters are 52 units, so Java truncates them and the model does not), and a URL cut in the middle of a surrogate pair cannot be represented. The label of `OverlayWindowManager.OverlayManager.ShowOverlay` uses the same truncation.
- `AiSuggestions.UserPrompt`: only its containment of the two contexts is stated; the system prompt's wording is not modelled.
- `SaveVideoModal.Modal.SuggestionsArrived`: a `suggestions` value that is not an array is not modelled.
- `toLowerCase` is a parameter applied character by character; locale rules and mappings from one character to several are not modelled.
- The Java code's caught-and-logged exceptions are not modelled beyond the window manager's `removeView` (which throws exactly for an unattached view) and `addView` (the `addOk` input).
- `FloatingBubbleManager.BubbleManager.Touch`: it requires an attached bubble, since `updateViewLayout` on an unattached view throws outside the model; touch deltas are integers, not floats.
- The null check on `windowManager` is not modelled: the window manager always exists.
- The threads and `runOnUiThread` of `ShareActivity` are run to completion in order; the dialog's dismiss listener is folded into `finished`.
- `ClipboardDetection.Detector.Tick`: the timing of `setInterval` is left out; `Tick` is one firing.
- The Dashboard retry timers, drag long-press timers, the pending-URL handoff through `postDelayed`, the key–value store wrappers, `create-folder` and the other pages and components are not part of this model.
