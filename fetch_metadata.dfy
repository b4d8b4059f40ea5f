/**
 * The `fetch-metadata` edge function: classify a video URL by platform,
 * fetch the page, and read the Open Graph title, description and image out
 * of the HTML with three regular expressions.
 *
 * The page fetch is an input (`PageFetch`): the model takes what `fetch(url)`
 * gave, or that it threw.
 */
module FetchMetadata {
  import opened Wrappers
  import opened Text
  import opened Http

  datatype Platform = Youtube | Tiktok | Instagram | Facebook | Unknown {
    /** The platform's name in the metadata record. */
    function Name(): string {
      match this
      case Youtube => "youtube"
      case Tiktok => "tiktok"
      case Instagram => "instagram"
      case Facebook => "facebook"
      case Unknown => "unknown"
    }
  }

  /** The platforms, in the order the classifier tests them. */
  const Tested: seq<Platform> := [Youtube, Tiktok, Instagram, Facebook]

  /** The URL substrings that mark each platform (matched case-sensitively). */
  function Markers(p: Platform): seq<string> {
    match p
    case Youtube => ["youtube.com", "youtu.be"]
    case Tiktok => ["tiktok.com"]
    case Instagram => ["instagram.com"]
    case Facebook => ["facebook.com", "fb.watch"]
    case Unknown => []
  }

  /** `url` contains one of the markers of `p`. */
  predicate Marks(url: string, p: Platform) {
    exists k :: 0 <= k < |Markers(p)| && Contains(url, Markers(p)[k])
  }

  /** The if/else chain that assigns `platform` once. */
  function Classify(url: string): Platform {
    if Contains(url, "youtube.com") || Contains(url, "youtu.be") then Youtube
    else if Contains(url, "tiktok.com") then Tiktok
    else if Contains(url, "instagram.com") then Instagram
    else if Contains(url, "facebook.com") || Contains(url, "fb.watch") then Facebook
    else Unknown
  }

  lemma MarksYoutube(url: string)
    ensures Marks(url, Youtube) <==> Contains(url, "youtube.com") || Contains(url, "youtu.be")
  {
    assert Markers(Youtube)[0] == "youtube.com" && Markers(Youtube)[1] == "youtu.be";
  }

  lemma MarksFacebook(url: string)
    ensures Marks(url, Facebook) <==> Contains(url, "facebook.com") || Contains(url, "fb.watch")
  {
    assert Markers(Facebook)[0] == "facebook.com" && Markers(Facebook)[1] == "fb.watch";
  }

  lemma MarksSingle(url: string)
    ensures Marks(url, Tiktok) <==> Contains(url, "tiktok.com")
    ensures Marks(url, Instagram) <==> Contains(url, "instagram.com")
  {
    assert Markers(Tiktok)[0] == "tiktok.com";
    assert Markers(Instagram)[0] == "instagram.com";
  }

  /**
   * The classifier picks the first platform, in the tested order, that the
   * URL marks; a URL that marks none is `Unknown`.
   */
  lemma ClassifyFirstMarked(url: string)
    ensures Classify(url) == Unknown <==> forall k :: 0 <= k < |Tested| ==> !Marks(url, Tested[k])
    ensures forall k :: 0 <= k < |Tested| ==>
      (Classify(url) == Tested[k] <==> Marks(url, Tested[k]) && forall j :: 0 <= j < k ==> !Marks(url, Tested[j]))
  {
    MarksYoutube(url);
    MarksFacebook(url);
    MarksSingle(url);
    assert Tested[0] == Youtube && Tested[1] == Tiktok && Tested[2] == Instagram && Tested[3] == Facebook;
    forall k | 0 <= k < |Tested|
      ensures Classify(url) == Tested[k] <==> Marks(url, Tested[k]) && forall j :: 0 <= j < k ==> !Marks(url, Tested[j])
    {
      assert k == 0 || k == 1 || k == 2 || k == 3;
    }
  }

  // ---------------------------------------------------------------------
  // The Open Graph regular expressions

  const OgTitle: string := "<meta property=\"og:title\" content=\""
  const OgDescription: string := "<meta property=\"og:description\" content=\""
  const OgImage: string := "<meta property=\"og:image\" content=\""

  /** The end of the run of non-quote characters that starts at `j`. */
  function RunEnd(s: string, j: nat): (e: nat)
    requires j <= |s|
    ensures j <= e <= |s|
    ensures forall k :: j <= k < e ==> s[k] != '"'
    ensures e == |s| || s[e] == '"'
    decreases |s| - j
  {
    if j < |s| && s[j] != '"' then RunEnd(s, j + 1) else j
  }

  /** The regex `prefix([^"]+)"` matches at index `i`. */
  predicate MatchesAt(s: string, prefix: string, i: nat) {
    ContainsAt(s, prefix, i) && i + |prefix| < RunEnd(s, i + |prefix|) < |s|
  }

  /**
   * `MatchesAt` is the regex's own condition: after the prefix, one or more
   * non-quote characters and then a quote.
   */
  lemma MatchesAtIff(s: string, prefix: string, i: nat)
    ensures MatchesAt(s, prefix, i) <==>
      ContainsAt(s, prefix, i) &&
      exists e :: i + |prefix| < e < |s| && s[e] == '"' &&
        forall k :: i + |prefix| <= k < e ==> s[k] != '"'
  {
    if ContainsAt(s, prefix, i) {
      var j := i + |prefix|;
      if e :| j < e < |s| && s[e] == '"' && forall k :: j <= k < e ==> s[k] != '"' {
        RunEndAt(s, j, e);
      }
    }
  }

  /** What the regex captures at a match: the run of non-quote characters after the prefix. */
  function CaptureAt(s: string, prefix: string, i: nat): (c: string)
    requires MatchesAt(s, prefix, i)
    ensures c != "" && '"' !in c
  {
    s[i + |prefix|..RunEnd(s, i + |prefix|)]
  }

  /** The leftmost index at or after `from` where the regex matches. */
  function FirstMatch(s: string, prefix: string, from: nat): (r: Option<nat>)
    requires from <= |s|
    ensures r.Some? ==>
      from <= r.value <= |s| && MatchesAt(s, prefix, r.value) &&
      forall k :: from <= k < r.value ==> !MatchesAt(s, prefix, k)
    ensures r.None? ==> forall k :: from <= k <= |s| ==> !MatchesAt(s, prefix, k)
    decreases |s| - from
  {
    if MatchesAt(s, prefix, from) then Some(from)
    else if from == |s| then None
    else FirstMatch(s, prefix, from + 1)
  }

  /** `html.match(/prefix([^"]+)"/)`, reduced to its group 1; `None` when there is no match. */
  function Capture(html: string, prefix: string): (r: Option<string>)
    ensures r.Some? ==> r.value != "" && '"' !in r.value
  {
    match FirstMatch(html, prefix, 0)
    case None => None
    case Some(i) => Some(CaptureAt(html, prefix, i))
  }

  /** An occurrence of the prefix followed at once by a quote (`content=""`) is no match: the search goes on past it. */
  lemma EmptyContentSkipped(html: string, prefix: string, i: nat)
    requires ContainsAt(html, prefix + "\"", i)
    ensures i < |html| && FirstMatch(html, prefix, i) == FirstMatch(html, prefix, i + 1)
  {
    var j := i + |prefix|;
    assert html[i..i + |prefix|] == (prefix + "\"")[..|prefix|] == prefix;
    assert html[j] == (prefix + "\"")[|prefix|] == '"';
    assert !MatchesAt(html, prefix, i);
  }

  /** The first occurrence of the prefix with non-empty, quote-free content before a quote is what the regex captures. */
  lemma CaptureOfFirst(html: string, prefix: string, i: nat, content: string)
    requires content != "" && '"' !in content
    requires ContainsAt(html, prefix + content + "\"", i)
    requires forall k :: 0 <= k < i ==> !MatchesAt(html, prefix, k)
    ensures Capture(html, prefix) == Some(content)
  {
    var w := prefix + content + "\"";
    var j := i + |prefix|;
    var e := j + |content|;
    assert html[i..i + |w|] == w;
    assert html[i..j] == w[..|prefix|] == prefix;
    assert html[j..e] == w[|prefix|..e - i] == content;
    assert html[e] == w[|w| - 1] == '"';
    forall k | j <= k < e ensures html[k] != '"' {
      assert html[k] == html[j..e][k - j];
    }
    assert RunEnd(html, j) == e by {
      RunEndAt(html, j, e);
    }
    assert MatchesAt(html, prefix, i);
  }

  /** A run of non-quote characters ending at a quote ends where `RunEnd` says. */
  lemma {:induction false} RunEndAt(s: string, j: nat, e: nat)
    requires j <= e < |s| && s[e] == '"'
    requires forall k :: j <= k < e ==> s[k] != '"'
    ensures RunEnd(s, j) == e
    decreases e - j
  {
    if j < e {
      RunEndAt(s, j + 1, e);
    }
  }

  // ---------------------------------------------------------------------
  // The metadata record and the handler

  datatype Metadata = Metadata(
    title: string,
    platform: Platform,
    thumbnailUrl: Option<string>,
    uploader: string,
    description: string,
    rawUrl: string)

  /** The record built from the URL and the page text. */
  function Extract(url: string, html: string): (m: Metadata)
    ensures m.title != "" && '"' !in m.title
    ensures m.title == (match Capture(html, OgTitle) case Some(t) => t case None => "Untitled")
    ensures m.description == (match Capture(html, OgDescription) case Some(d) => d case None => "")
    ensures m.thumbnailUrl == Capture(html, OgImage)
    ensures m.platform == Classify(url) && m.uploader == "" && m.rawUrl == url
  {
    Metadata(
      Capture(html, OgTitle).GetOr("Untitled"),
      Classify(url),
      Capture(html, OgImage),
      "",
      Capture(html, OgDescription).GetOr(""),
      url)
  }

  /** The request body, `{ url }`; `None` for a missing or `null` url. */
  datatype FetchRequest = FetchRequest(url: Option<string>)

  /** What `fetch(url)` and `response.text()` gave. */
  datatype PageFetch = FetchFailed | Fetched(status: int, html: string)

  /** The JSON body: `{ success: true, metadata }` or `{ error }`. */
  datatype Reply = Success(metadata: Metadata) | Failure(error: Message)

  /**
   * The handler. `body` is `None` when `req.json()` throws or gives no
   * object to destructure.
   */
  function Handle(verb: string, body: Option<FetchRequest>, page: PageFetch): (r: Response<Reply>)
    ensures r.Preflight? <==> IsPreflight(verb)
    ensures r.Answer? ==> (r.status == 200 && r.body.Success?) || (r.status == 400 && r.body.Failure?)
    ensures !IsPreflight(verb) && body.Some? && !Present(body.value.url) ==>
      r == Answer(400, Failure(Literal("URL is required")))
    ensures r.Answer? && r.body.Success? ==>
      body.Some? && Present(body.value.url) && page.Fetched? &&
      r.body.metadata == Extract(body.value.url.value, page.html)
  {
    if IsPreflight(verb) then Preflight
    else
      match body
      case None => Answer(400, Failure(Foreign))
      case Some(req) =>
        if !Present(req.url) then Answer(400, Failure(Literal("URL is required")))
        else
          match page
          case FetchFailed => Answer(400, Failure(Foreign))
          case Fetched(_, html) => Answer(200, Success(Extract(req.url.value, html)))
  }

  /** The status of the page response is never looked at: an error page is scraped like any other. */
  lemma StatusIgnored(verb: string, body: Option<FetchRequest>, s1: int, s2: int, html: string)
    ensures Handle(verb, body, Fetched(s1, html)) == Handle(verb, body, Fetched(s2, html))
  {
  }

  /** A request with a URL and a fetched page succeeds, whatever the page says. */
  lemma FetchedSucceeds(verb: string, url: string, status: int, html: string)
    requires !IsPreflight(verb) && url != ""
    ensures Handle(verb, Some(FetchRequest(Some(url))), Fetched(status, html)) ==
      Answer(200, Success(Extract(url, html)))
    ensures Extract(url, html).uploader == "" && Extract(url, html).rawUrl == url
  {
  }
}
