/**
 * The `ai-suggestions` edge function: describe the caller's recent videos
 * and folders to the AI gateway and pass its advice on, mapping the
 * gateway's failures to response statuses.
 *
 * The signed-in user, the two database reads and the gateway's reply are
 * inputs.
 */
module AiSuggestions {
  import opened Wrappers
  import opened Text
  import opened Http

  /** The columns of a video the prompt uses. */
  datatype VideoSummary = VideoSummary(title: string, platform: string)

  /** A database read: it reported an error (which the handler throws), or its `data`, possibly `null`. */
  datatype Query<T> = QueryFailed | Rows(data: Option<seq<T>>)

  const NoVideos: string := "No videos yet"
  const NoFolders: string := "No folders yet"
  const NoSuggestions: string := "No suggestions available"
  const RateLimited: string := "Rate limit exceeded. Please try again later."
  const CreditsExhausted: string := "AI credits exhausted. Please add credits to your workspace."

  /** `${v.title} (${v.platform})`. */
  function VideoItem(v: VideoSummary): (r: string)
    ensures r != ""
  {
    v.title + " (" + v.platform + ")"
  }

  function VideoItems(videos: seq<VideoSummary>): (r: seq<string>)
    ensures |r| == |videos|
    ensures forall k :: 0 <= k < |videos| ==> r[k] == VideoItem(videos[k])
  {
    if videos == [] then [] else [VideoItem(videos[0])] + VideoItems(videos[1..])
  }

  /** `videos?.map(v => ...).join(', ') || 'No videos yet'`. */
  function VideoContext(videos: Option<seq<VideoSummary>>): (r: string)
    ensures videos.None? || |videos.value| == 0 ==> r == NoVideos
    ensures videos.Some? && |videos.value| > 0 ==> r == Join(VideoItems(videos.value), ", ")
  {
    if videos.None? then NoVideos
    else
      var joined := Join(VideoItems(videos.value), ", ");
      JoinEmpty(VideoItems(videos.value), ", ");
      if joined == "" then NoVideos else joined
  }

  /** `folders?.map(f => f.name).join(', ') || 'No folders yet'`: a lone unnamed folder also gives the default. */
  function FolderContext(folders: Option<seq<string>>): (r: string)
    ensures r != ""
    ensures folders.None? || |folders.value| == 0 || (|folders.value| == 1 && folders.value[0] == "") ==> r == NoFolders
    ensures folders.Some? && (|folders.value| > 1 || (|folders.value| == 1 && folders.value[0] != "")) ==>
      r == Join(folders.value, ", ")
  {
    if folders.None? then NoFolders
    else
      var joined := Join(folders.value, ", ");
      JoinEmpty(folders.value, ", ");
      if joined == "" then NoFolders else joined
  }

  /** Every video is described in the context. */
  lemma VideoContextMentions(videos: seq<VideoSummary>, k: nat)
    requires k < |videos|
    ensures Contains(VideoContext(Some(videos)), VideoItem(videos[k]))
  {
    JoinContainsParts(VideoItems(videos), ", ", k);
  }

  /** Every folder name is in the context, unless the context is the default. */
  lemma FolderContextMentions(folders: seq<string>, k: nat)
    requires k < |folders| && (|folders| > 1 || folders[0] != "")
    ensures Contains(FolderContext(Some(folders)), folders[k])
  {
    JoinContainsParts(folders, ", ", k);
  }

  /** The user message sent to the gateway. */
  function UserPrompt(videoContext: string, folderContext: string): (p: string)
    ensures Contains(p, videoContext) && Contains(p, folderContext)
  {
    var head := "Recent videos: " + videoContext + "\nExisting folders: ";
    var p := head + folderContext + "\n\nSuggest ways to organize these videos better.";
    assert ContainsAt(p, videoContext, 15);
    assert ContainsAt(p, folderContext, |head|);
    p
  }

  /** The JSON body: `{ suggestion }` or `{ error }`. */
  datatype Reply = Suggested(suggestion: string) | Failure(error: Message)

  /** The handler gets as far as calling the gateway: not a preflight, a user, both reads fine, an API key. */
  predicate CallsGateway(verb: string, user: Option<string>, videos: Query<VideoSummary>,
                         folders: Query<string>, apiKey: Option<string>) {
    !IsPreflight(verb) && user.Some? && videos.Rows? && folders.Rows? && Present(apiKey)
  }

  /** The handler. */
  function Handle(verb: string, user: Option<string>, videos: Query<VideoSummary>, folders: Query<string>,
                  apiKey: Option<string>, ai: GatewayCall): (r: Response<Reply>)
    ensures r.Preflight? <==> IsPreflight(verb)
    ensures r.Answer? ==> (r.status == 200 <==> r.body.Suggested?)
    ensures r.Answer? ==> r.status in {200, 400, 402, 429}
    ensures !IsPreflight(verb) && user.None? ==> r == Answer(400, Failure(Literal("Unauthorized")))
    ensures !IsPreflight(verb) && user.Some? && videos.Rows? && folders.Rows? && !Present(apiKey) ==>
      r == Answer(400, Failure(Literal("LOVABLE_API_KEY not configured")))
    ensures r.Answer? && r.body.Suggested? ==>
      r.body.suggestion != "" &&
      (r.body.suggestion == NoSuggestions || (ai.Replied? && ai.reply == ContentText(r.body.suggestion)))
  {
    if IsPreflight(verb) then Preflight
    else if user.None? then Answer(400, Failure(Literal("Unauthorized")))
    else if videos.QueryFailed? || folders.QueryFailed? then Answer(400, Failure(Foreign))
    else if !Present(apiKey) then Answer(400, Failure(Literal("LOVABLE_API_KEY not configured")))
    else
      match ai
      case Unreachable => Answer(400, Failure(Foreign))
      case Replied(status, reply) =>
        if !Ok(status) then
          if status == 429 then Answer(429, Failure(Literal(RateLimited)))
          else if status == 402 then Answer(402, Failure(Literal(CreditsExhausted)))
          else Answer(400, Failure(Literal("AI request failed")))
        else
          match reply
          case NotJson => Answer(400, Failure(Foreign))
          case NullJson => Answer(400, Failure(Foreign))
          case ContentText(t) => Answer(200, Suggested(if t != "" then t else NoSuggestions))
          case _ => Answer(200, Suggested(NoSuggestions))
  }

  /** How a failed gateway status becomes the response: 429 and 402 pass through, anything else is a 400. */
  lemma GatewayFailure(verb: string, user: Option<string>, videos: Query<VideoSummary>, folders: Query<string>,
                       apiKey: Option<string>, status: int, reply: Completion)
    requires CallsGateway(verb, user, videos, folders, apiKey) && !Ok(status)
    ensures var r := Handle(verb, user, videos, folders, apiKey, Replied(status, reply));
      (status == 429 ==> r == Answer(429, Failure(Literal(RateLimited)))) &&
      (status == 402 ==> r == Answer(402, Failure(Literal(CreditsExhausted)))) &&
      (status != 429 && status != 402 ==> r == Answer(400, Failure(Literal("AI request failed"))))
  {
  }

  /** An ok reply gives the first choice's content, or the default text where there is none. */
  lemma GatewaySuccess(verb: string, user: Option<string>, videos: Query<VideoSummary>, folders: Query<string>,
                       apiKey: Option<string>, status: int, reply: Completion)
    requires CallsGateway(verb, user, videos, folders, apiKey) && Ok(status) && !reply.NotJson? && !reply.NullJson?
    ensures var r := Handle(verb, user, videos, folders, apiKey, Replied(status, reply));
      r == Answer(200, Suggested(if reply.ContentText? && reply.text != "" then reply.text else NoSuggestions))
  {
  }
}
