/**
 * The `save-video` edge function: check the caller and the required fields,
 * pick a folder (the one supplied, else one the AI names among the caller's
 * folders), and insert the video row with `||` defaults.
 *
 * The signed-in user, the caller's folders, the AI gateway's reply and the
 * outcome of the insert are inputs.
 */
module SaveVideo {
  import opened Wrappers
  import opened Text
  import opened Http
  import Json

  datatype Folder = Folder(id: string, name: string)

  /** The request body; `None` marks a field that is absent or `null`. */
  datatype SaveRequest = SaveRequest(
    url: Option<string>,
    title: Option<string>,
    platform: Option<string>,
    thumbnailUrl: Option<string>,
    folderId: Option<string>,
    tags: Option<Json.JsonValue>,
    note: Option<string>,
    mood: Option<string>,
    sourceRaw: Option<Json.JsonValue>)

  /** `url && title && platform`. */
  predicate HasRequiredFields(req: SaveRequest) {
    Present(req.url) && Present(req.title) && Present(req.platform)
  }

  /** The request that a JSON object whose members are all strings decodes to; a missing key is absent. */
  function FromStringMembers(members: map<string, string>): (req: SaveRequest)
    ensures HasRequiredFields(req) <==>
      (forall k :: k in ["url", "title", "platform"] ==> k in members && members[k] != "")
  {
    var field := (k: string) => if k in members then Some(members[k]) else None;
    var text := (k: string) => if k in members then Some(Json.JString(members[k])) else None;
    var req := SaveRequest(field("url"), field("title"), field("platform"), field("thumbnail_url"),
      field("folder_id"), text("tags"), field("note"), field("mood"), text("source_raw"));
    assert ["url", "title", "platform"][2] == "platform";
    req
  }

  /** The index `folders.find(f => f.name === name)` stops at. */
  function FirstNamed(folders: seq<Folder>, name: string): (r: Option<nat>)
    ensures r.Some? ==>
      r.value < |folders| && folders[r.value].name == name &&
      forall j :: 0 <= j < r.value ==> folders[j].name != name
    ensures r.None? ==> forall j :: 0 <= j < |folders| ==> folders[j].name != name
  {
    if folders == [] then None
    else if folders[0].name == name then Some(0)
    else match FirstNamed(folders[1..], name)
      case None => None
      case Some(k) => Some(k + 1)
  }

  /**
   * `aiData.choices?.[0]?.message?.content?.trim()` for an ok reply whose
   * content is a string; `None` for every other outcome, including the ones
   * that throw inside the `try` and are swallowed.
   */
  function Suggestion(ai: GatewayCall): (r: Option<string>)
    ensures r.Some? <==> ai.Replied? && Ok(ai.status) && ai.reply.ContentText?
    ensures r.Some? ==> r.value == JsTrim(ai.reply.text) && IsTrimmed(r.value, IsJsSpace)
  {
    if ai.Replied? && Ok(ai.status) && ai.reply.ContentText? then
      TrimTrimmed(ai.reply.text, IsJsSpace);
      Some(JsTrim(ai.reply.text))
    else None
  }

  /**
   * `suggestedFolderId` after the folder lookup: the supplied `folder_id`,
   * overwritten by the id of the first folder whose name is the AI's trimmed
   * reply, when there is no `folder_id`, an API key and at least one folder.
   */
  method ResolveFolder(folderId: Option<string>, apiKey: Option<string>, folders: Option<seq<Folder>>, ai: GatewayCall)
    returns (suggested: Option<string>)
    ensures Present(folderId) || !Present(apiKey) || folders.None? || |folders.value| == 0 ==> suggested == folderId
    ensures ResolvedFrom(suggested, folderId, folders)
    ensures !Present(folderId) && Present(apiKey) && folders.Some? && |folders.value| > 0 ==>
      suggested == match Suggestion(ai)
        case None => folderId
        case Some(name) => match FirstNamed(folders.value, name)
          case None => folderId
          case Some(k) => Some(folders.value[k].id)
  {
    suggested := folderId;
    if !Present(folderId) {
      if Present(apiKey) {
        if folders.Some? && |folders.value| > 0 {
          var reply := Suggestion(ai);
          if reply.Some? {
            var matched := FirstNamed(folders.value, reply.value);
            if matched.Some? {
              suggested := Some(folders.value[matched.value].id);
            }
          }
        }
      }
    }
  }

  /** `s` is the supplied `folder_id` or the id of one of the caller's folders. */
  predicate ResolvedFrom(s: Option<string>, folderId: Option<string>, folders: Option<seq<Folder>>) {
    s == folderId || (folders.Some? && exists k :: 0 <= k < |folders.value| && s == Some(folders.value[k].id))
  }

  /** The inserted row. */
  datatype Row = Row(
    userId: string,
    url: string,
    title: string,
    platform: string,
    thumbnailPath: Option<string>,
    folderId: Option<string>,
    tags: Json.JsonValue,
    note: Option<string>,
    mood: Option<string>,
    sourceRaw: Json.JsonValue)

  /** The object passed to `insert`, with its `||` defaults. */
  function InsertRow(userId: string, req: SaveRequest, suggested: Option<string>): (row: Row)
    requires HasRequiredFields(req)
    ensures row.userId == userId && row.url == req.url.value && row.title == req.title.value
    ensures row.platform == req.platform.value
    ensures row.thumbnailPath == OrNull(req.thumbnailUrl) && row.folderId == OrNull(suggested)
    ensures row.note == OrNull(req.note) && row.mood == OrNull(req.mood)
    ensures row.tags == Json.OrElse(req.tags, Json.JArray([]))
    ensures row.sourceRaw == Json.OrElse(req.sourceRaw, Json.JObject([]))
    ensures Json.Truthy(row.tags) && Json.Truthy(row.sourceRaw)
    ensures row.thumbnailPath != Some("") && row.folderId != Some("") && row.note != Some("") && row.mood != Some("")
  {
    Row(userId, req.url.value, req.title.value, req.platform.value,
        OrNull(req.thumbnailUrl), OrNull(suggested),
        Json.OrElse(req.tags, Json.JArray([])), OrNull(req.note), OrNull(req.mood),
        Json.OrElse(req.sourceRaw, Json.JObject([])))
  }

  /** The JSON body: `{ success: true, video }` or `{ error }`. */
  datatype Reply = Saved(video: Row) | Failure(error: Message)

  /**
   * The handler. `user` is `None` when `getUser` reports an error or no
   * user; `body` is `None` when `req.json()` throws or gives nothing to
   * destructure; `inserted` says whether the insert succeeds. `row` is the
   * row handed to `insert`, `None` when no insert is attempted.
   */
  method Handle(verb: string, user: Option<string>, body: Option<SaveRequest>, apiKey: Option<string>,
                folders: Option<seq<Folder>>, ai: GatewayCall, inserted: bool)
    returns (r: Response<Reply>, row: Option<Row>)
    ensures r.Preflight? <==> IsPreflight(verb)
    ensures !IsPreflight(verb) && user.None? ==> r == Answer(400, Failure(Literal("Unauthorized"))) && row.None?
    ensures !IsPreflight(verb) && user.Some? && body.Some? && !HasRequiredFields(body.value) ==>
      r == Answer(400, Failure(Literal("Missing required fields: url, title, platform"))) && row.None?
    ensures row.Some? <==> !IsPreflight(verb) && user.Some? && body.Some? && HasRequiredFields(body.value)
    ensures row.Some? ==>
      exists s :: ResolvedFrom(s, body.value.folderId, folders) && row.value == InsertRow(user.value, body.value, s)
    ensures row.Some? ==> row.value.folderId.None? || ResolvedFrom(row.value.folderId, body.value.folderId, folders)
    ensures row.Some? && Present(body.value.folderId) ==> row.value.folderId == body.value.folderId
    ensures r.Answer? ==> (r.status == 200 <==> r.body.Saved?) && (r.status == 200 || r.status == 400)
    ensures r.Answer? && r.body.Saved? <==> row.Some? && inserted
    ensures row.Some? && inserted ==> r == Answer(200, Saved(row.value))
  {
    if IsPreflight(verb) {
      return Preflight, None;
    }
    if user.None? {
      return Answer(400, Failure(Literal("Unauthorized"))), None;
    }
    if body.None? {
      return Answer(400, Failure(Foreign)), None;
    }
    var req := body.value;
    if !HasRequiredFields(req) {
      return Answer(400, Failure(Literal("Missing required fields: url, title, platform"))), None;
    }
    var suggested := ResolveFolder(req.folderId, apiKey, folders, ai);
    var inserting := InsertRow(user.value, req, suggested);
    assert inserting.folderId.None? || inserting.folderId == suggested;
    row := Some(inserting);
    if inserted {
      r := Answer(200, Saved(inserting));
    } else {
      r := Answer(400, Failure(Foreign));
    }
  }
}
