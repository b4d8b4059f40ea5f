/**
 * The `suggest-folders` edge function: ask the AI gateway for folder names
 * for one video and return its reply parsed with `JSON.parse`, or a fixed
 * fallback list. Every outcome is an HTTP 200.
 *
 * The request body and the gateway's reply are inputs.
 */
module SuggestFolders {
  import opened Wrappers
  import opened Text
  import opened Http
  import Json

  /** The list returned whenever anything fails. */
  const Fallback: seq<string> := ["General", "Entertainment", "Educational", "Music", "Other"]

  /** The request body; `None` marks an absent field. */
  datatype FoldersRequest = FoldersRequest(title: Option<string>, tags: Option<seq<string>>, description: Option<string>)

  /** `${description || 'none'}` in the prompt. */
  function DescriptionText(description: Option<string>): (r: string)
    ensures r == (if Present(description) then description.value else "none")
  {
    OrNull(description).GetOr("none")
  }

  /** `${tags?.join(', ') || 'none'}` in the prompt. */
  function TagsText(tags: Option<seq<string>>): (r: string)
    ensures r != ""
    ensures tags.None? || |tags.value| == 0 ==> r == "none"
    ensures tags == Some([""]) ==> r == "none"
    ensures tags.Some? && (|tags.value| > 1 || (|tags.value| == 1 && tags.value[0] != "")) ==>
      r == Join(tags.value, ", ")
  {
    if tags.None? then "none"
    else
      var joined := Join(tags.value, ", ");
      JoinEmpty(tags.value, ", ");
      if joined == "" then "none" else joined
  }

  /** `${title}` in the prompt: an absent title is rendered as `undefined`. */
  function TitleText(title: Option<string>): (r: string)
    ensures title.Some? ==> r == title.value
    ensures title.None? ==> r == "undefined"
  {
    title.GetOr("undefined")
  }

  /** The prompt text before the title line. */
  const PromptIntro := "Based on this video information, suggest 5 specific, meaningful folder names that would be good for organizing it:\n    \n"

  /** The prompt text after the tags line. */
  const PromptRules := "\nRequirements:\n" +
    "- Analyze the CONTENT and TOPIC of the video carefully\n" +
    "- Be VERY SPECIFIC based on the description (e.g., \"Italian Pasta Recipes\" not just \"Food\", \"HIIT Cardio Workouts\" not just \"Fitness\")\n" +
    "- Use the video description as the PRIMARY source for understanding the content\n" +
    "- Keep names short (2-4 words max)\n" +
    "- Make them practical for organizing similar videos\n" +
    "- Avoid generic names like \"Entertainment\", \"General\", \"Videos\"\n" +
    "- Return ONLY a JSON array of strings, no other text\n" +
    "\n" +
    "Example for a cooking video about Italian pasta:\n" +
    "[\"Italian Recipes\", \"Pasta Dishes\", \"Quick Dinners\", \"Mediterranean Cooking\", \"Homemade Pasta\"]"

  /** The user message sent to the gateway: one line each for the title, the description and the tags. */
  function UserPrompt(title: Option<string>, description: Option<string>, tags: Option<seq<string>>): (p: string)
    ensures StartsWith(p, PromptIntro + "Title: ")
    ensures title.Some? ==> Contains(p, "Title: " + title.value + "\n")
    ensures title.None? ==> Contains(p, "Title: undefined\n")
    ensures Present(description) ==> Contains(p, "\nDescription: " + description.value + "\n")
    ensures !Present(description) ==> Contains(p, "\nDescription: none\n")
    ensures Contains(p, "\nTags: " + TagsText(tags) + "\n")
    ensures tags.Some? && |tags.value| == 1 && tags.value[0] != "" ==> Contains(p, "\nTags: " + tags.value[0] + "\n")
  {
    assert "Title: " + "undefined" + "\n" == "Title: undefined\n";
    assert "\nDescription: " + "none" + "\n" == "\nDescription: none\n";
    PromptLines(PromptIntro, TitleText(title), DescriptionText(description), TagsText(tags), PromptRules);
    Prompt(PromptIntro, TitleText(title), DescriptionText(description), TagsText(tags), PromptRules)
  }

  /** The template: the three lines between a fixed head and a fixed tail. */
  function Prompt(intro: string, title: string, description: string, tags: string, rules: string): string {
    intro + "Title: " + title + "\nDescription: " + description + "\nTags: " + tags + "\n" + rules
  }

  lemma PromptLines(intro: string, title: string, description: string, tags: string, rules: string)
    ensures StartsWith(Prompt(intro, title, description, tags, rules), intro + "Title: ")
    ensures Contains(Prompt(intro, title, description, tags, rules), "Title: " + title + "\n")
    ensures Contains(Prompt(intro, title, description, tags, rules), "\nDescription: " + description + "\n")
    ensures Contains(Prompt(intro, title, description, tags, rules), "\nTags: " + tags + "\n")
  {
    var p := Prompt(intro, title, description, tags, rules);
    var t := |intro|;
    var d := t + 7 + |title|;
    var g := d + 14 + |description|;
    assert p == intro + ("Title: " + title) + ("\nDescription: " + description) + ("\nTags: " + tags + "\n") + rules;
    assert ContainsAt(p, "Title: " + title + "\n", t);
    assert ContainsAt(p, "\nDescription: " + description + "\n", d);
    assert ContainsAt(p, "\nTags: " + tags + "\n", g);
  }

  /** The JSON body: `{ suggestions }` with whatever the reply parsed to, or `{ error, suggestions }` with the fallback. */
  datatype Reply = Suggested(suggestions: Json.JsonValue) | Fallen(error: Message, fallback: seq<string>)

  /** `JSON.parse(data.choices[0].message.content)`: `None` where it, or the property access, throws. */
  function ParsedContent(reply: Completion): (r: Option<Json.JsonValue>)
    ensures reply.ContentNull? ==> r == Some(Json.JNull)
    ensures reply.ContentText? ==> r == Json.Parse(reply.text)
    ensures !reply.ContentNull? && !reply.ContentText? ==> r.None?
  {
    match reply
    case ContentNull => Some(Json.JNull)
    case ContentText(t) => Json.Parse(t)
    case _ => None
  }

  function Handle(verb: string, body: Option<FoldersRequest>, apiKey: Option<string>, ai: GatewayCall): (r: Response<Reply>)
    ensures r.Preflight? <==> IsPreflight(verb)
    ensures r.Answer? ==> r.status == 200
    ensures r.Answer? && r.body.Fallen? ==> r.body.fallback == Fallback
    ensures !IsPreflight(verb) && body.Some? && !Present(apiKey) ==>
      r == Answer(200, Fallen(Literal("LOVABLE_API_KEY not configured"), Fallback))
    ensures !IsPreflight(verb) && body.Some? && Present(apiKey) && ai.Replied? && !Ok(ai.status) ==>
      r == Answer(200, Fallen(Literal("Failed to get AI suggestions"), Fallback))
    ensures r.Answer? && r.body.Suggested? <==>
      !IsPreflight(verb) && body.Some? && Present(apiKey) && ai.Replied? && Ok(ai.status) &&
      ParsedContent(ai.reply).Some?
    ensures r.Answer? && r.body.Suggested? ==> Some(r.body.suggestions) == ParsedContent(ai.reply)
  {
    if IsPreflight(verb) then Preflight
    else if body.None? then Answer(200, Fallen(Foreign, Fallback))
    else if !Present(apiKey) then Answer(200, Fallen(Literal("LOVABLE_API_KEY not configured"), Fallback))
    else
      match ai
      case Unreachable => Answer(200, Fallen(Foreign, Fallback))
      case Replied(status, reply) =>
        if !Ok(status) then Answer(200, Fallen(Literal("Failed to get AI suggestions"), Fallback))
        else
          match ParsedContent(reply)
          case None => Answer(200, Fallen(Foreign, Fallback))
          case Some(v) => Answer(200, Suggested(v))
  }

  /** A reply wrapped in a Markdown code fence is not JSON, so the fallback list comes back. */
  lemma FencedReplyFallsBack(verb: string, body: FoldersRequest, apiKey: string, status: int, text: string)
    requires !IsPreflight(verb) && apiKey != "" && Ok(status) && StartsWith(text, "```")
    ensures Handle(verb, Some(body), Some(apiKey), Replied(status, ContentText(text))) ==
      Answer(200, Fallen(Foreign, Fallback))
  {
    assert text[0] == "```"[0];
    assert Json.SkipSpace(text, 0) == 0;
    Json.BacktickRejected(text);
  }

  /** A reply that is a compact JSON array of plain strings comes back as that array. */
  lemma ArrayReplyReturned(verb: string, body: FoldersRequest, apiKey: string, status: int, names: seq<string>)
    requires !IsPreflight(verb) && apiKey != "" && Ok(status)
    requires forall k :: 0 <= k < |names| ==> Json.IsPlain(names[k])
    ensures Handle(verb, Some(body), Some(apiKey), Replied(status, ContentText(Json.RenderStrings(names)))) ==
      Answer(200, Suggested(Json.JArray(Json.Strings(names))))
  {
    Json.ParseRenderedStrings(names);
    ParsedReplyReturned(verb, body, apiKey, status, Json.RenderStrings(names), Json.JArray(Json.Strings(names)));
  }

  /** Whatever the content parses to is the answer. */
  lemma ParsedReplyReturned(verb: string, body: FoldersRequest, apiKey: string, status: int, text: string, v: Json.JsonValue)
    requires !IsPreflight(verb) && apiKey != "" && Ok(status) && Json.Parse(text) == Some(v)
    ensures Handle(verb, Some(body), Some(apiKey), Replied(status, ContentText(text))) == Answer(200, Suggested(v))
  {
  }

  /** Nothing checks that the reply is an array: `null` content comes back as `null`. */
  lemma NullContentReturned(verb: string, body: FoldersRequest, apiKey: string, status: int)
    requires !IsPreflight(verb) && apiKey != "" && Ok(status)
    ensures Handle(verb, Some(body), Some(apiKey), Replied(status, ContentNull)) == Answer(200, Suggested(Json.JNull))
  {
  }

  /** Nor that it holds strings, or five of them: a bare number comes back as it is. */
  lemma NumberReplyReturned(verb: string, body: FoldersRequest, apiKey: string, status: int)
    requires !IsPreflight(verb) && apiKey != "" && Ok(status)
    ensures Handle(verb, Some(body), Some(apiKey), Replied(status, ContentText("42"))) ==
      Answer(200, Suggested(Json.JNumber("42")))
  {
    assert Json.SkipSpace("42", 0) == 0;
    assert Json.SkipDigits("42", 2) == 2;
    assert Json.SkipDigits("42", 1) == 2;
    assert Json.SkipDigits("42", 0) == 2;
    assert "42"[0..2] == "42";
    assert Json.ParseNumber("42", 0) == Json.Done(Json.JNumber("42"), 2);
    assert Json.SkipSpace("42", 2) == 2;
  }
}
