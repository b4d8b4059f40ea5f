/**
 * The dialog that saves a video: a URL step, then a details step where the
 * user picks or names a folder, edits tags and a note, and saves. The form
 * state (the component's `useState` fields) is a class; each handler is a
 * method. The replies of the edge functions and of the database are the
 * methods' inputs.
 */
module SaveVideoModal {
  import opened Wrappers
  import opened Text
  import opened Http
  import Json
  import SaveVideo
  import SuggestFolders

  // ---------------------------------------------------------------------
  // Tags

  /** One piece through `map(t => t.trim())` and `filter(t => t)`: its trim, or nothing when that is empty. */
  function CleanPiece(x: string): (r: seq<string>)
    ensures |r| <= 1
    ensures r == [] <==> JsTrim(x) == ""
    ensures r != [] ==> r[0] == JsTrim(x) && IsTrimmed(r[0], IsJsSpace) && (',' !in x ==> ',' !in r[0])
  {
    TrimTrimmed(x, IsJsSpace);
    TrimKeepsOut(x, IsJsSpace, ',');
    var t := JsTrim(x);
    if t != "" then [t] else []
  }

  /** `pieces.map(t => t.trim()).filter(t => t)`. */
  function CleanTags(pieces: seq<string>): (r: seq<string>)
    ensures |r| <= |pieces|
    ensures forall k :: 0 <= k < |r| ==> r[k] != "" && IsTrimmed(r[k], IsJsSpace)
  {
    if pieces == [] then [] else CleanPiece(pieces[0]) + CleanTags(pieces[1..])
  }

  /** Cleaning comma-free pieces gives comma-free tags. */
  lemma {:induction false} CleanTagsCommaFree(pieces: seq<string>)
    requires forall k :: 0 <= k < |pieces| ==> ',' !in pieces[k]
    ensures forall k :: 0 <= k < |CleanTags(pieces)| ==> ',' !in CleanTags(pieces)[k]
  {
    if pieces != [] {
      CleanTagsCommaFree(pieces[1..]);
    }
  }

  /** A tag as the parser produces it: non-empty, without surrounding whitespace, without a comma. */
  predicate IsTag(t: string) {
    t != "" && IsTrimmed(t, IsJsSpace) && ',' !in t
  }

  /** `tags.split(",").map(t => t.trim()).filter(t => t)`. */
  function ParseTags(tags: string): (r: seq<string>)
    ensures forall k :: 0 <= k < |r| ==> IsTag(r[k])
  {
    CleanTagsCommaFree(Split(tags, ','));
    CleanTags(Split(tags, ','))
  }

  /** `tags.join(", ")`, how tags from the metadata fill the text field. */
  function JoinTags(ts: seq<string>): string {
    Join(ts, ", ")
  }

  /** Parsing joined tags gives the tags back. */
  lemma ParseJoinTags(ts: seq<string>)
    requires forall k :: 0 <= k < |ts| ==> IsTag(ts[k])
    ensures ParseTags(JoinTags(ts)) == ts
  {
    ParseJoinFrom("", ts);
    assert "" + Join(ts, ", ") == Join(ts, ", ");
  }

  lemma TrimAfterSpace(p: string, t: string)
    requires p == "" || p == " "
    requires IsTag(t)
    ensures JsTrim(p + t) == t
  {
    TrimStartSpace(p, t, IsJsSpace);
    TrimOfTrimmed(t, IsJsSpace);
  }

  /** The induction behind `ParseJoinTags`: every piece after the first starts with the space of `", "`. */
  lemma {:induction false} ParseJoinFrom(p: string, ts: seq<string>)
    requires p == "" || p == " "
    requires forall k :: 0 <= k < |ts| ==> IsTag(ts[k])
    ensures CleanTags(Split(p + Join(ts, ", "), ',')) == ts
    decreases |ts|
  {
    if |ts| == 0 {
      ParseNoTags(p);
    } else if |ts| == 1 {
      ParseOneTag(p, ts[0]);
      assert Join(ts, ", ") == ts[0];
    } else {
      var t := ts[0];
      var rest := Join(ts[1..], ", ");
      assert Join(ts, ", ") == t + ", " + rest;
      ParseJoinFrom(" ", ts[1..]);
      ParseFirstTag(p, t, rest);
    }
  }

  lemma ParseNoTags(p: string)
    requires p == "" || p == " "
    ensures CleanTags(Split(p + "", ',')) == []
  {
    assert p + "" == p;
    SplitNoSeparator(p, ',');
    TrimEmptyIff(p, IsJsSpace);
    CleanDrop(p, []);
    assert [p] + [] == [p];
  }

  lemma ParseOneTag(p: string, t: string)
    requires p == "" || p == " "
    requires IsTag(t)
    ensures CleanTags(Split(p + t, ',')) == [t]
  {
    TrimAfterSpace(p, t);
    LastPiece(p + t);
  }

  lemma ParseFirstTag(p: string, t: string, rest: string)
    requires p == "" || p == " "
    requires IsTag(t)
    ensures CleanTags(Split(p + (t + ", " + rest), ',')) == [t] + CleanTags(Split(" " + rest, ','))
  {
    TrimAfterSpace(p, t);
    CommaSpace(p, t, rest);
    PieceThenRest(p + t, " " + rest);
  }

  lemma CommaSpace(p: string, t: string, rest: string)
    ensures p + (t + ", " + rest) == (p + t) + [','] + (" " + rest)
  {
    assert ", " + rest == [','] + (" " + rest);
  }

  /** A last piece without a comma contributes its trim. */
  lemma LastPiece(x: string)
    requires ',' !in x && JsTrim(x) != ""
    ensures CleanTags(Split(x, ',')) == [JsTrim(x)]
  {
    SplitNoSeparator(x, ',');
    CleanCons(x, []);
  }

  /** A comma-free piece before a comma contributes its trim, ahead of the rest. */
  lemma PieceThenRest(x: string, y: string)
    requires ',' !in x && JsTrim(x) != ""
    ensures CleanTags(Split(x + [','] + y, ',')) == [JsTrim(x)] + CleanTags(Split(y, ','))
  {
    SplitAtSeparator(x, y, ',');
    CleanCons(x, Split(y, ','));
  }

  /** A blank piece contributes nothing. */
  lemma CleanDrop(x: string, pieces: seq<string>)
    requires JsTrim(x) == ""
    ensures CleanTags([x] + pieces) == CleanTags(pieces)
  {
    assert ([x] + pieces)[0] == x;
    assert ([x] + pieces)[1..] == pieces;
  }

  /** A piece that is not blank contributes its trim. */
  lemma CleanCons(x: string, pieces: seq<string>)
    requires JsTrim(x) != ""
    ensures CleanTags([x] + pieces) == [JsTrim(x)] + CleanTags(pieces)
  {
    assert ([x] + pieces)[0] == x;
    assert ([x] + pieces)[1..] == pieces;
  }

  // ---------------------------------------------------------------------
  // The request sent to save-video

  datatype VideoMetadata = VideoMetadata(title: string, platform: string, thumbnailUrl: Option<string>, tags: Option<seq<string>>)

  /** The body of the `save-video` call. */
  function SaveRequestFor(url: string, m: VideoMetadata, folderId: Option<string>, tags: string, note: string): (req: SaveVideo.SaveRequest)
    ensures req.url == Some(JsTrim(url)) && req.title == Some(JsTrim(m.title))
    ensures req.platform == Some(if m.platform != "" then m.platform else "unknown")
    ensures req.thumbnailUrl == OrNull(m.thumbnailUrl) && req.note == OrNull(Some(note))
    ensures req.folderId == folderId && req.tags == Some(Json.JArray(Json.Strings(ParseTags(tags))))
    ensures req.mood.None? && req.sourceRaw.None?
  {
    SaveVideo.SaveRequest(
      Some(JsTrim(url)), Some(JsTrim(m.title)), Some(if m.platform != "" then m.platform else "unknown"),
      OrNull(m.thumbnailUrl), folderId, Some(Json.JArray(Json.Strings(ParseTags(tags)))),
      OrNull(Some(note)), None, None)
  }

  /**
   * The dialog's request passes `save-video`'s required-field check exactly
   * when the URL and the title are not blank; a title of spaces gets past
   * the dialog's own check and is refused there.
   */
  lemma SaveRequestAccepted(url: string, m: VideoMetadata, folderId: Option<string>, tags: string, note: string)
    ensures SaveVideo.HasRequiredFields(SaveRequestFor(url, m, folderId, tags, note)) <==> !IsBlank(url) && !IsBlank(m.title)
  {
  }

  // ---------------------------------------------------------------------
  // The form

  datatype Step = UrlStep | DetailsStep

  /** The outcome of `supabase.functions.invoke`: it reported an error (which is thrown), or its data. */
  datatype Invoke<T> = InvokeFailed | Invoked(data: T)

  class Modal {
    var step: Step
    var loading: bool
    var url: string
    var metadata: Option<VideoMetadata>
    var fetchingMetadata: bool
    var selectedFolder: string
    var customFolderName: string
    var suggestedFolders: seq<string>
    var existingFolders: seq<SaveVideo.Folder>
    var loadingSuggestions: bool
    var tags: string
    var note: string
    /** The URLs whose metadata fetch the dialog has started, oldest first. */
    var metadataFetches: seq<string>
    /** The (title, tags) pairs sent to `suggest-folders`, oldest first. */
    var suggestionFetches: seq<(string, seq<string>)>

    /** The details step is only shown for a URL that is not blank. */
    predicate Valid()
      reads this
    {
      step == DetailsStep ==> !IsBlank(url)
    }

    /** The state after the first render and its effect, with the dialog closed. */
    constructor ()
      ensures Valid()
      ensures step == UrlStep && url == "" && metadata.None? && tags == "" && note == ""
      ensures selectedFolder == "" && customFolderName == "" && suggestedFolders == [] && existingFolders == []
      ensures !loading && !fetchingMetadata && !loadingSuggestions
      ensures metadataFetches == [] && suggestionFetches == []
    {
      step := UrlStep;
      loading, fetchingMetadata, loadingSuggestions := false, false, false;
      url, tags, note := "", "", "";
      metadata := None;
      selectedFolder, customFolderName := "", "";
      suggestedFolders, existingFolders := [], [];
      metadataFetches, suggestionFetches := [], [];
    }

    /** The start of `fetchMetadata(videoUrl)`. */
    method StartFetch(videoUrl: string)
      modifies this`fetchingMetadata, this`metadataFetches
      ensures fetchingMetadata && metadataFetches == old(metadataFetches) + [videoUrl]
    {
      fetchingMetadata := true;
      metadataFetches := metadataFetches + [videoUrl];
    }

    /**
     * The effect on `[open, initialUrl]` when the dialog opens: take the URL,
     * and go to the details step (and fetch) only for a non-blank one.
     */
    method Open(initialUrl: string)
      modifies this`step, this`url, this`fetchingMetadata, this`metadataFetches
      ensures Valid() && url == initialUrl
      ensures !IsBlank(initialUrl) ==>
        step == DetailsStep && fetchingMetadata && metadataFetches == old(metadataFetches) + [initialUrl]
      ensures IsBlank(initialUrl) ==> step == UrlStep && unchanged(this`fetchingMetadata, this`metadataFetches)
    {
      url := initialUrl;
      if !IsBlank(initialUrl) {
        step := DetailsStep;
        StartFetch(initialUrl);
      } else {
        step := UrlStep;
      }
    }

    /** The effect when the dialog closes: every form field back to its initial value. */
    method Reset()
      modifies this`step, this`url, this`metadata, this`tags, this`note, this`selectedFolder,
        this`customFolderName, this`suggestedFolders
      ensures Valid() && step == UrlStep
      ensures url == "" && metadata.None? && tags == "" && note == "" && selectedFolder == "" &&
        customFolderName == "" && suggestedFolders == []
    {
      step := UrlStep;
      url := "";
      metadata := None;
      tags := "";
      note := "";
      selectedFolder := "";
      customFolderName := "";
      suggestedFolders := [];
    }

    /** `fetch-metadata` answered with `m`: keep it, fill the tags, ask for folder suggestions. */
    method MetadataArrived(m: VideoMetadata)
      modifies this`metadata, this`tags, this`loadingSuggestions, this`suggestionFetches, this`fetchingMetadata
      ensures metadata == Some(m) && !fetchingMetadata && loadingSuggestions
      ensures tags == if m.tags.Some? && |m.tags.value| > 0 then JoinTags(m.tags.value) else old(tags)
      ensures suggestionFetches == old(suggestionFetches) + [(m.title, m.tags.GetOr([]))]
    {
      metadata := Some(m);
      if m.tags.Some? && |m.tags.value| > 0 {
        tags := JoinTags(m.tags.value);
      }
      loadingSuggestions := true;
      suggestionFetches := suggestionFetches + [(m.title, m.tags.GetOr([]))];
      fetchingMetadata := false;
    }

    /** `fetch-metadata` failed: only the spinner stops (the form stays editable). */
    method MetadataFailed()
      modifies this`fetchingMetadata
      ensures !fetchingMetadata
    {
      fetchingMetadata := false;
    }

    /**
     * The folder list and `suggest-folders` answered. `folders` is `None`
     * when the read reports an error or no data; `reply` carries
     * `data.suggestions`. A failed call shows the fixed five names.
     */
    method SuggestionsArrived(folders: Option<seq<SaveVideo.Folder>>, reply: Invoke<Option<seq<string>>>)
      modifies this`existingFolders, this`suggestedFolders, this`loadingSuggestions
      ensures existingFolders == if folders.Some? then folders.value else old(existingFolders)
      ensures reply.InvokeFailed? ==> suggestedFolders == SuggestFolders.Fallback
      ensures reply.Invoked? ==> suggestedFolders == reply.data.GetOr([])
      ensures !loadingSuggestions
    {
      if folders.Some? {
        existingFolders := folders.value;
      }
      match reply {
        case InvokeFailed => suggestedFolders := SuggestFolders.Fallback;
        case Invoked(s) => suggestedFolders := s.GetOr([]);
      }
      loadingSuggestions := false;
    }

    /** Typing in the URL box of the URL step. */
    method TypeUrl(value: string)
      requires Valid() && step == UrlStep
      modifies this`url
      ensures Valid() && url == value
    {
      url := value;
    }

    /** Continue: a blank URL stays on the URL step; any other goes to the details and fetches. */
    method ContinueFromUrl()
      requires Valid() && step == UrlStep
      modifies this`step, this`fetchingMetadata, this`metadataFetches
      ensures Valid()
      ensures IsBlank(url) ==> step == UrlStep && unchanged(this`fetchingMetadata, this`metadataFetches)
      ensures !IsBlank(url) ==> step == DetailsStep && fetchingMetadata && metadataFetches == old(metadataFetches) + [url]
    {
      if IsBlank(url) {
        return;
      }
      step := DetailsStep;
      StartFetch(url);
    }

    /** Back to the URL step. */
    method Back()
      requires Valid()
      modifies this`step
      ensures Valid() && step == UrlStep
    {
      step := UrlStep;
    }

    /** A click on a folder badge: the selected name clears the selection, any other selects it; the custom name clears. */
    method ClickFolder(name: string)
      modifies this`selectedFolder, this`customFolderName
      ensures selectedFolder == if old(selectedFolder) == name then "" else name
      ensures customFolderName == ""
    {
      selectedFolder := if selectedFolder == name then "" else name;
      customFolderName := "";
    }

    /** Typing a custom folder name: a non-empty one clears the selection. */
    method TypeCustomName(value: string)
      modifies this`customFolderName, this`selectedFolder
      ensures customFolderName == value
      ensures selectedFolder == if value != "" then "" else old(selectedFolder)
    {
      customFolderName := value;
      if value != "" {
        selectedFolder := "";
      }
    }

    method TypeTags(value: string)
      modifies this`tags
      ensures tags == value
    {
      tags := value;
    }

    method TypeNote(value: string)
      modifies this`note
      ensures note == value
    {
      note := value;
    }

    /**
     * `handleSave`. `created` is the answer of `create-folder` if it is
     * called, `found` the id of an existing folder with the selected name,
     * `saved` whether `save-video` reports no error. Outputs: the request sent
     * to `save-video` (`None` when none is sent), the name passed to
     * `create-folder` (`None` when it is not called), and whether the dialog
     * asks to be closed.
     */
    method Save(created: Invoke<string>, found: Option<string>, saved: bool)
      returns (request: Option<SaveVideo.SaveRequest>, createdName: Option<string>, closeRequested: bool)
      requires Valid() && step == DetailsStep && !loading && !fetchingMetadata
      modifies this`loading
      ensures !loading
      ensures metadata.None? || metadata.value.title == "" ==> request.None? && createdName.None? && !closeRequested
      ensures metadata.Some? && metadata.value.title != "" ==>
        createdName == (if !IsBlank(customFolderName) then Some(JsTrim(customFolderName))
                        else if selectedFolder != "" && found.None? then Some(selectedFolder)
                        else None)
      ensures request.Some? <==> metadata.Some? && metadata.value.title != "" && (createdName.None? || created.Invoked?)
      ensures request.Some? ==>
        request.value == SaveRequestFor(url, metadata.value,
          (if !IsBlank(customFolderName) then Some(created.data)
           else if selectedFolder != "" then (if found.Some? then found else Some(created.data))
           else None),
          tags, note)
      ensures request.Some? ==> Present(request.value.url)
      ensures closeRequested <==> request.Some? && saved
    {
      if metadata.None? || metadata.value.title == "" {
        return None, None, false;
      }
      loading := true;
      var folderId: Option<string> := None;
      createdName := None;
      if !IsBlank(customFolderName) {
        createdName := Some(JsTrim(customFolderName));
        if created.InvokeFailed? {
          loading := false;
          return None, createdName, false;
        }
        folderId := Some(created.data);
      } else if selectedFolder != "" {
        if found.Some? {
          folderId := found;
        } else {
          createdName := Some(selectedFolder);
          if created.InvokeFailed? {
            loading := false;
            return None, createdName, false;
          }
          folderId := Some(created.data);
        }
      }
      request := Some(SaveRequestFor(url, metadata.value, folderId, tags, note));
      SaveRequestAccepted(url, metadata.value, folderId, tags, note);
      closeRequested := saved;
      loading := false;
    }
  }
}
