/**
 * The search box of the folder page: the effect on `[searchQuery, videos]`
 * that computes `filteredVideos`, a case-insensitive substring search over
 * each video's title and tags.
 *
 * `toLowerCase` is the parameter `lower`, applied character by character.
 */
module FolderVideos {
  import opened Text

  /** The columns of a video the search reads. */
  datatype Video = Video(id: string, title: string, tags: seq<string>)

  /** `s` is an order-preserving subsequence of `t`. */
  predicate Subsequence<T(==)>(s: seq<T>, t: seq<T>)
    decreases |t|
  {
    if t == [] then s == []
    else (s != [] && s[0] == t[0] && Subsequence(s[1..], t[1..])) || Subsequence(s, t[1..])
  }

  /** `x.toLowerCase().includes(query)`, for a `query` that is already lower-cased. */
  predicate Mentions(x: string, query: string, lower: char -> char) {
    Contains(MapChars(x, lower), query)
  }

  /** The filter callback: the title, or some tag, mentions the query. */
  predicate Matches(v: Video, query: string, lower: char -> char) {
    Mentions(v.title, query, lower) || exists k :: 0 <= k < |v.tags| && Mentions(v.tags[k], query, lower)
  }

  /** `videos.filter(video => ...)` with the lower-cased query. */
  function Keep(videos: seq<Video>, query: string, lower: char -> char): (r: seq<Video>)
    ensures forall v :: v in r <==> v in videos && Matches(v, query, lower)
    ensures Subsequence(r, videos)
    ensures |r| <= |videos|
  {
    if videos == [] then []
    else
      var rest := Keep(videos[1..], query, lower);
      if Matches(videos[0], query, lower) then
        assert ([videos[0]] + rest)[1..] == rest;
        [videos[0]] + rest
      else rest
  }

  /** `filteredVideos` for a search query and the folder's videos. */
  function Filtered(videos: seq<Video>, searchQuery: string, lower: char -> char): (r: seq<Video>)
    ensures Subsequence(r, videos)
  {
    SubsequenceOfSelf(videos);
    if IsBlank(searchQuery) then videos else Keep(videos, MapChars(searchQuery, lower), lower)
  }

  lemma {:induction false} SubsequenceOfSelf<T>(s: seq<T>)
    ensures Subsequence(s, s)
  {
    if s != [] {
      SubsequenceOfSelf(s[1..]);
    }
  }

  /** A query that trims to nothing shows every video, in the original order. */
  lemma BlankShowsAll(videos: seq<Video>, searchQuery: string, lower: char -> char)
    requires forall k :: 0 <= k < |searchQuery| ==> IsJsSpace(searchQuery[k])
    ensures Filtered(videos, searchQuery, lower) == videos
  {
    BlankIffAllSpace(searchQuery);
  }

  /**
   * Any other query keeps exactly the videos whose lower-cased title, or one
   * of whose lower-cased tags, contains the lower-cased query.
   */
  lemma KeptIff(videos: seq<Video>, searchQuery: string, lower: char -> char, v: Video)
    requires !IsBlank(searchQuery)
    ensures v in Filtered(videos, searchQuery, lower) <==>
      v in videos &&
      (Mentions(v.title, MapChars(searchQuery, lower), lower) ||
       exists k :: 0 <= k < |v.tags| && Mentions(v.tags[k], MapChars(searchQuery, lower), lower))
  {
    var q := MapChars(searchQuery, lower);
    assert Filtered(videos, searchQuery, lower) == Keep(videos, q, lower);
    assert v in Keep(videos, q, lower) <==> v in videos && Matches(v, q, lower);
  }

  /** Queries with the same lower-cased form, and the same blankness, give the same result. */
  lemma CaseInsensitive(videos: seq<Video>, q1: string, q2: string, lower: char -> char)
    requires MapChars(q1, lower) == MapChars(q2, lower) && IsBlank(q1) == IsBlank(q2)
    ensures Filtered(videos, q1, lower) == Filtered(videos, q2, lower)
  {
  }

  /**
   * The query is trimmed only to test for blankness: a space in front of it
   * takes part in the match, so `" ab"` misses the title `"ab"` that `"ab"` finds.
   */
  lemma QueryNotTrimmed(lower: char -> char)
    ensures var v := Video("", "ab", []);
      Filtered([v], "ab", lower) == [v] && Filtered([v], " ab", lower) == []
  {
    var v := Video("", "ab", []);
    assert !IsJsSpace('a');
    NotBlank("ab", 0);
    NotBlank(" ab", 1);
    assert ContainsAt(MapChars("ab", lower), MapChars("ab", lower), 0);
    assert Matches(v, MapChars("ab", lower), lower);
    assert !Matches(v, MapChars(" ab", lower), lower) by {
      assert |MapChars(" ab", lower)| > |MapChars(v.title, lower)|;
    }
  }

  lemma NotBlank(s: string, i: nat)
    requires i < |s| && !IsJsSpace(s[i])
    ensures !IsBlank(s)
  {
    BlankIffAllSpace(s);
  }

  /** A video that mentions a longer query mentions every part of it. */
  lemma MatchesNarrower(v: Video, q1: string, q2: string, lower: char -> char)
    requires Contains(q2, q1) && Matches(v, q2, lower)
    ensures Matches(v, q1, lower)
  {
    if Mentions(v.title, q2, lower) {
      ContainsTransitive(MapChars(v.title, lower), q2, q1);
    } else {
      var k :| 0 <= k < |v.tags| && Mentions(v.tags[k], q2, lower);
      ContainsTransitive(MapChars(v.tags[k], lower), q2, q1);
    }
  }

  /** Filtering by a longer query is filtering the results of a shorter one that it contains. */
  lemma {:induction false} KeepNarrower(videos: seq<Video>, q1: string, q2: string, lower: char -> char)
    requires Contains(q2, q1)
    ensures Keep(videos, q2, lower) == Keep(Keep(videos, q1, lower), q2, lower)
  {
    if videos != [] {
      KeepNarrower(videos[1..], q1, q2, lower);
      if Matches(videos[0], q2, lower) {
        MatchesNarrower(videos[0], q1, q2, lower);
        var rest := Keep(videos[1..], q1, lower);
        assert ([videos[0]] + rest)[0] == videos[0];
        assert ([videos[0]] + rest)[1..] == rest;
      } else if Matches(videos[0], q1, lower) {
        var rest := Keep(videos[1..], q1, lower);
        assert ([videos[0]] + rest)[0] == videos[0];
        assert ([videos[0]] + rest)[1..] == rest;
      }
    }
  }

  /**
   * For non-blank queries, typing more can only narrow the results: when `q1`
   * occurs in `q2`, the results for `q2` are the results for `q1` filtered again.
   */
  lemma Narrowing(videos: seq<Video>, q1: string, q2: string, lower: char -> char)
    requires !IsBlank(q1) && !IsBlank(q2) && Contains(q2, q1)
    ensures Filtered(videos, q2, lower) == Keep(Filtered(videos, q1, lower), MapChars(q2, lower), lower)
    ensures forall v :: v in Filtered(videos, q2, lower) ==> v in Filtered(videos, q1, lower)
  {
    MapCharsContains(q2, q1, lower);
    KeepNarrower(videos, MapChars(q1, lower), MapChars(q2, lower), lower);
  }
}
