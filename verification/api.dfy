/** The TVMaze client of api.py: resolving a user's query to a show, and
    reading the previous episode out of a `/shows/<id>?embed=previousepisode`
    response. The HTTP round trips are parameters: a function from what is
    asked to what came back. */
module Api {
  import opened Common
  import opened Formatting

  /** `{id, name, url}` of a show. */
  datatype ShowInfo = ShowInfo(id: int, name: string, url: string)

  /** One element of the `/search/shows` array: `{show: {...}}`. */
  datatype SearchHit = SearchHit(show: ShowInfo)

  /** `_embedded.previousepisode`: season, number and name may be null. */
  datatype Episode = Episode(id: int, season: Option<int>, number: Option<int>, name: Option<string>)

  /** The JSON object found under `previousepisode`: `{}` is falsy in Python,
      every other episode object is truthy. */
  datatype EpisodeObject = EmptyObject | Filled(episode: Episode)

  /** `_embedded`, with or without its `previousepisode` key. */
  datatype Embedded = Embedded(previousEpisode: Option<EpisodeObject>)

  /** A show fetched with `embed=previousepisode`, with or without its
      `_embedded` key. */
  datatype ShowDetails = ShowDetails(embedded: Option<Embedded>)

  /** What `search_show` hands back: the `(id, name, url)` triple, the
      `(None, None, None)` triple, or an exception that escapes to the caller
      (nothing in `search_show` catches one). */
  datatype Resolution = Resolved(show: ShowInfo) | NotFound | Failed

  /** The literal part of the pattern `tvmaze\.com/shows/(\d+)`. */
  const LinkMarker: string := "tvmaze.com/shows/"

  /** The pattern matches starting at index k of q: the marker, then at least
      one digit. */
  predicate LinkAt(q: string, k: int)
    // wherever the pattern matches, the captured group is not empty
    ensures LinkAt(q, k) ==> 0 <= k && k + |LinkMarker| < |q| && |DigitRun(q[k + |LinkMarker|..])| >= 1
  {
    0 <= k && k + |LinkMarker| < |q|
    && q[k..k + |LinkMarker|] == LinkMarker && IsDigit(q[k + |LinkMarker|])
  }

  /** d is the whole run of digits that starts at index p of q. */
  predicate MaximalDigitRunAt(q: string, p: int, d: string)
  {
    0 <= p && p + |d| <= |q| && q[p..p + |d|] == d
    && |d| >= 1 && AllDigits(d)
    && (p + |d| == |q| || !IsDigit(q[p + |d|]))
  }

  /** The leading digits of s, as the greedy `\d+` takes them. */
  function DigitRun(s: string): (d: string)
    ensures |d| <= |s| && d == s[..|d|] && AllDigits(d)
    ensures |d| == |s| || !IsDigit(s[|d|])
  {
    if s == [] || !IsDigit(s[0]) then [] else [s[0]] + DigitRun(s[1..])
  }

  /** `re.search` from index k on: the first start at or after k where the
      pattern matches. */
  function FindLinkFrom(q: string, k: nat): (r: Option<string>)
    ensures r.None? <==> forall j :: k <= j ==> !LinkAt(q, j)
    ensures r.Some? ==>
              exists m :: k <= m && LinkAt(q, m) && (forall j :: k <= j < m ==> !LinkAt(q, j))
                          && r.value == DigitRun(q[m + |LinkMarker|..])
    decreases |q| - k
  {
    if k + |LinkMarker| >= |q| then None
    else if LinkAt(q, k) then Some(DigitRun(q[k + |LinkMarker|..]))
    else FindLinkFrom(q, k + 1)
  }

  /** `re.search(r'tvmaze\.com/shows/(\d+)', query).group(1)`, or None when
      there is no match: the digits after the leftmost occurrence of the
      marker that a digit follows, as many as there are. */
  function FindLink(q: string): (r: Option<string>)
    ensures r.None? <==> forall k :: !LinkAt(q, k)
    ensures r.Some? ==>
              exists k :: LinkAt(q, k) && (forall j :: 0 <= j < k ==> !LinkAt(q, j))
                          && MaximalDigitRunAt(q, k + |LinkMarker|, r.value)
  {
    LinkDigitsAreMaximalRun(q);
    FindLinkFrom(q, 0)
  }

  /** Wherever the pattern matches, `\d+` takes the whole run of digits after
      the marker, and at least one. */
  lemma LinkDigitsAreMaximalRun(q: string)
    ensures forall k :: LinkAt(q, k) ==>
              MaximalDigitRunAt(q, k + |LinkMarker|, DigitRun(q[k + |LinkMarker|..]))
  {
  }

  /** A query made only of digits ("123") holds no link, so it is searched
      for as a name. */
  lemma DigitsOnlyQuerySearchesByName(q: string)
    requires AllDigits(q)
    ensures FindLink(q).None?
  {
    forall k | 0 <= k < |q| - |LinkMarker|
      ensures !LinkAt(q, k)
    {
      assert q[k..k + |LinkMarker|][0] == q[k];
      assert IsDigit(q[k]) && LinkMarker[0] == 't';
    }
  }

  /** `TVMazeClient.search_show`: a link in the query is looked up by its id
      (`GET /shows/<digits>`); any other query is searched by name
      (`GET /search/shows?q=<query>`) and the first hit is taken. */
  function SearchShow(query: string, byId: string -> Outcome<ShowInfo>,
                      byName: string -> Outcome<seq<SearchHit>>): (r: Resolution)
    // a link: the id lookup alone decides
    ensures FindLink(query).Some? ==>
              var o := byId(FindLink(query).value);
              && (r.Failed? <==> o.Raised?)
              && (r.NotFound? <==> o.Response? && o.status != 200)
              && (r.Resolved? ==> o == Response(200, r.show))
    // no link: the name search alone decides, and only its first hit counts
    ensures FindLink(query).None? ==>
              var o := byName(query);
              && (r.Failed? <==> o.Raised?)
              && (r.NotFound? <==> o.Response? && (o.status != 200 || o.body == []))
              && (r.Resolved? ==> o.Response? && o.status == 200 && o.body != [] && r.show == o.body[0].show)
  {
    match FindLink(query)
    case Some(showId) =>
      (match byId(showId)
       case Raised => Failed
       case Response(status, show) => if status == 200 then Resolved(show) else NotFound)
    case None =>
      (match byName(query)
       case Raised => Failed
       case Response(status, hits) => if status == 200 && hits != [] then Resolved(hits[0].show) else NotFound)
  }

  /** With a link in the query, what the name search would answer makes no
      difference. */
  lemma LinkQueryIgnoresNameSearch(query: string, byId: string -> Outcome<ShowInfo>,
                                   byName1: string -> Outcome<seq<SearchHit>>,
                                   byName2: string -> Outcome<seq<SearchHit>>)
    requires FindLink(query).Some?
    ensures SearchShow(query, byId, byName1) == SearchShow(query, byId, byName2)
  {
  }

  /** Without a link, what the id lookup would answer makes no difference. */
  lemma NameQueryIgnoresIdLookup(query: string, byId1: string -> Outcome<ShowInfo>,
                                 byId2: string -> Outcome<ShowInfo>,
                                 byName: string -> Outcome<seq<SearchHit>>)
    requires FindLink(query).None?
    ensures SearchShow(query, byId1, byName) == SearchShow(query, byId2, byName)
  {
  }

  /** `TVMazeClient.get_latest_episode`: the `previousepisode` object of a
      200 response that has both keys; None for an exception, another status
      or a missing key. */
  function GetLatestEpisode(response: Outcome<ShowDetails>): (r: Option<EpisodeObject>)
    ensures response.Raised? ==> r.None?
    ensures response.Response? && response.status != 200 ==> r.None?
    ensures r.Some? <==>
              && response.Response? && response.status == 200
              && response.body.embedded.Some?
              && response.body.embedded.value.previousEpisode.Some?
    ensures r.Some? ==> r == response.body.embedded.value.previousEpisode
  {
    match response
    case Raised => None
    case Response(status, show) =>
      if status == 200 && show.embedded.Some? && show.embedded.value.previousEpisode.Some?
      then show.embedded.value.previousEpisode
      else None
  }

  /** Python truthiness of what `get_latest_episode` returned, as the
      scheduler's `if ep_data:` tests it: None and `{}` are falsy. */
  predicate Truthy(ep: Option<EpisodeObject>)
    ensures ep.None? ==> !Truthy(ep)
    ensures ep == Some(EmptyObject) ==> !Truthy(ep)
    ensures ep.Some? && ep.value.Filled? ==> Truthy(ep)
  {
    ep.Some? && ep.value.Filled?
  }
}
