/**
 * The video platform's Data API as the fetch engine sees it: a finite oracle
 * (channel lookup, paginated playlist listing, batched video details, channel
 * search) and a client object that records every request it is asked to send.
 */
module YouTubeApi {
  import opened Wrappers

  /** Page size the engine asks `playlistItems().list` for: the platform's maximum. */
  const MaxResults: nat := 50
  /** Number of results `search().list` is asked for when resolving a channel name. */
  const SearchMaxResults: nat := 1

  /** One `playlistItems().list` response: the `contentDetails.videoId` of each
      item (`items` may be absent) and the continuation token, if any. */
  datatype PageResponse = PageResponse(items: Option<seq<string>>, nextPageToken: Option<string>)

  /** The `snippet` of a `videos().list` item; every field may be missing. */
  datatype Snippet = Snippet(
    title: Option<string>,
    publishedAt: Option<string>,
    description: Option<string>,
    tags: Option<seq<string>>)

  /** One `videos().list` item: its `id` and its `snippet`, either of which may be missing. */
  datatype RawItem = RawItem(id: Option<string>, snippet: Option<Snippet>)

  /** A `videos().list` response (`items` may be absent). */
  datatype DetailResponse = DetailResponse(items: Option<seq<RawItem>>)

  /** A `channels().list` response: the uploads playlist id of each item (`items` may be absent). */
  datatype ChannelResponse = ChannelResponse(items: Option<seq<string>>)

  /** A `search().list` response: the `id.channelId` of each item, which may be missing. */
  datatype SearchResponse = SearchResponse(items: Option<seq<Option<string>>>)

  /** A request sent to the platform. */
  datatype Request =
    | ChannelsList(channelId: string)
    | PlaylistItemsList(playlistId: string, maxResults: nat, pageToken: Option<string>)
    | VideosList(ids: seq<string>)
    | SearchList(query: string, maxResults: nat)

  /** What a run can fail with: a failed request, the Python error a missing key,
      an empty list or a value of the wrong type raises, a file that cannot be
      opened or does not decode as JSON, or a search that finds no channel. */
  datatype Error =
    | HttpError(request: Request)
    | KeyError(key: string)
    | IndexError
    | TypeError
    | FileNotFound
    | DecodeError
    | NoChannelFound(name: string)

  /**
   * The platform's content. A channel id or playlist id it does not know,
   * or a page token it did not hand out, makes the request fail; the detail
   * lookup and the search are arbitrary functions, where `None` is a failed request.
   */
  datatype Api = Api(
    channels: map<string, ChannelResponse>,
    playlists: map<string, seq<PageResponse>>,
    videos: seq<string> -> Option<DetailResponse>,
    search: string -> Option<SearchResponse>)

  /** Python truthiness of an optional string: `None` and `""` are false. */
  predicate Truthy(token: Option<string>) {
    token.Some? && token.value != ""
  }

  /** Index of the page that follows the first page, from `i` on, carrying `token`. */
  function IndexAfter(feed: seq<PageResponse>, token: string, i: nat): (r: Option<nat>)
    decreases |feed| - i
    ensures r.Some? ==> i < r.value <= |feed| && feed[r.value - 1].nextPageToken == Some(token)
  {
    if i >= |feed| then None
    else if feed[i].nextPageToken == Some(token) then Some(i + 1)
    else IndexAfter(feed, token, i + 1)
  }

  /** The page a request with `token` asks for: a falsy token asks for the first page. */
  function PageIndex(feed: seq<PageResponse>, token: Option<string>): Option<nat> {
    if !Truthy(token) then Some(0) else IndexAfter(feed, token.value, 0)
  }

  /** The platform's answer to `playlistItems().list(playlistId=…, pageToken=token)`; `None` is an HttpError. */
  function Page(api: Api, playlistId: string, token: Option<string>): Option<PageResponse> {
    if playlistId !in api.playlists then None
    else
      var feed := api.playlists[playlistId];
      var idx := PageIndex(feed, token);
      if idx.Some? && idx.value < |feed| then Some(feed[idx.value]) else None
  }

  /** No two pages of one playlist hand out the same continuation token. */
  predicate DistinctTokens(feed: seq<PageResponse>) {
    forall i, j :: 0 <= i < j < |feed| && Truthy(feed[i].nextPageToken) ==>
      feed[i].nextPageToken != feed[j].nextPageToken
  }

  /** The platform never hands out one continuation token twice within a playlist,
      so that following the tokens moves forward through the playlist. */
  predicate WellFormed(api: Api) {
    forall pid :: pid in api.playlists ==> DistinctTokens(api.playlists[pid])
  }

  /** Page `j` of playlist `pid`, if the platform has one. */
  function PageAt(api: Api, pid: string, j: nat): Option<PageResponse> {
    if pid in api.playlists && j < |api.playlists[pid]| then Some(api.playlists[pid][j]) else None
  }

  /** The token a walk that resets its token per playlist sends for page `j`. */
  function TokenAt(api: Api, pid: string, j: nat): Option<string> {
    if j == 0 || pid !in api.playlists || j > |api.playlists[pid]| then None
    else api.playlists[pid][j - 1].nextPageToken
  }

  /** `token` is what a walk holds when it is about to ask for page `j`: a falsy
      token for the first page, otherwise the truthy token page `j - 1` handed out. */
  predicate Resumes(api: Api, pid: string, j: nat, token: Option<string>) {
    if j == 0 then !Truthy(token)
    else
      pid in api.playlists && j <= |api.playlists[pid]|
      && token == api.playlists[pid][j - 1].nextPageToken && Truthy(token)
  }

  lemma {:induction false} IndexAfterFirst(feed: seq<PageResponse>, token: string, i: nat, k: nat)
    requires i <= k < |feed| && feed[k].nextPageToken == Some(token)
    requires forall m :: i <= m < k ==> feed[m].nextPageToken != Some(token)
    ensures IndexAfter(feed, token, i) == Some(k + 1)
    decreases k - i
  {
    if i < k {
      IndexAfterFirst(feed, token, i + 1, k);
    }
  }

  /** Sending the token a walk holds yields exactly the next page of the playlist. */
  lemma {:induction false} ResumedPage(api: Api, pid: string, j: nat, token: Option<string>)
    requires WellFormed(api) && Resumes(api, pid, j, token)
    ensures Page(api, pid, token) == PageAt(api, pid, j)
  {
    if j > 0 {
      var feed := api.playlists[pid];
      assert DistinctTokens(feed);
      assert forall m :: 0 <= m < j - 1 ==> feed[m].nextPageToken != Some(token.value);
      IndexAfterFirst(feed, token.value, 0, j - 1);
    }
  }

  lemma TokenAtResumes(api: Api, pid: string, j: nat)
    requires j == 0 || (PageAt(api, pid, j - 1).Some? && Truthy(PageAt(api, pid, j - 1).value.nextPageToken))
    ensures Resumes(api, pid, j, TokenAt(api, pid, j))
  {
  }

  /**
   * The client object (`googleapiclient`'s `youtube` resource). Every call
   * sends one request, which `log` records, and returns the platform's answer.
   */
  class YouTube {
    const api: Api
    var log: seq<Request>

    constructor (api: Api)
      ensures this.api == api && log == []
    {
      this.api := api;
      log := [];
    }

    /** `channels().list(part="contentDetails", id=channelId).execute()`. */
    method ListChannels(channelId: string) returns (r: Option<ChannelResponse>)
      modifies this
      ensures log == old(log) + [ChannelsList(channelId)]
      ensures r == (if channelId in api.channels then Some(api.channels[channelId]) else None)
    {
      log := log + [ChannelsList(channelId)];
      r := if channelId in api.channels then Some(api.channels[channelId]) else None;
    }

    /** `playlistItems().list(part="contentDetails", playlistId=…, maxResults=50, pageToken=…).execute()`. */
    method ListPlaylistItems(playlistId: string, pageToken: Option<string>) returns (r: Option<PageResponse>)
      modifies this
      ensures log == old(log) + [PlaylistItemsList(playlistId, MaxResults, pageToken)]
      ensures r == Page(api, playlistId, pageToken)
    {
      log := log + [PlaylistItemsList(playlistId, MaxResults, pageToken)];
      r := Page(api, playlistId, pageToken);
    }

    /** `videos().list(part="snippet", id=",".join(ids)).execute()`. */
    method ListVideos(ids: seq<string>) returns (r: Option<DetailResponse>)
      modifies this
      ensures log == old(log) + [VideosList(ids)]
      ensures r == api.videos(ids)
    {
      log := log + [VideosList(ids)];
      r := api.videos(ids);
    }

    /** `search().list(q=query, type="channel", part="id,snippet", maxResults=1).execute()`. */
    method Search(query: string) returns (r: Option<SearchResponse>)
      modifies this
      ensures log == old(log) + [SearchList(query, SearchMaxResults)]
      ensures r == api.search(query)
    {
      log := log + [SearchList(query, SearchMaxResults)];
      r := api.search(query);
    }
  }
}
