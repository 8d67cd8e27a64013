/**
 * The current fetch engine, `Videogetter` in
 * src/ai_video_analyzer/yt/Videogetter.py: it resolves one uploads playlist
 * per channel, walks each playlist page by page, looks up the details of the
 * videos on each page, and (incrementally) records only videos whose id is not
 * yet in the cache, writing the cache back once at the end.
 */
module Videogetter {
  import opened Wrappers
  import opened Json
  import opened YouTubeApi
  import opened Records
  import opened CacheStore
  import opened Sequences

  // ---------------------------------------------------------------------------
  // get_Upload_IDs

  /** The channel ids of an insertion-ordered `{name: channel_id}` dict, in order
      (`self.channels.values()`). */
  function ChannelIds(channels: seq<(string, string)>): (ids: seq<string>)
    ensures |ids| == |channels| && forall k :: 0 <= k < |channels| ==> ids[k] == channels[k].1
  {
    seq(|channels|, k requires 0 <= k < |channels| => channels[k].1)
  }

  /** `response["items"][0]["contentDetails"]["relatedPlaylists"]["uploads"]` for
      the response to `request`, or the error reading it raises. */
  function UploadsIn(response: Option<ChannelResponse>, request: Request): Result<string, Error> {
    match response
    case None => Failure(HttpError(request))
    case Some(ChannelResponse(None)) => Failure(KeyError("items"))
    case Some(ChannelResponse(Some(items))) => if items == [] then Failure(IndexError) else Success(items[0])
  }

  /** The uploads playlist of one channel, as the platform reports it. */
  function ChannelUploads(api: Api, channelId: string): Result<string, Error> {
    UploadsIn(if channelId in api.channels then Some(api.channels[channelId]) else None, ChannelsList(channelId))
  }

  /** The `channels().list` requests for some channel ids, in order. */
  function ChannelRequests(ids: seq<string>): (rs: seq<Request>)
    ensures |rs| == |ids| && forall k :: 0 <= k < |ids| ==> rs[k] == ChannelsList(ids[k])
  {
    seq(|ids|, k requires 0 <= k < |ids| => ChannelsList(ids[k]))
  }

  // ---------------------------------------------------------------------------
  // getInformation

  /** State of a full fetch: requests sent so far, records built so far, and the
      error that ended it, if any. */
  datatype Fetch = Fetch(log: seq<Request>, videos: seq<VideoRecord>, err: Option<Error>)

  /** One page of a full fetch: the detail lookup is skipped when the page has no
      ids; otherwise one record per returned item is appended. */
  function InfoPage(api: Api, page: PageResponse, f: Fetch): Fetch {
    var ids := page.items.GetOr([]);
    if ids == [] then f
    else
      var req := VideosList(ids);
      match api.videos(ids)
      case None => Fetch(f.log + [req], f.videos, Some(HttpError(req)))
      case Some(resp) => Fetch(f.log + [req], f.videos + LenientRecords(resp.items.GetOr([])), None)
  }

  /** The number of pages the platform holds for a playlist (0 for an unknown one). */
  function FeedLength(api: Api, pid: string): nat {
    if pid in api.playlists then |api.playlists[pid]| else 0
  }

  /** A full fetch walking playlist `pid` from page `j`, until a page carries no
      truthy continuation token. */
  function InfoWalk(api: Api, pid: string, j: nat, f: Fetch): Fetch
    decreases FeedLength(api, pid) - j
  {
    var req := PlaylistItemsList(pid, MaxResults, TokenAt(api, pid, j));
    match PageAt(api, pid, j)
    case None => Fetch(f.log + [req], f.videos, Some(HttpError(req)))
    case Some(page) =>
      var f1 := InfoPage(api, page, f.(log := f.log + [req]));
      if f1.err.Some? || !Truthy(page.nextPageToken) then f1 else InfoWalk(api, pid, j + 1, f1)
  }

  /** A full fetch walking playlists `pids[i..]`, in order, stopping at the first error. */
  function InfoPlaylists(api: Api, pids: seq<string>, i: nat, f: Fetch): Fetch
    decreases |pids| - i
  {
    if i >= |pids| then f
    else
      var f1 := InfoWalk(api, pids[i], 0, f);
      if f1.err.Some? then f1 else InfoPlaylists(api, pids, i + 1, f1)
  }

  /** `getInformation` on playlists `pids`, with `log` the requests sent before it. */
  function InfoRun(api: Api, pids: seq<string>, log: seq<Request>): Fetch {
    InfoPlaylists(api, pids, 0, Fetch(log, [], None))
  }

  // ---------------------------------------------------------------------------
  // getNewInformation

  /** State of an incremental fetch: requests sent so far, the ids known so far
      (`existing_ids`), the new records so far (`new_videos`), and the error that
      ended it, if any. */
  datatype Progress = Progress(log: seq<Request>, known: set<Json>, found: seq<VideoRecord>, err: Option<Error>)

  /** `[vid for vid in video_ids if vid and vid not in existing_ids]`. */
  function FreshIds(ids: seq<string>, known: set<Json>): (r: seq<string>)
    ensures |r| <= |ids|
    ensures forall v :: v in r <==> v in ids && v != "" && JString(v) !in known
    ensures r == Filter(v => v != "" && JString(v) !in known, ids)
  {
    if ids == [] then []
    else (if ids[0] != "" && JString(ids[0]) !in known then [ids[0]] else []) + FreshIds(ids[1..], known)
  }

  /** The loop over the returned detail items: an item is recorded (and its id
      becomes known) unless its id is empty or already known. */
  function Absorb(items: seq<RawItem>, known: set<Json>, found: seq<VideoRecord>): (set<Json>, seq<VideoRecord>)
    decreases |items|
  {
    if items == [] then (known, found)
    else
      var vid := ItemId(items[0]);
      if vid == "" || JString(vid) in known then Absorb(items[1..], known, found)
      else Absorb(items[1..], known + {JString(vid)}, found + [LenientRecord(items[0])])
  }

  /** One page of an incremental fetch. */
  function NewPage(api: Api, page: PageResponse, p: Progress): (r: Progress)
    ensures r.log == p.log || exists ids :: r.log == p.log + [VideosList(ids)] && FreshIds(page.items.GetOr([]), p.known) == ids != []
  {
    var ids := FreshIds(page.items.GetOr([]), p.known);
    if ids == [] then p
    else
      var req := VideosList(ids);
      match api.videos(ids)
      case None => Progress(p.log + [req], p.known, p.found, Some(HttpError(req)))
      case Some(resp) =>
        var (known, found) := Absorb(resp.items.GetOr([]), p.known, p.found);
        Progress(p.log + [req], known, found, None)
  }

  /** An incremental fetch walking playlist `pid` from page `j`. */
  function NewWalk(api: Api, pid: string, j: nat, p: Progress): Progress
    decreases FeedLength(api, pid) - j
  {
    var req := PlaylistItemsList(pid, MaxResults, TokenAt(api, pid, j));
    match PageAt(api, pid, j)
    case None => p.(log := p.log + [req], err := Some(HttpError(req)))
    case Some(page) =>
      var p1 := NewPage(api, page, p.(log := p.log + [req]));
      if p1.err.Some? || !Truthy(page.nextPageToken) then p1 else NewWalk(api, pid, j + 1, p1)
  }

  /** An incremental fetch walking playlists `pids[i..]`, stopping at the first error. */
  function NewPlaylists(api: Api, pids: seq<string>, i: nat, p: Progress): Progress
    decreases |pids| - i
  {
    if i >= |pids| then p
    else
      var p1 := NewWalk(api, pids[i], 0, p);
      if p1.err.Some? then p1 else NewPlaylists(api, pids, i + 1, p1)
  }

  /** The effect of a run on the world: requests sent, the cache file afterwards,
      whether the file was written, and what the call returned (or raised). */
  datatype Outcome<T> = Outcome(log: seq<Request>, cache: CacheState, wrote: bool, result: Result<T, Error>)

  /** `getNewInformation` on playlists `pids`, with the cache file in state `cache`
      and `log` the requests sent before it. */
  function NewRun(api: Api, pids: seq<string>, cache: CacheState, log: seq<Request>): Outcome<seq<VideoRecord>> {
    var saved := CachedList(cache);
    match KnownIds(saved)
    case Failure(e) => Outcome(log, cache, false, Failure(e))
    case Success(known) =>
      var p := NewPlaylists(api, pids, 0, Progress(log, known, [], None));
      if p.err.Some? then Outcome(p.log, cache, false, Failure(p.err.value))
      else if p.found == [] then Outcome(p.log, cache, false, Success([]))
      else Outcome(p.log, Parsed(JArray(saved + EncodeAll(p.found))), true, Success(p.found))
  }

  // ---------------------------------------------------------------------------
  // The class

  class Videogetter {
    const channels: seq<(string, string)>
    const youtube: YouTube
    const cache: CacheFile
    var uploadsPlaylistId: seq<string>

    constructor (channels: seq<(string, string)>, youtube: YouTube, cache: CacheFile)
      ensures this.channels == channels && this.youtube == youtube && this.cache == cache
      ensures uploadsPlaylistId == []
    {
      this.channels := channels;
      this.youtube := youtube;
      this.cache := cache;
      uploadsPlaylistId := [];
    }

    /** `_load_cache`. */
    method LoadCache() returns (saved: seq<Json>)
      ensures saved == CachedList(cache.state)
    {
      saved := CachedList(cache.state);
    }

    /** `get_Upload_IDs`: the list is cleared, then holds the uploads playlist of
        each channel in channel order; a failing lookup leaves the ids resolved
        before it in place. */
    method GetUploadIds() returns (r: Result<(), Error>)
      modifies this, youtube
      ensures var ids := ChannelIds(channels);
        && |uploadsPlaylistId| <= |ids|
        && (forall k :: 0 <= k < |uploadsPlaylistId| ==> ChannelUploads(youtube.api, ids[k]) == Success(uploadsPlaylistId[k]))
        && (r.Success? ==> |uploadsPlaylistId| == |ids|)
        && (r.Failure? ==> |uploadsPlaylistId| < |ids| && ChannelUploads(youtube.api, ids[|uploadsPlaylistId|]) == Failure(r.error))
        && youtube.log == old(youtube.log) + ChannelRequests(ids[..|uploadsPlaylistId| + (if r.Failure? then 1 else 0)])
    {
      var ids := ChannelIds(channels);
      uploadsPlaylistId := [];
      var i := 0;
      while i < |ids|
        invariant 0 <= i <= |ids| && |uploadsPlaylistId| == i
        invariant forall k :: 0 <= k < i ==> ChannelUploads(youtube.api, ids[k]) == Success(uploadsPlaylistId[k])
        invariant youtube.log == old(youtube.log) + ChannelRequests(ids[..i])
      {
        var response := youtube.ListChannels(ids[i]);
        assert ids[..i + 1] == ids[..i] + [ids[i]];
        var uploads := UploadsIn(response, ChannelsList(ids[i]));
        if uploads.Failure? {
          return Failure(uploads.error);
        }
        uploadsPlaylistId := uploadsPlaylistId + [uploads.value];
        i := i + 1;
      }
      return Success(());
    }

    /** `getInformation`: every video of every uploads playlist, no cache involved. */
    method GetInformation() returns (r: Result<seq<VideoRecord>, Error>)
      requires WellFormed(youtube.api)
      modifies youtube
      ensures var f := InfoRun(youtube.api, uploadsPlaylistId, old(youtube.log));
        youtube.log == f.log && r == (if f.err.Some? then Failure(f.err.value) else Success(f.videos))
    {
      ghost var total := InfoRun(youtube.api, uploadsPlaylistId, youtube.log);
      var videos: seq<VideoRecord> := [];
      var i := 0;
      while i < |uploadsPlaylistId|
        invariant i <= |uploadsPlaylistId|
        invariant InfoPlaylists(youtube.api, uploadsPlaylistId, i, Fetch(youtube.log, videos, None)) == total
      {
        var f := FetchPlaylist(uploadsPlaylistId[i], videos);
        if f.err.Some? {
          return Failure(f.err.value);
        }
        videos := f.videos;
        i := i + 1;
      }
      return Success(videos);
    }

    /** The page loop of `getInformation` for one playlist: pages are requested
        until one carries no truthy `nextPageToken`. */
    method FetchPlaylist(pid: string, videos: seq<VideoRecord>) returns (f: Fetch)
      requires WellFormed(youtube.api)
      modifies youtube
      ensures f == InfoWalk(youtube.api, pid, 0, Fetch(old(youtube.log), videos, None)) && youtube.log == f.log
    {
      ghost var api := youtube.api;
      ghost var walked := InfoWalk(api, pid, 0, Fetch(youtube.log, videos, None));
      var acc := videos;
      var token: Option<string> := None;
      ghost var j: nat := 0;
      while true
        invariant j <= FeedLength(api, pid) && token == TokenAt(api, pid, j) && Resumes(api, pid, j, token)
        invariant InfoWalk(api, pid, j, Fetch(youtube.log, acc, None)) == walked
        decreases FeedLength(api, pid) - j
      {
        var response := youtube.ListPlaylistItems(pid, token);
        ResumedPage(api, pid, j, token);
        if response.None? {
          return Fetch(youtube.log, acc, Some(HttpError(PlaylistItemsList(pid, MaxResults, token))));
        }
        var page := response.value;
        var videoIds := page.items.GetOr([]);
        if videoIds != [] {
          var details := youtube.ListVideos(videoIds);
          if details.None? {
            return Fetch(youtube.log, acc, Some(HttpError(VideosList(videoIds))));
          }
          acc := RecordItems(details.value.items.GetOr([]), acc);
        }
        token := page.nextPageToken;
        if !Truthy(token) {
          return Fetch(youtube.log, acc, None);
        }
        j := j + 1;
      }
    }

    /** The loop over one page's detail items in `getInformation`: one record per
        item, missing snippet fields read as empty. */
    static method RecordItems(items: seq<RawItem>, videos: seq<VideoRecord>) returns (r: seq<VideoRecord>)
      ensures r == videos + LenientRecords(items)
    {
      r := videos;
      var k := 0;
      while k < |items|
        invariant k <= |items| && r == videos + LenientRecords(items[..k])
      {
        assert items[..k + 1] == items[..k] + [items[k]];
        r := r + [LenientRecord(items[k])];
        k := k + 1;
      }
      assert items[..k] == items;
    }

    /** `getNewInformation`: the videos not yet in the cache; the cache becomes the
        loaded list followed by them, written once and only if there are any. */
    method GetNewInformation() returns (r: Result<seq<VideoRecord>, Error>)
      requires WellFormed(youtube.api)
      modifies youtube, cache
      ensures var o := NewRun(youtube.api, uploadsPlaylistId, old(cache.state), old(youtube.log));
        && youtube.log == o.log && cache.state == o.cache && r == o.result
        && cache.writes == old(cache.writes) + (if o.wrote then 1 else 0)
    {
      var savedVideos := LoadCache();
      var ids := KnownIds(savedVideos);
      if ids.Failure? {
        return Failure(ids.error);
      }
      var existingIds := ids.value;
      var newVideos: seq<VideoRecord> := [];
      ghost var walked := NewPlaylists(youtube.api, uploadsPlaylistId, 0, Progress(youtube.log, existingIds, [], None));
      var i := 0;
      while i < |uploadsPlaylistId|
        invariant i <= |uploadsPlaylistId|
        invariant NewPlaylists(youtube.api, uploadsPlaylistId, i, Progress(youtube.log, existingIds, newVideos, None)) == walked
        invariant unchanged(cache)
      {
        var p := PullPlaylist(uploadsPlaylistId[i], existingIds, newVideos);
        if p.err.Some? {
          return Failure(p.err.value);
        }
        existingIds, newVideos := p.known, p.found;
        i := i + 1;
      }
      if newVideos != [] {
        cache.Save(savedVideos + EncodeAll(newVideos));
      }
      return Success(newVideos);
    }

    /** The page loop of `getNewInformation` for one playlist: details are asked
        for only for ids not yet known. */
    method PullPlaylist(pid: string, known: set<Json>, found: seq<VideoRecord>) returns (p: Progress)
      requires WellFormed(youtube.api)
      modifies youtube
      ensures p == NewWalk(youtube.api, pid, 0, Progress(old(youtube.log), known, found, None)) && youtube.log == p.log
    {
      ghost var api := youtube.api;
      ghost var walked := NewWalk(api, pid, 0, Progress(youtube.log, known, found, None));
      var existingIds := known;
      var newVideos := found;
      var token: Option<string> := None;
      ghost var j: nat := 0;
      while true
        invariant j <= FeedLength(api, pid) && token == TokenAt(api, pid, j) && Resumes(api, pid, j, token)
        invariant NewWalk(api, pid, j, Progress(youtube.log, existingIds, newVideos, None)) == walked
        decreases FeedLength(api, pid) - j
      {
        var response := youtube.ListPlaylistItems(pid, token);
        ResumedPage(api, pid, j, token);
        if response.None? {
          return Progress(youtube.log, existingIds, newVideos, Some(HttpError(PlaylistItemsList(pid, MaxResults, token))));
        }
        var page := response.value;
        var p1 := PullPage(page, existingIds, newVideos);
        if p1.err.Some? {
          return p1;
        }
        existingIds, newVideos := p1.known, p1.found;
        token := page.nextPageToken;
        if !Truthy(token) {
          return p1;
        }
        j := j + 1;
      }
    }

    /** One page of `getNewInformation`: details are asked for only for the ids
        of the page not yet known, and only when there are any. */
    method PullPage(page: PageResponse, known: set<Json>, found: seq<VideoRecord>) returns (p: Progress)
      modifies youtube
      ensures p == NewPage(youtube.api, page, Progress(old(youtube.log), known, found, None)) && youtube.log == p.log
    {
      var newIds := FreshIds(page.items.GetOr([]), known);
      if newIds == [] {
        return Progress(youtube.log, known, found, None);
      }
      var details := youtube.ListVideos(newIds);
      if details.None? {
        return Progress(youtube.log, known, found, Some(HttpError(VideosList(newIds))));
      }
      var known', found' := AbsorbItems(details.value.items.GetOr([]), known, found);
      return Progress(youtube.log, known', found', None);
    }

    /** The loop over one page's detail items in `getNewInformation`: an item is
        recorded, and its id becomes known, unless the id is empty or known. */
    static method AbsorbItems(items: seq<RawItem>, known: set<Json>, found: seq<VideoRecord>) returns (known': set<Json>, found': seq<VideoRecord>)
      ensures (known', found') == Absorb(items, known, found)
    {
      known', found' := known, found;
      var k := 0;
      while k < |items|
        invariant k <= |items| && Absorb(items[k..], known', found') == Absorb(items, known, found)
      {
        assert items[k..][1..] == items[k + 1..];
        var vid := ItemId(items[k]);
        if vid != "" && JString(vid) !in known' {
          found' := found' + [LenientRecord(items[k])];
          known' := known' + {JString(vid)};
        }
        k := k + 1;
      }
    }
  }
}
