/**
 * The legacy fetch engine, `Videogetter` in YT/Videogetter.py. It reads the
 * response fields with no defaults (a missing key raises), always asks for the
 * details of a page, carries the page token from one playlist to the next,
 * keeps appending to the uploads playlist list, and its incremental run
 * returns after the first playlist.
 */
module LegacyVideogetter {
  import opened Wrappers
  import opened Json
  import opened YouTubeApi
  import opened Records
  import opened CacheStore
  import opened Videogetter
  import opened Sequences

  // ---------------------------------------------------------------------------
  // getInformation

  /** State of a legacy full fetch: requests sent, records built, the page token
      the walk holds (never reset between playlists), and the error, if any. */
  datatype Carry = Carry(log: seq<Request>, videos: seq<VideoRecord>, token: Option<string>, err: Option<Error>)

  /** Every item of a run is complete exactly when the first and the rest are. */
  lemma AllStrictCons(items: seq<RawItem>)
    requires items != []
    ensures (forall k :: 0 <= k < |items| ==> StrictRecord(items[k]).Success?) <==>
      StrictRecord(items[0]).Success? && forall k :: 0 <= k < |items[1..]| ==> StrictRecord(items[1..][k]).Success?
  {
    assert forall k :: 1 <= k < |items| ==> items[k] == items[1..][k - 1];
  }

  /** The loop over the detail items: one strict record per item appended to
      `acc`, or the KeyError of the first incomplete item. */
  function Collect(items: seq<RawItem>, acc: seq<VideoRecord>): (r: Result<seq<VideoRecord>, Error>)
    ensures r.Success? <==> forall k :: 0 <= k < |items| ==> StrictRecord(items[k]).Success?
    ensures r.Success? ==> r.value == acc + LenientRecords(items)
  {
    if items == [] then Success(acc)
    else
      match StrictRecord(items[0])
      case Failure(e) => Failure(e)
      case Success(rec) =>
        var rest := Collect(items[1..], acc + [rec]);
        LenientRecordsCons(items);
        AllStrictCons(items);
        rest
  }

  /** One page of a legacy full fetch (`f.log` already holds the page request):
      the page's `items` and the details' `items` must be present, and the
      details are asked for even when the page has no ids. */
  function LegacyInfoPage(api: Api, page: PageResponse, f: Carry): Carry {
    match page.items
    case None => f.(err := Some(KeyError("items")))
    case Some(ids) =>
      var req := VideosList(ids);
      match api.videos(ids)
      case None => f.(log := f.log + [req], err := Some(HttpError(req)))
      case Some(DetailResponse(None)) => f.(log := f.log + [req], err := Some(KeyError("items")))
      case Some(DetailResponse(Some(items))) =>
        match Collect(items, f.videos)
        case Failure(e) => f.(log := f.log + [req], err := Some(e))
        case Success(videos) => Carry(f.log + [req], videos, page.nextPageToken, None)
  }

  /** A legacy full fetch walking playlist `pid` from page `j`, sending the token
      it holds; while that token resumes page `j` the platform answers with that
      page (`ResumedPage`). */
  function LegacyInfoWalk(api: Api, pid: string, j: nat, f: Carry): Carry
    decreases FeedLength(api, pid) - j
  {
    var req := PlaylistItemsList(pid, MaxResults, f.token);
    match PageAt(api, pid, j)
    case None => f.(log := f.log + [req], err := Some(HttpError(req)))
    case Some(page) =>
      var f1 := LegacyInfoPage(api, page, f.(log := f.log + [req]));
      if f1.err.Some? || !Truthy(f1.token) then f1 else LegacyInfoWalk(api, pid, j + 1, f1)
  }

  function LegacyInfoPlaylists(api: Api, pids: seq<string>, i: nat, f: Carry): Carry
    decreases |pids| - i
  {
    if i >= |pids| then f
    else
      var f1 := LegacyInfoWalk(api, pids[i], 0, f);
      if f1.err.Some? then f1 else LegacyInfoPlaylists(api, pids, i + 1, f1)
  }

  /** The legacy `getInformation` on playlists `pids`, with `log` the requests sent before it. */
  function LegacyInfoRun(api: Api, pids: seq<string>, log: seq<Request>): Carry {
    LegacyInfoPlaylists(api, pids, 0, Carry(log, [], None, None))
  }

  // ---------------------------------------------------------------------------
  // getNewInformation

  /** `v["video_id"]` for one cached entry, as a set element: a KeyError for a
      dict without the key, a TypeError for anything else that is not a dict
      and for an unhashable id. */
  function StrictId(entry: Json): (r: Result<Json, Error>)
    ensures r.Success? <==> entry.JObject? && "video_id" in entry.fields && Hashable(entry.fields["video_id"])
    ensures r.Success? ==> r.value == entry.fields["video_id"]
    ensures r.Failure? ==> r.error == (if entry.JObject? && "video_id" !in entry.fields then KeyError("video_id") else TypeError)
  {
    match entry
    case JObject(fields) =>
      if "video_id" !in fields then Failure(KeyError("video_id"))
      else if Hashable(fields["video_id"]) then Success(fields["video_id"])
      else Failure(TypeError)
    case _ => Failure(TypeError)
  }

  /** `{v["video_id"] for v in saved_videos}` over a list: the error of the first
      entry that fails, in list order. */
  function StrictIds(entries: seq<Json>): (r: Result<set<Json>, Error>)
    ensures r.Success? <==> forall k :: 0 <= k < |entries| ==> StrictId(entries[k]).Success?
    ensures r.Success? ==> forall x :: x in r.value <==> exists k :: 0 <= k < |entries| && StrictId(entries[k]) == Success(x)
  {
    if entries == [] then Success({})
    else
      match StrictId(entries[0])
      case Failure(e) => Failure(e)
      case Success(x) =>
        match StrictIds(entries[1..])
        case Failure(e) => Failure(e)
        case Success(rest) =>
          assert forall k :: 1 <= k < |entries| ==> entries[k] == entries[1..][k - 1];
          Success({x} + rest)
  }

  /** The legacy run's reading of `videos.json`: the document and the ids built
      from it. A missing or undecodable file gives an empty list and no ids;
      iterating an empty dict or an empty string yields nothing; a list is read
      entry by entry; any other document raises a TypeError. */
  function LegacyLoad(s: CacheState): (r: Result<(Json, set<Json>), Error>)
    ensures s.Absent? || s.Corrupt? ==> r == Success((JArray([]), {}))
    ensures s.Parsed? && r.Success? ==> r.value.0 == s.doc
    ensures s.Parsed? && s.doc.JArray? ==> r.Success? == StrictIds(s.doc.elems).Success?
    ensures s.Parsed? && s.doc.JArray? && r.Success? ==> r.value.1 == StrictIds(s.doc.elems).value
    ensures s.Parsed? && !s.doc.JArray? ==>
      (r.Success? <==> s.doc == JObject(map[]) || s.doc == JString("")) && (r.Success? ==> r.value.1 == {})
    ensures r.Failure? ==> r.error.TypeError? || r.error == KeyError("video_id")
  {
    match s
    case Absent => Success((JArray([]), {}))
    case Corrupt => Success((JArray([]), {}))
    case Parsed(doc) =>
      match doc
      case JArray(entries) =>
        (match StrictIds(entries)
         case Failure(e) =>
           StrictIdsError(entries);
           Failure(e)
         case Success(ids) => Success((doc, ids)))
      case JObject(fields) => if fields == map[] then Success((doc, {})) else Failure(TypeError)
      case JString(str) => if str == "" then Success((doc, {})) else Failure(TypeError)
      case _ => Failure(TypeError)
  }

  lemma {:induction false} StrictIdsError(entries: seq<Json>)
    ensures StrictIds(entries).Failure? ==>
      StrictIds(entries).error.TypeError? || StrictIds(entries).error == KeyError("video_id")
  {
    if entries != [] && StrictId(entries[0]).Success? {
      StrictIdsError(entries[1..]);
    }
  }

  /** `[vid for vid in video_ids if vid not in existing_ids]`: no check for an
      empty id, and duplicates are kept. */
  function LegacyFreshIds(ids: seq<string>, known: set<Json>): (r: seq<string>)
    ensures |r| <= |ids|
    ensures forall v :: v in r <==> v in ids && JString(v) !in known
    ensures r == Filter(v => JString(v) !in known, ids)
  {
    if ids == [] then []
    else (if JString(ids[0]) !in known then [ids[0]] else []) + LegacyFreshIds(ids[1..], known)
  }

  /** The loop over the returned detail items: every item is recorded strictly and
      its id becomes known, with no check against the known ids. */
  function LegacyAbsorb(items: seq<RawItem>, known: set<Json>, found: seq<VideoRecord>): (r: Result<(set<Json>, seq<VideoRecord>), Error>)
    ensures r.Success? <==> forall k :: 0 <= k < |items| ==> StrictRecord(items[k]).Success?
    ensures r.Success? ==> r.value.1 == found + LenientRecords(items)
    ensures r.Success? ==> r.value.0 == known + RecordIds(LenientRecords(items))
    decreases |items|
  {
    if items == [] then Success((known, found))
    else
      match StrictRecord(items[0])
      case Failure(e) => Failure(e)
      case Success(rec) =>
        var rest := LegacyAbsorb(items[1..], known + {JString(rec.videoId)}, found + [rec]);
        LenientRecordsCons(items);
        AllStrictCons(items);
        RecordIdsCons(rec, LenientRecords(items[1..]));
        rest
  }

  /** One page of a legacy incremental fetch (`p.log` already holds the page request). */
  function LegacyNewPage(api: Api, page: PageResponse, p: Progress): Progress {
    match page.items
    case None => p.(err := Some(KeyError("items")))
    case Some(ids) =>
      var wanted := LegacyFreshIds(ids, p.known);
      if wanted == [] then p
      else
        var req := VideosList(wanted);
        match api.videos(wanted)
        case None => p.(log := p.log + [req], err := Some(HttpError(req)))
        case Some(DetailResponse(None)) => p.(log := p.log + [req], err := Some(KeyError("items")))
        case Some(DetailResponse(Some(items))) =>
          match LegacyAbsorb(items, p.known, p.found)
          case Failure(e) => p.(log := p.log + [req], err := Some(e))
          case Success(absorbed) => Progress(p.log + [req], absorbed.0, absorbed.1, None)
  }

  /** A legacy incremental fetch walking playlist `pid` from page `j` (the token is
      reset at the start of the playlist). */
  function LegacyNewWalk(api: Api, pid: string, j: nat, p: Progress): Progress
    decreases FeedLength(api, pid) - j
  {
    var req := PlaylistItemsList(pid, MaxResults, TokenAt(api, pid, j));
    match PageAt(api, pid, j)
    case None => p.(log := p.log + [req], err := Some(HttpError(req)))
    case Some(page) =>
      var p1 := LegacyNewPage(api, page, p.(log := p.log + [req]));
      if p1.err.Some? || !Truthy(page.nextPageToken) then p1 else LegacyNewWalk(api, pid, j + 1, p1)
  }

  /** `saved_videos + videos`: list concatenation, a TypeError for a document
      that is not a list. */
  function Merge(saved: Json, found: seq<VideoRecord>): (r: Result<Json, Error>)
    ensures r.Success? <==> saved.JArray?
    ensures r.Success? ==> r.value == JArray(saved.elems + EncodeAll(found))
    ensures r.Failure? ==> r.error == TypeError
  {
    if saved.JArray? then Success(JArray(saved.elems + EncodeAll(found))) else Failure(TypeError)
  }

  /** The legacy `getNewInformation` on playlists `pids`: the saving and the
      `return` sit inside the playlist loop, so only the first playlist is walked,
      and with no playlist the call returns `None` (`Success(None)`). */
  function LegacyNewRun(api: Api, pids: seq<string>, cache: CacheState, log: seq<Request>): Outcome<Option<seq<VideoRecord>>> {
    match LegacyLoad(cache)
    case Failure(e) => Outcome(log, cache, false, Failure(e))
    case Success(loaded) =>
      if pids == [] then Outcome(log, cache, false, Success(None))
      else
        var p := LegacyNewWalk(api, pids[0], 0, Progress(log, loaded.1, [], None));
        if p.err.Some? then Outcome(p.log, cache, false, Failure(p.err.value))
        else if p.found == [] then Outcome(p.log, cache, false, Success(Some([])))
        else
          match Merge(loaded.0, p.found)
          case Failure(e) => Outcome(p.log, cache, false, Failure(e))
          case Success(all) => Outcome(p.log, Parsed(all), true, Success(Some(p.found)))
  }

  // ---------------------------------------------------------------------------
  // The class

  class LegacyVideogetter {
    const channels: seq<(string, string)>
    const youtube: YouTube
    const cache: CacheFile
    var uploadsPlaylistId: seq<string>
    /** The document the constructor read from `videos.json`. */
    var videoInformation: Json

    /** The object once the eager read has produced `videoInformation`. */
    constructor (channels: seq<(string, string)>, youtube: YouTube, cache: CacheFile, videoInformation: Json)
      ensures this.channels == channels && this.youtube == youtube && this.cache == cache
      ensures uploadsPlaylistId == [] && this.videoInformation == videoInformation
    {
      this.channels := channels;
      this.youtube := youtube;
      this.cache := cache;
      uploadsPlaylistId := [];
      this.videoInformation := videoInformation;
    }

    /** `__init__`: it reads and decodes `videos.json` at once, so a missing file
        or one that does not decode makes construction fail. */
    static method Open(channels: seq<(string, string)>, youtube: YouTube, cache: CacheFile) returns (r: Result<LegacyVideogetter, Error>)
      ensures r.Success? <==> cache.state.Parsed?
      ensures cache.state.Absent? ==> r == Failure(FileNotFound)
      ensures cache.state.Corrupt? ==> r == Failure(DecodeError)
      ensures r.Success? ==>
        && fresh(r.value)
        && r.value.channels == channels && r.value.youtube == youtube && r.value.cache == cache
        && r.value.uploadsPlaylistId == [] && r.value.videoInformation == cache.state.doc
    {
      match cache.state
      case Absent => r := Failure(FileNotFound);
      case Corrupt => r := Failure(DecodeError);
      case Parsed(doc) =>
        var g := new LegacyVideogetter(channels, youtube, cache, doc);
        r := Success(g);
    }

    /** The legacy `get_Upload_IDs`: the list is not cleared, so each call appends
        the uploads playlist of each channel after what earlier calls left. */
    method GetUploadIds() returns (r: Result<(), Error>)
      modifies this, youtube
      ensures var ids := ChannelIds(channels); var n := |old(uploadsPlaylistId)|;
        && n <= |uploadsPlaylistId| && uploadsPlaylistId[..n] == old(uploadsPlaylistId)
        && |uploadsPlaylistId| - n <= |ids|
        && (forall k :: 0 <= k < |uploadsPlaylistId| - n ==> ChannelUploads(youtube.api, ids[k]) == Success(uploadsPlaylistId[n + k]))
        && (r.Success? ==> |uploadsPlaylistId| - n == |ids|)
        && (r.Failure? ==> |uploadsPlaylistId| - n < |ids| && ChannelUploads(youtube.api, ids[|uploadsPlaylistId| - n]) == Failure(r.error))
        && youtube.log == old(youtube.log) + ChannelRequests(ids[..|uploadsPlaylistId| - n + (if r.Failure? then 1 else 0)])
      ensures videoInformation == old(videoInformation)
    {
      var ids := ChannelIds(channels);
      ghost var n := |uploadsPlaylistId|;
      var i := 0;
      while i < |ids|
        invariant 0 <= i <= |ids| && |uploadsPlaylistId| == n + i
        invariant uploadsPlaylistId[..n] == old(uploadsPlaylistId)
        invariant forall k :: 0 <= k < i ==> ChannelUploads(youtube.api, ids[k]) == Success(uploadsPlaylistId[n + k])
        invariant youtube.log == old(youtube.log) + ChannelRequests(ids[..i])
        invariant videoInformation == old(videoInformation)
      {
        var response := youtube.ListChannels(ids[i]);
        assert ids[..i + 1] == ids[..i] + [ids[i]];
        var uploads := UploadsIn(response, ChannelsList(ids[i]));
        if uploads.Failure? {
          return Failure(uploads.error);
        }
        uploadsPlaylistId := uploadsPlaylistId + [uploads.value];
        i := i + 1;
      }
      return Success(());
    }

    /** The legacy `getInformation`: the token variable is not reset between
        playlists; it is falsy whenever a playlist starts, since the previous
        walk only ended on a falsy token. */
    method GetInformation() returns (r: Result<seq<VideoRecord>, Error>)
      requires WellFormed(youtube.api)
      modifies youtube
      ensures var f := LegacyInfoRun(youtube.api, uploadsPlaylistId, old(youtube.log));
        youtube.log == f.log && r == (if f.err.Some? then Failure(f.err.value) else Success(f.videos))
    {
      ghost var total := LegacyInfoRun(youtube.api, uploadsPlaylistId, youtube.log);
      var videos: seq<VideoRecord> := [];
      var token: Option<string> := None;
      var i := 0;
      while i < |uploadsPlaylistId|
        invariant i <= |uploadsPlaylistId| && !Truthy(token)
        invariant LegacyInfoPlaylists(youtube.api, uploadsPlaylistId, i, Carry(youtube.log, videos, token, None)) == total
      {
        var f := FetchPlaylist(uploadsPlaylistId[i], videos, token);
        if f.err.Some? {
          return Failure(f.err.value);
        }
        videos, token := f.videos, f.token;
        i := i + 1;
      }
      return Success(videos);
    }

    /** The page loop of the legacy `getInformation` for one playlist, starting
        from the token left by the previous playlist. */
    method FetchPlaylist(pid: string, videos: seq<VideoRecord>, token: Option<string>) returns (f: Carry)
      requires WellFormed(youtube.api) && !Truthy(token)
      modifies youtube
      ensures f == LegacyInfoWalk(youtube.api, pid, 0, Carry(old(youtube.log), videos, token, None))
      ensures youtube.log == f.log && (f.err.None? ==> !Truthy(f.token))
    {
      ghost var api := youtube.api;
      ghost var walked := LegacyInfoWalk(api, pid, 0, Carry(youtube.log, videos, token, None));
      var acc := videos;
      var nextPageToken := token;
      ghost var j: nat := 0;
      while true
        invariant j <= FeedLength(api, pid) && Resumes(api, pid, j, nextPageToken)
        invariant LegacyInfoWalk(api, pid, j, Carry(youtube.log, acc, nextPageToken, None)) == walked
        decreases FeedLength(api, pid) - j
      {
        var response := youtube.ListPlaylistItems(pid, nextPageToken);
        ResumedPage(api, pid, j, nextPageToken);
        if response.None? {
          return Carry(youtube.log, acc, nextPageToken, Some(HttpError(PlaylistItemsList(pid, MaxResults, nextPageToken))));
        }
        var page := response.value;
        if page.items.None? {
          return Carry(youtube.log, acc, nextPageToken, Some(KeyError("items")));
        }
        var videoIds := page.items.value;
        var details := youtube.ListVideos(videoIds);
        if details.None? {
          return Carry(youtube.log, acc, nextPageToken, Some(HttpError(VideosList(videoIds))));
        }
        if details.value.items.None? {
          return Carry(youtube.log, acc, nextPageToken, Some(KeyError("items")));
        }
        var collected := CollectItems(details.value.items.value, acc);
        if collected.Failure? {
          return Carry(youtube.log, acc, nextPageToken, Some(collected.error));
        }
        acc := collected.value;
        nextPageToken := page.nextPageToken;
        if !Truthy(nextPageToken) {
          return Carry(youtube.log, acc, nextPageToken, None);
        }
        j := j + 1;
      }
    }

    /** The loop over one page's detail items in the legacy `getInformation`:
        each item must have all four keys the strict reading asks for. */
    static method CollectItems(items: seq<RawItem>, videos: seq<VideoRecord>) returns (r: Result<seq<VideoRecord>, Error>)
      ensures r == Collect(items, videos)
    {
      var acc := videos;
      var k := 0;
      while k < |items|
        invariant k <= |items| && Collect(items[k..], acc) == Collect(items, videos)
      {
        assert items[k..][1..] == items[k + 1..];
        var rec := StrictRecord(items[k]);
        if rec.Failure? {
          return Failure(rec.error);
        }
        acc := acc + [rec.value];
        k := k + 1;
      }
      return Success(acc);
    }

    /** The legacy `getNewInformation`: the body of its playlist loop ends in
        `return`, so it runs at most once. */
    method GetNewInformation() returns (r: Result<Option<seq<VideoRecord>>, Error>)
      requires WellFormed(youtube.api)
      modifies youtube, cache
      ensures var o := LegacyNewRun(youtube.api, uploadsPlaylistId, old(cache.state), old(youtube.log));
        && youtube.log == o.log && cache.state == o.cache && r == o.result
        && cache.writes == old(cache.writes) + (if o.wrote then 1 else 0)
    {
      var loaded := LegacyLoad(cache.state);
      if loaded.Failure? {
        return Failure(loaded.error);
      }
      var savedVideos := loaded.value.0;
      var existingIds := loaded.value.1;
      if |uploadsPlaylistId| > 0 {
        var p := PullPlaylist(uploadsPlaylistId[0], existingIds);
        if p.err.Some? {
          return Failure(p.err.value);
        }
        var videos := p.found;
        if videos != [] {
          if !savedVideos.JArray? {
            return Failure(TypeError);
          }
          cache.Overwrite(JArray(savedVideos.elems + EncodeAll(videos)));
        }
        return Success(Some(videos));
      }
      return Success(None);
    }

    /** The page loop of the legacy `getNewInformation` for one playlist, with
        `videos` starting empty. */
    method PullPlaylist(pid: string, known: set<Json>) returns (p: Progress)
      requires WellFormed(youtube.api)
      modifies youtube
      ensures p == LegacyNewWalk(youtube.api, pid, 0, Progress(old(youtube.log), known, [], None)) && youtube.log == p.log
    {
      ghost var api := youtube.api;
      ghost var walked := LegacyNewWalk(api, pid, 0, Progress(youtube.log, known, [], None));
      var existingIds := known;
      var videos: seq<VideoRecord> := [];
      var token: Option<string> := None;
      ghost var j: nat := 0;
      while true
        invariant j <= FeedLength(api, pid) && token == TokenAt(api, pid, j) && Resumes(api, pid, j, token)
        invariant LegacyNewWalk(api, pid, j, Progress(youtube.log, existingIds, videos, None)) == walked
        decreases FeedLength(api, pid) - j
      {
        var response := youtube.ListPlaylistItems(pid, token);
        ResumedPage(api, pid, j, token);
        if response.None? {
          return Progress(youtube.log, existingIds, videos, Some(HttpError(PlaylistItemsList(pid, MaxResults, token))));
        }
        var page := response.value;
        var p1 := PullPage(page, existingIds, videos);
        if p1.err.Some? {
          return p1;
        }
        existingIds, videos := p1.known, p1.found;
        token := page.nextPageToken;
        if !Truthy(token) {
          return Progress(youtube.log, existingIds, videos, None);
        }
        j := j + 1;
      }
    }

    /** One page of the legacy `getNewInformation`: the ids not yet known are
        looked up, and every returned item is recorded. */
    method PullPage(page: PageResponse, known: set<Json>, found: seq<VideoRecord>) returns (p: Progress)
      modifies youtube
      ensures p == LegacyNewPage(youtube.api, page, Progress(old(youtube.log), known, found, None)) && youtube.log == p.log
    {
      var here := Progress(youtube.log, known, found, None);
      if page.items.None? {
        return here.(err := Some(KeyError("items")));
      }
      var newIds := LegacyFreshIds(page.items.value, known);
      if newIds == [] {
        return here;
      }
      var details := youtube.ListVideos(newIds);
      if details.None? {
        return here.(log := youtube.log, err := Some(HttpError(VideosList(newIds))));
      }
      if details.value.items.None? {
        return here.(log := youtube.log, err := Some(KeyError("items")));
      }
      var absorbed := AbsorbItems(details.value.items.value, known, found);
      if absorbed.Failure? {
        return here.(log := youtube.log, err := Some(absorbed.error));
      }
      return Progress(youtube.log, absorbed.value.0, absorbed.value.1, None);
    }

    /** The loop over one page's detail items in the legacy `getNewInformation`:
        every item is read strictly and its id becomes known. */
    static method AbsorbItems(items: seq<RawItem>, known: set<Json>, found: seq<VideoRecord>) returns (r: Result<(set<Json>, seq<VideoRecord>), Error>)
      ensures r == LegacyAbsorb(items, known, found)
    {
      var existingIds := known;
      var videos := found;
      var k := 0;
      while k < |items|
        invariant k <= |items| && LegacyAbsorb(items[k..], existingIds, videos) == LegacyAbsorb(items, known, found)
      {
        assert items[k..][1..] == items[k + 1..];
        var rec := StrictRecord(items[k]);
        if rec.Failure? {
          return Failure(rec.error);
        }
        videos := videos + [rec.value];
        existingIds := existingIds + {JString(rec.value.videoId)};
        k := k + 1;
      }
      return Success((existingIds, videos));
    }
  }
}
