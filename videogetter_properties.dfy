/**
 * What the current engine promises, proved about the functions that specify
 * its methods: an incremental run records each video at most once and never
 * one the cache already knows, writes the cache once and only when it found
 * something, finds nothing when repeated; a full run emits one record per
 * detail item of every page it walks, and a walk stops exactly at the first
 * page without a continuation token.
 */
module VideogetterProperties {
  import opened Wrappers
  import opened Json
  import opened YouTubeApi
  import opened Records
  import opened CacheStore
  import opened Videogetter

  // ---------------------------------------------------------------------------
  // Bookkeeping of an incremental run

  /** No two records share a `video_id`. */
  predicate UniqueIds(rs: seq<VideoRecord>) {
    forall a, b :: 0 <= a < b < |rs| ==> rs[a].videoId != rs[b].videoId
  }

  /** Every detail lookup among `reqs` asks for a non-empty batch of non-empty ids
      none of which is among `init`. */
  predicate Gated(init: set<Json>, reqs: seq<Request>) {
    forall k :: 0 <= k < |reqs| && reqs[k].VideosList? ==>
      reqs[k].ids != [] && forall v :: v in reqs[k].ids ==> v != "" && JString(v) !in init
  }

  /** The records found are new: distinct, with non-empty ids outside `init`. */
  predicate FreshRecords(init: set<Json>, found: seq<VideoRecord>) {
    UniqueIds(found) && forall k :: 0 <= k < |found| ==> found[k].videoId != "" && JString(found[k].videoId) !in init
  }

  /** The invariant of an incremental run that started from known ids `init`
      after requests `base`: the known ids are `init` plus the ids found. */
  ghost predicate Sound(init: set<Json>, base: seq<Request>, p: Progress) {
    && |base| <= |p.log| && p.log[..|base|] == base
    && Gated(init, p.log[|base|..])
    && p.known == init + RecordIds(p.found)
    && FreshRecords(init, p.found)
  }

  lemma RecordIdsAppend(found: seq<VideoRecord>, r: VideoRecord)
    ensures RecordIds(found + [r]) == RecordIds(found) + {JString(r.videoId)}
  {
    var all := found + [r];
    assert all[|found|] == r;
    forall x | x in RecordIds(found)
      ensures x in RecordIds(all)
    {
      var k :| 0 <= k < |found| && x == JString(found[k].videoId);
      assert all[k] == found[k];
    }
  }

  lemma {:induction false} AbsorbSound(init: set<Json>, items: seq<RawItem>, known: set<Json>, found: seq<VideoRecord>)
    requires known == init + RecordIds(found) && FreshRecords(init, found)
    ensures var (k, f) := Absorb(items, known, found); k == init + RecordIds(f) && FreshRecords(init, f)
    decreases |items|
  {
    if items != [] {
      var vid := ItemId(items[0]);
      if vid == "" || JString(vid) in known {
        AbsorbSound(init, items[1..], known, found);
      } else {
        var r := LenientRecord(items[0]);
        RecordIdsAppend(found, r);
        forall a | 0 <= a < |found|
          ensures found[a].videoId != vid
        {
          assert JString(found[a].videoId) in RecordIds(found);
        }
        AbsorbSound(init, items[1..], known + {JString(vid)}, found + [r]);
      }
    }
  }

  lemma GatedAppend(init: set<Json>, base: seq<Request>, log: seq<Request>, req: Request)
    requires |base| <= |log| && log[..|base|] == base && Gated(init, log[|base|..])
    requires req.VideosList? ==> req.ids != [] && forall v :: v in req.ids ==> v != "" && JString(v) !in init
    ensures var log' := log + [req]; |base| <= |log'| && log'[..|base|] == base && Gated(init, log'[|base|..])
  {
    var log' := log + [req];
    assert log'[|base|..] == log[|base|..] + [req];
    assert log'[..|base|] == log[..|base|];
  }

  lemma NewPageSound(init: set<Json>, base: seq<Request>, api: Api, page: PageResponse, p: Progress)
    requires Sound(init, base, p)
    ensures Sound(init, base, NewPage(api, page, p))
  {
    var ids := FreshIds(page.items.GetOr([]), p.known);
    if ids != [] {
      GatedAppend(init, base, p.log, VideosList(ids));
      match api.videos(ids)
      case None =>
      case Some(resp) => AbsorbSound(init, resp.items.GetOr([]), p.known, p.found);
    }
  }

  lemma {:induction false} NewWalkSound(init: set<Json>, base: seq<Request>, api: Api, pid: string, j: nat, p: Progress)
    requires Sound(init, base, p)
    ensures Sound(init, base, NewWalk(api, pid, j, p))
    decreases FeedLength(api, pid) - j
  {
    var req := PlaylistItemsList(pid, MaxResults, TokenAt(api, pid, j));
    GatedAppend(init, base, p.log, req);
    match PageAt(api, pid, j)
    case None =>
    case Some(page) =>
      var p1 := NewPage(api, page, p.(log := p.log + [req]));
      NewPageSound(init, base, api, page, p.(log := p.log + [req]));
      if p1.err.None? && Truthy(page.nextPageToken) {
        NewWalkSound(init, base, api, pid, j + 1, p1);
      }
  }

  /**
   * The playlist loop keeps the invariant: the known ids are the loaded ids
   * plus those of the records found, which are distinct, non-empty and not
   * cached, and every lookup asks only for such unknown ids. From an error-free
   * start it also keeps the record of the run: no lookup asks for an id found
   * earlier in the run, and the records are those built from the answers.
   */
  lemma {:induction false} NewPlaylistsSound(init: set<Json>, base: seq<Request>, api: Api, pids: seq<string>, i: nat, p: Progress)
    requires Sound(init, base, p)
    ensures Sound(init, base, NewPlaylists(api, pids, i, p))
    ensures p.err.None? && Recorded(api, init, base, p) ==> Recorded(api, init, base, NewPlaylists(api, pids, i, p))
    decreases |pids| - i
  {
    if i < |pids| {
      NewWalkSound(init, base, api, pids[i], 0, p);
      if p.err.None? && Recorded(api, init, base, p) {
        NewWalkRecorded(init, base, api, pids[i], 0, p);
      }
      var p1 := NewWalk(api, pids[i], 0, p);
      if p1.err.None? {
        NewPlaylistsSound(init, base, api, pids, i + 1, p1);
      }
    }
  }

  // ---------------------------------------------------------------------------
  // What an incremental run records

  /** The detail items answered to `req`: those of a lookup the platform
      answers (none when the answer has no `items`); none for other requests. */
  function AnsweredItems(api: Api, req: Request): seq<RawItem> {
    if req.VideosList? && api.videos(req.ids).Some? then api.videos(req.ids).value.items.GetOr([]) else []
  }

  /** The items answered to the detail lookups among `reqs`, in order. */
  function LookupItems(api: Api, reqs: seq<Request>): seq<RawItem> {
    if reqs == [] then [] else LookupItems(api, reqs[..|reqs| - 1]) + AnsweredItems(api, reqs[|reqs| - 1])
  }

  /** The records a run that started from the known ids `init` builds from the
      answers to `reqs`: one per answered item whose id is non-empty and seen
      neither in `init` nor in an earlier item, in order. */
  function RunFound(api: Api, init: set<Json>, reqs: seq<Request>): seq<VideoRecord> {
    Absorb(LookupItems(api, reqs), init, []).1
  }

  /** Every detail lookup among `reqs` asks for a non-empty batch of non-empty
      ids, none of them in `init` or among the records built from the lookups
      before it. */
  ghost predicate RunGated(api: Api, init: set<Json>, reqs: seq<Request>) {
    forall k :: 0 <= k < |reqs| && reqs[k].VideosList? ==>
      reqs[k].ids != [] && forall v :: v in reqs[k].ids ==> v != "" && JString(v) !in init + RecordIds(RunFound(api, init, reqs[..k]))
  }

  /** The record of an incremental run that started from the known ids `init`
      after requests `base`: it only extended the log, gated every lookup, and
      while no error occurred its records are those built from the answers. */
  ghost predicate Recorded(api: Api, init: set<Json>, base: seq<Request>, p: Progress) {
    && |base| <= |p.log| && p.log[..|base|] == base
    && RunGated(api, init, p.log[|base|..])
    && (p.err.None? ==> p.found == RunFound(api, init, p.log[|base|..]))
  }

  /** Absorbing two batches of items one after the other is absorbing them joined. */
  lemma {:induction false} AbsorbAppend(a: seq<RawItem>, b: seq<RawItem>, known: set<Json>, found: seq<VideoRecord>)
    ensures Absorb(a + b, known, found) == Absorb(b, Absorb(a, known, found).0, Absorb(a, known, found).1)
    decreases |a|
  {
    if a == [] {
      assert a + b == b;
    } else {
      assert (a + b)[0] == a[0] && (a + b)[1..] == a[1..] + b;
      var vid := ItemId(a[0]);
      if vid == "" || JString(vid) in known {
        AbsorbAppend(a[1..], b, known, found);
      } else {
        AbsorbAppend(a[1..], b, known + {JString(vid)}, found + [LenientRecord(a[0])]);
      }
    }
  }

  lemma RunFoundSnoc(api: Api, init: set<Json>, reqs: seq<Request>, req: Request)
    ensures RunFound(api, init, reqs + [req]) ==
      Absorb(AnsweredItems(api, req), Absorb(LookupItems(api, reqs), init, []).0, RunFound(api, init, reqs)).1
  {
    assert (reqs + [req])[..|reqs|] == reqs;
    AbsorbAppend(LookupItems(api, reqs), AnsweredItems(api, req), init, []);
  }

  lemma RunFoundKnown(api: Api, init: set<Json>, reqs: seq<Request>)
    ensures Absorb(LookupItems(api, reqs), init, []).0 == init + RecordIds(RunFound(api, init, reqs))
  {
    assert RecordIds([]) == {};
    AbsorbSound(init, LookupItems(api, reqs), init, []);
  }

  lemma RunGatedSnoc(api: Api, init: set<Json>, reqs: seq<Request>, req: Request)
    requires RunGated(api, init, reqs)
    requires req.VideosList? ==>
      req.ids != [] && forall v :: v in req.ids ==> v != "" && JString(v) !in init + RecordIds(RunFound(api, init, reqs))
    ensures RunGated(api, init, reqs + [req])
  {
    var all := reqs + [req];
    assert all[..|reqs|] == reqs;
    forall k | 0 <= k < |reqs|
      ensures all[k] == reqs[k] && all[..k] == reqs[..k]
    {
    }
  }

  /** Sending a request that is not a lookup, or a lookup for unknown ids,
      keeps the run's record; its answer is absorbed into the records. */
  lemma RecordedSnoc(api: Api, init: set<Json>, base: seq<Request>, p: Progress, req: Request)
    requires Sound(init, base, p) && Recorded(api, init, base, p) && p.err.None?
    requires req.VideosList? ==> req.ids != [] && forall v :: v in req.ids ==> v != "" && JString(v) !in p.known
    ensures (p.log + [req])[..|base|] == base
    ensures RunGated(api, init, (p.log + [req])[|base|..])
    ensures RunFound(api, init, (p.log + [req])[|base|..]) == Absorb(AnsweredItems(api, req), p.known, p.found).1
  {
    var reqs := p.log[|base|..];
    assert (p.log + [req])[|base|..] == reqs + [req];
    RunGatedSnoc(api, init, reqs, req);
    RunFoundSnoc(api, init, reqs, req);
    RunFoundKnown(api, init, reqs);
  }

  lemma NewPageRecorded(init: set<Json>, base: seq<Request>, api: Api, page: PageResponse, p: Progress)
    requires Sound(init, base, p) && Recorded(api, init, base, p) && p.err.None?
    ensures Recorded(api, init, base, NewPage(api, page, p))
  {
    var ids := FreshIds(page.items.GetOr([]), p.known);
    if ids != [] {
      RecordedSnoc(api, init, base, p, VideosList(ids));
      match api.videos(ids)
      case None =>
      case Some(resp) =>
        assert AnsweredItems(api, VideosList(ids)) == resp.items.GetOr([]);
    }
  }

  lemma {:induction false} NewWalkRecorded(init: set<Json>, base: seq<Request>, api: Api, pid: string, j: nat, p: Progress)
    requires Sound(init, base, p) && Recorded(api, init, base, p) && p.err.None?
    ensures Recorded(api, init, base, NewWalk(api, pid, j, p))
    decreases FeedLength(api, pid) - j
  {
    var req := PlaylistItemsList(pid, MaxResults, TokenAt(api, pid, j));
    var p0 := p.(log := p.log + [req]);
    GatedAppend(init, base, p.log, req);
    RecordedSnoc(api, init, base, p, req);
    assert AnsweredItems(api, req) == [];
    assert Recorded(api, init, base, p0);
    match PageAt(api, pid, j)
    case None =>
    case Some(page) =>
      var p1 := NewPage(api, page, p0);
      NewPageSound(init, base, api, page, p0);
      NewPageRecorded(init, base, api, page, p0);
      if p1.err.None? && Truthy(page.nextPageToken) {
        NewWalkRecorded(init, base, api, pid, j + 1, p1);
        assert NewWalk(api, pid, j, p) == NewWalk(api, pid, j + 1, p1);
      } else {
        assert NewWalk(api, pid, j, p) == p1;
      }
  }

  /** The dict entries of a cached list carry pairwise distinct `video_id`s. */
  predicate UniqueKeys(entries: seq<Json>) {
    forall a, b :: 0 <= a < b < |entries| && VideoIdKey(entries[a]).Some? ==> VideoIdKey(entries[a]) != VideoIdKey(entries[b])
  }

  lemma MergeKeepsKeysUnique(saved: seq<Json>, found: seq<VideoRecord>)
    requires KnownIds(saved).Success? && UniqueKeys(saved) && FreshRecords(KnownIds(saved).value, found)
    ensures UniqueKeys(saved + EncodeAll(found))
  {
    var all := saved + EncodeAll(found);
    forall a, b | 0 <= a < b < |all| && VideoIdKey(all[a]).Some?
      ensures VideoIdKey(all[a]) != VideoIdKey(all[b])
    {
      KeyOfAppended(saved, found, a);
      KeyOfAppended(saved, found, b);
      if a < |saved| && b >= |saved| {
        assert VideoIdKey(saved[a]).value in KnownIds(saved).value;
      }
    }
  }

  /**
   * getNewInformation, lines 115-168. Every lookup asks only for non-empty ids
   * that neither the loaded cache nor an earlier lookup of the run supplied;
   * the records returned are exactly those built from the lookups' answers
   * (each answered item with a non-empty id not seen before, in order), so
   * they are distinct, have non-empty ids, and none is in the loaded cache; the
   * cache is written exactly when something new was found, and then holds the
   * loaded list followed by the new records in discovery order; nothing is
   * written on failure; a cache without duplicate ids stays so.
   */
  lemma IncrementalRunContract(api: Api, pids: seq<string>, cache: CacheState, log: seq<Request>)
    ensures var o := NewRun(api, pids, cache, log);
      var saved := CachedList(cache);
      && |log| <= |o.log| && o.log[..|log|] == log
      && (KnownIds(saved).Success? ==> RunGated(api, KnownIds(saved).value, o.log[|log|..]))
      && (o.result.Failure? ==> o.cache == cache && !o.wrote)
      && (o.result.Success? ==>
            && KnownIds(saved).Success?
            && o.result.value == RunFound(api, KnownIds(saved).value, o.log[|log|..])
            && FreshRecords(KnownIds(saved).value, o.result.value)
            && (o.wrote <==> o.result.value != [])
            && (o.wrote ==> o.cache == Parsed(JArray(saved + EncodeAll(o.result.value))))
            && (!o.wrote ==> o.cache == cache))
      && (UniqueKeys(saved) ==> UniqueKeys(CachedList(o.cache)))
  {
    var saved := CachedList(cache);
    if KnownIds(saved).Success? {
      var init := KnownIds(saved).value;
      var p0 := Progress(log, init, [], None);
      assert log[..|log|] == log && log[|log|..] == [];
      assert RecordIds([]) == {};
      assert LookupItems(api, []) == [] && RunFound(api, init, []) == [];
      assert Recorded(api, init, log, p0);
      NewPlaylistsSound(init, log, api, pids, 0, p0);
      var p := NewPlaylists(api, pids, 0, p0);
      if p.err.None? && p.found != [] && UniqueKeys(saved) {
        MergeKeepsKeysUnique(saved, p.found);
      }
    } else {
      assert log[..|log|] == log;
    }
  }

  // ---------------------------------------------------------------------------
  // A second run against an unchanged platform

  /** The ids among `ids` that the catalog knows, each as its catalog item, in order. */
  function Pick(catalog: map<string, RawItem>, ids: seq<string>): seq<RawItem> {
    if ids == [] then []
    else (if ids[0] in catalog then [catalog[ids[0]]] else []) + Pick(catalog, ids[1..])
  }

  /** The detail lookup answers from a fixed catalog: for each requested id the
      platform knows, that video's item (carrying that id), and nothing else. */
  ghost predicate ServesCatalog(api: Api, catalog: map<string, RawItem>) {
    && (forall id :: id in catalog ==> catalog[id].id == Some(id))
    && forall ids :: api.videos(ids) == Some(DetailResponse(Some(Pick(catalog, ids))))
  }

  lemma {:induction false} PickListsKnown(catalog: map<string, RawItem>, ids: seq<string>, v: string)
    requires v in ids && v in catalog
    ensures catalog[v] in Pick(catalog, ids)
  {
    if ids[0] != v {
      PickListsKnown(catalog, ids[1..], v);
    }
  }

  lemma {:induction false} PickOfUnknown(catalog: map<string, RawItem>, ids: seq<string>)
    requires forall v :: v in ids ==> v !in catalog
    ensures Pick(catalog, ids) == []
  {
    if ids != [] {
      PickOfUnknown(catalog, ids[1..]);
    }
  }

  /** After absorbing some items every non-empty item id is known, and nothing known is forgotten. */
  lemma {:induction false} AbsorbLearns(items: seq<RawItem>, known: set<Json>, found: seq<VideoRecord>)
    ensures var (k, _) := Absorb(items, known, found);
      known <= k && forall item :: item in items && ItemId(item) != "" ==> JString(ItemId(item)) in k
    decreases |items|
  {
    if items != [] {
      var vid := ItemId(items[0]);
      if vid == "" || JString(vid) in known {
        AbsorbLearns(items[1..], known, found);
      } else {
        AbsorbLearns(items[1..], known + {JString(vid)}, found + [LenientRecord(items[0])]);
      }
    }
  }

  /** Every catalog video listed on the page is among `known`. */
  ghost predicate Covers(catalog: map<string, RawItem>, page: PageResponse, known: set<Json>) {
    forall v :: v in page.items.GetOr([]) && v != "" && v in catalog ==> JString(v) in known
  }

  /** The walk of `pid` from page `j` finds every page, and `known` covers each of them. */
  ghost predicate CoveredWalk(api: Api, catalog: map<string, RawItem>, pid: string, j: nat, known: set<Json>)
    decreases FeedLength(api, pid) - j
  {
    match PageAt(api, pid, j)
    case None => false
    case Some(page) => Covers(catalog, page, known) && (Truthy(page.nextPageToken) ==> CoveredWalk(api, catalog, pid, j + 1, known))
  }

  lemma {:induction false} CoveredWalkGrows(api: Api, catalog: map<string, RawItem>, pid: string, j: nat, known: set<Json>, more: set<Json>)
    requires CoveredWalk(api, catalog, pid, j, known) && known <= more
    ensures CoveredWalk(api, catalog, pid, j, more)
    decreases FeedLength(api, pid) - j
  {
    var page := PageAt(api, pid, j).value;
    if Truthy(page.nextPageToken) {
      CoveredWalkGrows(api, catalog, pid, j + 1, known, more);
    }
  }

  lemma NewPageLearns(api: Api, catalog: map<string, RawItem>, page: PageResponse, p: Progress)
    requires ServesCatalog(api, catalog) && p.err.None?
    ensures var r := NewPage(api, page, p); r.err.None? && p.known <= r.known && Covers(catalog, page, r.known)
  {
    var ids := FreshIds(page.items.GetOr([]), p.known);
    if ids != [] {
      var items := Pick(catalog, ids);
      assert api.videos(ids) == Some(DetailResponse(Some(items)));
      AbsorbLearns(items, p.known, p.found);
      var k := Absorb(items, p.known, p.found).0;
      forall v | v in page.items.GetOr([]) && v != "" && v in catalog
        ensures JString(v) in k
      {
        if JString(v) !in p.known {
          PickListsKnown(catalog, ids, v);
          assert ItemId(catalog[v]) == v;
        }
      }
    }
  }

  lemma {:induction false} FirstWalkLearns(api: Api, catalog: map<string, RawItem>, pid: string, j: nat, p: Progress)
    requires ServesCatalog(api, catalog) && p.err.None?
    requires NewWalk(api, pid, j, p).err.None?
    ensures var r := NewWalk(api, pid, j, p); p.known <= r.known && CoveredWalk(api, catalog, pid, j, r.known)
    decreases FeedLength(api, pid) - j
  {
    var req := PlaylistItemsList(pid, MaxResults, TokenAt(api, pid, j));
    var page := PageAt(api, pid, j).value;
    var p1 := NewPage(api, page, p.(log := p.log + [req]));
    NewPageLearns(api, catalog, page, p.(log := p.log + [req]));
    if Truthy(page.nextPageToken) {
      FirstWalkLearns(api, catalog, pid, j + 1, p1);
    }
  }

  lemma {:induction false} FirstRunLearns(api: Api, catalog: map<string, RawItem>, pids: seq<string>, i: nat, p: Progress)
    requires ServesCatalog(api, catalog) && p.err.None?
    requires NewPlaylists(api, pids, i, p).err.None?
    ensures var r := NewPlaylists(api, pids, i, p);
      p.known <= r.known && forall k :: i <= k < |pids| ==> CoveredWalk(api, catalog, pids[k], 0, r.known)
    decreases |pids| - i
  {
    if i < |pids| {
      var p1 := NewWalk(api, pids[i], 0, p);
      FirstWalkLearns(api, catalog, pids[i], 0, p);
      FirstRunLearns(api, catalog, pids, i + 1, p1);
      var r := NewPlaylists(api, pids, i + 1, p1);
      CoveredWalkGrows(api, catalog, pids[i], 0, p1.known, r.known);
    }
  }

  lemma NewPageIdle(api: Api, catalog: map<string, RawItem>, page: PageResponse, p: Progress)
    requires ServesCatalog(api, catalog) && Covers(catalog, page, p.known) && p.err.None?
    ensures var r := NewPage(api, page, p); r.err.None? && r.known == p.known && r.found == p.found
  {
    var ids := FreshIds(page.items.GetOr([]), p.known);
    if ids != [] {
      PickOfUnknown(catalog, ids);
      assert api.videos(ids) == Some(DetailResponse(Some([])));
    }
  }

  lemma {:induction false} SecondWalkIdle(api: Api, catalog: map<string, RawItem>, pid: string, j: nat, p: Progress)
    requires ServesCatalog(api, catalog) && CoveredWalk(api, catalog, pid, j, p.known) && p.err.None?
    ensures var r := NewWalk(api, pid, j, p); r.err.None? && r.known == p.known && r.found == p.found
    decreases FeedLength(api, pid) - j
  {
    var req := PlaylistItemsList(pid, MaxResults, TokenAt(api, pid, j));
    var page := PageAt(api, pid, j).value;
    var p1 := NewPage(api, page, p.(log := p.log + [req]));
    NewPageIdle(api, catalog, page, p.(log := p.log + [req]));
    if Truthy(page.nextPageToken) {
      SecondWalkIdle(api, catalog, pid, j + 1, p1);
    }
  }

  lemma {:induction false} SecondRunIdle(api: Api, catalog: map<string, RawItem>, pids: seq<string>, i: nat, p: Progress)
    requires ServesCatalog(api, catalog) && p.err.None?
    requires forall k :: i <= k < |pids| ==> CoveredWalk(api, catalog, pids[k], 0, p.known)
    ensures var r := NewPlaylists(api, pids, i, p); r.err.None? && r.known == p.known && r.found == p.found
    decreases |pids| - i
  {
    if i < |pids| {
      SecondWalkIdle(api, catalog, pids[i], 0, p);
      SecondRunIdle(api, catalog, pids, i + 1, NewWalk(api, pids[i], 0, p));
    }
  }

  /**
   * getNewInformation, lines 121-155, against a platform whose lookup answers
   * from a fixed catalog: every catalog video listed on a page of any walked
   * playlist ends up known, either because the loaded cache already held it or
   * because the run looked it up and returned it, and so the cache the run
   * leaves holds every one of them.
   */
  lemma IncrementalRunComplete(api: Api, catalog: map<string, RawItem>, pids: seq<string>, cache: CacheState, log: seq<Request>)
    requires ServesCatalog(api, catalog)
    requires NewRun(api, pids, cache, log).result.Success?
    ensures var o := NewRun(api, pids, cache, log);
      var init := KnownIds(CachedList(cache));
      && init.Success? && KnownIds(CachedList(o.cache)).Success?
      && (forall k :: 0 <= k < |pids| ==> CoveredWalk(api, catalog, pids[k], 0, init.value + RecordIds(o.result.value)))
      && (forall k :: 0 <= k < |pids| ==> CoveredWalk(api, catalog, pids[k], 0, KnownIds(CachedList(o.cache)).value))
  {
    var first := NewRun(api, pids, cache, log);
    var saved := CachedList(cache);
    var init := KnownIds(saved).value;
    var p0 := Progress(log, init, [], None);
    var p := NewPlaylists(api, pids, 0, p0);
    assert log[..|log|] == log;
    assert RecordIds([]) == {};
    NewPlaylistsSound(init, log, api, pids, 0, p0);
    FirstRunLearns(api, catalog, pids, 0, p0);
    assert p.known == init + RecordIds(p.found);
    if p.found != [] {
      assert CachedList(first.cache) == saved + EncodeAll(p.found);
      KnownIdsAppend(saved, p.found);
    }
    assert KnownIds(CachedList(first.cache)) == Success(p.known);
  }

  /**
   * Running getNewInformation again, against a platform whose lookup answers
   * from a fixed catalog and with the cache the first run left, returns no
   * records and does not write the cache.
   */
  lemma SecondRunFindsNothing(api: Api, catalog: map<string, RawItem>, pids: seq<string>, cache: CacheState, log: seq<Request>)
    requires ServesCatalog(api, catalog)
    requires NewRun(api, pids, cache, log).result.Success?
    ensures var first := NewRun(api, pids, cache, log);
      var second := NewRun(api, pids, first.cache, first.log);
      second.result == Success([]) && second.cache == first.cache && !second.wrote
  {
    var first := NewRun(api, pids, cache, log);
    IncrementalRunComplete(api, catalog, pids, cache, log);
    SecondRunIdle(api, catalog, pids, 0, Progress(first.log, KnownIds(CachedList(first.cache)).value, [], None));
  }

  // ---------------------------------------------------------------------------
  // Pagination and the full fetch

  /** The pages a walk of `pid` from page `j` receives when every request
      succeeds: it asks again exactly while the last page carried a truthy
      continuation token, whatever the size of that page. */
  function WalkPages(api: Api, pid: string, j: nat): (r: Option<seq<PageResponse>>)
    decreases FeedLength(api, pid) - j
    ensures r.Some? ==>
      var ps := r.value;
      && |ps| >= 1
      && (forall k :: 0 <= k < |ps| ==> PageAt(api, pid, j + k) == Some(ps[k]))
      && (forall k :: 0 <= k < |ps| - 1 ==> Truthy(ps[k].nextPageToken))
      && !Truthy(ps[|ps| - 1].nextPageToken)
  {
    match PageAt(api, pid, j)
    case None => None
    case Some(page) =>
      if !Truthy(page.nextPageToken) then Some([page])
      else
        match WalkPages(api, pid, j + 1)
        case None => None
        case Some(rest) => Some([page] + rest)
  }

  /** The page requests of a walk that receives `ps`: the first carries `first`,
      each later one the token of the page before it. */
  function WalkRequests(pid: string, first: Option<string>, ps: seq<PageResponse>): (rs: seq<Request>)
    ensures |rs| == |ps|
  {
    seq(|ps|, k requires 0 <= k < |ps| => PlaylistItemsList(pid, MaxResults, if k == 0 then first else ps[k - 1].nextPageToken))
  }

  lemma WalkRequestsCons(pid: string, first: Option<string>, page: PageResponse, rest: seq<PageResponse>)
    ensures WalkRequests(pid, first, [page] + rest) ==
      [PlaylistItemsList(pid, MaxResults, first)] + WalkRequests(pid, page.nextPageToken, rest)
  {
    var ps := [page] + rest;
    var lhs := WalkRequests(pid, first, ps);
    var rhs := [PlaylistItemsList(pid, MaxResults, first)] + WalkRequests(pid, page.nextPageToken, rest);
    assert |lhs| == |rhs|;
    forall k | 0 <= k < |lhs|
      ensures lhs[k] == rhs[k]
    {
      if k > 1 {
        assert ps[k - 1] == rest[k - 2];
      }
    }
  }

  /** The page requests among some requests, in order. */
  function PageRequests(log: seq<Request>): seq<Request> {
    if log == [] then []
    else (if log[0].PlaylistItemsList? then [log[0]] else []) + PageRequests(log[1..])
  }

  lemma {:induction false} PageRequestsAppend(a: seq<Request>, b: seq<Request>)
    ensures PageRequests(a + b) == PageRequests(a) + PageRequests(b)
  {
    if a != [] {
      assert (a + b)[1..] == a[1..] + b;
      assert (a + b)[0] == a[0];
      PageRequestsAppend(a[1..], b);
    } else {
      assert a + b == b;
    }
  }

  /** The items the detail lookups of a full fetch return for `pages`, in page
      order (a page without ids gets no lookup), or `None` if a lookup fails. */
  function DetailItems(api: Api, pages: seq<PageResponse>): Option<seq<RawItem>> {
    if pages == [] then Some([])
    else
      match (PageDetails(api, pages[0]), DetailItems(api, pages[1..]))
      case (Some(h), Some(t)) => Some(h + t)
      case _ => None
  }

  /** The items the detail lookup returns for one page: none, without a lookup,
      for a page without ids. */
  function PageDetails(api: Api, page: PageResponse): Option<seq<RawItem>> {
    var ids := page.items.GetOr([]);
    if ids == [] then Some([])
    else
      match api.videos(ids)
      case None => None
      case Some(resp) => Some(resp.items.GetOr([]))
  }

  /** Every detail lookup among `reqs` asks for at least one id. */
  predicate NonEmptyLookups(reqs: seq<Request>) {
    forall k :: 0 <= k < |reqs| && reqs[k].VideosList? ==> reqs[k].ids != []
  }

  lemma LenientRecordsAppend(a: seq<RawItem>, b: seq<RawItem>)
    ensures LenientRecords(a + b) == LenientRecords(a) + LenientRecords(b)
  {
  }

  /** `base` is a prefix of `log`, and `log` of `log'`: the part `log'` adds to `base` splits. */
  lemma SliceSplit(base: seq<Request>, log: seq<Request>, log': seq<Request>)
    requires |base| <= |log| <= |log'| && log[..|base|] == base && log'[..|log|] == log
    ensures log'[..|base|] == base && log'[|base|..] == log[|base|..] + log'[|log|..]
  {
  }

  /** What a full fetch from `f` has done once it has walked playlist `pid` from
      page `j` and reached `r`. */
  ghost predicate WalkTrace(api: Api, pid: string, j: nat, f: Fetch, r: Fetch) {
    && |f.log| <= |r.log| && r.log[..|f.log|] == f.log
    && NonEmptyLookups(r.log[|f.log|..])
    && (r.err.None? ==>
          && WalkPages(api, pid, j).Some?
          && PageRequests(r.log[|f.log|..]) == WalkRequests(pid, TokenAt(api, pid, j), WalkPages(api, pid, j).value)
          && DetailItems(api, WalkPages(api, pid, j).value).Some?
          && r.videos == f.videos + LenientRecords(DetailItems(api, WalkPages(api, pid, j).value).value))
  }

  lemma {:induction false} InfoWalkTrace(api: Api, pid: string, j: nat, f: Fetch)
    requires f.err.None?
    ensures WalkTrace(api, pid, j, f, InfoWalk(api, pid, j, f))
    decreases FeedLength(api, pid) - j
  {
    var req := PlaylistItemsList(pid, MaxResults, TokenAt(api, pid, j));
    match PageAt(api, pid, j)
    case None =>
      assert (f.log + [req])[|f.log|..] == [req];
    case Some(page) =>
      var f1 := InfoPage(api, page, f.(log := f.log + [req]));
      InfoPageTrace(api, page, f, req);
      if f1.err.None? && Truthy(page.nextPageToken) {
        InfoWalkTrace(api, pid, j + 1, f1);
        WalkTraceCons(api, pid, j, f, page, f1, InfoWalk(api, pid, j + 1, f1));
      } else if f1.err.None? {
        assert WalkPages(api, pid, j) == Some([page]);
        assert [page][1..] == [];
        assert PageDetails(api, page).value + [] == PageDetails(api, page).value;
      }
  }

  lemma WalkTraceCons(api: Api, pid: string, j: nat, f: Fetch, page: PageResponse, f1: Fetch, r: Fetch)
    requires f.err.None? && PageAt(api, pid, j) == Some(page) && Truthy(page.nextPageToken)
    requires f1 == InfoPage(api, page, f.(log := f.log + [PlaylistItemsList(pid, MaxResults, TokenAt(api, pid, j))]))
    requires |f.log| < |f1.log| && f1.log[..|f.log|] == f.log
    requires NonEmptyLookups(f1.log[|f.log|..])
    requires PageRequests(f1.log[|f.log|..]) == [PlaylistItemsList(pid, MaxResults, TokenAt(api, pid, j))]
    requires f1.err.None? && PageDetails(api, page).Some?
    requires f1.videos == f.videos + LenientRecords(PageDetails(api, page).value)
    requires WalkTrace(api, pid, j + 1, f1, r)
    ensures WalkTrace(api, pid, j, f, r)
  {
    SliceSplit(f.log, f1.log, r.log);
    PageRequestsAppend(f1.log[|f.log|..], r.log[|f1.log|..]);
    NonEmptyLookupsAppend(f1.log[|f.log|..], r.log[|f1.log|..]);
    if r.err.None? {
      var rest := WalkPages(api, pid, j + 1).value;
      assert TokenAt(api, pid, j + 1) == page.nextPageToken;
      assert WalkPages(api, pid, j) == Some([page] + rest);
      WalkRequestsCons(pid, TokenAt(api, pid, j), page, rest);
      VideosCons(api, page, rest, f.videos, f1.videos, r.videos);
    }
  }

  /** The records of one page followed by those of the pages after it. */
  lemma VideosCons(api: Api, page: PageResponse, rest: seq<PageResponse>, v0: seq<VideoRecord>, v1: seq<VideoRecord>, v2: seq<VideoRecord>)
    requires PageDetails(api, page).Some? && DetailItems(api, rest).Some?
    requires v1 == v0 + LenientRecords(PageDetails(api, page).value)
    requires v2 == v1 + LenientRecords(DetailItems(api, rest).value)
    ensures DetailItems(api, [page] + rest).Some?
    ensures v2 == v0 + LenientRecords(DetailItems(api, [page] + rest).value)
  {
    var a := PageDetails(api, page).value;
    var b := DetailItems(api, rest).value;
    assert ([page] + rest)[0] == page && ([page] + rest)[1..] == rest;
    assert DetailItems(api, [page] + rest) == Some(a + b);
    LenientRecordsAppend(a, b);
    assert (v0 + LenientRecords(a)) + LenientRecords(b) == v0 + (LenientRecords(a) + LenientRecords(b));
  }

  /** One page of a full fetch: its page request, then at most one non-empty lookup. */
  lemma InfoPageTrace(api: Api, page: PageResponse, f: Fetch, req: Request)
    requires f.err.None? && req.PlaylistItemsList?
    ensures var f1 := InfoPage(api, page, f.(log := f.log + [req]));
      && |f.log| < |f1.log| && f1.log[..|f.log|] == f.log
      && NonEmptyLookups(f1.log[|f.log|..])
      && PageRequests(f1.log[|f.log|..]) == [req]
      && (f1.err.None? <==> PageDetails(api, page).Some?)
      && (f1.err.None? ==> f1.videos == f.videos + LenientRecords(PageDetails(api, page).value))
  {
    var ids := page.items.GetOr([]);
    var mid := InfoPage(api, page, f.(log := f.log + [req])).log[|f.log|..];
    if ids == [] {
      assert mid == [req] && mid[1..] == [];
    } else {
      assert mid == [req, VideosList(ids)];
      assert mid[1..] == [VideosList(ids)] && mid[1..][1..] == [];
      assert PageRequests(mid[1..]) == [];
    }
  }

  /** The pages received by the walks of all playlists, in order. */
  function AllWalks(api: Api, pids: seq<string>): (r: Option<seq<seq<PageResponse>>>)
    ensures r.Some? ==> |r.value| == |pids|
  {
    if pids == [] then Some([])
    else
      match (WalkPages(api, pids[0], 0), AllWalks(api, pids[1..]))
      case (Some(ps), Some(rest)) => Some([ps] + rest)
      case _ => None
  }

  /** The page requests of those walks: each starts with no token. */
  function AllWalkRequests(pids: seq<string>, walks: seq<seq<PageResponse>>): seq<Request>
    requires |walks| == |pids|
  {
    if pids == [] then [] else WalkRequests(pids[0], None, walks[0]) + AllWalkRequests(pids[1..], walks[1..])
  }

  function Flatten(walks: seq<seq<PageResponse>>): seq<PageResponse> {
    if walks == [] then [] else walks[0] + Flatten(walks[1..])
  }

  lemma {:induction false} DetailItemsAppend(api: Api, a: seq<PageResponse>, b: seq<PageResponse>)
    ensures DetailItems(api, a + b) ==
      if DetailItems(api, a).Some? && DetailItems(api, b).Some? then Some(DetailItems(api, a).value + DetailItems(api, b).value) else None
  {
    if a != [] {
      assert (a + b)[1..] == a[1..] + b;
      assert (a + b)[0] == a[0];
      DetailItemsAppend(api, a[1..], b);
      var h := PageDetails(api, a[0]);
      var ta := DetailItems(api, a[1..]);
      var tb := DetailItems(api, b);
      if h.Some? && ta.Some? && tb.Some? {
        assert DetailItems(api, a) == Some(h.value + ta.value);
        assert DetailItems(api, a + b) == Some(h.value + (ta.value + tb.value));
        assert h.value + (ta.value + tb.value) == (h.value + ta.value) + tb.value;
      }
    } else {
      assert a + b == b;
      assert DetailItems(api, a) == Some([]);
      if DetailItems(api, b).Some? {
        assert [] + DetailItems(api, b).value == DetailItems(api, b).value;
      }
    }
  }

  /** What a full fetch from `f` has done once it has sent `reqs` and built `videos`
      while walking the playlists `pids`. */
  ghost predicate InfoTrace(api: Api, pids: seq<string>, f: Fetch, r: Fetch) {
    && |f.log| <= |r.log| && r.log[..|f.log|] == f.log
    && NonEmptyLookups(r.log[|f.log|..])
    && (r.err.None? ==>
          && AllWalks(api, pids).Some?
          && PageRequests(r.log[|f.log|..]) == AllWalkRequests(pids, AllWalks(api, pids).value)
          && DetailItems(api, Flatten(AllWalks(api, pids).value)).Some?
          && r.videos == f.videos + LenientRecords(DetailItems(api, Flatten(AllWalks(api, pids).value)).value))
  }

  lemma InfoTraceCons(api: Api, pids: seq<string>, f: Fetch, f1: Fetch, r: Fetch)
    requires pids != [] && f.err.None? && f1 == InfoWalk(api, pids[0], 0, f) && f1.err.None?
    requires InfoTrace(api, pids[1..], f1, r)
    ensures InfoTrace(api, pids, f, r)
  {
    InfoWalkTrace(api, pids[0], 0, f);
    SliceSplit(f.log, f1.log, r.log);
    NonEmptyLookupsAppend(f1.log[|f.log|..], r.log[|f1.log|..]);
    if r.err.None? {
      InfoTraceConsSuccess(api, pids, f, f1, r);
    }
  }

  lemma InfoTraceConsSuccess(api: Api, pids: seq<string>, f: Fetch, f1: Fetch, r: Fetch)
    requires pids != [] && f.err.None? && f1 == InfoWalk(api, pids[0], 0, f) && f1.err.None?
    requires InfoTrace(api, pids[1..], f1, r) && r.err.None? && |f.log| <= |f1.log|
    ensures AllWalks(api, pids).Some?
    ensures PageRequests(r.log[|f.log|..]) == AllWalkRequests(pids, AllWalks(api, pids).value)
    ensures DetailItems(api, Flatten(AllWalks(api, pids).value)).Some?
    ensures r.videos == f.videos + LenientRecords(DetailItems(api, Flatten(AllWalks(api, pids).value)).value)
  {
    InfoWalkTrace(api, pids[0], 0, f);
    AllWalksCons(api, pids);
    InfoTraceRequests(api, pids, f, f1, r);
    InfoTraceVideos(api, pids, f, f1, r);
  }

  lemma AllWalksCons(api: Api, pids: seq<string>)
    requires pids != [] && WalkPages(api, pids[0], 0).Some? && AllWalks(api, pids[1..]).Some?
    ensures var ps := WalkPages(api, pids[0], 0).value;
      var rest := AllWalks(api, pids[1..]).value;
      && AllWalks(api, pids) == Some([ps] + rest)
      && ([ps] + rest)[0] == ps && ([ps] + rest)[1..] == rest
      && Flatten([ps] + rest) == ps + Flatten(rest)
  {
    var ps := WalkPages(api, pids[0], 0).value;
    var rest := AllWalks(api, pids[1..]).value;
    assert ([ps] + rest)[1..] == rest;
  }

  lemma InfoTraceRequests(api: Api, pids: seq<string>, f: Fetch, f1: Fetch, r: Fetch)
    requires pids != [] && WalkTrace(api, pids[0], 0, f, f1) && f1.err.None?
    requires InfoTrace(api, pids[1..], f1, r) && r.err.None?
    requires AllWalks(api, pids) == Some([WalkPages(api, pids[0], 0).value] + AllWalks(api, pids[1..]).value)
    ensures PageRequests(r.log[|f.log|..]) == AllWalkRequests(pids, AllWalks(api, pids).value)
  {
    var ps := WalkPages(api, pids[0], 0).value;
    var rest := AllWalks(api, pids[1..]).value;
    assert ([ps] + rest)[0] == ps && ([ps] + rest)[1..] == rest;
    SliceSplit(f.log, f1.log, r.log);
    PageRequestsAppend(f1.log[|f.log|..], r.log[|f1.log|..]);
  }

  lemma InfoTraceVideos(api: Api, pids: seq<string>, f: Fetch, f1: Fetch, r: Fetch)
    requires pids != [] && WalkTrace(api, pids[0], 0, f, f1) && f1.err.None?
    requires InfoTrace(api, pids[1..], f1, r) && r.err.None?
    requires Flatten(AllWalks(api, pids).value) == WalkPages(api, pids[0], 0).value + Flatten(AllWalks(api, pids[1..]).value)
    requires AllWalks(api, pids).Some?
    ensures DetailItems(api, Flatten(AllWalks(api, pids).value)).Some?
    ensures r.videos == f.videos + LenientRecords(DetailItems(api, Flatten(AllWalks(api, pids).value)).value)
  {
    var ps := WalkPages(api, pids[0], 0).value;
    var rest := Flatten(AllWalks(api, pids[1..]).value);
    assert f1.videos == f.videos + LenientRecords(DetailItems(api, ps).value);
    assert r.videos == f1.videos + LenientRecords(DetailItems(api, rest).value);
    VideosConcat(api, ps, rest, f.videos, f1.videos, r.videos);
  }

  /** Records built page run after page run add up to those of the joined run. */
  lemma VideosConcat(api: Api, ps: seq<PageResponse>, rest: seq<PageResponse>, v0: seq<VideoRecord>, v1: seq<VideoRecord>, v2: seq<VideoRecord>)
    requires DetailItems(api, ps).Some? && DetailItems(api, rest).Some?
    requires v1 == v0 + LenientRecords(DetailItems(api, ps).value)
    requires v2 == v1 + LenientRecords(DetailItems(api, rest).value)
    ensures DetailItems(api, ps + rest).Some?
    ensures v2 == v0 + LenientRecords(DetailItems(api, ps + rest).value)
  {
    var a := DetailItems(api, ps).value;
    var b := DetailItems(api, rest).value;
    DetailItemsAppend(api, ps, rest);
    assert DetailItems(api, ps + rest) == Some(a + b);
    LenientRecordsAppend(a, b);
    assert (v0 + LenientRecords(a)) + LenientRecords(b) == v0 + (LenientRecords(a) + LenientRecords(b));
  }

  lemma NonEmptyLookupsAppend(a: seq<Request>, b: seq<Request>)
    requires NonEmptyLookups(a) && NonEmptyLookups(b)
    ensures NonEmptyLookups(a + b)
  {
    forall k | 0 <= k < |a + b| && (a + b)[k].VideosList?
      ensures (a + b)[k].ids != []
    {
      if k >= |a| {
        assert (a + b)[k] == b[k - |a|];
      }
    }
  }

  lemma {:induction false} InfoPlaylistsTrace(api: Api, pids: seq<string>, f: Fetch)
    requires f.err.None?
    ensures InfoTrace(api, pids, f, InfoPlaylists(api, pids, 0, f))
    decreases |pids|
  {
    if pids != [] {
      InfoWalkTrace(api, pids[0], 0, f);
      var f1 := InfoWalk(api, pids[0], 0, f);
      if f1.err.None? {
        InfoPlaylistsShift(api, pids, f1);
        InfoPlaylistsTrace(api, pids[1..], f1);
        InfoTraceCons(api, pids, f, f1, InfoPlaylists(api, pids[1..], 0, f1));
      }
    } else {
      assert f.log[|f.log|..] == [];
    }
  }

  lemma InfoPlaylistsShift(api: Api, pids: seq<string>, f: Fetch)
    requires pids != []
    ensures InfoPlaylists(api, pids, 1, f) == InfoPlaylists(api, pids[1..], 0, f)
  {
    InfoPlaylistsFrom(api, pids, 1, f);
  }

  lemma {:induction false} InfoPlaylistsFrom(api: Api, pids: seq<string>, i: nat, f: Fetch)
    requires 0 < i <= |pids|
    ensures InfoPlaylists(api, pids, i, f) == InfoPlaylists(api, pids[1..], i - 1, f)
    decreases |pids| - i
  {
    if i < |pids| {
      var f1 := InfoWalk(api, pids[i], 0, f);
      if f1.err.None? {
        InfoPlaylistsFrom(api, pids, i + 1, f1);
      }
    }
  }

  /**
   * getInformation, lines 69-108. No detail lookup is sent for a page without
   * ids; on success the walks of the playlists, in order, are those
   * `WalkPages` describes, each starting with no token, and the result holds
   * one record per returned detail item, over all playlists and pages in
   * order, with no deduplication.
   */
  lemma FullRunContract(api: Api, pids: seq<string>, log: seq<Request>)
    ensures var f := InfoRun(api, pids, log);
      && |log| <= |f.log| && f.log[..|log|] == log
      && NonEmptyLookups(f.log[|log|..])
      && (f.err.None? ==>
            && AllWalks(api, pids).Some?
            && PageRequests(f.log[|log|..]) == AllWalkRequests(pids, AllWalks(api, pids).value)
            && DetailItems(api, Flatten(AllWalks(api, pids).value)).Some?
            && f.videos == LenientRecords(DetailItems(api, Flatten(AllWalks(api, pids).value)).value))
  {
    InfoPlaylistsTrace(api, pids, Fetch(log, [], None));
  }

  // ---------------------------------------------------------------------------
  // Pagination of an incremental run

  /** What an incremental run from `p` has requested once it has walked playlist
      `pid` from page `j` and reached `r`. */
  ghost predicate NewWalkPaged(api: Api, pid: string, j: nat, p: Progress, r: Progress) {
    && |p.log| <= |r.log| && r.log[..|p.log|] == p.log
    && (r.err.None? ==>
          && WalkPages(api, pid, j).Some?
          && PageRequests(r.log[|p.log|..]) == WalkRequests(pid, TokenAt(api, pid, j), WalkPages(api, pid, j).value))
  }

  /** One page of an incremental run: its page request, then at most one lookup. */
  lemma NewPagePaged(api: Api, page: PageResponse, p: Progress, req: Request)
    requires req.PlaylistItemsList?
    ensures var p1 := NewPage(api, page, p.(log := p.log + [req]));
      && |p.log| < |p1.log| && p1.log[..|p.log|] == p.log
      && PageRequests(p1.log[|p.log|..]) == [req]
  {
    var p1 := NewPage(api, page, p.(log := p.log + [req]));
    var mid := p1.log[|p.log|..];
    if p1.log == p.log + [req] {
      assert mid == [req] && mid[1..] == [];
    } else {
      var ids :| p1.log == p.log + [req] + [VideosList(ids)];
      assert mid == [req, VideosList(ids)];
      assert mid[1..] == [VideosList(ids)] && mid[1..][1..] == [];
      assert PageRequests(mid[1..]) == [];
    }
  }

  lemma {:induction false} NewWalkPagedTrace(api: Api, pid: string, j: nat, p: Progress)
    requires p.err.None?
    ensures NewWalkPaged(api, pid, j, p, NewWalk(api, pid, j, p))
    decreases FeedLength(api, pid) - j
  {
    var req := PlaylistItemsList(pid, MaxResults, TokenAt(api, pid, j));
    match PageAt(api, pid, j)
    case None =>
    case Some(page) =>
      var p1 := NewPage(api, page, p.(log := p.log + [req]));
      NewPagePaged(api, page, p, req);
      if p1.err.None? && Truthy(page.nextPageToken) {
        NewWalkPagedTrace(api, pid, j + 1, p1);
        var r := NewWalk(api, pid, j + 1, p1);
        assert NewWalk(api, pid, j, p) == r;
        SliceSplit(p.log, p1.log, r.log);
        if r.err.None? {
          PagedCons(api, pid, j, page, p.log, p1.log, r.log);
        }
      } else {
        assert NewWalk(api, pid, j, p) == p1;
        if p1.err.None? {
          PagedLast(api, pid, j, page, p.log, p1.log);
        }
      }
  }

  /** A page request `log1` adds to `log`, followed by the rest of a walk from the
      next page, is the walk from this page. */
  lemma PagedCons(api: Api, pid: string, j: nat, page: PageResponse, log: seq<Request>, log1: seq<Request>, log2: seq<Request>)
    requires PageAt(api, pid, j) == Some(page) && Truthy(page.nextPageToken)
    requires |log| < |log1| <= |log2| && log1[..|log|] == log && log2[..|log1|] == log1
    requires PageRequests(log1[|log|..]) == [PlaylistItemsList(pid, MaxResults, TokenAt(api, pid, j))]
    requires WalkPages(api, pid, j + 1).Some?
    requires PageRequests(log2[|log1|..]) == WalkRequests(pid, TokenAt(api, pid, j + 1), WalkPages(api, pid, j + 1).value)
    ensures WalkPages(api, pid, j).Some?
    ensures PageRequests(log2[|log|..]) == WalkRequests(pid, TokenAt(api, pid, j), WalkPages(api, pid, j).value)
  {
    var rest := WalkPages(api, pid, j + 1).value;
    assert TokenAt(api, pid, j + 1) == page.nextPageToken;
    assert WalkPages(api, pid, j) == Some([page] + rest);
    SliceSplit(log, log1, log2);
    PageRequestsAppend(log1[|log|..], log2[|log1|..]);
    WalkRequestsCons(pid, TokenAt(api, pid, j), page, rest);
  }

  /** A page request for a page without a truthy token is a whole walk. */
  lemma PagedLast(api: Api, pid: string, j: nat, page: PageResponse, log: seq<Request>, log1: seq<Request>)
    requires PageAt(api, pid, j) == Some(page) && !Truthy(page.nextPageToken)
    requires |log| <= |log1| && PageRequests(log1[|log|..]) == [PlaylistItemsList(pid, MaxResults, TokenAt(api, pid, j))]
    ensures WalkPages(api, pid, j) == Some([page])
    ensures PageRequests(log1[|log|..]) == WalkRequests(pid, TokenAt(api, pid, j), [page])
  {
    assert WalkRequests(pid, TokenAt(api, pid, j), [page]) == [PlaylistItemsList(pid, MaxResults, TokenAt(api, pid, j))];
  }

  /** What an incremental run from `p` has requested once it has walked the
      playlists `pids` and reached `r`. */
  ghost predicate NewPlaylistsPaged(api: Api, pids: seq<string>, p: Progress, r: Progress) {
    && |p.log| <= |r.log| && r.log[..|p.log|] == p.log
    && (r.err.None? ==>
          && AllWalks(api, pids).Some?
          && PageRequests(r.log[|p.log|..]) == AllWalkRequests(pids, AllWalks(api, pids).value))
  }

  lemma {:induction false} NewPlaylistsPagedTrace(api: Api, pids: seq<string>, p: Progress)
    requires p.err.None?
    ensures NewPlaylistsPaged(api, pids, p, NewPlaylists(api, pids, 0, p))
    decreases |pids|
  {
    if pids != [] {
      NewWalkPagedTrace(api, pids[0], 0, p);
      var p1 := NewWalk(api, pids[0], 0, p);
      if p1.err.None? {
        NewPlaylistsShift(api, pids, p1);
        NewPlaylistsPagedTrace(api, pids[1..], p1);
        var r := NewPlaylists(api, pids[1..], 0, p1);
        SliceSplit(p.log, p1.log, r.log);
        PageRequestsAppend(p1.log[|p.log|..], r.log[|p1.log|..]);
        if r.err.None? {
          AllWalksCons(api, pids);
        }
      }
    } else {
      assert p.log[|p.log|..] == [];
    }
  }

  lemma NewPlaylistsShift(api: Api, pids: seq<string>, p: Progress)
    requires pids != []
    ensures NewPlaylists(api, pids, 1, p) == NewPlaylists(api, pids[1..], 0, p)
  {
    NewPlaylistsFrom(api, pids, 1, p);
  }

  lemma {:induction false} NewPlaylistsFrom(api: Api, pids: seq<string>, i: nat, p: Progress)
    requires 0 < i <= |pids|
    ensures NewPlaylists(api, pids, i, p) == NewPlaylists(api, pids[1..], i - 1, p)
    decreases |pids| - i
  {
    if i < |pids| {
      var p1 := NewWalk(api, pids[i], 0, p);
      if p1.err.None? {
        NewPlaylistsFrom(api, pids, i + 1, p1);
      }
    }
  }

  /**
   * getNewInformation, lines 120-159. A successful incremental run walks every
   * uploads playlist, in order, each from its first page with no token, and
   * stops each walk at the first page whose continuation token is falsy: its
   * page requests are exactly those of the walks `WalkPages` describes.
   */
  lemma IncrementalRunPages(api: Api, pids: seq<string>, cache: CacheState, log: seq<Request>)
    ensures var o := NewRun(api, pids, cache, log);
      && |log| <= |o.log| && o.log[..|log|] == log
      && (o.result.Success? ==>
            && AllWalks(api, pids).Some?
            && PageRequests(o.log[|log|..]) == AllWalkRequests(pids, AllWalks(api, pids).value))
  {
    assert log[..|log|] == log;
    var saved := CachedList(cache);
    if KnownIds(saved).Success? {
      NewPlaylistsPagedTrace(api, pids, Progress(log, KnownIds(saved).value, [], None));
    }
  }
}
