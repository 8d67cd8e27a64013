/**
 * What the legacy engine's incremental run does, proved about the functions
 * that specify its methods: every detail lookup asks for ids neither the cache
 * nor an earlier lookup of the run already supplied, the records returned are
 * exactly what its lookups answered, the cache is written once and only when
 * something was found, and the pages requested are the walk of the first
 * playlist.
 */
module LegacyProperties {
  import opened Wrappers
  import opened Json
  import opened YouTubeApi
  import opened Records
  import opened CacheStore
  import opened Videogetter
  import opened VideogetterProperties
  import opened LegacyVideogetter

  // ---------------------------------------------------------------------------
  // What the lookups answered

  /** The records the legacy engine builds from the answer to `req`: one per
      returned item for a detail lookup that succeeds with `items`, none otherwise. */
  function Answered(api: Api, req: Request): seq<VideoRecord> {
    if req.VideosList? && api.videos(req.ids).Some? && api.videos(req.ids).value.items.Some?
    then LenientRecords(api.videos(req.ids).value.items.value)
    else []
  }

  /** The records answered to the detail lookups among `reqs`, in order. */
  function LookupRecords(api: Api, reqs: seq<Request>): seq<VideoRecord> {
    if reqs == [] then [] else LookupRecords(api, reqs[..|reqs| - 1]) + Answered(api, reqs[|reqs| - 1])
  }

  lemma LookupRecordsSnoc(api: Api, reqs: seq<Request>, req: Request)
    ensures LookupRecords(api, reqs + [req]) == LookupRecords(api, reqs) + Answered(api, req)
  {
    assert (reqs + [req])[..|reqs|] == reqs;
  }

  /** Every detail lookup among `reqs` asks for a non-empty batch, and for no id
      that `init` holds or that an earlier lookup among `reqs` returned. */
  ghost predicate LegacyGated(api: Api, init: set<Json>, reqs: seq<Request>) {
    forall k :: 0 <= k < |reqs| && reqs[k].VideosList? ==>
      reqs[k].ids != [] && forall v :: v in reqs[k].ids ==> JString(v) !in init + RecordIds(LookupRecords(api, reqs[..k]))
  }

  lemma LegacyGatedSnoc(api: Api, init: set<Json>, reqs: seq<Request>, req: Request)
    requires LegacyGated(api, init, reqs)
    requires req.VideosList? ==>
      req.ids != [] && forall v :: v in req.ids ==> JString(v) !in init + RecordIds(LookupRecords(api, reqs))
    ensures LegacyGated(api, init, reqs + [req])
  {
    var all := reqs + [req];
    assert all[..|reqs|] == reqs;
    forall k | 0 <= k < |reqs|
      ensures all[k] == reqs[k] && all[..k] == reqs[..k]
    {
    }
  }

  lemma {:induction false} RecordIdsConcat(a: seq<VideoRecord>, b: seq<VideoRecord>)
    ensures RecordIds(a + b) == RecordIds(a) + RecordIds(b)
  {
    if a != [] {
      assert a + b == [a[0]] + (a[1..] + b);
      assert a == [a[0]] + a[1..];
      RecordIdsCons(a[0], a[1..] + b);
      RecordIdsCons(a[0], a[1..]);
      RecordIdsConcat(a[1..], b);
    } else {
      assert a + b == b;
    }
  }

  // ---------------------------------------------------------------------------
  // The bookkeeping of a legacy incremental run

  /** What a legacy incremental run that started with the ids `init` and the
      requests `base` has done by the time it reaches `p`: it only extended the
      log, it gated every lookup, and while no error occurred its records are
      exactly what its lookups answered and its known ids are `init` and theirs. */
  ghost predicate Accounted(api: Api, init: set<Json>, base: seq<Request>, p: Progress) {
    && |base| <= |p.log| && p.log[..|base|] == base
    && LegacyGated(api, init, p.log[|base|..])
    && (p.err.None? ==>
          && p.found == LookupRecords(api, p.log[|base|..])
          && p.known == init + RecordIds(p.found))
  }

  /** Appending a request that is not a lookup, or a lookup that is gated,
      keeps the account; nothing else changes. */
  lemma AccountedSnoc(api: Api, init: set<Json>, base: seq<Request>, p: Progress, req: Request)
    requires Accounted(api, init, base, p) && p.err.None?
    requires req.VideosList? ==> req.ids != [] && forall v :: v in req.ids ==> JString(v) !in p.known
    ensures (p.log + [req])[..|base|] == base
    ensures (p.log + [req])[|base|..] == p.log[|base|..] + [req]
    ensures LegacyGated(api, init, (p.log + [req])[|base|..])
    ensures LookupRecords(api, (p.log + [req])[|base|..]) == p.found + Answered(api, req)
  {
    var reqs := p.log[|base|..];
    assert (p.log + [req])[|base|..] == reqs + [req];
    LegacyGatedSnoc(api, init, reqs, req);
    LookupRecordsSnoc(api, reqs, req);
  }

  /** One legacy page, after its page request `req`, keeps the account. */
  lemma LegacyNewPageAccounted(api: Api, init: set<Json>, base: seq<Request>, page: PageResponse, p: Progress, req: Request)
    requires Accounted(api, init, base, p) && p.err.None? && req.PlaylistItemsList?
    ensures Accounted(api, init, base, LegacyNewPage(api, page, p.(log := p.log + [req])))
  {
    var p0 := p.(log := p.log + [req]);
    AccountedSnoc(api, init, base, p, req);
    assert Answered(api, req) == [];
    assert p.found + [] == p.found;
    assert Accounted(api, init, base, p0);
    if page.items.Some? {
      var wanted := LegacyFreshIds(page.items.value, p0.known);
      if wanted != [] {
        var look := VideosList(wanted);
        AccountedSnoc(api, init, base, p0, look);
        match api.videos(wanted)
        case None =>
        case Some(DetailResponse(None)) =>
        case Some(DetailResponse(Some(items))) =>
          match LegacyAbsorb(items, p0.known, p0.found)
          case Failure(_) =>
          case Success(absorbed) =>
            assert Answered(api, look) == LenientRecords(items);
            RecordIdsConcat(p0.found, LenientRecords(items));
      }
    }
  }

  lemma {:induction false} LegacyNewWalkAccounted(api: Api, init: set<Json>, base: seq<Request>, pid: string, j: nat, p: Progress)
    requires Accounted(api, init, base, p) && p.err.None?
    ensures Accounted(api, init, base, LegacyNewWalk(api, pid, j, p))
    decreases FeedLength(api, pid) - j
  {
    var req := PlaylistItemsList(pid, MaxResults, TokenAt(api, pid, j));
    match PageAt(api, pid, j)
    case None =>
      AccountedSnoc(api, init, base, p, req);
    case Some(page) =>
      LegacyNewPageAccounted(api, init, base, page, p, req);
      var p1 := LegacyNewPage(api, page, p.(log := p.log + [req]));
      if p1.err.None? && Truthy(page.nextPageToken) {
        LegacyNewWalkAccounted(api, init, base, pid, j + 1, p1);
      }
  }

  // ---------------------------------------------------------------------------
  // Every unknown video on a walked page is looked up

  /** An item among `items` has its id among the ids of their records. */
  lemma ItemIdRecorded(items: seq<RawItem>, item: RawItem)
    requires item in items
    ensures JString(ItemId(item)) in RecordIds(LenientRecords(items))
  {
    var k :| 0 <= k < |items| && items[k] == item;
    assert LenientRecords(items)[k].videoId == ItemId(item);
  }

  /** A legacy page served from a catalog leaves every catalog video it lists known. */
  lemma LegacyNewPageLearns(api: Api, catalog: map<string, RawItem>, page: PageResponse, p: Progress)
    requires ServesCatalog(api, catalog) && p.err.None?
    requires LegacyNewPage(api, page, p).err.None?
    ensures var r := LegacyNewPage(api, page, p); p.known <= r.known && Covers(catalog, page, r.known)
  {
    var wanted := LegacyFreshIds(page.items.value, p.known);
    if wanted != [] {
      var items := Pick(catalog, wanted);
      assert api.videos(wanted) == Some(DetailResponse(Some(items)));
      var k := LegacyNewPage(api, page, p).known;
      assert k == p.known + RecordIds(LenientRecords(items));
      forall v | v in page.items.GetOr([]) && v != "" && v in catalog
        ensures JString(v) in k
      {
        if JString(v) !in p.known {
          PickListsKnown(catalog, wanted, v);
          ItemIdRecorded(items, catalog[v]);
        }
      }
    }
  }

  /** One step of an error-free legacy walk: the page exists, it leaves no
      error, and the walk goes on from the next page exactly while its token
      is truthy. */
  lemma LegacyNewWalkStep(api: Api, pid: string, j: nat, p: Progress)
    requires LegacyNewWalk(api, pid, j, p).err.None?
    ensures PageAt(api, pid, j).Some?
    ensures var page := PageAt(api, pid, j).value;
      var p1 := LegacyNewPage(api, page, p.(log := p.log + [PlaylistItemsList(pid, MaxResults, TokenAt(api, pid, j))]));
      && p1.err.None?
      && (Truthy(page.nextPageToken) ==> LegacyNewWalk(api, pid, j, p) == LegacyNewWalk(api, pid, j + 1, p1))
      && (!Truthy(page.nextPageToken) ==> LegacyNewWalk(api, pid, j, p) == p1)
  {
  }

  lemma {:induction false} LegacyNewWalkLearns(api: Api, catalog: map<string, RawItem>, pid: string, j: nat, p: Progress)
    requires ServesCatalog(api, catalog) && p.err.None?
    requires LegacyNewWalk(api, pid, j, p).err.None?
    ensures var r := LegacyNewWalk(api, pid, j, p); p.known <= r.known && CoveredWalk(api, catalog, pid, j, r.known)
    decreases FeedLength(api, pid) - j
  {
    LegacyNewWalkStep(api, pid, j, p);
    var req := PlaylistItemsList(pid, MaxResults, TokenAt(api, pid, j));
    var page := PageAt(api, pid, j).value;
    var p1 := LegacyNewPage(api, page, p.(log := p.log + [req]));
    LegacyNewPageLearns(api, catalog, page, p.(log := p.log + [req]));
    if Truthy(page.nextPageToken) {
      LegacyNewWalkLearns(api, catalog, pid, j + 1, p1);
    }
  }

  /**
   * getNewInformation, lines 90-128, against a platform whose lookup answers
   * from a fixed catalog: when the run returns a list, every catalog video
   * listed on a page of the first playlist's walk is either among the loaded
   * ids or among the returned records.
   */
  lemma LegacyIncrementalRunComplete(api: Api, catalog: map<string, RawItem>, pids: seq<string>, cache: CacheState, log: seq<Request>)
    requires ServesCatalog(api, catalog)
    requires LegacyNewRun(api, pids, cache, log).result.Success?
    requires LegacyNewRun(api, pids, cache, log).result.value.Some?
    ensures var o := LegacyNewRun(api, pids, cache, log);
      && pids != [] && LegacyLoad(cache).Success?
      && CoveredWalk(api, catalog, pids[0], 0, LegacyLoad(cache).value.1 + RecordIds(o.result.value.value))
  {
    var init := LegacyLoad(cache).value.1;
    var p0 := Progress(log, init, [], None);
    assert log[..|log|] == log && log[|log|..] == [];
    assert RecordIds([]) == {};
    assert Accounted(api, init, log, p0);
    LegacyNewWalkAccounted(api, init, log, pids[0], 0, p0);
    LegacyNewWalkLearns(api, catalog, pids[0], 0, p0);
  }

  // ---------------------------------------------------------------------------
  // The pages of a legacy incremental run

  /** A legacy page sends at most one request, a detail lookup. */
  lemma LegacyNewPageLog(api: Api, page: PageResponse, p: Progress)
    ensures var p1 := LegacyNewPage(api, page, p);
      p1.log == p.log || (page.items.Some? && p1.log == p.log + [VideosList(LegacyFreshIds(page.items.value, p.known))])
  {
  }

  /** One legacy page: its page request, then at most one lookup. */
  lemma LegacyNewPagePaged(api: Api, page: PageResponse, p: Progress, req: Request)
    requires req.PlaylistItemsList?
    ensures var p1 := LegacyNewPage(api, page, p.(log := p.log + [req]));
      && |p.log| < |p1.log| && p1.log[..|p.log|] == p.log
      && PageRequests(p1.log[|p.log|..]) == [req]
  {
    var p0 := p.(log := p.log + [req]);
    var p1 := LegacyNewPage(api, page, p0);
    LegacyNewPageLog(api, page, p0);
    var mid := p1.log[|p.log|..];
    if p1.log == p0.log {
      assert mid == [req] && mid[1..] == [];
    } else {
      var look := VideosList(LegacyFreshIds(page.items.value, p0.known));
      assert mid == [req, look];
      assert mid[1..] == [look] && mid[1..][1..] == [];
      assert PageRequests(mid[1..]) == [];
    }
  }

  lemma {:induction false} LegacyNewWalkPaged(api: Api, pid: string, j: nat, p: Progress)
    requires p.err.None?
    ensures var r := LegacyNewWalk(api, pid, j, p);
      && |p.log| <= |r.log| && r.log[..|p.log|] == p.log
      && (r.err.None? ==>
            && WalkPages(api, pid, j).Some?
            && PageRequests(r.log[|p.log|..]) == WalkRequests(pid, TokenAt(api, pid, j), WalkPages(api, pid, j).value))
    decreases FeedLength(api, pid) - j
  {
    var req := PlaylistItemsList(pid, MaxResults, TokenAt(api, pid, j));
    match PageAt(api, pid, j)
    case None =>
    case Some(page) =>
      var p1 := LegacyNewPage(api, page, p.(log := p.log + [req]));
      LegacyNewPagePaged(api, page, p, req);
      if p1.err.None? && Truthy(page.nextPageToken) {
        LegacyNewWalkPaged(api, pid, j + 1, p1);
        var r := LegacyNewWalk(api, pid, j + 1, p1);
        assert LegacyNewWalk(api, pid, j, p) == r;
        SliceSplit(p.log, p1.log, r.log);
        if r.err.None? {
          PagedCons(api, pid, j, page, p.log, p1.log, r.log);
        }
      } else {
        assert LegacyNewWalk(api, pid, j, p) == p1;
        if p1.err.None? {
          PagedLast(api, pid, j, page, p.log, p1.log);
        }
      }
  }

  // ---------------------------------------------------------------------------
  // The legacy incremental run

  /**
   * getNewInformation, lines 72-143. Every detail lookup asks for a non-empty
   * batch of ids that neither the loaded cache nor an earlier lookup of the
   * run supplied; the cache is written exactly when the run returns a
   * non-empty list, and then holds the loaded list followed by those records,
   * otherwise it is left as it was; a returned list is exactly the records
   * built from every item the lookups answered, in order, and the pages
   * requested are the walk of the first playlist from its first page to the
   * first page whose continuation token is falsy.
   */
  lemma LegacyIncrementalRunContract(api: Api, pids: seq<string>, cache: CacheState, log: seq<Request>)
    ensures var o := LegacyNewRun(api, pids, cache, log);
      && |log| <= |o.log| && o.log[..|log|] == log
      && (LegacyLoad(cache).Success? ==> LegacyGated(api, LegacyLoad(cache).value.1, o.log[|log|..]))
      && (o.wrote <==> o.result.Success? && o.result.value.Some? && o.result.value.value != [])
      && (o.wrote ==>
            && LegacyLoad(cache).Success? && LegacyLoad(cache).value.0.JArray?
            && o.cache == Parsed(JArray(LegacyLoad(cache).value.0.elems + EncodeAll(o.result.value.value))))
      && (!o.wrote ==> o.cache == cache)
      && (o.result.Success? && o.result.value.Some? ==>
            && pids != []
            && o.result.value.value == LookupRecords(api, o.log[|log|..])
            && WalkPages(api, pids[0], 0).Some?
            && PageRequests(o.log[|log|..]) == WalkRequests(pids[0], None, WalkPages(api, pids[0], 0).value))
  {
    assert log[..|log|] == log && log[|log|..] == [];
    match LegacyLoad(cache)
    case Failure(_) =>
    case Success(loaded) =>
      if pids != [] {
        var p0 := Progress(log, loaded.1, [], None);
        assert RecordIds([]) == {};
        assert Accounted(api, loaded.1, log, p0);
        LegacyNewWalkAccounted(api, loaded.1, log, pids[0], 0, p0);
        LegacyNewWalkPaged(api, pids[0], 0, p0);
      } else {
        assert LegacyGated(api, loaded.1, []);
      }
  }
}
