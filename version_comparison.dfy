/**
 * The legacy engine (YT/Videogetter.py) against the current one
 * (src/ai_video_analyzer/yt/Videogetter.py): where their results agree, and
 * the inputs on which they differ.
 */
module VersionComparison {
  import opened Wrappers
  import opened Json
  import opened YouTubeApi
  import opened Records
  import opened CacheStore
  import opened Videogetter
  import opened LegacyVideogetter
  import opened LegacyProperties

  // ---------------------------------------------------------------------------
  // The full run

  /** A platform on which the legacy engine's strict reads cannot fail: every page
      carries `items`, every detail response carries `items` whose entries all
      have a snippet, an id, a title and a publish date, and a lookup of no ids
      answers with no items. */
  ghost predicate Complete(api: Api) {
    && (forall pid, k :: pid in api.playlists && 0 <= k < |api.playlists[pid]| ==> api.playlists[pid][k].items.Some?)
    && (forall ids :: api.videos(ids).Some? ==> api.videos(ids).value.items.Some?)
    && (forall ids, k :: api.videos(ids).Some? && api.videos(ids).value.items.Some? && 0 <= k < |api.videos(ids).value.items.value| ==>
          StrictRecord(api.videos(ids).value.items.value[k]).Success?)
    && api.videos([]) == Some(DetailResponse(Some([])))
  }

  /** One page handled by both engines, whatever requests they sent before it. */
  lemma PagesAgree(api: Api, page: PageResponse, c: Carry, f: Fetch)
    requires Complete(api) && page.items.Some? && c.err.None? && f.err.None? && c.videos == f.videos
    ensures var c1 := LegacyInfoPage(api, page, c); var f1 := InfoPage(api, page, f);
      && c1.err.None? == f1.err.None?
      && (f1.err.None? ==> c1.videos == f1.videos && c1.token == page.nextPageToken)
  {
    var ids := page.items.value;
    if ids == [] {
      assert f.videos + LenientRecords([]) == f.videos;
    }
  }

  lemma {:induction false} WalksAgree(api: Api, pid: string, j: nat, c: Carry, f: Fetch)
    requires Complete(api) && c.err.None? && f.err.None? && c.videos == f.videos
    ensures var c1 := LegacyInfoWalk(api, pid, j, c); var f1 := InfoWalk(api, pid, j, f);
      c1.err.None? == f1.err.None? && (f1.err.None? ==> c1.videos == f1.videos)
    decreases FeedLength(api, pid) - j
  {
    match PageAt(api, pid, j)
    case None =>
    case Some(page) =>
      var c1 := LegacyInfoPage(api, page, c.(log := c.log + [PlaylistItemsList(pid, MaxResults, c.token)]));
      var f1 := InfoPage(api, page, f.(log := f.log + [PlaylistItemsList(pid, MaxResults, TokenAt(api, pid, j))]));
      assert page == api.playlists[pid][j];
      PagesAgree(api, page, c.(log := c.log + [PlaylistItemsList(pid, MaxResults, c.token)]),
                 f.(log := f.log + [PlaylistItemsList(pid, MaxResults, TokenAt(api, pid, j))]));
      if f1.err.None? && Truthy(page.nextPageToken) {
        WalksAgree(api, pid, j + 1, c1, f1);
      }
  }

  lemma {:induction false} PlaylistsAgree(api: Api, pids: seq<string>, i: nat, c: Carry, f: Fetch)
    requires Complete(api) && c.err.None? && f.err.None? && c.videos == f.videos
    ensures var c1 := LegacyInfoPlaylists(api, pids, i, c); var f1 := InfoPlaylists(api, pids, i, f);
      c1.err.None? == f1.err.None? && (f1.err.None? ==> c1.videos == f1.videos)
    decreases |pids| - i
  {
    if i < |pids| {
      WalksAgree(api, pids[i], 0, c, f);
      var f1 := InfoWalk(api, pids[i], 0, f);
      if f1.err.None? {
        PlaylistsAgree(api, pids, i + 1, LegacyInfoWalk(api, pids[i], 0, c), f1);
      }
    }
  }

  /**
   * On a platform where no strict read can fail, the two `getInformation`s
   * fail on the same inputs and otherwise return the same records; only the
   * requests differ (the legacy engine also looks up pages without ids, and
   * sends the last falsy token of one playlist with the first page of the next).
   */
  lemma FullRunsAgree(api: Api, pids: seq<string>, log: seq<Request>)
    requires Complete(api)
    ensures LegacyInfoRun(api, pids, log).err.None? == InfoRun(api, pids, log).err.None?
    ensures InfoRun(api, pids, log).err.None? ==> LegacyInfoRun(api, pids, log).videos == InfoRun(api, pids, log).videos
  {
    PlaylistsAgree(api, pids, 0, Carry(log, [], None, None), Fetch(log, [], None));
  }

  // ---------------------------------------------------------------------------
  // The incremental run: which playlists are walked

  /** The page requests among `reqs` are all for playlist `pid`. */
  predicate OnlyPlaylist(reqs: seq<Request>, pid: string) {
    forall k :: 0 <= k < |reqs| && reqs[k].PlaylistItemsList? ==> reqs[k].playlistId == pid
  }

  lemma OnlyPlaylistAppend(reqs: seq<Request>, pid: string, req: Request)
    requires OnlyPlaylist(reqs, pid) && (req.PlaylistItemsList? ==> req.playlistId == pid)
    ensures OnlyPlaylist(reqs + [req], pid)
  {
    assert forall k :: 0 <= k < |reqs| ==> (reqs + [req])[k] == reqs[k];
  }

  lemma {:induction false} LegacyWalkStays(api: Api, pid: string, j: nat, p: Progress, base: seq<Request>)
    requires |base| <= |p.log| && p.log[..|base|] == base && OnlyPlaylist(p.log[|base|..], pid)
    ensures var r := LegacyNewWalk(api, pid, j, p);
      |base| <= |r.log| && r.log[..|base|] == base && OnlyPlaylist(r.log[|base|..], pid)
    decreases FeedLength(api, pid) - j
  {
    var req := PlaylistItemsList(pid, MaxResults, TokenAt(api, pid, j));
    var p0 := p.(log := p.log + [req]);
    StaysAppend(p.log, base, pid, req);
    match PageAt(api, pid, j)
    case None =>
    case Some(page) =>
      var p1 := LegacyNewPage(api, page, p0);
      LegacyNewPageLog(api, page, p0);
      if p1.log != p0.log {
        StaysAppend(p0.log, base, pid, VideosList(LegacyFreshIds(page.items.value, p0.known)));
      }
      assert |base| <= |p1.log| && p1.log[..|base|] == base && OnlyPlaylist(p1.log[|base|..], pid);
      if p1.err.None? && Truthy(page.nextPageToken) {
        LegacyWalkStays(api, pid, j + 1, p1, base);
        assert LegacyNewWalk(api, pid, j, p) == LegacyNewWalk(api, pid, j + 1, p1);
      } else {
        assert LegacyNewWalk(api, pid, j, p) == p1;
      }
  }

  lemma StaysAppend(log: seq<Request>, base: seq<Request>, pid: string, req: Request)
    requires |base| <= |log| && log[..|base|] == base && OnlyPlaylist(log[|base|..], pid)
    requires req.PlaylistItemsList? ==> req.playlistId == pid
    ensures (log + [req])[..|base|] == base && OnlyPlaylist((log + [req])[|base|..], pid)
  {
    assert (log + [req])[|base|..] == log[|base|..] + [req];
    OnlyPlaylistAppend(log[|base|..], pid, req);
  }

  /**
   * The legacy `getNewInformation` (as written): every page it requests belongs
   * to the first playlist, and with no playlist it sends nothing, writes
   * nothing and returns `None`.
   */
  lemma LegacyNewRunFirstPlaylistOnly(api: Api, pids: seq<string>, cache: CacheState, log: seq<Request>)
    ensures var o := LegacyNewRun(api, pids, cache, log);
      && |log| <= |o.log| && o.log[..|log|] == log
      && (pids != [] ==> OnlyPlaylist(o.log[|log|..], pids[0]))
      && (pids == [] && LegacyLoad(cache).Success? ==> o == Outcome(log, cache, false, Success(None)))
  {
    assert log[..|log|] == log && log[|log|..] == [];
    if pids != [] && LegacyLoad(cache).Success? {
      LegacyWalkStays(api, pids[0], 0, Progress(log, LegacyLoad(cache).value.1, [], None), log);
    }
  }

  lemma {:induction false} NewWalkGrows(api: Api, pid: string, j: nat, p: Progress)
    ensures var r := NewWalk(api, pid, j, p); |p.log| <= |r.log| && r.log[..|p.log|] == p.log
    decreases FeedLength(api, pid) - j
  {
    var req := PlaylistItemsList(pid, MaxResults, TokenAt(api, pid, j));
    match PageAt(api, pid, j)
    case None =>
    case Some(page) =>
      var p0 := p.(log := p.log + [req]);
      var p1 := NewPage(api, page, p0);
      assert |p.log| <= |p1.log| && p1.log[..|p.log|] == p.log;
      if p1.err.None? && Truthy(page.nextPageToken) {
        NewWalkGrows(api, pid, j + 1, p1);
        var r := NewWalk(api, pid, j + 1, p1);
        assert r.log[..|p.log|] == p1.log[..|p.log|];
      }
  }

  /** A current walk starts with a request for the first page of its playlist. */
  lemma NewWalkStarts(api: Api, pid: string, p: Progress)
    ensures var r := NewWalk(api, pid, 0, p);
      |p.log| < |r.log| && r.log[..|p.log|] == p.log && r.log[|p.log|] == PlaylistItemsList(pid, MaxResults, None)
  {
    var req := PlaylistItemsList(pid, MaxResults, None);
    match PageAt(api, pid, 0)
    case None =>
    case Some(page) =>
      var p0 := p.(log := p.log + [req]);
      var p1 := NewPage(api, page, p0);
      assert |p0.log| <= |p1.log| && p1.log[..|p0.log|] == p0.log;
      if p1.err.None? && Truthy(page.nextPageToken) {
        NewWalkGrows(api, pid, 1, p1);
        var r := NewWalk(api, pid, 1, p1);
        assert r.log[..|p0.log|] == p0.log;
        assert r.log[|p.log|] == p0.log[|p.log|];
      }
  }

  /** The requests for the first pages of playlists `pids[i..]`, in order, all lie
      in what a successful current walk adds. */
  lemma {:induction false} NewPlaylistsVisit(api: Api, pids: seq<string>, i: nat, p: Progress)
    requires p.err.None?
    ensures var r := NewPlaylists(api, pids, i, p);
      && |p.log| <= |r.log| && r.log[..|p.log|] == p.log
      && (r.err.None? ==> forall m :: i <= m < |pids| ==> PlaylistItemsList(pids[m], MaxResults, None) in r.log[|p.log|..])
    decreases |pids| - i
  {
    if i < |pids| {
      NewWalkStarts(api, pids[i], p);
      var p1 := NewWalk(api, pids[i], 0, p);
      if p1.err.None? {
        NewPlaylistsVisit(api, pids, i + 1, p1);
        var r := NewPlaylists(api, pids, i + 1, p1);
        assert r.log[..|p1.log|] == p1.log;
        assert r.log[|p.log|] == p1.log[|p.log|];
        assert r.log[|p.log|..][0] == r.log[|p.log|];
        if r.err.None? {
          forall m | i < m < |pids|
            ensures PlaylistItemsList(pids[m], MaxResults, None) in r.log[|p.log|..]
          {
            assert i + 1 <= m < |pids|;
            InLaterSuffix(r.log, |p.log|, |p1.log|, PlaylistItemsList(pids[m], MaxResults, None));
          }
        }
      }
    }
  }

  lemma InLaterSuffix(log: seq<Request>, lo: nat, hi: nat, x: Request)
    requires lo <= hi <= |log| && x in log[hi..]
    ensures x in log[lo..]
  {
    var k :| 0 <= k < |log[hi..]| && log[hi..][k] == x;
    assert log[lo..][k + hi - lo] == x;
  }

  /**
   * The current `getNewInformation` (as intended): a successful run walks every
   * uploads playlist from its first page.
   */
  lemma NewRunVisitsEveryPlaylist(api: Api, pids: seq<string>, cache: CacheState, log: seq<Request>)
    ensures var o := NewRun(api, pids, cache, log);
      && |log| <= |o.log| && o.log[..|log|] == log
      && (o.result.Success? ==> forall m :: 0 <= m < |pids| ==> PlaylistItemsList(pids[m], MaxResults, None) in o.log[|log|..])
  {
    assert log[..|log|] == log;
    var saved := CachedList(cache);
    if KnownIds(saved).Success? {
      NewPlaylistsVisit(api, pids, 0, Progress(log, KnownIds(saved).value, [], None));
    }
  }

  // ---------------------------------------------------------------------------
  // Inputs on which the two engines differ

  /** A complete detail item for `id`. */
  function Item(id: string): RawItem {
    RawItem(Some(id), Some(Snippet(Some("title"), Some("2024-01-01T00:00:00Z"), None, None)))
  }

  /** A detail lookup that answers with one complete item per requested id. */
  function Echo(ids: seq<string>): Option<DetailResponse> {
    Some(DetailResponse(Some(seq(|ids|, k requires 0 <= k < |ids| => Item(ids[k])))))
  }

  function NoSearch(query: string): Option<SearchResponse> {
    None
  }

  /** Two uploads playlists, "A" with video "a" and "B" with video "b", one page each. */
  function TwoPlaylists(): Api {
    Api(map[], map["A" := [PageResponse(Some(["a"]), None)], "B" := [PageResponse(Some(["b"]), None)]], Echo, NoSearch)
  }

  /** The detail items `Echo` returns for one id. */
  lemma EchoOne(id: string)
    ensures Echo([id]) == Some(DetailResponse(Some([Item(id)])))
  {
    assert seq(1, k requires 0 <= k < 1 => Item([id][k])) == [Item(id)];
  }

  /** Both item loops on a single complete item. */
  lemma AbsorbOne(id: string, known: set<Json>, found: seq<VideoRecord>)
    ensures LegacyAbsorb([Item(id)], known, found) == Success((known + {JString(id)}, found + [LenientRecord(Item(id))]))
    ensures JString(id) !in known && id != "" ==>
      Absorb([Item(id)], known, found) == (known + {JString(id)}, found + [LenientRecord(Item(id))])
    ensures JString(id) in known ==> Absorb([Item(id)], known, found) == (known, found)
  {
    assert [Item(id)][1..] == [];
    assert StrictRecord(Item(id)) == Success(LenientRecord(Item(id)));
    assert ItemId(Item(id)) == id == LenientRecord(Item(id)).videoId;
  }

  lemma LegacyWalkOfA()
    ensures LegacyNewWalk(TwoPlaylists(), "A", 0, Progress([], {}, [], None)) ==
      Progress([PlaylistItemsList("A", MaxResults, None), VideosList(["a"])], {JString("a")}, [LenientRecord(Item("a"))], None)
  {
    var api := TwoPlaylists();
    assert PageAt(api, "A", 0) == Some(PageResponse(Some(["a"]), None));
    assert LegacyFreshIds(["a"], {}) == ["a"];
    EchoOne("a");
    AbsorbOne("a", {}, []);
    assert {} + {JString("a")} == {JString("a")} && [] + [LenientRecord(Item("a"))] == [LenientRecord(Item("a"))];
    assert LegacyAbsorb([Item("a")], {}, []) == Success(({JString("a")}, [LenientRecord(Item("a"))]));
  }

  lemma NewWalkOfA()
    ensures NewWalk(TwoPlaylists(), "A", 0, Progress([], {}, [], None)) ==
      Progress([PlaylistItemsList("A", MaxResults, None), VideosList(["a"])], {JString("a")}, [LenientRecord(Item("a"))], None)
  {
    var api := TwoPlaylists();
    assert PageAt(api, "A", 0) == Some(PageResponse(Some(["a"]), None));
    assert FreshIds(["a"], {}) == ["a"];
    EchoOne("a");
    AbsorbOne("a", {}, []);
    assert {} + {JString("a")} == {JString("a")} && [] + [LenientRecord(Item("a"))] == [LenientRecord(Item("a"))];
    assert Absorb([Item("a")], {}, []) == ({JString("a")}, [LenientRecord(Item("a"))]);
  }

  lemma NewWalkOfB(p: Progress)
    requires p == Progress([PlaylistItemsList("A", MaxResults, None), VideosList(["a"])], {JString("a")}, [LenientRecord(Item("a"))], None)
    ensures NewWalk(TwoPlaylists(), "B", 0, p).err.None?
    ensures NewWalk(TwoPlaylists(), "B", 0, p).found == [LenientRecord(Item("a")), LenientRecord(Item("b"))]
  {
    var api := TwoPlaylists();
    assert PageAt(api, "B", 0) == Some(PageResponse(Some(["b"]), None));
    assert FreshIds(["b"], {JString("a")}) == ["b"];
    EchoOne("b");
    AbsorbOne("b", {JString("a")}, [LenientRecord(Item("a"))]);
    assert {JString("a")} + {JString("b")} == {JString("a"), JString("b")};
    assert JString("b") !in {JString("a")};
    assert [LenientRecord(Item("a"))] + [LenientRecord(Item("b"))] == [LenientRecord(Item("a")), LenientRecord(Item("b"))];
    assert Absorb([Item("b")], {JString("a")}, [LenientRecord(Item("a"))]) ==
      ({JString("a"), JString("b")}, [LenientRecord(Item("a")), LenientRecord(Item("b"))]);
  }

  /**
   * With no cache file and the playlists "A" and "B", the legacy run never
   * asks for playlist "B" and saves only the video of "A"; the current run
   * saves both.
   */
  lemma LegacySkipsSecondPlaylist()
    ensures var o := LegacyNewRun(TwoPlaylists(), ["A", "B"], Absent, []);
      && o.result == Success(Some([LenientRecord(Item("a"))]))
      && PlaylistItemsList("B", MaxResults, None) !in o.log
    ensures NewRun(TwoPlaylists(), ["A", "B"], Absent, []).result == Success([LenientRecord(Item("a")), LenientRecord(Item("b"))])
  {
    var api := TwoPlaylists();
    LegacyWalkOfA();
    NewWalkOfA();
    var p1 := NewWalk(api, "A", 0, Progress([], {}, [], None));
    NewWalkOfB(p1);
    assert CachedList(Absent) == [] && KnownIds([]) == Success({});
    assert ["A", "B"][0] == "A" && ["A", "B"][1] == "B";
  }

  /** One playlist whose page lists video "a" twice. */
  function Repeated(): Api {
    Api(map[], map["A" := [PageResponse(Some(["a", "a"]), None)]], Echo, NoSearch)
  }

  /**
   * When a page lists a video twice, the legacy run records it twice (it does
   * not check the returned items against the known ids); the current run
   * records it once.
   */
  lemma LegacyRecordsDuplicates()
    ensures LegacyNewRun(Repeated(), ["A"], Absent, []).result == Success(Some([LenientRecord(Item("a")), LenientRecord(Item("a"))]))
    ensures NewRun(Repeated(), ["A"], Absent, []).result == Success([LenientRecord(Item("a"))])
  {
    LegacyRunOfRepeated();
    NewRunOfRepeated();
  }

  lemma EchoRepeated()
    ensures Echo(["a", "a"]) == Some(DetailResponse(Some([Item("a"), Item("a")])))
    ensures PageAt(Repeated(), "A", 0) == Some(PageResponse(Some(["a", "a"]), None))
  {
    assert seq(2, k requires 0 <= k < 2 => Item(["a", "a"][k])) == [Item("a"), Item("a")];
  }

  lemma LegacyRunOfRepeated()
    ensures LegacyNewRun(Repeated(), ["A"], Absent, []).result == Success(Some([LenientRecord(Item("a")), LenientRecord(Item("a"))]))
  {
    var items := [Item("a"), Item("a")];
    EchoRepeated();
    assert items[1..] == [Item("a")] && items[1..][1..] == [];
    assert LegacyFreshIds(["a", "a"], {}) == ["a", "a"];
    AbsorbOne("a", {JString("a")}, [LenientRecord(Item("a"))]);
    assert {JString("a")} + {JString("a")} == {JString("a")};
    assert StrictRecord(Item("a")) == Success(LenientRecord(Item("a"))) && ItemId(Item("a")) == "a";
    assert items[0] == Item("a") && items != [];
    assert {} + {JString("a")} == {JString("a")} && [] + [LenientRecord(Item("a"))] == [LenientRecord(Item("a"))];
    assert LegacyAbsorb(items, {}, []) == LegacyAbsorb([Item("a")], {JString("a")}, [LenientRecord(Item("a"))]);
    assert [LenientRecord(Item("a"))] + [LenientRecord(Item("a"))] == [LenientRecord(Item("a")), LenientRecord(Item("a"))];
    assert LegacyAbsorb(items, {}, []) == Success(({JString("a")}, [LenientRecord(Item("a")), LenientRecord(Item("a"))]));
  }

  lemma NewRunOfRepeated()
    ensures NewRun(Repeated(), ["A"], Absent, []).result == Success([LenientRecord(Item("a"))])
  {
    var items := [Item("a"), Item("a")];
    EchoRepeated();
    assert items[1..] == [Item("a")] && items[1..][1..] == [];
    assert ItemId(Item("a")) == "a";
    assert items[0] == Item("a") && items != [];
    assert {} + {JString("a")} == {JString("a")} && [] + [LenientRecord(Item("a"))] == [LenientRecord(Item("a"))];
    AbsorbOne("a", {JString("a")}, [LenientRecord(Item("a"))]);
    assert FreshIds(["a", "a"], {}) == ["a", "a"];
    assert Absorb(items[1..], {JString("a")}, [LenientRecord(Item("a"))]) == ({JString("a")}, [LenientRecord(Item("a"))]);
    assert Absorb(items, {}, []) == Absorb([Item("a")], {JString("a")}, [LenientRecord(Item("a"))]);
    assert Absorb(items, {}, []) == ({JString("a")}, [LenientRecord(Item("a"))]);
    assert CachedList(Absent) == [] && KnownIds([]) == Success({});
  }

  /** A detail lookup whose item for "a" has no title. */
  function Untitled(ids: seq<string>): Option<DetailResponse> {
    Some(DetailResponse(Some([RawItem(Some("a"), Some(Snippet(None, Some("2024-01-01T00:00:00Z"), None, None)))])))
  }

  /**
   * A detail item without a title makes the legacy `getInformation` raise
   * `KeyError('title')`; the current one records the video with an empty title.
   */
  lemma LegacyFailsOnMissingTitle()
    ensures var api := Api(map[], map["A" := [PageResponse(Some(["a"]), None)]], Untitled, NoSearch);
      && LegacyInfoRun(api, ["A"], []).err == Some(KeyError("title"))
      && InfoRun(api, ["A"], []).err.None?
      && InfoRun(api, ["A"], []).videos == [VideoRecord("a", "", "2024-01-01T00:00:00Z", "", [])]
  {
    var api := Api(map[], map["A" := [PageResponse(Some(["a"]), None)]], Untitled, NoSearch);
    var item := RawItem(Some("a"), Some(Snippet(None, Some("2024-01-01T00:00:00Z"), None, None)));
    assert Untitled(["a"]).value.items.value == [item];
    assert StrictRecord(item) == Failure(KeyError("title"));
    assert LenientRecords([item]) == [VideoRecord("a", "", "2024-01-01T00:00:00Z", "", [])];
  }

  /** One playlist "A" whose only page lists no videos. */
  function EmptyPlaylist(): Api {
    Api(map[], map["A" := [PageResponse(Some([]), None)]], Echo, NoSearch)
  }

  /**
   * On a page without ids, the legacy `getInformation` still sends a detail
   * lookup for the empty id list; the current one sends only the page request.
   */
  lemma LegacyLooksUpEmptyPage()
    ensures LegacyInfoRun(EmptyPlaylist(), ["A"], []).log == [PlaylistItemsList("A", MaxResults, None), VideosList([])]
    ensures InfoRun(EmptyPlaylist(), ["A"], []).log == [PlaylistItemsList("A", MaxResults, None)]
  {
    var api := EmptyPlaylist();
    assert PageAt(api, "A", 0) == Some(PageResponse(Some([]), None));
    assert |Echo([]).value.items.value| == 0;
    assert Collect([], []) == Success([]);
  }
}
