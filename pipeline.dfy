/**
 * The selection helpers of scripts/pipeline.py: `parse_published_at`,
 * `filter_videos` (date threshold, newest-first stable sort, truncation) and
 * the checks `main` makes of `--max-videos` and `--since-date` before any
 * request is sent.
 */
module Pipeline {
  import opened Wrappers
  import opened Records
  import opened SinceDate
  import opened Sequences

  // ---------------------------------------------------------------------------
  // Timestamps

  /** A `datetime` as an instant in microseconds since 0001-01-01T00:00: naive
      (no offset; compared as wall time) or aware (compared in UTC). Ordering a
      naive against an aware one raises a TypeError. */
  datatype Stamp = Naive(at: int) | Aware(at: int)

  /** `datetime.min.replace(tzinfo=timezone.utc)`. */
  const MinStamp: Stamp := Aware(0)

  /** `value.replace("Z", "+00:00")`. */
  function ReplaceZ(s: string): (r: string)
    ensures 'Z' !in r
    ensures 'Z' !in s ==> r == s
    ensures |s| == 1 ==> r == if s[0] == 'Z' then "+00:00" else s
  {
    if s == [] then []
    else (if s[0] == 'Z' then "+00:00" else [s[0]]) + ReplaceZ(s[1..])
  }

  /** The replacement works character by character: every `Z` becomes
      `+00:00` wherever it stands, and nothing else changes. */
  lemma {:induction false} ReplaceZAppend(a: string, b: string)
    ensures ReplaceZ(a + b) == ReplaceZ(a) + ReplaceZ(b)
  {
    if a == [] {
      assert a + b == b;
    } else {
      assert (a + b)[0] == a[0] && (a + b)[1..] == a[1..] + b;
      ReplaceZAppend(a[1..], b);
    }
  }

  /** `parse_published_at`, over `iso`, which stands for `datetime.fromisoformat`
      (`None` for its ValueError): an empty value is not parsed at all. */
  function ParsePublishedAt(iso: string -> Option<Stamp>, value: string): (r: Option<Stamp>)
    ensures value == "" ==> r == None
    ensures value != "" ==> r == iso(ReplaceZ(value))
  {
    if value == "" then None else iso(ReplaceZ(value))
  }

  /** The sort and filter key of a record: its parsed publish time, or `MinStamp`. */
  function Key(iso: string -> Option<Stamp>, v: VideoRecord): Stamp {
    ParsePublishedAt(iso, v.publishedAt).GetOr(MinStamp)
  }

  function KeyAt(iso: string -> Option<Stamp>, v: VideoRecord): int {
    Key(iso, v).at
  }

  // ---------------------------------------------------------------------------
  // The date threshold

  /** `[v for v in videos if key(v) >= since]`, once no comparison raises. */
  function AtOrAfter(iso: string -> Option<Stamp>, videos: seq<VideoRecord>, since: int): (r: seq<VideoRecord>)
    ensures forall v :: v in r <==> v in videos && KeyAt(iso, v) >= since
    ensures multiset(r) <= multiset(videos)
    ensures r == Filter(v => KeyAt(iso, v) >= since, videos)
  {
    if videos == [] then []
    else
      var rest := AtOrAfter(iso, videos[1..], since);
      assert videos == [videos[0]] + videos[1..];
      (if KeyAt(iso, videos[0]) >= since then [videos[0]] else []) + rest
  }

  /** Comparing every key with an aware threshold succeeds. */
  predicate AllAware(iso: string -> Option<Stamp>, videos: seq<VideoRecord>) {
    forall k :: 0 <= k < |videos| ==> Key(iso, videos[k]).Aware?
  }

  /** Sorting would have to order a naive key against an aware one. */
  predicate Mixed(iso: string -> Option<Stamp>, videos: seq<VideoRecord>) {
    exists i, j :: 0 <= i < |videos| && 0 <= j < |videos| && Key(iso, videos[i]).Naive? && Key(iso, videos[j]).Aware?
  }

  // ---------------------------------------------------------------------------
  // Newest first

  /** Newest first. */
  predicate SortedDesc(iso: string -> Option<Stamp>, s: seq<VideoRecord>) {
    forall i, j :: 0 <= i < j < |s| ==> KeyAt(iso, s[i]) >= KeyAt(iso, s[j])
  }

  /** `x` put behind every element of the newest-first list `s` whose key is at
      least its own. */
  function Insert(iso: string -> Option<Stamp>, x: VideoRecord, s: seq<VideoRecord>): (r: seq<VideoRecord>)
    ensures multiset(r) == multiset(s) + multiset{x}
  {
    if s == [] then [x]
    else if KeyAt(iso, s[0]) >= KeyAt(iso, x) then
      assert s == [s[0]] + s[1..];
      [s[0]] + Insert(iso, x, s[1..])
    else [x] + s
  }

  /** `sorted(videos, key=…, reverse=True)`: a stable sort, newest first. */
  function SortDesc(iso: string -> Option<Stamp>, s: seq<VideoRecord>): (r: seq<VideoRecord>)
    ensures multiset(r) == multiset(s)
  {
    if s == [] then []
    else
      assert s == s[..|s| - 1] + [s[|s| - 1]];
      Insert(iso, s[|s| - 1], SortDesc(iso, s[..|s| - 1]))
  }

  lemma SortedTail(iso: string -> Option<Stamp>, s: seq<VideoRecord>)
    requires s != [] && SortedDesc(iso, s)
    ensures SortedDesc(iso, s[1..]) && forall y :: y in s[1..] ==> KeyAt(iso, s[0]) >= KeyAt(iso, y)
  {
    assert forall m :: 0 <= m < |s[1..]| ==> s[1..][m] == s[m + 1];
  }

  lemma SortedCons(iso: string -> Option<Stamp>, h: VideoRecord, t: seq<VideoRecord>)
    requires SortedDesc(iso, t) && forall y :: y in t ==> KeyAt(iso, h) >= KeyAt(iso, y)
    ensures SortedDesc(iso, [h] + t)
  {
    var r := [h] + t;
    forall i, j | 0 <= i < j < |r|
      ensures KeyAt(iso, r[i]) >= KeyAt(iso, r[j])
    {
      assert r[j] == t[j - 1];
      if i > 0 {
        assert r[i] == t[i - 1];
      }
    }
  }

  lemma {:induction false} InsertMembers(iso: string -> Option<Stamp>, x: VideoRecord, s: seq<VideoRecord>)
    ensures forall y :: y in Insert(iso, x, s) ==> y == x || y in s
  {
    if s != [] && KeyAt(iso, s[0]) >= KeyAt(iso, x) {
      InsertMembers(iso, x, s[1..]);
    }
  }

  lemma {:induction false} InsertSorted(iso: string -> Option<Stamp>, x: VideoRecord, s: seq<VideoRecord>)
    requires SortedDesc(iso, s)
    ensures SortedDesc(iso, Insert(iso, x, s))
  {
    if s == [] {
    } else if KeyAt(iso, s[0]) >= KeyAt(iso, x) {
      SortedTail(iso, s);
      InsertSorted(iso, x, s[1..]);
      InsertMembers(iso, x, s[1..]);
      SortedCons(iso, s[0], Insert(iso, x, s[1..]));
    } else {
      forall y | y in s ensures KeyAt(iso, x) >= KeyAt(iso, y) {
        var m :| 0 <= m < |s| && s[m] == y;
        assert KeyAt(iso, s[0]) >= KeyAt(iso, s[m]);
      }
      SortedCons(iso, x, s);
    }
  }

  lemma {:induction false} SortSorted(iso: string -> Option<Stamp>, s: seq<VideoRecord>)
    ensures SortedDesc(iso, SortDesc(iso, s))
  {
    if s != [] {
      SortSorted(iso, s[..|s| - 1]);
      InsertSorted(iso, s[|s| - 1], SortDesc(iso, s[..|s| - 1]));
    }
  }

  /** The records of `s` whose key is `k`, in order. */
  function WithKey(iso: string -> Option<Stamp>, s: seq<VideoRecord>, k: int): seq<VideoRecord> {
    Filter(v => KeyAt(iso, v) == k, s)
  }

  lemma WithKeyAppend(iso: string -> Option<Stamp>, a: seq<VideoRecord>, b: seq<VideoRecord>, k: int)
    ensures WithKey(iso, a + b, k) == WithKey(iso, a, k) + WithKey(iso, b, k)
  {
    FilterAppend(v => KeyAt(iso, v) == k, a, b);
  }

  lemma WithKeyNone(iso: string -> Option<Stamp>, s: seq<VideoRecord>, k: int)
    requires forall m :: 0 <= m < |s| ==> KeyAt(iso, s[m]) < k
    ensures WithKey(iso, s, k) == []
  {
    FilterNone(v => KeyAt(iso, v) == k, s);
  }

  lemma {:induction false} InsertStable(iso: string -> Option<Stamp>, x: VideoRecord, s: seq<VideoRecord>, k: int)
    requires SortedDesc(iso, s)
    ensures WithKey(iso, Insert(iso, x, s), k) == WithKey(iso, s, k) + (if KeyAt(iso, x) == k then [x] else [])
  {
    if s == [] {
      WithKeyOne(iso, x, k);
    } else if KeyAt(iso, s[0]) >= KeyAt(iso, x) {
      SortedTail(iso, s);
      InsertStable(iso, x, s[1..], k);
      StableBehind(iso, x, s, k);
    } else {
      StableInFront(iso, x, s, k);
    }
  }

  /** `x` goes behind the head of `s`. */
  lemma StableBehind(iso: string -> Option<Stamp>, x: VideoRecord, s: seq<VideoRecord>, k: int)
    requires s != [] && KeyAt(iso, s[0]) >= KeyAt(iso, x)
    requires WithKey(iso, Insert(iso, x, s[1..]), k) == WithKey(iso, s[1..], k) + (if KeyAt(iso, x) == k then [x] else [])
    ensures WithKey(iso, Insert(iso, x, s), k) == WithKey(iso, s, k) + (if KeyAt(iso, x) == k then [x] else [])
  {
    var t := Insert(iso, x, s[1..]);
    var tail := if KeyAt(iso, x) == k then [x] else [];
    assert Insert(iso, x, s) == [s[0]] + t;
    calc {
      WithKey(iso, [s[0]] + t, k);
      { WithKeyAppend(iso, [s[0]], t, k); }
      WithKey(iso, [s[0]], k) + (WithKey(iso, s[1..], k) + tail);
      { Assoc(WithKey(iso, [s[0]], k), WithKey(iso, s[1..], k), tail); }
      (WithKey(iso, [s[0]], k) + WithKey(iso, s[1..], k)) + tail;
      { WithKeyAppend(iso, [s[0]], s[1..], k); HeadTail(s); }
      WithKey(iso, s, k) + tail;
    }
  }

  /** `x` goes in front of the newest-first `s`, whose keys are all below its own. */
  lemma StableInFront(iso: string -> Option<Stamp>, x: VideoRecord, s: seq<VideoRecord>, k: int)
    requires SortedDesc(iso, s) && s != [] && KeyAt(iso, s[0]) < KeyAt(iso, x)
    ensures WithKey(iso, Insert(iso, x, s), k) == WithKey(iso, s, k) + (if KeyAt(iso, x) == k then [x] else [])
  {
    assert Insert(iso, x, s) == [x] + s;
    WithKeyAppend(iso, [x], s, k);
    WithKeyOne(iso, x, k);
    if KeyAt(iso, x) == k {
      forall m | 0 <= m < |s| ensures KeyAt(iso, s[m]) < k {
        assert KeyAt(iso, s[0]) >= KeyAt(iso, s[m]);
      }
      WithKeyNone(iso, s, k);
    }
  }

  lemma WithKeyOne(iso: string -> Option<Stamp>, x: VideoRecord, k: int)
    ensures WithKey(iso, [x], k) == if KeyAt(iso, x) == k then [x] else []
  {
    FilterOne(v => KeyAt(iso, v) == k, x);
  }

  /** Records with equal keys keep their input order. */
  lemma {:induction false} SortStable(iso: string -> Option<Stamp>, s: seq<VideoRecord>, k: int)
    ensures WithKey(iso, SortDesc(iso, s), k) == WithKey(iso, s, k)
  {
    if s != [] {
      var init := s[..|s| - 1];
      var x := s[|s| - 1];
      var tail := if KeyAt(iso, x) == k then [x] else [];
      SortSorted(iso, init);
      calc {
        WithKey(iso, SortDesc(iso, s), k);
        WithKey(iso, Insert(iso, x, SortDesc(iso, init)), k);
        { InsertStable(iso, x, SortDesc(iso, init), k); }
        WithKey(iso, SortDesc(iso, init), k) + tail;
        { SortStable(iso, init, k); }
        WithKey(iso, init, k) + tail;
        { WithKeyOne(iso, x, k); }
        WithKey(iso, init, k) + WithKey(iso, [x], k);
        { WithKeyAppend(iso, init, [x], k); InitLast(s); }
        WithKey(iso, s, k);
      }
    }
  }

  // ---------------------------------------------------------------------------
  // Truncation and the whole selection

  /** The Python slice `s[:n]`; a negative `n` counts from the end. */
  function Head(s: seq<VideoRecord>, n: int): (r: seq<VideoRecord>)
    ensures n >= 0 ==> |r| == (if n < |s| then n else |s|)
    ensures n < 0 ==> |r| == (if |s| + n > 0 then |s| + n else 0)
    ensures r == s[..|r|]
  {
    if n >= 0 then (if n < |s| then s[..n] else s)
    else if |s| + n > 0 then s[..|s| + n]
    else []
  }

  /** Why the selection can fail: a naive and an aware datetime were ordered. */
  datatype FilterError = NaiveAwareComparison

  /** The records the threshold keeps, in input order. */
  function Kept(iso: string -> Option<Stamp>, videos: seq<VideoRecord>, since: Option<int>): seq<VideoRecord> {
    if since.Some? then AtOrAfter(iso, videos, since.value) else videos
  }

  /** `filter_videos(videos, since_date, max_videos)`, with `since` the instant of
      an aware threshold. */
  function FilterVideos(iso: string -> Option<Stamp>, videos: seq<VideoRecord>, since: Option<int>, maxVideos: Option<int>): Result<seq<VideoRecord>, FilterError> {
    if since.Some? && !AllAware(iso, videos) then Failure(NaiveAwareComparison)
    else
      var kept := Kept(iso, videos, since);
      if Mixed(iso, kept) then Failure(NaiveAwareComparison)
      else
        var sorted := SortDesc(iso, kept);
        Success(if maxVideos.Some? then Head(sorted, maxVideos.value) else sorted)
  }

  lemma AtOrAfterAware(iso: string -> Option<Stamp>, videos: seq<VideoRecord>, since: int)
    requires AllAware(iso, videos)
    ensures !Mixed(iso, AtOrAfter(iso, videos, since))
  {
    var r := AtOrAfter(iso, videos, since);
    forall i | 0 <= i < |r|
      ensures Key(iso, r[i]).Aware?
    {
      assert r[i] in videos;
    }
  }

  /**
   * `filter_videos` raises a TypeError exactly when a threshold is given and
   * some key is naive, or no threshold is given and the keys mix naive and
   * aware datetimes.
   */
  lemma FilterVideosFails(iso: string -> Option<Stamp>, videos: seq<VideoRecord>, since: Option<int>, maxVideos: Option<int>)
    ensures FilterVideos(iso, videos, since, maxVideos).Failure? <==>
      if since.Some? then !AllAware(iso, videos) else Mixed(iso, videos)
  {
    if since.Some? && AllAware(iso, videos) {
      AtOrAfterAware(iso, videos, since.value);
    }
  }

  /**
   * What `filter_videos` returns: records of the input (each at most as often
   * as there), newest first, each at or after the threshold; a prefix of the
   * sorted kept records, of length `min(n, |kept|)` for `max_videos = n >= 0`,
   * and all of them when there is no `max_videos`.
   */
  lemma FilterVideosSelects(iso: string -> Option<Stamp>, videos: seq<VideoRecord>, since: Option<int>, maxVideos: Option<int>)
    requires FilterVideos(iso, videos, since, maxVideos).Success?
    ensures var r := FilterVideos(iso, videos, since, maxVideos).value; var kept := Kept(iso, videos, since);
      && multiset(r) <= multiset(videos)
      && SortedDesc(iso, r)
      && (since.Some? ==> forall v :: v in r ==> KeyAt(iso, v) >= since.value)
      && r == SortDesc(iso, kept)[..|r|]
      && (maxVideos.None? ==> multiset(r) == multiset(kept))
      && (maxVideos.Some? && maxVideos.value >= 0 ==> |r| == (if maxVideos.value < |kept| then maxVideos.value else |kept|))
  {
    var kept := Kept(iso, videos, since);
    var sorted := SortDesc(iso, kept);
    var r := FilterVideos(iso, videos, since, maxVideos).value;
    SortSorted(iso, kept);
    assert r == sorted[..|r|];
    assert SortedDesc(iso, r) by {
      forall i, j | 0 <= i < j < |r| ensures KeyAt(iso, r[i]) >= KeyAt(iso, r[j]) {
        assert r[i] == sorted[i] && r[j] == sorted[j];
      }
    }
    assert sorted == r + sorted[|r|..];
    assert multiset(r) <= multiset(sorted);
    forall v | v in r ensures v in kept {
      assert v in multiset(r);
    }
  }

  /**
   * Without `max_videos` nothing the threshold keeps is lost; without a
   * threshold either, the result is a permutation of the input.
   */
  lemma FilterVideosKeepsAll(iso: string -> Option<Stamp>, videos: seq<VideoRecord>, since: Option<int>)
    requires FilterVideos(iso, videos, since, None).Success?
    ensures var r := FilterVideos(iso, videos, since, None).value;
      && (forall v :: v in videos && (since.None? || KeyAt(iso, v) >= since.value) ==> v in r)
      && (since.None? ==> multiset(r) == multiset(videos))
  {
    var kept := Kept(iso, videos, since);
    var r := FilterVideos(iso, videos, since, None).value;
    assert multiset(r) == multiset(kept);
    forall v | v in videos && (since.None? || KeyAt(iso, v) >= since.value) ensures v in r {
      assert v in kept;
      assert v in multiset(kept);
    }
  }

  /** Records with equal keys appear in the result in their input order. */
  lemma FilterVideosStable(iso: string -> Option<Stamp>, videos: seq<VideoRecord>, since: Option<int>, k: int)
    requires FilterVideos(iso, videos, since, None).Success?
    ensures WithKey(iso, FilterVideos(iso, videos, since, None).value, k) == WithKey(iso, Kept(iso, videos, since), k)
  {
    SortStable(iso, Kept(iso, videos, since), k);
  }

  /**
   * With a threshold after `datetime.min`, a record whose publish date is empty
   * or does not parse is dropped, since its key is `datetime.min`.
   */
  lemma UnparseableDropped(iso: string -> Option<Stamp>, videos: seq<VideoRecord>, since: int, maxVideos: Option<int>)
    requires since > MinStamp.at && FilterVideos(iso, videos, Some(since), maxVideos).Success?
    ensures forall v :: v in FilterVideos(iso, videos, Some(since), maxVideos).value ==>
      v.publishedAt != "" && ParsePublishedAt(iso, v.publishedAt).Some?
  {
    FilterVideosSelects(iso, videos, Some(since), maxVideos);
  }

  // ---------------------------------------------------------------------------
  // Argument checks in main

  /** The ValueErrors `main` raises about its arguments. */
  datatype ArgError = MaxVideosNotPositive | BadSinceDate

  /** `main`'s checks, in order: `--max-videos` must be positive if given; then a
      non-empty `--since-date` must parse. The result is the threshold instant. */
  function ValidateArgs(maxVideos: Option<int>, sinceDate: Option<string>): (r: Result<Option<int>, ArgError>)
    ensures r == Failure(MaxVideosNotPositive) <==> maxVideos.Some? && maxVideos.value <= 0
    ensures r == Failure(BadSinceDate) <==>
      !(maxVideos.Some? && maxVideos.value <= 0) && sinceDate.Some? && sinceDate.value != "" && ParseSinceDate(sinceDate.value).None?
    ensures r.Success? ==> (r.value.Some? <==> sinceDate.Some? && sinceDate.value != "")
    ensures r.Success? && r.value.Some? ==> ParseSinceDate(sinceDate.value) == r.value
  {
    if maxVideos.Some? && maxVideos.value <= 0 then Failure(MaxVideosNotPositive)
    else if sinceDate.Some? && sinceDate.value != "" then
      match ParseSinceDate(sinceDate.value)
      case None => Failure(BadSinceDate)
      case Some(t) => Success(Some(t))
    else Success(None)
  }

  /**
   * Arguments `main` accepts never reach the negative-slice case: the selection
   * holds `min(max_videos, |kept|)` records and at least one when anything was kept.
   */
  lemma AcceptedArgsTruncate(iso: string -> Option<Stamp>, videos: seq<VideoRecord>, maxVideos: Option<int>, sinceDate: Option<string>)
    requires ValidateArgs(maxVideos, sinceDate).Success? && maxVideos.Some?
    requires FilterVideos(iso, videos, ValidateArgs(maxVideos, sinceDate).value, maxVideos).Success?
    ensures var since := ValidateArgs(maxVideos, sinceDate).value;
      var r := FilterVideos(iso, videos, since, maxVideos).value;
      var kept := Kept(iso, videos, since);
      |r| == (if maxVideos.value < |kept| then maxVideos.value else |kept|) && (kept != [] ==> r != [])
  {
    FilterVideosSelects(iso, videos, ValidateArgs(maxVideos, sinceDate).value, maxVideos);
  }
}
