/**
 * The cache file `data/cache/videos.json`: a JSON list of video records that
 * is read at the start of an incremental run and replaced as a whole at its end.
 */
module CacheStore {
  import opened Wrappers
  import opened Json
  import opened YouTubeApi
  import opened Records

  /** What reading the cache file can find: no file, bytes that do not decode as
      JSON (`JSONDecodeError`), or a decoded document. */
  datatype CacheState = Absent | Corrupt | Parsed(doc: Json)

  /** The file on disk. `writes` counts how often it has been replaced. */
  class CacheFile {
    var state: CacheState
    var writes: nat

    constructor (state: CacheState)
      ensures this.state == state && writes == 0
    {
      this.state := state;
      writes := 0;
    }

    /** `_save_cache`: the whole list is written to a temporary file that then
        replaces the cache file, so the file holds either the old or the new list. */
    method Save(all: seq<Json>)
      modifies this
      ensures state == Parsed(JArray(all)) && writes == old(writes) + 1
    {
      state := Parsed(JArray(all));
      writes := writes + 1;
    }

    /** The legacy engine's `json.dump` straight into `videos.json`. */
    method Overwrite(doc: Json)
      modifies this
      ensures state == Parsed(doc) && writes == old(writes) + 1
    {
      state := Parsed(doc);
      writes := writes + 1;
    }
  }

  /** `_load_cache`: the decoded list, or `[]` when the file is absent, does not
      decode, or holds something other than a list. */
  function CachedList(s: CacheState): (r: seq<Json>)
    ensures s.Parsed? && s.doc.JArray? ==> r == s.doc.elems
    ensures !(s.Parsed? && s.doc.JArray?) ==> r == []
  {
    match s
    case Parsed(JArray(elems)) => elems
    case _ => []
  }

  /** What `v.get("video_id", "")` yields for a cached entry that is a dict, or
      `None` for an entry the comprehension skips (`isinstance(v, dict)` fails). */
  function VideoIdKey(entry: Json): Option<Json> {
    match entry
    case JObject(fields) => Some(if "video_id" in fields then fields["video_id"] else JString(""))
    case _ => None
  }

  /** Every id key of the entries can go into a Python set. */
  predicate HashableKeys(saved: seq<Json>) {
    forall k :: 0 <= k < |saved| && VideoIdKey(saved[k]).Some? ==> Hashable(VideoIdKey(saved[k]).value)
  }

  /** `{v.get("video_id", "") for v in saved_videos if isinstance(v, dict)}`: the id
      keys of the dict entries, or a TypeError when one of them is unhashable. */
  function KnownIds(saved: seq<Json>): (r: Result<set<Json>, Error>)
    ensures r.Success? <==> HashableKeys(saved)
    ensures r.Success? ==> forall x :: x in r.value <==> exists k :: 0 <= k < |saved| && VideoIdKey(saved[k]) == Some(x)
    ensures r.Failure? ==> r.error == TypeError
  {
    if saved == [] then Success({})
    else
      match KnownIds(saved[1..])
      case Failure(e) => Failure(e)
      case Success(rest) =>
        match VideoIdKey(saved[0])
        case None => Success(rest)
        case Some(key) => if Hashable(key) then Success({key} + rest) else Failure(TypeError)
  }

  /** The ids of some records, as they appear among the known ids. */
  function RecordIds(rs: seq<VideoRecord>): (ids: set<Json>)
    ensures forall x :: x in ids <==> exists k :: 0 <= k < |rs| && x == JString(rs[k].videoId)
  {
    set k | 0 <= k < |rs| :: JString(rs[k].videoId)
  }

  lemma RecordIdsCons(r: VideoRecord, rs: seq<VideoRecord>)
    ensures RecordIds([r] + rs) == {JString(r.videoId)} + RecordIds(rs)
  {
    var ls := [r] + rs;
    forall x | x in RecordIds(ls)
      ensures x in {JString(r.videoId)} + RecordIds(rs)
    {
      var k :| 0 <= k < |ls| && x == JString(ls[k].videoId);
      if k > 0 {
        assert ls[k] == rs[k - 1];
      }
    }
    forall x | x in RecordIds(rs)
      ensures x in RecordIds(ls)
    {
      var k :| 0 <= k < |rs| && x == JString(rs[k].videoId);
      assert rs[k] == ls[k + 1];
    }
    assert JString(ls[0].videoId) in RecordIds(ls);
  }

  lemma KeyOfEncoded(r: VideoRecord)
    ensures VideoIdKey(Encode(r)) == Some(JString(r.videoId))
  {
  }

  lemma KeyOfAppended(saved: seq<Json>, rs: seq<VideoRecord>, k: nat)
    requires k < |saved| + |rs|
    ensures VideoIdKey((saved + EncodeAll(rs))[k]) ==
      if k < |saved| then VideoIdKey(saved[k]) else Some(JString(rs[k - |saved|].videoId))
  {
    if k >= |saved| {
      KeyOfEncoded(rs[k - |saved|]);
    }
  }

  /** Appending records to the cache adds exactly their ids to the known ids. */
  lemma KnownIdsAppend(saved: seq<Json>, rs: seq<VideoRecord>)
    requires KnownIds(saved).Success?
    ensures KnownIds(saved + EncodeAll(rs)) == Success(KnownIds(saved).value + RecordIds(rs))
  {
    var all := saved + EncodeAll(rs);
    assert |all| == |saved| + |rs|;
    forall k | 0 <= k < |all| && VideoIdKey(all[k]).Some?
      ensures Hashable(VideoIdKey(all[k]).value)
    {
      KeyOfAppended(saved, rs, k);
    }
    var known := KnownIds(all).value;
    var expected := KnownIds(saved).value + RecordIds(rs);
    forall x | x in expected
      ensures x in known
    {
      if x in RecordIds(rs) {
        var k :| 0 <= k < |rs| && x == JString(rs[k].videoId);
        KeyOfAppended(saved, rs, |saved| + k);
      } else {
        var k :| 0 <= k < |saved| && VideoIdKey(saved[k]) == Some(x);
        KeyOfAppended(saved, rs, k);
      }
    }
    forall x | x in known
      ensures x in expected
    {
      var k :| 0 <= k < |all| && VideoIdKey(all[k]) == Some(x);
      KeyOfAppended(saved, rs, k);
      if k >= |saved| {
        assert x == JString(rs[k - |saved|].videoId);
      }
    }
    assert known == expected;
  }
}
