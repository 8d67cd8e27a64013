/**
 * Video records: how the engine builds one from a detail item, and how it
 * is stored in the cache file (a JSON object with five keys).
 */
module Records {
  import opened Wrappers
  import opened Json
  import opened YouTubeApi

  /** One fetched video, with every field present. */
  datatype VideoRecord = VideoRecord(
    videoId: string,
    title: string,
    publishedAt: string,
    description: string,
    tags: seq<string>)

  /** The `{}` the current engine substitutes for a missing snippet. */
  const NoSnippet: Snippet := Snippet(None, None, None, None)

  /** The id the current engine reads from a detail item: `video.get("id", "")`. */
  function ItemId(item: RawItem): string {
    item.id.GetOr("")
  }

  /** The record the current engine builds from a detail item, every missing field
      defaulting to `""` (the tags to `[]`). */
  function LenientRecord(item: RawItem): (r: VideoRecord)
    ensures r.videoId == ItemId(item)
    ensures item.snippet.None? ==> r.title == "" && r.publishedAt == "" && r.description == "" && r.tags == []
    ensures item.snippet.Some? ==>
      var sn := item.snippet.value;
      && (sn.title.Some? ==> r.title == sn.title.value) && (sn.title.None? ==> r.title == "")
      && (sn.publishedAt.Some? ==> r.publishedAt == sn.publishedAt.value) && (sn.publishedAt.None? ==> r.publishedAt == "")
      && (sn.description.Some? ==> r.description == sn.description.value) && (sn.description.None? ==> r.description == "")
      && (sn.tags.Some? ==> r.tags == sn.tags.value) && (sn.tags.None? ==> r.tags == [])
  {
    var sn := item.snippet.GetOr(NoSnippet);
    VideoRecord(ItemId(item), sn.title.GetOr(""), sn.publishedAt.GetOr(""), sn.description.GetOr(""), sn.tags.GetOr([]))
  }

  /** The records of a list of detail items, one per item, in order. */
  function LenientRecords(items: seq<RawItem>): (rs: seq<VideoRecord>)
    ensures |rs| == |items|
    ensures forall k :: 0 <= k < |items| ==> rs[k] == LenientRecord(items[k])
  {
    seq(|items|, k requires 0 <= k < |items| => LenientRecord(items[k]))
  }

  lemma LenientRecordsCons(items: seq<RawItem>)
    requires items != []
    ensures LenientRecords(items) == [LenientRecord(items[0])] + LenientRecords(items[1..])
  {
    assert forall k :: 1 <= k < |items| ==> items[k] == items[1..][k - 1];
  }

  /** The key the legacy engine fails on first: it reads `snippet`, then `id`,
      `title` and `publishedAt`, with no default for any of them. */
  function MissingKey(item: RawItem): Option<string> {
    if item.snippet.None? then Some("snippet")
    else if item.id.None? then Some("id")
    else if item.snippet.value.title.None? then Some("title")
    else if item.snippet.value.publishedAt.None? then Some("publishedAt")
    else None
  }

  /** The record the legacy engine builds from a detail item: a KeyError unless the
      snippet, the id, the title and the publish date are all present. */
  function StrictRecord(item: RawItem): (r: Result<VideoRecord, Error>)
    ensures r.Success? <==>
      item.snippet.Some? && item.id.Some? && item.snippet.value.title.Some? && item.snippet.value.publishedAt.Some?
    ensures r.Success? ==> r.value == LenientRecord(item)
    ensures r.Failure? ==> MissingKey(item).Some? && r.error == KeyError(MissingKey(item).value)
  {
    match MissingKey(item)
    case Some(key) => Failure(KeyError(key))
    case None =>
      var sn := item.snippet.value;
      Success(VideoRecord(item.id.value, sn.title.value, sn.publishedAt.value,
                          sn.description.GetOr(""), sn.tags.GetOr([])))
  }

  /** The JSON list of a record's tags. */
  function EncodeTags(tags: seq<string>): (j: seq<Json>)
    ensures |j| == |tags| && forall k :: 0 <= k < |tags| ==> j[k] == JString(tags[k])
  {
    seq(|tags|, k requires 0 <= k < |tags| => JString(tags[k]))
  }

  /** The five key names every cached record carries. */
  const RecordKeys: set<string> := {"video_id", "title", "published_at", "description", "tags"}

  /** A record as it is written to the cache file. */
  function Encode(r: VideoRecord): (j: Json)
    ensures j.JObject? && j.fields.Keys == RecordKeys
    ensures j.fields["video_id"] == JString(r.videoId)
  {
    JObject(map[
      "video_id" := JString(r.videoId),
      "title" := JString(r.title),
      "published_at" := JString(r.publishedAt),
      "description" := JString(r.description),
      "tags" := JArray(EncodeTags(r.tags))])
  }

  function EncodeAll(rs: seq<VideoRecord>): (js: seq<Json>)
    ensures |js| == |rs| && forall k :: 0 <= k < |rs| ==> js[k] == Encode(rs[k])
  {
    seq(|rs|, k requires 0 <= k < |rs| => Encode(rs[k]))
  }

  lemma EncodeAllAppend(a: seq<VideoRecord>, b: seq<VideoRecord>)
    ensures EncodeAll(a + b) == EncodeAll(a) + EncodeAll(b)
  {
  }

  function DecodeTags(js: seq<Json>): Option<seq<string>> {
    if js == [] then Some([])
    else if !js[0].JString? then None
    else match DecodeTags(js[1..])
      case None => None
      case Some(rest) => Some([js[0].s] + rest)
  }

  function StringField(fields: map<string, Json>, key: string): Option<string> {
    if key in fields && fields[key].JString? then Some(fields[key].s) else None
  }

  /** Reads a cached record back: a JSON object whose five fields have the right types. */
  function Decode(j: Json): Option<VideoRecord> {
    if !j.JObject? then None
    else
      var f := j.fields;
      var id := StringField(f, "video_id");
      var title := StringField(f, "title");
      var published := StringField(f, "published_at");
      var description := StringField(f, "description");
      var tags := if "tags" in f && f["tags"].JArray? then DecodeTags(f["tags"].elems) else None;
      if id.Some? && title.Some? && published.Some? && description.Some? && tags.Some?
      then Some(VideoRecord(id.value, title.value, published.value, description.value, tags.value))
      else None
  }

  lemma {:induction false} DecodeEncodeTags(tags: seq<string>)
    ensures DecodeTags(EncodeTags(tags)) == Some(tags)
  {
    if tags != [] {
      DecodeEncodeTags(tags[1..]);
      assert EncodeTags(tags)[1..] == EncodeTags(tags[1..]);
      assert EncodeTags(tags)[0] == JString(tags[0]);
      assert [tags[0]] + tags[1..] == tags;
    }
  }

  /** Writing a record to the cache loses nothing: reading it back gives the same record. */
  lemma DecodeEncode(r: VideoRecord)
    ensures Decode(Encode(r)) == Some(r)
  {
    DecodeEncodeTags(r.tags);
  }
}
