/**
 * `ChannelStorage` in YT/ChannelStorage.py: a registry from channel names to
 * channel ids, filled by searching the platform for each name.
 */
module ChannelStorage {
  import opened Wrappers
  import opened YouTubeApi

  /** The names of an insertion-ordered `{name: channel_id}` dict, in order. */
  function Names(channels: seq<(string, string)>): (ns: seq<string>)
    ensures |ns| == |channels| && forall k :: 0 <= k < |channels| ==> ns[k] == channels[k].0
  {
    seq(|channels|, k requires 0 <= k < |channels| => channels[k].0)
  }

  /** A dict has each key once. */
  predicate DistinctNames(channels: seq<(string, string)>) {
    forall i, j :: 0 <= i < j < |channels| ==> channels[i].0 != channels[j].0
  }

  /** The dict as a map from names to ids. */
  function AsMap(channels: seq<(string, string)>): (m: map<string, string>)
    ensures forall n :: n in m <==> n in Names(channels)
  {
    if channels == [] then map[]
    else AsMap(channels[..|channels| - 1])[channels[|channels| - 1].0 := channels[|channels| - 1].1]
  }

  /** `get_ChannelID`: the `id.channelId` of the first search result for `name`;
      no result at all is the "No Youtube Channel found" exception. */
  function ChannelLookup(api: Api, name: string): (r: Result<string, Error>)
    ensures r.Success? <==>
      && api.search(name).Some? && api.search(name).value.items.Some?
      && api.search(name).value.items.value != [] && api.search(name).value.items.value[0].Some?
    ensures r.Success? ==> r.value == api.search(name).value.items.value[0].value
    ensures r == Failure(NoChannelFound(name)) <==>
      api.search(name).Some? && api.search(name).value.items == Some([])
  {
    match api.search(name)
    case None => Failure(HttpError(SearchList(name, SearchMaxResults)))
    case Some(SearchResponse(None)) => Failure(KeyError("items"))
    case Some(SearchResponse(Some(items))) =>
      if items == [] then Failure(NoChannelFound(name))
      else if items[0].None? then Failure(KeyError("channelId"))
      else Success(items[0].value)
  }

  lemma AsMapAppend(channels: seq<(string, string)>, name: string, id: string)
    ensures AsMap(channels + [(name, id)]) == AsMap(channels)[name := id]
  {
    assert (channels + [(name, id)])[..|channels|] == channels;
  }

  /** Appending a name not yet present keeps the names distinct. */
  lemma DistinctAppend(channels: seq<(string, string)>, name: string, id: string)
    requires DistinctNames(channels) && name !in Names(channels)
    ensures DistinctNames(channels + [(name, id)])
  {
    var c := channels + [(name, id)];
    forall i, j | 0 <= i < j < |c|
      ensures c[i].0 != c[j].0
    {
      if j == |channels| {
        assert c[i].0 == Names(channels)[i];
      }
    }
  }

  /** In a dict with distinct names, the map holds each entry's own id. */
  lemma {:induction false} AsMapLookup(channels: seq<(string, string)>, k: nat)
    requires DistinctNames(channels) && k < |channels|
    ensures channels[k].0 in AsMap(channels) && AsMap(channels)[channels[k].0] == channels[k].1
    decreases |channels|
  {
    var last := |channels| - 1;
    var init := channels[..last];
    if k < last {
      assert DistinctNames(init) by {
        forall i, j | 0 <= i < j < |init|
          ensures init[i].0 != init[j].0
        {
          assert init[i] == channels[i] && init[j] == channels[j];
        }
      }
      AsMapLookup(init, k);
      assert init[k] == channels[k];
    }
  }

  class ChannelStorage {
    const youtube: YouTube
    var channels: seq<(string, string)>

    /** The dict's keys are distinct. */
    predicate Valid()
      reads this
    {
      DistinctNames(channels)
    }

    constructor (youtube: YouTube)
      ensures this.youtube == youtube && channels == [] && Valid()
    {
      this.youtube := youtube;
      channels := [];
    }

    /** `get_ChannelID`: one search request, answered by the platform. */
    method GetChannelId(name: string) returns (r: Result<string, Error>)
      modifies youtube
      ensures youtube.log == old(youtube.log) + [SearchList(name, SearchMaxResults)]
      ensures r == ChannelLookup(youtube.api, name)
    {
      var response := youtube.Search(name);
      if response.None? {
        return Failure(HttpError(SearchList(name, SearchMaxResults)));
      }
      if response.value.items.None? {
        return Failure(KeyError("items"));
      }
      var items := response.value.items.value;
      if items == [] {
        return Failure(NoChannelFound(name));
      }
      if items[0].None? {
        return Failure(KeyError("channelId"));
      }
      return Success(items[0].value);
    }

    /** `add_Channel_By_Name`: a known name changes nothing and sends nothing; a
        new name is looked up and, if found, inserted with its id after the
        others; a failed lookup leaves the registry as it was. */
    method AddChannelByName(name: string) returns (r: Result<(), Error>)
      requires Valid()
      modifies this, youtube
      ensures Valid()
      ensures name in Names(old(channels)) ==>
        r.Success? && channels == old(channels) && youtube.log == old(youtube.log)
      ensures name !in Names(old(channels)) ==>
        && youtube.log == old(youtube.log) + [SearchList(name, SearchMaxResults)]
        && var found := ChannelLookup(youtube.api, name);
        && (found.Success? ==> r.Success? && channels == old(channels) + [(name, found.value)])
        && (found.Failure? ==> r == Failure(found.error) && channels == old(channels))
    {
      if name in Names(channels) {
        return Success(());
      }
      var id := GetChannelId(name);
      if id.Failure? {
        return Failure(id.error);
      }
      DistinctAppend(channels, name, id.value);
      channels := channels + [(name, id.value)];
      return Success(());
    }

    /** `get_Channels`: the registry, each name once. */
    method GetChannels() returns (r: seq<(string, string)>)
      requires Valid()
      ensures r == channels && DistinctNames(r)
    {
      return channels;
    }
  }

  /**
   * Adding a new name to the registry inserts exactly that key with the id
   * found, and every other entry keeps its id.
   */
  lemma AddInsertsOneKey(channels: seq<(string, string)>, name: string, id: string)
    requires DistinctNames(channels) && name !in Names(channels)
    ensures AsMap(channels + [(name, id)]) == AsMap(channels)[name := id]
    ensures forall n :: n in AsMap(channels) ==> n != name && AsMap(channels + [(name, id)])[n] == AsMap(channels)[n]
  {
    AsMapAppend(channels, name, id);
  }
}
