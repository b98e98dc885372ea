/** Discovery of Hue bridges through the vendor's directory ("nUPnP"): the
    directory lists the bridges on the local network, and a hub is created
    for each. */
module HueDiscovery {
  import opened Common
  import opened HueHubApi
  import opened HueHub
  import opened ConfigStore

  /** An entry of the directory's answer. */
  datatype NupnpEntry = NupnpEntry(id: string, internalipaddress: string)

  /** The directory queried when the configuration names none. */
  const DefaultNupnpUrl: string := "http://www.meethue.com/api/nupnp"

  /** The configuration key of the directory's URL. */
  const NupnpUrlKey: string := "nupnp_url"

  /** `parse_nupnp_response`, given the JSON decoder's reading of the answer:
      an answer that does not decode is read as an empty list, not an error. */
  function ParseNupnpResponse(content: string, decode: string -> Result<seq<NupnpEntry>, string>): (r: seq<NupnpEntry>)
    ensures decode(content).Err? ==> r == []
    ensures decode(content).Ok? ==> r == decode(content).value
  {
    match decode(content)
    case Ok(entries) => entries
    case Err(_) => []
  }

  /** `nupnp_query`, given the answer to `GET server_url`: a failed request is
      read as an empty list too. */
  function NupnpQuery(response: Response, decode: string -> Result<seq<NupnpEntry>, string>): (r: seq<NupnpEntry>)
    ensures response.Err? ==> r == []
    ensures response.Ok? && decode(response.value).Err? ==> r == []
    ensures response.Ok? && decode(response.value).Ok? ==> r == decode(response.value).value
  {
    match response
    case Ok(content) => ParseNupnpResponse(content, decode)
    case Err(_) => []
  }

  /** The position of the last entry with id `id`, or -1 when there is none. */
  function LastWith(entries: seq<NupnpEntry>, id: string): (i: int)
    ensures -1 <= i < |entries|
    ensures 0 <= i ==> entries[i].id == id && forall k :: i < k < |entries| ==> entries[k].id != id
    ensures i == -1 ==> forall k :: 0 <= k < |entries| ==> entries[k].id != id
  {
    if |entries| == 0 then -1
    else if entries[|entries| - 1].id == id then |entries| - 1
    else LastWith(entries[..|entries| - 1], id)
  }

  /** The set of ids the entries carry. */
  function Ids(entries: seq<NupnpEntry>): set<string> {
    set e | e in entries :: e.id
  }

  /** Taking one more entry adds its id, which it is now the last to carry;
      the last positions of the other ids do not move. */
  lemma ExtendPrefix(entries: seq<NupnpEntry>, i: nat)
    requires i < |entries|
    ensures Ids(entries[..i + 1]) == Ids(entries[..i]) + {entries[i].id}
    ensures LastWith(entries[..i + 1], entries[i].id) == i
    ensures forall id :: id != entries[i].id ==> LastWith(entries[..i + 1], id) == LastWith(entries[..i], id)
  {
    assert entries[..i + 1] == entries[..i] + [entries[i]];
    assert entries[..i + 1][..i] == entries[..i];
  }

  /** The hub map after registering `started[i]` under `entries[i].id`, in
      order, on top of `base`. */
  function Placed(base: map<string, Hub>, entries: seq<NupnpEntry>, started: seq<Hub>): map<string, Hub>
    requires |started| == |entries|
  {
    if |entries| == 0 then base
    else
      var n := |entries| - 1;
      Placed(base, entries[..n], started[..n])[entries[n].id := started[n]]
  }

  /** The ids registered are the old ones and those of the entries. */
  lemma {:induction false} PlacedKeys(base: map<string, Hub>, entries: seq<NupnpEntry>, started: seq<Hub>)
    requires |started| == |entries|
    ensures forall id :: id in Placed(base, entries, started) <==> id in base || id in Ids(entries)
  {
    if |entries| > 0 {
      var n := |entries| - 1;
      PlacedKeys(base, entries[..n], started[..n]);
      ExtendPrefix(entries, n);
      assert entries[..n + 1] == entries;
    }
  }

  /** Each entry's id maps to the hub of its last entry; an old hub whose id
      no entry carries stays. */
  lemma {:induction false} PlacedValues(base: map<string, Hub>, entries: seq<NupnpEntry>, started: seq<Hub>)
    requires |started| == |entries|
    ensures forall id :: id in Ids(entries) ==>
      0 <= LastWith(entries, id) && id in Placed(base, entries, started)
      && Placed(base, entries, started)[id] == started[LastWith(entries, id)]
    ensures forall id :: id in base && id !in Ids(entries) ==>
      id in Placed(base, entries, started) && Placed(base, entries, started)[id] == base[id]
  {
    if |entries| > 0 {
      var n := |entries| - 1;
      PlacedValues(base, entries[..n], started[..n]);
      ExtendPrefix(entries, n);
      assert entries[..n + 1] == entries;
    }
  }

  /** Each hub's token is stored under its key. */
  predicate TokensStored(entries: map<(string, string), string>, started: seq<Hub>) {
    forall j :: 0 <= j < |started| ==>
      (ConfigNamespace, TokenKey(started[j].id)) in entries
      && entries[(ConfigNamespace, TokenKey(started[j].id))] == started[j].api.token
  }

  /** Each hub was made from the entry at its position. */
  predicate BuiltFrom(started: seq<Hub>, entries: seq<NupnpEntry>) {
    |started| == |entries| &&
    forall i :: 0 <= i < |started| ==> started[i].id == entries[i].id && started[i].ip == entries[i].internalipaddress
  }

  lemma TokensKept(before: map<(string, string), string>, after: map<(string, string), string>, started: seq<Hub>, hub: Hub)
    requires TokensStored(before, started) && Keeps(before, after)
    requires (ConfigNamespace, TokenKey(hub.id)) in after && after[(ConfigNamespace, TokenKey(hub.id))] == hub.api.token
    ensures TokensStored(after, started + [hub])
  {
  }

  class Discovery {
    var hubs: map<string, Hub>

    /** `Discovery::new`: no hubs yet. */
    constructor ()
      ensures hubs == map[]
    {
      hubs := map[];
    }

    /** `start`'s thread up to its final sleep: the directory URL comes from
      the configuration, `net(url)` is the directory's answer and `uuid(i)`
      the random token offered to the `i`-th hub created. */
    method Start(config: Config, net: string -> Response, decode: string -> Result<seq<NupnpEntry>, string>,
                 uuid: nat -> string) returns (url: string, started: seq<Hub>)
      modifies this, config
      ensures url == Lookup(old(config.entries), ConfigNamespace, NupnpUrlKey, DefaultNupnpUrl)
      ensures (ConfigNamespace, NupnpUrlKey) in config.entries && config.entries[(ConfigNamespace, NupnpUrlKey)] == url
      ensures Keeps(old(config.entries), config.entries)
      ensures TokensStored(config.entries, started)
      ensures var entries := NupnpQuery(net(url), decode);
        && |started| == |entries|
        && (forall i :: 0 <= i < |started| ==>
              fresh(started[i]) && started[i].id == entries[i].id && started[i].ip == entries[i].internalipaddress)
        && (forall id :: id in hubs <==> id in old(hubs) || id in Ids(entries))
        && (forall id :: id in Ids(entries) ==> 0 <= LastWith(entries, id) && hubs[id] == started[LastWith(entries, id)])
        && (forall id :: id in old(hubs) && id !in Ids(entries) ==> hubs[id] == old(hubs)[id])
    {
      url := config.GetOrSetDefault(ConfigNamespace, NupnpUrlKey, DefaultNupnpUrl);
      ghost var withUrl := config.entries;
      StoreDefaultKeeps(old(config.entries), ConfigNamespace, NupnpUrlKey, DefaultNupnpUrl);
      var entries := NupnpQuery(net(url), decode);
      started := Register(config, entries, uuid);
      KeepsTransitive(old(config.entries), withUrl, config.entries);
      PlacedKeys(old(hubs), entries, started);
      PlacedValues(old(hubs), entries, started);
    }

    /** The loop of `start`: a hub is created for each entry in order and
      registered under its id, a later entry with the same id replacing the
      earlier hub, which is not stopped. Creating a hub stores its token when
      none was stored, and never changes a stored value. */
    method Register(config: Config, entries: seq<NupnpEntry>, uuid: nat -> string) returns (started: seq<Hub>)
      modifies this, config
      ensures |started| == |entries|
      ensures forall i :: 0 <= i < |started| ==> fresh(started[i])
      ensures BuiltFrom(started, entries)
      ensures hubs == Placed(old(hubs), entries, started)
      ensures Keeps(old(config.entries), config.entries)
      ensures TokensStored(config.entries, started)
    {
      started := [];
      var i := 0;
      while i < |entries|
        invariant i <= |entries| && |started| == i
        invariant forall j :: 0 <= j < i ==> fresh(started[j])
        invariant BuiltFrom(started, entries[..i])
        invariant hubs == Placed(old(hubs), entries[..i], started)
        invariant Keeps(old(config.entries), config.entries)
        invariant TokensStored(config.entries, started)
      {
        ghost var before := config.entries;
        var hub := NewHub(config, entries[i], uuid(i));
        KeepsTransitive(old(config.entries), before, config.entries);
        TokensKept(before, config.entries, started, hub);
        hubs := hubs[entries[i].id := hub];
        assert entries[..i + 1][..i] == entries[..i] && (started + [hub])[..i] == started;
        started := started + [hub];
        i := i + 1;
      }
      assert entries[..i] == entries;
    }

    /** `Hub::new` for one directory entry: its token is stored, and no
      value stored before changes. */
    method NewHub(config: Config, entry: NupnpEntry, uuid: string) returns (hub: Hub)
      modifies config
      ensures fresh(hub) && hub.id == entry.id && hub.ip == entry.internalipaddress
      ensures Keeps(old(config.entries), config.entries)
      ensures (ConfigNamespace, TokenKey(hub.id)) in config.entries
      ensures config.entries[(ConfigNamespace, TokenKey(hub.id))] == hub.api.token
    {
      ghost var before := config.entries;
      hub := new Hub(entry.id, entry.internalipaddress, config, uuid);
      StoreDefaultKeeps(before, ConfigNamespace, TokenKey(entry.id), uuid);
    }
  }
}
