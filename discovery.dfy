/** `ServerDiscovery`: the registry of advertised servers, keyed by service
    name, that the zeroconf browser keeps up to date through `add_service`,
    `update_service` and `remove_service`.

    The zeroconf lookup `get_service_info` is an oracle input: either nothing,
    or the resolved addresses (already converted to dotted strings), the port
    and the raw property items. UTF-8 decoding is an abstract partial
    function. The callback is recorded as the list of registry values it was
    called with.
 */
module Discovery {
  import opened Dicts

  type Bytes = seq<bv8>

  /** `bytes.decode('utf-8')`: `None` where it raises. */
  type Decoder = Bytes -> Option<string>

  /** What `get_service_info` resolves an advertisement to. */
  datatype ServiceInfo = ServiceInfo(addresses: seq<string>, port: int, properties: seq<(Bytes, Bytes)>)

  /** The dict stored in `servers[name]`. */
  datatype ServerRecord = ServerRecord(
    name: string, address: string, port: int, hostname: string, system: string, version: string)

  /** Decode every property item, key first, in order; fail if any part fails. */
  function DecodeItems(items: seq<(Bytes, Bytes)>, decode: Decoder): (r: Option<seq<(string, string)>>)
    ensures r.Some? <==> forall i :: 0 <= i < |items| ==> decode(items[i].0).Some? && decode(items[i].1).Some?
    ensures r.Some? ==> |r.value| == |items|
    ensures r.Some? ==>
      forall i :: 0 <= i < |items| ==> r.value[i] == (decode(items[i].0).value, decode(items[i].1).value)
  {
    if items == [] then Some([])
    else
      var k, v := decode(items[0].0), decode(items[0].1);
      var rest := DecodeItems(items[1..], decode);
      if k.None? || v.None? || rest.None? then
        assert k.None? || v.None? || exists i :: 1 <= i < |items| && !(decode(items[i].0).Some? && decode(items[i].1).Some?) by {
          if rest.None? {
            var j :| 0 <= j < |items[1..]| && !(decode(items[1..][j].0).Some? && decode(items[1..][j].1).Some?);
            assert items[1..][j] == items[j + 1];
          }
        }
        None
      else
        Some([(k.value, v.value)] + rest.value)
  }

  /** The comprehension `{k.decode(): v.decode() for k, v in info.properties.items()}`. */
  function DecodeProperties(items: seq<(Bytes, Bytes)>, decode: Decoder): Option<map<string, string>>
  {
    match DecodeItems(items, decode)
    case None => None
    case Some(pairs) => Some(FromEntries(pairs))
  }

  /** The record `add_service` stores, or `None` when it stores nothing:
      nothing was resolved, the address list is empty (`IndexError`), or a
      property does not decode. */
  function Resolve(name: string, info: Option<ServiceInfo>, decode: Decoder): Option<ServerRecord>
  {
    match info
    case None => None
    case Some(i) =>
      if |i.addresses| == 0 then None
      else
        match DecodeProperties(i.properties, decode)
        case None => None
        case Some(p) =>
          Some(ServerRecord(name, i.addresses[0], i.port,
                            GetOr(p, "hostname", "Unknown"), GetOr(p, "system", "Unknown"), GetOr(p, "version", "1.0")))
  }

  /** A record is stored exactly when something was resolved, with at least one
      address, and every property item decodes; it is named by the service
      name and carries the first address and the advertised port. */
  lemma ResolveOutcome(name: string, info: Option<ServiceInfo>, decode: Decoder)
    ensures Resolve(name, info, decode).Some? <==>
      && info.Some? && |info.value.addresses| > 0
      && forall i :: 0 <= i < |info.value.properties| ==>
           decode(info.value.properties[i].0).Some? && decode(info.value.properties[i].1).Some?
    ensures Resolve(name, info, decode).Some? ==>
      var r := Resolve(name, info, decode).value;
      r.name == name && r.address == info.value.addresses[0] && r.port == info.value.port
  {
  }

  /** The metadata field of a record that the property `key` feeds. */
  function Metadata(r: ServerRecord, key: string): string
  {
    if key == "hostname" then r.hostname else if key == "system" then r.system else r.version
  }

  /** What `properties.get` falls back to for `key`. */
  function MetadataDefault(key: string): string
  {
    if key == "version" then "1.0" else "Unknown"
  }

  /** The metadata of a stored record: each of `hostname`, `system` and
      `version` is the value of the last property whose decoded key is that
      name, and `Unknown`, `Unknown` and `1.0` when no property has it. */
  lemma ResolveMetadata(name: string, info: ServiceInfo, decode: Decoder, pairs: seq<(string, string)>, key: string)
    requires |info.addresses| > 0 && DecodeItems(info.properties, decode) == Some(pairs)
    requires key == "hostname" || key == "system" || key == "version"
    ensures Resolve(name, Some(info), decode).Some?
    ensures (forall i :: 0 <= i < |pairs| ==> pairs[i].0 != key) ==>
              Metadata(Resolve(name, Some(info), decode).value, key) == MetadataDefault(key)
    ensures forall i :: LastWith(pairs, key, i) ==>
              Metadata(Resolve(name, Some(info), decode).value, key) == pairs[i].1
  {
    var p := FromEntries(pairs);
    assert DecodeProperties(info.properties, decode) == Some(p);
    var r := Resolve(name, Some(info), decode).value;
    assert Metadata(r, key) == GetOr(p, key, MetadataDefault(key));
    GetOrFromEntries(pairs, key, MetadataDefault(key));
  }

  // ---------------------------------------------------------------------
  // The registry

  /** `servers`, and every value the callback has been called with. */
  datatype Registry = Registry(servers: map<string, ServerRecord>, notifications: seq<map<string, ServerRecord>>)

  /** Every entry is stored under its own name. */
  ghost predicate WellKeyed(servers: map<string, ServerRecord>)
  {
    forall k :: k in servers ==> servers[k].name == k
  }

  /** `add_service(name)` (and `update_service`, which calls it). */
  function AfterAdd(r: Registry, name: string, info: Option<ServiceInfo>, decode: Decoder): Registry
  {
    match Resolve(name, info, decode)
    case None => r
    case Some(record) =>
      var servers := r.servers[name := record];
      Registry(servers, r.notifications + [servers])
  }

  /** `remove_service(name)`. */
  function AfterRemove(r: Registry, name: string): Registry
  {
    if name in r.servers then
      var servers := r.servers - {name};
      Registry(servers, r.notifications + [servers])
    else r
  }

  /** A resolved advertisement replaces or inserts the one entry for its name,
      leaves every other entry alone and calls back once with the new map;
      an unresolved one changes nothing and calls nobody. */
  lemma AddUpserts(r: Registry, name: string, info: Option<ServiceInfo>, decode: Decoder)
    ensures var t := AfterAdd(r, name, info, decode);
      match Resolve(name, info, decode)
      case None => t == r
      case Some(record) =>
        && t.servers.Keys == r.servers.Keys + {name}
        && t.servers[name] == record
        && (forall k :: k in r.servers && k != name ==> t.servers[k] == r.servers[k])
        && |t.servers| == |r.servers| + (if name in r.servers then 0 else 1)
        && t.notifications == r.notifications + [t.servers]
  {
    match Resolve(name, info, decode)
    case None =>
    case Some(record) =>
      var t := AfterAdd(r, name, info, decode);
      if name in r.servers {
        assert t.servers.Keys == r.servers.Keys;
      } else {
        assert t.servers.Keys == r.servers.Keys + {name};
      }
  }

  /** Removing a present name deletes only that entry and calls back once;
      removing an absent one changes nothing and calls nobody. */
  lemma RemoveDeletes(r: Registry, name: string)
    ensures var t := AfterRemove(r, name);
      && (name !in r.servers ==> t == r)
      && (name in r.servers ==>
            && t.servers.Keys == r.servers.Keys - {name}
            && (forall k :: k in t.servers ==> t.servers[k] == r.servers[k])
            && |t.servers| == |r.servers| - 1
            && t.notifications == r.notifications + [t.servers])
  {
  }

  /** Both operations keep every entry under its own name. */
  lemma OperationsKeepWellKeyed(r: Registry, name: string, info: Option<ServiceInfo>, decode: Decoder)
    requires WellKeyed(r.servers)
    ensures WellKeyed(AfterAdd(r, name, info, decode).servers)
    ensures WellKeyed(AfterRemove(r, name).servers)
  {
    ResolveOutcome(name, info, decode);
  }

  /** Two advertisements for the same name with different addresses: the
      registry keeps one entry for the name, the second, and the callback's
      last map shows exactly that entry. */
  lemma UpdateReplaces(r: Registry, name: string, first: ServiceInfo, second: ServiceInfo, decode: Decoder)
    requires Resolve(name, Some(first), decode).Some? && Resolve(name, Some(second), decode).Some?
    ensures var t := AfterAdd(AfterAdd(r, name, Some(first), decode), name, Some(second), decode);
      && |t.notifications| == |r.notifications| + 2
      && t.notifications[|t.notifications| - 1] == t.servers
      && t.servers[name] == Resolve(name, Some(second), decode).value
      && t.servers[name].address == second.addresses[0]
      && t.servers.Keys == r.servers.Keys + {name}
      && |t.servers| == |r.servers| + (if name in r.servers then 0 else 1)
  {
    var once := AfterAdd(r, name, Some(first), decode);
    AddUpserts(r, name, Some(first), decode);
    AddUpserts(once, name, Some(second), decode);
    ResolveOutcome(name, Some(second), decode);
  }

  /** Adding and then removing a name leaves the other entries as they were and
      a last callback map without the name. */
  lemma RemoveAfterAdd(r: Registry, name: string, info: ServiceInfo, decode: Decoder)
    requires Resolve(name, Some(info), decode).Some?
    ensures var t := AfterRemove(AfterAdd(r, name, Some(info), decode), name);
      && t.servers == r.servers - {name}
      && |t.notifications| == |r.notifications| + 2
      && name !in t.notifications[|t.notifications| - 1]
  {
  }

  // ---------------------------------------------------------------------
  // The discovery object

  class ServerDiscovery {
    var servers: map<string, ServerRecord>
    /** The maps `self.callback` was called with, oldest first. */
    var notifications: seq<map<string, ServerRecord>>
    const decode: Decoder

    function Snapshot(): Registry
      reads this
    {
      Registry(servers, notifications)
    }

    constructor (decode: Decoder)
      ensures servers == map[] && notifications == [] && this.decode == decode
    {
      servers := map[];
      notifications := [];
      this.decode := decode;
    }

    /** `remove_service(zeroconf, type, name)`. */
    method RemoveService(name: string)
      modifies this
      ensures Snapshot() == AfterRemove(old(Snapshot()), name)
    {
      if name in servers {
        servers := servers - {name};
        notifications := notifications + [servers];
      }
    }

    /** `add_service(zeroconf, type, name)`, with the lookup's answer in `info`. */
    method AddService(name: string, info: Option<ServiceInfo>)
      modifies this
      ensures Snapshot() == AfterAdd(old(Snapshot()), name, info, decode)
    {
      if info.None? {
        return;
      }
      var resolved := info.value;
      if |resolved.addresses| == 0 {
        return;  // `IndexError`, caught
      }
      var address := resolved.addresses[0];
      var properties := DecodeProperties(resolved.properties, decode);
      if properties.None? {
        return;  // a decode error, caught
      }
      var p := properties.value;
      servers := servers[name := ServerRecord(name, address, resolved.port,
                                              GetOr(p, "hostname", "Unknown"),
                                              GetOr(p, "system", "Unknown"),
                                              GetOr(p, "version", "1.0"))];
      notifications := notifications + [servers];
    }

    /** `update_service(zeroconf, type, name)`. */
    method UpdateService(name: string, info: Option<ServiceInfo>)
      modifies this
      ensures Snapshot() == AfterAdd(old(Snapshot()), name, info, decode)
    {
      AddService(name, info);
    }
  }
}
