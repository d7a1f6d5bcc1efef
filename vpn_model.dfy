/**
 * `VpnModel`: the list of VPN connections kept in step with the connection
 * manager. Signals from the manager (a connection added or removed, the
 * service gone, the reply to `GetConnections`, a property changed) are
 * events that update the list; requests to the manager (create, remove,
 * connect, disconnect) are returned as values, and their completions are
 * methods of their own. File-system outcomes are parameters.
 */
module Vpn {
  import opened Variants
  import opened QMaps
  import opened QStrings
  import opened PropertyTranslator
  import opened ConnectionList
  import opened TokenRepository
  import opened Credentials
  import Importer

  /** A `ConnmanVpnConnectionProxy`: the record its signal updates, and whether the object still exists. */
  datatype Proxy = Proxy(conn: nat, alive: bool)

  /** A proxy that a later `newConnection` for its path pushed out of `connections_`: never deleted, still connected to its record. */
  datatype Stray = Stray(path: string, conn: nat)

  /** One element of the `GetConnections` reply. */
  datatype PathProperties = PathProperties(path: string, properties: PropertyMap)

  datatype ProxyMethod = ConnectCall | DisconnectCall

  /**
   * What `activateConnection` / `deactivateConnection` do: nothing without
   * a proxy, a call on a live proxy, or a call through a stale reference to a proxy
   * that has been deleted.
   */
  datatype ProxyRequest = NoProxy | Issued(path: string, call: ProxyMethod) | Dangling(path: string, call: ProxyMethod)

  /** What the completion of a modification needs from the time of the request. */
  datatype PendingModify = PendingModify(
    token: string, automatic: bool, wasAutomatic: bool,
    location: string, canStore: bool, couldStore: bool)

  /** `modifyConnection`: a `Remove` of the old connection and a `Create` of the new one. */
  datatype ModifyRequest = ModifyRequest(remove: string, create: PropertyMap, pending: PendingModify)

  /** QML-only properties the connection manager does not know. */
  const StrippedKeys: set<string> := {"path", "state", "index", "immutable", "automaticUpDown", "storeCredentials"}

  /** The properties with the default domain filled in when the domain is empty or missing. */
  function WithDefaultDomain(p: PropertyMap): (r: PropertyMap)
    ensures "domain" in r && StringValue(r, "domain") != ""
    ensures StringValue(p, "domain") == "" ==> StringValue(r, "domain") == DefaultDomain
    ensures StringValue(p, "domain") != "" ==> r == p
    ensures forall k :: k != "domain" ==> (k in r <==> k in p)
    ensures forall k :: k in p && k != "domain" ==> r[k] == p[k]
  {
    if StringValue(p, "domain") == "" then p["domain" := VString(DefaultDomain)] else p
  }

  /**
   * `createConnection`: the `Create` request, sent only for properties
   * without a path and with a host and a name.
   */
  function CreateRequest(createProperties: PropertyMap): (r: Option<PropertyMap>)
    ensures r.Some? <==> (StringValue(createProperties, "path") == ""
      && StringValue(createProperties, "host") != "" && StringValue(createProperties, "name") != "")
    ensures r.Some? ==> r.value == PropertiesToDBus(WithDefaultDomain(createProperties))
  {
    if StringValue(createProperties, "path") == ""
      && StringValue(createProperties, "host") != "" && StringValue(createProperties, "name") != ""
    then Some(PropertiesToDBus(WithDefaultDomain(createProperties)))
    else None
  }

  /** The properties `modifyConnection` recreates a connection with. */
  function ModifyProperties(properties: PropertyMap): (r: PropertyMap)
    ensures forall k :: k in StrippedKeys ==> k !in r
    ensures forall k :: k !in StrippedKeys && k != "domain" ==> (k in r <==> k in properties)
    ensures forall k :: k in r && k != "domain" ==> r[k] == properties[k]
    ensures StringValue(r, "domain") != ""
    ensures "domain" in properties && StringValue(properties, "domain") != "" ==> r["domain"] == properties["domain"]
  {
    WithDefaultDomain(properties - StrippedKeys)
  }

  /** The QML properties a connection gets from the manager, with the two flags read from the file system. */
  function AddedProperties(dbus: PropertyMap, automatic: bool, store: bool): (r: PropertyMap)
    ensures "automaticUpDown" in r && BoolValue(r, "automaticUpDown") == automatic
    ensures "storeCredentials" in r && BoolValue(r, "storeCredentials") == store
    ensures forall k :: k != "automaticUpDown" && k != "storeCredentials" ==>
      (k in r <==> k in PropertiesToQml(dbus)) && (k in r ==> r[k] == PropertiesToQml(dbus)[k])
  {
    PropertiesToQml(dbus)["automaticUpDown" := VBool(automatic)]["storeCredentials" := VBool(store)]
  }

  /** The path of every fetched connection, in reply order. */
  function FetchedPaths(connections: seq<PathProperties>): (r: seq<string>)
    ensures |r| == |connections|
    ensures forall j :: 0 <= j < |connections| ==> r[j] == connections[j].path
  {
    seq(|connections|, j requires 0 <= j < |connections| => connections[j].path)
  }

  /** The token of every fetched connection, in reply order. */
  function FetchedTokens(connections: seq<PathProperties>): (r: seq<string>)
    ensures |r| == |connections|
    ensures forall j :: 0 <= j < |connections| ==> r[j] == TokenForObjectPath(connections[j].path)
  {
    seq(|connections|, j requires 0 <= j < |connections| => TokenForObjectPath(connections[j].path))
  }

  /**
   * The update a connection of a `GetConnections` reply gets, given the
   * listed tokens and the credentials files: its QML form and the two
   * file-system flags of its path.
   */
  function FetchedUpdate(c: PathProperties, tokens: seq<string>, files: set<string>): PropertyMap
  {
    AddedProperties(c.properties, TokenForObjectPath(c.path) in tokens, LocationForObjectPath(c.path) in files)
  }

  /** Every connection of a reply changes the new record made for it. */
  ghost predicate FetchedChangeAll(connections: seq<PathProperties>, tokens: seq<string>, files: set<string>)
  {
    forall j :: 0 <= j < |connections| ==> ChangesNewRecord(FetchedUpdate(connections[j], tokens, files))
  }

  /** One more fetched connection adds its path and its token. */
  lemma FetchedStep(connections: seq<PathProperties>, k: nat)
    requires k < |connections|
    ensures multiset(FetchedPaths(connections[..k + 1])) == multiset(FetchedPaths(connections[..k])) + multiset{connections[k].path}
    ensures FetchedTokens(connections[..k + 1]) == FetchedTokens(connections[..k]) + [TokenForObjectPath(connections[k].path)]
  {
    assert FetchedPaths(connections[..k + 1]) == FetchedPaths(connections[..k]) + [connections[k].path];
  }

  /** Registering connection `k`'s proxy keeps the proxies of the connections before it live. */
  lemma FetchedAliveStep(connections: seq<PathProperties>, k: nat, before: map<string, Proxy>, id: nat)
    requires k < |connections|
    requires forall j :: 0 <= j < k ==> connections[j].path in before && before[connections[j].path].alive
    ensures forall j :: 0 <= j <= k ==>
      var after := before[connections[k].path := Proxy(id, true)];
      connections[j].path in after && after[connections[j].path].alive
  {
  }

  /** Removing a connection can leave a best state that no remaining record supports. */
  lemma RemovalCanLeaveBestStateStale()
    ensures exists s: seq<Connection>, i: nat :: i < |s| && BestStateOf(s) == Ready && BestStateOf(Remove(s, i)) == Idle
  {
    var c := Connection(0, "/c", map["state" := VInt(Ready)]);
    assert StateOf(c) == Ready;
    assert [c][..0] == [];
    assert BestStateOf([c]) == Ready;
    assert Remove([c], 0) == [];
  }

  class VpnModel {
    /** The records, in list order. */
    var items: seq<Connection>
    /** `connections_`: the proxy of each path. */
    var proxies: map<string, Proxy>
    /** The live proxies no longer in `connections_`, oldest first. */
    var strays: seq<Stray>
    var bestState: int
    var populated: bool
    /** The identity the next `VpnConnection` gets. */
    var nextId: nat
    const tokenFiles: TokenFileRepository
    const credentials: CredentialsRepository

    /** The repositories are consistent. */
    ghost predicate Valid()
      reads tokenFiles, credentials
    {
      tokenFiles.Valid() && credentials.Valid()
    }

    /** The strays after a new proxy for `path` replaces the table entry. */
    function PushedOut(path: string): seq<Stray>
      reads this
    {
      if path in proxies && proxies[path].alive then strays + [Stray(path, proxies[path].conn)] else strays
    }

    /** The update a connection announced with `properties` gets: the QML form and the two file-system flags of its path. */
    function AddedUpdate(path: string, properties: PropertyMap): PropertyMap
      reads tokenFiles, credentials
    {
      AddedProperties(properties, tokenFiles.TokenExists(TokenForObjectPath(path)),
                      credentials.CredentialsExist(LocationForObjectPath(path)))
    }

    /** Every connection of a `GetConnections` reply changes the new record made for it. */
    ghost predicate FetchChangesAll(connections: seq<PathProperties>)
      reads tokenFiles, credentials
    {
      FetchedChangeAll(connections, tokenFiles.tokens, credentials.files.Keys)
    }

    /** The stored best state is the one the records' states give. */
    ghost predicate BestStateCurrent()
      reads this
    {
      bestState == BestStateOf(items)
    }

    /** The model starts empty, Idle and not populated; the first fetch is an event of its own. */
    constructor (tokenFiles: TokenFileRepository, credentials: CredentialsRepository)
      requires tokenFiles.Valid() && credentials.Valid()
      ensures Valid() && BestStateCurrent()
      ensures this.tokenFiles == tokenFiles && this.credentials == credentials
      ensures items == [] && proxies == map[] && strays == [] && bestState == Idle && !populated && nextId == 0
    {
      this.tokenFiles := tokenFiles;
      this.credentials := credentials;
      items := [];
      proxies := map[];
      strays := [];
      bestState := Idle;
      populated := false;
      nextId := 0;
    }

    /** `connection(path)`: the first record with the path. */
    method FindConnection(path: string) returns (r: Option<nat>)
      ensures r == IndexOfPath(items, path)
    {
      var i := 0;
      while i < |items|
        invariant 0 <= i <= |items|
        invariant forall j :: 0 <= j < i ==> items[j].path != path
      {
        if items[i].path == path {
          assert Paths(items)[i] == path;
          return Some(i);
        }
        i := i + 1;
      }
      return None;
    }

    /**
     * `newConnection`: a new record at the end and a live proxy for its
     * path; a live proxy the path had before becomes a stray.
     */
    method NewConnection(path: string) returns (i: nat)
      modifies this
      ensures items == old(items) + [InitialConnection(old(nextId), path)] && i == |old(items)|
      ensures proxies == old(proxies)[path := Proxy(old(nextId), true)]
      ensures strays == old(PushedOut(path))
      ensures nextId == old(nextId) + 1
      ensures unchanged(this`bestState, this`populated)
    {
      i := |items|;
      items := items + [InitialConnection(nextId, path)];
      if path in proxies && proxies[path].alive {
        strays := strays + [Stray(path, proxies[path].conn)];
      }
      proxies := proxies[path := Proxy(nextId, true)];
      nextId := nextId + 1;
    }

    /** The loop of `updateConnection` that merges provider properties key by key, in key order. */
    method MergeProviderProperties(existing: PropertyMap, updated: PropertyMap) returns (r: PropertyMap)
      ensures r == existing + updated
    {
      var keys := SortedKeys(updated.Keys);
      r := existing;
      var j := 0;
      while j < |keys|
        invariant 0 <= j <= |keys|
        invariant r == Overwrite(existing, updated, keys[..j])
      {
        OverwriteStep(existing, updated, keys, j);
        r := r[keys[j] := updated[keys[j]]];
        j := j + 1;
      }
      assert keys[..j] == keys;
      OverwriteAll(existing, updated, keys);
    }

    /** The start of `updateConnection`: the update with provider properties merged and the sentinel domain dropped. */
    method PrepareProperties(c: Connection, update: PropertyMap) returns (properties: PropertyMap)
      ensures properties == PrepareUpdate(c, update)
    {
      properties := update;
      if ProviderPropertiesKey in properties {
        var existing := MergeProviderProperties(ProviderProperties(c), AsMap(properties[ProviderPropertiesKey]));
        properties := properties[ProviderPropertiesKey := VMap(existing)];
      }
      if "domain" in properties && ToStr(properties["domain"]) == DefaultDomain {
        properties := properties - {"domain"};
      }
    }

    /** The loop of `updateConnection` that finds the best state. */
    method ComputeBestState() returns (maxState: int)
      ensures maxState == BestStateOf(items)
    {
      maxState := Idle;
      var j := 0;
      while j < |items|
        invariant 0 <= j <= |items|
        invariant maxState == BestStateOf(items[..j])
      {
        assert items[..j + 1][..j] == items[..j];
        var state := StateOf(items[j]);
        if NumericValue(state) > NumericValue(maxState) {
          maxState := state;
        }
        j := j + 1;
      }
      assert items[..j] == items;
    }

    /** The loop of `updateConnection` that finds the first record with a greater name. */
    method ScanInsertionIndex(n: string) returns (index: nat)
      ensures index == InsertionIndex(items, n)
    {
      index := 0;
      while index < |items| && !Less(n, Name(items[index]))
        invariant 0 <= index <= |items|
        invariant forall j :: 0 <= j < index ==> !Less(n, Name(items[j]))
      {
        index := index + 1;
      }
      InsertionIndexUnique(items, n, index);
    }

    /** The end of `updateConnection`: move the record at `i` to keep the list in name order. */
    method RepositionItem(i: nat)
      requires i < |items|
      modifies this
      ensures items == Reposition(old(items), i)
      ensures unchanged(this`bestState, this`proxies, this`strays, this`populated, this`nextId)
    {
      ghost var s := items;
      if |items| > 1 {
        var index := ScanInsertionIndex(Name(items[i]));
        assert index == InsertionIndex(s, Name(s[i]));
        if index != i && index != i + 1 {
          items := Move(items, i, if i < index then index - 1 else index);
        }
      }
    }

    /**
     * `updateConnection`: merge the update into the record at `i`; when the
     * record changed, recompute the best state if its state changed, and
     * move it to keep the list in name order.
     */
    method UpdateConnection(i: nat, update: PropertyMap)
      requires i < |items|
      modifies this
      ensures items == UpdateItems(old(items), i, update)
      ensures bestState == UpdateBest(old(items), i, update, old(bestState))
      ensures unchanged(this`proxies, this`strays, this`populated, this`nextId)
      ensures old(BestStateCurrent()) ==> BestStateCurrent()
      ensures old(Sorted(items)) ==> Sorted(items)
      ensures multiset(Paths(items)) == multiset(Paths(old(items)))
    {
      ghost var s, best := items, bestState;
      var c := items[i];
      var properties := PrepareProperties(c, update);
      var updated := Apply(c, properties);
      assert updated == Merged(s[i], update);
      if updated != c {
        items := items[i := updated];
        if StateOf(updated) != StateOf(c) {
          var maxState := ComputeBestState();
          bestState := maxState;
        }
        assert bestState == UpdateBest(s, i, update, best);
        RepositionItem(i);
        assert items == UpdateItems(s, i, update);
      }
      UpdateFacts(s, i, update, best);
    }

    /**
     * `newConnection` followed by `updateConnection`: the list stays in name
     * order when the update changes the new record, and otherwise keeps the
     * new record last.
     */
    method AddConnection(path: string, qml: PropertyMap)
      modifies this
      ensures items == UpdateItems(old(items) + [InitialConnection(old(nextId), path)], |old(items)|, qml)
      ensures proxies == old(proxies)[path := Proxy(old(nextId), true)] && nextId == old(nextId) + 1
      ensures strays == old(PushedOut(path))
      ensures multiset(Paths(items)) == multiset(Paths(old(items))) + multiset{path}
      ensures old(Sorted(items)) && ChangesNewRecord(qml) ==> Sorted(items)
      ensures !ChangesNewRecord(qml) ==> items == old(items) + [InitialConnection(old(nextId), path)]
      ensures old(BestStateCurrent()) ==> BestStateCurrent()
      ensures unchanged(this`populated)
    {
      ghost var s := items;
      var added := InitialConnection(nextId, path);
      var i := NewConnection(path);
      AppendDisconnected(s, added);
      AppendPath(s, added);
      NewRecordChange(added.id, path, qml);
      if Sorted(s) && ChangesNewRecord(qml) {
        AppendThenUpdateSorted(s, added, qml);
      }
      UpdateConnection(i, qml);
    }

    /**
     * The `ConnectionAdded` signal: the record with the path, or a new one,
     * updated with the announced properties and the two file-system flags.
     */
    method ConnectionAdded(path: string, properties: PropertyMap)
      requires Valid()
      modifies this
      ensures Valid()
      ensures old(BestStateCurrent()) ==> BestStateCurrent()
      ensures var qml := old(AddedUpdate(path, properties));
        var found := IndexOfPath(old(items), path);
        if found.Some? then
          items == UpdateItems(old(items), found.value, qml) && proxies == old(proxies) && nextId == old(nextId)
          && strays == old(strays)
        else
          items == UpdateItems(old(items) + [InitialConnection(old(nextId), path)], |old(items)|, qml)
          && proxies == old(proxies)[path := Proxy(old(nextId), true)] && nextId == old(nextId) + 1
          && strays == old(PushedOut(path))
      ensures old(Sorted(items) && (path in Paths(items) || ChangesNewRecord(AddedUpdate(path, properties)))) ==>
        Sorted(items)
      ensures multiset(Paths(items)) == multiset(Paths(old(items))) + (if path in Paths(old(items)) then multiset{} else multiset{path})
      ensures unchanged(this`populated)
    {
      var found := FindConnection(path);
      var qml := AddedUpdate(path, properties);
      if found.Some? {
        UpdateConnection(found.value, qml);
      } else {
        AddConnection(path, qml);
      }
    }

    /**
     * The `ConnectionRemoved` signal: the first record with the path and the
     * proxy go; the best state is left as it was.
     */
    method ConnectionRemoved(path: string)
      requires Valid()
      modifies this
      ensures Valid()
      ensures old(Sorted(items)) ==> Sorted(items)
      ensures var found := IndexOfPath(old(items), path);
        items == if found.Some? then Remove(old(items), found.value) else old(items)
      ensures proxies == old(proxies) - {path}
      ensures unchanged(this`bestState, this`strays, this`populated, this`nextId)
    {
      var found := FindConnection(path);
      if found.Some? {
        if Sorted(items) {
          SortedRemove(items, found.value);
        }
        items := Remove(items, found.value);
      }
      proxies := proxies - {path};
    }

    /**
     * The manager left the bus: the list is cleared and unpopulated, and
     * every proxy object is deleted while its entry stays in the table.
     */
    method ServiceUnregistered()
      requires Valid()
      modifies this
      ensures Valid()
      ensures items == [] && !populated
      ensures proxies.Keys == old(proxies).Keys
      ensures forall p :: p in proxies ==> proxies[p] == old(proxies)[p].(alive := false)
      ensures forall p, call :: p in old(proxies) ==> ProxyRequestFor(p, call) == Dangling(p, call)
      ensures unchanged(this`bestState, this`strays, this`nextId)
    {
      items := [];
      populated := false;
      proxies := map p | p in proxies :: proxies[p].(alive := false);
    }

    /**
     * One pass of the loop over the `GetConnections` reply: connection `k`
     * gets a new record made from its QML form and the two file-system
     * flags of its path, and its token joins the list.
     */
    method FetchNext(connections: seq<PathProperties>, k: nat, tokens: seq<string>,
                     ghost base: multiset<string>, ghost ordered: bool, ghost best: bool)
      returns (next: seq<string>)
      requires k < |connections|
      requires tokens == FetchedTokens(connections[..k])
      requires multiset(Paths(items)) == base + multiset(FetchedPaths(connections[..k]))
      requires forall j :: 0 <= j < k ==> connections[j].path in proxies && proxies[connections[j].path].alive
      requires ordered ==> Sorted(items) && ChangesNewRecord(AddedUpdate(connections[k].path, connections[k].properties))
      requires best ==> BestStateCurrent()
      modifies this
      ensures next == FetchedTokens(connections[..k + 1])
      ensures multiset(Paths(items)) == base + multiset(FetchedPaths(connections[..k + 1]))
      ensures forall j :: 0 <= j <= k ==> connections[j].path in proxies && proxies[connections[j].path].alive
      ensures ordered ==> Sorted(items)
      ensures best ==> BestStateCurrent()
      ensures nextId == old(nextId) + 1 && unchanged(this`populated)
    {
      var c := connections[k];
      FetchedStep(connections, k);
      FetchedAliveStep(connections, k, proxies, nextId);
      var update := AddedUpdate(c.path, c.properties);
      AddConnection(c.path, update);
      next := tokens + [TokenForObjectPath(c.path)];
    }

    /** The loop over the `GetConnections` reply: a new record for each connection, and the list of their tokens. */
    method AppendFetched(connections: seq<PathProperties>) returns (tokens: seq<string>)
      modifies this
      ensures tokens == FetchedTokens(connections)
      ensures multiset(Paths(items)) == multiset(Paths(old(items))) + multiset(FetchedPaths(connections))
      ensures forall j :: 0 <= j < |connections| ==> connections[j].path in proxies && proxies[connections[j].path].alive
      ensures nextId == old(nextId) + |connections| && populated == old(populated)
      ensures old(Sorted(items)) && old(FetchChangesAll(connections)) ==> Sorted(items)
      ensures old(BestStateCurrent()) ==> BestStateCurrent()
    {
      tokens := [];
      ghost var base := multiset(Paths(items));
      ghost var listed, files := tokenFiles.tokens, credentials.files.Keys;
      ghost var ordered := Sorted(items) && FetchedChangeAll(connections, listed, files);
      ghost var best := BestStateCurrent();
      var k := 0;
      while k < |connections|
        invariant 0 <= k <= |connections|
        invariant tokens == FetchedTokens(connections[..k])
        invariant multiset(Paths(items)) == base + multiset(FetchedPaths(connections[..k]))
        invariant forall j :: 0 <= j < k ==> connections[j].path in proxies && proxies[connections[j].path].alive
        invariant nextId == old(nextId) + k && populated == old(populated)
        invariant ordered ==> Sorted(items)
        invariant best ==> BestStateCurrent()
      {
        if ordered {
          assert ChangesNewRecord(FetchedUpdate(connections[k], listed, files));
          assert FetchedUpdate(connections[k], listed, files) == AddedUpdate(connections[k].path, connections[k].properties);
        }
        tokens := FetchNext(connections, k, tokens, base, ordered, best);
        k := k + 1;
      }
      assert connections[..k] == connections;
    }

    /**
     * The reply to `GetConnections`: on success every connection in it gets
     * a new record, appended whatever the list already holds, and the token
     * files of connections not in the reply are removed. The model is
     * populated either way.
     */
    method FetchCompleted(success: bool, connections: seq<PathProperties>, undeletable: set<string>)
      requires Valid()
      modifies this, tokenFiles
      ensures Valid() && populated
      ensures old(BestStateCurrent()) ==> BestStateCurrent()
      ensures !success ==> (items == old(items) && proxies == old(proxies) && strays == old(strays) && nextId == old(nextId)
        && bestState == old(bestState) && tokenFiles.tokens == old(tokenFiles.tokens) && tokenFiles.files == old(tokenFiles.files))
      ensures success ==> multiset(Paths(items)) == multiset(Paths(old(items))) + multiset(FetchedPaths(connections))
      ensures success ==> forall p :: p in Paths(old(items)) && p in FetchedPaths(connections) ==> multiset(Paths(items))[p] >= 2
      ensures success ==> forall j :: 0 <= j < |connections| ==> connections[j].path in proxies && proxies[connections[j].path].alive
      ensures success ==> nextId == old(nextId) + |connections|
      ensures success && old(Sorted(items)) && old(FetchChangesAll(connections)) ==> Sorted(items)
      ensures success ==> tokenFiles.tokens == Keep(old(tokenFiles.tokens), FetchedTokens(connections))
      ensures success ==> (tokenFiles.files ==
        old(tokenFiles.files) - Deleted(Drop(old(tokenFiles.tokens), FetchedTokens(connections)), undeletable))
    {
      var tokens: seq<string> := [];
      if success {
        tokens := AppendFetched(connections);
      }
      populated := true;
      if success {
        var _ := tokenFiles.RemoveUnknownTokens(tokens, undeletable);
      }
    }

    /**
     * A `PropertyChanged` signal reaching the proxy `connections_` holds for
     * `proxyPath`: the record the proxy was made for, if it is still listed,
     * is updated with the one property.
     */
    method PropertyChanged(proxyPath: string, name: string, value: Value)
      requires Valid()
      modifies this
      ensures Valid()
      ensures old(Sorted(items)) ==> Sorted(items)
      ensures old(BestStateCurrent()) ==> BestStateCurrent()
      ensures var target := if proxyPath in old(proxies) && old(proxies)[proxyPath].alive
          then IndexOfId(old(items), old(proxies)[proxyPath].conn) else None;
        if target.Some? then
          items == UpdateItems(old(items), target.value, PropertiesToQml(map[name := value]))
          && bestState == UpdateBest(old(items), target.value, PropertiesToQml(map[name := value]), old(bestState))
        else items == old(items) && bestState == old(bestState)
      ensures unchanged(this`proxies, this`strays, this`populated, this`nextId)
    {
      if proxyPath in proxies && proxies[proxyPath].alive {
        var target := IndexOfId(items, proxies[proxyPath].conn);
        if target.Some? {
          UpdateConnection(target.value, PropertiesToQml(map[name := value]));
        }
      }
    }

    /**
     * A `PropertyChanged` signal reaching stray proxy `k`: it still updates
     * the record it was made for, if that record is still listed.
     */
    method StrayPropertyChanged(k: nat, name: string, value: Value)
      requires Valid() && k < |strays|
      modifies this
      ensures Valid()
      ensures old(Sorted(items)) ==> Sorted(items)
      ensures old(BestStateCurrent()) ==> BestStateCurrent()
      ensures var target := IndexOfId(old(items), old(strays)[k].conn);
        if target.Some? then
          items == UpdateItems(old(items), target.value, PropertiesToQml(map[name := value]))
          && bestState == UpdateBest(old(items), target.value, PropertiesToQml(map[name := value]), old(bestState))
        else items == old(items) && bestState == old(bestState)
      ensures unchanged(this`proxies, this`strays, this`populated, this`nextId)
    {
      var target := IndexOfId(items, strays[k].conn);
      if target.Some? {
        UpdateConnection(target.value, PropertiesToQml(map[name := value]));
      }
    }

    /** `deleteConnection`: a `Remove` request for the path, sent only when a record has it. */
    method DeleteConnection(path: string) returns (r: Option<string>)
      ensures r.Some? <==> path in Paths(items)
      ensures r.Some? ==> r.value == path
    {
      var found := FindConnection(path);
      if found.Some? {
        return Some(path);
      }
      return None;
    }

    /**
     * `modifyConnection`: for a known path, remove the connection and
     * create it again without the QML-only properties, remembering the two
     * flags as they were requested and as they are now.
     */
    method ModifyConnection(path: string, properties: PropertyMap) returns (r: Option<ModifyRequest>)
      ensures r.None? <==> path !in Paths(items)
      ensures r.Some? ==> r.value.remove == path && r.value.create == PropertiesToDBus(ModifyProperties(properties))
      ensures r.Some? ==> r.value.pending == PendingModify(
        TokenForObjectPath(path), BoolValue(properties, "automaticUpDown"), tokenFiles.TokenExists(TokenForObjectPath(path)),
        LocationForObjectPath(path), BoolValue(properties, "storeCredentials"), credentials.CredentialsExist(LocationForObjectPath(path)))
    {
      var found := FindConnection(path);
      if found.None? {
        return None;
      }
      var remove := DeleteConnection(path);
      var token := TokenForObjectPath(path);
      var location := LocationForObjectPath(path);
      var pending := PendingModify(
        token, BoolValue(properties, "automaticUpDown"), tokenFiles.TokenExists(token),
        location, BoolValue(properties, "storeCredentials"), credentials.CredentialsExist(location));
      return Some(ModifyRequest(remove.value, PropertiesToDBus(ModifyProperties(properties)), pending));
    }

    /**
     * The reply to the `Create` of a modification: on success, a flag that
     * was changed is applied to the token file or the credentials file;
     * newly enabled credentials are stored as an empty map.
     */
    method CompleteModify(pending: PendingModify, success: bool, tokenOk: bool, credentialsOk: bool)
      requires Valid()
      modifies tokenFiles, credentials
      ensures Valid()
      ensures !success || pending.automatic == pending.wasAutomatic || !tokenOk || (pending.automatic && pending.token == "") ==>
        tokenFiles.tokens == old(tokenFiles.tokens) && tokenFiles.files == old(tokenFiles.files)
      ensures success && pending.automatic != pending.wasAutomatic && tokenOk && (pending.token != "" || !pending.automatic) ==>
        tokenFiles.TokenExists(pending.token) == pending.automatic
      ensures !success || pending.canStore == pending.couldStore || !credentialsOk ==>
        credentials.files == old(credentials.files)
      ensures success && pending.canStore != pending.couldStore && credentialsOk && pending.location != "" ==>
        credentials.CredentialsExist(pending.location) == pending.canStore
      ensures success && pending.canStore && !pending.couldStore && credentialsOk && pending.location != "" ==>
        credentials.files[pending.location] == Encoded(map[])
    {
      if success {
        if pending.automatic != pending.wasAutomatic {
          if pending.automatic {
            tokenFiles.EnsureToken(pending.token, tokenOk);
          } else {
            tokenFiles.RemoveToken(pending.token, tokenOk);
          }
        }
        if pending.canStore != pending.couldStore {
          if pending.canStore {
            var _ := credentials.StoreCredentials(pending.location, map[], credentialsOk);
          } else {
            var _ := credentials.RemoveCredentials(pending.location, credentialsOk);
          }
        }
      }
    }

    /** `activateConnection` and `deactivateConnection`: the call made on the path's proxy. */
    function ProxyRequestFor(path: string, call: ProxyMethod): (r: ProxyRequest)
      reads this
      ensures r.NoProxy? <==> path !in proxies
      ensures r.Issued? <==> path in proxies && proxies[path].alive
      ensures !r.NoProxy? ==> r.path == path && r.call == call
    {
      if path !in proxies then NoProxy
      else if proxies[path].alive then Issued(path, call)
      else Dangling(path, call)
    }

    /** Set a flag of the record at `i`, as `setAutomaticUpDown` and `setStoreCredentials` do. */
    method SetItemFlag(i: nat, key: string, b: bool)
      requires i < |items| && key != "name" && key != "state"
      modifies this
      ensures items == old(items)[i := SetFlag(old(items)[i], key, b)]
      ensures old(Sorted(items)) ==> Sorted(items)
      ensures old(BestStateCurrent()) ==> BestStateCurrent()
      ensures unchanged(this`bestState, this`proxies, this`strays, this`populated, this`nextId)
    {
      SetFlagKeeps(items, i, key, b);
      items := items[i := SetFlag(items[i], key, b)];
    }

    /**
     * Create or remove the token file so that it exists exactly when
     * `enabled`, if the file system allows; an empty token cannot be written.
     */
    method SetToken(token: string, enabled: bool, fsOk: bool)
      requires tokenFiles.Valid()
      modifies tokenFiles
      ensures tokenFiles.Valid()
      ensures fsOk && (token != "" || !enabled) ==> tokenFiles.TokenExists(token) == enabled
      ensures !(fsOk && (token != "" || !enabled)) ==>
        tokenFiles.tokens == old(tokenFiles.tokens) && tokenFiles.files == old(tokenFiles.files)
    {
      if enabled {
        tokenFiles.EnsureToken(token, fsOk);
      } else {
        tokenFiles.RemoveToken(token, fsOk);
      }
    }

    /**
     * `setAutomaticConnection`: for a known path whose token file does not
     * match `enabled`, create or remove the token file and set the record's
     * flag, whether or not the file operation succeeded.
     */
    method SetAutomaticConnection(path: string, enabled: bool, fsOk: bool)
      requires Valid()
      modifies this, tokenFiles
      ensures Valid()
      ensures old(Sorted(items)) ==> Sorted(items)
      ensures old(BestStateCurrent()) ==> BestStateCurrent()
      ensures var found := IndexOfPath(old(items), path);
        found.Some? && enabled != old(tokenFiles.TokenExists(TokenForObjectPath(path))) ==>
          && items == old(items)[found.value := SetFlag(old(items)[found.value], "automaticUpDown", enabled)]
          && (fsOk && (TokenForObjectPath(path) != "" || !enabled) ==> tokenFiles.TokenExists(TokenForObjectPath(path)) == enabled)
      ensures var found := IndexOfPath(old(items), path);
        found.None? || enabled == old(tokenFiles.TokenExists(TokenForObjectPath(path))) ==> items == old(items)
      ensures var found := IndexOfPath(old(items), path);
        found.None? || enabled == old(tokenFiles.TokenExists(TokenForObjectPath(path))) || !fsOk
        || (enabled && TokenForObjectPath(path) == "") ==>
          tokenFiles.tokens == old(tokenFiles.tokens) && tokenFiles.files == old(tokenFiles.files)
      ensures unchanged(this`bestState, this`proxies, this`strays, this`populated, this`nextId)
    {
      var found := FindConnection(path);
      if found.Some? {
        var token := TokenForObjectPath(path);
        if enabled != tokenFiles.TokenExists(token) {
          SetItemFlag(found.value, "automaticUpDown", enabled);
          SetToken(token, enabled, fsOk);
        }
      }
    }

    /** `setStoreCredentials(enabled)` on the record at `i` when its flag differs. */
    method SetSynced(i: nat, enabled: bool)
      requires i < |items|
      modifies this
      ensures items == Synced(old(items), i, enabled)
      ensures old(Sorted(items)) ==> Sorted(items)
      ensures old(BestStateCurrent()) ==> BestStateCurrent()
      ensures unchanged(this`bestState, this`proxies, this`strays, this`populated, this`nextId)
    {
      SyncedKeeps(items, i, enabled);
      if BoolValue(items[i].props, "storeCredentials") != enabled {
        items := items[i := SetFlag(items[i], "storeCredentials", enabled)];
      }
    }

    /** Bring the `storeCredentials` flag of the record at `i` in line with the credentials file. */
    method SyncStoreCredentials(i: nat) returns (enabled: bool)
      requires i < |items| && Valid()
      modifies this
      ensures Valid()
      ensures old(Sorted(items)) ==> Sorted(items)
      ensures old(BestStateCurrent()) ==> BestStateCurrent()
      ensures enabled == credentials.CredentialsExist(LocationForObjectPath(old(items)[i].path))
      ensures items == Synced(old(items), i, enabled)
      ensures unchanged(this`bestState, this`proxies, this`strays, this`populated, this`nextId)
    {
      enabled := credentials.CredentialsExist(LocationForObjectPath(items[i].path));
      SetSynced(i, enabled);
    }

    /**
     * `connectionCredentials`: the stored credentials when storage is
     * enabled, otherwise nothing; the record's flag follows the file.
     */
    method ConnectionCredentials(path: string, readOk: bool) returns (rv: PropertyMap)
      requires Valid()
      modifies this
      ensures Valid()
      ensures old(Sorted(items)) ==> Sorted(items)
      ensures old(BestStateCurrent()) ==> BestStateCurrent()
      ensures var found, location := IndexOfPath(old(items), path), LocationForObjectPath(path);
        && rv == (if found.Some? && readOk && credentials.CredentialsExist(location)
                  then Decoded(credentials.files[location]) else map[])
        && items == if found.Some? then Synced(old(items), found.value, credentials.CredentialsExist(location)) else old(items)
      ensures forall k :: k in rv ==> rv[k].VString?
      ensures unchanged(this`bestState, this`proxies, this`strays, this`populated, this`nextId)
    {
      rv := map[];
      var found := FindConnection(path);
      if found.Some? {
        var location := LocationForObjectPath(path);
        var enabled := credentials.CredentialsExist(location);
        if enabled {
          rv := credentials.ReadCredentials(location, readOk);
        }
        var _ := SyncStoreCredentials(found.value);
      }
    }

    /**
     * `setConnectionCredentials`: store the credentials and mark the record
     * as storing them, whether or not the write succeeded.
     */
    method SetConnectionCredentials(path: string, secrets: PropertyMap, writeOk: bool)
      requires Valid()
      modifies this, credentials
      ensures Valid()
      ensures old(Sorted(items)) ==> Sorted(items)
      ensures old(BestStateCurrent()) ==> BestStateCurrent()
      ensures var found := IndexOfPath(old(items), path);
        items == if found.Some? then Synced(old(items), found.value, true) else old(items)
      ensures path in Paths(old(items)) && writeOk && LocationForObjectPath(path) != "" ==>
        credentials.files == old(credentials.files)[LocationForObjectPath(path) := Encoded(secrets)]
      ensures path !in Paths(old(items)) || !writeOk || LocationForObjectPath(path) == "" ==>
        credentials.files == old(credentials.files)
      ensures unchanged(this`bestState, this`proxies, this`strays, this`populated, this`nextId)
    {
      var found := FindConnection(path);
      if found.Some? {
        SetSynced(found.value, true);
        var _ := credentials.StoreCredentials(LocationForObjectPath(path), secrets, writeOk);
      }
    }

    /** `connectionCredentialsEnabled`: whether a credentials file exists; the record's flag follows it. */
    method ConnectionCredentialsEnabled(path: string) returns (enabled: bool)
      requires Valid()
      modifies this
      ensures Valid()
      ensures old(Sorted(items)) ==> Sorted(items)
      ensures old(BestStateCurrent()) ==> BestStateCurrent()
      ensures var found, location := IndexOfPath(old(items), path), LocationForObjectPath(path);
        && enabled == (found.Some? && credentials.CredentialsExist(location))
        && items == if found.Some? then Synced(old(items), found.value, enabled) else old(items)
      ensures unchanged(this`bestState, this`proxies, this`strays, this`populated, this`nextId)
    {
      var found := FindConnection(path);
      if found.Some? {
        enabled := SyncStoreCredentials(found.value);
      } else {
        enabled := false;
      }
    }

    /** The credentials file at `location` removed if there is one and the file system allows. */
    method RemoveStoredCredentials(location: string, deleteOk: bool)
      requires credentials.Valid()
      modifies credentials
      ensures credentials.Valid()
      ensures credentials.files == if deleteOk then old(credentials.files) - {location} else old(credentials.files)
    {
      if credentials.CredentialsExist(location) {
        var _ := credentials.RemoveCredentials(location, deleteOk);
      } else {
        assert credentials.files - {location} == credentials.files;
      }
    }

    /**
     * `disableConnectionCredentials`: remove the credentials file if there
     * is one, and clear the record's flag whether or not that succeeded.
     */
    method DisableConnectionCredentials(path: string, deleteOk: bool)
      requires Valid()
      modifies this, credentials
      ensures Valid()
      ensures old(Sorted(items)) ==> Sorted(items)
      ensures old(BestStateCurrent()) ==> BestStateCurrent()
      ensures var found := IndexOfPath(old(items), path);
        items == if found.Some? then Synced(old(items), found.value, false) else old(items)
      ensures path in Paths(old(items)) && deleteOk ==> credentials.files == old(credentials.files) - {LocationForObjectPath(path)}
      ensures path !in Paths(old(items)) || !deleteOk ==> credentials.files == old(credentials.files)
      ensures unchanged(this`bestState, this`proxies, this`strays, this`populated, this`nextId)
    {
      var found := FindConnection(path);
      if found.Some? {
        SetSynced(found.value, false);
        RemoveStoredCredentials(LocationForObjectPath(path), deleteOk);
      }
    }

    /** `connectionSettings`: the record's properties after its flag follows the credentials file. */
    method ConnectionSettings(path: string) returns (rv: PropertyMap)
      requires Valid()
      modifies this
      ensures Valid()
      ensures old(Sorted(items)) ==> Sorted(items)
      ensures old(BestStateCurrent()) ==> BestStateCurrent()
      ensures var found, location := IndexOfPath(old(items), path), LocationForObjectPath(path);
        if found.Some? then
          items == Synced(old(items), found.value, credentials.CredentialsExist(location))
          && rv == items[found.value].props
          && BoolValue(rv, "storeCredentials") == credentials.CredentialsExist(location)
        else items == old(items) && rv == map[]
      ensures unchanged(this`bestState, this`proxies, this`strays, this`populated, this`nextId)
    {
      rv := map[];
      var found := FindConnection(path);
      if found.Some? {
        var _ := SyncStoreCredentials(found.value);
        rv := items[found.value].props;
      }
    }
  }

  /**
   * `processProvisioningFile`: only an OpenVPN profile that could be opened
   * is read; the result is the importer's settings and the files it wrote.
   */
  method ProcessProvisioningFile(readable: bool, connectionType: int, lines: seq<string>, env: Importer.Env)
    returns (rv: map<string, string>, written: map<string, string>)
    ensures readable && connectionType == OpenVPN ==>
      rv == Importer.Import(lines, env).rv && written == Importer.Import(lines, env).files
    ensures !(readable && connectionType == OpenVPN) ==> rv == map[] && written == map[]
  {
    rv, written := map[], map[];
    if readable && connectionType == OpenVPN {
      rv, written := Importer.ProcessProvisioningFile(lines, env);
    }
  }
}
