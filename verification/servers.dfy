/**
 * The frontend's `servers` store slice: the server id and URL builders, and
 * the reducers that remove, select, reorder and upsert servers while keeping
 * track of the current server.
 */
module Servers {
  import opened Wrappers
  import opened EntityAdapter
  import ServerConfigurationProto

  /** `GetServiceVersionResponse`. */
  datatype ServiceVersion = ServiceVersion(version: string)

  /**
   * `JonlineServer`: a host, whether it is reached over TLS, and what the
   * client last learnt about it.
   */
  datatype Server = Server(
    host: string,
    secure: bool,
    serviceVersion: Option<ServiceVersion>,
    serverConfiguration: Option<ServerConfigurationProto.ServerConfiguration>)

  function Scheme(secure: bool): string {
    if secure then "https" else "http"
  }

  /** `serverID`: the entity key, `http:host` or `https:host`. */
  function ServerId(s: Server): string {
    Scheme(s.secure) + ":" + s.host
  }

  /** The id is `http`, an `s` exactly for secure servers, a colon, and the host. */
  lemma ServerIdParts(s: Server)
    ensures var id := ServerId(s);
      |id| == |s.host| + (if s.secure then 6 else 5) &&
      id[..4] == "http" && id[|id| - |s.host|..] == s.host &&
      (id[4] == 's' <==> s.secure) &&
      id[|id| - |s.host| - 1] == ':'
  {
  }

  /** Two servers share an id exactly when they agree on host and on `secure`. */
  lemma ServerIdInjective(a: Server, b: Server)
    ensures ServerId(a) == ServerId(b) <==> a.host == b.host && a.secure == b.secure
  {
    ServerIdParts(a);
    ServerIdParts(b);
    if ServerId(a) == ServerId(b) {
      var id := ServerId(a);
      assert a.secure == b.secure by {
        assert id[4] == 's' <==> a.secure;
        assert id[4] == 's' <==> b.secure;
      }
      assert a.host == id[|id| - |a.host|..] == b.host;
    }
  }

  /** `serverUrl`. */
  function ServerUrl(s: Server): (url: string)
    ensures |url| == |s.host| + (if s.secure then 8 else 7)
    ensures url[..4] == "http" && url[|url| - |s.host|..] == s.host
    ensures url[4] == 's' <==> s.secure
  {
    Scheme(s.secure) + "://" + s.host
  }

  /** The URL is the server id with `//` put after the colon, so it names the same server. */
  lemma ServerUrlOfId(s: Server)
    ensures var id := ServerId(s);
      ServerUrl(s) == id[..|id| - |s.host|] + "//" + s.host
  {
    var id := ServerId(s);
    ServerIdParts(s);
    assert id[..|id| - |s.host|] == Scheme(s.secure) + ":";
  }

  /** The external CDN configuration the server advertises, if any. */
  function CdnConfig(s: Server): (c: Option<ServerConfigurationProto.ExternalCdnConfig>)
    ensures c.Some? <==> s.serverConfiguration.Some? && s.serverConfiguration.value.externalCdnConfig.Some?
  {
    match s.serverConfiguration
    case None => None
    case Some(config) => config.externalCdnConfig
  }

  /**
   * `frontendServerUrl`: the server URL built on the CDN's frontend host
   * when a CDN is configured (even an empty one, since `??` only replaces
   * `undefined`), on the server's own host otherwise.
   */
  function FrontendServerUrl(s: Server): (url: string)
    ensures CdnConfig(s).None? ==> url == ServerUrl(s)
    ensures CdnConfig(s).Some? ==> url == ServerUrl(s.(host := CdnConfig(s).value.frontendHost))
  {
    var host := match CdnConfig(s) case Some(c) => c.frontendHost case None => s.host;
    Scheme(s.secure) + "://" + host
  }

  /** `backendServerUrl`: as `frontendServerUrl`, with the CDN's backend host. */
  function BackendServerUrl(s: Server): (url: string)
    ensures CdnConfig(s).None? ==> url == ServerUrl(s)
    ensures CdnConfig(s).Some? ==> url == ServerUrl(s.(host := CdnConfig(s).value.backendHost))
  {
    var host := match CdnConfig(s) case Some(c) => c.backendHost case None => s.host;
    Scheme(s.secure) + "://" + host
  }

  /** Without a CDN the frontend and backend are the server itself, and share the scheme either way. */
  lemma CdnUrlsAgreeWithoutCdn(s: Server)
    ensures CdnConfig(s).None? ==> FrontendServerUrl(s) == BackendServerUrl(s) == ServerUrl(s)
    ensures FrontendServerUrl(s)[..4] == BackendServerUrl(s)[..4] == "http"
    ensures FrontendServerUrl(s)[4] == 's' <==> s.secure
    ensures BackendServerUrl(s)[4] == 's' <==> s.secure
  {
  }

  // ---------------------------------------------------------------------------
  // The slice

  datatype LoadStatus = Unloaded | Loading | Loaded | Errored

  datatype ServersState = ServersState(
    status: LoadStatus,
    successMessage: Option<string>,
    errorMessage: Option<string>,
    server: Option<Server>,
    store: EntityState<Server>)

  /** The adapter's invariant, with every server stored under its own `serverID`. */
  ghost predicate Keyed(st: ServersState) {
    Valid(st.store) && forall id :: id in st.store.entities ==> ServerId(st.store.entities[id]) == id
  }

  /** `initialState`. */
  function InitialState(): (st: ServersState)
    ensures Keyed(st) && st.status == Unloaded && st.server.None? && |st.store.ids| == 0
  {
    ServersState(Unloaded, None, None, None, Empty())
  }

  /** The servers whose id differs from `pid`, in order. */
  function Others(servers: seq<Server>, pid: string): (r: seq<Server>)
    ensures forall s :: s in r <==> s in servers && ServerId(s) != pid
  {
    if |servers| == 0 then []
    else if ServerId(servers[0]) != pid then [servers[0]] + Others(servers[1..], pid)
    else Others(servers[1..], pid)
  }

  /** Filtering the selected servers by id is selecting from the list with that id removed. */
  lemma {:induction false} OthersOfLookup(ids: seq<string>, entities: map<string, Server>, pid: string)
    requires forall id :: id in ids ==> id in entities && ServerId(entities[id]) == id
    ensures Others(Lookup(ids, entities), pid) == Lookup(Without(ids, pid), entities)
  {
    if |ids| > 0 {
      OthersOfLookup(ids[1..], entities, pid);
      var all := Lookup(ids, entities);
      assert all[1..] == Lookup(ids[1..], entities);
    }
  }

  /** Removing an id keeps every remaining server under its own id. */
  lemma RemoveKeepsKeyed(st: ServersState, pid: string, current: Option<Server>)
    requires Keyed(st)
    ensures Keyed(st.(server := current, store := RemoveOne(st.store, pid)))
  {
  }

  /** The first server with another id, in list order, is the first id left after removal. */
  lemma FirstOther(st: ServersState, pid: string)
    requires Keyed(st)
    ensures var remaining := Others(SelectAll(st.store), pid);
      var ids := Without(st.store.ids, pid);
      |remaining| == |ids| && (|ids| > 0 ==> remaining[0] == st.store.entities[ids[0]])
  {
    OthersOfLookup(st.store.ids, st.store.entities, pid);
  }

  /**
   * `removeServer`: the server's entity and id go. If it was the current
   * server, the current server becomes the first remaining one in list
   * order, or none when no other server is stored.
   */
  function RemoveServer(st: ServersState, payload: Server): (r: ServersState)
    requires Keyed(st)
    ensures Keyed(r)
    ensures r.store.entities == st.store.entities - {ServerId(payload)}
    ensures r.store.ids == Without(st.store.ids, ServerId(payload))
    ensures st.server.Some? && ServerId(st.server.value) == ServerId(payload) ==>
      (r.server.None? <==> |r.store.ids| == 0) &&
      (r.server.Some? ==> r.server == Some(r.store.entities[r.store.ids[0]]))
    ensures !(st.server.Some? && ServerId(st.server.value) == ServerId(payload)) ==> r.server == st.server
    ensures r.status == st.status && r.successMessage == st.successMessage && r.errorMessage == st.errorMessage
  {
    var pid := ServerId(payload);
    var current :=
      if st.server.Some? && ServerId(st.server.value) == pid then
        var remaining := Others(SelectAll(st.store), pid);
        if |remaining| > 0 then Some(remaining[0]) else None
      else st.server;
    FirstOther(st, pid);
    RemoveKeepsKeyed(st, pid, current);
    st.(server := current, store := RemoveOne(st.store, pid))
  }

  /** What `selectServer` does: the new state, and whether it resets credentialed data. */
  datatype Selection = Selection(state: ServersState, resetsCredentials: bool)

  /**
   * `selectServer`: the payload becomes the current server; the
   * credentialed data is reset unless the current server already had the
   * payload's id. An `undefined` payload throws a `TypeError` in `serverID`.
   */
  function SelectServer(st: ServersState, payload: Option<Server>): (r: Result<Selection, string>)
    ensures payload.None? <==> r.Err?
    ensures payload.Some? ==> r.value.state == st.(server := payload)
    ensures payload.Some? ==>
      (r.value.resetsCredentials <==> st.server.None? || ServerId(st.server.value) != ServerId(payload.value))
  {
    match payload
    case None => Err("TypeError")
    case Some(s) =>
      var currentUrl := if st.server.Some? then Some(ServerId(st.server.value)) else None;
      Ok(Selection(st.(server := payload), currentUrl != Some(ServerId(s))))
  }

  /** Selecting the same server again changes nothing and resets nothing. */
  lemma SelectServerIdempotent(st: ServersState, s: Server)
    ensures var once := SelectServer(st, Some(s)).value.state;
      SelectServer(once, Some(s)) == Ok(Selection(once, false))
  {
  }

  /**
   * `moveServerUp`: the id swaps places with its predecessor when it is
   * stored and not first; otherwise nothing changes.
   */
  function MoveServerUp(st: ServersState, id: string): (r: ServersState)
    requires Keyed(st)
    ensures Keyed(r)
    ensures r.status == st.status && r.server == st.server && r.store.entities == st.store.entities
    ensures r.successMessage == st.successMessage && r.errorMessage == st.errorMessage
    ensures MovedUp(st.store.ids, r.store.ids, id)
  {
    st.(store := MoveIdUp(st.store, id))
  }

  /**
   * `moveServerDown`: a stored id that is not last swaps places with its
   * successor; for an id that is not stored, the last id moves to the front.
   */
  function MoveServerDown(st: ServersState, id: string): (r: ServersState)
    requires Keyed(st)
    ensures Keyed(r)
    ensures r.status == st.status && r.server == st.server && r.store.entities == st.store.entities
    ensures r.successMessage == st.successMessage && r.errorMessage == st.errorMessage
    ensures MovedDown(st.store.ids, r.store.ids, id)
  {
    st.(store := MoveIdDown(st.store, id))
  }

  /**
   * `Object.assign(existing, payload)`, as `upsertOne` merges: the payload's
   * host and scheme, and its optional fields where it has them.
   */
  function MergeServer(existing: Server, payload: Server): (m: Server)
    ensures m.host == payload.host && m.secure == payload.secure
    ensures m.serviceVersion == (if payload.serviceVersion.Some? then payload.serviceVersion else existing.serviceVersion)
    ensures m.serverConfiguration ==
      (if payload.serverConfiguration.Some? then payload.serverConfiguration else existing.serverConfiguration)
  {
    Server(
      payload.host,
      payload.secure,
      if payload.serviceVersion.Some? then payload.serviceVersion else existing.serviceVersion,
      if payload.serverConfiguration.Some? then payload.serverConfiguration else existing.serverConfiguration)
  }

  /** `serversAdapter.upsertOne` keyed by `serverID`. */
  function UpsertServerEntity(store: EntityState<Server>, payload: Server): (r: EntityState<Server>)
    requires Valid(store)
    ensures Valid(r)
    ensures ServerId(payload) in r.entities
    ensures ServerId(payload) !in store.entities ==>
      r.entities[ServerId(payload)] == payload && r.ids == store.ids + [ServerId(payload)]
    ensures ServerId(payload) in store.entities ==>
      r.entities[ServerId(payload)] == MergeServer(store.entities[ServerId(payload)], payload) && r.ids == store.ids
    ensures forall id :: id != ServerId(payload) ==> (id in r.entities <==> id in store.entities)
    ensures forall id :: id in store.entities && id != ServerId(payload) ==> r.entities[id] == store.entities[id]
  {
    var id := ServerId(payload);
    var value := if id in store.entities then MergeServer(store.entities[id], payload) else payload;
    UpsertOne(store, id, value)
  }

  /**
   * `upsertServer.fulfilled`: the server is upserted, the slice is loaded
   * with the message "Server added.", and the payload becomes the current
   * server exactly when there was none or the current one has its id.
   */
  function UpsertServerFulfilled(st: ServersState, payload: Server): (r: ServersState)
    requires Keyed(st)
    ensures Keyed(r)
    ensures r.status == Loaded && r.successMessage == Some("Server added.")
    ensures r.errorMessage == st.errorMessage
    ensures r.store == UpsertServerEntity(st.store, payload)
    ensures st.server.None? || ServerId(st.server.value) == ServerId(payload) ==> r.server == Some(payload)
    ensures st.server.Some? && ServerId(st.server.value) != ServerId(payload) ==> r.server == st.server
  {
    var store := UpsertServerEntity(st.store, payload);
    var server := if st.server.None? || ServerId(payload) == ServerId(st.server.value) then Some(payload) else st.server;
    st.(status := Loaded, store := store, server := server, successMessage := Some("Server added."))
  }

  /** After an upsert the stored entity has the payload's id, host and scheme, and a server is current. */
  lemma UpsertServerStoresPayload(st: ServersState, payload: Server)
    requires Keyed(st)
    ensures var r := UpsertServerFulfilled(st, payload);
      var e := r.store.entities[ServerId(payload)];
      e.host == payload.host && e.secure == payload.secure && r.server.Some?
  {
  }
}
