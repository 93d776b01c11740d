/**
 * The frontend's `accounts` store slice: the account id, the reducers that
 * upsert, remove, reorder and flag accounts while keeping track of the
 * current account, and the list of pinned servers.
 */
module Accounts {
  import opened Wrappers
  import opened EntityAdapter
  import opened Servers
  import UsersProto
  import IdMarshaling
  import Base58

  /**
   * `JonlineAccount`: a user signed in on a server, with the two sync flags
   * the reducers set. The credential fields are not part of this model.
   */
  datatype Account = Account(
    server: Server,
    user: UsersProto.User,
    lastSyncFailed: Option<bool>,
    needsReauthentication: Option<bool>)

  /** `PinnedServer`: a server shown next to the current one, with the account used on it. */
  datatype PinnedServer = PinnedServer(serverId: string, accountId: Option<string>, pinned: bool)

  /** The entity key of an account: `serverID(server) + "-" + user.id`. */
  function AccountKey(a: Account): string {
    ServerId(a.server) + "-" + a.user.id
  }

  /** The key is the server id, a `-`, and the user id. */
  lemma AccountKeyParts(a: Account)
    ensures var key := AccountKey(a);
      |key| == |ServerId(a.server)| + 1 + |a.user.id| &&
      key[..|ServerId(a.server)|] == ServerId(a.server) &&
      key[|ServerId(a.server)|] == '-' &&
      key[|ServerId(a.server)| + 1..] == a.user.id
  {
  }

  /** `accountID`: undefined for no account, the entity key otherwise. */
  function AccountId(a: Option<Account>): (id: Option<string>)
    ensures a.None? <==> id.None?
    ensures a.Some? ==> id == Some(AccountKey(a.value))
  {
    match a
    case None => None
    case Some(account) => Some(AccountKey(account))
  }

  /**
   * When user ids contain no `-`, an account key determines the server id and
   * the user id: the user id is what follows the last `-`.
   */
  lemma AccountKeyInjective(a: Account, b: Account)
    requires '-' !in a.user.id && '-' !in b.user.id
    ensures AccountKey(a) == AccountKey(b) <==>
      ServerId(a.server) == ServerId(b.server) && a.user.id == b.user.id
  {
    var ka, kb := AccountKey(a), AccountKey(b);
    AccountKeyParts(a);
    AccountKeyParts(b);
    if ka == kb {
      var ua, ub := a.user.id, b.user.id;
      assert |ua| == |ub|;
      assert ServerId(a.server) == ka[..|ka| - |ua| - 1] == ServerId(b.server);
    }
  }

  /** The ids the backend hands out are Base58 and so never contain `-`. */
  lemma ProtoIdsHaveNoDash(k: IdMarshaling.i64)
    ensures '-' !in IdMarshaling.ToProtoId(k)
  {
    assert !Base58.IsBase58Char('-');
  }

  /** Without that property two different accounts can share a key. */
  lemma AccountKeyCollision()
    ensures var a := Account(Server("a", false, None, None), UsersProto.CreateBaseUser().(id := "b-c"), None, None);
      var b := Account(Server("a-b", false, None, None), UsersProto.CreateBaseUser().(id := "c"), None, None);
      AccountKey(a) == AccountKey(b) && ServerId(a.server) != ServerId(b.server)
  {
    var a := Account(Server("a", false, None, None), UsersProto.CreateBaseUser().(id := "b-c"), None, None);
    var b := Account(Server("a-b", false, None, None), UsersProto.CreateBaseUser().(id := "c"), None, None);
    assert AccountKey(a) == "http:a-b-c" == AccountKey(b);
    ServerIdInjective(a.server, b.server);
  }

  // ---------------------------------------------------------------------------
  // The slice

  datatype AccountsState = AccountsState(
    status: LoadStatus,
    successMessage: Option<string>,
    errorMessage: Option<string>,
    account: Option<Account>,
    pinnedServers: seq<PinnedServer>,
    store: EntityState<Account>)

  /** The adapter's invariant, with every account stored under its own key. */
  ghost predicate Keyed(st: AccountsState) {
    Valid(st.store) && forall id :: id in st.store.entities ==> AccountKey(st.store.entities[id]) == id
  }

  /** `initialState`. */
  function InitialState(): (st: AccountsState)
    ensures Keyed(st) && st.status == Unloaded && st.account.None?
    ensures st.pinnedServers == [] && st.store.ids == []
  {
    AccountsState(Unloaded, None, None, None, [], Empty())
  }

  /** `Object.assign(existing, payload)`: the payload's server and user, and its sync flags where set. */
  function MergeAccount(existing: Account, payload: Account): (m: Account)
    ensures m.server == payload.server && m.user == payload.user
    ensures m.lastSyncFailed == (if payload.lastSyncFailed.Some? then payload.lastSyncFailed else existing.lastSyncFailed)
    ensures m.needsReauthentication ==
      (if payload.needsReauthentication.Some? then payload.needsReauthentication else existing.needsReauthentication)
    ensures AccountKey(m) == AccountKey(payload)
  {
    Account(
      payload.server,
      payload.user,
      if payload.lastSyncFailed.Some? then payload.lastSyncFailed else existing.lastSyncFailed,
      if payload.needsReauthentication.Some? then payload.needsReauthentication else existing.needsReauthentication)
  }

  /** Upserting an account under its own key keeps the store keyed. */
  lemma UpsertKeepsKeyed(st: AccountsState, value: Account)
    requires Keyed(st)
    ensures Keyed(st.(store := UpsertOne(st.store, AccountKey(value), value)))
  {
  }

  /** `accountsAdapter.upsertOne` keyed by `accountID`. */
  function UpsertAccountEntity(st: AccountsState, payload: Account): (r: AccountsState)
    requires Keyed(st)
    ensures Keyed(r)
    ensures AccountKey(payload) in r.store.entities
    ensures AccountKey(payload) !in st.store.entities ==>
      r.store.entities[AccountKey(payload)] == payload && r.store.ids == st.store.ids + [AccountKey(payload)]
    ensures AccountKey(payload) in st.store.entities ==>
      r.store.entities[AccountKey(payload)] == MergeAccount(st.store.entities[AccountKey(payload)], payload) &&
      r.store.ids == st.store.ids
    ensures forall id :: id != AccountKey(payload) ==> (id in r.store.entities <==> id in st.store.entities)
    ensures forall id :: id in st.store.entities && id != AccountKey(payload) ==>
      r.store.entities[id] == st.store.entities[id]
    ensures r == st.(store := r.store)
  {
    var key := AccountKey(payload);
    var value := if key in st.store.entities then MergeAccount(st.store.entities[key], payload) else payload;
    UpsertKeepsKeyed(st, value);
    st.(store := UpsertOne(st.store, key, value))
  }

  /**
   * `upsertAccount`: the account is upserted, and it replaces the current
   * account only when the current account has its id.
   */
  function UpsertAccount(st: AccountsState, payload: Account): (r: AccountsState)
    requires Keyed(st)
    ensures Keyed(r)
    ensures r.store == UpsertAccountEntity(st, payload).store
    ensures AccountId(st.account) == Some(AccountKey(payload)) ==> r.account == Some(payload)
    ensures AccountId(st.account) != Some(AccountKey(payload)) ==> r.account == st.account
    ensures r == st.(store := r.store, account := r.account)
  {
    var upserted := UpsertAccountEntity(st, payload);
    if AccountId(st.account) == AccountId(Some(payload)) then upserted.(account := Some(payload)) else upserted
  }

  /** `removeAccount`: the entity goes, and the current account is cleared exactly when it has that id. */
  function RemoveAccount(st: AccountsState, id: string): (r: AccountsState)
    requires Keyed(st)
    ensures Keyed(r)
    ensures r.store.entities == st.store.entities - {id}
    ensures r.store.ids == Without(st.store.ids, id)
    ensures AccountId(st.account) == Some(id) ==> r.account.None?
    ensures AccountId(st.account) != Some(id) ==> r.account == st.account
    ensures r == st.(store := r.store, account := r.account)
  {
    var account := if AccountId(st.account) == Some(id) then None else st.account;
    st.(account := account, store := RemoveOne(st.store, id))
  }

  /** What `selectAccount` does to the state, and whether it resets credentialed data. */
  datatype AccountSelection = AccountSelection(state: AccountsState, resetsCredentials: bool)

  /**
   * `selectAccount`: the payload (possibly none) becomes the current
   * account; credentialed data is reset when the account id changes.
   */
  function SelectAccount(st: AccountsState, payload: Option<Account>): (r: AccountSelection)
    ensures r.state == st.(account := payload)
    ensures r.resetsCredentials <==> AccountId(st.account) != AccountId(payload)
  {
    AccountSelection(st.(account := payload), AccountId(st.account) != AccountId(payload))
  }

  /** Selecting the same account again resets nothing. */
  lemma SelectAccountIdempotent(st: AccountsState, payload: Option<Account>)
    ensures var once := SelectAccount(st, payload).state;
      SelectAccount(once, payload) == AccountSelection(once, false)
  {
  }

  /** Replacing entities by ones with the same keys keeps the store keyed. */
  lemma UpdateKeepsKeyed(st: AccountsState, entities: map<string, Account>)
    requires Keyed(st)
    requires entities.Keys == st.store.entities.Keys
    requires forall id :: id in entities ==> AccountKey(entities[id]) == AccountKey(st.store.entities[id])
    ensures Keyed(st.(store := st.store.(entities := entities)))
  {
  }

  /** The account belongs to the given user on the given server. */
  predicate SameUser(a: Account, user: UsersProto.User, server: Server) {
    ServerId(a.server) == ServerId(server) && a.user.id == user.id
  }

  /**
   * `upsertUserData`: every stored account of that user on that server gets
   * the new user data; nothing else changes, the current account included.
   */
  function UpsertUserData(st: AccountsState, user: UsersProto.User, server: Server): (r: AccountsState)
    requires Keyed(st)
    ensures Keyed(r)
    ensures r.store.ids == st.store.ids && r.store.entities.Keys == st.store.entities.Keys
    ensures forall id :: id in st.store.entities && SameUser(st.store.entities[id], user, server) ==>
      r.store.entities[id] == st.store.entities[id].(user := user)
    ensures forall id :: id in st.store.entities && !SameUser(st.store.entities[id], user, server) ==>
      r.store.entities[id] == st.store.entities[id]
    ensures r == st.(store := r.store)
  {
    var e := st.store.entities;
    var entities := map id | id in e :: if SameUser(e[id], user, server) then e[id].(user := user) else e[id];
    UpdateKeepsKeyed(st, entities);
    st.(store := st.store.(entities := entities))
  }

  /** Whether some stored account of that user on that server has the current account's id. */
  predicate CurrentIsDeleted(st: AccountsState, user: UsersProto.User, server: Server) {
    st.account.Some? &&
    exists id :: id in st.store.entities && SameUser(st.store.entities[id], user, server) &&
      AccountKey(st.store.entities[id]) == AccountKey(st.account.value)
  }

  /**
   * `notifyUserDeleted`: every stored account of that user on that server is
   * flagged as failed to sync and needing reauthentication, and the current
   * account is cleared when it is one of them; nothing else changes.
   */
  function NotifyUserDeleted(st: AccountsState, user: UsersProto.User, server: Server): (r: AccountsState)
    requires Keyed(st)
    ensures Keyed(r)
    ensures r.store.ids == st.store.ids && r.store.entities.Keys == st.store.entities.Keys
    ensures forall id :: id in st.store.entities && SameUser(st.store.entities[id], user, server) ==>
      r.store.entities[id] ==
        st.store.entities[id].(needsReauthentication := Some(true), lastSyncFailed := Some(true))
    ensures forall id :: id in st.store.entities && !SameUser(st.store.entities[id], user, server) ==>
      r.store.entities[id] == st.store.entities[id]
    ensures CurrentIsDeleted(st, user, server) ==> r.account.None?
    ensures !CurrentIsDeleted(st, user, server) ==> r.account == st.account
    ensures r == st.(store := r.store, account := r.account)
  {
    var e := st.store.entities;
    var entities := map id | id in e ::
      if SameUser(e[id], user, server) then e[id].(needsReauthentication := Some(true), lastSyncFailed := Some(true))
      else e[id];
    UpdateKeepsKeyed(st, entities);
    var account := if CurrentIsDeleted(st, user, server) then None else st.account;
    st.(account := account, store := st.store.(entities := entities))
  }

  /**
   * In a keyed store at most one account belongs to a user on a server, the
   * one under `serverID + "-" + userId`, so the current account is cleared
   * exactly when it has that key and the account stored under it is that
   * user's.
   */
  lemma NotifyUserDeletedClearsOnlyThatKey(st: AccountsState, user: UsersProto.User, server: Server)
    requires Keyed(st)
    ensures var k := ServerId(server) + "-" + user.id;
      CurrentIsDeleted(st, user, server) <==>
        st.account.Some? && AccountKey(st.account.value) == k &&
        k in st.store.entities && SameUser(st.store.entities[k], user, server)
  {
    var k := ServerId(server) + "-" + user.id;
    if CurrentIsDeleted(st, user, server) {
      var id :| id in st.store.entities && SameUser(st.store.entities[id], user, server) &&
        AccountKey(st.store.entities[id]) == AccountKey(st.account.value);
      assert AccountKey(st.store.entities[id]) == k;
    }
  }

  /** `moveAccountUp`: the same reordering as `moveServerUp`, on the account ids. */
  function MoveAccountUp(st: AccountsState, id: string): (r: AccountsState)
    requires Keyed(st)
    ensures Keyed(r)
    ensures r.store.entities == st.store.entities && r.account == st.account && r.pinnedServers == st.pinnedServers
    ensures MovedUp(st.store.ids, r.store.ids, id)
    ensures r == st.(store := r.store)
  {
    st.(store := MoveIdUp(st.store, id))
  }

  /** `moveAccountDown`: the same reordering as `moveServerDown`, on the account ids. */
  function MoveAccountDown(st: AccountsState, id: string): (r: AccountsState)
    requires Keyed(st)
    ensures Keyed(r)
    ensures r.store.entities == st.store.entities && r.account == st.account && r.pinnedServers == st.pinnedServers
    ensures MovedDown(st.store.ids, r.store.ids, id)
    ensures r == st.(store := r.store)
  {
    st.(store := MoveIdDown(st.store, id))
  }

  // ---------------------------------------------------------------------------
  // Pinned servers

  /** `pinnedServers.find(s => s.serverId === serverId)`, as a position: the first match, or -1. */
  function FindPin(pins: seq<PinnedServer>, serverId: string): (i: int)
    ensures -1 <= i < |pins|
    ensures i == -1 <==> forall k :: 0 <= k < |pins| ==> pins[k].serverId != serverId
    ensures i >= 0 ==> pins[i].serverId == serverId && forall k :: 0 <= k < i ==> pins[k].serverId != serverId
  {
    if |pins| == 0 then -1
    else if pins[0].serverId == serverId then 0
    else
      var i := FindPin(pins[1..], serverId);
      assert forall k :: 1 <= k < |pins| ==> pins[k] == pins[1..][k - 1];
      if i == -1 then -1 else i + 1
  }

  /** No two pins name the same server. */
  predicate UniquePins(pins: seq<PinnedServer>) {
    forall i, j :: 0 <= i < j < |pins| ==> pins[i].serverId != pins[j].serverId
  }

  /**
   * `pinServer`: an existing pin for the server takes the payload's
   * `pinned`, and its account unless the payload has none; otherwise the
   * payload is appended. At most one pin per server is kept.
   */
  function PinServer(st: AccountsState, payload: PinnedServer): (r: AccountsState)
    ensures var i := FindPin(st.pinnedServers, payload.serverId);
      i >= 0 ==> r.pinnedServers == st.pinnedServers[i := PinnedServer(
        payload.serverId,
        if payload.accountId.Some? then payload.accountId else st.pinnedServers[i].accountId,
        payload.pinned)]
    ensures FindPin(st.pinnedServers, payload.serverId) == -1 ==> r.pinnedServers == st.pinnedServers + [payload]
    ensures UniquePins(st.pinnedServers) ==> UniquePins(r.pinnedServers)
    ensures r == st.(pinnedServers := r.pinnedServers)
  {
    var pins := st.pinnedServers;
    var i := FindPin(pins, payload.serverId);
    if i >= 0 then
      var existing := pins[i];
      var accountId := if payload.accountId.Some? then payload.accountId else existing.accountId;
      st.(pinnedServers := pins[i := existing.(accountId := accountId, pinned := payload.pinned)])
    else st.(pinnedServers := pins + [payload])
  }

  /**
   * `pinAccount`: an existing pin for the account's server is pointed at the
   * account and keeps its `pinned`; otherwise an unpinned pin for it is
   * appended.
   */
  function PinAccount(st: AccountsState, payload: Account): (r: AccountsState)
    ensures var i := FindPin(st.pinnedServers, ServerId(payload.server));
      i >= 0 ==> r.pinnedServers == st.pinnedServers[i := st.pinnedServers[i].(accountId := Some(AccountKey(payload)))]
    ensures FindPin(st.pinnedServers, ServerId(payload.server)) == -1 ==>
      r.pinnedServers == st.pinnedServers + [PinnedServer(ServerId(payload.server), Some(AccountKey(payload)), false)]
    ensures UniquePins(st.pinnedServers) ==> UniquePins(r.pinnedServers)
    ensures r == st.(pinnedServers := r.pinnedServers)
  {
    var pins := st.pinnedServers;
    var serverId := ServerId(payload.server);
    var i := FindPin(pins, serverId);
    if i >= 0 then st.(pinnedServers := pins[i := pins[i].(accountId := AccountId(Some(payload)))])
    else st.(pinnedServers := pins + [PinnedServer(serverId, AccountId(Some(payload)), false)])
  }

  /** The first pin for a server is where `FindPin` finds it. */
  lemma FindPinIs(pins: seq<PinnedServer>, serverId: string, j: nat)
    requires j < |pins| && pins[j].serverId == serverId
    requires forall k :: 0 <= k < j ==> pins[k].serverId != serverId
    ensures FindPin(pins, serverId) == j
  {
  }

  /** After pinning an account its server has exactly one pin, and that pin names the account. */
  lemma PinAccountPinsOnce(st: AccountsState, payload: Account)
    requires UniquePins(st.pinnedServers)
    ensures var pins := PinAccount(st, payload).pinnedServers;
      var i := FindPin(pins, ServerId(payload.server));
      i >= 0 && pins[i].accountId == Some(AccountKey(payload)) &&
      forall k :: 0 <= k < |pins| && k != i ==> pins[k].serverId != ServerId(payload.server)
  {
    var pins := PinAccount(st, payload).pinnedServers;
    var sid := ServerId(payload.server);
    var i := FindPin(st.pinnedServers, sid);
    var j := if i >= 0 then i else |st.pinnedServers|;
    assert pins[j].serverId == sid && pins[j].accountId == Some(AccountKey(payload));
    forall k | 0 <= k < |pins| && k != j ensures pins[k].serverId != sid {
      if k < j { assert pins[j].serverId != pins[k].serverId; } else { assert pins[k].serverId != pins[j].serverId; }
    }
    FindPinIs(pins, sid, j);
  }

  // ---------------------------------------------------------------------------
  // Async results

  /**
   * `login.fulfilled`: the account is upserted with both sync flags cleared
   * and becomes the current account, and the slice greets the user.
   */
  function LoginFulfilled(st: AccountsState, payload: Account): (r: AccountsState)
    requires Keyed(st)
    ensures Keyed(r)
    ensures r.status == Loaded && r.account == Some(payload)
    ensures r.successMessage == Some("Logged in as " + payload.user.username)
    ensures AccountKey(payload) in r.store.entities
    ensures var stored := r.store.entities[AccountKey(payload)];
      stored.server == payload.server && stored.user == payload.user &&
      stored.lastSyncFailed == Some(false) && stored.needsReauthentication == Some(false)
    ensures forall id :: id in st.store.entities && id != AccountKey(payload) ==>
      id in r.store.entities && r.store.entities[id] == st.store.entities[id]
    ensures r.errorMessage == st.errorMessage && r.pinnedServers == st.pinnedServers
    ensures r.store == UpsertAccountEntity(st, payload.(lastSyncFailed := Some(false), needsReauthentication := Some(false))).store
  {
    var flagged := payload.(lastSyncFailed := Some(false), needsReauthentication := Some(false));
    assert AccountKey(flagged) == AccountKey(payload);
    var upserted := UpsertAccountEntity(st, flagged);
    upserted.(status := Loaded, account := Some(payload), successMessage := Some("Logged in as " + payload.user.username))
  }

  /** `createAccount.fulfilled`: the account is upserted as given and becomes the current account. */
  function CreateAccountFulfilled(st: AccountsState, payload: Account): (r: AccountsState)
    requires Keyed(st)
    ensures Keyed(r)
    ensures r.status == Loaded && r.account == Some(payload)
    ensures r.successMessage == Some("Created account " + payload.user.username)
    ensures r.store == UpsertAccountEntity(st, payload).store
    ensures r.errorMessage == st.errorMessage && r.pinnedServers == st.pinnedServers
  {
    UpsertAccountEntity(st, payload).(
      status := Loaded, account := Some(payload), successMessage := Some("Created account " + payload.user.username))
  }

  /**
   * `upsertServer.fulfilled` as seen by the accounts: every stored account on
   * that server takes the new server value; keys do not change.
   */
  function UpsertServerFulfilled(st: AccountsState, server: Server): (r: AccountsState)
    requires Keyed(st)
    ensures Keyed(r)
    ensures r.store.ids == st.store.ids && r.store.entities.Keys == st.store.entities.Keys
    ensures forall id :: id in st.store.entities && ServerId(st.store.entities[id].server) == ServerId(server) ==>
      r.store.entities[id] == st.store.entities[id].(server := server)
    ensures forall id :: id in st.store.entities && ServerId(st.store.entities[id].server) != ServerId(server) ==>
      r.store.entities[id] == st.store.entities[id]
    ensures r == st.(store := r.store)
  {
    var e := st.store.entities;
    var entities := map id | id in e :: if ServerId(e[id].server) == ServerId(server) then e[id].(server := server) else e[id];
    UpdateKeepsKeyed(st, entities);
    st.(store := st.store.(entities := entities))
  }
}
