/**
 * The client registry of the mail providers (crates/common/src/state.rs:10-92): a map behind an asynchronous lock, with
 * a double-checked `get_or_try_insert_with` that holds no lock while a client is built.
 */
module ProviderStates {
  import opened Wrappers

  type Account = string

  /** A client instance, by identity. */
  type Client = nat

  type Clients = map<Account, Client>

  // ---------------------------------------------------------------- the registry

  /** A write of another task. */
  datatype Update = Put(account: Account, client: Client) | Drop(account: Account)

  function Updated(clients: Clients, u: Update): (r: Clients) {
    match u
    case Put(account, client) => clients[account := client]
    case Drop(account) => clients - {account}
  }

  function UpdatedAll(clients: Clients, updates: seq<Update>): (r: Clients) {
    if updates == [] then clients
    else Updated(UpdatedAll(clients, updates[..|updates| - 1]), updates[|updates| - 1])
  }

  /** Second half of a miss, under the write lock: an entry that appeared meanwhile wins over the one just built. */
  function Cached(clients: Clients, account: Account, built: Client): (r: (Clients, Client)) {
    if account in clients then (clients, clients[account]) else (clients[account := built], built)
  }

  class ProviderState {
    var clients: Clients

    constructor ()
      ensures clients == map[]
    {
      clients := map[];
    }

    method Get(account: Account) returns (r: Result<Client, string>)
      ensures if account in clients then r == Ok(clients[account]) else r.Err?
    {
      if account in clients {
        r := Ok(clients[account]);
      } else {
        r := Err("client not initialized for account " + account);
      }
    }

    method Insert(account: Account, client: Client)
      modifies this
      ensures clients == Updated(old(clients), Put(account, client))
    {
      clients := clients[account := client];
    }

    method Remove(account: Account)
      modifies this
      ensures clients == Updated(old(clients), Drop(account))
    {
      clients := clients - {account};
    }

    /**
     * `build` is what the builder comes to, `meanwhile` what other tasks write while it is awaited. A hit returns the
     * entry and builds nothing; a failed build writes nothing; a client cached meanwhile is returned in place of ours.
     */
    method GetOrTryInsertWith(account: Account, build: Result<Client, string>, meanwhile: seq<Update>)
      returns (r: Result<Client, string>)
      modifies this
      ensures account in old(clients) ==> r == Ok(old(clients)[account]) && clients == old(clients)
      ensures account !in old(clients) ==>
                var seen := UpdatedAll(old(clients), meanwhile);
                match build
                case Err(error) => r == Err(error) && clients == seen
                case Ok(built) => clients == Cached(seen, account, built).0 && r == Ok(Cached(seen, account, built).1)
      ensures r.Ok? ==> account in clients && r.value == clients[account]
    {
      if account in clients {
        return Ok(clients[account]);
      }
      for i := 0 to |meanwhile|
        invariant clients == UpdatedAll(old(clients), meanwhile[..i])
      {
        assert meanwhile[..i + 1][..i] == meanwhile[..i];
        clients := Updated(clients, meanwhile[i]);
      }
      assert meanwhile[..|meanwhile|] == meanwhile;
      if build.Err? {
        return Err(build.error);
      }
      if account in clients {
        return Ok(clients[account]);
      }
      clients := clients[account := build.value];
      r := Ok(build.value);
    }
  }

  // ---------------------------------------------------------------- concurrent calls

  type CallId = nat

  /** Where one call of `get_or_try_insert_with` is. */
  datatype Call =
    | Building(account: Account)
    | Built(account: Account, built: Client)
    | Returned(account: Account, result: Result<Client, string>)

  datatype System = System(clients: Clients, calls: map<CallId, Call>)

  /** What happens next: a step of a call, or a write of another task. */
  datatype Act =
    | Lookup(id: CallId, account: Account)
    | BuildEnds(id: CallId, result: Result<Client, string>)
    | StoreOrYield(id: CallId)
    | Write(update: Update)

  predicate Enabled(s: System, a: Act) {
    match a
    case Lookup(id, _) => id !in s.calls
    case BuildEnds(id, _) => id in s.calls && s.calls[id].Building?
    case StoreOrYield(id) => id in s.calls && s.calls[id].Built?
    case Write(_) => true
  }

  function Step(s: System, a: Act): (r: System)
    requires Enabled(s, a)
  {
    match a
    case Lookup(id, account) =>
      s.(calls := s.calls[id := if account in s.clients then Returned(account, Ok(s.clients[account])) else Building(account)])
    case BuildEnds(id, result) =>
      var account := s.calls[id].account;
      s.(calls := s.calls[id := match result case Ok(built) => Built(account, built) case Err(error) => Returned(account, Err(error))])
    case StoreOrYield(id) =>
      var account := s.calls[id].account;
      var (clients, client) := Cached(s.clients, account, s.calls[id].built);
      System(clients, s.calls[id := Returned(account, Ok(client))])
    case Write(update) => s.(clients := Updated(s.clients, update))
  }

  ghost predicate Legal(s: System, acts: seq<Act>)
    decreases acts
  {
    acts == [] || (Enabled(s, acts[0]) && Legal(Step(s, acts[0]), acts[1..]))
  }

  ghost function After(s: System, acts: seq<Act>): (r: System)
    requires Legal(s, acts)
    decreases acts
  {
    if acts == [] then s else After(Step(s, acts[0]), acts[1..])
  }

  /** No other task inserts or removes this account's client. */
  predicate LeftAlone(acts: seq<Act>, account: Account) {
    forall i :: 0 <= i < |acts| && acts[i].Write? ==> acts[i].update.account != account
  }

  /** Every successful call for the account returned the entry that is cached now. */
  ghost predicate Agreed(s: System, account: Account) {
    forall id :: id in s.calls && s.calls[id].Returned? && s.calls[id].account == account && s.calls[id].result.Ok? ==>
      account in s.clients && s.calls[id].result.value == s.clients[account]
  }

  /**
   * Over every interleaving of concurrent calls in which no other task touches the account: its entry once set never
   * changes, and every successful call returns that same first-cached client.
   */
  lemma {:induction false} FirstCachedStays(s: System, acts: seq<Act>, account: Account)
    requires Legal(s, acts) && LeftAlone(acts, account) && Agreed(s, account)
    ensures Agreed(After(s, acts), account)
    ensures account in s.clients ==> account in After(s, acts).clients && After(s, acts).clients[account] == s.clients[account]
    decreases acts
  {
    if acts != [] {
      var next := Step(s, acts[0]);
      assert acts[0].Write? ==> acts[0].update.account != account;
      assert forall i :: 0 <= i < |acts[1..]| ==> acts[1..][i] == acts[i + 1];
      FirstCachedStays(next, acts[1..], account);
    }
  }

  /** Two calls that both succeed return the same client, whenever each of them returned. */
  lemma AllCallsAgree(s: System, acts: seq<Act>, account: Account, a: CallId, b: CallId)
    requires s.calls == map[] && Legal(s, acts) && LeftAlone(acts, account)
    requires var calls := After(s, acts).calls;
             a in calls && b in calls && calls[a].account == calls[b].account == account
             && calls[a].Returned? && calls[a].result.Ok? && calls[b].Returned? && calls[b].result.Ok?
    ensures After(s, acts).calls[a].result == After(s, acts).calls[b].result
  {
    FirstCachedStays(s, acts, account);
  }

  /** The client cached for the account in a run was there at the start or built by a call for it. */
  ghost predicate FromACall(s: System, acts: seq<Act>, account: Account, client: Client)
    requires Legal(s, acts)
  {
    exists i :: 0 <= i < |acts| && BuiltBy(s, acts, i, account, client)
  }

  ghost predicate BuiltBy(s: System, acts: seq<Act>, i: nat, account: Account, client: Client)
    requires Legal(s, acts) && i < |acts|
    decreases acts
  {
    if i == 0 then
      && acts[0].BuildEnds? && acts[0].result == Ok(client)
      && s.calls[acts[0].id].account == account
    else BuiltBy(Step(s, acts[0]), acts[1..], i - 1, account, client)
  }

  /** Nothing is cached for an account but what was there, what another task put there, or what a call for it built. */
  lemma CachedWasBuilt(s: System, acts: seq<Act>, account: Account)
    requires Legal(s, acts) && LeftAlone(acts, account) && account !in s.clients
    requires forall id :: id in s.calls ==> !s.calls[id].Built? || s.calls[id].account != account
    requires account in After(s, acts).clients
    ensures FromACall(s, acts, account, After(s, acts).clients[account])
  {
    BuiltOrPending(s, acts, account);
  }

  lemma {:induction false} BuiltOrPending(s: System, acts: seq<Act>, account: Account)
    requires Legal(s, acts) && LeftAlone(acts, account) && account !in s.clients && account in After(s, acts).clients
    ensures var client := After(s, acts).clients[account];
            FromACall(s, acts, account, client) || exists id :: id in s.calls && s.calls[id] == Built(account, client)
    decreases acts
  {
    var next, rest := Step(s, acts[0]), acts[1..];
    var client := After(s, acts).clients[account];
    assert acts[0].Write? ==> acts[0].update.account != account;
    assert forall i :: 0 <= i < |rest| ==> rest[i] == acts[i + 1];
    if account in next.clients {
      FirstSet(next, rest, account);
      assert acts[0].StoreOrYield? && s.calls[acts[0].id] == Built(account, next.clients[account]);
    } else {
      BuiltOrPending(next, rest, account);
      if FromACall(next, rest, account, client) {
        var i :| 0 <= i < |rest| && BuiltBy(next, rest, i, account, client);
        assert BuiltBy(s, acts, i + 1, account, client);
      } else {
        var id :| id in next.calls && next.calls[id] == Built(account, client);
        if !(id in s.calls && s.calls[id] == Built(account, client)) {
          assert BuiltBy(s, acts, 0, account, client);
        }
      }
    }
  }

  lemma {:induction false} FirstSet(s: System, acts: seq<Act>, account: Account)
    requires Legal(s, acts) && LeftAlone(acts, account) && account in s.clients
    ensures account in After(s, acts).clients && After(s, acts).clients[account] == s.clients[account]
    decreases acts
  {
    if acts != [] {
      assert acts[0].Write? ==> acts[0].update.account != account;
      assert forall i :: 0 <= i < |acts[1..]| ==> acts[1..][i] == acts[i + 1];
      FirstSet(Step(s, acts[0]), acts[1..], account);
    }
  }

  /** A call that misses, builds and stores with nobody in between. */
  function CallAlone(id: CallId, account: Account, built: Client): (r: seq<Act>) {
    [Lookup(id, account), BuildEnds(id, Ok(built)), StoreOrYield(id)]
  }

  lemma CallAloneStores(s: System, id: CallId, account: Account, built: Client)
    requires id !in s.calls && account !in s.clients
    ensures Legal(s, CallAlone(id, account, built))
    ensures After(s, CallAlone(id, account, built)) ==
            System(s.clients[account := built], s.calls[id := Returned(account, Ok(built))])
  {
    var acts := CallAlone(id, account, built);
    var s1 := Step(s, acts[0]);
    var s2 := Step(s1, acts[1]);
    var s3 := Step(s2, acts[2]);
    assert acts[2..] == [acts[2]] && acts[1..][1..] == acts[2..] && acts[2..][1..] == [];
    assert Legal(s3, []) && Legal(s2, acts[2..]) && Legal(s1, acts[1..]);
    assert After(s2, acts[2..]) == s3 && After(s1, acts[1..]) == s3;
    assert s3.calls == s.calls[id := Returned(account, Ok(built))];
  }

  /** A removal between two calls breaks the agreement: each returns its own client. */
  lemma RemovalSplitsCalls(account: Account, c: Client, d: Client)
    ensures var s := System(map[], map[]);
            && Legal(s, CallAlone(0, account, c))
            && var removed := Step(After(s, CallAlone(0, account, c)), Write(Drop(account)));
               && Legal(removed, CallAlone(1, account, d))
               && After(removed, CallAlone(1, account, d)).calls == map[0 := Returned(account, Ok(c)), 1 := Returned(account, Ok(d))]
  {
    var s := System(map[], map[]);
    CallAloneStores(s, 0, account, c);
    CallAloneStores(Step(After(s, CallAlone(0, account, c)), Write(Drop(account))), 1, account, d);
  }
}
