/**
 * The relaying service as the scripts see it through `OneShotClient`: a
 * wallet directory, an endpoint registry that `list` and `create` act on,
 * and `read` and `execute` against registered endpoints. Remote answers
 * come from oracles; every request is appended to a log.
 */
module OneShot {
  import opened Bytes
  import opened Registry
  import opened Relay
  import Authorization

  /** A request sent to the service, as it appears in the log. */
  datatype Request =
    | WalletsList(chainId: nat)
    | EndpointsList(key: Key)
    | EndpointCreate(spec: EndpointSpec)
    | EndpointRead(endpoint: nat, args: ReadArgs)
    | EndpointExecute(endpoint: nat, params: ExecParams, memo: string, authorizations: seq<Authorization.Entry>)

  /**
   * What the service answers and the model does not compute: the wallets
   * it holds per chain and the results of view calls through an endpoint.
   */
  datatype Remote = Remote(
    walletsOn: nat -> seq<Wallet>,
    readAddress: (nat, ReadArgs) -> Address,
    readUint: (nat, ReadArgs) -> nat,
    readBytes: (nat, ReadArgs) -> seq<Byte>)

  /** The requests one find-or-create issues against registry state s. */
  function AssureRequests(s: Registry.State, spec: EndpointSpec): seq<Request>
  {
    [EndpointsList(KeyOf(spec))] + (if Matching(s.endpoints, KeyOf(spec)) == [] then [EndpointCreate(spec)] else [])
  }

  class Client {
    const remote: Remote
    var endpoints: seq<Endpoint>
    var nextId: nat
    var log: seq<Request>

    function State(): Registry.State
      reads this
    {
      Registry.State(endpoints, nextId)
    }

    predicate Valid()
      reads this
    {
      Registry.Valid(State())
    }

    constructor (remote: Remote, initial: Registry.State)
      requires Registry.Valid(initial)
      ensures Valid()
      ensures this.remote == remote && State() == initial && log == []
    {
      this.remote := remote;
      endpoints := initial.endpoints;
      nextId := initial.nextId;
      log := [];
    }

    /** `wallets.list(businessId, { chainId })`. */
    method ListWallets(chainId: nat) returns (wallets: seq<Wallet>)
      modifies this
      ensures wallets == remote.walletsOn(chainId)
      ensures State() == old(State()) && log == old(log) + [WalletsList(chainId)]
    {
      wallets := remote.walletsOn(chainId);
      log := log + [WalletsList(chainId)];
    }

    /** `list(businessId, { name, contractAddress })`. */
    method ListEndpoints(k: Key) returns (found: seq<Endpoint>)
      modifies this
      ensures found == Matching(endpoints, k)
      ensures State() == old(State()) && log == old(log) + [EndpointsList(k)]
    {
      found := Matching(endpoints, k);
      log := log + [EndpointsList(k)];
    }

    /** `create(businessId, spec)`: registers the spec under a fresh id. */
    method Create(spec: EndpointSpec) returns (id: nat)
      requires Valid()
      modifies this
      ensures Valid()
      ensures id == old(nextId)
      ensures endpoints == old(endpoints) + [Endpoint(id, spec)] && nextId == old(nextId) + 1
      ensures log == old(log) + [EndpointCreate(spec)]
    {
      id := nextId;
      endpoints := endpoints + [Endpoint(id, spec)];
      nextId := nextId + 1;
      log := log + [EndpointCreate(spec)];
    }

    /** A `read` whose result is an address. */
    method ReadAddress(endpoint: nat, args: ReadArgs) returns (a: Address)
      modifies this
      ensures a == remote.readAddress(endpoint, args)
      ensures State() == old(State()) && log == old(log) + [EndpointRead(endpoint, args)]
    {
      a := remote.readAddress(endpoint, args);
      log := log + [EndpointRead(endpoint, args)];
    }

    /** A `read` whose result is an unsigned integer. */
    method ReadUint(endpoint: nat, args: ReadArgs) returns (n: nat)
      modifies this
      ensures n == remote.readUint(endpoint, args)
      ensures State() == old(State()) && log == old(log) + [EndpointRead(endpoint, args)]
    {
      n := remote.readUint(endpoint, args);
      log := log + [EndpointRead(endpoint, args)];
    }

    /** A `read` whose result is a byte string (a typed hash). */
    method ReadBytes(endpoint: nat, args: ReadArgs) returns (b: seq<Byte>)
      modifies this
      ensures b == remote.readBytes(endpoint, args)
      ensures State() == old(State()) && log == old(log) + [EndpointRead(endpoint, args)]
    {
      b := remote.readBytes(endpoint, args);
      log := log + [EndpointRead(endpoint, args)];
    }

    /** `execute(endpoint, params, undefined, memo, authorizationList?)`; the id is the log position. */
    method Execute(endpoint: nat, params: ExecParams, memo: string, authorizations: seq<Authorization.Entry>)
      returns (executionId: nat)
      modifies this
      ensures executionId == |old(log)|
      ensures State() == old(State()) && log == old(log) + [EndpointExecute(endpoint, params, memo, authorizations)]
    {
      executionId := |log|;
      log := log + [EndpointExecute(endpoint, params, memo, authorizations)];
    }
  }

  /**
   * The generic `assure*` step: list by the spec's key; with no match create
   * one endpoint from the spec and return its id, otherwise return the
   * first match's id.
   */
  method AssureEndpoint(c: Client, spec: EndpointSpec) returns (id: nat)
    requires c.Valid()
    modifies c
    ensures c.Valid()
    ensures (c.State(), id) == Reconcile(old(c.State()), spec)
    ensures c.log == old(c.log) + AssureRequests(old(c.State()), spec)
  {
    var found := c.ListEndpoints(KeyOf(spec));
    if |found| == 0 {
      id := c.Create(spec);
    } else {
      id := found[0].id;
    }
  }

  /** Two find-or-creates under one key: one id, at most one new endpoint, at most one create. */
  method AssureTwice(c: Client, spec: EndpointSpec) returns (first: nat, second: nat)
    requires c.Valid()
    modifies c
    ensures c.Valid()
    ensures first == second
    ensures |c.endpoints| <= |old(c.endpoints)| + 1
    ensures c.log == old(c.log) + AssureRequests(old(c.State()), spec) + [EndpointsList(KeyOf(spec))]
  {
    ghost var s0 := c.State();
    first := AssureEndpoint(c, spec);
    ReconcileIdempotent(s0, spec, spec);
    ReconcileOutcome(s0, spec);
    second := AssureEndpoint(c, spec);
  }
}
