/**
 * The relayer's endpoint registry as the scripts use it: endpoint
 * descriptors (contract methods) under a (name, contract address) key, the
 * list filter, and the find-or-create reconciliation that each `assure*`
 * function performs, stated on registry values.
 */
module Registry {
  import opened Bytes
  import opened Wrappers

  datatype Mutability = View | NonPayable

  /** The `type` of an input or output. */
  datatype Kind = AddressKind | UintKind | BytesKind | StructKind

  /** A named struct type and its members. */
  datatype StructType = StructType(name: string, params: seq<Param>)

  /** One input or output of an endpoint; `fixed` is a pinned input `value`. */
  datatype Param = Param(
    name: string,
    kind: Kind,
    index: nat,
    isArray: Option<bool>,
    typeStruct: Option<StructType>,
    typeSize: Option<nat>,
    fixed: Option<Address>)

  /** A plain input or output. */
  function Scalar(name: string, kind: Kind, index: nat): Param
  {
    Param(name, kind, index, None, None, None, None)
  }

  /** An input or output of struct type, an array of them when `isArray`. */
  function StructParam(name: string, index: nat, isArray: bool, t: StructType): Param
  {
    Param(name, StructKind, index, Some(isArray), Some(t), None, None)
  }

  /** What a `create` request registers. */
  datatype EndpointSpec = EndpointSpec(
    chainId: nat,
    contractAddress: Address,
    walletId: nat,
    name: string,
    description: string,
    functionName: string,
    stateMutability: Mutability,
    inputs: seq<Param>,
    outputs: seq<Param>)

  datatype Endpoint = Endpoint(id: nat, spec: EndpointSpec)

  /** The filter of a `list` request. */
  datatype Key = Key(name: string, contractAddress: Address)

  function KeyOf(spec: EndpointSpec): Key
  {
    Key(spec.name, spec.contractAddress)
  }

  /** The registered endpoints, in registration order, and the next fresh id. */
  datatype State = State(endpoints: seq<Endpoint>, nextId: nat)

  /** Ids are below the counter and distinct. */
  predicate Valid(s: State)
  {
    && (forall i | 0 <= i < |s.endpoints| :: s.endpoints[i].id < s.nextId)
    && (forall i, j | 0 <= i < j < |s.endpoints| :: s.endpoints[i].id != s.endpoints[j].id)
  }

  /** The answer to a `list` filtered by key: the matching endpoints, in order. */
  function Matching(eps: seq<Endpoint>, k: Key): (r: seq<Endpoint>)
    ensures forall e | e in r :: e in eps && KeyOf(e.spec) == k
    ensures forall e | e in eps && KeyOf(e.spec) == k :: e in r
    ensures |r| <= |eps|
  {
    if eps == [] then []
    else (if KeyOf(eps[0].spec) == k then [eps[0]] else []) + Matching(eps[1..], k)
  }

  /** Registering one more endpoint adds it at the end of its own key's matches only. */
  lemma {:induction false} MatchingAppend(eps: seq<Endpoint>, e: Endpoint, k: Key)
    ensures Matching(eps + [e], k) == Matching(eps, k) + (if KeyOf(e.spec) == k then [e] else [])
  {
    if eps != [] {
      assert (eps + [e])[1..] == eps[1..] + [e];
      MatchingAppend(eps[1..], e, k);
    }
  }

  /**
   * Find-or-create: the first endpoint listed under the spec's key, or a
   * fresh endpoint registered with that spec when there is none.
   */
  function Reconcile(s: State, spec: EndpointSpec): (r: (State, nat))
    ensures s.endpoints <= r.0.endpoints && |r.0.endpoints| <= |s.endpoints| + 1
    ensures r.0.nextId >= s.nextId
  {
    var found := Matching(s.endpoints, KeyOf(spec));
    if found == [] then (State(s.endpoints + [Endpoint(s.nextId, spec)], s.nextId + 1), s.nextId)
    else (s, found[0].id)
  }

  /**
   * The id returned is the first endpoint listed under the key afterwards;
   * the registry is either unchanged (there was a match, possibly several) or
   * grew by exactly one endpoint with the requested spec and a fresh id.
   */
  lemma ReconcileOutcome(s: State, spec: EndpointSpec)
    requires Valid(s)
    ensures var (s', id) := Reconcile(s, spec);
      var k := KeyOf(spec);
      && Valid(s')
      && Matching(s'.endpoints, k) != []
      && Matching(s'.endpoints, k)[0].id == id
      && (Matching(s.endpoints, k) != [] ==> s' == s)
      && (Matching(s.endpoints, k) == [] ==>
            && s'.endpoints == s.endpoints + [Endpoint(id, spec)]
            && (forall e | e in s.endpoints :: e.id != id))
  {
    var k := KeyOf(spec);
    if Matching(s.endpoints, k) == [] {
      MatchingAppend(s.endpoints, Endpoint(s.nextId, spec), k);
    }
  }

  /** Reconciling the same key again returns the same id and changes nothing. */
  lemma ReconcileIdempotent(s: State, spec: EndpointSpec, again: EndpointSpec)
    requires KeyOf(again) == KeyOf(spec)
    ensures var (s', id) := Reconcile(s, spec);
      Reconcile(s', again) == (s', id) && |s'.endpoints| <= |s.endpoints| + 1
  {
    var k := KeyOf(spec);
    if Matching(s.endpoints, k) == [] {
      MatchingAppend(s.endpoints, Endpoint(s.nextId, spec), k);
    }
  }

  /** Reconciling one key leaves what every other key lists unchanged. */
  lemma ReconcileOtherKeys(s: State, spec: EndpointSpec, k: Key)
    requires k != KeyOf(spec)
    ensures Matching(Reconcile(s, spec).0.endpoints, k) == Matching(s.endpoints, k)
  {
    if Matching(s.endpoints, KeyOf(spec)) == [] {
      MatchingAppend(s.endpoints, Endpoint(s.nextId, spec), k);
    }
  }
}
