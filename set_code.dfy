/**
 * scripts/1shot_demo/1-setCodeAndInitialize.ts: sign an EIP-7702
 * authorization for the delegate contract, check the relayer wallet, find
 * or create the account's relay endpoint and execute through it with the
 * signed authorization attached.
 */
module SetCode {
  import opened Bytes
  import opened Wrappers
  import opened Crypto
  import opened Registry
  import opened Relay
  import opened OneShot
  import opened Authorization

  const ENDPOINT_NAME: string := "7702 EOA Endpoint"
  const MEMO: string := "relayed 7702 transaction"

  /** The endpoint the script registers for an account: `initialize` on the account itself. */
  function RelayEndpointSpec(eoa: Address, walletId: nat): (spec: EndpointSpec)
    ensures spec.chainId == SEPOLIA && spec.contractAddress == eoa && spec.walletId == walletId
    ensures spec.functionName == "initialize" && spec.stateMutability == NonPayable
    ensures spec.inputs == [] && spec.outputs == []
  {
    EndpointSpec(
      SEPOLIA, eoa, walletId, ENDPOINT_NAME,
      "Relays 7702 transactions for a specific EOA address",
      "initialize", NonPayable, [], [])
  }

  /** The relay endpoint is filed under the script's name and the account's address. */
  lemma RelayEndpointKey(eoa: Address, walletId: nat)
    ensures KeyOf(RelayEndpointSpec(eoa, walletId)) == Key(ENDPOINT_NAME, eoa)
    ensures RelayEndpointSpec(eoa, walletId).walletId == walletId
  {
  }

  /**
   * The script's main flow. `chainId` and `txCount` are the provider's
   * network id and the account's transaction count, read beforehand.
   */
  method SetCodeAndInitialize(
    c: Client, crypto: Primitives, eoa: Address, walletCore: Address,
    chainId: Uint256, txCount: nat, minBalance: nat)
    returns (outcome: Outcome)
    requires c.Valid()
    requires txCount + NONCE_OFFSET < TWO_64
    modifies c
    ensures c.Valid()
    ensures
      var t := NewTuple(chainId, walletCore, txCount);
      var entry := SubmittedEntry(t, crypto.sign(Digest(crypto, t)));
      match Gate(c.remote.walletsOn(SEPOLIA), minBalance)
      case Err(e) =>
        && outcome == Stopped(e)
        && c.State() == old(c.State())
        && c.log == old(c.log) + [WalletsList(SEPOLIA)]
      case Ok(w) =>
        var spec := RelayEndpointSpec(eoa, w.id);
        var (s, id) := Reconcile(old(c.State()), spec);
        && c.State() == s
        && c.log == old(c.log) + [WalletsList(SEPOLIA)] + AssureRequests(old(c.State()), spec)
                      + [EndpointExecute(id, NoParams, MEMO, [entry])]
        && outcome == Executed(|c.log| - 1)
  {
    // The authorization is built and signed locally before any request.
    var t := NewTuple(chainId, walletCore, txCount);
    var digest := crypto.keccak256(MessageAsWritten(t));
    var signature := crypto.sign(digest);

    var wallets := c.ListWallets(SEPOLIA);
    var gate := Gate(wallets, minBalance);
    if gate.Err? {
      return Stopped(gate.error);
    }
    var wallet := gate.value;

    var endpoint := AssureEndpoint(c, RelayEndpointSpec(eoa, wallet.id));
    var executionId := c.Execute(endpoint, NoParams, MEMO, [SubmittedEntry(t, signature)]);
    outcome := Executed(executionId);
  }

  /**
   * Whatever the registry held, the authorization that reaches the relayer
   * carries the hashed address and nonce string, the hashed chain id's
   * value, and the signature over the digest of the message the script
   * builds; for a non-zero chain id that is the EIP-7702 message.
   */
  lemma SubmittedEntryMatchesDigest(crypto: Primitives, chainId: Uint256, walletCore: Address, txCount: nat)
    requires txCount + NONCE_OFFSET < TWO_64
    ensures var t := NewTuple(chainId, walletCore, txCount);
      var e := SubmittedEntry(t, crypto.sign(Digest(crypto, t)));
      && e.address == walletCore
      && FromBigEndian(e.nonce) == txCount + 1 && Canonical(e.nonce) && e.nonce != []
      && e.chainId == chainId
      && e.signature == crypto.sign(crypto.keccak256(MessageAsWritten(Tuple(chainId, walletCore, txCount + 1))))
      && (chainId != 0 ==>
            e.signature == crypto.sign(crypto.keccak256(Message(Tuple(chainId, walletCore, txCount + 1)))))
  {
  }
}
