/**
 * scripts/1shot_demo/2-sendTxsAsRelayer.ts: through four find-or-create
 * endpoints, read the account's storage location and wallet nonce, read the
 * validation typed hash of (nonce, batch), sign it, and have the relayer
 * run `executeWithValidator` on the same batch with that signature.
 */
module BatchRelay {
  import opened Bytes
  import opened Wrappers
  import opened Crypto
  import opened Registry
  import opened Relay
  import opened OneShot

  const MAIN_STORAGE_NAME: string := "7702 EOA getMainStorage for Core Wallet"
  const NONCE_NAME: string := "7702 EOA getNonce for Core Wallet"
  const VALIDATION_HASH_NAME: string := "7702 EOA getValidationTypedHash for Core Wallet"
  const EXECUTE_NAME: string := "7702 EOA executeWithValidator for Core Wallet"
  const MEMO: string := "execution of batch transfer with validator signature"

  /** `getMainStorage()` on the account: the address of its storage contract. */
  function MainStorageSpec(walletAddress: Address, escrowWalletId: nat): (spec: EndpointSpec)
    ensures spec.chainId == SEPOLIA && spec.walletId == escrowWalletId
    ensures spec.functionName == "getMainStorage" && spec.stateMutability == View && spec.inputs == []
    ensures |spec.outputs| == 1 && spec.outputs[0].kind == AddressKind && spec.outputs[0].index == 0
  {
    EndpointSpec(
      SEPOLIA, walletAddress, escrowWalletId, MAIN_STORAGE_NAME,
      "Gets the address of an EOAs storage slot",
      "getMainStorage", View, [], [Scalar("mainStorage", AddressKind, 0)])
  }

  /** `getNonce()` on the storage contract. */
  function NonceSpec(storageLocation: Address, escrowWalletId: nat): (spec: EndpointSpec)
    ensures spec.chainId == SEPOLIA && spec.contractAddress == storageLocation && spec.walletId == escrowWalletId
    ensures spec.functionName == "getNonce" && spec.stateMutability == View && spec.inputs == []
    ensures |spec.outputs| == 1 && spec.outputs[0].kind == UintKind && spec.outputs[0].index == 0
  {
    EndpointSpec(
      SEPOLIA, storageLocation, escrowWalletId, NONCE_NAME,
      "Gets the current nonce of an EOA from its storage address location",
      "getNonce", View, [], [Scalar("mainStorage", UintKind, 0)])
  }

  /** `getValidationTypedHash(nonce, calls)` on the account. */
  function ValidationHashSpec(walletAddress: Address, escrowWalletId: nat): (spec: EndpointSpec)
    ensures spec.chainId == SEPOLIA && spec.walletId == escrowWalletId
    ensures spec.functionName == "getValidationTypedHash" && spec.stateMutability == View
    ensures |spec.inputs| == 2 && spec.inputs[0].kind == UintKind && spec.inputs[0].index == 0
    ensures spec.inputs[1].index == 1 && spec.inputs[1].isArray == Some(true) && spec.inputs[1].typeStruct == Some(CALL_STRUCT)
    ensures |spec.outputs| == 1 && spec.outputs[0].kind == BytesKind && spec.outputs[0].typeSize == Some(32)
  {
    EndpointSpec(
      SEPOLIA, walletAddress, escrowWalletId, VALIDATION_HASH_NAME,
      "Returns a hash of the validation data for Core Wallet execution",
      "getValidationTypedHash", View,
      [Scalar("nonce", UintKind, 0), StructParam("calls", 1, true, CALL_STRUCT)],
      [Param("validationTypedHash", BytesKind, 0, None, None, Some(32), None)])
  }

  /** `executeWithValidator(calls, validator, validationData)` on the account, validator pinned. */
  function ExecuteWithValidatorSpec(walletAddress: Address, escrowWalletId: nat): (spec: EndpointSpec)
    ensures spec.chainId == SEPOLIA && spec.walletId == escrowWalletId
    ensures spec.functionName == "executeWithValidator" && spec.stateMutability == NonPayable
    ensures |spec.inputs| == 3 && spec.outputs == []
    ensures spec.inputs[0].index == 0 && spec.inputs[0].isArray == Some(true) && spec.inputs[0].typeStruct == Some(CALL_STRUCT)
    ensures spec.inputs[2].kind == BytesKind && spec.inputs[2].index == 2 && spec.inputs[2].fixed == None
  {
    EndpointSpec(
      SEPOLIA, walletAddress, escrowWalletId, EXECUTE_NAME,
      "Executes a batch transaction with a validator signature",
      "executeWithValidator", NonPayable,
      [ StructParam("calls", 0, true, CALL_STRUCT),
        Param("validator", AddressKind, 1, None, None, None, Some(VALIDATOR)),
        Scalar("validationData", BytesKind, 2)],
      [])
  }

  /**
   * The nonce endpoint is filed under the storage location; the other three
   * under the account's address. All four are created for the first wallet.
   */
  lemma EndpointKeys(eoa: Address, storage: Address, walletId: nat)
    ensures KeyOf(MainStorageSpec(eoa, walletId)) == Key(MAIN_STORAGE_NAME, eoa)
    ensures KeyOf(NonceSpec(storage, walletId)) == Key(NONCE_NAME, storage)
    ensures KeyOf(ValidationHashSpec(eoa, walletId)) == Key(VALIDATION_HASH_NAME, eoa)
    ensures KeyOf(ExecuteWithValidatorSpec(eoa, walletId)) == Key(EXECUTE_NAME, eoa)
    ensures MainStorageSpec(eoa, walletId).walletId == walletId && NonceSpec(storage, walletId).walletId == walletId
    ensures ValidationHashSpec(eoa, walletId).walletId == walletId && ExecuteWithValidatorSpec(eoa, walletId).walletId == walletId
  {
  }

  /** The validator input of the execute endpoint is pinned to address(1). */
  lemma ValidatorPinned(walletAddress: Address, escrowWalletId: nat)
    ensures var inputs := ExecuteWithValidatorSpec(walletAddress, escrowWalletId).inputs;
      |inputs| == 3 && inputs[1].name == "validator" && inputs[1].index == 1 &&
      inputs[1].kind == AddressKind && inputs[1].fixed == Some(VALIDATOR)
    ensures VALIDATOR[19] == 1 && forall i | 0 <= i < 19 :: VALIDATOR[i] == 0
  {
  }

  /** The arguments of the validation hash read: the nonce and the transfer batch. */
  function ValidationReadArgs(nonce: nat): (args: ReadArgs)
    ensures args.ValidationArgs? && args.nonce == nonce
    ensures args.calls == [Call(RECEIVER, 100000000000, [])]
  {
    ValidationArgs(nonce, [Call(RECEIVER, 100000000000, [])])
  }

  /** The parameters of the execution: the transfer batch and the validation signature. */
  function ExecuteParams(validationData: seq<Byte>): (params: ExecParams)
    ensures params.WithValidator? && params.validationData == validationData
    ensures params.calls == [Call(RECEIVER, 100000000000, [])]
  {
    WithValidator([Call(RECEIVER, 100000000000, [])], validationData)
  }

  /**
   * The batch that is hashed and the batch that is executed agree call for
   * call (target, value, data, order), and the execution carries exactly the
   * signature it is given.
   */
  lemma HashedBatchIsExecuted(nonce: nat, validationData: seq<Byte>)
    ensures ValidationReadArgs(nonce).calls == ExecuteParams(validationData).calls
    ensures ValidationReadArgs(nonce).nonce == nonce
    ensures ExecuteParams(validationData).validationData == validationData
  {
  }

  /**
   * The log ends with an `executeWithValidator`-style execution whose
   * validation data is the signature over a typed hash read earlier for
   * (some nonce, exactly the executed calls).
   */
  ghost predicate SignsExecutedBatch(log: seq<Request>, remote: Remote, crypto: Primitives)
  {
    && |log| >= 1
    && log[|log| - 1].EndpointExecute?
    && log[|log| - 1].params.WithValidator?
    && exists i | 0 <= i < |log| - 1 :: ReadsHashOf(log[i], log[|log| - 1].params, remote, crypto)
  }

  /** `read` is a validation hash read for `params`' calls and `params` carries its signature. */
  ghost predicate ReadsHashOf(read: Request, params: ExecParams, remote: Remote, crypto: Primitives)
    requires params.WithValidator?
  {
    && read.EndpointRead?
    && read.args.ValidationArgs?
    && read.args.calls == params.calls
    && params.validationData == crypto.sign(remote.readBytes(read.endpoint, read.args))
  }

  /**
   * Steps one and two: find or create the storage endpoint, read the storage
   * location, find or create the nonce endpoint there and read the nonce.
   */
  method ReadWalletNonce(c: Client, eoa: Address, walletId: nat) returns (nonce: nat)
    requires c.Valid()
    modifies c
    ensures c.Valid()
    ensures
      var r1 := Reconcile(old(c.State()), MainStorageSpec(eoa, walletId));
      var storage := c.remote.readAddress(r1.1, NoArgs);
      var r2 := Reconcile(r1.0, NonceSpec(storage, walletId));
      && nonce == c.remote.readUint(r2.1, NoArgs)
      && c.State() == r2.0
      && c.log == old(c.log)
           + AssureRequests(old(c.State()), MainStorageSpec(eoa, walletId)) + [EndpointRead(r1.1, NoArgs)]
           + AssureRequests(r1.0, NonceSpec(storage, walletId)) + [EndpointRead(r2.1, NoArgs)]
  {
    var storageEp := AssureEndpoint(c, MainStorageSpec(eoa, walletId));
    var storage := c.ReadAddress(storageEp, NoArgs);
    var nonceEp := AssureEndpoint(c, NonceSpec(storage, walletId));
    nonce := c.ReadUint(nonceEp, NoArgs);
  }

  /**
   * Steps three and four: find or create the hash endpoint, read the typed
   * hash of (nonce, batch), sign it, find or create the execute endpoint and
   * execute the same batch with that signature.
   */
  method SignAndExecuteBatch(c: Client, crypto: Primitives, eoa: Address, walletId: nat, nonce: nat)
    returns (executionId: nat)
    requires c.Valid()
    modifies c
    ensures c.Valid()
    ensures
      var r3 := Reconcile(old(c.State()), ValidationHashSpec(eoa, walletId));
      var hash := c.remote.readBytes(r3.1, ValidationReadArgs(nonce));
      var r4 := Reconcile(r3.0, ExecuteWithValidatorSpec(eoa, walletId));
      && c.State() == r4.0
      && c.log == old(c.log)
           + AssureRequests(old(c.State()), ValidationHashSpec(eoa, walletId))
           + [EndpointRead(r3.1, ValidationReadArgs(nonce))]
           + AssureRequests(r3.0, ExecuteWithValidatorSpec(eoa, walletId))
           + [EndpointExecute(r4.1, ExecuteParams(crypto.sign(hash)), MEMO, [])]
      && executionId == |c.log| - 1
    ensures SignsExecutedBatch(c.log, c.remote, crypto)
  {
    var hashEp := AssureEndpoint(c, ValidationHashSpec(eoa, walletId));
    var hash := c.ReadBytes(hashEp, ValidationReadArgs(nonce));
    ghost var hashRead := |c.log| - 1;
    var validationSignature := crypto.sign(hash);
    var executeEp := AssureEndpoint(c, ExecuteWithValidatorSpec(eoa, walletId));
    executionId := c.Execute(executeEp, ExecuteParams(validationSignature), MEMO, []);
    assert ReadsHashOf(c.log[hashRead], c.log[|c.log| - 1].params, c.remote, crypto);
  }

  /** The script's main flow: the gate, then the four steps for the first wallet. */
  method SendTxsAsRelayer(c: Client, crypto: Primitives, eoa: Address, minBalance: nat)
    returns (outcome: Outcome)
    requires c.Valid()
    modifies c
    ensures c.Valid()
    ensures
      match Gate(c.remote.walletsOn(SEPOLIA), minBalance)
      case Err(e) =>
        && outcome == Stopped(e)
        && c.State() == old(c.State())
        && c.log == old(c.log) + [WalletsList(SEPOLIA)]
      case Ok(w) =>
        var r1 := Reconcile(old(c.State()), MainStorageSpec(eoa, w.id));
        var storage := c.remote.readAddress(r1.1, NoArgs);
        var r2 := Reconcile(r1.0, NonceSpec(storage, w.id));
        var nonce := c.remote.readUint(r2.1, NoArgs);
        var r3 := Reconcile(r2.0, ValidationHashSpec(eoa, w.id));
        var hash := c.remote.readBytes(r3.1, ValidationReadArgs(nonce));
        var r4 := Reconcile(r3.0, ExecuteWithValidatorSpec(eoa, w.id));
        && c.State() == r4.0
        && c.log == old(c.log) + [WalletsList(SEPOLIA)]
             + AssureRequests(old(c.State()), MainStorageSpec(eoa, w.id)) + [EndpointRead(r1.1, NoArgs)]
             + AssureRequests(r1.0, NonceSpec(storage, w.id)) + [EndpointRead(r2.1, NoArgs)]
             + AssureRequests(r2.0, ValidationHashSpec(eoa, w.id)) + [EndpointRead(r3.1, ValidationReadArgs(nonce))]
             + AssureRequests(r3.0, ExecuteWithValidatorSpec(eoa, w.id))
             + [EndpointExecute(r4.1, ExecuteParams(crypto.sign(hash)), MEMO, [])]
        && outcome == Executed(|c.log| - 1)
    ensures outcome.Executed? ==> SignsExecutedBatch(c.log, c.remote, crypto)
  {
    var wallets := c.ListWallets(SEPOLIA);
    var gate := Gate(wallets, minBalance);
    if gate.Err? {
      return Stopped(gate.error);
    }
    var nonce := ReadWalletNonce(c, eoa, gate.value.id);
    var executionId := SignAndExecuteBatch(c, crypto, eoa, gate.value.id, nonce);
    outcome := Executed(executionId);
  }
}
