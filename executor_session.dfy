/**
 * scripts/1shot_demo/3-createExecutorSession.ts: find or create the session
 * typed-hash endpoint and the `executeFromExecutor` endpoint, open a session
 * window of one hour at the latest block, read the typed hash of the
 * unsigned session, sign it, and execute a batch with the signed session.
 */
module ExecutorSession {
  import opened Bytes
  import opened Crypto
  import opened Registry
  import opened Relay
  import opened OneShot
  import opened Wrappers

  const SESSION_HASH_NAME: string := "7702 EOA getSessionTypedHash for Core Wallet"
  const EXECUTE_NAME: string := "7702 EOA executeFromExecutor for Core Wallet"
  const MEMO: string := "execution of batch transfer with session signature via executeWithExecutor"

  /** The session id, sent as the decimal string "42069". */
  const SESSION_ID: nat := 42069

  /** The validity window: one hour. */
  const SESSION_LENGTH: nat := 3600

  /** The Session struct as the typed-hash endpoint declares it. */
  const HASH_SESSION_STRUCT: StructType := StructType("Session", [
    Scalar("id", UintKind, 0),
    Scalar("executor", AddressKind, 1),
    Scalar("validator", AddressKind, 2),
    Scalar("validUntil", UintKind, 3),
    Scalar("validAfter", UintKind, 4),
    Scalar("preHook", BytesKind, 5),
    Scalar("postHook", BytesKind, 6),
    Scalar("signature", BytesKind, 7)])

  /** The Session struct as the execute endpoint declares it, written out a second time. */
  const EXECUTE_SESSION_STRUCT: StructType := StructType("Session", [
    Scalar("id", UintKind, 0),
    Scalar("executor", AddressKind, 1),
    Scalar("validator", AddressKind, 2),
    Scalar("validUntil", UintKind, 3),
    Scalar("validAfter", UintKind, 4),
    Scalar("preHook", BytesKind, 5),
    Scalar("postHook", BytesKind, 6),
    Scalar("signature", BytesKind, 7)])

  /** `getSessionTypedHash(session)` on the account. */
  function SessionHashSpec(walletAddress: Address, walletId: nat): (spec: EndpointSpec)
    ensures spec.chainId == SEPOLIA && spec.walletId == walletId
    ensures spec.functionName == "getSessionTypedHash" && spec.stateMutability == View
    ensures |spec.inputs| == 1 && spec.inputs[0].index == 0 && spec.inputs[0].isArray == Some(false)
    ensures |spec.outputs| == 1 && spec.outputs[0].kind == BytesKind && spec.outputs[0].typeSize == Some(32)
  {
    EndpointSpec(
      SEPOLIA, walletAddress, walletId, SESSION_HASH_NAME,
      "Returns a hash of the session data for Core Wallet execution",
      "getSessionTypedHash", View,
      [StructParam("session", 0, false, HASH_SESSION_STRUCT)],
      [Param("sessionTypedHash", BytesKind, 0, None, None, Some(32), None)])
  }

  /** `executeFromExecutor(calls, session)` on the account. */
  function ExecuteFromExecutorSpec(walletAddress: Address, walletId: nat): (spec: EndpointSpec)
    ensures spec.chainId == SEPOLIA && spec.walletId == walletId
    ensures spec.functionName == "executeFromExecutor" && spec.stateMutability == NonPayable
    ensures |spec.inputs| == 2 && spec.outputs == []
    ensures spec.inputs[0].index == 0 && spec.inputs[0].isArray == Some(true) && spec.inputs[0].typeStruct == Some(CALL_STRUCT)
    ensures spec.inputs[1].index == 1 && spec.inputs[1].isArray == Some(false)
  {
    EndpointSpec(
      SEPOLIA, walletAddress, walletId, EXECUTE_NAME,
      "Lets 1Shot API execute a transaction as if it was another EOA address",
      "executeFromExecutor", NonPayable,
      [ StructParam("calls", 0, true, CALL_STRUCT),
        StructParam("session", 1, false, EXECUTE_SESSION_STRUCT)],
      [])
  }

  /** Both endpoints are filed under the account's address for the first wallet. */
  lemma EndpointKeys(eoa: Address, walletId: nat)
    ensures KeyOf(SessionHashSpec(eoa, walletId)) == Key(SESSION_HASH_NAME, eoa)
    ensures KeyOf(ExecuteFromExecutorSpec(eoa, walletId)) == Key(EXECUTE_NAME, eoa)
    ensures SessionHashSpec(eoa, walletId).walletId == walletId
    ensures ExecuteFromExecutorSpec(eoa, walletId).walletId == walletId
    ensures SESSION_HASH_NAME != EXECUTE_NAME
  {
  }

  /** The field of a Session struct schema at position i, as (name, kind). */
  function FieldAt(t: StructType, i: nat): (string, Kind)
    requires i < |t.params|
  {
    (t.params[i].name, t.params[i].kind)
  }

  /**
   * Both schemas declare the same Session struct: the eight fields of the
   * Session record, in declaration order, each at its own index.
   */
  lemma SessionSchemasAgree(walletAddress: Address, walletId: nat)
    ensures SessionHashSpec(walletAddress, walletId).inputs[0].typeStruct == Some(HASH_SESSION_STRUCT)
    ensures ExecuteFromExecutorSpec(walletAddress, walletId).inputs[1].typeStruct == Some(EXECUTE_SESSION_STRUCT)
    ensures HASH_SESSION_STRUCT == EXECUTE_SESSION_STRUCT
    ensures |HASH_SESSION_STRUCT.params| == 8
    ensures forall i | 0 <= i < 8 :: HASH_SESSION_STRUCT.params[i].index == i
    ensures [FieldAt(HASH_SESSION_STRUCT, 0), FieldAt(HASH_SESSION_STRUCT, 1), FieldAt(HASH_SESSION_STRUCT, 2),
             FieldAt(HASH_SESSION_STRUCT, 3), FieldAt(HASH_SESSION_STRUCT, 4), FieldAt(HASH_SESSION_STRUCT, 5),
             FieldAt(HASH_SESSION_STRUCT, 6), FieldAt(HASH_SESSION_STRUCT, 7)]
         == [("id", UintKind), ("executor", AddressKind), ("validator", AddressKind),
             ("validUntil", UintKind), ("validAfter", UintKind),
             ("preHook", BytesKind), ("postHook", BytesKind), ("signature", BytesKind)]
  {
  }

  /** The validity window opened at a block: (validAfter, validUntil). */
  function Window(blockTimestamp: nat): (w: (nat, nat))
    ensures w.0 == blockTimestamp
    ensures w.0 < w.1 && w.1 - w.0 == SESSION_LENGTH
  {
    (blockTimestamp, blockTimestamp + SESSION_LENGTH)
  }

  /**
   * The session sent for hashing: nothing signed yet, no hooks, the given
   * wallet as executor, address(1) as validator, and a window of exactly one
   * hour starting at the block.
   */
  function UnsignedSession(executor: Address, blockTimestamp: nat): (s: Session)
    ensures s.signature == [] && s.preHook == [] && s.postHook == []
    ensures s.id == SESSION_ID && s.executor == executor && s.validator == VALIDATOR
    ensures s.validAfter == blockTimestamp && s.validUntil == s.validAfter + SESSION_LENGTH
  {
    var (validAfter, validUntil) := Window(blockTimestamp);
    Session(SESSION_ID, executor, VALIDATOR, validUntil, validAfter, [], [], [])
  }

  /** The session sent for execution, built field by field a second time, with the signature. */
  function SignedSession(executor: Address, blockTimestamp: nat, signature: seq<Byte>): (s: Session)
    ensures s.signature == signature && s.preHook == [] && s.postHook == []
    ensures s.id == SESSION_ID && s.executor == executor && s.validator == VALIDATOR
    ensures s.validAfter == blockTimestamp && s.validUntil == s.validAfter + SESSION_LENGTH
  {
    var (validAfter, validUntil) := Window(blockTimestamp);
    Session(SESSION_ID, executor, VALIDATOR, validUntil, validAfter, [], [], signature)
  }

  /**
   * The executed session is the hashed one with the signature filled in:
   * every other field agrees, and the signature is exactly the one given.
   */
  lemma ExecutedSessionIsHashed(executor: Address, blockTimestamp: nat, signature: seq<Byte>)
    ensures SignedSession(executor, blockTimestamp, signature)
         == UnsignedSession(executor, blockTimestamp).(signature := signature)
    ensures SignedSession(executor, blockTimestamp, signature).(signature := [])
         == UnsignedSession(executor, blockTimestamp)
  {
  }

  /** The batch executed under the session: one transfer of 1000000 wei. */
  const SESSION_CALLS: seq<Call> := [Call(RECEIVER, 1000000, [])]

  /**
   * The log ends with an `executeFromExecutor`-style execution whose session
   * is, signature aside, a session read earlier for its typed hash with an
   * empty signature, and whose signature is the one over that hash.
   */
  ghost predicate SignsExecutedSession(log: seq<Request>, remote: Remote, crypto: Primitives)
  {
    && |log| >= 1
    && log[|log| - 1].EndpointExecute?
    && log[|log| - 1].params.FromExecutor?
    && exists i | 0 <= i < |log| - 1 :: ReadsHashOf(log[i], log[|log| - 1].params, remote, crypto)
  }

  /** `read` is a typed-hash read of `params`' session, unsigned, and `params` carries its signature. */
  ghost predicate ReadsHashOf(read: Request, params: ExecParams, remote: Remote, crypto: Primitives)
    requires params.FromExecutor?
  {
    && read.EndpointRead?
    && read.args.SessionArgs?
    && read.args.session.signature == []
    && read.args.session == params.session.(signature := [])
    && params.session.signature == crypto.sign(remote.readBytes(read.endpoint, read.args))
  }

  /**
   * Read the typed hash of the unsigned session through `hashEp`, sign it
   * and execute the batch through `executeEp` with the signed session.
   */
  method SignAndExecuteSession(
    c: Client, crypto: Primitives, hashEp: nat, executeEp: nat, executor: Address, blockTimestamp: nat)
    returns (executionId: nat)
    modifies c
    ensures c.State() == old(c.State())
    ensures
      var unsigned := UnsignedSession(executor, blockTimestamp);
      var hash := c.remote.readBytes(hashEp, SessionArgs(unsigned));
      && c.log == old(c.log) + [EndpointRead(hashEp, SessionArgs(unsigned))]
           + [EndpointExecute(executeEp,
                FromExecutor(SESSION_CALLS, SignedSession(executor, blockTimestamp, crypto.sign(hash))),
                MEMO, [])]
      && executionId == |c.log| - 1
    ensures SignsExecutedSession(c.log, c.remote, crypto)
  {
    var unsigned := UnsignedSession(executor, blockTimestamp);
    var hash := c.ReadBytes(hashEp, SessionArgs(unsigned));
    ghost var hashRead := |c.log| - 1;
    var sessionSignature := crypto.sign(hash);

    var session := SignedSession(executor, blockTimestamp, sessionSignature);
    executionId := c.Execute(executeEp, FromExecutor(SESSION_CALLS, session), MEMO, []);

    ExecutedSessionIsHashed(executor, blockTimestamp, sessionSignature);
    assert ReadsHashOf(c.log[hashRead], c.log[|c.log| - 1].params, c.remote, crypto);
  }

  /**
   * The script's main flow; `blockTimestamp` is the latest block's timestamp,
   * read after both endpoints are in place.
   */
  method CreateExecutorSession(c: Client, crypto: Primitives, eoa: Address, minBalance: nat, blockTimestamp: nat)
    returns (outcome: Outcome)
    requires c.Valid()
    modifies c
    ensures c.Valid()
    ensures
      match Gate(c.remote.walletsOn(SEPOLIA), minBalance)
      case Err(e) =>
        && outcome == Stopped(e)
        && c.State() == old(c.State())
        && c.log == old(c.log) + [WalletsList(SEPOLIA)]
      case Ok(w) =>
        var r1 := Reconcile(old(c.State()), SessionHashSpec(eoa, w.id));
        var r2 := Reconcile(r1.0, ExecuteFromExecutorSpec(eoa, w.id));
        var unsigned := UnsignedSession(w.accountAddress, blockTimestamp);
        var hash := c.remote.readBytes(r1.1, SessionArgs(unsigned));
        && c.State() == r2.0
        && c.log == old(c.log) + [WalletsList(SEPOLIA)]
             + AssureRequests(old(c.State()), SessionHashSpec(eoa, w.id))
             + AssureRequests(r1.0, ExecuteFromExecutorSpec(eoa, w.id))
             + [EndpointRead(r1.1, SessionArgs(unsigned))]
             + [EndpointExecute(r2.1,
                  FromExecutor(SESSION_CALLS, SignedSession(w.accountAddress, blockTimestamp, crypto.sign(hash))),
                  MEMO, [])]
        && outcome == Executed(|c.log| - 1)
    ensures outcome.Executed? ==> SignsExecutedSession(c.log, c.remote, crypto)
  {
    var wallets := c.ListWallets(SEPOLIA);
    var gate := Gate(wallets, minBalance);
    if gate.Err? {
      return Stopped(gate.error);
    }
    var wallet := gate.value;

    var hashEp := AssureEndpoint(c, SessionHashSpec(eoa, wallet.id));
    var executeEp := AssureEndpoint(c, ExecuteFromExecutorSpec(eoa, wallet.id));
    var executionId := SignAndExecuteSession(c, crypto, hashEp, executeEp, wallet.accountAddress, blockTimestamp);
    outcome := Executed(executionId);
  }
}
