/**
 * The records the three demo scripts share: the relayer wallet and the
 * funded-wallet gate that each script runs first, the call batch, the
 * session, and the argument and parameter shapes of remote reads and
 * executions.
 */
module Relay {
  import opened Bytes
  import opened Wrappers
  import opened Registry

  /** The chain the relayer wallets are listed for (Sepolia). */
  const SEPOLIA: nat := 11155111

  /** The receiving address of the demo transfers. */
  const RECEIVER: Address := [
    0xFe, 0xeC, 0xC9, 0x11, 0x17, 0x5C, 0x2B, 0x6D, 0x46, 0xBa,
    0xE4, 0xfd, 0x35, 0x7c, 0x99, 0x5a, 0x4D, 0xC4, 0x3C, 0x60]

  /** address(1), used as the validator. */
  const VALIDATOR: Address := [0, 0, 0, 0, 0, 0, 0, 0, 0, 0, 0, 0, 0, 0, 0, 0, 0, 0, 0, 1]

  /**
   * A wallet's balance as `Number(accountBalanceDetails?.balance)` sees it:
   * an amount, or a missing or unparsable value (NaN).
   */
  datatype Balance = Amount(value: nat) | Unreadable

  /** A relayer (escrow) wallet as `wallets.list` returns it. */
  datatype Wallet = Wallet(id: nat, accountAddress: Address, balance: Balance)

  datatype GateError = NoWallet | Underfunded(address: Address)

  /** The threshold comparison; NaN is never below anything. */
  predicate BelowThreshold(w: Wallet, minBalance: nat)
  {
    w.balance.Amount? && w.balance.value < minBalance
  }

  /**
   * The gate every script runs before touching any endpoint: the first
   * listed wallet, unless there is none or it is below the threshold.
   */
  function Gate(wallets: seq<Wallet>, minBalance: nat): (r: Result<Wallet, GateError>)
    ensures r.Ok? <==> |wallets| > 0 && !BelowThreshold(wallets[0], minBalance)
    ensures r.Ok? ==> r.value == wallets[0]
    ensures r == Err(NoWallet) <==> wallets == []
    ensures r.Err? && wallets != [] ==> r.error == Underfunded(wallets[0].accountAddress)
  {
    if |wallets| == 0 then Err(NoWallet)
    else if BelowThreshold(wallets[0], minBalance) then Err(Underfunded(wallets[0].accountAddress))
    else Ok(wallets[0])
  }

  /** How a script's main flow ends: stopped at the gate, or with an execution. */
  datatype Outcome = Stopped(reason: GateError) | Executed(executionId: nat)

  /** One call of a batch. */
  datatype Call = Call(target: Address, value: nat, data: seq<Byte>)

  /** The wallet's Call struct as the endpoint schemas declare it. */
  const CALL_STRUCT: StructType := StructType("Call", [
    Scalar("target", AddressKind, 0),
    Scalar("value", UintKind, 1),
    Scalar("data", BytesKind, 2)])

  /** The wallet's Session struct, fields in declaration order. */
  datatype Session = Session(
    id: nat,
    executor: Address,
    validator: Address,
    validUntil: nat,
    validAfter: nat,
    preHook: seq<Byte>,
    postHook: seq<Byte>,
    signature: seq<Byte>)

  /** The arguments of a remote `read`. */
  datatype ReadArgs =
    | NoArgs
    | ValidationArgs(nonce: nat, calls: seq<Call>)
    | SessionArgs(session: Session)

  /** The parameters of a remote `execute`. */
  datatype ExecParams =
    | NoParams
    | WithValidator(calls: seq<Call>, validationData: seq<Byte>)
    | FromExecutor(calls: seq<Call>, session: Session)
}
