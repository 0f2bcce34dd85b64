# 1Shot API EIP-7702 demo scripts: a Dafny model

The repository's three demo scripts under `scripts/1shot_demo/` drive the
1Shot API relayer. They:

- sign an EIP-7702 authorization that delegates the caller's account to a
  `WalletCore` contract, and relay it;
- have the relayer execute a batch under a validator signature (`executeWithValidator`);
- have it execute a batch under a signed session (`executeFromExecutor`).

This project models the logic the three scripts contain and proves what they
promise:

- **The EIP-7702 authorization message.** It is `0x05 || rlp([chain_id, address, nonce])`,
  as in the Specification section of EIP-7702, with RLP as in Appendix B of
  the Ethereum Yellow Paper. The tuple nonce is the account's transaction
  count plus one. The script writes both integers with `ethers.toBeHex`,
  which agrees with the minimal big-endian form of EIP-7702 except at zero
  (see "## Findings"). The model carries a concrete RLP encoder and decoder,
  with a round-trip and an injectivity proof. These show that both the
  message the script signs and the EIP-7702 message decode to exactly that
  three-item list and determine the tuple.
- **Find-or-create.** The scripts repeat one endpoint reconciliation seven
  times: list by `(name, contractAddress)`, create when nothing matches, and
  otherwise take the first match. Here it is one method, `OneShot.AssureEndpoint`,
  on an in-memory registry held by a `Client` object. It is proved against
  the pure `Registry.Reconcile`, about which the find, create, idempotence
  and independence of keys are proved.
- **Relay request assembly.**
  - The funded-wallet gate comes before any endpoint request.
  - The batch that is hashed is the batch that is executed.
  - The executed session is the hashed session with only its signature filled in.
  - The session window is exactly 3600 seconds.

  Each script's main flow is a method that takes the `Client`; its `ensures` gives
  the final registry and the complete log of requests sent to the service.
  A further `ensures` states "sign what you execute" over that log.

Keccak-256 and ECDSA signing are uninterpreted functions (`Crypto.Primitives`).
The service's answers come from oracles: its wallet list, and the results of
view calls through an endpoint (`OneShot.Remote`). Provider reads are
parameters of the flow methods: the network's chain id, the transaction
count and the latest block's timestamp.

The scripts compute the authorization nonce as the current transaction count
plus one (`1-setCodeAndInitialize.ts:46`), and the model follows the code.
When an account other than the authority sends the transaction, as the
relayer does here, EIP-7702 compares the tuple's nonce with the authority's
current nonce. The model does not include the chain's processing of the
authorization, so it states nothing about which nonce the chain accepts.

Files: `wrappers.dfy` (Option/Result), `bytes.dfy` (bytes, big-endian,
`toBeHex`), `rlp.dfy`, `crypto.dfy`, `authorization.dfy`, `registry.dfy`,
`relay.dfy` (wallet gate, shared records), `one_shot.dfy` (the service
client), `set_code.dfy`, `send_txs.dfy` and `executor_session.dfy` (the three
scripts' flows).

## Model

| member | source | states |
|---|---|---|
| Bytes.BigEndian | scripts/1shot_demo/1-setCodeAndInitialize.ts:44-46 | the integer fields' byte form: denotes n, has no leading zero byte, and is empty exactly for zero |
| Bytes.CanonicalUnique | scripts/1shot_demo/1-setCodeAndInitialize.ts:44-46 | a canonical string is the minimal big-endian form of its own value, so the minimal form is unique |
| Bytes.BigEndianInjective | scripts/1shot_demo/1-setCodeAndInitialize.ts:44-46 | distinct integers have distinct minimal big-endian forms, and conversely |
| Bytes.BigEndianFits | scripts/1shot_demo/1-setCodeAndInitialize.ts:44-46 | n's form has at most k bytes exactly when n < 256^k |
| Bytes.Uint256Width | scripts/1shot_demo/1-setCodeAndInitialize.ts:44 | a 256-bit chain id takes at most 32 bytes |
| Bytes.ToBeHex | scripts/1shot_demo/1-setCodeAndInitialize.ts:44-46 | `ethers.toBeHex` denotes n, is never empty, is canonical for n > 0 and is the single byte 0x00 for zero |
| Bytes.ToBeHexPositive | scripts/1shot_demo/1-setCodeAndInitialize.ts:44-46 | for positive n, `toBeHex` is the minimal big-endian form |
| Rlp.Header | scripts/1shot_demo/1-setCodeAndInitialize.ts:52-56 | the short header is offset + length up to 55 bytes; above that it is offset + 55 + the length's width, followed by the length |
| Rlp.Encode | scripts/1shot_demo/1-setCodeAndInitialize.ts:52-56 | the encoding's length is the sum of the header and payload lengths |
| Rlp.DecodePrefixEncode | scripts/1shot_demo/1-setCodeAndInitialize.ts:52-56 | decoding an encoded item followed by any bytes yields the item and the exact length consumed |
| Rlp.DecodeItemsEncodeAll | scripts/1shot_demo/1-setCodeAndInitialize.ts:52-56 | decoding a list payload yields the items in order |
| Rlp.DecodeEncode | scripts/1shot_demo/1-setCodeAndInitialize.ts:52-56 | decode inverts encode on every encodable item |
| Rlp.EncodeInjective | scripts/1shot_demo/1-setCodeAndInitialize.ts:52-56 | two items have the same encoding if and only if they are equal |
| Authorization.NewTuple | scripts/1shot_demo/1-setCodeAndInitialize.ts:34-46 | the tuple carries the given chain id and delegate, and the nonce is the transaction count plus one, so at least 1 |
| Authorization.Fields | scripts/1shot_demo/1-setCodeAndInitialize.ts:53-55 | the EIP-7702 list items: three strings denoting chain id, address and nonce, in that order |
| Authorization.WrittenFields | scripts/1shot_demo/1-setCodeAndInitialize.ts:44-46 | the script's list items: three strings denoting chain id, address and nonce, in that order, the integers never empty |
| Authorization.Message | scripts/1shot_demo/1-setCodeAndInitialize.ts:50-57 | the EIP-7702 message is 0x05 followed by an RLP string that decodes to the list [chainId, address, nonce], in that order, integers in minimal form |
| Authorization.NonceField | scripts/1shot_demo/1-setCodeAndInitialize.ts:34-46 | the nonce field the script hashes denotes the transaction count plus one and is non-empty without a leading zero |
| Authorization.MessageFieldsCanonical | scripts/1shot_demo/1-setCodeAndInitialize.ts:44-46 | both integer fields are canonical RLP scalars of the tuple's chain id and nonce |
| Authorization.MessageInjective | scripts/1shot_demo/1-setCodeAndInitialize.ts:50-57 | two tuples give the same EIP-7702 message if and only if they are equal in chain id, address and nonce |
| Authorization.MessageAsWrittenInjective | scripts/1shot_demo/1-setCodeAndInitialize.ts:50-61 | two tuples give the same message as the script builds it if and only if they are equal in chain id, address and nonce |
| Authorization.Digest | scripts/1shot_demo/1-setCodeAndInitialize.ts:60 | keccak256 of the script's message; for a non-zero chain id and nonce it equals keccak256 of the EIP-7702 message |
| Authorization.DigestSeparates | scripts/1shot_demo/1-setCodeAndInitialize.ts:59-61 | under a collision-free hash, two tuples have the same signed digest if and only if they are equal |
| Authorization.SubmittedEntry | scripts/1shot_demo/1-setCodeAndInitialize.ts:130-136 | the relayed entry carries the hashed address and `toBeHex` nonce bytes, the numeric value of the hashed chain id string, and the given signature |
| Authorization.MessageAsWritten | scripts/1shot_demo/1-setCodeAndInitialize.ts:44-57 | the message the script signs is 0x05 followed by an RLP string that decodes to the list [toBeHex(chainId), address, toBeHex(nonce)], in that order |
| Authorization.AsWrittenAgrees | scripts/1shot_demo/1-setCodeAndInitialize.ts:44-57 | with non-zero chain id and nonce, the message as written is the EIP-7702 message |
| Authorization.ZeroChainIdDiverges | scripts/1shot_demo/1-setCodeAndInitialize.ts:44 | with chain id zero, the message as written differs from the EIP-7702 message for every address and nonce |
| Registry.Matching | scripts/1shot_demo/1-setCodeAndInitialize.ts:90-96 | the list answer holds exactly the registered endpoints under the filter key |
| Registry.MatchingAppend | scripts/1shot_demo/1-setCodeAndInitialize.ts:102-115 | a newly registered endpoint appears last among its own key's matches and in no other key's |
| Registry.Reconcile | scripts/1shot_demo/1-setCodeAndInitialize.ts:90-121 | find-or-create only ever appends: the old endpoints are a prefix of the new ones, at most one is added, and the id counter never decreases |
| Registry.ReconcileOutcome | scripts/1shot_demo/1-setCodeAndInitialize.ts:90-121 | find-or-create keeps ids distinct and below the counter; the returned id is the first match afterwards; with a match nothing changes, otherwise exactly one endpoint with the spec and a fresh id is appended |
| Registry.ReconcileIdempotent | scripts/1shot_demo/2-sendTxsAsRelayer.ts:128-168 | a second find-or-create under the same key returns the same id and changes nothing; the registry grows by at most one |
| Registry.ReconcileOtherKeys | scripts/1shot_demo/2-sendTxsAsRelayer.ts:128-359 | find-or-create under one key leaves every other key's list unchanged |
| Relay.Gate | scripts/1shot_demo/1-setCodeAndInitialize.ts:69-86 | the gate passes exactly when a wallet is listed and the first one is not below the threshold, and then yields that wallet; no wallet and an underfunded first wallet are distinct errors |
| OneShot.Client.ListWallets | scripts/1shot_demo/1-setCodeAndInitialize.ts:69-74 | returns the service's wallets for the chain, logs the request, registry unchanged |
| OneShot.Client.ListEndpoints | scripts/1shot_demo/1-setCodeAndInitialize.ts:90-96 | returns the matching endpoints, logs the request, registry unchanged |
| OneShot.Client.Create | scripts/1shot_demo/1-setCodeAndInitialize.ts:102-115 | appends one endpoint with the spec under the fresh id, advances the counter, keeps ids distinct, logs the create |
| OneShot.Client.ReadAddress | scripts/1shot_demo/2-sendTxsAsRelayer.ts:59-62 | returns the oracle's answer for (endpoint, args) and logs the read |
| OneShot.Client.ReadUint | scripts/1shot_demo/2-sendTxsAsRelayer.ts:68-71 | returns the oracle's answer for (endpoint, args) and logs the read |
| OneShot.Client.ReadBytes | scripts/1shot_demo/2-sendTxsAsRelayer.ts:77-89 | returns the oracle's answer for (endpoint, args) and logs the read |
| OneShot.Client.Execute | scripts/1shot_demo/1-setCodeAndInitialize.ts:125-138 | logs the execution with its endpoint, parameters, memo and authorizations; registry unchanged |
| OneShot.AssureEndpoint | scripts/1shot_demo/1-setCodeAndInitialize.ts:90-121 | the one find-or-create step: the new registry and the id are those of `Reconcile`; the log gains the list and, only when nothing matched, one create with the same key |
| OneShot.AssureTwice | scripts/1shot_demo/2-sendTxsAsRelayer.ts:128-168 | two find-or-creates with one spec return the same id, add at most one endpoint and issue at most one create |
| SetCode.RelayEndpointSpec | scripts/1shot_demo/1-setCodeAndInitialize.ts:102-115 | the relay endpoint is `initialize` on the account, non-payable, on Sepolia, for the given wallet, with no inputs or outputs |
| SetCode.RelayEndpointKey | scripts/1shot_demo/1-setCodeAndInitialize.ts:90-115 | the relay endpoint is listed and created under ('7702 EOA Endpoint', the account's address) for the first wallet |
| SetCode.SetCodeAndInitialize | scripts/1shot_demo/1-setCodeAndInitialize.ts:34-138 | if the gate fails, only the wallet list is sent and nothing changes; otherwise find-or-create, then one execute with the authorization signed over the digest of the message the script builds |
| SetCode.SubmittedEntryMatchesDigest | scripts/1shot_demo/1-setCodeAndInitialize.ts:125-138 | the relayed entry has the delegate's address, the nonce count + 1 in canonical non-empty form, the hashed chain id, and the signature over the script's message digest, which for a non-zero chain id is the EIP-7702 digest |
| BatchRelay.MainStorageSpec | scripts/1shot_demo/2-sendTxsAsRelayer.ts:141-160 | `getMainStorage`, a view on Sepolia for the given wallet, with no inputs and one address output |
| BatchRelay.NonceSpec | scripts/1shot_demo/2-sendTxsAsRelayer.ts:183-202 | `getNonce`, a view on the storage location for the given wallet, with no inputs and one uint output |
| BatchRelay.ValidationHashSpec | scripts/1shot_demo/2-sendTxsAsRelayer.ts:225-277 | `getValidationTypedHash`, a view taking a uint nonce and an array of Call structs, returning 32 bytes |
| BatchRelay.ExecuteWithValidatorSpec | scripts/1shot_demo/2-sendTxsAsRelayer.ts:300-351 | `executeWithValidator`, non-payable, taking an array of Call structs, the validator and free bytes validation data, with no outputs |
| BatchRelay.ValidationReadArgs | scripts/1shot_demo/2-sendTxsAsRelayer.ts:77-89 | the hash read's arguments: the given nonce and the one transfer of 100000000000 wei to the receiver with empty data |
| BatchRelay.ExecuteParams | scripts/1shot_demo/2-sendTxsAsRelayer.ts:100-111 | the execution's parameters: the same one-transfer batch and exactly the given validation data |
| BatchRelay.EndpointKeys | scripts/1shot_demo/2-sendTxsAsRelayer.ts:128-359 | the nonce endpoint is keyed on the storage location; the other three on the account's address; all for the first wallet |
| BatchRelay.ValidatorPinned | scripts/1shot_demo/2-sendTxsAsRelayer.ts:337-342 | the execute endpoint's second input is `validator`, an address pinned to address(1) |
| BatchRelay.HashedBatchIsExecuted | scripts/1shot_demo/2-sendTxsAsRelayer.ts:76-110 | the batch read for hashing and the batch executed are the same sequence of calls; the execution carries exactly the given signature |
| BatchRelay.ReadWalletNonce | scripts/1shot_demo/2-sendTxsAsRelayer.ts:55-71 | find-or-create the storage endpoint, read the storage location; find-or-create the nonce endpoint under it, read the nonce |
| BatchRelay.SignAndExecuteBatch | scripts/1shot_demo/2-sendTxsAsRelayer.ts:73-111 | the hash read for (nonce, batch) precedes the execution, and the execution's validation data is the signature over that hash |
| BatchRelay.SendTxsAsRelayer | scripts/1shot_demo/2-sendTxsAsRelayer.ts:36-115 | if the gate fails, only the wallet list is sent; otherwise four find-or-creates interleaved with reads, the complete log, and the execution signs what it executes |
| ExecutorSession.SessionHashSpec | scripts/1shot_demo/3-createExecutorSession.ts:163-233 | `getSessionTypedHash`, a view on Sepolia for the given wallet, taking one Session struct and returning 32 bytes |
| ExecutorSession.ExecuteFromExecutorSpec | scripts/1shot_demo/3-createExecutorSession.ts:259-348 | `executeFromExecutor`, non-payable, taking an array of Call structs and one Session struct, with no outputs |
| ExecutorSession.EndpointKeys | scripts/1shot_demo/3-createExecutorSession.ts:145-360 | both endpoints are keyed on the account's address under two distinct names, for the first wallet |
| ExecutorSession.SessionSchemasAgree | scripts/1shot_demo/3-createExecutorSession.ts:172-344 | for every account and wallet, the two endpoints carry the two separately written Session schemas, and these are equal: id, executor, validator, validUntil, validAfter, preHook, postHook, signature at indices 0 to 7 |
| ExecutorSession.Window | scripts/1shot_demo/3-createExecutorSession.ts:77-80 | validAfter is the block timestamp and validUntil is exactly 3600 s later, so the window is non-empty |
| ExecutorSession.UnsignedSession | scripts/1shot_demo/3-createExecutorSession.ts:91-100 | the hashed session has id 42069, an empty signature and hooks, the wallet as executor, address(1) as validator and a one-hour window from the block |
| ExecutorSession.SignedSession | scripts/1shot_demo/3-createExecutorSession.ts:118-127 | the executed session has the same id, executor, validator, window and empty hooks, and carries the given signature |
| ExecutorSession.ExecutedSessionIsHashed | scripts/1shot_demo/3-createExecutorSession.ts:105-127 | the executed session equals the hashed session with the signature filled in, and only the signature differs |
| ExecutorSession.SignAndExecuteSession | scripts/1shot_demo/3-createExecutorSession.ts:88-131 | reads the typed hash of the unsigned session, then executes the batch with that session signed over the returned hash |
| ExecutorSession.CreateExecutorSession | scripts/1shot_demo/3-createExecutorSession.ts:40-131 | if the gate fails, only the wallet list is sent; otherwise two find-or-creates, the hash read and the execution, the complete log, and the execution signs what it executes |

## Left out

- HTTP, authentication, `businessId` and the 1Shot client wrapper (`scripts/1shot_demo/1shot-client-wrapper.js`, a dynamic module import): the service is an in-memory registry, oracles and a request log.
- Keccak-256, ECDSA signing and signature serialization are uninterpreted functions; signature recovery is not modelled.
- `signingKey.sign` throws unless the digest is 32 bytes (`1-setCodeAndInitialize.ts:61`, `2-sendTxsAsRelayer.ts:92`, `3-createExecutorSession.ts:105`). The model's `sign` and the hash oracle `readBytes` accept byte strings of any length, so that failure path is not modelled.
- SetCode.SetCodeAndInitialize: signs the message exactly as the script builds it (`Authorization.MessageAsWritten`). At chain id 0 this is not the EIP-7702 message (see "## Findings"); `Authorization.Digest` and `SetCode.SubmittedEntryMatchesDigest` state the agreement for every other chain id.
- The validation and session typed hashes come from the contract through a `read`; they are the oracle `Remote.readBytes`, without EIP-712 encoding.
- Provider reads are parameters: `getNetwork`, `getTransactionCount` and `getBlock`. Environment variables, `console.log`, `process.exit`, `getContractAt` and the unused `calldata` are left out.
- Concurrent find-or-create from several processes is not modelled; the scripts do nothing about it.
- The order in which the service lists endpoints is modelled as registration order; the service's actual order is not part of this model.
- `transactions.*` (script 2) and `contractMethods.*` (scripts 1 and 3) are the same registry. Script 2's create payload names its fields `chain` and `escrowWalletId`, where the others use `chainId` and `walletId`; the model stores both as the same fields.
- Relay.Gate: the balance check `Number(balance) < 0.00001` compares floating-point ether; the model compares a whole-number amount with a threshold parameter. A balance that does not parse (NaN) passes the gate, as NaN < x is false.
- SetCode.SetCodeAndInitialize: requires the transaction count plus one below 2^64, the width of the EIP-7702 nonce. The script's `currentNonce + 1` is a JavaScript number; its precision limit (2^53) is not modelled.
- Authorization.SubmittedEntry: `Number(authorizationData.chainId)` is exact in the model; above 2^53 JavaScript would round it.
- Addresses are taken to be 20 bytes; the checksum-case hex parsing of address strings is not modelled.
- The ids, amounts and timestamps that the scripts send as decimal strings are modelled as numbers.

## Findings

| source | as written | input that shows it | evidently intended | confidence | as-written member | corrected member |
|---|---|---|---|---|---|---|
| scripts/1shot_demo/1-setCodeAndInitialize.ts:44 | `ethers.toBeHex(chainId)` turns 0 into the single byte 0x00, so the RLP list carries the string 0x00 for the chain id | chain id 0 (EIP-7702's "any chain" authorization), any address and nonce | the RLP integer 0, the empty string (0x80), as the Specification section of EIP-7702 encodes `chain_id` | low, not executed (the script takes the chain id from the connected network, which is never 0) | Authorization.ZeroChainIdDiverges | Authorization.MessageFieldsCanonical |
