# Beeper chain client, modelled in Dafny

`Beeper` is the client a launch service uses to act on a PancakeSwap-V3 style chain, where
PancakeSwap V3 follows Uniswap V3. It deploys the launch contracts with five consecutive
transactions. It trades a wallet's tokens through the V3 swap router:

- native to token;
- token to native;
- token to token, either directly or through the wrapped native token as a two-hop path.

Before any swap that spends a token, it makes sure the router holds an ERC-20 allowance, and
grants the maximum when it does not. Every transaction is signed either by a custodial wallet
service or with a local private key, then sent, and its receipt decides the result. A small
set of helpers builds the text of authenticated HTTP requests: the query string, the message
that gets signed, the header record, and the body of a custodial signing request.

The model replaces the chain with abstract state, held as fields of the `Beeper` class:

- a nonce count per address;
- an allowance map keyed by (token, owner, spender);
- the list of transactions handed to the node so far, including any the node refused.

It also uses fixed oracles:

- the factory's pools, keyed by (token, wrapped native token, fee tier);
- the node's answer (refused at broadcast, mined with a status, or no receipt in time), the
  hash, the created-contract address and the replay result of the transaction a sender
  sends at a given nonce;
- the gas price;
- whether the endpoint is connected.

Each operation that changes state is a `method` on the class. Its contract ties the new state
and the result to a ghost specification function of the old state. The properties the code
promises are then proved as lemmas about those functions:

- path layout;
- the first-hit tier search;
- what a trade may broadcast;
- approval idempotence;
- consecutive deployment nonces;
- the configuration written only after a complete deployment.

Files:

- `wrappers.dfy`: Option and Result.
- `hex.dfy`: addresses as 20 bytes, hexadecimal integers and byte strings, and address text.
- `path.dfy`: `_encode_path`, as written and corrected.
- `routing.dfy`: the decisions that do not touch the chain.
- `util.dfy`: the request helpers.
- `beeper.dfy`: the class and its operations.

## Model

| member | source | states |
|---|---|---|
| Hex.HexConstantValue | src/beeper_server/beeper_chain/beeper.py:58-61 | "0x", then k zeros, then n f's, reads as 2^(4n) - 1 (and is rejected when there are no digits) |
| Hex.DecodeBytesHex | src/beeper_server/beeper_chain/beeper.py:710-713 | the hexadecimal text of a hash decodes back to the same bytes, so the returned "0x"+hex identifies the transaction |
| Hex.AddressRoundTrip | src/beeper_server/beeper_chain/beeper.py:191-192 | an address written into configuration as text parses back to the same address |
| Hex.AddressHexInjective | src/beeper_server/beeper_chain/beeper.py:191-192 | distinct addresses are recorded as distinct text |
| Path.FeeBytes | src/beeper_server/beeper_chain/beeper.py:633-634 | a fee has a 3-byte big-endian form exactly when 0 <= fee < 2^24 |
| Path.FeeRoundTrip | src/beeper_server/beeper_chain/beeper.py:634 | the 3 fee bytes read back as the fee |
| Path.EncodeLayout | src/beeper_server/beeper_chain/beeper.py:612-617 | with in-range fees, the corrected encoding is token0, fee0 (3 bytes), token1, ..., tokenN: hop i at offset 23i and the last token at the end, length 20·\|tokens\| + 3·\|fees\| |
| Path.EncodeFails | src/beeper_server/beeper_chain/beeper.py:634 | the corrected encoding fails with the first out-of-range fee (`to_bytes` raising OverflowError); the loop as written raises only for a fee it converts, see `Path.RepeatedLastTokenHidesBadFee` |
| Path.PrefixOk | src/beeper_server/beeper_chain/beeper.py:630-634 | with every fee in range, the loop (as written or corrected) always produces a path |
| Path.AsWrittenCorrectWhenLastUnique | src/beeper_server/beeper_chain/beeper.py:630-634 | when no earlier token equals the last one, the as-written encoding equals the corrected one |
| Path.RepeatedLastTokenDropsFee | src/beeper_server/beeper_chain/beeper.py:633 | for [X, W, X] the as-written encoding leaves out the first fee and is 3 bytes short, while the corrected one keeps both fees |
| Path.RepeatedLastTokenHidesBadFee | src/beeper_server/beeper_chain/beeper.py:630-634 | the loop as written skips the fee of any token equal to the last one, even an out-of-range fee: for [X, W, X] with the first fee out of range it still returns X, W, second fee, X, while the corrected loop fails on that fee |
| Path.ReverseInPlace | src/beeper_server/beeper_chain/beeper.py:626-628 | after the call the array holds the reverse of its old contents |
| Path.EncodePath | src/beeper_server/beeper_chain/beeper.py:625-636 | fails with both arrays unchanged unless \|fees\| = \|tokens\| - 1; otherwise, with exactOutput, both arrays are reversed in place (the caller sees the change), and the result is the as-written encoding of the possibly reversed lists |
| Path.EncodeTokens | src/beeper_server/beeper_chain/beeper.py:630-636 | the accumulating loop computes the as-written encoding |
| Routing.FirstTierIsFirstHit | src/beeper_server/beeper_chain/beeper.py:330-336 | the search finds nothing iff no tier has a pool; what it finds is a tier with a pool, and every tier before it has none |
| Routing.FirstTierInRange | src/beeper_server/beeper_chain/beeper.py:330-336 | the tier found is one of the listed tiers, so it fits in 3 bytes |
| Routing.SearchFeeTier | src/beeper_server/beeper_chain/beeper.py:365-371 | the loop with `break` hits iff some tier has a pool; it then returns the first such tier, and otherwise the caller's fee |
| Routing.TwoHopPath | src/beeper_server/beeper_chain/beeper.py:451-478 | `_encode_path` as written always encodes [input, wrapped, output] with the two tiers found; for input ≠ output (output not the wrapped token) it is the corrected 66-byte path laid out hop by hop, and for input = output it is input, wrapped, second fee, input: 63 bytes, not the corrected path |
| Routing.Dispatch | src/beeper_server/beeper_chain/beeper.py:307-318 | an empty input goes native-to-token, even when the output is empty too; otherwise an empty output goes token-to-native; otherwise token-to-token (each an iff) |
| Routing.SignerBoundary | src/beeper_server/beeper_chain/beeper.py:697-702 | custodial signing iff an application id is set and the credential has at most 63 characters; never with 64 or more, never without an application id |
| Routing.MaxApprovalValue | src/beeper_server/beeper_chain/beeper.py:58-59 | the granted approval is 2^256 - 1 |
| Routing.ApprovalCheckValue | src/beeper_server/beeper_chain/beeper.py:60-61 | the approval threshold is 2^196 - 1 |
| Routing.ApprovalConstants | src/beeper_server/beeper_chain/beeper.py:58-61 | the two parsed constants are 2^256 - 1 and 2^196 - 1, with 0 <= threshold < grant |
| Routing.ApprovalOrdered | src/beeper_server/beeper_chain/beeper.py:58-61 | both constants parse, and the threshold is below the grant |
| Routing.ApprovalAmount | src/beeper_server/beeper_chain/beeper.py:647 | a falsy `max_approval` (None or 0) grants the maximum; any other value is granted as given |
| Routing.DefaultApprovalIsApproved | src/beeper_server/beeper_chain/beeper.py:647-668 | a default grant passes the `_is_approved` threshold |
| Routing.GasLimit | src/beeper_server/beeper_chain/beeper.py:726-730 | gas is 300000 unless a truthy override is given, and then it is the override |
| Beeper.OutcomeMeaning | src/beeper_server/beeper_chain/beeper.py:704-715 | a hash is returned iff the receipt is mined with a non-zero status, as "0x" followed by text that decodes to the hash; status 0 raises iff the replay raises; no receipt in time raises; a refused broadcast raises the node's error |
| Beeper.Init | src/beeper_server/beeper_chain/beeper.py:43-74 | fails in this order: missing RPC, not connected, router key missing or malformed, custodial application id without its secret; fails iff one of these holds; on success a fresh client with the parsed router, the approval constants and the chain's initial state |
| Beeper.Beeper.constructor | src/beeper_server/beeper_chain/beeper.py:58-63 | the client holds the approval constants parsed from their hexadecimal text, the router, and the chain's nonces and allowances, with nothing sent yet |
| Beeper.Beeper.SignerFor | src/beeper_server/beeper_chain/beeper.py:697-702 | custodial with (application id, wallet id) iff the signer test holds, otherwise the local key |
| Beeper.Beeper.SendAdvancesNonce | src/beeper_server/beeper_chain/beeper.py:703-705 | a transaction sent at the sender's count is logged, and once mined it moves that count on by exactly one; no other address's count changes |
| Beeper.Beeper.Submit | src/beeper_server/beeper_chain/beeper.py:703-715 | broadcast, then receipt: the new state and the result are the `Send` step of the old state, in which a refused broadcast raises and consumes no nonce |
| Beeper.Beeper.BuildAndSendTx | src/beeper_server/beeper_chain/beeper.py:690-715 | sends the call with the given parameters through the signer the credential selects |
| Beeper.Beeper.GetTxParams | src/beeper_server/beeper_chain/beeper.py:717-732 | sender, value and gas price as given, the sender's current count as nonce, gas 300000 unless a truthy override is given |
| Beeper.Beeper.IsApprovedNow | src/beeper_server/beeper_chain/beeper.py:661-671 | approved iff the router's allowance from the wallet for that token reaches the threshold |
| Beeper.Beeper.ApproveRouter | src/beeper_server/beeper_chain/beeper.py:645-659 | sends one `approve(router, amount)` at the wallet's count with default gas; the receipt is discarded unless it raised |
| Beeper.Beeper.CheckApproval | src/beeper_server/beeper_chain/beeper.py:638-643 | nothing is sent when the token is approved, otherwise one default approval |
| Beeper.Beeper.ApprovalIdempotent | src/beeper_server/beeper_chain/beeper.py:638-671 | once approved, a check changes nothing; after a check whose approval was mined successfully, the allowance is the maximum and the next check sends nothing |
| Beeper.Beeper.ApprovalStepShape | src/beeper_server/beeper_chain/beeper.py:638-659 | a check sends nothing when approved, else exactly the maximal approval at the wallet's count, and the count moves on by one when the check goes on; other counts do not change |
| Beeper.Beeper.HopPath | src/beeper_server/beeper_chain/beeper.py:451-480 | the two-hop path is the as-written encoding of [input, wrapped, output] with the two tiers found; for input ≠ output it is the corrected 66-byte path laid out hop by hop, and for input = output it is the 63-byte path missing the first fee |
| Beeper.Beeper.ChosenFeeMeaning | src/beeper_server/beeper_chain/beeper.py:330-336 | the fee of the single-pool routes is the largest tier with a pool (tiers go from 10000 down), or the caller's fee when no tier has one |
| Beeper.Beeper.NativeToTokenFee | src/beeper_server/beeper_chain/beeper.py:320-353 | buying sends one `exactInputSingle(wrapped, token, chosen fee, wallet, amount)` carrying `amount` as value, with default gas |
| Beeper.Beeper.TokenToTokenRoute | src/beeper_server/beeper_chain/beeper.py:403-492 | approval first; a direct swap at the caller's fee when the wrapped token is on one side; otherwise a failure with no swap sent when either side has no pool (input checked first), else one exact-input swap along the as-written path: 66 bytes laid out hop by hop for input ≠ output, 63 bytes for input = output |
| Beeper.Beeper.SameTokenTradeDropsFee | src/beeper_server/beeper_chain/beeper.py:295-318 | `make_trade(X, X)` for a token X other than the wrapped one, once approved and with a pool at tier f, sends one exact-input swap along X, wrapped, f, X: 63 bytes, not the corrected path |
| Beeper.Beeper.NativeToTokenBroadcast | src/beeper_server/beeper_chain/beeper.py:320-353 | buying broadcasts at most one swap, from the wallet, at its count |
| Beeper.Beeper.TokenToNativeBroadcast | src/beeper_server/beeper_chain/beeper.py:355-401 | selling broadcasts at most the approval of the token and then one multicall swap, at consecutive nonces |
| Beeper.Beeper.TokenToTokenBroadcast | src/beeper_server/beeper_chain/beeper.py:403-492 | token to token broadcasts at most the approval of the input token and then one swap, at consecutive nonces |
| Beeper.Beeper.TradeBroadcasts | src/beeper_server/beeper_chain/beeper.py:295-318 | every trade keeps the log's prefix and adds at most the approval of the input token, then one swap, from the wallet through the chosen signer at consecutive nonces; a returned hash belongs to that swap, mined successfully; a malformed wallet sends nothing |
| Beeper.Beeper.NativeToTokenTrade | src/beeper_server/beeper_chain/beeper.py:320-353 | new state and result are those of the buying specification |
| Beeper.Beeper.TokenToNativeTrade | src/beeper_server/beeper_chain/beeper.py:355-401 | new state and result are those of the selling specification: approval, then `multicall([exactInputSingle(token, wrapped, fee, 0, amount), unwrapWETH9(0, wallet)])` |
| Beeper.Beeper.TokenToTokenViaHop | src/beeper_server/beeper_chain/beeper.py:439-492 | new state and result are those of the two-hop specification, whose swap carries the as-written path |
| Beeper.Beeper.TokenToTokenTrade | src/beeper_server/beeper_chain/beeper.py:403-437 | new state and result are those of the token-to-token specification, whose hop branch sends the as-written path |
| Beeper.Beeper.MakeTrade | src/beeper_server/beeper_chain/beeper.py:295-318 | new state and result are those of the dispatched route, including the 63-byte path of a token traded for itself |
| Beeper.Beeper.TransferAssetSends | src/beeper_server/beeper_chain/beeper.py:494-564 | nothing is sent on a malformed address or, for the native token, a missing chain id; otherwise one transaction at the wallet's count: a value transfer with 100000 gas, or an ERC-20 transfer with no value and default gas; a returned hash means it was mined successfully |
| Beeper.Beeper.Transfer | src/beeper_server/beeper_chain/beeper.py:525-564 | new state and result are those of the native transfer specification |
| Beeper.Beeper.TransferTokenTx | src/beeper_server/beeper_chain/beeper.py:506-523 | new state and result are those of the ERC-20 transfer specification |
| Beeper.Beeper.TransferAsset | src/beeper_server/beeper_chain/beeper.py:494-504 | "" selects the native transfer, anything else the token transfer |
| Beeper.Beeper.FailureMeaning | src/beeper_server/beeper_chain/beeper.py:98-103 | in any ledger, a deployment step goes on iff its transaction is mined with a non-zero status |
| Beeper.Beeper.DeployTxs | src/beeper_server/beeper_chain/beeper.py:87-187 | five transactions from the wallet with nonces n, n+1, ..., n+4, 10000000 gas each, signed with the local key |
| Beeper.Beeper.RunFromLog | src/beeper_server/beeper_chain/beeper.py:87-187 | running the steps logs exactly the ones attempted; it stops at the first that fails, after all earlier ones succeeded |
| Beeper.Beeper.RunFromNonce | src/beeper_server/beeper_chain/beeper.py:87-187 | when every step succeeds, the wallet's count has moved on by the number of steps |
| Beeper.Beeper.DeployRun | src/beeper_server/beeper_chain/beeper.py:87-187 | the run completes iff all five transactions succeed; otherwise it stops at the first failure, having logged the transactions up to and including it |
| Beeper.Beeper.DeployProperties | src/beeper_server/beeper_chain/beeper.py:76-192 | a missing or malformed input sends nothing; otherwise it is deployed iff all five succeed, and then the count is n+5 and `Beeper`/`BeeperUtil` are set to the contracts the first and fourth created; a stopped run leaves the configuration unchanged |
| Beeper.Beeper.ReadDeployInputs | src/beeper_server/beeper_chain/beeper.py:77-80 | reads router, factory and position manager from configuration, then the wallet; the first missing or malformed one is the error |
| Beeper.Beeper.DeployStep | src/beeper_server/beeper_chain/beeper.py:96-103 | one step either continues the run or ends it as failed at that step, leaving configuration alone |
| Beeper.Beeper.Deploy | src/beeper_server/beeper_chain/beeper.py:76-192 | new state, configuration and outcome are those of the deployment specification |
| Beeper.Beeper.DeployFrom | src/beeper_server/beeper_chain/beeper.py:87-103 | from the first step on, the run matches the specification |
| Beeper.Beeper.DeployLocker | src/beeper_server/beeper_chain/beeper.py:105-127 | from the second step on, the run matches the specification |
| Beeper.Beeper.ConfigureDeployment | src/beeper_server/beeper_chain/beeper.py:129-192 | the last three steps run, then the configuration is written only if all succeeded |
| Util.Kept | src/beeper_server/beeper_chain/util.py:155-157 | every kept pair is an entry with a non-empty value, and every entry with a non-empty value is kept; none are kept iff every value is empty |
| Util.KeptOne | src/beeper_server/beeper_chain/util.py:156-157 | a single entry is kept iff its value is not empty |
| Util.KeptConcat | src/beeper_server/beeper_chain/util.py:155-157 | keeping distributes over concatenation, so the kept pairs keep the iteration order |
| Util.EmittedIsJoinPlusSeparator | src/beeper_server/beeper_chain/util.py:155-158 | the loop writes the kept pairs joined by "&", with one trailing "&" when any pair is kept |
| Util.ParseParamsToStr | src/beeper_server/beeper_chain/util.py:153-159 | the loop builds the query string |
| Util.QueryStringShape | src/beeper_server/beeper_chain/util.py:153-159 | empty iff every value is empty; otherwise "?" followed by the kept key=value pairs joined by "&", whose last character is the last character of the last kept value (only the final separator is stripped) |
| Util.Upper | src/beeper_server/beeper_chain/util.py:137 | uppercasing works character by character and keeps the length |
| Util.UpperIdempotent | src/beeper_server/beeper_chain/util.py:137 | uppercasing twice is uppercasing once |
| Util.PreHashParts | src/beeper_server/beeper_chain/util.py:135-138 | the message splits into timestamp, uppercased method, path and body, and uppercasing the method first gives the same message |
| Util.PreHashMethodCase | src/beeper_server/beeper_chain/util.py:137 | two methods with the same uppercase form give the same message, so the case in which the method is given does not matter |
| Util.SignatureMatchesPreHash | src/beeper_server/beeper_chain/util.py:168-171 | the signed message is `pre_hash` of the normalised body; any body other than "{}" and "None" is kept as is, and those two sign like "" |
| Util.GetHeader | src/beeper_server/beeper_chain/util.py:141-151 | exactly six entries: JSON content type, project, key, sign, timestamp and passphrase as given |
| Util.FirstMissing | src/beeper_server/beeper_chain/util.py:47-55 | the first field the transaction lacks, in the order they are read, so its KeyError names it |
| Util.RenameBackInverts | src/beeper_server/beeper_chain/util.py:47-55 | renaming the signer's keys back restores the source fields |
| Util.SignerRecord | src/beeper_server/beeper_chain/util.py:47-61 | to, nonce and value are copied; gas, gasPrice and chainId become gas_limit, gas_price and chain_id; type is 0; data is present iff the input's data is present and truthy, and is then the same |
| Util.SignTransaction | src/beeper_server/beeper_chain/util.py:40-69 | fails iff a source field is missing, naming the first one; otherwise a request to the wallet's `/rpc` url under the signer's base url, with the application id and JSON content type as headers, and a body holding exactly method "eth_signTransaction" and params, whose transaction is the mapped record |

## Left out

- The ABI encoding of calls (`build_transaction`, `encode_abi`) and contract bytecode loading are left out. A call is a datatype naming the function and its arguments.
- Integer arguments outside their ABI range are not rejected, as the ABI encoder would reject them. An amount outside the unsigned 256-bit range is sent anyway. So is a caller's `fee` outside [0, 2^24), the uint24 range: the direct token-to-token swap uses that fee, and so do the single-pool routes when no tier has a pool. In the source these raise before the swap is sent. On the routes that spend a token (`_token_to_native`, `_token_to_token` and `_token_to_token_via_hop`), the approval sent by `_check_appraval` may already have gone out.
- The chain id and the deadline of the swap calls (`time.time()`) are not modelled.
- The swap calls' `amountOutMinimum` and `sqrtPriceLimitX96`, fixed at 0 in the source, are left out of the call datatype.
- EIP-55 checksum casing (`Web3.to_checksum_address`) needs keccak and is not modelled. An address is accepted exactly when it is "0x" (optional) followed by 40 hexadecimal digits, and configuration records addresses in lower-case hex.
- The gas price is fixed per client instead of being read per transaction, and the connected flag is fixed too.
- The node's answer, hash, created-contract and replay lookups are fixed per (sender, nonce). Re-sending at the same nonce therefore sees the same answer.
- Beeper.Beeper.Submit: a refused broadcast (`send_raw_transaction` raising) raises and consumes no nonce, but the transaction stays in the log, which records every transaction handed to the node rather than only those the node accepted.
- `Send` only models an approval's effect on allowances. Balances, swaps' token movements and `get_balance`/`_get_erc20_balance` are left out.
- The wrapped native token returned by `WETH9().call()` is a constant of the chain.
- `get_token_pool` is a lookup in a fixed pool map, and the factory's own configuration lookup is not modelled.
- Beeper.Beeper.ApproveRouter: the three-second pause after an approval (`time.sleep`) is left out.
- HMAC-SHA256 and base64 in `sign`/`signature`, local ECDSA signing, and `get_timestamp` are left out. The model stops at the message that is signed.
- The HTTP POSTs of `_sign_transcation` and `_create_wallet` and the parsing of their responses are left out. The model builds the request and stops there; the signed transaction is not modelled.
- Util.Upper: only ASCII letters are uppercased. Python's `str.upper` also maps other scripts.
- The OKX header names come from `consts.py`, which is not part of this model. The model uses the names the OKX API documents (`OK-ACCESS-KEY` and so on).
- `set_admin`, `deploy_token`, `claim_reward`, `create_wallet`, `swap_with_0xexchange`, `get_0x_quote` and the OKX client are not in the modelled core.
- Default arguments are not modelled. Every modelled operation takes them as explicit parameters:
  - `make_trade`, `_native_to_token`, `_token_to_native` and `_token_to_token`: amount 1000000 and fee 10000;
  - `transfer_asset`, `_transfer_token` and `_transfer`: amount 1000000;
  - `_get_tx_params`: value 0 and gas None.
- The `fee` parameter of `_token_to_token_via_hop` (default 10000) is not part of `Beeper.Beeper.TokenToTokenViaHop`, because the tier loops reuse the name as their loop variable and the value passed in is never read.
- Beeper.Beeper.Deploy: the configuration is a value held by the client. In the source the client keeps the caller's dictionary by reference (`self.config = config`), so the writes of `Beeper` and `BeeperUtil` also reach the caller's dictionary. That sharing is not modelled; no modelled operation depends on it.
- Logging and printing are left out. `exit(1)` becomes the `Stopped` outcome in deployment and a failure result in `Init`.
- The hash text assumes `.hex()` gives digits without a "0x" prefix, as for bytes objects.
- Concurrency and other clients sending from the same wallet are left out. The nonce is read once per transaction, in order.

## Findings

| source | as written | input that shows it | evidently intended | confidence | as-written member | corrected member |
|---|---|---|---|---|---|---|
| src/beeper_server/beeper_chain/beeper.py:633 | `_encode_path` adds a token's fee unless the token equals the last token by value | tokens [X, W, X] with fees [f1, f2], reached by `make_trade` with the same token X (not the wrapped one W) as input and output; the path misses f1 and is 63 bytes instead of 66. Through `make_trade` both fees come from the same tier search on X, so f1 = f2 and both are listed tiers; that an out-of-range f1 raises no error shows only when `_encode_path` is called directly | a fee after every token but the last by position, as the Uniswap V3 path format requires | not executed | Path.RepeatedLastTokenDropsFee, Path.RepeatedLastTokenHidesBadFee, Beeper.Beeper.SameTokenTradeDropsFee | Path.EncodeLayout, Path.EncodeFails |

The trading operations follow the code as written: `Beeper.Beeper.HopPath` is the as-written
encoding, so `Beeper.Beeper.MakeTrade` sends the 63-byte path for a token traded for itself.
The corrected encoding `Path.Encode`, with its layout proved by `Path.EncodeLayout`, is the
path the two-hop route would send with the fix. `Routing.TwoHopPath` proves the two agree
whenever the input and output tokens differ (and the output is not the wrapped token, as on
the hop route).
