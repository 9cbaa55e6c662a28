/**
 * The `Beeper` client: it deploys the launch contracts, trades through the v3 swap router,
 * moves assets and approves the router, and submits every transaction through one
 * sign-broadcast-wait pipeline.
 *
 * The chain is abstract. The object holds the part the client changes (each sender's
 * transaction count, the ERC-20 allowances and the log of transactions handed to the node:
 * the `Ledger`) and, as constants, the answers the node gives: pools at the factory, the
 * wrapped native token, the gas price, and for each (sender, nonce) the node's answer to the
 * submission (refused, mined with a status, or no receipt in time), the transaction hash,
 * the address of a created contract and the error a replay of the call raises.
 */
module Beeper {
  import opened Wrappers
  import opened Hex
  import Path
  import opened Routing

  /**
   * What the node answers for a submission: it refuses the raw transaction at broadcast, or
   * the transaction is mined with a status, or no receipt arrives in time.
   */
  datatype Receipt = Refused(reason: string) | Mined(status: nat) | TimedOut

  /** Who signs: the custodial service for a wallet id, or a local private key. */
  datatype Signer = Custodial(appId: string, walletId: string) | LocalKey(privateKey: string)

  /** The contract calls the client builds; their ABI encoding is not modelled. */
  datatype Call =
    | CreateBeeper(wnative: Address, factory: Address, positionManager: Address, swapRouter: Address, eoa: Address)
    | CreateLocker(beeper: Address, positionManager: Address, eoa: Address, lockDuration: nat)
    | UpdateLiquidityLocker(beeper: Address, locker: Address)
    | CreateUtil(beeper: Address, wnative: Address)
    | ToggleAllowedPairedToken(beeper: Address, token: Address, allowed: bool)
    | ExactInputSingle(tokenIn: Address, tokenOut: Address, fee: int, recipient: Address, amountIn: int)
    | UnwrapWeth9(amountMinimum: int, recipient: Address)
    | Multicall(calls: seq<Call>)
    | ExactInput(path: seq<Byte>, recipient: Address, amountIn: int)
    | Approve(token: Address, spender: Address, amount: int)
    | TransferToken(token: Address, recipient: Address, amount: int)
    | NativeTransfer(recipient: Address)

  datatype TxParams = TxParams(from: Address, value: int, nonce: nat, gasPrice: nat, gas: int)

  datatype Tx = Tx(params: TxParams, call: Call, signer: Signer)

  datatype Error =
    | InvalidAddress(text: string)
    | MissingConfig(key: string)
    | NotConnected
    | MissingAppSecret
    | NoRoute(message: string)
    | Reverted(cause: string)
    | ConfirmationTimeout
    | BroadcastRefused(reason: string)

  /** What a submission returns: "0x" and the hash, None, or the exception raised. */
  type SendResult = Result<Option<string>, Error>

  datatype AllowanceKey = AllowanceKey(token: Address, owner: Address, spender: Address)

  /** The chain state the client changes. */
  datatype Ledger = Ledger(nonces: map<Address, nat>, allowances: map<AllowanceKey, nat>, sent: seq<Tx>)

  /** The answers of the node and the contracts, fixed for the life of a client object. */
  datatype ChainOracle = ChainOracle(
    connected: bool,
    wnative: Address,
    gasPrice: nat,
    nonces: map<Address, nat>,
    allowances: map<AllowanceKey, nat>,
    pools: Pools,
    receipt: (Address, nat) -> Receipt,
    txHash: (Address, nat) -> seq<Byte>,
    created: (Address, nat) -> Address,
    replay: (Address, nat) -> Option<string>)

  /**
   * How `_build_and_send_tx` reads the node's answer: a refused broadcast is an exception
   * raised before any receipt; a non-zero status returns "0x" and the hash; status 0 runs
   * the replay of `_display_cause`, whose error is re-raised, and returns None when the
   * replay raises nothing; no receipt in time is an exception.
   */
  function Outcome(receipt: Receipt, replayError: Option<string>, hash: seq<Byte>): SendResult
  {
    match receipt
    case Refused(reason) => Err(BroadcastRefused(reason))
    case TimedOut => Err(ConfirmationTimeout)
    case Mined(status) =>
      if status != 0 then Ok(Some("0x" + BytesHex(hash)))
      else if replayError.Some? then Err(Reverted(replayError.value))
      else Ok(None)
  }

  /** A hash is returned exactly for a mined transaction with a non-zero status. */
  lemma OutcomeMeaning(receipt: Receipt, replayError: Option<string>, hash: seq<Byte>)
    ensures var r := Outcome(receipt, replayError, hash);
      && (r.Ok? && r.value.Some? <==> receipt.Mined? && receipt.status != 0)
      && (r.Ok? && r.value.Some? ==> |r.value.value| == 2 + 2 * |hash| && r.value.value[..2] == "0x"
                                     && DecodeBytes(r.value.value[2..]) == Some(hash))
      && (receipt == Mined(0) ==> (r.Err? <==> replayError.Some?))
      && (receipt.TimedOut? ==> r == Err(ConfirmationTimeout))
      && (receipt.Refused? ==> r == Err(BroadcastRefused(receipt.reason)))
  {
    DecodeBytesHex(hash);
    var r := Outcome(receipt, replayError, hash);
    if r.Ok? && r.value.Some? {
      assert r.value.value[2..] == BytesHex(hash);
    }
  }

  /** The text of an address in configuration: KeyError when absent, rejected when malformed. */
  function ConfigAddress(config: map<string, string>, key: string): Result<Address, Error>
  {
    if key !in config then Err(MissingConfig(key))
    else match ParseAddress(config[key])
      case None => Err(InvalidAddress(config[key]))
      case Some(a) => Ok(a)
  }

  function ParseOrReject(text: string): Result<Address, Error>
  {
    match ParseAddress(text)
    case None => Err(InvalidAddress(text))
    case Some(a) => Ok(a)
  }

  const DeployGas: int := 10_000_000
  const TransferGas: int := 100_000
  const LockDuration: nat := 60
  const NoInputPair := "No pair for input token or not paired with wbnb"
  const NoOutputPair := "No pair for output token or not paired with wbnb"

  /** How a deployment step stops the run: `exit(1)` after a failed receipt, or an exception. */
  datatype StepFailure = Exited | Raised(error: Error)

  /** Steps run until the first one that does not succeed; `completed` counts the successful ones. */
  datatype Run = Run(ledger: Ledger, completed: nat, failure: Option<StepFailure>)

  datatype DeployOutcome =
    | Deployed(beeper: Address, util: Address)
    | Rejected(error: Error)
    | Stopped(step: nat, failure: StepFailure)

  /** The addresses `deploy` reads before it sends anything. */
  datatype DeployArgs = DeployArgs(swapRouter: Address, factory: Address, positionManager: Address, wallet: Address)

  /** How a deployment step reads its submission: a hash continues, None exits, an error propagates. */
  function Failure(r: SendResult): Option<StepFailure>
  {
    if r.Err? then Some(Raised(r.error)) else if r.value.None? then Some(Exited) else None
  }

  /** `deploy` reads the router, factory and position manager from configuration, then the wallet. */
  function DeployInputs(config: map<string, string>, walletText: string): Result<DeployArgs, Error>
  {
    var swapRouter :- ConfigAddress(config, "PancakeV3SwapRouter");
    var factory :- ConfigAddress(config, "PancakeV3Factory");
    var positionManager :- ConfigAddress(config, "PostionManage");
    var wallet :- ParseOrReject(walletText);
    Ok(DeployArgs(swapRouter, factory, positionManager, wallet))
  }

  class Beeper {
    var config: map<string, string>
    const adminWallet: string
    const adminKey: string
    const privyAppId: string
    const router: Address
    const maxApprovalInt: nat
    const maxApprovalCheckInt: nat

    const wnative: Address
    const gasPrice: nat
    const pools: Pools
    const receipt: (Address, nat) -> Receipt
    const txHash: (Address, nat) -> seq<Byte>
    const created: (Address, nat) -> Address
    const replay: (Address, nat) -> Option<string>

    var nonces: map<Address, nat>
    var allowances: map<AllowanceKey, nat>
    var sent: seq<Tx>

    /** The approval constants as `__init__` computes them from their hexadecimal text. */
    predicate Valid()
    {
      && ParseHexInt(MaxApprovalHex) == Some(maxApprovalInt)
      && ParseHexInt(ApprovalCheckHex) == Some(maxApprovalCheckInt)
      && maxApprovalCheckInt < maxApprovalInt
    }

    constructor (config: map<string, string>, adminWallet: string, adminKey: string, privyAppId: string,
                 router: Address, chain: ChainOracle)
      ensures Valid()
      ensures this.config == config && this.adminWallet == adminWallet && this.adminKey == adminKey
      ensures this.privyAppId == privyAppId && this.router == router
      ensures wnative == chain.wnative && gasPrice == chain.gasPrice && pools == chain.pools
      ensures receipt == chain.receipt && txHash == chain.txHash && created == chain.created && replay == chain.replay
      ensures State() == Ledger(chain.nonces, chain.allowances, [])
    {
      var grant, threshold := ParseHexInt(MaxApprovalHex), ParseHexInt(ApprovalCheckHex);
      ApprovalOrdered();
      this.config := config;
      this.adminWallet := adminWallet;
      this.adminKey := adminKey;
      this.privyAppId := privyAppId;
      this.router := router;
      maxApprovalInt := grant.value;
      maxApprovalCheckInt := threshold.value;
      wnative := chain.wnative;
      gasPrice := chain.gasPrice;
      pools := chain.pools;
      receipt := chain.receipt;
      txHash := chain.txHash;
      created := chain.created;
      replay := chain.replay;
      nonces := chain.nonces;
      allowances := chain.allowances;
      sent := [];
    }

    function State(): Ledger
      reads this
    {
      Ledger(nonces, allowances, sent)
    }

    /** `get_transaction_count(address)` in a ledger. */
    function NonceIn(l: Ledger, a: Address): nat
    {
      if a in l.nonces then l.nonces[a] else 0
    }

    /** `allowance(owner, spender)` of a token in a ledger. */
    function AllowanceIn(l: Ledger, token: Address, owner: Address): nat
    {
      var key := AllowanceKey(token, owner, router);
      if key in l.allowances then l.allowances[key] else 0
    }

    /** The signer `_build_and_send_tx` and `_transfer` pick for a credential. */
    function SignerFor(credential: string): (s: Signer)
      ensures s.Custodial? <==> UsesCustodialSigner(privyAppId, credential)
      ensures s.Custodial? ==> s == Custodial(privyAppId, credential)
      ensures s.LocalKey? ==> s == LocalKey(credential)
    {
      if UsesCustodialSigner(privyAppId, credential) then Custodial(privyAppId, credential) else LocalKey(credential)
    }

    /** What a successful transaction changes in the allowances: only an approval does. */
    function Effect(allowances: map<AllowanceKey, nat>, tx: Tx): map<AllowanceKey, nat>
    {
      match tx.call
      case Approve(token, spender, amount) =>
        if amount >= 0 then allowances[AllowanceKey(token, tx.params.from, spender) := amount] else allowances
      case _ => allowances
    }

    /**
     * One submission against the chain: the transaction is handed to the node (logged, even
     * when the node refuses it), a mined one uses up its nonce whatever its status, a refused
     * or unconfirmed one leaves the nonce alone, a successful one takes effect, and the
     * node's answer decides the result.
     */
    function Send(l: Ledger, tx: Tx): (Ledger, SendResult)
    {
      var from, nonce := tx.params.from, tx.params.nonce;
      var rc := receipt(from, nonce);
      var nonces' := if rc.Mined? then l.nonces[from := nonce + 1] else l.nonces;
      var allowances' := if rc.Mined? && rc.status != 0 then Effect(l.allowances, tx) else l.allowances;
      (Ledger(nonces', allowances', l.sent + [tx]), Outcome(rc, replay(from, nonce), txHash(from, nonce)))
    }

    /**
     * A mined transaction sent at the sender's current count moves the count on by exactly
     * one, so transactions sent one after another use consecutive nonces.
     */
    lemma SendAdvancesNonce(l: Ledger, tx: Tx)
      requires tx.params.nonce == NonceIn(l, tx.params.from)
      ensures Send(l, tx).0.sent == l.sent + [tx]
      ensures receipt(tx.params.from, tx.params.nonce).Mined? ==>
        NonceIn(Send(l, tx).0, tx.params.from) == NonceIn(l, tx.params.from) + 1
      ensures forall a :: a != tx.params.from ==> NonceIn(Send(l, tx).0, a) == NonceIn(l, a)
    {
    }

    /** Sign, broadcast and wait for a receipt. */
    method Submit(tx: Tx) returns (r: SendResult)
      modifies this
      ensures (State(), r) == Send(old(State()), tx)
      ensures config == old(config)
    {
      var from, nonce := tx.params.from, tx.params.nonce;
      sent := sent + [tx];
      var rc := receipt(from, nonce);
      match rc {
        case Refused(reason) =>
          return Err(BroadcastRefused(reason));
        case TimedOut =>
          return Err(ConfirmationTimeout);
        case Mined(status) =>
          nonces := nonces[from := nonce + 1];
          if status == 0 {
            var cause := replay(from, nonce);
            if cause.Some? {
              return Err(Reverted(cause.value));
            }
            return Ok(None);
          }
          allowances := Effect(allowances, tx);
          return Ok(Some("0x" + BytesHex(txHash(from, nonce))));
      }
    }

    /** `_build_and_send_tx(private_key, function, tx_params)`. */
    method BuildAndSendTx(credential: string, call: Call, params: TxParams) returns (r: SendResult)
      modifies this
      ensures (State(), r) == Send(old(State()), Tx(params, call, SignerFor(credential)))
      ensures config == old(config)
    {
      var signer := if privyAppId != "" && |credential| < 64 then Custodial(privyAppId, credential) else LocalKey(credential);
      r := Submit(Tx(params, call, signer));
    }

    /** The parameters `_get_tx_params(address, value, gas)` fills in, in a ledger. */
    function TxParamsIn(l: Ledger, address: Address, value: int, gas: Option<int>): TxParams
    {
      TxParams(address, value, NonceIn(l, address), gasPrice, GasLimit(gas))
    }

    /** `_get_tx_params`: the sender's current count as nonce, the current gas price, 300000 gas by default. */
    method GetTxParams(address: Address, value: int, gas: Option<int>) returns (p: TxParams)
      ensures p.from == address && p.value == value && p.gasPrice == gasPrice
      ensures p.nonce == NonceIn(State(), address)
      ensures p.gas == if gas.Some? && gas.value != 0 then gas.value else 300_000
    {
      var nonce := if address in nonces then nonces[address] else 0;
      p := TxParams(address, value, nonce, gasPrice, 300_000);
      if gas.Some? && gas.value != 0 {
        p := p.(gas := gas.value);
      }
    }

    /** `_is_approved(wallet, token)`: the router's allowance reaches the threshold. */
    method IsApprovedNow(wallet: Address, token: Address) returns (approved: bool)
      ensures approved <==> AllowanceIn(State(), token, wallet) >= maxApprovalCheckInt
    {
      var key := AllowanceKey(token, wallet, router);
      var amount := if key in allowances then allowances[key] else 0;
      approved := IsApproved(amount, maxApprovalCheckInt);
    }

    /** The approval transaction `approve` sends in a ledger. */
    function ApproveTx(l: Ledger, wallet: Address, credential: string, token: Address, maxApproval: Option<int>): Tx
    {
      Tx(TxParamsIn(l, wallet, 0, None), Approve(token, router, ApprovalAmount(maxApproval, maxApprovalInt)), SignerFor(credential))
    }

    /** `approve` returns nothing, whatever the receipt, unless the submission raised. */
    function Discard(r: SendResult): Result<(), Error>
    {
      if r.Err? then Err(r.error) else Ok(())
    }

    /** `_check_appraval` in a ledger: nothing when approved, else one default approval. */
    function ApprovalStep(l: Ledger, wallet: Address, credential: string, token: Address): (Ledger, Result<(), Error>)
    {
      if IsApproved(AllowanceIn(l, token, wallet), maxApprovalCheckInt) then (l, Ok(()))
      else var s := Send(l, ApproveTx(l, wallet, credential, token, None)); (s.0, Discard(s.1))
    }

    /** `approve(wallet, private_key, token, max_approval)`; the pause after it is not modelled. */
    method ApproveRouter(wallet: Address, credential: string, token: Address, maxApproval: Option<int>) returns (r: Result<(), Error>)
      modifies this
      ensures var s := Send(old(State()), ApproveTx(old(State()), wallet, credential, token, maxApproval));
        State() == s.0 && r == Discard(s.1)
      ensures config == old(config)
    {
      var amount := if maxApproval.None? || maxApproval.value == 0 then maxApprovalInt else maxApproval.value;
      var params := GetTxParams(wallet, 0, None);
      var res := BuildAndSendTx(credential, Approve(token, router, amount), params);
      r := if res.Err? then Err(res.error) else Ok(());
    }

    /** `_check_appraval(wallet, private_key, token)`. */
    method CheckApproval(wallet: Address, credential: string, token: Address) returns (r: Result<(), Error>)
      modifies this
      ensures (State(), r) == ApprovalStep(old(State()), wallet, credential, token)
      ensures config == old(config)
    {
      var approved := IsApprovedNow(wallet, token);
      r := Ok(());
      if !approved {
        r := ApproveRouter(wallet, credential, token, None);
      }
    }

    /**
     * Approval is idempotent: once the router is approved, a check sends nothing and changes
     * nothing; and after a check whose approval succeeded, the next check sends nothing.
     */
    lemma ApprovalIdempotent(l: Ledger, wallet: Address, credential: string, token: Address)
      requires Valid()
      ensures IsApproved(AllowanceIn(l, token, wallet), maxApprovalCheckInt) ==>
        ApprovalStep(l, wallet, credential, token) == (l, Ok(()))
      ensures var l' := ApprovalStep(l, wallet, credential, token).0;
        var rc := receipt(wallet, NonceIn(l, wallet));
        !IsApproved(AllowanceIn(l, token, wallet), maxApprovalCheckInt) && rc.Mined? && rc.status != 0 ==>
          && l'.sent == l.sent + [ApproveTx(l, wallet, credential, token, None)]
          && AllowanceIn(l', token, wallet) == maxApprovalInt
          && ApprovalStep(l', wallet, credential, token) == (l', Ok(()))
    {
    }

    // -------------------------------------------------------------------------
    // Trading

    /** The fee the single-pool routes use: the first tier with a pool, else the caller's. */
    function ChosenFee(token: Address, fee: int): int
    {
      match FirstTier(pools, token, wnative, FeeTiers)
      case Some(f) => f
      case None => fee
    }

    /**
     * The two-hop path `_token_to_token_via_hop` sends: `_encode_path` as written, over
     * [input, wrapped, output] with the tier found on each side. It is the Uniswap V3 path of
     * 66 bytes unless the input is the output, when the first fee is missing.
     */
    function HopPath(input: Address, output: Address): (p: seq<Byte>)
      requires FirstTier(pools, input, wnative, FeeTiers).Some? && FirstTier(pools, output, wnative, FeeTiers).Some?
      ensures var fees := [FirstTier(pools, input, wnative, FeeTiers).value, FirstTier(pools, output, wnative, FeeTiers).value];
        && Path.EncodeAsWritten([input, wnative, output], fees) == Ok(p)
        && (input != output && output != wnative ==>
              && Path.Encode([input, wnative, output], fees) == Ok(p)
              && Path.Layout(p, [input, wnative, output], fees)
              && |p| == 66)
        && (input == output && input != wnative ==>
              && Path.FeeBytes(fees[1]).Some?
              && p == input + wnative + Path.FeeBytes(fees[1]).value + input
              && Path.Encode([input, wnative, output], fees) != Ok(p)
              && |p| == 63)
    {
      TwoHopPath(input, wnative, output, pools);
      var fees := [FirstTier(pools, input, wnative, FeeTiers).value, FirstTier(pools, output, wnative, FeeTiers).value];
      Path.EncodeAsWritten([input, wnative, output], fees).value
    }

    /** `_native_to_token` in a ledger. */
    ghost function NativeToTokenSpec(l: Ledger, walletText: string, credential: string, tokenText: string,
                                     amount: int, fee: int): (Ledger, SendResult)
    {
      match ParseOrReject(walletText)
      case Err(e) => (l, Err(e))
      case Ok(w) =>
        match ParseOrReject(tokenText)
        case Err(e) => (l, Err(e))
        case Ok(t) =>
          Send(l, Tx(TxParamsIn(l, w, amount, None), ExactInputSingle(wnative, t, ChosenFee(t, fee), w, amount),
                     SignerFor(credential)))
    }

    /** `_token_to_native` in a ledger: approval first, then the swap and unwrap in one multicall. */
    ghost function TokenToNativeSpec(l: Ledger, walletText: string, credential: string, tokenText: string,
                                     amount: int, fee: int): (Ledger, SendResult)
    {
      match ParseOrReject(walletText)
      case Err(e) => (l, Err(e))
      case Ok(w) =>
        match ParseOrReject(tokenText)
        case Err(e) => (l, Err(e))
        case Ok(t) =>
          var a := ApprovalStep(l, w, credential, t);
          if a.1.Err? then (a.0, Err(a.1.error))
          else
            Send(a.0, Tx(TxParamsIn(a.0, w, 0, None),
                         Multicall([ExactInputSingle(t, wnative, ChosenFee(t, fee), ZeroAddress, amount), UnwrapWeth9(0, w)]),
                         SignerFor(credential)))
    }

    /** `_token_to_token_via_hop` in a ledger: approval, the tier search on both sides, one exact-input swap. */
    ghost function HopSpec(l: Ledger, w: Address, credential: string, input: Address, output: Address,
                           amount: int): (Ledger, SendResult)
    {
      var a := ApprovalStep(l, w, credential, input);
      if a.1.Err? then (a.0, Err(a.1.error))
      else if FirstTier(pools, input, wnative, FeeTiers).None? then (a.0, Err(NoRoute(NoInputPair)))
      else if FirstTier(pools, output, wnative, FeeTiers).None? then (a.0, Err(NoRoute(NoOutputPair)))
      else Send(a.0, Tx(TxParamsIn(a.0, w, 0, None), ExactInput(HopPath(input, output), w, amount), SignerFor(credential)))
    }

    /** `_token_to_token` in a ledger: a direct swap at the caller's fee when one side is the wrapped native token. */
    ghost function TokenToTokenSpec(l: Ledger, walletText: string, credential: string, inputText: string,
                                    outputText: string, amount: int, fee: int): (Ledger, SendResult)
    {
      match ParseOrReject(walletText)
      case Err(e) => (l, Err(e))
      case Ok(w) =>
        match ParseOrReject(inputText)
        case Err(e) => (l, Err(e))
        case Ok(i) =>
          match ParseOrReject(outputText)
          case Err(e) => (l, Err(e))
          case Ok(o) =>
            if UsesHop(i, o, wnative) then HopSpec(l, w, credential, i, o, amount)
            else
              var a := ApprovalStep(l, w, credential, i);
              if a.1.Err? then (a.0, Err(a.1.error))
              else Send(a.0, Tx(TxParamsIn(a.0, w, 0, None), ExactInputSingle(i, o, fee, w, amount), SignerFor(credential)))
    }

    /** `make_trade` in a ledger. */
    ghost function MakeTradeSpec(l: Ledger, walletText: string, credential: string, inputText: string,
                                 outputText: string, amount: int, fee: int): (Ledger, SendResult)
    {
      match Dispatch(inputText, outputText)
      case NativeToToken => NativeToTokenSpec(l, walletText, credential, outputText, amount, fee)
      case TokenToNative => TokenToNativeSpec(l, walletText, credential, inputText, amount, fee)
      case TokenToToken => TokenToTokenSpec(l, walletText, credential, inputText, outputText, amount, fee)
    }

    /** The swap calls a trade ends with. */
    predicate IsSwap(c: Call)
    {
      c.ExactInputSingle? || c.ExactInput? || c.Multicall?
    }

    /**
     * A check sends nothing when the router is approved, and otherwise exactly the default
     * approval at the wallet's count; whatever comes next is numbered after it, since the
     * check goes on only when the approval was mined.
     */
    lemma ApprovalStepShape(l: Ledger, w: Address, credential: string, token: Address)
      ensures var (l', r) := ApprovalStep(l, w, credential, token);
        && (IsApproved(AllowanceIn(l, token, w), maxApprovalCheckInt) ==> l' == l && r.Ok?)
        && (!IsApproved(AllowanceIn(l, token, w), maxApprovalCheckInt) ==>
              && l'.sent == l.sent + [ApproveTx(l, w, credential, token, None)]
              && ApproveTx(l, w, credential, token, None).call == Approve(token, router, maxApprovalInt)
              && ApproveTx(l, w, credential, token, None).params.nonce == NonceIn(l, w)
              && (r.Ok? ==> NonceIn(l', w) == NonceIn(l, w) + 1))
        && (forall a :: a != w ==> NonceIn(l', a) == NonceIn(l, a))
    {
      var tx := ApproveTx(l, w, credential, token, None);
      OutcomeMeaning(receipt(w, NonceIn(l, w)), replay(w, NonceIn(l, w)), txHash(w, NonceIn(l, w)));
      SendAdvancesNonce(l, tx);
    }

    /**
     * What a trade may broadcast: at most an approval to the router of the token named by
     * `approvedText` and then one swap, all from the wallet through the chosen signer, with
     * consecutive nonces from the wallet's count; a returned hash belongs to that swap, mined
     * with a non-zero status.
     */
    ghost predicate TradeBroadcast(l: Ledger, l': Ledger, r: SendResult, walletText: string, credential: string,
                                   approvedText: string)
    {
      && |l.sent| <= |l'.sent| <= |l.sent| + 2
      && l'.sent[..|l.sent|] == l.sent
      && (forall k :: |l.sent| <= k < |l'.sent| ==>
            && ParseAddress(walletText) == Some(l'.sent[k].params.from)
            && l'.sent[k].signer == SignerFor(credential)
            && l'.sent[k].params.nonce == NonceIn(l, l'.sent[k].params.from) + (k - |l.sent|))
      && (|l'.sent| == |l.sent| + 2 ==>
            && l'.sent[|l.sent|].call.Approve? && l'.sent[|l.sent|].call.spender == router && l'.sent[|l.sent|].call.amount == maxApprovalInt
            && ParseAddress(approvedText) == Some(l'.sent[|l.sent|].call.token))
      && (r.Ok? && r.value.Some? ==>
            && |l'.sent| > |l.sent|
            && IsSwap(l'.sent[|l'.sent| - 1].call)
            && Succeeded(l'.sent[|l'.sent| - 1]))
    }

    /** The last step of every route: one swap sent at the wallet's count. */
    lemma SwapBroadcast(l0: Ledger, l: Ledger, tx: Tx, walletText: string, credential: string, approvedText: string)
      requires ParseAddress(walletText) == Some(tx.params.from) && tx.signer == SignerFor(credential) && IsSwap(tx.call)
      requires tx.params.nonce == NonceIn(l, tx.params.from)
      requires l == l0 || (
        && |l.sent| == |l0.sent| + 1 && l.sent[..|l0.sent|] == l0.sent
        && l.sent[|l0.sent|].call.Approve? && l.sent[|l0.sent|].call.spender == router && l.sent[|l0.sent|].call.amount == maxApprovalInt
        && ParseAddress(approvedText) == Some(l.sent[|l0.sent|].call.token)
        && l.sent[|l0.sent|].params.from == tx.params.from && l.sent[|l0.sent|].signer == SignerFor(credential)
        && l.sent[|l0.sent|].params.nonce == NonceIn(l0, tx.params.from)
        && NonceIn(l, tx.params.from) == NonceIn(l0, tx.params.from) + 1)
      ensures TradeBroadcast(l0, Send(l, tx).0, Send(l, tx).1, walletText, credential, approvedText)
    {
      var from, nonce := tx.params.from, tx.params.nonce;
      OutcomeMeaning(receipt(from, nonce), replay(from, nonce), txHash(from, nonce));
      var l' := Send(l, tx).0;
      assert l'.sent == l.sent + [tx];
      assert l'.sent[..|l0.sent|] == l0.sent by {
        assert l'.sent[..|l0.sent|] == l.sent[..|l0.sent|];
      }
      if l != l0 {
        assert l'.sent[|l0.sent|] == l.sent[|l0.sent|];
      }
    }

    /** A route that sends nothing, or only the approval, broadcasts within the same bound. */
    lemma ApprovalOnlyBroadcast(l: Ledger, w: Address, credential: string, token: Address, walletText: string,
                                approvedText: string, r: SendResult)
      requires ParseAddress(walletText) == Some(w) && ParseAddress(approvedText) == Some(token)
      requires r.Err?
      ensures TradeBroadcast(l, ApprovalStep(l, w, credential, token).0, r, walletText, credential, approvedText)
    {
      ApprovalStepShape(l, w, credential, token);
    }

    /** After a check that went on, the approval precondition of `SwapBroadcast` holds. */
    lemma ApprovalThenSwap(l: Ledger, w: Address, credential: string, token: Address, walletText: string, approvedText: string)
      requires ParseAddress(walletText) == Some(w) && ParseAddress(approvedText) == Some(token)
      requires ApprovalStep(l, w, credential, token).1.Ok?
      ensures var l1 := ApprovalStep(l, w, credential, token).0;
        l1 == l || (
        && |l1.sent| == |l.sent| + 1 && l1.sent[..|l.sent|] == l.sent
        && l1.sent[|l.sent|].call.Approve? && l1.sent[|l.sent|].call.spender == router && l1.sent[|l.sent|].call.amount == maxApprovalInt
        && ParseAddress(approvedText) == Some(l1.sent[|l.sent|].call.token)
        && l1.sent[|l.sent|].params.from == w && l1.sent[|l.sent|].signer == SignerFor(credential)
        && l1.sent[|l.sent|].params.nonce == NonceIn(l, w)
        && NonceIn(l1, w) == NonceIn(l, w) + 1)
    {
      ApprovalStepShape(l, w, credential, token);
      var l1 := ApprovalStep(l, w, credential, token).0;
      if l1 != l {
        assert l1.sent == l.sent + [ApproveTx(l, w, credential, token, None)];
        assert l1.sent[..|l.sent|] == l.sent;
      }
    }

    lemma NativeToTokenBroadcast(l: Ledger, walletText: string, credential: string, tokenText: string, amount: int, fee: int)
      ensures var (l', r) := NativeToTokenSpec(l, walletText, credential, tokenText, amount, fee);
        TradeBroadcast(l, l', r, walletText, credential, "")
    {
      assert l.sent[..|l.sent|] == l.sent;
      if ParseAddress(walletText).Some? && ParseAddress(tokenText).Some? {
        var w, t := ParseAddress(walletText).value, ParseAddress(tokenText).value;
        SwapBroadcast(l, l, Tx(TxParamsIn(l, w, amount, None), ExactInputSingle(wnative, t, ChosenFee(t, fee), w, amount),
                               SignerFor(credential)), walletText, credential, "");
      }
    }

    lemma TokenToNativeBroadcast(l: Ledger, walletText: string, credential: string, tokenText: string, amount: int, fee: int)
      ensures var (l', r) := TokenToNativeSpec(l, walletText, credential, tokenText, amount, fee);
        TradeBroadcast(l, l', r, walletText, credential, tokenText)
    {
      assert l.sent[..|l.sent|] == l.sent;
      if ParseAddress(walletText).Some? && ParseAddress(tokenText).Some? {
        var w, t := ParseAddress(walletText).value, ParseAddress(tokenText).value;
        var a := ApprovalStep(l, w, credential, t);
        if a.1.Err? {
          ApprovalOnlyBroadcast(l, w, credential, t, walletText, tokenText, Err(a.1.error));
        } else {
          ApprovalThenSwap(l, w, credential, t, walletText, tokenText);
          SwapBroadcast(l, a.0, Tx(TxParamsIn(a.0, w, 0, None),
                                   Multicall([ExactInputSingle(t, wnative, ChosenFee(t, fee), ZeroAddress, amount), UnwrapWeth9(0, w)]),
                                   SignerFor(credential)), walletText, credential, tokenText);
        }
      }
    }

    lemma TokenToTokenBroadcast(l: Ledger, walletText: string, credential: string, inputText: string,
                                outputText: string, amount: int, fee: int)
      ensures var (l', r) := TokenToTokenSpec(l, walletText, credential, inputText, outputText, amount, fee);
        TradeBroadcast(l, l', r, walletText, credential, inputText)
    {
      assert l.sent[..|l.sent|] == l.sent;
      if ParseAddress(walletText).Some? && ParseAddress(inputText).Some? && ParseAddress(outputText).Some? {
        var w, i, o := ParseAddress(walletText).value, ParseAddress(inputText).value, ParseAddress(outputText).value;
        var a := ApprovalStep(l, w, credential, i);
        if a.1.Err? {
          ApprovalOnlyBroadcast(l, w, credential, i, walletText, inputText, Err(a.1.error));
        } else if UsesHop(i, o, wnative) && FirstTier(pools, i, wnative, FeeTiers).None? {
          ApprovalOnlyBroadcast(l, w, credential, i, walletText, inputText, Err(NoRoute(NoInputPair)));
        } else if UsesHop(i, o, wnative) && FirstTier(pools, o, wnative, FeeTiers).None? {
          ApprovalOnlyBroadcast(l, w, credential, i, walletText, inputText, Err(NoRoute(NoOutputPair)));
        } else {
          ApprovalThenSwap(l, w, credential, i, walletText, inputText);
          var call := if UsesHop(i, o, wnative) then ExactInput(HopPath(i, o), w, amount)
                      else ExactInputSingle(i, o, fee, w, amount);
          SwapBroadcast(l, a.0, Tx(TxParamsIn(a.0, w, 0, None), call, SignerFor(credential)), walletText, credential, inputText);
        }
      }
    }

    /**
     * What a trade broadcasts, on every route: nothing when the wallet address is malformed,
     * and otherwise what `TradeBroadcast` allows, the approval being of the input token.
     */
    lemma TradeBroadcasts(l: Ledger, walletText: string, credential: string, inputText: string,
                          outputText: string, amount: int, fee: int)
      ensures var (l', r) := MakeTradeSpec(l, walletText, credential, inputText, outputText, amount, fee);
        && TradeBroadcast(l, l', r, walletText, credential, inputText)
        && (ParseAddress(walletText).None? ==> l' == l && r == Err(InvalidAddress(walletText)))
    {
      match Dispatch(inputText, outputText)
      case NativeToToken =>
        NativeToTokenBroadcast(l, walletText, credential, outputText, amount, fee);
        assert ParseAddress(inputText) == None;
      case TokenToNative => TokenToNativeBroadcast(l, walletText, credential, inputText, amount, fee);
      case TokenToToken => TokenToTokenBroadcast(l, walletText, credential, inputText, outputText, amount, fee);
    }

    /**
     * The fee of the single-pool routes: when some tier has a pool for the token, the largest
     * such tier (the list is searched from 10000 down); when none has, the caller's fee.
     */
    lemma ChosenFeeMeaning(token: Address, fee: int)
      ensures FirstTier(pools, token, wnative, FeeTiers).None? <==>
        forall k :: 0 <= k < |FeeTiers| ==> GetPool(pools, token, wnative, FeeTiers[k]) == ZeroAddress
      ensures FirstTier(pools, token, wnative, FeeTiers).None? ==> ChosenFee(token, fee) == fee
      ensures FirstTier(pools, token, wnative, FeeTiers).Some? ==>
        var f := ChosenFee(token, fee);
        && f in FeeTiers && GetPool(pools, token, wnative, f) != ZeroAddress
        && forall k :: 0 <= k < |FeeTiers| && FeeTiers[k] > f ==> GetPool(pools, token, wnative, FeeTiers[k]) == ZeroAddress
    {
      FirstTierIsFirstHit(pools, token, wnative, FeeTiers);
    }

    /**
     * Buying with the native token: one swap from the wrapped token that pays `amount` in
     * value, to the wallet, at the fee of `ChosenFeeMeaning`.
     */
    lemma NativeToTokenFee(l: Ledger, walletText: string, credential: string, tokenText: string, amount: int, fee: int)
      requires ParseAddress(walletText).Some? && ParseAddress(tokenText).Some?
      ensures var (l', r) := NativeToTokenSpec(l, walletText, credential, tokenText, amount, fee);
        var t := ParseAddress(tokenText).value;
        && |l'.sent| == |l.sent| + 1
        && var tx := l'.sent[|l.sent|];
        && tx.params.value == amount && tx.params.gas == DefaultGas
        && tx.call == ExactInputSingle(wnative, t, ChosenFee(t, fee), ParseAddress(walletText).value, amount)
    {
    }

    /**
     * Token to token: with the wrapped native token on one side, one direct swap at the
     * caller's fee after the approval; otherwise the two-hop route, which fails with no swap
     * sent when either side has no pool at any tier, and else swaps along the path as
     * `_encode_path` writes it through the wrapped token with the tier found on each side:
     * 66 bytes, hop by hop, for two different tokens, but 63 for a token traded for itself.
     */
    lemma TokenToTokenRoute(l: Ledger, walletText: string, credential: string, inputText: string,
                            outputText: string, amount: int, fee: int)
      requires ParseAddress(walletText).Some? && ParseAddress(inputText).Some? && ParseAddress(outputText).Some?
      ensures var (l', r) := TokenToTokenSpec(l, walletText, credential, inputText, outputText, amount, fee);
        var w, i, o := ParseAddress(walletText).value, ParseAddress(inputText).value, ParseAddress(outputText).value;
        var a := ApprovalStep(l, w, credential, i);
        && (!UsesHop(i, o, wnative) && a.1.Ok? ==>
              l'.sent == a.0.sent + [Tx(TxParamsIn(a.0, w, 0, None), ExactInputSingle(i, o, fee, w, amount), SignerFor(credential))])
        && (UsesHop(i, o, wnative) && a.1.Ok? && FirstTier(pools, i, wnative, FeeTiers).None? ==>
              l' == a.0 && r == Err(NoRoute(NoInputPair)))
        && (UsesHop(i, o, wnative) && a.1.Ok? && FirstTier(pools, i, wnative, FeeTiers).Some?
              && FirstTier(pools, o, wnative, FeeTiers).None? ==>
              l' == a.0 && r == Err(NoRoute(NoOutputPair)))
        && (UsesHop(i, o, wnative) && a.1.Ok? && FirstTier(pools, i, wnative, FeeTiers).Some?
              && FirstTier(pools, o, wnative, FeeTiers).Some? ==>
              var fees := [FirstTier(pools, i, wnative, FeeTiers).value, FirstTier(pools, o, wnative, FeeTiers).value];
              && |l'.sent| == |a.0.sent| + 1
              && l'.sent[|a.0.sent|].call.ExactInput?
              && Path.EncodeAsWritten([i, wnative, o], fees) == Ok(l'.sent[|a.0.sent|].call.path)
              && (i != o ==>
                    && Path.Layout(l'.sent[|a.0.sent|].call.path, [i, wnative, o], fees)
                    && |l'.sent[|a.0.sent|].call.path| == 66)
              && (i == o ==> |l'.sent[|a.0.sent|].call.path| == 63))
        && (a.1.Err? ==> l' == a.0 && r == Err(a.1.error))
    {
    }

    /**
     * Trading a token (not the wrapped native token) for itself goes the two-hop route, and
     * once the approval went through and the token has a pool, the path sent is token,
     * wrapped token, fee, token: 63 bytes with the first fee missing, which is not the
     * Uniswap V3 path of the route.
     */
    lemma SameTokenTradeDropsFee(l: Ledger, walletText: string, credential: string, tokenText: string, amount: int, fee: int)
      requires ParseAddress(walletText).Some? && ParseAddress(tokenText).Some?
      requires ParseAddress(tokenText).value != wnative
      ensures var (l', r) := MakeTradeSpec(l, walletText, credential, tokenText, tokenText, amount, fee);
        var w, t := ParseAddress(walletText).value, ParseAddress(tokenText).value;
        var a := ApprovalStep(l, w, credential, t);
        a.1.Ok? && FirstTier(pools, t, wnative, FeeTiers).Some? ==>
          var f := FirstTier(pools, t, wnative, FeeTiers).value;
          && |l'.sent| == |a.0.sent| + 1
          && var tx := l'.sent[|a.0.sent|];
          && tx.call.ExactInput? && tx.call.recipient == w && tx.call.amountIn == amount
          && |tx.call.path| == 63
          && tx.call.path[..20] == t && tx.call.path[20..40] == wnative && tx.call.path[43..] == t
          && Path.FeeValue(tx.call.path[40..43]) == f
          && Path.Encode([t, wnative, t], [f, f]) != Ok(tx.call.path)
    {
      var w, t := ParseAddress(walletText).value, ParseAddress(tokenText).value;
      assert tokenText != "";
      var a := ApprovalStep(l, w, credential, t);
      if a.1.Ok? && FirstTier(pools, t, wnative, FeeTiers).Some? {
        var f := FirstTier(pools, t, wnative, FeeTiers).value;
        var p := HopPath(t, t);
        FirstTierInRange(pools, t, wnative, FeeTiers);
        Path.FeeRoundTrip(f);
        var fb := Path.FeeBytes(f).value;
        assert p == t + wnative + fb + t;
        assert p[40..43] == fb;
      }
    }

    /** Parse an address the way `Web3.to_checksum_address` accepts or rejects it. */
    static method Checksum(text: string) returns (r: Result<Address, Error>)
      ensures r == ParseOrReject(text)
    {
      var a := ParseAddress(text);
      if a.None? {
        return Err(InvalidAddress(text));
      }
      return Ok(a.value);
    }

    method NativeToTokenTrade(walletText: string, credential: string, tokenText: string, amount: int, fee: int)
      returns (r: SendResult)
      modifies this
      ensures (State(), r) == NativeToTokenSpec(old(State()), walletText, credential, tokenText, amount, fee)
      ensures config == old(config)
    {
      var w := Checksum(walletText);
      if w.Err? {
        return Err(w.error);
      }
      var t := Checksum(tokenText);
      if t.Err? {
        return Err(t.error);
      }
      var chosen, _ := SearchFeeTier(pools, t.value, wnative, fee);
      var params := GetTxParams(w.value, amount, None);
      r := BuildAndSendTx(credential, ExactInputSingle(wnative, t.value, chosen, w.value, amount), params);
    }

    method TokenToNativeTrade(walletText: string, credential: string, tokenText: string, amount: int, fee: int)
      returns (r: SendResult)
      modifies this
      ensures (State(), r) == TokenToNativeSpec(old(State()), walletText, credential, tokenText, amount, fee)
      ensures config == old(config)
    {
      var w := Checksum(walletText);
      if w.Err? {
        return Err(w.error);
      }
      var t := Checksum(tokenText);
      if t.Err? {
        return Err(t.error);
      }
      var chosen, _ := SearchFeeTier(pools, t.value, wnative, fee);
      var approved := CheckApproval(w.value, credential, t.value);
      if approved.Err? {
        return Err(approved.error);
      }
      var swap := ExactInputSingle(t.value, wnative, chosen, ZeroAddress, amount);
      var unwrap := UnwrapWeth9(0, w.value);
      var params := GetTxParams(w.value, 0, None);
      r := BuildAndSendTx(credential, Multicall([swap, unwrap]), params);
    }

    method TokenToTokenViaHop(w: Address, credential: string, input: Address, output: Address, amount: int)
      returns (r: SendResult)
      modifies this
      ensures (State(), r) == HopSpec(old(State()), w, credential, input, output, amount)
      ensures config == old(config)
    {
      var approved := CheckApproval(w, credential, input);
      if approved.Err? {
        return Err(approved.error);
      }
      var inputFee, inputHit := SearchFeeTier(pools, input, wnative, 0);
      if !inputHit {
        return Err(NoRoute(NoInputPair));
      }
      var outputFee, outputHit := SearchFeeTier(pools, output, wnative, 0);
      if !outputHit {
        return Err(NoRoute(NoOutputPair));
      }
      var path := HopPath(input, output);
      var params := GetTxParams(w, 0, None);
      r := BuildAndSendTx(credential, ExactInput(path, w, amount), params);
    }

    method TokenToTokenTrade(walletText: string, credential: string, inputText: string, outputText: string,
                             amount: int, fee: int)
      returns (r: SendResult)
      modifies this
      ensures (State(), r) == TokenToTokenSpec(old(State()), walletText, credential, inputText, outputText, amount, fee)
      ensures config == old(config)
    {
      var w := Checksum(walletText);
      if w.Err? {
        return Err(w.error);
      }
      var i := Checksum(inputText);
      if i.Err? {
        return Err(i.error);
      }
      var o := Checksum(outputText);
      if o.Err? {
        return Err(o.error);
      }
      if i.value != wnative && o.value != wnative {
        r := TokenToTokenViaHop(w.value, credential, i.value, o.value, amount);
        return;
      }
      var approved := CheckApproval(w.value, credential, i.value);
      if approved.Err? {
        return Err(approved.error);
      }
      var params := GetTxParams(w.value, 0, None);
      r := BuildAndSendTx(credential, ExactInputSingle(i.value, o.value, fee, w.value, amount), params);
    }

    /** `make_trade(wallet, key, input, output, amount, fee)`; "" is the native token. */
    method MakeTrade(walletText: string, credential: string, inputText: string, outputText: string,
                     amount: int, fee: int)
      returns (r: SendResult)
      modifies this
      ensures (State(), r) == MakeTradeSpec(old(State()), walletText, credential, inputText, outputText, amount, fee)
      ensures config == old(config)
    {
      if inputText == "" {
        r := NativeToTokenTrade(walletText, credential, outputText, amount, fee);
      } else if outputText == "" {
        r := TokenToNativeTrade(walletText, credential, inputText, amount, fee);
      } else {
        r := TokenToTokenTrade(walletText, credential, inputText, outputText, amount, fee);
      }
    }

    // -------------------------------------------------------------------------
    // Transfers

    /** `_transfer` in a ledger: a plain value transfer with 100000 gas; the chain id must be configured. */
    ghost function TransferSpec(l: Ledger, cfg: map<string, string>, walletText: string, credential: string,
                                receivedText: string, amount: int): (Ledger, SendResult)
    {
      match ParseOrReject(walletText)
      case Err(e) => (l, Err(e))
      case Ok(w) =>
        match ParseOrReject(receivedText)
        case Err(e) => (l, Err(e))
        case Ok(to) =>
          if "ChainId" !in cfg then (l, Err(MissingConfig("ChainId")))
          else Send(l, Tx(TxParams(w, amount, NonceIn(l, w), gasPrice, TransferGas), NativeTransfer(to), SignerFor(credential)))
    }

    /** `_transfer_token` in a ledger: an ERC-20 transfer with the default parameters. */
    ghost function TransferTokenSpec(l: Ledger, walletText: string, credential: string, receivedText: string,
                                     tokenText: string, amount: int): (Ledger, SendResult)
    {
      match ParseOrReject(walletText)
      case Err(e) => (l, Err(e))
      case Ok(w) =>
        match ParseOrReject(receivedText)
        case Err(e) => (l, Err(e))
        case Ok(to) =>
          match ParseOrReject(tokenText)
          case Err(e) => (l, Err(e))
          case Ok(t) => Send(l, Tx(TxParamsIn(l, w, 0, None), TransferToken(t, to, amount), SignerFor(credential)))
    }

    /** `transfer_asset` in a ledger: "" is the native token. */
    ghost function TransferAssetSpec(l: Ledger, cfg: map<string, string>, walletText: string, credential: string,
                                     receivedText: string, tokenText: string, amount: int): (Ledger, SendResult)
    {
      if tokenText == "" then TransferSpec(l, cfg, walletText, credential, receivedText, amount)
      else TransferTokenSpec(l, walletText, credential, receivedText, tokenText, amount)
    }

    /**
     * A transfer sends nothing when an address is malformed or (for the native token) the
     * chain id is not configured; otherwise exactly one transaction at the wallet's count: a
     * value transfer with 100000 gas, or an ERC-20 transfer carrying no value with the
     * default gas. A returned hash means it was mined with a non-zero status.
     */
    lemma TransferAssetSends(l: Ledger, cfg: map<string, string>, walletText: string, credential: string,
                             receivedText: string, tokenText: string, amount: int)
      ensures var (l', r) := TransferAssetSpec(l, cfg, walletText, credential, receivedText, tokenText, amount);
        && (l' == l || (|l'.sent| == |l.sent| + 1 && l'.sent[..|l.sent|] == l.sent))
        && (l' == l ==> r.Err?)
        && (tokenText == "" && "ChainId" !in cfg ==> l' == l)
        && (ParseAddress(walletText).None? || ParseAddress(receivedText).None? ==> l' == l)
        && (l' != l ==>
              var tx := l'.sent[|l.sent|];
              && ParseAddress(walletText) == Some(tx.params.from)
              && tx.params.nonce == NonceIn(l, tx.params.from)
              && tx.signer == SignerFor(credential)
              && (tokenText == "" ==>
                    && ParseAddress(receivedText) == Some(tx.call.recipient) && tx.call.NativeTransfer?
                    && tx.params.value == amount && tx.params.gas == TransferGas)
              && (tokenText != "" ==>
                    && tx.call.TransferToken? && ParseAddress(tokenText) == Some(tx.call.token)
                    && ParseAddress(receivedText) == Some(tx.call.recipient) && tx.call.amount == amount
                    && tx.params.value == 0 && tx.params.gas == DefaultGas))
        && (r.Ok? && r.value.Some? ==> l' != l && Succeeded(l'.sent[|l.sent|]))
    {
      var (l', r) := TransferAssetSpec(l, cfg, walletText, credential, receivedText, tokenText, amount);
      if l' != l {
        var tx := l'.sent[|l'.sent| - 1];
        OutcomeMeaning(receipt(tx.params.from, tx.params.nonce), replay(tx.params.from, tx.params.nonce),
                       txHash(tx.params.from, tx.params.nonce));
        assert l'.sent[..|l.sent|] == l.sent;
      }
    }

    method Transfer(walletText: string, credential: string, receivedText: string, amount: int) returns (r: SendResult)
      modifies this
      ensures (State(), r) == TransferSpec(old(State()), old(config), walletText, credential, receivedText, amount)
      ensures config == old(config)
    {
      var w := Checksum(walletText);
      if w.Err? {
        return Err(w.error);
      }
      var to := Checksum(receivedText);
      if to.Err? {
        return Err(to.error);
      }
      if "ChainId" !in config {
        return Err(MissingConfig("ChainId"));
      }
      var nonce := if w.value in nonces then nonces[w.value] else 0;
      var signer := if privyAppId != "" && |credential| < 64 then Custodial(privyAppId, credential) else LocalKey(credential);
      r := Submit(Tx(TxParams(w.value, amount, nonce, gasPrice, TransferGas), NativeTransfer(to.value), signer));
    }

    method TransferTokenTx(walletText: string, credential: string, receivedText: string, tokenText: string, amount: int)
      returns (r: SendResult)
      modifies this
      ensures (State(), r) == TransferTokenSpec(old(State()), walletText, credential, receivedText, tokenText, amount)
      ensures config == old(config)
    {
      var w := Checksum(walletText);
      if w.Err? {
        return Err(w.error);
      }
      var to := Checksum(receivedText);
      if to.Err? {
        return Err(to.error);
      }
      var t := Checksum(tokenText);
      if t.Err? {
        return Err(t.error);
      }
      var params := GetTxParams(w.value, 0, None);
      r := BuildAndSendTx(credential, TransferToken(t.value, to.value, amount), params);
    }

    /** `transfer_asset(wallet, key, received, token, amount)`. */
    method TransferAsset(walletText: string, credential: string, receivedText: string, tokenText: string, amount: int)
      returns (r: SendResult)
      modifies this
      ensures (State(), r) == TransferAssetSpec(old(State()), old(config), walletText, credential, receivedText, tokenText, amount)
      ensures config == old(config)
    {
      if tokenText == "" {
        r := Transfer(walletText, credential, receivedText, amount);
      } else {
        r := TransferTokenTx(walletText, credential, receivedText, tokenText, amount);
      }
    }

    // -------------------------------------------------------------------------
    // Deployment

    /** A transaction succeeds when it is mined with a non-zero status. */
    predicate Succeeded(tx: Tx)
    {
      var rc := receipt(tx.params.from, tx.params.nonce);
      rc.Mined? && rc.status != 0
    }

    lemma FailureMeaning(l: Ledger, tx: Tx)
      ensures Failure(Send(l, tx).1).None? <==> Succeeded(tx)
    {
      var from, nonce := tx.params.from, tx.params.nonce;
      OutcomeMeaning(receipt(from, nonce), replay(from, nonce), txHash(from, nonce));
    }

    /** The five calls of `deploy`; the later ones use the addresses the first two create. */
    function DeployCalls(a: DeployArgs, n: nat): seq<Call>
    {
      var beeper, locker := created(a.wallet, n), created(a.wallet, n + 1);
      [ CreateBeeper(wnative, a.factory, a.positionManager, a.swapRouter, a.wallet),
        CreateLocker(beeper, a.positionManager, a.wallet, LockDuration),
        UpdateLiquidityLocker(beeper, locker),
        CreateUtil(beeper, wnative),
        ToggleAllowedPairedToken(beeper, wnative, true) ]
    }

    /** The five transactions: consecutive nonces from the first, signed locally, 10000000 gas each. */
    function DeployTxs(a: DeployArgs, privateKey: string, n: nat): (txs: seq<Tx>)
      ensures |txs| == 5
      ensures forall k :: 0 <= k < 5 ==>
        txs[k] == Tx(TxParams(a.wallet, 0, n + k, gasPrice, DeployGas), DeployCalls(a, n)[k], LocalKey(privateKey))
    {
      var calls := DeployCalls(a, n);
      seq(5, k requires 0 <= k < 5 => Tx(TxParams(a.wallet, 0, n + k, gasPrice, DeployGas), calls[k], LocalKey(privateKey)))
    }

    /** Send `txs[i..]` in order, stopping after the first one that does not succeed. */
    function RunFrom(l: Ledger, txs: seq<Tx>, i: nat): Run
      requires i <= |txs|
      decreases |txs| - i
    {
      if i == |txs| then Run(l, i, None)
      else
        var s := Send(l, txs[i]);
        var f := Failure(s.1);
        if f.Some? then Run(s.0, i, f) else RunFrom(s.0, txs, i + 1)
    }

    /**
     * A run broadcasts exactly the successful transactions and, when it stops, the one that
     * failed, in order; every transaction before the stop succeeded.
     */
    lemma {:induction false} RunFromLog(l: Ledger, txs: seq<Tx>, i: nat)
      requires i <= |txs|
      decreases |txs| - i
      ensures var run := RunFrom(l, txs, i);
        && i <= run.completed <= |txs|
        && (run.failure.Some? <==> run.completed < |txs|)
        && run.ledger.sent == l.sent + txs[i .. run.completed + (if run.failure.Some? then 1 else 0)]
        && (forall k :: i <= k < run.completed ==> Succeeded(txs[k]))
        && (run.failure.Some? ==> !Succeeded(txs[run.completed]))
    {
      if i < |txs| {
        var s := Send(l, txs[i]);
        FailureMeaning(l, txs[i]);
        if Failure(s.1).None? {
          RunFromLog(s.0, txs, i + 1);
          var run := RunFrom(s.0, txs, i + 1);
          var end := run.completed + (if run.failure.Some? then 1 else 0);
          assert txs[i .. end] == [txs[i]] + txs[i + 1 .. end];
        } else {
          assert txs[i .. i + 1] == [txs[i]];
        }
      }
    }

    /** Transactions numbered from the sender's count use up consecutive nonces when all succeed. */
    lemma {:induction false} RunFromNonce(l: Ledger, txs: seq<Tx>, i: nat, w: Address)
      requires i <= |txs|
      requires forall k :: i <= k < |txs| ==> txs[k].params.from == w && txs[k].params.nonce == NonceIn(l, w) + (k - i)
      decreases |txs| - i
      ensures RunFrom(l, txs, i).failure.None? ==> NonceIn(RunFrom(l, txs, i).ledger, w) == NonceIn(l, w) + (|txs| - i)
    {
      if i < |txs| {
        var s := Send(l, txs[i]);
        FailureMeaning(l, txs[i]);
        if Failure(s.1).None? {
          SendAdvancesNonce(l, txs[i]);
          RunFromNonce(s.0, txs, i + 1, w);
        }
      }
    }

    /** `deploy(wallet, private_key)` in a ledger and a configuration. */
    ghost function DeploySpec(l: Ledger, cfg: map<string, string>, walletText: string, privateKey: string)
      : (Ledger, map<string, string>, DeployOutcome)
    {
      match DeployInputs(cfg, walletText)
      case Err(e) => (l, cfg, Rejected(e))
      case Ok(a) =>
        var n := NonceIn(l, a.wallet);
        DeployEnd(cfg, a, n, RunFrom(l, DeployTxs(a, privateKey, n), 0))
    }

    /** What `deploy` leaves behind once its run has ended. */
    ghost function DeployEnd(cfg: map<string, string>, a: DeployArgs, n: nat, run: Run)
      : (Ledger, map<string, string>, DeployOutcome)
    {
      if run.failure.Some? then (run.ledger, cfg, Stopped(run.completed + 1, run.failure.value))
      else
        var beeper, util := created(a.wallet, n), created(a.wallet, n + 3);
        (run.ledger, cfg["Beeper" := AddressHex(beeper)]["BeeperUtil" := AddressHex(util)], Deployed(beeper, util))
    }

    /** The run of the five deployment transactions, read through `RunFromLog` and `RunFromNonce`. */
    lemma DeployRun(l: Ledger, a: DeployArgs, privateKey: string)
      ensures var n := NonceIn(l, a.wallet);
        var txs := DeployTxs(a, privateKey, n);
        var run := RunFrom(l, txs, 0);
        && (run.failure.None? <==> forall k :: 0 <= k < 5 ==> Succeeded(txs[k]))
        && (run.failure.None? ==> run.ledger.sent == l.sent + txs && NonceIn(run.ledger, a.wallet) == n + 5)
        && (run.failure.Some? ==>
              && run.completed < 5
              && run.ledger.sent == l.sent + txs[..run.completed + 1]
              && (forall k :: 0 <= k < run.completed ==> Succeeded(txs[k]))
              && !Succeeded(txs[run.completed]))
    {
      var n := NonceIn(l, a.wallet);
      var txs := DeployTxs(a, privateKey, n);
      RunFromLog(l, txs, 0);
      RunFromNonce(l, txs, 0, a.wallet);
      var run := RunFrom(l, txs, 0);
      var end := run.completed + (if run.failure.Some? then 1 else 0);
      assert txs[0 .. end] == txs[..end];
      if run.failure.None? {
        assert txs[0 .. 5] == txs;
      }
    }

    /**
     * Deployment: missing or malformed inputs send nothing; otherwise the five transactions of
     * `DeployTxs` (consecutive nonces from the wallet's count) go out in order, the run stops
     * at the first one that fails, the configuration is written only when all five succeed,
     * and then it records the contracts created by the first and the fourth.
     */
    lemma DeployProperties(l: Ledger, cfg: map<string, string>, walletText: string, privateKey: string)
      ensures var (l', cfg', r) := DeploySpec(l, cfg, walletText, privateKey);
        && (DeployInputs(cfg, walletText).Err? ==> l' == l && cfg' == cfg && r == Rejected(DeployInputs(cfg, walletText).error))
        && (DeployInputs(cfg, walletText).Ok? ==>
              var a := DeployInputs(cfg, walletText).value;
              var n := NonceIn(l, a.wallet);
              var txs := DeployTxs(a, privateKey, n);
              && !r.Rejected?
              && (r.Deployed? <==> forall k :: 0 <= k < 5 ==> Succeeded(txs[k]))
              && (r.Deployed? ==>
                    && l'.sent == l.sent + txs
                    && NonceIn(l', a.wallet) == n + 5
                    && r == Deployed(created(a.wallet, n), created(a.wallet, n + 3))
                    && cfg' == cfg["Beeper" := AddressHex(created(a.wallet, n))]["BeeperUtil" := AddressHex(created(a.wallet, n + 3))])
              && (r.Stopped? ==>
                    && 1 <= r.step <= 5
                    && l'.sent == l.sent + txs[..r.step]
                    && (forall k :: 0 <= k < r.step - 1 ==> Succeeded(txs[k]))
                    && !Succeeded(txs[r.step - 1])
                    && cfg' == cfg))
    {
      if DeployInputs(cfg, walletText).Ok? {
        DeployRun(l, DeployInputs(cfg, walletText).value, privateKey);
      }
    }

    /** The configuration lookups and the wallet check `deploy` does before it sends anything. */
    method ReadDeployInputs(walletText: string) returns (r: Result<DeployArgs, Error>)
      ensures r == DeployInputs(config, walletText)
    {
      var swapRouter := ConfigAddress(config, "PancakeV3SwapRouter");
      if swapRouter.Err? {
        return Err(swapRouter.error);
      }
      var factory := ConfigAddress(config, "PancakeV3Factory");
      if factory.Err? {
        return Err(factory.error);
      }
      var positionManager := ConfigAddress(config, "PostionManage");
      if positionManager.Err? {
        return Err(positionManager.error);
      }
      var w := Checksum(walletText);
      if w.Err? {
        return Err(w.error);
      }
      return Ok(DeployArgs(swapRouter.value, factory.value, positionManager.value, w.value));
    }

    /** One deployment step: sign locally, send, wait; the run goes on only when it succeeded. */
    method DeployStep(ghost txs: seq<Tx>, k: nat, tx: Tx) returns (res: SendResult)
      requires k < |txs| && txs[k] == tx
      modifies this
      ensures Failure(res).None? ==> RunFrom(old(State()), txs, k) == RunFrom(State(), txs, k + 1)
      ensures Failure(res).Some? ==> RunFrom(old(State()), txs, k) == Run(State(), k, Failure(res))
      ensures config == old(config)
    {
      res := Submit(tx);
    }

    /** `deploy(wallet, private_key)`: five transactions, each waited for before the next. */
    method Deploy(walletText: string, privateKey: string) returns (r: DeployOutcome)
      modifies this
      ensures (State(), config, r) == DeploySpec(old(State()), old(config), walletText, privateKey)
    {
      var inputs := ReadDeployInputs(walletText);
      if inputs.Err? {
        return Rejected(inputs.error);
      }
      var wallet := inputs.value.wallet;
      var current := if wallet in nonces then nonces[wallet] else 0;
      r := DeployFrom(inputs.value, privateKey, current);
    }

    /** The first step: create the launch contract, numbered from the wallet's count. */
    method DeployFrom(a: DeployArgs, privateKey: string, n: nat) returns (r: DeployOutcome)
      requires n == NonceIn(State(), a.wallet)
      modifies this
      ensures (State(), config, r) == DeployEnd(old(config), a, n, RunFrom(old(State()), DeployTxs(a, privateKey, n), 0))
    {
      ghost var txs := DeployTxs(a, privateKey, n);
      ghost var run := RunFrom(State(), txs, 0);
      var wallet := a.wallet;
      var res := DeployStep(txs, 0, Tx(TxParams(wallet, 0, n, gasPrice, DeployGas),
                                       CreateBeeper(wnative, a.factory, a.positionManager, a.swapRouter, wallet),
                                       LocalKey(privateKey)));
      var beeper := created(wallet, n);
      if Failure(res).Some? {
        assert run == Run(State(), 0, Failure(res));
        return Stopped(1, Failure(res).value);
      }
      assert run == RunFrom(State(), txs, 1);
      r := DeployLocker(a, privateKey, n, beeper);
    }

    /** The second step: create the liquidity locker for the launch contract. */
    method DeployLocker(a: DeployArgs, privateKey: string, n: nat, beeper: Address) returns (r: DeployOutcome)
      requires beeper == created(a.wallet, n)
      modifies this
      ensures (State(), config, r) == DeployEnd(old(config), a, n, RunFrom(old(State()), DeployTxs(a, privateKey, n), 1))
    {
      ghost var txs := DeployTxs(a, privateKey, n);
      ghost var run := RunFrom(State(), txs, 1);
      var wallet, current := a.wallet, n + 1;
      var res := DeployStep(txs, 1, Tx(TxParams(wallet, 0, current, gasPrice, DeployGas),
                                       CreateLocker(beeper, a.positionManager, wallet, LockDuration), LocalKey(privateKey)));
      if Failure(res).Some? {
        assert run == Run(State(), 1, Failure(res));
        return Stopped(2, Failure(res).value);
      }
      assert run == RunFrom(State(), txs, 2);
      var locker := created(wallet, current);
      r := ConfigureDeployment(a, privateKey, n, beeper, locker);
    }

    /** The last three steps: wire the locker, create the utility contract, allow the wrapped token; then record. */
    method ConfigureDeployment(a: DeployArgs, privateKey: string, n: nat, beeper: Address, locker: Address)
      returns (r: DeployOutcome)
      requires beeper == created(a.wallet, n) && locker == created(a.wallet, n + 1)
      modifies this
      ensures (State(), config, r) == DeployEnd(old(config), a, n, RunFrom(old(State()), DeployTxs(a, privateKey, n), 2))
    {
      ghost var txs := DeployTxs(a, privateKey, n);
      ghost var run := RunFrom(State(), txs, 2);
      var wallet, current := a.wallet, n + 2;
      var res := DeployStep(txs, 2, Tx(TxParams(wallet, 0, current, gasPrice, DeployGas),
                                       UpdateLiquidityLocker(beeper, locker), LocalKey(privateKey)));
      if Failure(res).Some? {
        assert run == Run(State(), 2, Failure(res));
        return Stopped(3, Failure(res).value);
      }
      assert run == RunFrom(State(), txs, 3);

      current := current + 1;
      res := DeployStep(txs, 3, Tx(TxParams(wallet, 0, current, gasPrice, DeployGas),
                                   CreateUtil(beeper, wnative), LocalKey(privateKey)));
      var util := created(wallet, current);
      if Failure(res).Some? {
        assert run == Run(State(), 3, Failure(res));
        return Stopped(4, Failure(res).value);
      }
      assert run == RunFrom(State(), txs, 4);

      current := current + 1;
      res := DeployStep(txs, 4, Tx(TxParams(wallet, 0, current, gasPrice, DeployGas),
                                   ToggleAllowedPairedToken(beeper, wnative, true), LocalKey(privateKey)));
      if Failure(res).Some? {
        assert run == Run(State(), 4, Failure(res));
        return Stopped(5, Failure(res).value);
      }
      assert run == Run(State(), 5, None);

      config := config["Beeper" := AddressHex(beeper)];
      config := config["BeeperUtil" := AddressHex(util)];
      r := Deployed(beeper, util);
    }
  }

  /**
   * `Beeper.__init__`: the RPC endpoint must be configured and reachable, the router address
   * configured and well formed, and a custodial application id needs its secret in the
   * environment; each failure stops (exit or exception) before a client exists.
   */
  method Init(config: map<string, string>, adminWallet: string, adminKey: string,
              privyAppId: Option<string>, appSecret: Option<string>, chain: ChainOracle)
    returns (r: Result<Beeper, Error>)
    ensures "RPC" !in config ==> r == Err(MissingConfig("RPC"))
    ensures "RPC" in config && !chain.connected ==> r == Err(NotConnected)
    ensures "RPC" in config && chain.connected && ConfigAddress(config, "PancakeV3SwapRouter").Err? ==>
      r == Err(ConfigAddress(config, "PancakeV3SwapRouter").error)
    ensures "RPC" in config && chain.connected && ConfigAddress(config, "PancakeV3SwapRouter").Ok? ==>
      (r == Err(MissingAppSecret) <==>
         privyAppId.Some? && privyAppId.value != "" && (appSecret.None? || appSecret.value == ""))
    ensures r.Ok? ==>
      && fresh(r.value) && r.value.Valid()
      && r.value.router == ConfigAddress(config, "PancakeV3SwapRouter").value
      && r.value.privyAppId == (if privyAppId.Some? then privyAppId.value else "")
      && r.value.config == config && r.value.State() == Ledger(chain.nonces, chain.allowances, [])
      && r.value.pools == chain.pools && r.value.wnative == chain.wnative
    ensures r.Err? <==>
      || "RPC" !in config || !chain.connected || ConfigAddress(config, "PancakeV3SwapRouter").Err?
      || (privyAppId.Some? && privyAppId.value != "" && (appSecret.None? || appSecret.value == ""))
  {
    if "RPC" !in config {
      return Err(MissingConfig("RPC"));
    }
    if !chain.connected {
      return Err(NotConnected);
    }
    var routerAddress := ConfigAddress(config, "PancakeV3SwapRouter");
    if routerAddress.Err? {
      return Err(routerAddress.error);
    }
    var appId := "";
    if privyAppId.Some? && privyAppId.value != "" {
      appId := privyAppId.value;
      if appSecret.None? || appSecret.value == "" {
        return Err(MissingAppSecret);
      }
    }
    var b := new Beeper(config, adminWallet, adminKey, appId, routerAddress.value, chain);
    return Ok(b);
  }
}
