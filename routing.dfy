/**
 * The decisions `Beeper` takes without touching the chain: the fee-tier search order and
 * its first-hit rule, the choice of route for a trade, the choice of signer, the approval
 * constants and threshold, and the default transaction parameters.
 */
module Routing {
  import opened Wrappers
  import opened Hex
  import Path

  /** A pool's identity at the factory: (token, wrapped native token, fee tier). */
  datatype PoolKey = PoolKey(token: Address, paired: Address, fee: int)

  /** The factory's pools; a key that is absent means ADDRESS_ZERO. */
  type Pools = map<PoolKey, Address>

  /** `factory.getPool(token, wnative, fee)`. */
  function GetPool(pools: Pools, token: Address, wnative: Address, fee: int): Address
  {
    var key := PoolKey(token, wnative, fee);
    if key in pools then pools[key] else ZeroAddress
  }

  /** The pool fees tried, in order: 1%, 0.25%, 0.05%, 0.01%. */
  const FeeTiers: seq<int> := [10000, 2500, 500, 100]

  /** The first tier at which the token has a pool with the wrapped native token. */
  function FirstTier(pools: Pools, token: Address, wnative: Address, tiers: seq<int>): Option<int>
  {
    if tiers == [] then None
    else if GetPool(pools, token, wnative, tiers[0]) != ZeroAddress then Some(tiers[0])
    else FirstTier(pools, token, wnative, tiers[1..])
  }

  /**
   * The search finds nothing exactly when every tier has no pool; what it finds is a tier
   * with a pool before which every tier has none.
   */
  lemma {:induction false} FirstTierIsFirstHit(pools: Pools, token: Address, wnative: Address, tiers: seq<int>)
    ensures FirstTier(pools, token, wnative, tiers).None? <==>
      forall i :: 0 <= i < |tiers| ==> GetPool(pools, token, wnative, tiers[i]) == ZeroAddress
    ensures FirstTier(pools, token, wnative, tiers).Some? ==>
      exists i :: 0 <= i < |tiers| && tiers[i] == FirstTier(pools, token, wnative, tiers).value
        && GetPool(pools, token, wnative, tiers[i]) != ZeroAddress
        && forall j :: 0 <= j < i ==> GetPool(pools, token, wnative, tiers[j]) == ZeroAddress
  {
    if tiers != [] && GetPool(pools, token, wnative, tiers[0]) == ZeroAddress {
      var rest := tiers[1..];
      FirstTierIsFirstHit(pools, token, wnative, rest);
      assert forall i :: 1 <= i < |tiers| ==> tiers[i] == rest[i - 1];
      if FirstTier(pools, token, wnative, rest).Some? {
        var i :| 0 <= i < |rest| && rest[i] == FirstTier(pools, token, wnative, rest).value
          && GetPool(pools, token, wnative, rest[i]) != ZeroAddress
          && forall j :: 0 <= j < i ==> GetPool(pools, token, wnative, rest[j]) == ZeroAddress;
        assert tiers[i + 1] == rest[i];
        assert forall j :: 1 <= j < i + 1 ==> GetPool(pools, token, wnative, tiers[j]) == GetPool(pools, token, wnative, rest[j - 1]);
      }
    }
  }

  /** Every tier the search can return is one of the four, so it fits the 3-byte fee of a path. */
  lemma {:induction false} FirstTierInRange(pools: Pools, token: Address, wnative: Address, tiers: seq<int>)
    requires forall i :: 0 <= i < |tiers| ==> 0 <= tiers[i] < 0x100_0000
    ensures FirstTier(pools, token, wnative, tiers).Some? ==>
      FirstTier(pools, token, wnative, tiers).value in tiers
      && 0 <= FirstTier(pools, token, wnative, tiers).value < 0x100_0000
  {
    if tiers != [] && GetPool(pools, token, wnative, tiers[0]) == ZeroAddress {
      FirstTierInRange(pools, token, wnative, tiers[1..]);
    }
  }

  /**
   * The fee-tier loop of `_native_to_token` and `_token_to_native` (and, with its hit
   * appended to `fees`, of `_token_to_token_via_hop`): tiers in order, stop at the first
   * non-zero pool; the caller's fee stays when no tier has one.
   */
  method SearchFeeTier(pools: Pools, token: Address, wnative: Address, fee: int) returns (chosen: int, hit: bool)
    ensures hit <==> FirstTier(pools, token, wnative, FeeTiers).Some?
    ensures chosen == if hit then FirstTier(pools, token, wnative, FeeTiers).value else fee
  {
    chosen, hit := fee, false;
    var i := 0;
    while i < |FeeTiers|
      invariant 0 <= i <= |FeeTiers|
      invariant !hit && chosen == fee
      invariant FirstTier(pools, token, wnative, FeeTiers) == FirstTier(pools, token, wnative, FeeTiers[i..])
    {
      var tier := FeeTiers[i];
      if GetPool(pools, token, wnative, tier) != ZeroAddress {
        chosen, hit := tier, true;
        break;
      }
      assert FeeTiers[i..][1..] == FeeTiers[i + 1..];
      i := i + 1;
    }
  }

  /**
   * The two-hop path through the wrapped native token, with the tiers the search found, as
   * `_encode_path` writes it: always a path; the 66-byte path laid out hop by hop when the
   * output token differs from the input; and, when a token is traded for itself, a path
   * whose first fee is missing, 3 bytes short.
   */
  lemma TwoHopPath(input: Address, wnative: Address, output: Address, pools: Pools)
    requires FirstTier(pools, input, wnative, FeeTiers).Some? && FirstTier(pools, output, wnative, FeeTiers).Some?
    ensures var tokens := [input, wnative, output];
      var fees := [FirstTier(pools, input, wnative, FeeTiers).value, FirstTier(pools, output, wnative, FeeTiers).value];
      && Path.EncodeAsWritten(tokens, fees).Ok?
      && (input != output && output != wnative ==>
            && Path.EncodeAsWritten(tokens, fees) == Path.Encode(tokens, fees)
            && Path.Layout(Path.EncodeAsWritten(tokens, fees).value, tokens, fees)
            && |Path.EncodeAsWritten(tokens, fees).value| == 66)
      && (input == output && input != wnative ==>
            && Path.FeeBytes(fees[1]).Some?
            && Path.EncodeAsWritten(tokens, fees).value == input + wnative + Path.FeeBytes(fees[1]).value + input
            && Path.Encode(tokens, fees) != Path.EncodeAsWritten(tokens, fees)
            && |Path.EncodeAsWritten(tokens, fees).value| == 63)
  {
    FirstTierInRange(pools, input, wnative, FeeTiers);
    FirstTierInRange(pools, output, wnative, FeeTiers);
    var tokens := [input, wnative, output];
    var fees := [FirstTier(pools, input, wnative, FeeTiers).value, FirstTier(pools, output, wnative, FeeTiers).value];
    assert Path.FeesInRange(fees);
    Path.PrefixOk(tokens, fees, |tokens|, false);
    if input != output && output != wnative {
      Path.EncodeLayout(tokens, fees);
      Path.AsWrittenCorrectWhenLastUnique(tokens, fees);
    }
    if input == output && input != wnative {
      Path.RepeatedLastTokenDropsFee(input, wnative, fees[0], fees[1]);
      var b1 := Path.FeeBytes(fees[0]).value;
      assert |input + b1 + wnative + Path.FeeBytes(fees[1]).value + input|
          != |input + wnative + Path.FeeBytes(fees[1]).value + input|;
    }
  }

  // ---------------------------------------------------------------------------
  // Dispatch

  datatype TradeKind = NativeToToken | TokenToNative | TokenToToken

  /** `make_trade`: "" stands for the native token, and the input side is looked at first. */
  function Dispatch(inputToken: string, outputToken: string): (k: TradeKind)
    ensures k == NativeToToken <==> inputToken == ""
    ensures k == TokenToNative <==> inputToken != "" && outputToken == ""
    ensures k == TokenToToken <==> inputToken != "" && outputToken != ""
  {
    if inputToken == "" then NativeToToken
    else if outputToken == "" then TokenToNative
    else TokenToToken
  }

  /** `_token_to_token` routes through the wrapped native token unless one side is that token. */
  predicate UsesHop(input: Address, output: Address, wnative: Address)
  {
    input != wnative && output != wnative
  }

  // ---------------------------------------------------------------------------
  // Signer selection

  /** The length of a hexadecimal private key; shorter credentials are custodial wallet ids. */
  const PrivateKeyLength: nat := 64

  /** Custodial signing is used when an application id is configured and the credential is short. */
  predicate UsesCustodialSigner(privyAppId: string, credential: string)
  {
    privyAppId != "" && |credential| < PrivateKeyLength
  }

  lemma SignerBoundary(privyAppId: string, credential: string)
    ensures UsesCustodialSigner(privyAppId, credential) <==> privyAppId != "" && |credential| <= 63
    ensures |credential| >= 64 ==> !UsesCustodialSigner(privyAppId, credential)
    ensures privyAppId == "" ==> !UsesCustodialSigner(privyAppId, credential)
  {
  }

  // ---------------------------------------------------------------------------
  // Approval constants and threshold

  /** `f"0x{64 * 'f'}"`: the approval granted. */
  const MaxApprovalHex: string := "0x" + Repeat('0', 0) + Repeat('f', 64)
  /** `f"0x{15 * '0'}{49 * 'f'}"`: the allowance from which a token counts as approved. */
  const ApprovalCheckHex: string := "0x" + Repeat('0', 15) + Repeat('f', 49)

  /** The granted approval is 2^256 - 1. */
  lemma MaxApprovalValue()
    ensures ParseHexInt(MaxApprovalHex) == Some(Pow2(256) - 1)
  {
    HexConstantAt(MaxApprovalHex, 0, 64, 256);
  }

  /** The threshold is 2^196 - 1. */
  lemma ApprovalCheckValue()
    ensures ParseHexInt(ApprovalCheckHex) == Some(Pow2(196) - 1)
  {
    HexConstantAt(ApprovalCheckHex, 15, 49, 196);
  }

  lemma HexConstantAt(text: string, zeros: nat, digits: nat, bits: nat)
    requires text == "0x" + Repeat('0', zeros) + Repeat('f', digits) && digits > 0 && bits == 4 * digits
    ensures ParseHexInt(text) == Some(Pow2(bits) - 1)
  {
    HexConstantValue(zeros, digits);
  }

  lemma {:induction false} Pow2Grows(m: nat, n: nat)
    requires m < n
    ensures Pow2(m) < Pow2(n)
  {
    if n > m + 1 {
      Pow2Grows(m, n - 1);
    }
  }

  /** The grant exceeds the threshold, so a granted approval passes the check. */
  lemma ApprovalConstants(maxApprovalInt: int, checkInt: int)
    requires ParseHexInt(MaxApprovalHex) == Some(maxApprovalInt)
    requires ParseHexInt(ApprovalCheckHex) == Some(checkInt)
    ensures maxApprovalInt == Pow2(256) - 1 && checkInt == Pow2(196) - 1
    ensures 0 <= checkInt < maxApprovalInt
  {
    MaxApprovalValue();
    ApprovalCheckValue();
    Pow2Grows(196, 256);
  }

  /** Both constants parse, and the grant exceeds the threshold (stated without the powers). */
  lemma ApprovalOrdered()
    ensures ParseHexInt(MaxApprovalHex).Some? && ParseHexInt(ApprovalCheckHex).Some?
    ensures 0 <= ParseHexInt(ApprovalCheckHex).value < ParseHexInt(MaxApprovalHex).value
  {
    MaxApprovalValue();
    ApprovalCheckValue();
    ApprovalConstants(ParseHexInt(MaxApprovalHex).value, ParseHexInt(ApprovalCheckHex).value);
  }

  /** `_is_approved`: the allowance reaches the threshold. */
  predicate IsApproved(allowance: nat, threshold: nat)
  {
    allowance >= threshold
  }

  /** The amount `approve` grants: the maximum whenever `max_approval` is None or 0. */
  function ApprovalAmount(maxApproval: Option<int>, maxApprovalInt: nat): (amount: int)
    ensures maxApproval.None? || maxApproval.value == 0 ==> amount == maxApprovalInt
    ensures maxApproval.Some? && maxApproval.value != 0 ==> amount == maxApproval.value
  {
    if maxApproval.None? || maxApproval.value == 0 then maxApprovalInt else maxApproval.value
  }

  /**
   * With the constants of `__init__`, a default approval passes the check, so a check that
   * follows a successful default approval sends nothing.
   */
  lemma DefaultApprovalIsApproved(maxApproval: Option<int>, maxApprovalInt: nat, checkInt: nat)
    requires maxApproval.None? || maxApproval.value == 0
    requires maxApprovalInt == Pow2(256) - 1 && checkInt == Pow2(196) - 1
    ensures ApprovalAmount(maxApproval, maxApprovalInt) == maxApprovalInt
    ensures IsApproved(maxApprovalInt, checkInt)
  {
    Pow2Grows(196, 256);
  }

  // ---------------------------------------------------------------------------
  // Transaction parameters

  const DefaultGas: int := 300_000

  /** The gas limit `_get_tx_params` sets: 300000 unless a truthy override is given. */
  function GasLimit(gas: Option<int>): (g: int)
    ensures gas.Some? && gas.value != 0 ==> g == gas.value
    ensures gas.None? || gas.value == 0 ==> g == 300_000
  {
    if gas.Some? && gas.value != 0 then gas.value else DefaultGas
  }
}
