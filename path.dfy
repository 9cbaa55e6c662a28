/**
 * The packed swap path of the Uniswap v3 / PancakeSwap v3 routers (v3-periphery
 * `Path.sol`): token0 (20 bytes) ‖ fee0 (3 bytes, big-endian) ‖ token1 ‖ … ‖ tokenN,
 * and `Beeper._encode_path`, which writes it.
 */
module Path {
  import opened Wrappers
  import opened Hex

  const AddressLength: nat := 20
  const FeeLength: nat := 3
  /** One hop: an address followed by the fee of the pool that leaves it. */
  const HopLength: nat := AddressLength + FeeLength

  datatype PathError =
    | LengthMismatch            // the `assert len(fees) == len(tokens) - 1`
    | FeeOutOfRange(fee: int)   // `int.to_bytes(fee, 3, "big")` raising OverflowError

  /** `int.to_bytes(fee, 3, "big")`; None where Python raises OverflowError. */
  function FeeBytes(fee: int): (r: Option<seq<Byte>>)
    ensures r.Some? <==> 0 <= fee < 0x100_0000
    ensures r.Some? ==> |r.value| == FeeLength
  {
    if 0 <= fee < 0x100_0000 then Some([fee / 0x1_0000, (fee / 0x100) % 0x100, fee % 0x100]) else None
  }

  /** How the router reads a fee back (`toUint24`). */
  function FeeValue(b: seq<Byte>): int
    requires |b| == FeeLength
  {
    var hi, mid, lo: int := b[0], b[1], b[2];
    hi * 0x1_0000 + mid * 0x100 + lo
  }

  lemma FeeRoundTrip(fee: int)
    requires 0 <= fee < 0x100_0000
    ensures FeeBytes(fee).Some? && FeeValue(FeeBytes(fee).value) == fee
  {
    var hi, mid, lo := fee / 0x1_0000, (fee / 0x100) % 0x100, fee % 0x100;
    assert fee / 0x100 == hi * 0x100 + mid;
  }

  predicate FeesInRange(fees: seq<int>)
  {
    forall i :: 0 <= i < |fees| ==> 0 <= fees[i] < 0x100_0000
  }

  /** Hop i of a path: its token at HopLength * i and its fee right after. */
  ghost predicate HopAt(path: seq<Byte>, i: nat, token: Address, fee: int)
  {
    && HopLength * (i + 1) <= |path|
    && path[HopLength * i .. HopLength * i + AddressLength] == token
    && FeeValue(path[HopLength * i + AddressLength .. HopLength * (i + 1)]) == fee
  }

  /** Where the router expects each part: every hop in place, then the final token at the end. */
  ghost predicate Layout(path: seq<Byte>, tokens: seq<Address>, fees: seq<int>)
    requires |fees| == |tokens| - 1
  {
    && |path| == AddressLength * |tokens| + FeeLength * |fees|
    && (forall i :: 0 <= i < |fees| ==> HopAt(path, i, tokens[i], fees[i]))
    && path[HopLength * |fees| ..] == tokens[|fees|]
  }

  lemma HopAtExtend(path: seq<Byte>, more: seq<Byte>, i: nat, token: Address, fee: int)
    requires HopAt(path, i, token, fee)
    ensures HopAt(path + more, i, token, fee)
  {
    var q := path + more;
    assert q[HopLength * i .. HopLength * i + AddressLength] == path[HopLength * i .. HopLength * i + AddressLength];
    assert q[HopLength * i + AddressLength .. HopLength * (i + 1)] == path[HopLength * i + AddressLength .. HopLength * (i + 1)];
  }

  lemma HopAtEnd(acc: seq<Byte>, i: nat, token: Address, fee: int)
    requires |acc| == HopLength * i && 0 <= fee < 0x100_0000
    ensures FeeBytes(fee).Some? && HopAt(acc + token + FeeBytes(fee).value, i, token, fee)
  {
    FeeRoundTrip(fee);
    var q := acc + token + FeeBytes(fee).value;
    assert q[HopLength * i .. HopLength * i + AddressLength] == token;
    assert q[HopLength * i + AddressLength .. HopLength * (i + 1)] == FeeBytes(fee).value;
  }

  /**
   * The first k iterations of the encoding loop. `byIndex` selects the test that decides
   * whether a fee follows a token: the corrected test (the token is not the last one by
   * position) or the test as written (the token is not equal to the last token).
   */
  function EncodePrefix(tokens: seq<Address>, fees: seq<int>, k: nat, byIndex: bool): Result<seq<Byte>, PathError>
    requires |fees| == |tokens| - 1 && k <= |tokens|
  {
    if k == 0 then Ok([])
    else match EncodePrefix(tokens, fees, k - 1, byIndex)
      case Err(e) => Err(e)
      case Ok(acc) =>
        var t := tokens[k - 1];
        var feeFollows := if byIndex then k - 1 != |tokens| - 1 else t != tokens[|tokens| - 1];
        if !feeFollows then Ok(acc + t)
        else match FeeBytes(fees[k - 1])
          case None => Err(FeeOutOfRange(fees[k - 1]))
          case Some(fb) => Ok(acc + t + fb)
  }

  /** The loop of `_encode_path` exactly as written. */
  function EncodeAsWritten(tokens: seq<Address>, fees: seq<int>): Result<seq<Byte>, PathError>
    requires |fees| == |tokens| - 1
  {
    EncodePrefix(tokens, fees, |tokens|, false)
  }

  /** The corrected encoding: a fee follows every token but the last by position. */
  function Encode(tokens: seq<Address>, fees: seq<int>): Result<seq<Byte>, PathError>
    requires |fees| == |tokens| - 1
  {
    EncodePrefix(tokens, fees, |tokens|, true)
  }

  /** The index of the first fee out of range, when there is one. */
  function FirstBadFee(fees: seq<int>): (j: nat)
    requires !FeesInRange(fees)
    ensures j < |fees| && !(0 <= fees[j] < 0x100_0000)
    ensures forall i :: 0 <= i < j ==> 0 <= fees[i] < 0x100_0000
  {
    if !(0 <= fees[0] < 0x100_0000) then 0
    else
      assert !FeesInRange(fees[1..]) by {
        var i :| 0 <= i < |fees| && !(0 <= fees[i] < 0x100_0000);
        assert fees[1..][i - 1] == fees[i];
      }
      1 + FirstBadFee(fees[1..])
  }

  lemma {:induction false} PrefixLayout(tokens: seq<Address>, fees: seq<int>, k: nat)
    requires |fees| == |tokens| - 1 && k < |tokens|
    requires forall i :: 0 <= i < k ==> 0 <= fees[i] < 0x100_0000
    ensures EncodePrefix(tokens, fees, k, true).Ok?
    ensures var p := EncodePrefix(tokens, fees, k, true).value;
      && |p| == HopLength * k
      && forall i :: 0 <= i < k ==> HopAt(p, i, tokens[i], fees[i])
  {
    if k > 0 {
      PrefixLayout(tokens, fees, k - 1);
      var acc := EncodePrefix(tokens, fees, k - 1, true).value;
      HopAtEnd(acc, k - 1, tokens[k - 1], fees[k - 1]);
      var more := tokens[k - 1] + FeeBytes(fees[k - 1]).value;
      var p := acc + more;
      assert acc + tokens[k - 1] + FeeBytes(fees[k - 1]).value == p;
      PrefixStep(tokens, fees, k, acc);
      forall i | 0 <= i < k - 1
        ensures HopAt(p, i, tokens[i], fees[i])
      {
        HopAtExtend(acc, more, i, tokens[i], fees[i]);
      }
    }
  }

  lemma PrefixStep(tokens: seq<Address>, fees: seq<int>, k: nat, acc: seq<Byte>)
    requires |fees| == |tokens| - 1 && 0 < k < |tokens| && 0 <= fees[k - 1] < 0x100_0000
    requires EncodePrefix(tokens, fees, k - 1, true) == Ok(acc)
    ensures EncodePrefix(tokens, fees, k, true) == Ok(acc + tokens[k - 1] + FeeBytes(fees[k - 1]).value)
  {
  }

  lemma LastStep(tokens: seq<Address>, fees: seq<int>, acc: seq<Byte>)
    requires |fees| == |tokens| - 1
    requires EncodePrefix(tokens, fees, |tokens| - 1, true) == Ok(acc)
    ensures Encode(tokens, fees) == Ok(acc + tokens[|tokens| - 1])
  {
  }

  /** With every fee in range, the corrected encoding succeeds and has the router's layout. */
  lemma EncodeLayout(tokens: seq<Address>, fees: seq<int>)
    requires |fees| == |tokens| - 1 && FeesInRange(fees)
    ensures Encode(tokens, fees).Ok?
    ensures Layout(Encode(tokens, fees).value, tokens, fees)
  {
    var n := |tokens|;
    PrefixLayout(tokens, fees, n - 1);
    var acc := EncodePrefix(tokens, fees, n - 1, true).value;
    var p := acc + tokens[n - 1];
    LastStep(tokens, fees, acc);
    forall i | 0 <= i < |fees|
      ensures HopAt(p, i, tokens[i], fees[i])
    {
      HopAtExtend(acc, tokens[n - 1], i, tokens[i], fees[i]);
    }
    assert p[|acc| ..] == tokens[n - 1];
  }

  /** Once the loop has raised, later iterations do not run: the error is the final result. */
  lemma {:induction false} ErrorPersists(tokens: seq<Address>, fees: seq<int>, k: nat, j: nat, byIndex: bool)
    requires |fees| == |tokens| - 1 && k <= j <= |tokens|
    requires EncodePrefix(tokens, fees, k, byIndex).Err?
    ensures EncodePrefix(tokens, fees, j, byIndex) == EncodePrefix(tokens, fees, k, byIndex)
  {
    if j > k {
      ErrorPersists(tokens, fees, k, j - 1, byIndex);
    }
  }

  /** With every fee in range, both loops produce a path: the test only decides which fees are written. */
  lemma {:induction false} PrefixOk(tokens: seq<Address>, fees: seq<int>, k: nat, byIndex: bool)
    requires |fees| == |tokens| - 1 && k <= |tokens| && FeesInRange(fees)
    ensures EncodePrefix(tokens, fees, k, byIndex).Ok?
  {
    if k > 0 {
      PrefixOk(tokens, fees, k - 1, byIndex);
      if k - 1 < |fees| {
        assert FeeBytes(fees[k - 1]).Some?;
      }
    }
  }

  /** The corrected encoding fails exactly when a fee is out of range, naming the first one. */
  lemma EncodeFails(tokens: seq<Address>, fees: seq<int>)
    requires |fees| == |tokens| - 1 && !FeesInRange(fees)
    ensures Encode(tokens, fees) == Err(FeeOutOfRange(fees[FirstBadFee(fees)]))
  {
    var j := FirstBadFee(fees);
    PrefixLayout(tokens, fees, j);
    assert EncodePrefix(tokens, fees, j + 1, true) == Err(FeeOutOfRange(fees[j]));
    ErrorPersists(tokens, fees, j + 1, |tokens|, true);
  }

  /** While no earlier token equals the last one, the loop as written agrees with the corrected one. */
  lemma {:induction false} AsWrittenMatchesCorrected(tokens: seq<Address>, fees: seq<int>, k: nat)
    requires |fees| == |tokens| - 1 && k <= |tokens|
    requires forall i :: 0 <= i < |tokens| - 1 ==> tokens[i] != tokens[|tokens| - 1]
    ensures EncodePrefix(tokens, fees, k, false) == EncodePrefix(tokens, fees, k, true)
  {
    if k > 0 {
      AsWrittenMatchesCorrected(tokens, fees, k - 1);
    }
  }

  /** For a path whose last token appears nowhere earlier, `_encode_path` as written is right. */
  lemma AsWrittenCorrectWhenLastUnique(tokens: seq<Address>, fees: seq<int>)
    requires |fees| == |tokens| - 1
    requires forall i :: 0 <= i < |tokens| - 1 ==> tokens[i] != tokens[|tokens| - 1]
    ensures EncodeAsWritten(tokens, fees) == Encode(tokens, fees)
  {
    AsWrittenMatchesCorrected(tokens, fees, |tokens|);
  }

  /**
   * The source as written, on the two-hop route of a token X traded for itself through the
   * wrapped native token W: the fee after X is dropped, the fee after W is the second one, and
   * the path is three bytes short of what the router expects.
   */
  lemma RepeatedLastTokenDropsFee(x: Address, w: Address, f1: int, f2: int)
    requires x != w && 0 <= f1 < 0x100_0000 && 0 <= f2 < 0x100_0000
    ensures EncodeAsWritten([x, w, x], [f1, f2]) == Ok(x + w + FeeBytes(f2).value + x)
    ensures |EncodeAsWritten([x, w, x], [f1, f2]).value| == AddressLength * 3 + FeeLength * 2 - FeeLength
    ensures Encode([x, w, x], [f1, f2]) == Ok(x + FeeBytes(f1).value + w + FeeBytes(f2).value + x)
  {
    var t, f := [x, w, x], [f1, f2];
    var b1, b2 := FeeBytes(f1).value, FeeBytes(f2).value;
    assert [] + x == x;
    assert EncodePrefix(t, f, 1, false) == Ok(x);
    assert EncodePrefix(t, f, 2, false) == Ok(x + w + b2);
    assert EncodePrefix(t, f, 3, false) == Ok(x + w + b2 + x);
    assert EncodePrefix(t, f, 1, true) == Ok(x + b1);
    assert EncodePrefix(t, f, 2, true) == Ok(x + b1 + w + b2);
    assert EncodePrefix(t, f, 3, true) == Ok(x + b1 + w + b2 + x);
  }

  /**
   * The loop as written never converts the fee of a token equal to the last one, so an
   * out-of-range first fee of [X, W, X] raises nothing there, while the corrected loop fails on it.
   */
  lemma RepeatedLastTokenHidesBadFee(x: Address, w: Address, f1: int, f2: int)
    requires x != w && !(0 <= f1 < 0x100_0000) && 0 <= f2 < 0x100_0000
    ensures EncodeAsWritten([x, w, x], [f1, f2]) == Ok(x + w + FeeBytes(f2).value + x)
    ensures Encode([x, w, x], [f1, f2]) == Err(FeeOutOfRange(f1))
  {
    var t, f := [x, w, x], [f1, f2];
    var b2 := FeeBytes(f2).value;
    assert [] + x == x;
    assert EncodePrefix(t, f, 1, false) == Ok(x);
    assert EncodePrefix(t, f, 2, false) == Ok(x + w + b2);
    assert EncodePrefix(t, f, 3, false) == Ok(x + w + b2 + x);
    assert EncodePrefix(t, f, 1, true) == Err(FeeOutOfRange(f1));
    assert EncodePrefix(t, f, 3, true) == Err(FeeOutOfRange(f1));
  }

  function Reversed<T>(s: seq<T>): (r: seq<T>)
    ensures |r| == |s|
  {
    seq(|s|, i requires 0 <= i < |s| => s[|s| - 1 - i])
  }

  /** `list.reverse()`: reverses an array in place. */
  method ReverseInPlace<T>(a: array<T>)
    modifies a
    ensures a[..] == Reversed(old(a[..]))
  {
    var n := a.Length;
    var i := 0;
    while i < n / 2
      invariant 0 <= i <= n / 2
      invariant forall k :: 0 <= k < i ==> a[k] == old(a[n - 1 - k]) && a[n - 1 - k] == old(a[k])
      invariant forall k :: i <= k < n - i ==> a[k] == old(a[k])
    {
      a[i], a[n - 1 - i] := a[n - 1 - i], a[i];
      i := i + 1;
    }
  }

  /**
   * `_encode_path(tokens, fees, exact_output)`. The caller's lists are arrays here: on
   * the exact-output branch both are reversed in place before encoding, so the caller sees
   * them reversed afterwards; on a length mismatch nothing is touched.
   */
  method EncodePath(tokens: array<Address>, fees: array<int>, exactOutput: bool) returns (r: Result<seq<Byte>, PathError>)
    modifies tokens, fees
    ensures fees.Length != tokens.Length - 1 ==> r == Err(LengthMismatch) && unchanged(tokens) && unchanged(fees)
    ensures fees.Length == tokens.Length - 1 ==>
      && tokens[..] == (if exactOutput then Reversed(old(tokens[..])) else old(tokens[..]))
      && fees[..] == (if exactOutput then Reversed(old(fees[..])) else old(fees[..]))
      && r == EncodeAsWritten(tokens[..], fees[..])
  {
    if fees.Length != tokens.Length - 1 {
      return Err(LengthMismatch);
    }
    if exactOutput {
      ReverseInPlace(tokens);
      ReverseInPlace(fees);
    }
    r := EncodeTokens(tokens[..], fees[..]);
  }

  /** The accumulation loop of `_encode_path`, over the (possibly reversed) lists. */
  method EncodeTokens(tokens: seq<Address>, fees: seq<int>) returns (r: Result<seq<Byte>, PathError>)
    requires |fees| == |tokens| - 1
    ensures r == EncodeAsWritten(tokens, fees)
  {
    var encoded: seq<Byte> := [];
    var last := tokens[|tokens| - 1];
    for i := 0 to |tokens|
      invariant EncodePrefix(tokens, fees, i, false) == Ok(encoded)
    {
      var token := tokens[i];
      encoded := encoded + token;
      if token != last {
        var fb := FeeBytes(fees[i]);
        if fb.None? {
          assert EncodePrefix(tokens, fees, i + 1, false) == Err(FeeOutOfRange(fees[i]));
          ErrorPersists(tokens, fees, i + 1, |tokens|, false);
          return Err(FeeOutOfRange(fees[i]));
        }
        encoded := encoded + fb.value;
      }
    }
    return Ok(encoded);
  }
}
