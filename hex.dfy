/**
 * Bytes, 20-byte addresses and the hexadecimal text forms the client reads and writes:
 * `int(s, 16)` for the approval constants, `Web3.to_checksum_address` as the gate every
 * address string passes before use, and `bytes.hex()` for transaction hashes.
 */
module Hex {
  import opened Wrappers

  type Byte = b: int | 0 <= b < 256

  /** An account or contract address after normalisation: its 20 bytes. */
  type Address = s: seq<Byte> | |s| == 20 witness seq(20, _ => 0)

  /** ADDRESS_ZERO, which the pool factory answers when no pool exists. */
  const ZeroAddress: Address := [0, 0, 0, 0, 0, 0, 0, 0, 0, 0, 0, 0, 0, 0, 0, 0, 0, 0, 0, 0]

  function Pow2(n: nat): (r: nat)
    ensures r >= 1
  {
    if n == 0 then 1 else 2 * Pow2(n - 1)
  }

  function Pow16(n: nat): (r: nat)
    ensures r >= 1
  {
    if n == 0 then 1 else 16 * Pow16(n - 1)
  }

  lemma {:induction false} Pow16IsPow2(n: nat)
    ensures Pow16(n) == Pow2(4 * n)
  {
    if n > 0 {
      Pow16IsPow2(n - 1);
      var m := 4 * (n - 1);
      assert Pow2(m + 4) == 2 * Pow2(m + 3) && Pow2(m + 3) == 2 * Pow2(m + 2);
      assert Pow2(m + 2) == 2 * Pow2(m + 1) && Pow2(m + 1) == 2 * Pow2(m);
    }
  }

  /** The value of one hexadecimal digit, in either case. */
  function DigitValue(c: char): (r: Option<nat>)
    ensures r.Some? <==> ('0' <= c <= '9' || 'a' <= c <= 'f' || 'A' <= c <= 'F')
    ensures r.Some? ==> r.value < 16
  {
    if '0' <= c <= '9' then Some(c as int - '0' as int)
    else if 'a' <= c <= 'f' then Some(c as int - 'a' as int + 10)
    else if 'A' <= c <= 'F' then Some(c as int - 'A' as int + 10)
    else None
  }

  /** The lower-case digit for a value below 16, as `hex()` writes it. */
  function DigitChar(d: nat): (c: char)
    requires d < 16
    ensures DigitValue(c) == Some(d)
    ensures '0' <= c <= '9' || 'a' <= c <= 'f'
  {
    if d < 10 then ('0' as int + d) as char else ('a' as int + d - 10) as char
  }

  /** The value of a run of hexadecimal digits read left to right; None on any other character. */
  function DigitsValue(s: string): Option<nat>
  {
    if s == [] then Some(0)
    else match (DigitsValue(s[..|s| - 1]), DigitValue(s[|s| - 1]))
      case (Some(v), Some(d)) => Some(16 * v + d)
      case _ => None
  }

  /** The text after an optional "0x" or "0X" prefix. */
  function StripPrefix(s: string): (body: string)
    ensures |body| <= |s|
  {
    if |s| >= 2 && s[0] == '0' && (s[1] == 'x' || s[1] == 'X') then s[2..] else s
  }

  /** `int(s, 16)`: an optional prefix and at least one digit; anything else is a ValueError (None). */
  function ParseHexInt(s: string): Option<nat>
  {
    var body := StripPrefix(s);
    if body == [] then None else DigitsValue(body)
  }

  function Repeat(c: char, n: nat): (r: string)
    ensures |r| == n && forall i :: 0 <= i < n ==> r[i] == c
  {
    seq(n, _ => c)
  }

  lemma {:induction false} ZerosValue(k: nat)
    ensures DigitsValue(Repeat('0', k)) == Some(0)
  {
    if k > 0 {
      assert Repeat('0', k)[..k - 1] == Repeat('0', k - 1);
      ZerosValue(k - 1);
    }
  }

  /** k zeros followed by n f's is the number 16^n - 1, whatever k is. */
  lemma {:induction false} ZerosThenFsValue(k: nat, n: nat)
    ensures DigitsValue(Repeat('0', k) + Repeat('f', n)) == Some(Pow16(n) - 1)
  {
    var s := Repeat('0', k) + Repeat('f', n);
    if n == 0 {
      assert s == Repeat('0', k);
      ZerosValue(k);
    } else {
      assert s[..|s| - 1] == Repeat('0', k) + Repeat('f', n - 1);
      assert s[|s| - 1] == 'f';
      ZerosThenFsValue(k, n - 1);
    }
  }

  lemma HexConstantValue(k: nat, n: nat)
    ensures ParseHexInt("0x" + Repeat('0', k) + Repeat('f', n)) == if k + n == 0 then None else Some(Pow2(4 * n) - 1)
  {
    var s := "0x" + Repeat('0', k) + Repeat('f', n);
    assert StripPrefix(s) == Repeat('0', k) + Repeat('f', n);
    ZerosThenFsValue(k, n);
    Pow16IsPow2(n);
  }

  /** Decodes pairs of hexadecimal digits, as `bytes.fromhex` does for digit-only text. */
  function DecodeBytes(s: string): (r: Option<seq<Byte>>)
    ensures r.Some? ==> 2 * |r.value| == |s|
  {
    if s == [] then Some([])
    else if |s| < 2 then None
    else match (DigitValue(s[0]), DigitValue(s[1]), DecodeBytes(s[2..]))
      case (Some(hi), Some(lo), Some(rest)) => Some([16 * hi + lo] + rest)
      case _ => None
  }

  /** `bytes.hex()`: two lower-case digits per byte, high digit first. */
  function BytesHex(b: seq<Byte>): (r: string)
    ensures |r| == 2 * |b|
  {
    if b == [] then [] else [DigitChar(b[0] / 16), DigitChar(b[0] % 16)] + BytesHex(b[1..])
  }

  lemma {:induction false} DecodeBytesHex(b: seq<Byte>)
    ensures DecodeBytes(BytesHex(b)) == Some(b)
  {
    if b != [] {
      var s := BytesHex(b);
      assert s[2..] == BytesHex(b[1..]);
      DecodeBytesHex(b[1..]);
      assert [16 * (b[0] / 16) + b[0] % 16] + b[1..] == b;
    }
  }

  /**
   * Normalisation of an address string: an optional "0x" prefix and exactly 40 hexadecimal
   * digits; anything else is rejected (None) with no network call.
   */
  function ParseAddress(s: string): (r: Option<Address>)
    ensures r.Some? ==> |StripPrefix(s)| == 40
  {
    var body := StripPrefix(s);
    if |body| != 40 then None
    else match DecodeBytes(body)
      case Some(b) => Some(b)
      case None => None
  }

  /** The "0x"-prefixed lower-case text of an address (the EIP-55 mixed case is not modelled). */
  function AddressHex(a: Address): (r: string)
    ensures |r| == 42 && r[..2] == "0x"
  {
    "0x" + BytesHex(a)
  }

  /** Every address written out is read back as itself. */
  lemma AddressRoundTrip(a: Address)
    ensures ParseAddress(AddressHex(a)) == Some(a)
  {
    assert StripPrefix(AddressHex(a)) == BytesHex(a);
    DecodeBytesHex(a);
  }

  /** Two addresses with the same text are the same address. */
  lemma AddressHexInjective(a: Address, b: Address)
    requires AddressHex(a) == AddressHex(b)
    ensures a == b
  {
    AddressRoundTrip(a);
    AddressRoundTrip(b);
  }
}
