/** Base16 (section 8 of RFC 4648) as the `hex` crate decodes and encodes it:
    decoding accepts upper- and lower-case digits, rejects an odd number of
    digits before looking at any, and otherwise reports the first digit that
    is not hexadecimal; encoding writes lower-case digits. */
module Hex {
  import opened Base

  datatype HexError = OddLength | InvalidHexCharacter(c: byte, index: nat)

  /** The value of one ASCII hex digit. */
  function DigitValue(c: byte): (r: Option<byte>)
    ensures r.Some? ==> r.value < 16
    ensures r.Some? <==> (0x30 <= c <= 0x39 || 0x41 <= c <= 0x46 || 0x61 <= c <= 0x66)
  {
    if 0x30 <= c <= 0x39 then Some(c - 0x30)
    else if 0x41 <= c <= 0x46 then Some(c - 0x41 + 10)
    else if 0x61 <= c <= 0x66 then Some(c - 0x61 + 10)
    else None
  }

  /** Every byte of `s` is a hex digit. */
  predicate AllDigits(s: seq<byte>) {
    forall i :: 0 <= i < |s| ==> DigitValue(s[i]).Some?
  }

  /** The byte spelt by the digit pair at `s[2 * k]`, `s[2 * k + 1]`. */
  function PairValue(s: seq<byte>, k: nat): byte
    requires 2 * k + 1 < |s| && DigitValue(s[2 * k]).Some? && DigitValue(s[2 * k + 1]).Some?
  {
    DigitValue(s[2 * k]).value * 16 + DigitValue(s[2 * k + 1]).value
  }

  /** Decode the digit pairs of `s`, whose first digit sits at `offset` in the
      whole input; an error names the first non-digit met. */
  function DecodePairs(s: seq<byte>, offset: nat): (r: Result<seq<byte>, HexError>)
    requires |s| % 2 == 0
    ensures r.Success? <==> AllDigits(s)
    ensures r.Success? ==> 2 * |r.value| == |s|
                           && forall k :: 0 <= k < |r.value| ==> r.value[k] == PairValue(s, k)
    ensures r.Failure? ==> r.error.InvalidHexCharacter? && offset <= r.error.index < offset + |s|
                           && s[r.error.index - offset] == r.error.c && DigitValue(r.error.c).None?
    decreases |s|
  {
    if s == [] then Success([])
    else if DigitValue(s[0]).None? then Failure(InvalidHexCharacter(s[0], offset))
    else if DigitValue(s[1]).None? then Failure(InvalidHexCharacter(s[1], offset + 1))
    else
      var hi, lo := DigitValue(s[0]).value, DigitValue(s[1]).value;
      var rest := DecodePairs(s[2..], offset + 2);
      assert forall i :: 2 <= i < |s| ==> s[i] == s[2..][i - 2];
      if rest.Failure? then
        rest
      else
        var r := [hi * 16 + lo] + rest.value;
        assert forall k :: 1 <= k < |r| ==> r[k] == PairValue(s, k) by {
          forall k | 1 <= k < |r| ensures r[k] == PairValue(s, k) {
            assert r[k] == rest.value[k - 1] == PairValue(s[2..], k - 1);
            assert 2 * (k - 1) + 2 == 2 * k;
          }
        }
        Success(r)
  }

  /** `hex::decode`. */
  function Decode(s: seq<byte>): (r: Result<seq<byte>, HexError>)
    ensures r.Success? <==> |s| % 2 == 0 && AllDigits(s)
    ensures r.Success? ==> 2 * |r.value| == |s|
    ensures r.Success? ==> forall k :: 0 <= k < |r.value| ==> r.value[k] == PairValue(s, k)
    ensures |s| % 2 == 1 ==> r == Failure(OddLength)
    ensures |s| % 2 == 0 && r.Failure? ==>
              r.error.InvalidHexCharacter? && r.error.index < |s|
              && s[r.error.index] == r.error.c && DigitValue(r.error.c).None?
  {
    if |s| % 2 != 0 then Failure(OddLength) else DecodePairs(s, 0)
  }

  /** The character a failed decoding of digit pairs names is the first
      non-digit: every byte before it is a digit. */
  lemma {:induction false} DecodePairsNamesFirst(s: seq<byte>, offset: nat)
    requires |s| % 2 == 0 && DecodePairs(s, offset).Failure?
    ensures forall i :: 0 <= i < DecodePairs(s, offset).error.index - offset ==> DigitValue(s[i]).Some?
    decreases |s|
  {
    if DigitValue(s[0]).Some? && DigitValue(s[1]).Some? {
      DecodePairsNamesFirst(s[2..], offset + 2);
      forall i | 2 <= i < DecodePairs(s, offset).error.index - offset ensures DigitValue(s[i]).Some? {
        assert s[i] == s[2..][i - 2];
      }
    }
  }

  /** `hex::decode` of an even number of digits names the first byte that is
      not a hex digit. */
  lemma DecodeNamesFirst(s: seq<byte>, i: nat)
    requires |s| % 2 == 0 && Decode(s).Failure? && i < Decode(s).error.index
    ensures DigitValue(s[i]).Some?
  {
    DecodePairsNamesFirst(s, 0);
  }

  /** The lower-case ASCII digit for a value below 16. */
  function EncodeDigit(d: byte): (c: byte)
    requires d < 16
    ensures DigitValue(c) == Some(d)
  {
    if d < 10 then 0x30 + d else 0x61 + (d - 10)
  }

  /** `hex::encode`: two lower-case digits per byte, high half first. */
  function Encode(b: seq<byte>): (s: seq<byte>)
    ensures |s| == 2 * |b|
  {
    if b == [] then [] else [EncodeDigit(b[0] / 16), EncodeDigit(b[0] % 16)] + Encode(b[1..])
  }

  /** Byte `k` is encoded by the digit pair at `2 * k`. */
  lemma {:induction false} EncodeAt(b: seq<byte>, k: nat)
    requires k < |b|
    ensures Encode(b)[2 * k] == EncodeDigit(b[k] / 16)
    ensures Encode(b)[2 * k + 1] == EncodeDigit(b[k] % 16)
  {
    if k > 0 {
      EncodeAt(b[1..], k - 1);
      assert Encode(b)[2 * k] == Encode(b[1..])[2 * (k - 1)];
      assert Encode(b)[2 * k + 1] == Encode(b[1..])[2 * (k - 1) + 1];
    }
  }

  /** Decoding what was encoded gives the bytes back. */
  lemma DecodeEncode(b: seq<byte>)
    ensures Decode(Encode(b)) == Success(b)
  {
    var s := Encode(b);
    forall i | 0 <= i < |s| ensures DigitValue(s[i]).Some? {
      EncodeAt(b, i / 2);
      assert i == 2 * (i / 2) || i == 2 * (i / 2) + 1;
    }
    var r := Decode(s);
    forall k | 0 <= k < |b| ensures r.value[k] == b[k] {
      EncodeAt(b, k);
      assert PairValue(s, k) == (b[k] / 16) * 16 + b[k] % 16;
    }
    assert r.value == b;
  }

  /** The digit `hex::encode` writes for the value of `c`: `c` itself, with
      upper-case letters lowered. */
  function Lower(c: byte): (d: byte)
    ensures 0x41 <= c <= 0x46 ==> d == c + 0x20
    ensures !(0x41 <= c <= 0x46) ==> d == c
  {
    if 0x41 <= c <= 0x46 then c + 0x20 else c
  }

  /** Writing the value of a hex digit gives the digit back, lower-cased. */
  lemma EncodeDigitValue(c: byte)
    requires DigitValue(c).Some?
    ensures EncodeDigit(DigitValue(c).value) == Lower(c)
  {
  }

  /** Encoding what was decoded gives back the digits, with `A`-`F` lowered:
      upper- and lower-case digits stand for the same bytes. */
  lemma EncodeDecode(s: seq<byte>)
    requires Decode(s).Success?
    ensures Encode(Decode(s).value) == seq(|s|, i requires 0 <= i < |s| => Lower(s[i]))
  {
    var b := Decode(s).value;
    var e := Encode(b);
    forall i | 0 <= i < |s| ensures e[i] == Lower(s[i]) {
      var k := i / 2;
      EncodeAt(b, k);
      var hi, lo := DigitValue(s[2 * k]).value, DigitValue(s[2 * k + 1]).value;
      assert b[k] == hi * 16 + lo;
      assert b[k] / 16 == hi && b[k] % 16 == lo;
      EncodeDigitValue(s[2 * k]);
      EncodeDigitValue(s[2 * k + 1]);
      assert i == 2 * k || i == 2 * k + 1;
    }
  }
}
