/**
 The two ways the API packs an integer into 32 big-endian bytes: the shift loop behind
 PDA seeds and the hexadecimal detour behind proof bytes.
 */
module BigintBytes {
  import opened Bytes

  const TWO_POW_256: nat := 0x1_00000000_00000000_00000000_00000000_00000000_00000000_00000000_00000000

  lemma TwoPow256IsPow256()
    ensures Pow256(32) == TWO_POW_256
  {
    assert Pow256(8) == 0x1_00000000_00000000;
    assert Pow256(16) == 0x1_00000000_00000000_00000000_00000000;
    assert Pow256(24) == 0x1_00000000_00000000_00000000_00000000_00000000_00000000;
  }

  /** The value fits in 32 bytes. */
  predicate Fits(value: int) {
    0 <= value < TWO_POW_256
  }

  /** Packs by masking and shifting; None stands for SeedRangeError. */
  method BigintToBytes32(value: int) returns (r: Option<Bytes32>)
    ensures r.Some? <==> Fits(value)
    ensures r.Some? ==> FromBe(r.value) == value
  {
    if value < 0 || value >= TWO_POW_256 {
      return None;
    }
    TwoPow256IsPow256();
    var out := new Byte[32](_ => 0);
    var v: nat := value;
    var i := 31;
    while i >= 0
      invariant -1 <= i <= 31
      invariant ToBe(v, i + 1) + out[i + 1..] == ToBe(value, 32)
    {
      assert ToBe(v, i + 1) == ToBe(v / 256, i) + [v % 256];
      out[i] := v % 256;
      assert out[i..] == [v % 256] + out[i + 1..];
      v := v / 256;
      i := i - 1;
    }
    FromBeToBe(value, 32);
    assert out[..] == ToBe(value, 32);
    return Some(out[..]);
  }

  type Nibble = x: int | 0 <= x < 16

  /** Hexadecimal digits of v with no leading zero. */
  function HexDigits(v: nat): (h: seq<Nibble>)
    ensures |h| >= 1
  {
    if v < 16 then [v] else HexDigits(v / 16) + [v % 16]
  }

  /** Pads on the left with zeros up to the given width; longer strings are left alone. */
  function PadStart(h: seq<Nibble>, width: nat): seq<Nibble> {
    if |h| >= width then h else Copies<Nibble>(0, width - |h|) + h
  }

  function HexByte(hi: Nibble, lo: Nibble): Byte {
    16 * hi + lo
  }

  /** One byte per pair of digits; a trailing odd digit is dropped. */
  function FromHex(h: seq<Nibble>): seq<Byte>
    decreases |h|
  {
    if |h| < 2 then [] else [HexByte(h[0], h[1])] + FromHex(h[2..])
  }

  /** Packs through a padded hexadecimal string; None stands for a thrown Error. */
  function BigintToBeBytes(value: int): Option<seq<Byte>> {
    if value < 0 then None
    else if value >= TWO_POW_256 then None
    else Some(FromHex(PadStart(HexDigits(value), 64)))
  }

  function HexValue(h: seq<Nibble>): nat {
    if |h| == 0 then 0 else 16 * HexValue(h[..|h| - 1]) + h[|h| - 1]
  }

  function Pow16(n: nat): (p: nat)
    ensures p >= 1
  {
    if n == 0 then 1 else 16 * Pow16(n - 1)
  }

  lemma {:induction false} HexValueOfDigits(v: nat)
    ensures HexValue(HexDigits(v)) == v
  {
    if v < 16 {
    } else {
      HexValueOfDigits(v / 16);
      assert HexDigits(v)[..|HexDigits(v)| - 1] == HexDigits(v / 16);
    }
  }

  lemma {:induction false} HexDigitsLength(v: nat, n: nat)
    requires n >= 1 && v < Pow16(n)
    ensures |HexDigits(v)| <= n
  {
    if v < 16 {
    } else {
      HexDigitsLength(v / 16, n - 1);
    }
  }

  lemma {:induction false} PaddingKeepsValue(k: nat, h: seq<Nibble>)
    ensures HexValue(Copies<Nibble>(0, k) + h) == HexValue(h)
  {
    var s := Copies<Nibble>(0, k) + h;
    if |s| == 0 {
    } else {
      if |h| > 0 {
        PaddingKeepsValue(k, h[..|h| - 1]);
        assert s[..|s| - 1] == Copies<Nibble>(0, k) + h[..|h| - 1];
      } else {
        PaddingKeepsValue(k - 1, h);
        assert s[..|s| - 1] == Copies<Nibble>(0, k - 1) + h;
      }
    }
  }

  lemma {:induction false} FromHexPeel(h: seq<Nibble>, init: seq<Nibble>, hi: Nibble, lo: Nibble, n: nat)
    requires |init| == 2 * n && h == init + [hi, lo]
    ensures FromHex(h) == FromHex(init) + [HexByte(hi, lo)]
    decreases n
  {
    if n == 0 {
      assert h[2..] == [];
    } else {
      assert h[2..] == init[2..] + [hi, lo];
      FromHexPeel(h[2..], init[2..], hi, lo, n - 1);
    }
  }

  /** The last two digits of a hexadecimal string. */
  lemma HexValueEnd(h: seq<Nibble>)
    requires |h| >= 2
    ensures HexValue(h) == 256 * HexValue(h[..|h| - 2]) + HexByte(h[|h| - 2], h[|h| - 1])
  {
    assert h[..|h| - 1][..|h| - 2] == h[..|h| - 2];
  }

  lemma OneByteMore(b: seq<Byte>, x: Byte, more: seq<Byte>, value: nat, value': nat, size: nat)
    requires more == b + [x] && |b| == size - 1 && FromBe(b) == value && value' == 256 * value + x
    ensures |more| == size && FromBe(more) == value'
  {
    assert more[..|b|] == b;
  }

  /** Two digits more are one byte more. */
  lemma TwoDigitsMore(init: seq<Nibble>, hi: Nibble, lo: Nibble, n: nat)
    requires |init| == 2 * n && |FromHex(init)| == n && FromBe(FromHex(init)) == HexValue(init)
    ensures |FromHex(init + [hi, lo])| == n + 1 && FromBe(FromHex(init + [hi, lo])) == HexValue(init + [hi, lo])
  {
    var h := init + [hi, lo];
    FromHexPeel(h, init, hi, lo, n);
    HexValueEnd(h);
    assert h[..|h| - 2] == init;
    OneByteMore(FromHex(init), HexByte(hi, lo), FromHex(h), HexValue(init), HexValue(h), n + 1);
  }

  lemma {:induction false} FromHexValue(h: seq<Nibble>, n: nat)
    requires |h| == 2 * n
    ensures |FromHex(h)| == n && FromBe(FromHex(h)) == HexValue(h)
    decreases n
  {
    if n == 0 {
    } else {
      var init, hi, lo := h[..|h| - 2], h[|h| - 2], h[|h| - 1];
      FromHexValue(init, n - 1);
      TwoDigitsMore(init, hi, lo, n - 1);
      assert init + [hi, lo] == h;
    }
  }

  lemma {:induction false} Pow16Square(n: nat)
    ensures Pow16(2 * n) == Pow256(n)
  {
    if n == 0 {
    } else {
      Pow16Square(n - 1);
      assert Pow16(2 * n) == 16 * Pow16(2 * n - 1) == 256 * Pow16(2 * n - 2);
    }
  }

  /** The hexadecimal detour accepts exactly the 256-bit range and is inverted by reading big-endian. */
  lemma BeBytesRoundTrip(value: int)
    ensures BigintToBeBytes(value).Some? <==> Fits(value)
    ensures Fits(value) ==>
      var b := BigintToBeBytes(value).value;
      |b| == 32 && FromBe(b) == value
  {
    if Fits(value) {
      Pow16Square(32);
      TwoPow256IsPow256();
      HexDigitsLength(value, 64);
      HexValueOfDigits(value);
      var h := HexDigits(value);
      PaddingKeepsValue(64 - |h|, h);
      assert Copies<Nibble>(0, 0) + h == h;
      assert PadStart(h, 64) == Copies<Nibble>(0, 64 - |h|) + h;
      FromHexValue(PadStart(h, 64), 32);
    }
  }

  /** Every 32-byte string is the packing of its own value: the two directions are inverse. */
  lemma BeBytesOnto(b: Bytes32)
    ensures BigintToBeBytes(FromBe(b)) == Some(b)
  {
    FromBeBound(b);
    TwoPow256IsPow256();
    BeBytesRoundTrip(FromBe(b));
    FromBeInjective(BigintToBeBytes(FromBe(b)).value, b);
  }

  /** Any two packings that read back to the value are the same bytes, so the loop and the detour agree. */
  lemma PackingsAgree(value: int, loop: Option<Bytes32>)
    requires loop.Some? <==> Fits(value)
    requires loop.Some? ==> FromBe(loop.value) == value
    ensures BigintToBeBytes(value) == loop
  {
    BeBytesRoundTrip(value);
    if loop.Some? { BeBytesOnto(loop.value); }
  }
}
