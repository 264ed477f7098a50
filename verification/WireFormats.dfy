/**
 The packed blobs the API hands to the on-chain programs, and the readers that take them
 apart again: proofs, public inputs and liquidity parameters.
 */
module WireFormats {
  import opened Bytes
  import opened BigintBytes

  /** Overwrites buf from position at with src, as Buffer.copy does. */
  method CopyInto(src: seq<Byte>, buf: array<Byte>, at: nat)
    requires at + |src| <= buf.Length
    modifies buf
    ensures buf[..] == old(buf[..at]) + src + old(buf[at + |src|..])
  {
    forall k | 0 <= k < |src| {
      buf[at + k] := src[k];
    }
  }

  // ---- Groth16 proof, 256 bytes ----

  /** Order of the BN254 base field. */
  const BN254_P: nat := 21888242871839275222246405745257275088696311157297823662689037894645226208583

  datatype Proof = Proof(
    aX: int, aY: int,
    bX0: int, bX1: int, bY0: int, bY1: int,
    cX: int, cY: int)

  /** The coordinates that end up in the blob, in blob order: y of pi_a negated, pi_b reversed. */
  function ProofWords(p: Proof): (w: seq<int>)
    ensures |w| == 8
  {
    [p.aX, BN254_P - p.aY, p.bX1, p.bX0, p.bY1, p.bY0, p.cX, p.cY]
  }

  /** Packs words of 32 bytes each; None as soon as one does not fit. */
  method PackWords(words: seq<int>) returns (r: Option<seq<Byte>>)
    ensures r.Some? <==> forall k :: 0 <= k < |words| ==> Fits(words[k])
    ensures r.Some? ==> |r.value| == 32 * |words|
    ensures r.Some? ==> forall k :: 0 <= k < |words| ==> WordAt(r.value, k) == words[k]
  {
    var buf := new Byte[32 * |words|](_ => 0);
    for i := 0 to |words|
      invariant forall k :: 0 <= k < i ==> Fits(words[k]) && WordAt(buf[..], k) == words[k]
    {
      BeBytesRoundTrip(words[i]);
      var bytes := BigintToBeBytes(words[i]);
      if bytes.None? {
        return None;
      }
      ghost var before := buf[..];
      CopyInto(bytes.value, buf, i * 32);
      OneWordMore(before, bytes.value, buf[..], words, i);
    }
    return Some(buf[..]);
  }

  /** Copying a word in behind the words already there. */
  lemma OneWordMore(before: seq<Byte>, bytes: seq<Byte>, after: seq<Byte>, words: seq<int>, i: nat)
    requires i < |words| && |before| == 32 * |words| && |bytes| == 32 && FromBe(bytes) == words[i]
    requires after == before[..32 * i] + bytes + before[32 * i + 32..]
    requires forall k :: 0 <= k < i ==> WordAt(before, k) == words[k]
    ensures |after| == |before| && forall k :: 0 <= k <= i ==> WordAt(after, k) == words[k]
  {
    forall k | 0 <= k <= i
      ensures WordAt(after, k) == words[k]
    {
      if k < i {
        assert after[32 * k..32 * k + 32] == before[32 * k..32 * k + 32];
      } else {
        assert after[32 * i..32 * i + 32] == bytes;
      }
    }
  }

  /** The k-th 32-byte big-endian word of a blob. */
  function WordAt(b: seq<Byte>, k: nat): nat
    requires 32 * k + 32 <= |b|
  {
    FromBe(b[32 * k..32 * k + 32])
  }

  /** Reads a 256-byte proof blob back into coordinates. */
  function ParseProof(b: seq<Byte>): Proof
    requires |b| == 256
  {
    Proof(WordAt(b, 0), BN254_P - WordAt(b, 1),
          WordAt(b, 3), WordAt(b, 2), WordAt(b, 5), WordAt(b, 4),
          WordAt(b, 6), WordAt(b, 7))
  }

  /** The proofs that can be packed; y of pi_a is judged after the negation p - y. */
  predicate ProofFits(p: Proof) {
    && Fits(p.aX) && BN254_P - TWO_POW_256 < p.aY <= BN254_P
    && Fits(p.bX0) && Fits(p.bX1) && Fits(p.bY0) && Fits(p.bY1)
    && Fits(p.cX) && Fits(p.cY)
  }

  method ConvertProofToBytes(p: Proof) returns (r: Option<seq<Byte>>)
    ensures r.Some? <==> ProofFits(p)
    ensures r.Some? ==> |r.value| == 256 && ParseProof(r.value) == p
    ensures r.Some? ==>
      && WordAt(r.value, 0) == p.aX && WordAt(r.value, 1) + p.aY == BN254_P
      && WordAt(r.value, 2) == p.bX1 && WordAt(r.value, 3) == p.bX0
      && WordAt(r.value, 4) == p.bY1 && WordAt(r.value, 5) == p.bY0
      && WordAt(r.value, 6) == p.cX && WordAt(r.value, 7) == p.cY
  {
    var words := ProofWords(p);
    r := PackWords(words);
    assert ProofFits(p) <==> forall k :: 0 <= k < |words| ==> Fits(words[k]) by {
      assert words[0] == p.aX && words[1] == BN254_P - p.aY && words[2] == p.bX1 && words[3] == p.bX0;
      assert words[4] == p.bY1 && words[5] == p.bY0 && words[6] == p.cX && words[7] == p.cY;
    }
  }

  // ---- public inputs, 160 bytes ----

  /** Packs the five public signals; None for a wrong count or an oversized signal. */
  method ConvertPublicInputsToBytes(signals: seq<int>) returns (r: Option<seq<Byte>>)
    ensures r.Some? <==> |signals| == 5 && forall k :: 0 <= k < 5 ==> Fits(signals[k])
    ensures r.Some? ==> |r.value| == 160 && forall k :: 0 <= k < 5 ==> WordAt(r.value, k) == signals[k]
  {
    if |signals| != 5 {
      return None;
    }
    r := PackWords(signals);
  }

  /** Order of the BN254 scalar field. */
  const BN254_R: nat := 21888242871839275222246405745257275088548364400416034343698204186575808495617

  const BN254_FIELD_ORDER: Bytes32 :=
    [0x30, 0x64, 0x4e, 0x72, 0xe1, 0x31, 0xa0, 0x29]
    + [0xb8, 0x50, 0x45, 0xb6, 0x81, 0x81, 0x58, 0x5d]
    + [0x28, 0x33, 0xe8, 0x48, 0x79, 0xb9, 0x70, 0x91]
    + [0x43, 0xe1, 0xf5, 0x93, 0xf0, 0x00, 0x00, 0x01]

  /** Accepts exactly the canonical elements of the scalar field. */
  method RequireLtFieldOrder(x: Bytes32) returns (ok: bool)
    ensures ok <==> FromBe(x) < BN254_R
  {
    ok := LessThan(x, BN254_FIELD_ORDER);
    FieldOrderValue();
  }

  /** The parameter of the curve both field orders come from. */
  const BN254_U: nat := 4965661367192848881

  /** Both orders are the values of the curve family's polynomials at the parameter. */
  lemma FieldOrdersOfTheCurve()
    ensures var u := BN254_U;
      && BN254_P == 36 * (u * u * u * u) + 36 * (u * u * u) + 24 * (u * u) + 6 * u + 1
      && BN254_R == 36 * (u * u * u * u) + 36 * (u * u * u) + 18 * (u * u) + 6 * u + 1
  {
  }

  /** Byte-by-byte comparison, most significant byte first. */
  method LessThan(x: Bytes32, order: Bytes32) returns (ok: bool)
    ensures ok <==> FromBe(x) < FromBe(order)
  {
    for i := 0 to 32
      invariant x[..i] == order[..i]
    {
      if x[i] < order[i] {
        FromBeLess(x, order, i);
        return true;
      }
      if x[i] > order[i] {
        FromBeLess(order, x, i);
        return false;
      }
      assert x[..i + 1] == x[..i] + [x[i]] && order[..i + 1] == order[..i] + [order[i]];
    }
    assert x == x[..32] == order[..32] == order;
    return false;
  }

  /** The written-out field order is the number it claims to be. */
  lemma FieldOrderValue()
    ensures FromBe(BN254_FIELD_ORDER) == BN254_R
  {
    var a: seq<Byte> := [0x30, 0x64, 0x4e, 0x72, 0xe1, 0x31, 0xa0, 0x29];
    var b: seq<Byte> := [0xb8, 0x50, 0x45, 0xb6, 0x81, 0x81, 0x58, 0x5d];
    var c: seq<Byte> := [0x28, 0x33, 0xe8, 0x48, 0x79, 0xb9, 0x70, 0x91];
    var d: seq<Byte> := [0x43, 0xe1, 0xf5, 0x93, 0xf0, 0x00, 0x00, 0x01];
    AppendOctet([], 0, a, 0x30, 0x64, 0x4e, 0x72, 0xe1, 0x31, 0xa0, 0x29);
    assert [] + a == a;
    AppendOctet(a, 0x30644e72e131a029, b, 0xb8, 0x50, 0x45, 0xb6, 0x81, 0x81, 0x58, 0x5d);
    AppendOctet(a + b, 0x30644e72e131a029b85045b68181585d, c, 0x28, 0x33, 0xe8, 0x48, 0x79, 0xb9, 0x70, 0x91);
    AppendOctet(a + b + c, 0x30644e72e131a029b85045b68181585d2833e84879b97091, d, 0x43, 0xe1, 0xf5, 0x93, 0xf0, 0x00,
      0x00, 0x01);
  }

  lemma AppendOctet(x: seq<Byte>, vx: nat, b: seq<Byte>,
                    b0: Byte, b1: Byte, b2: Byte, b3: Byte, b4: Byte, b5: Byte, b6: Byte, b7: Byte)
    requires FromBe(x) == vx && b == [b0, b1, b2, b3, b4, b5, b6, b7]
    ensures FromBe(x + b) ==
      vx * 0x1_00000000_00000000
      + ((((((b0 * 256 + b1) * 256 + b2) * 256 + b3) * 256 + b4) * 256 + b5) * 256 + b6) * 256 + b7
  {
    FromBeConcat(x, b);
    Octet(b, b0, b1, b2, b3, b4, b5, b6, b7);
    assert Pow256(8) == 0x1_00000000_00000000;
  }

  lemma Octet(b: seq<Byte>, b0: Byte, b1: Byte, b2: Byte, b3: Byte, b4: Byte, b5: Byte, b6: Byte, b7: Byte)
    requires b == [b0, b1, b2, b3, b4, b5, b6, b7]
    ensures FromBe(b) == ((((((b0 * 256 + b1) * 256 + b2) * 256 + b3) * 256 + b4) * 256 + b5) * 256 + b6) * 256 + b7
  {
    Quartet([b0, b1, b2, b3], b0, b1, b2, b3);
    Quartet([b4, b5, b6, b7], b4, b5, b6, b7);
    assert b == [b0, b1, b2, b3] + [b4, b5, b6, b7];
    FromBeConcat([b0, b1, b2, b3], [b4, b5, b6, b7]);
    assert Pow256(4) == 0x1_00000000;
  }

  lemma Quartet(b: seq<Byte>, b0: Byte, b1: Byte, b2: Byte, b3: Byte)
    requires b == [b0, b1, b2, b3]
    ensures FromBe(b) == ((b0 * 256 + b1) * 256 + b2) * 256 + b3
  {
    assert b[..3] == [b0, b1, b2] && b[..3][..2] == [b0, b1] && b[..3][..2][..1] == [b0];
    assert FromBe([b0]) == b0;
    assert FromBe([b0, b1]) == b0 * 256 + b1;
  }

  /** The fee field as the withdraw handler reads it: None when the upper 24 bytes are not all zero. */
  method ReadFee(field: Bytes32) returns (fee: Option<nat>)
    ensures fee.Some? <==> FromBe(field) < Pow256(8)
    ensures fee.Some? ==> fee.value == FromBe(field)
  {
    var allZero := true;
    for i := 0 to 24
      invariant allZero <==> forall k :: 0 <= k < i ==> field[k] == 0
    {
      if field[i] != 0 { allZero := false; }
    }
    assert field == field[..24] + field[24..];
    FromBeConcat(field[..24], field[24..]);
    FromBeBound(field[24..]);
    if allZero {
      FromBeZeros(field[..24]);
      return Some(FromBe(field[24..]));
    }
    if FromBe(field[..24]) == 0 {
      ToBeFromBe(field[..24]);
      ToBeZero(24);
      assert false;
    }
    MulLess(0, FromBe(field[..24]), Pow256(8));
    return None;
  }

  lemma {:induction false} FromBeZeros(b: seq<Byte>)
    requires forall k :: 0 <= k < |b| ==> b[k] == 0
    ensures FromBe(b) == 0
  {
    if |b| == 0 {
    } else {
      FromBeZeros(b[..|b| - 1]);
    }
  }

  lemma {:induction false} ToBeZero(n: nat)
    ensures forall k :: 0 <= k < n ==> ToBe(0, n)[k] == 0
  {
    if n == 0 {
    } else {
      ToBeZero(n - 1);
    }
  }

  /**
   A nullifier has one encoding: two accepted 32-byte inputs that agree modulo the field
   order are the same bytes, so they name the same nullifier account.
   */
  lemma NoNullifierReplay(x: Bytes32, y: Bytes32)
    requires FromBe(x) < BN254_R && FromBe(y) < BN254_R
    requires FromBe(x) % BN254_R == FromBe(y) % BN254_R
    ensures x == y
  {
    FromBeInjective(x, y);
  }

  // ---- liquidity parameters, 97 bytes ----

  datatype StrategyParams = StrategyParams(
    amountX: int, amountY: int,
    activeId: int, maxActiveBinSlippage: int,
    minBinId: int, maxBinId: int,
    strategyType: int)

  predicate U64(v: int) { 0 <= v < 0x1_00000000_00000000 }
  predicate I32(v: int) { -0x8000_0000 <= v < 0x8000_0000 }

  predicate ParamsFit(p: StrategyParams) {
    && U64(p.amountX) && U64(p.amountY)
    && I32(p.activeId) && I32(p.maxActiveBinSlippage) && I32(p.minBinId) && I32(p.maxBinId)
    && 0 <= p.strategyType < 256
  }

  /** Two's complement in four bytes. */
  function ToI32Bits(v: int): nat
    requires I32(v)
  {
    if v < 0 then v + 0x1_0000_0000 else v
  }

  function FromI32Bits(u: nat): int {
    if u < 0x8000_0000 then u else u - 0x1_0000_0000
  }

  /** Writes v in n little-endian bytes behind the part already written; the rest stays zero. */
  method WriteLe(buf: array<Byte>, at: nat, v: nat, n: nat, ghost done: seq<Byte>)
    requires |done| == at && at + n <= buf.Length && v < Pow256(n)
    requires buf[..] == done + Copies<Byte>(0, buf.Length - at)
    modifies buf
    ensures buf[..] == done + ToLe(v, n) + Copies<Byte>(0, buf.Length - at - n)
  {
    CopyInto(ToLe(v, n), buf, at);
  }

  /** The layout written out field by field. */
  function Layout(p: StrategyParams): seq<Byte>
    requires ParamsFit(p)
  {
    ToLe(p.amountX, 8) + ToLe(p.amountY, 8)
    + ToLe(ToI32Bits(p.activeId), 4) + ToLe(ToI32Bits(p.maxActiveBinSlippage), 4)
    + ToLe(ToI32Bits(p.minBinId), 4) + ToLe(ToI32Bits(p.maxBinId), 4)
    + ToLe(p.strategyType, 1) + Copies<Byte>(0, 64)
  }

  /** Reads the 97-byte layout back; the last 64 bytes are reserved. */
  function ParseStrategyParams(b: seq<Byte>): StrategyParams
    requires |b| == 97
  {
    StrategyParams(
      FromLe(b[0..8]), FromLe(b[8..16]),
      FromI32Bits(FromLe(b[16..20])), FromI32Bits(FromLe(b[20..24])),
      FromI32Bits(FromLe(b[24..28])), FromI32Bits(FromLe(b[28..32])),
      b[32])
  }

  /** Seven pieces put together can be cut apart again at the running sums of their lengths. */
  lemma CutApart(
      a: seq<Byte>, b: seq<Byte>, c: seq<Byte>, d: seq<Byte>, e: seq<Byte>, f: seq<Byte>, g: seq<Byte>, z: seq<Byte>)
    requires |a| == |b| == 8 && |c| == |d| == |e| == |f| == 4 && |g| == 1 && |z| == 64
    ensures
      var s := a + b + c + d + e + f + g + z;
      && |s| == 97
      && s[0..8] == a && s[8..16] == b && s[16..20] == c && s[20..24] == d
      && s[24..28] == e && s[28..32] == f && s[32..33] == g && s[33..] == z
  {
  }

  /** Reading the layout gives back every field, negative bin ids included. */
  lemma ParseLayout(p: StrategyParams)
    requires ParamsFit(p)
    ensures
      && |Layout(p)| == 97
      && ParseStrategyParams(Layout(p)) == p
      && Layout(p)[0..8] == ToLe(p.amountX, 8) && Layout(p)[8..16] == ToLe(p.amountY, 8)
      && Layout(p)[16..20] == ToLe(ToI32Bits(p.activeId), 4)
      && Layout(p)[20..24] == ToLe(ToI32Bits(p.maxActiveBinSlippage), 4)
      && Layout(p)[24..28] == ToLe(ToI32Bits(p.minBinId), 4) && Layout(p)[28..32] == ToLe(ToI32Bits(p.maxBinId), 4)
      && Layout(p)[32] == p.strategyType
      && Layout(p)[33..] == Copies<Byte>(0, 64)
  {
    CutApart(ToLe(p.amountX, 8), ToLe(p.amountY, 8),
             ToLe(ToI32Bits(p.activeId), 4), ToLe(ToI32Bits(p.maxActiveBinSlippage), 4),
             ToLe(ToI32Bits(p.minBinId), 4), ToLe(ToI32Bits(p.maxBinId), 4),
             ToLe(p.strategyType, 1), Copies<Byte>(0, 64));
    U64RoundTrip(p.amountX);
    U64RoundTrip(p.amountY);
    I32RoundTrip(p.activeId);
    I32RoundTrip(p.maxActiveBinSlippage);
    I32RoundTrip(p.minBinId);
    I32RoundTrip(p.maxBinId);
    assert ToLe(p.strategyType, 1)[0] == p.strategyType;
    assert Layout(p)[32..33][0] == Layout(p)[32];
  }

  lemma U64RoundTrip(v: int)
    requires U64(v)
    ensures FromLe(ToLe(v, 8)) == v
  {
    assert Pow256(8) == 0x1_00000000_00000000;
    FromLeToLe(v, 8);
  }

  lemma I32RoundTrip(v: int)
    requires I32(v)
    ensures FromI32Bits(FromLe(ToLe(ToI32Bits(v), 4))) == v
  {
    assert Pow256(4) == 0x1_0000_0000;
    FromLeToLe(ToI32Bits(v), 4);
  }

  method EncodeLiquidityParamsByStrategy(p: StrategyParams) returns (r: Option<seq<Byte>>)
    ensures r.Some? <==> ParamsFit(p)
    ensures r.Some? ==>
      && |r.value| == 97
      && ParseStrategyParams(r.value) == p
      && r.value[0..8] == ToLe(p.amountX, 8) && r.value[8..16] == ToLe(p.amountY, 8)
      && r.value[16..20] == ToLe(ToI32Bits(p.activeId), 4)
      && r.value[20..24] == ToLe(ToI32Bits(p.maxActiveBinSlippage), 4)
      && r.value[24..28] == ToLe(ToI32Bits(p.minBinId), 4) && r.value[28..32] == ToLe(ToI32Bits(p.maxBinId), 4)
      && r.value[32] == p.strategyType
      && r.value[33..] == Copies<Byte>(0, 64)
  {
    var buf := new Byte[97](_ => 0);
    var o := 0;
    assert Pow256(1) == 256 && Pow256(4) == 0x1_0000_0000 && Pow256(8) == 0x1_00000000_00000000;
    if !U64(p.amountX) { return None; }
    WriteLe(buf, o, p.amountX, 8, []); o := o + 8;
    ghost var done := ToLe(p.amountX, 8);
    assert [] + done == done;
    if !U64(p.amountY) { return None; }
    WriteLe(buf, o, p.amountY, 8, done); o := o + 8; done := done + ToLe(p.amountY, 8);
    if !I32(p.activeId) { return None; }
    WriteLe(buf, o, ToI32Bits(p.activeId), 4, done); o := o + 4; done := done + ToLe(ToI32Bits(p.activeId), 4);
    if !I32(p.maxActiveBinSlippage) { return None; }
    WriteLe(buf, o, ToI32Bits(p.maxActiveBinSlippage), 4,
      done); o := o + 4; done := done + ToLe(ToI32Bits(p.maxActiveBinSlippage), 4);
    if !I32(p.minBinId) { return None; }
    WriteLe(buf, o, ToI32Bits(p.minBinId), 4, done); o := o + 4; done := done + ToLe(ToI32Bits(p.minBinId), 4);
    if !I32(p.maxBinId) { return None; }
    WriteLe(buf, o, ToI32Bits(p.maxBinId), 4, done); o := o + 4; done := done + ToLe(ToI32Bits(p.maxBinId), 4);
    if !(0 <= p.strategyType < 256) { return None; }
    WriteLe(buf, o, p.strategyType, 1, done);
    ParseLayout(p);
    return Some(buf[..]);
  }
}
