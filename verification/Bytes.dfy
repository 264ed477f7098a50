/** Bytes, 32-byte words, and the integers they stand for. */
module Bytes {

  type Byte = x: int | 0 <= x < 256

  type Bytes32 = b: seq<Byte> | |b| == 32 witness seq(32, _ => 0)

  datatype Option<+T> = None | Some(value: T)

  function Copies<T>(x: T, n: nat): (s: seq<T>)
    ensures |s| == n && forall i :: 0 <= i < n ==> s[i] == x
  {
    seq(n, _ => x)
  }

  /** 256 to the power n: one more than the largest n-byte integer. */
  function Pow256(n: nat): (p: nat)
    ensures p >= 1
  {
    if n == 0 then 1 else 256 * Pow256(n - 1)
  }

  /** The integer a big-endian byte string stands for. */
  function FromBe(b: seq<Byte>): nat {
    if |b| == 0 then 0 else 256 * FromBe(b[..|b| - 1]) + b[|b| - 1]
  }

  /** The n low bytes of v, most significant first. */
  function ToBe(v: nat, n: nat): (b: seq<Byte>)
    ensures |b| == n
  {
    if n == 0 then [] else ToBe(v / 256, n - 1) + [v % 256]
  }

  /** The integer a little-endian byte string stands for. */
  function FromLe(b: seq<Byte>): nat {
    if |b| == 0 then 0 else b[0] + 256 * FromLe(b[1..])
  }

  /** The n low bytes of v, least significant first. */
  function ToLe(v: nat, n: nat): (b: seq<Byte>)
    ensures |b| == n
  {
    if n == 0 then [] else [v % 256] + ToLe(v / 256, n - 1)
  }

  lemma {:induction false} FromBeBound(b: seq<Byte>)
    ensures FromBe(b) < Pow256(|b|)
  {
    if |b| == 0 {
    } else {
      FromBeBound(b[..|b| - 1]);
    }
  }

  lemma {:induction false} FromBeToBe(v: nat, n: nat)
    requires v < Pow256(n)
    ensures FromBe(ToBe(v, n)) == v
  {
    if n == 0 {
    } else {
      FromBeToBe(v / 256, n - 1);
      assert ToBe(v, n)[..n - 1] == ToBe(v / 256, n - 1);
    }
  }

  lemma {:induction false} ToBeFromBe(b: seq<Byte>)
    ensures ToBe(FromBe(b), |b|) == b
  {
    if |b| == 0 {
    } else {
      ToBeFromBe(b[..|b| - 1]);
      assert FromBe(b) / 256 == FromBe(b[..|b| - 1]);
      assert b == b[..|b| - 1] + [b[|b| - 1]];
    }
  }

  lemma MulThrough(x: int, y: int)
    ensures 256 * (x * y) == x * (256 * y)
  {
  }

  lemma ShiftDigit(x: int, p: int, y: int, z: int)
    ensures 256 * (x * p + y) + z == x * (256 * p) + (256 * y + z)
  {
    MulThrough(x, p);
  }

  /** Splitting a big-endian string splits its value at the same digit. */
  lemma {:induction false} FromBeConcat(a: seq<Byte>, b: seq<Byte>)
    ensures FromBe(a + b) == FromBe(a) * Pow256(|b|) + FromBe(b)
  {
    if |b| == 0 {
      assert a + b == a;
    } else {
      var b' := b[..|b| - 1];
      FromBeConcat(a, b');
      assert (a + b)[..|a + b| - 1] == a + b';
      ShiftDigit(FromBe(a), Pow256(|b'|), FromBe(b'), b[|b| - 1]);
    }
  }

  lemma {:induction false} FromLeToLe(v: nat, n: nat)
    requires v < Pow256(n)
    ensures FromLe(ToLe(v, n)) == v
  {
    if n == 0 {
    } else {
      FromLeToLe(v / 256, n - 1);
      assert ToLe(v, n)[1..] == ToLe(v / 256, n - 1);
    }
  }

  /** The bytes from last to first. */
  function Backwards(b: seq<Byte>): (r: seq<Byte>)
    ensures |r| == |b| && forall i :: 0 <= i < |b| ==> r[i] == b[|b| - 1 - i]
  {
    seq(|b|, i requires 0 <= i < |b| => b[|b| - 1 - i])
  }

  /** Little-endian is big-endian read from the other end. */
  lemma {:induction false} LittleIsBigBackwards(b: seq<Byte>)
    ensures FromLe(b) == FromBe(Backwards(b))
  {
    if |b| == 0 {
    } else {
      LittleIsBigBackwards(b[1..]);
      assert Backwards(b)[..|b| - 1] == Backwards(b[1..]);
    }
  }

  /** Equal-length big-endian strings with equal values are equal. */
  lemma FromBeInjective(a: seq<Byte>, b: seq<Byte>)
    requires |a| == |b| && FromBe(a) == FromBe(b)
    ensures a == b
  {
    ToBeFromBe(a);
    ToBeFromBe(b);
  }

  /** The value of a string whose first byte is d. */
  lemma FromBeHead(d: Byte, rest: seq<Byte>)
    ensures FromBe([d] + rest) == d * Pow256(|rest|) + FromBe(rest)
  {
    FromBeConcat([d], rest);
    assert FromBe([d]) == d;
  }

  lemma MulLess(x: int, y: int, p: nat)
    requires x < y
    ensures x * p + p <= y * p
  {
    assert (y - x - 1) * p >= 0;
  }

  /** Big-endian order is dictionary order: the first differing byte decides. */
  lemma {:induction false} FromBeLess(a: seq<Byte>, b: seq<Byte>, i: nat)
    requires |a| == |b| && i < |a| && a[..i] == b[..i] && a[i] < b[i]
    ensures FromBe(a) < FromBe(b)
    decreases i
  {
    var n := |a| - 1;
    assert a == [a[0]] + a[1..] && b == [b[0]] + b[1..];
    FromBeHead(a[0], a[1..]);
    FromBeHead(b[0], b[1..]);
    if i == 0 {
      FromBeBound(a[1..]);
      MulLess(a[0], b[0], Pow256(n));
    } else {
      assert a[..i][0] == b[..i][0];
      assert a[1..][..i - 1] == a[..i][1..] && b[1..][..i - 1] == b[..i][1..];
      FromBeLess(a[1..], b[1..], i - 1);
    }
  }
}
