/**
 Bytes, fixed-width little-endian numbers and the result types shared by the other modules.
 */
module Bytes {

  type byte = x: int | 0 <= x < 256

  type bytes = seq<byte>

  type uint64 = x: int | 0 <= x < 0x1_0000_0000_0000_0000

  const TWO_TO_THE_64: int := 0x1_0000_0000_0000_0000

  datatype Option<+T> = None | Some(value: T)

  /** What a Go function with an error result can do: return a value, return an error, or panic. */
  datatype Result<+T> = Ok(value: T) | Err | Panic

  function Pow256(k: nat): (p: nat)
    ensures p > 0
  {
    if k == 0 then 1 else 256 * Pow256(k - 1)
  }

  function Zeros(n: nat): (s: bytes)
    ensures |s| == n
    ensures forall i :: 0 <= i < n ==> s[i] == 0
  {
    seq(n, _ => 0)
  }

  /** The k low-order bytes of n, least significant byte first. */
  function LittleEndian(n: nat, k: nat): (s: bytes)
    ensures |s| == k
  {
    if k == 0 then [] else [n % 256] + LittleEndian(n / 256, k - 1)
  }

  function FromLittleEndian(s: bytes): nat {
    if s == [] then 0 else s[0] + 256 * FromLittleEndian(s[1..])
  }

  /** The shortest little-endian form: no byte at all for 0, a non-zero last byte otherwise. */
  function Digits(n: nat): bytes {
    if n == 0 then [] else [n % 256] + Digits(n / 256)
  }

  lemma PowValues()
    ensures Pow256(1) == 0x100
    ensures Pow256(2) == 0x1_0000
    ensures Pow256(4) == 0x1_0000_0000
    ensures Pow256(8) == 0x1_0000_0000_0000_0000
  {
    assert Pow256(1) == 256 * Pow256(0);
    assert Pow256(3) == 256 * Pow256(2);
    assert Pow256(5) == 256 * Pow256(4);
    assert Pow256(7) == 256 * Pow256(6);
  }

  lemma {:induction false} PowSum(a: nat, b: nat)
    ensures Pow256(a + b) == Pow256(a) * Pow256(b)
    decreases a
  {
    if a > 0 {
      PowSum(a - 1, b);
      assert Pow256(a + b) == 256 * Pow256(a + b - 1);
    }
  }

  lemma OneByteEncoding(v: byte)
    ensures LittleEndian(v, 1) == [v]
  {
  }

  lemma {:induction false} LittleEndianInverse(n: nat, k: nat)
    requires n < Pow256(k)
    ensures FromLittleEndian(LittleEndian(n, k)) == n
  {
    if k > 0 {
      LittleEndianInverse(n / 256, k - 1);
      assert LittleEndian(n, k)[1..] == LittleEndian(n / 256, k - 1);
    }
  }

  lemma SplitByte(d: byte, n: nat)
    ensures (d + 256 * n) % 256 == d && (d + 256 * n) / 256 == n
  {
  }

  lemma {:induction false} FromLittleEndianInverse(s: bytes)
    ensures FromLittleEndian(s) < Pow256(|s|)
    ensures LittleEndian(FromLittleEndian(s), |s|) == s
  {
    if s != [] {
      FromLittleEndianInverse(s[1..]);
      var tail := FromLittleEndian(s[1..]);
      SplitByte(s[0], tail);
    }
  }

  lemma {:induction false} DigitsInverse(n: nat)
    ensures FromLittleEndian(Digits(n)) == n
    ensures n > 0 ==> Digits(n) != [] && Digits(n)[|Digits(n)| - 1] != 0
  {
    if n > 0 {
      DigitsInverse(n / 256);
      assert Digits(n)[1..] == Digits(n / 256);
      if n < 256 {
        assert Digits(n / 256) == [];
      }
    }
  }

  /** A string without trailing zero bytes is the shortest form of its value. */
  lemma {:induction false} FromDigitsInverse(s: bytes)
    requires s != [] ==> s[|s| - 1] != 0
    ensures Digits(FromLittleEndian(s)) == s
    ensures s != [] ==> FromLittleEndian(s) > 0
  {
    if s != [] {
      var tail := FromLittleEndian(s[1..]);
      FromDigitsInverse(s[1..]);
      SplitByte(s[0], tail);
    }
  }

  /** A number below 256^k and not below 256^(k-1) has exactly k digits. */
  lemma {:induction false} DigitsLength(n: nat, k: nat)
    ensures |Digits(n)| <= k <==> n < Pow256(k)
  {
    if n > 0 && k > 0 {
      DigitsLength(n / 256, k - 1);
    }
  }

  lemma DivideTwice(n: nat, p: nat)
    requires p > 0
    ensures n / 256 / p == n / (256 * p)
  {
    var q, r := n / 256, n % 256;
    var t, u := q / p, q % p;
    assert n == 256 * p * t + (256 * u + r);
    assert 0 <= 256 * u + r < 256 * p;
    UniqueQuotient(n, 256 * p, t, 256 * u + r);
  }

  lemma UniqueQuotient(n: nat, d: nat, q: nat, r: nat)
    requires n == d * q + r && r < d
    ensures n / d == q
  {
    var k, m := n / d, n % d;
    assert d * (q - k) == m - r;
    if q - k >= 1 {
      AtLeastOnce(d, q - k);
    } else if k - q >= 1 {
      AtLeastOnce(d, k - q);
    }
  }

  lemma AtLeastOnce(d: nat, x: nat)
    requires x >= 1
    ensures d * x >= d
  {
    assert d * x == d + d * (x - 1);
  }

  /** Which byte goes where: the i-th is the i-th digit to base 256, the least significant one first. */
  lemma {:induction false} LittleEndianAt(n: nat, k: nat, i: nat)
    requires i < k
    ensures LittleEndian(n, k)[i] == n / Pow256(i) % 256
    decreases i
  {
    if i > 0 {
      LittleEndianAt(n / 256, k - 1, i - 1);
      DivideTwice(n, Pow256(i - 1));
    }
  }

  /** The widths of the wire format, byte by byte. */
  lemma LittleEndianBytes(n: nat)
    ensures LittleEndian(n, 2) == [n % 0x100, n / 0x100 % 0x100]
    ensures LittleEndian(n, 4) == [n % 0x100, n / 0x100 % 0x100, n / 0x1_0000 % 0x100, n / 0x100_0000 % 0x100]
    ensures LittleEndian(n, 8) == LittleEndian(n, 4) + LittleEndian(n / 0x1_0000_0000, 4)
  {
    hide LittleEndian;
    NextByte(n, 2);
    NextByte(n / 0x100, 1);
    FourBytes(n);
    NextByte(n, 8);
    NextByte(n / 0x100, 7);
    NextByte(n / 0x1_0000, 6);
    NextByte(n / 0x100_0000, 5);
    ByteSteps(n);
    assert LittleEndian(n / 0x1_0000, 0) == [];
  }

  lemma FourBytes(n: nat)
    ensures LittleEndian(n, 4) == [n % 0x100, n / 0x100 % 0x100, n / 0x1_0000 % 0x100, n / 0x100_0000 % 0x100]
  {
    hide LittleEndian;
    ByteSteps(n);
    NextByte(n, 4);
    NextByte(n / 0x100, 3);
    NextByte(n / 0x1_0000, 2);
    NextByte(n / 0x100_0000, 1);
    assert LittleEndian(n / 0x1_0000_0000, 0) == [];
  }

  lemma NextByte(n: nat, k: nat)
    requires k > 0
    ensures LittleEndian(n, k) == [n % 0x100] + LittleEndian(n / 0x100, k - 1)
  {
  }

  lemma ByteSteps(n: nat)
    ensures n / 0x100 / 0x100 == n / 0x1_0000
    ensures n / 0x1_0000 / 0x100 == n / 0x100_0000
    ensures n / 0x100_0000 / 0x100 == n / 0x1_0000_0000
  {
  }

  /** Fills the first k bytes of buf with v: the encoding/binary PutUint functions. */
  method PutUint(buf: array<byte>, v: nat, k: nat)
    requires k <= buf.Length
    modifies buf
    ensures buf[..k] == LittleEndian(v, k)
    ensures buf[k..] == old(buf[k..])
  {
    var rest := v;
    for i := 0 to k
      invariant LittleEndian(v, k) == buf[..i] + LittleEndian(rest, k - i)
      invariant buf[k..] == old(buf[k..])
    {
      ghost var before := buf[..i];
      buf[i] := rest % 256;
      assert buf[..i + 1] == before + [rest % 256];
      rest := rest / 256;
    }
  }
}
