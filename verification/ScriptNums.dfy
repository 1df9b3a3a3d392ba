/**
 Script numbers (scriptnum.go): sign-magnitude little-endian integers of 64-bit width, and the
 reader the consensus rules apply to them.
 */
module ScriptNums {
  import opened Bytes

  type int64 = x: int | -0x8000_0000_0000_0000 <= x < 0x8000_0000_0000_0000

  const MIN_INT64: int64 := -0x8000_0000_0000_0000

  /** Two's complement negation: the least number is its own negative. */
  function Negate(n: int64): int64 {
    if n == MIN_INT64 then n else -n
  }

  function Abs(n: int): nat {
    if n < 0 then -n else n
  }

  /** The digits of the magnitude with the sign in the top bit of the last byte, widened if taken. */
  function WithSign(digits: bytes, negative: bool): bytes
    requires digits != []
  {
    var last := digits[|digits| - 1];
    if last >= 0x80 then digits + [if negative then 0x80 else 0]
    else if negative then digits[..|digits| - 1] + [last + 0x80]
    else digits
  }

  function EncodeNum(n: int): bytes {
    if n == 0 then [] else DigitsInverse(Abs(n)); WithSign(Digits(Abs(n)), n < 0)
  }

  /** CScriptNum's reading: the top bit of the last byte is the sign, the rest the magnitude. */
  function DecodeNum(s: bytes): int {
    if s == [] then 0
    else
      var last := s[|s| - 1];
      if last >= 0x80 then 0 - FromLittleEndian(s[..|s| - 1] + [last - 0x80])
      else FromLittleEndian(s)
  }

  /** Rule 4 of BIP 62: the last byte holds more than the sign, unless the byte before needs that. */
  predicate Minimal(s: bytes) {
    s != [] && s[|s| - 1] % 0x80 == 0 ==> |s| > 1 && s[|s| - 2] >= 0x80
  }

  /** The shifting loop; a number that is not positive has no digits. */
  method ShiftOut(n: int64) returns (result: bytes)
    ensures result == if n > 0 then Digits(n) else []
  {
    hide Digits;
    var m := n;
    result := [];
    NoDigits();
    while m > 0
      invariant n > 0 ==> m >= 0 && Digits(n) == result + Digits(m)
      invariant n <= 0 ==> m == n && result == []
    {
      NextDigit(m);
      result := result + [m % 0x100];
      m := m / 0x100;
    }
  }

  method ScriptNumBytes(n: int64) returns (r: Result<bytes>)
    ensures r == if n == MIN_INT64 then Panic else Ok(EncodeNum(n))
  {
    hide Digits, FromLittleEndian;
    if n == 0 {
      return Ok([]);
    }
    DigitsInverse(Abs(n));
    var isNegative := n < 0;
    var result := ShiftOut(if isNegative then Negate(n) else n);
    if result == [] {
      return Panic;  // result[len(result)-1] is out of range
    }
    var last := result[|result| - 1];
    if last >= 0x80 {
      var extraByte: byte := if isNegative then 0x80 else 0x00;
      result := result + [extraByte];
    } else if isNegative {
      result := result[|result| - 1 := last + 0x80];
      assert result == WithSign(Digits(Abs(n)), true);
    }
    return Ok(result);
  }

  lemma NextDigit(n: nat)
    requires n > 0
    ensures Digits(n) == [n % 0x100] + Digits(n / 0x100)
  {
  }

  lemma NoDigits()
    ensures Digits(0) == []
  {
  }

  // ---- A canonical bijection ----

  lemma {:induction false} AppendZero(s: bytes)
    ensures FromLittleEndian(s + [0]) == FromLittleEndian(s)
  {
    if s == [] {
      assert FromLittleEndian([0]) == 0 + 256 * FromLittleEndian([]);
    } else {
      AppendZero(s[1..]);
      assert (s + [0])[1..] == s[1..] + [0];
    }
  }

  /** Reading back what was written. */
  lemma NumRoundTrip(n: int)
    ensures DecodeNum(EncodeNum(n)) == n
  {
    hide Digits, FromLittleEndian;
    if n != 0 {
      DigitsInverse(Abs(n));
      var d := Digits(Abs(n));
      var s := EncodeNum(n);
      if d[|d| - 1] >= 0x80 {
        AppendZero(d);
        assert s[..|s| - 1] == d;
      } else if n < 0 {
        assert s[..|s| - 1] + [s[|s| - 1] - 0x80] == d;
      }
    }
  }

  lemma NumIsMinimal(n: int)
    ensures Minimal(EncodeNum(n))
  {
    if n != 0 {
      DigitsInverse(Abs(n));
    }
  }

  /** A last byte that holds nothing but the sign, behind digits that need all their bits. */
  lemma WidenedRoundTrip(front: bytes, last: byte)
    requires front != [] && front[|front| - 1] >= 0x80 && last % 0x80 == 0
    ensures EncodeNum(DecodeNum(front + [last])) == front + [last]
  {
    AppendZero(front);
    FromDigitsInverse(front);
    assert (front + [last])[..|front|] == front;
  }

  lemma UnwidenedRoundTrip(front: bytes, last: byte)
    requires last % 0x80 != 0
    ensures EncodeNum(DecodeNum(front + [last])) == front + [last]
  {
    var digits := front + [last % 0x80];
    FromDigitsInverse(digits);
    assert (front + [last])[..|front|] == front && digits[..|digits| - 1] == front;
  }

  /** Every minimal string is the encoding of the number it denotes. */
  lemma MinimalRoundTrip(s: bytes)
    requires Minimal(s)
    ensures EncodeNum(DecodeNum(s)) == s
  {
    if s != [] {
      var front, last := s[..|s| - 1], s[|s| - 1];
      assert s == front + [last];
      if last % 0x80 == 0 {
        WidenedRoundTrip(front, last);
      } else {
        UnwidenedRoundTrip(front, last);
      }
    }
  }

  /** The bytes accepted as a number and the numbers are in one-to-one correspondence. */
  lemma NumExactly(s: bytes, n: int)
    ensures s == EncodeNum(n) <==> Minimal(s) && DecodeNum(s) == n
  {
    NumRoundTrip(n);
    NumIsMinimal(n);
    if Minimal(s) {
      MinimalRoundTrip(s);
    }
  }

  /** The length of an encoding is decided by the magnitude alone, one bit going to the sign. */
  lemma {:induction false} NumLength(n: int, k: nat)
    requires k > 0
    ensures |EncodeNum(n)| <= k <==> 2 * Abs(n) < Pow256(k)
  {
    if n != 0 {
      var d := Digits(Abs(n));
      DigitsInverse(Abs(n));
      DigitsLength(Abs(n), k - 1);
      DigitsLength(Abs(n), k);
      if |d| == k {
        TopBit(d);
      }
    }
  }

  lemma {:induction false} TopBit(d: bytes)
    requires d != []
    ensures d[|d| - 1] >= 0x80 <==> 2 * FromLittleEndian(d) >= Pow256(|d|)
    decreases |d|
  {
    hide Pow256;
    if |d| == 1 {
      assert FromLittleEndian(d) == d[0] + 256 * FromLittleEndian(d[1..]);
      PowValues();
    } else {
      TopBit(d[1..]);
      PowEven(|d| - 1);
      HalfPower(d[0], FromLittleEndian(d[1..]), Pow256(|d| - 1));
      PowNext(|d| - 1);
    }
  }

  /** A further low-order byte does not decide which half a number is in. */
  lemma HalfPower(low: byte, n: nat, p: nat)
    requires p % 2 == 0
    ensures 2 * n >= p <==> 2 * (low + 256 * n) >= 256 * p
  {
  }

  lemma PowNext(k: nat)
    ensures Pow256(k + 1) == 256 * Pow256(k)
  {
  }

  lemma PowEven(k: nat)
    requires k > 0
    ensures Pow256(k) % 2 == 0
  {
  }

  /** At most nine bytes for a 64-bit number; four exactly for the operands of arithmetic opcodes. */
  lemma NumBounds(n: int64)
    ensures |EncodeNum(n)| <= 9
    ensures |EncodeNum(n)| <= 4 <==> -0x7fff_ffff <= n <= 0x7fff_ffff
  {
    NumLength(n, 9);
    NumLength(n, 4);
    PowValues();
    assert Pow256(9) == 256 * Pow256(8);
  }

  /** The top bit of the last byte is the sign, and the bytes without it are the magnitude. */
  lemma NumBytes(n: int)
    requires n != 0
    ensures var s := EncodeNum(n);
            && s != []
            && (s[|s| - 1] >= 0x80 <==> n < 0)
            && FromLittleEndian(s[..|s| - 1] + [s[|s| - 1] % 0x80]) == if n < 0 then -n else n
  {
    hide FromLittleEndian;
    NumRoundTrip(n);
    var s := EncodeNum(n);
    assert s[..|s| - 1] + [s[|s| - 1]] == s;
    DigitsInverse(Abs(n));
  }

  /** Some numbers and their bytes. */
  lemma NumExamples()
    ensures EncodeNum(0) == [] && EncodeNum(1) == [0x01] && EncodeNum(-1) == [0x81]
    ensures EncodeNum(127) == [0x7f] && EncodeNum(-127) == [0xff]
    ensures EncodeNum(128) == [0x80, 0x00] && EncodeNum(-128) == [0x80, 0x80]
    ensures EncodeNum(256) == [0x00, 0x01] && EncodeNum(-256) == [0x00, 0x81]
  {
    assert Digits(1) == [1] && Digits(127) == [127] && Digits(128) == [128] && Digits(256) == [0, 1];
  }
}
