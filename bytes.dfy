/** 8-bit unsigned arithmetic as the AVR compiler performs it, and bit-sequence helpers. */
module Bytes {

  /** A `uint8_t` value. */
  type Byte = x: int | 0 <= x < 256

  /** Conversion of an `int` result back to `uint8_t`: reduction modulo 256. */
  function Wrap(x: int): Byte
  {
    x % 256
  }

  function Pow2(k: nat): (r: nat)
    ensures r >= 1
  {
    if k == 0 then 1 else 2 * Pow2(k - 1)
  }

  /** `mask <<= 1` on a `uint8_t` mask holding bit i: the next bit, or zero after bit 7. */
  lemma ShiftMask(i: nat)
    requires i < 8
    ensures Pow2(i) < 256
    ensures Wrap(Pow2(i) * 2) == if i < 7 then Pow2(i + 1) else 0
  {
    assert Pow2(8) == 256;
    assert i == 0 || i == 1 || i == 2 || i == 3 || i == 4 || i == 5 || i == 6 || i == 7;
  }

  /** The value of a bit sequence read least significant bit first. */
  function LsbValue(bs: seq<bool>): nat
  {
    if bs == [] then 0 else (if bs[0] then 1 else 0) + 2 * LsbValue(bs[1..])
  }

  function BitValue(b: bool): nat
  {
    if b then 1 else 0
  }

  /** The value of eight bits, LSB first, written out. */
  lemma LsbValueEight(bs: seq<bool>)
    requires |bs| == 8
    ensures LsbValue(bs) == BitValue(bs[0]) + 2 * BitValue(bs[1]) + 4 * BitValue(bs[2])
      + 8 * BitValue(bs[3]) + 16 * BitValue(bs[4]) + 32 * BitValue(bs[5])
      + 64 * BitValue(bs[6]) + 128 * BitValue(bs[7])
  {
    assert LsbValue(bs[8..]) == 0;
    assert LsbValue(bs[7..]) == BitValue(bs[7]) + 2 * LsbValue(bs[8..]);
    assert LsbValue(bs[6..]) == BitValue(bs[6]) + 2 * LsbValue(bs[7..]);
    assert LsbValue(bs[5..]) == BitValue(bs[5]) + 2 * LsbValue(bs[6..]);
    assert LsbValue(bs[4..]) == BitValue(bs[4]) + 2 * LsbValue(bs[5..]);
    assert LsbValue(bs[3..]) == BitValue(bs[3]) + 2 * LsbValue(bs[4..]);
    assert LsbValue(bs[2..]) == BitValue(bs[2]) + 2 * LsbValue(bs[3..]);
    assert LsbValue(bs[1..]) == BitValue(bs[1]) + 2 * LsbValue(bs[2..]);
  }

  /** The number of `true` entries. */
  function Ones(bs: seq<bool>): nat
  {
    if bs == [] then 0 else (if bs[0] then 1 else 0) + Ones(bs[1..])
  }

  /** The low `k` bits of `x`, least significant first. */
  function Bits(x: nat, k: nat): (bs: seq<bool>)
    ensures |bs| == k
  {
    if k == 0 then [] else [x % 2 == 1] + Bits(x / 2, k - 1)
  }

  /** One data step of the receiver: `b` shifted right by one, with the top bit set when
      `bit` holds. */
  function ShiftIn(b: Byte, bit: bool): (r: Byte)
    ensures r / 128 == (if bit then 1 else 0) && r % 128 == b / 2
  {
    b / 2 + (if bit then 0x80 else 0)
  }

  /** Shifts every bit of `bs` in turn into `b`. */
  function ShiftAll(b: Byte, bs: seq<bool>): Byte
    decreases |bs|
  {
    if bs == [] then b else ShiftAll(ShiftIn(b, bs[0]), bs[1..])
  }

  lemma DivDiv(w: nat, m: nat)
    requires m > 0
    ensures (w / 2) / m == w / (2 * m)
  {
    var q, r := w / (2 * m), w % (2 * m);
    assert w == 2 * m * q + r && 0 <= r < 2 * m;
    assert w / 2 == m * q + r / 2;
    assert 0 <= r / 2 < m;
    DivUnique(w / 2, m, q, r / 2);
  }

  lemma DivUnique(a: int, m: int, q: int, r: int)
    requires m > 0 && 0 <= r < m && a == m * q + r
    ensures a / m == q && a % m == r
  {
    var q', r' := a / m, a % m;
    assert m * (q - q') == r' - r by {
      assert m * (q - q') == m * q - m * q';
    }
    MulSmall(m, q - q');
  }

  /** Reduction modulo `n` of a value below `2 * n`. */
  lemma ModBelowTwice(x: int, n: int)
    requires n > 0 && 0 <= x < 2 * n
    ensures x % n == if x < n then x else x - n
  {
    if x < n {
      DivUnique(x, n, 0, x);
    } else {
      DivUnique(x, n, 1, x - n);
    }
  }

  lemma MulSmall(m: int, k: int)
    requires m > 0 && -m < m * k < m
    ensures k == 0
  {
  }

  lemma {:induction false} LsbValueBound(bs: seq<bool>)
    ensures LsbValue(bs) < Pow2(|bs|)
  {
    if bs != [] {
      LsbValueBound(bs[1..]);
    }
  }

  /** Reading the low `k` bits of `x` back gives `x` modulo 2^k. */
  lemma {:induction false} BitsValue(x: nat, k: nat)
    ensures LsbValue(Bits(x, k)) == x % Pow2(k)
  {
    if k > 0 {
      var bs := Bits(x, k);
      assert bs[1..] == Bits(x / 2, k - 1);
      BitsValue(x / 2, k - 1);
      var m := Pow2(k - 1);
      var q, r := (x / 2) / m, (x / 2) % m;
      assert x == 2 * m * q + (2 * r + x % 2);
      DivUnique(x, 2 * m, q, 2 * r + x % 2);
    }
  }

  /** Entry `i` of `Bits(x, k)` is bit `i` of `x`, the test `x & (1 << i)` performs. */
  lemma {:induction false} BitsAt(x: nat, k: nat, i: nat)
    requires i < k
    ensures Bits(x, k)[i] == ((x / Pow2(i)) % 2 == 1)
  {
    if i > 0 {
      BitsAt(x / 2, k - 1, i - 1);
      DivDiv(x, Pow2(i - 1));
    }
  }

  /** Shifting a sequence of bits into a byte from the top: the byte read as a
      register of 8 + |bs| bits, with `bs` (LSB first) above the old value, shifted right |bs| times. */
  lemma {:induction false} ShiftAllValue(b: Byte, bs: seq<bool>)
    ensures ShiftAll(b, bs) == (b + 256 * LsbValue(bs)) / Pow2(|bs|)
    decreases |bs|
  {
    if bs != [] {
      var b' := ShiftIn(b, bs[0]);
      ShiftAllValue(b', bs[1..]);
      var w := b + 256 * ((if bs[0] then 1 else 0) + 2 * LsbValue(bs[1..]));
      assert b' + 256 * LsbValue(bs[1..]) == w / 2;
      DivDiv(w, Pow2(|bs| - 1));
    }
  }

  /** After eight shifts the old contents are gone: the byte holds the eight bits, LSB first. */
  lemma ShiftEight(b: Byte, bs: seq<bool>)
    requires |bs| == 8
    ensures ShiftAll(b, bs) == LsbValue(bs)
  {
    ShiftAllValue(b, bs);
    LsbValueBound(bs);
    assert Pow2(|bs|) == 256;
    DivUnique(b + 256 * LsbValue(bs), 256, LsbValue(bs), b);
  }

  lemma {:induction false} OnesAppend(a: seq<bool>, b: seq<bool>)
    ensures Ones(a + b) == Ones(a) + Ones(b)
  {
    if a != [] {
      assert (a + b)[0] == a[0] && (a + b)[1..] == a[1..] + b;
      OnesAppend(a[1..], b);
    } else {
      assert a + b == b;
    }
  }
}
