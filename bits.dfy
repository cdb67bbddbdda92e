/**
 * Fixed-width fields as the @ton/core builder writes them: unsigned and
 * two's-complement integers most significant bit first, raw bytes, and the
 * `Coins` amount (`VarUInteger 16` of TON's block.tlb: a 4-bit byte count,
 * then that many big-endian bytes). Each encoding is paired with its reader.
 */
module Bits {

  function Pow2(n: nat): (p: nat)
    ensures p >= 1
  {
    if n == 0 then 1 else 2 * Pow2(n - 1)
  }

  lemma {:induction false} Pow2Add(a: nat, b: nat)
    ensures Pow2(a + b) == Pow2(a) * Pow2(b)
  {
    if a > 0 {
      Pow2Add(a - 1, b);
      assert Pow2(a + b) == 2 * Pow2(a - 1 + b);
    }
  }

  lemma {:induction false} Pow2Monotone(a: nat, b: nat)
    requires a <= b
    ensures Pow2(a) <= Pow2(b)
  {
    if a < b {
      Pow2Monotone(a, b - 1);
    }
  }

  lemma Pow2Values()
    ensures Pow2(1) == 2 && Pow2(2) == 4 && Pow2(4) == 16 && Pow2(7) == 128
    ensures Pow2(8) == 256 && Pow2(16) == 65536
    ensures Pow2(32) == 0x1_0000_0000 && Pow2(64) == 0x1_0000_0000_0000_0000
  {
    assert Pow2(4) == 16;
    assert Pow2(8) == 256;
    assert Pow2(16) == 65536;
    Pow2Add(16, 16);
    Pow2Add(32, 32);
  }

  predicate InUintRange(v: int, w: nat) {
    0 <= v < Pow2(w)
  }

  /** For `w >= 1`, `storeInt(v, w)` accepts exactly these values; width 0 is excluded. */
  predicate InIntRange(v: int, w: nat) {
    w >= 1 && -(Pow2(w - 1) as int) <= v < Pow2(w - 1)
  }

  /** Splitting `a + b + c` after `a`. */
  lemma SplitFront<T>(a: seq<T>, b: seq<T>, c: seq<T>)
    ensures ((a + b) + c)[..|a|] == a && ((a + b) + c)[|a|..] == b + c
  {
    assert (a + b) + c == a + (b + c);
  }

  // ---------------------------------------------------------------------
  // Unsigned integers

  /** The low `w` bits of `v`, most significant first (`storeUint(v, w)`). */
  function UintBits(v: nat, w: nat): (bits: seq<bool>)
    ensures |bits| == w
  {
    if w == 0 then [] else UintBits(v / 2, w - 1) + [v % 2 == 1]
  }

  /** Reads a bit string as a big-endian unsigned integer (`loadUint`). */
  function UintValue(bits: seq<bool>): (v: nat)
    ensures v < Pow2(|bits|)
  {
    if bits == [] then 0
    else 2 * UintValue(bits[..|bits| - 1]) + (if bits[|bits| - 1] then 1 else 0)
  }

  lemma {:induction false} UintRoundTrip(v: nat, w: nat)
    requires v < Pow2(w)
    ensures UintValue(UintBits(v, w)) == v
  {
    if w > 0 {
      var b := UintBits(v, w);
      assert b[..w - 1] == UintBits(v / 2, w - 1);
      UintRoundTrip(v / 2, w - 1);
    }
  }

  /** Zero is the all-zero field. */
  lemma {:induction false} UintBitsZero(w: nat)
    ensures UintBits(0, w) == seq(w, i => false)
  {
    if w > 0 {
      UintBitsZero(w - 1);
    }
  }

  /** 2^w - 1 is the all-ones field. */
  lemma {:induction false} UintBitsAllOnes(w: nat)
    ensures UintBits(Pow2(w) - 1, w) == seq(w, i => true)
  {
    if w > 0 {
      assert (Pow2(w) - 1) / 2 == Pow2(w - 1) - 1;
      UintBitsAllOnes(w - 1);
    }
  }

  // ---------------------------------------------------------------------
  // Signed integers

  /** Two's complement in `w` bits (`storeInt(v, w)`, which refuses other values). */
  function IntBits(v: int, w: nat): (bits: seq<bool>)
    requires InIntRange(v, w)
    ensures |bits| == w
  {
    UintBits(if v < 0 then v + Pow2(w) else v, w)
  }

  /** Reads a bit string as a two's-complement integer (`loadInt`). */
  function IntValue(bits: seq<bool>): int {
    var u := UintValue(bits);
    if |bits| > 0 && u >= Pow2(|bits| - 1) then u - Pow2(|bits|) else u
  }

  lemma IntRoundTrip(v: int, w: nat)
    requires InIntRange(v, w)
    ensures IntValue(IntBits(v, w)) == v
  {
    assert Pow2(w) == 2 * Pow2(w - 1);
    UintRoundTrip(if v < 0 then v + Pow2(w) else v, w);
  }

  // ---------------------------------------------------------------------
  // Bytes

  type Byte = x: int | 0 <= x < 256

  /** Bytes one after the other, each as 8 bits (`storeBuffer`). */
  function BytesBits(bs: seq<Byte>): (bits: seq<bool>)
    ensures |bits| == 8 * |bs|
  {
    if bs == [] then [] else UintBits(bs[0], 8) + BytesBits(bs[1..])
  }

  /** Reads whole bytes (`loadBuffer`). */
  function BytesOf(bits: seq<bool>): (bs: seq<Byte>)
    requires |bits| % 8 == 0
    ensures |bs| == |bits| / 8
  {
    if bits == [] then []
    else
      Pow2Values();
      [UintValue(bits[..8])] + BytesOf(bits[8..])
  }

  lemma {:induction false} BytesRoundTrip(bs: seq<Byte>)
    ensures BytesOf(BytesBits(bs)) == bs
  {
    if bs != [] {
      Pow2Values();
      var b := BytesBits(bs);
      assert b[..8] == UintBits(bs[0], 8);
      assert b[8..] == BytesBits(bs[1..]);
      UintRoundTrip(bs[0], 8);
      BytesRoundTrip(bs[1..]);
    }
  }

  // ---------------------------------------------------------------------
  // Coins: VarUInteger 16

  /** Number of bytes `storeCoins` uses: ceil(bit length / 8), and 0 for 0. */
  function ByteLen(v: nat): nat {
    if v == 0 then 0 else 1 + ByteLen(v / 256)
  }

  /** `ByteLen(v)` is the least byte count whose range holds `v`. */
  lemma {:induction false} ByteLenTight(v: nat)
    ensures v < Pow2(8 * ByteLen(v))
    ensures v > 0 ==> Pow2(8 * (ByteLen(v) - 1)) <= v
  {
    if v > 0 {
      var n := ByteLen(v / 256);
      ByteLenTight(v / 256);
      Pow2Values();
      Pow2Add(8, 8 * n);
      assert 8 * (n + 1) == 8 + 8 * n;
      if n > 0 {
        Pow2Add(8, 8 * (n - 1));
        assert 8 * n == 8 + 8 * (n - 1);
      }
    }
  }

  /**
   * `storeCoins` fails when its 4-bit byte count overflows, that is when
   * more than 15 bytes are needed; this is the same as `v >= 2^120`.
   */
  predicate CoinsFit(v: int) {
    v >= 0 && ByteLen(v) < 16
  }

  lemma CoinsFitRange(v: int)
    ensures CoinsFit(v) <==> 0 <= v < Pow2(120)
  {
    if v >= 0 {
      ByteLenTight(v);
      if ByteLen(v) < 16 {
        Pow2Monotone(8 * ByteLen(v), 120);
      } else {
        Pow2Monotone(120, 8 * (ByteLen(v) - 1));
      }
    }
  }

  /** `storeCoins(v)`: byte count in 4 bits, then the value in that many bytes. */
  function CoinsBits(v: nat): (bits: seq<bool>)
    ensures |bits| == 4 + 8 * ByteLen(v)
  {
    UintBits(ByteLen(v), 4) + UintBits(v, 8 * ByteLen(v))
  }

  /** Zero is the single length-0 nibble. */
  lemma CoinsZero()
    ensures CoinsBits(0) == [false, false, false, false]
  {
    UintBitsZero(4);
  }
}
