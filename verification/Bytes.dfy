/** Bytes as the C++ code sees them: bit tests, exclusive or, and little-endian integers. */
module Bytes {
  type Byte = b: int | 0 <= b < 0x100

  function Pow2(n: nat): (p: nat)
    ensures 0 < p
  {
    if n == 0 then 1 else 2 * Pow2(n - 1)
  }

  // ---------------------------------------------------------------- single bits

  /** `v & (1 << k)`: bit number `k`, counted from the least significant one. */
  predicate TestBit(v: nat, k: nat) {
    if k == 0 then v % 2 == 1 else TestBit(v / 2, k - 1)
  }

  /** `v | (1 << k)`. */
  function OrBit(v: nat, k: nat): nat {
    if k == 0 then v / 2 * 2 + 1 else v % 2 + 2 * OrBit(v / 2, k - 1)
  }

  lemma {:induction false} OrBitSets(v: nat, k: nat, j: nat)
    ensures TestBit(OrBit(v, k), j) <==> j == k || TestBit(v, j)
    decreases k
  {
    if k == 0 {
      assert (v / 2 * 2 + 1) / 2 == v / 2;
    } else if j > 0 {
      assert OrBit(v, k) / 2 == OrBit(v / 2, k - 1);
      OrBitSets(v / 2, k - 1, j - 1);
    }
  }

  lemma {:induction false} OrBitBound(v: nat, k: nat, n: nat)
    requires v < Pow2(n) && k < n
    ensures OrBit(v, k) < Pow2(n)
    decreases n
  {
    if k > 0 { OrBitBound(v / 2, k - 1, n - 1); }
  }

  lemma {:induction false} ZeroHasNoBits(k: nat)
    ensures !TestBit(0, k)
  {
    if k > 0 { ZeroHasNoBits(k - 1); }
  }

  lemma {:induction false} AllOnes(n: nat, k: nat)
    requires k < n
    ensures TestBit(Pow2(n) - 1, k)
  {
    if k > 0 {
      assert (Pow2(n) - 1) / 2 == Pow2(n - 1) - 1;
      AllOnes(n - 1, k - 1);
    }
  }

  /** `1 << j` has bit `j` and no other. */
  lemma {:induction false} OneBit(j: nat, k: nat)
    ensures TestBit(Pow2(j), k) <==> k == j
    decreases k
  {
    if k == 0 || j == 0 {
      if k > 0 { ZeroHasNoBits(k - 1); }
    } else {
      OneBit(j - 1, k - 1);
    }
  }

  /** A number is its bits. */
  lemma {:induction false} SameBits(v: nat, w: nat, n: nat)
    requires v < Pow2(n) && w < Pow2(n) && forall k: nat | k < n :: TestBit(v, k) <==> TestBit(w, k)
    ensures v == w
  {
    if n > 0 {
      assert TestBit(v, 0) <==> TestBit(w, 0);
      forall k: nat | k < n - 1 ensures TestBit(v / 2, k) <==> TestBit(w / 2, k) {
        assert TestBit(v, k + 1) <==> TestBit(w, k + 1);
      }
      SameBits(v / 2, w / 2, n - 1);
      SameHalves(v, w);
    }
  }

  // ---------------------------------------------------------------- exclusive or

  /** `a ^ b` on `n`-bit numbers, bit by bit. */
  function XorBits(a: nat, b: nat, n: nat): (x: nat)
    ensures x < Pow2(n)
  {
    if n == 0 then 0 else (a % 2 + b % 2) % 2 + 2 * XorBits(a / 2, b / 2, n - 1)
  }

  function Xor(a: Byte, b: Byte): Byte {
    assert Pow2(8) == 0x100;
    XorBits(a, b, 8)
  }

  lemma XorBitsStep(a: nat, b: nat, n: nat)
    requires n > 0
    ensures XorBits(a, b, n) % 2 == (a % 2 + b % 2) % 2
    ensures XorBits(a, b, n) / 2 == XorBits(a / 2, b / 2, n - 1)
  {
  }

  lemma {:induction false} XorBitsAt(a: nat, b: nat, n: nat, k: nat)
    requires k < n
    ensures TestBit(XorBits(a, b, n), k) <==> (TestBit(a, k) != TestBit(b, k))
  {
    XorBitsStep(a, b, n);
    if k > 0 { XorBitsAt(a / 2, b / 2, n - 1, k - 1); }
  }

  /** Each bit of `a ^ b` is set exactly if it is set in one of the two. */
  lemma XorBitByBit(a: Byte, b: Byte, k: nat)
    requires k < 8
    ensures TestBit(Xor(a, b), k) <==> (TestBit(a, k) != TestBit(b, k))
  {
    XorBitsAt(a, b, 8, k);
  }

  lemma ParityCancels(p: nat, q: nat, x: nat)
    requires x % 2 == (q % 2 + p % 2) % 2
    ensures (p % 2 + x % 2) % 2 == q % 2
  {
  }

  lemma {:induction false} XorBitsCancel(a: nat, b: nat, n: nat)
    requires b < Pow2(n)
    ensures XorBits(a, XorBits(b, a, n), n) == b
  {
    if n > 0 {
      var x := XorBits(b, a, n);
      XorBitsStep(b, a, n);
      XorBitsStep(a, x, n);
      ParityCancels(a, b, x);
      XorBitsCancel(a / 2, b / 2, n - 1);
      SameHalves(XorBits(a, x, n), b);
    }
  }

  lemma SameHalves(z: nat, b: nat)
    requires z / 2 == b / 2 && z % 2 == b % 2
    ensures z == b
  {
  }

  lemma {:induction false} XorBitsZero(a: nat, b: nat, n: nat)
    requires a < Pow2(n) && b < Pow2(n)
    ensures XorBits(a, b, n) == 0 <==> a == b
  {
    if n > 0 { XorBitsZero(a / 2, b / 2, n - 1); }
  }

  /** Re-applying an XOR difference restores the byte, and the difference is zero exactly when
      nothing changed. */
  lemma XorRestores(prev: Byte, cur: Byte)
    ensures Xor(prev, Xor(cur, prev)) == cur
    ensures Xor(cur, prev) == 0 <==> cur == prev
  {
    assert Pow2(8) == 0x100;
    XorBitsCancel(prev, cur, 8);
    XorBitsZero(cur, prev, 8);
  }

  // ---------------------------------------------------------------- byte strings

  function Zeroes(n: nat): seq<Byte> {
    seq(n, _ => 0)
  }

  lemma SameHead<T>(s: seq<T>, x: seq<T>, t: seq<T>, y: seq<T>)
    requires |s| == |t| && s + x == t + y
    ensures s == t && x == y
  {
    assert (s + x)[..|s|] == s && (t + y)[..|t|] == t;
    assert (s + x)[|s|..] == x && (t + y)[|t|..] == y;
  }

  // ---------------------------------------------------------------- little-endian loads

  /** The unsigned integer that a little-endian machine loads from the bytes `s`. */
  function Load(s: seq<Byte>): (v: nat)
    ensures v < Pow2(8 * |s|)
  {
    if s == [] then 0 else
      assert Pow2(8 * |s|) == 0x100 * Pow2(8 * |s[1..]|) by { Pow2Plus8(8 * |s[1..]|); }
      s[0] + 0x100 * Load(s[1..])
  }

  lemma Pow2Plus8(n: nat)
    ensures Pow2(n + 8) == 0x100 * Pow2(n)
  {
    assert Pow2(n + 8) == 4 * Pow2(n + 6);
    assert Pow2(n + 6) == 4 * Pow2(n + 4);
    assert Pow2(n + 4) == 4 * Pow2(n + 2);
  }

  /** `static_cast<uint32_t>(n)` and so on: the `k` low bytes of `n`. */
  function Store(n: nat, k: nat): (s: seq<Byte>)
    ensures |s| == k
  {
    if k == 0 then [] else [n % 0x100] + Store(n / 0x100, k - 1)
  }

  lemma {:induction false} LoadStore(n: nat, k: nat)
    requires n < Pow2(8 * k)
    ensures Load(Store(n, k)) == n
  {
    if k > 0 {
      Pow2Plus8(8 * (k - 1));
      assert Store(n, k)[1..] == Store(n / 0x100, k - 1);
      LoadStore(n / 0x100, k - 1);
    }
  }

  lemma {:induction false} StoreLoad(s: seq<Byte>)
    ensures Store(Load(s), |s|) == s
  {
    if s != [] {
      StoreLoad(s[1..]);
      assert Load(s) / 0x100 == Load(s[1..]) && Load(s) % 0x100 == s[0];
      assert s == [s[0]] + s[1..];
    }
  }

  lemma {:induction false} TestBitAbove(a: nat, r: nat, n: nat, k: nat)
    requires a < Pow2(n)
    ensures TestBit(a + Pow2(n) * r, k) <==> if k < n then TestBit(a, k) else TestBit(r, k - n)
    decreases n
  {
    if n > 0 {
      assert Pow2(n) * r == 2 * (Pow2(n - 1) * r);
      assert (a + Pow2(n) * r) / 2 == a / 2 + Pow2(n - 1) * r;
      if k > 0 { TestBitAbove(a / 2, r, n - 1, k - 1); }
    }
  }

  /** The columnar readers load 8 mask bytes as a `uint64_t` and test bit `k` of it; the row-major
      ones test bit `k % 8` of byte `k / 8`. They are the same bit. */
  lemma {:induction false} LoadedBit(s: seq<Byte>, k: nat)
    requires k < 8 * |s|
    ensures TestBit(Load(s), k) <==> TestBit(s[k / 8], k % 8)
  {
    assert Pow2(8) == 0x100;
    TestBitAbove(s[0], Load(s[1..]), 8, k);
    if k >= 8 { LoadedBit(s[1..], k - 8); }
  }

  // ---------------------------------------------------------------- uint32_t fields

  const U32: nat := 0x1_0000_0000

  /** A `long` has 32 bits in the x86 build: from this position on `ftell` answers -1. */
  const LONG_LIMIT: nat := 0x8000_0000

  function Get32(s: seq<Byte>): (n: nat)
    requires |s| == 4
    ensures n < U32
  {
    Pow2Of32();
    Load(s)
  }

  /** The bytes of `static_cast<uint32_t>(n)`. */
  function Put32(n: nat): (s: seq<Byte>)
    ensures |s| == 4
  {
    Store(n % U32, 4)
  }

  lemma Pow2Of32()
    ensures Pow2(32) == U32
  {
    Pow2Plus8(24); Pow2Plus8(16); Pow2Plus8(8); Pow2Plus8(0);
  }

  lemma Pow2Of64()
    ensures Pow2(64) == 0x1_0000_0000_0000_0000
  {
    Pow2Of32();
    Pow2Plus8(56); Pow2Plus8(48); Pow2Plus8(40); Pow2Plus8(32);
  }

  /** Storing truncates modulo 2^32, and reading gives back exactly the truncated value. */
  lemma Get32Put32(n: nat)
    ensures Get32(Put32(n)) == n % U32
  {
    Pow2Of32();
    LoadStore(n % U32, 4);
  }
}
