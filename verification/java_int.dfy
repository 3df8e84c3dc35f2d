/** Java `int` arithmetic on unbounded integers: 32-bit wrap-around, left
    shift, arithmetic right shift, masking and bitwise or. */
module JavaInt {
  import opened Text

  const TWO_32: int := 0x1_0000_0000
  const TWO_31: int := 0x8000_0000

  function Pow2(n: nat): (r: int)
    ensures r >= 1
  {
    if n == 0 then 1 else 2 * Pow2(n - 1)
  }

  lemma {:induction false} Pow2Split(n: nat, k: nat)
    requires k <= n
    ensures Pow2(n) == Pow2(k) * Pow2(n - k)
    decreases k
  {
    if k > 0 {
      Pow2Split(n - 1, k - 1);
    }
  }

  lemma Pow2Facts()
    ensures Pow2(8) == 256 && Pow2(16) == 65536 && Pow2(32) == TWO_32
  {
    assert Pow2(8) == 256;
    Pow2Split(16, 8);
    Pow2Split(32, 16);
  }

  /** Adding 2^32 does not change the wrapped value. */
  lemma Wrap32Shift(v: int)
    ensures Wrap32(v + TWO_32) == Wrap32(v)
  {
  }

  /** Reduction of an integer to the Java `int` with the same low 32 bits. */
  function Wrap32(v: int): (r: int)
    ensures IsJavaInt(r)
    ensures (r - v) % TWO_32 == 0
    ensures IsJavaInt(v) ==> r == v
  {
    (v + TWO_31) % TWO_32 - TWO_31
  }

  /** `x << n` on a Java int. */
  function Shl(x: int, n: nat): (r: int)
    requires n < 32
    ensures IsJavaInt(r)
  {
    Wrap32(x * Pow2(n))
  }

  /** `x >> n` on a Java int: the floor of the quotient. */
  function Shr(x: int, n: nat): int {
    x / Pow2(n)
  }

  /** `x & (2^n - 1)`: the low `n` bits of the two's-complement pattern. */
  function LowBits(x: int, n: nat): (r: int)
    ensures 0 <= r < Pow2(n)
  {
    x % Pow2(n)
  }

  /** Bitwise or of two's-complement integers, bit by bit from the bottom. */
  function Or(x: int, y: int): int
    decreases (if x < 0 then -x else x) + (if y < 0 then -y else y)
  {
    if x == 0 then y
    else if y == 0 then x
    else if x == -1 || y == -1 then -1
    else 2 * Or(x / 2, y / 2) + (if x % 2 == 1 || y % 2 == 1 then 1 else 0)
  }

  /** When `x` has its low `k` bits clear and `y` fits in them, or is addition. */
  lemma {:induction false} OrDisjoint(x: int, y: int, k: nat)
    requires x % Pow2(k) == 0
    requires 0 <= y < Pow2(k)
    ensures Or(x, y) == x + y
    decreases k
  {
    if k == 0 {
      assert y == 0;
    } else if x != 0 && y != 0 {
      assert x % 2 == 0 by {
        assert Pow2(k) == 2 * Pow2(k - 1);
        DivisibleByFactor(x, 2, Pow2(k - 1));
      }
      assert (x / 2) % Pow2(k - 1) == 0 by {
        HalfDivisible(x, k);
      }
      assert y / 2 < Pow2(k - 1);
      OrDisjoint(x / 2, y / 2, k - 1);
    }
  }

  lemma MulModZero(p: int, q: int)
    requires p > 0
    ensures (p * q) % p == 0 && (p * q) / p == q
  {
    var r := (p * q) % p;
    var d := (p * q) / p;
    assert p * (q - d) == r;
    MulBound(p, q - d);
  }

  lemma MulBound(p: int, e: int)
    requires p > 0
    ensures e >= 1 ==> p * e >= p
    ensures e <= -1 ==> p * e <= -p
  {
  }

  lemma DivisibleByFactor(x: int, a: int, b: int)
    requires a > 0 && b > 0 && x % (a * b) == 0
    ensures x % a == 0
  {
    var q := x / (a * b);
    assert x == a * (b * q);
    MulModZero(a, b * q);
  }

  lemma HalfDivisible(x: int, k: nat)
    requires k >= 1 && x % Pow2(k) == 0
    ensures (x / 2) % Pow2(k - 1) == 0
  {
    var p := Pow2(k - 1);
    var q := x / Pow2(k);
    assert x == 2 * (p * q);
    MulModZero(2, p * q);
    MulModZero(p, q);
  }
}
