/** Machine words, wrapping arithmetic and the mask that maps a sequence number to a slot. */
module Words {
  const U32_SIZE: nat := 0x1_0000_0000
  const U64_SIZE: nat := 0x1_0000_0000_0000_0000
  const U64_MAX: nat := U64_SIZE - 1

  type u8 = x: int | 0 <= x < 0x100
  type u32 = x: int | 0 <= x < 0x1_0000_0000
  type u64 = x: int | 0 <= x < 0x1_0000_0000_0000_0000

  function WrappingSub(a: u64, b: u64): u64 {
    if a >= b then a - b else a + U64_SIZE - b
  }

  function Pow2(n: nat): (p: nat)
    ensures p > 0
  {
    if n == 0 then 1 else 2 * Pow2(n - 1)
  }

  /** Bitwise conjunction of two naturals, bit by bit. */
  function BitAnd(a: nat, b: nat): (r: nat)
    ensures r <= b
  {
    if a == 0 || b == 0 then 0
    else (if a % 2 == 1 && b % 2 == 1 then 1 else 0) + 2 * BitAnd(a / 2, b / 2)
  }

  /** The slot of sequence number `n` in a ring of `Pow2(bits)` slots: `n & RING_MASK`. */
  function Index(n: nat, bits: nat): (i: nat)
    ensures i < Pow2(bits)
  {
    BitAnd(n, Pow2(bits) - 1)
  }

  lemma MulBounds(e: int, d: int)
    requires d > 0
    ensures e >= 1 ==> e * d >= d
    ensures e <= -1 ==> e * d <= -d
  {
  }

  /** Quotient and remainder by a positive divisor are determined by their defining equation. */
  lemma QuotientUnique(q: nat, r: nat, q': nat, r': nat, d: nat)
    requires r < d && r' < d && q * d + r == q' * d + r'
    ensures q == q' && r == r'
  {
    assert (q - q') * d == r' - r;
    MulBounds(q - q', d);
  }

  lemma Divide(n: nat, d: nat) returns (q: nat, r: nat)
    requires d > 0
    ensures n == q * d + r && r < d && r == n % d
  {
    q, r := n / d, n % d;
  }

  lemma Remainder(n: nat, d: nat, q: nat, r: nat)
    requires r < d && n == q * d + r
    ensures n % d == r
  {
    var q', r' := Divide(n, d);
    QuotientUnique(q, r, q', r', d);
  }

  lemma Halve(n: nat) returns (h: nat, b: nat)
    ensures n == 2 * h + b && b < 2 && h == n / 2 && b == n % 2
  {
    h, b := n / 2, n % 2;
  }

  lemma Regroup(q: nat, p: nat, r: nat, b: nat)
    ensures 2 * (q * p + r) + b == q * (2 * p) + (2 * r + b)
  {
  }

  lemma RemainderStep(n: nat, p: nat)
    requires p > 0
    ensures n % (2 * p) == n % 2 + 2 * ((n / 2) % p)
  {
    var h, b := Halve(n);
    var q, r := Divide(h, p);
    Regroup(q, p, r, b);
    Remainder(n, 2 * p, q, 2 * r + b);
  }

  /** One step of the mask: the low bit of `n`, then the mask of one bit less. */
  lemma IndexStep(n: nat, bits: nat)
    requires bits > 0
    ensures Index(n, bits) == n % 2 + 2 * Index(n / 2, bits - 1)
  {
    var p := Pow2(bits - 1);
    assert (2 * p - 1) / 2 == p - 1 && (2 * p - 1) % 2 == 1;
    if n == 0 {
      assert BitAnd(0, p - 1) == 0;
    }
  }

  /** Masking with `2^bits - 1` is reduction modulo `2^bits`. */
  lemma {:induction false} MaskIsModulo(n: nat, bits: nat)
    ensures Index(n, bits) == n % Pow2(bits)
  {
    if bits == 0 {
      Remainder(n, 1, n, 0);
    } else {
      IndexStep(n, bits);
      MaskIsModulo(n / 2, bits - 1);
      var p := Pow2(bits - 1);
      RemainderStep(n, p);
    }
  }

  lemma OneLapApart(q: int, r: int, q': int, r': int, d: nat)
    requires d > 0
    requires 0 < (q' * d + r') - (q * d + r) < d
    ensures r != r'
  {
    assert q' * d - q * d == (q' - q) * d;
    MulBounds(q' - q, d);
  }

  /** Sequence numbers less than one lap apart use different slots. */
  lemma IndexApart(a: nat, b: nat, bits: nat)
    requires a < b < a + Pow2(bits)
    ensures Index(a, bits) != Index(b, bits)
  {
    var d := Pow2(bits);
    MaskIsModulo(a, bits);
    MaskIsModulo(b, bits);
    var q, r := Divide(a, d);
    var q', r' := Divide(b, d);
    OneLapApart(q, r, q', r', d);
  }

  lemma RemainderOfSum(n: nat, d: nat)
    requires d > 0
    ensures (n + d) % d == n % d
  {
    var q, r := Divide(n, d);
    assert (q + 1) * d == q * d + d by { NextMultiple(q, d); }
    Remainder(n + d, d, q + 1, r);
  }

  lemma NextMultiple(q: nat, d: nat)
    ensures (q + 1) * d == q * d + d
  {
  }

  /** One lap later the same slot comes up again. */
  lemma IndexLap(a: nat, bits: nat)
    ensures Index(a + Pow2(bits), bits) == Index(a, bits)
  {
    MaskIsModulo(a, bits);
    MaskIsModulo(a + Pow2(bits), bits);
    RemainderOfSum(a, Pow2(bits));
  }

  /** On the first lap, message `a` uses slot `a`. */
  lemma IndexFirstLap(a: nat, bits: nat)
    requires a < Pow2(bits)
    ensures Index(a, bits) == a
  {
    MaskIsModulo(a, bits);
    Remainder(a, Pow2(bits), 0, a);
  }

  /** Any `Pow2(bits)` consecutive sequence numbers occupy distinct slots. */
  lemma WindowDistinct(lo: nat, hi: nat, bits: nat)
    requires hi - lo <= Pow2(bits)
    ensures forall a, b :: lo <= a < b < hi ==> Index(a, bits) != Index(b, bits)
  {
    forall a, b | lo <= a < b < hi
      ensures Index(a, bits) != Index(b, bits)
    {
      IndexApart(a, b, bits);
    }
  }

  /** Some later message sits in the slot that message `c` had, once the ring has gone round. */
  lemma {:induction false} LaterOccupant(c: nat, n: nat, bits: nat) returns (k: nat)
    requires c < n
    ensures c <= k < n <= k + Pow2(bits) && Index(k, bits) == Index(c, bits)
    ensures n > c + Pow2(bits) ==> k > c
    decreases n - c
  {
    if n <= c + Pow2(bits) {
      k := c;
    } else {
      IndexLap(c, bits);
      k := LaterOccupant(c + Pow2(bits), n, bits);
    }
  }

  lemma {:induction false} Pow2Product(a: nat, b: nat)
    ensures Pow2(a + b) == Pow2(a) * Pow2(b)
  {
    if a > 0 {
      Pow2Product(a - 1, b);
      assert Pow2(a + b) == 2 * Pow2(a - 1 + b);
      Twice(Pow2(a - 1), Pow2(b));
    }
  }

  lemma Twice(p: nat, q: nat)
    ensures 2 * (p * q) == (2 * p) * q
  {
  }

  lemma Pow2Of64()
    ensures Pow2(64) == U64_SIZE
  {
    assert Pow2(8) == 256;
    Pow2Product(8, 8);
    Pow2Product(16, 16);
    Pow2Product(32, 32);
  }

  lemma OneBelow(q: nat, d: nat)
    requires q > 0 && d > 0
    ensures q * d - 1 == (q - 1) * d + (d - 1)
  {
  }

  /** The largest word maps to the last slot of every ring that a word can index. */
  lemma IndexOfMax(bits: nat)
    requires bits <= 64
    ensures Index(U64_MAX, bits) == Pow2(bits) - 1
  {
    var d, q := Pow2(bits), Pow2(64 - bits);
    Pow2Product(64 - bits, bits);
    Pow2Of64();
    OneBelow(q, d);
    MaskIsModulo(U64_MAX, bits);
    Remainder(U64_MAX, d, q - 1, d - 1);
  }
}
