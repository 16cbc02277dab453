/** Little-endian byte order. */
module LittleEndian {
  import opened Words

  function Pow256(w: nat): (p: nat)
    ensures p > 0
  {
    if w == 0 then 1 else 256 * Pow256(w - 1)
  }

  lemma Widths()
    ensures Pow256(4) == U32_SIZE && Pow256(8) == U64_SIZE
  {
    assert Pow256(2) == 0x1_0000;
    assert Pow256(4) == 0x1_0000 * Pow256(2);
    assert Pow256(6) == 0x1_0000 * Pow256(4);
  }

  /** The `w` low bytes of `n`, least significant first. */
  function ToLE(n: nat, w: nat): (s: seq<u8>)
    ensures |s| == w
  {
    if w == 0 then [] else [n % 256] + ToLE(n / 256, w - 1)
  }

  function FromLE(s: seq<u8>): (n: nat)
    ensures n < Pow256(|s|)
  {
    if s == [] then 0 else s[0] + 256 * FromLE(s[1..])
  }

  lemma {:induction false} FromToLE(n: nat, w: nat)
    requires n < Pow256(w)
    ensures FromLE(ToLE(n, w)) == n
  {
    if w > 0 {
      FromToLE(n / 256, w - 1);
      assert ToLE(n, w)[1..] == ToLE(n / 256, w - 1);
    }
  }

  lemma {:induction false} ToFromLE(s: seq<u8>)
    ensures ToLE(FromLE(s), |s|) == s
  {
    if s != [] {
      ToFromLE(s[1..]);
      assert FromLE(s) % 256 == s[0] && FromLE(s) / 256 == FromLE(s[1..]);
      assert [s[0]] + s[1..] == s;
    }
  }

  function FromLE32(s: seq<u8>): u32
    requires |s| == 4
  {
    Widths(); FromLE(s)
  }

  function FromLE64(s: seq<u8>): u64
    requires |s| == 8
  {
    Widths(); FromLE(s)
  }

  /** Byte `i` has weight `256^i`: the first byte is the least significant one. */
  lemma {:induction false} FromLEWeights(s: seq<u8>, i: nat)
    requires i <= |s|
    ensures FromLE(s) == FromLE(s[..i]) + Pow256(i) * FromLE(s[i..])
  {
    if i == 0 {
      assert s[0..] == s;
    } else {
      FromLEWeights(s[1..], i - 1);
      assert s[..i][1..] == s[1..][..i - 1] && s[i..] == s[1..][i - 1..];
      Reweigh(FromLE(s[1..][..i - 1]), Pow256(i - 1), FromLE(s[i..]));
    }
  }

  lemma Reweigh(a: nat, p: nat, b: nat)
    ensures 256 * (a + p * b) == 256 * a + (256 * p) * b
  {
  }

  /** Four bytes, the first of them the least significant. */
  function Weigh(a: int, b: int, c: int, d: int): int {
    a + 0x100 * b + 0x1_0000 * c + 0x100_0000 * d
  }

  lemma Value32(s: seq<u8>)
    requires |s| == 4
    ensures FromLE32(s) == Weigh(s[0], s[1], s[2], s[3])
  {
    assert FromLE(s[1..]) == s[1] + 256 * FromLE(s[1..][1..]);
    assert FromLE(s[2..]) == s[2] + 256 * FromLE(s[2..][1..]);
    assert FromLE(s[3..]) == s[3] + 256 * FromLE(s[3..][1..]);
    assert s[1..][1..] == s[2..] && s[2..][1..] == s[3..] && s[3..][1..] == [];
  }

  lemma Value64(s: seq<u8>)
    requires |s| == 8
    ensures FromLE64(s) == FromLE32(s[..4]) + 0x1_0000_0000 * FromLE32(s[4..])
  {
    Widths();
    FromLEWeights(s, 4);
  }
}
