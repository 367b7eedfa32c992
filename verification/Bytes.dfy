/** Bytes and big-endian integers, as the wire and file formats use them. */
module ByteStrings {
  import opened Common

  type Byte = x: int | 0 <= x < 256
  type Bytes = seq<Byte>

  function Pow256(w: nat): (p: nat)
    ensures p >= 1
  {
    if w == 0 then 1 else 256 * Pow256(w - 1)
  }

  /** The low `w` bytes of `x`, most significant first. */
  function Be(x: nat, w: nat): (b: Bytes)
    ensures |b| == w
  {
    if w == 0 then [] else Be(x / 256, w - 1) + [x % 256]
  }

  function FromBe(b: Bytes): (x: nat)
    ensures x < Pow256(|b|)
  {
    if b == [] then 0 else FromBe(b[..|b| - 1]) * 256 + b[|b| - 1]
  }

  lemma {:induction false} BeRoundTrip(x: nat, w: nat)
    requires x < Pow256(w)
    ensures FromBe(Be(x, w)) == x
  {
    if w > 0 {
      BeRoundTrip(x / 256, w - 1);
      assert Be(x, w)[..w - 1] == Be(x / 256, w - 1);
    }
  }

  lemma BeInjective(x: nat, y: nat, w: nat)
    requires x < Pow256(w) && y < Pow256(w) && Be(x, w) == Be(y, w)
    ensures x == y
  {
    BeRoundTrip(x, w);
    BeRoundTrip(y, w);
  }

  /** Most significant byte first: the value of two and of four bytes, and of any bytes
      followed by one more. */
  lemma FromBeMeans(a: Byte, b: Byte, c: Byte, d: Byte, more: Bytes)
    ensures FromBe([a, b]) == 0x100 * a + b
    ensures FromBe([a, b, c, d]) == 0x100_0000 * a + 0x1_0000 * b + 0x100 * c + d
    ensures FromBe(more + [d]) == 0x100 * FromBe(more) + d
  {
    assert (more + [d])[..|more|] == more;
    assert [a, b, c, d][..3] == [a, b, c] && [a, b, c][..2] == [a, b] && [a, b][..1] == [a] && [a][..0] == [];
  }

  const TWO16 := 0x1_0000
  const TWO32 := 0x1_0000_0000
  const TWO64 := 0x1_0000_0000_0000_0000

  lemma Widths()
    ensures Pow256(2) == TWO16 && Pow256(4) == TWO32 && Pow256(8) == TWO64
  {
    assert Pow256(1) == 256 && Pow256(2) == TWO16;
    assert Pow256(3) == 256 * TWO16 && Pow256(4) == TWO32;
    assert Pow256(5) == 256 * TWO32 && Pow256(6) == TWO16 * TWO32;
    assert Pow256(7) == 256 * TWO16 * TWO32;
  }

  /** `read_exact` of `n` bytes at `pos`. */
  function ReadAt(f: Bytes, pos: nat, n: nat): (r: Option<Bytes>)
    ensures r.Some? <==> pos + n <= |f|
    ensures r.Some? ==> |r.value| == n && r.value == f[pos..pos + n]
  {
    if pos + n <= |f| then Some(f[pos..pos + n]) else None
  }

  lemma ReadPart(a: Bytes, b: Bytes, c: Bytes)
    ensures ReadAt(a + b + c, |a|, |b|) == Some(b)
  {
    assert (a + b + c)[|a|..|a| + |b|] == b;
  }
}
