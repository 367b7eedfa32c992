/** The `SLSNAP1` container header: codec, what binds it to the chunks, and where
    the chunks are. */
module SnapHeader {
  import opened Common
  import opened ByteStrings

  /** "SLSNAP1" and a zero byte. */
  const MAGIC: Bytes := [83, 76, 83, 78, 65, 80, 49, 0]
  const VERSION := 1
  const ALGO_AES256GCM := 1
  const TAG_LEN := 16
  const CHUNK_SIZE := 4 * 1024 * 1024

  datatype Header = Header(chunkSize: nat, plainLen: nat, kekId: Bytes, wrappedDek: Bytes, headerLen: nat)

  /** Field widths of the source: `u32` and `u64`. */
  predicate InRange(h: Header) {
    0 < h.chunkSize < TWO32 && h.plainLen < TWO64
  }

  // ----- codec -----

  function Prefixed(b: Bytes): Bytes {
    Be(|b| % TWO16, 2) + b
  }

  function Fixed(h: Header): (b: Bytes)
    ensures |b| == 24
  {
    MAGIC + Be(VERSION, 2) + Be(ALGO_AES256GCM, 2) + Be(h.chunkSize, 4) + Be(h.plainLen, 8)
  }

  function Encode(h: Header): Bytes {
    Fixed(h) + Prefixed(h.kekId) + Prefixed(h.wrappedDek)
  }

  /** `read_len_prefixed` at `pos`: the bytes and the position behind them. */
  function ReadPrefixed(f: Bytes, pos: nat): (r: Option<(Bytes, nat)>)
    ensures r.Some? ==> |r.value.0| < TWO16 && r.value.1 == pos + 2 + |r.value.0| <= |f|
  {
    match ReadAt(f, pos, 2)
    case None => None
    case Some(l) =>
      Widths();
      match ReadAt(f, pos + 2, FromBe(l))
      case None => None
      case Some(b) => Some((b, pos + 2 + |b|))
  }

  function ReadFixed(f: Bytes): (r: Result<(nat, nat)>) {
    if |f| < 24 then Err("short header")
    else if f[..8] != MAGIC then Err("magic")
    else if FromBe(f[8..10]) != VERSION then Err("version")
    else if FromBe(f[10..12]) != ALGO_AES256GCM then Err("algorithm")
    else if FromBe(f[12..16]) == 0 then Err("chunk size")
    else Ok((FromBe(f[12..16]), FromBe(f[16..24])))
  }

  /** `read_from`; `utf8` says which byte strings are valid text. */
  function ReadFrom(f: Bytes, utf8: Bytes -> bool): (r: Result<Header>) {
    match ReadFixed(f)
    case Err(e) => Err(e)
    case Ok(n) =>
      match ReadPrefixed(f, 24)
      case None => Err("kek_id")
      case Some(kek) =>
        if !utf8(kek.0) then Err("kek_id text")
        else
          match ReadPrefixed(f, kek.1)
          case None => Err("wrapped_dek")
          case Some(dek) => Ok(Header(n.0, n.1, kek.0, dek.0, dek.1))
  }

  lemma FixedRoundTrip(h: Header, rest: Bytes)
    requires InRange(h)
    ensures ReadFixed(Fixed(h) + rest) == Ok((h.chunkSize, h.plainLen))
  {
    var f := Fixed(h) + rest;
    Widths();
    assert f[..8] == MAGIC;
    assert f[8..10] == Be(VERSION, 2) && f[10..12] == Be(ALGO_AES256GCM, 2);
    assert f[12..16] == Be(h.chunkSize, 4) && f[16..24] == Be(h.plainLen, 8);
    BeRoundTrip(VERSION, 2);
    BeRoundTrip(ALGO_AES256GCM, 2);
    BeRoundTrip(h.chunkSize, 4);
    BeRoundTrip(h.plainLen, 8);
  }

  lemma PrefixedParts(a: Bytes, l: Bytes, b: Bytes, rest: Bytes)
    ensures ReadAt(a + (l + b) + rest, |a|, |l|) == Some(l)
    ensures ReadAt(a + (l + b) + rest, |a| + |l|, |b|) == Some(b)
  {
    ReadPart(a, l, b + rest);
    ReadPart(a + l, b, rest);
    assert a + (l + b) + rest == a + l + (b + rest) && a + (l + b) + rest == (a + l) + b + rest;
  }

  lemma PrefixedRoundTrip(a: Bytes, b: Bytes, rest: Bytes)
    requires |b| < TWO16
    ensures ReadPrefixed(a + Prefixed(b) + rest, |a|) == Some((b, |a| + 2 + |b|))
  {
    Widths();
    BeRoundTrip(|b|, 2);
    PrefixedParts(a, Be(|b| % TWO16, 2), b, rest);
  }

  lemma HeaderRoundTrip(h: Header, rest: Bytes, utf8: Bytes -> bool)
    requires InRange(h) && utf8(h.kekId) && |h.kekId| < TWO16 && |h.wrappedDek| < TWO16
    ensures ReadFrom(Encode(h) + rest, utf8) == Ok(h.(headerLen := |Encode(h)|))
  {
    var a, k, d := Fixed(h), Prefixed(h.kekId), Prefixed(h.wrappedDek);
    FixedRoundTrip(h, k + d + rest);
    PrefixedRoundTrip(a, h.kekId, d + rest);
    PrefixedRoundTrip(a + k, h.wrappedDek, rest);
    ThreeParts(a, k, d, rest);
    ReadsInParts(Encode(h) + rest, utf8, h, |a + k|);
  }

  lemma ThreeParts(a: Bytes, k: Bytes, d: Bytes, rest: Bytes)
    ensures a + k + d + rest == a + (k + d + rest) && a + k + d + rest == a + k + (d + rest)
  {
  }

  lemma ReadsInParts(f: Bytes, utf8: Bytes -> bool, h: Header, mid: nat)
    requires ReadFixed(f) == Ok((h.chunkSize, h.plainLen)) && utf8(h.kekId)
    requires ReadPrefixed(f, 24) == Some((h.kekId, mid))
    requires ReadPrefixed(f, mid) == Some((h.wrappedDek, mid + 2 + |h.wrappedDek|))
    ensures ReadFrom(f, utf8) == Ok(h.(headerLen := mid + 2 + |h.wrappedDek|))
  {
  }

  /** MAIN: reading back an encoded header gives the same header exactly when both
      byte strings fit their 16-bit length — whatever follows in the file. */
  lemma HeaderRoundTripIff(h: Header, rest: Bytes, utf8: Bytes -> bool)
    requires InRange(h) && utf8(h.kekId)
    ensures ReadFrom(Encode(h) + rest, utf8) == Ok(h.(headerLen := |Encode(h)|)) <==> |h.kekId| < TWO16 && |h.wrappedDek| < TWO16
  {
    if |h.kekId| < TWO16 && |h.wrappedDek| < TWO16 {
      HeaderRoundTrip(h, rest, utf8);
    } else {
      ReadIsShort(Encode(h) + rest, utf8);
    }
  }

  lemma ReadIsShort(f: Bytes, utf8: Bytes -> bool)
    ensures ReadFrom(f, utf8).Ok? ==> |ReadFrom(f, utf8).value.kekId| < TWO16 && |ReadFrom(f, utf8).value.wrappedDek| < TWO16
  {
  }

  lemma ReadInRange(f: Bytes, utf8: Bytes -> bool)
    requires ReadFrom(f, utf8).Ok?
    ensures var h := ReadFrom(f, utf8).value; InRange(h) && h.headerLen <= |f| && utf8(h.kekId)
  {
    Widths();
  }

  // ----- the bytes bound into every chunk -----

  function Aad(h: Header, idx: nat): Bytes {
    MAGIC + Be(VERSION, 2) + Be(ALGO_AES256GCM, 2) + Be(h.chunkSize, 4) + Be(h.plainLen, 8) + h.kekId + Be(idx, 8)
  }

  function NonceFor(idx: nat): Bytes {
    [0, 0, 0, 0] + Be(idx, 8)
  }

  lemma NonceInjective(i: nat, j: nat)
    requires i < TWO64 && j < TWO64 && NonceFor(i) == NonceFor(j)
    ensures i == j
  {
    Widths();
    assert NonceFor(i)[4..] == Be(i, 8) && NonceFor(j)[4..] == Be(j, 8);
    BeInjective(i, j, 8);
  }

  /** The associated data fixes chunk size, length, key name and chunk number. */
  lemma AadInjective(g: Header, h: Header, i: nat, j: nat)
    requires InRange(g) && InRange(h) && i < TWO64 && j < TWO64 && Aad(g, i) == Aad(h, j)
    ensures g.chunkSize == h.chunkSize && g.plainLen == h.plainLen && g.kekId == h.kekId && i == j
  {
    Widths();
    var a, b := Aad(g, i), Aad(h, j);
    assert |a| == 24 + |g.kekId| + 8 && |b| == 24 + |h.kekId| + 8;
    assert a[12..16] == Be(g.chunkSize, 4) && b[12..16] == Be(h.chunkSize, 4);
    assert a[16..24] == Be(g.plainLen, 8) && b[16..24] == Be(h.plainLen, 8);
    assert a[24..|a| - 8] == g.kekId && b[24..|b| - 8] == h.kekId;
    assert a[|a| - 8..] == Be(i, 8) && b[|b| - 8..] == Be(j, 8);
    BeInjective(g.chunkSize, h.chunkSize, 4);
    BeInjective(g.plainLen, h.plainLen, 8);
    BeInjective(i, j, 8);
  }

  /** The layout, byte by byte: magic, version 1, algorithm 1, chunk size, length, then the
      two strings with their lengths. */
  lemma Layout(h: Header)
    requires InRange(h)
    ensures var b := Encode(h);
            && |b| == 28 + |h.kekId| + |h.wrappedDek|
            && b[..8] == [0x53, 0x4c, 0x53, 0x4e, 0x41, 0x50, 0x31, 0x00] && b[8..12] == [0, 1, 0, 1]
            && FromBe(b[12..16]) == h.chunkSize && FromBe(b[16..24]) == h.plainLen
            && FromBe(b[24..26]) == |h.kekId| % 0x1_0000 && b[26..26 + |h.kekId|] == h.kekId
            && FromBe(b[26 + |h.kekId|..28 + |h.kekId|]) == |h.wrappedDek| % 0x1_0000 && b[28 + |h.kekId|..] == h.wrappedDek
  {
    var b, k := Encode(h), |h.kekId|;
    Widths();
    BeRoundTrip(h.chunkSize, 4);
    BeRoundTrip(h.plainLen, 8);
    BeRoundTrip(k % TWO16, 2);
    BeRoundTrip(|h.wrappedDek| % TWO16, 2);
    Ones();
    assert b[8..12] == Be(1, 2) + Be(1, 2);
    assert b[12..16] == Be(h.chunkSize, 4) && b[16..24] == Be(h.plainLen, 8);
    assert b[24..26] == Be(k % TWO16, 2) && b[26..26 + k] == h.kekId;
    assert b[26 + k..28 + k] == Be(|h.wrappedDek| % TWO16, 2) && b[28 + k..] == h.wrappedDek;
  }

  lemma Ones()
    ensures Be(1, 2) == [0, 1]
  {
    assert Be(1, 2) == Be(0, 1) + [1] && Be(0, 1) == Be(0, 0) + [0];
  }

  /** What every chunk is bound to: the fixed header fields, the key name and the chunk's
      number; and its nonce is four zero bytes and that number. */
  lemma BoundBytes(h: Header, idx: nat)
    requires InRange(h) && idx < TWO64
    ensures var a := Aad(h, idx);
            && |a| == 32 + |h.kekId| && a[..24] == Encode(h)[..24] && a[24..24 + |h.kekId|] == h.kekId && FromBe(a[24 + |h.kekId|..]) == idx
    ensures |NonceFor(idx)| == 12 && NonceFor(idx)[..4] == [0, 0, 0, 0] && FromBe(NonceFor(idx)[4..]) == idx
  {
    var a := Aad(h, idx);
    Widths();
    BeRoundTrip(idx, 8);
    assert a[..24] == Fixed(h) && Encode(h)[..24] == Fixed(h);
    assert a[24 + |h.kekId|..] == Be(idx, 8) && NonceFor(idx)[4..] == Be(idx, 8);
  }

  // ----- where the chunks are -----

  /** First plaintext byte of a chunk. */
  function Start(h: Header, idx: nat): nat {
    idx * h.chunkSize
  }

  /** `div_ceil`, by counting whole and started chunks. */
  function DivCeil(a: nat, b: nat): (n: nat)
    requires b > 0
  {
    if a == 0 then 0 else 1 + DivCeil(if a < b then 0 else a - b, b)
  }

  lemma {:induction false} DivCeilBounds(a: nat, b: nat)
    requires b > 0
    ensures DivCeil(a, b) * b < a + b <= DivCeil(a, b) * b + b
  {
    if a >= b {
      DivCeilBounds(a - b, b);
      assert (DivCeil(a - b, b) + 1) * b == DivCeil(a - b, b) * b + b;
    } else if a > 0 {
      assert DivCeil(0, b) == 0 && DivCeil(a, b) == 1;
    }
  }

  lemma DivCeilIsQuotient(a: nat, b: nat)
    requires b > 0
    ensures DivCeil(a, b) == (a + b - 1) / b
  {
    DivCeilBounds(a, b);
    Quotient(a + b - 1, b, DivCeil(a, b));
  }

  lemma {:induction false} TimesLess(p: nat, q: nat, b: nat)
    ensures p < q ==> p * b + b <= q * b
  {
    if p < q {
      TimesLess(p, q - 1, b);
      assert q * b == (q - 1) * b + b;
    }
  }

  lemma Quotient(a: nat, b: nat, q: nat)
    requires b > 0 && q * b <= a < q * b + b
    ensures a / b == q
  {
    var p := a / b;
    assert p * b <= a < p * b + b;
    TimesLess(p, q, b);
    TimesLess(q, p, b);
  }

  function Chunks(h: Header): (n: nat)
    requires h.chunkSize > 0
  {
    DivCeil(h.plainLen, h.chunkSize)
  }

  function ChunkLen(h: Header, idx: nat): (n: nat)
    requires Start(h, idx) <= h.plainLen
    ensures TAG_LEN <= n <= h.chunkSize + TAG_LEN
  {
    Common.Min(h.plainLen - Start(h, idx), h.chunkSize) + TAG_LEN
  }

  /** `u64` arithmetic wraps. */
  function ChunkOffset(h: Header, idx: nat): nat {
    (h.headerLen + idx * (h.chunkSize + TAG_LEN)) % TWO64
  }

  lemma StartNext(h: Header, idx: nat)
    ensures Start(h, idx + 1) == Start(h, idx) + h.chunkSize
  {
  }

  lemma {:induction false} StartMonotone(h: Header, i: nat, j: nat)
    requires i <= j
    ensures Start(h, i) <= Start(h, j)
  {
    if i < j {
      StartMonotone(h, i, j - 1);
      StartNext(h, j - 1);
    }
  }

  /** The chunks are exactly those that start inside the plaintext. */
  lemma ChunkIff(h: Header, idx: nat)
    requires h.chunkSize > 0
    ensures idx < Chunks(h) <==> Start(h, idx) < h.plainLen
  {
    var c, n := h.chunkSize, Chunks(h);
    DivCeilBounds(h.plainLen, c);
    assert Start(h, n) == n * c;
    if idx < n {
      StartMonotone(h, idx, n - 1);
      StartNext(h, n - 1);
    } else {
      StartMonotone(h, n, idx);
    }
  }

  /** The plaintext bytes of a chunk. */
  function Slice(h: Header, plain: Bytes, idx: nat): Bytes
    requires |plain| == h.plainLen && Start(h, idx) <= |plain|
  {
    plain[Start(h, idx)..Common.Min(Start(h, idx) + h.chunkSize, |plain|)]
  }

  /** Where chunk `idx` ends up when each follows the one before. */
  function Tile(h: Header, idx: nat): nat {
    h.headerLen + Start(h, idx) + idx * TAG_LEN
  }

  lemma TileIsOffset(h: Header, idx: nat)
    requires Tile(h, idx) < TWO64
    ensures ChunkOffset(h, idx) == Tile(h, idx)
  {
    assert idx * (h.chunkSize + TAG_LEN) == Start(h, idx) + idx * TAG_LEN;
  }

  /** MAIN: the chunk intervals tile the file behind the header without gap or
      overlap: each begins where the one before ends, the first right behind the
      header, the last at `headerLen + plainLen + 16 * chunks`. */
  lemma ChunksTile(h: Header, idx: nat)
    requires h.chunkSize > 0 && idx < Chunks(h)
    requires h.headerLen + h.plainLen + Chunks(h) * TAG_LEN < TWO64
    ensures Start(h, idx) < h.plainLen
    ensures ChunkOffset(h, 0) == h.headerLen
    ensures ChunkOffset(h, idx) + ChunkLen(h, idx) ==
            if idx + 1 < Chunks(h) then ChunkOffset(h, idx + 1) else h.headerLen + h.plainLen + Chunks(h) * TAG_LEN
  {
    var n := Chunks(h);
    ChunkIff(h, idx);
    ChunkIff(h, idx + 1);
    StartNext(h, idx);
    assert (idx + 1) * TAG_LEN <= n * TAG_LEN;
    TileIsOffset(h, 0);
    TileIsOffset(h, idx);
    if idx + 1 < n { TileIsOffset(h, idx + 1); }
  }
}
