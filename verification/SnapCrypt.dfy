/** Sealing and opening snapshot files, chunk by chunk, under an ideal AEAD. */
module SnapCrypt {
  import opened Common
  import opened ByteStrings
  import opened SnapHeader

  /** One call of the cipher: under which nonce, bound to which data, what plaintext. */
  datatype Sealing = Sealing(nonce: Bytes, aad: Bytes, plain: Bytes)

  /** The cipher under one data key. */
  datatype Aead = Aead(seal: (Bytes, Bytes, Bytes) -> Bytes, open: (Bytes, Bytes, Bytes) -> Option<Bytes>)

  ghost predicate Tagged(k: Aead) {
    forall n, a, p :: |k.seal(n, a, p)| == |p| + TAG_LEN
  }

  /** Under this key exactly the logged sealings can be opened. */
  ghost predicate Ideal(k: Aead, log: set<Sealing>) {
    && Tagged(k)
    && (forall n, a, p :: Sealing(n, a, p) in log ==> k.open(n, a, k.seal(n, a, p)) == Some(p))
    && (forall n, a, c :: k.open(n, a, c).Some? ==>
          Sealing(n, a, k.open(n, a, c).value) in log && k.seal(n, a, k.open(n, a, c).value) == c)
  }

  function Padded(p: Bytes): (c: Bytes)
    ensures |c| == |p| + TAG_LEN
  {
    p + seq(TAG_LEN, _ => 0)
  }

  function Unpadded(c: Bytes): Bytes {
    if |c| < TAG_LEN then [] else c[..|c| - TAG_LEN]
  }

  lemma PadRoundTrip(p: Bytes)
    ensures Unpadded(Padded(p)) == p
  {
  }

  /** For every log there is such a cipher. */
  lemma IdealExists(log: set<Sealing>)
    ensures exists k :: Ideal(k, log)
  {
    var k := Aead((n, a, p) => Padded(p),
                  (n, a, c) => if Padded(Unpadded(c)) == c && Sealing(n, a, Unpadded(c)) in log then Some(Unpadded(c)) else None);
    forall p ensures Unpadded(Padded(p)) == p { PadRoundTrip(p); }
    assert Ideal(k, log);
  }

  predicate Fitting(h: Header, plain: Bytes) {
    InRange(h) && |plain| == h.plainLen
  }

  function SealingOf(h: Header, plain: Bytes, i: nat): Sealing
    requires Fitting(h, plain) && i < Chunks(h)
  {
    ChunkIff(h, i);
    Sealing(NonceFor(i), Aad(h, i), Slice(h, plain, i))
  }

  /** A fresh data key seals the chunks of one file and nothing else. */
  ghost function LogOf(h: Header, plain: Bytes): set<Sealing>
    requires Fitting(h, plain)
  {
    set i: nat | i < Chunks(h) :: SealingOf(h, plain, i)
  }

  function SealChunk(k: Aead, h: Header, plain: Bytes, i: nat): Bytes
    requires Fitting(h, plain) && i < Chunks(h)
  {
    var s := SealingOf(h, plain, i);
    k.seal(s.nonce, s.aad, s.plain)
  }

  /** The first `n` sealed chunks. */
  function Sealed(k: Aead, h: Header, plain: Bytes, n: nat): Bytes
    requires Fitting(h, plain) && n <= Chunks(h)
  {
    if n == 0 then [] else Sealed(k, h, plain, n - 1) + SealChunk(k, h, plain, n - 1)
  }

  /** `open_in_place` of chunk `i`, read at `pos`. */
  function OpenChunk(k: Aead, h: Header, f: Bytes, pos: nat, i: nat): (r: Option<Bytes>)
    requires h.chunkSize > 0 && i < Chunks(h)
  {
    ChunkIff(h, i);
    match ReadAt(f, pos, ChunkLen(h, i))
    case None => None
    case Some(c) => k.open(NonceFor(i), Aad(h, i), c)
  }

  /** The first `n` chunks opened one after the other. */
  function Opened(k: Aead, h: Header, f: Bytes, n: nat): (r: Option<Bytes>)
    requires h.chunkSize > 0 && n <= Chunks(h)
  {
    if n == 0 then Some([])
    else
      match Opened(k, h, f, n - 1)
      case None => None
      case Some(done) =>
        match OpenChunk(k, h, f, Tile(h, n - 1), n - 1)
        case None => None
        case Some(p) => Some(done + p)
  }

  // ----- the file operations -----

  /** The sealing loop. */
  method SealBody(plain: Bytes, k: Aead, h: Header) returns (body: Bytes)
    requires Fitting(h, plain) && h.chunkSize == CHUNK_SIZE
    ensures body == Sealed(k, h, plain, Chunks(h))
  {
    body := [];
    var idx, done := 0, 0;
    while done < |plain|
      invariant done == Common.Min(Start(h, idx), |plain|)
      invariant idx <= Chunks(h)
      invariant body == Sealed(k, h, plain, idx)
      decreases |plain| - done
    {
      ChunkIff(h, idx);
      StartNext(h, idx);
      var want := Common.Min(|plain| - done, CHUNK_SIZE);
      var chunk := k.seal(NonceFor(idx), Aad(h, idx), plain[done..done + want]);
      assert SealingOf(h, plain, idx).plain == plain[done..done + want];
      body := body + chunk;
      done := done + want;
      idx := idx + 1;
    }
    ChunkIff(h, idx);
  }

  method EncryptFile(plain: Bytes, k: Aead, kekId: Bytes, wrapped: Bytes) returns (h: Header, file: Bytes)
    requires |plain| < TWO64
    ensures h == Header(4194304, |plain|, kekId, wrapped, 0)
    ensures file == Encode(h) + Sealed(k, h, plain, Chunks(h))
  {
    h := Header(CHUNK_SIZE, |plain|, kekId, wrapped, 0);
    var body := SealBody(plain, k, h);
    file := Encode(h) + body;
  }

  /** How `decrypt_file` can end.  `NoContainer`: an error before the output file is
      made; `Refused`: an error after, with the output shredded; `Panicked`: a slice out
      of the fixed buffer's bounds, which skips the clean-up. */
  datatype Outcome = Done(plain: Bytes) | NoContainer | Refused | Panicked

  method DecryptFile(f: Bytes, utf8: Bytes -> bool, unwrap: Bytes -> Option<Aead>, dst: Option<Bytes>) returns (r: Outcome, dst': Option<Bytes>)
    ensures var h := ReadFrom(f, utf8);
            if h.Err? || unwrap(h.value.wrappedDek) == None then r == NoContainer && dst' == dst
            else if Common.Min(h.value.plainLen, h.value.chunkSize) > CHUNK_SIZE then r == Panicked && dst' == Some([])
            else
              InRange(h.value) &&
              match Opened(unwrap(h.value.wrappedDek).value, h.value, f, Chunks(h.value))
              case None => r == Refused && dst' == None
              case Some(p) => r == Done(p) && dst' == Some(p)
  {
    var head := ReadFrom(f, utf8);
    if head.Err? || unwrap(head.value.wrappedDek) == None {
      return NoContainer, dst;
    }
    var h, k := head.value, unwrap(head.value.wrappedDek).value;
    ReadInRange(f, utf8);
    var out: Bytes := [];
    var pos := h.headerLen;
    for idx := 0 to Chunks(h)
      invariant Opened(k, h, f, idx) == Some(out) && (idx < Chunks(h) ==> pos == Tile(h, idx))
      invariant idx > 0 ==> Common.Min(h.plainLen, h.chunkSize) <= CHUNK_SIZE
      invariant idx == 0 ==> out == []
    {
      ChunkIff(h, idx);
      ChunkIff(h, idx + 1);
      StartNext(h, idx);
      var n := ChunkLen(h, idx);
      if n > CHUNK_SIZE + TAG_LEN {
        return Panicked, Some(out);
      }
      var p := OpenChunk(k, h, f, pos, idx);
      if p == None {
        OpenedStops(k, h, f, idx, Chunks(h));
        return Refused, None;
      }
      pos := pos + n;
      out := out + p.value;
    }
    ChunkIff(h, 0);
    return Done(out), Some(out);
  }

  lemma {:induction false} OpenedStops(k: Aead, h: Header, f: Bytes, i: nat, n: nat)
    requires h.chunkSize > 0 && i < n <= Chunks(h) && OpenChunk(k, h, f, Tile(h, i), i) == None
    ensures Opened(k, h, f, n) == None
  {
    if i + 1 < n { OpenedStops(k, h, f, i, n - 1); }
  }

  /** `decrypt_chunk`: seek and open one chunk. */
  method DecryptChunk(f: Bytes, utf8: Bytes -> bool, unwrap: Bytes -> Option<Aead>, idx: nat) returns (r: Option<Bytes>)
    ensures var h := ReadFrom(f, utf8);
            if h.Err? then r == None
            else
              InRange(h.value) &&
              if idx >= Chunks(h.value) || unwrap(h.value.wrappedDek) == None then r == None
              else r == OpenChunk(unwrap(h.value.wrappedDek).value, h.value, f, ChunkOffset(h.value, idx), idx)
  {
    var head := ReadFrom(f, utf8);
    if head.Err? {
      return None;
    }
    var h := head.value;
    ReadInRange(f, utf8);
    if idx >= Chunks(h) || unwrap(h.wrappedDek) == None {
      return None;
    }
    r := OpenChunk(unwrap(h.wrappedDek).value, h, f, ChunkOffset(h, idx), idx);
  }

  // ----- integrity -----

  /** A chunk that opens, whatever file and header it came from, is the chunk of that
      number of the sealed file, and the header agrees with the sealed one. */
  lemma ChunkIsGenuine(k: Aead, h: Header, plain: Bytes, g: Header, f: Bytes, pos: nat, i: nat)
    requires Fitting(h, plain) && Ideal(k, LogOf(h, plain)) && InRange(g) && i < Chunks(g) <= TWO64
    requires OpenChunk(k, g, f, pos, i).Some?
    ensures g.chunkSize == h.chunkSize && g.plainLen == h.plainLen && g.kekId == h.kekId
    ensures i < Chunks(h) && OpenChunk(k, g, f, pos, i) == Some(SealingOf(h, plain, i).plain)
  {
    ChunkIff(g, i);
    var p := OpenChunk(k, g, f, pos, i).value;
    assert Sealing(NonceFor(i), Aad(g, i), p) in LogOf(h, plain);
    var j: nat :| j < Chunks(h) && SealingOf(h, plain, j) == Sealing(NonceFor(i), Aad(g, i), p);
    ChunksBound(h);
    NonceInjective(i, j);
    AadInjective(g, h, i, j);
  }

  lemma ChunksBound(h: Header)
    requires InRange(h)
    ensures Chunks(h) <= h.plainLen < TWO64
  {
    ChunkIff(h, h.plainLen);
    StartAtLeast(h, h.plainLen);
  }

  lemma StartAtLeast(h: Header, i: nat)
    requires h.chunkSize > 0
    ensures i <= Start(h, i)
  {
  }

  /** The plaintext covered by the first `n` chunks. */
  function Covered(h: Header, plain: Bytes, n: nat): Bytes
    requires |plain| == h.plainLen
  {
    plain[..Common.Min(Start(h, n), |plain|)]
  }

  lemma CoveredNext(h: Header, plain: Bytes, n: nat)
    requires Fitting(h, plain) && n < Chunks(h)
    ensures Covered(h, plain, n + 1) == Covered(h, plain, n) + SealingOf(h, plain, n).plain
  {
    ChunkIff(h, n);
    StartNext(h, n);
  }

  lemma CoveredAll(h: Header, plain: Bytes)
    requires Fitting(h, plain)
    ensures Covered(h, plain, Chunks(h)) == plain
  {
    ChunkIff(h, Chunks(h));
  }

  lemma {:induction false} OpenedIsGenuine(k: Aead, h: Header, plain: Bytes, g: Header, f: Bytes, n: nat)
    requires Fitting(h, plain) && Ideal(k, LogOf(h, plain)) && InRange(g) && n <= Chunks(g) && Opened(k, g, f, n).Some?
    ensures n > 0 ==> g.chunkSize == h.chunkSize && g.plainLen == h.plainLen && g.kekId == h.kekId
    ensures Opened(k, g, f, n) == Some(Covered(h, plain, n)) && n <= Chunks(h)
  {
    if n > 0 {
      ChunksBound(g);
      OpenedIsGenuine(k, h, plain, g, f, n - 1);
      ChunkIsGenuine(k, h, plain, g, f, Tile(g, n - 1), n - 1);
      CoveredNext(h, plain, n - 1);
    }
  }

  /** MAIN: whenever decryption succeeds on a header with at least one chunk, the output
      is the plaintext sealed under that data key — whatever bytes the file holds:
      altered, swapped, dropped, repeated or re-lengthed chunks never pass. */
  lemma DecryptedIsGenuine(k: Aead, h: Header, plain: Bytes, g: Header, f: Bytes)
    requires Fitting(h, plain) && Ideal(k, LogOf(h, plain)) && InRange(g)
    requires Opened(k, g, f, Chunks(g)).Some?
    ensures g.plainLen > 0 ==> Opened(k, g, f, Chunks(g)) == Some(plain) && g.kekId == h.kekId && g.chunkSize == h.chunkSize
    ensures g.plainLen == 0 ==> Opened(k, g, f, Chunks(g)) == Some([])
  {
    ChunkIff(g, 0);
    if g.plainLen > 0 {
      OpenedIsGenuine(k, h, plain, g, f, Chunks(g));
      CoveredAll(h, plain);
    }
  }

  /** The exception: a header saying length 0 opens no chunk, so with any data key that
      unwraps it yields the empty file, whatever was sealed under that key. */
  method ForgedEmpty(kekId: Bytes, wrapped: Bytes, utf8: Bytes -> bool, unwrap: Bytes -> Option<Aead>) returns (r: Outcome)
    requires |kekId| < TWO16 && |wrapped| < TWO16 && utf8(kekId) && unwrap(wrapped).Some?
    ensures r == Done([])
  {
    var h := Header(CHUNK_SIZE, 0, kekId, wrapped, 0);
    HeaderRoundTripIff(h, [], utf8);
    assert Encode(h) + [] == Encode(h);
    var out;
    r, out := DecryptFile(Encode(h), utf8, unwrap, None);
  }

  // ----- round trip -----

  lemma SealChunkLen(k: Aead, h: Header, plain: Bytes, i: nat)
    requires Fitting(h, plain) && i < Chunks(h) && Tagged(k)
    ensures Start(h, i) < h.plainLen && |SealChunk(k, h, plain, i)| == ChunkLen(h, i)
  {
    ChunkIff(h, i);
  }

  /** Offset of chunk `i` behind the header. */
  function Behind(h: Header, i: nat): nat {
    Start(h, i) + i * TAG_LEN
  }

  lemma BehindNext(h: Header, plain: Bytes, i: nat)
    requires Fitting(h, plain) && i + 1 < Chunks(h)
    ensures Start(h, i) < h.plainLen && Behind(h, i + 1) == Behind(h, i) + ChunkLen(h, i)
  {
    ChunkIff(h, i);
    ChunkIff(h, i + 1);
    StartNext(h, i);
  }

  lemma {:induction false} SealedLength(k: Aead, h: Header, plain: Bytes, n: nat)
    requires Fitting(h, plain) && n < Chunks(h) && Tagged(k)
    ensures |Sealed(k, h, plain, n)| == Behind(h, n)
  {
    if n > 0 {
      SealedLength(k, h, plain, n - 1);
      SealChunkLen(k, h, plain, n - 1);
      BehindNext(h, plain, n - 1);
    }
  }

  /** Chunk `i` of the container is found at its computed place. */
  lemma {:induction false} SealedHolds(k: Aead, h: Header, plain: Bytes, n: nat, i: nat)
    requires Fitting(h, plain) && i < n <= Chunks(h) && Tagged(k)
    ensures ReadAt(Sealed(k, h, plain, n), Behind(h, i), |SealChunk(k, h, plain, i)|) == Some(SealChunk(k, h, plain, i))
  {
    var init, last := Sealed(k, h, plain, n - 1), SealChunk(k, h, plain, n - 1);
    if i == n - 1 {
      SealedLength(k, h, plain, i);
      ReadPart(init, last, []);
      assert init + last + [] == init + last;
    } else {
      SealedHolds(k, h, plain, n - 1, i);
      ReadMore(init, last, Behind(h, i), |SealChunk(k, h, plain, i)|);
    }
  }

  lemma ReadMore(a: Bytes, b: Bytes, at: nat, n: nat)
    requires at + n <= |a|
    ensures ReadAt(a + b, at, n) == ReadAt(a, at, n) && ReadAt(b + a, |b| + at, n) == ReadAt(a, at, n)
  {
    assert (a + b)[at..at + n] == a[at..at + n];
    assert (b + a)[|b| + at..|b| + at + n] == a[at..at + n];
  }

  predicate OpensAt(k: Aead, h: Header, plain: Bytes, g: Header, f: Bytes, i: nat)
    requires Fitting(h, plain) && g.chunkSize == h.chunkSize && g.plainLen == h.plainLen && i < Chunks(h)
  {
    OpenChunk(k, g, f, Tile(g, i), i) == Some(SealingOf(h, plain, i).plain)
  }

  predicate ReopensAt(k: Aead, h: Header, plain: Bytes, i: nat)
    requires Fitting(h, plain) && i < Chunks(h)
  {
    k.open(NonceFor(i), Aad(h, i), SealChunk(k, h, plain, i)) == Some(SealingOf(h, plain, i).plain)
  }

  ghost predicate Reopens(k: Aead, h: Header, plain: Bytes)
    requires Fitting(h, plain)
  {
    Tagged(k) && forall i: nat :: i < Chunks(h) ==> ReopensAt(k, h, plain, i)
  }

  lemma IdealReopens(k: Aead, h: Header, plain: Bytes)
    requires Fitting(h, plain) && Ideal(k, LogOf(h, plain))
    ensures Reopens(k, h, plain)
  {
    forall i: nat | i < Chunks(h) ensures ReopensAt(k, h, plain, i) {
      assert SealingOf(h, plain, i) in LogOf(h, plain);
    }
  }

  /** `f` is a header and the sealed chunks behind it, and `g` the header read back. */
  ghost predicate IsContainer(k: Aead, h: Header, plain: Bytes, g: Header, f: Bytes, head: Bytes) {
    && Fitting(h, plain) && Reopens(k, h, plain) && g == h.(headerLen := |head|)
    && f == head + Sealed(k, h, plain, Chunks(h))
  }

  /** Opening chunk `i` of a sealed container, in order or by seeking, gives slice `i`. */
  lemma SealedOpens(k: Aead, h: Header, plain: Bytes, g: Header, f: Bytes, head: Bytes, i: nat)
    requires IsContainer(k, h, plain, g, f, head) && i < Chunks(h)
    ensures OpensAt(k, h, plain, g, f, i)
  {
    SealedHolds(k, h, plain, Chunks(h), i);
    SealChunkLen(k, h, plain, i);
    ReadMore(Sealed(k, h, plain, Chunks(h)), head, Behind(h, i), ChunkLen(h, i));
    assert Start(g, i) == Start(h, i) && ChunkLen(g, i) == ChunkLen(h, i) && Aad(g, i) == Aad(h, i);
    assert Tile(g, i) == |head| + Behind(h, i);
    assert ReopensAt(k, h, plain, i);
  }

  lemma OneMoreOpens(k: Aead, h: Header, plain: Bytes, g: Header, f: Bytes, n: nat)
    requires Fitting(h, plain) && g.chunkSize == h.chunkSize && g.plainLen == h.plainLen && n < Chunks(h)
    requires Opened(k, g, f, n) == Some(Covered(h, plain, n)) && OpensAt(k, h, plain, g, f, n)
    ensures Opened(k, g, f, n + 1) == Some(Covered(h, plain, n + 1))
  {
    CoveredNext(h, plain, n);
  }

  lemma {:induction false} SealedOpensAll(k: Aead, h: Header, plain: Bytes, g: Header, f: Bytes, head: Bytes, n: nat)
    requires IsContainer(k, h, plain, g, f, head) && n <= Chunks(h)
    ensures Opened(k, g, f, n) == Some(Covered(h, plain, n))
  {
    if n > 0 {
      SealedOpensAll(k, h, plain, g, f, head, n - 1);
      SealedOpens(k, h, plain, g, f, head, n - 1);
      OneMoreOpens(k, h, plain, g, f, n - 1);
    }
  }

  /** MAIN: sealing and opening again gives back every plaintext, of any length. */
  method SealAndOpen(plain: Bytes, k: Aead, kekId: Bytes, wrapped: Bytes, utf8: Bytes -> bool, unwrap: Bytes -> Option<Aead>)
    returns (r: Outcome)
    requires |plain| < TWO64 && |kekId| < TWO16 && |wrapped| < TWO16 && utf8(kekId) && unwrap(wrapped) == Some(k)
    requires Ideal(k, LogOf(Header(CHUNK_SIZE, |plain|, kekId, wrapped, 0), plain))
    ensures r == Done(plain)
  {
    var h, file := EncryptFile(plain, k, kekId, wrapped);
    HeaderRoundTripIff(h, Sealed(k, h, plain, Chunks(h)), utf8);
    IdealReopens(k, h, plain);
    SealedOpensAll(k, h, plain, h.(headerLen := |Encode(h)|), file, Encode(h), Chunks(h));
    CoveredAll(h, plain);
    var out;
    r, out := DecryptFile(file, utf8, unwrap, None);
  }

  lemma SmallTiles(g: Header, idx: nat)
    requires g.chunkSize == CHUNK_SIZE && Start(g, idx) < g.plainLen < TWO64 / 2 && g.headerLen < 4 * TWO16
    ensures Tile(g, idx) < TWO64
  {
  }

  lemma SeekFinds(k: Aead, h: Header, plain: Bytes, g: Header, f: Bytes, i: nat)
    requires IsContainer(k, h, plain, g, f, Encode(h)) && i < Chunks(h)
    requires h.chunkSize == CHUNK_SIZE && |plain| < TWO64 / 2 && |h.kekId| < TWO16 && |h.wrappedDek| < TWO16
    ensures OpenChunk(k, g, f, ChunkOffset(g, i), i) == Some(SealingOf(h, plain, i).plain)
  {
    ChunkIff(h, i);
    SealedOpens(k, h, plain, g, f, Encode(h), i);
    SmallTiles(g, i);
    TileIsOffset(g, i);
  }

  /** MAIN: a random read of chunk `idx` gives slice `idx` of the plaintext, for files
      below 2^64 bytes. */
  method SealAndSeek(plain: Bytes, k: Aead, kekId: Bytes, wrapped: Bytes, utf8: Bytes -> bool, unwrap: Bytes -> Option<Aead>, idx: nat)
    returns (r: Option<Bytes>)
    requires |kekId| < TWO16 && |wrapped| < TWO16 && utf8(kekId) && unwrap(wrapped) == Some(k)
    requires |plain| < TWO64 / 2
    requires Ideal(k, LogOf(Header(CHUNK_SIZE, |plain|, kekId, wrapped, 0), plain))
    ensures r == if idx * CHUNK_SIZE < |plain| then Some(plain[idx * CHUNK_SIZE..Common.Min((idx + 1) * CHUNK_SIZE, |plain|)]) else None
  {
    var at := idx * CHUNK_SIZE;
    var h, file := EncryptFile(plain, k, kekId, wrapped);
    var g := h.(headerLen := |Encode(h)|);
    HeaderRoundTripIff(h, Sealed(k, h, plain, Chunks(h)), utf8);
    ChunkIff(h, idx);
    if idx < Chunks(h) {
      IdealReopens(k, h, plain);
      SeekFinds(k, h, plain, g, file, idx);
      assert SealingOf(h, plain, idx).plain == plain[at..Common.Min(at + CHUNK_SIZE, |plain|)];
    }
    assert idx < Chunks(h) <==> at < |plain|;
    r := DecryptChunk(file, utf8, unwrap, idx);
  }
}
