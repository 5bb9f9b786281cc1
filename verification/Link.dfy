/** The browser-link container (core/src/link.rs): what `link_layout` describes and
    what `decrypt_link` makes of it, or of anything else. */
module Link {
  import opened Bytes
  import opened Aead
  import opened SealedLayout

  const MAGIC: seq<byte> := [0x41, 0x52, 0x56, 0x4C, 0x4E, 0x4B, 0x30, 0x31]

  const LINK_CHUNK_SIZE: nat := 1024 * 1024

  /** The reserved chunk index of the sealed file name: `u32::MAX`. */
  const META_INDEX: nat := 0xFFFF_FFFF

  datatype LinkSeal = LinkSeal(key: Key, name: seq<byte>, size: nat)

  datatype LinkError =
    Truncated | NotALink | BadChunkSize | NameUnreadable | NameNotUtf8 | ChunkUnreadable(index: nat) | SizeMismatch

  datatype Result<+T> = Ok(value: T) | Err(error: LinkError)

  function TotalChunksFor(size: nat, chunkSize: nat): nat
    requires chunkSize > 0
  {
    CeilDiv(size, chunkSize) % TWO_TO_32
  }

  function Header(gcm: Gcm, seal: LinkSeal): seq<byte> {
    var total := TotalChunksFor(seal.size, LINK_CHUNK_SIZE);
    var meta := SealChunk(gcm, seal.key, META_INDEX, total, seal.name);
    MAGIC + Le(LINK_CHUNK_SIZE, 4) + Le(seal.size, 8) + Le(|meta|, 4) + meta
  }

  function LinkLayout(gcm: Gcm, file: seq<byte>, seal: LinkSeal): (l: Layout)
    ensures l.Valid()
  {
    NewIsValid(gcm, seal.key, file, LINK_CHUNK_SIZE, seal.size, Header(gcm, seal), true);
    New(gcm, seal.key, file, LINK_CHUNK_SIZE, seal.size, Header(gcm, seal), true)
  }

  // ---- reading one back ----------------------------------------------------------

  function TakeAt(blob: seq<byte>, pos: nat, n: nat): Option<seq<byte>> {
    if pos + n <= |blob| then Some(blob[pos..pos + n]) else None
  }

  /** The chunks from index `i` on, found one after another from `pos`. */
  function ReadChunks(gcm: Gcm, key: Key, blob: seq<byte>, pos: nat, i: nat, total: nat): Result<seq<byte>>
    decreases total - i
  {
    if i >= total then Ok([])
    else if TakeAt(blob, pos, 4).None? then Err(Truncated)
    else
      var ctLen := FromLe(TakeAt(blob, pos, 4).value);
      var ct := TakeAt(blob, pos + 4, ctLen);
      if ct.None? then Err(Truncated)
      else
        var plain := OpenChunk(gcm, key, i, total, ct.value);
        if plain.None? then Err(ChunkUnreadable(i))
        else
          var rest := ReadChunks(gcm, key, blob, pos + 4 + ctLen, i + 1, total);
          if rest.Ok? then Ok(plain.value + rest.value) else rest
  }

  /** `decrypt_link`: the file's name and contents. `utf8` says which bytes are a
      string. */
  function ReadLink(gcm: Gcm, utf8: seq<byte> -> bool, key: Key, blob: seq<byte>): Result<(seq<byte>, seq<byte>)> {
    if |blob| < 8 then Err(Truncated)
    else if blob[..8] != MAGIC then Err(NotALink)
    else if |blob| < 12 then Err(Truncated)
    else if FromLe(blob[8..12]) == 0 then Err(BadChunkSize)
    else if |blob| < 20 then Err(Truncated)
    else
      var size := FromLe(blob[12..20]);
      var total := TotalChunksFor(size, FromLe(blob[8..12]));
      if |blob| < 24 then Err(Truncated)
      else
        var metaLen := FromLe(blob[20..24]);
        if |blob| < 24 + metaLen then Err(Truncated)
        else
          var name := OpenChunk(gcm, key, META_INDEX, total, blob[24..24 + metaLen]);
          if name.None? then Err(NameUnreadable)
          else if !utf8(name.value) then Err(NameNotUtf8)
          else
            var plain := ReadChunks(gcm, key, blob, 24 + metaLen, 0, total);
            if plain.Err? then Err(plain.error)
            else if |plain.value| != size then Err(SizeMismatch)
            else Ok((name.value, plain.value))
  }

  // ---- what a failure says ------------------------------------------------------------------

  /** The ciphertext of the `n`-th length-prefixed chunk from `pos`, if it is all there. */
  function CtAt(blob: seq<byte>, pos: nat, n: nat): Option<seq<byte>>
    decreases n
  {
    if TakeAt(blob, pos, 4).None? then None
    else
      var ctLen := FromLe(TakeAt(blob, pos, 4).value);
      if n == 0 then TakeAt(blob, pos + 4, ctLen) else CtAt(blob, pos + 4 + ctLen, n - 1)
  }

  /** The chunk `n` places on from chunk `i`, which is at `pos`, is there and opens. */
  predicate Reads(gcm: Gcm, key: Key, blob: seq<byte>, pos: nat, i: nat, total: nat, n: nat) {
    CtAt(blob, pos, n).Some? && OpenChunk(gcm, key, i + n, total, CtAt(blob, pos, n).value).Some?
  }

  /** All chunks before the `n`-th do. */
  ghost predicate ReadsTo(gcm: Gcm, key: Key, blob: seq<byte>, pos: nat, i: nat, total: nat, n: nat) {
    forall m: nat :: m < n ==> Reads(gcm, key, blob, pos, i, total, m)
  }

  /** Reading the chunks fails at the first that is not there, or that does not open, and
      says which. */
  lemma {:induction false} ChunkErrors(gcm: Gcm, key: Key, blob: seq<byte>, pos: nat, i: nat, total: nat, n: nat)
    requires i + n < total && ReadsTo(gcm, key, blob, pos, i, total, n)
    ensures var r := ReadChunks(gcm, key, blob, pos, i, total);
      && (CtAt(blob, pos, n).None? ==> r == Err(Truncated))
      && (CtAt(blob, pos, n).Some? && !Reads(gcm, key, blob, pos, i, total, n) ==> r == Err(ChunkUnreadable(i + n)))
    decreases n
  {
    if n > 0 {
      assert Reads(gcm, key, blob, pos, i, total, 0);
      NextReads(gcm, key, blob, pos, i, total, n);
      ChunkErrors(gcm, key, blob, pos + 4 + FromLe(TakeAt(blob, pos, 4).value), i + 1, total, n - 1);
    }
  }

  lemma {:induction false} NextReads(gcm: Gcm, key: Key, blob: seq<byte>, pos: nat, i: nat, total: nat, n: nat)
    requires n > 0 && TakeAt(blob, pos, 4).Some?
    ensures var next := pos + 4 + FromLe(TakeAt(blob, pos, 4).value);
      && (Reads(gcm, key, blob, pos, i, total, n) <==> Reads(gcm, key, blob, next, i + 1, total, n - 1))
      && (ReadsTo(gcm, key, blob, pos, i, total, n) ==> ReadsTo(gcm, key, blob, next, i + 1, total, n - 1))
  {
    hide OpenChunk;
    var next, j := pos + 4 + FromLe(TakeAt(blob, pos, 4).value), i + 1;
    if ReadsTo(gcm, key, blob, pos, i, total, n) {
      forall m: nat | m < n - 1 ensures Reads(gcm, key, blob, next, j, total, m) {
        assert Reads(gcm, key, blob, pos, i, total, m + 1);
      }
    }
  }

  /** And it succeeds exactly if every chunk does. */
  lemma {:induction false} ChunksReadIff(gcm: Gcm, key: Key, blob: seq<byte>, pos: nat, i: nat, total: nat)
    requires i <= total
    ensures ReadChunks(gcm, key, blob, pos, i, total).Ok? <==> ReadsTo(gcm, key, blob, pos, i, total, total - i)
    decreases total - i
  {
    if i < total {
      var n := total - i;
      if Reads(gcm, key, blob, pos, i, total, 0) {
        var next := pos + 4 + FromLe(TakeAt(blob, pos, 4).value);
        ChunksReadIff(gcm, key, blob, next, i + 1, total);
        forall m: nat | 0 < m < n ensures
          Reads(gcm, key, blob, pos, i, total, m) <==> Reads(gcm, key, blob, next, i + 1, total, m - 1)
        {
          NextReads(gcm, key, blob, pos, i, total, m);
        }
        NextReads(gcm, key, blob, pos, i, total, n);
      } else {
        ChunkErrors(gcm, key, blob, pos, i, total, 0);
      }
    }
  }

  /** The header is all there and says what it must. */
  predicate HeaderStands(blob: seq<byte>) {
    && |blob| >= 24 && blob[..8] == MAGIC && FromLe(blob[8..12]) > 0
    && |blob| >= 24 + FromLe(blob[20..24])
  }

  /** The name in it. */
  function NameIn(gcm: Gcm, key: Key, blob: seq<byte>): Option<seq<byte>>
    requires HeaderStands(blob)
  {
    OpenChunk(gcm, key, META_INDEX, TotalChunksFor(FromLe(blob[12..20]), FromLe(blob[8..12])),
              blob[24..24 + FromLe(blob[20..24])])
  }

  /** What each refusal of a link says of it. */
  lemma LinkErrors(gcm: Gcm, utf8: seq<byte> -> bool, key: Key, blob: seq<byte>)
    ensures var r := ReadLink(gcm, utf8, key, blob);
      && (r == Err(NotALink) <==> |blob| >= 8 && blob[..8] != MAGIC)
      && (r == Err(BadChunkSize) <==> |blob| >= 12 && blob[..8] == MAGIC && FromLe(blob[8..12]) == 0)
      && (r == Err(NameUnreadable) <==> HeaderStands(blob) && NameIn(gcm, key, blob).None?)
      && (r == Err(NameNotUtf8) <==> HeaderStands(blob) && NameIn(gcm, key, blob).Some? && !utf8(NameIn(gcm, key, blob).value))
      && (HeaderStands(blob) && NameIn(gcm, key, blob).Some? && utf8(NameIn(gcm, key, blob).value) ==>
            var size := FromLe(blob[12..20]);
            var total := TotalChunksFor(size, FromLe(blob[8..12]));
            var plain := ReadChunks(gcm, key, blob, 24 + FromLe(blob[20..24]), 0, total);
            && (r == Err(SizeMismatch) <==> plain.Ok? && |plain.value| != size)
            && (plain.Err? ==> r == Err(plain.error))
            && (plain.Ok? && |plain.value| == size ==> r == Ok((NameIn(gcm, key, blob).value, plain.value))))
      && (!HeaderStands(blob) && r != Err(NotALink) && r != Err(BadChunkSize) ==> r == Err(Truncated))
  {
    hide ReadChunks, OpenChunk, FromLe, TotalChunksFor;
    if HeaderStands(blob) && NameIn(gcm, key, blob).Some? {
      var total := TotalChunksFor(FromLe(blob[12..20]), FromLe(blob[8..12]));
      ChunksOnlySay(gcm, key, blob, 24 + FromLe(blob[20..24]), 0, total);
    }
  }

  lemma {:induction false} ChunksOnlySay(gcm: Gcm, key: Key, blob: seq<byte>, pos: nat, i: nat, total: nat)
    ensures var r := ReadChunks(gcm, key, blob, pos, i, total); r.Err? ==> r.error.Truncated? || r.error.ChunkUnreadable?
    decreases total - i
  {
    hide OpenChunk, FromLe;
    if i < total && TakeAt(blob, pos, 4).Some? {
      ChunksOnlySay(gcm, key, blob, pos + 4 + FromLe(TakeAt(blob, pos, 4).value), i + 1, total);
    }
  }

  // ---- nonces ----------------------------------------------------------------------

  /** The indices sealed under one link's key: its data chunks and its name. */
  predicate SealedIndex(l: Layout, i: nat) {
    i < l.total || i == META_INDEX
  }

  /** No two units of a link, the name's included, are sealed under one nonce. */
  lemma NoncesDistinct(gcm: Gcm, file: seq<byte>, seal: LinkSeal, i: nat, j: nat)
    requires SealedIndex(LinkLayout(gcm, file, seal), i) && SealedIndex(LinkLayout(gcm, file, seal), j)
    ensures i != j ==> ChunkNonce(i) != ChunkNonce(j)
    ensures META_INDEX >= LinkLayout(gcm, file, seal).total
  {
    NonceInjective(i, j);
  }

  // ---- what was written is read back ---------------------------------------------------

  /** What Rust's types say of a seal: the name is a string, the size a `u64`. */
  ghost predicate Typed(seal: LinkSeal, utf8: seq<byte> -> bool) {
    utf8(seal.name) && seal.size < TWO_TO_32 * TWO_TO_32
  }

  /** A name a header can describe: its sealed length fits the `u32` field. */
  predicate Nameable(seal: LinkSeal) {
    |seal.name| + TAG < TWO_TO_32
  }

  ghost predicate Describable(seal: LinkSeal, utf8: seq<byte> -> bool) {
    Typed(seal, utf8) && Nameable(seal)
  }

  lemma HeaderFields(gcm: Gcm, seal: LinkSeal, utf8: seq<byte> -> bool)
    requires gcm.Sound() && Describable(seal, utf8)
    ensures var h := Header(gcm, seal);
      var total := TotalChunksFor(seal.size, LINK_CHUNK_SIZE);
      && |h| == 24 + |seal.name| + TAG && h[..8] == MAGIC
      && FromLe(h[8..12]) == LINK_CHUNK_SIZE && FromLe(h[12..20]) == seal.size
      && FromLe(h[20..24]) == |seal.name| + TAG
      && OpenChunk(gcm, seal.key, META_INDEX, total, h[24..]) == Some(seal.name)
  {
    Pow256Words();
    var total := TotalChunksFor(seal.size, LINK_CHUNK_SIZE);
    var meta := SealChunk(gcm, seal.key, META_INDEX, total, seal.name);
    SealOpens(gcm, seal.key, META_INDEX, total, seal.name);
    LeReadsBack(LINK_CHUNK_SIZE, 4);
    LeReadsBack(seal.size, 8);
    LeReadsBack(|meta|, 4);
    hide Gcm.Sound, Le, FromLe, SealChunk, OpenChunk;
    FieldsAt(MAGIC, Le(LINK_CHUNK_SIZE, 4), Le(seal.size, 8), Le(|meta|, 4), meta);
  }

  /** Where the parts of a header are. */
  lemma FieldsAt(a: seq<byte>, b: seq<byte>, c: seq<byte>, d: seq<byte>, e: seq<byte>)
    requires |a| == 8 && |b| == 4 && |c| == 8 && |d| == 4
    ensures var h := a + b + c + d + e;
      |h| == 24 + |e| && h[..8] == a && h[8..12] == b && h[12..20] == c && h[20..24] == d && h[24..] == e
  {
  }

  /** The part of the file chunk `i` covers. */
  function PlainOf(l: Layout, i: nat): seq<byte>
    requires l.Valid()
  {
    ReadAt(l.file, i * l.chunkSize, l.PlainLen(i))
  }

  /** A unit in place is read as what was sealed in it, if its length was not cut
      down to a `u32`. */
  lemma UnitReadsBack(l: Layout, blob: seq<byte>, i: nat)
    requires l.Valid() && l.gcm.Sound() && l.lenPrefixed && i < l.Readable() && l.Whole() <= blob
    requires l.PlainLen(i) + TAG < TWO_TO_32
    ensures TakeAt(blob, Position(l, i), 4).Some?
    ensures FromLe(TakeAt(blob, Position(l, i), 4).value) == l.PlainLen(i) + TAG
    ensures TakeAt(blob, Position(l, i) + 4, l.PlainLen(i) + TAG).Some?
    ensures OpenChunk(l.gcm, l.key, i, l.total, TakeAt(blob, Position(l, i) + 4, l.PlainLen(i) + TAG).value)
         == Some(PlainOf(l, i))
    ensures |PlainOf(l, i)| == l.PlainLen(i)
  {
    UnitInWhole(l, i);
    var plain := PlainOf(l, i);
    var ct := SealChunk(l.gcm, l.key, i, l.total, plain);
    SealOpens(l.gcm, l.key, i, l.total, plain);
    Pow256Words();
    LeReadsBack(|ct|, 4);
    var pos := Position(l, i);
    var unit := blob[pos..pos + l.UnitLen(i)];
    assert unit == l.Whole()[pos..pos + l.UnitLen(i)] == Le(|ct|, 4) + ct;
    SubSlice(blob, pos, pos + l.UnitLen(i), 0, 4);
    SubSlice(blob, pos, pos + l.UnitLen(i), 4, 4 + |ct|);
    assert unit[0..4] == Le(|ct|, 4);
    assert unit[4..4 + |ct|] == ct;
  }

  /** The rest of the file, from chunk `i` on. */
  function FileFrom(l: Layout, i: nat): seq<byte>
    requires l.Valid() && l.Complete()
  {
    l.file[Min(i * l.chunkSize, l.size)..l.size]
  }

  lemma FileFromStep(l: Layout, i: nat)
    requires l.Valid() && l.Complete() && i < l.total && l.Fits()
    ensures FileFrom(l, i) == PlainOf(l, i) + FileFrom(l, i + 1)
  {
    var a, b := i * l.chunkSize, (i + 1) * l.chunkSize;
    assert b == a + l.chunkSize;
    MulMono(i, l.total - 1, l.chunkSize);
    if i + 1 < l.total { MulMono(i + 1, l.total - 1, l.chunkSize); }
    assert a <= l.size && (i + 1 < l.total ==> b < l.size) && (i + 1 == l.total ==> l.size <= b);
    assert FileFrom(l, i) == l.file[a..l.size] && FileFrom(l, i + 1) == l.file[Min(b, l.size)..l.size];
    assert l.PlainLen(i) == Min(b, l.size) - a;
    hide FileFrom;
    PieceOf(l.file, a, Min(b, l.size), l.size);
  }

  lemma PieceOf(file: seq<byte>, a: nat, b: nat, c: nat)
    requires a <= b <= c <= |file|
    ensures file[a..c] == ReadAt(file, a, b - a) + file[b..c]
  {
  }

  lemma FileFromEnd(l: Layout)
    requires l.Valid() && l.Complete() && l.Fits()
    ensures FileFrom(l, l.total) == []
  {
  }

  lemma {:induction false} ChunksReadBack(l: Layout, blob: seq<byte>, i: nat)
    requires l.Valid() && l.gcm.Sound() && l.lenPrefixed && l.Complete() && l.Fits() && l.Whole() <= blob
    requires l.chunkSize + TAG < TWO_TO_32 && i <= l.total
    ensures i < l.total ==> ReadChunks(l.gcm, l.key, blob, Position(l, i), i, l.total) == Ok(FileFrom(l, i))
    decreases l.total - i
  {
    hide Gcm.Sound, Layout.Whole, Layout.Unit, OpenChunk, FromLe, FileFrom, PlainOf, Position, TakeAt;
    if i < l.total {
      UnitLenShape(l, i);
      UnitReadsBack(l, blob, i);
      FileFromStep(l, i);
      PositionStep(l, i);
      ChunksReadBack(l, blob, i + 1);
      if i + 1 == l.total {
        FileFromEnd(l);
        assert PlainOf(l, i) + [] == PlainOf(l, i);
      }
    }
  }

  /** Decoding what was encoded gives the name and the file, whatever follows it. */
  lemma RoundTrip(gcm: Gcm, file: seq<byte>, seal: LinkSeal, utf8: seq<byte> -> bool, junk: seq<byte>)
    requires gcm.Sound() && Describable(seal, utf8) && seal.size <= |file|
    requires CeilDiv(seal.size, LINK_CHUNK_SIZE) < TWO_TO_32
    ensures ReadLink(gcm, utf8, seal.key, LinkLayout(gcm, file, seal).Whole() + junk)
         == Ok((seal.name, file[..seal.size]))
  {
    var l := LinkLayout(gcm, file, seal);
    var blob := l.Whole() + junk;
    NewIsValid(gcm, seal.key, file, LINK_CHUNK_SIZE, seal.size, Header(gcm, seal), true);
    WholeLen(l);
    HeaderFields(gcm, seal, utf8);
    HeaderReads(l, blob, seal, utf8);
    PositionStep(l, 0);
    ChunksReadBack(l, blob, 0);
    assert FileFrom(l, 0) == file[..seal.size];
  }

  /** A blob that starts with the header gets as far as its chunks. */
  lemma HeaderReads(l: Layout, blob: seq<byte>, seal: LinkSeal, utf8: seq<byte> -> bool)
    requires l.gcm.Sound() && Describable(seal, utf8) && l == LinkLayout(l.gcm, l.file, seal)
    requires l.prefix <= blob
    ensures var plain := ReadChunks(l.gcm, seal.key, blob, |l.prefix|, 0, l.total);
      ReadLink(l.gcm, utf8, seal.key, blob)
      == if plain.Err? then Err(plain.error)
         else if |plain.value| != seal.size then Err(SizeMismatch)
         else Ok((seal.name, plain.value))
  {
    HeaderFields(l.gcm, seal, utf8);
    var h := Header(l.gcm, seal);
    assert blob[..|h|] == h;
    assert blob[..8] == h[..8] && blob[8..12] == h[8..12] && blob[12..20] == h[12..20];
    assert blob[20..24] == h[20..24] && blob[24..|h|] == h[24..];
  }

  /** One chunk's length field is a `u32`. */
  lemma LastChunkShort(gcm: Gcm, key: Key, blob: seq<byte>, pos: nat, i: nat, total: nat)
    requires gcm.Sound() && i + 1 == total && ReadChunks(gcm, key, blob, pos, i, total).Ok?
    ensures |ReadChunks(gcm, key, blob, pos, i, total).value| < TWO_TO_32
  {
    hide Gcm.Sound;
    var head := TakeAt(blob, pos, 4).value;
    FromLeBound(head);
    Pow256Words();
    OpenedWasSealed(gcm, key, i, total, TakeAt(blob, pos + 4, FromLe(head)).value);
    assert ReadChunks(gcm, key, blob, pos + 4 + FromLe(head), i + 1, total) == Ok([]);
  }

  /** With a wrapped chunk count the container no longer holds the file. */
  lemma {:induction false} WrappedReadsShort(l: Layout, blob: seq<byte>, i: nat)
    requires l.Valid() && l.gcm.Sound() && l.lenPrefixed && l.Complete() && l.Whole() <= blob
    requires l.chunkSize + TAG < TWO_TO_32 && i < l.total
    requires ReadChunks(l.gcm, l.key, blob, Position(l, i), i, l.total).Ok?
    ensures |ReadChunks(l.gcm, l.key, blob, Position(l, i), i, l.total).value|
         < (l.total - 1 - i) * l.chunkSize + TWO_TO_32
    decreases l.total - i
  {
    hide Layout.Whole, Gcm.Sound, Position, OpenChunk;
    if i + 1 < l.total {
      UnitReadsBack(l, blob, i);
      PositionStep(l, i);
      WrappedReadsShort(l, blob, i + 1);
      assert (l.total - 1 - i) * l.chunkSize == (l.total - 2 - i) * l.chunkSize + l.chunkSize;
    } else {
      LastChunkShort(l.gcm, l.key, blob, Position(l, i), i, l.total);
    }
  }

  /** The link keeps its promise, whatever follows it, exactly when its chunks can be
      counted in a `u32` and so can the bytes of its sealed name. */
  lemma RoundTripIff(gcm: Gcm, file: seq<byte>, seal: LinkSeal, utf8: seq<byte> -> bool, junk: seq<byte>)
    requires gcm.Sound() && Typed(seal, utf8) && seal.size <= |file|
    ensures ReadLink(gcm, utf8, seal.key, LinkLayout(gcm, file, seal).Whole() + junk) == Ok((seal.name, file[..seal.size]))
        <==> CeilDiv(seal.size, LINK_CHUNK_SIZE) < TWO_TO_32 && Nameable(seal)
  {
    if !Nameable(seal) {
      LongNameFails(gcm, utf8, seal, LinkLayout(gcm, file, seal).Whole() + junk);
    } else if CeilDiv(seal.size, LINK_CHUNK_SIZE) < TWO_TO_32 {
      RoundTrip(gcm, file, seal, utf8, junk);
    } else {
      WrappedFails(LinkLayout(gcm, file, seal), seal, utf8, junk);
    }
  }

  /** No blob at all reads as a link with a name that long. */
  lemma LongNameFails(gcm: Gcm, utf8: seq<byte> -> bool, seal: LinkSeal, blob: seq<byte>)
    requires gcm.Sound() && !Nameable(seal)
    ensures ReadLink(gcm, utf8, seal.key, blob).Ok? ==> ReadLink(gcm, utf8, seal.key, blob).value.0 != seal.name
  {
    hide Gcm.Sound, ReadChunks, OpenChunk, FromLe, TotalChunksFor;
    if ReadLink(gcm, utf8, seal.key, blob).Ok? {
      var total := TotalChunksFor(FromLe(blob[12..20]), FromLe(blob[8..12]));
      var metaLen := FromLe(blob[20..24]);
      FromLeBound(blob[20..24]);
      Pow256Words();
      OpenedWasSealed(gcm, seal.key, META_INDEX, total, blob[24..24 + metaLen]);
    }
  }

  lemma NoChunks(gcm: Gcm, key: Key, blob: seq<byte>, pos: nat)
    ensures ReadChunks(gcm, key, blob, pos, 0, 0) == Ok([])
  {
  }

  lemma WrappedFails(l: Layout, seal: LinkSeal, utf8: seq<byte> -> bool, junk: seq<byte>)
    requires l.gcm.Sound() && Describable(seal, utf8) && seal.size <= |l.file|
    requires l == LinkLayout(l.gcm, l.file, seal) && CeilDiv(seal.size, LINK_CHUNK_SIZE) >= TWO_TO_32
    ensures ReadLink(l.gcm, utf8, seal.key, l.Whole() + junk).Err?
  {
    hide ReadChunks, ReadLink, Header, Layout.Whole, Layout.Len, CeilDiv;
    var blob := l.Whole() + junk;
    NewIsValid(l.gcm, seal.key, l.file, LINK_CHUNK_SIZE, seal.size, Header(l.gcm, seal), true);
    WholeLen(l);
    assert l.prefix <= blob && l.Whole() <= blob;
    HeaderReads(l, blob, seal, utf8);
    PositionStep(l, 0);
    assert l.size > l.total * LINK_CHUNK_SIZE + LINK_CHUNK_SIZE * (TWO_TO_32 - 1);
    var plain := ReadChunks(l.gcm, seal.key, blob, |l.prefix|, 0, l.total);
    if l.total == 0 {
      NoChunks(l.gcm, seal.key, blob, |l.prefix|);
    } else if plain.Ok? {
      WrappedReadsShort(l, blob, 0);
    }
  }

  // ---- nothing else decodes -------------------------------------------------------------

  /** What the sender sealed under this link's key. */
  ghost predicate InLink(l: Layout, name: seq<byte>, i: nat, t: nat, plain: seq<byte>)
    requires l.Valid()
  {
    t == l.total && ((i == META_INDEX && plain == name) || (i < l.total && plain == PlainOf(l, i)))
  }

  /** No part of `blob` opens, at any position a `u32` can name, as something the sender
      did not seal at that position: it was put together without the key. */
  ghost predicate Unforged(l: Layout, name: seq<byte>, blob: seq<byte>)
    requires l.Valid()
  {
    forall lo: nat, hi: nat, i: nat, t: nat ::
      lo <= hi <= |blob| && i < TWO_TO_32 && t < TWO_TO_32 && OpenChunk(l.gcm, l.key, i, t, blob[lo..hi]).Some? ==>
        InLink(l, name, i, t, OpenChunk(l.gcm, l.key, i, t, blob[lo..hi]).value)
  }

  lemma {:induction false} ChunksAuthentic(l: Layout, name: seq<byte>, blob: seq<byte>, pos: nat, i: nat)
    requires l.Valid() && l.Complete() && l.Fits() && Unforged(l, name, blob) && i <= l.total
    requires ReadChunks(l.gcm, l.key, blob, pos, i, l.total).Ok?
    ensures ReadChunks(l.gcm, l.key, blob, pos, i, l.total).value == FileFrom(l, i)
    decreases l.total - i
  {
    hide FromLe, OpenChunk, FileFrom;
    if i == l.total {
      FileFromEnd(l);
    } else {
      var next := pos + 4 + FromLe(TakeAt(blob, pos, 4).value);
      assert TakeAt(blob, pos + 4, next - pos - 4).value == blob[pos + 4..next];
      ChunksAuthentic(l, name, blob, next, i + 1);
      FileFromStep(l, i);
    }
  }

  /** Truncated, reordered, re-headed or stitched together from this link's own
      pieces: a container made without the key decodes to the sender's file or to
      nothing. */
  lemma NothingElseDecodes(gcm: Gcm, file: seq<byte>, seal: LinkSeal, utf8: seq<byte> -> bool, blob: seq<byte>)
    requires seal.size <= |file| && CeilDiv(seal.size, LINK_CHUNK_SIZE) < TWO_TO_32
    requires Unforged(LinkLayout(gcm, file, seal), seal.name, blob)
    requires ReadLink(gcm, utf8, seal.key, blob).Ok?
    ensures ReadLink(gcm, utf8, seal.key, blob).value == (seal.name, file[..seal.size])
  {
    var l := LinkLayout(gcm, file, seal);
    NewIsValid(gcm, seal.key, file, LINK_CHUNK_SIZE, seal.size, Header(gcm, seal), true);
    var metaLen := FromLe(blob[20..24]);
    var total := TotalChunksFor(FromLe(blob[12..20]), FromLe(blob[8..12]));
    assert OpenChunk(l.gcm, l.key, META_INDEX, total, blob[24..24 + metaLen]).Some?;
    ChunksAuthentic(l, seal.name, blob, 24 + metaLen, 0);
    assert FileFrom(l, 0) == file[..seal.size];
  }

  /** Cutting a container short forges nothing. */
  lemma TruncationForgesNothing(l: Layout, name: seq<byte>, blob: seq<byte>, n: nat)
    requires l.Valid() && Unforged(l, name, blob) && n <= |blob|
    ensures Unforged(l, name, blob[..n])
  {
    forall lo: nat, hi: nat | lo <= hi <= n ensures blob[..n][lo..hi] == blob[lo..hi] {
      SubSlice(blob, 0, n, lo, hi);
    }
  }

  // ---- the decoder itself --------------------------------------------------------------------

  class Cursor {
    const buf: seq<byte>
    var pos: nat

    constructor (buf: seq<byte>)
      ensures this.buf == buf && pos == 0
    {
      this.buf, this.pos := buf, 0;
    }

    /** The next `n` bytes, consumed; nothing is consumed when they are not there. */
    method Take(n: nat) returns (s: Option<seq<byte>>)
      modifies this
      ensures s == TakeAt(buf, old(pos), n)
      ensures pos == if s.Some? then old(pos) + n else old(pos)
    {
      var end := pos + n;
      if end > |buf| {
        return None;
      }
      s := Some(buf[pos..end]);
      pos := end;
    }
  }

  method DecryptLink(gcm: Gcm, utf8: seq<byte> -> bool, key: Key, blob: seq<byte>)
    returns (r: Result<(seq<byte>, seq<byte>)>)
    ensures r == ReadLink(gcm, utf8, key, blob)
  {
    hide ReadChunks, OpenChunk, FromLe, TotalChunksFor;
    var c := new Cursor(blob);
    var magic := c.Take(8);
    if magic.None? { return Err(Truncated); }
    if magic.value != MAGIC { return Err(NotALink); }
    var chunkSize := c.Take(4);
    if chunkSize.None? { return Err(Truncated); }
    if FromLe(chunkSize.value) == 0 { return Err(BadChunkSize); }
    var sizeField := c.Take(8);
    if sizeField.None? { return Err(Truncated); }
    var size := FromLe(sizeField.value);
    var total := TotalChunksFor(size, FromLe(chunkSize.value));
    var metaLen := c.Take(4);
    if metaLen.None? { return Err(Truncated); }
    var meta := c.Take(FromLe(metaLen.value));
    if meta.None? { return Err(Truncated); }
    var name := OpenChunk(gcm, key, META_INDEX, total, meta.value);
    if name.None? { return Err(NameUnreadable); }
    if !utf8(name.value) { return Err(NameNotUtf8); }
    var plain := DecryptChunks(gcm, key, c, total);
    if plain.Err? { return Err(plain.error); }
    if |plain.value| != size { return Err(SizeMismatch); }
    return Ok((name.value, plain.value));
  }

  /** Its loop over the data chunks. */
  method DecryptChunks(gcm: Gcm, key: Key, c: Cursor, total: nat) returns (r: Result<seq<byte>>)
    modifies c
    ensures r == ReadChunks(gcm, key, c.buf, old(c.pos), 0, total)
  {
    hide OpenChunk, FromLe;
    ghost var all := ReadChunks(gcm, key, c.buf, c.pos, 0, total);
    assert all.Ok? ==> [] + all.value == all.value;
    var out, i := [], 0;
    while i < total
      invariant 0 <= i <= total
      invariant var rest := ReadChunks(gcm, key, c.buf, c.pos, i, total);
        all == if rest.Ok? then Ok(out + rest.value) else rest
    {
      var head := c.Take(4);
      if head.None? { return Err(Truncated); }
      var ct := c.Take(FromLe(head.value));
      if ct.None? { return Err(Truncated); }
      var plain := OpenChunk(gcm, key, i, total, ct.value);
      if plain.None? { return Err(ChunkUnreadable(i)); }
      ghost var rest := ReadChunks(gcm, key, c.buf, c.pos, i + 1, total);
      if rest.Ok? { AppendAssoc(out, plain.value, rest.value); }
      out := out + plain.value;
      i := i + 1;
    }
    assert out + [] == out;
    return Ok(out);
  }
}
