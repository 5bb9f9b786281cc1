/** A link under a sound cipher that nothing in is forged and that reads: the premises of
    the link theorems can be met together. */
module LinkWitness {
  import opened Bytes
  import opened Aead
  import opened SealedLayout
  import opened Link

  /** A link of a one-byte file without a name. */
  function SmallLink(key: Key, x: byte): Layout {
    LinkLayout(MARKING, [x], LinkSeal(key, [], 1))
  }

  lemma Le4(n: nat)
    ensures Le(n, 4) == [n % 256, n / 256 % 256, n / 256 / 256 % 256, n / 256 / 256 / 256 % 256]
  {
    assert Le(n / 256 / 256, 2) == [n / 256 / 256 % 256] + Le(n / 256 / 256 / 256, 1);
    assert Le(n / 256 / 256 / 256, 1) == [n / 256 / 256 / 256 % 256] + [];
  }

  lemma {:induction false} LeZero(width: nat)
    ensures Le(0, width) == seq(width, _ => 0)
  {
    if width > 0 { LeZero(width - 1); }
  }

  const ONE_LE: seq<byte> := [1, 0, 0, 0]
  const ZERO_LE: seq<byte> := [0, 0, 0, 0]
  const MARK: seq<byte> := [0xF5, 0xF5, 0xF5, 0xF5]

  /** Its header up to the name, and its one chunk's length field: no mark in either. */
  const SMALL_HEAD: seq<byte> := MAGIC + [0, 0, 16, 0] + (ONE_LE + ZERO_LE) + [16, 0, 0, 0]

  /** Its sealed name, which is empty. */
  const SMALL_META: seq<byte> := [255, 255, 255, 255] + ONE_LE + ZERO_LE + MARK

  /** Its sealed byte. */
  function SmallChunk(x: byte): seq<byte> {
    [x] + (ZERO_LE + ONE_LE + ONE_LE + MARK)
  }

  function SmallBytes(x: byte): seq<byte> {
    SMALL_HEAD + SMALL_META + ([17, 0, 0, 0] + SmallChunk(x))
  }

  lemma Literals()
    ensures Le(0, 4) == ZERO_LE && Le(1, 4) == ONE_LE && Le(16, 4) == [16, 0, 0, 0] && Le(17, 4) == [17, 0, 0, 0]
    ensures Le(META_INDEX, 4) == [255, 255, 255, 255] && Le(LINK_CHUNK_SIZE, 4) == [0, 0, 16, 0]
    ensures Le(1, 8) == ONE_LE + ZERO_LE
  {
    Le4(0);
    Le4(1);
    Le4(16);
    Le4(17);
    Le4(META_INDEX);
    Le4(LINK_CHUNK_SIZE);
    LeZero(7);
    assert Le(1, 8) == [1] + Le(0, 7);
    hide Le;
  }

  lemma SmallSeals(key: Key, x: byte)
    ensures SealChunk(MARKING, key, META_INDEX, 1, []) == SMALL_META
    ensures SealChunk(MARKING, key, 0, 1, [x]) == SmallChunk(x)
    ensures ChunkAad(META_INDEX, 1) == [255, 255, 255, 255] + ONE_LE && ChunkAad(0, 1) == ZERO_LE + ONE_LE
  {
    Literals();
    hide Le;
    var a0, a1 := ChunkAad(META_INDEX, 1), ChunkAad(0, 1);
    assert a0 == [255, 255, 255, 255] + ONE_LE && a1 == ZERO_LE + ONE_LE;
    hide ChunkAad;
    assert MarkTag(a0, 0) == SMALL_META;
    assert MarkTag(a1, 1) == ZERO_LE + ONE_LE + ONE_LE + MARK;
    hide MarkTag;
    assert [] + MarkTag(a0, 0) == MarkTag(a0, 0);
  }

  lemma SmallShape(key: Key, x: byte)
    ensures SmallLink(key, x)
      == Layout(MARKING, key, [x], LINK_CHUNK_SIZE, 1, SMALL_HEAD + SMALL_META, true, 1)
  {
    Literals();
    SmallSeals(key, x);
    hide Le, SealChunk, ChunkAad;
    assert TotalChunksFor(1, LINK_CHUNK_SIZE) == 1;
    assert |SMALL_META| == 16;
    assert Header(MARKING, LinkSeal(key, [], 1)) == SMALL_HEAD + SMALL_META;
  }

  lemma SmallWhole(key: Key, x: byte)
    ensures var l := SmallLink(key, x);
      l.total == 1 && PlainOf(l, 0) == [x] && l.Whole() == SmallBytes(x)
  {
    SmallShape(key, x);
    SmallSeals(key, x);
    var l := SmallLink(key, x);
    hide Le, SealChunk, ChunkAad, LinkLayout, SmallLink, SmallChunk;
    assert ReadAt(l.file, 0, 1) == [x];
    SmallUnit(l, key, x);
    assert l.Body(0) == SMALL_HEAD + SMALL_META;
    assert l.Body(1) == l.Body(0) + l.UnitBytes(0);
  }

  lemma SmallUnit(l: Layout, key: Key, x: byte)
    requires l == Layout(MARKING, key, [x], LINK_CHUNK_SIZE, 1, SMALL_HEAD + SMALL_META, true, 1)
    ensures l.Unit(0) == Some([17, 0, 0, 0] + SmallChunk(x))
  {
    SmallSeals(key, x);
    Literals();
    hide Le, SealChunk, ChunkAad;
    assert ReadAt(l.file, 0, 1) == [x];
    assert |SmallChunk(x)| == 17;
  }

  /** The mark is only where a tag ends. */
  lemma NoMarkElsewhere(x: byte, k: nat)
    requires x != 0xF5 && (k < 36 || 40 <= k < 57)
    ensures k < |SmallBytes(x)| && SmallBytes(x)[k] != 0xF5
  {
    var b := SmallBytes(x);
    var tag, chunk := [255, 255, 255, 255] + ONE_LE + ZERO_LE, [17, 0, 0, 0] + ([x] + (ZERO_LE + ONE_LE + ONE_LE));
    assert b == SMALL_HEAD + tag + MARK + chunk + MARK;
    if k < 24 {
      assert b[k] == SMALL_HEAD[k];
    } else if k < 36 {
      assert b[k] == tag[k - 24];
    } else {
      assert b[k] == chunk[k - 40];
    }
  }

  lemma SmallParts(x: byte)
    ensures var b := SmallBytes(x);
      |b| == 61 && b[24..32] == [255, 255, 255, 255] + ONE_LE && b[32..36] == ZERO_LE
      && b[45..53] == ZERO_LE + ONE_LE && b[53..57] == ONE_LE && b[44] == x
  {
  }

  /** Only the two tags end in the mark. */
  lemma TagsEndAt(x: byte, hi: nat)
    requires x != 0xF5 && 16 <= hi <= 61 && |SmallBytes(x)| == 61
    requires SmallBytes(x)[hi - 4] == 0xF5 && SmallBytes(x)[hi - 1] == 0xF5
    ensures hi == 40 || hi == 61
  {
    hide SmallBytes;
    if hi - 4 < 36 || 40 <= hi - 4 < 57 {
      NoMarkElsewhere(x, hi - 4);
    } else if hi - 1 < 36 || 40 <= hi - 1 < 57 {
      NoMarkElsewhere(x, hi - 1);
    }
  }

  lemma PartsOfTag(b: seq<byte>, hi: nat, a: seq<byte>, n: seq<byte>)
    requires 16 <= hi <= |b| && |a| == 8 && |n| == 4 && b[hi - 16..hi] == a + n + MARK
    ensures b[hi - 16..hi - 8] == a && b[hi - 8..hi - 4] == n && b[hi - 4] == 0xF5 && b[hi - 1] == 0xF5
  {
    var tag := b[hi - 16..hi];
    SubSlice(b, hi - 16, hi, 0, 8);
    SubSlice(b, hi - 16, hi, 8, 12);
    assert tag[0..8] == a && tag[8..12] == n && tag[12] == 0xF5 && tag[15] == 0xF5;
  }

  /** What a part that opens ends in, and what it opens to. */
  lemma OpenEnds(key: Key, b: seq<byte>, lo: nat, hi: nat, i: nat, t: nat)
    requires lo <= hi <= |b| && OpenChunk(MARKING, key, i, t, b[lo..hi]).Some?
    ensures lo + 16 <= hi && b[hi - 16..hi - 8] == ChunkAad(i, t) && b[hi - 8..hi - 4] == Le(hi - lo - 16, 4)
    ensures b[hi - 4] == 0xF5 && b[hi - 1] == 0xF5
    ensures OpenChunk(MARKING, key, i, t, b[lo..hi]) == Some(b[lo..hi - 16])
  {
    hide ChunkAad, Le;
    var c := b[lo..hi];
    var n := |c| - TAG;
    SubSlice(b, lo, hi, n, |c|);
    SubSlice(b, lo, hi, 0, n);
    assert c[n..|c|] == c[n..] && c[0..n] == c[..n];
    PartsOfTag(b, hi, ChunkAad(i, t), Le(n, 4));
  }

  lemma SmallLength(n: nat, x: nat)
    requires n < 256 && Le(n, 4) == [x, 0, 0, 0]
    ensures n == x
  {
    Le4(n);
  }

  /** A part of it that opens is the sealed name or the sealed byte. */
  lemma SmallOpens(key: Key, x: byte, lo: nat, hi: nat, i: nat, t: nat)
    requires x != 0xF5 && lo <= hi <= 61 && i < TWO_TO_32 && t < TWO_TO_32 && |SmallBytes(x)| == 61
    requires OpenChunk(MARKING, key, i, t, SmallBytes(x)[lo..hi]).Some?
    ensures var plain := OpenChunk(MARKING, key, i, t, SmallBytes(x)[lo..hi]).value;
      t == 1 && ((i == META_INDEX && plain == []) || (i == 0 && plain == [x]))
  {
    hide SmallBytes, Le, ChunkAad, OpenChunk;
    var b := SmallBytes(x);
    OpenEnds(key, b, lo, hi, i, t);
    TagsEndAt(x, hi);
    SmallParts(x);
    SmallSeals(key, x);
    if hi == 40 {
      AadInjective(i, t, META_INDEX, 1);
      SmallLength(hi - lo - 16, 0);
    } else {
      AadInjective(i, t, 0, 1);
      SmallLength(hi - lo - 16, 1);
      assert b[44..45] == [b[44]];
    }
  }

  lemma SmallUnforged(key: Key, x: byte)
    requires x != 0xF5
    ensures Unforged(SmallLink(key, x), [], SmallBytes(x))
  {
    hide OpenChunk, SmallBytes, LinkLayout, PlainOf;
    var l, b := SmallLink(key, x), SmallBytes(x);
    SmallShape(key, x);
    SmallWhole(key, x);
    SmallParts(x);
    forall lo: nat, hi: nat, i: nat, t: nat |
      lo <= hi <= |b| && i < TWO_TO_32 && t < TWO_TO_32 && OpenChunk(l.gcm, l.key, i, t, b[lo..hi]).Some?
      ensures InLink(l, [], i, t, OpenChunk(l.gcm, l.key, i, t, b[lo..hi]).value)
    {
      SmallOpens(key, x, lo, hi, i, t);
    }
  }

  /** So a container can be unforged and read: what `NothingElseDecodes` asks for is met
      by a link under a sound cipher. */
  lemma UnforgedContainerReads(key: Key, x: byte, utf8: seq<byte> -> bool)
    requires x != 0xF5 && utf8([])
    ensures var l := SmallLink(key, x);
      && l.gcm.Sound() && Unforged(l, [], l.Whole())
      && ReadLink(MARKING, utf8, key, l.Whole()) == Ok(([], [x]))
  {
    hide ReadLink, Unforged, Layout.Whole, SmallBytes, Gcm.Sound;
    MarkingIsSound();
    SmallWhole(key, x);
    SmallUnforged(key, x);
    var l := SmallLink(key, x);
    assert l.Whole() + [] == l.Whole();
    RoundTrip(MARKING, [x], LinkSeal(key, [], 1), utf8, []);
    assert [x][..1] == [x];
  }
}
