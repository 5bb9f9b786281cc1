/** Chunk encryption as core/src/crypto.rs uses it: a nonce and associated data
    derived from the chunk's position, over an AEAD that is a parameter. */
module Aead {
  import opened Bytes

  type Key = seq<byte>

  /** Length of the AES-GCM tag. */
  const TAG: nat := 16

  /** Any AEAD with a 16-byte tag: (key, nonce, associated data, message). */
  datatype Gcm = Gcm(
    encrypt: (Key, seq<byte>, seq<byte>, seq<byte>) -> seq<byte>,
    decrypt: (Key, seq<byte>, seq<byte>, seq<byte>) -> Option<seq<byte>>)
  {
    /** Encrypting adds a tag, and decrypting undoes it. */
    ghost predicate Seals(k: Key, n: seq<byte>, a: seq<byte>, m: seq<byte>) {
      |encrypt(k, n, a, m)| == |m| + TAG && decrypt(k, n, a, encrypt(k, n, a, m)) == Some(m)
    }

    /** Whatever decrypts is an encryption of what it decrypts to. */
    ghost predicate OpensOnlySealed(k: Key, n: seq<byte>, a: seq<byte>, c: seq<byte>) {
      var m := decrypt(k, n, a, c);
      m.Some? ==> c == encrypt(k, n, a, m.value)
    }

    /** What the theorems ask of the cipher. It holds of AES-GCM itself: under a
        fixed key, nonce and associated data, exactly the encryptions decrypt. */
    ghost predicate Sound() {
      && (forall k: Key, n: seq<byte>, a: seq<byte>, m: seq<byte> :: Seals(k, n, a, m))
      && (forall k: Key, n: seq<byte>, a: seq<byte>, c: seq<byte> :: OpensOnlySealed(k, n, a, c))
    }
  }

  function ChunkNonce(index: nat): (n: seq<byte>)
    ensures |n| == 12
  {
    Le(index, 4) + [0, 0, 0, 0, 0, 0, 0, 0]
  }

  function ChunkAad(index: nat, total: nat): (a: seq<byte>)
    ensures |a| == 8
  {
    Le(index, 4) + Le(total, 4)
  }

  function SealChunk(gcm: Gcm, key: Key, index: nat, total: nat, plain: seq<byte>): seq<byte> {
    gcm.encrypt(key, ChunkNonce(index), ChunkAad(index, total), plain)
  }

  function OpenChunk(gcm: Gcm, key: Key, index: nat, total: nat, ct: seq<byte>): Option<seq<byte>> {
    gcm.decrypt(key, ChunkNonce(index), ChunkAad(index, total), ct)
  }

  lemma SealOpens(gcm: Gcm, key: Key, index: nat, total: nat, plain: seq<byte>)
    requires gcm.Sound()
    ensures OpenChunk(gcm, key, index, total, SealChunk(gcm, key, index, total, plain)) == Some(plain)
    ensures |SealChunk(gcm, key, index, total, plain)| == |plain| + TAG
  {
    assert gcm.Seals(key, ChunkNonce(index), ChunkAad(index, total), plain);
  }

  /** These twelve bytes are the index, little-endian, and zeros. */
  predicate NonceOf(n: seq<byte>, index: nat) {
    |n| == 12 && FromLe(n[..4]) == index && forall k :: 4 <= k < 12 ==> n[k] == 0
  }

  /** These eight are the index and the count, each little-endian. */
  predicate AadOf(a: seq<byte>, index: nat, total: nat) {
    |a| == 8 && FromLe(a[..4]) == index && FromLe(a[4..]) == total
  }

  /** A chunk is sealed, and opened, under its own index and the count. */
  lemma SealedUnder(gcm: Gcm, key: Key, index: nat, total: nat, plain: seq<byte>, ct: seq<byte>) returns (n: seq<byte>, a: seq<byte>)
    requires index < TWO_TO_32 && total < TWO_TO_32
    ensures NonceOf(n, index) && AadOf(a, index, total)
    ensures SealChunk(gcm, key, index, total, plain) == gcm.encrypt(key, n, a, plain)
    ensures OpenChunk(gcm, key, index, total, ct) == gcm.decrypt(key, n, a, ct)
  {
    Pow256Words();
    LeReadsBack(index, 4);
    LeReadsBack(total, 4);
    n, a := ChunkNonce(index), ChunkAad(index, total);
    assert n[..4] == Le(index, 4) && a[..4] == Le(index, 4) && a[4..] == Le(total, 4);
  }

  lemma OpenedWasSealed(gcm: Gcm, key: Key, index: nat, total: nat, ct: seq<byte>)
    requires gcm.Sound() && OpenChunk(gcm, key, index, total, ct).Some?
    ensures ct == SealChunk(gcm, key, index, total, OpenChunk(gcm, key, index, total, ct).value)
    ensures |OpenChunk(gcm, key, index, total, ct).value| + TAG == |ct|
  {
    var plain := OpenChunk(gcm, key, index, total, ct).value;
    assert gcm.OpensOnlySealed(key, ChunkNonce(index), ChunkAad(index, total), ct);
    assert gcm.Seals(key, ChunkNonce(index), ChunkAad(index, total), plain);
  }

  /** Two chunks share a nonce only if they are the same chunk. */
  lemma NonceInjective(i: nat, j: nat)
    requires i < TWO_TO_32 && j < TWO_TO_32
    ensures ChunkNonce(i) == ChunkNonce(j) <==> i == j
  {
    Pow256Words();
    LeReadsBack(i, 4);
    LeReadsBack(j, 4);
    assert ChunkNonce(i)[..4] == Le(i, 4) && ChunkNonce(j)[..4] == Le(j, 4);
  }

  /** The associated data pins both the position and the chunk count. */
  lemma AadInjective(i: nat, t: nat, j: nat, u: nat)
    requires i < TWO_TO_32 && j < TWO_TO_32 && t < TWO_TO_32 && u < TWO_TO_32
    ensures ChunkAad(i, t) == ChunkAad(j, u) <==> i == j && t == u
  {
    Pow256Words();
    LeReadsBack(i, 4);
    LeReadsBack(j, 4);
    LeReadsBack(t, 4);
    LeReadsBack(u, 4);
    assert ChunkAad(i, t)[..4] == Le(i, 4) && ChunkAad(j, u)[..4] == Le(j, 4);
    assert ChunkAad(i, t)[4..] == Le(t, 4) && ChunkAad(j, u)[4..] == Le(u, 4);
  }

  // ---- the laws can be met ---------------------------------------------------------

  /** A tag that names the associated data and the length, and ends in a mark. */
  function MarkTag(a: seq<byte>, n: nat): (tag: seq<byte>)
    ensures |tag| == TAG
  {
    (if |a| == 8 then a else Le(0, 8)) + Le(n, 4) + [0xF5, 0xF5, 0xF5, 0xF5]
  }

  function MarkSeal(k: Key, n: seq<byte>, a: seq<byte>, m: seq<byte>): seq<byte> {
    m + MarkTag(a, |m|)
  }

  function MarkOpen(k: Key, n: seq<byte>, a: seq<byte>, c: seq<byte>): Option<seq<byte>> {
    if |c| >= TAG && c[|c| - TAG..] == MarkTag(a, |c| - TAG) then Some(c[..|c| - TAG]) else None
  }

  /** No secret at all, but sound: what the theorems ask of a cipher contradicts nothing. */
  const MARKING := Gcm(MarkSeal, MarkOpen)

  lemma MarkingIsSound()
    ensures MARKING.Sound()
  {
    hide MarkTag;
    forall k: Key, n: seq<byte>, a: seq<byte>, m: seq<byte> ensures MARKING.Seals(k, n, a, m) {
      var c := MarkSeal(k, n, a, m);
      assert c[|c| - TAG..] == MarkTag(a, |m|) && c[..|c| - TAG] == m;
    }
    forall k: Key, n: seq<byte>, a: seq<byte>, c: seq<byte> ensures MARKING.OpensOnlySealed(k, n, a, c) {
      if |c| >= TAG { assert c == c[..|c| - TAG] + c[|c| - TAG..]; }
    }
  }
}
