/** A relay that keeps chunks for a sender (core/src/backfill.rs): what it says it holds,
    and taking in a list of chunks all or not at all. */
module Backfill {
  import opened Bytes
  import opened Swarm

  type Digest = seq<byte>

  const HAVE_BATCH: nat := 4096

  // ---- asking ---------------------------------------------------------------------

  /** A relay's answer to one question: too old to know, refused or unreadable, or the
      bits. */
  datatype Answer = NotFound | Refused | Bits(bits: seq<bv8>)

  datatype Reply = Held(indices: set<nat>) | Failed

  function Batch(chunks: seq<Digest>, b: nat): seq<Digest>
    requires b * HAVE_BATCH <= |chunks|
  {
    chunks[b * HAVE_BATCH..Min((b + 1) * HAVE_BATCH, |chunks|)]
  }

  function Batches(chunks: seq<Digest>): nat {
    CeilDiv(|chunks|, HAVE_BATCH)
  }

  /** `decode_have_bitfield` takes no more bits than were asked about. */
  predicate Answers(chunks: seq<Digest>, ask: seq<Digest> -> Answer, b: nat)
    requires b * HAVE_BATCH <= |chunks|
  {
    var a := ask(Batch(chunks, b));
    a.Bits? && |a.bits| <= ByteCount(|Batch(chunks, b)|)
  }

  /** The relay said, in the batch that asked about it, that it holds chunk `i`. */
  predicate Said(chunks: seq<Digest>, ask: seq<Digest> -> Answer, i: nat)
    requires i < |chunks|
  {
    var a := ask(Batch(chunks, i / HAVE_BATCH));
    a.Bits? && Has(a.bits, i % HAVE_BATCH)
  }

  lemma BatchStart(chunks: seq<Digest>, b: nat)
    requires b < Batches(chunks)
    ensures b * HAVE_BATCH < |chunks|
  {
  }

  /** Index `i` as it is reported: a `u32`. */
  function Reported(chunks: seq<Digest>, ask: seq<Digest> -> Answer, below: nat): set<nat>
    requires below <= |chunks|
  {
    set i: nat | i < below && Said(chunks, ask, i) :: i % TWO_TO_32
  }

  lemma ReportedStep(chunks: seq<Digest>, ask: seq<Digest> -> Answer, n: nat)
    requires n < |chunks|
    ensures Reported(chunks, ask, n + 1)
         == Reported(chunks, ask, n) + if Said(chunks, ask, n) then {n % TWO_TO_32} else {}
  {
  }

  lemma NothingReported(chunks: seq<Digest>, ask: seq<Digest> -> Answer)
    ensures Reported(chunks, ask, 0) == {}
  {
  }

  lemma SaidOf(chunks: seq<Digest>, ask: seq<Digest> -> Answer, b: nat, i: nat)
    requires i < HAVE_BATCH && b * HAVE_BATCH + i < |chunks|
    ensures Said(chunks, ask, b * HAVE_BATCH + i)
       <==> ask(Batch(chunks, b)).Bits? && Has(ask(Batch(chunks, b)).bits, i)
  {
    hide Has;
    DivModUnique(b, i, HAVE_BATCH);
  }

  /** Every batch up to `b` was answered, and `b` was not. */
  predicate FirstUnanswered(chunks: seq<Digest>, ask: seq<Digest> -> Answer, b: nat) {
    b < Batches(chunks) && b * HAVE_BATCH <= |chunks| && !Answers(chunks, ask, b)
    && forall c: nat :: c < b ==> c * HAVE_BATCH <= |chunks| && Answers(chunks, ask, c)
  }

  /** One batch's bits, added to what is known of those before. */
  method TakeBits(chunks: seq<Digest>, ask: seq<Digest> -> Answer, b: nat, bits: seq<bv8>, held0: set<nat>)
    returns (held: set<nat>)
    requires b * HAVE_BATCH <= |chunks| && ask(Batch(chunks, b)) == Bits(bits)
    requires held0 == Reported(chunks, ask, b * HAVE_BATCH)
    ensures held == Reported(chunks, ask, Min((b + 1) * HAVE_BATCH, |chunks|))
  {
    hide Reported, Has, Said;
    held := held0;
    for i := 0 to |Batch(chunks, b)|
      invariant held == Reported(chunks, ask, b * HAVE_BATCH + i)
    {
      SaidOf(chunks, ask, b, i);
      ReportedStep(chunks, ask, b * HAVE_BATCH + i);
      if Has(bits, i) {
        held := held + {(b * HAVE_BATCH + i) % TWO_TO_32};
      }
    }
  }

  /** The indices that come back are exactly the ones whose bit the relay set, unless
      some batch goes unanswered: then nothing, or a failure. */
  method RelayHave(chunks: seq<Digest>, ask: seq<Digest> -> Answer) returns (r: Reply)
    ensures (forall b: nat :: !FirstUnanswered(chunks, ask, b)) ==> r == Held(Reported(chunks, ask, |chunks|))
    ensures forall b: nat :: FirstUnanswered(chunks, ask, b) ==>
      r == if ask(Batch(chunks, b)).NotFound? then Held({}) else Failed
  {
    hide Reported, Has, Said;
    var held: set<nat> := {};
    NothingReported(chunks, ask);
    var b := 0;
    while b < Batches(chunks)
      invariant 0 <= b <= Batches(chunks)
      invariant forall c: nat :: c < b ==> c * HAVE_BATCH <= |chunks| && Answers(chunks, ask, c)
      invariant held == Reported(chunks, ask, Min(b * HAVE_BATCH, |chunks|))
    {
      BatchStart(chunks, b);
      var batch := Batch(chunks, b);
      var a := ask(batch);
      assert !Answers(chunks, ask, b) ==> FirstUnanswered(chunks, ask, b);
      if a.NotFound? { return Held({}); }
      if a.Refused? || |a.bits| > ByteCount(|batch|) { return Failed; }
      held := TakeBits(chunks, ask, b, a.bits, held);
      b := b + 1;
    }
    CeilDivBounds(|chunks|, HAVE_BATCH);
    return Held(held);
  }

  /** And below 2^32 chunks an index is reported as itself. */
  lemma IndicesAreGlobal(chunks: seq<Digest>, ask: seq<Digest> -> Answer, i: nat)
    requires i < |chunks| <= TWO_TO_32
    ensures i in Reported(chunks, ask, |chunks|) <==> Said(chunks, ask, i)
  {
    hide Said;
    if i in Reported(chunks, ask, |chunks|) {
      var j: nat :| j < |chunks| && Said(chunks, ask, j) && j % TWO_TO_32 == i;
      assert j == i;
    }
    if Said(chunks, ask, i) { assert i % TWO_TO_32 == i; }
  }

  /** Chunk `i` is the `i % HAVE_BATCH`-th of the batch it is asked about in, and no batch
      asks about more than the relay takes. */
  lemma BatchHolds(chunks: seq<Digest>, i: nat)
    requires i < |chunks|
    ensures var b := i / HAVE_BATCH;
      && b < Batches(chunks) && b * HAVE_BATCH <= |chunks| && |Batch(chunks, b)| <= HAVE_BATCH
      && i % HAVE_BATCH < |Batch(chunks, b)| && Batch(chunks, b)[i % HAVE_BATCH] == chunks[i]
  {
    assert i == i / HAVE_BATCH * HAVE_BATCH + i % HAVE_BATCH;
  }

  /** A relay that answers every question truthfully: as many bits as it was asked about,
      each set exactly if it holds that chunk. */
  ghost predicate Honest(ask: seq<Digest> -> Answer, stored: set<Digest>) {
    forall batch: seq<Digest> :: TruthOf(batch, ask(batch), stored)
  }

  predicate TruthOf(batch: seq<Digest>, a: Answer, stored: set<Digest>) {
    && a.Bits? && |a.bits| == ByteCount(|batch|)
    && forall j: nat :: j < |batch| ==> (Has(a.bits, j) <==> batch[j] in stored)
  }

  /** No question goes unanswered by it, and what is reported are exactly the positions of
      the chunks it holds. */
  lemma HonestRelay(chunks: seq<Digest>, ask: seq<Digest> -> Answer, stored: set<Digest>)
    requires Honest(ask, stored) && |chunks| <= TWO_TO_32
    ensures forall b: nat :: !FirstUnanswered(chunks, ask, b)
    ensures forall i: nat :: i in Reported(chunks, ask, |chunks|) <==> i < |chunks| && chunks[i] in stored
  {
    hide Has, Batch, Said;
    forall b: nat | b < Batches(chunks) ensures b * HAVE_BATCH <= |chunks| && Answers(chunks, ask, b) {
      BatchStart(chunks, b);
      assert TruthOf(Batch(chunks, b), ask(Batch(chunks, b)), stored);
    }
    forall i: nat ensures i in Reported(chunks, ask, |chunks|) <==> i < |chunks| && chunks[i] in stored {
      ReportedBelow(chunks, ask, i);
      if i < |chunks| {
        IndicesAreGlobal(chunks, ask, i);
        SaidTruly(chunks, ask, stored, i);
      }
    }
  }

  lemma SaidTruly(chunks: seq<Digest>, ask: seq<Digest> -> Answer, stored: set<Digest>, i: nat)
    requires Honest(ask, stored) && i < |chunks|
    ensures Said(chunks, ask, i) <==> chunks[i] in stored
  {
    hide Has;
    BatchHolds(chunks, i);
    var batch := Batch(chunks, i / HAVE_BATCH);
    assert TruthOf(batch, ask(batch), stored);
  }

  lemma ReportedBelow(chunks: seq<Digest>, ask: seq<Digest> -> Answer, i: nat)
    requires |chunks| <= TWO_TO_32
    ensures i in Reported(chunks, ask, |chunks|) ==> i < |chunks|
  {
    hide Said;
    if i in Reported(chunks, ask, |chunks|) {
      var j: nat :| j < |chunks| && Said(chunks, ask, j) && j % TWO_TO_32 == i;
      assert j % TWO_TO_32 <= j;
    }
  }

  // ---- taking chunks in ------------------------------------------------------------------

  /** The files of a relay's store. A write that fails may leave half a file, and some
      files the disk may refuse to give up. */
  class Store {
    const stuck: set<Digest>
    var files: map<Digest, seq<byte>>
    ghost var failures: nat     // writes that failed

    constructor (stuck: set<Digest>)
      ensures this.stuck == stuck && files == map[] && failures == 0
    {
      this.stuck, files, failures := stuck, map[], 0;
    }

    method Write(name: Digest, content: seq<byte>) returns (ok: bool)
      modifies this
      ensures ok ==> files == old(files)[name := content]
      ensures !ok ==> files - {name} == old(files) - {name}
      ensures failures == old(failures) + if ok then 0 else 1
    {
      ok := *;
      if ok {
        files := files[name := content];
      } else {
        failures := failures + 1;
        if * {
          var n: int := *;
          files := files[name := if 0 <= n <= |content| then content[..n] else []];
        }
      }
    }

    /** Best effort: nobody is told when it fails. */
    method Remove(name: Digest)
      modifies this`files
      ensures files == old(files) - ({name} - stuck)
    {
      if name !in stuck { files := files - {name}; }
    }
  }

  /** What asking the sender for a chunk brings: the length it names, and bytes. */
  datatype Fetched = Nothing | Chunk(totalLen: nat, ct: seq<byte>)

  predicate Genuine(hash: seq<byte> -> Digest, name: Digest, f: Fetched) {
    f.Chunk? && |f.ct| == f.totalLen && hash(f.ct) == name
  }

  method SeedOne(store: Store, hash: seq<byte> -> Digest, name: Digest, got: Fetched) returns (ok: bool)
    modifies store
    ensures ok ==> Genuine(hash, name, got) && store.files == old(store.files)[name := got.ct]
    ensures ok <==> got.Chunk? && |got.ct| == got.totalLen && hash(got.ct) == name && store.failures == old(store.failures)
    ensures store.files - {name} == old(store.files) - {name} && store.failures >= old(store.failures)
  {
    if got.Nothing? { return false; }
    if !(|got.ct| == got.totalLen && hash(got.ct) == name) { return false; }
    ok := store.Write(name, got.ct);
  }

  function Elements(names: seq<Digest>): set<Digest> {
    set h | h in names
  }

  lemma ElementsSnoc(names: seq<Digest>, h: Digest)
    ensures Elements(names + [h]) == Elements(names) + {h}
  {
  }

  /** The store as it was, and these new files, each named by the digest of its bytes. */
  ghost predicate Added(hash: seq<byte> -> Digest, before: map<Digest, seq<byte>>, added: set<Digest>, now: map<Digest, seq<byte>>) {
    && added !! before.Keys && now.Keys == before.Keys + added
    && (forall h :: h in before ==> now[h] == before[h])
    && (forall h :: h in added ==> hash(now[h]) == h)
  }

  lemma AddOne(hash: seq<byte> -> Digest, before: map<Digest, seq<byte>>, added: set<Digest>, now: map<Digest, seq<byte>>,
               name: Digest, ct: seq<byte>)
    requires Added(hash, before, added, now) && name !in now && hash(ct) == name
    ensures Added(hash, before, added + {name}, now[name := ct])
  {
  }

  lemma Undone(hash: seq<byte> -> Digest, before: map<Digest, seq<byte>>, added: set<Digest>, now: map<Digest, seq<byte>>,
               name: Digest, broken: map<Digest, seq<byte>>)
    requires Added(hash, before, added, now) && name !in now && broken - {name} == now - {name}
    ensures broken - (added + {name}) == before && name !in before
  {
    var left := broken - (added + {name});
    forall h | h in left ensures h in before && left[h] == before[h] {
      assert h in broken - {name} && (now - {name})[h] == now[h];
    }
    forall h | h in before ensures h in left {
      assert h in now - {name};
    }
  }

  /** Some chunk that was lacking was not to be had as what it is called. */
  ghost predicate SomeNotGenuine(hash: seq<byte> -> Digest, fetch: Digest -> Fetched, chunks: seq<Digest>, before: map<Digest, seq<byte>>) {
    exists h :: h in chunks && h !in before && !Genuine(hash, h, fetch(h))
  }

  /** Whatever is new was fetched under its name, and genuine. */
  ghost predicate AsFetched(hash: seq<byte> -> Digest, fetch: Digest -> Fetched, before: map<Digest, seq<byte>>, now: map<Digest, seq<byte>>) {
    forall h :: h in now && h !in before ==> Genuine(hash, h, fetch(h)) && now[h] == fetch(h).ct
  }

  lemma OneNotGenuine(hash: seq<byte> -> Digest, fetch: Digest -> Fetched, chunks: seq<Digest>, before: map<Digest, seq<byte>>, h: Digest)
    requires h in chunks && h !in before && !Genuine(hash, h, fetch(h))
    ensures SomeNotGenuine(hash, fetch, chunks, before)
  {
  }

  lemma StillAsFetched(hash: seq<byte> -> Digest, fetch: Digest -> Fetched, before: map<Digest, seq<byte>>, now: map<Digest, seq<byte>>, h: Digest)
    requires AsFetched(hash, fetch, before, now) && h !in now && Genuine(hash, h, fetch(h))
    ensures AsFetched(hash, fetch, before, now[h := fetch(h).ct]) && hash(fetch(h).ct) == h
  {
  }

  lemma AllGenuine(hash: seq<byte> -> Digest, fetch: Digest -> Fetched, chunks: seq<Digest>, before: map<Digest, seq<byte>>, now: map<Digest, seq<byte>>)
    requires AsFetched(hash, fetch, before, now)
    requires forall k :: 0 <= k < |chunks| ==> chunks[k] in before || Genuine(hash, chunks[k], fetch(chunks[k]))
    ensures !SomeNotGenuine(hash, fetch, chunks, before)
    ensures forall h :: h in now && h !in before ==> fetch(h).Chunk? && now[h] == fetch(h).ct
  {
  }

  /** Every chunk is held at the end, each new one under the digest of its bytes and with
      the bytes that were fetched; or the store is what it was, but for files of this call
      that the disk would not give up. The latter exactly when a chunk it lacked was not
      genuine or could not be written. */
  method SeedChunks(store: Store, hash: seq<byte> -> Digest, fetch: Digest -> Fetched, chunks: seq<Digest>)
    returns (ok: bool)
    modifies store
    ensures !ok ==> store.files - (store.stuck - old(store.files).Keys) == old(store.files)
    ensures !ok ==> store.files.Keys <= old(store.files).Keys + (store.stuck * Elements(chunks))
    ensures ok ==> Added(hash, old(store.files), Elements(chunks) - old(store.files).Keys, store.files)
    ensures ok ==> forall h :: h in store.files && h !in old(store.files) ==> fetch(h).Chunk? && store.files[h] == fetch(h).ct
    ensures ok <==> !SomeNotGenuine(hash, fetch, chunks, old(store.files)) && store.failures == old(store.failures)
  {
    hide Added, Elements, SomeNotGenuine;
    ghost var before := store.files;
    var written: seq<Digest> := [];
    var i := 0;
    NothingAdded(hash, before);
    while i < |chunks|
      invariant 0 <= i <= |chunks|
      invariant Elements(written) == Elements(chunks[..i]) - before.Keys
      invariant Added(hash, before, Elements(written), store.files)
      invariant store.failures == old(store.failures)
      invariant forall k :: 0 <= k < i ==> chunks[k] in before || Genuine(hash, chunks[k], fetch(chunks[k]))
      invariant AsFetched(hash, fetch, before, store.files)
    {
      var name := chunks[i];
      assert chunks[..i + 1] == chunks[..i] + [name];
      ElementsSnoc(chunks[..i], name);
      AddedKeys(hash, before, Elements(written), store.files);
      if name !in store.files {
        ElementsSnoc(written, name);
        ghost var so, added := store.files, Elements(written);
        written := written + [name];
        var done := SeedOne(store, hash, name, fetch(name));
        if !done {
          ghost var broken := store.files;
          Undone(hash, before, added, so, name, broken);
          RollBack(store, written);
          WrittenAreAsked(written, chunks, i + 1, before.Keys);
          LeftBehind(before, added + {name}, store.stuck, broken);
          if !Genuine(hash, name, fetch(name)) { OneNotGenuine(hash, fetch, chunks, before, name); }
          return false;
        }
        StillAsFetched(hash, fetch, before, so, name);
        AddOne(hash, before, added, so, name, fetch(name).ct);
      }
      i := i + 1;
    }
    assert chunks[..i] == chunks;
    AllGenuine(hash, fetch, chunks, before, store.files);
    return true;
  }

  /** What a roll-back that may fail leaves of a store that could be restored. */
  lemma LeftBehind(before: map<Digest, seq<byte>>, added: set<Digest>, stuck: set<Digest>, broken: map<Digest, seq<byte>>)
    requires broken - added == before && added !! before.Keys
    ensures (broken - (added - stuck)) - (stuck - before.Keys) == before
    ensures (broken - (added - stuck)).Keys <= before.Keys + (stuck * added)
  {
    var left := (broken - (added - stuck)) - (stuck - before.Keys);
    forall h | h in left ensures h in before && left[h] == before[h] {
      assert h in broken - added && (broken - added)[h] == broken[h];
    }
    forall h | h in before ensures h in left {
      assert h in broken - added;
    }
    forall h | h in broken - (added - stuck) ensures h in before || h in stuck * added {
      if h !in added { assert h in broken - added; }
    }
  }

  lemma WrittenAreAsked(written: seq<Digest>, chunks: seq<Digest>, n: nat, keys: set<Digest>)
    requires n <= |chunks| && Elements(written) == Elements(chunks[..n]) - keys
    ensures Elements(written) <= Elements(chunks)
  {
  }

  lemma NothingAdded(hash: seq<byte> -> Digest, before: map<Digest, seq<byte>>)
    ensures Added(hash, before, Elements([]), before) && Elements([]) == {}
  {
  }

  lemma AddedKeys(hash: seq<byte> -> Digest, before: map<Digest, seq<byte>>, added: set<Digest>, now: map<Digest, seq<byte>>)
    requires Added(hash, before, added, now)
    ensures now.Keys == before.Keys + added && added !! before.Keys
  {
  }

  method RollBack(store: Store, written: seq<Digest>)
    modifies store`files
    ensures store.files == old(store.files) - (Elements(written) - store.stuck)
  {
    for k := 0 to |written|
      invariant store.files == old(store.files) - (Elements(written[..k]) - store.stuck)
    {
      store.Remove(written[k]);
      assert written[..k + 1] == written[..k] + [written[k]];
    }
    assert written[..|written|] == written;
  }
}
