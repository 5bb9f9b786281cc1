/** Hashing a payload on several workers, and regenerating a chunk from its digest
    (core/src/chunked.rs over core/src/source.rs). */
module Chunks {
  import opened Bytes
  import opened Aead
  import opened SealedLayout

  const CHUNK_SIZE: nat := 16 * 1024 * 1024

  type Digest = seq<byte>

  /** A payload's bytes and everything its ciphertext depends on. */
  datatype Payload = Payload(gcm: Gcm, hash: seq<byte> -> Digest, key: Key, data: seq<byte>)
  {
    function Pieces(): nat {
      CeilDiv(|data|, CHUNK_SIZE)
    }

    /** The count as it goes into the ciphertext: a `u32`. */
    function Total(): nat {
      Pieces() % TWO_TO_32
    }

    function Piece(i: nat): seq<byte> {
      ReadAt(data, i * CHUNK_SIZE, CHUNK_SIZE)
    }

    /** Chunk `i` sealed under its index, a `u32` too. */
    function Ciphertext(i: nat): seq<byte> {
      SealChunk(gcm, key, i % TWO_TO_32, Total(), Piece(i))
    }

    function DigestAt(i: nat): Digest {
      hash(Ciphertext(i))
    }
  }

  /** The first `n` pieces, put together. */
  function Joined(p: Payload, n: nat): seq<byte> {
    if n == 0 then [] else Joined(p, n - 1) + p.Piece(n - 1)
  }

  /** The pieces are the payload, in order, with nothing left over. */
  lemma {:induction false} PiecesAreData(p: Payload, n: nat)
    requires n <= p.Pieces()
    ensures Joined(p, n) == p.data[..Min(n * CHUNK_SIZE, |p.data|)]
    ensures Joined(p, p.Pieces()) == p.data
    decreases p.Pieces() - n, n
  {
    PiecesUpTo(p, n);
    PiecesUpTo(p, p.Pieces());
    CeilDivBounds(|p.data|, CHUNK_SIZE);
  }

  lemma {:induction false} PiecesUpTo(p: Payload, n: nat)
    requires n <= p.Pieces()
    ensures Joined(p, n) == p.data[..Min(n * CHUNK_SIZE, |p.data|)]
  {
    CeilDivBounds(|p.data|, CHUNK_SIZE);
    if n > 0 {
      PiecesUpTo(p, n - 1);
      assert (n - 1) * CHUNK_SIZE < |p.data|;
    }
  }

  /** A receiver that is given chunk `i` opens it, under its own index, to that piece. */
  lemma CiphertextOpens(p: Payload, i: nat)
    requires p.gcm.Sound() && i < TWO_TO_32
    ensures OpenChunk(p.gcm, p.key, i, p.Total(), p.Ciphertext(i)) == Some(p.Piece(i))
  {
    SealOpens(p.gcm, p.key, i, p.Total(), p.Piece(i));
  }

  // ---- reads that may be short --------------------------------------------------

  /** An open file. A read takes some of what is left, never nothing before the end. */
  class Reader {
    const data: seq<byte>
    var pos: nat
    var failed: bool

    constructor (data: seq<byte>)
      ensures this.data == data && pos == 0 && !failed
    {
      this.data, pos, failed := data, 0, false;
    }

    /** One `read` into the rest of `buf`. */
    method Read(buf: array<byte>, from: nat) returns (n: nat)
      requires from <= buf.Length
      modifies this, buf
      ensures !failed ==> from + n <= buf.Length && pos == old(pos) + n && buf[..from] == old(buf[..from])
      ensures !failed && n > 0 ==> pos <= |data| && buf[from..from + n] == data[old(pos)..pos]
      ensures !failed ==> (n == 0 <==> from == buf.Length || old(pos) >= |data|)
      ensures old(failed) ==> failed
    {
      if * {
        failed := true;
        return 0;
      }
      if from == buf.Length || pos >= |data| {
        return 0;
      }
      n :| 0 < n <= buf.Length - from && pos + n <= |data|;
      forall k | 0 <= k < n {
        buf[from + k] := data[pos + k];
      }
      pos := pos + n;
    }

    /** `pread`: from an offset, the file's own position left alone. */
    method ReadFrom(buf: array<byte>, from: nat, offset: nat) returns (n: nat)
      requires from <= buf.Length
      modifies this`failed, buf
      ensures !failed ==> from + n <= buf.Length && buf[..from] == old(buf[..from])
      ensures !failed && n > 0 ==> offset + n <= |data| && buf[from..from + n] == data[offset..offset + n]
      ensures !failed ==> (n == 0 <==> from == buf.Length || offset >= |data|)
      ensures old(failed) ==> failed
    {
      if * {
        failed := true;
        return 0;
      }
      if from == buf.Length || offset >= |data| {
        return 0;
      }
      n :| 0 < n <= buf.Length - from && offset + n <= |data|;
      forall k | 0 <= k < n {
        buf[from + k] := data[offset + k];
      }
    }
  }

  lemma ReadMore(data: seq<byte>, start: nat, have: nat, n: nat, want: nat)
    requires have + n <= want && start + have + n <= |data|
    ensures ReadAt(data, start, have) + data[start + have..start + have + n] == ReadAt(data, start, have + n)
  {
  }

  /** `fill`: whatever the reads bring, as much of the file from here as fits. */
  method Fill(f: Reader, buf: array<byte>) returns (filled: nat)
    modifies f, buf
    ensures old(f.failed) ==> f.failed
    ensures !f.failed ==>
      && filled == |ReadAt(f.data, old(f.pos), buf.Length)|
      && buf[..filled] == ReadAt(f.data, old(f.pos), buf.Length)
      && f.pos == old(f.pos) + filled
  {
    filled := 0;
    ghost var start := f.pos;
    while filled < buf.Length
      invariant filled <= buf.Length
      invariant old(f.failed) ==> f.failed
      invariant !f.failed ==> f.pos == start + filled
      invariant !f.failed ==> (filled > 0 ==> start + filled <= |f.data|) && buf[..filled] == ReadAt(f.data, start, filled)
    {
      var n := f.Read(buf, filled);
      if f.failed { return; }
      if n == 0 { break; }
      ReadMore(f.data, start, filled, n, buf.Length);
      assert buf[..filled + n] == buf[..filled] + buf[filled..filled + n];
      filled := filled + n;
    }
  }

  /** `read_full_at`. */
  method ReadFullAt(f: Reader, buf: array<byte>, offset0: nat) returns (done: nat)
    modifies f`failed, buf
    ensures old(f.failed) ==> f.failed
    ensures !f.failed ==>
      done == |ReadAt(f.data, offset0, buf.Length)| && buf[..done] == ReadAt(f.data, offset0, buf.Length)
  {
    done := 0;
    var offset := offset0;
    while done < buf.Length
      invariant done <= buf.Length && offset == offset0 + done
      invariant old(f.failed) ==> f.failed
      invariant !f.failed ==> (done > 0 ==> offset <= |f.data|) && buf[..done] == ReadAt(f.data, offset0, done)
    {
      var n := f.ReadFrom(buf, done, offset);
      if f.failed { return; }
      if n == 0 { break; }
      ReadMore(f.data, offset0, done, n, buf.Length);
      assert buf[..done + n] == buf[..done] + buf[done..done + n];
      done := done + n;
      offset := offset + n;
    }
  }

  // ---- the workers -----------------------------------------------------------------

  datatype Job = Job(index: nat, piece: seq<byte>)

  /** Chunks handed out so far, what each worker holds, and the results in the order
      they came out. */
  datatype Pipeline = Pipeline(fed: nat, held: seq<Option<Job>>, done: seq<(nat, Digest)>)

  function Idle(workers: nat): Pipeline {
    Pipeline(0, seq(workers, w => None), [])
  }

  datatype Action = Feed | Finish(worker: nat)

  /** The next chunk goes to the next worker round, and waits until that one is free;
      a worker finishes whenever it does. */
  predicate Enabled(p: Payload, s: Pipeline, a: Action) {
    match a
    case Feed => s.fed < p.Pieces() && |s.held| > 0 && s.held[s.fed % |s.held|].None?
    case Finish(w) => w < |s.held| && s.held[w].Some?
  }

  /** A worker's result: the digest of what it sealed. */
  function Hashed(p: Payload, job: Job): (nat, Digest) {
    (job.index, p.hash(SealChunk(p.gcm, p.key, job.index % TWO_TO_32, p.Total(), job.piece)))
  }

  function Next(p: Payload, s: Pipeline, a: Action): Pipeline
    requires Enabled(p, s, a)
  {
    match a
    case Feed => Pipeline(s.fed + 1, s.held[s.fed % |s.held| := Some(Job(s.fed, p.Piece(s.fed)))], s.done)
    case Finish(w) => Pipeline(s.fed, s.held[w := None], s.done + [Hashed(p, s.held[w].value)])
  }

  /** Any interleaving; what cannot happen is skipped. */
  function Run(p: Payload, workers: nat, schedule: seq<Action>): Pipeline {
    if |schedule| == 0 then Idle(workers)
    else
      var s := Run(p, workers, schedule[..|schedule| - 1]);
      var a := schedule[|schedule| - 1];
      if Enabled(p, s, a) then Next(p, s, a) else s
  }

  predicate AllFree(s: Pipeline) {
    forall w :: 0 <= w < |s.held| ==> s.held[w].None?
  }

  /** Everything read has been hashed. */
  predicate Finished(p: Payload, s: Pipeline) {
    s.fed == p.Pieces() && AllFree(s)
  }

  predicate Reported(s: Pipeline, i: nat) {
    exists k :: 0 <= k < |s.done| && s.done[k].0 == i
  }

  predicate Held(s: Pipeline, i: nat) {
    exists w :: 0 <= w < |s.held| && s.held[w].Some? && s.held[w].value.index == i
  }

  /** Each chunk handed out is with exactly one worker or has come out exactly once,
      with its own digest. */
  ghost predicate Inv(p: Payload, workers: nat, s: Pipeline) {
    && |s.held| == workers && s.fed <= p.Pieces()
    && (forall w :: 0 <= w < workers && s.held[w].Some? ==>
          var job := s.held[w].value; job.index < s.fed && !Reported(s, job.index) && job.piece == p.Piece(job.index))
    && (forall w, v :: 0 <= w < v < workers && s.held[w].Some? && s.held[v].Some? ==>
          s.held[w].value.index != s.held[v].value.index)
    && (forall k :: 0 <= k < |s.done| ==> s.done[k].0 < s.fed && s.done[k].1 == p.DigestAt(s.done[k].0))
    && (forall j, k :: 0 <= j < k < |s.done| ==> s.done[j].0 != s.done[k].0)
    && (forall i: nat :: i < s.fed ==> Held(s, i) || Reported(s, i))
  }

  lemma FeedKeeps(p: Payload, workers: nat, s: Pipeline)
    requires Inv(p, workers, s) && Enabled(p, s, Feed)
    ensures Inv(p, workers, Next(p, s, Feed))
  {
    var t := Next(p, s, Feed);
    var to := s.fed % workers;
    assert t.held[to].value.index == s.fed;
    forall i: nat | i < t.fed ensures Held(t, i) || Reported(t, i) {
      if i < s.fed && !Reported(s, i) {
        var w :| 0 <= w < workers && s.held[w].Some? && s.held[w].value.index == i;
        assert t.held[w] == s.held[w];
      } else if i < s.fed {
        var k :| 0 <= k < |s.done| && s.done[k].0 == i;
        assert t.done[k].0 == i;
      }
    }
  }

  lemma FinishKeeps(p: Payload, workers: nat, s: Pipeline, w: nat)
    requires Inv(p, workers, s) && Enabled(p, s, Finish(w))
    ensures Inv(p, workers, Next(p, s, Finish(w)))
  {
    hide Payload.Piece, Payload.Pieces, SealChunk;
    var t := Next(p, s, Finish(w));
    var i0 := s.held[w].value.index;
    assert Hashed(p, s.held[w].value).1 == p.DigestAt(i0);
    assert t.done[|s.done|].0 == i0;
    forall i: nat | i < t.fed ensures Held(t, i) || Reported(t, i) {
      if i == i0 {
        assert Reported(t, i);
      } else if Reported(s, i) {
        var k :| 0 <= k < |s.done| && s.done[k].0 == i;
        assert t.done[k].0 == i;
      } else {
        var v :| 0 <= v < workers && s.held[v].Some? && s.held[v].value.index == i;
        assert t.held[v] == s.held[v];
      }
    }
    forall v | 0 <= v < workers && t.held[v].Some? ensures !Reported(t, t.held[v].value.index) {
      assert v != w && s.held[v] == t.held[v];
    }
  }

  lemma {:induction false} RunKeeps(p: Payload, workers: nat, schedule: seq<Action>)
    ensures Inv(p, workers, Run(p, workers, schedule))
  {
    if |schedule| > 0 {
      hide Inv;
      var front, a := schedule[..|schedule| - 1], schedule[|schedule| - 1];
      RunKeeps(p, workers, front);
      var s := Run(p, workers, front);
      if Enabled(p, s, a) {
        match a
        case Feed => FeedKeeps(p, workers, s);
        case Finish(w) => FinishKeeps(p, workers, s, w);
      }
    }
  }

  /** The pipeline never sticks: until everything is hashed, something can happen. */
  lemma NeverStuck(p: Payload, workers: nat, schedule: seq<Action>)
    requires workers > 0
    ensures var s := Run(p, workers, schedule);
      Finished(p, s) <==> forall a :: !Enabled(p, s, a)
  {
    RunKeeps(p, workers, schedule);
    var s := Run(p, workers, schedule);
    if !Finished(p, s) {
      if !AllFree(s) {
        var w :| 0 <= w < |s.held| && s.held[w].Some?;
        assert Enabled(p, s, Finish(w));
      } else {
        assert s.held[s.fed % workers].None?;
        assert Enabled(p, s, Feed);
      }
    }
  }

  // ---- collecting the results ---------------------------------------------------------

  datatype Prepared = Prepared(totalSize: nat, totalChunks: nat, chunks: seq<Digest>, index: map<Digest, nat>)

  /** The reverse map both constructors build: a repeated digest keeps its last place. */
  function IndexOf(chunks: seq<Digest>): map<Digest, nat> {
    if |chunks| == 0 then map[]
    else IndexOf(chunks[..|chunks| - 1])[chunks[|chunks| - 1] := |chunks| - 1]
  }

  /** Every digest has an index, which is the last place that has it. */
  lemma {:induction false} IndexInverts(chunks: seq<Digest>, h: Digest)
    ensures h in IndexOf(chunks) <==> h in chunks
    ensures h in IndexOf(chunks) ==> IndexOf(chunks)[h] < |chunks| && chunks[IndexOf(chunks)[h]] == h
    ensures h in IndexOf(chunks) ==> forall k :: IndexOf(chunks)[h] < k < |chunks| ==> chunks[k] != h
  {
    if |chunks| > 0 {
      var front, last := chunks[..|chunks| - 1], chunks[|chunks| - 1];
      IndexInverts(front, h);
      assert chunks == front + [last];
    }
  }

  /** The digest the results last gave for chunk `i`. */
  function Latest(done: seq<(nat, Digest)>, i: nat): Option<Digest> {
    if |done| == 0 then None
    else if done[|done| - 1].0 == i then Some(done[|done| - 1].1)
    else Latest(done[..|done| - 1], i)
  }

  function Extent(done: seq<(nat, Digest)>): nat {
    if |done| == 0 then 0 else Max(Extent(done[..|done| - 1]), done[|done| - 1].0 + 1)
  }

  /** The end of `compute`: results in any order, put back into file order. */
  method Collect(totalSize: nat, totalChunks: nat, done: seq<(nat, Digest)>) returns (r: Option<Prepared>)
    ensures r.None? <==> exists i: nat :: i < Extent(done) && Latest(done, i).None?
    ensures r.Some? ==>
      && r.value == Prepared(totalSize, totalChunks, r.value.chunks, IndexOf(r.value.chunks))
      && |r.value.chunks| == Extent(done)
      && forall i: nat :: i < Extent(done) ==> Latest(done, i) == Some(r.value.chunks[i])
  {
    var hashes: seq<Option<Digest>> := [];
    for k := 0 to |done|
      invariant |hashes| == Extent(done[..k])
      invariant forall i: nat :: i < |hashes| ==> hashes[i] == Latest(done[..k], i)
      invariant forall i: nat :: i >= |hashes| ==> Latest(done[..k], i).None?
    {
      assert done[..k + 1][..k] == done[..k];
      var (i, hash) := done[k];
      if |hashes| <= i {
        hashes := hashes + seq(i + 1 - |hashes|, _ => None);
      }
      hashes := hashes[i := Some(hash)];
    }
    assert done[..|done|] == done;
    var chunks: seq<Digest> := [];
    var index: map<Digest, nat> := map[];
    for i := 0 to |hashes|
      invariant |chunks| == i && index == IndexOf(chunks)
      invariant forall j: nat :: j < i ==> hashes[j] == Some(chunks[j])
    {
      if hashes[i].None? { return None; }
      var h := hashes[i].value;
      assert (chunks + [h])[..i] == chunks;
      chunks := chunks + [h];
      index := index[h := i];
    }
    return Some(Prepared(totalSize, totalChunks, chunks, index));
  }

  /** What a payload prepares to. */
  function PreparedOf(p: Payload): Prepared {
    var chunks := seq(p.Pieces(), i requires 0 <= i => p.DigestAt(i));
    Prepared(|p.data|, p.Total(), chunks, IndexOf(chunks))
  }

  lemma {:induction false} LatestOfDistinct(done: seq<(nat, Digest)>, k: nat)
    requires k < |done| && forall i, j :: 0 <= i < j < |done| ==> done[i].0 != done[j].0
    ensures Latest(done, done[k].0) == Some(done[k].1)
  {
    if k < |done| - 1 {
      assert done[..|done| - 1][k] == done[k];
      LatestOfDistinct(done[..|done| - 1], k);
    }
  }

  lemma {:induction false} ExtentOf(done: seq<(nat, Digest)>, n: nat)
    requires forall k :: 0 <= k < |done| ==> done[k].0 < n
    ensures Extent(done) <= n
    ensures n > 0 && (exists k :: 0 <= k < |done| && done[k].0 == n - 1) ==> Extent(done) == n
  {
    if |done| > 0 { ExtentOf(done[..|done| - 1], n); }
  }

  lemma FinishedReports(p: Payload, workers: nat, schedule: seq<Action>)
    requires Finished(p, Run(p, workers, schedule))
    ensures var done := Run(p, workers, schedule).done;
      Extent(done) == p.Pieces() && forall i: nat :: i < p.Pieces() ==> Latest(done, i) == Some(p.DigestAt(i))
  {
    hide Payload.DigestAt, Payload.Pieces;
    RunKeeps(p, workers, schedule);
    var s := Run(p, workers, schedule);
    forall i: nat | i < p.Pieces() ensures Reported(s, i) && Latest(s.done, i) == Some(p.DigestAt(i)) {
      assert !Held(s, i);
      var k :| 0 <= k < |s.done| && s.done[k].0 == i;
      LatestOfDistinct(s.done, k);
    }
    if p.Pieces() > 0 { assert Reported(s, p.Pieces() - 1); }
    ExtentOf(s.done, p.Pieces());
  }

  lemma RunOne(p: Payload, workers: nat, schedule: seq<Action>, a: Action)
    requires Enabled(p, Run(p, workers, schedule), a)
    ensures Run(p, workers, schedule + [a]) == Next(p, Run(p, workers, schedule), a)
  {
    assert (schedule + [a])[..|schedule|] == schedule;
  }

  /** Some workers finish, any of them in any order; `must` does. */
  method LetFinish(p: Payload, workers: nat, s0: Pipeline, ghost schedule0: seq<Action>, must: nat)
    returns (s: Pipeline, ghost schedule: seq<Action>)
    requires must < workers && s0 == Run(p, workers, schedule0)
    ensures |s0.held| == |s.held| == workers
    ensures s == Run(p, workers, schedule) && s.fed == s0.fed && s.held[must].None?
    ensures forall w :: 0 <= w < workers && s0.held[w].None? ==> s.held[w].None?
  {
    RunKeeps(p, workers, schedule0);
    s, schedule := s0, schedule0;
    var order: seq<int> := *;      // whoever happens to be done before the one we wait for
    for k := 0 to |order|
      invariant |s.held| == workers
      invariant s == Run(p, workers, schedule) && s.fed == s0.fed
      invariant forall v :: 0 <= v < workers && s0.held[v].None? ==> s.held[v].None?
    {
      var w := order[k];
      if 0 <= w < workers && s.held[w].Some? {
        RunOne(p, workers, schedule, Finish(w));
        s, schedule := Next(p, s, Finish(w)), schedule + [Finish(w)];
      }
    }
    if s.held[must].Some? {
      RunOne(p, workers, schedule, Finish(must));
      s, schedule := Next(p, s, Finish(must)), schedule + [Finish(must)];
    }
  }

  lemma PieceEmpty(p: Payload, i: nat)
    ensures |p.Piece(i)| == 0 <==> i >= p.Pieces()
    ensures p.Piece(i) == ReadAt(p.data, Min(i * CHUNK_SIZE, |p.data|), CHUNK_SIZE)
    ensures Min((i + 1) * CHUNK_SIZE, |p.data|) == Min(i * CHUNK_SIZE, |p.data|) + |p.Piece(i)|
  {
    CeilDivBounds(|p.data|, CHUNK_SIZE);
  }

  /** The results as they are sent: the index is a `u32` and wraps. */
  function Sent(done: seq<(nat, Digest)>): seq<(nat, Digest)> {
    if |done| == 0 then []
    else Sent(done[..|done| - 1]) + [(done[|done| - 1].0 % TWO_TO_32, done[|done| - 1].1)]
  }

  lemma {:induction false} SentExtent(done: seq<(nat, Digest)>)
    ensures Extent(Sent(done)) <= TWO_TO_32
    ensures Extent(done) <= TWO_TO_32 ==> Sent(done) == done
  {
    if |done| > 0 {
      var front, last := done[..|done| - 1], done[|done| - 1];
      SentExtent(front);
      var sent := (last.0 % TWO_TO_32, last.1);
      assert (Sent(front) + [sent])[..|Sent(front)|] == Sent(front);
      assert done == front + [last];
    }
  }

  /** Whatever the workers do and in whatever order they finish, and however short the
      reads, the payload is prepared as if it had been done in one go by one, exactly when
      its chunks can be numbered by a `u32`. */
  method Compute(p: Payload, workers: nat, f: Reader) returns (r: Option<Prepared>)
    requires workers > 0
    requires f.data == p.data && f.pos == 0 && !f.failed
    modifies f
    ensures !f.failed ==> (r == Some(PreparedOf(p)) <==> p.Pieces() <= TWO_TO_32)
    ensures f.failed ==> r == None
  {
    hide Payload.Pieces, Run, Payload.Piece;
    var s := Idle(workers);
    ghost var schedule: seq<Action> := [];
    assert s == Run(p, workers, []) by { RunNothing(p, workers); }
    var idx := 0;
    PieceEmpty(p, 0);
    while true
      invariant !f.failed && |s.held| == workers && s.fed == idx <= p.Pieces()
      invariant f.data == p.data && f.pos == Min(idx * CHUNK_SIZE, |p.data|)
      invariant s == Run(p, workers, schedule)
      decreases p.Pieces() - idx
    {
      var buf := new byte[CHUNK_SIZE](_ => 0);
      var n := Fill(f, buf);
      if f.failed { return None; }
      PieceEmpty(p, idx);
      assert buf[..n] == p.Piece(idx);
      if n == 0 { break; }
      s, schedule := LetFinish(p, workers, s, schedule, idx % workers);
      RunOne(p, workers, schedule, Feed);
      s, schedule := Pipeline(s.fed + 1, s.held[idx % workers := Some(Job(idx, buf[..n]))], s.done), schedule + [Feed];
      idx := idx + 1;
    }
    var w := 0;
    while w < workers
      invariant 0 <= w <= workers && |s.held| == workers && s.fed == p.Pieces() && !f.failed
      invariant forall v :: 0 <= v < w ==> s.held[v].None?
      invariant s == Run(p, workers, schedule)
    {
      s, schedule := LetFinish(p, workers, s, schedule, w);
      w := w + 1;
    }
    FinishedReports(p, workers, schedule);
    SentExtent(s.done);
    r := Collect(|p.data|, p.Total(), Sent(s.done));
    PreparedShape(p);
    if p.Pieces() <= TWO_TO_32 {
      assert r.Some? && r.value.chunks == PreparedOf(p).chunks;
    }
  }

  lemma RunNothing(p: Payload, workers: nat)
    ensures Run(p, workers, []) == Idle(workers)
  {
  }

  /** `from_digests`: refused unless the list is as long as the size says. */
  method FromDigests(totalSize: nat, chunks: seq<Digest>) returns (r: Option<Prepared>)
    ensures r == if CeilDiv(totalSize, CHUNK_SIZE) % TWO_TO_32 == |chunks|
                 then Some(Prepared(totalSize, |chunks|, chunks, IndexOf(chunks))) else None
  {
    var totalChunks := CeilDiv(totalSize, CHUNK_SIZE) % TWO_TO_32;
    if totalChunks != |chunks| { return None; }
    var index: map<Digest, nat> := map[];
    for i := 0 to |chunks|
      invariant index == IndexOf(chunks[..i])
    {
      assert chunks[..i + 1][..i] == chunks[..i];
      index := index[chunks[i] := i];
    }
    assert chunks[..|chunks|] == chunks;
    return Some(Prepared(totalSize, totalChunks, chunks, index));
  }

  /** Rebuilding from a preparation's digests is accepted exactly when the chunk count did
      not wrap, and then it is that preparation again. */
  lemma DigestsRebuild(p: Payload)
    ensures var made := PreparedOf(p);
      && (CeilDiv(made.totalSize, CHUNK_SIZE) % TWO_TO_32 == |made.chunks| <==> p.Pieces() < TWO_TO_32)
      && (p.Pieces() < TWO_TO_32 ==>
            made == Prepared(made.totalSize, |made.chunks|, made.chunks, IndexOf(made.chunks)))
  {
  }

  // ---- regenerating a chunk ---------------------------------------------------------------

  lemma PreparedShape(p: Payload)
    ensures var made := PreparedOf(p);
      && |made.chunks| == p.Pieces() && made.totalChunks == p.Total() && made.index == IndexOf(made.chunks)
      && forall i: nat :: i < p.Pieces() ==> made.chunks[i] == p.DigestAt(i)
  {
  }

  /** `ChunkBackend::OnTheFly`: the sender's file, read again where the digest says. */
  method ProduceOnTheFly(p: Payload, made: Prepared, f: Reader, hash: Digest) returns (ct: Option<seq<byte>>)
    requires f.data == p.data && made == PreparedOf(p)
    modifies f`failed
    ensures (old(f.failed) ==> f.failed) && (f.failed ==> ct.None?)
    ensures !f.failed ==> (ct.Some? <==> hash in made.chunks)
    ensures !f.failed && ct.Some? ==> p.hash(ct.value) == hash
    ensures !f.failed && ct.Some? ==> exists i: nat :: i < |made.chunks| && made.chunks[i] == hash && ct.value == p.Ciphertext(i)
  {
    hide SealChunk, ReadAt, IndexOf, CeilDiv;
    PreparedShape(p);
    IndexInverts(made.chunks, hash);
    if hash !in made.index { return None; }
    var idx := made.index[hash];
    var buf := new byte[CHUNK_SIZE](_ => 0);
    var n := ReadFullAt(f, buf, idx * CHUNK_SIZE);
    if f.failed { return None; }
    ct := Some(SealChunk(p.gcm, p.key, idx % TWO_TO_32, made.totalChunks, buf[..n]));
    assert buf[..n] == p.Piece(idx);
    assert made.chunks[idx] == p.DigestAt(idx) && ct.value == p.Ciphertext(idx);
  }

  /** Piece `i` of the payload is on a receiver's disk. */
  predicate OnDisk(p: Payload, disk: seq<byte>, i: nat) {
    ReadAt(disk, i * CHUNK_SIZE, CHUNK_SIZE) == p.Piece(i)
  }

  /** `ChunkBackend::Reseal`: a receiver's own file, for a piece it has verified. */
  method ProduceReseal(p: Payload, made: Prepared, f: Reader, have: set<nat>, hash: Digest) returns (ct: Option<seq<byte>>)
    requires made == PreparedOf(p) && forall i :: i in have ==> OnDisk(p, f.data, i)
    modifies f
    ensures (old(f.failed) ==> f.failed) && (f.failed ==> ct.None?)
    ensures !f.failed ==> (ct.Some? <==> hash in made.index && made.index[hash] in have)
    ensures !f.failed && ct.Some? ==> p.hash(ct.value) == hash
    ensures !f.failed && ct.Some? ==> exists i: nat :: i < |made.chunks| && made.chunks[i] == hash && ct.value == p.Ciphertext(i)
  {
    hide SealChunk, ReadAt, IndexOf, CeilDiv;
    PreparedShape(p);
    IndexInverts(made.chunks, hash);
    if hash !in made.index { return None; }
    var idx := made.index[hash];
    if idx !in have { return None; }
    f.pos := idx * CHUNK_SIZE;
    var buf := new byte[CHUNK_SIZE](_ => 0);
    var n := Fill(f, buf);
    if f.failed { return None; }
    ct := Some(SealChunk(p.gcm, p.key, idx % TWO_TO_32, made.totalChunks, buf[..n]));
    assert OnDisk(p, f.data, idx);
    assert buf[..n] == p.Piece(idx);
    assert made.chunks[idx] == p.DigestAt(idx) && ct.value == p.Ciphertext(idx);
  }

  ghost predicate Collisionless(hash: seq<byte> -> Digest) {
    forall x: seq<byte>, y: seq<byte> :: hash(x) == hash(y) ==> x == y
  }

  /** With a hash that does not collide, what regenerates to a digest is what the hashing
      pass sealed at every place that has it, repeats included. */
  lemma RegeneratedIsOriginal(p: Payload, ct: seq<byte>, i: nat)
    requires Collisionless(p.hash) && i < |PreparedOf(p).chunks| && p.hash(ct) == PreparedOf(p).chunks[i]
    ensures ct == p.Ciphertext(i)
  {
    assert PreparedOf(p).chunks[i] == p.hash(p.Ciphertext(i));
  }
}
