/** Where every byte of a deposit's ciphertext comes from, so that any of them can be made
    without the others (core/src/upload.rs, `SealedLayout`). */
module SealedLayout {
  import opened Bytes
  import opened Aead

  /** A positional read that runs to the end of the buffer or of the file. */
  function ReadAt(file: seq<byte>, offset: nat, want: nat): (got: seq<byte>)
    ensures |got| <= want
    ensures |got| == want <==> want == 0 || offset + want <= |file|
  {
    if offset >= |file| then [] else file[offset..Min(offset + want, |file|)]
  }

  datatype Layout = Layout(
    gcm: Gcm,
    key: Key,
    file: seq<byte>,    // what the source holds when it is read
    chunkSize: nat,
    size: nat,          // what the source held when the layout was made
    prefix: seq<byte>,
    lenPrefixed: bool,
    total: nat)         // chunk count
  {
    /** What construction guarantees of the chunk count (see `New`). */
    predicate Valid() {
      chunkSize > 0 && total < TWO_TO_32 && (total > 0 ==> (total - 1) * chunkSize < size)
    }

    /** The counted chunks cover the file: the count did not wrap. */
    predicate Fits() {
      size <= total * chunkSize
    }

    /** Dividing an offset by the first unit's length finds the right unit. */
    predicate Divisible() {
      Fits() || total == 1
    }

    function Framing(): nat {
      if lenPrefixed then 4 else 0
    }

    function Len(): nat {
      |prefix| + size + total * (TAG + Framing())
    }

    function PlainLen(i: nat): nat
      requires Valid()
    {
      if i + 1 == total then size - i * chunkSize else chunkSize
    }

    function UnitLen(i: nat): nat
      requires Valid()
    {
      PlainLen(i) + TAG + Framing()
    }

    /** Chunk `i` read and sealed, length-prefixed where the layout is; `None`
        when the file has become too short to hold it. */
    function Unit(i: nat): Option<seq<byte>>
      requires Valid()
    {
      var plain := ReadAt(file, i * chunkSize, PlainLen(i));
      if |plain| != PlainLen(i) then None
      else
        var ct := SealChunk(gcm, key, i, total, plain);
        Some(if lenPrefixed then Le(|ct|, 4) + ct else ct)
    }

    function UnitBytes(i: nat): seq<byte>
      requires Valid()
    {
      if Unit(i).Some? then Unit(i).value else []
    }

    /** The container up to and including unit `n - 1`. */
    function Body(n: nat): seq<byte>
      requires Valid()
    {
      if n == 0 then prefix else Body(n - 1) + UnitBytes(n - 1)
    }

    /** Every byte of the container the file can still produce. */
    function Whole(): seq<byte>
      requires Valid()
    {
      Body(total)
    }

    /** The file still holds everything the layout promised. */
    predicate Complete() {
      size <= |file|
    }

    /** How many units, from the front, the file can still produce. */
    function Readable(): nat
      requires Valid()
    {
      if Complete() || total == 0 then total else Min(total - 1, |file| / chunkSize)
    }

    /** The pieces of `stream` from byte `pos` of unit `i` on, joined, and whether
        the stream ended in a read failure. */
    function StreamFrom(pos: nat, i: nat, skip: nat, to: nat): (seq<byte>, bool)
      requires Valid()
      decreases total - i
    {
      if pos >= to || i >= total then ([], false)
      else if Unit(i).None? then ([], true)
      else
        var unit := Unit(i).value;
        var start := Min(skip, |unit|);
        var end := Min(start + (to - pos), |unit|);
        var rest := StreamFrom(pos + (end - start), i + 1, 0, to);
        (unit[start..end] + rest.0, rest.1)
    }

    /** Where `stream` starts: the quotient and the remainder of how far `pos` is past the
        prefix, by the length of a full unit; the quotient is cut to a `u32`. */
    function FirstUnit(pos: nat): (nat, nat)
      requires Valid() && |prefix| <= pos
    {
      var full := UnitLen(0);
      ((pos - |prefix|) / full % TWO_TO_32, (pos - |prefix|) % full)
    }

    function StreamUnits(pos: nat, to: nat): (seq<byte>, bool)
      requires Valid() && |prefix| <= pos
    {
      if pos >= to then ([], false)
      else
        var (i, skip) := FirstUnit(pos);
        StreamFrom(pos, i, skip, to)
    }

    /** The bytes `stream(from, to)` yields, joined, and whether it failed. */
    function StreamBytes(from: nat, to: nat): (seq<byte>, bool)
      requires Valid()
    {
      var to := Min(to, Len());
      if from < |prefix| && from < to then
        var end := Min(to, |prefix|);
        var rest := StreamUnits(Max(end, |prefix|), to);
        (prefix[from..end] + rest.0, rest.1)
      else StreamUnits(Max(from, |prefix|), to)
    }
  }

  /** `SealedLayout::new`: the chunk count is a `u32` and wraps. */
  function New(gcm: Gcm, key: Key, file: seq<byte>, chunkSize: nat, size: nat,
               prefix: seq<byte>, lenPrefixed: bool): (l: Layout)
    requires chunkSize > 0
  {
    Layout(gcm, key, file, chunkSize, size, prefix, lenPrefixed,
           CeilDiv(size, chunkSize) % TWO_TO_32)
  }

  lemma NewIsValid(gcm: Gcm, key: Key, file: seq<byte>, chunkSize: nat, size: nat,
                   prefix: seq<byte>, lenPrefixed: bool)
    requires chunkSize > 0
    ensures var l := New(gcm, key, file, chunkSize, size, prefix, lenPrefixed);
      && l.Valid()
      && (l.Fits() <==> CeilDiv(size, chunkSize) < TWO_TO_32)
      && (!l.Fits() ==> l.total * chunkSize + chunkSize * (TWO_TO_32 - 1) < size)
  {
    var total := New(gcm, key, file, chunkSize, size, prefix, lenPrefixed).total;
    var all := CeilDiv(size, chunkSize);
    CeilDivBounds(size, chunkSize);
    assert (all - 1) * chunkSize == all * chunkSize - chunkSize;
    if total > 0 { MulMono(total - 1, all - 1, chunkSize); }
    if all >= TWO_TO_32 {
      MulMono(total + TWO_TO_32 - 1, all - 1, chunkSize);
      assert (total + TWO_TO_32 - 1) * chunkSize == total * chunkSize + chunkSize * (TWO_TO_32 - 1);
    }
  }

  // ---- where the units lie ---------------------------------------------------

  /** Where unit `i` starts: every unit before it is full-sized. */
  function Position(l: Layout, i: nat): nat {
    |l.prefix| + i * (l.chunkSize + TAG + l.Framing())
  }

  lemma PositionStep(l: Layout, i: nat)
    ensures Position(l, i + 1) == Position(l, i) + l.chunkSize + TAG + l.Framing()
    ensures Position(l, 0) == |l.prefix|
  {
  }

  lemma PositionMono(l: Layout, i: nat, j: nat)
    requires i <= j
    ensures Position(l, i) <= Position(l, j)
  {
    MulMono(i, j, l.chunkSize + TAG + l.Framing());
  }

  lemma UnitLenShape(l: Layout, i: nat)
    requires l.Valid() && i < l.total
    ensures i + 1 < l.total ==> l.UnitLen(i) == l.chunkSize + TAG + l.Framing()
    ensures l.Fits() ==> l.UnitLen(i) <= l.chunkSize + TAG + l.Framing()
    ensures !l.Fits() ==> l.UnitLen(l.total - 1) > l.chunkSize + TAG + l.Framing()
    ensures l.UnitLen(i) > TAG
  {
    assert (l.total - 1) * l.chunkSize + l.chunkSize == l.total * l.chunkSize;
  }

  lemma UnitReadable(l: Layout, i: nat)
    requires l.Valid() && i < l.total
    ensures l.Unit(i).Some? <==> i < l.Readable()
  {
    var cs := l.chunkSize;
    assert i * cs + cs == (i + 1) * cs;
    QuotientBound(i + 1, |l.file|, cs);
    MulMono(i + 1, l.total, cs);
    if i + 1 < l.total {
      MulMono(i + 1, l.total - 1, cs);
    }
  }

  lemma UnitSize(l: Layout, i: nat)
    requires l.Valid() && l.gcm.Sound() && l.Unit(i).Some?
    ensures |l.Unit(i).value| == l.UnitLen(i)
  {
    hide SealChunk, OpenChunk;
    SealOpens(l.gcm, l.key, i, l.total, ReadAt(l.file, i * l.chunkSize, l.PlainLen(i)));
  }

  lemma {:induction false} BodyGrows(l: Layout, m: nat, n: nat)
    requires l.Valid() && m <= n
    ensures l.Body(m) <= l.Body(n)
  {
    if m < n { BodyGrows(l, m, n - 1); }
  }

  lemma {:induction false} BodyStops(l: Layout, n: nat)
    requires l.Valid() && l.Readable() <= n <= l.total
    ensures l.Body(n) == l.Body(l.Readable())
  {
    if n > l.Readable() {
      BodyStops(l, n - 1);
      UnitReadable(l, n - 1);
    }
  }

  lemma {:induction false} BodyLen(l: Layout, n: nat)
    requires l.Valid() && l.gcm.Sound() && n <= l.Readable() && n < l.total
    ensures |l.Body(n)| == Position(l, n)
  {
    if n > 0 {
      BodyLen(l, n - 1);
      UnitReadable(l, n - 1);
      UnitSize(l, n - 1);
      UnitLenShape(l, n - 1);
      PositionStep(l, n - 1);
    }
  }

  /** Where unit `i` sits in the container. */
  lemma UnitInWhole(l: Layout, i: nat)
    requires l.Valid() && l.gcm.Sound() && i < l.Readable()
    ensures l.Unit(i).Some? && |l.Unit(i).value| == l.UnitLen(i)
    ensures Position(l, i) + l.UnitLen(i) <= |l.Whole()|
    ensures l.Whole()[Position(l, i)..Position(l, i) + l.UnitLen(i)] == l.Unit(i).value
  {
    BodyLen(l, i);
    UnitReadable(l, i);
    UnitSize(l, i);
    BodyGrows(l, i + 1, l.total);
    assert l.Body(i + 1) == l.Body(i) + l.Unit(i).value;
    hide Layout.Unit, Layout.UnitLen, Layout.Body, Position;
    AfterHead(l.Whole(), l.Body(i), l.Unit(i).value);
  }

  lemma AfterHead<T>(whole: seq<T>, head: seq<T>, part: seq<T>)
    requires head + part <= whole
    ensures |head| + |part| <= |whole| && whole[|head|..|head| + |part|] == part
  {
    assert whole[..|head + part|] == head + part;
  }

  /** `len()` is what the units add up to, unless the chunk count wrapped to zero. */
  lemma LenOfLastUnit(l: Layout)
    requires l.Valid() && l.total > 0
    ensures l.Len() == Position(l, l.total - 1) + l.UnitLen(l.total - 1)
  {
    var n := l.total - 1;
    var over := TAG + l.Framing();
    assert n * (l.chunkSize + over) == n * l.chunkSize + n * over;
    assert l.total * over == n * over + over;
  }

  lemma WholeLen(l: Layout)
    requires l.Valid() && l.gcm.Sound()
    ensures l.total > 0 || l.size == 0 ==> |l.Whole()| <= l.Len()
    ensures l.total > 0 || l.size == 0 ==> (|l.Whole()| == l.Len() <==> l.Complete())
    ensures l.total == 0 ==> l.Whole() == l.prefix
    ensures l.prefix <= l.Whole()
    ensures l.Readable() < l.total ==> |l.Whole()| == Position(l, l.Readable())
  {
    BodyGrows(l, 0, l.total);
    if l.total > 0 {
      LenOfLastUnit(l);
      if l.Complete() {
        BodyLen(l, l.total - 1);
        UnitReadable(l, l.total - 1);
        UnitSize(l, l.total - 1);
      } else {
        BodyStops(l, l.total);
        BodyLen(l, l.Readable());
        PositionMono(l, l.Readable(), l.total - 1);
        UnitLenShape(l, l.total - 1);
      }
    }
  }

  // ---- any range of it can be made alone ---------------------------------------

  /** What `stream(from, to)` is for: the bytes of the container in that range,
      stopping with a failure where the file ends too soon. */
  function RangeOfWhole(l: Layout, from: nat, to: nat): (seq<byte>, bool)
    requires l.Valid()
  {
    var whole := l.Whole();
    var end := Min(to, l.Len());
    if from >= end then ([], false)
    else if end <= |whole| then (whole[from..end], false)
    else (whole[Min(from, |whole|)..], true)
  }

  /** Ranges that meet join. */
  lemma RangeJoin(l: Layout, from: nat, mid: nat, to: nat)
    requires l.Valid() && from < mid <= to <= l.Len() && mid <= |l.Whole()|
    ensures RangeOfWhole(l, from, to)
         == (l.Whole()[from..mid] + RangeOfWhole(l, mid, to).0, RangeOfWhole(l, mid, to).1)
  {
    var whole := l.Whole();
    if to <= |whole| {
      assert whole[from..to] == whole[from..mid] + whole[mid..to];
    } else {
      assert whole[from..] == whole[from..mid] + whole[mid..];
    }
  }

  /** One turn of the streaming loop, on a unit the file can produce. */
  lemma StreamStep(l: Layout, pos: nat, i: nat, skip: nat, to: nat)
    requires l.Valid() && l.gcm.Sound() && l.Divisible() && i < l.Readable() && to <= l.Len()
    requires pos == Position(l, i) + skip && pos < to && skip < l.UnitLen(i)
    ensures var next := Min(to, Position(l, i) + l.UnitLen(i));
      && pos < next <= |l.Whole()|
      && (next < to ==> i + 1 < l.total && next == Position(l, i + 1))
      && l.StreamFrom(pos, i, skip, to)
         == (l.Whole()[pos..next] + l.StreamFrom(next, i + 1, 0, to).0, l.StreamFrom(next, i + 1, 0, to).1)
  {
    UnitInWhole(l, i);
    var unit := l.Unit(i).value;
    var end := Min(skip + (to - pos), |unit|);
    var next := Min(to, Position(l, i) + l.UnitLen(i));
    SubSlice(l.Whole(), Position(l, i), Position(l, i) + l.UnitLen(i), skip, end);
    LenOfLastUnit(l);
    UnitLenShape(l, i);
    PositionStep(l, i);
  }

  lemma {:induction false} StreamFromIsRange(l: Layout, pos: nat, i: nat, skip: nat, to: nat)
    requires l.Valid() && l.gcm.Sound() && l.Divisible() && i < l.total && to <= l.Len()
    requires pos == Position(l, i) + skip && pos < to && skip < l.UnitLen(i)
    ensures l.StreamFrom(pos, i, skip, to) == RangeOfWhole(l, pos, to)
    decreases l.total - i
  {
    if i >= l.Readable() {
      UnitReadable(l, i);
      WholeLen(l);
      PositionMono(l, l.Readable(), i);
    } else {
      StreamStep(l, pos, i, skip, to);
      var next := Min(to, Position(l, i) + l.UnitLen(i));
      if next < to {
        UnitLenShape(l, i + 1);
        StreamFromIsRange(l, next, i + 1, 0, to);
      }
      RangeJoin(l, pos, next, to);
    }
  }

  lemma DivideRange(rel: nat, full: nat, last: nat, lastLen: nat)
    requires 0 < lastLen <= full && rel < last * full + lastLen
    ensures var n := rel / full; var skip := rel % full;
      && rel == n * full + skip && skip < full
      && n <= last && (n == last ==> skip < lastLen)
  {
    assert last * full + full == (last + 1) * full;
    QuotientBound(last + 1, rel, full);
  }

  /** Dividing by the first unit's length finds the unit that holds `pos`. */
  lemma UnitHolding(l: Layout, pos: nat) returns (n: nat, skip: nat)
    requires l.Valid() && l.Divisible() && |l.prefix| <= pos < l.Len()
    ensures n == (pos - |l.prefix|) / l.UnitLen(0) && skip == (pos - |l.prefix|) % l.UnitLen(0)
    ensures n < l.total && pos == Position(l, n) + skip && skip < l.UnitLen(n)
  {
    LenOfLastUnit(l);
    UnitLenShape(l, 0);
    UnitLenShape(l, l.total - 1);
    n, skip := UnitHoldingRel(l, pos - |l.prefix|, l.UnitLen(0), l.total - 1);
    UnitLenShape(l, n);
  }

  lemma UnitHoldingRel(l: Layout, rel: nat, full: nat, last: nat) returns (n: nat, skip: nat)
    requires l.Valid() && last + 1 == l.total && full == l.UnitLen(0) > 0
    requires last > 0 ==> 0 < l.UnitLen(last) <= full == l.chunkSize + TAG + l.Framing()
    requires |l.prefix| + rel < Position(l, last) + l.UnitLen(last)
    ensures n == rel / full && skip == rel % full
    ensures n <= last && |l.prefix| + rel == Position(l, n) + skip && skip < full
    ensures n == last ==> skip < l.UnitLen(last)
  {
    hide Layout.UnitLen, Layout.Framing, Layout.Valid, Position;
    PositionStep(l, 0);
    if last == 0 {
      DivModUnique(0, rel, full);
      n, skip := 0, rel;
    } else {
      PositionOf(l, last, full);
      DivideRange(rel, full, last, l.UnitLen(last));
      n, skip := rel / full, rel % full;
      PositionOf(l, n, full);
    }
  }

  lemma PositionOf(l: Layout, n: nat, full: nat)
    requires full == l.chunkSize + TAG + l.Framing()
    ensures Position(l, n) == |l.prefix| + n * full
  {
  }

  lemma FirstUnitHolds(l: Layout, pos: nat) returns (n: nat, skip: nat)
    requires l.Valid() && l.Divisible() && |l.prefix| <= pos < l.Len()
    ensures (n, skip) == l.FirstUnit(pos)
    ensures n < l.total && pos == Position(l, n) + skip && skip < l.UnitLen(n)
  {
    n, skip := UnitHolding(l, pos);
    assert n % TWO_TO_32 == n;
  }

  lemma UnitsAreRange(l: Layout, pos: nat, to: nat)
    requires l.Valid() && l.gcm.Sound() && l.Divisible() && |l.prefix| <= pos && to <= l.Len()
    ensures l.StreamUnits(pos, to) == RangeOfWhole(l, pos, to)
  {
    if pos < to {
      var n, skip := FirstUnitHolds(l, pos);
      StreamFromIsRange(l, pos, n, skip, to);
    }
  }

  /** Any byte range of the container can be regenerated alone. */
  lemma StreamIsRange(l: Layout, from: nat, to: nat)
    requires l.Valid() && l.gcm.Sound() && l.Divisible()
    ensures l.StreamBytes(from, to) == RangeOfWhole(l, from, to)
  {
    WholeLen(l);
    var end := Min(to, l.Len());
    if from < |l.prefix| && from < end {
      var cut := Min(end, |l.prefix|);
      UnitsAreRange(l, |l.prefix|, end);
      assert l.prefix[from..cut] == l.Whole()[from..cut];
      RangeJoin(l, from, cut, end);
    } else {
      UnitsAreRange(l, Max(from, |l.prefix|), end);
    }
  }

  /** The layout keeps its promises: `len()` is right, and every range streams. */
  ghost predicate Regenerates(l: Layout)
    requires l.Valid()
  {
    && |l.Whole()| == l.Len()
    && forall from: nat, to: nat :: l.StreamBytes(from, to) == RangeOfWhole(l, from, to)
  }

  /** Exactly when the promises hold of a file that is all there. */
  lemma RegeneratesIff(l: Layout)
    requires l.Valid() && l.gcm.Sound() && l.Complete()
    ensures Regenerates(l) <==> l.Fits() || l.total == 1
  {
    WholeLen(l);
    if l.Divisible() {
      forall from: nat, to: nat ensures l.StreamBytes(from, to) == RangeOfWhole(l, from, to) {
        StreamIsRange(l, from, to);
      }
    } else if l.total > 1 {
      WrappedCountLosesTail(l);
    }
  }

  /** With a wrapped count the last unit is oversized, and the division looks for
      its tail in a unit that does not exist. */
  lemma WrappedCountLosesTail(l: Layout)
    requires l.Valid() && l.gcm.Sound() && l.Complete() && !l.Fits() && l.total > 1
    ensures Position(l, l.total) < l.Len()
    ensures l.StreamBytes(Position(l, l.total), l.Len()) == ([], false)
    ensures RangeOfWhole(l, Position(l, l.total), l.Len()).0 != []
  {
    var from := Position(l, l.total);
    WholeLen(l);
    LenOfLastUnit(l);
    UnitLenShape(l, l.total - 1);
    PositionStep(l, l.total - 1);
    PositionMono(l, 0, l.total);
    FirstUnitOfPosition(l);
  }

  lemma FirstUnitOfPosition(l: Layout)
    requires l.Valid() && l.total > 1
    ensures Position(l, l.total) >= |l.prefix|
    ensures l.FirstUnit(Position(l, l.total)).0 == l.total
  {
    var full := l.chunkSize + TAG + l.Framing();
    UnitLenShape(l, 0);
    BeyondLastUnit(l.total, full);
  }

  lemma BeyondLastUnit(total: nat, full: nat)
    requires total < TWO_TO_32 && full > 0
    ensures total * full / full % TWO_TO_32 == total
  {
    DivModUnique(total, 0, full);
    assert total * full == total * full + 0;
  }

  // ---- progress ----------------------------------------------------------------

  /** How far into the file `cipher` bytes of container reach. */
  function PlainOffset(l: Layout, cipher: nat): nat {
    if l.Len() == 0 then 0 else Share(Min(cipher, l.Len()), l.size, l.Len())
  }

  function Share(part: nat, of: nat, whole: nat): nat
    requires whole > 0
  {
    part * of / whole
  }

  /** The progress bar starts at nothing, never goes back and ends at the file. */
  lemma PlainOffsetIsProgress(l: Layout, a: nat, b: nat)
    requires a <= b
    ensures PlainOffset(l, 0) == 0
    ensures PlainOffset(l, a) <= PlainOffset(l, b) <= l.size
    ensures b >= l.Len() ==> PlainOffset(l, b) == l.size
  {
    var len := l.Len();
    if len > 0 {
      var x, y := Min(a, len), Min(b, len);
      MulMono(x, y, l.size);
      MulMono(y, len, l.size);
      DivMono(x * l.size, y * l.size, len);
      DivMono(y * l.size, len * l.size, len);
      DivModUnique(l.size, 0, len);
      assert len * l.size == l.size * len + 0;
      assert 0 * l.size == 0;
    } else {
      assert l.size == 0;
    }
  }

  /** And in between it is in proportion, rounded down. */
  lemma PlainOffsetIsShare(l: Layout, cipher: nat)
    requires cipher <= l.Len() && l.Len() > 0
    ensures PlainOffset(l, cipher) * l.Len() <= cipher * l.size < (PlainOffset(l, cipher) + 1) * l.Len()
  {
    var q, len := PlainOffset(l, cipher), l.Len();
    QuotientBound(q, cipher * l.size, len);
    QuotientBound(q + 1, cipher * l.size, len);
  }

  // ---- the loops ---------------------------------------------------------------

  /** `SealedLayout::to_vec`: it fails exactly when the file cannot fill every unit. */
  method ToVec(l: Layout) returns (out: Option<seq<byte>>)
    requires l.Valid()
    ensures out == if l.Readable() == l.total then Some(l.Whole()) else None
  {
    var acc := l.prefix;
    var i := 0;
    while i < l.total
      invariant 0 <= i <= l.total && i <= l.Readable()
      invariant acc == l.Body(i)
    {
      UnitReadable(l, i);
      var unit := l.Unit(i);
      if unit.None? {
        return None;
      }
      acc := acc + unit.value;
      i := i + 1;
    }
    return Some(acc);
  }

  /** `SealedLayout::stream`: the pieces in the order they are yielded, and whether
      the last thing yielded was a read failure. */
  method Stream(l: Layout, from: nat, to: nat) returns (pieces: seq<seq<byte>>, fault: bool)
    requires l.Valid()
    ensures (Flatten(pieces), fault) == l.StreamBytes(from, to)
  {
    hide Layout.FirstUnit, Layout.Len, Layout.Framing, Layout.UnitLen, Layout.Unit, Layout.StreamFrom;
    var to: nat := Min(to, l.Len());
    var pos: nat, plen := from, |l.prefix|;
    var head := [];
    if pos < plen && pos < to {
      var end := Min(to, plen);
      head := [l.prefix[pos..end]];
      pos := end;
    }
    assert Flatten(head) == if head == [] then [] else head[0];
    if pos >= to {
      assert Flatten(head) + [] == Flatten(head);
      return head, false;
    }
    var (i, skip) := l.FirstUnit(pos);
    assert Flatten(head) + l.StreamFrom(pos, i, skip, to).0
        == if head == [] then l.StreamFrom(pos, i, skip, to).0
           else head[0] + l.StreamFrom(pos, i, skip, to).0;
    pieces, fault := StreamLoop(l, head, pos, i, skip, to);
  }

  /** Its loop over the units: `pos`, `i` and `skip` say where it stands. */
  method StreamLoop(l: Layout, head: seq<seq<byte>>, pos0: nat, i0: nat, skip0: nat, to: nat)
    returns (pieces: seq<seq<byte>>, fault: bool)
    requires l.Valid()
    ensures var rest := l.StreamFrom(pos0, i0, skip0, to);
      Flatten(pieces) == Flatten(head) + rest.0 && fault == rest.1
  {
    hide Layout.Unit;
    ghost var all := l.StreamFrom(pos0, i0, skip0, to);
    var pos: nat, i: nat, skip: nat := pos0, i0, skip0;
    pieces, fault := head, false;
    while pos < to && i < l.total
      invariant Flatten(head) + all.0 == Flatten(pieces) + l.StreamFrom(pos, i, skip, to).0
      invariant all.1 == l.StreamFrom(pos, i, skip, to).1
      decreases l.total - i
    {
      var made := l.Unit(i);
      if made.None? {
        return pieces, true;
      }
      var unit := made.value;
      var start := Min(skip, |unit|); // never past the end on a divisible layout
      var end := Min(start + (to - pos), |unit|);
      var piece := unit[start..end];
      FlattenSnoc(pieces, piece);
      AppendAssoc(Flatten(pieces), piece, l.StreamFrom(pos + (end - start), i + 1, 0, to).0);
      pieces := pieces + [piece];
      pos := pos + (end - start);
      skip := 0;
      i := i + 1;
    }
  }
}
