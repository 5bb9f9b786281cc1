/** The address book as a CRDT (core/src/sync.rs): its clock, its registers, the rules
    that merge them and the laws those rules obey. */
module Sync {
  import opened Bytes

  /** A Rust `String`: its UTF-8 bytes, which is how strings compare. */
  type Text = seq<byte>

  type DeviceId = seq<byte>

  // ---- clocks ----------------------------------------------------------------

  predicate LexLess(a: seq<byte>, b: seq<byte>) {
    if |b| == 0 then false
    else if |a| == 0 then true
    else a[0] < b[0] || (a[0] == b[0] && LexLess(a[1..], b[1..]))
  }

  lemma {:induction false} LexTotal(a: seq<byte>, b: seq<byte>)
    ensures LexLess(a, b) || a == b || LexLess(b, a)
    ensures !(LexLess(a, b) && LexLess(b, a)) && !(a == b && LexLess(a, b))
  {
    if |a| > 0 && |b| > 0 {
      LexTotal(a[1..], b[1..]);
      assert a == [a[0]] + a[1..] && b == [b[0]] + b[1..];
    }
  }

  /** They agree up to `i`, where `a` ends or has the smaller byte. */
  predicate LessAt(a: seq<byte>, b: seq<byte>, i: nat) {
    i <= |a| && i < |b| && a[..i] == b[..i] && (i == |a| || a[i] < b[i])
  }

  lemma AgreeFrom(a: seq<byte>, b: seq<byte>, i: nat)
    requires LessAt(a, b, i)
    ensures i == 0 || (|a| > 0 && |b| > 0 && a[0] == b[0])
  {
    if i > 0 { assert a[..i][0] == a[0] && b[..i][0] == b[0]; }
  }

  /** The order of byte strings is decided where they first differ. */
  lemma {:induction false} LexByFirstDifference(a: seq<byte>, b: seq<byte>)
    ensures LexLess(a, b) <==> exists i: nat :: LessAt(a, b, i)
  {
    if |a| == 0 || |b| == 0 || a[0] != b[0] {
      assert |b| > 0 ==> (LessAt(a, b, 0) <==> LexLess(a, b));
      forall i: nat | LessAt(a, b, i) ensures i == 0 || (|a| > 0 && |b| > 0 && a[0] == b[0]) { AgreeFrom(a, b, i); }
    } else {
      LexByFirstDifference(a[1..], b[1..]);
      if i: nat :| LessAt(a[1..], b[1..], i) {
        assert a[..i + 1] == [a[0]] + a[1..][..i] && b[..i + 1] == [b[0]] + b[1..][..i];
        assert LessAt(a, b, i + 1);
      }
      if i: nat :| LessAt(a, b, i) {
        assert a[1..][..i - 1] == a[..i][1..] && b[1..][..i - 1] == b[..i][1..];
        assert LessAt(a[1..], b[1..], i - 1);
      }
    }
  }

  lemma {:induction false} LexTrans(a: seq<byte>, b: seq<byte>, c: seq<byte>)
    requires LexLess(a, b) && LexLess(b, c)
    ensures LexLess(a, c)
  {
    if |a| > 0 && a[0] == b[0] == c[0] { LexTrans(a[1..], b[1..], c[1..]); }
  }

  datatype Lamport = Lamport(counter: nat, device: DeviceId)

  /** The clock order: by counter, ties broken by device. */
  predicate Before(a: Lamport, b: Lamport) {
    a.counter < b.counter || (a.counter == b.counter && LexLess(a.device, b.device))
  }

  /** The counter decides; at equal counters the device whose id is smaller at the first
      byte where they differ is the earlier one. */
  lemma ClockOrder(a: Lamport, b: Lamport)
    ensures Before(a, b) <==>
      a.counter < b.counter || (a.counter == b.counter && exists i: nat :: LessAt(a.device, b.device, i))
  {
    LexByFirstDifference(a.device, b.device);
  }

  /** Exactly one of earlier, same and later. */
  lemma ClockTotal(a: Lamport, b: Lamport)
    ensures Before(a, b) || a == b || Before(b, a)
    ensures !(Before(a, b) && Before(b, a)) && !(a == b && Before(a, b))
  {
    LexTotal(a.device, b.device);
  }

  lemma ClockTrans(a: Lamport, b: Lamport, c: Lamport)
    requires Before(a, b) && Before(b, c)
    ensures Before(a, c)
  {
    if a.counter == b.counter == c.counter { LexTrans(a.device, b.device, c.device); }
  }

  // ---- device keys -----------------------------------------------------------

  function HexDigit(n: nat): byte
    requires n < 16
  {
    if n < 10 then 48 + n else 87 + n
  }

  /** `device_key`: the id in lowercase hexadecimal. */
  function DeviceKey(id: DeviceId): Text {
    if |id| == 0 then [] else [HexDigit(id[0] / 16), HexDigit(id[0] % 16)] + DeviceKey(id[1..])
  }

  lemma {:induction false} DeviceKeyInjective(a: DeviceId, b: DeviceId)
    ensures DeviceKey(a) == DeviceKey(b) <==> a == b
  {
    if |a| > 0 && |b| > 0 {
      var ka, kb := DeviceKey(a), DeviceKey(b);
      DeviceKeyInjective(a[1..], b[1..]);
      assert ka[2..] == DeviceKey(a[1..]) && kb[2..] == DeviceKey(b[1..]);
      assert a == [a[0]] + a[1..] && b == [b[0]] + b[1..];
      if ka == kb {
        assert ka[0] == HexDigit(a[0] / 16) && kb[0] == HexDigit(b[0] / 16);
        assert ka[1] == HexDigit(a[0] % 16) && kb[1] == HexDigit(b[0] % 16);
        assert a[0] == b[0];
      }
    }
  }

  /** Two characters for a byte, the high half first, each of `0`-`9` or `a`-`f`. */
  lemma {:induction false} DeviceKeyIsHex(id: DeviceId, i: nat)
    requires i < |id|
    ensures |DeviceKey(id)| == 2 * |id|
    ensures IsHexOf(DeviceKey(id)[2 * i], id[i] / 16) && IsHexOf(DeviceKey(id)[2 * i + 1], id[i] % 16)
  {
    if |id| > 1 { DeviceKeyIsHex(id[1..], if i > 0 then i - 1 else 0); }
  }

  /** This character stands for that digit. */
  predicate IsHexOf(c: byte, n: nat) {
    (48 <= c <= 57 && c - 48 == n) || (97 <= c <= 102 && c - 97 + 10 == n)
  }

  // ---- registers -------------------------------------------------------------

  datatype Reg<V> = Reg(value: V, clock: Lamport, deleted: bool)

  datatype AdvertisedName = AdvertisedName(pinned: Text, pending: Option<Text>)

  datatype Device = Device(name: Text, platform: Text, lastSeen: nat)

  datatype Seen = Seen(count: nat, last: nat)

  datatype SelfName = SelfName(name: Text, clock: Lamport)

  datatype State = State(
    contacts: map<Text, Reg<Text>>,
    verified: map<Text, Reg<nat>>,     // a mark's value is when it was made
    trusted: map<Text, Reg<nat>>,
    seen: map<Text, Seen>,
    names: map<Text, Reg<AdvertisedName>>,
    blocked: map<Text, Reg<nat>>,
    relays: map<Text, Reg<Text>>,
    devices: map<Text, Reg<Device>>,
    selfName: Option<SelfName>)

  const EMPTY := State(map[], map[], map[], map[], map[], map[], map[], map[], None)

  // ---- the merge rules -------------------------------------------------------

  /** Contacts, names and relays: the later write, the current row on a tie. */
  function LwwPick<V>(cur: Reg<V>, incoming: Reg<V>): Reg<V> {
    if Before(incoming.clock, cur.clock) || cur.clock == incoming.clock then cur else incoming
  }

  /** Marks and devices: the later write; on a tie a deletion wins. */
  function MarkPick<V>(cur: Reg<V>, incoming: Reg<V>): Reg<V> {
    if Before(incoming.clock, cur.clock) then cur
    else if cur.clock == incoming.clock then
      if incoming.deleted && !cur.deleted then incoming else cur
    else incoming
  }

  function SeenPick(cur: Seen, incoming: Seen): Seen {
    Seen(Max(cur.count, incoming.count), Max(cur.last, incoming.last))
  }

  function Union<V>(pick: (V, V) -> V, a: map<Text, V>, b: map<Text, V>): map<Text, V> {
    map k | k in a.Keys + b.Keys ::
      if k !in b then a[k] else if k !in a then b[k] else pick(a[k], b[k])
  }

  function MergeLww<V>(a: map<Text, Reg<V>>, b: map<Text, Reg<V>>): map<Text, Reg<V>> {
    Union(LwwPick, a, b)
  }

  function MergeMarks<V>(a: map<Text, Reg<V>>, b: map<Text, Reg<V>>): map<Text, Reg<V>> {
    Union(MarkPick, a, b)
  }

  /** A live device row counts only if the machine it describes wrote it. */
  predicate Authored(id: Text, row: Reg<Device>) {
    row.deleted || DeviceKey(row.clock.device) == id
  }

  function OnlyAuthored(m: map<Text, Reg<Device>>): map<Text, Reg<Device>> {
    map id | id in m && Authored(id, m[id]) :: m[id]
  }

  function MergeDevices(a: map<Text, Reg<Device>>, b: map<Text, Reg<Device>>): map<Text, Reg<Device>> {
    MergeMarks(a, OnlyAuthored(b))
  }

  function MergeSelf(a: Option<SelfName>, b: Option<SelfName>): Option<SelfName> {
    if b.None? then a
    else if a.Some? && (Before(b.value.clock, a.value.clock) || a.value.clock == b.value.clock) then a
    else b
  }

  function Merge(a: State, b: State): State {
    State(MergeLww(a.contacts, b.contacts), MergeMarks(a.verified, b.verified),
          MergeMarks(a.trusted, b.trusted), Union(SeenPick, a.seen, b.seen),
          MergeLww(a.names, b.names), MergeMarks(a.blocked, b.blocked),
          MergeLww(a.relays, b.relays), MergeDevices(a.devices, b.devices),
          MergeSelf(a.selfName, b.selfName))
  }

  // ---- clock coherence and well-formedness --------------------------------------

  /** One clock names one row. */
  ghost predicate Agree<V(!new)>(a: map<Text, Reg<V>>, b: map<Text, Reg<V>>) {
    forall k :: k in a && k in b && a[k].clock == b[k].clock ==> a[k] == b[k]
  }

  ghost predicate AgreeSelf(a: Option<SelfName>, b: Option<SelfName>) {
    a.Some? && b.Some? && a.value.clock == b.value.clock ==> a == b
  }

  ghost predicate Coherent(a: State, b: State) {
    && Agree(a.contacts, b.contacts) && Agree(a.verified, b.verified) && Agree(a.trusted, b.trusted)
    && Agree(a.names, b.names) && Agree(a.blocked, b.blocked) && Agree(a.relays, b.relays)
    && Agree(a.devices, b.devices) && AgreeSelf(a.selfName, b.selfName)
  }

  ghost predicate AllAuthored(m: map<Text, Reg<Device>>) {
    forall id :: id in m ==> Authored(id, m[id])
  }

  /** Every live device row was written by the machine it describes. */
  ghost predicate WellFormed(s: State) {
    AllAuthored(s.devices)
  }

  /** Merging anything whatever into a well-formed book leaves it well-formed. */
  lemma MergeKeepsWellFormed(a: State, b: State)
    requires WellFormed(a)
    ensures WellFormed(Merge(a, b))
  {
  }

  /** What a key holds after a mark or device merge: a row one side had, no earlier than
      either, and at equal clocks deleted if either was. */
  lemma MergedMark<V>(a: map<Text, Reg<V>>, b: map<Text, Reg<V>>, k: Text)
    requires k in a && k in b
    ensures var m := MergeMarks(a, b)[k];
      && (m == a[k] || m == b[k]) && !Before(m.clock, a[k].clock) && !Before(m.clock, b[k].clock)
      && (a[k].clock == b[k].clock ==> (m.deleted <==> a[k].deleted || b[k].deleted))
  {
    ClockTotal(a[k].clock, b[k].clock);
    ClockTotal(a[k].clock, a[k].clock);
    ClockTotal(b[k].clock, b[k].clock);
  }

  /** And after a last-writer-wins merge: no earlier than either, the current row at a
      tie. */
  lemma MergedLww<V>(a: map<Text, Reg<V>>, b: map<Text, Reg<V>>, k: Text)
    requires k in a && k in b
    ensures var m := MergeLww(a, b)[k];
      && (m == a[k] || m == b[k]) && !Before(m.clock, a[k].clock) && !Before(m.clock, b[k].clock)
      && (a[k].clock == b[k].clock ==> m == a[k])
  {
    ClockTotal(a[k].clock, b[k].clock);
    ClockTotal(a[k].clock, a[k].clock);
    ClockTotal(b[k].clock, b[k].clock);
  }

  /** What is held at a key: what either side had there. */
  predicate FromEither<V(==)>(a: map<Text, V>, b: map<Text, V>, m: map<Text, V>, k: Text) {
    && (k in m <==> k in a || k in b)
    && (k in m && k !in b ==> m[k] == a[k]) && (k in m && k !in a ==> m[k] == b[k])
  }

  /** A last-writer-wins row: the later of the two, ours at a tie. */
  predicate LaterRow<V(==)>(a: map<Text, Reg<V>>, b: map<Text, Reg<V>>, m: map<Text, Reg<V>>, k: Text) {
    FromEither(a, b, m, k)
    && (k in a && k in b ==> m[k] == if Before(a[k].clock, b[k].clock) then b[k] else a[k])
  }

  /** A mark: the same, but at a tie a removal. */
  predicate LaterMark<V(==)>(a: map<Text, Reg<V>>, b: map<Text, Reg<V>>, m: map<Text, Reg<V>>, k: Text) {
    FromEither(a, b, m, k)
    && (k in a && k in b && a[k].clock != b[k].clock ==> m[k] == if Before(a[k].clock, b[k].clock) then b[k] else a[k])
    && (k in a && k in b && a[k].clock == b[k].clock ==> m[k] == if b[k].deleted && !a[k].deleted then b[k] else a[k])
  }

  /** A count and a date no less than either side's, and no more than both. */
  predicate HigherSeen(a: map<Text, Seen>, b: map<Text, Seen>, m: map<Text, Seen>, k: Text) {
    FromEither(a, b, m, k)
    && (k in a && k in b ==>
          && a[k].count <= m[k].count && b[k].count <= m[k].count && (m[k].count == a[k].count || m[k].count == b[k].count)
          && a[k].last <= m[k].last && b[k].last <= m[k].last && (m[k].last == a[k].last || m[k].last == b[k].last))
  }

  /** The later of two names, ours at a tie. */
  predicate LaterName(a: Option<SelfName>, b: Option<SelfName>, m: Option<SelfName>) {
    m == if a.None? || (b.Some? && Before(a.value.clock, b.value.clock)) then b else a
  }

  /** A device's row: a mark, but theirs takes part only if it is a removal or written
      under the id it is filed at. */
  predicate LaterDevice(a: map<Text, Reg<Device>>, b: map<Text, Reg<Device>>, m: map<Text, Reg<Device>>, k: Text) {
    if k in b && !b[k].deleted && DeviceKey(b[k].clock.device) != k
    then (k in m <==> k in a) && (k in a && k in m ==> m[k] == a[k])
    else LaterMark(a, b, m, k)
  }

  /** Register by register, what a merge of two books holds. */
  lemma MergedRows(a: State, b: State, k: Text)
    ensures var m := Merge(a, b);
      && LaterRow(a.contacts, b.contacts, m.contacts, k) && LaterMark(a.verified, b.verified, m.verified, k)
      && LaterMark(a.trusted, b.trusted, m.trusted, k) && HigherSeen(a.seen, b.seen, m.seen, k)
      && LaterRow(a.names, b.names, m.names, k) && LaterMark(a.blocked, b.blocked, m.blocked, k)
      && LaterRow(a.relays, b.relays, m.relays, k) && LaterDevice(a.devices, b.devices, m.devices, k)
      && LaterName(a.selfName, b.selfName, m.selfName)
  {
    RowsAt(a.contacts, b.contacts, k);
    RowsAt(a.names, b.names, k);
    RowsAt(a.relays, b.relays, k);
    MarksAt(a.verified, b.verified, k);
    MarksAt(a.trusted, b.trusted, k);
    MarksAt(a.blocked, b.blocked, k);
    SeenAt(a.seen, b.seen, k);
    DevicesAt(a.devices, b.devices, k);
    NamesAt(a.selfName, b.selfName);
    hide MergeLww, MergeMarks, MergeDevices, MergeSelf, Union, LaterRow, LaterMark, HigherSeen, LaterDevice, LaterName;
  }

  lemma SeenAt(a: map<Text, Seen>, b: map<Text, Seen>, k: Text)
    ensures HigherSeen(a, b, Union(SeenPick, a, b), k)
  {
  }

  lemma NamesAt(a: Option<SelfName>, b: Option<SelfName>)
    ensures LaterName(a, b, MergeSelf(a, b))
  {
    if a.Some? && b.Some? { ClockTotal(a.value.clock, b.value.clock); }
  }

  lemma DevicesAt(a: map<Text, Reg<Device>>, b: map<Text, Reg<Device>>, k: Text)
    ensures LaterDevice(a, b, MergeDevices(a, b), k)
  {
    MarksAt(a, OnlyAuthored(b), k);
    hide MergeMarks, DeviceKey;
  }

  lemma RowsAt<V>(a: map<Text, Reg<V>>, b: map<Text, Reg<V>>, k: Text)
    ensures LaterRow(a, b, MergeLww(a, b), k)
  {
    if k in a && k in b { ClockTotal(a[k].clock, b[k].clock); }
  }

  lemma MarksAt<V>(a: map<Text, Reg<V>>, b: map<Text, Reg<V>>, k: Text)
    ensures LaterMark(a, b, MergeMarks(a, b), k)
  {
    if k in a && k in b { ClockTotal(a[k].clock, b[k].clock); }
  }

  // ---- idempotence and associativity, of anything --------------------------------

  lemma MergeIdempotent(a: State)
    ensures Merge(a, a) == a
  {
    assert MergeDevices(a.devices, a.devices) == a.devices;
  }

  lemma LwwAssoc<V>(a: map<Text, Reg<V>>, b: map<Text, Reg<V>>, c: map<Text, Reg<V>>)
    ensures MergeLww(MergeLww(a, b), c) == MergeLww(a, MergeLww(b, c))
  {
    forall k | k in a && k in b && k in c
      ensures LwwPick(LwwPick(a[k], b[k]), c[k]) == LwwPick(a[k], LwwPick(b[k], c[k]))
    {
      ThreeClocks(a[k].clock, b[k].clock, c[k].clock);
    }
  }

  lemma MarksAssoc<V>(a: map<Text, Reg<V>>, b: map<Text, Reg<V>>, c: map<Text, Reg<V>>)
    ensures MergeMarks(MergeMarks(a, b), c) == MergeMarks(a, MergeMarks(b, c))
  {
    forall k | k in a && k in b && k in c
      ensures MarkPick(MarkPick(a[k], b[k]), c[k]) == MarkPick(a[k], MarkPick(b[k], c[k]))
    {
      ThreeClocks(a[k].clock, b[k].clock, c[k].clock);
    }
  }

  lemma ThreeClocks(a: Lamport, b: Lamport, c: Lamport)
    ensures Before(a, b) || a == b || Before(b, a)
    ensures Before(b, c) || b == c || Before(c, b)
    ensures Before(a, c) || a == c || Before(c, a)
    ensures !(Before(a, b) && Before(b, a)) && !(Before(b, c) && Before(c, b)) && !(Before(a, c) && Before(c, a))
    ensures Before(a, b) && Before(b, c) ==> Before(a, c)
    ensures Before(c, b) && Before(b, a) ==> Before(c, a)
    ensures !Before(a, a) && !Before(b, b) && !Before(c, c)
  {
    ClockTotal(a, b);
    ClockTotal(b, c);
    ClockTotal(a, c);
    ClockTotal(a, a);
    ClockTotal(b, b);
    ClockTotal(c, c);
    if Before(a, b) && Before(b, c) { ClockTrans(a, b, c); }
    if Before(c, b) && Before(b, a) { ClockTrans(c, b, a); }
  }

  /** The row at `id` whose author the middle book does not vouch for shadows nothing. */
  predicate DeviceAssociates(a: map<Text, Reg<Device>>, b: map<Text, Reg<Device>>, c: map<Text, Reg<Device>>, id: Text) {
    id in b && !Authored(id, b[id]) && id in c && Authored(id, c[id]) && MarkPick(b[id], c[id]) != c[id] ==>
      id in a && MarkPick(a[id], c[id]) == a[id]
  }

  lemma DeviceAssocAt(a: map<Text, Reg<Device>>, b: map<Text, Reg<Device>>, c: map<Text, Reg<Device>>, id: Text)
    ensures var l, r := MergeDevices(MergeDevices(a, b), c), MergeDevices(a, MergeDevices(b, c));
      (id in l <==> id in r) && (id in l && id in r ==> l[id] == r[id]) <==> DeviceAssociates(a, b, c, id)
  {
    if id in b && id in c { ClockTotal(b[id].clock, c[id].clock); }
    if id in a && id in c { ClockTotal(a[id].clock, c[id].clock); }
    if id in a && id in b && id in c { ThreeClocks(a[id].clock, b[id].clock, c[id].clock); }
  }

  /** Exactly when the order of two device merges does not matter: always, if the book
      in the middle is well-formed. */
  lemma DevicesAssocIff(a: map<Text, Reg<Device>>, b: map<Text, Reg<Device>>, c: map<Text, Reg<Device>>)
    ensures MergeDevices(MergeDevices(a, b), c) == MergeDevices(a, MergeDevices(b, c))
       <==> forall id :: id in b ==> DeviceAssociates(a, b, c, id)
  {
    hide MergeDevices, DeviceAssociates;
    var l, r := MergeDevices(MergeDevices(a, b), c), MergeDevices(a, MergeDevices(b, c));
    forall id ensures (id in l <==> id in r) && (id in l && id in r ==> l[id] == r[id]) <==> DeviceAssociates(a, b, c, id)
    {
      DeviceAssocAt(a, b, c, id);
    }
    forall id | id !in b ensures DeviceAssociates(a, b, c, id) { Vacuous(a, b, c, id); }
    if forall id :: id in b ==> DeviceAssociates(a, b, c, id) {
      assert l.Keys == r.Keys;
    }
  }

  lemma Vacuous(a: map<Text, Reg<Device>>, b: map<Text, Reg<Device>>, c: map<Text, Reg<Device>>, id: Text)
    requires id !in b
    ensures DeviceAssociates(a, b, c, id)
  {
  }

  /** Without it the order does matter: a row `d` did not write, taken in first, shadows
      its own older one. */
  lemma UnauthoredRowBreaksAssociativity(d: DeviceId, e: DeviceId, row: Device)
    requires d != e
    ensures var b := EMPTY.(devices := map[DeviceKey(d) := Reg(row, Lamport(2, e), false)]);
      var c := EMPTY.(devices := map[DeviceKey(d) := Reg(row, Lamport(1, d), false)]);
      Merge(Merge(EMPTY, b), c) != Merge(EMPTY, Merge(b, c))
  {
    var k := DeviceKey(d);
    DeviceKeyInjective(d, e);
    var b := map[k := Reg(row, Lamport(2, e), false)];
    var c := map[k := Reg(row, Lamport(1, d), false)];
    assert k in OnlyAuthored(c) && k !in OnlyAuthored(b);
    assert k in MergeDevices(MergeDevices(map[], b), c);
    assert MergeDevices(b, c)[k] == b[k];
    assert k !in MergeDevices(map[], MergeDevices(b, c));
  }

  lemma SelfAssoc(a: Option<SelfName>, b: Option<SelfName>, c: Option<SelfName>)
    ensures MergeSelf(MergeSelf(a, b), c) == MergeSelf(a, MergeSelf(b, c))
  {
    if a.Some? && b.Some? && c.Some? { ThreeClocks(a.value.clock, b.value.clock, c.value.clock); }
  }

  /** Merging is associative on all books whose middle one is well-formed, coherent or
      not. */
  lemma MergeAssociative(a: State, b: State, c: State)
    requires WellFormed(b)
    ensures Merge(Merge(a, b), c) == Merge(a, Merge(b, c))
  {
    hide MergeLww, MergeMarks, MergeDevices, MergeSelf;
    LwwAssoc(a.contacts, b.contacts, c.contacts);
    MarksAssoc(a.verified, b.verified, c.verified);
    MarksAssoc(a.trusted, b.trusted, c.trusted);
    LwwAssoc(a.names, b.names, c.names);
    MarksAssoc(a.blocked, b.blocked, c.blocked);
    LwwAssoc(a.relays, b.relays, c.relays);
    DevicesAssocIff(a.devices, b.devices, c.devices);
    SelfAssoc(a.selfName, b.selfName, c.selfName);
    SeenAssoc(a.seen, b.seen, c.seen);
  }

  lemma SeenAssoc(a: map<Text, Seen>, b: map<Text, Seen>, c: map<Text, Seen>)
    ensures Union(SeenPick, Union(SeenPick, a, b), c) == Union(SeenPick, a, Union(SeenPick, b, c))
  {
  }

  // ---- commutativity, exactly when ----------------------------------------------------

  lemma LwwCommutesIff<V(!new)>(a: map<Text, Reg<V>>, b: map<Text, Reg<V>>)
    ensures MergeLww(a, b) == MergeLww(b, a) <==> Agree(a, b)
  {
    var l, r := MergeLww(a, b), MergeLww(b, a);
    assert l.Keys == r.Keys;
    forall k | k in a && k in b
      ensures l[k] == r[k] <==> (a[k].clock == b[k].clock ==> a[k] == b[k])
    {
      ClockTotal(a[k].clock, b[k].clock);
    }
  }

  /** A tie between a mark and its removal is settled; one between two marks that
      differ in their date is not. */
  ghost predicate Settled<V(!new)>(a: map<Text, Reg<V>>, b: map<Text, Reg<V>>) {
    forall k :: k in a && k in b && a[k].clock == b[k].clock && a[k].deleted == b[k].deleted ==> a[k] == b[k]
  }

  lemma MarksCommuteIff<V(!new)>(a: map<Text, Reg<V>>, b: map<Text, Reg<V>>)
    ensures MergeMarks(a, b) == MergeMarks(b, a) <==> Settled(a, b)
  {
    var l, r := MergeMarks(a, b), MergeMarks(b, a);
    assert l.Keys == r.Keys;
    forall k | k in a && k in b
      ensures l[k] == r[k] <==>
        (a[k].clock == b[k].clock && a[k].deleted == b[k].deleted ==> a[k] == b[k])
    {
      ClockTotal(a[k].clock, b[k].clock);
    }
  }

  /** A row nobody vouches for survives only where it is overruled or shared. */
  predicate OverruledAt(a: map<Text, Reg<Device>>, b: map<Text, Reg<Device>>, id: Text) {
    id in a && !Authored(id, a[id]) ==>
      id in b && (a[id] == b[id] || (Authored(id, b[id]) && MarkPick(a[id], b[id]) == b[id]))
  }

  ghost predicate Overruled(a: map<Text, Reg<Device>>, b: map<Text, Reg<Device>>) {
    forall id :: OverruledAt(a, b, id)
  }

  lemma DeviceCommutesAt(a: map<Text, Reg<Device>>, b: map<Text, Reg<Device>>, id: Text)
    ensures var l, r := MergeDevices(a, b), MergeDevices(b, a);
      (id in l <==> id in r) && (id in l && id in r ==> l[id] == r[id]) <==>
        && ((id in OnlyAuthored(a) && id in OnlyAuthored(b)
             && a[id].clock == b[id].clock && a[id].deleted == b[id].deleted) ==> a[id] == b[id])
        && OverruledAt(a, b, id) && OverruledAt(b, a, id)
  {
    if id in a && id in b { ClockTotal(a[id].clock, b[id].clock); }
  }

  lemma DevicesCommuteIff(a: map<Text, Reg<Device>>, b: map<Text, Reg<Device>>)
    ensures MergeDevices(a, b) == MergeDevices(b, a) <==>
      Settled(OnlyAuthored(a), OnlyAuthored(b)) && Overruled(a, b) && Overruled(b, a)
  {
    var l, r := MergeDevices(a, b), MergeDevices(b, a);
    forall id { DeviceCommutesAt(a, b, id); }
    if Settled(OnlyAuthored(a), OnlyAuthored(b)) && Overruled(a, b) && Overruled(b, a) {
      hide MergeDevices, OnlyAuthored, OverruledAt;
      forall id ensures id in l <==> id in r { assert OverruledAt(a, b, id) && OverruledAt(b, a, id); }
      assert l.Keys == r.Keys;
      forall id | id in l ensures l[id] == r[id] { assert OverruledAt(a, b, id) && OverruledAt(b, a, id); }
    }
  }

  lemma SelfCommutesIff(a: Option<SelfName>, b: Option<SelfName>)
    ensures MergeSelf(a, b) == MergeSelf(b, a) <==> AgreeSelf(a, b)
  {
    if a.Some? && b.Some? { ClockTotal(a.value.clock, b.value.clock); }
  }

  lemma SeenCommutes(a: map<Text, Seen>, b: map<Text, Seen>)
    ensures Union(SeenPick, a, b) == Union(SeenPick, b, a)
  {
  }

  /** Two books, whatever they hold, merge to the same one in either order exactly when
      no tie is left to the order. */
  lemma MergeCommutesIff(a: State, b: State)
    ensures Merge(a, b) == Merge(b, a) <==>
      && Agree(a.contacts, b.contacts) && Agree(a.names, b.names) && Agree(a.relays, b.relays)
      && Settled(a.verified, b.verified) && Settled(a.trusted, b.trusted) && Settled(a.blocked, b.blocked)
      && Settled(OnlyAuthored(a.devices), OnlyAuthored(b.devices))
      && Overruled(a.devices, b.devices) && Overruled(b.devices, a.devices)
      && AgreeSelf(a.selfName, b.selfName)
  {
    hide MergeLww, MergeMarks, MergeDevices, MergeSelf, Agree, Settled, Overruled;
    LwwCommutesIff(a.contacts, b.contacts);
    LwwCommutesIff(a.names, b.names);
    LwwCommutesIff(a.relays, b.relays);
    MarksCommuteIff(a.verified, b.verified);
    MarksCommuteIff(a.trusted, b.trusted);
    MarksCommuteIff(a.blocked, b.blocked);
    DevicesCommuteIff(a.devices, b.devices);
    SelfCommutesIff(a.selfName, b.selfName);
    SeenCommutes(a.seen, b.seen);
  }

  lemma MergeCommutes(a: State, b: State)
    requires Coherent(a, b) && WellFormed(a) && WellFormed(b)
    ensures Merge(a, b) == Merge(b, a)
  {
    hide Merge;
    MergeCommutesIff(a, b);
  }

  // ---- coherence is kept ----------------------------------------------------------------

  lemma LwwAgree<V(!new)>(a: map<Text, Reg<V>>, b: map<Text, Reg<V>>, c: map<Text, Reg<V>>)
    requires Agree(a, c) && Agree(b, c)
    ensures Agree(MergeLww(a, b), c)
  {
  }

  lemma MarksAgree<V(!new)>(a: map<Text, Reg<V>>, b: map<Text, Reg<V>>, c: map<Text, Reg<V>>)
    requires Agree(a, c) && Agree(b, c)
    ensures Agree(MergeMarks(a, b), c)
  {
  }

  /** A merge only brings rows together. */
  lemma MergeCoherent(a: State, b: State, c: State)
    requires Coherent(a, c) && Coherent(b, c)
    ensures Coherent(Merge(a, b), c)
  {
    hide MergeLww, MergeMarks;
    LwwAgree(a.contacts, b.contacts, c.contacts);
    LwwAgree(a.names, b.names, c.names);
    LwwAgree(a.relays, b.relays, c.relays);
    MarksAgree(a.verified, b.verified, c.verified);
    MarksAgree(a.trusted, b.trusted, c.trusted);
    MarksAgree(a.blocked, b.blocked, c.blocked);
    MarksAgree(a.devices, OnlyAuthored(b.devices), c.devices);
  }

  // ---- convergence -----------------------------------------------------------------------

  /** One book absorbing others, one after another. */
  function MergeAll(s: State, others: seq<State>): State {
    if |others| == 0 then s
    else Merge(MergeAll(s, others[..|others| - 1]), others[|others| - 1])
  }

  /** Books that can meet in a run. */
  ghost predicate Compatible(u: set<State>) {
    && (forall x, y :: x in u && y in u ==> Coherent(x, y))
    && (forall x :: x in u ==> WellFormed(x))
  }

  predicate Among(others: seq<State>, u: set<State>) {
    forall x :: x in others ==> x in u
  }

  lemma {:induction false} FoldCoherent(s: State, others: seq<State>, y: State)
    requires Coherent(s, y) && (forall x :: x in others ==> Coherent(x, y))
    ensures Coherent(MergeAll(s, others), y)
  {
    hide Coherent, Merge;
    if |others| > 0 {
      FoldCoherent(s, others[..|others| - 1], y);
      MergeCoherent(MergeAll(s, others[..|others| - 1]), others[|others| - 1], y);
    }
  }

  lemma {:induction false} FoldWellFormed(s: State, others: seq<State>)
    requires WellFormed(s)
    ensures WellFormed(MergeAll(s, others))
  {
    hide WellFormed, Merge;
    if |others| > 0 {
      FoldWellFormed(s, others[..|others| - 1]);
      MergeKeepsWellFormed(MergeAll(s, others[..|others| - 1]), others[|others| - 1]);
    }
  }

  /** What has been absorbed once adds nothing more. */
  lemma {:induction false} FoldAbsorbs(s: State, others: seq<State>, x: State, u: set<State>)
    requires Compatible(u) && s in u && Among(others, u)
    requires x == s || x in others
    ensures Merge(MergeAll(s, others), x) == MergeAll(s, others)
  {
    hide Coherent, WellFormed, Merge;
    if |others| == 0 {
      MergeIdempotent(s);
    } else {
      var front, last := others[..|others| - 1], others[|others| - 1];
      var acc := MergeAll(s, front);
      FoldWellFormed(s, front);
      if x == last {
        MergeIdempotent(last);
        MergeAssociative(acc, last, last);
      } else {
        FoldAbsorbs(s, front, x, u);
        MergeAssociative(acc, last, x);
        MergeCommutes(last, x);
        MergeAssociative(acc, x, last);
      }
    }
  }

  /** A book that has absorbed every one of them has absorbed their merge. */
  lemma {:induction false} FoldIsLeast(y: State, s: State, others: seq<State>)
    requires Merge(y, s) == y && (forall x :: x in others ==> Merge(y, x) == y)
    requires WellFormed(s)
    ensures Merge(y, MergeAll(s, others)) == y
  {
    hide WellFormed, Merge;
    if |others| > 0 {
      var front, last := others[..|others| - 1], others[|others| - 1];
      FoldIsLeast(y, s, front);
      FoldWellFormed(s, front);
      MergeAssociative(y, MergeAll(s, front), last);
    }
  }

  /** Whoever has absorbed the same books holds the same book, whatever order they came
      in, however often, and whichever of them it began with. */
  lemma Converge(s: State, ss: seq<State>, t: State, ts: seq<State>, u: set<State>)
    requires Compatible(u) && s in u && t in u && Among(ss, u) && Among(ts, u)
    requires forall x :: x == s || x in ss <==> x == t || x in ts
    ensures MergeAll(s, ss) == MergeAll(t, ts)
  {
    hide Coherent, WellFormed, Merge, MergeAll;
    var a, b := MergeAll(s, ss), MergeAll(t, ts);
    forall x | x == s || x in ss ensures Merge(b, x) == b { FoldAbsorbs(t, ts, x, u); }
    forall x | x == t || x in ts ensures Merge(a, x) == a { FoldAbsorbs(s, ss, x, u); }
    FoldIsLeast(a, t, ts);
    FoldIsLeast(b, s, ss);
    FoldWellFormed(s, ss);
    FoldWellFormed(t, ts);
    forall x | x in u ensures Coherent(a, x) { FoldCoherent(s, ss, x); }
    CoherentSymmetric(a, u);
    FoldCoherent(t, ts, a);
    MergeCommutes(b, a);
  }

  lemma CoherentSymmetric(a: State, u: set<State>)
    requires forall x :: x in u ==> Coherent(a, x)
    ensures forall x :: x in u ==> Coherent(x, a)
  {
  }
}
