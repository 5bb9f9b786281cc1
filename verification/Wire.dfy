/** The three decoders that read newest shape first: the address-book snapshot
    (core/src/sync.rs), an offer (core/src/presence.rs) and an offline ticket
    (core/src/offline.rs). A struct is the list of its field values. */
module Wire {
  import opened Bytes
  import opened Positional
  import Sync

  // ---- the shapes ---------------------------------------------------------------

  const DEVICE_ID := Raw(16)
  const LAMPORT := Record(Field(Num, Field(DEVICE_ID, End)))

  const CONTACT_ENTRY := Record(Field(Str, Field(Str, Field(LAMPORT, Field(Flag, End)))))
  const MARK_ENTRY := Record(Field(Str, Field(LAMPORT, Field(Flag, Field(Num, End)))))
  const SEEN_ENTRY := Record(Field(Str, Field(Num, Field(Num, End))))
  const SEEN_ENTRY_V0 := Record(Field(Str, Field(Num, End)))
  const NAME_ENTRY := Record(Field(Str, Field(Str, Field(Opt(Str), Field(LAMPORT, Field(Flag, End))))))
  const RELAY_ENTRY := Record(Field(Str, Field(Str, Field(LAMPORT, Field(Flag, End)))))
  const DEVICE_ENTRY :=
    Record(Field(Str, Field(Str, Field(Str, Field(Num, Field(LAMPORT, Field(Flag, End)))))))
  const SELF_NAME := Record(Field(Str, Field(LAMPORT, End)))

  /** lamport, device, contacts, verified, trusted. */
  const HEAD := Field(Num, Field(DEVICE_ID, Field(ListOf(CONTACT_ENTRY), Field(ListOf(MARK_ENTRY), Field(ListOf(MARK_ENTRY), End)))))

  /** names, blocked, devices. */
  const MIDDLE := Field(ListOf(NAME_ENTRY), Field(ListOf(MARK_ENTRY), Field(ListOf(DEVICE_ENTRY), End)))

  function SnapshotBefore(seen: Shape, later: Fields): Fields {
    JoinFields(HEAD, Field(ListOf(seen), JoinFields(MIDDLE, later)))
  }

  const SNAPSHOT_V0 := SnapshotBefore(SEEN_ENTRY_V0, End)
  const SNAPSHOT_V1 := SnapshotBefore(SEEN_ENTRY, End)
  const SNAPSHOT_V2 := SnapshotBefore(SEEN_ENTRY, Field(ListOf(RELAY_ENTRY), End))
  const SNAPSHOT := SnapshotBefore(SEEN_ENTRY, Field(ListOf(RELAY_ENTRY), Field(Opt(SELF_NAME), End)))

  const NO_RELAYS := VList(Nil)
  const NO_SELF_NAME := VNone

  /** What `decode_snapshot` tries before the shape with the shorter `seen` rows. */
  const SNAPSHOT_VERSIONS :=
    [ Version(SNAPSHOT, Nil)
    , Version(SNAPSHOT_V2, Cons(NO_SELF_NAME, Nil))
    , Version(SNAPSHOT_V1, Cons(NO_RELAYS, Cons(NO_SELF_NAME, Nil))) ]

  /** name, size, chunks, ticket, note, sender_name, origin, target. */
  function OfferBefore(later: Fields): Fields {
    Field(Str, Field(Num, Field(Num, Field(Str, Field(Str, Field(Str,
      Field(Opt(DEVICE_ID), Field(Opt(DEVICE_ID), later))))))))
  }

  const OFFER_VERSIONS :=
    [ Version(OfferBefore(Field(Str, End)), Nil)
    , Version(OfferBefore(End), Cons(VStr([]), Nil)) ]

  /** relay, claim, sender, salt, wrapped_key, total_size. */
  function OfflineBefore(later: Fields): Fields {
    Field(Str, Field(Str, Field(Blob, Field(Blob, Field(Blob, Field(Num, later))))))
  }

  const OFFLINE_VERSIONS :=
    [ Version(OfflineBefore(Field(Str, End)), Nil)
    , Version(OfflineBefore(End), Cons(VStr([]), Nil)) ]

  lemma SnapshotAppendOnly()
    ensures AppendOnly(SNAPSHOT_VERSIONS)
  {
    var relays, own := ListOf(RELAY_ENTRY), Opt(SELF_NAME);
    JoinSnapshot(SEEN_ENTRY, Field(relays, End), Field(own, End));
    JoinSnapshot(SEEN_ENTRY, End, Field(relays, Field(own, End)));
    JoinSnapshot(SEEN_ENTRY, End, Field(relays, End));
    assert JoinFields(Field(relays, End), Field(own, End)) == Field(relays, Field(own, End));
    assert Extends(SNAPSHOT, SNAPSHOT_V2) && Extends(SNAPSHOT, SNAPSHOT_V1) && Extends(SNAPSHOT_V2, SNAPSHOT_V1);
  }

  lemma JoinSnapshot(seen: Shape, some: Fields, more: Fields)
    ensures JoinFields(SnapshotBefore(seen, some), more) == SnapshotBefore(seen, JoinFields(some, more))
  {
    JoinFieldsAssoc(MIDDLE, some, more);
    JoinFieldsAssoc(HEAD, Field(ListOf(seen), JoinFields(MIDDLE, some)), more);
  }

  lemma OfferAppendOnly()
    ensures AppendOnly(OFFER_VERSIONS)
  {
    assert JoinFields(OfferBefore(End), Field(Str, End)) == OfferBefore(Field(Str, End));
    assert Extends(OfferBefore(Field(Str, End)), OfferBefore(End));
  }

  lemma OfflineAppendOnly()
    ensures AppendOnly(OFFLINE_VERSIONS)
  {
    assert JoinFields(OfflineBefore(End), Field(Str, End)) == OfflineBefore(Field(Str, End));
    assert Extends(OfflineBefore(Field(Str, End)), OfflineBefore(End));
  }

  // ---- the decoders -------------------------------------------------------------------

  /** A `seen` row written before it recorded when, dated never. */
  function Undated(rows: Values): Values {
    match rows
    case Nil => Nil
    case Cons(VRecord(fields), tail) => Cons(VRecord(Join(fields, Cons(VNum(0), Nil))), Undated(tail))
    case Cons(_, tail) => Undated(tail)
  }

  /** The values with the `i`-th, a list of `seen` rows, dated. */
  function WithSeen(vs: Values, i: nat): Values {
    if vs.Nil? then Nil
    else if i > 0 then Cons(vs.head, WithSeen(vs.tail, i - 1))
    else if vs.head.VList? then Cons(VList(Undated(vs.head.items)), vs.tail)
    else vs
  }

  /** A snapshot of the oldest shape as today's: `seen` rows dated never, no relays, no
      own name. */
  function Dated(vs: Values): Values {
    Join(WithSeen(vs, 5), Cons(NO_RELAYS, Cons(NO_SELF_NAME, Nil)))
  }

  /** `decode_snapshot`. */
  function DecodeSnapshot(bs: seq<byte>, utf8: seq<byte> -> bool): Option<Values> {
    var read := DecodeNewest(SNAPSHOT_VERSIONS, bs, utf8);
    if read.Some? then read
    else
      var v0 := DecodeFields(SNAPSHOT_V0, bs, utf8);
      if v0.Ok? then Some(Dated(v0.value)) else None
  }

  /** A snapshot written in any of the last three shapes is read as it was written,
      with no relays and no own name where it had none. */
  lemma SnapshotExact(vs: Values, utf8: seq<byte> -> bool)
    ensures FieldsFit(SNAPSHOT, vs, utf8) ==> DecodeSnapshot(EncodeAll(vs), utf8) == Some(vs)
    ensures FieldsFit(SNAPSHOT_V2, vs, utf8) ==>
      DecodeSnapshot(EncodeAll(vs), utf8) == Some(Join(vs, Cons(NO_SELF_NAME, Nil)))
    ensures FieldsFit(SNAPSHOT_V1, vs, utf8) ==>
      DecodeSnapshot(EncodeAll(vs), utf8) == Some(Join(vs, Cons(NO_RELAYS, Cons(NO_SELF_NAME, Nil))))
  {
    SnapshotAppendOnly();
    JoinNil(vs);
    forall i: nat | i < 3 && FieldsFit(SNAPSHOT_VERSIONS[i].fields, vs, utf8)
      ensures DecodeNewest(SNAPSHOT_VERSIONS, EncodeAll(vs), utf8) == Some(Join(vs, SNAPSHOT_VERSIONS[i].defaults))
    {
      NewestFirstIsExact(SNAPSHOT_VERSIONS, i, vs, utf8);
    }
    hide DecodeNewest, FieldsFit;
    assert SNAPSHOT_VERSIONS[0].fields == SNAPSHOT && SNAPSHOT_VERSIONS[1].fields == SNAPSHOT_V2;
    assert SNAPSHOT_VERSIONS[2].fields == SNAPSHOT_V1;
  }

  lemma {:induction false} JoinNil(vs: Values)
    ensures Join(vs, Nil) == vs
  {
    if vs.Cons? { JoinNil(vs.tail); }
  }

  const SECRET := Raw(32)

  /** `PairPayload::decode`: the identity secret, then a snapshot in whatever shape. */
  function DecodePair(bs: seq<byte>, utf8: seq<byte> -> bool): Option<(Value, Values)> {
    var whole := DecodeFields(Field(SECRET, Field(Record(SNAPSHOT), End)), bs, utf8);
    if whole.Ok? && whole.value.tail.head.VRecord? then Some((whole.value.head, whole.value.tail.head.values))
    else
      var secret := Decode(SECRET, bs, utf8);
      if secret.Err? then None
      else
        var snapshot := DecodeSnapshot(secret.rest, utf8);
        if snapshot.Some? then Some((secret.value, snapshot.value)) else None
  }

  /** The secret is read as it is, and the snapshot as it would be on its own. */
  lemma PairExact(secret: seq<byte>, snapshot: seq<byte>, utf8: seq<byte> -> bool)
    requires |secret| == 32
    ensures var read := DecodeSnapshot(snapshot, utf8);
      DecodePair(secret + snapshot, utf8) == if read.Some? then Some((VRaw(secret), read.value)) else None
  {
    hide DecodeFields, FieldsFit;
    assert (secret + snapshot)[..32] == secret && (secret + snapshot)[32..] == snapshot;
    PairWhole(secret, snapshot, utf8);
    var inner := DecodeFields(SNAPSHOT, snapshot, utf8);
    if inner.Ok? {
      JoinNil(inner.value);
      assert SNAPSHOT_VERSIONS[0] == Version(SNAPSHOT, Nil);
    }
  }

  lemma PairWhole(secret: seq<byte>, snapshot: seq<byte>, utf8: seq<byte> -> bool)
    requires |secret| == 32
    ensures var inner := DecodeFields(SNAPSHOT, snapshot, utf8);
      DecodeFields(Field(SECRET, Field(Record(SNAPSHOT), End)), secret + snapshot, utf8)
      == if inner.Ok? then Ok(Cons(VRaw(secret), Cons(VRecord(inner.value), Nil)), inner.rest) else Err(inner.error)
  {
    assert (secret + snapshot)[..32] == secret && (secret + snapshot)[32..] == snapshot;
    var fs := SNAPSHOT;
    assert DecodeFields(Field(Record(fs), End), snapshot, utf8)
        == if DecodeFields(fs, snapshot, utf8).Ok?
           then Ok(Cons(VRecord(DecodeFields(fs, snapshot, utf8).value), Nil), DecodeFields(fs, snapshot, utf8).rest)
           else Err(DecodeFields(fs, snapshot, utf8).error);
  }

  /** An offer in either shape is read as it was written, the older with no relay. */
  lemma OfferExact(vs: Values, utf8: seq<byte> -> bool)
    ensures FieldsFit(OfferBefore(Field(Str, End)), vs, utf8) ==>
      DecodeNewest(OFFER_VERSIONS, EncodeAll(vs), utf8) == Some(vs)
    ensures FieldsFit(OfferBefore(End), vs, utf8) ==>
      DecodeNewest(OFFER_VERSIONS, EncodeAll(vs), utf8) == Some(Join(vs, Cons(VStr([]), Nil)))
  {
    OfferAppendOnly();
    JoinNil(vs);
    if FieldsFit(OFFER_VERSIONS[0].fields, vs, utf8) { NewestFirstIsExact(OFFER_VERSIONS, 0, vs, utf8); }
    if FieldsFit(OFFER_VERSIONS[1].fields, vs, utf8) { NewestFirstIsExact(OFFER_VERSIONS, 1, vs, utf8); }
  }

  /** An offline ticket in either shape likewise, the older with no name. */
  lemma OfflineExact(vs: Values, utf8: seq<byte> -> bool)
    ensures FieldsFit(OfflineBefore(Field(Str, End)), vs, utf8) ==>
      DecodeNewest(OFFLINE_VERSIONS, EncodeAll(vs), utf8) == Some(vs)
    ensures FieldsFit(OfflineBefore(End), vs, utf8) ==>
      DecodeNewest(OFFLINE_VERSIONS, EncodeAll(vs), utf8) == Some(Join(vs, Cons(VStr([]), Nil)))
  {
    OfflineAppendOnly();
    JoinNil(vs);
    if FieldsFit(OFFLINE_VERSIONS[0].fields, vs, utf8) { NewestFirstIsExact(OFFLINE_VERSIONS, 0, vs, utf8); }
    if FieldsFit(OFFLINE_VERSIONS[1].fields, vs, utf8) { NewestFirstIsExact(OFFLINE_VERSIONS, 1, vs, utf8); }
  }

  // ---- the shape that is not a prefix ----------------------------------------------------

  /** The `seen` rows among a snapshot's values. */
  function SeenRows(vs: Values, i: nat): Values {
    if vs.Nil? then Nil
    else if i > 0 then SeenRows(vs.tail, i - 1)
    else if vs.head.VList? then vs.head.items
    else Nil
  }

  lemma {:induction false} SeenAfter(head: Values, rest: Values)
    ensures SeenRows(Join(head, rest), Length(head)) == SeenRows(rest, 0)
    ensures WithSeen(Join(head, rest), Length(head)) == Join(head, WithSeen(rest, 0))
  {
    if head.Cons? { SeenAfter(head.tail, rest); }
  }

  lemma {:induction false} UndatedLength(rows: Values, utf8: seq<byte> -> bool)
    requires AllFit(SEEN_ENTRY_V0, rows, utf8)
    ensures Length(Undated(rows)) == Length(rows)
    ensures |EncodeAll(Undated(rows))| == |EncodeAll(rows)| + Length(rows)
  {
    if rows.Cons? {
      UndatedLength(rows.tail, utf8);
      EncodeJoin(rows.head.values, Cons(VNum(0), Nil));
      assert EncodeAll(Cons(VNum(0), Nil)) == [0] + [];
    }
  }

  lemma FiveBefore()
    ensures FieldCount(HEAD) == 5
  {
    assert FieldCount(HEAD.tail.tail.tail) == 2;
  }

  /** A snapshot of the oldest shape taken apart: what comes before its `seen` rows, they,
      and what comes after. */
  lemma OldParts(vs: Values, utf8: seq<byte> -> bool) returns (head: Values, rows: Values, rest: Values)
    requires FieldsFit(SNAPSHOT_V0, vs, utf8)
    ensures vs == Join(head, Cons(VList(rows), rest)) && FieldsFit(HEAD, head, utf8) && FieldsFit(MIDDLE, rest, utf8)
    ensures AllFit(SEEN_ENTRY_V0, rows, utf8)
    ensures SeenRows(vs, 5) == rows && WithSeen(vs, 5) == Join(head, Cons(VList(Undated(rows)), rest))
  {
    var b;
    head, b := SplitFit(HEAD, Field(ListOf(SEEN_ENTRY_V0), JoinFields(MIDDLE, End)), vs, utf8);
    rows, rest := b.head.items, b.tail;
    assert JoinFields(MIDDLE, End) == MIDDLE;
    FiveBefore();
    SeenAfter(head, b);
  }

  lemma DatedLength(vs: Values, utf8: seq<byte> -> bool)
    requires FieldsFit(SNAPSHOT_V0, vs, utf8)
    ensures |EncodeAll(Dated(vs))| == |EncodeAll(vs)| + Length(SeenRows(vs, 5)) + 2
  {
    var head, rows, rest := OldParts(vs, utf8);
    UndatedLength(rows, utf8);
    EncodeJoin(head, Cons(VList(rows), rest));
    EncodeJoin(head, Cons(VList(Undated(rows)), rest));
    EncodeJoin(WithSeen(vs, 5), Cons(NO_RELAYS, Cons(NO_SELF_NAME, Nil)));
    assert EncodeAll(Cons(NO_SELF_NAME, Nil)) == [0] + [];
    assert Encode(NO_RELAYS) == [0] + [];
  }

  lemma DefaultsAreShort(i: nat)
    requires i < 3
    ensures |EncodeAll(SNAPSHOT_VERSIONS[i].defaults)| <= 2
  {
    assert EncodeAll(Cons(NO_SELF_NAME, Nil)) == [0] + [];
    assert Encode(NO_RELAYS) == [0] + [];
  }

  lemma FitField(head: Shape, tail: Fields, v: Value, vs: Values, utf8: seq<byte> -> bool)
    requires Fits(head, v, utf8) && FieldsFit(tail, vs, utf8)
    ensures FieldsFit(Field(head, tail), Cons(v, vs), utf8)
  {
  }

  lemma EmptyListFits(item: Shape, utf8: seq<byte> -> bool)
    ensures Fits(ListOf(item), VList(Nil), utf8)
  {
    RoomIsU64();
  }

  /** Where the `seen` list is empty the oldest shape and the next are one. */
  lemma NoSeenIsNextShape(vs: Values, utf8: seq<byte> -> bool)
    requires FieldsFit(SNAPSHOT_V0, vs, utf8) && SeenRows(vs, 5) == Nil
    ensures FieldsFit(SNAPSHOT_V1, vs, utf8) && WithSeen(vs, 5) == vs
  {
    var head, rows, rest := OldParts(vs, utf8);
    EmptyListFits(SEEN_ENTRY, utf8);
    FitField(ListOf(SEEN_ENTRY), MIDDLE, VList(Nil), rest, utf8);
    JoinFit(HEAD, Field(ListOf(SEEN_ENTRY), MIDDLE), head, Cons(VList(Nil), rest), utf8);
    assert JoinFields(MIDDLE, End) == MIDDLE;
  }

  /** Exactly when a snapshot of the oldest shape is read as it was written: when no newer
      shape happens to read its bytes, or it has no `seen` rows at all. */
  lemma OldestExactIff(vs: Values, utf8: seq<byte> -> bool)
    requires FieldsFit(SNAPSHOT_V0, vs, utf8)
    ensures DecodeSnapshot(EncodeAll(vs), utf8) == Some(Dated(vs))
       <==> DecodeNewest(SNAPSHOT_VERSIONS, EncodeAll(vs), utf8).None? || SeenRows(vs, 5) == Nil
  {
    hide FieldsFit, DecodeNewest;
    var bs := EncodeAll(vs);
    if DecodeNewest(SNAPSHOT_VERSIONS, bs, utf8).None? {
      assert bs + [] == bs;
      FieldsReadBack(SNAPSHOT_V0, vs, [], utf8);
    } else if SeenRows(vs, 5) == Nil {
      NoSeenIsNextShape(vs, utf8);
      SnapshotExact(vs, utf8);
    } else {
      var i, read := NewestConsumes(SNAPSHOT_VERSIONS, bs, utf8);
      EncodeJoin(read, SNAPSHOT_VERSIONS[i].defaults);
      DefaultsAreShort(i);
      DatedLength(vs, utf8);
    }
  }

  // ---- and that it does happen ---------------------------------------------------------------

  /** A device that has exchanged with one key and whose first edit announced itself:
      counter one, a name of five bytes, a platform of five ("linux"), and a last seen
      that takes five, as any date of this century does. Its row goes by its key, the id
      in hexadecimal. Only that random id is special: it starts with a small byte and
      three zeros. */
  datatype Young = Young(id: seq<byte>, name: seq<byte>, platform: seq<byte>, lastSeen: nat, device: seq<byte>,
                         key: seq<byte>, count: nat)
  {
    ghost predicate Valid(utf8: seq<byte> -> bool) {
      && utf8(id) && utf8(name) && utf8(platform) && utf8(key)
      && |id| < Room(0) && |key| < Room(0) && count < Room(0) && lastSeen < Room(0)
      && |name| == 5 && |platform| == 5 && |Varint(lastSeen)| == 5
      && |device| == 16 && device[0] < 128 && device[1] == device[2] == device[3] == 0
      && id == Sync.DeviceKey(device)
    }

    function Clock(): Value {
      VRecord(Cons(VNum(1), Cons(VRaw(device), Nil)))
    }

    function Row(): Value {
      VRecord(Cons(VStr(id), Cons(VStr(name), Cons(VStr(platform), Cons(VNum(lastSeen), Cons(Clock(), Cons(VFlag(false), Nil)))))))
    }

    function SeenRow(): Value {
      VRecord(Cons(VStr(key), Cons(VNum(count), Nil)))
    }

    /** What it wrote, from the `seen` rows on: no names, nobody blocked, itself. */
    function Wrote(): Values {
      Cons(VList(Cons(SeenRow(), Nil)), Cons(VList(Nil), Cons(VList(Nil), Cons(VList(Cons(Row(), Nil)), Nil))))
    }

    /** Its row, taken for somebody no longer blocked. */
    function Mark(): Value {
      VRecord(Cons(VStr(id), Cons(VRecord(Cons(VNum(5), Cons(VRaw(name + ([5] + (platform + Varint(lastSeen)))), Nil))),
        Cons(VFlag(true), Cons(VNum(if |device| > 0 then device[0] else 0), Nil)))))
    }

    function DatedRow(): Value {
      VRecord(Cons(VStr(key), Cons(VNum(count), Cons(VNum(0), Nil))))
    }

    /** What that reads as: no devices. */
    function Misread(): Values {
      Cons(VList(Cons(DatedRow(), Nil)), Cons(VList(Nil), Cons(VList(Cons(Mark(), Nil)), Cons(VList(Nil),
        Cons(NO_RELAYS, Cons(NO_SELF_NAME, Nil))))))
    }

    function Left(): seq<byte> {
      if |device| == 16 then device[4..] + [0] else []
    }
  }

  const ALICES_DEVICE: seq<byte> := [7, 0, 0, 0, 1, 2, 3, 4, 5, 6, 7, 8, 9, 10, 11, 12]

  /** There are such devices: this one is called "alice". */
  const ALICE := Young(Sync.DeviceKey(ALICES_DEVICE), [0x61, 0x6C, 0x69, 0x63, 0x65], [0x6C, 0x69, 0x6E, 0x75, 0x78],
                       1_700_000_000, ALICES_DEVICE, [0x6B], 1)

  lemma {:induction false} KeyLength(device: seq<byte>)
    ensures |Sync.DeviceKey(device)| == 2 * |device|
  {
    if |device| > 0 { KeyLength(device[1..]); }
  }

  lemma FiveByteDate()
    ensures |Varint(1_700_000_000)| == 5
  {
    assert |Varint(6)| == 1;
    assert |Varint(810)| == 2;
    assert |Varint(103759)| == 3;
    assert |Varint(13281250)| == 4;
  }

  lemma AliceIsYoung(utf8: seq<byte> -> bool)
    requires utf8(ALICE.id) && utf8(ALICE.name) && utf8(ALICE.platform) && utf8(ALICE.key)
    ensures ALICE.Valid(utf8)
  {
    RoomIsU64();
    FiveByteDate();
    KeyLength(ALICES_DEVICE);
    hide Room, Varint, Sync.DeviceKey;
  }

  lemma EncodeSmall()
    ensures Encode(VNum(0)) == [0] && Encode(VNum(1)) == [1] && Encode(VNum(5)) == [5]
    ensures Encode(VList(Nil)) == [0] && Encode(VNone) == [0] && EncodeAll(Nil) == []
    ensures Encode(VFlag(false)) == [0] && Encode(VFlag(true)) == [1]
  {
    var one: nat, five: nat := 1, 5;
    assert Varint(one) == [one] && Varint(five) == [five];
    assert Varint(0) + [] == [0];
  }

  lemma EncodeOne(row: Value)
    ensures Encode(VList(Cons(row, Nil))) == [1] + Encode(row)
  {
    EncodeSmall();
    assert Length(Cons(row, Nil)) == 1 + Length(Nil) == 1;
    assert EncodeAll(Cons(row, Nil)) == Encode(row) + [] == Encode(row);
    assert Encode(VList(Cons(row, Nil))) == Varint(1) + EncodeAll(Cons(row, Nil));
    assert Encode(VNum(1)) == Varint(1);
  }

  lemma EncodeCons(v: Value, vs: Values)
    ensures EncodeAll(Cons(v, vs)) == Encode(v) + EncodeAll(vs)
    ensures EncodeAll(Cons(v, Nil)) == Encode(v)
  {
    EncodeSmall();
    assert Encode(v) + [] == Encode(v);
  }

  lemma EncodeRow(y: Young, utf8: seq<byte> -> bool)
    requires y.Valid(utf8)
    ensures Encode(y.Row()) == Encode(VStr(y.id))
      + (([5] + y.name) + (([5] + y.platform) + (Varint(y.lastSeen) + (([1] + y.device) + [0]))))
  {
    EncodeSmall();
    var five: nat := 5;
    assert Varint(five) == [five];
    EncodeCons(VNum(1), Cons(VRaw(y.device), Nil));
    EncodeCons(VRaw(y.device), Nil);
    var last := Cons(y.Clock(), Cons(VFlag(false), Nil));
    EncodeCons(VFlag(false), Nil);
    EncodeCons(y.Clock(), Cons(VFlag(false), Nil));
    EncodeCons(VNum(y.lastSeen), last);
    EncodeCons(VStr(y.platform), Cons(VNum(y.lastSeen), last));
    EncodeCons(VStr(y.name), Cons(VStr(y.platform), Cons(VNum(y.lastSeen), last)));
    EncodeCons(VStr(y.id), Cons(VStr(y.name), Cons(VStr(y.platform), Cons(VNum(y.lastSeen), last))));
    hide EncodeAll, Varint;
  }

  lemma EncodeMark(y: Young, utf8: seq<byte> -> bool)
    requires y.Valid(utf8)
    ensures Encode(y.Mark()) == Encode(VStr(y.id))
      + (([5] + (y.name + ([5] + (y.platform + Varint(y.lastSeen))))) + ([1] + [y.device[0]]))
  {
    EncodeSmall();
    var d: nat := y.device[0];
    assert Varint(d) == [d];
    var clock := VRecord(Cons(VNum(5), Cons(VRaw(y.name + ([5] + (y.platform + Varint(y.lastSeen)))), Nil)));
    EncodeCons(VNum(5), clock.values.tail);
    EncodeCons(clock.values.tail.head, Nil);
    var last := Cons(VFlag(true), Cons(VNum(d), Nil));
    EncodeCons(VNum(d), Nil);
    EncodeCons(VFlag(true), Cons(VNum(d), Nil));
    EncodeCons(clock, last);
    EncodeCons(VStr(y.id), Cons(clock, last));
    hide EncodeAll, Varint;
  }

  /** The bytes of the row are those of the mark, three empty fields, and what is left. */
  lemma RowStartsAsMark(i: seq<byte>, n: seq<byte>, p: seq<byte>, l: seq<byte>, dev: seq<byte>)
    requires |dev| == 16 && dev[1] == dev[2] == dev[3] == 0
    ensures i + (([5] + n) + (([5] + p) + (l + (([1] + dev) + [0]))))
         == (i + (([5] + (n + ([5] + (p + l)))) + ([1] + [dev[0]]))) + (([0] + ([0] + [0])) + (dev[4..] + [0]))
  {
    var rest := dev[4..] + [0];
    var gap: seq<byte> := [0] + ([0] + [0]);
    assert ([1] + dev) + [0] == ([1] + [dev[0]]) + (gap + rest);
    AppendAssoc(l, [1] + [dev[0]], gap + rest);
    AppendAssoc(p, l, ([1] + [dev[0]]) + (gap + rest));
    AppendAssoc([5], p, l + (([1] + [dev[0]]) + (gap + rest)));
    AppendAssoc([5], p + l, ([1] + [dev[0]]) + (gap + rest));
    AppendAssoc(n, [5] + (p + l), ([1] + [dev[0]]) + (gap + rest));
    AppendAssoc([5], n, ([5] + (p + l)) + (([1] + [dev[0]]) + (gap + rest)));
    AppendAssoc([5], n + ([5] + (p + l)), ([1] + [dev[0]]) + (gap + rest));
    AppendAssoc([5] + (n + ([5] + (p + l))), [1] + [dev[0]], gap + rest);
    AppendAssoc(i, ([5] + (n + ([5] + (p + l)))) + ([1] + [dev[0]]), gap + rest);
  }

  lemma EncodeSeens(y: Young)
    ensures Encode(y.DatedRow()) == Encode(y.SeenRow()) + [0]
  {
    EncodeSmall();
    EncodeJoin(Cons(VStr(y.key), Cons(VNum(y.count), Nil)), Cons(VNum(0), Nil));
    EncodeCons(VNum(0), Nil);
    assert Join(Cons(VNum(y.count), Nil), Cons(VNum(0), Nil)) == Cons(VNum(y.count), Cons(VNum(0), Nil));
  }

  lemma WroteStartsAsMisread(y: Young, utf8: seq<byte> -> bool)
    requires y.Valid(utf8)
    ensures EncodeAll(y.Wrote()) == EncodeAll(y.Misread()) + y.Left()
  {
    var none := VList(Nil);
    EncodeSmall();
    EncodeSeens(y);
    EncodeOne(y.SeenRow());
    EncodeOne(y.DatedRow());
    EncodeOne(y.Row());
    EncodeOne(y.Mark());
    var own, mark := VList(Cons(y.Row(), Nil)), VList(Cons(y.Mark(), Nil));
    EncodeCons(own, Nil);
    EncodeCons(none, Cons(own, Nil));
    EncodeCons(none, Cons(none, Cons(own, Nil)));
    EncodeCons(VList(Cons(y.SeenRow(), Nil)), Cons(none, Cons(none, Cons(own, Nil))));
    EncodeCons(NO_SELF_NAME, Nil);
    EncodeCons(NO_RELAYS, Cons(NO_SELF_NAME, Nil));
    EncodeCons(none, Cons(NO_RELAYS, Cons(NO_SELF_NAME, Nil)));
    var last := Cons(none, Cons(NO_RELAYS, Cons(NO_SELF_NAME, Nil)));
    EncodeCons(mark, last);
    EncodeCons(none, Cons(mark, last));
    EncodeCons(VList(Cons(y.DatedRow(), Nil)), Cons(none, Cons(mark, last)));
    EncodeRow(y, utf8);
    EncodeMark(y, utf8);
    RowStartsAsMark(Encode(VStr(y.id)), y.name, y.platform, Varint(y.lastSeen), y.device);
    hide EncodeAll, Encode, Varint;
    Regroup(Encode(y.SeenRow()), Encode(y.Row()), Encode(y.Mark()), y.Left());
  }

  lemma Regroup(a: seq<byte>, row: seq<byte>, mark: seq<byte>, left: seq<byte>)
    requires row == mark + (([0] + ([0] + [0])) + left)
    ensures ([1] + a) + ([0] + ([0] + ([1] + row)))
         == (([1] + (a + [0])) + ([0] + (([1] + mark) + ([0] + ([0] + [0]))))) + left
  {
    var gap: seq<byte> := [0] + ([0] + [0]);
    AppendAssoc(mark, gap, left);
    AppendAssoc([1], mark + gap, left);
    AppendAssoc([1], mark, gap);
    AppendAssoc([0], ([1] + mark) + gap, left);
    AppendAssoc([1] + a, [0], [0] + ([1] + row));
    AppendAssoc([1], a, [0]);
    AppendAssoc([1] + (a + [0]), [0] + (([1] + mark) + gap), left);
  }

  // ---- the values fit their shapes ---------------------------------------------------------

  lemma RecordFits(fields: Fields, values: Values, utf8: seq<byte> -> bool)
    requires FieldsFit(fields, values, utf8)
    ensures Fits(Record(fields), VRecord(values), utf8)
  {
  }

  lemma OneFits(item: Shape, row: Value, utf8: seq<byte> -> bool)
    requires Fits(item, row, utf8)
    ensures Fits(ListOf(item), VList(Cons(row, Nil)), utf8)
  {
    RoomIsU64();
    assert AllFit(item, Nil, utf8);
    assert Length(Cons(row, Nil)) == 1 + Length(Nil) == 1;
  }

  lemma PartsFit(y: Young, utf8: seq<byte> -> bool)
    requires y.Valid(utf8)
    ensures Fits(Str, VStr(y.id), utf8) && Fits(Str, VStr(y.name), utf8) && Fits(Str, VStr(y.platform), utf8)
    ensures Fits(Str, VStr(y.key), utf8) && Fits(Num, VNum(y.count), utf8) && Fits(Num, VNum(y.lastSeen), utf8)
    ensures Fits(Num, VNum(0), utf8) && Fits(Num, VNum(1), utf8) && Fits(Num, VNum(5), utf8) && Fits(Num, VNum(y.device[0]), utf8)
    ensures Fits(DEVICE_ID, VRaw(y.device), utf8)
    ensures Fits(DEVICE_ID, VRaw(y.name + ([5] + (y.platform + Varint(y.lastSeen)))), utf8)
    ensures Fits(Flag, VFlag(true), utf8) && Fits(Flag, VFlag(false), utf8) && Fits(Opt(SELF_NAME), NO_SELF_NAME, utf8)
    ensures FieldsFit(End, Nil, utf8)
  {
    RoomIsU64();
  }

  lemma RowFits(y: Young, utf8: seq<byte> -> bool)
    requires y.Valid(utf8)
    ensures Fits(DEVICE_ENTRY, y.Row(), utf8) && Fits(SEEN_ENTRY_V0, y.SeenRow(), utf8)
  {
    PartsFit(y, utf8);
    hide Fits, FieldsFit;
    FitField(DEVICE_ID, End, VRaw(y.device), Nil, utf8);
    FitField(Num, Field(DEVICE_ID, End), VNum(1), Cons(VRaw(y.device), Nil), utf8);
    RecordFits(Field(Num, Field(DEVICE_ID, End)), Cons(VNum(1), Cons(VRaw(y.device), Nil)), utf8);
    var fs, vs := Field(Flag, End), Cons(VFlag(false), Nil);
    FitField(Flag, End, VFlag(false), Nil, utf8);
    FitField(LAMPORT, fs, y.Clock(), vs, utf8);
    fs, vs := Field(LAMPORT, fs), Cons(y.Clock(), vs);
    FitField(Num, fs, VNum(y.lastSeen), vs, utf8);
    fs, vs := Field(Num, fs), Cons(VNum(y.lastSeen), vs);
    FitField(Str, fs, VStr(y.platform), vs, utf8);
    fs, vs := Field(Str, fs), Cons(VStr(y.platform), vs);
    FitField(Str, fs, VStr(y.name), vs, utf8);
    fs, vs := Field(Str, fs), Cons(VStr(y.name), vs);
    FitField(Str, fs, VStr(y.id), vs, utf8);
    RecordFits(Field(Str, fs), Cons(VStr(y.id), vs), utf8);
    FitField(Num, End, VNum(y.count), Nil, utf8);
    FitField(Str, Field(Num, End), VStr(y.key), Cons(VNum(y.count), Nil), utf8);
    RecordFits(Field(Str, Field(Num, End)), Cons(VStr(y.key), Cons(VNum(y.count), Nil)), utf8);
  }

  lemma MarkFits(y: Young, utf8: seq<byte> -> bool)
    requires y.Valid(utf8)
    ensures Fits(MARK_ENTRY, y.Mark(), utf8) && Fits(SEEN_ENTRY, y.DatedRow(), utf8)
  {
    PartsFit(y, utf8);
    hide Fits, FieldsFit, Varint;
    var raw := VRaw(y.name + ([5] + (y.platform + Varint(y.lastSeen))));
    FitField(DEVICE_ID, End, raw, Nil, utf8);
    FitField(Num, Field(DEVICE_ID, End), VNum(5), Cons(raw, Nil), utf8);
    RecordFits(Field(Num, Field(DEVICE_ID, End)), Cons(VNum(5), Cons(raw, Nil)), utf8);
    var clock := VRecord(Cons(VNum(5), Cons(raw, Nil)));
    var fs, vs := Field(Num, End), Cons(VNum(y.device[0]), Nil);
    FitField(Num, End, VNum(y.device[0]), Nil, utf8);
    FitField(Flag, fs, VFlag(true), vs, utf8);
    fs, vs := Field(Flag, fs), Cons(VFlag(true), vs);
    FitField(LAMPORT, fs, clock, vs, utf8);
    fs, vs := Field(LAMPORT, fs), Cons(clock, vs);
    FitField(Str, fs, VStr(y.id), vs, utf8);
    RecordFits(Field(Str, fs), Cons(VStr(y.id), vs), utf8);
    FitField(Num, End, VNum(0), Nil, utf8);
    FitField(Num, Field(Num, End), VNum(y.count), Cons(VNum(0), Nil), utf8);
    FitField(Str, Field(Num, Field(Num, End)), VStr(y.key), Cons(VNum(y.count), Cons(VNum(0), Nil)), utf8);
    RecordFits(Field(Str, Field(Num, Field(Num, End))), Cons(VStr(y.key), Cons(VNum(y.count), Cons(VNum(0), Nil))), utf8);
  }

  lemma WroteFits(y: Young, head: Values, utf8: seq<byte> -> bool)
    requires y.Valid(utf8) && FieldsFit(HEAD, head, utf8)
    ensures FieldsFit(SNAPSHOT_V0, Join(head, y.Wrote()), utf8)
  {
    PartsFit(y, utf8);
    RowFits(y, utf8);
    OneFits(DEVICE_ENTRY, y.Row(), utf8);
    OneFits(SEEN_ENTRY_V0, y.SeenRow(), utf8);
    EmptyListFits(MARK_ENTRY, utf8);
    EmptyListFits(NAME_ENTRY, utf8);
    assert JoinFields(MIDDLE, End) == MIDDLE;
    hide Fits, FieldsFit;
    var own, none := VList(Cons(y.Row(), Nil)), VList(Nil);
    FitField(ListOf(DEVICE_ENTRY), End, own, Nil, utf8);
    FitField(ListOf(MARK_ENTRY), MIDDLE.tail.tail, none, Cons(own, Nil), utf8);
    FitField(ListOf(NAME_ENTRY), MIDDLE.tail, none, Cons(none, Cons(own, Nil)), utf8);
    FitField(ListOf(SEEN_ENTRY_V0), MIDDLE, y.Wrote().head, y.Wrote().tail, utf8);
    JoinFit(HEAD, Field(ListOf(SEEN_ENTRY_V0), MIDDLE), head, y.Wrote(), utf8);
  }

  lemma MisreadFits(y: Young, head: Values, utf8: seq<byte> -> bool)
    requires y.Valid(utf8) && FieldsFit(HEAD, head, utf8)
    ensures FieldsFit(SNAPSHOT, Join(head, y.Misread()), utf8)
  {
    PartsFit(y, utf8);
    MarkFits(y, utf8);
    OneFits(MARK_ENTRY, y.Mark(), utf8);
    OneFits(SEEN_ENTRY, y.DatedRow(), utf8);
    EmptyListFits(NAME_ENTRY, utf8);
    EmptyListFits(DEVICE_ENTRY, utf8);
    EmptyListFits(RELAY_ENTRY, utf8);
    hide Fits, FieldsFit;
    var later := Field(ListOf(RELAY_ENTRY), Field(Opt(SELF_NAME), End));
    var rest := y.Misread().tail;
    FitField(Opt(SELF_NAME), End, NO_SELF_NAME, Nil, utf8);
    FitField(ListOf(RELAY_ENTRY), later.tail, NO_RELAYS, Cons(NO_SELF_NAME, Nil), utf8);
    FitField(ListOf(DEVICE_ENTRY), later, rest.tail.tail.head, rest.tail.tail.tail, utf8);
    var fs := Field(ListOf(DEVICE_ENTRY), later);
    FitField(ListOf(MARK_ENTRY), fs, rest.tail.head, rest.tail.tail, utf8);
    fs := Field(ListOf(MARK_ENTRY), fs);
    FitField(ListOf(NAME_ENTRY), fs, rest.head, rest.tail, utf8);
    fs := Field(ListOf(NAME_ENTRY), fs);
    assert JoinFields(MIDDLE.tail.tail, later) == fs.tail.tail;
    assert fs == JoinFields(MIDDLE, later);
    FitField(ListOf(SEEN_ENTRY), fs, y.Misread().head, rest, utf8);
    JoinFit(HEAD, Field(ListOf(SEEN_ENTRY), fs), head, y.Misread(), utf8);
  }

  /** Such a device's snapshot, written in the oldest shape, reads today as a current one
      in which it does not exist and its id is a key once blocked. */
  lemma OldestCanBeMisread(y: Young, head: Values, utf8: seq<byte> -> bool)
    requires y.Valid(utf8) && FieldsFit(HEAD, head, utf8)
    ensures FieldsFit(SNAPSHOT_V0, Join(head, y.Wrote()), utf8)
    ensures DecodeSnapshot(EncodeAll(Join(head, y.Wrote())), utf8) == Some(Join(head, y.Misread()))
    ensures Join(head, y.Misread()) != Dated(Join(head, y.Wrote()))
  {
    WroteFits(y, head, utf8);
    MisreadFits(y, head, utf8);
    hide FieldsFit, Young.Valid, DecodeNewest, Dated;
    WroteStartsAsMisread(y, utf8);
    EncodeJoin(head, y.Wrote());
    EncodeJoin(head, y.Misread());
    AppendAssoc(EncodeAll(head), EncodeAll(y.Misread()), y.Left());
    var now := Join(head, y.Misread());
    NewestKeepsAll(SNAPSHOT_VERSIONS, now, y.Left(), utf8);
    JoinNil(now);
    OldestExactIff(Join(head, y.Wrote()), utf8);
    FitCount(HEAD, head, utf8);
    FiveBefore();
    SeenAfter(head, y.Wrote());
  }
}
