/** A positional encoding (postcard's): values written one after another with no field
    names, read back by shape, trailing bytes ignored. And what reading with several
    shapes, newest first, makes of bytes written in an older one. */
module Positional {
  import opened Bytes

  datatype Shape =
    | Num                         // u64, usize
    | Raw(width: nat)             // [u8; N]
    | Blob                        // Vec<u8>
    | Str                         // String
    | Flag                        // bool
    | Opt(some: Shape)
    | ListOf(item: Shape)
    | Record(fields: Fields)

  /** The fields of a struct, in the order they are declared. */
  datatype Fields = End | Field(head: Shape, tail: Fields)

  datatype Value =
    | VNum(n: nat)
    | VRaw(raw: seq<byte>)
    | VBlob(blob: seq<byte>)
    | VStr(text: seq<byte>)
    | VFlag(flag: bool)
    | VNone
    | VSome(value: Value)
    | VList(items: Values)
    | VRecord(values: Values)

  datatype Values = Nil | Cons(head: Value, tail: Values)

  datatype ParseError = UnexpectedEnd | BadVarint | BadBool | BadOption | BadUtf8

  datatype Parse<+T> = Ok(value: T, rest: seq<byte>) | Err(error: ParseError)

  function Length(vs: Values): nat {
    if vs.Nil? then 0 else 1 + Length(vs.tail)
  }

  function JoinFields(a: Fields, b: Fields): Fields {
    if a.End? then b else Field(a.head, JoinFields(a.tail, b))
  }

  function Join(a: Values, b: Values): Values {
    if a.Nil? then b else Cons(a.head, Join(a.tail, b))
  }

  // ---- numbers ----------------------------------------------------------------

  /** One past the largest number readable from the `i`-th of a number's ten bytes on. */
  function Room(i: nat): nat
    requires i <= 9
    decreases 9 - i
  {
    if i == 9 then 2 else 128 * Room(i + 1)
  }

  lemma RoomIsU64()
    ensures Room(0) == TWO_TO_32 * TWO_TO_32
  {
    assert Room(6) == 128 * Room(7) && Room(7) == 128 * Room(8) && Room(8) == 256;
    assert Room(3) == 128 * Room(4) && Room(4) == 128 * Room(5) && Room(5) == 128 * Room(6);
    assert Room(0) == 128 * Room(1) && Room(1) == 128 * Room(2) && Room(2) == 128 * Room(3);
  }

  function Varint(n: nat): seq<byte> {
    if n < 128 then [n] else [128 + n % 128] + Varint(n / 128)
  }

  function TakeVarint(bs: seq<byte>, i: nat): Parse<nat>
    requires i <= 10
    decreases 10 - i
  {
    if i == 10 then Err(BadVarint)
    else if |bs| == 0 then Err(UnexpectedEnd)
    else if bs[0] < 128 then
      if i == 9 && bs[0] > 1 then Err(BadVarint) else Ok(bs[0], bs[1..])
    else
      var more := TakeVarint(bs[1..], i + 1);
      if more.Ok? then Ok(bs[0] - 128 + 128 * more.value, more.rest) else more
  }

  lemma {:induction false} VarintReadsBack(n: nat, i: nat, tail: seq<byte>)
    requires i <= 9 && n < Room(i)
    ensures TakeVarint(Varint(n) + tail, i) == Ok(n, tail)
    decreases 9 - i
  {
    var bs := Varint(n) + tail;
    if n < 128 {
      assert bs[1..] == tail;
    } else {
      VarintReadsBack(n / 128, i + 1, tail);
      assert bs[1..] == Varint(n / 128) + tail;
    }
  }

  // ---- values -------------------------------------------------------------------

  /** A value a Rust field of this shape can hold. */
  ghost predicate Fits(s: Shape, v: Value, utf8: seq<byte> -> bool)
    decreases s, 0
  {
    match s
    case Num => v.VNum? && v.n < Room(0)
    case Raw(width) => v.VRaw? && |v.raw| == width
    case Blob => v.VBlob? && |v.blob| < Room(0)
    case Str => v.VStr? && |v.text| < Room(0) && utf8(v.text)
    case Flag => v.VFlag?
    case Opt(some) => v.VNone? || (v.VSome? && Fits(some, v.value, utf8))
    case ListOf(item) => v.VList? && Length(v.items) < Room(0) && AllFit(item, v.items, utf8)
    case Record(fields) => v.VRecord? && FieldsFit(fields, v.values, utf8)
  }

  ghost predicate AllFit(s: Shape, vs: Values, utf8: seq<byte> -> bool)
    decreases s, 1, vs
  {
    vs.Cons? ==> Fits(s, vs.head, utf8) && AllFit(s, vs.tail, utf8)
  }

  ghost predicate FieldsFit(fs: Fields, vs: Values, utf8: seq<byte> -> bool)
    decreases fs, 0
  {
    match fs
    case End => vs.Nil?
    case Field(head, tail) => vs.Cons? && Fits(head, vs.head, utf8) && FieldsFit(tail, vs.tail, utf8)
  }

  function Encode(v: Value): seq<byte>
    decreases v
  {
    match v
    case VNum(n) => Varint(n)
    case VRaw(raw) => raw
    case VBlob(blob) => Varint(|blob|) + blob
    case VStr(text) => Varint(|text|) + text
    case VFlag(flag) => [if flag then 1 else 0]
    case VNone => [0]
    case VSome(value) => [1] + Encode(value)
    case VList(items) => Varint(Length(items)) + EncodeAll(items)
    case VRecord(values) => EncodeAll(values)
  }

  function EncodeAll(vs: Values): seq<byte>
    decreases vs
  {
    match vs
    case Nil => []
    case Cons(head, tail) => Encode(head) + EncodeAll(tail)
  }

  function TakeBytes(bs: seq<byte>, n: nat): Parse<seq<byte>> {
    if |bs| < n then Err(UnexpectedEnd) else Ok(bs[..n], bs[n..])
  }

  function TakeSized(bs: seq<byte>): Parse<seq<byte>> {
    var size := TakeVarint(bs, 0);
    if size.Err? then Err(size.error) else TakeBytes(size.rest, size.value)
  }

  function Decode(s: Shape, bs: seq<byte>, utf8: seq<byte> -> bool): Parse<Value>
    decreases s, 0
  {
    match s
    case Num =>
      var n := TakeVarint(bs, 0);
      if n.Ok? then Ok(VNum(n.value), n.rest) else Err(n.error)
    case Raw(width) =>
      var raw := TakeBytes(bs, width);
      if raw.Ok? then Ok(VRaw(raw.value), raw.rest) else Err(raw.error)
    case Blob =>
      var blob := TakeSized(bs);
      if blob.Ok? then Ok(VBlob(blob.value), blob.rest) else Err(blob.error)
    case Str =>
      var text := TakeSized(bs);
      if text.Err? then Err(text.error)
      else if !utf8(text.value) then Err(BadUtf8)
      else Ok(VStr(text.value), text.rest)
    case Flag =>
      if |bs| == 0 then Err(UnexpectedEnd)
      else if bs[0] > 1 then Err(BadBool)
      else Ok(VFlag(bs[0] == 1), bs[1..])
    case Opt(some) =>
      if |bs| == 0 then Err(UnexpectedEnd)
      else if bs[0] == 0 then Ok(VNone, bs[1..])
      else if bs[0] > 1 then Err(BadOption)
      else
        var value := Decode(some, bs[1..], utf8);
        if value.Ok? then Ok(VSome(value.value), value.rest) else value
    case ListOf(item) =>
      var n := TakeVarint(bs, 0);
      if n.Err? then Err(n.error)
      else
        var items := DecodeMany(item, n.value, n.rest, utf8);
        if items.Ok? then Ok(VList(items.value), items.rest) else Err(items.error)
    case Record(fields) =>
      var values := DecodeFields(fields, bs, utf8);
      if values.Ok? then Ok(VRecord(values.value), values.rest) else Err(values.error)
  }

  function DecodeMany(s: Shape, n: nat, bs: seq<byte>, utf8: seq<byte> -> bool): Parse<Values>
    decreases s, 1, n
  {
    if n == 0 then Ok(Nil, bs)
    else
      var head := Decode(s, bs, utf8);
      if head.Err? then Err(head.error)
      else
        var tail := DecodeMany(s, n - 1, head.rest, utf8);
        if tail.Ok? then Ok(Cons(head.value, tail.value), tail.rest) else tail
  }

  function DecodeFields(fs: Fields, bs: seq<byte>, utf8: seq<byte> -> bool): Parse<Values>
    decreases fs, 0
  {
    match fs
    case End => Ok(Nil, bs)
    case Field(head, tail) =>
      var first := Decode(head, bs, utf8);
      if first.Err? then Err(first.error)
      else
        var rest := DecodeFields(tail, first.rest, utf8);
        if rest.Ok? then Ok(Cons(first.value, rest.value), rest.rest) else rest
  }

  // ---- what was written is read back, whatever follows it --------------------------

  lemma SizedReadsBack(bytes: seq<byte>, tail: seq<byte>)
    requires |bytes| < Room(0)
    ensures TakeSized(Varint(|bytes|) + bytes + tail) == Ok(bytes, tail)
  {
    VarintReadsBack(|bytes|, 0, bytes + tail);
    AppendAssoc(Varint(|bytes|), bytes, tail);
    assert (bytes + tail)[..|bytes|] == bytes && (bytes + tail)[|bytes|..] == tail;
  }

  lemma {:induction false} ReadsBack(s: Shape, v: Value, tail: seq<byte>, utf8: seq<byte> -> bool)
    requires Fits(s, v, utf8)
    ensures Decode(s, Encode(v) + tail, utf8) == Ok(v, tail)
    decreases s, 0
  {
    hide Varint, TakeVarint, Room, TakeSized;
    var bs := Encode(v) + tail;
    match s
    case Num => VarintReadsBack(v.n, 0, tail);
    case Raw(width) => assert bs[..width] == v.raw && bs[width..] == tail;
    case Blob => SizedReadsBack(v.blob, tail);
    case Str => SizedReadsBack(v.text, tail);
    case Flag => assert bs[1..] == tail;
    case Opt(some) =>
      if v.VSome? {
        ReadsBack(some, v.value, tail, utf8);
        assert bs[1..] == Encode(v.value) + tail;
      } else {
        assert bs[1..] == tail;
      }
    case ListOf(item) =>
      ListReadsBack(item, v.items, tail, utf8);
    case Record(fields) => FieldsReadBack(fields, v.values, tail, utf8);
  }

  lemma ListReadsBack(item: Shape, items: Values, tail: seq<byte>, utf8: seq<byte> -> bool)
    requires AllFit(item, items, utf8) && Length(items) < Room(0)
    ensures Decode(ListOf(item), Encode(VList(items)) + tail, utf8) == Ok(VList(items), tail)
    decreases item, 2
  {
    hide Varint, TakeVarint, Room;
    VarintReadsBack(Length(items), 0, EncodeAll(items) + tail);
    AppendAssoc(Varint(Length(items)), EncodeAll(items), tail);
    ManyReadBack(item, items, tail, utf8);
  }

  lemma {:induction false} ManyReadBack(s: Shape, vs: Values, tail: seq<byte>, utf8: seq<byte> -> bool)
    requires AllFit(s, vs, utf8)
    ensures DecodeMany(s, Length(vs), EncodeAll(vs) + tail, utf8) == Ok(vs, tail)
    decreases s, 1, vs
  {
    if vs.Nil? {
      assert [] + tail == tail;
    } else {
      ReadsBack(s, vs.head, EncodeAll(vs.tail) + tail, utf8);
      ManyReadBack(s, vs.tail, tail, utf8);
      AppendAssoc(Encode(vs.head), EncodeAll(vs.tail), tail);
    }
  }

  lemma {:induction false} FieldsReadBack(fs: Fields, vs: Values, tail: seq<byte>, utf8: seq<byte> -> bool)
    requires FieldsFit(fs, vs, utf8)
    ensures DecodeFields(fs, EncodeAll(vs) + tail, utf8) == Ok(vs, tail)
    decreases fs, 0
  {
    if fs.End? {
      assert [] + tail == tail;
    } else {
      ReadsBack(fs.head, vs.head, EncodeAll(vs.tail) + tail, utf8);
      FieldsReadBack(fs.tail, vs.tail, tail, utf8);
      AppendAssoc(Encode(vs.head), EncodeAll(vs.tail), tail);
    }
  }

  // ---- a value takes up at least the bytes that write it ----------------------------

  lemma {:induction false} VarintConsumes(bs: seq<byte>, i: nat)
    requires i <= 10 && TakeVarint(bs, i).Ok?
    ensures |TakeVarint(bs, i).rest| + |Varint(TakeVarint(bs, i).value)| <= |bs|
    decreases 10 - i
  {
    if bs[0] >= 128 {
      VarintConsumes(bs[1..], i + 1);
      var more := TakeVarint(bs[1..], i + 1).value;
      assert (bs[0] - 128 + 128 * more) / 128 == more;
    }
  }

  lemma SizedConsumes(bs: seq<byte>)
    requires TakeSized(bs).Ok?
    ensures |TakeSized(bs).rest| + |Varint(|TakeSized(bs).value|)| + |TakeSized(bs).value| <= |bs|
  {
    VarintConsumes(bs, 0);
  }

  /** Not canonical: what was written may be longer than what would be written, never
      shorter. */
  lemma {:induction false} Consumes(s: Shape, bs: seq<byte>, utf8: seq<byte> -> bool)
    requires Decode(s, bs, utf8).Ok?
    ensures |Decode(s, bs, utf8).rest| + |Encode(Decode(s, bs, utf8).value)| <= |bs|
    decreases s, 0
  {
    hide Varint, TakeVarint, TakeSized;
    match s
    case Num => VarintConsumes(bs, 0);
    case Raw(_) =>
    case Blob => SizedConsumes(bs);
    case Str => SizedConsumes(bs);
    case Flag =>
    case Opt(some) => if bs[0] == 1 { Consumes(some, bs[1..], utf8); }
    case ListOf(item) =>
      VarintConsumes(bs, 0);
      var n := TakeVarint(bs, 0);
      ManyConsume(item, n.value, n.rest, utf8);
    case Record(fields) => FieldsConsume(fields, bs, utf8);
  }

  lemma {:induction false} ManyConsume(s: Shape, n: nat, bs: seq<byte>, utf8: seq<byte> -> bool)
    requires DecodeMany(s, n, bs, utf8).Ok?
    ensures Length(DecodeMany(s, n, bs, utf8).value) == n
    ensures |DecodeMany(s, n, bs, utf8).rest| + |EncodeAll(DecodeMany(s, n, bs, utf8).value)| <= |bs|
    decreases s, 1, n
  {
    if n > 0 {
      Consumes(s, bs, utf8);
      ManyConsume(s, n - 1, Decode(s, bs, utf8).rest, utf8);
    }
  }

  lemma {:induction false} FieldsConsume(fs: Fields, bs: seq<byte>, utf8: seq<byte> -> bool)
    requires DecodeFields(fs, bs, utf8).Ok?
    ensures |DecodeFields(fs, bs, utf8).rest| + |EncodeAll(DecodeFields(fs, bs, utf8).value)| <= |bs|
    decreases fs, 0
  {
    if fs.Field? {
      Consumes(fs.head, bs, utf8);
      FieldsConsume(fs.tail, Decode(fs.head, bs, utf8).rest, utf8);
    }
  }

  // ---- what is read is of its shape ---------------------------------------------------

  lemma {:induction false} VarintBound(bs: seq<byte>, i: nat)
    requires i <= 9 && TakeVarint(bs, i).Ok?
    ensures TakeVarint(bs, i).value < Room(i)
    decreases 10 - i
  {
    RoomFor(i);
    if bs[0] >= 128 && i < 9 {
      VarintBound(bs[1..], i + 1);
      MulMono(TakeVarint(bs[1..], i + 1).value, Room(i + 1) - 1, 128);
    }
  }

  lemma {:induction false} RoomFor(i: nat)
    requires i <= 9
    ensures Room(i) >= 2 && (i < 9 ==> Room(i) == 128 * Room(i + 1) >= 256)
    decreases 9 - i
  {
    if i < 9 { RoomFor(i + 1); }
  }

  /** Whatever decodes is a value the shape can hold: as wide, as small, as well-formed. */
  lemma {:induction false} DecodedFits(s: Shape, bs: seq<byte>, utf8: seq<byte> -> bool)
    requires Decode(s, bs, utf8).Ok?
    ensures Fits(s, Decode(s, bs, utf8).value, utf8)
    decreases s, 0
  {
    hide TakeVarint, Room;
    match s
    case Num => VarintBound(bs, 0);
    case Raw(_) =>
    case Blob => VarintBound(bs, 0);
    case Str => VarintBound(bs, 0);
    case Flag =>
    case Opt(some) => if bs[0] == 1 { DecodedFits(some, bs[1..], utf8); }
    case ListOf(item) =>
      VarintBound(bs, 0);
      var n := TakeVarint(bs, 0);
      ManyConsume(item, n.value, n.rest, utf8);
      ManyFit(item, n.value, n.rest, utf8);
    case Record(fields) => DecodedFieldsFit(fields, bs, utf8);
  }

  lemma {:induction false} ManyFit(s: Shape, n: nat, bs: seq<byte>, utf8: seq<byte> -> bool)
    requires DecodeMany(s, n, bs, utf8).Ok?
    ensures AllFit(s, DecodeMany(s, n, bs, utf8).value, utf8)
    decreases s, 1, n
  {
    if n > 0 {
      DecodedFits(s, bs, utf8);
      ManyFit(s, n - 1, Decode(s, bs, utf8).rest, utf8);
    }
  }

  lemma {:induction false} DecodedFieldsFit(fs: Fields, bs: seq<byte>, utf8: seq<byte> -> bool)
    requires DecodeFields(fs, bs, utf8).Ok?
    ensures FieldsFit(fs, DecodeFields(fs, bs, utf8).value, utf8)
    decreases fs, 0
  {
    if fs.Field? {
      DecodedFits(fs.head, bs, utf8);
      DecodedFieldsFit(fs.tail, Decode(fs.head, bs, utf8).rest, utf8);
    }
  }

  // ---- the format -----------------------------------------------------------------------

  /** Seven bits a byte, the lowest first. */
  function FromGroups(bs: seq<byte>): nat {
    if |bs| == 0 then 0 else bs[0] % 128 + 128 * FromGroups(bs[1..])
  }

  /** A number is its groups of seven bits, all bytes but the last marked as followed, and no
      last byte that adds nothing. */
  lemma {:induction false} VarintIs(n: nat)
    ensures var bs := Varint(n);
      && |bs| > 0 && FromGroups(bs) == n
      && bs[|bs| - 1] < 128 && (forall k :: 0 <= k < |bs| - 1 ==> bs[k] >= 128)
      && (|bs| > 1 ==> bs[|bs| - 1] > 0)
  {
    if n >= 128 {
      VarintIs(n / 128);
      var bs, more := Varint(n), Varint(n / 128);
      assert bs[1..] == more;
    } else {
      assert [n][1..] == [];
    }
  }

  /** Where a number ends: at the first byte that is not marked as followed, the tenth at
      the latest, which may only hold one more bit. */
  predicate EndsAt(bs: seq<byte>, i: nat, k: nat) {
    && k < |bs| && bs[k] < 128 && (forall j :: 0 <= j < k ==> bs[j] >= 128)
    && i + k <= 9 && (i + k == 9 ==> bs[k] <= 1)
  }

  /** A number that ends is read, to the value of its groups. */
  lemma {:induction false} EndingReads(bs: seq<byte>, i: nat, k: nat)
    requires i <= 9 && EndsAt(bs, i, k)
    ensures TakeVarint(bs, i) == Ok(FromGroups(bs[..k + 1]), bs[k + 1..])
    decreases k
  {
    if k == 0 {
      assert bs[..1] == [bs[0]] && [bs[0]][1..] == [];
    } else {
      EndingReads(bs[1..], i + 1, k - 1);
      assert bs[1..][k..] == bs[k + 1..];
      assert bs[..k + 1] == [bs[0]] + bs[1..][..k];
      assert ([bs[0]] + bs[1..][..k])[1..] == bs[1..][..k];
      assert bs[0] % 128 == bs[0] - 128;
    }
  }

  /** And no other. */
  lemma {:induction false} ReadNumberEnds(bs: seq<byte>, i: nat) returns (k: nat)
    requires i <= 10 && TakeVarint(bs, i).Ok?
    ensures EndsAt(bs, i, k)
    decreases 10 - i
  {
    k := 0;
    if bs[0] >= 128 {
      k := ReadNumberEnds(bs[1..], i + 1);
      k := k + 1;
      assert forall j :: 0 < j <= k ==> bs[j] == bs[1..][j - 1];
    }
  }

  lemma VarintStep(low: nat, more: nat)
    requires low < 128
    ensures |Varint(more)| > 0
    ensures Varint(low + 128 * more) == if more == 0 then [low] else [128 + low] + Varint(more)
  {
    assert (low + 128 * more) / 128 == more && (low + 128 * more) % 128 == low;
  }

  lemma {:induction false} VarintSameBytes(bs: seq<byte>, i: nat)
    requires i <= 10 && TakeVarint(bs, i).Ok?
    requires |TakeVarint(bs, i).rest| + |Varint(TakeVarint(bs, i).value)| == |bs|
    ensures bs == Varint(TakeVarint(bs, i).value) + TakeVarint(bs, i).rest
    decreases 10 - i
  {
    assert bs == [bs[0]] + bs[1..];
    if bs[0] >= 128 {
      VarintConsumes(bs[1..], i + 1);
      var more := TakeVarint(bs[1..], i + 1);
      VarintStep(bs[0] - 128, more.value);
      hide Varint;
      VarintSameBytes(bs[1..], i + 1);
      AppendAssoc([bs[0]], Varint(more.value), more.rest);
    }
  }

  lemma SizedSameBytes(bs: seq<byte>)
    requires TakeSized(bs).Ok?
    requires |TakeSized(bs).rest| + |Varint(|TakeSized(bs).value|)| + |TakeSized(bs).value| == |bs|
    ensures bs == Varint(|TakeSized(bs).value|) + TakeSized(bs).value + TakeSized(bs).rest
  {
    hide Varint, TakeVarint;
    var size := TakeVarint(bs, 0);
    VarintConsumes(bs, 0);
    VarintSameBytes(bs, 0);
    SplitBytes(bs, Varint(size.value), size.rest, size.value);
  }

  lemma SplitBytes(bs: seq<byte>, head: seq<byte>, rest: seq<byte>, n: nat)
    requires bs == head + rest && n <= |rest|
    ensures bs == head + rest[..n] + rest[n..]
  {
  }

  /** Apart from numbers written longer than they need be, there is one way to write a
      value: bytes that take up no more than what would be written are what would be. */
  lemma {:induction false} SameLengthSameBytes(s: Shape, bs: seq<byte>, utf8: seq<byte> -> bool)
    requires Decode(s, bs, utf8).Ok?
    requires |Decode(s, bs, utf8).rest| + |Encode(Decode(s, bs, utf8).value)| == |bs|
    ensures bs == Encode(Decode(s, bs, utf8).value) + Decode(s, bs, utf8).rest
    decreases s, 0
  {
    hide Varint, TakeVarint, TakeSized;
    match s
    case Num => VarintSameBytes(bs, 0);
    case Raw(_) =>
    case Blob => SizedSameBytes(bs);
    case Str => SizedSameBytes(bs);
    case Flag => assert bs == [bs[0]] + bs[1..];
    case Opt(some) =>
      assert bs == [bs[0]] + bs[1..];
      if bs[0] == 1 { SameLengthSameBytes(some, bs[1..], utf8); }
    case ListOf(item) => ListSameBytes(item, bs, utf8);
    case Record(fields) => FieldsSameBytes(fields, bs, utf8);
  }

  lemma ListSameBytes(item: Shape, bs: seq<byte>, utf8: seq<byte> -> bool)
    requires Decode(ListOf(item), bs, utf8).Ok?
    requires var r := Decode(ListOf(item), bs, utf8); |r.rest| + |Encode(r.value)| == |bs|
    ensures var r := Decode(ListOf(item), bs, utf8); bs == Encode(r.value) + r.rest
    decreases item, 2
  {
    hide Varint, TakeVarint;
    VarintConsumes(bs, 0);
    var n := TakeVarint(bs, 0);
    ManyConsume(item, n.value, n.rest, utf8);
    VarintSameBytes(bs, 0);
    ManySameBytes(item, n.value, n.rest, utf8);
    var items := DecodeMany(item, n.value, n.rest, utf8);
    AppendAssoc(Varint(n.value), EncodeAll(items.value), items.rest);
  }

  lemma {:induction false} ManySameBytes(s: Shape, n: nat, bs: seq<byte>, utf8: seq<byte> -> bool)
    requires DecodeMany(s, n, bs, utf8).Ok?
    requires |DecodeMany(s, n, bs, utf8).rest| + |EncodeAll(DecodeMany(s, n, bs, utf8).value)| == |bs|
    ensures bs == EncodeAll(DecodeMany(s, n, bs, utf8).value) + DecodeMany(s, n, bs, utf8).rest
    decreases s, 1, n
  {
    if n > 0 {
      Consumes(s, bs, utf8);
      var rest := Decode(s, bs, utf8).rest;
      ManyConsume(s, n - 1, rest, utf8);
      SameLengthSameBytes(s, bs, utf8);
      ManySameBytes(s, n - 1, rest, utf8);
      var tail := DecodeMany(s, n - 1, rest, utf8);
      AppendAssoc(Encode(Decode(s, bs, utf8).value), EncodeAll(tail.value), tail.rest);
    }
  }

  lemma {:induction false} FieldsSameBytes(fs: Fields, bs: seq<byte>, utf8: seq<byte> -> bool)
    requires DecodeFields(fs, bs, utf8).Ok?
    requires |DecodeFields(fs, bs, utf8).rest| + |EncodeAll(DecodeFields(fs, bs, utf8).value)| == |bs|
    ensures bs == EncodeAll(DecodeFields(fs, bs, utf8).value) + DecodeFields(fs, bs, utf8).rest
    decreases fs, 0
  {
    if fs.Field? {
      Consumes(fs.head, bs, utf8);
      var rest := Decode(fs.head, bs, utf8).rest;
      FieldsConsume(fs.tail, rest, utf8);
      SameLengthSameBytes(fs.head, bs, utf8);
      FieldsSameBytes(fs.tail, rest, utf8);
      var tail := DecodeFields(fs.tail, rest, utf8);
      AppendAssoc(Encode(Decode(fs.head, bs, utf8).value), EncodeAll(tail.value), tail.rest);
    }
  }

  // ---- older and newer shapes ---------------------------------------------------------

  /** Reading the shape takes at least one byte. */
  predicate Needs(s: Shape) {
    match s
    case Raw(width) => width > 0
    case Record(fields) => FieldsNeed(fields)
    case _ => true
  }

  predicate FieldsNeed(fs: Fields) {
    fs.Field? && (Needs(fs.head) || FieldsNeed(fs.tail))
  }

  /** A shape that takes no bytes always reads, and takes none. */
  lemma {:induction false} FreeReads(s: Shape, bs: seq<byte>, utf8: seq<byte> -> bool)
    requires !Needs(s)
    ensures Decode(s, bs, utf8).Ok? && Decode(s, bs, utf8).rest == bs
    decreases s, 0
  {
    match s
    case Raw(_) => assert bs[0..] == bs;
    case Record(fields) => FreeFieldsRead(fields, bs, utf8);
  }

  lemma {:induction false} FreeFieldsRead(fs: Fields, bs: seq<byte>, utf8: seq<byte> -> bool)
    requires !FieldsNeed(fs)
    ensures DecodeFields(fs, bs, utf8).Ok? && DecodeFields(fs, bs, utf8).rest == bs
    decreases fs, 0
  {
    if fs.Field? {
      FreeReads(fs.head, bs, utf8);
      FreeFieldsRead(fs.tail, bs, utf8);
    }
  }

  lemma {:induction false} RunsOut(s: Shape, utf8: seq<byte> -> bool)
    requires Needs(s)
    ensures Decode(s, [], utf8) == Err(UnexpectedEnd)
    decreases s, 0
  {
    if s.Record? { FieldsRunOut(s.fields, utf8); }
  }

  lemma {:induction false} FieldsRunOut(fs: Fields, utf8: seq<byte> -> bool)
    requires FieldsNeed(fs)
    ensures DecodeFields(fs, [], utf8) == Err(UnexpectedEnd)
    decreases fs, 0
  {
    if Needs(fs.head) {
      RunsOut(fs.head, utf8);
    } else {
      FreeReads(fs.head, [], utf8);
      FieldsRunOut(fs.tail, utf8);
    }
  }

  /** Bytes written before the fields `more` were added end where `more` begins, and
      reading them as the longer shape fails there and nowhere else. */
  lemma {:induction false} OlderRunsOut(fs: Fields, more: Fields, vs: Values, utf8: seq<byte> -> bool)
    requires FieldsFit(fs, vs, utf8) && FieldsNeed(more)
    ensures DecodeFields(JoinFields(fs, more), EncodeAll(vs), utf8) == Err(UnexpectedEnd)
    decreases fs
  {
    if fs.End? {
      FieldsRunOut(more, utf8);
    } else {
      ReadsBack(fs.head, vs.head, EncodeAll(vs.tail), utf8);
      OlderRunsOut(fs.tail, more, vs.tail, utf8);
    }
  }

  /** Read as an older shape, newer bytes do decode, without the newer fields. */
  lemma {:induction false} OlderShapeDropsFields(fs: Fields, vs: Values, extra: Values, utf8: seq<byte> -> bool)
    requires FieldsFit(fs, vs, utf8)
    ensures DecodeFields(fs, EncodeAll(Join(vs, extra)), utf8) == Ok(vs, EncodeAll(extra))
  {
    EncodeJoin(vs, extra);
    FieldsReadBack(fs, vs, EncodeAll(extra), utf8);
  }

  lemma {:induction false} EncodeJoin(a: Values, b: Values)
    ensures EncodeAll(Join(a, b)) == EncodeAll(a) + EncodeAll(b)
  {
    if a.Cons? {
      EncodeJoin(a.tail, b);
      AppendAssoc(Encode(a.head), EncodeAll(a.tail), EncodeAll(b));
    }
  }

  lemma {:induction false} JoinFieldsAssoc(a: Fields, b: Fields, c: Fields)
    ensures JoinFields(JoinFields(a, b), c) == JoinFields(a, JoinFields(b, c))
  {
    if a.Field? { JoinFieldsAssoc(a.tail, b, c); }
  }

  lemma {:induction false} JoinAssoc(a: Values, b: Values, c: Values)
    ensures Join(Join(a, b), c) == Join(a, Join(b, c))
  {
    if a.Cons? { JoinAssoc(a.tail, b, c); }
  }

  function FieldCount(fs: Fields): nat {
    if fs.End? then 0 else 1 + FieldCount(fs.tail)
  }

  lemma {:induction false} FitCount(fs: Fields, vs: Values, utf8: seq<byte> -> bool)
    requires FieldsFit(fs, vs, utf8)
    ensures Length(vs) == FieldCount(fs)
    decreases fs
  {
    if fs.Field? { FitCount(fs.tail, vs.tail, utf8); }
  }

  /** The values of a longer struct, taken apart. */
  lemma {:induction false} SplitFit(fs: Fields, more: Fields, vs: Values, utf8: seq<byte> -> bool)
    returns (a: Values, b: Values)
    requires FieldsFit(JoinFields(fs, more), vs, utf8)
    ensures vs == Join(a, b) && FieldsFit(fs, a, utf8) && FieldsFit(more, b, utf8) && Length(a) == FieldCount(fs)
    decreases fs
  {
    if fs.End? {
      a, b := Nil, vs;
    } else {
      a, b := SplitFit(fs.tail, more, vs.tail, utf8);
      a := Cons(vs.head, a);
    }
  }

  lemma {:induction false} JoinFit(fs: Fields, more: Fields, vs: Values, extra: Values, utf8: seq<byte> -> bool)
    requires FieldsFit(fs, vs, utf8) && FieldsFit(more, extra, utf8)
    ensures FieldsFit(JoinFields(fs, more), Join(vs, extra), utf8)
    decreases fs
  {
    if fs.Field? { JoinFit(fs.tail, more, vs.tail, extra, utf8); }
  }

  /** One shape a struct has had, and what stands for the fields it lacks. */
  datatype Version = Version(fields: Fields, defaults: Values)

  /** Every shape tried in turn; the first that reads wins, and is filled up. */
  function DecodeNewest(versions: seq<Version>, bs: seq<byte>, utf8: seq<byte> -> bool): Option<Values> {
    if |versions| == 0 then None
    else
      var read := DecodeFields(versions[0].fields, bs, utf8);
      if read.Ok? then Some(Join(read.value, versions[0].defaults)) else DecodeNewest(versions[1..], bs, utf8)
  }

  /** Each version only ever added fields at the end of the one before it. */
  ghost predicate AppendOnly(versions: seq<Version>) {
    forall i, j :: 0 <= i < j < |versions| ==> Extends(versions[i].fields, versions[j].fields)
  }

  ghost predicate Extends(newer: Fields, older: Fields) {
    exists more :: newer == JoinFields(older, more) && FieldsNeed(more)
  }

  /** Newest first, every version is read as what was written in it, with the stated
      defaults for what it did not have. */
  lemma {:induction false} NewestFirstIsExact(versions: seq<Version>, i: nat, vs: Values, utf8: seq<byte> -> bool)
    requires AppendOnly(versions) && i < |versions| && FieldsFit(versions[i].fields, vs, utf8)
    ensures DecodeNewest(versions, EncodeAll(vs), utf8) == Some(Join(vs, versions[i].defaults))
  {
    if i == 0 {
      assert EncodeAll(vs) + [] == EncodeAll(vs);
      FieldsReadBack(versions[0].fields, vs, [], utf8);
    } else {
      assert Extends(versions[0].fields, versions[i].fields);
      var more :| versions[0].fields == JoinFields(versions[i].fields, more) && FieldsNeed(more);
      OlderRunsOut(versions[i].fields, more, vs, utf8);
      assert forall k :: 0 <= k < |versions| - 1 ==> versions[1..][k] == versions[k + 1];
      NewestFirstIsExact(versions[1..], i - 1, vs, utf8);
    }
  }

  /** Whatever is read is some version's, filled up, and was there to be read. */
  lemma {:induction false} NewestConsumes(versions: seq<Version>, bs: seq<byte>, utf8: seq<byte> -> bool)
    returns (i: nat, vs: Values)
    requires DecodeNewest(versions, bs, utf8).Some?
    ensures i < |versions| && DecodeNewest(versions, bs, utf8) == Some(Join(vs, versions[i].defaults))
    ensures |EncodeAll(vs)| <= |bs|
  {
    var read := DecodeFields(versions[0].fields, bs, utf8);
    if read.Ok? {
      FieldsConsume(versions[0].fields, bs, utf8);
      i, vs := 0, read.value;
    } else {
      i, vs := NewestConsumes(versions[1..], bs, utf8);
      i := i + 1;
    }
  }

  /** The newest shape keeps every field even with bytes after it. */
  lemma NewestKeepsAll(versions: seq<Version>, vs: Values, tail: seq<byte>, utf8: seq<byte> -> bool)
    requires |versions| > 0 && FieldsFit(versions[0].fields, vs, utf8)
    ensures DecodeNewest(versions, EncodeAll(vs) + tail, utf8) == Some(Join(vs, versions[0].defaults))
  {
    FieldsReadBack(versions[0].fields, vs, tail, utf8);
  }

  /** Tried in any order that has an older shape before a newer one, the newer fields
      are lost without a word: the order is what makes it exact. */
  lemma OldestFirstForgets(older: Version, rest: seq<Version>, vs: Values, extra: Values, utf8: seq<byte> -> bool)
    requires FieldsFit(older.fields, vs, utf8)
    ensures DecodeNewest([older] + rest, EncodeAll(Join(vs, extra)), utf8) == Some(Join(vs, older.defaults))
  {
    OlderShapeDropsFields(older.fields, vs, extra, utf8);
  }
}
