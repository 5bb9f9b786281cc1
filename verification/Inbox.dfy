/** One inbox shared by several devices (core/src/presence.rs, `InboxSubscription`): what
    a device is shown, what it takes off the relay, and where it takes it from. */
module Inbox {
  import opened Bytes
  import Slots

  type Slot = Slots.Slot
  type Id = seq<byte>
  type DeviceId = seq<byte>

  const MAX_ROW_SLOTS: nat := 1024
  const BACKFILL_EVERY_SECS: nat := 300

  datatype Offer = Offer(origin: Option<DeviceId>, target: Option<DeviceId>, body: seq<byte>)

  /** Something a book can hold: a row, or the mark that one is gone. */
  type Fact = nat

  /** A sync note: a snapshot that decrypts with our key, with all it holds; one that does
      not; or a reference to a deposit. */
  datatype Note = Snapshot(facts: set<Fact>) | Foreign | Elsewhere

  /** What a row's blob turns out to be for this identity. */
  datatype Content = SyncNote(note: Note) | Decoded(offer: Offer) | Undecodable

  datatype Item = Item(id: Id, content: Content)

  /** What reading one slot brings: an error, nothing new, bytes that do not decode, or
      the rows there. */
  datatype Reply = Failed | Quiet | Malformed | Rows(items: seq<Item>)

  // ---- whose offer it is ------------------------------------------------------------

  predicate IsOurs(mine: Option<DeviceId>, offer: Offer) {
    mine.Some? && offer.origin.Some? && mine == offer.origin
  }

  predicate AimedElsewhere(mine: Option<DeviceId>, offer: Offer) {
    mine.Some? && offer.target.Some? && mine != offer.target
  }

  predicate Shown(mine: Option<DeviceId>, content: Content) {
    content.Decoded? && !IsOurs(mine, content.offer) && !AimedElsewhere(mine, content.offer)
  }

  /** Not knowing never turns into declining: an offer is kept from a device only if both
      name a device, and it is the poster's own or aimed at another. */
  lemma ShownIff(mine: Option<DeviceId>, offer: Offer)
    ensures !Shown(mine, Decoded(offer)) <==>
      mine.Some? && (offer.origin == mine || (offer.target.Some? && offer.target != mine))
  {
  }

  // ---- what a subscription remembers ---------------------------------------------------

  datatype Memory = Memory(rowSlots: map<Id, Slot>, held: set<Id>, undecodable: set<Id>, lastBackfill: nat)

  const BLANK := Memory(map[], {}, {}, 0)

  function Ids(items: seq<Item>): (ids: set<Id>)
    ensures forall item :: item in items ==> item.id in ids
    ensures forall id :: id in ids ==> exists item :: item in items && item.id == id
  {
    set item | item in items :: item.id
  }

  function PutAll(rowSlots: map<Id, Slot>, slot: Slot, items: seq<Item>): map<Id, Slot> {
    if |items| == 0 then rowSlots
    else PutAll(rowSlots, slot, items[..|items| - 1])[items[|items| - 1].id := slot]
  }

  /** `remember_rows`: past its cap the whole map is forgotten first. */
  function Remembered(rowSlots: map<Id, Slot>, slot: Slot, items: seq<Item>): map<Id, Slot> {
    PutAll(if |rowSlots| > MAX_ROW_SLOTS then map[] else rowSlots, slot, items)
  }

  lemma {:induction false} PutAllHolds(rowSlots: map<Id, Slot>, slot: Slot, items: seq<Item>, id: Id)
    ensures id in Ids(items) ==> id in PutAll(rowSlots, slot, items) && PutAll(rowSlots, slot, items)[id] == slot
    ensures id !in Ids(items) ==> (id in PutAll(rowSlots, slot, items) <==> id in rowSlots)
    ensures id !in Ids(items) && id in rowSlots ==> PutAll(rowSlots, slot, items)[id] == rowSlots[id]
  {
    if |items| > 0 {
      var front, last := items[..|items| - 1], items[|items| - 1];
      PutAllHolds(rowSlots, slot, front, id);
      assert items == front + [last];
      assert Ids(items) == Ids(front) + {last.id};
    }
  }

  function After(m: Memory, slot: Slot, first: bool, items: seq<Item>): Memory {
    var n := m.(rowSlots := Remembered(m.rowSlots, slot, items));
    if first then n.(held := Ids(items)) else n
  }

  /** `backfill_due`: whether the older slots are looked in, and the clock stamped if so. */
  function BackfillAt(m: Memory, i: nat, backfill: bool, now: nat): (Memory, bool) {
    if i == 1 && !backfill then
      if now - m.lastBackfill < BACKFILL_EVERY_SECS then (m, false) else (m.(lastBackfill := now), true)
    else (m, backfill)
  }

  /** Reading the slots from `i` on. */
  function Visit(m: Memory, slots: seq<Slot>, i: nat, backfill: bool, now: nat, replies: seq<Reply>): (Memory, Option<seq<Item>>)
    requires |replies| == |slots|
    decreases |slots| - i
  {
    if i >= |slots| then (m, Some([]))
    else
      var (n, on) := BackfillAt(m, i, backfill, now);
      if i > 0 && !on then (n, Some([]))
      else
        match replies[i]
        case Failed => if i == 0 then (n, None) else Visit(n, slots, i + 1, on, now, replies)
        case Quiet => Visit(n, slots, i + 1, on, now, replies)
        case Malformed => (n, None)
        case Rows(items) => Joined(items, Visit(After(n, slots[i], i == 0, items), slots, i + 1, on, now, replies))
  }

  /** What was read before, then the rest. */
  function Joined(out: seq<Item>, rest: (Memory, Option<seq<Item>>)): (Memory, Option<seq<Item>>) {
    (rest.0, if rest.1.Some? then Some(out + rest.1.value) else None)
  }

  /** `items_across_slots`: the older slots always on a one-shot read, and otherwise now
      and then. */
  function Read(m: Memory, slots: seq<Slot>, wait: nat, now: nat, replies: seq<Reply>): (Memory, Option<seq<Item>>)
    requires |replies| == |slots|
  {
    Visit(m, slots, 0, wait == 0, now, replies)
  }

  // ---- what a read brings, slot by slot ------------------------------------------------

  /** The older slots are looked in on a one-shot read, and else when they have not been
      for long enough. */
  predicate Due(m: Memory, wait: nat, now: nat) {
    wait == 0 || now - m.lastBackfill >= BACKFILL_EVERY_SECS
  }

  /** How many slots are looked in, from the current one on. */
  function Looked(m: Memory, slots: seq<Slot>, wait: nat, now: nat): (n: nat)
    ensures n <= |slots|
  {
    if Due(m, wait, now) || |slots| == 0 then |slots| else 1
  }

  function RowsOf(replies: seq<Reply>): seq<Item> {
    if |replies| == 0 then []
    else (if replies[0].Rows? then replies[0].items else []) + RowsOf(replies[1..])
  }

  predicate SomeMalformed(replies: seq<Reply>) {
    exists r :: r in replies && r.Malformed?
  }

  /** A read fails exactly if the current slot does, or bytes from a slot it looks in do not
      decode; else it brings the rows of every slot it looks in, in order. It holds the rows
      of the current slot, and dates the older ones if it was time for them. */
  ghost predicate ReadAs(m: Memory, n: Memory, slots: seq<Slot>, wait: nat, now: nat, replies: seq<Reply>, r: Option<seq<Item>>)
    requires |replies| == |slots|
  {
    var seen := replies[..Looked(m, slots, wait, now)];
    && (r.None? <==> (|seen| > 0 && seen[0].Failed?) || SomeMalformed(seen))
    && (r.Some? ==> r.value == RowsOf(seen))
    && n.held == (if |seen| > 0 && seen[0].Rows? then Ids(seen[0].items) else m.held) && n.undecodable == m.undecodable
    && (r.Some? ==> n.lastBackfill == if |slots| > 1 && wait > 0 && Due(m, wait, now) then now else m.lastBackfill)
  }

  lemma {:induction false} OlderSlotsRead(m: Memory, slots: seq<Slot>, i: nat, now: nat, replies: seq<Reply>)
    requires |replies| == |slots| && 1 <= i <= |slots|
    ensures var (n, r) := Visit(m, slots, i, true, now, replies);
      && (r.None? <==> SomeMalformed(replies[i..])) && (r.Some? ==> r.value == RowsOf(replies[i..]))
      && n.held == m.held && n.undecodable == m.undecodable && n.lastBackfill == m.lastBackfill
    decreases |slots| - i
  {
    if i < |slots| {
      assert replies[i..][0] == replies[i] && replies[i..][1..] == replies[i + 1..];
      assert forall r :: r in replies[i..] <==> r == replies[i] || r in replies[i + 1..];
      match replies[i]
      case Malformed =>
      case Rows(items) => OlderSlotsRead(After(m, slots[i], false, items), slots, i + 1, now, replies);
      case _ => OlderSlotsRead(m, slots, i + 1, now, replies);
    }
  }

  lemma Dated(m: Memory, slots: seq<Slot>, wait: nat, now: nat, replies: seq<Reply>)
    requires |replies| == |slots| && |slots| > 0 && Due(m, wait, now)
    ensures Visit(m, slots, 1, wait == 0, now, replies)
         == Visit(if |slots| > 1 && wait > 0 then m.(lastBackfill := now) else m, slots, 1, true, now, replies)
  {
  }

  lemma ReadIs(m: Memory, slots: seq<Slot>, wait: nat, now: nat, replies: seq<Reply>)
    requires |replies| == |slots|
    ensures var (n, r) := Read(m, slots, wait, now, replies); ReadAs(m, n, slots, wait, now, replies, r)
  {
    hide Remembered, Ids;
    if |slots| > 0 {
      var seen := replies[..Looked(m, slots, wait, now)];
      var first := if replies[0].Rows? then After(m, slots[0], true, replies[0].items) else m;
      assert seen[0] == replies[0];
      assert forall r :: r in seen <==> r == seen[0] || r in seen[1..];
      if Due(m, wait, now) {
        assert seen == replies && replies[1..] == seen[1..];
        var dated := if |slots| > 1 && wait > 0 then first.(lastBackfill := now) else first;
        OlderSlotsRead(dated, slots, 1, now, replies);
        Dated(first, slots, wait, now, replies);
      } else {
        assert seen == [seen[0]] && seen[1..] == [] && RowsOf([]) == [];
        assert Visit(first, slots, 1, false, now, replies) == (first, Some([]));
        match replies[0]
        case Rows(items) => assert Joined(items, (first, Some([]))).1 == Some(items + []);
        case _ =>
      }
    }
  }

  /** `poll_wait` on what was read: the offers to show, the rows that made no sense. */
  function ToShow(mine: Option<DeviceId>, items: seq<Item>): seq<(Id, Offer)> {
    if |items| == 0 then []
    else
      ToShow(mine, items[..|items| - 1])
      + var last := items[|items| - 1]; if Shown(mine, last.content) then [(last.id, last.content.offer)] else []
  }

  function Garbled(items: seq<Item>): set<Id> {
    set item | item in items && item.content.Undecodable? :: item.id
  }

  /** Exactly the offers this device may have are shown, nothing dropped. */
  lemma {:induction false} ShownExactly(mine: Option<DeviceId>, items: seq<Item>, id: Id, offer: Offer)
    ensures (id, offer) in ToShow(mine, items) <==> Item(id, Decoded(offer)) in items && Shown(mine, Decoded(offer))
  {
    if |items| > 0 {
      var front, last := items[..|items| - 1], items[|items| - 1];
      ShownExactly(mine, front, id, offer);
      assert items == front + [last];
    }
  }

  predicate InSlot(replies: seq<Reply>, j: nat, item: Item) {
    j < |replies| && replies[j].Rows? && item in replies[j].items
  }

  lemma {:induction false} RowsFrom(replies: seq<Reply>, item: Item)
    ensures item in RowsOf(replies) <==> exists j: nat :: InSlot(replies, j, item)
  {
    if |replies| > 0 {
      RowsFrom(replies[1..], item);
      if j: nat :| InSlot(replies[1..], j, item) { assert InSlot(replies, j + 1, item); }
      forall j: nat | InSlot(replies, j, item) ensures j == 0 || InSlot(replies[1..], j - 1, item) {}
      if item in RowsOf(replies) && item !in RowsOf(replies[1..]) { assert InSlot(replies, 0, item); }
    }
  }

  /** Held or not, a poll that does not fail shows exactly the offers this device may have
      among the rows of the slots it looked in. */
  lemma PollShows(m: Memory, mine: Option<DeviceId>, slots: seq<Slot>, wait: nat, now: nat, replies: seq<Reply>, id: Id, offer: Offer)
    requires |replies| == |slots|
    ensures var r := Read(m, slots, wait, now, replies).1;
      var seen := replies[..Looked(m, slots, wait, now)];
      r.Some? && (id, offer) in ToShow(mine, r.value)
      <==> !(|seen| > 0 && seen[0].Failed?) && !SomeMalformed(seen) && Shown(mine, Decoded(offer))
           && exists j: nat :: InSlot(seen, j, Item(id, Decoded(offer)))
  {
    hide Shown, Read, ToShow;
    ReadIs(m, slots, wait, now, replies);
    var r := Read(m, slots, wait, now, replies).1;
    RowsFrom(replies[..Looked(m, slots, wait, now)], Item(id, Decoded(offer)));
    if r.Some? { ShownExactly(mine, r.value, id, offer); }
  }

  class Subscription {
    var origin: Option<DeviceId>
    var rowSlots: map<Id, Slot>
    var held: set<Id>
    var undecodable: set<Id>
    var lastBackfill: nat

    function View(): Memory
      reads this
    {
      Memory(rowSlots, held, undecodable, lastBackfill)
    }

    constructor ()
      ensures View() == BLANK && origin == None
    {
      origin, rowSlots, held, undecodable, lastBackfill := None, map[], {}, {}, 0;
    }

    method RememberRows(slot: Slot, items: seq<Item>)
      modifies this`rowSlots
      ensures rowSlots == Remembered(old(rowSlots), slot, items)
    {
      if |rowSlots| > MAX_ROW_SLOTS {
        rowSlots := map[];
      }
      ghost var base := rowSlots;
      for k := 0 to |items|
        invariant rowSlots == PutAll(base, slot, items[..k])
      {
        assert items[..k + 1][..k] == items[..k];
        rowSlots := rowSlots[items[k].id := slot];
      }
      assert items[..|items|] == items;
    }

    method BackfillDue(now: nat) returns (due: bool)
      modifies this`lastBackfill
      ensures due == (now - old(lastBackfill) >= BACKFILL_EVERY_SECS)
      ensures lastBackfill == if due then now else old(lastBackfill)
    {
      if Max(now - lastBackfill, 0) < BACKFILL_EVERY_SECS { return false; }
      lastBackfill := now;
      return true;
    }

    method ItemsAcrossSlots(slots: seq<Slot>, wait: nat, now: nat, replies: seq<Reply>) returns (r: Option<seq<Item>>)
      requires |replies| == |slots|
      modifies this
      ensures (View(), r) == Read(old(View()), slots, wait, now, replies)
      ensures ReadAs(old(View()), View(), slots, wait, now, replies, r)
      ensures origin == old(origin)
    {
      ReadIs(View(), slots, wait, now, replies);
      hide Remembered, Ids, ReadAs;
      var out: seq<Item> := [];
      var backfill := wait == 0;
      ghost var all := Read(View(), slots, wait, now, replies);
      JoinNothing(all);
      var i := 0;
      while i < |slots|
        invariant 0 <= i <= |slots| && origin == old(origin)
        invariant all == Joined(out, Visit(View(), slots, i, backfill, now, replies))
      {
        if i == 1 && !backfill { backfill := BackfillDue(now); }
        if i > 0 && !backfill { break; }
        match replies[i] {
          case Failed => if i == 0 { return None; }
          case Quiet =>
          case Malformed => return None;
          case Rows(items) =>
            RememberRows(slots[i], items);
            if i == 0 { held := Ids(items); }
            JoinMore(out, items, Visit(View(), slots, i + 1, backfill, now, replies));
            out := out + items;
        }
        i := i + 1;
      }
      assert out + [] == out;
      return Some(out);
    }

    /** One poll: what it shows, and nothing taken off the relay. */
    method PollWait(slots: seq<Slot>, wait: nat, now: nat, replies: seq<Reply>) returns (r: Option<seq<(Id, Offer)>>)
      requires |replies| == |slots|
      modifies this
      ensures var (m, items) := Read(old(View()), slots, wait, now, replies);
        && r == (if items.Some? then Some(ToShow(origin, items.value)) else None)
        && View() == if items.Some? then m.(undecodable := m.undecodable + Garbled(items.value)) else m
      ensures origin == old(origin)
    {
      hide Read;
      var items := ItemsAcrossSlots(slots, wait, now, replies);
      if items.None? { return None; }
      var out: seq<(Id, Offer)> := [];
      ghost var base := undecodable;
      for k := 0 to |items.value|
        invariant origin == old(origin)
        invariant View() == Read(old(View()), slots, wait, now, replies).0.(undecodable := base + Garbled(items.value[..k]))
        invariant out == ToShow(origin, items.value[..k])
      {
        var item := items.value[k];
        assert items.value[..k + 1] == items.value[..k] + [item] && items.value[..k + 1][..k] == items.value[..k];
        GarbledSnoc(items.value[..k], item);
        match item.content {
          case SyncNote(_) =>
          case Undecodable => undecodable := undecodable + {item.id};
          case Decoded(offer) =>
            if IsOurs(origin, offer) {
            } else if AimedElsewhere(origin, offer) {
            } else {
              out := out + [(item.id, offer)];
            }
        }
      }
      assert items.value[..|items.value|] == items.value;
      return Some(out);
    }

    /** `ack`: the slot the row was read from, or the current one for a row that is not
        remembered; forgotten once the relay has taken the request. */
    method Ack(id: Id, current: Slot, accepted: bool) returns (slot: Slot)
      modifies this`rowSlots
      ensures slot == AckSlot(old(rowSlots), id, current)
      ensures rowSlots == if accepted then old(rowSlots) - {id} else old(rowSlots)
    {
      slot := if id in rowSlots then rowSlots[id] else current;
      if accepted { rowSlots := rowSlots - {id}; }
    }
  }

  function AckSlot(rowSlots: map<Id, Slot>, id: Id, current: Slot): Slot {
    if id in rowSlots then rowSlots[id] else current
  }

  lemma JoinNothing(rest: (Memory, Option<seq<Item>>))
    ensures Joined([], rest) == rest
  {
    if rest.1.Some? { assert [] + rest.1.value == rest.1.value; }
  }

  lemma JoinMore(out: seq<Item>, items: seq<Item>, rest: (Memory, Option<seq<Item>>))
    ensures Joined(out, Joined(items, rest)) == Joined(out + items, rest)
  {
    if rest.1.Some? { AppendAssoc(out, items, rest.1.value); }
  }

  lemma GarbledSnoc(items: seq<Item>, item: Item)
    ensures Garbled(items + [item]) == Garbled(items) + if item.content.Undecodable? then {item.id} else {}
    ensures Garbled([]) == {}
  {
  }
}
