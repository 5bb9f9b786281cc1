/** Any number of devices on one inbox, in any interleaving: who is shown an offer, who
    can take it away, what a sync round may delete, and that whoever looks finds it. */
module InboxRuns {
  import opened Bytes
  import opened Inbox
  import Slots

  type Token = seq<byte>

  /** A row as it was put on the relay: `token` lets its poster take it back, `at` counts
      the rows before it. */
  datatype Row = Row(slot: Slot, content: Content, token: Option<Token>, at: nat)

  /** Why a row is not there any more. */
  datatype Fate = Expired | Withdrawn(token: Token) | Taken(device: DeviceId) | Swept(round: nat)

  datatype Device = Device(memory: Memory, shown: set<Id>)

  /** A sync round past its reading, on a subscription of its own: what the book held once
      it had merged, the notes it will delete, and what it has published. */
  datatype Round = Round(device: DeviceId, memory: Memory, merged: set<Fact>, sweep: set<Id>, published: Option<Id>)

  datatype World = World(
    knows: set<DeviceId>,              // devices that were told which one they are
    posted: map<Id, Row>,              // every row there ever was
    gone: map<Id, Fate>,
    devices: map<DeviceId, Device>,
    books: map<DeviceId, set<Fact>>,   // the address book of a device
    rounds: map<nat, Round>)

  datatype Action =
    | Post(id: Id, slot: Slot, content: Content, token: Option<Token>)
    | Withdraw(id: Id, with: Token)
    | Expire(id: Id)
    | Start(device: DeviceId)                        // or restart: memory is lost
    | Poll(device: DeviceId, slots: seq<Slot>, wait: nat, now: nat, replies: seq<Reply>)
    | Ack(device: DeviceId, id: Id, current: Slot, processed: bool, accepted: bool)
    | Learn(device: DeviceId, fact: Fact)            // an edit of the book
    | SyncRead(round: nat, device: DeviceId, slots: seq<Slot>, now: nat, replies: seq<Reply>, done: nat)
    | SyncPublish(round: nat, id: Id, slot: Slot, facts: set<Fact>)
    | SyncAck(round: nat, id: Id, current: Slot, processed: bool, accepted: bool)

  function Begin(knows: set<DeviceId>): World {
    World(knows, map[], map[], map[], map[], map[])
  }

  function Origin(w: World, d: DeviceId): Option<DeviceId> {
    if d in w.knows then Some(d) else None
  }

  function Book(w: World, d: DeviceId): set<Fact> {
    if d in w.books then w.books[d] else {}
  }

  /** On the relay now, in this slot. */
  predicate There(w: World, slot: Slot, id: Id) {
    id in w.posted && w.posted[id].slot == slot && id !in w.gone
  }

  /** A reply names rows that are there; a blob may fail to decode, this time. */
  predicate Truthful(w: World, slot: Slot, reply: Reply) {
    reply.Rows? ==> forall item :: item in reply.items ==>
      There(w, slot, item.id) && (item.content == w.posted[item.id].content || item.content == Undecodable)
  }

  ghost predicate AllTruthful(w: World, slots: seq<Slot>, replies: seq<Reply>)
    requires |replies| == |slots|
  {
    forall i :: 0 <= i < |slots| ==> Truthful(w, slots[i], replies[i])
  }

  /** The relay gives every row its own id, and takes one back only for the token it came
      with; a person only ever settles what was shown; a round deletes only once it has
      published, and publishes the book it merged into, edited since or not. */
  ghost predicate Enabled(w: World, a: Action) {
    match a
    case Post(id, _, _, _) => id !in w.posted
    case Withdraw(id, token) => id in w.posted && id !in w.gone && w.posted[id].token == Some(token)
    case Expire(id) => id in w.posted && id !in w.gone
    case Start(_) => true
    case Poll(d, slots, _, _, replies) => d in w.devices && |replies| == |slots| && AllTruthful(w, slots, replies)
    case Ack(d, id, _, processed, accepted) =>
      d in w.devices && id in w.devices[d].shown && (accepted ==> processed)
    case Learn(_, _) => true
    case SyncRead(n, _, slots, _, replies, _) => n !in w.rounds && |replies| == |slots| && AllTruthful(w, slots, replies)
    case SyncPublish(n, id, _, facts) =>
      && n in w.rounds && w.rounds[n].published.None? && id !in w.posted
      && w.rounds[n].merged <= facts <= Book(w, w.rounds[n].device)
    case SyncAck(n, id, _, processed, accepted) =>
      n in w.rounds && w.rounds[n].published.Some? && id in w.rounds[n].sweep && (accepted ==> processed)
  }

  // ---- the steps -----------------------------------------------------------------------

  function Posted(w: World, id: Id, slot: Slot, content: Content, token: Option<Token>): World {
    w.(posted := w.posted[id := Row(slot, content, token, |w.posted|)])
  }

  /** The relay is asked to delete a row, and does if it is in the slot named. */
  function Deleted(w: World, slot: Slot, id: Id, fate: Fate): World {
    if There(w, slot, id) then w.(gone := w.gone[id := fate]) else w
  }

  function Started(w: World, d: DeviceId): World {
    w.(devices := w.devices[d := Device(BLANK, if d in w.devices then w.devices[d].shown else {})])
  }

  function IdsShown(offers: seq<(Id, Offer)>): set<Id> {
    set o | o in offers :: o.0
  }

  function Polled(v: Device, mine: Option<DeviceId>, slots: seq<Slot>, wait: nat, now: nat, replies: seq<Reply>): Device
    requires |replies| == |slots|
  {
    var (m, items) := Read(v.memory, slots, wait, now, replies);
    if items.None? then v.(memory := m)
    else Device(m.(undecodable := m.undecodable + Garbled(items.value)), v.shown + IdsShown(ToShow(mine, items.value)))
  }

  function Forgotten(m: Memory, id: Id, accepted: bool): Memory {
    if accepted then m.(rowSlots := m.rowSlots - {id}) else m
  }

  function Acked(w: World, d: DeviceId, id: Id, current: Slot, processed: bool, accepted: bool): World
    requires d in w.devices
  {
    var v := w.devices[d];
    var t := if processed then Deleted(w, AckSlot(v.memory.rowSlots, id, current), id, Taken(d)) else w;
    t.(devices := w.devices[d := v.(memory := Forgotten(v.memory, id, accepted))])
  }

  /** What merging the snapshots among these items adds to a book. */
  function Merged(items: seq<Item>): set<Fact> {
    set item, f | item in items && item.content.SyncNote? && item.content.note.Snapshot?
                  && f in item.content.note.facts :: f
  }

  /** What a round deletes once it has published: the snapshots it merged and those that
      are not ours, but no offer, no junk and no reference. */
  predicate Sweepable(content: Content) {
    content.SyncNote? && !content.note.Elsewhere?
  }

  function ToSweep(items: seq<Item>): set<Id> {
    set item | item in items && Sweepable(item.content) :: item.id
  }

  /** The pull of `sync_round`: it may break off after `done` items, having merged those. */
  function Pulled(w: World, n: nat, d: DeviceId, slots: seq<Slot>, now: nat, replies: seq<Reply>, done: nat): World
    requires |replies| == |slots|
  {
    var (m, items) := Read(BLANK, slots, 0, now, replies);
    if items.None? then w
    else if done < |items.value| then w.(books := w.books[d := Book(w, d) + Merged(items.value[..done])])
    else
      var book := Book(w, d) + Merged(items.value);
      w.(books := w.books[d := book], rounds := w.rounds[n := Round(d, m, book, ToSweep(items.value), None)])
  }

  function Published(w: World, n: nat, id: Id, slot: Slot, facts: set<Fact>): World
    requires n in w.rounds
  {
    Posted(w, id, slot, SyncNote(Snapshot(facts)), None).(
      rounds := w.rounds[n := w.rounds[n].(published := Some(id))])
  }

  function Cleared(w: World, n: nat, id: Id, current: Slot, processed: bool, accepted: bool): World
    requires n in w.rounds
  {
    var r := w.rounds[n];
    var t := if processed then Deleted(w, AckSlot(r.memory.rowSlots, id, current), id, Swept(n)) else w;
    t.(rounds := w.rounds[n := r.(memory := Forgotten(r.memory, id, accepted))])
  }

  ghost function Next(w: World, a: Action): World
    requires Enabled(w, a)
  {
    match a
    case Post(id, slot, content, token) => Posted(w, id, slot, content, token)
    case Withdraw(id, token) => Deleted(w, w.posted[id].slot, id, Withdrawn(token))
    case Expire(id) => Deleted(w, w.posted[id].slot, id, Expired)
    case Start(d) => Started(w, d)
    case Poll(d, slots, wait, now, replies) =>
      w.(devices := w.devices[d := Polled(w.devices[d], Origin(w, d), slots, wait, now, replies)])
    case Ack(d, id, current, processed, accepted) => Acked(w, d, id, current, processed, accepted)
    case Learn(d, fact) => w.(books := w.books[d := Book(w, d) + {fact}])
    case SyncRead(n, d, slots, now, replies, done) => Pulled(w, n, d, slots, now, replies, done)
    case SyncPublish(n, id, slot, facts) => Published(w, n, id, slot, facts)
    case SyncAck(n, id, current, processed, accepted) => Cleared(w, n, id, current, processed, accepted)
  }

  ghost function Run(w: World, actions: seq<Action>): World {
    if |actions| == 0 then w
    else
      var before := Run(w, actions[..|actions| - 1]);
      var last := actions[|actions| - 1];
      if Enabled(before, last) then Next(before, last) else before
  }

  // ---- what every run keeps ------------------------------------------------------------

  ghost predicate SlotsPosted(w: World, rowSlots: map<Id, Slot>) {
    forall id :: id in rowSlots ==> id in w.posted && w.posted[id].slot == rowSlots[id]
  }

  /** There is an offer behind an id, and this device may have it. */
  predicate MayHave(w: World, d: DeviceId, id: Id) {
    id in w.posted && Shown(Origin(w, d), w.posted[id].content)
  }

  /** There is a note behind an id, and it may be deleted. */
  predicate MaySweep(w: World, id: Id) {
    id in w.posted && Sweepable(w.posted[id].content)
  }

  ghost predicate DeviceOk(w: World, d: DeviceId, v: Device) {
    SlotsPosted(w, v.memory.rowSlots) && forall id :: id in v.shown ==> MayHave(w, d, id)
  }

  ghost predicate RoundOk(w: World, r: Round) {
    SlotsPosted(w, r.memory.rowSlots) && forall id :: id in r.sweep ==> MaySweep(w, id)
  }

  /** A row goes by its time, by its poster, by the ack of a device that may have its
      offer, or as a note that a round read and that has published since. */
  predicate FateOk(w: World, id: Id, fate: Fate) {
    id in w.posted &&
    match fate
    case Expired => true
    case Withdrawn(token) => w.posted[id].token == Some(token)
    case Taken(d) => MayHave(w, d, id)
    case Swept(n) => MaySweep(w, id) && n in w.rounds && id in w.rounds[n].sweep && w.rounds[n].published.Some?
  }

  ghost predicate Inv(w: World) {
    && (forall id :: id in w.gone ==> FateOk(w, id, w.gone[id]))
    && (forall d :: d in w.devices ==> DeviceOk(w, d, w.devices[d]))
    && (forall n :: n in w.rounds ==> RoundOk(w, w.rounds[n]))
  }

  /** What was read and made sense is on the relay, as it is there. */
  ghost predicate FromRows(w: World, items: seq<Item>) {
    forall item :: item in items && !item.content.Undecodable? ==>
      item.id in w.posted && item.id !in w.gone && w.posted[item.id].content == item.content
  }

  lemma RememberedPosted(w: World, rowSlots: map<Id, Slot>, slot: Slot, items: seq<Item>)
    requires SlotsPosted(w, rowSlots) && Truthful(w, slot, Rows(items))
    ensures SlotsPosted(w, Remembered(rowSlots, slot, items))
  {
    var base: map<Id, Slot> := if |rowSlots| > MAX_ROW_SLOTS then map[] else rowSlots;
    forall id | id in PutAll(base, slot, items)
      ensures id in w.posted && w.posted[id].slot == PutAll(base, slot, items)[id]
    {
      PutAllHolds(base, slot, items, id);
      if id in Ids(items) {
        var item :| item in items && item.id == id;
        assert There(w, slot, id);
      }
    }
  }

  lemma {:induction false} VisitTruthful(w: World, m: Memory, slots: seq<Slot>, i: nat, backfill: bool, now: nat, replies: seq<Reply>)
    requires SlotsPosted(w, m.rowSlots) && |replies| == |slots| && AllTruthful(w, slots, replies)
    ensures var (n, items) := Visit(m, slots, i, backfill, now, replies);
      SlotsPosted(w, n.rowSlots) && (items.Some? ==> FromRows(w, items.value))
    decreases |slots| - i
  {
    hide Remembered, Ids;
    if i < |slots| {
      var (n, on) := BackfillAt(m, i, backfill, now);
      if i == 0 || on {
        match replies[i]
        case Failed => if i > 0 { VisitTruthful(w, n, slots, i + 1, on, now, replies); }
        case Quiet => VisitTruthful(w, n, slots, i + 1, on, now, replies);
        case Malformed =>
        case Rows(items) =>
          assert Truthful(w, slots[i], replies[i]);
          RememberedPosted(w, n.rowSlots, slots[i], items);
          VisitTruthful(w, After(n, slots[i], i == 0, items), slots, i + 1, on, now, replies);
      }
    }
  }

  /** The device that polled has only rows that are posted, and offers it may have. */
  lemma PolledOk(w: World, d: DeviceId, v: Device, slots: seq<Slot>, wait: nat, now: nat, replies: seq<Reply>)
    requires DeviceOk(w, d, v) && |replies| == |slots| && AllTruthful(w, slots, replies)
    ensures DeviceOk(w, d, Polled(v, Origin(w, d), slots, wait, now, replies))
  {
    hide ToShow, AllTruthful;
    var mine := Origin(w, d);
    VisitTruthful(w, v.memory, slots, 0, wait == 0, now, replies);
    hide Visit;
    var items := Read(v.memory, slots, wait, now, replies).1;
    if items.Some? {
      forall id | id in IdsShown(ToShow(mine, items.value)) ensures MayHave(w, d, id) {
        var o :| o in ToShow(mine, items.value) && o.0 == id;
        ShownExactly(mine, items.value, o.0, o.1);
      }
    }
  }

  /** A round that reads has only rows that are posted, and notes it may delete. */
  lemma PulledOk(w: World, n: nat, d: DeviceId, slots: seq<Slot>, now: nat, replies: seq<Reply>, done: nat)
    requires n !in w.rounds && |replies| == |slots| && AllTruthful(w, slots, replies)
    ensures var t := Pulled(w, n, d, slots, now, replies, done); n in t.rounds ==> RoundOk(w, t.rounds[n])
  {
    hide AllTruthful, Merged;
    VisitTruthful(w, BLANK, slots, 0, true, now, replies);
    hide Visit;
    var items := Read(BLANK, slots, 0, now, replies).1;
    if items.Some? {
      forall id | id in ToSweep(items.value) ensures MaySweep(w, id) {
        var item :| item in items.value && Sweepable(item.content) && item.id == id;
      }
    }
  }

  ghost predicate BooksGrow(w: World, t: World) {
    forall d :: Book(w, d) <= Book(t, d)
  }

  /** A pull adds to a book, and perhaps begins a round; nothing else. */
  lemma PulledMoves(w: World, n: nat, d: DeviceId, slots: seq<Slot>, now: nat, replies: seq<Reply>, done: nat)
    requires n !in w.rounds && |replies| == |slots|
    ensures var t := Pulled(w, n, d, slots, now, replies, done);
      && t == w.(books := t.books, rounds := t.rounds) && BooksGrow(w, t)
      && (t.rounds == w.rounds || (n in t.rounds && t.rounds == w.rounds[n := t.rounds[n]]))
  {
    hide Read, Merged, ToSweep;
  }

  /** What only ever grows: and so what may be had or deleted once may be later. */
  ghost predicate Grows(w: World, t: World) {
    && t.knows == w.knows
    && (forall id :: id in w.posted ==> id in t.posted && t.posted[id] == w.posted[id])
    && (forall n :: n in w.rounds ==>
        n in t.rounds && t.rounds[n].sweep == w.rounds[n].sweep && t.rounds[n].merged == w.rounds[n].merged
        && (w.rounds[n].published.Some? ==> t.rounds[n].published == w.rounds[n].published))
  }

  /** What a step has to show: the world grows, and each new thing is in order. */
  lemma Step(w: World, t: World)
    requires Inv(w) && Grows(w, t)
    requires forall id :: id in t.gone ==> (id in w.gone && t.gone[id] == w.gone[id]) || FateOk(w, id, t.gone[id])
    requires forall d :: d in t.devices ==> (d in w.devices && t.devices[d] == w.devices[d]) || DeviceOk(w, d, t.devices[d])
    requires forall n :: n in t.rounds ==> (n in w.rounds && t.rounds[n] == w.rounds[n]) || RoundOk(w, t.rounds[n])
    ensures Inv(t)
  {
    hide Shown, Sweepable;
    forall id | id in t.gone ensures FateOk(t, id, t.gone[id]) { assert FateOk(w, id, t.gone[id]); }
    forall d | d in t.devices ensures DeviceOk(t, d, t.devices[d]) { assert DeviceOk(w, d, t.devices[d]); }
    forall n | n in t.rounds ensures RoundOk(t, t.rounds[n]) { assert RoundOk(w, t.rounds[n]); }
  }

  lemma StepKeeps(w: World, a: Action)
    requires Inv(w) && Enabled(w, a)
    ensures Inv(Next(w, a)) && Grows(w, Next(w, a))
  {
    hide Inv, Grows, Posted, Started, Polled, Acked, Pulled, Published, Cleared, AllTruthful;
    match a
    case Post(id, slot, content, token) => PostKeeps(w, id, slot, content, token);
    case Withdraw(id, token) => GoneKeeps(w, id, Withdrawn(token));
    case Expire(id) => GoneKeeps(w, id, Expired);
    case Start(d) => StartKeeps(w, d);
    case Poll(d, slots, wait, now, replies) => PollKeeps(w, d, slots, wait, now, replies);
    case Ack(d, id, current, processed, accepted) => AckKeeps(w, d, id, current, processed, accepted);
    case Learn(d, fact) => LearnKeeps(w, d, fact);
    case SyncRead(n, d, slots, now, replies, done) => PullKeeps(w, n, d, slots, now, replies, done);
    case SyncPublish(n, id, slot, facts) => PublishKeeps(w, n, id, slot, facts);
    case SyncAck(n, id, current, processed, accepted) => ClearKeeps(w, n, id, current, processed, accepted);
  }

  lemma PostKeeps(w: World, id: Id, slot: Slot, content: Content, token: Option<Token>)
    requires Inv(w) && id !in w.posted
    ensures var t := Posted(w, id, slot, content, token); Inv(t) && Grows(w, t)
  {
    hide DeviceOk, RoundOk, FateOk;
    Step(w, Posted(w, id, slot, content, token));
  }

  lemma GoneKeeps(w: World, id: Id, fate: Fate)
    requires Inv(w) && id in w.posted && id !in w.gone && FateOk(w, id, fate)
    ensures var t := Deleted(w, w.posted[id].slot, id, fate); Inv(t) && Grows(w, t)
  {
    hide DeviceOk, RoundOk, FateOk;
    Step(w, Deleted(w, w.posted[id].slot, id, fate));
  }

  lemma StartKeeps(w: World, d: DeviceId)
    requires Inv(w)
    ensures Inv(Started(w, d)) && Grows(w, Started(w, d))
  {
    hide RoundOk, FateOk, MayHave;
    Step(w, Started(w, d));
  }

  lemma PollKeeps(w: World, d: DeviceId, slots: seq<Slot>, wait: nat, now: nat, replies: seq<Reply>)
    requires Inv(w) && d in w.devices && |replies| == |slots| && AllTruthful(w, slots, replies)
    ensures var t := w.(devices := w.devices[d := Polled(w.devices[d], Origin(w, d), slots, wait, now, replies)]);
      Inv(t) && Grows(w, t)
  {
    hide DeviceOk, RoundOk, FateOk, Polled, AllTruthful;
    PolledOk(w, d, w.devices[d], slots, wait, now, replies);
    Step(w, w.(devices := w.devices[d := Polled(w.devices[d], Origin(w, d), slots, wait, now, replies)]));
  }

  lemma AckKeeps(w: World, d: DeviceId, id: Id, current: Slot, processed: bool, accepted: bool)
    requires Inv(w) && d in w.devices && id in w.devices[d].shown
    ensures var t := Acked(w, d, id, current, processed, accepted); Inv(t) && Grows(w, t)
  {
    hide RoundOk, MayHave;
    assert DeviceOk(w, d, w.devices[d]);
    Step(w, Acked(w, d, id, current, processed, accepted));
  }

  lemma LearnKeeps(w: World, d: DeviceId, fact: Fact)
    requires Inv(w)
    ensures var t := w.(books := w.books[d := Book(w, d) + {fact}]); Inv(t) && Grows(w, t)
  {
    hide DeviceOk, RoundOk, FateOk;
    Step(w, w.(books := w.books[d := Book(w, d) + {fact}]));
  }

  lemma PullKeeps(w: World, n: nat, d: DeviceId, slots: seq<Slot>, now: nat, replies: seq<Reply>, done: nat)
    requires Inv(w) && n !in w.rounds && |replies| == |slots| && AllTruthful(w, slots, replies)
    ensures var t := Pulled(w, n, d, slots, now, replies, done); Inv(t) && Grows(w, t)
  {
    hide DeviceOk, RoundOk, FateOk, Pulled, AllTruthful;
    PulledOk(w, n, d, slots, now, replies, done);
    PulledMoves(w, n, d, slots, now, replies, done);
    Step(w, Pulled(w, n, d, slots, now, replies, done));
  }

  lemma PublishKeeps(w: World, n: nat, id: Id, slot: Slot, facts: set<Fact>)
    requires Inv(w) && n in w.rounds && w.rounds[n].published.None? && id !in w.posted
    ensures var t := Published(w, n, id, slot, facts); Inv(t) && Grows(w, t)
  {
    hide DeviceOk, MaySweep, FateOk;
    assert RoundOk(w, w.rounds[n]);
    Step(w, Published(w, n, id, slot, facts));
  }

  lemma ClearKeeps(w: World, n: nat, id: Id, current: Slot, processed: bool, accepted: bool)
    requires Inv(w) && n in w.rounds && w.rounds[n].published.Some? && id in w.rounds[n].sweep
    ensures var t := Cleared(w, n, id, current, processed, accepted); Inv(t) && Grows(w, t)
  {
    hide DeviceOk, MaySweep;
    assert RoundOk(w, w.rounds[n]);
    Step(w, Cleared(w, n, id, current, processed, accepted));
  }

  lemma {:induction false} RunKeeps(knows: set<DeviceId>, actions: seq<Action>)
    ensures Inv(Run(Begin(knows), actions)) && Run(Begin(knows), actions).knows == knows
  {
    hide Inv, Enabled, Next;
    if |actions| == 0 {
      BeginHolds(knows);
    } else {
      var front, last := actions[..|actions| - 1], actions[|actions| - 1];
      RunKeeps(knows, front);
      var w := Run(Begin(knows), front);
      if Enabled(w, last) {
        StepKeeps(w, last);
      }
    }
  }

  lemma BeginHolds(knows: set<DeviceId>)
    ensures Inv(Begin(knows))
  {
  }

  // ---- what it gives ---------------------------------------------------------------------

  /** An offer is shown only to a device that, if it knows itself, neither posted it nor
      is passed over by its aim. */
  lemma OnlyShownWhereMeant(knows: set<DeviceId>, actions: seq<Action>, d: DeviceId, id: Id)
    requires var w := Run(Begin(knows), actions); d in w.devices && id in w.devices[d].shown && d in knows
    ensures var w := Run(Begin(knows), actions);
      id in w.posted
      && var content := w.posted[id].content;
      content.Decoded? && content.offer.origin != Some(d)
      && (content.offer.target.None? || content.offer.target == Some(d))
  {
    hide Run;
    RunKeeps(knows, actions);
    var w := Run(Begin(knows), actions);
    assert DeviceOk(w, d, w.devices[d]);
  }

  /** Over any run, whoever polls and syncs however often: an offer goes by its time, by
      its own token, or by the ack of a device that may have it, so never by the device
      that posted it and never by a sync round. A note goes by its time, its own token, or
      a round that read it and has published since, never by the ack of an offer. What
      nobody could decode goes by its time or its token. */
  lemma GoesOnlyToItsReader(knows: set<DeviceId>, actions: seq<Action>, id: Id)
    requires id in Run(Begin(knows), actions).gone
    ensures var w := Run(Begin(knows), actions);
      id in w.posted
      && var (row, fate) := (w.posted[id], w.gone[id]);
      fate.Expired? || (fate.Withdrawn? && row.token == Some(fate.token))
      || (match row.content
          case Decoded(_) => fate.Taken? && Shown(Origin(w, fate.device), row.content)
          case SyncNote(note) =>
            && !note.Elsewhere? && fate.Swept? && fate.round in w.rounds
            && id in w.rounds[fate.round].sweep && w.rounds[fate.round].published.Some?
          case Undecodable => false)
  {
    hide Run;
    RunKeeps(knows, actions);
    var w := Run(Begin(knows), actions);
    assert FateOk(w, id, w.gone[id]);
  }

  /** So where every device knows itself, an offer aimed at one stays on the relay, past
      any number of polls, acks and sync rounds by the others, until that one takes it, it
      expires or its poster takes it back. */
  lemma AimedOfferWaits(knows: set<DeviceId>, actions: seq<Action>, id: Id, aim: DeviceId)
    requires var w := Run(Begin(knows), actions);
      && id in w.posted && w.posted[id].content.Decoded? && w.posted[id].content.offer.target == Some(aim)
      && forall i :: i in w.gone && w.gone[i].Taken? ==> w.gone[i].device in knows
    ensures var w := Run(Begin(knows), actions);
      id !in w.gone || w.gone[id].Expired? || w.gone[id].Withdrawn? || w.gone[id] == Taken(aim)
  {
    hide Run;
    RunKeeps(knows, actions);
    if id in Run(Begin(knows), actions).gone { GoesOnlyToItsReader(knows, actions, id); }
  }

  /** A remembered row is deleted where it is, in whatever slot it was read; one that is
      not is deleted exactly if it is in the current slot. */
  lemma AckHitsTheRow(knows: set<DeviceId>, actions: seq<Action>, d: DeviceId, id: Id, current: Slot, accepted: bool, slot: Slot)
    requires var w := Run(Begin(knows), actions);
      Enabled(w, Ack(d, id, current, true, accepted)) && There(w, slot, id)
    ensures var w := Run(Begin(knows), actions);
      var gone := id in Next(w, Ack(d, id, current, true, accepted)).gone;
      gone <==> id in w.devices[d].memory.rowSlots || slot == current
  {
    hide Run;
    RunKeeps(knows, actions);
    var w := Run(Begin(knows), actions);
    assert DeviceOk(w, d, w.devices[d]);
  }

  /** What a step does to what its device keeps in memory: a restart loses it, an ack that
      was accepted forgets where that one row was, and a poll notes each row it read that
      makes no sense. */
  lemma MemoryMoves(w: World, a: Action)
    requires Enabled(w, a)
    ensures a.Start? ==> Next(w, a).devices[a.device].memory == Memory(map[], {}, {}, 0)
    ensures a.Start? && a.device in w.devices ==> Next(w, a).devices[a.device].shown == w.devices[a.device].shown
    ensures a.Ack? ==>
              var m, n := w.devices[a.device].memory, Next(w, a).devices[a.device].memory;
              && (a.accepted ==> a.id !in n.rowSlots)
              && (forall o :: o in n.rowSlots <==> o in m.rowSlots && (o != a.id || !a.accepted))
              && (forall o :: o in n.rowSlots ==> n.rowSlots[o] == m.rowSlots[o])
    ensures a.Poll? ==>
              var (m, items) := Read(w.devices[a.device].memory, a.slots, a.wait, a.now, a.replies);
              var n := Next(w, a).devices[a.device].memory;
              forall o :: o in n.undecodable <==> o in m.undecodable || (items.Some? && Item(o, Undecodable) in items.value)
  {
    hide Read, AllTruthful, ToShow;
    if a.Poll? {
      var (m, items) := Read(w.devices[a.device].memory, a.slots, a.wait, a.now, a.replies);
      if items.Some? {
        forall o ensures o in Garbled(items.value) <==> Item(o, Undecodable) in items.value {
          if o in Garbled(items.value) {
            var item :| item in items.value && item.content.Undecodable? && item.id == o;
            assert item == Item(o, Undecodable);
          }
        }
      }
    }
  }

  // ---- remembered until cleared -----------------------------------------------------------

  /** Reading on from here finds the memory past its cap, and clears it. */
  predicate VisitClears(m: Memory, slots: seq<Slot>, i: nat, backfill: bool, now: nat, replies: seq<Reply>)
    requires |replies| == |slots|
    decreases |slots| - i
  {
    i < |slots|
    && var (n, on) := BackfillAt(m, i, backfill, now);
    (i == 0 || on)
    && match replies[i]
       case Failed => i > 0 && VisitClears(n, slots, i + 1, on, now, replies)
       case Quiet => VisitClears(n, slots, i + 1, on, now, replies)
       case Malformed => false
       case Rows(items) =>
         |n.rowSlots| > MAX_ROW_SLOTS || VisitClears(After(n, slots[i], i == 0, items), slots, i + 1, on, now, replies)
  }

  predicate Clears(m: Memory, slots: seq<Slot>, wait: nat, now: nat, replies: seq<Reply>)
    requires |replies| == |slots|
  {
    VisitClears(m, slots, 0, wait == 0, now, replies)
  }

  /** Short of that a read forgets nothing and remembers every row it returns. */
  lemma {:induction false} VisitRemembers(m: Memory, slots: seq<Slot>, i: nat, backfill: bool, now: nat, replies: seq<Reply>, id: Id)
    requires |replies| == |slots| && !VisitClears(m, slots, i, backfill, now, replies)
    ensures var (n, items) := Visit(m, slots, i, backfill, now, replies);
      id in m.rowSlots || (items.Some? && id in Ids(items.value)) ==> id in n.rowSlots
    decreases |slots| - i
  {
    hide PutAll;
    if i < |slots| {
      var (n, on) := BackfillAt(m, i, backfill, now);
      if i == 0 || on {
        match replies[i]
        case Failed => if i > 0 { VisitRemembers(n, slots, i + 1, on, now, replies, id); }
        case Quiet => VisitRemembers(n, slots, i + 1, on, now, replies, id);
        case Malformed =>
        case Rows(items) =>
          PutAllHolds(n.rowSlots, slots[i], items, id);
          VisitRemembers(After(n, slots[i], i == 0, items), slots, i + 1, on, now, replies, id);
      }
    }
  }

  /** What this poll shows the device. */
  predicate Shows(v: Device, mine: Option<DeviceId>, slots: seq<Slot>, wait: nat, now: nat, replies: seq<Reply>, id: Id, offer: Offer)
    requires |replies| == |slots|
  {
    var items := Read(v.memory, slots, wait, now, replies).1;
    items.Some? && (id, offer) in ToShow(mine, items.value)
  }

  /** Whatever a poll shows, again or for the first time, it remembers where, unless it
      cleared its memory. */
  lemma ShownIsRemembered(v: Device, mine: Option<DeviceId>, slots: seq<Slot>, wait: nat, now: nat, replies: seq<Reply>,
                          id: Id, offer: Offer)
    requires |replies| == |slots| && Shows(v, mine, slots, wait, now, replies, id, offer)
    requires !Clears(v.memory, slots, wait, now, replies)
    ensures id in Polled(v, mine, slots, wait, now, replies).memory.rowSlots
    ensures id in Polled(v, mine, slots, wait, now, replies).shown
  {
    VisitRemembers(v.memory, slots, 0, wait == 0, now, replies, id);
    hide Visit, ToShow;
    var items := Read(v.memory, slots, wait, now, replies).1;
    ShownExactly(mine, items.value, id, offer);
    assert (id, offer).0 in IdsShown(ToShow(mine, items.value));
  }

  /** What makes a device forget where a row is: a restart, a poll that clears its
      memory, the relay's taking its ack. */
  ghost predicate Forgets(w: World, a: Action, d: DeviceId, id: Id)
    requires Enabled(w, a)
  {
    match a
    case Start(e) => e == d
    case Poll(e, slots, wait, now, replies) => e == d && Clears(w.devices[d].memory, slots, wait, now, replies)
    case Ack(e, i, _, _, accepted) => e == d && i == id && accepted
    case _ => false
  }

  ghost predicate Remembers(w: World, d: DeviceId, id: Id) {
    d in w.devices && id in w.devices[d].memory.rowSlots && id in w.devices[d].shown
  }

  lemma StepRemembers(w: World, a: Action, d: DeviceId, id: Id)
    requires Enabled(w, a) && Remembers(w, d, id) && !Forgets(w, a, d, id)
    ensures Remembers(Next(w, a), d, id)
  {
    hide AllTruthful, Merged, ToSweep;
    if a.Poll? && a.device == d {
      VisitRemembers(w.devices[d].memory, a.slots, 0, a.wait == 0, a.now, a.replies, id);
    }
    hide Visit, VisitClears, ToShow, There;
  }

  /** Nothing from step `from` on makes the device forget. */
  ghost predicate Undisturbed(knows: set<DeviceId>, actions: seq<Action>, from: nat, d: DeviceId, id: Id) {
    forall k | from <= k < |actions| ::
      var u := Run(Begin(knows), actions[..k]);
      Enabled(u, actions[k]) ==> !Forgets(u, actions[k], d, id)
  }

  lemma {:induction false} StaysRemembered(knows: set<DeviceId>, actions: seq<Action>, from: nat, d: DeviceId, id: Id)
    requires from <= |actions| && Remembers(Run(Begin(knows), actions[..from]), d, id)
    requires Undisturbed(knows, actions, from, d, id)
    ensures Remembers(Run(Begin(knows), actions), d, id)
  {
    hide Remembers, Forgets, Enabled, Next;
    if from == |actions| {
      assert actions[..from] == actions;
    } else {
      var front := actions[..|actions| - 1];
      assert front[..from] == actions[..from];
      forall k | from <= k < |front|
        ensures var u := Run(Begin(knows), front[..k]); Enabled(u, front[k]) ==> !Forgets(u, front[k], d, id)
      {
        assert front[..k] == actions[..k];
      }
      StaysRemembered(knows, front, from, d, id);
      var u := Run(Begin(knows), front);
      if Enabled(u, actions[|actions| - 1]) { StepRemembers(u, actions[|actions| - 1], d, id); }
    }
  }

  /** From the poll that showed it on, until it forgets, a device's ack deletes the row,
      whatever slot it is in and whichever is current by then. */
  lemma ShownCanBeAcked(knows: set<DeviceId>, actions: seq<Action>, at: nat, id: Id, offer: Offer,
                        slot: Slot, current: Slot, accepted: bool)
    requires at < |actions| && actions[at].Poll?
    requires var (w, poll) := (Run(Begin(knows), actions[..at]), actions[at]);
      && Enabled(w, poll)
      && Shows(w.devices[poll.device], Origin(w, poll.device), poll.slots, poll.wait, poll.now, poll.replies, id, offer)
      && !Clears(w.devices[poll.device].memory, poll.slots, poll.wait, poll.now, poll.replies)
      && Undisturbed(knows, actions, at + 1, poll.device, id)
    requires There(Run(Begin(knows), actions), slot, id)
    ensures var v := Run(Begin(knows), actions);
      var ack := Ack(actions[at].device, id, current, true, accepted);
      Enabled(v, ack) && id in Next(v, ack).gone
  {
    hide Shows, Clears, Polled, Undisturbed;
    var w, poll := Run(Begin(knows), actions[..at]), actions[at];
    var d := poll.device;
    ShownIsRemembered(w.devices[d], Origin(w, d), poll.slots, poll.wait, poll.now, poll.replies, id, offer);
    assert actions[..at + 1][..at] == actions[..at];
    assert Run(Begin(knows), actions[..at + 1]) == Next(w, poll);
    hide Run;
    StaysRemembered(knows, actions, at + 1, d, id);
    AckHitsTheRow(knows, actions, d, id, current, accepted, slot);
  }

  // ---- whoever looks finds it ------------------------------------------------------------------

  /** Everything in the slot, as it is. */
  ghost predicate Complete(w: World, slot: Slot, reply: Reply) {
    reply.Rows? && forall id: Id, content: Content ::
      Item(id, content) in reply.items <==> There(w, slot, id) && w.posted[id].content == content
  }

  lemma {:induction false} OneShotReadsAll(w: World, m: Memory, slots: seq<Slot>, i: nat, now: nat, replies: seq<Reply>, k: nat, item: Item)
    requires |replies| == |slots| && i <= k < |slots|
    requires forall j :: 0 <= j < |slots| ==> replies[j].Rows?
    requires item in replies[k].items
    ensures var items := Visit(m, slots, i, true, now, replies).1; items.Some? && item in items.value
    decreases |slots| - i
  {
    var items := replies[i].items;
    var n := After(m, slots[i], i == 0, items);
    if i < k {
      OneShotReadsAll(w, n, slots, i + 1, now, replies, k, item);
    } else {
      NeverFails(n, slots, i + 1, now, replies);
    }
  }

  lemma {:induction false} NeverFails(m: Memory, slots: seq<Slot>, i: nat, now: nat, replies: seq<Reply>)
    requires |replies| == |slots| && forall j :: 0 <= j < |slots| ==> replies[j].Rows?
    ensures Visit(m, slots, i, true, now, replies).1.Some?
    decreases |slots| - i
  {
    if i < |slots| { NeverFails(After(m, slots[i], i == 0, replies[i].items), slots, i + 1, now, replies); }
  }

  /** A one-shot poll the relay answers shows a device every offer meant for it that is
      in any slot it looks in. */
  lemma OneShotShowsAll(w: World, v: Device, mine: Option<DeviceId>, slots: seq<Slot>, now: nat, replies: seq<Reply>,
                        k: nat, id: Id, offer: Offer)
    requires |replies| == |slots| && k < |slots|
    requires forall j :: 0 <= j < |slots| ==> Complete(w, slots[j], replies[j])
    requires There(w, slots[k], id) && w.posted[id].content == Decoded(offer) && Shown(mine, Decoded(offer))
    ensures var items := Read(v.memory, slots, 0, now, replies).1;
      items.Some? && (id, offer) in ToShow(mine, items.value)
    ensures id in Polled(v, mine, slots, 0, now, replies).shown
  {
    assert Complete(w, slots[k], replies[k]);
    assert Item(id, Decoded(offer)) in replies[k].items;
    OneShotReadsAll(w, v.memory, slots, 0, now, replies, k, Item(id, Decoded(offer)));
    var items := Read(v.memory, slots, 0, now, replies).1;
    ShownExactly(mine, items.value, id, offer);
  }

  /** And a held poll shows what is in the current slot, as does one that looks further
      what is there, as long as the slots that are looked in can be read: an older one that
      does not answer costs no more than its own rows. */
  lemma HeldPollShows(w: World, v: Device, mine: Option<DeviceId>, slots: seq<Slot>, wait: nat, now: nat, replies: seq<Reply>,
                      k: nat, id: Id, offer: Offer)
    requires |replies| == |slots| && k < Looked(v.memory, slots, wait, now)
    requires !replies[0].Failed? && !SomeMalformed(replies[..Looked(v.memory, slots, wait, now)])
    requires Complete(w, slots[k], replies[k])
    requires There(w, slots[k], id) && w.posted[id].content == Decoded(offer) && Shown(mine, Decoded(offer))
    ensures id in Polled(v, mine, slots, wait, now, replies).shown
    ensures replies[0].Rows? ==> Polled(v, mine, slots, wait, now, replies).memory.held == Ids(replies[0].items)
  {
    hide Read, ToShow, Shown;
    assert Item(id, Decoded(offer)) in replies[k].items;
    assert InSlot(replies[..Looked(v.memory, slots, wait, now)], k, Item(id, Decoded(offer)));
    PollShows(v.memory, mine, slots, wait, now, replies, id, offer);
    ReadIs(v.memory, slots, wait, now, replies);
    assert (id, offer).0 in IdsShown(ToShow(mine, Read(v.memory, slots, wait, now, replies).1.value));
  }

  /** And since a row outlives no slot it is looked for in, that is every offer meant for
      it that still lives, whenever it was posted, with whatever life was asked for. */
  lemma LiveOfferIsShown(w: World, v: Device, mine: Option<DeviceId>, at: nat -> Slot, posted: nat, ttl: Option<nat>,
                         relayDefault: nat, now: nat, replies: seq<Reply>, id: Id, offer: Offer)
    requires relayDefault <= Slots.INBOX_EPOCH_SECS && posted <= now <= posted + Slots.Lifetime(ttl, relayDefault)
    requires There(w, at(posted / Slots.INBOX_EPOCH_SECS), id) && w.posted[id].content == Decoded(offer)
    requires Shown(mine, Decoded(offer))
    requires var slots := Slots.InboxWindow(at, now);
      |replies| == |slots| && forall j :: 0 <= j < |slots| ==> Complete(w, slots[j], replies[j])
    ensures id in Polled(v, mine, Slots.InboxWindow(at, now), 0, now, replies).shown
  {
    hide Complete, Polled, There, Shown;
    var slots := Slots.InboxWindow(at, now);
    Slots.LiveRowIsInWindow(at, posted, ttl, relayDefault, now);
    hide Slots.InboxWindow;
    var k :| 0 <= k < |slots| && slots[k] == at(posted / Slots.INBOX_EPOCH_SECS);
    OneShotShowsAll(w, v, mine, slots, now, replies, k, id, offer);
  }
}
