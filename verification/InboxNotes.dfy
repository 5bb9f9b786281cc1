/** The address book's snapshots in a shared inbox (engine/src/sync.rs, `sync_round`):
    every round deletes what it has read, and nothing synced is ever lost by it. */
module InboxNotes {
  import opened Bytes
  import opened Inbox
  import opened InboxRuns

  predicate IsSnapshot(content: Content) {
    content.SyncNote? && content.note.Snapshot?
  }

  /** What a row can teach a book. */
  function Teaches(content: Content): set<Fact> {
    if IsSnapshot(content) then content.note.facts else {}
  }

  /** What a round will delete, its book had by the time it had merged; what it published
      has all that and came later. */
  ghost predicate RoundKnows(w: World, r: Round) {
    && r.merged <= Book(w, r.device)
    && (forall id :: id in r.sweep ==> id in w.posted && Teaches(w.posted[id].content) <= r.merged)
    && (r.published.Some? ==> Supersedes(w, r, r.published.value))
  }

  ghost predicate Supersedes(w: World, r: Round, q: Id) {
    && q in w.posted && IsSnapshot(w.posted[q].content) && r.merged <= Teaches(w.posted[q].content)
    && forall id :: id in r.sweep && id in w.posted ==> w.posted[id].at < w.posted[q].at
  }

  ghost predicate NotesInv(w: World) {
    && (forall id :: id in w.posted ==> w.posted[id].at < |w.posted|)
    && (forall n :: n in w.rounds ==> RoundKnows(w, w.rounds[n]))
  }

  lemma MergedHas(items: seq<Item>, item: Item)
    requires item in items
    ensures Teaches(item.content) <= Merged(items)
  {
  }

  /** A round that begins has merged every note it will delete. */
  lemma PullKnows(w: World, n: nat, d: DeviceId, slots: seq<Slot>, now: nat, replies: seq<Reply>, done: nat)
    requires n !in w.rounds && |replies| == |slots| && AllTruthful(w, slots, replies)
    ensures var t := Pulled(w, n, d, slots, now, replies, done); n in t.rounds ==> RoundKnows(t, t.rounds[n])
  {
    hide AllTruthful, Merged;
    VisitTruthful(w, BLANK, slots, 0, true, now, replies);
    hide Visit;
    var items := Read(BLANK, slots, 0, now, replies).1;
    if items.Some? {
      forall id | id in ToSweep(items.value)
        ensures id in w.posted && Teaches(w.posted[id].content) <= Merged(items.value)
      {
        var item :| item in items.value && Sweepable(item.content) && item.id == id;
        MergedHas(items.value, item);
      }
    }
  }

  /** What a round knows stays so, and new rows come after. */
  lemma KnowsStays(w: World, t: World, r: Round)
    requires RoundKnows(w, r) && Grows(w, t) && BooksGrow(w, t)
    requires forall id :: id in r.sweep ==> id in w.posted
    ensures RoundKnows(t, r)
  {
  }

  lemma NotesStep(w: World, t: World)
    requires NotesInv(w) && Grows(w, t) && BooksGrow(w, t)
    requires t.posted == w.posted || exists id, row: Row :: AddsRow(w, t, id, row)
    requires forall n :: n in t.rounds ==>
      (n in w.rounds && t.rounds[n] == w.rounds[n].(memory := t.rounds[n].memory)) || RoundKnows(t, t.rounds[n])
    ensures NotesInv(t)
  {
    forall n | n in t.rounds ensures RoundKnows(t, t.rounds[n]) {
      if !RoundKnows(t, t.rounds[n]) {
        KnowsStays(w, t, w.rounds[n]);
      }
    }
  }

  ghost predicate AddsRow(w: World, t: World, id: Id, row: Row) {
    id !in w.posted && row.at == |w.posted| && t.posted == w.posted[id := row]
  }

  /** No row is added, and of a round at most its memory moves. */
  ghost predicate Still(w: World, t: World) {
    && t.posted == w.posted && BooksGrow(w, t) && t.rounds.Keys == w.rounds.Keys
    && forall n :: n in w.rounds ==> t.rounds[n] == w.rounds[n].(memory := t.rounds[n].memory)
  }

  lemma StepKeepsNotes(w: World, a: Action)
    requires Inv(w) && NotesInv(w) && Enabled(w, a)
    ensures NotesInv(Next(w, a))
  {
    StepKeeps(w, a);
    match a {
      case Post(id, slot, content, token) => PostKeepsNotes(w, id, slot, content, token);
      case SyncRead(n, d, slots, now, replies, done) => PullKeepsNotes(w, n, d, slots, now, replies, done);
      case SyncPublish(n, id, slot, facts) => PublishKeepsNotes(w, n, id, slot, facts);
      case _ =>
        StandsStill(w, a);
        hide Inv, RoundKnows, Next, Enabled, Grows, BooksGrow;
        NotesStep(w, Next(w, a));
    }
  }

  lemma StandsStill(w: World, a: Action)
    requires Enabled(w, a) && !a.Post? && !a.SyncRead? && !a.SyncPublish?
    ensures Still(w, Next(w, a))
  {
    hide Polled, AllTruthful, AckSlot;
  }

  lemma PostKeepsNotes(w: World, id: Id, slot: Slot, content: Content, token: Option<Token>)
    requires Inv(w) && NotesInv(w) && id !in w.posted
    ensures NotesInv(Posted(w, id, slot, content, token))
  {
    PostKeeps(w, id, slot, content, token);
    hide Inv, RoundKnows;
    var t := Posted(w, id, slot, content, token);
    assert AddsRow(w, t, id, t.posted[id]);
    NotesStep(w, t);
  }

  lemma PullKeepsNotes(w: World, n: nat, d: DeviceId, slots: seq<Slot>, now: nat, replies: seq<Reply>, done: nat)
    requires NotesInv(w) && n !in w.rounds && |replies| == |slots| && AllTruthful(w, slots, replies)
    ensures NotesInv(Pulled(w, n, d, slots, now, replies, done))
  {
    PullKnows(w, n, d, slots, now, replies, done);
    PulledMoves(w, n, d, slots, now, replies, done);
    hide RoundKnows, Pulled, AllTruthful;
    NotesStep(w, Pulled(w, n, d, slots, now, replies, done));
  }

  lemma PublishKeepsNotes(w: World, n: nat, id: Id, slot: Slot, facts: set<Fact>)
    requires NotesInv(w) && n in w.rounds && w.rounds[n].published.None? && id !in w.posted
    requires w.rounds[n].merged <= facts
    ensures NotesInv(Published(w, n, id, slot, facts))
  {
    var t := Published(w, n, id, slot, facts);
    assert RoundKnows(w, w.rounds[n]);
    assert AddsRow(w, t, id, t.posted[id]);
    assert RoundKnows(t, t.rounds[n]);
    hide RoundKnows;
    NotesStep(w, t);
  }

  lemma {:induction false} RunKeepsNotes(knows: set<DeviceId>, actions: seq<Action>)
    ensures NotesInv(Run(Begin(knows), actions))
  {
    hide Inv, Enabled, Next;
    if |actions| > 0 {
      var front, last := actions[..|actions| - 1], actions[|actions| - 1];
      RunKeepsNotes(knows, front);
      RunKeeps(knows, front);
      hide NotesInv;
      var w := Run(Begin(knows), front);
      if Enabled(w, last) { StepKeepsNotes(w, last); }
    }
  }

  // ---- nothing synced is lost -----------------------------------------------------------

  /** A snapshot that a round deleted is contained in the one it had published. */
  lemma DeletedHasNewer(knows: set<DeviceId>, actions: seq<Action>, id: Id) returns (q: Id)
    requires var w := Run(Begin(knows), actions);
      && id in w.posted && IsSnapshot(w.posted[id].content)
      && id in w.gone && !w.gone[id].Expired? && !w.gone[id].Withdrawn?
    ensures var w := Run(Begin(knows), actions);
      && q in w.posted && IsSnapshot(w.posted[q].content) && w.posted[id].at < w.posted[q].at < |w.posted|
      && Teaches(w.posted[id].content) <= Teaches(w.posted[q].content)
  {
    hide Run;
    RunKeeps(knows, actions);
    RunKeepsNotes(knows, actions);
    var w := Run(Begin(knows), actions);
    assert FateOk(w, id, w.gone[id]);
    var r := w.rounds[w.gone[id].round];
    assert RoundKnows(w, r);
    q := r.published.value;
  }

  /** Over any run of any number of devices, whoever reads, publishes and deletes in
      between: all that a snapshot ever held is in one that is still on the relay, unless
      one that held it all, posted no earlier, ran out of time or was taken back. */
  lemma {:induction false} NothingSyncedIsLost(knows: set<DeviceId>, actions: seq<Action>, id: Id) returns (q: Id)
    requires var w := Run(Begin(knows), actions); id in w.posted && IsSnapshot(w.posted[id].content)
    ensures var w := Run(Begin(knows), actions);
      && q in w.posted && IsSnapshot(w.posted[q].content) && w.posted[id].at <= w.posted[q].at
      && Teaches(w.posted[id].content) <= Teaches(w.posted[q].content)
      && (q !in w.gone || w.gone[q].Expired? || w.gone[q].Withdrawn?)
    decreases var w := Run(Begin(knows), actions); |w.posted| - w.posted[id].at
  {
    hide Run;
    var w := Run(Begin(knows), actions);
    if id in w.gone && !w.gone[id].Expired? && !w.gone[id].Withdrawn? {
      var newer := DeletedHasNewer(knows, actions, id);
      q := NothingSyncedIsLost(knows, actions, newer);
    } else {
      q := id;
    }
  }

  /** So the newest snapshot is never deleted by a round. */
  lemma NewestSnapshotStays(knows: set<DeviceId>, actions: seq<Action>, id: Id)
    requires var w := Run(Begin(knows), actions);
      && id in w.posted && IsSnapshot(w.posted[id].content)
      && forall q :: q in w.posted && IsSnapshot(w.posted[q].content) ==> w.posted[q].at <= w.posted[id].at
    ensures var w := Run(Begin(knows), actions); id !in w.gone || w.gone[id].Expired? || w.gone[id].Withdrawn?
  {
    hide Run;
    var w := Run(Begin(knows), actions);
    if id in w.gone && !w.gone[id].Expired? && !w.gone[id].Withdrawn? {
      var q := DeletedHasNewer(knows, actions, id);
    }
  }

  /** A round the relay answers merges every snapshot in the slots it looks in. */
  lemma RoundMergesAll(w: World, n: nat, d: DeviceId, slots: seq<Slot>, now: nat, replies: seq<Reply>, done: nat,
                       k: nat, id: Id)
    requires |replies| == |slots| && k < |slots|
    requires forall j :: 0 <= j < |slots| ==> Complete(w, slots[j], replies[j])
    requires var items := Read(BLANK, slots, 0, now, replies).1; items.Some? ==> |items.value| <= done
    requires There(w, slots[k], id) && IsSnapshot(w.posted[id].content)
    ensures Teaches(w.posted[id].content) <= Book(Pulled(w, n, d, slots, now, replies, done), d)
  {
    hide Merged;
    assert Complete(w, slots[k], replies[k]);
    var item := Item(id, w.posted[id].content);
    assert item in replies[k].items;
    OneShotReadsAll(w, BLANK, slots, 0, now, replies, k, item);
    hide Visit, ToSweep;
    MergedHas(Read(BLANK, slots, 0, now, replies).1.value, item);
  }

  /** A round that breaks off has merged the snapshots it came to, and nothing else. */
  lemma BrokenOffMerges(w: World, n: nat, d: DeviceId, slots: seq<Slot>, now: nat, replies: seq<Reply>, done: nat, f: Fact)
    requires |replies| == |slots|
    ensures var items := Read(BLANK, slots, 0, now, replies).1;
      f in Book(Pulled(w, n, d, slots, now, replies, done), d) <==>
        f in Book(w, d)
        || (items.Some? && exists k :: 0 <= k < Min(done, |items.value|) && f in Teaches(items.value[k].content))
  {
    hide Read, ToSweep;
    var items := Read(BLANK, slots, 0, now, replies).1;
    if items.Some? {
      var m := Min(done, |items.value|);
      assert items.value[..|items.value|] == items.value;
      MergedTeaches(items.value[..m], f);
      hide Merged, Teaches;
      assert forall k :: 0 <= k < m ==> items.value[..m][k] == items.value[k];
    }
  }

  lemma MergedTeaches(items: seq<Item>, f: Fact)
    ensures f in Merged(items) <==> exists k :: 0 <= k < |items| && f in Teaches(items[k].content)
  {
    if f in Merged(items) {
      var item :| item in items && item.content.SyncNote? && item.content.note.Snapshot? && f in item.content.note.facts;
      var k :| 0 <= k < |items| && items[k] == item;
      assert f in Teaches(items[k].content);
    } else if k :| 0 <= k < |items| && f in Teaches(items[k].content) {
      MergedHas(items, items[k]);
    }
  }

  /** A round the relay answers will delete every note in the slots it looks in that it is
      to delete, and, unless they were too many to remember, knows where each is. */
  lemma RoundWillDelete(w: World, n: nat, d: DeviceId, slots: seq<Slot>, now: nat, replies: seq<Reply>, done: nat,
                        k: nat, id: Id)
    requires |replies| == |slots| && k < |slots|
    requires forall j :: 0 <= j < |slots| ==> Complete(w, slots[j], replies[j])
    requires var items := Read(BLANK, slots, 0, now, replies).1; items.Some? ==> |items.value| <= done
    requires There(w, slots[k], id) && Sweepable(w.posted[id].content)
    ensures var t := Pulled(w, n, d, slots, now, replies, done);
      && n in t.rounds && id in t.rounds[n].sweep
      && (!Clears(BLANK, slots, 0, now, replies) ==> id in t.rounds[n].memory.rowSlots)
  {
    hide Merged;
    assert Complete(w, slots[k], replies[k]);
    var item := Item(id, w.posted[id].content);
    assert item in replies[k].items;
    OneShotReadsAll(w, BLANK, slots, 0, now, replies, k, item);
    if !Clears(BLANK, slots, 0, now, replies) { VisitRemembers(BLANK, slots, 0, true, now, replies, id); }
    hide Visit, VisitClears;
    assert item.id in ToSweep(Read(BLANK, slots, 0, now, replies).1.value);
    assert item.id in Ids(Read(BLANK, slots, 0, now, replies).1.value);
  }

  /** And the request it makes for it once it has published takes the row off the relay,
      exactly if it remembers the row or the slot is the current one. */
  lemma RoundHitsTheRow(knows: set<DeviceId>, actions: seq<Action>, n: nat, id: Id, current: Slot, accepted: bool, slot: Slot)
    requires var w := Run(Begin(knows), actions);
      Enabled(w, SyncAck(n, id, current, true, accepted)) && There(w, slot, id)
    ensures var w := Run(Begin(knows), actions);
      var gone := id in Next(w, SyncAck(n, id, current, true, accepted)).gone;
      gone <==> id in w.rounds[n].memory.rowSlots || slot == current
  {
    hide Run;
    RunKeeps(knows, actions);
    var w := Run(Begin(knows), actions);
    assert RoundOk(w, w.rounds[n]);
  }

  /** So, as long as no snapshot has run out of time or been taken back, a device that
      syncs now, however long after, has in its book all that any snapshot ever held. */
  lemma SyncedReachesEveryRound(knows: set<DeviceId>, actions: seq<Action>, id: Id, n: nat, d: DeviceId,
                                slots: seq<Slot>, now: nat, replies: seq<Reply>, done: nat)
    requires |replies| == |slots|
    requires var w := Run(Begin(knows), actions);
      && id in w.posted && IsSnapshot(w.posted[id].content)
      && Enabled(w, SyncRead(n, d, slots, now, replies, done))
      && (forall q :: q in w.gone && q in w.posted && IsSnapshot(w.posted[q].content) ==>
            !w.gone[q].Expired? && !w.gone[q].Withdrawn?)
      && (forall q :: q in w.posted && q !in w.gone && IsSnapshot(w.posted[q].content) ==> w.posted[q].slot in slots)
      && (forall j :: 0 <= j < |slots| ==> Complete(w, slots[j], replies[j]))
      && var items := Read(BLANK, slots, 0, now, replies).1; items.Some? ==> |items.value| <= done
    ensures var w := Run(Begin(knows), actions);
      Teaches(w.posted[id].content) <= Book(Next(w, SyncRead(n, d, slots, now, replies, done)), d)
  {
    hide Run, Complete, Read, Pulled, AllTruthful;
    var w := Run(Begin(knows), actions);
    var q := NothingSyncedIsLost(knows, actions, id);
    var k :| 0 <= k < |slots| && slots[k] == w.posted[q].slot;
    RoundMergesAll(w, n, d, slots, now, replies, done, k, q);
  }
}
