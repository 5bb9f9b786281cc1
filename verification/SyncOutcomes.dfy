/** What the runs of `SyncReplicas` come to for whoever uses the devices: what an edit that
    is skipped would have done, that two devices which exchange snapshots agree, and that
    a device which was forgotten stays so. */
module SyncOutcomes {
  import opened Bytes
  import opened Sync
  import opened SyncClocks
  import opened SyncReplicas

  // ---- single edits ------------------------------------------------------------------

  /** A removal is skipped exactly when there is nothing to remove; a device declines to
      announce itself exactly when it finds itself removed; all else is written. */
  lemma WritesIff(s: State, e: Edit, device: DeviceId)
    ensures Writes(s, e, device) <==>
      match e
      case RemoveContact(_) => Edited(Projected(s), e, device) != Projected(s)
      case RemoveMark(_, _) => Edited(Projected(s), e, device) != Projected(s)
      case RemoveName(_) => Edited(Projected(s), e, device) != Projected(s)
      case RemoveRelay(_) => Edited(Projected(s), e, device) != Projected(s)
      case Announce(_) => DeviceKey(device) !in s.devices || DeviceKey(device) in Projected(s).devices
      case _ => true
  {
    hide DeviceKey;
    match e
    case RemoveContact(name) => MissingChangesNothing(Ledger(s.contacts), name);
    case RemoveMark(Verified, k) => MissingChangesNothing(Ledger(s.verified), k);
    case RemoveMark(Trusted, k) => MissingChangesNothing(Ledger(s.trusted), k);
    case RemoveMark(Blocked, k) => MissingChangesNothing(Ledger(s.blocked), k);
    case RemoveName(k) => MissingChangesNothing(Ledger(s.names), k);
    case RemoveRelay(k) => MissingChangesNothing(Ledger(s.relays), k);
    case _ =>
  }

  lemma MissingChangesNothing<V>(l: map<Text, V>, k: Text)
    ensures l - {k} == l <==> k !in l
  {
    if k in l { assert k !in l - {k}; }
  }

  /** The row that stands for a removal keeps what was removed, but for a mark's date. */
  lemma RemovalKeeps(s: State, e: Edit, clock: Lamport)
    requires Writes(s, e, clock.device) && !e.RemoveMark?
    ensures var t := Write(s, e, clock);
      match e
      case RemoveContact(k) => k in t.contacts && t.contacts[k] == s.contacts[k].(clock := clock, deleted := true)
      case RemoveName(k) => k in t.names && t.names[k] == s.names[k].(clock := clock, deleted := true)
      case RemoveRelay(k) => k in t.relays && t.relays[k] == s.relays[k].(clock := clock, deleted := true)
      case Forget(id) =>
        var k := DeviceKey(id);
        k in t.devices && t.devices[k].clock == clock && t.devices[k].deleted
        && (k in s.devices ==> t.devices[k].value == s.devices[k].value)
      case _ => true
  {
    hide DeviceKey, MarkPut;
  }

  lemma MarkRemovalKeeps(s: State, mark: Mark, k: Text, clock: Lamport)
    requires Writes(s, RemoveMark(mark, k), clock.device)
    ensures var t := Write(s, RemoveMark(mark, k), clock);
      k in MarksOf(t, mark) && MarksOf(t, mark)[k] == Reg(0, clock, true)
  {
    match mark
    case Verified =>
    case Trusted =>
    case Blocked =>
  }

  /** After absorbing, a device's counter is the least that is behind nothing it has seen. */
  lemma CounterIsLeast(w: World, d: DeviceId, p: Snapshot)
    requires Enabled(w, Absorb(d, p))
    ensures var r := Next(w, Absorb(d, p)).replicas[d];
      && w.replicas[d].lamport <= r.lamport && p.lamport <= r.lamport && Ahead(r.state, r.lamport)
      && forall n: nat :: w.replicas[d].lamport <= n && p.lamport <= n && Ahead(r.state, n) ==> r.lamport <= n
  {
    hide Merge, HasClock, Clocks;
    var s := Merge(w.replicas[d].state, p.state);
    InClocksAll(s);
    forall n: nat | Ahead(s, n) ensures MaxCounter(s) <= n { AheadIsHigher(s, n); }
  }

  /** Each edit is stamped with the next number of the device's own counter. */
  lemma EditTakesNextNumber(w: World, d: DeviceId, e: Edit)
    requires Enabled(w, Local(d, e))
    ensures var r := Next(w, Local(d, e)).replicas[d];
      r.lamport == w.replicas[d].lamport + 1 && HasClock(r.state, Lamport(r.lamport, d))
  {
    hide Writes, Planned, Store, HasClock;
    var r := w.replicas[d];
    StoreClocks(r.state, Planned(r.state, e, Lamport(r.lamport + 1, d)), Lamport(r.lamport + 1, d));
  }

  // ---- two devices ---------------------------------------------------------------------

  function Published(w: World, d: DeviceId): Snapshot
    requires d in w.replicas
  {
    Snapshot(w.replicas[d].lamport, d, w.replicas[d].state)
  }

  /** From anywhere a run may be, two devices that publish, absorb the other's snapshot and
      so in turn are left with one book, which has all that either had. */
  lemma ExchangeAgrees(actions: seq<Action>, d: DeviceId, e: DeviceId)
    requires d != e && d in Run(START, actions).replicas && e in Run(START, actions).replicas
    ensures
      var w := Run(START, actions);
      var v := Run(w, [Publish(d), Absorb(e, Published(w, d)), Publish(e), Absorb(d, ExchangeReply(w, d, e))]);
      && d in v.replicas && e in v.replicas && v.replicas[d].state == v.replicas[e].state
      && v.replicas[d].state == Merge(w.replicas[d].state, w.replicas[e].state)
  {
    hide Merge, Inv, Run, Compatible, WellFormed, Coherent, Highest, Clocks;
    var w := Run(START, actions);
    RunKeeps(actions);
    var p, q := w.replicas[d].state, w.replicas[e].state;
    assert p in States(w) && q in States(w);
    InUniverse(w, p);
    InUniverse(w, q);
    var a := [Publish(d), Absorb(e, Published(w, d)), Publish(e), Absorb(d, ExchangeReply(w, d, e))];
    FourSteps(w, a[0], a[1], a[2], a[3]);
    MergeCommutes(p, q);
    MergeAssociative(p, p, q);
    MergeIdempotent(p);
  }

  /** What `e` publishes once it has absorbed what `d` had. */
  ghost function ExchangeReply(w: World, d: DeviceId, e: DeviceId): Snapshot
    requires d in w.replicas && e in w.replicas
  {
    var s := Merge(w.replicas[e].state, w.replicas[d].state);
    Snapshot(Max(Max(w.replicas[e].lamport, w.replicas[d].lamport), MaxCounter(s)), e, s)
  }

  ghost function Do(w: World, a: Action): World {
    if Enabled(w, a) then Next(w, a) else w
  }

  lemma FourSteps(w: World, a: Action, b: Action, c: Action, d: Action)
    ensures Run(w, [a, b, c, d]) == Do(Do(Do(Do(w, a), b), c), d)
  {
    hide Next, Enabled;
    assert [a, b, c, d][..3] == [a, b, c] && [a, b, c][..2] == [a, b] && [a, b][..1] == [a] && [a][..0] == [];
    assert Run(w, []) == w;
    assert Run(w, [a]) == Do(w, a);
    assert Run(w, [a, b]) == Do(Do(w, a), b);
    assert Run(w, [a, b, c]) == Do(Do(Do(w, a), b), c);
  }

  // ---- a forgotten device ----------------------------------------------------------------

  /** This book's row for the device is no earlier than any live one in that book. */
  ghost predicate NotBehind(own: State, x: State, d: DeviceId) {
    var k := DeviceKey(d);
    Live(x.devices, k) ==> k in own.devices && !Before(own.devices[k].clock, x.devices[k].clock)
  }

  /** Nobody has a later live row of a device than that device itself. */
  ghost predicate OwnRowsLatest(w: World) {
    forall d, x :: d in w.replicas && x in States(w) ==> NotBehind(w.replicas[d].state, x, d)
  }

  /** A device's row gave way, if at all, to a later one. */
  ghost predicate RowGrows(s: State, t: State, d: DeviceId) {
    var k := DeviceKey(d);
    k in s.devices ==> k in t.devices && !Before(t.devices[k].clock, s.devices[k].clock)
  }

  lemma BehindGrows(own: State, t: State, x: State, d: DeviceId)
    requires NotBehind(own, x, d) && RowGrows(own, t, d)
    ensures NotBehind(t, x, d)
  {
    var k := DeviceKey(d);
    if Live(x.devices, k) { ThreeClocks(t.devices[k].clock, own.devices[k].clock, x.devices[k].clock); }
  }

  /** A device moves on to book `s`. */
  lemma OwnStep(w: World, v: World, e: DeviceId, s: State, n: nat)
    requires OwnRowsLatest(w) && e in w.replicas && v == w.(replicas := w.replicas[e := Replica(s, n)])
    requires RowGrows(w.replicas[e].state, s, e) && NotBehind(s, s, e)
    requires forall d :: d in w.replicas && d != e ==> NotBehind(w.replicas[d].state, s, d)
    ensures OwnRowsLatest(v)
  {
    hide NotBehind, RowGrows;
    forall d, x | d in v.replicas && x in States(v) ensures NotBehind(v.replicas[d].state, x, d) {
      if x != s {
        assert x in States(w);
        if d == e { BehindGrows(w.replicas[e].state, s, x, e); }
      }
    }
  }

  lemma SelfNotBehind(s: State, d: DeviceId)
    ensures NotBehind(s, s, d)
  {
    var k := DeviceKey(d);
    if k in s.devices { ClockTotal(s.devices[k].clock, s.devices[k].clock); }
  }

  /** An edit leaves a device row as it is or removed, unless it is the editor's own; and
      none brings back one that was removed. */
  lemma EditRow(s: State, edit: Edit, clock: Lamport, k: Text)
    requires Writes(s, edit, clock.device)
    ensures var t := Write(s, edit, clock);
      && (k != DeviceKey(clock.device) && Live(t.devices, k) ==> k in s.devices && t.devices[k] == s.devices[k])
      && (k in s.devices && s.devices[k].deleted ==> k in t.devices && t.devices[k].deleted)
      && (k in s.devices ==> k in t.devices && (t.devices[k] == s.devices[k] || t.devices[k].clock == clock))
  {
    var p := Planned(s, edit, clock);
    StoreTouches(s, p);
    assert edit.Announce? ==> !Forgotten(s, DeviceKey(clock.device));
    hide DeviceKey, Planned, Writes, Store;
  }

  lemma StoreTouches(s: State, p: Put)
    ensures Store(s, p).devices == if p.PutDevice? then s.devices[p.k := p.device] else s.devices
  {
  }

  predicate Forgotten(s: State, k: Text) {
    k in s.devices && s.devices[k].deleted
  }

  /** So what another device's own book says of it still goes. */
  lemma EditNotBehind(own: State, s: State, edit: Edit, clock: Lamport, d: DeviceId)
    requires NotBehind(own, s, d) && Writes(s, edit, clock.device) && d != clock.device
    ensures NotBehind(own, Write(s, edit, clock), d)
  {
    DeviceKeyInjective(d, clock.device);
    EditRow(s, edit, clock, DeviceKey(d));
    hide Write, Writes, DeviceKey;
  }

  lemma LocalKeepsOwn(w: World, e: DeviceId, edit: Edit)
    requires Inv(w) && OwnRowsLatest(w) && Enabled(w, Local(e, edit))
    ensures OwnRowsLatest(Next(w, Local(e, edit)))
  {
    hide Compatible, Stamped, Coherent, Write, Writes, DeviceKey, NotBehind, RowGrows, HasClock;
    var r := w.replicas[e];
    var clock := Lamport(r.lamport + 1, e);
    var s := Write(r.state, edit, clock);
    assert r.state in States(w) && Ahead(r.state, r.lamport);
    forall d | d in w.replicas && d != e ensures NotBehind(w.replicas[d].state, s, d) {
      EditNotBehind(w.replicas[d].state, r.state, edit, clock, d);
    }
    SelfNotBehind(s, e);
    EditGrows(r.state, edit, clock, r.lamport);
    hide Ahead;
    OwnStep(w, Next(w, Local(e, edit)), e, s, r.lamport + 1);
  }

  lemma EditGrows(s: State, edit: Edit, clock: Lamport, n: nat)
    requires Writes(s, edit, clock.device) && Ahead(s, n) && clock.counter == n + 1
    ensures RowGrows(s, Write(s, edit, clock), clock.device)
  {
    var k := DeviceKey(clock.device);
    EditRow(s, edit, clock, k);
    hide Write, Writes, DeviceKey;
    if k in s.devices {
      assert s.devices[k].clock in ClocksOf(s.devices);
      assert HasClock(s, s.devices[k].clock);
      ClockTotal(s.devices[k].clock, s.devices[k].clock);
    }
  }

  lemma AbsorbKeepsOwn(w: World, e: DeviceId, p: Snapshot)
    requires OwnRowsLatest(w) && Enabled(w, Absorb(e, p))
    ensures OwnRowsLatest(Next(w, Absorb(e, p)))
  {
    var r := w.replicas[e];
    var s := Merge(r.state, p.state);
    assert r.state in States(w) && p.state in States(w);
    hide Merge, Highest;
    MergedRows(r.state, p.state, DeviceKey(e));
    hide DeviceKey;
    forall d | d in w.replicas && d != e ensures NotBehind(w.replicas[d].state, s, d) {
      assert NotBehind(w.replicas[d].state, r.state, d) && NotBehind(w.replicas[d].state, p.state, d);
      MergedRows(r.state, p.state, DeviceKey(d));
    }
    SelfNotBehind(s, e);
    if DeviceKey(e) in r.state.devices {
      ClockTotal(r.state.devices[DeviceKey(e)].clock, s.devices[DeviceKey(e)].clock);
      ClockTotal(r.state.devices[DeviceKey(e)].clock, r.state.devices[DeviceKey(e)].clock);
    }
    assert RowGrows(r.state, s, e);
    hide NotBehind, RowGrows;
    OwnStep(w, Next(w, Absorb(e, p)), e, s, Next(w, Absorb(e, p)).replicas[e].lamport);
  }

  lemma StepKeepsOwn(w: World, a: Action)
    requires Inv(w) && OwnRowsLatest(w) && Enabled(w, a)
    ensures OwnRowsLatest(Next(w, a))
  {
    hide Inv, OwnRowsLatest, NotBehind, Next;
    match a
    case Local(d, e) => LocalKeepsOwn(w, d, e);
    case Absorb(d, p) => AbsorbKeepsOwn(w, d, p);
    case Join(d) => JoinKeepsOwn(w, d);
    case Record(d, pubkey, seen) => RecordKeepsOwn(w, d, pubkey, seen);
    case Publish(d) => PublishKeepsOwn(w, d);
  }

  lemma JoinKeepsOwn(w: World, d: DeviceId)
    requires Inv(w) && OwnRowsLatest(w) && d !in w.replicas
    ensures OwnRowsLatest(Next(w, Join(d)))
  {
    hide Compatible, Coherent;
    var v := Next(w, Join(d));
    forall e, x | e in v.replicas && x in States(v) ensures NotBehind(v.replicas[e].state, x, e) {
      if x != EMPTY {
        assert x in States(w);
        if e == d { NobodysRow(w, x, d); }
      }
    }
  }

  /** A live device row was written by that device, which is one of the run's. */
  lemma LiveRowHasWriter(w: World, x: State, k: Text)
    requires Inv(w) && x in States(w) && Live(x.devices, k)
    ensures var d := x.devices[k].clock.device; d in w.replicas && DeviceKey(d) == k
  {
    hide Compatible, Coherent;
    InUniverse(w, x);
    assert Stamped(w, x);
    var c := x.devices[k].clock;
    assert c in ClocksOf(x.devices);
    assert HasClock(x, c);
  }

  lemma NobodysRow(w: World, x: State, d: DeviceId)
    requires Inv(w) && x in States(w) && d !in w.replicas
    ensures !Live(x.devices, DeviceKey(d))
  {
    hide Inv, States, DeviceKey;
    if Live(x.devices, DeviceKey(d)) {
      LiveRowHasWriter(w, x, DeviceKey(d));
      DeviceKeyInjective(x.devices[DeviceKey(d)].clock.device, d);
    }
  }

  lemma RecordKeepsOwn(w: World, d: DeviceId, pubkey: Text, seen: Seen)
    requires OwnRowsLatest(w) && d in w.replicas
    ensures OwnRowsLatest(Next(w, Record(d, pubkey, seen)))
  {
    var r := w.replicas[d];
    var s := r.state.(seen := Union(SeenPick, r.state.seen, map[pubkey := seen]));
    hide Union, DeviceKey;
    assert r.state in States(w);
    forall e | e in w.replicas && e != d ensures NotBehind(w.replicas[e].state, s, e) {
      assert NotBehind(w.replicas[e].state, r.state, e);
    }
    SelfNotBehind(s, d);
    if DeviceKey(d) in s.devices { ClockTotal(s.devices[DeviceKey(d)].clock, s.devices[DeviceKey(d)].clock); }
    assert RowGrows(r.state, s, d);
    hide NotBehind, RowGrows;
    OwnStep(w, Next(w, Record(d, pubkey, seen)), d, s, r.lamport);
  }

  lemma PublishKeepsOwn(w: World, d: DeviceId)
    requires OwnRowsLatest(w) && d in w.replicas
    ensures OwnRowsLatest(Next(w, Publish(d)))
  {
    hide NotBehind;
    assert States(Next(w, Publish(d))) == States(w);
  }

  lemma {:induction false} RunKeepsOwn(actions: seq<Action>)
    ensures OwnRowsLatest(Run(START, actions))
  {
    if |actions| > 0 {
      hide Inv, OwnRowsLatest, Next, Enabled;
      var front, last := actions[..|actions| - 1], actions[|actions| - 1];
      RunKeepsOwn(front);
      RunKeeps(front);
      if Enabled(Run(START, front), last) { StepKeepsOwn(Run(START, front), last); }
    }
  }

  /** The device's own book shows it removed. */
  predicate KnowsForgotten(w: World, d: DeviceId) {
    d in w.replicas && Forgotten(w.replicas[d].state, DeviceKey(d))
  }

  lemma StepKeepsForgotten(w: World, a: Action, d: DeviceId)
    requires OwnRowsLatest(w) && Enabled(w, a) && KnowsForgotten(w, d)
    ensures KnowsForgotten(Next(w, a), d)
  {
    hide DeviceKey, Write, OwnRowsLatest;
    match a
    case Local(e, edit) => if e == d { EditRow(w.replicas[d].state, edit, Lamport(w.replicas[d].lamport + 1, d), DeviceKey(d)); }
    case Absorb(e, p) => StepAbsorbForgotten(w, e, p, d);
    case _ =>
  }

  lemma StepAbsorbForgotten(w: World, e: DeviceId, p: Snapshot, d: DeviceId)
    requires OwnRowsLatest(w) && Enabled(w, Absorb(e, p)) && KnowsForgotten(w, d)
    ensures KnowsForgotten(Next(w, Absorb(e, p)), d)
  {
    hide NotBehind, DeviceKey, Merge, MaxCounter;
    assert p.state in States(w);
    assert NotBehind(w.replicas[d].state, p.state, d);
    AbsorbKeepsForgotten(w.replicas[d].state, p.state, d);
  }

  lemma AbsorbKeepsForgotten(s: State, x: State, d: DeviceId)
    requires Forgotten(s, DeviceKey(d)) && NotBehind(s, x, d)
    ensures Forgotten(Merge(s, x), DeviceKey(d))
  {
    hide Merge, DeviceKey;
    MergedRows(s, x, DeviceKey(d));
    if DeviceKey(d) in x.devices { ClockTotal(s.devices[DeviceKey(d)].clock, x.devices[DeviceKey(d)].clock); }
  }

  /** Once a device has learned that it was forgotten, it stays forgotten: nothing it or
      anyone does brings it back into its own book, so it never tells of itself again. */
  lemma {:induction false} ForgottenForGood(actions: seq<Action>, from: nat, d: DeviceId)
    requires from <= |actions| && KnowsForgotten(Run(START, actions[..from]), d)
    ensures KnowsForgotten(Run(START, actions), d)
    ensures forall row :: !Enabled(Run(START, actions), Local(d, Announce(row)))
  {
    if from == |actions| {
      assert actions[..from] == actions;
    } else {
      hide Inv, OwnRowsLatest, Next, KnowsForgotten;
      var front, last := actions[..|actions| - 1], actions[|actions| - 1];
      assert front[..from] == actions[..from];
      ForgottenForGood(front, from, d);
      RunKeepsOwn(front);
      if Enabled(Run(START, front), last) { StepKeepsForgotten(Run(START, front), last, d); }
      DeclinesToAnnounce(Run(START, actions), d);
    }
  }

  lemma DeclinesToAnnounce(w: World, d: DeviceId)
    requires KnowsForgotten(w, d)
    ensures forall row :: !Enabled(w, Local(d, Announce(row)))
  {
  }
}
