/** Every run of a set of devices sharing one address book: each edits under its own
    clock, publishes snapshots, and merges any published snapshot in any order any
    number of times (engine/src/book/sync_bridge.rs over core/src/sync.rs). */
module SyncReplicas {
  import opened Bytes
  import opened Sync
  import opened SyncClocks

  // ---- local edits ------------------------------------------------------------------

  datatype Mark = Verified | Trusted | Blocked

  datatype Edit =
    | SetContact(name: Text, pubkey: Text)
    | RemoveContact(name: Text)
    | SetMark(mark: Mark, pubkey: Text, since: nat)
    | RemoveMark(mark: Mark, pubkey: Text)
    | SetName(pubkey: Text, shown: AdvertisedName)
    | RemoveName(pubkey: Text)
    | SetRelay(pubkey: Text, relay: Text)
    | RemoveRelay(pubkey: Text)
    | Announce(row: Device)      // this device, describing itself
    | Forget(id: DeviceId)       // any device, forgotten from here
    | Rename(name: Text)         // the identity's own display name

  function MarksOf(s: State, mark: Mark): map<Text, Reg<nat>> {
    match mark
    case Verified => s.verified
    case Trusted => s.trusted
    case Blocked => s.blocked
  }

  predicate Live<V>(m: map<Text, Reg<V>>, k: Text) {
    k in m && !m[k].deleted
  }

  /** Whether the edit writes anything: only a live row is removed, and a device that
      finds itself forgotten does not announce itself again. */
  predicate Writes(s: State, e: Edit, device: DeviceId) {
    match e
    case RemoveContact(name) => Live(s.contacts, name)
    case RemoveMark(mark, pubkey) => Live(MarksOf(s, mark), pubkey)
    case RemoveName(pubkey) => Live(s.names, pubkey)
    case RemoveRelay(pubkey) => Live(s.relays, pubkey)
    case Announce(_) => !(DeviceKey(device) in s.devices && s.devices[DeviceKey(device)].deleted)
    case _ => true
  }

  /** The one row an edit writes. */
  datatype Put =
    | PutContact(k: Text, contact: Reg<Text>)
    | PutVerified(k: Text, verified: Reg<nat>)
    | PutTrusted(k: Text, trusted: Reg<nat>)
    | PutBlocked(k: Text, blocked: Reg<nat>)
    | PutName(k: Text, shown: Reg<AdvertisedName>)
    | PutRelay(k: Text, relay: Reg<Text>)
    | PutDevice(k: Text, device: Reg<Device>)
    | PutSelf(own: SelfName)
  {
    function Clock(): Lamport {
      match this
      case PutContact(_, row) => row.clock
      case PutVerified(_, row) => row.clock
      case PutTrusted(_, row) => row.clock
      case PutBlocked(_, row) => row.clock
      case PutName(_, row) => row.clock
      case PutRelay(_, row) => row.clock
      case PutDevice(_, row) => row.clock
      case PutSelf(row) => row.clock
    }
  }

  function Store(s: State, p: Put): State {
    match p
    case PutContact(k, row) => s.(contacts := s.contacts[k := row])
    case PutVerified(k, row) => s.(verified := s.verified[k := row])
    case PutTrusted(k, row) => s.(trusted := s.trusted[k := row])
    case PutBlocked(k, row) => s.(blocked := s.blocked[k := row])
    case PutName(k, row) => s.(names := s.names[k := row])
    case PutRelay(k, row) => s.(relays := s.relays[k := row])
    case PutDevice(k, row) => s.(devices := s.devices[k := row])
    case PutSelf(row) => s.(selfName := Some(row))
  }

  function MarkPut(mark: Mark, k: Text, row: Reg<nat>): Put {
    match mark
    case Verified => PutVerified(k, row)
    case Trusted => PutTrusted(k, row)
    case Blocked => PutBlocked(k, row)
  }

  function Planned(s: State, e: Edit, clock: Lamport): (p: Put)
    requires Writes(s, e, clock.device)
    ensures p.Clock() == clock
    ensures p.PutDevice? ==> Authored(p.k, p.device)
    ensures p.PutDevice? <==> e.Announce? || e.Forget?
    ensures p.PutDevice? ==> p.k == DeviceKey(if e.Forget? then e.id else clock.device) && (p.device.deleted <==> e.Forget?)
  {
    match e
    case SetContact(name, pubkey) => PutContact(name, Reg(pubkey, clock, false))
    case RemoveContact(name) => PutContact(name, Reg(s.contacts[name].value, clock, true))
    case SetMark(mark, pubkey, since) => MarkPut(mark, pubkey, Reg(since, clock, false))
    case RemoveMark(mark, pubkey) => MarkPut(mark, pubkey, Reg(0, clock, true))
    case SetName(pubkey, shown) => PutName(pubkey, Reg(shown, clock, false))
    case RemoveName(pubkey) => PutName(pubkey, Reg(s.names[pubkey].value, clock, true))
    case SetRelay(pubkey, relay) => PutRelay(pubkey, Reg(relay, clock, false))
    case RemoveRelay(pubkey) => PutRelay(pubkey, Reg(s.relays[pubkey].value, clock, true))
    case Announce(row) => PutDevice(DeviceKey(clock.device), Reg(row, clock, false))
    case Forget(id) =>
      var k := DeviceKey(id);
      PutDevice(k, Reg(if k in s.devices then s.devices[k].value else Device([], [], 0), clock, true))
    case Rename(name) => PutSelf(SelfName(name, clock))
  }

  /** The book with the edit written under `clock`. */
  function Write(s: State, e: Edit, clock: Lamport): State
    requires Writes(s, e, clock.device)
  {
    Store(s, Planned(s, e, clock))
  }

  /** What a register shows its user: the live rows. */
  function Ledger<V>(m: map<Text, Reg<V>>): map<Text, V> {
    map k | k in m && !m[k].deleted :: m[k].value
  }

  lemma PutShows<V>(m: map<Text, Reg<V>>, k: Text, row: Reg<V>)
    ensures Ledger(m[k := row]) == Shows(Ledger(m), k, row)
  {
  }

  /** The ledgers a book is projected to. */
  datatype Ledgers = Ledgers(
    contacts: map<Text, Text>, verified: map<Text, nat>, trusted: map<Text, nat>, names: map<Text, AdvertisedName>,
    blocked: map<Text, nat>, relays: map<Text, Text>, devices: map<Text, Device>, name: Option<Text>)

  function Projected(s: State): Ledgers {
    Ledgers(Ledger(s.contacts), Ledger(s.verified), Ledger(s.trusted), Ledger(s.names), Ledger(s.blocked),
            Ledger(s.relays), Ledger(s.devices), if s.selfName.Some? then Some(s.selfName.value.name) else None)
  }

  /** What an edit means to its user. */
  function Edited(v: Ledgers, e: Edit, device: DeviceId): Ledgers {
    match e
    case SetContact(name, pubkey) => v.(contacts := v.contacts[name := pubkey])
    case RemoveContact(name) => v.(contacts := v.contacts - {name})
    case SetMark(Verified, pubkey, since) => v.(verified := v.verified[pubkey := since])
    case SetMark(Trusted, pubkey, since) => v.(trusted := v.trusted[pubkey := since])
    case SetMark(Blocked, pubkey, since) => v.(blocked := v.blocked[pubkey := since])
    case RemoveMark(Verified, pubkey) => v.(verified := v.verified - {pubkey})
    case RemoveMark(Trusted, pubkey) => v.(trusted := v.trusted - {pubkey})
    case RemoveMark(Blocked, pubkey) => v.(blocked := v.blocked - {pubkey})
    case SetName(pubkey, shown) => v.(names := v.names[pubkey := shown])
    case RemoveName(pubkey) => v.(names := v.names - {pubkey})
    case SetRelay(pubkey, relay) => v.(relays := v.relays[pubkey := relay])
    case RemoveRelay(pubkey) => v.(relays := v.relays - {pubkey})
    case Announce(row) => v.(devices := v.devices[DeviceKey(device) := row])
    case Forget(id) => v.(devices := v.devices - {DeviceKey(id)})
    case Rename(name) => v.(name := Some(name))
  }

  function Shows<V>(l: map<Text, V>, k: Text, row: Reg<V>): map<Text, V> {
    if row.deleted then l - {k} else l[k := row.value]
  }

  function ShowsPut(v: Ledgers, p: Put): Ledgers {
    match p
    case PutContact(k, row) => v.(contacts := Shows(v.contacts, k, row))
    case PutVerified(k, row) => v.(verified := Shows(v.verified, k, row))
    case PutTrusted(k, row) => v.(trusted := Shows(v.trusted, k, row))
    case PutBlocked(k, row) => v.(blocked := Shows(v.blocked, k, row))
    case PutName(k, row) => v.(names := Shows(v.names, k, row))
    case PutRelay(k, row) => v.(relays := Shows(v.relays, k, row))
    case PutDevice(k, row) => v.(devices := Shows(v.devices, k, row))
    case PutSelf(row) => v.(name := Some(row.name))
  }

  lemma StoreShows(s: State, p: Put)
    ensures Projected(Store(s, p)) == ShowsPut(Projected(s), p)
  {
    hide Ledger, Shows;
    match p
    case PutContact(k, row) => PutShows(s.contacts, k, row);
    case PutVerified(k, row) => PutShows(s.verified, k, row);
    case PutTrusted(k, row) => PutShows(s.trusted, k, row);
    case PutBlocked(k, row) => PutShows(s.blocked, k, row);
    case PutName(k, row) => PutShows(s.names, k, row);
    case PutRelay(k, row) => PutShows(s.relays, k, row);
    case PutDevice(k, row) => PutShows(s.devices, k, row);
    case PutSelf(row) =>
  }

  lemma MarkEditShows(s: State, e: Edit, clock: Lamport)
    requires Writes(s, e, clock.device) && (e.SetMark? || e.RemoveMark?)
    ensures ShowsPut(Projected(s), Planned(s, e, clock)) == Edited(Projected(s), e, clock.device)
  {
    hide Projected, Writes;
    match e.mark
    case Verified =>
    case Trusted =>
    case Blocked =>
  }

  lemma OtherEditShows(s: State, e: Edit, clock: Lamport)
    requires Writes(s, e, clock.device) && !e.SetMark? && !e.RemoveMark?
    ensures ShowsPut(Projected(s), Planned(s, e, clock)) == Edited(Projected(s), e, clock.device)
  {
    hide Projected, Writes, DeviceKey;
  }

  /** An edit shows as itself: what is set is there, what is removed is not, and nothing
      else has moved. */
  lemma EditShows(s: State, e: Edit, clock: Lamport)
    requires Writes(s, e, clock.device)
    ensures Projected(Write(s, e, clock)) == Edited(Projected(s), e, clock.device)
  {
    hide Projected, ShowsPut, Planned, Edited, Store, Writes;
    StoreShows(s, Planned(s, e, clock));
    if e.SetMark? || e.RemoveMark? { MarkEditShows(s, e, clock); } else { OtherEditShows(s, e, clock); }
  }

  lemma PutAgrees<V(!new)>(m: map<Text, Reg<V>>, k: Text, row: Reg<V>, y: map<Text, Reg<V>>)
    requires Agree(m, y) && row.clock !in ClocksOf(y)
    ensures Agree(m[k := row], y)
  {
  }

  /** A row under a clock `y` has never seen does not clash with `y`. */
  lemma StoreCoherent(s: State, p: Put, y: State)
    requires Coherent(s, y) && !HasClock(y, p.Clock())
    ensures Coherent(Store(s, p), y)
  {
    hide Agree, ClocksOf;
    match p
    case PutContact(k, row) => PutAgrees(s.contacts, k, row, y.contacts);
    case PutVerified(k, row) => PutAgrees(s.verified, k, row, y.verified);
    case PutTrusted(k, row) => PutAgrees(s.trusted, k, row, y.trusted);
    case PutBlocked(k, row) => PutAgrees(s.blocked, k, row, y.blocked);
    case PutName(k, row) => PutAgrees(s.names, k, row, y.names);
    case PutRelay(k, row) => PutAgrees(s.relays, k, row, y.relays);
    case PutDevice(k, row) => PutAgrees(s.devices, k, row, y.devices);
    case PutSelf(row) =>
  }

  lemma PutClocks<V>(m: map<Text, Reg<V>>, k: Text, row: Reg<V>, c: Lamport)
    ensures c in ClocksOf(m[k := row]) ==> c in ClocksOf(m) || c == row.clock
    ensures row.clock in ClocksOf(m[k := row])
  {
    assert m[k := row][k].clock in ClocksOf(m[k := row]);
  }

  lemma StoreClocks(s: State, p: Put, c: Lamport)
    ensures HasClock(Store(s, p), c) ==> HasClock(s, c) || c == p.Clock()
    ensures HasClock(Store(s, p), p.Clock())
  {
    hide ClocksOf;
    match p
    case PutContact(k, row) => PutClocks(s.contacts, k, row, c);
    case PutVerified(k, row) => PutClocks(s.verified, k, row, c);
    case PutTrusted(k, row) => PutClocks(s.trusted, k, row, c);
    case PutBlocked(k, row) => PutClocks(s.blocked, k, row, c);
    case PutName(k, row) => PutClocks(s.names, k, row, c);
    case PutRelay(k, row) => PutClocks(s.relays, k, row, c);
    case PutDevice(k, row) => PutClocks(s.devices, k, row, c);
    case PutSelf(row) =>
  }

  lemma StoreWellFormed(s: State, p: Put)
    requires WellFormed(s) && (p.PutDevice? ==> Authored(p.k, p.device))
    ensures WellFormed(Store(s, p))
  {
  }

  // ---- runs --------------------------------------------------------------------------

  /** A device's sidecar: its book and its Lamport counter. */
  datatype Replica = Replica(state: State, lamport: nat)

  datatype Snapshot = Snapshot(lamport: nat, device: DeviceId, state: State)

  datatype World = World(replicas: map<DeviceId, Replica>, published: set<Snapshot>)

  datatype Action =
    | Join(device: DeviceId)                        // a new device, under a fresh random id
    | Local(device: DeviceId, edit: Edit)
    | Record(device: DeviceId, pubkey: Text, seen: Seen)
    | Publish(device: DeviceId)
    | Absorb(device: DeviceId, snapshot: Snapshot)  // any published one, this one's included

  const START := World(map[], {})

  predicate Enabled(w: World, a: Action) {
    match a
    case Join(d) => d !in w.replicas
    case Local(d, e) => d in w.replicas && Writes(w.replicas[d].state, e, d)
    case Record(d, _, _) => d in w.replicas
    case Publish(d) => d in w.replicas
    case Absorb(d, snapshot) => d in w.replicas && snapshot in w.published
  }

  ghost function Next(w: World, a: Action): World
    requires Enabled(w, a)
  {
    match a
    case Join(d) => w.(replicas := w.replicas[d := Replica(EMPTY, 0)])
    case Local(d, e) =>
      var r := w.replicas[d];
      w.(replicas := w.replicas[d := Replica(Write(r.state, e, Lamport(r.lamport + 1, d)), r.lamport + 1)])
    case Record(d, pubkey, seen) =>
      var r := w.replicas[d];
      var s := r.state.(seen := Union(SeenPick, r.state.seen, map[pubkey := seen]));
      w.(replicas := w.replicas[d := Replica(s, r.lamport)])
    case Publish(d) => w.(published := w.published + {Snapshot(w.replicas[d].lamport, d, w.replicas[d].state)})
    case Absorb(d, snapshot) =>
      var r := w.replicas[d];
      var s := Merge(r.state, snapshot.state);
      w.(replicas := w.replicas[d := Replica(s, Max(Max(r.lamport, snapshot.lamport), MaxCounter(s)))])
  }

  /** The world after the actions; one that cannot happen is skipped. */
  ghost function Run(w: World, actions: seq<Action>): World {
    if |actions| == 0 then w
    else
      var before := Run(w, actions[..|actions| - 1]);
      var last := actions[|actions| - 1];
      if Enabled(before, last) then Next(before, last) else before
  }

  // ---- what every run keeps --------------------------------------------------------------

  ghost function States(w: World): set<State> {
    (set d | d in w.replicas :: w.replicas[d].state) + (set p | p in w.published :: p.state)
  }

  /** Every clock anywhere was taken by a device that is past it. */
  ghost predicate Stamped(w: World, x: State) {
    forall c :: HasClock(x, c) ==> c.device in w.replicas && c.counter <= w.replicas[c.device].lamport
  }

  ghost predicate Ahead(s: State, n: nat) {
    forall c :: HasClock(s, c) ==> c.counter <= n
  }

  ghost predicate Inv(w: World) {
    && Compatible(States(w))
    && (forall x :: x in States(w) ==> Stamped(w, x))
    && (forall d :: d in w.replicas ==> Ahead(w.replicas[d].state, w.replicas[d].lamport))
  }

  lemma CompatibleWith(u: set<State>, x: State)
    requires Compatible(u) && WellFormed(x) && forall y :: y in u ==> Coherent(x, y)
    ensures Compatible(u + {x})
  {
    hide WellFormed, Coherent;
    SelfCoherent(x);
    forall y | y in u ensures Coherent(y, x) { Symmetric(x, y); }
  }

  lemma SelfCoherent(x: State)
    ensures Coherent(x, x)
  {
  }

  lemma Symmetric(x: State, y: State)
    requires Coherent(x, y)
    ensures Coherent(y, x)
  {
  }

  /** A device moves on to a book that clashes with none there is. */
  lemma Moved(w: World, d: DeviceId, s: State, n: nat)
    requires Inv(w) && d in w.replicas && w.replicas[d].lamport <= n
    requires WellFormed(s) && Ahead(s, n) && forall y :: y in States(w) ==> Coherent(s, y)
    requires Stamped(w.(replicas := w.replicas[d := Replica(s, n)]), s)
    ensures Inv(w.(replicas := w.replicas[d := Replica(s, n)]))
  {
    hide Compatible, HasClock, Ahead;
    var v := w.(replicas := w.replicas[d := Replica(s, n)]);
    CompatibleWith(States(w), s);
    assert States(v) <= States(w) + {s};
    CompatiblePart(States(v), States(w) + {s});
    forall x | x in States(v) ensures Stamped(v, x) {
      if x != s { assert x in States(w); }
    }
  }

  lemma CompatiblePart(u: set<State>, v: set<State>)
    requires u <= v && Compatible(v)
    ensures Compatible(u)
  {
  }

  lemma LocalKeeps(w: World, d: DeviceId, e: Edit)
    requires Inv(w) && Enabled(w, Local(d, e))
    ensures Inv(Next(w, Local(d, e)))
  {
    hide HasClock, Coherent, WellFormed, Writes, Planned, Store, Compatible;
    var r := w.replicas[d];
    var clock := Lamport(r.lamport + 1, d);
    var p := Planned(r.state, e, clock);
    var s := Store(r.state, p);
    assert r.state in States(w);
    InUniverse(w, r.state);
    StoreWellFormed(r.state, p);
    forall y | y in States(w) ensures Coherent(s, y) {
      InUniverse(w, y);
      assert Stamped(w, y);
      StoreCoherent(r.state, p, y);
    }
    forall c | HasClock(s, c) ensures HasClock(r.state, c) || c == clock { StoreClocks(r.state, p, c); }
    assert Stamped(w, r.state);
    Moved(w, d, s, r.lamport + 1);
  }

  lemma InUniverse(w: World, x: State)
    requires Inv(w) && x in States(w)
    ensures WellFormed(x) && forall y :: y in States(w) ==> Coherent(x, y)
  {
    hide WellFormed, Coherent;
  }

  lemma AbsorbKeeps(w: World, d: DeviceId, snapshot: Snapshot)
    requires Inv(w) && Enabled(w, Absorb(d, snapshot))
    ensures Inv(Next(w, Absorb(d, snapshot)))
  {
    hide HasClock, Coherent, WellFormed, Compatible, Merge, Clocks, Highest;
    var r := w.replicas[d];
    var s := Merge(r.state, snapshot.state);
    assert r.state in States(w) && snapshot.state in States(w);
    InUniverse(w, r.state);
    InUniverse(w, snapshot.state);
    MergeKeepsWellFormed(r.state, snapshot.state);
    forall y | y in States(w) ensures Coherent(s, y) { MergeCoherent(r.state, snapshot.state, y); }
    MergeClocks(r.state, snapshot.state);
    VouchedWellFormed(snapshot.state);
    assert Stamped(w, r.state) && Stamped(w, snapshot.state);
    forall c | HasClock(s, c)
      ensures c in Clocks(s) && (HasClock(r.state, c) || HasClock(snapshot.state, c))
    {
      InClocks(s, c);
      InClocks(r.state, c);
      InClocks(snapshot.state, c);
    }
    Moved(w, d, s, Max(Max(r.lamport, snapshot.lamport), MaxCounter(s)));
  }

  lemma RecordKeeps(w: World, d: DeviceId, pubkey: Text, seen: Seen)
    requires Inv(w) && Enabled(w, Record(d, pubkey, seen))
    ensures Inv(Next(w, Record(d, pubkey, seen)))
  {
    hide Compatible, Union;
    var r := w.replicas[d];
    var s := r.state.(seen := Union(SeenPick, r.state.seen, map[pubkey := seen]));
    assert r.state in States(w);
    InUniverse(w, r.state);
    forall c ensures HasClock(s, c) <==> HasClock(r.state, c) {}
    assert Stamped(w, r.state);
    Moved(w, d, s, r.lamport);
  }

  lemma EmptyBook(y: State)
    ensures Coherent(EMPTY, y) && WellFormed(EMPTY) && forall c :: !HasClock(EMPTY, c)
  {
  }

  lemma JoinKeeps(w: World, d: DeviceId)
    requires Inv(w) && Enabled(w, Join(d))
    ensures Inv(Next(w, Join(d)))
  {
    hide Compatible, HasClock, Coherent, WellFormed;
    var v := Next(w, Join(d));
    forall y ensures Coherent(EMPTY, y) { EmptyBook(y); }
    EmptyBook(EMPTY);
    CompatibleWith(States(w), EMPTY);
    assert States(v) <= States(w) + {EMPTY};
    CompatiblePart(States(v), States(w) + {EMPTY});
    forall x | x in States(v) ensures Stamped(v, x) {
      if x != EMPTY { assert x in States(w) && Stamped(w, x); }
    }
  }

  lemma PublishKeeps(w: World, d: DeviceId)
    requires Inv(w) && Enabled(w, Publish(d))
    ensures Inv(Next(w, Publish(d)))
  {
    hide Compatible, HasClock, Ahead;
    assert States(Next(w, Publish(d))) == States(w);
  }

  lemma StepKeeps(w: World, a: Action)
    requires Inv(w) && Enabled(w, a)
    ensures Inv(Next(w, a))
  {
    hide *;
    match a
    case Join(d) => JoinKeeps(w, d);
    case Local(d, e) => LocalKeeps(w, d, e);
    case Record(d, pubkey, seen) => RecordKeeps(w, d, pubkey, seen);
    case Publish(d) => PublishKeeps(w, d);
    case Absorb(d, snapshot) => AbsorbKeeps(w, d, snapshot);
  }

  /** Whatever the devices do, one clock never comes to name two rows. */
  lemma {:induction false} RunKeeps(actions: seq<Action>)
    ensures Inv(Run(START, actions))
  {
    hide Inv, Next, Enabled;
    if |actions| == 0 {
      StartHolds();
    } else {
      var front := actions[..|actions| - 1];
      RunKeeps(front);
      if Enabled(Run(START, front), actions[|actions| - 1]) {
        StepKeeps(Run(START, front), actions[|actions| - 1]);
      }
    }
  }

  lemma StartHolds()
    ensures Inv(START)
  {
    assert States(START) == {};
  }

  // ---- what it gives --------------------------------------------------------------------

  /** On the books of any run, held or published, merging commutes, associates and
      absorbs itself. */
  lemma RunLaws(actions: seq<Action>, a: State, b: State, c: State)
    requires a in States(Run(START, actions)) && b in States(Run(START, actions)) && c in States(Run(START, actions))
    ensures Merge(a, b) == Merge(b, a)
    ensures Merge(Merge(a, b), c) == Merge(a, Merge(b, c))
    ensures Merge(a, a) == a
  {
    hide Merge, Coherent, WellFormed, States, Run;
    RunKeeps(actions);
    InUniverse(Run(START, actions), a);
    InUniverse(Run(START, actions), b);
    MergeCommutes(a, b);
    MergeAssociative(a, b, c);
    MergeIdempotent(a);
  }

  predicate IsAbsorb(w: World, a: Action) {
    a.Absorb? && a.device in w.replicas && a.snapshot in w.published
  }

  /** The books device `d` takes in, in the order it does. */
  function Taken(d: DeviceId, absorbs: seq<Action>): seq<State> {
    if |absorbs| == 0 then []
    else
      var last := absorbs[|absorbs| - 1];
      Taken(d, absorbs[..|absorbs| - 1]) + if last.Absorb? && last.device == d then [last.snapshot.state] else []
  }

  lemma TakenStep(s: State, d: DeviceId, absorbs: seq<Action>)
    requires |absorbs| > 0 && absorbs[|absorbs| - 1].Absorb?
    ensures var front, last := absorbs[..|absorbs| - 1], absorbs[|absorbs| - 1];
      MergeAll(s, Taken(d, absorbs))
      == if last.device == d then Merge(MergeAll(s, Taken(d, front)), last.snapshot.state) else MergeAll(s, Taken(d, front))
  {
    hide Merge;
    var taken, x := Taken(d, absorbs[..|absorbs| - 1]), absorbs[|absorbs| - 1].snapshot.state;
    assert (taken + [x])[..|taken|] == taken && taken + [] == taken;
  }

  lemma {:induction false} TakenPublished(w: World, absorbs: seq<Action>, d: DeviceId, x: State)
    requires (forall a :: a in absorbs ==> IsAbsorb(w, a)) && x in Taken(d, absorbs)
    ensures x in States(w)
  {
    var front, last := absorbs[..|absorbs| - 1], absorbs[|absorbs| - 1];
    if x in Taken(d, front) {
      TakenPublished(w, front, d, x);
    } else {
      assert IsAbsorb(w, last);
    }
  }

  /** Absorbing is folding in, whatever the others do meanwhile. */
  lemma {:induction false} AbsorbsFold(w: World, absorbs: seq<Action>, d: DeviceId)
    requires d in w.replicas && forall a :: a in absorbs ==> IsAbsorb(w, a)
    ensures var v := Run(w, absorbs);
      && v.published == w.published && v.replicas.Keys == w.replicas.Keys
      && v.replicas[d].state == MergeAll(w.replicas[d].state, Taken(d, absorbs))
  {
    hide Merge, Highest, Clocks, Taken;
    if |absorbs| == 0 {
      assert Taken(d, []) == [] by { NothingTaken(d); }
    } else {
      var front, last := absorbs[..|absorbs| - 1], absorbs[|absorbs| - 1];
      AbsorbsFold(w, front, d);
      assert IsAbsorb(w, last);
      TakenStep(w.replicas[d].state, d, absorbs);
      hide MergeAll;
      assert Run(w, absorbs) == Next(Run(w, front), last);
    }
  }

  lemma NothingTaken(d: DeviceId)
    ensures Taken(d, []) == []
  {
  }

  lemma {:induction false} RunAppend(w: World, a: seq<Action>, b: seq<Action>)
    ensures Run(w, a + b) == Run(Run(w, a), b)
  {
    hide Next, Enabled;
    if |b| == 0 {
      assert a + b == a;
    } else {
      RunAppend(w, a, b[..|b| - 1]);
      assert (a + b)[..|a + b| - 1] == a + b[..|b| - 1];
    }
  }

  /** Let the devices of any run go on to absorb published snapshots, interleaved as they
      may be, in whatever order and however often: two of them that had the same books to
      go by, each counting the one it began with, now hold the same book. */
  lemma RunsConverge(actions: seq<Action>, absorbs: seq<Action>, d: DeviceId, e: DeviceId)
    requires var w := Run(START, actions);
      && d in w.replicas && e in w.replicas && (forall a :: a in absorbs ==> IsAbsorb(w, a))
      && (forall x :: x == w.replicas[d].state || x in Taken(d, absorbs)
                 <==> x == w.replicas[e].state || x in Taken(e, absorbs))
    ensures var v := Run(START, actions + absorbs);
      d in v.replicas && e in v.replicas && v.replicas[d].state == v.replicas[e].state
  {
    hide Compatible, MergeAll, Run, Taken, IsAbsorb;
    var w := Run(START, actions);
    RunKeeps(actions);
    RunAppend(START, actions, absorbs);
    AbsorbsFold(w, absorbs, d);
    AbsorbsFold(w, absorbs, e);
    forall x | x in Taken(d, absorbs) ensures x in States(w) { TakenPublished(w, absorbs, d, x); }
    forall x | x in Taken(e, absorbs) ensures x in States(w) { TakenPublished(w, absorbs, e, x); }
    Converge(w.replicas[d].state, Taken(d, absorbs), w.replicas[e].state, Taken(e, absorbs), States(w));
  }

  // ---- nothing absorbed is ever lost again ------------------------------------------------

  lemma PutOverLww<V>(m: map<Text, Reg<V>>, k: Text, row: Reg<V>, x: map<Text, Reg<V>>)
    requires MergeLww(m, x) == m && (k in m ==> m[k].clock.counter < row.clock.counter)
    ensures MergeLww(m[k := row], x) == m[k := row]
  {
    var n := m[k := row];
    forall j | j in x ensures j in n && LwwPick(n[j], x[j]) == n[j] {
      assert j in MergeLww(m, x);
      if j in m { ClockTotal(m[j].clock, x[j].clock); }
    }
  }

  lemma PutOverMarks<V>(m: map<Text, Reg<V>>, k: Text, row: Reg<V>, x: map<Text, Reg<V>>)
    requires MergeMarks(m, x) == m && (k in m ==> m[k].clock.counter < row.clock.counter)
    ensures MergeMarks(m[k := row], x) == m[k := row]
  {
    var n := m[k := row];
    forall j | j in x ensures j in n && MarkPick(n[j], x[j]) == n[j] {
      assert j in MergeMarks(m, x);
      if j in m { ClockTotal(m[j].clock, x[j].clock); }
    }
  }

  lemma AheadOf<V>(m: map<Text, Reg<V>>, k: Text, n: nat)
    requires forall c :: c in ClocksOf(m) ==> c.counter <= n
    ensures k in m ==> m[k].clock.counter <= n
  {
  }

  /** An edit stamped above everything in the book stands against every book merged
      before. */
  lemma EditSurvives(s: State, p: Put, x: State)
    requires Merge(s, x) == s && MaxCounter(s) < p.Clock().counter
    ensures Merge(Store(s, p), x) == Store(s, p)
  {
    hide MergeLww, MergeMarks, ClocksOf, Highest, OnlyAuthored;
    InClocksAll(s);
    var n := MaxCounter(s);
    match p
    case PutContact(k, row) => AheadOf(s.contacts, k, n); PutOverLww(s.contacts, k, row, x.contacts);
    case PutVerified(k, row) => AheadOf(s.verified, k, n); PutOverMarks(s.verified, k, row, x.verified);
    case PutTrusted(k, row) => AheadOf(s.trusted, k, n); PutOverMarks(s.trusted, k, row, x.trusted);
    case PutBlocked(k, row) => AheadOf(s.blocked, k, n); PutOverMarks(s.blocked, k, row, x.blocked);
    case PutName(k, row) => AheadOf(s.names, k, n); PutOverLww(s.names, k, row, x.names);
    case PutRelay(k, row) => AheadOf(s.relays, k, n); PutOverLww(s.relays, k, row, x.relays);
    case PutDevice(k, row) => AheadOf(s.devices, k, n); PutOverMarks(s.devices, k, row, OnlyAuthored(x.devices));
    case PutSelf(row) =>
  }

  lemma InClocksAll(s: State)
    ensures forall c :: HasClock(s, c) ==> c.counter <= MaxCounter(s)
  {
    forall c | HasClock(s, c) ensures c in Clocks(s) { InClocks(s, c); }
  }

  lemma RecordOver(s: State, pubkey: Text, seen: Seen, x: State)
    requires Merge(s, x) == s
    ensures var t := s.(seen := Union(SeenPick, s.seen, map[pubkey := seen])); Merge(t, x) == t
  {
    var u := Union(SeenPick, s.seen, map[pubkey := seen]);
    forall k | k in x.seen ensures k in u && SeenPick(u[k], x.seen[k]) == u[k] {
      assert k in Union(SeenPick, s.seen, x.seen);
    }
    assert Union(SeenPick, u, x.seen) == u;
  }

  ghost predicate Absorbed(w: World, d: DeviceId, p: Snapshot) {
    d in w.replicas && p in w.published && Merge(w.replicas[d].state, p.state) == w.replicas[d].state
  }

  lemma AbsorbAbsorbs(w: World, d: DeviceId, p: Snapshot)
    requires Inv(w) && Enabled(w, Absorb(d, p))
    ensures Absorbed(Next(w, Absorb(d, p)), d, p)
  {
    hide Merge, WellFormed, Highest, Compatible;
    var s := w.replicas[d].state;
    assert p.state in States(w);
    InUniverse(w, p.state);
    MergeAssociative(s, p.state, p.state);
    MergeIdempotent(p.state);
  }

  lemma StepKeepsAbsorbed(w: World, a: Action, d: DeviceId, p: Snapshot)
    requires Inv(w) && Enabled(w, a) && Absorbed(w, d, p)
    ensures Absorbed(Next(w, a), d, p)
  {
    hide Merge, WellFormed, Coherent, Highest, Compatible, Store, HasClock;
    var s, x := w.replicas[d].state, p.state;
    match a
    case Local(f, e) =>
      if f == d {
        AheadIsHigher(s, w.replicas[d].lamport);
        EditSurvives(s, Planned(s, e, Lamport(w.replicas[d].lamport + 1, d)), x);
      }
    case Record(f, pubkey, seen) => if f == d { RecordOver(s, pubkey, seen, x); }
    case Absorb(f, q) =>
      if f == d {
        var y := q.state;
        assert x in States(w) && y in States(w);
        InUniverse(w, x);
        InUniverse(w, y);
        MergeAssociative(s, y, x);
        MergeCommutes(y, x);
        MergeAssociative(s, x, y);
      }
    case _ =>
  }

  lemma AheadIsHigher(s: State, n: nat)
    requires Ahead(s, n)
    ensures MaxCounter(s) <= n
  {
    hide HasClock;
    forall c | c in Clocks(s) ensures HasClock(s, c) { InClocks(s, c); }
  }

  lemma {:induction false} AbsorbedStays(before: seq<Action>, after: seq<Action>, d: DeviceId, p: Snapshot)
    requires Absorbed(Run(START, before), d, p)
    ensures Absorbed(Run(START, before + after), d, p)
  {
    hide Absorbed, Next, Enabled, Inv;
    if |after| == 0 {
      assert before + after == before;
    } else {
      var front, last := after[..|after| - 1], after[|after| - 1];
      AbsorbedStays(before, front, d, p);
      var actions := before + after;
      assert actions[..|actions| - 1] == before + front && actions[|actions| - 1] == last;
      RunKeeps(before + front);
      if Enabled(Run(START, before + front), last) { StepKeepsAbsorbed(Run(START, before + front), last, d, p); }
    }
  }

  /** Once a device of a run has absorbed a snapshot, getting it again changes nothing,
      whatever it edits or absorbs in between: no later write of its own is undone by it. */
  lemma AbsorbedForGood(before: seq<Action>, after: seq<Action>, d: DeviceId, p: Snapshot)
    requires Enabled(Run(START, before), Absorb(d, p))
    ensures var w := Run(START, before + [Absorb(d, p)] + after);
      && Enabled(w, Absorb(d, p))
      && Next(w, Absorb(d, p)).replicas[d].state == w.replicas[d].state
  {
    hide Inv, Merge;
    var a := Absorb(d, p);
    RunKeeps(before);
    AbsorbAbsorbs(Run(START, before), d, p);
    assert (before + [a])[..|before|] == before;
    assert Run(START, before + [a]) == Next(Run(START, before), a);
    hide Run;
    AbsorbedStays(before + [a], after, d, p);
  }

  /** Seeing another device's clock is proof that there is another device. */
  lemma ForeignClockMeansDevice(actions: seq<Action>, d: DeviceId)
    requires d in Run(START, actions).replicas
    requires AuthoredByAnother(Run(START, actions).replicas[d].state, d)
    ensures exists e :: e in Run(START, actions).replicas && e != d
  {
    hide Run, Compatible, WitnessClocks, Clocks;
    var w := Run(START, actions);
    RunKeeps(actions);
    var s := w.replicas[d].state;
    WitnessIgnoresRelays(s, d);
    var c :| c in Clocks(s) && c.device != d;
    InClocks(s, c);
    assert s in States(w) && Stamped(w, s);
  }

  // ---- what breaks it -----------------------------------------------------------------------

  /** A sidecar that cannot be read starts over from nothing, under the same device id. */
  function Lose(w: World, d: DeviceId): World
    requires d in w.replicas
  {
    w.(replicas := w.replicas[d := Replica(EMPTY, 0)])
  }

  /** Then its clocks repeat, and two devices that absorb the same two snapshots can end
      with different books for good. */
  lemma LosingTheSidecarBreaksConvergence(d: DeviceId, name: Text, one: Text, two: Text)
    requires one != two
    ensures
      var w := Run(START, [Join(d), Local(d, SetContact(name, one)), Publish(d)]);
      d in w.replicas &&
      var v := Run(Lose(w, d), [Local(d, SetContact(name, two)), Publish(d)]);
      exists p, q :: p in v.published && q in v.published && Merge(p.state, q.state) != Merge(q.state, p.state)
  {
    var book1 := EMPTY.(contacts := map[name := Reg(one, Lamport(1, d), false)]);
    var book2 := EMPTY.(contacts := map[name := Reg(two, Lamport(1, d), false)]);
    var p, q := Snapshot(1, d, book1), Snapshot(1, d, book2);
    FirstContact(START, d, name, one);
    var w := Run(START, [Join(d), Local(d, SetContact(name, one)), Publish(d)]);
    Republish(Lose(w, d), d, name, two);
    var v := Run(Lose(w, d), [Local(d, SetContact(name, two)), Publish(d)]);
    assert p in v.published && q in v.published;
    assert !Agree(book1.contacts, book2.contacts) by { assert name in book1.contacts && name in book2.contacts; }
    MergeCommutesIff(book1, book2);
  }

  lemma Republish(w: World, d: DeviceId, name: Text, key: Text)
    requires d in w.replicas && w.replicas[d] == Replica(EMPTY, 0)
    ensures Run(w, [Local(d, SetContact(name, key)), Publish(d)]).published
         == w.published + {Snapshot(1, d, EMPTY.(contacts := map[name := Reg(key, Lamport(1, d), false)]))}
  {
    var a1, a2 := Local(d, SetContact(name, key)), Publish(d);
    assert [a1, a2][..1] == [a1] && [a1][..0] == [];
    assert Run(w, []) == w;
    assert Run(w, [a1]) == Next(w, a1);
  }

  lemma FirstContact(w: World, d: DeviceId, name: Text, key: Text)
    requires d !in w.replicas
    ensures var v := Run(w, [Join(d), Local(d, SetContact(name, key)), Publish(d)]);
      && d in v.replicas
      && v.published == w.published + {Snapshot(1, d, EMPTY.(contacts := map[name := Reg(key, Lamport(1, d), false)]))}
  {
    var a0, a1, a2 := Join(d), Local(d, SetContact(name, key)), Publish(d);
    assert [a0, a1, a2][..2] == [a0, a1] && [a0, a1][..1] == [a0] && [a0][..0] == [];
    assert Run(w, []) == w;
    assert Run(w, [a0]) == Next(w, a0);
    assert Run(w, [a0, a1]) == Next(Next(w, a0), a1);
  }
}
