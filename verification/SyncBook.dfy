/** The address book as core/src/sync.rs keeps it: maps updated in place, merged by
    loops, read from a snapshot and written to one. */
module SyncBook {
  import opened Bytes
  import opened Sync
  import opened SyncClocks

  // ---- snapshot lists --------------------------------------------------------------

  /** A snapshot row: a register with its key in it. */
  datatype Entry<V> = Entry(key: Text, row: V)

  datatype Snapshot = Snapshot(
    lamport: nat,
    device: DeviceId,
    contacts: seq<Entry<Reg<Text>>>,
    verified: seq<Entry<Reg<nat>>>,
    trusted: seq<Entry<Reg<nat>>>,
    seen: seq<Entry<Seen>>,
    names: seq<Entry<Reg<AdvertisedName>>>,
    blocked: seq<Entry<Reg<nat>>>,
    devices: seq<Entry<Reg<Device>>>,
    relays: seq<Entry<Reg<Text>>>,
    selfName: Option<SelfName>)

  /** Rows inserted one after another: the last one for a key stays. */
  function FromEntries<V>(es: seq<Entry<V>>): map<Text, V> {
    if |es| == 0 then map[]
    else FromEntries(es[..|es| - 1])[es[|es| - 1].key := es[|es| - 1].row]
  }

  predicate Sorted<V>(es: seq<Entry<V>>) {
    forall i, j :: 0 <= i < j < |es| ==> LexLess(es[i].key, es[j].key)
  }

  function StateOf(s: Snapshot): State {
    State(FromEntries(s.contacts), FromEntries(s.verified), FromEntries(s.trusted), FromEntries(s.seen),
          FromEntries(s.names), FromEntries(s.blocked), FromEntries(s.relays), FromEntries(s.devices), s.selfName)
  }

  predicate Canonical(s: Snapshot) {
    && Sorted(s.contacts) && Sorted(s.verified) && Sorted(s.trusted) && Sorted(s.seen) && Sorted(s.names)
    && Sorted(s.blocked) && Sorted(s.devices) && Sorted(s.relays)
  }

  lemma {:induction false} EntriesHold<V>(es: seq<Entry<V>>, k: Text)
    ensures k in FromEntries(es) <==> exists i :: 0 <= i < |es| && es[i].key == k
    ensures Sorted(es) ==> forall i :: 0 <= i < |es| && es[i].key == k ==> FromEntries(es)[k] == es[i].row
  {
    if |es| > 0 {
      var front := es[..|es| - 1];
      EntriesHold(front, k);
      if k in FromEntries(front) {
        var i :| 0 <= i < |front| && front[i].key == k;
        assert es[i].key == k;
      }
      forall i | 0 <= i < |es| && es[i].key == k && Sorted(es) ensures FromEntries(es)[k] == es[i].row {
        if i < |front| {
          assert front[i] == es[i];
          LexTotal(es[i].key, es[|front|].key);
        }
      }
    }
  }

  predicate HasKey<V>(es: seq<Entry<V>>, k: Text) {
    exists i :: 0 <= i < |es| && es[i].key == k
  }

  /** This is the last of the rows with this key. */
  ghost predicate Stands<V(!new)>(es: seq<Entry<V>>, k: Text, row: V) {
    exists i :: 0 <= i < |es| && es[i] == Entry(k, row) && forall j :: i < j < |es| ==> es[j].key != k
  }

  /** The register has the keys of the list, and under each the row that is last for it. */
  ghost predicate Holds<V(!new)>(es: seq<Entry<V>>, m: map<Text, V>) {
    forall k :: (k in m <==> HasKey(es, k)) && (k in m ==> Stands(es, k, m[k]))
  }

  /** A row for another key changes nothing for `k`. */
  lemma OtherKey<V(!new)>(front: seq<Entry<V>>, last: Entry<V>, k: Text, row: V)
    requires last.key != k
    ensures HasKey(front + [last], k) <==> HasKey(front, k)
    ensures Stands(front, k, row) ==> Stands(front + [last], k, row)
  {
    var es := front + [last];
    if HasKey(front, k) {
      var i :| 0 <= i < |front| && front[i].key == k;
      assert es[i].key == k;
    }
    if Stands(front, k, row) {
      var i :| 0 <= i < |front| && front[i] == Entry(k, row) && forall j :: i < j < |front| ==> front[j].key != k;
      assert es[i] == Entry(k, row);
    }
  }

  lemma {:induction false} LastEntryHolds<V(!new)>(es: seq<Entry<V>>)
    ensures Holds(es, FromEntries(es))
  {
    if |es| > 0 {
      var front, last := es[..|es| - 1], es[|es| - 1];
      LastEntryHolds(front);
      assert es == front + [last];
      assert es[|es| - 1] == Entry(last.key, last.row);
      assert HasKey(es, last.key) && Stands(es, last.key, last.row);
      hide HasKey, Stands;
      var m := FromEntries(front);
      forall k | k != last.key ensures (k in m <==> HasKey(es, k)) && (k in m ==> Stands(es, k, m[k])) {
        OtherKey(front, last, k, if k in m then m[k] else last.row);
      }
    }
  }

  /** Each list of the snapshot is the register of that name. */
  ghost predicate ReadsAs(s: Snapshot, book: State) {
    && Holds(s.contacts, book.contacts) && Holds(s.verified, book.verified) && Holds(s.trusted, book.trusted)
    && Holds(s.seen, book.seen) && Holds(s.names, book.names) && Holds(s.blocked, book.blocked)
    && Holds(s.relays, book.relays) && Holds(s.devices, book.devices) && s.selfName == book.selfName
  }

  /** A snapshot reads list by list, the last row for a key standing. */
  lemma SnapshotReads(s: Snapshot)
    ensures ReadsAs(s, StateOf(s))
  {
    hide Holds, FromEntries;
    LastEntryHolds(s.contacts);
    LastEntryHolds(s.verified);
    LastEntryHolds(s.trusted);
    LastEntryHolds(s.seen);
    LastEntryHolds(s.names);
    LastEntryHolds(s.blocked);
    LastEntryHolds(s.relays);
    LastEntryHolds(s.devices);
  }

  lemma SortedLast<V>(es: seq<Entry<V>>, k: Text)
    requires Sorted(es) && |es| > 0 && k in FromEntries(es)
    ensures k == es[|es| - 1].key || LexLess(k, es[|es| - 1].key)
  {
    EntriesHold(es, k);
  }

  lemma SortedFront<V>(es: seq<Entry<V>>)
    requires Sorted(es) && |es| > 0
    ensures FromEntries(es[..|es| - 1]) == FromEntries(es) - {es[|es| - 1].key}
  {
    LastIsNew(es);
    var front, last := es[..|es| - 1], es[|es| - 1];
    PutAndRemove(FromEntries(front), last.key, last.row);
    hide Sorted;
  }

  lemma LastIsNew<V>(es: seq<Entry<V>>)
    requires Sorted(es) && |es| > 0
    ensures es[|es| - 1].key !in FromEntries(es[..|es| - 1])
  {
    var front, last := es[..|es| - 1], es[|es| - 1];
    EntriesHold(front, last.key);
    forall i | 0 <= i < |front| ensures front[i].key != last.key { LexTotal(es[i].key, last.key); }
    hide FromEntries;
  }

  lemma PutAndRemove<V>(m: map<Text, V>, k: Text, row: V)
    requires k !in m
    ensures m[k := row] - {k} == m
  {
  }

  lemma NoEntries<V>(es: seq<Entry<V>>)
    ensures FromEntries(es) == map[] <==> es == []
  {
    if |es| > 0 { assert es[|es| - 1].key in FromEntries(es); }
  }

  /** One book has one sorted list. */
  lemma {:induction false} SortedUnique<V>(es: seq<Entry<V>>, fs: seq<Entry<V>>)
    requires Sorted(es) && Sorted(fs) && FromEntries(es) == FromEntries(fs)
    ensures es == fs
  {
    if |es| == 0 {
      NoEntries(fs);
    } else if |fs| == 0 {
      NoEntries(es);
    } else {
      var e, f := es[|es| - 1], fs[|fs| - 1];
      SortedLast(es, f.key);
      SortedLast(fs, e.key);
      LexTotal(e.key, f.key);
      SortedFront(es);
      SortedFront(fs);
      SortedUnique(es[..|es| - 1], fs[..|fs| - 1]);
      assert es == es[..|es| - 1] + [e] && fs == fs[..|fs| - 1] + [f];
    }
  }

  /** The snapshot without its writer's stamps. */
  function Unstamped(s: Snapshot): Snapshot {
    s.(lamport := 0, device := [])
  }

  /** Two devices write the same rows, one for one, exactly when they hold the same book;
      only the stamps of who wrote them and when may differ. */
  lemma SnapshotDeterministic(s: Snapshot, t: Snapshot)
    requires Canonical(s) && Canonical(t)
    ensures StateOf(s) == StateOf(t) <==> Unstamped(s) == Unstamped(t)
  {
    hide Sorted, FromEntries;
    if StateOf(s) == StateOf(t) {
      SortedUnique(s.contacts, t.contacts);
      SortedUnique(s.verified, t.verified);
      SortedUnique(s.trusted, t.trusted);
      SortedUnique(s.seen, t.seen);
      SortedUnique(s.names, t.names);
      SortedUnique(s.blocked, t.blocked);
      SortedUnique(s.devices, t.devices);
      SortedUnique(s.relays, t.relays);
    }
  }

  lemma {:induction false} LeastExists(keys: set<Text>)
    requires keys != {}
    ensures exists k :: k in keys && forall j :: j in keys ==> j == k || LexLess(k, j)
    decreases |keys|
  {
    var x :| x in keys;
    var rest := keys - {x};
    if rest == {} {
      assert forall j :: j in keys && j != x ==> j in rest;
    } else {
      LeastExists(rest);
      var k :| k in rest && forall j :: j in rest ==> j == k || LexLess(k, j);
      LexTotal(x, k);
      if LexLess(x, k) {
        forall j | j in keys ensures j == x || LexLess(x, j) {
          if j != x && j != k { LexTrans(x, k, j); }
        }
      } else {
        assert forall j :: j in keys ==> j == x || j in rest;
      }
    }
  }

  // ---- loops over maps ----------------------------------------------------------------

  /** The rows of a sorted map, in order. */
  method ToEntries<V>(m: map<Text, V>) returns (es: seq<Entry<V>>)
    ensures Sorted(es) && FromEntries(es) == m
  {
    es := [];
    var todo := m.Keys;
    while todo != {}
      invariant todo <= m.Keys && Sorted(es)
      invariant FromEntries(es) == m - todo
      invariant forall i, k :: 0 <= i < |es| && k in todo ==> LexLess(es[i].key, k)
      decreases |todo|
    {
      LeastExists(todo);
      var k :| k in todo && forall j :: j in todo ==> j == k || LexLess(k, j);
      var next := es + [Entry(k, m[k])];
      assert next[..|es|] == es;
      es := next;
      todo := todo - {k};
    }
  }

  method InsertAll<V>(es: seq<Entry<V>>) returns (m: map<Text, V>)
    ensures m == FromEntries(es)
  {
    m := map[];
    for i := 0 to |es|
      invariant m == FromEntries(es[..i])
    {
      assert es[..i + 1][..i] == es[..i];
      m := m[es[i].key := es[i].row];
    }
    assert es[..|es|] == es;
  }

  /** One more incoming row. */
  lemma UnionStep<V>(pick: (V, V) -> V, a: map<Text, V>, b: map<Text, V>, k: Text, v: V)
    requires k !in b
    ensures Union(pick, a, b[k := v]) == Union(pick, a, b)[k := if k in a then pick(a[k], v) else v]
    ensures k in Union(pick, a, b) <==> k in a
    ensures k in a ==> Union(pick, a, b)[k] == a[k]
  {
  }

  lemma UnionSame<V>(pick: (V, V) -> V, a: map<Text, V>, b: map<Text, V>)
    ensures Union(pick, a, map[]) == a
  {
  }

  method MergeLwwInto<V>(into: map<Text, Reg<V>>, other: map<Text, Reg<V>>) returns (m: map<Text, Reg<V>>)
    ensures m == MergeLww(into, other)
  {
    hide Union;
    m := into;
    var todo := other.Keys;
    ghost var done: map<Text, Reg<V>> := map[];
    UnionSame(LwwPick, into, done);
    while todo != {}
      invariant todo <= other.Keys && done == other - todo
      invariant m == Union(LwwPick, into, done)
      decreases |todo|
    {
      var k :| k in todo;
      var incoming := other[k];
      UnionStep(LwwPick, into, done, k, incoming);
      if k in m && (Before(incoming.clock, m[k].clock) || m[k].clock == incoming.clock) {
        assert m[k := m[k]] == m;
      } else {
        m := m[k := incoming];
      }
      todo, done := todo - {k}, done[k := incoming];
    }
    assert done == other;
  }

  /** `merge_marks`. */
  method MergeMarksInto<V>(into: map<Text, Reg<V>>, other: map<Text, Reg<V>>) returns (m: map<Text, Reg<V>>)
    ensures m == MergeMarks(into, other)
  {
    hide Union;
    m := into;
    var todo := other.Keys;
    ghost var done: map<Text, Reg<V>> := map[];
    UnionSame(MarkPick, into, done);
    while todo != {}
      invariant todo <= other.Keys && done == other - todo
      invariant m == Union(MarkPick, into, done)
      decreases |todo|
    {
      var k :| k in todo;
      var incoming := other[k];
      UnionStep(MarkPick, into, done, k, incoming);
      assert k in m ==> m[k := m[k]] == m;
      if k in m && Before(incoming.clock, m[k].clock) {
      } else if k in m && m[k].clock == incoming.clock {
        if incoming.deleted && !m[k].deleted { m := m[k := incoming]; }
      } else {
        m := m[k := incoming];
      }
      todo, done := todo - {k}, done[k := incoming];
    }
    assert done == other;
  }

  /** `merge_devices`. */
  method MergeDevicesInto(into: map<Text, Reg<Device>>, other: map<Text, Reg<Device>>) returns (m: map<Text, Reg<Device>>)
    ensures m == MergeDevices(into, other)
  {
    hide Union, DeviceKey;
    m := into;
    var todo := other.Keys;
    ghost var done: map<Text, Reg<Device>> := map[];
    UnionSame(MarkPick, into, done);
    while todo != {}
      invariant todo <= other.Keys && done == OnlyAuthored(other) - todo
      invariant m == Union(MarkPick, into, done)
      decreases |todo|
    {
      var id :| id in todo;
      todo := todo - {id};
      var incoming := other[id];
      if !incoming.deleted && DeviceKey(incoming.clock.device) != id { continue; }
      UnionStep(MarkPick, into, done, id, incoming);
      assert id in m ==> m[id := m[id]] == m;
      if id in m && Before(incoming.clock, m[id].clock) {
      } else if id in m && m[id].clock == incoming.clock {
        if incoming.deleted && !m[id].deleted { m := m[id := incoming]; }
      } else {
        m := m[id := incoming];
      }
      done := done[id := incoming];
    }
    assert done == OnlyAuthored(other);
  }

  method MergeSeenInto(into: map<Text, Seen>, other: map<Text, Seen>) returns (m: map<Text, Seen>)
    ensures m == Union(SeenPick, into, other)
  {
    hide Union;
    m := into;
    var todo := other.Keys;
    ghost var done: map<Text, Seen> := map[];
    UnionSame(SeenPick, into, done);
    while todo != {}
      invariant todo <= other.Keys && done == other - todo
      invariant m == Union(SeenPick, into, done)
      decreases |todo|
    {
      var k :| k in todo;
      UnionStep(SeenPick, into, done, k, other[k]);
      var e := if k in m then m[k] else Seen(0, 0);
      e := e.(count := Max(e.count, other[k].count));
      e := e.(last := Max(e.last, other[k].last));
      m := m[k := e];
      todo, done := todo - {k}, done[k := other[k]];
    }
    assert done == other;
  }

  /** One register's part of `max_counter`. */
  method MaxOver<V>(regs: map<Text, Reg<V>>, so: nat) returns (m: nat)
    ensures so <= m && Bounded(ClocksOf(regs), m)
    ensures m == so || Reached(ClocksOf(regs), m)
  {
    m := so;
    var todo := regs.Keys;
    while todo != {}
      invariant todo <= regs.Keys && so <= m
      invariant forall k :: k in regs && k !in todo ==> regs[k].clock.counter <= m
      invariant m == so || Reached(ClocksOf(regs), m)
      decreases |todo|
    {
      var k :| k in todo;
      assert regs[k].clock in ClocksOf(regs);
      m := Max(m, regs[k].clock.counter);
      todo := todo - {k};
    }
  }

  /** A bound that is reached is the maximum. */
  lemma HighestUnique(clocks: set<Lamport>, n: nat)
    requires Bounded(clocks, n) && Reached(clocks, n)
    ensures n == Highest(clocks)
  {
  }

  lemma BoundedJoin(a: set<Lamport>, b: set<Lamport>, n: nat, m: nat)
    requires Bounded(a, n) && Reached(a, n) && n <= m && Bounded(b, m) && (m == n || Reached(b, m))
    ensures Bounded(a + b, m) && Reached(a + b, m)
  {
    if m == n {
      if n > 0 {
        var c :| c in a && c.counter == n;
        assert c in a + b;
      }
    } else if m > 0 {
      var c :| c in b && c.counter == m;
      assert c in a + b;
    }
  }

  // ---- the book -------------------------------------------------------------------------

  class SyncState {
    var contacts: map<Text, Reg<Text>>
    var verified: map<Text, Reg<nat>>
    var trusted: map<Text, Reg<nat>>
    var seen: map<Text, Seen>
    var names: map<Text, Reg<AdvertisedName>>
    var blocked: map<Text, Reg<nat>>
    var relays: map<Text, Reg<Text>>
    var devices: map<Text, Reg<Device>>
    var selfName: Option<SelfName>

    function Value(): State
      reads this
    {
      State(contacts, verified, trusted, seen, names, blocked, relays, devices, selfName)
    }

    constructor ()
      ensures Value() == EMPTY
    {
      contacts, verified, trusted, seen, names := map[], map[], map[], map[], map[];
      blocked, relays, devices, selfName := map[], map[], map[], None;
    }

    constructor FromSnapshot(s: Snapshot)
      ensures Value() == StateOf(s) && ReadsAs(s, Value())
    {
      SnapshotReads(s);
      hide FromEntries;
      var c := InsertAll(s.contacts);
      var v := InsertAll(s.verified);
      var t := InsertAll(s.trusted);
      var b := InsertAll(s.blocked);
      var e := InsertAll(s.seen);
      var n := InsertAll(s.names);
      var r := InsertAll(s.relays);
      var d := InsertAll(s.devices);
      contacts, verified, trusted, blocked, seen, names := c, v, t, b, e, n;
      relays, devices, selfName := r, d, s.selfName;
    }

    /** The snapshot of the book reads back as the book. */
    method ToSnapshot(lamport: nat, device: DeviceId) returns (s: Snapshot)
      ensures StateOf(s) == Value() && ReadsAs(s, Value()) && Canonical(s)
      ensures s.lamport == lamport && s.device == device
    {
      var c := ToEntries(contacts);
      var v := ToEntries(verified);
      var t := ToEntries(trusted);
      var b := ToEntries(blocked);
      var e := ToEntries(seen);
      var n := ToEntries(names);
      var r := ToEntries(relays);
      var d := ToEntries(devices);
      s := Snapshot(lamport, device, c, v, t, e, n, b, d, r, selfName);
      SnapshotReads(s);
    }

    method Merge(other: SyncState)
      requires other != this
      modifies this
      ensures Value() == Sync.Merge(old(Value()), other.Value())
    {
      hide MergeLww, MergeMarks, MergeDevices, Union;
      var c := MergeLwwInto(contacts, other.contacts);
      var v := MergeMarksInto(verified, other.verified);
      var t := MergeMarksInto(trusted, other.trusted);
      var b := MergeMarksInto(blocked, other.blocked);
      var e := MergeSeenInto(seen, other.seen);
      var n := MergeLwwInto(names, other.names);
      var r := MergeLwwInto(relays, other.relays);
      var d := MergeDevicesInto(devices, other.devices);
      contacts, verified, trusted, blocked, seen, names, relays, devices := c, v, t, b, e, n, r, d;
      if other.selfName.Some? {
        var incoming := other.selfName.value;
        if selfName.Some?
           && (Before(incoming.clock, selfName.value.clock) || selfName.value.clock == incoming.clock) {
        } else {
          selfName := Some(incoming);
        }
      }
    }

    method MaxCounter() returns (m: nat)
      ensures m == SyncClocks.MaxCounter(Value())
    {
      hide ClocksOf, SelfClock, Bounded, Reached, Highest;
      m := MaxOver(contacts, 0);
      JoinFirst(ClocksOf(contacts), m);
      ghost var so, acc := m, ClocksOf(contacts);
      m := MaxOver(verified, m);
      BoundedJoin(acc, ClocksOf(verified), so, m);
      so, acc := m, acc + ClocksOf(verified);
      m := MaxOver(trusted, m);
      BoundedJoin(acc, ClocksOf(trusted), so, m);
      so, acc := m, acc + ClocksOf(trusted);
      m := MaxOver(names, m);
      BoundedJoin(acc, ClocksOf(names), so, m);
      so, acc := m, acc + ClocksOf(names);
      m := MaxOver(blocked, m);
      BoundedJoin(acc, ClocksOf(blocked), so, m);
      so, acc := m, acc + ClocksOf(blocked);
      m := MaxOver(relays, m);
      BoundedJoin(acc, ClocksOf(relays), so, m);
      so, acc := m, acc + ClocksOf(relays);
      m := MaxOver(devices, m);
      BoundedJoin(acc, ClocksOf(devices), so, m);
      so, acc := m, acc + ClocksOf(devices);
      if selfName.Some? { m := Max(m, selfName.value.clock.counter); }
      JoinSelf(acc, selfName, so, m);
      HighestUnique(Clocks(Value()), m);
    }
  }

  lemma JoinFirst(a: set<Lamport>, m: nat)
    requires Bounded(a, m) && (m == 0 || Reached(a, m))
    ensures Bounded(a, m) && Reached(a, m)
  {
  }

  lemma JoinSelf(acc: set<Lamport>, n: Option<SelfName>, so: nat, m: nat)
    requires Bounded(acc, so) && Reached(acc, so)
    requires m == if n.Some? then Max(so, n.value.clock.counter) else so
    ensures Bounded(acc + SelfClock(n), m) && Reached(acc + SelfClock(n), m)
  {
    assert n.Some? ==> n.value.clock in SelfClock(n);
    BoundedJoin(acc, SelfClock(n), so, m);
  }
}
