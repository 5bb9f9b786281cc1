/** The clocks inside an address book: their maximum, whose they are, and what a merge
    does to them (core/src/sync.rs, `max_counter`, `authored_by_another_device`). */
module SyncClocks {
  import opened Bytes
  import opened Sync

  ghost function ClocksOf<V>(m: map<Text, Reg<V>>): set<Lamport> {
    set k | k in m :: m[k].clock
  }

  ghost function SelfClock(n: Option<SelfName>): set<Lamport> {
    if n.Some? then {n.value.clock} else {}
  }

  ghost function Clocks(s: State): set<Lamport> {
    ClocksOf(s.contacts) + ClocksOf(s.verified) + ClocksOf(s.trusted) + ClocksOf(s.names)
    + ClocksOf(s.blocked) + ClocksOf(s.relays) + ClocksOf(s.devices) + SelfClock(s.selfName)
  }

  /** Some register of the book was written under `c`. */
  ghost predicate HasClock(s: State, c: Lamport) {
    || c in ClocksOf(s.contacts) || c in ClocksOf(s.verified) || c in ClocksOf(s.trusted) || c in ClocksOf(s.names)
    || c in ClocksOf(s.blocked) || c in ClocksOf(s.relays) || c in ClocksOf(s.devices) || c in SelfClock(s.selfName)
  }

  lemma InClocks(s: State, c: Lamport)
    ensures c in Clocks(s) <==> HasClock(s, c)
  {
    hide ClocksOf, SelfClock;
  }

  ghost predicate Bounded(clocks: set<Lamport>, n: nat) {
    forall c :: c in clocks ==> c.counter <= n
  }

  ghost predicate Reached(clocks: set<Lamport>, n: nat) {
    n == 0 || exists c :: c in clocks && c.counter == n
  }

  ghost function Highest(clocks: set<Lamport>): (n: nat)
    ensures Bounded(clocks, n) && Reached(clocks, n)
  {
    if clocks == {} then 0
    else
      var c :| c in clocks;
      var rest := Highest(clocks - {c});
      assert forall d :: d in clocks && d != c ==> d in clocks - {c};
      Max(c.counter, rest)
  }

  /** `max_counter`: the highest counter of any register. */
  ghost function MaxCounter(s: State): nat {
    Highest(Clocks(s))
  }

  /** `b` without the device rows a merge would refuse. */
  function Vouched(b: State): State {
    b.(devices := OnlyAuthored(b.devices))
  }

  /** Each side's highest clock is still there, or a higher one is. */
  ghost predicate Covered(a: set<Lamport>, m: set<Lamport>) {
    forall c :: c in a ==> exists d :: d in m && c.counter <= d.counter
  }

  lemma LwwClocks<V>(a: map<Text, Reg<V>>, b: map<Text, Reg<V>>)
    ensures ClocksOf(MergeLww(a, b)) <= ClocksOf(a) + ClocksOf(b)
    ensures Covered(ClocksOf(a), ClocksOf(MergeLww(a, b))) && Covered(ClocksOf(b), ClocksOf(MergeLww(a, b)))
  {
    var m := MergeLww(a, b);
    forall k | k in a ensures k in m && m[k].clock in ClocksOf(m) && a[k].clock.counter <= m[k].clock.counter {
      if k in b { ClockTotal(a[k].clock, b[k].clock); }
    }
    forall k | k in b ensures k in m && m[k].clock in ClocksOf(m) && b[k].clock.counter <= m[k].clock.counter {
      if k in a { ClockTotal(a[k].clock, b[k].clock); }
    }
  }

  lemma MarksClocks<V>(a: map<Text, Reg<V>>, b: map<Text, Reg<V>>)
    ensures ClocksOf(MergeMarks(a, b)) <= ClocksOf(a) + ClocksOf(b)
    ensures Covered(ClocksOf(a), ClocksOf(MergeMarks(a, b))) && Covered(ClocksOf(b), ClocksOf(MergeMarks(a, b)))
  {
    var m := MergeMarks(a, b);
    forall k | k in a ensures k in m && m[k].clock in ClocksOf(m) && a[k].clock.counter <= m[k].clock.counter {
      if k in b { ClockTotal(a[k].clock, b[k].clock); }
    }
    forall k | k in b ensures k in m && m[k].clock in ClocksOf(m) && b[k].clock.counter <= m[k].clock.counter {
      if k in a { ClockTotal(a[k].clock, b[k].clock); }
    }
  }

  lemma SelfClocks(a: Option<SelfName>, b: Option<SelfName>)
    ensures SelfClock(MergeSelf(a, b)) <= SelfClock(a) + SelfClock(b)
    ensures Covered(SelfClock(a), SelfClock(MergeSelf(a, b))) && Covered(SelfClock(b), SelfClock(MergeSelf(a, b)))
  {
    if a.Some? && b.Some? {
      ClockTotal(a.value.clock, b.value.clock);
      assert MergeSelf(a, b).value.clock in SelfClock(MergeSelf(a, b));
    } else {
      assert a.Some? ==> a.value.clock in SelfClock(MergeSelf(a, b));
      assert b.Some? ==> b.value.clock in SelfClock(MergeSelf(a, b));
    }
  }

  lemma CoveredSum(a: set<Lamport>, b: set<Lamport>, m: set<Lamport>, n: set<Lamport>)
    requires Covered(a, m) && Covered(b, n)
    ensures Covered(a + b, m + n)
  {
    forall c | c in a + b ensures exists d :: d in m + n && c.counter <= d.counter {
      if c in a {
        var d :| d in m && c.counter <= d.counter;
        assert d in m + n;
      } else {
        var d :| d in n && c.counter <= d.counter;
        assert d in m + n;
      }
    }
  }

  lemma CoveredAll(a: State, b: State)
    requires Covered(ClocksOf(a.contacts), ClocksOf(b.contacts)) && Covered(ClocksOf(a.verified), ClocksOf(b.verified))
    requires Covered(ClocksOf(a.trusted), ClocksOf(b.trusted)) && Covered(ClocksOf(a.names), ClocksOf(b.names))
    requires Covered(ClocksOf(a.blocked), ClocksOf(b.blocked)) && Covered(ClocksOf(a.relays), ClocksOf(b.relays))
    requires Covered(ClocksOf(a.devices), ClocksOf(b.devices)) && Covered(SelfClock(a.selfName), SelfClock(b.selfName))
    ensures Covered(Clocks(a), Clocks(b))
  {
    hide Covered, ClocksOf, SelfClock;
    var x, y := ClocksOf(a.contacts), ClocksOf(b.contacts);
    CoveredSum(x, ClocksOf(a.verified), y, ClocksOf(b.verified));
    x, y := x + ClocksOf(a.verified), y + ClocksOf(b.verified);
    CoveredSum(x, ClocksOf(a.trusted), y, ClocksOf(b.trusted));
    x, y := x + ClocksOf(a.trusted), y + ClocksOf(b.trusted);
    CoveredSum(x, ClocksOf(a.names), y, ClocksOf(b.names));
    x, y := x + ClocksOf(a.names), y + ClocksOf(b.names);
    CoveredSum(x, ClocksOf(a.blocked), y, ClocksOf(b.blocked));
    x, y := x + ClocksOf(a.blocked), y + ClocksOf(b.blocked);
    CoveredSum(x, ClocksOf(a.relays), y, ClocksOf(b.relays));
    x, y := x + ClocksOf(a.relays), y + ClocksOf(b.relays);
    CoveredSum(x, ClocksOf(a.devices), y, ClocksOf(b.devices));
    CoveredSum(x + ClocksOf(a.devices), SelfClock(a.selfName), y + ClocksOf(b.devices), SelfClock(b.selfName));
  }

  /** A merge invents no clock and loses none but to a later one. */
  lemma MergeClocks(a: State, b: State)
    ensures Clocks(Merge(a, b)) <= Clocks(a) + Clocks(Vouched(b))
    ensures Covered(Clocks(a), Clocks(Merge(a, b))) && Covered(Clocks(Vouched(b)), Clocks(Merge(a, b)))
  {
    hide MergeLww, MergeMarks, MergeSelf, ClocksOf, SelfClock, OnlyAuthored, Covered;
    LwwClocks(a.contacts, b.contacts);
    MarksClocks(a.verified, b.verified);
    MarksClocks(a.trusted, b.trusted);
    LwwClocks(a.names, b.names);
    MarksClocks(a.blocked, b.blocked);
    LwwClocks(a.relays, b.relays);
    MarksClocks(a.devices, OnlyAuthored(b.devices));
    SelfClocks(a.selfName, b.selfName);
    CoveredAll(a, Merge(a, b));
    CoveredAll(Vouched(b), Merge(a, b));
  }

  /** The counter of a merge is the higher of the two sides', once rows nobody may
      write for another are left out. */
  lemma MaxCounterOfMerge(a: State, b: State)
    ensures MaxCounter(Merge(a, b)) == Max(MaxCounter(a), MaxCounter(Vouched(b)))
    ensures WellFormed(b) ==> MaxCounter(Merge(a, b)) == Max(MaxCounter(a), MaxCounter(b))
  {
    hide Merge, Clocks, OnlyAuthored, Highest;
    MergeClocks(a, b);
    if WellFormed(b) { VouchedWellFormed(b); }
  }

  lemma VouchedWellFormed(b: State)
    requires WellFormed(b)
    ensures Vouched(b) == b
  {
    assert OnlyAuthored(b.devices) == b.devices;
  }

  // ---- whose clocks ---------------------------------------------------------------

  /** What `authored_by_another_device` looks at: everything but the relays. */
  ghost function WitnessClocks(s: State): set<Lamport> {
    ClocksOf(s.contacts) + ClocksOf(s.names) + ClocksOf(s.verified) + ClocksOf(s.trusted)
    + ClocksOf(s.blocked) + ClocksOf(s.devices) + SelfClock(s.selfName)
  }

  ghost predicate AuthoredByAnother(s: State, mine: DeviceId) {
    exists c :: c in WitnessClocks(s) && c.device != mine
  }

  /** It answers exactly for the book without its relays. */
  lemma WitnessIgnoresRelays(s: State, mine: DeviceId)
    ensures AuthoredByAnother(s, mine) <==>
      exists c :: c in Clocks(s.(relays := map[])) && c.device != mine
    ensures AuthoredByAnother(s, mine) ==> exists c :: c in Clocks(s) && c.device != mine
  {
    var t := s.(relays := map[]);
    assert ClocksOf(t.relays) == {};
    hide ClocksOf, SelfClock;
    forall c ensures c in WitnessClocks(s) <==> c in Clocks(t) { InClocks(t, c); }
    forall c | c in WitnessClocks(s) ensures c in Clocks(s) { InClocks(s, c); }
    hide WitnessClocks, Clocks;
  }

  /** So a relay another device set goes unnoticed. */
  lemma RelayGoesUnnoticed(mine: DeviceId, other: DeviceId, pubkey: Text, relay: Text)
    requires other != mine
    ensures var s := EMPTY.(relays := map[pubkey := Reg(relay, Lamport(1, other), false)]);
      Lamport(1, other) in Clocks(s) && !AuthoredByAnother(s, mine)
  {
    var s := EMPTY.(relays := map[pubkey := Reg(relay, Lamport(1, other), false)]);
    assert s.relays[pubkey].clock in ClocksOf(s.relays);
    assert WitnessClocks(s) == {};
  }
}
