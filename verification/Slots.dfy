/** Rotating slots (core/src/presence.rs): which ones a reader looks in, and why a live
    row or beacon is always in one of them. */
module Slots {
  import opened Bytes

  const INBOX_EPOCH_SECS: nat := 7 * 24 * 3600
  const PRESENCE_EPOCH_SECS: nat := 3600
  const PRESENCE_GRACE_SECS: nat := 120

  type Slot = seq<byte>

  /** `saturating_sub(1)`. */
  function Before(epoch: nat): nat {
    if epoch == 0 then 0 else epoch - 1
  }

  ghost predicate Distinct(slots: seq<Slot>) {
    forall i, j :: 0 <= i < j < |slots| ==> slots[i] != slots[j]
  }

  // ---- the inbox -----------------------------------------------------------------

  /** The slots that can still hold a live row, current first; `at` is the identity's
      slot of an epoch. */
  method InboxSlotsAt(at: nat -> Slot, unix: nat) returns (out: seq<Slot>)
    ensures out == InboxWindow(at, unix)
  {
    var epoch := unix / INBOX_EPOCH_SECS;
    out := [];
    for n := 0 to 2
      invariant n == 1 ==> out == [at(epoch)]
      invariant n == 0 ==> out == []
      invariant n == 2 ==> out == InboxWindow(at, unix)
    {
      var s := at(if epoch >= n then epoch - n else 0);
      if s !in out { out := out + [s]; }
    }
  }

  function InboxWindow(at: nat -> Slot, unix: nat): seq<Slot> {
    var epoch := unix / INBOX_EPOCH_SECS;
    if at(Before(epoch)) == at(epoch) then [at(epoch)] else [at(epoch), at(Before(epoch))]
  }

  /** `clamp_inbox_ttl`, and the relay's own default when none is asked for. */
  function Lifetime(ttl: Option<nat>, relayDefault: nat): nat {
    if ttl.Some? then Min(ttl.value, INBOX_EPOCH_SECS) else relayDefault
  }

  /** A life of at most an epoch is granted as asked for, and a longer one for an epoch. */
  lemma LifetimeIs(ttl: Option<nat>, relayDefault: nat)
    ensures ttl.Some? && ttl.value <= INBOX_EPOCH_SECS ==> Lifetime(ttl, relayDefault) == ttl.value
    ensures ttl.Some? && ttl.value > INBOX_EPOCH_SECS ==> Lifetime(ttl, relayDefault) == INBOX_EPOCH_SECS
    ensures ttl.None? ==> Lifetime(ttl, relayDefault) == relayDefault
  {
  }

  /** The current slot comes first, and after it at most the one before. */
  lemma CurrentComesFirst(at: nat -> Slot, unix: nat)
    ensures var w := InboxWindow(at, unix);
      && 1 <= |w| <= 2 && w[0] == at(unix / INBOX_EPOCH_SECS)
      && (|w| == 2 ==> unix >= INBOX_EPOCH_SECS && w[1] == at((unix - INBOX_EPOCH_SECS) / INBOX_EPOCH_SECS))
  {
  }

  /** A row is findable as long as it lives. */
  lemma LiveRowIsInWindow(at: nat -> Slot, posted: nat, ttl: Option<nat>, relayDefault: nat, now: nat)
    requires relayDefault <= INBOX_EPOCH_SECS
    requires posted <= now <= posted + Lifetime(ttl, relayDefault)
    ensures at(posted / INBOX_EPOCH_SECS) in InboxWindow(at, now)
    ensures Distinct(InboxWindow(at, now))
  {
    var e, p := now / INBOX_EPOCH_SECS, posted / INBOX_EPOCH_SECS;
    assert p <= e <= p + 1;
  }

  ghost predicate NoRepeats(at: nat -> Slot) {
    forall a: nat, b: nat :: at(a) == at(b) ==> a == b
  }

  /** And that is as long as one may live: when slots do not repeat, one more epoch after
      its own is the last in which it is looked for. */
  lemma WindowIsExact(at: nat -> Slot, posted: nat, now: nat)
    requires NoRepeats(at) && posted <= now
    ensures at(posted / INBOX_EPOCH_SECS) in InboxWindow(at, now)
       <==> now / INBOX_EPOCH_SECS <= posted / INBOX_EPOCH_SECS + 1
  {
    DivMono(posted, now, INBOX_EPOCH_SECS);
  }

  /** Without the clamp, a row with a longer life would be lost in the end of it. */
  lemma LongerLivesAreLost(at: nat -> Slot, life: nat)
    requires NoRepeats(at) && life > INBOX_EPOCH_SECS
    ensures exists posted: nat, now: nat ::
      posted <= now <= posted + life && at(posted / INBOX_EPOCH_SECS) !in InboxWindow(at, now)
  {
    var posted, now := INBOX_EPOCH_SECS - 1, 2 * INBOX_EPOCH_SECS;
    WindowIsExact(at, posted, now);
    assert at(posted / INBOX_EPOCH_SECS) !in InboxWindow(at, now);
  }

  // ---- presence ------------------------------------------------------------------------

  /** The slots asked at `unix`: this epoch's, and a neighbour's near a boundary. */
  function PresenceWindow(at: nat -> Slot, unix: nat): seq<Slot> {
    var epoch := unix / PRESENCE_EPOCH_SECS;
    var into := unix % PRESENCE_EPOCH_SECS;
    var here := at(epoch);
    if into < PRESENCE_GRACE_SECS then Deduped(here, at(Before(epoch)))
    else if PRESENCE_EPOCH_SECS - into <= PRESENCE_GRACE_SECS then Deduped(here, at(epoch + 1))
    else [here]
  }

  function Deduped(a: Slot, b: Slot): seq<Slot> {
    if a == b then [a] else [a, b]
  }

  /** Clocks no more than the grace apart agree on a slot, and none is asked twice. */
  lemma BeaconIsAsked(at: nat -> Slot, asker: nat, publisher: nat)
    requires asker <= publisher + PRESENCE_GRACE_SECS && publisher <= asker + PRESENCE_GRACE_SECS
    ensures at(publisher / PRESENCE_EPOCH_SECS) in PresenceWindow(at, asker)
    ensures Distinct(PresenceWindow(at, asker)) && |PresenceWindow(at, asker)| <= 2
  {
  }

  /** This slot is the one of some clock within the grace of the asker's. */
  ghost predicate WithinGrace(at: nat -> Slot, asker: nat, s: Slot) {
    exists t: nat :: at(t / PRESENCE_EPOCH_SECS) == s && t <= asker + PRESENCE_GRACE_SECS && asker <= t + PRESENCE_GRACE_SECS
  }

  /** And nothing else is asked, the asker's own slot first. */
  lemma AskedIsWithinGrace(at: nat -> Slot, asker: nat, s: Slot)
    ensures s in PresenceWindow(at, asker) <==> WithinGrace(at, asker, s)
    ensures PresenceWindow(at, asker)[0] == at(asker / PRESENCE_EPOCH_SECS)
  {
    var into := asker % PRESENCE_EPOCH_SECS;
    if s in PresenceWindow(at, asker) {
      var t := if s == at(asker / PRESENCE_EPOCH_SECS) then asker
               else if into < PRESENCE_GRACE_SECS then asker - PRESENCE_GRACE_SECS
               else asker + PRESENCE_GRACE_SECS;
      assert at(t / PRESENCE_EPOCH_SECS) == s;
    }
    if WithinGrace(at, asker, s) {
      var t: nat :| at(t / PRESENCE_EPOCH_SECS) == s && t <= asker + PRESENCE_GRACE_SECS && asker <= t + PRESENCE_GRACE_SECS;
      BeaconIsAsked(at, asker, t);
    }
  }

  /** The publisher's slot is not among those the asker asks. */
  predicate Missed(at: nat -> Slot, asker: nat, publisher: nat) {
    at(publisher / PRESENCE_EPOCH_SECS) !in PresenceWindow(at, asker)
  }

  /** The grace is exact: with any more skew than that, either way, a beacon can be
      missed. */
  lemma GraceIsTight(at: nat -> Slot, skew: nat)
    requires NoRepeats(at) && PRESENCE_GRACE_SECS < skew
    ensures exists asker: nat, publisher: nat :: Missed(at, asker, publisher) && asker == publisher + skew
    ensures exists asker: nat, publisher: nat :: Missed(at, asker, publisher) && publisher == asker + skew
  {
    var k := skew / PRESENCE_EPOCH_SECS + 1;
    var late := k * PRESENCE_EPOCH_SECS + PRESENCE_GRACE_SECS;
    assert late / PRESENCE_EPOCH_SECS == k && late % PRESENCE_EPOCH_SECS == PRESENCE_GRACE_SECS;
    assert late >= skew && (late - skew) / PRESENCE_EPOCH_SECS < k;
    assert Missed(at, late, late - skew);
    var early := PRESENCE_EPOCH_SECS - PRESENCE_GRACE_SECS - 1;
    assert early / PRESENCE_EPOCH_SECS == 0 && (early + skew) / PRESENCE_EPOCH_SECS > 0;
    assert Missed(at, early, early + skew);
  }
}
