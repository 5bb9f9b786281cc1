/** Which receiver has which chunk (core/src/chunked.rs, `CtrlHandler::accept`,
    `delivered_count`, `completed_peers`). */
module Delivery {
  import opened Bytes

  type Peer = nat

  /** What comes in on one receiver's control channel, in the order it is handled among
      everybody's. */
  datatype Message =
    | Have(index: nat)    // a wire value: any `u32`
    | KeepAlive
    | Abort
    | Leave               // closed, or silent for too long

  datatype Event = Event(peer: Peer, message: Message)

  // ---- what was really acked --------------------------------------------------------

  predicate Acked(events: seq<Event>, peer: Peer, i: nat) {
    Event(peer, Have(i)) in events
  }

  /** The chunks of the transfer this receiver has said it holds. */
  function AckedBy(total: nat, events: seq<Event>, peer: Peer): set<nat> {
    set i: nat | i < total && Acked(events, peer, i)
  }

  function Missing(got: set<nat>, below: nat): seq<nat> {
    if below == 0 then []
    else Missing(got, below - 1) + if below - 1 in got then [] else [below - 1]
  }

  /** The tail is in order and is exactly what the receiver lacks. */
  lemma {:induction false} MissingIsComplement(got: set<nat>, below: nat)
    ensures forall i: nat :: i in Missing(got, below) <==> i < below && i !in got
    ensures forall j, k :: 0 <= j < k < |Missing(got, below)| ==> Missing(got, below)[j] < Missing(got, below)[k]
  {
    if below > 0 {
      MissingIsComplement(got, below - 1);
      var front := Missing(got, below - 1);
      assert forall k :: 0 <= k < |front| ==> front[k] in front;
    }
  }

  /** Every chunk of the transfer. */
  function Below(total: nat): (all: set<nat>)
    ensures forall i: nat :: i in all <==> i < total
  {
    if total == 0 then {} else Below(total - 1) + {total - 1}
  }

  lemma {:induction false} BelowSize(total: nat)
    ensures |Below(total)| == total
  {
    if total > 0 {
      BelowSize(total - 1);
    }
  }

  /** So many chunks in range can only be all of them. */
  lemma FullIsAll(total: nat, got: set<nat>)
    requires got <= Below(total)
    ensures |got| <= total
    ensures |got| >= total <==> got == Below(total)
  {
    BelowSize(total);
    SubsetSize(got, Below(total));
    if got != Below(total) {
      var x :| x in Below(total) && x !in got;
      SubsetSize(got + {x}, Below(total));
    }
  }

  lemma {:induction false} SubsetSize(a: set<nat>, b: set<nat>)
    requires a <= b
    ensures |a| <= |b|
  {
    if a != {} {
      var x :| x in a;
      SubsetSize(a - {x}, b - {x});
    }
  }

  // ---- the shared record ---------------------------------------------------------------

  class Deliveries {
    const total: nat
    var delivered: map<Peer, set<nat>>
    ghost var events: seq<Event>

    /** The record says of each receiver what that receiver said of itself. */
    ghost predicate Valid()
      reads this
    {
      && (forall p :: p in delivered ==> delivered[p] == AckedBy(total, events, p) && delivered[p] != {})
      && (forall p :: p !in delivered ==> AckedBy(total, events, p) == {})
    }

    constructor (total: nat)
      ensures Valid() && this.total == total && events == [] && delivered == map[]
    {
      this.total, delivered, events := total, map[], [];
    }

    /** One turn of the loop in `accept`: an ack for a chunk there is, is recorded; a
        departure reports what this receiver still lacks. */
    method Handle(e: Event) returns (tail: Option<seq<nat>>)
      requires Valid()
      modifies this
      ensures Valid() && events == old(events) + [e]
      ensures tail.Some? <==> e.message.Leave?
      ensures tail.Some? ==> tail.value == Missing(AckedBy(total, events, e.peer), total)
    {
      ghost var was := events;
      events := events + [e];
      match e.message {
        case Have(index) =>
          if index < total {
            var mine := if e.peer in delivered then delivered[e.peer] else {};
            delivered := delivered[e.peer := mine + {index}];
          }
          AckStep(total, was, e);
          return None;
        case Leave =>
          AckStep(total, was, e);
          var mine := if e.peer in delivered then delivered[e.peer] else {};
          var undelivered: seq<nat> := [];
          for i := 0 to total
            invariant undelivered == Missing(mine, i)
          {
            if i !in mine { undelivered := undelivered + [i]; }
          }
          return Some(undelivered);
        case _ =>
          AckStep(total, was, e);
          return None;
      }
    }

    /** `delivered_count`: what the best-served receiver has. */
    method DeliveredCount() returns (n: nat)
      requires Valid()
      ensures forall p :: |AckedBy(total, events, p)| <= n <= total
      ensures n == 0 || exists p :: p in delivered && |AckedBy(total, events, p)| == n
    {
      n := 0;
      var todo := delivered.Keys;
      while todo != {}
        invariant todo <= delivered.Keys && n <= total
        invariant forall p :: p in delivered && p !in todo ==> |delivered[p]| <= n
        invariant n == 0 || exists p :: p in delivered && |delivered[p]| == n
        decreases |todo|
      {
        var p :| p in todo;
        FullIsAll(total, delivered[p]);
        n := Max(n, |delivered[p]|);
        todo := todo - {p};
      }
    }

    /** `completed_peers`: exactly the receivers holding every chunk, and none for a
        payload of no chunks. */
    method CompletedPeers() returns (peers: set<Peer>)
      requires Valid()
      ensures forall p :: p in peers <==> total > 0 && AckedBy(total, events, p) == Below(total)
    {
      if total == 0 { return {}; }
      peers := {};
      assert 0 in Below(total);
      var todo := delivered.Keys;
      while todo != {}
        invariant todo <= delivered.Keys
        invariant forall p :: p in peers <==> p in delivered && p !in todo && delivered[p] == Below(total)
        decreases |todo|
      {
        var p :| p in todo;
        FullIsAll(total, delivered[p]);
        if |delivered[p]| >= total { peers := peers + {p}; }
        todo := todo - {p};
      }
    }
  }

  function NewAck(total: nat, e: Event, p: Peer): set<nat> {
    if p == e.peer && e.message.Have? && e.message.index < total then {e.message.index} else {}
  }

  /** One more message adds at most its own ack, to its own sender. */
  lemma AckStep(total: nat, events: seq<Event>, e: Event)
    ensures forall p :: AckedBy(total, events + [e], p) == AckedBy(total, events, p) + NewAck(total, e, p)
  {
  }

  /** The tails a run of events calls for: at each departure, in order, what that
      receiver then lacked. */
  function Tails(total: nat, events: seq<Event>): seq<(Peer, seq<nat>)> {
    if |events| == 0 then []
    else
      var last := events[|events| - 1];
      Tails(total, events[..|events| - 1])
      + if last.message.Leave? then [(last.peer, Missing(AckedBy(total, events, last.peer), total))] else []
  }

  /** The positions among the first `k` events at which a receiver left. */
  function Departures(events: seq<Event>, k: nat): set<nat>
    requires k <= |events|
  {
    set i: nat | i < k && events[i].message.Leave?
  }

  /** A tail is reported at its place for the departure at `k`: what that receiver lacks of
      what it had said by then. */
  ghost predicate Reports(total: nat, events: seq<Event>, k: nat, tails: seq<(Peer, seq<nat>)>)
    requires k < |events|
  {
    var at := |Departures(events, k)|;
    && at < |tails| && tails[at].0 == events[k].peer
    && (forall j: nat :: j in tails[at].1 <==> j < total && j !in AckedBy(total, events[..k + 1], events[k].peer))
  }

  lemma ReportStands(total: nat, events: seq<Event>, k: nat, tails: seq<(Peer, seq<nat>)>, e: Event, more: seq<(Peer, seq<nat>)>)
    requires k < |events| && Reports(total, events, k, tails)
    ensures Reports(total, events + [e], k, tails + more)
  {
    assert Departures(events + [e], k) == Departures(events, k);
    assert (events + [e])[..k + 1] == events[..k + 1];
  }

  lemma LastReport(total: nat, events: seq<Event>, e: Event, tails: seq<(Peer, seq<nat>)>)
    requires e.message.Leave? && |tails| == |Departures(events, |events|)|
    ensures Reports(total, events + [e], |events|, tails + [(e.peer, Missing(AckedBy(total, events + [e], e.peer), total))])
  {
    assert Departures(events + [e], |events|) == Departures(events, |events|);
    assert (events + [e])[..|events| + 1] == events + [e];
    MissingIsComplement(AckedBy(total, events + [e], e.peer), total);
  }

  lemma DeparturesStep(events: seq<Event>, e: Event)
    ensures |Departures(events + [e], |events| + 1)|
            == |Departures(events, |events|)| + if e.message.Leave? then 1 else 0
  {
    assert Departures(events + [e], |events| + 1)
           == Departures(events, |events|) + if e.message.Leave? then {|events|} else {};
  }

  /** One tail for each departure, in order, and nothing of a receiver that aborts. */
  lemma {:induction false} TailPerDeparture(total: nat, events: seq<Event>)
    ensures |Tails(total, events)| == |Departures(events, |events|)|
    ensures forall k :: 0 <= k < |events| && events[k].message.Leave? ==> Reports(total, events, k, Tails(total, events))
  {
    if |events| == 0 { return; }
    hide Reports, Departures, Missing;
    var front, e := events[..|events| - 1], events[|events| - 1];
    assert events == front + [e];
    TailPerDeparture(total, front);
    DeparturesStep(front, e);
    forall k | 0 <= k < |events| && events[k].message.Leave?
      ensures Reports(total, events, k, Tails(total, events))
    {
      if k < |front| {
        ReportStands(total, front, k, Tails(total, front), e, Tails(total, events)[|Tails(total, front)|..]);
        assert Tails(total, events) == Tails(total, front) + Tails(total, events)[|Tails(total, front)|..];
      } else {
        LastReport(total, front, e, Tails(total, front));
      }
    }
  }

  /** Any run of the record, from nothing: every departure is reported once, in order,
      with its own tail. */
  method Serve(total: nat, script: seq<Event>) returns (d: Deliveries, tails: seq<(Peer, seq<nat>)>)
    ensures d.Valid() && fresh(d) && d.total == total && d.events == script
    ensures tails == Tails(total, script)
  {
    d := new Deliveries(total);
    tails := [];
    for k := 0 to |script|
      invariant d.Valid() && fresh(d) && d.total == total && d.events == script[..k]
      invariant tails == Tails(total, script[..k])
    {
      assert script[..k + 1] == script[..k] + [script[k]];
      assert script[..k + 1][..k] == script[..k];
      var tail := d.Handle(script[k]);
      if tail.Some? { tails := tails + [(script[k].peer, tail.value)]; }
    }
    assert script[..|script|] == script;
  }
}
