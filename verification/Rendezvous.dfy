/** Rendezvous v2 (core/src/code.rs): a host that survives restarts serves any number
    of receivers over a relay that may delay, drop, swap, replay and make up rows.
    PAKE, KDF, MAC and AEAD are ideal; everything else is as the two sides do it. */
module Rendezvous {
  import opened Bytes

  type Text = seq<byte>

  /** One PAKE run's secret exponent. */
  type Scalar = nat

  // ---- ideal cryptography ----------------------------------------------------------

  /** What a PAKE run ends with. Two runs of one code that got each other's message
      share a key; any other run is left with a key nobody else has. */
  datatype PakeKey =
    | Shared(secret: Text, scalars: set<Scalar>)
    | Alone(secret: Text, scalar: Scalar)

  /** What a derived key is for: the contexts of `ticket_key32`, `reply_key32` and
      `extras_key32`. */
  datatype Context = Ticket | Reply | Extras

  datatype Value =
    | Pake(secret: Text, scalar: Scalar)
    | Mac(key: PakeKey, slot: Text, sid: Text)
    | Sealed(ctx: Context, key: PakeKey, slot: Text, sid: Text, body: seq<byte>)
    | Noise(bytes: seq<byte>)

  /** `Pairing::finish`: symmetric, so even one's own message gives a key. */
  function Finish(secret: Text, scalar: Scalar, peer: Value): PakeKey {
    if peer.Pake? && peer.secret == secret then Shared(secret, {scalar, peer.scalar}) else Alone(secret, scalar)
  }

  /** `open_chunk` under a derived key. */
  function Open(ctx: Context, key: PakeKey, slot: Text, sid: Text, ct: Value): Option<seq<byte>> {
    if ct.Sealed? && ct == Sealed(ctx, key, slot, sid, ct.body) then Some(ct.body) else None
  }

  // ---- the two sides ------------------------------------------------------------------

  /** What the sender of a code keeps across restarts, and its payload. */
  datatype Config = Config(slot: Text, secret: Text, payload: seq<byte>, awaitReply: bool)

  datatype HostStage = AwaitConfirm | AwaitReply | AwaitExtras(reply: Option<seq<byte>>)

  /** One receiver being answered. */
  datatype Session = Session(sid: Text, scalar: Scalar, key: PakeKey, stage: HostStage)

  datatype Event =
    | Paired(sid: Text, key: PakeKey, reply: Option<seq<byte>>, extras: Option<seq<byte>>)
    | BadCode(sid: Text)
    | Rejected(sid: Text)

  datatype Stage = AwaitSender | AwaitTicket | SendReply | SendExtras | Returned | Stopped

  /** One call of `resolve_v2`. */
  datatype Receiver = Receiver(
    slot: Text, secret: Text, sid: Text, reply: Option<seq<byte>>, extras: Option<seq<byte>>,
    scalar: Scalar, key: Option<PakeKey>, payload: Option<seq<byte>>, stage: Stage)

  datatype World = World(
    config: Config,
    emitted: set<Value>,         // in memory: lost on a restart
    current: Option<Session>,    // in memory too
    events: seq<Event>,
    handed: set<(Text, PakeKey)>, // the sessions, and their keys, the payload was sealed for
    receivers: seq<Receiver>,
    posted: set<Value>,          // every value anyone has put on the relay
    used: set<Scalar>,
    hosted: set<Scalar>)         // the scalars the host has drawn

  function Start(config: Config): World {
    World(config, {}, None, [], {}, [], {}, {}, {})
  }

  // ---- what the relay may hand out --------------------------------------------------------

  /** What whoever runs the relay can make itself, knowing everything but the code:
      PAKE runs of other codes, and anything under a key that came of one. */
  predicate Makeable(c: Config, v: Value) {
    match v
    case Pake(secret, _) => secret != c.secret
    case Mac(key, _, _) => key.secret != c.secret
    case Sealed(_, key, _, _, _) => key.secret != c.secret
    case Noise(_) => true
  }

  /** Any row may come back holding anything ever posted anywhere, or anything the
      relay can make. */
  predicate Deliverable(w: World, v: Value) {
    v in w.posted || Makeable(w.config, v)
  }

  // ---- steps ----------------------------------------------------------------------------

  datatype Action =
    | Arrive(slot: Text, secret: Text, sid: Text, reply: Option<seq<byte>>, extras: Option<seq<byte>>, scalar: Scalar)
    | TakeSender(i: nat, ms: Value)
    | TakeTicket(i: nat, ct: Value)
    | PostReply(i: nat)
    | PostExtras(i: nat)
    | Stop(i: nat)                                      // a timeout, an error, a crash
    | Answer(sid: Text, mr: Value, scalar: Scalar)      // the host draws a fresh run
    | CheckConfirm(got: Value)
    | ReadReply(row: Option<Value>)
    | ReadExtras(extra: Option<Value>)
    | Abandon                                           // the receiver never confirmed
    | Fail                                              // a transport or PAKE error
    | Restart

  predicate At(w: World, i: nat, stage: Stage) {
    i < |w.receivers| && w.receivers[i].stage == stage
  }

  predicate Hosting(w: World, stage: HostStage) {
    w.current.Some? && w.current.value.stage == stage
  }

  predicate Readable(w: World, row: Option<Value>) {
    row.Some? ==> w.config.awaitReply && Deliverable(w, row.value)
  }

  predicate Enabled(w: World, a: Action) {
    match a
    case Arrive(_, _, _, _, _, scalar) => scalar !in w.used
    case TakeSender(i, ms) => At(w, i, AwaitSender) && Deliverable(w, ms)
    case TakeTicket(i, ct) => At(w, i, AwaitTicket) && Deliverable(w, ct)
    case PostReply(i) => At(w, i, SendReply)
    case PostExtras(i) => At(w, i, SendExtras)
    case Stop(i) => i < |w.receivers|
    case Answer(_, mr, scalar) => w.current.None? && scalar !in w.used && Deliverable(w, mr)
    case CheckConfirm(got) => Hosting(w, AwaitConfirm) && Deliverable(w, got)
    case ReadReply(row) => Hosting(w, AwaitReply) && Readable(w, row)
    case ReadExtras(extra) => w.current.Some? && w.current.value.stage.AwaitExtras? && Readable(w, extra)
    case Abandon => Hosting(w, AwaitConfirm)
    case Fail => w.current.Some?
    case Restart => true
  }

  function Update(w: World, i: nat, r: Receiver, posts: set<Value>): World
    requires i < |w.receivers|
  {
    w.(receivers := w.receivers[i := r], posted := w.posted + posts)
  }

  function Next(w: World, a: Action): World
    requires Enabled(w, a)
  {
    match a
    case Arrive(slot, secret, sid, reply, extras, scalar) =>
      var r := Receiver(slot, secret, sid, reply, extras, scalar, None, None, AwaitSender);
      w.(receivers := w.receivers + [r], used := w.used + {scalar}, posted := w.posted + {Pake(secret, scalar)})
    case TakeSender(i, ms) =>
      var r := w.receivers[i];
      var key := Finish(r.secret, r.scalar, ms);
      Update(w, i, r.(key := Some(key), stage := AwaitTicket), {Mac(key, r.slot, r.sid)})
    case TakeTicket(i, ct) =>
      var r := w.receivers[i];
      var plain := if r.key.Some? then Open(Ticket, r.key.value, r.slot, r.sid, ct) else None;
      Update(w, i, if plain.Some? then r.(payload := plain, stage := SendReply) else r.(stage := Stopped), {})
    case PostReply(i) =>
      var r := w.receivers[i];
      Update(w, i, r.(stage := SendExtras),
             if r.key.Some? && r.reply.Some? then {Sealed(Reply, r.key.value, r.slot, r.sid, r.reply.value)} else {})
    case PostExtras(i) =>
      var r := w.receivers[i];
      Update(w, i, r.(stage := Returned),
             if r.key.Some? && r.extras.Some? then {Sealed(Extras, r.key.value, r.slot, r.sid, r.extras.value)} else {})
    case Stop(i) => Update(w, i, w.receivers[i].(stage := Stopped), {})
    case Answer(sid, mr, scalar) =>
      var ms := Pake(w.config.secret, scalar);
      var v := w.(used := w.used + {scalar}, hosted := w.hosted + {scalar}, posted := w.posted + {ms});
      if mr in w.emitted then v.(events := v.events + [Rejected(sid)])
      else
        v.(emitted := w.emitted + {ms},
           current := Some(Session(sid, scalar, Finish(w.config.secret, scalar, mr), AwaitConfirm)))
    case CheckConfirm(got) =>
      var s := w.current.value;
      if got == Mac(s.key, w.config.slot, s.sid) then
        w.(posted := w.posted + {Sealed(Ticket, s.key, w.config.slot, s.sid, w.config.payload)},
           handed := w.handed + {(s.sid, s.key)},
           current := Some(s.(stage := AwaitReply)))
      else w.(current := None, events := w.events + [BadCode(s.sid)])
    case ReadReply(row) =>
      var s := w.current.value;
      var reply := if row.Some? then Open(Reply, s.key, w.config.slot, s.sid, row.value) else None;
      w.(current := Some(s.(stage := AwaitExtras(reply))))
    case ReadExtras(extra) =>
      var s := w.current.value;
      var extras := if extra.Some? then Open(Extras, s.key, w.config.slot, s.sid, extra.value) else None;
      w.(current := None, events := w.events + [Paired(s.sid, s.key, s.stage.reply, extras)])
    case Abandon => w.(current := None, events := w.events + [Rejected(w.current.value.sid)])
    case Fail => w.(current := None)
    case Restart => w.(current := None, emitted := {})
  }

  /** The world after the actions; one that cannot happen is skipped. */
  function Run(w: World, actions: seq<Action>): World {
    if |actions| == 0 then w
    else
      var before := Run(w, actions[..|actions| - 1]);
      var last := actions[|actions| - 1];
      if Enabled(before, last) then Next(before, last) else before
  }

  // ---- what every run keeps ------------------------------------------------------------------

  /** Receiver `i` used the host's code in this slot and session, got this key, and
      has these to send back. */
  predicate Gives(w: World, i: nat, key: PakeKey, slot: Text, sid: Text,
                  reply: Option<seq<byte>>, extras: Option<seq<byte>>) {
    i < |w.receivers|
    && var r := w.receivers[i];
    && r.key == Some(key) && r.slot == slot && r.sid == sid && r.secret == w.config.secret
    && (reply.Some? ==> r.reply == reply) && (extras.Some? ==> r.extras == extras)
  }

  ghost predicate Given(w: World, key: PakeKey, slot: Text, sid: Text,
                        reply: Option<seq<byte>>, extras: Option<seq<byte>>) {
    exists i: nat :: Gives(w, i, key, slot, sid, reply, extras)
  }

  /** Every value under a key of the host's code was put there by who should have. */
  ghost predicate Accounted(w: World, v: Value) {
    match v
    case Pake(secret, scalar) => scalar in w.used
    case Mac(key, slot, sid) => key.secret == w.config.secret ==> Given(w, key, slot, sid, None, None)
    case Sealed(Ticket, key, slot, sid, body) =>
      key.secret == w.config.secret ==> slot == w.config.slot && body == w.config.payload && (sid, key) in w.handed
    case Sealed(Reply, key, slot, sid, body) =>
      key.secret == w.config.secret ==> Given(w, key, slot, sid, Some(body), None)
    case Sealed(Extras, key, slot, sid, body) =>
      key.secret == w.config.secret ==> Given(w, key, slot, sid, None, Some(body))
    case Noise(_) => true
  }

  /** The key came out of a run the host made. */
  predicate HostMade(w: World, key: PakeKey) {
    match key
    case Shared(_, scalars) => exists s :: s in scalars && s in w.hosted
    case Alone(_, scalar) => scalar in w.hosted
  }

  /** The key came out of the run with this scalar. */
  predicate Party(key: PakeKey, secret: Text, scalar: Scalar) {
    key.secret == secret &&
    match key
    case Shared(_, scalars) => scalar in scalars && exists t :: t in scalars && scalars == {scalar, t}
    case Alone(_, s) => s == scalar
  }

  ghost predicate ReceiverOk(w: World, r: Receiver) {
    && r.scalar in w.used && r.scalar !in w.hosted
    && (r.key.Some? ==> Party(r.key.value, r.secret, r.scalar))
    && (r.key.None? <== r.stage == AwaitSender)
    && (r.payload.Some? ==> r.key.Some?)
    && (r.payload.Some? && r.secret == w.config.secret ==>
          r.slot == w.config.slot && r.payload == Some(w.config.payload) && (r.sid, r.key.value) in w.handed)
  }

  ghost predicate ReceiversOk(w: World) {
    && (forall i :: 0 <= i < |w.receivers| ==> ReceiverOk(w, w.receivers[i]))
    && (forall i, j :: 0 <= i < j < |w.receivers| ==> w.receivers[i].scalar != w.receivers[j].scalar)
  }

  ghost predicate SessionOk(w: World, s: Session) {
    && s.scalar in w.hosted && Party(s.key, w.config.secret, s.scalar)
    && match s.stage
       case AwaitConfirm => true
       case AwaitReply => Given(w, s.key, w.config.slot, s.sid, None, None)
       case AwaitExtras(reply) => Given(w, s.key, w.config.slot, s.sid, reply, None)
  }

  ghost predicate EventOk(w: World, e: Event) {
    e.Paired? ==> HostMade(w, e.key) && Given(w, e.key, w.config.slot, e.sid, e.reply, e.extras)
  }

  /** The payload was sealed only for a key of the host's own making, shared with a
      receiver that used the code in that session. */
  ghost predicate HandedOk(w: World, h: (Text, PakeKey)) {
    HostMade(w, h.1) && Given(w, h.1, w.config.slot, h.0, None, None)
  }

  ghost predicate Inv(w: World) {
    && (forall h :: h in w.handed ==> HandedOk(w, h))
    && w.hosted <= w.used && w.emitted <= w.posted
    && (forall v :: v in w.posted ==> Accounted(w, v))
    && ReceiversOk(w)
    && (w.current.Some? ==> SessionOk(w, w.current.value))
    && (forall e :: e in w.events ==> EventOk(w, e))
  }

  // ---- what only ever grows ---------------------------------------------------------------------

  /** Receivers come and move on; what they were given never changes. */
  ghost predicate Grows(w: World, v: World) {
    && v.config == w.config && w.handed <= v.handed && w.used <= v.used && w.hosted <= v.hosted
    && |w.receivers| <= |v.receivers|
    && forall i :: 0 <= i < |w.receivers| ==> SameCall(w.receivers[i], v.receivers[i])
  }

  predicate SameCall(r: Receiver, t: Receiver) {
    && t.slot == r.slot && t.secret == r.secret && t.sid == r.sid && t.reply == r.reply && t.extras == r.extras
    && t.scalar == r.scalar && (r.key.Some? ==> t.key == r.key)
  }

  lemma GivenGrows(w: World, v: World, key: PakeKey, slot: Text, sid: Text,
                   reply: Option<seq<byte>>, extras: Option<seq<byte>>)
    requires Grows(w, v) && Given(w, key, slot, sid, reply, extras)
    ensures Given(v, key, slot, sid, reply, extras)
  {
    var i: nat :| Gives(w, i, key, slot, sid, reply, extras);
    assert SameCall(w.receivers[i], v.receivers[i]);
    assert Gives(v, i, key, slot, sid, reply, extras);
  }

  /** So what was once accounted for stays so. */
  lemma KnowledgeGrows(w: World, v: World)
    requires Grows(w, v)
    ensures forall x :: Accounted(w, x) ==> Accounted(v, x)
    ensures forall e :: EventOk(w, e) ==> EventOk(v, e)
    ensures forall s :: SessionOk(w, s) ==> SessionOk(v, s)
    ensures forall h :: HandedOk(w, h) ==> HandedOk(v, h)
  {
    hide Given, Party;
    forall key, slot, sid, reply, extras | Given(w, key, slot, sid, reply, extras)
      ensures Given(v, key, slot, sid, reply, extras)
    {
      GivenGrows(w, v, key, slot, sid, reply, extras);
    }
  }

  /** A key the host shares with a receiver is that receiver's alone. */
  lemma OneReceiver(w: World, key: PakeKey, slot: Text, sid: Text, slot2: Text, sid2: Text, i: nat, j: nat)
    requires ReceiversOk(w) && HostMade(w, key)
    requires Gives(w, i, key, slot, sid, None, None) && Gives(w, j, key, slot2, sid2, None, None)
    ensures i == j
  {
    assert ReceiverOk(w, w.receivers[i]) && ReceiverOk(w, w.receivers[j]);
  }

  lemma GivenJoin(w: World, key: PakeKey, slot: Text, sid: Text, reply: Option<seq<byte>>, extras: Option<seq<byte>>)
    requires ReceiversOk(w) && HostMade(w, key)
    requires Given(w, key, slot, sid, reply, None) && Given(w, key, slot, sid, None, extras)
    ensures Given(w, key, slot, sid, reply, extras)
  {
    var i: nat :| Gives(w, i, key, slot, sid, reply, None);
    var j: nat :| Gives(w, j, key, slot, sid, None, extras);
    OneReceiver(w, key, slot, sid, slot, sid, i, j);
    assert Gives(w, i, key, slot, sid, reply, extras);
  }

  // ---- one step ----------------------------------------------------------------------------------

  /** What a step has to show: it grows the world, and each new thing is in order. */
  lemma Step(w: World, v: World)
    requires Inv(w) && Grows(w, v) && v.hosted <= v.used && v.emitted <= v.posted && ReceiversOk(v)
    requires forall x :: x in v.posted && x !in w.posted ==> Accounted(v, x)
    requires v.current.Some? && v.current != w.current ==> SessionOk(v, v.current.value)
    requires forall e :: e in v.events && e !in w.events ==> EventOk(v, e)
    requires forall h :: h in v.handed && h !in w.handed ==> HandedOk(v, h)
    ensures Inv(v)
  {
    hide Accounted, EventOk, SessionOk, HandedOk, Grows, ReceiversOk;
    KnowledgeGrows(w, v);
  }

  lemma Delivered(w: World, v: Value)
    requires Inv(w) && Deliverable(w, v)
    ensures Accounted(w, v) || (v.Pake? && v.secret != w.config.secret)
  {
  }

  lemma HostKey(w: World, s: Session)
    requires SessionOk(w, s)
    ensures HostMade(w, s.key) && s.key.secret == w.config.secret
  {
  }

  lemma ArriveKeeps(w: World, a: Action)
    requires Inv(w) && Enabled(w, a) && a.Arrive?
    ensures Inv(Next(w, a))
  {
    Step(w, Next(w, a));
  }

  lemma TakeSenderKeeps(w: World, i: nat, ms: Value)
    requires Inv(w) && Enabled(w, TakeSender(i, ms))
    ensures Inv(Next(w, TakeSender(i, ms)))
  {
    var v := Next(w, TakeSender(i, ms));
    var r := v.receivers[i];
    assert ReceiverOk(w, w.receivers[i]);
    if r.secret == w.config.secret {
      assert Gives(v, i, r.key.value, r.slot, r.sid, None, None);
    }
    FinishIsParty(w.receivers[i].secret, w.receivers[i].scalar, ms);
    Step(w, v);
  }

  lemma FinishIsParty(secret: Text, scalar: Scalar, peer: Value)
    ensures Party(Finish(secret, scalar, peer), secret, scalar)
  {
  }

  lemma TakeTicketKeeps(w: World, i: nat, ct: Value)
    requires Inv(w) && Enabled(w, TakeTicket(i, ct))
    ensures Inv(Next(w, TakeTicket(i, ct)))
  {
    var r := w.receivers[i];
    assert ReceiverOk(w, r);
    Delivered(w, ct);
    Step(w, Next(w, TakeTicket(i, ct)));
  }

  lemma PostReplyKeeps(w: World, i: nat)
    requires Inv(w) && Enabled(w, PostReply(i))
    ensures Inv(Next(w, PostReply(i)))
  {
    var v := Next(w, PostReply(i));
    var r := v.receivers[i];
    assert ReceiverOk(w, w.receivers[i]);
    if r.key.Some? && r.reply.Some? && r.secret == w.config.secret {
      assert Gives(v, i, r.key.value, r.slot, r.sid, r.reply, None);
    }
    Step(w, v);
  }

  lemma PostExtrasKeeps(w: World, i: nat)
    requires Inv(w) && Enabled(w, PostExtras(i))
    ensures Inv(Next(w, PostExtras(i)))
  {
    var v := Next(w, PostExtras(i));
    var r := v.receivers[i];
    assert ReceiverOk(w, w.receivers[i]);
    if r.key.Some? && r.extras.Some? && r.secret == w.config.secret {
      assert Gives(v, i, r.key.value, r.slot, r.sid, None, r.extras);
    }
    Step(w, v);
  }

  lemma StopKeeps(w: World, i: nat)
    requires Inv(w) && Enabled(w, Stop(i))
    ensures Inv(Next(w, Stop(i)))
  {
    assert ReceiverOk(w, w.receivers[i]);
    Step(w, Next(w, Stop(i)));
  }

  lemma AnswerKeeps(w: World, sid: Text, mr: Value, scalar: Scalar)
    requires Inv(w) && Enabled(w, Answer(sid, mr, scalar))
    ensures Inv(Next(w, Answer(sid, mr, scalar)))
  {
    FinishIsParty(w.config.secret, scalar, mr);
    Step(w, Next(w, Answer(sid, mr, scalar)));
  }

  lemma CheckConfirmKeeps(w: World, got: Value)
    requires Inv(w) && Enabled(w, CheckConfirm(got))
    ensures Inv(Next(w, CheckConfirm(got)))
  {
    hide Given;
    HostKey(w, w.current.value);
    Delivered(w, got);
    var v := Next(w, CheckConfirm(got));
    assert Grows(w, v);
    KnowledgeGrows(w, v);
    if v.current.Some? { assert Accounted(v, got); }
    Step(w, v);
  }

  lemma ReadReplyKeeps(w: World, row: Option<Value>)
    requires Inv(w) && Enabled(w, ReadReply(row))
    ensures Inv(Next(w, ReadReply(row)))
  {
    hide Given;
    HostKey(w, w.current.value);
    if row.Some? { Delivered(w, row.value); }
    var v := Next(w, ReadReply(row));
    assert Grows(w, v);
    KnowledgeGrows(w, v);
    Step(w, v);
  }

  lemma ReadExtrasKeeps(w: World, extra: Option<Value>)
    requires Inv(w) && Enabled(w, ReadExtras(extra))
    ensures Inv(Next(w, ReadExtras(extra)))
  {
    hide Given;
    var s := w.current.value;
    HostKey(w, s);
    var v := Next(w, ReadExtras(extra));
    assert Grows(w, v);
    KnowledgeGrows(w, v);
    if extra.Some? {
      Delivered(w, extra.value);
      var extras := Open(Extras, s.key, w.config.slot, s.sid, extra.value);
      if extras.Some? { GivenJoin(v, s.key, v.config.slot, s.sid, s.stage.reply, extras); }
    }
    Step(w, v);
  }

  lemma StepKeeps(w: World, a: Action)
    requires Inv(w) && Enabled(w, a)
    ensures Inv(Next(w, a))
  {
    match a
    case Arrive(_, _, _, _, _, _) => ArriveKeeps(w, a);
    case TakeSender(i, ms) => TakeSenderKeeps(w, i, ms);
    case TakeTicket(i, ct) => TakeTicketKeeps(w, i, ct);
    case PostReply(i) => PostReplyKeeps(w, i);
    case PostExtras(i) => PostExtrasKeeps(w, i);
    case Stop(i) => StopKeeps(w, i);
    case Answer(sid, mr, scalar) => AnswerKeeps(w, sid, mr, scalar);
    case CheckConfirm(got) => CheckConfirmKeeps(w, got);
    case ReadReply(row) => ReadReplyKeeps(w, row);
    case ReadExtras(extra) => ReadExtrasKeeps(w, extra);
    case Abandon => Step(w, Next(w, a));
    case Fail => Step(w, Next(w, a));
    case Restart => Step(w, Next(w, a));
  }

  lemma {:induction false} RunKeeps(config: Config, actions: seq<Action>)
    ensures Inv(Run(Start(config), actions)) && Run(Start(config), actions).config == config
  {
    hide Inv, Enabled, Next;
    if |actions| == 0 {
      StartHolds(config);
    } else {
      var front, last := actions[..|actions| - 1], actions[|actions| - 1];
      RunKeeps(config, front);
      var w := Run(Start(config), front);
      if Enabled(w, last) {
        StepKeeps(w, last);
        ConfigStays(w, last);
      }
    }
  }

  lemma StartHolds(config: Config)
    ensures Inv(Start(config))
  {
  }

  lemma ConfigStays(w: World, a: Action)
    requires Enabled(w, a)
    ensures Next(w, a).config == w.config
  {
  }

  // ---- what it gives --------------------------------------------------------------------------------

  /** A receiver that used the host's code and opened a ticket has the host's payload,
      which the host sealed for that receiver's own session, under the key that receiver
      alone shares with it. */
  lemma ReceiverGotPayload(config: Config, actions: seq<Action>, i: nat)
    requires var w := Run(Start(config), actions);
      i < |w.receivers| && w.receivers[i].secret == config.secret && w.receivers[i].payload.Some?
    ensures var w := Run(Start(config), actions);
      var r := w.receivers[i];
      && r.payload == Some(config.payload) && r.slot == config.slot
      && r.key.Some? && (r.sid, r.key.value) in w.handed
      && (forall j: nat :: j < |w.receivers| && w.receivers[j].key == r.key ==> j == i)
  {
    hide Run;
    RunKeeps(config, actions);
    var w := Run(Start(config), actions);
    var r := w.receivers[i];
    assert ReceiverOk(w, r) && HandedOk(w, (r.sid, r.key.value));
    forall j: nat | j < |w.receivers| && w.receivers[j].key == r.key ensures j == i {
      var t := w.receivers[j];
      assert ReceiverOk(w, t);
      assert Gives(w, i, r.key.value, r.slot, r.sid, None, None) && Gives(w, j, r.key.value, t.slot, t.sid, None, None);
      OneReceiver(w, r.key.value, r.slot, r.sid, t.slot, t.sid, i, j);
    }
  }

  /** Every pairing the host reports is with exactly one receiver, one that used the
      code, this slot and this session; and a reply or extras reported with it are what
      that receiver sealed. */
  lemma PairedWithReceiver(config: Config, actions: seq<Action>, e: Event) returns (i: nat)
    requires e in Run(Start(config), actions).events && e.Paired?
    ensures var w := Run(Start(config), actions);
      && i < |w.receivers|
      && var r := w.receivers[i];
      && r.secret == config.secret && r.slot == config.slot && r.sid == e.sid && r.key == Some(e.key)
      && (e.reply.Some? ==> r.reply == e.reply) && (e.extras.Some? ==> r.extras == e.extras)
      && (forall j: nat :: j < |w.receivers| && w.receivers[j].key == Some(e.key) ==> j == i)
  {
    hide Run;
    RunKeeps(config, actions);
    var w := Run(Start(config), actions);
    assert EventOk(w, e);
    i :| Gives(w, i, e.key, config.slot, e.sid, e.reply, e.extras);
    forall j: nat | j < |w.receivers| && w.receivers[j].key == Some(e.key) ensures j == i {
      var t := w.receivers[j];
      assert ReceiverOk(w, t) && ReceiverOk(w, w.receivers[i]);
      assert Gives(w, j, e.key, t.slot, t.sid, None, None);
      OneReceiver(w, e.key, config.slot, e.sid, t.slot, t.sid, i, j);
    }
  }

  // ---- each pairing once -------------------------------------------------------------------------------

  /** Every run behind this key has been drawn. */
  predicate KeyDrawn(w: World, key: PakeKey) {
    match key
    case Shared(_, scalars) => scalars <= w.used
    case Alone(_, scalar) => scalar in w.used
  }

  predicate Reported(events: seq<Event>, key: PakeKey) {
    exists e :: e in events && e.Paired? && e.key == key
  }

  /** No key is reported twice, and none that was not handed the payload; the session
      being answered is not reported yet. */
  ghost predicate Once(w: World) {
    && (forall e :: e in w.events && e.Paired? ==> KeyDrawn(w, e.key) && (e.sid, e.key) in w.handed)
    && (forall i, j :: 0 <= i < j < |w.events| && w.events[i].Paired? && w.events[j].Paired? ==>
          w.events[i].key != w.events[j].key)
    && (w.current.Some? ==>
          var s := w.current.value;
          && KeyDrawn(w, s.key) && !Reported(w.events, s.key)
          && (!s.stage.AwaitConfirm? ==> (s.sid, s.key) in w.handed))
  }

  /** A fresh run is in no key that was drawn before. */
  lemma FreshKey(w: World, mr: Value, scalar: Scalar)
    requires Inv(w) && scalar !in w.used && Deliverable(w, mr)
    ensures var key := Finish(w.config.secret, scalar, mr);
      !KeyDrawn(w, key) && KeyDrawn(w.(used := w.used + {scalar}), key)
  {
    Delivered(w, mr);
  }

  /** What stays of it when no pairing is reported. */
  lemma OnceStays(w: World, v: World)
    requires Once(w) && w.used <= v.used && w.handed <= v.handed
    requires v.events == w.events || (exists e :: v.events == w.events + [e] && !e.Paired?)
    requires v.current.None? || (v.current.Some? &&
      var s := v.current.value;
      KeyDrawn(v, s.key) && !Reported(w.events, s.key) && (!s.stage.AwaitConfirm? ==> (s.sid, s.key) in v.handed))
    ensures Once(v)
  {
  }

  lemma OnceKeeps(w: World, a: Action)
    requires Inv(w) && Once(w) && Enabled(w, a)
    ensures Once(Next(w, a))
  {
    var v := Next(w, a);
    match a {
      case Answer(sid, mr, scalar) => AnswerOnce(w, sid, mr, scalar);
      case ReadExtras(extra) => ReadExtrasOnce(w, extra);
      case _ =>
        hide Inv, Given, Accounted;
        OnceStays(w, v);
    }
  }

  lemma AnswerOnce(w: World, sid: Text, mr: Value, scalar: Scalar)
    requires Inv(w) && Once(w) && Enabled(w, Answer(sid, mr, scalar))
    ensures Once(Next(w, Answer(sid, mr, scalar)))
  {
    FreshKey(w, mr, scalar);
    hide Inv;
    OnceStays(w, Next(w, Answer(sid, mr, scalar)));
  }

  lemma ReadExtrasOnce(w: World, extra: Option<Value>)
    requires Once(w) && Enabled(w, ReadExtras(extra))
    ensures Once(Next(w, ReadExtras(extra)))
  {
    var v := Next(w, ReadExtras(extra));
    var last := |w.events|;
    forall i | 0 <= i < last && v.events[i].Paired? ensures v.events[i].key != v.events[last].key {
      assert w.events[i] in w.events;
    }
  }

  lemma {:induction false} RunsOnce(config: Config, actions: seq<Action>)
    ensures Once(Run(Start(config), actions))
  {
    if |actions| > 0 {
      var front, last := actions[..|actions| - 1], actions[|actions| - 1];
      RunsOnce(config, front);
      RunKeeps(config, front);
      hide Inv, Once, Enabled, Next;
      var w := Run(Start(config), front);
      if Enabled(w, last) { OnceKeeps(w, last); }
    }
  }

  /** The sessions reported as paired. */
  function Pairings(events: seq<Event>): seq<(Text, PakeKey)> {
    if |events| == 0 then []
    else
      var last := events[|events| - 1];
      Pairings(events[..|events| - 1]) + if last.Paired? then [(last.sid, last.key)] else []
  }

  lemma {:induction false} PairingsWithin(events: seq<Event>, handed: set<(Text, PakeKey)>) returns (paired: set<(Text, PakeKey)>)
    requires forall e :: e in events && e.Paired? ==> (e.sid, e.key) in handed
    requires forall i, j :: 0 <= i < j < |events| && events[i].Paired? && events[j].Paired? ==> events[i].key != events[j].key
    ensures paired <= handed && |paired| == |Pairings(events)|
    ensures forall h :: h in paired ==> Reported(events, h.1)
  {
    paired := {};
    if |events| > 0 {
      var front, last := events[..|events| - 1], events[|events| - 1];
      paired := PairingsWithin(front, handed);
      assert events == front + [last];
      if last.Paired? {
        assert !Reported(front, last.key);
        paired := paired + {(last.sid, last.key)};
      }
    }
  }

  lemma Fewer<T>(a: set<T>, b: set<T>)
    requires a <= b
    ensures |a| <= |b|
  {
    assert b == a + (b - a);
  }

  /** Report `i` is of a pairing with receiver `r`. */
  predicate Names(w: World, i: nat, r: nat) {
    i < |w.events| && w.events[i].Paired? && r < |w.receivers| && w.receivers[r].key == Some(w.events[i].key)
  }

  /** No receiver is reported twice, and there are no more pairings than payloads handed
      over, however often the host restarts and whatever is replayed to it. */
  lemma EachPairedOnce(config: Config, actions: seq<Action>)
    ensures var w := Run(Start(config), actions);
      && |Pairings(w.events)| <= |w.handed|
      && forall i: nat, j: nat, r: nat :: Names(w, i, r) && Names(w, j, r) ==> i == j
  {
    hide Run;
    RunsOnce(config, actions);
    var w := Run(Start(config), actions);
    var paired := PairingsWithin(w.events, w.handed);
    Fewer(paired, w.handed);
  }

  // ---- what each answer is reported as -----------------------------------------------------------------

  /** The confirmation the host waits for: made with its own key for this session. */
  function Expected(w: World): Value
    requires w.current.Some?
  {
    Mac(w.current.value.key, w.config.slot, w.current.value.sid)
  }

  /** A session ends as a wrong code exactly when the confirmation taken is not the one
      expected; it is turned away, uncharged, exactly when the host's own message came back
      to it or nobody confirmed; and it is a pairing exactly at the end of a confirmed one.
      The payload is handed over exactly on the confirmation expected. */
  lemma ReportedAs(w: World, a: Action)
    requires Enabled(w, a)
    ensures var v := Next(w, a);
      var wrong := a.CheckConfirm? && a.got != Expected(w);
      var reflected := a.Answer? && a.mr in w.emitted;
      && (v.events == w.events || (|v.events| == |w.events| + 1 && w.events == v.events[..|w.events|]))
      && (v.events != w.events <==> wrong || reflected || a.Abandon? || a.ReadExtras?)
      && (wrong ==> v.events[|w.events|] == BadCode(w.current.value.sid) && v.current.None?)
      && (reflected ==> v.events[|w.events|] == Rejected(a.sid) && v.current == w.current)
      && (a.Abandon? ==> v.events[|w.events|] == Rejected(w.current.value.sid) && v.current.None?)
      && (a.ReadExtras? ==> v.events[|w.events|].Paired? && v.events[|w.events|].sid == w.current.value.sid && v.current.None?)
      && (v.handed != w.handed ==> a.CheckConfirm? && !wrong)
      && (a.CheckConfirm? && !wrong ==>
            (w.current.value.sid, w.current.value.key) in v.handed
            && Sealed(Ticket, w.current.value.key, w.config.slot, w.current.value.sid, w.config.payload) in v.posted)
  {
    hide Finish, Makeable, Open;
  }

  /** A receiver has one try at its ticket: it goes on with what it opened, or stops; and a
      restart of the host leaves nothing of what it kept in memory. */
  lemma OneTry(w: World, a: Action)
    requires Enabled(w, a)
    requires a.TakeTicket? ==> w.receivers[a.i].key.Some? && w.receivers[a.i].payload.None?
    ensures a.TakeTicket? ==>
              var r, after := w.receivers[a.i], Next(w, a).receivers[a.i];
              var plain := Open(Ticket, r.key.value, r.slot, r.sid, a.ct);
              && (plain.Some? ==> after == r.(payload := plain, stage := SendReply))
              && (plain.None? ==> after == r.(stage := Stopped))
    ensures a.Restart? ==> Next(w, a) == w.(current := None, emitted := {})
  {
  }

  /** Whatever a receiver with another code confirms with, in any run, is a wrong code:
      nothing is handed over for it. */
  lemma WrongCodeIsCharged(config: Config, actions: seq<Action>, i: nat)
    requires var w := Run(Start(config), actions);
      && i < |w.receivers| && w.receivers[i].secret != config.secret && w.receivers[i].key.Some?
      && Enabled(w, CheckConfirm(Mac(w.receivers[i].key.value, w.receivers[i].slot, w.receivers[i].sid)))
    ensures var w := Run(Start(config), actions);
      var v := Next(w, CheckConfirm(Mac(w.receivers[i].key.value, w.receivers[i].slot, w.receivers[i].sid)));
      && v.events == w.events + [BadCode(w.current.value.sid)]
      && v.handed == w.handed && v.posted == w.posted && v.current.None?
  {
    hide Run;
    RunKeeps(config, actions);
    var w := Run(Start(config), actions);
    assert ReceiverOk(w, w.receivers[i]);
    HostKey(w, w.current.value);
  }

  /** And a receiver with the host's own, in its slot and session, is not: any confirmation
      of its is expected, if it got the host's message and the host its own. */
  lemma RightCodeIsNot(w: World, i: nat)
    requires Inv(w) && i < |w.receivers| && w.current.Some?
    requires var r, s := w.receivers[i], w.current.value;
      r.secret == w.config.secret && r.slot == w.config.slot && r.sid == s.sid
      && r.key == Some(Finish(r.secret, r.scalar, Pake(w.config.secret, s.scalar)))
      && s.key == Finish(w.config.secret, s.scalar, Pake(r.secret, r.scalar))
    ensures Expected(w) == Mac(w.receivers[i].key.value, w.receivers[i].slot, w.receivers[i].sid)
  {
    var r, s := w.receivers[i], w.current.value;
    assert {r.scalar, s.scalar} == {s.scalar, r.scalar};
  }

  lemma EmittedStays(w: World, a: Action)
    requires Enabled(w, a) && !a.Restart?
    ensures w.emitted <= Next(w, a).emitted
  {
    hide Finish, Makeable, Open;
  }

  /** Until it restarts, the host takes none of its own messages for a receiver's: it turns
      the session away and neither charges it nor hands anything over. */
  lemma {:induction false} OwnMessageIsRefused(w: World, answer: Action, later: seq<Action>, sid: Text, scalar: Scalar)
    requires answer.Answer? && Enabled(w, answer) && answer.mr !in w.emitted
    requires forall a :: a in later ==> !a.Restart?
    ensures var own := Pake(w.config.secret, answer.scalar);
      var v := Run(Next(w, answer), later);
      && own in v.emitted
      && (Enabled(v, Answer(sid, own, scalar)) ==>
            var t := Next(v, Answer(sid, own, scalar));
            t.events == v.events + [Rejected(sid)] && t.current.None? && t.handed == v.handed)
  {
    if |later| > 0 {
      var front, last := later[..|later| - 1], later[|later| - 1];
      OwnMessageIsRefused(w, answer, front, sid, scalar);
      var u := Run(Next(w, answer), front);
      assert last in later;
      hide Next, Enabled;
      if Enabled(u, last) { EmittedStays(u, last); }
      RefusesEmitted(Run(Next(w, answer), later), Pake(w.config.secret, answer.scalar), sid, scalar);
    } else {
      RefusesEmitted(Next(w, answer), Pake(w.config.secret, answer.scalar), sid, scalar);
    }
  }

  lemma RefusesEmitted(v: World, own: Value, sid: Text, scalar: Scalar)
    requires own in v.emitted
    ensures Enabled(v, Answer(sid, own, scalar)) ==>
      var t := Next(v, Answer(sid, own, scalar));
      t.events == v.events + [Rejected(sid)] && t.current.None? && t.handed == v.handed
  {
  }

  // ---- and that it works -------------------------------------------------------------------------------

  function Do(w: World, a: Action): World {
    if Enabled(w, a) then Next(w, a) else w
  }

  lemma Run2(w: World, a: Action, b: Action)
    ensures Run(w, [a, b]) == Do(Do(w, a), b)
  {
    assert [a, b][..1] == [a] && [a][..0] == [];
    assert Run(w, []) == w;
    assert Run(w, [a]) == Do(w, a);
  }

  lemma Run3(w: World, a: Action, b: Action, c: Action)
    ensures Run(w, [a, b, c]) == Do(Do(Do(w, a), b), c)
  {
    Run2(w, a, b);
    assert [a, b, c][..2] == [a, b];
  }

  /** One honest exchange: who, with what to send back, under which two runs. */
  datatype Exchange = Exchange(sid: Text, reply: Option<seq<byte>>, extras: Option<seq<byte>>, x: Scalar, y: Scalar, i: nat) {
    function Key(c: Config): PakeKey {
      Shared(c.secret, {x, y})
    }

    function Call(c: Config, payload: Option<seq<byte>>, stage: Stage): Receiver {
      Receiver(c.slot, c.secret, sid, reply, extras, x, Some(Key(c)), payload, stage)
    }

    /** The receiver at its step, the host at its, and nothing reported yet. */
    predicate Reached(w: World, events: seq<Event>, payload: Option<seq<byte>>, stage: Stage, host: HostStage) {
      && i < |w.receivers| && w.receivers[i] == Call(w.config, payload, stage)
      && w.current == Some(Session(sid, y, Key(w.config), host)) && w.events == events
    }

    function Returned(c: Config, ctx: Context, body: Option<seq<byte>>): Option<Value> {
      if c.awaitReply && body.Some? then Some(Sealed(ctx, Key(c), c.slot, sid, body.value)) else None
    }

    function Heard(c: Config, body: Option<seq<byte>>): Option<seq<byte>> {
      if c.awaitReply then body else None
    }
  }

  lemma FreshMessage(w: World, secret: Text, scalar: Scalar)
    requires Inv(w) && scalar !in w.used
    ensures Pake(secret, scalar) !in w.posted && Pake(secret, scalar) !in w.emitted
  {
    assert !Accounted(w, Pake(secret, scalar));
  }

  lemma Opens(w: World, e: Exchange)
    requires Inv(w) && w.current.None? && e.x !in w.used && e.y !in w.used && e.x != e.y && e.i == |w.receivers|
    ensures var c := w.config;
      var v := Run(w, [Arrive(c.slot, c.secret, e.sid, e.reply, e.extras, e.x),
                       Answer(e.sid, Pake(c.secret, e.x), e.y), TakeSender(e.i, Pake(c.secret, e.y))]);
      v.config == c && e.Reached(v, w.events, None, AwaitTicket, AwaitConfirm) && Mac(e.Key(c), c.slot, e.sid) in v.posted
  {
    var c := w.config;
    var mr := Pake(c.secret, e.x);
    FreshMessage(w, c.secret, e.x);
    assert {e.x, e.y} == {e.y, e.x};
    Run3(w, Arrive(c.slot, c.secret, e.sid, e.reply, e.extras, e.x), Answer(e.sid, mr, e.y),
         TakeSender(e.i, Pake(c.secret, e.y)));
  }

  lemma HandsOver(w: World, e: Exchange)
    requires e.Reached(w, w.events, None, AwaitTicket, AwaitConfirm) && Mac(e.Key(w.config), w.config.slot, e.sid) in w.posted
    ensures var c := w.config;
      var v := Run(w, [CheckConfirm(Mac(e.Key(c), c.slot, e.sid)),
                       TakeTicket(e.i, Sealed(Ticket, e.Key(c), c.slot, e.sid, c.payload))]);
      v.config == c && e.Reached(v, w.events, Some(c.payload), SendReply, AwaitReply)
  {
    var c := w.config;
    Run2(w, CheckConfirm(Mac(e.Key(c), c.slot, e.sid)), TakeTicket(e.i, Sealed(Ticket, e.Key(c), c.slot, e.sid, c.payload)));
  }

  lemma SendsBack(w: World, e: Exchange)
    requires e.Reached(w, w.events, Some(w.config.payload), SendReply, AwaitReply)
    ensures var c := w.config;
      var v := Run(w, [PostReply(e.i), PostExtras(e.i)]);
      && v.config == c && e.Reached(v, w.events, Some(c.payload), Stage.Returned, AwaitReply)
      && Readable(v, e.Returned(c, Reply, e.reply)) && Readable(v, e.Returned(c, Extras, e.extras))
  {
    Run2(w, PostReply(e.i), PostExtras(e.i));
  }

  lemma Hears(w: World, e: Exchange)
    requires e.Reached(w, w.events, Some(w.config.payload), Stage.Returned, AwaitReply)
    requires Readable(w, e.Returned(w.config, Reply, e.reply)) && Readable(w, e.Returned(w.config, Extras, e.extras))
    ensures var c := w.config;
      var v := Run(w, [ReadReply(e.Returned(c, Reply, e.reply)), ReadExtras(e.Returned(c, Extras, e.extras))]);
      && v.receivers == w.receivers
      && v.events == w.events + [Paired(e.sid, e.Key(c), e.Heard(c, e.reply), e.Heard(c, e.extras))]
  {
    Run2(w, ReadReply(e.Returned(w.config, Reply, e.reply)), ReadExtras(e.Returned(w.config, Extras, e.extras)));
  }

  /** The four parts of an exchange the relay serves faithfully. */
  function Opening(c: Config, e: Exchange): seq<Action> {
    [Arrive(c.slot, c.secret, e.sid, e.reply, e.extras, e.x),
     Answer(e.sid, Pake(c.secret, e.x), e.y), TakeSender(e.i, Pake(c.secret, e.y))]
  }

  function Handover(c: Config, e: Exchange): seq<Action> {
    [CheckConfirm(Mac(e.Key(c), c.slot, e.sid)), TakeTicket(e.i, Sealed(Ticket, e.Key(c), c.slot, e.sid, c.payload))]
  }

  function SendingBack(e: Exchange): seq<Action> {
    [PostReply(e.i), PostExtras(e.i)]
  }

  function Hearing(c: Config, e: Exchange): seq<Action> {
    [ReadReply(e.Returned(c, Reply, e.reply)), ReadExtras(e.Returned(c, Extras, e.extras))]
  }

  /** Whatever has happened before, a receiver with the code that the relay serves
      faithfully gets the payload, and the host hears its reply and extras. */
  lemma FaithfulExchange(w: World, e: Exchange)
    requires Inv(w) && w.current.None? && e.x !in w.used && e.y !in w.used && e.x != e.y && e.i == |w.receivers|
    ensures
      var c := w.config;
      var done := Run(Run(Run(Run(w, Opening(c, e)), Handover(c, e)), SendingBack(e)), Hearing(c, e));
      && e.i < |done.receivers| && done.receivers[e.i] == e.Call(c, Some(c.payload), Stage.Returned)
      && done.events == w.events + [Paired(e.sid, e.Key(c), e.Heard(c, e.reply), e.Heard(c, e.extras))]
  {
    hide Run, Inv;
    var c := w.config;
    Opens(w, e);
    var met := Run(w, Opening(c, e));
    HandsOver(met, e);
    var handed := Run(met, Handover(c, e));
    SendsBack(handed, e);
    Hears(Run(handed, SendingBack(e)), e);
  }

  // ---- the bytes under the ideal keys ---------------------------------------------------------------

  predicate NoZero(t: Text) {
    0 !in t
  }

  /** What the three key derivations hash. */
  function KdfInput(key: seq<byte>, slot: Text, sid: Text): seq<byte> {
    key + [0] + slot + [0] + sid
  }

  lemma FirstZero(u: seq<byte>, a: Text, s: seq<byte>)
    requires NoZero(a) && u == a + [0] + s
    ensures |a| < |u| && u[|a|] == 0 && u[..|a|] == a && u[|a| + 1..] == s
    ensures forall i :: 0 <= i < |a| ==> u[i] != 0
  {
    forall i | 0 <= i < |a| ensures u[i] != 0 { assert u[i] == a[i] && a[i] in a; }
  }

  lemma SplitAtZero(u: seq<byte>, a: Text, b: Text, s: seq<byte>, t: seq<byte>)
    requires NoZero(a) && NoZero(b) && u == a + [0] + s && u == b + [0] + t
    ensures a == b && s == t
  {
    FirstZero(u, a, s);
    FirstZero(u, b, t);
  }

  /** Two sessions never derive from the same bytes: a slot and a session id have no
      zero byte, so the zero bytes between the parts tell them apart. */
  lemma KdfInputInjective(k1: seq<byte>, slot1: Text, sid1: Text, k2: seq<byte>, slot2: Text, sid2: Text)
    requires |k1| == |k2| && NoZero(slot1) && NoZero(slot2)
    ensures KdfInput(k1, slot1, sid1) == KdfInput(k2, slot2, sid2) <==> k1 == k2 && slot1 == slot2 && sid1 == sid2
  {
    var a, b := KdfInput(k1, slot1, sid1), KdfInput(k2, slot2, sid2);
    if a == b {
      assert a[..|k1|] == k1 && b[..|k2|] == k2;
      assert a[|k1| + 1..] == slot1 + [0] + sid1 && b[|k2| + 1..] == slot2 + [0] + sid2;
      SplitAtZero(a[|k1| + 1..], slot1, slot2, sid1, sid2);
    }
  }

  /** With a zero byte in a slot they would not. */
  lemma ZeroInSlotCollides(key: seq<byte>, slot: Text, sid: Text)
    ensures KdfInput(key, slot + [0] + slot, sid) == KdfInput(key, slot, slot + [0] + sid)
    ensures slot + [0] + slot != slot
  {
  }
}
