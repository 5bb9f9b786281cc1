/** Driving a relay's resumable session (core/src/upload.rs, `upload` and `drive`). */
module Upload {
  import opened Bytes
  import opened SealedLayout
  import opened UploadRelay

  /** The most of the container one `PATCH` carries. */
  const SEGMENT_BYTES: nat := 32 * 1024 * 1024

  const MAX_QUIET_RETRIES: nat := 4

  const MAX_RESTARTS: nat := 2

  /** A session as the caller keeps it between processes. */
  datatype UploadSession = UploadSession(relay: string, id: nat, length: nat)

  datatype Why = Outage | KeepsLosingTheUpload

  datatype UploadError = TooLarge(size: nat) | Busy | LinksDisabled | Unavailable(why: Why) | FileFault | Refused(status: nat)

  datatype Step = Retry | Restart | Stop(error: UploadError)

  /** A status that says to come back later. */
  predicate Transient(status: nat) {
    status == 429 || (500 <= status < 600 && status != 507)
  }

  /** The next step a refusal calls for. Of the other statuses, `None`, each of the two
      callers makes something else. */
  function Refusal(status: nat, plain: nat): (step: Option<Step>)
    ensures step == Some(Stop(TooLarge(plain))) <==> status == 413
    ensures step == Some(Stop(Busy)) <==> status == 507
    ensures step == Some(Stop(LinksDisabled)) <==> status == 403
    ensures step == Some(Restart) <==> status == 404
    ensures step == Some(Retry) <==> Transient(status)
    ensures step.None? <==> status !in {413, 507, 403, 404} && !Transient(status)
  {
    if status == 413 then Some(Stop(TooLarge(plain)))
    else if status == 507 then Some(Stop(Busy))
    else if status == 403 then Some(Stop(LinksDisabled))
    else if status == 404 then Some(Restart)
    else if status == 429 || 500 <= status < 600 then Some(Retry)
    else None
  }

  /** What a drive that is broken off makes of the answer. */
  function RefusalOrRetry(status: nat, plain: nat): (step: Step)
    ensures step == Stop(TooLarge(plain)) <==> status == 413
    ensures step == Stop(Busy) <==> status == 507
    ensures step == Stop(LinksDisabled) <==> status == 403
    ensures step == Restart <==> status == 404
    ensures step == Retry <==> status !in {413, 507, 403, 404}
  {
    var step := Refusal(status, plain);
    if step.Some? then step.value else Retry
  }

  /** A layout this module's theorems speak of: one that can be regenerated (see
      `RegeneratesIff`), over a sound cipher. The file itself may have shrunk. */
  ghost predicate Uploadable(l: Layout) {
    l.Valid() && l.gcm.Sound() && l.Divisible()
  }

  lemma ContainerLen(l: Layout)
    requires Uploadable(l)
    ensures |l.Whole()| <= l.Len()
    ensures |l.Whole()| == l.Len() <==> l.Complete()
  {
    WholeLen(l);
  }

  /** The session was opened for this very layout. */
  ghost predicate Resumes(v: View, id: nat, l: Layout)
    requires l.Valid()
  {
    id in v.aims && v.aims[id] == Aim(l.Whole(), l.Len())
  }

  // ---- one drive ---------------------------------------------------------------

  /** `Killed`: the process died between two requests. */
  datatype DriveEnd = Committed(claim: nat) | Interrupted(step: Step, progressed: bool) | Killed

  /** What the bytes of a request at `at` are, and that they belong there. */
  lemma SegmentBelongs(l: Layout, at: nat, to: nat)
    requires Uploadable(l) && at <= |l.Whole()| && at < to <= l.Len()
    ensures l.StreamBytes(at, to).0 <= l.Whole()[at..]
    ensures l.StreamBytes(at, to).1 ==> !l.Complete()
  {
    StreamIsRange(l, at, to);
    WholeLen(l);
    if to <= |l.Whole()| {
      assert l.Whole()[at..to] == l.Whole()[at..][..to - at];
    }
  }

  /** What the client knows at its loop heads about the session it drives, having
      started from `v`: `at` is no further than the relay's file, unless the relay
      has cut it back since; and progress was real. */
  ghost predicate Standing(v: View, w: View, id: nat, l: Layout, at: nat, progressed: bool)
    requires l.Valid()
  {
    && v.Sound() && w.Sound() && v.Then(w, id) && Resumes(w, id, l)
    && at <= |l.Whole()|
    && (id in w.sessions ==> at <= |w.sessions[id].file|)
    && (w.cutbacks == v.cutbacks && id in v.sessions && id in w.sessions ==> |v.sessions[id].file| <= at)
    && (w.cutbacks == v.cutbacks && progressed ==> id in v.sessions && |v.sessions[id].file| < at)
  }

  /** An answer that names an offset tells the truth about the file as it now is. */
  lemma AnswerStands(v: View, w: View, w': View, id: nat, l: Layout, at: nat, progressed: bool, newAt: nat)
    requires Uploadable(l) && Standing(v, w, id, l, at, progressed)
    requires w'.Sound() && w.Then(w', id)
    requires id in w'.sessions && newAt == |w'.sessions[id].file|
    ensures Standing(v, w', id, l, newAt, progressed || newAt > at)
    ensures w'.cutbacks == w.cutbacks ==> newAt >= at
    ensures newAt <= l.Len()
  {
    ThenTrans(v, w, w', id);
    assert w'.SessionSound(id);
  }

  /** Ending a drive: what was gained is gained. */
  ghost predicate Gained(v: View, w: View, id: nat, progressed: bool) {
    && w.Sound() && v.Then(w, id) && w.aims == v.aims && w.cutbacks <= v.cutbacks
    && (w.cutbacks == v.cutbacks ==> w.Lacking(id) <= v.Lacking(id))
    && (w.cutbacks == v.cutbacks && progressed ==> w.Lacking(id) < v.Lacking(id))
  }

  lemma DriveGains(v: View, w: View, w': View, id: nat, l: Layout, at: nat, progressed: bool)
    requires Uploadable(l) && Standing(v, w, id, l, at, progressed)
    requires w'.Sound() && w.Then(w', id)
    ensures Gained(v, w', id, progressed) && Resumes(w', id, l) && w'.cutbacks <= w.cutbacks <= v.cutbacks
  {
    ThenTrans(v, w, w', id);
    if id in w'.sessions { assert w'.SessionSound(id); }
    if id in v.sessions { assert v.SessionSound(id); }
  }

  /** A drive that has just asked for the status knows where it stands. */
  lemma StatusStands(v: View, w: View, id: nat, l: Layout, at: nat)
    requires Uploadable(l) && v.Sound() && Resumes(v, id, l)
    requires w.Sound() && v.Then(w, id) && id in w.sessions && at == |w.sessions[id].file|
    ensures Standing(v, w, id, l, at, false)
  {
    assert w.SessionSound(id);
  }

  lemma NothingSent(v: View, w: View, id: nat)
    requires v.Then(w, id) && v.Sound() && w.Sound() && id in v.aims
    ensures Gained(v, w, id, false)
  {
    if id in w.sessions { assert w.SessionSound(id) && v.SessionSound(id); }
  }

  lemma StandingAims(v: View, w: View, id: nat, l: Layout, at: nat, progressed: bool)
    requires Uploadable(l) && Standing(v, w, id, l, at, progressed)
    ensures at <= |l.Whole()| && Resumes(w, id, l) && w.Sound() && w.Then(w, id)
  {
  }

  // ---- what the record says of a drive ---------------------------------------------

  /** The relay took something, and said so. */
  predicate Advances(x: Exchange) {
    x.request.Appending? && x.answer.Reply? && x.answer.offset.Some? && x.answer.offset.value > x.request.offset
  }

  ghost predicate Advanced(log: seq<Exchange>) {
    exists x :: x in log && Advances(x)
  }

  ghost predicate Pulled(log: seq<Exchange>) {
    exists x :: x in log && x.pulled
  }

  /** The last of these exchanges is an append that was dropped, in one of which, or
      earlier, the file could not be read. */
  ghost predicate FaultSurfaces(log: seq<Exchange>, fault0: bool) {
    && |log| > 0 && log[|log| - 1].request.Appending? && log[|log| - 1].answer.Lost?
    && (fault0 || Pulled(log))
  }

  /** The drive ended as its last answer calls for, and tells of progress exactly if some
      append made any. */
  ghost predicate EndsAs(end: DriveEnd, log: seq<Exchange>, id: nat, plain: nat, fault0: bool) {
    |log| > 0
    && var last := log[|log| - 1];
    && (end.Committed? <==> Clinches(last, id))
    && (end.Committed? ==> end.claim == last.answer.word)
    && (end.Interrupted? ==> (end.progressed <==> Advanced(log)))
    && (end.Interrupted? ==>
          end.step == if FaultSurfaces(log, fault0) then Stop(FileFault)
                      else if last.answer.Lost? then Retry else RefusalOrRetry(last.answer.status, plain))
  }

  /** The upload was committed, and the relay said so. */
  predicate Clinches(x: Exchange, id: nat) {
    x.request == Committing(id) && x.answer.Reply? && IsSuccess(x.answer.status)
  }

  /** The answer says where to go on from: another offset than the bytes were sent at, or
      after a commit an offset short of the end. */
  predicate Continues(x: Exchange, len: nat) {
    && x.answer.Reply? && x.answer.offset.Some?
    && match x.request
       case Asking(_) => IsSuccess(x.answer.status)
       case Appending(_, offset, _) => (IsSuccess(x.answer.status) || x.answer.status == 409) && x.answer.offset.value != offset
       case Committing(_) => x.answer.status == 409 && x.answer.offset.value < len
       case _ => false
  }

  /** And what is asked next from there: the next segment, or the commit. */
  function Called(at: nat, id: nat, l: Layout): Request
    requires l.Valid()
  {
    if at < l.Len() then Appending(id, at, l.StreamBytes(at, Min(at + SEGMENT_BYTES, l.Len())).0) else Committing(id)
  }

  ghost predicate CalledFor(x: Exchange, y: Exchange, id: nat, l: Layout)
    requires l.Valid()
  {
    Continues(x, l.Len()) && y.request == Called(x.answer.offset.value, id, l)
  }

  /** Each request is the one the answer before it called for, the first one for the status. */
  ghost predicate InTurn(log: seq<Exchange>, id: nat, l: Layout)
    requires l.Valid()
  {
    && |log| > 0 && log[0].request == Asking(id)
    && forall k, j :: 0 <= k && j == k + 1 < |log| ==> CalledFor(log[k], log[j], id, l)
  }

  lemma InTurnSnoc(log: seq<Exchange>, x: Exchange, id: nat, l: Layout)
    requires l.Valid() && InTurn(log, id, l) && Continues(log[|log| - 1], l.Len())
    requires x.request == Called(log[|log| - 1].answer.offset.value, id, l)
    ensures InTurn(log + [x], id, l)
  {
    assert CalledFor(log[|log| - 1], x, id, l);
    hide CalledFor;
    var all := log + [x];
    forall k, j | 0 <= k && j == k + 1 < |all| ensures CalledFor(all[k], all[j], id, l) {
      if j < |log| { assert CalledFor(log[k], log[j], id, l); }
    }
  }

  lemma GoesOnFrom(x: Exchange, len: nat)
    requires x.request.Appending?
    ensures Continues(x, len) <==>
      && x.answer.Reply? && x.answer.offset.Some? && x.answer.offset.value != x.request.offset
      && (IsSuccess(x.answer.status) || x.answer.status == 409)
  {
  }

  lemma FirstInTurn(x: Exchange, id: nat, l: Layout)
    requires l.Valid() && x.request == Asking(id)
    ensures InTurn([x], id, l)
  {
  }

  lemma LogSnoc(log: seq<Exchange>, x: Exchange)
    ensures Advanced(log + [x]) <==> Advanced(log) || Advances(x)
    ensures Pulled(log + [x]) <==> Pulled(log) || x.pulled
    ensures (log + [x])[|log|] == x
  {
    assert x in log + [x];
    forall y | y in log ensures y in log + [x] {}
  }

  /** The session is ready, and the answer says where it stands. */
  ghost predicate Stands(relay: Relay, id: nat, a: Answer)
    reads relay
  {
    && id in relay.sessions && relay.Ready(id, relay.sessions[id].file)
    && a == Reply(204, Some(|relay.sessions[id].file|), 0)
  }

  lemma SegmentSize(l: Layout, at: nat, to: nat)
    requires Uploadable(l) && at <= |l.Whole()| && at < to <= l.Len()
    ensures l.StreamBytes(at, to).1 <==> to > |l.Whole()|
    ensures !l.StreamBytes(at, to).1 ==> |l.StreamBytes(at, to).0| == to - at
    ensures |l.Whole()| == l.Len() <==> l.Complete()
  {
    StreamIsRange(l, at, to);
    WholeLen(l);
  }

  lemma DeclaredLength(v: View, id: nat, l: Layout)
    requires l.Valid() && v.Sound() && Resumes(v, id, l)
    ensures id in v.sessions ==> v.sessions[id].length == l.Len()
  {
    if id in v.sessions { assert v.SessionSound(id); }
  }

  /** One segment, from where the relay stands to the end of the container or as far as a
      request goes. */
  method SendSegment(relay: Relay, id: nat, layout: Layout, at: nat) returns (sent: Answer, pulled: bool)
    requires Uploadable(layout) && at <= |layout.Whole()| && at < layout.Len()
    requires relay.Now().Sound() && Resumes(relay.Now(), id, layout)
    modifies relay
    ensures relay.Now().Sound() && old(relay.Now()).Then(relay.Now(), id)
    ensures var body := layout.StreamBytes(at, Min(at + SEGMENT_BYTES, layout.Len())).0;
      relay.log == old(relay.log) + [Exchange(Appending(id, at, body), sent, pulled)]
    ensures sent.Reply? && sent.offset.Some? ==> id in relay.sessions && sent.offset.value == |relay.sessions[id].file|
    ensures pulled ==> !layout.Complete()
    ensures relay.steady && old(id in relay.sessions && relay.Ready(id, relay.sessions[id].file) && |relay.sessions[id].file| == at) ==>
      (!layout.Complete() && sent.Lost? && pulled) || (Stands(relay, id, sent) && sent.offset.value > at)
  {
    hide View.Sound, View.Then, Layout.Whole, Layout.StreamBytes, Flatten;
    var to := Min(at + SEGMENT_BYTES, layout.Len());
    SegmentBelongs(layout, at, to);
    var pieces, broken := Stream(layout, at, to);
    SegmentSize(layout, at, to);
    DeclaredLength(relay.Now(), id, layout);
    sent, pulled := relay.Append(id, at, Flatten(pieces), broken);
  }

  lemma NoExchanges()
    ensures !Advanced([]) && !Pulled([])
  {
  }

  /** Where the loops of a drive stand, besides `Standing`: what they know is what the
      record says, and a steady relay is where they think. */
  ghost predicate OnRecord(relay: Relay, id: nat, l: Layout, start: seq<Exchange>, mine: seq<Exchange>,
                           at: nat, progressed: bool, fault0: bool, fault: bool)
    requires l.Valid()
    reads relay
  {
    && relay.log == start + mine && InTurn(mine, id, l) && |mine| > 0 && Continues(mine[|mine| - 1], l.Len())
    && at == mine[|mine| - 1].answer.offset.value
    && (progressed <==> Advanced(mine)) && (fault <==> fault0 || Pulled(mine)) && (fault ==> !l.Complete())
    && (relay.steady ==> id in relay.sessions && relay.Ready(id, relay.sessions[id].file) && |relay.sessions[id].file| == at)
  }

  /** What a drive from `v` leaves when it ends: what it is tied to in the record, and what
      it means for the relay and the file. */
  ghost predicate Ended(w: View, v: View, id: nat, l: Layout, fault0: bool, end: DriveEnd, fault: bool, mine: seq<Exchange>)
    requires l.Valid()
  {
    && Gained(v, w, id, end.Interrupted? && end.progressed) && EndsAs(end, mine, id, l.size, fault0)
    && InTurn(mine, id, l) && (end.Killed? <==> Continues(mine[|mine| - 1], l.Len()))
    && (end.Committed? ==> l.Complete() && end.claim in w.blobs && w.blobs[end.claim] == l.Whole())
    && (fault || (end.Interrupted? && end.step == Stop(FileFault)) ==> !l.Complete())
    && (fault <==> (fault0 || Pulled(mine)) && !(end.Interrupted? && end.step == Stop(FileFault)))
  }

  /** A drive is broken off, or killed. */
  lemma Breaks(w: View, v: View, id: nat, l: Layout, fault0: bool, step: Step, progressed: bool, fault: bool, mine: seq<Exchange>)
    requires l.Valid() && Gained(v, w, id, progressed)
    requires InTurn(mine, id, l) && |mine| > 0 && !Clinches(mine[|mine| - 1], id)
    requires (progressed <==> Advanced(mine)) && (fault <==> fault0 || Pulled(mine)) && (fault ==> !l.Complete())
    ensures Continues(mine[|mine| - 1], l.Len()) ==> Ended(w, v, id, l, fault0, Killed, fault, mine)
    ensures !Continues(mine[|mine| - 1], l.Len()) ==>
      var a := mine[|mine| - 1].answer;
      && ((if a.Lost? then step.Retry? && (mine[|mine| - 1].request.Appending? ==> !fault)
           else step == RefusalOrRetry(a.status, l.size)) ==>
            Ended(w, v, id, l, fault0, Interrupted(step, progressed), fault, mine))
      && (a.Lost? && mine[|mine| - 1].request.Appending? && fault ==>
            Ended(w, v, id, l, fault0, Interrupted(Stop(FileFault), progressed), false, mine))
  {
    hide View.Sound, View.Then, View.Lacking, Refusal, Advanced, Pulled, Layout.Whole, InTurn, Continues;
  }

  /** How a drive ends that nothing gets in the way of. */
  ghost predicate Succeeds(end: DriveEnd, l: Layout) {
    if l.Complete() then end.Committed? else end.Interrupted? && end.step == Stop(FileFault)
  }

  lemma ClinchGains(v: View, w: View, id: nat, progressed: bool)
    requires Gained(v, w, id, progressed)
    ensures Gained(v, w, id, false)
  {
  }

  /** One turn of the inner loop: a segment, and what its answer calls for. */
  method Feed(relay: Relay, s: UploadSession, layout: Layout, fault0: bool, at0: nat, progressed0: bool, fault1: bool,
              ghost v: View, ghost start: seq<Exchange>, ghost mine0: seq<Exchange>)
    returns (end: Option<DriveEnd>, at: nat, progressed: bool, fault: bool, ghost mine: seq<Exchange>)
    requires Uploadable(layout) && at0 < s.length == layout.Len()
    requires Standing(v, relay.Now(), s.id, layout, at0, progressed0)
    requires OnRecord(relay, s.id, layout, start, mine0, at0, progressed0, fault0, fault1)
    modifies relay
    ensures relay.log == start + mine && mine0 <= mine
    ensures end.None? ==> Standing(v, relay.Now(), s.id, layout, at, progressed)
    ensures end.None? ==> OnRecord(relay, s.id, layout, start, mine, at, progressed, fault0, fault)
    ensures end.None? ==> relay.cutbacks < old(relay.cutbacks) || (relay.cutbacks == old(relay.cutbacks) && at0 < at)
    ensures end.Some? ==> Ended(relay.Now(), v, s.id, layout, fault0, end.value, fault, mine)
    ensures end.Some? && relay.steady ==> Succeeds(end.value, layout)
  {
    hide View.Sound, View.Then, View.Lacking, Standing, Layout.Len, Layout.Whole, Layout.StreamBytes;
    hide Refusal, RefusalOrRetry, Relay.Ready, Advanced, Pulled, InTurn;
    at, progressed, fault, mine := at0, progressed0, fault1, mine0;
    ghost var w := relay.Now();
    StandingAims(v, w, s.id, layout, at, progressed);
    DriveGains(v, w, w, s.id, layout, at, progressed);
    Breaks(w, v, s.id, layout, fault0, Retry, progressed, fault, mine);
    hide Ended, Gained, EndsAs, Continues;
    var dies: bool := *;
    if dies && !relay.steady { return Some(Killed), at, progressed, fault, mine; }
    var sent, pulled := SendSegment(relay, s.id, layout, at);
    fault := fault || pulled;
    ghost var x := relay.log[|relay.log| - 1];
    LogSnoc(mine, x);
    GoesOnFrom(x, layout.Len());
    InTurnSnoc(mine, x, s.id, layout);
    mine := mine + [x];
    DriveGains(v, w, relay.Now(), s.id, layout, at, progressed);
    if sent.Lost? {
      Breaks(relay.Now(), v, s.id, layout, fault0, Retry, progressed, fault, mine);
      return Some(Interrupted(if fault then Stop(FileFault) else Retry, progressed)), at, progressed, false, mine;
    }
    if IsSuccess(sent.status) || sent.status == 409 {
      if sent.offset.None? || sent.offset.value == at {
        Breaks(relay.Now(), v, s.id, layout, fault0, Retry, progressed, fault, mine);
        return Some(Interrupted(Retry, progressed)), at, progressed, fault, mine;
      }
      AnswerStands(v, w, relay.Now(), s.id, layout, at, progressed, sent.offset.value);
      if sent.offset.value > at {
        progressed := true;
      }
      return None, sent.offset.value, progressed, fault, mine;
    }
    if sent.offset.Some? && sent.offset.value > at {
      AnswerStands(v, w, relay.Now(), s.id, layout, at, progressed, sent.offset.value);
      progressed := true;
      at := sent.offset.value;
      DriveGains(v, relay.Now(), relay.Now(), s.id, layout, at, progressed);
    }
    var step := RefusalOrRetry(sent.status, layout.size);
    Breaks(relay.Now(), v, s.id, layout, fault0, step, progressed, fault, mine);
    return Some(Interrupted(step, progressed)), at, progressed, fault, mine;
  }

  /** The commit at the end of the outer loop, likewise. */
  method Finish(relay: Relay, s: UploadSession, layout: Layout, fault0: bool, at0: nat, progressed: bool, fault: bool,
                ghost v: View, ghost start: seq<Exchange>, ghost mine0: seq<Exchange>)
    returns (end: Option<DriveEnd>, at: nat, ghost mine: seq<Exchange>)
    requires Uploadable(layout) && s.length == layout.Len() <= at0
    requires Standing(v, relay.Now(), s.id, layout, at0, progressed)
    requires OnRecord(relay, s.id, layout, start, mine0, at0, progressed, fault0, fault)
    modifies relay
    ensures relay.log == start + mine && mine0 <= mine
    ensures end.None? ==> Standing(v, relay.Now(), s.id, layout, at, progressed)
    ensures end.None? ==> OnRecord(relay, s.id, layout, start, mine, at, progressed, fault0, fault)
    ensures end.None? ==> relay.cutbacks < old(relay.cutbacks)
    ensures end.Some? ==> Ended(relay.Now(), v, s.id, layout, fault0, end.value, fault, mine)
    ensures end.Some? && relay.steady ==> Succeeds(end.value, layout)
  {
    hide View.Sound, View.Then, View.Lacking, Standing, Layout.Len, Layout.Whole, Layout.StreamBytes;
    hide Refusal, RefusalOrRetry, Relay.Ready, Advanced, Pulled, InTurn;
    at, mine := at0, mine0;
    ghost var w := relay.Now();
    StandingAims(v, w, s.id, layout, at, progressed);
    DriveGains(v, w, w, s.id, layout, at, progressed);
    CommitIsDue(relay, s, layout, at, v, progressed);
    Breaks(w, v, s.id, layout, fault0, Retry, progressed, fault, mine);
    var dies: bool := *;
    if dies && !relay.steady { return Some(Killed), at, mine; }
    var done := relay.Commit(s.id);
    LogSnoc(mine, Exchange(Committing(s.id), done, false));
    InTurnSnoc(mine, Exchange(Committing(s.id), done, false), s.id, layout);
    mine := mine + [Exchange(Committing(s.id), done, false)];
    DriveGains(v, w, relay.Now(), s.id, layout, at, progressed);
    if done.Reply? && IsSuccess(done.status) {
      ClinchGains(v, relay.Now(), s.id, progressed);
      return Some(Committed(done.word)), at, mine;
    }
    var step := if done.Lost? then Retry else RefusalOrRetry(done.status, layout.size);
    Breaks(relay.Now(), v, s.id, layout, fault0, step, progressed, fault, mine);
    if done.Lost? {
      return Some(Interrupted(Retry, progressed)), at, mine;
    }
    if done.status == 409 {
      if done.offset.None? || done.offset.value >= s.length {
        return Some(Interrupted(Retry, progressed)), at, mine;
      }
      AnswerStands(v, w, relay.Now(), s.id, layout, at, progressed, done.offset.value);
      return None, done.offset.value, mine;
    }
    return Some(Interrupted(step, progressed)), at, mine;
  }

  /** Once everything is there the file was all there, and a commit is in order. */
  lemma CommitIsDue(relay: Relay, s: UploadSession, layout: Layout, at: nat, v: View, progressed: bool)
    requires Uploadable(layout) && s.length == layout.Len() <= at
    requires Standing(v, relay.Now(), s.id, layout, at, progressed)
    ensures layout.Complete()
    ensures s.id in relay.sessions && |relay.sessions[s.id].file| == at ==> |relay.sessions[s.id].file| == relay.sessions[s.id].length
  {
    ContainerLen(layout);
    if s.id in relay.sessions { assert relay.Now().SessionSound(s.id); }
  }

  /** The status a drive starts from. */
  method Ask(relay: Relay, s: UploadSession, layout: Layout, fault0: bool, ghost v: View)
    returns (end: Option<DriveEnd>, at: nat, ghost mine: seq<Exchange>)
    requires Uploadable(layout) && s.length == layout.Len() && v == relay.Now()
    requires relay.Now().Sound() && Resumes(relay.Now(), s.id, layout)
    requires fault0 ==> !layout.Complete()
    modifies relay
    ensures relay.log == old(relay.log) + mine && |mine| == 1 && mine[0].request == Asking(s.id)
    ensures end.None? ==> Standing(v, relay.Now(), s.id, layout, at, false)
    ensures end.None? ==> OnRecord(relay, s.id, layout, old(relay.log), mine, at, false, fault0, fault0)
    ensures end.Some? ==> Ended(relay.Now(), v, s.id, layout, fault0, end.value, fault0, mine)
    ensures relay.steady ==> end == if s.id in v.sessions then None else Some(Interrupted(Restart, false))
  {
    hide View.Sound, View.Then, View.Lacking, Standing, Layout.Len, Layout.Whole;
    hide Refusal, RefusalOrRetry, Relay.Ready, Advanced, Pulled, InTurn;
    ContainerLen(layout);
    NoExchanges();
    var answer := relay.Status(s.id);
    NothingSent(v, relay.Now(), s.id);
    LogSnoc([], Exchange(Asking(s.id), answer, false));
    FirstInTurn(Exchange(Asking(s.id), answer, false), s.id, layout);
    mine := [] + [Exchange(Asking(s.id), answer, false)];
    assert mine == [Exchange(Asking(s.id), answer, false)];
    var step := if answer.Lost? then Retry else RefusalOrRetry(answer.status, layout.size);
    Breaks(relay.Now(), v, s.id, layout, fault0, step, false, fault0, mine);
    hide Ended, Gained;
    if answer.Lost? {
      return Some(Interrupted(Retry, false)), 0, mine;
    }
    if !IsSuccess(answer.status) {
      return Some(Interrupted(step, false)), 0, mine;
    }
    if answer.offset.None? {
      return Some(Interrupted(Retry, false)), 0, mine;
    }
    StatusStands(v, relay.Now(), s.id, layout, answer.offset.value);
    return None, answer.offset.value, mine;
  }

  /** `fault` is the layout's: a read failure noted in one request, answered or not, is
      what the next dropped one is put down to, in this drive or a later one. */
  method Drive(relay: Relay, s: UploadSession, layout: Layout, fault0: bool) returns (end: DriveEnd, fault: bool)
    requires Uploadable(layout) && s.length == layout.Len()
    requires relay.Now().Sound() && Resumes(relay.Now(), s.id, layout)
    requires fault0 ==> !layout.Complete()
    modifies relay
    ensures old(relay.log) <= relay.log && |relay.log| > |old(relay.log)|
    ensures Ended(relay.Now(), old(relay.Now()), s.id, layout, fault0, end, fault, relay.log[|old(relay.log)|..])
    ensures relay.log[|old(relay.log)|].request == Asking(s.id)
    ensures relay.steady ==> if s.id in old(relay.sessions) then Succeeds(end, layout) else end == Interrupted(Restart, false)
  {
    hide View.Sound, View.Then, View.Lacking, Standing, Layout.Len, Layout.Whole, Layout.StreamBytes;
    hide Refusal, RefusalOrRetry, Relay.Ready, Advanced, Pulled, Ended, InTurn, Continues;
    ghost var v := relay.Now();
    ghost var start := relay.log;
    var progressed := false;
    fault := fault0;
    var over, at: nat, mine := Ask(relay, s, layout, fault0, v);
    if over.Some? {
      assert relay.log[|start|..] == mine;
      return over.value, fault;
    }
    while true
      invariant Standing(v, relay.Now(), s.id, layout, at, progressed)
      invariant OnRecord(relay, s.id, layout, start, mine, at, progressed, fault0, fault)
      invariant mine[0].request == Asking(s.id) && (relay.steady ==> s.id in v.sessions)
      decreases relay.cutbacks
    {
      ghost var cutbacksAtTop := relay.cutbacks;
      while at < s.length
        invariant Standing(v, relay.Now(), s.id, layout, at, progressed)
        invariant OnRecord(relay, s.id, layout, start, mine, at, progressed, fault0, fault)
        invariant mine[0].request == Asking(s.id)
        invariant relay.cutbacks <= cutbacksAtTop
        decreases relay.cutbacks, s.length - at
      {
        over, at, progressed, fault, mine := Feed(relay, s, layout, fault0, at, progressed, fault, v, start, mine);
        if over.Some? {
          assert relay.log[|start|..] == mine;
          return over.value, fault;
        }
      }
      over, at, mine := Finish(relay, s, layout, fault0, at, progressed, fault, v, start, mine);
      if over.Some? {
        assert relay.log[|start|..] == mine;
        return over.value, fault;
      }
    }
  }

  // ---- the whole upload ----------------------------------------------------------

  /** What one turn of the upload loop came to: opening a session, or a drive. */
  datatype Attempt =
    | Opened(id: nat)
    | OpenFailed
    | Broke(progressed: bool)
    | Forgot
    | Stopped(error: UploadError)
    | Finished(claim: nat)
    | Cut

  /** With the exchanges it took. */
  datatype Turn = Turn(asked: seq<Exchange>, came: Attempt)

  predicate GoesOn(a: Attempt) {
    a.Opened? || a.OpenFailed? || a.Broke? || a.Forgot?
  }

  /** The failures the quiet budget is charged with at the end of `log`: progress writes
      off those before it, and a lost session costs it nothing. */
  function Quiet(log: seq<Turn>): nat {
    if |log| == 0 then 0
    else
      var earlier := Quiet(log[..|log| - 1]);
      match log[|log| - 1].came
      case OpenFailed => earlier + 1
      case Broke(progressed) => if progressed then 1 else earlier + 1
      case _ => earlier
  }

  function Restarts(log: seq<Turn>): nat {
    if |log| == 0 then 0
    else Restarts(log[..|log| - 1]) + if log[|log| - 1].came.Forgot? then 1 else 0
  }

  /** Nothing up to the end of `log` called for an end: neither budget ran out. */
  ghost predicate Patient(log: seq<Turn>) {
    && (forall n | 0 <= n <= |log| :: Quiet(log[..n]) <= MAX_QUIET_RETRIES && Restarts(log[..n]) <= MAX_RESTARTS)
    && (forall t :: t in log ==> GoesOn(t.came))
  }

  /** The counters are the log's, and the log has not exhausted them. */
  ghost predicate Budget(log: seq<Turn>, quiet: nat, restarts: nat) {
    quiet == Quiet(log) <= MAX_QUIET_RETRIES && restarts == Restarts(log) <= MAX_RESTARTS && Patient(log)
  }

  /** The upload stopped at the first moment its failures called for it, and for
      the reason it gives. */
  ghost predicate GaveUp(log: seq<Turn>, why: Why) {
    && |log| > 0 && Patient(log[..|log| - 1]) && GoesOn(log[|log| - 1].came)
    && match why
       case Outage => Quiet(log) == MAX_QUIET_RETRIES + 1
       case KeepsLosingTheUpload => Restarts(log) == MAX_RESTARTS + 1
  }

  lemma Spend(log: seq<Turn>, t: Turn, quiet: nat, restarts: nat)
    requires Budget(log, quiet, restarts) && GoesOn(t.came)
    ensures
      var quiet' := if t.came.OpenFailed? then quiet + 1
                    else if t.came.Broke? then if t.came.progressed then 1 else quiet + 1
                    else quiet;
      var restarts' := if t.came.Forgot? then restarts + 1 else restarts;
      && (quiet' <= MAX_QUIET_RETRIES && restarts' <= MAX_RESTARTS ==> Budget(log + [t], quiet', restarts'))
      && (quiet' > MAX_QUIET_RETRIES ==> GaveUp(log + [t], Outage))
      && (restarts' > MAX_RESTARTS ==> GaveUp(log + [t], KeepsLosingTheUpload))
  {
    assert (log + [t])[..|log|] == log;
    if Quiet(log + [t]) <= MAX_QUIET_RETRIES && Restarts(log + [t]) <= MAX_RESTARTS {
      forall n | 0 <= n <= |log + [t]|
        ensures Quiet((log + [t])[..n]) <= MAX_QUIET_RETRIES && Restarts((log + [t])[..n]) <= MAX_RESTARTS
      {
        if n <= |log| {
          assert (log + [t])[..n] == log[..n];
        } else {
          assert (log + [t])[..n] == log + [t];
        }
      }
    }
  }

  // ---- and of the turns of the whole loop -------------------------------------------

  function Asked(log: seq<Turn>): seq<Exchange> {
    if |log| == 0 then [] else Asked(log[..|log| - 1]) + log[|log| - 1].asked
  }

  /** The session there is after these turns, `kept` being the one before them. */
  function SessionAfter(url: string, len: nat, kept: Option<UploadSession>, log: seq<Turn>): Option<UploadSession> {
    if |log| == 0 then kept
    else
      match log[|log| - 1].came
      case Opened(id) => Some(UploadSession(url, id, len))
      case Forgot => None
      case Finished(_) => None
      case _ => SessionAfter(url, len, kept, log[..|log| - 1])
  }

  /** What a turn came to is what its answers say. */
  ghost predicate CameAsTold(t: Turn, session: Option<UploadSession>, plain: nat, fault0: bool) {
    |t.asked| > 0 &&
    if session.None? then OpensAs(t, plain)
    else
      && t.asked[0].request == Asking(session.value.id)
      && match t.came
         case Broke(progressed) => EndsAs(Interrupted(Retry, progressed), t.asked, session.value.id, plain, fault0)
         case Forgot => EndsAs(Interrupted(Restart, Advanced(t.asked)), t.asked, session.value.id, plain, fault0)
         case Stopped(error) => EndsAs(Interrupted(Stop(error), Advanced(t.asked)), t.asked, session.value.id, plain, fault0)
         case Finished(claim) => EndsAs(Committed(claim), t.asked, session.value.id, plain, fault0)
         case Cut => EndsAs(Killed, t.asked, session.value.id, plain, fault0)
         case _ => false
  }

  /** A session opens on a success, and opening it stops on whatever is neither that nor
      transient. */
  ghost predicate OpensAs(t: Turn, plain: nat) {
    |t.asked| == 1 && t.asked[0].request == Opening
    && var a := t.asked[0].answer;
    if a.Lost? || Transient(a.status) then t.came == OpenFailed
    else if IsSuccess(a.status) then t.came == Opened(a.word)
    else t.came == Stopped(match a.status case 413 => TooLarge(plain) case 507 => Busy case 403 => LinksDisabled
                                          case _ => Refused(a.status))
  }

  /** And so for each turn, the session in use and the fault outstanding being those the
      turns before it left. */
  ghost predicate AsTold(log: seq<Turn>, url: string, len: nat, usable: Option<UploadSession>, plain: nat) {
    |log| == 0 ||
    (var front := log[..|log| - 1];
     AsTold(front, url, len, usable, plain)
     && CameAsTold(log[|log| - 1], SessionAfter(url, len, usable, front), plain, Pulled(Asked(front))))
  }

  lemma TurnSnoc(log: seq<Turn>, t: Turn, url: string, len: nat, kept: Option<UploadSession>)
    ensures Asked(log + [t]) == Asked(log) + t.asked
    ensures Pulled(Asked(log + [t])) <==> Pulled(Asked(log)) || Pulled(t.asked)
    ensures SessionAfter(url, len, kept, log + [t]) == Next(url, len, SessionAfter(url, len, kept, log), t)
  {
    assert (log + [t])[..|log|] == log;
  }

  /** The session after one more turn. */
  function Next(url: string, len: nat, session: Option<UploadSession>, t: Turn): Option<UploadSession> {
    match t.came
    case Opened(id) => Some(UploadSession(url, id, len))
    case Forgot => None
    case Finished(_) => None
    case _ => session
  }

  /** The requests there were are these turns', each came to what it was told, and they
      left this session on record. */
  ghost predicate Logged(all: seq<Exchange>, start: seq<Exchange>, log: seq<Turn>, url: string, l: Layout,
                         written: Option<UploadSession>, saved: Option<UploadSession>)
    requires l.Valid()
  {
    && all == start + Asked(log) && AsTold(log, url, l.Len(), Usable(url, l.Len(), written), l.size)
    && saved == SessionAfter(url, l.Len(), written, log)
  }

  /** And this one in use, and this fault outstanding. */
  ghost predicate Told(all: seq<Exchange>, start: seq<Exchange>, log: seq<Turn>, url: string, l: Layout,
                       written: Option<UploadSession>, saved: Option<UploadSession>,
                       session: Option<UploadSession>, fault: bool)
    requires l.Valid()
  {
    && Logged(all, start, log, url, l, written, saved) && (fault <==> Pulled(Asked(log)))
    && session == SessionAfter(url, l.Len(), Usable(url, l.Len(), written), log)
  }

  lemma ToldSnoc(all: seq<Exchange>, start: seq<Exchange>, log: seq<Turn>, url: string, l: Layout,
                 written: Option<UploadSession>, saved: Option<UploadSession>,
                 session: Option<UploadSession>, fault: bool, t: Turn)
    requires l.Valid() && Told(all, start, log, url, l, written, saved, session, fault)
    requires CameAsTold(t, session, l.size, fault)
    ensures var len := l.Len();
      && Logged(all + t.asked, start, log + [t], url, l, written, Next(url, len, saved, t))
      && Told(all + t.asked, start, log + [t], url, l, written, Next(url, len, saved, t),
              Next(url, len, session, t), fault || Pulled(t.asked))
  {
    hide CameAsTold, Usable;
    assert (log + [t])[..|log|] == log;
    TurnSnoc(log, t, url, l.Len(), Usable(url, l.Len(), written));
    TurnSnoc(log, t, url, l.Len(), written);
    AppendAssoc(start, Asked(log), t.asked);
  }

  lemma ExtendsSelf(v: View)
    ensures Extends(v, v)
  {
  }

  lemma LackingBound(v: View, id: nat, l: Layout)
    requires l.Valid() && v.Sound() && Resumes(v, id, l)
    ensures v.Lacking(id) <= l.Len()
  {
    if id in v.sessions { assert v.SessionSound(id); }
  }

  /** The sessions a caller may hand back: one this layout opened here, or one that
      `upload` will recognise as another's and ignore. */
  ghost predicate MayResume(v: View, url: string, session: Option<UploadSession>, l: Layout)
    requires l.Valid()
  {
    (session.Some? && session.value.relay == url && session.value.length == l.Len()) ==>
      Resumes(v, session.value.id, l)
  }

  lemma SessionKept(v: View, w: View, url: string, session: Option<UploadSession>, l: Layout)
    requires l.Valid() && MayResume(v, url, session, l) && (Extends(v, w) || v.aims == w.aims)
    ensures MayResume(w, url, session, l)
    ensures session.Some? && Resumes(v, session.value.id, l) ==> Resumes(w, session.value.id, l)
    ensures session.Some? && session.value.relay == url && session.value.length == l.Len()
        ==> Resumes(w, session.value.id, l)
  {
  }

  lemma SessionOpened(v: View, url: string, session: Option<UploadSession>, l: Layout)
    requires l.Valid() && session.Some? && Resumes(v, session.value.id, l)
    ensures MayResume(v, url, session, l)
  {
  }

  lemma NoSession(v: View, url: string, l: Layout)
    requires l.Valid()
    ensures MayResume(v, url, None, l)
  {
  }

  /** `open`: a new session, or what its refusal means. A 404 is no lost session here. */
  method OpenSession(relay: Relay, layout: Layout) returns (id: Option<nat>, step: Step)
    requires Uploadable(layout) && relay.Now().Sound()
    modifies relay
    ensures relay.Now().Sound() && relay.cutbacks == old(relay.cutbacks)
    ensures Extends(old(relay.Now()), relay.Now())
    ensures id.Some? ==> Resumes(relay.Now(), id.value, layout)
    ensures |relay.log| == |old(relay.log)| + 1 && old(relay.log) <= relay.log
    ensures OpensAs(TurnOfOpen(relay.log[|old(relay.log)|], id, step), layout.size) && !relay.log[|old(relay.log)|].pulled
    ensures id.None? ==> step.Retry? || (step.Stop? && !step.error.Unavailable? && !step.error.FileFault?)
    ensures relay.steady ==> id.Some? && id.value in relay.sessions
  {
    ContainerLen(layout);
    var answer := relay.Open(layout.Len(), layout.Whole());
    if answer.Lost? {
      return None, Retry;
    }
    if IsSuccess(answer.status) {
      return Some(answer.word), Retry;
    }
    var refused := Refusal(answer.status, layout.size);
    if refused.None? || refused.value.Restart? {
      return None, Stop(Refused(answer.status));
    }
    return None, refused.value;
  }

  function TurnOfOpen(x: Exchange, id: Option<nat>, step: Step): Turn {
    Turn([x], if id.Some? then Opened(id.value) else if step.Stop? then Stopped(step.error) else OpenFailed)
  }

  /** Without sessions the whole container goes in one body, once. */
  method SingleRequest(relay: Relay, layout: Layout) returns (claim: Option<nat>, error: UploadError)
    requires Uploadable(layout) && relay.Now().Sound()
    modifies relay
    ensures relay.Now().Sound() && relay.aims == old(relay.aims) && Extends(old(relay.Now()), relay.Now())
    ensures claim.Some? ==>
        layout.Complete() && claim.value in relay.blobs && relay.blobs[claim.value] == layout.Whole()
    ensures claim.None? && error.FileFault? ==> !layout.Complete()
    ensures |relay.log| == |old(relay.log)| + 1 && old(relay.log) <= relay.log
    ensures DepositsAs(claim, error, relay.log[|old(relay.log)|], layout)
    ensures relay.steady ==> if layout.Complete() then claim.Some? else claim.None? && error.FileFault?
  {
    ContainerLen(layout);
    StreamIsRange(layout, 0, layout.Len());
    var pieces, broken := Stream(layout, 0, layout.Len());
    var answer, pulled := relay.Deposit(Flatten(pieces), broken);
    if answer.Lost? {
      return None, if pulled then FileFault else Unavailable(Outage);
    }
    if IsSuccess(answer.status) {
      return Some(answer.word), Busy;
    }
    var refused := Refusal(answer.status, layout.size);
    if refused.Some? && refused.value.Stop? {
      return None, refused.value.error;
    }
    return None, Unavailable(Outage);
  }

  /** The one request carries all there is, a success gives its claim, and the error is
      what the answer calls for. */
  ghost predicate DepositsAs(claim: Option<nat>, error: UploadError, x: Exchange, l: Layout)
    requires l.Valid()
  {
    && x.request == Depositing(l.StreamBytes(0, l.Len()).0)
    && (claim.Some? <==> x.answer.Reply? && IsSuccess(x.answer.status))
    && (claim.Some? ==> claim.value == x.answer.word)
    && (claim.None? ==>
          error == if x.answer.Lost? then if x.pulled then FileFault else Unavailable(Outage)
                   else match x.answer.status
                        case 413 => TooLarge(l.size) case 507 => Busy case 403 => LinksDisabled
                        case _ => Unavailable(Outage))
  }

  datatype UploadEnd = Deposited(claim: nat) | Failed(error: UploadError) | Died

  /** The saved session where this upload can use it. */
  function Usable(url: string, len: nat, session: Option<UploadSession>): Option<UploadSession> {
    if session.Some? && session.value.relay == url && session.value.length == len then session else None
  }

  /** How an upload over sessions may end, by what its turns came to. */
  ghost predicate Accounted(end: UploadEnd, log: seq<Turn>) {
    |log| > 0 && Patient(log[..|log| - 1])
    && var last := log[|log| - 1].came;
    match end
    case Deposited(claim) => last == Finished(claim)
    case Failed(error) => if error.Unavailable? then GaveUp(log, error.why) else last == Stopped(error)
    case Died => last.Cut?
  }

  /** And where nothing lets the client down it is through, unless the file itself falls
      short. */
  ghost predicate Through(end: UploadEnd, l: Layout) {
    if l.Complete() then end.Deposited? else end == Failed(FileFault)
  }

  /** `upload`. `saved` is the session as the caller last wrote it down, also when
      the process dies; `log` is the history the retry budget was spent on. */
  method Run(relay: Relay, url: string, layout: Layout, session: Option<UploadSession>, resumable: bool)
    returns (end: UploadEnd, saved: Option<UploadSession>, ghost log: seq<Turn>)
    requires Uploadable(layout) && relay.Now().Sound()
    requires MayResume(relay.Now(), url, session, layout)
    modifies relay
    ensures relay.Now().Sound() && MayResume(relay.Now(), url, saved, layout)
    ensures Extends(old(relay.Now()), relay.Now())
    ensures end.Deposited? ==>
        layout.Complete() && end.claim in relay.blobs && relay.blobs[end.claim] == layout.Whole()
    ensures end == Failed(FileFault) ==> !layout.Complete()
    ensures resumable ==> Recorded(relay.log, old(relay.log), url, layout, session, end, saved, log)
    ensures !resumable ==> saved == session && |relay.log| == |old(relay.log)| + 1
    ensures !resumable ==>
      (end.Deposited? || end.Failed?) && DepositsAs(if end.Deposited? then Some(end.claim) else None, if end.Failed? then end.error else Busy,
                    relay.log[|old(relay.log)|], layout)
    ensures relay.steady ==> Through(end, layout)
  {
    hide View.Sound, Layout.Len, Layout.Whole, Layout.StreamBytes;
    if resumable {
      end, saved, log := Resume(relay, url, layout, session);
    } else {
      var claim, error := SingleRequest(relay, layout);
      end := if claim.Some? then Deposited(claim.value) else Failed(error);
      saved, log := session, [];
    }
  }

  /** The requests of an upload are its turns', each came to what its answers say, and the
      upload ended, and left the session, as they call for. */
  ghost predicate Recorded(all: seq<Exchange>, start: seq<Exchange>, url: string, l: Layout, written: Option<UploadSession>,
                           end: UploadEnd, saved: Option<UploadSession>, log: seq<Turn>)
    requires l.Valid()
  {
    Logged(all, start, log, url, l, written, saved) && Accounted(end, log)
  }

  lemma {:induction false} FirstTurn(log: seq<Turn>, url: string, len: nat, usable: Option<UploadSession>, plain: nat)
    requires |log| > 0 && AsTold(log, url, len, usable, plain)
    ensures |Asked(log)| > 0
    ensures Asked(log)[0].request == if usable.Some? then Asking(usable.value.id) else Opening
  {
    hide EndsAs;
    if |log| > 1 { FirstTurn(log[..|log| - 1], url, len, usable, plain); }
  }

  /** A session on record is asked after first if it is of this relay and length, and is
      left alone otherwise; once the upload is through none is on record. */
  lemma TakesUpTheRecord(all: seq<Exchange>, start: seq<Exchange>, url: string, l: Layout, written: Option<UploadSession>,
                         end: UploadEnd, saved: Option<UploadSession>, log: seq<Turn>)
    requires l.Valid() && Recorded(all, start, url, l, written, end, saved, log)
    ensures |all| > |start|
    ensures all[|start|].request ==
            if written.Some? && written.value.relay == url && written.value.length == l.Len()
            then Asking(written.value.id) else Opening
    ensures end.Deposited? ==> saved.None?
  {
    hide AsTold, Patient, GaveUp;
    FirstTurn(log, url, l.Len(), Usable(url, l.Len(), written), l.size);
  }

  /** The same upload taken up again, from what was last written down, by as many
      processes as it takes or there are: whichever of them sees it through has
      deposited exactly the container. */
  method RunUntilSettled(relay: Relay, url: string, layout: Layout, session: Option<UploadSession>, processes: nat)
    returns (end: UploadEnd, saved: Option<UploadSession>)
    requires Uploadable(layout) && relay.Now().Sound()
    requires MayResume(relay.Now(), url, session, layout)
    modifies relay
    ensures relay.Now().Sound() && MayResume(relay.Now(), url, saved, layout)
    ensures Extends(old(relay.Now()), relay.Now())
    ensures end.Deposited? ==>
        layout.Complete() && end.claim in relay.blobs && relay.blobs[end.claim] == layout.Whole()
    ensures end == Failed(FileFault) ==> !layout.Complete()
    ensures relay.steady && processes > 0 ==> Through(end, layout)
  {
    hide View.Sound, Layout.Len, Layout.Whole, MayResume, Recorded;
    end, saved := Died, session;
    ghost var v := relay.Now();
    ExtendsSelf(v);
    var n := 0;
    while n < processes && end.Died?
      invariant relay.Now().Sound() && MayResume(relay.Now(), url, saved, layout)
      invariant Extends(v, relay.Now())
      invariant end.Deposited? ==>
          layout.Complete() && end.claim in relay.blobs && relay.blobs[end.claim] == layout.Whole()
      invariant end == Failed(FileFault) ==> !layout.Complete()
      invariant (n == 0 ==> end.Died?) && (relay.steady && n > 0 ==> Through(end, layout))
    {
      ghost var w := relay.Now();
      ghost var log;
      end, saved, log := Run(relay, url, layout, saved, true);
      ExtendsTrans(v, w, relay.Now(), 0);
      n := n + 1;
    }
  }

  /** What a drive came to. */
  function CameTo(end: DriveEnd): Attempt {
    match end
    case Committed(claim) => Finished(claim)
    case Killed => Cut
    case Interrupted(Retry, progressed) => Broke(progressed)
    case Interrupted(Restart, _) => Forgot
    case Interrupted(Stop(error), _) => Stopped(error)
  }

  lemma DriveTold(w: View, v: View, session: UploadSession, l: Layout, fault0: bool, end: DriveEnd, fault: bool, mine: seq<Exchange>)
    requires l.Valid() && Ended(w, v, session.id, l, fault0, end, fault, mine)
    requires |mine| > 0 && mine[0].request == Asking(session.id)
    ensures CameAsTold(Turn(mine, CameTo(end)), Some(session), l.size, fault0)
    ensures end.Interrupted? && end.step.Stop? ==> !end.step.error.Unavailable?
    ensures end.Interrupted? && !end.step.Stop? ==> (fault <==> fault0 || Pulled(mine))
    ensures end.Committed? ==> l.Complete() && end.claim in w.blobs && w.blobs[end.claim] == l.Whole()
    ensures fault || (end.Interrupted? && end.step == Stop(FileFault)) ==> !l.Complete()
    ensures Gained(v, w, session.id, end.Interrupted? && end.progressed)
  {
    hide View.Sound, View.Then, View.Lacking, Advanced, Pulled, Layout.Whole;
  }

  /** The head of the loop of `upload`, its counters apart. */
  ghost predicate Looping(w: View, all: seq<Exchange>, v: View, start: seq<Exchange>, url: string, l: Layout, written: Option<UploadSession>,
                          saved: Option<UploadSession>, session: Option<UploadSession>, fault: bool, log: seq<Turn>)
    requires l.Valid()
  {
    && w.Sound() && Extends(v, w) && MayResume(w, url, saved, l)
    && (session.Some? ==> saved == session && session.value.length == l.Len() && Resumes(w, session.value.id, l))
    && (fault ==> !l.Complete()) && Told(all, start, log, url, l, written, saved, session, fault)
  }

  /** The upload has ended. */
  ghost predicate Concludes(w: View, all: seq<Exchange>, v: View, start: seq<Exchange>, url: string, l: Layout, written: Option<UploadSession>,
                            end: UploadEnd, saved: Option<UploadSession>, log: seq<Turn>)
    requires l.Valid()
  {
    && w.Sound() && Extends(v, w) && MayResume(w, url, saved, l)
    && (end.Deposited? ==> l.Complete() && end.claim in w.blobs && w.blobs[end.claim] == l.Whole())
    && (end == Failed(FileFault) ==> !l.Complete())
    && Recorded(all, start, url, l, written, end, saved, log)
  }

  /** What a turn that ends it ends it as. */
  function EndOf(came: Attempt): UploadEnd
    requires !GoesOn(came)
  {
    match came
    case Finished(claim) => Deposited(claim)
    case Stopped(error) => Failed(error)
    case Cut => Died
  }

  /** A budget ran out, or opening a session was refused for good. */
  lemma Fails(w: View, all: seq<Exchange>, v: View, start: seq<Exchange>, url: string, l: Layout, written: Option<UploadSession>,
              saved: Option<UploadSession>, session: Option<UploadSession>, fault: bool, log: seq<Turn>, t: Turn, error: UploadError)
    requires l.Valid() && Looping(w, all, v, start, url, l, written, saved, session, fault, log + [t]) && !error.FileFault?
    requires if error.Unavailable? then GaveUp(log + [t], error.why) else t.came == Stopped(error) && Patient(log)
    ensures Concludes(w, all, v, start, url, l, written, Failed(error), saved, log + [t])
  {
    EndsAt(log, t);
    hide Patient, AsTold, View.Sound, Extends, MayResume;
    assert (log + [t])[..|log|] == log;
  }

  /** With the counters; a steady relay loses the session at most the once it was lost
      before. */
  ghost predicate Head(w: View, all: seq<Exchange>, v: View, start: seq<Exchange>, url: string, l: Layout, written: Option<UploadSession>,
                       saved: Option<UploadSession>, session: Option<UploadSession>, fault: bool, log: seq<Turn>,
                       quiet: nat, restarts: nat, steady: bool)
    requires l.Valid()
  {
    && Looping(w, all, v, start, url, l, written, saved, session, fault, log) && Budget(log, quiet, restarts)
    && (steady ==> quiet == 0 && restarts <= 1)
    && (steady && session.Some? && restarts == 1 ==> session.value.id in w.sessions)
  }

  /** The turn that opens a session. */
  method OpenTurn(relay: Relay, url: string, layout: Layout, saved0: Option<UploadSession>, fault: bool, quiet0: nat, restarts: nat,
                  ghost v: View, ghost start: seq<Exchange>, ghost written: Option<UploadSession>, ghost log0: seq<Turn>)
    returns (end: Option<UploadEnd>, session: Option<UploadSession>, quiet: nat, ghost log: seq<Turn>)
    requires Uploadable(layout)
    requires Head(relay.Now(), relay.log, v, start, url, layout, written, saved0, None, fault, log0, quiet0, restarts, relay.steady)
    modifies relay
    ensures var saved := if session.Some? then session else saved0;
      if end.Some? then Concludes(relay.Now(), relay.log, v, start, url, layout, written, end.value, saved, log)
      else Head(relay.Now(), relay.log, v, start, url, layout, written, saved, session, fault, log, quiet, restarts, relay.steady)
    ensures relay.cutbacks == old(relay.cutbacks)
    ensures session.None? && end.None? ==> quiet == quiet0 + 1
    ensures relay.steady ==> session.Some? && end.None? && session.value.id in relay.sessions
  {
    hide View.Sound, View.Then, View.Lacking, Layout.Len, Layout.Whole, Extends, Resumes, MayResume;
    hide Told, CameAsTold, OpensAs, Pulled, Budget, Patient, Concludes, GaveUp;
    ghost var w, soFar := relay.Now(), relay.log;
    BudgetIsPatient(log0, quiet0, restarts);
    var id, step := OpenSession(relay, layout);
    ExtendsTrans(v, w, relay.Now(), 0);
    SessionKept(w, relay.Now(), url, saved0, layout);
    ghost var t := TurnOfOpen(relay.log[|soFar|], id, step);
    OpenTold(t, layout.size, fault);
    assert relay.log == soFar + t.asked;
    ToldSnoc(soFar, start, log0, url, layout, written, saved0, None, fault, t);
    log := log0 + [t];
    quiet, session := quiet0, None;
    Spend2(log0, t, quiet0, restarts);
    if id.Some? {
      session := Some(UploadSession(url, id.value, layout.Len()));
      SessionOpened(relay.Now(), url, session, layout);
      return None, session, quiet, log;
    }
    if step.Stop? {
      Fails(relay.Now(), relay.log, v, start, url, layout, written, saved0, None, fault, log0, t, step.error);
      return Some(Failed(step.error)), None, quiet, log;
    }
    quiet := quiet + 1;
    if quiet > MAX_QUIET_RETRIES {
      Fails(relay.Now(), relay.log, v, start, url, layout, written, saved0, None, fault, log0, t, Unavailable(Outage));
      return Some(Failed(Unavailable(Outage))), None, quiet, log;
    }
    return None, None, quiet, log;
  }

  lemma Spend2(log: seq<Turn>, t: Turn, quiet: nat, restarts: nat)
    requires Budget(log, quiet, restarts)
    ensures quiet <= MAX_QUIET_RETRIES && restarts <= MAX_RESTARTS
    ensures t.came.Opened? ==> Budget(log + [t], quiet, restarts)
    ensures t.came.OpenFailed? ==>
      if quiet < MAX_QUIET_RETRIES then Budget(log + [t], quiet + 1, restarts) else GaveUp(log + [t], Outage)
    ensures t.came.Broke? ==>
      var n := if t.came.progressed then 1 else quiet + 1;
      if n <= MAX_QUIET_RETRIES then Budget(log + [t], n, restarts) else GaveUp(log + [t], Outage)
    ensures t.came.Forgot? ==>
      if restarts < MAX_RESTARTS then Budget(log + [t], quiet, restarts + 1) else GaveUp(log + [t], KeepsLosingTheUpload)
  {
    if GoesOn(t.came) { Spend(log, t, quiet, restarts); }
  }

  /** The turn that drives one. */
  method DriveTurn(relay: Relay, url: string, layout: Layout, session0: UploadSession, fault0: bool, quiet0: nat, restarts0: nat,
                   ghost v: View, ghost start: seq<Exchange>, ghost written: Option<UploadSession>, ghost log0: seq<Turn>)
    returns (end: Option<UploadEnd>, session: Option<UploadSession>, fault: bool, quiet: nat, restarts: nat, ghost log: seq<Turn>)
    requires Uploadable(layout)
    requires Head(relay.Now(), relay.log, v, start, url, layout, written, Some(session0), Some(session0), fault0, log0, quiet0, restarts0, relay.steady)
    modifies relay
    ensures if end.Some? then Concludes(relay.Now(), relay.log, v, start, url, layout, written, end.value, session, log)
            else Head(relay.Now(), relay.log, v, start, url, layout, written, session, session, fault, log, quiet, restarts, relay.steady)
    ensures end.None? ==>
      restarts > restarts0
      || (restarts == restarts0 && session == Some(session0) && Nearer(old(relay.Now()), relay.Now(), session0.id, quiet0, quiet))
    ensures relay.steady && end.Some? ==> Through(end.value, layout)
  {
    hide View.Sound, View.Then, View.Lacking, Layout.Len, Layout.Whole, Extends, Resumes, MayResume;
    hide Told, CameAsTold, Pulled, Ended, Logged, EndsAs, Patient, Accounted, SessionAfter, Budget, GaveUp, Concludes;
    ghost var w, soFar := relay.Now(), relay.log;
    BudgetIsPatient(log0, quiet0, restarts0);
    var outcome;
    outcome, fault := Drive(relay, session0, layout, fault0);
    ghost var t := Turn(relay.log[|soFar|..], CameTo(outcome));
    DriveTold(relay.Now(), w, session0, layout, fault0, outcome, fault, t.asked);
    assert relay.log == soFar + t.asked;
    ToldSnoc(soFar, start, log0, url, layout, written, Some(session0), Some(session0), fault0, t);
    ExtendsTrans(v, w, relay.Now(), session0.id);
    SessionKept(w, relay.Now(), url, Some(session0), layout);
    NoSession(relay.Now(), url, layout);
    Spend2(log0, t, quiet0, restarts0);
    log, session, quiet, restarts := log0 + [t], Some(session0), quiet0, restarts0;
    match outcome {
      case Committed(claim) =>
        session := None;
        DriveConcludes(relay.Now(), relay.log, v, start, url, layout, written, session, log0, t);
        return Some(Deposited(claim)), session, fault, quiet, restarts, log;
      case Killed =>
        DriveConcludes(relay.Now(), relay.log, v, start, url, layout, written, session, log0, t);
        return Some(Died), session, fault, quiet, restarts, log;
      case Interrupted(Retry, progressed) =>
        if progressed {
          quiet := 0;
        }
        quiet := quiet + 1;
        if quiet > MAX_QUIET_RETRIES {
          Fails(relay.Now(), relay.log, v, start, url, layout, written, session, session, fault, log0, t, Unavailable(Outage));
          return Some(Failed(Unavailable(Outage))), session, fault, quiet, restarts, log;
        }
      case Interrupted(Restart, _) =>
        restarts := restarts + 1;
        session := None;
        if restarts > MAX_RESTARTS {
          Fails(relay.Now(), relay.log, v, start, url, layout, written, None, None, fault, log0, t, Unavailable(KeepsLosingTheUpload));
          return Some(Failed(Unavailable(KeepsLosingTheUpload))), session, fault, quiet, restarts, log;
        }
      case Interrupted(Stop(error), _) =>
        DriveConcludes(relay.Now(), relay.log, v, start, url, layout, written, session, log0, t);
        return Some(Failed(error)), session, fault, quiet, restarts, log;
    }
    return None, session, fault, quiet, restarts, log;
  }

  lemma DriveConcludes(w: View, all: seq<Exchange>, v: View, start: seq<Exchange>, url: string, l: Layout, written: Option<UploadSession>,
                       saved: Option<UploadSession>, log: seq<Turn>, t: Turn)
    requires l.Valid() && w.Sound() && Extends(v, w) && MayResume(w, url, saved, l)
    requires Patient(log) && !GoesOn(t.came) && (t.came.Stopped? ==> !t.came.error.Unavailable?)
    requires Logged(all, start, log + [t], url, l, written, saved)
    requires t.came.Finished? ==> l.Complete() && t.came.claim in w.blobs && w.blobs[t.came.claim] == l.Whole()
    requires t.came == Stopped(FileFault) ==> !l.Complete()
    ensures Concludes(w, all, v, start, url, l, written, EndOf(t.came), saved, log + [t])
  {
    hide View.Sound, Extends, MayResume, Logged, Patient, Layout.Whole;
    EndsAt(log, t);
  }

  /** Less is lacking, or as much and one more failure is charged, unless the relay has cut
      the session back. */
  ghost predicate Nearer(v: View, w: View, id: nat, quiet0: nat, quiet: nat) {
    w.cutbacks < v.cutbacks
    || (w.cutbacks == v.cutbacks
        && (w.Lacking(id) < v.Lacking(id) || (w.Lacking(id) == v.Lacking(id) && quiet > quiet0)))
  }

  /** The loop of `upload`: `written` is what the caller has on record. */
  method Resume(relay: Relay, url: string, layout: Layout, written: Option<UploadSession>)
    returns (end: UploadEnd, saved: Option<UploadSession>, ghost log: seq<Turn>)
    requires Uploadable(layout) && relay.Now().Sound()
    requires MayResume(relay.Now(), url, written, layout)
    modifies relay
    ensures Concludes(relay.Now(), relay.log, old(relay.Now()), old(relay.log), url, layout, written, end, saved, log)
    ensures relay.steady ==> Through(end, layout)
  {
    ghost var v := relay.Now();
    ghost var start := relay.log;
    saved, log := written, [];
    var session := Usable(url, layout.Len(), written);
    var quietFailures, restarts, fault := 0, 0, false;
    NothingSpent();
    LoopStarts(v, start, url, layout, written);
    hide View.Sound, View.Then, View.Lacking, Layout.Len, Layout.Whole, Extends, Resumes, MayResume, Concludes;
    hide Quiet, Restarts, Patient, Budget, GaveUp, Told, Usable;
    while true
      invariant Head(relay.Now(), relay.log, v, start, url, layout, written, saved, session, fault, log,
                     quietFailures, restarts, relay.steady)
      decreases MAX_RESTARTS - restarts, relay.cutbacks,
                if session.None? then layout.Len() + 1 else relay.Now().Lacking(session.value.id),
                MAX_QUIET_RETRIES - quietFailures
    {
      var over;
      BudgetBounds(log, quietFailures, restarts);
      if session.None? {
        over, session, quietFailures, log := OpenTurn(relay, url, layout, saved, fault, quietFailures, restarts, v, start, written, log);
        if session.Some? { saved := session; }
        if over.Some? { return over.value, saved, log; }
        BudgetBounds(log, quietFailures, restarts);
        if session.None? { continue; }
      }
      LackingBound(relay.Now(), session.value.id, layout);
      over, session, fault, quietFailures, restarts, log :=
        DriveTurn(relay, url, layout, session.value, fault, quietFailures, restarts, v, start, written, log);
      saved := session;
      if over.Some? { return over.value, saved, log; }
      BudgetBounds(log, quietFailures, restarts);
    }
  }

  lemma BudgetBounds(log: seq<Turn>, quiet: nat, restarts: nat)
    requires Budget(log, quiet, restarts)
    ensures quiet <= MAX_QUIET_RETRIES && restarts <= MAX_RESTARTS
  {
  }

  /** A turn after which there is nothing to be weighed. */
  lemma EndsAt(log: seq<Turn>, t: Turn)
    requires Patient(log)
    ensures t.came.Finished? ==> Accounted(Deposited(t.came.claim), log + [t])
    ensures t.came.Cut? ==> Accounted(Died, log + [t])
    ensures t.came.Stopped? && !t.came.error.Unavailable? ==> Accounted(Failed(t.came.error), log + [t])
  {
    hide Patient;
    assert (log + [t])[..|log|] == log;
  }

  lemma OpenTold(t: Turn, plain: nat, fault: bool)
    requires OpensAs(t, plain) && !t.asked[0].pulled
    ensures CameAsTold(t, None, plain, fault) && !Pulled(t.asked)
  {
  }

  lemma LoopStarts(v: View, start: seq<Exchange>, url: string, l: Layout, written: Option<UploadSession>)
    requires l.Valid() && v.Sound() && MayResume(v, url, written, l)
    ensures Looping(v, start, v, start, url, l, written, written, Usable(url, l.Len(), written), false, [])
  {
    NothingTold(start, url, l, written);
  }

  lemma NothingTold(start: seq<Exchange>, url: string, l: Layout, written: Option<UploadSession>)
    requires l.Valid()
    ensures Told(start, start, [], url, l, written, written, Usable(url, l.Len(), written), false)
  {
    assert start + Asked([]) == start;
  }

  lemma NothingSpent()
    ensures Budget([], 0, 0)
  {
  }

  lemma BudgetIsPatient(log: seq<Turn>, quiet: nat, restarts: nat)
    requires Budget(log, quiet, restarts)
    ensures Patient(log)
  {
  }
}
