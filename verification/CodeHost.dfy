/** The counters that retire a pairing code (core/src/code.rs, `CodeHost::run`): how far
    they can be trusted across any number of runs, crashes included. */
module CodeHost {
  import opened Bytes

  datatype HostState = HostState(sessionsDone: nat, failures: nat)

  datatype HostOpts = HostOpts(maxSessions: Option<nat>, maxFailures: nat)

  datatype CloseReason = MaxSessions | TooManyFailures | Expired | Taken | Cancelled

  /** How one `answer` ended. An error may mean that the relay stored the sealed ticket and
      only its answer to that was lost. A crash may come after the receiver was told, and
      before the count was written down. */
  datatype Outcome =
    | Paired
    | BadCode
    | Refused               // rejected or abandoned
    | Errored               // and no ticket was stored
    | AnswerLost
    | CrashedUnanswered
    | CrashedPaired
    | CrashedBadCode

  /** One listed session: whether the caller has cancelled by then, and what its answer
      will come to if it gets one. */
  datatype Visit = Visit(cancelled: bool, sid: nat, outcome: Outcome)

  datatype Poll = Pending(visits: seq<Visit>) | Gone(reason: CloseReason) | Unreachable

  /** One turn of the outer loop: whether the caller has cancelled, at its head or
      during the poll, and what the poll brings. */
  datatype Turn = Turn(cancelled: bool, cancelledWaiting: bool, poll: Poll)

  /** The start of an answer: the counters in memory, the counters last saved. */
  datatype Asked = Asked(memory: HostState, saved: HostState, outcome: Outcome)

  datatype Ending = Going | Closed(reason: CloseReason) | Failed | Crashed

  datatype Progress = Progress(memory: HostState, saved: HostState, trace: seq<Asked>, ending: Ending)

  predicate Served(opts: HostOpts, state: HostState) {
    opts.maxSessions.Some? && state.sessionsDone >= opts.maxSessions.value
  }

  predicate Burnt(opts: HostOpts, state: HostState) {
    state.failures >= opts.maxFailures
  }

  /** `on_state` after a counted outcome. */
  function Counted(state: HostState, outcome: Outcome): HostState {
    match outcome
    case Paired => state.(sessionsDone := state.sessionsDone + 1)
    case BadCode => state.(failures := state.failures + 1)
    case _ => state
  }

  const CRASHES := {CrashedUnanswered, CrashedPaired, CrashedBadCode}

  /** The receiver's ticket is on the relay, for it to collect. */
  const HANDED_OVER := {Paired, AnswerLost, CrashedPaired}

  /** The receiver was told that its code is wrong. */
  const TOLD_WRONG := {BadCode, CrashedBadCode}

  predicate IsCrash(outcome: Outcome) {
    outcome in CRASHES
  }

  // ---- what a run does -------------------------------------------------------------

  /** The sessions of one listing, answered one at a time. */
  function Visits(opts: HostOpts, p: Progress, visits: seq<Visit>): Progress
    decreases |visits|
  {
    if |visits| == 0 then p
    else
      var v := visits[0];
      if v.cancelled then p.(ending := Closed(Cancelled))
      else if Burnt(opts, p.memory) || Served(opts, p.memory) then p
      else
        var q := p.(trace := p.trace + [Asked(p.memory, p.saved, v.outcome)]);
        if IsCrash(v.outcome) then q.(ending := Crashed)
        else if v.outcome.Paired? || v.outcome.BadCode? then
          Visits(opts, q.(memory := Counted(p.memory, v.outcome), saved := Counted(p.memory, v.outcome)), visits[1..])
        else Visits(opts, q, visits[1..])
  }

  /** A run, for as many turns as it lasts. */
  function Turns(opts: HostOpts, p: Progress, turns: seq<Turn>): Progress
    decreases |turns|
  {
    if |turns| == 0 then p
    else
      var t := turns[0];
      if t.cancelled then p.(ending := Closed(Cancelled))
      else if Served(opts, p.memory) then p.(ending := Closed(MaxSessions))
      else if Burnt(opts, p.memory) then p.(ending := Closed(TooManyFailures))
      else if t.cancelledWaiting then p.(ending := Closed(Cancelled))
      else
        match t.poll
        case Unreachable => p.(ending := Failed)
        case Gone(reason) => p.(ending := Closed(reason))
        case Pending(visits) =>
          var q := Visits(opts, p, visits);
          if q.ending.Going? then Turns(opts, q, turns[1..]) else q
  }

  function Fresh(state: HostState): Progress {
    Progress(state, state, [], Going)
  }

  /** One call of `run` from a saved state; running out of turns is being killed. */
  function RunFrom(opts: HostOpts, state: HostState, turns: seq<Turn>): Progress {
    Turns(opts, Fresh(state), turns)
  }

  // ---- what one run keeps ---------------------------------------------------------------

  /** An answer starts only within both limits, with every earlier count on disk. */
  predicate Safe(opts: HostOpts, a: Asked) {
    a.memory == a.saved && !Burnt(opts, a.memory) && !Served(opts, a.memory)
  }

  /** How many answers ended in one of these ways. */
  function Tally(trace: seq<Asked>, ways: set<Outcome>): nat {
    if |trace| == 0 then 0
    else Tally(trace[..|trace| - 1], ways) + if trace[|trace| - 1].outcome in ways then 1 else 0
  }

  lemma TallySnoc(trace: seq<Asked>, a: Asked, ways: set<Outcome>)
    ensures Tally(trace + [a], ways) == Tally(trace, ways) + if a.outcome in ways then 1 else 0
  {
    assert (trace + [a])[..|trace|] == trace;
  }

  lemma {:induction false} TallyJoin(s: seq<Asked>, t: seq<Asked>, ways: set<Outcome>)
    ensures Tally(s + t, ways) == Tally(s, ways) + Tally(t, ways)
  {
    if |t| == 0 {
      assert s + t == s;
    } else {
      var front, last := t[..|t| - 1], t[|t| - 1];
      TallyJoin(s, front, ways);
      assert s + t == (s + front) + [last] && t == front + [last];
      TallySnoc(s + front, last, ways);
    }
  }

  lemma {:induction false} TallySplit(trace: seq<Asked>, a: set<Outcome>, b: set<Outcome>)
    requires a !! b
    ensures Tally(trace, a + b) == Tally(trace, a) + Tally(trace, b)
  {
    if |trace| > 0 { TallySplit(trace[..|trace| - 1], a, b); }
  }

  lemma {:induction false} TallyNone(trace: seq<Asked>, ways: set<Outcome>)
    ensures Tally(trace, ways) == 0 <==> forall a :: a in trace ==> a.outcome !in ways
  {
    if |trace| > 0 {
      TallyNone(trace[..|trace| - 1], ways);
      assert trace == trace[..|trace| - 1] + [trace[|trace| - 1]];
    }
  }

  /** Where a run stands after any number of steps from `start`. */
  ghost predicate InStep(opts: HostOpts, start: HostState, p: Progress) {
    && p.memory == p.saved
    && (forall a :: a in p.trace ==> Safe(opts, a))
    && p.saved.failures == start.failures + Tally(p.trace, {BadCode})
    && p.saved.sessionsDone == start.sessionsDone + Tally(p.trace, {Paired})
    && p.saved.failures <= Max(start.failures, opts.maxFailures)
    && (opts.maxSessions.Some? ==> p.saved.sessionsDone <= Max(start.sessionsDone, opts.maxSessions.value))
    && Tally(p.trace, CRASHES) == (if p.ending.Crashed? then 1 else 0)
  }

  lemma {:induction false} VisitsKeep(opts: HostOpts, start: HostState, p: Progress, visits: seq<Visit>)
    requires InStep(opts, start, p) && p.ending.Going?
    ensures InStep(opts, start, Visits(opts, p, visits))
    decreases |visits|
  {
    hide Tally;
    if |visits| > 0 && !visits[0].cancelled && !Burnt(opts, p.memory) && !Served(opts, p.memory) {
      var v := visits[0];
      var a := Asked(p.memory, p.saved, v.outcome);
      TallySnoc(p.trace, a, {BadCode});
      TallySnoc(p.trace, a, {Paired});
      TallySnoc(p.trace, a, CRASHES);
      var q := p.(trace := p.trace + [a]);
      if IsCrash(v.outcome) {
      } else if v.outcome.Paired? || v.outcome.BadCode? {
        VisitsKeep(opts, start, q.(memory := Counted(p.memory, v.outcome), saved := Counted(p.memory, v.outcome)), visits[1..]);
      } else {
        VisitsKeep(opts, start, q, visits[1..]);
      }
    }
  }

  lemma {:induction false} TurnsKeep(opts: HostOpts, start: HostState, p: Progress, turns: seq<Turn>)
    requires InStep(opts, start, p) && p.ending.Going?
    ensures InStep(opts, start, Turns(opts, p, turns))
    decreases |turns|
  {
    if |turns| > 0 && turns[0].poll.Pending? {
      VisitsKeep(opts, start, p, turns[0].poll.visits);
      var q := Visits(opts, p, turns[0].poll.visits);
      if q.ending.Going? { TurnsKeep(opts, start, q, turns[1..]); }
    }
  }

  /** One run, whatever happens in it: counts are on disk before the next answer, limits
      hold at every answer, and only its last can be one that crashed. */
  lemma OneRun(opts: HostOpts, start: HostState, turns: seq<Turn>)
    ensures InStep(opts, start, RunFrom(opts, start, turns))
  {
    TurnsKeep(opts, start, Fresh(start), turns);
  }

  lemma {:induction false} ClosesOver(opts: HostOpts, p: Progress, turns: seq<Turn>)
    requires p.ending.Going?
    ensures var e := Turns(opts, p, turns);
      && (e.ending == Closed(MaxSessions) ==> Served(opts, e.memory) || GoneFor(turns, MaxSessions))
      && (e.ending == Closed(TooManyFailures) ==> Burnt(opts, e.memory) || GoneFor(turns, TooManyFailures))
    decreases |turns|
  {
    if |turns| > 0 && turns[0].poll.Pending? {
      var q := Visits(opts, p, turns[0].poll.visits);
      VisitsEnding(opts, p, turns[0].poll.visits);
      if q.ending.Going? {
        ClosesOver(opts, q, turns[1..]);
      }
    }
  }

  lemma {:induction false} VisitsEnding(opts: HostOpts, p: Progress, visits: seq<Visit>)
    requires p.ending.Going?
    ensures var e := Visits(opts, p, visits).ending; e.Going? || e.Crashed? || e == Closed(Cancelled)
    decreases |visits|
  {
    if |visits| > 0 && !visits[0].cancelled && !Burnt(opts, p.memory) && !Served(opts, p.memory) {
      var v := visits[0];
      var q := p.(trace := p.trace + [Asked(p.memory, p.saved, v.outcome)]);
      if !IsCrash(v.outcome) {
        if v.outcome.Paired? || v.outcome.BadCode? {
          VisitsEnding(opts, q.(memory := Counted(p.memory, v.outcome), saved := Counted(p.memory, v.outcome)), visits[1..]);
        } else {
          VisitsEnding(opts, q, visits[1..]);
        }
      }
    }
  }

  /** How a run ends is decided where it stands when it does: the caller's cancelling first,
      then the session limit, then the failure limit, and then what the poll brought. */
  lemma {:induction false} EndsOn(opts: HostOpts, p: Progress, before: seq<Turn>, t: Turn, after: seq<Turn>)
    requires p.ending.Going? && Turns(opts, p, before).ending.Going?
    ensures var q := Turns(opts, p, before);
      var e := Turns(opts, p, before + [t] + after);
      && (t.cancelled ==> e == q.(ending := Closed(Cancelled)))
      && (!t.cancelled && Served(opts, q.memory) ==> e == q.(ending := Closed(MaxSessions)))
      && (!t.cancelled && !Served(opts, q.memory) && Burnt(opts, q.memory) ==> e == q.(ending := Closed(TooManyFailures)))
      && (!t.cancelled && !Served(opts, q.memory) && !Burnt(opts, q.memory) && t.cancelledWaiting ==>
            e == q.(ending := Closed(Cancelled)))
      && (!t.cancelled && !Served(opts, q.memory) && !Burnt(opts, q.memory) && !t.cancelledWaiting && t.poll.Gone? ==>
            e == q.(ending := Closed(t.poll.reason)))
      && (!t.cancelled && !Served(opts, q.memory) && !Burnt(opts, q.memory) && !t.cancelledWaiting && t.poll.Unreachable? ==>
            e == q.(ending := Failed))
    decreases |before|
  {
    var turns := before + [t] + after;
    if |before| == 0 {
      assert turns[0] == t;
    } else {
      assert turns[0] == before[0] && turns[1..] == before[1..] + [t] + after;
      if before[0].poll.Pending? {
        EndsOn(opts, Visits(opts, p, before[0].poll.visits), before[1..], t, after);
      }
    }
  }

  /** Every session listed is answered, in order, unless a limit is reached, the caller
      cancels or the process dies: no refusal, error or wrong code of one keeps the others
      waiting. */
  lemma {:induction false} AllAnswered(opts: HostOpts, p: Progress, visits: seq<Visit>)
    requires p.ending.Going?
    ensures var q := Visits(opts, p, visits);
      q.ending.Going? && !Burnt(opts, q.memory) && !Served(opts, q.memory) ==>
        && |q.trace| == |p.trace| + |visits| && q.trace[..|p.trace|] == p.trace
        && forall k :: 0 <= k < |visits| ==> q.trace[|p.trace| + k].outcome == visits[k].outcome
    decreases |visits|
  {
    if |visits| > 0 && !visits[0].cancelled && !Burnt(opts, p.memory) && !Served(opts, p.memory) {
      var v := visits[0];
      var a := Asked(p.memory, p.saved, v.outcome);
      var q := p.(trace := p.trace + [a]);
      if !IsCrash(v.outcome) {
        var next := if v.outcome.Paired? || v.outcome.BadCode?
                    then q.(memory := Counted(p.memory, v.outcome), saved := Counted(p.memory, v.outcome)) else q;
        AllAnswered(opts, next, visits[1..]);
        var end := Visits(opts, next, visits[1..]);
        if end.ending.Going? && !Burnt(opts, end.memory) && !Served(opts, end.memory) {
          assert end.trace[..|p.trace|] == end.trace[..|q.trace|][..|p.trace|] == p.trace;
          assert end.trace[|p.trace|] == end.trace[..|q.trace|][|p.trace|] == a;
          forall k | 0 <= k < |visits| ensures end.trace[|p.trace| + k].outcome == visits[k].outcome {
            if k > 0 { assert visits[k] == visits[1..][k - 1]; }
          }
        }
      }
    }
  }

  /** A listing is broken off only by the caller or by a crash, at the session it happened
      to: what was cancelled was not answered, what crashed was the last. */
  lemma {:induction false} BrokenOffOnlyBy(opts: HostOpts, p: Progress, visits: seq<Visit>)
    requires p.ending.Going? && !Visits(opts, p, visits).ending.Going?
    ensures var q := Visits(opts, p, visits);
      && (q.ending == Closed(Cancelled) ==> exists v :: v in visits && v.cancelled)
      && (q.ending.Crashed? ==> |q.trace| > 0 && IsCrash(q.trace[|q.trace| - 1].outcome))
      && (q.ending == Closed(Cancelled) || q.ending.Crashed?)
    decreases |visits|
  {
    var v := visits[0];
    if !v.cancelled && !Burnt(opts, p.memory) && !Served(opts, p.memory) && !IsCrash(v.outcome) {
      var q := p.(trace := p.trace + [Asked(p.memory, p.saved, v.outcome)]);
      var next := if v.outcome.Paired? || v.outcome.BadCode?
                  then q.(memory := Counted(p.memory, v.outcome), saved := Counted(p.memory, v.outcome)) else q;
      BrokenOffOnlyBy(opts, next, visits[1..]);
    }
  }

  /** The relay itself said so. */
  predicate GoneFor(turns: seq<Turn>, reason: CloseReason) {
    exists t :: t in turns && t.poll == Gone(reason)
  }

  // ---- any number of runs ----------------------------------------------------------------

  /** Runs one after another, each from the state saved last: where the counters end,
      and every answer there was. */
  function Lifetime(opts: HostOpts, state: HostState, runs: seq<seq<Turn>>): (HostState, seq<Asked>) {
    if |runs| == 0 then (state, [])
    else
      var (before, trace) := Lifetime(opts, state, runs[..|runs| - 1]);
      var last := RunFrom(opts, before, runs[|runs| - 1]);
      (last.saved, trace + last.trace)
  }

  /** Over the life of a code no answer starts past a limit, and neither counter passes
      its own. The receivers told "wrong code" are those counted, and one more for a crash
      at the wrong moment. Those handed the payload are those counted, one more for such a
      crash, and one more for each ticket that was stored and not acknowledged. */
  lemma {:induction false} LimitsHoldOverLifetime(opts: HostOpts, state: HostState, runs: seq<seq<Turn>>)
    ensures var (saved, trace) := Lifetime(opts, state, runs);
      && (forall a :: a in trace ==> Safe(opts, a))
      && Tally(trace, {CrashedBadCode}) + Tally(trace, {CrashedPaired}) <= Tally(trace, CRASHES) <= |runs|
      && state.failures <= saved.failures <= Max(state.failures, opts.maxFailures)
      && Tally(trace, TOLD_WRONG) == (saved.failures - state.failures) + Tally(trace, {CrashedBadCode})
      && state.sessionsDone <= saved.sessionsDone
      && (opts.maxSessions.Some? ==> saved.sessionsDone <= Max(state.sessionsDone, opts.maxSessions.value))
      && Tally(trace, HANDED_OVER)
         == (saved.sessionsDone - state.sessionsDone) + Tally(trace, {CrashedPaired}) + Tally(trace, {AnswerLost})
  {
    if |runs| > 0 {
      var (before, trace) := Lifetime(opts, state, runs[..|runs| - 1]);
      LimitsHoldOverLifetime(opts, state, runs[..|runs| - 1]);
      var last := RunFrom(opts, before, runs[|runs| - 1]);
      OneRun(opts, before, runs[|runs| - 1]);
      HandedAndTold(last.trace);
      TallyJoin(trace, last.trace, CRASHES);
      TallyJoin(trace, last.trace, TOLD_WRONG);
      TallyJoin(trace, last.trace, HANDED_OVER);
      TallyJoin(trace, last.trace, {CrashedBadCode});
      TallyJoin(trace, last.trace, {CrashedPaired});
      TallyJoin(trace, last.trace, {AnswerLost});
      hide RunFrom, Tally;
    }
  }

  lemma HandedAndTold(trace: seq<Asked>)
    ensures Tally(trace, TOLD_WRONG) == Tally(trace, {BadCode}) + Tally(trace, {CrashedBadCode})
    ensures Tally(trace, HANDED_OVER) == Tally(trace, {Paired}) + Tally(trace, {CrashedPaired}) + Tally(trace, {AnswerLost})
    ensures Tally(trace, {CrashedBadCode}) + Tally(trace, {CrashedPaired}) <= Tally(trace, CRASHES)
  {
    TallySplit(trace, {CrashedBadCode}, {CrashedPaired});
    TallySplit(trace, {CrashedBadCode, CrashedPaired}, {CrashedUnanswered});
    assert {CrashedBadCode, CrashedPaired} == {CrashedBadCode} + {CrashedPaired};
    assert CRASHES == {CrashedBadCode, CrashedPaired} + {CrashedUnanswered};
    TallySplit(trace, {BadCode}, {CrashedBadCode});
    TallySplit(trace, {Paired}, {CrashedPaired});
    TallySplit(trace, {Paired, CrashedPaired}, {AnswerLost});
    assert TOLD_WRONG == {BadCode} + {CrashedBadCode};
    assert {Paired, CrashedPaired} == {Paired} + {CrashedPaired};
    assert HANDED_OVER == {Paired, CrashedPaired} + {AnswerLost};
  }

  /** So every payload handed over is counted, and the limit is one on receivers, exactly
      when no crash and no loss falls between storing a ticket and counting it. */
  lemma AllCountedIff(opts: HostOpts, state: HostState, runs: seq<seq<Turn>>)
    ensures var (saved, trace) := Lifetime(opts, state, runs);
      Tally(trace, HANDED_OVER) == saved.sessionsDone - state.sessionsDone
      <==> forall a :: a in trace ==> !a.outcome.CrashedPaired? && !a.outcome.AnswerLost?
  {
    LimitsHoldOverLifetime(opts, state, runs);
    var (saved, trace) := Lifetime(opts, state, runs);
    TallyNone(trace, {CrashedPaired});
    TallyNone(trace, {AnswerLost});
  }

  /** And the limit bounds the receivers by nothing else: with one to be served, any number
      is, in one run and without a crash. */
  lemma LostAnswersServeMore(n: nat, maxFailures: nat)
    requires maxFailures > 0
    ensures var opts := HostOpts(Some(1), maxFailures);
      var (saved, trace) := Lifetime(opts, HostState(0, 0), [[Turn(false, false, Pending(Losing(n)))]]);
      saved.sessionsDone == 1 && Tally(trace, HANDED_OVER) == n + 1 && Tally(trace, CRASHES) == 0
  {
    var opts := HostOpts(Some(1), maxFailures);
    var turn := Turn(false, false, Pending(Losing(n)));
    Loses(opts, n, Fresh(HostState(0, 0)));
    var end := Visits(opts, Fresh(HostState(0, 0)), Losing(n));
    assert [turn][1..] == [] && Turns(opts, end, []) == end;
    assert RunFrom(opts, HostState(0, 0), [turn]) == end;
    assert [[turn]][..0] == [];
    assert [] + end.trace == end.trace;
  }

  /** `n` receivers whose ticket is stored and not acknowledged, and one that is paired. */
  function Losing(n: nat): seq<Visit> {
    if n == 0 then [Visit(false, 0, Paired)] else [Visit(false, n, AnswerLost)] + Losing(n - 1)
  }

  lemma {:induction false} Loses(opts: HostOpts, n: nat, p: Progress)
    requires p.ending.Going? && p.memory == HostState(0, 0) && opts.maxSessions == Some(1) && opts.maxFailures > 0
    ensures var e := Visits(opts, p, Losing(n));
      && e.ending.Going? && e.saved.sessionsDone == 1
      && Tally(e.trace, HANDED_OVER) == Tally(p.trace, HANDED_OVER) + n + 1
      && Tally(e.trace, CRASHES) == Tally(p.trace, CRASHES)
  {
    var v := Losing(n)[0];
    var a := Asked(p.memory, p.saved, v.outcome);
    TallySnoc(p.trace, a, HANDED_OVER);
    TallySnoc(p.trace, a, CRASHES);
    hide Tally;
    var q := p.(trace := p.trace + [a]);
    assert Losing(n)[1..] == if n == 0 then [] else Losing(n - 1);
    if n > 0 { Loses(opts, n - 1, q); }
  }

  // ---- the loops ----------------------------------------------------------------------------

  /** What the caller keeps: the state it was last given. */
  class Ledger {
    var saved: HostState

    constructor (state: HostState)
      ensures saved == state
    {
      saved := state;
    }

    method OnState(state: HostState)
      modifies this
      ensures saved == state
    {
      saved := state;
    }
  }

  method Run(opts: HostOpts, state0: HostState, ledger: Ledger, turns: seq<Turn>)
    returns (ending: Ending, state: HostState, ghost trace: seq<Asked>)
    requires ledger.saved == state0
    modifies ledger
    ensures Progress(state, ledger.saved, trace, ending) == RunFrom(opts, state0, turns)
  {
    state, trace := state0, [];
    var i := 0;
    while i < |turns|
      invariant 0 <= i <= |turns|
      invariant RunFrom(opts, state0, turns) == Turns(opts, Progress(state, ledger.saved, trace, Going), turns[i..])
    {
      var turn := turns[i];
      assert turns[i..][0] == turn && turns[i..][1..] == turns[i + 1..];
      if turn.cancelled { return Closed(Cancelled), state, trace; }
      if opts.maxSessions.Some? {
        if state.sessionsDone >= opts.maxSessions.value { return Closed(MaxSessions), state, trace; }
      }
      if state.failures >= opts.maxFailures { return Closed(TooManyFailures), state, trace; }
      if turn.cancelledWaiting { return Closed(Cancelled), state, trace; }
      match turn.poll {
        case Unreachable => return Failed, state, trace;
        case Gone(reason) => return Closed(reason), state, trace;
        case Pending(visits) =>
          ending, state, trace := AnswerAll(opts, state, ledger, visits, trace);
          if !ending.Going? { return; }
      }
      i := i + 1;
    }
    ending := Going;
  }

  /** The loop over one listing. */
  method AnswerAll(opts: HostOpts, state0: HostState, ledger: Ledger, visits: seq<Visit>, ghost trace0: seq<Asked>)
    returns (ending: Ending, state: HostState, ghost trace: seq<Asked>)
    modifies ledger
    ensures Progress(state, ledger.saved, trace, ending)
         == Visits(opts, Progress(state0, old(ledger.saved), trace0, Going), visits)
  {
    state, trace := state0, trace0;
    ghost var all := Visits(opts, Progress(state0, ledger.saved, trace0, Going), visits);
    var i := 0;
    while i < |visits|
      invariant 0 <= i <= |visits|
      invariant all == Visits(opts, Progress(state, ledger.saved, trace, Going), visits[i..])
    {
      var v := visits[i];
      assert visits[i..][0] == v && visits[i..][1..] == visits[i + 1..];
      if v.cancelled { return Closed(Cancelled), state, trace; }
      if state.failures >= opts.maxFailures { break; }
      if opts.maxSessions.Some? {
        if state.sessionsDone >= opts.maxSessions.value { break; }
      }
      trace := trace + [Asked(state, ledger.saved, v.outcome)];
      match v.outcome {
        case Paired =>
          state := state.(sessionsDone := state.sessionsDone + 1);
          ledger.OnState(state);
        case BadCode =>
          state := state.(failures := state.failures + 1);
          ledger.OnState(state);
        case Refused =>
        case Errored =>
        case AnswerLost =>
        case _ => return Crashed, state, trace;
      }
      i := i + 1;
    }
    ending := Going;
  }
}
