/** A relay's resumable upload sessions, as the client meets them: the handlers of
    relay/src/http/upload.rs behind a network that may lose a request, its answer,
    or the connection half-way through a body. Every `if *` and `:|` is a choice
    the network, a proxy, another process or the relay's own failures may make. */
module UploadRelay {
  import opened Bytes

  /** `file` is what is on disk; while a request is `busy` appending, `pending` is
      what it may still write. A committed session remembers its claim. */
  datatype Session = Session(length: nat, file: seq<byte>, pending: seq<byte>, busy: bool, claim: Option<nat>)

  /** What our client opened a session for: the container, and the declared length. */
  datatype Aim = Aim(container: seq<byte>, length: nat)

  /** `word` is the body of a success: an upload id or a claim. */
  datatype Answer = Lost | Reply(status: nat, offset: Option<nat>, word: nat)

  predicate IsSuccess(status: nat) {
    200 <= status < 300
  }

  /** What the client asks, and of which session. */
  datatype Request =
    | Opening
    | Asking(id: nat)
    | Appending(id: nat, offset: nat, body: seq<byte>)
    | Committing(id: nat)
    | Depositing(body: seq<byte>)

  /** A request as it went: the answer, and whether the client's body was read up to a
      failure of the file. */
  datatype Exchange = Exchange(request: Request, answer: Answer, pulled: bool)

  /** The relay's state at one instant. `blobs` is what each claim was issued for; whether
      that deposit has been fetched, revoked or has expired since is not said. */
  datatype View = View(
    sessions: map<nat, Session>,
    blobs: map<nat, seq<byte>>,
    aims: map<nat, Aim>,
    cutbacks: nat,
    nextId: nat)
  {
    ghost predicate SessionSound(id: nat)
      requires id in sessions && id in aims
    {
      var s := sessions[id];
      && s.length == aims[id].length && |s.file| <= s.length
      && s.file + s.pending <= aims[id].container
      && (!s.busy ==> s.pending == [])
      && (s.claim.Some? ==> !s.busy && s.claim.value in blobs
                            && s.file == blobs[s.claim.value] && |s.file| == s.length)
    }

    /** Every session of ours holds a prefix of its container, in flight included. */
    ghost predicate Sound() {
      && (forall id :: id in sessions ==> id < nextId)
      && (forall id :: id in aims ==> id < nextId && |aims[id].container| <= aims[id].length)
      && (forall c :: c in blobs ==> c < nextId)
      && (forall id :: id in sessions && id in aims ==> SessionSound(id))
    }

    /** Bytes the relay still lacks of session `id`. */
    function Lacking(id: nat): nat {
      if id in sessions && |sessions[id].file| <= sessions[id].length
      then sessions[id].length - |sessions[id].file| else 0
    }

    /** `w` is a later state, in which only session `id` has moved: its file has
        grown unless the relay cut it back, and nothing stored has changed. */
    ghost predicate Then(w: View, id: nat) {
      && w.aims == aims && w.cutbacks <= cutbacks && w.nextId >= nextId
      && (forall c :: c in blobs ==> c in w.blobs && w.blobs[c] == blobs[c])
      && (forall o :: o != id ==> (o in w.sessions <==> o in sessions))
      && (forall o :: o != id && o in sessions ==> w.sessions[o] == sessions[o])
      && (id in w.sessions ==> id in sessions && w.sessions[id].length == sessions[id].length)
      && (id in w.sessions && w.cutbacks == cutbacks ==> sessions[id].file <= w.sessions[id].file)
    }
  }

  /** Nothing stored and nothing opened has been lost track of. */
  ghost predicate Extends(v: View, w: View) {
    && (forall c :: c in v.blobs ==> c in w.blobs && w.blobs[c] == v.blobs[c])
    && (forall id :: id in v.aims ==> id in w.aims && w.aims[id] == v.aims[id])
  }

  lemma ExtendsTrans(u: View, v: View, w: View, id: nat)
    requires Extends(u, v) && (Extends(v, w) || v.Then(w, id))
    ensures Extends(u, w)
  {
  }

  lemma ThenTrans(u: View, v: View, w: View, id: nat)
    requires u.Then(v, id) && v.Then(w, id)
    ensures u.Then(w, id)
  {
  }

  /** Moving one session, soundly, is a sound step. */
  lemma Moved(v: View, w: View, id: nat)
    requires v.Sound() && id in v.sessions && id in w.sessions
    requires w.sessions == v.sessions[id := w.sessions[id]] && w.aims == v.aims
    requires w.cutbacks <= v.cutbacks && w.nextId >= v.nextId
    requires forall c :: c in v.blobs ==> c in w.blobs && w.blobs[c] == v.blobs[c]
    requires forall c :: c in w.blobs ==> c < w.nextId
    requires w.sessions[id].length == v.sessions[id].length
    requires w.cutbacks == v.cutbacks ==> v.sessions[id].file <= w.sessions[id].file
    requires id in w.aims ==> w.SessionSound(id)
    ensures w.Sound() && v.Then(w, id)
  {
    forall o | o in w.sessions && o in w.aims ensures w.SessionSound(o) {
      if o != id { assert v.SessionSound(o); }
    }
  }

  lemma Forgotten(v: View, w: View, id: nat)
    requires v.Sound() && w == v.(sessions := v.sessions - {id})
    ensures w.Sound() && v.Then(w, id)
  {
    forall o | o in w.sessions && o in w.aims ensures w.SessionSound(o) {
      assert v.SessionSound(o);
    }
  }

  /** `steady`: neither it, nor the network to it, nor the machine the client runs on ever
      lets the client down. */
  class Relay {
    const steady: bool
    var sessions: map<nat, Session>
    var blobs: map<nat, seq<byte>>
    var nextId: nat
    /** How many more times a failed write's torn tail will be cut back. */
    var cutbacks: nat
    ghost var aims: map<nat, Aim>
    ghost var log: seq<Exchange>

    ghost function Now(): View
      reads this
    {
      View(sessions, blobs, aims, cutbacks, nextId)
    }

    /** Nothing of a session is under way, and more may be appended to it. */
    ghost predicate Ready(id: nat, file: seq<byte>)
      reads this
    {
      id in sessions && !sessions[id].busy && sessions[id].file == file
      && (sessions[id].claim.Some? ==> |file| == sessions[id].length)
    }

    constructor (cutbacks: nat, steady: bool)
      ensures Now() == View(map[], map[], map[], cutbacks, 0) && Now().Sound()
      ensures this.steady == steady && log == []
    {
      this.sessions, this.blobs, this.nextId, this.cutbacks := map[], map[], 0, cutbacks;
      this.steady, this.aims, this.log := steady, map[], [];
    }

    /** What may have happened to session `id` since the last request: a body still
        draining landed further or broke off, a torn tail was cut, the session was
        reaped or forgotten. */
    method Pass(id: nat)
      requires Now().Sound()
      modifies this
      ensures Now().Sound() && old(Now()).Then(Now(), id) && log == old(log)
      ensures steady && id in aims ==> (id in sessions <==> id in old(sessions)) && cutbacks == old(cutbacks)
      ensures steady && id in aims && id in old(sessions) ==>
        Ready(id, old(sessions[id].file + sessions[id].pending)) && sessions[id].claim == old(sessions[id].claim)
    {
      hide View.Sound, View.Then, View.SessionSound;
      Drain(id);
      ghost var v := Now();
      var forgotten: bool := *;
      if id in sessions && !sessions[id].busy && forgotten && !steady {
        sessions := sessions - {id};
        Forgotten(v, Now(), id);
        ThenTrans(old(Now()), v, Now(), id);
      }
    }

    method Drain(id: nat)
      requires Now().Sound()
      modifies this
      ensures Now().Sound() && old(Now()).Then(Now(), id) && log == old(log)
      ensures id in sessions <==> id in old(sessions)
      ensures steady && id in aims ==> cutbacks == old(cutbacks)
      ensures steady && id in aims && id in old(sessions) ==>
        Ready(id, old(sessions[id].file + sessions[id].pending)) && sessions[id].claim == old(sessions[id].claim)
    {
      if id in sessions && id in aims { assert Now().SessionSound(id); }
      if id in sessions && sessions[id].claim.None? {
        var s := sessions[id];
        var k: nat :| k <= |s.pending| && (steady ==> k == |s.pending|);
        assert s.file + s.pending == (s.file + s.pending[..k]) + s.pending[k..];
        s := s.(file := s.file + s.pending[..k], pending := s.pending[k..]);
        var over: bool := *;
        var torn: nat :| torn <= |s.file| && (!over || cutbacks == 0 || steady ==> torn == 0);
        if over || steady {
          s := s.(file := s.file[..|s.file| - torn], pending := [], busy := false);
          assert s.file + [] == s.file;
          cutbacks := if torn > 0 then cutbacks - 1 else cutbacks;
        }
        sessions := sessions[id := s];
        Moved(old(Now()), Now(), id);
      }
    }

    // ---- what becomes of a request ---------------------------------------------

    method OnOpen(length: nat, ghost container: seq<byte>) returns (a: Answer)
      requires Now().Sound() && |container| <= length
      modifies this
      ensures Now().Sound() && cutbacks == old(cutbacks) && log == old(log)
      ensures Extends(old(Now()), Now())
      ensures forall o :: o in old(sessions) ==> o in sessions && sessions[o] == old(sessions)[o]
      ensures a.Reply? && IsSuccess(a.status) ==>
          a.word !in old(aims) && a.word in aims && aims[a.word] == Aim(container, length)
      ensures steady ==> a.Reply? && IsSuccess(a.status) && Ready(a.word, [])
    {
      if !steady {
        if * { return Lost; }
        if * {
          var refused: nat :| !IsSuccess(refused);
          return Reply(refused, None, 0);
        }
      }
      var id := nextId;
      sessions := sessions[id := Session(length, [], [], false, None)];
      aims := aims[id := Aim(container, length)];
      nextId := nextId + 1;
      var lost: bool := *;
      if lost && !steady { return Lost; }
      return Reply(201, None, id);
    }

    method OnStatus(id: nat) returns (a: Answer)
      requires Now().Sound()
      modifies this
      ensures Now().Sound() && old(Now()).Then(Now(), id) && log == old(log)
      ensures a.Reply? && a.offset.Some? ==> id in sessions && a.offset.value == |sessions[id].file|
      ensures steady && id in aims && id !in old(sessions) ==> a == Reply(404, None, 0)
      ensures steady && id in aims && id in old(sessions) ==>
        id in sessions && Ready(id, sessions[id].file) && a == Reply(204, Some(|sessions[id].file|), 0)
    {
      Pass(id);
      if !steady {
        if * { return Lost; }
        if * {
          var other: nat :| true;
          return Reply(other, None, 0);
        }
      }
      if id !in sessions { return Reply(404, None, 0); }
      return Reply(204, Some(|sessions[id].file|), 0);
    }

    method OnAppend(id: nat, offset: nat, body: seq<byte>, broken: bool) returns (a: Answer, pulled: bool)
      requires Now().Sound()
      requires id in aims ==> offset <= |aims[id].container| && body <= aims[id].container[offset..]
      modifies this
      ensures Now().Sound() && old(Now()).Then(Now(), id) && log == old(log)
      ensures a.Reply? && a.offset.Some? ==> id in sessions && a.offset.value == |sessions[id].file|
      ensures pulled ==> broken
      ensures steady && id in aims && old(id in sessions && Ready(id, sessions[id].file) && |sessions[id].file| == offset < sessions[id].length) ==>
        if broken then a.Lost? && pulled
        else Ready(id, old(sessions[id].file) + body) && a == Reply(204, Some(offset + |body|), 0)
    {
      Pass(id);
      ghost var v := Now();
      pulled := *;
      pulled := pulled && broken;
      if !steady {
        if * { return Lost, pulled; }
        if * {
          var other: nat :| true;
          return Reply(other, None, 0), pulled;
        }
      }
      if id !in sessions { return Reply(404, None, 0), pulled; }
      if sessions[id].busy { return Reply(409, None, 0), pulled; }
      if sessions[id].claim.Some? || offset != |sessions[id].file| || sessions[id].length < |sessions[id].file| {
        return Reply(409, Some(|sessions[id].file|), 0), pulled;
      }
      a, pulled := Land(id, body, broken, pulled);
      ThenTrans(old(Now()), v, Now(), id);
    }

    /** The body of an append as it comes in, at the end of what is stored. */
    method Land(id: nat, body: seq<byte>, broken: bool, pulled0: bool) returns (a: Answer, pulled: bool)
      requires Now().Sound() && id in sessions && !sessions[id].busy && sessions[id].claim.None?
      requires |sessions[id].file| <= sessions[id].length && (pulled0 ==> broken)
      requires id in aims ==> |sessions[id].file| <= |aims[id].container| && body <= aims[id].container[|sessions[id].file|..]
      modifies this
      ensures Now().Sound() && old(Now()).Then(Now(), id) && log == old(log)
      ensures a.Reply? && a.offset.Some? ==> id in sessions && a.offset.value == |sessions[id].file|
      ensures pulled ==> broken
      ensures steady && id in aims ==>
        if broken then a.Lost? && pulled
        else Ready(id, old(sessions[id].file) + body) && a == Reply(204, Some(|old(sessions[id].file)| + |body|), 0)
    {
      ghost var v := Now();
      pulled := pulled0;
      var s := sessions[id];
      var room := Min(|body|, s.length - |s.file|);
      if id in aims { assert v.SessionSound(id); }
      var k: nat :| k <= room && (steady ==> k == room);
      if id in aims { Landing(aims[id].container, s.file, body, k); }
      s := s.(file := s.file + body[..k]);
      var abandoned: bool := *;
      if abandoned && !steady {
        // The client gives up while the rest is still on its way.
        sessions := sessions[id := s.(pending := body[k..], busy := true)];
        Moved(v, Now(), id);
        return Lost, pulled;
      }
      assert s.file + [] == s.file;
      sessions := sessions[id := s];
      Moved(v, Now(), id);
      var refusedFirst: bool := *;
      if broken && (k == |body| || !refusedFirst || steady) {
        return Lost, true;
      }
      if k == |body| {
        return Reply(204, Some(|s.file|), 0), false;
      }
      var failed :| failed in {400, 500};
      return Reply(failed, Some(|s.file|), 0), pulled;
    }

    method OnCommit(id: nat) returns (a: Answer)
      requires Now().Sound()
      modifies this
      ensures Now().Sound() && old(Now()).Then(Now(), id) && log == old(log)
      ensures a.Reply? && a.offset.Some? ==> id in sessions && a.offset.value == |sessions[id].file|
      ensures a.Reply? && IsSuccess(a.status) && id in aims ==>
          a.word in blobs && blobs[a.word] == aims[id].container && |aims[id].container| == aims[id].length
      ensures steady && id in aims && old(id in sessions && Ready(id, sessions[id].file) && |sessions[id].file| == sessions[id].length) ==>
        a.Reply? && a.status == 200
    {
      Pass(id);
      ghost var v := Now();
      assert id in sessions && id in aims ==> v.SessionSound(id);
      if !steady {
        if * { return Lost; }
        if * {
          var other: nat :| !IsSuccess(other);
          return Reply(other, None, 0);
        }
      }
      if id !in sessions { return Reply(404, None, 0); }
      var s := sessions[id];
      if s.busy { return Reply(409, None, 0); }
      if s.claim.Some? { return Reply(200, None, s.claim.value); }
      var refuses: bool := *;
      if |s.file| != s.length || (refuses && !steady) { return Reply(409, Some(|s.file|), 0); }
      var claim := nextId;
      blobs := blobs[claim := s.file];
      sessions := sessions[id := s.(claim := Some(claim))];
      nextId := nextId + 1;
      Moved(v, Now(), id);
      ThenTrans(old(Now()), v, Now(), id);
      var lost: bool := *;
      if lost && !steady { return Lost; }
      return Reply(200, None, claim);
    }

    method OnDeposit(body: seq<byte>, broken: bool) returns (a: Answer, pulled: bool)
      requires Now().Sound()
      modifies this
      ensures Now().Sound() && sessions == old(sessions) && aims == old(aims) && log == old(log)
      ensures Extends(old(Now()), Now())
      ensures a.Reply? && IsSuccess(a.status) ==> !broken && a.word in blobs && blobs[a.word] == body
      ensures pulled ==> broken
      ensures steady ==> if broken then a.Lost? && pulled else a.Reply? && IsSuccess(a.status)
    {
      pulled := *;
      pulled := broken && (pulled || steady);
      if !steady {
        if * {
          var refused: nat :| !IsSuccess(refused);
          return Reply(refused, None, 0), pulled;
        }
      }
      if broken { return Lost, pulled; }
      var claim := nextId;
      blobs := blobs[claim := body];
      nextId := nextId + 1;
      var lost: bool := *;
      if lost && !steady { return Lost, false; }
      return Reply(200, None, claim), false;
    }

    // ---- the requests, on record -------------------------------------------------

    /** `POST /v1/upload`. */
    method Open(length: nat, ghost container: seq<byte>) returns (a: Answer)
      requires Now().Sound() && |container| <= length
      modifies this
      ensures Now().Sound() && cutbacks == old(cutbacks)
      ensures Extends(old(Now()), Now())
      ensures forall o :: o in old(sessions) ==> o in sessions && sessions[o] == old(sessions)[o]
      ensures a.Reply? && IsSuccess(a.status) ==>
          a.word !in old(aims) && a.word in aims && aims[a.word] == Aim(container, length)
      ensures steady ==> a.Reply? && IsSuccess(a.status) && Ready(a.word, [])
      ensures log == old(log) + [Exchange(Opening, a, false)]
    {
      a := OnOpen(length, container);
      log := log + [Exchange(Opening, a, false)];
    }

    /** `GET /v1/upload/{id}`. */
    method Status(id: nat) returns (a: Answer)
      requires Now().Sound()
      modifies this
      ensures Now().Sound() && old(Now()).Then(Now(), id)
      ensures a.Reply? && a.offset.Some? ==> id in sessions && a.offset.value == |sessions[id].file|
      ensures steady && id in aims && id !in old(sessions) ==> a == Reply(404, None, 0)
      ensures steady && id in aims && id in old(sessions) ==>
        id in sessions && Ready(id, sessions[id].file) && a == Reply(204, Some(|sessions[id].file|), 0)
      ensures log == old(log) + [Exchange(Asking(id), a, false)]
    {
      a := OnStatus(id);
      log := log + [Exchange(Asking(id), a, false)];
    }

    /** `PATCH /v1/upload/{id}`. `broken` says that the client's body ends in a read
        failure; `pulled`, that the transport got that far, whether or not an answer came
        first. What the client owes is that the bytes it sends are the container's bytes
        at that offset. */
    method Append(id: nat, offset: nat, body: seq<byte>, broken: bool) returns (a: Answer, pulled: bool)
      requires Now().Sound()
      requires id in aims ==> offset <= |aims[id].container| && body <= aims[id].container[offset..]
      modifies this
      ensures Now().Sound() && old(Now()).Then(Now(), id)
      ensures a.Reply? && a.offset.Some? ==> id in sessions && a.offset.value == |sessions[id].file|
      ensures pulled ==> broken
      ensures steady && id in aims && old(id in sessions && Ready(id, sessions[id].file) && |sessions[id].file| == offset < sessions[id].length) ==>
        if broken then a.Lost? && pulled
        else Ready(id, old(sessions[id].file) + body) && a == Reply(204, Some(offset + |body|), 0)
      ensures log == old(log) + [Exchange(Appending(id, offset, body), a, pulled)]
    {
      a, pulled := OnAppend(id, offset, body, broken);
      log := log + [Exchange(Appending(id, offset, body), a, pulled)];
    }

    /** `POST /v1/upload/{id}/commit`. */
    method Commit(id: nat) returns (a: Answer)
      requires Now().Sound()
      modifies this
      ensures Now().Sound() && old(Now()).Then(Now(), id)
      ensures a.Reply? && a.offset.Some? ==> id in sessions && a.offset.value == |sessions[id].file|
      ensures a.Reply? && IsSuccess(a.status) && id in aims ==>
          a.word in blobs && blobs[a.word] == aims[id].container && |aims[id].container| == aims[id].length
      ensures steady && id in aims && old(id in sessions && Ready(id, sessions[id].file) && |sessions[id].file| == sessions[id].length) ==>
        a.Reply? && a.status == 200
      ensures log == old(log) + [Exchange(Committing(id), a, false)]
    {
      a := OnCommit(id);
      log := log + [Exchange(Committing(id), a, false)];
    }

    /** `POST /v1/deposit`: the whole container in one body, kept only if complete. */
    method Deposit(body: seq<byte>, broken: bool) returns (a: Answer, pulled: bool)
      requires Now().Sound()
      modifies this
      ensures Now().Sound() && sessions == old(sessions) && aims == old(aims)
      ensures Extends(old(Now()), Now())
      ensures a.Reply? && IsSuccess(a.status) ==> !broken && a.word in blobs && blobs[a.word] == body
      ensures pulled ==> broken
      ensures steady ==> if broken then a.Lost? && pulled else a.Reply? && IsSuccess(a.status)
      ensures log == old(log) + [Exchange(Depositing(body), a, pulled)]
    {
      a, pulled := OnDeposit(body, broken);
      log := log + [Exchange(Depositing(body), a, pulled)];
    }
  }

  /** Bytes landing at the end of a prefix leave a prefix, and so does the rest. */
  lemma Landing(container: seq<byte>, file: seq<byte>, body: seq<byte>, k: nat)
    requires file <= container && body <= container[|file|..] && k <= |body|
    ensures (file + body[..k]) + body[k..] <= container && file + body[..k] <= container
  {
    assert (file + body[..k]) + body[k..] == file + body;
    assert file + container[|file|..] == container;
  }
}
