/** The process-wide session registry: a finite map from session id to the
    address of the session's actor, with create, get and delete. The random
    number generator is an oracle: the sequence of candidate ids it would
    produce. */
module Registry {
  import opened Protocol
  import Buzzer

  /** The address of a session actor, known by the id it was started for. */
  datatype SessionAddr = SessionAddr(session: SessionId)

  type Sessions = map<SessionId, SessionAddr>

  /** Replies of the registry. */
  datatype Response = Addr(addr: SessionAddr) | Id(id: SessionId) | NotFound | Ok

  /** Outcome of Create: the new id with the grown registry and the started
      session, or the oracle ran out of candidates before one was free. */
  datatype Created =
    | Created(reply: Response, sessions: Sessions, session: Buzzer.Session)
    | Exhausted

  /** Create: draw candidates until one is not taken, start a waiting
      session under it and register its address. */
  method Create(sessions: Sessions, name: string, timerSecs: nat, candidates: seq<SessionId>, now: nat)
    returns (r: Created)
    ensures r.Exhausted? <==> forall i :: 0 <= i < |candidates| ==> candidates[i] in sessions
    ensures r.Created? ==>
      && r.reply.Id?
      && r.reply.id !in sessions
      && (exists i :: 0 <= i < |candidates| && candidates[i] == r.reply.id
           && forall j :: 0 <= j < i ==> candidates[j] in sessions)
      && r.sessions == sessions[r.reply.id := SessionAddr(r.reply.id)]
      && r.session == Buzzer.NewSession(r.reply.id, name, timerSecs, now)
  {
    var i := 0;
    while i < |candidates| && candidates[i] in sessions
      invariant 0 <= i <= |candidates|
      invariant forall j :: 0 <= j < i ==> candidates[j] in sessions
    {
      i := i + 1;
    }
    if i == |candidates| {
      return Exhausted;
    }
    var id := candidates[i];
    var s := Buzzer.NewSession(id, name, timerSecs, now);
    r := Created(Id(id), sessions[id := SessionAddr(id)], s);
  }

  /** Get: the address when the id is registered, else NotFound. */
  function Get(sessions: Sessions, id: SessionId): (r: Response)
    ensures r.Addr? <==> id in sessions
    ensures r.Addr? ==> r.addr == sessions[id]
    ensures !r.Addr? ==> r == NotFound
  {
    if id in sessions then Addr(sessions[id]) else NotFound
  }

  /** Delete: forget the id; Ok when it was registered, else NotFound. */
  function Delete(sessions: Sessions, id: SessionId): (r: (Response, Sessions))
    ensures r.0 == Ok <==> id in sessions
    ensures r.0 == Ok || r.0 == NotFound
    ensures r.1.Keys == sessions.Keys - {id}
    ensures forall k :: k in r.1 ==> r.1[k] == sessions[k]
  {
    if id in sessions then (Ok, sessions - {id}) else (NotFound, sessions)
  }

  /** Deleting twice is deleting once; the second reply is NotFound. */
  lemma DeleteIdempotent(sessions: Sessions, id: SessionId)
    ensures var once := Delete(sessions, id).1;
      Delete(once, id) == (NotFound, once)
  {
  }

  /** A created session can be looked up, and the rest of the registry
      answers as before. */
  lemma GetAfterCreate(sessions: Sessions, id: SessionId, other: SessionId)
    requires id !in sessions && other != id
    ensures Get(sessions[id := SessionAddr(id)], id) == Addr(SessionAddr(id))
    ensures Get(sessions[id := SessionAddr(id)], other) == Get(sessions, other)
  {
  }

  /** When a session closes, its request to the registry removes exactly its
      own entry and is answered Ok. */
  lemma CloseUnregisters(sessions: Sessions, s: Buzzer.Session, now: nat)
    requires s.id in sessions && !s.stopped && now >= s.lastStart
    ensures var t := Buzzer.Step(s, Buzzer.Intent(CloseSession(s.admin)), now);
      && t.out[1] == Buzzer.RegistryDelete(s.id)
      && Delete(sessions, t.out[1].session).0 == Ok
      && Delete(sessions, t.out[1].session).1.Keys == sessions.Keys - {s.id}
  {
  }
}
