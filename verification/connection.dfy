/** One participant's connection, as far as the session sees it: the id it
    tags its intents with, learnt from the session's welcome, and the
    mapping from decoded frames to tagged intents. */
module Connection {
  import opened Protocol
  import Buzzer

  /** Intents as decoded from a connection's text frame, before the
      connection tags them with its participant id. */
  datatype RawClientMessage =
    | Buzz
    | ChangeName(name: string)
    | ChangeSession(name: string, timer: nat)
    | CloseSession
    | ResumeSession
    | PauseSession
    | ResetSession
    | ResetBlacklist
    | Disconnected
    | Connect

  /** The connection's state: the participant id it currently believes it
      has. The session it talks to is fixed at creation and left implicit. */
  datatype Client = Client(id: UserId)

  /** A freshly upgraded connection has not been welcomed yet: id 0. */
  function Opened(): (c: Client)
    ensures c.id == 0
  {
    Client(0)
  }

  /** Handling a notice from the session: only the welcome changes the id. */
  function Receive(c: Client, n: Notice): (c': Client)
    ensures n.ConnectionSuccess? ==> c'.id == n.id
    ensures !n.ConnectionSuccess? ==> c' == c
  {
    if n.ConnectionSuccess? then Client(n.id) else c
  }

  /** The decoded frame a tagged intent came from: drop the sender. */
  function Untag(m: ClientMessage): (raw: RawClientMessage)
    ensures raw.Connect? <==> m.Connect?
  {
    match m
    case Buzz(_) => RawClientMessage.Buzz
    case ChangeName(_, name) => RawClientMessage.ChangeName(name)
    case ChangeSession(_, name, timer) => RawClientMessage.ChangeSession(name, timer)
    case CloseSession(_) => RawClientMessage.CloseSession
    case ResumeSession(_) => RawClientMessage.ResumeSession
    case PauseSession(_) => RawClientMessage.PauseSession
    case ResetSession(_) => RawClientMessage.ResetSession
    case ResetBlacklist(_) => RawClientMessage.ResetBlacklist
    case Disconnected(_) => RawClientMessage.Disconnected
    case Connect => RawClientMessage.Connect
  }

  /** Tagging: each decoded frame becomes the intent of the same name, sent
      as this connection's current id. */
  function Tag(c: Client, raw: RawClientMessage): (m: ClientMessage)
    ensures Untag(m) == raw
    ensures !m.Connect? ==> m.from == c.id
  {
    match raw
    case Buzz => ClientMessage.Buzz(c.id)
    case ChangeName(name) => ClientMessage.ChangeName(c.id, name)
    case ChangeSession(name, timer) => ClientMessage.ChangeSession(c.id, name, timer)
    case CloseSession => ClientMessage.CloseSession(c.id)
    case ResumeSession => ClientMessage.ResumeSession(c.id)
    case PauseSession => ClientMessage.PauseSession(c.id)
    case ResetSession => ClientMessage.ResetSession(c.id)
    case ResetBlacklist => ClientMessage.ResetBlacklist(c.id)
    case Disconnected => ClientMessage.Disconnected(c.id)
    case Connect => ClientMessage.Connect
  }

  /** Tagging loses nothing but the sender: an intent is the tagging of its
      own frame by a connection holding its sender's id. */
  lemma TagUntag(m: ClientMessage)
    requires !m.Connect?
    ensures Tag(Client(m.from), Untag(m)) == m
  {
  }

  /** Once a connection has handled its welcome, it speaks with the id the
      session minted for it, which is on the roster, so its renames are
      well-defined for the session. */
  lemma WelcomedConnectionIsOnRoster(s: Buzzer.Session, c: Client, name: string, now: nat)
    requires Buzzer.Valid(s) && !s.stopped && now >= s.lastStart
    ensures var t := Buzzer.Step(s, Buzzer.Intent(ClientMessage.Connect), now);
      && |t.out| == 3 && t.out[0].Deliver?
      && forall n :: n in t.out[0].notices ==>
           var m := Tag(Receive(c, n), RawClientMessage.ChangeName(name));
           && m.from == t.next.lastUid
           && m.from in t.next.clients
           && Buzzer.Defined(t.next, Buzzer.Intent(m))
  {
  }

  /** A connection that has not yet handled its welcome tags its intents
      with id 0, the same value as the admin of a session nobody has joined
      yet, so its CloseSession passes the admin guard there and closes the
      session. */
  lemma UnjoinedConnectionPassesAdminGuard(id: SessionId, name: string, secs: nat, now: nat)
    ensures var s := Buzzer.NewSession(id, name, secs, now);
      var t := Buzzer.Step(s, Buzzer.Intent(Tag(Opened(), RawClientMessage.CloseSession)), now);
      && t.next.stopped
      && t.out == [Buzzer.Deliver({}, {Closed}), Buzzer.RegistryDelete(id)]
  {
    var s := Buzzer.NewSession(id, name, secs, now);
    assert s.clients.Keys == {};
  }
}
