/** The per-session coordinator: one immutable `Session` record and a pure
    transition function over the events its actor handles one at a time.
    Each arm of the intent handler is one function; `Step` dispatches. */
module Buzzer {
  import opened Clock
  import opened Protocol
  import Decimal

  /** The state of one session actor. Durations and instants are in
      nanoseconds. `pending` is true while a scheduled expiry callback is
      live (scheduled by Resume, not yet cancelled and not yet fired).
      Participant connections are identified with their ids, so the roster
      maps each id to its display name. `stopped` is set when the actor stops
      itself; a stopped actor handles nothing more. */
  datatype Session = Session(
    id: SessionId,
    name: string,
    timer: nat,
    pending: bool,
    lastStart: nat,
    elapsed: nat,
    blacklist: set<UserId>,
    admin: UserId,
    lastUid: UserId,
    status: Status,
    clients: map<UserId, string>,
    stopped: bool)

  /** Effects of one step, in the order the handler performs them.
      `Deliver(to, notices)` sends every notice to every recipient; the order
      among the pairs of one batch is unspecified (a map's iteration order),
      so a broadcast is `Deliver(roster, {notice})`. */
  datatype Output =
    | Deliver(to: set<UserId>, notices: set<Notice>)
    | ScheduleExpiry(delayMs: nat)
    | RegistryDelete(session: SessionId)

  /** What the actor's mailbox delivers: an intent, or the expiry callback. */
  datatype Event = Intent(msg: ClientMessage) | TimerFired

  datatype Transition = Transition(next: Session, out: seq<Output>)

  /** The state invariant every reachable session keeps. */
  predicate Valid(s: Session)
  {
    && (s.pending <==> s.status == Status.Running)
    && (s.status == Status.Waiting ==> s.elapsed == 0)
    && s.timer % NanosPerSec == 0
    && (forall u :: u in s.clients ==> 1 <= u <= s.lastUid)
    && s.admin <= s.lastUid
    && (s.lastUid == 0 ==> s.clients == map[])
    && (!s.stopped && s.lastUid > 0 ==> s.admin in s.clients)
  }

  /** True when `t` leaves the session exactly as it was and sends nothing. */
  predicate Ignored(s: Session, t: Transition)
  {
    t.next == s && t.out == []
  }

  /** True when identity, configuration, roster, admin and id counter agree. */
  predicate SameSetup(a: Session, b: Session)
  {
    && a.id == b.id
    && a.name == b.name
    && a.timer == b.timer
    && a.admin == b.admin
    && a.lastUid == b.lastUid
    && a.clients == b.clients
    && a.stopped == b.stopped
  }

  /** True when the countdown fields agree. */
  predicate SameClock(a: Session, b: Session)
  {
    && a.pending == b.pending
    && a.lastStart == b.lastStart
    && a.elapsed == b.elapsed
    && a.status == b.status
  }

  /** The notice sent to every current participant. */
  function Broadcast(s: Session, n: Notice): (o: Output)
    ensures o.Deliver? && o.notices == {n}
    ensures forall u :: u in o.to <==> u in s.clients
  {
    Deliver(s.clients.Keys, {n})
  }

  /** The session the registry starts: waiting, empty, admin 0, counter 0. */
  function NewSession(id: SessionId, name: string, timerSecs: nat, now: nat): (s: Session)
    ensures Valid(s)
    ensures s.id == id && s.name == name && AsSecs(s.timer) == timerSecs
    ensures s.status == Status.Waiting && s.elapsed == 0 && s.blacklist == {}
    ensures s.clients == map[] && s.admin == 0 && s.lastUid == 0 && !s.stopped
  {
    Session(id, name, FromSecs(timerSecs), false, now, 0, {}, 0, 0, Status.Waiting, map[], false)
  }

  /** The default display name `user{id}`. */
  function UserName(id: UserId): (r: string)
    ensures |r| > 4 && r[..4] == "user"
    ensures r[4..] == Decimal.Render(id)
  {
    "user" + Decimal.Render(id)
  }

  /** Distinct participants get distinct default names. */
  lemma UserNameInjective(a: UserId, b: UserId)
    requires UserName(a) == UserName(b)
    ensures a == b
  {
    Decimal.RenderInjective(a, b);
  }

  /** `reset()`: the countdown cycle ends; configuration and roster stay.
      The caller has already dealt with the scheduled expiry. */
  function Reset(s: Session): (t: Transition)
    ensures SameSetup(t.next, s) && t.next.pending == s.pending && t.next.lastStart == s.lastStart
    ensures t.next.blacklist == {} && t.next.elapsed == 0 && t.next.status == Status.Waiting
    ensures t.out == [Broadcast(s, Notice.Reset)]
  {
    var next := s.(blacklist := {}, elapsed := 0, status := Status.Waiting);
    Transition(next, [Broadcast(next, Notice.Reset)])
  }

  /** Remaining time announced by Resume, in milliseconds: the time left,
      truncated to whole milliseconds and cast to `u64`. Once the elapsed
      time has overrun the timer, none is left. */
  function Left(s: Session): (l: nat)
    ensures l < U64Modulus
    ensures s.elapsed <= s.timer ==> (AsMillis(s.timer - s.elapsed) - l) % U64Modulus == 0
    ensures s.elapsed <= s.timer && AsMillis(s.timer) < U64Modulus ==>
      l * NanosPerMilli <= s.timer - s.elapsed < (l + 1) * NanosPerMilli
    ensures s.timer <= s.elapsed ==> l == 0
  {
    var left := SaturatingSub(s.timer, s.elapsed);
    AsMillisBounds(left);
    AsMillisMonotone(left, s.timer);
    AsU64(AsMillis(left))
  }

  /** Delay after which Resume's expiry fires, in milliseconds: the timer's
      milliseconds minus the elapsed milliseconds, cast to `u64`. With a
      whole-millisecond timer it is the time left rounded UP to a whole
      millisecond, so the announced time left or one more. */
  function Delay(s: Session): (d: nat)
    ensures d < U64Modulus
    ensures s.elapsed <= s.timer ==>
      (AsMillis(s.timer) - AsMillis(s.elapsed) - d) % U64Modulus == 0
    ensures s.timer % NanosPerMilli == 0 && s.elapsed <= s.timer && AsMillis(s.timer) < U64Modulus ==>
      && s.timer - s.elapsed <= d * NanosPerMilli < s.timer - s.elapsed + NanosPerMilli
      && Left(s) <= d <= Left(s) + 1
    ensures s.timer <= s.elapsed ==> d == 0
  {
    var d := AsU64(SaturatingSub(AsMillis(s.timer), AsMillis(s.elapsed)));
    assert s.elapsed <= s.timer ==> AsMillis(s.elapsed) <= AsMillis(s.timer) by {
      if s.elapsed <= s.timer { AsMillisMonotone(s.elapsed, s.timer); }
    }
    assert s.timer <= s.elapsed ==> AsMillis(s.timer) <= AsMillis(s.elapsed) by {
      if s.timer <= s.elapsed { AsMillisMonotone(s.timer, s.elapsed); }
    }
    assert s.timer % NanosPerMilli == 0 && s.elapsed <= s.timer && AsMillis(s.timer) < U64Modulus ==>
      && s.timer - s.elapsed <= d * NanosPerMilli < s.timer - s.elapsed + NanosPerMilli
      && Left(s) <= d <= Left(s) + 1 by {
      if s.timer % NanosPerMilli == 0 && s.elapsed <= s.timer && AsMillis(s.timer) < U64Modulus {
        MillisOfDifference(s.timer, s.elapsed);
      }
    }
    d
  }

  /** Buzz: accepted only while running and from a participant who has not
      buzzed in this cycle; it ends the cycle in Paused. */
  function OnBuzz(s: Session, from: UserId, now: nat): (t: Transition)
    requires now >= s.lastStart
    ensures s.status == Status.Running && from !in s.blacklist ==>
      && SameSetup(t.next, s)
      && t.next.blacklist == s.blacklist + {from}
      && !t.next.pending && t.next.status == Status.Paused && t.next.lastStart == s.lastStart
      && t.next.elapsed == s.elapsed + (now - s.lastStart)
      && t.out == [Broadcast(s, Buzzed(from))]
    ensures s.status != Status.Running || from in s.blacklist ==> Ignored(s, t)
  {
    if s.status == Status.Running && from !in s.blacklist then
      var next := s.(blacklist := s.blacklist + {from}, pending := false,
                     elapsed := s.elapsed + (now - s.lastStart), status := Status.Paused);
      Transition(next, [Broadcast(next, Buzzed(from))])
    else
      Transition(s, [])
  }

  /** ChangeName: any participant renames itself; the sender must be on the
      roster. */
  function OnChangeName(s: Session, from: UserId, name: string): (t: Transition)
    requires from in s.clients
    ensures t.next.clients.Keys == s.clients.Keys
    ensures t.next.clients[from] == name
    ensures forall u :: u in s.clients && u != from ==> t.next.clients[u] == s.clients[u]
    ensures t.next == s.(clients := t.next.clients)
    ensures t.out == [Broadcast(s, ChangedName(name, from))]
  {
    var next := s.(clients := s.clients[from := name]);
    Transition(next, [Broadcast(next, ChangedName(name, from))])
  }

  /** ChangeSession: the admin reconfigures a waiting session. */
  function OnChangeSession(s: Session, from: UserId, name: string, secs: nat): (t: Transition)
    ensures s.status == Status.Waiting && from == s.admin ==>
      && t.next.name == name && AsSecs(t.next.timer) == secs && t.next.timer % NanosPerSec == 0
      && t.next == s.(name := t.next.name, timer := t.next.timer)
      && t.out == [Broadcast(s, Changed(name, secs))]
    ensures s.status != Status.Waiting || from != s.admin ==> Ignored(s, t)
  {
    if s.status == Status.Waiting && s.admin == from then
      var next := s.(timer := FromSecs(secs), name := name);
      Transition(next, [Broadcast(next, Changed(name, secs))])
    else
      Transition(s, [])
  }

  /** The closing sequence shared by CloseSession and an admin disconnect:
      tell everyone still on the roster, ask the registry to forget the
      session, stop. */
  function Close(s: Session): (t: Transition)
    ensures t.next.stopped
    ensures t.next == s.(stopped := true)
    ensures t.out == [Broadcast(s, Closed), RegistryDelete(s.id)]
  {
    Transition(s.(stopped := true), [Broadcast(s, Closed), RegistryDelete(s.id)])
  }

  function OnCloseSession(s: Session, from: UserId): (t: Transition)
    ensures from == s.admin ==> t == Close(s)
    ensures from != s.admin ==> Ignored(s, t)
  {
    if s.admin == from then Close(s) else Transition(s, [])
  }

  /** ResumeSession: the admin starts or continues the countdown. Where the
      elapsed time has overrun the timer (a Buzz or Pause handled after the
      expiry came due), the time left is taken as zero, so the expiry is
      scheduled at once. */
  function OnResume(s: Session, from: UserId, now: nat): (t: Transition)
    ensures from == s.admin && s.status != Status.Running ==>
      && SameSetup(t.next, s) && t.next.blacklist == s.blacklist && t.next.elapsed == s.elapsed
      && t.next.status == Status.Running && t.next.pending && t.next.lastStart == now
      && t.out == [Broadcast(s, Resumed(Left(s))), ScheduleExpiry(Delay(s))]
    ensures from != s.admin || s.status == Status.Running ==> Ignored(s, t)
  {
    if s.admin == from && s.status != Status.Running then
      var next := s.(status := Status.Running, lastStart := now, pending := true);
      Transition(next, [Broadcast(next, Resumed(Left(s))), ScheduleExpiry(Delay(s))])
    else
      Transition(s, [])
  }

  /** When ResumeSession, as the source writes it, can be handled: its guard
      fails, or `timer - elapsed` does not underflow (a `Duration`
      subtraction that underflows panics). */
  predicate ResumeDefined(s: Session, from: UserId)
  {
    from == s.admin && s.status != Status.Running ==> s.elapsed <= s.timer
  }

  /** ResumeSession as the source writes it, with plain subtractions; it is
      undefined past an overrun, and wherever it is defined it does what
      `OnResume` does. */
  function OnResumeAsWritten(s: Session, from: UserId, now: nat): (t: Transition)
    requires ResumeDefined(s, from)
    ensures t == OnResume(s, from, now)
  {
    if s.admin == from && s.status != Status.Running then
      AsMillisMonotone(s.elapsed, s.timer);
      var next := s.(status := Status.Running, lastStart := now, pending := true);
      var left := AsU64(AsMillis(s.timer - s.elapsed));
      var delay := AsU64(AsMillis(s.timer) - AsMillis(s.elapsed));
      Transition(next, [Broadcast(next, Resumed(left)), ScheduleExpiry(delay)])
    else
      Transition(s, [])
  }

  /** PauseSession: the admin halts a running countdown. */
  function OnPause(s: Session, from: UserId, now: nat): (t: Transition)
    requires now >= s.lastStart
    ensures from == s.admin && s.status == Status.Running ==>
      && SameSetup(t.next, s) && t.next.blacklist == s.blacklist
      && !t.next.pending && t.next.status == Status.Paused && t.next.lastStart == s.lastStart
      && t.next.elapsed == s.elapsed + (now - s.lastStart)
      && t.out == [Broadcast(s, Notice.Paused)]
    ensures from != s.admin || s.status != Status.Running ==> Ignored(s, t)
  {
    if s.admin == from && s.status == Status.Running then
      var next := s.(pending := false, elapsed := s.elapsed + (now - s.lastStart), status := Status.Paused);
      Transition(next, [Broadcast(next, Notice.Paused)])
    else
      Transition(s, [])
  }

  /** ResetSession: the admin cancels any scheduled expiry and resets. */
  function OnResetSession(s: Session, from: UserId): (t: Transition)
    ensures from == s.admin ==> t == Reset(s.(pending := false))
    ensures from != s.admin ==> Ignored(s, t)
  {
    if s.admin == from then Reset(s.(pending := false)) else Transition(s, [])
  }

  /** ResetBlacklist: the admin lets everyone buzz again. */
  function OnResetBlacklist(s: Session, from: UserId): (t: Transition)
    ensures from == s.admin ==>
      && t.next == s.(blacklist := {})
      && t.out == [Broadcast(s, BlacklistCleared)]
    ensures from != s.admin ==> Ignored(s, t)
  {
    if s.admin == from then
      var next := s.(blacklist := {});
      Transition(next, [Broadcast(next, BlacklistCleared)])
    else
      Transition(s, [])
  }

  /** Disconnected: the sender leaves the roster first; the admin leaving
      closes the session, anyone else leaving is announced to those who
      remain. */
  function OnDisconnected(s: Session, from: UserId): (t: Transition)
    ensures t.next.clients.Keys == s.clients.Keys - {from}
    ensures forall u :: u in t.next.clients ==> t.next.clients[u] == s.clients[u]
    ensures from == s.admin ==>
      && t.next.stopped
      && t.out == [Deliver(s.clients.Keys - {from}, {Closed}), RegistryDelete(s.id)]
    ensures from != s.admin ==>
      && t.next.stopped == s.stopped
      && t.out == [Deliver(s.clients.Keys - {from}, {Notice.Disconnected(from)})]
    ensures t.next == s.(clients := t.next.clients, stopped := t.next.stopped)
  {
    var remaining := s.(clients := s.clients - {from});
    if s.admin == from then Close(remaining)
    else Transition(remaining, [Broadcast(remaining, Notice.Disconnected(from))])
  }

  /** The roster replay a newcomer receives: one `Connected` per member. */
  function Roster(clients: map<UserId, string>): (ns: set<Notice>)
    ensures forall n :: n in ns <==> n.Connected? && n.id in clients && clients[n.id] == n.name
  {
    set u | u in clients :: Connected(clients[u], u)
  }

  /** Connect: mint the next id; the newcomer becomes admin when nobody is
      connected; it gets a private snapshot, then the roster replay, then
      joins and is announced to everyone, itself included. */
  function OnConnect(s: Session): (t: Transition)
    ensures t.next.lastUid == s.lastUid + 1
    ensures Valid(s) ==> t.next.lastUid !in s.clients
    ensures t.next.admin == (if s.clients == map[] then t.next.lastUid else s.admin)
    ensures t.next.clients == s.clients[t.next.lastUid := UserName(t.next.lastUid)]
    ensures SameClock(t.next, s) && t.next.blacklist == s.blacklist
    ensures t.next == s.(lastUid := t.next.lastUid, admin := t.next.admin, clients := t.next.clients)
    ensures var id := t.next.lastUid;
      t.out == [
        Deliver({id}, {ConnectionSuccess(id, t.next.admin == id, s.name, AsSecs(s.timer),
                                         AsU64(AsMillis(s.elapsed)), s.status)}),
        Deliver({id}, Roster(s.clients)),
        Deliver(s.clients.Keys + {id}, {Connected(UserName(id), id)})]
  {
    var id := s.lastUid + 1;
    var admin := if s.clients == map[] then id else s.admin;
    var welcome := ConnectionSuccess(id, admin == id, s.name, AsSecs(s.timer), AsU64(AsMillis(s.elapsed)), s.status);
    var next := s.(lastUid := id, admin := admin, clients := s.clients[id := UserName(id)]);
    assert next.clients.Keys == s.clients.Keys + {id};
    Transition(next, [Deliver({id}, {welcome}), Deliver({id}, Roster(s.clients)),
                      Broadcast(next, Connected(UserName(id), id))])
  }

  /** The expiry callback: if it is still live, the cycle ends by reset;
      a cancelled callback never runs. */
  function OnTimerFired(s: Session): (t: Transition)
    ensures s.pending ==> t == Reset(s.(pending := false))
    ensures !s.pending ==> Ignored(s, t)
  {
    if s.pending then Reset(s.(pending := false)) else Transition(s, [])
  }

  /** What the handler demands of its caller: a renamer must be on the
      roster. */
  predicate Defined(s: Session, ev: Event)
  {
    !s.stopped ==>
      match ev
      case Intent(ChangeName(from, _)) => from in s.clients
      case _ => true
  }

  /** One indivisible step of the session actor. */
  function Step(s: Session, ev: Event, now: nat): (t: Transition)
    requires now >= s.lastStart
    requires Defined(s, ev)
    ensures Valid(s) ==> Valid(t.next)
    ensures s.stopped ==> Ignored(s, t)
    ensures t.next.id == s.id && t.next.lastUid >= s.lastUid && t.next.lastStart <= now
    ensures t.next.elapsed < s.elapsed ==>
      && t.next.elapsed == 0 && t.next.status == Status.Waiting && t.next.blacklist == {}
      && t.out == [Broadcast(s, Notice.Reset)]
  {
    if s.stopped then Transition(s, [])
    else
      match ev
      case TimerFired => OnTimerFired(s)
      case Intent(msg) =>
        match msg
        case Buzz(from) => OnBuzz(s, from, now)
        case ChangeName(from, name) => OnChangeName(s, from, name)
        case ChangeSession(from, name, secs) => OnChangeSession(s, from, name, secs)
        case CloseSession(from) => OnCloseSession(s, from)
        case ResumeSession(from) => OnResume(s, from, now)
        case PauseSession(from) => OnPause(s, from, now)
        case ResetSession(from) => OnResetSession(s, from)
        case ResetBlacklist(from) => OnResetBlacklist(s, from)
        case Disconnected(from) => OnDisconnected(s, from)
        case Connect => OnConnect(s)
  }
}
