/** The message vocabulary between a participant's connection and its
    session: the status enumeration, the notices a session sends out, and
    the intents, tagged with their sender, that the session handles. */
module Protocol {

  type UserId = nat
  type SessionId = nat

  datatype Option<T> = None | Some(value: T)

  /** Phase of a session's countdown. */
  datatype Status = Paused | Running | Waiting

  /** Wire encoding of a status: Paused = 0, Running = 1, Waiting = 2. */
  function StatusCode(st: Status): (code: nat)
    ensures code < 3
    ensures StatusOfCode(code) == Some(st)
  {
    match st
    case Paused => 0
    case Running => 1
    case Waiting => 2
  }

  /** The reading of a status code on the receiving side. */
  function StatusOfCode(code: nat): (st: Option<Status>)
    ensures st.None? <==> code >= 3
  {
    if code == 0 then Some(Status.Paused)
    else if code == 1 then Some(Status.Running)
    else if code == 2 then Some(Status.Waiting)
    else None
  }

  /** Every code the reader accepts was written by `StatusCode`. */
  lemma StatusCodeRoundTrip(code: nat)
    requires code < 3
    ensures StatusOfCode(code).Some?
    ensures StatusCode(StatusOfCode(code).value) == code
  {
  }

  /** Notices a session sends to participants. Timer lengths are in seconds,
      `left` and `elapsed` in milliseconds. */
  datatype Notice =
    | Reset
    | Closed
    | Resumed(left: nat)
    | Paused
    | BlacklistCleared
    | Changed(name: string, timer: nat)
    | Connected(name: string, id: UserId)
    | ChangedName(name: string, id: UserId)
    | Disconnected(id: UserId)
    | ConnectionSuccess(id: UserId, isAdmin: bool, name: string, timer: nat, elapsed: nat, status: Status)
    | Buzzed(id: UserId)

  /** Intents as the session handles them. `Connect` carries the new
      connection's address, which this model identifies with the participant
      id the session mints for it, so it has no field here. */
  datatype ClientMessage =
    | Buzz(from: UserId)
    | ChangeName(from: UserId, name: string)
    | ChangeSession(from: UserId, name: string, timer: nat)
    | CloseSession(from: UserId)
    | ResumeSession(from: UserId)
    | PauseSession(from: UserId)
    | ResetSession(from: UserId)
    | ResetBlacklist(from: UserId)
    | Disconnected(from: UserId)
    | Connect
}
