/** Properties of single steps and short step sequences of the session
    actor: guards, the two ways a cycle is reset, idempotence, the Resume
    announcement and the closing sequence. */
module SessionFacts {
  import opened Clock
  import opened Protocol
  import opened Buzzer

  /** An accepted Buzz ends the cycle: every further Buzz, from anyone, is
      ignored until the admin resumes. */
  lemma SecondBuzzIgnored(s: Session, first: UserId, second: UserId, now: nat, later: nat)
    requires !s.stopped && s.status == Status.Running && first !in s.blacklist
    requires s.lastStart <= now <= later
    ensures var t := Step(s, Intent(Buzz(first)), now);
      && t.next.status == Status.Paused
      && first in t.next.blacklist
      && Ignored(t.next, Step(t.next, Intent(Buzz(second)), later))
  {
  }

  /** A blacklisted participant cannot buzz, even once the admin resumes. */
  lemma BlacklistedBuzzIgnored(s: Session, from: UserId, now: nat)
    requires now >= s.lastStart && from in s.blacklist
    ensures Ignored(s, Step(s, Intent(Buzz(from)), now))
  {
  }

  /** Every admin-only intent from anyone else changes nothing and sends
      nothing. */
  lemma NonAdminIgnored(s: Session, from: UserId, name: string, secs: nat, now: nat)
    requires now >= s.lastStart && from != s.admin
    ensures Ignored(s, Step(s, Intent(ChangeSession(from, name, secs)), now))
    ensures Ignored(s, Step(s, Intent(CloseSession(from)), now))
    ensures Ignored(s, Step(s, Intent(ResumeSession(from)), now))
    ensures Ignored(s, Step(s, Intent(PauseSession(from)), now))
    ensures Ignored(s, Step(s, Intent(ResetSession(from)), now))
    ensures Ignored(s, Step(s, Intent(ResetBlacklist(from)), now))
  {
  }

  /** The status guards: reconfiguring needs Waiting, resuming needs a
      stopped countdown, pausing needs a running one. */
  lemma StatusGuards(s: Session, name: string, secs: nat, now: nat)
    requires now >= s.lastStart
    ensures s.status != Status.Waiting ==>
      Ignored(s, Step(s, Intent(ChangeSession(s.admin, name, secs)), now))
    ensures s.status == Status.Running ==>
      Ignored(s, Step(s, Intent(ResumeSession(s.admin)), now))
    ensures s.status != Status.Running ==>
      Ignored(s, Step(s, Intent(PauseSession(s.admin)), now))
  {
  }

  /** Natural expiry and the admin's ResetSession end a running cycle in the
      same state with the same broadcast. */
  lemma ExpiryEqualsReset(s: Session, now: nat, later: nat)
    requires !s.stopped && s.pending
    requires s.lastStart <= now && s.lastStart <= later
    ensures Step(s, TimerFired, later) == Step(s, Intent(ResetSession(s.admin)), now)
  {
  }

  /** What a reset leaves behind: an empty blacklist, no elapsed time, a
      waiting countdown and no live expiry, with name, timer, roster and
      admin as they were; everyone is told `Reset`. */
  lemma ResetOutcome(s: Session, now: nat)
    requires !s.stopped && now >= s.lastStart
    ensures var t := Step(s, Intent(ResetSession(s.admin)), now);
      && t.next.blacklist == {} && t.next.elapsed == 0
      && t.next.status == Status.Waiting && !t.next.pending
      && SameSetup(t.next, s)
      && t.out == [Deliver(s.clients.Keys, {Notice.Reset})]
  {
  }

  /** Clearing the blacklist twice leaves the same state as clearing it
      once; the second time only repeats the announcement. */
  lemma ResetBlacklistIdempotent(s: Session, from: UserId, now: nat, later: nat)
    requires s.lastStart <= now <= later
    ensures var once := Step(s, Intent(ResetBlacklist(from)), now);
      var twice := Step(once.next, Intent(ResetBlacklist(from)), later);
      && twice.next == once.next
      && twice.out == once.out
  {
  }

  /** The admin's Resume announces the time left truncated to milliseconds
      and schedules the expiry for that time rounded up to a whole
      millisecond, because the timer is a whole number of seconds; both are
      exact while the timer's milliseconds fit in 64 bits. */
  lemma ResumeAnnouncement(s: Session, now: nat)
    requires Valid(s) && !s.stopped && now >= s.lastStart
    requires s.status != Status.Running && s.elapsed <= s.timer
    ensures var t := Step(s, Intent(ResumeSession(s.admin)), now);
      && t.next.status == Status.Running && t.next.pending && t.next.lastStart == now
      && |t.out| == 2 && t.out[0].Deliver? && t.out[1].ScheduleExpiry?
      && t.out[0].to == s.clients.Keys
    ensures var t := Step(s, Intent(ResumeSession(s.admin)), now);
      AsMillis(s.timer) < U64Modulus ==>
        && s.timer - s.elapsed <= t.out[1].delayMs * NanosPerMilli < s.timer - s.elapsed + NanosPerMilli
        && (exists left: nat :: t.out[0].notices == {Resumed(left)}
             && left * NanosPerMilli <= s.timer - s.elapsed < (left + 1) * NanosPerMilli
             && left <= t.out[1].delayMs <= left + 1)
  {
    WholeSecondsAreWholeMillis(s.timer);
    var t := Step(s, Intent(ResumeSession(s.admin)), now);
    assert t.out[0].notices == {Resumed(Left(s))};
  }

  /** A timer whose milliseconds do not fit in 64 bits wraps: a session of
      18446744073709552 seconds (18446744073709552000 ms, which is 384 more
      than 2^64) announces 384 ms left and schedules its expiry after 384 ms. */
  lemma HugeTimerWraps()
    ensures var s0 := NewSession(7, "Q", 18446744073709552, 0);
      var t1 := Step(s0, Intent(Connect), 0);
      var t2 := Step(t1.next, Intent(ResumeSession(1)), 0);
      t2.out == [Deliver({1}, {Resumed(384)}), ScheduleExpiry(384)]
  {
    var s0 := NewSession(7, "Q", 18446744073709552, 0);
    var t1 := Step(s0, Intent(Connect), 0);
    assert t1.next.clients.Keys == {1};
    assert AsMillis(t1.next.timer) == 18446744073709552000;
  }

  /** Resuming after the elapsed time has overrun the timer announces no
      time left and schedules the expiry at once; when it fires the cycle is
      reset. */
  lemma OverrunResumeResetsAtOnce(s: Session, now: nat)
    requires !s.stopped && now >= s.lastStart
    requires s.status != Status.Running && s.timer < s.elapsed
    ensures var t := Step(s, Intent(ResumeSession(s.admin)), now);
      var r := Step(t.next, TimerFired, now);
      && t.out == [Broadcast(s, Resumed(0)), ScheduleExpiry(0)]
      && r.next.elapsed == 0 && r.next.status == Status.Waiting && r.next.blacklist == {}
      && r.out == [Broadcast(s, Notice.Reset)]
  {
  }

  /** Leaving as a participant is announced only to those who remain. */
  lemma ParticipantLeaves(s: Session, from: UserId, now: nat)
    requires !s.stopped && now >= s.lastStart && from != s.admin
    ensures var t := Step(s, Intent(ClientMessage.Disconnected(from)), now);
      && from !in t.next.clients && !t.next.stopped
      && t.next.admin == s.admin && SameClock(t.next, s)
      && t.out == [Deliver(s.clients.Keys - {from}, {Notice.Disconnected(from)})]
  {
  }

  /** The admin leaving closes the session: the others hear `Closed`, the
      registry is asked to forget the session, and the actor stops. */
  lemma AdminLeavingCloses(s: Session, now: nat)
    requires !s.stopped && now >= s.lastStart
    ensures var t := Step(s, Intent(ClientMessage.Disconnected(s.admin)), now);
      && s.admin !in t.next.clients && t.next.stopped
      && t.out == [Deliver(s.clients.Keys - {s.admin}, {Closed}), RegistryDelete(s.id)]
  {
  }

  /** An explicit close by the admin does the same without removing anyone. */
  lemma AdminCloses(s: Session, now: nat)
    requires !s.stopped && now >= s.lastStart
    ensures var t := Step(s, Intent(CloseSession(s.admin)), now);
      && t.next.clients == s.clients && t.next.stopped
      && t.out == [Deliver(s.clients.Keys, {Closed}), RegistryDelete(s.id)]
  {
  }

  /** A stopped session handles nothing, not even its expiry. */
  lemma StoppedIsFinal(s: Session, ev: Event, now: nat)
    requires s.stopped && now >= s.lastStart
    ensures Ignored(s, Step(s, ev, now))
  {
  }

  /** Connect when nobody is connected makes the newcomer admin; otherwise
      the admin is kept, and the newcomer's id is above every id on the
      roster. */
  lemma ConnectMintsFreshId(s: Session, now: nat)
    requires Valid(s) && !s.stopped && now >= s.lastStart
    ensures var t := Step(s, Intent(Connect), now);
      var id := t.next.lastUid;
      && id == s.lastUid + 1
      && (forall u :: u in s.clients ==> u < id)
      && (t.next.admin == id <==> s.clients == map[])
      && t.next.clients.Keys == s.clients.Keys + {id}
  {
  }

  /** A session "Quiz" of 30 seconds: the first connection becomes admin 1,
      the second is participant 2 and is shown participant 1, the admin's
      Resume announces 30000 ms, and participant 2's buzz is announced to
      both and pauses the countdown. */
  lemma QuizScenario()
    ensures
      var s0 := NewSession(7, "Quiz", 30, 0);
      var t1 := Step(s0, Intent(Connect), 1);
      var t2 := Step(t1.next, Intent(Connect), 2);
      var t3 := Step(t2.next, Intent(ResumeSession(1)), 3);
      var t4 := Step(t3.next, Intent(Buzz(2)), 5_000_000);
      && t1.out[0] == Deliver({1}, {ConnectionSuccess(1, true, "Quiz", 30, 0, Status.Waiting)})
      && t2.out[0] == Deliver({2}, {ConnectionSuccess(2, false, "Quiz", 30, 0, Status.Waiting)})
      && t2.out[1] == Deliver({2}, {Connected("user1", 1)})
      && t3.out[0] == Deliver({1, 2}, {Resumed(30000)})
      && t4.out == [Deliver({1, 2}, {Buzzed(2)})]
      && t4.next.status == Status.Paused
      && t4.next.elapsed == 4_999_997
  {
    var s0 := NewSession(7, "Quiz", 30, 0);
    var t1 := Step(s0, Intent(Connect), 1);
    var t2 := Step(t1.next, Intent(Connect), 2);
    assert UserName(1) == "user1";
    assert Roster(t1.next.clients) == {Connected("user1", 1)};
    assert t2.next.clients.Keys == {1, 2};
  }
}
