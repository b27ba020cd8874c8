/** Runs of a session actor: the events its mailbox delivers, one at a time,
    each at an instant no earlier than the last recorded start. Properties
    that relate several steps live here. */
module Traces {
  import opened Protocol
  import opened Buzzer

  /** An event together with the instant the actor handles it. */
  datatype Timed = Timed(ev: Event, at: nat)

  /** Every step of `trace` from `s` meets the handler's demands. */
  predicate Feasible(s: Session, trace: seq<Timed>)
    decreases |trace|
  {
    |trace| == 0 ||
    (&& trace[0].at >= s.lastStart
     && Defined(s, trace[0].ev)
     && Feasible(Step(s, trace[0].ev, trace[0].at).next, trace[1..]))
  }

  /** The state after handling `trace` from `s`, and everything it emitted,
      in order. */
  function Run(s: Session, trace: seq<Timed>): (t: Transition)
    requires Feasible(s, trace)
    ensures Valid(s) ==> Valid(t.next)
    ensures t.next.id == s.id && t.next.lastUid >= s.lastUid
    ensures s.stopped ==> Ignored(s, t)
    decreases |trace|
  {
    if |trace| == 0 then Transition(s, [])
    else
      var first := Step(s, trace[0].ev, trace[0].at);
      var rest := Run(first.next, trace[1..]);
      Transition(rest.next, first.out + rest.out)
  }

  /** Whether an output announces an accepted buzz. */
  predicate AnnouncesBuzz(o: Output)
  {
    o.Deliver? && exists n :: n in o.notices && n.Buzzed?
  }

  /** Number of outputs that announce an accepted buzz. */
  function BuzzCount(out: seq<Output>): (n: nat)
    decreases |out|
  {
    if |out| == 0 then 0
    else (if AnnouncesBuzz(out[0]) then 1 else 0) + BuzzCount(out[1..])
  }

  lemma {:induction false} BuzzCountAppend(a: seq<Output>, b: seq<Output>)
    ensures BuzzCount(a + b) == BuzzCount(a) + BuzzCount(b)
    decreases |a|
  {
    if |a| == 0 {
      assert a + b == b;
    } else {
      assert (a + b)[1..] == a[1..] + b;
      BuzzCountAppend(a[1..], b);
    }
  }

  /** A single step announces a buzz exactly when it is an accepted Buzz. */
  lemma StepBuzzCount(s: Session, ev: Event, now: nat)
    requires now >= s.lastStart && Defined(s, ev)
    ensures BuzzCount(Step(s, ev, now).out) ==
      (if && !s.stopped && ev.Intent? && ev.msg.Buzz?
          && s.status == Status.Running && ev.msg.from !in s.blacklist
       then 1 else 0)
  {
    var t := Step(s, ev, now);
    if !s.stopped && ev.Intent? && ev.msg.Connect? {
      var id := t.next.lastUid;
      assert !AnnouncesBuzz(t.out[0]);
      assert !AnnouncesBuzz(t.out[1]) by {
        forall n | n in t.out[1].notices ensures !n.Buzzed? {
          assert n in Roster(s.clients);
        }
      }
      assert !AnnouncesBuzz(t.out[2]);
      assert BuzzCount(t.out[2..]) == 0 by {
        assert t.out[2..][1..] == [];
      }
      assert BuzzCount(t.out[1..]) == 0 by {
        assert t.out[1..][1..] == t.out[2..];
      }
    } else if |t.out| == 2 {
      assert !AnnouncesBuzz(t.out[0]) && !AnnouncesBuzz(t.out[1]);
      assert BuzzCount(t.out[1..]) == 0 by {
        assert t.out[1..][1..] == [];
      }
    } else if |t.out| == 1 {
      assert t.out[1..] == [];
    }
  }

  /** At most one buzz is accepted per countdown cycle: along any run in
      which nobody resumes, at most one buzz is announced, and none at all
      unless the countdown was running at the start. */
  lemma {:induction false} AtMostOneBuzzPerCycle(s: Session, trace: seq<Timed>)
    requires Feasible(s, trace)
    requires forall i :: 0 <= i < |trace| ==> !(trace[i].ev.Intent? && trace[i].ev.msg.ResumeSession?)
    ensures BuzzCount(Run(s, trace).out) <= (if s.status == Status.Running && !s.stopped then 1 else 0)
    decreases |trace|
  {
    if |trace| > 0 {
      var first := Step(s, trace[0].ev, trace[0].at);
      StepBuzzCount(s, trace[0].ev, trace[0].at);
      AtMostOneBuzzPerCycle(first.next, trace[1..]);
      BuzzCountAppend(first.out, Run(first.next, trace[1..]).out);
      if BuzzCount(first.out) == 1 {
        assert first.next.status == Status.Paused;
      } else if !(s.status == Status.Running && !s.stopped) {
        assert !(first.next.status == Status.Running && !first.next.stopped);
      }
    }
  }

  /** Whether every event of `trace` is a Buzz intent. */
  predicate OnlyBuzzes(trace: seq<Timed>)
  {
    forall i :: 0 <= i < |trace| ==> trace[i].ev.Intent? && trace[i].ev.msg.Buzz?
  }

  /** Whether some buzz in `trace` comes from outside `blacklist`. */
  predicate SomeEligible(trace: seq<Timed>, blacklist: set<UserId>)
    requires OnlyBuzzes(trace)
  {
    exists i :: 0 <= i < |trace| && trace[i].ev.msg.from !in blacklist
  }

  /** A race of buzzes against a running countdown has exactly one winner
      when anyone in it may still buzz, and none otherwise. */
  lemma {:induction false} BuzzRace(s: Session, trace: seq<Timed>)
    requires Feasible(s, trace) && OnlyBuzzes(trace)
    requires s.status == Status.Running && !s.stopped
    ensures BuzzCount(Run(s, trace).out) == (if SomeEligible(trace, s.blacklist) then 1 else 0)
    decreases |trace|
  {
    if |trace| > 0 {
      var first := Step(s, trace[0].ev, trace[0].at);
      var tail := trace[1..];
      StepBuzzCount(s, trace[0].ev, trace[0].at);
      BuzzCountAppend(first.out, Run(first.next, tail).out);
      assert OnlyBuzzes(tail) by {
        forall i | 0 <= i < |tail| ensures tail[i].ev.Intent? && tail[i].ev.msg.Buzz? {
          assert tail[i] == trace[i + 1];
        }
      }
      if trace[0].ev.msg.from !in s.blacklist {
        assert SomeEligible(trace, s.blacklist);
        AtMostOneBuzzPerCycle(first.next, tail);
      } else {
        assert first.next == s;
        BuzzRace(s, tail);
        if SomeEligible(trace, s.blacklist) {
          var i :| 0 <= i < |trace| && trace[i].ev.msg.from !in s.blacklist;
          assert i > 0 && tail[i - 1] == trace[i];
        } else {
          assert !SomeEligible(tail, s.blacklist) by {
            forall i | 0 <= i < |tail| ensures tail[i].ev.msg.from in s.blacklist {
              assert tail[i] == trace[i + 1];
            }
          }
        }
      }
    }
  }

  /** Once someone has connected, the admin never changes: the admin stays
      on the roster until leaving closes the session, so a later Connect
      never finds the roster empty. */
  lemma {:induction false} AdminIsStable(s: Session, trace: seq<Timed>)
    requires Valid(s) && s.lastUid > 0
    requires Feasible(s, trace)
    ensures Run(s, trace).next.admin == s.admin
    decreases |trace|
  {
    if |trace| > 0 {
      var first := Step(s, trace[0].ev, trace[0].at);
      assert first.next.admin == s.admin;
      AdminIsStable(first.next, trace[1..]);
    }
  }

  /** In a valid live session the roster is empty exactly when nobody has
      ever connected, so "admin when the roster is empty" means "admin when
      first". */
  lemma EmptyRosterMeansFirstConnect(s: Session)
    requires Valid(s) && !s.stopped
    ensures s.clients == map[] <==> s.lastUid == 0
  {
    if s.lastUid > 0 {
      assert s.admin in s.clients;
    }
  }

  /** Participant ids are never reused: every id on the roster after a run
      that was not on it before was minted during the run, above the
      counter's starting value. */
  lemma {:induction false} FreshIdsAreNew(s: Session, trace: seq<Timed>)
    requires Valid(s) && Feasible(s, trace)
    ensures forall u :: u in Run(s, trace).next.clients && u !in s.clients ==> s.lastUid < u
    decreases |trace|
  {
    if |trace| > 0 {
      var first := Step(s, trace[0].ev, trace[0].at);
      FreshIdsAreNew(first.next, trace[1..]);
      assert forall u :: u in first.next.clients && u !in s.clients ==> s.lastUid < u;
    }
  }

  /** Nothing stops a Buzz from being handled after the expiry came due: a
      one-second session, resumed at 0 and buzzed one nanosecond past its
      second, ends Paused with more time elapsed than the timer holds, where
      the admin's Resume as the source writes it underflows. */
  lemma LateBuzzOverrunsTimer()
    ensures var s0 := NewSession(7, "Q", 1, 0);
      var trace := [Timed(Intent(Connect), 0), Timed(Intent(ResumeSession(1)), 0),
                    Timed(Intent(Buzz(1)), 1_000_000_001)];
      && Feasible(s0, trace)
      && var s := Run(s0, trace).next;
      && Valid(s) && !s.stopped && s.admin == 1
      && s.status == Status.Paused && s.elapsed == s.timer + 1
      && !ResumeDefined(s, s.admin)
  {
    var s0 := NewSession(7, "Q", 1, 0);
    var trace := [Timed(Intent(Connect), 0), Timed(Intent(ResumeSession(1)), 0),
                  Timed(Intent(Buzz(1)), 1_000_000_001)];
    var s1 := Step(s0, Intent(Connect), 0).next;
    var s2 := Step(s1, Intent(ResumeSession(1)), 0).next;
    var s3 := Step(s2, Intent(Buzz(1)), 1_000_000_001).next;
    assert trace[1..] == [Timed(Intent(ResumeSession(1)), 0), Timed(Intent(Buzz(1)), 1_000_000_001)];
    assert trace[1..][1..] == [Timed(Intent(Buzz(1)), 1_000_000_001)];
    assert trace[1..][1..][1..] == [];
    assert Feasible(s3, []);
    assert Run(s0, trace).next == s3;
  }
}
