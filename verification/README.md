# buzzer_rs session core in Dafny

A model of the coordinator behind a multi-participant buzzer game. Each game
is a session actor. It holds a countdown timer with three phases (Waiting,
Running, Paused), a roster of connected participants, one admin, and a
blacklist of participants who have already buzzed in the current countdown
cycle. The actor handles one message at a time, so every arm of its intent
handler is one indivisible step. The model is therefore a pure function

    Step(session, event, now) -> Transition(next session, outputs)

over an immutable `Session` record. An event is a tagged intent or the
firing of the scheduled expiry. Around it sit the process-wide session
registry (a map with create, get and delete) and the connection-side
mapping from decoded frames to tagged intents.

Modelling choices:

- `Instant` and `Duration` are natural numbers of nanoseconds.
  `as_millis` truncates to whole milliseconds and `as_secs` to whole seconds.
  The current instant `now` is a parameter and must not precede the last
  recorded start: the clock is monotonic.
- The scheduled expiry is the `pending` flag. Resume sets it. Buzz, Pause
  and ResetSession clear it, because they cancel the future. When the
  expiry fires it runs `reset()` and clears the flag. A `TimerFired` event
  with nothing pending is ignored, because a cancelled future never runs.
- A participant's connection address is identified with the participant
  id. Outputs are batches `Deliver(recipients, notices)`: every recipient
  gets every notice, in an order the model leaves open. A broadcast is the
  current roster with one notice. The roster replay on Connect is the
  newcomer with one `Connected` per existing member. The other outputs are
  `ScheduleExpiry(delayMs)` and `RegistryDelete(session)`.
- `ctx.stop()` sets `stopped`. A stopped session ignores every event.
- `random()` is an oracle: the sequence of candidate ids it would return.

Files: `clock.dfy` (time units), `protocol.dfy` (status, notices, tagged
intents), `decimal.dfy` (the `user{id}` rendering), `buzzer.dfy` (session
state, the invariant `Valid`, one function per handler arm, `Step`),
`session_facts.dfy` (single-step properties), `traces.dfy` (runs of many
steps), `connection.dfy` (raw intents and tagging), `registry.dfy`.

## Model

| member | source | states |
|---|---|---|
| Clock.FromSecs | src/main.rs:146 | A duration built from seconds is a whole number of seconds, and reading it back in seconds gives the same count. |
| Clock.AsMillisBounds | src/main.rs:161 | Truncation to milliseconds never rounds up and loses less than one millisecond. |
| Clock.AsMillisMonotone | src/main.rs:164 | Truncation to milliseconds is monotone, so the millisecond subtraction in the expiry delay cannot underflow when elapsed <= timer. |
| Clock.MillisOfDifference | src/main.rs:161-164 | For a whole-millisecond timer, the truncated remainder `(timer - elapsed).as_millis()` is at most the difference of the truncations, and at most one less. The difference of the truncations is the remainder rounded up to a whole millisecond. |
| Clock.AsU64 | src/main.rs:161-164 | The `as u64` cast keeps a count below 2^64 unchanged; a larger count wraps to the value below 2^64 congruent to it. |
| Clock.WholeSecondsAreWholeMillis | src/main.rs:146 | A timer set in whole seconds is a whole number of milliseconds. |
| Protocol.StatusCode | src/main.rs:70-76 | The status serialises as Paused = 0, Running = 1, Waiting = 2, and the code reads back as the same status. |
| Protocol.StatusOfCode | src/main.rs:70-76 | The reading of a status code accepts exactly the codes below 3. |
| Protocol.StatusCodeRoundTrip | src/main.rs:70-76 | Every accepted code is the encoding of the status it reads as. |
| Decimal.Render | src/main.rs:220 | The decimal rendering of an id is a non-empty digit string without leading zeros. |
| Decimal.ValueOfRender | src/main.rs:220 | Reading a rendered id back gives the id. |
| Decimal.RenderInjective | src/main.rs:220 | Distinct ids render differently. |
| Buzzer.UserName | src/main.rs:220 | The default display name is "user" followed by the decimal id. |
| Buzzer.UserNameInjective | src/main.rs:220 | Distinct participants get distinct default names. |
| Buzzer.NewSession | src/main.rs:344-357 | A new session is valid and Waiting, with nothing elapsed, an empty blacklist, an empty roster, admin 0 and id counter 0. Its timer is the given number of seconds. |
| Buzzer.Broadcast | src/main.rs:102-106 | A broadcast reaches exactly the participants on the roster and carries one notice. |
| Buzzer.Reset | src/main.rs:110-115 | Reset empties the blacklist, zeroes elapsed and returns to Waiting. Identity, name, timer, roster and admin are untouched, and everyone is told `Reset`. |
| Buzzer.Left | src/main.rs:161 | The announced time left is the remaining duration truncated to whole milliseconds, modulo 2^64. It is exact while the timer's milliseconds fit in 64 bits. It is 0 once elapsed reaches the timer. |
| Buzzer.Delay | src/main.rs:163-164 | The expiry delay is the timer's milliseconds minus the elapsed milliseconds, modulo 2^64. With a whole-millisecond timer whose milliseconds fit in 64 bits, it is the remaining time rounded up to a whole millisecond, so the announced time left or one more. It is 0 once elapsed reaches the timer. |
| Buzzer.OnBuzz | src/main.rs:128-138 | A buzz is accepted iff the countdown is Running and the sender is not blacklisted. Acceptance blacklists the sender, cancels the expiry, pauses, adds `now - lastStart` to elapsed and broadcasts `Buzzed`. Otherwise nothing changes and nothing is sent. |
| Buzzer.OnChangeName | src/main.rs:140-143 | A rename by a participant on the roster changes only that participant's name and broadcasts `ChangedName`. |
| Buzzer.OnChangeSession | src/main.rs:144-150 | Only the admin, and only while Waiting, can set the name and the timer in whole seconds; `Changed` is broadcast. Otherwise nothing happens. |
| Buzzer.Close | src/main.rs:151-157 | Closing tells the roster `Closed`, then asks the registry to delete this session, then stops; nothing else changes. |
| Buzzer.OnCloseSession | src/main.rs:151-157 | CloseSession closes the session iff it comes from the admin, and is ignored otherwise. |
| Buzzer.OnResume | src/main.rs:158-167 | Only the admin, and only when not Running, can resume. Resume sets Running, records `now` as the start, arms the expiry, broadcasts the time left in ms, then schedules the expiry after the delay. Otherwise nothing happens. After an overrun the time left and the delay are 0 (see Findings). |
| Buzzer.OnResumeAsWritten | src/main.rs:158-167 | The arm with the source's plain subtractions is defined only where `timer - elapsed` cannot underflow, and there it agrees with `OnResume`. |
| Buzzer.OnPause | src/main.rs:169-179 | Only the admin, and only while Running, can pause. Pause cancels the expiry, adds `now - lastStart` to elapsed, sets Paused and broadcasts `Paused`. Otherwise nothing happens. |
| Buzzer.OnResetSession | src/main.rs:180-187 | The admin's ResetSession cancels the expiry and resets; anyone else's is ignored. |
| Buzzer.OnResetBlacklist | src/main.rs:188-193 | The admin's ResetBlacklist empties only the blacklist and broadcasts `BlacklistCleared`; anyone else's is ignored. |
| Buzzer.OnDisconnected | src/main.rs:194-203 | The sender leaves the roster first. If the sender was admin, the remaining participants hear `Closed`, the registry is asked to delete the session, and it stops. Otherwise the remaining participants hear `Disconnected`. |
| Buzzer.Roster | src/main.rs:217-219 | The roster replay holds exactly one `Connected(name, id)` per current roster entry. |
| Buzzer.OnConnect | src/main.rs:204-223 | Connect mints `lastUid + 1`, which is not already on the roster. The new id becomes admin iff the roster was empty. The newcomer gets, in order, the snapshot (admin flag, name, timer in s, elapsed in ms cast to `u64`, status), then the roster replay. It then joins as `user{id}` and `Connected` goes to everyone, newcomer included. |
| Buzzer.OnTimerFired | src/main.rs:163-166 | A live expiry consumes itself and resets; a cancelled one does nothing. |
| Buzzer.Step | src/main.rs:122-226 | Every step preserves the invariant: an expiry is live iff Running, Waiting implies elapsed 0, the timer is whole seconds, and ids lie within the counter. It also keeps the admin on the roster of a live joined session. Elapsed only drops through a reset that broadcasts `Reset`. The id counter never decreases. A stopped session does nothing. |
| Traces.Run | src/main.rs:122-226 | Across any run of feasible steps the invariant holds, the counter never decreases, and a stopped session stays as it is. |
| Traces.StepBuzzCount | src/main.rs:128-138 | A step announces a buzz exactly when it is a Buzz that the guard accepts. |
| Traces.AtMostOneBuzzPerCycle | src/main.rs:128-138 | In any run without a Resume, at most one buzz is announced, and none unless the countdown was Running at the start. |
| Traces.BuzzRace | src/main.rs:128-138 | A race of buzzes against a running countdown has exactly one winner when any racer is not blacklisted, and none otherwise. |
| Traces.AdminIsStable | src/main.rs:204-208 | Once anyone has connected, no run of steps ever changes the admin. |
| Traces.EmptyRosterMeansFirstConnect | src/main.rs:206 | In a valid live session the roster is empty iff nobody has ever connected, so "admin when the roster is empty" means "admin when first". |
| Traces.LateBuzzOverrunsTimer | src/main.rs:128-161 | A feasible run exists in which a Buzz handled one nanosecond after the deadline leaves a live, Paused session whose elapsed time exceeds its timer. In that state the admin's Resume, as the source writes it, underflows. |
| Traces.FreshIdsAreNew | src/main.rs:97-100 | Every id that joins during a run is above the counter's value at the start, so ids are never reused. |
| SessionFacts.SecondBuzzIgnored | src/main.rs:128-138 | After an accepted buzz the countdown is Paused and every further buzz, from anyone, is ignored. |
| SessionFacts.BlacklistedBuzzIgnored | src/main.rs:129 | A blacklisted participant's buzz is ignored in any state. |
| SessionFacts.NonAdminIgnored | src/main.rs:144-193 | ChangeSession, CloseSession, ResumeSession, PauseSession, ResetSession and ResetBlacklist from a non-admin change nothing and send nothing. |
| SessionFacts.StatusGuards | src/main.rs:144-179 | Even from the admin: ChangeSession needs Waiting, Resume needs not Running, and Pause needs Running. |
| SessionFacts.ExpiryEqualsReset | src/main.rs:163-187 | The live expiry firing and the admin's ResetSession produce the same state and the same outputs. |
| SessionFacts.ResetOutcome | src/main.rs:180-187 | The admin's reset leaves an empty blacklist, elapsed 0, Waiting and no live expiry. Name, timer, roster and admin are kept and `Reset` goes to the roster. |
| SessionFacts.ResetBlacklistIdempotent | src/main.rs:188-193 | ResetBlacklist twice leaves the same state as once; the second repeats the same announcement. |
| SessionFacts.ResumeAnnouncement | src/main.rs:158-167 | For a valid session whose timer's milliseconds fit in 64 bits, the announced time left is the remainder truncated to ms. The scheduled delay is the remainder rounded up to a whole ms, so the time left or one ms more. |
| SessionFacts.HugeTimerWraps | src/main.rs:144-167 | A timer of 18446744073709552 s is 18446744073709552000 ms, 384 more than 2^64. Resuming it announces 384 ms left and schedules the expiry after 384 ms. |
| SessionFacts.OverrunResumeResetsAtOnce | src/main.rs:158-167 | Resuming a session whose elapsed time has passed its timer announces 0 ms left and schedules the expiry after 0 ms. When the expiry fires, the cycle is reset. |
| SessionFacts.ParticipantLeaves | src/main.rs:194-203 | A non-admin leaving is removed and announced to those who remain; the admin and countdown are untouched. |
| SessionFacts.AdminLeavingCloses | src/main.rs:194-199 | The admin leaving removes the admin, sends `Closed` to the rest, requests registry deletion and stops. |
| SessionFacts.AdminCloses | src/main.rs:151-157 | The admin's CloseSession sends `Closed` to the whole roster, requests registry deletion and stops, removing no one. |
| SessionFacts.StoppedIsFinal | src/main.rs:155 | A stopped session handles no further event, including its expiry. |
| SessionFacts.ConnectMintsFreshId | src/main.rs:204-208 | Connect mints an id above every roster id and adds exactly that id. The new id is admin iff the roster was empty. |
| SessionFacts.QuizScenario | src/main.rs:204-223 | Session "Quiz" with a 30 s timer: 1 joins as admin, 2 joins and is shown 1, Resume announces 30000 ms, and 2's buzz reaches both and pauses. |
| Connection.Opened | src/main.rs:481-484 | A new connection holds participant id 0. |
| Connection.UnjoinedConnectionPassesAdminGuard | src/main.rs:352 | In a session nobody has joined, admin is 0, which is also the id a connection tags its intents with before its welcome. Such a connection's CloseSession therefore closes the session and deletes it from the registry. |
| Connection.Receive | src/main.rs:246-249 | Only the `ConnectionSuccess` welcome changes the connection's id, and it sets the id to the welcomed one. |
| Connection.Untag | src/main.rs:284-295 | Dropping the sender gives back the raw intent of the same name; only Connect maps to Connect. |
| Connection.Tag | src/main.rs:284-295 | Each raw intent becomes the tagged intent of the same name, and every intent except Connect carries the connection's current id. |
| Connection.TagUntag | src/main.rs:284-295 | A tagged intent is recovered from its raw intent and its sender's id. |
| Connection.WelcomedConnectionIsOnRoster | src/main.rs:247-249 | After the welcome from a Connect, the connection tags intents with the minted id. That id is on the roster, so its ChangeName is one the session can handle. |
| Registry.Create | src/main.rs:338-362 | Create takes the first oracle candidate not already registered. It registers that id with its address, changes no other entry, and starts a fresh waiting session under it. It is Exhausted iff every candidate is taken. |
| Registry.Get | src/main.rs:370-375 | Get returns the address iff the id is registered, else NotFound. |
| Registry.Delete | src/main.rs:363-369 | Delete answers Ok iff the id was registered and NotFound otherwise. Afterwards the id is absent and every other entry is unchanged. |
| Registry.DeleteIdempotent | src/main.rs:363-369 | Deleting twice equals deleting once, and the second answer is NotFound. |
| Registry.GetAfterCreate | src/main.rs:360 | A created id is found with its address, and lookups of other ids answer as before. |
| Registry.CloseUnregisters | src/main.rs:154 | The deletion requested by a closing session is answered Ok and removes exactly that session's entry. |

## Left out

- The actix runtime: mailboxes, `do_send`, `SpawnHandle`, `cancel_future`, `ctx.stop`. They are modelled as sequential steps with an output log; the framework provides the concurrency.
- The real clock (`Instant::now`). The instant is a parameter, and steps require it not to precede the last recorded start. Subtracting a later instant from an earlier one is never exercised.
- WebSocket transport details in the connection: the keep-alive ping, pong, close frames, protocol errors turning into `Disconnected`, and binary/continuation logging (src/main.rs:238-240, 262-307). Only the frame-to-intent mapping is modelled.
- serde JSON (de)serialisation of notices and raw intents, and the "faulty message" path. This is derive-generated library code.
- The HTTP routes, Tera templating and process start-up (src/main.rs:380-518), including hex formatting and parsing of session ids.
- `random()`: replaced by a finite oracle of candidate ids.
- Registry.Create: when every oracle candidate is taken it returns `Exhausted`. The source keeps drawing forever.
- The browser script (static/js/session.js): DOM updates, rendering, audio, the countdown display and key bindings.
- 64-bit widths of the `u64` id counter, the session ids and the seconds of a requested timer, and `Duration` addition in Buzz and Pause: these are unbounded here. Their overflow needs about 2^64 connections, a client sending a number that does not fit the type it is decoded into, or centuries of elapsed time. The `as u64` casts of millisecond counts are modelled (`Clock.AsU64`), because a client-chosen timer can exceed 2^64 ms.
- Buzzer.OnChangeName: requires the sender to be on the roster. The source `unwrap`s the lookup and panics otherwise; the panic is not modelled.
- Buzzer.OnResumeAsWritten: requires `ResumeDefined`, elapsed <= timer when the guard passes, because the source's `timer - elapsed` panics otherwise; the panic is not modelled. `Step` uses the corrected `Buzzer.OnResume`, which needs no such condition.
- No `elapsed <= timer` invariant is claimed. Nothing in the handler stops a Buzz or Pause handled after the deadline, but before the expiry callback runs, from pushing elapsed past the timer (`Traces.LateBuzzOverrunsTimer`).
- Buzzer.OnTimerFired: the model lets a live expiry fire at any instant. It does not tie the firing to `lastStart + delay`, because the runtime decides when the callback runs.

Behaviour of the source worth noting:

- The admin is the newcomer who finds the roster empty. `Traces.EmptyRosterMeansFirstConnect` shows that this is the first newcomer ever, in a valid live session.
- The remaining time in `Resumed` is truncated to whole milliseconds.
- Nothing keeps the blacklist within the ids that have connected. A connection not yet welcomed sends as id 0, and that id can be blacklisted.
- A timer whose milliseconds exceed 2^64 wraps in the `Resumed` announcement and in the expiry delay (`SessionFacts.HugeTimerWraps`).

## Findings

| source | as written | input that shows it | evidently intended | confidence | as-written member | corrected member |
|---|---|---|---|---|---|---|
| src/main.rs:158-164 | Resume computes `timer - elapsed` on `Duration`, which panics when elapsed exceeds timer. A Buzz or Pause handled after the deadline, before the expiry callback runs, puts the session in that state. | A 1 s session: Connect at 0, admin Resume at 0, admin Buzz at 1_000_000_001 ns, then admin Resume (`Traces.LateBuzzOverrunsTimer`). | Resuming an overrun session has no time left: it announces 0 ms and schedules the expiry at once, which resets the cycle (`SessionFacts.OverrunResumeResetsAtOnce`). | not executed | Buzzer.OnResumeAsWritten | Buzzer.OnResume |
