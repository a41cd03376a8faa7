/** What every run of the authentication machine guarantees. */
module AuthTheorems {
  import opened Words
  import opened Auth
  import opened AuthMachine

  lemma {:induction false} InvAlways(s: State, events: seq<Event>)
    requires Inv(s) && Run(s, events)
    ensures Inv(Exec(s, events))
    decreases |events|
  {
    if events != [] {
      StepKeepsInv(s, events[0]);
      InvAlways(Step(s, events[0]), events[1..]);
    }
  }

  lemma RunPrepend(s: State, e: Event, rest: seq<Event>)
    requires Enabled(s, e) && Run(Step(s, e), rest)
    ensures Run(s, [e] + rest) && Exec(s, [e] + rest) == Exec(Step(s, e), rest)
  {
    assert ([e] + rest)[1..] == rest;
  }

  lemma InitiallyInv()
    ensures Inv(INITIAL)
  {
    assert Replay([]) == "";
  }

  /** At most one attempt is anywhere between the key press and its verdict, `verifying` says exactly
      whether there is one, and a verdict that can be delivered answers the latest submission, although
      `on_auth` compares no ids. While the worker does not panic, a submission is always delivered. */
  lemma OneAttemptInFlight(events: seq<Event>)
    requires Run(INITIAL, events)
    ensures var t := Exec(INITIAL, events);
            t.exit == None ==>
              && InFlight(t) == (if t.fields.verifying then 1 else 0)
              && (t.results != [] ==>
                    && t.submissions != []
                    && t.results[0].id == Last(t).attempt.id
                    && t.calls != [] && t.calls[|t.calls| - 1].attempt == Last(t).attempt
                    && Judges(t.results[0].outcome, t.calls[|t.calls| - 1].reply))
              && (!t.fields.verifying ==> !t.worker.Gone?)
  {
    hide Run, Exec, PaceInv, BufferInv, SubmissionsInv;
    InitiallyInv();
    InvAlways(INITIAL, events);
  }

  /** `press_key` reaches `submit` only when neither of its guards can fire, and then either the buffer
      is empty or the attempt is queued and delivered. */
  lemma SubmitGuardsNeverFire(events: seq<Event>, key: KeyEvent, now: Time, later: Time)
    requires Run(INITIAL, events) && IsEnter(key)
    requires Enabled(Exec(INITIAL, events), Key(key, now, later))
    ensures var t := Exec(INITIAL, events);
            !t.fields.verifying && !BackoffActive(t.fields, now) ==>
              && !BackoffActive(t.fields, later)
              && (t.fields.password != "" ==>
                    Step(t, Key(key, now, later)).attempts == [Attempt(t.fields.nextAttemptId, t.fields.password)])
  {
    OneAttemptInFlight(events);
  }

  /** A running verification, a failure on display or an active backoff each mean an empty buffer; the
      first two exclude each other, and a failure is on display exactly from the refusal on, as long as nothing
      has been accepted since; the lock screen is told each of them exactly when it is so, and otherwise how
      much has been typed; and no control character is ever in the buffer or in flight, so every password
      prompt PAM raises is answered with the password. */
  lemma BufferAndView(events: seq<Event>)
    requires Run(INITIAL, events)
    ensures var t := Exec(INITIAL, events);
            && (View(t.fields) == Verifying <==> t.fields.verifying)
            && (View(t.fields) == Failed <==> t.fields.failed)
            && (!t.fields.verifying && !t.fields.failed ==> View(t.fields) == Idle(|t.fields.password|))
            && (t.fields.verifying || t.fields.failed || BackoffActive(t.fields, t.clock) ==> t.fields.password == "")
            && !(t.fields.verifying && t.fields.failed)
            && (t.exit != Some(0) ==> (t.fields.failed <==> !t.fields.verifying && t.failures != [] && t.edits == []))
            && t.fields.password == Replay(t.edits) && ControlFree(t.fields.password)
            && (t.exit == None && t.worker.Busy? ==>
                  forall prompt :: prompt == EchoOff || prompt == EchoOn ==>
                    Carries(Converse(t.worker.attempt.password, prompt), t.worker.attempt.password))
  {
    InitiallyInv();
    InvAlways(INITIAL, events);
    var t := Exec(INITIAL, events);
    hide Carries, Converse, Run, Exec, PaceInv;
    if t.exit == None && t.worker.Busy? {
      var password := t.worker.attempt.password;
      assert ControlFree(password);
      PasswordPromptIsAnswered(password, EchoOff);
      PasswordPromptIsAnswered(password, EchoOn);
    }
  }

  /** A failure comes on display with a delivered refusal, stays through whatever else happens, and goes with
      the next accepted edit. */
  lemma FailureShowsExactly(events: seq<Event>, e: Event)
    requires Run(INITIAL, events) && Enabled(Exec(INITIAL, events), e)
    ensures var s := Exec(INITIAL, events);
            var t := Step(s, e);
            t.fields.failed <==>
            if e.Deliver? then t.exit == None
            else
              s.fields.failed
              && !(e.Key? && IsEdit(e.key) && Accepting(s.fields, e.now))
  {
    hide Run, Exec, Inv, Enabled, Step, IsEdit;
    InitiallyInv();
    InvAlways(INITIAL, events);
    FailureAfter(Exec(INITIAL, events), e);
  }

  lemma FailureAfter(s: State, e: Event)
    requires Inv(s) && Enabled(s, e)
    ensures var t := Step(s, e);
            t.fields.failed <==>
            if e.Deliver? then t.exit == None
            else
              s.fields.failed
              && !(e.Key? && IsEdit(e.key) && Accepting(s.fields, e.now))
  {
    hide PaceInv, SubmissionsInv, Replay;
  }

  /** After the k-th failed verdict keys are ignored for exactly min(k, 5) seconds: at any time that can still
      come, a backoff is active if and only if less than that has passed and no attempt has been made since;
      and while it is, a key does nothing. */
  lemma BackoffEndsOnTime(events: seq<Event>, at: Time)
    requires Run(INITIAL, events) && Exec(INITIAL, events).exit == None && at >= Exec(INITIAL, events).clock
    ensures var t := Exec(INITIAL, events);
            && (BackoffActive(t.fields, at) <==>
                && !t.fields.verifying && t.failures != []
                && at < t.failures[|t.failures| - 1] + Min(|t.failures|, 5) * SECOND)
            && (BackoffActive(t.fields, at) ==>
                  forall key, later :: at <= later ==> Pressed(t, key, at, later) == t.(clock := later))
  {
    hide Run, Exec, Inv, BackoffActive, Pressed;
    InitiallyInv();
    InvAlways(INITIAL, events);
    var t := Exec(INITIAL, events);
    BackoffAt(t, at);
    if BackoffActive(t.fields, at) {
      forall key, later | at <= later ensures Pressed(t, key, at, later) == t.(clock := later) {
        IgnoredKey(t, key, at, later);
      }
    }
  }

  lemma BackoffAt(s: State, at: Time)
    requires Inv(s) && s.exit == None && at >= s.clock
    ensures BackoffActive(s.fields, at) <==>
            && !s.fields.verifying && s.failures != []
            && at < s.failures[|s.failures| - 1] + Min(|s.failures|, 5) * SECOND
  {
    assert NotBefore(s) == RetryFrom(s);
    hide Inv;
  }

  lemma IgnoredKey(s: State, key: KeyEvent, now: Time, later: Time)
    requires BackoffActive(s.fields, now)
    ensures Pressed(s, key, now, later) == s.(clock := later)
  {
    assert s.attempts + [] == s.attempts && s.submissions + [] == s.submissions;
  }

  /** The single gate: the process unlocks only when PAM's latest call succeeded for the latest
      submission, a non-empty password equal to the replay of the keys accepted since the buffer was
      last reset. */
  lemma UnlockMeansPamAccepted(events: seq<Event>)
    requires Run(INITIAL, events) && Exec(INITIAL, events).exit == Some(0)
    ensures var t := Exec(INITIAL, events);
            && t.submissions != [] && t.calls != []
            && t.calls[|t.calls| - 1].reply == Success
            && t.calls[|t.calls| - 1].attempt == Last(t).attempt
            && Last(t).attempt.password != ""
            && Last(t).attempt.password == Replay(Last(t).edits)
  {
    hide Run, Exec, PaceInv, BufferInv, Replay;
    InitiallyInv();
    InvAlways(INITIAL, events);
  }

  // ---- a success is never lost ----

  /** A verdict of success is with the worker, or in the result queue and the worker has left its loop. */
  predicate UnlockOnItsWay(s: State) {
    || (s.worker.Judged? && s.worker.outcome == Unlocked)
    || (s.results != [] && s.results[0].outcome == Unlocked && (s.worker.Leaving? || s.worker.Gone?))
  }

  /** Once PAM has succeeded it is not asked again, and the process ends or the unlock is on its way. */
  predicate SuccessInv(s: State) {
    forall i :: 0 <= i < |s.calls| && s.calls[i].reply == Success ==>
      i == |s.calls| - 1 && (s.exit != None || UnlockOnItsWay(s))
  }

  lemma StepKeepsSuccess(s: State, e: Event)
    requires FlightInv(s) && SuccessInv(s) && Enabled(s, e)
    ensures SuccessInv(Step(s, e))
  {
    var t := Step(s, e);
    if s.calls != [] && s.calls[|s.calls| - 1].reply == Success {
      assert UnlockOnItsWay(s);
    }
    hide PressKey, Refuse, Sweep, EditOf;
  }

  lemma {:induction false} SuccessAlways(s: State, events: seq<Event>)
    requires Inv(s) && SuccessInv(s) && Run(s, events)
    ensures SuccessInv(Exec(s, events))
    decreases |events|
  {
    if events != [] {
      FlightOf(s);
      StepKeepsSuccess(s, events[0]);
      StepKeepsInv(s, events[0]);
      hide Inv, SuccessInv, Step, Enabled;
      SuccessAlways(Step(s, events[0]), events[1..]);
    }
  }

  lemma FlightOf(s: State)
    requires Inv(s)
    ensures FlightInv(s)
  {
  }

  /** In every run a success of PAM is its last word: the process has ended, or the unlock is with the worker, or
      in the result queue, from where delivering it is all that is left to happen, and the worker asks no more. */
  lemma SuccessLeadsToUnlock(events: seq<Event>)
    requires Run(INITIAL, events)
    ensures SuccessInv(Exec(INITIAL, events))
  {
    InitiallyInv();
    SuccessAlways(INITIAL, events);
  }

  // ---- the pace of attempts ----

  /** Seconds enforced between the first submission and the n-th. */
  function BackoffTotal(n: nat): Time {
    if n <= 1 then 0 else BackoffTotal(n - 1) + Delay(n - 1)
  }

  lemma {:induction false} BackoffTotalGrows(n: nat)
    ensures BackoffTotal(n) >= (5 * n - 15) * SECOND
    ensures n <= 5 ==> BackoffTotal(n) >= n * (n - 1) / 2 * SECOND
  {
    if n > 1 {
      BackoffTotalGrows(n - 1);
      if n <= 5 {
        assert n == 2 || n == 3 || n == 4 || n == 5;
      }
    }
  }

  lemma {:induction false} SubmissionsSpread(s: State, n: nat)
    requires PaceInv(s) && 1 <= n <= |s.submissions|
    ensures s.submissions[n - 1].at >= s.submissions[0].at + BackoffTotal(n)
  {
    if n > 1 {
      SubmissionsSpread(s, n - 1);
      assert s.submissions[n - 1].at >= s.failures[n - 2] + Delay(n - 1);
      assert s.failures[n - 2] >= s.submissions[n - 2].at;
    }
  }

  /** After the k-th failed verdict the next submission comes at least min(k, 5) seconds later; the
      n-th submission therefore at least 5n - 15 seconds after the first, saturating counter or not. */
  lemma AttemptsArePaced(events: seq<Event>, n: nat)
    requires Run(INITIAL, events) && 1 <= n <= |Exec(INITIAL, events).submissions|
    ensures var t := Exec(INITIAL, events);
            && (n > 1 ==> n - 2 < |t.failures|
                          && t.submissions[n - 2].at <= t.failures[n - 2]
                          && t.submissions[n - 1].at >= t.failures[n - 2] + Min(n - 1, 5) * SECOND)
            && t.submissions[n - 1].at >= t.submissions[0].at + BackoffTotal(n)
            && t.submissions[n - 1].at >= t.submissions[0].at + (5 * n - 15) * SECOND
  {
    InitiallyInv();
    InvAlways(INITIAL, events);
    SubmissionsSpread(Exec(INITIAL, events), n);
    BackoffTotalGrows(n);
  }

  // ---- the eager sweep cannot be told from the lazy test ----

  function WithoutTicks(events: seq<Event>): seq<Event> {
    if events == [] then []
    else if events[0].Tick? then WithoutTicks(events[1..])
    else [events[0]] + WithoutTicks(events[1..])
  }

  /** The state as seen from time `at` on: an expired backoff is no backoff. */
  function SeenFrom(s: State, at: Time): State {
    s.(fields := Sweep(s.fields, at), clock := at)
  }

  /** `b` lags behind `a` by some ticks. */
  predicate SameButTicks(a: State, b: State) {
    b.clock <= a.clock && SeenFrom(a, a.clock) == SeenFrom(b, a.clock)
  }

  lemma TickIsInvisible(a: State, b: State, now: Time)
    requires SameButTicks(a, b) && Enabled(a, Tick(now))
    ensures SameButTicks(Step(a, Tick(now)), b)
  {
  }

  lemma StepTogether(a: State, b: State, e: Event)
    requires SameButTicks(a, b) && Enabled(a, e) && !e.Tick?
    ensures Enabled(b, e) && SameButTicks(Step(a, e), Step(b, e))
  {
    if e.Key? {
      assert BackoffActive(a.fields, e.now) == BackoffActive(b.fields, e.now);
      assert BackoffActive(a.fields, e.later) == BackoffActive(b.fields, e.later);
    }
  }

  lemma {:induction false} TicksCanBeDropped(a: State, b: State, events: seq<Event>)
    requires SameButTicks(a, b) && Run(a, events)
    ensures Run(b, WithoutTicks(events))
    ensures SameButTicks(Exec(a, events), Exec(b, WithoutTicks(events)))
    decreases |events|
  {
    if events != [] {
      var e, rest := events[0], events[1..];
      if e.Tick? {
        TickIsInvisible(a, b, e.now);
        TicksCanBeDropped(Step(a, e), b, rest);
      } else {
        StepTogether(a, b, e);
        TicksCanBeDropped(Step(a, e), Step(b, e), rest);
        RunPrepend(b, e, WithoutTicks(rest));
      }
    }
  }

  /** Two runs that differ only in their repaint ticks agree on everything but when an expired
      `locked_until` was erased; `backoff_active` answers alike at every time either can be asked. */
  lemma SweepIsInvisible(first: seq<Event>, second: seq<Event>, at: Time)
    requires Run(INITIAL, first) && Run(INITIAL, second) && WithoutTicks(first) == WithoutTicks(second)
    requires at >= Exec(INITIAL, first).clock && at >= Exec(INITIAL, second).clock
    ensures SeenFrom(Exec(INITIAL, first), at) == SeenFrom(Exec(INITIAL, second), at)
    ensures BackoffActive(Exec(INITIAL, first).fields, at) == BackoffActive(Exec(INITIAL, second).fields, at)
  {
    TicksCanBeDropped(INITIAL, INITIAL, first);
    TicksCanBeDropped(INITIAL, INITIAL, second);
    var common := Exec(INITIAL, WithoutTicks(first));
    SeenLater(Exec(INITIAL, first), common, at);
    SeenLater(Exec(INITIAL, second), common, at);
  }

  lemma SeenLater(a: State, b: State, at: Time)
    requires SameButTicks(a, b) && at >= a.clock
    ensures SeenFrom(a, at) == SeenFrom(b, at)
    ensures BackoffActive(a.fields, at) == BackoffActive(b.fields, at)
  {
  }
}
