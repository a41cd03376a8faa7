/** How often a handler that a newer connection superseded still writes `latest`. */
module Supersession {
  import opened Server

  predicate Superseded(s: State, h: nat) {
    h < |s.handlers| && s.handlers[h].generation < s.activeGen
  }

  predicate WritesLatest(e: Event) {
    e.Publish? || e.Clear?
  }

  predicate LateWrite(s: State, e: Event, h: nat) {
    WritesLatest(e) && e.handler == h && Superseded(s, h)
  }

  /** How often handler `h` writes `latest` while superseded. */
  function LateWritesBy(s: State, events: seq<Event>, h: nat): nat
    requires Run(s, events)
    decreases |events|
  {
    if events == [] then 0
    else (if LateWrite(s, events[0], h) then 1 else 0) + LateWritesBy(Step(s, events[0]), events[1..], h)
  }

  /** Where a superseded handler writes no more. */
  predicate Harmless(p: Progress) {
    p.AtPing? || p.AtLoopHead? || p.AtExitCheck? || p.Finished?
  }

  /** The writes a handler may still make once superseded: none after it has seen the new generation,
      published, or reached the loop head or the exit check, one if it is caught in between. */
  function Allowance(s: State, h: nat): nat {
    if Superseded(s, h) && Harmless(s.handlers[h].progress) then 0 else 1
  }

  lemma StepSpendsAllowance(s: State, e: Event, h: nat)
    requires Enabled(s, e)
    ensures (if LateWrite(s, e, h) then 1 else 0) + Allowance(Step(s, e), h) <= Allowance(s, h)
    ensures Superseded(s, h) ==> Superseded(Step(s, e), h)
  {
    hide AfterRead;
  }

  /** Once superseded a handler writes `latest` at most once more, publish or clear, for the rest of
      the run; not at all if it was superseded at the loop head or before its exit check. */
  lemma {:induction false} LateWritesWithinAllowance(s: State, events: seq<Event>, h: nat)
    requires Run(s, events)
    ensures LateWritesBy(s, events, h) <= Allowance(s, h) <= 1
    ensures !Superseded(Exec(s, events), h) ==> LateWritesBy(s, events, h) == 0
    decreases |events|
  {
    if events != [] {
      StepSpendsAllowance(s, events[0], h);
      LateWritesWithinAllowance(Step(s, events[0]), events[1..], h);
      SupersededForGood(s, events, h);
    }
  }

  lemma {:induction false} SupersededForGood(s: State, events: seq<Event>, h: nat)
    requires Run(s, events)
    ensures Superseded(s, h) ==> Superseded(Exec(s, events), h)
    decreases |events|
  {
    if events != [] {
      StepSpendsAllowance(s, events[0], h);
      SupersededForGood(Step(s, events[0]), events[1..], h);
    }
  }

  /** A handler already superseded when it makes its exit check never clears, nor writes at all. */
  lemma SupersededExitNeverWrites(s: State, events: seq<Event>, h: nat)
    requires Run(s, events) && Superseded(s, h) && s.handlers[h].progress.AtExitCheck?
    ensures LateWritesBy(s, events, h) == 0
  {
    LateWritesWithinAllowance(s, events, h);
  }

  /** All writes by superseded handlers in a run. */
  function LateWrites(s: State, events: seq<Event>): nat
    requires Run(s, events)
    decreases |events|
  {
    if events == [] then 0
    else
      (if WritesLatest(events[0]) && Superseded(s, events[0].handler) then 1 else 0)
      + LateWrites(Step(s, events[0]), events[1..])
  }

  /** The late writes of the first `n` handlers. */
  function LateWritesOfFirst(s: State, events: seq<Event>, n: nat): nat
    requires Run(s, events)
  {
    if n == 0 then 0 else LateWritesOfFirst(s, events, n - 1) + LateWritesBy(s, events, n - 1)
  }

  function SupersededAmongFirst(s: State, n: nat): nat {
    if n == 0 then 0 else SupersededAmongFirst(s, n - 1) + if Superseded(s, n - 1) then 1 else 0
  }

  lemma {:induction false} FirstEventSplitsOff(s: State, events: seq<Event>, n: nat)
    requires Run(s, events) && events != []
    ensures var e := events[0];
            LateWritesOfFirst(s, events, n) ==
            (if WritesLatest(e) && Superseded(s, e.handler) && e.handler < n then 1 else 0)
            + LateWritesOfFirst(Step(s, e), events[1..], n)
  {
    if n > 0 {
      FirstEventSplitsOff(s, events, n - 1);
    }
  }

  lemma {:induction false} NoEventsNoLateWrites(s: State, n: nat)
    ensures LateWritesOfFirst(s, [], n) == 0
  {
    if n > 0 {
      NoEventsNoLateWrites(s, n - 1);
    }
  }

  lemma {:induction false} LateWritesSplitByHandler(s: State, events: seq<Event>)
    requires Run(s, events)
    ensures |s.handlers| <= |Exec(s, events).handlers|
    ensures forall n :: n >= |Exec(s, events).handlers| ==> LateWrites(s, events) == LateWritesOfFirst(s, events, n)
    decreases |events|
  {
    if events == [] {
      forall n: nat | n >= |s.handlers| ensures LateWrites(s, events) == LateWritesOfFirst(s, events, n) {
        NoEventsNoLateWrites(s, n);
      }
    } else {
      var next := Step(s, events[0]);
      LateWritesSplitByHandler(next, events[1..]);
      assert |s.handlers| <= |next.handlers|;
      forall n: nat | n >= |Exec(s, events).handlers| ensures LateWrites(s, events) == LateWritesOfFirst(s, events, n) {
        FirstEventSplitsOff(s, events, n);
      }
    }
  }

  lemma {:induction false} EachHandlerPaysForItself(s: State, events: seq<Event>, n: nat)
    requires Run(s, events)
    ensures LateWritesOfFirst(s, events, n) <= SupersededAmongFirst(Exec(s, events), n)
  {
    if n > 0 {
      EachHandlerPaysForItself(s, events, n - 1);
      LateWritesWithinAllowance(s, events, n - 1);
    }
  }

  /** Over any run, superseded handlers write `latest` no more often than there are superseded
      handlers in the end. */
  lemma LateWritesBounded(s: State, events: seq<Event>)
    requires Run(s, events)
    ensures var t := Exec(s, events);
            LateWrites(s, events) <= SupersededAmongFirst(t, |t.handlers|)
  {
    var n := |Exec(s, events).handlers|;
    LateWritesSplitByHandler(s, events);
    EachHandlerPaysForItself(s, events, n);
  }
}
