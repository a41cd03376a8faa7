/** Whose frame is in `latest`. A frame outlives its client there whenever another connection takes its number
    before it is cleared, or a superseded handler publishes late; exactly when it does, for how long, and how
    long `latest` stays empty once it is. What an output goes on showing is another matter, and not the
    server's. */
module Takeover {
  import opened Words
  import opened Server
  import opened Supersession
  import opened FrameIntegrity
  import opened LateWriters
  import OneClient

  /** The frame in `latest` was published by a handler since superseded. */
  predicate Outdated(s: State) {
    s.latest.Some? && s.author < s.activeGen
  }

  /** The frame in `latest` belongs to no client the server still talks to. */
  predicate Orphaned(s: State) {
    s.latest.Some?
    && forall c :: 0 <= c < |s.connections| && OneClient.Open(s.connections[c]) ==>
       s.connections[c].generation != s.author
  }

  // ---- the current generation's client is still there ----

  predicate AuthorHasHandler(s: State) {
    s.latest.Some? ==> exists h :: 0 <= h < |s.handlers| && s.handlers[h].generation == s.author
  }

  /** While it is being accepted a connection stays open, and so does the one the current handler reads. */
  predicate CurrentIsOpen(s: State) {
    && (!s.acceptor.Listening? ==> s.acceptor.conn < |s.connections| && OneClient.Open(s.connections[s.acceptor.conn]))
    && (forall h :: 0 <= h < |s.handlers| && s.handlers[h].generation == s.activeGen ==>
          HandlerAt(s, h) && OneClient.Open(s.connections[s.handlers[h].conn]))
  }

  predicate AuthorInv(s: State) {
    OneClient.AcceptInv(s) && AuthorHasHandler(s) && CurrentIsOpen(s)
  }

  lemma StepKeepsAuthor(s: State, e: Event)
    requires AuthorHasHandler(s) && Enabled(s, e)
    ensures AuthorHasHandler(Step(s, e))
  {
    var t := Step(s, e);
    assert |s.handlers| <= |t.handlers|;
    assert forall h :: 0 <= h < |s.handlers| ==> t.handlers[h].generation == s.handlers[h].generation;
    if e.Publish? {
      assert t.handlers[e.handler].generation == t.author;
    } else if t.latest.Some? {
      var h :| 0 <= h < |s.handlers| && s.handlers[h].generation == s.author;
      assert t.handlers[h].generation == t.author;
    }
    hide Step, Enabled;
  }

  lemma AcceptorKeepsCurrentOpen(s: State, e: Event)
    requires OneClient.AcceptInv(s) && CurrentIsOpen(s) && Enabled(s, e) && OneClient.AcceptorEvent(e)
    ensures CurrentIsOpen(Step(s, e))
  {
  }

  lemma OthersKeepCurrentOpen(s: State, e: Event)
    requires CurrentIsOpen(s) && Enabled(s, e) && !OneClient.AcceptorEvent(e)
    ensures CurrentIsOpen(Step(s, e))
  {
    OneClient.OtherStepsFrame(s, e);
    hide Step, Enabled;
  }

  lemma StepKeepsAuthorInv(s: State, e: Event)
    requires AuthorInv(s) && Enabled(s, e)
    ensures AuthorInv(Step(s, e))
  {
    OneClient.StepKeepsAcceptInv(s, e);
    StepKeepsAuthor(s, e);
    if OneClient.AcceptorEvent(e) {
      AcceptorKeepsCurrentOpen(s, e);
    } else {
      OthersKeepCurrentOpen(s, e);
    }
    hide OneClient.AcceptInv, AuthorHasHandler, CurrentIsOpen, Step, Enabled;
  }

  lemma {:induction false} AuthorInvAlways(s: State, events: seq<Event>)
    requires AuthorInv(s) && Run(s, events)
    ensures AuthorInv(Exec(s, events))
    decreases |events|
  {
    hide AuthorInv, Step, Enabled;
    if events != [] {
      StepKeepsAuthorInv(s, events[0]);
      AuthorInvAlways(Step(s, events[0]), events[1..]);
    }
  }

  // ---- when a frame outlives its client ----

  /** Between accepts, a frame nobody connected owns is exactly one published by a superseded handler. */
  lemma OrphanedIffOutdated(events: seq<Event>)
    requires Run(INITIAL, events)
    ensures var s := Exec(INITIAL, events); s.acceptor.Listening? ==> (Orphaned(s) <==> Outdated(s))
  {
    AuthorInvAlways(INITIAL, events);
    hide Run, Exec, AuthorInv, Orphaned, Outdated;
    if Exec(INITIAL, events).acceptor.Listening? {
      BetweenAccepts(Exec(INITIAL, events));
    }
  }

  lemma BetweenAccepts(s: State)
    requires AuthorInv(s) && s.acceptor.Listening?
    ensures Orphaned(s) <==> Outdated(s)
  {
    if s.latest.Some? && s.author == s.activeGen {
      var h :| 0 <= h < |s.handlers| && s.handlers[h].generation == s.author;
      var c := s.handlers[h].conn;
      assert OneClient.Open(s.connections[c]) && s.connections[c].generation == s.author;
    }
  }

  /** The two causes: a connection takes its number while a frame is in `latest`, or a superseded handler
      publishes. */
  predicate Outdates(s: State, e: Event)
    requires Enabled(s, e)
  {
    (e.TakeNumber? && s.latest.Some?) || (e.Publish? && Superseded(s, e.handler))
  }

  /** The two remedies: anybody clears, or the current handler publishes. */
  predicate Renews(s: State, e: Event)
    requires Enabled(s, e)
  {
    e.Clear? || (e.Publish? && !Superseded(s, e.handler))
  }

  lemma OutdatedExactly(s: State, e: Event)
    requires AuthorInv(s) && Enabled(s, e)
    ensures Outdated(Step(s, e)) <==> if Outdated(s) then !Renews(s, e) else Outdates(s, e)
  {
    if s.latest.Some? {
      var h :| 0 <= h < |s.handlers| && s.handlers[h].generation == s.author;
      assert s.author <= s.activeGen;
    }
    hide AuthorInv;
  }

  predicate NeverOutdated(s: State, events: seq<Event>)
    requires Run(s, events)
    decreases |events|
  {
    !Outdated(s) && (events == [] || NeverOutdated(Step(s, events[0]), events[1..]))
  }

  predicate NothingOutdates(s: State, events: seq<Event>)
    requires Run(s, events)
    decreases |events|
  {
    events == [] || (!Outdates(s, events[0]) && NothingOutdates(Step(s, events[0]), events[1..]))
  }

  lemma {:induction false} NeverOutdatedFrom(s: State, events: seq<Event>)
    requires AuthorInv(s) && Run(s, events) && !Outdated(s)
    ensures NeverOutdated(s, events) <==> NothingOutdates(s, events)
    decreases |events|
  {
    hide AuthorInv, Outdated, Outdates, Step, Enabled;
    if events != [] {
      var t := Step(s, events[0]);
      OutdatedExactly(s, events[0]);
      StepKeepsAuthorInv(s, events[0]);
      if !Outdated(t) {
        NeverOutdatedFrom(t, events[1..]);
      } else {
        assert !NeverOutdated(t, events[1..]);
      }
    }
  }

  /** A whole run keeps every frame to its own client's time if and only if no connection in it takes its
      number while a frame is in `latest` and no superseded handler publishes. */
  lemma FramesKeepToTheirClientIff(events: seq<Event>)
    requires Run(INITIAL, events)
    ensures NeverOutdated(INITIAL, events) <==> NothingOutdates(INITIAL, events)
  {
    NeverOutdatedFrom(INITIAL, events);
  }

  // ---- and for how long ----

  /** No new connection takes its number, and only superseded handlers write; everybody else may do
      anything, so the current handler has neither published nor exited. */
  predicate OnlyLeftoversWrite(s: State, events: seq<Event>)
    requires Run(s, events)
    decreases |events|
  {
    events == [] ||
    (&& !events[0].TakeNumber?
     && (WritesLatest(events[0]) ==> Superseded(s, events[0].handler))
     && OnlyLeftoversWrite(Step(s, events[0]), events[1..]))
  }

  predicate NoLateClear(s: State) {
    forall h :: 0 <= h < |s.handlers| && Superseded(s, h) ==> !s.handlers[h].progress.AtClear?
  }

  lemma LeftoversKeepNoLateClear(s: State, e: Event)
    requires Enabled(s, e) && !e.TakeNumber? && (WritesLatest(e) ==> Superseded(s, e.handler))
    requires NoLateClear(s) && s.latest.Some?
    ensures NoLateClear(Step(s, e)) && Step(s, e).latest.Some? && Step(s, e).activeGen == s.activeGen
    ensures Outdated(s) ==> Outdated(Step(s, e))
  {
  }

  lemma {:induction false} NoLateClearForever(s: State, events: seq<Event>)
    requires Run(s, events) && OnlyLeftoversWrite(s, events) && NoLateClear(s) && s.latest.Some?
    ensures Exec(s, events).latest.Some?
    ensures Outdated(s) ==> Outdated(Exec(s, events))
    decreases |events|
  {
    hide NoLateClear, Outdated, Step, Enabled;
    if events != [] {
      LeftoversKeepNoLateClear(s, events[0]);
      NoLateClearForever(Step(s, events[0]), events[1..]);
    }
  }

  /** A superseded handler's late exit never takes the frame from `latest` if and only if none of them
      stands between its exit check and its clear. */
  lemma FrameIsSafeIffNoLateClear(s: State)
    requires FrameInv(s) && s.latest.Some?
    ensures (forall events :: Run(s, events) && OnlyLeftoversWrite(s, events) ==> Exec(s, events).latest.Some?) <==>
            NoLateClear(s)
  {
    if NoLateClear(s) {
      forall events | Run(s, events) && OnlyLeftoversWrite(s, events) ensures Exec(s, events).latest.Some? {
        NoLateClearForever(s, events);
      }
    } else {
      var h: nat :| h < |s.handlers| && Superseded(s, h) && s.handlers[h].progress.AtClear?;
      LateClearErases(s, h);
    }
  }

  lemma LateClearErases(s: State, h: nat)
    requires Superseded(s, h) && HandlerAt(s, h) && s.handlers[h].progress.AtClear?
    ensures Run(s, [Clear(h)]) && OnlyLeftoversWrite(s, [Clear(h)]) && Exec(s, [Clear(h)]).latest == None
  {
    assert Run(Step(s, Clear(h)), [Clear(h)][1..]);
    assert Enabled(s, [Clear(h)][0]);
    assert OnlyLeftoversWrite(Step(s, Clear(h)), [Clear(h)][1..]);
  }

  /** Every takeover, whatever becomes of the new connection: the frame in `latest` at that moment is now
      outdated; and it, or another outdated one, stays until the new handler publishes or exits or yet
      another connection takes its number, if and only if no handler stood at its clear. */
  lemma EveryTakeoverKeepsTheFrame(events: seq<Event>)
    requires Run(INITIAL, events) && Enabled(Exec(INITIAL, events), TakeNumber)
    ensures var s := Exec(INITIAL, events);
            var t := Step(s, TakeNumber);
            && (Outdated(t) <==> s.latest.Some?)
            && (s.latest.Some? ==>
                  ((forall more :: Run(t, more) && OnlyLeftoversWrite(t, more) ==> Outdated(Exec(t, more)))
                   <==> forall h :: 0 <= h < |s.handlers| ==> !s.handlers[h].progress.AtClear?))
  {
    AuthorInvAlways(INITIAL, events);
    FreshFrames();
    FrameInvAlways(INITIAL, events);
    hide Run, Exec, FrameInv;
    TakeoverKeepsTheFrame(Exec(INITIAL, events));
  }

  lemma FreshFrames()
    ensures FrameInv(INITIAL)
  {
  }

  lemma TakeoverKeepsTheFrame(s: State)
    requires FrameInv(s) && AuthorInv(s) && Enabled(s, TakeNumber)
    ensures var t := Step(s, TakeNumber);
            && (Outdated(t) <==> s.latest.Some?)
            && (s.latest.Some? ==>
                  ((forall more :: Run(t, more) && OnlyLeftoversWrite(t, more) ==> Outdated(Exec(t, more)))
                   <==> forall h :: 0 <= h < |s.handlers| ==> !s.handlers[h].progress.AtClear?))
  {
    OutdatedExactly(s, TakeNumber);
    StepKeepsFrameInv(s, TakeNumber);
    EverybodySuperseded(s);
    hide FrameInv, AuthorInv, Outdated, Step, Enabled, Run, Exec;
    if s.latest.Some? {
      OutdatedStaysIff(Step(s, TakeNumber));
    }
  }

  /** An outdated frame, or another one, stays until the current handler publishes or exits or another
      connection takes its number, if and only if no superseded handler stands at its clear. */
  lemma OutdatedStaysIff(s: State)
    requires FrameInv(s) && Outdated(s)
    ensures (forall more :: Run(s, more) && OnlyLeftoversWrite(s, more) ==> Outdated(Exec(s, more))) <==> NoLateClear(s)
  {
    hide FrameInv;
    if NoLateClear(s) {
      forall more | Run(s, more) && OnlyLeftoversWrite(s, more) ensures Outdated(Exec(s, more)) {
        NoLateClearForever(s, more);
      }
    } else {
      var h: nat :| h < |s.handlers| && Superseded(s, h) && s.handlers[h].progress.AtClear?;
      HandlersAttached(s);
      LateClearErases(s, h);
      assert !Outdated(Exec(s, [Clear(h)]));
    }
  }

  lemma HandlersAttached(s: State)
    requires FrameInv(s)
    ensures forall h :: 0 <= h < |s.handlers| ==> HandlerAt(s, h)
  {
  }

  lemma EverybodySuperseded(s: State)
    requires AuthorInv(s) && Enabled(s, TakeNumber)
    ensures var t := Step(s, TakeNumber);
            && t.handlers == s.handlers && t.latest == s.latest
            && (forall h :: 0 <= h < |t.handlers| ==> Superseded(t, h))
  {
  }

  // ---- exactly when `latest` stays empty after a disconnect ----

  predicate NoLatePublish(s: State) {
    forall h :: 0 <= h < |s.handlers| && Superseded(s, h) ==> !CanStillPublish(s, h)
  }

  lemma LeftoversKeepItEmpty(s: State, e: Event)
    requires FrameInv(s) && Enabled(s, e) && !e.TakeNumber? && (WritesLatest(e) ==> Superseded(s, e.handler))
    requires NoLatePublish(s) && s.latest == None
    ensures NoLatePublish(Step(s, e)) && Step(s, e).latest == None
  {
    hide FrameInv;
    var t := Step(s, e);
    forall h | 0 <= h < |t.handlers| && Superseded(t, h) ensures !CanStillPublish(t, h) {
      if h < |s.handlers| {
        assert Superseded(s, h);
        UnarmedStep(s, e, h);
      }
    }
    hide Arrived, Promised;
  }

  lemma {:induction false} EmptyForever(s: State, events: seq<Event>)
    requires FrameInv(s) && Run(s, events) && OnlyLeftoversWrite(s, events)
    requires NoLatePublish(s) && s.latest == None
    ensures Exec(s, events).latest == None
    decreases |events|
  {
    hide FrameInv, NoLatePublish, Step, Enabled;
    if events != [] {
      LeftoversKeepItEmpty(s, events[0]);
      StepKeepsFrameInv(s, events[0]);
      EmptyForever(Step(s, events[0]), events[1..]);
    }
  }

  lemma {:induction false} AloneIsLeftover(s: State, h: nat, events: seq<Event>)
    requires Run(s, events) && Superseded(s, h) && AllBy(events, h)
    ensures OnlyLeftoversWrite(s, events)
    decreases |events|
  {
    hide Step, Enabled;
    if events != [] {
      assert OnlyBy(events[0], h);
      StepSpendsAllowance(s, events[0], h);
      AloneIsLeftover(Step(s, events[0]), h, events[1..]);
    }
  }

  /** Once `latest` is empty, it stays so until the next client publishes if and only if no
      superseded handler has a complete frame in reach. */
  lemma LatestStaysEmptyIffNoLatePublish(s: State)
    requires FrameInv(s) && s.latest == None
    ensures (forall events :: Run(s, events) && OnlyLeftoversWrite(s, events) ==> Exec(s, events).latest == None) <==>
            NoLatePublish(s)
  {
    hide FrameInv, CanStillPublish;
    if NoLatePublish(s) {
      forall events | Run(s, events) && OnlyLeftoversWrite(s, events) ensures Exec(s, events).latest == None {
        EmptyForever(s, events);
      }
    } else {
      var h: nat :| h < |s.handlers| && Superseded(s, h) && CanStillPublish(s, h);
      var events := ArmedCanPublish(s, h);
      AloneIsLeftover(s, h, events);
      assert Run(s, events) && OnlyLeftoversWrite(s, events) && Exec(s, events).latest != None;
    }
  }

  /** When the current client's handler clears, `latest` is empty, and it stays so until the next
      client publishes if and only if no superseded handler had a complete frame in reach. */
  lemma CurrentExitEmptiesLatest(events: seq<Event>, h: nat)
    requires Run(INITIAL, events)
    requires var s := Exec(INITIAL, events); Enabled(s, Clear(h)) && !Superseded(s, h)
    ensures var s := Exec(INITIAL, events);
            var t := Step(s, Clear(h));
            && t.latest == None
            && ((forall more :: Run(t, more) && OnlyLeftoversWrite(t, more) ==> Exec(t, more).latest == None) <==>
                NoLatePublish(s))
  {
    FreshFrames();
    FrameInvAlways(INITIAL, events);
    hide FrameInv, Run, Exec;
    CurrentExit(Exec(INITIAL, events), h);
  }

  lemma CurrentExit(s: State, h: nat)
    requires FrameInv(s) && Enabled(s, Clear(h)) && !Superseded(s, h)
    ensures var t := Step(s, Clear(h));
            && t.latest == None
            && ((forall more :: Run(t, more) && OnlyLeftoversWrite(t, more) ==> Exec(t, more).latest == None) <==>
                NoLatePublish(s))
  {
    var t := Step(s, Clear(h));
    assert t.latest == None;
    StepKeepsFrameInv(s, Clear(h));
    ClearKeepsOthersReach(s, h);
    hide FrameInv, NoLatePublish, Run, Exec, Step, Enabled, Superseded;
    LatestStaysEmptyIffNoLatePublish(t);
  }

  lemma ClearKeepsOthersReach(s: State, h: nat)
    requires Enabled(s, Clear(h)) && !Superseded(s, h)
    ensures NoLatePublish(Step(s, Clear(h))) <==> NoLatePublish(s)
  {
    hide Arrived, Promised;
    var t := Step(s, Clear(h));
    assert forall k :: 0 <= k < |s.handlers| && k != h ==> CanStillPublish(t, k) == CanStillPublish(s, k);
  }
}
