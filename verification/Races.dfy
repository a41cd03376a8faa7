/** Uninterrupted accepts and the runs in which a frame outlives its client. */
module Races {
  import opened Words
  import opened Wire
  import opened Server
  import opened Supersession
  import opened FrameIntegrity
  import opened LateWriters
  import opened Takeover
  import OneClient

  lemma RunOne(s: State, e: Event)
    requires Enabled(s, e)
    ensures Run(s, [e]) && Exec(s, [e]) == Step(s, e)
  {
    hide Enabled, Step;
    assert Run(Step(s, e), [e][1..]);
  }

  lemma RunTwo(s: State, e: Event, f: Event)
    requires Enabled(s, e) && Enabled(Step(s, e), f)
    ensures Run(s, [e, f]) && Exec(s, [e, f]) == Step(Step(s, e), f)
  {
    hide Enabled, Step;
    RunOne(Step(s, e), f);
    RunCons(s, e, [f]);
    assert [e] + [f] == [e, f];
  }

  /** The connections after the previous client was shut down and a new one got the next generation. */
  function Replaced(s: State): (r: seq<Connection>)
    requires s.activeStream.Some? ==> s.activeStream.value < |s.connections|
    ensures |r| == |s.connections| + 1
  {
    (match s.activeStream
     case Some(previous) => s.connections[previous := s.connections[previous].(shut := true)]
     case None => s.connections)
    + [Connection([], false, false, false, s.activeGen + 1)]
  }

  const NUMBERING: seq<Event> := [Connect, TakeNumber]
  const EVICTING: seq<Event> := [Evict, LoadGeometry]

  /** How every accept begins. */
  lemma AcceptBegins(s: State)
    requires s.acceptor.Listening? && (s.activeStream.Some? ==> s.activeStream.value < |s.connections|)
    ensures Run(s, NUMBERING + EVICTING)
    ensures Exec(s, NUMBERING + EVICTING) ==
            s.(activeGen := s.activeGen + 1, activeStream := None, connections := Replaced(s),
               acceptor := Greeting(|s.connections|, s.geometry))
  {
    var fresher := s.connections + [Connection([], false, false, false, s.activeGen + 1)];
    var numbered := s.(activeGen := s.activeGen + 1, connections := fresher, acceptor := Numbered(|s.connections|));
    NumberingRuns(s, numbered);
    EvictingRuns(s, numbered);
    hide Run, Exec, Step, Enabled, Replaced;
    RunConcat(s, NUMBERING, EVICTING);
  }

  lemma NumberingRuns(s: State, numbered: State)
    requires s.acceptor.Listening?
    requires numbered == s.(activeGen := s.activeGen + 1, acceptor := Numbered(|s.connections|),
                            connections := s.connections + [Connection([], false, false, false, s.activeGen + 1)])
    ensures Run(s, NUMBERING) && Exec(s, NUMBERING) == numbered
  {
    assert numbered == Step(Step(s, Connect), TakeNumber);
    RunTwo(s, Connect, TakeNumber);
    hide Run, Exec;
  }

  lemma EvictingRuns(s: State, numbered: State)
    requires s.activeStream.Some? ==> s.activeStream.value < |s.connections|
    requires numbered == s.(activeGen := s.activeGen + 1, acceptor := Numbered(|s.connections|),
                            connections := s.connections + [Connection([], false, false, false, s.activeGen + 1)])
    ensures Run(numbered, EVICTING)
    ensures Exec(numbered, EVICTING) ==
            s.(activeGen := s.activeGen + 1, activeStream := None, connections := Replaced(s),
               acceptor := Greeting(|s.connections|, s.geometry))
  {
    var evicted := Step(numbered, Evict);
    assert evicted.connections == Replaced(s);
    RunTwo(numbered, Evict, LoadGeometry);
    hide Run, Exec, Replaced;
  }

  /** What becomes of a new connection. */
  datatype Ending = Installed | HelloFailed | CloneFailed

  const SETTLING: seq<Event> := [WriteHello(true), CloneStream(true)]
  const INSTALLING: seq<Event> := [StoreStream, StartHandler]

  function EndOfAccept(ending: Ending): seq<Event> {
    match ending
    case Installed => SETTLING + INSTALLING
    case HelloFailed => [WriteHello(false)]
    case CloneFailed => [WriteHello(true), CloneStream(false)]
  }

  function Accepting(ending: Ending): (events: seq<Event>)
    ensures NoResize(events)
  {
    NUMBERING + EVICTING + EndOfAccept(ending)
  }

  /** No geometry update. */
  predicate NoResize(events: seq<Event>) {
    forall i :: 0 <= i < |events| ==> !events[i].SetGeometry?
  }

  lemma GreetingSettles(s: State, c: nat, g: Geometry)
    requires s.acceptor == Greeting(c, g) && c < |s.connections|
    ensures Run(s, SETTLING) && Exec(s, SETTLING) == s.(acceptor := Cloned(c))
  {
    RunTwo(s, WriteHello(true), CloneStream(true));
    hide Run, Exec;
  }

  lemma ClonedInstalls(s: State, c: nat)
    requires s.acceptor == Cloned(c) && c < |s.connections|
    ensures Run(s, INSTALLING)
    ensures Exec(s, INSTALLING) ==
            s.(activeStream := Some(c), acceptor := Listening,
               handlers := s.handlers + [Handler(c, s.connections[c].generation, AtLoopHead, 0, [], [], false)])
  {
    var stored := s.(activeStream := Some(c), acceptor := Stored(c));
    assert Step(s, StoreStream) == stored && Enabled(stored, StartHandler);
    assert Step(stored, StartHandler) ==
           stored.(acceptor := Listening,
                   handlers := s.handlers + [Handler(c, s.connections[c].generation, AtLoopHead, 0, [], [], false)]);
    hide Step, Enabled, Run, Exec;
    RunTwo(s, StoreStream, StartHandler);
  }

  /** How an accept ends when HELLO and the clone succeed. */
  lemma AcceptEnds(s: State, c: nat, g: Geometry)
    requires s.acceptor == Greeting(c, g) && c < |s.connections|
    ensures Run(s, EndOfAccept(Installed))
    ensures Exec(s, EndOfAccept(Installed)) ==
            s.(activeStream := Some(c), acceptor := Listening,
               handlers := s.handlers + [Handler(c, s.connections[c].generation, AtLoopHead, 0, [], [], false)])
  {
    hide Run, Exec, Step, Enabled;
    GreetingSettles(s, c, g);
    ClonedInstalls(s.(acceptor := Cloned(c)), c);
    RunConcat(s, SETTLING, INSTALLING);
  }

  lemma AcceptSucceeds(s: State)
    requires s.acceptor.Listening? && (s.activeStream.Some? ==> s.activeStream.value < |s.connections|)
    ensures Run(s, Accepting(Installed))
    ensures Exec(s, Accepting(Installed)) ==
            s.(activeGen := s.activeGen + 1, activeStream := Some(|s.connections|), connections := Replaced(s),
               handlers := s.handlers + [Handler(|s.connections|, s.activeGen + 1, AtLoopHead, 0, [], [], false)])
  {
    hide Run, Exec, Step, Enabled;
    AcceptBegins(s);
    AcceptEnds(Exec(s, NUMBERING + EVICTING), |s.connections|, s.geometry);
    assert Replaced(s)[|s.connections|].generation == s.activeGen + 1;
    hide Replaced;
    RunConcat(s, NUMBERING + EVICTING, EndOfAccept(Installed));
  }

  lemma AcceptFails(s: State, ending: Ending)
    requires s.acceptor.Listening? && (s.activeStream.Some? ==> s.activeStream.value < |s.connections|)
             && ending != Installed
    ensures Run(s, Accepting(ending))
    ensures var c := |s.connections|;
            Exec(s, Accepting(ending)) ==
            s.(activeGen := s.activeGen + 1, activeStream := None,
               connections := Replaced(s)[c := Replaced(s)[c].(closed := true)])
  {
    AcceptBegins(s);
    var greeting := Exec(s, NUMBERING + EVICTING);
    hide Replaced;
    if ending == HelloFailed {
      RunOne(greeting, WriteHello(false));
    } else {
      RunTwo(greeting, WriteHello(true), CloneStream(false));
    }
    RunConcat(s, NUMBERING + EVICTING, EndOfAccept(ending));
    hide Run, Exec;
  }

  /** An accept nobody interrupts, however it ends, leaves the frame in `latest` without a client if and
      only if there was one; and such a frame stays until the new handler publishes or exits or another
      connection takes its number, if and only if no old handler stood at its clear. */
  lemma EveryReplacementOrphansTheFrame(s: State, ending: Ending)
    requires AuthorInv(s) && FrameInv(s) && s.acceptor.Listening?
    ensures Run(s, Accepting(ending))
    ensures var t := Exec(s, Accepting(ending));
            && t.latest == s.latest && t.acceptor.Listening?
            && (Orphaned(t) <==> s.latest.Some?)
            && (s.latest.Some? ==>
                  ((forall more :: Run(t, more) && OnlyLeftoversWrite(t, more) ==> Outdated(Exec(t, more)))
                   <==> forall h :: 0 <= h < |s.handlers| ==> !s.handlers[h].progress.AtClear?))
  {
    hide Run, Exec, FrameInv;
    ReplacementState(s, ending);
    AuthorInvAlways(s, Accepting(ending));
    FrameInvAlways(s, Accepting(ending));
    var t := Exec(s, Accepting(ending));
    hide AuthorInv, Orphaned, Accepting;
    BetweenAccepts(t);
    if s.latest.Some? {
      OutdatedStaysIff(t);
    }
  }

  lemma ReplacementState(s: State, ending: Ending)
    requires AuthorInv(s) && s.acceptor.Listening?
    ensures Run(s, Accepting(ending))
    ensures var t := Exec(s, Accepting(ending));
            && t.latest == s.latest && t.acceptor.Listening?
            && (Outdated(t) <==> s.latest.Some?)
            && (NoLateClear(t) <==> forall h :: 0 <= h < |s.handlers| ==> !s.handlers[h].progress.AtClear?)
  {
    hide Run, Exec;
    if ending == Installed {
      AcceptSucceeds(s);
    } else {
      AcceptFails(s, ending);
    }
    var t := Exec(s, Accepting(ending));
    assert s.latest.Some? ==> s.author <= s.activeGen;
    assert forall h :: 0 <= h < |s.handlers| ==> t.handlers[h] == s.handlers[h] && Superseded(t, h);
    assert forall h :: |s.handlers| <= h < |t.handlers| ==> t.handlers[h].progress.AtLoopHead?;
    hide Accepting, Replaced;
  }

  predicate NoNewNumber(events: seq<Event>) {
    forall i :: 0 <= i < |events| ==> !events[i].TakeNumber?
  }

  /** Nobody streams: every handler is superseded and no connection is on its way to a handler. */
  predicate Deserted(s: State) {
    && (s.acceptor.Listening? || s.acceptor.Accepted?)
    && forall h :: 0 <= h < |s.handlers| ==> Superseded(s, h)
  }

  lemma DesertedStep(s: State, e: Event)
    requires Deserted(s) && Enabled(s, e) && !e.TakeNumber?
    ensures Deserted(Step(s, e))
    ensures HandlerEvent(e) ==> Superseded(s, e.handler)
  {
    assert forall h :: 0 <= h < |Step(s, e).handlers| ==>
           Superseded(s, h) && Step(s, e).handlers[h].generation == s.handlers[h].generation;
  }

  lemma {:induction false} DesertedHasOnlyLeftovers(s: State, events: seq<Event>)
    requires Deserted(s) && Run(s, events) && NoNewNumber(events)
    ensures OnlyLeftoversWrite(s, events)
    decreases |events|
  {
    hide Deserted, Step, Enabled;
    if events != [] {
      DesertedStep(s, events[0]);
      DesertedHasOnlyLeftovers(Step(s, events[0]), events[1..]);
    }
  }

  lemma FailedAcceptLeavesNobody(s: State, ending: Ending)
    requires OneClient.AcceptInv(s) && s.acceptor.Listening? && ending != Installed
    ensures Run(s, Accepting(ending))
    ensures var t := Exec(s, Accepting(ending));
            && t.latest == s.latest && t.handlers == s.handlers && t.acceptor.Listening? && Deserted(t)
            && (forall c :: 0 <= c < |t.connections| ==> !OneClient.Open(t.connections[c]))
  {
    AcceptFails(s, ending);
    hide Run, Exec, Accepting;
  }

  lemma DesertedFrameIsFrozenIffNoClear(s: State)
    requires FrameInv(s) && Deserted(s) && s.latest.Some?
    ensures (forall events :: Run(s, events) && NoNewNumber(events) ==> Exec(s, events).latest.Some?)
            <==> forall h :: 0 <= h < |s.handlers| ==> !s.handlers[h].progress.AtClear?
  {
    if h: nat :| h < |s.handlers| && s.handlers[h].progress.AtClear? {
      LateClearErases(s, h);
      assert NoNewNumber([Clear(h)]);
    } else {
      forall events | Run(s, events) && NoNewNumber(events) ensures Exec(s, events).latest.Some? {
        DesertedHasOnlyLeftovers(s, events);
        NoLateClearForever(s, events);
      }
    }
    hide FrameInv;
  }

  /** A replacement whose HELLO cannot be written, or whose stream cannot be cloned, leaves nobody connected
      and the old frame in `latest`; and it stays there until yet another connection takes a number, if and
      only if the old handler was not already at its clear. */
  lemma FailedReplacementFreezesTheFrame(s: State, ending: Ending)
    requires OneClient.AcceptInv(s) && FrameInv(s) && s.acceptor.Listening? && s.latest.Some? && ending != Installed
    ensures Run(s, Accepting(ending))
    ensures var t := Exec(s, Accepting(ending));
            && t.latest == s.latest
            && (forall c :: 0 <= c < |t.connections| ==> !OneClient.Open(t.connections[c]))
            && ((forall events :: Run(t, events) && NoNewNumber(events) ==> Exec(t, events).latest.Some?)
                <==> forall h :: 0 <= h < |s.handlers| ==> !s.handlers[h].progress.AtClear?)
  {
    hide FrameInv, Deserted, OneClient.AcceptInv, OneClient.Open, Run, Exec, Accepting;
    FailedAcceptLeavesNobody(s, ending);
    FrameInvAlways(s, Accepting(ending));
    DesertedFrameIsFrozenIffNoClear(Exec(s, Accepting(ending)));
  }

  // ---- a client streams one frame ----

  lemma HeaderBytes(before: seq<Byte>, f: Frame)
    ensures var received := before + Encode(f);
            |before| + 8 <= |received| && received[|before|..|before| + 8] == Header(f.width, f.height)
  {
    hide Header;
  }

  lemma HeaderDecides(f: Frame)
    requires WellFormed(f)
    ensures AfterRead(InHeader([]), Header(f.width, f.height)) == InPayload(f.width, f.height, [])
  {
    var header := Header(f.width, f.height);
    HeaderRoundTrip(f.width, f.height, []);
    assert header + [] == header && [] + header == header;
    hide Header, HeaderWidth, HeaderHeight;
  }

  lemma HeaderIsRead(s: State, h: nat, before: seq<Byte>, f: Frame)
    requires HandlerAt(s, h) && s.handlers[h].progress == InHeader([]) && s.handlers[h].consumed == |before|
    requires s.connections[s.handlers[h].conn].received == before + Encode(f) && WellFormed(f)
    ensures Enabled(s, ReadSome(h, 8))
    ensures Step(s, ReadSome(h, 8)) ==
            s.(handlers := s.handlers[h := s.handlers[h].(progress := InPayload(f.width, f.height, []),
                                                          consumed := |before| + 8)])
  {
    HeaderBytes(before, f);
    HeaderDecides(f);
    hide AfterRead, Encode, WellFormed;
  }

  lemma PayloadIsRead(s: State, h: nat, before: seq<Byte>, f: Frame)
    requires HandlerAt(s, h) && s.handlers[h].progress == InPayload(f.width, f.height, [])
             && s.handlers[h].consumed == |before| + 8
    requires s.connections[s.handlers[h].conn].received == before + Encode(f) && WellFormed(f)
    ensures Enabled(s, ReadSome(h, |f.rgba|))
    ensures Step(s, ReadSome(h, |f.rgba|)) ==
            s.(handlers := s.handlers[h := s.handlers[h].(progress := AtGeometry(f),
                                                          consumed := |before| + FrameLength(f))])
  {
    var received := before + Encode(f);
    var payload := received[|before| + 8..|before| + 8 + |f.rgba|];
    assert payload == f.rgba && [] + payload == payload;
    hide Header;
  }

  lemma FrameIsRead(s: State, h: nat, before: seq<Byte>, f: Frame)
    requires HandlerAt(s, h) && s.handlers[h].progress == InHeader([]) && s.handlers[h].consumed == |before|
    requires s.connections[s.handlers[h].conn].received == before + Encode(f) && WellFormed(f)
    ensures Run(s, [ReadSome(h, 8), ReadSome(h, |f.rgba|)])
    ensures Exec(s, [ReadSome(h, 8), ReadSome(h, |f.rgba|)]) ==
            s.(handlers := s.handlers[h := s.handlers[h].(progress := AtGeometry(f),
                                                          consumed := |before| + FrameLength(f))])
  {
    HeaderIsRead(s, h, before, f);
    var headed := Step(s, ReadSome(h, 8));
    PayloadIsRead(headed, h, before, f);
    hide Step, Enabled, Encode, WellFormed;
    RunTwo(s, ReadSome(h, 8), ReadSome(h, |f.rgba|));
  }

  function Streaming(c: nat, h: nat, f: Frame): (events: seq<Event>)
    ensures NoResize(events)
  {
    [ClientSends(c, Encode(f)), CheckGeneration(h)] + [ReadSome(h, 8), ReadSome(h, |f.rgba|)]
    + ([MatchGeometry(h)] + [Publish(h)]) + [Wake(h, true)]
  }

  lemma FrameIsSent(s: State, h: nat, f: Frame)
    requires HandlerAt(s, h) && s.handlers[h].progress.AtLoopHead? && s.handlers[h].generation == s.activeGen
    requires Fed(s.connections[s.handlers[h].conn])
    ensures var c := s.handlers[h].conn;
            && Run(s, [ClientSends(c, Encode(f)), CheckGeneration(h)])
            && Exec(s, [ClientSends(c, Encode(f)), CheckGeneration(h)]) ==
               s.(connections := s.connections[c := s.connections[c].(received := s.connections[c].received
                                                                                  + Encode(f))],
                  handlers := s.handlers[h := s.handlers[h].(progress := InHeader([]))])
  {
    var c := s.handlers[h].conn;
    RunTwo(s, ClientSends(c, Encode(f)), CheckGeneration(h));
    hide Run, Exec, Encode;
  }

  lemma PingIsSent(s: State, h: nat)
    requires HandlerAt(s, h) && s.handlers[h].progress.AtPing?
    ensures Run(s, [Wake(h, true)])
    ensures Exec(s, [Wake(h, true)]) == s.(handlers := s.handlers[h := s.handlers[h].(progress := AtLoopHead)])
  {
    WakeStep(s, h);
    hide Step, Enabled, Run, Exec;
    RunOne(s, Wake(h, true));
  }

  lemma WakeStep(s: State, h: nat)
    requires HandlerAt(s, h) && s.handlers[h].progress.AtPing?
    ensures Enabled(s, Wake(h, true))
    ensures Step(s, Wake(h, true)) == s.(handlers := s.handlers[h := s.handlers[h].(progress := AtLoopHead)])
  {
    assert HandlerStep(s, Wake(h, true)) == s.handlers[h].(progress := AtLoopHead);
    assert LatestAfter(s, Wake(h, true)) == s.latest && AuthorAfter(s, Wake(h, true)) == s.author;
    hide HandlerStep, LatestAfter, AuthorAfter;
  }

  /** A current client that sends one whole frame of the kiosk's size gets it into `latest`. */
  lemma StreamsAFrame(s: State, h: nat, f: Frame)
    requires HandlerAt(s, h) && s.handlers[h].progress.AtLoopHead? && s.handlers[h].generation == s.activeGen
    requires var c := s.connections[s.handlers[h].conn]; Fed(c) && s.handlers[h].consumed == |c.received|
    requires WellFormed(f) && Matches(f, s.geometry)
    ensures Run(s, Streaming(s.handlers[h].conn, h, f))
    ensures var t := Exec(s, Streaming(s.handlers[h].conn, h, f));
            && Streamed(s, t, h) && t.latest == Some(f)
  {
    var c := s.handlers[h].conn;
    var before := s.connections[c].received;
    FrameIsSent(s, h, f);
    var sent := Exec(s, [ClientSends(c, Encode(f)), CheckGeneration(h)]);
    FrameIsRead(sent, h, before, f);
    var complete := Exec(sent, [ReadSome(h, 8), ReadSome(h, |f.rgba|)]);
    hide Run, Exec, Encode, WellFormed;
    MatchingPublishes(complete, h);
    PublishedFrame(complete, h, f);
    var published := Exec(complete, [MatchGeometry(h)] + [Publish(h)]);
    PingIsSent(published, h);
    RunConcat(s, [ClientSends(c, Encode(f)), CheckGeneration(h)], [ReadSome(h, 8), ReadSome(h, |f.rgba|)]);
    RunConcat(s, [ClientSends(c, Encode(f)), CheckGeneration(h)] + [ReadSome(h, 8), ReadSome(h, |f.rgba|)],
              [MatchGeometry(h)] + [Publish(h)]);
    RunConcat(s, [ClientSends(c, Encode(f)), CheckGeneration(h)] + [ReadSome(h, 8), ReadSome(h, |f.rgba|)]
                 + ([MatchGeometry(h)] + [Publish(h)]), [Wake(h, true)]);
    hide Streaming;
  }

  lemma PublishedFrame(s: State, h: nat, f: Frame)
    requires HandlerAt(s, h) && s.handlers[h].progress == AtGeometry(f) && Matches(f, s.geometry)
    ensures Run(s, [MatchGeometry(h)] + [Publish(h)]) && Exec(s, [MatchGeometry(h)] + [Publish(h)]).latest == Some(f)
  {
    RunTwo(s, MatchGeometry(h), Publish(h));
    assert [MatchGeometry(h)] + [Publish(h)] == [MatchGeometry(h), Publish(h)];
    hide Run, Exec;
  }

  /** What streaming one frame comes to. */
  predicate Streamed(s: State, t: State, h: nat)
    requires HandlerAt(s, h)
  {
    var c := s.handlers[h].conn;
    && |t.handlers| == |s.handlers| && |t.connections| == |s.connections|
    && t == s.(latest := t.latest, author := s.handlers[h].generation, handlers := s.handlers[h := t.handlers[h]],
               connections := s.connections[c := t.connections[c]])
    && t.connections[c] == s.connections[c].(received := t.connections[c].received)
    && t.handlers[h].conn == s.handlers[h].conn && t.handlers[h].generation == s.handlers[h].generation
    && t.handlers[h].progress.AtLoopHead?
  }

  // ---- runs of a server whose kiosk is one pixel ----

  const TINY := Frame(1, 1, [0, 0, 0, 0])

  const READY := INITIAL.(geometry := Geometry(1, 1, 1))

  const ONE_CLIENT :=
    State(None, Geometry(1, 1, 1), 1, Some(0), Listening, [Handler(0, 1, AtLoopHead, 0, [], [], false)],
          [Connection([], false, false, false, 1)], 0)

  lemma FirstClientConnects()
    ensures Run(READY, Accepting(Installed)) && Exec(READY, Accepting(Installed)) == ONE_CLIENT
    ensures FrameInv(READY) && FrameInv(ONE_CLIENT)
  {
    hide Run, Exec, FrameInv, Accepting, Step, Enabled;
    AcceptSucceeds(READY);
    FirstState();
    ReadyInvariants();
    hide Replaced;
    FrameInvAlways(READY, Accepting(Installed));
  }

  lemma FirstState()
    ensures READY.handlers + [Handler(0, 1, AtLoopHead, 0, [], [], false)] == ONE_CLIENT.handlers
    ensures Replaced(READY) == ONE_CLIENT.connections
  {
  }

  lemma ReadyInvariants()
    ensures FrameInv(READY) && AuthorInv(READY)
  {
  }

  const LEAVING: seq<Event> := [ClientHangsUp(0), CheckGeneration(0)] + [ReadFails(0), CheckExit(0)]

  const ABOUT_TO_CLEAR :=
    ONE_CLIENT.(handlers := [Handler(0, 1, AtClear, 0, [], [], false)],
                connections := [Connection([], true, false, false, 1)])

  lemma FirstClientLeaves()
    ensures Run(ONE_CLIENT, LEAVING) && Exec(ONE_CLIENT, LEAVING) == ABOUT_TO_CLEAR
  {
    var reading := ONE_CLIENT.(handlers := [Handler(0, 1, InHeader([]), 0, [], [], false)],
                                       connections := [Connection([], true, false, false, 1)]);
    RunTwo(ONE_CLIENT, ClientHangsUp(0), CheckGeneration(0));
    RunTwo(reading, ReadFails(0), CheckExit(0));
    RunConcat(ONE_CLIENT, [ClientHangsUp(0), CheckGeneration(0)], [ReadFails(0), CheckExit(0)]);
    hide Run, Exec;
  }

  const SUCCESSOR :=
    State(None, Geometry(1, 1, 1), 2, Some(1), Listening,
          [Handler(0, 1, AtClear, 0, [], [], false), Handler(1, 2, AtLoopHead, 0, [], [], false)],
          [Connection([], true, true, false, 1), Connection([], false, false, false, 2)], 0)

  lemma SecondClientConnects()
    ensures Run(ABOUT_TO_CLEAR, Accepting(Installed)) && Exec(ABOUT_TO_CLEAR, Accepting(Installed)) == SUCCESSOR
  {
    hide Run, Exec, Accepting, Step, Enabled;
    AcceptSucceeds(ABOUT_TO_CLEAR);
    assert Replaced(ABOUT_TO_CLEAR) == SUCCESSOR.connections;
    assert ABOUT_TO_CLEAR.handlers + [Handler(1, 2, AtLoopHead, 0, [], [], false)] == SUCCESSOR.handlers;
    hide Replaced;
  }

  /** Against the comment at the clear: the first client hangs up and its handler passes the exit check; a
      second client connects and streams a frame; then the first handler clears it. */
  lemma LateClearRuns() returns (events: seq<Event>)
    ensures Run(READY, events) && NoResize(events)
    ensures var t := Exec(READY, events);
            && t.latest.Some? && |t.handlers| == 2 && t.handlers[1].generation == t.activeGen
            && t.handlers[1].progress.AtLoopHead? && t.acceptor.Listening?
            && Superseded(t, 0) && Enabled(t, Clear(0)) && Step(t, Clear(0)).latest == None
  {
    hide Run, Exec, FrameInv;
    FirstClientConnects();
    FirstClientLeaves();
    SecondClientConnects();
    RunConcat(READY, Accepting(Installed), LEAVING);
    RunConcat(READY, Accepting(Installed) + LEAVING, Accepting(Installed));
    StreamsAFrame(SUCCESSOR, 1, TINY);
    var streaming := Streaming(1, 1, TINY);
    RunConcat(READY, Accepting(Installed) + LEAVING + Accepting(Installed), streaming);
    events := Accepting(Installed) + LEAVING + Accepting(Installed) + streaming;
    var t := Exec(READY, events);
    assert t.handlers[0] == Handler(0, 1, AtClear, 0, [], [], false);
  }

  lemma SupersededLeaves(s: State, h: nat)
    requires Superseded(s, h) && HandlerAt(s, h) && s.handlers[h].progress.AtLoopHead?
    ensures Run(s, [CheckGeneration(h), CheckExit(h)])
    ensures Exec(s, [CheckGeneration(h), CheckExit(h)]) ==
            s.(handlers := s.handlers[h := s.handlers[h].(progress := Finished)])
  {
    RunTwo(s, CheckGeneration(h), CheckExit(h));
    hide Run, Exec;
  }

  const DEPARTING: seq<Event> := [CheckGeneration(0), CheckExit(0)]

  lemma AFrameIsLive() returns (events: seq<Event>)
    ensures Run(READY, events) && NoResize(events) && events == Accepting(Installed) + Streaming(0, 0, TINY)
    ensures var t := Exec(READY, events);
            && t.latest == Some(TINY) && t.author == t.activeGen == 1 && t.acceptor.Listening?
            && |t.handlers| == |t.connections| == 1 && t.activeStream == Some(0)
            && t.handlers[0].conn == 0 && t.handlers[0].generation == 1 && t.handlers[0].progress.AtLoopHead?
            && FrameInv(t) && AuthorInv(t)
  {
    hide Run, Exec, FrameInv, Accepting;
    FirstClientConnects();
    StreamsAFrame(ONE_CLIENT, 0, TINY);
    var streaming := Streaming(0, 0, TINY);
    RunConcat(READY, Accepting(Installed), streaming);
    events := Accepting(Installed) + streaming;
    FrameInvAlways(READY, events);
    ReadyInvariants();
    AuthorInvAlways(READY, events);
    hide AuthorInv;
  }

  /** Against "never a frozen last frame past a disconnect": a client streams a frame, its replacement comes
      to nothing, and every connection is gone, every handler finished, with the frame still there. */
  lemma FrozenFrameRuns(ending: Ending) returns (events: seq<Event>)
    requires ending != Installed
    ensures Run(READY, events) && NoResize(events)
    ensures var t := Exec(READY, events);
            && t.latest.Some? && t.acceptor.Listening?
            && (forall c :: 0 <= c < |t.connections| ==> !OneClient.Open(t.connections[c]))
            && (forall h :: 0 <= h < |t.handlers| ==> t.handlers[h].progress.Finished?)
  {
    hide Run, Exec, FrameInv, OneClient.AcceptInv, OneClient.Open, Accepting;
    var streamed := AFrameIsLive();
    var live := Exec(READY, streamed);
    FailedAcceptLeavesNobody(live, ending);
    RunConcat(READY, streamed, Accepting(ending));
    var deserted := Exec(live, Accepting(ending));
    FrameInvAlways(live, Accepting(ending));
    HandlersAttached(deserted);
    assert Superseded(deserted, 0) && HandlerAt(deserted, 0);
    SupersededLeaves(deserted, 0);
    RunConcat(READY, streamed + Accepting(ending), DEPARTING);
    events := streamed + Accepting(ending) + DEPARTING;
  }

  /** And with nothing failing at all: a client streams a frame, its replacement is installed and sends
      nothing, the first handler leaves, and its frame is still there. */
  lemma SilentReplacementRuns() returns (events: seq<Event>)
    ensures Run(READY, events) && NoResize(events)
    ensures var t := Exec(READY, events);
            && t.latest.Some? && Orphaned(t) && t.acceptor.Listening?
            && |t.connections| == |t.handlers| == 2
            && !OneClient.Open(t.connections[0]) && t.handlers[0].progress.Finished?
            && OneClient.Open(t.connections[1]) && t.connections[1].received == [] && t.handlers[1].progress.AtLoopHead?
  {
    hide Run, Exec, FrameInv, Accepting;
    var streamed := AFrameIsLive();
    var live := Exec(READY, streamed);
    AcceptSucceeds(live);
    RunConcat(READY, streamed, Accepting(Installed));
    var replaced := Exec(live, Accepting(Installed));
    SupersededLeaves(replaced, 0);
    RunConcat(READY, streamed + Accepting(Installed), DEPARTING);
    events := streamed + Accepting(Installed) + DEPARTING;
    var t := Exec(READY, events);
    assert t.connections == replaced.connections && replaced.connections == Replaced(live);
  }

  function Going(c: nat, h: nat): (events: seq<Event>)
    ensures NoResize(events)
  {
    [ClientHangsUp(c), CheckGeneration(h)] + [ReadFails(h), CheckExit(h)] + [Clear(h)]
  }

  /** The current client hangs up and its handler clears. */
  lemma CurrentClientGoes(s: State, h: nat)
    requires HandlerAt(s, h) && s.handlers[h].progress.AtLoopHead? && s.handlers[h].generation == s.activeGen
    ensures var c := s.handlers[h].conn;
            && Run(s, Going(c, h))
            && Exec(s, Going(c, h)) ==
               s.(latest := None, connections := s.connections[c := s.connections[c].(hungUp := true)],
                  handlers := s.handlers[h := s.handlers[h].(progress := Finished, cleared := true)])
  {
    var c := s.handlers[h].conn;
    var gone := s.(connections := s.connections[c := s.connections[c].(hungUp := true)]);
    HangsUp(s, h, gone);
    Exits(gone, h);
    var clearing := gone.(handlers := s.handlers[h := s.handlers[h].(progress := AtClear)]);
    Clears(clearing, h);
    assert clearing.handlers[h := clearing.handlers[h].(progress := Finished, cleared := true)]
           == s.handlers[h := s.handlers[h].(progress := Finished, cleared := true)];
    hide Run, Exec, Step, Enabled;
    RunConcat(s, [ClientHangsUp(c), CheckGeneration(h)], [ReadFails(h), CheckExit(h)]);
    RunConcat(s, [ClientHangsUp(c), CheckGeneration(h)] + [ReadFails(h), CheckExit(h)], [Clear(h)]);
  }

  lemma Clears(s: State, h: nat)
    requires HandlerAt(s, h) && s.handlers[h].progress.AtClear?
    ensures Run(s, [Clear(h)])
    ensures Exec(s, [Clear(h)]) ==
            s.(latest := None, handlers := s.handlers[h := s.handlers[h].(progress := Finished, cleared := true)])
  {
    ClearStep(s, h);
    hide Step, Enabled, Run, Exec;
    RunOne(s, Clear(h));
  }

  lemma ClearStep(s: State, h: nat)
    requires HandlerAt(s, h) && s.handlers[h].progress.AtClear?
    ensures Enabled(s, Clear(h))
    ensures Step(s, Clear(h)) ==
            s.(latest := None, handlers := s.handlers[h := s.handlers[h].(progress := Finished, cleared := true)])
  {
    assert HandlerStep(s, Clear(h)) == s.handlers[h].(progress := Finished, cleared := true);
    assert LatestAfter(s, Clear(h)) == None && AuthorAfter(s, Clear(h)) == s.author;
    hide HandlerStep, LatestAfter, AuthorAfter;
  }

  lemma HangsUp(s: State, h: nat, gone: State)
    requires HandlerAt(s, h) && s.handlers[h].progress.AtLoopHead? && s.handlers[h].generation == s.activeGen
    requires var c := s.handlers[h].conn;
             gone == s.(connections := s.connections[c := s.connections[c].(hungUp := true)])
    ensures var events := [ClientHangsUp(s.handlers[h].conn), CheckGeneration(h)];
            Run(s, events)
            && Exec(s, events) == gone.(handlers := s.handlers[h := s.handlers[h].(progress := InHeader([]))])
  {
    RunTwo(s, ClientHangsUp(s.handlers[h].conn), CheckGeneration(h));
    hide Run, Exec;
  }

  lemma Exits(s: State, h: nat)
    requires HandlerAt(s, h) && s.handlers[h].generation == s.activeGen
    ensures var reading := s.(handlers := s.handlers[h := s.handlers[h].(progress := InHeader([]))]);
            && Run(reading, [ReadFails(h), CheckExit(h)])
            && Exec(reading, [ReadFails(h), CheckExit(h)]) ==
               s.(handlers := s.handlers[h := s.handlers[h].(progress := AtClear)])
  {
    RunTwo(s.(handlers := s.handlers[h := s.handlers[h].(progress := InHeader([]))]), ReadFails(h), CheckExit(h));
    hide Run, Exec;
  }
}
