/** Exactly which superseded handlers can still write `latest`. Superseding a handler cuts it off in three
    steps of their own, so what counts is where it stood and what its client can still get to it. */
module LateWriters {
  import opened Words
  import opened Wire
  import opened Server
  import opened Supersession
  import opened FrameIntegrity

  /** In the middle of a frame. */
  predicate MidFrame(h: Handler) {
    h.progress.InHeader? || h.progress.InPayload?
  }

  /** The rest of the frame a handler is reading has already arrived. */
  predicate Arrived(h: Handler, received: seq<Byte>) {
    match h.progress
    case InHeader(header) => |header| <= h.consumed <= |received| && FirstFrame(received[h.consumed - |header|..]).Some?
    case InPayload(w, ht, payload) => h.consumed + PixelBytes(w, ht) <= |received| + |payload|
    case _ => false
  }

  /** Some plausible frame begins with these bytes, or all of its header is among them. */
  predicate Promising(bytes: seq<Byte>) {
    if |bytes| >= 8 then Plausible(HeaderWidth(bytes), HeaderHeight(bytes))
    else exists w: U32, ht: U32 :: Plausible(w, ht) && bytes <= Header(w, ht)
  }

  /** The rest of that frame could be sent. */
  predicate Promised(h: Handler, received: seq<Byte>) {
    match h.progress
    case InHeader(header) => |header| <= h.consumed <= |received| && Promising(received[h.consumed - |header|..])
    case InPayload(_, _, _) => true
    case _ => false
  }

  /** The client can still send: nobody has hung up, shut down or closed. A connection whose successor has
      taken its number, but not yet evicted it, is one. */
  predicate Fed(c: Connection) {
    !c.hungUp && !c.shut && !c.closed
  }

  /** The handler is past its check of the generation, with a complete frame in reach. */
  predicate CanStillPublish(s: State, h: nat) {
    HandlerAt(s, h)
    && var (handler, conn) := (s.handlers[h], s.connections[s.handlers[h].conn]);
       handler.progress.AtGeometry? || handler.progress.AtPublish?
       || Arrived(handler, conn.received) || (Fed(conn) && Promised(handler, conn.received))
  }

  /** Likewise, or past its exit check. */
  predicate Armed(s: State, h: nat) {
    CanStillPublish(s, h) || (HandlerAt(s, h) && s.handlers[h].progress.AtClear?)
  }

  // ---- promises ----

  lemma ArrivedIsPromised(h: Handler, received: seq<Byte>)
    requires Arrived(h, received)
    ensures Promised(h, received)
  {
  }

  lemma PromisesAreNotMade(bytes: seq<Byte>, more: seq<Byte>)
    requires Promising(bytes + more)
    ensures Promising(bytes)
  {
    var all := bytes + more;
    if |all| < 8 {
      var w: U32, ht: U32 :| Plausible(w, ht) && all <= Header(w, ht);
      assert bytes <= Header(w, ht);
    } else if |bytes| < 8 {
      var w, ht := HeaderWidth(all), HeaderHeight(all);
      HeaderFilled(all[..8]);
      assert all[..8][..4] == all[..4] && all[..8][4..8] == all[4..8];
      assert bytes <= Header(w, ht);
    } else {
      assert all[..4] == bytes[..4] && all[4..8] == bytes[4..8];
    }
    hide FromLe;
  }

  function Zeros(n: nat): (r: seq<Byte>)
    ensures |r| == n
  {
    seq(n, i => 0)
  }

  /** A promise can be kept. */
  lemma KeepPromise(bytes: seq<Byte>) returns (more: seq<Byte>)
    requires Promising(bytes)
    ensures FirstFrame(bytes + more).Some?
  {
    if |bytes| < 8 {
      var w: U32, ht: U32 :| Plausible(w, ht) && bytes <= Header(w, ht);
      var f := Frame(w, ht, Zeros(PixelBytes(w, ht)));
      more := Header(w, ht)[|bytes|..] + f.rgba;
      assert bytes + more == Encode(f) + [];
      FirstFrameOfEncoding(f, []);
    } else {
      more := Zeros(PixelBytes(HeaderWidth(bytes), HeaderHeight(bytes)));
      assert (bytes + more)[..4] == bytes[..4] && (bytes + more)[4..8] == bytes[4..8];
    }
    hide FromLe, Header;
  }

  lemma FeedIt(h: Handler, received: seq<Byte>) returns (more: seq<Byte>)
    requires BuffersTrack(h, received) && Promised(h, received)
    ensures Arrived(h, received + more)
  {
    if h.progress.InHeader? {
      var start := h.consumed - |h.progress.header|;
      more := KeepPromise(received[start..]);
      assert (received + more)[start..] == received[start..] + more;
    } else {
      more := Zeros(PixelBytes(h.progress.width, h.progress.height));
    }
    hide FirstFrame, Promising, EncodeAll, Header;
  }

  // ---- a handler that is not armed stays that way ----

  lemma SendingPromisesNothing(h: Handler, received: seq<Byte>, bytes: seq<Byte>)
    requires BuffersTrack(h, received) && !Promised(h, received)
    ensures !Promised(h, received + bytes) && !Arrived(h, received + bytes)
  {
    if Promised(h, received + bytes) {
      var start := h.consumed - |h.progress.header|;
      assert (received + bytes)[start..] == received[start..] + bytes;
      PromisesAreNotMade(received[start..], bytes);
    }
    if Arrived(h, received + bytes) {
      ArrivedIsPromised(h, received + bytes);
    }
    hide Promising, EncodeAll, Header, FirstFrame;
  }

  lemma ReadKeepsUnarrived(h: Handler, received: seq<Byte>, n: nat)
    requires BuffersTrack(h, received) && MidFrame(h) && !Arrived(h, received)
    requires 0 < n <= Wanted(h.progress) && h.consumed + n <= |received|
    ensures var h' := AfterReading(h, received, n); !h'.progress.AtGeometry? && !Arrived(h', received)
  {
    if h.progress.InHeader? {
      HeaderSoFar(h, received, n);
      hide EncodeAll;
    }
  }

  lemma ReadKeepsUnpromised(h: Handler, received: seq<Byte>, n: nat)
    requires BuffersTrack(h, received) && MidFrame(h) && !Promised(h, received)
    requires 0 < n <= Wanted(h.progress) && h.consumed + n <= |received|
    ensures var h' := AfterReading(h, received, n); !h'.progress.AtGeometry? && !Promised(h', received)
  {
    HeaderSoFar(h, received, n);
    hide EncodeAll;
  }

  lemma HeaderSoFar(h: Handler, received: seq<Byte>, n: nat)
    requires BuffersTrack(h, received) && h.progress.InHeader?
    requires 0 < n <= Wanted(h.progress) && h.consumed + n <= |received|
    ensures var rest := received[h.consumed - |h.progress.header|..];
            var filled := h.progress.header + received[h.consumed..h.consumed + n];
            && |filled| <= 8 && filled <= rest
            && (|filled| == 8 ==>
                  HeaderWidth(filled) == HeaderWidth(rest) && HeaderHeight(filled) == HeaderHeight(rest))
  {
    var start := Start(h);
    var filled := h.progress.header + received[h.consumed..h.consumed + n];
    assert filled == received[start..h.consumed + n];
    if |filled| == 8 {
      assert received[start..][..8] == filled;
      assert received[start..][..4] == filled[..4] && received[start..][4..8] == filled[4..8];
    }
    hide EncodeAll, FromLe;
  }

  lemma UnarmedRead(s: State, h: nat, n: nat)
    requires FrameInv(s) && Enabled(s, ReadSome(h, n)) && !CanStillPublish(s, h)
    ensures !CanStillPublish(Step(s, ReadSome(h, n)), h)
  {
    var conn := s.connections[s.handlers[h].conn];
    assert Tracks(s.handlers[h], conn.received);
    hide FrameInv, SentByClient, PublishesMatches;
    ReadKeepsUnarrived(s.handlers[h], conn.received, n);
    if Fed(conn) {
      ReadKeepsUnpromised(s.handlers[h], conn.received, n);
    }
    hide Arrived, Promised, AfterReading;
  }

  lemma UnarmedSend(s: State, h: nat, c: nat, bytes: seq<Byte>)
    requires FrameInv(s) && Enabled(s, ClientSends(c, bytes)) && h < |s.handlers| && !CanStillPublish(s, h)
    ensures !CanStillPublish(Step(s, ClientSends(c, bytes)), h)
  {
    assert HandlerAt(s, h) && Tracks(s.handlers[h], s.connections[s.handlers[h].conn].received);
    hide FrameInv;
    if s.handlers[h].conn == c {
      SendingPromisesNothing(s.handlers[h], s.connections[c].received, bytes);
    }
    hide Arrived, Promised;
  }

  /** Steps of others never bring a handler's bytes back. */
  lemma UnarmedWhileOthersStep(s: State, e: Event, h: nat)
    requires Enabled(s, e) && HandlerAt(s, h) && !CanStillPublish(s, h)
    requires !e.ClientSends? && !(HandlerEvent(e) && e.handler == h)
    ensures !CanStillPublish(Step(s, e), h)
  {
    hide Arrived, Promised, HandlerStep, LatestAfter, AuthorAfter;
    var c := s.handlers[h].conn;
    assert Step(s, e).handlers[h] == s.handlers[h];
    assert Step(s, e).connections[c].received == s.connections[c].received;
    assert Fed(Step(s, e).connections[c]) ==> Fed(s.connections[c]);
    hide Step, Enabled;
  }

  /** Of its own steps, only reading can. */
  lemma UnarmedStepsItself(s: State, e: Event, h: nat)
    requires Enabled(s, e) && Superseded(s, h) && !CanStillPublish(s, h)
    requires HandlerEvent(e) && e.handler == h && !e.ReadSome?
    ensures !CanStillPublish(Step(s, e), h) && !e.Publish?
  {
    hide FirstFrame, Promising;
  }

  lemma SupersededExits(s: State, e: Event, h: nat)
    requires Enabled(s, e) && Superseded(s, h)
    ensures Superseded(Step(s, e), h)
    ensures !s.handlers[h].progress.AtClear? ==> !Step(s, e).handlers[h].progress.AtClear?
  {
    hide Plausible, HeaderWidth, HeaderHeight;
  }

  lemma UnarmedStep(s: State, e: Event, h: nat)
    requires FrameInv(s) && Enabled(s, e) && Superseded(s, h) && !CanStillPublish(s, h)
    ensures Superseded(Step(s, e), h) && !CanStillPublish(Step(s, e), h)
    ensures !(e.Publish? && e.handler == h)
    ensures !s.handlers[h].progress.AtClear? ==> !Step(s, e).handlers[h].progress.AtClear?
  {
    assert HandlerAt(s, h);
    hide FrameInv, CanStillPublish, Step, Enabled;
    SupersededExits(s, e, h);
    if e.ClientSends? {
      UnarmedSend(s, h, e.conn, e.bytes);
    } else if !HandlerEvent(e) || e.handler != h {
      UnarmedWhileOthersStep(s, e, h);
    } else if e.ReadSome? {
      UnarmedRead(s, h, e.count);
    } else {
      UnarmedStepsItself(s, e, h);
    }
  }

  lemma UnarmedWritesNothing(s: State, e: Event, h: nat)
    requires FrameInv(s) && Enabled(s, e) && Superseded(s, h) && !Armed(s, h)
    ensures Superseded(Step(s, e), h) && !Armed(Step(s, e), h) && !LateWrite(s, e, h)
  {
    assert HandlerAt(s, h);
    UnarmedStep(s, e, h);
    hide FrameInv, CanStillPublish, Step;
  }

  lemma {:induction false} UnarmedForever(s: State, events: seq<Event>, h: nat)
    requires FrameInv(s) && Run(s, events) && Superseded(s, h) && !Armed(s, h)
    ensures LateWritesBy(s, events, h) == 0
    decreases |events|
  {
    hide FrameInv, CanStillPublish, Step, Enabled;
    if events != [] {
      UnarmedWritesNothing(s, events[0], h);
      StepKeepsFrameInv(s, events[0]);
      UnarmedForever(Step(s, events[0]), events[1..], h);
    }
  }

  // ---- an armed handler can still write ----

  lemma RunCons(s: State, e: Event, rest: seq<Event>)
    requires Enabled(s, e) && Run(Step(s, e), rest)
    ensures Run(s, [e] + rest) && Exec(s, [e] + rest) == Exec(Step(s, e), rest)
  {
    hide Enabled, Step;
    assert ([e] + rest)[1..] == rest;
  }

  lemma {:induction false} RunConcat(s: State, a: seq<Event>, b: seq<Event>)
    requires Run(s, a) && Run(Exec(s, a), b)
    ensures Run(s, a + b) && Exec(s, a + b) == Exec(Exec(s, a), b)
    decreases |a|
  {
    hide Enabled, Step;
    if a == [] {
      assert a + b == b;
    } else {
      RunConcat(Step(s, a[0]), a[1..], b);
      assert (a + b)[1..] == a[1..] + b;
    }
  }

  /** Only handler `h` reading, and clients sending. */
  predicate ReadingBy(e: Event, h: nat) {
    e.ClientSends? || (e.ReadSome? && e.handler == h)
  }

  /** `events` lead `h` from `s` to a complete frame, and change nothing else. */
  predicate Reads(s: State, h: nat, events: seq<Event>) {
    && Run(s, events)
    && (forall i :: 0 <= i < |events| ==> ReadingBy(events[i], h))
    && var t := Exec(s, events);
       && h < |s.handlers| == |t.handlers| && |t.connections| == |s.connections|
       && HandlerAt(s, h) && HandlerAt(t, h)
       && t == s.(connections := t.connections, handlers := s.handlers[h := t.handlers[h]])
       && t.handlers[h] == s.handlers[h].(progress := t.handlers[h].progress, consumed := t.handlers[h].consumed)
       && t.handlers[h].progress.AtGeometry?
  }

  lemma ReadsAfter(s: State, h: nat, e: Event, rest: seq<Event>)
    requires Enabled(s, e) && ReadingBy(e, h) && HandlerAt(s, h) && Reads(Step(s, e), h, rest)
    ensures Reads(s, h, [e] + rest)
  {
    RunCons(s, e, rest);
    var t := Exec(Step(s, e), rest);
    hide Run, Exec;
    assert t.handlers == s.handlers[h := t.handlers[h]];
  }

  lemma FromGeometry(s: State, h: nat)
    requires HandlerAt(s, h) && s.handlers[h].progress.AtGeometry?
    ensures Reads(s, h, [])
  {
    assert s.handlers == s.handlers[h := s.handlers[h]];
  }

  lemma FromPayload(s: State, h: nat) returns (events: seq<Event>)
    requires HandlerAt(s, h) && s.handlers[h].progress.InPayload?
    requires |s.handlers[h].progress.payload| < PixelBytes(s.handlers[h].progress.width, s.handlers[h].progress.height)
    requires Arrived(s.handlers[h], s.connections[s.handlers[h].conn].received)
    ensures Reads(s, h, events)
  {
    var read := ReadSome(h, Wanted(s.handlers[h].progress));
    assert Enabled(s, read) && Step(s, read).handlers[h].progress.AtGeometry?;
    assert HandlerAt(Step(s, read), h);
    hide Reads, Step, Enabled;
    FromGeometry(Step(s, read), h);
    ReadsAfter(s, h, read, []);
    events := [read] + [];
  }

  lemma FromHeader(s: State, h: nat) returns (events: seq<Event>)
    requires HandlerAt(s, h) && s.handlers[h].progress.InHeader?
    requires Arrived(s.handlers[h], s.connections[s.handlers[h].conn].received)
    requires BuffersTrack(s.handlers[h], s.connections[s.handlers[h].conn].received)
    ensures Reads(s, h, events)
  {
    var received := s.connections[s.handlers[h].conn].received;
    var read := ReadSome(h, 8 - |s.handlers[h].progress.header|);
    HeaderArrives(s.handlers[h], received);
    assert Enabled(s, read);
    var next := Step(s, read);
    assert next.handlers[h] == AfterReading(s.handlers[h], received, read.count);
    hide Reads, Step, Enabled, AfterReading;
    var rest := FromPayload(next, h);
    ReadsAfter(s, h, read, rest);
    events := [read] + rest;
  }

  lemma HeaderArrives(h: Handler, received: seq<Byte>)
    requires BuffersTrack(h, received) && h.progress.InHeader? && Arrived(h, received)
    ensures var n := 8 - |h.progress.header|;
            && n > 0 && h.consumed + n <= |received|
            && var h' := AfterReading(h, received, n);
               h'.progress.InPayload? && h'.progress.payload == [] && Arrived(h', received)
               && PixelBytes(h'.progress.width, h'.progress.height) > 0
  {
    var n, start := 8 - |h.progress.header|, Start(h);
    var filled := h.progress.header + received[h.consumed..h.consumed + n];
    assert filled == received[start..start + 8];
    HeaderPlausible(received, start, filled);
    hide EncodeAll, FirstFrame, HeaderWidth, HeaderHeight;
  }

  lemma HeaderPlausible(received: seq<Byte>, start: nat, header: seq<Byte>)
    requires start + 8 <= |received| && header == received[start..start + 8]
    requires FirstFrame(received[start..]).Some?
    ensures Plausible(HeaderWidth(header), HeaderHeight(header))
    ensures start + 8 + PixelBytes(HeaderWidth(header), HeaderHeight(header)) <= |received|
  {
    var rest := received[start..];
    assert rest[..8] == header;
    assert rest[..4] == rest[..8][..4] && rest[4..8] == rest[..8][4..8];
    hide FromLe;
  }

  lemma InReach(s: State, h: nat) returns (events: seq<Event>)
    requires FrameInv(s) && HandlerAt(s, h)
    requires var handler := s.handlers[h];
             handler.progress.AtGeometry? || Arrived(handler, s.connections[handler.conn].received)
    ensures Reads(s, h, events)
  {
    var received := s.connections[s.handlers[h].conn].received;
    assert Tracks(s.handlers[h], received);
    hide Reads, FrameInv;
    match s.handlers[h].progress
    case AtGeometry(_) =>
      FromGeometry(s, h);
      events := [];
    case InPayload(_, _, _) => events := FromPayload(s, h);
    case InHeader(_) => events := FromHeader(s, h);
  }

  /** A handler with a frame in reach can have it complete. */
  lemma FrameCompletes(s: State, h: nat) returns (events: seq<Event>)
    requires FrameInv(s) && CanStillPublish(s, h) && !s.handlers[h].progress.AtPublish?
    ensures Reads(s, h, events) && WellFormed(Exec(s, events).handlers[h].progress.frame)
  {
    var handler := s.handlers[h];
    var conn := s.connections[handler.conn];
    assert Tracks(handler, conn.received);
    hide Reads, FrameInv, Arrived, Promised, Tracks, WellFormed;
    if handler.progress.AtGeometry? || Arrived(handler, conn.received) {
      events := InReach(s, h);
    } else {
      assert BuffersTrack(handler, conn.received) by { TracksBuffers(handler, conn.received); }
      var more := FeedIt(handler, conn.received);
      var send := ClientSends(handler.conn, more);
      StepKeepsFrameInv(s, send);
      var rest := InReach(Step(s, send), h);
      ReadsAfter(s, h, send, rest);
      events := [send] + rest;
    }
    ReadsRun(s, h, events);
    FrameInvAlways(s, events);
    CompleteIsWellFormed(Exec(s, events), h);
  }

  lemma ReadsRun(s: State, h: nat, events: seq<Event>)
    requires Reads(s, h, events)
    ensures Run(s, events) && HandlerAt(Exec(s, events), h) && Exec(s, events).handlers[h].progress.AtGeometry?
  {
  }

  lemma CompleteIsWellFormed(s: State, h: nat)
    requires FrameInv(s) && HandlerAt(s, h) && s.handlers[h].progress.AtGeometry?
    ensures WellFormed(s.handlers[h].progress.frame)
  {
    assert Tracks(s.handlers[h], s.connections[s.handlers[h].conn].received);
    hide FrameInv, EncodeAll, Matching;
  }

  /** A complete frame of the kiosk's size is matched and published. */
  lemma MatchingPublishes(s: State, h: nat)
    requires HandlerAt(s, h) && s.handlers[h].progress.AtGeometry? && Matches(s.handlers[h].progress.frame, s.geometry)
    ensures Run(s, [MatchGeometry(h)] + [Publish(h)])
    ensures Published(s, Exec(s, [MatchGeometry(h)] + [Publish(h)]), h)
  {
    var matched := Step(s, MatchGeometry(h));
    assert matched.handlers[h].progress.AtPublish? && HandlerAt(matched, h);
    FromPublish(matched, h);
    RunCons(s, MatchGeometry(h), [Publish(h)]);
    hide Run, Exec;
  }

  /** `h` has published once more, and nothing but its progress changed. */
  predicate Published(s: State, t: State, h: nat) {
    && h < |s.handlers| == |t.handlers|
    && t == s.(latest := t.latest, author := s.handlers[h].generation, handlers := s.handlers[h := t.handlers[h]])
    && t.latest.Some? && t.handlers[h].progress.AtPing?
    && t.handlers[h].conn == s.handlers[h].conn && t.handlers[h].generation == s.handlers[h].generation
    && t.handlers[h].consumed == s.handlers[h].consumed
    && |t.handlers[h].published| == |s.handlers[h].published| + 1
  }

  lemma FromPublish(s: State, h: nat)
    requires HandlerAt(s, h) && s.handlers[h].progress.AtPublish?
    ensures Run(s, [Publish(h)]) && Published(s, Exec(s, [Publish(h)]), h)
  {
    assert Run(Step(s, Publish(h)), []);
    assert Exec(s, [Publish(h)]) == Step(s, Publish(h));
  }

  /** Only handler `h`, clients, and the locker's geometry updates. */
  predicate OnlyBy(e: Event, h: nat) {
    e.SetGeometry? || e.ClientSends? || (HandlerEvent(e) && !e.Clear? && e.handler == h)
  }

  predicate AllBy(events: seq<Event>, h: nat) {
    forall i :: 0 <= i < |events| ==> OnlyBy(events[i], h)
  }

  lemma ArmedCanPublish(s: State, h: nat) returns (events: seq<Event>)
    requires FrameInv(s) && CanStillPublish(s, h)
    ensures Run(s, events) && AllBy(events, h) && h < |s.handlers|
    ensures var t := Exec(s, events);
            t.latest.Some? && h < |t.handlers| && |t.handlers[h].published| > |s.handlers[h].published|
  {
    if s.handlers[h].progress.AtPublish? {
      FromPublish(s, h);
      events := [Publish(h)];
    } else {
      hide FrameInv, CanStillPublish;
      var reading := FrameCompletes(s, h);
      var complete := Exec(s, reading);
      var f := complete.handlers[h].progress.frame;
      var resized := complete.(geometry := Geometry(f.width, f.height, 1));
      RunSetGeometry(complete, resized.geometry);
      MatchingPublishes(resized, h);
      hide Run, Exec;
      RunConcat(complete, [SetGeometry(resized.geometry)], [MatchGeometry(h)] + [Publish(h)]);
      RunConcat(s, reading, [SetGeometry(resized.geometry)] + ([MatchGeometry(h)] + [Publish(h)]));
      events := reading + ([SetGeometry(resized.geometry)] + ([MatchGeometry(h)] + [Publish(h)]));
    }
  }

  lemma RunSetGeometry(s: State, g: Geometry)
    ensures Run(s, [SetGeometry(g)]) && Exec(s, [SetGeometry(g)]) == s.(geometry := g)
  {
    assert Run(Step(s, SetGeometry(g)), [SetGeometry(g)][1..]);
  }

  lemma TracksBuffers(h: Handler, received: seq<Byte>)
    requires Tracks(h, received)
    ensures BuffersTrack(h, received)
  {
  }

  // ---- exactly which superseded handlers write again ----

  lemma {:induction false} PublishesAreLateWrites(s: State, h: nat, events: seq<Event>)
    requires Run(s, events) && Superseded(s, h)
    ensures Superseded(Exec(s, events), h)
    ensures |Exec(s, events).handlers[h].published| <= |s.handlers[h].published| + LateWritesBy(s, events, h)
    decreases |events|
  {
    if events != [] {
      StepSpendsAllowance(s, events[0], h);
      PublishesAreLateWrites(Step(s, events[0]), h, events[1..]);
    }
  }

  /** A superseded handler writes `latest` again in some continuation if and only if it is armed: at its
      clear, past its geometry check, in the middle of a frame that has fully arrived, or, as long as its
      client can still send, in the middle of one that some plausible frame completes. */
  lemma LateWritersAreTheArmed(s: State, h: nat)
    requires FrameInv(s) && Superseded(s, h)
    ensures (exists events :: Run(s, events) && LateWritesBy(s, events, h) > 0) <==> Armed(s, h)
  {
    hide FrameInv, CanStillPublish;
    if CanStillPublish(s, h) {
      var events := ArmedCanPublish(s, h);
      PublishesAreLateWrites(s, h, events);
    } else if Armed(s, h) {
      ClearIsALateWrite(s, h);
    } else {
      forall events | Run(s, events) ensures LateWritesBy(s, events, h) == 0 {
        UnarmedForever(s, events, h);
      }
    }
  }

  lemma ClearIsALateWrite(s: State, h: nat)
    requires Superseded(s, h) && HandlerAt(s, h) && s.handlers[h].progress.AtClear?
    ensures Run(s, [Clear(h)]) && LateWritesBy(s, [Clear(h)], h) > 0
  {
    assert Run(Step(s, Clear(h)), [Clear(h)][1..]);
    assert Enabled(s, [Clear(h)][0]) && LateWrite(s, Clear(h), h);
  }
}
