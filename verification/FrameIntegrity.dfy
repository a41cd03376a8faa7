/** Frames are never torn or mixed: whatever a handler accepts, and whatever `latest` holds, is a
    complete frame at a frame boundary of one connection's byte stream. */
module FrameIntegrity {
  import opened Words
  import opened Wire
  import opened Server

  function FramesSeen(seen: seq<Sighting>): (fs: seq<Frame>)
    ensures |fs| == |seen|
  {
    seq(|seen|, i requires 0 <= i < |seen| => seen[i].frame)
  }

  /** The frames whose geometry matched when it was looked at, in order. */
  function Matching(seen: seq<Sighting>): seq<Frame> {
    if seen == [] then []
    else
      var last := seen[|seen| - 1];
      Matching(seen[..|seen| - 1]) + if Matches(last.frame, last.geometry) then [last.frame] else []
  }

  function SizesSeen(seen: seq<Sighting>): (sizes: seq<Geometry>)
    ensures |sizes| == |seen|
  {
    seq(|seen|, i requires 0 <= i < |seen| => seen[i].geometry)
  }

  /** A handler publishes a frame exactly when its width and its height are those of the kiosk geometry at its
      check; the last such frame may still be on its way. */
  ghost predicate PublishesBySize(h: Handler) {
    TakenBySize(FramesSeen(h.seen), SizesSeen(h.seen),
                h.published + if h.progress.AtPublish? then [h.progress.frame] else [])
  }

  lemma {:induction false} MatchingTakesBySize(seen: seq<Sighting>)
    ensures TakenBySize(FramesSeen(seen), SizesSeen(seen), Matching(seen))
  {
    if seen == [] {
      NothingTaken();
    } else {
      var before, last := seen[..|seen| - 1], seen[|seen| - 1];
      MatchingTakesBySize(before);
      TakenStep(FramesSeen(before), SizesSeen(before), Matching(before), last.frame, last.geometry);
      assert FramesSeen(seen) == FramesSeen(before) + [last.frame];
      assert SizesSeen(seen) == SizesSeen(before) + [last.geometry];
    }
  }

  /** Stream position of the frame a handler is working on. */
  function Start(h: Handler): nat {
    |EncodeAll(FramesSeen(h.seen))|
  }

  /** The handler's past is the stream's past: every byte before the current frame belongs to a frame
      it has seen, in order and without gaps. */
  predicate PastIsPrefix(h: Handler, received: seq<Byte>) {
    AllWellFormed(FramesSeen(h.seen)) && EncodeAll(FramesSeen(h.seen)) <= received
  }

  /** The local buffers hold exactly the bytes of the current frame read so far. */
  predicate BuffersTrack(h: Handler, received: seq<Byte>) {
    var start := Start(h);
    match h.progress
    case AtLoopHead => h.consumed == start
    case AtPing => h.consumed == start
    case InHeader(header) =>
      |header| < 8 && h.consumed == start + |header| <= |received| && header == received[start..h.consumed]
    case InPayload(w, ht, payload) =>
      && Plausible(w, ht)
      && |payload| < PixelBytes(w, ht)
      && h.consumed == start + 8 + |payload| <= |received|
      && Header(w, ht) == received[start..start + 8]
      && payload == received[start + 8..h.consumed]
    case AtGeometry(f) =>
      WellFormed(f) && h.consumed == start + FrameLength(f) <= |received| && Encode(f) == received[start..h.consumed]
    case AtPublish(f) =>
      h.consumed == start && h.seen != [] && h.seen[|h.seen| - 1].frame == f
      && f.width == h.seen[|h.seen| - 1].geometry.width && f.height == h.seen[|h.seen| - 1].geometry.height
    case _ => true
  }

  /** Nothing is published but the frames that matched; the last of them may still be on its way. */
  predicate PublishesMatches(h: Handler) {
    Matching(h.seen) == h.published + if h.progress.AtPublish? then [h.progress.frame] else []
  }

  /** A handler clears only as the last thing it does. */
  predicate ClearsLast(h: Handler) {
    h.cleared ==> h.progress.Finished?
  }

  predicate Tracks(h: Handler, received: seq<Byte>) {
    PastIsPrefix(h, received) && BuffersTrack(h, received) && PublishesMatches(h) && ClearsLast(h)
  }

  /** `f` is one of the complete frames some client has sent. */
  predicate SentByClient(s: State, f: Frame) {
    exists c :: 0 <= c < |s.connections| && f in Frames(s.connections[c].received)
  }

  predicate FrameInv(s: State) {
    && (forall h :: 0 <= h < |s.handlers| ==>
        HandlerAt(s, h) && Tracks(s.handlers[h], s.connections[s.handlers[h].conn].received))
    && (s.latest.Some? ==> SentByClient(s, s.latest.value))
  }

  // ---- each step keeps it ----

  lemma TracksGrows(h: Handler, received: seq<Byte>, more: seq<Byte>)
    requires Tracks(h, received)
    ensures Tracks(h, received + more)
  {
    var start := Start(h);
    if start <= h.consumed <= |received| {
      assert (received + more)[start..h.consumed] == received[start..h.consumed];
    }
    if h.progress.InPayload? {
      assert (received + more)[start..start + 8] == received[start..start + 8];
      assert (received + more)[start + 8..h.consumed] == received[start + 8..h.consumed];
    }
  }

  lemma HeaderFilled(header: seq<Byte>)
    requires |header| == 8
    ensures Header(HeaderWidth(header), HeaderHeight(header)) == header
  {
    LeBytesAreCanonical(header[..4]);
    LeBytesAreCanonical(header[4..8]);
    assert header == header[..4] + header[4..8];
  }

  lemma HeaderReadTracks(h: Handler, received: seq<Byte>, n: nat)
    requires Tracks(h, received) && h.progress.InHeader?
    requires 0 < n <= Wanted(h.progress) && h.consumed + n <= |received|
    ensures Tracks(AfterReading(h, received, n), received)
  {
    HeaderReadBuffers(h, received, n);
    assert AfterReading(h, received, n).seen == h.seen;
    hide HeaderWidth, HeaderHeight, BuffersTrack, Matching, EncodeAll;
  }

  lemma HeaderReadBuffers(h: Handler, received: seq<Byte>, n: nat)
    requires BuffersTrack(h, received) && h.progress.InHeader?
    requires 0 < n <= Wanted(h.progress) && h.consumed + n <= |received|
    ensures BuffersTrack(AfterReading(h, received, n), received)
  {
    var start, bytes := Start(h), received[h.consumed..h.consumed + n];
    assert Start(AfterReading(h, received, n)) == start;
    var filled := h.progress.header + bytes;
    assert filled == received[start..h.consumed + n];
    hide Start;
    if |filled| == 8 {
      HeaderFilled(filled);
      assert received[start + 8..start + 8] == [];
    }
    hide HeaderWidth, HeaderHeight, Header;
  }

  lemma PayloadReadTracks(h: Handler, received: seq<Byte>, n: nat)
    requires Tracks(h, received) && h.progress.InPayload?
    requires 0 < n <= Wanted(h.progress) && h.consumed + n <= |received|
    ensures Tracks(AfterReading(h, received, n), received)
  {
    hide Header, EncodeAll;
    var InPayload(w, ht, payload) := h.progress;
    var start, bytes := Start(h), received[h.consumed..h.consumed + n];
    var filled := payload + bytes;
    assert filled == received[start + 8..h.consumed + n];
    if |filled| == PixelBytes(w, ht) {
      assert received[start..start + 8] + received[start + 8..h.consumed + n] == received[start..h.consumed + n];
    }
  }

  lemma HeaderStartTracks(h: Handler, received: seq<Byte>)
    requires Tracks(h, received) && h.progress.AtLoopHead?
    ensures Tracks(h.(progress := InHeader([])), received)
  {
    assert received[h.consumed..h.consumed] == [];
  }

  lemma PingTracks(h: Handler, received: seq<Byte>)
    requires Tracks(h, received) && h.progress.AtPing?
    ensures Tracks(h.(progress := AtLoopHead), received)
  {
  }

  /** Leaving the loop, from any point that is not about to publish. */
  lemma ExitTracks(h: Handler, received: seq<Byte>, p: Progress, cleared: bool)
    requires Tracks(h, received) && !h.progress.AtPublish? && (p.AtExitCheck? || p.AtClear? || p.Finished?)
    requires cleared ==> p.Finished?
    ensures Tracks(h.(progress := p, cleared := cleared), received)
  {
  }

  lemma SightingTracks(h: Handler, received: seq<Byte>, g: Geometry)
    requires Tracks(h, received) && h.progress.AtGeometry?
    ensures var f := h.progress.frame;
            Tracks(h.(progress := if Matches(f, g) then AtPublish(f) else AtLoopHead,
                      seen := h.seen + [Sighting(f, g)]), received)
  {
    var f := h.progress.frame;
    var seen := h.seen + [Sighting(f, g)];
    assert FramesSeen(seen) == FramesSeen(h.seen) + [f];
    var start := Start(h);
    assert received[..start] + received[start..h.consumed] == received[..h.consumed];
    assert EncodeAll(FramesSeen(h.seen)) + Encode(f) <= received;
    FrameAtBoundary(received, FramesSeen(h.seen), f);
    assert seen[..|seen| - 1] == h.seen;
    assert h.published + [] == h.published;
  }

  lemma PublishTracks(h: Handler, received: seq<Byte>)
    requires Tracks(h, received) && h.progress.AtPublish?
    ensures Tracks(h.(progress := AtPing, published := h.published + [h.progress.frame]), received)
    ensures h.progress.frame in Frames(received)
  {
    SeenAreFrames(h, received);
    var f := FramesSeen(h.seen)[|h.seen| - 1];
    assert f == h.progress.frame && f in Frames(received);
  }

  /** What a handler has seen is a prefix of the stream's frames as the reference parser reads them. */
  lemma SeenAreFrames(h: Handler, received: seq<Byte>)
    requires PastIsPrefix(h, received)
    ensures FramesSeen(h.seen) <= Frames(received)
  {
    var fs := FramesSeen(h.seen);
    var rest := received[|EncodeAll(fs)|..];
    assert received == EncodeAll(fs) + rest;
    FramesOfEncoding(fs, rest);
  }

  lemma ReadTracks(h: Handler, received: seq<Byte>, n: nat)
    requires Tracks(h, received) && (h.progress.InHeader? || h.progress.InPayload?)
    requires 0 < n <= Wanted(h.progress) && h.consumed + n <= |received|
    ensures Tracks(AfterReading(h, received, n), received)
  {
    if h.progress.InHeader? {
      HeaderReadTracks(h, received, n);
    } else {
      PayloadReadTracks(h, received, n);
    }
  }

  lemma HandlerStepTracks(s: State, e: Event)
    requires FrameInv(s) && Enabled(s, e) && HandlerEvent(e)
    ensures Tracks(HandlerStep(s, e), s.connections[s.handlers[e.handler].conn].received)
  {
    var h := s.handlers[e.handler];
    var received := s.connections[h.conn].received;
    assert Tracks(h, received);
    hide Tracks, FrameInv, AfterReading, Matches, Wanted;
    if e.ReadSome? {
      ReadTracks(h, received, e.count);
    } else if e.MatchGeometry? {
      SightingTracks(h, received, s.geometry);
    } else if e.Publish? {
      PublishTracks(h, received);
    } else {
      ControlStepTracks(s, e);
    }
  }

  /** The steps that only move a handler's program counter. */
  lemma ControlStepTracks(s: State, e: Event)
    requires FrameInv(s) && Enabled(s, e)
    requires e.CheckGeneration? || e.ReadFails? || e.Wake? || e.CheckExit? || e.Clear?
    ensures Tracks(HandlerStep(s, e), s.connections[s.handlers[e.handler].conn].received)
  {
    var h := s.handlers[e.handler];
    var received := s.connections[h.conn].received;
    assert Tracks(h, received) && ClearsLast(h);
    hide Tracks, FrameInv;
    if HandlerStep(s, e).progress.InHeader? {
      HeaderStartTracks(h, received);
    } else if e.Wake? {
      PingTracks(h, received);
    } else {
      ExitTracks(h, received, HandlerStep(s, e).progress, HandlerStep(s, e).cleared);
    }
  }

  lemma LatestIsSent(s: State, e: Event)
    requires FrameInv(s) && Enabled(s, e) && HandlerEvent(e)
    ensures LatestAfter(s, e).Some? ==> SentByClient(s, LatestAfter(s, e).value)
  {
    if e.Publish? {
      var h := s.handlers[e.handler];
      PublishTracks(h, s.connections[h.conn].received);
    }
  }

  lemma HandlerReplaced(s: State, h: nat, handler: Handler)
    requires FrameInv(s) && h < |s.handlers| && handler.conn == s.handlers[h].conn
    requires Tracks(handler, s.connections[handler.conn].received)
    ensures FrameInv(WithHandler(s, h, handler))
  {
    hide Tracks, SentByClient;
    SameLatest(s, WithHandler(s, h, handler));
  }

  lemma LatestReplaced(s: State, f: Option<Frame>, author: nat)
    requires FrameInv(s) && (f.Some? ==> SentByClient(s, f.value))
    ensures FrameInv(s.(latest := f, author := author))
  {
    hide Tracks;
  }

  lemma SentStaysSent(s: State, c: nat, more: seq<Byte>, f: Frame)
    requires c < |s.connections| && SentByClient(s, f)
    ensures SentByClient(WithConnection(s, c, s.connections[c].(received := s.connections[c].received + more)), f)
  {
    var s' := WithConnection(s, c, s.connections[c].(received := s.connections[c].received + more));
    var d :| 0 <= d < |s.connections| && f in Frames(s.connections[d].received);
    FramesGrow(s.connections[c].received, more);
    assert f in Frames(s'.connections[d].received);
  }

  lemma SendKeepsFrameInv(s: State, c: nat, bytes: seq<Byte>)
    requires FrameInv(s) && Enabled(s, ClientSends(c, bytes))
    ensures FrameInv(Step(s, ClientSends(c, bytes)))
  {
    var s' := Step(s, ClientSends(c, bytes));
    forall h | 0 <= h < |s.handlers| ensures Tracks(s'.handlers[h], s'.connections[s'.handlers[h].conn].received) {
      TracksGrows(s.handlers[h], s.connections[s.handlers[h].conn].received, bytes);
    }
    if s.latest.Some? {
      SentStaysSent(s, c, bytes, s.latest.value);
    }
  }

  lemma StepKeepsFrameInv(s: State, e: Event)
    requires FrameInv(s) && Enabled(s, e)
    ensures FrameInv(Step(s, e))
  {
    hide Tracks, SentByClient, HandlerStep, LatestAfter;
    if HandlerEvent(e) {
      HandlerKeepsFrameInv(s, e);
    } else if e.ClientSends? {
      SendKeepsFrameInv(s, e.conn, e.bytes);
    } else if e.Connect? {
      ConnectKeepsFrameInv(s);
    } else if e.StartHandler? {
      StartKeepsFrameInv(s);
    } else {
      SameBytesKeepFrameInv(s, Step(s, e));
    }
  }

  lemma SameBytesKeepFrameInv(s: State, s': State)
    requires FrameInv(s) && s'.handlers == s.handlers && s'.latest == s.latest && |s'.connections| == |s.connections|
    requires forall c :: 0 <= c < |s.connections| ==> s'.connections[c].received == s.connections[c].received
    ensures FrameInv(s')
  {
    if s.latest.Some? {
      var c :| 0 <= c < |s.connections| && s.latest.value in Frames(s.connections[c].received);
      assert s.latest.value in Frames(s'.connections[c].received);
    }
  }

  lemma ConnectKeepsFrameInv(s: State)
    requires FrameInv(s) && Enabled(s, Connect)
    ensures FrameInv(Step(s, Connect))
  {
    var s' := Step(s, Connect);
    if s.latest.Some? {
      var c :| 0 <= c < |s.connections| && s.latest.value in Frames(s.connections[c].received);
      assert s'.connections[c] == s.connections[c];
    }
  }

  lemma StartKeepsFrameInv(s: State)
    requires FrameInv(s) && Enabled(s, StartHandler)
    ensures FrameInv(Step(s, StartHandler))
  {
    var s' := Step(s, StartHandler);
    var added := s'.handlers[|s.handlers|];
    assert FramesSeen(added.seen) == [];
    assert Tracks(added, s'.connections[added.conn].received);
    SameLatest(s, s');
  }

  lemma SameLatest(s: State, s': State)
    requires s'.latest == s.latest && s'.connections == s.connections
    requires s.latest.Some? ==> SentByClient(s, s.latest.value)
    ensures s'.latest.Some? ==> SentByClient(s', s'.latest.value)
  {
  }

  lemma HandlerKeepsFrameInv(s: State, e: Event)
    requires FrameInv(s) && Enabled(s, e)
    requires HandlerEvent(e)
    ensures FrameInv(Step(s, e))
  {
    HandlerStepTracks(s, e);
    LatestIsSent(s, e);
    hide Tracks, SentByClient, HandlerStep, LatestAfter;
    LatestReplaced(s, LatestAfter(s, e), AuthorAfter(s, e));
    HandlerReplaced(s.(latest := LatestAfter(s, e), author := AuthorAfter(s, e)), e.handler, HandlerStep(s, e));
  }

  lemma {:induction false} FrameInvAlways(s: State, events: seq<Event>)
    requires FrameInv(s) && Run(s, events)
    ensures FrameInv(Exec(s, events))
    decreases |events|
  {
    if events != [] {
      StepKeepsFrameInv(s, events[0]);
      FrameInvAlways(Step(s, events[0]), events[1..]);
    }
  }

  /** In every interleaving a handler reads the frames of its own stream in order and without skipping any,
      however its reads were split; it publishes exactly those whose width and height are those of the kiosk
      geometry at their check; and a frame in `latest` is a complete frame of one client's stream. */
  lemma HandlersReadTheirStream(events: seq<Event>)
    requires Run(INITIAL, events)
    ensures var t := Exec(INITIAL, events);
            && (forall h :: 0 <= h < |t.handlers| ==>
                  && HandlerAt(t, h)
                  && FramesSeen(t.handlers[h].seen) <= Frames(t.connections[t.handlers[h].conn].received)
                  && PublishesBySize(t.handlers[h]))
            && (t.latest.Some? ==> WellFormed(t.latest.value) && SentByClient(t, t.latest.value))
  {
    FrameInvAlways(INITIAL, events);
    var t := Exec(INITIAL, events);
    forall h | 0 <= h < |t.handlers|
      ensures FramesSeen(t.handlers[h].seen) <= Frames(t.connections[t.handlers[h].conn].received)
      ensures PublishesBySize(t.handlers[h])
    {
      SeenAreFrames(t.handlers[h], t.connections[t.handlers[h].conn].received);
      MatchingTakesBySize(t.handlers[h].seen);
    }
    if t.latest.Some? {
      SentFramesAreWellFormed(t, t.latest.value);
    }
  }

  lemma SentFramesAreWellFormed(s: State, f: Frame)
    requires SentByClient(s, f)
    ensures WellFormed(f)
  {
    var c :| 0 <= c < |s.connections| && f in Frames(s.connections[c].received);
    EveryStreamSplits(s.connections[c].received);
  }

  /** What one step from `s` to `t` does to `latest`. A check leaves it alone, and lets the frame pass if and
      only if its width and height are those of the kiosk geometry just then; what is published is the frame
      checked last, of the width and height it was checked against; nothing but a publish or a clear changes
      `latest`. */
  predicate WritesBySize(s: State, e: Event, t: State)
    requires Enabled(s, e) && |t.handlers| >= |s.handlers|
  {
    && (e.MatchGeometry? ==>
          var f, before, after := s.handlers[e.handler].progress.frame, s.handlers[e.handler], t.handlers[e.handler];
          && t.latest == s.latest && after.published == before.published
          && after.seen == before.seen + [Sighting(f, s.geometry)]
          && after.progress == if f.width == s.geometry.width && f.height == s.geometry.height then AtPublish(f)
                               else AtLoopHead)
    && (e.Publish? ==>
          var seen := s.handlers[e.handler].seen;
          && seen != []
          && var last := seen[|seen| - 1];
             && t.latest == Some(last.frame)
             && last.frame.width == last.geometry.width && last.frame.height == last.geometry.height)
    && (e.Clear? ==> t.latest == None)
    && (!e.Publish? && !e.Clear? ==> t.latest == s.latest)
  }

  lemma StepWritesBySize(s: State, e: Event)
    requires FrameInv(s) && Enabled(s, e)
    ensures |Step(s, e).handlers| >= |s.handlers| && WritesBySize(s, e, Step(s, e))
  {
    if e.Publish? {
      PublishIsSized(s, e.handler);
    }
    if HandlerEvent(e) {
      HandlerWritesBySize(s, e);
    }
    hide FrameInv, HandlerStep, LatestAfter;
  }

  lemma HandlerWritesBySize(s: State, e: Event)
    requires Enabled(s, e) && HandlerEvent(e)
    requires e.Publish? ==>
               var seen, f := s.handlers[e.handler].seen, s.handlers[e.handler].progress.frame;
               && seen != [] && seen[|seen| - 1].frame == f
               && f.width == seen[|seen| - 1].geometry.width && f.height == seen[|seen| - 1].geometry.height
    ensures |Step(s, e).handlers| == |s.handlers| && WritesBySize(s, e, Step(s, e))
  {
    hide Wanted;
  }

  lemma PublishIsSized(s: State, h: nat)
    requires FrameInv(s) && Enabled(s, Publish(h))
    ensures var seen, f := s.handlers[h].seen, s.handlers[h].progress.frame;
            && seen != [] && seen[|seen| - 1].frame == f
            && f.width == seen[|seen| - 1].geometry.width && f.height == seen[|seen| - 1].geometry.height
  {
    assert BuffersTrack(s.handlers[h], s.connections[s.handlers[h].conn].received);
  }

  /** Every value a run writes to `latest` has exactly the width and height of the kiosk geometry read at its
      check, and a frame that differs in either leaves `latest` as it was. */
  lemma LatestKeepsToTheSize(events: seq<Event>, e: Event)
    requires Run(INITIAL, events) && Enabled(Exec(INITIAL, events), e)
    ensures var s := Exec(INITIAL, events);
            |Step(s, e).handlers| >= |s.handlers| && WritesBySize(s, e, Step(s, e))
  {
    FrameInvAlways(INITIAL, events);
    StepWritesBySize(Exec(INITIAL, events), e);
  }
}
