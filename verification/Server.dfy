/** The kiosk frame server: one acceptor thread, any number of handler threads and the locker's own
    thread, interleaved at the granularity of one atomic load, one mutex section or one system call.
    A run is a sequence of events; an event carries every choice the scheduler, the clients and the
    network make. */
module Server {
  import opened Words
  import opened Wire

  /** One accepted connection. `received` is what its client has sent, read or not: bytes buffered
      before a `shutdown` stay readable. */
  datatype Connection = Connection(received: seq<Byte>, hungUp: bool, shut: bool, closed: bool, generation: nat)

  /** Where `accept_one` stands. */
  datatype Acceptor =
    | Listening
    | Accepted(conn: nat)
    | Numbered(conn: nat)
    | Evicted(conn: nat)
    | Greeting(conn: nat, geometry: Geometry)
    | Greeted(conn: nat)
    | Cloned(conn: nat)
    | Stored(conn: nat)

  /** Where `read_frames` stands, with its local buffers. */
  datatype Progress =
    | AtLoopHead
    | InHeader(header: seq<Byte>)
    | InPayload(width: U32, height: U32, payload: seq<Byte>)
    | AtGeometry(frame: Frame)
    | AtPublish(frame: Frame)
    | AtPing
    | AtExitCheck
    | AtClear
    | Finished

  /** A frame a handler read in full, and the kiosk geometry it was compared with. */
  datatype Sighting = Sighting(frame: Frame, geometry: Geometry)

  /** `seen`, `published` and `cleared` record the handler's past; no step reads them. */
  datatype Handler = Handler(conn: nat, generation: nat, progress: Progress, consumed: nat,
                             seen: seq<Sighting>, published: seq<Frame>, cleared: bool)

  /** `author` records the generation whose handler published last; no step reads it. */
  datatype State = State(latest: Option<Frame>, geometry: Geometry, activeGen: nat, activeStream: Option<nat>,
                         acceptor: Acceptor, handlers: seq<Handler>, connections: seq<Connection>, author: nat)

  /** `wired` is whether the event loop's ping is there to wake it. */
  datatype Event =
    | Connect
    | TakeNumber
    | Evict
    | LoadGeometry
    | WriteHello(ok: bool)
    | CloneStream(ok: bool)
    | StoreStream
    | StartHandler
    | ClientSends(conn: nat, bytes: seq<Byte>)
    | ClientHangsUp(conn: nat)
    | CheckGeneration(handler: nat)
    | ReadSome(handler: nat, count: nat)
    | ReadFails(handler: nat)
    | MatchGeometry(handler: nat)
    | Publish(handler: nat)
    | Wake(handler: nat, wired: bool)
    | CheckExit(handler: nat)
    | Clear(handler: nat)
    | SetGeometry(geometry: Geometry)

  const INITIAL := State(None, Geometry(0, 0, 0), 0, None, Listening, [], [], 0)

  // ---- one step ----

  /** How many more bytes the current `read_exact` asks for. */
  function Wanted(p: Progress): nat
    requires p.InHeader? || p.InPayload?
  {
    match p
    case InHeader(header) => if |header| < 8 then 8 - |header| else 0
    case InPayload(w, h, payload) => if |payload| < PixelBytes(w, h) then PixelBytes(w, h) - |payload| else 0
  }

  predicate HandlerAt(s: State, h: nat) {
    h < |s.handlers| && s.handlers[h].conn < |s.connections|
  }

  predicate Enabled(s: State, e: Event) {
    match e
    case Connect => s.acceptor.Listening?
    case TakeNumber => s.acceptor.Accepted? && s.acceptor.conn < |s.connections|
    case Evict => s.acceptor.Numbered? && (s.activeStream.Some? ==> s.activeStream.value < |s.connections|)
    case LoadGeometry => s.acceptor.Evicted?
    case WriteHello(_) => s.acceptor.Greeting? && s.acceptor.conn < |s.connections|
    case CloneStream(_) => s.acceptor.Greeted? && s.acceptor.conn < |s.connections|
    case StoreStream => s.acceptor.Cloned?
    case StartHandler => s.acceptor.Stored? && s.acceptor.conn < |s.connections|
    case ClientSends(c, _) =>
      c < |s.connections| && !s.connections[c].hungUp && !s.connections[c].shut && !s.connections[c].closed
    case ClientHangsUp(c) => c < |s.connections|
    case CheckGeneration(h) => HandlerAt(s, h) && s.handlers[h].progress.AtLoopHead?
    case ReadSome(h, n) =>
      && HandlerAt(s, h)
      && (s.handlers[h].progress.InHeader? || s.handlers[h].progress.InPayload?)
      && 0 < n <= Wanted(s.handlers[h].progress)
      && s.handlers[h].consumed + n <= |s.connections[s.handlers[h].conn].received|
    case ReadFails(h) => HandlerAt(s, h) && (s.handlers[h].progress.InHeader? || s.handlers[h].progress.InPayload?)
    case MatchGeometry(h) => HandlerAt(s, h) && s.handlers[h].progress.AtGeometry?
    case Publish(h) => HandlerAt(s, h) && s.handlers[h].progress.AtPublish?
    case Wake(h, _) => HandlerAt(s, h) && s.handlers[h].progress.AtPing?
    case CheckExit(h) => HandlerAt(s, h) && s.handlers[h].progress.AtExitCheck?
    case Clear(h) => HandlerAt(s, h) && s.handlers[h].progress.AtClear?
    case SetGeometry(_) => true
  }

  function WithConnection(s: State, c: nat, conn: Connection): State
    requires c < |s.connections|
  {
    s.(connections := s.connections[c := conn])
  }

  function WithHandler(s: State, h: nat, handler: Handler): State
    requires h < |s.handlers|
  {
    s.(handlers := s.handlers[h := handler])
  }

  /** The buffers after one `read` delivered `bytes`; a full header is judged at once. */
  function AfterRead(p: Progress, bytes: seq<Byte>): Progress
    requires p.InHeader? || p.InPayload?
  {
    match p
    case InHeader(header) =>
      var filled := header + bytes;
      if |filled| < 8 then InHeader(filled)
      else
        var w, h := HeaderWidth(filled), HeaderHeight(filled);
        if Plausible(w, h) then InPayload(w, h, []) else AtExitCheck
    case InPayload(w, h, payload) =>
      var filled := payload + bytes;
      if |filled| < PixelBytes(w, h) then InPayload(w, h, filled) else AtGeometry(Frame(w, h, filled))
  }

  function AfterReading(h: Handler, received: seq<Byte>, n: nat): Handler
    requires h.progress.InHeader? || h.progress.InPayload?
    requires h.consumed + n <= |received|
  {
    h.(progress := AfterRead(h.progress, received[h.consumed..h.consumed + n]), consumed := h.consumed + n)
  }

  predicate HandlerEvent(e: Event) {
    || e.CheckGeneration? || e.ReadSome? || e.ReadFails? || e.MatchGeometry?
    || e.Publish? || e.Wake? || e.CheckExit? || e.Clear?
  }

  /** What one step does to the handler that takes it. */
  function HandlerStep(s: State, e: Event): (h: Handler)
    requires Enabled(s, e) && HandlerEvent(e)
    ensures h.conn == s.handlers[e.handler].conn && h.generation == s.handlers[e.handler].generation
  {
    var h := s.handlers[e.handler];
    match e
    case CheckGeneration(_) => h.(progress := if s.activeGen != h.generation then AtExitCheck else InHeader([]))
    case ReadSome(_, n) => AfterReading(h, s.connections[h.conn].received, n)
    case ReadFails(_) => h.(progress := AtExitCheck)
    case MatchGeometry(_) =>
      var f := h.progress.frame;
      h.(progress := if Matches(f, s.geometry) then AtPublish(f) else AtLoopHead,
         seen := h.seen + [Sighting(f, s.geometry)])
    case Publish(_) => h.(progress := AtPing, published := h.published + [h.progress.frame])
    case Wake(_, _) => h.(progress := AtLoopHead)
    case CheckExit(_) => h.(progress := if s.activeGen == h.generation then AtClear else Finished)
    case Clear(_) => h.(progress := Finished, cleared := true)
  }

  /** What one step of a handler does to `latest`. */
  function LatestAfter(s: State, e: Event): Option<Frame>
    requires Enabled(s, e) && HandlerEvent(e)
  {
    match e
    case Publish(h) => Some(s.handlers[h].progress.frame)
    case Clear(_) => None
    case _ => s.latest
  }

  function AuthorAfter(s: State, e: Event): nat
    requires Enabled(s, e) && HandlerEvent(e)
  {
    if e.Publish? then s.handlers[e.handler].generation else s.author
  }

  function Step(s: State, e: Event): State
    requires Enabled(s, e)
  {
    match e
    case Connect =>
      s.(connections := s.connections + [Connection([], false, false, false, 0)], acceptor := Accepted(|s.connections|))
    case TakeNumber =>
      var c := s.acceptor.conn;
      WithConnection(s, c, s.connections[c].(generation := s.activeGen + 1))
      .(activeGen := s.activeGen + 1, acceptor := Numbered(c))
    case Evict =>
      var evicted :=
        match s.activeStream
        case Some(previous) => WithConnection(s, previous, s.connections[previous].(shut := true))
        case None => s;
      evicted.(activeStream := None, acceptor := Evicted(s.acceptor.conn))
    case LoadGeometry => s.(acceptor := Greeting(s.acceptor.conn, s.geometry))
    case WriteHello(ok) =>
      var c := s.acceptor.conn;
      if ok then s.(acceptor := Greeted(c))
      else WithConnection(s, c, s.connections[c].(closed := true)).(acceptor := Listening)
    case CloneStream(ok) =>
      var c := s.acceptor.conn;
      if ok then s.(acceptor := Cloned(c))
      else WithConnection(s, c, s.connections[c].(closed := true)).(acceptor := Listening)
    case StoreStream => s.(activeStream := Some(s.acceptor.conn), acceptor := Stored(s.acceptor.conn))
    case StartHandler =>
      var c := s.acceptor.conn;
      s.(handlers := s.handlers + [Handler(c, s.connections[c].generation, AtLoopHead, 0, [], [], false)],
         acceptor := Listening)
    case ClientSends(c, bytes) =>
      WithConnection(s, c, s.connections[c].(received := s.connections[c].received + bytes))
    case ClientHangsUp(c) => WithConnection(s, c, s.connections[c].(hungUp := true))
    case SetGeometry(g) => s.(geometry := g)
    case _ => WithHandler(s, e.handler, HandlerStep(s, e)).(latest := LatestAfter(s, e), author := AuthorAfter(s, e))
  }

  // ---- runs ----

  predicate Run(s: State, events: seq<Event>)
    decreases |events|
  {
    events == [] || (Enabled(s, events[0]) && Run(Step(s, events[0]), events[1..]))
  }

  function Exec(s: State, events: seq<Event>): State
    requires Run(s, events)
    decreases |events|
  {
    if events == [] then s else Exec(Step(s, events[0]), events[1..])
  }
}
