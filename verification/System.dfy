/** One nixlock process: the event loop's callbacks, the PAM worker and the kiosk socket's threads,
    interleaved. A callback's repaint is not atomic with it: `redraw` holds the surfaces still to be
    rendered, and each of them looks at `latest` when its turn comes. */
module System {
  import opened Words
  import opened Wire
  import opened Render
  import opened LockProtocol
  import opened Outputs
  import opened Lifecycle
  import opened FrameIntegrity
  import opened Auth
  import AuthMachine
  import AuthTheorems
  import Server
  import OneClient

  datatype State = State(auth: AuthMachine.State, ui: Ui, server: Server.State, redraw: seq<nat>, serving: bool,
                         pinged: bool)

  datatype Event =
    | Key(key: KeyEvent, now: Time, later: Time)
    | Worker(step: AuthMachine.Event)
    | Deliver(now: Time)
    | Tick(now: Time)
    | Ping
    | Display(callback: Callback)
    | Finished
    | RenderNext(paint: Paint)
    | Serve(action: Server.Event)

  /** `run_inner` up to the event loop, for a configuration. */
  function Start(kioskOutputs: seq<string>, socketPath: Option<string>, daemonReady: bool): State {
    State(AuthMachine.INITIAL,
          Ui(NoLock, [], map[], kioskOutputs, [], 0, false, false, socketPath, daemonReady, []),
          Server.INITIAL, [], false, false)
  }

  predicate WorkerStep(e: AuthMachine.Event) {
    e.Receive? || e.PamReturns? || e.SendResult? || e.DropReceiver?
  }

  /** The environment obeys the lock protocol: keys reach the client only while it has a surface,
      `finished` comes only once a lock was asked for, and the socket's threads exist only after the
      confirmed lock started them. */
  predicate Enabled(s: State, e: Event) {
    && s.auth.exit == None
    && match e
       case Key(key, now, later) =>
         s.redraw == [] && s.ui.surfaces != [] && AuthMachine.Enabled(s.auth, AuthMachine.Key(key, now, later))
       case Worker(step) => WorkerStep(step) && AuthMachine.Enabled(s.auth, step)
       case Deliver(now) => s.redraw == [] && AuthMachine.Enabled(s.auth, AuthMachine.Deliver(now))
       case Tick(now) => s.redraw == [] && AuthMachine.Enabled(s.auth, AuthMachine.Tick(now))
       case Ping => s.redraw == [] && s.pinged
       case Display(callback) => s.redraw == [] && MayHappen(s.ui, callback)
       case Finished => s.redraw == [] && s.ui.lock != NoLock
       case RenderNext(_) => s.redraw != [] && s.redraw[0] < |s.ui.surfaces|
       case Serve(action) => s.serving && !action.SetGeometry? && Server.Enabled(s.server, action)
  }

  function Repeat(indices: seq<nat>, times: nat): seq<nat> {
    if times == 0 then [] else indices + Repeat(indices, times - 1)
  }

  function SetGeometry(server: Server.State, g: Option<Geometry>): Server.State {
    if g.Some? then Server.Step(server, Server.SetGeometry(g.value)) else server
  }

  /** The one thing the socket's threads tell the event loop. */
  predicate Wakes(action: Server.Event) {
    action.Wake? && action.wired
  }

  function Step(s: State, e: Event): State
    requires Enabled(s, e)
  {
    match e
    case Key(key, now, later) =>
      var redraws := PressKey(s.auth.fields, key, now, later, !s.auth.worker.Gone?).redraws;
      s.(auth := AuthMachine.Step(s.auth, AuthMachine.Key(key, now, later)),
         redraw := Repeat(SessionIndices(s.ui.surfaces), redraws))
    case Worker(step) => s.(auth := AuthMachine.Step(s.auth, step))
    case Deliver(now) =>
      var unlocked := s.auth.results[0].outcome == Unlocked;
      s.(auth := AuthMachine.Step(s.auth, AuthMachine.Deliver(now)),
         ui := if unlocked then Unlock(s.ui) else s.ui,
         redraw := if unlocked then [] else SessionIndices(s.ui.surfaces))
    case Tick(now) =>
      s.(auth := AuthMachine.Step(s.auth, AuthMachine.Tick(now)), ui := Repaint(s.ui).ui,
         redraw := Repaint(s.ui).redraw)
    case Ping => s.(redraw := Indices(|s.ui.surfaces|), pinged := false)
    case Display(callback) =>
      var effect := Handle(s.ui, callback);
      s.(ui := effect.ui, redraw := effect.redraw, server := SetGeometry(s.server, effect.geometry),
         serving := s.serving || (callback.Confirm? && s.ui.socketPath.Some?))
    case Finished => s.(auth := AuthMachine.Step(s.auth, AuthMachine.Abort))
    case RenderNext(paint) =>
      s.(ui := RenderSurface(s.ui, s.redraw[0], s.server.latest, paint), redraw := s.redraw[1..])
    case Serve(action) => s.(server := Server.Step(s.server, action), pinged := s.pinged || Wakes(action))
  }

  predicate Run(s: State, events: seq<Event>)
    decreases |events|
  {
    events == [] || (Enabled(s, events[0]) && Run(Step(s, events[0]), events[1..]))
  }

  function Exec(s: State, events: seq<Event>): State
    requires Run(s, events)
    decreases |events|
  {
    if events == [] then s else Exec(Step(s, events[0]), events[1..])
  }

  // ---- invariants of the whole process ----

  /** While the process runs the lock is held whenever anything was submitted, and the display agrees
      with the compositor; once it has unlocked, only the conversation that led there is left. */
  predicate LockInv(s: State) {
    && (s.auth.exit != Some(0) ==> DisplayInv(s.ui) && !After(s.ui.traffic).unlocked)
    && (s.auth.exit == None && s.auth.submissions != [] ==> s.ui.lock == Held)
    && (s.auth.exit == Some(0) ==>
          Conforms(s.ui.traffic) && EntriesInv(s.ui) && s.ui.lock == NoLock
          && s.ui.traffic != [] && s.ui.traffic[|s.ui.traffic| - 1] == UnlockAndDestroy)
  }

  /** `m` shows one complete frame some client sent, at that frame's own size. */
  ghost predicate ShowsClientFrame(server: Server.State, m: Message)
    requires m.Commit?
  {
    exists f: Frame ::
      && SentByClient(server, f)
      && m.size == Size(f.width, f.height)
      && |f.rgba| % 4 == 0 && m.pixels == Swizzle(f.rgba)
  }

  ghost predicate StreamedInv(s: State) {
    forall i :: 0 <= i < |s.ui.traffic| && s.ui.traffic[i].Commit? && s.ui.traffic[i].streamed ==>
      ShowsClientFrame(s.server, s.ui.traffic[i])
  }

  ghost predicate SystemInv(s: State) {
    && AuthMachine.Inv(s.auth)
    && LockInv(s)
    && OneClient.AcceptInv(s.server)
    && FrameInv(s.server)
    && CacheAgrees(s.server.geometry, s.ui.surfaces)
    && StreamedInv(s)
  }

  // ---- authentication ----

  function AuthPart(e: Event): Option<AuthMachine.Event> {
    match e
    case Key(key, now, later) => Some(AuthMachine.Key(key, now, later))
    case Worker(step) => Some(step)
    case Deliver(now) => Some(AuthMachine.Deliver(now))
    case Tick(now) => Some(AuthMachine.Tick(now))
    case Finished => Some(AuthMachine.Abort)
    case _ => None
  }

  lemma AuthPartOfStep(s: State, e: Event)
    requires Enabled(s, e)
    ensures match AuthPart(e)
            case Some(step) => AuthMachine.Enabled(s.auth, step) && Step(s, e).auth == AuthMachine.Step(s.auth, step)
            case None => Step(s, e).auth == s.auth
  {
  }

  function AuthPartOf(events: seq<Event>): seq<AuthMachine.Event> {
    if events == [] then []
    else (match AuthPart(events[0]) case Some(step) => [step] case None => []) + AuthPartOf(events[1..])
  }

  /** Whatever else happens in the process, its authentication state is a run of the authentication
      machine. */
  lemma {:induction false} AuthIsItsOwnMachine(s: State, events: seq<Event>)
    requires Run(s, events)
    ensures AuthMachine.Run(s.auth, AuthPartOf(events))
    ensures Exec(s, events).auth == AuthMachine.Exec(s.auth, AuthPartOf(events))
    decreases |events|
  {
    if events != [] {
      var e, rest := events[0], events[1..];
      AuthPartOfStep(s, e);
      AuthIsItsOwnMachine(Step(s, e), rest);
      match AuthPart(e)
      case Some(step) => AuthTheorems.RunPrepend(s.auth, step, AuthPartOf(rest));
      case None => assert [] + AuthPartOf(rest) == AuthPartOf(rest);
    }
  }

  // ---- the lock and the display ----

  lemma NoLockNoTraffic(ui: Ui, e: Callback)
    requires DisplayInv(ui) && ui.lock == NoLock && !After(ui.traffic).unlocked && MayHappen(ui, e)
    ensures ui.surfaces == []
    ensures Handle(ui, e).ui.lock == NoLock ==> Handle(ui, e).ui.traffic == ui.traffic
  {
  }

  lemma HeldStaysRunning(ui: Ui)
    requires DisplayInv(ui) && ui.lock != NoLock
    ensures !After(ui.traffic).unlocked
  {
  }

  lemma HandleKeepsHeld(ui: Ui, e: Callback)
    requires ui.lock != NoLock && MayHappen(ui, e)
    ensures Handle(ui, e).ui.lock != NoLock
    ensures ui.lock == Held ==> Handle(ui, e).ui.lock == Held
  {
    hide KioskGeometry, IndexOfOutput, IndexOfSurface, Locked, SessionIndices;
    if e.Confirm? {
      LockedIsHeld(ui);
    }
  }

  lemma LockedIsHeld(ui: Ui)
    ensures Locked(ui).lock == Held
  {
    var held := Send(ui, LockConfirmed).(lock := Held, socketPath := None);
    AddSurfacesFrame(held, SessionFirst(held, held.known));
    hide AddSurfaces, SessionFirst;
  }

  lemma DisplayKeepsLock(s: State, e: Callback)
    requires LockInv(s) && s.auth.exit == None && MayHappen(s.ui, e)
    ensures var ui' := Handle(s.ui, e).ui;
            && DisplayInv(ui') && !After(ui'.traffic).unlocked
            && (s.auth.submissions != [] ==> ui'.lock == Held)
  {
    var ui' := Handle(s.ui, e).ui;
    HandleKeepsDisplay(s.ui, e);
    if s.ui.lock == NoLock {
      NoLockNoTraffic(s.ui, e);
    } else {
      HandleKeepsHeld(s.ui, e);
    }
    if ui'.lock != NoLock {
      HeldStaysRunning(ui');
    }
    hide DisplayInv, Handle, After;
  }

  lemma RenderKeepsLock(ui: Ui, i: nat, latest: Option<Frame>, paint: Paint)
    requires DisplayInv(ui) && !After(ui.traffic).unlocked && i < |ui.surfaces|
    ensures var ui' := RenderSurface(ui, i, latest, paint);
            DisplayInv(ui') && !After(ui'.traffic).unlocked && ui'.lock == ui.lock && ui'.surfaces == ui.surfaces
  {
    var ui' := RenderSurface(ui, i, latest, paint);
    RenderKeepsDisplay(ui, i, latest, paint);
    EntriesMeanHeld(ui);
    assert ui'.lock == Held;
    HeldStaysRunning(ui');
    hide DisplayInv;
  }

  lemma KeyKeepsLock(s: State, e: Event)
    requires LockInv(s) && Enabled(s, e) && e.Key?
    ensures LockInv(Step(s, e))
  {
    EntriesMeanHeld(s.ui);
    assert Step(s, e).ui == s.ui && Step(s, e).auth.exit == None;
    hide DisplayInv, Step, Enabled, After, Conforms, EntriesInv;
  }

  lemma TickKeepsLock(s: State, e: Event)
    requires LockInv(s) && Enabled(s, e) && e.Tick?
    ensures LockInv(Step(s, e))
  {
    RepaintKeepsDisplay(s.ui);
    hide DisplayInv, After, Conforms, EntriesInv;
  }

  /** The steps that touch neither the display nor what was submitted. */
  lemma QuietStepKeepsLock(s: State, e: Event)
    requires LockInv(s) && Enabled(s, e) && (e.Worker? || e.Ping? || e.Finished? || e.Serve?)
    ensures LockInv(Step(s, e))
  {
    hide PressKey, Server.Step, Server.Enabled;
    assert Step(s, e).ui == s.ui && Step(s, e).auth.submissions == s.auth.submissions;
    assert Step(s, e).auth.exit == None || Step(s, e).auth.exit == Some(1);
    hide DisplayInv, Step, Enabled, After, Conforms, EntriesInv;
  }

  lemma DisplayStepKeepsLock(s: State, e: Event)
    requires LockInv(s) && Enabled(s, e) && (e.Display? || e.RenderNext?)
    ensures LockInv(Step(s, e))
  {
    if e.Display? {
      DisplayKeepsLock(s, e.callback);
    } else {
      RenderKeepsLock(s.ui, s.redraw[0], s.server.latest, e.paint);
    }
    hide DisplayInv, Handle, RenderSurface, After, Conforms, EntriesInv;
  }

  lemma StepKeepsLock(s: State, e: Event)
    requires LockInv(s) && AuthMachine.Inv(s.auth) && Enabled(s, e)
    ensures LockInv(Step(s, e))
  {
    hide LockInv, Step, Enabled, AuthMachine.Inv;
    match e
    case Key(_, _, _) => KeyKeepsLock(s, e);
    case Tick(_) => TickKeepsLock(s, e);
    case Deliver(now) => DeliverKeepsLock(s, now);
    case Display(_) => DisplayStepKeepsLock(s, e);
    case RenderNext(_) => DisplayStepKeepsLock(s, e);
    case _ => QuietStepKeepsLock(s, e);
  }

  lemma DeliverKeepsLock(s: State, now: Time)
    requires LockInv(s) && AuthMachine.Inv(s.auth) && Enabled(s, Deliver(now))
    ensures LockInv(Step(s, Deliver(now)))
  {
    hide Handle, RenderSurface, PressKey, Refuse, SessionIndices;
    ResultsAnswerSubmissions(s.auth);
    hide AuthMachine.Inv;
    if s.auth.results[0].outcome == Unlocked {
      UnlockConforms(s.ui);
    }
    hide DisplayInv, After, Conforms, EntriesInv;
  }

  lemma ResultsAnswerSubmissions(auth: AuthMachine.State)
    requires AuthMachine.Inv(auth) && auth.exit == None && auth.results != []
    ensures auth.submissions != []
  {
  }

  // ---- the server's invariants and the frames on display ----

  lemma SetGeometryKeepsServer(server: Server.State, g: Option<Geometry>)
    requires OneClient.AcceptInv(server) && FrameInv(server)
    ensures OneClient.AcceptInv(SetGeometry(server, g)) && FrameInv(SetGeometry(server, g))
    ensures SetGeometry(server, g).connections == server.connections
  {
    if g.Some? {
      OneClient.StepKeepsAcceptInv(server, Server.SetGeometry(g.value));
      StepKeepsFrameInv(server, Server.SetGeometry(g.value));
    }
    hide OneClient.AcceptInv, FrameInv;
  }

  lemma StepKeepsServer(s: State, e: Event)
    requires OneClient.AcceptInv(s.server) && FrameInv(s.server) && Enabled(s, e)
    ensures OneClient.AcceptInv(Step(s, e).server) && FrameInv(Step(s, e).server)
  {
    hide OneClient.AcceptInv, FrameInv, Handle, RenderSurface, PressKey;
    if e.Display? {
      SetGeometryKeepsServer(s.server, Handle(s.ui, e.callback).geometry);
    } else if e.Serve? {
      OneClient.StepKeepsAcceptInv(s.server, e.action);
      StepKeepsFrameInv(s.server, e.action);
    }
  }

  /** Bytes received are never taken back. */
  lemma ReceivedOnlyGrows(s: Server.State, e: Server.Event)
    requires Server.Enabled(s, e)
    ensures |s.connections| <= |Server.Step(s, e).connections|
    ensures forall c :: 0 <= c < |s.connections| ==>
            s.connections[c].received <= Server.Step(s, e).connections[c].received
  {
  }

  lemma SentForever(s: Server.State, e: Server.Event, f: Frame)
    requires Server.Enabled(s, e) && SentByClient(s, f)
    ensures SentByClient(Server.Step(s, e), f)
  {
    ReceivedOnlyGrows(s, e);
    SentInLongerStreams(s, Server.Step(s, e), f);
  }

  lemma SentInLongerStreams(s: Server.State, t: Server.State, f: Frame)
    requires SentByClient(s, f) && |s.connections| <= |t.connections|
    requires forall c :: 0 <= c < |s.connections| ==> s.connections[c].received <= t.connections[c].received
    ensures SentByClient(t, f)
  {
    hide Frames;
    var c :| 0 <= c < |s.connections| && f in Frames(s.connections[c].received);
    var before, after := s.connections[c].received, t.connections[c].received;
    FramesGrow(before, after[|before|..]);
    assert before + after[|before|..] == after;
  }

  lemma ShownForever(s: Server.State, e: Server.Event, m: Message)
    requires Server.Enabled(s, e) && m.Commit? && ShowsClientFrame(s, m)
    ensures ShowsClientFrame(Server.Step(s, e), m)
  {
    var f: Frame :| SentByClient(s, f) && m.size == Size(f.width, f.height)
                    && |f.rgba| % 4 == 0 && m.pixels == Swizzle(f.rgba);
    SentForever(s, e, f);
  }

  /** A commit marked as streamed is the latest frame, whole and swizzled, at its own size. */
  lemma RenderShowsLatest(server: Server.State, ui: Ui, i: nat, paint: Paint)
    requires FrameInv(server) && i < |ui.surfaces|
    ensures var ui' := RenderSurface(ui, i, server.latest, paint);
            && ui.traffic <= ui'.traffic && |ui'.traffic| <= |ui.traffic| + 1
            && (ui'.traffic != ui.traffic && ui'.traffic[|ui.traffic|].streamed ==>
                  ShowsClientFrame(server, ui'.traffic[|ui.traffic|]))
  {
    hide SentByClient;
    var e := ui.surfaces[i];
    var ui' := RenderSurface(ui, i, server.latest, paint);
    if ui'.traffic != ui.traffic && ui'.traffic[|ui.traffic|].streamed {
      var f := server.latest.value;
      SentFramesAreWellFormed(server, f);
      StreamedFrameIsCommittedWhole(f, paint);
      assert e.role == Kiosk && f.width == e.width && f.height == e.height;
    }
  }

  ghost predicate AllStreamedShown(server: Server.State, traffic: seq<Message>) {
    forall i :: 0 <= i < |traffic| && traffic[i].Commit? && traffic[i].streamed ==> ShowsClientFrame(server, traffic[i])
  }

  lemma {:induction false} AddSurfacesCommitNothing(ui: Ui, os: seq<OutputId>)
    ensures ui.traffic <= AddSurfaces(ui, os).traffic
    ensures forall i :: |ui.traffic| <= i < |AddSurfaces(ui, os).traffic| ==> !AddSurfaces(ui, os).traffic[i].Commit?
  {
    if os != [] {
      AddSurfacesCommitNothing(ui, os[..|os| - 1]);
    }
  }

  /** Callbacks commit nothing themselves; only rendering does. */
  lemma CallbacksCommitNothing(ui: Ui, e: Callback)
    requires MayHappen(ui, e)
    ensures var after := Handle(ui, e).ui.traffic;
            ui.traffic <= after && forall i :: |ui.traffic| <= i < |after| ==> !after[i].Commit?
  {
    hide KioskGeometry, IndexOfOutput, IndexOfSurface, Locked, SessionIndices;
    if e.Confirm? {
      LockedCommitsNothing(ui);
    }
  }

  lemma LockedCommitsNothing(ui: Ui)
    ensures var after := Locked(ui).traffic;
            ui.traffic <= after && forall i :: |ui.traffic| <= i < |after| ==> !after[i].Commit?
  {
    var held := Send(ui, LockConfirmed).(lock := Held, socketPath := None);
    AddSurfacesCommitNothing(held, SessionFirst(held, held.known));
    hide AddSurfaces, SessionFirst;
  }

  lemma ServeKeepsStreamed(server: Server.State, action: Server.Event, traffic: seq<Message>)
    requires Server.Enabled(server, action) && AllStreamedShown(server, traffic)
    ensures AllStreamedShown(Server.Step(server, action), traffic)
  {
    forall i | 0 <= i < |traffic| && traffic[i].Commit? && traffic[i].streamed
      ensures ShowsClientFrame(Server.Step(server, action), traffic[i])
    {
      ShownForever(server, action, traffic[i]);
    }
  }

  lemma StepKeepsStreamed(s: State, e: Event)
    requires StreamedInv(s) && FrameInv(s.server) && Enabled(s, e)
    ensures StreamedInv(Step(s, e))
  {
    hide ShowsClientFrame, FrameInv, Handle, RenderSurface, PressKey, Server.Step;
    if e.RenderNext? {
      RenderShowsLatest(s.server, s.ui, s.redraw[0], e.paint);
    } else if e.Serve? {
      ServeKeepsStreamed(s.server, e.action, s.ui.traffic);
    } else if e.Display? {
      CallbacksCommitNothing(s.ui, e.callback);
      var g := Handle(s.ui, e.callback).geometry;
      if g.Some? {
        ServeKeepsStreamed(s.server, Server.SetGeometry(g.value), s.ui.traffic);
      }
    }
  }

  lemma StepKeepsCache(s: State, e: Event)
    requires CacheAgrees(s.server.geometry, s.ui.surfaces) && Enabled(s, e)
    ensures CacheAgrees(Step(s, e).server.geometry, Step(s, e).ui.surfaces)
  {
    hide KioskGeometry, Handle, PressKey;
    if e.Display? {
      ScanIsPublishedOrUnchanged(s.ui, e.callback);
    }
  }

  lemma StepKeepsSystemInv(s: State, e: Event)
    requires SystemInv(s) && Enabled(s, e)
    ensures SystemInv(Step(s, e))
  {
    AuthPartOfStep(s, e);
    if AuthPart(e).Some? {
      AuthMachine.StepKeepsInv(s.auth, AuthPart(e).value);
    }
    StepKeepsLock(s, e);
    StepKeepsServer(s, e);
    StepKeepsStreamed(s, e);
    StepKeepsCache(s, e);
    hide Step, AuthMachine.Step, AuthMachine.Inv, LockInv, OneClient.AcceptInv, FrameInv, CacheAgrees, StreamedInv;
  }

  lemma StartKeepsSystemInv(kioskOutputs: seq<string>, socketPath: Option<string>, daemonReady: bool)
    ensures SystemInv(Start(kioskOutputs, socketPath, daemonReady))
  {
    hide AuthMachine.Inv, DisplayInv, OneClient.AcceptInv, FrameInv, CacheAgrees, After;
    var s := Start(kioskOutputs, socketPath, daemonReady);
    AuthTheorems.InitiallyInv();
    FreshDisplay(s.ui);
    FreshServer();
  }

  lemma FreshServer()
    ensures OneClient.AcceptInv(Server.INITIAL) && FrameInv(Server.INITIAL)
    ensures CacheAgrees(Server.INITIAL.geometry, [])
  {
  }

  lemma FreshDisplay(ui: Ui)
    requires ui.lock == NoLock && ui.known == [] && ui.info == map[] && ui.surfaces == [] && ui.traffic == []
    ensures DisplayInv(ui) && !After(ui.traffic).unlocked
  {
    assert After([]) == NOTHING;
    assert EntriesInv(ui) && CoverageInv(ui);
    assert Conforms(ui.traffic) && SurfacesDistinct(ui.surfaces) && PhaseMirrored(ui, NOTHING);
    assert EntriesMirrored(ui, NOTHING) && LiveListed(ui, NOTHING);
    hide After, Conforms, EntriesMirrored, LiveListed, SurfacesDistinct, PhaseMirrored, EntriesInv, CoverageInv;
  }

  lemma {:induction false} SystemInvAlways(s: State, events: seq<Event>)
    requires SystemInv(s) && Run(s, events)
    ensures SystemInv(Exec(s, events))
    decreases |events|
  {
    hide SystemInv;
    if events != [] {
      StepKeepsSystemInv(s, events[0]);
      SystemInvAlways(Step(s, events[0]), events[1..]);
    }
  }
}
