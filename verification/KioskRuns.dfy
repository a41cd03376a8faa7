/** Whole runs of a process with a kiosk of one pixel: the lock is confirmed, the kiosk appears and is
    configured, the socket serves; and from there whatever the kiosk server can do. */
module KioskRuns {
  import opened Words
  import opened Wire
  import opened Render
  import opened LockProtocol
  import opened Outputs
  import opened System
  import opened SystemTheorems
  import opened Lifting
  import OneClient
  import Races
  import Server
  import Supersession
  import Takeover

  const SETUP: Setup := Setup(["K"], Some("nixlock.sock"), false)
  const KIOSK: Entry := Entry(0, 0, Kiosk, "K", 1, 1, 1)
  const BLANK: Paint := Paint([], [], n => 0)

  const LOCKING: seq<Event> := [Display(RequestLock), Display(Confirm)]
  const PLUGGING: seq<Event> := [Display(Bind(0)), Display(Announce(0, OutputInfo(Some("K"), 1)))]
  const SIZING: seq<Event> := [Display(SurfaceConfigured(0, 1, 1)), RenderNext(BLANK)]

  const LOCKED: State :=
    Begin(SETUP).(ui := Begin(SETUP).ui.(lock := Held, socketPath := None, traffic := [LockRequest, LockConfirmed]),
                  serving := true)

  lemma Locks()
    ensures Run(Begin(SETUP), LOCKING) && Exec(Begin(SETUP), LOCKING) == LOCKED
  {
    var requested := Begin(SETUP).(ui := Begin(SETUP).ui.(lock := Pending, traffic := [LockRequest]));
    assert Step(Begin(SETUP), Display(RequestLock)) == requested;
    NobodyToAdd(requested.ui);
    assert Step(requested, Display(Confirm)) == LOCKED by { hide Locked; }
    RunTwo(Begin(SETUP), Display(RequestLock), Display(Confirm));
    hide Run, Exec;
  }

  lemma NobodyToAdd(ui: Ui)
    requires ui.known == []
    ensures Locked(ui) == Send(ui, LockConfirmed).(lock := Held, socketPath := None, daemonReady := false)
  {
    var held := Send(ui, LockConfirmed).(lock := Held, socketPath := None);
    assert SessionFirst(held, []) == [];
  }

  lemma Plugs() returns (t: State)
    ensures Run(LOCKED, PLUGGING) && t == Exec(LOCKED, PLUGGING)
    ensures t == LOCKED.(ui := t.ui) && t.ui.lock == Held && t.ui.surfaces == [KIOSK.(width := 0, height := 0)]
  {
    var bound := LOCKED.(ui := LOCKED.ui.(known := [0]));
    assert Step(LOCKED, Display(Bind(0))) == bound;
    t := Step(bound, Display(Announce(0, OutputInfo(Some("K"), 1))));
    assert "K" in ["K"];
    RunTwo(LOCKED, Display(Bind(0)), Display(Announce(0, OutputInfo(Some("K"), 1))));
    hide Run, Exec;
  }

  lemma Sizes(s: State) returns (t: State)
    requires s == LOCKED.(ui := s.ui) && s.ui.lock == Held && s.ui.surfaces == [KIOSK.(width := 0, height := 0)]
    ensures Run(s, SIZING) && t == Exec(s, SIZING)
    ensures t == LOCKED.(ui := t.ui, server := Races.READY) && t.ui.lock == Held && t.ui.surfaces == [KIOSK]
  {
    var configured := Configures(s);
    t := Step(configured, RenderNext(BLANK));
    RenderKeepsSurfaces(configured.ui);
    assert [0][1..] == [] && Enabled(configured, RenderNext(BLANK));
    assert t == LOCKED.(ui := t.ui, server := Races.READY) by { hide RenderSurface; }
    hide Step, Enabled, Run, Exec;
    RunTwo(s, Display(SurfaceConfigured(0, 1, 1)), RenderNext(BLANK));
  }

  lemma RenderKeepsSurfaces(ui: Ui)
    requires ui.surfaces == [KIOSK]
    ensures var after := RenderSurface(ui, 0, None, BLANK); after.surfaces == [KIOSK] && after.lock == ui.lock
  {
    hide Committed;
  }

  lemma Configures(s: State) returns (t: State)
    requires s == LOCKED.(ui := s.ui) && s.ui.lock == Held && s.ui.surfaces == [KIOSK.(width := 0, height := 0)]
    ensures Enabled(s, Display(SurfaceConfigured(0, 1, 1))) && t == Step(s, Display(SurfaceConfigured(0, 1, 1)))
    ensures t == LOCKED.(ui := t.ui, server := Races.READY, redraw := [0]) && t.ui.lock == Held
            && t.ui.surfaces == [KIOSK]
  {
    t := Step(s, Display(SurfaceConfigured(0, 1, 1)));
    assert IndexOfSurface(s.ui.surfaces, 0) == 0;
    assert s.ui.surfaces[0 := KIOSK] == [KIOSK] && [KIOSK][1..] == [];
    assert KioskGeometry([KIOSK]) == Geometry(1, 1, 1);
    hide KioskGeometry, IndexOfSurface;
  }

  /** A process whose kiosk is there and whose socket nobody has used. */
  ghost predicate Ready(s: State) {
    && s.serving && s.auth.exit == None && s.redraw == [] && !s.pinged && s.server == Races.READY
    && s.ui.lock == Held && s.ui.surfaces == [KIOSK]
  }

  lemma GetsReady() returns (story: Story)
    ensures story.setup == SETUP && Ready(End(story))
  {
    hide Run, Exec;
    Locks();
    var plugged := Plugs();
    var sized := Sizes(plugged);
    RunConcat(Begin(SETUP), LOCKING, PLUGGING);
    RunConcat(Begin(SETUP), LOCKING + PLUGGING, SIZING);
    story := History(SETUP, LOCKING + PLUGGING + SIZING);
  }

  lemma Further(story: Story, events: seq<Event>) returns (further: Story)
    requires Run(End(story), events)
    ensures further == History(story.setup, story.events + events) && End(further) == Exec(End(story), events)
  {
    hide Run, Exec;
    RunConcat(Begin(story.setup), story.events, events);
    further := History(story.setup, story.events + events);
  }

  /** Every run of a server whose kiosk is one pixel, without a geometry update, happens in a process. */
  lemma InAProcess(actions: seq<Server.Event>) returns (story: Story)
    requires Server.Run(Races.READY, actions) && Races.NoResize(actions)
    ensures End(story).server == Server.Exec(Races.READY, actions) && End(story).serving && End(story).auth.exit == None
  {
    hide End, Run, Exec, Server.Run, Server.Exec;
    var ready := GetsReady();
    ServerRunsHappen(End(ready), actions);
    story := Further(ready, Served(actions));
  }

  // ---- the races ----

  /** Against the comment at the clear: in a process with a kiosk the first client hangs up and its handler
      passes the exit check; a second client connects and streams a frame; then the first handler takes it
      away. */
  lemma LateClearHappens() returns (story: Story)
    ensures var server := End(story).server;
            && server.latest.Some? && |server.handlers| == 2 && server.handlers[1].generation == server.activeGen
            && server.handlers[1].progress.AtLoopHead? && server.acceptor.Listening?
            && Supersession.Superseded(server, 0) && Enabled(End(story), Serve(Server.Clear(0)))
            && Step(End(story), Serve(Server.Clear(0))).server.latest == None
  {
    hide End;
    var actions := Races.LateClearRuns();
    story := InAProcess(actions);
  }

  /** Against "never a frozen last frame past a disconnect": a client streams a frame, its replacement comes
      to nothing, and every connection is gone, every handler finished, with the frame still in `latest`. */
  lemma FrozenFrameHappens(ending: Races.Ending) returns (story: Story)
    requires ending != Races.Installed
    ensures var server := End(story).server;
            && server.latest.Some? && server.acceptor.Listening?
            && (forall c :: 0 <= c < |server.connections| ==> !OneClient.Open(server.connections[c]))
            && (forall h :: 0 <= h < |server.handlers| ==> server.handlers[h].progress.Finished?)
  {
    hide End, OneClient.Open;
    var actions := Races.FrozenFrameRuns(ending);
    story := InAProcess(actions);
  }

  /** And with nothing failing: a client streams a frame, its replacement is installed and sends nothing, the
      first handler leaves, and its frame is still in `latest`. */
  lemma SilentReplacementHappens() returns (story: Story)
    ensures var server := End(story).server;
            && server.latest.Some? && Takeover.Orphaned(server) && server.acceptor.Listening?
            && |server.connections| == |server.handlers| == 2
            && !OneClient.Open(server.connections[0]) && server.handlers[0].progress.Finished?
            && OneClient.Open(server.connections[1]) && server.connections[1].received == []
            && server.handlers[1].progress.AtLoopHead?
  {
    hide End, OneClient.Open, Takeover.Orphaned;
    var actions := Races.SilentReplacementRuns();
    story := InAProcess(actions);
  }
}
