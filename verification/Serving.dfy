/** The kiosk server inside the process: whatever else happens, its state is a run of the server machine,
    so what is proved of the server's runs is proved of it in every run of the process. */
module Serving {
  import opened Words
  import opened Wire
  import opened Outputs
  import opened Lifecycle
  import opened System
  import opened SystemTheorems
  import AuthMachine
  import Auth
  import LockProtocol
  import Render
  import FrameIntegrity
  import LateWriters
  import OneClient
  import Server
  import Supersession
  import Takeover

  // ---- the projection ----

  /** What one step of the process does to the server: one of the server's own steps, or a geometry update. */
  function ServerPart(s: State, e: Event): seq<Server.Event>
    requires Enabled(s, e)
  {
    match e
    case Serve(action) => [action]
    case Display(callback) =>
      (match Handle(s.ui, callback).geometry
       case Some(g) => [Server.SetGeometry(g)]
       case None => [])
    case _ => []
  }

  function ServerPartOf(s: State, events: seq<Event>): seq<Server.Event>
    requires Run(s, events)
    decreases |events|
  {
    if events == [] then [] else ServerPart(s, events[0]) + ServerPartOf(Step(s, events[0]), events[1..])
  }

  lemma ServerPartOfStep(s: State, e: Event)
    requires Enabled(s, e)
    ensures var part := ServerPart(s, e);
            && |part| <= 1
            && (part == [] ==> Step(s, e).server == s.server)
            && (part != [] ==> Server.Enabled(s.server, part[0]) && Step(s, e).server == Server.Step(s.server, part[0]))
  {
    hide Handle, RenderSurface, Auth.PressKey, AuthMachine.Step, AuthMachine.Enabled;
    if e.Serve? {
      hide Server.Step, Server.Enabled;
    }
  }

  /** The server's state in a process run is a run of the server machine. */
  lemma {:induction false} ServerIsItsOwnMachine(s: State, events: seq<Event>)
    requires Run(s, events)
    ensures Server.Run(s.server, ServerPartOf(s, events))
    ensures Exec(s, events).server == Server.Exec(s.server, ServerPartOf(s, events))
    decreases |events|
  {
    hide Step, Enabled, Server.Step, Server.Enabled, ServerPart;
    if events != [] {
      var e, rest := events[0], events[1..];
      ServerPartOfStep(s, e);
      ServerIsItsOwnMachine(Step(s, e), rest);
      var part, later := ServerPart(s, e), ServerPartOf(Step(s, e), rest);
      if part == [] {
        assert part + later == later;
      } else {
        assert part == [part[0]];
        LateWriters.RunCons(s.server, part[0], later);
      }
    }
  }

  /** The server's share of a story. */
  function ServerStory(story: Story): seq<Server.Event> {
    ServerPartOf(Begin(story.setup), story.events)
  }

  lemma ServerOf(story: Story)
    ensures Server.Run(Server.INITIAL, ServerStory(story))
    ensures End(story).server == Server.Exec(Server.INITIAL, ServerStory(story))
  {
    hide Run, Exec, ServerPartOf;
    ServerIsItsOwnMachine(Begin(story.setup), story.events);
  }

  // ---- what the server's runs guarantee, in stories ----

  /** In every run of a process, superseded handlers have written `latest` no more often than there are
      superseded handlers. */
  lemma LateWritesBoundedInStories(story: Story)
    ensures var server := End(story).server;
            Server.Run(Server.INITIAL, ServerStory(story))
            && Supersession.LateWrites(Server.INITIAL, ServerStory(story))
               <= Supersession.SupersededAmongFirst(server, |server.handlers|)
  {
    hide End, ServerStory;
    ServerOf(story);
    Supersession.LateWritesBounded(Server.INITIAL, ServerStory(story));
  }

  /** Whatever a process does, `latest` changes only by a handler's publish or clear, and every frame that gets
      there has exactly the width and height of the kiosk geometry at its check. */
  lemma LatestKeepsToTheSizeInStories(story: Story, e: Event)
    requires Enabled(End(story), e)
    ensures var s, t := End(story), Step(End(story), e);
            if e.Serve? then
              |t.server.handlers| >= |s.server.handlers| && FrameIntegrity.WritesBySize(s.server, e.action, t.server)
            else t.server.latest == s.server.latest
  {
    hide End, ServerStory, FrameIntegrity.WritesBySize, Handle, RenderSurface, Auth.PressKey,
         AuthMachine.Step, AuthMachine.Enabled, Server.Step, Server.Enabled;
    ServerOf(story);
    if e.Serve? {
      FrameIntegrity.LatestKeepsToTheSize(ServerStory(story), e.action);
    } else {
      OnlyServingWrites(End(story), e);
    }
  }

  lemma OnlyServingWrites(s: State, e: Event)
    requires Enabled(s, e) && !e.Serve?
    ensures Step(s, e).server.latest == s.server.latest
  {
    hide Handle, RenderSurface, Auth.PressKey, AuthMachine.Step, AuthMachine.Enabled, Server.Enabled;
  }

  /** A run of a process keeps every frame in `latest` to its own client's time if and only if no connection
      in it takes its number while a frame is there and no superseded handler publishes. */
  lemma FramesKeepToTheirClientInStories(story: Story)
    ensures Server.Run(Server.INITIAL, ServerStory(story))
    ensures Takeover.NeverOutdated(Server.INITIAL, ServerStory(story))
            <==> Takeover.NothingOutdates(Server.INITIAL, ServerStory(story))
  {
    hide End, ServerStory;
    ServerOf(story);
    Takeover.FramesKeepToTheirClientIff(ServerStory(story));
  }

  /** Between accepts, the frame in `latest` belongs to no open connection exactly when its handler was
      superseded. */
  lemma OrphanedIffOutdatedInStories(story: Story)
    ensures var server := End(story).server;
            server.acceptor.Listening? ==> (Takeover.Orphaned(server) <==> Takeover.Outdated(server))
  {
    hide End, ServerStory, Takeover.Orphaned, Takeover.Outdated;
    ServerOf(story);
    Takeover.OrphanedIffOutdated(ServerStory(story));
  }

  lemma AuthorsInStories(story: Story)
    ensures Takeover.AuthorInv(End(story).server)
  {
    hide End, ServerStory, Takeover.AuthorInv;
    ServerOf(story);
    FreshAuthors();
    Takeover.AuthorInvAlways(Server.INITIAL, ServerStory(story));
  }

  lemma FreshAuthors()
    ensures Takeover.AuthorInv(Server.INITIAL)
  {
  }

  // ---- a process serves only while it holds the lock ----

  predicate ServingInv(s: State) {
    && (!s.serving ==> s.server == Server.INITIAL.(geometry := s.server.geometry) && !s.pinged)
    && (s.serving && s.auth.exit == None ==> s.ui.lock == Held)
  }

  lemma HandleKeepsTheLock(ui: Ui, e: Callback)
    requires MayHappen(ui, e)
    ensures ui.lock == Held || e.Confirm? ==> Handle(ui, e).ui.lock == Held
  {
    hide Locked;
    if e.Confirm? {
      LockedIsHeld(ui);
    } else if ui.lock == Held {
      HandleKeepsHeld(ui, e);
      hide Handle;
    }
  }

  lemma StepKeepsServing(s: State, e: Event)
    requires ServingInv(s) && Enabled(s, e)
    ensures ServingInv(Step(s, e))
  {
    hide Handle, RenderSurface, Auth.PressKey, AuthMachine.Step, AuthMachine.Enabled, Server.Enabled;
    if e.Display? {
      HandleKeepsTheLock(s.ui, e.callback);
    } else if e.Serve? {
      hide Server.Step;
    } else if e.Deliver? {
      DeliverKeepsServing(s, e.now);
    } else if e.RenderNext? {
      RenderKeepsTheLock(s.ui, s.redraw[0], s.server.latest, e.paint);
    }
  }

  lemma RenderKeepsTheLock(ui: Ui, i: nat, latest: Option<Frame>, paint: Render.Paint)
    requires i < |ui.surfaces|
    ensures RenderSurface(ui, i, latest, paint).lock == ui.lock
  {
  }

  lemma DeliverKeepsServing(s: State, now: Auth.Time)
    requires ServingInv(s) && Enabled(s, Deliver(now))
    ensures ServingInv(Step(s, Deliver(now)))
  {
  }

  lemma {:induction false} ServingAlways(s: State, events: seq<Event>)
    requires ServingInv(s) && Run(s, events)
    ensures ServingInv(Exec(s, events))
    decreases |events|
  {
    hide ServingInv, Step, Enabled;
    if events != [] {
      StepKeepsServing(s, events[0]);
      ServingAlways(Step(s, events[0]), events[1..]);
    }
  }

  lemma ServingInStories(story: Story)
    ensures ServingInv(End(story))
  {
    hide Run, Exec;
    ServingAlways(Begin(story.setup), story.events);
  }

  // ---- without a kiosk ----

  /** No frame was ever accepted. */
  predicate NoFrames(server: Server.State) {
    server.latest == None
    && forall h :: 0 <= h < |server.handlers| ==>
         !server.handlers[h].progress.AtPublish? && server.handlers[h].published == []
  }

  lemma NoKioskNoGeometry(s: State)
    requires SystemInv(s) && s.auth.exit == None && s.ui.kioskOutputs == []
    ensures s.server.geometry.width == 0 && s.server.geometry.height == 0
  {
    hide AuthMachine.Inv, OneClient.AcceptInv, FrameIntegrity.FrameInv, StreamedInv, KioskGeometry;
    DisplayWhileRunning(s);
    AllSessions(s.ui);
  }

  lemma AllSessions(ui: Ui)
    requires DisplayInv(ui) && ui.kioskOutputs == []
    ensures KioskGeometry(ui.surfaces) == Geometry(0, 0, 1)
  {
    NoSizedKiosk(ui.surfaces);
  }

  lemma {:induction false} NoSizedKiosk(es: seq<Entry>)
    requires forall i :: 0 <= i < |es| ==> es[i].role != Kiosk
    ensures KioskGeometry(es) == Geometry(0, 0, 1)
  {
    if es != [] {
      NoSizedKiosk(es[1..]);
    }
  }

  lemma ReadingDoesNotPublish(server: Server.State, e: Server.Event)
    requires Server.Enabled(server, e) && e.ReadSome?
    ensures var h := Server.HandlerStep(server, e);
            !h.progress.AtPublish? && h.published == server.handlers[e.handler].published
  {
  }

  lemma ZeroMatchesNothing(server: Server.State, e: Server.Event)
    requires FrameIntegrity.FrameInv(server) && NoFrames(server) && Server.Enabled(server, e)
    requires server.geometry.width == 0 && server.geometry.height == 0
    ensures NoFrames(Server.Step(server, e))
  {
    hide FrameIntegrity.FrameInv, Server.AfterRead;
    if e.MatchGeometry? {
      LateWriters.CompleteIsWellFormed(server, e.handler);
    } else if e.ReadSome? {
      ReadingDoesNotPublish(server, e);
    }
  }

  lemma StepKeepsNoFrames(s: State, e: Event)
    requires SystemInv(s) && s.ui.kioskOutputs == [] && NoFrames(s.server) && Enabled(s, e)
    ensures NoFrames(Step(s, e).server) && Step(s, e).ui.kioskOutputs == []
  {
    NoKioskNoGeometry(s);
    ServerPartOfStep(s, e);
    FramesOf(s);
    KiosksAreConfigured(s, e);
    hide SystemInv, Step, Enabled, NoFrames, Server.Step, Server.Enabled;
    if ServerPart(s, e) != [] {
      ZeroMatchesNothing(s.server, ServerPart(s, e)[0]);
    }
  }

  lemma FramesOf(s: State)
    requires SystemInv(s)
    ensures FrameIntegrity.FrameInv(s.server)
  {
  }

  lemma HandleKeepsKiosks(ui: Ui, e: Callback)
    requires MayHappen(ui, e)
    ensures Handle(ui, e).ui.kioskOutputs == ui.kioskOutputs
  {
    hide KioskGeometry, IndexOfOutput, IndexOfSurface, SessionIndices, Locked;
    if e.Confirm? {
      LockedFrame(ui);
    }
  }

  lemma KiosksAreConfigured(s: State, e: Event)
    requires Enabled(s, e)
    ensures Step(s, e).ui.kioskOutputs == s.ui.kioskOutputs
  {
    hide Auth.PressKey, AuthMachine.Step, AuthMachine.Enabled, Server.Step, Server.Enabled, RenderSurface, Handle;
    if e.Display? {
      HandleKeepsKiosks(s.ui, e.callback);
    }
  }

  lemma LockedFrame(ui: Ui)
    ensures Locked(ui).kioskOutputs == ui.kioskOutputs
  {
    var held := Send(ui, LockProtocol.LockConfirmed).(lock := Held, socketPath := None);
    AddSurfacesFrame(held, SessionFirst(held, held.known));
    hide AddSurfaces, SessionFirst;
  }

  lemma {:induction false} NoFramesAlways(s: State, events: seq<Event>)
    requires SystemInv(s) && s.ui.kioskOutputs == [] && NoFrames(s.server) && Run(s, events)
    ensures NoFrames(Exec(s, events).server)
    decreases |events|
  {
    hide SystemInv, NoFrames, Step, Enabled;
    if events != [] {
      StepKeepsNoFrames(s, events[0]);
      StepKeepsSystemInv(s, events[0]);
      NoFramesAlways(Step(s, events[0]), events[1..]);
    }
  }

  lemma FreshNoFrames()
    ensures NoFrames(Server.INITIAL)
  {
  }

  /** A process without a kiosk output never accepts a frame, whatever its clients send. */
  lemma NoKioskNoFrames(story: Story)
    requires story.setup.kioskOutputs == []
    ensures NoFrames(End(story).server)
  {
    hide SystemInv, NoFrames, Run, Exec;
    StartKeepsSystemInv([], story.setup.socketPath, story.setup.daemonReady);
    FreshNoFrames();
    NoFramesAlways(Begin(story.setup), story.events);
  }

  lemma {:induction false} KiosksStay(s: State, events: seq<Event>)
    requires Run(s, events)
    ensures Exec(s, events).ui.kioskOutputs == s.ui.kioskOutputs
    decreases |events|
  {
    hide Step, Enabled;
    if events != [] {
      KiosksAreConfigured(s, events[0]);
      KiosksStay(Step(s, events[0]), events[1..]);
    }
  }
}
