/** What can still happen to `latest` from a state of a running process: the exact conditions of the server,
    with geometry updates that only the process's own outputs can bring about. */
module Continuations {
  import opened Words
  import opened Wire
  import opened Render
  import opened LockProtocol
  import opened Outputs
  import opened Lifecycle
  import opened System
  import opened SystemTheorems
  import opened Refinement
  import opened Lifting
  import opened Serving
  import AuthMachine
  import FrameIntegrity
  import LateWriters
  import Server
  import Supersession
  import Takeover

  /** A state of a process that runs and serves. */
  ghost predicate Live(s: State) {
    SystemInv(s) && RepaintInv(s) && ServingInv(s) && s.auth.exit == None && s.serving
  }

  lemma LiveInStories(story: Story)
    ensures End(story).auth.exit == None && End(story).serving ==> Live(End(story))
  {
    hide End, SystemInv, RepaintInv, ServingInv, AuthMachine.Run, AuthMachine.Exec;
    Reached(story);
    RepaintsInStories(story);
    ServingInStories(story);
  }

  lemma {:induction false} ServerPartConcat(s: State, a: seq<Event>, b: seq<Event>)
    requires Run(s, a) && Run(Exec(s, a), b)
    ensures Run(s, a + b) && Exec(s, a + b) == Exec(Exec(s, a), b)
    ensures ServerPartOf(s, a + b) == ServerPartOf(s, a) + ServerPartOf(Exec(s, a), b)
    decreases |a|
  {
    hide Enabled, Step, ServerPart;
    if a == [] {
      assert a + b == b && ServerPartOf(s, a) + ServerPartOf(s, b) == ServerPartOf(s, b);
    } else {
      ServerPartConcat(Step(s, a[0]), a[1..], b);
      assert (a + b)[1..] == a[1..] + b;
      AppendAssociates(ServerPart(s, a[0]), ServerPartOf(Step(s, a[0]), a[1..]), ServerPartOf(Exec(s, a), b));
    }
  }

  lemma ServerPartOfOne(s: State, e: Event)
    requires Enabled(s, e)
    ensures Run(s, [e]) && Exec(s, [e]) == Step(s, e) && ServerPartOf(s, [e]) == ServerPart(s, e)
  {
    hide Enabled, Step, ServerPart;
    RunOne(s, e);
    assert [e][1..] == [] && ServerPart(s, e) + [] == ServerPart(s, e);
  }

  // ---- geometry updates ----

  /** Nothing but geometry updates. */
  predicate GeometryOnly(actions: seq<Server.Event>) {
    forall i :: 0 <= i < |actions| ==> actions[i].SetGeometry?
  }

  /** The process goes on; its server has at most another geometry. */
  ghost predicate Continues(s: State, events: seq<Event>) {
    Run(s, events) && GeometryOnly(ServerPartOf(s, events))
    && var t := Exec(s, events);
       Live(t) && t.server == s.server.(geometry := t.server.geometry) && t.ui.kioskOutputs == s.ui.kioskOutputs
  }

  lemma StaysLive(s: State, events: seq<Event>)
    requires Live(s) && Run(s, events) && Exec(s, events).auth.exit == None && Exec(s, events).serving
    ensures Live(Exec(s, events)) && Exec(s, events).ui.kioskOutputs == s.ui.kioskOutputs
  {
    hide SystemInv, RepaintInv, ServingInv, Run, Exec;
    SystemInvAlways(s, events);
    RepaintInvAlways(s, events);
    ServingAlways(s, events);
    KiosksStay(s, events);
  }

  lemma ContinuesFurther(s: State, a: seq<Event>, b: seq<Event>)
    requires Continues(s, a) && Continues(Exec(s, a), b)
    ensures Continues(s, a + b) && Exec(s, a + b) == Exec(Exec(s, a), b)
  {
    hide Live, Run, Exec, ServerPartOf;
    ServerPartConcat(s, a, b);
  }

  /** Drains the repaint that is owed. */
  lemma {:induction false} DrainsQuietly(s: State, paint: Paint) returns (events: seq<Event>)
    requires RepaintInv(s) && s.auth.exit == None
    ensures Run(s, events) && ServerPartOf(s, events) == []
    ensures var t := Exec(s, events);
            t == s.(ui := t.ui, redraw := []) && t.ui == s.ui.(traffic := t.ui.traffic)
    decreases |s.redraw|
  {
    if s.redraw == [] {
      events := [];
    } else {
      assert Enabled(s, RenderNext(paint));
      RenderStep(s, RenderNext(paint));
      var next := Step(s, RenderNext(paint));
      assert next == s.(ui := next.ui, redraw := s.redraw[1..]) && next.ui == s.ui.(traffic := next.ui.traffic);
      assert ServerPart(s, RenderNext(paint)) == [];
      hide Enabled, Step, ServerPart;
      var rest := DrainsQuietly(next, paint);
      ServerPartOfOne(s, RenderNext(paint));
      ServerPartConcat(s, [RenderNext(paint)], rest);
      events := [RenderNext(paint)] + rest;
    }
  }

  function FirstKiosk(es: seq<Entry>): (i: nat)
    ensures i <= |es| && (i < |es| ==> es[i].role == Kiosk)
    ensures forall j :: 0 <= j < i ==> es[j].role != Kiosk
  {
    if es == [] || es[0].role == Kiosk then 0 else 1 + FirstKiosk(es[1..])
  }

  lemma {:induction false} FirstKioskDecides(es: seq<Entry>, i: nat)
    requires i < |es| && IsSizedKiosk(es[i]) && forall j :: 0 <= j < i ==> es[j].role != Kiosk
    ensures KioskGeometry(es) == Geometry(es[i].width, es[i].height, es[i].scale)
  {
    if i > 0 {
      FirstKioskDecides(es[1..], i - 1);
    }
  }

  lemma ConfiguringDecides(s: State, i: nat, w: U32, h: U32)
    requires Live(s) && s.redraw == [] && BufferSized(w, h) && w > 0 && h > 0
    requires i < |s.ui.surfaces| && i == FirstKiosk(s.ui.surfaces)
    ensures var e := Display(SurfaceConfigured(s.ui.surfaces[i].surface, w, h));
            && Enabled(s, e) && GeometryOnly(ServerPart(s, e))
            && var t := Step(s, e);
               && t.server == s.server.(geometry := t.server.geometry)
               && t.server.geometry.width == w && t.server.geometry.height == h
               && t.auth == s.auth && t.serving
  {
    hide SystemInv, RepaintInv, ServingInv, DisplayInv, Configure, BufferSized, FirstKiosk;
    DisplayWhileRunning(s);
    ConfigurePublishes(s.ui, i, w, h);
  }

  lemma ConfigurePublishes(ui: Ui, i: nat, w: U32, h: U32)
    requires DisplayInv(ui) && w > 0 && h > 0 && i < |ui.surfaces| && i == FirstKiosk(ui.surfaces)
    ensures var effect := Configure(ui, ui.surfaces[i].surface, w, h);
            effect.geometry == Some(Geometry(w, h, ui.surfaces[i].scale)) && effect.ui.lock == ui.lock
  {
    SurfaceAt(ui, i);
    hide DisplayInv, IndexOfSurface;
    FirstKioskDecides(ui.surfaces[i := ui.surfaces[i].(width := w, height := h)], i);
    hide KioskGeometry, FirstKiosk;
  }

  lemma ConfigureKiosk(s: State, w: U32, h: U32) returns (events: seq<Event>)
    requires Live(s) && FirstKiosk(s.ui.surfaces) < |s.ui.surfaces| && BufferSized(w, h) && w > 0 && h > 0
    ensures Continues(s, events)
    ensures Exec(s, events).server.geometry.width == w && Exec(s, events).server.geometry.height == h
  {
    hide SystemInv, ServingInv, Run, Exec, BufferSized, Step, Enabled, ServerPart, ServerPartOf;
    var drain := DrainsQuietly(s, Paint([], [], n => 0));
    var drained := Exec(s, drain);
    StaysLive(s, drain);
    var e := Display(SurfaceConfigured(s.ui.surfaces[FirstKiosk(s.ui.surfaces)].surface, w, h));
    ConfiguringDecides(drained, FirstKiosk(s.ui.surfaces), w, h);
    ServerPartOfOne(drained, e);
    StaysLive(drained, [e]);
    ServerPartConcat(s, drain, [e]);
    assert [] + ServerPart(drained, e) == ServerPart(drained, e);
    events := drain + [e];
    hide Live;
  }

  /** An output nobody has bound. */
  lemma {:induction false} Unbound(known: seq<OutputId>) returns (o: OutputId)
    ensures forall k :: 0 <= k < |known| ==> known[k] < o
  {
    if known == [] {
      o := 0;
    } else {
      var p := Unbound(known[1..]);
      o := if p > known[0] then p else known[0] + 1;
      assert forall k :: 0 < k < |known| ==> known[k] == known[1..][k - 1];
    }
  }

  lemma BindingChangesNothing(s: State, o: OutputId)
    requires Live(s) && s.redraw == [] && o !in s.ui.known
    ensures Enabled(s, Display(Bind(o))) && ServerPart(s, Display(Bind(o))) == []
    ensures Step(s, Display(Bind(o))) == s.(ui := s.ui.(known := s.ui.known + [o]))
  {
    hide SystemInv, RepaintInv, ServingInv;
  }

  lemma AnnouncingAdds(s: State, o: OutputId, name: string)
    requires Live(s) && s.redraw == [] && o in s.ui.known && o !in s.ui.info && !Covered(s.ui, o)
    requires name in s.ui.kioskOutputs && s.ui.lock == Held
    ensures var e := Display(Announce(o, OutputInfo(Some(name), 1)));
            && Enabled(s, e) && ServerPart(s, e) == []
            && var t := Step(s, e);
               && t == s.(ui := t.ui) && t.ui.surfaces != []
               && t.ui.surfaces[|t.ui.surfaces| - 1].role == Kiosk
  {
    hide SystemInv, RepaintInv, ServingInv, IndexOfOutput;
  }

  lemma AddAKiosk(s: State) returns (events: seq<Event>)
    requires Live(s) && s.ui.kioskOutputs != []
    ensures Continues(s, events)
    ensures var t := Exec(s, events); t.server == s.server && FirstKiosk(t.ui.surfaces) < |t.ui.surfaces|
  {
    hide SystemInv, Run, Exec, Step, Enabled, ServerPart, ServerPartOf, FirstKiosk;
    var drain := DrainsQuietly(s, Paint([], [], n => 0));
    var drained := Exec(s, drain);
    StaysLive(s, drain);
    hide RepaintInv, ServingInv;
    var o := Unbound(drained.ui.known);
    var bind := Display(Bind(o));
    BindingChangesNothing(drained, o);
    ServerPartOfOne(drained, bind);
    StaysLive(drained, [bind]);
    ServerPartConcat(s, drain, [bind]);
    var bound := Step(drained, bind);
    var announce := Display(Announce(o, OutputInfo(Some(s.ui.kioskOutputs[0]), 1)));
    NewOutputIsBare(drained, o);
    AnnouncingAdds(bound, o, s.ui.kioskOutputs[0]);
    ServerPartOfOne(bound, announce);
    StaysLive(bound, [announce]);
    ServerPartConcat(s, drain + [bind], [announce]);
    events := drain + [bind] + [announce];
    var t := Exec(s, events);
    KioskIsFound(t.ui.surfaces, |t.ui.surfaces| - 1);
    assert ServerPartOf(s, events) == [];
  }

  lemma KioskIsFound(es: seq<Entry>, i: nat)
    requires i < |es| && es[i].role == Kiosk
    ensures FirstKiosk(es) < |es|
  {
  }

  lemma NewOutputIsBare(s: State, o: OutputId)
    requires Live(s) && o !in s.ui.known
    ensures !Covered(s.ui, o) && o !in s.ui.info && s.ui.lock == Held
    ensures !Covered(s.ui.(known := s.ui.known + [o]), o)
  {
    DisplayWhileRunning(s);
    hide SystemInv, RepaintInv, MirrorInv, CoverageInv;
  }

  /** With a kiosk output configured, a process can be brought to any kiosk size a buffer can have. */
  lemma Resizes(s: State, w: U32, h: U32) returns (events: seq<Event>)
    requires Live(s) && s.ui.kioskOutputs != [] && BufferSized(w, h) && w > 0 && h > 0
    ensures Continues(s, events)
    ensures Exec(s, events).server.geometry.width == w && Exec(s, events).server.geometry.height == h
  {
    hide Live, Run, Exec, BufferSized, FirstKiosk, ServerPartOf;
    if FirstKiosk(s.ui.surfaces) < |s.ui.surfaces| {
      events := ConfigureKiosk(s, w, h);
    } else {
      var adding := AddAKiosk(s);
      var configuring := ConfigureKiosk(Exec(s, adding), w, h);
      ContinuesFurther(s, adding, configuring);
      events := adding + configuring;
    }
  }

  // ---- an armed handler can publish ----

  lemma {:induction false} ServedIsItsOwnPart(s: State, actions: seq<Server.Event>)
    requires s.serving && s.auth.exit == None && Server.Run(s.server, actions)
    requires forall i :: 0 <= i < |actions| ==> !actions[i].SetGeometry?
    ensures Run(s, Served(actions)) && ServerPartOf(s, Served(actions)) == actions
    ensures var t := Exec(s, Served(actions));
            t == s.(server := Server.Exec(s.server, actions), pinged := t.pinged)
    decreases |actions|
  {
    hide Server.Step, Server.Enabled;
    if actions != [] {
      assert !actions[0].SetGeometry?;
      var e := Serve(actions[0]);
      var next := Step(s, e);
      assert Enabled(s, e) && ServerPart(s, e) == [actions[0]];
      assert next == s.(server := Server.Step(s.server, actions[0]), pinged := next.pinged);
      hide Step, Enabled, ServerPart;
      ServedIsItsOwnPart(next, actions[1..]);
      ServerPartOfOne(s, e);
      ServerPartConcat(s, [e], Served(actions[1..]));
      assert [actions[0]] + actions[1..] == actions;
    }
  }

  /** A continuation in which, of the server, only handler `h`, clients and geometry updates take steps. */
  predicate ByHandler(s: State, events: seq<Event>, h: nat) {
    Run(s, events) && LateWriters.AllBy(ServerPartOf(s, events), h)
  }

  lemma ByHandlerThen(s: State, a: seq<Event>, b: seq<Event>, h: nat)
    requires ByHandler(s, a, h) && ByHandler(Exec(s, a), b, h)
    ensures ByHandler(s, a + b, h) && Exec(s, a + b) == Exec(Exec(s, a), b)
  {
    hide Run, Exec, ServerPartOf;
    ServerPartConcat(s, a, b);
  }

  lemma Serves(s: State, actions: seq<Server.Event>, h: nat)
    requires Live(s) && Server.Run(s.server, actions) && LateWriters.AllBy(actions, h)
    requires forall i :: 0 <= i < |actions| ==> !actions[i].SetGeometry?
    ensures ByHandler(s, Served(actions), h) && Live(Exec(s, Served(actions)))
    ensures var t := Exec(s, Served(actions));
            t.server == Server.Exec(s.server, actions) && t.ui.kioskOutputs == s.ui.kioskOutputs
  {
    hide SystemInv, RepaintInv, ServingInv, Run, Exec, Server.Run, Server.Exec;
    ServedIsItsOwnPart(s, actions);
    StaysLive(s, Served(actions));
  }

  /** A well-formed frame has the size of a buffer. */
  lemma FramesFitBuffers(f: Frame)
    requires WellFormed(f)
    ensures BufferSized(f.width, f.height) && f.width > 0 && f.height > 0
  {
    assert f.width > 0 && f.height > 0;
    FactorsAreSmaller(f.width, f.height);
  }

  lemma FactorsAreSmaller(w: nat, h: nat)
    requires w > 0 && h > 0
    ensures w <= w * h && h <= w * h
  {
  }

  /** The process goes on by steps of handler `h`, clients and outputs. */
  ghost predicate GoesOn(s: State, events: seq<Event>, h: nat) {
    ByHandler(s, events, h) && Live(Exec(s, events)) && Exec(s, events).ui.kioskOutputs == s.ui.kioskOutputs
  }

  lemma GoesOnThen(s: State, a: seq<Event>, b: seq<Event>, h: nat)
    requires GoesOn(s, a, h) && GoesOn(Exec(s, a), b, h)
    ensures GoesOn(s, a + b, h) && Exec(s, a + b) == Exec(Exec(s, a), b)
  {
    hide Run, Exec, ServerPartOf, Live;
    ServerPartConcat(s, a, b);
  }

  lemma Completes(s: State, h: nat) returns (events: seq<Event>)
    requires Live(s) && LateWriters.CanStillPublish(s.server, h) && !s.server.handlers[h].progress.AtPublish?
    ensures GoesOn(s, events, h)
    ensures var t := Exec(s, events).server;
            && Server.HandlerAt(t, h) && h < |s.server.handlers| && t.handlers[h].progress.AtGeometry?
            && WellFormed(t.handlers[h].progress.frame) && t.handlers[h].published == s.server.handlers[h].published
  {
    FramesOf(s);
    hide Live, Run, Exec, ServerPartOf, FrameIntegrity.FrameInv, Server.Run, Server.Exec, Served,
         LateWriters.CanStillPublish;
    var reading := LateWriters.FrameCompletes(s.server, h);
    Serves(s, reading, h);
    events := Served(reading);
  }

  lemma ResizesFor(s: State, h: nat) returns (events: seq<Event>)
    requires Live(s) && s.ui.kioskOutputs != [] && Server.HandlerAt(s.server, h)
    requires s.server.handlers[h].progress.AtGeometry? && WellFormed(s.server.handlers[h].progress.frame)
    ensures GoesOn(s, events, h)
    ensures var t := Exec(s, events).server;
            t == s.server.(geometry := t.geometry) && Matches(t.handlers[h].progress.frame, t.geometry)
  {
    var f := s.server.handlers[h].progress.frame;
    FramesFitBuffers(f);
    hide Live, Run, Exec, ServerPartOf, BufferSized, WellFormed;
    events := Resizes(s, f.width, f.height);
  }

  lemma Publishes(s: State, h: nat) returns (events: seq<Event>)
    requires Live(s) && Server.HandlerAt(s.server, h)
    requires s.server.handlers[h].progress.AtPublish?
             || (s.server.handlers[h].progress.AtGeometry?
                 && Matches(s.server.handlers[h].progress.frame, s.server.geometry))
    ensures GoesOn(s, events, h)
    ensures LateWriters.Published(s.server, Exec(s, events).server, h)
  {
    hide Live, Run, Exec, ServerPartOf, Server.Run, Server.Exec, Served, LateWriters.Published;
    var publishing := [Server.Publish(h)];
    if s.server.handlers[h].progress.AtPublish? {
      LateWriters.FromPublish(s.server, h);
    } else {
      LateWriters.MatchingPublishes(s.server, h);
      publishing := [Server.MatchGeometry(h)] + [Server.Publish(h)];
    }
    Serves(s, publishing, h);
    events := Served(publishing);
  }

  lemma ArmedCanPublish(s: State, h: nat) returns (events: seq<Event>)
    requires Live(s) && s.ui.kioskOutputs != [] && LateWriters.CanStillPublish(s.server, h)
    ensures ByHandler(s, events, h)
    ensures var t := Exec(s, events).server;
            && t.latest.Some? && h < |s.server.handlers| && h < |t.handlers|
            && |t.handlers[h].published| > |s.server.handlers[h].published|
  {
    assert h < |s.server.handlers|;
    if s.server.handlers[h].progress.AtPublish? {
      events := Publishes(s, h);
    } else {
      hide Live, Run, Exec, LateWriters.CanStillPublish, WellFormed, ByHandler;
      var completing := Completes(s, h);
      var complete := Exec(s, completing);
      var resizing := ResizesFor(complete, h);
      var publishing := Publishes(Exec(complete, resizing), h);
      GoesOnThen(s, completing, resizing, h);
      GoesOnThen(s, completing + resizing, publishing, h);
      events := completing + resizing + publishing;
    }
  }

  // ---- exactly which superseded handlers write again ----

  function LateWritesIn(s: State, events: seq<Event>, h: nat): nat
    requires Run(s, events)
  {
    ServerIsItsOwnMachine(s, events);
    Supersession.LateWritesBy(s.server, ServerPartOf(s, events), h)
  }

  lemma {:induction false} NoKioskNoLateWrites(s: State, events: seq<Event>, h: nat)
    requires SystemInv(s) && s.ui.kioskOutputs == [] && NoFrames(s.server) && Run(s, events)
    requires Supersession.Superseded(s.server, h) && !s.server.handlers[h].progress.AtClear?
    ensures LateWritesIn(s, events, h) == 0
    decreases |events|
  {
    ServerIsItsOwnMachine(s, events);
    if events != [] {
      var e, rest := events[0], events[1..];
      StepKeepsNoFrames(s, e);
      StepKeepsSystemInv(s, e);
      NoKioskNoLateWriteStep(s, e, h);
      hide SystemInv, NoFrames, Step, Enabled, Server.Step, Server.Enabled, ServerPart, Supersession.LateWrite,
           Supersession.Superseded;
      ServerIsItsOwnMachine(Step(s, e), rest);
      NoKioskNoLateWrites(Step(s, e), rest, h);
      var part, later := ServerPart(s, e), ServerPartOf(Step(s, e), rest);
      ServerPartOfStep(s, e);
      if part == [] {
        assert part + later == later;
      } else {
        assert (part + later)[1..] == later;
      }
    }
  }

  lemma NoKioskNoLateWriteStep(s: State, e: Event, h: nat)
    requires NoFrames(s.server) && Enabled(s, e)
    requires Supersession.Superseded(s.server, h) && !s.server.handlers[h].progress.AtClear?
    ensures var t := Step(s, e).server;
            && Supersession.Superseded(t, h) && !t.handlers[h].progress.AtClear?
            && (ServerPart(s, e) != [] ==>
                  Server.Enabled(s.server, ServerPart(s, e)[0])
                  && !Supersession.LateWrite(s.server, ServerPart(s, e)[0], h))
  {
    ServerPartOfStep(s, e);
    hide Step, Enabled, ServerPart;
    if ServerPart(s, e) != [] {
      LateWriters.SupersededExits(s.server, ServerPart(s, e)[0], h);
    }
  }

  /** In a running process, a superseded handler writes `latest` again in some continuation if and only if
      it is at its clear, or it is armed and the process has a kiosk output. */
  lemma LateWritersAreTheArmed(story: Story, h: nat)
    requires End(story).auth.exit == None && Supersession.Superseded(End(story).server, h)
    ensures var s := End(story);
            (exists events :: Run(s, events) && LateWritesIn(s, events, h) > 0)
            <==> LateWriters.Armed(s.server, h)
                 && (s.server.handlers[h].progress.AtClear? || story.setup.kioskOutputs != [])
  {
    var s := End(story);
    KiosksStay(Begin(story.setup), story.events);
    ServingInStories(story);
    assert s.serving;
    LiveInStories(story);
    if story.setup.kioskOutputs == [] {
      NoKioskNoFrames(story);
    }
    hide End, NoFrames, LateWriters.Armed;
    LateWriterExactly(s, h);
  }

  lemma LateWriterExactly(s: State, h: nat)
    requires Live(s) && Supersession.Superseded(s.server, h) && (s.ui.kioskOutputs == [] ==> NoFrames(s.server))
    ensures (exists events :: Run(s, events) && LateWritesIn(s, events, h) > 0)
            <==> LateWriters.Armed(s.server, h) && (s.server.handlers[h].progress.AtClear? || s.ui.kioskOutputs != [])
  {
    FramesOf(s);
    assert SystemInv(s) && s.auth.exit == None && s.serving;
    hide Live, NoFrames, FrameIntegrity.FrameInv, LateWriters.CanStillPublish, LateWritesIn, Run, SystemInv;
    if s.server.handlers[h].progress.AtClear? {
      Takeover.HandlersAttached(s.server);
      ClearWrites(s, h);
    } else if s.ui.kioskOutputs == [] {
      forall events | Run(s, events) ensures LateWritesIn(s, events, h) == 0 {
        NoKioskNoLateWrites(s, events, h);
      }
    } else if LateWriters.CanStillPublish(s.server, h) {
      var events := ArmedCanPublish(s, h);
      PublishingIsALateWrite(s, events, h);
    } else {
      forall events | Run(s, events) ensures LateWritesIn(s, events, h) == 0 {
        UnarmedNever(s, events, h);
      }
    }
  }

  lemma ClearWrites(s: State, h: nat)
    requires s.serving && s.auth.exit == None && Supersession.Superseded(s.server, h)
    requires Server.HandlerAt(s.server, h) && s.server.handlers[h].progress.AtClear?
    ensures Run(s, [Serve(Server.Clear(h))]) && LateWritesIn(s, [Serve(Server.Clear(h))], h) > 0
  {
    LateWriters.ClearIsALateWrite(s.server, h);
    ServerPartOfOne(s, Serve(Server.Clear(h)));
    hide Step, Enabled, Run, Exec;
  }

  lemma UnarmedNever(s: State, events: seq<Event>, h: nat)
    requires FrameIntegrity.FrameInv(s.server) && Run(s, events)
    requires Supersession.Superseded(s.server, h) && !LateWriters.Armed(s.server, h)
    ensures LateWritesIn(s, events, h) == 0
  {
    ServerIsItsOwnMachine(s, events);
    LateWriters.UnarmedForever(s.server, ServerPartOf(s, events), h);
  }

  lemma PublishingIsALateWrite(s: State, events: seq<Event>, h: nat)
    requires Run(s, events) && Supersession.Superseded(s.server, h)
    requires var t := Exec(s, events).server;
             h < |t.handlers| && |t.handlers[h].published| > |s.server.handlers[h].published|
    ensures LateWritesIn(s, events, h) > 0
  {
    ServerIsItsOwnMachine(s, events);
    LateWriters.PublishesAreLateWrites(s.server, h, ServerPartOf(s, events));
  }

  // ---- takeovers and disconnects ----

  /** Of the server's handlers, only superseded ones write, and no connection takes its number. */
  predicate OnlyLeftoversWrite(s: State, events: seq<Event>)
    requires Run(s, events)
  {
    ServerIsItsOwnMachine(s, events);
    Takeover.OnlyLeftoversWrite(s.server, ServerPartOf(s, events))
  }

  lemma LateClearServed(s: State, h: nat)
    requires s.serving && s.auth.exit == None && Supersession.Superseded(s.server, h)
    requires Server.HandlerAt(s.server, h) && s.server.handlers[h].progress.AtClear?
    ensures var late := [Serve(Server.Clear(h))];
            Run(s, late) && OnlyLeftoversWrite(s, late) && Exec(s, late).server.latest == None
  {
    Takeover.LateClearErases(s.server, h);
    ServerPartOfOne(s, Serve(Server.Clear(h)));
    ServerIsItsOwnMachine(s, [Serve(Server.Clear(h))]);
    hide Step, Enabled, Run, Exec;
  }

  lemma LeftoversKeepTheFrame(s: State, events: seq<Event>)
    requires Run(s, events) && OnlyLeftoversWrite(s, events) && Takeover.NoLateClear(s.server) && s.server.latest.Some?
    ensures Exec(s, events).server.latest.Some?
    ensures Takeover.Outdated(s.server) ==> Takeover.Outdated(Exec(s, events).server)
  {
    ServerIsItsOwnMachine(s, events);
    Takeover.NoLateClearForever(s.server, ServerPartOf(s, events));
  }

  /** In every run of a process: when a connection takes its number, a frame in `latest` is outdated from
      then on; and an outdated frame stays there until the new handler publishes or exits or another number is
      taken, if and only if no handler stood at its clear. */
  lemma EveryTakeoverKeepsTheFrame(story: Story)
    requires Enabled(End(story), Serve(Server.TakeNumber))
    ensures var s := End(story);
            var t := Step(s, Serve(Server.TakeNumber));
            && (Takeover.Outdated(t.server) <==> s.server.latest.Some?)
            && (s.server.latest.Some? ==>
                  ((forall more ::
                      Run(t, more) && OnlyLeftoversWrite(t, more) ==> Takeover.Outdated(Exec(t, more).server))
                   <==> forall h :: 0 <= h < |s.server.handlers| ==> !s.server.handlers[h].progress.AtClear?))
  {
    AuthorsInStories(story);
    Reached(story);
    FramesOf(End(story));
    hide End, SystemInv, FrameIntegrity.FrameInv, Takeover.AuthorInv, AuthMachine.Run, AuthMachine.Exec;
    TakesOver(End(story));
  }

  lemma TakesOver(s: State)
    requires FrameIntegrity.FrameInv(s.server) && Takeover.AuthorInv(s.server) && Enabled(s, Serve(Server.TakeNumber))
    ensures var t := Step(s, Serve(Server.TakeNumber));
            && (Takeover.Outdated(t.server) <==> s.server.latest.Some?)
            && (s.server.latest.Some? ==>
                  ((forall more ::
                      Run(t, more) && OnlyLeftoversWrite(t, more) ==> Takeover.Outdated(Exec(t, more).server))
                   <==> forall h :: 0 <= h < |s.server.handlers| ==> !s.server.handlers[h].progress.AtClear?))
  {
    hide FrameIntegrity.FrameInv, Takeover.AuthorInv, Takeover.Outdated, Step, Enabled, Server.Step, Server.Enabled,
         Run, Exec, OnlyLeftoversWrite;
    var t := Step(s, Serve(Server.TakeNumber));
    NumberTaken(s);
    if s.server.latest.Some? {
      if Takeover.NoLateClear(t.server) {
        forall more | Run(t, more) && OnlyLeftoversWrite(t, more) ensures Takeover.Outdated(Exec(t, more).server) {
          LeftoversKeepTheFrame(t, more);
        }
      } else {
        var h: nat :|
          h < |t.server.handlers| && Supersession.Superseded(t.server, h) && t.server.handlers[h].progress.AtClear?;
        Takeover.HandlersAttached(t.server);
        LateClearServed(t, h);
        OutdatedNeedsAFrame(Exec(t, [Serve(Server.Clear(h))]).server);
      }
    }
  }

  lemma NumberTaken(s: State)
    requires FrameIntegrity.FrameInv(s.server) && Takeover.AuthorInv(s.server) && Enabled(s, Serve(Server.TakeNumber))
    ensures var t := Step(s, Serve(Server.TakeNumber));
            && t.serving && t.auth.exit == None && FrameIntegrity.FrameInv(t.server)
            && t.server.handlers == s.server.handlers && t.server.latest == s.server.latest
            && (forall h :: 0 <= h < |t.server.handlers| ==> Supersession.Superseded(t.server, h))
            && (Takeover.Outdated(t.server) <==> s.server.latest.Some?)
  {
    FrameIntegrity.StepKeepsFrameInv(s.server, Server.TakeNumber);
    Takeover.OutdatedExactly(s.server, Server.TakeNumber);
    Takeover.EverybodySuperseded(s.server);
    hide FrameIntegrity.FrameInv, Takeover.AuthorInv, Takeover.Outdated, Server.Step, Server.Enabled;
  }

  lemma OutdatedNeedsAFrame(server: Server.State)
    ensures Takeover.Outdated(server) ==> server.latest.Some?
  {
  }

  /** In every run of a process: when the current client's handler clears, `latest` is empty, and it stays so
      until the next client publishes if and only if the process has no kiosk output or no superseded handler
      had a complete frame in reach. */
  lemma DisconnectEmptiesLatest(story: Story, h: nat)
    requires Enabled(End(story), Serve(Server.Clear(h))) && !Supersession.Superseded(End(story).server, h)
    ensures var s := End(story);
            var t := Step(s, Serve(Server.Clear(h)));
            && t.server.latest == None
            && ((forall more :: Run(t, more) && OnlyLeftoversWrite(t, more) ==> Exec(t, more).server.latest == None)
                <==> story.setup.kioskOutputs == [] || Takeover.NoLatePublish(s.server))
  {
    var s := End(story);
    KiosksStay(Begin(story.setup), story.events);
    LiveInStories(story);
    if story.setup.kioskOutputs == [] {
      NoKioskNoFrames(story);
    }
    hide End, NoFrames, Run, Exec;
    assert s.auth.exit == None && s.serving;
    ClearsExactly(s, h);
  }

  lemma ClearsExactly(s: State, h: nat)
    requires Live(s) && Enabled(s, Serve(Server.Clear(h))) && !Supersession.Superseded(s.server, h)
    requires s.ui.kioskOutputs == [] ==> NoFrames(s.server)
    ensures var t := Step(s, Serve(Server.Clear(h)));
            && t.server.latest == None
            && ((forall more :: Run(t, more) && OnlyLeftoversWrite(t, more) ==> Exec(t, more).server.latest == None)
                <==> s.ui.kioskOutputs == [] || Takeover.NoLatePublish(s.server))
  {
    hide SystemInv, RepaintInv, ServingInv, NoFrames, Takeover.NoLatePublish, Supersession.Superseded, Step, Enabled,
         Server.Step, Server.Enabled, Run, Exec;
    var e := Serve(Server.Clear(h));
    ClearStep(s, h);
    if s.ui.kioskOutputs == [] {
      StepKeepsNoFrames(s, e);
    }
    ServerPartOfOne(s, e);
    StaysLive(s, [e]);
    LatestStaysEmptyExactly(Step(s, e));
  }

  lemma ClearStep(s: State, h: nat)
    requires Enabled(s, Serve(Server.Clear(h))) && !Supersession.Superseded(s.server, h)
    ensures s.auth.exit == None && s.serving
    ensures var t := Step(s, Serve(Server.Clear(h)));
            && t.server.latest == None && t.ui == s.ui && t.auth == s.auth && t.serving
            && (Takeover.NoLatePublish(t.server) <==> Takeover.NoLatePublish(s.server))
  {
    Takeover.ClearKeepsOthersReach(s.server, h);
    hide Takeover.NoLatePublish;
  }

  lemma LatestStaysEmptyExactly(s: State)
    requires Live(s) && s.server.latest == None && (s.ui.kioskOutputs == [] ==> NoFrames(s.server))
    ensures (forall more :: Run(s, more) && OnlyLeftoversWrite(s, more) ==> Exec(s, more).server.latest == None)
            <==> s.ui.kioskOutputs == [] || Takeover.NoLatePublish(s.server)
  {
    FramesOf(s);
    assert SystemInv(s);
    hide Live, SystemInv, FrameIntegrity.FrameInv, LateWriters.CanStillPublish, Run, Exec, OnlyLeftoversWrite, NoFrames;
    if s.ui.kioskOutputs == [] {
      forall more | Run(s, more) ensures Exec(s, more).server.latest == None {
        NoFramesAlways(s, more);
        NoFramesNoLatest(Exec(s, more).server);
      }
    } else if Takeover.NoLatePublish(s.server) {
      forall more | Run(s, more) && OnlyLeftoversWrite(s, more) ensures Exec(s, more).server.latest == None {
        LeftoversKeepItEmpty(s, more);
      }
    } else {
      var h: nat :|
        h < |s.server.handlers| && Supersession.Superseded(s.server, h) && LateWriters.CanStillPublish(s.server, h);
      var events := ArmedCanPublish(s, h);
      AloneIsLeftover(s, events, h);
    }
  }

  lemma NoFramesNoLatest(server: Server.State)
    requires NoFrames(server)
    ensures server.latest == None
  {
  }

  lemma LeftoversKeepItEmpty(s: State, events: seq<Event>)
    requires FrameIntegrity.FrameInv(s.server) && Run(s, events) && OnlyLeftoversWrite(s, events)
    requires Takeover.NoLatePublish(s.server) && s.server.latest == None
    ensures Exec(s, events).server.latest == None
  {
    ServerIsItsOwnMachine(s, events);
    Takeover.EmptyForever(s.server, ServerPartOf(s, events));
  }

  lemma AloneIsLeftover(s: State, events: seq<Event>, h: nat)
    requires ByHandler(s, events, h) && Supersession.Superseded(s.server, h)
    ensures Run(s, events) && OnlyLeftoversWrite(s, events)
  {
    ServerIsItsOwnMachine(s, events);
    Takeover.AloneIsLeftover(s.server, h, ServerPartOf(s, events));
  }
}
