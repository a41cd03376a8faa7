/** What an output goes on showing when the kiosk's client goes: emptying `latest` repaints nothing, so the
    last frame stays on the output until its surface is next rendered. */
module Disconnect {
  import opened Words
  import opened Wire
  import opened Render
  import opened LockProtocol
  import opened Outputs
  import opened System
  import opened Drawing
  import opened SystemTheorems
  import opened Refinement
  import opened Showing
  import AuthMachine
  import Auth
  import KioskRuns
  import Lifting
  import Races
  import Server

  // ---- what the socket's threads tell the event loop ----

  /** No step of the socket's threads changes what any output shows or what is still to be repainted; and
      only a handler's ping, after a publish, makes a repaint due. */
  lemma ServingRepaintsNothing(s: State, action: Server.Event)
    requires Enabled(s, Serve(action))
    ensures var t := Step(s, Serve(action));
            && t.ui == s.ui && t.redraw == s.redraw && (forall x :: Shown(t.ui.traffic, x) == Shown(s.ui.traffic, x))
            && (t.pinged <==> s.pinged || Wakes(action))
  {
    hide Shown, Server.Step, Server.Enabled;
  }

  /** A clear finishes its handler, and nothing is due that was not before. */
  lemma ClearOwesNoRepaint(s: State, h: nat)
    requires Enabled(s, Serve(Server.Clear(h)))
    ensures var t := Step(s, Serve(Server.Clear(h)));
            && t.server.latest == None && t.server.handlers[h].progress.Finished?
            && t.pinged == s.pinged && t.redraw == s.redraw && t.ui == s.ui
  {
  }

  /** A handler that has published does nothing before its ping; and the ping makes a repaint of everything
      due. */
  lemma PublishOwesARepaint(s: State, h: nat)
    requires Enabled(s, Serve(Server.Publish(h)))
    ensures var t := Step(s, Serve(Server.Publish(h)));
            && t.server.handlers[h].progress.AtPing?
            && (forall next: Server.Event ::
                  (Server.Enabled(t.server, next) && Server.HandlerEvent(next) && next.handler == h) ==> next.Wake?)
            && Enabled(t, Serve(Server.Wake(h, true)))
            && Step(t, Serve(Server.Wake(h, true))).pinged
  {
    hide Server.LatestAfter, Server.AuthorAfter;
  }

  lemma PingRepaintsEverything(s: State)
    requires s.pinged && s.redraw == [] && s.auth.exit == None
    ensures Enabled(s, Ping) && Step(s, Ping).redraw == Indices(|s.ui.surfaces|)
  {
  }

  // ---- exactly what changes what an output shows ----

  /** The surface of this step is `x`. */
  predicate RendersOn(s: State, e: Event, x: SurfaceId)
    requires Enabled(s, e)
  {
    e.RenderNext? && s.ui.surfaces[s.redraw[0]].surface == x
  }

  /** The step destroys `x`, or the lock as a whole. */
  predicate TakesAway(s: State, e: Event, x: SurfaceId)
    requires Enabled(s, e)
  {
    match e
    case Display(callback) => Withdraws(s.ui, callback, x)
    case Deliver(_) => s.auth.results[0].outcome == Auth.Unlocked && s.ui.lock != NoLock
    case _ => false
  }

  predicate Withdraws(ui: Ui, e: Callback, x: SurfaceId) {
    e.Withdraw?
    && var i := IndexOfOutput(ui.surfaces, e.output);
       i < |ui.surfaces| && ui.surfaces[i].surface == x
  }

  lemma ShownAppend(traffic: seq<Message>, m: Message, x: SurfaceId)
    ensures Shown(traffic + [m], x) ==
            match m
            case Commit(s, _, _, _) => if s == x then Some(m) else Shown(traffic, x)
            case CreateLockSurface(s, _) => if s == x then None else Shown(traffic, x)
            case DestroyLockSurface(s) => if s == x then None else Shown(traffic, x)
            case UnlockAndDestroy => None
            case _ => Shown(traffic, x)
  {
    assert (traffic + [m])[..|traffic|] == traffic;
  }

  lemma AddShowsNothing(ui: Ui, o: OutputId, x: SurfaceId)
    requires Shown(ui.traffic, x).Some? ==> x < ui.nextSurface
    ensures Shown(AddSurface(ui, o).traffic, x) == Shown(ui.traffic, x)
            && ui.nextSurface <= AddSurface(ui, o).nextSurface
  {
    ShownAppend(ui.traffic, CreateLockSurface(ui.nextSurface, o), x);
    hide Shown, IndexOfOutput;
  }

  lemma {:induction false} AddAllShowsNothing(ui: Ui, os: seq<OutputId>, x: SurfaceId)
    requires Shown(ui.traffic, x).Some? ==> x < ui.nextSurface
    ensures Shown(AddSurfaces(ui, os).traffic, x) == Shown(ui.traffic, x)
    ensures ui.nextSurface <= AddSurfaces(ui, os).nextSurface
  {
    hide Shown, AddSurface;
    if os != [] {
      AddAllShowsNothing(ui, os[..|os| - 1], x);
      AddShowsNothing(AddSurfaces(ui, os[..|os| - 1]), os[|os| - 1], x);
    }
  }

  lemma LockedShowsNothing(ui: Ui, x: SurfaceId)
    requires Shown(ui.traffic, x).Some? ==> x < ui.nextSurface
    ensures Shown(Locked(ui).traffic, x) == Shown(ui.traffic, x)
  {
    var held := Send(ui, LockConfirmed).(lock := Held, socketPath := None);
    ShownAppend(ui.traffic, LockConfirmed, x);
    AddAllShowsNothing(held, SessionFirst(held, held.known), x);
    hide Shown, AddSurfaces, SessionFirst;
  }

  lemma HandleShows(ui: Ui, e: Callback, x: SurfaceId)
    requires MayHappen(ui, e) && (Shown(ui.traffic, x).Some? ==> x < ui.nextSurface)
    ensures Shown(Handle(ui, e).ui.traffic, x) == if Withdraws(ui, e, x) then None else Shown(ui.traffic, x)
  {
    hide Shown, AddSurface, Locked, IndexOfOutput, IndexOfSurface, KioskGeometry, SessionIndices, Without;
    match e
    case Announce(o, details) => AddShowsNothing(ui.(info := ui.info[o := details]), o, x);
    case Change(o, details) => AddShowsNothing(ui.(info := ui.info[o := details]), o, x);
    case Withdraw(o) =>
      var i := IndexOfOutput(ui.surfaces, o);
      if i < |ui.surfaces| {
        ShownAppend(ui.traffic, DestroyLockSurface(ui.surfaces[i].surface), x);
      }
    case RequestLock => ShownAppend(ui.traffic, LockRequest, x);
    case Confirm => LockedShowsNothing(ui, x);
    case SurfaceConfigured(s, w, h) => ShownAppend(ui.traffic, AckConfigure(s, Size(w, h)), x);
    case _ =>
  }

  lemma {:induction false} ShownIsAcked(traffic: seq<Message>, x: SurfaceId)
    requires Conforms(traffic) && Shown(traffic, x).Some?
    ensures x in After(traffic).acked
  {
    var before, m := traffic[..|traffic| - 1], traffic[|traffic| - 1];
    if !(m.Commit? && m.surface == x) {
      ShownIsAcked(before, x);
    }
  }

  lemma ShownIsListed(s: State, x: SurfaceId)
    requires SystemInv(s) && s.auth.exit == None && Shown(s.ui.traffic, x).Some?
    ensures x < s.ui.nextSurface
  {
    DisplayWhileRunning(s);
    hide SystemInv;
    ShownIsAcked(s.ui.traffic, x);
    hide Shown, After, Conforms, EntriesInv, CoverageInv, EntriesMirrored, IndexOfSurface;
  }

  /** What a surface shows changes only when it is rendered itself, and then to what belongs on it, or when
      it or the lock is destroyed. */
  lemma ShownExactly(s: State, e: Event, x: SurfaceId)
    requires SystemInv(s) && SizesFit(s.ui) && Enabled(s, e)
    requires s.server.latest.Some? ==> WellFormed(s.server.latest.value)
    ensures Shown(Step(s, e).ui.traffic, x) ==
            if TakesAway(s, e, x) then None
            else if RendersOn(s, e, x) then
              Rightful(s.ui.surfaces[s.redraw[0]], s.server.latest, e.paint, Shown(s.ui.traffic, x))
            else Shown(s.ui.traffic, x)
  {
    if Shown(s.ui.traffic, x).Some? {
      ShownIsListed(s, x);
    }
    hide SystemInv, Shown, RendersOn, TakesAway, Step, Enabled, Rightful, SizesFit;
    match e
    case Display(callback) => DisplayShown(s, callback, x);
    case Deliver(now) => DeliverShown(s, now, x);
    case RenderNext(paint) => RenderShown(s, paint, x);
    case _ => OtherwiseShown(s, e, x);
  }

  lemma DisplayShown(s: State, callback: Callback, x: SurfaceId)
    requires Enabled(s, Display(callback)) && (Shown(s.ui.traffic, x).Some? ==> x < s.ui.nextSurface)
    ensures !RendersOn(s, Display(callback), x)
    ensures Shown(Step(s, Display(callback)).ui.traffic, x) ==
            if TakesAway(s, Display(callback), x) then None else Shown(s.ui.traffic, x)
  {
    HandleShows(s.ui, callback, x);
    hide Shown, Handle, Withdraws;
  }

  lemma DeliverShown(s: State, now: Auth.Time, x: SurfaceId)
    requires Enabled(s, Deliver(now))
    ensures !RendersOn(s, Deliver(now), x)
    ensures Shown(Step(s, Deliver(now)).ui.traffic, x) ==
            if TakesAway(s, Deliver(now), x) then None else Shown(s.ui.traffic, x)
  {
    ShownAppend(s.ui.traffic, UnlockAndDestroy, x);
    hide Shown, AuthMachine.Step, AuthMachine.Enabled, SessionIndices;
  }

  lemma RenderShown(s: State, paint: Paint, x: SurfaceId)
    requires SizesFit(s.ui) && Enabled(s, RenderNext(paint))
    requires s.server.latest.Some? ==> WellFormed(s.server.latest.value)
    ensures !TakesAway(s, RenderNext(paint), x)
    ensures Shown(Step(s, RenderNext(paint)).ui.traffic, x) ==
            if RendersOn(s, RenderNext(paint), x) then
              Rightful(s.ui.surfaces[s.redraw[0]], s.server.latest, paint, Shown(s.ui.traffic, x))
            else Shown(s.ui.traffic, x)
  {
    hide Shown, RenderSurface, Rightful, Picture;
    var entry := s.ui.surfaces[s.redraw[0]];
    RenderShows(s.ui, s.redraw[0], s.server.latest, paint, x);
    assert BufferSized(entry.width, entry.height);
    PictureOf(entry, s.server.latest, paint, Shown(s.ui.traffic, x));
  }

  lemma OtherwiseShown(s: State, e: Event, x: SurfaceId)
    requires Enabled(s, e) && !e.Display? && !e.Deliver? && !e.RenderNext?
    ensures !RendersOn(s, e, x) && !TakesAway(s, e, x)
    ensures Shown(Step(s, e).ui.traffic, x) == Shown(s.ui.traffic, x)
  {
    hide Shown, Auth.PressKey, AuthMachine.Step, AuthMachine.Enabled, Server.Step, Server.Enabled;
  }

  // ---- a frame left on an output ----

  /** An output shows a frame from the socket. */
  predicate Streams(s: State, x: SurfaceId) {
    Shown(s.ui.traffic, x).Some? && Shown(s.ui.traffic, x).value.Commit? && Shown(s.ui.traffic, x).value.streamed
  }

  /** An output shows a frame from the socket although there is none any more. */
  predicate Frozen(s: State, x: SurfaceId) {
    Streams(s, x) && s.server.latest == None
  }

  /** Rendering has something to put in its place. */
  predicate Replaceable(e: Entry, paint: Paint) {
    var size := PixelBytes(e.width, e.height);
    size > 0 && (|paint.content| == size || |paint.fallback| == size)
  }

  lemma RightfulStreams(e: Entry, latest: Option<Frame>, paint: Paint, before: Option<Message>)
    requires latest.Some? ==> WellFormed(latest.value)
    ensures latest == None ==>
              Rightful(e, latest, paint, before) == before
              || (Replaceable(e, paint) && Rightful(e, latest, paint, before).Some?
                  && Rightful(e, latest, paint, before).value.Commit?
                     && !Rightful(e, latest, paint, before).value.streamed)
    ensures latest == None && !Replaceable(e, paint) ==> Rightful(e, latest, paint, before) == before
    ensures latest == None && Replaceable(e, paint) ==>
              Rightful(e, latest, paint, before).Some? && Rightful(e, latest, paint, before).value.Commit?
              && !Rightful(e, latest, paint, before).value.streamed
  {
    hide Swizzle;
  }

  /** How `latest` changes. */
  lemma LatestExactly(s: State, e: Event)
    requires Enabled(s, e)
    ensures Step(s, e).server.latest ==
            if e.Serve? && e.action.Publish? then Some(s.server.handlers[e.action.handler].progress.frame)
            else if e.Serve? && e.action.Clear? then None
            else s.server.latest
  {
    hide Handle, RenderSurface, Auth.PressKey, AuthMachine.Step, AuthMachine.Enabled, Server.HandlerStep,
         Server.AuthorAfter;
  }

  /** Step by step: an output freezes exactly when a handler clears while the output shows a frame; it stays
      frozen exactly until another frame is published, the surface is destroyed, or its own next render has
      something to put in its place. */
  lemma FrozenExactly(s: State, e: Event, x: SurfaceId)
    requires SystemInv(s) && SizesFit(s.ui) && Enabled(s, e)
    ensures Frozen(Step(s, e), x) <==>
            if Frozen(s, x) then
              && !(e.Serve? && e.action.Publish?) && !TakesAway(s, e, x)
              && !(RendersOn(s, e, x) && Replaceable(s.ui.surfaces[s.redraw[0]], e.paint))
            else Streams(s, x) && e.Serve? && e.action.Clear?
  {
    InvariantFacts(s);
    ShownExactly(s, e, x);
    LatestExactly(s, e);
    if RendersOn(s, e, x) {
      RightfulStreams(s.ui.surfaces[s.redraw[0]], s.server.latest, e.paint, Shown(s.ui.traffic, x));
    }
    hide SystemInv, SizesFit, Step, Enabled, Shown, Rightful, Replaceable, WellFormed;
    NoUnlockWhileServing(s, e, x);
  }

  lemma NoUnlockWhileServing(s: State, e: Event, x: SurfaceId)
    requires Enabled(s, e)
    ensures e.Serve? ==> !TakesAway(s, e, x) && !RendersOn(s, e, x)
    ensures RendersOn(s, e, x) ==> !TakesAway(s, e, x)
  {
  }

  ghost predicate NeverFrozen(s: State, events: seq<Event>)
    requires Run(s, events)
    decreases |events|
  {
    (forall x :: !Frozen(s, x)) && (events == [] || NeverFrozen(Step(s, events[0]), events[1..]))
  }

  /** No handler clears while an output shows a frame. */
  ghost predicate NoClearOnDisplay(s: State, events: seq<Event>)
    requires Run(s, events)
    decreases |events|
  {
    events == [] ||
    (&& (events[0].Serve? && events[0].action.Clear? ==> forall x :: !Streams(s, x))
     && NoClearOnDisplay(Step(s, events[0]), events[1..]))
  }

  lemma {:induction false} NeverFrozenFrom(s: State, events: seq<Event>)
    requires SystemInv(s) && SizesFit(s.ui) && Run(s, events) && forall x :: !Frozen(s, x)
    ensures NeverFrozen(s, events) <==> NoClearOnDisplay(s, events)
    decreases |events|
  {
    hide SystemInv, SizesFit, Frozen, Streams, Step, Enabled;
    if events != [] {
      var e := events[0];
      forall x ensures Frozen(Step(s, e), x) <==> Streams(s, x) && e.Serve? && e.action.Clear? {
        FrozenExactly(s, e, x);
      }
      StepKeepsSystemInv(s, e);
      StepKeepsSizes(s, e);
      if forall x :: !Frozen(Step(s, e), x) {
        NeverFrozenFrom(Step(s, e), events[1..]);
      } else {
        assert !NeverFrozen(Step(s, e), events[1..]);
      }
    }
  }

  /** A whole run never leaves a frame on an output past its disconnect if and only if no handler clears while
      an output shows one. */
  lemma NothingFreezesIff(story: Story)
    ensures NeverFrozen(Begin(story.setup), story.events) <==> NoClearOnDisplay(Begin(story.setup), story.events)
  {
    hide Run, SystemInv, SizesFit;
    BeginsUndrawn(story.setup);
    assert forall x :: !Frozen(Begin(story.setup), x);
    hide Frozen;
    NeverFrozenFrom(Begin(story.setup), story.events);
  }

  // ---- and for how long ----

  /** No step of the run renders on `x`, destroys it, or unlocks. */
  predicate Untouched(s: State, events: seq<Event>, x: SurfaceId)
    requires Run(s, events)
    decreases |events|
  {
    events == [] ||
    (!RendersOn(s, events[0], x) && !TakesAway(s, events[0], x) && Untouched(Step(s, events[0]), events[1..], x))
  }

  /** However long that takes and whatever the kiosk's clients do, an output shows the same until its own
      surface is rendered or destroyed. */
  lemma {:induction false} ShowsTheSameUntilRendered(s: State, events: seq<Event>, x: SurfaceId)
    requires SystemInv(s) && SizesFit(s.ui) && Run(s, events) && Untouched(s, events, x)
    ensures Shown(Exec(s, events).ui.traffic, x) == Shown(s.ui.traffic, x)
    decreases |events|
  {
    if events != [] {
      var e := events[0];
      InvariantFacts(s);
      ShownExactly(s, e, x);
      StepKeepsSystemInv(s, e);
      StepKeepsSizes(s, e);
      hide SystemInv, SizesFit, Step, Enabled, Shown, RendersOn, TakesAway, WellFormed;
      ShowsTheSameUntilRendered(Step(s, e), events[1..], x);
    }
  }

  /** The next repaint, at the latest the next tick's, ends it exactly where there is something of the right
      size to put in the frame's place. */
  lemma RepaintThaws(story: Story, repaint: seq<Event>, k: nat)
    requires End(story).auth.exit == None && RepaintRun(End(story), repaint) && Undisturbed(repaint)
    requires End(story).server.latest == None && k < |End(story).redraw|
    ensures k < |Paints(repaint)| && End(story).redraw[k] < |End(story).ui.surfaces|
    ensures var s := End(story);
            var e := s.ui.surfaces[s.redraw[k]];
            Frozen(Exec(s, repaint), e.surface) <==> Frozen(s, e.surface) && !Replaceable(e, Paints(repaint)[k])
  {
    KioskShowsTheLatestFrame(story, repaint);
    var s := End(story);
    var e := s.ui.surfaces[s.redraw[k]];
    RightfulStreams(e, None, Paints(repaint)[k], Shown(s.ui.traffic, e.surface));
    RepaintServesNothing(s, repaint);
    hide End, Shown, Rightful, Replaceable, Paints, RepaintRun;
  }

  lemma {:induction false} RepaintServesNothing(s: State, repaint: seq<Event>)
    requires Run(s, repaint) && Undisturbed(repaint) && forall i :: 0 <= i < |repaint| ==> DuringRepaint(repaint[i])
    ensures Exec(s, repaint).server == s.server
    decreases |repaint|
  {
    if repaint != [] {
      assert DuringRepaint(repaint[0]) && !repaint[0].Serve?;
      assert Step(s, repaint[0]).server == s.server by {
        hide RenderSurface, AuthMachine.Step, AuthMachine.Enabled;
      }
      hide Step, Enabled;
      RepaintServesNothing(Step(s, repaint[0]), repaint[1..]);
    }
  }

  // ---- it happens ----

  lemma {:induction false} LastWakes(actions: seq<Server.Event>)
    requires actions != [] && Wakes(actions[|actions| - 1])
    ensures Lifting.AnyWakes(actions)
  {
    if !Wakes(actions[0]) {
      assert actions[1..][|actions| - 2] == actions[|actions| - 1];
      LastWakes(actions[1..]);
    }
  }

  lemma {:induction false} NoneWakes(actions: seq<Server.Event>)
    requires forall i :: 0 <= i < |actions| ==> !actions[i].Wake?
    ensures !Lifting.AnyWakes(actions)
  {
    if actions != [] {
      NoneWakes(actions[1..]);
    }
  }

  /** A client streams a frame and the handler's ping is pending. */
  lemma AFrameArrives() returns (story: Story)
    ensures var s := End(story);
            && s.serving && s.auth.exit == None && s.redraw == [] && s.pinged
            && s.ui.surfaces == [KioskRuns.KIOSK] && s.ui.lock == Held
            && s.server.latest == Some(Races.TINY) && |s.server.handlers| == |s.server.connections| == 1
            && Server.HandlerAt(s.server, 0) && s.server.handlers[0].progress.AtLoopHead?
            && s.server.handlers[0].generation == s.server.activeGen && s.server.handlers[0].conn == 0
  {
    hide End, Run, Exec, Server.Run, Server.Exec, Races.Accepting;
    var ready := KioskRuns.GetsReady();
    var actions := Races.AFrameIsLive();
    LastWakes(actions);
    Lifting.ServerRunsHappen(End(ready), actions);
    story := KioskRuns.Further(ready, Lifting.Served(actions));
  }

  lemma PingRepaints(s: State)
    requires s.auth.exit == None && s.redraw == [] && s.pinged && |s.ui.surfaces| == 1
    ensures Enabled(s, Ping) && Step(s, Ping) == s.(redraw := [0], pinged := false)
  {
    assert Indices(1) == [0];
  }

  /** Its frame is rendered. */
  lemma AFrameIsShown() returns (story: Story)
    ensures var s := End(story);
            && s.serving && s.auth.exit == None && s.redraw == [] && !s.pinged && Streams(s, 0)
            && |s.server.handlers| == |s.server.connections| == 1
            && Server.HandlerAt(s.server, 0) && s.server.handlers[0].progress.AtLoopHead?
            && s.server.handlers[0].generation == s.server.activeGen && s.server.handlers[0].conn == 0
  {
    hide End, Run, Exec, Shown;
    var arrived := AFrameArrives();
    var s := End(arrived);
    PingRepaints(s);
    var due := Step(s, Ping);
    Lifting.RunOne(s, Ping);
    var pinged := KioskRuns.Further(arrived, [Ping]);
    Reached(pinged);
    SizesInStories(pinged);
    RenderedOnce(due);
    Lifting.RunOne(due, RenderNext(KioskRuns.BLANK));
    hide Step, Enabled, SystemInv;
    story := KioskRuns.Further(pinged, [RenderNext(KioskRuns.BLANK)]);
  }

  lemma RenderedOnce(s: State)
    requires SystemInv(s) && SizesFit(s.ui) && s.auth.exit == None && s.redraw == [0]
             && s.ui.surfaces == [KioskRuns.KIOSK]
    requires s.server.latest == Some(Races.TINY)
    ensures Enabled(s, RenderNext(KioskRuns.BLANK))
    ensures var t := Step(s, RenderNext(KioskRuns.BLANK));
            Streams(t, 0) && t == s.(ui := t.ui, redraw := [])
  {
    hide SystemInv, SizesFit, Shown, RenderSurface, RendersOn, TakesAway, Rightful;
    assert WellFormed(Races.TINY);
    var e := RenderNext(KioskRuns.BLANK);
    ShownExactly(s, e, 0);
    RendersFirst(s);
    TinyIsRightful(Shown(s.ui.traffic, 0));
  }

  lemma RendersFirst(s: State)
    requires Enabled(s, RenderNext(KioskRuns.BLANK)) && s.redraw == [0] && s.ui.surfaces == [KioskRuns.KIOSK]
    ensures RendersOn(s, RenderNext(KioskRuns.BLANK), 0) && !TakesAway(s, RenderNext(KioskRuns.BLANK), 0)
    ensures var t := Step(s, RenderNext(KioskRuns.BLANK)); t == s.(ui := t.ui, redraw := [])
  {
    hide RenderSurface;
  }

  lemma TinyIsRightful(before: Option<Message>)
    ensures WellFormed(Races.TINY)
    ensures var m := Rightful(KioskRuns.KIOSK, Some(Races.TINY), KioskRuns.BLANK, before);
            m.Some? && m.value.Commit? && m.value.streamed
  {
    hide Swizzle;
  }

  /** Against "a disconnect clears back to the clock immediately": one client connects, its frame is published
      and rendered, it hangs up and its handler clears. Nothing was superseded, nothing failed, no repaint is
      due, and the output still shows the frame. */
  lemma PlainDisconnectLeavesTheFrame() returns (story: Story)
    ensures var s := End(story);
            && s.server.latest == None && Frozen(s, 0) && s.redraw == [] && !s.pinged && s.auth.exit == None
            && |s.server.handlers| == 1 && s.server.handlers[0].progress.Finished?
            && |s.server.connections| == 1 && s.server.connections[0].hungUp
  {
    hide End, Run, Exec, Shown, Server.Run, Server.Exec;
    var shown := AFrameIsShown();
    var s := End(shown);
    Races.CurrentClientGoes(s.server, 0);
    var actions := Races.Going(0, 0);
    NoneWakes(actions);
    Lifting.ServerRunsHappen(s, actions);
    hide Races.Going;
    story := KioskRuns.Further(shown, Lifting.Served(actions));
  }
}
