/** Runs of the parts are runs of the whole: whatever the authentication machine can do, and whatever the
    kiosk server can do, a process with a surface and a socket can do, repaints and all. */
module Lifting {
  import opened Words
  import opened Wire
  import opened Render
  import opened LockProtocol
  import opened Outputs
  import opened Auth
  import opened System
  import opened SystemTheorems
  import opened Refinement
  import AuthMachine
  import AuthTheorems
  import Lifecycle
  import Retry
  import Server
  import Races

  lemma {:induction false} RunConcat(s: State, a: seq<Event>, b: seq<Event>)
    requires Run(s, a) && Run(Exec(s, a), b)
    ensures Run(s, a + b) && Exec(s, a + b) == Exec(Exec(s, a), b)
    ensures AuthPartOf(a + b) == AuthPartOf(a) + AuthPartOf(b)
    decreases |a|
  {
    hide Enabled, Step, AuthPart;
    if a == [] {
      assert a + b == b && AuthPartOf(a) + AuthPartOf(b) == AuthPartOf(b);
    } else {
      RunConcat(Step(s, a[0]), a[1..], b);
      assert (a + b)[1..] == a[1..] + b;
      AppendAssociates(match AuthPart(a[0]) case Some(step) => [step] case None => [], AuthPartOf(a[1..]),
                       AuthPartOf(b));
    }
  }

  lemma RunOne(s: State, e: Event)
    requires Enabled(s, e)
    ensures Run(s, [e]) && Exec(s, [e]) == Step(s, e)
    ensures AuthPartOf([e]) == match AuthPart(e) case Some(step) => [step] case None => []
  {
    hide Enabled, Step, AuthPart;
    assert [e][1..] == [] && Run(Step(s, e), [e][1..]);
  }

  // ---- draining a repaint ----

  /** Renders whatever is still to be repainted. */
  lemma {:induction false} Drains(s: State, paint: Paint) returns (events: seq<Event>)
    requires RepaintInv(s) && s.auth.exit == None
    ensures Run(s, events) && AuthPartOf(events) == []
    ensures var t := Exec(s, events);
            t == s.(ui := t.ui, redraw := []) && t.ui == s.ui.(traffic := t.ui.traffic)
    decreases |s.redraw|
  {
    if s.redraw == [] {
      events := [];
    } else {
      assert Enabled(s, RenderNext(paint));
      RenderStep(s, RenderNext(paint));
      var next := Step(s, RenderNext(paint));
      assert next == s.(ui := next.ui, redraw := s.redraw[1..]) && next.ui == s.ui.(traffic := next.ui.traffic);
      hide Enabled, Step;
      var rest := Drains(next, paint);
      RunOne(s, RenderNext(paint));
      RunConcat(s, [RenderNext(paint)], rest);
      events := [RenderNext(paint)] + rest;
    }
  }

  // ---- authentication ----

  function Lifted(step: AuthMachine.Event): Event {
    match step
    case Key(key, now, later) => Key(key, now, later)
    case Deliver(now) => Deliver(now)
    case Tick(now) => Tick(now)
    case Abort => Finished
    case _ => Worker(step)
  }

  lemma StepLifts(s: State, step: AuthMachine.Event)
    requires SystemInv(s) && s.redraw == [] && s.ui.surfaces != [] && AuthMachine.Enabled(s.auth, step)
    ensures Enabled(s, Lifted(step)) && AuthPart(Lifted(step)) == Some(step)
    ensures var t := Step(s, Lifted(step));
            t.ui.surfaces == s.ui.surfaces && t.auth == AuthMachine.Step(s.auth, step)
  {
    hide SystemInv, Handle, RenderSurface, PressKey, AuthMachine.Step, SessionIndices, Indices, Server.Step,
         Server.Enabled, Repeat;
    RunningHoldsTheLock(s);
  }

  lemma RunningHoldsTheLock(s: State)
    requires SystemInv(s) && s.auth.exit == None && s.ui.surfaces != []
    ensures s.ui.lock == Held
  {
    Lifecycle.EntriesMeanHeld(s.ui);
  }

  lemma DrainThenStep(s: State, step: AuthMachine.Event, paint: Paint) returns (events: seq<Event>)
    requires SystemInv(s) && RepaintInv(s) && s.ui.surfaces != [] && AuthMachine.Enabled(s.auth, step)
    ensures Run(s, events) && AuthPartOf(events) == [step]
    ensures var t := Exec(s, events);
            && SystemInv(t) && RepaintInv(t) && t.ui.surfaces == s.ui.surfaces
            && t.auth == AuthMachine.Step(s.auth, step)
  {
    assert s.auth.exit == None by { hide SystemInv; }
    hide SystemInv, RepaintInv, AuthMachine.Step, AuthMachine.Enabled, Enabled, Step, AuthPart, Run, Exec, AuthPartOf;
    var drain := Drains(s, paint);
    var drained := Exec(s, drain);
    SystemInvAlways(s, drain);
    RepaintInvAlways(s, drain);
    StepLifts(drained, step);
    StepKeepsSystemInv(drained, Lifted(step));
    StepKeepsRepaintInv(drained, Lifted(step));
    RunOne(drained, Lifted(step));
    RunConcat(s, drain, [Lifted(step)]);
    events := drain + [Lifted(step)];
    assert [] + [step] == [step];
  }

  /** Every run of the authentication machine from the state of a process that has a surface is, with the
      repaints it owes, a run of that process. */
  lemma {:induction false} AuthRunsHappen(s: State, steps: seq<AuthMachine.Event>, paint: Paint)
      returns (events: seq<Event>)
    requires SystemInv(s) && RepaintInv(s) && s.ui.surfaces != [] && AuthMachine.Run(s.auth, steps)
    ensures Run(s, events) && AuthPartOf(events) == steps
    ensures Exec(s, events).ui.surfaces == s.ui.surfaces
    decreases |steps|
  {
    hide SystemInv, RepaintInv, AuthMachine.Step, AuthMachine.Enabled, Enabled, Step, AuthPart;
    if steps == [] {
      events := [];
    } else {
      var first := DrainThenStep(s, steps[0], paint);
      var rest := AuthRunsHappen(Exec(s, first), steps[1..], paint);
      RunConcat(s, first, rest);
      events := first + rest;
      assert [steps[0]] + steps[1..] == steps;
    }
  }

  lemma RepaintsInStories(story: Story)
    ensures SystemInv(End(story)) && RepaintInv(End(story))
  {
    hide End, SystemInv, RepaintInv, Enabled, AuthMachine.Run, AuthMachine.Exec;
    Reached(story);
    RepaintsNeverGoStale(story, Paint([], [], n => 0));
  }

  /** In every run of a process with a surface and nothing in flight, Escape, any strokes but Enter, and
      Return can be typed from min(k, 5) seconds after the k-th failure on, and submit exactly what they spell,
      whatever else comes between them: renders, ticks, frames, outputs, configures or signals. */
  lemma ProcessAlwaysRetryable(story: Story, clear: Retry.Stroke, strokes: seq<Retry.Stroke>, enter: Retry.Stroke)
      returns (happens: seq<Event>)
    requires End(story).auth.exit == None && !End(story).auth.fields.verifying && End(story).ui.surfaces != []
    requires Retry.Typeable(AuthMachine.RetryFrom(End(story).auth), clear, strokes, enter)
    ensures Run(End(story), happens) && AuthPartOf(happens) == Retry.Attempting(clear, strokes, enter)
    ensures forall more ::
              Run(End(story), more)
              && AuthTheorems.WithoutTicks(AuthPartOf(more)) == Retry.Attempting(clear, strokes, enter) ==>
                Retry.SubmitsWhatWasTyped(End(story).auth, Exec(End(story), more).auth, strokes, enter)
  {
    hide End, SystemInv, RepaintInv, Enabled, Retry.Typeable, Retry.Attempting, Retry.SubmitsWhatWasTyped,
         AuthTheorems.WithoutTicks, AuthMachine.Run, AuthMachine.Exec, Run, Exec;
    Reached(story);
    RepaintsInStories(story);
    var s := End(story);
    Retry.AlwaysRetryable(AuthPartOf(story.events), clear, strokes, enter);
    happens := AuthRunsHappen(s, Retry.Attempting(clear, strokes, enter), Paint([], [], n => 0));
    forall more | Run(s, more) && AuthTheorems.WithoutTicks(AuthPartOf(more)) == Retry.Attempting(clear, strokes, enter)
      ensures Retry.SubmitsWhatWasTyped(s.auth, Exec(s, more).auth, strokes, enter)
    {
      AuthIsItsOwnMachine(s, more);
    }
  }

  /** And with an attempt in flight its verdict, whatever it is, can come and be delivered: the process
      unlocks if and only if PAM succeeded, and if this was the k-th failure, the next attempt can follow
      min(k, 5) seconds later. */
  lemma ProcessInFlightResolves(story: Story, reply: PamReply, at: Time,
                                clear: Retry.Stroke, strokes: seq<Retry.Stroke>, enter: Retry.Stroke)
      returns (resolving: seq<Event>, retrying: seq<Event>)
    requires End(story).auth.exit == None && End(story).auth.fields.verifying && End(story).ui.surfaces != []
    requires at >= End(story).auth.clock
    requires Retry.Typeable(at + Min(|End(story).auth.failures| + 1, 5) * SECOND, clear, strokes, enter)
    ensures Run(End(story), resolving) && End(story).auth.submissions != []
    ensures var r := Exec(End(story), resolving);
            && Retry.Decided(End(story).auth, r.auth, reply)
            && (UnlockAndDestroy in r.ui.traffic <==> r.auth.calls[|r.auth.calls| - 1].reply == Success)
            && (r.auth.calls[|r.auth.calls| - 1].reply == Success
                || (!r.auth.fields.verifying && Run(r, retrying)
                    && AuthPartOf(retrying) == Retry.Attempting(clear, strokes, enter)
                    && Retry.SubmitsWhatWasTyped(r.auth, Exec(r, retrying).auth, strokes, enter)))
  {
    hide End, SystemInv, RepaintInv, Enabled, Step, Retry.Typeable, Retry.Attempting, Retry.SubmitsWhatWasTyped,
         Retry.Resolution, Retry.Decided, AuthMachine.Run, AuthMachine.Exec, Run, Exec, AuthTheorems.WithoutTicks, Min;
    Reached(story);
    RepaintsInStories(story);
    var s := End(story);
    Retry.InFlightResolves(AuthPartOf(story.events), reply, at, clear, strokes, enter);
    var steps := Retry.Resolution(s.auth, reply, at);
    resolving := AuthRunsHappen(s, steps, Paint([], [], n => 0));
    AuthIsItsOwnMachine(s, resolving);
    var r := Exec(s, resolving);
    DecidedUnlocks(s.auth, r.auth, reply);
    SystemInvAlways(s, resolving);
    RepaintInvAlways(s, resolving);
    UnlockedIffExited(r);
    if r.auth.exit == Some(0) {
      retrying := [];
    } else {
      retrying := AuthRunsHappen(r, Retry.Attempting(clear, strokes, enter), Paint([], [], n => 0));
      AuthIsItsOwnMachine(r, retrying);
    }
  }

  lemma DecidedUnlocks(s: AuthMachine.State, r: AuthMachine.State, reply: PamReply)
    requires s.submissions != [] && Retry.Decided(s, r, reply)
    ensures r.calls != [] && (r.exit == Some(0) <==> r.calls[|r.calls| - 1].reply == Success)
  {
  }

  // ---- the kiosk server ----

  function Served(actions: seq<Server.Event>): seq<Event> {
    if actions == [] then [] else [Serve(actions[0])] + Served(actions[1..])
  }

  predicate AnyWakes(actions: seq<Server.Event>) {
    actions != [] && (Wakes(actions[0]) || AnyWakes(actions[1..]))
  }

  /** Every run of the kiosk server is a run of a process that serves. */
  lemma {:induction false} ServerRunsHappen(s: State, actions: seq<Server.Event>)
    requires s.serving && s.auth.exit == None && Server.Run(s.server, actions)
    requires forall i :: 0 <= i < |actions| ==> !actions[i].SetGeometry?
    ensures Run(s, Served(actions))
    ensures Exec(s, Served(actions)) ==
            s.(server := Server.Exec(s.server, actions), pinged := s.pinged || AnyWakes(actions))
    decreases |actions|
  {
    hide Server.Step, Server.Enabled;
    if actions != [] {
      assert !actions[0].SetGeometry?;
      var next := Step(s, Serve(actions[0]));
      assert Enabled(s, Serve(actions[0]));
      assert next == s.(server := Server.Step(s.server, actions[0]), pinged := s.pinged || Wakes(actions[0]));
      hide Step, Enabled;
      ServerRunsHappen(next, actions[1..]);
      RunOne(s, Serve(actions[0]));
      RunConcat(s, [Serve(actions[0])], Served(actions[1..]));
    }
  }

  const NO_KIOSK: Setup := Setup([], Some("nixlock.sock"), false)
  const ONE_SESSION_OUTPUT: seq<Event> :=
      [Display(Bind(0)), Display(RequestLock)] + [Display(Confirm), Display(SurfaceConfigured(0, 1, 1))]

  lemma RunTwo(s: State, e: Event, f: Event)
    requires Enabled(s, e) && Enabled(Step(s, e), f)
    ensures Run(s, [e, f]) && Exec(s, [e, f]) == Step(Step(s, e), f)
  {
    hide Enabled, Step;
    RunOne(s, e);
    RunOne(Step(s, e), f);
    RunConcat(s, [e], [f]);
    assert [e] + [f] == [e, f];
  }

  const REQUESTED: State :=
    Begin(NO_KIOSK).(ui := Begin(NO_KIOSK).ui.(lock := Pending, known := [0], traffic := [LockRequest]))

  lemma LockIsRequested()
    ensures Run(Begin(NO_KIOSK), [Display(Bind(0)), Display(RequestLock)])
    ensures Exec(Begin(NO_KIOSK), [Display(Bind(0)), Display(RequestLock)]) == REQUESTED
  {
    RunTwo(Begin(NO_KIOSK), Display(Bind(0)), Display(RequestLock));
    hide Run, Exec;
  }

  lemma LockIsConfirmed()
    ensures var ui := Locked(REQUESTED.ui);
            && ui == REQUESTED.ui.(lock := Held, nextSurface := 1, socketPath := None, daemonReady := false,
                                   surfaces := ui.surfaces, traffic := ui.traffic)
            && ui.surfaces == [Entry(0, 0, Session, "", 0, 0, 1)]
  {
    var held := Send(REQUESTED.ui, LockConfirmed).(lock := Held, socketPath := None);
    assert OfRole(held, [], Session) == OfRole(held, [], Kiosk) == [];
    assert SessionFirst(held, [0]) == [0];
    assert AddSurfaces(held, [0]) == AddSurface(AddSurfaces(held, []), 0);
  }

  lemma ProcessConfirms() returns (t: State)
    ensures Enabled(REQUESTED, Display(Confirm)) && t == Step(REQUESTED, Display(Confirm))
    ensures t.serving && t.redraw == [] && t.auth == AuthMachine.INITIAL && t.server == Server.INITIAL
    ensures t.ui.surfaces == [Entry(0, 0, Session, "", 0, 0, 1)]
  {
    LockIsConfirmed();
    hide Locked;
    t := Step(REQUESTED, Display(Confirm));
  }

  lemma SessionIsConfigured(s: State) returns (t: State)
    requires s.serving && s.redraw == [] && s.auth.exit == None && s.server == Server.INITIAL
    requires s.ui.surfaces == [Entry(0, 0, Session, "", 0, 0, 1)]
    ensures Enabled(s, Display(SurfaceConfigured(0, 1, 1))) && t == Step(s, Display(SurfaceConfigured(0, 1, 1)))
    ensures t.serving && t.auth.exit == None && t.server == Server.INITIAL.(geometry := Geometry(0, 0, 1))
  {
    t := Step(s, Display(SurfaceConfigured(0, 1, 1)));
    var e := Entry(0, 0, Session, "", 1, 1, 1);
    assert IndexOfSurface(s.ui.surfaces, 0) == 0;
    assert s.ui.surfaces[0 := e] == [e] && [e][1..] == [];
    assert KioskGeometry([e]) == Geometry(0, 0, 1);
    hide KioskGeometry, IndexOfSurface;
  }

  /** Against "`0,0,0` means no kiosk output": a process that has none, and a client it is about to greet
      with `0,0,1`. */
  lemma HelloWithoutAKioskCarriesAScale() returns (story: Story)
    ensures story.setup.kioskOutputs == []
    ensures var server := End(story).server;
            && server.acceptor.Greeting? && server.acceptor.conn < |server.connections|
            && ReadHello(HelloBytes(server.acceptor.geometry)) == Some(Geometry(0, 0, 1))
  {
    hide Run, Exec, Server.Run, Server.Exec, Step, Enabled, Races.Replaced;
    LockIsRequested();
    var confirmed := ProcessConfirms();
    var ready := SessionIsConfigured(confirmed);
    RunTwo(REQUESTED, Display(Confirm), Display(SurfaceConfigured(0, 1, 1)));
    RunConcat(Begin(NO_KIOSK), [Display(Bind(0)), Display(RequestLock)],
              [Display(Confirm), Display(SurfaceConfigured(0, 1, 1))]);
    Races.AcceptBegins(ready.server);
    ServerRunsHappen(ready, Races.NUMBERING + Races.EVICTING);
    RunConcat(Begin(NO_KIOSK), ONE_SESSION_OUTPUT, Served(Races.NUMBERING + Races.EVICTING));
    story := History(NO_KIOSK, ONE_SESSION_OUTPUT + Served(Races.NUMBERING + Races.EVICTING));
    HelloRoundTrip(Geometry(0, 0, 1));
  }
}
