/** The `Locker` object simulates the process: a callback of the object, repaint included, is that step of
    the process followed by its render steps. */
module Simulation {
  import opened Words
  import opened Outputs
  import opened Auth
  import opened System
  import opened Refinement
  import AuthMachine
  import Lifting
  import Locker

  /** The object and the process agree on everything they share but the attempt queue, which the worker
      empties: there, what the object has sent is all that the process has queued. */
  ghost predicate Mirrors(l: Locker.Locker, s: State)
    reads l, l.socket
  {
    && l.Screen() == s.ui && l.Credentials() == s.auth.fields
    && l.exitCode == s.auth.exit && l.workerAlive == !s.auth.worker.Gone?
    && l.socket.geometry == s.server.geometry
  }

  /** A scene in which every surface finds what is in `latest` now. */
  ghost predicate Finds(scene: Scene, s: State) {
    forall k: nat :: SeenAt(scene, k) == s.server.latest
  }

  // ---- a step and its renders ----

  function Renders(indices: seq<nat>, scene: Scene): seq<Event> {
    if indices == [] then [] else [RenderNext(PaintAt(scene, indices[0]))] + Renders(indices[1..], scene)
  }

  lemma {:induction false} RendersRun(s: State, scene: Scene)
    requires RepaintInv(s) && s.auth.exit == None && Finds(scene, s)
    ensures Run(s, Renders(s.redraw, scene))
    ensures Exec(s, Renders(s.redraw, scene)) == s.(ui := Redrawn(s.ui, s.redraw, scene), redraw := [])
    decreases |s.redraw|
  {
    if s.redraw != [] {
      var i := s.redraw[0];
      var e := RenderNext(PaintAt(scene, i));
      assert Enabled(s, e) && SeenAt(scene, i) == s.server.latest;
      RenderStep(s, e);
      RedrawnFront(s.ui, s.redraw, scene);
      var next := Step(s, e);
      assert next == s.(ui := RenderSurface(s.ui, i, s.server.latest, e.paint), redraw := s.redraw[1..]);
      hide Enabled, Step, RenderSurface, Redrawn;
      RendersRun(next, scene);
      Lifting.RunOne(s, e);
      Lifting.RunConcat(s, [e], Renders(s.redraw[1..], scene));
    }
  }

  /** The step `e` and all the renders it owes. */
  function Whole(s: State, e: Event, scene: Scene): seq<Event>
    requires Enabled(s, e)
  {
    [e] + Renders(Step(s, e).redraw, scene)
  }

  lemma StepThenRenders(s: State, e: Event, scene: Scene)
    requires SystemInv(s) && RepaintInv(s) && Enabled(s, e) && Step(s, e).auth.exit == None && Finds(scene, Step(s, e))
    ensures Run(s, Whole(s, e, scene)) && InRange(Step(s, e).redraw, |Step(s, e).ui.surfaces|)
    ensures var t := Step(s, e);
            Exec(s, Whole(s, e, scene)) == t.(ui := Redrawn(t.ui, t.redraw, scene), redraw := [])
  {
    hide SystemInv, RepaintInv, Enabled, Step, Finds, Redrawn, Run, Exec;
    StepKeepsRepaintInv(s, e);
    RangeAfter(s, e);
    RendersRun(Step(s, e), scene);
    Lifting.RunOne(s, e);
    Lifting.RunConcat(s, [e], Renders(Step(s, e).redraw, scene));
  }

  lemma RangeAfter(s: State, e: Event)
    requires Enabled(s, e) && RepaintInv(Step(s, e))
    ensures InRange(Step(s, e).redraw, |Step(s, e).ui.surfaces|)
  {
    hide Enabled, Step;
  }

  // ---- the callbacks ----

  lemma TickOwes(s: State, now: Time)
    requires Enabled(s, System.Tick(now))
    ensures var effect := Repaint(s.ui);
            var t := Step(s, System.Tick(now));
            && t.auth.exit == s.auth.exit == None && t.auth.worker == s.auth.worker
               && t.auth.fields == Sweep(s.auth.fields, now)
            && t.ui == effect.ui && t.redraw == effect.redraw && t.server == s.server
  {
    hide Sweep, Repaint;
  }

  method Tick(l: Locker.Locker, now: Time, scene: Scene, ghost s: State) returns (ghost t: State)
    requires Mirrors(l, s) && SystemInv(s) && RepaintInv(s) && Enabled(s, System.Tick(now)) && Finds(scene, s)
    modifies l
    ensures Run(s, Whole(s, System.Tick(now), scene)) && t == Exec(s, Whole(s, System.Tick(now), scene))
    ensures Mirrors(l, t)
  {
    hide SystemInv, RepaintInv, Redrawn, Run, Exec, Step, Enabled, Finds, Sweep, Repaint;
    TickOwes(s, now);
    SameLatestFinds(scene, s, Step(s, System.Tick(now)));
    StepThenRenders(s, System.Tick(now), scene);
    t := Exec(s, Whole(s, System.Tick(now), scene));
    l.OnTick(now, scene);
  }

  lemma KeyStep(s: State, key: KeyEvent, now: Time, later: Time)
    requires Enabled(s, Key(key, now, later))
    ensures var h := PressKey(s.auth.fields, key, now, later, !s.auth.worker.Gone?);
            var t := Step(s, Key(key, now, later));
            && t.auth.exit == None && t.auth.worker == s.auth.worker && t.auth.fields == h.fields
            && t.ui == s.ui && t.server == s.server && t.redraw == Repeat(SessionIndices(s.ui.surfaces), h.redraws)
            && t.auth.attempts == s.auth.attempts + (if h.sent.Some? then [h.sent.value] else [])
  {
    hide PressKey, SessionIndices, Repeat;
  }

  lemma DeliverableKeyRepaintsOnce(s: State, key: KeyEvent, now: Time, later: Time)
    requires AuthMachine.Inv(s.auth) && Enabled(s, Key(key, now, later))
    ensures PressKey(s.auth.fields, key, now, later, !s.auth.worker.Gone?).redraws <= 1
  {
    hide Step;
  }

  lemma KeyOwes(s: State, key: KeyEvent, now: Time, later: Time, scene: Scene)
    requires AuthMachine.Inv(s.auth) && Enabled(s, Key(key, now, later))
    ensures var h := PressKey(s.auth.fields, key, now, later, !s.auth.worker.Gone?);
            var t := Step(s, Key(key, now, later));
            && t.auth.exit == None && t.auth.worker == s.auth.worker && t.auth.fields == h.fields
            && t.ui == s.ui && t.server == s.server && InRange(t.redraw, |t.ui.surfaces|)
            && t.auth.attempts == s.auth.attempts + (if h.sent.Some? then [h.sent.value] else [])
            && Locker.LocksRedrawn(s.ui, h.redraws, scene, scene) == Redrawn(t.ui, t.redraw, scene)
  {
    KeyStep(s, key, now, later);
    DeliverableKeyRepaintsOnce(s, key, now, later);
    SessionIndicesExactly(s.ui.surfaces);
    hide AuthMachine.Inv, PressKey, SessionIndices, Step, Enabled;
    OnceOrNever(SessionIndices(s.ui.surfaces), PressKey(s.auth.fields, key, now, later, !s.auth.worker.Gone?).redraws);
  }

  lemma AuthOf(s: State)
    requires SystemInv(s)
    ensures AuthMachine.Inv(s.auth)
  {
  }

  /** What a key press comes to, repaint included. */
  lemma WholeKey(s: State, key: KeyEvent, now: Time, later: Time, scene: Scene)
    requires SystemInv(s) && RepaintInv(s) && Enabled(s, Key(key, now, later)) && Finds(scene, s)
    ensures Run(s, Whole(s, Key(key, now, later), scene))
    ensures var h := PressKey(s.auth.fields, key, now, later, !s.auth.worker.Gone?);
            var t := Exec(s, Whole(s, Key(key, now, later), scene));
            && t.ui == Locker.LocksRedrawn(s.ui, h.redraws, scene, scene) && t.server == s.server
            && t.auth.exit == s.auth.exit == None && t.auth.worker == s.auth.worker && t.auth.fields == h.fields
            && t.auth.attempts == s.auth.attempts + (if h.sent.Some? then [h.sent.value] else [])
  {
    AuthOf(s);
    assert s.auth.exit == None by { hide SystemInv; }
    hide SystemInv, RepaintInv, Redrawn, Run, Exec, AuthMachine.Inv, PressKey, Locker.LocksRedrawn, Step, Enabled,
         Finds;
    KeyOwes(s, key, now, later, scene);
    SameLatestFinds(scene, s, Step(s, Key(key, now, later)));
    StepThenRenders(s, Key(key, now, later), scene);
  }

  method PressAKey(l: Locker.Locker, key: KeyEvent, now: Time, later: Time, scene: Scene, ghost s: State)
      returns (ghost t: State)
    requires Mirrors(l, s) && SystemInv(s) && RepaintInv(s) && Enabled(s, Key(key, now, later)) && Finds(scene, s)
    modifies l
    ensures Run(s, Whole(s, Key(key, now, later), scene)) && t == Exec(s, Whole(s, Key(key, now, later), scene))
    ensures Mirrors(l, t)
    ensures old(l.attempts) <= l.attempts && t.auth.attempts == s.auth.attempts + l.attempts[|old(l.attempts)|..]
  {
    hide SystemInv, RepaintInv, Run, Exec, PressKey, Locker.LocksRedrawn, Step, Enabled, Finds, Whole;
    WholeKey(s, key, now, later, scene);
    t := Exec(s, Whole(s, Key(key, now, later), scene));
    l.PressKey(key, now, later, scene, scene);
  }

  lemma SameLatestFinds(scene: Scene, s: State, t: State)
    requires Finds(scene, s) && t.server.latest == s.server.latest
    ensures Finds(scene, t)
  {
  }

  lemma DeliverOwes(s: State, now: Time)
    requires Enabled(s, Deliver(now))
    ensures var t := Step(s, Deliver(now));
            && t.auth.worker == s.auth.worker && t.server == s.server
            && (if s.auth.results[0].outcome == Unlocked then
                  t.auth.exit == Some(0) && t.auth.fields == s.auth.fields.(verifying := false) && t.ui == Unlock(s.ui)
                else
                  t.auth.exit == None && t.auth.fields == Refuse(s.auth.fields, now) && t.ui == s.ui
                  && t.redraw == SessionIndices(s.ui.surfaces))
  {
  }

  /** A verdict either ends both, unlocked, or repaints both. */
  method TakeAVerdict(l: Locker.Locker, result: Result, now: Time, scene: Scene, ghost s: State)
      returns (ghost t: State)
    requires Mirrors(l, s) && SystemInv(s) && RepaintInv(s) && Enabled(s, Deliver(now)) && Finds(scene, s)
    requires result == s.auth.results[0]
    modifies l
    ensures result.outcome == Unlocked ==> t == Step(s, Deliver(now)) && t.auth.exit == Some(0)
    ensures result.outcome != Unlocked ==>
              Run(s, Whole(s, Deliver(now), scene)) && t == Exec(s, Whole(s, Deliver(now), scene))
    ensures Mirrors(l, t)
  {
    hide SystemInv, RepaintInv, Redrawn, Run, Exec, Step, Finds, Refuse, SessionIndices, Unlock;
    DeliverOwes(s, now);
    if result.outcome == Unlocked {
      t := Step(s, Deliver(now));
    } else {
      SameLatestFinds(scene, s, Step(s, Deliver(now)));
      StepThenRenders(s, Deliver(now), scene);
      t := Exec(s, Whole(s, Deliver(now), scene));
    }
    l.OnAuth(result, now, scene);
  }

  // ---- output and lock callbacks ----

  /** What a callback of the display comes to, repaint included. */
  lemma WholeCallback(s: State, callback: Callback, scene: Scene)
    requires SystemInv(s) && RepaintInv(s) && Enabled(s, Display(callback)) && Finds(scene, s)
    ensures Run(s, Whole(s, Display(callback), scene))
    ensures var effect := Handle(s.ui, callback);
            var t := Exec(s, Whole(s, Display(callback), scene));
            && InRange(effect.redraw, |effect.ui.surfaces|)
            && t.ui == Redrawn(effect.ui, effect.redraw, scene)
            && (effect.redraw == [] ==> t.ui == effect.ui)
            && t.auth == s.auth && t.auth.exit == None
            && t.server.geometry == (if effect.geometry.Some? then effect.geometry.value else s.server.geometry)
            && t.serving == (s.serving || (callback.Confirm? && s.ui.socketPath.Some?))
  {
    CallbackStep(s, callback);
    hide SystemInv, RepaintInv, Run, Exec, Step, Enabled, Finds, Handle;
    SameLatestFinds(scene, s, Step(s, Display(callback)));
    StepThenRenders(s, Display(callback), scene);
    if Handle(s.ui, callback).redraw == [] {
      NothingRedrawn(Handle(s.ui, callback).ui, scene);
    }
    hide Redrawn;
  }

  lemma NothingRedrawn(ui: Ui, scene: Scene)
    ensures Redrawn(ui, [], scene) == ui
  {
  }

  lemma CallbackStep(s: State, callback: Callback)
    requires Enabled(s, Display(callback))
    ensures var effect := Handle(s.ui, callback);
            var t := Step(s, Display(callback));
            && t.auth == s.auth && s.auth.exit == None && t.ui == effect.ui && t.redraw == effect.redraw
            && t.server.latest == s.server.latest
            && t.server.geometry == (if effect.geometry.Some? then effect.geometry.value else s.server.geometry)
            && t.serving == (s.serving || (callback.Confirm? && s.ui.socketPath.Some?))
  {
    hide Handle;
  }

  /** `serve` is whether the socket's threads are started. */
  method ConfirmTheLock(l: Locker.Locker, scene: Scene, ghost s: State) returns (serve: bool, ghost t: State)
    requires Mirrors(l, s) && SystemInv(s) && RepaintInv(s) && Enabled(s, Display(Confirm)) && Finds(scene, s)
    modifies l
    ensures Run(s, Whole(s, Display(Confirm), scene)) && t == Exec(s, Whole(s, Display(Confirm), scene))
    ensures Mirrors(l, t) && t.serving == (s.serving || serve)
  {
    hide SystemInv, RepaintInv, Run, Exec, Step, Enabled, Finds, Whole, Redrawn, Locked;
    WholeCallback(s, Confirm, scene);
    t := Exec(s, Whole(s, Display(Confirm), scene));
    var ready;
    serve, ready := l.OnLocked();
  }

  method ConfigureASurface(l: Locker.Locker, surface: nat, w: U32, h: U32, scene: Scene, ghost s: State)
      returns (ghost t: State)
    requires Mirrors(l, s) && SystemInv(s) && RepaintInv(s) && Finds(scene, s)
    requires Enabled(s, Display(SurfaceConfigured(surface, w, h)))
    modifies l, l.socket`geometry
    ensures var e := Display(SurfaceConfigured(surface, w, h));
            Run(s, Whole(s, e, scene)) && t == Exec(s, Whole(s, e, scene))
    ensures Mirrors(l, t)
  {
    hide SystemInv, RepaintInv, Run, Exec, Step, Enabled, Finds, Whole, Redrawn, Configure;
    WholeCallback(s, SurfaceConfigured(surface, w, h), scene);
    t := Exec(s, Whole(s, Display(SurfaceConfigured(surface, w, h)), scene));
    l.OnConfigure(surface, w, h, scene);
  }

  /** The registry learns what an output announces, and then the callback runs. */
  method AnnounceAnOutput(l: Locker.Locker, o: nat, details: OutputInfo, scene: Scene, ghost s: State)
      returns (ghost t: State)
    requires Mirrors(l, s) && SystemInv(s) && RepaintInv(s) && Finds(scene, s)
             && Enabled(s, Display(Announce(o, details)))
    modifies l
    ensures var e := Display(Announce(o, details)); Run(s, Whole(s, e, scene)) && t == Exec(s, Whole(s, e, scene))
    ensures Mirrors(l, t)
  {
    hide SystemInv, RepaintInv, Run, Exec, Step, Enabled, Finds, Whole, Redrawn, Outputs.NewOutput;
    WholeCallback(s, Announce(o, details), scene);
    t := Exec(s, Whole(s, Display(Announce(o, details)), scene));
    l.info := l.info[o := details];
    l.NewOutput(o);
  }

  method ChangeAnOutput(l: Locker.Locker, o: nat, details: OutputInfo, scene: Scene, ghost s: State)
      returns (ghost t: State)
    requires Mirrors(l, s) && SystemInv(s) && RepaintInv(s) && Finds(scene, s)
             && Enabled(s, Display(Change(o, details)))
    modifies l, l.socket`geometry
    ensures var e := Display(Change(o, details)); Run(s, Whole(s, e, scene)) && t == Exec(s, Whole(s, e, scene))
    ensures Mirrors(l, t)
  {
    hide SystemInv, RepaintInv, Run, Exec, Step, Enabled, Finds, Whole, Redrawn, UpdateOutput;
    WholeCallback(s, Change(o, details), scene);
    t := Exec(s, Whole(s, Display(Change(o, details)), scene));
    l.info := l.info[o := details];
    l.UpdateOutputSurface(o, scene);
  }

  method WithdrawAnOutput(l: Locker.Locker, o: nat, scene: Scene, ghost s: State) returns (ghost t: State)
    requires Mirrors(l, s) && SystemInv(s) && RepaintInv(s) && Finds(scene, s) && Enabled(s, Display(Withdraw(o)))
    modifies l, l.socket`geometry
    ensures var e := Display(Withdraw(o)); Run(s, Whole(s, e, scene)) && t == Exec(s, Whole(s, e, scene))
    ensures Mirrors(l, t)
  {
    hide SystemInv, RepaintInv, Run, Exec, Step, Enabled, Finds, Whole, Redrawn, Without;
    WholeCallback(s, Withdraw(o), scene);
    t := Exec(s, Whole(s, Display(Withdraw(o)), scene));
    l.known, l.info := Without(l.known, o), l.info - {o};
    l.RemoveOutputSurface(o);
  }

  method ChangeModifiers(l: Locker.Locker, caps: bool, scene: Scene, ghost s: State) returns (ghost t: State)
    requires Mirrors(l, s) && SystemInv(s) && RepaintInv(s) && Finds(scene, s) && Enabled(s, Display(Modifiers(caps)))
    modifies l
    ensures var e := Display(Modifiers(caps)); Run(s, Whole(s, e, scene)) && t == Exec(s, Whole(s, e, scene))
    ensures Mirrors(l, t)
  {
    hide SystemInv, RepaintInv, Run, Exec, Step, Enabled, Finds, Whole, Redrawn, SessionIndices;
    WholeCallback(s, Modifiers(caps), scene);
    ModifiersPublishNothing(s.ui, caps);
    t := Exec(s, Whole(s, Display(Modifiers(caps)), scene));
    hide Handle;
    l.UpdateModifiers(caps, scene);
  }

  lemma ModifiersPublishNothing(ui: Ui, caps: bool)
    ensures Handle(ui, Modifiers(caps)).geometry == None
  {
  }
}
