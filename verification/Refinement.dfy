/** How loops and threads fit together: a handler thread of the concurrent server writes what the
    `read_frames` loop would, and a repaint that other threads come between is the loop's repaint of what
    each surface met at its turn. */
module Refinement {
  import opened Words
  import opened Wire
  import opened Outputs
  import FrameIntegrity
  import Server
  import Lifecycle
  import LockProtocol
  import Socket
  import Render
  import System
  import opened Drawing
  import SystemTheorems
  import AuthMachine
  import OneClient
  import Auth

  // ---- read_frames ----

  /** What one pass of the loop sees, for passes that ended with these sightings. */
  function Glimpses(seen: seq<Server.Sighting>, gen: nat): nat -> Socket.Glimpse {
    (k: nat) => if k < |seen| then Socket.Glimpse(gen, seen[k].geometry) else Socket.Glimpse(gen + 1, Geometry(0, 0, 0))
  }

  function IfMatching(s: Server.Sighting): seq<Frame> {
    if Matches(s.frame, s.geometry) then [s.frame] else []
  }

  /** `Matching` from the front. */
  lemma {:induction false} MatchingFront(seen: seq<Server.Sighting>)
    requires seen != []
    ensures FrameIntegrity.Matching(seen) == IfMatching(seen[0]) + FrameIntegrity.Matching(seen[1..])
  {
    var n := |seen| - 1;
    assert FrameIntegrity.Matching(seen) == FrameIntegrity.Matching(seen[..n]) + IfMatching(seen[n]);
    if n == 0 {
      assert seen[..0] == seen[1..] == [];
    } else {
      var middle := seen[1..][..n - 1];
      assert FrameIntegrity.Matching(seen[1..]) == FrameIntegrity.Matching(middle) + IfMatching(seen[n]);
      hide IfMatching, FrameIntegrity.Matching;
      MatchingFront(seen[..n]);
      assert seen[..n][1..] == middle;
      AppendAssociates(IfMatching(seen[0]), FrameIntegrity.Matching(middle), IfMatching(seen[n]));
    }
  }

  /** Whatever frames follow those it has seen. */
  lemma {:induction false} MatchingIsAccepted(seen: seq<Server.Sighting>, rest: seq<Frame>, gen: nat, k: nat)
    requires k <= |seen|
    ensures FrameIntegrity.Matching(seen[k..]) ==
            Socket.Accepted(FrameIntegrity.FramesSeen(seen[k..]) + rest, Glimpses(seen, gen), gen, k)
    decreases |seen| - k
  {
    var frames := FrameIntegrity.FramesSeen(seen[k..]) + rest;
    if k < |seen| {
      MatchingIsAccepted(seen, rest, gen, k + 1);
      MatchingFront(seen[k..]);
      assert seen[k..][1..] == seen[k + 1..];
      assert frames[1..] == FrameIntegrity.FramesSeen(seen[k + 1..]) + rest;
    }
  }

  /** What a handler has written to `latest`, in order. */
  function Written(h: Server.Handler): seq<Option<Frame>> {
    Socket.Writes(h.published) + if h.cleared then [None] else []
  }

  /** In every interleaving, on all the bytes its client has sent and with the geometries it saw: what a
      handler thread has published, and is about to, is what the `read_frames` loop accepts; and what a
      finished one wrote, the clear that closes it included, is what the loop writes. The pass it left on
      is the first that may see another generation. */
  lemma HandlersRunReadFrames(events: seq<Server.Event>, h: nat)
    requires Server.Run(Server.INITIAL, events) && h < |Server.Exec(Server.INITIAL, events).handlers|
    ensures var t := Server.Exec(Server.INITIAL, events);
            t.handlers[h].conn < |t.connections|
            && ReadsLikeTheLoop(t.handlers[h], t.connections[t.handlers[h].conn].received)
            && FrameIntegrity.PublishesBySize(t.handlers[h])
  {
    FrameIntegrity.FrameInvAlways(Server.INITIAL, events);
    var t := Server.Exec(Server.INITIAL, events);
    TrackedHandlerReads(t.handlers[h], t.connections[t.handlers[h].conn].received);
    FrameIntegrity.MatchingTakesBySize(t.handlers[h].seen);
  }

  predicate ReadsLikeTheLoop(h: Server.Handler, received: seq<Byte>) {
    var accepted := Socket.Accepted(Frames(received), Glimpses(h.seen, h.generation), h.generation, 0);
    var generationAtExit := if h.cleared then h.generation else h.generation + 1;
    && h.published + (if h.progress.AtPublish? then [h.progress.frame] else []) == accepted
    && (h.progress.Finished? ==>
          Written(h) == Socket.Writes(accepted) + if generationAtExit == h.generation then [None] else [])
    && (h.cleared ==> h.progress.Finished?)
  }

  lemma TrackedHandlerReads(h: Server.Handler, received: seq<Byte>)
    requires FrameIntegrity.Tracks(h, received)
    ensures ReadsLikeTheLoop(h, received)
  {
    FrameIntegrity.SeenAreFrames(h, received);
    var fs := FrameIntegrity.FramesSeen(h.seen);
    var rest := Frames(received)[|fs|..];
    MatchingIsAccepted(h.seen, rest, h.generation, 0);
    assert h.seen[0..] == h.seen;
    assert fs + rest == Frames(received);
    if !h.progress.AtPublish? {
      assert h.published + [] == h.published;
    }
    hide Socket.Accepted, Frames, EncodeAll, FrameIntegrity.Matching, FrameIntegrity.BuffersTrack, Glimpses,
         Socket.Writes;
  }

  // ---- repaints ----

  predicate InRange(indices: seq<nat>, n: nat) {
    forall k :: 0 <= k < |indices| ==> indices[k] < n
  }

  predicate NoRepeats(indices: seq<nat>) {
    forall i, j :: 0 <= i < j < |indices| ==> indices[i] != indices[j]
  }

  /** A repaint from its first surface on. */
  lemma {:induction false} RedrawnFront(ui: Ui, indices: seq<nat>, scene: Scene)
    requires indices != [] && InRange(indices, |ui.surfaces|)
    ensures Redrawn(ui, indices, scene) ==
            Redrawn(RenderSurface(ui, indices[0], SeenAt(scene, indices[0]), PaintAt(scene, indices[0])),
                    indices[1..], scene)
  {
    hide RenderSurface;
    var n := |indices| - 1;
    if n == 0 {
      assert indices[..0] == indices[1..] == [];
    } else {
      RedrawnFront(ui, indices[..n], scene);
      assert indices[..n][1..] == indices[1..][..n - 1];
    }
  }

  /** A repaint looks at the scene only where it paints. */
  lemma {:induction false} SceneElsewhere(ui: Ui, indices: seq<nat>, a: Scene, b: Scene)
    requires InRange(indices, |ui.surfaces|)
    requires forall k :: 0 <= k < |indices| ==>
             SeenAt(a, indices[k]) == SeenAt(b, indices[k]) && PaintAt(a, indices[k]) == PaintAt(b, indices[k])
    ensures Redrawn(ui, indices, a) == Redrawn(ui, indices, b)
  {
    hide RenderSurface;
    if indices != [] {
      SceneElsewhere(ui, indices[..|indices| - 1], a, b);
    }
  }

  function SceneWith(scene: Scene, i: nat, latest: Option<Frame>, paint: Render.Paint): (r: Scene)
    ensures SeenAt(r, i) == latest && PaintAt(r, i) == paint
    ensures forall k :: k != i ==> SeenAt(r, k) == SeenAt(scene, k) && PaintAt(r, k) == PaintAt(scene, k)
  {
    Scene((k: nat) => if k == i then latest else scene.sees(k), (k: nat) => if k == i then paint else scene.paints(k))
  }

  /** Steps that can come between a handler and the end of its repaint. */
  predicate DuringRepaint(e: System.Event) {
    e.RenderNext? || e.Serve? || e.Worker?
  }

  lemma RenderThenRedrawn(ui: Ui, indices: seq<nat>, done: nat, latest: Option<Frame>, paint: Render.Paint,
                          later: Scene)
    requires 0 < done <= |indices| && InRange(indices, |ui.surfaces|) && NoRepeats(indices)
    ensures Redrawn(ui, indices[..done], SceneWith(later, indices[0], latest, paint))
            == Redrawn(RenderSurface(ui, indices[0], latest, paint), indices[1..][..done - 1], later)
  {
    var scene, next := SceneWith(later, indices[0], latest, paint), RenderSurface(ui, indices[0], latest, paint);
    hide RenderSurface, Redrawn, SceneWith;
    assert indices[..done][1..] == indices[1..][..done - 1];
    RedrawnFront(ui, indices[..done], scene);
    SceneElsewhere(next, indices[1..][..done - 1], scene, later);
  }

  lemma RenderStep(s: System.State, e: System.Event)
    requires System.Enabled(s, e) && e.RenderNext? && InRange(s.redraw, |s.ui.surfaces|) && NoRepeats(s.redraw)
    ensures var t := System.Step(s, e);
            && s.redraw != [] && t.redraw == s.redraw[1..] && InRange(t.redraw, |t.ui.surfaces|) && NoRepeats(t.redraw)
            && t.ui == RenderSurface(s.ui, s.redraw[0], s.server.latest, e.paint)
  {
    hide RenderSurface;
  }

  lemma OtherStepDuringRepaint(s: System.State, e: System.Event)
    requires System.Enabled(s, e) && DuringRepaint(e) && !e.RenderNext?
    ensures System.Step(s, e).ui == s.ui && System.Step(s, e).redraw == s.redraw
  {
  }

  /** From `s` to `t` the front part of the repaint was carried out, on that scene. */
  predicate Repainted(s: System.State, t: System.State, scene: Scene) {
    InRange(s.redraw, |s.ui.surfaces|)
    && var done := |s.redraw| - |t.redraw|;
       && done >= 0 && t.redraw == s.redraw[done..]
       && t.ui == Redrawn(s.ui, s.redraw[..done], scene)
  }

  lemma NothingRepainted(s: System.State, scene: Scene)
    requires InRange(s.redraw, |s.ui.surfaces|)
    ensures Repainted(s, s, scene)
  {
    assert s.redraw[0..] == s.redraw && s.redraw[..0] == [];
  }

  lemma RenderThenRepainted(s: System.State, e: System.Event, t: System.State, later: Scene)
    requires System.Enabled(s, e) && e.RenderNext? && InRange(s.redraw, |s.ui.surfaces|) && NoRepeats(s.redraw)
    requires Repainted(System.Step(s, e), t, later)
    ensures Repainted(s, t, SceneWith(later, s.redraw[0], s.server.latest, e.paint))
  {
    RenderStep(s, e);
    hide System.Step, System.Enabled, Redrawn, RenderSurface, SceneWith, NoRepeats;
    var done := |s.redraw| - |t.redraw|;
    assert s.redraw[1..][done - 1..] == s.redraw[done..];
    RenderThenRedrawn(s.ui, s.redraw, done, s.server.latest, e.paint, later);
  }

  /** No thread of the socket takes a step. */
  predicate Undisturbed(events: seq<System.Event>) {
    forall i :: 0 <= i < |events| ==> !events[i].Serve?
  }

  /** Every surface repainted so far found the same `latest`. */
  predicate FoundThroughout(s: System.State, left: nat, scene: Scene) {
    forall k :: 0 <= k < |s.redraw| - left ==> SeenAt(scene, s.redraw[k]) == s.server.latest
  }

  /** The k-th surface of the repaint got the k-th paint. */
  ghost predicate PaintedInTurn(s: System.State, left: nat, events: seq<System.Event>, scene: Scene) {
    && |s.redraw| - left <= |Paints(events)|
    && forall k :: 0 <= k < |s.redraw| - left ==> PaintAt(scene, s.redraw[k]) == Paints(events)[k]
  }

  lemma NothingFound(s: System.State, scene: Scene)
    ensures FoundThroughout(s, |s.redraw|, scene) && PaintedInTurn(s, |s.redraw|, [], scene)
  {
  }

  lemma RenderThenPainted(s: System.State, events: seq<System.Event>, left: nat, later: Scene)
    requires events != [] && events[0].RenderNext? && System.Enabled(s, events[0]) && NoRepeats(s.redraw)
    requires PaintedInTurn(System.Step(s, events[0]), left, events[1..], later)
    ensures PaintedInTurn(s, left, events, SceneWith(later, s.redraw[0], s.server.latest, events[0].paint))
  {
    hide RenderSurface;
    var next := System.Step(s, events[0]);
    assert next.redraw == s.redraw[1..];
    hide System.Step, System.Enabled;
    var scene := SceneWith(later, s.redraw[0], s.server.latest, events[0].paint);
    assert Paints(events) == [events[0].paint] + Paints(events[1..]);
    hide Paints;
    forall k | 0 <= k < |s.redraw| - left ensures PaintAt(scene, s.redraw[k]) == Paints(events)[k] {
      if k > 0 {
        assert s.redraw[k] == next.redraw[k - 1] && s.redraw[0] != s.redraw[k];
        assert PaintAt(later, next.redraw[k - 1]) == Paints(events[1..])[k - 1];
      }
    }
  }

  lemma OtherThenPainted(s: System.State, events: seq<System.Event>, left: nat, scene: Scene)
    requires events != [] && System.Enabled(s, events[0]) && DuringRepaint(events[0]) && !events[0].RenderNext?
    requires PaintedInTurn(System.Step(s, events[0]), left, events[1..], scene)
    ensures PaintedInTurn(s, left, events, scene)
  {
    var next := System.Step(s, events[0]);
    assert next.redraw == s.redraw;
    assert Paints(events) == Paints(events[1..]);
    hide System.Step, System.Enabled, Paints;
  }

  lemma RenderThenFound(s: System.State, events: seq<System.Event>, left: nat, later: Scene)
    requires events != [] && events[0].RenderNext? && System.Enabled(s, events[0])
    requires Undisturbed(events[1..]) ==> FoundThroughout(System.Step(s, events[0]), left, later)
    ensures Undisturbed(events) ==>
              FoundThroughout(s, left, SceneWith(later, s.redraw[0], s.server.latest, events[0].paint))
  {
    hide RenderSurface;
    var next := System.Step(s, events[0]);
    assert next.redraw == s.redraw[1..] && next.server == s.server;
    hide System.Step, System.Enabled;
    if Undisturbed(events) {
      var scene := SceneWith(later, s.redraw[0], s.server.latest, events[0].paint);
      forall k | 0 <= k < |s.redraw| - left ensures SeenAt(scene, s.redraw[k]) == s.server.latest {
        if k > 0 {
          assert s.redraw[k] == next.redraw[k - 1];
        }
      }
    }
  }

  lemma OtherThenFound(s: System.State, events: seq<System.Event>, left: nat, scene: Scene)
    requires events != [] && System.Enabled(s, events[0]) && DuringRepaint(events[0]) && !events[0].RenderNext?
    requires Undisturbed(events[1..]) ==> FoundThroughout(System.Step(s, events[0]), left, scene)
    ensures Undisturbed(events) ==> FoundThroughout(s, left, scene)
  {
    assert !events[0].Serve? ==>
           System.Step(s, events[0]).redraw == s.redraw && System.Step(s, events[0]).server == s.server;
    hide System.Step, System.Enabled;
  }

  /** However the socket's threads and the PAM worker interleave with it, the repaint a callback owes is
      `Redrawn` for some scene: what each surface found in `latest`, and was painted, at its turn. */
  lemma {:induction false} RepaintIsRedrawn(s: System.State, events: seq<System.Event>) returns (scene: Scene)
    requires System.Run(s, events) && (forall i :: 0 <= i < |events| ==> DuringRepaint(events[i]))
    requires InRange(s.redraw, |s.ui.surfaces|) && NoRepeats(s.redraw)
    ensures Repainted(s, System.Exec(s, events), scene)
    ensures Undisturbed(events) ==> FoundThroughout(s, |System.Exec(s, events).redraw|, scene)
    ensures PaintedInTurn(s, |System.Exec(s, events).redraw|, events, scene)
    decreases |events|
  {
    hide System.Enabled, System.Step, InRange, NoRepeats, Repainted, Undisturbed, FoundThroughout, PaintedInTurn;
    if events == [] {
      scene := Scene((k: nat) => None, (k: nat) => Render.Paint([], [], n => 0));
      NothingRepainted(s, scene);
      NothingFound(s, scene);
    } else if events[0].RenderNext? {
      RenderStep(s, events[0]);
      var later := RepaintIsRedrawn(System.Step(s, events[0]), events[1..]);
      RenderThenRepainted(s, events[0], System.Exec(s, events), later);
      scene := SceneWith(later, s.redraw[0], s.server.latest, events[0].paint);
      RenderThenFound(s, events, |System.Exec(s, events).redraw|, later);
      RenderThenPainted(s, events, |System.Exec(s, events).redraw|, later);
    } else {
      assert DuringRepaint(events[0]);
      OtherStepDuringRepaint(s, events[0]);
      scene := RepaintIsRedrawn(System.Step(s, events[0]), events[1..]);
      OtherStepKeepsRepainted(s, System.Step(s, events[0]), System.Exec(s, events), scene);
      OtherThenFound(s, events, |System.Exec(s, events).redraw|, scene);
      OtherThenPainted(s, events, |System.Exec(s, events).redraw|, scene);
    }
  }

  lemma OtherStepKeepsRepainted(s: System.State, next: System.State, t: System.State, scene: Scene)
    requires next.ui == s.ui && next.redraw == s.redraw && Repainted(next, t, scene)
    ensures Repainted(s, t, scene)
  {
  }

  // ---- every repaint that is owed can be carried out ----

  lemma CallbackRepaintsInRange(ui: Ui, e: Callback)
    requires MayHappen(ui, e)
    ensures var effect := Handle(ui, e);
            InRange(effect.redraw, |effect.ui.surfaces|) && NoRepeats(effect.redraw)
  {
    hide Locked, AddSurface, AddSurfaces;
    SessionIndicesExactly(ui.surfaces);
    assert Indices(0) == [];
  }

  /** A key repaints the locks at most once: the second repaint belongs to a failed delivery. */
  lemma KeyRepaintsOnce(s: System.State, key: Auth.KeyEvent, now: Auth.Time, later: Auth.Time)
    requires AuthMachine.Inv(s.auth) && System.Enabled(s, System.Key(key, now, later))
    ensures var t := System.Step(s, System.Key(key, now, later));
            t.redraw == [] || t.redraw == SessionIndices(s.ui.surfaces)
  {
    var redraws := Auth.PressKey(s.auth.fields, key, now, later, !s.auth.worker.Gone?).redraws;
    assert redraws <= 1;
    hide AuthMachine.Inv, Auth.PressKey, SessionIndices;
    OnceOrNever(SessionIndices(s.ui.surfaces), redraws);
  }

  lemma OnceOrNever(indices: seq<nat>, times: nat)
    requires times <= 1
    ensures System.Repeat(indices, times) == if times == 0 then [] else indices
  {
    assert indices + [] == indices;
  }

  predicate RepaintInv(s: System.State) {
    InRange(s.redraw, |s.ui.surfaces|) && NoRepeats(s.redraw)
  }

  lemma StepKeepsRepaintInv(s: System.State, e: System.Event)
    requires System.SystemInv(s) && RepaintInv(s) && System.Enabled(s, e)
    ensures RepaintInv(System.Step(s, e))
  {
    SessionIndicesExactly(s.ui.surfaces);
    hide System.SystemInv, SessionIndices, Handle, RenderSurface, Auth.PressKey, AuthMachine.Step, AuthMachine.Enabled;
    match e
    case Key(key, now, later) => KeyStepKeepsRepaintInv(s, key, now, later);
    case RenderNext(_) => RenderStep(s, e);
    case Display(callback) => CallbackRepaintsInRange(s.ui, callback);
    case _ =>
  }

  lemma KeyStepKeepsRepaintInv(s: System.State, key: Auth.KeyEvent, now: Auth.Time, later: Auth.Time)
    requires System.SystemInv(s) && System.Enabled(s, System.Key(key, now, later))
    ensures RepaintInv(System.Step(s, System.Key(key, now, later)))
  {
    hide AuthMachine.Inv, System.LockInv, System.StreamedInv, FrameIntegrity.FrameInv, OneClient.AcceptInv;
    KeyRepaintsOnce(s, key, now, later);
    SessionIndicesExactly(s.ui.surfaces);
    hide SessionIndices, Auth.PressKey, AuthMachine.Step, AuthMachine.Enabled;
  }

  lemma {:induction false} RepaintInvAlways(s: System.State, events: seq<System.Event>)
    requires System.SystemInv(s) && RepaintInv(s) && System.Run(s, events)
    ensures RepaintInv(System.Exec(s, events))
    decreases |events|
  {
    hide System.SystemInv, RepaintInv;
    if events != [] {
      StepKeepsRepaintInv(s, events[0]);
      System.StepKeepsSystemInv(s, events[0]);
      RepaintInvAlways(System.Step(s, events[0]), events[1..]);
    }
  }

  /** In every run the surfaces still to be repainted exist, none is listed twice, and the next one can
      be rendered; no callback leaves an index behind that a removal has made stale. */
  lemma RepaintsNeverGoStale(story: SystemTheorems.Story, paint: Render.Paint)
    ensures var t := SystemTheorems.End(story);
            && RepaintInv(t)
            && (t.redraw != [] && t.auth.exit == None ==> System.Enabled(t, System.RenderNext(paint)))
  {
    System.StartKeepsSystemInv(story.setup.kioskOutputs, story.setup.socketPath, story.setup.daemonReady);
    hide System.SystemInv, System.Step;
    RepaintInvAlways(SystemTheorems.Begin(story.setup), story.events);
  }

  // ---- what repaints what ----

  predicate CallbackOwes(before: Ui, e: Callback, after: Ui, i: nat) {
    && i < |before.surfaces| <= |after.surfaces|
    && match e
       case SurfaceConfigured(x, _, _) => before.surfaces[i].surface == x
       case Change(_, _) => after.surfaces[i] != before.surfaces[i]
       case Modifiers(caps) => caps != before.capsLock && before.surfaces[i].role == Session
       case _ => false
  }

  /** Entry `i` is to be repainted after step `e` from `s` to `t`. */
  predicate Owes(s: System.State, e: System.Event, t: System.State, i: nat)
    requires System.Enabled(s, e)
  {
    match e
    case Key(key, now, _) =>
      && i < |s.ui.surfaces| && s.ui.surfaces[i].role == Session && Auth.Accepting(s.auth.fields, now)
      && (Auth.IsEdit(key) || (Auth.IsEnter(key) && s.auth.fields.password != ""))
    case Deliver(_) => i < |s.ui.surfaces| && s.ui.surfaces[i].role == Session && t.auth.exit == None
    case Tick(_) => i < |s.ui.surfaces|
    case Ping => i < |s.ui.surfaces|
    case Display(callback) => CallbackOwes(s.ui, callback, t.ui, i)
    case RenderNext(_) => i in s.redraw[1..]
    case _ => i in s.redraw
  }

  lemma ConfigureRepaints(ui: Ui, x: LockProtocol.SurfaceId, w: U32, h: U32, i: nat)
    requires Lifecycle.DisplayInv(ui)
    ensures i in Configure(ui, x, w, h).redraw <==> i < |ui.surfaces| && ui.surfaces[i].surface == x
    ensures |Configure(ui, x, w, h).ui.surfaces| == |ui.surfaces|
  {
    if i < |ui.surfaces| && ui.surfaces[i].surface == x {
      Lifecycle.SurfaceAt(ui, i);
    }
    hide Lifecycle.DisplayInv, KioskGeometry;
  }

  lemma ChangeRepaints(ui: Ui, o: LockProtocol.OutputId, i: nat)
    ensures var effect := UpdateOutput(ui, o);
            && (i in effect.redraw <==> i < |ui.surfaces| && effect.ui.surfaces[i] != ui.surfaces[i])
            && |ui.surfaces| <= |effect.ui.surfaces|
  {
    hide KioskGeometry, Name, Role, Scale;
  }

  lemma CallbackRepaints(ui: Ui, e: Callback, i: nat)
    requires Lifecycle.DisplayInv(ui) && MayHappen(ui, e)
    ensures i in Handle(ui, e).redraw <==> CallbackOwes(ui, e, Handle(ui, e).ui, i)
  {
    match e
    case SurfaceConfigured(x, w, h) => ConfigureRepaints(ui, x, w, h, i);
    case Change(o, details) => ChangeRepaints(ui.(info := ui.info[o := details]), o, i);
    case Modifiers(_) => SessionIndicesExactly(ui.surfaces);
    case _ =>
    hide Lifecycle.DisplayInv, Locked, AddSurface, KioskGeometry, UpdateOutput, Configure, SessionIndices;
  }

  lemma KeyRepaints(s: System.State, key: Auth.KeyEvent, now: Auth.Time, later: Auth.Time, i: nat)
    requires AuthMachine.Inv(s.auth) && System.Enabled(s, System.Key(key, now, later))
    ensures var t := System.Step(s, System.Key(key, now, later));
            i in t.redraw <==> Owes(s, System.Key(key, now, later), t, i)
  {
    assert s.auth.worker.Gone? ==> s.auth.fields.verifying;
    Auth.KeyExactly(s.auth.fields, key, now, later, !s.auth.worker.Gone?);
    var redraws := Auth.PressKey(s.auth.fields, key, now, later, !s.auth.worker.Gone?).redraws;
    assert redraws <= 1;
    OnceOrNever(SessionIndices(s.ui.surfaces), redraws);
    SessionIndicesExactly(s.ui.surfaces);
    hide AuthMachine.Inv, Auth.PressKey, SessionIndices, AuthMachine.Step, Auth.IsEdit, Auth.IsEnter, Auth.Edited;
  }

  /** In every run each step makes exactly these repaints due: an accepted key and a refusal those of all session
      entries, a tick and a ping those of all entries, a configure and a relabelling that of their entry, caps
      lock those of the session entries; and a repaint that is due stays so until it is done. */
  lemma RepaintsExactly(story: SystemTheorems.Story, e: System.Event, i: nat)
    requires System.Enabled(SystemTheorems.End(story), e)
    ensures var s := SystemTheorems.End(story);
            i in System.Step(s, e).redraw <==> Owes(s, e, System.Step(s, e), i)
  {
    hide SystemTheorems.End, System.SystemInv, Lifecycle.DisplayInv, AuthMachine.Run, AuthMachine.Exec;
    SystemTheorems.Reached(story);
    var s := SystemTheorems.End(story);
    InvariantsOf(s);
    assert i < |s.ui.surfaces| ==> Indices(|s.ui.surfaces|)[i] == i;
    hide SessionIndices, CallbackOwes, Handle, Auth.PressKey, RenderSurface, AuthMachine.Enabled, Auth.IsEdit,
         AuthMachine.Inv, Server.Step, Server.Enabled, Auth.Refuse, Auth.Sweep;
    match e
    case Key(key, now, later) => KeyRepaints(s, key, now, later, i);
    case Display(callback) => CallbackRepaints(s.ui, callback, i);
    case Deliver(_) => SessionIndicesExactly(s.ui.surfaces);
    case _ =>
  }

  lemma InvariantsOf(s: System.State)
    requires System.SystemInv(s)
    ensures AuthMachine.Inv(s.auth) && (s.auth.exit == None ==> Lifecycle.DisplayInv(s.ui))
  {
  }
}
