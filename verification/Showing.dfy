/** What a surface shows after a repaint: on a kiosk the latest accepted frame if it has exactly the
    surface's size, and what was painted otherwise. */
module Showing {
  import opened Words
  import opened Wire
  import opened Render
  import opened LockProtocol
  import opened Outputs
  import opened Refinement
  import opened Drawing
  import opened SystemTheorems
  import System
  import AuthMachine
  import OneClient
  import FrameIntegrity

  /** The last commit on a surface while it lasts: what is on the output. */
  function Shown(traffic: seq<Message>, s: SurfaceId): Option<Message> {
    if traffic == [] then None
    else
      match traffic[|traffic| - 1]
      case Commit(t, _, _, _) => if t == s then Some(traffic[|traffic| - 1]) else Shown(traffic[..|traffic| - 1], s)
      case CreateLockSurface(t, _) => if t == s then None else Shown(traffic[..|traffic| - 1], s)
      case DestroyLockSurface(t) => if t == s then None else Shown(traffic[..|traffic| - 1], s)
      case UnlockAndDestroy => None
      case _ => Shown(traffic[..|traffic| - 1], s)
  }

  /** What rendering an entry puts on its output. */
  function Picture(e: Entry, latest: Option<Frame>, paint: Paint): Option<Message> {
    var kiosk := e.role == Kiosk;
    match Committed(kiosk, e.width, e.height, latest, paint)
    case None => None
    case Some(buffer) =>
      var streamed := Streamed(kiosk, e.width, e.height, latest);
      Some(Commit(e.surface, Size(e.width, e.height), buffer,
                  streamed.Some? && |streamed.value.rgba| == WrappedSize(e.width, e.height)))
  }

  lemma RenderShows(ui: Ui, i: nat, latest: Option<Frame>, paint: Paint, s: SurfaceId)
    requires i < |ui.surfaces|
    ensures Shown(RenderSurface(ui, i, latest, paint).traffic, s) ==
            if ui.surfaces[i].surface == s && Picture(ui.surfaces[i], latest, paint).Some?
            then Picture(ui.surfaces[i], latest, paint) else Shown(ui.traffic, s)
  {
    hide Committed, Streamed, WrappedSize;
    var after := RenderSurface(ui, i, latest, paint).traffic;
    if after != ui.traffic {
      assert after[..|after| - 1] == ui.traffic;
    }
  }

  /** After a repaint every repainted surface shows what it found and was painted at its turn, or, when
      nothing fitted it, what it showed before. */
  lemma {:induction false} RedrawnShows(ui: Ui, indices: seq<nat>, scene: Scene, k: nat)
    requires InRange(indices, |ui.surfaces|) && NoRepeats(indices) && SurfacesDistinct(ui.surfaces) && k < |indices|
    ensures var e := ui.surfaces[indices[k]];
            var picture := Picture(e, SeenAt(scene, indices[k]), PaintAt(scene, indices[k]));
            Shown(Redrawn(ui, indices, scene).traffic, e.surface) ==
            if picture.Some? then picture else Shown(ui.traffic, e.surface)
  {
    hide RenderSurface, Picture, Shown;
    var before, last := indices[..|indices| - 1], indices[|indices| - 1];
    var mid := Redrawn(ui, before, scene);
    RenderShows(mid, last, SeenAt(scene, last), PaintAt(scene, last), ui.surfaces[indices[k]].surface);
    if k < |before| {
      RedrawnShows(ui, before, scene, k);
    } else {
      UntouchedKeepsShowing(ui, before, scene, last);
    }
  }

  lemma {:induction false} UntouchedKeepsShowing(ui: Ui, indices: seq<nat>, scene: Scene, i: nat)
    requires InRange(indices, |ui.surfaces|) && SurfacesDistinct(ui.surfaces) && i < |ui.surfaces| && i !in indices
    ensures Shown(Redrawn(ui, indices, scene).traffic, ui.surfaces[i].surface) ==
            Shown(ui.traffic, ui.surfaces[i].surface)
  {
    hide RenderSurface, Picture, Shown;
    if indices != [] {
      var before, last := indices[..|indices| - 1], indices[|indices| - 1];
      UntouchedKeepsShowing(ui, before, scene, i);
      RenderShows(Redrawn(ui, before, scene), last, SeenAt(scene, last), PaintAt(scene, last), ui.surfaces[i].surface);
    }
  }

  /** What belongs on an output: nothing new as long as its surface has no size; on a kiosk an accepted
      frame of exactly its size; else what was painted, if that has the right size; else the lock screen
      painted in its place, likewise; else what was there before. */
  function Rightful(e: Entry, latest: Option<Frame>, paint: Paint, before: Option<Message>): Option<Message>
    requires latest.Some? ==> WellFormed(latest.value)
  {
    SizesAreMultiplesOfFour(e.width, e.height);
    var size := PixelBytes(e.width, e.height);
    if size == 0 then before
    else if e.role == Kiosk && latest.Some? && latest.value.width == e.width && latest.value.height == e.height then
      Some(Commit(e.surface, Size(e.width, e.height), Swizzle(latest.value.rgba), true))
    else if |paint.content| == size then Some(Commit(e.surface, Size(e.width, e.height), Swizzle(paint.content), false))
    else if |paint.fallback| == size then
      Some(Commit(e.surface, Size(e.width, e.height), Swizzle(paint.fallback), false))
    else before
  }

  lemma PictureOf(e: Entry, latest: Option<Frame>, paint: Paint, before: Option<Message>)
    requires latest.Some? ==> WellFormed(latest.value)
    requires BufferSized(e.width, e.height)
    ensures Rightful(e, latest, paint, before) ==
            if Picture(e, latest, paint).Some? then Picture(e, latest, paint) else before
  {
    SizesAreMultiplesOfFour(e.width, e.height);
    var size := PixelBytes(e.width, e.height);
    assert size == 0 <==> e.width == 0 || e.height == 0;
    assert WrappedSize(e.width, e.height) == size;
    var streamed := Streamed(e.role == Kiosk, e.width, e.height, latest);
    if streamed.Some? {
      StreamedFrameIsCommittedWhole(latest.value, paint);
      AcceptedFrameNeverWraps(latest.value);
    } else {
      if |paint.content| == size {
        FullBlitIsSwizzle(paint.content, paint.stale);
      }
      if |paint.fallback| == size {
        FullBlitIsSwizzle(paint.fallback, paint.stale);
      }
    }
    hide Swizzle, Blit, BufferSized, WrappedSize, PixelBytes;
  }

  /** From a state that owes a repaint to one that has carried it out. */
  predicate RepaintRun(s: System.State, repaint: seq<System.Event>) {
    System.Run(s, repaint) && (forall i :: 0 <= i < |repaint| ==> DuringRepaint(repaint[i]))
    && System.Exec(s, repaint).redraw == []
  }

  lemma SameSurfaces(ui: Ui, indices: seq<nat>, scene: Scene)
    requires InRange(indices, |ui.surfaces|)
    ensures Redrawn(ui, indices, scene).surfaces == ui.surfaces
  {
  }

  lemma RepaintShows(s: System.State, repaint: seq<System.Event>) returns (scene: Scene)
    requires RepaintInv(s) && SurfacesDistinct(s.ui.surfaces) && RepaintRun(s, repaint)
    ensures System.Exec(s, repaint).ui.surfaces == s.ui.surfaces && |s.redraw| <= |Paints(repaint)|
    ensures forall k :: 0 <= k < |s.redraw| ==>
              var e := s.ui.surfaces[s.redraw[k]];
              var picture := Picture(e, SeenAt(scene, s.redraw[k]), PaintAt(scene, s.redraw[k]));
              && Shown(System.Exec(s, repaint).ui.traffic, e.surface)
                 == (if picture.Some? then picture else Shown(s.ui.traffic, e.surface))
              && (Undisturbed(repaint) ==> SeenAt(scene, s.redraw[k]) == s.server.latest)
              && PaintAt(scene, s.redraw[k]) == Paints(repaint)[k]
  {
    scene := RepaintIsRedrawn(s, repaint);
    hide System.Run, System.Exec, Redrawn, Picture, Shown;
    var t := System.Exec(s, repaint);
    assert s.redraw[..|s.redraw|] == s.redraw;
    SameSurfaces(s.ui, s.redraw, scene);
    forall k | 0 <= k < |s.redraw|
      ensures var e := s.ui.surfaces[s.redraw[k]];
              var picture := Picture(e, SeenAt(scene, s.redraw[k]), PaintAt(scene, s.redraw[k]));
              Shown(t.ui.traffic, e.surface) == if picture.Some? then picture else Shown(s.ui.traffic, e.surface)
    {
      RedrawnShows(s.ui, s.redraw, scene, k);
    }
  }

  lemma DistinctInRuns(story: Story)
    ensures RepaintInv(End(story))
    ensures End(story).auth.exit == None ==> SurfacesDistinct(End(story).ui.surfaces)
    ensures var latest := End(story).server.latest; latest.Some? ==> WellFormed(latest.value)
  {
    hide End, RepaintInv, System.SystemInv, System.Enabled, AuthMachine.Run, AuthMachine.Exec, SurfacesDistinct;
    Reached(story);
    RepaintsNeverGoStale(story, Paint([], [], n => 0));
    InvariantFacts(End(story));
  }

  lemma InvariantFacts(s: System.State)
    requires System.SystemInv(s)
    ensures s.auth.exit == None ==> SurfacesDistinct(s.ui.surfaces)
    ensures s.server.latest.Some? ==> WellFormed(s.server.latest.value)
  {
    if s.server.latest.Some? {
      FrameIntegrity.SentFramesAreWellFormed(s.server, s.server.latest.value);
    }
    hide AuthMachine.Inv, OneClient.AcceptInv, System.StreamedInv, EntriesInv, CoverageInv, FrameIntegrity.SentByClient,
         FrameIntegrity.Tracks, EntriesMirrored, LiveListed, After, Conforms;
  }

  /** What a kiosk output is for: once a repaint that no thread of the socket disturbed is through, every
      repainted surface shows what belongs on it. */
  lemma KioskShowsTheLatestFrame(story: Story, repaint: seq<System.Event>)
    requires End(story).auth.exit == None && RepaintRun(End(story), repaint) && Undisturbed(repaint)
    ensures var s := End(story);
            InRange(s.redraw, |s.ui.surfaces|) && |s.redraw| <= |Paints(repaint)|
            && (s.server.latest.Some? ==> WellFormed(s.server.latest.value))
    ensures var s := End(story);
            forall k :: 0 <= k < |s.redraw| ==>
              var e := s.ui.surfaces[s.redraw[k]];
              Shown(System.Exec(s, repaint).ui.traffic, e.surface)
              == Rightful(e, s.server.latest, Paints(repaint)[k], Shown(s.ui.traffic, e.surface))
  {
    DistinctInRuns(story);
    SizesInStories(story);
    var s := End(story);
    var scene := RepaintShows(s, repaint);
    hide End, Shown, System.Run, System.Exec, Picture, SurfacesDistinct, Paints, Rightful;
    var traffic := System.Exec(s, repaint).ui.traffic;
    forall k | 0 <= k < |s.redraw|
      ensures var e := s.ui.surfaces[s.redraw[k]];
              Shown(traffic, e.surface) ==
                  Rightful(e, s.server.latest, Paints(repaint)[k], Shown(s.ui.traffic, e.surface))
    {
      var e := s.ui.surfaces[s.redraw[k]];
      assert BufferSized(e.width, e.height);
      PictureOf(e, s.server.latest, Paints(repaint)[k], Shown(s.ui.traffic, e.surface));
    }
  }
}
