/** Every buffer that is committed is drawn in full: a client's frame, or what a painter returned. */
module Drawing {
  import opened Words
  import opened Wire
  import opened Render
  import opened LockProtocol
  import opened Outputs
  import opened FrameIntegrity
  import opened System
  import AuthMachine
  import opened Auth
  import Server

  // ---- sizes ----

  /** Surfaces have the sizes of buffers; before the first configure, none. */
  predicate SizesFit(ui: Ui) {
    forall i :: 0 <= i < |ui.surfaces| ==> BufferSized(ui.surfaces[i].width, ui.surfaces[i].height)
  }

  lemma {:induction false} AddAllKeepsSizes(ui: Ui, os: seq<OutputId>)
    requires SizesFit(ui)
    ensures SizesFit(AddSurfaces(ui, os))
  {
    hide IndexOfOutput;
    if os != [] {
      AddAllKeepsSizes(ui, os[..|os| - 1]);
    }
  }

  lemma HandleKeepsSizes(ui: Ui, e: Callback)
    requires SizesFit(ui) && MayHappen(ui, e)
    ensures SizesFit(Handle(ui, e).ui)
  {
    hide KioskGeometry, IndexOfOutput, IndexOfSurface, SessionIndices, BufferSized, SessionFirst;
    assert BufferSized(0, 0) by { NoSizeIsASize(); }
    if e.Confirm? {
      var held := Send(ui, LockConfirmed).(lock := Held, socketPath := None);
      AddAllKeepsSizes(held, SessionFirst(held, held.known));
      hide AddSurfaces;
    }
  }

  lemma NoSizeIsASize()
    ensures BufferSized(0, 0)
  {
  }

  lemma StepKeepsSizes(s: State, e: Event)
    requires SizesFit(s.ui) && Enabled(s, e)
    ensures SizesFit(Step(s, e).ui)
  {
    hide Handle, PressKey, AuthMachine.Step, AuthMachine.Enabled, Server.Step, Server.Enabled, RenderSurface,
         BufferSized;
    if e.Display? {
      HandleKeepsSizes(s.ui, e.callback);
    }
  }

  // ---- commits ----

  /** What the painters returned, render by render. */
  function Paints(events: seq<Event>): seq<Paint> {
    if events == [] then []
    else (if events[0].RenderNext? then [events[0].paint] else []) + Paints(events[1..])
  }

  /** `pixels` is the swizzle of what a painter returned, when first asked or for the fallback. */
  predicate PaintedWith(pixels: seq<Byte>, paint: Paint) {
    || (|paint.content| % 4 == 0 && pixels == Swizzle(paint.content))
    || (|paint.fallback| % 4 == 0 && pixels == Swizzle(paint.fallback))
  }

  /** No byte is left as the canvas held it: the pixels are a client's frame, or what one of `paints` was. */
  ghost predicate FullyDrawn(server: Server.State, paints: seq<Paint>, m: Message)
    requires m.Commit?
  {
    if m.streamed then ShowsClientFrame(server, m)
    else exists k :: 0 <= k < |paints| && PaintedWith(m.pixels, paints[k])
  }

  lemma RenderPaints(ui: Ui, i: nat, latest: Option<Frame>, paint: Paint)
    requires i < |ui.surfaces| && BufferSized(ui.surfaces[i].width, ui.surfaces[i].height)
    ensures var after := RenderSurface(ui, i, latest, paint).traffic;
            && ui.traffic <= after && |after| <= |ui.traffic| + 1
            && (after != ui.traffic && !after[|ui.traffic|].streamed ==>
                  after[|ui.traffic|].Commit? && PaintedWith(after[|ui.traffic|].pixels, paint))
  {
    var e := ui.surfaces[i];
    var streamed := Streamed(e.role == Kiosk, e.width, e.height, latest);
    var rgba := Chosen(e.width, e.height, streamed, paint);
    SizesAreMultiplesOfFour(e.width, e.height);
    if rgba.Some? {
      assert |rgba.value| == PixelBytes(e.width, e.height);
      FullBlitIsSwizzle(rgba.value, paint.stale);
    }
    hide Blit, Swizzle, BufferSized;
  }

  /** The commits from `from` on that are not streamed are painted with one of `paints`. */
  predicate PaintedSince(traffic: seq<Message>, from: nat, paints: seq<Paint>) {
    forall i :: from <= i < |traffic| && traffic[i].Commit? && !traffic[i].streamed ==>
      exists k :: 0 <= k < |paints| && PaintedWith(traffic[i].pixels, paints[k])
  }

  lemma StepPaints(s: State, e: Event)
    requires SizesFit(s.ui) && FrameInv(s.server) && Enabled(s, e)
    ensures s.ui.traffic <= Step(s, e).ui.traffic
    ensures PaintedSince(Step(s, e).ui.traffic, |s.ui.traffic|, if e.RenderNext? then [e.paint] else [])
  {
    hide Handle, PressKey, AuthMachine.Step, AuthMachine.Enabled, Server.Step, Server.Enabled, RenderSurface,
         PaintedWith;
    if e.RenderNext? {
      RenderPaints(s.ui, s.redraw[0], s.server.latest, e.paint);
      assert [e.paint][0] == e.paint;
    } else if e.Display? {
      CallbacksCommitNothing(s.ui, e.callback);
    }
  }

  lemma PaintedLater(before: seq<Message>, after: seq<Message>, from: nat, first: seq<Paint>, more: seq<Paint>)
    requires from <= |before| && before <= after
    requires PaintedSince(before, from, first) && PaintedSince(after, |before|, more)
    ensures PaintedSince(after, from, first + more)
  {
    hide PaintedWith;
    forall i | from <= i < |after| && after[i].Commit? && !after[i].streamed
      ensures exists k :: 0 <= k < |first + more| && PaintedWith(after[i].pixels, (first + more)[k])
    {
      if i < |before| {
        var k :| 0 <= k < |first| && PaintedWith(before[i].pixels, first[k]);
        assert (first + more)[k] == first[k];
      } else {
        var k :| 0 <= k < |more| && PaintedWith(after[i].pixels, more[k]);
        assert (first + more)[|first| + k] == more[k];
      }
    }
  }

  lemma {:induction false} RunPaints(s: State, events: seq<Event>)
    requires SystemInv(s) && SizesFit(s.ui) && Run(s, events)
    ensures s.ui.traffic <= Exec(s, events).ui.traffic && SizesFit(Exec(s, events).ui)
    ensures PaintedSince(Exec(s, events).ui.traffic, |s.ui.traffic|, Paints(events))
    decreases |events|
  {
    hide SystemInv, SizesFit, PaintedSince, Step, Enabled;
    if events == [] {
      NothingPainted(s.ui.traffic);
    } else {
      var e := events[0];
      FramesOf(s);
      StepPaints(s, e);
      StepKeepsSizes(s, e);
      StepKeepsSystemInv(s, e);
      RunPaints(Step(s, e), events[1..]);
      PaintedLater(Step(s, e).ui.traffic, Exec(s, events).ui.traffic, |s.ui.traffic|,
                   if e.RenderNext? then [e.paint] else [], Paints(events[1..]));
    }
  }

  lemma FramesOf(s: State)
    requires SystemInv(s)
    ensures FrameInv(s.server)
  {
  }

  lemma NothingPainted(traffic: seq<Message>)
    ensures PaintedSince(traffic, |traffic|, [])
  {
  }
}
