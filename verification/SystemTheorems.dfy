/** What every run of a nixlock process guarantees, whatever clients, outputs, keys, clocks and PAM do. */
module SystemTheorems {
  import opened Words
  import opened Wire
  import opened Render
  import opened LockProtocol
  import opened Outputs
  import opened Lifecycle
  import opened FrameIntegrity
  import opened Auth
  import opened System
  import opened Drawing
  import opened KioskCache
  import AuthMachine
  import AuthTheorems
  import Server
  import OneClient

  /** How a process is set up. */
  datatype Setup = Setup(kioskOutputs: seq<string>, socketPath: Option<string>, daemonReady: bool)

  function Begin(c: Setup): State {
    System.Start(c.kioskOutputs, c.socketPath, c.daemonReady)
  }

  datatype History = History(setup: Setup, events: seq<Event>)

  /** A run of a whole process, from its start. */
  type Story = story: History | Run(Begin(story.setup), story.events) witness History(Setup([], None, false), [])

  /** Where a story ends, so far. */
  function End(story: Story): State {
    Exec(Begin(story.setup), story.events)
  }

  lemma Reached(story: Story)
    ensures SystemInv(End(story))
    ensures AuthMachine.Run(AuthMachine.INITIAL, AuthPartOf(story.events))
    ensures End(story).auth == AuthMachine.Exec(AuthMachine.INITIAL, AuthPartOf(story.events))
  {
    hide SystemInv, Enabled, Step, AuthMachine.Enabled, AuthMachine.Step;
    StartKeepsSystemInv(story.setup.kioskOutputs, story.setup.socketPath, story.setup.daemonReady);
    SystemInvAlways(Begin(story.setup), story.events);
    AuthIsItsOwnMachine(Begin(story.setup), story.events);
  }

  /** Frames are never torn or mixed: every buffer a surface got from the socket is the exact BGRA
      swizzle of one complete frame at a frame boundary of one client's stream, of exactly the width and
      height the surface was last configured to. */
  lemma NoTornFrames(story: Story, i: nat)
    ensures var t := End(story);
            var traffic := t.ui.traffic;
            i < |traffic| && traffic[i].Commit? && traffic[i].streamed ==>
              && ShowsClientFrame(t.server, traffic[i])
              && LastConfigured(traffic[..i], traffic[i].surface) == Some(traffic[i].size)
  {
    hide End;
    Reached(story);
    var t := End(story);
    ConformanceOf(t);
    if i < |t.ui.traffic| && t.ui.traffic[i].Commit? {
      CommitsFitTheirSurface(t.ui.traffic, i);
    }
  }

  /** Frames go to kiosks alone: in every run, a render that adds a streamed commit is of a surface whose role
      is Kiosk and whose recorded name is configured as one. */
  lemma StreamedOnKiosksOnly(story: Story, paint: Paint)
    ensures var s := End(story);
            Enabled(s, RenderNext(paint)) ==>
              var t := Step(s, RenderNext(paint));
              var e := s.ui.surfaces[s.redraw[0]];
              |t.ui.traffic| > |s.ui.traffic| ==>
                && t.ui.traffic == s.ui.traffic + [t.ui.traffic[|s.ui.traffic|]]
                && t.ui.traffic[|s.ui.traffic|].Commit? && t.ui.traffic[|s.ui.traffic|].surface == e.surface
                && (t.ui.traffic[|s.ui.traffic|].streamed ==> e.role == Kiosk && e.name in s.ui.kioskOutputs)
  {
    hide End, RenderSurface, SystemInv, DisplayInv, AuthMachine.Run, AuthMachine.Exec;
    Reached(story);
    var s := End(story);
    if Enabled(s, RenderNext(paint)) {
      DisplayWhileRunning(s);
      RecordedRole(s.ui, s.redraw[0]);
      RenderStreams(s.ui, s.redraw[0], s.server.latest, paint);
    }
  }

  lemma RenderStreams(ui: Ui, i: nat, latest: Option<Frame>, paint: Paint)
    requires i < |ui.surfaces|
    ensures var after, e := RenderSurface(ui, i, latest, paint).traffic, ui.surfaces[i];
            |after| > |ui.traffic| ==>
              && after == ui.traffic + [after[|ui.traffic|]]
              && after[|ui.traffic|].Commit? && after[|ui.traffic|].surface == e.surface
              && (after[|ui.traffic|].streamed ==> e.role == Kiosk)
  {
    hide Committed, WrappedSize;
  }

  lemma RecordedRole(ui: Ui, i: nat)
    requires DisplayInv(ui) && i < |ui.surfaces|
    ensures ui.surfaces[i].role == Kiosk <==> ui.surfaces[i].name in ui.kioskOutputs
  {
  }

  lemma ConformanceOf(s: State)
    requires SystemInv(s)
    ensures Conforms(s.ui.traffic)
  {
  }

  /** No run provokes a protocol error: no surface is committed before its first configure, every commit
      has exactly the pixels of the size last configured whatever the painters returned, no output gets a
      second surface, and the unlock is sent at most once, last, and only after confirmation. And every
      buffer is drawn in full: its pixels are a client's frame, or what one of the painters returned. */
  lemma NoProtocolError(story: Story)
    ensures var t := End(story);
            var traffic := t.ui.traffic;
            && Conforms(traffic)
            && (forall i :: 0 <= i < |traffic| && traffic[i].Commit? ==>
                  && LastConfigured(traffic[..i], traffic[i].surface) == Some(traffic[i].size)
                  && |traffic[i].pixels| == traffic[i].size.width * traffic[i].size.height * 4
                  && FullyDrawn(t.server, Paints(story.events), traffic[i]))
            && (forall i :: 0 <= i < |traffic| && traffic[i] == UnlockAndDestroy ==>
                  i == |traffic| - 1 && LockConfirmed in traffic[..i])
  {
    hide End;
    Reached(story);
    DrawnInRuns(story);
    ConformanceOf(End(story));
    hide SystemInv;
    var t := End(story);
    var traffic := t.ui.traffic;
    forall i | 0 <= i < |traffic| && traffic[i].Commit?
      ensures LastConfigured(traffic[..i], traffic[i].surface) == Some(traffic[i].size)
      ensures |traffic[i].pixels| == traffic[i].size.width * traffic[i].size.height * 4
    {
      CommitsFitTheirSurface(traffic, i);
    }
    forall i | 0 <= i < |traffic| && traffic[i] == UnlockAndDestroy
      ensures i == |traffic| - 1 && LockConfirmed in traffic[..i] {
      OneUnlockAfterConfirmation(traffic, i);
    }
  }

  lemma DrawnInRuns(story: Story)
    ensures var t := End(story);
            forall i :: 0 <= i < |t.ui.traffic| && t.ui.traffic[i].Commit? ==>
              FullyDrawn(t.server, Paints(story.events), t.ui.traffic[i])
  {
    hide SystemInv, SizesFit, Run, Exec, Paints, FullyDrawn, PaintedSince;
    Reached(story);
    BeginsUndrawn(story.setup);
    RunPaints(Begin(story.setup), story.events);
    StreamedInRuns(End(story));
    hide End;
    DrawnEitherWay(End(story).server, End(story).ui.traffic, Paints(story.events));
  }

  lemma SizesInStories(story: Story)
    ensures SizesFit(End(story).ui)
  {
    hide SystemInv, SizesFit, Run, Exec, Paints, PaintedSince;
    BeginsUndrawn(story.setup);
    RunPaints(Begin(story.setup), story.events);
  }

  lemma BeginsUndrawn(c: Setup)
    ensures SystemInv(Begin(c)) && SizesFit(Begin(c).ui) && Begin(c).ui.traffic == []
  {
    StartKeepsSystemInv(c.kioskOutputs, c.socketPath, c.daemonReady);
    hide SystemInv;
  }

  lemma DrawnEitherWay(server: Server.State, traffic: seq<Message>, paints: seq<Paint>)
    requires AllStreamedShown(server, traffic) && PaintedSince(traffic, 0, paints)
    ensures forall i :: 0 <= i < |traffic| && traffic[i].Commit? ==> FullyDrawn(server, paints, traffic[i])
  {
    hide ShowsClientFrame, PaintedWith;
  }

  lemma StreamedInRuns(s: State)
    requires SystemInv(s)
    ensures AllStreamedShown(s.server, s.ui.traffic)
  {
  }

  /** The single gate. The unlock request is in the traffic exactly when the process exited with success,
      and then PAM's latest call succeeded for the latest submission: a non-empty password equal to the
      replay of the keys accepted since the buffer was last reset. And a success of PAM is its last word: the
      process has ended or the unlock is on its way. */
  lemma SingleGate(story: Story)
    ensures var t := End(story);
            && (UnlockAndDestroy in t.ui.traffic <==> t.auth.exit == Some(0))
            && (UnlockAndDestroy in t.ui.traffic ==>
                  && t.auth.submissions != [] && t.auth.calls != []
                  && t.auth.calls[|t.auth.calls| - 1].reply == Success
                  && t.auth.calls[|t.auth.calls| - 1].attempt == AuthMachine.Last(t.auth).attempt
                  && AuthMachine.Last(t.auth).attempt.password != ""
                  && AuthMachine.Last(t.auth).attempt.password == AuthMachine.Replay(AuthMachine.Last(t.auth).edits))
            && (forall i :: 0 <= i < |t.auth.calls| && t.auth.calls[i].reply == Success ==>
                  i == |t.auth.calls| - 1 && (t.auth.exit != None || AuthTheorems.UnlockOnItsWay(t.auth)))
  {
    hide End, AuthMachine.Run, AuthMachine.Exec;
    Reached(story);
    var t := End(story);
    UnlockedIffExited(t);
    hide SystemInv;
    AuthTheorems.SuccessLeadsToUnlock(AuthPartOf(story.events));
    if t.auth.exit == Some(0) {
      AuthTheorems.UnlockMeansPamAccepted(AuthPartOf(story.events));
    }
  }

  lemma UnlockedIffExited(s: State)
    requires SystemInv(s)
    ensures UnlockAndDestroy in s.ui.traffic <==> s.auth.exit == Some(0)
  {
    ConfirmedMeansMessage(s.ui.traffic);
    hide AuthMachine.Inv, OneClient.AcceptInv, FrameInv, CacheAgrees, StreamedInv, DisplayInv, After, Conforms;
  }

  /** Non-interference: runs with the same keys, clock readings and PAM verdicts, but arbitrarily
      different clients, outputs, configures, signals and ticks, have the same buffer, flags, counters,
      queues, submissions and exit, answer `backoff_active` alike, and unlock alike. */
  lemma NonInterference(first: Story, second: Story, at: Time)
    requires AuthTheorems.WithoutTicks(AuthPartOf(first.events)) == AuthTheorems.WithoutTicks(AuthPartOf(second.events))
    requires at >= End(first).auth.clock && at >= End(second).auth.clock
    ensures var a, b := End(first), End(second);
            && AuthTheorems.SeenFrom(a.auth, at) == AuthTheorems.SeenFrom(b.auth, at)
            && BackoffActive(a.auth.fields, at) == BackoffActive(b.auth.fields, at)
            && (UnlockAndDestroy in a.ui.traffic <==> UnlockAndDestroy in b.ui.traffic)
  {
    hide End;
    Reached(first);
    Reached(second);
    UnlockedIffExited(End(first));
    UnlockedIffExited(End(second));
    hide SystemInv;
    AuthTheorems.SweepIsInvisible(AuthPartOf(first.events), AuthPartOf(second.events), at);
  }

  /** While the process runs: at most one entry per output and only for live outputs, under the role of
      its recorded name; with the lock held, exactly one for every announced output; the compositor holds
      exactly these surfaces, on these outputs. */
  lemma OutputsAreCovered(story: Story)
    ensures End(story).auth.exit == None ==>
            var ui := End(story).ui;
            && (forall i :: 0 <= i < |ui.surfaces| ==>
                  && ui.surfaces[i].output in ui.known
                  && (ui.surfaces[i].role == Kiosk <==> ui.surfaces[i].name in ui.kioskOutputs)
                  && ui.surfaces[i].surface in After(ui.traffic).live
                  && After(ui.traffic).live[ui.surfaces[i].surface] == ui.surfaces[i].output)
            && (forall i, j :: 0 <= i < j < |ui.surfaces| ==> ui.surfaces[i].output != ui.surfaces[j].output)
            && (ui.lock == Held ==> forall o :: o in ui.info ==> Covered(ui, o))
            && (ui.lock != Held ==> ui.surfaces == [])
            && (forall s :: s in After(ui.traffic).live ==> IndexOfSurface(ui.surfaces, s) < |ui.surfaces|)
  {
    hide End;
    Reached(story);
    hide After, Conforms, AuthMachine.Inv, OneClient.AcceptInv, FrameInv, CacheAgrees, StreamedInv, IndexOfSurface,
         IndexOfOutput;
  }

  /** Confirmation snapshots the outputs known at that moment, in a stable order with every session
      output before every kiosk output. */
  lemma ConfirmationSnapshot(story: Story)
    ensures Enabled(End(story), Display(Confirm)) ==>
            var before := End(story).ui;
            var es := Step(End(story), Display(Confirm)).ui.surfaces;
            && |es| == |SessionFirst(before, before.known)|
            && (forall i :: 0 <= i < |es| ==> es[i].output == SessionFirst(before, before.known)[i])
            && (forall o :: o in SessionFirst(before, before.known) <==> o in before.known)
            && (forall role ::
                  OfRole(before, SessionFirst(before, before.known), role) == OfRole(before, before.known, role))
            && (forall i, j :: 0 <= i < j < |es| && es[i].role == Kiosk ==> es[j].role == Kiosk)
  {
    hide End;
    Reached(story);
    hide Handle;
    var s := End(story);
    if Enabled(s, Display(Confirm)) {
      DisplayWhileRunning(s);
      ConfirmStep(s);
      SnapshotOf(s.ui);
    }
    hide SystemInv, DisplayInv, SessionFirst, OfRole, Locked, Step, Enabled;
  }

  lemma DisplayWhileRunning(s: State)
    requires SystemInv(s) && s.auth.exit == None
    ensures DisplayInv(s.ui)
  {
  }

  lemma ConfirmStep(s: State)
    requires Enabled(s, Display(Confirm))
    ensures s.ui.lock == Pending && s.auth.exit == None && Step(s, Display(Confirm)).ui == Locked(s.ui)
  {
    hide Locked;
  }

  lemma SnapshotOf(ui: Ui)
    requires DisplayInv(ui) && ui.lock == Pending
    ensures var ordered, es := SessionFirst(ui, ui.known), Locked(ui).surfaces;
            && |es| == |ordered|
            && (forall i :: 0 <= i < |es| ==> es[i].output == ordered[i])
            && (forall o :: o in ordered <==> o in ui.known)
            && (forall role :: OfRole(ui, ordered, role) == OfRole(ui, ui.known, role))
            && (forall i, j :: 0 <= i < j < |es| && es[i].role == Kiosk ==> es[j].role == Kiosk)
  {
    InitialListIsStablePartition(ui);
    SessionFirstIsStablePartition(ui, ui.known);
    hide SessionFirst, OfRole, Role, Locked, DisplayInv;
  }

  /** The geometry clients are greeted and checked with is 0x0 at scale 0 exactly until the first refresh, and
      till then no kiosk entry has a size; from the first refresh on it is, scale and all, that of the first
      kiosk entry with a width and a height, whatever entries come before it, or 0x0 at scale 1 if there is
      none, although adding a surface refreshes nothing. */
  lemma GeometryCacheAgrees(story: Story)
    ensures var t := End(story);
            var refreshed := Refreshed(Begin(story.setup), story.events);
            && (t.server.geometry == Geometry(0, 0, 0) <==> !refreshed)
            && (refreshed ==> OfFirstSized(t.server.geometry, t.ui.surfaces))
            && (!refreshed ==> NoSizedKiosk(t.ui.surfaces))
  {
    Reached(story);
    CacheAgreesAt(End(story));
    CacheExactly(Begin(story.setup), story.events, false);
    hide End, KioskGeometry, OfFirstSized;
    ScanHasAScale(End(story).ui.surfaces);
    ScanIsOfFirstSized(End(story).ui.surfaces);
  }

  lemma CacheAgreesAt(s: State)
    requires SystemInv(s)
    ensures CacheAgrees(s.server.geometry, s.ui.surfaces)
  {
  }

  /** The server's own guarantees hold inside the whole process: one open client between accepts, and
      handlers that read only their own stream. */
  lemma ServerGuarantees(story: Story)
    ensures var server := End(story).server;
            && (server.acceptor.Listening? ==>
                  forall k :: 0 <= k < |server.connections| && OneClient.Open(server.connections[k]) ==>
                    server.activeStream == Some(k) && k == |server.connections| - 1)
            && (forall h :: 0 <= h < |server.handlers| ==>
                  && Server.HandlerAt(server, h)
                  && FramesSeen(server.handlers[h].seen) <= Frames(server.connections[server.handlers[h].conn].received)
                  && PublishesBySize(server.handlers[h]))
  {
    hide End;
    Reached(story);
    ServerInvariants(End(story));
  }

  lemma ServerInvariants(s: State)
    requires SystemInv(s)
    ensures s.server.acceptor.Listening? ==>
              forall k :: 0 <= k < |s.server.connections| && OneClient.Open(s.server.connections[k]) ==>
                s.server.activeStream == Some(k) && k == |s.server.connections| - 1
    ensures forall h :: 0 <= h < |s.server.handlers| ==>
              && Server.HandlerAt(s.server, h)
              && FramesSeen(s.server.handlers[h].seen) <=
                 Frames(s.server.connections[s.server.handlers[h].conn].received)
              && PublishesBySize(s.server.handlers[h])
  {
    hide AuthMachine.Inv, LockInv, CacheAgrees, StreamedInv, Matching, BuffersTrack, Frames, FramesSeen, SizesSeen,
         TakenBySize, EncodeAll, OneClient.Open;
    forall h | 0 <= h < |s.server.handlers|
      ensures Server.HandlerAt(s.server, h)
      ensures FramesSeen(s.server.handlers[h].seen) <= Frames(s.server.connections[s.server.handlers[h].conn].received)
      ensures PublishesBySize(s.server.handlers[h])
    {
      SeenAreFrames(s.server.handlers[h], s.server.connections[s.server.handlers[h].conn].received);
      MatchingTakesBySize(s.server.handlers[h].seen);
    }
  }
}
