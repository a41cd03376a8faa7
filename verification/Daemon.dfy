/** `-f`: the readiness pipe between the parent that waits and the child that locks. */
module Daemon {
  import opened Words
  import opened LockProtocol
  import opened Outputs
  import opened Lifecycle
  import SystemTheorems
  import System
  import AuthMachine
  import Server
  import opened Render
  import OneClient
  import FrameIntegrity
  import Auth

  const READY: Byte := 82  // b'R'

  // ---- the two ends, in their own form ----

  /** A pipe's buffer and its open ends. */
  class Pipe {
    var buffer: seq<Byte>
    var readers: nat
    var writers: nat

    constructor ()
      ensures buffer == [] && readers == 1 && writers == 1
    {
      buffer, readers, writers := [], 1, 1;
    }
  }

  class ReadyNotifier {
    var write: Pipe?

    constructor (write: Pipe)
      ensures this.write == write
    {
      this.write := write;
    }

    /** Sends the marker and, sent or not, closes the write end. */
    method Notify() returns (ok: bool)
      requires write != null && write.writers > 0
      modifies this`write, write`buffer, write`writers
      ensures write == null && old(write).writers == old(write.writers) - 1
      ensures ok == (old(write).readers > 0)
      ensures old(write).buffer == old(write.buffer) + if ok then [READY] else []
    {
      var pipe := write;
      write := null;
      ok := pipe.readers > 0;
      if ok {
        pipe.buffer := pipe.buffer + [READY];
      }
      pipe.writers := pipe.writers - 1;
    }
  }

  datatype Verdict = Ready | InvalidMarker | ClosedEarly | ChildGone | ReapFailed | ReadFailed

  /** What the blocking one-byte read ends with: a byte, end-of-file, or an error. */
  datatype ReadOutcome = Got(byte: Byte) | Eof | Failed

  /** Only the marker is success. End-of-file is answered by reaping the child, if there is one. */
  function VerdictOf(outcome: ReadOutcome, hasChild: bool, reaps: bool): (v: Verdict)
    ensures v == Ready <==> outcome == Got(READY)
    ensures v == ChildGone || v == ReapFailed <==> outcome == Eof && hasChild
  {
    match outcome
    case Got(byte) => if byte == READY then Ready else InvalidMarker
    case Eof => if !hasChild then ClosedEarly else if reaps then ChildGone else ReapFailed
    case Failed => ReadFailed
  }

  /** What a blocking read of one byte from a pipe returns with, once it returns. */
  function OutcomeOf(failed: bool, buffer: seq<Byte>): ReadOutcome {
    if failed then Failed else if buffer == [] then Eof else Got(buffer[0])
  }

  /** `wait_for_ready`, from where its read has returned: it failed, a byte was there, or nobody can write
      any more. `reaps` is whether `waitpid` succeeds, and `waited` whether it was called. The read end is
      dropped in any case. */
  method WaitForReady(read: Pipe, failed: bool, hasChild: bool, reaps: bool) returns (verdict: Verdict, waited: bool)
    requires read.readers > 0 && (failed || read.buffer != [] || read.writers == 0)
    modifies read`buffer, read`readers
    ensures verdict == VerdictOf(OutcomeOf(failed, old(read.buffer)), hasChild, reaps)
    ensures failed ==> verdict == ReadFailed
    ensures !failed && old(read.buffer) != [] ==>
              verdict == if old(read.buffer)[0] == READY then Ready else InvalidMarker
    ensures !failed && old(read.buffer) == [] ==>
              verdict == if !hasChild then ClosedEarly else if reaps then ChildGone else ReapFailed
    ensures waited <==> !failed && old(read.buffer) == [] && hasChild
    ensures read.readers == old(read.readers) - 1
    ensures read.buffer == if failed || old(read.buffer) == [] then old(read.buffer) else old(read.buffer)[1..]
  {
    waited := false;
    read.readers := read.readers - 1;
    if failed {
      return ReadFailed, waited;
    }
    if read.buffer != [] {
      var byte := read.buffer[0];
      read.buffer := read.buffer[1..];
      if byte == READY {
        return Ready, waited;
      }
      return InvalidMarker, waited;
    }
    if !hasChild {
      return ClosedEarly, waited;
    }
    waited := true;
    if !reaps {
      return ReapFailed, waited;
    }
    return ChildGone, waited;
  }

  // ---- parent, pipe, child and compositor together ----

  datatype Parent = Forking | Waiting | Reaping | Returned(verdict: Verdict) | Killed

  /** `Detaching` until `setsid` returned; `Leaving` on every path that ends in `exit`, its pipe end closed. */
  datatype ChildPhase = NotForked | Detaching | Running | Leaving | Exited

  /** `process` is the whole locker inside the child. `notified`, `snapshot` and `display` record whether
      the child wrote the marker, the outputs it knew at confirmation, and its display when it wrote. */
  datatype State = State(parent: Parent, child: ChildPhase, process: System.State, holdsWriteEnd: bool,
                         buffer: seq<Byte>, notified: bool, snapshot: seq<OutputId>, display: Ui)

  datatype Event =
    | Fork
    | Detach(ok: bool)
    | Child(step: System.Event)
    | Notify
    | Leave
    | Exit
    | KillChild
    | KillParent
    | ParentReads
    | ParentReadFails
    | ParentSeesEof
    | ParentReaps(ok: bool)

  function Start(process: System.State): State {
    State(Forking, NotForked, process, false, [], false, [], process.ui)
  }

  /** The rest of the `locked` callback: its surfaces are created, the marker is not yet sent. */
  predicate NotifyDue(s: State) {
    s.child.Running? && s.holdsWriteEnd && s.process.ui.lock == Held
  }

  predicate Enabled(s: State, e: Event) {
    match e
    case Fork => s.parent.Forking? && s.child.NotForked?
    case Detach(_) => s.child.Detaching?
    case Child(step) => s.child.Running? && !NotifyDue(s) && System.Enabled(s.process, step)
    case Notify => NotifyDue(s)
    case Leave => s.child.Running?
    case Exit => s.child.Leaving?
    case KillChild => s.child.Detaching? || s.child.Running? || s.child.Leaving?
    case KillParent => s.parent.Waiting? || s.parent.Reaping?
    case ParentReads => s.parent.Waiting? && s.buffer != []
    case ParentReadFails => s.parent.Waiting?
    case ParentSeesEof => s.parent.Waiting? && s.buffer == [] && !s.holdsWriteEnd
    case ParentReaps(ok) => s.parent.Reaping? && (ok ==> s.child.Exited?)
  }

  function Step(s: State, e: Event): State
    requires Enabled(s, e)
  {
    match e
    case Fork => s.(parent := Waiting, child := Detaching, holdsWriteEnd := true)
    case Detach(ok) => if ok then s.(child := Running) else s.(child := Leaving, holdsWriteEnd := false)
    case Child(step) =>
      s.(process := System.Step(s.process, step),
         snapshot := if step == System.Display(Confirm) then s.process.ui.known else s.snapshot)
    case Notify =>
      // the write fails, harmlessly, when nobody holds the read end any more
      var sent := s.parent.Waiting?;
      s.(holdsWriteEnd := false, buffer := s.buffer + if sent then [READY] else [],
         notified := sent, display := s.process.ui)
    case Leave => s.(child := Leaving, holdsWriteEnd := false)
    case Exit => s.(child := Exited)
    case KillChild => s.(child := Exited, holdsWriteEnd := false)
    case KillParent => s.(parent := Killed)
    case ParentReads =>
      s.(parent := Returned(VerdictOf(Got(s.buffer[0]), true, true)), buffer := s.buffer[1..])
    case ParentReadFails => s.(parent := Returned(VerdictOf(Failed, true, true)))
    case ParentSeesEof => s.(parent := Reaping)
    case ParentReaps(ok) => s.(parent := Returned(VerdictOf(Eof, true, ok)))
  }

  predicate Run(s: State, events: seq<Event>)
    decreases |events|
  {
    events == [] || (Enabled(s, events[0]) && Run(Step(s, events[0]), events[1..]))
  }

  function Exec(s: State, events: seq<Event>): State
    requires Run(s, events)
    decreases |events|
  {
    if events == [] then s else Exec(Step(s, events[0]), events[1..])
  }

  predicate CoversSnapshot(ui: Ui, snapshot: seq<OutputId>) {
    forall o :: o in snapshot ==> Covered(ui, o)
  }

  predicate Gone(s: State) {
    s.child.Leaving? || s.child.Exited?
  }

  /** The pipe's write end is open exactly while its child may still send the marker. */
  predicate PipeInv(s: State) {
    && (s.parent.Forking? <==> s.child.NotForked?)
    && (s.parent.Forking? ==> !s.notified && s.buffer == [])
    && (s.child.Detaching? ==> s.holdsWriteEnd)
    && (s.holdsWriteEnd ==> (s.child.Detaching? || s.child.Running?) && !s.notified)
    && (s.buffer != [] ==> s.buffer == [READY] && s.notified)
    && (s.parent.Waiting? ==> (s.notified <==> s.buffer != []))
    && (s.parent.Waiting? && !s.holdsWriteEnd && !s.notified ==> Gone(s))
    && (s.parent.Reaping? ==> Gone(s) && !s.notified)
    && (s.parent.Returned? ==> s.parent.verdict != InvalidMarker && s.parent.verdict != ClosedEarly)
    && (s.parent == Returned(Ready) ==> s.notified)
    && (s.parent == Returned(ChildGone) ==> s.child.Exited? && !s.notified)
    && (s.child.NotForked? || s.child.Detaching? ==> s.process.ui.lock == NoLock)
  }

  /** What the child had done by the time it sent the marker. */
  predicate NotifiedInv(s: State) {
    && (NotifyDue(s) ==> CoversSnapshot(s.process.ui, s.snapshot))
    && (s.notified ==>
          && s.display.lock == Held && CoversSnapshot(s.display, s.snapshot)
          && LockConfirmed in s.display.traffic && s.display.traffic <= s.process.ui.traffic)
  }

  ghost predicate DaemonInv(s: State) {
    PipeInv(s) && NotifiedInv(s) && System.SystemInv(s.process)
  }

  // ---- what every step keeps ----

  lemma TrafficOnlyGrows(s: System.State, e: System.Event)
    requires System.Enabled(s, e) && FrameIntegrity.FrameInv(s.server)
    ensures s.ui.traffic <= System.Step(s, e).ui.traffic
  {
    hide Handle, RenderSurface, Auth.PressKey, FrameIntegrity.FrameInv;
    if e.Display? {
      System.CallbacksCommitNothing(s.ui, e.callback);
    } else if e.RenderNext? {
      System.RenderShowsLatest(s.server, s.ui, s.redraw[0], e.paint);
    }
  }

  lemma OtherCallbacksLeaveTheLock(ui: Ui, e: Outputs.Callback)
    requires MayHappen(ui, e) && !e.Confirm?
    ensures Handle(ui, e).ui.lock == if e.RequestLock? then Pending else ui.lock
  {
    hide KioskGeometry, IndexOfOutput, IndexOfSurface;
  }

  lemma OtherStepsTakeNoLock(s: System.State, e: System.Event)
    requires System.Enabled(s, e) && !e.Display? && s.ui.lock != Held
    ensures System.Step(s, e).ui.lock != Held
  {
    hide Handle, Auth.PressKey, AuthMachine.Step, AuthMachine.Enabled, Server.Step, Server.Enabled, Committed;
  }

  lemma OnlyConfirmTakesTheLock(s: System.State, e: System.Event)
    requires System.Enabled(s, e) && s.ui.lock != Held && System.Step(s, e).ui.lock == Held
    ensures e == System.Display(Confirm)
  {
    hide Handle, Auth.PressKey, AuthMachine.Step, AuthMachine.Enabled, Server.Step, Server.Enabled, RenderSurface;
    if !e.Display? {
      OtherStepsTakeNoLock(s, e);
    } else if !e.callback.Confirm? {
      OtherCallbacksLeaveTheLock(s.ui, e.callback);
    }
  }

  lemma ConfirmCovers(s: System.State)
    requires System.SystemInv(s) && System.Enabled(s, System.Display(Confirm))
    ensures CoversSnapshot(System.Step(s, System.Display(Confirm)).ui, s.ui.known)
  {
    hide Handle, RenderSurface, Auth.PressKey, DisplayInv;
    SystemTheorems.DisplayWhileRunning(s);
    SystemTheorems.ConfirmStep(s);
    hide System.SystemInv, System.Step, System.Enabled, Locked, Covered;
    ConfirmKeepsEverything(s.ui);
  }

  lemma HeldMeansConfirmed(s: System.State)
    requires System.SystemInv(s) && s.ui.lock == Held
    ensures LockConfirmed in s.ui.traffic
  {
    ConfirmedMeansMessage(s.ui.traffic);
    hide After, Conforms, OneClient.AcceptInv, FrameIntegrity.FrameInv, AuthMachine.Inv, System.StreamedInv;
  }

  lemma ConfirmedOnce(s: System.State)
    requires System.SystemInv(s) && LockConfirmed in s.ui.traffic
    ensures !System.Enabled(s, System.Display(Confirm))
  {
    ConfirmedMeansMessage(s.ui.traffic);
    hide After, Conforms, OneClient.AcceptInv, FrameIntegrity.FrameInv, AuthMachine.Inv, System.StreamedInv;
  }

  lemma StepKeepsPipeInv(s: State, e: Event)
    requires PipeInv(s) && Enabled(s, e)
    ensures PipeInv(Step(s, e))
  {
    hide System.Step, System.Enabled;
  }

  lemma ChildKeepsNotified(s: State, step: System.Event)
    requires NotifiedInv(s) && System.SystemInv(s.process) && Enabled(s, Child(step))
    requires s.holdsWriteEnd ==> !s.notified
    ensures NotifiedInv(Step(s, Child(step)))
  {
    TrafficOnlyGrows(s.process, step);
    var after := System.Step(s.process, step);
    if s.holdsWriteEnd {
      if after.ui.lock == Held {
        OnlyConfirmTakesTheLock(s.process, step);
        ConfirmCovers(s.process);
      }
    } else if s.notified {
      ConfirmedOnce(s.process);
    }
    hide System.Step, System.Enabled, System.SystemInv, Covered;
  }

  lemma StepKeepsNotified(s: State, e: Event)
    requires DaemonInv(s) && Enabled(s, e)
    ensures NotifiedInv(Step(s, e))
  {
    if e.Child? {
      ChildKeepsNotified(s, e.step);
    } else if e.Notify? {
      HeldMeansConfirmed(s.process);
    }
    hide System.Step, System.Enabled, System.SystemInv, Covered;
  }

  lemma StepKeepsDaemonInv(s: State, e: Event)
    requires DaemonInv(s) && Enabled(s, e)
    ensures DaemonInv(Step(s, e))
  {
    StepKeepsPipeInv(s, e);
    StepKeepsNotified(s, e);
    hide PipeInv, NotifiedInv, System.SystemInv, System.Step, System.Enabled;
    if e.Child? {
      System.StepKeepsSystemInv(s.process, e.step);
    }
  }

  lemma {:induction false} DaemonInvAlways(s: State, events: seq<Event>)
    requires DaemonInv(s) && Run(s, events)
    ensures DaemonInv(Exec(s, events))
    decreases |events|
  {
    hide DaemonInv;
    if events != [] {
      StepKeepsDaemonInv(s, events[0]);
      DaemonInvAlways(Step(s, events[0]), events[1..]);
    }
  }

  function Begin(c: SystemTheorems.Setup): State {
    Start(SystemTheorems.Begin(c.(daemonReady := true)))
  }

  lemma BeginsWell(c: SystemTheorems.Setup)
    ensures DaemonInv(Begin(c))
  {
    System.StartKeepsSystemInv(c.kioskOutputs, c.socketPath, true);
    hide System.SystemInv;
  }

  lemma Reached(c: SystemTheorems.Setup, events: seq<Event>)
    requires Run(Begin(c), events)
    ensures DaemonInv(Exec(Begin(c), events))
  {
    BeginsWell(c);
    DaemonInvAlways(Begin(c), events);
    hide DaemonInv;
  }

  // ---- what `-f` promises ----

  /** The parent returns success only if its child was confirmed as the lock holder and already had a
      surface for every output it knew at confirmation; a marker is never lost or garbled on the way. */
  lemma ReadyMeansLocked(c: SystemTheorems.Setup, events: seq<Event>)
    requires Run(Begin(c), events)
    ensures var t := Exec(Begin(c), events);
            && (t.parent == Returned(Ready) ==>
                  && t.notified && t.display.lock == Held && CoversSnapshot(t.display, t.snapshot)
                  && LockConfirmed in t.display.traffic && t.display.traffic <= t.process.ui.traffic)
            && (t.parent.Waiting? && t.notified ==> t.buffer == [READY])
            && t.parent != Returned(InvalidMarker)
  {
    hide Run, Exec;
    Reached(c, events);
    hide System.SystemInv;
  }

  /** End-of-file without the marker means that the child is on its way out and will never send it. So
      the wait for its exit is short: at most two more steps of anybody are possible, and when none is
      left the parent has returned an error, unless it was killed. */
  lemma EndOfFileEndsTheWait(c: SystemTheorems.Setup, events: seq<Event>, more: seq<Event>)
    requires Run(Begin(c), events) && Exec(Begin(c), events).parent.Reaping?
    requires Run(Exec(Begin(c), events), more)
    ensures var t := Exec(Exec(Begin(c), events), more);
            && |more| <= 2
            && Gone(t) && !t.notified
            && t.parent != Returned(Ready)
            && ((forall e :: !Enabled(t, e)) ==>
                  t.parent == Returned(ChildGone) || t.parent == Returned(ReapFailed) || t.parent == Killed)
            && (t.parent == Returned(ChildGone) ==> t.child.Exited?)
  {
    hide Run, Exec;
    Reached(c, events);
    hide System.SystemInv, System.Step, System.Enabled, NotifiedInv;
    FewStepsLeft(Exec(Begin(c), events), more);
  }

  /** Steps that a finished child and its parent can still take together. */
  function StepsLeft(s: State): nat {
    (if s.child.Exited? then 0 else 1) + if s.parent.Reaping? then 1 else 0
  }

  predicate Dismissed(s: State) {
    && Gone(s) && !s.notified && !s.holdsWriteEnd
    && (s.parent.Reaping? || s.parent == Killed || s.parent == Returned(ReapFailed)
        || (s.parent == Returned(ChildGone) && s.child.Exited?))
  }

  lemma {:induction false} FewStepsLeft(s: State, events: seq<Event>)
    requires Dismissed(s) && Run(s, events)
    ensures Dismissed(Exec(s, events)) && |events| + StepsLeft(Exec(s, events)) <= StepsLeft(s)
    ensures (forall e :: !Enabled(Exec(s, events), e)) ==> !Exec(s, events).parent.Reaping?
    decreases |events|
  {
    hide System.Step, System.Enabled;
    if events != [] {
      FewStepsLeft(Step(s, events[0]), events[1..]);
    } else if s.parent.Reaping? {
      assert Enabled(s, KillParent);
    }
  }

  /** As long as nobody interferes with the parent: it meets end-of-file exactly when the child is on its
      way out without having sent the marker, and it blocks exactly while the child may still send it. */
  lemma ParentWaitsForTheRightThing(c: SystemTheorems.Setup, events: seq<Event>)
    requires Run(Begin(c), events) && Exec(Begin(c), events).parent.Waiting?
    ensures var t := Exec(Begin(c), events);
            && (Enabled(t, ParentSeesEof) <==> Gone(t) && !t.notified)
            && (Enabled(t, ParentReads) <==> t.notified)
            && (t.notified ==> Step(t, ParentReads).parent == Returned(Ready))
            && (!Enabled(t, ParentSeesEof) && !Enabled(t, ParentReads) <==> t.holdsWriteEnd)
  {
    hide Run, Exec;
    Reached(c, events);
    hide System.SystemInv, NotifiedInv, Step, Enabled;
    WaitingParent(Exec(Begin(c), events));
  }

  lemma WaitingParent(s: State)
    requires PipeInv(s) && s.parent.Waiting?
    ensures Enabled(s, ParentSeesEof) <==> Gone(s) && !s.notified
    ensures Enabled(s, ParentReads) <==> s.notified
    ensures s.notified ==> Step(s, ParentReads).parent == Returned(Ready)
    ensures !Enabled(s, ParentSeesEof) && !Enabled(s, ParentReads) <==> s.holdsWriteEnd
  {
    hide System.Step, System.Enabled;
  }
}
