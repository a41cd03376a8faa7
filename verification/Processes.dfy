/** Any number of nixlock processes, one compositor lock and one socket path. A process's socket thread
    first unlinks the path and then binds it; unlocking and exiting are two steps, as they are in the
    code. */
module Processes {
  import opened Words

  type Pid = nat

  /** Where a process stands with the compositor: `Rejected` by a `finished` instead of `locked`, `Revoked`
      by one after it. */
  datatype Standing = Starting | Requested | Confirmed | Rejected | Revoked | Released | Dead

  /** Where its socket thread stands; `None` until the confirmed lock spawns it. */
  datatype Thread = NotSpawned | BeforeUnlink | BeforeBind | Listening | BindFailed

  datatype Process = Process(standing: Standing, thread: Thread, everConfirmed: bool, touchedPath: bool)

  /** Who the compositor lets hold the lock: nobody yet, one process, or nobody any more although the
      session is still locked (its locker died). */
  datatype Holder = Free | Held(pid: Pid) | Orphaned

  /** `path` is whose listener the socket path resolves to, dead or alive. */
  datatype State = State(processes: seq<Process>, holder: Holder, path: Option<Pid>)

  datatype Event =
    | Launch
    | Request(pid: Pid)
    | Confirm(pid: Pid, hasPath: bool)
    | Reject(pid: Pid)
    | Revoke(pid: Pid, stillLocked: bool)
    | Unlink(pid: Pid)
    | Bind(pid: Pid)
    | Unlock(pid: Pid)
    | Exit(pid: Pid)
    | Die(pid: Pid)

  const INITIAL := State([], Free, None)

  predicate Alive(s: State, p: Pid) {
    p < |s.processes| && s.processes[p].standing != Dead
  }

  predicate Enabled(s: State, e: Event) {
    match e
    case Launch => true
    case Request(p) => Alive(s, p) && s.processes[p].standing.Starting?
    case Confirm(p, _) => Alive(s, p) && s.processes[p].standing.Requested? && !s.holder.Held?
    case Reject(p) => Alive(s, p) && s.processes[p].standing.Requested?
    case Revoke(p, _) => Alive(s, p) && s.processes[p].standing.Confirmed?
    case Unlink(p) => Alive(s, p) && s.processes[p].thread.BeforeUnlink?
    case Bind(p) => Alive(s, p) && s.processes[p].thread.BeforeBind?
    case Unlock(p) => Alive(s, p) && s.processes[p].standing.Confirmed?
    case Exit(p) =>
      && Alive(s, p)
      && (s.processes[p].standing.Released? || s.processes[p].standing.Rejected? || s.processes[p].standing.Revoked?)
    case Die(p) => Alive(s, p)
  }

  function With(s: State, p: Pid, process: Process): State
    requires p < |s.processes|
  {
    s.(processes := s.processes[p := process])
  }

  function Step(s: State, e: Event): State
    requires Enabled(s, e)
  {
    match e
    case Launch => s.(processes := s.processes + [Process(Starting, NotSpawned, false, false)])
    case Request(p) => With(s, p, s.processes[p].(standing := Requested))
    case Confirm(p, hasPath) =>
      With(s, p, s.processes[p].(standing := Confirmed, everConfirmed := true,
                                 thread := if hasPath then BeforeUnlink else NotSpawned)).(holder := Held(p))
    case Reject(p) => With(s, p, s.processes[p].(standing := Rejected))
    case Revoke(p, stillLocked) =>
      With(s, p, s.processes[p].(standing := Revoked)).(holder := if stillLocked then Orphaned else Free)
    case Unlink(p) => With(s, p, s.processes[p].(thread := BeforeBind, touchedPath := true)).(path := None)
    case Bind(p) =>
      if s.path.Some? then With(s, p, s.processes[p].(thread := BindFailed))
      else With(s, p, s.processes[p].(thread := Listening, touchedPath := true)).(path := Some(p))
    case Unlock(p) => With(s, p, s.processes[p].(standing := Released)).(holder := Free)
    case Exit(p) => With(s, p, s.processes[p].(standing := Dead))
    case Die(p) =>
      With(s, p, s.processes[p].(standing := Dead)).(holder := if s.holder == Held(p) then Orphaned else s.holder)
  }

  predicate Run(s: State, events: seq<Event>)
    decreases |events|
  {
    events == [] || (Enabled(s, events[0]) && Run(Step(s, events[0]), events[1..]))
  }

  function Exec(s: State, events: seq<Event>): State
    requires Run(s, events)
    decreases |events|
  {
    if events == [] then s else Exec(Step(s, events[0]), events[1..])
  }

  // ---- who touches the path ----

  /** The lock holder is alive and confirmed, nobody else is; socket threads belong to processes that were
      confirmed once; and only those ever touched the path. */
  predicate OwnershipInv(s: State) {
    && (s.holder.Held? ==> Alive(s, s.holder.pid) && s.processes[s.holder.pid].standing.Confirmed?)
    && (forall p :: 0 <= p < |s.processes| ==>
          var q := s.processes[p];
          && (q.standing.Confirmed? ==> s.holder == Held(p))
          && (!q.thread.NotSpawned? || q.touchedPath ==> q.everConfirmed)
          && (q.standing.Confirmed? || q.standing.Released? || q.standing.Revoked? ==> q.everConfirmed)
          && (q.everConfirmed ==>
                q.standing.Confirmed? || q.standing.Released? || q.standing.Revoked? || q.standing.Dead?)
          && (q.thread.BeforeUnlink? ==> !q.touchedPath))
    && (s.path.Some? ==> s.path.value < |s.processes|)
    && (s.path.Some? && Alive(s, s.path.value) ==> s.processes[s.path.value].thread.Listening?)
  }

  /** `p` is alive and the path leads to it. */
  predicate Serves(s: State, p: Pid) {
    Alive(s, p) && s.path == Some(p)
  }

  lemma StepKeepsOwnership(s: State, e: Event)
    requires OwnershipInv(s) && Enabled(s, e)
    ensures OwnershipInv(Step(s, e))
  {
  }

  lemma {:induction false} OwnershipAlways(s: State, events: seq<Event>)
    requires OwnershipInv(s) && Run(s, events)
    ensures OwnershipInv(Exec(s, events))
    decreases |events|
  {
    if events != [] {
      StepKeepsOwnership(s, events[0]);
      OwnershipAlways(Step(s, events[0]), events[1..]);
    }
  }

  /** Only a process the compositor confirmed ever unlinks or binds the path; a rejected one never has,
      and no step of it ever will. */
  lemma OnlyConfirmedTouchThePath(events: seq<Event>, e: Event)
    requires Run(INITIAL, events) && Enabled(Exec(INITIAL, events), e)
    ensures var t := Exec(INITIAL, events);
            && (forall p :: 0 <= p < |t.processes| && t.processes[p].touchedPath ==> t.processes[p].everConfirmed)
            && (forall p :: 0 <= p < |t.processes| && t.processes[p].standing.Rejected? ==>
                  !t.processes[p].touchedPath && e != Unlink(p) && e != Bind(p))
            && (e.Unlink? || e.Bind? ==> t.processes[e.pid].everConfirmed)
  {
    OwnershipAlways(INITIAL, events);
  }

  // ---- who can still touch the path ----

  /** The process still has its unlink or its bind before it. */
  predicate Pending(s: State, p: Pid) {
    Alive(s, p) && (s.processes[p].thread.BeforeUnlink? || s.processes[p].thread.BeforeBind?)
  }

  predicate EndsOwnership(e: Event, owner: Pid) {
    match e
    case Unlock(p) => p == owner
    case Revoke(p, _) => p == owner
    case Exit(p) => p == owner
    case Die(p) => p == owner
    case _ => false
  }

  predicate OwnerStays(events: seq<Event>, owner: Pid) {
    forall i :: 0 <= i < |events| ==> !EndsOwnership(events[i], owner)
  }

  predicate Touches(e: Event) {
    e.Unlink? || e.Bind?
  }

  predicate OnlyOwnerTouches(events: seq<Event>, owner: Pid) {
    forall i :: 0 <= i < |events| && Touches(events[i]) ==> events[i].pid == owner
  }

  /** No process but the owner has its unlink or its bind before it. */
  predicate NobodyElsePending(s: State, owner: Pid) {
    forall p :: 0 <= p < |s.processes| && Pending(s, p) ==> p == owner
  }

  lemma HoldingStep(s: State, e: Event, owner: Pid)
    requires OwnershipInv(s) && s.holder == Held(owner) && Enabled(s, e) && !EndsOwnership(e, owner)
    ensures OwnershipInv(Step(s, e)) && Step(s, e).holder == Held(owner)
    ensures NobodyElsePending(s, owner) ==> NobodyElsePending(Step(s, e), owner)
    ensures NobodyElsePending(s, owner) && Touches(e) ==> e.pid == owner
  {
    StepKeepsOwnership(s, e);
    assert Touches(e) ==> Pending(s, e.pid);
    var t := Step(s, e);
    if NobodyElsePending(s, owner) {
      forall p | 0 <= p < |t.processes| && Pending(t, p) ensures p == owner {
        assert p < |s.processes| && Pending(s, p);
      }
    }
  }

  lemma {:induction false} HoldingRun(s: State, events: seq<Event>, owner: Pid)
    requires OwnershipInv(s) && s.holder == Held(owner) && NobodyElsePending(s, owner)
    requires Run(s, events) && OwnerStays(events, owner)
    ensures OnlyOwnerTouches(events, owner)
    decreases |events|
  {
    if events != [] {
      assert !EndsOwnership(events[0], owner);
      HoldingStep(s, events[0], owner);
      HoldingRun(Step(s, events[0]), events[1..], owner);
      assert forall i :: 0 < i < |events| ==> events[i] == events[1..][i - 1];
    }
  }

  lemma PendingTouches(s: State, p: Pid) returns (e: Event)
    requires Pending(s, p)
    ensures Enabled(s, e) && Touches(e) && e.pid == p && !EndsOwnership(e, p) && Run(s, [e])
            && Exec(s, [e]) == Step(s, e)
  {
    e := if s.processes[p].thread.BeforeUnlink? then Unlink(p) else Bind(p);
    RunOne(s, e);
  }

  /** While a process holds the lock, nobody else unlinks or binds the path, whatever happens, if and only if
      no other live process has its unlink or its bind before it. */
  lemma OnlyTheHolderTouchesIff(s: State, owner: Pid)
    requires OwnershipInv(s) && s.holder == Held(owner)
    ensures (forall events :: Run(s, events) && OwnerStays(events, owner) ==> OnlyOwnerTouches(events, owner))
            <==> NobodyElsePending(s, owner)
  {
    if NobodyElsePending(s, owner) {
      forall events | Run(s, events) && OwnerStays(events, owner) ensures OnlyOwnerTouches(events, owner) {
        HoldingRun(s, events, owner);
      }
    } else {
      var p: nat :| p < |s.processes| && Pending(s, p) && p != owner;
      var e := PendingTouches(s, p);
      assert OwnerStays([e], owner);
      assert !OnlyOwnerTouches([e], owner);
    }
  }

  // ---- when the holder is sure to serve ----

  /** The holder's listener is, or will be, where the path leads. */
  predicate OnCourse(s: State, owner: Pid) {
    Alive(s, owner)
    && match s.processes[owner].thread
       case BindFailed => false
       case Listening => s.path == Some(owner)
       case _ => true
  }

  /** Nobody can get in its way: a thread that has yet to unlink can, and one that has yet to bind can as long
      as the holder has not bound. */
  predicate ClearWay(s: State, owner: Pid)
    requires owner < |s.processes|
  {
    && (forall p :: 0 <= p < |s.processes| && Alive(s, p) && s.processes[p].thread.BeforeUnlink? ==>
          p == owner || s.processes[owner].thread.NotSpawned?)
    && (forall p :: 0 <= p < |s.processes| && Alive(s, p) && s.processes[p].thread.BeforeBind? ==>
          p == owner || s.processes[owner].thread.NotSpawned? || s.processes[owner].thread.Listening?)
    && (s.processes[owner].thread.BeforeBind? ==> s.path == None)
  }

  lemma ClearWayStep(s: State, e: Event, owner: Pid)
    requires OwnershipInv(s) && s.holder == Held(owner) && OnCourse(s, owner) && ClearWay(s, owner)
    requires Enabled(s, e) && !EndsOwnership(e, owner)
    ensures var t := Step(s, e);
            OwnershipInv(t) && t.holder == Held(owner) && OnCourse(t, owner) && ClearWay(t, owner)
  {
    StepKeepsOwnership(s, e);
  }

  lemma {:induction false} ClearWayRun(s: State, events: seq<Event>, owner: Pid)
    requires OwnershipInv(s) && s.holder == Held(owner) && OnCourse(s, owner) && ClearWay(s, owner)
    requires Run(s, events) && OwnerStays(events, owner)
    ensures OnCourse(Exec(s, events), owner)
    decreases |events|
  {
    if events != [] {
      assert !EndsOwnership(events[0], owner);
      ClearWayStep(s, events[0], owner);
      ClearWayRun(Step(s, events[0]), events[1..], owner);
    }
  }

  /** A run in which the owner is left without the path. */
  predicate Strands(s: State, events: seq<Event>, owner: Pid) {
    Run(s, events) && OwnerStays(events, owner) && !OnCourse(Exec(s, events), owner)
  }

  lemma StrandsAfter(s: State, e: Event, rest: seq<Event>, owner: Pid)
    requires Enabled(s, e) && !EndsOwnership(e, owner) && Strands(Step(s, e), rest, owner)
    ensures Strands(s, [e] + rest, owner)
  {
    RunOne(s, e);
    RunConcat(s, [e], rest);
    hide Step, Enabled, Run, Exec;
    assert forall i :: 0 < i < |[e] + rest| ==> ([e] + rest)[i] == rest[i - 1];
  }

  lemma StrandsAt(s: State, owner: Pid)
    requires !OnCourse(s, owner)
    ensures Strands(s, [], owner)
  {
  }

  /** The owner's own bind, too late. */
  lemma LateBindFails(s: State, owner: Pid) returns (events: seq<Event>)
    requires Alive(s, owner) && s.processes[owner].thread.BeforeBind? && s.path.Some?
    ensures Strands(s, events, owner)
  {
    StrandsAt(Step(s, Bind(owner)), owner);
    StrandsAfter(s, Bind(owner), [], owner);
    events := [Bind(owner)] + [];
  }

  /** Another thread binds first. */
  lemma OtherBindsFirst(s: State, owner: Pid, p: Pid) returns (events: seq<Event>)
    requires Alive(s, owner) && s.processes[owner].thread.BeforeBind? && s.path == None
    requires p != owner && Alive(s, p) && s.processes[p].thread.BeforeBind?
    ensures Strands(s, events, owner)
  {
    var rest := LateBindFails(Step(s, Bind(p)), owner);
    StrandsAfter(s, Bind(p), rest, owner);
    events := [Bind(p)] + rest;
  }

  /** Another thread unlinks, and the path is free for it to bind. */
  lemma OtherUnlinksFirst(s: State, owner: Pid, p: Pid) returns (events: seq<Event>)
    requires Alive(s, owner) && s.processes[owner].thread.BeforeBind?
    requires p != owner && Alive(s, p) && s.processes[p].thread.BeforeUnlink?
    ensures Strands(s, events, owner)
  {
    var rest := OtherBindsFirst(Step(s, Unlink(p)), owner, p);
    StrandsAfter(s, Unlink(p), rest, owner);
    events := [Unlink(p)] + rest;
  }

  lemma ListenerIsUnlinked(s: State, owner: Pid, p: Pid) returns (events: seq<Event>)
    requires Alive(s, owner) && s.processes[owner].thread.Listening?
    requires p != owner && Alive(s, p) && s.processes[p].thread.BeforeUnlink?
    ensures Strands(s, events, owner)
  {
    StrandsAt(Step(s, Unlink(p)), owner);
    StrandsAfter(s, Unlink(p), [], owner);
    events := [Unlink(p)] + [];
  }

  lemma BlockedStrands(s: State, owner: Pid) returns (events: seq<Event>)
    requires OwnershipInv(s) && OnCourse(s, owner) && !ClearWay(s, owner)
    ensures Strands(s, events, owner)
  {
    match s.processes[owner].thread
    case Listening =>
      var p: nat :| p < |s.processes| && Alive(s, p) && s.processes[p].thread.BeforeUnlink? && p != owner;
      events := ListenerIsUnlinked(s, owner, p);
    case BeforeBind =>
      if s.path.Some? {
        events := LateBindFails(s, owner);
      } else if p: nat :| p < |s.processes| && Alive(s, p) && s.processes[p].thread.BeforeBind? && p != owner {
        events := OtherBindsFirst(s, owner, p);
      } else {
        var p: nat :| p < |s.processes| && Alive(s, p) && s.processes[p].thread.BeforeUnlink? && p != owner;
        events := OtherUnlinksFirst(s, owner, p);
      }
    case BeforeUnlink =>
      var next := Step(s, Unlink(owner));
      var rest;
      if p: nat :| p < |s.processes| && Alive(s, p) && s.processes[p].thread.BeforeBind? && p != owner {
        rest := OtherBindsFirst(next, owner, p);
      } else {
        var p: nat :| p < |s.processes| && Alive(s, p) && s.processes[p].thread.BeforeUnlink? && p != owner;
        rest := OtherUnlinksFirst(next, owner, p);
      }
      StrandsAfter(s, Unlink(owner), rest, owner);
      events := [Unlink(owner)] + rest;
  }

  /** Exactly when a lock holder's socket is safe: whatever everybody else does its bind succeeds and the path
      then keeps leading to it, if and only if its way is clear. */
  lemma HolderIsSafeIff(s: State, owner: Pid)
    requires OwnershipInv(s) && s.holder == Held(owner)
    ensures (forall events :: Run(s, events) && OwnerStays(events, owner) ==> OnCourse(Exec(s, events), owner))
            <==> OnCourse(s, owner) && ClearWay(s, owner)
  {
    if !OnCourse(s, owner) {
      assert Run(s, []) && OwnerStays([], owner) && !OnCourse(Exec(s, []), owner);
    } else if ClearWay(s, owner) {
      forall events | Run(s, events) && OwnerStays(events, owner) ensures OnCourse(Exec(s, events), owner) {
        ClearWayRun(s, events, owner);
      }
    } else {
      var events := BlockedStrands(s, owner);
      assert Strands(s, events, owner);
    }
  }

  /** A process that holds the lock and serves the path. */
  predicate Owns(s: State, p: Pid) {
    Serves(s, p) && s.holder == Held(p)
  }

  /** Every thread that could still unlink the path belongs to the lock holder. */
  predicate NoStragglers(s: State) {
    forall p :: 0 <= p < |s.processes| && Alive(s, p) && s.processes[p].thread.BeforeUnlink? ==> s.holder == Held(p)
  }

  lemma {:induction false} ListenerStaysOne(s: State, events: seq<Event>, owner: Pid)
    requires OwnershipInv(s) && s.holder == Held(owner) && s.processes[owner].thread.Listening?
    requires Run(s, events) && OwnerStays(events, owner)
    ensures owner < |Exec(s, events).processes| && Exec(s, events).processes[owner].thread.Listening?
    decreases |events|
  {
    if events != [] {
      assert !EndsOwnership(events[0], owner);
      HoldingStep(s, events[0], owner);
      ListenerStaysOne(Step(s, events[0]), events[1..], owner);
    }
  }

  /** Once the path is bound: it is safe with its owner if and only if no thread of another process still has
      its unlink before it. */
  lemma PathIsSafeIffNoStragglers(s: State, owner: Pid)
    requires OwnershipInv(s) && Owns(s, owner)
    ensures NoStragglers(s) <==>
            forall events :: Run(s, events) && OwnerStays(events, owner) ==> Serves(Exec(s, events), owner)
  {
    assert OnCourse(s, owner) && s.processes[owner].thread.Listening?;
    assert NoStragglers(s) <==> ClearWay(s, owner);
    HolderIsSafeIff(s, owner);
    forall events | Run(s, events) && OwnerStays(events, owner)
      ensures OnCourse(Exec(s, events), owner) <==> Serves(Exec(s, events), owner)
    {
      ListenerStaysOne(s, events, owner);
    }
    hide OwnershipInv, ClearWay, OnCourse, NoStragglers, Run, Exec;
  }

  /** A process whose bind failed never serves again. */
  lemma {:induction false} BindFailedForGood(s: State, events: seq<Event>, p: Pid)
    requires OwnershipInv(s) && p < |s.processes| && s.processes[p].thread.BindFailed?
             && !s.processes[p].standing.Requested?
    requires s.processes[p].everConfirmed && s.path != Some(p) && Run(s, events)
    ensures !Serves(Exec(s, events), p)
    decreases |events|
  {
    if events != [] {
      StepKeepsOwnership(s, events[0]);
      BindFailedForGood(Step(s, events[0]), events[1..], p);
    }
  }

  // ---- histories that keep the way clear ----

  /** Of the live processes only the lock holder's thread has its unlink or bind before it, and it is on course. */
  predicate Tidy(s: State) {
    && (forall p :: 0 <= p < |s.processes| && Pending(s, p) ==> s.holder == Held(p))
    && (s.holder.Held? ==> OnCourse(s, s.holder.pid))
    && (forall p :: 0 <= p < |s.processes| && Alive(s, p) && s.processes[p].thread.BeforeBind? ==> s.path == None)
  }

  /** The process gives up the lock, or has it taken. */
  predicate Ends(e: Event) {
    e.Unlock? || e.Revoke?
  }

  /** Whoever gives up the lock, or loses it, while its thread still has its unlink or bind before it exits in
      the same step. */
  predicate Orderly(s: State, events: seq<Event>)
    requires Run(s, events)
    decreases |events|
  {
    events == [] ||
    (&& (Ends(events[0]) && Pending(s, events[0].pid) ==> |events| > 1 && events[1] == Exit(events[0].pid))
     && Orderly(Step(s, events[0]), events[1..]))
  }

  /** Unlock and exit, and revocation and exit, are strictly one step. */
  predicate Strict(events: seq<Event>) {
    forall i :: 0 <= i < |events| && Ends(events[i]) ==> i + 1 < |events| && events[i + 1] == Exit(events[i].pid)
  }

  lemma {:induction false} StrictIsOrderly(s: State, events: seq<Event>)
    requires Run(s, events) && Strict(events)
    ensures Orderly(s, events)
    decreases |events|
  {
    hide Step, Enabled;
    if events != [] {
      assert Ends(events[0]) ==> events[0 + 1] == Exit(events[0].pid);
      assert Strict(events[1..]) by {
        forall i | 0 <= i < |events[1..]| && Ends(events[1..][i])
          ensures i + 1 < |events[1..]| && events[1..][i + 1] == Exit(events[1..][i].pid)
        {
          assert events[1..][i] == events[i + 1];
        }
      }
      StrictIsOrderly(Step(s, events[0]), events[1..]);
    }
  }

  lemma StepKeepsTidy(s: State, e: Event)
    requires OwnershipInv(s) && Tidy(s) && Enabled(s, e) && (Ends(e) ==> !Pending(s, e.pid))
    ensures Tidy(Step(s, e))
  {
    assert Touches(e) ==> Pending(s, e.pid);
    var t := Step(s, e);
    forall p | 0 <= p < |t.processes| && Pending(t, p) ensures t.holder == Held(p) {
      assert e != Confirm(p, true) ==> p < |s.processes| && Pending(s, p);
    }
    forall p | 0 <= p < |t.processes| && Alive(t, p) && t.processes[p].thread.BeforeBind? ensures t.path == None {
      assert Pending(s, p);
    }
  }

  lemma EndThenExitKeepsTidy(s: State, e: Event)
    requires OwnershipInv(s) && Tidy(s) && Enabled(s, e) && Ends(e) && Enabled(Step(s, e), Exit(e.pid))
    ensures Tidy(Step(Step(s, e), Exit(e.pid)))
  {
  }

  lemma {:induction false} OrderlyStaysTidy(s: State, events: seq<Event>)
    requires OwnershipInv(s) && Tidy(s) && Run(s, events) && Orderly(s, events)
    ensures OwnershipInv(Exec(s, events)) && Tidy(Exec(s, events))
    decreases |events|
  {
    hide OwnershipInv, Tidy, Step, Enabled;
    if events != [] {
      var e := events[0];
      StepKeepsOwnership(s, e);
      if Ends(e) && Pending(s, e.pid) {
        StepKeepsOwnership(Step(s, e), events[1]);
        EndThenExitKeepsTidy(s, e);
        OrderlyStaysTidy(Step(Step(s, e), events[1]), events[1..][1..]);
      } else {
        StepKeepsTidy(s, e);
        OrderlyStaysTidy(Step(s, e), events[1..]);
      }
    }
  }

  lemma TidyClearsTheWay(s: State, owner: Pid)
    requires OwnershipInv(s) && Tidy(s) && s.holder == Held(owner)
    ensures OnCourse(s, owner) && ClearWay(s, owner) && NobodyElsePending(s, owner)
  {
    forall p | 0 <= p < |s.processes| && Alive(s, p)
      ensures s.processes[p].thread.BeforeUnlink? || s.processes[p].thread.BeforeBind? ==> p == owner
    {
      assert Pending(s, p) ==> s.holder == Held(p);
    }
    hide OwnershipInv;
  }

  /** After any orderly history the lock holder alone touches the path from then on, its bind succeeds, and the
      path then leads to it until it gives up the lock, loses it, or dies, however many other processes come
      and go. */
  lemma HolderServesAfterOrderlyHistory(history: seq<Event>, events: seq<Event>, owner: Pid)
    requires Run(INITIAL, history) && Orderly(INITIAL, history) && Exec(INITIAL, history).holder == Held(owner)
    requires Run(Exec(INITIAL, history), events) && OwnerStays(events, owner)
    ensures OnCourse(Exec(Exec(INITIAL, history), events), owner) && OnlyOwnerTouches(events, owner)
  {
    OrderlyStaysTidy(INITIAL, history);
    hide OwnershipInv, Tidy, ClearWay, OnCourse, Run, Exec;
    var s := Exec(INITIAL, history);
    TidyClearsTheWay(s, owner);
    ClearWayRun(s, events, owner);
    HoldingRun(s, events, owner);
  }

  /** And its thread needs only to run: with nobody else in between it serves within two steps. */
  lemma HolderCanServe(s: State, owner: Pid) returns (events: seq<Event>)
    requires OwnershipInv(s) && s.holder == Held(owner) && OnCourse(s, owner) && ClearWay(s, owner)
    requires !s.processes[owner].thread.NotSpawned?
    ensures Run(s, events) && |events| <= 2 && OwnerStays(events, owner) && Serves(Exec(s, events), owner)
  {
    match s.processes[owner].thread
    case Listening => events := [];
    case BeforeBind =>
      RunOne(s, Bind(owner));
      events := [Bind(owner)];
    case BeforeUnlink =>
      RunTwo(s, Unlink(owner), Bind(owner));
      events := [Unlink(owner), Bind(owner)];
  }

  /** With unlock and exit strictly one step, in every run no live holder's bind ever fails, and a holder that
      listens is where the path leads. */
  lemma StrictHoldersServe(events: seq<Event>)
    requires Run(INITIAL, events) && Strict(events)
    ensures var t := Exec(INITIAL, events); t.holder.Held? ==> OnCourse(t, t.holder.pid) && ClearWay(t, t.holder.pid)
  {
    StrictIsOrderly(INITIAL, events);
    OrderlyStaysTidy(INITIAL, events);
    var t := Exec(INITIAL, events);
    if t.holder.Held? {
      TidyClearsTheWay(t, t.holder.pid);
    }
    hide OwnershipInv, Tidy, OnCourse, ClearWay;
  }

  // ---- what an unlock ahead of its exit can do ----

  lemma {:induction false} RunConcat(s: State, a: seq<Event>, b: seq<Event>)
    requires Run(s, a) && Run(Exec(s, a), b)
    ensures Run(s, a + b) && Exec(s, a + b) == Exec(Exec(s, a), b)
    ensures Orderly(s, a + b) ==> Orderly(Exec(s, a), b)
    decreases |a|
  {
    hide Step, Enabled;
    if a == [] {
      assert a + b == b;
    } else {
      RunConcat(Step(s, a[0]), a[1..], b);
      assert (a + b)[1..] == a[1..] + b;
    }
  }

  lemma RunOne(s: State, e: Event)
    requires Enabled(s, e)
    ensures Run(s, [e]) && Exec(s, [e]) == Step(s, e)
  {
    hide Step, Enabled;
    assert Run(Step(s, e), [e][1..]);
  }

  lemma RunTwo(s: State, e: Event, f: Event)
    requires Enabled(s, e) && Enabled(Step(s, e), f)
    ensures Run(s, [e, f]) && Exec(s, [e, f]) == Step(Step(s, e), f)
  {
    RunOne(s, e);
    RunOne(Step(s, e), f);
    RunConcat(s, [e], [f]);
    assert [e, f] == [e] + [f];
  }

  /** Process 0 is confirmed, but its socket thread has not run yet. */
  const LOCKING: seq<Event> := [Launch, Request(0)] + [Confirm(0, true)]
  const JUST_LOCKED := State([Process(Confirmed, BeforeUnlink, true, false)], Held(0), None)

  /** It unlocks all the same; process 1 takes the lock and publishes the path. */
  const TAKING_OVER: seq<Event> := [Unlock(0), Launch] + [Request(1), Confirm(1, true)] + [Unlink(1), Bind(1)]
  const TAKEN_OVER := State([Process(Released, BeforeUnlink, true, false), Process(Confirmed, Listening, true, true)],
                            Held(1), Some(1))

  lemma RunLocking()
    ensures Run(INITIAL, LOCKING) && Exec(INITIAL, LOCKING) == JUST_LOCKED
  {
    var requested := State([Process(Requested, NotSpawned, false, false)], Free, None);
    RunTwo(INITIAL, Launch, Request(0));
    assert Step(Step(INITIAL, Launch), Request(0)) == requested;
    RunOne(requested, Confirm(0, true));
    RunConcat(INITIAL, [Launch, Request(0)], [Confirm(0, true)]);
  }

  lemma RunTakingOver()
    ensures Run(JUST_LOCKED, TAKING_OVER) && Exec(JUST_LOCKED, TAKING_OVER) == TAKEN_OVER
  {
    var first := Process(Released, BeforeUnlink, true, false);
    var launched := State([first, Process(Starting, NotSpawned, false, false)], Free, None);
    var confirmed := State([first, Process(Confirmed, BeforeUnlink, true, false)], Held(1), None);
    RunUnlocking(launched);
    RunConfirming(launched, confirmed);
    RunBinding(confirmed);
    hide Step, Enabled, Run, Exec;
    RunConcat(JUST_LOCKED, [Unlock(0), Launch], [Request(1), Confirm(1, true)]);
    RunConcat(JUST_LOCKED, [Unlock(0), Launch] + [Request(1), Confirm(1, true)], [Unlink(1), Bind(1)]);
  }

  lemma RunUnlocking(launched: State)
    requires launched == State([Process(Released, BeforeUnlink, true, false),
                                Process(Starting, NotSpawned, false, false)], Free, None)
    ensures Run(JUST_LOCKED, [Unlock(0), Launch]) && Exec(JUST_LOCKED, [Unlock(0), Launch]) == launched
  {
    RunTwo(JUST_LOCKED, Unlock(0), Launch);
  }

  lemma RunConfirming(launched: State, confirmed: State)
    requires |launched.processes| == 2 && launched.processes[1] == Process(Starting, NotSpawned, false, false)
             && launched.holder == Free
    requires confirmed == launched.(processes := launched.processes[1 := Process(Confirmed, BeforeUnlink, true, false)],
                                    holder := Held(1))
    ensures Run(launched, [Request(1), Confirm(1, true)]) && Exec(launched, [Request(1), Confirm(1, true)]) == confirmed
  {
    RunTwo(launched, Request(1), Confirm(1, true));
  }

  lemma RunBinding(confirmed: State)
    requires confirmed == State([Process(Released, BeforeUnlink, true, false),
                                 Process(Confirmed, BeforeUnlink, true, false)], Held(1), None)
    ensures Run(confirmed, [Unlink(1), Bind(1)]) && Exec(confirmed, [Unlink(1), Bind(1)]) == TAKEN_OVER
  {
    RunTwo(confirmed, Unlink(1), Bind(1));
  }

  /** The thread of process 0, still alive, then takes the path from its live owner. */
  lemma HastyUnlockCanStrandTheNextLocker()
    ensures Run(INITIAL, LOCKING + TAKING_OVER) && !Orderly(INITIAL, LOCKING + TAKING_OVER)
    ensures var t := Exec(INITIAL, LOCKING + TAKING_OVER);
            Owns(t, 1) && Enabled(t, Unlink(0)) && !Serves(Step(t, Unlink(0)), 1)
  {
    RunLocking();
    RunTakingOver();
    RunConcat(INITIAL, LOCKING, TAKING_OVER);
    assert TAKING_OVER[0] == Unlock(0) && TAKING_OVER[1] == Launch;
  }

  /** Process 0 unlocks between its unlink and its bind; process 1 takes the lock and unlinks. */
  const LOCKED_UNBOUND := State([Process(Released, BeforeBind, true, true)], Free, None)
  const TAKING_OVER_UNBOUND: seq<Event> := [Launch, Request(1)] + [Confirm(1, true), Unlink(1)] + [Bind(0), Bind(1)]
  const SHUT_OUT := State([Process(Released, Listening, true, true), Process(Confirmed, BindFailed, true, true)],
                          Held(1), Some(0))

  lemma RunUnbound()
    ensures Run(JUST_LOCKED, [Unlink(0), Unlock(0)]) && Exec(JUST_LOCKED, [Unlink(0), Unlock(0)]) == LOCKED_UNBOUND
  {
    RunTwo(JUST_LOCKED, Unlink(0), Unlock(0));
  }

  lemma RunShuttingOut()
    ensures Run(LOCKED_UNBOUND, TAKING_OVER_UNBOUND) && Exec(LOCKED_UNBOUND, TAKING_OVER_UNBOUND) == SHUT_OUT
  {
    var first := Process(Released, BeforeBind, true, true);
    var requested := State([first, Process(Requested, NotSpawned, false, false)], Free, None);
    var unlinked := State([first, Process(Confirmed, BeforeBind, true, true)], Held(1), None);
    RunSecondAsks(requested);
    RunSecondUnlinks(requested, unlinked);
    RunBothBind(unlinked);
    hide Step, Enabled, Run, Exec;
    RunConcat(LOCKED_UNBOUND, [Launch, Request(1)], [Confirm(1, true), Unlink(1)]);
    RunConcat(LOCKED_UNBOUND, [Launch, Request(1)] + [Confirm(1, true), Unlink(1)], [Bind(0), Bind(1)]);
  }

  lemma RunSecondAsks(requested: State)
    requires requested == LOCKED_UNBOUND.(processes := LOCKED_UNBOUND.processes
                                                       + [Process(Requested, NotSpawned, false, false)])
    ensures Run(LOCKED_UNBOUND, [Launch, Request(1)]) && Exec(LOCKED_UNBOUND, [Launch, Request(1)]) == requested
  {
    RunTwo(LOCKED_UNBOUND, Launch, Request(1));
  }

  lemma RunSecondUnlinks(requested: State, unlinked: State)
    requires |requested.processes| == 2 && requested.processes[1] == Process(Requested, NotSpawned, false, false)
    requires requested.holder == Free && requested.path == None
    requires unlinked == requested.(processes := requested.processes[1 := Process(Confirmed, BeforeBind, true, true)],
                                    holder := Held(1))
    ensures Run(requested, [Confirm(1, true), Unlink(1)]) && Exec(requested, [Confirm(1, true), Unlink(1)]) == unlinked
  {
    RunTwo(requested, Confirm(1, true), Unlink(1));
  }

  lemma RunBothBind(unlinked: State)
    requires unlinked == State([Process(Released, BeforeBind, true, true),
                                Process(Confirmed, BeforeBind, true, true)], Held(1), None)
    ensures Run(unlinked, [Bind(0), Bind(1)]) && Exec(unlinked, [Bind(0), Bind(1)]) == SHUT_OUT
  {
    RunTwo(unlinked, Bind(0), Bind(1));
  }

  /** The thread of process 0, still alive, binds the path ahead of the live owner of the lock, whose socket
      is then unreachable for good. */
  lemma HastyUnlockCanShutTheNextLockerOut()
    ensures Run(INITIAL, LOCKING + [Unlink(0), Unlock(0)] + TAKING_OVER_UNBOUND)
    ensures var t := Exec(INITIAL, LOCKING + [Unlink(0), Unlock(0)] + TAKING_OVER_UNBOUND);
            && t.holder == Held(1) && Alive(t, 1) && t.processes[1].thread.BindFailed?
            && t.path == Some(0) && t.processes[0].standing.Released?
            && (forall more :: Run(t, more) ==> !Serves(Exec(t, more), 1))
  {
    RunLocking();
    RunUnbound();
    RunShuttingOut();
    hide Step, Enabled, Run, Exec;
    RunConcat(INITIAL, LOCKING, [Unlink(0), Unlock(0)]);
    RunConcat(INITIAL, LOCKING + [Unlink(0), Unlock(0)], TAKING_OVER_UNBOUND);
    ShutOutIsPossible();
    forall more | Run(SHUT_OUT, more) ensures !Serves(Exec(SHUT_OUT, more), 1) {
      BindFailedForGood(SHUT_OUT, more, 1);
    }
  }

  lemma ShutOutIsPossible()
    ensures OwnershipInv(SHUT_OUT)
  {
  }
}
