/** The `Locker` object in its own imperative form. Every callback is proved against the function that
    the authentication and display machines use for it; what is proved of runs of those machines is
    therefore proved of this code. The clock, the painters and what other threads left in `latest` are
    parameters. */
module Locker {
  import opened Words
  import opened Wire
  import opened Render
  import opened LockProtocol
  import opened Outputs
  import opened Socket
  import opened Auth
  import Lifecycle

  /** No, one or two repaints of the locks. */
  function LocksRedrawn(ui: Ui, rounds: nat, first: Scene, second: Scene): Ui {
    if rounds == 0 then ui
    else if rounds == 1 then Redrawn(ui, SessionIndices(ui.surfaces), first)
    else Redrawn(Redrawn(ui, SessionIndices(ui.surfaces), first), SessionIndices(ui.surfaces), second)
  }

  lemma NoSessionIndices()
    ensures SessionIndices([]) == []
  {
  }

  /** The session entries among the first `n + 1`, from those among the first `n`. */
  lemma NextSessionIndex(es: seq<Entry>, n: nat)
    requires n < |es|
    ensures var shorter, longer := SessionIndices(es[..n]), SessionIndices(es[..n + 1]);
            if es[n].role == Session then |longer| > 0 && longer[..|longer| - 1] == shorter && longer[|longer| - 1] == n
            else longer == shorter
  {
    assert es[..n + 1][..n] == es[..n];
  }

  /** A repaint of one entry more. */
  lemma OneMoreRedrawn(ui: Ui, indices: seq<nat>, scene: Scene)
    requires indices != [] && forall k :: 0 <= k < |indices| ==> indices[k] < |ui.surfaces|
    ensures var n, before := indices[|indices| - 1], Redrawn(ui, indices[..|indices| - 1], scene);
            n < |before.surfaces|
            && Redrawn(ui, indices, scene) == Outputs.RenderSurface(before, n, SeenAt(scene, n), PaintAt(scene, n))
  {
  }

  class Locker {
    const socket: SocketState
    const kioskOutputs: seq<string>
    var lock: LockHandle
    var known: seq<OutputId>
    var info: map<OutputId, OutputInfo>
    var surfaces: seq<Entry>
    var nextSurface: SurfaceId
    var socketPath: Option<string>
    var daemonReady: bool
    var sigusr1Seen: bool
    var traffic: seq<Message>

    var password: string
    var capsLock: bool
    var failed: bool
    var verifying: bool
    var failCount: nat
    var lockedUntil: Option<Time>
    var nextAttemptId: nat
    var attempts: seq<Attempt>
    var workerAlive: bool
    var exitCode: Option<int>

    ghost function Credentials(): Fields
      reads this
    {
      Fields(password, failed, verifying, failCount, lockedUntil, nextAttemptId)
    }

    ghost function Screen(): Ui
      reads this
    {
      Ui(lock, known, info, kioskOutputs, surfaces, nextSurface, capsLock, sigusr1Seen, socketPath, daemonReady,
         traffic)
    }

    constructor (socket: SocketState, kioskOutputs: seq<string>, socketPath: Option<string>, daemonReady: bool)
      ensures this.socket == socket
      ensures Credentials() == NO_ATTEMPT_YET && attempts == [] && workerAlive && exitCode == None
      ensures Screen() == Ui(NoLock, [], map[], kioskOutputs, [], 0, false, false, socketPath, daemonReady, [])
    {
      this.socket, this.kioskOutputs := socket, kioskOutputs;
      this.socketPath, this.daemonReady := socketPath, daemonReady;
      lock, known, info, surfaces, nextSurface, sigusr1Seen, traffic := NoLock, [], map[], [], 0, false, [];
      password, capsLock, failed, verifying := "", false, false, false;
      failCount, lockedUntil, nextAttemptId := 0, None, 1;
      attempts, workerAlive, exitCode := [], true, None;
    }

    // ---- rendering ----

    method RenderSurface(idx: nat, latest: Option<Frame>, paint: Paint)
      requires idx < |surfaces|
      modifies this`traffic
      ensures Screen() == Outputs.RenderSurface(old(Screen()), idx, latest, paint)
    {
      var e := surfaces[idx];
      if e.width == 0 || e.height == 0 {
        return;
      }
      SizesAreMultiplesOfFour(e.width, e.height);
      var wanted := WrappedSize(e.width, e.height);
      var rgba, streamed := paint.content, false;
      if e.role == Kiosk && latest.Some? && latest.value.width == e.width && latest.value.height == e.height {
        rgba, streamed := latest.value.rgba, true;
      }
      if |rgba| != wanted {
        rgba, streamed := paint.fallback, false;
      }
      if |rgba| != wanted {
        return;
      }
      var canvas := new Byte[PixelBytes(e.width, e.height)](i => paint.stale(i));
      SwizzleInto(canvas, rgba, paint.stale);
      traffic := traffic + [Commit(e.surface, Size(e.width, e.height), canvas[..], streamed)];
    }

    method RedrawAll(scene: Scene)
      modifies this`traffic
      ensures Screen() == Redrawn(old(Screen()), Indices(|old(surfaces)|), scene)
    {
      hide Outputs.RenderSurface;
      ghost var before := Screen();
      for idx := 0 to |surfaces|
        invariant surfaces == before.surfaces
        invariant Screen() == Redrawn(before, Indices(idx), scene)
      {
        RenderSurface(idx, SeenAt(scene, idx), PaintAt(scene, idx));
        assert Indices(idx + 1)[..idx] == Indices(idx);
      }
    }

    method RedrawLocks(scene: Scene)
      modifies this`traffic
      ensures Screen() == Redrawn(old(Screen()), SessionIndices(old(surfaces)), scene)
    {
      ghost var before := Screen();
      NoSessionIndices();
      assert Redrawn(before, [], scene) == before;
      hide Outputs.RenderSurface, SessionIndices, Redrawn;
      for idx := 0 to |surfaces|
        invariant surfaces == before.surfaces
        invariant Screen() == Redrawn(before, SessionIndices(surfaces[..idx]), scene)
      {
        NextSessionIndex(surfaces, idx);
        if surfaces[idx].role == Session {
          OneMoreRedrawn(before, SessionIndices(surfaces[..idx + 1]), scene);
          RenderSurface(idx, SeenAt(scene, idx), PaintAt(scene, idx));
        }
      }
      assert surfaces[..|surfaces|] == surfaces;
    }

    // ---- authentication ----

    method BackoffRunning(now: Time) returns (active: bool)
      ensures active == BackoffActive(Credentials(), now)
    {
      active := lockedUntil.Some? && now < lockedUntil.value;
    }

    /** The whole buffer leaves with the next id, and nothing of it stays behind. */
    method TakeAttempt() returns (attempt: Attempt)
      modifies this`password, this`failed, this`verifying, this`nextAttemptId
      ensures attempt == Attempt(old(nextAttemptId), old(password))
      ensures Credentials() == old(Credentials()).(nextAttemptId := SaturatingInc(old(nextAttemptId), U64_MAX),
                                                   password := "", verifying := true, failed := false)
      ensures Screen() == old(Screen())
    {
      attempt := Attempt(nextAttemptId, password);
      nextAttemptId := SaturatingInc(nextAttemptId, U64_MAX);
      password := "";
      verifying := true;
      failed := false;
    }

    method Submit(now: Time, first: Scene, second: Scene)
      modifies this`password, this`failed, this`verifying, this`nextAttemptId, this`attempts, this`traffic
      ensures var h := Auth.Submit(old(Credentials()), now, workerAlive);
              && Credentials() == h.fields
              && attempts == (if h.sent.Some? then old(attempts) + [h.sent.value] else old(attempts))
              && Screen() == LocksRedrawn(old(Screen()), h.redraws, first, second)
    {
      hide Redrawn, SessionIndices;
      if verifying {
        return;
      }
      var active := BackoffRunning(now);
      if active {
        return;
      }
      if password == "" {
        return;
      }
      var attempt := TakeAttempt();
      RedrawLocks(first);
      HandOver(attempt, second);
    }

    /** Sends the attempt, or shows that there is nobody to send it to. */
    method HandOver(attempt: Attempt, scene: Scene)
      modifies this`failed, this`verifying, this`attempts, this`traffic
      ensures workerAlive ==>
                && attempts == old(attempts) + [attempt]
                && Credentials() == old(Credentials()) && Screen() == old(Screen())
      ensures !workerAlive ==>
                && attempts == old(attempts)
                && Credentials() == old(Credentials()).(verifying := false, failed := true)
                && Screen() == Redrawn(old(Screen()), SessionIndices(old(surfaces)), scene)
    {
      hide Redrawn, SessionIndices;
      if workerAlive {
        attempts := attempts + [attempt];
        return;
      }
      verifying := false;
      failed := true;
      RedrawLocks(scene);
    }

    /** An edited buffer dismisses the failure on display. */
    method Edit(buffer: string, scene: Scene)
      modifies this`password, this`failed, this`traffic
      ensures Credentials() == old(Credentials()).(password := buffer, failed := false)
      ensures Screen() == Redrawn(old(Screen()), SessionIndices(old(surfaces)), scene)
    {
      hide Redrawn, SessionIndices;
      password := buffer;
      failed := false;
      RedrawLocks(scene);
    }

    method PressKey(event: KeyEvent, now: Time, later: Time, first: Scene, second: Scene)
      modifies this`password, this`failed, this`verifying, this`nextAttemptId, this`attempts, this`traffic
      ensures var h := Auth.PressKey(old(Credentials()), event, now, later, workerAlive);
              && Credentials() == h.fields
              && attempts == (if h.sent.Some? then old(attempts) + [h.sent.value] else old(attempts))
              && Screen() == LocksRedrawn(old(Screen()), h.redraws, first, second)
              && (now <= later ==> KeyDoes(old(Credentials()), event, now, workerAlive, h))
    {
      if now <= later {
        KeyExactly(Credentials(), event, now, later, workerAlive);
      }
      hide Redrawn, SessionIndices, Auth.Submit, KeyDoes, BackoffActive, ControlFree;
      var active := BackoffRunning(now);
      if verifying || active {
        return;
      }
      match event.keysym
      case Return => Submit(later, first, second);
      case KpEnter => Submit(later, first, second);
      case BackSpace => Edit(if password == "" then "" else password[..|password| - 1], first);
      case Escape => Edit("", first);
      case Other =>
        if event.utf8.Some? {
          TypeText(event.utf8.value, first);
        }
    }

    /** Text with a control character in it is not typed. */
    method TypeText(text: string, scene: Scene)
      modifies this`password, this`failed, this`traffic
      ensures text != "" && ControlFree(text) ==>
                && Credentials() == old(Credentials()).(password := old(password) + text, failed := false)
                && Screen() == Redrawn(old(Screen()), SessionIndices(old(surfaces)), scene)
      ensures text == "" || !ControlFree(text) ==> Credentials() == old(Credentials()) && Screen() == old(Screen())
    {
      hide Redrawn, SessionIndices, ControlFree;
      var control := HasControl(text);
      if text != "" && !control {
        Edit(password + text, scene);
      }
    }

    static method HasControl(text: string) returns (found: bool)
      ensures found == !ControlFree(text)
    {
      for i := 0 to |text|
        invariant forall j :: 0 <= j < i ==> !IsControl(text[j])
      {
        if IsControl(text[i]) {
          return true;
        }
      }
      return false;
    }

    /** The fields of a failed verdict. */
    method RefuseAttempt(now: Time)
      modifies this`password, this`failed, this`verifying, this`failCount, this`lockedUntil
      ensures Credentials() == Refuse(old(Credentials()), now) && Screen() == old(Screen())
      ensures !verifying && failed && password == ""
      ensures failCount == Min(old(failCount) + 1, U32_MAX) && lockedUntil == Some(now + Min(failCount, 5) * SECOND)
    {
      verifying := false;
      failed := true;
      password := "";
      failCount := SaturatingInc(failCount, U32_MAX);
      lockedUntil := Some(now + Min(failCount, 5) * SECOND);
    }

    method OnAuth(result: Result, now: Time, scene: Scene)
      modifies this`password, this`failed, this`verifying, this`failCount, this`lockedUntil, this`lock, this`exitCode,
               this`traffic
      ensures result.outcome == Unlocked ==>
                && exitCode == Some(0)
                && Credentials() == old(Credentials()).(verifying := false)
                && Screen() == Unlock(old(Screen()))
      ensures result.outcome != Unlocked ==>
                && exitCode == old(exitCode)
                && Credentials() == Refuse(old(Credentials()), now)
                && Screen() == Redrawn(old(Screen()), SessionIndices(old(surfaces)), scene)
      ensures result.outcome != Unlocked ==>
                && !verifying && failed && password == "" && nextAttemptId == old(nextAttemptId)
                && failCount == Min(old(failCount) + 1, U32_MAX)
                && lockedUntil == Some(now + Min(failCount, 5) * SECOND)
    {
      hide Redrawn, SessionIndices, Refuse;
      if result.outcome == Unlocked {
        verifying := false;
        if lock != NoLock {
          lock := NoLock;
          traffic := traffic + [UnlockAndDestroy];
        }
        exitCode := Some(0);
        return;
      }
      RefuseAttempt(now);
      RedrawLocks(scene);
    }

    /** The 1s timer. */
    method OnTick(now: Time, scene: Scene)
      modifies this`lockedUntil, this`sigusr1Seen, this`traffic
      ensures Credentials() == Sweep(old(Credentials()), now)
      ensures lockedUntil == if Accepting(old(Credentials()).(verifying := false), now) then None else old(lockedUntil)
      ensures !sigusr1Seen
      ensures var effect := Repaint(old(Screen()));
              Screen() == Redrawn(effect.ui, effect.redraw, scene)
    {
      if lockedUntil.Some? && now >= lockedUntil.value {
        lockedUntil := None;
      }
      if sigusr1Seen {
        sigusr1Seen := false;
      }
      RedrawAll(scene);
    }

    // ---- outputs and lock surfaces ----

    method PositionOfOutput(o: OutputId) returns (idx: nat)
      ensures idx == IndexOfOutput(surfaces, o)
    {
      idx := 0;
      while idx < |surfaces| && surfaces[idx].output != o
        invariant 0 <= idx <= |surfaces|
        invariant IndexOfOutput(surfaces, o) == idx + IndexOfOutput(surfaces[idx..], o)
      {
        assert surfaces[idx..][1..] == surfaces[idx + 1..];
        idx := idx + 1;
      }
    }

    method PositionOfSurface(s: SurfaceId) returns (idx: nat)
      ensures idx == IndexOfSurface(surfaces, s)
    {
      idx := 0;
      while idx < |surfaces| && surfaces[idx].surface != s
        invariant 0 <= idx <= |surfaces|
        invariant IndexOfSurface(surfaces, s) == idx + IndexOfSurface(surfaces[idx..], s)
      {
        assert surfaces[idx..][1..] == surfaces[idx + 1..];
        idx := idx + 1;
      }
    }

    method RefreshKioskGeometry()
      modifies socket`geometry
      ensures OfFirstSized(socket.geometry, surfaces) && socket.geometry == KioskGeometry(surfaces)
    {
      ScanIsOfFirstSized(surfaces);
      hide OfFirstSized;
      var idx := 0;
      while idx < |surfaces| && !IsSizedKiosk(surfaces[idx])
        invariant 0 <= idx <= |surfaces|
        invariant KioskGeometry(surfaces) == KioskGeometry(surfaces[idx..])
      {
        assert surfaces[idx..][1..] == surfaces[idx + 1..];
        idx := idx + 1;
      }
      if idx < |surfaces| {
        socket.SetGeometry(surfaces[idx].width, surfaces[idx].height, surfaces[idx].scale);
      } else {
        socket.SetGeometry(0, 0, 1);
      }
    }

    method OutputDetails(o: OutputId) returns (name: string, role: OutputRole, scale: U32)
      ensures name == Name(Screen(), o) && role == Role(Screen(), o) && scale == Scale(Screen(), o)
    {
      name := if o in info && info[o].name.Some? then info[o].name.value else "";
      role := RoleFor(kioskOutputs, name);
      scale := if o in info && info[o].scale > 1 then info[o].scale else 1;
    }

    method AddOutputSurface(o: OutputId)
      modifies this`surfaces, this`nextSurface, this`traffic
      ensures Screen() == AddSurface(old(Screen()), o)
    {
      var idx := PositionOfOutput(o);
      if idx < |surfaces| {
        return;
      }
      var name, role, scale := OutputDetails(o);
      traffic := traffic + [CreateLockSurface(nextSurface, o)];
      surfaces := surfaces + [Entry(o, nextSurface, role, name, 0, 0, scale)];
      nextSurface := nextSurface + 1;
    }

    method UpdateOutputSurface(o: OutputId, scene: Scene)
      modifies this`surfaces, this`nextSurface, this`traffic, socket`geometry
      ensures var effect := UpdateOutput(old(Screen()), o);
              && Screen() == Redrawn(effect.ui, effect.redraw, scene)
              && socket.geometry == (if effect.geometry.Some? then effect.geometry.value else old(socket.geometry))
    {
      var idx := PositionOfOutput(o);
      if idx == |surfaces| {
        if lock != Held {
          return;
        }
        AddOutputSurface(o);
        return;
      }
      var name, role, scale := OutputDetails(o);
      var entry := surfaces[idx];
      if entry.name == name && entry.role == role && entry.scale == scale {
        return;
      }
      surfaces := surfaces[idx := entry.(name := name, role := role, scale := scale)];
      RefreshKioskGeometry();
      RenderSurface(idx, SeenAt(scene, idx), PaintAt(scene, idx));
    }

    method RemoveOutputSurface(o: OutputId)
      modifies this`surfaces, this`traffic, socket`geometry
      ensures var effect := RemoveOutput(old(Screen()), o);
              && Screen() == effect.ui
              && socket.geometry == (if effect.geometry.Some? then effect.geometry.value else old(socket.geometry))
    {
      var idx := PositionOfOutput(o);
      if idx == |surfaces| {
        return;
      }
      var entry := surfaces[idx];
      surfaces := surfaces[..idx] + surfaces[idx + 1..];
      traffic := traffic + [DestroyLockSurface(entry.surface)];
      RefreshKioskGeometry();
    }

    method NewOutput(o: OutputId)
      modifies this`surfaces, this`nextSurface, this`traffic
      ensures Screen() == Outputs.NewOutput(old(Screen()), o)
    {
      if lock != Held {
        return;
      }
      AddOutputSurface(o);
    }

    /** The snapshot of known outputs, stably sorted with session outputs first. */
    method Ordered() returns (ordered: seq<OutputId>)
      ensures ordered == SessionFirst(Screen(), known)
    {
      var sessions, kiosks: seq<OutputId> := [], [];
      for i := 0 to |known|
        invariant sessions == OfRole(Screen(), known[..i], Session)
        invariant kiosks == OfRole(Screen(), known[..i], Kiosk)
      {
        assert known[..i + 1][..i] == known[..i];
        var _, role, _ := OutputDetails(known[i]);
        if role == Kiosk {
          kiosks := kiosks + [known[i]];
        } else {
          sessions := sessions + [known[i]];
        }
      }
      assert known[..|known|] == known;
      return sessions + kiosks;
    }

    /** The `locked` callback; `serve` is whether it starts the kiosk socket, and `ready` whether it
        reports to a waiting parent. */
    method OnLocked() returns (serve: bool, ready: bool)
      modifies this`lock, this`surfaces, this`nextSurface, this`traffic, this`socketPath, this`daemonReady
      ensures Screen() == Outputs.Locked(old(Screen()))
      ensures serve == old(socketPath).Some? && ready == old(daemonReady)
      ensures lock == Held && socketPath == None && !daemonReady
    {
      hide SessionFirst, AddSurface;
      lock := Held;
      traffic := traffic + [LockConfirmed];
      ghost var before := Screen();
      var ordered := Ordered();
      serve := socketPath.Some?;
      socketPath := None;
      ghost var held := Screen();
      Lifecycle.SameRegistrySamePartition(before, held, known);
      for i := 0 to |ordered|
        invariant Screen() == AddSurfaces(held, ordered[..i]) && daemonReady == old(daemonReady)
        invariant lock == Held && socketPath == None
      {
        assert ordered[..i + 1][..i] == ordered[..i];
        AddOutputSurface(ordered[i]);
      }
      assert ordered[..|ordered|] == ordered;
      ready := daemonReady;
      daemonReady := false;
    }

    method OnConfigure(s: SurfaceId, w: U32, h: U32, scene: Scene)
      modifies this`surfaces, this`traffic, socket`geometry
      ensures var effect := Configure(old(Screen()), s, w, h);
              && Screen() == Redrawn(effect.ui, effect.redraw, scene)
              && socket.geometry == (if effect.geometry.Some? then effect.geometry.value else old(socket.geometry))
    {
      var idx := PositionOfSurface(s);
      if idx < |surfaces| {
        traffic := traffic + [AckConfigure(s, Size(w, h))];
        surfaces := surfaces[idx := surfaces[idx].(width := w, height := h)];
        RefreshKioskGeometry();
        RenderSurface(idx, SeenAt(scene, idx), PaintAt(scene, idx));
      }
    }

    method UpdateModifiers(caps: bool, scene: Scene)
      modifies this`capsLock, this`traffic
      ensures var effect := Handle(old(Screen()), Modifiers(caps));
              Screen() == Redrawn(effect.ui, effect.redraw, scene)
      ensures capsLock == caps
    {
      hide SessionIndices, Outputs.RenderSurface;
      if caps != capsLock {
        capsLock := caps;
        RedrawLocks(scene);
      }
    }
  }
}
