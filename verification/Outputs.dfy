/** The locker's outputs and lock surfaces: what every output and lock callback does to them. */
module Outputs {
  import opened Words
  import opened Wire
  import opened Render
  import opened LockProtocol

  type I32 = x: int | -0x8000_0000 <= x < 0x8000_0000

  datatype OutputRole = Kiosk | Session

  function RoleFor(kioskOutputs: seq<string>, name: string): OutputRole {
    if name in kioskOutputs then Kiosk else Session
  }

  datatype OutputInfo = OutputInfo(name: Option<string>, scale: I32)

  datatype Entry = Entry(output: OutputId, surface: SurfaceId, role: OutputRole, name: string,
                         width: U32, height: U32, scale: U32)

  /** `Option<SessionLock>` and its `is_locked`. */
  datatype LockHandle = NoLock | Pending | Held

  /** The locker's display fields. `known` and `info` are the output registry's: outputs bound and not
      yet removed, in order, and what each has announced. `traffic` is the lock connection's history. */
  datatype Ui = Ui(lock: LockHandle, known: seq<OutputId>, info: map<OutputId, OutputInfo>, kioskOutputs: seq<string>,
                   surfaces: seq<Entry>, nextSurface: SurfaceId, capsLock: bool, sigusr1Seen: bool,
                   socketPath: Option<string>, daemonReady: bool, traffic: seq<Message>)

  /** A handler's effect: the new fields, the kiosk geometry it publishes, and the entries it redraws. */
  datatype Effect = Effect(ui: Ui, geometry: Option<Geometry>, redraw: seq<nat>)

  // ---- lookups ----

  /** `position(|entry| entry.output == o)`, or the length of the list. */
  function IndexOfOutput(es: seq<Entry>, o: OutputId): (i: nat)
    ensures i <= |es|
    ensures i < |es| ==> es[i].output == o
    ensures forall j :: 0 <= j < i ==> es[j].output != o
  {
    if es == [] || es[0].output == o then 0 else 1 + IndexOfOutput(es[1..], o)
  }

  function IndexOfSurface(es: seq<Entry>, s: SurfaceId): (i: nat)
    ensures i <= |es|
    ensures i < |es| ==> es[i].surface == s
    ensures forall j :: 0 <= j < i ==> es[j].surface != s
  {
    if es == [] || es[0].surface == s then 0 else 1 + IndexOfSurface(es[1..], s)
  }

  function Name(ui: Ui, o: OutputId): string {
    if o in ui.info && ui.info[o].name.Some? then ui.info[o].name.value else ""
  }

  function Role(ui: Ui, o: OutputId): OutputRole {
    RoleFor(ui.kioskOutputs, Name(ui, o))
  }

  function Scale(ui: Ui, o: OutputId): U32 {
    if o in ui.info && ui.info[o].scale > 1 then ui.info[o].scale else 1
  }

  predicate IsSizedKiosk(e: Entry) {
    e.role == Kiosk && e.width > 0 && e.height > 0
  }

  /** The scan of `refresh_kiosk_geometry`. */
  function KioskGeometry(es: seq<Entry>): Geometry {
    if es == [] then Geometry(0, 0, 1)
    else if IsSizedKiosk(es[0]) then Geometry(es[0].width, es[0].height, es[0].scale)
    else KioskGeometry(es[1..])
  }

  /** No entry is a kiosk with a width and a height. */
  predicate NoSizedKiosk(es: seq<Entry>) {
    forall i :: 0 <= i < |es| ==> es[i].role != Kiosk || es[i].width == 0 || es[i].height == 0
  }

  /** `g` is the width, height and scale of the first kiosk entry that has a width and a height, whatever
      entries come before it, or 0x0 at scale 1 if there is none. */
  predicate OfFirstSized(g: Geometry, es: seq<Entry>) {
    && (forall i :: 0 <= i < |es| && es[i].role == Kiosk && es[i].width > 0 && es[i].height > 0 ==>
          NoSizedKiosk(es[..i]) ==> g == Geometry(es[i].width, es[i].height, es[i].scale))
    && (NoSizedKiosk(es) ==> g == Geometry(0, 0, 1))
  }

  lemma {:induction false} ScanIsOfFirstSized(es: seq<Entry>)
    ensures OfFirstSized(KioskGeometry(es), es)
    ensures KioskGeometry(es) == Geometry(0, 0, 1) ==> NoSizedKiosk(es)
  {
    if es != [] {
      var rest := es[1..];
      ScanIsOfFirstSized(rest);
      forall i | 0 <= i < |es| && es[i].role == Kiosk && es[i].width > 0 && es[i].height > 0 && NoSizedKiosk(es[..i])
        ensures KioskGeometry(es) == Geometry(es[i].width, es[i].height, es[i].scale)
      {
        if i > 0 {
          assert es[..i][0] == es[0];
          assert es[..i][1..] == rest[..i - 1];
          assert NoSizedKiosk(rest[..i - 1]);
          assert rest[i - 1] == es[i];
        }
      }
      if NoSizedKiosk(es) {
        assert NoSizedKiosk(rest);
        assert es[0] in es;
      }
      if KioskGeometry(es) == Geometry(0, 0, 1) {
        assert NoSizedKiosk(rest);
      }
    }
  }

  function Indices(n: nat): (r: seq<nat>)
    ensures |r| == n && forall i :: 0 <= i < n ==> r[i] == i
  {
    seq(n, i => i)
  }

  function SessionIndices(es: seq<Entry>): (r: seq<nat>)
    ensures forall k :: 0 <= k < |r| ==> r[k] < |es| && es[r[k]].role == Session
  {
    if es == [] then []
    else SessionIndices(es[..|es| - 1]) + if es[|es| - 1].role == Session then [|es| - 1] else []
  }

  /** The entries `redraw_locks` paints: all session entries, each once, in order. */
  lemma {:induction false} SessionIndicesExactly(es: seq<Entry>)
    ensures forall i: nat :: i in SessionIndices(es) <==> i < |es| && es[i].role == Session
    ensures Ascending(SessionIndices(es))
  {
    if es != [] {
      var n := |es| - 1;
      SessionIndicesExactly(es[..n]);
      assert forall i :: 0 <= i < n ==> es[..n][i] == es[i];
    }
  }

  // ---- handlers ----

  function Send(ui: Ui, m: Message): Ui {
    ui.(traffic := ui.traffic + [m])
  }

  function AddSurface(ui: Ui, o: OutputId): Ui {
    if IndexOfOutput(ui.surfaces, o) < |ui.surfaces| then ui
    else
      var e := Entry(o, ui.nextSurface, Role(ui, o), Name(ui, o), 0, 0, Scale(ui, o));
      Send(ui, CreateLockSurface(ui.nextSurface, o)).(surfaces := ui.surfaces + [e], nextSurface := ui.nextSurface + 1)
  }

  function AddSurfaces(ui: Ui, os: seq<OutputId>): Ui {
    if os == [] then ui else AddSurface(AddSurfaces(ui, os[..|os| - 1]), os[|os| - 1])
  }

  function NewOutput(ui: Ui, o: OutputId): Ui {
    if ui.lock == Held then AddSurface(ui, o) else ui
  }

  function UpdateOutput(ui: Ui, o: OutputId): Effect {
    var i := IndexOfOutput(ui.surfaces, o);
    if i == |ui.surfaces| then Effect(if ui.lock == Held then AddSurface(ui, o) else ui, None, [])
    else
      var e := ui.surfaces[i];
      var updated := e.(name := Name(ui, o), role := Role(ui, o), scale := Scale(ui, o));
      if updated == e then Effect(ui, None, [])
      else
        var es := ui.surfaces[i := updated];
        Effect(ui.(surfaces := es), Some(KioskGeometry(es)), [i])
  }

  function RemoveOutput(ui: Ui, o: OutputId): Effect {
    var i := IndexOfOutput(ui.surfaces, o);
    if i == |ui.surfaces| then Effect(ui, None, [])
    else
      var es := ui.surfaces[..i] + ui.surfaces[i + 1..];
      Effect(Send(ui, DestroyLockSurface(ui.surfaces[i].surface)).(surfaces := es), Some(KioskGeometry(es)), [])
  }

  /** `sort_by_key(|o| role == Kiosk)` is stable: Session outputs first, each group in its old order. */
  function SessionFirst(ui: Ui, os: seq<OutputId>): seq<OutputId> {
    OfRole(ui, os, Session) + OfRole(ui, os, Kiosk)
  }

  function OfRole(ui: Ui, os: seq<OutputId>, role: OutputRole): seq<OutputId> {
    if os == [] then []
    else OfRole(ui, os[..|os| - 1], role) + if Role(ui, os[|os| - 1]) == role then [os[|os| - 1]] else []
  }

  /** The `locked` callback, up to and including the surfaces of the outputs it snapshots. */
  function Locked(ui: Ui): Ui {
    var held := Send(ui, LockConfirmed).(lock := Held, socketPath := None);
    AddSurfaces(held, SessionFirst(held, held.known)).(daemonReady := false)
  }

  function Configure(ui: Ui, s: SurfaceId, w: U32, h: U32): Effect {
    var i := IndexOfSurface(ui.surfaces, s);
    if i == |ui.surfaces| then Effect(ui, None, [])
    else
      var es := ui.surfaces[i := ui.surfaces[i].(width := w, height := h)];
      Effect(Send(ui, AckConfigure(s, Size(w, h))).(surfaces := es), Some(KioskGeometry(es)), [i])
  }

  /** `render_surface`, given what it found in `latest` and what the painters returned. */
  function RenderSurface(ui: Ui, i: nat, latest: Option<Frame>, paint: Paint): (r: Ui)
    requires i < |ui.surfaces|
    ensures r == ui.(traffic := r.traffic)
  {
    var e := ui.surfaces[i];
    var buffer := Committed(e.role == Kiosk, e.width, e.height, latest, paint);
    if buffer.None? then ui
    else
      var streamed := Streamed(e.role == Kiosk, e.width, e.height, latest);
      var fits := streamed.Some? && |streamed.value.rgba| == WrappedSize(e.width, e.height);
      Send(ui, Commit(e.surface, Size(e.width, e.height), buffer.value, fits))
  }

  // ---- the callbacks, as events ----

  datatype Callback =
    | Bind(output: OutputId)
    | Announce(output: OutputId, details: OutputInfo)
    | Change(output: OutputId, details: OutputInfo)
    | Withdraw(output: OutputId)
    | RequestLock
    | Confirm
    | SurfaceConfigured(surface: SurfaceId, width: U32, height: U32)
    | Modifiers(capsLock: bool)
    | Signal

  /** What the compositor may send: outputs are bound, announced by their first `done`, changed by later
      ones, and withdrawn; the lock is asked for once and confirmed at most once. */
  predicate MayHappen(ui: Ui, e: Callback) {
    match e
    case Bind(o) => o !in ui.known
    case Announce(o, _) => o in ui.known && o !in ui.info
    case Change(o, _) => o in ui.info
    case Withdraw(o) => o in ui.known
    case RequestLock => ui.lock == NoLock && LockRequest !in ui.traffic
    case Confirm => ui.lock == Pending
    case SurfaceConfigured(_, w, h) => BufferSized(w, h)
    case Modifiers(_) => true
    case Signal => true
  }

  function Without(os: seq<OutputId>, o: OutputId): seq<OutputId> {
    if os == [] then []
    else Without(os[..|os| - 1], o) + if os[|os| - 1] == o then [] else [os[|os| - 1]]
  }

  function Plain(ui: Ui): Effect {
    Effect(ui, None, [])
  }

  function Handle(ui: Ui, e: Callback): Effect {
    match e
    case Bind(o) => Plain(ui.(known := ui.known + [o]))
    case Announce(o, details) => Plain(NewOutput(ui.(info := ui.info[o := details]), o))
    case Change(o, details) => UpdateOutput(ui.(info := ui.info[o := details]), o)
    case Withdraw(o) => RemoveOutput(ui.(known := Without(ui.known, o), info := ui.info - {o}), o)
    case RequestLock => Plain(Send(ui, LockRequest).(lock := Pending))
    case Confirm => Plain(Locked(ui))
    case SurfaceConfigured(s, w, h) => Configure(ui, s, w, h)
    case Modifiers(caps) =>
      if caps == ui.capsLock then Plain(ui)
      else Effect(ui.(capsLock := caps), None, SessionIndices(ui.surfaces))
    case Signal => Plain(ui.(sigusr1Seen := true))
  }

  /** The 1s tick's share of the display: the signal flag is drained and everything repainted. */
  function Repaint(ui: Ui): Effect {
    Effect(ui.(sigusr1Seen := false), None, Indices(|ui.surfaces|))
  }

  /** `lock.take()` and `unlock`. */
  function Unlock(ui: Ui): Ui {
    if ui.lock == NoLock then ui else Send(ui, UnlockAndDestroy).(lock := NoLock)
  }

  /** What one repaint meets: the frame each entry finds in `latest`, and what is painted for it. */
  datatype Scene = Scene(sees: nat -> Option<Frame>, paints: nat -> Paint)

  function SeenAt(scene: Scene, i: nat): Option<Frame> {
    scene.sees(i)
  }

  function PaintAt(scene: Scene, i: nat): Paint {
    scene.paints(i)
  }

  /** A repaint of the entries `indices`, in order. */
  function Redrawn(ui: Ui, indices: seq<nat>, scene: Scene): (r: Ui)
    requires forall k :: 0 <= k < |indices| ==> indices[k] < |ui.surfaces|
    ensures r == ui.(traffic := r.traffic)
  {
    if indices == [] then ui
    else
      var last := indices[|indices| - 1];
      RenderSurface(Redrawn(ui, indices[..|indices| - 1], scene), last, SeenAt(scene, last), PaintAt(scene, last))
  }

  // ---- what every handler keeps ----

  predicate Distinct(os: seq<OutputId>) {
    forall i, j :: 0 <= i < j < |os| ==> os[i] != os[j]
  }

  predicate Covered(ui: Ui, o: OutputId) {
    IndexOfOutput(ui.surfaces, o) < |ui.surfaces|
  }

  /** One entry per live output at most, under the role of its recorded name. */
  predicate EntriesInv(ui: Ui) {
    && Distinct(ui.known)
    && (forall o :: o in ui.info ==> o in ui.known)
    && (forall i, j :: 0 <= i < j < |ui.surfaces| ==> ui.surfaces[i].output != ui.surfaces[j].output)
    && (forall i :: 0 <= i < |ui.surfaces| ==>
          && ui.surfaces[i].output in ui.known
          && ui.surfaces[i].role == RoleFor(ui.kioskOutputs, ui.surfaces[i].name))
  }

  /** Once the lock is held, an entry for every announced output. */
  predicate CoverageInv(ui: Ui) {
    ui.lock == Held ==> forall o :: o in ui.info ==> Covered(ui, o)
  }

  /** Every entry is a surface the compositor holds, on that output, at the size last configured. */
  predicate EntriesMirrored(ui: Ui, v: View) {
    forall i :: 0 <= i < |ui.surfaces| ==>
      var e := ui.surfaces[i];
      && e.surface < ui.nextSurface
      && e.surface in v.live && v.live[e.surface] == e.output
      && (if e.surface in v.acked then v.acked[e.surface] == Size(e.width, e.height) else e.width == 0 && e.height == 0)
  }

  /** And the compositor holds no others. */
  predicate LiveListed(ui: Ui, v: View) {
    && (forall s :: s in v.live ==> s < ui.nextSurface && IndexOfSurface(ui.surfaces, s) < |ui.surfaces|)
    && (forall s :: s in v.acked ==> s < ui.nextSurface)
  }

  predicate SurfacesDistinct(es: seq<Entry>) {
    forall i, j :: 0 <= i < j < |es| ==> es[i].surface != es[j].surface
  }

  predicate PhaseMirrored(ui: Ui, v: View) {
    && (ui.surfaces != [] ==> v.confirmed)
    && (v.confirmed ==> v.requested)
    && (ui.lock == NoLock ==> v.unlocked || !v.requested)
    && (ui.lock == Pending ==> v.requested && !v.confirmed)
    && (ui.lock == Held ==> v.confirmed)
    && (ui.lock != NoLock ==> !v.unlocked)
  }

  /** The surface list and the compositor's view agree, and no message so far was a protocol error. */
  predicate MirrorInv(ui: Ui) {
    && Conforms(ui.traffic)
    && SurfacesDistinct(ui.surfaces)
    && EntriesMirrored(ui, After(ui.traffic))
    && LiveListed(ui, After(ui.traffic))
    && PhaseMirrored(ui, After(ui.traffic))
  }
}
