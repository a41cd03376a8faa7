/** The cached kiosk geometry over whole runs: exactly when it has been refreshed, and what it is then. */
module KioskCache {
  import opened Words
  import opened Render
  import opened LockProtocol
  import opened Outputs
  import opened Lifecycle
  import opened System
  import opened Auth
  import AuthMachine
  import Server

  /** The callbacks that refresh the cache: a configure of a listed surface, a change that relabels an
      entry, and the removal of one. */
  predicate Refreshes(ui: Ui, e: Callback) {
    match e
    case SurfaceConfigured(s, _, _) => IndexOfSurface(ui.surfaces, s) < |ui.surfaces|
    case Change(o, details) =>
      var told := ui.(info := ui.info[o := details]);
      var i := IndexOfOutput(ui.surfaces, o);
      i < |ui.surfaces|
      && !(ui.surfaces[i].name == Name(told, o) && ui.surfaces[i].role == Role(told, o)
           && ui.surfaces[i].scale == Scale(told, o))
    case Withdraw(o) => IndexOfOutput(ui.surfaces, o) < |ui.surfaces|
    case _ => false
  }

  /** Some callback of the run refreshed the cache. */
  predicate Refreshed(s: State, events: seq<Event>)
    requires Run(s, events)
    decreases |events|
  {
    events != []
    && ((events[0].Display? && Refreshes(s.ui, events[0].callback)) || Refreshed(Step(s, events[0]), events[1..]))
  }

  lemma RefreshesIff(ui: Ui, e: Callback)
    requires MayHappen(ui, e)
    ensures Handle(ui, e).geometry.Some? <==> Refreshes(ui, e)
  {
    hide KioskGeometry, IndexOfOutput, IndexOfSurface, AddSurface, Locked;
  }

  // ---- a refreshed scale is never 0 ----

  predicate ScalesInv(ui: Ui) {
    forall i :: 0 <= i < |ui.surfaces| ==> ui.surfaces[i].scale >= 1
  }

  lemma {:induction false} AddAllKeepsScales(ui: Ui, os: seq<OutputId>)
    requires ScalesInv(ui)
    ensures ScalesInv(AddSurfaces(ui, os))
  {
    hide IndexOfOutput;
    if os != [] {
      AddAllKeepsScales(ui, os[..|os| - 1]);
    }
  }

  lemma UpdateKeepsScales(ui: Ui, o: OutputId)
    requires ScalesInv(ui)
    ensures ScalesInv(UpdateOutput(ui, o).ui) && ScalesInv(AddSurface(ui, o))
  {
    hide KioskGeometry, IndexOfOutput, Name, Role;
  }

  lemma RemovalKeepsScales(ui: Ui, o: OutputId)
    requires ScalesInv(ui)
    ensures ScalesInv(RemoveOutput(ui, o).ui)
  {
    hide KioskGeometry, IndexOfOutput;
  }

  lemma ConfigureKeepsScales(ui: Ui, s: SurfaceId, w: U32, h: U32)
    requires ScalesInv(ui)
    ensures ScalesInv(Configure(ui, s, w, h).ui)
  {
    hide KioskGeometry, IndexOfSurface;
  }

  lemma ConfirmKeepsScales(ui: Ui)
    requires ScalesInv(ui)
    ensures ScalesInv(Locked(ui))
  {
    var held := Send(ui, LockConfirmed).(lock := Held, socketPath := None);
    AddAllKeepsScales(held, SessionFirst(held, held.known));
    hide AddSurfaces, SessionFirst;
  }

  lemma HandleKeepsScales(ui: Ui, e: Callback)
    requires ScalesInv(ui) && MayHappen(ui, e)
    ensures ScalesInv(Handle(ui, e).ui)
  {
    hide UpdateOutput, AddSurface, RemoveOutput, Configure, Locked, Without, SessionIndices;
    match e
    case Announce(o, details) => UpdateKeepsScales(ui.(info := ui.info[o := details]), o);
    case Change(o, details) => UpdateKeepsScales(ui.(info := ui.info[o := details]), o);
    case Withdraw(o) => RemovalKeepsScales(ui.(known := Without(ui.known, o), info := ui.info - {o}), o);
    case Confirm => ConfirmKeepsScales(ui);
    case SurfaceConfigured(s, w, h) => ConfigureKeepsScales(ui, s, w, h);
    case _ =>
  }

  lemma {:induction false} ScanHasAScale(es: seq<Entry>)
    requires forall i :: 0 <= i < |es| ==> es[i].scale >= 1
    ensures KioskGeometry(es).scale >= 1
  {
    if es != [] {
      ScanHasAScale(es[1..]);
    }
  }

  // ---- whole runs ----

  lemma StepAndCache(s: State, e: Event)
    requires Enabled(s, e)
    ensures var t := Step(s, e);
            if e.Display? && Refreshes(s.ui, e.callback) then t.server.geometry == KioskGeometry(t.ui.surfaces)
            else t.server.geometry == s.server.geometry && KioskGeometry(t.ui.surfaces) == KioskGeometry(s.ui.surfaces)
  {
    hide KioskGeometry, Handle, PressKey, AuthMachine.Step, AuthMachine.Enabled, Committed;
    if e.Display? {
      ScanIsPublishedOrUnchanged(s.ui, e.callback);
      RefreshesIff(s.ui, e.callback);
    }
    hide Refreshes;
  }

  lemma StepKeepsScales(s: State, e: Event)
    requires ScalesInv(s.ui) && Enabled(s, e)
    ensures ScalesInv(Step(s, e).ui)
  {
    hide Handle, PressKey, AuthMachine.Step, AuthMachine.Enabled, Server.Step, Server.Enabled, RenderSurface;
    if e.Display? {
      HandleKeepsScales(s.ui, e.callback);
    }
  }

  /** `current` is whether the cache was the scan to begin with. */
  lemma {:induction false} CacheExactly(s: State, events: seq<Event>, current: bool)
    requires Run(s, events) && ScalesInv(s.ui)
    requires current ==> s.server.geometry == KioskGeometry(s.ui.surfaces)
    ensures var t := Exec(s, events);
            && ScalesInv(t.ui)
            && (current || Refreshed(s, events) ==> t.server.geometry == KioskGeometry(t.ui.surfaces))
            && (!Refreshed(s, events) ==> t.server.geometry == s.server.geometry)
    decreases |events|
  {
    hide Step, Enabled, KioskGeometry, ScalesInv, Refreshes;
    if events != [] {
      var e := events[0];
      StepAndCache(s, e);
      StepKeepsScales(s, e);
      CacheExactly(Step(s, e), events[1..], current || (e.Display? && Refreshes(s.ui, e.callback)));
    }
  }
}
