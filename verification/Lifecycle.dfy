/** Whatever the compositor advertises, changes, withdraws or configures, and in whatever order: the
    surface list follows the live outputs, and the lock connection never commits a protocol error. */
module Lifecycle {
  import opened Words
  import opened Wire
  import opened Render
  import opened LockProtocol
  import opened Outputs

  predicate DisplayInv(ui: Ui) {
    EntriesInv(ui) && CoverageInv(ui) && MirrorInv(ui)
  }

  // ---- adding surfaces ----

  lemma FoundIfThere(es: seq<Entry>, i: nat)
    requires i < |es|
    ensures IndexOfOutput(es, es[i].output) <= i && IndexOfSurface(es, es[i].surface) <= i
  {
  }

  lemma SurfaceAt(ui: Ui, i: nat)
    requires DisplayInv(ui) && i < |ui.surfaces|
    ensures IndexOfSurface(ui.surfaces, ui.surfaces[i].surface) == i
  {
    var k := IndexOfSurface(ui.surfaces, ui.surfaces[i].surface);
    FoundIfThere(ui.surfaces, i);
    hide After, Conforms, EntriesMirrored, LiveListed, EntriesInv, CoverageInv;
  }

  lemma UncoveredIsFree(ui: Ui, v: View, o: OutputId)
    requires EntriesMirrored(ui, v) && LiveListed(ui, v) && !Covered(ui, o)
    ensures o !in v.live.Values
  {
    forall s | s in v.live ensures v.live[s] != o {
      var i := IndexOfSurface(ui.surfaces, s);
      assert v.live[s] == ui.surfaces[i].output;
      FoundIfThere(ui.surfaces, i);
    }
  }

  lemma StaysListed(es: seq<Entry>, more: seq<Entry>, s: SurfaceId)
    requires IndexOfSurface(es, s) < |es|
    ensures IndexOfSurface(es + more, s) < |es + more|
  {
    var i := IndexOfSurface(es, s);
    assert (es + more)[i] == es[i];
    FoundIfThere(es + more, i);
  }

  lemma CreatedIsListed(ui: Ui, v: View, o: OutputId)
    requires LiveListed(ui, v) && !Covered(ui, o)
    ensures LiveListed(AddSurface(ui, o), Judge(v, CreateLockSurface(ui.nextSurface, o)))
  {
    var ui' := AddSurface(ui, o);
    FoundIfThere(ui'.surfaces, |ui.surfaces|);
    forall s | s in v.live ensures IndexOfSurface(ui'.surfaces, s) < |ui'.surfaces| {
      StaysListed(ui.surfaces, [ui'.surfaces[|ui.surfaces|]], s);
    }
  }

  lemma CreatedIsMirrored(ui: Ui, v: View, o: OutputId)
    requires EntriesMirrored(ui, v) && SurfacesDistinct(ui.surfaces) && LiveListed(ui, v) && !Covered(ui, o)
    ensures EntriesMirrored(AddSurface(ui, o), Judge(v, CreateLockSurface(ui.nextSurface, o)))
    ensures SurfacesDistinct(AddSurface(ui, o).surfaces)
  {
    hide IndexOfSurface;
  }

  /** A new lock surface is legal for an output that has none, and mirrors into the list. */
  lemma AddKeepsMirror(ui: Ui, o: OutputId)
    requires MirrorInv(ui) && ui.lock == Held
    ensures MirrorInv(AddSurface(ui, o))
  {
    if !Covered(ui, o) {
      var v := After(ui.traffic);
      var m := CreateLockSurface(ui.nextSurface, o);
      UncoveredIsFree(ui, v, o);
      assert Legal(v, m);
      CreatedIsListed(ui, v, o);
      CreatedIsMirrored(ui, v, o);
      AfterMore(ui.traffic, m);
      hide Legal, After, Conforms, IndexOfSurface, IndexOfOutput, LiveListed, EntriesMirrored, SurfacesDistinct;
    }
  }

  lemma AddKeepsEntries(ui: Ui, o: OutputId)
    requires EntriesInv(ui) && o in ui.known
    ensures EntriesInv(AddSurface(ui, o))
    ensures Covered(AddSurface(ui, o), o)
    ensures forall p :: Covered(ui, p) ==> Covered(AddSurface(ui, o), p)
  {
    var ui' := AddSurface(ui, o);
    if !Covered(ui, o) {
      FoundIfThere(ui'.surfaces, |ui.surfaces|);
      forall p | Covered(ui, p) ensures Covered(ui', p) {
        var i := IndexOfOutput(ui.surfaces, p);
        assert ui'.surfaces[i] == ui.surfaces[i];
        FoundIfThere(ui'.surfaces, i);
      }
    }
  }

  lemma {:induction false} AddAllKeepsEverything(ui: Ui, os: seq<OutputId>)
    requires EntriesInv(ui) && MirrorInv(ui) && ui.lock == Held
    requires forall o :: o in os ==> o in ui.known
    ensures var ui' := AddSurfaces(ui, os);
            && EntriesInv(ui') && MirrorInv(ui')
            && ui' == ui.(surfaces := ui'.surfaces, nextSurface := ui'.nextSurface, traffic := ui'.traffic)
            && (forall o :: o in os ==> Covered(ui', o))
            && (forall o :: Covered(ui, o) ==> Covered(ui', o))
  {
    if os != [] {
      var before, o := os[..|os| - 1], os[|os| - 1];
      assert os == before + [o];
      AddAllKeepsEverything(ui, before);
      var mid := AddSurfaces(ui, before);
      AddKeepsEntries(mid, o);
      AddKeepsMirror(mid, o);
    }
  }

  lemma {:induction false} AddSurfacesFrame(ui: Ui, os: seq<OutputId>)
    ensures var ui' := AddSurfaces(ui, os);
            ui' == ui.(surfaces := ui'.surfaces, nextSurface := ui'.nextSurface, traffic := ui'.traffic)
  {
    if os != [] {
      AddSurfacesFrame(ui, os[..|os| - 1]);
    }
  }

  // ---- the initial list ----

  lemma {:induction false} OfRoleMembers(ui: Ui, os: seq<OutputId>, role: OutputRole)
    ensures forall o :: o in OfRole(ui, os, role) <==> o in os && Role(ui, o) == role
    ensures Distinct(os) ==> Distinct(OfRole(ui, os, role))
  {
    if os != [] {
      OfRoleMembers(ui, os[..|os| - 1], role);
      assert os == os[..|os| - 1] + [os[|os| - 1]];
    }
  }

  lemma {:induction false} OfRoleConcat(ui: Ui, a: seq<OutputId>, b: seq<OutputId>, role: OutputRole)
    ensures OfRole(ui, a + b, role) == OfRole(ui, a, role) + OfRole(ui, b, role)
  {
    if b == [] {
      assert a + b == a;
    } else {
      var before, last := b[..|b| - 1], b[|b| - 1];
      OfRoleConcat(ui, a, before, role);
      assert (a + b)[..|a + b| - 1] == a + before;
      AppendAssociates(OfRole(ui, a, role), OfRole(ui, before, role), if Role(ui, last) == role then [last] else []);
      hide Role;
    }
  }

  lemma {:induction false} OfRoleTwice(ui: Ui, os: seq<OutputId>, role: OutputRole, again: OutputRole)
    ensures OfRole(ui, OfRole(ui, os, role), again) == if again == role then OfRole(ui, os, role) else []
  {
    if os != [] {
      var last := os[|os| - 1];
      OfRoleTwice(ui, os[..|os| - 1], role, again);
      if Role(ui, last) == role {
        OfRoleConcat(ui, OfRole(ui, os[..|os| - 1], role), [last], again);
      } else {
        assert OfRole(ui, os, role) == OfRole(ui, os[..|os| - 1], role);
      }
    }
  }

  /** `SessionFirst` is the stable partition: the same outputs, no kiosk before a session output, and
      within each role the old order. */
  lemma SessionFirstIsStablePartition(ui: Ui, os: seq<OutputId>)
    ensures var r := SessionFirst(ui, os);
            && (forall o :: o in r <==> o in os)
            && (Distinct(os) ==> Distinct(r))
            && (forall i, j :: 0 <= i < j < |r| && Role(ui, r[i]) == Kiosk ==> Role(ui, r[j]) == Kiosk)
            && (forall role :: OfRole(ui, r, role) == OfRole(ui, os, role))
  {
    OfRoleMembers(ui, os, Session);
    OfRoleMembers(ui, os, Kiosk);
    forall role ensures OfRole(ui, SessionFirst(ui, os), role) == OfRole(ui, os, role) {
      WithinRoleOrderKept(ui, os, role);
    }
    var a, b := OfRole(ui, os, Session), OfRole(ui, os, Kiosk);
    hide OfRole, Role;
    if Distinct(os) {
      DistinctConcat(a, b);
    }
  }

  lemma DistinctConcat(a: seq<OutputId>, b: seq<OutputId>)
    requires Distinct(a) && Distinct(b) && forall o :: o in a ==> o !in b
    ensures Distinct(a + b)
  {
    forall i, j | 0 <= i < j < |a + b| ensures (a + b)[i] != (a + b)[j] {
      if i < |a| <= j {
        assert a[i] in a && b[j - |a|] in b;
      }
    }
  }

  lemma WithinRoleOrderKept(ui: Ui, os: seq<OutputId>, role: OutputRole)
    ensures OfRole(ui, SessionFirst(ui, os), role) == OfRole(ui, os, role)
  {
    hide OfRole;
    var a, b := OfRole(ui, os, Session), OfRole(ui, os, Kiosk);
    OfRoleConcat(ui, a, b, role);
    OfRoleTwice(ui, os, Session, role);
    OfRoleTwice(ui, os, Kiosk, role);
  }

  /** From an empty list, distinct outputs are added one for one, in order. */
  lemma {:induction false} AddSurfacesInOrder(ui: Ui, os: seq<OutputId>)
    requires ui.surfaces == [] && Distinct(os)
    ensures var ui' := AddSurfaces(ui, os);
            && ui' == ui.(surfaces := ui'.surfaces, nextSurface := ui.nextSurface + |os|, traffic := ui'.traffic)
            && |ui'.surfaces| == |os|
            && (forall i :: 0 <= i < |os| ==>
                  ui'.surfaces[i] == Entry(os[i], ui.nextSurface + i, Role(ui, os[i]), Name(ui, os[i]), 0, 0,
                                           Scale(ui, os[i])))
  {
    if os != [] {
      AddSurfacesInOrder(ui, os[..|os| - 1]);
    }
  }

  // ---- each callback ----

  lemma {:induction false} WithoutMembers(os: seq<OutputId>, o: OutputId)
    ensures forall p :: p in Without(os, o) <==> p in os && p != o
    ensures Distinct(os) ==> Distinct(Without(os, o))
  {
    if os != [] {
      var before, last := os[..|os| - 1], os[|os| - 1];
      WithoutMembers(before, o);
      assert os == before + [last];
      if Distinct(os) {
        assert last !in before;
      }
    }
  }

  /** The list without entry `i`. */
  function Removed(es: seq<Entry>, i: nat): (r: seq<Entry>)
    requires i < |es|
    ensures |r| == |es| - 1
    ensures forall k :: 0 <= k < |r| ==> r[k] == es[if k < i then k else k + 1]
  {
    es[..i] + es[i + 1..]
  }

  lemma OthersStayListed(es: seq<Entry>, i: nat, s: SurfaceId)
    requires i < |es| && s != es[i].surface && IndexOfSurface(es, s) < |es|
    ensures IndexOfSurface(Removed(es, i), s) < |es| - 1
  {
    var k := IndexOfSurface(es, s);
    FoundIfThere(Removed(es, i), if k < i then k else k - 1);
  }

  lemma RemovedIsMirrored(ui: Ui, v: View, i: nat)
    requires EntriesMirrored(ui, v) && SurfacesDistinct(ui.surfaces) && i < |ui.surfaces|
    ensures EntriesMirrored(ui.(surfaces := Removed(ui.surfaces, i)),
                            Judge(v, DestroyLockSurface(ui.surfaces[i].surface)))
    ensures SurfacesDistinct(Removed(ui.surfaces, i))
  {
  }

  lemma RemovedIsListed(ui: Ui, v: View, i: nat)
    requires LiveListed(ui, v) && i < |ui.surfaces|
    ensures LiveListed(ui.(surfaces := Removed(ui.surfaces, i)), Judge(v, DestroyLockSurface(ui.surfaces[i].surface)))
  {
    forall s | s in v.live && s != ui.surfaces[i].surface
      ensures IndexOfSurface(Removed(ui.surfaces, i), s) < |ui.surfaces| - 1 {
      OthersStayListed(ui.surfaces, i, s);
    }
  }

  lemma RemovalIsLegal(ui: Ui, v: View, i: nat)
    requires EntriesMirrored(ui, v) && i < |ui.surfaces| && !v.unlocked
    ensures Legal(v, DestroyLockSurface(ui.surfaces[i].surface))
  {
  }

  /** Traffic is no part of the mirror predicates. */
  lemma MirrorIgnoresTraffic(ui: Ui, traffic: seq<Message>, v: View)
    requires EntriesMirrored(ui, v) && LiveListed(ui, v)
    ensures EntriesMirrored(ui.(traffic := traffic), v) && LiveListed(ui.(traffic := traffic), v)
  {
  }

  lemma RemoveKeepsMirror(ui: Ui, o: OutputId)
    requires MirrorInv(ui) && Covered(ui, o) && ui.lock != NoLock
    ensures MirrorInv(RemoveOutput(ui, o).ui)
  {
    hide Legal, After, Conforms, IndexOfSurface, IndexOfOutput, LiveListed, EntriesMirrored, SurfacesDistinct;
    var i := IndexOfOutput(ui.surfaces, o);
    var v, m := After(ui.traffic), DestroyLockSurface(ui.surfaces[i].surface);
    RemovalIsLegal(ui, v, i);
    RemovedIsMirrored(ui, v, i);
    RemovedIsListed(ui, v, i);
    MirrorIgnoresTraffic(ui.(surfaces := Removed(ui.surfaces, i)), ui.traffic + [m], Judge(v, m));
    AfterMore(ui.traffic, m);
  }

  lemma OthersStayCovered(ui: Ui, o: OutputId, p: OutputId)
    requires p != o && Covered(ui, p)
    ensures Covered(RemoveOutput(ui, o).ui, p)
  {
    var i, k := IndexOfOutput(ui.surfaces, o), IndexOfOutput(ui.surfaces, p);
    if i < |ui.surfaces| {
      assert RemoveOutput(ui, o).ui.surfaces == Removed(ui.surfaces, i);
      FoundIfThere(Removed(ui.surfaces, i), if k < i then k else k - 1);
    }
  }

  lemma RemovedLeavesNoEntry(ui: Ui, o: OutputId)
    requires EntriesInv(ui)
    ensures var es := RemoveOutput(ui, o).ui.surfaces;
            && (forall k :: 0 <= k < |es| ==> es[k].output != o && es[k] in ui.surfaces)
            && (forall k, l :: 0 <= k < l < |es| ==> es[k].output != es[l].output)
  {
    var i := IndexOfOutput(ui.surfaces, o);
    if i < |ui.surfaces| {
      assert RemoveOutput(ui, o).ui.surfaces == Removed(ui.surfaces, i);
    } else {
      forall k | 0 <= k < |ui.surfaces| ensures ui.surfaces[k].output != o {
        FoundIfThere(ui.surfaces, k);
      }
    }
  }

  lemma RemoveKeepsEntries(ui: Ui, o: OutputId)
    requires EntriesInv(ui) && CoverageInv(ui)
    ensures var ui' := RemoveOutput(ui.(known := Without(ui.known, o), info := ui.info - {o}), o).ui;
            EntriesInv(ui') && CoverageInv(ui')
  {
    var told := ui.(known := Without(ui.known, o), info := ui.info - {o});
    WithoutMembers(ui.known, o);
    RemovedLeavesNoEntry(ui, o);
    RemoveKeepsCoverage(ui, told, o);
    assert RemoveOutput(told, o).ui.surfaces == RemoveOutput(ui, o).ui.surfaces;
    hide IndexOfOutput, Without, CoverageInv;
  }

  lemma RemoveKeepsCoverage(ui: Ui, told: Ui, o: OutputId)
    requires CoverageInv(ui) && told == ui.(known := told.known, info := ui.info - {o})
    ensures CoverageInv(RemoveOutput(told, o).ui)
  {
    if ui.lock == Held {
      forall p | p in told.info ensures Covered(RemoveOutput(told, o).ui, p) {
        assert Covered(ui, p);
        OthersStayCovered(told, o, p);
      }
    }
    hide IndexOfOutput;
  }

  lemma SameOutputsStayCovered(es: seq<Entry>, fs: seq<Entry>, o: OutputId)
    requires |es| == |fs| && forall i :: 0 <= i < |es| ==> es[i].output == fs[i].output
    requires IndexOfOutput(es, o) < |es|
    ensures IndexOfOutput(fs, o) < |fs|
  {
    FoundIfThere(fs, IndexOfOutput(es, o));
  }

  lemma SameSurfacesStayListed(es: seq<Entry>, fs: seq<Entry>, s: SurfaceId)
    requires |es| == |fs| && forall i :: 0 <= i < |es| ==> es[i].surface == fs[i].surface
    requires IndexOfSurface(es, s) < |es|
    ensures IndexOfSurface(fs, s) < |fs|
  {
    FoundIfThere(fs, IndexOfSurface(es, s));
  }

  lemma ReplacedKeepsEntries(ui: Ui, i: nat, e: Entry)
    requires EntriesInv(ui) && CoverageInv(ui) && i < |ui.surfaces|
    requires e.output == ui.surfaces[i].output && e.role == RoleFor(ui.kioskOutputs, e.name)
    ensures var ui' := ui.(surfaces := ui.surfaces[i := e]);
            EntriesInv(ui') && CoverageInv(ui')
  {
    var ui' := ui.(surfaces := ui.surfaces[i := e]);
    if ui.lock == Held {
      forall o | o in ui.info ensures Covered(ui', o) {
        SameOutputsStayCovered(ui.surfaces, ui'.surfaces, o);
      }
    }
    hide IndexOfOutput;
  }

  lemma ReplacedKeepsListed(ui: Ui, v: View, i: nat, e: Entry)
    requires LiveListed(ui, v) && SurfacesDistinct(ui.surfaces) && i < |ui.surfaces|
             && e.surface == ui.surfaces[i].surface
    ensures LiveListed(ui.(surfaces := ui.surfaces[i := e]), v) && SurfacesDistinct(ui.surfaces[i := e])
  {
    forall s | s in v.live ensures IndexOfSurface(ui.surfaces[i := e], s) < |ui.surfaces| {
      SameSurfacesStayListed(ui.surfaces, ui.surfaces[i := e], s);
    }
    hide IndexOfSurface;
  }

  /** Renaming, re-classifying or rescaling an entry. */
  lemma RelabelKeepsEverything(ui: Ui, i: nat, e: Entry)
    requires DisplayInv(ui) && i < |ui.surfaces| && e.role == RoleFor(ui.kioskOutputs, e.name)
    requires e == ui.surfaces[i].(name := e.name, role := e.role, scale := e.scale)
    ensures DisplayInv(ui.(surfaces := ui.surfaces[i := e]))
  {
    ReplacedKeepsEntries(ui, i, e);
    ReplacedKeepsListed(ui, After(ui.traffic), i, e);
    RelabelIsMirrored(ui, After(ui.traffic), i, e);
    hide IndexOfSurface, IndexOfOutput, After, Conforms, LiveListed, EntriesMirrored, EntriesInv, CoverageInv,
         SurfacesDistinct;
  }

  lemma RelabelIsMirrored(ui: Ui, v: View, i: nat, e: Entry)
    requires EntriesMirrored(ui, v) && i < |ui.surfaces|
    requires e == ui.surfaces[i].(name := e.name, role := e.role, scale := e.scale)
    ensures EntriesMirrored(ui.(surfaces := ui.surfaces[i := e]), v)
  {
  }

  lemma ResizedIsMirrored(ui: Ui, v: View, i: nat, size: Size)
    requires EntriesMirrored(ui, v) && SurfacesDistinct(ui.surfaces) && LiveListed(ui, v) && i < |ui.surfaces|
    ensures var e := ui.surfaces[i].(width := size.width, height := size.height);
            var v' := Judge(v, AckConfigure(e.surface, size));
            EntriesMirrored(ui.(surfaces := ui.surfaces[i := e]), v') && LiveListed(ui, v')
  {
    hide IndexOfSurface;
  }

  lemma ConfigureKeepsEverything(ui: Ui, s: SurfaceId, w: U32, h: U32)
    requires DisplayInv(ui) && !After(ui.traffic).unlocked
    ensures DisplayInv(Configure(ui, s, w, h).ui)
  {
    hide IndexOfOutput, IndexOfSurface, After, Conforms, LiveListed, EntriesMirrored, EntriesInv, CoverageInv,
         SurfacesDistinct;
    var i := IndexOfSurface(ui.surfaces, s);
    if i < |ui.surfaces| {
      var e := ui.surfaces[i].(width := w, height := h);
      var v, m := After(ui.traffic), AckConfigure(s, Size(w, h));
      RolesKept(ui, i);
      ReplacedKeepsEntries(ui, i, e);
      EntriesIgnoreTraffic(ui.(surfaces := ui.surfaces[i := e]), ui.traffic + [m]);
      ResizedIsMirrored(ui, v, i, Size(w, h));
      ReplacedKeepsListed(ui, Judge(v, m), i, e);
      MirrorIgnoresTraffic(ui.(surfaces := ui.surfaces[i := e]), ui.traffic + [m], Judge(v, m));
      LiveSurface(ui, v, i);
      AfterMore(ui.traffic, m);
    }
  }

  lemma RolesKept(ui: Ui, i: nat)
    requires EntriesInv(ui) && i < |ui.surfaces|
    ensures ui.surfaces[i].role == RoleFor(ui.kioskOutputs, ui.surfaces[i].name)
  {
  }

  lemma LiveSurface(ui: Ui, v: View, i: nat)
    requires EntriesMirrored(ui, v) && i < |ui.surfaces|
    ensures ui.surfaces[i].surface in v.live
  {
  }

  lemma EntriesIgnoreTraffic(ui: Ui, traffic: seq<Message>)
    requires EntriesInv(ui) && CoverageInv(ui)
    ensures EntriesInv(ui.(traffic := traffic)) && CoverageInv(ui.(traffic := traffic))
  {
  }

  lemma ConfirmKeepsEverything(ui: Ui)
    requires DisplayInv(ui) && ui.lock == Pending
    ensures DisplayInv(Locked(ui))
    ensures ui.surfaces == []
    ensures forall o :: o in ui.known ==> Covered(Locked(ui), o)
  {
    var held := Send(ui, LockConfirmed).(lock := Held, socketPath := None);
    AfterMore(ui.traffic, LockConfirmed);
    assert MirrorInv(held) && EntriesInv(held);
    var ordered := SessionFirst(held, held.known);
    SessionFirstIsStablePartition(held, held.known);
    AddAllKeepsEverything(held, ordered);
    FlagsAreFree(AddSurfaces(held, ordered));
    hide IndexOfOutput, IndexOfSurface, After, Conforms, SessionFirst, AddSurfaces;
  }

  lemma FlagsAreFree(ui: Ui)
    requires EntriesInv(ui) && MirrorInv(ui)
    ensures EntriesInv(ui.(daemonReady := false)) && MirrorInv(ui.(daemonReady := false))
    ensures forall o :: Covered(ui, o) ==> Covered(ui.(daemonReady := false), o)
  {
  }

  /** The initial list: the outputs known when the lock was confirmed, session outputs first, each entry
      freshly named and classified. */
  lemma InitialListIsStablePartition(ui: Ui)
    requires DisplayInv(ui) && ui.lock == Pending
    ensures var es := Locked(ui).surfaces;
            && |es| == |SessionFirst(ui, ui.known)|
            && (forall i :: 0 <= i < |es| ==>
                  && es[i].output == SessionFirst(ui, ui.known)[i]
                  && es[i].role == Role(ui, es[i].output) && es[i].name == Name(ui, es[i].output))
            && (forall i, j :: 0 <= i < j < |es| && es[i].role == Kiosk ==> es[j].role == Kiosk)
  {
    hide DisplayInv, SessionFirst, AddSurfaces, OfRole;
    var held := Send(ui, LockConfirmed).(lock := Held, socketPath := None);
    NoSurfacesYet(ui);
    SessionFirstIsStablePartition(held, held.known);
    AddSurfacesInOrder(held, SessionFirst(held, held.known));
    SameRegistrySamePartition(ui, held, ui.known);
  }

  lemma NoSurfacesYet(ui: Ui)
    requires DisplayInv(ui) && ui.lock == Pending
    ensures ui.surfaces == [] && Distinct(ui.known)
  {
  }

  lemma {:induction false} SameRegistrySameRoles(a: Ui, b: Ui, os: seq<OutputId>, role: OutputRole)
    requires a.info == b.info && a.kioskOutputs == b.kioskOutputs
    ensures OfRole(a, os, role) == OfRole(b, os, role)
  {
    if os != [] {
      SameRegistrySameRoles(a, b, os[..|os| - 1], role);
    }
  }

  lemma SameRegistrySamePartition(a: Ui, b: Ui, os: seq<OutputId>)
    requires a.info == b.info && a.kioskOutputs == b.kioskOutputs
    ensures SessionFirst(a, os) == SessionFirst(b, os)
  {
    SameRegistrySameRoles(a, b, os, Session);
    SameRegistrySameRoles(a, b, os, Kiosk);
  }

  lemma AddKeepsEverything(ui: Ui, o: OutputId)
    requires EntriesInv(ui) && MirrorInv(ui) && ui.lock == Held && o in ui.known
    requires forall p :: p in ui.info && p != o ==> Covered(ui, p)
    ensures DisplayInv(AddSurface(ui, o))
  {
    AddKeepsEntries(ui, o);
    AddKeepsMirror(ui, o);
    hide IndexOfOutput, IndexOfSurface, After, Conforms;
  }

  /** The registry is no part of the mirror, and entries outlive what an output says about itself. */
  lemma RegistryGrows(ui: Ui, known: seq<OutputId>, info: map<OutputId, OutputInfo>)
    requires EntriesInv(ui) && MirrorInv(ui)
    requires Distinct(known) && (forall o :: o in ui.known ==> o in known) && (forall o :: o in info ==> o in known)
    ensures EntriesInv(ui.(known := known, info := info)) && MirrorInv(ui.(known := known, info := info))
    ensures forall o :: Covered(ui, o) ==> Covered(ui.(known := known, info := info), o)
  {
  }

  lemma ChangeKeepsDisplay(ui: Ui, o: OutputId, details: OutputInfo)
    requires DisplayInv(ui) && o in ui.info && !After(ui.traffic).unlocked
    ensures DisplayInv(UpdateOutput(ui.(info := ui.info[o := details]), o).ui)
  {
    var told := ui.(info := ui.info[o := details]);
    RegistryGrows(ui, ui.known, told.info);
    assert DisplayInv(told);
    hide DisplayInv;
    var i := IndexOfOutput(told.surfaces, o);
    if i < |told.surfaces| {
      RelabelKeepsEverything(told, i,
                             told.surfaces[i].(name := Name(told, o), role := Role(told, o), scale := Scale(told, o)));
    } else if told.lock == Held {
      CoveredAnyway(told, o);
    }
  }

  lemma CoveredAnyway(ui: Ui, o: OutputId)
    requires DisplayInv(ui) && ui.lock == Held && o in ui.info
    ensures Covered(ui, o)
  {
  }

  lemma WithdrawKeepsDisplay(ui: Ui, o: OutputId)
    requires DisplayInv(ui) && !After(ui.traffic).unlocked
    ensures DisplayInv(RemoveOutput(ui.(known := Without(ui.known, o), info := ui.info - {o}), o).ui)
  {
    RemoveKeepsEntries(ui, o);
    var told := ui.(known := Without(ui.known, o), info := ui.info - {o});
    MirrorIgnoresRegistry(ui, told);
    if ui.surfaces != [] {
      EntriesMeanHeld(ui);
    }
    hide IndexOfOutput, MirrorInv, EntriesInv, CoverageInv, Without;
    if Covered(told, o) {
      RemoveKeepsMirror(told, o);
    }
  }

  lemma MirrorIgnoresRegistry(ui: Ui, told: Ui)
    requires MirrorInv(ui) && told == ui.(known := told.known, info := told.info)
    ensures MirrorInv(told)
  {
    hide After, Conforms;
  }

  lemma EntriesMeanHeld(ui: Ui)
    requires MirrorInv(ui) && !After(ui.traffic).unlocked && ui.surfaces != []
    ensures ui.lock == Held
  {
  }

  lemma RequestKeepsDisplay(ui: Ui)
    requires DisplayInv(ui) && MayHappen(ui, RequestLock) && !After(ui.traffic).unlocked
    ensures DisplayInv(Send(ui, LockRequest).(lock := Pending))
  {
    AfterMore(ui.traffic, LockRequest);
    hide IndexOfOutput, IndexOfSurface;
  }

  lemma BindKeepsDisplay(ui: Ui, o: OutputId)
    requires DisplayInv(ui) && o !in ui.known
    ensures DisplayInv(ui.(known := ui.known + [o]))
  {
    RegistryGrows(ui, ui.known + [o], ui.info);
    hide IndexOfOutput, MirrorInv, EntriesInv;
  }

  lemma AnnounceKeepsDisplay(ui: Ui, o: OutputId, details: OutputInfo)
    requires DisplayInv(ui) && o in ui.known
    ensures DisplayInv(NewOutput(ui.(info := ui.info[o := details]), o))
  {
    RegistryGrows(ui, ui.known, ui.info[o := details]);
    hide IndexOfOutput, MirrorInv, EntriesInv;
    if ui.lock == Held {
      AddKeepsEverything(ui.(info := ui.info[o := details]), o);
    }
  }

  /** Flags the display invariant does not mention. */
  lemma FlagsKeepDisplay(ui: Ui, ui': Ui)
    requires DisplayInv(ui)
    requires ui' == ui.(capsLock := ui'.capsLock, sigusr1Seen := ui'.sigusr1Seen)
    ensures DisplayInv(ui')
  {
    hide After, Conforms;
    assert EntriesInv(ui') && CoverageInv(ui') by {
      hide MirrorInv;
    }
    assert MirrorInv(ui') by {
      hide EntriesInv, CoverageInv;
    }
  }

  /** Every callback keeps the list, its coverage and its agreement with the compositor. */
  lemma HandleKeepsDisplay(ui: Ui, e: Callback)
    requires DisplayInv(ui) && MayHappen(ui, e) && !After(ui.traffic).unlocked
    ensures DisplayInv(Handle(ui, e).ui)
  {
    hide DisplayInv, NewOutput, UpdateOutput, RemoveOutput, Locked, Configure, After;
    match e
    case Bind(o) => BindKeepsDisplay(ui, o);
    case Announce(o, details) => AnnounceKeepsDisplay(ui, o, details);
    case Change(o, details) => ChangeKeepsDisplay(ui, o, details);
    case Withdraw(o) => WithdrawKeepsDisplay(ui, o);
    case RequestLock => RequestKeepsDisplay(ui);
    case Confirm => ConfirmKeepsEverything(ui);
    case SurfaceConfigured(s, w, h) => ConfigureKeepsEverything(ui, s, w, h);
    case Modifiers(caps) => FlagsKeepDisplay(ui, Handle(ui, e).ui);
    case Signal => FlagsKeepDisplay(ui, Handle(ui, e).ui);
  }

  lemma RepaintKeepsDisplay(ui: Ui)
    requires DisplayInv(ui)
    ensures DisplayInv(Repaint(ui).ui)
  {
    FlagsKeepDisplay(ui, Repaint(ui).ui);
    hide DisplayInv;
  }

  /** Only the conversation with the compositor moves on. */
  lemma TrafficKeepsDisplay(ui: Ui, m: Message)
    requires DisplayInv(ui) && Legal(After(ui.traffic), m)
    requires Judge(After(ui.traffic), m) == After(ui.traffic)
    ensures DisplayInv(Send(ui, m))
  {
    AfterMore(ui.traffic, m);
    EntriesIgnoreTraffic(ui, ui.traffic + [m]);
    MirrorIgnoresTraffic(ui, ui.traffic + [m], After(ui.traffic));
    hide EntriesInv, CoverageInv, EntriesMirrored, LiveListed, SurfacesDistinct, After, Conforms, Legal;
  }

  /** Whatever the painters return, a surface commits only after its first configure, and then exactly
      the size last configured; so rendering never raises a protocol error. */
  lemma RenderKeepsDisplay(ui: Ui, i: nat, latest: Option<Frame>, paint: Paint)
    requires DisplayInv(ui) && i < |ui.surfaces| && !After(ui.traffic).unlocked
    ensures DisplayInv(RenderSurface(ui, i, latest, paint))
  {
    var ui' := RenderSurface(ui, i, latest, paint);
    if ui' != ui {
      var m := ui'.traffic[|ui.traffic|];
      assert ui' == Send(ui, m);
      assert Legal(After(ui.traffic), m) by {
        assert PixelBytes(ui.surfaces[i].width, ui.surfaces[i].height) == |m.pixels|;
      }
      hide DisplayInv, RenderSurface, Legal;
      TrafficKeepsDisplay(ui, m);
    }
  }

  /** The one unlock is legal whenever the lock is held. */
  lemma UnlockConforms(ui: Ui)
    requires DisplayInv(ui) && ui.lock == Held
    ensures var ui' := Unlock(ui);
            && Conforms(ui'.traffic) && ui'.traffic == ui.traffic + [UnlockAndDestroy] && ui'.lock == NoLock
            && EntriesInv(ui') && CoverageInv(ui')
  {
    AfterMore(ui.traffic, UnlockAndDestroy);
    EntriesIgnoreTraffic(ui, ui.traffic + [UnlockAndDestroy]);
    hide After, IndexOfOutput, IndexOfSurface;
  }

  // ---- the cached kiosk geometry ----

  lemma {:induction false} UnsizedEntryDoesNotCount(es: seq<Entry>, e: Entry)
    requires !IsSizedKiosk(e)
    ensures KioskGeometry(es + [e]) == KioskGeometry(es)
  {
    if es != [] {
      UnsizedEntryDoesNotCount(es[1..], e);
      assert (es + [e])[1..] == es[1..] + [e];
    }
  }

  lemma AddKeepsGeometry(ui: Ui, o: OutputId)
    ensures KioskGeometry(AddSurface(ui, o).surfaces) == KioskGeometry(ui.surfaces)
  {
    if !Covered(ui, o) {
      UnsizedEntryDoesNotCount(ui.surfaces, AddSurface(ui, o).surfaces[|ui.surfaces|]);
    }
  }

  lemma {:induction false} AddAllKeepsGeometry(ui: Ui, os: seq<OutputId>)
    ensures KioskGeometry(AddSurfaces(ui, os).surfaces) == KioskGeometry(ui.surfaces)
  {
    if os != [] {
      AddAllKeepsGeometry(ui, os[..|os| - 1]);
      AddKeepsGeometry(AddSurfaces(ui, os[..|os| - 1]), os[|os| - 1]);
    }
  }

  /** A callback either publishes the scan of the new list or leaves the scan as it was; adding a surface
      is the case that publishes nothing. */
  lemma ScanIsPublishedOrUnchanged(ui: Ui, e: Callback)
    requires MayHappen(ui, e)
    ensures var effect := Handle(ui, e);
            match effect.geometry
            case Some(g) => g == KioskGeometry(effect.ui.surfaces)
            case None => KioskGeometry(effect.ui.surfaces) == KioskGeometry(ui.surfaces)
  {
    hide KioskGeometry, AddSurface, AddSurfaces;
    match e
    case Announce(o, details) => AddKeepsGeometry(ui.(info := ui.info[o := details]), o);
    case Change(o, details) => AddKeepsGeometry(ui.(info := ui.info[o := details]), o);
    case Confirm =>
      var held := Send(ui, LockConfirmed).(lock := Held, socketPath := None);
      AddAllKeepsGeometry(held, SessionFirst(held, held.known));
    case _ =>
  }

  /** The cache against the scan: equal, but for the initial scale of 0 that the first refresh makes 1. */
  predicate CacheAgrees(cached: Geometry, es: seq<Entry>) {
    cached == KioskGeometry(es) || (cached == Geometry(0, 0, 0) && KioskGeometry(es) == Geometry(0, 0, 1))
  }
}
