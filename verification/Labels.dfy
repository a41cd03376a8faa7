/** Whether a surface carries the name, role and scale its output has announced. A surface created at
    confirmation for an output that has announced nothing yet is labelled blank, and its first
    announcement does not change that. */
module Labels {
  import opened Words
  import opened LockProtocol
  import opened Outputs
  import opened Lifecycle
  import System
  import SystemTheorems
  import AuthMachine
  import Auth

  /** What the registry says now: the name announced, the role configured for it, and the scale announced if
      that is at least 1. */
  predicate LabelledNow(ui: Ui, e: Entry) {
    var told := e.output in ui.info;
    && e.name == (if told && ui.info[e.output].name.Some? then ui.info[e.output].name.value else "")
    && (e.role == Kiosk <==> e.name in ui.kioskOutputs)
    && e.scale == (if told && ui.info[e.output].scale >= 1 then ui.info[e.output].scale else 1)
  }

  /** What the registry says of an output that has announced nothing. */
  predicate LabelledBlank(ui: Ui, e: Entry) {
    e.name == "" && (e.role == Kiosk <==> "" in ui.kioskOutputs) && e.scale == 1
  }

  predicate LabelsInv(ui: Ui) {
    forall i :: 0 <= i < |ui.surfaces| ==> LabelledNow(ui, ui.surfaces[i]) || LabelledBlank(ui, ui.surfaces[i])
  }

  predicate LabelsCurrent(ui: Ui) {
    forall i :: 0 <= i < |ui.surfaces| ==> LabelledNow(ui, ui.surfaces[i])
  }

  /** An announcement that says no more than silence did. */
  predicate SaysNothing(details: OutputInfo) {
    (details.name == None || details.name == Some("")) && details.scale <= 1
  }

  // ---- adding ----

  lemma AddKeepsLabels(ui: Ui, o: OutputId)
    ensures LabelsInv(ui) ==> LabelsInv(AddSurface(ui, o))
    ensures LabelsCurrent(ui) ==> LabelsCurrent(AddSurface(ui, o))
  {
    hide IndexOfOutput;
  }

  lemma {:induction false} AddAllKeepsLabelsCurrent(ui: Ui, os: seq<OutputId>)
    requires LabelsCurrent(ui)
    ensures LabelsCurrent(AddSurfaces(ui, os))
  {
    hide LabelsCurrent, AddSurface;
    if os != [] {
      AddAllKeepsLabelsCurrent(ui, os[..|os| - 1]);
      AddKeepsLabels(AddSurfaces(ui, os[..|os| - 1]), os[|os| - 1]);
    }
  }

  lemma ConfirmLabelsCurrent(ui: Ui)
    requires ui.surfaces == []
    ensures LabelsCurrent(Locked(ui))
  {
    var held := Send(ui, LockConfirmed).(lock := Held, socketPath := None);
    AddAllKeepsLabelsCurrent(held, SessionFirst(held, held.known));
    hide AddSurfaces, SessionFirst;
  }

  // ---- one callback ----

  lemma AnnounceKeepsLabels(ui: Ui, o: OutputId, details: OutputInfo)
    requires LabelsInv(ui) && o !in ui.info
    ensures LabelsInv(NewOutput(ui.(info := ui.info[o := details]), o))
  {
    var told := ui.(info := ui.info[o := details]);
    assert LabelsInv(told);
    AddKeepsLabels(told, o);
    hide AddSurface;
  }

  /** The label of an entry concerns its own output only. */
  lemma OtherNewsIsNoNews(ui: Ui, told: Ui, e: Entry)
    requires told.kioskOutputs == ui.kioskOutputs
    requires e.output in ui.info <==> e.output in told.info
    requires e.output in ui.info ==> ui.info[e.output] == told.info[e.output]
    ensures LabelledNow(told, e) <==> LabelledNow(ui, e)
    ensures LabelledBlank(told, e) <==> LabelledBlank(ui, e)
  {
  }

  lemma Relabelled(told: Ui, o: OutputId, i: nat)
    requires i < |told.surfaces| && told.surfaces[i].output == o
    requires forall k :: 0 <= k < |told.surfaces| && k != i ==>
             LabelledNow(told, told.surfaces[k]) || LabelledBlank(told, told.surfaces[k])
    ensures var e := told.surfaces[i].(name := Name(told, o), role := Role(told, o), scale := Scale(told, o));
            var ui' := told.(surfaces := told.surfaces[i := e]);
            && LabelsInv(ui')
            && ((forall k :: 0 <= k < |told.surfaces| && k != i ==> LabelledNow(told, told.surfaces[k])) ==>
                LabelsCurrent(ui'))
  {
    var e := told.surfaces[i].(name := Name(told, o), role := Role(told, o), scale := Scale(told, o));
    var ui' := told.(surfaces := told.surfaces[i := e]);
    forall k | 0 <= k < |told.surfaces|
      ensures LabelledNow(ui', ui'.surfaces[k]) <==> k == i || LabelledNow(told, told.surfaces[k])
      ensures LabelledBlank(ui', ui'.surfaces[k]) || k == i <==> LabelledBlank(told, told.surfaces[k]) || k == i
    {
    }
    hide LabelledNow, LabelledBlank, Name, Role, Scale;
  }

  lemma ChangeKeepsLabels(ui: Ui, o: OutputId, details: OutputInfo)
    requires EntriesInv(ui) && o in ui.info && LabelsInv(ui)
    ensures var ui' := UpdateOutput(ui.(info := ui.info[o := details]), o).ui;
            LabelsInv(ui') && (LabelsCurrent(ui) ==> LabelsCurrent(ui'))
  {
    var told := ui.(info := ui.info[o := details]);
    var i := IndexOfOutput(told.surfaces, o);
    OthersAreOthers(ui, o);
    forall k | 0 <= k < |ui.surfaces| && k != i
      ensures LabelledNow(told, told.surfaces[k]) <==> LabelledNow(ui, ui.surfaces[k])
      ensures LabelledBlank(told, told.surfaces[k]) <==> LabelledBlank(ui, ui.surfaces[k])
    {
      OtherNewsIsNoNews(ui, told, ui.surfaces[k]);
    }
    hide IndexOfOutput, AddSurface, EntriesInv, LabelledNow, LabelledBlank, Name, Role, Scale;
    if i == |told.surfaces| {
      AddKeepsLabels(told, o);
    } else {
      Relabelled(told, o, i);
      UpdateRelabels(told, o);
    }
  }

  lemma UpdateRelabels(told: Ui, o: OutputId)
    requires IndexOfOutput(told.surfaces, o) < |told.surfaces|
    ensures var i := IndexOfOutput(told.surfaces, o);
            var e := told.surfaces[i].(name := Name(told, o), role := Role(told, o), scale := Scale(told, o));
            UpdateOutput(told, o).ui == told.(surfaces := told.surfaces[i := e])
  {
    hide IndexOfOutput;
  }

  lemma OthersAreOthers(ui: Ui, o: OutputId)
    requires EntriesInv(ui)
    ensures forall k :: 0 <= k < |ui.surfaces| && k != IndexOfOutput(ui.surfaces, o) ==> ui.surfaces[k].output != o
  {
    forall k | 0 <= k < |ui.surfaces| && k != IndexOfOutput(ui.surfaces, o) ensures ui.surfaces[k].output != o {
      FoundIfThere(ui.surfaces, k);
    }
  }

  lemma SublistKeepsLabels(ui: Ui, ui': Ui, o: OutputId)
    requires LabelsInv(ui) && ui'.info == ui.info - {o} && ui'.kioskOutputs == ui.kioskOutputs
    requires forall k :: 0 <= k < |ui'.surfaces| ==> ui'.surfaces[k].output != o && ui'.surfaces[k] in ui.surfaces
    ensures LabelsInv(ui') && (LabelsCurrent(ui) ==> LabelsCurrent(ui'))
  {
    hide LabelledNow, LabelledBlank;
    forall k | 0 <= k < |ui'.surfaces|
      ensures LabelledNow(ui', ui'.surfaces[k]) || LabelledBlank(ui', ui'.surfaces[k])
      ensures LabelsCurrent(ui) ==> LabelledNow(ui', ui'.surfaces[k])
    {
      var i :| 0 <= i < |ui.surfaces| && ui.surfaces[i] == ui'.surfaces[k];
      OtherNewsIsNoNews(ui, ui', ui'.surfaces[k]);
    }
  }

  lemma WithdrawKeepsLabels(ui: Ui, o: OutputId)
    requires EntriesInv(ui) && LabelsInv(ui)
    ensures var ui' := RemoveOutput(ui.(known := Without(ui.known, o), info := ui.info - {o}), o).ui;
            LabelsInv(ui') && (LabelsCurrent(ui) ==> LabelsCurrent(ui'))
  {
    RemovedLeavesNoEntry(ui, o);
    hide EntriesInv, LabelsInv, LabelsCurrent;
    var told := ui.(known := Without(ui.known, o), info := ui.info - {o});
    RemovalIgnoresRegistry(ui, told, o);
    hide RemoveOutput, IndexOfOutput, Without;
    SublistKeepsLabels(ui, RemoveOutput(told, o).ui, o);
  }

  lemma RemovalIgnoresRegistry(ui: Ui, told: Ui, o: OutputId)
    requires told == ui.(known := told.known, info := told.info)
    ensures var ui' := RemoveOutput(told, o).ui;
            && ui'.surfaces == RemoveOutput(ui, o).ui.surfaces
            && ui'.info == told.info && ui'.kioskOutputs == ui.kioskOutputs
  {
    hide IndexOfOutput;
  }

  lemma QuietCallbackKeepsLabels(ui: Ui, e: Callback)
    requires LabelsInv(ui) && MayHappen(ui, e)
    requires !e.Announce? && !e.Change? && !e.Withdraw? && !e.Confirm?
    ensures var ui' := Handle(ui, e).ui; LabelsInv(ui') && (LabelsCurrent(ui) ==> LabelsCurrent(ui'))
  {
    hide IndexOfSurface, KioskGeometry, SessionIndices;
  }

  lemma StepKeepsLabels(ui: Ui, e: Callback)
    requires DisplayInv(ui) && MayHappen(ui, e) && LabelsInv(ui)
    ensures LabelsInv(Handle(ui, e).ui)
    ensures LabelsCurrent(ui) && !e.Announce? ==> LabelsCurrent(Handle(ui, e).ui)
  {
    hide DisplayInv, NewOutput, UpdateOutput, RemoveOutput, Locked, IndexOfSurface;
    match e
    case Announce(o, details) => AnnounceKeepsLabels(ui, o, details);
    case Change(o, details) =>
      RegistryOf(ui);
      ChangeKeepsLabels(ui, o, details);
    case Withdraw(o) =>
      RegistryOf(ui);
      WithdrawKeepsLabels(ui, o);
    case Confirm =>
      NoSurfacesYet(ui);
      ConfirmLabelsCurrent(ui);
    case _ =>
      hide LabelsInv, LabelsCurrent, Handle, MayHappen;
      QuietCallbackKeepsLabels(ui, e);
  }

  lemma RegistryOf(ui: Ui)
    requires DisplayInv(ui)
    ensures EntriesInv(ui)
  {
  }

  /** Of all callbacks only a first announcement can leave a surface mislabelled, and it does so exactly
      when the output already has a surface and the announcement says anything at all. */
  lemma AnnouncementMislabelsIff(ui: Ui, o: OutputId, details: OutputInfo)
    requires EntriesInv(ui) && LabelsCurrent(ui) && MayHappen(ui, Announce(o, details))
    ensures LabelsCurrent(Handle(ui, Announce(o, details)).ui) <==> !Covered(ui, o) || SaysNothing(details)
  {
    var told := ui.(info := ui.info[o := details]);
    var i := IndexOfOutput(ui.surfaces, o);
    OthersAreOthers(ui, o);
    if i < |ui.surfaces| {
      assert Handle(ui, Announce(o, details)).ui == told;
      assert LabelledNow(ui, ui.surfaces[i]);
      assert LabelsCurrent(told) <==> LabelledNow(told, told.surfaces[i]);
      assert LabelledNow(told, told.surfaces[i]) <==> SaysNothing(details);
    } else {
      assert LabelsCurrent(told);
      AddKeepsLabels(told, o);
    }
    hide IndexOfOutput, EntriesInv, AddSurface;
  }

  // ---- who can be mislabelled ----

  /** The outputs listed at confirmation that had announced nothing then and have not changed since. */
  function SilentAfter(ui: Ui, e: Callback, silent: set<OutputId>): set<OutputId> {
    match e
    case Confirm => set o | o in ui.known && o !in ui.info
    case Change(o, _) => silent - {o}
    case Withdraw(o) => silent - {o}
    case _ => silent
  }

  /** A surface that is not labelled with what its output announces, or whose output has announced nothing,
      belongs to one of these. */
  predicate SilentInv(ui: Ui, silent: set<OutputId>) {
    forall i :: 0 <= i < |ui.surfaces| ==>
      Explained(ui, ui.surfaces[i], silent)
  }

  predicate Explained(ui: Ui, e: Entry, silent: set<OutputId>) {
    (LabelledNow(ui, e) && e.output in ui.info) || e.output in silent
  }

  lemma OthersStayExplained(ui: Ui, told: Ui, e: Entry, o: OutputId, silent: set<OutputId>)
    requires told.kioskOutputs == ui.kioskOutputs && told.info - {o} == ui.info - {o}
    requires e.output != o && Explained(ui, e, silent)
    ensures Explained(told, e, silent - {o})
  {
    var p := e.output;
    assert p in ui.info <==> p in ui.info - {o};
    assert p in told.info <==> p in told.info - {o};
    if p in ui.info {
      assert (ui.info - {o})[p] == ui.info[p] && (told.info - {o})[p] == told.info[p];
    }
    OtherNewsIsNoNews(ui, told, e);
    hide LabelledNow, LabelledBlank;
  }

  /** After news about `o`: the others are explained without it, and the entry of `o`, if there is one, is
      labelled afresh. */
  lemma NewsExplained(ui: Ui, ui': Ui, o: OutputId, silent: set<OutputId>)
    requires SilentInv(ui, silent)
    requires ui'.kioskOutputs == ui.kioskOutputs && ui'.info - {o} == ui.info - {o}
    requires forall i :: 0 <= i < |ui'.surfaces| ==>
               || (ui'.surfaces[i].output != o && ui'.surfaces[i] in ui.surfaces)
               || (ui'.surfaces[i].output == o && o in ui'.info && LabelledNow(ui', ui'.surfaces[i]))
    ensures SilentInv(ui', silent - {o})
  {
    hide LabelledNow;
    forall i | 0 <= i < |ui'.surfaces| ensures Explained(ui', ui'.surfaces[i], silent - {o}) {
      if ui'.surfaces[i].output != o {
        var k :| 0 <= k < |ui.surfaces| && ui.surfaces[k] == ui'.surfaces[i];
        OthersStayExplained(ui, ui', ui.surfaces[k], o, silent);
      }
    }
  }

  lemma ChangeExplained(ui: Ui, o: OutputId, details: OutputInfo, silent: set<OutputId>)
    requires EntriesInv(ui) && o in ui.info && SilentInv(ui, silent)
    ensures SilentInv(UpdateOutput(ui.(info := ui.info[o := details]), o).ui, silent - {o})
  {
    var told := ui.(info := ui.info[o := details]);
    assert told.info - {o} == ui.info - {o};
    var ui' := UpdateOutput(told, o).ui;
    OthersAreOthers(ui, o);
    ChangedList(ui, told, o);
    hide EntriesInv, IndexOfOutput, UpdateOutput, LabelledNow, SilentInv;
    NewsExplained(ui, ui', o, silent);
  }

  lemma ChangedList(ui: Ui, told: Ui, o: OutputId)
    requires EntriesInv(ui) && told == ui.(info := told.info) && o in told.info
    ensures var ui' := UpdateOutput(told, o).ui;
            && ui'.kioskOutputs == ui.kioskOutputs && ui'.info == told.info
            && (forall i :: 0 <= i < |ui'.surfaces| ==>
                  || (ui'.surfaces[i].output != o && ui'.surfaces[i] in ui.surfaces)
                  || (ui'.surfaces[i].output == o && LabelledNow(ui', ui'.surfaces[i])))
  {
    OthersAreOthers(ui, o);
    hide EntriesInv, IndexOfOutput, Name, Role, Scale, KioskGeometry;
  }

  lemma AnnounceExplained(ui: Ui, o: OutputId, details: OutputInfo, silent: set<OutputId>)
    requires EntriesInv(ui) && o !in ui.info && SilentInv(ui, silent)
    ensures SilentInv(NewOutput(ui.(info := ui.info[o := details]), o), silent)
  {
    var told := ui.(info := ui.info[o := details]);
    assert told.info - {o} == ui.info - {o};
    forall i | 0 <= i < |ui.surfaces| ensures Explained(told, told.surfaces[i], silent) {
      var e := ui.surfaces[i];
      assert Explained(ui, e, silent);
      if e.output != o {
        OthersStayExplained(ui, told, e, o, silent);
      }
    }
    AddExplained(told, o, silent);
    hide AddSurface, EntriesInv;
  }

  lemma AddExplained(ui: Ui, o: OutputId, silent: set<OutputId>)
    requires SilentInv(ui, silent) && o in ui.info
    ensures SilentInv(AddSurface(ui, o), silent)
  {
    hide IndexOfOutput;
    forall i | 0 <= i < |ui.surfaces| ensures Explained(AddSurface(ui, o), ui.surfaces[i], silent) {
      assert Explained(ui, ui.surfaces[i], silent);
    }
  }

  lemma WithdrawExplained(ui: Ui, o: OutputId, silent: set<OutputId>)
    requires EntriesInv(ui) && SilentInv(ui, silent)
    ensures SilentInv(RemoveOutput(ui.(known := Without(ui.known, o), info := ui.info - {o}), o).ui, silent - {o})
  {
    RemovedLeavesNoEntry(ui, o);
    var told := ui.(known := Without(ui.known, o), info := ui.info - {o});
    RemovalIgnoresRegistry(ui, told, o);
    hide EntriesInv, RemoveOutput, IndexOfOutput, Without, LabelledNow, SilentInv;
    assert (ui.info - {o}) - {o} == ui.info - {o};
    NewsExplained(ui, RemoveOutput(told, o).ui, o, silent);
  }

  lemma ConfirmExplained(ui: Ui)
    requires DisplayInv(ui) && ui.lock == Pending
    ensures SilentInv(Locked(ui), set o | o in ui.known && o !in ui.info)
  {
    NoSurfacesYet(ui);
    ConfirmLabelsCurrent(ui);
    ConfirmKeepsEverything(ui);
    var held := Send(ui, LockConfirmed).(lock := Held, socketPath := None);
    AddSurfacesFrame(held, SessionFirst(held, held.known));
    assert EntriesInv(Locked(ui)) && Locked(ui).info == ui.info && Locked(ui).known == ui.known;
    hide DisplayInv, Locked, LabelledNow, Covered;
  }

  lemma QuietCallbackExplained(ui: Ui, e: Callback, silent: set<OutputId>)
    requires SilentInv(ui, silent) && MayHappen(ui, e)
    requires !e.Announce? && !e.Change? && !e.Withdraw? && !e.Confirm?
    ensures SilentInv(Handle(ui, e).ui, silent)
  {
    hide IndexOfSurface, KioskGeometry, SessionIndices;
    var ui' := Handle(ui, e).ui;
    forall i | 0 <= i < |ui'.surfaces| ensures Explained(ui', ui'.surfaces[i], silent) {
      assert Explained(ui, ui.surfaces[i], silent);
    }
  }

  lemma StepKeepsExplained(ui: Ui, e: Callback, silent: set<OutputId>)
    requires DisplayInv(ui) && MayHappen(ui, e) && SilentInv(ui, silent)
    ensures SilentInv(Handle(ui, e).ui, SilentAfter(ui, e, silent))
  {
    hide DisplayInv, NewOutput, UpdateOutput, RemoveOutput, Locked, SilentInv;
    RegistryOf(ui);
    match e
    case Announce(o, details) => AnnounceExplained(ui, o, details, silent);
    case Change(o, details) => ChangeExplained(ui, o, details, silent);
    case Withdraw(o) => WithdrawExplained(ui, o, silent);
    case Confirm => ConfirmExplained(ui);
    case _ =>
      QuietCallbackExplained(ui, e, silent);
  }

  // ---- whole runs ----

  function Silent(s: System.State, events: seq<System.Event>, silent: set<OutputId>): set<OutputId>
    requires System.Run(s, events)
    decreases |events|
  {
    if events == [] then silent
    else Silent(System.Step(s, events[0]), events[1..],
                if events[0].Display? then SilentAfter(s.ui, events[0].callback, silent) else silent)
  }

  predicate SameList(ui: Ui, ui': Ui) {
    ui'.surfaces == ui.surfaces && ui'.info == ui.info && ui'.kioskOutputs == ui.kioskOutputs
  }

  lemma OtherStepsKeepTheList(s: System.State, e: System.Event)
    requires System.Enabled(s, e) && !e.Display?
    ensures SameList(s.ui, System.Step(s, e).ui)
  {
    hide Handle, RenderSurface, Auth.PressKey, AuthMachine.Step, AuthMachine.Enabled;
  }

  lemma SameListSameLabels(ui: Ui, ui': Ui, silent: set<OutputId>)
    requires SameList(ui, ui') && LabelsInv(ui) && SilentInv(ui, silent)
    ensures LabelsInv(ui') && SilentInv(ui', silent)
  {
    forall i | 0 <= i < |ui.surfaces|
      ensures LabelledNow(ui', ui.surfaces[i]) || LabelledBlank(ui', ui.surfaces[i])
      ensures Explained(ui', ui.surfaces[i], silent)
    {
      OtherNewsIsNoNews(ui, ui', ui.surfaces[i]);
      assert Explained(ui, ui.surfaces[i], silent);
    }
    hide LabelledNow, LabelledBlank;
  }

  lemma StepKeepsLabelled(s: System.State, e: System.Event, silent: set<OutputId>)
    requires System.SystemInv(s) && LabelsInv(s.ui) && SilentInv(s.ui, silent) && System.Enabled(s, e)
    ensures var ui' := System.Step(s, e).ui;
            LabelsInv(ui') && SilentInv(ui', if e.Display? then SilentAfter(s.ui, e.callback, silent) else silent)
  {
    hide Handle, RenderSurface, Auth.PressKey, AuthMachine.Step, AuthMachine.Enabled, DisplayInv, SilentInv, LabelsInv;
    SystemTheorems.DisplayWhileRunning(s);
    hide System.SystemInv;
    if e.Display? {
      StepKeepsLabels(s.ui, e.callback);
      StepKeepsExplained(s.ui, e.callback, silent);
    } else {
      OtherStepsKeepTheList(s, e);
      hide System.Step, System.Enabled;
      SameListSameLabels(s.ui, System.Step(s, e).ui, silent);
    }
  }

  lemma {:induction false} LabelledAlways(s: System.State, events: seq<System.Event>, silent: set<OutputId>)
    requires System.SystemInv(s) && LabelsInv(s.ui) && SilentInv(s.ui, silent) && System.Run(s, events)
    ensures LabelsInv(System.Exec(s, events).ui) && SilentInv(System.Exec(s, events).ui, Silent(s, events, silent))
    decreases |events|
  {
    hide System.SystemInv, LabelsInv, SilentInv, SilentAfter, System.Step, System.Enabled;
    if events != [] {
      StepKeepsLabelled(s, events[0], silent);
      System.StepKeepsSystemInv(s, events[0]);
      LabelledAlways(System.Step(s, events[0]), events[1..],
                     if events[0].Display? then SilentAfter(s.ui, events[0].callback, silent) else silent);
    }
  }

  /** In every run each surface carries what its output has announced by now; or else a blank label, and
      then its output was listed at confirmation, had announced nothing, and has not changed since. */
  lemma EntriesAreLabelled(story: SystemTheorems.Story)
    ensures var ui := SystemTheorems.End(story).ui;
            forall i :: 0 <= i < |ui.surfaces| ==>
              LabelledNow(ui, ui.surfaces[i])
              || (LabelledBlank(ui, ui.surfaces[i])
                  && ui.surfaces[i].output in Silent(SystemTheorems.Begin(story.setup), story.events, {}))
  {
    System.StartKeepsSystemInv(story.setup.kioskOutputs, story.setup.socketPath, story.setup.daemonReady);
    hide System.SystemInv, System.Step, LabelledNow, LabelledBlank;
    LabelledAlways(SystemTheorems.Begin(story.setup), story.events, {});
    var ui := SystemTheorems.End(story).ui;
    forall i | 0 <= i < |ui.surfaces|
      ensures LabelledNow(ui, ui.surfaces[i])
              || (LabelledBlank(ui, ui.surfaces[i])
                  && ui.surfaces[i].output in Silent(SystemTheorems.Begin(story.setup), story.events, {}))
    {
      assert Explained(ui, ui.surfaces[i], Silent(SystemTheorems.Begin(story.setup), story.events, {}));
    }
  }

  /** It does happen: an output bound before the confirmation and announced after it, under a kiosk's
      name, keeps the password screen. */
  lemma LateAnnouncementKeepsTheLockScreen(name: string)
    requires name != ""
    ensures var fresher := SystemTheorems.Begin(SystemTheorems.Setup([name], None, false)).ui;
            var bound := Handle(fresher, Bind(0)).ui;
            var requested := Handle(bound, RequestLock).ui;
            var held := Handle(requested, Confirm).ui;
            var t := Handle(held, Announce(0, OutputInfo(Some(name), 1))).ui;
            && MayHappen(fresher, Bind(0)) && MayHappen(bound, RequestLock) && MayHappen(requested, Confirm)
            && MayHappen(held, Announce(0, OutputInfo(Some(name), 1)))
            && |t.surfaces| == 1 && t.surfaces[0].output == 0 && Role(t, 0) == Kiosk && t.surfaces[0].role == Session
  {
    var fresher := SystemTheorems.Begin(SystemTheorems.Setup([name], None, false)).ui;
    var requested := Handle(Handle(fresher, Bind(0)).ui, RequestLock).ui;
    assert requested.known == [0];
    var confirmed := Send(requested, LockConfirmed).(lock := Held, socketPath := None);
    assert OfRole(confirmed, [], Session) == OfRole(confirmed, [], Kiosk) == [];
    assert SessionFirst(confirmed, [0]) == [0];
    assert AddSurfaces(confirmed, [0]) == AddSurface(AddSurfaces(confirmed, []), 0);
  }
}
