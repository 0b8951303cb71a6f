/** What saving, deleting, renaming and assigning leave in the store, slot by slot and scenario by scenario. */
module SlotLaws {
  import opened Basics
  import opened ScenarioData
  import opened StoreSpec

  /** The scenario that gives way to a save under `name`: the oldest, when the list is full and the name new. */
  function Evicted(ss: seq<Scenario>, name: string): Option<string> {
    if name in Names(ss) || |ss| < MAX_SCENARIOS then None else Some(ss[0].name)
  }

  lemma FindsNamed(ss: seq<Scenario>, name: string)
    ensures Find(ss, name).Some? <==> name in Names(ss)
  {
    var i := Find(ss, name);
    if i.Some? {
      assert Names(ss)[i.value] == name;
    }
  }

  // ---------------------------------------------------------------------------
  // Slots
  // ---------------------------------------------------------------------------

  /** Deleting a scenario empties exactly the slots that name it. */
  lemma DeleteSlots<S>(st: Store<S>, name: string, named: string -> S, blank: S, dev: string, i: nat)
    requires i < QUICK_SLOTS
    ensures var before, after := SlotsOf(st, dev, blank), SlotsOf(Delete(st, name, named, blank), dev, blank);
            after[i] == if before[i] == named(name) then blank else before[i]
  {
  }

  /** Saving one empties exactly the slots that name the evicted scenario, and none when nothing is evicted. */
  lemma SaveSlots<S>(st: Store<S>, e: Scenario, named: string -> S, blank: S, dev: string, i: nat)
    requires i < QUICK_SLOTS
    ensures var before, after := SlotsOf(st, dev, blank), SlotsOf(Save(st, e, named, blank), dev, blank);
            var gone := Evicted(st.scenarios, e.name);
            after[i] == if gone.Some? && before[i] == named(gone.value) then blank else before[i]
  {
    FindsNamed(st.scenarios, e.name);
  }

  /** Renaming one empties exactly the slots that name its old name or a scenario evicted for the new one. */
  lemma RenameSlots<S>(st: Store<S>, o: string, n: string, named: string -> S, blank: S, dev: string, i: nat)
    requires i < QUICK_SLOTS && o in Names(st.scenarios) && n != "" && n != o
    ensures var before, after := SlotsOf(st, dev, blank), SlotsOf(Rename(st, o, n, named, blank), dev, blank);
            var gone := Evicted(Without(st.scenarios, o), n);
            after[i] == if before[i] == named(o) || (gone.Some? && before[i] == named(gone.value)) then blank
                        else before[i]
  {
    FindsNamed(st.scenarios, o);
    var mid := Delete(st, o, named, blank);
    var e := st.scenarios[Find(st.scenarios, o).value].(name := n);
    DeleteSlots(st, o, named, blank, dev, i);
    SaveSlots(mid, e, named, blank, dev, i);
  }

  /** Assigning the slots of a device keeps the first three in order, and every other device's. */
  lemma AssignedSlots<S>(st: Store<S>, dev: string, list: seq<S>, blank: S, other: string, i: nat)
    requires i < QUICK_SLOTS
    ensures SlotsOf(SetSlots(st, dev, list), other, blank)[i]
         == if other != dev then SlotsOf(st, other, blank)[i] else if i < |list| then list[i] else blank
  {
  }

  // ---------------------------------------------------------------------------
  // Scenarios
  // ---------------------------------------------------------------------------

  /** After a save the store holds the saved scenario and all others but the one that gave way. */
  lemma SavedScenarios(st: DesktopStore, e: Scenario)
    requires DistinctNames(st.scenarios)
    ensures var ss := st.scenarios;
            forall s :: s in Save(st, e, Label, BLANK).scenarios
              <==> s == e || (s in ss && s.name != e.name && Some(s.name) != Evicted(ss, e.name))
  {
    var ss, after := st.scenarios, Save(st, e, Label, BLANK).scenarios;
    var at := Find(ss, e.name);
    FindsNamed(ss, e.name);
    if at.Some? {
      assert after[at.value] == e;
      forall s | s in ss && s.name != e.name
        ensures s in after
      {
        var j :| 0 <= j < |ss| && ss[j] == s;
        assert after[j] == s;
      }
    } else {
      assert forall s :: s in ss ==> s.name != e.name by { NameOf(ss, e.name); }
      if |ss| >= MAX_SCENARIOS {
        assert ss == [ss[0]] + ss[1..];
      }
    }
  }

  /** After a rename it holds the scenario under the new name, and all others but the one replaced or evicted. */
  lemma RenamedScenarios(st: DesktopStore, o: string, n: string)
    requires DistinctNames(st.scenarios) && o in Names(st.scenarios) && n != "" && n != o
    ensures Find(st.scenarios, o).Some?
    ensures var ss := st.scenarios;
            var e := ss[Find(ss, o).value].(name := n);
            forall s :: s in Rename(st, o, n, Label, BLANK).scenarios
              <==> s == e || (s in ss && s.name != o && s.name != n && Some(s.name) != Evicted(Without(ss, o), n))
  {
    var ss := st.scenarios;
    FindsNamed(ss, o);
    WithoutDistinct(ss, o);
    WithoutMembers(ss, o);
    SavedScenarios(Delete(st, o, Label, BLANK), ss[Find(ss, o).value].(name := n));
  }

  // ---------------------------------------------------------------------------
  // Slots over whole runs
  // ---------------------------------------------------------------------------

  lemma EvictedIsNew(st: DesktopStore, e: Scenario, name: string)
    requires DistinctNames(st.scenarios) && name in Names(st.scenarios)
    ensures name in Names(Save(st, e, Label, BLANK).scenarios) <==> Some(name) != Evicted(st.scenarios, e.name)
  {
    var after := Save(st, e, Label, BLANK).scenarios;
    SavedScenarios(st, e);
    NameOf(st.scenarios, name);
    NameOf(after, name);
    hide Save, Names;
    if name == e.name {
      assert e in after;
    }
  }

  /** One action leaves a slot alone while its scenario stays, and empties it when its scenario goes. */
  lemma SlotStep(st: DesktopStore, a: Action, dev: string, i: nat)
    requires i < QUICK_SLOTS && Intact(st) && !(a.SlotsAction? && a.dev == dev)
    ensures var before := SlotsOf(st, dev, BLANK)[i];
            SlotsOf(Act(st, a), dev, BLANK)[i]
            == if before.Some? && before.value in Names(Act(st, a).scenarios) then before else None
  {
    var before := SlotsOf(st, dev, BLANK)[i];
    assert before.Some? ==> before.value in Names(st.scenarios);
    hide SlotsOf, Save, Delete, Names, Intact;
    match a {
      case SaveAction(e) =>
        SaveSlots(st, e, Label, BLANK, dev, i);
        if before.Some? {
          IntactIsDistinct(st);
          EvictedIsNew(st, e, before.value);
        }
      case DeleteAction(n) =>
        DeleteSlots(st, n, Label, BLANK, dev, i);
        if before.Some? {
          NamesDeleted(st, n, before.value);
        }
      case SlotsAction(d, list) => AssignedSlots(st, d, list, BLANK, dev, i);
      case RenameAction(o, n) => SlotRename(st, o, n, dev, i);
    }
  }

  lemma IntactIsDistinct(st: DesktopStore)
    requires Intact(st)
    ensures DistinctNames(st.scenarios)
  {
  }

  lemma NamesDeleted(st: DesktopStore, gone: string, name: string)
    ensures name in Names(Delete(st, gone, Label, BLANK).scenarios) <==> name in Names(st.scenarios) && name != gone
  {
    NamesWithout(st.scenarios, gone, name);
  }

  lemma SlotRename(st: DesktopStore, o: string, n: string, dev: string, i: nat)
    requires i < QUICK_SLOTS && Intact(st)
    ensures var before, after := SlotsOf(st, dev, BLANK)[i], Rename(st, o, n, Label, BLANK);
            SlotsOf(after, dev, BLANK)[i]
            == if before.Some? && before.value in Names(after.scenarios) then before else None
  {
    var before := SlotsOf(st, dev, BLANK)[i];
    assert before.Some? ==> before.value in Names(st.scenarios);
    FindsNamed(st.scenarios, o);
    if o in Names(st.scenarios) && n != "" && n != o {
      var mid := Delete(st, o, Label, BLANK);
      var e := st.scenarios[Find(st.scenarios, o).value].(name := n);
      RenameSlots(st, o, n, Label, BLANK, dev, i);
      DeleteKeepsIntact(st, o);
      if before.Some? {
        hide SlotsOf, Save, Delete, Names;
        NamesDeleted(st, o, before.value);
        if before.value != o {
          EvictedIsNew(mid, e, before.value);
        } else {
          SavedName(mid, e, o);
        }
      }
    }
  }

  lemma SavedName(st: DesktopStore, e: Scenario, name: string)
    requires name !in Names(st.scenarios) && name != e.name
    ensures name !in Names(Save(st, e, Label, BLANK).scenarios)
  {
    SavedNames(st, e, name);
  }

  /** No action of the run assigns slots to the device. */
  ghost predicate Unassigned(acts: seq<Action>, dev: string) {
    forall k :: 0 <= k < |acts| && acts[k].SlotsAction? ==> acts[k].dev != dev
  }

  lemma {:induction false} EmptyStaysEmpty(st: DesktopStore, acts: seq<Action>, dev: string, i: nat)
    requires i < QUICK_SLOTS && Intact(st) && AllProper(st, acts) && Unassigned(acts, dev)
    requires SlotsOf(st, dev, BLANK)[i] == None
    ensures SlotsOf(ActAll(st, acts), dev, BLANK)[i] == None
    decreases |acts|
  {
    if acts != [] {
      hide Act, SlotsOf;
      SlotStep(st, acts[0], dev, i);
      ActKeepsIntact(st, acts[0]);
      EmptyStaysEmpty(Act(st, acts[0]), acts[1..], dev, i);
    }
  }

  /**
   * Over any run of saves, deletions, renames and assignments to other devices, a slot keeps the scenario it
   * names exactly while that scenario stays in the store; it is empty from the moment the scenario goes.
   */
  lemma {:induction false} SlotFollowsScenario(st: DesktopStore, acts: seq<Action>, dev: string, i: nat, name: string)
    requires i < QUICK_SLOTS && Intact(st) && AllProper(st, acts) && Unassigned(acts, dev)
    requires SlotsOf(st, dev, BLANK)[i] == Some(name)
    ensures SlotsOf(ActAll(st, acts), dev, BLANK)[i] == if Survives(st, acts, name) then Some(name) else None
    decreases |acts|
  {
    assert name in Names(st.scenarios);
    if acts != [] {
      hide Act, SlotsOf, Names;
      SlotStep(st, acts[0], dev, i);
      ActKeepsIntact(st, acts[0]);
      var next := Act(st, acts[0]);
      if name in Names(next.scenarios) {
        SlotFollowsScenario(next, acts[1..], dev, i, name);
      } else {
        EmptyStaysEmpty(next, acts[1..], dev, i);
        assert !Survives(next, acts[1..], name);
      }
    }
  }
}
