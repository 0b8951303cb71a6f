/** The desktop and mobile scenario stores as objects, proved against the store values of StoreSpec. */
module Stores {
  import opened Basics
  import opened ScenarioData
  import opened StoreSpec

  /** Empties every slot equal to `gone`, list by list and slot by slot. */
  method EmptySlots<S(==)>(slots: map<string, seq<S>>, gone: S, blank: S) returns (r: map<string, seq<S>>)
    ensures r == ClearSlots(slots, gone, blank)
  {
    r := slots;
    var todo := slots.Keys;
    while todo != {}
      invariant r.Keys == slots.Keys && todo <= slots.Keys
      invariant forall dev :: dev in todo ==> r[dev] == slots[dev]
      invariant forall dev :: dev in slots && dev !in todo ==> r[dev] == ClearList(slots[dev], gone, blank)
      decreases |todo|
    {
      var dev :| dev in todo;
      var list := r[dev];
      for i := 0 to |list|
        invariant |list| == |slots[dev]|
        invariant forall k :: 0 <= k < i ==> list[k] == if slots[dev][k] == gone then blank else slots[dev][k]
        invariant forall k :: i <= k < |list| ==> list[k] == slots[dev][k]
      {
        if list[i] == gone {
          list := list[i := blank];
        }
      }
      assert list == ClearList(slots[dev], gone, blank);
      r := r[dev := list];
      todo := todo - {dev};
    }
  }

  /** The first `QUICK_SLOTS` slots, padded with blanks. */
  method ReadSlots<S>(stored: seq<S>, blank: S) returns (list: seq<S>)
    ensures list == Pad(stored, blank)
  {
    list := Truncated(stored);
    while |list| < QUICK_SLOTS
      invariant |list| <= QUICK_SLOTS && |Truncated(stored)| <= |list|
      invariant forall i :: 0 <= i < |list| ==> list[i] == if i < |stored| then stored[i] else blank
    {
      list := list + [blank];
    }
  }

  lemma FindAt(ss: seq<Scenario>, name: string, i: nat)
    requires i < |ss| && ss[i].name == name && forall k :: 0 <= k < i ==> ss[k].name != name
    ensures Find(ss, name) == Some(i)
  {
  }

  lemma FindNowhere(ss: seq<Scenario>, name: string)
    requires forall k :: 0 <= k < |ss| ==> ss[k].name != name
    ensures Find(ss, name) == None
  {
  }

  /** Removes every scenario of that name. */
  method RemoveNamed(ss: seq<Scenario>, name: string) returns (r: seq<Scenario>)
    ensures r == Without(ss, name)
  {
    r := [];
    for i := 0 to |ss|
      invariant r == Without(ss[..i], name)
    {
      assert ss[..i + 1][..i] == ss[..i];
      if ss[i].name != name {
        r := r + [ss[i]];
      }
    }
    assert ss[..|ss|] == ss;
  }

  class ScenarioStore {
    var scenarios: seq<Scenario>
    var quickSlots: map<string, seq<Option<string>>>

    ghost function Value(): DesktopStore
      reads this
    {
      Store(scenarios, quickSlots)
    }

    constructor ()
      ensures Value() == Store([], map[])
    {
      scenarios, quickSlots := [], map[];
    }

    method SaveScenario(entry: Scenario)
      modifies this
      ensures Value() == Save(old(Value()), entry, Label, BLANK)
    {
      for i := 0 to |scenarios|
        invariant Value() == old(Value())
        invariant forall k :: 0 <= k < i ==> scenarios[k].name != entry.name
      {
        if scenarios[i].name == entry.name {
          FindAt(scenarios, entry.name, i);
          scenarios := scenarios[i := entry];
          return;
        }
      }
      FindNowhere(scenarios, entry.name);
      if |scenarios| >= MAX_SCENARIOS {
        var evicted := scenarios[0].name;
        scenarios := scenarios[1..];
        quickSlots := EmptySlots(quickSlots, Some(evicted), BLANK);
      }
      scenarios := scenarios + [entry];
    }

    method DeleteScenario(name: string)
      modifies this
      ensures Value() == Delete(old(Value()), name, Label, BLANK)
    {
      scenarios := RemoveNamed(scenarios, name);
      quickSlots := EmptySlots(quickSlots, Some(name), BLANK);
    }

    method GetQuickSlots(dev: string) returns (list: seq<Option<string>>)
      ensures list == SlotsOf(Value(), dev, BLANK)
    {
      list := ReadSlots(if dev in quickSlots then quickSlots[dev] else [], BLANK);
    }

    method SetQuickSlots(dev: string, list: seq<Option<string>>)
      modifies this
      ensures Value() == SetSlots(old(Value()), dev, list)
    {
      quickSlots := quickSlots[dev := Truncated(list)];
    }

    /** The dashboard's rename route; false when no scenario of that name exists. */
    method UpdateScenario(name: string, newName: string) returns (found: bool)
      modifies this
      ensures found == Find(old(Value()).scenarios, name).Some?
      ensures Value() == Rename(old(Value()), name, newName, Label, BLANK)
    {
      var i := Find(scenarios, name);
      if i.None? {
        return false;
      }
      var entry := scenarios[i.value];
      if newName != "" && newName != name {
        DeleteScenario(name);
        SaveScenario(entry.(name := newName));
      }
      return true;
    }
  }

  class NativeScenarioStore {
    var scenarios: seq<Scenario>
    var quickSlots: map<string, seq<string>>

    ghost function Value(): NativeStore
      reads this
    {
      Store(scenarios, quickSlots)
    }

    constructor ()
      ensures Value() == Store([], map[])
    {
      scenarios, quickSlots := [], map[];
    }

    method SaveScenario(entry: Scenario)
      modifies this
      ensures Value() == Save(old(Value()), entry, NativeLabel, NATIVE_BLANK)
    {
      for i := 0 to |scenarios|
        invariant Value() == old(Value())
        invariant forall k :: 0 <= k < i ==> scenarios[k].name != entry.name
      {
        if scenarios[i].name == entry.name {
          FindAt(scenarios, entry.name, i);
          scenarios := scenarios[i := entry];
          return;
        }
      }
      FindNowhere(scenarios, entry.name);
      if |scenarios| >= MAX_SCENARIOS {
        var evicted := scenarios[0].name;
        scenarios := scenarios[1..];
        quickSlots := EmptySlots(quickSlots, evicted, NATIVE_BLANK);
      }
      scenarios := scenarios + [entry];
    }

    method DeleteScenario(name: string)
      modifies this
      ensures Value() == Delete(old(Value()), name, NativeLabel, NATIVE_BLANK)
    {
      scenarios := RemoveNamed(scenarios, name);
      quickSlots := EmptySlots(quickSlots, name, NATIVE_BLANK);
    }

    method QuickSlots(dev: string) returns (list: seq<string>)
      ensures list == SlotsOf(Value(), dev, NATIVE_BLANK)
    {
      list := ReadSlots(if dev in quickSlots then quickSlots[dev] else [], NATIVE_BLANK);
    }

    method SetQuickSlots(dev: string, list: seq<string>)
      modifies this
      ensures Value() == SetSlots(old(Value()), dev, list)
    {
      quickSlots := quickSlots[dev := Truncated(list)];
    }

    /** The mobile application's rename; it works on the list of named scenarios. */
    method RenameScenario(oldName: string, newName: string)
      modifies this
      ensures Value() == NativeRename(old(Value()), oldName, newName)
    {
      if oldName == "" {
        return;
      }
      var i := Find(scenarios, oldName);
      if i.Some? {
        var updated := scenarios[i.value].(name := newName);
        DeleteScenario(oldName);
        SaveScenario(updated);
      }
    }
  }
}
