/** The desktop and mobile device histories as objects, proved against the lists of HistorySpec. */
module Histories {
  import opened Basics
  import opened HistorySpec

  /** The position of the first visit to a device, found by scanning. */
  method Locate<D>(es: seq<Visit<D>>, id: string) returns (at: Option<nat>)
    ensures at == FirstOf(es, id)
  {
    for i := 0 to |es|
      invariant forall k :: 0 <= k < i ==> es[k].id != id
    {
      if es[i].id == id {
        FirstIs(es, id, i);
        return Some(i);
      }
    }
    FirstIsNone(es, id);
    return None;
  }

  lemma FirstIs<D>(es: seq<Visit<D>>, id: string, i: nat)
    requires i < |es| && es[i].id == id && forall k :: 0 <= k < i ==> es[k].id != id
    ensures FirstOf(es, id) == Some(i)
  {
  }

  lemma FirstIsNone<D>(es: seq<Visit<D>>, id: string)
    requires forall k :: 0 <= k < |es| ==> es[k].id != id
    ensures FirstOf(es, id) == None
  {
  }

  method Filter<D>(es: seq<Visit<D>>, id: string) returns (r: seq<Visit<D>>)
    ensures r == Dropped(es, id)
  {
    r := [];
    for i := 0 to |es|
      invariant r == Dropped(es[..i], id)
    {
      assert es[..i + 1][..i] == es[..i];
      if es[i].id != id {
        r := r + [es[i]];
      }
    }
    assert es[..|es|] == es;
  }

  datatype Details = Details(ip: string, unitTypeName: string, password: string, lastSeen: string)

  class DeviceHistory {
    var entries: seq<Visit<Details>>

    constructor ()
      ensures entries == []
    {
      entries := [];
    }

    /** Adds or refreshes an entry and moves it to the front, keeping the name the user gave it. */
    method Record(id: string, details: Details)
      modifies this
      ensures entries == HistorySpec.Record(old(entries), id, details)
    {
      var existing := Locate(entries, id);
      var preservedName := if existing.Some? then entries[existing.value].name else "";
      entries := Filter(entries, id);
      entries := [Visit(id, preservedName, details)] + entries;
      if |entries| > MAX_ENTRIES {
        entries := entries[..MAX_ENTRIES];
      }
    }

    method Rename(id: string, name: string)
      modifies this
      ensures entries == Renamed(old(entries), id, name)
    {
      for i := 0 to |entries|
        invariant entries == old(entries)
        invariant forall k :: 0 <= k < i ==> entries[k].id != id
      {
        if entries[i].id == id {
          FirstIs(entries, id, i);
          entries := entries[i := entries[i].(name := name)];
          return;
        }
      }
      FirstIsNone(entries, id);
    }

    method Remove(id: string)
      modifies this
      ensures entries == Dropped(old(entries), id)
    {
      entries := Filter(entries, id);
    }

    method Clear()
      modifies this
      ensures entries == []
    {
      entries := [];
    }
  }

  datatype NativeDetails = NativeDetails(ip: string, password: string)

  class NativeDeviceHistory {
    var entries: seq<Visit<NativeDetails>>

    constructor ()
      ensures entries == []
    {
      entries := [];
    }

    method RecordConnection(id: string, details: NativeDetails)
      modifies this
      ensures entries == NativeRecord(old(entries), id, details)
    {
      for i := 0 to |entries|
        invariant entries == old(entries)
        invariant forall k :: 0 <= k < i ==> entries[k].id != id
      {
        if entries[i].id == id {
          FirstIs(entries, id, i);
          var label_ := entries[i].name;
          entries := entries[..i] + entries[i + 1..];
          entries := [Visit(id, label_, details)] + entries;
          return;
        }
      }
      FirstIsNone(entries, id);
      if |entries| >= MAX_ENTRIES {
        entries := entries[..|entries| - 1];
      }
      entries := [Visit(id, "", details)] + entries;
    }

    method SetLabel(id: string, name: string)
      modifies this
      ensures entries == Renamed(old(entries), id, name)
    {
      for i := 0 to |entries|
        invariant entries == old(entries)
        invariant forall k :: 0 <= k < i ==> entries[k].id != id
      {
        if entries[i].id == id {
          FirstIs(entries, id, i);
          entries := entries[i := entries[i].(name := name)];
          return;
        }
      }
      FirstIsNone(entries, id);
    }

    method RemoveEntry(id: string)
      modifies this
      ensures entries == Dropped(old(entries), id)
    {
      entries := Filter(entries, id);
    }
  }
}
