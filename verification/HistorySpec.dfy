/**
 * The device history on values: a bounded list of visited devices, most recently used first.
 *
 * A visit keeps the device id, the user's name for it, and the details D of the implementation at hand.
 */
module HistorySpec {
  import opened Basics

  const MAX_ENTRIES := 10

  datatype Visit<D> = Visit(id: string, name: string, details: D)

  function Ids<D>(es: seq<Visit<D>>): (ids: seq<string>)
    ensures |ids| == |es| && forall i :: 0 <= i < |es| ==> ids[i] == es[i].id
  {
    seq(|es|, i requires 0 <= i < |es| => es[i].id)
  }

  /** The index of the first visit to that device. */
  function FirstOf<D>(es: seq<Visit<D>>, id: string): (r: Option<nat>)
    ensures r.Some? ==> r.value < |es| && es[r.value].id == id
    ensures r.Some? ==> forall i :: 0 <= i < r.value ==> es[i].id != id
    ensures r.None? ==> id !in Ids(es)
  {
    if es == [] then None
    else if es[0].id == id then Some(0)
    else
      var r := FirstOf(es[1..], id);
      if r.None? then None else Some(r.value + 1)
  }

  function NameOf<D>(es: seq<Visit<D>>, id: string): string {
    var i := FirstOf(es, id);
    if i.Some? then es[i.value].name else ""
  }

  function Dropped<D>(es: seq<Visit<D>>, id: string): seq<Visit<D>> {
    if es == [] then []
    else
      var n := |es| - 1;
      Dropped(es[..n], id) + (if es[n].id != id then [es[n]] else [])
  }

  function Capped<T>(s: seq<T>): seq<T> { if |s| <= MAX_ENTRIES then s else s[..MAX_ENTRIES] }

  /** The desktop's record: the refreshed visit in front, any stale one removed, the rest cut off. */
  function Record<D>(es: seq<Visit<D>>, id: string, d: D): seq<Visit<D>> {
    Capped([Visit(id, NameOf(es, id), d)] + Dropped(es, id))
  }

  /** The mobile application's: a known visit moves to the front, a new one first makes room for itself. */
  function NativeRecord<D>(es: seq<Visit<D>>, id: string, d: D): seq<Visit<D>> {
    var i := FirstOf(es, id);
    if i.Some? then [Visit(id, es[i.value].name, d)] + (es[..i.value] + es[i.value + 1..])
    else [Visit(id, "", d)] + (if |es| >= MAX_ENTRIES then es[..|es| - 1] else es)
  }

  function Renamed<D>(es: seq<Visit<D>>, id: string, name: string): seq<Visit<D>> {
    var i := FirstOf(es, id);
    if i.Some? then es[i.value := es[i.value].(name := name)] else es
  }

  datatype Act<D> =
    | Connect(id: string, details: D)
    | SetName(id: string, name: string)
    | Remove(id: string)

  function Step<D>(es: seq<Visit<D>>, a: Act<D>): seq<Visit<D>> {
    match a
    case Connect(id, d) => Record(es, id, d)
    case SetName(id, name) => Renamed(es, id, name)
    case Remove(id) => Dropped(es, id)
  }

  function NativeStep<D>(es: seq<Visit<D>>, a: Act<D>): seq<Visit<D>> {
    match a
    case Connect(id, d) => NativeRecord(es, id, d)
    case SetName(id, name) => Renamed(es, id, name)
    case Remove(id) => Dropped(es, id)
  }

  function RunActs<D>(es: seq<Visit<D>>, acts: seq<Act<D>>): seq<Visit<D>>
    decreases |acts|
  {
    if acts == [] then es else RunActs(Step(es, acts[0]), acts[1..])
  }

  function NativeRun<D>(es: seq<Visit<D>>, acts: seq<Act<D>>): seq<Visit<D>>
    decreases |acts|
  {
    if acts == [] then es else NativeRun(NativeStep(es, acts[0]), acts[1..])
  }

  // ---------------------------------------------------------------------------
  // Distinct ids
  // ---------------------------------------------------------------------------

  ghost predicate Distinct<T>(s: seq<T>) { forall i, j :: 0 <= i < j < |s| ==> s[i] != s[j] }

  /** `s` without `x`. */
  function Minus(s: seq<string>, x: string): seq<string> {
    if s == [] then []
    else
      var n := |s| - 1;
      Minus(s[..n], x) + (if s[n] != x then [s[n]] else [])
  }

  lemma {:induction false} MinusMembers(s: seq<string>, x: string)
    ensures forall y :: y in Minus(s, x) <==> y in s && y != x
    decreases |s|
  {
    if s != [] {
      MinusMembers(s[..|s| - 1], x);
      assert s == s[..|s| - 1] + [s[|s| - 1]];
    }
  }

  lemma {:induction false} MinusAbsent(s: seq<string>, x: string)
    requires x !in s
    ensures Minus(s, x) == s
    decreases |s|
  {
    if s != [] {
      MinusAbsent(s[..|s| - 1], x);
    }
  }

  lemma {:induction false} MinusDistinct(s: seq<string>, x: string)
    requires Distinct(s)
    ensures Distinct(Minus(s, x)) && |s| - 1 <= |Minus(s, x)| <= |s|
    decreases |s|
  {
    if s != [] {
      var n := |s| - 1;
      var front := Minus(s[..n], x);
      MinusDistinct(s[..n], x);
      if s[n] == x {
        MinusAbsent(s[..n], x);
      } else {
        MinusMembers(s[..n], x);
        hide Minus;
        forall i | 0 <= i < |front|
          ensures front[i] != s[n]
        {
          assert front[i] in front;
        }
      }
    }
  }

  lemma {:induction false} MinusPrefix(s: seq<string>, k: nat, x: string)
    requires k <= |s|
    ensures Minus(s[..k], x) <= Minus(s, x)
    decreases |s|
  {
    if k < |s| {
      var n := |s| - 1;
      assert s[..n][..k] == s[..k];
      MinusPrefix(s[..n], k, x);
    } else {
      assert s[..k] == s;
    }
  }

  lemma {:induction false} DroppedIds<D>(es: seq<Visit<D>>, id: string)
    ensures Ids(Dropped(es, id)) == Minus(Ids(es), id)
    decreases |es|
  {
    if es == [] {
    } else {
      var n := |es| - 1;
      DroppedIds(es[..n], id);
      assert Ids(es)[..n] == Ids(es[..n]);
      assert Ids(Dropped(es, id)) == Ids(Dropped(es[..n], id)) + (if es[n].id != id then [es[n].id] else []);
    }
  }

  lemma {:induction false} DroppedAbsent<D>(es: seq<Visit<D>>, id: string)
    requires forall i :: 0 <= i < |es| ==> es[i].id != id
    ensures Dropped(es, id) == es
    decreases |es|
  {
    if es != [] {
      var n := |es| - 1;
      DroppedAbsent(es[..n], id);
      assert es == es[..n] + [es[n]];
    }
  }

  lemma {:induction false} DroppedOne<D>(es: seq<Visit<D>>, i: nat)
    requires i < |es| && forall k :: 0 <= k < |es| && k != i ==> es[k].id != es[i].id
    ensures Dropped(es, es[i].id) == es[..i] + es[i + 1..]
    decreases |es|
  {
    var n := |es| - 1;
    if i == n {
      DroppedAbsent(es[..n], es[n].id);
    } else {
      assert es[..n][i] == es[i];
      DroppedOne(es[..n], i);
      assert es[..i] + es[i + 1..] == (es[..n][..i] + es[..n][i + 1..]) + [es[n]];
    }
  }

  // ---------------------------------------------------------------------------
  // Most recently used
  // ---------------------------------------------------------------------------

  /** The distinct devices connected to, latest first, with no bound. */
  function Recency<D>(acts: seq<Act<D>>): seq<string> {
    if acts == [] then []
    else
      var n := |acts| - 1;
      if acts[n].Connect? then [acts[n].id] + Minus(Recency(acts[..n]), acts[n].id) else Recency(acts[..n])
  }

  /** When a device was last connected to; nothing when it never was. */
  function LastUse<D>(acts: seq<Act<D>>, id: string): (r: Option<nat>)
    ensures r.Some? ==> r.value < |acts| && acts[r.value].Connect? && acts[r.value].id == id
    ensures r.Some? ==> forall k :: r.value < k < |acts| && acts[k].Connect? ==> acts[k].id != id
    ensures r.None? ==> forall k :: 0 <= k < |acts| && acts[k].Connect? ==> acts[k].id != id
  {
    if acts == [] then None
    else
      var n := |acts| - 1;
      if acts[n].Connect? && acts[n].id == id then Some(n) else LastUse(acts[..n], id)
  }

  /** The order of last use is strictly decreasing along the list. */
  ghost predicate LatestFirst<D>(ids: seq<string>, acts: seq<Act<D>>) {
    && (forall i :: 0 <= i < |ids| ==> LastUse(acts, ids[i]).Some?)
    && forall i, j :: 0 <= i < j < |ids| ==> LastUse(acts, ids[i]).value > LastUse(acts, ids[j]).value
  }

  lemma LatestSnoc<D>(ids: seq<string>, y: string, acts: seq<Act<D>>)
    requires LatestFirst(ids, acts) && LastUse(acts, y).Some?
    requires forall i :: 0 <= i < |ids| ==> LastUse(acts, ids[i]).value > LastUse(acts, y).value
    ensures LatestFirst(ids + [y], acts)
  {
    hide LastUse;
  }

  lemma {:induction false} MinusOrdered<D>(ids: seq<string>, x: string, acts: seq<Act<D>>)
    requires LatestFirst(ids, acts)
    ensures LatestFirst(Minus(ids, x), acts)
    decreases |ids|
  {
    if ids != [] {
      var n := |ids| - 1;
      var front := Minus(ids[..n], x);
      hide LastUse;
      MinusOrdered(ids[..n], x, acts);
      MinusMembers(ids[..n], x);
      forall i | 0 <= i < |front|
        ensures LastUse(acts, front[i]).value > LastUse(acts, ids[n]).value
      {
        assert front[i] in front;
        var k :| 0 <= k < n && ids[..n][k] == front[i];
        assert ids[k] == front[i];
      }
      LatestSnoc(front, ids[n], acts);
    }
  }

  /** A device connected to last goes in front of the others. */
  lemma LatestCons<D>(acts: seq<Act<D>>, rest: seq<string>)
    requires acts != [] && acts[|acts| - 1].Connect? && acts[|acts| - 1].id !in rest
    requires LatestFirst(rest, acts[..|acts| - 1])
    ensures LatestFirst([acts[|acts| - 1].id] + rest, acts)
  {
  }

  /** The unbounded list holds exactly the devices ever connected to, once each, by latest use. */
  lemma {:induction false} RecencyIsByLastUse<D>(acts: seq<Act<D>>)
    ensures Distinct(Recency(acts)) && LatestFirst(Recency(acts), acts)
    ensures forall id :: id in Recency(acts) <==> LastUse(acts, id).Some?
    decreases |acts|
  {
    if acts != [] {
      var n := |acts| - 1;
      var before, a := Recency(acts[..n]), acts[n];
      RecencyIsByLastUse(acts[..n]);
      if a.Connect? {
        MinusMembers(before, a.id);
        MinusDistinct(before, a.id);
        MinusOrdered(before, a.id, acts[..n]);
        hide LatestFirst, Minus;
        LatestCons(acts, Minus(before, a.id));
      } else {
        assert forall id :: LastUse(acts, id) == LastUse(acts[..n], id);
      }
    }
  }

  ghost predicate NoRemovals<D>(acts: seq<Act<D>>) { forall i :: 0 <= i < |acts| ==> !acts[i].Remove? }

  lemma {:induction false} RunSnoc<D>(es: seq<Visit<D>>, acts: seq<Act<D>>, a: Act<D>)
    ensures RunActs(es, acts + [a]) == Step(RunActs(es, acts), a)
    decreases |acts|
  {
    if acts == [] {
      assert [a][1..] == [];
    } else {
      assert (acts + [a])[1..] == acts[1..] + [a];
      RunSnoc(Step(es, acts[0]), acts[1..], a);
    }
  }

  lemma CappedMinus(s: seq<string>, x: string)
    requires Distinct(s)
    ensures Capped([x] + Minus(Capped(s), x)) == Capped([x] + Minus(s, x))
  {
    if |s| > MAX_ENTRIES {
      MinusPrefix(s, MAX_ENTRIES, x);
      MinusDistinct(s[..MAX_ENTRIES], x);
      var few, all := Minus(s[..MAX_ENTRIES], x), Minus(s, x);
      assert |few| >= MAX_ENTRIES - 1 && few == all[..|few|];
      assert few[..MAX_ENTRIES - 1] == all[..MAX_ENTRIES - 1];
      assert ([x] + few)[..MAX_ENTRIES] == [x] + few[..MAX_ENTRIES - 1];
      assert ([x] + all)[..MAX_ENTRIES] == [x] + all[..MAX_ENTRIES - 1];
    }
  }

  lemma RecordIds<D>(es: seq<Visit<D>>, id: string, d: D)
    ensures Ids(Record(es, id, d)) == Capped([id] + Minus(Ids(es), id))
  {
    DroppedIds(es, id);
    var all := [Visit(id, NameOf(es, id), d)] + Dropped(es, id);
    assert Ids(all) == [id] + Ids(Dropped(es, id));
    assert Ids(Capped(all)) == Capped(Ids(all));
  }

  /**
   * After any run of connections and renames from empty, the list holds the first ten distinct devices by
   * latest use, in that order.
   */
  lemma {:induction false} HistoryIsMostRecent<D>(acts: seq<Act<D>>)
    requires NoRemovals(acts)
    ensures Ids(RunActs([], acts)) == Capped(Recency(acts))
    decreases |acts|
  {
    if acts != [] {
      var n := |acts| - 1;
      var a, before := acts[n], RunActs([], acts[..n]);
      HistoryIsMostRecent(acts[..n]);
      assert acts == acts[..n] + [a];
      RunSnoc([], acts[..n], a);
      hide RunActs;
      match a {
        case Connect(id, d) =>
          RecordIds(before, id, d);
          RecencyIsByLastUse(acts[..n]);
          CappedMinus(Recency(acts[..n]), id);
        case SetName(id, name) =>
          assert Ids(Renamed(before, id, name)) == Ids(before);
      }
    }
  }

  /**
   * The same without the unbounded list: listed devices are distinct and by latest use, and a device
   * connected to but not listed has been pushed out by ten others, all connected to later.
   */
  lemma HistoryByLatestUse<D>(acts: seq<Act<D>>, missing: string)
    requires NoRemovals(acts)
    ensures var ids := Ids(RunActs([], acts));
            && Distinct(ids) && LatestFirst(ids, acts)
            && (LastUse(acts, missing).Some? && missing !in ids ==>
                 |ids| == MAX_ENTRIES && LatestFirst(ids + [missing], acts))
  {
    HistoryIsMostRecent(acts);
    RecencyIsByLastUse(acts);
    hide LastUse, Recency, RunActs, NoRemovals;
    CutByLatestUse(Recency(acts), acts, missing);
  }

  lemma CutByLatestUse<D>(all: seq<string>, acts: seq<Act<D>>, missing: string)
    requires Distinct(all) && LatestFirst(all, acts)
    ensures Distinct(Capped(all)) && LatestFirst(Capped(all), acts)
    ensures missing in all && missing !in Capped(all) ==>
              |Capped(all)| == MAX_ENTRIES && LatestFirst(Capped(all) + [missing], acts)
  {
  }

  // ---------------------------------------------------------------------------
  // Names
  // ---------------------------------------------------------------------------

  /** The device is listed before, between and after the steps of a run. */
  ghost predicate Resident<D>(es: seq<Visit<D>>, acts: seq<Act<D>>, id: string)
    decreases |acts|
  {
    id in Ids(es) && (acts == [] || Resident(Step(es, acts[0]), acts[1..], id))
  }

  /** The last name given to a device in a run, or the name it had. */
  function GivenName<D>(acts: seq<Act<D>>, id: string, had: string): string
    decreases |acts|
  {
    if acts == [] then had
    else GivenName(acts[1..], id, if acts[0].SetName? && acts[0].id == id then acts[0].name else had)
  }

  lemma NameAt<D>(es: seq<Visit<D>>, i: nat)
    requires i < |es| && forall k :: 0 <= k < i ==> es[k].id != es[i].id
    ensures NameOf(es, es[i].id) == es[i].name
  {
  }

  lemma {:induction false} DroppedName<D>(es: seq<Visit<D>>, other: string, id: string)
    requires other != id && id in Ids(es)
    ensures id in Ids(Dropped(es, other)) && NameOf(Dropped(es, other), id) == NameOf(es, id)
    decreases |es|
  {
    var n := |es| - 1;
    var front, all := Dropped(es[..n], other), Dropped(es, other);
    var i := FirstOf(es, id).value;
    if i < n {
      assert Ids(es[..n])[i] == id;
      DroppedName(es[..n], other, id);
      NameAt(es[..n], i);
      var k := FirstOf(front, id).value;
      assert forall j :: 0 <= j <= k ==> all[j] == front[j];
      NameAt(all, k);
      assert Ids(all)[k] == id;
    } else {
      DroppedIds(es[..n], other);
      MinusMembers(Ids(es[..n]), other);
      forall j | 0 <= j < |front|
        ensures front[j].id != id
      {
        assert front[j].id == Ids(front)[j];
        assert Ids(front)[j] in Ids(es[..n]);
      }
      NameAt(all, |front|);
      assert Ids(all)[|front|] == id;
    }
  }

  lemma CappedName<D>(all: seq<Visit<D>>, id: string)
    requires id in Ids(Capped(all))
    ensures NameOf(Capped(all), id) == NameOf(all, id)
  {
  }

  lemma ConsName<D>(v: Visit<D>, es: seq<Visit<D>>, id: string)
    ensures NameOf([v] + es, id) == if v.id == id then v.name else NameOf(es, id)
  {
  }

  lemma StepKeepsName<D>(es: seq<Visit<D>>, a: Act<D>, id: string)
    requires id in Ids(es) && id in Ids(Step(es, a))
    ensures NameOf(Step(es, a), id) == GivenName([a], id, NameOf(es, id))
  {
    match a {
      case Connect(other, d) =>
        CappedName([Visit(other, NameOf(es, other), d)] + Dropped(es, other), id);
        ConsName(Visit(other, NameOf(es, other), d), Dropped(es, other), id);
        if other != id {
          DroppedName(es, other, id);
        }
      case SetName(other, name) =>
        NameAt(Renamed(es, other, name), FirstOf(es, id).value);
      case Remove(other) =>
        DroppedIds(es, other);
        MinusMembers(Ids(es), other);
        DroppedName(es, other, id);
    }
  }

  /** While a device stays listed it keeps the last name given to it, through any number of connections. */
  lemma {:induction false} NamesSurviveReconnects<D>(es: seq<Visit<D>>, acts: seq<Act<D>>, id: string)
    requires Resident(es, acts, id)
    ensures id in Ids(RunActs(es, acts))
    ensures NameOf(RunActs(es, acts), id) == GivenName(acts, id, NameOf(es, id))
    decreases |acts|
  {
    if acts != [] {
      hide Step, NameOf;
      StepKeepsName(es, acts[0], id);
      assert [acts[0]][1..] == [];
      NamesSurviveReconnects(Step(es, acts[0]), acts[1..], id);
    }
  }

  // ---------------------------------------------------------------------------
  // The two applications agree
  // ---------------------------------------------------------------------------

  lemma KnownRecordsAgree<D>(es: seq<Visit<D>>, id: string, d: D)
    requires Distinct(Ids(es)) && id in Ids(es)
    ensures NativeRecord(es, id, d) == Record(es, id, d) <==> |es| <= MAX_ENTRIES
  {
    var i := FirstOf(es, id).value;
    assert forall k :: 0 <= k < |es| ==> es[k].id == Ids(es)[k];
    DroppedOne(es, i);
    hide Dropped, Ids;
    assert |NativeRecord(es, id, d)| == |es|;
  }

  lemma NewRecordsAgree<D>(es: seq<Visit<D>>, id: string, d: D)
    requires id !in Ids(es)
    ensures NativeRecord(es, id, d) == Record(es, id, d) <==> |es| <= MAX_ENTRIES
  {
    assert forall k :: 0 <= k < |es| ==> es[k].id == Ids(es)[k];
    DroppedAbsent(es, id);
    hide Dropped, Ids;
    if |es| == MAX_ENTRIES {
      assert ([Visit(id, "", d)] + es)[..MAX_ENTRIES] == [Visit(id, "", d)] + es[..|es| - 1];
    }
  }

  /** Recording a connection does the same in both applications exactly while the list holds at most ten. */
  lemma RecordsAgreeExactly<D>(es: seq<Visit<D>>, id: string, d: D)
    requires Distinct(Ids(es))
    ensures NativeRecord(es, id, d) == Record(es, id, d) <==> |es| <= MAX_ENTRIES
  {
    if id in Ids(es) {
      KnownRecordsAgree(es, id, d);
    } else {
      NewRecordsAgree(es, id, d);
    }
  }

  lemma StepKeepsBounds<D>(es: seq<Visit<D>>, a: Act<D>)
    requires Distinct(Ids(es)) && |es| <= MAX_ENTRIES
    ensures Distinct(Ids(Step(es, a))) && |Step(es, a)| <= MAX_ENTRIES
  {
    match a {
      case Connect(id, d) =>
        RecordIds(es, id, d);
        MinusMembers(Ids(es), id);
        MinusDistinct(Ids(es), id);
        var rest := Minus(Ids(es), id);
        hide Minus;
        assert forall i :: 0 <= i < |rest| ==> rest[i] in rest;
      case SetName(id, name) => assert Ids(Renamed(es, id, name)) == Ids(es);
      case Remove(id) =>
        DroppedIds(es, id);
        MinusDistinct(Ids(es), id);
    }
  }

  /** Both applications keep the same list through every run from a list they can both have built. */
  lemma {:induction false} HistoriesAgree<D>(es: seq<Visit<D>>, acts: seq<Act<D>>)
    requires Distinct(Ids(es)) && |es| <= MAX_ENTRIES
    ensures NativeRun(es, acts) == RunActs(es, acts)
    ensures Distinct(Ids(RunActs(es, acts))) && |RunActs(es, acts)| <= MAX_ENTRIES
    decreases |acts|
  {
    if acts != [] {
      StepKeepsBounds(es, acts[0]);
      if acts[0].Connect? {
        RecordsAgreeExactly(es, acts[0].id, acts[0].details);
      }
      hide Record, NativeRecord, Renamed, Dropped;
      HistoriesAgree(Step(es, acts[0]), acts[1..]);
    }
  }

  // ---------------------------------------------------------------------------
  // Details and removals
  // ---------------------------------------------------------------------------

  /** Removing a device drops its visits and no other. */
  lemma {:induction false} DroppedExactly<D>(es: seq<Visit<D>>, id: string)
    ensures forall v :: v in Dropped(es, id) <==> v in es && v.id != id
    decreases |es|
  {
    if es != [] {
      var n := |es| - 1;
      DroppedExactly(es[..n], id);
      assert es == es[..n] + [es[n]];
    }
  }

  /** A removed device is forgotten, by both applications, until it is connected to again; no other is. */
  lemma RemovedIsForgotten<D>(es: seq<Visit<D>>, id: string, other: string)
    ensures var r := Step(es, Remove(id));
            && NativeStep(es, Remove(id)) == r
            && (other in Ids(r) <==> other in Ids(es) && other != id)
            && (other != id ==> NameOf(r, other) == NameOf(es, other))
  {
    DroppedIds(es, id);
    MinusMembers(Ids(es), id);
    if other != id && other in Ids(es) {
      DroppedName(es, id, other);
    }
  }

  /** Naming a device changes the name of its first visit and nothing else. */
  lemma RenamedExactly<D>(es: seq<Visit<D>>, id: string, name: string, i: nat)
    requires i < |es|
    ensures |Renamed(es, id, name)| == |es|
    ensures Renamed(es, id, name)[i]
         == if es[i].id == id && (forall k :: 0 <= k < i ==> es[k].id != id) then es[i].(name := name) else es[i]
  {
    assert forall k :: 0 <= k < |es| ==> Ids(es)[k] == es[k].id;
  }

  /** What was told of a device when it was last connected to. */
  function LatestDetails<D>(acts: seq<Act<D>>, id: string): Option<D> {
    if acts == [] then None
    else
      var n := |acts| - 1;
      if acts[n].Connect? && acts[n].id == id then Some(acts[n].details) else LatestDetails(acts[..n], id)
  }

  lemma StepKeepsDetails<D>(es: seq<Visit<D>>, a: Act<D>, v: Visit<D>)
    requires v in Step(es, a)
    ensures (a.Connect? && a.id == v.id && v.details == a.details)
         || ((a.Connect? ==> a.id != v.id) && exists u :: u in es && u.id == v.id && u.details == v.details)
  {
    match a {
      case Connect(id, d) =>
        DroppedExactly(es, id);
        assert v in [Visit(id, NameOf(es, id), d)] + Dropped(es, id);
      case SetName(id, name) =>
        var r := Renamed(es, id, name);
        var i :| 0 <= i < |r| && r[i] == v;
        RenamedExactly(es, id, name, i);
        assert es[i] in es;
      case Remove(id) => DroppedExactly(es, id);
    }
  }

  /** After any run from the empty list, whoever is listed is listed with the details of the latest connection. */
  lemma {:induction false} DetailsAreLatest<D>(acts: seq<Act<D>>, v: Visit<D>)
    requires v in RunActs([], acts)
    ensures LatestDetails(acts, v.id) == Some(v.details)
    decreases |acts|
  {
    if acts != [] {
      var n := |acts| - 1;
      assert acts == acts[..n] + [acts[n]];
      RunSnoc([], acts[..n], acts[n]);
      var es := RunActs([], acts[..n]);
      hide Step, RunActs;
      StepKeepsDetails(es, acts[n], v);
      if !(acts[n].Connect? && acts[n].id == v.id) {
        var u :| u in es && u.id == v.id && u.details == v.details;
        DetailsAreLatest(acts[..n], u);
      }
    }
  }
}
