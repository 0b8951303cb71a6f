/**
 * The scenario store on values: a capped list of scenarios, and quick slots that refer to them by name.
 *
 * A slot list is kept in the representation of the implementation at hand: `named` turns a scenario name
 * into a slot and `blank` is the empty slot.
 */
module StoreSpec {
  import opened Basics
  import opened ScenarioData

  const MAX_SCENARIOS := 10
  const QUICK_SLOTS := 3

  datatype Store<S> = Store(scenarios: seq<Scenario>, slots: map<string, seq<S>>)

  /** The index of the first scenario of that name. */
  function Find(ss: seq<Scenario>, name: string): (r: Option<nat>)
    ensures r.Some? ==> r.value < |ss| && ss[r.value].name == name
    ensures r.Some? ==> forall i :: 0 <= i < r.value ==> ss[i].name != name
    ensures r.None? ==> name !in Names(ss)
  {
    if ss == [] then None
    else if ss[0].name == name then Some(0)
    else
      var r := Find(ss[1..], name);
      if r.None? then None else Some(r.value + 1)
  }

  function ClearList<S(==)>(list: seq<S>, gone: S, blank: S): (r: seq<S>)
    ensures |r| == |list|
    ensures forall i :: 0 <= i < |list| ==> r[i] == if list[i] == gone then blank else list[i]
  {
    seq(|list|, i requires 0 <= i < |list| => if list[i] == gone then blank else list[i])
  }

  /** Every slot that refers to a scenario gone is emptied. */
  function ClearSlots<S(==)>(slots: map<string, seq<S>>, gone: S, blank: S): map<string, seq<S>> {
    map dev | dev in slots :: ClearList(slots[dev], gone, blank)
  }

  /** Overwrite in place by name, or append, evicting the oldest at the cap. */
  function Save<S(==)>(st: Store<S>, e: Scenario, named: string -> S, blank: S): Store<S> {
    var i := Find(st.scenarios, e.name);
    if i.Some? then st.(scenarios := st.scenarios[i.value := e])
    else if |st.scenarios| >= MAX_SCENARIOS then
      Store(st.scenarios[1..] + [e], ClearSlots(st.slots, named(st.scenarios[0].name), blank))
    else st.(scenarios := st.scenarios + [e])
  }

  function Without(ss: seq<Scenario>, name: string): seq<Scenario> {
    if ss == [] then []
    else
      var n := |ss| - 1;
      Without(ss[..n], name) + (if ss[n].name != name then [ss[n]] else [])
  }

  function Delete<S(==)>(st: Store<S>, name: string, named: string -> S, blank: S): Store<S> {
    Store(Without(st.scenarios, name), ClearSlots(st.slots, named(name), blank))
  }

  function Pad<S>(list: seq<S>, blank: S): (r: seq<S>)
    ensures |r| == QUICK_SLOTS
    ensures forall i :: 0 <= i < QUICK_SLOTS ==> r[i] == if i < |list| then list[i] else blank
  {
    seq(QUICK_SLOTS, i requires 0 <= i => if i < |list| then list[i] else blank)
  }

  function SlotsOf<S>(st: Store<S>, dev: string, blank: S): seq<S> {
    Pad(if dev in st.slots then st.slots[dev] else [], blank)
  }

  function Truncated<S>(list: seq<S>): seq<S> { if |list| <= QUICK_SLOTS then list else list[..QUICK_SLOTS] }

  function SetSlots<S>(st: Store<S>, dev: string, list: seq<S>): Store<S> {
    st.(slots := st.slots[dev := Truncated(list)])
  }

  /** Renaming is deleting and saving under the new name; an absent or equal new name changes nothing. */
  function Rename<S(==)>(st: Store<S>, old_: string, new_: string, named: string -> S, blank: S): Store<S> {
    var i := Find(st.scenarios, old_);
    if i.None? || new_ == "" || new_ == old_ then st
    else Save(Delete(st, old_, named, blank), st.scenarios[i.value].(name := new_), named, blank)
  }

  // ---------------------------------------------------------------------------
  // Representations
  // ---------------------------------------------------------------------------

  /** The desktop and dashboard store: a slot is a name or nothing. */
  function Label(name: string): Option<string> { Some(name) }

  const BLANK: Option<string> := None

  /** The mobile store: a slot is a name, the empty string standing for none. */
  function NativeLabel(name: string): string { name }

  const NATIVE_BLANK: string := ""

  type DesktopStore = Store<Option<string>>
  type NativeStore = Store<string>

  // ---------------------------------------------------------------------------
  // Integrity over whole runs
  // ---------------------------------------------------------------------------

  datatype Action =
    | SaveAction(entry: Scenario)
    | DeleteAction(name: string)
    | SlotsAction(dev: string, list: seq<Option<string>>)
    | RenameAction(old_: string, new_: string)

  function Act(st: DesktopStore, a: Action): DesktopStore {
    match a
    case SaveAction(e) => Save(st, e, Label, BLANK)
    case DeleteAction(n) => Delete(st, n, Label, BLANK)
    case SlotsAction(dev, list) => SetSlots(st, dev, list)
    case RenameAction(o, n) => Rename(st, o, n, Label, BLANK)
  }

  ghost predicate DistinctNames(ss: seq<Scenario>) {
    forall i, j :: 0 <= i < j < |ss| ==> ss[i].name != ss[j].name
  }

  ghost predicate KnownSlots(list: seq<Option<string>>, ss: seq<Scenario>) {
    forall i :: 0 <= i < |list| && list[i].Some? ==> list[i].value in Names(ss)
  }

  /** Distinct names, and slots that name existing scenarios only. */
  ghost predicate Intact(st: DesktopStore) {
    && DistinctNames(st.scenarios)
    && forall dev :: dev in st.slots ==> |st.slots[dev]| <= QUICK_SLOTS && KnownSlots(st.slots[dev], st.scenarios)
  }

  /** Slots are only ever assigned names of existing scenarios. */
  ghost predicate Proper(st: DesktopStore, a: Action) { a.SlotsAction? ==> KnownSlots(a.list, st.scenarios) }

  lemma {:induction false} WithoutMembers(ss: seq<Scenario>, name: string)
    ensures forall s :: s in Without(ss, name) <==> s in ss && s.name != name
    ensures |Without(ss, name)| <= |ss|
    decreases |ss|
  {
    if ss != [] {
      var n := |ss| - 1;
      WithoutMembers(ss[..n], name);
      assert ss == ss[..n] + [ss[n]];
    }
  }

  lemma {:induction false} WithoutAbsent(ss: seq<Scenario>, name: string)
    requires forall i :: 0 <= i < |ss| ==> ss[i].name != name
    ensures Without(ss, name) == ss
    decreases |ss|
  {
    if ss != [] {
      var n := |ss| - 1;
      WithoutAbsent(ss[..n], name);
      assert ss == ss[..n] + [ss[n]];
    }
  }

  lemma {:induction false} WithoutOne(ss: seq<Scenario>, i: nat)
    requires i < |ss| && DistinctNames(ss)
    ensures Without(ss, ss[i].name) == ss[..i] + ss[i + 1..]
    decreases |ss|
  {
    var n := |ss| - 1;
    if i == n {
      WithoutAbsent(ss[..n], ss[n].name);
    } else {
      assert ss[..n][i] == ss[i];
      WithoutOne(ss[..n], i);
      assert ss[..i] + ss[i + 1..] == (ss[..n][..i] + ss[..n][i + 1..]) + [ss[n]];
    }
  }

  lemma WithoutDistinct(ss: seq<Scenario>, name: string)
    requires DistinctNames(ss)
    ensures DistinctNames(Without(ss, name))
    ensures name in Names(ss) ==> |Without(ss, name)| == |ss| - 1
    ensures name !in Names(ss) ==> Without(ss, name) == ss
  {
    if name in Names(ss) {
      var i :| 0 <= i < |ss| && Names(ss)[i] == name;
      WithoutOne(ss, i);
    } else {
      assert forall i :: 0 <= i < |ss| ==> Names(ss)[i] == ss[i].name;
      WithoutAbsent(ss, name);
    }
  }

  lemma NameOf(ss: seq<Scenario>, name: string)
    ensures name in Names(ss) <==> exists s :: s in ss && s.name == name
  {
  }

  lemma NamesWithout(ss: seq<Scenario>, name: string, other: string)
    ensures other in Names(Without(ss, name)) <==> other in Names(ss) && other != name
  {
    WithoutMembers(ss, name);
    NameOf(ss, other);
    NameOf(Without(ss, name), other);
  }

  lemma ClearedAreKnown(slots: map<string, seq<Option<string>>>, gone: string, ss: seq<Scenario>, left: seq<Scenario>)
    requires forall dev :: dev in slots ==> |slots[dev]| <= QUICK_SLOTS && KnownSlots(slots[dev], ss)
    requires forall n :: n in Names(ss) && n != gone ==> n in Names(left)
    ensures var c := ClearSlots(slots, Label(gone), BLANK);
            forall dev :: dev in c ==> |c[dev]| <= QUICK_SLOTS && KnownSlots(c[dev], left)
  {
  }

  lemma DeleteKeepsIntact(st: DesktopStore, name: string)
    requires Intact(st)
    ensures Intact(Delete(st, name, Label, BLANK))
    ensures |Delete(st, name, Label, BLANK).scenarios| <= |st.scenarios|
  {
    WithoutDistinct(st.scenarios, name);
    WithoutMembers(st.scenarios, name);
    forall n
      ensures n in Names(st.scenarios) && n != name ==> n in Names(Without(st.scenarios, name))
    {
      NamesWithout(st.scenarios, name, n);
    }
    ClearedAreKnown(st.slots, name, st.scenarios, Without(st.scenarios, name));
  }

  lemma SaveKeepsIntact(st: DesktopStore, e: Scenario)
    requires Intact(st)
    ensures Intact(Save(st, e, Label, BLANK))
    ensures var n := |Save(st, e, Label, BLANK).scenarios|;
            n == |st.scenarios| || (n == |st.scenarios| + 1 && n <= MAX_SCENARIOS)
  {
    var ss := st.scenarios;
    var i := Find(ss, e.name);
    if i.Some? {
      assert Names(ss[i.value := e]) == Names(ss);
    } else if |ss| >= MAX_SCENARIOS {
      var left := ss[1..] + [e];
      assert forall j :: 0 <= j < |ss| ==> Names(ss)[j] == ss[j].name;
      forall n | n in Names(ss) && n != ss[0].name
        ensures n in Names(left)
      {
        var j :| 0 <= j < |ss| && Names(ss)[j] == n;
        assert Names(left)[j - 1] == n;
      }
      ClearedAreKnown(st.slots, ss[0].name, ss, left);
    } else {
      assert Names(ss + [e]) == Names(ss) + [e.name];
    }
  }

  lemma ActKeepsIntact(st: DesktopStore, a: Action)
    requires Intact(st) && Proper(st, a)
    ensures Intact(Act(st, a))
    ensures |Act(st, a).scenarios| <= Max(MAX_SCENARIOS, |st.scenarios|)
  {
    hide Intact;
    match a {
      case SaveAction(e) => SaveKeepsIntact(st, e);
      case DeleteAction(n) => DeleteKeepsIntact(st, n);
      case SlotsAction(dev, list) => SlotsKeepIntact(st, dev, list);
      case RenameAction(o, n) =>
        var i := Find(st.scenarios, o);
        if i.Some? && n != "" && n != o {
          DeleteKeepsIntact(st, o);
          SaveKeepsIntact(Delete(st, o, Label, BLANK), st.scenarios[i.value].(name := n));
        }
    }
  }

  lemma SlotsKeepIntact(st: DesktopStore, dev: string, list: seq<Option<string>>)
    requires Intact(st) && KnownSlots(list, st.scenarios)
    ensures Intact(SetSlots(st, dev, list))
  {
  }

  ghost predicate AllProper(st: DesktopStore, acts: seq<Action>)
    decreases |acts|
  {
    acts == [] || (Proper(st, acts[0]) && AllProper(Act(st, acts[0]), acts[1..]))
  }

  function ActAll(st: DesktopStore, acts: seq<Action>): DesktopStore
    decreases |acts|
  {
    if acts == [] then st else ActAll(Act(st, acts[0]), acts[1..])
  }

  lemma {:induction false} RunKeepsIntact(st: DesktopStore, acts: seq<Action>)
    requires Intact(st) && AllProper(st, acts)
    ensures Intact(ActAll(st, acts))
    ensures |ActAll(st, acts).scenarios| <= Max(MAX_SCENARIOS, |st.scenarios|)
    decreases |acts|
  {
    if acts != [] {
      ActKeepsIntact(st, acts[0]);
      RunKeepsIntact(Act(st, acts[0]), acts[1..]);
    }
  }

  /**
   * Every run from the empty store keeps names distinct, at most ten scenarios, and slot lists that read
   * as three slots and never name a missing scenario.
   */
  lemma StoreIntegrity(acts: seq<Action>, dev: string)
    requires AllProper(Store([], map[]), acts)
    ensures var st := ActAll(Store([], map[]), acts);
            && DistinctNames(st.scenarios) && |st.scenarios| <= MAX_SCENARIOS
            && var slots := SlotsOf(st, dev, BLANK);
               |slots| == QUICK_SLOTS && KnownSlots(slots, st.scenarios)
  {
    RunKeepsIntact(Store([], map[]), acts);
  }

  // ---------------------------------------------------------------------------
  // Creation order
  // ---------------------------------------------------------------------------

  /** `a` was created before `b`. */
  ghost predicate Before(ss: seq<Scenario>, a: string, b: string) {
    exists i, j :: 0 <= i < j < |ss| && ss[i].name == a && ss[j].name == b
  }

  lemma BeforeAt(ss: seq<Scenario>, i: nat, j: nat)
    requires i < j < |ss|
    ensures Before(ss, ss[i].name, ss[j].name)
  {
  }

  lemma WithoutSnoc(ss: seq<Scenario>, last: Scenario, name: string)
    ensures Without(ss + [last], name) == Without(ss, name) + (if last.name != name then [last] else [])
  {
    assert (ss + [last])[..|ss|] == ss;
  }

  lemma BeforeExtends(ss: seq<Scenario>, more: seq<Scenario>, a: string, b: string)
    requires Before(ss, a, b)
    ensures Before(ss + more, a, b)
  {
    var i, j :| 0 <= i < j < |ss| && ss[i].name == a && ss[j].name == b;
    BeforeAt(ss + more, i, j);
  }

  /** A scenario of the list comes before one appended to it. */
  lemma BeforeLast(ss: seq<Scenario>, s: Scenario, last: Scenario)
    requires s in ss
    ensures Before(ss + [last], s.name, last.name)
  {
    var i :| 0 <= i < |ss| && ss[i] == s;
    BeforeAt(ss + [last], i, |ss|);
  }

  lemma {:induction false} WithoutOrder(ss: seq<Scenario>, name: string, a: string, b: string)
    requires Before(ss, a, b) && a != name && b != name
    ensures Before(Without(ss, name), a, b)
    decreases |ss|
  {
    var i, j :| 0 <= i < j < |ss| && ss[i].name == a && ss[j].name == b;
    var n := |ss| - 1;
    var front, last := ss[..n], ss[n];
    assert ss == front + [last] && front[i] == ss[i];
    WithoutSnoc(front, last, name);
    hide Without, Before;
    if j < n {
      BeforeAt(front, i, j);
      WithoutOrder(front, name, a, b);
      BeforeExtends(Without(front, name), if last.name != name then [last] else [], a, b);
    } else {
      WithoutMembers(front, name);
      BeforeLast(Without(front, name), front[i], last);
    }
  }

  lemma SaveOrder(st: DesktopStore, e: Scenario, a: string, b: string)
    requires DistinctNames(st.scenarios) && Before(st.scenarios, a, b)
    requires a in Names(Save(st, e, Label, BLANK).scenarios)
    ensures Before(Save(st, e, Label, BLANK).scenarios, a, b)
  {
    var ss, tt := st.scenarios, Save(st, e, Label, BLANK).scenarios;
    var i, j :| 0 <= i < j < |ss| && ss[i].name == a && ss[j].name == b;
    if Find(ss, e.name).Some? || |ss| < MAX_SCENARIOS {
      assert tt[i].name == a && tt[j].name == b;
    } else {
      if i == 0 {
        EvictedIsGone(ss, e);
        assert false;
      }
      assert tt[i - 1].name == a && tt[j - 1].name == b;
    }
  }

  lemma EvictedIsGone(ss: seq<Scenario>, e: Scenario)
    requires DistinctNames(ss) && ss != [] && e.name !in Names(ss)
    ensures ss[0].name !in Names(ss[1..] + [e])
  {
  }

  /** No action reorders two scenarios that exist before and after it. */
  lemma ActKeepsOrder(st: DesktopStore, act: Action, a: string, b: string)
    requires Intact(st) && Before(st.scenarios, a, b)
    requires a in Names(Act(st, act).scenarios) && b in Names(Act(st, act).scenarios)
    ensures Before(Act(st, act).scenarios, a, b)
  {
    hide Before, ClearSlots;
    match act {
      case SaveAction(e) => SaveOrder(st, e, a, b);
      case DeleteAction(n) =>
        NamesWithout(st.scenarios, n, a);
        NamesWithout(st.scenarios, n, b);
        WithoutOrder(st.scenarios, n, a, b);
      case SlotsAction(dev, list) =>
      case RenameAction(o, n) => RenameOrder(st, o, n, a, b);
    }
  }

  lemma RenameOrder(st: DesktopStore, o: string, n: string, a: string, b: string)
    requires Intact(st) && Before(st.scenarios, a, b)
    requires a in Names(Act(st, RenameAction(o, n)).scenarios) && b in Names(Act(st, RenameAction(o, n)).scenarios)
    ensures Before(Act(st, RenameAction(o, n)).scenarios, a, b)
  {
    hide Before, ClearSlots, Save;
    var i := Find(st.scenarios, o);
    if i.Some? && n != "" && n != o {
      var mid, e := Delete(st, o, Label, BLANK), st.scenarios[i.value].(name := n);
      SavedNames(mid, e, a);
      SavedNames(mid, e, b);
      NamesWithout(st.scenarios, o, a);
      NamesWithout(st.scenarios, o, b);
      WithoutOrder(st.scenarios, o, a, b);
      DeleteKeepsIntact(st, o);
      SaveOrder(mid, e, a, b);
    }
  }

  lemma SavedNames(st: DesktopStore, e: Scenario, a: string)
    ensures a in Names(Save(st, e, Label, BLANK).scenarios) ==> a in Names(st.scenarios) || a == e.name
  {
  }

  /** The name exists after every action of a run. */
  ghost predicate Survives(st: DesktopStore, acts: seq<Action>, a: string)
    decreases |acts|
  {
    a in Names(st.scenarios) && (acts == [] || Survives(Act(st, acts[0]), acts[1..], a))
  }

  /** Scenarios that survive a run keep their creation order. */
  lemma {:induction false} SurvivorsKeepOrder(st: DesktopStore, acts: seq<Action>, a: string, b: string)
    requires Intact(st) && AllProper(st, acts)
    requires Survives(st, acts, a) && Survives(st, acts, b) && Before(st.scenarios, a, b)
    ensures Before(ActAll(st, acts).scenarios, a, b)
    decreases |acts|
  {
    if acts != [] {
      hide Before, Act;
      ActKeepsIntact(st, acts[0]);
      ActKeepsOrder(st, acts[0], a, b);
      SurvivorsKeepOrder(Act(st, acts[0]), acts[1..], a, b);
    }
  }

  // ---------------------------------------------------------------------------
  // Renaming
  // ---------------------------------------------------------------------------

  /**
   * A rename to a new name keeps every other scenario exactly while the store holds at most ten; in a
   * longer list, which only a migration leaves behind, it evicts the oldest other scenario.
   */
  lemma RenameEvictsExactly(st: DesktopStore, o: string, n: string)
    requires Intact(st) && o in Names(st.scenarios) && n != "" && n !in Names(st.scenarios)
    ensures (forall s :: s in st.scenarios && s.name != o ==> s in Rename(st, o, n, Label, BLANK).scenarios)
       <==> |st.scenarios| <= MAX_SCENARIOS
  {
    var ss := st.scenarios;
    var i := Find(ss, o).value;
    var mid, e := Without(ss, o), ss[i].(name := n);
    WithoutDistinct(ss, o);
    WithoutMembers(ss, o);
    NamesWithout(ss, o, n);
    var after := Rename(st, o, n, Label, BLANK).scenarios;
    assert Find(mid, n).None?;
    if |ss| <= MAX_SCENARIOS {
      assert after == mid + [e];
    } else {
      assert after == mid[1..] + [e];
      EvictedIsGone(mid, e);
      NameOf(after, mid[0].name);
      assert mid[0] in mid;
      assert mid[0] in ss && mid[0].name != o && mid[0] !in after;
    }
  }

  /** A rename onto another scenario's name replaces that scenario and evicts none, at any size. */
  lemma RenameOntoReplaces(st: DesktopStore, o: string, n: string)
    requires Intact(st) && o in Names(st.scenarios) && n != "" && n != o && n in Names(st.scenarios)
    ensures var after := Rename(st, o, n, Label, BLANK).scenarios;
            && |after| == |st.scenarios| - 1
            && (forall s :: s in st.scenarios && s.name != o && s.name != n ==> s in after)
            && st.scenarios[Find(st.scenarios, o).value].(name := n) in after
  {
    var ss := st.scenarios;
    var mid, e := Without(ss, o), ss[Find(ss, o).value].(name := n);
    WithoutDistinct(ss, o);
    WithoutMembers(ss, o);
    NamesWithout(ss, o, n);
    var k := Find(mid, n).value;
    var after := mid[k := e];
    forall s | s in ss && s.name != o && s.name != n
      ensures s in after
    {
      var j :| 0 <= j < |mid| && mid[j] == s;
      assert after[j] == s;
    }
    assert after[k] == e;
  }

  /** A renamed scenario loses its quick slots: they are emptied, not carried over. */
  lemma RenameEmptiesSlots(st: DesktopStore, o: string, n: string, dev: string)
    requires Intact(st) && o in Names(st.scenarios) && n != "" && n != o
    ensures Some(o) !in SlotsOf(Rename(st, o, n, Label, BLANK), dev, BLANK)
  {
  }

  // ---------------------------------------------------------------------------
  // The two stores agree
  // ---------------------------------------------------------------------------

  function SlotOf(s: string): Option<string> { if s == "" then None else Some(s) }

  function ListOf(list: seq<string>): (r: seq<Option<string>>)
    ensures |r| == |list| && forall i :: 0 <= i < |list| ==> r[i] == SlotOf(list[i])
  {
    seq(|list|, i requires 0 <= i < |list| => SlotOf(list[i]))
  }

  /** The desktop store a mobile store stands for. */
  function Abstract(st: NativeStore): DesktopStore {
    Store(st.scenarios, map dev | dev in st.slots :: ListOf(st.slots[dev]))
  }

  lemma ClearCommutes(slots: map<string, seq<string>>, gone: string)
    requires gone != ""
    ensures Abstract(Store([], ClearSlots(slots, gone, NATIVE_BLANK))).slots
         == ClearSlots(Abstract(Store([], slots)).slots, Label(gone), BLANK)
  {
    var a := Abstract(Store([], ClearSlots(slots, gone, NATIVE_BLANK))).slots;
    var b := ClearSlots(Abstract(Store([], slots)).slots, Label(gone), BLANK);
    forall dev | dev in slots
      ensures a[dev] == b[dev]
    {
      var l := slots[dev];
      assert forall i :: 0 <= i < |l| ==> a[dev][i] == b[dev][i];
    }
    assert a.Keys == b.Keys;
  }

  lemma SlotListsAgree(st: NativeStore, dev: string, list: seq<string>)
    ensures Abstract(SetSlots(st, dev, list)) == SetSlots(Abstract(st), dev, ListOf(list))
    ensures ListOf(SlotsOf(st, dev, NATIVE_BLANK)) == SlotsOf(Abstract(st), dev, BLANK)
  {
    assert ListOf(Truncated(list)) == Truncated(ListOf(list));
    assert ListOf(SlotsOf(st, dev, NATIVE_BLANK)) == SlotsOf(Abstract(st), dev, BLANK);
    assert Abstract(SetSlots(st, dev, list)).slots == SetSlots(Abstract(st), dev, ListOf(list)).slots;
  }

  /**
   * As long as scenarios have names, the mobile store does what the desktop store does, with empty strings
   * for empty slots.
   */
  lemma StoresAgree(st: NativeStore, e: Scenario, name: string, dev: string, list: seq<string>)
    requires e.name != "" && name != "" && "" !in Names(st.scenarios)
    ensures Abstract(Save(st, e, NativeLabel, NATIVE_BLANK)) == Save(Abstract(st), e, Label, BLANK)
    ensures Abstract(Delete(st, name, NativeLabel, NATIVE_BLANK)) == Delete(Abstract(st), name, Label, BLANK)
    ensures Abstract(SetSlots(st, dev, list)) == SetSlots(Abstract(st), dev, ListOf(list))
    ensures ListOf(SlotsOf(st, dev, NATIVE_BLANK)) == SlotsOf(Abstract(st), dev, BLANK)
  {
    SlotListsAgree(st, dev, list);
    hide SetSlots, SlotsOf, ListOf, ClearSlots, Without;
    ClearCommutes(st.slots, name);
    if st.scenarios != [] {
      assert Names(st.scenarios)[0] == st.scenarios[0].name;
      ClearCommutes(st.slots, st.scenarios[0].name);
    }
  }

  // ---------------------------------------------------------------------------
  // The mobile application's rename
  // ---------------------------------------------------------------------------

  /** The mobile application renames any listed scenario to anything, its own name and the empty name included. */
  function NativeRename(st: NativeStore, old_: string, new_: string): NativeStore {
    var i := Find(st.scenarios, old_);
    if i.None? || old_ == "" then st
    else
      Save(Delete(st, old_, NativeLabel, NATIVE_BLANK), st.scenarios[i.value].(name := new_), NativeLabel, NATIVE_BLANK)
  }

  ghost predicate InSomeSlot(st: NativeStore, name: string) {
    exists dev :: dev in st.slots && name in st.slots[dev]
  }

  /** Renaming to the same name finds the scenario last, in no slot, and in a list within the cap. */
  ghost predicate Settled(st: NativeStore, name: string) {
    && 0 < |st.scenarios| <= MAX_SCENARIOS
    && st.scenarios[|st.scenarios| - 1].name == name
    && !InSomeSlot(st, name)
  }

  lemma RenamesAgree(st: NativeStore, o: string, n: string)
    requires "" !in Names(st.scenarios) && o in Names(st.scenarios) && n != "" && n != o
    ensures Abstract(NativeRename(st, o, n)) == Rename(Abstract(st), o, n, Label, BLANK)
  {
    var mid := Delete(st, o, NativeLabel, NATIVE_BLANK);
    var e := st.scenarios[Find(st.scenarios, o).value].(name := n);
    NamesWithout(st.scenarios, o, "");
    hide Save, ClearSlots, Without, Names;
    StoresAgree(st, e, o, "", []);
    StoresAgree(mid, e, o, "", []);
  }

  lemma ClearedSame(st: NativeStore, name: string)
    requires name != ""
    ensures Abstract(Delete(st, name, NativeLabel, NATIVE_BLANK)).slots == Abstract(st).slots <==> !InSomeSlot(st, name)
  {
    var a, b := Abstract(Delete(st, name, NativeLabel, NATIVE_BLANK)).slots, Abstract(st).slots;
    if dev, i :| dev in st.slots && 0 <= i < |st.slots[dev]| && st.slots[dev][i] == name {
      assert a[dev][i] == None && b[dev][i] == Some(name);
      assert name in st.slots[dev];
    } else {
      forall dev | dev in st.slots
        ensures a[dev] == b[dev]
      {
        assert ClearList(st.slots[dev], name, "") == st.slots[dev];
      }
    }
  }

  lemma RenameToSame(st: NativeStore, o: string)
    requires "" !in Names(st.scenarios) && DistinctNames(st.scenarios) && o in Names(st.scenarios)
    ensures Abstract(NativeRename(st, o, o)) == Abstract(st) <==> Settled(st, o)
  {
    var ss, i := st.scenarios, Find(st.scenarios, o).value;
    var mid := Delete(st, o, NativeLabel, NATIVE_BLANK);
    WithoutOne(ss, i);
    NamesWithout(ss, o, o);
    ClearedSame(st, o);
    var after := NativeRename(st, o, o);
    assert Find(mid.scenarios, o).None?;
    hide ClearSlots, Without, Names, InSomeSlot;
    if |ss| <= MAX_SCENARIOS {
      assert after == Store(mid.scenarios + [ss[i]], mid.slots);
      if i < |ss| - 1 {
        assert after.scenarios[i] == ss[i + 1];
      } else {
        assert after.scenarios == ss;
      }
    } else {
      assert |after.scenarios| == |ss| - 1;
    }
  }

  lemma RenameToNothing(st: NativeStore, o: string)
    requires "" !in Names(st.scenarios) && o in Names(st.scenarios)
    ensures Abstract(NativeRename(st, o, "")) != Abstract(st)
  {
    var mid := Delete(st, o, NativeLabel, NATIVE_BLANK);
    NamesWithout(st.scenarios, o, "");
    var after := NativeRename(st, o, "").scenarios;
    assert Names(after)[|after| - 1] == "";
  }

  /**
   * Both applications rename alike exactly when the old name is absent, or the new name is a different,
   * non-empty one, or it is the old name of the last scenario of a list within the cap, in no slot.
   * Otherwise the dashboard changes nothing while the mobile application moves the scenario to the end,
   * empties its slots, or leaves it without a name.
   */
  lemma RenamesAgreeExactly(st: NativeStore, o: string, n: string)
    requires "" !in Names(st.scenarios) && DistinctNames(st.scenarios)
    ensures Abstract(NativeRename(st, o, n)) == Rename(Abstract(st), o, n, Label, BLANK)
       <==> (o !in Names(st.scenarios) || (n != "" && n != o) || (n == o && Settled(st, o)))
  {
    hide Save, Delete, InSomeSlot;
    if o in Names(st.scenarios) {
      if n == o {
        RenameToSame(st, o);
      } else if n == "" {
        RenameToNothing(st, o);
      } else {
        RenamesAgree(st, o, n);
      }
    }
  }
}
