/** Migration of version 1 scenario files, which kept scenarios per device, to the global list. */
module Migration {
  import opened Basics
  import opened ScenarioData
  import opened StoreSpec

  datatype OldScenario = OldScenario(name: string, settings: Settings)

  datatype OldDevice = OldDevice(id: string, scenarios: seq<OldScenario>, slots: seq<Option<string>>)

  /** One old scenario together with the device it belonged to. */
  datatype Pair = Pair(id: string, name: string, settings: Settings)

  /** All device/scenario pairs of a file, in order. */
  function PairsOf(id: string, ss: seq<OldScenario>): seq<Pair> {
    if ss == [] then []
    else
      var n := |ss| - 1;
      PairsOf(id, ss[..n]) + [Pair(id, ss[n].name, ss[n].settings)]
  }

  function Flatten(devs: seq<OldDevice>): seq<Pair> {
    if devs == [] then []
    else
      var n := |devs| - 1;
      Flatten(devs[..n]) + PairsOf(devs[n].id, devs[n].scenarios)
  }

  /** The last four characters, or all of a shorter string. */
  function LastFour(id: string): string { if |id| <= 4 then id else id[|id| - 4..] }

  function Suffix(id: string): string { " (" + LastFour(id) + ")" }

  /** The name a pair gets beside those already taken. */
  function FreshName(taken: seq<Scenario>, p: Pair): string {
    if p.name in Names(taken) then p.name + Suffix(p.id) else p.name
  }

  function Migrated(ps: seq<Pair>): (out: seq<Scenario>)
    ensures |out| == |ps|
  {
    if ps == [] then []
    else
      var n := |ps| - 1;
      var done := Migrated(ps[..n]);
      done + [Scenario(FreshName(done, ps[n]), [FanSettings(ps[n].id, ps[n].settings)])]
  }

  function OldSlots(devs: seq<OldDevice>): map<string, seq<Option<string>>> {
    if devs == [] then map[]
    else OldSlots(devs[..|devs| - 1])[devs[|devs| - 1].id := devs[|devs| - 1].slots]
  }

  lemma NameTaken(ss: seq<Scenario>, name: string)
    ensures name in Names(ss) <==> exists i :: 0 <= i < |ss| && ss[i].name == name
  {
  }

  /** The scenarios of one device, appended under names free so far. */
  method MigrateDevice(dev: OldDevice, before: seq<Scenario>, ghost done: seq<Pair>) returns (scenarios: seq<Scenario>)
    requires before == Migrated(done)
    ensures scenarios == Migrated(done + PairsOf(dev.id, dev.scenarios))
  {
    scenarios := before;
    assert done + PairsOf(dev.id, dev.scenarios[..0]) == done;
    for k := 0 to |dev.scenarios|
      invariant scenarios == Migrated(done + PairsOf(dev.id, dev.scenarios[..k]))
    {
      var s := dev.scenarios[k];
      var name := s.name;
      NameTaken(scenarios, name);
      MigrateStep(done, dev.id, dev.scenarios, k);
      hide Names, Suffix, Migrated, PairsOf;
      if exists i :: 0 <= i < |scenarios| && scenarios[i].name == name {
        name := name + Suffix(dev.id);
      }
      scenarios := scenarios + [Scenario(name, [FanSettings(dev.id, s.settings)])];
    }
    assert dev.scenarios[..|dev.scenarios|] == dev.scenarios;
  }

  lemma MigrateStep(done: seq<Pair>, id: string, ss: seq<OldScenario>, k: nat)
    requires k < |ss|
    ensures var now, p := Migrated(done + PairsOf(id, ss[..k])), Pair(id, ss[k].name, ss[k].settings);
            Migrated(done + PairsOf(id, ss[..k + 1]))
            == now + [Scenario(FreshName(now, p), [FanSettings(id, p.settings)])]
  {
    var now, p := done + PairsOf(id, ss[..k]), Pair(id, ss[k].name, ss[k].settings);
    MigrateOne(now, p);
    assert ss[..k + 1][..k] == ss[..k];
    assert done + PairsOf(id, ss[..k + 1]) == now + [p];
  }

  method MigrateV1(devs: seq<OldDevice>) returns (r: DesktopStore)
    ensures r == Store(Migrated(Flatten(devs)), OldSlots(devs))
  {
    var scenarios: seq<Scenario> := [];
    var slots: map<string, seq<Option<string>>> := map[];
    for d := 0 to |devs|
      invariant scenarios == Migrated(Flatten(devs[..d])) && slots == OldSlots(devs[..d])
    {
      assert devs[..d + 1][..d] == devs[..d];
      hide Migrated, PairsOf;
      scenarios := MigrateDevice(devs[d], scenarios, Flatten(devs[..d]));
      slots := slots[devs[d].id := devs[d].slots];
    }
    assert devs[..|devs|] == devs;
    return Store(scenarios, slots);
  }

  lemma MigrateOne(done: seq<Pair>, p: Pair)
    ensures Migrated(done + [p])
         == Migrated(done) + [Scenario(FreshName(Migrated(done), p), [FanSettings(p.id, p.settings)])]
  {
  }

  // ---------------------------------------------------------------------------
  // Conservation
  // ---------------------------------------------------------------------------

  /** One scenario per pair, in order, with device and settings unchanged and the name kept or suffixed. */
  lemma {:induction false} MigrationConserves(ps: seq<Pair>)
    ensures var out := Migrated(ps);
            && |out| == |ps|
            && forall i :: 0 <= i < |ps| ==>
                 && out[i].fans == [FanSettings(ps[i].id, ps[i].settings)]
                 && (out[i].name == ps[i].name || out[i].name == ps[i].name + Suffix(ps[i].id))
    decreases |ps|
  {
    if ps != [] {
      MigrationConserves(ps[..|ps| - 1]);
    }
  }

  /** The name of every pair is the name of some scenario of the result. */
  lemma {:induction false} NamesSurvive(ps: seq<Pair>, i: nat)
    requires i < |ps|
    ensures ps[i].name in Names(Migrated(ps))
    decreases |ps|
  {
    var n := |ps| - 1;
    var done := Migrated(ps[..n]);
    var out := Migrated(ps);
    assert Names(out) == Names(done) + [out[|done|].name];
    if i < n {
      NamesSurvive(ps[..n], i);
    }
  }

  lemma {:induction false} PairsOfAt(id: string, ss: seq<OldScenario>)
    ensures var ps := PairsOf(id, ss);
            |ps| == |ss| && forall k :: 0 <= k < |ss| ==> ps[k] == Pair(id, ss[k].name, ss[k].settings)
    decreases |ss|
  {
    if ss != [] {
      PairsOfAt(id, ss[..|ss| - 1]);
    }
  }

  lemma {:induction false} FlattenHas(devs: seq<OldDevice>, d: nat, k: nat)
    requires d < |devs| && k < |devs[d].scenarios|
    ensures Pair(devs[d].id, devs[d].scenarios[k].name, devs[d].scenarios[k].settings) in Flatten(devs)
    decreases |devs|
  {
    var n := |devs| - 1;
    if d < n {
      assert devs[..n][d] == devs[d];
      FlattenHas(devs[..n], d, k);
    } else {
      PairsOfAt(devs[n].id, devs[n].scenarios);
      var ps := PairsOf(devs[n].id, devs[n].scenarios);
      assert Flatten(devs)[|Flatten(devs[..n])| + k] == ps[k];
    }
  }

  /** How many scenarios the devices list together. */
  function Count(devs: seq<OldDevice>): nat {
    if devs == [] then 0 else |devs[0].scenarios| + Count(devs[1..])
  }

  lemma {:induction false} CountSnoc(devs: seq<OldDevice>, d: OldDevice)
    ensures Count(devs + [d]) == Count(devs) + |d.scenarios|
    decreases |devs|
  {
    if devs == [] {
      assert [d][1..] == [];
    } else {
      assert (devs + [d])[1..] == devs[1..] + [d];
      CountSnoc(devs[1..], d);
    }
  }

  /** Devices and their scenarios are migrated in the order of the file, none twice. */
  lemma {:induction false} FlattenedInOrder(devs: seq<OldDevice>, d: nat, k: nat)
    requires d < |devs| && k < |devs[d].scenarios|
    ensures |Flatten(devs)| == Count(devs) && Count(devs[..d]) + k < Count(devs)
    ensures var s := devs[d].scenarios[k];
            Flatten(devs)[Count(devs[..d]) + k] == Pair(devs[d].id, s.name, s.settings)
    decreases |devs|
  {
    var n := |devs| - 1;
    FlattenedSize(devs[..n]);
    PairsOfAt(devs[n].id, devs[n].scenarios);
    assert devs == devs[..n] + [devs[n]];
    CountSnoc(devs[..n], devs[n]);
    if d < n {
      assert devs[..n][d] == devs[d] && devs[..n][..d] == devs[..d];
      FlattenedInOrder(devs[..n], d, k);
    }
  }

  lemma {:induction false} FlattenedSize(devs: seq<OldDevice>)
    ensures |Flatten(devs)| == Count(devs)
    decreases |devs|
  {
    if devs != [] {
      var n := |devs| - 1;
      FlattenedSize(devs[..n]);
      PairsOfAt(devs[n].id, devs[n].scenarios);
      assert devs == devs[..n] + [devs[n]];
      CountSnoc(devs[..n], devs[n]);
    }
  }

  /** No device id occurs twice, as in the keys of a stored object. */
  ghost predicate IdsDiffer(devs: seq<OldDevice>) {
    forall d, e :: 0 <= d < e < |devs| ==> devs[d].id != devs[e].id
  }

  lemma {:induction false} SlotsAreKept(devs: seq<OldDevice>, d: nat)
    requires d < |devs| && IdsDiffer(devs)
    ensures devs[d].id in OldSlots(devs) && OldSlots(devs)[devs[d].id] == devs[d].slots
    decreases |devs|
  {
    var n := |devs| - 1;
    if d < n {
      assert devs[..n][d] == devs[d] && devs[d].id != devs[n].id;
      SlotsAreKept(devs[..n], d);
    }
  }

  /**
   * The migrated store keeps every device's slots, and every slot in it that named one of its own device's
   * scenarios still names a scenario.
   */
  lemma SlotsStillResolve(devs: seq<OldDevice>, d: nat, k: nat, slot: nat)
    requires d < |devs| && IdsDiffer(devs) && k < |devs[d].scenarios| && slot < |devs[d].slots|
    requires devs[d].slots[slot] == Some(devs[d].scenarios[k].name)
    ensures var st: DesktopStore := Store(Migrated(Flatten(devs)), OldSlots(devs));
            && devs[d].id in st.slots && st.slots[devs[d].id] == devs[d].slots
            && st.slots[devs[d].id][slot].value in Names(st.scenarios)
  {
    SlotsAreKept(devs, d);
    FlattenHas(devs, d, k);
    var ps := Flatten(devs);
    var i :| 0 <= i < |ps| && ps[i] == Pair(devs[d].id, devs[d].scenarios[k].name, devs[d].scenarios[k].settings);
    NamesSurvive(ps, i);
  }

  // ---------------------------------------------------------------------------
  // Distinct names
  // ---------------------------------------------------------------------------

  predicate EndsWith(s: string, suffix: string) { |s| >= |suffix| && s[|s| - |suffix|..] == suffix }

  /** No device lists a name twice, and no device id occurs twice. */
  ghost predicate NamesDistinctPerDevice(devs: seq<OldDevice>) {
    && (forall d, k, l :: 0 <= d < |devs| && 0 <= k < l < |devs[d].scenarios| ==>
          devs[d].scenarios[k].name != devs[d].scenarios[l].name)
    && IdsDiffer(devs)
  }

  ghost predicate DistinctPairs(ps: seq<Pair>) {
    forall i, j :: 0 <= i < j < |ps| ==> ps[i].id != ps[j].id || ps[i].name != ps[j].name
  }

  /** Ids have at least four characters, and no old name already ends in the suffix of one of them. */
  ghost predicate SuffixesAreFree(ps: seq<Pair>) {
    && (forall i, j :: 0 <= i < |ps| && 0 <= j < |ps| ==> !EndsWith(ps[i].name, Suffix(ps[j].id)))
    && (forall i :: 0 <= i < |ps| ==> |ps[i].id| >= 4)
  }

  ghost predicate LastFoursDiffer(devs: seq<OldDevice>) {
    forall d, e :: 0 <= d < e < |devs| ==> LastFour(devs[d].id) != LastFour(devs[e].id)
  }

  /** The name of pair `k` occurs again at `j` and at `i`, under ids that end alike. */
  ghost predicate Triple(ps: seq<Pair>, k: nat, j: nat, i: nat) {
    && k < j < i < |ps| && ps[k].name == ps[j].name == ps[i].name
    && LastFour(ps[j].id) == LastFour(ps[i].id)
  }

  ghost predicate TripleFree(ps: seq<Pair>) { forall k: nat, j: nat, i: nat :: !Triple(ps, k, j, i) }

  lemma SuffixEnds(name: string, id: string)
    ensures EndsWith(name + Suffix(id), Suffix(id))
  {
  }

  /** Two suffixed names are equal only for equal names under suffixes of equal length. */
  lemma SuffixedApart(a: string, i: string, b: string, j: string)
    requires |i| >= 4 && |j| >= 4 && a + Suffix(i) == b + Suffix(j)
    ensures LastFour(i) == LastFour(j) && a == b
  {
    var s, t := a + Suffix(i), b + Suffix(j);
    assert |Suffix(i)| == |Suffix(j)| == 7;
    assert s[|a|..] == Suffix(i) && t[|b|..] == Suffix(j);
    assert Suffix(i)[2..6] == LastFour(i) && Suffix(j)[2..6] == LastFour(j);
    assert s[..|a|] == a && t[..|b|] == b;
  }

  lemma {:induction false} MigratedAt(ps: seq<Pair>, i: nat)
    requires i < |ps|
    ensures Migrated(ps)[..i] == Migrated(ps[..i])
    ensures Migrated(ps)[i].name == FreshName(Migrated(ps[..i]), ps[i])
    decreases |ps|
  {
    var n := |ps| - 1;
    if i < n {
      assert ps[..n][..i] == ps[..i];
      MigratedAt(ps[..n], i);
    }
  }

  lemma KeptOrSuffixed(ps: seq<Pair>, k: nat)
    requires k < |ps|
    ensures Migrated(ps)[k].name == ps[k].name || EndsWith(Migrated(ps)[k].name, Suffix(ps[k].id))
  {
    MigrationConserves(ps);
    SuffixEnds(ps[k].name, ps[k].id);
    hide Migrated, Suffix, EndsWith;
  }

  /** `s` is the name `name` with the last four characters of the id, or the whole of a shorter one, in brackets. */
  ghost predicate Bracketed(s: string, name: string, id: string) {
    s == name + " (" + id[if |id| < 4 then 0 else |id| - 4..] + ")"
  }

  /** A migrated scenario keeps its old name exactly when no earlier one has it, and is bracketed otherwise. */
  lemma MigratedNameIs(ps: seq<Pair>, i: nat)
    requires i < |ps|
    ensures var out := Migrated(ps);
            if exists j :: 0 <= j < i && out[j].name == ps[i].name then Bracketed(out[i].name, ps[i].name, ps[i].id)
            else out[i].name == ps[i].name
  {
    var out, p := Migrated(ps), ps[i];
    SuffixIsBracketed(p.name, p.id);
    hide Migrated, Names, Suffix, Bracketed;
    MigratedAt(ps, i);
    NameTaken(out[..i], p.name);
    assert forall j :: 0 <= j < i ==> out[..i][j] == out[j];
  }

  lemma SuffixIsBracketed(name: string, id: string)
    ensures Bracketed(name + Suffix(id), name, id)
  {
    assert LastFour(id) == id[if |id| < 4 then 0 else |id| - 4..];
    assert name + Suffix(id) == name + " (" + LastFour(id) + ")";
  }

  /** A suffixed name is taken only by an earlier repetition under an id that ends alike. */
  lemma SuffixedTwice(ps: seq<Pair>, j: nat) returns (k: nat)
    requires SuffixesAreFree(ps) && j < |ps| - 1
    requires Migrated(ps)[j].name == ps[|ps| - 1].name + Suffix(ps[|ps| - 1].id)
    ensures Triple(ps, k, j, |ps| - 1)
  {
    var n := |ps| - 1;
    var before := Migrated(ps[..j]);
    MigratedAt(ps, j);
    SuffixEnds(ps[n].name, ps[n].id);
    hide Suffix, LastFour, EndsWith, Migrated;
    SuffixedApart(ps[j].name, ps[j].id, ps[n].name, ps[n].id);
    NameTaken(before, ps[j].name);
    hide Names;
    k :| 0 <= k < |before| && before[k].name == ps[j].name;
    KeptOrSuffixed(ps[..j], k);
  }

  lemma NewNameIsFresh(ps: seq<Pair>)
    requires ps != [] && SuffixesAreFree(ps) && TripleFree(ps)
    ensures var n := |ps| - 1; FreshName(Migrated(ps[..n]), ps[n]) !in Names(Migrated(ps[..n]))
  {
    var n := |ps| - 1;
    var done := Migrated(ps[..n]);
    var name := FreshName(done, ps[n]);
    if ps[n].name in Names(done) && name in Names(done) {
      MigratedAt(ps, n);
      var j :| 0 <= j < |done| && Names(done)[j] == name;
      assert Migrated(ps)[..n][j] == done[j];
      var k := SuffixedTwice(ps, j);
      assert false;
    }
  }

  lemma {:induction false} FreeNamesStayDistinct(ps: seq<Pair>)
    requires SuffixesAreFree(ps) && TripleFree(ps)
    ensures DistinctNames(Migrated(ps))
    decreases |ps|
  {
    if ps != [] {
      var n := |ps| - 1;
      PrefixIsFree(ps);
      FreeNamesStayDistinct(ps[..n]);
      NewNameIsFresh(ps);
      var done := Migrated(ps[..n]);
      assert forall i :: 0 <= i < |done| ==> Names(done)[i] == done[i].name;
    }
  }

  lemma PrefixIsFree(ps: seq<Pair>)
    requires ps != [] && SuffixesAreFree(ps) && TripleFree(ps)
    ensures SuffixesAreFree(ps[..|ps| - 1]) && TripleFree(ps[..|ps| - 1])
  {
    var qs := ps[..|ps| - 1];
    assert forall i :: 0 <= i < |qs| ==> qs[i] == ps[i];
    forall k: nat, j: nat, i: nat
      ensures !Triple(qs, k, j, i)
    {
      assert !Triple(ps, k, j, i);
    }
  }

  lemma RepeatIsSuffixed(ps: seq<Pair>, k: nat, j: nat)
    requires k < j < |ps| && ps[k].name == ps[j].name
    ensures j < |Migrated(ps)| && Migrated(ps)[j].name == ps[j].name + Suffix(ps[j].id)
  {
    NamesSurvive(ps[..j], k);
    MigratedAt(ps, j);
  }

  /**
   * Among names that do not already end in a suffix, the migrated names are pairwise distinct exactly when
   * no name is repeated twice under ids that end alike: the suffix is tried once and never checked.
   */
  lemma NamesDistinctExactly(ps: seq<Pair>)
    requires SuffixesAreFree(ps)
    ensures DistinctNames(Migrated(ps)) <==> TripleFree(ps)
  {
    if TripleFree(ps) {
      FreeNamesStayDistinct(ps);
    } else {
      var k, j, i :| Triple(ps, k, j, i);
      RepeatIsSuffixed(ps, k, j);
      RepeatIsSuffixed(ps, k, i);
    }
  }

  lemma {:induction false} FlattenIds(devs: seq<OldDevice>)
    ensures forall p :: p in Flatten(devs) ==> exists d :: 0 <= d < |devs| && devs[d].id == p.id
    decreases |devs|
  {
    if devs != [] {
      var n := |devs| - 1;
      FlattenIds(devs[..n]);
      PairsOfAt(devs[n].id, devs[n].scenarios);
      forall p | p in Flatten(devs)
        ensures exists d :: 0 <= d < |devs| && devs[d].id == p.id
      {
        if p in Flatten(devs[..n]) {
          var d :| 0 <= d < n && devs[..n][d].id == p.id;
          assert devs[d].id == p.id;
        } else {
          assert devs[n].id == p.id;
        }
      }
    }
  }

  lemma {:induction false} FlattenDistinct(devs: seq<OldDevice>)
    requires NamesDistinctPerDevice(devs)
    ensures DistinctPairs(Flatten(devs))
    decreases |devs|
  {
    if devs != [] {
      var n := |devs| - 1;
      var front, last := Flatten(devs[..n]), PairsOf(devs[n].id, devs[n].scenarios);
      assert forall d :: 0 <= d < n ==> devs[..n][d] == devs[d];
      FlattenDistinct(devs[..n]);
      FlattenIds(devs[..n]);
      PairsOfAt(devs[n].id, devs[n].scenarios);
      forall i | 0 <= i < |front|
        ensures front[i].id != devs[n].id
      {
        assert front[i] in front;
      }
      assert Flatten(devs) == front + last;
    }
  }

  lemma SameEnding(devs: seq<OldDevice>, j: nat, i: nat)
    requires LastFoursDiffer(devs) && j < |Flatten(devs)| && i < |Flatten(devs)|
    requires LastFour(Flatten(devs)[j].id) == LastFour(Flatten(devs)[i].id)
    ensures Flatten(devs)[j].id == Flatten(devs)[i].id
  {
    FlattenIds(devs);
    hide Flatten, LastFour;
    var ps := Flatten(devs);
    assert ps[j] in ps && ps[i] in ps;
    var d :| 0 <= d < |devs| && devs[d].id == ps[j].id;
    var e :| 0 <= e < |devs| && devs[e].id == ps[i].id;
    assert !(d < e) && !(e < d);
  }

  /** When no device repeats a name and the ids of different devices end differently, no name collides. */
  lemma MigratedNamesAreDistinct(devs: seq<OldDevice>)
    requires NamesDistinctPerDevice(devs) && LastFoursDiffer(devs) && SuffixesAreFree(Flatten(devs))
    ensures DistinctNames(Migrated(Flatten(devs)))
  {
    var ps := Flatten(devs);
    FlattenDistinct(devs);
    forall k: nat, j: nat, i: nat
      ensures !Triple(ps, k, j, i)
    {
      if Triple(ps, k, j, i) {
        SameEnding(devs, j, i);
      }
    }
    NamesDistinctExactly(ps);
  }

  /** Three devices whose ids end alike collide: the suffix is tried once and never checked. */
  lemma MigrationCanCollide(s: Settings)
    ensures var ps := [Pair("A-0001", "Night", s), Pair("B-0001", "Night", s), Pair("C-0001", "Night", s)];
            DistinctPairs(ps) && !DistinctNames(Migrated(ps))
  {
    var p, q, r := Pair("A-0001", "Night", s), Pair("B-0001", "Night", s), Pair("C-0001", "Night", s);
    FirstKeepsName(p);
    NextGetsSuffix([p], q);
    NextGetsSuffix([p, q], r);
    assert [p] + [q] == [p, q] && [p, q] + [r] == [p, q, r];
    assert "B-0001"[2..] == "0001" == "C-0001"[2..];
    var out := Migrated([p, q, r]);
    hide Migrated, Suffix;
    assert out[1].name == "Night" + Suffix("B-0001");
    assert out[2].name == "Night" + Suffix("C-0001");
  }

  lemma FirstKeepsName(p: Pair)
    ensures Names(Migrated([p])) == [p.name]
  {
  }

  lemma NextGetsSuffix(ps: seq<Pair>, q: Pair)
    requires q.name in Names(Migrated(ps))
    ensures Migrated(ps + [q]) == Migrated(ps) + [Scenario(q.name + Suffix(q.id), [FanSettings(q.id, q.settings)])]
    ensures q.name in Names(Migrated(ps + [q]))
  {
    MigrateOne(ps, q);
    hide Migrated, Suffix;
    var i :| 0 <= i < |Migrated(ps)| && Names(Migrated(ps))[i] == q.name;
    assert Names(Migrated(ps + [q]))[i] == q.name;
  }
}
