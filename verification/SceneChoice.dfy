/** Which of a scenario's settings an application applies to the fan it is connected to, and what comes of it. */
module SceneChoice {
  import opened Basics
  import opened Params
  import opened FanSpec
  import opened Commands
  import opened Polling
  import opened ScenarioData
  import opened Scenes
  import StoreSpec

  /** The settings of the first entry for that device. */
  function SettingsFor(fans: seq<FanSettings>, id: string): (r: Option<Settings>)
    ensures r.Some? <==> exists i :: 0 <= i < |fans| && fans[i].deviceId == id
  {
    if fans == [] then None
    else if fans[0].deviceId == id then Some(fans[0].settings)
    else
      var r := SettingsFor(fans[1..], id);
      assert r.Some? ==> exists i :: 0 <= i < |fans| && fans[i].deviceId == id by {
        if i :| 0 <= i < |fans[1..]| && fans[1..][i].deviceId == id {
          assert fans[i + 1].deviceId == id;
        }
      }
      assert r.None? ==> forall i :: 0 < i < |fans| ==> fans[i].deviceId == fans[1..][i - 1].deviceId != id;
      r
  }

  /** The native application: the first entry for the device under that name, and nothing without one. */
  function NativeChoice(entries: seq<Scenario>, name: string, id: string): Option<Settings> {
    if entries == [] then None
    else if entries[0].name != "" && entries[0].name == name && SettingsFor(entries[0].fans, id).Some? then
      SettingsFor(entries[0].fans, id)
    else NativeChoice(entries[1..], name, id)
  }

  datatype Choice =
    | Chosen(settings: Settings)
    | NoScenario
    | NoFans

  /** The dashboard: the first scenario of that name, its entry for the device, or else its first entry. */
  function WebChoice(entries: seq<Scenario>, name: string, id: string): Choice {
    var i := StoreSpec.Find(entries, name);
    if i.None? then NoScenario
    else
      var fans := entries[i.value].fans;
      var own := SettingsFor(fans, id);
      if own.Some? then Chosen(own.value)
      else if fans == [] then NoFans
      else Chosen(fans[0].settings)
  }

  /** The settings of a scenario's entry for the device are those of the first such entry. */
  lemma {:induction false} FirstEntryCounts(fans: seq<FanSettings>, id: string, i: nat)
    requires i < |fans| && fans[i].deviceId == id && forall k :: 0 <= k < i ==> fans[k].deviceId != id
    ensures SettingsFor(fans, id) == Some(fans[i].settings)
    decreases |fans|
  {
    if i > 0 {
      FirstEntryCounts(fans[1..], id, i - 1);
    }
  }

  /** The dashboard takes the first scenario of the name, and there the device's entry or else the first one. */
  lemma WebChoiceIs(entries: seq<Scenario>, name: string, id: string, k: nat)
    requires k < |entries| && entries[k].name == name && forall j :: 0 <= j < k ==> entries[j].name != name
    ensures var fans := entries[k].fans;
            forall i :: 0 <= i < |fans| && fans[i].deviceId == id && (forall j :: 0 <= j < i ==> fans[j].deviceId != id)
              ==> WebChoice(entries, name, id) == Chosen(fans[i].settings)
    ensures var fans := entries[k].fans;
            (forall i :: 0 <= i < |fans| ==> fans[i].deviceId != id) ==>
              WebChoice(entries, name, id) == if fans == [] then NoFans else Chosen(fans[0].settings)
  {
    var fans := entries[k].fans;
    assert StoreSpec.Find(entries, name) == Some(k) by { assert Names(entries)[k] == name; }
    forall i | 0 <= i < |fans| && fans[i].deviceId == id && forall j :: 0 <= j < i ==> fans[j].deviceId != id
      ensures SettingsFor(fans, id) == Some(fans[i].settings)
    {
      FirstEntryCounts(fans, id, i);
    }
  }

  /** The native application takes the first entry for the device in the first scenario of the name that has one. */
  lemma {:induction false} NativeChoiceIs(entries: seq<Scenario>, name: string, id: string, k: nat, i: nat)
    requires k < |entries| && i < |entries[k].fans| && name != ""
    requires entries[k].name == name && entries[k].fans[i].deviceId == id
    requires forall j :: 0 <= j < i ==> entries[k].fans[j].deviceId != id
    requires forall h :: 0 <= h < k && entries[h].name == name ==>
      forall j :: 0 <= j < |entries[h].fans| ==> entries[h].fans[j].deviceId != id
    ensures NativeChoice(entries, name, id) == Some(entries[k].fans[i].settings)
    decreases |entries|
  {
    FirstEntryCounts(entries[k].fans, id, i);
    if k > 0 {
      NativeChoiceIs(entries[1..], name, id, k - 1, i);
    }
  }

  /** Some scenario of that name, which is not empty, has an entry for the device. */
  ghost predicate Listed(entries: seq<Scenario>, name: string, id: string) {
    && name != ""
    && exists i, j :: 0 <= i < |entries| && 0 <= j < |entries[i].fans|
                      && entries[i].name == name && entries[i].fans[j].deviceId == id
  }

  lemma {:induction false} NativeChoosesListed(entries: seq<Scenario>, name: string, id: string)
    ensures NativeChoice(entries, name, id).Some? <==> Listed(entries, name, id)
    decreases |entries|
  {
    if entries != [] {
      NativeChoosesListed(entries[1..], name, id);
      assert forall i :: 0 < i < |entries| ==> entries[i] == entries[1..][i - 1];
      if entries[0].name == name {
        var own := SettingsFor(entries[0].fans, id);
        if j :| 0 <= j < |entries[0].fans| && entries[0].fans[j].deviceId == id {
          assert own.Some?;
        }
      }
    }
  }

  lemma {:induction false} NativeSkips(entries: seq<Scenario>, name: string, id: string)
    requires forall i :: 0 <= i < |entries| ==> entries[i].name != name
    ensures NativeChoice(entries, name, id) == None
    decreases |entries|
  {
    if entries != [] {
      NativeSkips(entries[1..], name, id);
    }
  }

  /** Under distinct names the native application chooses what the dashboard chooses, or nothing. */
  lemma {:induction false} ChoicesRelate(entries: seq<Scenario>, name: string, id: string)
    requires StoreSpec.DistinctNames(entries)
    ensures var native, web := NativeChoice(entries, name, id), WebChoice(entries, name, id);
            && (native.Some? ==> web == Chosen(native.value))
            && (native.Some? <==> Listed(entries, name, id))
            && (!web.Chosen? ==> native.None?)
    decreases |entries|
  {
    NativeChoosesListed(entries, name, id);
    if entries != [] {
      if entries[0].name == name {
        NativeSkips(entries[1..], name, id);
      } else {
        ChoicesRelate(entries[1..], name, id);
      }
    }
  }

  /** The native application's way with a scenario by name. */
  function ApplyNativeScene(entries: seq<Scenario>, name: string, id: string, b: Fan, pwd: Bytes, now: Now,
                            table: NudgeTable): Fan {
    var s := NativeChoice(entries, name, id);
    if s.None? then b else ApplyAll(b, pwd, OpsOf(NativeCommands(s.value)), now, table)
  }

  /** The dashboard's. */
  function ApplyWebScene(entries: seq<Scenario>, name: string, id: string, b: Fan, pwd: Bytes, now: Now,
                         table: NudgeTable): Fan {
    var s := WebChoice(entries, name, id);
    if !s.Chosen? then b else ApplyUntilError(b, pwd, WebOps(s.settings), now, table)
  }

  /** Without a scenario of that name, or with one that has no entry, neither application sends anything. */
  lemma NothingChosen(entries: seq<Scenario>, name: string, id: string, b: Fan, pwd: Bytes, now: Now,
                      table: NudgeTable)
    requires StoreSpec.DistinctNames(entries) && !WebChoice(entries, name, id).Chosen?
    ensures ApplyNativeScene(entries, name, id, b, pwd, now, table) == b
    ensures ApplyWebScene(entries, name, id, b, pwd, now, table) == b
  {
    ChoicesRelate(entries, name, id);
  }

  /**
   * The native application overlays the captured settings exactly when the scenario has an entry for the
   * connected device, and otherwise leaves the fan alone.
   */
  lemma NativeSceneResult(entries: seq<Scenario>, name: string, id: string, a: Fan, b: Fan, pwd: Bytes, now: Now,
                          table: NudgeTable)
    requires StoreSpec.DistinctNames(entries) && WebChoice(entries, name, id) == Chosen(Captured(a))
    requires Safe(a) && MayTalk(b, pwd)
    ensures HasSettings(a.state)
    ensures ApplyNativeScene(entries, name, id, b, pwd, now, table)
         == if Listed(entries, name, id) then b.(state := Overlaid(a.state, b.state)) else b
  {
    ChoicesRelate(entries, name, id);
    CaptureThenApply(a, b, pwd, now, table);
    hide Safe, MayTalk, Overlaid, Listed, WebChoice, NativeChoice, ApplyAll, Captured;
  }

  /** The dashboard overlays the captured settings whether or not they were captured from the connected device. */
  lemma WebSceneResult(entries: seq<Scenario>, name: string, id: string, a: Fan, b: Fan, pwd: Bytes, n: nat, now: Now,
                       table: NudgeTable)
    requires WebChoice(entries, name, id) == Chosen(Captured(a))
    requires Safe(a) && Answering(b, pwd, n) && SaneTable(table)
    ensures HasSettings(a.state)
    ensures ApplyWebScene(entries, name, id, b, pwd, now, table)
         == if n > MAX_SSID then b.Set(POWER, a.state[POWER]) else b.(state := Overlaid(AsPreset(a.state), b.state))
  {
    CaptureThenApplyWeb(a, b, pwd, n, now, table);
    hide Safe, Answering, Overlaid, WebChoice, ApplyUntilError, Captured, AsPreset;
  }

  /**
   * When the two applications leave the same fan behind. With an entry for the connected device and a fan
   * that can be polled: unless the scenario is manual mode at 1, 2 or 3. Without such an entry: only when
   * the fan is already as the dashboard would make it. On a fan that cannot be polled: only when it
   * already has all that the dashboard does not get to send, or, without an entry, the power it does send.
   */
  ghost predicate WillAgree(listed: bool, pollable: bool, a: map<Code, Bytes>, b: map<Code, Bytes>)
    requires HasSettings(a) && HasSettings(b)
  {
    if listed then (if pollable then !SentAsPreset(a) else SameCarried(a, b, {POWER}))
    else if pollable then SameCarried(AsPreset(a), b, {})
    else b[POWER] == a[POWER]
  }

  /** The applications agree on a scenario captured from a safe fan in exactly those cases. */
  lemma RoutesAgreeExactly(entries: seq<Scenario>, name: string, id: string, a: Fan, b: Fan, pwd: Bytes, n: nat,
                           now: Now, table: NudgeTable)
    requires StoreSpec.DistinctNames(entries) && WebChoice(entries, name, id) == Chosen(Captured(a))
    requires Safe(a) && Answering(b, pwd, n) && SaneTable(table)
    ensures HasSettings(a.state) && HasSettings(b.state)
    ensures ApplyNativeScene(entries, name, id, b, pwd, now, table)
         == ApplyWebScene(entries, name, id, b, pwd, now, table)
       <==> WillAgree(Listed(entries, name, id), n <= MAX_SSID, a.state, b.state)
  {
    SettingsOf(a);
    hide Safe, MayTalk, Overlaid, AsPreset, SentAsPreset, SameCarried, HasSettings, Captured;
    hide ApplyNativeScene, ApplyWebScene, Listed, WebChoice, StoreSpec.DistinctNames;
    AnsweringIsSafe(b, pwd, n);
    NativeSceneResult(entries, name, id, a, b, pwd, now, table);
    WebSceneResult(entries, name, id, a, b, pwd, n, now, table);
    Compare(Listed(entries, name, id), n <= MAX_SSID, a.state, b,
            ApplyNativeScene(entries, name, id, b, pwd, now, table),
            ApplyWebScene(entries, name, id, b, pwd, now, table));
    hide *;
  }

  lemma Compare(listed: bool, pollable: bool, a: map<Code, Bytes>, b: Fan, native: Fan, web: Fan)
    requires HasSettings(a) && HasSettings(b.state)
    requires native == if listed then b.(state := Overlaid(a, b.state)) else b
    requires web == if pollable then b.(state := Overlaid(AsPreset(a), b.state)) else b.Set(POWER, a[POWER])
    ensures native == web <==> WillAgree(listed, pollable, a, b.state)
  {
    assert IsSetting(POWER);
    hide Overlaid, AsPreset, SentAsPreset, SameCarried, HasSettings;
    OverlaysDiffer(a, b.state);
    OverlayChangesNothing(a, b.state);
    OverlayChangesNothing(AsPreset(a), b.state);
  }

  lemma AnsweringIsSafe(b: Fan, pwd: Bytes, n: nat)
    requires Answering(b, pwd, n)
    ensures MayTalk(b, pwd) && HasSettings(b.state)
  {
    SettingsOf(b);
  }

  /** Overlaying with and without the preset differ exactly when there is one. */
  lemma OverlaysDiffer(a: map<Code, Bytes>, b: map<Code, Bytes>)
    requires HasSettings(a) && HasSettings(b)
    ensures Overlaid(AsPreset(a), b) == Overlaid(a, b) <==> !SentAsPreset(a)
  {
    if SentAsPreset(a) {
      OverlaidAt(a, b);
      OverlaidAt(AsPreset(a), b);
      hide Overlaid;
      assert Overlaid(a, b)[SPEED] == a[SPEED] && Overlaid(AsPreset(a), b)[SPEED] == a[MANUAL_SPEED];
    }
  }

  // ---------------------------------------------------------------------------
  // A scenario saved from one fan
  // ---------------------------------------------------------------------------

  /** The scenario that saving the state of a fan stores, under the id of that fan. */
  function CapturedScene(name: string, id: string, a: Fan): Scenario { Scenario(name, [FanSettings(id, Captured(a))]) }

  lemma {:induction false} SavedIsFound(entries: seq<Scenario>, e: Scenario)
    requires e in entries && StoreSpec.DistinctNames(entries)
    ensures var i := StoreSpec.Find(entries, e.name); i.Some? && entries[i.value] == e
    decreases |entries|
  {
    if entries[0].name != e.name {
      SavedIsFound(entries[1..], e);
    }
  }

  /**
   * A scenario saved from the fan with id `from` and applied by name while connected to `id` chooses that
   * fan's settings in the dashboard always, and is listed for the native application exactly for `from`.
   */
  lemma SavedSceneChoice(st: StoreSpec.DesktopStore, name: string, from: string, id: string, a: Fan)
    requires StoreSpec.Intact(st) && name != ""
    ensures var saved := StoreSpec.Save(st, CapturedScene(name, from, a), StoreSpec.Label, StoreSpec.BLANK).scenarios;
            && StoreSpec.DistinctNames(saved)
            && WebChoice(saved, name, id) == Chosen(Captured(a))
            && (Listed(saved, name, id) <==> id == from)
  {
    var e := CapturedScene(name, from, a);
    StoreSpec.SaveKeepsIntact(st, e);
    var saved := StoreSpec.Save(st, e, StoreSpec.Label, StoreSpec.BLANK).scenarios;
    assert e in saved by { SaveHolds(st, e); }
    hide Captured, StoreSpec.Save;
    SavedIsFound(saved, e);
    var i := StoreSpec.Find(saved, name).value;
    assert saved[i].fans == [FanSettings(from, Captured(a))];
    assert saved[i].fans[0].deviceId == from;
    assert SettingsFor(saved[i].fans, id) == if id == from then Some(Captured(a)) else None;
  }

  lemma SaveHolds(st: StoreSpec.DesktopStore, e: Scenario)
    ensures e in StoreSpec.Save(st, e, StoreSpec.Label, StoreSpec.BLANK).scenarios
  {
    var saved := StoreSpec.Save(st, e, StoreSpec.Label, StoreSpec.BLANK).scenarios;
    var i := StoreSpec.Find(st.scenarios, e.name);
    assert saved[if i.Some? then i.value else |saved| - 1] == e;
  }

  /**
   * So a scenario saved from one fan and applied while connected to another does nothing in the native
   * application, while the dashboard makes the connected fan like the captured one.
   */
  lemma OtherFansScene(st: StoreSpec.DesktopStore, name: string, from: string, id: string, a: Fan, b: Fan, pwd: Bytes,
                       n: nat, now: Now, table: NudgeTable)
    requires StoreSpec.Intact(st) && name != "" && id != from
    requires Safe(a) && Answering(b, pwd, n) && SaneTable(table) && n <= MAX_SSID
    ensures HasSettings(a.state)
    ensures var saved := StoreSpec.Save(st, CapturedScene(name, from, a), StoreSpec.Label, StoreSpec.BLANK).scenarios;
            && ApplyNativeScene(saved, name, id, b, pwd, now, table) == b
            && ApplyWebScene(saved, name, id, b, pwd, now, table) == b.(state := Overlaid(AsPreset(a.state), b.state))
  {
    SavedSceneChoice(st, name, from, id, a);
    AnsweringTalks(b, pwd, n);
    hide Safe, Answering, MayTalk, Captured, CapturedScene, StoreSpec.Save, StoreSpec.Intact, Listed, WebChoice;
    hide ApplyNativeScene, ApplyWebScene, StoreSpec.DistinctNames, Overlaid, AsPreset;
    var saved := StoreSpec.Save(st, CapturedScene(name, from, a), StoreSpec.Label, StoreSpec.BLANK).scenarios;
    NativeSceneResult(saved, name, id, a, b, pwd, now, table);
    WebSceneResult(saved, name, id, a, b, pwd, n, now, table);
  }
}
