/**
 * What any stored settings make a fan tell, on both application routes: settings that are not there, and
 * numbers no command accepts, included.
 */
module SceneEffects {
  import opened Basics
  import opened Params
  import opened FanSpec
  import opened Client
  import opened Commands
  import opened ScenarioData
  import opened Scenes
  import opened States
  import opened Readings
  import Frame
  import Polling

  /** What becomes of one setting: it is not there, no command takes it, or it is set. */
  datatype Part =
    | Skip
    | Refuse
    | SetPower(on: bool)
    | Preset(n: byte)
    | Manual(n: byte)
    | Mode(n: byte)
    | Boost(on: bool)
    | Sensor(n: byte)
    | Threshold(n: byte)

  function PresetOr(n: int): Part { if 1 <= n <= 3 then Preset(n) else Refuse }

  function SpeedOr(n: int): Part { if 1 <= n <= 3 then Preset(n) else if 0 <= n <= 255 then Manual(n) else Refuse }

  function ModeOr(n: int): Part { if 0 <= n <= 2 then Mode(n) else Refuse }

  function SensorOr(n: int): Part { if 0 <= n <= 2 then Sensor(n) else Refuse }

  function ThresholdOr(n: int): Part { if 40 <= n <= 80 then Threshold(n) else Refuse }

  function PartOf<T>(setting: Option<T>, part: T -> Part): Part {
    if setting.Some? then part(setting.value) else Skip
  }

  /** The native application keeps the low byte of every number, and a manual speed only beside the speed 255. */
  function NativeParts(s: Settings): seq<Part> {
    [PartOf(s.power, on => SetPower(on)),
     if s.speed == Some(255) then Skip else PartOf(s.speed, n => PresetOr(n % 256)),
     if s.speed == Some(255) then PartOf(s.manualSpeed, n => Manual(n % 256)) else Skip,
     PartOf(s.operationMode, n => ModeOr(n % 256)),
     PartOf(s.boostActive, on => Boost(on)),
     PartOf(s.humiditySensor, n => SensorOr(n % 256)),
     PartOf(s.humidityThreshold, n => ThresholdOr(n % 256))]
  }

  /** The dashboard takes numbers as they are, and sends a manual speed of 1 to 3 as a preset. */
  function WebParts(s: Settings): seq<Part> {
    [PartOf(s.power, on => SetPower(on)),
     PartOf(if s.speed == Some(255) then s.manualSpeed else s.speed, n => SpeedOr(n)),
     PartOf(s.operationMode, n => ModeOr(n)),
     PartOf(s.boostActive, on => Boost(on)),
     PartOf(s.humiditySensor, n => SensorOr(n)),
     PartOf(s.humidityThreshold, n => ThresholdOr(n))]
  }

  function Done(p: Part, r: DeviceState): DeviceState {
    match p
    case Skip => r
    case Refuse => r
    case SetPower(on) => r.(power := Some(on))
    case Preset(n) => r.(speed := Some(n))
    case Manual(n) => r.(speed := Some(255), manualSpeed := Some(n))
    case Mode(n) => r.(operationMode := Some(n))
    case Boost(on) => r.(boostActive := Some(on))
    case Sensor(n) => r.(humiditySensor := Some(n))
    case Threshold(n) => r.(humidityThreshold := Some(n))
  }

  /** The native route passes over what is refused. */
  function NativeRun(ps: seq<Part>, r: DeviceState): DeviceState
    decreases |ps|
  {
    if ps == [] then r else NativeRun(ps[1..], Done(ps[0], r))
  }

  /** The web route ends there, and after the first command on a fan that cannot be polled. */
  function WebRun(ps: seq<Part>, r: DeviceState, pollable: bool): DeviceState
    decreases |ps|
  {
    if ps == [] || ps[0].Refuse? then r
    else if ps[0].Skip? then WebRun(ps[1..], r, pollable)
    else if pollable then WebRun(ps[1..], Done(ps[0], r), pollable)
    else Done(ps[0], r)
  }

  // ---------------------------------------------------------------------------
  // One setting
  // ---------------------------------------------------------------------------

  predicate InLimits(p: Part) {
    && (p.Preset? ==> 1 <= p.n <= 3) && (p.Mode? || p.Sensor? ==> p.n <= 2) && (p.Threshold? ==> 40 <= p.n <= 80)
  }

  predicate IsSet(p: Part) { !p.Skip? && !p.Refuse? }

  function PartWrites(p: Part): seq<Entry>
    requires IsSet(p)
  {
    match p
    case SetPower(on) => [Entry(POWER, [Bit(on)])]
    case Preset(n) => [Entry(SPEED, [n])]
    case Manual(n) => [Entry(SPEED, [255]), Entry(MANUAL_SPEED, [n])]
    case Mode(n) => [Entry(OPERATION_MODE, [n])]
    case Boost(on) => [Entry(BOOST_STATUS, [Bit(on)])]
    case Sensor(n) => [Entry(HUMIDITY_SENSOR, [n])]
    case Threshold(n) => [Entry(HUMIDITY_THRESHOLD, [n])]
  }

  lemma OneStored(f: Fan, e: Entry)
    ensures SetAll(f, [e]) == f.Set(e.code, e.value)
  {
    assert [e][1..] == [];
    assert SetAll(f, [e]) == SetAll(f.Set(e.code, e.value), []);
  }

  lemma PartTells(f: Fan, p: Part)
    requires WellHeld(f.state) && IsSet(p)
    ensures Tells(SetAll(f, PartWrites(p)).state, Done(p, Reading(f.state)))
  {
    hide SetAll, WellHeld, Reading;
    match p {
      case SetPower(on) =>
        OneStored(f, Entry(POWER, [Bit(on)]));
        StaysWellHeld(f.state, POWER, [Bit(on)]);
        PowerSet(f.state, [Bit(on)]);
      case Preset(n) =>
        OneStored(f, Entry(SPEED, [n]));
        StaysWellHeld(f.state, SPEED, [n]);
        SpeedSet(f.state, [n]);
      case Manual(n) =>
        SetBoth(f, Entry(SPEED, [255]), Entry(MANUAL_SPEED, [n]));
        StaysWellHeld(f.state, SPEED, [255]);
        SpeedSet(f.state, [255]);
        StaysWellHeld(f.state[SPEED := [255]], MANUAL_SPEED, [n]);
        ManualSet(f.state[SPEED := [255]], [n]);
      case Mode(n) =>
        OneStored(f, Entry(OPERATION_MODE, [n]));
        StaysWellHeld(f.state, OPERATION_MODE, [n]);
        ModeSet(f.state, [n]);
      case Boost(on) =>
        OneStored(f, Entry(BOOST_STATUS, [Bit(on)]));
        StaysWellHeld(f.state, BOOST_STATUS, [Bit(on)]);
        BoostSet(f.state, [Bit(on)]);
      case Sensor(n) =>
        OneStored(f, Entry(HUMIDITY_SENSOR, [n]));
        StaysWellHeld(f.state, HUMIDITY_SENSOR, [n]);
        SensorSet(f.state, [n]);
      case Threshold(n) =>
        OneStored(f, Entry(HUMIDITY_THRESHOLD, [n]));
        StaysWellHeld(f.state, HUMIDITY_THRESHOLD, [n]);
        ThresholdSet(f.state, [n]);
    }
  }

  lemma PartInBounds(p: Part)
    requires IsSet(p) && InLimits(p)
    ensures InBounds(PartWrites(p))
  {
  }

  /** The operation a route performs for a setting, if any, is what becomes of the setting. */
  ghost predicate Issues(o: Option<Result<Op>>, p: Part) {
    && InLimits(p)
    && (o.None? <==> p.Skip?)
    && (o.Some? && o.value.Err? <==> p.Refuse?)
    && (IsSet(p) ==> Sets(o.value, PartWrites(p)))
  }

  ghost predicate AllIssue(os: seq<Option<Result<Op>>>, ps: seq<Part>) {
    |os| == |ps| && forall i :: 0 <= i < |os| ==> Issues(os[i], ps[i])
  }

  function Performed(os: seq<Option<Result<Op>>>): seq<Result<Op>> {
    if os == [] then [] else Only(os[0]) + Performed(os[1..])
  }

  /** The native route over any settings. */
  lemma {:induction false} NativeRuns(f: Fan, pwd: Bytes, os: seq<Option<Result<Op>>>, ps: seq<Part>, now: Now,
                                      table: NudgeTable)
    requires AllIssue(os, ps) && WellHeld(f.state) && Frame.ValidCredentials(f.id, pwd)
    ensures Tells(ApplyAll(f, pwd, Performed(os), now, table).state, NativeRun(ps, Reading(f.state)))
    decreases |os|
  {
    hide WellHeld, Reading, Direct, Sets, Frame.ValidCredentials, Done;
    if os != [] {
      var o, p, rest := os[0], ps[0], Performed(os[1..]);
      assert AllIssue(os[1..], ps[1..]);
      if IsSet(p) {
        assert ([o.value] + rest)[1..] == rest;
        OpSets(Client(f.id, pwd), o.value, PartWrites(p), f, now, table);
        SetAllKeepsId(f, PartWrites(p));
        PartTells(f, p);
        NativeRuns(SetAll(f, PartWrites(p)), pwd, os[1..], ps[1..], now, table);
      } else {
        assert p.Refuse? ==> ([o.value] + rest)[1..] == rest;
        assert p.Skip? ==> [] + rest == rest;
        NothingDone(p, Reading(f.state));
        NativeRuns(f, pwd, os[1..], ps[1..], now, table);
      }
    }
  }

  lemma NothingDone(p: Part, r: DeviceState)
    requires !IsSet(p)
    ensures Done(p, r) == r
  {
  }

  ghost predicate AllPlain(os: seq<Option<Result<Op>>>) { forall i :: 0 <= i < |os| ==> PlainPart(os[i]) }

  lemma WebStep(f: Fan, pwd: Bytes, o: Option<Result<Op>>, p: Part, rest: seq<Result<Op>>, name: nat, now: Now,
                table: NudgeTable)
    requires Issues(o, p) && PlainPart(o) && IsSet(p) && Answering(f, pwd, name) && SaneTable(table)
    ensures Answering(SetAll(f, PartWrites(p)), pwd, name)
    ensures ApplyUntilError(f, pwd, [o.value] + rest, now, table)
         == var g := SetAll(f, PartWrites(p));
            if name <= Polling.MAX_SSID then ApplyUntilError(g, pwd, rest, now, table) else g
  {
    var c, g := Client(f.id, pwd), SetAll(f, PartWrites(p));
    AnsweringTalks(f, pwd, name);
    OpSets(c, o.value, PartWrites(p), f, now, table);
    OpSucceeds(c, o.value, PartWrites(p), f, now, table);
    PartInBounds(p);
    SettingsKeepAnswering(f, pwd, name, PartWrites(p));
    hide Direct, Answering, Polls, Sets, InBounds, SetAll;
    PollsExactly(g, pwd, name, now, table);
    assert ([o.value] + rest)[1..] == rest;
  }

  lemma FirstIssues(os: seq<Option<Result<Op>>>, ps: seq<Part>)
    requires AllIssue(os, ps) && AllPlain(os) && os != []
    ensures Issues(os[0], ps[0]) && AllIssue(os[1..], ps[1..]) && PlainPart(os[0]) && AllPlain(os[1..])
  {
    hide Issues, PlainPart;
  }

  /** The web route over any settings. */
  lemma {:induction false} WebRuns(f: Fan, pwd: Bytes, os: seq<Option<Result<Op>>>, ps: seq<Part>, name: nat, now: Now,
                                   table: NudgeTable)
    requires AllIssue(os, ps) && AllPlain(os) && Answering(f, pwd, name) && SaneTable(table)
    ensures WellHeld(f.state)
    ensures Tells(ApplyUntilError(f, pwd, Performed(os), now, table).state,
                  WebRun(ps, Reading(f.state), name <= Polling.MAX_SSID))
    decreases |os|
  {
    AnsweringIsWellHeld(f, pwd, name);
    hide WellHeld, Reading, Direct, Sets, Answering, Polls, Done, PlainPart, SaneTable;
    if os != [] {
      var o, p, rest := os[0], ps[0], Performed(os[1..]);
      FirstIssues(os, ps);
      hide AllIssue, AllPlain;
      if IsSet(p) {
        var g := SetAll(f, PartWrites(p));
        WebStep(f, pwd, o, p, rest, name, now, table);
        PartTells(f, p);
        if name <= Polling.MAX_SSID {
          WebRuns(g, pwd, os[1..], ps[1..], name, now, table);
        }
      } else if p.Skip? {
        assert [] + rest == rest;
        WebRuns(f, pwd, os[1..], ps[1..], name, now, table);
      }
    }
  }

  lemma AnsweringIsWellHeld(f: Fan, pwd: Bytes, name: nat)
    requires Answering(f, pwd, name)
    ensures WellHeld(f.state)
  {
    Polling.SafeIsWellHeld(f);
  }

  // ---------------------------------------------------------------------------
  // The settings of a scenario
  // ---------------------------------------------------------------------------

  function Issued(cmd: Option<Command>): Option<Result<Op>> {
    if cmd.Some? then Some(CommandOp(cmd.value)) else None
  }

  function NativeIssued(s: Settings): seq<Option<Result<Op>>> {
    [Issued(PowerCommand(s)), Issued(SpeedCommand(s)), Issued(ManualCommand(s)), Issued(ModeCommand(s)),
     Issued(BoostCommand(s)), Issued(SensorCommand(s)), Issued(ThresholdCommand(s))]
  }

  function WebIssued(s: Settings): seq<Option<Result<Op>>> {
    [PowerOp(s), SpeedOp(s), ModeOp(s), BoostOp(s), SensorOp(s), ThresholdOp(s)]
  }

  lemma PowerIssues(on: bool)
    ensures Issues(Some(CommandOp(Power(on))), SetPower(on))
  {
    CommandSets(Power(on), [Bit(on)]);
    hide CommandOp, Sets;
  }

  lemma SpeedIssues(n: byte)
    ensures Issues(Some(CommandOp(SetSpeed(n))), PresetOr(n))
    ensures Issues(Some(CommandOp(SetManualSpeed(n))), Manual(n))
  {
    ManualSets(n);
    if 1 <= n <= 3 {
      CommandSets(SetSpeed(n), [n]);
    }
    hide Sets, WriteInt;
  }

  lemma ModeIssues(n: byte)
    ensures Issues(Some(CommandOp(SetMode(n))), ModeOr(n))
    ensures Issues(Some(CommandOp(SetHumiditySensor(n))), SensorOr(n))
    ensures Issues(Some(CommandOp(SetHumidityThreshold(n))), ThresholdOr(n))
  {
    if n <= 2 {
      CommandSets(SetMode(n), [n]);
      CommandSets(SetHumiditySensor(n), [n]);
    }
    if 40 <= n <= 80 {
      CommandSets(SetHumidityThreshold(n), [n]);
    }
    hide Sets, WriteInt;
  }

  lemma BoostIssues(on: bool)
    ensures Issues(Some(CommandOp(SetBoostStatus(on))), Boost(on))
    ensures Issues(Some(WriteInt(BOOST_STATUS, Bit(on))), Boost(on))
  {
    BoostSets(on);
    hide CommandOp, WriteInt;
  }

  lemma NativeSwitchesIssue(s: Settings)
    ensures Issues(Issued(PowerCommand(s)), NativeParts(s)[0]) && Issues(Issued(BoostCommand(s)), NativeParts(s)[4])
  {
    hide CommandOp, Sets;
    if s.power.Some? {
      PowerIssues(s.power.value);
    }
    if s.boostActive.Some? {
      BoostIssues(s.boostActive.value);
    }
  }

  lemma NativeSpeedIssues(s: Settings)
    ensures Issues(Issued(SpeedCommand(s)), NativeParts(s)[1]) && Issues(Issued(ManualCommand(s)), NativeParts(s)[2])
  {
    hide CommandOp, Sets;
    if s.speed.Some? {
      SpeedIssues(U8(s.speed.value));
    }
    if s.manualSpeed.Some? {
      SpeedIssues(U8(s.manualSpeed.value));
    }
  }

  lemma NativeNumbersIssue(s: Settings)
    ensures Issues(Issued(ModeCommand(s)), NativeParts(s)[3]) && Issues(Issued(SensorCommand(s)), NativeParts(s)[5])
    ensures Issues(Issued(ThresholdCommand(s)), NativeParts(s)[6])
  {
    hide CommandOp, Sets;
    if s.operationMode.Some? {
      ModeIssues(U8(s.operationMode.value));
    }
    if s.humiditySensor.Some? {
      ModeIssues(U8(s.humiditySensor.value));
    }
    if s.humidityThreshold.Some? {
      ModeIssues(U8(s.humidityThreshold.value));
    }
  }

  lemma NativeIssues(s: Settings)
    ensures AllIssue(NativeIssued(s), NativeParts(s))
  {
    NativeSwitchesIssue(s);
    NativeSpeedIssues(s);
    NativeNumbersIssue(s);
    assert |NativeParts(s)| == 7;
    hide Issues, Issued, NativeParts;
  }

  lemma WebSwitchesIssue(s: Settings)
    ensures Issues(PowerOp(s), WebParts(s)[0]) && Issues(BoostOp(s), WebParts(s)[3])
  {
    hide CommandOp, Sets, WriteInt;
    if s.power.Some? {
      PowerIssues(s.power.value);
    }
    if s.boostActive.Some? {
      BoostIssues(s.boostActive.value);
    }
  }

  lemma WebSpeedIssues(s: Settings)
    ensures Issues(SpeedOp(s), WebParts(s)[1])
  {
    hide CommandOp, Sets;
    var speed := if s.speed == Some(255) then s.manualSpeed else s.speed;
    if speed.Some? && 0 <= speed.value <= 255 {
      SpeedIssues(speed.value);
    }
  }

  lemma WebNumbersIssue(s: Settings)
    ensures Issues(ModeOp(s), WebParts(s)[2])
    ensures Issues(SensorOp(s), WebParts(s)[4]) && Issues(ThresholdOp(s), WebParts(s)[5])
  {
    hide CommandOp, Sets;
    if s.operationMode.Some? && 0 <= s.operationMode.value <= 255 {
      ModeIssues(s.operationMode.value);
    }
    if s.humiditySensor.Some? && 0 <= s.humiditySensor.value <= 255 {
      ModeIssues(s.humiditySensor.value);
    }
    if s.humidityThreshold.Some? && 0 <= s.humidityThreshold.value <= 255 {
      ModeIssues(s.humidityThreshold.value);
    }
  }

  lemma WebIssues(s: Settings)
    ensures AllIssue(WebIssued(s), WebParts(s))
  {
    WebSwitchesIssue(s);
    WebSpeedIssues(s);
    WebNumbersIssue(s);
    assert |WebParts(s)| == 6;
    hide Issues, PowerOp, SpeedOp, ModeOp, BoostOp, SensorOp, ThresholdOp, WebParts;
  }

  lemma {:induction false} OpsOfConcat(a: seq<Command>, b: seq<Command>)
    ensures OpsOf(a + b) == OpsOf(a) + OpsOf(b)
  {
  }

  lemma OpsOfOnly(cmd: Option<Command>)
    ensures OpsOf(Only(cmd)) == Only(Issued(cmd))
  {
  }

  lemma NativeIsPerformed(s: Settings)
    ensures OpsOf(NativeCommands(s)) == Performed(NativeIssued(s))
  {
    var a, b, c, d := PowerCommand(s), SpeedCommand(s), ManualCommand(s), ModeCommand(s);
    var e, f, g := BoostCommand(s), SensorCommand(s), ThresholdCommand(s);
    SevenPerformed(Issued(a), Issued(b), Issued(c), Issued(d), Issued(e), Issued(f), Issued(g));
    hide PowerCommand, SpeedCommand, ManualCommand, ModeCommand, BoostCommand, SensorCommand, ThresholdCommand;
    hide OpsOf, Issued, Performed, Only;
    OpsOfOnly(a);
    OpsOfOnly(b);
    OpsOfOnly(c);
    OpsOfOnly(d);
    OpsOfOnly(e);
    OpsOfOnly(f);
    OpsOfOnly(g);
    OpsOfConcat(Only(a), Only(b));
    OpsOfConcat(Only(a) + Only(b), Only(c));
    OpsOfConcat(Only(a) + Only(b) + Only(c), Only(d));
    OpsOfConcat(Only(a) + Only(b) + Only(c) + Only(d), Only(e));
    OpsOfConcat(Only(a) + Only(b) + Only(c) + Only(d) + Only(e), Only(f));
    OpsOfConcat(Only(a) + Only(b) + Only(c) + Only(d) + Only(e) + Only(f), Only(g));
  }

  lemma Regrouped<T>(x: seq<T>, y: seq<T>, z: seq<T>)
    ensures x + (y + z) == (x + y) + z
  {
  }

  lemma SevenPerformed(a: Option<Result<Op>>, b: Option<Result<Op>>, c: Option<Result<Op>>, d: Option<Result<Op>>,
                       e: Option<Result<Op>>, f: Option<Result<Op>>, g: Option<Result<Op>>)
    ensures Performed([a, b, c, d, e, f, g])
         == Only(a) + Only(b) + Only(c) + Only(d) + Only(e) + Only(f) + Only(g)
  {
    assert [a, b, c, d, e, f, g][1..] == [b, c, d, e, f, g];
    assert Performed([a, b, c, d, e, f, g]) == Only(a) + Performed([b, c, d, e, f, g]);
    SixPerformed(b, c, d, e, f, g);
    hide Performed, Only;
    Regrouped(Only(a), Only(b), Only(c) + (Only(d) + (Only(e) + (Only(f) + Only(g)))));
    Regrouped(Only(a) + Only(b), Only(c), Only(d) + (Only(e) + (Only(f) + Only(g))));
    Regrouped(Only(a) + Only(b) + Only(c), Only(d), Only(e) + (Only(f) + Only(g)));
    Regrouped(Only(a) + Only(b) + Only(c) + Only(d), Only(e), Only(f) + Only(g));
    Regrouped(Only(a) + Only(b) + Only(c) + Only(d) + Only(e), Only(f), Only(g));
  }

  lemma SixPerformed(b: Option<Result<Op>>, c: Option<Result<Op>>, d: Option<Result<Op>>, e: Option<Result<Op>>,
                     f: Option<Result<Op>>, g: Option<Result<Op>>)
    ensures Performed([b, c, d, e, f, g]) == Only(b) + (Only(c) + (Only(d) + (Only(e) + (Only(f) + Only(g)))))
  {
    assert [b, c, d, e, f, g][1..] == [c, d, e, f, g] && [c, d, e, f, g][1..] == [d, e, f, g];
    assert [d, e, f, g][1..] == [e, f, g] && [e, f, g][1..] == [f, g] && [f, g][1..] == [g] && [g][1..] == [];
    assert Performed([g]) == Only(g) + [] == Only(g);
    assert Performed([f, g]) == Only(f) + Performed([g]);
    assert Performed([e, f, g]) == Only(e) + Performed([f, g]);
    assert Performed([d, e, f, g]) == Only(d) + Performed([e, f, g]);
    assert Performed([c, d, e, f, g]) == Only(c) + Performed([d, e, f, g]);
  }

  /**
   * Applying any settings at all, the native application sets every one that is there and that its command
   * accepts once narrowed to a byte, and leaves everything else a safe fan tells as it was.
   */
  lemma NativeSettingsTakeEffect(s: Settings, f: Fan, pwd: Bytes, now: Now, table: NudgeTable)
    requires Safe(f) && MayTalk(f, pwd)
    ensures WellHeld(f.state)
    ensures Tells(ApplyAll(f, pwd, OpsOf(NativeCommands(s)), now, table).state,
                  NativeRun(NativeParts(s), Reading(f.state)))
  {
    Polling.SafeIsWellHeld(f);
    NativeIssues(s);
    NativeIsPerformed(s);
    hide Safe, WellHeld, Reading, AllIssue, NativeCommands, NativeParts, NativeIssued;
    NativeRuns(f, pwd, NativeIssued(s), NativeParts(s), now, table);
  }

  /** The dashboard sets them up to the first its commands refuse, and only the first on a fan it cannot poll. */
  lemma WebSettingsTakeEffect(s: Settings, f: Fan, pwd: Bytes, name: nat, now: Now, table: NudgeTable)
    requires Answering(f, pwd, name) && SaneTable(table)
    ensures WellHeld(f.state)
    ensures Tells(ApplyUntilError(f, pwd, WebOps(s), now, table).state,
                  WebRun(WebParts(s), Reading(f.state), name <= Polling.MAX_SSID))
  {
    WebIssues(s);
    WebIsPlain(s);
    SixPerformed(PowerOp(s), SpeedOp(s), ModeOp(s), BoostOp(s), SensorOp(s), ThresholdOp(s));
    assert Performed(WebIssued(s)) == WebOps(s);
    hide Answering, WellHeld, Reading, AllIssue, AllPlain, WebOps, WebParts, WebIssued;
    WebRuns(f, pwd, WebIssued(s), WebParts(s), name, now, table);
  }

  lemma WebIsPlain(s: Settings)
    ensures AllPlain(WebIssued(s))
  {
    PartsArePlain(s);
    hide PowerOp, SpeedOp, ModeOp, BoostOp, SensorOp, ThresholdOp, PlainPart;
  }
}
