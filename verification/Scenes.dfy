/** Capturing a fan's settings into a scenario and applying them to a fan, on both application routes. */
module Scenes {
  import opened Basics
  import opened Params
  import opened Section
  import opened FanSpec
  import opened Writes
  import opened Client
  import opened Commands
  import opened Polling
  import opened ScenarioData
  import opened States
  import opened Values
  import Decimal
  import Frame

  function AsInt(b: Option<byte>): Option<int> { if b.Some? then Some(b.value) else None }

  /** What saving a scenario keeps of a polled state. */
  function Capture(s: DeviceState): Settings {
    Settings(s.power, AsInt(s.speed), AsInt(s.manualSpeed), AsInt(s.operationMode),
             s.boostActive, AsInt(s.humiditySensor), AsInt(s.humidityThreshold))
  }

  /** Narrowing to an unsigned byte. */
  function U8(n: int): byte { n % 256 }

  function Power(on: bool): Command { if on then TurnOn else TurnOff }

  /** What a setting that may be unset adds to a list. */
  function Only<T>(x: Option<T>): seq<T> { if x.Some? then [x.value] else [] }

  function PowerCommand(s: Settings): Option<Command> {
    if s.power.Some? then Some(Power(s.power.value)) else None
  }

  function SpeedCommand(s: Settings): Option<Command> {
    if s.speed.Some? && s.speed.value != 255 then Some(SetSpeed(U8(s.speed.value))) else None
  }

  function ManualCommand(s: Settings): Option<Command> {
    if s.manualSpeed.Some? && s.speed == Some(255) then Some(SetManualSpeed(U8(s.manualSpeed.value))) else None
  }

  function ModeCommand(s: Settings): Option<Command> {
    if s.operationMode.Some? then Some(SetMode(U8(s.operationMode.value))) else None
  }

  function BoostCommand(s: Settings): Option<Command> {
    if s.boostActive.Some? then Some(SetBoostStatus(s.boostActive.value)) else None
  }

  function SensorCommand(s: Settings): Option<Command> {
    if s.humiditySensor.Some? then Some(SetHumiditySensor(U8(s.humiditySensor.value))) else None
  }

  function ThresholdCommand(s: Settings): Option<Command> {
    if s.humidityThreshold.Some? then Some(SetHumidityThreshold(U8(s.humidityThreshold.value))) else None
  }

  /** The commands the native application issues for a scenario, in order. */
  function NativeCommands(s: Settings): seq<Command> {
    Only(PowerCommand(s)) + Only(SpeedCommand(s)) + Only(ManualCommand(s)) + Only(ModeCommand(s))
    + Only(BoostCommand(s)) + Only(SensorCommand(s)) + Only(ThresholdCommand(s))
  }

  function OpsOf(cmds: seq<Command>): seq<Result<Op>> {
    seq(|cmds|, i requires 0 <= i < |cmds| => CommandOp(cmds[i]))
  }

  /** The native route: each command is tried, whatever became of the ones before. */
  function ApplyAll(f: Fan, pwd: Bytes, ops: seq<Result<Op>>, now: Now, table: NudgeTable): Fan
    decreases |ops|
  {
    if ops == [] then f
    else
      var g := if ops[0].Ok? then Direct(Client(f.id, pwd), ops[0].value, f, now, table).fan else f;
      ApplyAll(g, pwd, ops[1..], now, table)
  }

  /** The dashboard's command for one integer argument, which its client checks to be a byte. */
  function ByteCommand(n: int, cmd: byte -> Command): Result<Op> {
    if 0 <= n <= 255 then CommandOp(cmd(n)) else Err(Value)
  }

  /** The dashboard's routing of a speed: 1 to 3 are presets, everything else is a manual speed. */
  function WebSpeed(n: int): Result<Op> {
    if 1 <= n <= 3 then CommandOp(SetSpeed(n)) else ByteCommand(n, (m: byte) => SetManualSpeed(m))
  }

  function PowerOp(s: Settings): Option<Result<Op>> {
    if s.power.Some? then Some(CommandOp(Power(s.power.value))) else None
  }

  function SpeedOp(s: Settings): Option<Result<Op>> {
    var speed := if s.speed == Some(255) then s.manualSpeed else s.speed;
    if speed.Some? then Some(WebSpeed(speed.value)) else None
  }

  function ModeOp(s: Settings): Option<Result<Op>> {
    if s.operationMode.Some? then Some(ByteCommand(s.operationMode.value, (m: byte) => SetMode(m))) else None
  }

  function BoostOp(s: Settings): Option<Result<Op>> {
    if s.boostActive.Some? then Some(WriteInt(BOOST_STATUS, Bit(s.boostActive.value))) else None
  }

  function SensorOp(s: Settings): Option<Result<Op>> {
    if s.humiditySensor.Some? then Some(ByteCommand(s.humiditySensor.value, (m: byte) => SetHumiditySensor(m)))
    else None
  }

  function ThresholdOp(s: Settings): Option<Result<Op>> {
    if s.humidityThreshold.Some? then Some(ByteCommand(s.humidityThreshold.value, (m: byte) => SetHumidityThreshold(m)))
    else None
  }

  /** The operations the dashboard performs for a scenario, in order. */
  function WebOps(s: Settings): seq<Result<Op>> {
    Only(PowerOp(s)) + (Only(SpeedOp(s)) + (Only(ModeOp(s)) + (Only(BoostOp(s))
    + (Only(SensorOp(s)) + Only(ThresholdOp(s))))))
  }

  /** Whether a fan's full state can be polled and decoded. */
  predicate Polls(f: Fan, pwd: Bytes, now: Now, table: NudgeTable) {
    var raw := Poll(Client(f.id, pwd), ALL_PARAM_GROUPS, map[], [f], now, table);
    raw.Ok? && Build(raw.value).Ok?
  }

  /** The web route: after each operation the fan is polled, and the first error ends the request. */
  function ApplyUntilError(f: Fan, pwd: Bytes, ops: seq<Result<Op>>, now: Now, table: NudgeTable): Fan
    decreases |ops|
  {
    if ops == [] || ops[0].Err? then f
    else
      var d := Direct(Client(f.id, pwd), ops[0].value, f, now, table);
      if d.result.Err? || !Polls(d.fan, pwd, now, table) then d.fan
      else ApplyUntilError(d.fan, pwd, ops[1..], now, table)
  }

  /** Whether the web route gets through: no operation refused, none unanswered, every poll decoded. */
  predicate Succeeds(f: Fan, pwd: Bytes, ops: seq<Result<Op>>, now: Now, table: NudgeTable)
    decreases |ops|
  {
    ops == []
    || (ops[0].Ok?
        && var d := Direct(Client(f.id, pwd), ops[0].value, f, now, table);
           d.result.Ok? && Polls(d.fan, pwd, now, table) && Succeeds(d.fan, pwd, ops[1..], now, table))
  }

  // ---------------------------------------------------------------------------
  // Effect of the single operations
  // ---------------------------------------------------------------------------

  /** An operation that writes the given entries, plainly or asking for a response. */
  predicate WritesJust(op: Op, ws: seq<Entry>) {
    (op.Write? || op.WriteResp?) && op.writes == ws
  }

  predicate IsSetting(c: Code) {
    c in {POWER, SPEED, MANUAL_SPEED, OPERATION_MODE, BOOST_STATUS, HUMIDITY_SENSOR, HUMIDITY_THRESHOLD}
  }

  /** All seven settings are held, one byte each. */
  ghost predicate HasSettings(state: map<Code, Bytes>) {
    forall c :: IsSetting(c) ==> c in state && |state[c]| == 1
  }

  predicate Settable(e: Entry) {
    IsSetting(e.code) && |e.value| == 1 && e != Entry(POWER, [2])
  }

  lemma OneEntrySize(e: Entry)
    requires |e.value| == 1 && Page(e.code) == 0
    ensures |EncodeItems(0, Vals([e]))| == 2
  {
  }

  lemma TwoEntrySize(a: Entry, b: Entry)
    requires |a.value| == |b.value| == 1 && Page(a.code) == Page(b.code) == 0
    ensures |EncodeItems(0, Vals([a, b]))| == 4
  {
    assert Vals([a, b])[1..] == Vals([b]);
    OneEntrySize(b);
  }

  lemma WriteOneEffect(f: Fan, e: Entry, now: Now)
    requires Settable(e)
    ensures DirectWrite(f, [e], now) == Run(f.Set(e.code, e.value), true)
  {
    DirectWriteIsApplied(f, [e], now);
    DictOfDistinct([e]);
    assert WriteOne(f, e) == Run(f.Set(e.code, e.value), true);
    assert [e][1..] == [];
    assert WriteAll(f, [e]) == WriteAll(f.Set(e.code, e.value), []);
  }

  lemma WriteTwoEffect(f: Fan, a: Entry, b: Entry, now: Now)
    requires Settable(a) && Settable(b) && a.code != b.code
    ensures DirectWrite(f, [a, b], now) == Run(f.Set(a.code, a.value).Set(b.code, b.value), true)
  {
    var d := [a, b];
    DirectWriteIsApplied(f, d, now);
    DictOfDistinct(d);
    assert d[1..] == [b] && [b][1..] == [];
    assert WriteAll(f.Set(a.code, a.value), [b]) == Run(f.Set(a.code, a.value).Set(b.code, b.value), true);
  }

  lemma OpSetsOne(c: Client, op: Op, e: Entry, f: Fan, now: Now, table: NudgeTable)
    requires WritesJust(op, [e]) && Settable(e) && Frame.ValidCredentials(c.id, c.pwd)
    ensures Direct(c, op, f, now, table).fan == f.Set(e.code, e.value)
  {
    OneEntrySize(e);
    WriteOneEffect(f, e, now);
    hide DirectWrite, EncodeItems, Told;
  }

  lemma OpSetsTwo(c: Client, op: Op, a: Entry, b: Entry, f: Fan, now: Now, table: NudgeTable)
    requires WritesJust(op, [a, b]) && Settable(a) && Settable(b) && a.code != b.code
    requires Frame.ValidCredentials(c.id, c.pwd)
    ensures Direct(c, op, f, now, table).fan == f.Set(a.code, a.value).Set(b.code, b.value)
  {
    TwoEntrySize(a, b);
    WriteTwoEffect(f, a, b, now);
    hide DirectWrite, EncodeItems, Told;
  }

  /** The entries an operation writes, when it is one of the settings' writes. */
  ghost predicate Sets(r: Result<Op>, ws: seq<Entry>) {
    && r.Ok? && WritesJust(r.value, ws) && 1 <= |ws| <= 2
    && (forall e :: e in ws ==> Settable(e))
    && (|ws| == 2 ==> ws[0].code != ws[1].code)
  }

  ghost predicate AllSet(ops: seq<Result<Op>>, wss: seq<seq<Entry>>) {
    |ops| == |wss| && forall i :: 0 <= i < |ops| ==> Sets(ops[i], wss[i])
  }

  function SetAll(f: Fan, ws: seq<Entry>): Fan
    decreases |ws|
  {
    if ws == [] then f else SetAll(f.Set(ws[0].code, ws[0].value), ws[1..])
  }

  lemma OpSets(c: Client, r: Result<Op>, ws: seq<Entry>, f: Fan, now: Now, table: NudgeTable)
    requires Sets(r, ws) && Frame.ValidCredentials(c.id, c.pwd)
    ensures Direct(c, r.value, f, now, table).fan == SetAll(f, ws)
  {
    assert ws[0] in ws;
    if |ws| == 1 {
      assert ws == [ws[0]];
      OpSetsOne(c, r.value, ws[0], f, now, table);
      assert ws[1..] == [];
    } else {
      assert ws == [ws[0], ws[1]] && ws[1] in ws;
      OpSetsTwo(c, r.value, ws[0], ws[1], f, now, table);
      SetBoth(f, ws[0], ws[1]);
      hide Direct, SetAll;
    }
  }

  lemma SetBoth(f: Fan, a: Entry, b: Entry)
    ensures SetAll(f, [a, b]) == f.Set(a.code, a.value).Set(b.code, b.value)
  {
    assert [a, b][1..] == [b] && [b][1..] == [];
    assert SetAll(f.Set(a.code, a.value), [b]) == SetAll(f.Set(a.code, a.value).Set(b.code, b.value), []);
  }

  function Flat(wss: seq<seq<Entry>>): seq<Entry> {
    if wss == [] then [] else wss[0] + Flat(wss[1..])
  }

  lemma {:induction false} SetAllConcat(f: Fan, a: seq<Entry>, b: seq<Entry>)
    ensures SetAll(f, a + b) == SetAll(SetAll(f, a), b)
    decreases |a|
  {
    if a == [] {
      assert a + b == b;
    } else {
      assert (a + b)[1..] == a[1..] + b;
      SetAllConcat(f.Set(a[0].code, a[0].value), a[1..], b);
    }
  }

  lemma {:induction false} SetAllKeepsId(f: Fan, ws: seq<Entry>)
    ensures SetAll(f, ws).id == f.id
    decreases |ws|
  {
    if ws != [] {
      SetAllKeepsId(f.Set(ws[0].code, ws[0].value), ws[1..]);
    }
  }

  /** When every operation is accepted, the native route sets exactly the written entries, in order. */
  lemma {:induction false} NativeRouteSets(f: Fan, pwd: Bytes, ops: seq<Result<Op>>, wss: seq<seq<Entry>>, now: Now,
                                           table: NudgeTable)
    requires AllSet(ops, wss)
    requires Frame.ValidCredentials(f.id, pwd)
    ensures ApplyAll(f, pwd, ops, now, table) == SetAll(f, Flat(wss))
    decreases |ops|
  {
    hide Direct, Frame.ValidCredentials, Settable, WritesJust;
    if ops != [] {
      var g := SetAll(f, wss[0]);
      OpSets(Client(f.id, pwd), ops[0], wss[0], f, now, table);
      SetAllKeepsId(f, wss[0]);
      NativeRouteSets(g, pwd, ops[1..], wss[1..], now, table);
      SetAllConcat(f, wss[0], Flat(wss[1..]));
    }
  }

  /** A fan whose state can be polled and whose network name is `name` bytes long. */
  ghost predicate Answering(f: Fan, pwd: Bytes, name: nat) {
    && Safe(f) && Frame.ValidCredentials(f.id, pwd) && f.id != Decimal.DEFAULT_DEVICE_ID
    && WIFI_SSID in f.state && |f.state[WIFI_SSID]| == name
  }

  /** A safe fan can be polled exactly while its network name has at most 189 bytes. */
  lemma PollsExactly(f: Fan, pwd: Bytes, name: nat, now: Now, table: NudgeTable)
    requires Answering(f, pwd, name) && SaneTable(table)
    ensures Polls(f, pwd, now, table) <==> name <= MAX_SSID
  {
    hide Poll, Build;
    AloneIsReachable(f);
    PollIsComplete(Client(f.id, pwd), [f], 0, now, table);
    PolledStateDecodes(Client(f.id, pwd), [f], 0, now, table);
  }

  lemma AloneIsReachable(f: Fan)
    requires Safe(f) && f.id != Decimal.DEFAULT_DEVICE_ID
    ensures Reachable([f])
  {
  }

  ghost predicate InBounds(ws: seq<Entry>) {
    forall e :: e in ws ==> IsSetting(e.code) && InRange(e.code, e.value) && |e.value| < 256
  }

  lemma {:induction false} SettingsKeepAnswering(f: Fan, pwd: Bytes, name: nat, ws: seq<Entry>)
    requires Answering(f, pwd, name) && InBounds(ws)
    ensures Answering(SetAll(f, ws), pwd, name)
    decreases |ws|
  {
    if ws != [] {
      var e := ws[0];
      assert e in ws;
      SetKeepsSafe(f, e.code, e.value);
      hide Safe, InRange;
      SettingsKeepAnswering(f.Set(e.code, e.value), pwd, name, ws[1..]);
    }
  }

  ghost predicate AllInBounds(wss: seq<seq<Entry>>) { forall i :: 0 <= i < |wss| ==> InBounds(wss[i]) }

  lemma OpSucceeds(c: Client, r: Result<Op>, ws: seq<Entry>, f: Fan, now: Now, table: NudgeTable)
    requires Sets(r, ws) && r.value.Write? && Frame.ValidCredentials(c.id, c.pwd)
    ensures Direct(c, r.value, f, now, table).result == Ok(map[])
  {
    hide DirectWrite;
    assert ws[0] in ws;
    if |ws| == 1 {
      assert ws == [ws[0]];
      OneEntrySize(ws[0]);
    } else {
      assert ws == [ws[0], ws[1]] && ws[1] in ws;
      TwoEntrySize(ws[0], ws[1]);
    }
    hide EncodeItems;
  }

  ghost predicate PlainWrites(ops: seq<Result<Op>>) { forall i :: 0 <= i < |ops| ==> ops[i].Ok? && ops[i].value.Write? }

  /** The web route does the same on a fan that can be polled, and stops after its first write on one that cannot. */
  lemma {:induction false} WebRouteSets(f: Fan, pwd: Bytes, ops: seq<Result<Op>>, wss: seq<seq<Entry>>, name: nat,
                                        now: Now, table: NudgeTable)
    requires AllSet(ops, wss) && PlainWrites(ops) && AllInBounds(wss)
    requires Answering(f, pwd, name) && SaneTable(table)
    ensures ApplyUntilError(f, pwd, ops, now, table)
         == if ops == [] then f else if name <= MAX_SSID then SetAll(f, Flat(wss)) else SetAll(f, wss[0])
    decreases |ops|
  {
    if ops != [] {
      var c, g := Client(f.id, pwd), SetAll(f, wss[0]);
      OpSets(c, ops[0], wss[0], f, now, table);
      OpSucceeds(c, ops[0], wss[0], f, now, table);
      SettingsKeepAnswering(f, pwd, name, wss[0]);
      hide Direct, Answering, Polls, Sets, InBounds;
      PollsExactly(g, pwd, name, now, table);
      SetAllKeepsId(f, wss[0]);
      WebRouteSets(g, pwd, ops[1..], wss[1..], name, now, table);
      SetAllConcat(f, wss[0], Flat(wss[1..]));
      assert ops[1..] == [] ==> Flat(wss[1..]) == [];
    }
  }

  // ---------------------------------------------------------------------------
  // Capture, then apply
  // ---------------------------------------------------------------------------

  /** The parameters a scenario carries over from a fan with the given speed. */
  predicate Carried(c: Code, speed: byte) {
    c in {POWER, SPEED, OPERATION_MODE, BOOST_STATUS, HUMIDITY_SENSOR, HUMIDITY_THRESHOLD}
    || (c == MANUAL_SPEED && speed == 255)
  }

  /** `b` with every carried parameter as `a` holds it, and nothing else changed. */
  function Overlaid(a: map<Code, Bytes>, b: map<Code, Bytes>): map<Code, Bytes>
    requires SPEED in a && a[SPEED] != []
  {
    b + (map c | c in a && Carried(c, a[SPEED][0]) :: a[c])
  }

  /** The bounds the commands accept settings in. */
  ghost predicate Acceptable(s: map<Code, Bytes>)
    requires HasSettings(s)
  {
    && s[POWER][0] <= 1 && s[BOOST_STATUS][0] <= 1
    && s[SPEED][0] in {1, 2, 3, 255}
    && s[OPERATION_MODE][0] <= 2 && s[HUMIDITY_SENSOR][0] <= 2
    && 40 <= s[HUMIDITY_THRESHOLD][0] <= 80
  }

  /** The settings of a safe fan are held and in bounds. */
  lemma SettingsOf(f: Fan)
    requires Safe(f)
    ensures HasSettings(f.state) && Acceptable(f.state)
  {
  }

  function Captured(f: Fan): Settings {
    var s := Build(Visible(f.state));
    if s.Ok? then Capture(s.value) else Settings(None, None, None, None, None, None, None)
  }

  function SettingsIn(s: map<Code, Bytes>): Settings
    requires HasSettings(s)
  {
    Settings(Some(s[POWER][0] != 0), Some(s[SPEED][0]), Some(s[MANUAL_SPEED][0]), Some(s[OPERATION_MODE][0]),
             Some(s[BOOST_STATUS][0] != 0), Some(s[HUMIDITY_SENSOR][0]), Some(s[HUMIDITY_THRESHOLD][0]))
  }

  /** The settings captured from a safe fan, in terms of its parameters. */
  lemma CapturedValues(f: Fan)
    requires Safe(f)
    ensures HasSettings(f.state)
    ensures Captured(f) == SettingsIn(f.state)
  {
    SettingsOf(f);
    SafeIsWellHeld(f);
    CompleteStateDecodes(f.state);
    hide Safe, WellHeld, Build, Visible, NetworkOf, TheText, TheWord, TheBytes, Held, Width;
    hide TimeOf, TimerOf, FilterOf, MachineOf, FirmwareOf, CalendarOf;
  }

  lemma IntSets(p: Param, n: byte)
    requires Settable(Entry(p, [n]))
    ensures Sets(WriteInt(p, n), [Entry(p, [n])])
    ensures FromInt(p, n) == Ok(Entry(p, [n]))
  {
    SmallInts(n);
    assert Width(p) == 1;
  }

  /** The writes by which a route sets speed: the preset, or manual mode with its value. */
  function NativeSpeed(s: map<Code, Bytes>): seq<Entry>
    requires HasSettings(s)
  {
    if s[SPEED] == [255] then [Entry(SPEED, [255]), Entry(MANUAL_SPEED, s[MANUAL_SPEED])] else [Entry(SPEED, s[SPEED])]
  }

  function WebSpeedWrites(s: map<Code, Bytes>): seq<Entry>
    requires HasSettings(s)
  {
    if s[SPEED] == [255] && 1 <= s[MANUAL_SPEED][0] <= 3 then [Entry(SPEED, s[MANUAL_SPEED])] else NativeSpeed(s)
  }

  /** All writes of a scenario captured from a fan holding `s`, given those for the speed. */
  function RouteWrites(s: map<Code, Bytes>, speed: seq<Entry>): seq<seq<Entry>>
    requires HasSettings(s)
  {
    [[Entry(POWER, s[POWER])], speed, [Entry(OPERATION_MODE, s[OPERATION_MODE])],
     [Entry(BOOST_STATUS, s[BOOST_STATUS])], [Entry(HUMIDITY_SENSOR, s[HUMIDITY_SENSOR])],
     [Entry(HUMIDITY_THRESHOLD, s[HUMIDITY_THRESHOLD])]]
  }

  /** The one byte of a setting. */
  lemma OneByteIs(v: Bytes)
    requires |v| == 1
    ensures v == [v[0]]
  {
  }

  lemma CommandSets(cmd: Command, v: Bytes)
    requires |v| == 1
    requires (cmd == TurnOn && v == [1]) || (cmd == TurnOff && v == [0])
          || (cmd == SetSpeed(v[0]) && 1 <= v[0] <= 3) || (cmd == SetMode(v[0]) && v[0] <= 2)
          || (cmd.SetBoostStatus? && v == [Bit(cmd.on)])
          || (cmd == SetHumiditySensor(v[0]) && v[0] <= 2) || (cmd == SetHumidityThreshold(v[0]) && 40 <= v[0] <= 80)
    ensures var p := if cmd.TurnOn? || cmd.TurnOff? then POWER else if cmd.SetSpeed? then SPEED
                     else if cmd.SetMode? then OPERATION_MODE else if cmd.SetBoostStatus? then BOOST_STATUS
                     else if cmd.SetHumiditySensor? then HUMIDITY_SENSOR else HUMIDITY_THRESHOLD;
            Sets(CommandOp(cmd), [Entry(p, v)])
  {
    OneByteIs(v);
    hide FromInt, WriteInt, IsParam, Sets;
    match cmd {
      case TurnOn => IntSets(POWER, 1);
      case TurnOff => IntSets(POWER, 0);
      case SetSpeed(n) => IntSets(SPEED, n);
      case SetMode(n) => IntSets(OPERATION_MODE, n);
      case SetHumiditySensor(n) => IntSets(HUMIDITY_SENSOR, n);
      case SetHumidityThreshold(n) => IntSets(HUMIDITY_THRESHOLD, n);
      case SetBoostStatus(on) => BoostSets(on);
      case _ =>
    }
  }

  lemma BoostSets(on: bool)
    ensures Sets(CommandOp(SetBoostStatus(on)), [Entry(BOOST_STATUS, [Bit(on)])])
    ensures Sets(WriteInt(BOOST_STATUS, Bit(on)), [Entry(BOOST_STATUS, [Bit(on)])])
  {
    IntSets(BOOST_STATUS, Bit(on));
    hide FromInt, IsParam;
  }

  lemma ManualSets(n: byte)
    ensures Sets(CommandOp(SetManualSpeed(n)), [Entry(SPEED, [255]), Entry(MANUAL_SPEED, [n])])
  {
    IntSets(SPEED, 255);
    IntSets(MANUAL_SPEED, n);
    hide FromInt, IsParam;
  }

  lemma PowerSets(v: Bytes)
    requires |v| == 1 && v[0] <= 1
    ensures Sets(CommandOp(Power(v[0] != 0)), [Entry(POWER, v)])
  {
    hide Sets, CommandOp;
    CommandSets(Power(v[0] != 0), v);
  }

  lemma BoostCommandSets(v: Bytes)
    requires |v| == 1 && v[0] <= 1
    ensures Sets(CommandOp(SetBoostStatus(v[0] != 0)), [Entry(BOOST_STATUS, v)])
    ensures Sets(WriteInt(BOOST_STATUS, Bit(v[0] != 0)), [Entry(BOOST_STATUS, v)])
  {
    BoostSets(v[0] != 0);
    assert v == [Bit(v[0] != 0)];
  }

  lemma NativeSpeedSets(s: map<Code, Bytes>)
    requires HasSettings(s)
    requires s[SPEED][0] in {1, 2, 3, 255}
    ensures Sets(CommandOp(if s[SPEED][0] != 255 then SetSpeed(s[SPEED][0]) else SetManualSpeed(s[MANUAL_SPEED][0])),
                 NativeSpeed(s))
  {
    hide Sets, CommandOp;
    if s[SPEED][0] != 255 {
      CommandSets(SetSpeed(s[SPEED][0]), s[SPEED]);
    } else {
      ManualSets(s[MANUAL_SPEED][0]);
      OneByteIs(s[MANUAL_SPEED]);
    }
  }

  lemma WebSpeedSets(s: map<Code, Bytes>)
    requires HasSettings(s)
    requires s[SPEED][0] in {1, 2, 3, 255}
    ensures Sets(WebSpeed(if s[SPEED][0] == 255 then s[MANUAL_SPEED][0] else s[SPEED][0]), WebSpeedWrites(s))
  {
    hide Sets, CommandOp;
    if s[SPEED][0] != 255 {
      CommandSets(SetSpeed(s[SPEED][0]), s[SPEED]);
    } else if 1 <= s[MANUAL_SPEED][0] <= 3 {
      CommandSets(SetSpeed(s[MANUAL_SPEED][0]), s[MANUAL_SPEED]);
    } else {
      ManualSets(s[MANUAL_SPEED][0]);
      OneByteIs(s[MANUAL_SPEED]);
    }
  }

  lemma NativeShape(s: Settings)
    requires s.power.Some? && s.speed.Some? && s.manualSpeed.Some? && s.operationMode.Some? && s.boostActive.Some?
    requires s.humiditySensor.Some? && s.humidityThreshold.Some?
    ensures NativeCommands(s) == [
      Power(s.power.value),
      if s.speed.value != 255 then SetSpeed(U8(s.speed.value)) else SetManualSpeed(U8(s.manualSpeed.value)),
      SetMode(U8(s.operationMode.value)), SetBoostStatus(s.boostActive.value),
      SetHumiditySensor(U8(s.humiditySensor.value)), SetHumidityThreshold(U8(s.humidityThreshold.value))]
  {
  }

  lemma WebShape(s: Settings)
    requires s.power.Some? && s.speed.Some? && s.manualSpeed.Some? && s.operationMode.Some? && s.boostActive.Some?
    requires s.humiditySensor.Some? && s.humidityThreshold.Some?
    requires 0 <= s.operationMode.value <= 255 && 0 <= s.humiditySensor.value <= 255
    requires 0 <= s.humidityThreshold.value <= 255
    ensures WebOps(s) == [
      CommandOp(Power(s.power.value)),
      WebSpeed(if s.speed.value == 255 then s.manualSpeed.value else s.speed.value),
      CommandOp(SetMode(s.operationMode.value)), WriteInt(BOOST_STATUS, Bit(s.boostActive.value)),
      CommandOp(SetHumiditySensor(s.humiditySensor.value)), CommandOp(SetHumidityThreshold(s.humidityThreshold.value))]
  {
  }

  lemma OpsOfSix(c0: Command, c1: Command, c2: Command, c3: Command, c4: Command, c5: Command)
    ensures OpsOf([c0, c1, c2, c3, c4, c5])
         == [CommandOp(c0), CommandOp(c1), CommandOp(c2), CommandOp(c3), CommandOp(c4), CommandOp(c5)]
  {
  }

  lemma SixSet(o0: Result<Op>, o1: Result<Op>, o2: Result<Op>, o3: Result<Op>, o4: Result<Op>, o5: Result<Op>,
               w0: seq<Entry>, w1: seq<Entry>, w2: seq<Entry>, w3: seq<Entry>, w4: seq<Entry>, w5: seq<Entry>)
    requires Sets(o0, w0) && Sets(o1, w1) && Sets(o2, w2) && Sets(o3, w3) && Sets(o4, w4) && Sets(o5, w5)
    ensures AllSet([o0, o1, o2, o3, o4, o5], [w0, w1, w2, w3, w4, w5])
  {
  }

  /** The speed command of captured settings. */
  function CapturedSpeed(s: map<Code, Bytes>): Command
    requires HasSettings(s)
  {
    if s[SPEED][0] != 255 then SetSpeed(s[SPEED][0]) else SetManualSpeed(s[MANUAL_SPEED][0])
  }

  lemma NativeListed(s: map<Code, Bytes>)
    requires HasSettings(s)
    ensures NativeCommands(SettingsIn(s)) == [
      Power(s[POWER][0] != 0), CapturedSpeed(s), SetMode(s[OPERATION_MODE][0]), SetBoostStatus(s[BOOST_STATUS][0] != 0),
      SetHumiditySensor(s[HUMIDITY_SENSOR][0]), SetHumidityThreshold(s[HUMIDITY_THRESHOLD][0])]
  {
    NativeShape(SettingsIn(s));
    hide NativeCommands, HasSettings;
  }

  /** The native route's operations for captured settings perform exactly the captured writes. */
  lemma NativeOpsSet(s: map<Code, Bytes>)
    requires HasSettings(s) && Acceptable(s)
    ensures AllSet(OpsOf(NativeCommands(SettingsIn(s))), RouteWrites(s, NativeSpeed(s)))
  {
    var power, boost, speed := Power(s[POWER][0] != 0), SetBoostStatus(s[BOOST_STATUS][0] != 0), CapturedSpeed(s);
    var mode, sensor := SetMode(s[OPERATION_MODE][0]), SetHumiditySensor(s[HUMIDITY_SENSOR][0]);
    var threshold := SetHumidityThreshold(s[HUMIDITY_THRESHOLD][0]);
    NativeListed(s);
    hide Sets, CommandOp, NativeCommands, OpsOf, NativeSpeed, WriteInt, AllSet, SettingsIn;
    PowerSets(s[POWER]);
    NativeSpeedSets(s);
    BoostCommandSets(s[BOOST_STATUS]);
    CommandSets(mode, s[OPERATION_MODE]);
    CommandSets(sensor, s[HUMIDITY_SENSOR]);
    CommandSets(threshold, s[HUMIDITY_THRESHOLD]);
    OpsOfSix(power, speed, mode, boost, sensor, threshold);
    SixSet(CommandOp(power), CommandOp(speed), CommandOp(mode), CommandOp(boost), CommandOp(sensor),
           CommandOp(threshold), [Entry(POWER, s[POWER])], NativeSpeed(s), [Entry(OPERATION_MODE, s[OPERATION_MODE])],
           [Entry(BOOST_STATUS, s[BOOST_STATUS])], [Entry(HUMIDITY_SENSOR, s[HUMIDITY_SENSOR])],
           [Entry(HUMIDITY_THRESHOLD, s[HUMIDITY_THRESHOLD])]);
  }

  ghost predicate PlainPart(part: Option<Result<Op>>) { part.Some? && part.value.Ok? ==> part.value.value.Write? }

  lemma PartsArePlain(s: Settings)
    ensures PlainPart(PowerOp(s)) && PlainPart(SpeedOp(s)) && PlainPart(ModeOp(s))
    ensures PlainPart(BoostOp(s)) && PlainPart(SensorOp(s)) && PlainPart(ThresholdOp(s))
  {
  }

  /** Operations that are plain writes, when they are accepted at all. */
  ghost predicate PlainIfAny(ops: seq<Result<Op>>) { forall i :: 0 <= i < |ops| && ops[i].Ok? ==> ops[i].value.Write? }

  lemma PlainOnly(part: Option<Result<Op>>, rest: seq<Result<Op>>)
    requires PlainPart(part) && PlainIfAny(rest)
    ensures PlainIfAny(Only(part) + rest)
  {
  }

  lemma WebOpsAreWrites(s: Settings)
    ensures PlainIfAny(WebOps(s))
  {
    PartsArePlain(s);
    hide PowerOp, SpeedOp, ModeOp, BoostOp, SensorOp, ThresholdOp, Only, PlainIfAny, PlainPart;
    var t := Only(ThresholdOp(s));
    assert t + [] == t;
    assert PlainIfAny([]) by { NothingIsPlain(); }
    PlainOnly(ThresholdOp(s), []);
    PlainOnly(SensorOp(s), t);
    PlainOnly(BoostOp(s), Only(SensorOp(s)) + t);
    PlainOnly(ModeOp(s), Only(BoostOp(s)) + (Only(SensorOp(s)) + t));
    PlainOnly(SpeedOp(s), Only(ModeOp(s)) + (Only(BoostOp(s)) + (Only(SensorOp(s)) + t)));
    PlainOnly(PowerOp(s), Only(SpeedOp(s)) + (Only(ModeOp(s)) + (Only(BoostOp(s)) + (Only(SensorOp(s)) + t))));
  }

  lemma NothingIsPlain()
    ensures PlainIfAny([])
  {
  }

  lemma AllSetAreWrites(ops: seq<Result<Op>>, wss: seq<seq<Entry>>)
    requires AllSet(ops, wss) && PlainIfAny(ops)
    ensures PlainWrites(ops)
  {
  }

  lemma WebOpsSet(s: map<Code, Bytes>)
    requires HasSettings(s) && Acceptable(s)
    ensures AllSet(WebOps(SettingsIn(s)), RouteWrites(s, WebSpeedWrites(s)))
  {
    var power, boost := CommandOp(Power(s[POWER][0] != 0)), WriteInt(BOOST_STATUS, Bit(s[BOOST_STATUS][0] != 0));
    var speed := WebSpeed(if s[SPEED][0] == 255 then s[MANUAL_SPEED][0] else s[SPEED][0]);
    var mode, sensor := SetMode(s[OPERATION_MODE][0]), SetHumiditySensor(s[HUMIDITY_SENSOR][0]);
    var threshold := SetHumidityThreshold(s[HUMIDITY_THRESHOLD][0]);
    WebShape(SettingsIn(s));
    assert WebOps(SettingsIn(s))
        == [power, speed, CommandOp(mode), boost, CommandOp(sensor), CommandOp(threshold)];
    hide Sets, CommandOp, WriteInt, WebSpeed, WebOps, WebSpeedWrites, AllSet;
    PowerSets(s[POWER]);
    WebSpeedSets(s);
    BoostCommandSets(s[BOOST_STATUS]);
    CommandSets(mode, s[OPERATION_MODE]);
    CommandSets(sensor, s[HUMIDITY_SENSOR]);
    CommandSets(threshold, s[HUMIDITY_THRESHOLD]);
    SixSet(power, speed, CommandOp(mode), boost, CommandOp(sensor), CommandOp(threshold),
           [Entry(POWER, s[POWER])], WebSpeedWrites(s), [Entry(OPERATION_MODE, s[OPERATION_MODE])],
           [Entry(BOOST_STATUS, s[BOOST_STATUS])], [Entry(HUMIDITY_SENSOR, s[HUMIDITY_SENSOR])],
           [Entry(HUMIDITY_THRESHOLD, s[HUMIDITY_THRESHOLD])]);
  }

  /** What the commands after the speed command leave. */
  function AfterSpeed(f: Fan, s: map<Code, Bytes>): Fan
    requires HasSettings(s)
  {
    f.Set(OPERATION_MODE, s[OPERATION_MODE]).Set(BOOST_STATUS, s[BOOST_STATUS])
      .Set(HUMIDITY_SENSOR, s[HUMIDITY_SENSOR]).Set(HUMIDITY_THRESHOLD, s[HUMIDITY_THRESHOLD])
  }

  /** The flat list of a route's writes, and the state they leave. */
  lemma RouteEffect(b: Fan, s: map<Code, Bytes>, speed: seq<Entry>)
    requires HasSettings(s)
    ensures SetAll(b, Flat(RouteWrites(s, speed)))
         == AfterSpeed(SetAll(b.Set(POWER, s[POWER]), speed), s)
  {
    var m, o := Entry(OPERATION_MODE, s[OPERATION_MODE]), Entry(BOOST_STATUS, s[BOOST_STATUS]);
    var h, t := Entry(HUMIDITY_SENSOR, s[HUMIDITY_SENSOR]), Entry(HUMIDITY_THRESHOLD, s[HUMIDITY_THRESHOLD]);
    var p := Entry(POWER, s[POWER]);
    FlatSix(p, speed, m, o, h, t);
    hide SetAll, Flat, RouteWrites;
    assert RouteWrites(s, speed) == [[p], speed, [m], [o], [h], [t]] by { RouteWritesIs(s, speed); }
    SetOne(b, p, speed + [m, o, h, t]);
    SetAllConcat(b.Set(POWER, s[POWER]), speed, [m, o, h, t]);
    SetFour(SetAll(b.Set(POWER, s[POWER]), speed), m, o, h, t);
  }

  lemma RouteWritesIs(s: map<Code, Bytes>, speed: seq<Entry>)
    requires HasSettings(s)
    ensures RouteWrites(s, speed) == [
      [Entry(POWER, s[POWER])], speed, [Entry(OPERATION_MODE, s[OPERATION_MODE])],
      [Entry(BOOST_STATUS, s[BOOST_STATUS])], [Entry(HUMIDITY_SENSOR, s[HUMIDITY_SENSOR])],
      [Entry(HUMIDITY_THRESHOLD, s[HUMIDITY_THRESHOLD])]]
  {
  }

  lemma FlatSix(p: Entry, speed: seq<Entry>, m: Entry, o: Entry, h: Entry, t: Entry)
    ensures Flat([[p], speed, [m], [o], [h], [t]]) == [p] + (speed + [m, o, h, t])
  {
    assert [[p], speed, [m], [o], [h], [t]][1..] == [speed, [m], [o], [h], [t]];
    assert [speed, [m], [o], [h], [t]][1..] == [[m], [o], [h], [t]];
    assert [[m], [o], [h], [t]][1..] == [[o], [h], [t]];
    assert [[o], [h], [t]][1..] == [[h], [t]];
    assert [[h], [t]][1..] == [[t]];
    assert [[t]][1..] == [];
    assert Flat([[t]]) == [t] + Flat([]) == [t];
    assert Flat([[h], [t]]) == [h] + Flat([[t]]) == [h, t];
    assert Flat([[o], [h], [t]]) == [o] + Flat([[h], [t]]) == [o, h, t];
    assert Flat([[m], [o], [h], [t]]) == [m] + Flat([[o], [h], [t]]) == [m, o, h, t];
  }

  lemma SetOne(f: Fan, e: Entry, rest: seq<Entry>)
    ensures SetAll(f, [e] + rest) == SetAll(f.Set(e.code, e.value), rest)
  {
  }

  lemma SetFour(f: Fan, m: Entry, o: Entry, h: Entry, t: Entry)
    ensures SetAll(f, [m, o, h, t])
         == f.Set(m.code, m.value).Set(o.code, o.value).Set(h.code, h.value).Set(t.code, t.value)
  {
    SetAllConcat(f, [m, o], [h, t]);
    assert [m, o] + [h, t] == [m, o, h, t];
    SetBoth(f, m, o);
    SetBoth(f.Set(m.code, m.value).Set(o.code, o.value), h, t);
  }

  /** A client that may talk to the fan. */
  predicate MayTalk(f: Fan, pwd: Bytes) { Frame.ValidCredentials(f.id, pwd) }

  function ApplyNative(a: Fan, b: Fan, pwd: Bytes, now: Now, table: NudgeTable): Fan {
    ApplyAll(b, pwd, OpsOf(NativeCommands(Captured(a))), now, table)
  }

  function ApplyWeb(a: Fan, b: Fan, pwd: Bytes, now: Now, table: NudgeTable): Fan {
    ApplyUntilError(b, pwd, WebOps(Captured(a)), now, table)
  }

  lemma SpeedEffect(f: Fan, s: map<Code, Bytes>)
    requires HasSettings(s)
    ensures SetAll(f, NativeSpeed(s))
         == if s[SPEED][0] == 255 then f.Set(SPEED, s[SPEED]).Set(MANUAL_SPEED, s[MANUAL_SPEED])
            else f.Set(SPEED, s[SPEED])
    ensures SetAll(f, WebSpeedWrites(s))
         == if s[SPEED][0] == 255 && 1 <= s[MANUAL_SPEED][0] <= 3 then f.Set(SPEED, s[MANUAL_SPEED])
            else SetAll(f, NativeSpeed(s))
  {
    OneByteIs(s[SPEED]);
    SetBoth(f, Entry(SPEED, [255]), Entry(MANUAL_SPEED, s[MANUAL_SPEED]));
    SetOne(f, Entry(SPEED, s[SPEED]), []);
    SetOne(f, Entry(SPEED, s[MANUAL_SPEED]), []);
    assert [Entry(SPEED, s[SPEED])] + [] == [Entry(SPEED, s[SPEED])];
    assert [Entry(SPEED, s[MANUAL_SPEED])] + [] == [Entry(SPEED, s[MANUAL_SPEED])];
  }

  /** The native route writes the power, then its speed writes, then the other four settings. */
  lemma NativeResult(a: Fan, b: Fan, pwd: Bytes, now: Now, table: NudgeTable)
    requires Safe(a) && MayTalk(b, pwd)
    ensures HasSettings(a.state)
    ensures ApplyNative(a, b, pwd, now, table)
         == AfterSpeed(SetAll(b.Set(POWER, a.state[POWER]), NativeSpeed(a.state)), a.state)
  {
    CapturedValues(a);
    SettingsOf(a);
    hide Safe, OpsOf, NativeCommands, Captured, RouteWrites, SetAll, Flat, ApplyAll, Sets;
    hide NativeSpeed, AfterSpeed, SettingsIn, AllSet, MayTalk;
    NativeOpsSet(a.state);
    assert Frame.ValidCredentials(b.id, pwd) by { Talks(b, pwd); }
    NativeRouteSets(b, pwd, OpsOf(NativeCommands(Captured(a))), RouteWrites(a.state, NativeSpeed(a.state)), now, table);
    RouteEffect(b, a.state, NativeSpeed(a.state));
  }

  lemma Talks(f: Fan, pwd: Bytes)
    requires MayTalk(f, pwd)
    ensures Frame.ValidCredentials(f.id, pwd)
  {
  }

  lemma RouteInBounds(s: map<Code, Bytes>)
    requires HasSettings(s) && Acceptable(s)
    ensures AllInBounds(RouteWrites(s, WebSpeedWrites(s)))
  {
  }

  /** So does the web route on a fan that can be polled; on any other it writes the power only. */
  lemma WebResult(a: Fan, b: Fan, pwd: Bytes, name: nat, now: Now, table: NudgeTable)
    requires Safe(a) && Answering(b, pwd, name) && SaneTable(table)
    ensures HasSettings(a.state)
    ensures ApplyWeb(a, b, pwd, now, table)
         == if name > MAX_SSID then b.Set(POWER, a.state[POWER])
            else AfterSpeed(SetAll(b.Set(POWER, a.state[POWER]), WebSpeedWrites(a.state)), a.state)
  {
    CapturedValues(a);
    SettingsOf(a);
    var s := a.state;
    var wss := RouteWrites(s, WebSpeedWrites(s));
    WebOpsSet(s);
    WebOpsAreWrites(SettingsIn(s));
    AllSetAreWrites(WebOps(SettingsIn(s)), wss);
    RouteInBounds(s);
    RouteWritesIs(s, WebSpeedWrites(s));
    SetOne(b, Entry(POWER, s[POWER]), []);
    assert [Entry(POWER, s[POWER])] + [] == [Entry(POWER, s[POWER])];
    assert SetAll(b.Set(POWER, s[POWER]), []) == b.Set(POWER, s[POWER]);
    hide Safe, Captured, RouteWrites, SetAll, Flat, ApplyUntilError, WebOps, Sets, Answering, AllInBounds, PlainWrites;
    hide WebSpeedWrites, AfterSpeed, SettingsIn, AllSet;
    WebRouteSets(b, pwd, WebOps(Captured(a)), wss, name, now, table);
    RouteEffect(b, s, WebSpeedWrites(s));
  }

  /**
   * Applying what was captured from one safe fan to any fan makes the captured settings equal, manual
   * speed among them exactly in manual mode, and changes nothing else.
   */
  lemma CaptureThenApply(a: Fan, b: Fan, pwd: Bytes, now: Now, table: NudgeTable)
    requires Safe(a) && MayTalk(b, pwd)
    ensures HasSettings(a.state)
    ensures ApplyNative(a, b, pwd, now, table) == b.(state := Overlaid(a.state, b.state))
  {
    NativeResult(a, b, pwd, now, table);
    SpeedEffect(b.Set(POWER, a.state[POWER]), a.state);
    hide Safe, MayTalk, SetAll, ApplyNative, Overlaid, NativeSpeed, HasSettings;
    OverlayIsSettings(a.state, b);
  }

  lemma OverlayIsSettings(s: map<Code, Bytes>, b: Fan)
    requires HasSettings(s)
    ensures var p := b.Set(POWER, s[POWER]);
            var v := if s[SPEED][0] == 255 then p.Set(SPEED, s[SPEED]).Set(MANUAL_SPEED, s[MANUAL_SPEED])
                     else p.Set(SPEED, s[SPEED]);
            v.Set(OPERATION_MODE, s[OPERATION_MODE]).Set(BOOST_STATUS, s[BOOST_STATUS])
              .Set(HUMIDITY_SENSOR, s[HUMIDITY_SENSOR]).Set(HUMIDITY_THRESHOLD, s[HUMIDITY_THRESHOLD])
            == b.(state := Overlaid(s, b.state))
  {
    var m := b.state[POWER := s[POWER]][SPEED := s[SPEED]];
    var n := if s[SPEED][0] == 255 then m[MANUAL_SPEED := s[MANUAL_SPEED]] else m;
    var r := n[OPERATION_MODE := s[OPERATION_MODE]][BOOST_STATUS := s[BOOST_STATUS]]
              [HUMIDITY_SENSOR := s[HUMIDITY_SENSOR]][HUMIDITY_THRESHOLD := s[HUMIDITY_THRESHOLD]];
    assert r == Overlaid(s, b.state);
  }

  /** Applying the same scenario again changes nothing. */
  lemma ApplyIsIdempotent(a: Fan, b: Fan, pwd: Bytes, now: Now, now': Now, table: NudgeTable)
    requires Safe(a) && MayTalk(b, pwd)
    ensures var once := ApplyNative(a, b, pwd, now, table); ApplyNative(a, once, pwd, now', table) == once
  {
    CaptureThenApply(a, b, pwd, now, table);
    var once := ApplyNative(a, b, pwd, now, table);
    CaptureThenApply(a, once, pwd, now', table);
    hide Safe, ApplyNative;
    assert Overlaid(a.state, Overlaid(a.state, b.state)) == Overlaid(a.state, b.state);
  }

  /** The captured settings as the dashboard sends them: a manual speed of 1, 2 or 3 becomes a preset. */
  function AsPreset(s: map<Code, Bytes>): (r: map<Code, Bytes>)
    requires HasSettings(s)
    ensures HasSettings(r)
  {
    if SentAsPreset(s) then s[SPEED := s[MANUAL_SPEED]] else s
  }

  predicate SentAsPreset(s: map<Code, Bytes>)
    requires HasSettings(s)
  {
    s[SPEED][0] == 255 && 1 <= s[MANUAL_SPEED][0] <= 3
  }

  /**
   * What the dashboard makes of captured settings: on a fan that can be polled it overlays them, a manual
   * speed of 1, 2 or 3 as a preset. On a fan with a longer network name the poll after the first command
   * fails, and of all settings only the power is applied.
   */
  lemma CaptureThenApplyWeb(a: Fan, b: Fan, pwd: Bytes, name: nat, now: Now, table: NudgeTable)
    requires Safe(a) && Answering(b, pwd, name) && SaneTable(table)
    ensures HasSettings(a.state)
    ensures ApplyWeb(a, b, pwd, now, table)
         == if name > MAX_SSID then b.Set(POWER, a.state[POWER])
            else b.(state := Overlaid(AsPreset(a.state), b.state))
  {
    hide Safe, Answering, ApplyWeb, Overlaid;
    WebResult(a, b, pwd, name, now, table);
    var s := a.state;
    WebOverlay(s, b);
  }

  lemma WebOverlay(s: map<Code, Bytes>, b: Fan)
    requires HasSettings(s)
    ensures AfterSpeed(SetAll(b.Set(POWER, s[POWER]), WebSpeedWrites(s)), s)
         == b.(state := Overlaid(AsPreset(s), b.state))
  {
    var p := AsPreset(s);
    SpeedEffect(b.Set(POWER, s[POWER]), s);
    hide SetAll, WebSpeedWrites, NativeSpeed, Overlaid;
    OverlayIsSettings(p, b);
  }

  /** The seven settings as a scenario carries them are the same in both states, but perhaps for `except`. */
  ghost predicate SameCarried(p: map<Code, Bytes>, b: map<Code, Bytes>, except: set<Code>)
    requires HasSettings(p) && HasSettings(b)
  {
    forall c: Code :: IsSetting(c) && Carried(c, p[SPEED][0]) && c !in except ==> b[c] == p[c]
  }

  lemma OverlayChangesNothing(p: map<Code, Bytes>, b: map<Code, Bytes>)
    requires HasSettings(p) && HasSettings(b)
    ensures Overlaid(p, b) == b <==> SameCarried(p, b, {})
    ensures Overlaid(p, b) == b[POWER := p[POWER]] <==> SameCarried(p, b, {POWER})
  {
    OverlaidAt(p, b);
    hide Overlaid, Carried;
    var o, q := Overlaid(p, b), b[POWER := p[POWER]];
    assert Carried(POWER, p[SPEED][0]) by { PowerIsCarried(p[SPEED][0]); }
    if SameCarried(p, b, {}) {
      assert o == b;
    }
    if SameCarried(p, b, {POWER}) {
      assert o == q;
    }
  }

  lemma PowerIsCarried(speed: byte)
    ensures Carried(POWER, speed)
  {
  }

  lemma OverlaidAt(p: map<Code, Bytes>, b: map<Code, Bytes>)
    requires HasSettings(p) && HasSettings(b)
    ensures var o := Overlaid(p, b);
            && o.Keys == b.Keys
            && forall c :: c in o ==> o[c] == if IsSetting(c) && Carried(c, p[SPEED][0]) then p[c] else b[c]
  {
    forall c: Code | Carried(c, p[SPEED][0])
      ensures IsSetting(c)
    {
    }
  }

  lemma AnsweringTalks(f: Fan, pwd: Bytes, name: nat)
    requires Answering(f, pwd, name)
    ensures MayTalk(f, pwd)
  {
  }
}
