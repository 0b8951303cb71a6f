/** The client's validated commands and what they keep of a fan over whole runs. */
module Commands {
  import opened Basics
  import opened Params
  import opened Decoders
  import opened FanSpec
  import opened Writes
  import opened Client
  import opened Values
  import MainLoop

  datatype Command =
    | Query(params: seq<Param>)
    | TurnOn
    | TurnOff
    | TogglePower
    | SetSpeed(n: byte)
    | SetManualSpeed(n: byte)
    | SpeedUp
    | SpeedDown
    | SetMode(n: byte)
    | SetBoostStatus(on: bool)
    | SetBoostDelay(n: byte)
    | SetTimerMode(n: byte)
    | SetNightTimer(hours: byte, minutes: byte)
    | SetPartyTimer(hours: byte, minutes: byte)
    | SetHumiditySensor(n: byte)
    | SetHumidityThreshold(n: byte)
    | SetRelaySensor(n: byte)
    | SetVoltageSensor(n: byte)
    | SetVoltageThreshold(n: byte)
    | EnableWeeklySchedule(on: bool)
    | SetSchedulePeriod(day: byte, period: byte, speed: byte, hours: byte, minutes: byte)
    | GetSchedulePeriod(day: byte, period: byte)
    | SetRtc(year: Word, month: byte, day: byte, dayOfWeek: byte, hour: byte, minute: byte, second: byte)
    | ResetFilterTimer
    | ResetAlarms
    | SetWifiClient(ssid: Bytes, password: Bytes, dhcp: bool, encryption: byte,
                    ip: Option<Bytes>, subnet: Option<Bytes>, gateway: Option<Bytes>)
    | SetWifiAp(channel: byte)
    | ApplyWifi
    | DiscardWifi
    | ChangePassword(password: Bytes)
    | SetCloudPermission(on: bool)
    | FactoryReset

  function Bit(on: bool): nat { if on then 1 else 0 }

  function WriteInt(p: Param, n: nat): Result<Op> {
    var e :- FromInt(p, n);
    Ok(Write([e]))
  }

  /** A write of one integer, refused unless the value is within the stated bounds. */
  function Checked(p: Param, n: byte, low: int, high: int): Result<Op> {
    if low <= n <= high then WriteInt(p, n) else Err(Value)
  }

  const DEFAULT_SUBNET: Bytes := [50, 53, 53, 46, 50, 53, 53, 46, 50, 53, 53, 46, 48]

  function Or(o: Option<Bytes>, d: Bytes): Bytes { if o.Some? then o.value else d }

  function AddressEntries(ip: Option<Bytes>, subnet: Option<Bytes>, gateway: Option<Bytes>): Result<seq<Entry>> {
    if ip.None? then Err(Value)
    else
      var i :- ParsedIp(ip.value);
      var s :- ParsedIp(Or(subnet, DEFAULT_SUBNET));
      var g :- ParsedIp(Or(gateway, ip.value));
      Ok([Entry(WIFI_IP, i), Entry(WIFI_SUBNET, s), Entry(WIFI_GATEWAY, g)])
  }

  function WifiClientOp(ssid: Bytes, password: Bytes, dhcp: bool, encryption: byte,
                        ip: Option<Bytes>, subnet: Option<Bytes>, gateway: Option<Bytes>): Result<Op> {
    var mode :- FromInt(WIFI_MODE, 1);
    var enc :- FromInt(WIFI_ENCRYPTION, encryption);
    var dh :- FromInt(WIFI_DHCP, Bit(dhcp));
    var base := [mode, Entry(WIFI_SSID, ssid), Entry(WIFI_PASSWORD, password), enc, dh];
    if dhcp then Ok(Write(base))
    else
      var addresses :- AddressEntries(ip, subnet, gateway);
      Ok(Write(base + addresses))
  }

  /** The operation a command sends, or the error its validation reports. */
  function CommandOp(cmd: Command): Result<Op> {
    match cmd
    case Query(ps) => Ok(Read(ps))
    case TurnOn => WriteInt(POWER, 1)
    case TurnOff => WriteInt(POWER, 0)
    case TogglePower => WriteInt(POWER, 2)
    case SetSpeed(n) => Checked(SPEED, n, 1, 3)
    case SetManualSpeed(n) =>
      var s :- FromInt(SPEED, 255);
      var m :- FromInt(MANUAL_SPEED, n);
      Ok(Write([s, m]))
    case SpeedUp => Ok(Increment([SPEED]))
    case SpeedDown => Ok(Decrement([SPEED]))
    case SetMode(n) => Checked(OPERATION_MODE, n, 0, 2)
    case SetBoostStatus(on) =>
      var e :- FromInt(BOOST_STATUS, Bit(on));
      Ok(WriteResp([e]))
    case SetBoostDelay(n) => Checked(BOOST_DELAY, n, 0, 60)
    case SetTimerMode(n) => Checked(TIMER_MODE, n, 0, 2)
    case SetNightTimer(h, m) => if h <= 23 && m <= 59 then Ok(Write([Entry(NIGHT_TIMER, [m, h])])) else Err(Value)
    case SetPartyTimer(h, m) => if h <= 23 && m <= 59 then Ok(Write([Entry(PARTY_TIMER, [m, h])])) else Err(Value)
    case SetHumiditySensor(n) => Checked(HUMIDITY_SENSOR, n, 0, 2)
    case SetHumidityThreshold(n) => Checked(HUMIDITY_THRESHOLD, n, 40, 80)
    case SetRelaySensor(n) => Checked(RELAY_SENSOR, n, 0, 2)
    case SetVoltageSensor(n) => Checked(VOLTAGE_SENSOR, n, 0, 2)
    case SetVoltageThreshold(n) => Checked(VOLTAGE_THRESHOLD, n, 5, 100)
    case EnableWeeklySchedule(on) => WriteInt(WEEKLY_SCHEDULE_EN, Bit(on))
    case SetSchedulePeriod(day, period, speed, h, m) =>
      if day <= 9 && 1 <= period <= 4 && speed <= 3 && h <= 23 && m <= 59
      then Ok(Write([Entry(SCHEDULE_SETUP, [day, period, speed, 0, m, h])]))
      else Err(Value)
    case GetSchedulePeriod(day, period) =>
      if day <= 9 && 1 <= period <= 4 then Ok(WriteResp([Entry(SCHEDULE_SETUP, [day, period, 0, 0, 0, 0])]))
      else Err(Value)
    case SetRtc(year, month, day, dayOfWeek, hour, minute, second) =>
      var short: byte := year % 100;
      Ok(Write([Entry(RTC_TIME, [second, minute, hour]), Entry(RTC_CALENDAR, [day, dayOfWeek, month, short])]))
    case ResetFilterTimer => WriteInt(FILTER_RESET, 1)
    case ResetAlarms => WriteInt(RESET_ALARMS, 1)
    case SetWifiClient(ssid, password, dhcp, encryption, ip, subnet, gateway) =>
      WifiClientOp(ssid, password, dhcp, encryption, ip, subnet, gateway)
    case SetWifiAp(channel) =>
      if !(1 <= channel <= 13) then Err(Value)
      else
        var mode :- FromInt(WIFI_MODE, 2);
        var ch :- FromInt(WIFI_CHANNEL, channel);
        Ok(Write([mode, ch]))
    case ApplyWifi => WriteInt(WIFI_APPLY, 1)
    case DiscardWifi => WriteInt(WIFI_DISCARD, 1)
    case ChangePassword(p) => if |p| > 8 then Err(Value) else Ok(Write([Entry(DEVICE_PASSWORD, p)]))
    case SetCloudPermission(on) => WriteInt(CLOUD_PERMISSION, Bit(on))
    case FactoryReset => WriteInt(FACTORY_RESET, 1)
  }

  // ---------------------------------------------------------------------------
  // Safety
  // ---------------------------------------------------------------------------

  /** The declared width of a parameter, and the values the commands and ticks may give it. */
  predicate InRange(c: Code, v: Bytes) {
    && (Width(c) > 0 ==> |v| == Width(c))
    && (c == POWER || c == BOOST_STATUS ==> v[0] <= 1)
    && (c == SPEED ==> v[0] in {1, 2, 3, 255})
    && (c == OPERATION_MODE || c == HUMIDITY_SENSOR ==> v[0] <= 2)
    && (c == HUMIDITY_THRESHOLD ==> 40 <= v[0] <= 80)
    && (c == CURRENT_HUMIDITY ==> 30 <= v[0] <= 95)
  }

  ghost predicate Ranged(state: map<Code, Bytes>) { forall c :: c in state ==> InRange(c, state[c]) }

  /** Every parameter a fresh fan holds is still held. */
  ghost predicate Complete(state: map<Code, Bytes>) { forall c: Code :: Held(c) ==> c in state }

  ghost predicate Safe(f: Fan) {
    SoundFan(f) && |f.id| == 16 && Complete(f.state) && Ranged(f.state)
  }

  /** A write the commands may send: a value in range, or the power toggle, and no change of identity. */
  predicate SafeWrite(e: Entry) {
    IsParam(e.code) && !Identifies(e.code) && (e == Entry(POWER, [2]) || InRange(e.code, e.value))
  }

  /** The parameters that say which device this is. */
  predicate Identifies(c: Code) { c == DEVICE_SEARCH || c == UNIT_TYPE }

  ghost predicate SafeOp(op: Op) {
    && WellTyped(op)
    && (op.Write? || op.WriteResp? ==> forall e :: e in op.writes ==> SafeWrite(e))
    && (op.Increment? || op.Decrement? ==> op.params == [SPEED])
  }

  lemma SmallInts(n: byte)
    ensures ToBytes(n, 1) == [n]
  {
  }

  lemma WifiIpsAreFour(ip: Bytes)
    ensures ParsedIp(ip).Ok? ==> |ParsedIp(ip).value| == 4
  {
    if ParsedIp(ip).Ok? {
      ReprintedIpIsSame(ip);
    }
  }

  predicate SafeByte(p: Param, n: byte) {
    Width(p) == 1 && ((p == POWER && n == 2) || InRange(p, [n]))
  }

  lemma OneByte(p: Param, n: byte)
    requires SafeByte(p, n)
    ensures FromInt(p, n) == Ok(Entry(p, [n])) && SafeWrite(Entry(p, [n]))
  {
    SmallInts(n);
    assert IsParam(p);
  }

  lemma OneWrite(p: Param, n: byte)
    requires SafeByte(p, n)
    ensures WriteInt(p, n).Ok? && SafeOp(WriteInt(p, n).value)
  {
  }

  /** Every command that passes validation sends writes in range only. */
  lemma CommandsAreSafe(cmd: Command)
    requires CommandOp(cmd).Ok?
    ensures SafeOp(CommandOp(cmd).value)
  {
    if cmd.SetWifiClient? {
      WifiClientIsSafe(cmd);
    } else if cmd.Query? {
      QueryIsSafe(cmd.params);
    } else if cmd.SetManualSpeed? || cmd.SetWifiAp? || cmd.SetBoostStatus? {
      MixedIsSafe(cmd);
    } else if cmd.SetNightTimer? || cmd.SetPartyTimer? || cmd.SetSchedulePeriod? || cmd.GetSchedulePeriod?
           || cmd.SetRtc? || cmd.ChangePassword? {
      BytesAreSafe(cmd);
    } else if cmd.SpeedUp? || cmd.SpeedDown? {
      SpeedSteps();
    } else if Powers(cmd) {
      PowerIsSafe(cmd);
    } else if Enables(cmd) {
      EnableIsSafe(cmd);
    } else if Resets(cmd) {
      ResetIsSafe(cmd);
    } else if Modes(cmd) {
      ModeIsSafe(cmd);
    } else {
      SensorIsSafe(cmd);
    }
  }

  lemma QueryIsSafe(params: seq<Param>)
    ensures SafeOp(Read(params))
  {
  }

  predicate Powers(cmd: Command) { cmd.TurnOn? || cmd.TurnOff? || cmd.TogglePower? }

  predicate Enables(cmd: Command) {
    cmd.EnableWeeklySchedule? || cmd.SetCloudPermission? || cmd.ApplyWifi? || cmd.DiscardWifi?
  }

  predicate Resets(cmd: Command) { cmd.ResetFilterTimer? || cmd.ResetAlarms? || cmd.FactoryReset? }

  predicate Modes(cmd: Command) {
    cmd.SetSpeed? || cmd.SetMode? || cmd.SetBoostDelay? || cmd.SetTimerMode?
  }

  predicate Sensors(cmd: Command) {
    cmd.SetHumiditySensor? || cmd.SetHumidityThreshold? || cmd.SetRelaySensor? || cmd.SetVoltageSensor?
    || cmd.SetVoltageThreshold?
  }

  lemma PowerIsSafe(cmd: Command)
    requires Powers(cmd) && CommandOp(cmd).Ok?
    ensures SafeOp(CommandOp(cmd).value)
  {
    hide WriteInt, SafeOp;
    match cmd {
      case TurnOn => OneWrite(POWER, 1);
      case TurnOff => OneWrite(POWER, 0);
      case TogglePower => OneWrite(POWER, 2);
    }
  }

  lemma EnableIsSafe(cmd: Command)
    requires Enables(cmd) && CommandOp(cmd).Ok?
    ensures SafeOp(CommandOp(cmd).value)
  {
    hide WriteInt, SafeOp;
    match cmd {
      case EnableWeeklySchedule(on) => OneWrite(WEEKLY_SCHEDULE_EN, Bit(on));
      case SetCloudPermission(on) => OneWrite(CLOUD_PERMISSION, Bit(on));
      case ApplyWifi => OneWrite(WIFI_APPLY, 1);
      case DiscardWifi => OneWrite(WIFI_DISCARD, 1);
    }
  }

  lemma ResetIsSafe(cmd: Command)
    requires Resets(cmd) && CommandOp(cmd).Ok?
    ensures SafeOp(CommandOp(cmd).value)
  {
    hide WriteInt, SafeOp;
    match cmd {
      case ResetFilterTimer => OneWrite(FILTER_RESET, 1);
      case ResetAlarms => OneWrite(RESET_ALARMS, 1);
      case FactoryReset => OneWrite(FACTORY_RESET, 1);
    }
  }

  lemma ModeIsSafe(cmd: Command)
    requires Modes(cmd) && CommandOp(cmd).Ok?
    ensures SafeOp(CommandOp(cmd).value)
  {
    hide WriteInt, SafeOp;
    match cmd {
      case SetSpeed(n) => OneWrite(SPEED, n);
      case SetMode(n) => OneWrite(OPERATION_MODE, n);
      case SetBoostDelay(n) => OneWrite(BOOST_DELAY, n);
      case SetTimerMode(n) => OneWrite(TIMER_MODE, n);
    }
  }

  lemma SensorIsSafe(cmd: Command)
    requires Sensors(cmd) && CommandOp(cmd).Ok?
    ensures SafeOp(CommandOp(cmd).value)
  {
    hide WriteInt, SafeOp;
    match cmd {
      case SetHumiditySensor(n) => OneWrite(HUMIDITY_SENSOR, n);
      case SetHumidityThreshold(n) => OneWrite(HUMIDITY_THRESHOLD, n);
      case SetRelaySensor(n) => OneWrite(RELAY_SENSOR, n);
      case SetVoltageSensor(n) => OneWrite(VOLTAGE_SENSOR, n);
      case SetVoltageThreshold(n) => OneWrite(VOLTAGE_THRESHOLD, n);
    }
  }

  lemma SpeedSteps()
    ensures SafeOp(Increment([SPEED])) && SafeOp(Decrement([SPEED]))
  {
  }

  lemma MixedIsSafe(cmd: Command)
    requires CommandOp(cmd).Ok? && (cmd.SetManualSpeed? || cmd.SetWifiAp? || cmd.SetBoostStatus?)
    ensures SafeOp(CommandOp(cmd).value)
  {
    hide FromInt, ToBytes;
    match cmd {
      case SetManualSpeed(n) => OneByte(SPEED, 255); OneByte(MANUAL_SPEED, n);
      case SetWifiAp(channel) => OneByte(WIFI_MODE, 2); OneByte(WIFI_CHANNEL, channel);
      case SetBoostStatus(on) => OneByte(BOOST_STATUS, Bit(on));
    }
  }

  lemma BytesAreSafe(cmd: Command)
    requires CommandOp(cmd).Ok?
    requires cmd.SetNightTimer? || cmd.SetPartyTimer? || cmd.SetSchedulePeriod? || cmd.GetSchedulePeriod?
          || cmd.SetRtc? || cmd.ChangePassword?
    ensures SafeOp(CommandOp(cmd).value)
  {
    hide FromInt, ToBytes, WriteInt;
  }

  lemma WifiClientIsSafe(cmd: Command)
    requires cmd.SetWifiClient? && CommandOp(cmd).Ok?
    ensures SafeOp(CommandOp(cmd).value)
  {
    hide WifiClientOp, SafeOp;
    WifiOpIsSafe(cmd.ssid, cmd.password, cmd.dhcp, cmd.encryption, cmd.ip, cmd.subnet, cmd.gateway);
  }

  lemma WifiOpIsSafe(ssid: Bytes, password: Bytes, dhcp: bool, encryption: byte,
                     ip: Option<Bytes>, subnet: Option<Bytes>, gateway: Option<Bytes>)
    ensures var op := WifiClientOp(ssid, password, dhcp, encryption, ip, subnet, gateway);
            op.Ok? ==> SafeOp(op.value)
  {
    hide IsParam, Width, Bit, FromInt, SafeWrite, SafeOp, AddressEntries, AllSafe;
    WifiBaseIsSafe(ssid, password, encryption, dhcp);
    AddressesAreSafe(ip, subnet, gateway);
    var base := WifiBase(ssid, password, encryption, dhcp);
    SafeWritesMakeSafeOp(base);
    if AddressEntries(ip, subnet, gateway).Ok? {
      SafeTogether(base, AddressEntries(ip, subnet, gateway).value);
      SafeWritesMakeSafeOp(base + AddressEntries(ip, subnet, gateway).value);
    }
  }

  ghost predicate AllSafe(ws: seq<Entry>) { forall i :: 0 <= i < |ws| ==> SafeWrite(ws[i]) }

  lemma SafeTogether(a: seq<Entry>, b: seq<Entry>)
    requires AllSafe(a) && AllSafe(b)
    ensures AllSafe(a + b)
  {
    hide SafeWrite;
  }

  ghost function WifiBase(ssid: Bytes, password: Bytes, encryption: byte, dhcp: bool): seq<Entry> {
    [Entry(WIFI_MODE, [1]), Entry(WIFI_SSID, ssid), Entry(WIFI_PASSWORD, password),
     Entry(WIFI_ENCRYPTION, [encryption]), Entry(WIFI_DHCP, [Bit(dhcp)])]
  }

  lemma WifiBaseIsSafe(ssid: Bytes, password: Bytes, encryption: byte, dhcp: bool)
    ensures FromInt(WIFI_MODE, 1) == Ok(Entry(WIFI_MODE, [1]))
    ensures FromInt(WIFI_ENCRYPTION, encryption) == Ok(Entry(WIFI_ENCRYPTION, [encryption]))
    ensures FromInt(WIFI_DHCP, Bit(dhcp)) == Ok(Entry(WIFI_DHCP, [Bit(dhcp)]))
    ensures AllSafe(WifiBase(ssid, password, encryption, dhcp))
  {
    OneByte(WIFI_MODE, 1);
    OneByte(WIFI_ENCRYPTION, encryption);
    OneByte(WIFI_DHCP, Bit(dhcp));
    TextIsSafe(ssid, password);
    hide FromInt, SafeWrite;
  }

  lemma AddressesAreSafe(ip: Option<Bytes>, subnet: Option<Bytes>, gateway: Option<Bytes>)
    ensures var r := AddressEntries(ip, subnet, gateway);
            r.Ok? ==> AllSafe(r.value)
  {
    hide ParsedIp, SafeWrite, Or;
    if ip.Some? && ParsedIp(ip.value).Ok? && ParsedIp(Or(subnet, DEFAULT_SUBNET)).Ok?
       && ParsedIp(Or(gateway, ip.value)).Ok? {
      IpIsSafe(WIFI_IP, ip.value);
      IpIsSafe(WIFI_SUBNET, Or(subnet, DEFAULT_SUBNET));
      IpIsSafe(WIFI_GATEWAY, Or(gateway, ip.value));
    }
  }

  lemma TextIsSafe(ssid: Bytes, password: Bytes)
    ensures SafeWrite(Entry(WIFI_SSID, ssid)) && SafeWrite(Entry(WIFI_PASSWORD, password))
  {
  }

  lemma IpIsSafe(p: Param, ip: Bytes)
    requires p in {WIFI_IP, WIFI_SUBNET, WIFI_GATEWAY} && ParsedIp(ip).Ok?
    ensures SafeWrite(Entry(p, ParsedIp(ip).value))
  {
    WifiIpsAreFour(ip);
  }

  lemma SafeWritesMakeSafeOp(ws: seq<Entry>)
    requires AllSafe(ws)
    ensures SafeOp(Write(ws))
  {
  }

  lemma InitialIsSafe(index: nat, id: Bytes, unitType: Word, now: Now)
    requires |id| == 16
    ensures Safe(NewFan(index, id, unitType, now))
  {
    var f := NewFan(index, id, unitType, now);
    InitialIsSound(index, id, unitType, now);
    forall c | c in f.state
      ensures InRange(c, f.state[c])
    {
      InitialInRange(c, index, id, unitType, now);
    }
  }

  lemma InitialInRange(c: Code, index: nat, id: Bytes, unitType: Word, now: Now)
    requires |id| == 16 && Held(c)
    ensures InRange(c, Initial(c, id, unitType, VariantOf(index), now))
  {
  }

  lemma WrittenIsRanged(state: map<Code, Bytes>, d: seq<Entry>)
    requires Ranged(state) && forall e :: e in d ==> SafeWrite(e)
    ensures Ranged(Written(state, d))
  {
    hide LastDecider, InRange;
    forall c: Code
      ensures LastDecider(d, c).Some? ==> InRange(c, ValueGiven(LastDecider(d, c).value, c, state))
    {
      LastDeciderMem(d, c);
      if LastDecider(d, c).Some? {
        GivenInRange(LastDecider(d, c).value, c, state);
      }
    }
  }

  lemma GivenInRange(e: Entry, c: Code, state: map<Code, Bytes>)
    requires SafeWrite(e) && Decides(e, c)
    ensures InRange(c, ValueGiven(e, c, state))
  {
  }

  lemma {:induction false} EffectiveIsPart(state: map<Code, Bytes>, d: seq<Entry>)
    ensures forall e :: e in Effective(state, d) ==> e in d
    decreases |d|
  {
    if d != [] {
      EffectiveIsPart(state, d[1..]);
    }
  }

  lemma DirectWriteIsSafe(f: Fan, ws: seq<Entry>, now: Now)
    requires Safe(f) && forall e :: e in ws ==> SafeWrite(e)
    ensures var g := DirectWrite(f, ws, now).fan; Complete(g.state) && Ranged(g.state) && g.id == f.id
  {
    InitialIsSafe(f.index, f.id, f.unitType, now);
    DictIsLastWins(ws);
    EffectiveIsPart(f.state, DictOf(ws));
    WrittenIsRanged(f.state, Effective(f.state, DictOf(ws)));
  }

  /** A table that steps the speed within 1..3 in one byte, as the simulator's metadata does. */
  ghost predicate StepsSpeed(table: NudgeTable) {
    && SaneTable(table)
    && (SPEED in table ==> table[SPEED].size <= 1)
    && (SPEED in table ==> forall n: int :: 1 <= Clamp(table[SPEED].choices, Clamp(table[SPEED].range, n)) <= 3)
  }

  lemma StepsAreSane(table: NudgeTable)
    requires StepsSpeed(table)
    ensures SaneTable(table)
  {
  }

  lemma NudgeSpeedIsSafe(f: Fan, delta: int, table: NudgeTable)
    requires Safe(f) && StepsSpeed(table)
    ensures var r := NudgeAll(f, [SPEED], delta, table); r.ok && Safe(r.fan)
  {
    hide SoundFan;
    assert [SPEED][1..] == [];
    var r := Nudge(f, SPEED, delta, table);
    assert NudgeAll(f, [SPEED], delta, table) == if r.ok then NudgeAll(r.fan, [], delta, table) else r;
    if SPEED in table {
      var val := Clamp(table[SPEED].choices, Clamp(table[SPEED].range, FromBytes(f.state[SPEED]) + delta));
      assert 1 <= val <= 3 && Pow256(1) == 256;
      SmallInts(val);
      SetKeepsSound(f, SPEED, [val]);
      assert r == Run(f.Set(SPEED, [val]), true);
    }
  }

  /** An operation that writes in range only leaves a safe fan safe, whoever sends it and whatever becomes of it. */
  lemma OpKeepsSafe(c: Client, op: Op, f: Fan, now: Now, table: NudgeTable)
    requires Safe(f) && StepsSpeed(table) && SafeOp(op)
    ensures Safe(Direct(c, op, f, now, table).fan)
  {
    if Sendable(c, op) {
      HandleIsDirect(c, op, f, now, table);
      hide SoundFan, SafeWrite, Sendable, NudgeAll, DirectWrite, Told, Complete, Ranged;
      if op.Write? || op.WriteResp? {
        DirectWriteIsSafe(f, op.writes, now);
      } else if op.Increment? {
        NudgeSpeedIsSafe(f, 1, table);
      } else if op.Decrement? {
        NudgeSpeedIsSafe(f, -1, table);
      }
    }
  }

  /** So does every validated command. */
  lemma CommandKeepsSafe(c: Client, cmd: Command, f: Fan, now: Now, table: NudgeTable)
    requires Safe(f) && StepsSpeed(table) && CommandOp(cmd).Ok?
    ensures Safe(Direct(c, CommandOp(cmd).value, f, now, table).fan)
  {
    CommandsAreSafe(cmd);
    OpKeepsSafe(c, CommandOp(cmd).value, f, now, table);
  }

  /** A safe fan can always print its status line. */
  lemma SafePrintsStatus(f: Fan)
    requires Safe(f)
    ensures MainLoop.PrintsStatus(f)
  {
    assert Held(POWER) && Held(SPEED) && Held(OPERATION_MODE) && Held(CURRENT_HUMIDITY) && Held(ALARM_STATUS);
    assert Held(FAN1_SPEED) && Held(FAN2_SPEED);
    hide SoundFan;
  }

  lemma SetKeepsSafe(f: Fan, c: Code, v: Bytes)
    requires Safe(f) && IsParam(c) && |v| < 256 && InRange(c, v)
    ensures Safe(f.Set(c, v))
  {
  }

  /** Every tick leaves a safe fan safe, under arbitrary jitter, and whether or not it raises. */
  lemma TickKeepsSafe(f: Fan, t: TickInput)
    requires Safe(f)
    ensures Safe(Tick(f, t).fan)
  {
    hide TickFans, TickHumidity, TickUptime, Safe, RtcTime, RtcCalendar;
    TickFansKeepsSafe(f, t.dt, t.jitter1, t.jitter2);
    var a := TickFans(f, t.dt, t.jitter1, t.jitter2);
    if a.ok {
      TickHumidityKeepsSafe(a.fan, t.dt, t.noise);
      var b := TickHumidity(a.fan, t.dt, t.noise);
      if b.ok {
        TickRtcKeepsSafe(b.fan, t.now);
        TickUptimeKeepsSafe(TickRtc(b.fan, t.now), t.uptime);
      }
    }
  }

  /** A tick of a safe fan raises only for a speed or an uptime that does not pack into two bytes. */
  lemma SafeTickRaisesExactly(f: Fan, t: TickInput)
    requires Safe(f)
    ensures HasByte(f, POWER) && HasByte(f, SPEED) && HasByte(f, MANUAL_SPEED)
    ensures Tick(f, t).ok
       <==> (t.uptime / 86400 < 0x10000
             && (var targets := Targets(f.state[POWER][0], f.state[SPEED][0], f.state[MANUAL_SPEED][0]);
                 && MainLoop.NextSpeed(f, f.rpm1, targets.0, t, t.jitter1) < 65536.0
                 && MainLoop.NextSpeed(f, f.rpm2, targets.1, t, t.jitter2) < 65536.0))
  {
    assert Held(POWER) && Held(SPEED) && Held(MANUAL_SPEED) && Held(HUMIDITY_THRESHOLD);
    assert HasByte(f, HUMIDITY_THRESHOLD);
    hide Safe, Tick, Targets;
    MainLoop.TickRaisesExactly(f, t);
  }

  lemma TickRtcKeepsSafe(f: Fan, now: Now)
    requires Safe(f)
    ensures Safe(TickRtc(f, now))
  {
  }

  lemma TickFansKeepsSafe(f: Fan, dt: real, jitter1: real, jitter2: real)
    requires Safe(f)
    ensures Safe(TickFans(f, dt, jitter1, jitter2).fan)
  {
  }

  lemma TickHumidityKeepsSafe(f: Fan, dt: real, noise: real)
    requires Safe(f)
    ensures Safe(TickHumidity(f, dt, noise).fan)
  {
  }

  lemma TickUptimeKeepsSafe(f: Fan, uptime: nat)
    requires Safe(f)
    ensures Safe(TickUptime(f, uptime).fan)
  {
  }

  // ---------------------------------------------------------------------------
  // Whole runs
  // ---------------------------------------------------------------------------

  /** What can happen to one fan: a command addressed to it, or a tick. */
  datatype Event = Commanded(pwd: Bytes, cmd: Command, now: Now) | Ticked(input: TickInput)

  function StepEvent(f: Fan, ev: Event, table: NudgeTable): Fan {
    match ev
    case Ticked(t) => Tick(f, t).fan
    case Commanded(pwd, cmd, now) =>
      var op := CommandOp(cmd);
      if op.Err? then f else Direct(Client(f.id, pwd), op.value, f, now, table).fan
  }

  function RunEvents(f: Fan, evs: seq<Event>, table: NudgeTable): Fan
    decreases |evs|
  {
    if evs == [] then f else RunEvents(StepEvent(f, evs[0], table), evs[1..], table)
  }

  lemma {:induction false} RunKeepsSafe(f: Fan, evs: seq<Event>, table: NudgeTable)
    requires Safe(f) && StepsSpeed(table)
    ensures Safe(RunEvents(f, evs, table))
    decreases |evs|
  {
    hide Safe, StepsSpeed, Tick, Direct, CommandOp;
    if evs != [] {
      match evs[0] {
        case Ticked(t) => TickKeepsSafe(f, t);
        case Commanded(pwd, cmd, now) =>
          if CommandOp(cmd).Ok? {
            CommandKeepsSafe(Client(f.id, pwd), cmd, f, now, table);
          }
      }
      RunKeepsSafe(StepEvent(f, evs[0], table), evs[1..], table);
    }
  }

  /**
   * Over every run of validated commands, speed nudges and ticks from a fresh fan, no initial parameter
   * is lost, every fixed-size value keeps its width and every bounded one its bounds.
   */
  lemma FansStaySafe(index: nat, id: Bytes, unitType: Word, now: Now, evs: seq<Event>, table: NudgeTable)
    requires |id| == 16 && StepsSpeed(table)
    ensures Safe(RunEvents(NewFan(index, id, unitType, now), evs, table))
  {
    InitialIsSafe(index, id, unitType, now);
    RunKeepsSafe(NewFan(index, id, unitType, now), evs, table);
  }
}
