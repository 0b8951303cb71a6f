/** What each of the client's commands makes a fan tell. */
module Effects {
  import opened Basics
  import opened Params
  import opened Decoders
  import opened FanSpec
  import opened Writes
  import opened Client
  import opened Commands
  import opened Refusals
  import opened Values
  import opened States
  import opened Readings
  import opened FreshFans
  import opened Scenes
  import Frame
  import Nudges
  import Polling
  import Routes

  /** An accepted address in its printed form. */
  ghost function Address(a: Bytes): string { if ParsedIp(a).Ok? then AddressText(ParsedIp(a).value) else "" }

  ghost function WantedNetwork(w: WifiConfig, ssid: Bytes, dhcp: bool, encryption: byte,
                               ip: Option<Bytes>, subnet: Option<Bytes>, gateway: Option<Bytes>): WifiConfig {
    var named := w.(mode := 1, ssid := TextOf(ssid), encryption := encryption, dhcp := dhcp);
    if dhcp || ip.None? then named
    else named.(ip := Address(ip.value),
                subnet := if subnet.Some? then Address(subnet.value) else AddressText([255, 255, 255, 0]),
                gateway := Address(if gateway.Some? then gateway.value else ip.value))
  }

  /** What a fan that told `r` must tell after a command; `blank` is what a new fan of its kind tells. */
  ghost function Wanted(cmd: Command, r: DeviceState, blank: DeviceState): DeviceState
    requires r.power.Some? && r.wifi.Some?
  {
    match cmd
    case TurnOn => r.(power := Some(true))
    case TurnOff => r.(power := Some(false))
    case TogglePower => r.(power := Some(!r.power.value))
    case SetSpeed(n) => r.(speed := Some(n))
    case SetManualSpeed(n) => r.(speed := Some(255), manualSpeed := Some(n))
    case SetMode(n) => r.(operationMode := Some(n))
    case SetBoostStatus(on) => r.(boostActive := Some(on))
    case SetBoostDelay(n) => r.(boostDelay := Some(n))
    case SetTimerMode(n) => r.(timerMode := Some(n))
    case SetNightTimer(hours, minutes) => r.(nightTimer := Some(Timer(hours, minutes)))
    case SetPartyTimer(hours, minutes) => r.(partyTimer := Some(Timer(hours, minutes)))
    case SetHumiditySensor(n) => r.(humiditySensor := Some(n))
    case SetHumidityThreshold(n) => r.(humidityThreshold := Some(n))
    case SetRelaySensor(n) => r.(relaySensor := Some(n))
    case SetVoltageSensor(n) => r.(voltageSensor := Some(n))
    case SetVoltageThreshold(n) => r.(voltageThreshold := Some(n))
    case EnableWeeklySchedule(on) => r.(weeklySchedule := Some(on))
    case SetRtc(year, month, day, dayOfWeek, hour, minute, second) =>
      r.(rtcTime := Some(TimeOfDay(hour, minute, second)),
         rtcCalendar := Some(Calendar(2000 + year % 100, month, day, dayOfWeek)))
    case ResetFilterTimer => r.(filterCountdown := Some(Span(180, 0, 0)), filterNeedsReplacement := Some(false))
    case ResetAlarms => r.(alarmStatus := Some(0))
    case SetWifiClient(ssid, _, dhcp, encryption, ip, subnet, gateway) =>
      r.(wifi := Some(WantedNetwork(r.wifi.value, ssid, dhcp, encryption, ip, subnet, gateway)))
    case SetWifiAp(channel) => r.(wifi := Some(r.wifi.value.(mode := 2, channel := channel)))
    case SetCloudPermission(on) => r.(cloudPermitted := Some(on))
    case FactoryReset => blank
    case _ => r
  }

  /** A write that only stores its value. */
  predicate PlainWrite(e: Entry) {
    IsParam(e.code) && e.code !in {FILTER_RESET, RESET_ALARMS, FACTORY_RESET} && e != Entry(POWER, [2])
  }

  lemma {:induction false} PlainWritesStore(f: Fan, ws: seq<Entry>)
    requires forall e :: e in ws ==> PlainWrite(e)
    ensures WriteAll(f, ws) == Run(SetAll(f, ws), true)
    decreases |ws|
  {
    if ws != [] {
      var e := ws[0];
      assert PlainWrite(e);
      assert WriteOne(f, e) == Run(f.Set(e.code, e.value), true);
      PlainWritesStore(f.Set(e.code, e.value), ws[1..]);
    }
  }

  lemma PlainWritesSet(f: Fan, ws: seq<Entry>, now: Now)
    requires DistinctCodes(ws) && forall e :: e in ws ==> PlainWrite(e)
    ensures DirectWrite(f, ws, now) == Run(SetAll(f, ws), true)
  {
    DirectWriteIsApplied(f, ws, now);
    DictOfDistinct(ws);
    if i :| 0 <= i < |ws| && ws[i].code == FACTORY_RESET {
      assert PlainWrite(ws[i]);
    }
    PlainWritesStore(f, ws);
    hide DirectWrite, DictOf, WriteAll, SetAll;
  }

  lemma OneSet(c: Client, e: Entry, f: Fan, now: Now, table: NudgeTable)
    requires PlainWrite(e) && Sendable(c, Write([e]))
    ensures Direct(c, Write([e]), f, now, table) == Outcome(f.Set(e.code, e.value), Ok(map[]))
  {
    PlainWritesSet(f, [e], now);
    assert [e][1..] == [];
    assert SetAll(f, [e]) == SetAll(f.Set(e.code, e.value), []) == f.Set(e.code, e.value);
    hide DirectWrite, SetAll, Sendable;
  }

  lemma TwoSet(c: Client, d: Entry, e: Entry, f: Fan, now: Now, table: NudgeTable)
    requires PlainWrite(d) && PlainWrite(e) && d.code != e.code && Sendable(c, Write([d, e]))
    ensures Direct(c, Write([d, e]), f, now, table)
         == Outcome(f.Set(d.code, d.value).Set(e.code, e.value), Ok(map[]))
  {
    PlainWritesSet(f, [d, e], now);
    SetBoth(f, d, e);
    hide DirectWrite, SetAll, Sendable;
  }

  lemma OneSetTold(c: Client, e: Entry, f: Fan, now: Now, table: NudgeTable)
    requires PlainWrite(e) && Sendable(c, WriteResp([e])) && |e.value| <= 6
    ensures Direct(c, WriteResp([e]), f, now, table) == Outcome(f.Set(e.code, e.value), Ok(map[e.code := e.value]))
  {
    var g := f.Set(e.code, e.value);
    PlainWritesSet(f, [e], now);
    assert [e][1..] == [];
    assert SetAll(f, [e]) == SetAll(g, []) == g;
    DictOfDistinct([e]);
    assert CodesOf([e]) == [e.code];
    Nudges.ToldOne(g, e.code);
    hide DirectWrite, SetAll, Sendable, Told, DictOf, CodesOf;
  }

  /** The command succeeds and makes the fan tell what it should. */
  ghost predicate TakesEffect(c: Client, cmd: Command, f: Fan, now: Now, table: NudgeTable)
    requires CommandOp(cmd).Ok? && WellHeld(f.state)
  {
    var d := Direct(c, CommandOp(cmd).value, f, now, table);
    && d.result.Ok?
    && Tells(d.fan.state, Wanted(cmd, Reading(f.state), FreshReading(f.index, f.id, f.unitType, now)))
  }

  /** What the effect lemmas assume: a sendable command on a fan that tells its whole state. */
  ghost predicate Ready(c: Client, cmd: Command, f: Fan) {
    && CommandOp(cmd).Ok? && Sendable(c, CommandOp(cmd).value)
    && WellHeld(f.state) && |f.id| == 16
  }

  lemma ModesTakeEffect(c: Client, cmd: Command, f: Fan, now: Now, table: NudgeTable)
    requires Ready(c, cmd, f) && Modes(cmd)
    ensures TakesEffect(c, cmd, f, now, table)
  {
    hide WriteInt, WellHeld, Reading, FreshReading, Direct, Sendable;
    match cmd {
      case SetSpeed(n) =>
        ByteIsWritten(SPEED, n);
        OneSet(c, Entry(SPEED, [n]), f, now, table);
        StaysWellHeld(f.state, SPEED, [n]);
        SpeedSet(f.state, [n]);
      case SetMode(n) =>
        ByteIsWritten(OPERATION_MODE, n);
        OneSet(c, Entry(OPERATION_MODE, [n]), f, now, table);
        StaysWellHeld(f.state, OPERATION_MODE, [n]);
        ModeSet(f.state, [n]);
      case SetBoostDelay(n) =>
        ByteIsWritten(BOOST_DELAY, n);
        OneSet(c, Entry(BOOST_DELAY, [n]), f, now, table);
        StaysWellHeld(f.state, BOOST_DELAY, [n]);
        BoostDelaySet(f.state, [n]);
      case SetTimerMode(n) =>
        ByteIsWritten(TIMER_MODE, n);
        OneSet(c, Entry(TIMER_MODE, [n]), f, now, table);
        StaysWellHeld(f.state, TIMER_MODE, [n]);
        TimerModeSet(f.state, [n]);
    }
  }

  lemma SensorsTakeEffect(c: Client, cmd: Command, f: Fan, now: Now, table: NudgeTable)
    requires Ready(c, cmd, f) && Sensors(cmd)
    ensures TakesEffect(c, cmd, f, now, table)
  {
    hide WriteInt, WellHeld, Reading, FreshReading, Direct, Sendable;
    match cmd {
      case SetHumiditySensor(n) =>
        ByteIsWritten(HUMIDITY_SENSOR, n);
        OneSet(c, Entry(HUMIDITY_SENSOR, [n]), f, now, table);
        StaysWellHeld(f.state, HUMIDITY_SENSOR, [n]);
        SensorSet(f.state, [n]);
      case SetHumidityThreshold(n) =>
        ByteIsWritten(HUMIDITY_THRESHOLD, n);
        OneSet(c, Entry(HUMIDITY_THRESHOLD, [n]), f, now, table);
        StaysWellHeld(f.state, HUMIDITY_THRESHOLD, [n]);
        ThresholdSet(f.state, [n]);
      case SetRelaySensor(n) =>
        ByteIsWritten(RELAY_SENSOR, n);
        OneSet(c, Entry(RELAY_SENSOR, [n]), f, now, table);
        StaysWellHeld(f.state, RELAY_SENSOR, [n]);
        RelaySet(f.state, [n]);
      case SetVoltageSensor(n) =>
        ByteIsWritten(VOLTAGE_SENSOR, n);
        OneSet(c, Entry(VOLTAGE_SENSOR, [n]), f, now, table);
        StaysWellHeld(f.state, VOLTAGE_SENSOR, [n]);
        VoltageSet(f.state, [n]);
      case SetVoltageThreshold(n) =>
        ByteIsWritten(VOLTAGE_THRESHOLD, n);
        OneSet(c, Entry(VOLTAGE_THRESHOLD, [n]), f, now, table);
        StaysWellHeld(f.state, VOLTAGE_THRESHOLD, [n]);
        VoltageThresholdSet(f.state, [n]);
    }
  }

  lemma EnablesTakeEffect(c: Client, cmd: Command, f: Fan, now: Now, table: NudgeTable)
    requires Ready(c, cmd, f) && Enables(cmd)
    ensures TakesEffect(c, cmd, f, now, table)
  {
    hide WriteInt, WellHeld, Reading, FreshReading, Direct, Sendable;
    match cmd {
      case EnableWeeklySchedule(on) =>
        ByteIsWritten(WEEKLY_SCHEDULE_EN, Bit(on));
        OneSet(c, Entry(WEEKLY_SCHEDULE_EN, [Bit(on)]), f, now, table);
        StaysWellHeld(f.state, WEEKLY_SCHEDULE_EN, [Bit(on)]);
        WeeklySet(f.state, [Bit(on)]);
      case SetCloudPermission(on) =>
        ByteIsWritten(CLOUD_PERMISSION, Bit(on));
        OneSet(c, Entry(CLOUD_PERMISSION, [Bit(on)]), f, now, table);
        StaysWellHeld(f.state, CLOUD_PERMISSION, [Bit(on)]);
        CloudSet(f.state, [Bit(on)]);
      case ApplyWifi =>
        ByteIsWritten(WIFI_APPLY, 1);
        OneSet(c, Entry(WIFI_APPLY, [1]), f, now, table);
        StaysUntold(f.state, WIFI_APPLY, [1]);
        RequestSet(f.state, WIFI_APPLY, [1]);
      case DiscardWifi =>
        ByteIsWritten(WIFI_DISCARD, 1);
        OneSet(c, Entry(WIFI_DISCARD, [1]), f, now, table);
        StaysUntold(f.state, WIFI_DISCARD, [1]);
        RequestSet(f.state, WIFI_DISCARD, [1]);
    }
  }

  lemma PowersTakeEffect(c: Client, cmd: Command, f: Fan, now: Now, table: NudgeTable)
    requires Ready(c, cmd, f) && Powers(cmd)
    ensures TakesEffect(c, cmd, f, now, table)
  {
    hide WriteInt, WellHeld, Reading, FreshReading, Direct, Sendable;
    match cmd {
      case TurnOn =>
        ByteIsWritten(POWER, 1);
        OneSet(c, Entry(POWER, [1]), f, now, table);
        StaysWellHeld(f.state, POWER, [1]);
        PowerSet(f.state, [1]);
      case TurnOff =>
        ByteIsWritten(POWER, 0);
        OneSet(c, Entry(POWER, [0]), f, now, table);
        StaysWellHeld(f.state, POWER, [0]);
        PowerSet(f.state, [0]);
      case TogglePower =>
        ByteIsWritten(POWER, 2);
        ToggleSet(c, f, now, table);
    }
  }

  lemma OneWriteDone(f: Fan, e: Entry, now: Now)
    requires e.code != FACTORY_RESET
    ensures DirectWrite(f, [e], now) == WriteOne(f, e)
  {
    DirectWriteIsApplied(f, [e], now);
    DictOfDistinct([e]);
    assert [e][1..] == [];
    var r := WriteOne(f, e);
    assert WriteAll(f, [e]) == if !r.ok then r else WriteAll(r.fan, []);
  }

  lemma ToggleSet(c: Client, f: Fan, now: Now, table: NudgeTable)
    requires WellHeld(f.state) && Sendable(c, Write([Entry(POWER, [2])]))
    ensures var d := Direct(c, Write([Entry(POWER, [2])]), f, now, table);
            d.result.Ok? && Tells(d.fan.state, Reading(f.state).(power := Some(!Reading(f.state).power.value)))
  {
    var v: Bytes := if f.state[POWER][0] != 0 then [0] else [1];
    OneWriteDone(f, Entry(POWER, [2]), now);
    assert WriteOne(f, Entry(POWER, [2])) == Run(f.Set(POWER, v), true);
    assert Reading(f.state).power == Some(f.state[POWER][0] != 0);
    hide DirectWrite, WriteOne, Sendable, Reading, WellHeld;
    StaysWellHeld(f.state, POWER, v);
    PowerSet(f.state, v);
  }

  lemma ResetsTakeEffect(c: Client, cmd: Command, f: Fan, now: Now, table: NudgeTable)
    requires Ready(c, cmd, f) && Resets(cmd)
    ensures TakesEffect(c, cmd, f, now, table)
  {
    hide WriteInt, WellHeld, Reading, FreshReading, NewFan, Sendable, DirectWrite, Told;
    match cmd {
      case ResetFilterTimer =>
        ByteIsWritten(FILTER_RESET, 1);
        OneWriteDone(f, Entry(FILTER_RESET, [1]), now);
        StaysWellHeld(f.state, FILTER_COUNTDOWN, FRESH_FILTER);
        FilterSet(f.state, FRESH_FILTER);
        StaysWellHeld(f.state[FILTER_COUNTDOWN := FRESH_FILTER], FILTER_INDICATOR, [0]);
        IndicatorSet(f.state[FILTER_COUNTDOWN := FRESH_FILTER], [0]);
      case ResetAlarms =>
        ByteIsWritten(RESET_ALARMS, 1);
        OneWriteDone(f, Entry(RESET_ALARMS, [1]), now);
        StaysWellHeld(f.state, ALARM_STATUS, [0]);
        AlarmSet(f.state, [0]);
      case FactoryReset =>
        ByteIsWritten(FACTORY_RESET, 1);
        FreshlyWritten(f, now);
        FreshTells(f.index, f.id, f.unitType, now);
    }
  }

  lemma FreshlyWritten(f: Fan, now: Now)
    ensures DirectWrite(f, [Entry(FACTORY_RESET, [1])], now) == Run(NewFan(f.index, f.id, f.unitType, now), true)
  {
    assert [Entry(FACTORY_RESET, [1])][0].code == FACTORY_RESET;
  }

  lemma TimersTakeEffect(c: Client, cmd: Command, f: Fan, now: Now, table: NudgeTable)
    requires Ready(c, cmd, f) && (cmd.SetNightTimer? || cmd.SetPartyTimer? || cmd.SetRtc?)
    ensures TakesEffect(c, cmd, f, now, table)
  {
    hide WellHeld, Reading, FreshReading, Direct, Sendable;
    match cmd {
      case SetNightTimer(h, m) =>
        OneSet(c, Entry(NIGHT_TIMER, [m, h]), f, now, table);
        StaysWellHeld(f.state, NIGHT_TIMER, [m, h]);
        NightSet(f.state, [m, h]);
      case SetPartyTimer(h, m) =>
        OneSet(c, Entry(PARTY_TIMER, [m, h]), f, now, table);
        StaysWellHeld(f.state, PARTY_TIMER, [m, h]);
        PartySet(f.state, [m, h]);
      case SetRtc(year, month, day, dayOfWeek, hour, minute, second) =>
        var short: byte := year % 100;
        var time, date := [second, minute, hour], [day, dayOfWeek, month, short];
        TwoSet(c, Entry(RTC_TIME, time), Entry(RTC_CALENDAR, date), f, now, table);
        StaysWellHeld(f.state, RTC_TIME, time);
        TimeSet(f.state, time);
        StaysWellHeld(f.state[RTC_TIME := time], RTC_CALENDAR, date);
        CalendarSet(f.state[RTC_TIME := time], date);
    }
  }

  lemma PairsTakeEffect(c: Client, cmd: Command, f: Fan, now: Now, table: NudgeTable)
    requires Ready(c, cmd, f) && (cmd.SetManualSpeed? || cmd.SetBoostStatus?)
    ensures TakesEffect(c, cmd, f, now, table)
  {
    hide WellHeld, Reading, FreshReading, Direct, Sendable, FromInt;
    match cmd {
      case SetManualSpeed(n) =>
        ByteFits(SPEED, 255);
        ByteFits(MANUAL_SPEED, n);
        TwoSet(c, Entry(SPEED, [255]), Entry(MANUAL_SPEED, [n]), f, now, table);
        StaysWellHeld(f.state, SPEED, [255]);
        SpeedSet(f.state, [255]);
        StaysWellHeld(f.state[SPEED := [255]], MANUAL_SPEED, [n]);
        ManualSet(f.state[SPEED := [255]], [n]);
      case SetBoostStatus(on) =>
        ByteFits(BOOST_STATUS, Bit(on));
        OneSetTold(c, Entry(BOOST_STATUS, [Bit(on)]), f, now, table);
        StaysWellHeld(f.state, BOOST_STATUS, [Bit(on)]);
        BoostSet(f.state, [Bit(on)]);
    }
  }

  lemma AccessPointTakesEffect(c: Client, cmd: Command, f: Fan, now: Now, table: NudgeTable)
    requires Ready(c, cmd, f) && cmd.SetWifiAp?
    ensures TakesEffect(c, cmd, f, now, table)
  {
    hide WellHeld, Reading, FreshReading, Direct, Sendable, FromInt, NetworkOf;
    ByteFits(WIFI_MODE, 2);
    ByteFits(WIFI_CHANNEL, cmd.channel);
    TwoSet(c, Entry(WIFI_MODE, [2]), Entry(WIFI_CHANNEL, [cmd.channel]), f, now, table);
    NetworkTold(f.state);
    StaysWellHeld(f.state, WIFI_MODE, [2]);
    WifiModeSet(f.state, [2]);
    NetworkTold(f.state[WIFI_MODE := [2]]);
    StaysWellHeld(f.state[WIFI_MODE := [2]], WIFI_CHANNEL, [cmd.channel]);
    WifiChannelSet(f.state[WIFI_MODE := [2]], [cmd.channel]);
  }

  lemma NetworkTold(s: map<Code, Bytes>)
    requires WellHeld(s)
    ensures Reading(s).wifi == Some(NetworkOf(s))
  {
  }

  lemma UntoldTakeEffect(c: Client, cmd: Command, f: Fan, now: Now, table: NudgeTable)
    requires Ready(c, cmd, f)
    requires cmd.SetSchedulePeriod? || cmd.GetSchedulePeriod? || cmd.ChangePassword?
    ensures TakesEffect(c, cmd, f, now, table)
  {
    hide WellHeld, Reading, FreshReading, Direct, Sendable;
    match cmd {
      case SetSchedulePeriod(day, period, speed, h, m) =>
        OneSet(c, Entry(SCHEDULE_SETUP, [day, period, speed, 0, m, h]), f, now, table);
        StaysUntold(f.state, SCHEDULE_SETUP, [day, period, speed, 0, m, h]);
        SecretSet(f.state, SCHEDULE_SETUP, [day, period, speed, 0, m, h]);
      case GetSchedulePeriod(day, period) =>
        OneSetTold(c, Entry(SCHEDULE_SETUP, [day, period, 0, 0, 0, 0]), f, now, table);
        StaysUntold(f.state, SCHEDULE_SETUP, [day, period, 0, 0, 0, 0]);
        SecretSet(f.state, SCHEDULE_SETUP, [day, period, 0, 0, 0, 0]);
      case ChangePassword(p) =>
        OneSet(c, Entry(DEVICE_PASSWORD, p), f, now, table);
        StaysUntold(f.state, DEVICE_PASSWORD, p);
        SecretSet(f.state, DEVICE_PASSWORD, p);
    }
  }

  // ---------------------------------------------------------------------------
  // The network command
  // ---------------------------------------------------------------------------

  lemma NamesSet(s: map<Code, Bytes>, ssid: Bytes, password: Bytes, encryption: byte, dhcp: bool)
    requires WellHeld(s)
    ensures Tells(s[WIFI_MODE := [1]][WIFI_SSID := ssid][WIFI_PASSWORD := password][WIFI_ENCRYPTION := [encryption]]
                   [WIFI_DHCP := [Bit(dhcp)]],
                  Reading(s).(wifi := Some(NetworkOf(s).(mode := 1, ssid := TextOf(ssid), encryption := encryption,
                                                         dhcp := dhcp))))
  {
    hide WellHeld, Reading, NetworkOf;
    var s1 := s[WIFI_MODE := [1]];
    var s2 := s1[WIFI_SSID := ssid];
    var s3 := s2[WIFI_PASSWORD := password];
    var s4 := s3[WIFI_ENCRYPTION := [encryption]];
    StaysWellHeld(s, WIFI_MODE, [1]);
    WifiModeSet(s, [1]);
    NetworkTold(s1);
    StaysWellHeld(s1, WIFI_SSID, ssid);
    WifiNameSet(s1, ssid);
    StaysUntold(s2, WIFI_PASSWORD, password);
    SecretSet(s2, WIFI_PASSWORD, password);
    NetworkTold(s3);
    StaysWellHeld(s3, WIFI_ENCRYPTION, [encryption]);
    WifiEncryptionSet(s3, [encryption]);
    NetworkTold(s4);
    StaysWellHeld(s4, WIFI_DHCP, [Bit(dhcp)]);
    WifiDhcpSet(s4, [Bit(dhcp)]);
  }

  lemma AddressesSet(s: map<Code, Bytes>, ip: Bytes, subnet: Bytes, gateway: Bytes)
    requires WellHeld(s) && |ip| == |subnet| == |gateway| == 4
    ensures Tells(s[WIFI_IP := ip][WIFI_SUBNET := subnet][WIFI_GATEWAY := gateway],
                  Reading(s).(wifi := Some(NetworkOf(s).(ip := AddressText(ip), subnet := AddressText(subnet),
                                                         gateway := AddressText(gateway)))))
  {
    hide WellHeld, Reading, NetworkOf;
    var s1 := s[WIFI_IP := ip];
    var s2 := s1[WIFI_SUBNET := subnet];
    StaysWellHeld(s, WIFI_IP, ip);
    WifiIpSet(s, ip);
    NetworkTold(s1);
    StaysWellHeld(s1, WIFI_SUBNET, subnet);
    WifiSubnetSet(s1, subnet);
    NetworkTold(s2);
    StaysWellHeld(s2, WIFI_GATEWAY, gateway);
    WifiGatewaySet(s2, gateway);
  }

  lemma ThreeStored(f: Fan, a: Entry, b: Entry, e: Entry)
    ensures SetAll(f, [a, b, e]) == f.Set(a.code, a.value).Set(b.code, b.value).Set(e.code, e.value)
  {
    assert [a, b, e][1..] == [b, e];
    SetBoth(f.Set(a.code, a.value), b, e);
  }

  lemma FiveStored(f: Fan, a: Entry, b: Entry, e: Entry, g: Entry, h: Entry)
    ensures SetAll(f, [a, b, e, g, h])
         == f.Set(a.code, a.value).Set(b.code, b.value).Set(e.code, e.value).Set(g.code, g.value).Set(h.code, h.value)
  {
    assert [a, b, e, g, h] == [a, b] + [e, g, h];
    SetAllConcat(f, [a, b], [e, g, h]);
    SetBoth(f, a, b);
    hide SetAll;
    ThreeStored(f.Set(a.code, a.value).Set(b.code, b.value), e, g, h);
  }

  ghost function AddressWrites(ip: Bytes, subnet: Bytes, gateway: Bytes): seq<Entry> {
    [Entry(WIFI_IP, ip), Entry(WIFI_SUBNET, subnet), Entry(WIFI_GATEWAY, gateway)]
  }

  lemma NetworkWritesArePlain(ssid: Bytes, password: Bytes, encryption: byte, dhcp: bool, ip: Bytes, subnet: Bytes,
                              gateway: Bytes)
    ensures var base, more := WifiBase(ssid, password, encryption, dhcp), AddressWrites(ip, subnet, gateway);
            && DistinctCodes(base) && DistinctCodes(base + more)
            && (forall e :: e in base ==> PlainWrite(e)) && (forall e :: e in base + more ==> PlainWrite(e))
  {
  }

  lemma NamesStored(f: Fan, ssid: Bytes, password: Bytes, encryption: byte, dhcp: bool)
    requires WellHeld(f.state)
    ensures Tells(SetAll(f, WifiBase(ssid, password, encryption, dhcp)).state,
                  Reading(f.state).(wifi := Some(NetworkOf(f.state).(mode := 1, ssid := TextOf(ssid),
                                                                     encryption := encryption, dhcp := dhcp))))
  {
    var ws := WifiBase(ssid, password, encryption, dhcp);
    FiveStored(f, ws[0], ws[1], ws[2], ws[3], ws[4]);
    NamesSet(f.state, ssid, password, encryption, dhcp);
    hide SetAll, Reading, WellHeld, NetworkOf;
  }

  lemma AddressesStored(f: Fan, ip: Bytes, subnet: Bytes, gateway: Bytes)
    requires WellHeld(f.state) && |ip| == |subnet| == |gateway| == 4
    ensures Tells(SetAll(f, AddressWrites(ip, subnet, gateway)).state,
                  Reading(f.state).(wifi := Some(NetworkOf(f.state).(
                                      ip := AddressText(ip), subnet := AddressText(subnet),
                                      gateway := AddressText(gateway)))))
  {
    var ws := AddressWrites(ip, subnet, gateway);
    ThreeStored(f, ws[0], ws[1], ws[2]);
    AddressesSet(f.state, ip, subnet, gateway);
    hide SetAll, Reading, WellHeld, NetworkOf;
  }

  /** A network command without addresses. */
  lemma NetworkNamed(c: Client, ssid: Bytes, password: Bytes, encryption: byte, dhcp: bool, f: Fan, now: Now,
                     table: NudgeTable)
    requires WellHeld(f.state) && Sendable(c, Write(WifiBase(ssid, password, encryption, dhcp)))
    ensures var d := Direct(c, Write(WifiBase(ssid, password, encryption, dhcp)), f, now, table);
            && d.result.Ok?
            && Tells(d.fan.state, Reading(f.state).(wifi := Some(NetworkOf(f.state).(
                                    mode := 1, ssid := TextOf(ssid), encryption := encryption, dhcp := dhcp))))
  {
    hide DirectWrite, SetAll, Sendable, Reading, WellHeld, NetworkOf, WifiBase;
    NetworkWritesArePlain(ssid, password, encryption, dhcp, [], [], []);
    PlainWritesSet(f, WifiBase(ssid, password, encryption, dhcp), now);
    NamesStored(f, ssid, password, encryption, dhcp);
  }

  /** One with addresses. */
  lemma NetworkAddressed(c: Client, ssid: Bytes, password: Bytes, encryption: byte, ip: Bytes, subnet: Bytes,
                         gateway: Bytes, f: Fan, now: Now, table: NudgeTable)
    requires WellHeld(f.state) && |ip| == |subnet| == |gateway| == 4
    requires Sendable(c, Write(WifiBase(ssid, password, encryption, false) + AddressWrites(ip, subnet, gateway)))
    ensures var op := Write(WifiBase(ssid, password, encryption, false) + AddressWrites(ip, subnet, gateway));
            var d := Direct(c, op, f, now, table);
            && d.result.Ok?
            && Tells(d.fan.state, Reading(f.state).(wifi := Some(NetworkOf(f.state).(
                                    mode := 1, ssid := TextOf(ssid), encryption := encryption, dhcp := false,
                                    ip := AddressText(ip), subnet := AddressText(subnet),
                                    gateway := AddressText(gateway)))))
  {
    hide DirectWrite, SetAll, Sendable, Reading, WellHeld, NetworkOf, WifiBase, AddressWrites;
    var base, more := WifiBase(ssid, password, encryption, false), AddressWrites(ip, subnet, gateway);
    NetworkWritesArePlain(ssid, password, encryption, false, ip, subnet, gateway);
    PlainWritesSet(f, base + more, now);
    SetAllConcat(f, base, more);
    NamesStored(f, ssid, password, encryption, false);
    var g := SetAll(f, base);
    NetworkTold(g.state);
    AddressesStored(g, ip, subnet, gateway);
  }

  lemma WifiTakesEffect(c: Client, cmd: Command, f: Fan, now: Now, table: NudgeTable)
    requires Ready(c, cmd, f) && cmd.SetWifiClient?
    ensures TakesEffect(c, cmd, f, now, table)
  {
    hide WellHeld, Reading, FreshReading, Direct, Sendable, FromInt, ParsedIp, NetworkOf, AddressText;
    WifiBaseIsSafe(cmd.ssid, cmd.password, cmd.encryption, cmd.dhcp);
    NetworkTold(f.state);
    DefaultSubnet();
    if cmd.dhcp {
      NetworkNamed(c, cmd.ssid, cmd.password, cmd.encryption, true, f, now, table);
    } else {
      var ip, subnet, gateway := cmd.ip.value, Or(cmd.subnet, DEFAULT_SUBNET), Or(cmd.gateway, cmd.ip.value);
      WifiIpsAreFour(ip);
      WifiIpsAreFour(subnet);
      WifiIpsAreFour(gateway);
      NetworkAddressed(c, cmd.ssid, cmd.password, cmd.encryption, ParsedIp(ip).value, ParsedIp(subnet).value,
                       ParsedIp(gateway).value, f, now, table);
    }
  }

  // ---------------------------------------------------------------------------
  // All commands
  // ---------------------------------------------------------------------------

  lemma SafeIsReady(c: Client, cmd: Command, f: Fan)
    requires Safe(f) && CommandOp(cmd).Ok? && Sendable(c, CommandOp(cmd).value)
    ensures Ready(c, cmd, f)
  {
    Polling.SafeIsWellHeld(f);
    hide WellHeld, CommandOp, Sendable;
  }

  /**
   * Every command that is accepted and fits in a packet succeeds and makes a safe fan tell what the command
   * says: the fields it sets, with its arguments, and all others as before. A query changes nothing, and the
   * two speed steps are the subject of `SpeedStepsTakeEffect`.
   */
  lemma CommandsTakeEffect(c: Client, cmd: Command, f: Fan, now: Now, table: NudgeTable)
    requires Safe(f) && CommandOp(cmd).Ok? && Sendable(c, CommandOp(cmd).value)
    requires !cmd.SpeedUp? && !cmd.SpeedDown?
    ensures WellHeld(f.state)
    ensures var d := Direct(c, CommandOp(cmd).value, f, now, table);
            && (d.result.Ok? || cmd.Query?)
            && WellHeld(d.fan.state)
            && Reading(d.fan.state)
               == Wanted(cmd, Reading(f.state), FreshReading(f.index, f.id, f.unitType, now))
  {
    SafeIsReady(c, cmd, f);
    hide Safe, WellHeld, Reading, FreshReading, Sendable;
    if cmd.Query? {
      assert Direct(c, CommandOp(cmd).value, f, now, table).fan == f;
    } else {
      hide Direct, CommandOp, Wanted, Ready;
      WritesTakeEffect(c, cmd, f, now, table);
    }
  }

  lemma WritesTakeEffect(c: Client, cmd: Command, f: Fan, now: Now, table: NudgeTable)
    requires Ready(c, cmd, f) && !cmd.Query? && !cmd.SpeedUp? && !cmd.SpeedDown?
    ensures TakesEffect(c, cmd, f, now, table)
  {
    hide Ready, TakesEffect;
    if Modes(cmd) {
      ModesTakeEffect(c, cmd, f, now, table);
    } else if Sensors(cmd) {
      SensorsTakeEffect(c, cmd, f, now, table);
    } else if Enables(cmd) {
      EnablesTakeEffect(c, cmd, f, now, table);
    } else if Powers(cmd) {
      PowersTakeEffect(c, cmd, f, now, table);
    } else if Resets(cmd) {
      ResetsTakeEffect(c, cmd, f, now, table);
    } else if cmd.SetWifiClient? {
      WifiTakesEffect(c, cmd, f, now, table);
    } else if cmd.SetWifiAp? {
      AccessPointTakesEffect(c, cmd, f, now, table);
    } else if cmd.SetManualSpeed? || cmd.SetBoostStatus? {
      PairsTakeEffect(c, cmd, f, now, table);
    } else if cmd.SetNightTimer? || cmd.SetPartyTimer? || cmd.SetRtc? {
      TimersTakeEffect(c, cmd, f, now, table);
    } else {
      UntoldTakeEffect(c, cmd, f, now, table);
    }
  }

  /** The speed after a step is the nearest the table allows to one more or one less; nothing else changes. */
  lemma SpeedStepsTakeEffect(c: Client, up: bool, f: Fan, now: Now, table: NudgeTable, n: int)
    requires Safe(f) && StepsSpeed(table) && SPEED in table && Nudges.Allows(table[SPEED])
    requires Sendable(c, Nudges.Steps(SPEED, up))
    requires SPEED in f.state && Nudges.Nearest(table[SPEED], Nudges.Toward(Nudges.NumberIn(f, SPEED), up), n)
    ensures CommandOp(if up then SpeedUp else SpeedDown) == Ok(Nudges.Steps(SPEED, up))
    ensures WellHeld(f.state) && 1 <= n <= 3
    ensures var d := Direct(c, Nudges.Steps(SPEED, up), f, now, table);
            && d.result == Ok(map[SPEED := [n]])
            && Tells(d.fan.state, Reading(f.state).(speed := Some(n)))
  {
    hide Safe, StepsSpeed, WellHeld, Reading, Direct, Sendable;
    hide Nudges.Nearest, Nudges.Allows, Nudges.NumberIn, Nudges.Toward;
    Polling.SafeIsWellHeld(f);
    SpeedStaysPreset(table, Nudges.Toward(Nudges.NumberIn(f, SPEED), up), n);
    SpeedStepped(c, up, f, now, table, n);
    StaysWellHeld(f.state, SPEED, [n]);
    SpeedSet(f.state, [n]);
  }

  lemma SpeedStepped(c: Client, up: bool, f: Fan, now: Now, table: NudgeTable, n: int)
    requires StepsSpeed(table) && SPEED in table && Nudges.Allows(table[SPEED]) && 1 <= n <= 3
    requires Sendable(c, Nudges.Steps(SPEED, up))
    requires SPEED in f.state && Nudges.Nearest(table[SPEED], Nudges.Toward(Nudges.NumberIn(f, SPEED), up), n)
    ensures Direct(c, Nudges.Steps(SPEED, up), f, now, table) == Outcome(f.Set(SPEED, [n]), Ok(map[SPEED := [n]]))
  {
    hide StepsSpeed, Direct, Nudges.Nearest, Nudges.Allows, Nudges.NumberIn, Nudges.Toward, Sendable, Nudges.Storable;
    hide Nudges.StoredWidth;
    assert SaneTable(table) by { StepsAreSane(table); }
    Nudges.StepMoves(c, f, SPEED, up, now, table, Nudges.Toward(Nudges.NumberIn(f, SPEED), up), n);
    StepsInOneByte(table, Direct(c, Nudges.Steps(SPEED, up), f, now, table).fan, n);
  }

  lemma SpeedStaysPreset(table: NudgeTable, goal: int, n: int)
    requires StepsSpeed(table) && SPEED in table && Nudges.Nearest(table[SPEED], goal, n)
    ensures 1 <= n <= 3
  {
    var meta := table[SPEED];
    assert Clamp(meta.choices, Clamp(meta.range, n)) == n;
  }

  lemma StepsInOneByte(table: NudgeTable, g: Fan, n: int)
    requires StepsSpeed(table) && SPEED in table && 1 <= n <= 3
    ensures Nudges.StoredWidth(table[SPEED]) == 1 && Nudges.Storable(table[SPEED], n)
    ensures SPEED in g.state && |g.state[SPEED]| == 1 && Nudges.NumberIn(g, SPEED) == n ==> g.state[SPEED] == [n]
  {
    assert Pow256(1) == 256;
    if SPEED in g.state && |g.state[SPEED]| == 1 {
      OneByteInt(g.state[SPEED]);
    }
  }

  // ---------------------------------------------------------------------------
  // A command and the next poll
  // ---------------------------------------------------------------------------

  /** A poll of a safe fan tells its reading, unless its network name is too long. */
  lemma PollTells(c: Client, fleet: seq<Fan>, k: nat, now: Now, table: NudgeTable)
    requires Reachable(fleet) && k < |fleet| && SaneTable(table) && Safe(fleet[k])
    requires Frame.ValidCredentials(c.id, c.pwd) && c.id == fleet[k].id
    ensures WIFI_SSID in fleet[k].state && WellHeld(fleet[k].state)
    ensures var raw := Polling.Poll(c, ALL_PARAM_GROUPS, map[], fleet, now, table);
            if |fleet[k].state[WIFI_SSID]| <= Polling.MAX_SSID then
              raw.Ok? && Build(raw.value) == Ok(Reading(fleet[k].state))
            else raw == Err(Connection)
  {
    Polling.SafeIsWellHeld(fleet[k]);
    hide Safe, WellHeld, Reading, Reachable, Polling.Poll, Build, Visible;
    Polling.PollIsComplete(c, fleet, k, now, table);
    CompleteStateDecodes(fleet[k].state);
  }

  /** Through frames a command leaves its fan safe and telling what it should, and changes no other fan. */
  lemma CommandReaches(c: Client, cmd: Command, fleet: seq<Fan>, k: nat, now: Now, table: NudgeTable)
    requires Reachable(fleet) && k < |fleet| && Safe(fleet[k]) && c.id == fleet[k].id && StepsSpeed(table)
    requires CommandOp(cmd).Ok? && Sendable(c, CommandOp(cmd).value) && !cmd.SpeedUp? && !cmd.SpeedDown?
    ensures WellHeld(fleet[k].state)
    ensures var f, after := fleet[k], Exchange(c, CommandOp(cmd).value, fleet, now, table).fleet;
            && |after| == |fleet| && after == fleet[k := after[k]] && Reachable(after)
            && Safe(after[k]) && after[k].id == c.id
            && Tells(after[k].state,
                     Wanted(cmd, Reading(f.state), FreshReading(f.index, f.id, f.unitType, now)))
  {
    CommandsAreSafe(cmd);
    CommandKeepsSafe(c, cmd, fleet[k], now, table);
    CommandsTakeEffect(c, cmd, fleet[k], now, table);
    var op := CommandOp(cmd).value;
    SafeOpIsTyped(op);
    StepsAreSane(table);
    Routes.DirectKeepsId(c, op, fleet[k], now, table);
    hide Safe, StepsSpeed, WellHeld, Reading, FreshReading, Direct, CommandOp, Wanted, Exchange, Reachable, SafeOp;
    hide WellTyped, SaneTable, Sendable;
    ExchangeRefinesDirect(c, op, fleet, k, now, table);
  }

  lemma SafeOpIsTyped(op: Op)
    requires SafeOp(op)
    ensures WellTyped(op)
  {
  }

  /**
   * Through the wire: the state polled after a command is the one polled before it with the fields the command
   * sets, unless the network name is now too long for any poll.
   */
  lemma CommandThenPoll(c: Client, cmd: Command, fleet: seq<Fan>, k: nat, now: Now, later: Now, table: NudgeTable)
    requires Reachable(fleet) && k < |fleet| && Safe(fleet[k]) && c.id == fleet[k].id && StepsSpeed(table)
    requires CommandOp(cmd).Ok? && Sendable(c, CommandOp(cmd).value) && !cmd.SpeedUp? && !cmd.SpeedDown?
    ensures var f, after := fleet[k], Exchange(c, CommandOp(cmd).value, fleet, now, table).fleet;
            && |after| == |fleet| && WellHeld(f.state) && WIFI_SSID in after[k].state
            && var raw := Polling.Poll(c, ALL_PARAM_GROUPS, map[], after, later, table);
               if |after[k].state[WIFI_SSID]| <= Polling.MAX_SSID then
                 raw.Ok? && Build(raw.value)
                            == Ok(Wanted(cmd, Reading(f.state), FreshReading(f.index, f.id, f.unitType, now)))
               else raw == Err(Connection)
  {
    var after := Exchange(c, CommandOp(cmd).value, fleet, now, table).fleet;
    CommandReaches(c, cmd, fleet, k, now, table);
    assert Frame.ValidCredentials(c.id, c.pwd) && SaneTable(table);
    hide Safe, StepsSpeed, WellHeld, Reading, FreshReading, CommandOp, Wanted, Exchange, Reachable, Polling.Poll, Build;
    hide SaneTable, Sendable, Frame.ValidCredentials;
    PollTells(c, after, k, later, table);
  }
}
