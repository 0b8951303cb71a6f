/** The parameters no poll asks for: which command stores what in them, and that no other command touches them. */
module Untold {
  import opened Basics
  import opened Params
  import opened Decoders
  import opened FanSpec
  import opened Writes
  import opened Client
  import opened Commands
  import opened Values
  import opened Refusals
  import opened Effects
  import opened Nudges
  import Scenes

  /** One period of the weekly schedule. */
  datatype Period = Period(day: byte, period: byte, speed: byte, endHours: byte, endMinutes: byte)

  /** A period as the client decodes it; the fourth byte is reserved. */
  function PeriodOf(v: Bytes): Option<Period> {
    if |v| != 6 then None else Some(Period(v[0], v[1], v[2], v[5], v[4]))
  }

  /** The untold parameter a command stores something in. */
  function Target(cmd: Command): Option<Code> {
    match cmd
    case SetSchedulePeriod(_, _, _, _, _) => Some(SCHEDULE_SETUP)
    case GetSchedulePeriod(_, _) => Some(SCHEDULE_SETUP)
    case ChangePassword(_) => Some(DEVICE_PASSWORD)
    case SetWifiClient(_, _, _, _, _, _, _) => Some(WIFI_PASSWORD)
    case ApplyWifi => Some(WIFI_APPLY)
    case DiscardWifi => Some(WIFI_DISCARD)
    case _ => None
  }

  /** What it stores there. */
  predicate Stores(cmd: Command, v: Bytes) {
    match cmd
    case SetSchedulePeriod(day, period, speed, h, m) => PeriodOf(v) == Some(Period(day, period, speed, h, m))
    case GetSchedulePeriod(day, period) => PeriodOf(v) == Some(Period(day, period, 0, 0, 0))
    case ChangePassword(p) => v == p
    case SetWifiClient(_, password, _, _, _, _, _) => v == password
    case ApplyWifi => v == [1]
    case DiscardWifi => v == [1]
    case _ => true
  }

  /** A parameter that polls ask for, a reset of such parameters, or the one untold parameter. */
  predicate Own(c: Code, target: Option<Code>) {
    c != FACTORY_RESET && (Held(c) || c == FILTER_RESET || c == RESET_ALARMS || Some(c) == target)
  }

  /** A write list that leaves the untold parameters alone but possibly one. */
  ghost predicate TouchesOnly(ws: seq<Entry>, target: Option<Code>) {
    forall i :: 0 <= i < |ws| ==> Own(ws[i].code, target)
  }

  lemma UndecidedStays(f: Fan, ws: seq<Entry>, c: Code, now: Now)
    requires !HasCode(ws, FACTORY_RESET) && forall e :: e in ws ==> !Decides(e, c)
    ensures SameAt(DirectWrite(f, ws, now).fan.state, f.state, c)
  {
    var d := DictOf(ws);
    var eff := Effective(f.state, d);
    DictIsLastWins(ws);
    EffectiveIsPart(f.state, d);
    LastDeciderMem(eff, c);
    hide LastDecider, Effective, DictOf, Decides;
  }

  lemma OwnDecides(e: Entry, c: Code, target: Option<Code>)
    requires Own(e.code, target) && Decides(e, c)
    ensures Held(c) || Some(c) == target
  {
  }

  lemma TouchesNoOther(f: Fan, ws: seq<Entry>, target: Option<Code>, c: Code, now: Now)
    requires TouchesOnly(ws, target) && !Held(c) && Some(c) != target
    ensures SameAt(DirectWrite(f, ws, now).fan.state, f.state, c)
  {
    forall e | e in ws
      ensures !Decides(e, c)
    {
      if Decides(e, c) {
        OwnDecides(e, c, target);
      }
    }
    hide Held, Decides, DirectWrite;
    assert !HasCode(ws, FACTORY_RESET);
    UndecidedStays(f, ws, c, now);
  }

  lemma ModesTouch(cmd: Command)
    requires CommandOp(cmd).Ok? && (Modes(cmd) || Sensors(cmd))
    ensures CommandOp(cmd).value.Write? && TouchesOnly(CommandOp(cmd).value.writes, None)
  {
    hide WriteInt;
    match cmd {
      case SetSpeed(n) => ByteIsWritten(SPEED, n);
      case SetMode(n) => ByteIsWritten(OPERATION_MODE, n);
      case SetBoostDelay(n) => ByteIsWritten(BOOST_DELAY, n);
      case SetTimerMode(n) => ByteIsWritten(TIMER_MODE, n);
      case SetHumiditySensor(n) => ByteIsWritten(HUMIDITY_SENSOR, n);
      case SetHumidityThreshold(n) => ByteIsWritten(HUMIDITY_THRESHOLD, n);
      case SetRelaySensor(n) => ByteIsWritten(RELAY_SENSOR, n);
      case SetVoltageSensor(n) => ByteIsWritten(VOLTAGE_SENSOR, n);
      case SetVoltageThreshold(n) => ByteIsWritten(VOLTAGE_THRESHOLD, n);
    }
  }

  lemma SwitchesTouch(cmd: Command)
    requires CommandOp(cmd).Ok? && (Powers(cmd) || Enables(cmd) || cmd.ResetFilterTimer? || cmd.ResetAlarms?)
    ensures CommandOp(cmd).value.Write? && TouchesOnly(CommandOp(cmd).value.writes, Target(cmd))
    ensures Target(cmd).Some? ==> CommandOp(cmd).value.writes == [Entry(Target(cmd).value, [1])]
  {
    hide WriteInt;
    match cmd {
      case TurnOn => ByteIsWritten(POWER, 1);
      case TurnOff => ByteIsWritten(POWER, 0);
      case TogglePower => ByteIsWritten(POWER, 2);
      case EnableWeeklySchedule(on) => ByteIsWritten(WEEKLY_SCHEDULE_EN, Bit(on));
      case SetCloudPermission(on) => ByteIsWritten(CLOUD_PERMISSION, Bit(on));
      case ApplyWifi => ByteIsWritten(WIFI_APPLY, 1);
      case DiscardWifi => ByteIsWritten(WIFI_DISCARD, 1);
      case ResetFilterTimer => ByteIsWritten(FILTER_RESET, 1);
      case ResetAlarms => ByteIsWritten(RESET_ALARMS, 1);
    }
  }

  lemma PairsTouch(cmd: Command)
    requires CommandOp(cmd).Ok? && (cmd.SetManualSpeed? || cmd.SetWifiAp? || cmd.SetBoostStatus?)
    ensures var op := CommandOp(cmd).value; (op.Write? || op.WriteResp?) && TouchesOnly(op.writes, None)
  {
    hide FromInt;
    match cmd {
      case SetManualSpeed(n) => ByteFits(SPEED, 255); ByteFits(MANUAL_SPEED, n);
      case SetWifiAp(channel) => ByteFits(WIFI_MODE, 2); ByteFits(WIFI_CHANNEL, channel);
      case SetBoostStatus(on) => ByteFits(BOOST_STATUS, Bit(on));
    }
  }

  lemma BytesTouch(cmd: Command)
    requires CommandOp(cmd).Ok?
    requires cmd.SetNightTimer? || cmd.SetPartyTimer? || cmd.SetRtc? || cmd.SetSchedulePeriod? || cmd.GetSchedulePeriod?
          || cmd.ChangePassword?
    ensures var op := CommandOp(cmd).value; (op.Write? || op.WriteResp?) && TouchesOnly(op.writes, Target(cmd))
    ensures Target(cmd).Some? ==>
      var ws := CommandOp(cmd).value.writes; |ws| == 1 && ws[0].code == Target(cmd).value && Stores(cmd, ws[0].value)
  {
    hide FromInt, WriteInt;
  }

  lemma WifiTouches(cmd: Command)
    requires CommandOp(cmd).Ok? && cmd.SetWifiClient?
    ensures CommandOp(cmd).value.Write? && TouchesOnly(CommandOp(cmd).value.writes, Target(cmd))
    ensures var ws := CommandOp(cmd).value.writes;
            && DistinctCodes(ws) && (forall e :: e in ws ==> PlainWrite(e))
            && |ws| > 2 && ws[2] == Entry(WIFI_PASSWORD, cmd.password)
  {
    var base := WifiBase(cmd.ssid, cmd.password, cmd.encryption, cmd.dhcp);
    WifiBaseIsSafe(cmd.ssid, cmd.password, cmd.encryption, cmd.dhcp);
    NetworkWritesTouch(cmd.ssid, cmd.password, cmd.encryption, cmd.dhcp, [], [], []);
    if !cmd.dhcp {
      hide ParsedIp, FromInt;
      var more := AddressEntries(cmd.ip, cmd.subnet, cmd.gateway).value;
      assert more == AddressWrites(more[0].value, more[1].value, more[2].value);
      NetworkWritesTouch(cmd.ssid, cmd.password, cmd.encryption, false, more[0].value, more[1].value, more[2].value);
    }
    hide FromInt, AddressEntries, DistinctCodes, PlainWrite, TouchesOnly, WifiBase, AddressWrites;
  }

  lemma NetworkWritesTouch(ssid: Bytes, password: Bytes, encryption: byte, dhcp: bool, ip: Bytes, subnet: Bytes,
                           gateway: Bytes)
    ensures var base, more := WifiBase(ssid, password, encryption, dhcp), AddressWrites(ip, subnet, gateway);
            && DistinctCodes(base) && DistinctCodes(base + more)
            && (forall e :: e in base ==> PlainWrite(e)) && (forall e :: e in base + more ==> PlainWrite(e))
            && TouchesOnly(base, Some(WIFI_PASSWORD)) && TouchesOnly(base + more, Some(WIFI_PASSWORD))
            && |base| == 5 && base[2] == Entry(WIFI_PASSWORD, password)
            && (base + more)[2] == Entry(WIFI_PASSWORD, password)
  {
    NetworkWritesArePlain(ssid, password, encryption, dhcp, ip, subnet, gateway);
  }

  lemma {:induction false} StoredAt(f: Fan, ws: seq<Entry>, i: nat)
    requires i < |ws| && forall k :: i < k < |ws| ==> ws[k].code != ws[i].code
    ensures var g := Scenes.SetAll(f, ws); ws[i].code in g.state && g.state[ws[i].code] == ws[i].value
    decreases |ws|
  {
    var g := f.Set(ws[0].code, ws[0].value);
    if i > 0 {
      StoredAt(g, ws[1..], i - 1);
    } else {
      StaysStored(g, ws[1..], ws[0]);
    }
  }

  lemma {:induction false} StaysStored(f: Fan, ws: seq<Entry>, e: Entry)
    requires e.code in f.state && f.state[e.code] == e.value && forall k :: 0 <= k < |ws| ==> ws[k].code != e.code
    ensures var g := Scenes.SetAll(f, ws); e.code in g.state && g.state[e.code] == e.value
    decreases |ws|
  {
    if ws != [] {
      StaysStored(f.Set(ws[0].code, ws[0].value), ws[1..], e);
    }
  }

  lemma WriteStores(f: Fan, ws: seq<Entry>, i: nat, now: Now)
    requires i < |ws| && DistinctCodes(ws) && forall e :: e in ws ==> PlainWrite(e)
    ensures var s := DirectWrite(f, ws, now).fan.state; ws[i].code in s && s[ws[i].code] == ws[i].value
  {
    PlainWritesSet(f, ws, now);
    StoredAt(f, ws, i);
  }

  /** The writes of a command, its target among them. */
  lemma CommandTouches(cmd: Command, f: Fan, now: Now)
    requires CommandOp(cmd).Ok? && !cmd.FactoryReset? && !cmd.Query? && !cmd.SpeedUp? && !cmd.SpeedDown?
    ensures CommandOp(cmd).value.Write? || CommandOp(cmd).value.WriteResp?
    ensures TouchesOnly(CommandOp(cmd).value.writes, Target(cmd))
    ensures var s := DirectWrite(f, CommandOp(cmd).value.writes, now).fan.state;
            Target(cmd).Some? ==> Target(cmd).value in s && Stores(cmd, s[Target(cmd).value])
  {
    hide CommandOp, TouchesOnly, DirectWrite;
    if Modes(cmd) || Sensors(cmd) {
      ModesTouch(cmd);
    } else if Powers(cmd) || Enables(cmd) || cmd.ResetFilterTimer? || cmd.ResetAlarms? {
      SwitchesTouch(cmd);
      if Enables(cmd) && Target(cmd).Some? {
        WriteStores(f, CommandOp(cmd).value.writes, 0, now);
      }
    } else if cmd.SetWifiClient? {
      WifiTouches(cmd);
      WriteStores(f, CommandOp(cmd).value.writes, 2, now);
    } else if cmd.SetManualSpeed? || cmd.SetWifiAp? || cmd.SetBoostStatus? {
      PairsTouch(cmd);
    } else {
      BytesTouch(cmd);
      if Target(cmd).Some? {
        WriteStores(f, CommandOp(cmd).value.writes, 0, now);
      }
    }
  }

  lemma StepTouches(c: Client, up: bool, f: Fan, now: Now, table: NudgeTable, p: Code)
    requires p != SPEED
    ensures SameAt(Direct(c, Steps(SPEED, up), f, now, table).fan.state, f.state, p)
  {
    OneNudge(f, SPEED, if up then 1 else -1, table);
    NudgeIsLocal(f, f, SPEED, if up then 1 else -1, table);
    hide NudgeAll, Nudge, Told;
  }

  /**
   * A command stores what it says in the untold parameter it is about, if any, and leaves every other as it
   * was; only a factory reset forgets them all.
   */
  lemma UntoldParameters(c: Client, cmd: Command, f: Fan, now: Now, table: NudgeTable, p: Code)
    requires CommandOp(cmd).Ok? && Sendable(c, CommandOp(cmd).value) && !Held(p)
    ensures var s := Direct(c, CommandOp(cmd).value, f, now, table).fan.state;
            if cmd.FactoryReset? then p !in s
            else if Target(cmd) == Some(p) then p in s && Stores(cmd, s[p])
            else SameAt(s, f.state, p)
  {
    hide Sendable, Told, DirectWrite, Stores, TouchesOnly, NewFan;
    if cmd.FactoryReset? {
      ByteIsWritten(FACTORY_RESET, 1);
      FreshlyWritten(f, now);
      FreshHoldsNothingElse(f, now, p);
    } else if cmd.Query? {
    } else if cmd.SpeedUp? || cmd.SpeedDown? {
      StepTouches(c, cmd.SpeedUp?, f, now, table, p);
    } else {
      hide CommandOp;
      CommandTouches(cmd, f, now);
      if Target(cmd) != Some(p) {
        TouchesNoOther(f, CommandOp(cmd).value.writes, Target(cmd), p, now);
      }
    }
  }

  lemma FreshHoldsNothingElse(f: Fan, now: Now, p: Code)
    requires !Held(p)
    ensures p !in NewFan(f.index, f.id, f.unitType, now).state
  {
  }
}
