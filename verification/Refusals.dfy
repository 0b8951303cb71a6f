/** Which arguments the client's commands refuse, and how. */
module Refusals {
  import opened Basics
  import opened Params
  import opened Client
  import opened Commands
  import opened Values
  import Decimal

  /** An address that may be left out, or must be well-formed. */
  predicate OptionalAddress(a: Option<Bytes>) { a.Some? ==> ParsedIp(a.value).Ok? }

  /** The arguments each command documents. */
  predicate Accepted(cmd: Command) {
    match cmd
    case SetSpeed(n) => 1 <= n <= 3
    case SetMode(n) => n <= 2
    case SetBoostDelay(n) => n <= 60
    case SetTimerMode(n) => n <= 2
    case SetNightTimer(h, m) => h < 24 && m < 60
    case SetPartyTimer(h, m) => h < 24 && m < 60
    case SetHumiditySensor(n) => n <= 2
    case SetHumidityThreshold(n) => 40 <= n <= 80
    case SetRelaySensor(n) => n <= 2
    case SetVoltageSensor(n) => n <= 2
    case SetVoltageThreshold(n) => 5 <= n <= 100
    case SetSchedulePeriod(day, period, speed, h, m) => day <= 9 && 1 <= period <= 4 && speed <= 3 && h < 24 && m < 60
    case GetSchedulePeriod(day, period) => day <= 9 && 1 <= period <= 4
    case SetWifiClient(_, _, dhcp, _, ip, subnet, gateway) =>
      dhcp || (ip.Some? && OptionalAddress(ip) && OptionalAddress(subnet) && OptionalAddress(gateway))
    case SetWifiAp(channel) => 1 <= channel <= 13
    case ChangePassword(p) => |p| <= 8
    case _ => true
  }

  lemma ByteFits(p: Param, n: byte)
    requires Width(p) == 1
    ensures FromInt(p, n) == Ok(Entry(p, [n]))
  {
    SmallInts(n);
  }

  lemma ByteIsWritten(p: Param, n: byte)
    requires Width(p) == 1
    ensures WriteInt(p, n) == Ok(Write([Entry(p, [n])]))
  {
    ByteFits(p, n);
  }

  lemma DefaultSubnet()
    ensures ParsedIp(DEFAULT_SUBNET) == Ok([255, 255, 255, 0])
  {
    IpRoundTrip([255, 255, 255, 0]);
    assert Decimal.Digits(255) == [50, 53, 53];
    assert Decimal.Digits(0) == [48];
    assert PrintedIp([255, 255, 255, 0]).value == DEFAULT_SUBNET;
  }

  lemma MalformedAddress(a: Bytes)
    ensures ParsedIp(a).Err? ==> ParsedIp(a).error == Protocol
  {
  }

  /** Refused exactly outside the documented arguments, with that error. */
  ghost predicate RefusedAs(cmd: Command, e: Error) {
    (CommandOp(cmd).Ok? <==> Accepted(cmd)) && (CommandOp(cmd).Err? ==> CommandOp(cmd).error == e)
  }

  lemma ChecksRefuse(cmd: Command)
    requires Modes(cmd) || Sensors(cmd)
    ensures RefusedAs(cmd, Value)
  {
    match cmd {
      case SetSpeed(n) => ByteIsWritten(SPEED, n);
      case SetMode(n) => ByteIsWritten(OPERATION_MODE, n);
      case SetBoostDelay(n) => ByteIsWritten(BOOST_DELAY, n);
      case SetTimerMode(n) => ByteIsWritten(TIMER_MODE, n);
      case SetHumiditySensor(n) => ByteIsWritten(HUMIDITY_SENSOR, n);
      case SetHumidityThreshold(n) => ByteIsWritten(HUMIDITY_THRESHOLD, n);
      case SetRelaySensor(n) => ByteIsWritten(RELAY_SENSOR, n);
      case SetVoltageSensor(n) => ByteIsWritten(VOLTAGE_SENSOR, n);
      case SetVoltageThreshold(n) => ByteIsWritten(VOLTAGE_THRESHOLD, n);
    }
    hide WriteInt;
  }

  lemma PowersRefuse(cmd: Command)
    requires Powers(cmd) || Resets(cmd)
    ensures RefusedAs(cmd, Value)
  {
    match cmd {
      case TurnOn => ByteIsWritten(POWER, 1);
      case TurnOff => ByteIsWritten(POWER, 0);
      case TogglePower => ByteIsWritten(POWER, 2);
      case ResetFilterTimer => ByteIsWritten(FILTER_RESET, 1);
      case ResetAlarms => ByteIsWritten(RESET_ALARMS, 1);
      case FactoryReset => ByteIsWritten(FACTORY_RESET, 1);
    }
    hide WriteInt;
  }

  lemma EnablesRefuse(cmd: Command)
    requires Enables(cmd)
    ensures RefusedAs(cmd, Value)
  {
    match cmd {
      case EnableWeeklySchedule(on) => ByteIsWritten(WEEKLY_SCHEDULE_EN, Bit(on));
      case SetCloudPermission(on) => ByteIsWritten(CLOUD_PERMISSION, Bit(on));
      case ApplyWifi => ByteIsWritten(WIFI_APPLY, 1);
      case DiscardWifi => ByteIsWritten(WIFI_DISCARD, 1);
    }
    hide WriteInt;
  }

  lemma AddressesRefuse(ip: Option<Bytes>, subnet: Option<Bytes>, gateway: Option<Bytes>)
    ensures var r := AddressEntries(ip, subnet, gateway);
            && (r.Ok? <==> ip.Some? && OptionalAddress(ip) && OptionalAddress(subnet) && OptionalAddress(gateway))
            && (r.Err? ==> r.error == if ip.Some? then Protocol else Value)
  {
    DefaultSubnet();
    if ip.Some? {
      MalformedAddress(ip.value);
      MalformedAddress(Or(subnet, DEFAULT_SUBNET));
      MalformedAddress(Or(gateway, ip.value));
    }
    hide ParsedIp;
  }

  lemma NetworkRefuses(ssid: Bytes, password: Bytes, dhcp: bool, encryption: byte,
                       ip: Option<Bytes>, subnet: Option<Bytes>, gateway: Option<Bytes>)
    ensures var r, a := WifiClientOp(ssid, password, dhcp, encryption, ip, subnet, gateway),
                        AddressEntries(ip, subnet, gateway);
            && (r.Ok? <==> dhcp || a.Ok?)
            && (r.Err? ==> r.error == a.error)
  {
    WifiBaseIsSafe(ssid, password, encryption, dhcp);
    hide FromInt, AddressEntries;
  }

  lemma WifiRefuses(cmd: Command)
    requires cmd.SetWifiClient?
    ensures RefusedAs(cmd, if cmd.ip.Some? then Protocol else Value)
  {
    hide WifiClientOp, AddressEntries, OptionalAddress;
    AddressesRefuse(cmd.ip, cmd.subnet, cmd.gateway);
    NetworkRefuses(cmd.ssid, cmd.password, cmd.dhcp, cmd.encryption, cmd.ip, cmd.subnet, cmd.gateway);
  }

  lemma OthersRefuse(cmd: Command)
    requires !Modes(cmd) && !Sensors(cmd) && !Powers(cmd) && !Enables(cmd) && !Resets(cmd) && !cmd.SetWifiClient?
    ensures RefusedAs(cmd, Value)
  {
    ByteFits(SPEED, 255);
    ByteFits(WIFI_MODE, 2);
    match cmd {
      case SetManualSpeed(n) => ByteFits(MANUAL_SPEED, n);
      case SetWifiAp(channel) => ByteFits(WIFI_CHANNEL, channel);
      case SetBoostStatus(on) => ByteFits(BOOST_STATUS, Bit(on));
      case _ =>
    }
    hide FromInt, Width, IsParam, WriteInt;
  }

  /**
   * A command is refused exactly for arguments outside what it documents: malformed addresses as a protocol
   * error, everything else as a value error.
   */
  lemma RefusedExactly(cmd: Command)
    ensures CommandOp(cmd).Ok? <==> Accepted(cmd)
    ensures CommandOp(cmd).Err? ==>
      CommandOp(cmd).error == if cmd.SetWifiClient? && cmd.ip.Some? then Protocol else Value
  {
    hide CommandOp, Accepted;
    if Modes(cmd) || Sensors(cmd) {
      ChecksRefuse(cmd);
    } else if Powers(cmd) || Resets(cmd) {
      PowersRefuse(cmd);
    } else if Enables(cmd) {
      EnablesRefuse(cmd);
    } else if cmd.SetWifiClient? {
      WifiRefuses(cmd);
    } else {
      OthersRefuse(cmd);
    }
  }
}
