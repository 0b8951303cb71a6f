/** What a fan tells when it is new, and so after a factory reset. */
module FreshFans {
  import opened Basics
  import opened Params
  import opened FanSpec
  import opened States
  import opened Values
  import Commands
  import Decimal
  import Polling
  import Ticks

  ghost function FreshNetwork(): WifiConfig {
    WifiConfig(1, "SimNetwork", 52, 6, true, "192.168.1.100", "255.255.255.0", "192.168.1.1", "127.0.0.1")
  }

  /** The documented defaults; power, speed, mode and humidity go round with the index. */
  ghost function FreshReading(index: nat, id: Bytes, unitType: Word, now: Now): DeviceState {
    DeviceState(
      TextOf(id), unitType,
      Some(index % 3 != 0), Some([1, 2, 3][index % 3]), Some(128), Some(index % 3),
      Some(false), Some(0),
      Some(0), Some(TimeOfDay(0, 0, 0)), Some(Timer(8, 0)), Some(Timer(4, 0)),
      Some(1), Some(60), Some([48, 63, 72][index % 3]), Some(false), Some(0), Some(false),
      Some(0), Some(50), Some(0), Some(false),
      Some(0), Some(0), Some(Span(180, 0, 0)), Some(false),
      Some(0), Some(Span(0, 0, 0)), Some(4800),
      Some(Firmware(1, 2, 6, 3, 2024)), Some(TimeOfDay(now.hour, now.minute, now.second)),
      Some(Calendar(2000 + now.year % 100, now.month, now.day, now.weekday + 1)),
      Some(false), Some(false), Some(FreshNetwork()))
  }

  lemma FreshIsWellHeld(index: nat, id: Bytes, unitType: Word, now: Now)
    requires |id| == 16
    ensures WellHeld(NewFan(index, id, unitType, now).state)
  {
    Commands.InitialIsSafe(index, id, unitType, now);
    Polling.SafeIsWellHeld(NewFan(index, id, unitType, now));
  }

  const NETWORK_NAME: Bytes := [0x53, 0x69, 0x6D, 0x4E, 0x65, 0x74, 0x77, 0x6F, 0x72, 0x6B]

  function At(s: map<Code, Bytes>, c: Code): Bytes { if c in s then s[c] else [] }

  lemma FreshAt(index: nat, id: Bytes, unitType: Word, now: Now, c: Code)
    requires Held(c)
    ensures At(NewFan(index, id, unitType, now).state, c) == Initial(c, id, unitType, VariantOf(index), now)
  {
  }

  lemma FreshSwitches(index: nat, id: Bytes, unitType: Word, now: Now)
    requires |id| == 16
    ensures var s := NewFan(index, id, unitType, now).state;
            && At(s, POWER) == [if index % 3 == 0 then 0 else 1]
            && At(s, BOOST_STATUS) == [0]
            && At(s, HUMIDITY_STATUS) == [0]
            && At(s, RELAY_STATE) == [0]
  {
    hide NewFan, At, ToBytes;
    FreshAt(index, id, unitType, now, POWER);
    FreshAt(index, id, unitType, now, BOOST_STATUS);
    FreshAt(index, id, unitType, now, HUMIDITY_STATUS);
    FreshAt(index, id, unitType, now, RELAY_STATE);
  }

  lemma FreshFlags(index: nat, id: Bytes, unitType: Word, now: Now)
    requires |id| == 16
    ensures var s := NewFan(index, id, unitType, now).state;
            && At(s, VOLTAGE_STATUS) == [0]
            && At(s, FILTER_INDICATOR) == [0]
            && At(s, WEEKLY_SCHEDULE_EN) == [0]
            && At(s, CLOUD_PERMISSION) == [0]
  {
    hide NewFan, At, ToBytes;
    FreshAt(index, id, unitType, now, VOLTAGE_STATUS);
    FreshAt(index, id, unitType, now, FILTER_INDICATOR);
    FreshAt(index, id, unitType, now, WEEKLY_SCHEDULE_EN);
    FreshAt(index, id, unitType, now, CLOUD_PERMISSION);
  }

  lemma FreshSpeeds(index: nat, id: Bytes, unitType: Word, now: Now)
    requires |id| == 16
    ensures var s := NewFan(index, id, unitType, now).state;
            && At(s, SPEED) == [[1, 2, 3][index % 3]]
            && At(s, MANUAL_SPEED) == [128]
            && At(s, OPERATION_MODE) == [index % 3]
            && At(s, BOOST_DELAY) == [0]
  {
    hide NewFan, At, ToBytes;
    FreshAt(index, id, unitType, now, SPEED);
    FreshAt(index, id, unitType, now, MANUAL_SPEED);
    FreshAt(index, id, unitType, now, OPERATION_MODE);
    FreshAt(index, id, unitType, now, BOOST_DELAY);
  }

  lemma FreshHumidity(index: nat, id: Bytes, unitType: Word, now: Now)
    requires |id| == 16
    ensures var s := NewFan(index, id, unitType, now).state;
            && At(s, TIMER_MODE) == [0]
            && At(s, HUMIDITY_SENSOR) == [1]
            && At(s, HUMIDITY_THRESHOLD) == [60]
            && At(s, CURRENT_HUMIDITY) == [[48, 63, 72][index % 3]]
  {
    Small(48);
    Small(63);
    Small(72);
    hide NewFan, At, ToBytes;
    FreshAt(index, id, unitType, now, TIMER_MODE);
    FreshAt(index, id, unitType, now, HUMIDITY_SENSOR);
    FreshAt(index, id, unitType, now, HUMIDITY_THRESHOLD);
    FreshAt(index, id, unitType, now, CURRENT_HUMIDITY);
  }

  lemma FreshVoltage(index: nat, id: Bytes, unitType: Word, now: Now)
    requires |id| == 16
    ensures var s := NewFan(index, id, unitType, now).state;
            && At(s, RELAY_SENSOR) == [0]
            && At(s, VOLTAGE_SENSOR) == [0]
            && At(s, VOLTAGE_THRESHOLD) == [50]
            && At(s, VOLTAGE_SENSOR_VAL) == [0]
            && At(s, ALARM_STATUS) == [0]
  {
    hide NewFan, At, ToBytes;
    FreshAt(index, id, unitType, now, RELAY_SENSOR);
    FreshAt(index, id, unitType, now, VOLTAGE_SENSOR);
    FreshAt(index, id, unitType, now, VOLTAGE_THRESHOLD);
    FreshAt(index, id, unitType, now, VOLTAGE_SENSOR_VAL);
    FreshAt(index, id, unitType, now, ALARM_STATUS);
  }

  lemma FreshWords(index: nat, id: Bytes, unitType: Word, now: Now)
    requires |id| == 16
    ensures var s := NewFan(index, id, unitType, now).state;
            && At(s, DEVICE_SEARCH) == id
            && At(s, FAN1_SPEED) == [0, 0]
            && At(s, FAN2_SPEED) == [0, 0]
            && At(s, BATTERY_VOLTAGE) == [192, 18]
  {
    Zeros();
    hide NewFan, At, ToBytes;
    FreshAt(index, id, unitType, now, DEVICE_SEARCH);
    FreshAt(index, id, unitType, now, FAN1_SPEED);
    FreshAt(index, id, unitType, now, FAN2_SPEED);
    FreshAt(index, id, unitType, now, BATTERY_VOLTAGE);
  }

  lemma FreshTimers(index: nat, id: Bytes, unitType: Word, now: Now)
    requires |id| == 16
    ensures var s := NewFan(index, id, unitType, now).state;
            && At(s, NIGHT_TIMER) == [0, 8]
            && At(s, PARTY_TIMER) == [0, 4]
            && At(s, TIMER_COUNTDOWN) == [0, 0, 0]
            && At(s, FILTER_COUNTDOWN) == [0, 0, 180]
            && At(s, MACHINE_HOURS) == [0, 0, 0, 0]
  {
    Zeros();
    hide NewFan, At, ToBytes;
    FreshAt(index, id, unitType, now, NIGHT_TIMER);
    FreshAt(index, id, unitType, now, PARTY_TIMER);
    FreshAt(index, id, unitType, now, TIMER_COUNTDOWN);
    FreshAt(index, id, unitType, now, FILTER_COUNTDOWN);
    FreshAt(index, id, unitType, now, MACHINE_HOURS);
  }

  lemma FreshRest(index: nat, id: Bytes, unitType: Word, now: Now)
    requires |id| == 16
    ensures var s := NewFan(index, id, unitType, now).state;
            && At(s, FIRMWARE_VERSION) == [1, 2, 6, 3, 232, 7]
            && At(s, RTC_TIME) == RtcTime(now)
            && At(s, RTC_CALENDAR) == RtcCalendar(now)
            && At(s, UNIT_TYPE) == ToBytes(unitType, 2)
  {
    hide NewFan, At, ToBytes;
    FreshAt(index, id, unitType, now, FIRMWARE_VERSION);
    FreshAt(index, id, unitType, now, RTC_TIME);
    FreshAt(index, id, unitType, now, RTC_CALENDAR);
    FreshAt(index, id, unitType, now, UNIT_TYPE);
  }

  lemma FreshNames(index: nat, id: Bytes, unitType: Word, now: Now)
    requires |id| == 16
    ensures var s := NewFan(index, id, unitType, now).state;
            && At(s, WIFI_MODE) == [1]
            && At(s, WIFI_ENCRYPTION) == [52]
            && At(s, WIFI_CHANNEL) == [6]
            && At(s, WIFI_DHCP) == [1]
            && At(s, WIFI_SSID) == NETWORK_NAME
  {
    hide NewFan, At, ToBytes;
    FreshAt(index, id, unitType, now, WIFI_MODE);
    FreshAt(index, id, unitType, now, WIFI_ENCRYPTION);
    FreshAt(index, id, unitType, now, WIFI_CHANNEL);
    FreshAt(index, id, unitType, now, WIFI_DHCP);
    FreshAt(index, id, unitType, now, WIFI_SSID);
  }

  lemma FreshAddresses(index: nat, id: Bytes, unitType: Word, now: Now)
    requires |id| == 16
    ensures var s := NewFan(index, id, unitType, now).state;
            && At(s, WIFI_IP) == [192, 168, 1, 100]
            && At(s, WIFI_SUBNET) == [255, 255, 255, 0]
            && At(s, WIFI_GATEWAY) == [192, 168, 1, 1]
            && At(s, WIFI_CURRENT_IP) == [127, 0, 0, 1]
  {
    hide NewFan, At, ToBytes;
    FreshAt(index, id, unitType, now, WIFI_IP);
    FreshAt(index, id, unitType, now, WIFI_SUBNET);
    FreshAt(index, id, unitType, now, WIFI_GATEWAY);
    FreshAt(index, id, unitType, now, WIFI_CURRENT_IP);
  }

  lemma Small(n: byte)
    ensures ToBytes(n, 1) == [n]
  {
  }

  lemma Zeros()
    ensures ToBytes(0, 2) == [0, 0] && ToBytes(0, 3) == [0, 0, 0] && ToBytes(0, 4) == [0, 0, 0, 0]
    ensures ToBytes(4800, 2) == [192, 18]
  {
  }

  lemma FreshTexts()
    ensures TextOf(NETWORK_NAME) == "SimNetwork"
    ensures AddressText([192, 168, 1, 100]) == "192.168.1.100" && AddressText([255, 255, 255, 0]) == "255.255.255.0"
  {
    FreshDigits();
    hide Decimal.Digits;
    assert PrintedIp([192, 168, 1, 100]).value == [49, 57, 50, 46, 49, 54, 56, 46, 49, 46, 49, 48, 48];
    assert PrintedIp([255, 255, 255, 0]).value == [50, 53, 53, 46, 50, 53, 53, 46, 50, 53, 53, 46, 48];
  }

  lemma OtherTexts()
    ensures AddressText([192, 168, 1, 1]) == "192.168.1.1" && AddressText([127, 0, 0, 1]) == "127.0.0.1"
  {
    FreshDigits();
    hide Decimal.Digits;
    assert PrintedIp([192, 168, 1, 1]).value == [49, 57, 50, 46, 49, 54, 56, 46, 49, 46, 49];
    assert PrintedIp([127, 0, 0, 1]).value == [49, 50, 55, 46, 48, 46, 48, 46, 49];
  }

  lemma FreshDigits()
    ensures Decimal.Digits(192) == [49, 57, 50] && Decimal.Digits(168) == [49, 54, 56] && Decimal.Digits(1) == [49]
    ensures Decimal.Digits(100) == [49, 48, 48] && Decimal.Digits(255) == [50, 53, 53] && Decimal.Digits(0) == [48]
    ensures Decimal.Digits(127) == [49, 50, 55]
  {
    assert Decimal.Digits(19) == [49, 57] && Decimal.Digits(16) == [49, 54] && Decimal.Digits(10) == [49, 48];
    assert Decimal.Digits(25) == [50, 53] && Decimal.Digits(12) == [49, 50];
  }

  lemma FreshNetworkTold(index: nat, id: Bytes, unitType: Word, now: Now)
    requires |id| == 16 && WellHeld(NewFan(index, id, unitType, now).state)
    ensures NetworkOf(NewFan(index, id, unitType, now).state) == FreshNetwork()
  {
    hide NewFan, WellHeld, TextOf, PrintedIp, Held, Width, IsByte;
    FreshNames(index, id, unitType, now);
    FreshAddresses(index, id, unitType, now);
    FreshTexts();
    OtherTexts();
  }

  /** A new fan tells the documented defaults of its kind. */
  lemma FreshTells(index: nat, id: Bytes, unitType: Word, now: Now)
    requires |id| == 16
    ensures WellHeld(NewFan(index, id, unitType, now).state)
    ensures Reading(NewFan(index, id, unitType, now).state) == FreshReading(index, id, unitType, now)
    ensures var f := NewFan(index, id, unitType, now);
            f.rpm1 == f.rpm2 == 0.0 && f.humidity == [48.0, 63.0, 72.0][index % 3] && f.index == index && f.id == id
  {
    FreshOtherwise(index, id, unitType, now);
    hide NewFan, WellHeld, TextOf, Held, Width, IsByte, IsWord, NetworkOf, FreshNetwork, ToBytes;
    FreshIsWellHeld(index, id, unitType, now);
    FreshSwitches(index, id, unitType, now);
    FreshFlags(index, id, unitType, now);
    FreshSpeeds(index, id, unitType, now);
    FreshHumidity(index, id, unitType, now);
    FreshVoltage(index, id, unitType, now);
    FreshWords(index, id, unitType, now);
    FreshTimers(index, id, unitType, now);
    FreshRest(index, id, unitType, now);
    FreshNetworkTold(index, id, unitType, now);
    TypeTold(unitType);
  }

  lemma FreshOtherwise(index: nat, id: Bytes, unitType: Word, now: Now)
    ensures var f := NewFan(index, id, unitType, now);
            f.rpm1 == f.rpm2 == 0.0 && f.humidity == [48.0, 63.0, 72.0][index % 3] && f.index == index && f.id == id
  {
  }

  lemma TypeTold(unitType: Word)
    ensures var v := ToBytes(unitType, 2); WordOf(v[0], v[1]) == unitType
  {
    Ticks.TwoBytesOf(unitType);
  }
}
