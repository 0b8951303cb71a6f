/** The client's device state: what it decodes from the parameters of a poll. */
module States {
  import opened Basics
  import opened Params
  import opened FanSpec
  import opened Values

  datatype TimeOfDay = TimeOfDay(hours: byte, minutes: byte, seconds: byte)
  datatype Calendar = Calendar(year: nat, month: byte, day: byte, dayOfWeek: byte)
  datatype Firmware = Firmware(major: byte, minor: byte, day: byte, month: byte, year: nat)
  datatype Span = Span(days: nat, hours: byte, minutes: byte)
  datatype Timer = Timer(hours: byte, minutes: byte)

  datatype WifiConfig = WifiConfig(
    mode: byte, ssid: string, encryption: byte, channel: byte, dhcp: bool,
    ip: string, subnet: string, gateway: string, currentIp: string)

  datatype DeviceState = DeviceState(
    deviceId: string, unitType: nat,
    power: Option<bool>, speed: Option<byte>, manualSpeed: Option<byte>, operationMode: Option<byte>,
    boostActive: Option<bool>, boostDelay: Option<byte>,
    timerMode: Option<byte>, timerCountdown: Option<TimeOfDay>, nightTimer: Option<Timer>, partyTimer: Option<Timer>,
    humiditySensor: Option<byte>, humidityThreshold: Option<byte>, currentHumidity: Option<byte>,
    humidityStatus: Option<bool>, relaySensor: Option<byte>, relayState: Option<bool>,
    voltageSensor: Option<byte>, voltageThreshold: Option<byte>, voltageSensorValue: Option<byte>,
    voltageStatus: Option<bool>,
    fan1Rpm: Option<nat>, fan2Rpm: Option<nat>, filterCountdown: Option<Span>, filterNeedsReplacement: Option<bool>,
    alarmStatus: Option<byte>, machineHours: Option<Span>, batteryVoltage: Option<nat>,
    firmware: Option<Firmware>, rtcTime: Option<TimeOfDay>, rtcCalendar: Option<Calendar>,
    weeklySchedule: Option<bool>, cloudPermitted: Option<bool>, wifi: Option<WifiConfig>)

  /** The text of ASCII bytes; any other byte reads as a question mark. */
  function TextOf(bs: Bytes): (s: string)
    ensures |s| == |bs|
  {
    seq(|bs|, i requires 0 <= i < |bs| => if bs[i] < 128 then bs[i] as char else '?')
  }

  // ---------------------------------------------------------------------------
  // Decoding
  // ---------------------------------------------------------------------------

  function OrElse<T>(o: Option<T>, d: T): T { if o.Some? then o.value else d }

  function ByteField(raw: map<Code, Bytes>, c: Code): Option<byte> {
    if c in raw then Some(FromBytes(raw[c]) % 256) else None
  }

  function WordField(raw: map<Code, Bytes>, c: Code): Option<nat> {
    if c in raw then Some(FromBytes(raw[c]) % 0x10000) else None
  }

  function BoolField(raw: map<Code, Bytes>, c: Code): Option<bool> {
    if c in raw then Some(FromBytes(raw[c]) != 0) else None
  }

  function TextField(raw: map<Code, Bytes>, c: Code): string {
    if c in raw then TextOf(raw[c]) else ""
  }

  /** An address in print; bytes that are no address read as the empty text. */
  function AddressText(v: Bytes): string {
    var p := PrintedIp(v);
    if p.Ok? then TextOf(p.value) else ""
  }

  function AddressField(raw: map<Code, Bytes>, c: Code): string {
    if c in raw then AddressText(raw[c]) else ""
  }

  function BytesField(raw: map<Code, Bytes>, c: Code, size: nat): Option<Bytes> {
    if c in raw && |raw[c]| == size then Some(raw[c]) else None
  }

  function TimeField(raw: map<Code, Bytes>, c: Code): Option<TimeOfDay> {
    var v := BytesField(raw, c, 3);
    if v.None? then None else Some(TimeOfDay(v.value[2], v.value[1], v.value[0]))
  }

  function TimerField(raw: map<Code, Bytes>, c: Code): Option<Timer> {
    if c in raw && |raw[c]| >= 2 then Some(Timer(raw[c][1], raw[c][0])) else None
  }

  function FilterField(raw: map<Code, Bytes>): Option<Span> {
    var v := BytesField(raw, FILTER_COUNTDOWN, 3);
    if v.None? then None else Some(Span(v.value[2], v.value[1], v.value[0]))
  }

  function MachineField(raw: map<Code, Bytes>): Option<Span> {
    var v := BytesField(raw, MACHINE_HOURS, 4);
    if v.None? then None else Some(Span(FromBytes(v.value[2..]), v.value[1], v.value[0]))
  }

  function FirmwareField(raw: map<Code, Bytes>): Option<Firmware> {
    var v := BytesField(raw, FIRMWARE_VERSION, 6);
    if v.None? then None
    else Some(Firmware(v.value[0], v.value[1], v.value[2], v.value[3], FromBytes(v.value[4..])))
  }

  function CalendarField(raw: map<Code, Bytes>): Option<Calendar> {
    var v := BytesField(raw, RTC_CALENDAR, 4);
    if v.None? then None else Some(Calendar(2000 + v.value[3] as nat, v.value[2], v.value[0], v.value[1]))
  }

  predicate HasWifi(raw: map<Code, Bytes>) { WIFI_MODE in raw || WIFI_SSID in raw || WIFI_IP in raw }

  function WifiField(raw: map<Code, Bytes>): Option<WifiConfig> {
    if !HasWifi(raw) then None
    else Some(WifiConfig(
      OrElse(ByteField(raw, WIFI_MODE), 0), TextField(raw, WIFI_SSID), OrElse(ByteField(raw, WIFI_ENCRYPTION), 52),
      OrElse(ByteField(raw, WIFI_CHANNEL), 1), OrElse(BoolField(raw, WIFI_DHCP), true), AddressField(raw, WIFI_IP),
      AddressField(raw, WIFI_SUBNET), AddressField(raw, WIFI_GATEWAY), AddressField(raw, WIFI_CURRENT_IP)))
  }

  /** The parameters decoded as integers; those of the network only when there is a network block. */
  predicate IsIntField(raw: map<Code, Bytes>, c: Code) {
    || c in {POWER, SPEED, MANUAL_SPEED, OPERATION_MODE, BOOST_STATUS, BOOST_DELAY, TIMER_MODE, UNIT_TYPE}
    || c in {HUMIDITY_SENSOR, HUMIDITY_THRESHOLD, CURRENT_HUMIDITY, HUMIDITY_STATUS, RELAY_SENSOR, RELAY_STATE}
    || c in {VOLTAGE_SENSOR, VOLTAGE_THRESHOLD, VOLTAGE_SENSOR_VAL, VOLTAGE_STATUS, FAN1_SPEED, FAN2_SPEED}
    || c in {FILTER_INDICATOR, ALARM_STATUS, BATTERY_VOLTAGE, WEEKLY_SCHEDULE_EN, CLOUD_PERMISSION}
    || (HasWifi(raw) && c in {WIFI_MODE, WIFI_ENCRYPTION, WIFI_CHANNEL, WIFI_DHCP})
  }

  /** The decoded state; an integer field of more than eight bytes overflows its shift. */
  function Build(raw: map<Code, Bytes>): Result<DeviceState> {
    if exists c :: c in raw && IsIntField(raw, c) && |raw[c]| > 8 then Err(Crash)
    else Ok(DeviceState(
      TextField(raw, DEVICE_SEARCH), OrElse(WordField(raw, UNIT_TYPE), 0),
      BoolField(raw, POWER), ByteField(raw, SPEED), ByteField(raw, MANUAL_SPEED), ByteField(raw, OPERATION_MODE),
      BoolField(raw, BOOST_STATUS), ByteField(raw, BOOST_DELAY),
      ByteField(raw, TIMER_MODE), TimeField(raw, TIMER_COUNTDOWN), TimerField(raw, NIGHT_TIMER),
      TimerField(raw, PARTY_TIMER),
      ByteField(raw, HUMIDITY_SENSOR), ByteField(raw, HUMIDITY_THRESHOLD), ByteField(raw, CURRENT_HUMIDITY),
      BoolField(raw, HUMIDITY_STATUS), ByteField(raw, RELAY_SENSOR), BoolField(raw, RELAY_STATE),
      ByteField(raw, VOLTAGE_SENSOR), ByteField(raw, VOLTAGE_THRESHOLD), ByteField(raw, VOLTAGE_SENSOR_VAL),
      BoolField(raw, VOLTAGE_STATUS),
      WordField(raw, FAN1_SPEED), WordField(raw, FAN2_SPEED), FilterField(raw), BoolField(raw, FILTER_INDICATOR),
      ByteField(raw, ALARM_STATUS), MachineField(raw), WordField(raw, BATTERY_VOLTAGE),
      FirmwareField(raw), TimeField(raw, RTC_TIME), CalendarField(raw),
      BoolField(raw, WEEKLY_SCHEDULE_EN), BoolField(raw, CLOUD_PERMISSION), WifiField(raw)))
  }

  // ---------------------------------------------------------------------------
  // What a complete state decodes to
  // ---------------------------------------------------------------------------

  /** Every parameter a fresh fan holds is held, the fixed-size ones at their declared width. */
  ghost predicate WellHeld(s: map<Code, Bytes>) {
    forall c: Code :: Held(c) ==> c in s && (Width(c) > 0 ==> |s[c]| == Width(c))
  }

  /** All a fan holds of what a fresh fan holds. */
  function Visible(state: map<Code, Bytes>): map<Code, Bytes> { map c | c in state && Held(c) :: state[c] }

  predicate IsByte(c: Code) { Held(c) && Width(c) == 1 }

  predicate IsWord(c: Code) { Held(c) && Width(c) == 2 }

  /** Two bytes, least significant first. */
  function WordOf(low: byte, high: byte): nat {
    var l: nat, h: nat := low, high;
    l + 256 * h
  }

  /** The one byte of a one-byte parameter. */
  ghost function TheByte(s: map<Code, Bytes>, c: Code): byte
    requires WellHeld(s) && IsByte(c)
  {
    s[c][0]
  }

  ghost function TheWord(s: map<Code, Bytes>, c: Code): nat
    requires WellHeld(s) && IsWord(c)
  {
    WordOf(s[c][0], s[c][1])
  }

  ghost function TheBool(s: map<Code, Bytes>, c: Code): bool
    requires WellHeld(s) && IsByte(c)
  {
    s[c][0] != 0
  }

  /** The bytes of a wider parameter, of which there are `size`. */
  ghost function TheBytes(s: map<Code, Bytes>, c: Code, size: nat): (v: Bytes)
    requires WellHeld(s) && Held(c) && Width(c) == size > 0
    ensures |v| == size
  {
    s[c]
  }

  ghost function TheText(s: map<Code, Bytes>, c: Code): string
    requires WellHeld(s) && Held(c)
  {
    TextOf(s[c])
  }

  /** Four bytes in print, separated by dots. */
  ghost function TheAddress(s: map<Code, Bytes>, c: Code): string
    requires WellHeld(s) && Held(c) && Width(c) == 4
  {
    TextOf(PrintedIp(s[c]).value)
  }

  ghost function TimerOf(v: Bytes): Timer
    requires |v| == 2
  {
    Timer(v[1], v[0])
  }

  ghost function TimeOf(v: Bytes): TimeOfDay
    requires |v| == 3
  {
    TimeOfDay(v[2], v[1], v[0])
  }

  ghost function FilterOf(v: Bytes): Span
    requires |v| == 3
  {
    Span(v[2], v[1], v[0])
  }

  ghost function MachineOf(v: Bytes): Span
    requires |v| == 4
  {
    Span(WordOf(v[2], v[3]), v[1], v[0])
  }

  ghost function FirmwareOf(v: Bytes): Firmware
    requires |v| == 6
  {
    Firmware(v[0], v[1], v[2], v[3], WordOf(v[4], v[5]))
  }

  ghost function CalendarOf(v: Bytes): Calendar
    requires |v| == 4
  {
    Calendar(2000 + v[3] as nat, v[2], v[0], v[1])
  }

  ghost function NetworkOf(s: map<Code, Bytes>): WifiConfig
    requires WellHeld(s)
  {
    WifiConfig(TheByte(s, WIFI_MODE), TheText(s, WIFI_SSID), TheByte(s, WIFI_ENCRYPTION), TheByte(s, WIFI_CHANNEL),
               TheBool(s, WIFI_DHCP), TheAddress(s, WIFI_IP), TheAddress(s, WIFI_SUBNET), TheAddress(s, WIFI_GATEWAY),
               TheAddress(s, WIFI_CURRENT_IP))
  }

  /** Every field told from the parameter behind it, none missing. */
  ghost function Reading(s: map<Code, Bytes>): DeviceState
    requires WellHeld(s)
  {
    DeviceState(
      TheText(s, DEVICE_SEARCH), TheWord(s, UNIT_TYPE),
      Some(TheBool(s, POWER)), Some(TheByte(s, SPEED)), Some(TheByte(s, MANUAL_SPEED)),
      Some(TheByte(s, OPERATION_MODE)),
      Some(TheBool(s, BOOST_STATUS)), Some(TheByte(s, BOOST_DELAY)),
      Some(TheByte(s, TIMER_MODE)), Some(TimeOf(TheBytes(s, TIMER_COUNTDOWN, 3))),
      Some(TimerOf(TheBytes(s, NIGHT_TIMER, 2))), Some(TimerOf(TheBytes(s, PARTY_TIMER, 2))),
      Some(TheByte(s, HUMIDITY_SENSOR)), Some(TheByte(s, HUMIDITY_THRESHOLD)), Some(TheByte(s, CURRENT_HUMIDITY)),
      Some(TheBool(s, HUMIDITY_STATUS)), Some(TheByte(s, RELAY_SENSOR)), Some(TheBool(s, RELAY_STATE)),
      Some(TheByte(s, VOLTAGE_SENSOR)), Some(TheByte(s, VOLTAGE_THRESHOLD)), Some(TheByte(s, VOLTAGE_SENSOR_VAL)),
      Some(TheBool(s, VOLTAGE_STATUS)),
      Some(TheWord(s, FAN1_SPEED)), Some(TheWord(s, FAN2_SPEED)), Some(FilterOf(TheBytes(s, FILTER_COUNTDOWN, 3))),
      Some(TheBool(s, FILTER_INDICATOR)), Some(TheByte(s, ALARM_STATUS)),
      Some(MachineOf(TheBytes(s, MACHINE_HOURS, 4))), Some(TheWord(s, BATTERY_VOLTAGE)),
      Some(FirmwareOf(TheBytes(s, FIRMWARE_VERSION, 6))), Some(TimeOf(TheBytes(s, RTC_TIME, 3))),
      Some(CalendarOf(TheBytes(s, RTC_CALENDAR, 4))), Some(TheBool(s, WEEKLY_SCHEDULE_EN)),
      Some(TheBool(s, CLOUD_PERMISSION)), Some(NetworkOf(s)))
  }

  lemma VisibleAt(s: map<Code, Bytes>, c: Code)
    requires WellHeld(s) && Held(c)
    ensures c in Visible(s) && Visible(s)[c] == s[c]
  {
  }

  lemma OneByteInt(v: Bytes)
    requires |v| == 1
    ensures FromBytes(v) == v[0]
  {
    assert v[1..] == [];
  }

  lemma TwoBytesInt(v: Bytes)
    requires |v| == 2
    ensures FromBytes(v) == WordOf(v[0], v[1])
  {
    OneByteInt(v[1..]);
  }

  lemma ByteDecodes(s: map<Code, Bytes>, c: Code)
    requires WellHeld(s) && IsByte(c)
    ensures ByteField(Visible(s), c) == Some(TheByte(s, c)) && BoolField(Visible(s), c) == Some(TheBool(s, c))
  {
    VisibleAt(s, c);
    OneByteInt(s[c]);
    hide Held, Width, Visible, FromBytes;
  }

  lemma WordDecodes(s: map<Code, Bytes>, c: Code)
    requires WellHeld(s) && IsWord(c)
    ensures WordField(Visible(s), c) == Some(TheWord(s, c))
  {
    VisibleAt(s, c);
    TwoBytesInt(s[c]);
    hide Held, Width, Visible, FromBytes;
  }

  lemma BytesDecode(s: map<Code, Bytes>, c: Code)
    requires WellHeld(s) && Held(c) && Width(c) > 1
    ensures BytesField(Visible(s), c, Width(c)) == Some(TheBytes(s, c, Width(c)))
    ensures c in Visible(s) && Visible(s)[c] == s[c] && |s[c]| == Width(c)
  {
    VisibleAt(s, c);
  }

  lemma TextDecodes(s: map<Code, Bytes>, c: Code)
    requires WellHeld(s) && Held(c)
    ensures TextField(Visible(s), c) == TheText(s, c)
    ensures Width(c) == 4 ==> AddressField(Visible(s), c) == TheAddress(s, c)
  {
    VisibleAt(s, c);
  }

  lemma NetworkDecodes(s: map<Code, Bytes>)
    requires WellHeld(s)
    ensures WifiField(Visible(s)) == Some(NetworkOf(s))
  {
    VisibleAt(s, WIFI_MODE);
    ByteDecodes(s, WIFI_MODE);
    ByteDecodes(s, WIFI_ENCRYPTION);
    ByteDecodes(s, WIFI_CHANNEL);
    ByteDecodes(s, WIFI_DHCP);
    TextDecodes(s, WIFI_SSID);
    TextDecodes(s, WIFI_IP);
    TextDecodes(s, WIFI_SUBNET);
    TextDecodes(s, WIFI_GATEWAY);
    TextDecodes(s, WIFI_CURRENT_IP);
    hide Visible, ByteField, BoolField, TextField, AddressField, TheByte, TheBool, TheText, TheAddress, WellHeld;
  }

  lemma RecordsDecode(s: map<Code, Bytes>)
    requires WellHeld(s)
    ensures var raw := Visible(s);
            && TimeField(raw, TIMER_COUNTDOWN) == Some(TimeOf(TheBytes(s, TIMER_COUNTDOWN, 3)))
            && TimeField(raw, RTC_TIME) == Some(TimeOf(TheBytes(s, RTC_TIME, 3)))
            && TimerField(raw, NIGHT_TIMER) == Some(TimerOf(TheBytes(s, NIGHT_TIMER, 2)))
            && TimerField(raw, PARTY_TIMER) == Some(TimerOf(TheBytes(s, PARTY_TIMER, 2)))
            && FilterField(raw) == Some(FilterOf(TheBytes(s, FILTER_COUNTDOWN, 3)))
            && MachineField(raw) == Some(MachineOf(TheBytes(s, MACHINE_HOURS, 4)))
            && FirmwareField(raw) == Some(FirmwareOf(TheBytes(s, FIRMWARE_VERSION, 6)))
            && CalendarField(raw) == Some(CalendarOf(TheBytes(s, RTC_CALENDAR, 4)))
  {
    BytesDecode(s, TIMER_COUNTDOWN);
    BytesDecode(s, RTC_TIME);
    BytesDecode(s, NIGHT_TIMER);
    BytesDecode(s, PARTY_TIMER);
    BytesDecode(s, FILTER_COUNTDOWN);
    BytesDecode(s, MACHINE_HOURS);
    BytesDecode(s, FIRMWARE_VERSION);
    BytesDecode(s, RTC_CALENDAR);
    TwoBytesInt(s[MACHINE_HOURS][2..]);
    TwoBytesInt(s[FIRMWARE_VERSION][4..]);
    hide Visible, WellHeld, FromBytes;
  }

  lemma FlagsDecode(s: map<Code, Bytes>)
    requires WellHeld(s)
    ensures var raw := Visible(s);
            && BoolField(raw, POWER) == Some(TheBool(s, POWER))
            && BoolField(raw, BOOST_STATUS) == Some(TheBool(s, BOOST_STATUS))
            && BoolField(raw, HUMIDITY_STATUS) == Some(TheBool(s, HUMIDITY_STATUS))
            && BoolField(raw, RELAY_STATE) == Some(TheBool(s, RELAY_STATE))
            && BoolField(raw, VOLTAGE_STATUS) == Some(TheBool(s, VOLTAGE_STATUS))
            && BoolField(raw, FILTER_INDICATOR) == Some(TheBool(s, FILTER_INDICATOR))
            && BoolField(raw, WEEKLY_SCHEDULE_EN) == Some(TheBool(s, WEEKLY_SCHEDULE_EN))
            && BoolField(raw, CLOUD_PERMISSION) == Some(TheBool(s, CLOUD_PERMISSION))
  {
    hide Visible, WellHeld, ByteField, BoolField, TheByte, TheBool;
    ByteDecodes(s, POWER);
    ByteDecodes(s, BOOST_STATUS);
    ByteDecodes(s, HUMIDITY_STATUS);
    ByteDecodes(s, RELAY_STATE);
    ByteDecodes(s, VOLTAGE_STATUS);
    ByteDecodes(s, FILTER_INDICATOR);
    ByteDecodes(s, WEEKLY_SCHEDULE_EN);
    ByteDecodes(s, CLOUD_PERMISSION);
  }

  lemma NumbersDecode(s: map<Code, Bytes>)
    requires WellHeld(s)
    ensures var raw := Visible(s);
            && ByteField(raw, SPEED) == Some(TheByte(s, SPEED))
            && ByteField(raw, MANUAL_SPEED) == Some(TheByte(s, MANUAL_SPEED))
            && ByteField(raw, OPERATION_MODE) == Some(TheByte(s, OPERATION_MODE))
            && ByteField(raw, BOOST_DELAY) == Some(TheByte(s, BOOST_DELAY))
            && ByteField(raw, TIMER_MODE) == Some(TheByte(s, TIMER_MODE))
            && ByteField(raw, HUMIDITY_SENSOR) == Some(TheByte(s, HUMIDITY_SENSOR))
            && ByteField(raw, HUMIDITY_THRESHOLD) == Some(TheByte(s, HUMIDITY_THRESHOLD))
            && ByteField(raw, CURRENT_HUMIDITY) == Some(TheByte(s, CURRENT_HUMIDITY))
            && ByteField(raw, RELAY_SENSOR) == Some(TheByte(s, RELAY_SENSOR))
            && ByteField(raw, VOLTAGE_SENSOR) == Some(TheByte(s, VOLTAGE_SENSOR))
            && ByteField(raw, VOLTAGE_THRESHOLD) == Some(TheByte(s, VOLTAGE_THRESHOLD))
            && ByteField(raw, VOLTAGE_SENSOR_VAL) == Some(TheByte(s, VOLTAGE_SENSOR_VAL))
            && ByteField(raw, ALARM_STATUS) == Some(TheByte(s, ALARM_STATUS))
  {
    hide Visible, WellHeld, ByteField, BoolField, TheByte, TheBool;
    ByteDecodes(s, SPEED);
    ByteDecodes(s, MANUAL_SPEED);
    ByteDecodes(s, OPERATION_MODE);
    ByteDecodes(s, BOOST_DELAY);
    ByteDecodes(s, TIMER_MODE);
    ByteDecodes(s, HUMIDITY_SENSOR);
    ByteDecodes(s, HUMIDITY_THRESHOLD);
    ByteDecodes(s, CURRENT_HUMIDITY);
    ByteDecodes(s, RELAY_SENSOR);
    ByteDecodes(s, VOLTAGE_SENSOR);
    ByteDecodes(s, VOLTAGE_THRESHOLD);
    ByteDecodes(s, VOLTAGE_SENSOR_VAL);
    ByteDecodes(s, ALARM_STATUS);
  }

  lemma WordsDecode(s: map<Code, Bytes>)
    requires WellHeld(s)
    ensures var raw := Visible(s);
            && WordField(raw, UNIT_TYPE) == Some(TheWord(s, UNIT_TYPE))
            && WordField(raw, FAN1_SPEED) == Some(TheWord(s, FAN1_SPEED))
            && WordField(raw, FAN2_SPEED) == Some(TheWord(s, FAN2_SPEED))
            && WordField(raw, BATTERY_VOLTAGE) == Some(TheWord(s, BATTERY_VOLTAGE))
  {
    hide Visible, WellHeld, WordField, TheWord;
    WordDecodes(s, UNIT_TYPE);
    WordDecodes(s, FAN1_SPEED);
    WordDecodes(s, FAN2_SPEED);
    WordDecodes(s, BATTERY_VOLTAGE);
  }

  lemma NothingOverflows(s: map<Code, Bytes>)
    requires WellHeld(s)
    ensures !exists c :: c in Visible(s) && IsIntField(Visible(s), c) && |Visible(s)[c]| > 8
  {
    hide HasWifi;
  }

  /** A complete state decodes, and every field of it tells the parameter behind it. */
  lemma CompleteStateDecodes(s: map<Code, Bytes>)
    requires WellHeld(s)
    ensures Build(Visible(s)) == Ok(Reading(s))
  {
    NothingOverflows(s);
    FlagsDecode(s);
    NumbersDecode(s);
    WordsDecode(s);
    RecordsDecode(s);
    NetworkDecodes(s);
    TextDecodes(s, DEVICE_SEARCH);
    hide Visible, WellHeld, ByteField, BoolField, WordField, TimeField, TimerField, FilterField, MachineField, Held;
    hide FirmwareField, CalendarField, WifiField, TextField, TheByte, TheBool, TheWord, TheText, NetworkOf, TheBytes;
    hide TimeOf, TimerOf, FilterOf, MachineOf, FirmwareOf, CalendarOf, Width, IsByte, IsWord, IsIntField;
  }

  // ---------------------------------------------------------------------------
  // What an incomplete state decodes to
  // ---------------------------------------------------------------------------

  // A field is missing exactly when its parameter is, or has the wrong size for a time, a date or a counter.

  lemma SwitchesPresentExactly(raw: map<Code, Bytes>)
    requires Build(raw).Ok?
    ensures var s := Build(raw).value;
            && (s.power.Some? <==> POWER in raw)
            && (s.boostActive.Some? <==> BOOST_STATUS in raw)
            && (s.humidityStatus.Some? <==> HUMIDITY_STATUS in raw)
            && (s.relayState.Some? <==> RELAY_STATE in raw)
            && (s.voltageStatus.Some? <==> VOLTAGE_STATUS in raw)
            && (s.fan1Rpm.Some? <==> FAN1_SPEED in raw)
            && (s.fan2Rpm.Some? <==> FAN2_SPEED in raw)
            && (s.filterNeedsReplacement.Some? <==> FILTER_INDICATOR in raw)
            && (s.batteryVoltage.Some? <==> BATTERY_VOLTAGE in raw)
            && (s.weeklySchedule.Some? <==> WEEKLY_SCHEDULE_EN in raw)
            && (s.cloudPermitted.Some? <==> CLOUD_PERMISSION in raw)
  {
    hide IsIntField, FromBytes, TextOf;
  }

  lemma NumbersPresentExactly(raw: map<Code, Bytes>)
    requires Build(raw).Ok?
    ensures var s := Build(raw).value;
            && (s.speed.Some? <==> SPEED in raw)
            && (s.manualSpeed.Some? <==> MANUAL_SPEED in raw)
            && (s.operationMode.Some? <==> OPERATION_MODE in raw)
            && (s.boostDelay.Some? <==> BOOST_DELAY in raw)
            && (s.timerMode.Some? <==> TIMER_MODE in raw)
            && (s.humiditySensor.Some? <==> HUMIDITY_SENSOR in raw)
            && (s.humidityThreshold.Some? <==> HUMIDITY_THRESHOLD in raw)
            && (s.currentHumidity.Some? <==> CURRENT_HUMIDITY in raw)
            && (s.relaySensor.Some? <==> RELAY_SENSOR in raw)
            && (s.voltageSensor.Some? <==> VOLTAGE_SENSOR in raw)
            && (s.voltageThreshold.Some? <==> VOLTAGE_THRESHOLD in raw)
            && (s.voltageSensorValue.Some? <==> VOLTAGE_SENSOR_VAL in raw)
            && (s.alarmStatus.Some? <==> ALARM_STATUS in raw)
  {
    hide IsIntField, FromBytes, TextOf;
  }

  lemma RecordsPresentExactly(raw: map<Code, Bytes>)
    requires Build(raw).Ok?
    ensures var s := Build(raw).value;
            && (s.timerCountdown.Some? <==> TIMER_COUNTDOWN in raw && |raw[TIMER_COUNTDOWN]| == 3)
            && (s.rtcTime.Some? <==> RTC_TIME in raw && |raw[RTC_TIME]| == 3)
            && (s.filterCountdown.Some? <==> FILTER_COUNTDOWN in raw && |raw[FILTER_COUNTDOWN]| == 3)
            && (s.rtcCalendar.Some? <==> RTC_CALENDAR in raw && |raw[RTC_CALENDAR]| == 4)
            && (s.machineHours.Some? <==> MACHINE_HOURS in raw && |raw[MACHINE_HOURS]| == 4)
            && (s.firmware.Some? <==> FIRMWARE_VERSION in raw && |raw[FIRMWARE_VERSION]| == 6)
            && (s.nightTimer.Some? <==> NIGHT_TIMER in raw && |raw[NIGHT_TIMER]| >= 2)
            && (s.partyTimer.Some? <==> PARTY_TIMER in raw && |raw[PARTY_TIMER]| >= 2)
            && (DEVICE_SEARCH !in raw ==> s.deviceId == "") && (UNIT_TYPE !in raw ==> s.unitType == 0)
  {
    hide IsIntField, FromBytes, TextOf;
  }

  /** The network block is there for a mode, a name or an address, and fills in what is missing. */
  lemma NetworkDefaults(raw: map<Code, Bytes>)
    requires Build(raw).Ok?
    ensures var w := Build(raw).value.wifi;
            && (w.Some? <==> WIFI_MODE in raw || WIFI_SSID in raw || WIFI_IP in raw)
            && (w.Some? ==>
                  && (WIFI_MODE !in raw ==> w.value.mode == 0) && (WIFI_SSID !in raw ==> w.value.ssid == "")
                  && (WIFI_ENCRYPTION !in raw ==> w.value.encryption == 52)
                  && (WIFI_CHANNEL !in raw ==> w.value.channel == 1) && (WIFI_DHCP !in raw ==> w.value.dhcp)
                  && (WIFI_IP !in raw || |raw[WIFI_IP]| != 4 ==> w.value.ip == ""))
  {
    hide IsIntField, FromBytes, TextOf;
  }
}
