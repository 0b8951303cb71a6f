/** Parameter codes, their declared widths and the polling groups. */
module Params {
  import opened Basics

  const POWER: Code := 0x0001
  const SPEED: Code := 0x0002
  const BOOST_STATUS: Code := 0x0006
  const TIMER_MODE: Code := 0x0007
  const TIMER_COUNTDOWN: Code := 0x000B
  const HUMIDITY_SENSOR: Code := 0x000F
  const RELAY_SENSOR: Code := 0x0014
  const VOLTAGE_SENSOR: Code := 0x0016
  const HUMIDITY_THRESHOLD: Code := 0x0019
  const BATTERY_VOLTAGE: Code := 0x0024
  const CURRENT_HUMIDITY: Code := 0x0025
  const VOLTAGE_SENSOR_VAL: Code := 0x002D
  const RELAY_STATE: Code := 0x0032
  const MANUAL_SPEED: Code := 0x0044
  const FAN1_SPEED: Code := 0x004A
  const FAN2_SPEED: Code := 0x004B
  const FILTER_COUNTDOWN: Code := 0x0064
  const FILTER_RESET: Code := 0x0065
  const BOOST_DELAY: Code := 0x0066
  const RTC_TIME: Code := 0x006F
  const RTC_CALENDAR: Code := 0x0070
  const WEEKLY_SCHEDULE_EN: Code := 0x0072
  const SCHEDULE_SETUP: Code := 0x0077
  const DEVICE_SEARCH: Code := 0x007C
  const DEVICE_PASSWORD: Code := 0x007D
  const MACHINE_HOURS: Code := 0x007E
  const RESET_ALARMS: Code := 0x0080
  const ALARM_STATUS: Code := 0x0083
  const CLOUD_PERMISSION: Code := 0x0085
  const FIRMWARE_VERSION: Code := 0x0086
  const FACTORY_RESET: Code := 0x0087
  const FILTER_INDICATOR: Code := 0x0088
  const WIFI_MODE: Code := 0x0094
  const WIFI_SSID: Code := 0x0095
  const WIFI_PASSWORD: Code := 0x0096
  const WIFI_ENCRYPTION: Code := 0x0099
  const WIFI_CHANNEL: Code := 0x009A
  const WIFI_DHCP: Code := 0x009B
  const WIFI_IP: Code := 0x009C
  const WIFI_SUBNET: Code := 0x009D
  const WIFI_GATEWAY: Code := 0x009E
  const WIFI_APPLY: Code := 0x00A0
  const WIFI_DISCARD: Code := 0x00A2
  const WIFI_CURRENT_IP: Code := 0x00A3
  const OPERATION_MODE: Code := 0x00B7
  const VOLTAGE_THRESHOLD: Code := 0x00B8
  const UNIT_TYPE: Code := 0x00B9
  const NIGHT_TIMER: Code := 0x0302
  const PARTY_TIMER: Code := 0x0303
  const HUMIDITY_STATUS: Code := 0x0304
  const VOLTAGE_STATUS: Code := 0x0305

  /** Declared width in bytes of every parameter; 0 marks variable length, -1 an unknown code. */
  function Width(c: Code): (w: int)
    ensures -1 <= w <= 16
  {
    if c == DEVICE_SEARCH then 16
    else if c == SCHEDULE_SETUP || c == FIRMWARE_VERSION then 6
    else if c == RTC_CALENDAR || c == MACHINE_HOURS || c == WIFI_IP || c == WIFI_SUBNET
         || c == WIFI_GATEWAY || c == WIFI_CURRENT_IP then 4
    else if c == TIMER_COUNTDOWN || c == FILTER_COUNTDOWN || c == RTC_TIME then 3
    else if c == BATTERY_VOLTAGE || c == FAN1_SPEED || c == FAN2_SPEED || c == UNIT_TYPE
         || c == NIGHT_TIMER || c == PARTY_TIMER then 2
    else if c == DEVICE_PASSWORD || c == WIFI_SSID || c == WIFI_PASSWORD then 0
    else if c == POWER || c == SPEED || c == BOOST_STATUS || c == TIMER_MODE || c == HUMIDITY_SENSOR
         || c == RELAY_SENSOR || c == VOLTAGE_SENSOR || c == HUMIDITY_THRESHOLD || c == CURRENT_HUMIDITY
         || c == VOLTAGE_SENSOR_VAL || c == RELAY_STATE || c == MANUAL_SPEED || c == FILTER_RESET
         || c == BOOST_DELAY || c == WEEKLY_SCHEDULE_EN || c == RESET_ALARMS || c == ALARM_STATUS
         || c == CLOUD_PERMISSION || c == FACTORY_RESET || c == FILTER_INDICATOR || c == WIFI_MODE
         || c == WIFI_ENCRYPTION || c == WIFI_CHANNEL || c == WIFI_DHCP || c == WIFI_APPLY
         || c == WIFI_DISCARD || c == OPERATION_MODE || c == VOLTAGE_THRESHOLD || c == HUMIDITY_STATUS
         || c == VOLTAGE_STATUS then 1
    else -1
  }

  predicate IsParam(c: Code) { Width(c) >= 0 }

  type Param = c: Code | IsParam(c) witness 0x0001

  /** No parameter address collides with a control byte of the data section. */
  lemma ParamAddrIsPlain(p: Param)
    ensures Addr(p) < 0xFC
  {
    assert IsParam(p);
    assert p <= 0xB9 || 0x302 <= p <= 0x305;
  }

  const BASIC_STATUS: seq<Param> := [
    POWER, SPEED, BOOST_STATUS, TIMER_MODE, TIMER_COUNTDOWN, HUMIDITY_SENSOR, RELAY_SENSOR,
    VOLTAGE_SENSOR, HUMIDITY_THRESHOLD, VOLTAGE_THRESHOLD, BATTERY_VOLTAGE, CURRENT_HUMIDITY,
    VOLTAGE_SENSOR_VAL, RELAY_STATE, MANUAL_SPEED, FAN1_SPEED, FAN2_SPEED]

  const EXTENDED_CONFIG: seq<Param> := [
    FILTER_COUNTDOWN, FILTER_INDICATOR, BOOST_DELAY, RTC_TIME, RTC_CALENDAR, WEEKLY_SCHEDULE_EN,
    DEVICE_SEARCH, MACHINE_HOURS, ALARM_STATUS, CLOUD_PERMISSION, FIRMWARE_VERSION, OPERATION_MODE,
    UNIT_TYPE]

  const WIFI_PARAMS: seq<Param> := [
    WIFI_MODE, WIFI_SSID, WIFI_ENCRYPTION, WIFI_CHANNEL, WIFI_DHCP, WIFI_IP, WIFI_SUBNET,
    WIFI_GATEWAY, WIFI_CURRENT_IP]

  const SENSOR_STATUS: seq<Param> := [HUMIDITY_STATUS, VOLTAGE_STATUS, NIGHT_TIMER, PARTY_TIMER]

  const ALL_PARAM_GROUPS: seq<seq<Param>> := [BASIC_STATUS, EXTENDED_CONFIG, WIFI_PARAMS, SENSOR_STATUS]
}
