/** What a fan tells with the value of one parameter replaced: that parameter's field, and all others as before. */
module Readings {
  import opened Basics
  import opened Params
  import opened FanSpec
  import opened States

  /** A complete state and what it decodes to. */
  ghost predicate Tells(s: map<Code, Bytes>, r: DeviceState) { WellHeld(s) && Reading(s) == r }

  lemma StaysWellHeld(s: map<Code, Bytes>, c: Code, v: Bytes)
    requires WellHeld(s) && (Width(c) > 0 ==> |v| == Width(c))
    ensures WellHeld(s[c := v])
  {
  }

  // ---------------------------------------------------------------------------
  // Switches
  // ---------------------------------------------------------------------------

  lemma PowerSet(s: map<Code, Bytes>, v: Bytes)
    requires WellHeld(s) && WellHeld(s[POWER := v]) && |v| == 1
    ensures Reading(s[POWER := v]) == Reading(s).(power := Some(v[0] != 0))
  {
    hide WellHeld;
  }

  lemma BoostSet(s: map<Code, Bytes>, v: Bytes)
    requires WellHeld(s) && WellHeld(s[BOOST_STATUS := v]) && |v| == 1
    ensures Reading(s[BOOST_STATUS := v]) == Reading(s).(boostActive := Some(v[0] != 0))
  {
    hide WellHeld;
  }

  lemma IndicatorSet(s: map<Code, Bytes>, v: Bytes)
    requires WellHeld(s) && WellHeld(s[FILTER_INDICATOR := v]) && |v| == 1
    ensures Reading(s[FILTER_INDICATOR := v]) == Reading(s).(filterNeedsReplacement := Some(v[0] != 0))
  {
    hide WellHeld;
  }

  lemma WeeklySet(s: map<Code, Bytes>, v: Bytes)
    requires WellHeld(s) && WellHeld(s[WEEKLY_SCHEDULE_EN := v]) && |v| == 1
    ensures Reading(s[WEEKLY_SCHEDULE_EN := v]) == Reading(s).(weeklySchedule := Some(v[0] != 0))
  {
    hide WellHeld;
  }

  lemma CloudSet(s: map<Code, Bytes>, v: Bytes)
    requires WellHeld(s) && WellHeld(s[CLOUD_PERMISSION := v]) && |v| == 1
    ensures Reading(s[CLOUD_PERMISSION := v]) == Reading(s).(cloudPermitted := Some(v[0] != 0))
  {
    hide WellHeld;
  }

  lemma HumidityStatusSet(s: map<Code, Bytes>, v: Bytes)
    requires WellHeld(s) && WellHeld(s[HUMIDITY_STATUS := v]) && |v| == 1
    ensures Reading(s[HUMIDITY_STATUS := v]) == Reading(s).(humidityStatus := Some(v[0] != 0))
  {
    hide WellHeld;
  }

  // ---------------------------------------------------------------------------
  // Numbers
  // ---------------------------------------------------------------------------

  lemma SpeedSet(s: map<Code, Bytes>, v: Bytes)
    requires WellHeld(s) && WellHeld(s[SPEED := v]) && |v| == 1
    ensures Reading(s[SPEED := v]) == Reading(s).(speed := Some(v[0]))
  {
    hide WellHeld;
  }

  lemma ManualSet(s: map<Code, Bytes>, v: Bytes)
    requires WellHeld(s) && WellHeld(s[MANUAL_SPEED := v]) && |v| == 1
    ensures Reading(s[MANUAL_SPEED := v]) == Reading(s).(manualSpeed := Some(v[0]))
  {
    hide WellHeld;
  }

  lemma ModeSet(s: map<Code, Bytes>, v: Bytes)
    requires WellHeld(s) && WellHeld(s[OPERATION_MODE := v]) && |v| == 1
    ensures Reading(s[OPERATION_MODE := v]) == Reading(s).(operationMode := Some(v[0]))
  {
    hide WellHeld;
  }

  lemma BoostDelaySet(s: map<Code, Bytes>, v: Bytes)
    requires WellHeld(s) && WellHeld(s[BOOST_DELAY := v]) && |v| == 1
    ensures Reading(s[BOOST_DELAY := v]) == Reading(s).(boostDelay := Some(v[0]))
  {
    hide WellHeld;
  }

  lemma TimerModeSet(s: map<Code, Bytes>, v: Bytes)
    requires WellHeld(s) && WellHeld(s[TIMER_MODE := v]) && |v| == 1
    ensures Reading(s[TIMER_MODE := v]) == Reading(s).(timerMode := Some(v[0]))
  {
    hide WellHeld;
  }

  lemma SensorSet(s: map<Code, Bytes>, v: Bytes)
    requires WellHeld(s) && WellHeld(s[HUMIDITY_SENSOR := v]) && |v| == 1
    ensures Reading(s[HUMIDITY_SENSOR := v]) == Reading(s).(humiditySensor := Some(v[0]))
  {
    hide WellHeld;
  }

  lemma ThresholdSet(s: map<Code, Bytes>, v: Bytes)
    requires WellHeld(s) && WellHeld(s[HUMIDITY_THRESHOLD := v]) && |v| == 1
    ensures Reading(s[HUMIDITY_THRESHOLD := v]) == Reading(s).(humidityThreshold := Some(v[0]))
  {
    hide WellHeld;
  }

  lemma HumiditySet(s: map<Code, Bytes>, v: Bytes)
    requires WellHeld(s) && WellHeld(s[CURRENT_HUMIDITY := v]) && |v| == 1
    ensures Reading(s[CURRENT_HUMIDITY := v]) == Reading(s).(currentHumidity := Some(v[0]))
  {
    hide WellHeld;
  }

  lemma RelaySet(s: map<Code, Bytes>, v: Bytes)
    requires WellHeld(s) && WellHeld(s[RELAY_SENSOR := v]) && |v| == 1
    ensures Reading(s[RELAY_SENSOR := v]) == Reading(s).(relaySensor := Some(v[0]))
  {
    hide WellHeld;
  }

  lemma VoltageSet(s: map<Code, Bytes>, v: Bytes)
    requires WellHeld(s) && WellHeld(s[VOLTAGE_SENSOR := v]) && |v| == 1
    ensures Reading(s[VOLTAGE_SENSOR := v]) == Reading(s).(voltageSensor := Some(v[0]))
  {
    hide WellHeld;
  }

  lemma VoltageThresholdSet(s: map<Code, Bytes>, v: Bytes)
    requires WellHeld(s) && WellHeld(s[VOLTAGE_THRESHOLD := v]) && |v| == 1
    ensures Reading(s[VOLTAGE_THRESHOLD := v]) == Reading(s).(voltageThreshold := Some(v[0]))
  {
    hide WellHeld;
  }

  lemma AlarmSet(s: map<Code, Bytes>, v: Bytes)
    requires WellHeld(s) && WellHeld(s[ALARM_STATUS := v]) && |v| == 1
    ensures Reading(s[ALARM_STATUS := v]) == Reading(s).(alarmStatus := Some(v[0]))
  {
    hide WellHeld;
  }

  // ---------------------------------------------------------------------------
  // Times, dates and counters
  // ---------------------------------------------------------------------------

  lemma NightSet(s: map<Code, Bytes>, v: Bytes)
    requires WellHeld(s) && WellHeld(s[NIGHT_TIMER := v]) && |v| == 2
    ensures Reading(s[NIGHT_TIMER := v]) == Reading(s).(nightTimer := Some(TimerOf(v)))
  {
    hide WellHeld;
  }

  lemma PartySet(s: map<Code, Bytes>, v: Bytes)
    requires WellHeld(s) && WellHeld(s[PARTY_TIMER := v]) && |v| == 2
    ensures Reading(s[PARTY_TIMER := v]) == Reading(s).(partyTimer := Some(TimerOf(v)))
  {
    hide WellHeld;
  }

  lemma TimeSet(s: map<Code, Bytes>, v: Bytes)
    requires WellHeld(s) && WellHeld(s[RTC_TIME := v]) && |v| == 3
    ensures Reading(s[RTC_TIME := v]) == Reading(s).(rtcTime := Some(TimeOf(v)))
  {
    hide WellHeld;
  }

  lemma CalendarSet(s: map<Code, Bytes>, v: Bytes)
    requires WellHeld(s) && WellHeld(s[RTC_CALENDAR := v]) && |v| == 4
    ensures Reading(s[RTC_CALENDAR := v]) == Reading(s).(rtcCalendar := Some(CalendarOf(v)))
  {
    hide WellHeld;
  }

  lemma FilterSet(s: map<Code, Bytes>, v: Bytes)
    requires WellHeld(s) && WellHeld(s[FILTER_COUNTDOWN := v]) && |v| == 3
    ensures Reading(s[FILTER_COUNTDOWN := v]) == Reading(s).(filterCountdown := Some(FilterOf(v)))
  {
    hide WellHeld;
  }

  lemma MachineSet(s: map<Code, Bytes>, v: Bytes)
    requires WellHeld(s) && WellHeld(s[MACHINE_HOURS := v]) && |v| == 4
    ensures Reading(s[MACHINE_HOURS := v]) == Reading(s).(machineHours := Some(MachineOf(v)))
  {
    hide WellHeld;
  }

  lemma Fan1Set(s: map<Code, Bytes>, v: Bytes)
    requires WellHeld(s) && WellHeld(s[FAN1_SPEED := v]) && |v| == 2
    ensures Reading(s[FAN1_SPEED := v]) == Reading(s).(fan1Rpm := Some(WordOf(v[0], v[1])))
  {
    hide WellHeld;
  }

  lemma Fan2Set(s: map<Code, Bytes>, v: Bytes)
    requires WellHeld(s) && WellHeld(s[FAN2_SPEED := v]) && |v| == 2
    ensures Reading(s[FAN2_SPEED := v]) == Reading(s).(fan2Rpm := Some(WordOf(v[0], v[1])))
  {
    hide WellHeld;
  }

  // ---------------------------------------------------------------------------
  // The network block
  // ---------------------------------------------------------------------------

  lemma WifiModeSet(s: map<Code, Bytes>, v: Bytes)
    requires WellHeld(s) && WellHeld(s[WIFI_MODE := v]) && |v| == 1
    ensures Reading(s[WIFI_MODE := v]) == Reading(s).(wifi := Some(NetworkOf(s).(mode := v[0])))
  {
    hide WellHeld;
  }

  lemma WifiEncryptionSet(s: map<Code, Bytes>, v: Bytes)
    requires WellHeld(s) && WellHeld(s[WIFI_ENCRYPTION := v]) && |v| == 1
    ensures Reading(s[WIFI_ENCRYPTION := v]) == Reading(s).(wifi := Some(NetworkOf(s).(encryption := v[0])))
  {
    hide WellHeld;
  }

  lemma WifiChannelSet(s: map<Code, Bytes>, v: Bytes)
    requires WellHeld(s) && WellHeld(s[WIFI_CHANNEL := v]) && |v| == 1
    ensures Reading(s[WIFI_CHANNEL := v]) == Reading(s).(wifi := Some(NetworkOf(s).(channel := v[0])))
  {
    hide WellHeld;
  }

  lemma WifiDhcpSet(s: map<Code, Bytes>, v: Bytes)
    requires WellHeld(s) && WellHeld(s[WIFI_DHCP := v]) && |v| == 1
    ensures Reading(s[WIFI_DHCP := v]) == Reading(s).(wifi := Some(NetworkOf(s).(dhcp := v[0] != 0)))
  {
    hide WellHeld;
  }

  lemma WifiNameSet(s: map<Code, Bytes>, v: Bytes)
    requires WellHeld(s) && WellHeld(s[WIFI_SSID := v])
    ensures Reading(s[WIFI_SSID := v]) == Reading(s).(wifi := Some(NetworkOf(s).(ssid := TextOf(v))))
  {
    hide WellHeld;
  }

  lemma WifiIpSet(s: map<Code, Bytes>, v: Bytes)
    requires WellHeld(s) && WellHeld(s[WIFI_IP := v]) && |v| == 4
    ensures Reading(s[WIFI_IP := v]) == Reading(s).(wifi := Some(NetworkOf(s).(ip := AddressText(v))))
  {
    hide WellHeld;
  }

  lemma WifiSubnetSet(s: map<Code, Bytes>, v: Bytes)
    requires WellHeld(s) && WellHeld(s[WIFI_SUBNET := v]) && |v| == 4
    ensures Reading(s[WIFI_SUBNET := v]) == Reading(s).(wifi := Some(NetworkOf(s).(subnet := AddressText(v))))
  {
    hide WellHeld;
  }

  lemma WifiGatewaySet(s: map<Code, Bytes>, v: Bytes)
    requires WellHeld(s) && WellHeld(s[WIFI_GATEWAY := v]) && |v| == 4
    ensures Reading(s[WIFI_GATEWAY := v]) == Reading(s).(wifi := Some(NetworkOf(s).(gateway := AddressText(v))))
  {
    hide WellHeld;
  }

  // The parameters no poll asks for are not told.

  lemma SecretSet(s: map<Code, Bytes>, c: Code, v: Bytes)
    requires WellHeld(s) && WellHeld(s[c := v]) && c in {SCHEDULE_SETUP, DEVICE_PASSWORD, WIFI_PASSWORD}
    ensures Reading(s[c := v]) == Reading(s)
  {
    hide WellHeld;
  }

  lemma RequestSet(s: map<Code, Bytes>, c: Code, v: Bytes)
    requires WellHeld(s) && WellHeld(s[c := v]) && c in {WIFI_APPLY, WIFI_DISCARD}
    ensures Reading(s[c := v]) == Reading(s)
  {
    hide WellHeld;
  }

  lemma StaysUntold(s: map<Code, Bytes>, c: Code, v: Bytes)
    requires WellHeld(s) && !Held(c)
    ensures WellHeld(s[c := v])
  {
  }
}
