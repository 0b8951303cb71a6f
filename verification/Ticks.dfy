/** What a tick makes a fan tell: its speeds, humidity, clock and uptime, each through its own reading. */
module Ticks {
  import opened Basics
  import opened Params
  import opened FanSpec
  import opened States
  import opened Readings
  import opened Values
  import opened MainLoop
  import opened Ramp

  /** The whole number at or below a real. */
  predicate IsFloor(n: int, x: real) { n as real <= x < n as real + 1.0 }

  /** A humidity the sensor can show. */
  predicate Measurable(h: real) { 30.0 <= h <= 95.0 }

  /** The humidity closest to the goal that the sensor can show. */
  ghost predicate NearestHumidity(goal: real, h: real) {
    Measurable(h) && forall x: real :: Measurable(x) ==> Abs(goal - h) <= Abs(goal - x)
  }

  /** The whole minutes of an uptime, as days, hours and minutes. */
  predicate IsUptime(m: Span, uptime: nat) {
    && m.hours < 24 && m.minutes < 60
    && 86400 * m.days + 3600 * m.hours + 60 * m.minutes <= uptime
    && uptime < 86400 * m.days + 3600 * m.hours + 60 * m.minutes + 60
  }

  /** The humidity before a tick plus the drawn drift. */
  function Drifted(humidity: real, noise: real, dt: real): real { humidity + noise * dt }

  lemma ClampIsNearest(goal: real)
    ensures NearestHumidity(goal, ClampHumidity(goal))
  {
    var h := ClampHumidity(goal);
    forall x: real | Measurable(x)
      ensures Abs(goal - h) <= Abs(goal - x)
    {
    }
  }

  lemma TwoBytesOf(n: nat)
    requires n < 0x10000
    ensures var v := ToBytes(n, 2); WordOf(v[0], v[1]) == n
  {
    IntRoundTrip(n, 2);
    TwoBytesInt(ToBytes(n, 2));
    assert Pow256(2) == 256 * (256 * Pow256(0)) == 0x10000;
  }

  lemma UptimeIs(uptime: nat)
    ensures IsUptime(Span(uptime / 86400, (uptime / 3600) % 24, (uptime / 60) % 60), uptime)
  {
    var minutes, hours := uptime / 60, uptime / 3600;
    DivStep60(uptime);
    assert minutes / 60 == hours;
    assert hours / 24 == uptime / 86400;
  }

  lemma DivStep60(uptime: nat)
    ensures (uptime / 60) / 60 == uptime / 3600 && (uptime / 3600) / 24 == uptime / 86400
  {
  }

  /** Whether a fan's reported speeds are the whole parts of its speeds. */
  ghost predicate SpeedsTold(g: Fan) {
    && FAN1_SPEED in g.state && FAN2_SPEED in g.state && |g.state[FAN1_SPEED]| == |g.state[FAN2_SPEED]| == 2
    && IsFloor(WordOf(g.state[FAN1_SPEED][0], g.state[FAN1_SPEED][1]), g.rpm1)
    && IsFloor(WordOf(g.state[FAN2_SPEED][0], g.state[FAN2_SPEED][1]), g.rpm2)
  }

  /** Whether it reports the whole part of its humidity, and the status that goes with it. */
  ghost predicate HumidityTold(g: Fan) {
    && CURRENT_HUMIDITY in g.state && HUMIDITY_STATUS in g.state && HasByte(g, HUMIDITY_THRESHOLD)
    && |g.state[CURRENT_HUMIDITY]| == 1
    && IsFloor(g.state[CURRENT_HUMIDITY][0], g.humidity)
    && g.state[HUMIDITY_STATUS]
       == if g.state[CURRENT_HUMIDITY][0] >= g.state[HUMIDITY_THRESHOLD][0] then [1] else [0]
  }

  ghost predicate ClockTold(g: Fan, now: Now) {
    && RTC_TIME in g.state && |g.state[RTC_TIME]| == 3
    && RTC_CALENDAR in g.state && |g.state[RTC_CALENDAR]| == 4
    && TimeOf(g.state[RTC_TIME]) == TimeOfDay(now.hour, now.minute, now.second)
    && CalendarOf(g.state[RTC_CALENDAR]) == Calendar(2000 + now.year % 100, now.month, now.day, now.weekday + 1)
  }

  ghost predicate UptimeTold(g: Fan, uptime: nat) {
    MACHINE_HOURS in g.state && |g.state[MACHINE_HOURS]| == 4 && IsUptime(MachineOf(g.state[MACHINE_HOURS]), uptime)
  }

  lemma FansTell(f: Fan, dt: real, jitter1: real, jitter2: real)
    requires TickFans(f, dt, jitter1, jitter2).ok
    ensures var g := TickFans(f, dt, jitter1, jitter2).fan; SpeedsTold(g) && g.humidity == f.humidity
  {
    var g := TickFans(f, dt, jitter1, jitter2).fan;
    TwoBytesOf(g.rpm1.Floor);
    TwoBytesOf(g.rpm2.Floor);
    hide Targets, FanSpec.Ramp, ToBytes;
  }

  lemma HumidityTells(f: Fan, dt: real, noise: real)
    requires TickHumidity(f, dt, noise).ok && SpeedsTold(f)
    ensures var g := TickHumidity(f, dt, noise).fan;
            && HumidityTold(g) && SpeedsTold(g)
            && NearestHumidity(Drifted(f.humidity, noise, dt), g.humidity)
  {
    ClampIsNearest(Drifted(f.humidity, noise, dt));
    hide ClampHumidity;
  }

  lemma UptimeTells(f: Fan, uptime: nat)
    requires TickUptime(f, uptime).ok
    ensures UptimeTold(TickUptime(f, uptime).fan, uptime)
  {
    TwoBytesOf(uptime / 86400);
    UptimeIs(uptime);
    hide ToBytes;
  }

  lemma ClockTells(f: Fan, now: Now, uptime: nat)
    requires SpeedsTold(f) && HumidityTold(f) && TickUptime(TickRtc(f, now), uptime).ok
    ensures var g := TickUptime(TickRtc(f, now), uptime).fan;
            SpeedsTold(g) && HumidityTold(g) && ClockTold(g, now) && g.humidity == f.humidity
  {
    hide ToBytes;
  }

  /**
   * A tick that goes through leaves the fan telling the whole parts of its two speeds, the humidity nearest to
   * the drawn one and whether it is at least the threshold, the clock that was read, and the uptime in whole
   * minutes.
   */
  lemma TickTells(f: Fan, t: TickInput)
    requires Tick(f, t).ok
    ensures var g := Tick(f, t).fan;
            && SpeedsTold(g) && HumidityTold(g) && ClockTold(g, t.now) && UptimeTold(g, t.uptime)
            && NearestHumidity(Drifted(f.humidity, t.noise, t.dt), g.humidity)
  {
    var a := TickFans(f, t.dt, t.jitter1, t.jitter2);
    var b := TickHumidity(a.fan, t.dt, t.noise);
    hide TickFans, TickHumidity, TickRtc, TickUptime, SpeedsTold, HumidityTold, ClockTold, UptimeTold, NearestHumidity;
    FansTell(f, t.dt, t.jitter1, t.jitter2);
    hide Drifted;
    HumidityTells(a.fan, t.dt, t.noise);
    ClockTells(b.fan, t.now, t.uptime);
    UptimeTells(TickRtc(b.fan, t.now), t.uptime);
  }

  // ---------------------------------------------------------------------------
  // The reading after a tick
  // ---------------------------------------------------------------------------

  /** The state after a tick is the one before with the seven parameters a tick writes. */
  ghost predicate SevenSet(s: map<Code, Bytes>, u: map<Code, Bytes>) {
    && FAN1_SPEED in u && FAN2_SPEED in u && CURRENT_HUMIDITY in u && HUMIDITY_STATUS in u && RTC_TIME in u
    && RTC_CALENDAR in u && MACHINE_HOURS in u
    && u == s[FAN1_SPEED := u[FAN1_SPEED]][FAN2_SPEED := u[FAN2_SPEED]][CURRENT_HUMIDITY := u[CURRENT_HUMIDITY]]
             [HUMIDITY_STATUS := u[HUMIDITY_STATUS]][RTC_TIME := u[RTC_TIME]][RTC_CALENDAR := u[RTC_CALENDAR]]
             [MACHINE_HOURS := u[MACHINE_HOURS]]
  }

  lemma TickSetsSeven(f: Fan, t: TickInput)
    requires Tick(f, t).ok
    ensures SevenSet(f.state, Tick(f, t).fan.state)
  {
    hide Targets, FanSpec.Ramp, ToBytes, ClampHumidity, RtcTime, RtcCalendar;
  }

  lemma SevenTold(s: map<Code, Bytes>, u: map<Code, Bytes>)
    requires WellHeld(s) && SevenSet(s, u)
    requires |u[FAN1_SPEED]| == |u[FAN2_SPEED]| == 2 && |u[CURRENT_HUMIDITY]| == |u[HUMIDITY_STATUS]| == 1
    requires |u[RTC_TIME]| == 3 && |u[RTC_CALENDAR]| == |u[MACHINE_HOURS]| == 4
    ensures Tells(u, Reading(s).(fan1Rpm := Some(WordOf(u[FAN1_SPEED][0], u[FAN1_SPEED][1])),
                                 fan2Rpm := Some(WordOf(u[FAN2_SPEED][0], u[FAN2_SPEED][1])),
                                 currentHumidity := Some(u[CURRENT_HUMIDITY][0]),
                                 humidityStatus := Some(u[HUMIDITY_STATUS][0] != 0),
                                 rtcTime := Some(TimeOf(u[RTC_TIME])), rtcCalendar := Some(CalendarOf(u[RTC_CALENDAR])),
                                 machineHours := Some(MachineOf(u[MACHINE_HOURS]))))
  {
    hide WellHeld, Reading, TimeOf, CalendarOf, MachineOf, WordOf;
    var s1 := s[FAN1_SPEED := u[FAN1_SPEED]];
    var s2 := s1[FAN2_SPEED := u[FAN2_SPEED]];
    var s3 := s2[CURRENT_HUMIDITY := u[CURRENT_HUMIDITY]];
    var s4 := s3[HUMIDITY_STATUS := u[HUMIDITY_STATUS]];
    var s5 := s4[RTC_TIME := u[RTC_TIME]];
    var s6 := s5[RTC_CALENDAR := u[RTC_CALENDAR]];
    StaysWellHeld(s, FAN1_SPEED, u[FAN1_SPEED]);
    Fan1Set(s, u[FAN1_SPEED]);
    StaysWellHeld(s1, FAN2_SPEED, u[FAN2_SPEED]);
    Fan2Set(s1, u[FAN2_SPEED]);
    StaysWellHeld(s2, CURRENT_HUMIDITY, u[CURRENT_HUMIDITY]);
    HumiditySet(s2, u[CURRENT_HUMIDITY]);
    StaysWellHeld(s3, HUMIDITY_STATUS, u[HUMIDITY_STATUS]);
    HumidityStatusSet(s3, u[HUMIDITY_STATUS]);
    StaysWellHeld(s4, RTC_TIME, u[RTC_TIME]);
    TimeSet(s4, u[RTC_TIME]);
    StaysWellHeld(s5, RTC_CALENDAR, u[RTC_CALENDAR]);
    CalendarSet(s5, u[RTC_CALENDAR]);
    StaysWellHeld(s6, MACHINE_HOURS, u[MACHINE_HOURS]);
    MachineSet(s6, u[MACHINE_HOURS]);
  }

  /** What a fan that told `r` tells after a tick. */
  ghost predicate TellsTicked(r: DeviceState, g: Fan, q: DeviceState, t: TickInput)
    requires r.humidityThreshold.Some?
  {
    && q.fan1Rpm.Some? && q.fan2Rpm.Some? && q.currentHumidity.Some? && q.machineHours.Some?
    && q == r.(fan1Rpm := q.fan1Rpm, fan2Rpm := q.fan2Rpm, currentHumidity := q.currentHumidity,
               humidityStatus := Some(q.currentHumidity.value >= r.humidityThreshold.value),
               machineHours := q.machineHours,
               rtcTime := Some(TimeOfDay(t.now.hour, t.now.minute, t.now.second)),
               rtcCalendar := Some(Calendar(2000 + t.now.year % 100, t.now.month, t.now.day, t.now.weekday + 1)))
    && IsFloor(q.fan1Rpm.value, g.rpm1) && IsFloor(q.fan2Rpm.value, g.rpm2)
    && IsFloor(q.currentHumidity.value, g.humidity)
    && IsUptime(q.machineHours.value, t.uptime)
  }

  /**
   * A fan that tells its whole state tells after a tick: its speeds and humidity rounded down, whether that
   * humidity is at least the threshold it told, the clock, the uptime, and everything else as before.
   */
  lemma TickReads(f: Fan, t: TickInput)
    requires WellHeld(f.state) && Tick(f, t).ok
    ensures WellHeld(Tick(f, t).fan.state)
    ensures TellsTicked(Reading(f.state), Tick(f, t).fan, Reading(Tick(f, t).fan.state), t)
  {
    hide Tick, IsFloor, IsUptime, NearestHumidity, WellHeld, Reading, TimeOf, CalendarOf, MachineOf, WordOf, SevenSet;
    var g := Tick(f, t).fan;
    TickSetsSeven(f, t);
    TickTells(f, t);
    ThresholdTold(f.state);
    ThresholdKept(f, t);
    SevenTold(f.state, g.state);
    Assembled(f, g, t);
  }

  lemma Assembled(f: Fan, g: Fan, t: TickInput)
    requires WellHeld(f.state) && WellHeld(g.state) && SpeedsTold(g) && HumidityTold(g) && ClockTold(g, t.now)
    requires UptimeTold(g, t.uptime) && Reading(f.state).humidityThreshold == Some(g.state[HUMIDITY_THRESHOLD][0])
    requires var u := g.state;
             Reading(u) == Reading(f.state).(fan1Rpm := Some(WordOf(u[FAN1_SPEED][0], u[FAN1_SPEED][1])),
                                 fan2Rpm := Some(WordOf(u[FAN2_SPEED][0], u[FAN2_SPEED][1])),
                                 currentHumidity := Some(u[CURRENT_HUMIDITY][0]),
                                 humidityStatus := Some(u[HUMIDITY_STATUS][0] != 0),
                                 rtcTime := Some(TimeOf(u[RTC_TIME])), rtcCalendar := Some(CalendarOf(u[RTC_CALENDAR])),
                                 machineHours := Some(MachineOf(u[MACHINE_HOURS])))
    ensures TellsTicked(Reading(f.state), g, Reading(g.state), t)
  {
    hide WellHeld, Reading, WordOf, TimeOf, CalendarOf, MachineOf, IsFloor, IsUptime;
  }

  lemma ThresholdKept(f: Fan, t: TickInput)
    requires HUMIDITY_THRESHOLD in f.state
    ensures HUMIDITY_THRESHOLD in Tick(f, t).fan.state
    ensures Tick(f, t).fan.state[HUMIDITY_THRESHOLD] == f.state[HUMIDITY_THRESHOLD]
  {
    TickTouches(f, t);
    assert !TickWrites(HUMIDITY_THRESHOLD);
    hide Tick;
  }

  lemma ThresholdTold(s: map<Code, Bytes>)
    requires WellHeld(s)
    ensures HUMIDITY_THRESHOLD in s && s[HUMIDITY_THRESHOLD] != []
    ensures Reading(s).humidityThreshold == Some(s[HUMIDITY_THRESHOLD][0])
  {
  }

  // ---------------------------------------------------------------------------
  // The speeds a fan is set to
  // ---------------------------------------------------------------------------

  /** The speeds of the two fans at the three presets. */
  const RATED1: seq<real> := [640.0, 1260.0, 1860.0]
  const RATED2: seq<real> := [560.0, 1100.0, 1640.0]

  ghost predicate Steady(ts: seq<TickInput>) {
    forall i :: 0 <= i < |ts| ==> ts[i].dt >= 0.0 && ts[i].jitter1 == ts[i].jitter2 == 0.0
  }

  lemma Reaches(x: real, target: real, bs: seq<Beat>)
    requires x >= 0.0 && target >= 0.0 && Forward(bs) && Quiet(target, true, bs) && Travel(bs) >= Abs(target - x)
    ensures RampRun(x, target, true, bs) == target
  {
    RampApproaches(x, target, true, bs);
    hide RampRun, Forward, Quiet, Total;
  }

  lemma SteadyBeats(ts: seq<TickInput>)
    requires Steady(ts)
    ensures Forward(Beats1(ts)) && Forward(Beats2(ts))
    ensures forall target, spinning :: Quiet(target, spinning, Beats1(ts)) && Quiet(target, spinning, Beats2(ts))
  {
  }

  /** Left running long enough without jitter, a fan reaches both targets exactly. */
  lemma TargetsAreReached(f: Fan, ts: seq<TickInput>)
    requires HasControls(f) && Spinning(f) && f.rpm1 >= 0.0 && f.rpm2 >= 0.0 && Steady(ts)
    requires Travel(Beats1(ts)) >= Abs(TargetsOf(f).0 - f.rpm1) && Travel(Beats1(ts)) >= Abs(TargetsOf(f).1 - f.rpm2)
    ensures RunTicks(f, ts).rpm1 == TargetsOf(f).0 && RunTicks(f, ts).rpm2 == TargetsOf(f).1
  {
    SteadyBeats(ts);
    TicksFollowRamps(f, ts);
    SameBeats(ts);
    TargetsAreNotNegative(f);
    hide *;
    Reaches(f.rpm1, TargetsOf(f).0, Beats1(ts));
    Reaches(f.rpm2, TargetsOf(f).1, Beats2(ts));
  }

  /** At preset `n` these are the rated speeds. */
  lemma PresetIsReached(f: Fan, n: nat, ts: seq<TickInput>)
    requires HasControls(f) && Spinning(f) && 1 <= n <= 3 && f.state[SPEED][0] == n
    requires f.rpm1 >= 0.0 && f.rpm2 >= 0.0 && Steady(ts)
    requires Travel(Beats1(ts)) >= Abs(RATED1[n - 1] - f.rpm1) && Travel(Beats1(ts)) >= Abs(RATED2[n - 1] - f.rpm2)
    ensures RunTicks(f, ts).rpm1 == RATED1[n - 1] && RunTicks(f, ts).rpm2 == RATED2[n - 1]
  {
    assert TargetsOf(f) == (RATED1[n - 1], RATED2[n - 1]);
    TargetsAreReached(f, ts);
  }

  /** Under a manual speed of `m` they are the whole parts of its share of 2000 and 1800. */
  lemma ManualIsReached(f: Fan, ts: seq<TickInput>)
    requires HasControls(f) && Spinning(f) && f.state[SPEED][0] == 255
    requires f.rpm1 >= 0.0 && f.rpm2 >= 0.0 && Steady(ts)
    requires Travel(Beats1(ts)) >= Abs(TargetsOf(f).0 - f.rpm1) && Travel(Beats1(ts)) >= Abs(TargetsOf(f).1 - f.rpm2)
    ensures var g, m := RunTicks(f, ts), f.state[MANUAL_SPEED][0] as real;
            && g.rpm1.Floor as real == g.rpm1 && 255.0 * g.rpm1 <= 2000.0 * m < 255.0 * (g.rpm1 + 1.0)
            && g.rpm2.Floor as real == g.rpm2 && 255.0 * g.rpm2 <= 1800.0 * m < 255.0 * (g.rpm2 + 1.0)
  {
    TargetsAreReached(f, ts);
    hide RunTicks;
  }

  /** A higher preset, and a higher manual speed, never aims lower on either fan; an unknown speed aims as preset 2. */
  lemma FasterAimsHigher(power: byte, a: byte, b: byte, manual: byte, more: byte)
    ensures 1 <= a <= b <= 3 ==> Targets(power, a, manual).0 <= Targets(power, b, manual).0
    ensures 1 <= a <= b <= 3 ==> Targets(power, a, manual).1 <= Targets(power, b, manual).1
    ensures manual <= more ==> Targets(power, 255, manual).0 <= Targets(power, 255, more).0
    ensures manual <= more ==> Targets(power, 255, manual).1 <= Targets(power, 255, more).1
    ensures a !in {1, 2, 3, 255} ==> Targets(power, a, manual) == Targets(power, 2, manual)
  {
  }
}
