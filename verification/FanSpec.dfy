/**
 * One simulated fan as a value: what each handler, write, nudge and tick makes of it.
 *
 * A handler may raise half-way; `Run.ok` is false then and `Run.fan` is the fan as the exception leaves it.
 */
module FanSpec {
  import opened Basics
  import opened Params
  import opened Section
  import opened Decoders
  import Frame

  const SIM_PASSWORD: Bytes := [0x31, 0x31, 0x31, 0x31]
  const RAMP_RATE: real := 80.0

  /** The wall clock at the moment a handler reads it. */
  datatype Clock = Clock(second: byte, minute: byte, hour: byte, day: byte, weekday: nat, month: byte, year: nat)

  type Now = c: Clock | c.weekday < 7 witness Clock(0, 0, 0, 1, 0, 1, 2024)

  datatype Variant = Variant(speed: byte, mode: byte, humidity: real, power: byte)

  function VariantOf(index: nat): Variant {
    if index % 3 == 0 then Variant(1, 0, 48.0, 0)
    else if index % 3 == 1 then Variant(2, 1, 63.0, 1)
    else Variant(3, 2, 72.0, 1)
  }

  datatype Fan = Fan(
    index: nat, id: Bytes, unitType: Word,
    state: map<Code, Bytes>, rpm1: real, rpm2: real, humidity: real)
  {
    function Set(c: Code, v: Bytes): Fan { this.(state := state[c := v]) }
  }

  datatype Run = Run(fan: Fan, ok: bool)

  // ---------------------------------------------------------------------------
  // Initial state
  // ---------------------------------------------------------------------------

  /** The parameters a fresh fan holds: all but the write-only ones, the passwords and the schedule. */
  predicate Held(c: Code) {
    && IsParam(c)
    && c !in {FILTER_RESET, SCHEDULE_SETUP, DEVICE_PASSWORD, RESET_ALARMS, FACTORY_RESET, WIFI_PASSWORD,
              WIFI_APPLY, WIFI_DISCARD}
  }

  function Byte1(b: byte): Bytes { [b] }

  function RtcTime(now: Now): Bytes { [now.second, now.minute, now.hour] }

  function RtcCalendar(now: Now): Bytes {
    var weekday: byte := now.weekday + 1;
    var year: byte := now.year % 100;
    [now.day, weekday, now.month, year]
  }

  function Initial(c: Code, id: Bytes, unitType: Word, v: Variant, now: Now): Bytes {
    if c == POWER then Byte1(v.power)
    else if c == SPEED then Byte1(v.speed)
    else if c == HUMIDITY_SENSOR then Byte1(1)
    else if c == HUMIDITY_THRESHOLD then Byte1(0x3C)
    else if c == VOLTAGE_THRESHOLD then Byte1(0x32)
    else if c == BATTERY_VOLTAGE then ToBytes(4800, 2)
    else if c == CURRENT_HUMIDITY then ToBytes(if v.humidity >= 0.0 then v.humidity.Floor else 0, 1)
    else if c == MANUAL_SPEED then Byte1(0x80)
    else if c == FAN1_SPEED || c == FAN2_SPEED then ToBytes(0, 2)
    else if c == FILTER_COUNTDOWN then FRESH_FILTER
    else if c == RTC_TIME then RtcTime(now)
    else if c == RTC_CALENDAR then RtcCalendar(now)
    else if c == DEVICE_SEARCH then id
    else if c == TIMER_COUNTDOWN then ToBytes(0, 3)
    else if c == MACHINE_HOURS then ToBytes(0, 4)
    else if c == FIRMWARE_VERSION then [1, 2, 6, 3, 0xE8, 0x07]
    else if c == OPERATION_MODE then Byte1(v.mode)
    else if c == UNIT_TYPE then ToBytes(unitType, 2)
    else if c == WIFI_MODE || c == WIFI_DHCP then Byte1(1)
    else if c == WIFI_SSID then [0x53, 0x69, 0x6D, 0x4E, 0x65, 0x74, 0x77, 0x6F, 0x72, 0x6B]
    else if c == WIFI_ENCRYPTION then Byte1(0x34)
    else if c == WIFI_CHANNEL then Byte1(6)
    else if c == WIFI_IP then [192, 168, 1, 100]
    else if c == WIFI_SUBNET then [255, 255, 255, 0]
    else if c == WIFI_GATEWAY then [192, 168, 1, 1]
    else if c == WIFI_CURRENT_IP then [127, 0, 0, 1]
    else if c == NIGHT_TIMER then [0, 8]
    else if c == PARTY_TIMER then [0, 4]
    else Byte1(0)
  }

  const FRESH_FILTER: Bytes := [0, 0, 0xB4]

  function InitialState(id: Bytes, unitType: Word, v: Variant, now: Now): map<Code, Bytes> {
    map c: int | 0 <= c < 0x10000 && Held(c) :: Initial(c, id, unitType, v, now)
  }

  function NewFan(index: nat, id: Bytes, unitType: Word, now: Now): Fan {
    var v := VariantOf(index);
    Fan(index, id, unitType, InitialState(id, unitType, v, now), 0.0, 0.0, v.humidity)
  }

  // ---------------------------------------------------------------------------
  // Writes
  // ---------------------------------------------------------------------------

  function WritePower(f: Fan, v: Bytes): Run {
    if v == [2] then
      var cur := if POWER in f.state then f.state[POWER] else [0];
      if cur == [] then Run(f, false)
      else Run(f.Set(POWER, Byte1(if cur[0] != 0 then 0 else 1)), true)
    else Run(f.Set(POWER, v), true)
  }

  function WriteOne(f: Fan, e: Entry): Run {
    if e.code == POWER then WritePower(f, e.value)
    else if e.code == FILTER_RESET then Run(f.Set(FILTER_COUNTDOWN, FRESH_FILTER).Set(FILTER_INDICATOR, [0]), true)
    else if e.code == RESET_ALARMS then Run(f.Set(ALARM_STATUS, [0]), true)
    else if IsParam(e.code) then Run(f.Set(e.code, e.value), true)
    else Run(f, true)
  }

  /** The writes of a dictionary, in its order, up to the first that raises. */
  function WriteAll(f: Fan, d: seq<Entry>): Run
    decreases |d|
  {
    if d == [] then Run(f, true)
    else
      var r := WriteOne(f, d[0]);
      if !r.ok then r else WriteAll(r.fan, d[1..])
  }

  predicate HasCode(d: seq<Entry>, c: Code) { exists i :: 0 <= i < |d| && d[i].code == c }

  function FactoryReset(f: Fan, now: Now): Fan { NewFan(f.index, f.id, f.unitType, now) }

  function ApplyWrites(f: Fan, d: seq<Entry>, now: Now): Run {
    if HasCode(d, FACTORY_RESET) then Run(FactoryReset(f, now), true) else WriteAll(f, d)
  }

  // ---------------------------------------------------------------------------
  // Nudges
  // ---------------------------------------------------------------------------

  /** Limits of a parameter that can be stepped; `choices` are the least and greatest choice other than 255. */
  datatype NudgeMeta = NudgeMeta(range: Option<(int, int)>, choices: Option<(int, int)>, size: nat)

  type NudgeTable = map<Code, NudgeMeta>

  predicate SaneTable(table: NudgeTable) { forall p :: p in table ==> table[p].size < 256 }

  function Clamp(limits: Option<(int, int)>, n: int): int {
    if limits.None? then n else Max(limits.value.0, Min(limits.value.1, n))
  }

  /** One step of one parameter; a value that does not fit its width raises. */
  function Nudge(f: Fan, p: Code, delta: int, table: NudgeTable): Run {
    if !IsParam(p) || p !in table || p !in f.state then Run(f, true)
    else
      var meta := table[p];
      var val := Clamp(meta.choices, Clamp(meta.range, FromBytes(f.state[p]) + delta));
      var size := if meta.size == 0 then 1 else meta.size;
      if val < 0 || val >= Pow256(size) then Run(f, false)
      else Run(f.Set(p, ToBytes(val, size)), true)
  }

  function NudgeAll(f: Fan, ps: seq<Code>, delta: int, table: NudgeTable): Run
    decreases |ps|
  {
    if ps == [] then Run(f, true)
    else
      var r := Nudge(f, ps[0], delta, table);
      if !r.ok then r else NudgeAll(r.fan, ps[1..], delta, table)
  }

  // ---------------------------------------------------------------------------
  // Packets
  // ---------------------------------------------------------------------------

  /** The response packet for the requested codes; none when it cannot be built. */
  function Respond(f: Fan, requested: seq<Code>): Option<Bytes> {
    var r := Frame.Framed(f.id, SIM_PASSWORD, Frame.RESPONSE, EncodeItems(0, Answers(requested, f.state)));
    if r.Ok? then Some(r.value) else None
  }

  datatype Handled = Handled(fan: Fan, reply: Option<Bytes>)

  function Answered(r: Run, requested: seq<Code>): Handled {
    Handled(r.fan, if r.ok then Respond(r.fan, requested) else None)
  }

  function Handle(f: Fan, func: byte, data: Bytes, now: Now, table: NudgeTable): Handled {
    if func == Frame.READ then Answered(Run(f, true), ReadWalk(0, data))
    else if func == Frame.WRITE then Handled(ApplyWrites(f, DictOf(WriteWalk(0, data)), now).fan, None)
    else if func == Frame.WRITE_RESP then
      var d := DictOf(WriteWalk(0, data));
      Answered(ApplyWrites(f, d, now), CodesOf(d))
    else if func == Frame.INCREMENT then
      var ps := ReadWalk(0, data);
      Answered(NudgeAll(f, ps, 1, table), ps)
    else if func == Frame.DECREMENT then
      var ps := ReadWalk(0, data);
      Answered(NudgeAll(f, ps, -1, table), ps)
    else Handled(f, None)
  }

  // ---------------------------------------------------------------------------
  // Ticks
  // ---------------------------------------------------------------------------

  function Abs(x: real): real { if x < 0.0 then -x else x }

  /** One step of a fan's speed toward its target, with jitter while it spins. */
  function Ramp(current: real, target: real, dt: real, spinning: bool, jitter: real): real {
    var diff := target - current;
    var step := if Abs(diff) <= RAMP_RATE * dt then Abs(diff) else RAMP_RATE * dt;
    var updated := current + (if diff > 0.0 then step else if diff < 0.0 then -step else 0.0);
    var jittered := if spinning && target > 0.0 then updated + jitter else updated;
    if jittered >= 0.0 then jittered else 0.0
  }

  function Targets(power: byte, speed: byte, manual: byte): (real, real) {
    if power == 0 then (0.0, 0.0)
    else if speed == 255 then
      ((manual as real / 255.0 * 2000.0).Floor as real, (manual as real / 255.0 * 1800.0).Floor as real)
    else if speed == 1 then (640.0, 560.0)
    else if speed == 3 then (1860.0, 1640.0)
    else (1260.0, 1100.0)
  }

  predicate HasByte(f: Fan, c: Code) { c in f.state && f.state[c] != [] }

  predicate PacksInTwoBytes(x: real) { 0.0 <= x && x.Floor < 0x10000 }

  function TickFans(f: Fan, dt: real, jitter1: real, jitter2: real): Run {
    if !HasByte(f, POWER) || !HasByte(f, SPEED) || !HasByte(f, MANUAL_SPEED) then Run(f, false)
    else
      var power := f.state[POWER][0];
      var t := Targets(power, f.state[SPEED][0], f.state[MANUAL_SPEED][0]);
      var g := f.(rpm1 := Ramp(f.rpm1, t.0, dt, power != 0, jitter1),
                  rpm2 := Ramp(f.rpm2, t.1, dt, power != 0, jitter2));
      if !PacksInTwoBytes(g.rpm1) then Run(g, false)
      else
        var h := g.Set(FAN1_SPEED, ToBytes(g.rpm1.Floor, 2));
        if !PacksInTwoBytes(h.rpm2) then Run(h, false)
        else Run(h.Set(FAN2_SPEED, ToBytes(h.rpm2.Floor, 2)), true)
  }

  function ClampHumidity(h: real): real {
    var capped := if h < 95.0 then h else 95.0;
    if capped > 30.0 then capped else 30.0
  }

  function TickHumidity(f: Fan, dt: real, noise: real): Run {
    var h := ClampHumidity(f.humidity + noise * dt);
    var rh: byte := h.Floor;
    var g := f.(humidity := h).Set(CURRENT_HUMIDITY, Byte1(rh));
    if !HasByte(g, HUMIDITY_THRESHOLD) then Run(g, false)
    else
      var status: byte := if rh >= g.state[HUMIDITY_THRESHOLD][0] then 1 else 0;
      Run(g.Set(HUMIDITY_STATUS, Byte1(status)), true)
  }

  function TickRtc(f: Fan, now: Now): Fan {
    f.Set(RTC_TIME, RtcTime(now)).Set(RTC_CALENDAR, RtcCalendar(now))
  }

  function TickUptime(f: Fan, uptime: nat): Run {
    if uptime / 86400 >= 0x10000 then Run(f, false)
    else
      var minutes: byte := (uptime / 60) % 60;
      var hours: byte := (uptime / 3600) % 24;
      Run(f.Set(MACHINE_HOURS, [minutes, hours] + ToBytes(uptime / 86400, 2)), true)
  }

  /** Everything one tick reads from outside the fan. */
  datatype TickInput = TickInput(dt: real, jitter1: real, jitter2: real, noise: real, now: Now, uptime: nat)

  function Tick(f: Fan, t: TickInput): Run {
    var a := TickFans(f, t.dt, t.jitter1, t.jitter2);
    if !a.ok then a
    else
      var b := TickHumidity(a.fan, t.dt, t.noise);
      if !b.ok then b else TickUptime(TickRtc(b.fan, t.now), t.uptime)
  }

  // ---------------------------------------------------------------------------
  // What every step keeps
  // ---------------------------------------------------------------------------

  /** Only known parameters are held, each with a size that fits the one size byte of a response. */
  ghost predicate Sound(state: map<Code, Bytes>) {
    forall c :: c in state ==> IsParam(c) && |state[c]| < 256
  }

  ghost predicate SoundFan(f: Fan) { Sound(f.state) && |f.id| < 256 }

  lemma SetKeepsSound(f: Fan, c: Code, v: Bytes)
    requires SoundFan(f) && IsParam(c) && |v| < 256
    ensures SoundFan(f.Set(c, v))
  {
  }

  lemma NewFanIs(index: nat, id: Bytes, unitType: Word, now: Now)
    ensures var f := NewFan(index, id, unitType, now); f.index == index && f.id == id && f.unitType == unitType
  {
  }

  lemma InitialIsSound(index: nat, id: Bytes, unitType: Word, now: Now)
    requires |id| < 256
    ensures SoundFan(NewFan(index, id, unitType, now))
  {
  }

  lemma {:induction false} WriteAllKeepsSound(f: Fan, d: seq<Entry>)
    requires SoundFan(f) && forall e :: e in d ==> |e.value| < 256
    ensures SoundFan(WriteAll(f, d).fan)
    decreases |d|
  {
    if d != [] {
      assert d[0] in d;
      var r := WriteOne(f, d[0]);
      assert SoundFan(r.fan);
      if r.ok {
        WriteAllKeepsSound(r.fan, d[1..]);
      }
    }
  }

  lemma {:induction false} NudgeAllKeepsSound(f: Fan, ps: seq<Code>, delta: int, table: NudgeTable)
    requires SoundFan(f) && SaneTable(table)
    ensures SoundFan(NudgeAll(f, ps, delta, table).fan)
    decreases |ps|
  {
    if ps != [] {
      var r := Nudge(f, ps[0], delta, table);
      if r.ok {
        NudgeAllKeepsSound(r.fan, ps[1..], delta, table);
      }
    }
  }

  lemma {:induction false} WalkedSizes(page: byte, d: Bytes)
    ensures forall e :: e in WriteWalk(page, d) ==> |e.value| < 256
    decreases |d|, 1
  {
    if d != [] {
      if d[0] == CMD_PAGE {
        if |d| > 1 {
          WalkedSizes(d[1], d[2..]);
        }
      } else if d[0] == CMD_FUNC {
        WalkedSizes(page, From(d, 2));
      } else if d[0] == CMD_SIZE {
        if |d| >= 3 {
          TaggedSizes(page, d[1], d[2..]);
        }
      } else {
        TaggedSizes(page, 1, d);
      }
    }
  }

  lemma {:induction false} TaggedSizes(page: byte, size: nat, t: Bytes)
    requires t != [] && size < 256
    ensures forall e :: e in WriteTag(page, size, t) ==> |e.value| < 256
    decreases |t|, 0
  {
    if |t| >= 1 + size {
      WalkedSizes(page, t[1 + size..]);
    }
  }

  /** No packet data whatsoever leaves a fan holding an unknown parameter or a value too long to report. */
  lemma HandleKeepsSound(f: Fan, func: byte, data: Bytes, now: Now, table: NudgeTable)
    requires SoundFan(f) && SaneTable(table)
    ensures SoundFan(Handle(f, func, data, now, table).fan)
  {
    hide ReadWalk, WriteWalk, DictOf, WriteAll, NudgeAll, Respond, NewFan, IsParam;
    var d := DictOf(WriteWalk(0, data));
    WalkedSizes(0, data);
    DictIsLastWins(WriteWalk(0, data));
    WriteAllKeepsSound(f, d);
    InitialIsSound(f.index, f.id, f.unitType, now);
    NudgeAllKeepsSound(f, ReadWalk(0, data), 1, table);
    NudgeAllKeepsSound(f, ReadWalk(0, data), -1, table);
  }

  lemma TickKeepsSound(f: Fan, t: TickInput)
    requires SoundFan(f)
    ensures SoundFan(Tick(f, t).fan)
  {
  }
}
