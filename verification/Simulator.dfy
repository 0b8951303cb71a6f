/** The simulator's mutable objects, proved against the fan values of module FanSpec. */
module Simulator {
  import opened Basics
  import opened Params
  import opened Section
  import opened Decoders
  import opened FanSpec
  import Decimal

  import opened Fleet
  import opened MainLoop
  import Frame

  class SimDevice {
    const index: nat
    const id: Bytes
    const unitType: Word
    var fan1Rpm: real
    var fan2Rpm: real
    var humidity: real
    var state: map<Code, Bytes>

    function Value(): Fan
      reads this
    {
      Fan(index, id, unitType, state, fan1Rpm, fan2Rpm, humidity)
    }

    ghost predicate Valid()
      reads this
    {
      SoundFan(Value())
    }

    constructor (index: nat, prefix: Bytes, unitType: Word, now: Now)
      requires |prefix| <= 15 && |Decimal.MakeSimId(index, prefix)| < 256
      ensures Valid() && Value() == NewFan(index, Decimal.MakeSimId(index, prefix), unitType, now)
    {
      var id := Decimal.MakeSimId(index, prefix);
      var v := VariantOf(index);
      this.index, this.id, this.unitType := index, id, unitType;
      fan1Rpm, fan2Rpm, humidity := 0.0, 0.0, v.humidity;
      state := InitialState(id, unitType, v, now);
      InitialIsSound(index, id, unitType, now);
    }

    method WritePower(value: Bytes) returns (ok: bool)
      modifies this
      ensures Run(Value(), ok) == FanSpec.WritePower(old(Value()), value)
    {
      if value == [2] {
        var cur := if POWER in state then state[POWER] else [0];
        if cur == [] {
          return false;
        }
        state := state[POWER := Byte1(if cur[0] != 0 then 0 else 1)];
      } else {
        state := state[POWER := value];
      }
      return true;
    }

    method WriteFilterReset()
      modifies this
      ensures Value() == old(Value()).Set(FILTER_COUNTDOWN, FRESH_FILTER).Set(FILTER_INDICATOR, [0])
    {
      state := state[FILTER_COUNTDOWN := FRESH_FILTER];
      state := state[FILTER_INDICATOR := [0]];
    }

    method WriteResetAlarms()
      modifies this
      ensures Value() == old(Value()).Set(ALARM_STATUS, [0])
    {
      state := state[ALARM_STATUS := [0]];
    }

    method WriteFactoryReset(now: Now)
      modifies this
      ensures Value() == FactoryReset(old(Value()), now)
    {
      fan1Rpm, fan2Rpm := 0.0, 0.0;
      var variant := VariantOf(index);
      humidity := variant.humidity;
      state := InitialState(id, unitType, variant, now);
    }

    method ApplyWrites(updates: seq<Entry>, now: Now) returns (ok: bool)
      modifies this
      ensures Run(Value(), ok) == FanSpec.ApplyWrites(old(Value()), updates, now)
    {
      hide InitialState, IsParam;
      var reset := HasCode(updates, FACTORY_RESET);
      if reset {
        WriteFactoryReset(now);
        return true;
      }
      for k := 0 to |updates|
        invariant WriteAll(old(Value()), updates) == WriteAll(Value(), updates[k..])
      {
        var e := updates[k];
        assert updates[k..][0] == e && updates[k..][1..] == updates[k + 1..];
        if e.code == POWER {
          ok := WritePower(e.value);
          if !ok {
            return;
          }
        } else if e.code == FILTER_RESET {
          WriteFilterReset();
        } else if e.code == RESET_ALARMS {
          WriteResetAlarms();
        } else if IsParam(e.code) {
          state := state[e.code := e.value];
        }
      }
      return true;
    }

    method Nudge(p: Code, delta: int, table: NudgeTable) returns (ok: bool)
      modifies this
      ensures Run(Value(), ok) == FanSpec.Nudge(old(Value()), p, delta, table)
    {
      if !IsParam(p) || p !in table || p !in state {
        return true;
      }
      var meta := table[p];
      var val := FromBytes(state[p]) + delta;
      val := Clamp(meta.range, val);
      val := Clamp(meta.choices, val);
      var size := if meta.size == 0 then 1 else meta.size;
      if val < 0 || val >= Pow256(size) {
        return false;
      }
      state := state[p := ToBytes(val, size)];
      return true;
    }

    method NudgeAll(params: seq<Code>, delta: int, table: NudgeTable) returns (ok: bool)
      modifies this
      ensures Run(Value(), ok) == FanSpec.NudgeAll(old(Value()), params, delta, table)
    {
      hide FanSpec.Nudge;
      for k := 0 to |params|
        invariant FanSpec.NudgeAll(old(Value()), params, delta, table)
               == FanSpec.NudgeAll(Value(), params[k..], delta, table)
      {
        assert params[k..][0] == params[k] && params[k..][1..] == params[k + 1..];
        ok := Nudge(params[k], delta, table);
        if !ok {
          return;
        }
      }
      return true;
    }

    method SendResponse(requested: seq<Code>) returns (reply: Option<Bytes>)
      requires Valid()
      ensures reply == Respond(Value(), requested)
    {
      var data := BuildResponseData(requested, state);
      var pkt := Frame.BuildPacket(id, SIM_PASSWORD, Frame.RESPONSE, data);
      return if pkt.Ok? then Some(pkt.value) else None;
    }

    method Handle(func: byte, data: Bytes, now: Now, table: NudgeTable) returns (reply: Option<Bytes>)
      requires Valid() && SaneTable(table)
      modifies this
      ensures Valid() && Handled(Value(), reply) == FanSpec.Handle(old(Value()), func, data, now, table)
    {
      hide ReadWalk, WriteWalk, DictOf, WriteAll, FanSpec.NudgeAll, Respond, NewFan, IsParam, FanSpec.ApplyWrites;
      HandleKeepsSound(Value(), func, data, now, table);
      reply := None;
      var ok: bool;
      if func == Frame.READ {
        var requested := ParseReadRequestData(data);
        reply := SendResponse(requested);
      } else if func == Frame.WRITE {
        var updates := ParseWriteData(data);
        ok := ApplyWrites(updates, now);
      } else if func == Frame.WRITE_RESP {
        var updates := ParseWriteData(data);
        ok := ApplyWrites(updates, now);
        if ok {
          reply := SendResponse(CodesOf(updates));
        }
      } else if func == Frame.INCREMENT {
        var params := ParseReadRequestData(data);
        ok := NudgeAll(params, 1, table);
        if ok {
          reply := SendResponse(params);
        }
      } else if func == Frame.DECREMENT {
        var params := ParseReadRequestData(data);
        ok := NudgeAll(params, -1, table);
        if ok {
          reply := SendResponse(params);
        }
      }
    }

    method TickFans(dt: real, jitter1: real, jitter2: real) returns (ok: bool)
      modifies this
      ensures Run(Value(), ok) == FanSpec.TickFans(old(Value()), dt, jitter1, jitter2)
    {
      if !HasByte(Value(), POWER) || !HasByte(Value(), SPEED) || !HasByte(Value(), MANUAL_SPEED) {
        return false;
      }
      var power, speed, manual := state[POWER][0], state[SPEED][0], state[MANUAL_SPEED][0];
      var targets := Targets(power, speed, manual);
      fan1Rpm := Ramp(fan1Rpm, targets.0, dt, power != 0, jitter1);
      fan2Rpm := Ramp(fan2Rpm, targets.1, dt, power != 0, jitter2);
      if !PacksInTwoBytes(fan1Rpm) {
        return false;
      }
      state := state[FAN1_SPEED := ToBytes(fan1Rpm.Floor, 2)];
      if !PacksInTwoBytes(fan2Rpm) {
        return false;
      }
      state := state[FAN2_SPEED := ToBytes(fan2Rpm.Floor, 2)];
      return true;
    }

    method TickHumidity(dt: real, noise: real) returns (ok: bool)
      modifies this
      ensures Run(Value(), ok) == FanSpec.TickHumidity(old(Value()), dt, noise)
    {
      humidity := humidity + noise * dt;
      humidity := ClampHumidity(humidity);
      var rh: byte := humidity.Floor;
      state := state[CURRENT_HUMIDITY := Byte1(rh)];
      if HUMIDITY_THRESHOLD !in state || state[HUMIDITY_THRESHOLD] == [] {
        return false;
      }
      var threshold := state[HUMIDITY_THRESHOLD][0];
      state := state[HUMIDITY_STATUS := Byte1(if rh >= threshold then 1 else 0)];
      return true;
    }

    /** Whether the device's status line can be printed; the line itself is display only. */
    method PrintStatus() returns (ok: bool)
      ensures ok == PrintsStatus(Value())
    {
      ok := POWER in state && state[POWER] != [] && SPEED in state && state[SPEED] != [];
      ok := ok && OPERATION_MODE in state && state[OPERATION_MODE] != [];
      ok := ok && FAN1_SPEED in state && FAN2_SPEED in state;
      ok := ok && CURRENT_HUMIDITY in state && state[CURRENT_HUMIDITY] != [];
      ok := ok && ALARM_STATUS in state && state[ALARM_STATUS] != [];
    }

    method Tick(t: TickInput) returns (ok: bool)
      requires Valid()
      modifies this
      ensures Valid() && Run(Value(), ok) == FanSpec.Tick(old(Value()), t)
    {
      hide FanSpec.TickFans, FanSpec.TickHumidity;
      TickKeepsSound(Value(), t);
      ok := TickFans(t.dt, t.jitter1, t.jitter2);
      if !ok {
        return;
      }
      ok := TickHumidity(t.dt, t.noise);
      if !ok {
        return;
      }
      state := state[RTC_TIME := RtcTime(t.now)];
      state := state[RTC_CALENDAR := RtcCalendar(t.now)];
      if t.uptime / 86400 >= 0x10000 {
        return false;
      }
      var minutes: byte := (t.uptime / 60) % 60;
      var hours: byte := (t.uptime / 3600) % 24;
      state := state[MACHINE_HOURS := [minutes, hours] + ToBytes(t.uptime / 86400, 2)];
    }
  }

  /** Devices with pairwise distinct ids, and the table that finds each by its id. */
  ghost predicate Wired(list: seq<SimDevice>, byId: map<Bytes, SimDevice>) {
    && (forall i, j :: 0 <= i < j < |list| ==> list[i].id != list[j].id)
    && (forall k :: 0 <= k < |list| ==> list[k].id in byId && byId[list[k].id] == list[k])
    && (forall id :: id in byId ==> exists k :: 0 <= k < |list| && list[k].id == id)
  }

  lemma WiredSnoc(list: seq<SimDevice>, byId: map<Bytes, SimDevice>, d: SimDevice)
    requires Wired(list, byId) && forall k :: 0 <= k < |list| ==> list[k].id != d.id
    ensures Wired(list + [d], byId[d.id := d])
  {
    var l, m := list + [d], byId[d.id := d];
    forall id | id in m
      ensures exists k :: 0 <= k < |l| && l[k].id == id
    {
      if id == d.id {
        assert l[|list|].id == id;
      } else {
        var k :| 0 <= k < |list| && list[k].id == id;
        assert l[k].id == id;
      }
    }
  }

  ghost predicate StartsAs(d: SimDevice, index: nat, unitType: Word, prefix: Bytes, now: Now)
    reads d
  {
    d.Valid() && d.Value() == NewFan(index, Decimal.MakeSimId(index, prefix), unitType, now)
  }

  method NewDevice(index: nat, unitType: Word, prefix: Bytes, now: Now) returns (d: SimDevice)
    requires |prefix| <= 15 && |Decimal.MakeSimId(index, prefix)| < 256
    ensures fresh(d) && StartsAs(d, index, unitType, prefix, now) && d.id == Decimal.MakeSimId(index, prefix)
  {
    hide NewFan;
    d := new SimDevice(index, prefix, unitType, now);
    NewFanIs(index, Decimal.MakeSimId(index, prefix), unitType, now);
  }

  /** The first `n` devices of a fleet under construction. */
  ghost predicate Built(list: seq<SimDevice>, start: nat, unitType: Word, prefix: Bytes, now: Now)
    reads list
  {
    forall k :: 0 <= k < |list| ==>
      StartsAs(list[k], start + k, unitType, prefix, now) && list[k].id == Decimal.MakeSimId(start + k, prefix)
  }

  lemma BuiltSnoc(list: seq<SimDevice>, start: nat, unitType: Word, prefix: Bytes, now: Now, d: SimDevice)
    requires Built(list, start, unitType, prefix, now) && StartsAs(d, start + |list|, unitType, prefix, now)
    requires d.id == Decimal.MakeSimId(start + |list|, prefix)
    ensures Built(list + [d], start, unitType, prefix, now)
  {
  }

  lemma BuiltDistinct(list: seq<SimDevice>, start: nat, unitType: Word, prefix: Bytes, now: Now)
    requires Built(list, start, unitType, prefix, now)
    ensures forall i, j :: 0 <= i < j < |list| ==> list[i].id != list[j].id
  {
    hide StartsAs, Decimal.MakeSimId;
    forall i, j | 0 <= i < j < |list|
      ensures list[i].id != list[j].id
    {
      Decimal.SimIdsDistinct(start + i, start + j, prefix);
    }
  }

  lemma BuiltStarts(list: seq<SimDevice>, start: nat, unitType: Word, prefix: Bytes, now: Now)
    requires Built(list, start, unitType, prefix, now)
    ensures forall k :: 0 <= k < |list| ==>
      list[k].Valid() && list[k].Value() == NewFan(start + k, Decimal.MakeSimId(start + k, prefix), unitType, now)
  {
  }

  method NewDevices(count: nat, start: nat, unitType: Word, prefix: Bytes, now: Now) returns (list: seq<SimDevice>)
    requires |prefix| <= 15
    requires forall n :: start <= n < start + count ==> |Decimal.MakeSimId(n, prefix)| < 256
    ensures |list| == count && Built(list, start, unitType, prefix, now) && forall d :: d in list ==> fresh(d)
    ensures forall i, j :: 0 <= i < j < |list| ==> list[i].id != list[j].id
  {
    list := [];
    for i := 0 to count
      invariant |list| == i && Built(list, start, unitType, prefix, now)
      invariant forall d :: d in list ==> fresh(d)
    {
      hide StartsAs, Built, Decimal.MakeSimId;
      var d := NewDevice(start + i, unitType, prefix, now);
      BuiltSnoc(list, start, unitType, prefix, now, d);
      list := list + [d];
    }
    BuiltDistinct(list, start, unitType, prefix, now);
  }

  method IndexById(list: seq<SimDevice>) returns (byId: map<Bytes, SimDevice>)
    requires forall i, j :: 0 <= i < j < |list| ==> list[i].id != list[j].id
    ensures Wired(list, byId)
  {
    byId := map[];
    for i := 0 to |list|
      invariant Wired(list[..i], byId)
    {
      WiredSnoc(list[..i], byId, list[i]);
      hide Wired;
      assert list[..i + 1] == list[..i] + [list[i]];
      byId := byId[list[i].id := list[i]];
    }
    assert list[..|list|] == list;
  }

  /** Several simulated fans behind one socket. */
  class VentoFanSim {
    const devices: seq<SimDevice>
    const idMap: map<Bytes, SimDevice>

    ghost function Values(): (fans: seq<Fan>)
      reads devices
      ensures |fans| == |devices|
      ensures forall k :: 0 <= k < |devices| ==> fans[k] == devices[k].Value()
    {
      seq(|devices|, k requires 0 <= k < |devices| reads devices => devices[k].Value())
    }

    ghost predicate Valid()
      reads devices
    {
      Wired(devices, idMap) && forall k :: 0 <= k < |devices| ==> devices[k].Valid()
    }

    constructor (count: nat, startIndex: nat, unitType: Word, prefix: Bytes, now: Now)
      requires |prefix| <= 15
      requires forall n :: startIndex <= n < startIndex + count ==> |Decimal.MakeSimId(n, prefix)| < 256
      ensures Valid() && forall d :: d in devices ==> fresh(d)
      ensures Values() == NewFleet(count, startIndex, unitType, prefix, now)
    {
      hide Wired, StartsAs, NewFan, Decimal.MakeSimId;
      var list := NewDevices(count, startIndex, unitType, prefix, now);
      var byId := IndexById(list);
      BuiltStarts(list, startIndex, unitType, prefix, now);
      devices := list;
      idMap := byId;
    }

    /** Routes one datagram; returns what is sent back. */
    method Dispatch(raw: Bytes, now: Now, table: NudgeTable) returns (replies: seq<Bytes>)
      requires Valid() && SaneTable(table)
      modifies devices
      ensures Valid() && Dispatched(Values(), replies) == Fleet.Dispatch(old(Values()), raw, now, table)
    {
      hide FanSpec.Handle, ReadWalk, SoundFan, Respond, Frame.ParseHeader, Frame.ChecksumMatches, Wired, Lookup;
      replies := [];
      if !Frame.ChecksumMatches(raw) {
        return;
      }
      var parsed := Frame.ParseHeader(raw);
      if parsed.Err? {
        return;
      }
      var header := parsed.value;
      var data := DataAfter(raw, header.dataStart);
      if header.id == Decimal.DEFAULT_DEVICE_ID {
        replies := Discover(data);
      } else {
        replies := Route(header.id, header.func, data, now, table);
      }
    }

    method Discover(data: Bytes) returns (replies: seq<Bytes>)
      requires Valid()
      ensures replies == DiscoveryReplies(Values(), ReadWalk(0, data))
    {
      hide ReadWalk, SoundFan, Respond, Wired;
      replies := [];
      var requested := ParseReadRequestData(data);
      for k := 0 to |devices|
        invariant DiscoveryReplies(Values(), requested) == replies + DiscoveryReplies(Values()[k..], requested)
      {
        assert Values()[k..][0] == devices[k].Value() && Values()[k..][1..] == Values()[k + 1..];
        var reply := devices[k].SendResponse(requested);
        if reply.None? {
          return;
        }
        replies := replies + [reply.value];
      }
    }

    method Route(target: Bytes, func: byte, data: Bytes, now: Now, table: NudgeTable) returns (replies: seq<Bytes>)
      requires Valid() && SaneTable(table)
      modifies devices
      ensures Valid()
      ensures var k := Lookup(old(Values()), target);
              if k.None? then Values() == old(Values()) && replies == []
              else
                var r := FanSpec.Handle(old(Values())[k.value], func, data, now, table);
                Values() == old(Values())[k.value := r.fan] && replies == Replies(r.reply)
    {
      hide FanSpec.Handle, SoundFan, Lookup;
      replies := [];
      ghost var before := Values();
      if target in idMap {
        var dev := idMap[target];
        ghost var k := Lookup(before, target).value;
        assert devices[k] == dev;
        var reply := dev.Handle(func, data, now, table);
        forall j | 0 <= j < |devices| && j != k
          ensures devices[j] != dev
        {
        }
        assert Values() == before[k := dev.Value()];
        replies := if reply.Some? then [reply.value] else [];
      } else {
        assert Lookup(before, target).None?;
      }
    }

    /** Ticks the devices in order, up to the first whose tick raises; tells how many were reached. */
    method TickInOrder(draws: Draws) returns (n: nat, ok: bool)
      requires Valid() && |draws| == |devices|
      modifies devices
      ensures Valid() && n <= |devices| && (ok ==> n == |devices|) && (!ok ==> n > 0)
      ensures var rs := TickEach(old(Values()), draws);
              forall k :: 0 <= k < n ==> Run(Values()[k], ok || k + 1 < n) == rs[k]
      ensures forall k :: n <= k < |devices| ==> Values()[k] == old(Values())[k]
    {
      hide FanSpec.Tick, SoundFan, TickEach;
      assert forall i, j :: 0 <= i < j < |devices| ==> devices[i] != devices[j];
      hide Wired;
      ghost var before := Values();
      ghost var rs := TickEach(before, draws);
      n := 0;
      while n < |devices|
        invariant Valid() && n <= |devices|
        invariant forall j :: 0 <= j < n ==> Run(devices[j].Value(), true) == rs[j]
        invariant forall j :: n <= j < |devices| ==> devices[j].Value() == before[j]
      {
        ok := devices[n].Tick(draws[n]);
        n := n + 1;
        if !ok {
          return;
        }
      }
      ok := true;
    }

    method TickAll(draws: Draws) returns (ok: bool)
      requires Valid() && |draws| == |devices|
      modifies devices
      ensures Valid() && World(Values(), ok) == TickRound(World(old(Values()), true), draws)
    {
      ghost var before := Values();
      var n: nat;
      n, ok := TickInOrder(draws);
      hide TickRound, TickEach, Wired, SoundFan;
      RoundIs(before, Values(), draws, n, ok);
    }

    /** The devices' status lines in order, up to the first that raises. */
    method PrintAll() returns (ok: bool)
      ensures ok == AllPrint(Values())
    {
      hide PrintsStatus;
      for k := 0 to |devices|
        invariant forall j :: 0 <= j < k ==> PrintsStatus(devices[j].Value())
      {
        ok := devices[k].PrintStatus();
        if !ok {
          assert !PrintsStatus(Values()[k]);
          return;
        }
      }
      return true;
    }

    /** One pass of the main loop up to its wait for a packet; false when it ends the loop. */
    method Pass(turn: Turn) returns (ok: bool)
      requires Valid() && |turn.draws| == |devices|
      modifies devices
      ensures Valid() && World(Values(), ok) == Round(World(old(Values()), true), turn)
    {
      hide TickRound, AllPrint, Wired, SoundFan;
      ok := TickAll(turn.draws);
      if ok && turn.status {
        ok := PrintAll();
      }
    }
  }
}
