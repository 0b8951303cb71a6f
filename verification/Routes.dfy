/** Applying a scenario to a fan of the simulator, command by command, as each application does it. */
module Routes {
  import opened Basics
  import opened Params
  import opened FanSpec
  import opened Client
  import opened Commands
  import opened Polling
  import opened ScenarioData
  import opened SceneChoice
  import opened Scenes
  import opened Simulator
  import opened States
  import opened Values
  import StoreSpec

  /** A simulator one of whose fans the client is connected to. */
  ghost predicate Connected(c: Client, fleet: seq<Fan>, k: nat) {
    Reachable(fleet) && k < |fleet| && c.id == fleet[k].id
  }

  lemma DirectKeepsId(c: Client, op: Op, f: Fan, now: Now, table: NudgeTable)
    requires WellTyped(op) && SoundFan(f) && |f.id| == 16 && SaneTable(table)
    ensures Direct(c, op, f, now, table).fan.id == f.id
  {
    hide SoundFan, WellTyped, SaneTable, Told, DirectWrite, NudgeAll, RequestData, Handle;
    if Sendable(c, op) {
      HandleIsDirect(c, op, f, now, table);
    }
  }

  /** One accepted operation changes the client's fan as the direct operation does, and no other fan. */
  lemma SentIsDirect(c: Client, op: Op, fleet: seq<Fan>, k: nat, now: Now, table: NudgeTable)
    requires Connected(c, fleet, k) && WellTyped(op) && SaneTable(table)
    ensures var d := Direct(c, op, fleet[k], now, table);
            Exchange(c, op, fleet, now, table) == Exchanged(fleet[k := d.fan], d.result)
            && Connected(c, fleet[k := d.fan], k)
  {
    hide Direct, Exchange, SoundFan;
    DirectKeepsId(c, op, fleet[k], now, table);
    ExchangeRefinesDirect(c, op, fleet, k, now, table);
  }

  // ---------------------------------------------------------------------------
  // The native application
  // ---------------------------------------------------------------------------

  lemma {:induction false} ApplyAllSnoc(f: Fan, pwd: Bytes, ops: seq<Result<Op>>, op: Result<Op>, now: Now,
                                        table: NudgeTable)
    ensures ApplyAll(f, pwd, ops + [op], now, table)
         == var g := ApplyAll(f, pwd, ops, now, table);
            if op.Ok? then Direct(Client(g.id, pwd), op.value, g, now, table).fan else g
    decreases |ops|
  {
    hide Direct;
    if ops == [] {
      assert ([op])[1..] == [];
      assert [] + [op] == [op];
    } else {
      assert (ops + [op])[1..] == ops[1..] + [op];
      var g := if ops[0].Ok? then Direct(Client(f.id, pwd), ops[0].value, f, now, table).fan else f;
      ApplyAllSnoc(g, pwd, ops[1..], op, now, table);
    }
  }

  /** The fleet in which fan `k` has had the given commands, each tried whatever became of the others. */
  ghost predicate Issued(c: Client, cmds: seq<Command>, before: seq<Fan>, after: seq<Fan>, k: nat, now: Now,
                         table: NudgeTable) {
    Connected(c, before, k) && Connected(c, after, k)
    && after == before[k := ApplyAll(before[k], c.pwd, OpsOf(cmds), now, table)]
  }

  lemma IssuedSnoc(c: Client, cmds: seq<Command>, cmd: Command, before: seq<Fan>, after: seq<Fan>, k: nat, now: Now,
                   table: NudgeTable)
    requires Issued(c, cmds, before, after, k, now, table) && SaneTable(table)
    ensures CommandOp(cmd).Err? ==> Issued(c, cmds + [cmd], before, after, k, now, table)
    ensures CommandOp(cmd).Ok? ==>
              Issued(c, cmds + [cmd], before, Exchange(c, CommandOp(cmd).value, after, now, table).fleet, k, now, table)
  {
    hide CommandOp, Exchange, Direct, Reachable;
    assert OpsOf(cmds + [cmd]) == OpsOf(cmds) + [CommandOp(cmd)];
    ApplyAllSnoc(before[k], c.pwd, OpsOf(cmds), CommandOp(cmd), now, table);
    if CommandOp(cmd).Ok? {
      CommandsAreSafe(cmd);
      SentIsDirect(c, CommandOp(cmd).value, after, k, now, table);
    }
  }

  /** A setting that is set becomes a command; the native service carries on whatever its result. */
  method Issue(c: Client, cmd: Option<Command>, sim: VentoFanSim, now: Now, table: NudgeTable, ghost k: nat,
               ghost done: seq<Command>, ghost before: seq<Fan>)
    requires sim.Valid() && SaneTable(table) && Issued(c, done, before, sim.Values(), k, now, table)
    modifies sim.devices
    ensures sim.Valid() && Issued(c, done + Only(cmd), before, sim.Values(), k, now, table)
  {
    hide CommandOp, Issued, Exchange, Wired;
    assert done + [] == done;
    if cmd.Some? {
      IssuedSnoc(c, done, cmd.value, before, sim.Values(), k, now, table);
      var op := CommandOp(cmd.value);
      if op.Ok? {
        var _ := Send(c, op.value, sim, now, table);
      }
    }
  }

  lemma IssuedNothing(c: Client, fleet: seq<Fan>, k: nat, now: Now, table: NudgeTable)
    requires Connected(c, fleet, k)
    ensures Issued(c, [], fleet, fleet, k, now, table)
  {
  }

  /** The native application's way of applying a scenario's settings to the connected fan. */
  method ApplySettings(c: Client, s: Settings, sim: VentoFanSim, now: Now, table: NudgeTable, ghost k: nat)
    requires sim.Valid() && SaneTable(table) && Connected(c, sim.Values(), k)
    modifies sim.devices
    ensures sim.Valid() && Issued(c, NativeCommands(s), old(sim.Values()), sim.Values(), k, now, table)
  {
    ghost var before := sim.Values();
    IssuedNothing(c, before, k, now, table);
    hide Issued, Wired, Only, PowerCommand, SpeedCommand, ManualCommand, ModeCommand, BoostCommand, SensorCommand;
    hide ThresholdCommand, SaneTable, Connected, Reachable;
    ghost var done: seq<Command> := [];
    Issue(c, PowerCommand(s), sim, now, table, k, done, before);
    done := done + Only(PowerCommand(s));
    Issue(c, SpeedCommand(s), sim, now, table, k, done, before);
    done := done + Only(SpeedCommand(s));
    Issue(c, ManualCommand(s), sim, now, table, k, done, before);
    done := done + Only(ManualCommand(s));
    Issue(c, ModeCommand(s), sim, now, table, k, done, before);
    done := done + Only(ModeCommand(s));
    Issue(c, BoostCommand(s), sim, now, table, k, done, before);
    done := done + Only(BoostCommand(s));
    Issue(c, SensorCommand(s), sim, now, table, k, done, before);
    done := done + Only(SensorCommand(s));
    Issue(c, ThresholdCommand(s), sim, now, table, k, done, before);
    done := done + Only(ThresholdCommand(s));
    assert [] + Only(PowerCommand(s)) == Only(PowerCommand(s));
    assert done == NativeCommands(s);
  }

  /** The native application's way of applying a scenario by name to the connected device `id`. */
  method ApplyScene(c: Client, entries: seq<Scenario>, name: string, id: string, sim: VentoFanSim, now: Now,
                    table: NudgeTable, ghost k: nat)
    requires sim.Valid() && SaneTable(table) && Connected(c, sim.Values(), k)
    modifies sim.devices
    ensures sim.Valid()
    ensures var before := old(sim.Values());
            sim.Values() == before[k := ApplyNativeScene(entries, name, id, before[k], c.pwd, now, table)]
  {
    hide Wired, Reachable, SaneTable, ApplyAll, OpsOf, NativeCommands, SettingsFor;
    ghost var before := sim.Values();
    assert before[k := before[k]] == before;
    for i := 0 to |entries|
      invariant sim.Valid() && sim.Values() == before
      invariant NativeChoice(entries, name, id) == NativeChoice(entries[i..], name, id)
    {
      assert entries[i..][0] == entries[i] && entries[i..][1..] == entries[i + 1..];
      if entries[i].name != "" && entries[i].name == name {
        var own := GetSettingsForDevice(entries[i].fans, id);
        if own.Some? {
          ApplySettings(c, own.value, sim, now, table, k);
          return;
        }
      }
    }
    assert entries[|entries|..] == [];
  }

  /** The settings of the first entry for the device, found by scanning. */
  method GetSettingsForDevice(fans: seq<FanSettings>, id: string) returns (r: Option<Settings>)
    ensures r == SettingsFor(fans, id)
  {
    for j := 0 to |fans|
      invariant SettingsFor(fans, id) == SettingsFor(fans[j..], id)
    {
      assert fans[j..][0] == fans[j] && fans[j..][1..] == fans[j + 1..];
      if fans[j].deviceId == id {
        return Some(fans[j].settings);
      }
    }
    assert fans[|fans|..] == [];
    return None;
  }

  /**
   * A scenario saved from a fan with id `from` and applied through the wire while connected to fan `k` under
   * `id`: the native application makes fan k as the captured one was if the ids are the same, and otherwise
   * leaves the whole fleet alone.
   */
  lemma SceneIsRestored(c: Client, st: StoreSpec.DesktopStore, name: string, from: string, id: string, a: Fan,
                        before: seq<Fan>, k: nat, now: Now, table: NudgeTable)
    requires StoreSpec.Intact(st) && name != "" && Safe(a)
    requires k < |before| && MayTalk(before[k], c.pwd)
    ensures HasSettings(a.state)
    ensures var saved := StoreSpec.Save(st, CapturedScene(name, from, a), StoreSpec.Label, StoreSpec.BLANK).scenarios;
            before[k := ApplyNativeScene(saved, name, id, before[k], c.pwd, now, table)]
            == if id == from then before[k := before[k].(state := Overlaid(a.state, before[k].state))] else before
  {
    SavedSceneChoice(st, name, from, id, a);
    hide Safe, MayTalk, Captured, CapturedScene, StoreSpec.Save, StoreSpec.Intact, Listed, WebChoice, Overlaid;
    hide ApplyNativeScene, StoreSpec.DistinctNames;
    var saved := StoreSpec.Save(st, CapturedScene(name, from, a), StoreSpec.Label, StoreSpec.BLANK).scenarios;
    NativeSceneResult(saved, name, id, a, before[k], c.pwd, now, table);
    assert before[k := before[k]] == before;
  }

  // ---------------------------------------------------------------------------
  // The dashboard
  // ---------------------------------------------------------------------------

  /** What the operations `all` do to fan `k`, they do from here with only `rest` of them left. */
  ghost predicate Underway(c: Client, all: seq<Result<Op>>, rest: seq<Result<Op>>, before: seq<Fan>, after: seq<Fan>,
                           k: nat, now: Now, table: NudgeTable) {
    Connected(c, before, k) && Connected(c, after, k) && after == before[k := after[k]]
    && ApplyUntilError(before[k], c.pwd, all, now, table) == ApplyUntilError(after[k], c.pwd, rest, now, table)
    && Succeeds(before[k], c.pwd, all, now, table) == Succeeds(after[k], c.pwd, rest, now, table)
  }

  /** The operations `all` are over: all done when `ok`, else ended by an error. */
  ghost predicate Over(c: Client, all: seq<Result<Op>>, before: seq<Fan>, after: seq<Fan>, k: nat, now: Now,
                       table: NudgeTable, ok: bool) {
    Connected(c, before, k) && Connected(c, after, k)
    && ok == Succeeds(before[k], c.pwd, all, now, table)
    && after == before[k := ApplyUntilError(before[k], c.pwd, all, now, table)]
  }

  lemma ErrorEnds(c: Client, all: seq<Result<Op>>, op: Result<Op>, rest: seq<Result<Op>>, before: seq<Fan>,
                  after: seq<Fan>, k: nat, now: Now, table: NudgeTable)
    requires Underway(c, all, [op] + rest, before, after, k, now, table) && op.Err?
    ensures Over(c, all, before, after, k, now, table, false)
  {
  }

  lemma OneMore(c: Client, all: seq<Result<Op>>, op: Result<Op>, rest: seq<Result<Op>>, before: seq<Fan>,
                after: seq<Fan>, k: nat, now: Now, table: NudgeTable)
    requires Underway(c, all, [op] + rest, before, after, k, now, table) && op.Ok?
    requires WellTyped(op.value) && SaneTable(table)
    ensures var e := Exchange(c, op.value, after, now, table);
            && Connected(c, e.fleet, k)
            && if e.result.Err? || !Polls(e.fleet[k], c.pwd, now, table)
               then Over(c, all, before, e.fleet, k, now, table, false)
               else Underway(c, all, rest, before, e.fleet, k, now, table)
  {
    hide Direct, Polls, Exchange, SaneTable, WellTyped, Reachable;
    SentIsDirect(c, op.value, after, k, now, table);
    assert ([op] + rest)[1..] == rest;
  }

  lemma PolledInFleet(c: Client, fleet: seq<Fan>, k: nat, now: Now, table: NudgeTable)
    requires Connected(c, fleet, k) && SaneTable(table)
    ensures var raw := Poll(c, ALL_PARAM_GROUPS, map[], fleet, now, table);
            Polls(fleet[k], c.pwd, now, table) <==> raw.Ok? && Build(raw.value).Ok?
  {
    hide Poll, Build, Reachable;
    PollAlone(c, ALL_PARAM_GROUPS, map[], fleet, k, now, table);
  }

  /** One setting of the scenario: nothing when unset, else the command and the poll that follows it. */
  method Perform(c: Client, part: Option<Result<Op>>, sim: VentoFanSim, now: Now, table: NudgeTable, ghost k: nat,
                 ghost all: seq<Result<Op>>, ghost rest: seq<Result<Op>>, ghost before: seq<Fan>) returns (ok: bool)
    requires sim.Valid() && SaneTable(table)
    requires Typed(part)
    requires Underway(c, all, Only(part) + rest, before, sim.Values(), k, now, table)
    modifies sim.devices
    ensures sim.Valid()
    ensures if ok then Underway(c, all, rest, before, sim.Values(), k, now, table)
            else Over(c, all, before, sim.Values(), k, now, table, false)
  {
    hide Underway, Over, Exchange, Wired, Polls, Poll, Build, WellTyped, Connected, SaneTable;
    if part.None? {
      assert [] + rest == rest;
      return true;
    }
    var op := part.value;
    if op.Err? {
      ErrorEnds(c, all, op, rest, before, sim.Values(), k, now, table);
      return false;
    }
    OneMore(c, all, op, rest, before, sim.Values(), k, now, table);
    var r := Send(c, op.value, sim, now, table);
    if r.Err? {
      return false;
    }
    PolledInFleet(c, sim.Values(), k, now, table);
    var polled := GetState(c, sim, now, table);
    return polled.Ok?;
  }

  ghost predicate Typed(part: Option<Result<Op>>) { part.Some? && part.value.Ok? ==> WellTyped(part.value.value) }

  /** Whatever the settings, the dashboard's operations write known parameters. */
  lemma PartsAreTyped(s: Settings)
    ensures Typed(PowerOp(s)) && Typed(SpeedOp(s)) && Typed(ModeOp(s))
    ensures Typed(BoostOp(s)) && Typed(SensorOp(s)) && Typed(ThresholdOp(s))
  {
    hide FromInt, Bit, CommandOp, SafeWrite;
    forall cmd: Command
      ensures CommandOp(cmd).Ok? ==> WellTyped(CommandOp(cmd).value)
    {
      if CommandOp(cmd).Ok? {
        CommandsAreSafe(cmd);
      }
    }
    if s.boostActive.Some? && FromInt(BOOST_STATUS, Bit(s.boostActive.value)).Ok? {
      FromIntDecodes(BOOST_STATUS, Bit(s.boostActive.value));
    }
  }

  /** The dashboard's way of applying chosen settings; true when no operation failed. */
  method ApplyChosen(c: Client, s: Settings, sim: VentoFanSim, now: Now, table: NudgeTable, ghost k: nat)
    returns (ok: bool)
    requires sim.Valid() && SaneTable(table) && Connected(c, sim.Values(), k)
    modifies sim.devices
    ensures sim.Valid() && Over(c, WebOps(s), old(sim.Values()), sim.Values(), k, now, table, ok)
  {
    ghost var before, all := sim.Values(), WebOps(s);
    ghost var r3 := Only(BoostOp(s)) + (Only(SensorOp(s)) + Only(ThresholdOp(s)));
    ghost var r2 := Only(ModeOp(s)) + r3;
    ghost var r1 := Only(SpeedOp(s)) + r2;
    Starts(c, all, before, k, now, table);
    PartsAreTyped(s);
    assert all == Only(PowerOp(s)) + r1;
    hide *;
    ok := Perform(c, PowerOp(s), sim, now, table, k, all, r1, before);
    if !ok {
      return;
    }
    ok := Perform(c, SpeedOp(s), sim, now, table, k, all, r2, before);
    if !ok {
      return;
    }
    ok := Perform(c, ModeOp(s), sim, now, table, k, all, r3, before);
    if !ok {
      return;
    }
    ok := FinishChosen(c, s, sim, now, table, k, all, before);
  }

  /** The last three settings. */
  method FinishChosen(c: Client, s: Settings, sim: VentoFanSim, now: Now, table: NudgeTable, ghost k: nat,
                      ghost all: seq<Result<Op>>, ghost before: seq<Fan>) returns (ok: bool)
    requires sim.Valid() && SaneTable(table)
    requires Underway(c, all, Only(BoostOp(s)) + (Only(SensorOp(s)) + Only(ThresholdOp(s))), before, sim.Values(), k,
                      now, table)
    modifies sim.devices
    ensures sim.Valid() && Over(c, all, before, sim.Values(), k, now, table, ok)
  {
    ghost var last := Only(ThresholdOp(s));
    PartsAreTyped(s);
    assert last + [] == last;
    hide *;
    ok := Perform(c, BoostOp(s), sim, now, table, k, all, Only(SensorOp(s)) + last, before);
    if !ok {
      return;
    }
    ok := Perform(c, SensorOp(s), sim, now, table, k, all, last, before);
    if !ok {
      return;
    }
    ok := Perform(c, ThresholdOp(s), sim, now, table, k, all, [], before);
    if ok {
      Finished(c, all, before, sim.Values(), k, now, table);
    }
  }

  lemma Starts(c: Client, all: seq<Result<Op>>, fleet: seq<Fan>, k: nat, now: Now, table: NudgeTable)
    requires Connected(c, fleet, k)
    ensures Underway(c, all, all, fleet, fleet, k, now, table)
  {
  }

  lemma Finished(c: Client, all: seq<Result<Op>>, before: seq<Fan>, after: seq<Fan>, k: nat, now: Now,
                 table: NudgeTable)
    requires Underway(c, all, [], before, after, k, now, table)
    ensures Over(c, all, before, after, k, now, table, true)
  {
  }

  /** The dashboard's replies to a request to apply a scenario. */
  datatype Reply = NoContent | NotFound | Unprocessable | BadGateway

  /** The dashboard's way of applying a scenario by name to the connected device `id`. */
  method ApplyScenario(c: Client, entries: seq<Scenario>, name: string, id: string, sim: VentoFanSim, now: Now,
                       table: NudgeTable, ghost k: nat) returns (reply: Reply)
    requires sim.Valid() && SaneTable(table) && Connected(c, sim.Values(), k)
    modifies sim.devices
    ensures sim.Valid()
    ensures var before := old(sim.Values());
            sim.Values() == before[k := ApplyWebScene(entries, name, id, before[k], c.pwd, now, table)]
    ensures reply == match WebChoice(entries, name, id)
                     case NoScenario => NotFound
                     case NoFans => Unprocessable
                     case Chosen(s) => if Succeeds(old(sim.Values())[k], c.pwd, WebOps(s), now, table) then NoContent
                                       else BadGateway
  {
    hide Wired, Reachable, SaneTable, ApplyUntilError, Succeeds, WebOps, SettingsFor;
    ghost var before := sim.Values();
    assert before[k := before[k]] == before;
    var i := StoreSpec.Find(entries, name);
    if i.None? {
      return NotFound;
    }
    var entry := entries[i.value];
    var settings := GetSettingsForDevice(entry.fans, id);
    if settings.None? {
      if entry.fans == [] {
        return Unprocessable;
      }
      settings := Some(entry.fans[0].settings);
    }
    var ok := ApplyChosen(c, settings.value, sim, now, table, k);
    return if ok then NoContent else BadGateway;
  }
}
