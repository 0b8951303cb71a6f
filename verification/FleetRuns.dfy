/** A whole simulator from its construction on: every fan stays safe, reachable and discoverable. */
module FleetRuns {
  import opened Basics
  import opened Params
  import opened Decoders
  import opened FanSpec
  import opened Fleet
  import opened MainLoop
  import opened Writes
  import opened Client
  import opened Commands
  import opened Polling
  import opened Discovery
  import opened States
  import Decimal

  /** What can happen to a simulator: any client's command, or a pass of its main loop. */
  datatype Move =
    | Commanded(client: Client, cmd: Command, now: Now)
    | Passed(turn: Turn)

  /** The steps of a run; a command that fails its validation sends nothing. */
  function StepsOf(moves: seq<Move>): seq<Step> {
    if moves == [] then []
    else match moves[0]
      case Passed(turn) => [Pass(turn)] + StepsOf(moves[1..])
      case Commanded(c, cmd, now) =>
        var op := CommandOp(cmd);
        (if op.Ok? then [Operation(c, op.value, now)] else []) + StepsOf(moves[1..])
  }

  ghost predicate SafeStep(s: Step) { s.Operation? ==> SafeOp(s.op) }

  ghost predicate SafeSteps(steps: seq<Step>) { forall i :: 0 <= i < |steps| ==> SafeStep(steps[i]) }

  lemma {:induction false} CommandsMakeSafeSteps(moves: seq<Move>)
    ensures SafeSteps(StepsOf(moves))
    decreases |moves|
  {
    if moves != [] {
      hide CommandOp, SafeOp;
      CommandsMakeSafeSteps(moves[1..]);
      if moves[0].Commanded? && CommandOp(moves[0].cmd).Ok? {
        CommandsAreSafe(moves[0].cmd);
      }
    }
  }

  /** A fan that is safe, holds its own id and type, and still is the device with that id and type. */
  ghost predicate IsDevice(f: Fan, id: Bytes, unitType: Word) {
    Safe(f) && Named(f) && f.id == id && f.unitType == unitType
  }

  ghost predicate Devices(fleet: seq<Fan>, ids: seq<Bytes>, unitType: Word) {
    && |fleet| == |ids| && Reachable(fleet)
    && forall k :: 0 <= k < |fleet| ==> IsDevice(fleet[k], ids[k], unitType)
  }

  lemma DirectKeepsType(c: Client, op: Op, f: Fan, now: Now, table: NudgeTable)
    requires SafeOp(op) && Safe(f) && StepsSpeed(table)
    ensures var g := Direct(c, op, f, now, table).fan; g.id == f.id && g.unitType == f.unitType
  {
    hide Safe, SafeWrite, Told, Effective, DictOf, NewFan;
    NewFanIs(f.index, f.id, f.unitType, now);
    if op.Increment? || op.Decrement? {
      NudgeKeepsType(f, 1, table);
      NudgeKeepsType(f, -1, table);
    }
    hide NudgeAll;
  }

  lemma NudgeKeepsType(f: Fan, delta: int, table: NudgeTable)
    ensures var g := NudgeAll(f, [SPEED], delta, table).fan; g.id == f.id && g.unitType == f.unitType
  {
    assert [SPEED][1..] == [];
    var r := Nudge(f, SPEED, delta, table);
    assert NudgeAll(f, [SPEED], delta, table) == if r.ok then NudgeAll(r.fan, [], delta, table) else r;
  }

  lemma OpKeepsDevice(c: Client, op: Op, f: Fan, id: Bytes, unitType: Word, now: Now, table: NudgeTable)
    requires IsDevice(f, id, unitType) && SafeOp(op) && StepsSpeed(table)
    ensures IsDevice(Direct(c, op, f, now, table).fan, id, unitType)
  {
    hide Safe, Named, SafeOp, Direct, StepsSpeed;
    OpKeepsSafe(c, op, f, now, table);
    OpKeepsNamed(c, op, f, now, table);
    DirectKeepsType(c, op, f, now, table);
  }

  lemma OperationKeepsDevices(s: Step, w: World, ids: seq<Bytes>, unitType: Word, table: NudgeTable)
    requires Devices(w.fleet, ids, unitType) && s.Operation? && SafeStep(s) && StepsSpeed(table)
    ensures Devices(Sent(s.client, s.op, w, s.now, table).fleet, ids, unitType)
  {
    assert WellTyped(s.op);
    var k := Lookup(w.fleet, s.client.id);
    hide IsDevice, SafeOp, Exchange, Direct, Reachable, StepsSpeed, WellTyped;
    assert SaneTable(table) by { StepsAreSane(table); }
    if s.client.id == Decimal.DEFAULT_DEVICE_ID {
      ExchangeAsDiscovery(s.client, s.op, w.fleet, s.now, table);
    } else {
      hide Sent;
      SentIsDirectStep(s.client, s.op, w, s.now, table);
      if w.alive && k.Some? {
        OpKeepsDevice(s.client, s.op, w.fleet[k.value], ids[k.value], unitType, s.now, table);
      }
    }
  }

  lemma PassKeepsDevices(w: World, turn: Turn, ids: seq<Bytes>, unitType: Word)
    requires Devices(w.fleet, ids, unitType)
    ensures Devices(Round(w, turn).fleet, ids, unitType)
  {
    hide Safe, Named, Round, Reachable;
    RoundKeepsReachable(w, turn);
    var after := Round(w, turn).fleet;
    forall k | 0 <= k < |after|
      ensures IsDevice(after[k], ids[k], unitType)
    {
      RoundKeepsSafe(w, turn, k);
      RoundTouches(w, turn, k);
      assert forall c: Code :: Identifies(c) ==> !TickWrites(c);
      SameIdentity(w.fleet[k], after[k]);
    }
  }

  lemma {:induction false} RunKeepsDevices(w: World, steps: seq<Step>, ids: seq<Bytes>, unitType: Word,
                                           table: NudgeTable)
    requires Devices(w.fleet, ids, unitType) && SafeSteps(steps) && StepsSpeed(table)
    ensures Devices(RunExchanges(w, steps, table).world.fleet, ids, unitType)
    decreases |steps|
  {
    if steps != [] {
      assert SafeStep(steps[0]) && SafeSteps(steps[1..]);
      hide Devices, SafeStep, SafeSteps, Sent, Round, StepsSpeed;
      match steps[0] {
        case Pass(turn) =>
          PassKeepsDevices(w, turn, ids, unitType);
          RunKeepsDevices(Round(w, turn), steps[1..], ids, unitType, table);
        case Operation(c, op, now) =>
          OperationKeepsDevices(steps[0], w, ids, unitType, table);
          RunKeepsDevices(World(Sent(c, op, w, now, table).fleet, w.alive), steps[1..], ids, unitType, table);
      }
    }
  }

  function SimIds(count: nat, start: nat, prefix: Bytes): (ids: seq<Bytes>)
    ensures |ids| == count && forall k :: 0 <= k < count ==> ids[k] == Decimal.MakeSimId(start + k, prefix)
  {
    seq(count, k requires 0 <= k < count => Decimal.MakeSimId(start + k, prefix))
  }

  lemma NewFleetIsDevices(count: nat, start: nat, unitType: Word, prefix: Bytes, now: Now)
    requires |prefix| <= 15 && start + count < Decimal.Pow10(16 - |prefix|)
    ensures Devices(NewFleet(count, start, unitType, prefix, now), SimIds(count, start, prefix), unitType)
  {
    var fleet, ids := NewFleet(count, start, unitType, prefix, now), SimIds(count, start, prefix);
    NewFleetIsReachable(count, start, unitType, prefix, now);
    hide Safe, Named, NewFan, Decimal.MakeSimId;
    forall k | 0 <= k < count
      ensures IsDevice(fleet[k], ids[k], unitType)
    {
      Decimal.SimIdShape(start + k, prefix);
      InitialIsSafe(start + k, ids[k], unitType, now);
      NewIsNamed(start + k, ids[k], unitType, now);
      NewFanIs(start + k, ids[k], unitType, now);
    }
  }

  /**
   * Whatever validated commands any clients send through the wire to a new simulator, and however often its
   * loop passes between them, every fan of it stays safe and stays the device it was built as.
   */
  lemma FleetStaysSafe(count: nat, start: nat, unitType: Word, prefix: Bytes, now: Now, moves: seq<Move>,
                       table: NudgeTable)
    requires |prefix| <= 15 && start + count < Decimal.Pow10(16 - |prefix|)
    requires StepsSpeed(table)
    ensures var w := World(NewFleet(count, start, unitType, prefix, now), true);
            Devices(RunExchanges(w, StepsOf(moves), table).world.fleet, SimIds(count, start, prefix), unitType)
  {
    hide Devices, SafeSteps, StepsSpeed, Decimal.Pow10;
    NewFleetIsDevices(count, start, unitType, prefix, now);
    CommandsMakeSafeSteps(moves);
    var w := World(NewFleet(count, start, unitType, prefix, now), true);
    RunKeepsDevices(w, StepsOf(moves), SimIds(count, start, prefix), unitType, table);
  }

  /** And a discovery then finds each of them exactly once, in order, under the id and type it was built with. */
  lemma FleetStaysDiscoverable(count: nat, start: nat, unitType: Word, prefix: Bytes, now: Now, moves: seq<Move>,
                               later: Now, table: NudgeTable)
    requires |prefix| <= 15 && start + count < Decimal.Pow10(16 - |prefix|)
    requires StepsSpeed(table)
    ensures DiscoveryPacket().Ok?
    ensures var w := World(NewFleet(count, start, unitType, prefix, now), true);
            var fleet := RunExchanges(w, StepsOf(moves), table).world.fleet;
            var found := Discovered(Dispatch(fleet, DiscoveryPacket().value, later, table).replies);
            && found.Ok? && |found.value| == count
            && forall k :: 0 <= k < count ==>
                 found.value[k] == Device(TextOf(Decimal.MakeSimId(start + k, prefix)), unitType)
  {
    var w := World(NewFleet(count, start, unitType, prefix, now), true);
    var fleet, ids := RunExchanges(w, StepsOf(moves), table).world.fleet, SimIds(count, start, prefix);
    hide IsDevice, RunExchanges, Dispatch, Discovered, DiscoveryPacket, Reachable, WellHeld, Safe, StepsSpeed;
    hide Description, Decimal.Pow10, Decimal.MakeSimId;
    FleetStaysSafe(count, start, unitType, prefix, now, moves, table);
    forall k | 0 <= k < count
      ensures Safe(fleet[k]) && WellHeld(fleet[k].state) && Description(fleet[k]) == Device(TextOf(ids[k]), unitType)
    {
      DeviceDescribed(fleet[k], ids[k], unitType);
    }
    DiscoveryFindsEveryFan(fleet, later, table);
  }

  lemma DeviceDescribed(f: Fan, id: Bytes, unitType: Word)
    requires IsDevice(f, id, unitType)
    ensures Safe(f) && WellHeld(f.state) && Description(f) == Device(TextOf(id), unitType)
  {
    SafeIsWellHeld(f);
    TypeBytes(unitType);
    hide Safe, WellHeld, ToBytes;
  }

  /** Status lines never end the loop of a simulator whose fans are safe; only a tick can. */
  lemma SafeStatusGoesOn(w: World, turn: Turn)
    requires forall k :: 0 <= k < |w.fleet| ==> Safe(w.fleet[k])
    ensures Round(w, turn).alive == TickRound(w, turn.draws).alive
  {
    var ticksOnly := Turn(turn.draws, false);
    var v := Round(w, ticksOnly);
    assert v == TickRound(w, turn.draws);
    hide Safe, PrintsStatus, TickRound;
    forall k | 0 <= k < |v.fleet|
      ensures PrintsStatus(v.fleet[k])
    {
      RoundKeepsSafe(w, ticksOnly, k);
      SafePrintsStatus(v.fleet[k]);
    }
  }
}
