/**
 * The client's operations, once through frames and once directly on the fan they name.
 *
 * The network is a function application: a request reaches the simulator at once, and a missing reply is
 * the client's connection error.
 */
module Client {
  import opened Basics
  import opened Params
  import opened Section
  import opened Decoders
  import opened SectionLaws
  import opened FanSpec
  import opened Fleet
  import opened MainLoop
  import opened Writes
  import Decimal
  import Frame

  datatype Client = Client(id: Bytes, pwd: Bytes)

  datatype Op =
    | Read(params: seq<Code>)
    | Write(writes: seq<Entry>)
    | WriteResp(writes: seq<Entry>)
    | Increment(params: seq<Code>)
    | Decrement(params: seq<Code>)

  /** The client's types admit only known parameters. */
  ghost predicate WellTyped(op: Op) {
    if op.Write? || op.WriteResp? then forall e :: e in op.writes ==> IsParam(e.code)
    else forall p :: p in op.params ==> IsParam(p)
  }

  function RequestFunc(op: Op): byte {
    match op
    case Read(_) => Frame.READ
    case Write(_) => Frame.WRITE
    case WriteResp(_) => Frame.WRITE_RESP
    case Increment(_) => Frame.INCREMENT
    case Decrement(_) => Frame.DECREMENT
  }

  function RequestData(op: Op): Bytes {
    if op.Write? || op.WriteResp? then EncodeItems(0, Vals(op.writes)) else EncodeReads(0, op.params)
  }

  /** What the client makes of the first reply it receives. */
  function Received(replies: seq<Bytes>): Result<map<Code, Bytes>> {
    if replies == [] then Err(Connection)
    else
      var data :- Frame.ResponseSection(replies[0]);
      ParsedData(data)
  }

  datatype Exchanged = Exchanged(fleet: seq<Fan>, result: Result<map<Code, Bytes>>)

  /** An operation through frames: build, dispatch, handle and, unless it is a plain write, parse the reply. */
  function Exchange(c: Client, op: Op, fleet: seq<Fan>, now: Now, table: NudgeTable): Exchanged {
    var request := Frame.Framed(c.id, c.pwd, RequestFunc(op), RequestData(op));
    if request.Err? then Exchanged(fleet, Err(request.error))
    else
      var d := Dispatch(fleet, request.value, now, table);
      Exchanged(d.fleet, if op.Write? then Ok(map[]) else Received(d.replies))
  }

  // ---------------------------------------------------------------------------
  // The same operations without a wire
  // ---------------------------------------------------------------------------

  /** Writing a list of parameters: last value per parameter, in the order of first mention. */
  function DirectWrite(f: Fan, ws: seq<Entry>, now: Now): Run {
    if HasCode(ws, FACTORY_RESET) then Run(NewFan(f.index, f.id, f.unitType, now), true)
    else
      var d := DictOf(ws);
      var eff := Effective(f.state, d);
      Run(After(f, eff), |eff| == |d|)
  }

  /** What a fan tells when asked for `codes`; more than one packet of it is never sent. */
  function Told(r: Run, codes: seq<Code>): Result<map<Code, Bytes>> {
    if !r.ok || !Frame.Fits(|SIM_PASSWORD|, |EncodeItems(0, Answers(codes, r.fan.state))|) then Err(Connection)
    else DirectRead(codes, r.fan.state)
  }

  predicate Sendable(c: Client, op: Op) {
    Frame.ValidCredentials(c.id, c.pwd) && Frame.Fits(|c.pwd|, |RequestData(op)|)
  }

  datatype Outcome = Outcome(fan: Fan, result: Result<map<Code, Bytes>>)

  function Direct(c: Client, op: Op, f: Fan, now: Now, table: NudgeTable): Outcome {
    if !Sendable(c, op) then Outcome(f, Err(Protocol))
    else match op
      case Read(ps) => Outcome(f, Told(Run(f, true), ps))
      case Write(ws) => Outcome(DirectWrite(f, ws, now).fan, Ok(map[]))
      case WriteResp(ws) => var r := DirectWrite(f, ws, now); Outcome(r.fan, Told(r, CodesOf(DictOf(ws))))
      case Increment(ps) => var r := NudgeAll(f, ps, 1, table); Outcome(r.fan, Told(r, ps))
      case Decrement(ps) => var r := NudgeAll(f, ps, -1, table); Outcome(r.fan, Told(r, ps))
  }

  // ---------------------------------------------------------------------------
  // Refinement
  // ---------------------------------------------------------------------------

  /** A fleet as the simulator builds it: 16-byte ids, all different, none the discovery id. */
  ghost predicate Reachable(fleet: seq<Fan>) {
    && DistinctIds(fleet)
    && forall k :: 0 <= k < |fleet| ==>
         SoundFan(fleet[k]) && |fleet[k].id| == 16 && fleet[k].id != Decimal.DEFAULT_DEVICE_ID
  }

  lemma NewIdsDistinct(count: nat, start: nat, unitType: Word, prefix: Bytes, now: Now)
    requires |prefix| <= 15
    ensures DistinctIds(NewFleet(count, start, unitType, prefix, now))
  {
    var fleet := NewFleet(count, start, unitType, prefix, now);
    hide NewFan, Decimal.MakeSimId, NewFleet;
    forall i, j | 0 <= i < j < count
      ensures fleet[i].id != fleet[j].id
    {
      NewFanIs(start + i, Decimal.MakeSimId(start + i, prefix), unitType, now);
      NewFanIs(start + j, Decimal.MakeSimId(start + j, prefix), unitType, now);
      Decimal.SimIdsDistinct(start + i, start + j, prefix);
    }
  }

  lemma FittingFleetIsReachable(count: nat, start: nat, unitType: Word, prefix: Bytes, now: Now)
    requires |prefix| <= 15 && start + count < Decimal.Pow10(16 - |prefix|)
    ensures Reachable(NewFleet(count, start, unitType, prefix, now))
  {
    var fleet := NewFleet(count, start, unitType, prefix, now);
    NewIdsDistinct(count, start, unitType, prefix, now);
    hide NewFan, Decimal.MakeSimId, Decimal.Pow10, SoundFan, NewFleet, DistinctIds;
    forall k | 0 <= k < count
      ensures SoundFan(fleet[k]) && |fleet[k].id| == 16 && fleet[k].id != Decimal.DEFAULT_DEVICE_ID
    {
      NewSimFan(start + k, unitType, prefix, now);
    }
  }

  lemma LargeFleetIsNotReachable(count: nat, start: nat, unitType: Word, prefix: Bytes, now: Now)
    requires |prefix| <= 15 && start + count >= Decimal.Pow10(16 - |prefix|) && count > 0
    ensures !Reachable(NewFleet(count, start, unitType, prefix, now))
  {
    hide NewFan, Decimal.MakeSimId, Decimal.Pow10, SoundFan, NewFleet, DistinctIds;
    var fleet := NewFleet(count, start, unitType, prefix, now);
    NewSimFan(start + count - 1, unitType, prefix, now);
    assert |fleet[count - 1].id| != 16;
  }

  lemma EmptyFleetIsReachable(fleet: seq<Fan>)
    requires fleet == []
    ensures Reachable(fleet)
  {
  }

  /** The fleet a simulator is built with can be reached exactly while its largest number fits the 16 bytes of an id. */
  lemma NewFleetIsReachable(count: nat, start: nat, unitType: Word, prefix: Bytes, now: Now)
    requires |prefix| <= 15
    ensures Reachable(NewFleet(count, start, unitType, prefix, now))
       <==> (count == 0 || start + count < Decimal.Pow10(16 - |prefix|))
  {
    hide Decimal.Pow10, Reachable, NewFleet;
    if count == 0 {
      EmptyFleetIsReachable(NewFleet(count, start, unitType, prefix, now));
    } else if start + count < Decimal.Pow10(16 - |prefix|) {
      FittingFleetIsReachable(count, start, unitType, prefix, now);
    } else {
      LargeFleetIsNotReachable(count, start, unitType, prefix, now);
    }
  }

  lemma NewSimFan(index: nat, unitType: Word, prefix: Bytes, now: Now)
    requires |prefix| <= 15
    ensures var id := Decimal.MakeSimId(index, prefix); var f := NewFan(index, id, unitType, now);
            && f.id == id && id != Decimal.DEFAULT_DEVICE_ID
            && (|id| == 16 <==> index + 1 < Decimal.Pow10(16 - |prefix|))
            && (|id| == 16 ==> SoundFan(f))
  {
    var id := Decimal.MakeSimId(index, prefix);
    NewFanIs(index, id, unitType, now);
    hide NewFan, Decimal.MakeSimId, Decimal.Pow10, SoundFan;
    Decimal.SimIdShape(index, prefix);
    if |id| == 16 {
      InitialIsSound(index, id, unitType, now);
    }
  }

  lemma SoundIsPlain(state: map<Code, Bytes>)
    requires Sound(state)
    ensures PlainState(state)
  {
  }

  /** A fan's reply, when there is one, tells the client exactly what it would read off the fan directly. */
  lemma ReplyTellsState(f: Fan, codes: seq<Code>)
    requires SoundFan(f) && |f.id| == 16
    ensures Received(Replies(Respond(f, codes))) == Told(Run(f, true), codes)
  {
    SoundIsPlain(f.state);
    ResponseRoundTrip(codes, f.state);
    var section := EncodeItems(0, Answers(codes, f.state));
    hide Sound, EncodeItems, Answers, ParsedData, DirectRead;
    assert Frame.ValidCredentials(f.id, SIM_PASSWORD);
    if Respond(f, codes).Some? {
      Frame.ResponseSectionOfFramed(f.id, SIM_PASSWORD, Frame.RESPONSE, section);
    }
  }

  /** Whatever a fan answers is a valid packet in its own name that carries the response function. */
  lemma ReplyIsAddressed(f: Fan, codes: seq<Code>)
    requires Respond(f, codes).Some?
    ensures var raw := Respond(f, codes).value;
            && Frame.ChecksumMatches(raw)
            && Frame.ParseHeader(raw) == Ok(Frame.Header(f.id, SIM_PASSWORD, Frame.RESPONSE, 22 + |SIM_PASSWORD|))
  {
    Frame.FrameRoundTrip(f.id, SIM_PASSWORD, Frame.RESPONSE, EncodeItems(0, Answers(codes, f.state)));
    hide Frame.ChecksumMatches, Frame.ParseHeader, EncodeItems, Answers;
  }

  lemma {:induction false} EncodedAtLeast(page: byte, es: seq<Entry>)
    ensures forall e :: e in es ==> |e.value| <= |EncodeItems(page, Vals(es))|
    decreases |es|
  {
    if es != [] {
      assert Vals(es)[1..] == Vals(es[1..]);
      EncodedAtLeast(Page(es[0].code), es[1..]);
      assert es == [es[0]] + es[1..];
    }
  }

  /** No size byte of a packet that can be built is a truncated length. */
  lemma BuiltWritesKeepSizes(id: Bytes, pwd: Bytes, func: byte, es: seq<Entry>)
    requires Frame.Framed(id, pwd, func, EncodeItems(0, Vals(es))).Ok?
    ensures forall e :: e in es ==> |e.value| % 256 == |e.value|
  {
    hide EncodeItems, Frame.Payload, Frame.ChecksumOf, Vals;
    EncodedAtLeast(0, es);
  }

  /** A sendable request decodes on the fan's side to the parameters it was built from. */
  lemma RequestDecodes(c: Client, op: Op)
    requires WellTyped(op) && Sendable(c, op)
    ensures op.Write? || op.WriteResp? ==> WriteWalk(0, RequestData(op)) == op.writes
    ensures !op.Write? && !op.WriteResp? ==> ReadWalk(0, RequestData(op)) == op.params
  {
    if op.Write? || op.WriteResp? {
      EncodedAtLeast(0, op.writes);
      hide EncodeItems, WriteWalk, IsParam;
      forall e | e in op.writes
        ensures Plain(e)
      {
        ParamAddrIsPlain(e.code);
      }
      WriteWalkEncoded(0, op.writes);
    } else {
      hide EncodeReads, ReadWalk, IsParam;
      forall i | 0 <= i < |op.params|
        ensures Addr(op.params[i]) < CMD_FUNC
      {
        ParamAddrIsPlain(op.params[i]);
      }
      ReadRoundTrip(0, op.params);
    }
  }

  lemma DirectWriteIsApplied(f: Fan, ws: seq<Entry>, now: Now)
    ensures DirectWrite(f, ws, now) == ApplyWrites(f, DictOf(ws), now)
  {
    hide NewFan, After, Effective, WriteAll;
    DictIsLastWins(ws);
    LastWinsMem(ws, FACTORY_RESET);
    LastWinsMem(DictOf(ws), FACTORY_RESET);
    WriteAllIsPointwise(f, DictOf(ws));
  }

  /** The fan's handler does to a sendable request what the direct operation does. */
  lemma HandleIsDirect(c: Client, op: Op, f: Fan, now: Now, table: NudgeTable)
    requires WellTyped(op) && Sendable(c, op)
    requires SoundFan(f) && |f.id| == 16 && SaneTable(table)
    ensures var h := Handle(f, RequestFunc(op), RequestData(op), now, table);
            && SoundFan(h.fan) && h.fan.id == f.id
            && Outcome(h.fan, if op.Write? then Ok(map[]) else Received(Replies(h.reply)))
               == Direct(c, op, f, now, table)
  {
    var data := RequestData(op);
    RequestDecodes(c, op);
    HandleKeepsSound(f, RequestFunc(op), data, now, table);
    HandleKeepsId(f, RequestFunc(op), data, now, table);
    hide Sound, RequestData, ReadWalk, WriteWalk, DictOf, NudgeAll, ApplyWrites, DirectWrite, Respond, Told, Received;
    match op {
      case Read(ps) => ReplyTellsState(f, ps);
      case Write(ws) => DirectWriteIsApplied(f, ws, now);
      case WriteResp(ws) =>
        DirectWriteIsApplied(f, ws, now);
        AnsweredTells(ApplyWrites(f, DictOf(ws), now), CodesOf(DictOf(ws)));
      case Increment(ps) => AnsweredTells(NudgeAll(f, ps, 1, table), ps);
      case Decrement(ps) => AnsweredTells(NudgeAll(f, ps, -1, table), ps);
    }
  }

  lemma AnsweredTells(r: Run, codes: seq<Code>)
    requires SoundFan(r.fan) && |r.fan.id| == 16
    ensures Received(Replies(Answered(r, codes).reply)) == Told(r, codes)
  {
    ReplyTellsState(r.fan, codes);
  }

  lemma LookupFinds(fleet: seq<Fan>, k: nat)
    requires k < |fleet| && DistinctIds(fleet)
    ensures Lookup(fleet, fleet[k].id) == Some(k)
  {
  }

  /**
   * One operation through frames has the result of the direct operation on the fan it names, changes that
   * fan as the direct operation does, and changes no other.
   */
  lemma ExchangeRefinesDirect(c: Client, op: Op, fleet: seq<Fan>, k: nat, now: Now, table: NudgeTable)
    requires Reachable(fleet) && k < |fleet| && c.id == fleet[k].id
    requires WellTyped(op) && SaneTable(table)
    ensures var d := Direct(c, op, fleet[k], now, table);
            && Exchange(c, op, fleet, now, table) == Exchanged(fleet[k := d.fan], d.result)
            && Reachable(fleet[k := d.fan])
  {
    var data := RequestData(op);
    hide Sound, RequestData, Handle, Direct, Received;
    if Sendable(c, op) {
      var raw := Frame.Framed(c.id, c.pwd, RequestFunc(op), data).value;
      FramedReaches(c, RequestFunc(op), data, fleet, k, now, table);
      HandleIsDirect(c, op, fleet[k], now, table);
    } else {
      NotSendable(c, op, fleet[k], now, table);
      assert fleet[k := fleet[k]] == fleet;
    }
  }

  lemma NotSendable(c: Client, op: Op, f: Fan, now: Now, table: NudgeTable)
    requires !Sendable(c, op)
    ensures Direct(c, op, f, now, table) == Outcome(f, Err(Protocol))
    ensures Frame.Framed(c.id, c.pwd, RequestFunc(op), RequestData(op)) == Err(Protocol)
  {
  }

  lemma FramedReaches(c: Client, func: byte, data: Bytes, fleet: seq<Fan>, k: nat, now: Now, table: NudgeTable)
    requires Frame.ValidCredentials(c.id, c.pwd) && Frame.Fits(|c.pwd|, |data|)
    requires DistinctIds(fleet) && k < |fleet| && c.id == fleet[k].id && c.id != Decimal.DEFAULT_DEVICE_ID
    ensures Frame.Framed(c.id, c.pwd, func, data).Ok?
    ensures var r := Handle(fleet[k], func, data, now, table);
            Dispatched(fleet[k := r.fan], Replies(r.reply))
            == Dispatch(fleet, Frame.Framed(c.id, c.pwd, func, data).value, now, table)
  {
    var raw := Frame.Framed(c.id, c.pwd, func, data).value;
    Frame.FrameRoundTrip(c.id, c.pwd, func, data);
    LookupFinds(fleet, k);
    hide Handle, Frame.ParseHeader, Frame.ChecksumMatches;
    assert DataAfter(raw, 22 + |c.pwd|) == data;
  }

  /** An operation of a client that names no fan is lost: plain writes succeed, everything else times out. */
  lemma ExchangeWithNobody(c: Client, op: Op, fleet: seq<Fan>, now: Now, table: NudgeTable)
    requires Lookup(fleet, c.id).None? && c.id != Decimal.DEFAULT_DEVICE_ID
    ensures Exchange(c, op, fleet, now, table)
         == Exchanged(fleet, if !Sendable(c, op) then Err(Protocol)
                             else if op.Write? then Ok(map[]) else Err(Connection))
  {
    var data := RequestData(op);
    hide RequestData, Handle, Frame.ParseHeader, Frame.ChecksumMatches;
    if Sendable(c, op) {
      Frame.FrameRoundTrip(c.id, c.pwd, RequestFunc(op), data);
    }
  }

  /** Under the discovery id every operation is a discovery, whatever it would do to a fan: none changes. */
  lemma ExchangeAsDiscovery(c: Client, op: Op, fleet: seq<Fan>, now: Now, table: NudgeTable)
    requires c.id == Decimal.DEFAULT_DEVICE_ID
    ensures Exchange(c, op, fleet, now, table).fleet == fleet
  {
    var data := RequestData(op);
    hide RequestData, Handle, DiscoveryReplies, Frame.ParseHeader, Frame.ChecksumMatches;
    if Sendable(c, op) {
      Frame.FrameRoundTrip(c.id, c.pwd, RequestFunc(op), data);
    }
  }

  // ---------------------------------------------------------------------------
  // Whole runs
  // ---------------------------------------------------------------------------

  /** One step of a run: some client's operation at some time, or a pass of the simulator's main loop. */
  datatype Step =
    | Operation(client: Client, op: Op, now: Now)
    | Pass(turn: Turn)

  datatype Trace = Trace(world: World, results: seq<Result<map<Code, Bytes>>>)

  /** An operation through frames; once the main loop has ended nobody answers. */
  function Sent(c: Client, op: Op, w: World, now: Now, table: NudgeTable): Exchanged {
    if w.alive then Exchange(c, op, w.fleet, now, table)
    else Exchanged(w.fleet, Exchange(c, op, [], now, table).result)
  }

  function RunExchanges(w: World, steps: seq<Step>, table: NudgeTable): Trace
    decreases |steps|
  {
    if steps == [] then Trace(w, [])
    else match steps[0]
      case Pass(turn) => RunExchanges(Round(w, turn), steps[1..], table)
      case Operation(c, op, now) =>
        var e := Sent(c, op, w, now, table);
        var rest := RunExchanges(World(e.fleet, w.alive), steps[1..], table);
        Trace(rest.world, [e.result] + rest.results)
  }

  /** What a client learns from an operation nobody carries out. */
  function Unanswered(c: Client, op: Op): Result<map<Code, Bytes>> {
    if !Sendable(c, op) then Err(Protocol) else if op.Write? then Ok(map[]) else Err(Connection)
  }

  function DirectStep(c: Client, op: Op, w: World, now: Now, table: NudgeTable): Exchanged {
    var k := Lookup(w.fleet, c.id);
    if !w.alive || k.None? then Exchanged(w.fleet, Unanswered(c, op))
    else
      var d := Direct(c, op, w.fleet[k.value], now, table);
      Exchanged(w.fleet[k.value := d.fan], d.result)
  }

  function RunDirect(w: World, steps: seq<Step>, table: NudgeTable): Trace
    decreases |steps|
  {
    if steps == [] then Trace(w, [])
    else match steps[0]
      case Pass(turn) => RunDirect(Round(w, turn), steps[1..], table)
      case Operation(c, op, now) =>
        var e := DirectStep(c, op, w, now, table);
        var rest := RunDirect(World(e.fleet, w.alive), steps[1..], table);
        Trace(rest.world, [e.result] + rest.results)
  }

  /** A step of a client whose types hold and that does not pose as a discovery. */
  ghost predicate ProperStep(s: Step) {
    s.Operation? ==> WellTyped(s.op) && s.client.id != Decimal.DEFAULT_DEVICE_ID
  }

  ghost predicate AllProper(steps: seq<Step>) { forall i :: 0 <= i < |steps| ==> ProperStep(steps[i]) }

  lemma RoundKeepsReachable(w: World, turn: Turn)
    requires Reachable(w.fleet)
    ensures Reachable(Round(w, turn).fleet)
  {
    hide Round, SoundFan;
    RoundKeepsSound(w, turn);
    var after := Round(w, turn).fleet;
    forall k | 0 <= k < |after|
      ensures after[k].id == w.fleet[k].id
    {
      RoundTouches(w, turn, k);
    }
  }

  /** One operation of a run through frames is the direct step. */
  lemma SentIsDirectStep(c: Client, op: Op, w: World, now: Now, table: NudgeTable)
    requires Reachable(w.fleet) && SaneTable(table) && WellTyped(op) && c.id != Decimal.DEFAULT_DEVICE_ID
    ensures Sent(c, op, w, now, table) == DirectStep(c, op, w, now, table)
    ensures Reachable(Sent(c, op, w, now, table).fleet)
  {
    var k := Lookup(w.fleet, c.id);
    hide Exchange, Direct, Sendable, Reachable, WellTyped;
    if !w.alive {
      ExchangeWithNobody(c, op, [], now, table);
    } else if k.None? {
      ExchangeWithNobody(c, op, w.fleet, now, table);
    } else {
      ExchangeRefinesDirect(c, op, w.fleet, k.value, now, table);
    }
  }

  /**
   * Every run of reads, writes, writes with response and nudges, by any clients on any fleet, with passes
   * of the simulator's loop anywhere between them, gives the same fans and the same results through frames as
   * applied directly to the fans.
   */
  lemma {:induction false} RunRefinesDirect(w: World, steps: seq<Step>, table: NudgeTable)
    requires Reachable(w.fleet) && SaneTable(table) && AllProper(steps)
    ensures RunExchanges(w, steps, table) == RunDirect(w, steps, table)
    ensures Reachable(RunExchanges(w, steps, table).world.fleet)
    decreases |steps|
  {
    if steps != [] {
      assert ProperStep(steps[0]) && AllProper(steps[1..]);
      hide Sent, DirectStep, Round, Reachable, WellTyped, AllProper;
      match steps[0] {
        case Pass(turn) =>
          RoundKeepsReachable(w, turn);
          RunRefinesDirect(Round(w, turn), steps[1..], table);
        case Operation(c, op, now) =>
          SentIsDirectStep(c, op, w, now, table);
          RunRefinesDirect(World(Sent(c, op, w, now, table).fleet, w.alive), steps[1..], table);
      }
    }
  }

  /**
   * One write of a power value without bytes ends the whole simulator: the next tick raises, whatever is
   * drawn, and no fan answers from then on.
   */
  lemma EmptyPowerEndsSimulator(c: Client, fleet: seq<Fan>, k: nat, now: Now, table: NudgeTable, turn: Turn)
    requires Reachable(fleet) && k < |fleet| && c.id == fleet[k].id && Frame.ValidCredentials(c.id, c.pwd)
    requires SaneTable(table) && k < |turn.draws|
    ensures var e := Exchange(c, Write([Entry(POWER, [])]), fleet, now, table);
            e.result == Ok(map[]) && !Round(World(e.fleet, true), turn).alive
  {
    EmptyWrite(c, fleet, k, POWER, now, table);
    var after := Exchange(c, Write([Entry(POWER, [])]), fleet, now, table).fleet;
    hide Tick, Round, Exchange;
    TickRaisesExactly(after[k], turn.draws[k]);
    RaiseEndsLoop(World(after, true), turn, k);
  }

  /**
   * A write of an operation mode without bytes ends it too, though no tick ever looks at the mode: the next
   * status line cannot be printed.
   */
  lemma EmptyModeEndsSimulator(c: Client, fleet: seq<Fan>, k: nat, now: Now, table: NudgeTable, turn: Turn)
    requires Reachable(fleet) && k < |fleet| && c.id == fleet[k].id && Frame.ValidCredentials(c.id, c.pwd)
    requires SaneTable(table) && turn.status
    ensures var e := Exchange(c, Write([Entry(OPERATION_MODE, [])]), fleet, now, table);
            e.result == Ok(map[]) && !Round(World(e.fleet, true), turn).alive
  {
    EmptyWrite(c, fleet, k, OPERATION_MODE, now, table);
    var w := World(Exchange(c, Write([Entry(OPERATION_MODE, [])]), fleet, now, table).fleet, true);
    assert !TickWrites(OPERATION_MODE);
    hide Round, Exchange, TickWrites;
    RoundTouches(w, turn, k);
    NoStatusEndsLoop(w, turn, k);
  }

  /** A write of a value without bytes is accepted and stored. */
  lemma EmptyWrite(c: Client, fleet: seq<Fan>, k: nat, p: Code, now: Now, table: NudgeTable)
    requires Reachable(fleet) && k < |fleet| && c.id == fleet[k].id && Frame.ValidCredentials(c.id, c.pwd)
    requires SaneTable(table) && (p == POWER || p == OPERATION_MODE)
    ensures var e := Exchange(c, Write([Entry(p, [])]), fleet, now, table);
            e.result == Ok(map[]) && |e.fleet| == |fleet| && !HasByte(e.fleet[k], p)
  {
    var op := Write([Entry(p, [])]);
    var d := Direct(c, op, fleet[k], now, table);
    EmptyIsSendable(c, op, p);
    EmptyIsHeld(fleet[k], p, now);
    assert d.result == Ok(map[]) && d.fan == DirectWrite(fleet[k], op.writes, now).fan;
    assert WellTyped(op);
    hide Exchange, Direct, DirectWrite, Reachable, Sendable;
    ExchangeRefinesDirect(c, op, fleet, k, now, table);
  }

  lemma EmptyIsSendable(c: Client, op: Op, p: Code)
    requires op == Write([Entry(p, [])]) && Page(p) == 0 && Frame.ValidCredentials(c.id, c.pwd)
    ensures Sendable(c, op)
  {
    var v := Val(op.writes[0]);
    assert Vals(op.writes) == [v] && [v][1..] == [];
    assert |EncodeItems(0, [v])| == |PageSwitch(0, p) + Body(v)| == 3;
  }

  lemma EmptyIsHeld(f: Fan, p: Code, now: Now)
    requires p == POWER || p == OPERATION_MODE
    ensures !HasByte(DirectWrite(f, [Entry(p, [])], now).fan, p)
  {
    var ws := [Entry(p, [])];
    DictOfDistinct(ws);
    AllEffective(f.state, ws);
    LastDeciderMem(ws, p);
    hide LastDecider, Effective, DictOf;
    assert ws[0] in ws && Decides(ws[0], p);
  }
}
