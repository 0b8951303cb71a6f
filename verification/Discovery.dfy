/** Discovering a fleet: the client's packet, the fans' answers, and what the client makes of them. */
module Discovery {
  import opened Basics
  import opened Params
  import opened Section
  import opened SectionLaws
  import opened Decoders
  import opened FanSpec
  import opened Fleet
  import opened MainLoop
  import opened Writes
  import opened Client
  import opened Commands
  import opened Polling
  import opened Simulator
  import opened States
  import Decimal
  import Frame

  const DISCOVERED: seq<Param> := [DEVICE_SEARCH, UNIT_TYPE]

  datatype Device = Device(id: string, unitType: nat)

  /** What one answer tells; a device type of more than eight bytes overflows its shift. */
  function DeviceIn(raw: map<Code, Bytes>): Result<Device> {
    if UNIT_TYPE in raw && |raw[UNIT_TYPE]| > 8 then Err(Crash)
    else Ok(Device(TextField(raw, DEVICE_SEARCH), OrElse(WordField(raw, UNIT_TYPE), 0)))
  }

  /** The devices told by a list of answers; an answer that does not parse is skipped. */
  function Discovered(replies: seq<Bytes>): Result<seq<Device>> {
    if replies == [] then Ok([])
    else
      var n := |replies| - 1;
      var front :- Discovered(replies[..n]);
      var answer := Received([replies[n]]);
      if answer.Ok? then
        var d :- DeviceIn(answer.value);
        Ok(front + [d])
      else if answer.error.Crash? then Err(Crash)
      else Ok(front)
  }

  /** The client's discovery packet. */
  function DiscoveryPacket(): Result<Bytes> {
    Frame.Framed(Decimal.DEFAULT_DEVICE_ID, [], Frame.READ, EncodeReads(0, DISCOVERED))
  }

  lemma PacketIsValid()
    ensures DiscoveryPacket().Ok?
  {
    ReadsSize(0, DISCOVERED);
    assert Frame.ValidCredentials(Decimal.DEFAULT_DEVICE_ID, []);
    hide EncodeReads;
  }

  /** The packet reaches every fan as a request for its id and type, and changes none. */
  lemma PacketIsDiscovery(fleet: seq<Fan>, now: Now, table: NudgeTable)
    ensures DiscoveryPacket().Ok?
    ensures Dispatch(fleet, DiscoveryPacket().value, now, table)
         == Dispatched(fleet, DiscoveryReplies(fleet, DISCOVERED))
  {
    var data := EncodeReads(0, DISCOVERED);
    PacketIsValid();
    Frame.FrameRoundTrip(Decimal.DEFAULT_DEVICE_ID, [], Frame.READ, data);
    ReadRoundTrip(0, DISCOVERED);
    hide Frame.Framed, Frame.ParseHeader, Frame.ChecksumMatches, EncodeReads, ReadWalk, DiscoveryReplies, Handle;
  }

  /** What one answer contributes: its device, nothing when it does not parse, or the crash of its decoding. */
  lemma OneAnswer(reply: Bytes)
    ensures var answer := Received([reply]);
            Discovered([reply])
            == if answer.Ok? then
                 (if UNIT_TYPE in answer.value && |answer.value[UNIT_TYPE]| > 8 then Err(Crash)
                  else Ok([Device(if DEVICE_SEARCH in answer.value then TextOf(answer.value[DEVICE_SEARCH]) else "",
                                  if UNIT_TYPE in answer.value then FromBytes(answer.value[UNIT_TYPE]) % 0x10000
                                  else 0)]))
               else if answer.error.Crash? then Err(Crash) else Ok([])
  {
    assert [reply][..0] == [] && [[reply][0]] == [reply];
    assert Discovered([]) == Ok([]);
    hide Received, FromBytes;
    assert forall d: Device :: [] + [d] == [d];
  }

  /** Answers contribute one after the other, in the order they came. */
  lemma {:induction false} AnswersInOrder(a: seq<Bytes>, b: seq<Bytes>)
    ensures Discovered(a + b).Ok? <==> Discovered(a).Ok? && Discovered(b).Ok?
    ensures Discovered(a + b).Ok? ==> Discovered(a + b).value == Discovered(a).value + Discovered(b).value
    decreases |b|
  {
    hide Received, DeviceIn;
    if b == [] {
      assert a + b == a;
    } else {
      var n := |b| - 1;
      assert (a + b)[..|a| + n] == a + b[..n];
      AnswersInOrder(a, b[..n]);
    }
  }

  /** Parses the collected answers one by one. */
  method Collect(replies: seq<Bytes>) returns (r: Result<seq<Device>>)
    ensures r == Discovered(replies)
  {
    hide Received, DeviceIn;
    var devices: seq<Device> := [];
    for i := 0 to |replies|
      invariant Discovered(replies[..i]) == Ok(devices)
    {
      AnswerCounts(replies, i);
      var answer := ParseResponse(replies[i]);
      if answer.Ok? {
        var d := DeviceIn(answer.value);
        if d.Err? {
          CrashStays(replies, i + 1);
          return Err(Crash);
        }
        devices := devices + [d.value];
      } else if answer.error.Crash? {
        CrashStays(replies, i + 1);
        return Err(Crash);
      }
    }
    assert replies[..|replies|] == replies;
    return Ok(devices);
  }

  /** The client's search of a simulator's network, taking at most `most` answers. */
  method Discover(sim: VentoFanSim, most: nat, now: Now, table: NudgeTable) returns (r: Result<seq<Device>>)
    requires sim.Valid() && SaneTable(table)
    modifies sim.devices
    ensures sim.Valid() && sim.Values() == old(sim.Values())
    ensures var replies := DiscoveryReplies(old(sim.Values()), DISCOVERED);
            r == Discovered(if |replies| <= most then replies else replies[..most])
  {
    hide Dispatch, EncodeReads, Frame.Framed, Wired, Discovered, DiscoveryReplies;
    PacketIsDiscovery(sim.Values(), now, table);
    var data := BuildReadData(DISCOVERED);
    var request := Frame.BuildPacket(Decimal.DEFAULT_DEVICE_ID, [], Frame.READ, data);
    var replies := sim.Dispatch(request.value, now, table);
    if |replies| > most {
      replies := replies[..most];
    }
    r := Collect(replies);
  }

  lemma AnswerCounts(replies: seq<Bytes>, i: nat)
    requires i < |replies| && Discovered(replies[..i]).Ok?
    ensures var answer := Received([replies[i]]);
            Discovered(replies[..i + 1])
            == if answer.Err? then (if answer.error.Crash? then Err(Crash) else Discovered(replies[..i]))
               else if DeviceIn(answer.value).Err? then Err(Crash)
               else Ok(Discovered(replies[..i]).value + [DeviceIn(answer.value).value])
  {
    hide Received;
    assert replies[..i + 1][..i] == replies[..i];
  }

  /** An answer that ends the search ends it whatever follows. */
  lemma {:induction false} CrashStays(replies: seq<Bytes>, k: nat)
    requires k <= |replies| && Discovered(replies[..k]).Err?
    ensures Discovered(replies) == Err(Crash)
    decreases |replies|
  {
    hide Received, DeviceIn;
    var n := |replies| - 1;
    if k == |replies| {
      assert replies[..k] == replies;
      OnlyCrashes(replies);
    } else {
      assert replies[..n][..k] == replies[..k];
      CrashStays(replies[..n], k);
    }
  }

  lemma {:induction false} OnlyCrashes(replies: seq<Bytes>)
    ensures Discovered(replies).Err? ==> Discovered(replies) == Err(Crash)
    decreases |replies|
  {
    hide Received;
    if replies != [] {
      OnlyCrashes(replies[..|replies| - 1]);
    }
  }

  // ---------------------------------------------------------------------------
  // Safe fans are all found
  // ---------------------------------------------------------------------------

  /** What discovery tells of a fan that holds its id and type. */
  ghost function Description(f: Fan): Device
    requires WellHeld(f.state)
  {
    Device(TheText(f.state, DEVICE_SEARCH), TheWord(f.state, UNIT_TYPE))
  }

  lemma DiscoveredAreHeld(f: Fan)
    requires Safe(f)
    ensures WellHeld(f.state) && |f.state[DEVICE_SEARCH]| == 16 && |f.state[UNIT_TYPE]| == 2
    ensures Unheld(DISCOVERED, f.state) == []
  {
    SafeIsWellHeld(f);
    assert Held(DEVICE_SEARCH) && Held(UNIT_TYPE);
    UnheldIsEmpty(DISCOVERED, f.state);
  }

  /** The answer of a safe fan always fits: 24 bytes of data. */
  lemma SafeAnswerFits(f: Fan)
    requires Safe(f)
    ensures AnswerFits(f, DISCOVERED)
  {
    DiscoveredAreHeld(f);
    hide Safe, EncodeItems, Answers, WellHeld;
    var g: seq<Code> := DISCOVERED;
    AnswersFrom(g, 0, 0, f.state);
    AnswersFrom(g, 1, 0, f.state);
    NothingAnswered(0, f.state);
    assert g[0..] == g && g[2..] == [];
  }

  lemma HeldTellsDevice(f: Fan)
    requires Safe(f)
    ensures WellHeld(f.state) && DeviceIn(Restricted(DISCOVERED, f.state)) == Ok(Description(f))
  {
    DiscoveredAreHeld(f);
    var raw := Restricted(DISCOVERED, f.state);
    assert DISCOVERED[0] == DEVICE_SEARCH && DISCOVERED[1] == UNIT_TYPE;
    assert raw[DEVICE_SEARCH] == f.state[DEVICE_SEARCH] && raw[UNIT_TYPE] == f.state[UNIT_TYPE];
    hide Safe, Restricted, DISCOVERED, WellHeld, FromBytes;
    TwoBytesInt(f.state[UNIT_TYPE]);
  }

  /** A safe fan's answer tells its device. */
  lemma SafeAnswerTells(f: Fan)
    requires Safe(f)
    ensures WellHeld(f.state) && Respond(f, DISCOVERED).Some?
    ensures var answer := Received([Respond(f, DISCOVERED).value]);
            answer.Ok? && DeviceIn(answer.value) == Ok(Description(f))
  {
    DiscoveredAreHeld(f);
    SafeAnswerFits(f);
    RespondsExactly(f, DISCOVERED);
    ReplyTellsState(f, DISCOVERED);
    HeldTellsDevice(f);
    hide Respond, Received, EncodeItems, Answers, Safe, Restricted, DISCOVERED, WellHeld, DeviceIn, Description;
    assert Received([Respond(f, DISCOVERED).value]) == Ok(Restricted(DISCOVERED, f.state));
  }

  ghost predicate AllSafeFans(fleet: seq<Fan>) {
    forall k :: 0 <= k < |fleet| ==> Safe(fleet[k]) && WellHeld(fleet[k].state)
  }

  lemma {:induction false} RepliesTell(fleet: seq<Fan>, n: nat)
    requires AllSafeFans(fleet) && n <= |fleet|
    ensures |DiscoveryReplies(fleet, DISCOVERED)| == |fleet|
    ensures var devices := Discovered(DiscoveryReplies(fleet, DISCOVERED)[..n]);
            devices.Ok? && |devices.value| == n && forall k :: 0 <= k < n ==> devices.value[k] == Description(fleet[k])
    decreases n
  {
    hide Safe, WellHeld, DeviceIn, Received, Description, DISCOVERED;
    AllAnswer(fleet);
    var replies := DiscoveryReplies(fleet, DISCOVERED);
    if n > 0 {
      RepliesTell(fleet, n - 1);
      SafeAnswerTells(fleet[n - 1]);
      AnswerCounts(replies, n - 1);
    } else {
      assert replies[..0] == [];
    }
  }

  lemma AllAnswer(fleet: seq<Fan>)
    requires AllSafeFans(fleet)
    ensures var replies := DiscoveryReplies(fleet, DISCOVERED);
            && |replies| == |fleet|
            && forall k :: 0 <= k < |fleet| ==> Some(replies[k]) == Respond(fleet[k], DISCOVERED)
  {
    forall k | 0 <= k < |fleet|
      ensures |fleet[k].id| == 16 && AnswerFits(fleet[k], DISCOVERED)
    {
      SafeAnswerFits(fleet[k]);
      hide AnswerFits;
    }
    hide AnswerFits, Safe, WellHeld, DISCOVERED;
    DiscoveryAnswersOncePerFan(fleet, DISCOVERED);
  }

  /**
   * The client's own discovery of a fleet of safe fans changes no fan and finds each of them exactly once,
   * in fleet order, with the id and type it holds.
   */
  lemma DiscoveryFindsEveryFan(fleet: seq<Fan>, now: Now, table: NudgeTable)
    requires AllSafeFans(fleet)
    ensures DiscoveryPacket().Ok?
    ensures var d := Dispatch(fleet, DiscoveryPacket().value, now, table);
            && d.fleet == fleet
            && var devices := Discovered(d.replies);
               devices.Ok? && |devices.value| == |fleet|
               && forall k :: 0 <= k < |fleet| ==> devices.value[k] == Description(fleet[k])
  {
    PacketIsDiscovery(fleet, now, table);
    RepliesTell(fleet, |fleet|);
    var replies := DiscoveryReplies(fleet, DISCOVERED);
    assert replies[..|fleet|] == replies;
    hide Discovered, Description, Dispatch, DiscoveryReplies, WellHeld, Safe;
  }

  // ---------------------------------------------------------------------------
  // A fan that silences the others
  // ---------------------------------------------------------------------------

  lemma LongAnswer(f: Fan)
    requires WIFI_SSID in f.state && |f.state[WIFI_SSID]| == 225 && DEVICE_SEARCH in f.state
    requires |f.state[DEVICE_SEARCH]| == 16
    ensures !AnswerFits(f, [WIFI_SSID, DEVICE_SEARCH])
  {
    hide EncodeItems, Answers;
    var g: seq<Code> := [WIFI_SSID, DEVICE_SEARCH];
    AnswersFrom(g, 0, 0, f.state);
    AnswersFrom(g, 1, 0, f.state);
    NothingAnswered(0, f.state);
    assert g[0..] == g && g[2..] == [];
  }

  lemma ShortAnswer(f: Fan)
    requires Safe(f) && WIFI_SSID in f.state && |f.state[WIFI_SSID]| <= 200
    ensures AnswerFits(f, [WIFI_SSID, DEVICE_SEARCH])
  {
    DiscoveredAreHeld(f);
    hide Safe, EncodeItems, Answers, WellHeld;
    var g: seq<Code> := [WIFI_SSID, DEVICE_SEARCH];
    AnswersFrom(g, 0, 0, f.state);
    AnswersFrom(g, 1, 0, f.state);
    NothingAnswered(0, f.state);
    assert g[0..] == g && g[2..] == [];
  }

  /** One fan with a long network name keeps every fan behind it from answering a discovery that asks for the name. */
  lemma LongNameSilencesRest(f: Fan, g: Fan)
    requires Safe(f) && WIFI_SSID in f.state && |f.state[WIFI_SSID]| == 225
    requires Safe(g) && WIFI_SSID in g.state && |g.state[WIFI_SSID]| <= 200
    ensures Respond(g, [WIFI_SSID, DEVICE_SEARCH]).Some?
    ensures DiscoveryReplies([f, g], [WIFI_SSID, DEVICE_SEARCH]) == []
  {
    DiscoveredAreHeld(f);
    LongAnswer(f);
    ShortAnswer(g);
    hide AnswerFits, Safe, WellHeld, Respond;
    RespondsExactly(f, [WIFI_SSID, DEVICE_SEARCH]);
    RespondsExactly(g, [WIFI_SSID, DEVICE_SEARCH]);
  }

  // ---------------------------------------------------------------------------
  // Fans keep their identity
  // ---------------------------------------------------------------------------

  /** The fan holds its own id and type. */
  ghost predicate Named(f: Fan) {
    && DEVICE_SEARCH in f.state && f.state[DEVICE_SEARCH] == f.id
    && UNIT_TYPE in f.state && f.state[UNIT_TYPE] == ToBytes(f.unitType, 2)
  }

  lemma NewIsNamed(index: nat, id: Bytes, unitType: Word, now: Now)
    ensures Named(NewFan(index, id, unitType, now))
  {
    assert Held(DEVICE_SEARCH) && Held(UNIT_TYPE);
  }

  lemma SameIdentity(f: Fan, g: Fan)
    requires Named(f) && f.id == g.id && f.unitType == g.unitType
    requires forall c: Code :: Identifies(c) && c in f.state ==> c in g.state && g.state[c] == f.state[c]
    ensures Named(g)
  {
    assert Identifies(DEVICE_SEARCH) && Identifies(UNIT_TYPE);
    hide ToBytes;
  }

  lemma WriteKeepsNamed(f: Fan, ws: seq<Entry>, now: Now)
    requires Named(f) && forall e :: e in ws ==> !Identifies(e.code)
    ensures Named(DirectWrite(f, ws, now).fan)
  {
    if HasCode(ws, FACTORY_RESET) {
      NewIsNamed(f.index, f.id, f.unitType, now);
    } else {
      var eff := Effective(f.state, DictOf(ws));
      DictIsLastWins(ws);
      EffectiveIsPart(f.state, DictOf(ws));
      forall c: Code | Identifies(c)
        ensures LastDecider(eff, c).None?
      {
        LastDeciderMem(eff, c);
      }
      hide LastDecider, Effective, DictOf, Named;
      SameIdentity(f, After(f, eff));
    }
  }

  lemma NudgeKeepsNamed(f: Fan, delta: int, table: NudgeTable)
    requires Named(f)
    ensures Named(NudgeAll(f, [SPEED], delta, table).fan)
  {
    assert [SPEED][1..] == [];
    var r := Nudge(f, SPEED, delta, table);
    assert NudgeAll(f, [SPEED], delta, table) == if r.ok then NudgeAll(r.fan, [], delta, table) else r;
    hide ToBytes, FromBytes;
  }

  lemma OpKeepsNamed(c: Client, op: Op, f: Fan, now: Now, table: NudgeTable)
    requires Named(f) && SafeOp(op)
    ensures Named(Direct(c, op, f, now, table).fan)
  {
    hide Named, SafeWrite, NudgeAll, DirectWrite, Sendable;
    if op.Write? || op.WriteResp? {
      SafeKeepsIdentity(op.writes);
      WriteKeepsNamed(f, op.writes, now);
    } else if !op.Read? {
      NudgeKeepsNamed(f, 1, table);
      NudgeKeepsNamed(f, -1, table);
    }
  }

  lemma EventKeepsNamed(f: Fan, ev: Event, table: NudgeTable)
    requires Named(f)
    ensures Named(StepEvent(f, ev, table))
  {
    hide Named, Tick, CommandOp, SafeOp, Direct;
    match ev {
      case Ticked(t) =>
        TickTouches(f, t);
        SameIdentity(f, Tick(f, t).fan);
      case Commanded(pwd, cmd, now) =>
        if CommandOp(cmd).Ok? {
          CommandsAreSafe(cmd);
          OpKeepsNamed(Client(f.id, pwd), CommandOp(cmd).value, f, now, table);
        }
    }
  }

  lemma SafeKeepsIdentity(ws: seq<Entry>)
    requires forall e :: e in ws ==> SafeWrite(e)
    ensures forall e :: e in ws ==> !Identifies(e.code)
  {
  }

  /** No run of commands and ticks changes what a fan holds as its id and type. */
  lemma {:induction false} RunKeepsNamed(f: Fan, evs: seq<Event>, table: NudgeTable)
    requires Named(f)
    ensures Named(RunEvents(f, evs, table))
    decreases |evs|
  {
    hide Named, StepEvent;
    if evs != [] {
      EventKeepsNamed(f, evs[0], table);
      RunKeepsNamed(StepEvent(f, evs[0], table), evs[1..], table);
    }
  }

  /** So after any run from fresh a fan is discovered under its own id and type. */
  lemma FansStayDiscoverable(index: nat, id: Bytes, unitType: Word, now: Now, evs: seq<Event>, table: NudgeTable)
    requires |id| == 16 && StepsSpeed(table)
    ensures var f := RunEvents(NewFan(index, id, unitType, now), evs, table);
            && Safe(f) && WellHeld(f.state)
            && Description(f) == Device(TextOf(f.id), f.unitType)
  {
    var f := RunEvents(NewFan(index, id, unitType, now), evs, table);
    FansStaySafe(index, id, unitType, now, evs, table);
    SafeIsWellHeld(f);
    NewIsNamed(index, id, unitType, now);
    RunKeepsNamed(NewFan(index, id, unitType, now), evs, table);
    TypeBytes(f.unitType);
    hide Safe, WellHeld, RunEvents, ToBytes;
  }

  lemma TypeBytes(unitType: Word)
    ensures WordOf(ToBytes(unitType, 2)[0], ToBytes(unitType, 2)[1]) == unitType
  {
    assert ToBytes(unitType / 256, 1)[0] == unitType / 256;
  }
}
