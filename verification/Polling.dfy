/** The client's full state poll: four group reads merged and decoded. */
module Polling {
  import opened Basics
  import opened Params
  import opened Section
  import opened SectionLaws
  import opened FanSpec
  import opened Fleet
  import opened Client
  import opened Commands
  import opened MainLoop
  import opened Simulator
  import opened States
  import Decoders
  import Frame

  // ---------------------------------------------------------------------------
  // Operations on the simulator's objects
  // ---------------------------------------------------------------------------

  method ParseResponse(raw: Bytes) returns (r: Result<map<Code, Bytes>>)
    ensures r == Received([raw])
  {
    hide ParsedData;
    var section := Frame.ResponseSection(raw);
    if section.Err? {
      return Err(section.error);
    }
    r := ParseDataBytes(section.value);
  }

  /** One client operation against the simulator. */
  method Send(c: Client, op: Op, sim: VentoFanSim, now: Now, table: NudgeTable)
    returns (r: Result<map<Code, Bytes>>)
    requires sim.Valid() && SaneTable(table)
    modifies sim.devices
    ensures sim.Valid()
    ensures Exchanged(sim.Values(), r) == Exchange(c, op, old(sim.Values()), now, table)
  {
    hide Dispatch, EncodeItems, EncodeReads, Frame.Framed, Received, Wired;
    var data: Bytes;
    if op.Write? || op.WriteResp? {
      data := BuildWriteData(op.writes);
    } else {
      data := BuildReadData(op.params);
    }
    var request := Frame.BuildPacket(c.id, c.pwd, RequestFunc(op), data);
    if request.Err? {
      return Err(request.error);
    }
    var replies := sim.Dispatch(request.value, now, table);
    if op.Write? {
      return Ok(map[]);
    }
    if replies == [] {
      NothingReceived();
      return Err(Connection);
    }
    r := ParseResponse(replies[0]);
    ReceivedFirst(replies);
  }

  lemma NothingReceived()
    ensures Received([]) == Err(Connection)
  {
  }

  lemma ReceivedFirst(replies: seq<Bytes>)
    requires replies != []
    ensures Received(replies) == Received([replies[0]])
  {
  }

  // ---------------------------------------------------------------------------
  // The poll
  // ---------------------------------------------------------------------------

  /** Merging one group's answer: an unsupported code drops the group, any other error ends the poll. */
  function Merge(acc: map<Code, Bytes>, answer: Result<map<Code, Bytes>>): Result<map<Code, Bytes>> {
    if answer.Ok? then Ok(acc + answer.value)
    else if answer.error.UnsupportedParams? then Ok(acc)
    else answer
  }

  function Poll(c: Client, groups: seq<seq<Param>>, acc: map<Code, Bytes>, fleet: seq<Fan>, now: Now,
                table: NudgeTable): Result<map<Code, Bytes>>
    decreases |groups|
  {
    if groups == [] then Ok(acc)
    else
      var e := Exchange(c, Read(groups[0]), fleet, now, table);
      var merged :- Merge(acc, e.result);
      Poll(c, groups[1..], merged, e.fleet, now, table)
  }

  /** A read changes no fan, whoever it reaches. */
  lemma ReadKeepsFleet(c: Client, params: seq<Code>, fleet: seq<Fan>, now: Now, table: NudgeTable)
    ensures Exchange(c, Read(params), fleet, now, table).fleet == fleet
  {
    var data := RequestData(Read(params));
    var request := Frame.Framed(c.id, c.pwd, Frame.READ, data);
    if request.Ok? {
      Frame.FrameRoundTrip(c.id, c.pwd, Frame.READ, data);
      hide Frame.Framed, Frame.ChecksumMatches, Frame.ParseHeader, Decoders.ReadWalk;
      hide EncodeReads, DiscoveryReplies, Respond;
      var k := Lookup(fleet, c.id);
      assert k.Some? ==> fleet[k.value := fleet[k.value]] == fleet;
    }
  }

  /** Polling one fan of a fleet is polling it alone. */
  lemma {:induction false} PollAlone(c: Client, groups: seq<seq<Param>>, acc: map<Code, Bytes>, fleet: seq<Fan>, k: nat,
                                     now: Now, table: NudgeTable)
    requires Reachable(fleet) && k < |fleet| && c.id == fleet[k].id && SaneTable(table)
    ensures Poll(c, groups, acc, fleet, now, table) == Poll(c, groups, acc, [fleet[k]], now, table)
    decreases |groups|
  {
    if groups != [] {
      var f := fleet[k];
      assert Reachable([f]) by { hide SoundFan; }
      hide Exchange, Direct, Reachable, IsParam;
      ReadIsTyped(groups[0]);
      ExchangeRefinesDirect(c, Read(groups[0]), fleet, k, now, table);
      ExchangeRefinesDirect(c, Read(groups[0]), [f], 0, now, table);
      ReadKeepsFleet(c, groups[0], fleet, now, table);
      ReadKeepsFleet(c, groups[0], [f], now, table);
      var merged := Merge(acc, Exchange(c, Read(groups[0]), fleet, now, table).result);
      if merged.Ok? {
        PollAlone(c, groups[1..], merged.value, fleet, k, now, table);
      }
    }
  }

  lemma ReadIsTyped(params: seq<Param>)
    ensures WellTyped(Read(params))
  {
  }

  method GetState(c: Client, sim: VentoFanSim, now: Now, table: NudgeTable) returns (r: Result<DeviceState>)
    requires sim.Valid() && SaneTable(table)
    modifies sim.devices
    ensures sim.Valid() && sim.Values() == old(sim.Values())
    ensures var raw := Poll(c, ALL_PARAM_GROUPS, map[], old(sim.Values()), now, table);
            r == if raw.Err? then Err(raw.error) else Build(raw.value)
  {
    hide Exchange, Wired, Build;
    var combined: map<Code, Bytes> := map[];
    ghost var whole := Poll(c, ALL_PARAM_GROUPS, map[], sim.Values(), now, table);
    for k := 0 to |ALL_PARAM_GROUPS|
      invariant sim.Valid() && sim.Values() == old(sim.Values())
      invariant whole == Poll(c, ALL_PARAM_GROUPS[k..], combined, sim.Values(), now, table)
    {
      var group := ALL_PARAM_GROUPS[k];
      assert ALL_PARAM_GROUPS[k..][0] == group && ALL_PARAM_GROUPS[k..][1..] == ALL_PARAM_GROUPS[k + 1..];
      ReadKeepsFleet(c, group, sim.Values(), now, table);
      var answer := Send(c, Read(group), sim, now, table);
      if answer.Ok? {
        combined := combined + answer.value;
      } else if !answer.error.UnsupportedParams? {
        return Err(answer.error);
      }
    }
    return Build(combined);
  }

  // ---------------------------------------------------------------------------
  // Sizes of the four answers
  // ---------------------------------------------------------------------------

  function ItemSize(n: nat): nat { if n == 1 then 2 else 3 + n }

  ghost predicate OnPage(codes: seq<Code>, page: byte) { forall c :: c in codes ==> Page(c) == page }

  /** The size of an answer is the size of its first item and of the rest. */
  lemma AnswersFrom(g: seq<Code>, k: nat, page: byte, state: map<Code, Bytes>)
    requires k < |g| && g[k] in state && Page(g[k]) == page
    ensures |EncodeItems(page, Answers(g[k..], state))|
         == ItemSize(|state[g[k]]|) + |EncodeItems(page, Answers(g[k + 1..], state))|
  {
    var c, items := g[k], Answers(g[k..], state);
    assert g[k..][0] == c;
    assert items[1..] == Answers(g[k + 1..], state);
    assert items[0] == Val(Entry(c, state[c]));
    assert |Body(items[0])| == ItemSize(|state[c]|);
  }

  lemma SafeWidth(f: Fan, c: Code)
    requires Safe(f) && Held(c) && Width(c) > 0
    ensures c in f.state && |f.state[c]| == Width(c)
  {
  }

  lemma {:induction false} BasicFits(f: Fan, k: nat)
    requires Safe(f) && k <= 17
    ensures |EncodeItems(0, Answers(BASIC_STATUS[k..], f.state))| <= 6 * (17 - k)
    decreases 17 - k
  {
    hide Safe, EncodeItems, Answers;
    if k < 17 {
      var c := BASIC_STATUS[k];
      assert 1 <= Width(c) <= 3 && Held(c) && c < 256;
      SafeWidth(f, c);
      AnswersFrom(BASIC_STATUS, k, 0, f.state);
      BasicFits(f, k + 1);
    } else {
      NothingAnswered(0, f.state);
    }
  }

  lemma NothingAnswered(page: byte, state: map<Code, Bytes>)
    ensures EncodeItems(page, Answers([], state)) == []
  {
  }

  lemma {:induction false} ExtendedFits(f: Fan, k: nat)
    requires Safe(f) && k <= 13
    ensures |EncodeItems(0, Answers(EXTENDED_CONFIG[k..], f.state))| <= 9 * (13 - k) + (if k <= 6 then 10 else 0)
    decreases 13 - k
  {
    hide Safe, EncodeItems, Answers;
    if k < 13 {
      var c := EXTENDED_CONFIG[k];
      assert 1 <= Width(c) <= (if k == 6 then 16 else 6) && Held(c) && c < 256;
      SafeWidth(f, c);
      AnswersFrom(EXTENDED_CONFIG, k, 0, f.state);
      ExtendedFits(f, k + 1);
    } else {
      NothingAnswered(0, f.state);
    }
  }

  /** The Wi-Fi group has one part of variable length; the rest of it takes exactly 36 bytes. */
  lemma WifiSize(f: Fan)
    requires Safe(f)
    ensures WIFI_SSID in f.state
    ensures |EncodeItems(0, Answers(WIFI_PARAMS, f.state))| == 36 + ItemSize(|f.state[WIFI_SSID]|)
  {
    assert Held(WIFI_SSID) && Held(WIFI_MODE) && Width(WIFI_MODE) == 1;
    SafeWidth(f, WIFI_MODE);
    var g := WIFI_PARAMS;
    hide EncodeItems, Answers, IsParam, Held;
    AnswersFrom(g, 0, 0, f.state);
    AnswersFrom(g, 1, 0, f.state);
    WifiTail(f, 2);
    assert g[0..] == g;
  }

  lemma {:induction false} WifiTail(f: Fan, k: nat)
    requires Safe(f) && 2 <= k <= 9
    ensures |EncodeItems(0, Answers(WIFI_PARAMS[k..], f.state))| == if k <= 5 then 2 * (5 - k) + 28 else 7 * (9 - k)
    decreases 9 - k
  {
    hide Safe, EncodeItems, Answers;
    if k < 9 {
      var c := WIFI_PARAMS[k];
      assert Width(c) == (if k < 5 then 1 else 4) && Held(c) && c < 256;
      SafeWidth(f, c);
      AnswersFrom(WIFI_PARAMS, k, 0, f.state);
      WifiTail(f, k + 1);
    } else {
      NothingAnswered(0, f.state);
    }
  }

  lemma {:induction false} SensorTail(f: Fan, k: nat)
    requires Safe(f) && k <= 4
    ensures |EncodeItems(3, Answers(SENSOR_STATUS[k..], f.state))| <= 5 * (4 - k)
    decreases 4 - k
  {
    hide Safe, EncodeItems, Answers;
    if k < 4 {
      var c := SENSOR_STATUS[k];
      assert 1 <= Width(c) <= 2 && Held(c) && Page(c) == 3;
      SafeWidth(f, c);
      AnswersFrom(SENSOR_STATUS, k, 3, f.state);
      SensorTail(f, k + 1);
    } else {
      NothingAnswered(3, f.state);
    }
  }

  lemma SensorFits(f: Fan)
    requires Safe(f)
    ensures |EncodeItems(0, Answers(SENSOR_STATUS, f.state))| <= 22
  {
    SensorTail(f, 0);
    assert SENSOR_STATUS[0..] == SENSOR_STATUS;
    PageSwitched(SENSOR_STATUS, f.state);
  }

  lemma PageSwitched(g: seq<Code>, state: map<Code, Bytes>)
    requires g != [] && OnPage(g, 3)
    ensures EncodeItems(0, Answers(g, state)) == PageSwitch(0, g[0]) + EncodeItems(3, Answers(g, state))
  {
  }

  // ---------------------------------------------------------------------------
  // The poll on a safe fan
  // ---------------------------------------------------------------------------

  /** The longest network name a fan can hold and still answer the Wi-Fi group in one packet. */
  const MAX_SSID := 189

  lemma {:induction false} ReadsSize(page: byte, codes: seq<Code>)
    ensures |EncodeReads(page, codes)| <= 3 * |codes|
    decreases |codes|
  {
    if codes != [] {
      ReadsSize(Page(codes[0]), codes[1..]);
    }
  }

  /** What a safe fan in a fleet answers to the read of one of the poll's groups. */
  lemma GroupRead(c: Client, g: seq<Param>, fleet: seq<Fan>, k: nat, now: Now, table: NudgeTable)
    requires Reachable(fleet) && k < |fleet| && SaneTable(table) && |g| <= 17
    requires Frame.ValidCredentials(c.id, c.pwd) && c.id == fleet[k].id
    requires forall p :: p in g ==> IsParam(p) && p in fleet[k].state
    ensures Exchange(c, Read(g), fleet, now, table)
         == Exchanged(fleet, if |EncodeItems(0, Answers(g, fleet[k].state))| <= 228
                             then Ok(Restricted(g, fleet[k].state)) else Err(Connection))
  {
    ReadsSize(0, g);
    UnheldIsEmpty(g, fleet[k].state);
    hide Exchange, Answers, EncodeItems, EncodeReads, Reachable, IsParam, Frame.ValidCredentials;
    ExchangeRefinesDirect(c, Read(g), fleet, k, now, table);
    assert fleet[k := fleet[k]] == fleet;
  }

  /** Whether a fan's answer to the read of a group fits in a packet. */
  predicate GroupFits(g: seq<Param>, state: map<Code, Bytes>) {
    Frame.Fits(|SIM_PASSWORD|, |EncodeItems(0, Answers(g, state))|)
  }

  /** What the groups bring of a fan's state: each group of which it holds every parameter, and no other. */
  function Brought(groups: seq<seq<Param>>, acc: map<Code, Bytes>, state: map<Code, Bytes>): map<Code, Bytes>
    decreases |groups|
  {
    if groups == [] then acc
    else
      var all := forall p :: p in groups[0] ==> p in state;
      Brought(groups[1..], if all then acc + Restricted(groups[0], state) else acc, state)
  }

  lemma ReadExactly(c: Client, g: seq<Param>, fleet: seq<Fan>, k: nat, now: Now, table: NudgeTable)
    requires Reachable(fleet) && k < |fleet| && SaneTable(table) && Sendable(c, Read(g)) && c.id == fleet[k].id
    ensures var s := fleet[k].state;
            Exchange(c, Read(g), fleet, now, table)
            == Exchanged(fleet, if !GroupFits(g, s) then Err(Connection)
                                else if forall p :: p in g ==> p in s then Ok(Restricted(g, s))
                                else Err(UnsupportedParams(Unheld(g, s))))
  {
    UnheldIsEmpty(g, fleet[k].state);
    ReadIsTyped(g);
    hide Exchange, Answers, EncodeItems, EncodeReads, Reachable, WellTyped, Sendable, Restricted;
    ExchangeRefinesDirect(c, Read(g), fleet, k, now, table);
    assert fleet[k := fleet[k]] == fleet;
  }

  ghost predicate AllFit(groups: seq<seq<Param>>, state: map<Code, Bytes>) {
    forall i :: 0 <= i < |groups| ==> GroupFits(groups[i], state)
  }

  ghost predicate AllSendable(c: Client, groups: seq<seq<Param>>) {
    forall i :: 0 <= i < |groups| ==> Sendable(c, Read(groups[i]))
  }

  lemma FirstFits(groups: seq<seq<Param>>, state: map<Code, Bytes>)
    requires groups != []
    ensures AllFit(groups, state) <==> GroupFits(groups[0], state) && AllFit(groups[1..], state)
  {
    hide GroupFits;
    assert forall i :: 0 < i < |groups| ==> groups[i] == groups[1..][i - 1];
  }

  lemma FirstSendable(c: Client, groups: seq<seq<Param>>)
    requires groups != [] && AllSendable(c, groups)
    ensures Sendable(c, Read(groups[0])) && AllSendable(c, groups[1..])
  {
    hide Sendable;
  }

  /**
   * A poll of any fan, whatever it holds, brings the groups it holds completely and drops the others, unless
   * some group's answer does not fit in a packet.
   */
  lemma {:induction false} PollExactly(c: Client, groups: seq<seq<Param>>, acc: map<Code, Bytes>, fleet: seq<Fan>,
                                       k: nat, now: Now, table: NudgeTable)
    requires Reachable(fleet) && k < |fleet| && SaneTable(table) && c.id == fleet[k].id && AllSendable(c, groups)
    ensures Poll(c, groups, acc, fleet, now, table)
         == if AllFit(groups, fleet[k].state) then Ok(Brought(groups, acc, fleet[k].state)) else Err(Connection)
    decreases |groups|
  {
    if groups != [] {
      hide Exchange, Reachable, GroupFits, Sendable, Restricted, AllFit, AllSendable, SaneTable;
      FirstSendable(c, groups);
      FirstFits(groups, fleet[k].state);
      ReadExactly(c, groups[0], fleet, k, now, table);
      if GroupFits(groups[0], fleet[k].state) {
        var merged := Merge(acc, Exchange(c, Read(groups[0]), fleet, now, table).result).value;
        PollExactly(c, groups[1..], merged, fleet, k, now, table);
      }
    }
  }

  lemma GroupsAreHeld(g: seq<Param>, f: Fan)
    requires Safe(f) && g in ALL_PARAM_GROUPS
    ensures |g| <= 17 && forall p :: p in g ==> IsParam(p) && Held(p) && p in f.state
  {
  }

  /** Only the Wi-Fi group's answer can exceed a packet, and does exactly with a long network name. */
  lemma GroupSizes(g: seq<Param>, f: Fan)
    requires Safe(f) && g in ALL_PARAM_GROUPS
    ensures WIFI_SSID in f.state
    ensures |EncodeItems(0, Answers(g, f.state))| <= 228
       <==> !(g == WIFI_PARAMS && |f.state[WIFI_SSID]| > MAX_SSID)
  {
    WifiSize(f);
    hide Safe, EncodeItems, Answers;
    assert g == BASIC_STATUS || g == EXTENDED_CONFIG || g == WIFI_PARAMS || g == SENSOR_STATUS;
    assert g[0..] == g;
    if g == BASIC_STATUS {
      BasicFits(f, 0);
      assert g[0] == POWER;
    } else if g == EXTENDED_CONFIG {
      ExtendedFits(f, 0);
      assert g[0] == FILTER_COUNTDOWN;
    } else if g == SENSOR_STATUS {
      SensorFits(f);
      assert g[0] == HUMIDITY_STATUS;
    }
  }

  lemma GroupAnswer(c: Client, g: seq<Param>, fleet: seq<Fan>, k: nat, now: Now, table: NudgeTable)
    requires Reachable(fleet) && k < |fleet| && SaneTable(table) && Safe(fleet[k])
    requires Frame.ValidCredentials(c.id, c.pwd) && c.id == fleet[k].id && g in ALL_PARAM_GROUPS
    ensures WIFI_SSID in fleet[k].state
    ensures Exchange(c, Read(g), fleet, now, table)
         == Exchanged(fleet, if g == WIFI_PARAMS && |fleet[k].state[WIFI_SSID]| > MAX_SSID then Err(Connection)
                             else Ok(Restricted(g, fleet[k].state)))
  {
    hide Safe, EncodeItems, Answers, Exchange, Reachable, IsParam, Held, Restricted, Frame.ValidCredentials;
    GroupsAreHeld(g, fleet[k]);
    GroupSizes(g, fleet[k]);
    GroupRead(c, g, fleet, k, now, table);
  }

  lemma GroupsCoverHeld(c: Code)
    ensures Held(c) <==> c in BASIC_STATUS || c in EXTENDED_CONFIG || c in WIFI_PARAMS || c in SENSOR_STATUS
  {
  }

  /**
   * Polling a safe fan drops no group: it returns every parameter a fresh fan holds, with its current
   * value. It does so exactly while the network name is no longer than 189 bytes; with a longer one the
   * fan's answer exceeds a packet and the whole poll times out.
   */
  lemma PollIsComplete(c: Client, fleet: seq<Fan>, k: nat, now: Now, table: NudgeTable)
    requires Reachable(fleet) && k < |fleet| && SaneTable(table) && Safe(fleet[k])
    requires Frame.ValidCredentials(c.id, c.pwd) && c.id == fleet[k].id
    ensures WIFI_SSID in fleet[k].state
    ensures Poll(c, ALL_PARAM_GROUPS, map[], fleet, now, table)
         == if |fleet[k].state[WIFI_SSID]| <= MAX_SSID then Ok(Visible(fleet[k].state)) else Err(Connection)
  {
    var f := fleet[k];
    GroupsDiffer();
    VisibleIsUnion(f);
    hide *;
    GroupAnswer(c, BASIC_STATUS, fleet, k, now, table);
    GroupAnswer(c, EXTENDED_CONFIG, fleet, k, now, table);
    GroupAnswer(c, WIFI_PARAMS, fleet, k, now, table);
    GroupAnswer(c, SENSOR_STATUS, fleet, k, now, table);
    PollFour(c, BASIC_STATUS, EXTENDED_CONFIG, WIFI_PARAMS, SENSOR_STATUS, fleet, now, table);
  }

  lemma GroupsDiffer()
    ensures ALL_PARAM_GROUPS == [BASIC_STATUS, EXTENDED_CONFIG, WIFI_PARAMS, SENSOR_STATUS]
    ensures BASIC_STATUS in ALL_PARAM_GROUPS && EXTENDED_CONFIG in ALL_PARAM_GROUPS
    ensures WIFI_PARAMS in ALL_PARAM_GROUPS && SENSOR_STATUS in ALL_PARAM_GROUPS
    ensures WIFI_PARAMS != BASIC_STATUS && WIFI_PARAMS != EXTENDED_CONFIG && WIFI_PARAMS != SENSOR_STATUS
  {
  }

  ghost predicate AnswersOrTimesOut(c: Client, g: seq<Param>, fleet: seq<Fan>, now: Now, table: NudgeTable) {
    var e := Exchange(c, Read(g), fleet, now, table);
    e.fleet == fleet && (e.result.Ok? || e.result == Err(Connection))
  }

  lemma PollFour(c: Client, g0: seq<Param>, g1: seq<Param>, g2: seq<Param>, g3: seq<Param>, fleet: seq<Fan>,
                 now: Now, table: NudgeTable)
    requires AnswersOrTimesOut(c, g0, fleet, now, table) && AnswersOrTimesOut(c, g1, fleet, now, table)
    requires AnswersOrTimesOut(c, g2, fleet, now, table) && AnswersOrTimesOut(c, g3, fleet, now, table)
    ensures var r0 := Exchange(c, Read(g0), fleet, now, table).result;
            var r1 := Exchange(c, Read(g1), fleet, now, table).result;
            var r2 := Exchange(c, Read(g2), fleet, now, table).result;
            var r3 := Exchange(c, Read(g3), fleet, now, table).result;
            Poll(c, [g0, g1, g2, g3], map[], fleet, now, table)
            == if r0.Ok? && r1.Ok? && r2.Ok? && r3.Ok? then Ok(r0.value + r1.value + r2.value + r3.value)
               else Err(Connection)
  {
    hide Exchange, Poll;
    var r0 := Exchange(c, Read(g0), fleet, now, table).result;
    var r1 := Exchange(c, Read(g1), fleet, now, table).result;
    var r2 := Exchange(c, Read(g2), fleet, now, table).result;
    PollStep(c, [g0, g1, g2, g3], map[], fleet, now, table);
    if r0.Ok? {
      assert map[] + r0.value == r0.value;
      assert [g0, g1, g2, g3][1..] == [g1, g2, g3];
      PollStep(c, [g1, g2, g3], r0.value, fleet, now, table);
      if r1.Ok? {
        assert [g1, g2, g3][1..] == [g2, g3];
        PollStep(c, [g2, g3], r0.value + r1.value, fleet, now, table);
        if r2.Ok? {
          assert [g2, g3][1..] == [g3];
          PollStep(c, [g3], r0.value + r1.value + r2.value, fleet, now, table);
        }
      }
    }
  }

  lemma PollStep(c: Client, gs: seq<seq<Param>>, acc: map<Code, Bytes>, fleet: seq<Fan>, now: Now, table: NudgeTable)
    requires gs != [] && Exchange(c, Read(gs[0]), fleet, now, table).fleet == fleet
    requires var r := Exchange(c, Read(gs[0]), fleet, now, table).result; r.Ok? || r == Err(Connection)
    ensures var r := Exchange(c, Read(gs[0]), fleet, now, table).result;
            Poll(c, gs, acc, fleet, now, table)
            == if r.Err? then Err(Connection)
               else if |gs| == 1 then Ok(acc + r.value)
               else Poll(c, gs[1..], acc + r.value, fleet, now, table)
  {
    hide Exchange;
  }

  lemma VisibleIsUnion(f: Fan)
    requires Safe(f)
    ensures Visible(f.state)
         == Restricted(BASIC_STATUS, f.state) + Restricted(EXTENDED_CONFIG, f.state)
            + Restricted(WIFI_PARAMS, f.state) + Restricted(SENSOR_STATUS, f.state)
  {
    hide IsParam, Held;
    forall c: Code
      ensures Held(c) <==> c in BASIC_STATUS || c in EXTENDED_CONFIG || c in WIFI_PARAMS || c in SENSOR_STATUS
    {
      GroupsCoverHeld(c);
    }
  }

  lemma SafeIsWellHeld(f: Fan)
    requires Safe(f)
    ensures WellHeld(f.state)
  {
    hide SoundFan;
  }

  /** A poll of a safe fan that succeeds decodes, and every field tells the parameter behind it. */
  lemma PolledStateDecodes(c: Client, fleet: seq<Fan>, k: nat, now: Now, table: NudgeTable)
    requires Reachable(fleet) && k < |fleet| && SaneTable(table) && Safe(fleet[k])
    requires Frame.ValidCredentials(c.id, c.pwd) && c.id == fleet[k].id
    ensures WellHeld(fleet[k].state)
    ensures var raw := Poll(c, ALL_PARAM_GROUPS, map[], fleet, now, table);
            raw.Ok? ==> Build(raw.value) == Ok(Reading(fleet[k].state))
  {
    hide Poll, Build, Reading, WellHeld, Reachable;
    PollIsComplete(c, fleet, k, now, table);
    SafeIsWellHeld(fleet[k]);
    CompleteStateDecodes(fleet[k].state);
  }

  // ---------------------------------------------------------------------------
  // Ticks between the reads
  // ---------------------------------------------------------------------------

  /** A poll during which the simulator's loop goes on: `gaps[i]` are its rounds before the read of group i. */
  function PollTicking(c: Client, groups: seq<seq<Param>>, acc: map<Code, Bytes>, w: World, gaps: seq<seq<Turn>>,
                       now: Now, table: NudgeTable): Result<map<Code, Bytes>>
    requires |gaps| == |groups|
    decreases |groups|
  {
    if groups == [] then Ok(acc)
    else
      var v := Rounds(w, gaps[0]);
      var e := Sent(c, Read(groups[0]), v, now, table);
      var merged :- Merge(acc, e.result);
      PollTicking(c, groups[1..], merged, World(e.fleet, v.alive), gaps[1..], now, table)
  }

  /** Fan `k` of a running or ended simulator is safe, and can be named by the client. */
  ghost predicate Polled(c: Client, w: World, k: nat, name: nat) {
    && Reachable(w.fleet) && k < |w.fleet| && c.id == w.fleet[k].id && Safe(w.fleet[k])
    && WIFI_SSID in w.fleet[k].state && |w.fleet[k].state[WIFI_SSID]| == name
  }

  lemma RoundKeepsSafe(w: World, t: Turn, k: nat)
    requires k < |w.fleet| && Safe(w.fleet[k])
    ensures Safe(Round(w, t).fleet[k])
  {
    hide Safe, Tick, Round;
    RoundTo(w, t, k);
    if k < |t.draws| {
      TickKeepsSafe(w.fleet[k], t.draws[k]);
    }
  }

  lemma {:induction false} RoundsKeepPolled(c: Client, w: World, rounds: seq<Turn>, k: nat, name: nat)
    requires Polled(c, w, k, name)
    ensures Polled(c, Rounds(w, rounds), k, name)
    decreases |rounds|
  {
    if rounds != [] {
      var v := Round(w, rounds[0]);
      assert Polled(c, v, k, name) by {
        hide Safe, Reachable, Round;
        RoundKeepsReachable(w, rounds[0]);
        RoundKeepsSafe(w, rounds[0], k);
        RoundTouches(w, rounds[0], k);
        assert !TickWrites(WIFI_SSID);
      }
      hide Polled, Round;
      RoundsKeepPolled(c, v, rounds[1..], k, name);
    }
  }

  /** A loop that has ended stays ended. */
  lemma {:induction false} RoundsStayEnded(w: World, rounds: seq<Turn>)
    requires !w.alive
    ensures Rounds(w, rounds) == w
    decreases |rounds|
  {
    if rounds != [] {
      RoundsStayEnded(w, rounds[1..]);
    }
  }

  /** What one group's read brings, and that it leaves the simulator as it was. */
  lemma ReadBrings(c: Client, g: seq<Param>, w: World, k: nat, name: nat, now: Now, table: NudgeTable)
    requires Polled(c, w, k, name) && Frame.ValidCredentials(c.id, c.pwd) && SaneTable(table) && g in ALL_PARAM_GROUPS
    ensures Sent(c, Read(g), w, now, table)
         == Exchanged(w.fleet, if w.alive && !(g == WIFI_PARAMS && name > MAX_SSID)
                               then Ok(Restricted(g, w.fleet[k].state)) else Err(Connection))
  {
    hide Exchange, Safe, Restricted, IsParam;
    if w.alive {
      hide Reachable;
      GroupAnswer(c, g, w.fleet, k, now, table);
    } else {
      GroupReadFits(c, g);
      hide ALL_PARAM_GROUPS, Sendable;
      ExchangeWithNobody(c, Read(g), [], now, table);
    }
  }

  lemma GroupReadFits(c: Client, g: seq<Param>)
    requires Frame.ValidCredentials(c.id, c.pwd) && g in ALL_PARAM_GROUPS
    ensures Sendable(c, Read(g))
  {
    ReadsSize(0, g);
    hide EncodeReads;
  }

  /** The groups still to read, with the fan as each read finds it. */
  ghost function Gathered(groups: seq<seq<Param>>, acc: map<Code, Bytes>, w: World, gaps: seq<seq<Turn>>, k: nat)
    : map<Code, Bytes>
    requires |gaps| == |groups| && k < |w.fleet|
    decreases |groups|
  {
    if groups == [] then acc
    else
      var v := Rounds(w, gaps[0]);
      Gathered(groups[1..], acc + Restricted(groups[0], v.fleet[k].state), v, gaps[1..], k)
  }

  /** The simulator after all rounds. */
  ghost function AfterGaps(w: World, gaps: seq<seq<Turn>>): World
    decreases |gaps|
  {
    if gaps == [] then w else AfterGaps(Rounds(w, gaps[0]), gaps[1..])
  }

  ghost predicate PollGroups(groups: seq<seq<Param>>) {
    forall i :: 0 <= i < |groups| ==> groups[i] in ALL_PARAM_GROUPS
  }

  lemma {:induction false} EndedStaysEnded(w: World, gaps: seq<seq<Turn>>)
    requires !w.alive
    ensures AfterGaps(w, gaps) == w
    decreases |gaps|
  {
    if gaps != [] {
      RoundsStayEnded(w, gaps[0]);
      EndedStaysEnded(w, gaps[1..]);
    }
  }

  lemma {:induction false} PollGathers(c: Client, groups: seq<seq<Param>>, acc: map<Code, Bytes>, w: World,
                                       gaps: seq<seq<Turn>>, k: nat, name: nat, now: Now, table: NudgeTable)
    requires Polled(c, w, k, name) && Frame.ValidCredentials(c.id, c.pwd) && SaneTable(table)
    requires |gaps| == |groups| && PollGroups(groups)
    ensures PollTicking(c, groups, acc, w, gaps, now, table)
         == if groups == [] || (AfterGaps(w, gaps).alive && !(WIFI_PARAMS in groups && name > MAX_SSID))
            then Ok(Gathered(groups, acc, w, gaps, k)) else Err(Connection)
    decreases |groups|
  {
    if groups != [] {
      var g, v := groups[0], Rounds(w, gaps[0]);
      assert g in ALL_PARAM_GROUPS && PollGroups(groups[1..]);
      assert groups == [g] + groups[1..];
      hide Polled, Rounds, Sent, Restricted, PollGroups;
      RoundsKeepPolled(c, w, gaps[0], k, name);
      ReadBrings(c, g, v, k, name, now, table);
      if !v.alive {
        EndedStaysEnded(v, gaps[1..]);
      } else {
        PollGathers(c, groups[1..], acc + Restricted(g, v.fleet[k].state), v, gaps[1..], k, name, now, table);
        if |groups| == 1 {
          assert gaps[1..] == [];
        }
      }
    }
  }

  /** Everything a fresh fan holds, at its declared width. */
  lemma GatheredIsWellHeld(c: Client, w: World, gaps: seq<seq<Turn>>, k: nat, name: nat)
    requires Polled(c, w, k, name) && |gaps| == 4
    ensures var m := Gathered(ALL_PARAM_GROUPS, map[], w, gaps, k); WellHeld(m) && Visible(m) == m
  {
    var v0 := Rounds(w, gaps[0]);
    var v1 := Rounds(v0, gaps[1]);
    var v2 := Rounds(v1, gaps[2]);
    var v3 := Rounds(v2, gaps[3]);
    GatheredFour(w, gaps, k);
    RoundsKeepPolled(c, w, gaps[0], k, name);
    RoundsKeepPolled(c, v0, gaps[1], k, name);
    RoundsKeepPolled(c, v1, gaps[2], k, name);
    RoundsKeepPolled(c, v2, gaps[3], k, name);
    UnionIsWellHeld(v0.fleet[k], v1.fleet[k], v2.fleet[k], v3.fleet[k]);
  }

  lemma GatheredFour(w: World, gaps: seq<seq<Turn>>, k: nat)
    requires |gaps| == 4 && k < |w.fleet|
    ensures var v0 := Rounds(w, gaps[0]); var v1 := Rounds(v0, gaps[1]);
            var v2 := Rounds(v1, gaps[2]); var v3 := Rounds(v2, gaps[3]);
            Gathered(ALL_PARAM_GROUPS, map[], w, gaps, k)
            == Restricted(BASIC_STATUS, v0.fleet[k].state) + Restricted(EXTENDED_CONFIG, v1.fleet[k].state)
               + Restricted(WIFI_PARAMS, v2.fleet[k].state) + Restricted(SENSOR_STATUS, v3.fleet[k].state)
  {
    var gs := ALL_PARAM_GROUPS;
    GroupsDiffer();
    hide Rounds, Restricted, Gathered, ALL_PARAM_GROUPS, BASIC_STATUS, EXTENDED_CONFIG, WIFI_PARAMS, SENSOR_STATUS;
    var v0 := Rounds(w, gaps[0]);
    var v1 := Rounds(v0, gaps[1]);
    var v2 := Rounds(v1, gaps[2]);
    var v3 := Rounds(v2, gaps[3]);
    var r0 := Restricted(BASIC_STATUS, v0.fleet[k].state);
    var r1 := r0 + Restricted(EXTENDED_CONFIG, v1.fleet[k].state);
    var r2 := r1 + Restricted(WIFI_PARAMS, v2.fleet[k].state);
    assert map[] + r0 == r0;
    GatheredStep(gs, map[], w, gaps, k);
    GatheredStep(gs[1..], r0, v0, gaps[1..], k);
    GatheredStep(gs[1..][1..], r1, v1, gaps[1..][1..], k);
    GatheredStep(gs[1..][1..][1..], r2, v2, gaps[1..][1..][1..], k);
  }

  lemma GatheredStep(groups: seq<seq<Param>>, acc: map<Code, Bytes>, w: World, gaps: seq<seq<Turn>>, k: nat)
    requires |gaps| == |groups| > 0 && k < |w.fleet|
    ensures var v := Rounds(w, gaps[0]); var next := acc + Restricted(groups[0], v.fleet[k].state);
            Gathered(groups, acc, w, gaps, k)
            == if |groups| == 1 then next else Gathered(groups[1..], next, v, gaps[1..], k)
  {
    hide Rounds, Restricted;
  }

  /** Parameters a fresh fan holds, the fixed-size ones at their declared width. */
  ghost predicate Fitting(m: map<Code, Bytes>) {
    forall c :: c in m ==> Held(c) && (Width(c) > 0 ==> |m[c]| == Width(c))
  }

  lemma GroupIsFitting(f: Fan, g: seq<Param>)
    requires Safe(f) && g in ALL_PARAM_GROUPS
    ensures Fitting(Restricted(g, f.state)) && forall c: Code :: c in g ==> c in Restricted(g, f.state)
  {
    GroupsAreHeld(g, f);
    SafeIsWellHeld(f);
    hide Safe, Held, IsParam, ALL_PARAM_GROUPS;
  }

  lemma UnionIsFitting(m: map<Code, Bytes>, n: map<Code, Bytes>)
    requires Fitting(m) && Fitting(n)
    ensures Fitting(m + n)
  {
    hide Held, Width;
  }

  lemma FittingIsWellHeld(m: map<Code, Bytes>)
    requires Fitting(m) && forall c: Code :: Held(c) ==> c in m
    ensures WellHeld(m) && Visible(m) == m
  {
    hide Held, Width;
  }

  lemma UnionIsWellHeld(f0: Fan, f1: Fan, f2: Fan, f3: Fan)
    requires Safe(f0) && Safe(f1) && Safe(f2) && Safe(f3)
    ensures var m := Restricted(BASIC_STATUS, f0.state) + Restricted(EXTENDED_CONFIG, f1.state)
                     + Restricted(WIFI_PARAMS, f2.state) + Restricted(SENSOR_STATUS, f3.state);
            WellHeld(m) && Visible(m) == m
  {
    GroupsDiffer();
    hide Safe, Held, ALL_PARAM_GROUPS, BASIC_STATUS, EXTENDED_CONFIG, WIFI_PARAMS, SENSOR_STATUS, Restricted;
    hide Fitting, WellHeld, Visible;
    GroupIsFitting(f0, BASIC_STATUS);
    GroupIsFitting(f1, EXTENDED_CONFIG);
    GroupIsFitting(f2, WIFI_PARAMS);
    GroupIsFitting(f3, SENSOR_STATUS);
    var a, b := Restricted(BASIC_STATUS, f0.state), Restricted(EXTENDED_CONFIG, f1.state);
    var c, d := Restricted(WIFI_PARAMS, f2.state), Restricted(SENSOR_STATUS, f3.state);
    UnionIsFitting(a, b);
    UnionIsFitting(a + b, c);
    UnionIsFitting(a + b + c, d);
    forall p: Code | Held(p)
      ensures p in a + b + c + d
    {
      GroupsCoverHeld(p);
    }
    FittingIsWellHeld(a + b + c + d);
  }

  /**
   * With the simulator's loop going on between the four reads, a poll of a safe fan succeeds exactly while
   * the loop runs and the network name has at most 189 bytes. It brings each group as its read found it,
   * and that mixture of moments always decodes with no field missing.
   */
  lemma PollThroughTicks(c: Client, w: World, gaps: seq<seq<Turn>>, k: nat, name: nat, now: Now, table: NudgeTable)
    requires Polled(c, w, k, name) && Frame.ValidCredentials(c.id, c.pwd) && SaneTable(table) && |gaps| == 4
    ensures var m := Gathered(ALL_PARAM_GROUPS, map[], w, gaps, k);
            && WellHeld(m)
            && PollTicking(c, ALL_PARAM_GROUPS, map[], w, gaps, now, table)
               == (if AfterGaps(w, gaps).alive && name <= MAX_SSID then Ok(m) else Err(Connection))
            && Build(m) == Ok(Reading(m))
  {
    GroupsDiffer();
    GatheredIsWellHeld(c, w, gaps, k, name);
    CompleteStateDecodes(Gathered(ALL_PARAM_GROUPS, map[], w, gaps, k));
    hide Polled, PollTicking, Gathered, AfterGaps, Build, Reading, WellHeld, Visible;
    PollGathers(c, ALL_PARAM_GROUPS, map[], w, gaps, k, name, now, table);
  }
}
