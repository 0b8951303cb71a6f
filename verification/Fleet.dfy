/** Packet routing among several simulated fans, on fan values. */
module Fleet {
  import opened Basics
  import opened Section
  import opened Decoders
  import opened FanSpec
  import Decimal
  import Frame

  /** The fans of a new simulator, in index order. */
  function NewFleet(count: nat, start: nat, unitType: Word, prefix: Bytes, now: Now): (fleet: seq<Fan>)
    ensures |fleet| == count
    ensures forall k :: 0 <= k < count ==>
      fleet[k] == NewFan(start + k, Decimal.MakeSimId(start + k, prefix), unitType, now)
  {
    seq(count, k requires 0 <= k < count => NewFan(start + k, Decimal.MakeSimId(start + k, prefix), unitType, now))
  }

  /** The fan a target id selects: of equal ids, the one listed last. */
  function Lookup(fleet: seq<Fan>, id: Bytes): (r: Option<nat>)
    ensures r.Some? ==> r.value < |fleet| && fleet[r.value].id == id
    ensures r.None? ==> forall i :: 0 <= i < |fleet| ==> fleet[i].id != id
  {
    if fleet == [] then None
    else if fleet[|fleet| - 1].id == id then Some(|fleet| - 1)
    else Lookup(fleet[..|fleet| - 1], id)
  }

  /** The data section behind a header; a header that reaches into the checksum leaves none. */
  function DataAfter(raw: Bytes, start: nat): Bytes
    requires start <= |raw|
  {
    if start + 2 <= |raw| then raw[start..|raw| - 2] else []
  }

  /** One response per fan in order, up to the first that cannot be built. */
  function DiscoveryReplies(fleet: seq<Fan>, requested: seq<Code>): seq<Bytes>
    decreases |fleet|
  {
    if fleet == [] then []
    else
      var r := Respond(fleet[0], requested);
      if r.None? then [] else [r.value] + DiscoveryReplies(fleet[1..], requested)
  }

  datatype Dispatched = Dispatched(fleet: seq<Fan>, replies: seq<Bytes>)

  function Replies(r: Option<Bytes>): seq<Bytes> { if r.Some? then [r.value] else [] }

  function Dispatch(fleet: seq<Fan>, raw: Bytes, now: Now, table: NudgeTable): Dispatched {
    if !Frame.ChecksumMatches(raw) then Dispatched(fleet, [])
    else
      var h := Frame.ParseHeader(raw);
      if h.Err? then Dispatched(fleet, [])
      else
        var data := DataAfter(raw, h.value.dataStart);
        if h.value.id == Decimal.DEFAULT_DEVICE_ID then
          Dispatched(fleet, DiscoveryReplies(fleet, ReadWalk(0, data)))
        else
          var k := Lookup(fleet, h.value.id);
          if k.None? then Dispatched(fleet, [])
          else
            var r := Handle(fleet[k.value], h.value.func, data, now, table);
            Dispatched(fleet[k.value := r.fan], Replies(r.reply))
  }

  ghost predicate DistinctIds(fleet: seq<Fan>) {
    forall i, j :: 0 <= i < j < |fleet| ==> fleet[i].id != fleet[j].id
  }

  ghost predicate SoundFleet(fleet: seq<Fan>) {
    forall i :: 0 <= i < |fleet| ==> SoundFan(fleet[i])
  }

  // ---------------------------------------------------------------------------
  // Isolation over whole runs
  // ---------------------------------------------------------------------------

  /** A packet together with the wall clock at its arrival. */
  datatype Arrival = Arrival(raw: Bytes, now: Now)

  function DispatchAll(fleet: seq<Fan>, arrivals: seq<Arrival>, table: NudgeTable): seq<Fan>
    decreases |arrivals|
  {
    if arrivals == [] then fleet
    else DispatchAll(Dispatch(fleet, arrivals[0].raw, arrivals[0].now, table).fleet, arrivals[1..], table)
  }

  /** A packet that verifies, parses and names `id` without being a discovery. */
  predicate AddressedTo(raw: Bytes, id: Bytes) {
    && Frame.ChecksumMatches(raw)
    && var h := Frame.ParseHeader(raw);
       h.Ok? && h.value.id == id && id != Decimal.DEFAULT_DEVICE_ID
  }

  /** What a packet makes of one fan, looking at no other fan. */
  function Alone(f: Fan, a: Arrival, table: NudgeTable): Fan {
    if AddressedTo(a.raw, f.id) then
      var h := Frame.ParseHeader(a.raw).value;
      Handle(f, h.func, DataAfter(a.raw, h.dataStart), a.now, table).fan
    else f
  }

  function AloneAll(f: Fan, arrivals: seq<Arrival>, table: NudgeTable): Fan
    decreases |arrivals|
  {
    if arrivals == [] then f else AloneAll(Alone(f, arrivals[0], table), arrivals[1..], table)
  }

  lemma {:induction false} WriteAllKeepsId(f: Fan, d: seq<Entry>)
    ensures WriteAll(f, d).fan.id == f.id
    decreases |d|
  {
    if d != [] {
      var r := WriteOne(f, d[0]);
      if r.ok {
        WriteAllKeepsId(r.fan, d[1..]);
      }
    }
  }

  lemma {:induction false} NudgeAllKeepsId(f: Fan, ps: seq<Code>, delta: int, table: NudgeTable)
    ensures NudgeAll(f, ps, delta, table).fan.id == f.id
    decreases |ps|
  {
    if ps != [] {
      var r := Nudge(f, ps[0], delta, table);
      if r.ok {
        NudgeAllKeepsId(r.fan, ps[1..], delta, table);
      }
    }
  }

  lemma HandleKeepsId(f: Fan, func: byte, data: Bytes, now: Now, table: NudgeTable)
    ensures Handle(f, func, data, now, table).fan.id == f.id
  {
    WriteAllKeepsId(f, DictOf(WriteWalk(0, data)));
    NudgeAllKeepsId(f, ReadWalk(0, data), 1, table);
    NudgeAllKeepsId(f, ReadWalk(0, data), -1, table);
  }

  /** One dispatch changes each fan exactly as if it had received the packet alone, and keeps all ids. */
  lemma DispatchIsAlone(fleet: seq<Fan>, a: Arrival, table: NudgeTable)
    requires DistinctIds(fleet)
    ensures var after := Dispatch(fleet, a.raw, a.now, table).fleet;
            && |after| == |fleet|
            && DistinctIds(after)
            && forall k :: 0 <= k < |fleet| ==> after[k] == Alone(fleet[k], a, table)
  {
    var after := Dispatch(fleet, a.raw, a.now, table).fleet;
    hide Handle, Frame.ParseHeader, Frame.ChecksumMatches;
    if Frame.ChecksumMatches(a.raw) && Frame.ParseHeader(a.raw).Ok? {
      var h := Frame.ParseHeader(a.raw).value;
      var k := Lookup(fleet, h.id);
      if h.id != Decimal.DEFAULT_DEVICE_ID && k.Some? {
        HandleKeepsId(fleet[k.value], h.func, DataAfter(a.raw, h.dataStart), a.now, table);
      }
    }
  }

  /**
   * After any sequence of packets each fan is the fold of only the valid packets addressed to it:
   * discoveries, other fans' packets and packets that fail verification leave no trace.
   */
  lemma {:induction false} FleetIsolation(fleet: seq<Fan>, arrivals: seq<Arrival>, table: NudgeTable)
    requires DistinctIds(fleet)
    ensures var after := DispatchAll(fleet, arrivals, table);
            && |after| == |fleet|
            && forall k :: 0 <= k < |fleet| ==> after[k] == AloneAll(fleet[k], arrivals, table)
    decreases |arrivals|
  {
    if arrivals != [] {
      DispatchIsAlone(fleet, arrivals[0], table);
      FleetIsolation(Dispatch(fleet, arrivals[0].raw, arrivals[0].now, table).fleet, arrivals[1..], table);
    }
  }

  lemma DispatchKeepsSound(fleet: seq<Fan>, raw: Bytes, now: Now, table: NudgeTable)
    requires SoundFleet(fleet) && SaneTable(table)
    ensures SoundFleet(Dispatch(fleet, raw, now, table).fleet)
  {
    hide Handle, SoundFan, Frame.ParseHeader, Frame.ChecksumMatches;
    if Frame.ChecksumMatches(raw) && Frame.ParseHeader(raw).Ok? {
      var h := Frame.ParseHeader(raw).value;
      var k := Lookup(fleet, h.id);
      if k.Some? {
        HandleKeepsSound(fleet[k.value], h.func, DataAfter(raw, h.dataStart), now, table);
      }
    }
  }

  /** A fan's answer to `requested` fits in one packet. */
  predicate AnswerFits(f: Fan, requested: seq<Code>) {
    Frame.Fits(|SIM_PASSWORD|, |EncodeItems(0, Answers(requested, f.state))|)
  }

  lemma RespondsExactly(f: Fan, requested: seq<Code>)
    requires |f.id| == 16
    ensures Respond(f, requested).Some? <==> AnswerFits(f, requested)
  {
  }

  /**
   * A discovery is answered by the fans in order, up to the first whose answer does not fit in a packet;
   * so it is answered once by every fan exactly when every answer fits.
   */
  lemma {:induction false} DiscoveryAnswersOncePerFan(fleet: seq<Fan>, requested: seq<Code>)
    requires forall k :: 0 <= k < |fleet| ==> |fleet[k].id| == 16
    ensures var replies := DiscoveryReplies(fleet, requested);
            && |replies| <= |fleet|
            && (forall k :: 0 <= k < |replies| ==>
                  AnswerFits(fleet[k], requested) && Some(replies[k]) == Respond(fleet[k], requested))
            && (|replies| < |fleet| ==> !AnswerFits(fleet[|replies|], requested))
    ensures |DiscoveryReplies(fleet, requested)| == |fleet|
       <==> forall k :: 0 <= k < |fleet| ==> AnswerFits(fleet[k], requested)
    decreases |fleet|
  {
    if fleet != [] {
      RespondsExactly(fleet[0], requested);
      hide Respond, AnswerFits;
      DiscoveryAnswersOncePerFan(fleet[1..], requested);
      var rest := DiscoveryReplies(fleet[1..], requested);
      if Respond(fleet[0], requested).Some? {
        var replies := DiscoveryReplies(fleet, requested);
        assert replies == [Respond(fleet[0], requested).value] + rest;
        assert forall k :: 0 < k < |fleet| ==> fleet[k] == fleet[1..][k - 1];
      }
    }
  }
}
