/** The simulator's main loop: ticks and status lines between packets, and what ends it. */
module MainLoop {
  import opened Basics
  import opened Params
  import opened FanSpec
  import opened Fleet

  /** What the devices of a fleet draw in one round; devices beyond the list do not tick. */
  type Draws = seq<TickInput>

  /** What each device comes to on its own. */
  function TickEach(fleet: seq<Fan>, draws: Draws): (rs: seq<Run>)
    ensures |rs| == |fleet|
    ensures forall k :: 0 <= k < |fleet| ==>
      rs[k] == if k < |draws| then Tick(fleet[k], draws[k]) else Run(fleet[k], true)
  {
    seq(|fleet|, k requires 0 <= k < |fleet| => if k < |draws| then Tick(fleet[k], draws[k]) else Run(fleet[k], true))
  }

  /** How many devices are reached: all, or those up to the first that raises. */
  function Reached(rs: seq<Run>): (n: nat)
    ensures n <= |rs| && forall k :: 0 <= k < n - 1 ==> rs[k].ok
    ensures (n < |rs| ==> n > 0 && !rs[n - 1].ok)
  {
    if rs == [] then 0
    else if !rs[0].ok then 1
    else 1 + Reached(rs[1..])
  }

  /** A simulator: its fans, and whether its main loop still runs. */
  datatype World = World(fleet: seq<Fan>, alive: bool)

  /** The devices tick in order; a tick that raises ends the loop before the next device. */
  function TickRound(w: World, draws: Draws): (r: World)
    ensures |r.fleet| == |w.fleet|
  {
    if !w.alive then w
    else
      var rs := TickEach(w.fleet, draws);
      var n := Reached(rs);
      World(seq(|w.fleet|, k requires 0 <= k < |w.fleet| => if k < n then rs[k].fan else w.fleet[k]),
            n == 0 || rs[n - 1].ok)
  }

  /** A status line reads one byte of each of five parameters, and both reported speeds. */
  predicate PrintsStatus(f: Fan) {
    && HasByte(f, POWER) && HasByte(f, SPEED) && HasByte(f, OPERATION_MODE)
    && FAN1_SPEED in f.state && FAN2_SPEED in f.state
    && HasByte(f, CURRENT_HUMIDITY) && HasByte(f, ALARM_STATUS)
  }

  predicate AllPrint(fleet: seq<Fan>) { forall k :: 0 <= k < |fleet| ==> PrintsStatus(fleet[k]) }

  /** One pass of the loop up to its wait for a packet: the ticks, and the status lines when they are due. */
  datatype Turn = Turn(draws: Draws, status: bool)

  function Round(w: World, t: Turn): (r: World)
    ensures |r.fleet| == |w.fleet|
  {
    var v := TickRound(w, t.draws);
    if t.status then World(v.fleet, v.alive && AllPrint(v.fleet)) else v
  }

  function Rounds(w: World, turns: seq<Turn>): (r: World)
    ensures |r.fleet| == |w.fleet|
    decreases |turns|
  {
    if turns == [] then w else Rounds(Round(w, turns[0]), turns[1..])
  }

  /** A round whose first `n` devices have ticked, all of them without error but perhaps the last. */
  lemma RoundIs(before: seq<Fan>, after: seq<Fan>, draws: Draws, n: nat, ok: bool)
    requires |after| == |before| && n <= |before| && (ok ==> n == |before|) && (!ok ==> n > 0)
    requires forall k :: 0 <= k < n ==> Run(after[k], ok || k + 1 < n) == TickEach(before, draws)[k]
    requires forall k :: n <= k < |before| ==> after[k] == before[k]
    ensures World(after, ok) == TickRound(World(before, true), draws)
  {
    hide Tick;
    var rs := TickEach(before, draws);
    if !ok {
      assert !rs[n - 1].ok;
    }
    assert Reached(rs) == n;
    assert after == TickRound(World(before, true), draws).fleet;
  }

  /** A round leaves a fan alone or ticks it once. */
  lemma RoundTo(w: World, t: Turn, k: nat)
    requires k < |w.fleet|
    ensures Round(w, t).fleet[k] == w.fleet[k]
         || (k < |t.draws| && Round(w, t).fleet[k] == Tick(w.fleet[k], t.draws[k]).fan)
  {
    hide Tick;
  }

  lemma {:induction false} ReachedExactly(rs: seq<Run>, k: nat)
    requires k < |rs|
    ensures k < Reached(rs) <==> forall j :: 0 <= j < k ==> rs[j].ok
    ensures Reached(rs) == 0 || rs[Reached(rs) - 1].ok <==> forall j :: 0 <= j < |rs| ==> rs[j].ok
    decreases |rs|
  {
    assert forall j :: 0 < j < |rs| ==> rs[j] == rs[1..][j - 1];
    if rs[0].ok && |rs| > 1 {
      ReachedExactly(rs[1..], if k > 0 then k - 1 else 0);
      assert rs[0].ok && (forall j :: 0 <= j < |rs[1..]| ==> rs[1..][j].ok) ==> forall j :: 0 <= j < |rs| ==> rs[j].ok;
      assert forall j :: 0 <= j < |rs[1..]| ==> rs[1..][j] == rs[j + 1];
    }
  }

  lemma TickRoundExactly(w: World, draws: Draws, k: nat)
    requires k < |w.fleet|
    ensures var rs := TickEach(w.fleet, draws);
            && TickRound(w, draws).fleet[k]
               == (if w.alive && (forall j :: 0 <= j < k ==> rs[j].ok) then rs[k].fan else w.fleet[k])
            && (TickRound(w, draws).alive <==> w.alive && forall j :: 0 <= j < |rs| ==> rs[j].ok)
  {
    ReachedExactly(TickEach(w.fleet, draws), k);
    hide Tick, Reached;
  }

  /**
   * A pass ticks a device exactly when the loop runs and every device before it has ticked without error, and
   * the loop goes on exactly when all did and every status line that is due can be printed.
   */
  lemma RoundExactly(w: World, t: Turn, k: nat)
    requires k < |w.fleet|
    ensures var rs := TickEach(w.fleet, t.draws);
            && Round(w, t).fleet[k]
               == (if w.alive && (forall j :: 0 <= j < k ==> rs[j].ok) then rs[k].fan else w.fleet[k])
            && (Round(w, t).alive
                <==> w.alive && (forall j :: 0 <= j < |rs| ==> rs[j].ok)
                     && (t.status ==> forall j :: 0 <= j < |rs| ==> PrintsStatus(Round(w, t).fleet[j])))
  {
    TickRoundExactly(w, t.draws, k);
    hide TickRound, TickEach, PrintsStatus;
  }

  /** One device whose tick raises ends the loop. */
  lemma RaiseEndsLoop(w: World, t: Turn, k: nat)
    requires k < |w.fleet| && k < |t.draws| && !Tick(w.fleet[k], t.draws[k]).ok
    ensures !Round(w, t).alive
  {
    hide Tick;
    assert !TickEach(w.fleet, t.draws)[k].ok;
  }

  /** So does one device whose status line cannot be printed, as soon as status lines are due. */
  lemma NoStatusEndsLoop(w: World, t: Turn, k: nat)
    requires k < |w.fleet| && t.status && !PrintsStatus(Round(w, t).fleet[k])
    ensures !Round(w, t).alive
  {
    hide TickRound, PrintsStatus;
  }

  // ---------------------------------------------------------------------------
  // What a tick touches
  // ---------------------------------------------------------------------------

  predicate TickWrites(c: Code) {
    c in {FAN1_SPEED, FAN2_SPEED, CURRENT_HUMIDITY, HUMIDITY_STATUS, RTC_TIME, RTC_CALENDAR, MACHINE_HOURS}
  }

  /** The same identity, and the same value for every parameter a tick does not write. */
  ghost predicate SameBesidesTicks(f: Fan, g: Fan) {
    && f.index == g.index && f.id == g.id && f.unitType == g.unitType
    && forall c: Code :: !TickWrites(c) ==>
         (c in f.state <==> c in g.state) && (c in f.state ==> f.state[c] == g.state[c])
  }

  lemma TickTouches(f: Fan, t: TickInput)
    ensures SameBesidesTicks(f, Tick(f, t).fan)
  {
    hide RtcTime, RtcCalendar, ToBytes, Ramp, ClampHumidity, Targets;
  }

  lemma RoundTouches(w: World, t: Turn, k: nat)
    requires k < |w.fleet|
    ensures SameBesidesTicks(w.fleet[k], Round(w, t).fleet[k])
  {
    RoundTo(w, t, k);
    hide Tick, Round;
    if k < |t.draws| {
      TickTouches(w.fleet[k], t.draws[k]);
    }
  }

  /** However many rounds pass, every fan keeps its identity and all that ticks do not write. */
  lemma {:induction false} RoundsTouch(w: World, turns: seq<Turn>, k: nat)
    requires k < |w.fleet|
    ensures SameBesidesTicks(w.fleet[k], Rounds(w, turns).fleet[k])
    decreases |turns|
  {
    hide Round;
    if turns != [] {
      RoundTouches(w, turns[0], k);
      RoundsTouch(Round(w, turns[0]), turns[1..], k);
    }
  }

  lemma RoundKeepsSound(w: World, t: Turn)
    requires SoundFleet(w.fleet)
    ensures SoundFleet(Round(w, t).fleet)
  {
    hide Tick, SoundFan, Round;
    forall k | 0 <= k < |w.fleet|
      ensures SoundFan(Round(w, t).fleet[k])
    {
      RoundTo(w, t, k);
      if k < |t.draws| {
        TickKeepsSound(w.fleet[k], t.draws[k]);
      }
    }
  }

  // ---------------------------------------------------------------------------
  // When a tick raises
  // ---------------------------------------------------------------------------

  /** A speed after one step of its ramp. */
  function NextSpeed(f: Fan, rpm: real, target: real, t: TickInput, jitter: real): real
    requires HasByte(f, POWER)
  {
    Ramp(rpm, target, t.dt, f.state[POWER][0] != 0, jitter)
  }

  /**
   * A tick succeeds exactly when power, speed, manual speed and humidity threshold hold a byte each, both
   * new speeds pack into two bytes, and so do the days of uptime.
   */
  lemma TickRaisesExactly(f: Fan, t: TickInput)
    ensures Tick(f, t).ok
       <==> (HasByte(f, POWER) && HasByte(f, SPEED) && HasByte(f, MANUAL_SPEED) && HasByte(f, HUMIDITY_THRESHOLD)
             && t.uptime / 86400 < 0x10000
             && (var targets := Targets(f.state[POWER][0], f.state[SPEED][0], f.state[MANUAL_SPEED][0]);
                 && NextSpeed(f, f.rpm1, targets.0, t, t.jitter1) < 65536.0
                 && NextSpeed(f, f.rpm2, targets.1, t, t.jitter2) < 65536.0))
  {
    hide RtcTime, RtcCalendar, ToBytes, ClampHumidity, Targets;
    RampIsNotNegative();
    hide Ramp;
  }

  lemma RampIsNotNegative()
    ensures forall x, target, dt, spinning, jitter :: Ramp(x, target, dt, spinning, jitter) >= 0.0
  {
  }
}
