/** Closed forms and bounds for the simulated fan speeds over whole runs of ticks. */
module Ramp {
  import opened Params
  import opened FanSpec

  /** The part of a tick one fan speed depends on. */
  datatype Beat = Beat(dt: real, jitter: real)

  function RampRun(x: real, target: real, spinning: bool, bs: seq<Beat>): real
    decreases |bs|
  {
    if bs == [] then x
    else RampRun(FanSpec.Ramp(x, target, bs[0].dt, spinning, bs[0].jitter), target, spinning, bs[1..])
  }

  function Total(bs: seq<Beat>): real {
    if bs == [] then 0.0 else bs[0].dt + Total(bs[1..])
  }

  /** How far a speed can ramp in all these steps. */
  function Travel(bs: seq<Beat>): real { RAMP_RATE * Total(bs) }

  function TotalJitter(bs: seq<Beat>): real {
    if bs == [] then 0.0 else Abs(bs[0].jitter) + TotalJitter(bs[1..])
  }

  ghost predicate Forward(bs: seq<Beat>) { forall i :: 0 <= i < |bs| ==> bs[i].dt >= 0.0 }

  /** No jitter is applied: the fan does not spin, has target zero, or every draw is zero. */
  ghost predicate Quiet(target: real, spinning: bool, bs: seq<Beat>) {
    !spinning || target == 0.0 || forall i :: 0 <= i < |bs| ==> bs[i].jitter == 0.0
  }

  function MaxReal(a: real, b: real): real { if a >= b then a else b }

  /**
   * Without jitter the distance to a fixed target shrinks by 80 a second until it is zero, and the speed
   * stays on the side of the target it started on.
   */
  lemma {:induction false} RampApproaches(x: real, target: real, spinning: bool, bs: seq<Beat>)
    requires x >= 0.0 && target >= 0.0 && Forward(bs) && Quiet(target, spinning, bs)
    ensures var y := RampRun(x, target, spinning, bs);
            && Abs(target - y) == MaxReal(0.0, Abs(target - x) - Travel(bs))
            && (x >= target ==> y >= target) && (x <= target ==> y <= target)
    ensures Total(bs) >= 0.0
    decreases |bs|
  {
    if bs != [] {
      RampApproaches(FanSpec.Ramp(x, target, bs[0].dt, spinning, bs[0].jitter), target, spinning, bs[1..]);
    }
  }

  /** Speeds never go negative, whatever the jitter and the time steps. */
  lemma {:induction false} RampNeverNegative(x: real, target: real, spinning: bool, bs: seq<Beat>)
    requires x >= 0.0
    ensures RampRun(x, target, spinning, bs) >= 0.0
    decreases |bs|
  {
    if bs != [] {
      RampNeverNegative(FanSpec.Ramp(x, target, bs[0].dt, spinning, bs[0].jitter), target, spinning, bs[1..]);
    }
  }

  function Steadied(bs: seq<Beat>): (r: seq<Beat>)
    ensures |r| == |bs| && forall i :: 0 <= i < |bs| ==> r[i] == Beat(bs[i].dt, 0.0)
  {
    seq(|bs|, i requires 0 <= i < |bs| => Beat(bs[i].dt, 0.0))
  }

  lemma OneStepDrift(x: real, y: real, target: real, dt: real, spinning: bool, jitter: real)
    requires x >= 0.0 && y >= 0.0 && target >= 0.0 && dt >= 0.0
    ensures Abs(FanSpec.Ramp(x, target, dt, spinning, jitter) - FanSpec.Ramp(y, target, dt, spinning, 0.0))
         <= Abs(x - y) + Abs(jitter)
  {
  }

  /** Jitter never accumulates beyond its own total: the ramp pulls two speeds together, never apart. */
  lemma {:induction false} JitterDriftIsBounded(x: real, y: real, target: real, spinning: bool, bs: seq<Beat>)
    requires x >= 0.0 && y >= 0.0 && target >= 0.0 && Forward(bs)
    ensures Abs(RampRun(x, target, spinning, bs) - RampRun(y, target, spinning, Steadied(bs)))
         <= Abs(x - y) + TotalJitter(bs)
    decreases |bs|
  {
    if bs != [] {
      var b := bs[0];
      OneStepDrift(x, y, target, b.dt, spinning, b.jitter);
      assert Steadied(bs)[1..] == Steadied(bs[1..]);
      var x' := FanSpec.Ramp(x, target, b.dt, spinning, b.jitter);
      var y' := FanSpec.Ramp(y, target, b.dt, spinning, 0.0);
      JitterDriftIsBounded(x', y', target, spinning, bs[1..]);
    }
  }

  // ---------------------------------------------------------------------------
  // Whole fans
  // ---------------------------------------------------------------------------

  function RunTicks(f: Fan, ts: seq<TickInput>): Fan
    decreases |ts|
  {
    if ts == [] then f else RunTicks(Tick(f, ts[0]).fan, ts[1..])
  }

  function Beats1(ts: seq<TickInput>): (bs: seq<Beat>)
    ensures |bs| == |ts| && forall i :: 0 <= i < |ts| ==> bs[i] == Beat(ts[i].dt, ts[i].jitter1)
  {
    seq(|ts|, i requires 0 <= i < |ts| => Beat(ts[i].dt, ts[i].jitter1))
  }

  function Beats2(ts: seq<TickInput>): (bs: seq<Beat>)
    ensures |bs| == |ts| && forall i :: 0 <= i < |ts| ==> bs[i] == Beat(ts[i].dt, ts[i].jitter2)
  {
    seq(|ts|, i requires 0 <= i < |ts| => Beat(ts[i].dt, ts[i].jitter2))
  }

  /** The bytes the fan speeds depend on. */
  predicate HasControls(f: Fan) { HasByte(f, POWER) && HasByte(f, SPEED) && HasByte(f, MANUAL_SPEED) }

  predicate SameControls(f: Fan, g: Fan) {
    && HasControls(f) && HasControls(g)
    && f.state[POWER] == g.state[POWER] && f.state[SPEED] == g.state[SPEED]
    && f.state[MANUAL_SPEED] == g.state[MANUAL_SPEED]
  }

  function TargetsOf(f: Fan): (real, real)
    requires HasControls(f)
  {
    Targets(f.state[POWER][0], f.state[SPEED][0], f.state[MANUAL_SPEED][0])
  }

  predicate Spinning(f: Fan)
    requires HasControls(f)
  {
    f.state[POWER][0] != 0
  }

  lemma TickRamps(f: Fan, t: TickInput)
    requires HasControls(f)
    ensures var g := Tick(f, t).fan;
            && SameControls(f, g)
            && g.rpm1 == FanSpec.Ramp(f.rpm1, TargetsOf(f).0, t.dt, Spinning(f), t.jitter1)
            && g.rpm2 == FanSpec.Ramp(f.rpm2, TargetsOf(f).1, t.dt, Spinning(f), t.jitter2)
  {
  }

  /** Over any run of ticks, completed or cut short by an error, both speeds follow their ramps. */
  lemma {:induction false} TicksFollowRamps(f: Fan, ts: seq<TickInput>)
    requires HasControls(f)
    ensures var g := RunTicks(f, ts);
            && SameControls(f, g)
            && g.rpm1 == RampRun(f.rpm1, TargetsOf(f).0, Spinning(f), Beats1(ts))
            && g.rpm2 == RampRun(f.rpm2, TargetsOf(f).1, Spinning(f), Beats2(ts))
    decreases |ts|
  {
    hide Tick, FanSpec.Ramp, Targets;
    if ts != [] {
      TickRamps(f, ts[0]);
      TicksFollowRamps(Tick(f, ts[0]).fan, ts[1..]);
      assert Beats1(ts)[1..] == Beats1(ts[1..]) && Beats2(ts)[1..] == Beats2(ts[1..]);
    }
  }

  lemma {:induction false} TotalsAgree(a: seq<Beat>, b: seq<Beat>)
    requires |a| == |b| && forall i :: 0 <= i < |a| ==> a[i].dt == b[i].dt
    ensures Total(a) == Total(b)
    decreases |a|
  {
    if a != [] {
      TotalsAgree(a[1..], b[1..]);
    }
  }

  /** A fan switched off spins down by 80 a second and stops, whatever is drawn as jitter. */
  lemma SpinsDown(f: Fan, ts: seq<TickInput>)
    requires HasControls(f) && !Spinning(f) && f.rpm1 >= 0.0 && f.rpm2 >= 0.0
    requires Forward(Beats1(ts))
    ensures var g := RunTicks(f, ts);
            && g.rpm1 == MaxReal(0.0, f.rpm1 - Travel(Beats1(ts)))
            && g.rpm2 == MaxReal(0.0, f.rpm2 - Travel(Beats1(ts)))
  {
    hide *;
    TicksFollowRamps(f, ts);
    SameBeats(ts);
    TargetsWhenOff(f);
    ToZero(f.rpm1, Beats1(ts));
    ToZero(f.rpm2, Beats2(ts));
  }

  lemma SameBeats(ts: seq<TickInput>)
    ensures Forward(Beats1(ts)) == Forward(Beats2(ts)) && Travel(Beats1(ts)) == Travel(Beats2(ts))
  {
    TotalsAgree(Beats1(ts), Beats2(ts));
    assert forall i :: 0 <= i < |ts| ==> Beats1(ts)[i].dt == Beats2(ts)[i].dt;
  }

  lemma TargetsWhenOff(f: Fan)
    requires HasControls(f) && !Spinning(f)
    ensures TargetsOf(f) == (0.0, 0.0)
  {
  }

  lemma ToZero(x: real, bs: seq<Beat>)
    requires x >= 0.0 && Forward(bs)
    ensures RampRun(x, 0.0, false, bs) == MaxReal(0.0, x - Travel(bs))
  {
    RampApproaches(x, 0.0, false, bs);
    hide FanSpec.Ramp, RampRun, Total, Forward;
  }

  lemma StaysNear(x: real, target: real, spinning: bool, bs: seq<Beat>)
    requires x >= 0.0 && target >= 0.0 && Forward(bs)
    ensures Abs(target - RampRun(x, target, spinning, bs))
         <= MaxReal(0.0, Abs(target - x) - Travel(bs)) + TotalJitter(bs)
  {
    JitterDriftIsBounded(x, x, target, spinning, bs);
    RampApproaches(x, target, spinning, Steadied(bs));
    TotalsAgree(bs, Steadied(bs));
    hide FanSpec.Ramp, RampRun, Total, TotalJitter, Forward, Steadied;
  }

  lemma TargetsAreNotNegative(f: Fan)
    requires HasControls(f)
    ensures TargetsOf(f).0 >= 0.0 && TargetsOf(f).1 >= 0.0
  {
  }

  /**
   * A fan left running under fixed controls never runs backwards and stays within the total jitter of its
   * jitter-free approach to the target.
   */
  lemma RunsNearTarget(f: Fan, ts: seq<TickInput>)
    requires HasControls(f) && f.rpm1 >= 0.0 && f.rpm2 >= 0.0 && Forward(Beats1(ts))
    ensures var g := RunTicks(f, ts);
            && g.rpm1 >= 0.0 && g.rpm2 >= 0.0
            && Abs(TargetsOf(f).0 - g.rpm1)
               <= MaxReal(0.0, Abs(TargetsOf(f).0 - f.rpm1) - Travel(Beats1(ts))) + TotalJitter(Beats1(ts))
            && Abs(TargetsOf(f).1 - g.rpm2)
               <= MaxReal(0.0, Abs(TargetsOf(f).1 - f.rpm2) - Travel(Beats1(ts))) + TotalJitter(Beats2(ts))
  {
    hide *;
    TargetsAreNotNegative(f);
    TicksFollowRamps(f, ts);
    SameBeats(ts);
    StaysNear(f.rpm1, TargetsOf(f).0, Spinning(f), Beats1(ts));
    StaysNear(f.rpm2, TargetsOf(f).1, Spinning(f), Beats2(ts));
    RampNeverNegative(f.rpm1, TargetsOf(f).0, Spinning(f), Beats1(ts));
    RampNeverNegative(f.rpm2, TargetsOf(f).1, Spinning(f), Beats2(ts));
  }
}
