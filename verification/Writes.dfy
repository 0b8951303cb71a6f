/** What the writes of one packet do to a fan, parameter by parameter. */
module Writes {
  import opened Basics
  import opened Params
  import opened Decoders
  import opened FanSpec

  /** Whether the write `e` decides the value of parameter `c`. */
  predicate Decides(e: Entry, c: Code) {
    if e.code == FILTER_RESET then c == FILTER_COUNTDOWN || c == FILTER_INDICATOR
    else if e.code == RESET_ALARMS then c == ALARM_STATUS
    else e.code == c && IsParam(c)
  }

  /** The power a toggle leaves behind. */
  function Toggled(state: map<Code, Bytes>): Bytes {
    if POWER in state && state[POWER] != [] && state[POWER][0] != 0 then [0] else [1]
  }

  /** The value the deciding write `e` gives `c` on a fan that held `state` before the packet. */
  function ValueGiven(e: Entry, c: Code, state: map<Code, Bytes>): Bytes {
    if e.code == FILTER_RESET then (if c == FILTER_COUNTDOWN then FRESH_FILTER else [0])
    else if e.code == RESET_ALARMS then [0]
    else if e == Entry(POWER, [2]) then Toggled(state)
    else e.value
  }

  /** The last write of the packet that decides `c`. */
  function LastDecider(d: seq<Entry>, c: Code): Option<Entry> {
    if d == [] then None
    else if Decides(d[|d| - 1], c) then Some(d[|d| - 1])
    else LastDecider(d[..|d| - 1], c)
  }

  /** The state after the writes `d`, each parameter told from the prior state and its last deciding write. */
  function Written(state: map<Code, Bytes>, d: seq<Entry>): map<Code, Bytes> {
    map c: int | 0 <= c < 0x10000 && (c in state || LastDecider(d, c).Some?) ::
      if LastDecider(d, c).Some? then ValueGiven(LastDecider(d, c).value, c, state) else state[c]
  }

  /** A toggle of a power value without bytes raises, and only that does. */
  predicate Raises(e: Entry, state: map<Code, Bytes>) {
    e == Entry(POWER, [2]) && POWER in state && state[POWER] == []
  }

  /** The writes that take effect: all of them, or those before the one that raises. */
  function Effective(state: map<Code, Bytes>, d: seq<Entry>): seq<Entry>
    decreases |d|
  {
    if d == [] then []
    else if Raises(d[0], state) then []
    else [d[0]] + Effective(state, d[1..])
  }

  /** The fan after `done` has been written on top of `f`. */
  function After(f: Fan, done: seq<Entry>): Fan { f.(state := Written(f.state, done)) }

  lemma WrittenNothing(f: Fan)
    ensures After(f, []) == f
  {
  }

  lemma LastDeciderSnoc(done: seq<Entry>, e: Entry, c: Code)
    ensures LastDecider(done + [e], c) == if Decides(e, c) then Some(e) else LastDecider(done, c)
  {
  }

  lemma {:induction false} LastDeciderMem(d: seq<Entry>, c: Code)
    ensures var r := LastDecider(d, c); r.Some? ==> Decides(r.value, c) && r.value in d
    ensures LastDecider(d, c).None? ==> forall e :: e in d ==> !Decides(e, c)
    decreases |d|
  {
    if d != [] {
      LastDeciderMem(d[..|d| - 1], c);
      assert d == d[..|d| - 1] + [d[|d| - 1]];
    }
  }

  /** One more write on a fan that has had the writes `done` of the same packet. */
  lemma WriteOneStep(f: Fan, done: seq<Entry>, e: Entry)
    requires !HasCode(done, e.code)
    ensures WriteOne(After(f, done), e)
         == if Raises(e, f.state) then Run(After(f, done), false) else Run(After(f, done + [e]), true)
  {
    hide LastDecider;
    forall c: Code
      ensures LastDecider(done + [e], c) == if Decides(e, c) then Some(e) else LastDecider(done, c)
    {
      LastDeciderSnoc(done, e, c);
    }
    var g, h := After(f, done), After(f, done + [e]);
    if e.code == POWER {
      PowerUntouched(done, f);
      assert (POWER in g.state) == (POWER in f.state) && (POWER in f.state ==> g.state[POWER] == f.state[POWER]);
      if !Raises(e, f.state) {
        assert h.state == g.state[POWER := ValueGiven(e, POWER, f.state)];
      }
    } else if e.code == FILTER_RESET {
      assert h.state == g.state[FILTER_COUNTDOWN := FRESH_FILTER][FILTER_INDICATOR := [0]];
    } else if e.code == RESET_ALARMS {
      assert h.state == g.state[ALARM_STATUS := [0]];
    } else if IsParam(e.code) {
      assert h.state == g.state[e.code := e.value];
    } else {
      assert h.state == g.state;
    }
  }

  lemma PowerUntouched(done: seq<Entry>, f: Fan)
    requires !HasCode(done, POWER)
    ensures LastDecider(done, POWER).None?
  {
  }

  /** Writing a packet's dictionary is the pointwise update by its effective writes. */
  lemma {:induction false} WriteAllSteps(f: Fan, done: seq<Entry>, d: seq<Entry>)
    requires DistinctCodes(done + d)
    ensures var eff := Effective(f.state, d);
            WriteAll(After(f, done), d) == Run(After(f, done + eff), |eff| == |d|)
    decreases |d|
  {
    hide After, WriteOne, HasCode, Raises, DistinctCodes;
    if d == [] {
      assert done + [] == done;
    } else {
      NextIsNew(done, d);
      WriteOneStep(f, done, d[0]);
      if Raises(d[0], f.state) {
        assert done + [] == done;
      } else {
        WriteAllSteps(f, done + [d[0]], d[1..]);
        var eff := Effective(f.state, d[1..]);
        assert (done + [d[0]]) + eff == done + ([d[0]] + eff);
      }
    }
  }

  lemma NextIsNew(done: seq<Entry>, d: seq<Entry>)
    requires d != [] && DistinctCodes(done + d)
    ensures !HasCode(done, d[0].code) && DistinctCodes((done + [d[0]]) + d[1..])
  {
    assert (done + d)[|done|] == d[0];
    forall i | 0 <= i < |done|
      ensures done[i].code != d[0].code
    {
      assert (done + d)[i] == done[i];
    }
    assert (done + [d[0]]) + d[1..] == done + d;
  }

  /** Each parameter takes the value of the last effective write that decides it; a raise cuts the rest off. */
  lemma WriteAllIsPointwise(f: Fan, d: seq<Entry>)
    requires DistinctCodes(d)
    ensures var eff := Effective(f.state, d); WriteAll(f, d) == Run(After(f, eff), |eff| == |d|)
  {
    WrittenNothing(f);
    assert [] + d == d;
    WriteAllSteps(f, [], d);
    assert [] + Effective(f.state, d) == Effective(f.state, d);
  }

  /**
   * Every write-carrying packet changes a fan exactly so: a factory reset leaves the fresh fan. Otherwise
   * each parameter takes the value of the last write that decides it and all others stay; a toggle that
   * raises cuts the packet short.
   */
  lemma WritesArePointwise(f: Fan, d: seq<Entry>, now: Now)
    requires DistinctCodes(d)
    ensures ApplyWrites(f, d, now)
         == if HasCode(d, FACTORY_RESET) then Run(NewFan(f.index, f.id, f.unitType, now), true)
            else var eff := Effective(f.state, d); Run(After(f, eff), |eff| == |d|)
  {
    hide WriteAll, After, Effective, NewFan, HasCode;
    WriteAllIsPointwise(f, d);
  }

  // ---------------------------------------------------------------------------
  // Order of the writes in one packet
  // ---------------------------------------------------------------------------

  ghost predicate Permutes(d: seq<Entry>, d': seq<Entry>) {
    && DistinctCodes(d) && DistinctCodes(d') && |d| == |d'|
    && forall e :: e in d <==> e in d'
  }

  ghost predicate NoneRaises(state: map<Code, Bytes>, d: seq<Entry>) {
    forall e :: e in d ==> !Raises(e, state)
  }

  /** Any two writes that decide the same parameter give it the same value. */
  ghost predicate OrderFree(state: map<Code, Bytes>, d: seq<Entry>) {
    forall e, e', c: Code :: e in d && e' in d && Decides(e, c) && Decides(e', c) ==>
      ValueGiven(e, c, state) == ValueGiven(e', c, state)
  }

  /** No reset is combined with a write of a parameter it resets. */
  ghost predicate NoResetConflict(d: seq<Entry>) {
    && !(HasCode(d, FILTER_RESET) && (HasCode(d, FILTER_COUNTDOWN) || HasCode(d, FILTER_INDICATOR)))
    && !(HasCode(d, RESET_ALARMS) && HasCode(d, ALARM_STATUS))
  }

  lemma {:induction false} AllEffective(state: map<Code, Bytes>, d: seq<Entry>)
    requires NoneRaises(state, d)
    ensures Effective(state, d) == d
    decreases |d|
  {
    if d != [] {
      assert d[0] in d;
      AllEffective(state, d[1..]);
      assert d == [d[0]] + d[1..];
    }
  }

  lemma WrittenAt(state: map<Code, Bytes>, d: seq<Entry>, d': seq<Entry>, c: Code)
    requires OrderFree(state, d) && forall e :: e in d <==> e in d'
    ensures LastDecider(d, c).Some? == LastDecider(d', c).Some?
    ensures LastDecider(d, c).Some? ==>
      ValueGiven(LastDecider(d, c).value, c, state) == ValueGiven(LastDecider(d', c).value, c, state)
  {
    hide LastDecider, Decides, ValueGiven;
    LastDeciderMem(d, c);
    LastDeciderMem(d', c);
  }

  lemma OrderIsIrrelevant(f: Fan, d: seq<Entry>, d': seq<Entry>)
    requires Permutes(d, d') && NoneRaises(f.state, d) && OrderFree(f.state, d)
    ensures WriteAll(f, d) == WriteAll(f, d')
  {
    WriteAllIsPointwise(f, d);
    WriteAllIsPointwise(f, d');
    AllEffective(f.state, d);
    AllEffective(f.state, d');
    hide LastDecider, ValueGiven;
    forall c: Code
      ensures LastDecider(d, c).Some? == LastDecider(d', c).Some?
      ensures LastDecider(d, c).Some? ==>
        ValueGiven(LastDecider(d, c).value, c, f.state) == ValueGiven(LastDecider(d', c).value, c, f.state)
    {
      WrittenAt(f.state, d, d', c);
    }
    assert Written(f.state, d) == Written(f.state, d');
  }

  function MovedLast(d: seq<Entry>, i: nat): seq<Entry>
    requires i < |d|
  {
    d[..i] + d[i + 1..] + [d[i]]
  }

  lemma MovedLastPermutes(d: seq<Entry>, i: nat)
    requires i < |d| && DistinctCodes(d)
    ensures Permutes(d, MovedLast(d, i))
  {
  }

  lemma WriteMovedLast(f: Fan, d: seq<Entry>, i: nat, c: Code)
    requires i < |d| && DistinctCodes(d) && NoneRaises(f.state, d) && Decides(d[i], c)
    ensures var after := WriteAll(f, MovedLast(d, i)).fan.state;
            c in after && after[c] == ValueGiven(d[i], c, f.state)
  {
    var m := MovedLast(d, i);
    MovedLastPermutes(d, i);
    WriteAllIsPointwise(f, m);
    AllEffective(f.state, m);
    LastDeciderSnoc(d[..i] + d[i + 1..], d[i], c);
  }

  lemma ConflictShows(f: Fan, d: seq<Entry>)
    requires DistinctCodes(d) && NoneRaises(f.state, d) && !OrderFree(f.state, d)
    ensures exists d' :: Permutes(d, d') && WriteAll(f, d') != WriteAll(f, d)
  {
    var e, e', c: Code :| e in d && e' in d && Decides(e, c) && Decides(e', c)
      && ValueGiven(e, c, f.state) != ValueGiven(e', c, f.state);
    var i :| 0 <= i < |d| && d[i] == e;
    var j :| 0 <= j < |d| && d[j] == e';
    MovedLastPermutes(d, i);
    MovedLastPermutes(d, j);
    WriteMovedLast(f, d, i, c);
    WriteMovedLast(f, d, j, c);
    assert WriteAll(f, MovedLast(d, i)) != WriteAll(f, MovedLast(d, j));
  }

  // ---------------------------------------------------------------------------
  // A toggle that raises
  // ---------------------------------------------------------------------------

  /** A write that leaves every parameter it decides as it is. */
  ghost predicate Idle(e: Entry, state: map<Code, Bytes>) {
    forall c: Code :: Decides(e, c) ==> c in state && state[c] == ValueGiven(e, c, state)
  }

  /** All writes but the raising toggle are idle. */
  ghost predicate OthersIdle(state: map<Code, Bytes>, d: seq<Entry>) {
    forall e :: e in d && !Raises(e, state) ==> Idle(e, state)
  }

  lemma {:induction false} EffectiveStops(state: map<Code, Bytes>, d: seq<Entry>)
    ensures forall e :: e in Effective(state, d) ==> e in d && !Raises(e, state)
    ensures !NoneRaises(state, d) ==> |Effective(state, d)| < |d|
    decreases |d|
  {
    if d != [] {
      EffectiveStops(state, d[1..]);
      assert d == [d[0]] + d[1..];
    }
  }

  /** When the others are idle, the toggle raises and nothing changes, wherever it stands. */
  lemma IdleBeforeRaise(f: Fan, d: seq<Entry>)
    requires DistinctCodes(d) && !NoneRaises(f.state, d) && OthersIdle(f.state, d)
    ensures WriteAll(f, d) == Run(f, false)
  {
    var eff := Effective(f.state, d);
    WriteAllIsPointwise(f, d);
    EffectiveStops(f.state, d);
    hide LastDecider, Effective, Decides, ValueGiven, Raises;
    forall c: Code
      ensures LastDecider(eff, c).Some? ==>
        c in f.state && f.state[c] == ValueGiven(LastDecider(eff, c).value, c, f.state)
    {
      LastDeciderMem(eff, c);
    }
    assert Written(f.state, eff) == f.state;
  }

  function MovedFirst(d: seq<Entry>, i: nat): seq<Entry>
    requires i < |d|
  {
    [d[i]] + d[..i] + d[i + 1..]
  }

  lemma MovedFirstPermutes(d: seq<Entry>, i: nat)
    requires i < |d| && DistinctCodes(d)
    ensures Permutes(d, MovedFirst(d, i))
  {
  }

  lemma RaiseFirst(f: Fan, d: seq<Entry>)
    requires DistinctCodes(d) && d != [] && Raises(d[0], f.state)
    ensures WriteAll(f, d) == Run(f, false)
  {
    WriteAllIsPointwise(f, d);
    WrittenNothing(f);
  }

  lemma RaiseSecond(f: Fan, d: seq<Entry>)
    requires DistinctCodes(d) && |d| > 1 && !Raises(d[0], f.state) && Raises(d[1], f.state)
    ensures WriteAll(f, d) == Run(After(f, [d[0]]), false)
  {
    WriteAllIsPointwise(f, d);
    assert d[1..][0] == d[1];
    assert Effective(f.state, d) == [d[0]];
  }

  /** A write that is not idle shows when it moves past the raising toggle. */
  lemma RaiseShows(f: Fan, d: seq<Entry>)
    requires DistinctCodes(d) && !NoneRaises(f.state, d) && !OthersIdle(f.state, d)
    ensures exists d' :: Permutes(d, d') && WriteAll(f, d') != WriteAll(f, d)
  {
    var r :| r in d && Raises(r, f.state);
    var e :| e in d && !Raises(e, f.state) && !Idle(e, f.state);
    var i :| 0 <= i < |d| && d[i] == r;
    MovedFirstPermutes(d, i);
    var p := MovedFirst(d, i);
    var j :| 0 <= j < |p| && p[j] == e;
    MovedFirstPermutes(p, j);
    var q := MovedFirst(p, j);
    assert p[0] == r && q[0] == e && q[1] == r;
    hide Raises, MovedFirst, DistinctCodes;
    assert Permutes(d, q);
    RaiseFirst(f, p);
    RaiseSecond(f, q);
    NotIdleChanges(f, e);
    assert WriteAll(f, p) != WriteAll(f, q);
  }

  lemma NotIdleChanges(f: Fan, e: Entry)
    requires !Idle(e, f.state)
    ensures After(f, [e]) != f
  {
    var c: Code :| Decides(e, c) && !(c in f.state && f.state[c] == ValueGiven(e, c, f.state));
    assert LastDecider([e], c) == Some(e);
    hide LastDecider;
    assert c in After(f, [e]).state && After(f, [e]).state[c] == ValueGiven(e, c, f.state);
  }

  // ---------------------------------------------------------------------------
  // When the order matters
  // ---------------------------------------------------------------------------

  /** No two writes decide one parameter differently; beside a raising toggle, no write changes anything. */
  ghost predicate Orderless(state: map<Code, Bytes>, d: seq<Entry>) {
    if NoneRaises(state, d) then OrderFree(state, d) else OthersIdle(state, d)
  }

  lemma OrderlessIsFixed(f: Fan, d: seq<Entry>, d': seq<Entry>)
    requires Permutes(d, d') && Orderless(f.state, d)
    ensures WriteAll(f, d') == WriteAll(f, d)
  {
    if NoneRaises(f.state, d) {
      OrderIsIrrelevant(f, d, d');
    } else {
      IdleBeforeRaise(f, d);
      IdleBeforeRaise(f, d');
    }
  }

  lemma SameCodes(d: seq<Entry>, d': seq<Entry>, c: Code)
    requires Permutes(d, d')
    ensures HasCode(d', c) == HasCode(d, c)
  {
    if i :| 0 <= i < |d| && d[i].code == c {
      assert d[i] in d';
    }
    if i :| 0 <= i < |d'| && d'[i].code == c {
      assert d'[i] in d;
    }
  }

  /**
   * The order of one packet's writes never matters exactly when the packet resets the fan, or no two of
   * its writes give one parameter different values and, beside a toggle that raises, no write changes
   * anything at all.
   */
  lemma OrderMattersExactly(f: Fan, d: seq<Entry>, now: Now)
    requires DistinctCodes(d)
    ensures (forall d' | Permutes(d, d') :: ApplyWrites(f, d', now) == ApplyWrites(f, d, now))
       <==> (HasCode(d, FACTORY_RESET) || Orderless(f.state, d))
  {
    hide WriteAll, OrderFree, OthersIdle, DistinctCodes, NewFan, HasCode;
    forall d' | Permutes(d, d')
      ensures HasCode(d', FACTORY_RESET) == HasCode(d, FACTORY_RESET)
      ensures Orderless(f.state, d) ==> WriteAll(f, d') == WriteAll(f, d)
    {
      SameCodes(d, d', FACTORY_RESET);
      if Orderless(f.state, d) {
        OrderlessIsFixed(f, d, d');
      }
    }
    if !Orderless(f.state, d) {
      if NoneRaises(f.state, d) {
        ConflictShows(f, d);
      } else {
        RaiseShows(f, d);
      }
    }
  }

  /**
   * Without a reset beside a parameter it resets, every order of the writes gives the same fan, unless a
   * toggle raises while another write would change something.
   */
  lemma OrderFreeWithoutConflict(f: Fan, d: seq<Entry>, d': seq<Entry>, now: Now)
    requires Permutes(d, d') && NoResetConflict(d)
    requires NoneRaises(f.state, d) || OthersIdle(f.state, d)
    ensures ApplyWrites(f, d', now) == ApplyWrites(f, d, now)
  {
    hide WriteAll, HasCode, NewFan, OthersIdle;
    SameCodes(d, d', FACTORY_RESET);
    NoConflictIsOrderFree(f.state, d);
    OrderlessIsFixed(f, d, d');
  }

  lemma NoConflictIsOrderFree(state: map<Code, Bytes>, d: seq<Entry>)
    requires DistinctCodes(d) && NoResetConflict(d)
    ensures OrderFree(state, d)
  {
  }

  /** A toggle of an empty power value beside another write: the order shows though no reset is involved. */
  lemma RaisingOrderShows(f: Fan, now: Now)
    requires POWER in f.state && f.state[POWER] == [] && BOOST_STATUS in f.state && f.state[BOOST_STATUS] == [0]
    ensures var d := [Entry(POWER, [2]), Entry(BOOST_STATUS, [1])];
            NoResetConflict(d) && ApplyWrites(f, [d[1], d[0]], now) != ApplyWrites(f, d, now)
  {
    var d := [Entry(POWER, [2]), Entry(BOOST_STATUS, [1])];
    RaiseFirst(f, d);
    RaiseSecond(f, [d[1], d[0]]);
    assert !Idle(d[1], f.state) by {
      assert Decides(d[1], BOOST_STATUS);
    }
    NotIdleChanges(f, d[1]);
    hide WriteAll;
  }

  /** A write list that repeats no parameter is its own dictionary. */
  lemma {:induction false} DictOfDistinct(es: seq<Entry>)
    requires DistinctCodes(es)
    ensures DictOf(es) == es
    decreases |es|
  {
    if es != [] {
      var n := |es| - 1;
      DictOfDistinct(es[..n]);
      PutNew(es[..n], es[n]);
      assert es == es[..n] + [es[n]];
    }
  }

  lemma {:induction false} PutNew(d: seq<Entry>, e: Entry)
    requires !HasCode(d, e.code)
    ensures Put(d, e) == d + [e]
    decreases |d|
  {
    if d != [] {
      assert d[0].code != e.code;
      forall i | 0 <= i < |d| - 1
        ensures d[1..][i].code != e.code
      {
        assert d[i + 1].code != e.code;
      }
      PutNew(d[1..], e);
      assert d == [d[0]] + d[1..];
    }
  }

  /** Any packet that writes the factory reset leaves exactly the initial fan, whatever else it writes and to what. */
  lemma FactoryResetWins(f: Fan, es: seq<Entry>, now: Now)
    requires HasCode(es, FACTORY_RESET)
    ensures ApplyWrites(f, DictOf(es), now) == Run(NewFan(f.index, f.id, f.unitType, now), true)
  {
    DictIsLastWins(es);
    LastWinsMem(es, FACTORY_RESET);
    LastWinsMem(DictOf(es), FACTORY_RESET);
  }
}
