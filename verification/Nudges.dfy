/** What one step up or down does to a parameter, told without the simulator's way of limiting it. */
module Nudges {
  import opened Basics
  import opened Params
  import opened Section
  import opened SectionLaws
  import opened FanSpec
  import opened Client
  import opened Values
  import Frame

  function Steps(p: Code, up: bool): Op { if up then Increment([p]) else Decrement([p]) }

  function Toward(n: int, up: bool): int { if up then n + 1 else n - 1 }

  /** A number that a row of the table allows: within its range, and between its least and greatest choice. */
  ghost predicate Within(meta: NudgeMeta, n: int) {
    && (meta.range.Some? ==> meta.range.value.0 <= n <= meta.range.value.1)
    && (meta.choices.Some? ==> meta.choices.value.0 <= n <= meta.choices.value.1)
  }

  /** A row that allows some number. */
  ghost predicate Allows(meta: NudgeMeta) { exists n :: Within(meta, n) }

  function Distance(a: int, b: int): int { if a <= b then b - a else a - b }

  /** The allowed number closest to the goal. */
  ghost predicate Nearest(meta: NudgeMeta, goal: int, n: int) {
    Within(meta, n) && forall k :: Within(meta, k) ==> Distance(goal, n) <= Distance(goal, k)
  }

  /** The width a stepped value is stored in. */
  function StoredWidth(meta: NudgeMeta): nat { if meta.size == 0 then 1 else meta.size }

  predicate Storable(meta: NudgeMeta, n: int) { 0 <= n < Pow256(StoredWidth(meta)) }

  lemma ClampIsNearest(meta: NudgeMeta, goal: int)
    requires Allows(meta)
    ensures Nearest(meta, goal, Clamp(meta.choices, Clamp(meta.range, goal)))
  {
    var n :| Within(meta, n);
  }

  lemma NearestIsUnique(meta: NudgeMeta, goal: int, a: int, b: int)
    requires Nearest(meta, goal, a) && Nearest(meta, goal, b)
    ensures a == b
  {
    // any number between two allowed ones is allowed
    var mid := (a + b) / 2;
    assert Within(meta, mid);
    assert Within(meta, mid + 1) || a == b;
  }

  /** The parameter `p` is one the client may step on the fan `f`. */
  ghost predicate Steppable(f: Fan, p: Code, table: NudgeTable) {
    IsParam(p) && p in f.state && p in table && Allows(table[p])
  }

  /** `g` is `f` but for the value of `p`, which it holds. */
  ghost predicate OnlyAt(f: Fan, g: Fan, p: Code) { p in g.state && g == f.(state := f.state[p := g.state[p]]) }

  /** The number a parameter holds. */
  function NumberIn(f: Fan, p: Code): nat
    requires p in f.state
  {
    FromBytes(f.state[p])
  }

  lemma OneNudge(f: Fan, p: Code, delta: int, table: NudgeTable)
    ensures NudgeAll(f, [p], delta, table) == Nudge(f, p, delta, table)
  {
    assert [p][1..] == [];
    var r := Nudge(f, p, delta, table);
    assert NudgeAll(f, [p], delta, table) == if r.ok then NudgeAll(r.fan, [], delta, table) else r;
  }

  lemma StoredNumber(n: nat, size: nat)
    requires n < Pow256(size)
    ensures FromBytes(ToBytes(n, size)) == n
  {
    IntRoundTrip(n, size);
  }

  /** A value of that width is the encoding of the number it denotes. */
  lemma {:induction false} BytesOfNumber(v: Bytes)
    ensures FromBytes(v) < Pow256(|v|) && ToBytes(FromBytes(v), |v|) == v
  {
    if v != [] {
      BytesOfNumber(v[1..]);
      assert FromBytes(v) % 256 == v[0] && FromBytes(v) / 256 == FromBytes(v[1..]);
      assert v == [v[0]] + v[1..];
    }
  }

  /** The bytes of an answer about one parameter. */
  function AnswerSize(p: Code, width: nat): nat {
    (if Page(p) == 0 then 0 else 2) + (if width == 1 then 2 else 3 + width)
  }

  lemma ToldOne(f: Fan, p: Code)
    requires p in f.state && |f.state[p]| < 256
    ensures Told(Run(f, true), [p])
         == if Frame.Fits(4, AnswerSize(p, |f.state[p]|)) then Ok(map[p := f.state[p]]) else Err(Connection)
  {
    var items := Answers([p], f.state);
    assert items == [Val(Entry(p, f.state[p]))];
    assert items[1..] == [];
    assert |EncodeItems(0, items)| == AnswerSize(p, |f.state[p]|);
    assert [p][..0] == [];
    assert Unheld([p], f.state) == [];
    assert Restricted([p], f.state) == map[p := f.state[p]];
    hide EncodeItems, Answers;
  }

  /**
   * A step moves the number a parameter holds by one, or to the nearest number its row allows; that number is
   * stored at the row's width and reported, and nothing else of the fan changes. A number that
   * does not fit the width raises: the fan stays as it is and the client hears nothing.
   */
  lemma StepMoves(c: Client, f: Fan, p: Code, up: bool, now: Now, table: NudgeTable, goal: int, n: int)
    requires Steppable(f, p, table) && SaneTable(table) && Sendable(c, Steps(p, up))
    requires goal == Toward(NumberIn(f, p), up) && Nearest(table[p], goal, n)
    ensures var d := Direct(c, Steps(p, up), f, now, table);
            if Storable(table[p], n) then
              && OnlyAt(f, d.fan, p)
              && |d.fan.state[p]| == StoredWidth(table[p]) && NumberIn(d.fan, p) == n
              && d.result == (if Frame.Fits(4, AnswerSize(p, StoredWidth(table[p]))) then Ok(map[p := d.fan.state[p]])
                              else Err(Connection))
            else d == Outcome(f, Err(Connection))
  {
    var delta := if up then 1 else -1;
    ClampIsNearest(table[p], goal);
    NearestIsUnique(table[p], goal, n, Clamp(table[p].choices, Clamp(table[p].range, goal)));
    OneNudge(f, p, delta, table);
    hide Nearest, Within, Allows, Clamp;
    if Storable(table[p], n) {
      StoredNumber(n, StoredWidth(table[p]));
      var g := f.Set(p, ToBytes(n, StoredWidth(table[p])));
      assert Nudge(f, p, delta, table) == Run(g, true);
      ToldOne(g, p);
    }
    hide Told, NudgeAll, Nudge, ToBytes, FromBytes;
  }

  /** A parameter the fan does not hold, or the table does not list, is reported and left alone. */
  lemma StepIgnored(c: Client, f: Fan, p: Code, up: bool, now: Now, table: NudgeTable)
    requires Sendable(c, Steps(p, up)) && (p !in f.state || p !in table)
    ensures Direct(c, Steps(p, up), f, now, table) == Outcome(f, Told(Run(f, true), [p]))
  {
    OneNudge(f, p, if up then 1 else -1, table);
    hide Told, NudgeAll;
  }

  // ---------------------------------------------------------------------------
  // Steps there and back
  // ---------------------------------------------------------------------------

  /** A row that allows some number, and only numbers that fit its width. */
  ghost predicate Fitted(meta: NudgeMeta) { Allows(meta) && forall n :: Within(meta, n) ==> Storable(meta, n) }

  /** Stepping from the nearest number to a goal beyond `v`, and back, ends at `v` only in these cases. */
  lemma ThereAndBack(meta: NudgeMeta, v: int, up: bool, n: int, m: int)
    requires Nearest(meta, Toward(v, up), n) && Nearest(meta, Toward(n, !up), m)
    ensures m == v <==> Within(meta, v) && (Within(meta, Toward(v, up)) || !Within(meta, Toward(v, !up)))
  {
    if Within(meta, Toward(v, up)) {
      assert n == Toward(v, up);
      if Within(meta, v) {
        assert Distance(v, m) <= Distance(v, v);
      }
    } else if Within(meta, v) {
      assert Distance(Toward(v, up), n) <= Distance(Toward(v, up), v);
      assert n == v by { NearestIsUnique(meta, Toward(v, up), n, v); }
      if Within(meta, Toward(v, !up)) {
        assert m == Toward(v, !up);
      }
    }
  }

  lemma SameBytes(v: Bytes, w: Bytes)
    requires |v| == |w| && FromBytes(v) == FromBytes(w)
    ensures v == w
  {
    BytesOfNumber(v);
    BytesOfNumber(w);
  }

  /**
   * A step and the opposite step restore the fan exactly when it held an allowed number at the row's width,
   * and that number was not at the limit the step went towards, or was the only one allowed.
   */
  lemma StepBackExactly(c: Client, f: Fan, p: Code, up: bool, now: Now, now': Now, table: NudgeTable)
    requires Steppable(f, p, table) && SaneTable(table) && Fitted(table[p])
    requires Sendable(c, Steps(p, up)) && Sendable(c, Steps(p, !up))
    ensures var there := Direct(c, Steps(p, up), f, now, table).fan;
            var v := NumberIn(f, p);
            Direct(c, Steps(p, !up), there, now', table).fan == f
            <==> |f.state[p]| == StoredWidth(table[p]) && Within(table[p], v)
                 && (Within(table[p], Toward(v, up)) || !Within(table[p], Toward(v, !up)))
  {
    var meta, v := table[p], NumberIn(f, p);
    var n := Clamp(meta.choices, Clamp(meta.range, Toward(v, up)));
    ClampIsNearest(meta, Toward(v, up));
    StepMoves(c, f, p, up, now, table, Toward(v, up), n);
    var there := Direct(c, Steps(p, up), f, now, table).fan;
    var m := Clamp(meta.choices, Clamp(meta.range, Toward(n, !up)));
    ClampIsNearest(meta, Toward(n, !up));
    assert Storable(meta, n) && Storable(meta, m);
    hide Direct, Clamp, FromBytes, Within, Nearest, Storable, Sendable, AnswerSize, StoredWidth, Fitted, Allows;
    StepMoves(c, there, p, !up, now', table, Toward(n, !up), m);
    var back := Direct(c, Steps(p, !up), there, now', table).fan;
    ThereAndBack(meta, v, up, n, m);
    assert back == f <==> back.state[p] == f.state[p] by {
      assert back == f.(state := f.state[p := back.state[p]]);
      assert f.state[p := f.state[p]] == f.state;
    }
    if m == v && |f.state[p]| == |back.state[p]| {
      SameBytes(back.state[p], f.state[p]);
    }
  }

  // ---------------------------------------------------------------------------
  // Many steps
  // ---------------------------------------------------------------------------

  /** The fan after `k` steps in one direction. */
  function StepMany(c: Client, f: Fan, p: Code, up: bool, k: nat, now: Now, table: NudgeTable): Fan {
    if k == 0 then f else Direct(c, Steps(p, up), StepMany(c, f, p, up, k - 1, now, table), now, table).fan
  }

  function Ahead(v: int, up: bool, k: nat): int { if up then v + k else v - k }

  lemma NextNearest(meta: NudgeMeta, v: int, up: bool, k: nat, n: int, m: int)
    requires Within(meta, v) && Nearest(meta, Ahead(v, up, k), n) && Nearest(meta, Toward(n, up), m)
    ensures Nearest(meta, Ahead(v, up, k + 1), m)
  {
    var near, far := Ahead(v, up, k), Ahead(v, up, k + 1);
    if Within(meta, near) {
      assert Distance(near, n) <= Distance(near, near);
    } else {
      // every allowed number lies before the goal, and `n` is the last of them
      forall j | Within(meta, j)
        ensures if up then j <= n < near else j >= n > near
      {
        assert Distance(near, n) <= Distance(near, j);
        assert up && j >= near ==> Within(meta, near);
        assert !up && j <= near ==> Within(meta, near);
        assert up && n >= near ==> Within(meta, near);
        assert !up && n <= near ==> Within(meta, near);
      }
      assert Distance(Toward(n, up), m) <= Distance(Toward(n, up), n);
      assert m == n;
    }
  }

  /** What a fan is after `k` steps: the same but for `p`, which holds the allowed number nearest to the goal. */
  ghost predicate Jumped(f: Fan, g: Fan, p: Code, up: bool, k: nat, meta: NudgeMeta)
    requires p in f.state
  {
    OnlyAt(f, g, p) && Nearest(meta, Ahead(NumberIn(f, p), up, k), NumberIn(g, p))
  }

  lemma OneMoreStep(c: Client, f: Fan, g: Fan, p: Code, up: bool, k: nat, now: Now, table: NudgeTable)
    requires Steppable(f, p, table) && SaneTable(table) && Fitted(table[p]) && Sendable(c, Steps(p, up))
    requires Within(table[p], NumberIn(f, p)) && Jumped(f, g, p, up, k, table[p])
    ensures Jumped(f, Direct(c, Steps(p, up), g, now, table).fan, p, up, k + 1, table[p])
  {
    var meta, v := table[p], NumberIn(g, p);
    var n := Clamp(meta.choices, Clamp(meta.range, Toward(v, up)));
    ClampIsNearest(meta, Toward(v, up));
    assert Storable(meta, n);
    NextNearest(meta, NumberIn(f, p), up, k, v, n);
    hide Direct, Clamp, FromBytes, Within, Nearest, Storable, Sendable, AnswerSize, StoredWidth, Fitted, Allows, Ahead;
    StepMoves(c, g, p, up, now, table, Toward(v, up), n);
    var h := Direct(c, Steps(p, up), g, now, table).fan;
    assert h.state == f.state[p := h.state[p]];
  }

  lemma NoSteps(f: Fan, p: Code, up: bool, meta: NudgeMeta)
    requires p in f.state && Within(meta, NumberIn(f, p))
    ensures Jumped(f, f, p, up, 0, meta)
  {
    assert f.state[p := f.state[p]] == f.state;
  }

  /**
   * However many steps in one direction are one jump as far: from an allowed number they reach the number so
   * many beyond it, or the last allowed one before that, and change nothing else.
   */
  lemma {:induction false} StepsAreOneJump(c: Client, f: Fan, p: Code, up: bool, k: nat, now: Now, table: NudgeTable)
    requires Steppable(f, p, table) && SaneTable(table) && Fitted(table[p]) && Sendable(c, Steps(p, up))
    requires Within(table[p], NumberIn(f, p))
    ensures var g := StepMany(c, f, p, up, k, now, table);
            OnlyAt(f, g, p) && Nearest(table[p], Ahead(NumberIn(f, p), up, k), NumberIn(g, p))
    decreases k
  {
    hide Direct, Within, Nearest, Fitted, SaneTable, Sendable, NumberIn, Ahead, OnlyAt;
    if k == 0 {
      NoSteps(f, p, up, table[p]);
    } else {
      StepsAreOneJump(c, f, p, up, k - 1, now, table);
      OneMoreStep(c, f, StepMany(c, f, p, up, k - 1, now, table), p, up, k - 1, now, table);
    }
  }

  // ---------------------------------------------------------------------------
  // Several parameters in one packet
  // ---------------------------------------------------------------------------

  ghost predicate SameAt(a: map<Code, Bytes>, b: map<Code, Bytes>, c: Code) {
    (c in a <==> c in b) && (c in a ==> a[c] == b[c])
  }

  lemma NudgeIsLocal(f: Fan, g: Fan, p: Code, delta: int, table: NudgeTable)
    requires SameAt(f.state, g.state, p)
    ensures var r, q := Nudge(f, p, delta, table), Nudge(g, p, delta, table);
            r.ok == q.ok && SameAt(r.fan.state, q.fan.state, p)
    ensures forall c: Code :: c != p ==> SameAt(Nudge(g, p, delta, table).fan.state, g.state, c)
    ensures Nudge(g, p, delta, table).fan == g.(state := Nudge(g, p, delta, table).fan.state)
  {
    hide ToBytes, FromBytes, Clamp;
  }

  /** What a packet of steps does to one parameter, told from the fan before the packet. */
  ghost function SteppedAlone(f: Fan, ps: seq<Code>, c: Code, delta: int, table: NudgeTable): map<Code, Bytes> {
    if c in ps then Nudge(f, c, delta, table).fan.state else f.state
  }

  /**
   * A packet that steps different parameters steps each as if it were alone, and goes through exactly when
   * each alone would; no other parameter changes.
   */
  lemma {:induction false} StepsAreIndependent(f: Fan, ps: seq<Code>, delta: int, table: NudgeTable)
    requires forall i, j :: 0 <= i < j < |ps| ==> ps[i] != ps[j]
    ensures var r := NudgeAll(f, ps, delta, table);
            && (r.ok <==> forall p :: p in ps ==> Nudge(f, p, delta, table).ok)
            && r.fan == f.(state := r.fan.state)
            && (r.ok ==> forall c: Code :: SameAt(r.fan.state, SteppedAlone(f, ps, c, delta, table), c))
    decreases |ps|
  {
    if ps != [] {
      var p, rest := ps[0], ps[1..];
      var r := Nudge(f, p, delta, table);
      NudgeIsLocal(f, f, p, delta, table);
      assert p !in rest;
      assert ps == [p] + rest;
      hide Nudge;
      if r.ok {
        StepsAreIndependent(r.fan, rest, delta, table);
        forall c | c in rest
          ensures Nudge(f, c, delta, table).ok == Nudge(r.fan, c, delta, table).ok
          ensures SameAt(Nudge(f, c, delta, table).fan.state, Nudge(r.fan, c, delta, table).fan.state, c)
        {
          NudgeIsLocal(f, r.fan, c, delta, table);
        }
        var last := NudgeAll(r.fan, rest, delta, table);
        if last.ok {
          forall c: Code
            ensures SameAt(last.fan.state, SteppedAlone(f, ps, c, delta, table), c)
          {
            assert SameAt(last.fan.state, SteppedAlone(r.fan, rest, c, delta, table), c);
            assert c in ps <==> c == p || c in rest;
          }
        }
      }
    }
  }
}
