/** What the dashboard's manager caches and broadcasts over whole runs, told from the steps alone. */
module Broadcasts {
  import opened Basics
  import opened HandOver

  // ---------------------------------------------------------------------------
  // Every fetch is told once
  // ---------------------------------------------------------------------------

  /** What one step fetches. */
  function Fetch(s: Step): seq<int> {
    match s
    case PollFetched(_, v) => [v]
    case CommandFetched(v) => [v]
    case _ => []
  }

  /** The states that were fetched by polls and after commands, in order. */
  function Fetched(steps: seq<Step>): seq<int> {
    if steps == [] then [] else Fetch(steps[0]) + Fetched(steps[1..])
  }

  /** The states a log tells, in order. */
  function Told(log: seq<Broadcast>): seq<int> {
    if log == [] then []
    else
      var n := |log| - 1;
      Told(log[..n]) + (if log[n].StateSent? then [log[n].snapshot.value] else [])
  }

  lemma ToldStep(m: Manager, s: Step)
    requires Enabled(m, s)
    ensures Told(Next(m, s).log) == Told(m.log) + Fetch(s)
  {
    var n := Next(m, s);
    if |n.log| == |m.log| {
      assert n.log == m.log;
    } else {
      assert n.log[..|n.log| - 1] == m.log;
    }
  }

  lemma Associate(a: seq<int>, b: seq<int>, c: seq<int>)
    ensures (a + b) + c == a + (b + c)
  {
  }

  /** In every run, whatever the interleaving, each fetched state is broadcast exactly once, in order. */
  lemma {:induction false} EveryFetchIsTold(m: Manager, steps: seq<Step>)
    requires Runs(m, steps)
    ensures Told(After(m, steps).log) == Told(m.log) + Fetched(steps)
    decreases |steps|
  {
    hide Told, Fetch, Next, Enabled;
    if steps == [] {
      assert Told(m.log) + [] == Told(m.log);
    } else {
      ToldStep(m, steps[0]);
      EveryFetchIsTold(Next(m, steps[0]), steps[1..]);
      Associate(Told(m.log), Fetch(steps[0]), Fetched(steps[1..]));
    }
  }

  // ---------------------------------------------------------------------------
  // The cached state is the last one told
  // ---------------------------------------------------------------------------

  /** The last state a log tells. */
  function LastTold(log: seq<Broadcast>): Option<Snapshot> {
    if log == [] then None
    else
      var n := |log| - 1;
      if log[n].StateSent? then Some(log[n].snapshot) else LastTold(log[..n])
  }

  function Either(a: Option<Snapshot>, b: Option<Snapshot>): Option<Snapshot> { if a.Some? then a else b }

  lemma {:induction false} LastToldConcat(a: seq<Broadcast>, b: seq<Broadcast>)
    ensures LastTold(a + b) == Either(LastTold(b), LastTold(a))
    decreases |b|
  {
    if b == [] {
      assert a + b == a;
    } else {
      var n := |b| - 1;
      assert (a + b)[..|a + b| - 1] == a + b[..n];
      LastToldConcat(a, b[..n]);
    }
  }

  lemma StepCaches(m: Manager, s: Step)
    requires Enabled(m, s) && KeepsClient(m, s)
    ensures var n := Next(m, s);
            && m.log <= n.log
            && n.state == Either(LastTold(n.log[|m.log|..]), m.state)
  {
    var n := Next(m, s);
    var more := n.log[|m.log|..];
    assert |more| <= 1;
    if |more| == 1 {
      assert more[..0] == [];
    }
  }

  /**
   * As long as no connect returns and nobody disconnects, the cached state is the last state that was
   * broadcast, or the one cached before when there was none.
   */
  lemma {:induction false} CacheIsLastTold(m: Manager, steps: seq<Step>)
    requires Runs(m, steps) && AllKeepClient(m, steps)
    ensures var n := After(m, steps);
            && m.log <= n.log
            && n.state == Either(LastTold(n.log[|m.log|..]), m.state)
    decreases |steps|
  {
    if steps != [] {
      var m' := Next(m, steps[0]);
      StepCaches(m, steps[0]);
      CacheIsLastTold(m', steps[1..]);
      var n := After(m', steps[1..]);
      assert n.log[|m.log|..] == m'.log[|m.log|..] + n.log[|m'.log|..];
      LastToldConcat(m'.log[|m.log|..], n.log[|m'.log|..]);
    } else {
      assert m.log[|m.log|..] == [];
    }
  }

  /** A disconnect forgets the cached state; only a poll that still gets through can leave one behind. */
  lemma DisconnectForgets(m: Manager, steps: seq<Step>)
    requires Enabled(m, Disconnect) && Runs(Next(m, Disconnect), steps) && AllKeepClient(Next(m, Disconnect), steps)
    ensures var n := After(Next(m, Disconnect), steps);
            && m.log <= n.log && n.state == LastTold(n.log[|m.log|..])
  {
    CacheIsLastTold(Next(m, Disconnect), steps);
  }

  /** While a connect waits for the old poll task, nobody but polls and stop tasks can move. */
  lemma {:induction false} StoppingWaits(m: Manager, mid: seq<Step>)
    requires m.fg.Stopping? && Runs(m, mid) && forall i :: 0 <= i < |mid| ==> !mid[i].ConnectStopped?
    ensures After(m, mid).fg == m.fg
    decreases |mid|
  {
    if mid != [] {
      StoppingWaits(Next(m, mid[0]), mid[1..]);
    }
  }

  /**
   * A connect that returns leaves the manager with the client it tried and the state it fetched through it,
   * however long it waited for the old poll task.
   */
  lemma ConnectCachesItsFetch(m: Manager, v: int, mid: seq<Step>)
    requires Enabled(m, ConnectFetched(v))
    ensures var n := Next(m, ConnectFetched(v));
            n.fg == Idle ==> n.client == Some(m.fg.candidate) && n.state == Some(Snapshot(m.fg.candidate, v))
    ensures var n := Next(m, ConnectFetched(v));
            n.fg.Stopping? && Runs(n, mid) && (forall i :: 0 <= i < |mid| ==> !mid[i].ConnectStopped?)
            && Enabled(After(n, mid), ConnectStopped) ==>
              var r := Next(After(n, mid), ConnectStopped);
              r.client == Some(m.fg.candidate) && r.state == Some(Snapshot(m.fg.candidate, v)) && r.fg == Idle
  {
    var n := Next(m, ConnectFetched(v));
    if n.fg.Stopping? && Runs(n, mid) && (forall i :: 0 <= i < |mid| ==> !mid[i].ConnectStopped?) {
      StoppingWaits(n, mid);
    }
  }

  // ---------------------------------------------------------------------------
  // When an error is told
  // ---------------------------------------------------------------------------

  /** How often the task has failed to connect since it last began a poll. */
  function Streak(steps: seq<Step>, t: nat): nat {
    if steps == [] then 0
    else
      var n := |steps| - 1;
      if steps[n] == PollWake(t) then 0
      else Streak(steps[..n], t) + (if steps[n] == PollTimeout(t) then 1 else 0)
  }

  /** The attempt a polling task is at is the number of failures in a row. */
  ghost predicate Counted(m: Manager, steps: seq<Step>) {
    forall t :: t in m.tasks ==>
      m.tasks[t].pc.Fetching? || m.tasks[t].pc.Backoff? ==> m.tasks[t].pc.attempt == Streak(steps, t) <= POLL_RETRIES
  }

  lemma CountedStep(m: Manager, steps: seq<Step>, s: Step)
    requires Counted(m, steps) && Enabled(m, s)
    ensures Counted(Next(m, s), steps + [s])
  {
    assert (steps + [s])[..|steps|] == steps;
  }

  lemma {:induction false} RunsSnoc(m: Manager, steps: seq<Step>, s: Step)
    requires Runs(m, steps + [s])
    ensures Runs(m, steps) && Enabled(After(m, steps), s)
    ensures After(m, steps + [s]) == Next(After(m, steps), s)
    decreases |steps|
  {
    hide Next, Enabled;
    if steps == [] {
      assert ([] + [s])[1..] == [];
    } else {
      assert (steps + [s])[1..] == steps[1..] + [s];
      RunsSnoc(Next(m, steps[0]), steps[1..], s);
    }
  }

  lemma {:induction false} AlwaysCounted(steps: seq<Step>)
    requires Runs(Initial(), steps)
    ensures Counted(After(Initial(), steps), steps)
    decreases |steps|
  {
    if steps != [] {
      var n := |steps| - 1;
      assert steps == steps[..n] + [steps[n]];
      RunsSnoc(Initial(), steps[..n], steps[n]);
      AlwaysCounted(steps[..n]);
      CountedStep(After(Initial(), steps[..n]), steps[..n], steps[n]);
    }
  }

  /**
   * In every run an error is broadcast exactly at the fourth connection failure in a row, at any other
   * failure of a poll at once, and when a state could not be broadcast; no other step tells one.
   */
  lemma ErrorsAreToldExactly(steps: seq<Step>, s: Step)
    requires Runs(Initial(), steps + [s])
    ensures Runs(Initial(), steps)
    ensures var before, after := After(Initial(), steps).log, After(Initial(), steps + [s]).log;
            after == before + [ErrorSent]
            <==> s.PollError? || s.PollTellFail? || (s.PollTimeout? && Streak(steps + [s], s.task) == 4)
  {
    RunsSnoc(Initial(), steps, s);
    AlwaysCounted(steps);
    var m := After(Initial(), steps);
    assert (steps + [s])[..|steps|] == steps;
    hide Streak, Counted;
    ErrorStep(m, steps, s);
  }

  lemma ErrorStep(m: Manager, steps: seq<Step>, s: Step)
    requires Counted(m, steps) && Enabled(m, s)
    ensures Next(m, s).log == m.log + [ErrorSent]
       <==> s.PollError? || s.PollTellFail? || (s.PollTimeout? && Streak(steps + [s], s.task) == 4)
  {
    assert (steps + [s])[..|steps|] == steps;
    var log, k := Next(m, s).log, |m.log|;
    assert (m.log + [ErrorSent])[k] == ErrorSent && |m.log + [ErrorSent]| == k + 1;
    assert |log| == k + 1 && log[k] == ErrorSent ==> log == m.log + [ErrorSent];
    if s.PollTimeout? {
      assert Streak(steps + [s], s.task) == Streak(steps, s.task) + 1;
    }
    hide Streak;
  }

  // ---------------------------------------------------------------------------
  // Disconnecting
  // ---------------------------------------------------------------------------

  /** No step of the run makes a connect return. */
  ghost predicate NoReturn(m: Manager, steps: seq<Step>)
    requires Runs(m, steps)
    decreases |steps|
  {
    steps == [] || (!Finishes(m, steps[0]) && NoReturn(Next(m, steps[0]), steps[1..]))
  }

  /** Without a client, and with no command under way. */
  predicate Detached(m: Manager) {
    m.client.None? && (m.fg.Idle? || m.fg.Connecting? || m.fg.Stopping?)
  }

  /** Besides, every poll task there is has been cancelled. */
  ghost predicate Quiet(m: Manager) { Detached(m) && forall t :: t in m.tasks ==> m.tasks[t].cancelled }

  lemma {:induction false} DetachedStays(m: Manager, steps: seq<Step>)
    requires Inv(m) && Detached(m) && Runs(m, steps) && NoReturn(m, steps)
    ensures Inv(After(m, steps)) && Detached(After(m, steps))
    decreases |steps|
  {
    if steps != [] {
      StepKeepsInv(m, steps[0]);
      StepKeepsDetached(m, steps[0]);
      hide Next, Enabled, Inv, Detached;
      DetachedStays(Next(m, steps[0]), steps[1..]);
    }
  }

  lemma StepKeepsDetached(m: Manager, s: Step)
    requires Detached(m) && Enabled(m, s) && !Finishes(m, s)
    ensures Detached(Next(m, s))
  {
  }

  lemma StopIsQuiet(m: Manager, d: nat)
    requires Inv(m) && Detached(m) && Enabled(m, StopStart(d))
    ensures Quiet(Next(m, StopStart(d)))
  {
  }

  lemma QuietStep(m: Manager, s: Step)
    requires Quiet(m) && Enabled(m, s) && !Finishes(m, s)
    ensures Quiet(Next(m, s)) && Next(m, s).log == m.log && !Next(m, s).Connected()
  {
  }

  lemma {:induction false} QuietStays(m: Manager, steps: seq<Step>)
    requires Quiet(m) && Runs(m, steps) && NoReturn(m, steps)
    ensures Quiet(After(m, steps)) && After(m, steps).log == m.log
    decreases |steps|
  {
    if steps != [] {
      QuietStep(m, steps[0]);
      hide Next, Enabled, Quiet;
      QuietStays(Next(m, steps[0]), steps[1..]);
    }
  }

  /**
   * Once the stop task of a disconnect has started, nothing at all is broadcast until a connect returns.
   * Between the disconnect and that moment a poll may still get through, yet the manager stays disconnected.
   */
  lemma DisconnectSilences(m: Manager, mid: seq<Step>, rest: seq<Step>)
    requires Inv(m) && Enabled(m, Disconnect)
    requires var off := Next(m, Disconnect);
             && Runs(off, mid) && NoReturn(off, mid)
             && Enabled(After(off, mid), StopStart(m.next))
             && Runs(Next(After(off, mid), StopStart(m.next)), rest)
             && NoReturn(Next(After(off, mid), StopStart(m.next)), rest)
    ensures var off := Next(m, Disconnect);
            var stopping := Next(After(off, mid), StopStart(m.next));
            && !After(off, mid).Connected() && !After(stopping, rest).Connected()
            && After(stopping, rest).log == After(off, mid).log
  {
    var off := Next(m, Disconnect);
    StepKeepsInv(m, Disconnect);
    assert Detached(off);
    DetachedStays(off, mid);
    StopIsQuiet(After(off, mid), m.next);
    QuietStays(Next(After(off, mid), StopStart(m.next)), rest);
    hide Inv, Runs, After, NoReturn;
  }

  // ---------------------------------------------------------------------------
  // Nobody waits for ever
  // ---------------------------------------------------------------------------

  /** A connect that waits for the old poll task can always return, as soon as that task has ended. */
  lemma ConnectCanReturn(m: Manager)
    requires Inv(m) && m.fg.Stopping?
    ensures Enabled(m, ConnectStopped)
         || (Enabled(m, PollReap(m.fg.task)) && Enabled(Next(m, PollReap(m.fg.task)), ConnectStopped))
  {
  }

  /** So can every stop task: it starts, the task it cancelled ends, and it finishes. */
  lemma StopCanFinish(m: Manager, d: nat)
    requires Inv(m) && d in m.stops
    ensures m.stops[d] == NotStarted ==>
      && Enabled(m, StopStart(d))
      && var n := Next(m, StopStart(d)); d !in n.stops || n.stops[d].Waiting?
    ensures m.stops[d].Waiting? ==>
      || Enabled(m, StopFinish(d))
      || (Enabled(m, PollReap(m.stops[d].task)) && Enabled(Next(m, PollReap(m.stops[d].task)), StopFinish(d)))
  {
  }

  /** A poll task that is awake can always go on, and one that begins a poll of a connected manager fetches. */
  lemma PollCanGoOn(m: Manager, t: nat)
    requires Awake(m, t)
    ensures exists s :: IsPollStep(s) && s.task == t && Enabled(m, s)
    ensures m.tasks[t].pc == Sleeping && m.client.Some? ==>
      Next(m, PollWake(t)).tasks[t] == PollTask(Fetching(m.client.value, 0), false)
  {
    match m.tasks[t].pc {
      case Sleeping => assert Enabled(m, PollWake(t));
      case Backoff(_) => assert Enabled(m, PollRetry(t));
      case Fetching(_, _) => assert Enabled(m, PollError(t));
      case Telling => assert Enabled(m, PollTold(t));
      case TellingError => assert Enabled(m, PollErrorTold(t));
    }
  }
}
