/**
 * The dashboard's connection manager, cut at every await.
 *
 * One foreground coroutine (a connect or a command) runs at a time; the poll task and the stop tasks that
 * disconnects leave behind interleave with it at every step. A cancelled task executes nothing more: its
 * next step is to end.
 */
module HandOver {
  import opened Basics

  const POLL_RETRIES := 3

  /** A state read through the client numbered `source`. */
  datatype Snapshot = Snapshot(source: nat, value: int)

  /** Where a poll task waits. */
  datatype PollPc =
    | Sleeping
    | Backoff(attempt: nat)
    | Fetching(client: nat, attempt: nat)
    | Telling
    | TellingError

  datatype PollTask = PollTask(pc: PollPc, cancelled: bool)

  /** Where the foreground coroutine waits. */
  datatype Foreground =
    | Idle
    | Connecting(candidate: nat)
    | Stopping(candidate: nat, fetched: Snapshot, task: nat)
    | Commanding(client: nat)
    | Settling
    | CommandFetching(client: nat)
    | CommandTelling

  /** Where a stop task that a disconnect created waits. */
  datatype StopPc = NotStarted | Waiting(task: nat)

  datatype Broadcast = StateSent(snapshot: Snapshot) | ErrorSent

  datatype Manager = Manager(
    client: Option<nat>, state: Option<Snapshot>, pollTask: Option<nat>,
    tasks: map<nat, PollTask>, fg: Foreground, stops: map<nat, StopPc>, next: nat, log: seq<Broadcast>)
  {
    /** The poll task in `pollTask` when it has not ended. */
    function Running(): Option<nat> {
      if pollTask.Some? && pollTask.value in tasks then pollTask else None
    }

    predicate Connected() { client.Some? && state.Some? }

    function WithTask(t: nat, pc: PollPc): Manager { this.(tasks := tasks[t := PollTask(pc, false)]) }
  }

  function Initial(): Manager { Manager(None, None, None, map[], Idle, map[], 0, []) }

  datatype Step =
    | ConnectStart
    | ConnectFail
    | ConnectFetched(value: int)
    | ConnectStopped
    | Disconnect
    | StopStart(stop: nat)
    | StopFinish(stop: nat)
    | CommandStart
    | CommandFail
    | CommandSent
    | CommandSettled
    | CommandFetched(value: int)
    | CommandFetchFail
    | CommandTold
    | PollWake(task: nat)
    | PollRetry(task: nat)
    | PollFetched(task: nat, value: int)
    | PollTimeout(task: nat)
    | PollError(task: nat)
    | PollTold(task: nat)
    | PollTellFail(task: nat)
    | PollErrorTold(task: nat)
    | PollErrorTellFail(task: nat)
    | PollReap(task: nat)

  predicate Awake(m: Manager, t: nat) { t in m.tasks && !m.tasks[t].cancelled }

  predicate Enabled(m: Manager, s: Step) {
    match s
    case ConnectStart => m.fg == Idle
    case ConnectFail => m.fg.Connecting?
    case ConnectFetched(_) => m.fg.Connecting?
    case ConnectStopped => m.fg.Stopping? && m.fg.task !in m.tasks
    case Disconnect => m.fg == Idle
    case StopStart(d) => d in m.stops && m.stops[d] == NotStarted
    case StopFinish(d) => d in m.stops && m.stops[d].Waiting? && m.stops[d].task !in m.tasks
    case CommandStart => m.fg == Idle && m.Connected()
    case CommandFail => m.fg.Commanding?
    case CommandSent => m.fg.Commanding?
    case CommandSettled => m.fg == Settling
    case CommandFetched(_) => m.fg.CommandFetching?
    case CommandFetchFail => m.fg.CommandFetching?
    case CommandTold => m.fg == CommandTelling
    case PollWake(t) => Awake(m, t) && m.tasks[t].pc == Sleeping
    case PollRetry(t) => Awake(m, t) && m.tasks[t].pc.Backoff?
    case PollFetched(t, _) => Awake(m, t) && m.tasks[t].pc.Fetching?
    case PollTimeout(t) => Awake(m, t) && m.tasks[t].pc.Fetching?
    case PollError(t) => Awake(m, t) && m.tasks[t].pc.Fetching?
    case PollTold(t) => Awake(m, t) && m.tasks[t].pc == Telling
    case PollTellFail(t) => Awake(m, t) && m.tasks[t].pc == Telling
    case PollErrorTold(t) => Awake(m, t) && m.tasks[t].pc == TellingError
    case PollErrorTellFail(t) => Awake(m, t) && m.tasks[t].pc == TellingError
    case PollReap(t) => t in m.tasks && m.tasks[t].cancelled
  }

  function Cancel(m: Manager, t: nat): Manager
    requires t in m.tasks
  {
    m.(tasks := m.tasks[t := m.tasks[t].(cancelled := true)])
  }

  /** The last lines of a connect: adopt the candidate and start its poll task. */
  function Adopt(m: Manager, candidate: nat, fetched: Snapshot): Manager {
    m.(client := Some(candidate), state := Some(fetched), pollTask := Some(m.next),
       tasks := m.tasks[m.next := PollTask(Sleeping, false)], next := m.next + 1, fg := Idle)
  }

  /** A poll attempt reads the current client, or gives up when there is none. */
  function Attempt(m: Manager, t: nat, attempt: nat): Manager {
    if m.client.None? then m.WithTask(t, Sleeping) else m.WithTask(t, Fetching(m.client.value, attempt))
  }

  function Next(m: Manager, s: Step): Manager
    requires Enabled(m, s)
  {
    match s
    case ConnectStart => m.(fg := Connecting(m.next), next := m.next + 1)
    case ConnectFail => m.(fg := Idle)
    case ConnectFetched(v) =>
      var fetched := Snapshot(m.fg.candidate, v);
      var t := m.Running();
      if t.Some? then Cancel(m, t.value).(fg := Stopping(m.fg.candidate, fetched, t.value))
      else Adopt(m, m.fg.candidate, fetched)
    case ConnectStopped => Adopt(m, m.fg.candidate, m.fg.fetched)
    case Disconnect => m.(client := None, state := None, stops := m.stops[m.next := NotStarted], next := m.next + 1)
    case StopStart(d) =>
      var t := m.Running();
      if t.Some? then Cancel(m, t.value).(stops := m.stops[d := Waiting(t.value)])
      else m.(pollTask := None, stops := m.stops - {d})
    case StopFinish(d) => m.(pollTask := None, stops := m.stops - {d})
    case CommandStart => m.(fg := Commanding(m.client.value))
    case CommandFail => m.(fg := Idle)
    case CommandSent => m.(fg := Settling)
    case CommandSettled => m.(fg := if m.client.None? then Idle else CommandFetching(m.client.value))
    case CommandFetched(v) =>
      var read := Snapshot(m.fg.client, v);
      m.(state := Some(read), log := m.log + [StateSent(read)], fg := CommandTelling)
    case CommandFetchFail => m.(fg := Idle)
    case CommandTold => m.(fg := Idle)
    case PollWake(t) => Attempt(m, t, 0)
    case PollRetry(t) => Attempt(m, t, m.tasks[t].pc.attempt)
    case PollFetched(t, v) =>
      var read := Snapshot(m.tasks[t].pc.client, v);
      m.(state := Some(read), log := m.log + [StateSent(read)]).WithTask(t, Telling)
    case PollTimeout(t) =>
      if m.tasks[t].pc.attempt >= POLL_RETRIES then m.(log := m.log + [ErrorSent]).WithTask(t, TellingError)
      else m.WithTask(t, Backoff(m.tasks[t].pc.attempt + 1))
    case PollError(t) => m.(log := m.log + [ErrorSent]).WithTask(t, TellingError)
    case PollTold(t) => m.WithTask(t, Sleeping)
    case PollTellFail(t) => m.(log := m.log + [ErrorSent]).WithTask(t, TellingError)
    case PollErrorTold(t) => m.WithTask(t, Sleeping)
    case PollErrorTellFail(t) => m.(tasks := m.tasks - {t})
    case PollReap(t) => m.(tasks := m.tasks - {t})
  }

  // ---------------------------------------------------------------------------
  // Invariant
  // ---------------------------------------------------------------------------

  /** The step that makes a connect return. */
  predicate Finishes(m: Manager, s: Step) {
    s.ConnectStopped? || (s.ConnectFetched? && m.Running().None?)
  }

  /** A connect that returns while an earlier disconnect is still stopping the old poll task. */
  predicate Overtakes(m: Manager, s: Step) { Finishes(m, s) && m.stops != map[] }

  ghost predicate Inv(m: Manager) {
    // every live poll task is the tracked one, hence there is at most one
    && (forall t :: t in m.tasks ==> m.pollTask == Some(t))
    && (forall t :: t in m.tasks ==> t < m.next)
    // an awake task only ever reads through the current client
    && (forall t :: Awake(m, t) && m.tasks[t].pc.Fetching? ==>
          m.client.None? || m.client == Some(m.tasks[t].pc.client))
    // the cached state of a connected manager came from the current client
    && (m.Connected() ==> m.state.value.source == m.client.value)
    // a disconnect that is still stopping waits for a cancelled task, with no client adopted meanwhile
    && (forall d :: d in m.stops ==> m.client.None? && d < m.next)
    && (forall d :: d in m.stops && m.stops[d].Waiting? ==>
          && m.stops[d].task < m.next
          && (m.stops[d].task in m.tasks ==> m.tasks[m.stops[d].task].cancelled)
          && (m.pollTask.None? || m.pollTask == Some(m.stops[d].task)))
    && (m.fg.Stopping? ==>
          && m.fg.fetched.source == m.fg.candidate
          && (m.fg.task in m.tasks ==> m.tasks[m.fg.task].cancelled)
          && (m.pollTask.None? || m.pollTask == Some(m.fg.task)))
    && (m.fg.CommandFetching? ==> m.client == Some(m.fg.client))
  }

  lemma InitialInv()
    ensures Inv(Initial())
  {
  }

  /** Every step but an overtaking one keeps the invariant, whatever the interleaving. */
  lemma StepKeepsInv(m: Manager, s: Step)
    requires Inv(m) && Enabled(m, s) && !Overtakes(m, s)
    ensures Inv(Next(m, s))
  {
    if IsPollStep(s) {
      PollStepKeepsInv(m, s);
    } else if s.StopStart? || s.StopFinish? {
      StopKeepsInv(m, s, s.stop);
    } else if s.ConnectFetched? && m.Running().None? {
      AdoptKeepsInv(m, m.fg.candidate, Snapshot(m.fg.candidate, s.value));
    } else if s.ConnectStopped? {
      AdoptKeepsInv(m, m.fg.candidate, m.fg.fetched);
    } else {
      ForegroundKeepsInv(m, s);
    }
  }

  lemma ForegroundKeepsInv(m: Manager, s: Step)
    requires Inv(m) && Enabled(m, s) && !Finishes(m, s) && !IsPollStep(s) && !IsStopStep(s)
    ensures Inv(Next(m, s))
  {
  }

  lemma PollStepKeepsInv(m: Manager, s: Step)
    requires Inv(m) && Enabled(m, s) && IsPollStep(s)
    ensures Inv(Next(m, s))
  {
    if s.PollReap? || s.PollErrorTellFail? {
      TaskEndKeepsInv(m, s.task);
    } else {
      var n := Next(m, s);
      var pc := n.tasks[s.task].pc;
      if s.PollFetched? {
        StateKeepsInv(m, s.task, s.value, n.log);
        WithTaskKeepsInv(m.(state := n.state, log := n.log), s.task, pc);
      } else {
        LogKeepsInv(m, n.log);
        WithTaskKeepsInv(m.(log := n.log), s.task, pc);
      }
    }
  }

  lemma LogKeepsInv(m: Manager, log: seq<Broadcast>)
    requires Inv(m)
    ensures Inv(m.(log := log))
  {
  }

  lemma StateKeepsInv(m: Manager, t: nat, value: int, log: seq<Broadcast>)
    requires Inv(m) && Awake(m, t) && m.tasks[t].pc.Fetching?
    ensures Inv(m.(state := Some(Snapshot(m.tasks[t].pc.client, value)), log := log))
  {
  }

  lemma WithTaskKeepsInv(m: Manager, t: nat, pc: PollPc)
    requires Inv(m) && Awake(m, t) && (pc.Fetching? ==> m.client == Some(pc.client))
    ensures Inv(m.WithTask(t, pc))
  {
  }

  lemma TaskEndKeepsInv(m: Manager, t: nat)
    requires Inv(m) && t in m.tasks
    ensures Inv(m.(tasks := m.tasks - {t}))
  {
  }

  lemma AdoptKeepsInv(m: Manager, candidate: nat, fetched: Snapshot)
    requires Inv(m) && m.tasks == map[] && m.stops == map[] && fetched.source == candidate
    ensures Inv(Adopt(m, candidate, fetched))
  {
  }

  lemma StopKeepsInv(m: Manager, s: Step, d: nat)
    requires Inv(m) && Enabled(m, s) && (s == StopStart(d) || s == StopFinish(d))
    ensures Inv(Next(m, s))
  {
  }

  // ---------------------------------------------------------------------------
  // Runs
  // ---------------------------------------------------------------------------

  ghost predicate Runs(m: Manager, steps: seq<Step>)
    decreases |steps|
  {
    steps == [] || (Enabled(m, steps[0]) && Runs(Next(m, steps[0]), steps[1..]))
  }

  ghost function After(m: Manager, steps: seq<Step>): Manager
    requires Runs(m, steps)
    decreases |steps|
  {
    if steps == [] then m else After(Next(m, steps[0]), steps[1..])
  }

  /** No connect of the run returns before the stop task of an earlier disconnect has ended. */
  ghost predicate Serial(m: Manager, steps: seq<Step>)
    requires Runs(m, steps)
    decreases |steps|
  {
    steps == [] || (!Overtakes(m, steps[0]) && Serial(Next(m, steps[0]), steps[1..]))
  }

  lemma {:induction false} RunKeepsInv(m: Manager, steps: seq<Step>)
    requires Inv(m) && Runs(m, steps) && Serial(m, steps)
    ensures Inv(After(m, steps))
    decreases |steps|
  {
    if steps != [] {
      StepKeepsInv(m, steps[0]);
      RunKeepsInv(Next(m, steps[0]), steps[1..]);
    }
  }

  /**
   * In every serial run there is at most one live poll task, it is the tracked one, and while connected
   * the cached state came from the current client.
   */
  lemma SerialRunsAreSafe(steps: seq<Step>)
    requires Runs(Initial(), steps) && Serial(Initial(), steps)
    ensures var m := After(Initial(), steps);
            && (forall t, u :: t in m.tasks && u in m.tasks ==> t == u)
            && (forall t :: t in m.tasks ==> m.pollTask == Some(t))
            && (m.Connected() ==> m.state.value.source == m.client.value)
  {
    InitialInv();
    RunKeepsInv(Initial(), steps);
  }

  /** Steps of the poll task alone. */
  predicate IsPollStep(s: Step) {
    s.PollWake? || s.PollRetry? || s.PollFetched? || s.PollTimeout? || s.PollError? || s.PollTold?
    || s.PollTellFail? || s.PollErrorTold? || s.PollErrorTellFail? || s.PollReap?
  }

  /** Steps that neither return from a connect nor disconnect. */
  predicate KeepsClient(m: Manager, s: Step) { !Finishes(m, s) && !s.Disconnect? }

  ghost predicate AllKeepClient(m: Manager, steps: seq<Step>)
    requires Runs(m, steps)
    decreases |steps|
  {
    steps == [] || (KeepsClient(m, steps[0]) && AllKeepClient(Next(m, steps[0]), steps[1..]))
  }

  ghost predicate OnlyFrom(log: seq<Broadcast>, source: nat) {
    forall i :: 0 <= i < |log| && log[i].StateSent? ==> log[i].snapshot.source == source
  }

  /**
   * From the moment a connect has returned until the next one returns or a disconnect, every state that is
   * cached or broadcast was read through the adopted client: no poll begun for the old fan gets through.
   */
  lemma {:induction false} NoStaleBroadcast(m: Manager, steps: seq<Step>)
    requires Inv(m) && m.Connected() && Runs(m, steps) && AllKeepClient(m, steps)
    ensures var n := After(m, steps);
            && n.client == m.client && n.Connected() && n.state.value.source == m.client.value
            && m.log <= n.log && OnlyFrom(n.log[|m.log|..], m.client.value)
    decreases |steps|
  {
    if steps != [] {
      var m' := Next(m, steps[0]);
      StepKeepsInv(m, steps[0]);
      StepBroadcasts(m, steps[0]);
      NoStaleBroadcast(m', steps[1..]);
      var n := After(m', steps[1..]);
      assert n.log[|m.log|..] == m'.log[|m.log|..] + n.log[|m'.log|..];
    }
  }

  lemma StepBroadcasts(m: Manager, s: Step)
    requires Inv(m) && m.Connected() && Enabled(m, s) && KeepsClient(m, s)
    ensures var n := Next(m, s);
            && n.client == m.client && n.Connected()
            && m.log <= n.log && OnlyFrom(n.log[|m.log|..], m.client.value)
  {
  }

  /** A connect that fails, with any number of poll steps in between, leaves client, tracked task and tasks alone. */
  lemma FailedConnectChangesNothing(m: Manager, mid: seq<Step>)
    requires Inv(m) && m.stops == map[]
    requires forall i :: 0 <= i < |mid| ==> IsPollStep(mid[i])
    requires Runs(m, [ConnectStart] + mid + [ConnectFail])
    ensures var n := After(m, [ConnectStart] + mid + [ConnectFail]);
            && n.client == m.client && n.pollTask == m.pollTask && n.fg == Idle && n.stops == m.stops
            && forall t :: t in n.tasks ==> t in m.tasks && n.tasks[t].cancelled == m.tasks[t].cancelled
  {
    var c := Next(m, ConnectStart);
    assert ([ConnectStart] + mid + [ConnectFail])[1..] == mid + [ConnectFail];
    PollStepsThenFail(c, mid);
  }

  lemma {:induction false} PollStepsThenFail(m: Manager, mid: seq<Step>)
    requires m.fg.Connecting? && Runs(m, mid + [ConnectFail])
    requires forall i :: 0 <= i < |mid| ==> IsPollStep(mid[i])
    ensures var n := After(m, mid + [ConnectFail]);
            && n.client == m.client && n.pollTask == m.pollTask && n.fg == Idle && n.stops == m.stops
            && forall t :: t in n.tasks ==> t in m.tasks && n.tasks[t].cancelled == m.tasks[t].cancelled
    decreases |mid|
  {
    if mid == [] {
      assert mid + [ConnectFail] == [ConnectFail];
      assert [ConnectFail][1..] == [];
    } else {
      var s := mid[0];
      assert (mid + [ConnectFail])[0] == s && (mid + [ConnectFail])[1..] == mid[1..] + [ConnectFail];
      PollStepIsLocal(m, s);
      PollStepsThenFail(Next(m, s), mid[1..]);
    }
  }

  lemma PollStepIsLocal(m: Manager, s: Step)
    requires Enabled(m, s) && IsPollStep(s)
    ensures var n := Next(m, s);
            && n.client == m.client && n.pollTask == m.pollTask && n.fg == m.fg && n.stops == m.stops
            && forall t :: t in n.tasks ==> t in m.tasks && n.tasks[t].cancelled == m.tasks[t].cancelled
  {
  }

  // ---------------------------------------------------------------------------
  // Exactly when a connect leaves a running poll task behind
  // ---------------------------------------------------------------------------

  /** The tracked poll task is alive and not about to end. */
  predicate Polled(m: Manager) { m.Running().Some? && Awake(m, m.pollTask.value) }

  predicate IsStopStep(s: Step) { s.StopStart? || s.StopFinish? }

  /**
   * After a connect returns, polling of the new fan survives every schedule of the pending disconnects
   * exactly when none is pending: otherwise one of them drops or cancels the new poll task.
   */
  lemma PollingSurvivesExactly(m: Manager, s: Step)
    requires Inv(m) && Enabled(m, s) && Finishes(m, s)
    ensures Polled(Next(m, s))
    ensures (forall stop | IsStopStep(stop) && Enabled(Next(m, s), stop) :: Polled(Next(Next(m, s), stop)))
       <==> m.stops == map[]
  {
    var n := Next(m, s);
    assert m.tasks == map[];
    assert n.stops == m.stops;
    if m.stops != map[] {
      var d :| d in m.stops;
      var stop := if m.stops[d] == NotStarted then StopStart(d) else StopFinish(d);
      assert Enabled(n, stop);
      assert !Polled(Next(n, stop));
    }
  }

  /**
   * A concrete run that is not serial: the cancelled poll task outlasts the fetch of the second connect, which
   * returns before the stop task that awaited the old one is resumed; the third connect then starts a
   * second live poll task.
   */
  lemma OvertakingRunLeavesTwoPolls()
    ensures var steps := [ConnectStart, ConnectFetched(0), Disconnect, StopStart(2), ConnectStart, PollReap(1),
                          ConnectFetched(0), StopFinish(2), ConnectStart, ConnectFetched(0)];
            && Runs(Initial(), steps)
            && var m := After(Initial(), steps);
               m.tasks.Keys == {4, 6} && Awake(m, 4) && Awake(m, 6)
  {
    var asleep := PollTask(Sleeping, false);
    var m2 := Manager(Some(0), Some(Snapshot(0, 0)), Some(1), map[1 := asleep], Idle, map[], 2, []);
    var m4 := Manager(None, None, Some(1), map[1 := PollTask(Sleeping, true)], Idle, map[2 := Waiting(1)], 3, []);
    var m6 := Manager(None, None, Some(1), map[], Connecting(3), map[2 := Waiting(1)], 4, []);
    var m8 := Manager(Some(3), Some(Snapshot(3, 0)), None, map[4 := asleep], Idle, map[], 5, []);
    var m10 := Manager(Some(5), Some(Snapshot(5, 0)), Some(6), map[4 := asleep, 6 := asleep], Idle, map[], 7, []);
    FirstConnect(m2);
    FirstStop(m2, m4);
    SecondConnect(m4, m6);
    Overtaken(m6, m8);
    ThirdConnect(m8, m10);
    hide Pair, Runs, After;
    FivePairs(Initial(), m2, m4, m6, m8, m10);
  }

  lemma FivePairs(m0: Manager, m2: Manager, m4: Manager, m6: Manager, m8: Manager, m10: Manager)
    requires Pair(m0, ConnectStart, ConnectFetched(0), m2) && Pair(m2, Disconnect, StopStart(2), m4)
    requires Pair(m4, ConnectStart, PollReap(1), m6) && Pair(m6, ConnectFetched(0), StopFinish(2), m8)
    requires Pair(m8, ConnectStart, ConnectFetched(0), m10)
    ensures var steps := [ConnectStart, ConnectFetched(0), Disconnect, StopStart(2), ConnectStart, PollReap(1),
                          ConnectFetched(0), StopFinish(2), ConnectStart, ConnectFetched(0)];
            Runs(m0, steps) && After(m0, steps) == m10
  {
  }

  lemma FirstConnect(m2: Manager)
    requires m2 == Manager(Some(0), Some(Snapshot(0, 0)), Some(1), map[1 := PollTask(Sleeping, false)], Idle, map[],
                           2, [])
    ensures Pair(Initial(), ConnectStart, ConnectFetched(0), m2)
  {
  }

  lemma FirstStop(m2: Manager, m4: Manager)
    requires m2 == Manager(Some(0), Some(Snapshot(0, 0)), Some(1), map[1 := PollTask(Sleeping, false)], Idle, map[],
                           2, [])
    requires m4 == Manager(None, None, Some(1), map[1 := PollTask(Sleeping, true)], Idle, map[2 := Waiting(1)], 3, [])
    ensures Pair(m2, Disconnect, StopStart(2), m4)
  {
  }

  lemma SecondConnect(m4: Manager, m6: Manager)
    requires m4 == Manager(None, None, Some(1), map[1 := PollTask(Sleeping, true)], Idle, map[2 := Waiting(1)], 3, [])
    requires m6 == Manager(None, None, Some(1), map[], Connecting(3), map[2 := Waiting(1)], 4, [])
    ensures Pair(m4, ConnectStart, PollReap(1), m6)
  {
  }

  lemma Overtaken(m6: Manager, m8: Manager)
    requires m6 == Manager(None, None, Some(1), map[], Connecting(3), map[2 := Waiting(1)], 4, [])
    requires m8 == Manager(Some(3), Some(Snapshot(3, 0)), None, map[4 := PollTask(Sleeping, false)], Idle, map[], 5, [])
    ensures Pair(m6, ConnectFetched(0), StopFinish(2), m8)
  {
  }

  lemma ThirdConnect(m8: Manager, m10: Manager)
    requires m8 == Manager(Some(3), Some(Snapshot(3, 0)), None, map[4 := PollTask(Sleeping, false)], Idle, map[], 5, [])
    requires m10.tasks == map[4 := PollTask(Sleeping, false), 6 := PollTask(Sleeping, false)]
    requires m10 == Manager(Some(5), Some(Snapshot(5, 0)), Some(6), m10.tasks, Idle, map[], 7, [])
    ensures Pair(m8, ConnectStart, ConnectFetched(0), m10)
  {
  }

  /** Two enabled steps that lead from one manager to another. */
  ghost predicate Pair(m: Manager, a: Step, b: Step, n: Manager) {
    Enabled(m, a) && Enabled(Next(m, a), b) && Next(Next(m, a), b) == n
  }
}
