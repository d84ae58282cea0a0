/** The service supervisor: one monitor goroutine, one controller (Start and Stop), the
    supervised child processes and the clock, as a labelled transition system.

    One action is one critical section under the service mutex, or one wait, signal, send,
    receive or spawn.  Everything the scheduler or the operating system may choose is part
    of the action, so `Step` is a function and a run is a sequence of actions. */
module Supervisor {
  import opened Wrappers

  datatype Status = STOPPED | RUNNING | FAILED | DISABLED | DEAD | RESPAWNING | SHUTDOWN

  /** `RestartIntervalMs` only delays the monitor, which any run may do anyway. */
  datatype RestartPolicy = RestartPolicy(maxTries: int, resetAfterSec: int) {
    function Tries(): nat { if maxTries < 0 then 0 else maxTries }
  }

  /** The fields of a service that its mutex guards. */
  datatype Fields = Fields(
    status: Status,
    restartAttempts: int,
    crashesSinceStart: int,
    process: Option<nat>,
    startTime: int)
  {
    function CountersReset(): Fields {
      this.(restartAttempts := 0, crashesSinceStart := 0)
    }

    /** The end of startProcess: `pid` is the new child, None when it could not be started. */
    function Started(pid: Option<nat>, now: int): Fields {
      if pid.Some?
      then this.(status := RUNNING, process := pid, startTime := now)
      else this.(status := FAILED, process := None)
    }

    function AttemptsReset(): Fields { this.(restartAttempts := 0) }

    function Respawning(): Fields {
      this.(status := RESPAWNING, crashesSinceStart := crashesSinceStart + 1, process := None)
    }

    function AttemptCounted(): Fields { this.(restartAttempts := restartAttempts + 1) }

    function Dead(): Fields { this.(status := DEAD, process := None) }

    function ShuttingDown(): Fields { this.(status := SHUTDOWN) }

    function Stopped(): Fields { this.(status := STOPPED, process := None) }
  }

  /** Where monitorProcess stands.  `NilWait` is the call of Wait on a nil process after a
      failed respawn, which never returns normally. */
  datatype Monitor =
    | NoMonitor
    | ReadProcess
    | Waiting(pid: nat)
    | ReadStatus
    | Sending
    | CheckUptime
    | ResetAttempts
    | CheckTries
    | MarkRespawning
    | CountAttempt
    | Spawn
    | SpawnCommit(started: Option<nat>)
    | MarkDead
    | NilWait

  /** Where the controller stands inside Start or Stop. */
  datatype Controller =
    | Idle
    | StartReset
    | StartSpawn
    | StartCommit(started: Option<nat>)
    | StartLaunch
    | StopRead
    | StopMark
    | StopSignal
    | StopSelect
    | StopFinish
  {
    predicate InStart() { StartReset? || StartSpawn? || StartCommit? || StartLaunch? }
    predicate InStopLoop() { StopRead? || StopMark? || StopSignal? || StopSelect? }
  }

  datatype State = State(
    fields: Fields,
    monitor: Monitor,
    controller: Controller,
    timeoutLeft: bool,
    alive: set<nat>,
    nextPid: nat,
    now: int)

  datatype Action =
    | Tick(elapsed: nat)
    | Die(pid: nat)
    | CallStart
    | DoStartReset
    | DoStartSpawn(ok: bool)
    | DoStartCommit
    | DoStartLaunch
    | CallStop
    | DoStopRead
    | DoStopMark
    | DoStopSignal
    | SelectTimeout
    | SelectReceive
    | DoStopFinish
    | DoReadProcess
    | DoWait
    | DoReadStatus
    | DoCheckUptime
    | DoResetAttempts
    | DoCheckTries
    | DoMarkRespawning
    | DoCountAttempt
    | DoSpawn(ok: bool)
    | DoSpawnCommit
    | DoMarkDead

  function Initial(status: Status, now: int): State {
    State(Fields(status, 0, 0, None, 0), NoMonitor, Idle, false, {}, 0, now)
  }

  /** NewService is called with one of these two statuses. */
  predicate InitialStatus(status: Status) { status == STOPPED || status == DISABLED }

  function When(enabled: bool, s: State): Option<State> {
    if enabled then Some(s) else None
  }

  /** os.StartProcess: a fresh live child when it succeeds. */
  function Spawned(s: State, ok: bool): (State, Option<nat>) {
    if ok then (s.(alive := s.alive + {s.nextPid}, nextPid := s.nextPid + 1), Some(s.nextPid))
    else (s, None)
  }

  function Step(policy: RestartPolicy, s: State, a: Action): Option<State> {
    match a
    case Tick(elapsed) => Some(s.(now := s.now + elapsed))
    case Die(pid) => When(pid in s.alive, s.(alive := s.alive - {pid}))
    case _ =>
      var started := StartStep(s, a);
      if started.Some? then started
      else
        var stopped := StopStep(s, a);
        if stopped.Some? then stopped else MonitorStep(policy, s, a)
  }

  /** Start and the startProcess call inside it. */
  function StartStep(s: State, a: Action): Option<State> {
    match a
    case CallStart =>
      if s.fields.status == RUNNING then When(s.controller.Idle?, s)
      else When(s.controller.Idle? && s.monitor.NoMonitor?, s.(controller := StartReset))
    case DoStartReset =>
      When(s.controller.StartReset?, s.(fields := s.fields.CountersReset(), controller := StartSpawn))
    case DoStartSpawn(ok) =>
      var (t, started) := Spawned(s, ok);
      When(s.controller.StartSpawn?, t.(controller := StartCommit(started)))
    case DoStartCommit =>
      if s.controller.StartCommit?
      then Some(s.(fields := s.fields.Started(s.controller.started, s.now), controller := StartLaunch))
      else None
    case DoStartLaunch =>
      When(s.controller.StartLaunch?,
           s.(controller := Idle, monitor := if s.fields.process.Some? then ReadProcess else s.monitor))
    case _ => None
  }

  /** Stop and stopProcess.  The timer of time.After fires at most once; after it the signal is SIGKILL. */
  function StopStep(s: State, a: Action): Option<State> {
    match a
    case CallStop =>
      if s.fields.status == STOPPED || s.fields.status == SHUTDOWN then When(s.controller.Idle?, s)
      else When(s.controller.Idle?, s.(controller := StopRead, timeoutLeft := true))
    case DoStopRead =>
      When(s.controller.StopRead?, s.(controller := if s.fields.process.None? then Idle else StopMark))
    case DoStopMark =>
      When(s.controller.StopMark?, s.(fields := s.fields.ShuttingDown(), controller := StopSignal))
    case DoStopSignal =>
      When(s.controller.StopSignal?, s.(controller := StopSelect))
    case SelectTimeout =>
      When(s.controller.StopSelect? && s.timeoutLeft, s.(controller := StopRead, timeoutLeft := false))
    case SelectReceive =>
      When(s.controller.StopSelect? && s.monitor.Sending?, s.(controller := StopFinish, monitor := NoMonitor))
    case DoStopFinish =>
      When(s.controller.StopFinish?, s.(fields := s.fields.Stopped(), controller := Idle))
    case _ => None
  }

  /** monitorProcess, canRespawn and the startProcess call inside the monitor loop. */
  function MonitorStep(policy: RestartPolicy, s: State, a: Action): Option<State> {
    match a
    case DoReadProcess =>
      When(s.monitor.ReadProcess?,
           s.(monitor := if s.fields.process.Some? then Waiting(s.fields.process.value) else NilWait))
    case DoWait =>
      When(s.monitor.Waiting? && s.monitor.pid !in s.alive, s.(monitor := ReadStatus))
    case DoReadStatus =>
      When(s.monitor.ReadStatus?,
           s.(monitor := if s.fields.status == SHUTDOWN then Sending else CheckUptime))
    case DoCheckUptime =>
      When(s.monitor.CheckUptime?,
           s.(monitor := if s.now - s.fields.startTime >= policy.resetAfterSec then ResetAttempts else CheckTries))
    case DoResetAttempts =>
      When(s.monitor.ResetAttempts?, s.(fields := s.fields.AttemptsReset(), monitor := CheckTries))
    case DoCheckTries =>
      When(s.monitor.CheckTries?,
           s.(monitor := if s.fields.restartAttempts < policy.maxTries then MarkRespawning else MarkDead))
    case DoMarkRespawning =>
      When(s.monitor.MarkRespawning?, s.(fields := s.fields.Respawning(), monitor := CountAttempt))
    case DoCountAttempt =>
      When(s.monitor.CountAttempt?, s.(fields := s.fields.AttemptCounted(), monitor := Spawn))
    case DoSpawn(ok) =>
      var (t, started) := Spawned(s, ok);
      When(s.monitor.Spawn?, t.(monitor := SpawnCommit(started)))
    case DoSpawnCommit =>
      if s.monitor.SpawnCommit?
      then Some(s.(fields := s.fields.Started(s.monitor.started, s.now), monitor := ReadProcess))
      else None
    case DoMarkDead =>
      When(s.monitor.MarkDead?, s.(fields := s.fields.Dead(), monitor := NoMonitor))
    case _ => None
  }

  /** What an observer counts from outside since the last Start. */
  datatype History = History(respawning: nat, respawns: nat, resets: nat, startedAt: int) {
    function After(s: State, a: Action): History {
      match a
      case DoStartReset => History(0, 0, 0, s.now)
      case DoMarkRespawning => this.(respawning := respawning + 1)
      case DoSpawn(_) => this.(respawns := respawns + 1)
      case DoResetAttempts => this.(resets := resets + 1)
      case _ => this
    }
  }

  datatype Config = Config(policy: RestartPolicy, status: Status, now: int)

  /** The state and the observations after a run, None when some action was not enabled. */
  function Exec(c: Config, run: seq<Action>): Option<(State, History)> {
    if run == [] then Some((Initial(c.status, c.now), History(0, 0, 0, c.now)))
    else
      var before := Exec(c, run[..|run| - 1]);
      if before.None? then None
      else
        var a := run[|run| - 1];
        var after := Step(c.policy, before.value.0, a);
        if after.None? then None
        else Some((after.value, before.value.1.After(before.value.0, a)))
  }

  lemma Extend(c: Config, run: seq<Action>, a: Action)
    requires Exec(c, run).Some? && Step(c.policy, Exec(c, run).value.0, a).Some?
    ensures Exec(c, run + [a]) == Some((Step(c.policy, Exec(c, run).value.0, a).value,
                                        Exec(c, run).value.1.After(Exec(c, run).value.0, a)))
  {
    assert (run + [a])[..|run + [a]| - 1] == run;
  }

  // ---------------------------------------------------------------- invariants

  /** The monitor has seen its child exit and has not yet acted on it. */
  predicate HoldsDeadProcess(m: Monitor) {
    m.ReadStatus? || m.Sending? || m.CheckUptime? || m.ResetAttempts? || m.CheckTries? || m.MarkRespawning?
        || m.MarkDead?
  }

  /** The status tells whether there is a process; SHUTDOWN alone says nothing. */
  predicate StatusInv(f: Fields) {
    && (f.status == RUNNING ==> f.process.Some?)
    && (f.status != RUNNING && f.status != SHUTDOWN ==> f.process.None?)
  }

  predicate ProcessInv(s: State) {
    var p := s.fields.process;
    && (s.fields.status == STOPPED || s.fields.status == DISABLED ==> s.monitor.NoMonitor?)
    && (s.monitor.Waiting? ==> p == Some(s.monitor.pid))
    && (HoldsDeadProcess(s.monitor) || s.controller.StopFinish? ==> p.Some? && p.value !in s.alive)
    && (s.monitor.CountAttempt? || s.monitor.Spawn? || s.monitor.SpawnCommit? || s.monitor.NilWait? ==> p.None?)
    && (s.monitor.NoMonitor? && !s.controller.StopFinish? && !s.controller.StartLaunch? ==> p.None?)
    && (s.controller.InStart() || s.controller.StopFinish? ==> s.monitor.NoMonitor?)
    && (forall pid | pid in s.alive ::
          p == Some(pid) || s.monitor == SpawnCommit(Some(pid)) || s.controller == StartCommit(Some(pid)))
  }

  /** Whoever will find, or has found, SHUTDOWN has a stopper to talk to. */
  predicate HandshakeInv(s: State) {
    && (WillSeeShutdown(s) ==> s.controller.InStopLoop())
    && (s.monitor.Sending? ==> s.controller.InStopLoop() && s.fields.status == SHUTDOWN)
    && (s.controller.Idle? && s.fields.status == SHUTDOWN ==> s.fields.process.None?)
    && (s.controller.StartLaunch? ==> s.fields.status == if s.fields.process.Some? then RUNNING else FAILED)
  }

  predicate WillSeeShutdown(s: State) {
    && s.fields.status == SHUTDOWN && s.fields.process.Some?
    && (s.monitor.ReadProcess? || s.monitor.Waiting? || s.monitor.ReadStatus?)
  }

  predicate CounterInv(policy: RestartPolicy, s: State, h: History) {
    var f := s.fields;
    && 0 <= f.restartAttempts <= policy.Tries()
    && f.restartAttempts <= f.crashesSinceStart == h.respawning
    && (s.monitor.MarkRespawning? || s.monitor.CountAttempt? ==> f.restartAttempts < policy.maxTries)
    && (s.monitor.CountAttempt? ==> f.restartAttempts < f.crashesSinceStart)
    && (s.monitor.MarkDead? || (f.status == DEAD && !s.controller.InStart()) ==> f.restartAttempts >= policy.maxTries)
  }

  /** Every attempt is paid for by the counter or by an earlier reset, and every reset by time:
      `earned` is the attempts that the resets gave back, `spent` the uptime they used up. */
  predicate Paid(policy: RestartPolicy, s: State, h: History, earned: int, spent: int) {
    var pending := if s.monitor.Spawn? then 1 else 0;
    && h.respawns + pending <= earned + s.fields.restartAttempts
    && h.startedAt <= s.now
    && (policy.resetAfterSec > 0 ==> spent <= s.now - h.startedAt)
    && (UptimeCounts(s) ==>
          && h.startedAt <= s.fields.startTime <= s.now
          && (policy.resetAfterSec > 0 ==> spent <= s.fields.startTime - h.startedAt)
          && (s.monitor.ResetAttempts? ==> s.now - s.fields.startTime >= policy.resetAfterSec))
    && (s.controller.StartSpawn? || s.controller.StartCommit? || s.controller.StartLaunch? ==> spent == 0)
    && (s.controller.StartLaunch? && s.fields.process.Some? ==> h.startedAt <= s.fields.startTime <= s.now)
  }

  ghost predicate BudgetInv(policy: RestartPolicy, s: State, h: History) {
    Paid(policy, s, h, policy.Tries() * h.resets, policy.resetAfterSec * h.resets)
  }

  predicate UptimeCounts(s: State) {
    || (s.monitor.ReadProcess? && s.fields.process.Some?)
    || s.monitor.Waiting? || s.monitor.ReadStatus? || s.monitor.CheckUptime? || s.monitor.ResetAttempts?
  }

  ghost predicate Inv(policy: RestartPolicy, s: State, h: History) {
    && ControlInv(s)
    && CounterInv(policy, s, h) && BudgetInv(policy, s, h)
  }

  ghost predicate ControlInv(s: State) { StatusInv(s.fields) && ProcessInv(s) && HandshakeInv(s) }

  lemma MonitorKeepsControl(policy: RestartPolicy, s: State, a: Action)
    requires ControlInv(s) && MonitorStep(policy, s, a).Some?
    ensures ControlInv(MonitorStep(policy, s, a).value)
  {
  }

  lemma ControllerKeepsControl(s: State, t: State, a: Action)
    requires ControlInv(s) && (StartStep(s, a) == Some(t) || StopStep(s, a) == Some(t))
    ensures ControlInv(t)
  {
  }

  lemma StepKeepsControl(policy: RestartPolicy, s: State, a: Action)
    requires ControlInv(s) && Step(policy, s, a).Some?
    ensures ControlInv(Step(policy, s, a).value)
  {
    if a.Tick? || a.Die? {
    } else if StartStep(s, a).Some? || StopStep(s, a).Some? {
      ControllerKeepsControl(s, Step(policy, s, a).value, a);
    } else {
      MonitorKeepsControl(policy, s, a);
    }
  }

  lemma StepKeepsCounters(policy: RestartPolicy, s: State, h: History, a: Action)
    requires Inv(policy, s, h) && Step(policy, s, a).Some?
    ensures CounterInv(policy, Step(policy, s, a).value, h.After(s, a))
  {
  }

  /** A counter that `a` makes grow by `unit` when it resets the attempts. */
  function Accrued(a: Action, total: int, unit: int): int {
    if a.DoStartReset? then 0 else if a.DoResetAttempts? then total + unit else total
  }

  lemma MonitorKeepsPaid(policy: RestartPolicy, s: State, h: History, earned: int, spent: int, a: Action)
    requires CounterInv(policy, s, h) && Paid(policy, s, h, earned, spent) && ProcessInv(s)
    requires MonitorStep(policy, s, a).Some?
    ensures Paid(policy, MonitorStep(policy, s, a).value, h.After(s, a),
                 Accrued(a, earned, policy.Tries()), Accrued(a, spent, policy.resetAfterSec))
  {
  }

  lemma ControllerKeepsPaid(policy: RestartPolicy, s: State, t: State, h: History, earned: int, spent: int, a: Action)
    requires CounterInv(policy, s, h) && Paid(policy, s, h, earned, spent) && ProcessInv(s)
    requires StartStep(s, a) == Some(t) || StopStep(s, a) == Some(t)
    ensures Paid(policy, t, h.After(s, a), Accrued(a, earned, policy.Tries()), Accrued(a, spent, policy.resetAfterSec))
  {
  }

  lemma StepKeepsPaid(policy: RestartPolicy, s: State, h: History, earned: int, spent: int, a: Action)
    requires ProcessInv(s) && CounterInv(policy, s, h) && Paid(policy, s, h, earned, spent)
    requires Step(policy, s, a).Some?
    ensures Paid(policy, Step(policy, s, a).value, h.After(s, a),
                 Accrued(a, earned, policy.Tries()), Accrued(a, spent, policy.resetAfterSec))
  {
    if a.Tick? || a.Die? {
    } else if StartStep(s, a).Some? || StopStep(s, a).Some? {
      ControllerKeepsPaid(policy, s, Step(policy, s, a).value, h, earned, spent, a);
    } else {
      MonitorKeepsPaid(policy, s, h, earned, spent, a);
    }
  }

  lemma StepKeepsBudget(policy: RestartPolicy, s: State, h: History, a: Action)
    requires Inv(policy, s, h) && Step(policy, s, a).Some?
    ensures BudgetInv(policy, Step(policy, s, a).value, h.After(s, a))
  {
    var m, r := policy.Tries(), policy.resetAfterSec;
    StepKeepsPaid(policy, s, h, m * h.resets, r * h.resets, a);
    assert Accrued(a, m * h.resets, m) == m * h.After(s, a).resets;
    assert Accrued(a, r * h.resets, r) == r * h.After(s, a).resets;
  }

  lemma StepKeepsInv(policy: RestartPolicy, s: State, h: History, a: Action)
    requires Inv(policy, s, h) && Step(policy, s, a).Some?
    ensures Inv(policy, Step(policy, s, a).value, h.After(s, a))
  {
    StepKeepsControl(policy, s, a);
    StepKeepsCounters(policy, s, h, a);
    StepKeepsBudget(policy, s, h, a);
  }

  lemma {:induction false} RunKeepsInv(c: Config, run: seq<Action>)
    requires InitialStatus(c.status) && Exec(c, run).Some?
    ensures Inv(c.policy, Exec(c, run).value.0, Exec(c, run).value.1)
  {
    if run != [] {
      var before := run[..|run| - 1];
      RunKeepsInv(c, before);
      var (s, h) := Exec(c, before).value;
      var a := run[|run| - 1];
      StepKeepsInv(c.policy, s, h, a);
    }
  }
}
