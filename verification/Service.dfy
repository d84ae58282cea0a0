/** The service object itself.  It keeps its fields and where its two goroutines stand, and takes
    every decision of the source on them; a schedule only says who moves next and what the
    operating system answers. */
module SupervisedService {
  import opened Supervisor
  import opened SupervisorProperties
  import opened Wrappers

  /** What the controller is asked for when it has a choice. */
  datatype Wish = WantNothing | WantStart | WantStop | WantTimeout

  /** Who moves next; `ok` is the answer of the operating system to a spawn. */
  datatype Turn = Elapse(seconds: nat) | ChildDies(pid: nat) | MonitorTurn(ok: bool)
      | ControllerTurn(wish: Wish, ok: bool)

  predicate IsMonitorAction(a: Action) {
    || a.DoReadProcess? || a.DoWait? || a.DoReadStatus? || a.DoCheckUptime? || a.DoResetAttempts? || a.DoCheckTries?
    || a.DoMarkRespawning? || a.DoCountAttempt? || a.DoSpawn? || a.DoSpawnCommit? || a.DoMarkDead?
  }

  /** Is `a` an action that a turn may turn out to be? */
  predicate IsTurn(a: Action, turn: Turn) {
    match turn
    case Elapse(seconds) => a == Tick(seconds)
    case ChildDies(pid) => a == Die(pid)
    case MonitorTurn(ok) => IsMonitorAction(a) && (a.DoSpawn? ==> a.ok == ok)
    case ControllerTurn(wish, ok) =>
      && !a.Tick? && !a.Die? && !IsMonitorAction(a)
      && (a.CallStart? ==> wish.WantStart?) && (a.CallStop? ==> wish.WantStop?)
      && (a.SelectTimeout? ==> wish.WantTimeout?) && (a.SelectReceive? ==> !wish.WantTimeout?)
      && (a.DoStartSpawn? ==> a.ok == ok)
  }

  function TurnOf(a: Action): (turn: Turn)
    ensures IsTurn(a, turn)
  {
    match a
    case Tick(elapsed) => Elapse(elapsed)
    case Die(pid) => ChildDies(pid)
    case DoSpawn(ok) => MonitorTurn(ok)
    case DoStartSpawn(ok) => ControllerTurn(WantNothing, ok)
    case CallStart => ControllerTurn(WantStart, false)
    case CallStop => ControllerTurn(WantStop, false)
    case SelectTimeout => ControllerTurn(WantTimeout, false)
    case _ => if IsMonitorAction(a) then MonitorTurn(false) else ControllerTurn(WantNothing, false)
  }

  class Service {
    const policy: RestartPolicy
    var status: Status
    var restartAttempts: int
    var crashesSinceStart: int
    var process: Option<nat>
    var startTime: int
    var monitor: Monitor
    var controller: Controller
    var timeoutLeft: bool
    var alive: set<nat>
    var nextPid: nat
    var now: int
    ghost var history: History

    ghost function View(): State
      reads this
    {
      State(Fields(status, restartAttempts, crashesSinceStart, process, startTime),
            monitor, controller, timeoutLeft, alive, nextPid, now)
    }

    /** The invariant of all reachable states. */
    ghost predicate Valid()
      reads this
    {
      Inv(policy, View(), history)
    }

    /** NewService. */
    constructor (c: Config)
      requires InitialStatus(c.status)
      ensures Valid() && policy == c.policy && Exec(c, []) == Some((View(), history))
    {
      policy := c.policy;
      status, restartAttempts, crashesSinceStart, process, startTime := c.status, 0, 0, None, 0;
      monitor, controller, timeoutLeft := NoMonitor, Idle, false;
      alive, nextPid, now := {}, 0, c.now;
      history := History(0, 0, 0, c.now);
      new;
      RunKeepsInv(c, []);
    }

    /** One turn: the object does one enabled action, and the turn leaves it no other; or nothing
        is enabled and nothing happens.  The invariant stays. */
    method Take(turn: Turn) returns (a: Option<Action>)
      requires Valid()
      modifies this
      ensures Valid()
      ensures a.Some? ==>
                && IsTurn(a.value, turn) && Step(policy, old(View()), a.value) == Some(View())
                && history == old(history).After(old(View()), a.value)
      ensures a.None? ==> View() == old(View()) && history == old(history)
      ensures forall b | IsTurn(b, turn) && Step(policy, old(View()), b).Some? :: a == Some(b)
    {
      ghost var s, h := View(), history;
      a := Move(turn);
      if a.Some? {
        history := h.After(s, a.value);
        StepKeepsInv(policy, s, h, a.value);
        forall b | IsTurn(b, turn) && Step(policy, s, b).Some? ensures a == Some(b) {
          TurnIsDetermined(policy, s, turn, a.value, b);
        }
      }
    }

    method Move(turn: Turn) returns (a: Option<Action>)
      modifies this`status, this`restartAttempts, this`crashesSinceStart, this`process, this`startTime,
               this`monitor, this`controller, this`timeoutLeft, this`alive, this`nextPid, this`now
      ensures a.Some? ==> IsTurn(a.value, turn) && Step(policy, old(View()), a.value) == Some(View())
      ensures a.None? ==> View() == old(View()) && forall b | IsTurn(b, turn) :: Step(policy, View(), b).None?
    {
      match turn {
        case Elapse(seconds) =>
          now := now + seconds;
          a := Some(Tick(seconds));
        case ChildDies(pid) =>
          a := None;
          if pid in alive {
            alive := alive - {pid};
            a := Some(Die(pid));
          }
        case MonitorTurn(ok) =>
          a := MonitorMoves(ok);
        case ControllerTurn(wish, ok) =>
          a := ControllerMoves(wish, ok);
      }
    }

    // -------------------------------------------------------------- monitorProcess

    /** The next critical section, wait or send of the monitor. */
    method MonitorMoves(ok: bool) returns (a: Option<Action>)
      modifies this`status, this`restartAttempts, this`crashesSinceStart, this`process, this`startTime,
               this`monitor, this`alive, this`nextPid
      ensures a.Some? ==> IsTurn(a.value, MonitorTurn(ok)) && Step(policy, old(View()), a.value) == Some(View())
      ensures a.None? ==> View() == old(View()) && forall b :: MonitorStep(policy, View(), b).None?
    {
      if monitor.ReadProcess? || monitor.Waiting? || monitor.ReadStatus? {
        a := WaitForProcess(ok);
      } else if monitor.CheckUptime? || monitor.ResetAttempts? || monitor.CheckTries? {
        a := CanRespawn(ok);
      } else if monitor.MarkRespawning? || monitor.CountAttempt? || monitor.MarkDead? {
        a := HandleDeath(ok);
      } else if monitor.Spawn? || monitor.SpawnCommit? {
        a := Respawn(ok);
      } else {
        a := None;
      }
    }

    method WaitForProcess(ok: bool) returns (a: Option<Action>)
      requires monitor.ReadProcess? || monitor.Waiting? || monitor.ReadStatus?
      modifies this`monitor
      ensures a.Some? ==> IsTurn(a.value, MonitorTurn(ok)) && Step(policy, old(View()), a.value) == Some(View())
      ensures a.None? ==> View() == old(View()) && forall b :: MonitorStep(policy, View(), b).None?
    {
      match monitor {
        case ReadProcess =>
          monitor := if process.Some? then Waiting(process.value) else NilWait;
          a := Some(DoReadProcess);
        case Waiting(pid) =>
          a := None;
          if pid !in alive {
            monitor := ReadStatus;
            a := Some(DoWait);
          }
        case ReadStatus =>
          monitor := if status == SHUTDOWN then Sending else CheckUptime;
          a := Some(DoReadStatus);
      }
    }

    /** The three steps of canRespawn. */
    method CanRespawn(ok: bool) returns (a: Option<Action>)
      requires monitor.CheckUptime? || monitor.ResetAttempts? || monitor.CheckTries?
      modifies this`monitor, this`restartAttempts
      ensures a.Some? && IsTurn(a.value, MonitorTurn(ok)) && Step(policy, old(View()), a.value) == Some(View())
    {
      match monitor {
        case CheckUptime =>
          var uptime := now - startTime;
          var canResetCounter := uptime >= policy.resetAfterSec;
          monitor := if canResetCounter then ResetAttempts else CheckTries;
          a := Some(DoCheckUptime);
        case ResetAttempts =>
          restartAttempts := 0;
          monitor := CheckTries;
          a := Some(DoResetAttempts);
        case CheckTries =>
          monitor := if restartAttempts < policy.maxTries then MarkRespawning else MarkDead;
          a := Some(DoCheckTries);
      }
    }

    /** What follows the decision: the child is given up, or replaced. */
    method HandleDeath(ok: bool) returns (a: Option<Action>)
      requires monitor.MarkRespawning? || monitor.CountAttempt? || monitor.MarkDead?
      modifies this`status, this`restartAttempts, this`crashesSinceStart, this`process, this`monitor
      ensures a.Some? && IsTurn(a.value, MonitorTurn(ok)) && Step(policy, old(View()), a.value) == Some(View())
    {
      match monitor {
        case MarkRespawning =>
          status, crashesSinceStart, process := RESPAWNING, crashesSinceStart + 1, None;
          monitor := CountAttempt;
          a := Some(DoMarkRespawning);
        case CountAttempt =>
          restartAttempts := restartAttempts + 1;
          monitor := Spawn;
          a := Some(DoCountAttempt);
        case MarkDead =>
          status, process := DEAD, None;
          monitor := NoMonitor;
          a := Some(DoMarkDead);
      }
    }

    method Respawn(ok: bool) returns (a: Option<Action>)
      requires monitor.Spawn? || monitor.SpawnCommit?
      modifies this`status, this`process, this`startTime, this`monitor, this`alive, this`nextPid
      ensures a.Some? && IsTurn(a.value, MonitorTurn(ok)) && Step(policy, old(View()), a.value) == Some(View())
    {
      match monitor {
        case Spawn =>
          var started := StartChild(ok);
          monitor := SpawnCommit(started);
          a := Some(DoSpawn(ok));
        case SpawnCommit(started) =>
          CommitStart(started);
          monitor := ReadProcess;
          a := Some(DoSpawnCommit);
      }
    }

    // -------------------------------------------------------------- startProcess

    method StartChild(ok: bool) returns (started: Option<nat>)
      modifies this`alive, this`nextPid
      ensures View() == Spawned(old(View()), ok).0 && started == Spawned(old(View()), ok).1
    {
      started := None;
      if ok {
        started := Some(nextPid);
        alive, nextPid := alive + {nextPid}, nextPid + 1;
      }
    }

    method CommitStart(started: Option<nat>)
      modifies this`status, this`process, this`startTime
      ensures View() == old(View()).(fields := old(View()).fields.Started(started, now))
    {
      if started.None? {
        status, process := FAILED, None;
      } else {
        status, process, startTime := RUNNING, started, now;
      }
    }

    // -------------------------------------------------------------- Start and Stop

    /** The next critical section, signal or select of Start or Stop, or a new call. */
    method ControllerMoves(wish: Wish, ok: bool) returns (a: Option<Action>)
      modifies this`status, this`restartAttempts, this`crashesSinceStart, this`process, this`startTime,
               this`monitor, this`controller, this`timeoutLeft, this`alive, this`nextPid
      ensures a.Some? ==>
          IsTurn(a.value, ControllerTurn(wish, ok)) && Step(policy, old(View()), a.value) == Some(View())
      ensures a.None? ==> View() == old(View()) && forall b | IsTurn(b, ControllerTurn(wish, ok)) ::
                            StartStep(View(), b).None? && StopStep(View(), b).None?
    {
      if controller.Idle? {
        a := Call(wish, ok);
      } else if controller.InStart() {
        a := GoOnStarting(wish, ok);
      } else if controller.StopSelect? || controller.StopFinish? {
        a := Select(wish, ok);
      } else {
        a := GoOnStopping(wish, ok);
      }
    }

    /** The guards of Start and Stop.  Start is not called while a monitor is alive. */
    method Call(wish: Wish, ok: bool) returns (a: Option<Action>)
      requires controller.Idle?
      modifies this`controller, this`timeoutLeft
      ensures a.Some? ==>
          IsTurn(a.value, ControllerTurn(wish, ok)) && Step(policy, old(View()), a.value) == Some(View())
      ensures a.None? ==> View() == old(View()) && forall b | IsTurn(b, ControllerTurn(wish, ok)) ::
                            StartStep(View(), b).None? && StopStep(View(), b).None?
    {
      a := None;
      if wish.WantStart? {
        if status == RUNNING {
          a := Some(CallStart);
        } else if monitor.NoMonitor? {
          controller := StartReset;
          a := Some(CallStart);
        }
      } else if wish.WantStop? {
        if status != STOPPED && status != SHUTDOWN {
          controller, timeoutLeft := StopRead, true;
        }
        a := Some(CallStop);
      }
    }

    method GoOnStarting(wish: Wish, ok: bool) returns (a: Option<Action>)
      requires controller.InStart()
      modifies this`status, this`restartAttempts, this`crashesSinceStart, this`process, this`startTime,
               this`monitor, this`controller, this`alive, this`nextPid
      ensures a.Some? && IsTurn(a.value, ControllerTurn(wish, ok)) && Step(policy, old(View()), a.value) == Some(View())
    {
      match controller {
        case StartReset =>
          restartAttempts, crashesSinceStart := 0, 0;
          controller := StartSpawn;
          a := Some(DoStartReset);
        case StartSpawn =>
          var started := StartChild(ok);
          controller := StartCommit(started);
          a := Some(DoStartSpawn(ok));
        case StartCommit(started) =>
          CommitStart(started);
          controller := StartLaunch;
          a := Some(DoStartCommit);
        case StartLaunch =>
          if process.Some? {
            monitor := ReadProcess;
          }
          controller := Idle;
          a := Some(DoStartLaunch);
      }
    }

    /** stopProcess up to its select. */
    method GoOnStopping(wish: Wish, ok: bool) returns (a: Option<Action>)
      requires controller.StopRead? || controller.StopMark? || controller.StopSignal?
      modifies this`status, this`controller
      ensures a.Some? && IsTurn(a.value, ControllerTurn(wish, ok)) && Step(policy, old(View()), a.value) == Some(View())
    {
      match controller {
        case StopRead =>
          controller := if process.None? then Idle else StopMark;
          a := Some(DoStopRead);
        case StopMark =>
          status := SHUTDOWN;
          controller := StopSignal;
          a := Some(DoStopMark);
        case StopSignal =>
          controller := StopSelect;
          a := Some(DoStopSignal);
      }
    }

    /** The select of stopProcess, and what follows a receive. */
    method Select(wish: Wish, ok: bool) returns (a: Option<Action>)
      requires controller.StopSelect? || controller.StopFinish?
      modifies this`status, this`process, this`monitor, this`controller, this`timeoutLeft
      ensures a.Some? ==>
          IsTurn(a.value, ControllerTurn(wish, ok)) && Step(policy, old(View()), a.value) == Some(View())
      ensures a.None? ==> View() == old(View()) && forall b | IsTurn(b, ControllerTurn(wish, ok)) ::
                            StartStep(View(), b).None? && StopStep(View(), b).None?
    {
      a := None;
      if controller.StopFinish? {
        status, process := STOPPED, None;
        controller := Idle;
        a := Some(DoStopFinish);
      } else if wish.WantTimeout? {
        if timeoutLeft {
          controller, timeoutLeft := StopRead, false;
          a := Some(SelectTimeout);
        }
      } else if monitor.Sending? {
        controller, monitor := StopFinish, NoMonitor;
        a := Some(SelectReceive);
      }
    }
  }

  lemma TurnIsDetermined(policy: RestartPolicy, s: State, turn: Turn, a: Action, b: Action)
    requires IsTurn(a, turn) && IsTurn(b, turn) && Step(policy, s, a).Some? && Step(policy, s, b).Some?
    ensures a == b
  {
    if turn.MonitorTurn? {
      MonitorIsDetermined(policy, s, turn, a, b);
    } else if turn.ControllerTurn? {
      ControllerIsDetermined(s, turn, a, b);
    }
  }

  lemma MonitorIsDetermined(policy: RestartPolicy, s: State, turn: Turn, a: Action, b: Action)
    requires turn.MonitorTurn? && IsTurn(a, turn) && IsTurn(b, turn)
    requires MonitorStep(policy, s, a).Some? && MonitorStep(policy, s, b).Some?
    ensures a == b
  {
  }

  lemma ControllerIsDetermined(s: State, turn: Turn, a: Action, b: Action)
    requires turn.ControllerTurn? && IsTurn(a, turn) && IsTurn(b, turn)
    requires StartStep(s, a).Some? || StopStep(s, a).Some?
    requires StartStep(s, b).Some? || StopStep(s, b).Some?
    ensures a == b
  {
  }

  /** Any schedule: what the object did is a run, and so the guarantees of all runs are
      guarantees about its fields. */
  method Supervise(c: Config, schedule: seq<Turn>) returns (service: Service, ghost run: seq<Action>)
    requires InitialStatus(c.status)
    ensures fresh(service) && service.policy == c.policy
    ensures Exec(c, run) == Some((service.View(), service.history))
    ensures service.status == RUNNING ==> service.process.Some?
    ensures service.controller.Idle? && service.status == STOPPED ==>
              service.process.None? && service.monitor.NoMonitor? && service.alive == {}
    ensures forall p, q | p in service.alive && q in service.alive :: p == q
    ensures 0 <= service.restartAttempts <= c.policy.Tries()
    ensures c.policy.resetAfterSec > 0 ==>
              service.history.respawns <=
                c.policy.Tries() * ((service.now - service.history.startedAt) / c.policy.resetAfterSec + 1)
  {
    service := new Service(c);
    run := [];
    for i := 0 to |schedule|
      invariant fresh(service) && service.policy == c.policy && service.Valid()
      invariant Exec(c, run) == Some((service.View(), service.history))
    {
      var a := service.Take(schedule[i]);
      if a.Some? {
        Extend(c, run, a.value);
        run := run + [a.value];
      }
    }
    StatusTellsProcess(c, run, service.View(), service.history);
    AtMostOneChild(c, run, service.View(), service.history);
    if service.controller.Idle? && service.status == STOPPED {
      StoppedMeansGone(c, run, service.View(), service.history);
    }
    if c.policy.resetAfterSec > 0 {
      RestartBudget(c, run, service.View(), service.history);
    }
  }

  /** And every run is one of the object's: given only who moves, it takes the very same steps. */
  method Replay(c: Config, run: seq<Action>) returns (service: Service)
    requires InitialStatus(c.status) && Exec(c, run).Some?
    ensures fresh(service) && Exec(c, run) == Some((service.View(), service.history))
  {
    service := new Service(c);
    for i := 0 to |run|
      invariant fresh(service) && service.policy == c.policy && service.Valid()
      invariant Exec(c, run[..i]) == Some((service.View(), service.history))
    {
      PrefixRuns(c, run, i + 1);
      assert run[..i + 1][..i] == run[..i];
      var _ := service.Take(TurnOf(run[i]));
    }
    assert run[..|run|] == run;
  }

  lemma {:induction false} PrefixRuns(c: Config, run: seq<Action>, n: nat)
    requires n <= |run| && Exec(c, run).Some?
    ensures Exec(c, run[..n]).Some?
  {
    if n < |run| {
      assert run[..|run| - 1][..n] == run[..n];
      PrefixRuns(c, run[..|run| - 1], n);
    } else {
      assert run[..n] == run;
    }
  }
}
