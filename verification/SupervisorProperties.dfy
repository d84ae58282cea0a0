/** What the supervisor guarantees over every run, and where it stops guaranteeing it. */
module SupervisorProperties {
  import opened Supervisor
  import opened Wrappers

  /** `s` and `h` are the state and the observations after `run`. */
  ghost predicate Reached(c: Config, run: seq<Action>, s: State, h: History) {
    InitialStatus(c.status) && Exec(c, run) == Some((s, h))
  }

  // ---------------------------------------------------------------- safety over every run

  lemma StatusTellsProcess(c: Config, run: seq<Action>, s: State, h: History)
    requires Reached(c, run, s, h)
    ensures s.fields.status == RUNNING ==> s.fields.process.Some?
    ensures s.fields.status in {RESPAWNING, DEAD, FAILED, STOPPED, DISABLED} ==> s.fields.process.None?
    ensures 0 <= s.fields.restartAttempts <= c.policy.Tries()
    ensures s.fields.restartAttempts <= s.fields.crashesSinceStart == h.respawning
    ensures s.fields.status == DEAD && s.controller.Idle? ==> s.fields.restartAttempts == c.policy.Tries()
  {
    RunKeepsInv(c, run);
  }

  lemma AtMostOneChild(c: Config, run: seq<Action>, s: State, h: History)
    requires Reached(c, run, s, h)
    ensures forall p, q | p in s.alive && q in s.alive :: p == q
  {
    RunKeepsInv(c, run);
  }

  /** STOPPED is never reported while a child or its monitor survives. */
  lemma StoppedMeansGone(c: Config, run: seq<Action>, s: State, h: History)
    requires Reached(c, run, s, h)
    requires s.controller.Idle? && s.fields.status == STOPPED
    ensures s.fields.process.None? && s.monitor.NoMonitor? && s.alive == {}
  {
    RunKeepsInv(c, run);
  }

  // ---------------------------------------------------------------- the stop handshake

  /** A monitor blocked on the channel has a stopper that is still in its loop. */
  lemma SenderHasReceiver(c: Config, run: seq<Action>, s: State, h: History)
    requires Reached(c, run, s, h) && s.monitor.Sending?
    ensures s.controller.InStopLoop() && s.fields.status == SHUTDOWN
    ensures s.fields.process.Some? && s.fields.process.value !in s.alive
  {
    RunKeepsInv(c, run);
  }

  /** Whatever runs next, the send stays offered until it is received; from then on only the
      clock can come before the stopper reports STOPPED. */
  lemma SendIsNeverLost(c: Config, run: seq<Action>, s: State, h: History, a: Action)
    requires Reached(c, run, s, h) && s.monitor.Sending? && Step(c.policy, s, a).Some?
    ensures var t := Step(c.policy, s, a).value;
            || (t.monitor.Sending? && t.controller.InStopLoop() && t.fields.process == s.fields.process)
            || (a.SelectReceive? && OnlyFinishes(c.policy, t))
  {
    RunKeepsInv(c, run);
  }

  ghost predicate OnlyFinishes(policy: RestartPolicy, t: State) {
    forall b | Step(policy, t, b).Some? ::
      b.Tick? || (b.DoStopFinish? && FullyStopped(Step(policy, t, b).value))
  }

  predicate FullyStopped(s: State) {
    && s.fields.status == STOPPED && s.fields.process.None?
    && s.monitor.NoMonitor? && s.controller.Idle? && s.alive == {}
  }

  /** A point of a run: what has been done, and the state and observations it led to. */
  datatype Point = Point(run: seq<Action>, s: State, h: History)

  ghost predicate Valid(c: Config, p: Point) { Exec(c, p.run) == Some((p.s, p.h)) }

  /** One more action. */
  lemma Act(c: Config, p: Point, a: Action) returns (q: Point)
    requires Valid(c, p) && Step(c.policy, p.s, a).Some?
    ensures q == Point(p.run + [a], Step(c.policy, p.s, a).value, p.h.After(p.s, a)) && Valid(c, q)
  {
    q := Point(p.run + [a], Step(c.policy, p.s, a).value, p.h.After(p.s, a));
    Extend(c, p.run, a);
  }

  predicate NoRestart(more: seq<Action>) { CallStart !in more }

  predicate NoCalls(more: seq<Action>) { CallStart !in more && CallStop !in more }

  /** `q` is reached from `p` without a new call of Start or Stop. */
  predicate Leads(p: Point, q: Point) { p.run <= q.run && NoCalls(q.run[|p.run|..]) }

  /** One more action, and no call. */
  lemma ActOn(c: Config, o: Point, p: Point, a: Action) returns (q: Point)
    requires Valid(c, p) && Step(c.policy, p.s, a).Some? && NoCalls([a]) && Leads(o, p)
    ensures q == Point(p.run + [a], Step(c.policy, p.s, a).value, p.h.After(p.s, a)) && Valid(c, q) && Leads(o, q)
  {
    q := Act(c, p, a);
    assert q.run[|o.run|..] == p.run[|o.run|..] + [a];
  }

  /** The stopper walks to its select while the monitor keeps offering its send. */
  lemma WalkToSelect(c: Config, p: Point) returns (q: Point)
    requires Valid(c, p) && p.s.monitor.Sending? && p.s.controller.InStopLoop()
    requires p.s.fields.process.Some? && p.s.fields.status == SHUTDOWN
    ensures Valid(c, q) && q.s == p.s.(controller := StopSelect) && p.run <= q.run && |q.run| <= |p.run| + 3
  {
    q := p;
    if q.s.controller.StopRead? { q := Act(c, q, DoStopRead); }
    if q.s.controller.StopMark? { q := Act(c, q, DoStopMark); }
    if q.s.controller.StopSignal? { q := Act(c, q, DoStopSignal); }
  }

  lemma Received(c: Config, o: Point, p: Point) returns (q: Point)
    requires Valid(c, p) && Leads(o, p) && ProcessInv(p.s) && p.s.controller.StopSelect? && p.s.monitor.Sending?
    ensures Valid(c, q) && Leads(o, q) && FullyStopped(q.s) && q.run == p.run + [SelectReceive, DoStopFinish]
  {
    q := ActOn(c, o, p, SelectReceive);
    q := ActOn(c, o, q, DoStopFinish);
  }

  /** The stopper's own moves finish the handshake: at most five of them. */
  lemma HandshakeCompletes(c: Config, run: seq<Action>, s: State, h: History)
    requires Reached(c, run, s, h) && s.monitor.Sending?
    ensures exists more | |more| <= 5 ::
              Exec(c, run + more).Some? && FullyStopped(Exec(c, run + more).value.0)
  {
    RunKeepsInv(c, run);
    var p := WalkToSelect(c, Point(run, s, h));
    p := Received(c, p, p);
    assert p.run == run + p.run[|run|..];
  }

  /** Running on from a state, the first action first. */
  function Continue(policy: RestartPolicy, s: State, h: History, more: seq<Action>): Option<(State, History)>
    decreases |more|
  {
    if more == [] then Some((s, h))
    else
      var next := Step(policy, s, more[0]);
      if next.None? then None else Continue(policy, next.value, h.After(s, more[0]), more[1..])
  }

  lemma {:induction false} Unfold(c: Config, run: seq<Action>, more: seq<Action>)
    requires Exec(c, run).Some?
    ensures Exec(c, run + more) == Continue(c.policy, Exec(c, run).value.0, Exec(c, run).value.1, more)
    decreases |more|
  {
    if more == [] {
      assert run + more == run;
    } else {
      assert run + more == (run + more[..1]) + more[1..];
      if Step(c.policy, Exec(c, run).value.0, more[0]).Some? {
        Extend(c, run, more[0]);
        Unfold(c, run + more[..1], more[1..]);
      } else {
        assert (run + more[..1])[..|run + more[..1]| - 1] == run;
        NoneStays(c, run + more[..1], more[1..]);
      }
    }
  }

  lemma {:induction false} NoneStays(c: Config, run: seq<Action>, more: seq<Action>)
    requires Exec(c, run).None?
    ensures Exec(c, run + more).None?
  {
    if more == [] {
      assert run + more == run;
    } else {
      NoneStays(c, run, more[..|more| - 1]);
      assert (run + more)[..|run + more| - 1] == run + more[..|more| - 1];
    }
  }

  // ---------------------------------------------------------------- where Stop can be lost

  /** The stopper waits with its timeout already spent: only the handshake can release it. */
  predicate FinalWait(s: State) { s.controller.StopSelect? && !s.timeoutLeft }

  predicate Doomed(s: State) { FinalWait(s) && !s.monitor.Sending? && !WillSeeShutdown(s) }

  /** Stop returns from its final wait if and only if the monitor has read, or is still to
      read, the SHUTDOWN status; a monitor already past that read leaves Stop waiting forever. */
  lemma FinalWaitReturnsIff(c: Config, run: seq<Action>, s: State, h: History)
    requires Reached(c, run, s, h) && FinalWait(s)
    ensures (exists more :: Exec(c, run + more).Some? && Exec(c, run + more).value.0.controller.Idle?)
            <==> s.monitor.Sending? || WillSeeShutdown(s)
  {
    RunKeepsInv(c, run);
    if Doomed(s) {
      forall more | Exec(c, run + more).Some? ensures !Exec(c, run + more).value.0.controller.Idle? {
        Unfold(c, run, more);
        DoomedForever(c.policy, s, h, more);
      }
    } else {
      var p := Point(run, s, h);
      var o := p;
      if WillSeeShutdown(s) { p := WalkToSending(c, o, p); }
      p := Received(c, o, p);
      assert p.run == run + p.run[|run|..];
    }
  }

  /** The child dies and the monitor finds SHUTDOWN. */
  lemma WalkToSending(c: Config, o: Point, p: Point) returns (q: Point)
    requires Valid(c, p) && Leads(o, p) && ProcessInv(p.s) && WillSeeShutdown(p.s)
    ensures Valid(c, q) && Leads(o, q) && p.run <= q.run
    ensures q.s.monitor.Sending? && q.s.controller == p.s.controller && ProcessInv(q.s)
    decreases !p.s.monitor.ReadStatus?, p.s.monitor.ReadProcess?, p.s.alive
  {
    var m, pid := p.s.monitor, p.s.fields.process.value;
    if m.ReadStatus? {
      q := ActOn(c, o, p, DoReadStatus);
    } else {
      q := ActOn(c, o, p, if m.ReadProcess? then DoReadProcess else if pid in p.s.alive then Die(pid) else DoWait);
      q := WalkToSending(c, o, q);
    }
  }

  lemma {:induction false} DoomedForever(policy: RestartPolicy, s: State, h: History, more: seq<Action>)
    requires Doomed(s) && Continue(policy, s, h, more).Some?
    requires s.fields.process.None? ==> !s.monitor.Waiting? && !HoldsDeadProcess(s.monitor)
    ensures Doomed(Continue(policy, s, h, more).value.0)
    decreases |more|
  {
    if more != [] {
      DoomedForever(policy, Step(policy, s, more[0]).value, h.After(s, more[0]), more[1..]);
    }
  }

  lemma FirstStart(c: Config) returns (p: Point)
    requires InitialStatus(c.status)
    ensures Valid(c, p) && Running(p.s) && p.s.controller.Idle?
    ensures p.h == History(0, 0, 0, c.now) && p.s.now == c.now == p.s.fields.startTime
        && p.s.fields.restartAttempts == 0
  {
    p := FirstSpawn(c);
    p := Act(c, p, DoStartCommit);
    p := Act(c, p, DoStartLaunch);
  }

  lemma FirstSpawn(c: Config) returns (p: Point)
    requires InitialStatus(c.status)
    ensures Valid(c, p) && p.h == History(0, 0, 0, c.now)
    ensures p.s == Initial(c.status, c.now).(controller := StartCommit(Some(0)), alive := {0}, nextPid := 1)
  {
    p := Point([], Initial(c.status, c.now), History(0, 0, 0, c.now));
    p := Act(c, p, CallStart);
    p := Act(c, p, DoStartReset);
    p := Act(c, p, DoStartSpawn(true));
  }

  /** One live child, and a monitor about to wait for it. */
  predicate Running(s: State) {
    && s.fields.status == RUNNING && s.fields.process.Some? && s.monitor.ReadProcess?
    && s.alive == {s.fields.process.value}
  }

  /** The running child dies and the monitor finds the status still RUNNING. */
  lemma Crash(c: Config, p: Point) returns (q: Point)
    requires Valid(c, p) && Running(p.s)
    ensures Valid(c, q) && q.s == p.s.(monitor := CheckUptime, alive := {}) && q.h == p.h && p.run <= q.run
  {
    var pid := p.s.fields.process.value;
    q := Act(c, p, DoReadProcess);
    q := Act(c, q, Die(pid));
    q := Act(c, q, DoWait);
    q := Act(c, q, DoReadStatus);
  }

  /** The monitor goes from the crash to sleeping before the respawn, if it has tries left. */
  lemma CrashHandled(c: Config, p: Point) returns (q: Point)
    requires Valid(c, p) && p.s.monitor.CheckUptime? && c.policy.maxTries > 0
    requires p.s.fields.restartAttempts == 0 || p.s.now - p.s.fields.startTime >= c.policy.resetAfterSec
    ensures Valid(c, q) && p.run <= q.run && q.h.respawns == p.h.respawns && q.h.startedAt == p.h.startedAt
    ensures q.s.monitor.CountAttempt? && q.s.controller == p.s.controller && q.s.alive == p.s.alive
        && q.s.now == p.s.now
    ensures q.s.fields.process.None? && q.s.fields.status == RESPAWNING && q.s.timeoutLeft == p.s.timeoutLeft
  {
    q := UptimeChecked(c, p);
    q := Act(c, q, DoCheckTries);
    q := Act(c, q, DoMarkRespawning);
  }

  lemma UptimeChecked(c: Config, p: Point) returns (q: Point)
    requires Valid(c, p) && p.s.monitor.CheckUptime?
    requires p.s.fields.restartAttempts == 0 || p.s.now - p.s.fields.startTime >= c.policy.resetAfterSec
    ensures Valid(c, q) && p.run <= q.run && q.h.respawns == p.h.respawns && q.h.startedAt == p.h.startedAt
    ensures q.s == p.s.(fields := p.s.fields.(restartAttempts := 0), monitor := CheckTries)
  {
    q := Act(c, p, DoCheckUptime);
    if q.s.monitor.ResetAttempts? {
      q := Act(c, q, DoResetAttempts);
    }
  }

  /** The monitor replaces the child. */
  lemma Respawned(c: Config, p: Point) returns (q: Point)
    requires Valid(c, p) && p.s.monitor.CountAttempt? && p.s.alive == {}
    ensures Valid(c, q) && q.run == p.run + [DoCountAttempt, DoSpawn(true), DoSpawnCommit] && Running(q.s)
    ensures q.s.controller == p.s.controller && q.s.now == p.s.now == q.s.fields.startTime
    ensures q.h == p.h.(respawns := p.h.respawns + 1)
  {
    q := Act(c, p, DoCountAttempt);
    q := ChildSpawned(c, q);
  }

  lemma ChildSpawned(c: Config, p: Point) returns (q: Point)
    requires Valid(c, p) && p.s.monitor.Spawn? && p.s.alive == {}
    ensures Valid(c, q) && q.run == p.run + [DoSpawn(true), DoSpawnCommit] && Running(q.s)
    ensures q.s.controller == p.s.controller && q.s.now == p.s.now == q.s.fields.startTime
    ensures q.h == p.h.(respawns := p.h.respawns + 1)
  {
    q := Act(c, p, DoSpawn(true));
    q := Act(c, q, DoSpawnCommit);
  }

  /** One pass of the stop loop up to its select. */
  lemma MarkAndSignal(c: Config, p: Point) returns (q: Point)
    requires Valid(c, p) && p.s.controller.StopRead? && p.s.fields.process.Some?
    ensures Valid(c, q) && q.s == p.s.(fields := p.s.fields.ShuttingDown(), controller := StopSelect)
  {
    q := Act(c, p, DoStopRead);
    q := Act(c, q, DoStopMark);
    q := Act(c, q, DoStopSignal);
  }

  /** Such a wait is reachable: the child dies by itself, and the whole shutdown timeout passes
      between the monitor's reading of the status and its acting on it. */
  lemma StopCanHang(c: Config)
    requires InitialStatus(c.status)
    ensures exists run :: Exec(c, run).Some? && Doomed(Exec(c, run).value.0)
  {
    var p := FirstStart(c);
    p := Crash(c, p);
    p := Act(c, p, CallStop);
    p := MarkAndSignal(c, p);
    p := Act(c, p, SelectTimeout);
    p := MarkAndSignal(c, p);
    assert Doomed(Exec(c, p.run).value.0);
  }

  /** Stop may also return while a crashed child is being replaced; the replacement then runs
      although Stop was called after the last Start and has returned. */
  lemma StopCanBeOutlived(c: Config)
    requires InitialStatus(c.status) && c.policy.maxTries > 0
    ensures exists run, tail ::
              && Exec(c, run + [CallStop, DoStopRead] + tail).Some?
              && CallStart !in tail
              && var s := Exec(c, run + [CallStop, DoStopRead] + tail).value.0;
                 s.controller.Idle? && Running(s)
  {
    var p := FirstStart(c);
    p := Crash(c, p);
    p := CrashHandled(c, p);
    var run := p.run;
    p := Act(c, p, CallStop);
    p := Act(c, p, DoStopRead);
    p := Respawned(c, p);
    var tail := [DoCountAttempt, DoSpawn(true), DoSpawnCommit];
    assert p.run == run + [CallStop, DoStopRead] + tail;
    assert CallStart !in tail;
  }

  /** Another Stop may return at its guard, because the one before it left SHUTDOWN behind while
      the crash was handled, and be outlived as well. */
  lemma GuardedStopCanBeOutlived(c: Config)
    requires InitialStatus(c.status) && c.policy.maxTries > 0
    ensures exists run, tail ::
              && Exec(c, run + [CallStop]).Some? && NoRestart(tail)
              && Exec(c, run + [CallStop]) == Exec(c, run)
              && Exec(c, run).value.0.fields.status == SHUTDOWN && Exec(c, run).value.0.controller.Idle?
              && Exec(c, run + [CallStop] + tail).Some? && Running(Exec(c, run + [CallStop] + tail).value.0)
  {
    var p := ReturnedOnShutdown(c);
    var o := Act(c, p, CallStop);
    var q := Respawned(c, o);
    var tail := [DoCountAttempt, DoSpawn(true), DoSpawnCommit];
    assert q.run == p.run + [CallStop] + tail && NoRestart(tail);
  }

  /** A Stop that met the crash in its middle: it marked SHUTDOWN when the process was gone. */
  lemma ReturnedOnShutdown(c: Config) returns (p: Point)
    requires InitialStatus(c.status) && c.policy.maxTries > 0
    ensures Valid(c, p) && p.s.controller.Idle? && p.s.fields.status == SHUTDOWN
    ensures p.s.monitor.CountAttempt? && p.s.alive == {}
  {
    p := StopMeetsCrash(c);
    p := Act(c, p, DoStopSignal);
    p := Act(c, p, SelectTimeout);
    p := Act(c, p, DoStopRead);
  }

  lemma StopMeetsCrash(c: Config) returns (p: Point)
    requires InitialStatus(c.status) && c.policy.maxTries > 0
    ensures Valid(c, p) && p.s.controller.StopSignal? && p.s.timeoutLeft && p.s.fields.status == SHUTDOWN
    ensures p.s.monitor.CountAttempt? && p.s.alive == {} && p.s.fields.process.None?
  {
    p := FirstStart(c);
    p := Crash(c, p);
    p := Act(c, p, CallStop);
    p := Act(c, p, DoStopRead);
    p := CrashHandled(c, p);
    p := Act(c, p, DoStopMark);
  }

  /** With Stop not running and no process, a child runs again without a new Start if and only if
      the monitor is on its way to a respawn: sleeping before it, spawning, or with a child just
      spawned.  So every Stop that returns without a process, from its loop or at its guard, is
      outlived exactly then. */
  lemma OutlivedIff(c: Config, run: seq<Action>, s: State, h: History)
    requires Reached(c, run, s, h) && s.controller.Idle? && s.fields.process.None?
    ensures (exists tail | NoRestart(tail) ::
               Exec(c, run + tail).Some? && Exec(c, run + tail).value.0.fields.status == RUNNING)
            <==> WillRespawn(s.monitor)
  {
    RunKeepsInv(c, run);
    if WillRespawn(s.monitor) {
      var p := Point(run, s, h);
      var q := RespawnFinishes(c, p, p);
      assert q.run == run + q.run[|run|..];
    } else {
      forall tail | NoRestart(tail) && Exec(c, run + tail).Some?
        ensures Exec(c, run + tail).value.0.fields.status != RUNNING
      {
        Unfold(c, run, tail);
        StaysQuiet(c.policy, s, h, tail);
      }
    }
  }

  predicate WillRespawn(m: Monitor) { m.CountAttempt? || m.Spawn? || (m.SpawnCommit? && m.started.Some?) }

  lemma {:induction false} RespawnFinishes(c: Config, o: Point, p: Point) returns (q: Point)
    requires Valid(c, p) && WillRespawn(p.s.monitor) && Leads(o, p)
    ensures Valid(c, q) && Leads(o, q)
    ensures q.s.fields.status == RUNNING && q.s.fields.process.Some? && q.s.monitor.ReadProcess?
    ensures q.s.controller == p.s.controller && q.s.timeoutLeft == p.s.timeoutLeft
    decreases p.s.monitor.CountAttempt?, p.s.monitor.Spawn?
  {
    var m := p.s.monitor;
    var a := if m.CountAttempt? then DoCountAttempt else if m.Spawn? then DoSpawn(true) else DoSpawnCommit;
    q := ActOn(c, o, p, a);
    if !m.SpawnCommit? {
      q := RespawnFinishes(c, o, q);
    }
  }

  /** Nothing runs, and only a call of Start could change that. */
  predicate Quiet(s: State) {
    && (s.controller.Idle? || s.controller.StopRead?)
    && s.fields.process.None? && s.fields.status != RUNNING
    && (s.monitor.NoMonitor? || s.monitor.ReadProcess? || s.monitor.NilWait? || s.monitor == SpawnCommit(None))
  }

  lemma {:induction false} StaysQuiet(policy: RestartPolicy, s: State, h: History, more: seq<Action>)
    requires Quiet(s) && NoRestart(more) && Continue(policy, s, h, more).Some?
    ensures Quiet(Continue(policy, s, h, more).value.0)
    decreases |more|
  {
    if more != [] {
      assert more[0] in more;
      StaysQuiet(policy, Step(policy, s, more[0]).value, h.After(s, more[0]), more[1..]);
    }
  }

  /** A call of Stop can be left waiting for ever if and only if it gets past the guard, and there
      is a process or a respawn is coming. */
  lemma HangsIff(c: Config, run: seq<Action>, s: State, h: History)
    requires Reached(c, run, s, h) && s.controller.Idle?
    ensures (exists tail | NoCalls(tail) ::
               Exec(c, run + [CallStop] + tail).Some? && Doomed(Exec(c, run + [CallStop] + tail).value.0))
            <==> s.fields.status != SHUTDOWN && (s.fields.process.Some? || WillRespawn(s.monitor))
  {
    RunKeepsInv(c, run);
    var o := Act(c, Point(run, s, h), CallStop);
    if s.fields.status != SHUTDOWN && (s.fields.process.Some? || WillRespawn(s.monitor)) {
      RunKeepsInv(c, o.run);
      var p := CalledWithProcess(c, o);
      p := HangReached(c, o, p);
      assert p.run == run + [CallStop] + p.run[|o.run|..];
    } else {
      forall tail | NoCalls(tail) && Exec(c, run + [CallStop] + tail).Some?
        ensures !Doomed(Exec(c, run + [CallStop] + tail).value.0)
      {
        Unfold(c, run + [CallStop], tail);
        NeverSelects(c.policy, o.s, o.h, tail);
      }
    }
  }

  /** Without a process and a respawn, or with Stop not running, no Stop gets as far as its select. */
  lemma NeverSelects(policy: RestartPolicy, s: State, h: History, more: seq<Action>)
    requires Quiet(s) || s.controller.Idle?
    requires NoCalls(more) && Continue(policy, s, h, more).Some?
    ensures !Doomed(Continue(policy, s, h, more).value.0)
  {
    if Quiet(s) {
      StaysQuiet(policy, s, h, more);
    } else {
      StaysIdle(policy, s, h, more);
    }
  }

  lemma {:induction false} StaysIdle(policy: RestartPolicy, s: State, h: History, more: seq<Action>)
    requires s.controller.Idle? && NoCalls(more) && Continue(policy, s, h, more).Some?
    ensures Continue(policy, s, h, more).value.0.controller.Idle?
    decreases |more|
  {
    if more != [] {
      assert more[0] in more;
      StaysIdle(policy, Step(policy, s, more[0]).value, h.After(s, more[0]), more[1..]);
    }
  }

  /** A called Stop can find a process: there is one, or the respawn comes first. */
  lemma CalledWithProcess(c: Config, o: Point) returns (q: Point)
    requires InitialStatus(c.status) && Valid(c, o) && ControlInv(o.s)
    requires o.s.controller.StopRead? && o.s.timeoutLeft && o.s.fields.status != SHUTDOWN
    requires o.s.fields.process.Some? || WillRespawn(o.s.monitor)
    ensures Valid(c, q) && Leads(o, q) && q.s.controller.StopRead? && q.s.timeoutLeft
    ensures q.s.fields.process.Some? && q.s.fields.status != SHUTDOWN && ControlInv(q.s)
  {
    q := o;
    if WillRespawn(q.s.monitor) {
      q := RespawnFinishes(c, o, q);
      RunKeepsInv(c, q.run);
    }
  }

  /** From there the monitor walks past its reading of the status, and the timeout passes. */
  lemma HangReached(c: Config, o: Point, p: Point) returns (q: Point)
    requires Valid(c, p) && Leads(o, p) && ControlInv(p.s) && p.s.controller.StopRead? && p.s.timeoutLeft
    requires p.s.fields.process.Some? && p.s.fields.status != SHUTDOWN
    ensures Valid(c, q) && Leads(o, q) && Doomed(q.s)
  {
    q := WalkPastStatus(c, o, p);
    q := StopperSignals(c, o, q);
    q := ActOn(c, o, q, SelectTimeout);
    q := StopperSignals(c, o, q);
  }

  /** The monitor holds a dead process and has not found SHUTDOWN. */
  predicate PastStatus(m: Monitor) { HoldsDeadProcess(m) && !m.ReadStatus? && !m.Sending? }

  lemma WalkPastStatus(c: Config, o: Point, p: Point) returns (q: Point)
    requires Valid(c, p) && Leads(o, p) && ProcessInv(p.s) && p.s.controller.StopRead?
    requires p.s.fields.process.Some? && p.s.fields.status != SHUTDOWN && !p.s.monitor.Sending?
    ensures Valid(c, q) && Leads(o, q) && PastStatus(q.s.monitor)
    ensures q.s.fields == p.s.fields && q.s.controller == p.s.controller && q.s.timeoutLeft == p.s.timeoutLeft
    decreases !p.s.monitor.ReadStatus?, p.s.monitor.ReadProcess?, p.s.alive
  {
    q := p;
    if !PastStatus(p.s.monitor) {
      var pid := p.s.fields.process.value;
      var m := p.s.monitor;
      q := ActOn(c, o, p,
                 if m.ReadStatus? then DoReadStatus
                 else if m.ReadProcess? then DoReadProcess
                 else if pid in p.s.alive then Die(pid) else DoWait);
      if !m.ReadStatus? {
        q := WalkPastStatus(c, o, q);
      }
    }
  }

  lemma StopperSignals(c: Config, o: Point, p: Point) returns (q: Point)
    requires Valid(c, p) && Leads(o, p) && p.s.controller.StopRead? && p.s.fields.process.Some?
    ensures Valid(c, q) && Leads(o, q)
    ensures q.s == p.s.(fields := p.s.fields.ShuttingDown(), controller := StopSelect)
  {
    q := ActOn(c, o, p, DoStopRead);
    q := ActOn(c, o, q, DoStopMark);
    q := ActOn(c, o, q, DoStopSignal);
  }

  // ---------------------------------------------------------------- where Stop does stop

  /** A stopper in its loop and a monitor that tells it, or will find, SHUTDOWN. */
  predicate Met(s: State) { s.controller.InStopLoop() && (s.monitor.Sending? || WillSeeShutdown(s)) }

  /** On the way from there to the end of Stop. */
  predicate Stopping(s: State) {
    || Met(s)
    || (s.controller.StopFinish? && s.monitor.NoMonitor? && s.alive == {})
    || FullyStopped(s)
  }

  lemma StepKeepsStopping(policy: RestartPolicy, s: State, a: Action)
    requires ControlInv(s) && Stopping(s) && a != CallStart && Step(policy, s, a).Some?
    ensures Stopping(Step(policy, s, a).value)
  {
  }

  lemma {:induction false} StaysStopping(policy: RestartPolicy, s: State, h: History, more: seq<Action>)
    requires ControlInv(s) && Stopping(s) && NoRestart(more) && Continue(policy, s, h, more).Some?
    ensures Stopping(Continue(policy, s, h, more).value.0)
    decreases |more|
  {
    if more != [] {
      assert more[0] in more;
      StepKeepsControl(policy, s, more[0]);
      StepKeepsStopping(policy, s, more[0]);
      StaysStopping(policy, Step(policy, s, more[0]).value, h.After(s, more[0]), more[1..]);
    }
  }

  /** Once the monitor is going to find SHUTDOWN, or has, every way of running on without a new
      Start in which Stop returns leaves the service stopped, without process, monitor or child. */
  lemma MeetingStops(c: Config, run: seq<Action>, s: State, h: History, more: seq<Action>)
    requires Reached(c, run, s, h) && Met(s)
    requires NoRestart(more) && Exec(c, run + more).Some? && Exec(c, run + more).value.0.controller.Idle?
    ensures FullyStopped(Exec(c, run + more).value.0)
  {
    RunKeepsInv(c, run);
    Unfold(c, run, more);
    StaysStopping(c.policy, s, h, more);
  }

  /** A Stop of a running service whose exit the monitor has not read yet can succeed: the child
      dies, and the two meet. */
  lemma StopCanSucceed(c: Config, run: seq<Action>, s: State, h: History)
    requires Reached(c, run, s, h) && s.controller.Idle? && s.fields.status == RUNNING
    requires s.monitor.ReadProcess? || s.monitor.Waiting? || s.monitor.ReadStatus?
    ensures exists tail | NoCalls(tail) ::
              Exec(c, run + [CallStop] + tail).Some? && FullyStopped(Exec(c, run + [CallStop] + tail).value.0)
  {
    RunKeepsInv(c, run);
    var o := Act(c, Point(run, s, h), CallStop);
    var p := StopperSignals(c, o, o);
    p := WalkToSending(c, o, p);
    p := Received(c, o, p);
    assert p.run == run + [CallStop] + p.run[|o.run|..];
  }

  /** A Stop that finds no process, or the status STOPPED or SHUTDOWN, changes nothing. */
  lemma StopOfNothing(c: Config, run: seq<Action>, s: State, h: History)
    requires Reached(c, run, s, h) && s.controller.Idle?
    ensures s.fields.status in {STOPPED, SHUTDOWN} ==> Exec(c, run + [CallStop]) == Some((s, h))
    ensures s.fields.status !in {STOPPED, SHUTDOWN} && s.fields.process.None? ==>
              Exec(c, run + [CallStop, DoStopRead]) == Some((s.(timeoutLeft := true), h))
  {
    var p := Act(c, Point(run, s, h), CallStop);
    if s.fields.status !in {STOPPED, SHUTDOWN} && s.fields.process.None? {
      var q := Act(c, p, DoStopRead);
      assert q.run == run + [CallStop, DoStopRead];
    }
  }

  // ---------------------------------------------------------------- what Start and the monitor do

  /** Start, called in any state in which it may be, on a service that does not run: the counters
      begin anew, and there is a new child with a monitor, or none of both and FAILED. */
  lemma StartStarts(c: Config, run: seq<Action>, s: State, h: History, ok: bool)
    requires Reached(c, run, s, h) && s.controller.Idle? && s.monitor.NoMonitor? && s.fields.status != RUNNING
    ensures s.nextPid !in s.alive && s.alive == {}
    ensures var u := Exec(c, run + [CallStart, DoStartReset, DoStartSpawn(ok), DoStartCommit, DoStartLaunch]);
            && u.Some? && u.value.0.controller.Idle? && u.value.0.now == s.now
            && (if ok then
                  && u.value.0.fields == Fields(RUNNING, 0, 0, Some(s.nextPid), s.now)
                  && u.value.0.alive == {s.nextPid} && u.value.0.monitor.ReadProcess?
                else
                  && u.value.0.fields == Fields(FAILED, 0, 0, None, s.fields.startTime)
                  && u.value.0.alive == {} && u.value.0.monitor.NoMonitor?)
  {
    RunKeepsInv(c, run);
    var o := Point(run, s, h);
    var p := Act(c, o, CallStart);
    p := Act(c, p, DoStartReset);
    p := StartEnds(c, p, ok);
    assert p.run == run + [CallStart, DoStartReset, DoStartSpawn(ok), DoStartCommit, DoStartLaunch];
  }

  lemma StartEnds(c: Config, p: Point, ok: bool) returns (q: Point)
    requires Valid(c, p) && p.s.controller.StartSpawn? && p.s.monitor.NoMonitor?
    ensures Valid(c, q) && q.run == p.run + [DoStartSpawn(ok), DoStartCommit, DoStartLaunch]
    ensures q.s.controller.Idle? && q.s.now == p.s.now
    ensures ok ==>
              && q.s.fields == p.s.fields.(status := RUNNING, process := Some(p.s.nextPid), startTime := p.s.now)
              && q.s.alive == p.s.alive + {p.s.nextPid} && q.s.monitor.ReadProcess?
    ensures !ok ==>
              && q.s.fields == p.s.fields.(status := FAILED, process := None)
              && q.s.alive == p.s.alive && q.s.monitor.NoMonitor?
  {
    q := Act(c, p, DoStartSpawn(ok));
    q := Act(c, q, DoStartCommit);
    q := Act(c, q, DoStartLaunch);
  }

  /** Start on a running service changes nothing. */
  lemma StartOfRunning(c: Config, run: seq<Action>, s: State, h: History)
    requires Reached(c, run, s, h) && s.controller.Idle? && s.fields.status == RUNNING
    ensures Exec(c, run + [CallStart]) == Some((s, h))
  {
    var _ := Act(c, Point(run, s, h), CallStart);
  }

  /** The steps by which the monitor handles a crash: first it looks at the uptime, then at the tries. */
  function UptimeSteps(long: bool): seq<Action> {
    if long then [DoCheckUptime, DoResetAttempts] else [DoCheckUptime]
  }

  function TriesSteps(left: bool): seq<Action> {
    if left then [DoCheckTries, DoMarkRespawning, DoCountAttempt] else [DoCheckTries, DoMarkDead]
  }

  /** The monitor's answer to a crash: another attempt if and only if fewer than the limit have been
      made, not counting those before an uptime of the reset interval; otherwise DEAD. */
  lemma CrashOutcome(c: Config, run: seq<Action>, s: State, h: History)
    requires Reached(c, run, s, h) && s.monitor.CheckUptime?
    ensures var long := s.now - s.fields.startTime >= c.policy.resetAfterSec;
            var attempts := if long then 0 else s.fields.restartAttempts;
            var u := Exec(c, run + (UptimeSteps(long) + TriesSteps(attempts < c.policy.maxTries)));
            && u.Some?
            && (if attempts < c.policy.maxTries then
                  u.value.0 == s.(monitor := Spawn, fields := s.fields.(
                    status := RESPAWNING, process := None, restartAttempts := attempts + 1,
                    crashesSinceStart := s.fields.crashesSinceStart + 1))
                else
                  u.value.0 == s.(monitor := NoMonitor, fields := s.fields.(
                    status := DEAD, process := None, restartAttempts := attempts)))
  {
    var p := UptimeJudged(c, Point(run, s, h));
    var q := TriesJudged(c, p);
    var us := UptimeSteps(s.now - s.fields.startTime >= c.policy.resetAfterSec);
    var ts := TriesSteps(p.s.fields.restartAttempts < c.policy.maxTries);
    assert run + us + ts == run + (us + ts);
  }

  lemma TriesJudged(c: Config, p: Point) returns (q: Point)
    requires Valid(c, p) && p.s.monitor.CheckTries?
    ensures Valid(c, q)
    ensures var left := p.s.fields.restartAttempts < c.policy.maxTries;
            && q.run == p.run + TriesSteps(left)
            && q.s == if left then p.s.(monitor := Spawn, fields := p.s.fields.(
                        status := RESPAWNING, process := None, restartAttempts := p.s.fields.restartAttempts + 1,
                        crashesSinceStart := p.s.fields.crashesSinceStart + 1))
                      else p.s.(monitor := NoMonitor, fields := p.s.fields.(status := DEAD, process := None))
  {
    q := Act(c, p, DoCheckTries);
    if q.s.monitor.MarkRespawning? {
      q := AttemptMarked(c, q);
    } else {
      q := Act(c, q, DoMarkDead);
    }
  }

  lemma AttemptMarked(c: Config, p: Point) returns (q: Point)
    requires Valid(c, p) && p.s.monitor.MarkRespawning?
    ensures Valid(c, q) && q.run == p.run + [DoMarkRespawning, DoCountAttempt]
    ensures q.s == p.s.(monitor := Spawn, fields := p.s.fields.(
                     status := RESPAWNING, process := None, restartAttempts := p.s.fields.restartAttempts + 1,
                     crashesSinceStart := p.s.fields.crashesSinceStart + 1))
  {
    q := Act(c, p, DoMarkRespawning);
    q := Act(c, q, DoCountAttempt);
  }

  lemma UptimeJudged(c: Config, p: Point) returns (q: Point)
    requires Valid(c, p) && p.s.monitor.CheckUptime?
    ensures Valid(c, q)
    ensures var long := p.s.now - p.s.fields.startTime >= c.policy.resetAfterSec;
            && q.run == p.run + UptimeSteps(long)
            && q.s == p.s.(monitor := CheckTries, fields := p.s.fields.(
                 restartAttempts := if long then 0 else p.s.fields.restartAttempts))
  {
    q := Act(c, p, DoCheckUptime);
    if q.s.monitor.ResetAttempts? {
      q := Act(c, q, DoResetAttempts);
    }
  }

  /** A respawn: RUNNING with a new child and a new start time, or FAILED for good. */
  lemma RespawnOutcome(c: Config, run: seq<Action>, s: State, h: History, ok: bool)
    requires Reached(c, run, s, h) && s.monitor.Spawn?
    ensures s.alive == {}
    ensures var u := Exec(c, run + [DoSpawn(ok), DoSpawnCommit, DoReadProcess]);
            && u.Some?
            && (if ok then
                  && u.value.0.fields == s.fields.(status := RUNNING, process := Some(s.nextPid), startTime := s.now)
                  && u.value.0.alive == {s.nextPid} && u.value.0.monitor == Waiting(s.nextPid)
                else
                  && u.value.0.fields == s.fields.(status := FAILED, process := None)
                  && u.value.0.alive == {} && u.value.0.monitor.NilWait?)
  {
    RunKeepsInv(c, run);
    var _ := RespawnEnds(c, Point(run, s, h), ok);
  }

  lemma RespawnEnds(c: Config, p: Point, ok: bool) returns (q: Point)
    requires Valid(c, p) && p.s.monitor.Spawn?
    ensures Valid(c, q) && q.run == p.run + [DoSpawn(ok), DoSpawnCommit, DoReadProcess]
    ensures ok ==>
              && q.s.fields == p.s.fields.(status := RUNNING, process := Some(p.s.nextPid), startTime := p.s.now)
              && q.s.alive == p.s.alive + {p.s.nextPid} && q.s.monitor == Waiting(p.s.nextPid)
    ensures !ok ==>
              && q.s.fields == p.s.fields.(status := FAILED, process := None)
              && q.s.alive == p.s.alive && q.s.monitor.NilWait?
  {
    q := Act(c, p, DoSpawn(ok));
    q := Act(c, q, DoSpawnCommit);
    q := Act(c, q, DoReadProcess);
  }

  // ---------------------------------------------------------------- the restart budget

  /** Resets of the counter use up disjoint stretches of uptime, so respawning is bounded by
      the time since Start. */
  lemma RestartBudget(c: Config, run: seq<Action>, s: State, h: History)
    requires Reached(c, run, s, h) && c.policy.resetAfterSec > 0
    ensures h.startedAt <= s.now
    ensures h.respawns <= c.policy.Tries() * ((s.now - h.startedAt) / c.policy.resetAfterSec + 1)
  {
    RunKeepsInv(c, run);
    WithinBudget(c.policy.Tries(), h.resets, c.policy.resetAfterSec, s.now - h.startedAt, h.respawns);
  }

  lemma WithinBudget(m: nat, k: nat, r: int, elapsed: int, n: int)
    requires r > 0 && r * k <= elapsed && n <= m * k + m
    ensures n <= m * (elapsed / r + 1)
  {
    Quotient(r, k, elapsed);
    Monotone(m, k + 1, elapsed / r + 1);
    assert m * (k + 1) == m * k + m;
  }

  lemma Quotient(r: int, k: nat, t: int)
    requires r > 0 && r * k <= t
    ensures k <= t / r
  {
    assert r * (t / r + 1) == r * (t / r) + r;
    if k >= t / r + 1 {
      Monotone(r, t / r + 1, k);
    }
  }

  lemma Monotone(m: nat, a: int, b: int)
    requires a <= b
    ensures m * a <= m * b
  {
    assert m * b - m * a == m * (b - a);
  }

  /** Without a positive reset interval there is no bound at all: any number of respawns fits
      into no time. */
  lemma {:induction false} NoBudgetWithoutInterval(c: Config, n: nat)
    requires InitialStatus(c.status) && c.policy.resetAfterSec <= 0 && c.policy.maxTries > 0
    ensures exists run ::
              && Exec(c, run).Some?
              && var (s, h) := Exec(c, run).value;
                 h.respawns == n && s.now == h.startedAt
  {
    var p := RespawnNTimes(c, n);
  }

  lemma {:induction false} RespawnNTimes(c: Config, n: nat) returns (p: Point)
    requires InitialStatus(c.status) && c.policy.resetAfterSec <= 0 && c.policy.maxTries > 0
    ensures Valid(c, p) && Running(p.s)
    ensures p.h.respawns == n && p.s.now == p.h.startedAt == p.s.fields.startTime
  {
    if n == 0 {
      p := FirstStart(c);
    } else {
      p := RespawnNTimes(c, n - 1);
      p := Crash(c, p);
      p := CrashHandled(c, p);
      p := Respawned(c, p);
    }
  }

  /** The budget of a policy holds for all its runs if and only if the interval is positive or
      no restart is allowed. */
  ghost predicate Budgeted(policy: RestartPolicy) {
    exists limit: int -> int :: Bounds(policy, limit)
  }

  /** Every run makes at most limit(T) respawns in the T seconds since its last Start. */
  ghost predicate Bounds(policy: RestartPolicy, limit: int -> int) {
    forall status, now, run, s, h | Reached(Config(policy, status, now), run, s, h) ::
      h.respawns <= limit(s.now - h.startedAt)
  }

  lemma BudgetedIff(policy: RestartPolicy)
    ensures Budgeted(policy) <==> policy.resetAfterSec > 0 || policy.maxTries <= 0
  {
    if policy.resetAfterSec > 0 || policy.maxTries <= 0 {
      var limit := (t: int) => if policy.resetAfterSec > 0 then policy.Tries() * (t / policy.resetAfterSec + 1) else 0;
      forall status, now, run, s, h | Reached(Config(policy, status, now), run, s, h)
        ensures h.respawns <= limit(s.now - h.startedAt)
      {
        if policy.resetAfterSec > 0 {
          RestartBudget(Config(policy, status, now), run, s, h);
        } else {
          RunKeepsInv(Config(policy, status, now), run);
        }
      }
      assert Bounds(policy, limit);
    } else if Budgeted(policy) {
      var limit: int -> int :| Bounds(policy, limit);
      var c := Config(policy, STOPPED, 0);
      var n := if limit(0) < 0 then 0 else limit(0) + 1;
      var p := RespawnNTimes(c, n);
      assert Reached(c, p.run, p.s, p.h);
    }
  }
}
