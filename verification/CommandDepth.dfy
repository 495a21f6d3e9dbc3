/** Counting running commands and putting off a change of the browser driver until none runs
    (daemon/browser_service.py:124-176, 1138-1199; daemon/app.py:144-232). The pieces of code between two awaits are
    atomic; everything else that other tasks do may come in between. */
module CommandDepth {
  import opened Options
  import Sets

  datatype Driver = Playwright | Extension

  /** The counter, the driver change that waits, and the driver in use. */
  datatype Service = Service(depth: int, pending: Option<Driver>, driver: Option<Driver>)

  function AtLeastZero(n: int): int {
    if n < 0 then 0 else n
  }

  function Counted(s: Service): Service {
    Service(s.depth + 1, s.pending, s.driver)
  }

  /** What `_maybe_apply_pending_rebind` takes from the queue: something only when no command is counted. */
  function Due(s: Service): Option<Driver> {
    if s.depth == 0 then s.pending else None
  }

  function AfterTaking(s: Service): Service {
    Service(s.depth, if s.depth == 0 then None else s.pending, s.driver)
  }

  function Uncounted(s: Service): Service {
    Service(AtLeastZero(s.depth - 1), s.pending, s.driver)
  }

  /** A capable extension appeared: it is queued while commands run. At idle the watcher switches by itself. */
  predicate WatcherActs(s: Service, capable: bool) {
    capable && s.driver != Some(Extension)
  }

  function Watched(s: Service, capable: bool): Service {
    if WatcherActs(s, capable) && s.depth != 0 then Service(s.depth, Some(Extension), s.driver) else s
  }

  class BrowserService {
    var commandDepth: int
    var pendingDriver: Option<Driver>
    var driver: Option<Driver>

    ghost function State(): Service
      reads this
    {
      Service(commandDepth, pendingDriver, driver)
    }

    constructor ()
      ensures State() == Service(0, None, None)
    {
      commandDepth, pendingDriver, driver := 0, None, None;
    }

    method CountCommand()
      modifies this
      ensures State() == Counted(old(State()))
    {
      commandDepth := commandDepth + 1;
    }

    /** `_maybe_apply_pending_rebind` up to its await. */
    method TakePending() returns (target: Option<Driver>)
      modifies this
      ensures target == Due(old(State())) && State() == AfterTaking(old(State()))
    {
      target := None;
      if commandDepth != 0 {
        return;
      }
      target := pendingDriver;
      pendingDriver := None;
    }

    /** `end_command` up to its await. */
    method UncountCommand(allowRebind: bool) returns (target: Option<Driver>)
      modifies this
      ensures var uncounted := Uncounted(old(State()));
              if allowRebind then target == Due(uncounted) && State() == AfterTaking(uncounted)
              else target == None && State() == uncounted
    {
      commandDepth := if commandDepth - 1 < 0 then 0 else commandDepth - 1;
      target := None;
      if commandDepth == 0 && allowRebind {
        target := TakePending();
      }
    }

    /** One turn of `_watch_extension_changes` up to its await. */
    method WatchChange(capable: bool) returns (target: Option<Driver>)
      modifies this
      ensures State() == Watched(old(State()), capable)
      ensures target == if WatcherActs(old(State()), capable) && old(State()).depth == 0 then Some(Extension) else None
    {
      target := None;
      if capable && driver != Some(Extension) {
        if commandDepth == 0 {
          target := Some(Extension);
        } else {
          pendingDriver := Some(Extension);
        }
      }
    }
  }

  // ----- requests

  type RequestId = nat

  /** A request to close a page never changes the driver; an isolated context must run alone. */
  datatype Kind = Ordinary | Cleanup | Isolated

  /** Where a request is suspended: in `begin_command`, in a change of driver (waiting for its lock or under way), or
      in its handler. */
  datatype Phase = Preparing | Switching(target: Driver, after: After) | Handling

  /** What follows the change of driver: more of `begin_command`, the count, or more of the handler (`read` falls back to
      Playwright inside its own). A request that leaves does so from inside the `try` or from an exception handler. */
  datatype After = Preparation | Count | During | Leaving(inTry: bool)

  /** `started` is the flag `command_started`. */
  datatype Command = Command(kind: Kind, phase: Phase, started: bool)

  /** `watcher` is the driver the watcher is switching to; `ended` collects the calls of `end_command`. */
  datatype System = System(service: Service, commands: map<RequestId, Command>, watcher: Option<Driver>,
                           ended: multiset<RequestId>)

  ghost function Initial(): System {
    System(Service(0, None, None), map[], None, multiset{})
  }

  function In(s: System, service: Service, t: RequestId, command: Command): System {
    System(service, s.commands[t := command], s.watcher, s.ended)
  }

  function Gone(s: System, t: RequestId): System {
    System(s.service, s.commands - {t}, s.watcher, s.ended)
  }

  /** The whole of `end_command` up to its await, called for request `t` whose flag is left at `started`. */
  function EndCommand(s: System, t: RequestId, inTry: bool, started: bool): System
    requires t in s.commands
  {
    var kind := s.commands[t].kind;
    var uncounted := Uncounted(s.service);
    var ended := s.ended + multiset{t};
    if kind == Cleanup || Due(uncounted) == None
    then System(if kind == Cleanup then uncounted else AfterTaking(uncounted), s.commands - {t}, s.watcher, ended)
    else System(AfterTaking(uncounted),
                s.commands[t := Command(kind, Switching(Due(uncounted).value, Leaving(inTry)), started)], s.watcher, ended)
  }

  /** An exception reaches one of the handlers of `_execute`, or it cancels the request: the flag decides. */
  function Caught(s: System, t: RequestId): System
    requires t in s.commands
  {
    if s.commands[t].started then EndCommand(s, t, false, true) else Gone(s, t)
  }

  /** The count goes up and the handler starts. An isolated context that is not alone then raises at once. */
  function Begun(s: System, t: RequestId): System
    requires t in s.commands
  {
    var kind := s.commands[t].kind;
    var begun := In(s, Counted(s.service), t, Command(kind, Handling, true));
    if kind == Isolated && begun.service.depth != 1 then Caught(begun, t) else begun
  }

  datatype Step =
      Arrives(request: RequestId, kind: Kind)
    | SwitchesDirectly(request: RequestId, target: Driver)
    | Proceeds(request: RequestId)
    | FailsPreparing(request: RequestId)
    | SwitchEnds(request: RequestId, succeeds: bool, left: Option<Driver>)
    | HandlerEnds(request: RequestId, returns_: bool)
    | Unbinds
    | Watches(capable: bool)
    | WatcherEnds(succeeds: bool, left: Option<Driver>)

  ghost predicate Enabled(s: System, step: Step) {
    match step
    case Arrives(t, kind) =>
      && t !in s.commands && t !in s.ended
      && (kind == Cleanup ==> s.service.driver.Some?) && (kind == Isolated ==> s.service.depth == 0)
    case SwitchesDirectly(t, target) =>
      && t in s.commands
      && ((s.commands[t].phase == Preparing && s.commands[t].kind != Cleanup)
          || (s.commands[t].phase == Handling && s.commands[t].kind == Ordinary
              && s.service.driver == Some(Extension) && target == Playwright))
    case Proceeds(t) => t in s.commands && s.commands[t].phase == Preparing
    case FailsPreparing(t) => t in s.commands && s.commands[t].phase == Preparing
    case SwitchEnds(t, _, _) => t in s.commands && s.commands[t].phase.Switching?
    case HandlerEnds(t, _) => t in s.commands && s.commands[t].phase == Handling
    case Unbinds => s.watcher.Some? || exists t :: t in s.commands && s.commands[t].phase.Switching?
    case Watches(_) => s.watcher == None
    case WatcherEnds(_, _) => s.watcher.Some?
  }

  /** `begin_command` after its preparations: a change that is due comes first, for all but cleanups. */
  function Proceeded(s: System, t: RequestId): System
    requires t in s.commands
  {
    var command := s.commands[t];
    if command.kind == Cleanup || Due(s.service) == None then Begun(s, t)
    else In(s, AfterTaking(s.service), t, Command(command.kind, Switching(Due(s.service).value, Count), command.started))
  }

  /** `_activate_driver` returns, with the new driver in place, or fails and leaves what it leaves. */
  function AfterSwitch(s: System, t: RequestId, succeeds: bool, left: Option<Driver>): System
    requires t in s.commands && s.commands[t].phase.Switching?
  {
    var command := s.commands[t];
    var target := command.phase.target;
    var service := Service(s.service.depth, s.service.pending, if succeeds then Some(target) else left);
    var now := System(service, s.commands, s.watcher, s.ended);
    match command.phase.after
    case Preparation => if succeeds then In(s, service, t, Command(command.kind, Preparing, command.started)) else Caught(now, t)
    case Count => if succeeds then Begun(now, t) else Caught(now, t)
    case During => if succeeds then In(s, service, t, Command(command.kind, Handling, command.started)) else Caught(now, t)
    case Leaving(inTry) => if succeeds || !inTry then Gone(now, t) else Caught(now, t)
  }

  /** The handler is over. A result clears the flag before `end_command` is called. */
  function HandlerOver(s: System, t: RequestId, returns_: bool): System
    requires t in s.commands
  {
    if returns_ then EndCommand(s, t, true, false) else Caught(s, t)
  }

  ghost function Next(s: System, step: Step): System
    requires Enabled(s, step)
  {
    match step
    case Arrives(t, kind) => In(s, s.service, t, Command(kind, Preparing, false))
    case SwitchesDirectly(t, target) =>
      var after := if s.commands[t].phase == Preparing then Preparation else During;
      In(s, s.service, t, Command(s.commands[t].kind, Switching(target, after), s.commands[t].started))
    case Proceeds(t) => Proceeded(s, t)
    case FailsPreparing(t) => Caught(s, t)
    case SwitchEnds(t, succeeds, left) => AfterSwitch(s, t, succeeds, left)
    case HandlerEnds(t, returns_) => HandlerOver(s, t, returns_)
    case Unbinds => System(Service(s.service.depth, s.service.pending, None), s.commands, s.watcher, s.ended)
    case Watches(capable) =>
      System(Watched(s.service, capable), s.commands,
             if WatcherActs(s.service, capable) && s.service.depth == 0 then Some(Extension) else None, s.ended)
    case WatcherEnds(succeeds, left) =>
      System(Service(s.service.depth, if succeeds then s.service.pending else None, if succeeds then s.watcher else left),
             s.commands, None, s.ended)
  }

  // ----- what every run keeps

  /** The handler has begun and not ended, even if it is changing the driver. */
  predicate IsRunning(phase: Phase) {
    phase == Handling || (phase.Switching? && phase.after == During)
  }

  ghost function Running(commands: map<RequestId, Command>): set<RequestId> {
    set t | t in commands && IsRunning(commands[t].phase)
  }

  ghost predicate FlagsAgree(commands: map<RequestId, Command>) {
    forall t :: t in commands ==>
      && (IsRunning(commands[t].phase) ==> commands[t].started)
      && (commands[t].started ==>
            IsRunning(commands[t].phase) || (commands[t].phase.Switching? && commands[t].phase.after == Leaving(false)))
  }

  ghost predicate EndedOnce(s: System) {
    forall t :: s.ended[t] <= 1
                && (t in s.ended && t in s.commands ==> s.commands[t].phase.Switching? && s.commands[t].phase.after.Leaving?)
  }

  ghost predicate Inv(s: System) {
    s.service.depth == |Running(s.commands)| && FlagsAgree(s.commands) && EndedOnce(s)
  }

  lemma RunningAfter(commands: map<RequestId, Command>, t: RequestId, command: Command)
    ensures |Running(commands[t := command])| == |Running(commands)| - (if t in Running(commands) then 1 else 0)
                                                 + (if IsRunning(command.phase) then 1 else 0)
  {
    var before, after := Running(commands), Running(commands[t := command]);
    assert after - {t} == before - {t};
    assert t in after <==> IsRunning(command.phase);
    Sets.CountWithout(before, t);
    Sets.CountWithout(after, t);
    hide Running, IsRunning;
  }

  lemma RunningWithout(commands: map<RequestId, Command>, t: RequestId)
    ensures |Running(commands - {t})| == |Running(commands)| - (if t in Running(commands) then 1 else 0)
  {
    assert Running(commands - {t}) == Running(commands) - {t};
  }

  lemma EndCommandKeepsInv(s: System, t: RequestId, inTry: bool)
    requires Inv(s) && t in s.commands && IsRunning(s.commands[t].phase)
    ensures Inv(EndCommand(s, t, inTry, !inTry)) && s.service.depth >= 1
  {
    assert t in Running(s.commands);
    RunningWithout(s.commands, t);
    var uncounted := Uncounted(s.service);
    if s.commands[t].kind != Cleanup && Due(uncounted).Some? {
      RunningAfter(s.commands, t, Command(s.commands[t].kind, Switching(Due(uncounted).value, Leaving(inTry)), !inTry));
    }
    hide Running;
  }

  lemma CaughtKeepsInv(s: System, t: RequestId)
    requires Inv(s) && t in s.commands
    requires s.commands[t].started ==> IsRunning(s.commands[t].phase)
    ensures Inv(Caught(s, t))
  {
    RunningWithout(s.commands, t);
    if s.commands[t].started {
      EndCommandKeepsInv(s, t, false);
    } else {
      assert t !in Running(s.commands);
    }
    hide Running;
  }

  lemma BegunKeepsInv(s: System, t: RequestId)
    requires Inv(s) && t in s.commands && !s.commands[t].started && t !in s.ended
    ensures Inv(Begun(s, t))
  {
    var kind := s.commands[t].kind;
    var begun := In(s, Counted(s.service), t, Command(kind, Handling, true));
    assert t !in Running(s.commands);
    RunningAfter(s.commands, t, Command(kind, Handling, true));
    hide Running;
    assert Inv(begun);
    if kind == Isolated && begun.service.depth != 1 {
      CaughtKeepsInv(begun, t);
    }
  }

  lemma InKeepsInv(s: System, service: Service, t: RequestId, command: Command)
    requires Inv(s) && service.depth == s.service.depth
    requires t !in Running(s.commands) && t !in s.ended && !IsRunning(command.phase) && !command.started
    ensures Inv(In(s, service, t, command))
  {
    RunningAfter(s.commands, t, command);
    hide Running;
  }

  lemma InsideKeepsInv(s: System, service: Service, t: RequestId, command: Command)
    requires Inv(s) && service.depth == s.service.depth
    requires t in Running(s.commands) && IsRunning(command.phase) && command.started
    ensures Inv(In(s, service, t, command))
  {
    RunningAfter(s.commands, t, command);
    assert t !in s.ended;
    hide Running;
  }

  lemma SwitchEndKeepsInv(s: System, t: RequestId, succeeds: bool, left: Option<Driver>)
    requires Inv(s) && t in s.commands && s.commands[t].phase.Switching?
    ensures Inv(AfterSwitch(s, t, succeeds, left))
  {
    var command := s.commands[t];
    var service := Service(s.service.depth, s.service.pending, if succeeds then Some(command.phase.target) else left);
    var now := System(service, s.commands, s.watcher, s.ended);
    assert t in Running(s.commands) <==> command.phase.after == During;
    RunningWithout(s.commands, t);
    hide Running, EndCommand;
    assert Inv(now);
    match command.phase.after
    case Preparation => if succeeds {
      InKeepsInv(s, service, t, Command(command.kind, Preparing, command.started));
    } else {
      CaughtKeepsInv(now, t);
    }
    case Count => if succeeds {
      BegunKeepsInv(now, t);
    } else {
      CaughtKeepsInv(now, t);
    }
    case During => if succeeds {
      InsideKeepsInv(s, service, t, Command(command.kind, Handling, command.started));
    } else {
      CaughtKeepsInv(now, t);
    }
    case Leaving(inTry) => if inTry {
      CaughtKeepsInv(now, t);
    }
  }

  lemma ProceedKeepsInv(s: System, t: RequestId)
    requires Inv(s) && t in s.commands && s.commands[t].phase == Preparing
    ensures Inv(Proceeded(s, t))
  {
    var command := s.commands[t];
    if command.kind == Cleanup || Due(s.service) == None {
      BegunKeepsInv(s, t);
    } else {
      InKeepsInv(s, AfterTaking(s.service), t,
                 Command(command.kind, Switching(Due(s.service).value, Count), command.started));
    }
  }

  /** Every step of any request or of the watcher keeps the counter equal to the number of running handlers, calls
      `end_command` at most once a request, and never for one that is not running. */
  lemma StepKeepsInv(s: System, step: Step)
    requires Inv(s) && Enabled(s, step)
    ensures Inv(Next(s, step))
  {
    hide EndCommand, Begun, Caught;
    match step
    case Arrives(t, kind) => InKeepsInv(s, s.service, t, Command(kind, Preparing, false));
    case SwitchesDirectly(t, target) =>
      if s.commands[t].phase == Preparing {
        InKeepsInv(s, s.service, t, Command(s.commands[t].kind, Switching(target, Preparation), s.commands[t].started));
      } else {
        InsideKeepsInv(s, s.service, t, Command(s.commands[t].kind, Switching(target, During), s.commands[t].started));
      }
    case Proceeds(t) => ProceedKeepsInv(s, t);
    case FailsPreparing(t) => CaughtKeepsInv(s, t);
    case SwitchEnds(t, succeeds, left) => SwitchEndKeepsInv(s, t, succeeds, left);
    case HandlerEnds(t, returns_) =>
      if returns_ {
        EndCommandKeepsInv(s, t, true);
      } else {
        CaughtKeepsInv(s, t);
      }
    case Unbinds =>
    case Watches(capable) =>
    case WatcherEnds(succeeds, left) =>
  }

  ghost function Run(steps: seq<Step>): Option<System> {
    if steps == [] then Some(Initial())
    else
      var before := Run(steps[..|steps| - 1]);
      var step := steps[|steps| - 1];
      if before.Some? && Enabled(before.value, step) then Some(Next(before.value, step)) else None
  }

  /** On every run, whatever succeeds, raises, is cancelled or fails while it ends: the counter is the number of
      commands begun and not ended, each has been ended at most once, and none is left when no request is. */
  lemma {:induction false} DepthCountsRunningCommands(steps: seq<Step>)
    requires Run(steps).Some?
    ensures var s := Run(steps).value;
            && Inv(s)
            && (s.commands == map[] ==> s.service.depth == 0)
            && forall t :: s.ended[t] <= 1
    decreases |steps|
  {
    if steps != [] {
      DepthCountsRunningCommands(steps[..|steps| - 1]);
      StepKeepsInv(Run(steps[..|steps| - 1]).value, steps[|steps| - 1]);
    } else {
      assert Running(map[]) == {};
    }
    if Run(steps).value.commands == map[] {
      assert Running(Run(steps).value.commands) == {};
    }
  }

  // ----- the change of driver that waits

  /** The request of this step took the change out of the queue, at a moment when no handler was running. */
  ghost predicate TakenAtIdle(s: System, step: Step, target: Driver)
    requires Enabled(s, step)
  {
    var next := Next(s, step);
    && (step.Proceeds? || step.HandlerEnds? || step.SwitchEnds?)
    && s.commands[step.request].kind != Cleanup
    && step.request in next.commands && next.commands[step.request].phase.Switching?
    && next.commands[step.request].phase.target == target
    && Running(next.commands) == {}
  }

  lemma EndCommandFate(s: System, t: RequestId, inTry: bool)
    requires Inv(s) && t in s.commands && IsRunning(s.commands[t].phase)
    ensures var next := EndCommand(s, t, inTry, !inTry);
            && next.service.pending == (if s.commands[t].kind != Cleanup && Running(s.commands) == {t} then None else s.service.pending)
            && (t in next.commands <==> next.service.pending != s.service.pending)
            && (t in next.commands ==> next.commands[t].phase == Switching(s.service.pending.value, Leaving(inTry)))
            && Running(next.commands) == Running(s.commands) - {t}
  {
    hide FlagsAgree, EndedOnce;
    var next := EndCommand(s, t, inTry, !inTry);
    assert Running(next.commands) == Running(s.commands) - {t};
    assert t in Running(s.commands);
    if s.service.depth == 1 {
      assert |Running(s.commands) - {t}| == 0;
      assert Running(s.commands) == Running(s.commands) - {t} + {t};
    }
  }

  lemma BegunFate(s: System, t: RequestId)
    requires Inv(s) && t in s.commands && !s.commands[t].started && t !in s.ended
    ensures Begun(s, t).service.pending == s.service.pending
    ensures t in Begun(s, t).commands ==> Begun(s, t).commands[t].phase == Handling
    ensures t in Begun(s, t).commands && s.commands[t].kind == Isolated ==> Begun(s, t).service.depth == 1
  {
    var kind := s.commands[t].kind;
    var begun := In(s, Counted(s.service), t, Command(kind, Handling, true));
    BegunKeepsInv(s, t);
    assert t !in Running(s.commands);
    RunningAfter(s.commands, t, Command(kind, Handling, true));
    hide Running;
    assert Inv(begun);
  }

  /** What can become of a queued change of driver in one step, exactly: it stays, possibly replaced by the only
      driver that is ever queued, unless a request that is no cleanup takes it at idle or the watcher's own switch fails. */
  lemma FateOfAQueuedChange(s: System, step: Step, target: Driver)
    requires Inv(s) && Enabled(s, step) && s.service.pending == Some(target)
    ensures Next(s, step).service.pending in {Some(target), Some(Extension), None}
    ensures Next(s, step).service.pending == None <==>
            TakenAtIdle(s, step, target) || (step.WatcherEnds? && !step.succeeds)
  {
    match step
    case HandlerEnds(t, returns_) =>
      EndCommandFate(s, t, returns_);
      hide EndCommand, Running;
    case Proceeds(t) => ProceedFate(s, t);
    case SwitchEnds(t, succeeds, left) => SwitchEndFate(s, t, succeeds, left);
    case Arrives(_, _) =>
    case SwitchesDirectly(_, _) =>
    case FailsPreparing(_) =>
    case Unbinds =>
    case Watches(_) =>
    case WatcherEnds(_, _) =>
  }

  /** Only the failure of a change inside a handler, which ends the handler, can take another change from the queue. */
  lemma SwitchEndFate(s: System, t: RequestId, succeeds: bool, left: Option<Driver>)
    requires Inv(s) && t in s.commands && s.commands[t].phase.Switching?
    ensures var next := AfterSwitch(s, t, succeeds, left);
            if s.commands[t].phase.after == During && !succeeds && s.commands[t].kind != Cleanup && Running(s.commands) == {t}
               && s.service.pending.Some?
            then next.service.pending == None && Running(next.commands) == {} && t in next.commands
                 && next.commands[t].phase == Switching(s.service.pending.value, Leaving(false))
            else next.service.pending == s.service.pending
                 && (s.service.pending.Some? && t in next.commands ==> !next.commands[t].phase.Switching?)
  {
    var command := s.commands[t];
    var service := Service(s.service.depth, s.service.pending, if succeeds then Some(command.phase.target) else left);
    var now := System(service, s.commands, s.watcher, s.ended);
    assert t in Running(s.commands) <==> command.phase.after == During;
    assert Inv(now) && now.commands == s.commands;
    if command.phase.after == During && !succeeds {
      EndCommandFate(now, t, false);
      hide EndCommand, Running;
    } else if succeeds && command.phase.after == Count {
      BegunFate(now, t);
      hide Begun, Running;
    } else {
      hide Running, Begun, EndCommand;
    }
  }

  lemma ProceedFate(s: System, t: RequestId)
    requires Inv(s) && t in s.commands && s.commands[t].phase == Preparing && s.service.pending.Some?
    ensures var next := Proceeded(s, t);
            next.service.pending == None <==>
            && s.commands[t].kind != Cleanup && t in next.commands
            && next.commands[t].phase.Switching? && next.commands[t].phase.target == s.service.pending.value
            && Running(next.commands) == {}
    ensures Proceeded(s, t).service.pending in {None, s.service.pending}
  {
    var command := s.commands[t];
    if command.kind == Cleanup || Due(s.service) == None {
      BegunFate(s, t);
    } else {
      assert Running(s.commands) == {};
      assert t !in Running(s.commands);
      ProceedKeepsInv(s, t);
      var next := Proceeded(s, t);
      assert |Running(next.commands)| == 0;
    }
  }

  /** Requests to close a page leave the queue alone from their arrival to their end. */
  lemma CleanupsNeverTakeAChange(s: System, step: Step)
    requires Inv(s) && Enabled(s, step)
    requires step.Proceeds? || step.HandlerEnds? || step.SwitchEnds? || step.FailsPreparing?
    requires s.commands[step.request].kind == Cleanup
    ensures Next(s, step).service.pending == s.service.pending
  {
    match step
    case HandlerEnds(t, returns_) =>
    case Proceeds(t) => BegunFate(s, t);
    case SwitchEnds(t, succeeds, left) => SwitchEndFate(s, t, succeeds, left);
    case FailsPreparing(_) =>
  }

  /** The last command to end performs the queued change, unless it is a cleanup, and so does the first to begin. */
  lemma ChangesAreNotPutOffForLong(s: System, step: Step)
    requires Inv(s) && Enabled(s, step) && s.service.pending.Some?
    requires || (step.HandlerEnds? && Running(s.commands) == {step.request})
             || (step.SwitchEnds? && s.commands[step.request].phase.after == During && !step.succeeds
                 && Running(s.commands) == {step.request})
             || (step.Proceeds? && Running(s.commands) == {})
    requires s.commands[step.request].kind != Cleanup
    ensures TakenAtIdle(s, step, s.service.pending.value) && Next(s, step).service.pending == None
  {
    FateOfAQueuedChange(s, step, s.service.pending.value);
    if step.HandlerEnds? {
      EndCommandFate(s, step.request, step.returns_);
    } else if step.SwitchEnds? {
      SwitchEndFate(s, step.request, step.succeeds, step.left);
    }
  }

  /** Nothing is queued at idle: the watcher queues a change only while a handler runs, and switches itself otherwise. */
  lemma QueuedOnlyWhileRunning(s: System, step: Step)
    requires Inv(s) && Enabled(s, step) && s.service.pending == None && Next(s, step).service.pending.Some?
    ensures Running(s.commands) != {} && step.Watches? && Next(s, step).service.pending == Some(Extension)
    ensures s.service.driver != Some(Extension) && Next(s, step).watcher == None
  {
    match step
    case HandlerEnds(t, returns_) => EndCommandFate(s, t, returns_);
    case Proceeds(t) => if s.commands[t].kind == Cleanup || Due(s.service) == None { BegunFate(s, t); }
    case SwitchEnds(t, succeeds, left) => SwitchEndFate(s, t, succeeds, left);
    case Arrives(_, _) =>
    case SwitchesDirectly(_, _) =>
    case FailsPreparing(_) =>
    case Unbinds =>
    case Watches(_) =>
    case WatcherEnds(_, _) =>
  }

  /** An isolated context passes its check only as the one running command. Its body starts two awaits later, and a close
      may begin in between. */
  lemma IsolatedPassesAlone(s: System, step: Step, t: RequestId)
    requires Inv(s) && Enabled(s, step) && t in Running(Next(s, step).commands) && t !in Running(s.commands)
    requires Next(s, step).commands[t].kind == Isolated
    ensures Running(Next(s, step).commands) == {t}
  {
    StepKeepsInv(s, step);
    StartsAsOnly(s, step, t);
    var running := Running(Next(s, step).commands);
    assert |running - {t}| == 0;
    assert running == running - {t} + {t};
  }

  /** A request that has nothing to change first starts its handler at once; an isolated context exactly if no other handler
      runs, and is gone otherwise. */
  lemma StartsIff(s: System, t: RequestId)
    requires Inv(s) && Enabled(s, Proceeds(t)) && StartsAtOnce(s, t)
    ensures t in Next(s, Proceeds(t)).commands && Next(s, Proceeds(t)).commands[t].phase == Handling
            <==> s.commands[t].kind != Isolated || Running(s.commands) == {}
    ensures s.commands[t].kind == Isolated && Running(s.commands) != {} && s.service.pending == None ==>
              t !in Next(s, Proceeds(t)).commands
  {
    assert Running(s.commands) == {} <==> |Running(s.commands)| == 0;
  }

  /** A capable extension is switched to at once when no handler runs, and queued when one does; with it in use already, or
      without one, the watcher does nothing. */
  lemma WatcherSwitchesOrQueues(s: System, capable: bool)
    requires Inv(s) && Enabled(s, Watches(capable))
    ensures var next := Next(s, Watches(capable));
            if !capable || s.service.driver == Some(Extension) then next == s
            else if Running(s.commands) == {} then next.watcher == Some(Extension) && next.service == s.service
            else next.watcher == None && next.service == Service(s.service.depth, Some(Extension), s.service.driver)
  {
    assert Running(s.commands) == {} <==> |Running(s.commands)| == 0;
  }

  /** A change of driver that succeeds puts its driver in place, whoever makes it. */
  lemma SwitchedDriverIsInUse(s: System, step: Step)
    requires Enabled(s, step) && (step.SwitchEnds? || step.WatcherEnds?) && step.succeeds
    ensures step.WatcherEnds? ==> Next(s, step).service.driver == s.watcher && Next(s, step).watcher == None
    ensures step.SwitchEnds? ==> Next(s, step).service.driver == Some(s.commands[step.request].phase.target)
  {
  }

  lemma StartsAsOnly(s: System, step: Step, t: RequestId)
    requires Inv(s) && Enabled(s, step) && t in Running(Next(s, step).commands) && t !in Running(s.commands)
    requires Next(s, step).commands[t].kind == Isolated
    ensures Next(s, step).service.depth == 1
  {
    match step
    case Proceeds(u) =>
      if u == t && Due(s.service) == None {
        BegunFate(s, t);
        hide Begun, Running, FlagsAgree, EndedOnce;
      }
    case SwitchEnds(u, succeeds, left) => SwitchedStartsAsOnly(s, u, succeeds, left, t);
    case HandlerEnds(u, returns_) =>
    case Arrives(_, _) =>
    case SwitchesDirectly(_, _) =>
    case FailsPreparing(_) =>
    case Unbinds =>
    case Watches(_) =>
    case WatcherEnds(_, _) =>
  }

  lemma SwitchedStartsAsOnly(s: System, u: RequestId, succeeds: bool, left: Option<Driver>, t: RequestId)
    requires Inv(s) && u in s.commands && s.commands[u].phase.Switching?
    requires t in Running(AfterSwitch(s, u, succeeds, left).commands) && t !in Running(s.commands)
    requires AfterSwitch(s, u, succeeds, left).commands[t].kind == Isolated
    ensures AfterSwitch(s, u, succeeds, left).service.depth == 1
  {
    if u == t && succeeds && s.commands[t].phase.after == Count {
      var now := System(Service(s.service.depth, s.service.pending, Some(s.commands[t].phase.target)), s.commands, s.watcher,
                        s.ended);
      assert Inv(now);
      BegunFate(now, t);
      hide Begun, Running, FlagsAgree, EndedOnce;
    }
  }

  // ----- when a change of driver overlaps a running command

  ghost predicate OtherSwitch(s: System, t: RequestId) {
    s.watcher.Some? || exists u :: u in s.commands && u != t && s.commands[u].phase.Switching?
  }

  ghost predicate SwitchUnderWay(s: System) {
    s.watcher.Some? || exists u :: u in s.commands && s.commands[u].phase.Switching?
  }

  ghost predicate Overlap(s: System) {
    SwitchUnderWay(s) && Running(s.commands) != {}
  }

  /** `begin_command` reaches the handler without a change of driver of its own. */
  predicate StartsAtOnce(s: System, t: RequestId)
    requires t in s.commands
  {
    s.commands[t].kind == Cleanup || Due(s.service) == None
  }

  /** Exactly when a change of driver comes to overlap a running command: one is made past the queue while a handler runs,
      or a handler starts while one is under way, be it a handler that had nothing to change or one that has just made a
      change of its own. Nothing that goes through the queue starts a change beside a handler. */
  lemma OverlapBeginsIff(s: System, step: Step)
    requires Inv(s) && Enabled(s, step) && !Overlap(s)
    ensures Overlap(Next(s, step)) <==>
            || (step.SwitchesDirectly? && Running(s.commands) != {})
            || (step.Proceeds? && StartsAtOnce(s, step.request) && SwitchUnderWay(s))
            || (step.SwitchEnds? && step.succeeds && s.commands[step.request].phase.after == Count
                && OtherSwitch(s, step.request))
  {
    match step
    case Proceeds(t) => ProceedOverlap(s, t);
    case SwitchEnds(t, succeeds, left) => SwitchEndOverlap(s, t, succeeds, left);
    case HandlerEnds(t, returns_) => HandlerEndOverlap(s, t, returns_);
    case SwitchesDirectly(t, target) => DirectOverlap(s, t, target);
    case Arrives(t, kind) =>
    case FailsPreparing(t) =>
    case Unbinds =>
    case Watches(_) =>
    case WatcherEnds(_, _) =>
  }

  lemma DirectOverlap(s: System, t: RequestId, target: Driver)
    requires Inv(s) && Enabled(s, SwitchesDirectly(t, target))
    ensures Overlap(Next(s, SwitchesDirectly(t, target))) <==> Running(s.commands) != {}
  {
    var next := Next(s, SwitchesDirectly(t, target));
    assert Running(next.commands) == Running(s.commands);
    assert t in next.commands && next.commands[t].phase.Switching?;
  }

  lemma HandlerEndOverlap(s: System, t: RequestId, returns_: bool)
    requires Inv(s) && Enabled(s, HandlerEnds(t, returns_)) && !Overlap(s)
    ensures !Overlap(HandlerOver(s, t, returns_))
  {
    assert t in Running(s.commands);
    EndOverlap(s, t, returns_);
    hide EndCommand;
  }

  lemma EndOverlap(s: System, t: RequestId, inTry: bool)
    requires Inv(s) && t in s.commands && IsRunning(s.commands[t].phase)
    requires forall u :: u in s.commands && u != t ==> !s.commands[u].phase.Switching?
    requires s.watcher == None
    ensures !Overlap(EndCommand(s, t, inTry, !inTry))
  {
    EndCommandFate(s, t, inTry);
    var next := EndCommand(s, t, inTry, !inTry);
    assert next.watcher == None;
    assert forall u :: u in next.commands && u != t ==> u in s.commands && next.commands[u] == s.commands[u];
    if t in next.commands {
      assert Running(next.commands) == {};
    }
    hide EndCommand, Running;
  }

  lemma BegunOverlap(s: System, t: RequestId)
    requires Inv(s) && t in s.commands && !s.commands[t].started && t !in s.ended && !s.commands[t].phase.Switching?
    requires !Overlap(s)
    ensures Overlap(Begun(s, t)) <==> SwitchUnderWay(s)
  {
    var begun := Begun(s, t);
    BegunKeepsInv(s, t);
    BegunFate(s, t);
    assert begun.watcher == s.watcher;
    assert t !in Running(s.commands);
    assert forall u :: u != t ==> (u in s.commands <==> u in begun.commands)
                                  && (u in s.commands ==> s.commands[u] == begun.commands[u]);
    if SwitchUnderWay(s) {
      assert Running(s.commands) == {};
      assert s.service.depth == 0;
      assert t in begun.commands && t in Running(begun.commands);
    }
    hide Begun, Running;
  }

  lemma ProceedOverlap(s: System, t: RequestId)
    requires Inv(s) && Enabled(s, Proceeds(t)) && !Overlap(s)
    ensures Overlap(Proceeded(s, t)) <==> StartsAtOnce(s, t) && SwitchUnderWay(s)
  {
    if StartsAtOnce(s, t) {
      BegunOverlap(s, t);
    } else {
      ProceedKeepsInv(s, t);
      assert Running(s.commands) == {};
      assert |Running(Proceeded(s, t).commands)| == 0;
    }
  }

  lemma SwitchEndOverlap(s: System, t: RequestId, succeeds: bool, left: Option<Driver>)
    requires Inv(s) && Enabled(s, SwitchEnds(t, succeeds, left)) && !Overlap(s)
    ensures Overlap(AfterSwitch(s, t, succeeds, left))
            <==> succeeds && s.commands[t].phase.after == Count && OtherSwitch(s, t)
  {
    assert t in s.commands && s.commands[t].phase.Switching?;
    assert SwitchUnderWay(s);
    assert Running(s.commands) == {};
    assert t !in Running(s.commands);
    if succeeds && s.commands[t].phase.after == Count {
      CountedOverlap(s, t);
    } else {
      var next := AfterSwitch(s, t, succeeds, left);
      SwitchEndKeepsInv(s, t, succeeds, left);
      assert Running(next.commands) == {};
    }
  }

  lemma CountedOverlap(s: System, t: RequestId)
    requires Inv(s) && t in s.commands && s.commands[t].phase.Switching? && s.commands[t].phase.after == Count
    requires Running(s.commands) == {}
    ensures Overlap(AfterSwitch(s, t, true, None)) <==> OtherSwitch(s, t)
  {
    var target := s.commands[t].phase.target;
    var now := System(Service(s.service.depth, s.service.pending, Some(target)), s.commands, s.watcher, s.ended);
    var begun := Begun(now, t);
    assert begun == System(Counted(now.service), s.commands[t := Command(s.commands[t].kind, Handling, true)], s.watcher, s.ended);
    assert t in begun.commands && t in Running(begun.commands);
    assert forall u :: u != t ==> (u in s.commands <==> u in begun.commands)
                                  && (u in s.commands ==> s.commands[u] == begun.commands[u]);
    hide Running, Begun;
  }

  // ----- runs of queued changes

  ghost function RunFrom(s: System, steps: seq<Step>): Option<System>
    decreases |steps|
  {
    if steps == [] then Some(s)
    else if Enabled(s, steps[0]) then RunFrom(Next(s, steps[0]), steps[1..])
    else None
  }

  /** One of these steps removed the change `target` from the queue: by taking it at idle, or because the watcher's
      own switch failed. */
  ghost predicate Removed(s: System, steps: seq<Step>)
    requires RunFrom(s, steps).Some?
    decreases |steps|
  {
    steps != []
    && ((s.service.pending.Some?
         && (TakenAtIdle(s, steps[0], s.service.pending.value) || (steps[0].WatcherEnds? && !steps[0].succeeds)))
        || Removed(Next(s, steps[0]), steps[1..]))
  }

  /** Over any number of steps a queued change stays queued unless it is taken at idle or lost to the watcher. */
  lemma {:induction false} QueuedUntilRemoved(s: System, steps: seq<Step>)
    requires Inv(s) && RunFrom(s, steps).Some? && s.service.pending.Some?
    requires !Removed(s, steps)
    ensures RunFrom(s, steps).value.service.pending.Some?
    decreases |steps|
  {
    if steps != [] {
      StepKeepsInv(s, steps[0]);
      FateOfAQueuedChange(s, steps[0], s.service.pending.value);
      QueuedUntilRemoved(Next(s, steps[0]), steps[1..]);
    }
  }

  ghost predicate Reachable(s: System) {
    exists steps :: Run(steps) == Some(s)
  }

  lemma NextIsReachable(s: System, step: Step)
    requires Reachable(s) && Enabled(s, step)
    ensures Reachable(Next(s, step))
  {
    var steps :| Run(steps) == Some(s);
    assert (steps + [step])[..|steps|] == steps;
    assert Run(steps + [step]) == Some(Next(s, step));
  }

  /** A change that was taken at idle may still be under way when the next command runs. */
  lemma ASwitchMayOverlapACommand() returns (s: System)
    ensures Reachable(s) && Running(s.commands) != {}
    ensures exists t :: t in s.commands && s.commands[t].phase == Switching(Extension, Leaving(true))
  {
    hide Running, Reachable;
    s := Initial();
    assert Reachable(s) by { InitialIsReachable(); }
    s := Follow(s, Arrives(0, Ordinary),
                System(Service(0, None, None), map[0 := Command(Ordinary, Preparing, false)], None, multiset{}));
    s := Follow(s, Proceeds(0),
                System(Service(1, None, None), map[0 := Command(Ordinary, Handling, true)], None, multiset{}));
    s := Follow(s, Watches(true),
                System(Service(1, Some(Extension), None), map[0 := Command(Ordinary, Handling, true)], None, multiset{}));
    var leaving := Command(Ordinary, Switching(Extension, Leaving(true)), false);
    s := Follow(s, HandlerEnds(0, true), System(Service(0, None, None), map[0 := leaving], None, multiset{0}));
    s := Follow(s, Arrives(1, Ordinary),
                System(Service(0, None, None), map[0 := leaving, 1 := Command(Ordinary, Preparing, false)], None, multiset{0}));
    s := Follow(s, Proceeds(1),
                System(Service(1, None, None), map[0 := leaving, 1 := Command(Ordinary, Handling, true)], None, multiset{0}));
    assert 1 in Running(s.commands) by { OneRuns(s.commands, 1); }
    assert s.commands[0].phase == Switching(Extension, Leaving(true));
  }

  lemma OneRuns(commands: map<RequestId, Command>, t: RequestId)
    requires t in commands && IsRunning(commands[t].phase)
    ensures t in Running(commands)
  {
  }

  lemma InitialIsReachable()
    ensures Reachable(Initial())
  {
    assert Run([]) == Some(Initial());
  }

  lemma Follow(s: System, step: Step, expected: System) returns (next: System)
    requires Reachable(s) && Enabled(s, step) && Next(s, step) == expected
    ensures Reachable(next) && next == expected
  {
    NextIsReachable(s, step);
    next := expected;
  }

  const COMMAND := Command(Ordinary, Handling, true)
  const CLOSE := Command(Cleanup, Handling, true)

  lemma ACommandRunsOnPlaywright() returns (s: System)
    ensures Reachable(s) && s == System(Service(1, None, Some(Playwright)), map[0 := COMMAND], None, multiset{})
  {
    hide Reachable;
    s := Initial();
    assert Reachable(s) by { InitialIsReachable(); }
    s := Follow(s, Arrives(0, Ordinary),
                System(Service(0, None, None), map[0 := Command(Ordinary, Preparing, false)], None, multiset{}));
    s := Follow(s, SwitchesDirectly(0, Playwright),
                System(Service(0, None, None), map[0 := Command(Ordinary, Switching(Playwright, Preparation), false)], None, multiset{}));
    s := Follow(s, SwitchEnds(0, true, None),
                System(Service(0, None, Some(Playwright)), map[0 := Command(Ordinary, Preparing, false)], None, multiset{}));
    s := Follow(s, Proceeds(0), System(Service(1, None, Some(Playwright)), map[0 := COMMAND], None, multiset{}));
  }

  /** A close that ends last leaves the queued change behind at idle. */
  lemma ACloseCanLeaveAChangeBehind() returns (s: System)
    ensures Reachable(s) && s == System(Service(0, Some(Extension), Some(Playwright)), map[], None, multiset{0, 1})
  {
    hide Reachable;
    s := ACommandRunsOnPlaywright();
    s := Follow(s, Watches(true),
                System(Service(1, Some(Extension), Some(Playwright)), map[0 := COMMAND], None, multiset{}));
    s := Follow(s, Arrives(1, Cleanup),
                System(Service(1, Some(Extension), Some(Playwright)), map[0 := COMMAND, 1 := Command(Cleanup, Preparing, false)], None, multiset{}));
    s := Follow(s, Proceeds(1),
                System(Service(2, Some(Extension), Some(Playwright)), map[0 := COMMAND, 1 := CLOSE], None, multiset{}));
    s := Follow(s, HandlerEnds(0, true),
                System(Service(1, Some(Extension), Some(Playwright)), map[1 := CLOSE], None, multiset{0}));
    s := Follow(s, HandlerEnds(1, true),
                System(Service(0, Some(Extension), Some(Playwright)), map[], None, multiset{0, 1}));
  }

  /** A queued change can be lost: left behind at idle, it is dropped when a switch of the watcher's own fails. */
  lemma AQueuedChangeCanBeLost() returns (s: System, lost: System)
    ensures Reachable(s) && s.service.pending == Some(Extension)
    ensures RunFrom(s, [Watches(true), WatcherEnds(false, None)]) == Some(lost)
    ensures Reachable(lost) && lost.service == Service(0, None, None)
  {
    hide Reachable;
    s := ACloseCanLeaveAChangeBehind();
    var steps := [Watches(true), WatcherEnds(false, None)];
    var between := Follow(s, steps[0], System(s.service, map[], Some(Extension), s.ended));
    lost := Follow(between, steps[1], System(Service(0, None, None), map[], None, s.ended));
    assert steps[1..] == [WatcherEnds(false, None)];
  }
}
