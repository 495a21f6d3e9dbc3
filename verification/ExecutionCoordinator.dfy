/** Who may use the browser at the same time (daemon/execution.py:11-51). Each body that holds the condition's lock
    is one step; a waiter sleeps until it is notified and then looks at its condition again. */
module ExecutionCoordinator {
  import opened Options

  /** One call of `scope`; calls are numbered so that no two share a number. */
  type ScopeId = nat

  datatype Mode = Shared | Batch | Exclusive | Cleanup

  /** A waiter in the condition's queue, and whether it has been notified since it last looked. */
  datatype Waiter = Waiter(mode: Mode, notified: bool)

  datatype Gate = Gate(active: int, exclusiveWaiters: int, exclusiveMode: Option<Mode>,
                       waiters: map<ScopeId, Waiter>, holders: map<ScopeId, Mode>)

  predicate WantsAll(mode: Mode) {
    mode == Batch || mode == Exclusive
  }

  /** What a scope of this mode waits for. */
  predicate Ready(g: Gate, mode: Mode) {
    if WantsAll(mode) then g.active == 0
    else if mode == Cleanup then g.exclusiveMode == None || g.exclusiveMode == Some(Batch)
    else g.exclusiveMode == None && g.exclusiveWaiters == 0
  }

  function NotifyAll(waiters: map<ScopeId, Waiter>): map<ScopeId, Waiter> {
    map t | t in waiters :: Waiter(waiters[t].mode, true)
  }

  function Admit(g: Gate, t: ScopeId, mode: Mode): Gate {
    var rest := g.waiters - {t};
    if WantsAll(mode)
    then Gate(g.active + 1, g.exclusiveWaiters - 1, Some(mode), NotifyAll(rest), g.holders[t := mode])
    else Gate(g.active + 1, g.exclusiveWaiters, g.exclusiveMode, rest, g.holders[t := mode])
  }

  /** A scope that wants the browser for itself says so before it waits. */
  function Announced(g: Gate, mode: Mode): Gate {
    Gate(g.active, if WantsAll(mode) then g.exclusiveWaiters + 1 else g.exclusiveWaiters, g.exclusiveMode, g.waiters,
         g.holders)
  }

  function Asleep(g: Gate, t: ScopeId, mode: Mode): Gate {
    Gate(g.active, g.exclusiveWaiters, g.exclusiveMode, g.waiters[t := Waiter(mode, false)], g.holders)
  }

  /** A scope is entered: it announces itself and either goes in at once or starts to wait. */
  function Entered(g: Gate, t: ScopeId, mode: Mode): Gate {
    var announced := Announced(g, mode);
    if Ready(announced, mode) then Admit(announced, t, mode) else Asleep(announced, t, mode)
  }

  function Woken(g: Gate, t: ScopeId): Gate
    requires t in g.waiters
  {
    var mode := g.waiters[t].mode;
    if Ready(g, mode) then Admit(g, t, mode) else Asleep(g, t, mode)
  }

  /** A waiter is cancelled: one that wanted the browser alone withdraws and lets the others look again. */
  function Withdrawn(g: Gate, t: ScopeId): Gate
    requires t in g.waiters
  {
    var rest := g.waiters - {t};
    if WantsAll(g.waiters[t].mode)
    then Gate(g.active, g.exclusiveWaiters - 1, g.exclusiveMode, NotifyAll(rest), g.holders)
    else Gate(g.active, g.exclusiveWaiters, g.exclusiveMode, rest, g.holders)
  }

  function Left(g: Gate, t: ScopeId): Gate
    requires t in g.holders
  {
    Gate(g.active - 1, g.exclusiveWaiters, if WantsAll(g.holders[t]) then None else g.exclusiveMode,
         NotifyAll(g.waiters), g.holders - {t})
  }

  class BrowserExecutionCoordinator {
    var active: int
    var exclusiveWaiters: int
    var exclusiveMode: Option<Mode>
    var queue: map<ScopeId, Waiter>
    ghost var holders: map<ScopeId, Mode>

    ghost function State(): Gate
      reads this
    {
      Gate(active, exclusiveWaiters, exclusiveMode, queue, holders)
    }

    constructor ()
      ensures State() == Gate(0, 0, None, map[], map[])
    {
      active, exclusiveWaiters, exclusiveMode, queue, holders := 0, 0, None, map[], map[];
    }

    method Enter(t: ScopeId, mode: Mode) returns (inside: bool)
      requires t !in queue && t !in holders
      modifies this
      ensures State() == Entered(old(State()), t, mode)
      ensures inside == (t in holders)
    {
      if WantsAll(mode) {
        exclusiveWaiters := exclusiveWaiters + 1;
      }
      inside := Look(mode);
      if inside {
        GoIn(t, mode);
      } else {
        queue := queue[t := Waiter(mode, false)];
      }
    }

    method Look(mode: Mode) returns (ready: bool)
      ensures ready == Ready(State(), mode)
    {
      if WantsAll(mode) {
        ready := active == 0;
      } else if mode == Cleanup {
        ready := exclusiveMode == None || exclusiveMode == Some(Batch);
      } else {
        ready := exclusiveMode == None && exclusiveWaiters == 0;
      }
    }

    method GoIn(t: ScopeId, mode: Mode)
      modifies this
      ensures State() == Admit(old(State()), t, mode)
    {
      queue := queue - {t};
      if WantsAll(mode) {
        exclusiveMode := Some(mode);
        exclusiveWaiters := exclusiveWaiters - 1;
        queue := NotifyAll(queue);
      }
      active := active + 1;
      holders := holders[t := mode];
    }

    method Wake(t: ScopeId) returns (inside: bool)
      requires t in queue && t !in holders
      modifies this
      ensures State() == Woken(old(State()), t)
      ensures inside == (t in holders)
    {
      var mode := queue[t].mode;
      inside := Look(mode);
      if inside {
        GoIn(t, mode);
      } else {
        queue := queue[t := Waiter(mode, false)];
      }
    }

    method CancelWait(t: ScopeId)
      requires t in queue
      modifies this
      ensures State() == Withdrawn(old(State()), t)
    {
      var mode := queue[t].mode;
      queue := queue - {t};
      if WantsAll(mode) {
        exclusiveWaiters := exclusiveWaiters - 1;
        queue := NotifyAll(queue);
      }
    }

    method Exit(t: ScopeId, mode: Mode)
      requires t in holders && holders[t] == mode
      modifies this
      ensures State() == Left(old(State()), t)
    {
      active := active - 1;
      if WantsAll(mode) {
        exclusiveMode := None;
      }
      queue := NotifyAll(queue);
      holders := holders - {t};
    }
  }

  // ----- runs

  datatype Step = Enters(scope: ScopeId, mode: Mode) | Wakes(scope: ScopeId) | Withdraws(scope: ScopeId)
    | Leaves(scope: ScopeId)

  ghost predicate Enabled(g: Gate, step: Step) {
    match step
    case Enters(t, _) => t !in g.waiters && t !in g.holders
    case Wakes(t) => t in g.waiters && g.waiters[t].notified
    case Withdraws(t) => t in g.waiters
    case Leaves(t) => t in g.holders
  }

  ghost function Next(g: Gate, step: Step): Gate
    requires Enabled(g, step)
  {
    match step
    case Enters(t, mode) => Entered(g, t, mode)
    case Wakes(t) => Woken(g, t)
    case Withdraws(t) => Withdrawn(g, t)
    case Leaves(t) => Left(g, t)
  }

  ghost function Wanting(waiters: map<ScopeId, Waiter>): set<ScopeId> {
    set t | t in waiters && WantsAll(waiters[t].mode)
  }

  lemma WantingAfterRemoval(waiters: map<ScopeId, Waiter>, t: ScopeId)
    ensures Wanting(waiters - {t}) == Wanting(waiters) - {t}
  {
  }

  lemma NotifyKeepsWanting(waiters: map<ScopeId, Waiter>)
    ensures Wanting(NotifyAll(waiters)) == Wanting(waiters)
  {
  }

  lemma WantingAfterQueueing(waiters: map<ScopeId, Waiter>, t: ScopeId, mode: Mode)
    requires t !in waiters || waiters[t].mode == mode
    ensures Wanting(waiters[t := Waiter(mode, false)]) == Wanting(waiters) + if WantsAll(mode) then {t} else {}
  {
  }

  /** The counters count: holders, and waiters that want the browser for themselves. */
  ghost predicate CountersAgree(g: Gate) {
    && g.active == |g.holders.Keys| && g.exclusiveWaiters == |Wanting(g.waiters)|
    && (forall t :: t in g.waiters ==> t !in g.holders)
  }

  /** An exclusive holder is alone, a batch holder shares with cleanups only, and the mode names such a holder. */
  ghost predicate ModesAgree(g: Gate) {
    && (forall t, u :: t in g.holders && u in g.holders && t != u && WantsAll(g.holders[t]) ==>
                         g.holders[t] == Batch && g.holders[u] == Cleanup)
    && (forall t :: t in g.holders && WantsAll(g.holders[t]) ==> g.exclusiveMode == Some(g.holders[t]))
    && (g.exclusiveMode.Some? ==> exists t :: t in g.holders && WantsAll(g.holders[t]) && g.holders[t] == g.exclusiveMode.value)
  }

  /** No wake-up is lost: whoever sleeps without having been notified could not go in. */
  ghost predicate SleepersCannotEnter(g: Gate) {
    forall t :: t in g.waiters && !g.waiters[t].notified ==> !Ready(g, g.waiters[t].mode)
  }

  ghost predicate Inv(g: Gate) {
    CountersAgree(g) && ModesAgree(g) && SleepersCannotEnter(g)
  }

  lemma WaitersAfterAdmit(g: Gate, t: ScopeId, mode: Mode)
    requires t in g.waiters ==> g.waiters[t].mode == mode
    ensures var h := Admit(g, t, mode);
            && |Wanting(h.waiters)| == |Wanting(g.waiters)| - (if t in g.waiters && WantsAll(mode) then 1 else 0)
            && forall u :: u in h.waiters ==> u in g.waiters && u != t
  {
    hide Wanting;
    WantingAfterRemoval(g.waiters, t);
    NotifyKeepsWanting(g.waiters - {t});
    WantingMember(g.waiters, t);
    if t !in Wanting(g.waiters) {
      assert Wanting(g.waiters) - {t} == Wanting(g.waiters);
    }
  }

  lemma WantingMember(waiters: map<ScopeId, Waiter>, t: ScopeId)
    ensures t in Wanting(waiters) <==> t in waiters && WantsAll(waiters[t].mode)
  {
  }

  lemma AdmitKeepsCounters(g: Gate, t: ScopeId, mode: Mode)
    requires g.active == |g.holders.Keys| && t !in g.holders
    requires forall u :: u in g.waiters ==> u !in g.holders
    requires t in g.waiters ==> g.waiters[t].mode == mode
    requires g.exclusiveWaiters == |Wanting(g.waiters)| + if WantsAll(mode) && t !in g.waiters then 1 else 0
    ensures CountersAgree(Admit(g, t, mode))
  {
    hide NotifyAll, Wanting;
    WaitersAfterAdmit(g, t, mode);
  }

  lemma AdmitKeepsModes(g: Gate, t: ScopeId, mode: Mode)
    requires ModesAgree(g) && g.active == |g.holders.Keys| && t !in g.holders && Ready(g, mode)
    ensures ModesAgree(Admit(g, t, mode))
  {
    if WantsAll(mode) {
      hide ModesAgree;
    } else {
      AdmitOtherKeepsModes(g, t, mode);
    }
  }

  lemma AdmitOtherKeepsModes(g: Gate, t: ScopeId, mode: Mode)
    requires ModesAgree(g) && t !in g.holders && Ready(g, mode) && !WantsAll(mode)
    ensures ModesAgree(Admit(g, t, mode))
  {
    var holders := g.holders[t := mode];
    assert forall u :: u in holders && WantsAll(holders[u]) ==> u in g.holders && g.holders[u] == holders[u];
    if g.exclusiveMode.Some? {
      var u :| u in g.holders && WantsAll(g.holders[u]) && g.holders[u] == g.exclusiveMode.value;
      assert u in holders && holders[u] == g.holders[u];
    }
  }

  /** Going in makes nobody able to enter: an exclusive scope notifies everyone, any other leaves the mode alone. */
  lemma AdmitKeepsSleepers(g: Gate, t: ScopeId, mode: Mode)
    requires WantsAll(mode) || (g.active >= 0 && forall u :: u in g.waiters && u != t && !g.waiters[u].notified ==> !Ready(g, g.waiters[u].mode))
    ensures SleepersCannotEnter(Admit(g, t, mode))
  {
    var h := Admit(g, t, mode);
    forall u | u in h.waiters && !h.waiters[u].notified
      ensures !Ready(h, h.waiters[u].mode)
    {
      assert !Ready(g, g.waiters[u].mode);
    }
  }

  lemma SameHolders(g: Gate, h: Gate)
    requires ModesAgree(g) && g.holders == h.holders && g.exclusiveMode == h.exclusiveMode
    ensures ModesAgree(h)
  {
  }

  lemma AsleepKeepsSleepers(g: Gate, t: ScopeId, mode: Mode)
    requires !Ready(g, mode)
    requires forall u :: u in g.waiters && u != t && !g.waiters[u].notified ==> !Ready(g, g.waiters[u].mode)
    ensures SleepersCannotEnter(Asleep(g, t, mode))
  {
    var h := Asleep(g, t, mode);
    forall u | u in h.waiters && !h.waiters[u].notified
      ensures !Ready(h, h.waiters[u].mode)
    {
      if u != t {
        assert !Ready(g, g.waiters[u].mode);
      }
    }
  }

  lemma AnnouncedKeepsSleepers(g: Gate, mode: Mode)
    requires SleepersCannotEnter(g) && g.exclusiveWaiters >= 0
    ensures SleepersCannotEnter(Announced(g, mode))
  {
  }

  lemma AsleepKeepsCounters(g: Gate, t: ScopeId, mode: Mode)
    requires g.active == |g.holders.Keys| && t !in g.holders
    requires forall u :: u in g.waiters ==> u !in g.holders
    requires t in g.waiters ==> g.waiters[t].mode == mode
    requires g.exclusiveWaiters == |Wanting(g.waiters)| + if WantsAll(mode) && t !in g.waiters then 1 else 0
    ensures CountersAgree(Asleep(g, t, mode))
  {
    WantingAfterQueueing(g.waiters, t, mode);
    WantingMember(g.waiters, t);
    hide Wanting;
    if t in g.waiters {
      assert Wanting(g.waiters) + (if WantsAll(mode) then {t} else {}) == Wanting(g.waiters);
    }
  }

  lemma EnterKeepsInv(g: Gate, t: ScopeId, mode: Mode)
    requires Inv(g) && t !in g.waiters && t !in g.holders
    ensures Inv(Entered(g, t, mode))
  {
    hide ModesAgree, Ready, Admit, Asleep, Wanting;
    var announced := Announced(g, mode);
    SameHolders(g, announced);
    AnnouncedKeepsSleepers(g, mode);
    if Ready(announced, mode) {
      AdmitKeepsCounters(announced, t, mode);
      AdmitKeepsModes(announced, t, mode);
      AdmitKeepsSleepers(announced, t, mode);
    } else {
      AsleepKeepsCounters(announced, t, mode);
      AsleepKeepsModes(announced, t, mode);
      AsleepKeepsSleepers(announced, t, mode);
    }
  }

  lemma AsleepKeepsModes(g: Gate, t: ScopeId, mode: Mode)
    requires ModesAgree(g)
    ensures ModesAgree(Asleep(g, t, mode))
  {
    hide ModesAgree;
    SameHolders(g, Asleep(g, t, mode));
  }

  lemma WakeKeepsInv(g: Gate, t: ScopeId)
    requires Inv(g) && t in g.waiters
    ensures Inv(Woken(g, t))
  {
    hide ModesAgree, Ready, Admit, Asleep, Wanting;
    var mode := g.waiters[t].mode;
    if Ready(g, mode) {
      AdmitKeepsCounters(g, t, mode);
      AdmitKeepsModes(g, t, mode);
      AdmitKeepsSleepers(g, t, mode);
    } else {
      AsleepKeepsCounters(g, t, mode);
      AsleepKeepsModes(g, t, mode);
      AsleepKeepsSleepers(g, t, mode);
    }
  }

  lemma WithdrawKeepsInv(g: Gate, t: ScopeId)
    requires Inv(g) && t in g.waiters
    ensures Inv(Withdrawn(g, t))
  {
    WithdrawKeepsSleepers(g, t);
    WantingAfterRemoval(g.waiters, t);
    NotifyKeepsWanting(g.waiters - {t});
    WantingMember(g.waiters, t);
    SameHolders(g, Withdrawn(g, t));
    hide ModesAgree, SleepersCannotEnter, Wanting;
  }

  lemma WithdrawKeepsSleepers(g: Gate, t: ScopeId)
    requires SleepersCannotEnter(g) && t in g.waiters
    ensures SleepersCannotEnter(Withdrawn(g, t))
  {
    var h := Withdrawn(g, t);
    forall u | u in h.waiters && !h.waiters[u].notified
      ensures !Ready(h, h.waiters[u].mode)
    {
      assert !Ready(g, g.waiters[u].mode);
    }
  }

  lemma LeaveKeepsInv(g: Gate, t: ScopeId)
    requires Inv(g) && t in g.holders
    ensures Inv(Left(g, t))
  {
    var h := Left(g, t);
    assert Wanting(h.waiters) == Wanting(g.waiters);
    assert h.holders.Keys == g.holders.Keys - {t};
    assert |h.holders.Keys| == |g.holders.Keys| - 1;
    if h.exclusiveMode.Some? {
      var u :| u in g.holders && WantsAll(g.holders[u]) && g.holders[u] == g.exclusiveMode.value;
      assert u in h.holders && h.holders[u] == g.holders[u];
    }
  }

  lemma StepKeepsInv(g: Gate, step: Step)
    requires Inv(g) && Enabled(g, step)
    ensures Inv(Next(g, step))
  {
    match step
    case Enters(t, mode) => EnterKeepsInv(g, t, mode);
    case Wakes(t) => WakeKeepsInv(g, t);
    case Withdraws(t) => WithdrawKeepsInv(g, t);
    case Leaves(t) => LeaveKeepsInv(g, t);
  }

  ghost function Run(steps: seq<Step>): Option<Gate> {
    if steps == [] then Some(Gate(0, 0, None, map[], map[]))
    else
      var before := Run(steps[..|steps| - 1]);
      var step := steps[|steps| - 1];
      if before.Some? && Enabled(before.value, step) then Some(Next(before.value, step)) else None
  }

  /** Every run of any number of scopes, with any of their waits cancelled, keeps the counters right, an exclusive
      holder alone, a batch among cleanups only, and no waiter asleep that could go in. */
  lemma {:induction false} EveryRunIsSafe(steps: seq<Step>)
    requires Run(steps).Some?
    ensures Inv(Run(steps).value)
    ensures Run(steps).value.active == 0 ==> Run(steps).value.exclusiveMode == None
    decreases |steps|
  {
    if steps != [] {
      EveryRunIsSafe(steps[..|steps| - 1]);
      StepKeepsInv(Run(steps[..|steps| - 1]).value, steps[|steps| - 1]);
    } else {
      assert Wanting(Run(steps).value.waiters) == {};
    }
  }

  /** Who must be let in, by who is inside and who waits: shared work next to anything but a batch or an exclusive scope,
      unless somebody waits to be alone; cleanups next to anything but an exclusive scope; the others when nobody is
      inside. */
  ghost predicate MayGoIn(g: Gate, mode: Mode) {
    match mode
    case Shared => Wanting(g.waiters) == {} && forall u :: u in g.holders ==> !WantsAll(g.holders[u])
    case Cleanup => forall u :: u in g.holders ==> g.holders[u] != Exclusive
    case _ => g.holders == map[]
  }

  lemma ReadyMeansMayGoIn(g: Gate, mode: Mode)
    requires Inv(g)
    ensures Ready(g, mode) <==> MayGoIn(g, mode)
    ensures Ready(Announced(g, mode), mode) <==> Ready(g, mode)
  {
    assert g.holders == map[] <==> g.holders.Keys == {};
    assert Wanting(g.waiters) == {} <==> |Wanting(g.waiters)| == 0;
  }

  /** A scope that is entered, or that looks again when it is notified, goes in if and only if it may; then the holders are
      those from before and it, and otherwise it waits and nothing else happens to anybody. Leaving and being cancelled let
      nobody in. */
  lemma GoesInIff(g: Gate, step: Step)
    requires Inv(g) && Enabled(g, step)
    ensures step.Enters? || step.Wakes? ==>
              var t, mode := step.scope, if step.Enters? then step.mode else g.waiters[step.scope].mode;
              if MayGoIn(g, mode)
              then Next(g, step).holders == g.holders[t := mode] && Next(g, step).waiters.Keys == g.waiters.Keys - {t}
              else Next(g, step).holders == g.holders && Next(g, step).waiters.Keys == g.waiters.Keys + {t}
    ensures step.Leaves? ==>
              Next(g, step).holders == g.holders - {step.scope} && Next(g, step).waiters.Keys == g.waiters.Keys
    ensures step.Withdraws? ==>
              Next(g, step).holders == g.holders && Next(g, step).waiters.Keys == g.waiters.Keys - {step.scope}
  {
    hide Inv, Ready, MayGoIn, Admit, Asleep;
    var t := step.scope;
    if step.Enters? || step.Wakes? {
      var mode := if step.Enters? then step.mode else g.waiters[t].mode;
      ReadyMeansMayGoIn(g, mode);
      KeysOfBoth(if step.Enters? then Announced(g, mode) else g, t, mode);
    }
  }

  lemma KeysOfBoth(g: Gate, t: ScopeId, mode: Mode)
    ensures Admit(g, t, mode).holders == g.holders[t := mode] && Admit(g, t, mode).waiters.Keys == g.waiters.Keys - {t}
    ensures Asleep(g, t, mode).holders == g.holders && Asleep(g, t, mode).waiters.Keys == g.waiters.Keys + {t}
  {
  }

  ghost function RunFrom(g: Gate, steps: seq<Step>): Option<Gate>
    decreases |steps|
  {
    if steps == [] then Some(g)
    else if Enabled(g, steps[0]) then RunFrom(Next(g, steps[0]), steps[1..])
    else None
  }

  /** Everybody inside can leave, one after the other, and nobody gets in by that. */
  lemma {:induction false} AllCanLeave(g: Gate) returns (steps: seq<Step>, empty: Gate)
    requires Inv(g)
    ensures (forall i :: 0 <= i < |steps| ==> steps[i].Leaves?) && RunFrom(g, steps) == Some(empty)
    ensures Inv(empty) && empty.holders == map[] && empty.waiters.Keys == g.waiters.Keys
    decreases |g.holders.Keys|
  {
    hide Inv;
    if g.holders == map[] {
      steps, empty := [], g;
    } else {
      assert g.holders.Keys != {};
      var t :| t in g.holders.Keys;
      GoesInIff(g, Leaves(t));
      StepKeepsInv(g, Leaves(t));
      var next := Next(g, Leaves(t));
      assert next.holders.Keys == g.holders.Keys - {t};
      hide Next;
      var rest;
      rest, empty := AllCanLeave(next);
      steps := [Leaves(t)] + rest;
      assert steps[1..] == rest;
    }
  }

  /** No deadlock from any state that a run can reach: while somebody waits, those inside can leave until somebody else goes
      in. */
  lemma WaitersGetIn(g: Gate) returns (steps: seq<Step>, t: ScopeId)
    requires Inv(g) && g.waiters != map[]
    ensures RunFrom(g, steps).Some? && Enabled(RunFrom(g, steps).value, Wakes(t))
    ensures t in g.waiters && t in Next(RunFrom(g, steps).value, Wakes(t)).holders
  {
    var empty;
    steps, empty := AllCanLeave(g);
    assert g.waiters.Keys != {};
    assert empty.waiters != map[];
    hide Inv, RunFrom, Next;
    SomebodyGoesIn(empty);
    var u :| Enabled(empty, Wakes(u)) && u in Next(empty, Wakes(u)).holders;
    t := u;
    assert u in empty.waiters.Keys;
  }

  /** Nobody shares the browser with, or gets in ahead of, one who waits to have it alone: a shared scope goes in
      only when nobody holds or awaits the browser alone. */
  lemma SharedGivesWay(g: Gate, step: Step, t: ScopeId)
    requires Inv(g) && Enabled(g, step)
    requires t !in g.holders && t in Next(g, step).holders && Next(g, step).holders[t] == Shared
    ensures Wanting(g.waiters) == {} && forall u :: u in g.holders ==> !WantsAll(g.holders[u])
  {
  }

  lemma ModesStay(g: Gate, step: Step, t: ScopeId)
    requires Enabled(g, step) && t in g.waiters && t in Next(g, step).waiters
    ensures Next(g, step).waiters[t].mode == g.waiters[t].mode
  {
  }

  /** No wake-up is lost: whoever waits and may go in has been notified. */
  lemma WhoMayGoInIsNotified(g: Gate, t: ScopeId)
    requires Inv(g) && t in g.waiters && MayGoIn(g, g.waiters[t].mode)
    ensures Enabled(g, Wakes(t)) && t in Next(g, Wakes(t)).holders
  {
    ReadyMeansMayGoIn(g, g.waiters[t].mode);
    hide MayGoIn;
  }

  /** No deadlock: when nobody holds the browser and somebody waits, some waiter has been notified and goes in as
      soon as it looks. */
  lemma SomebodyGoesIn(g: Gate)
    requires Inv(g) && g.holders == map[] && g.waiters != map[]
    ensures exists t :: Enabled(g, Wakes(t)) && t in Next(g, Wakes(t)).holders
  {
    if Wanting(g.waiters) != {} {
      var t :| t in Wanting(g.waiters);
      assert Ready(g, g.waiters[t].mode);
      assert Enabled(g, Wakes(t)) && t in Next(g, Wakes(t)).holders;
    } else {
      assert g.waiters.Keys != {};
      var t :| t in g.waiters.Keys;
      assert t !in Wanting(g.waiters);
      assert Ready(g, g.waiters[t].mode);
      assert Enabled(g, Wakes(t)) && t in Next(g, Wakes(t)).holders;
    }
  }
}
