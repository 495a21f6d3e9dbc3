/** Background runs: their life cycle, cancellation and eviction (daemon/run_registry.py). Runs are known by the number
    in their id, which also orders them by age; the clock is assumed not to go back. */
module RunRegistry {
  import opened Options

  type RunId = nat

  datatype Status = Queued | Running | CancelRequested | Succeeded | Failed | Canceled

  /** A run's task: before its first turn, waiting for the browser, reading, or done. */
  datatype Stage = Unstarted | Waiting | Reading | Done(cancelled: bool)

  /** `asked`: it was told to cancel; `told`: its done callback has run. */
  datatype Task = Task(stage: Stage, asked: bool, told: bool)

  datatype Run = Run(status: Status, events: seq<Status>)

  datatype Registry = Registry(counter: nat, limit: nat, runs: map<RunId, Run>, tasks: map<RunId, Task>)

  predicate Terminal(status: Status) {
    status in {Succeeded, Failed, Canceled}
  }

  function Noted(run: Run, status: Status): Run {
    Run(status, run.events + [status])
  }

  predicate IsActive(tasks: map<RunId, Task>, id: RunId) {
    id in tasks && !tasks[id].stage.Done?
  }

  predicate Evictable(s: Registry, id: RunId) {
    id in s.runs && Terminal(s.runs[id].status) && !IsActive(s.tasks, id)
  }

  function WithRun(s: Registry, id: RunId, run: Run, task: Task): Registry {
    Registry(s.counter, s.limit, s.runs[id := run], s.tasks[id := task])
  }

  function Forgotten(s: Registry, id: RunId): Registry {
    Registry(s.counter, s.limit, s.runs - {id}, s.tasks - {id})
  }

  /** The loop over the evictable runs, from the one with this number on. */
  function EvictedFrom(s: Registry, id: RunId): Registry
    decreases s.counter + 1 - id
  {
    if id > s.counter || |s.runs.Keys| <= s.limit then s
    else EvictedFrom(if Evictable(s, id) then Forgotten(s, id) else s, id + 1)
  }

  function Evicted(s: Registry): Registry {
    EvictedFrom(s, 0)
  }

  function Started(s: Registry): Registry {
    var id := s.counter + 1;
    Evicted(Registry(id, s.limit, s.runs[id := Run(Queued, [Queued])], s.tasks[id := Task(Unstarted, false, false)]))
  }

  /** Asking for cancellation: only an active task is told. */
  function CancelAsked(s: Registry, id: RunId): Registry {
    if id in s.runs && IsActive(s.tasks, id)
    then WithRun(s, id, Noted(s.runs[id], CancelRequested), Task(s.tasks[id].stage, true, s.tasks[id].told))
    else s
  }

  /** The first turn of a task. One that was cancelled before never enters the coroutine. */
  function FirstTurn(s: Registry, id: RunId): Registry
    requires id in s.tasks && id in s.runs
  {
    var task := s.tasks[id];
    WithRun(s, id, s.runs[id], Task(if task.asked then Done(true) else Waiting, task.asked, task.told))
  }

  /** The browser is free for a shared action: the run goes ahead. */
  function WentAhead(s: Registry, id: RunId): Registry
    requires id in s.tasks && id in s.runs
  {
    WithRun(s, id, Noted(s.runs[id], Running), Task(Reading, s.tasks[id].asked, s.tasks[id].told))
  }

  /** The coroutine is over; its `finally` evicts while its task still counts as active. */
  function Concluded(s: Registry, id: RunId, outcome: Status): Registry
    requires id in s.tasks && id in s.runs
  {
    Evicted(WithRun(s, id, Noted(s.runs[id], outcome), s.tasks[id]))
  }

  function Closed(s: Registry, id: RunId, cancelled: bool): Registry
    requires id in s.tasks
  {
    Registry(s.counter, s.limit, s.runs, s.tasks[id := Task(Done(cancelled), s.tasks[id].asked, s.tasks[id].told)])
  }

  /** `_run_finished`: a task that never ran is given its last status here. */
  function CallbackRan(s: Registry, id: RunId, cancelled: bool): Registry {
    var told := if id in s.tasks then s.tasks[id := Task(s.tasks[id].stage, s.tasks[id].asked, true)] else s.tasks;
    Evicted(Registry(s.counter, s.limit,
                     if cancelled && id in s.runs && s.runs[id].status != Canceled then s.runs[id := Noted(s.runs[id], Canceled)] else s.runs,
                     told))
  }

  lemma EvictionStep(s: Registry, id: RunId)
    ensures EvictedFrom(s, id) == if id > s.counter || |s.runs.Keys| <= s.limit then s
                                  else EvictedFrom(if Evictable(s, id) then Forgotten(s, id) else s, id + 1)
  {
  }

  class CommandRunRegistry {
    const maxCompletedRuns: nat
    var counter: nat
    var runs: map<RunId, Run>
    var tasks: map<RunId, Task>

    ghost function State(): Registry
      reads this
    {
      Registry(counter, maxCompletedRuns, runs, tasks)
    }

    constructor (maxCompletedRuns: nat)
      ensures State() == Registry(0, maxCompletedRuns, map[], map[])
    {
      this.maxCompletedRuns := maxCompletedRuns;
      counter, runs, tasks := 0, map[], map[];
    }

    method EvictCompletedRuns()
      modifies this`runs, this`tasks
      ensures State() == Evicted(old(State()))
    {
      hide EvictedFrom;
      EvictionStep(State(), 0);
      if |runs.Keys| <= maxCompletedRuns {
        return;
      }
      var id: nat := 0;
      while id <= counter
        invariant id <= counter + 1
        invariant EvictedFrom(State(), id) == EvictedFrom(old(State()), 0)
        decreases counter + 1 - id
      {
        EvictionStep(State(), id);
        if |runs.Keys| <= maxCompletedRuns {
          return;
        }
        if id in runs && Terminal(runs[id].status) && !IsActive(tasks, id) {
          runs, tasks := runs - {id}, tasks - {id};
        }
        id := id + 1;
      }
      EvictionStep(State(), id);
    }

    method StartRead() returns (id: RunId)
      modifies this
      ensures id == old(counter) + 1 && State() == Started(old(State()))
    {
      counter := counter + 1;
      id := counter;
      runs := runs[id := Run(Queued, [Queued])];
      tasks := tasks[id := Task(Unstarted, false, false)];
      EvictCompletedRuns();
    }

    method Status(id: RunId) returns (status: Option<Status>)
      ensures status == if id in runs then Some(runs[id].status) else None
    {
      status := if id in runs then Some(runs[id].status) else None;
    }

    /** The last events, as many as asked for. */
    method Logs(id: RunId, tail: int) returns (events: seq<Status>)
      ensures id !in runs || tail <= 0 ==> events == []
      ensures id in runs && tail > 0 ==> |events| <= |runs[id].events| && events == runs[id].events[|runs[id].events| - |events|..]
                                         && |events| == (if tail < |runs[id].events| then tail else |runs[id].events|)
    {
      if id !in runs || tail <= 0 {
        return [];
      }
      var all := runs[id].events;
      events := if tail < |all| then all[|all| - tail..] else all;
    }

    method Cancel(id: RunId) returns (requested: bool)
      modifies this`runs, this`tasks
      ensures State() == CancelAsked(old(State()), id)
      ensures requested == (id in old(runs) && IsActive(old(tasks), id))
    {
      requested := false;
      if id !in runs {
        return;
      }
      if id in tasks && !tasks[id].stage.Done? {
        runs := runs[id := Noted(runs[id], CancelRequested)];
        tasks := tasks[id := Task(tasks[id].stage, true, tasks[id].told)];
        requested := true;
      }
    }

    method GoAhead(id: RunId)
      requires id in runs && id in tasks
      modifies this`runs, this`tasks
      ensures State() == WentAhead(old(State()), id)
    {
      runs := runs[id := Noted(runs[id], Running)];
      tasks := tasks[id := Task(Reading, tasks[id].asked, tasks[id].told)];
    }

    method Conclude(id: RunId, outcome: Status)
      requires id in runs && id in tasks
      modifies this`runs, this`tasks
      ensures State() == Concluded(old(State()), id, outcome)
    {
      runs := runs[id := Noted(runs[id], outcome)];
      tasks := tasks[id := tasks[id]];
      EvictCompletedRuns();
    }

    method RunFinished(id: RunId, cancelled: bool)
      modifies this`runs, this`tasks
      ensures State() == CallbackRan(old(State()), id, cancelled)
    {
      if id in tasks {
        tasks := tasks[id := Task(tasks[id].stage, tasks[id].asked, true)];
      }
      if cancelled && id in runs && runs[id].status != Canceled {
        runs := runs[id := Noted(runs[id], Canceled)];
      }
      EvictCompletedRuns();
    }
  }

  // ----- eviction

  /** The finished runs with numbers from one bound up to another. */
  ghost function Band(s: Registry, from: nat, stop: nat): set<RunId> {
    set r | r in s.runs && from <= r < stop && Evictable(s, r)
  }

  lemma MinusTwice<K, V>(m: map<K, V>, a: set<K>, b: set<K>)
    ensures m - a - b == m - (a + b)
  {
  }

  lemma BandSplits(s: Registry, from: nat, stop: nat)
    requires from < stop && Evictable(s, from)
    ensures Band(s, from, stop) == {from} + Band(Forgotten(s, from), from + 1, stop)
  {
    var next := Forgotten(s, from);
    forall r
      ensures r in Band(s, from, stop) <==> r == from || r in Band(next, from + 1, stop)
    {
      if r != from {
        assert Evictable(next, r) <==> Evictable(s, r);
      }
    }
  }

  lemma BandSkips(s: Registry, from: nat, stop: nat)
    requires !Evictable(s, from)
    ensures Band(s, from, stop) == Band(s, from + 1, stop)
  {
  }

  /** What the eviction of the rest leaves after that of one more run. */
  lemma OneMoreForgotten(s: Registry, id: RunId, more: set<RunId>, t: Registry)
    requires id in s.runs && |s.runs.Keys| > s.limit
    requires var next := Forgotten(s, id); t == Registry(next.counter, next.limit, next.runs - more, next.tasks - more)
    requires more != {} ==> |t.runs.Keys| >= s.limit
    ensures t == Registry(s.counter, s.limit, s.runs - ({id} + more), s.tasks - ({id} + more))
    ensures |t.runs.Keys| >= s.limit
  {
    MinusTwice(s.runs, {id}, more);
    MinusTwice(s.tasks, {id}, more);
  }

  /** Eviction from number id on removes the finished runs below `stop`, one by one until the limit is met or none is left,
      and leaves everything else alone. */
  ghost predicate StopsAt(s: Registry, id: RunId, stop: nat) {
    var t, gone := EvictedFrom(s, id), Band(s, id, stop);
    && id <= stop <= s.counter + 1
    && t == Registry(s.counter, s.limit, s.runs - gone, s.tasks - gone)
    && (|t.runs.Keys| <= s.limit || stop == s.counter + 1)
    && (gone != {} ==> |t.runs.Keys| >= s.limit)
  }

  lemma StopsAtOnce(s: Registry, id: RunId)
    requires id <= s.counter + 1 && (id > s.counter || |s.runs.Keys| <= s.limit)
    ensures StopsAt(s, id, id)
  {
    EmptyBand(s, id);
    hide Band;
  }

  lemma StopsAfterOneMore(s: Registry, id: RunId, stop: nat)
    requires id <= s.counter && |s.runs.Keys| > s.limit && Evictable(s, id) && StopsAt(Forgotten(s, id), id + 1, stop)
    ensures StopsAt(s, id, stop)
  {
    hide Evictable, Band;
    var next, t := Forgotten(s, id), EvictedFrom(s, id);
    assert t == EvictedFrom(next, id + 1);
    hide EvictedFrom;
    BandSplits(s, id, stop);
    EvictableIsThere(s, id);
    OneMoreForgotten(s, id, Band(next, id + 1, stop), t);
  }

  lemma StopsBeyond(s: Registry, id: RunId, stop: nat)
    requires id <= s.counter && |s.runs.Keys| > s.limit && !Evictable(s, id) && StopsAt(s, id + 1, stop)
    ensures StopsAt(s, id, stop)
  {
    hide Evictable, Band;
    assert EvictedFrom(s, id) == EvictedFrom(s, id + 1);
    hide EvictedFrom;
    BandSkips(s, id, stop);
  }

  /** Eviction removes the oldest finished runs up to some number, and nothing else. */
  lemma {:induction false} EvictionStops(s: Registry, id: RunId) returns (stop: nat)
    requires id <= s.counter + 1
    ensures StopsAt(s, id, stop)
    decreases s.counter + 1 - id
  {
    hide StopsAt, Evictable;
    if id > s.counter || |s.runs.Keys| <= s.limit {
      stop := id;
      StopsAtOnce(s, id);
    } else if Evictable(s, id) {
      stop := EvictionStops(Forgotten(s, id), id + 1);
      StopsAfterOneMore(s, id, stop);
    } else {
      stop := EvictionStops(s, id + 1);
      StopsBeyond(s, id, stop);
    }
  }

  lemma EmptyBand(s: Registry, id: nat)
    ensures Band(s, id, id) == {}
  {
  }

  lemma EvictableIsThere(s: Registry, id: RunId)
    requires Evictable(s, id)
    ensures id in s.runs
  {
  }

  // ----- runs of the registry

  datatype Step =
      Starts
    | Cancels(id: RunId)
    | TakesFirstTurn(id: RunId)
    | GoesAhead(id: RunId)
    | Ends(id: RunId, outcome: Status)
    | CallsBack(id: RunId, cancelled: bool)

  ghost predicate Enabled(s: Registry, step: Step) {
    match step
    case Starts => true
    case Cancels(_) => true
    case TakesFirstTurn(id) => id in s.tasks && id in s.runs && s.tasks[id].stage == Unstarted
    case GoesAhead(id) => id in s.tasks && id in s.runs && s.tasks[id].stage == Waiting && !s.tasks[id].asked
    case Ends(id, outcome) =>
      && id in s.tasks && id in s.runs
      && ((s.tasks[id].stage == Reading && Terminal(outcome)) || (s.tasks[id].stage == Waiting && s.tasks[id].asked && outcome == Canceled))
    case CallsBack(id, cancelled) => id in s.tasks ==> s.tasks[id].stage == Done(cancelled) && !s.tasks[id].told
  }

  /** What a run's status says about its task. */
  ghost predicate Fits(run: Run, task: Task) {
    (task.told ==> task.stage.Done?) &&
    match task.stage
    case Unstarted => run.status == if task.asked then CancelRequested else Queued
    case Waiting => run.status == if task.asked then CancelRequested else Queued
    case Reading => run.status == if task.asked then CancelRequested else Running
    case Done(cancelled) => if cancelled then run.status == Canceled || (run.status == CancelRequested && !task.told)
                            else run.status == Succeeded || run.status == Failed
  }

  ghost predicate Inv(s: Registry) {
    && s.runs.Keys == s.tasks.Keys
    && forall id :: id in s.runs ==> 1 <= id <= s.counter && Fits(s.runs[id], s.tasks[id])
  }

  ghost function Next(s: Registry, step: Step): Registry
    requires Inv(s) && Enabled(s, step)
  {
    match step
    case Starts => Started(s)
    case Cancels(id) => CancelAsked(s, id)
    case TakesFirstTurn(id) => FirstTurn(s, id)
    case GoesAhead(id) => WentAhead(s, id)
    case Ends(id, outcome) => EndedRun(s, id, outcome)
    case CallsBack(id, cancelled) => CallbackRan(s, id, cancelled)
  }

  /** The coroutine concludes and its task is done, with nothing in between. */
  ghost function EndedRun(s: Registry, id: RunId, outcome: Status): Registry
    requires id in s.tasks && id in s.runs && IsActive(s.tasks, id)
  {
    var t := Concluded(s, id, outcome);
    if id in t.tasks then Closed(t, id, outcome == Canceled) else t
  }

  /** Eviction loses finished runs only and changes none that stays. */
  lemma EvictionKeeps(s: Registry, t: Registry)
    requires t == Evicted(s)
    ensures t.counter == s.counter && t.limit == s.limit
    ensures forall id :: id in t.runs ==> id in s.runs && t.runs[id] == s.runs[id]
    ensures forall id :: id in t.tasks ==> id in s.tasks && t.tasks[id] == s.tasks[id]
    ensures forall id :: id in s.runs && !Evictable(s, id) ==> id in t.runs
    ensures forall id :: id in s.tasks && !Evictable(s, id) ==> id in t.tasks
    ensures s.runs.Keys == s.tasks.Keys ==> t.runs.Keys == t.tasks.Keys
  {
    var stop := EvictionStops(s, 0);
  }

  /** Eviction takes the oldest first, no more than it must, and stops only at the limit or when nothing is left. */
  lemma EvictionIsOldestFirst(s: Registry)
    ensures var t := Evicted(s);
            && (forall r: nat, e: nat :: r in s.runs && r !in t.runs && Evictable(s, e) && e < r ==> e !in t.runs)
            && (|t.runs.Keys| <= s.limit || forall e: nat :: e <= s.counter ==> !Evictable(t, e))
            && (t.runs != s.runs ==> |t.runs.Keys| >= s.limit)
  {
    var stop := EvictionStops(s, 0);
    var t := Evicted(s);
    hide EvictedFrom, Band, Evictable;
  }

  ghost predicate InvBefore(s: Registry, except: RunId) {
    && s.runs.Keys == s.tasks.Keys
    && forall id :: id in s.runs ==> 1 <= id <= s.counter && (id != except ==> Fits(s.runs[id], s.tasks[id]))
  }

  lemma EvictKeepsInv(s: Registry, except: RunId)
    requires InvBefore(s, except)
    ensures InvBefore(Evicted(s), except)
    ensures except in s.runs && Fits(s.runs[except], s.tasks[except]) ==> Inv(Evicted(s))
    ensures except !in s.runs ==> Inv(Evicted(s))
  {
    EvictionKeeps(s, Evicted(s));
    hide Evicted, Evictable, Fits;
  }

  lemma StepKeepsInv(s: Registry, step: Step)
    requires Inv(s) && Enabled(s, step)
    ensures Inv(Next(s, step))
  {
    hide Evicted;
    match step
    case Starts => EvictKeepsInv(Registry(s.counter + 1, s.limit, s.runs[s.counter + 1 := Run(Queued, [Queued])],
                                          s.tasks[s.counter + 1 := Task(Unstarted, false, false)]), s.counter + 1);
    case Ends(id, outcome) => EndKeepsInv(s, id, outcome);
    case CallsBack(id, cancelled) => CallbackKeepsInv(s, id, cancelled);
    case Cancels(_) =>
    case TakesFirstTurn(_) =>
    case GoesAhead(_) =>
  }

  lemma EndKeepsInv(s: Registry, id: RunId, outcome: Status)
    requires Inv(s) && Enabled(s, Ends(id, outcome))
    ensures Inv(EndedRun(s, id, outcome))
  {
    hide Evicted;
    var mid := WithRun(s, id, Noted(s.runs[id], outcome), s.tasks[id]);
    EvictKeepsInv(mid, id);
    EvictionKeeps(mid, Evicted(mid));
    assert id in Evicted(mid).tasks;
  }

  lemma CallbackKeepsInv(s: Registry, id: RunId, cancelled: bool)
    requires Inv(s) && Enabled(s, CallsBack(id, cancelled))
    ensures Inv(CallbackRan(s, id, cancelled))
  {
    hide Evicted;
    var told := if id in s.tasks then s.tasks[id := Task(s.tasks[id].stage, s.tasks[id].asked, true)] else s.tasks;
    var runs := if cancelled && id in s.runs && s.runs[id].status != Canceled then s.runs[id := Noted(s.runs[id], Canceled)] else s.runs;
    EvictKeepsInv(Registry(s.counter, s.limit, runs, told), id);
  }

  // ----- theorems over runs

  /** Queued, running, perhaps asked to cancel, then finished for good. */
  predicate Moves(from: Status, to: Status) {
    || from == to
    || (from == Queued && to in {Running, CancelRequested})
    || (from == Running && to in {CancelRequested, Succeeded, Failed, Canceled})
    || (from == CancelRequested && Terminal(to))
  }

  ghost function RunOf(limit: nat, steps: seq<Step>): Option<Registry>
    ensures RunOf(limit, steps).Some? ==> Inv(RunOf(limit, steps).value)
    decreases |steps|
  {
    if steps == [] then Some(Registry(0, limit, map[], map[]))
    else
      var before := RunOf(limit, steps[..|steps| - 1]);
      var step := steps[|steps| - 1];
      if before.Some? && Enabled(before.value, step)
      then (StepKeepsInv(before.value, step); Some(Next(before.value, step)))
      else None
  }

  /** One step moves every run's status along the life cycle, if at all, or loses a run that is finished. */
  lemma StatusesMoveForward(s: Registry, step: Step, id: RunId)
    requires Inv(s) && Enabled(s, step) && id in s.runs
    ensures id in Next(s, step).runs ==>
              Moves(s.runs[id].status, Next(s, step).runs[id].status) && s.runs[id].events <= Next(s, step).runs[id].events
    ensures id !in Next(s, step).runs ==> Terminal(s.runs[id].status) || (step.CallsBack? && step.id == id && step.cancelled)
  {
    hide Evicted;
    match step
    case Starts =>
      var mid := Registry(s.counter + 1, s.limit, s.runs[s.counter + 1 := Run(Queued, [Queued])],
                          s.tasks[s.counter + 1 := Task(Unstarted, false, false)]);
      EvictionKeeps(mid, Evicted(mid));
    case Ends(u, outcome) =>
      var mid := WithRun(s, u, Noted(s.runs[u], outcome), s.tasks[u]);
      EvictionKeeps(mid, Evicted(mid));
    case CallsBack(u, cancelled) =>
      var told := if u in s.tasks then s.tasks[u := Task(s.tasks[u].stage, s.tasks[u].asked, true)] else s.tasks;
      var runs := if cancelled && u in s.runs && s.runs[u].status != Canceled then s.runs[u := Noted(s.runs[u], Canceled)] else s.runs;
      var mid := Registry(s.counter, s.limit, runs, told);
      EvictionKeeps(mid, Evicted(mid));
    case Cancels(_) =>
    case TakesFirstTurn(_) =>
    case GoesAhead(_) =>
  }

  /** Nothing to forget is kept beyond the limit: after a start, an end or a callback either the limit is met or no other
      run is both finished and done. */
  ghost predicate OnlyNeededRuns(s: Registry, except: Option<RunId>) {
    |s.runs.Keys| <= s.limit
    || forall r :: r in s.runs && r in s.tasks && Some(r) != except ==>
                     !(s.runs[r].status in {Succeeded, Failed, Canceled} && s.tasks[r].stage.Done?)
  }

  lemma MemoryIsBounded(s: Registry, step: Step)
    requires Inv(s) && Enabled(s, step) && (step.Starts? || step.Ends? || step.CallsBack?)
    ensures OnlyNeededRuns(Next(s, step), if step.Ends? then Some(step.id) else None)
  {
    hide Evicted;
    StepKeepsInv(s, step);
    match step
    case Starts =>
      EvictedIsBounded(Registry(s.counter + 1, s.limit, s.runs[s.counter + 1 := Run(Queued, [Queued])],
                                s.tasks[s.counter + 1 := Task(Unstarted, false, false)]));
    case Ends(id, outcome) =>
      var mid := WithRun(s, id, Noted(s.runs[id], outcome), s.tasks[id]);
      EvictedIsBounded(mid);
    case CallsBack(id, cancelled) =>
      var told := if id in s.tasks then s.tasks[id := Task(s.tasks[id].stage, s.tasks[id].asked, true)] else s.tasks;
      var runs := if cancelled && id in s.runs && s.runs[id].status != Canceled then s.runs[id := Noted(s.runs[id], Canceled)] else s.runs;
      EvictedIsBounded(Registry(s.counter, s.limit, runs, told));
  }

  lemma EvictedIsBounded(s: Registry)
    requires forall r :: r in s.runs ==> r <= s.counter
    ensures OnlyNeededRuns(Evicted(s), None)
  {
    EvictionIsOldestFirst(s);
    EvictionKeeps(s, Evicted(s));
    hide Evicted;
    var t := Evicted(s);
    if |t.runs.Keys| > t.limit {
      forall r | r in t.runs && r in t.tasks
        ensures !(t.runs[r].status in {Succeeded, Failed, Canceled} && t.tasks[r].stage.Done?)
      {
        assert r <= s.counter && !Evictable(t, r);
      }
    }
  }

  /** A started run is queued under the next number and is not evicted by its own start. */
  lemma StartedIsQueued(s: Registry)
    requires Inv(s)
    ensures var t, id := Next(s, Starts), s.counter + 1;
            && t.counter == id && id !in s.runs && id in t.runs && t.runs[id] == Run(Queued, [Queued])
            && id in t.tasks && t.tasks[id] == Task(Unstarted, false, false)
            && forall r :: r in t.runs && r != id ==>
                             r in s.runs && t.runs[r] == s.runs[r] && r in t.tasks && t.tasks[r] == s.tasks[r]
  {
    hide Evicted;
    var id := s.counter + 1;
    var mid := Registry(id, s.limit, s.runs[id := Run(Queued, [Queued])], s.tasks[id := Task(Unstarted, false, false)]);
    EvictionKeeps(mid, Evicted(mid));
    StepKeepsInv(s, Starts);
  }

  /** Asking to cancel reaches a run that is known and not finished, and it alone: the run says so, in its log too, and its
      task is told. Any other request changes nothing. */
  lemma CancelReachesIff(s: Registry, id: RunId)
    requires Inv(s)
    ensures var t := Next(s, Cancels(id));
            if id in s.runs && !s.tasks[id].stage.Done? then
              && t.runs == s.runs[id := Run(CancelRequested, s.runs[id].events + [CancelRequested])]
              && t.tasks.Keys == s.tasks.Keys && t.tasks[id].asked && t.tasks[id].stage == s.tasks[id].stage
              && forall r :: r in s.tasks && r != id ==> t.tasks[r] == s.tasks[r]
            else t == s
  {
  }

  /** A run that was asked to cancel before its first turn is done without having run; any other one waits for the browser
      and, once it goes ahead, is running. */
  lemma TurnsShow(s: Registry, id: RunId)
    requires Inv(s)
    ensures Enabled(s, TakesFirstTurn(id)) ==>
              Next(s, TakesFirstTurn(id)).runs == s.runs
              && Next(s, TakesFirstTurn(id)).tasks[id].stage == if s.tasks[id].asked then Done(true) else Waiting
    ensures Enabled(s, GoesAhead(id)) ==>
              Next(s, GoesAhead(id)).runs == s.runs[id := Run(Running, s.runs[id].events + [Running])]
              && Next(s, GoesAhead(id)).tasks[id].stage == Reading
  {
  }

  /** A run that ends shows its outcome, and stays known until its task is done; the callback of a cancelled task gives its
      run the last status if it has none yet. */
  lemma EndShowsOutcome(s: Registry, id: RunId, outcome: Status, cancelled: bool)
    requires Inv(s)
    ensures Enabled(s, Ends(id, outcome)) ==>
              var t := Next(s, Ends(id, outcome));
              && id in t.runs && t.runs[id] == Run(outcome, s.runs[id].events + [outcome])
              && id in t.tasks && t.tasks[id].stage == Done(outcome == Canceled)
    ensures Enabled(s, CallsBack(id, cancelled)) && id in s.runs ==>
              var t := Next(s, CallsBack(id, cancelled));
              id in t.runs ==>
                id in t.tasks && t.tasks[id].told
                && t.runs[id] == if cancelled && s.runs[id].status != Canceled then Run(Canceled, s.runs[id].events + [Canceled])
                                 else s.runs[id]
  {
    hide Evicted;
    if Enabled(s, Ends(id, outcome)) {
      var mid := WithRun(s, id, Noted(s.runs[id], outcome), s.tasks[id]);
      EvictionKeeps(mid, Evicted(mid));
    }
    if Enabled(s, CallsBack(id, cancelled)) && id in s.runs {
      var told := s.tasks[id := Task(s.tasks[id].stage, s.tasks[id].asked, true)];
      var runs := if cancelled && s.runs[id].status != Canceled then s.runs[id := Noted(s.runs[id], Canceled)] else s.runs;
      var mid := Registry(s.counter, s.limit, runs, told);
      EvictionKeeps(mid, Evicted(mid));
    }
  }

  /** Nobody is left behind: once its done callback has run, a run has its last status, even if it was cancelled before
      its first turn and so never ran; and a run that is not finished still has a task that will finish it. */
  lemma EveryRunFinishes(limit: nat, steps: seq<Step>, id: RunId)
    requires RunOf(limit, steps).Some? && id in RunOf(limit, steps).value.runs
    ensures var s := RunOf(limit, steps).value;
            && id in s.tasks
            && (s.tasks[id].told && s.tasks[id].stage.Done? ==> Terminal(s.runs[id].status))
            && (!Terminal(s.runs[id].status) ==> IsActive(s.tasks, id) || !s.tasks[id].told)
  {
  }

  // ----- two runs

  function One(limit: nat, run: Run, task: Task): Registry {
    Registry(1, limit, map[1 := run], map[1 := task])
  }

  lemma OneIsKept(limit: nat, run: Run, task: Task)
    requires limit >= 1
    ensures Evicted(One(limit, run, task)) == One(limit, run, task)
  {
    assert One(limit, run, task).runs.Keys == {1};
  }

  lemma OneMoreStep(limit: nat, steps: seq<Step>, before: Registry, step: Step, after: Registry)
    requires RunOf(limit, steps) == Some(before) && Inv(before) && Enabled(before, step) && Next(before, step) == after
    ensures RunOf(limit, steps + [step]) == Some(after)
  {
    assert (steps + [step])[..|steps|] == steps;
    hide Next, Enabled;
  }

  lemma ARunStarts(limit: nat)
    requires limit >= 1
    ensures RunOf(limit, [Starts]) == Some(One(limit, Run(Queued, [Queued]), Task(Unstarted, false, false)))
  {
    var empty := Registry(0, limit, map[], map[]);
    OneIsKept(limit, Run(Queued, [Queued]), Task(Unstarted, false, false));
    hide Evicted;
    assert RunOf(limit, []) == Some(empty);
    OneMoreStep(limit, [], empty, Starts, One(limit, Run(Queued, [Queued]), Task(Unstarted, false, false)));
    assert [] + [Starts] == [Starts];
  }

  ghost predicate Leads(s: Registry, step: Step, t: Registry) {
    Inv(s) && Enabled(s, step) && Next(s, step) == t
  }

  lemma OneTakesTurns(limit: nat)
    ensures Leads(One(limit, Run(Queued, [Queued]), Task(Unstarted, false, false)), TakesFirstTurn(1),
                  One(limit, Run(Queued, [Queued]), Task(Waiting, false, false)))
    ensures Leads(One(limit, Run(Queued, [Queued]), Task(Waiting, false, false)), GoesAhead(1),
                  One(limit, Run(Running, [Queued, Running]), Task(Reading, false, false)))
  {
    assert [Queued] + [Running] == [Queued, Running];
  }

  lemma OneEnds(limit: nat)
    requires limit >= 1
    ensures Leads(One(limit, Run(Running, [Queued, Running]), Task(Reading, false, false)), Ends(1, Succeeded),
                  One(limit, Run(Succeeded, [Queued, Running, Succeeded]), Task(Done(false), false, false)))
  {
    OneIsKept(limit, Run(Succeeded, [Queued, Running, Succeeded]), Task(Reading, false, false));
    hide Evicted;
    assert [Queued, Running] + [Succeeded] == [Queued, Running, Succeeded];
  }

  lemma OneIsTold(limit: nat)
    requires limit >= 1
    ensures Leads(One(limit, Run(Succeeded, [Queued, Running, Succeeded]), Task(Done(false), false, false)), CallsBack(1, false),
                  One(limit, Run(Succeeded, [Queued, Running, Succeeded]), Task(Done(false), false, true)))
    ensures Leads(One(limit, Run(CancelRequested, [Queued, CancelRequested]), Task(Done(true), true, false)), CallsBack(1, true),
                  One(limit, Run(Canceled, [Queued, CancelRequested, Canceled]), Task(Done(true), true, true)))
  {
    OneIsKept(limit, Run(Succeeded, [Queued, Running, Succeeded]), Task(Done(false), false, true));
    OneIsKept(limit, Run(Canceled, [Queued, CancelRequested, Canceled]), Task(Done(true), true, true));
    hide Evicted;
    assert [Queued, CancelRequested] + [Canceled] == [Queued, CancelRequested, Canceled];
  }

  lemma OneIsAsked(limit: nat)
    ensures Leads(One(limit, Run(Queued, [Queued]), Task(Unstarted, false, false)), Cancels(1),
                  One(limit, Run(CancelRequested, [Queued, CancelRequested]), Task(Unstarted, true, false)))
    ensures Leads(One(limit, Run(CancelRequested, [Queued, CancelRequested]), Task(Unstarted, true, false)), TakesFirstTurn(1),
                  One(limit, Run(CancelRequested, [Queued, CancelRequested]), Task(Done(true), true, false)))
  {
    assert [Queued] + [CancelRequested] == [Queued, CancelRequested];
  }

  lemma FourSteps(a: Step, b: Step, c: Step, d: Step)
    ensures [a] + [b] + [c] + [d] == [a, b, c, d]
  {
  }

  /** A run that goes its way. */
  lemma ARunSucceeds(limit: nat)
    requires limit >= 1
    ensures RunOf(limit, [Starts, TakesFirstTurn(1), GoesAhead(1), Ends(1, Succeeded)] + [CallsBack(1, false)])
            == Some(One(limit, Run(Succeeded, [Queued, Running, Succeeded]), Task(Done(false), false, true)))
  {
    var first := One(limit, Run(Queued, [Queued]), Task(Unstarted, false, false));
    var waits := One(limit, Run(Queued, [Queued]), Task(Waiting, false, false));
    var running := One(limit, Run(Running, [Queued, Running]), Task(Reading, false, false));
    var ended := One(limit, Run(Succeeded, [Queued, Running, Succeeded]), Task(Done(false), false, false));
    var told := One(limit, Run(Succeeded, [Queued, Running, Succeeded]), Task(Done(false), false, true));
    ARunStarts(limit);
    OneTakesTurns(limit);
    OneEnds(limit);
    OneIsTold(limit);
    hide *;
    OneMoreLeads(limit, [Starts], first, TakesFirstTurn(1), waits);
    OneMoreLeads(limit, [Starts] + [TakesFirstTurn(1)], waits, GoesAhead(1), running);
    OneMoreLeads(limit, [Starts] + [TakesFirstTurn(1)] + [GoesAhead(1)], running, Ends(1, Succeeded), ended);
    FourSteps(Starts, TakesFirstTurn(1), GoesAhead(1), Ends(1, Succeeded));
    OneMoreLeads(limit, [Starts, TakesFirstTurn(1), GoesAhead(1), Ends(1, Succeeded)], ended, CallsBack(1, false), told);
  }

  /** A run that is cancelled before its first turn. */
  lemma ARunIsCancelledEarly(limit: nat)
    requires limit >= 1
    ensures RunOf(limit, [Starts, Cancels(1), TakesFirstTurn(1), CallsBack(1, true)])
            == Some(One(limit, Run(Canceled, [Queued, CancelRequested, Canceled]), Task(Done(true), true, true)))
  {
    var first := One(limit, Run(Queued, [Queued]), Task(Unstarted, false, false));
    var asked := One(limit, Run(CancelRequested, [Queued, CancelRequested]), Task(Unstarted, true, false));
    var done := One(limit, Run(CancelRequested, [Queued, CancelRequested]), Task(Done(true), true, false));
    var canceled := One(limit, Run(Canceled, [Queued, CancelRequested, Canceled]), Task(Done(true), true, true));
    ARunStarts(limit);
    OneIsAsked(limit);
    OneIsTold(limit);
    hide *;
    OneMoreLeads(limit, [Starts], first, Cancels(1), asked);
    OneMoreLeads(limit, [Starts] + [Cancels(1)], asked, TakesFirstTurn(1), done);
    OneMoreLeads(limit, [Starts] + [Cancels(1)] + [TakesFirstTurn(1)], done, CallsBack(1, true), canceled);
    FourSteps(Starts, Cancels(1), TakesFirstTurn(1), CallsBack(1, true));
  }

  lemma OneMoreLeads(limit: nat, steps: seq<Step>, before: Registry, step: Step, after: Registry)
    requires RunOf(limit, steps) == Some(before) && Leads(before, step, after)
    ensures RunOf(limit, steps + [step]) == Some(after)
  {
    OneMoreStep(limit, steps, before, step, after);
  }
}
