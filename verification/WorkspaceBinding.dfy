/** Ownership of the dedicated browser window, kept in local storage across restarts of the extension worker
    (browser-cli-extension/src/background/workspace_binding.js:33-119). Each piece of code between two awaits is one
    step; the worker may die before any of them. */
module WorkspaceBinding {
  import opened Options

  type TabId = nat

  /** A live debugger identity. Chrome reuses tab numbers, not these. */
  type Target = nat

  datatype Memory = Memory(window: Option<int>, managed: seq<TabId>, pages: map<TabId, string>)

  datatype SavedTab = SavedTab(tab: TabId, page: Option<string>)

  /** An entry of a stored binding; one without a usable tab number or target has no target. */
  datatype OwnedTab = OwnedTab(tab: TabId, target: Option<Target>, page: Option<string>)

  /** What local storage holds: nothing, something of another version or shape, or a binding. */
  datatype Stored = Nothing | Foreign | Binding(window: int, tabs: seq<OwnedTab>)

  /** A mutation in the queue: a snapshot of memory to be saved, or the outcome of a restore to be committed. */
  datatype Write = SaveOf(window: Option<int>, tabs: seq<SavedTab>) | Commit(value: Stored)

  datatype Restore = Idle | Reading | Querying(window: int, tabs: seq<OwnedTab>)
    | Matching(window: int, tabs: seq<OwnedTab>, live: set<TabId>) | Committing | Committed(value: Stored)

  /** The worker's memory; `ready` holds the targets that the write at the head of the queue has read. */
  datatype Worker = Worker(memory: Memory, restored: bool, restoring: Restore, queue: seq<Write>,
                           ready: Option<map<TabId, Target>>)

  const NO_MEMORY := Memory(None, [], map[])
  const FRESH := Worker(NO_MEMORY, false, Idle, [], None)

  function PageOf(m: Memory, tab: TabId): Option<string> {
    if tab in m.pages && m.pages[tab] != "" then Some(m.pages[tab]) else None
  }

  function SavedTabs(m: Memory, tabs: seq<TabId>): (r: seq<SavedTab>)
    ensures |r| == |tabs|
    ensures forall i :: 0 <= i < |tabs| ==> r[i] == SavedTab(tabs[i], PageOf(m, tabs[i]))
  {
    if tabs == [] then [] else SavedTabs(m, tabs[..|tabs| - 1]) + [SavedTab(tabs[|tabs| - 1], PageOf(m, tabs[|tabs| - 1]))]
  }

  /** The saved tabs that still have a live target, each with it. */
  function Restricted(tabs: seq<SavedTab>, targets: map<TabId, Target>): seq<OwnedTab> {
    if tabs == [] then []
    else
      var last := tabs[|tabs| - 1];
      Restricted(tabs[..|tabs| - 1], targets)
      + if last.tab in targets then [OwnedTab(last.tab, Some(targets[last.tab]), last.page)] else []
  }

  predicate NeedsTargets(write: Write) {
    write.SaveOf? && write.window.Some?
  }

  /** What a write stores, once it has read the live targets. */
  function ValueOf(write: Write, targets: map<TabId, Target>): Stored {
    match write
    case SaveOf(None, _) => Nothing
    case SaveOf(Some(window), tabs) => Binding(window, Restricted(tabs, targets))
    case Commit(value) => value
  }

  predicate StillOwned(entry: OwnedTab, live: set<TabId>, targets: map<TabId, Target>) {
    entry.tab in live && entry.target.Some? && entry.tab in targets && targets[entry.tab] == entry.target.value
  }

  function Owned(tabs: seq<OwnedTab>, live: set<TabId>, targets: map<TabId, Target>): seq<OwnedTab> {
    if tabs == [] then []
    else
      var last := tabs[|tabs| - 1];
      Owned(tabs[..|tabs| - 1], live, targets) + if StillOwned(last, live, targets) then [last] else []
  }

  /** The numbers of the tabs, each once, in the order of their first entries. */
  function Managed(tabs: seq<OwnedTab>): seq<TabId> {
    if tabs == [] then []
    else
      var before := Managed(tabs[..|tabs| - 1]);
      if tabs[|tabs| - 1].tab in before then before else before + [tabs[|tabs| - 1].tab]
  }

  function Pages(tabs: seq<OwnedTab>): map<TabId, string> {
    if tabs == [] then map[]
    else
      var before, last := Pages(tabs[..|tabs| - 1]), tabs[|tabs| - 1];
      if last.page.Some? && last.page.value != "" then before[last.tab := last.page.value] else before
  }

  /** The memory a restore exposes. */
  function Exposed(m: Memory, value: Stored): Memory {
    if value.Binding? && value.tabs != [] then Memory(Some(value.window), Managed(value.tabs), Pages(value.tabs)) else m
  }

  function AfterSave(w: Worker): Worker {
    Worker(w.memory, w.restored, w.restoring, w.queue + [SaveOf(w.memory.window, SavedTabs(w.memory, w.memory.managed))], w.ready)
  }

  function AfterRestoreCall(w: Worker): Worker {
    if w.restored || w.restoring != Idle then w else Worker(w.memory, false, Reading, w.queue, w.ready)
  }

  predicate Usable(stored: Stored) {
    stored.Binding? && stored.window >= 0
  }

  function AfterRead(w: Worker, stored: Stored): Worker {
    if Usable(stored) then Worker(w.memory, w.restored, Querying(stored.window, stored.tabs), w.queue, w.ready)
    else Worker(w.memory, true, Idle, w.queue, w.ready)
  }

  /** The tabs of the saved window, or that it is gone, or a failure of the browser's. */
  datatype Query = Tabs(live: set<TabId>) | NoWindow | Failure

  function AfterQuery(w: Worker, query: Query): Worker
    requires w.restoring.Querying?
  {
    match query
    case Tabs(live) => Worker(w.memory, w.restored, Matching(w.restoring.window, w.restoring.tabs, live), w.queue, w.ready)
    case NoWindow => Worker(w.memory, w.restored, Committing, w.queue + [Commit(Nothing)], w.ready)
    case Failure => Worker(w.memory, w.restored, Idle, w.queue, w.ready)
  }

  function AfterMatch(w: Worker, targets: Option<map<TabId, Target>>): Worker
    requires w.restoring.Matching?
  {
    match targets
    case None => Worker(w.memory, w.restored, Idle, w.queue, w.ready)
    case Some(found) =>
      var owned := Owned(w.restoring.tabs, w.restoring.live, found);
      Worker(w.memory, w.restored, Committing,
             w.queue + [Commit(if owned == [] then Nothing else Binding(w.restoring.window, owned))], w.ready)
  }

  /** The write at the head reads the live targets if it needs them; failing that, it is dropped. */
  function AfterPrepare(w: Worker, targets: Option<map<TabId, Target>>): Worker
    requires w.queue != []
  {
    if !NeedsTargets(w.queue[0]) then Worker(w.memory, w.restored, w.restoring, w.queue, Some(map[]))
    else if targets.Some? then Worker(w.memory, w.restored, w.restoring, w.queue, targets)
    else Worker(w.memory, w.restored, w.restoring, w.queue[1..], None)
  }

  /** The write at the head is over, stored or not; a restore that waits for it goes on or gives up. */
  function AfterWrite(w: Worker, stored: bool): Worker
    requires w.queue != [] && w.ready.Some?
  {
    var restoring := if w.queue[0].SaveOf? then w.restoring else if stored then Committed(w.queue[0].value) else Idle;
    Worker(w.memory, w.restored, restoring, w.queue[1..], None)
  }

  function AfterExpose(w: Worker): Worker
    requires w.restoring.Committed?
  {
    Worker(Exposed(w.memory, w.restoring.value), true, Idle, w.queue, w.ready)
  }

  class BindingStore {
    var window: Option<int>
    var managed: seq<TabId>
    var pages: map<TabId, string>
    var restored: bool
    var restoring: Restore
    var writing: seq<Write>
    var ready: Option<map<TabId, Target>>

    ghost function State(): Worker
      reads this
    {
      Worker(Memory(window, managed, pages), restored, restoring, writing, ready)
    }

    constructor ()
      ensures State() == FRESH
    {
      window, managed, pages := None, [], map[];
      restored, restoring, writing, ready := false, Idle, [], None;
    }

    method EnqueueWrite(write: Write)
      modifies this`writing
      ensures writing == old(writing) + [write]
    {
      writing := writing + [write];
    }

    method Save()
      modifies this
      ensures State() == AfterSave(old(State()))
    {
      EnqueueWrite(SaveOf(window, SavedTabs(Memory(window, managed, pages), managed)));
    }

    method CallRestore()
      modifies this
      ensures State() == AfterRestoreCall(old(State()))
    {
      if !restored && restoring == Idle {
        restoring := Reading;
      }
    }

    method ReadStored(stored: Stored)
      requires restoring == Reading
      modifies this
      ensures State() == AfterRead(old(State()), stored)
    {
      if !stored.Binding? || stored.window < 0 {
        restored, restoring := true, Idle;
        return;
      }
      restoring := Querying(stored.window, stored.tabs);
    }

    method QueryTabs(query: Query)
      requires restoring.Querying?
      modifies this
      ensures State() == AfterQuery(old(State()), query)
    {
      match query
      case Failure => restoring := Idle;
      case NoWindow =>
        EnqueueWrite(Commit(Nothing));
        restoring := Committing;
      case Tabs(live) => restoring := Matching(restoring.window, restoring.tabs, live);
    }

    method MatchTargets(targets: Option<map<TabId, Target>>)
      requires restoring.Matching?
      modifies this
      ensures State() == AfterMatch(old(State()), targets)
    {
      if targets == None {
        restoring := Idle;
        return;
      }
      var owned := Owned(restoring.tabs, restoring.live, targets.value);
      EnqueueWrite(Commit(if owned != [] then Binding(restoring.window, owned) else Nothing));
      restoring := Committing;
    }

    method Expose()
      requires restoring.Committed?
      modifies this
      ensures State() == AfterExpose(old(State()))
    {
      var value := restoring.value;
      if value.Binding? && value.tabs != [] {
        window, managed, pages := Some(value.window), Managed(value.tabs), Pages(value.tabs);
      }
      restored, restoring := true, Idle;
    }

    method Prepare(targets: Option<map<TabId, Target>>)
      requires writing != [] && ready == None
      modifies this
      ensures State() == AfterPrepare(old(State()), targets)
    {
      if !(writing[0].SaveOf? && writing[0].window.Some?) {
        ready := Some(map[]);
      } else if targets.Some? {
        ready := targets;
      } else {
        writing := writing[1..];
      }
    }

    method FinishWrite(stored: bool)
      requires writing != [] && ready.Some?
      modifies this
      ensures State() == AfterWrite(old(State()), stored)
    {
      var write := writing[0];
      writing, ready := writing[1..], None;
      if write.Commit? {
        restoring := if stored then Committed(write.value) else Idle;
      }
    }
  }

  // ----- runs, across deaths of the worker

  /** How a write ended: stored, with the targets it had read, or not. */
  datatype End = Landed(targets: map<TabId, Target>) | Failed

  /** Where a tab was saved as owned: its window, its number and its live target. */
  datatype Record = Record(window: int, tab: TabId, target: Target)

  /** Local storage and the worker, with the writes called and ended in this life of the worker, what storage held when
      this life began, every ownership that a save has ever read targets for, and those that the last restore of this life
      to get that far has found alive in its window. */
  datatype World = World(worker: Worker, storage: Stored, calls: seq<Write>, ends: seq<End>, first: Stored,
                         records: set<Record>, verified: set<Record>)

  datatype Step =
      Saves
    | CallsRestore
    | Reads
    | Queries(query: Query)
    | Matches(targets: Option<map<TabId, Target>>)
    | Exposes
    | Prepares(targets: Option<map<TabId, Target>>)
    | Finishes(stored: bool)
    | Changes(memory: Memory)
    | Dies(landing: bool)

  ghost predicate Enabled(w: World, step: Step) {
    match step
    case Reads => w.worker.restoring == Reading
    case Queries(_) => w.worker.restoring.Querying?
    case Matches(_) => w.worker.restoring.Matching?
    case Exposes => w.worker.restoring.Committed?
    case Prepares(_) => w.worker.queue != [] && w.worker.ready == None
    case Finishes(_) => w.worker.queue != [] && w.worker.ready.Some?
    case _ => true
  }

  ghost function RecordsOf(value: Stored): set<Record> {
    if value.Binding? then set e | e in value.tabs && e.target.Some? :: Record(value.window, e.tab, e.target.value) else {}
  }

  ghost function Alive(window: int, live: set<TabId>, targets: map<TabId, Target>): set<Record> {
    set tab | tab in live && tab in targets :: Record(window, tab, targets[tab])
  }

  ghost function Next(w: World, step: Step): World
    requires Enabled(w, step)
  {
    var k := w.worker;
    match step
    case Saves => var next := AfterSave(k);
      World(next, w.storage, w.calls + next.queue[|k.queue|..], w.ends, w.first, w.records, w.verified)
    case CallsRestore => World(AfterRestoreCall(k), w.storage, w.calls, w.ends, w.first, w.records, w.verified)
    case Reads => World(AfterRead(k, w.storage), w.storage, w.calls, w.ends, w.first, w.records, w.verified)
    case Queries(query) => var next := AfterQuery(k, query);
      World(next, w.storage, w.calls + next.queue[|k.queue|..], w.ends, w.first, w.records, w.verified)
    case Matches(targets) => var next := AfterMatch(k, targets);
      World(next, w.storage, w.calls + next.queue[|k.queue|..], w.ends, w.first, w.records,
            if targets.Some? then Alive(k.restoring.window, k.restoring.live, targets.value) else {})
    case Exposes => World(AfterExpose(k), w.storage, w.calls, w.ends, w.first, w.records, w.verified)
    case Prepares(targets) => var next := AfterPrepare(k, targets);
      World(next, w.storage, w.calls, if next.ready.Some? then w.ends else w.ends + [Failed], w.first,
            w.records + (if k.queue[0].SaveOf? && next.ready.Some? then RecordsOf(ValueOf(k.queue[0], next.ready.value)) else {}),
            w.verified)
    case Finishes(stored) =>
      World(AfterWrite(k, stored), if stored then ValueOf(k.queue[0], k.ready.value) else w.storage, w.calls,
            w.ends + [if stored then Landed(k.ready.value) else Failed], w.first, w.records, w.verified)
    case Changes(memory) =>
      World(Worker(memory, k.restored, k.restoring, k.queue, k.ready), w.storage, w.calls, w.ends, w.first, w.records, w.verified)
    case Dies(landing) =>
      var left := if landing && k.queue != [] && k.ready.Some? then ValueOf(k.queue[0], k.ready.value) else w.storage;
      World(FRESH, left, [], [], left, w.records, {})
  }

  /** Writes end in the order of their calls, and storage holds what the last one to succeed stored. */
  ghost function Result(calls: seq<Write>, ends: seq<End>, first: Stored): Stored
    requires |ends| <= |calls|
    decreases |ends|
  {
    if ends == [] then first
    else
      var last := |ends| - 1;
      if ends[last].Landed? then ValueOf(calls[last], ends[last].targets) else Result(calls, ends[..last], first)
  }

  ghost predicate InOrder(w: World) {
    && |w.ends| <= |w.calls| && w.worker.queue == w.calls[|w.ends|..]
    && (w.worker.ready.Some? ==> w.worker.queue != [])
    && w.storage == Result(w.calls, w.ends, w.first)
  }

  lemma {:induction false} LaterCallsDoNotMatter(calls: seq<Write>, more: seq<Write>, ends: seq<End>, first: Stored)
    requires |ends| <= |calls|
    ensures Result(calls + more, ends, first) == Result(calls, ends, first)
    decreases |ends|
  {
    if ends != [] {
      LaterCallsDoNotMatter(calls, more, ends[..|ends| - 1], first);
    }
  }

  lemma NothingEnded(first: Stored)
    ensures Result([], [], first) == first
  {
  }

  lemma CallKeepsOrder(w: World, next: World)
    requires InOrder(w) && w.worker.queue <= next.worker.queue && next.worker.ready == w.worker.ready
    requires next.calls == w.calls + next.worker.queue[|w.worker.queue|..]
    requires next.ends == w.ends && next.storage == w.storage && next.first == w.first
    ensures InOrder(next)
  {
    var more := next.worker.queue[|w.worker.queue|..];
    LaterCallsDoNotMatter(w.calls, more, w.ends, w.first);
    assert next.calls[|w.ends|..] == w.calls[|w.ends|..] + more;
  }

  lemma EndKeepsOrder(w: World, next: World, end: End)
    requires InOrder(w) && w.worker.queue != [] && next.worker.queue == w.worker.queue[1..] && next.worker.ready == None
    requires next.calls == w.calls && next.ends == w.ends + [end] && next.first == w.first
    requires next.storage == if end.Landed? then ValueOf(w.worker.queue[0], end.targets) else w.storage
    ensures InOrder(next)
  {
    assert next.ends[..|w.ends|] == w.ends;
    assert w.worker.queue[0] == w.calls[|w.ends|];
    assert next.calls[|next.ends|..] == w.calls[|w.ends|..][1..];
  }

  lemma StepKeepsOrder(w: World, step: Step)
    requires InOrder(w) && Enabled(w, step)
    ensures InOrder(Next(w, step))
  {
    hide Result, ValueOf, RecordsOf, Alive, SavedTabs, Owned, Restricted;
    var next := Next(w, step);
    match step
    case Saves => CallKeepsOrder(w, next);
    case Queries(_) => CallKeepsOrder(w, next);
    case Matches(_) => CallKeepsOrder(w, next);
    case Prepares(targets) =>
      if next.worker.ready == None {
        EndKeepsOrder(w, next, Failed);
      }
    case Finishes(stored) => EndKeepsOrder(w, next, if stored then Landed(w.worker.ready.value) else Failed);
    case Dies(_) => NothingEnded(next.first);
    case CallsRestore =>
    case Reads =>
    case Exposes =>
    case Changes(_) =>
  }

  // ----- provenance

  ghost predicate Known(value: Stored, records: set<Record>) {
    RecordsOf(value) <= records
  }

  /** A value that a restore commits was found alive in its window, entry by entry. */
  ghost predicate Proven(value: Stored, records: set<Record>, verified: set<Record>) {
    && value != Foreign
    && (value.Binding? ==>
          forall i :: 0 <= i < |value.tabs| ==>
            && value.tabs[i].target.Some?
            && Record(value.window, value.tabs[i].tab, value.tabs[i].target.value) in records * verified)
  }

  /** Only a restore that waits for it has a value to be committed in the queue, and it has one. */
  ghost predicate OneCommit(worker: Worker) {
    && (forall i :: 0 <= i < |worker.queue| && worker.queue[i].Commit? ==> worker.restoring == Committing)
    && (forall i, j :: 0 <= i < j < |worker.queue| && worker.queue[i].Commit? ==> worker.queue[j].SaveOf?)
  }

  ghost predicate Traced(w: World) {
    && Known(w.storage, w.records)
    && OneCommit(w.worker)
    && (forall i :: 0 <= i < |w.worker.queue| && w.worker.queue[i].Commit? ==> Proven(w.worker.queue[i].value, w.records, w.verified))
    && (w.worker.ready.Some? ==> w.worker.queue != [])
    && (w.worker.ready.Some? && w.worker.queue[0].SaveOf? ==>
          Known(ValueOf(w.worker.queue[0], w.worker.ready.value), w.records))
    && (w.worker.restoring.Querying? || w.worker.restoring.Matching? ==>
          Known(Binding(w.worker.restoring.window, w.worker.restoring.tabs), w.records))
    && (w.worker.restoring.Committed? ==> Proven(w.worker.restoring.value, w.records, w.verified))
  }

  lemma {:induction false} OwnedEntries(tabs: seq<OwnedTab>, live: set<TabId>, targets: map<TabId, Target>)
    ensures forall e :: e in Owned(tabs, live, targets) <==> e in tabs && StillOwned(e, live, targets)
  {
    if tabs != [] {
      var before, last := tabs[..|tabs| - 1], tabs[|tabs| - 1];
      OwnedEntries(before, live, targets);
      assert tabs == before + [last];
    }
  }

  lemma MatchIsProven(window: int, tabs: seq<OwnedTab>, live: set<TabId>, targets: map<TabId, Target>, records: set<Record>)
    requires Known(Binding(window, tabs), records)
    ensures Proven(Binding(window, Owned(tabs, live, targets)), records, Alive(window, live, targets))
  {
    OwnedEntries(tabs, live, targets);
    var owned := Owned(tabs, live, targets);
    forall i | 0 <= i < |owned|
      ensures owned[i].target.Some?
      ensures Record(window, owned[i].tab, owned[i].target.value) in records * Alive(window, live, targets)
    {
      assert owned[i] in owned;
      assert Record(window, owned[i].tab, owned[i].target.value) in RecordsOf(Binding(window, tabs));
    }
  }

  /** Before it is exposed or committed, whatever a restore works on comes from storage, and storage from saves. */
  lemma StepKeepsTrace(w: World, step: Step)
    requires Traced(w) && Enabled(w, step)
    ensures Traced(Next(w, step))
  {
    match step
    case Matches(targets) => MatchKeepsTrace(w, targets);
    case Queries(query) => QueryKeepsTrace(w, query);
    case Saves =>
    case Prepares(targets) => PrepareKeepsTrace(w, targets);
    case Finishes(stored) => FinishKeepsTrace(w, stored);
    case Dies(landing) =>
      if landing && w.worker.queue != [] && w.worker.ready.Some? {
        HeadIsKnown(w);
      }
    case CallsRestore =>
    case Reads =>
    case Exposes =>
    case Changes(_) =>
  }

  lemma HeadIsKnown(w: World)
    requires Traced(w) && w.worker.queue != [] && w.worker.ready.Some?
    ensures Known(ValueOf(w.worker.queue[0], w.worker.ready.value), w.records)
  {
  }

  lemma MatchKeepsTrace(w: World, targets: Option<map<TabId, Target>>)
    requires Traced(w) && w.worker.restoring.Matching?
    ensures Traced(Next(w, Matches(targets)))
  {
    if targets.Some? {
      var restoring := w.worker.restoring;
      MatchIsProven(restoring.window, restoring.tabs, restoring.live, targets.value, w.records);
      NothingIsProven(w.records, Alive(restoring.window, restoring.live, targets.value));
      hide Owned, Alive, RecordsOf, ValueOf, Proven, Known;
    }
  }

  lemma NothingIsProven(records: set<Record>, verified: set<Record>)
    ensures Proven(Nothing, records, verified)
  {
  }

  lemma QueryKeepsTrace(w: World, query: Query)
    requires Traced(w) && w.worker.restoring.Querying?
    ensures Traced(Next(w, Queries(query)))
  {
    NothingIsProven(w.records, w.verified);
    hide RecordsOf, ValueOf, Known, Proven;
  }

  lemma PrepareKeepsTrace(w: World, targets: Option<map<TabId, Target>>)
    requires Traced(w) && w.worker.queue != [] && w.worker.ready == None
    ensures Traced(Next(w, Prepares(targets)))
  {
    hide RecordsOf, ValueOf, Traced;
    if NeedsTargets(w.worker.queue[0]) && targets == None {
      DropKeepsTrace(w);
    } else {
      var read := if NeedsTargets(w.worker.queue[0]) then targets.value else map[];
      ReadingKeepsTrace(w, read);
    }
  }

  lemma DropKeepsTrace(w: World)
    requires Traced(w) && w.worker.queue != [] && w.worker.ready == None && NeedsTargets(w.worker.queue[0])
    ensures Traced(Next(w, Prepares(None)))
  {
    hide RecordsOf, ValueOf, Proven, Known;
    var next := Next(w, Prepares(None));
    assert next.records == w.records;
  }

  lemma ReadingKeepsTrace(w: World, targets: map<TabId, Target>)
    requires Traced(w) && w.worker.queue != [] && w.worker.ready == None
    ensures var k, write := w.worker, w.worker.queue[0];
            var read := if write.SaveOf? then RecordsOf(ValueOf(write, targets)) else {};
            Traced(World(Worker(k.memory, k.restored, k.restoring, k.queue, Some(targets)), w.storage, w.calls, w.ends, w.first,
                         w.records + read, w.verified))
  {
    var write := w.worker.queue[0];
    var read := if write.SaveOf? then RecordsOf(ValueOf(write, targets)) else {};
    hide RecordsOf, ValueOf, Proven;
    assert w.records <= w.records + read;
  }

  lemma FinishKeepsTrace(w: World, stored: bool)
    requires Traced(w) && w.worker.queue != [] && w.worker.ready.Some?
    ensures Traced(Next(w, Finishes(stored)))
  {
    HeadIsKnown(w);
    hide RecordsOf, ValueOf, Proven, Known;
  }

  // ----- theorems

  ghost function RunFrom(w: World, steps: seq<Step>): Option<World>
    decreases |steps|
  {
    if steps == [] then Some(w)
    else
      var before := RunFrom(w, steps[..|steps| - 1]);
      var step := steps[|steps| - 1];
      if before.Some? && Enabled(before.value, step) then Some(Next(before.value, step)) else None
  }

  /** A run that begins with a fresh worker and with whatever storage holds. */
  ghost function Run(storage: Stored, steps: seq<Step>): Option<World> {
    RunFrom(World(FRESH, storage, [], [], storage, RecordsOf(storage), {}), steps)
  }

  lemma {:induction false} RunKeepsOrder(w: World, steps: seq<Step>)
    requires InOrder(w) && RunFrom(w, steps).Some?
    ensures InOrder(RunFrom(w, steps).value)
    decreases |steps|
  {
    if steps != [] {
      RunKeepsOrder(w, steps[..|steps| - 1]);
      StepKeepsOrder(RunFrom(w, steps[..|steps| - 1]).value, steps[|steps| - 1]);
    }
    hide InOrder;
  }

  lemma {:induction false} RunKeepsTrace(w: World, steps: seq<Step>)
    requires Traced(w) && RunFrom(w, steps).Some?
    ensures Traced(RunFrom(w, steps).value)
    decreases |steps|
  {
    if steps != [] {
      RunKeepsTrace(w, steps[..|steps| - 1]);
      StepKeepsTrace(RunFrom(w, steps[..|steps| - 1]).value, steps[|steps| - 1]);
    }
    hide Traced;
  }

  /** Whenever and however often the worker dies: the writes of its present life end in the order of their calls, storage
      holds what the last of them to succeed was called to store, and ownership is never made up. */
  lemma EveryRunIsOrderedAndTraced(storage: Stored, steps: seq<Step>)
    requires Run(storage, steps).Some?
    ensures InOrder(Run(storage, steps).value) && Traced(Run(storage, steps).value)
  {
    var first := World(FRESH, storage, [], [], storage, RecordsOf(storage), {});
    NothingEnded(storage);
    RunKeepsOrder(first, steps);
    RunKeepsTrace(first, steps);
    hide RunFrom, Result;
  }

  lemma {:induction false} RunSplits(w: World, first: seq<Step>, rest: seq<Step>)
    ensures RunFrom(w, first + rest)
            == if RunFrom(w, first).Some? then RunFrom(RunFrom(w, first).value, rest) else None
    decreases |rest|
  {
    if rest == [] {
      assert first + rest == first;
    } else {
      var all := first + rest;
      assert all[..|all| - 1] == first + rest[..|rest| - 1] && all[|all| - 1] == rest[|rest| - 1];
      RunSplits(w, first, rest[..|rest| - 1]);
    }
    hide Next, Enabled;
  }

  lemma {:induction false} CallsGrow(w: World, steps: seq<Step>)
    requires RunFrom(w, steps).Some? && forall i :: 0 <= i < |steps| ==> !steps[i].Dies?
    ensures w.calls <= RunFrom(w, steps).value.calls
    decreases |steps|
  {
    if steps != [] {
      CallsGrow(w, steps[..|steps| - 1]);
    }
    hide AfterSave, AfterRead, AfterQuery, AfterMatch, AfterPrepare, AfterWrite, AfterExpose, RecordsOf, ValueOf, Alive;
  }

  /** Until the next write reads targets, at most the present one ends, with the targets it has read. */
  ghost predicate OneEnds(w: World, v: World) {
    && w.worker.ready.Some? && v.calls == w.calls
    && ((v.worker.ready == w.worker.ready && v.ends == w.ends)
        || (v.worker.ready == None && |v.ends| == |w.ends| + 1
            && (v.ends[|w.ends|].Landed? ==> Some(v.ends[|w.ends|].targets) == w.worker.ready)))
  }

  lemma {:induction false} OneWriteEnds(w: World, steps: seq<Step>)
    requires RunFrom(w, steps).Some? && w.worker.ready.Some? && RunFrom(w, steps).value.calls == w.calls
    requires forall i :: 0 <= i < |steps| ==> !steps[i].Dies? && !steps[i].Prepares?
    ensures OneEnds(w, RunFrom(w, steps).value)
    decreases |steps|
  {
    if steps != [] {
      var before := steps[..|steps| - 1];
      CallsGrow(w, before);
      assert steps == before + [steps[|steps| - 1]];
      assert RunFrom(RunFrom(w, before).value, []) == Some(RunFrom(w, before).value);
      CallsGrow(RunFrom(w, before).value, [steps[|steps| - 1]]);
      OneWriteEnds(w, before);
    }
    hide RecordsOf, ValueOf, Alive, SavedTabs, Owned;
  }

  /** What a save, called now, means to store: each managed tab that has a live target then, in order, with that target and
      its page. */
  lemma {:induction false} RestrictedIsEntries(m: Memory, tabs: seq<TabId>, targets: map<TabId, Target>)
    ensures forall tab :: tab in Filtered(tabs, targets.Keys) ==> tab in targets
    ensures Restricted(SavedTabs(m, tabs), targets) == Entries(m, Filtered(tabs, targets.Keys), targets)
  {
    FilteredTabs(tabs, targets.Keys);
    if tabs != [] {
      var before, last := tabs[..|tabs| - 1], tabs[|tabs| - 1];
      RestrictedIsEntries(m, before, targets);
      assert SavedTabs(m, tabs)[..|before|] == SavedTabs(m, before);
    }
  }

  lemma TheLastIsStored(read: World, targets: map<TabId, Target>, prepared: World, v: World)
    requires InOrder(read) && InOrder(v) && Enabled(read, Prepares(Some(targets)))
    requires prepared == Next(read, Prepares(Some(targets))) && read.calls == v.calls && OneEnds(prepared, v)
    requires v.worker.queue == [] && v.calls != []
    requires |v.ends| > 0 && v.ends[|v.ends| - 1].Landed?
    ensures var write := v.calls[|v.calls| - 1]; v.storage == ValueOf(write, if NeedsTargets(write) then targets else map[])
  {
    hide RecordsOf, ValueOf;
    assert |v.calls[|v.ends|..]| == 0;
    assert prepared.ends == read.ends && |v.ends| == |read.ends| + 1;
    assert read.worker.queue[0] == read.calls[|read.ends|];
  }

  /** Once the queue has drained, storage is what was owned when the last save was called: whatever else has happened
      meanwhile, changes of memory included, it names the window of that moment and exactly the tabs managed then that had a
      live target when the write read them, in order, each with its target and its page; or nothing if there was no window. */
  lemma DrainedStorageIsTheLastSave(w: World, before: seq<Step>, targets: map<TabId, Target>, after: seq<Step>)
    requires InOrder(w) && forall i :: 0 <= i < |before| ==> !before[i].Dies?
    requires forall i :: 0 <= i < |after| ==> !after[i].Dies? && !after[i].Prepares?
    requires RunFrom(w, [Saves] + before + [Prepares(Some(targets))] + after).Some?
    requires var v := RunFrom(w, [Saves] + before + [Prepares(Some(targets))] + after).value;
             v.worker.queue == [] && |v.calls| == |w.calls| + 1 && |v.ends| > 0 && v.ends[|v.ends| - 1].Landed?
    ensures var v, m := RunFrom(w, [Saves] + before + [Prepares(Some(targets))] + after).value, w.worker.memory;
            var alive := Filtered(m.managed, targets.Keys);
            && (forall tab :: tab in alive <==> tab in m.managed && tab in targets)
            && v.storage == (if m.window.Some? then Binding(m.window.value, Entries(m, alive, targets)) else Nothing)
            && forall i :: 0 <= i < |alive| ==>
                             var tab := alive[i];
                             Entries(m, alive, targets)[i]
                             == OwnedTab(tab, Some(targets[tab]),
                                         if tab in m.pages && m.pages[tab] != "" then Some(m.pages[tab]) else None)
  {
    var first := [Saves] + before;
    var second := first + [Prepares(Some(targets))];
    hide RunFrom, Next, Enabled, InOrder, OneEnds, Entries, Filtered;
    RunSplits(w, second, after);
    RunSplits(w, first, [Prepares(Some(targets))]);
    RunSplits(w, [Saves], before);
    SaveIsCalled(w);
    OneStep(w, Saves);
    var saved, read, prepared := Next(w, Saves), RunFrom(w, first).value, RunFrom(w, second).value;
    OneStep(read, Prepares(Some(targets)));
    var v, m := RunFrom(prepared, after).value, w.worker.memory;
    CallsGrow(saved, before);
    CallsGrow(read, [Prepares(Some(targets))]);
    CallsGrow(prepared, after);
    assert read.calls == v.calls;
    RunKeepsOrder(w, first);
    RunKeepsOrder(w, second + after);
    ReadyToWrite(read, Some(targets));
    OneWriteEnds(prepared, after);
    TheLastIsStored(read, targets, prepared, v);
    RestrictedIsEntries(m, m.managed, targets);
    FilteredTabs(m.managed, targets.Keys);
    EntriesShowPages(m, Filtered(m.managed, targets.Keys), targets);
  }

  lemma EntriesShowPages(m: Memory, tabs: seq<TabId>, saved: map<TabId, Target>)
    requires forall tab :: tab in tabs ==> tab in saved
    ensures |Entries(m, tabs, saved)| == |tabs|
    ensures forall i :: 0 <= i < |tabs| ==>
                          var tab := tabs[i];
                          Entries(m, tabs, saved)[i]
                          == OwnedTab(tab, Some(saved[tab]), if tab in m.pages && m.pages[tab] != "" then Some(m.pages[tab]) else None)
  {
  }

  lemma OneStep(w: World, step: Step)
    ensures RunFrom(w, [step]) == if Enabled(w, step) then Some(Next(w, step)) else None
  {
    assert RunFrom(w, []) == Some(w);
  }

  lemma SaveIsCalled(w: World)
    ensures Enabled(w, Saves)
    ensures Next(w, Saves).calls == w.calls + [SaveOf(w.worker.memory.window, SavedTabs(w.worker.memory, w.worker.memory.managed))]
  {
  }

  lemma ReadyToWrite(w: World, targets: Option<map<TabId, Target>>)
    requires Enabled(w, Prepares(targets)) && targets.Some?
    ensures Next(w, Prepares(targets)).worker.ready.Some?
  {
  }

  predicate Mentions(value: Stored, tab: TabId) {
    value.Binding? && exists i :: 0 <= i < |value.tabs| && value.tabs[i].tab == tab
  }

  predicate Asks(write: Write, tab: TabId) {
    match write
    case SaveOf(_, tabs) => exists i :: 0 <= i < |tabs| && tabs[i].tab == tab
    case Commit(value) => Mentions(value, tab)
  }

  lemma {:induction false} RestrictedTabs(tabs: seq<SavedTab>, targets: map<TabId, Target>)
    ensures forall e :: e in Restricted(tabs, targets) <==>
                          e.target.Some? && SavedTab(e.tab, e.page) in tabs && e.tab in targets && targets[e.tab] == e.target.value
  {
    if tabs != [] {
      var before, last := tabs[..|tabs| - 1], tabs[|tabs| - 1];
      RestrictedTabs(before, targets);
      assert tabs == before + [last];
    }
  }

  lemma WritesWhatIsAsked(write: Write, targets: map<TabId, Target>, tab: TabId)
    requires !Asks(write, tab)
    ensures !Mentions(ValueOf(write, targets), tab)
  {
    if write.SaveOf? && write.window.Some? {
      RestrictedTabs(write.tabs, targets);
      var value := ValueOf(write, targets);
      forall i | 0 <= i < |value.tabs|
        ensures value.tabs[i].tab != tab
      {
        assert value.tabs[i] in Restricted(write.tabs, targets);
      }
    }
  }

  lemma {:induction false} ResultForgets(calls: seq<Write>, ends: seq<End>, first: Stored, i: nat, tab: TabId)
    requires i < |ends| <= |calls| && ends[i].Landed?
    requires forall j :: i <= j < |calls| ==> !Asks(calls[j], tab)
    ensures !Mentions(Result(calls, ends, first), tab)
    decreases |ends|
  {
    var last := |ends| - 1;
    if ends[last].Landed? {
      WritesWhatIsAsked(calls[last], ends[last].targets, tab);
    } else {
      ResultForgets(calls, ends[..last], first, i, tab);
    }
  }

  /** A delayed write cannot resurrect removed ownership: once a write called without a tab has been stored, and no
      later call has named the tab, storage does not, whatever older writes were still on their way. */
  lemma NothingIsResurrected(w: World, i: nat, tab: TabId)
    requires InOrder(w) && i < |w.ends| && w.ends[i].Landed?
    requires forall j :: i <= j < |w.calls| ==> !Asks(w.calls[j], tab)
    ensures !Mentions(w.storage, tab)
  {
    ResultForgets(w.calls, w.ends, w.first, i, tab);
  }

  /** Memory is changed by no step of a restore but the last, and that one exposes only tabs that a save had recorded
      for the saved window, each found alive in that window under its recorded target by this very restore. */
  lemma RestoreExposesOnlyVerifiedOwnership(w: World, step: Step)
    requires Traced(w) && Enabled(w, step) && !step.Changes? && !step.Dies?
    requires Next(w, step).worker.memory != w.worker.memory
    ensures step == Exposes && Next(w, step).worker.memory.window.Some? && Next(w, step).worker.restored
    ensures var m := Next(w, step).worker.memory;
            forall tab :: tab in m.managed ==> exists target :: Record(m.window.value, tab, target) in w.records * w.verified
  {
    var value := w.worker.restoring.value;
    ManagedTabs(value.tabs);
    var m := Next(w, step).worker.memory;
    forall tab | tab in m.managed
      ensures exists target :: Record(m.window.value, tab, target) in w.records * w.verified
    {
      var i :| 0 <= i < |value.tabs| && value.tabs[i].tab == tab;
      assert Record(m.window.value, tab, value.tabs[i].target.value) in w.records * w.verified;
    }
  }

  lemma {:induction false} ManagedOnce(tabs: seq<OwnedTab>)
    ensures Distinct(Managed(tabs))
  {
    if tabs != [] {
      ManagedOnce(tabs[..|tabs| - 1]);
    }
  }

  /** Of several entries of a tab, the last one with a page counts. */
  lemma {:induction false} LastPageCounts(tabs: seq<OwnedTab>, i: nat, tab: TabId)
    requires NamesPage(tabs, i, tab) && forall j :: i < j < |tabs| ==> !NamesPage(tabs, j, tab)
    ensures tab in Pages(tabs) && Some(Pages(tabs)[tab]) == tabs[i].page
  {
    var before := tabs[..|tabs| - 1];
    if i < |before| {
      assert !NamesPage(tabs, |before|, tab);
      assert forall j :: 0 <= j < |before| ==> (NamesPage(before, j, tab) <==> NamesPage(tabs, j, tab));
      LastPageCounts(before, i, tab);
    }
  }

  ghost predicate NamesPage(tabs: seq<OwnedTab>, i: int, tab: TabId) {
    0 <= i < |tabs| && tabs[i].tab == tab && tabs[i].page.Some? && tabs[i].page.value != ""
  }

  lemma {:induction false} ManagedTabs(tabs: seq<OwnedTab>)
    ensures forall tab :: tab in Managed(tabs) <==> exists i :: 0 <= i < |tabs| && tabs[i].tab == tab
    ensures forall tab :: tab in Pages(tabs) ==> exists i :: 0 <= i < |tabs| && tabs[i].tab == tab
  {
    if tabs != [] {
      var before, last := tabs[..|tabs| - 1], tabs[|tabs| - 1];
      ManagedTabs(before);
      assert tabs == before + [last];
      forall tab | tab in Managed(tabs)
        ensures exists i :: 0 <= i < |tabs| && tabs[i].tab == tab
      {
        if tab in Managed(before) {
          var i :| 0 <= i < |before| && before[i].tab == tab;
          assert tabs[i].tab == tab;
        } else {
          assert tabs[|tabs| - 1].tab == tab;
        }
      }
      forall tab | tab in Pages(tabs)
        ensures exists i :: 0 <= i < |tabs| && tabs[i].tab == tab
      {
        if tab in Pages(before) {
          var i :| 0 <= i < |before| && before[i].tab == tab;
          assert tabs[i].tab == tab;
        } else {
          assert tabs[|tabs| - 1].tab == tab;
        }
      }
      forall i | 0 <= i < |tabs|
        ensures tabs[i].tab in Managed(tabs)
      {
        if i < |before| {
          assert before[i].tab in Managed(before);
        }
      }
    }
  }

  /** A restore is over once one has succeeded, and what one exposes has been stored before. */
  ghost predicate Settled(w: World) {
    && (w.worker.restored ==> w.worker.restoring == Idle)
    && (w.worker.restoring.Committed? ==> WasStored(w, w.worker.restoring.value))
  }

  ghost predicate WasStored(w: World, value: Stored) {
    exists i :: 0 <= i < |w.ends| && i < |w.calls| && w.calls[i] == Commit(value) && w.ends[i].Landed?
  }

  lemma StepKeepsSettled(w: World, step: Step)
    requires InOrder(w) && Traced(w) && Settled(w) && Enabled(w, step)
    ensures Settled(Next(w, step))
  {
    hide RecordsOf, ValueOf, Alive, SavedTabs, Owned, Known, Proven, Result;
    var next := Next(w, step);
    if step.Finishes? && step.stored && w.worker.queue[0].Commit? {
      var i := |w.ends|;
      assert next.calls[i] == Commit(next.worker.restoring.value) && next.ends[i].Landed?;
    } else if next.worker.restoring.Committed? {
      var i :| 0 <= i < |w.ends| && i < |w.calls| && w.calls[i] == Commit(w.worker.restoring.value) && w.ends[i].Landed?;
      assert next.calls[i] == w.calls[i] && next.ends[i] == w.ends[i];
    }
  }

  lemma {:induction false} EveryRunIsSettled(storage: Stored, steps: seq<Step>)
    requires Run(storage, steps).Some?
    ensures Settled(Run(storage, steps).value)
    decreases |steps|
  {
    if steps != [] {
      var before := steps[..|steps| - 1];
      EveryRunIsSettled(storage, before);
      EveryRunIsOrderedAndTraced(storage, before);
      StepKeepsSettled(Run(storage, before).value, steps[|steps| - 1]);
    }
    hide InOrder, Traced, Settled;
  }

  /** Nothing is exposed that this worker has not stored first. */
  lemma ExposedIsCommitted(storage: Stored, steps: seq<Step>)
    requires Run(storage, steps).Some? && Enabled(Run(storage, steps).value, Exposes)
    ensures var w := Run(storage, steps).value;
            exists value :: WasStored(w, value) && Next(w, Exposes).worker.memory == Exposed(w.worker.memory, value)
  {
    EveryRunIsSettled(storage, steps);
    hide Run, Exposed, WasStored;
  }

  /** A restore that has succeeded is not repeated: as long as the worker lives, nothing but its own work changes memory. */
  lemma {:induction false} RestoredForGood(w: World, steps: seq<Step>)
    requires InOrder(w) && Traced(w) && Settled(w) && w.worker.restored && RunFrom(w, steps).Some?
    requires forall i :: 0 <= i < |steps| ==> !steps[i].Dies? && !steps[i].Changes?
    ensures RunFrom(w, steps).value.worker.restored && RunFrom(w, steps).value.worker.memory == w.worker.memory
    decreases |steps|
  {
    if steps != [] {
      var before := steps[..|steps| - 1];
      RestoredForGood(w, before);
      RunKeepsOrder(w, before);
      RunKeepsTrace(w, before);
      RunKeepsSettled(w, before);
    }
    hide InOrder, WasStored;
  }

  lemma {:induction false} RunKeepsSettled(w: World, steps: seq<Step>)
    requires InOrder(w) && Traced(w) && Settled(w) && RunFrom(w, steps).Some?
    ensures Settled(RunFrom(w, steps).value)
    decreases |steps|
  {
    if steps != [] {
      var before := steps[..|steps| - 1];
      RunKeepsSettled(w, before);
      RunKeepsOrder(w, before);
      RunKeepsTrace(w, before);
      StepKeepsSettled(RunFrom(w, before).value, steps[|steps| - 1]);
    }
    hide InOrder, Traced, Settled;
  }

  /** A failure of the browser's, or a commit that could not be stored. */
  ghost predicate IsFailure(w: World, step: Step)
    requires Enabled(w, step)
  {
    step == Queries(Failure) || step == Matches(None) || (step == Finishes(false) && w.worker.queue[0].Commit?)
  }

  /** A restore ends without having succeeded exactly if something fails; then, at whatever point, memory and storage are as
      they were, nothing new is to be written, and the next call tries again. */
  lemma FailedRestoreChangesNothing(w: World, step: Step)
    requires InOrder(w) && Traced(w) && Settled(w) && Enabled(w, step) && w.worker.restoring != Idle && !step.Dies?
    ensures Next(w, step).worker.restoring == Idle && !Next(w, step).worker.restored <==> IsFailure(w, step)
    ensures IsFailure(w, step) ==>
              && Next(w, step).worker.memory == w.worker.memory && Next(w, step).storage == w.storage
              && Next(w, step).calls == w.calls && AfterRestoreCall(Next(w, step).worker).restoring == Reading
  {
    hide Result, ValueOf, Owned, SavedTabs, WasStored, Known, Proven;
  }

  // ----- what a save and a later restore keep

  /** The tabs that are alive under the same target when they are saved and when they are restored, the second time
      still in their window. */
  ghost function Kept(live: set<TabId>, saved: map<TabId, Target>, found: map<TabId, Target>): set<TabId> {
    set tab | tab in live && tab in saved && tab in found && saved[tab] == found[tab]
  }

  function Filtered(tabs: seq<TabId>, keep: set<TabId>): seq<TabId> {
    if tabs == [] then []
    else Filtered(tabs[..|tabs| - 1], keep) + if tabs[|tabs| - 1] in keep then [tabs[|tabs| - 1]] else []
  }

  ghost predicate Distinct(tabs: seq<TabId>) {
    forall i, j :: 0 <= i < j < |tabs| ==> tabs[i] != tabs[j]
  }

  lemma {:induction false} FilteredTabs(tabs: seq<TabId>, keep: set<TabId>)
    ensures forall tab :: tab in Filtered(tabs, keep) <==> tab in tabs && tab in keep
  {
    if tabs != [] {
      FilteredTabs(tabs[..|tabs| - 1], keep);
      assert tabs == tabs[..|tabs| - 1] + [tabs[|tabs| - 1]];
    }
  }

  lemma {:induction false} FilteredStaysDistinct(tabs: seq<TabId>, keep: set<TabId>)
    requires Distinct(tabs)
    ensures Distinct(Filtered(tabs, keep))
  {
    if tabs != [] {
      var before, last := tabs[..|tabs| - 1], tabs[|tabs| - 1];
      FilteredStaysDistinct(before, keep);
      FilteredTabs(before, keep);
      assert forall i :: 0 <= i < |Filtered(before, keep)| ==> Filtered(before, keep)[i] in before;
    }
  }

  /** The entries of these tabs in a binding that was saved with these targets. */
  ghost function Entries(m: Memory, tabs: seq<TabId>, saved: map<TabId, Target>): seq<OwnedTab>
    requires forall tab :: tab in tabs ==> tab in saved
  {
    seq(|tabs|, i requires 0 <= i < |tabs| => OwnedTab(tabs[i], Some(saved[tabs[i]]), PageOf(m, tabs[i])))
  }

  lemma OneMoreOwned(entries: seq<OwnedTab>, entry: OwnedTab, live: set<TabId>, targets: map<TabId, Target>)
    ensures Owned(entries + [entry], live, targets)
            == Owned(entries, live, targets) + if StillOwned(entry, live, targets) then [entry] else []
  {
    assert (entries + [entry])[..|entries|] == entries;
  }

  lemma {:induction false} EntriesExpose(m: Memory, tabs: seq<TabId>, saved: map<TabId, Target>)
    requires Distinct(tabs) && forall tab :: tab in tabs ==> tab in saved
    ensures Managed(Entries(m, tabs, saved)) == tabs
    ensures var pages := Pages(Entries(m, tabs, saved));
            forall tab :: (tab in pages <==> tab in tabs && PageOf(m, tab).Some?) && (tab in pages ==> Some(pages[tab]) == PageOf(m, tab))
  {
    if tabs != [] {
      var before, last := tabs[..|tabs| - 1], tabs[|tabs| - 1];
      EntriesExpose(m, before, saved);
      var entry := OwnedTab(last, Some(saved[last]), PageOf(m, last));
      assert Entries(m, tabs, saved) == Entries(m, before, saved) + [entry];
      assert tabs == before + [last] && last !in before;
      assert entry.page == PageOf(m, last);
      hide Managed, Pages, Entries;
    }
  }

  lemma OneMoreEntry(m: Memory, tabs: seq<TabId>, last: TabId, saved: map<TabId, Target>)
    requires last in saved && forall tab :: tab in tabs ==> tab in saved
    ensures forall tab :: tab in tabs + [last] ==> tab in saved
    ensures Entries(m, tabs + [last], saved) == Entries(m, tabs, saved) + [OwnedTab(last, Some(saved[last]), PageOf(m, last))]
  {
  }

  lemma {:induction false} EntriesAreOwned(m: Memory, tabs: seq<TabId>, saved: map<TabId, Target>, live: set<TabId>,
                                           found: map<TabId, Target>)
    requires forall tab :: tab in tabs ==> tab in saved
    ensures var back := Filtered(tabs, Kept(live, saved, found));
            && (forall tab :: tab in back ==> tab in saved)
            && Owned(Entries(m, tabs, saved), live, found) == Entries(m, back, saved)
  {
    FilteredTabs(tabs, Kept(live, saved, found));
    if tabs != [] {
      hide Owned, Entries;
      var before, last := tabs[..|tabs| - 1], tabs[|tabs| - 1];
      assert tabs == before + [last];
      EntriesAreOwned(m, before, saved, live, found);
      var entry := OwnedTab(last, Some(saved[last]), PageOf(m, last));
      OneMoreEntry(m, before, last, saved);
      OneMoreOwned(Entries(m, before, saved), entry, live, found);
      assert StillOwned(entry, live, found) <==> last in Kept(live, saved, found);
      hide Kept, StillOwned, PageOf;
      if last in Kept(live, saved, found) {
        OneMoreEntry(m, Filtered(before, Kept(live, saved, found)), last, saved);
      }
    }
  }

  lemma {:induction false} FilteredTwice(tabs: seq<TabId>, a: set<TabId>, b: set<TabId>)
    requires b <= a
    ensures Filtered(Filtered(tabs, a), b) == Filtered(tabs, b)
  {
    if tabs != [] {
      var before, last := tabs[..|tabs| - 1], tabs[|tabs| - 1];
      FilteredTwice(before, a, b);
      if last in a {
        var more := Filtered(before, a) + [last];
        assert Filtered(tabs, a) == more && more[..|more| - 1] == Filtered(before, a);
      } else {
        assert Filtered(tabs, a) == Filtered(before, a);
      }
    }
  }

  /** A restore that meets no failure and no other call, by a worker that has just started anew. */
  ghost function RestoreSteps(landing: bool, live: set<TabId>, found: map<TabId, Target>): seq<Step> {
    [Dies(landing), CallsRestore, Reads, Queries(Tabs(live)), Matches(Some(found)), Prepares(None), Finishes(true), Exposes]
  }

  lemma {:induction false} RunAlong(worlds: seq<World>, steps: seq<Step>)
    requires |worlds| == |steps| + 1
    requires forall i :: 0 <= i < |steps| ==> Enabled(worlds[i], steps[i]) && worlds[i + 1] == Next(worlds[i], steps[i])
    ensures RunFrom(worlds[0], steps) == Some(worlds[|steps|])
    decreases |steps|
  {
    if steps != [] {
      RunAlong(worlds[..|steps|], steps[..|steps| - 1]);
    }
    hide Next, Enabled;
  }

  lemma RestoreReads(w: World, window: int, tabs: seq<OwnedTab>, landing: bool) returns (v: World)
    requires w.worker.queue == [] && window >= 0 && w.storage == Binding(window, tabs)
    ensures RunFrom(w, [Dies(landing), CallsRestore, Reads]) == Some(v)
    ensures v.worker == Worker(NO_MEMORY, false, Querying(window, tabs), [], None) && v.storage == w.storage
  {
    hide RunFrom, RecordsOf;
    var w1 := Next(w, Dies(landing));
    var w2 := Next(w1, CallsRestore);
    v := Next(w2, Reads);
    RunAlong([w, w1, w2, v], [Dies(landing), CallsRestore, Reads]);
  }

  /** From then on: commit, then expose. */
  lemma RestoreCommits(v: World, value: Stored) returns (end: World)
    requires v.worker == Worker(NO_MEMORY, false, Committing, [Commit(value)], None)
    ensures RunFrom(v, [Prepares(None), Finishes(true), Exposes]) == Some(end)
    ensures end.worker == Worker(Exposed(NO_MEMORY, value), true, Idle, [], None) && end.storage == value
  {
    hide RunFrom, RecordsOf, Managed, Pages;
    var w1 := Next(v, Prepares(None));
    var w2 := Next(w1, Finishes(true));
    end := Next(w2, Exposes);
    RunAlong([v, w1, w2, end], [Prepares(None), Finishes(true), Exposes]);
  }

  lemma RestoreMatches(v: World, window: int, tabs: seq<OwnedTab>, live: set<TabId>, found: map<TabId, Target>) returns (next: World)
    requires v.worker == Worker(NO_MEMORY, false, Querying(window, tabs), [], None)
    ensures var owned := Owned(tabs, live, found);
            next.worker == Worker(NO_MEMORY, false, Committing, [Commit(if owned == [] then Nothing else Binding(window, owned))], None)
    ensures RunFrom(v, [Queries(Tabs(live)), Matches(Some(found))]) == Some(next)
  {
    hide RunFrom, Owned, Alive;
    var w1 := Next(v, Queries(Tabs(live)));
    next := Next(w1, Matches(Some(found)));
    RunAlong([v, w1, next], [Queries(Tabs(live)), Matches(Some(found))]);
  }

  /** What a restore makes of a stored binding with a window: the entries that are alive in the window under their targets
      are committed and exposed; if there is none, storage is emptied and nothing exposed. */
  lemma RestoreCommitsWhatIsOwned(w: World, window: int, tabs: seq<OwnedTab>, landing: bool, live: set<TabId>,
                                  found: map<TabId, Target>)
    requires w.worker.queue == [] && window >= 0 && w.storage == Binding(window, tabs)
    ensures var owned := Owned(tabs, live, found);
            var end := RunFrom(w, RestoreSteps(landing, live, found));
            && end.Some? && end.value.worker.restored
            && end.value.worker.memory == (if owned == [] then NO_MEMORY else Memory(Some(window), Managed(owned), Pages(owned)))
            && end.value.storage == if owned == [] then Nothing else Binding(window, owned)
  {
    var first, second := [Dies(landing), CallsRestore, Reads], [Queries(Tabs(live)), Matches(Some(found))];
    var third := [Prepares(None), Finishes(true), Exposes];
    hide RunFrom, Owned, Managed, Pages;
    var owned := Owned(tabs, live, found);
    var v := RestoreReads(w, window, tabs, landing);
    var next := RestoreMatches(v, window, tabs, live, found);
    var end := RestoreCommits(next, if owned == [] then Nothing else Binding(window, owned));
    RunSplits(w, first, second);
    RunSplits(w, first + second, third);
    assert RestoreSteps(landing, live, found) == first + second + third;
  }

  /** Storage that holds no binding with a window leaves a restore nothing to do, for good. */
  lemma NothingUsableIsRestored(w: World, landing: bool)
    requires w.worker.queue == [] && (w.storage.Binding? ==> w.storage.window < 0)
    ensures var end := RunFrom(w, [Dies(landing), CallsRestore, Reads]);
            && end.Some? && end.value.worker == Worker(NO_MEMORY, true, Idle, [], None) && end.value.storage == w.storage
            && AfterRestoreCall(end.value.worker) == end.value.worker
  {
    hide RunFrom, RecordsOf;
    var w1 := Next(w, Dies(landing));
    var w2 := Next(w1, CallsRestore);
    RunAlong([w, w1, w2, Next(w2, Reads)], [Dies(landing), CallsRestore, Reads]);
  }

  /** A binding whose window is gone is forgotten, and nothing is exposed. */
  lemma AGoneWindowIsForgotten(w: World, landing: bool)
    requires w.worker.queue == [] && w.storage.Binding? && w.storage.window >= 0
    ensures var steps := [Dies(landing), CallsRestore, Reads, Queries(NoWindow), Prepares(None), Finishes(true), Exposes];
            var end := RunFrom(w, steps);
            && end.Some? && end.value.storage == Nothing && end.value.worker == Worker(NO_MEMORY, true, Idle, [], None)
  {
    hide RunFrom, Next;
    var first, third := [Dies(landing), CallsRestore, Reads], [Prepares(None), Finishes(true), Exposes];
    var v := RestoreReads(w, w.storage.window, w.storage.tabs, landing);
    OneStep(v, Queries(NoWindow));
    assert Next(v, Queries(NoWindow)).worker == Worker(NO_MEMORY, false, Committing, [Commit(Nothing)], None) by {
      GoneWindow(v);
    }
    var end := RestoreCommits(Next(v, Queries(NoWindow)), Nothing);
    RunSplits(w, first, [Queries(NoWindow)]);
    RunSplits(w, first + [Queries(NoWindow)], third);
    assert first + [Queries(NoWindow)] + third
        == [Dies(landing), CallsRestore, Reads, Queries(NoWindow), Prepares(None), Finishes(true), Exposes];
  }

  lemma GoneWindow(v: World)
    requires v.worker.restoring.Querying? && v.worker.queue == []
    ensures Next(v, Queries(NoWindow)).worker
            == Worker(v.worker.memory, v.worker.restored, Committing, [Commit(Nothing)], v.worker.ready)
  {
  }

  /** Saving, draining the queue, dying and restoring brings back exactly the tabs that are still alive under the targets
      they were saved with, in order, with their pages, whatever memory has become in between; if none is, nothing is
      exposed. */
  lemma RestoreBringsBackWhatWasSaved(w: World, before: seq<Step>, saved: map<TabId, Target>, after: seq<Step>, landing: bool,
                                      live: set<TabId>, found: map<TabId, Target>)
    requires InOrder(w) && w.worker.memory.window.Some? && w.worker.memory.window.value >= 0 && Distinct(w.worker.memory.managed)
    requires forall i :: 0 <= i < |before| ==> !before[i].Dies?
    requires forall i :: 0 <= i < |after| ==> !after[i].Dies? && !after[i].Prepares?
    requires RunFrom(w, [Saves] + before + [Prepares(Some(saved))] + after).Some?
    requires var v := RunFrom(w, [Saves] + before + [Prepares(Some(saved))] + after).value;
             v.worker.queue == [] && |v.calls| == |w.calls| + 1 && |v.ends| > 0 && v.ends[|v.ends| - 1].Landed?
    ensures var v, m := RunFrom(w, [Saves] + before + [Prepares(Some(saved))] + after).value, w.worker.memory;
            var end := RunFrom(v, RestoreSteps(landing, live, found));
            var back := Filtered(m.managed, Kept(live, saved, found));
            && end.Some? && end.value.worker.restored && end.value.worker.memory.managed == back
            && end.value.worker.memory.window == (if back == [] then None else m.window)
            && var pages := end.value.worker.memory.pages;
               forall tab :: (tab in pages <==> tab in back && tab in m.pages && m.pages[tab] != "")
                             && (tab in pages ==> pages[tab] == m.pages[tab])
  {
    var m, v := w.worker.memory, RunFrom(w, [Saves] + before + [Prepares(Some(saved))] + after).value;
    var alive, keep := Filtered(m.managed, saved.Keys), Kept(live, saved, found);
    DrainedStorageIsTheLastSave(w, before, saved, after);
    RestoreCommitsWhatIsOwned(v, m.window.value, Entries(m, alive, saved), landing, live, found);
    EntriesAreOwned(m, alive, saved, live, found);
    FilteredTwice(m.managed, saved.Keys, keep);
    var back := Filtered(m.managed, keep);
    FilteredTabs(m.managed, keep);
    FilteredStaysDistinct(m.managed, keep);
    EntriesExpose(m, back, saved);
    assert |Entries(m, back, saved)| == |back|;
    hide RunFrom, RestoreSteps, SavedTabs, Owned, Filtered, Kept, Entries, Managed, Pages, Distinct, InOrder;
  }
}
