/** Actions on a page and requests that close it, in any interleaving of their registry steps
    (daemon/app.py:480-536, 1102-1125 over tabs/registry.py:213-321). */
module PageClosing {
  import opened Options
  import opened TabRegistries

  /** Where a request stands. An action operates on a page until its last check passes, and then still holds it
      until it is released. A close reserves the page, waits for the browser, removes the record, and only then
      interrupts the asyncio task that was working on the page. */
  datatype Phase =
    | Outside
    | Operating(page: PageId, task: Task)
    | Passed(page: PageId, task: Task)
    | Reserved(page: PageId, running: Option<Task>)
    | Confirmed(page: PageId, running: Option<Task>)
    | Unlisted(page: PageId, running: Option<Task>)

  /** `confirmed` are the pages the browser has destroyed, `seen` all page ids ever used, and `interrupted` the
      tasks cancelled so far, each with the page whose closing cancelled it. */
  datatype World = World(reg: Registry, phases: map<RequestId, Phase>, confirmed: set<PageId>, seen: set<PageId>,
                         interrupted: set<(Task, PageId)>)

  datatype Step =
    | OpensPage(page: PageId, agent: Agent, url: string, title: string, now: int)
    | ClaimsPage(request: RequestId, page: PageId, claim: Claim, task: Task, now: int)
    | ClaimsActive(request: RequestId, claim: Claim, task: Task, now: int)
    | Updates(page: PageId, refresh: Refresh, now: int)
    | Activates(agent: Agent, page: PageId, now: int)
    | PassesCheck(request: RequestId)
    | Releases(request: RequestId)
    | Reserves(request: RequestId, page: PageId, claim: Claim)
    | CloseFails(request: RequestId)
    | BrowserConfirms(request: RequestId)
    | RemovesRecord(request: RequestId, agent: Agent, latest: Option<PageId>)
    | RecordIsGone(request: RequestId)
    | Interrupts(request: RequestId)
    | EndsClose(request: RequestId)
    | ClearsAll

  function PhaseOf(w: World, r: RequestId): Phase {
    if r in w.phases then w.phases[r] else Outside
  }

  function Enter(w: World, r: RequestId, phase: Phase, reg: Registry): World {
    w.(reg := reg, phases := w.phases[r := phase])
  }

  ghost predicate Holds(phase: Phase, page: PageId) {
    (phase.Operating? || phase.Passed?) && phase.page == page
  }

  /** A step that the code can take in w; a request that is refused takes none. */
  ghost predicate Enabled(w: World, step: Step) {
    match step
    case OpensPage(page, _, _, _, _) => page !in w.seen
    case ClaimsPage(r, page, claim, task, now) =>
      PhaseOf(w, r) == Outside && claim.request == r && ClaimedPage(w.reg, page, claim, task, now).1 == Done
    case ClaimsActive(r, claim, task, now) =>
      PhaseOf(w, r) == Outside && claim.request == r && ClaimedActive(w.reg, claim, task, now).1 == Done
    case Updates(_, _, _) => true
    case Activates(_, _, _) => true
    case PassesCheck(r) => PhaseOf(w, r).Operating? && MayPass(w.reg, PhaseOf(w, r).page, r)
    case Releases(r) => PhaseOf(w, r).Operating? || PhaseOf(w, r).Passed?
    case Reserves(r, page, claim) =>
      PhaseOf(w, r) == Outside && claim.request == r && CloseBegun(w.reg, page, claim).1 == Done
    case CloseFails(r) => PhaseOf(w, r).Reserved?
    case BrowserConfirms(r) => PhaseOf(w, r).Reserved?
    case RemovesRecord(r, agent, latest) =>
      PhaseOf(w, r).Confirmed? && Removed(w.reg, agent, PhaseOf(w, r).page, latest).1 == Done
    case RecordIsGone(r) => PhaseOf(w, r).Confirmed? && PhaseOf(w, r).page !in w.reg.tabs
    case Interrupts(r) => PhaseOf(w, r).Unlisted? && PhaseOf(w, r).running.Some?
    case EndsClose(r) => PhaseOf(w, r).Unlisted?
    case ClearsAll => true
  }

  ghost function Next(w: World, step: Step): World
    requires Enabled(w, step)
  {
    match step
    case OpensPage(page, agent, url, title, now) =>
      w.(reg := Added(w.reg, page, agent, url, title, now), seen := w.seen + {page})
    case ClaimsPage(r, page, claim, task, now) =>
      Enter(w, r, Operating(page, task), ClaimedPage(w.reg, page, claim, task, now).0)
    case ClaimsActive(r, claim, task, now) =>
      Enter(w, r, Operating(w.reg.active[claim.agent], task), ClaimedActive(w.reg, claim, task, now).0)
    case Updates(page, refresh, now) => w.(reg := Updated(w.reg, page, refresh, now).0)
    case Activates(agent, page, now) => w.(reg := Activated(w.reg, agent, page, now).0)
    case PassesCheck(r) => Enter(w, r, Passed(PhaseOf(w, r).page, PhaseOf(w, r).task), w.reg)
    case Releases(r) => Enter(w, r, Outside, Released(w.reg, PhaseOf(w, r).page, r))
    case Reserves(r, page, claim) =>
      Enter(w, r, Reserved(page, CloseBegun(w.reg, page, claim).2), CloseBegun(w.reg, page, claim).0)
    case CloseFails(r) => Enter(w, r, Outside, CloseEnded(w.reg, PhaseOf(w, r).page, r))
    case BrowserConfirms(r) =>
      Enter(w, r, Confirmed(PhaseOf(w, r).page, PhaseOf(w, r).running), w.reg).(confirmed := w.confirmed + {PhaseOf(w, r).page})
    case RemovesRecord(r, agent, latest) =>
      Enter(w, r, Unlisted(PhaseOf(w, r).page, PhaseOf(w, r).running), Removed(w.reg, agent, PhaseOf(w, r).page, latest).0)
    case RecordIsGone(r) => Enter(w, r, Outside, CloseEnded(w.reg, PhaseOf(w, r).page, r))
    case Interrupts(r) =>
      w.(interrupted := w.interrupted + {(PhaseOf(w, r).running.value, PhaseOf(w, r).page)})
    case EndsClose(r) => Enter(w, r, Outside, CloseEnded(w.reg, PhaseOf(w, r).page, r))
    case ClearsAll => w.(reg := Cleared(w.reg))
  }

  // ----- what every run keeps

  ghost predicate SeenAll(w: World) {
    && w.reg.tabs.Keys <= w.seen && w.confirmed <= w.seen
    && forall r :: PhaseOf(w, r) != Outside ==> PhaseOf(w, r).page in w.seen
  }

  /** Whoever works on a listed page is the one that the record and the table of tasks name. */
  ghost predicate HoldersAreNamed(w: World) {
    forall r :: PhaseOf(w, r).Operating? || PhaseOf(w, r).Passed? ==> NamedHolder(w, r)
  }

  ghost predicate NamedHolder(w: World, r: RequestId)
    requires PhaseOf(w, r).Operating? || PhaseOf(w, r).Passed?
  {
    var page := PhaseOf(w, r).page;
    && (page, r) in w.reg.tasks && w.reg.tasks[(page, r)] == PhaseOf(w, r).task
    && (page in w.reg.tabs ==> w.reg.tabs[page].busy.Some? && w.reg.tabs[page].busy.value.request == r)
  }

  /** A record names nobody as its holder who is not working on it. */
  ghost predicate NamesAreHolders(w: World) {
    forall p :: p in w.reg.tabs && w.reg.tabs[p].busy.Some? ==> Holds(PhaseOf(w, w.reg.tabs[p].busy.value.request), p)
  }

  /** A listed page that is being closed is reserved by the request that closes it. */
  ghost predicate ClosersAreNamed(w: World) {
    forall r :: PhaseOf(w, r).Reserved? || PhaseOf(w, r).Confirmed? ==>
                  PhaseOf(w, r).page in w.reg.tabs ==>
                    var t := w.reg.tabs[PhaseOf(w, r).page];
                    t.closing.Some? && t.closing.value.request == r
  }

  ghost predicate NamesAreClosers(w: World) {
    forall p :: p in w.reg.tabs && w.reg.tabs[p].closing.Some? ==>
                  var phase := PhaseOf(w, w.reg.tabs[p].closing.value.request);
                  (phase.Reserved? || phase.Confirmed?) && phase.page == p
  }

  /** A listed page that the browser has destroyed is reserved until its record goes. */
  ghost predicate ConfirmedIsReserved(w: World) {
    forall p :: p in w.confirmed && p in w.reg.tabs ==>
                  var t := w.reg.tabs[p];
                  && t.closing.Some? && PhaseOf(w, t.closing.value.request).Confirmed?
                  && PhaseOf(w, t.closing.value.request).page == p
  }

  /** Once a close has removed the record, the page is destroyed and stays unlisted, and only then is anybody
      interrupted. */
  ghost predicate UnlistedIsGone(w: World) {
    && (forall r :: PhaseOf(w, r).Unlisted? ==> PhaseOf(w, r).page in w.confirmed && PhaseOf(w, r).page !in w.reg.tabs)
    && (forall r :: PhaseOf(w, r).Confirmed? ==> PhaseOf(w, r).page in w.confirmed)
    && (forall i :: i in w.interrupted ==> i.1 in w.confirmed && i.1 !in w.reg.tabs)
  }

  ghost predicate Inv(w: World) {
    && SeenAll(w) && HoldersAreNamed(w) && NamesAreHolders(w) && ClosersAreNamed(w) && NamesAreClosers(w)
    && ConfirmedIsReserved(w) && UnlistedIsGone(w)
  }

  // What a registry step leaves alone.

  /** The records after a step: each is a record from before, perhaps with a new use, url or title, or one of the
      changes of claim that the step names. */
  lemma TabsAfter(w: World, step: Step, p: PageId)
    requires Enabled(w, step) && NamesAreClosers(w) && p in Next(w, step).reg.tabs
    ensures p in w.reg.tabs || (step.OpensPage? && step.page == p && Next(w, step).reg.tabs[p].busy == Next(w, step).reg.tabs[p].closing == None)
    ensures p in w.reg.tabs && !(step.OpensPage? && step.page == p) ==>
              BusyAfter(w, step, p) && ClosingAfter(w, step, p)
  {
    match step
    case OpensPage(_, _, _, _, _) =>
    case ClaimsPage(_, _, _, _, _) => TakeAfter(w, step, p);
    case ClaimsActive(_, _, _, _) => TakeAfter(w, step, p);
    case Updates(_, _, _) =>
    case Activates(_, _, _) =>
    case Reserves(_, _, _) =>
    case RemovesRecord(_, _, _) =>
    case ClearsAll =>
    case _ =>
  }

  ghost predicate BusyAfter(w: World, step: Step, p: PageId)
    requires Enabled(w, step) && p in w.reg.tabs && p in Next(w, step).reg.tabs
  {
    var t, u := w.reg.tabs[p], Next(w, step).reg.tabs[p];
    || u.busy == t.busy
    || ((step.ClaimsPage? || step.ClaimsActive?) && u.busy == Some(step.claim)
        && PhaseOf(Next(w, step), step.request) == Operating(p, step.task)
        && (t.busy.Some? ==> t.busy.value.request == step.request))
    || (step.Releases? && u.busy == None && t.busy.Some? && t.busy.value.request == step.request
        && PhaseOf(w, step.request).page == p)
  }

  ghost predicate ClosingAfter(w: World, step: Step, p: PageId)
    requires Enabled(w, step) && p in w.reg.tabs && p in Next(w, step).reg.tabs
  {
    var t, u := w.reg.tabs[p], Next(w, step).reg.tabs[p];
    || u.closing == t.closing
    || (step.Reserves? && step.page == p && t.closing == None && u.closing == Some(step.claim))
    || ((step.CloseFails? || step.RecordIsGone? || step.EndsClose?) && u.closing == None
        && PhaseOf(w, step.request).page == p)
  }

  lemma TakeAfter(w: World, step: Step, p: PageId)
    requires Enabled(w, step) && NamesAreClosers(w) && p in Next(w, step).reg.tabs
    requires step.ClaimsPage? || step.ClaimsActive?
    ensures p in w.reg.tabs && BusyAfter(w, step, p) && ClosingAfter(w, step, p)
  {
  }

  lemma TasksAfter(w: World, step: Step, p: PageId, r: RequestId)
    requires Enabled(w, step) && (p, r) in w.reg.tasks
    requires !((step.ClaimsPage? || step.ClaimsActive? || step.Releases?) && step.request == r)
    ensures (p, r) in Next(w, step).reg.tasks && Next(w, step).reg.tasks[(p, r)] == w.reg.tasks[(p, r)]
  {
  }

  /** Only its own steps move a request. */
  lemma PhasesAfter(w: World, step: Step, r: RequestId)
    requires Enabled(w, step) && !(ActsFor(step) == Some(r))
    ensures PhaseOf(Next(w, step), r) == PhaseOf(w, r)
  {
  }

  ghost function ActsFor(step: Step): Option<RequestId> {
    match step
    case OpensPage(_, _, _, _, _) => None
    case Updates(_, _, _) => None
    case Activates(_, _, _) => None
    case ClearsAll => None
    case _ => Some(step.request)
  }

  lemma StepKeepsHolders(w: World, step: Step)
    requires Inv(w) && Enabled(w, step)
    ensures HoldersAreNamed(Next(w, step)) && NamesAreHolders(Next(w, step))
  {
    var v := Next(w, step);
    forall r | PhaseOf(v, r).Operating? || PhaseOf(v, r).Passed? ensures NamedHolder(v, r) {
      if ActsFor(step) == Some(r) {
        OwnHolderStep(w, step, r);
      } else {
        OtherHolderStep(w, step, r);
      }
    }
    forall p | p in v.reg.tabs && v.reg.tabs[p].busy.Some? ensures Holds(PhaseOf(v, v.reg.tabs[p].busy.value.request), p) {
      NameStep(w, step, p);
    }
  }

  lemma OwnHolderStep(w: World, step: Step, r: RequestId)
    requires Inv(w) && Enabled(w, step) && ActsFor(step) == Some(r)
    requires PhaseOf(Next(w, step), r).Operating? || PhaseOf(Next(w, step), r).Passed?
    ensures NamedHolder(Next(w, step), r)
  {
    if step.PassesCheck? {
      assert NamedHolder(w, r);
    }
  }

  lemma OtherHolderStep(w: World, step: Step, r: RequestId)
    requires Inv(w) && Enabled(w, step) && ActsFor(step) != Some(r)
    requires PhaseOf(Next(w, step), r).Operating? || PhaseOf(Next(w, step), r).Passed?
    ensures NamedHolder(Next(w, step), r)
  {
    PhasesAfter(w, step, r);
    assert NamedHolder(w, r);
    var p := PhaseOf(w, r).page;
    TasksAfter(w, step, p, r);
    if p in Next(w, step).reg.tabs {
      TabsAfter(w, step, p);
    }
    hide Next;
  }

  lemma NameStep(w: World, step: Step, p: PageId)
    requires Inv(w) && Enabled(w, step) && p in Next(w, step).reg.tabs && Next(w, step).reg.tabs[p].busy.Some?
    ensures Holds(PhaseOf(Next(w, step), Next(w, step).reg.tabs[p].busy.value.request), p)
  {
    var v := Next(w, step);
    TabsAfter(w, step, p);
    var r := v.reg.tabs[p].busy.value.request;
    if p in w.reg.tabs && w.reg.tabs[p].busy == v.reg.tabs[p].busy {
      assert Holds(PhaseOf(w, r), p);
      assert NamedHolder(w, r);
      if ActsFor(step) != Some(r) {
        PhasesAfter(w, step, r);
      }
    }
  }

  lemma StepKeepsClosers(w: World, step: Step)
    requires Inv(w) && Enabled(w, step)
    ensures ClosersAreNamed(Next(w, step)) && NamesAreClosers(Next(w, step)) && ConfirmedIsReserved(Next(w, step))
  {
    var v := Next(w, step);
    forall p | p in v.reg.tabs && v.reg.tabs[p].closing.Some?
      ensures var phase := PhaseOf(v, v.reg.tabs[p].closing.value.request);
              (phase.Reserved? || phase.Confirmed?) && phase.page == p
    {
      CloserNameStep(w, step, p);
    }
    forall r | (PhaseOf(v, r).Reserved? || PhaseOf(v, r).Confirmed?) && PhaseOf(v, r).page in v.reg.tabs
      ensures var t := v.reg.tabs[PhaseOf(v, r).page]; t.closing.Some? && t.closing.value.request == r
    {
      CloserStep(w, step, r);
    }
    forall p | p in v.confirmed && p in v.reg.tabs
      ensures var t := v.reg.tabs[p];
              && t.closing.Some? && PhaseOf(v, t.closing.value.request).Confirmed?
              && PhaseOf(v, t.closing.value.request).page == p
    {
      ConfirmedStep(w, step, p);
    }
  }

  lemma CloserStep(w: World, step: Step, r: RequestId)
    requires Inv(w) && Enabled(w, step)
    requires PhaseOf(Next(w, step), r).Reserved? || PhaseOf(Next(w, step), r).Confirmed?
    requires PhaseOf(Next(w, step), r).page in Next(w, step).reg.tabs
    ensures var t := Next(w, step).reg.tabs[PhaseOf(Next(w, step), r).page]; t.closing.Some? && t.closing.value.request == r
  {
    var p := PhaseOf(Next(w, step), r).page;
    if !step.Reserves? || step.request != r {
      if ActsFor(step) != Some(r) {
        PhasesAfter(w, step, r);
      }
      assert PhaseOf(w, r).Reserved? || PhaseOf(w, r).Confirmed?;
      TabsAfter(w, step, p);
      if step.CloseFails? || step.RecordIsGone? || step.EndsClose? {
        assert step.request != r;
      }
    }
  }

  lemma CloserNameStep(w: World, step: Step, p: PageId)
    requires Inv(w) && Enabled(w, step) && p in Next(w, step).reg.tabs && Next(w, step).reg.tabs[p].closing.Some?
    ensures var phase := PhaseOf(Next(w, step), Next(w, step).reg.tabs[p].closing.value.request);
            (phase.Reserved? || phase.Confirmed?) && phase.page == p
  {
    TabsAfter(w, step, p);
    var r := Next(w, step).reg.tabs[p].closing.value.request;
    if ActsFor(step) != Some(r) {
      PhasesAfter(w, step, r);
    }
  }

  lemma ConfirmedStep(w: World, step: Step, p: PageId)
    requires Inv(w) && Enabled(w, step) && p in Next(w, step).confirmed && p in Next(w, step).reg.tabs
    ensures var v := Next(w, step);
            var t := v.reg.tabs[p];
            && t.closing.Some? && PhaseOf(v, t.closing.value.request).Confirmed?
            && PhaseOf(v, t.closing.value.request).page == p
  {
    TabsAfter(w, step, p);
    if p in w.confirmed {
      var r := w.reg.tabs[p].closing.value.request;
      if ActsFor(step) != Some(r) {
        PhasesAfter(w, step, r);
      }
    }
  }

  lemma StepKeepsUnlisted(w: World, step: Step)
    requires Inv(w) && Enabled(w, step)
    ensures UnlistedIsGone(Next(w, step)) && SeenAll(Next(w, step))
  {
    var v := Next(w, step);
    forall p | p in v.reg.tabs ensures p in v.seen {
      TabsAfter(w, step, p);
    }
    forall r | PhaseOf(v, r) != Outside ensures PhaseOf(v, r).page in v.seen {
      if ActsFor(step) != Some(r) {
        PhasesAfter(w, step, r);
      }
    }
    forall r | PhaseOf(v, r).Unlisted? ensures PhaseOf(v, r).page in v.confirmed && PhaseOf(v, r).page !in v.reg.tabs {
      if ActsFor(step) != Some(r) {
        PhasesAfter(w, step, r);
      }
      if PhaseOf(v, r).page in v.reg.tabs {
        TabsAfter(w, step, PhaseOf(v, r).page);
      }
    }
    forall r | PhaseOf(v, r).Confirmed? ensures PhaseOf(v, r).page in v.confirmed {
      if ActsFor(step) != Some(r) {
        PhasesAfter(w, step, r);
      }
    }
    forall i | i in v.interrupted ensures i.1 in v.confirmed && i.1 !in v.reg.tabs {
      if i.1 in v.reg.tabs {
        TabsAfter(w, step, i.1);
      }
    }
  }

  lemma StepKeepsInv(w: World, step: Step)
    requires Inv(w) && Enabled(w, step)
    ensures Inv(Next(w, step))
  {
    StepKeepsHolders(w, step);
    StepKeepsClosers(w, step);
    StepKeepsUnlisted(w, step);
    hide HoldersAreNamed, NamesAreHolders, ClosersAreNamed, NamesAreClosers, ConfirmedIsReserved, UnlistedIsGone, SeenAll, Next;
  }

  // ----- runs

  datatype Turn = Turn(before: World, step: Step)

  /** A run from an empty registry: each turn starts where the one before ended. */
  ghost predicate IsRun(run: seq<Turn>) {
    && (run != [] ==> run[0].before == World(Registry(map[], map[], map[]), map[], {}, {}, {}))
    && (forall k :: 0 <= k < |run| ==> Enabled(run[k].before, run[k].step))
    && forall k :: 0 <= k < |run| - 1 ==> run[k + 1].before == Next(run[k].before, run[k].step)
  }

  lemma {:induction false} RunsKeepInv(run: seq<Turn>, k: nat)
    requires IsRun(run) && k < |run|
    ensures Inv(run[k].before)
  {
    if k > 0 {
      RunsKeepInv(run, k - 1);
      StepKeepsInv(run[k - 1].before, run[k - 1].step);
    }
  }

  lemma HeldBefore(w: World, step: Step, r: RequestId, page: PageId)
    requires Enabled(w, step) && page !in Next(w, step).reg.tabs && Holds(PhaseOf(Next(w, step), r), page)
    ensures Holds(PhaseOf(w, r), page)
  {
    if ActsFor(step) != Some(r) {
      PhasesAfter(w, step, r);
    }
  }

  /** At most one request holds a page, listed or not. */
  lemma {:induction false} OneHolderPerPage(run: seq<Turn>, k: nat, r: RequestId, q: RequestId, page: PageId)
    requires IsRun(run) && k < |run|
    requires Holds(PhaseOf(run[k].before, r), page) && Holds(PhaseOf(run[k].before, q), page)
    ensures r == q
    decreases k
  {
    hide Next, Enabled;
    if page in run[k].before.reg.tabs {
      RunsKeepInv(run, k);
      assert NamedHolder(run[k].before, r) && NamedHolder(run[k].before, q);
    } else if k > 0 {
      var turn := run[k - 1];
      HeldBefore(turn.before, turn.step, r, page);
      HeldBefore(turn.before, turn.step, q, page);
      OneHolderPerPage(run, k - 1, r, q, page);
    }
  }

  lemma {:induction false} ConfirmedForGood(run: seq<Turn>, j: nat, k: nat, page: PageId)
    requires IsRun(run) && j <= k < |run| && page in run[j].before.confirmed
    ensures page in run[k].before.confirmed
    decreases k
  {
    if j < k {
      ConfirmedForGood(run, j, k - 1, page);
    }
  }

  /** Once the browser has confirmed that a page is gone, no result of any request passes its last check on that
      page, for the rest of the run. */
  lemma NothingPassesAfterConfirmedClose(run: seq<Turn>, j: nat, k: nat, page: PageId, r: RequestId)
    requires IsRun(run) && j <= k < |run| && page in run[j].before.confirmed
    ensures !MayPass(run[k].before.reg, page, r)
    ensures run[k].step == PassesCheck(r) ==> PhaseOf(run[k].before, r).page != page
  {
    ConfirmedForGood(run, j, k, page);
    RunsKeepInv(run, k);
  }

  /** A result is handed out exactly as long as its page is listed and nobody closes it. */
  lemma ResultPassesIff(run: seq<Turn>, k: nat, r: RequestId)
    requires IsRun(run) && k < |run| && PhaseOf(run[k].before, r).Operating?
    ensures var w, page := run[k].before, PhaseOf(run[k].before, r).page;
            Enabled(w, PassesCheck(r)) <==> page in w.reg.tabs && w.reg.tabs[page].closing.None?
  {
    RunsKeepInv(run, k);
    assert NamedHolder(run[k].before, r);
  }

  /** No entry of the table of tasks outlives the work on its page. */
  ghost predicate TasksAreWork(w: World) {
    forall key :: key in w.reg.tasks ==> Holds(PhaseOf(w, key.1), key.0)
  }

  lemma StepKeepsTasks(w: World, step: Step)
    requires TasksAreWork(w) && Enabled(w, step)
    ensures TasksAreWork(Next(w, step))
  {
    var v := Next(w, step);
    forall key | key in v.reg.tasks
      ensures Holds(PhaseOf(v, key.1), key.0)
    {
      if key in w.reg.tasks {
        assert Holds(PhaseOf(w, key.1), key.0);
      }
    }
  }

  lemma {:induction false} NoTaskIsLeftBehind(run: seq<Turn>, k: nat)
    requires IsRun(run) && k < |run|
    ensures TasksAreWork(run[k].before)
  {
    if k > 0 {
      NoTaskIsLeftBehind(run, k - 1);
      StepKeepsTasks(run[k - 1].before, run[k - 1].step);
    }
  }

  /** A task is only ever interrupted by a close whose page the browser has confirmed destroyed and whose record
      has been removed. */
  lemma InterruptsFollowRemoval(run: seq<Turn>, k: nat)
    requires IsRun(run) && k < |run| && run[k].step.Interrupts?
    ensures var phase := PhaseOf(run[k].before, run[k].step.request);
            phase.page in run[k].before.confirmed && phase.page !in run[k].before.reg.tabs
  {
    RunsKeepInv(run, k);
  }

  /** The steps of a close, until the record is removed, leave every claim and every task entry alone, so a close
      that fails leaves the operation it meant to interrupt as it found it. */
  lemma ClosersKeepClaims(w: World, step: Step)
    requires Enabled(w, step)
    requires step.Reserves? || step.CloseFails? || step.BrowserConfirms? || step.Interrupts? || step.EndsClose? || step.RecordIsGone?
    ensures var v := Next(w, step);
            && v.reg.tasks == w.reg.tasks && v.reg.active == w.reg.active && v.reg.tabs.Keys == w.reg.tabs.Keys
            && forall p :: p in w.reg.tabs ==> v.reg.tabs[p] == w.reg.tabs[p].(closing := v.reg.tabs[p].closing)
  {
  }

  // ----- from the reservation to the end of a close

  ghost predicate Closes(phase: Phase, page: PageId) {
    (phase.Reserved? || phase.Confirmed? || phase.Unlisted?) && phase.page == page
  }

  lemma CloseGoesOn(w: World, step: Step, r: RequestId, page: PageId)
    requires Enabled(w, step) && Closes(PhaseOf(w, r), page) && PhaseOf(Next(w, step), r) != Outside
    ensures Closes(PhaseOf(Next(w, step), r), page) && PhaseOf(Next(w, step), r).running == PhaseOf(w, r).running
  {
    if ActsFor(step) != Some(r) {
      PhasesAfter(w, step, r);
    }
  }

  lemma HolderStays(w: World, step: Step, h: RequestId, page: PageId)
    requires Enabled(w, step) && Holds(PhaseOf(w, h), page) && step != Releases(h)
    ensures Holds(PhaseOf(Next(w, step), h), page) && PhaseOf(Next(w, step), h).task == PhaseOf(w, h).task
  {
    if ActsFor(step) != Some(h) {
      PhasesAfter(w, step, h);
    }
  }

  lemma ReleasedHolds(w: World, h: RequestId, page: PageId)
    requires Enabled(w, Releases(h))
    ensures !Holds(PhaseOf(Next(w, Releases(h)), h), page)
  {
  }

  lemma ClosingBlocks(w: World, r: RequestId, page: PageId)
    requires Inv(w) && Closes(PhaseOf(w, r), page)
    ensures page in w.reg.tabs ==> w.reg.tabs[page].closing.Some? && w.reg.tabs[page].closing.value.request == r
  {
  }

  lemma BlockedClaim(w: World, step: Step, r: RequestId, page: PageId)
    requires Enabled(w, step) && (step.ClaimsPage? || step.ClaimsActive?) && step.request != r
    requires page in w.reg.tabs ==> w.reg.tabs[page].closing.Some? && w.reg.tabs[page].closing.value.request == r
    ensures PhaseOf(Next(w, step), step.request).page != page
  {
  }

  lemma NobodyTakesAClosingPage(w: World, step: Step, r: RequestId, page: PageId, h: RequestId)
    requires Inv(w) && Enabled(w, step) && Closes(PhaseOf(w, r), page) && h != r
    requires !Holds(PhaseOf(w, h), page)
    ensures !Holds(PhaseOf(Next(w, step), h), page)
  {
    ClosingBlocks(w, r, page);
    if ActsFor(step) != Some(h) {
      PhasesAfter(w, step, h);
    } else if step.ClaimsPage? || step.ClaimsActive? {
      BlockedClaim(w, step, r, page);
    }
    hide Inv;
  }

  /** One step while r closes the page: h goes on holding it unless it releases it, and cannot take it up again. */
  lemma HolderStep(w: World, step: Step, r: RequestId, page: PageId, h: RequestId)
    requires Inv(w) && Enabled(w, step) && Closes(PhaseOf(w, r), page) && h != r
    ensures Holds(PhaseOf(Next(w, step), h), page) <==> Holds(PhaseOf(w, h), page) && step != Releases(h)
    ensures Holds(PhaseOf(Next(w, step), h), page) ==> PhaseOf(Next(w, step), h).task == PhaseOf(w, h).task
  {
    hide Inv, Enabled, Next;
    if !Holds(PhaseOf(w, h), page) {
      NobodyTakesAClosingPage(w, step, r, page, h);
    } else if step == Releases(h) {
      ReleasedHolds(w, h, page);
    } else {
      HolderStays(w, step, h, page);
    }
  }

  /** From turn j on, where r reserves the page, to turn k its close goes on. */
  ghost predicate IsClosing(run: seq<Turn>, j: nat, k: nat, r: RequestId, page: PageId) {
    && IsRun(run) && j < k < |run| && run[j].step.Reserves? && run[j].step.request == r && run[j].step.page == page
    && forall m :: j < m <= k ==> PhaseOf(run[m].before, r) != Outside
  }

  lemma TurnsFollow(run: seq<Turn>, k: nat)
    requires IsRun(run) && 0 < k < |run|
    ensures Enabled(run[k - 1].before, run[k - 1].step) && run[k].before == Next(run[k - 1].before, run[k - 1].step)
    ensures Inv(run[k - 1].before) && Inv(run[k].before)
  {
    RunsKeepInv(run, k - 1);
    RunsKeepInv(run, k);
  }

  lemma JustReserved(w: World, step: Step)
    requires Enabled(w, step) && step.Reserves?
    ensures Closes(PhaseOf(Next(w, step), step.request), step.page) && PhaseOf(w, step.request) == Outside
    ensures PhaseOf(Next(w, step), step.request).Reserved? && step.page in Next(w, step).reg.tabs
  {
  }

  lemma {:induction false} SameCloseLater(run: seq<Turn>, j: nat, k: nat, r: RequestId, page: PageId)
    requires IsClosing(run, j, k, r, page)
    ensures Closes(PhaseOf(run[k].before, r), page)
    ensures Closes(PhaseOf(run[j + 1].before, r), page)
    ensures PhaseOf(run[k].before, r).running == PhaseOf(run[j + 1].before, r).running
    decreases k
  {
    hide Next, Enabled, Inv, PhaseOf;
    TurnsFollow(run, k);
    if k == j + 1 {
      JustReserved(run[j].before, run[j].step);
    } else {
      SameCloseLater(run, j, k - 1, r, page);
      CloseGoesOn(run[k - 1].before, run[k - 1].step, r, page);
    }
  }

  /** What a close interrupts, exactly: it carries the asyncio task that worked on the page when it was reserved, and the
      request of that asyncio task still works on the page, destroyed or not, if and only if it has not released it since. A
      batch that has gone on to another page is interrupted there. */
  lemma {:induction false} InterruptedStillWorksIff(run: seq<Turn>, j: nat, k: nat, r: RequestId, page: PageId, h: RequestId)
    requires IsClosing(run, j, k, r, page) && Holds(PhaseOf(run[j].before, h), page)
    ensures Closes(PhaseOf(run[k].before, r), page)
    ensures PhaseOf(run[k].before, r).running == Some(PhaseOf(run[j].before, h).task)
    ensures Holds(PhaseOf(run[k].before, h), page) <==> forall m :: j <= m < k ==> run[m].step != Releases(h)
    ensures Holds(PhaseOf(run[k].before, h), page) ==> PhaseOf(run[k].before, h).task == PhaseOf(run[j].before, h).task
    decreases k
  {
    hide Next, Enabled, Inv, PhaseOf, Closes;
    TurnsFollow(run, k);
    if k == j + 1 {
      ReservedHolder(run[j].before, run[j].step, h);
    } else {
      InterruptedStillWorksIff(run, j, k - 1, r, page, h);
      OthersHold(run, j, k, r, page, h);
      SameCloseLater(run, j, k, r, page);
      SameCloseLater(run, j, k - 1, r, page);
      HolderStep(run[k - 1].before, run[k - 1].step, r, page, h);
    }
  }

  lemma TheHoldersTaskIsInterrupted(run: seq<Turn>, j: nat, k: nat, r: RequestId, page: PageId, h: RequestId)
    requires IsClosing(run, j, k, r, page) && Holds(PhaseOf(run[j].before, h), page) && run[k].step == Interrupts(r)
    ensures (PhaseOf(run[j].before, h).task, page) in Next(run[k].before, run[k].step).interrupted
  {
    InterruptedStillWorksIff(run, j, k, r, page, h);
    assert Enabled(run[k].before, Interrupts(r));
  }

  lemma ReservedHolder(w: World, step: Step, h: RequestId)
    requires Inv(w) && Enabled(w, step) && step.Reserves? && Holds(PhaseOf(w, h), step.page)
    ensures var next := Next(w, step);
            && PhaseOf(next, step.request) == Reserved(step.page, Some(PhaseOf(w, h).task))
            && Closes(PhaseOf(next, step.request), step.page)
            && Holds(PhaseOf(next, h), step.page) && PhaseOf(next, h).task == PhaseOf(w, h).task
  {
    HolderStays(w, step, h, step.page);
    hide Next, Inv;
  }

  lemma OthersHold(run: seq<Turn>, j: nat, k: nat, r: RequestId, page: PageId, h: RequestId)
    requires IsClosing(run, j, k, r, page) && Holds(PhaseOf(run[j].before, h), page)
    ensures h != r
  {
    hide Next, Inv;
    TurnsFollow(run, j + 1);
    JustReserved(run[j].before, run[j].step);
  }

  lemma ReservedStaysListed(w: World, step: Step, r: RequestId, page: PageId)
    requires Inv(w) && Enabled(w, step) && step != ClearsAll && page in w.reg.tabs
    requires PhaseOf(w, r).Reserved? && PhaseOf(w, r).page == page
    ensures page in Next(w, step).reg.tabs
  {
    ClosingBlocks(w, r, page);
    if step.RemovesRecord? {
      ClosingBlocks(w, step.request, PhaseOf(w, step.request).page);
    }
    hide Inv;
  }

  lemma ReservedBefore(w: World, step: Step, r: RequestId, page: PageId)
    requires Enabled(w, step) && Closes(PhaseOf(w, r), page) && PhaseOf(Next(w, step), r).Reserved?
    ensures PhaseOf(w, r).Reserved?
  {
    if ActsFor(step) != Some(r) {
      PhasesAfter(w, step, r);
    }
  }

  lemma UnlistedForGood(w: World, step: Step, page: PageId)
    requires Enabled(w, step) && page in w.seen && (page !in w.reg.tabs || step == ClearsAll)
    ensures page !in Next(w, step).reg.tabs
  {
  }

  /** Until the browser has destroyed it, a page that is being closed stays listed unless the registry is cleared. */
  lemma {:induction false} ListedUnlessCleared(run: seq<Turn>, j: nat, k: nat, r: RequestId, page: PageId)
    requires IsClosing(run, j, k, r, page) && PhaseOf(run[k].before, r).Reserved?
    ensures page in run[k].before.reg.tabs <==> forall m :: j <= m < k ==> run[m].step != ClearsAll
    decreases k
  {
    hide Next, Enabled, Inv, PhaseOf;
    TurnsFollow(run, k);
    if k == j + 1 {
      JustReserved(run[j].before, run[j].step);
    } else {
      var turn := run[k - 1];
      SameCloseLater(run, j, k - 1, r, page);
      ReservedBefore(turn.before, turn.step, r, page);
      ListedUnlessCleared(run, j, k - 1, r, page);
      if turn.step != ClearsAll && page in turn.before.reg.tabs {
        ReservedStaysListed(turn.before, turn.step, r, page);
      } else {
        ClosedIsSeen(turn.before, r, page);
        UnlistedForGood(turn.before, turn.step, page);
      }
    }
  }

  lemma ClosedIsSeen(w: World, r: RequestId, page: PageId)
    requires Inv(w) && Closes(PhaseOf(w, r), page)
    ensures page in w.seen
  {
  }

  lemma FailedCloseStep(w: World, r: RequestId, page: PageId, h: RequestId)
    requires Inv(w) && Enabled(w, CloseFails(r)) && PhaseOf(w, r).page == page && Holds(PhaseOf(w, h), page)
    ensures var next := Next(w, CloseFails(r));
            && Holds(PhaseOf(next, h), page)
            && (page, h) in next.reg.tasks && next.reg.tasks[(page, h)] == PhaseOf(w, h).task
            && (page in next.reg.tabs <==> page in w.reg.tabs)
            && (page in next.reg.tabs ==> next.reg.tabs[page].closing == None && next.reg.tabs[page].busy.Some?
                                          && next.reg.tabs[page].busy.value.request == h)
  {
    ClosingBlocks(w, r, page);
    assert NamedHolder(w, h);
    HolderStays(w, CloseFails(r), h, page);
    hide Inv;
  }

  /** A close that fails, whatever else happens meanwhile, leaves the operation it meant to interrupt in place: if its
      request has not released the page, it still holds it and is named in the table of tasks. The page is still listed,
      with that request named in its record, if and only if nobody has cleared the registry in between. */
  lemma FailedCloseLeavesTheHolder(run: seq<Turn>, j: nat, k: nat, r: RequestId, page: PageId, h: RequestId)
    requires IsClosing(run, j, k, r, page) && run[k].step == CloseFails(r) && Holds(PhaseOf(run[j].before, h), page)
    requires forall m :: j <= m < k ==> run[m].step != Releases(h)
    ensures var w := Next(run[k].before, run[k].step);
            && Holds(PhaseOf(w, h), page)
            && (page, h) in w.reg.tasks && w.reg.tasks[(page, h)] == PhaseOf(run[j].before, h).task
            && (page in w.reg.tabs <==> forall m :: j <= m < k ==> run[m].step != ClearsAll)
            && (page in w.reg.tabs ==> w.reg.tabs[page].closing == None && w.reg.tabs[page].busy.Some?
                                       && w.reg.tabs[page].busy.value.request == h)
  {
    hide Next, Inv, PhaseOf;
    assert Enabled(run[k].before, CloseFails(r));
    InterruptedStillWorksIff(run, j, k, r, page, h);
    ListedUnlessCleared(run, j, k, r, page);
    TurnsFollow(run, k);
    FailedCloseStep(run[k].before, r, page, h);
  }

  // ----- a run of each kind

  const PAGE := "p1"
  const HOLDER := "h"
  const CLOSER := "c"
  const AGENT := "a"
  const WORK := Claim(HOLDER, "click", AGENT)
  const CLOSING := Claim(CLOSER, "close-tab", AGENT)

  ghost function Page(closing: Option<Claim>): Tab {
    Tab(AGENT, 1, "", "", Some(WORK), closing, None)
  }

  /** One page that the holder works on, and where the closer stands. */
  ghost function AtWork(closing: Option<Claim>, closer: Phase, confirmed: set<PageId>): World {
    World(Registry(map[PAGE := Page(closing)], map[AGENT := PAGE], map[(PAGE, HOLDER) := 7]),
          map[HOLDER := Operating(PAGE, 7), CLOSER := closer], confirmed, {PAGE}, {})
  }

  ghost function AfterRemoval(closer: Phase, interrupted: set<(Task, PageId)>): World {
    World(Registry(map[], map[], map[(PAGE, HOLDER) := 7]), map[HOLDER := Operating(PAGE, 7), CLOSER := closer], {PAGE}, {PAGE},
          interrupted)
  }

  lemma WorkBegins() returns (run: seq<Turn>, w: World)
    ensures IsRun(run) && |run| == 2 && w == Next(run[1].before, run[1].step)
    ensures w == World(Registry(map[PAGE := Page(None)], map[AGENT := PAGE], map[(PAGE, HOLDER) := 7]),
                       map[HOLDER := Operating(PAGE, 7)], {}, {PAGE}, {})
  {
    var empty := World(Registry(map[], map[], map[]), map[], {}, {}, {});
    var opens := OpensPage(PAGE, AGENT, "", "", 0);
    var listed := Next(empty, opens);
    var claims := ClaimsPage(HOLDER, PAGE, WORK, 7, 1);
    assert listed.reg.tabs[PAGE] == Tab(AGENT, 0, "", "", None, None, None);
    run := [Turn(empty, opens), Turn(listed, claims)];
    w := Next(listed, claims);
    assert w.reg.tabs == map[PAGE := Page(None)];
  }

  lemma Reservation(w: World)
    requires w == World(Registry(map[PAGE := Page(None)], map[AGENT := PAGE], map[(PAGE, HOLDER) := 7]),
                        map[HOLDER := Operating(PAGE, 7)], {}, {PAGE}, {})
    ensures Enabled(w, Reserves(CLOSER, PAGE, CLOSING))
    ensures Next(w, Reserves(CLOSER, PAGE, CLOSING)) == AtWork(Some(CLOSING), Reserved(PAGE, Some(7)), {})
  {
    var next := Next(w, Reserves(CLOSER, PAGE, CLOSING));
    assert next.reg.tabs == map[PAGE := Page(Some(CLOSING))];
  }

  lemma Confirmation()
    ensures var w, step := AtWork(Some(CLOSING), Reserved(PAGE, Some(7)), {}), BrowserConfirms(CLOSER);
            Enabled(w, step) && Next(w, step) == AtWork(Some(CLOSING), Confirmed(PAGE, Some(7)), {PAGE})
    ensures var w, step := AtWork(Some(CLOSING), Reserved(PAGE, Some(7)), {}), CloseFails(CLOSER);
            Enabled(w, step) && Next(w, step) == AtWork(None, Outside, {})
  {
    var w := AtWork(Some(CLOSING), Reserved(PAGE, Some(7)), {});
    assert Next(w, BrowserConfirms(CLOSER)).phases == AtWork(Some(CLOSING), Confirmed(PAGE, Some(7)), {PAGE}).phases;
    assert Next(w, CloseFails(CLOSER)).reg.tabs == map[PAGE := Page(None)];
  }

  lemma Removal()
    ensures var w, step := AtWork(Some(CLOSING), Confirmed(PAGE, Some(7)), {PAGE}), RemovesRecord(CLOSER, AGENT, None);
            Enabled(w, step) && Next(w, step) == AfterRemoval(Unlisted(PAGE, Some(7)), {})
  {
    var w := AtWork(Some(CLOSING), Confirmed(PAGE, Some(7)), {PAGE});
    var step := RemovesRecord(CLOSER, AGENT, None);
    assert Next(w, step).reg.tabs == map[] && Next(w, step).reg.active == map[];
  }

  lemma Interruption()
    ensures var w, step := AfterRemoval(Unlisted(PAGE, Some(7)), {}), Interrupts(CLOSER);
            Enabled(w, step) && Next(w, step) == AfterRemoval(Unlisted(PAGE, Some(7)), {(7, PAGE)})
    ensures var w, step := AfterRemoval(Unlisted(PAGE, Some(7)), {(7, PAGE)}), EndsClose(CLOSER);
            Enabled(w, step) && Next(w, step) == AfterRemoval(Outside, {(7, PAGE)})
  {
  }

  lemma OneMoreTurn(run: seq<Turn>, w: World, step: Step)
    requires IsRun(run) && run != [] && w == Next(run[|run| - 1].before, run[|run| - 1].step) && Enabled(w, step)
    ensures IsRun(run + [Turn(w, step)])
  {
    hide Next, Enabled;
  }

  lemma AClosingBegins() returns (run: seq<Turn>)
    ensures IsRun(run) && run != []
    ensures Next(run[|run| - 1].before, run[|run| - 1].step) == AtWork(Some(CLOSING), Reserved(PAGE, Some(7)), {})
  {
    var w;
    run, w := WorkBegins();
    Reservation(w);
    hide Enabled, Next, IsRun;
    OneMoreTurn(run, w, Reserves(CLOSER, PAGE, CLOSING));
    run := run + [Turn(w, Reserves(CLOSER, PAGE, CLOSING))];
  }

  /** A page that somebody works on can be closed by another request of its agent: a run on which that happens, and the work
      is interrupted; and one on which the browser refuses and the work goes on. */
  lemma AClosingRun() returns (closed: seq<Turn>, failed: seq<Turn>)
    ensures IsRun(closed) && closed != [] && Next(closed[|closed| - 1].before, closed[|closed| - 1].step) == AfterRemoval(Outside, {(7, PAGE)})
    ensures IsRun(failed) && failed != [] && Next(failed[|failed| - 1].before, failed[|failed| - 1].step) == AtWork(None, Outside, {})
  {
    closed := AClosingBegins();
    Confirmation();
    Removal();
    Interruption();
    hide Enabled, Next, AtWork, AfterRemoval, IsRun;
    var reserved, confirmed := AtWork(Some(CLOSING), Reserved(PAGE, Some(7)), {}), AtWork(Some(CLOSING), Confirmed(PAGE, Some(7)), {PAGE});
    var unlisted, interrupted := AfterRemoval(Unlisted(PAGE, Some(7)), {}), AfterRemoval(Unlisted(PAGE, Some(7)), {(7, PAGE)});
    OneMoreTurn(closed, reserved, CloseFails(CLOSER));
    failed := closed + [Turn(reserved, CloseFails(CLOSER))];
    OneMoreTurn(closed, reserved, BrowserConfirms(CLOSER));
    closed := closed + [Turn(reserved, BrowserConfirms(CLOSER))];
    OneMoreTurn(closed, confirmed, RemovesRecord(CLOSER, AGENT, None));
    closed := closed + [Turn(confirmed, RemovesRecord(CLOSER, AGENT, None))];
    OneMoreTurn(closed, unlisted, Interrupts(CLOSER));
    closed := closed + [Turn(unlisted, Interrupts(CLOSER))];
    OneMoreTurn(closed, interrupted, EndsClose(CLOSER));
    closed := closed + [Turn(interrupted, EndsClose(CLOSER))];
  }
}
