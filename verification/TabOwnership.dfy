/** What agents can do to one another's pages, over any interleaving of their requests with one another, with the steps of
    a change of driver, which goes through everybody's pages, and with rebuilds of the workspace, which clear the registry
    (tabs/registry.py:52-328, daemon/browser_service.py:178-197, 379-387, 1046-1116). Every request belongs to one agent,
    and new pages have new ids. */
module TabOwnership {
  import opened Options
  import PageClosing
  import opened TabRegistries

  datatype Operation =
      Adds(page: PageId, url: string, title: string, now: int)
    | ClaimsActive(command: string, task: Task, now: int)
    | Claims(page: PageId, command: string, task: Task, now: int)
    | Activates(page: PageId, now: int)
    | Updates(page: PageId, refresh: Refresh, now: int)
    | BeginsClose(page: PageId)
    | EndsClose(page: PageId)
    | Removes(page: PageId, latest: Option<PageId>)
    | Releases(page: PageId)

  datatype Turn = Turn(request: RequestId, operation: Operation)

  type Agents = RequestId -> Agent

  /** A page is added under a new id, and refreshed by its owner if it is listed. */
  ghost predicate Enabled(s: Registry, agents: Agents, turn: Turn) {
    match turn.operation
    case Adds(page, _, _, _) => page !in s.tabs
    case Updates(page, _, _) => page in s.tabs ==> s.tabs[page].owner == agents(turn.request)
    case Removes(page, latest) =>
      Owns(s, agents(turn.request), page) ==> IsLatest(WithoutTab(s, page), agents(turn.request), latest)
    case _ => true
  }

  ghost function Next(s: Registry, agents: Agents, turn: Turn): Registry {
    var r, agent := turn.request, agents(turn.request);
    match turn.operation
    case Adds(page, url, title, now) => Added(s, page, agent, url, title, now)
    case ClaimsActive(command, task, now) => ClaimedActive(s, Claim(r, command, agent), task, now).0
    case Claims(page, command, task, now) => ClaimedPage(s, page, Claim(r, command, agent), task, now).0
    case Activates(page, now) => Activated(s, agent, page, now).0
    case Updates(page, refresh, now) => Updated(s, page, refresh, now).0
    case BeginsClose(page) => CloseBegun(s, page, Claim(r, "close-tab", agent)).0
    case EndsClose(page) => CloseEnded(s, page, r)
    case Removes(page, latest) => Removed(s, agent, page, latest).0
    case Releases(page) => Released(s, page, r)
  }

  /** A page is held and closed only by requests of its own agent. */
  ghost predicate HeldByOwner(t: Tab, agents: Agents) {
    && (t.busy.Some? ==> agents(t.busy.value.request) == t.owner)
    && (t.closing.Some? ==> agents(t.closing.value.request) == t.owner)
  }

  ghost predicate Inv(s: Registry, agents: Agents) {
    ActiveIsOwned(s) && forall p :: p in s.tabs ==> HeldByOwner(s.tabs[p], agents)
  }

  /** Everything but one record, and that one but for its owner, is as before. */
  ghost predicate OnlyRecordChanges(s: Registry, t: Registry, page: PageId) {
    && page in s.tabs && s.tabs.Keys == t.tabs.Keys && s.active == t.active && s.tabs[page].owner == t.tabs[page].owner
    && forall p :: p in s.tabs && p != page ==> s.tabs[p] == t.tabs[p]
  }

  lemma OneRecordIsNobodyElses(s: Registry, t: Registry, page: PageId)
    requires ActiveIsOwned(s) && OnlyRecordChanges(s, t, page)
    ensures ActiveIsOwned(t) && forall b :: b != s.tabs[page].owner ==> UntouchedFor(s, t, b)
  {
    forall a | a in t.active
      ensures Owns(t, a, t.active[a])
    {
      assert Owns(s, a, s.active[a]);
    }
  }

  lemma SameTabs(s: Registry, t: Registry)
    requires ActiveIsOwned(s) && s.tabs == t.tabs && s.active == t.active
    ensures ActiveIsOwned(t) && forall b :: UntouchedFor(s, t, b)
  {
    forall a | a in t.active
      ensures Owns(t, a, t.active[a])
    {
      assert Owns(s, a, s.active[a]);
    }
  }

  /** One operation touches only the acting agent's pages and active page; where it goes by request instead of by agent
      (a release, the end of a close) the claims say whose page it is. */
  lemma OperationTouchesOwnPagesOnly(s: Registry, agents: Agents, turn: Turn)
    requires Inv(s, agents) && Enabled(s, agents, turn)
    ensures ActiveIsOwned(Next(s, agents, turn))
    ensures forall b :: b != agents(turn.request) ==> UntouchedFor(s, Next(s, agents, turn), b)
  {
    hide ActiveIsOwned, UntouchedFor, IsLatest;
    var r, agent, t := turn.request, agents(turn.request), Next(s, agents, turn);
    match turn.operation
    case Adds(page, url, title, now) => AddOwnership(s, page, agent, url, title, now);
    case ClaimsActive(command, task, now) =>
      if agent in s.active && Owns(s, agent, s.active[agent]) {
        TakeOwnership(s, s.active[agent], Claim(r, command, agent), task, now);
      }
      hide Take;
      if t == s { SameTabs(s, s); }
    case Claims(page, command, task, now) =>
      if Owns(s, agent, page) {
        TakeOwnership(s, page, Claim(r, command, agent), task, now);
      }
      hide Take;
      if t == s { SameTabs(s, s); }
    case Activates(page, now) => ActivateOwnership(s, agent, page, now);
    case Updates(page, refresh, now) => UpdateTouches(s, page, refresh, now);
    case BeginsClose(page) => CloseOwnership(s, page, Claim(r, "close-tab", agent));
    case EndsClose(page) => EndCloseTouches(s, agents, page, r);
    case Removes(page, latest) => RemoveOwnership(s, agent, page, latest);
    case Releases(page) => ReleaseTouches(s, agents, page, r);
  }

  lemma UpdateTouches(s: Registry, page: PageId, refresh: Refresh, now: int)
    requires ActiveIsOwned(s)
    ensures var t := Updated(s, page, refresh, now).0;
            ActiveIsOwned(t) && forall b :: (page in s.tabs ==> b != s.tabs[page].owner) ==> UntouchedFor(s, t, b)
  {
    hide ActiveIsOwned, UntouchedFor;
    var t := Updated(s, page, refresh, now).0;
    if page in s.tabs && s.tabs[page].closing.None? {
      OneRecordIsNobodyElses(s, t, page);
    } else {
      SameTabs(s, s);
    }
  }

  lemma EndCloseTouches(s: Registry, agents: Agents, page: PageId, r: RequestId)
    requires Inv(s, agents)
    ensures var t := CloseEnded(s, page, r);
            ActiveIsOwned(t) && forall b :: b != agents(r) ==> UntouchedFor(s, t, b)
  {
    hide ActiveIsOwned, UntouchedFor;
    var t := CloseEnded(s, page, r);
    if page in s.tabs && s.tabs[page].closing.Some? && s.tabs[page].closing.value.request == r {
      assert HeldByOwner(s.tabs[page], agents);
      OneRecordIsNobodyElses(s, t, page);
    } else {
      SameTabs(s, s);
    }
  }

  lemma ReleaseTouches(s: Registry, agents: Agents, page: PageId, r: RequestId)
    requires Inv(s, agents)
    ensures var t := Released(s, page, r);
            ActiveIsOwned(t) && forall b :: b != agents(r) ==> UntouchedFor(s, t, b)
  {
    hide ActiveIsOwned, UntouchedFor;
    var t := Released(s, page, r);
    if page in s.tabs && s.tabs[page].busy.Some? && s.tabs[page].busy.value.request == r {
      assert HeldByOwner(s.tabs[page], agents);
      OneRecordIsNobodyElses(s, t, page);
    } else {
      SameTabs(s, t);
    }
  }

  lemma TakeKeepsHolder(s: Registry, agents: Agents, page: PageId, claim: Claim, task: Task, now: int, p: PageId)
    requires page in s.tabs && s.tabs[page].owner == agents(claim.request)
    requires p in s.tabs && HeldByOwner(s.tabs[p], agents)
    ensures var t := Take(s, page, claim, task, now).0;
            p in t.tabs && HeldByOwner(t.tabs[p], agents)
  {
  }

  lemma HolderStep(s: Registry, agents: Agents, turn: Turn, p: PageId)
    requires Enabled(s, agents, turn) && p in Next(s, agents, turn).tabs
    requires p in s.tabs ==> HeldByOwner(s.tabs[p], agents)
    ensures HeldByOwner(Next(s, agents, turn).tabs[p], agents)
  {
    hide IsLatest, Take, HeldByOwner;
    var r, agent := turn.request, agents(turn.request);
    match turn.operation
    case Adds(page, url, title, now) => if p == page { NewTabIsHeld(agent, now, url, title, agents); }
    case ClaimsActive(command, task, now) =>
      if agent in s.active && Owns(s, agent, s.active[agent]) {
        TakeKeepsKeys(s, s.active[agent], Claim(r, command, agent), task, now);
        TakeKeepsHolder(s, agents, s.active[agent], Claim(r, command, agent), task, now, p);
      }
    case Claims(page, command, task, now) =>
      if Owns(s, agent, page) {
        TakeKeepsKeys(s, page, Claim(r, command, agent), task, now);
        TakeKeepsHolder(s, agents, page, Claim(r, command, agent), task, now, p);
      }
    case Activates(_, _) => UseHolderStep(s, agents, turn, p);
    case Updates(_, _, _) => UseHolderStep(s, agents, turn, p);
    case Removes(_, _) => UseHolderStep(s, agents, turn, p);
    case BeginsClose(_) => CloseHolderStep(s, agents, turn, p);
    case EndsClose(_) => ReleaseHolderStep(s, agents, turn, p);
    case Releases(_) => ReleaseHolderStep(s, agents, turn, p);
  }

  lemma TakeKeepsKeys(s: Registry, page: PageId, claim: Claim, task: Task, now: int)
    requires page in s.tabs
    ensures Take(s, page, claim, task, now).0.tabs.Keys == s.tabs.Keys
  {
  }

  lemma NewTabIsHeld(agent: Agent, now: int, url: string, title: string, agents: Agents)
    ensures HeldByOwner(Tab(agent, now, url, title, None, None, None), agents)
  {
  }

  lemma UseHolderStep(s: Registry, agents: Agents, turn: Turn, p: PageId)
    requires p in Next(s, agents, turn).tabs && (turn.operation.Activates? || turn.operation.Updates? || turn.operation.Removes?)
    requires p in s.tabs ==> HeldByOwner(s.tabs[p], agents)
    ensures HeldByOwner(Next(s, agents, turn).tabs[p], agents)
  {
  }

  lemma CloseHolderStep(s: Registry, agents: Agents, turn: Turn, p: PageId)
    requires p in Next(s, agents, turn).tabs && turn.operation.BeginsClose?
    requires p in s.tabs ==> HeldByOwner(s.tabs[p], agents)
    ensures HeldByOwner(Next(s, agents, turn).tabs[p], agents)
  {
  }

  lemma ReleaseHolderStep(s: Registry, agents: Agents, turn: Turn, p: PageId)
    requires p in Next(s, agents, turn).tabs && (turn.operation.EndsClose? || turn.operation.Releases?)
    requires p in s.tabs ==> HeldByOwner(s.tabs[p], agents)
    ensures HeldByOwner(Next(s, agents, turn).tabs[p], agents)
  {
  }

  lemma OperationKeepsHolders(s: Registry, agents: Agents, turn: Turn)
    requires Inv(s, agents) && Enabled(s, agents, turn)
    ensures forall p :: p in Next(s, agents, turn).tabs ==> HeldByOwner(Next(s, agents, turn).tabs[p], agents)
  {
    hide ActiveIsOwned, IsLatest, Next, Enabled;
    forall p | p in Next(s, agents, turn).tabs
      ensures HeldByOwner(Next(s, agents, turn).tabs[p], agents)
    {
      HolderStep(s, agents, turn, p);
    }
  }

  // ----- requests and changes of driver

  /** A change of driver reads pages and active pages first. It then replaces the driver and forgets all snapshots, opens
      every page again, refreshes their records, and last sets the active pages it has read. */
  datatype Rebind =
      Idle
    | Replacing(pages: set<PageId>, active: map<Agent, PageId>)
    | Reopening(pages: set<PageId>, active: map<Agent, PageId>)
    | Refreshing(left: set<PageId>, active: map<Agent, PageId>)
    | Restoring(agents: set<Agent>, active: map<Agent, PageId>)

  /** `listed` is what each request that lists its agent's pages has found. */
  datatype World = World(base: PageClosing.World, rebind: Rebind, listed: map<RequestId, set<PageId>>)

  datatype Step =
      Acts(request: RequestId, step: PageClosing.Step)
    | Lists(request: RequestId)
    | Clears
    | SwitchBegins
    | DriverRuns
    | PagesAreOpen
    | Refreshes(page: PageId, refresh: Refresh, now: int)
    | AllRefreshed
    | Restores(agent: Agent, now: int)
    | SwitchEnds

  /** The operation on the registry that a step of a request is. */
  ghost function OperationOf(w: PageClosing.World, r: RequestId, step: PageClosing.Step): Option<Operation> {
    match step
    case OpensPage(page, _, url, title, now) => Some(Adds(page, url, title, now))
    case ClaimsPage(_, page, claim, task, now) => Some(Claims(page, claim.command, task, now))
    case ClaimsActive(_, claim, task, now) => Some(Operation.ClaimsActive(claim.command, task, now))
    case Updates(page, refresh, now) => Some(Operation.Updates(page, refresh, now))
    case Activates(_, page, now) => Some(Operation.Activates(page, now))
    case Reserves(_, page, _) => Some(BeginsClose(page))
    case RemovesRecord(_, _, latest) =>
      if PageClosing.PhaseOf(w, r) == PageClosing.Outside then None else Some(Removes(PageClosing.PhaseOf(w, r).page, latest))
    case Releases(_) =>
      if PageClosing.PhaseOf(w, r) == PageClosing.Outside then None else Some(Operation.Releases(PageClosing.PhaseOf(w, r).page))
    case CloseFails(_) => ReservationEnds(w, r)
    case RecordIsGone(_) => ReservationEnds(w, r)
    case EndsClose(_) => ReservationEnds(w, r)
    case PassesCheck(_) => None
    case BrowserConfirms(_) => None
    case Interrupts(_) => None
    case ClearsAll => None
  }

  ghost function ReservationEnds(w: PageClosing.World, r: RequestId): Option<Operation> {
    if PageClosing.PhaseOf(w, r) == PageClosing.Outside then None else Some(Operation.EndsClose(PageClosing.PhaseOf(w, r).page))
  }

  /** A request refreshes pages that it holds, between its two checks, and pages that it has found in its agent's list,
      whoever holds them by then (daemon/app.py:446-463). */
  ghost predicate MayRefresh(w: World, r: RequestId, page: PageId) {
    PageClosing.Holds(PageClosing.PhaseOf(w.base, r), page) || (r in w.listed && page in w.listed[r])
  }

  /** The step is one of this request, made in its agent's name. Clearing the registry is a step of its own. */
  ghost predicate IsStepOf(w: World, agents: Agents, r: RequestId, step: PageClosing.Step) {
    match step
    case OpensPage(_, agent, _, _, _) => agent == agents(r)
    case ClaimsPage(q, _, claim, _, _) => q == r && claim.agent == agents(r)
    case ClaimsActive(q, claim, _, _) => q == r && claim.agent == agents(r)
    case Updates(page, _, _) => MayRefresh(w, r, page)
    case Activates(agent, _, _) => agent == agents(r)
    case Reserves(q, _, claim) => q == r && claim == Claim(r, "close-tab", agents(r))
    case RemovesRecord(q, agent, latest) =>
      && q == r && agent == agents(r)
      && (PageClosing.PhaseOf(w.base, r) != PageClosing.Outside ==>
            IsLatest(WithoutTab(w.base.reg, PageClosing.PhaseOf(w.base, r).page), agent, latest))
    case ClearsAll => false
    case _ => step.request == r
  }

  ghost function PagesOf(s: Registry, agent: Agent): set<PageId> {
    set p | p in s.tabs && s.tabs[p].owner == agent
  }

  ghost predicate Possible(w: World, agents: Agents, step: Step) {
    match step
    case Acts(r, act) => PageClosing.Enabled(w.base, act) && IsStepOf(w, agents, r, act)
    case Lists(_) => true
    case Clears => true
    case SwitchBegins => w.rebind == Idle
    case DriverRuns => w.rebind.Replacing?
    case PagesAreOpen => w.rebind.Reopening?
    case Refreshes(page, _, _) => w.rebind.Refreshing? && page in w.rebind.left
    case AllRefreshed => w.rebind.Refreshing? && w.rebind.left == {}
    case Restores(agent, _) => w.rebind.Restoring? && agent in w.rebind.agents && agent in w.rebind.active
    case SwitchEnds => w.rebind != Idle
  }

  ghost function WithReg(w: World, reg: Registry, rebind: Rebind): World {
    World(PageClosing.World(reg, w.base.phases, w.base.confirmed, w.base.seen, w.base.interrupted), rebind, w.listed)
  }

  /** A change of driver can fail or be cancelled anywhere (`SwitchEnds`); it does when it refreshes a page that is gone or
      being closed, and goes on when it cannot activate one. */
  ghost function After(w: World, agents: Agents, step: Step): World
    requires Possible(w, agents, step)
  {
    var s := w.base.reg;
    match step
    case Acts(_, act) => World(PageClosing.Next(w.base, act), w.rebind, w.listed)
    case Lists(r) => World(w.base, w.rebind, w.listed[r := PagesOf(s, agents(r))])
    case Clears => World(PageClosing.Next(w.base, PageClosing.ClearsAll), w.rebind, w.listed)
    case SwitchBegins => World(w.base, Replacing(s.tabs.Keys, s.active), w.listed)
    case DriverRuns => WithReg(w, SnapshotsCleared(s), Reopening(w.rebind.pages, w.rebind.active))
    case PagesAreOpen => World(w.base, Refreshing(w.rebind.pages, w.rebind.active), w.listed)
    case Refreshes(page, refresh, now) =>
      var (t, answer) := Updated(s, page, refresh, now);
      WithReg(w, t, if answer == Done then Refreshing(w.rebind.left - {page}, w.rebind.active) else Idle)
    case AllRefreshed => World(w.base, Restoring(w.rebind.active.Keys, w.rebind.active), w.listed)
    case Restores(agent, now) =>
      WithReg(w, Activated(s, agent, w.rebind.active[agent], now).0, Restoring(w.rebind.agents - {agent}, w.rebind.active))
    case SwitchEnds => World(w.base, Idle, w.listed)
  }

  /** Ids are not used twice and owners do not change, so a page that was found in an agent's list is the agent's as long
      as it is listed. */
  ghost predicate ListingsHold(w: World, agents: Agents) {
    forall r, p :: ListingHolds(w, agents, r, p)
  }

  ghost predicate ListingHolds(w: World, agents: Agents, r: RequestId, page: PageId) {
    r in w.listed && page in w.listed[r] ==> page in w.base.seen && StillOwned(w.base.reg, page, agents(r))
  }

  ghost predicate StillOwned(s: Registry, page: PageId, agent: Agent) {
    page in s.tabs ==> s.tabs[page].owner == agent
  }

  ghost predicate Sound(w: World, agents: Agents) {
    PageClosing.Inv(w.base) && Inv(w.base.reg, agents) && ListingsHold(w, agents)
  }

  lemma OwnersStay(w: PageClosing.World, step: PageClosing.Step, page: PageId, agent: Agent)
    requires PageClosing.Enabled(w, step) && page in w.seen && StillOwned(w.reg, page, agent)
    ensures page in PageClosing.Next(w, step).seen && StillOwned(PageClosing.Next(w, step).reg, page, agent)
  {
  }

  lemma ListingsStay(w: World, agents: Agents, step: PageClosing.Step, next: World)
    requires ListingsHold(w, agents) && PageClosing.Enabled(w.base, step)
    requires next.base == PageClosing.Next(w.base, step) && next.listed == w.listed
    ensures ListingsHold(next, agents)
  {
    forall r, p
      ensures ListingHolds(next, agents, r, p)
    {
      hide PageClosing.Enabled, PageClosing.Next, StillOwned;
      assert ListingHolds(w, agents, r, p);
      if r in w.listed && p in w.listed[r] {
        OwnersStay(w.base, step, p, agents(r));
      }
    }
  }

  // ----- what a change of driver keeps

  /** Same pages with the same owners, holders and closers. */
  ghost predicate RecordsKept(s: Registry, t: Registry) {
    && s.tabs.Keys == t.tabs.Keys && s.tasks == t.tasks
    && forall p :: p in s.tabs ==> s.tabs[p].owner == t.tabs[p].owner && s.tabs[p].busy == t.tabs[p].busy
                                   && s.tabs[p].closing == t.tabs[p].closing
  }

  /** Whatever has happened since it began, every step of a change of driver (and every listing) keeps all pages, owners
      and claims, and none but `Restores` touches the active pages. */
  lemma SwitchStepsKeepRecords(w: World, agents: Agents, step: Step)
    requires Possible(w, agents, step) && !step.Acts? && !step.Clears?
    ensures RecordsKept(w.base.reg, After(w, agents, step).base.reg)
    ensures !step.Restores? ==> After(w, agents, step).base.reg.active == w.base.reg.active
    ensures step.DriverRuns? ==> forall p :: p in After(w, agents, step).base.reg.tabs ==>
                                               After(w, agents, step).base.reg.tabs[p].snapshotId == None
  {
    hide PageClosing.Enabled, IsStepOf;
    match step
    case DriverRuns =>
    case Refreshes(page, refresh, now) => RefreshKeepsRecords(w.base.reg, page, refresh, now);
    case Restores(agent, now) => ActivationKeepsRecords(w.base.reg, agent, w.rebind.active[agent], now);
    case _ => KeepsItself(w.base.reg);
    hide RecordsKept, Updated, Activated;
  }

  lemma KeepsItself(s: Registry)
    ensures RecordsKept(s, s)
  {
  }

  lemma RefreshKeepsRecords(s: Registry, page: PageId, refresh: Refresh, now: int)
    ensures RecordsKept(s, Updated(s, page, refresh, now).0) && Updated(s, page, refresh, now).0.active == s.active
  {
  }

  lemma ActivationKeepsRecords(s: Registry, agent: Agent, page: PageId, now: int)
    ensures RecordsKept(s, Activated(s, agent, page, now).0)
  {
  }

  /** `Restores` sets the active page that the change of driver has read at its beginning. It leaves the active pages as
      they are if and only if it cannot, or that page still is the active one. */
  lemma RestoreKeepsActiveIff(w: World, agents: Agents, agent: Agent, now: int)
    requires Possible(w, agents, Restores(agent, now))
    ensures var s, page := w.base.reg, w.rebind.active[agent];
            After(w, agents, Restores(agent, now)).base.reg.active == s.active
            <==> !Owns(s, agent, page) || s.tabs[page].closing.Some? || (agent in s.active && s.active[agent] == page)
  {
    hide PageClosing.Enabled, IsStepOf;
    var s, page := w.base.reg, w.rebind.active[agent];
    assert agent in s.active[agent := page] && s.active[agent := page][agent] == page;
    if agent in s.active && s.active[agent] == page {
      assert s.active[agent := page] == s.active;
    }
  }

  /** A change of driver gets over a page exactly if that is still listed and nobody closes it, and ends there otherwise. */
  lemma RefreshGoesOnIff(w: World, agents: Agents, page: PageId, refresh: Refresh, now: int)
    requires Possible(w, agents, Refreshes(page, refresh, now))
    ensures var s, rebind := w.base.reg, After(w, agents, Refreshes(page, refresh, now)).rebind;
            if page in s.tabs && s.tabs[page].closing.None?
            then rebind == Refreshing(w.rebind.left - {page}, w.rebind.active)
            else rebind == Idle && After(w, agents, Refreshes(page, refresh, now)).base.reg == s
  {
  }

  // ----- isolation

  /** Agent b has the same pages, held and closed by the same requests, and the same active page. */
  ghost predicate KeptFor(s: Registry, t: Registry, b: Agent) {
    && (forall p :: Owns(s, b, p) <==> Owns(t, b, p))
    && (forall p :: Owns(s, b, p) ==> s.tabs[p].busy == t.tabs[p].busy && s.tabs[p].closing == t.tabs[p].closing)
    && (b in s.active <==> b in t.active)
    && (b in s.active ==> s.active[b] == t.active[b])
  }

  ghost predicate OwnsNothing(s: Registry, b: Agent) {
    forall p :: !Owns(s, b, p)
  }

  lemma KeptBefore(s: Registry, t: Registry, u: Registry, b: Agent)
    requires KeptFor(s, t, b)
    ensures KeptFor(s, u, b) <==> KeptFor(t, u, b)
    ensures OwnsNothing(s, b) <==> OwnsNothing(t, b)
  {
  }

  lemma UntouchedBefore(s: Registry, t: Registry, u: Registry, b: Agent)
    requires UntouchedFor(s, t, b)
    ensures KeptFor(s, t, b) && (UntouchedFor(s, u, b) <==> UntouchedFor(t, u, b))
    ensures OwnsNothing(s, b) <==> OwnsNothing(t, b)
  {
  }

  /** The page that a change of driver has read as b's active page is still that, unless b does not own it any more. */
  ghost predicate ReadAgrees(w: World, b: Agent) {
    w.rebind != Idle && b in w.rebind.active && Owns(w.base.reg, b, w.rebind.active[b]) ==>
      b in w.base.reg.active && w.base.reg.active[b] == w.rebind.active[b]
  }

  /** What a request refreshes is its own agent's page: the records name the holders, and owners do not change. */
  lemma RefreshedIsOwned(w: World, agents: Agents, r: RequestId, page: PageId)
    requires Sound(w, agents) && MayRefresh(w, r, page)
    ensures StillOwned(w.base.reg, page, agents(r))
  {
    hide ActiveIsOwned;
    assert ListingHolds(w, agents, r, page);
    if PageClosing.Holds(PageClosing.PhaseOf(w.base, r), page) && page in w.base.reg.tabs {
      assert PageClosing.NamedHolder(w.base, r);
      assert HeldByOwner(w.base.reg.tabs[page], agents);
    }
  }

  lemma OperationHappens(w: World, agents: Agents, r: RequestId, step: PageClosing.Step)
    requires PageClosing.Enabled(w.base, step) && IsStepOf(w, agents, r, step)
    ensures match OperationOf(w.base, r, step)
            case None => PageClosing.Next(w.base, step).reg == w.base.reg
            case Some(operation) => PageClosing.Next(w.base, step).reg == Next(w.base.reg, agents, Turn(r, operation))
  {
    hide IsLatest, ClaimedPage, ClaimedActive, Activated, Updated, CloseBegun, CloseEnded, Removed, Released, Added, MayRefresh;
    if step.ClaimsPage? || step.ClaimsActive? {
      assert step.claim == Claim(r, step.claim.command, agents(r));
    }
  }

  /** A step of a request is the operation it is said to be, with all that an operation asks for. */
  lemma ActIsOperation(w: World, agents: Agents, r: RequestId, step: PageClosing.Step)
    requires Sound(w, agents) && PageClosing.Enabled(w.base, step) && IsStepOf(w, agents, r, step)
    ensures match OperationOf(w.base, r, step)
            case None => PageClosing.Next(w.base, step).reg == w.base.reg
            case Some(operation) => Enabled(w.base.reg, agents, Turn(r, operation))
                                    && PageClosing.Next(w.base, step).reg == Next(w.base.reg, agents, Turn(r, operation))
  {
    hide IsLatest, Next, PageClosing.Next, MayRefresh, Inv, ListingsHold;
    OperationHappens(w, agents, r, step);
    assert PageClosing.SeenAll(w.base);
    if step.Updates? {
      RefreshedIsOwned(w, agents, r, step.page);
    }
    hide PageClosing.Inv;
  }

  lemma ActStaysSound(w: World, agents: Agents, r: RequestId, step: PageClosing.Step)
    requires Sound(w, agents) && PageClosing.Enabled(w.base, step) && IsStepOf(w, agents, r, step)
    ensures PageClosing.Inv(PageClosing.Next(w.base, step)) && Inv(PageClosing.Next(w.base, step).reg, agents)
    ensures forall b :: b != agents(r) ==> UntouchedFor(w.base.reg, PageClosing.Next(w.base, step).reg, b)
  {
    hide IsStepOf, Next, Enabled, ActiveIsOwned, UntouchedFor, HeldByOwner, OperationOf, ListingsHold;
    hide PageClosing.Inv, PageClosing.Next, PageClosing.Enabled;
    PageClosing.StepKeepsInv(w.base, step);
    ActIsOperation(w, agents, r, step);
    match OperationOf(w.base, r, step)
    case None => SameTabs(w.base.reg, w.base.reg);
    case Some(operation) =>
      OperationTouchesOwnPagesOnly(w.base.reg, agents, Turn(r, operation));
      OperationKeepsHolders(w.base.reg, agents, Turn(r, operation));
  }

  lemma RecordsKeptStaysClosed(w: PageClosing.World, reg: Registry)
    requires PageClosing.Inv(w) && RecordsKept(w.reg, reg)
    ensures PageClosing.Inv(PageClosing.World(reg, w.phases, w.confirmed, w.seen, w.interrupted))
  {
    var next := PageClosing.World(reg, w.phases, w.confirmed, w.seen, w.interrupted);
    assert forall r :: PageClosing.PhaseOf(next, r) == PageClosing.PhaseOf(w, r);
    HoldersStayNamed(w, next);
    ClosersStayNamed(w, next);
    hide RecordsKept, PageClosing.HoldersAreNamed, PageClosing.NamesAreHolders, PageClosing.ClosersAreNamed,
         PageClosing.NamesAreClosers, PageClosing.ConfirmedIsReserved, PageClosing.UnlistedIsGone, PageClosing.SeenAll;
  }

  lemma HoldersStayNamed(w: PageClosing.World, next: PageClosing.World)
    requires PageClosing.Inv(w) && RecordsKept(w.reg, next.reg)
    requires next == PageClosing.World(next.reg, w.phases, w.confirmed, w.seen, w.interrupted)
    ensures PageClosing.SeenAll(next) && PageClosing.HoldersAreNamed(next) && PageClosing.NamesAreHolders(next)
  {
    assert forall r :: PageClosing.PhaseOf(next, r) == PageClosing.PhaseOf(w, r);
    forall r | PageClosing.PhaseOf(next, r).Operating? || PageClosing.PhaseOf(next, r).Passed?
      ensures PageClosing.NamedHolder(next, r)
    {
      assert PageClosing.NamedHolder(w, r);
    }
  }

  lemma ClosersStayNamed(w: PageClosing.World, next: PageClosing.World)
    requires PageClosing.Inv(w) && RecordsKept(w.reg, next.reg)
    requires next == PageClosing.World(next.reg, w.phases, w.confirmed, w.seen, w.interrupted)
    ensures PageClosing.ClosersAreNamed(next) && PageClosing.NamesAreClosers(next)
    ensures PageClosing.ConfirmedIsReserved(next) && PageClosing.UnlistedIsGone(next)
  {
    assert forall r :: PageClosing.PhaseOf(next, r) == PageClosing.PhaseOf(w, r);
    hide PageClosing.HoldersAreNamed, PageClosing.NamesAreHolders;
  }

  lemma RecordsKeptStaysOwned(s: Registry, t: Registry, agents: Agents)
    requires Inv(s, agents) && RecordsKept(s, t) && s.active == t.active
    ensures Inv(t, agents)
  {
    forall a | a in t.active
      ensures Owns(t, a, t.active[a])
    {
      assert Owns(s, a, s.active[a]);
    }
    forall p | p in t.tabs
      ensures HeldByOwner(t.tabs[p], agents)
    {
      assert HeldByOwner(s.tabs[p], agents);
    }
  }

  lemma RestoredStaysOwned(s: Registry, agents: Agents, agent: Agent, page: PageId, now: int)
    requires Inv(s, agents)
    ensures Inv(Activated(s, agent, page, now).0, agents)
  {
    var t := Activated(s, agent, page, now).0;
    ActivateOwnership(s, agent, page, now);
    forall p | p in t.tabs
      ensures HeldByOwner(t.tabs[p], agents)
    {
      assert HeldByOwner(s.tabs[p], agents);
    }
    hide ActiveIsOwned, UntouchedFor;
  }

  lemma RecordsKeptStaysListed(w: World, agents: Agents, next: World)
    requires ListingsHold(w, agents) && RecordsKept(w.base.reg, next.base.reg)
    requires next.base.seen == w.base.seen && next.listed == w.listed
    ensures ListingsHold(next, agents)
  {
    forall r, p
      ensures ListingHolds(next, agents, r, p)
    {
      assert ListingHolds(w, agents, r, p);
    }
  }

  lemma ListingStaysSound(w: World, agents: Agents, r: RequestId)
    requires Sound(w, agents)
    ensures Sound(After(w, agents, Lists(r)), agents)
  {
    var next := After(w, agents, Lists(r));
    assert PageClosing.SeenAll(w.base) && next.base == w.base;
    assert PageClosing.Inv(next.base) && Inv(next.base.reg, agents);
    hide PageClosing.Inv, Inv;
    forall q, p
      ensures ListingHolds(next, agents, q, p)
    {
      assert ListingHolds(w, agents, q, p);
    }
  }

  /** Clearing leaves everybody with nothing; whoever owned nothing keeps that. */
  lemma ClearingStaysSound(w: World, agents: Agents)
    requires Sound(w, agents)
    ensures var next := After(w, agents, Clears);
            && Sound(next, agents)
            && forall b :: OwnsNothing(next.base.reg, b) && ReadAgrees(next, b)
                           && (OwnsNothing(w.base.reg, b) ==> UntouchedFor(w.base.reg, next.base.reg, b))
  {
    PageClosing.StepKeepsInv(w.base, PageClosing.ClearsAll);
    ListingsStay(w, agents, PageClosing.ClearsAll, After(w, agents, Clears));
    hide PageClosing.Inv, ListingsHold;
    assert forall b :: b in w.base.reg.active ==> Owns(w.base.reg, b, w.base.reg.active[b]);
  }

  lemma SwitchStaysSound(w: World, agents: Agents, step: Step)
    requires Sound(w, agents) && Possible(w, agents, step) && !step.Acts? && !step.Lists? && !step.Clears?
    ensures Sound(After(w, agents, step), agents)
  {
    hide PageClosing.Inv, Inv, ListingsHold;
    var next := After(w, agents, step);
    SwitchStepsKeepRecords(w, agents, step);
    RecordsKeptStaysClosed(w.base, next.base.reg);
    assert next.base == PageClosing.World(next.base.reg, w.base.phases, w.base.confirmed, w.base.seen, w.base.interrupted);
    RecordsKeptStaysListed(w, agents, next);
    if step.Restores? {
      RestoredStaysOwned(w.base.reg, agents, step.agent, w.rebind.active[step.agent], step.now);
    } else {
      RecordsKeptStaysOwned(w.base.reg, next.base.reg, agents);
      hide After;
    }
    hide RecordsKept;
  }

  lemma StepStaysSound(w: World, agents: Agents, step: Step)
    requires Sound(w, agents) && Possible(w, agents, step)
    ensures Sound(After(w, agents, step), agents)
  {
    match step
    case Acts(r, act) =>
      ActStaysSound(w, agents, r, act);
      ListingsStay(w, agents, act, After(w, agents, step));
      hide PageClosing.Inv, PageClosing.Next, PageClosing.Enabled, IsStepOf, Inv, ListingsHold;
    case Lists(r) =>
      hide *;
      ListingStaysSound(w, agents, r);
    case Clears =>
      hide *;
      ClearingStaysSound(w, agents);
    case _ =>
      hide *;
      SwitchStaysSound(w, agents, step);
  }

  /** A step that is not b's own, nor clears the registry, keeps what b has, and what a change of driver has read for b
      stays true. */
  lemma QuietStep(w: World, agents: Agents, step: Step, b: Agent)
    requires Sound(w, agents) && Possible(w, agents, step) && ReadAgrees(w, b) && !step.Clears?
    requires step.Acts? ==> agents(step.request) != b
    ensures KeptFor(w.base.reg, After(w, agents, step).base.reg, b) && ReadAgrees(After(w, agents, step), b)
  {
    hide PageClosing.Inv, PageClosing.Next, PageClosing.Enabled, IsStepOf, Inv, ListingsHold, MayRefresh;
    var s, next := w.base.reg, After(w, agents, step);
    if step.Acts? {
      ActStaysSound(w, agents, step.request, step.step);
      UntouchedBefore(s, next.base.reg, s, b);
    } else {
      SwitchStepsKeepRecords(w, agents, step);
    }
    hide RecordsKept, UntouchedFor;
  }

  ghost function Run(w: World, agents: Agents, steps: seq<Step>): Option<World>
    decreases |steps|
  {
    if steps == [] then Some(w)
    else if Possible(w, agents, steps[0]) then Run(After(w, agents, steps[0]), agents, steps[1..])
    else None
  }

  ghost predicate IsQuiet(agents: Agents, steps: seq<Step>, b: Agent) {
    forall i :: 0 <= i < |steps| && steps[i].Acts? ==> agents(steps[i].request) != b
  }

  ghost predicate NothingClears(steps: seq<Step>) {
    forall i :: 0 <= i < |steps| ==> !steps[i].Clears?
  }

  ghost predicate NothingSwitches(steps: seq<Step>) {
    forall i :: 0 <= i < |steps| ==> steps[i].Acts? || steps[i].Lists? || steps[i].Clears?
  }

  lemma ShorterRun(agents: Agents, steps: seq<Step>, b: Agent)
    requires steps != [] && IsQuiet(agents, steps, b)
    ensures IsQuiet(agents, steps[1..], b)
    ensures NothingClears(steps) <==> !steps[0].Clears? && NothingClears(steps[1..])
    ensures NothingSwitches(steps) ==> NothingSwitches(steps[1..])
  {
    assert forall i :: 1 <= i < |steps| ==> steps[i] == steps[1..][i - 1];
  }

  /** Over any interleaving of requests by any agents with any changes of driver and any rebuilds of the workspace: active
      entries name existing pages of their own agents, and pages are held and closed by their owners only. An agent that
      does nothing finds its pages, its claims and its active page as it left them if and only if it had no page or the
      registry has not been cleared. */
  lemma {:induction false} AgentsAreIsolated(w: World, agents: Agents, steps: seq<Step>, b: Agent)
    requires Sound(w, agents) && Run(w, agents, steps).Some?
    ensures Sound(Run(w, agents, steps).value, agents)
    ensures ReadAgrees(w, b) && IsQuiet(agents, steps, b) ==>
              (KeptFor(w.base.reg, Run(w, agents, steps).value.base.reg, b) <==>
               OwnsNothing(w.base.reg, b) || NothingClears(steps))
    decreases |steps|
  {
    hide PageClosing.Inv, Inv, ListingsHold, KeptFor, ReadAgrees, UntouchedFor, Possible, OwnsNothing, IsQuiet, NothingClears;
    if steps == [] {
      KeptItself(w.base.reg, b);
      assert NothingClears(steps) by { hide *; NothingIsCleared(); }
    } else {
      var s, next, last := w.base.reg, After(w, agents, steps[0]), Run(w, agents, steps).value.base.reg;
      StepStaysSound(w, agents, steps[0]);
      AgentsAreIsolated(next, agents, steps[1..], b);
      if ReadAgrees(w, b) && IsQuiet(agents, steps, b) {
        ShorterRun(agents, steps, b);
        if steps[0].Clears? {
          ClearingStaysSound(w, agents);
          AfterClearing(s, next.base.reg, last, b);
        } else {
          FirstIsQuiet(agents, steps, b);
          QuietStep(w, agents, steps[0], b);
          KeptBefore(s, next.base.reg, last, b);
        }
      }
    }
  }

  lemma NothingIsCleared()
    ensures NothingClears([])
  {
  }

  lemma FirstIsQuiet(agents: Agents, steps: seq<Step>, b: Agent)
    requires steps != [] && IsQuiet(agents, steps, b)
    ensures steps[0].Acts? ==> agents(steps[0].request) != b
  {
  }

  lemma AfterClearing(s: Registry, t: Registry, u: Registry, b: Agent)
    requires OwnsNothing(t, b) && KeptFor(t, u, b) && (OwnsNothing(s, b) ==> UntouchedFor(s, t, b))
    ensures KeptFor(s, u, b) <==> OwnsNothing(s, b)
  {
  }

  /** As long as no change of driver comes in, even the addresses, titles, snapshots and times of use in the quiet agent's
      records stay as they are, under the same condition. */
  lemma {:induction false} QuietAgentsAreUntouched(w: World, agents: Agents, steps: seq<Step>, b: Agent)
    requires Sound(w, agents) && Run(w, agents, steps).Some? && IsQuiet(agents, steps, b) && NothingSwitches(steps)
    ensures UntouchedFor(w.base.reg, Run(w, agents, steps).value.base.reg, b)
            <==> OwnsNothing(w.base.reg, b) || NothingClears(steps)
    decreases |steps|
  {
    hide PageClosing.Inv, Inv, ListingsHold, KeptFor, ReadAgrees, UntouchedFor, OwnsNothing, IsQuiet, NothingClears;
    hide IsStepOf, PageClosing.Enabled, PageClosing.Next;
    if steps == [] {
      KeptItself(w.base.reg, b);
      assert NothingClears(steps) by { hide *; NothingIsCleared(); }
    } else {
      var s, next, last := w.base.reg, After(w, agents, steps[0]), Run(w, agents, steps).value.base.reg;
      StepStaysSound(w, agents, steps[0]);
      ShorterRun(agents, steps, b);
      FirstIsQuiet(agents, steps, b);
      QuietAgentsAreUntouched(next, agents, steps[1..], b);
      if steps[0].Clears? {
        ClearingStaysSound(w, agents);
        UntouchedAfterClearing(s, next.base.reg, last, b);
      } else {
        if steps[0].Acts? {
          ActStaysSound(w, agents, steps[0].request, steps[0].step);
        } else {
          KeptItself(s, b);
        }
        UntouchedBefore(s, next.base.reg, last, b);
      }
    }
  }

  lemma UntouchedAfterClearing(s: Registry, t: Registry, u: Registry, b: Agent)
    requires OwnsNothing(t, b) && UntouchedFor(t, u, b) && (OwnsNothing(s, b) ==> UntouchedFor(s, t, b))
    ensures UntouchedFor(s, u, b) <==> OwnsNothing(s, b)
  {
  }

  lemma KeptItself(s: Registry, b: Agent)
    ensures KeptFor(s, s, b) && UntouchedFor(s, s, b)
  {
  }

  // ----- an activation that is undone, and pages that are forgotten

  const EMPTY := World(PageClosing.World(Registry(map[], map[], map[]), map[], {}, {}, {}), Idle, map[])

  lemma OneMoreStep(w: World, agents: Agents, steps: seq<Step>, middle: World, step: Step)
    requires Run(w, agents, steps) == Some(middle) && Possible(middle, agents, step)
    ensures Run(w, agents, steps + [step]) == Some(After(middle, agents, step))
    decreases |steps|
  {
    if steps != [] {
      OneMoreStep(After(w, agents, steps[0]), agents, steps[1..], middle, step);
      assert (steps + [step])[1..] == steps[1..] + [step];
    } else {
      assert (steps + [step])[1..] == [];
      assert Run(After(w, agents, step), agents, []) == Some(After(w, agents, step));
    }
    hide After, Possible;
  }

  const TAB1 := "p1"
  const TAB2 := "p2"
  const SAME := Refresh(Some(""), Some(""), None)

  /** An agent's two pages, not in use, with this one active. */
  ghost function TwoPages(a: Agent, active: PageId, rebind: Rebind): World {
    var tab := Tab(a, 0, "", "", None, None, None);
    var reg := Registry(map[TAB1 := tab, TAB2 := tab], map[a := active], map[]);
    World(PageClosing.World(reg, map[], {}, {TAB1, TAB2}, {}), rebind, map[])
  }

  ghost function OnePage(a: Agent, rebind: Rebind): World {
    var tab := Tab(a, 0, "", "", None, None, None);
    World(PageClosing.World(Registry(map[TAB1 := tab], map[a := TAB1], map[]), map[], {}, {TAB1}, {}), rebind, map[])
  }

  lemma ASecondPageOpens(agents: Agents, r: RequestId) returns (steps: seq<Step>)
    ensures Run(EMPTY, agents, steps) == Some(TwoPages(agents(r), TAB2, Replacing({TAB1}, map[agents(r) := TAB1])))
  {
    var a := agents(r);
    var read := Replacing({TAB1}, map[a := TAB1]);
    var one := OnePage(a, Idle);
    steps := StartsWith(EMPTY, agents, Acts(r, PageClosing.OpensPage(TAB1, a, "", "", 0)), one);
    assert one.base.reg.tabs.Keys == {TAB1};
    steps := Continues(EMPTY, agents, steps, one, SwitchBegins, OnePage(a, read));
    var act := PageClosing.OpensPage(TAB2, a, "", "", 0);
    assert After(OnePage(a, read), agents, Acts(r, act)).base.seen == {TAB1, TAB2};
    steps := Continues(EMPTY, agents, steps, OnePage(a, read), Acts(r, act), TwoPages(a, TAB2, read));
  }

  lemma PagesAreRefreshed(agents: Agents, a: Agent, before: seq<Step>) returns (steps: seq<Step>)
    requires Run(EMPTY, agents, before) == Some(TwoPages(a, TAB2, Replacing({TAB1}, map[a := TAB1])))
    ensures steps == before + [DriverRuns, PagesAreOpen, Refreshes(TAB1, SAME, 0)]
    ensures Run(EMPTY, agents, steps) == Some(TwoPages(a, TAB2, Refreshing({}, map[a := TAB1])))
  {
    var read := map[a := TAB1];
    var w := TwoPages(a, TAB2, Replacing({TAB1}, read));
    assert SnapshotsCleared(w.base.reg).tabs == w.base.reg.tabs;
    steps := Continues(EMPTY, agents, before, w, DriverRuns, TwoPages(a, TAB2, Reopening({TAB1}, read)));
    w := TwoPages(a, TAB2, Refreshing({TAB1}, read));
    steps := Continues(EMPTY, agents, steps, TwoPages(a, TAB2, Reopening({TAB1}, read)), PagesAreOpen, w);
    assert Updated(w.base.reg, TAB1, SAME, 0).0.tabs == w.base.reg.tabs;
    assert {TAB1} - {TAB1} == {};
    steps := Continues(EMPTY, agents, steps, w, Refreshes(TAB1, SAME, 0), TwoPages(a, TAB2, Refreshing({}, read)));
  }

  lemma ActivePagesAreRestored(agents: Agents, a: Agent, before: seq<Step>) returns (steps: seq<Step>)
    requires Run(EMPTY, agents, before) == Some(TwoPages(a, TAB2, Refreshing({}, map[a := TAB1])))
    ensures steps == before + [AllRefreshed, Restores(a, 0), SwitchEnds]
    ensures Run(EMPTY, agents, steps) == Some(TwoPages(a, TAB1, Idle))
  {
    var read := map[a := TAB1];
    var w := TwoPages(a, TAB2, Restoring({a}, read));
    assert read.Keys == {a};
    steps := Continues(EMPTY, agents, before, TwoPages(a, TAB2, Refreshing({}, read)), AllRefreshed, w);
    assert Activated(w.base.reg, a, TAB1, 0).0.tabs == w.base.reg.tabs;
    assert Activated(w.base.reg, a, TAB1, 0).0.active == map[a := TAB1];
    assert {a} - {a} == {};
    steps := Continues(EMPTY, agents, steps, w, Restores(a, 0), TwoPages(a, TAB1, Restoring({}, read)));
    steps := Continues(EMPTY, agents, steps, TwoPages(a, TAB1, Restoring({}, read)), SwitchEnds, TwoPages(a, TAB1, Idle));
  }

  /** The condition fails on a run: an agent opens a second page while a change of driver is under way, and finds the first
      one active again when it is over. */
  lemma AChangeOfDriverCanUndoAnActivation(agents: Agents, r: RequestId) returns (before: seq<Step>, all: seq<Step>)
    ensures Run(EMPTY, agents, before) == Some(TwoPages(agents(r), TAB2, Replacing({TAB1}, map[agents(r) := TAB1])))
    ensures Run(EMPTY, agents, all) == Some(TwoPages(agents(r), TAB1, Idle))
    ensures before <= all && forall i :: |before| <= i < |all| ==> !all[i].Acts?
  {
    hide Run;
    before := ASecondPageOpens(agents, r);
    all := PagesAreRefreshed(agents, agents(r), before);
    all := ActivePagesAreRestored(agents, agents(r), all);
  }

  /** The other condition fails too: an agent opens a page, a rebuild of the workspace clears the registry, which any
      agent's next command may start, and without a step of its own the agent has neither page nor active page. */
  lemma ARebuildForgetsAnAgentsPage(agents: Agents, r: RequestId)
    ensures var opens := [Acts(r, PageClosing.OpensPage(TAB1, agents(r), "", "", 0))];
            && Run(EMPTY, agents, opens) == Some(OnePage(agents(r), Idle))
            && Run(EMPTY, agents, opens + [Clears]) == Some(NoPages({TAB1}))
  {
    var one := OnePage(agents(r), Idle);
    var opens := StartsWith(EMPTY, agents, Acts(r, PageClosing.OpensPage(TAB1, agents(r), "", "", 0)), one);
    var _ := Continues(EMPTY, agents, opens, one, Clears, NoPages({TAB1}));
  }

  ghost function NoPages(seen: set<PageId>): World {
    World(PageClosing.World(Registry(map[], map[], map[]), map[], {}, seen, {}), Idle, map[])
  }

  lemma StartsWith(w: World, agents: Agents, step: Step, expected: World) returns (steps: seq<Step>)
    requires Possible(w, agents, step) && After(w, agents, step) == expected
    ensures steps == [step] && Run(w, agents, steps) == Some(expected)
  {
    steps := [step];
    assert steps[1..] == [];
    assert Run(expected, agents, []) == Some(expected);
  }

  lemma Continues(w: World, agents: Agents, steps: seq<Step>, middle: World, step: Step, expected: World)
    returns (more: seq<Step>)
    requires Run(w, agents, steps) == Some(middle) && Possible(middle, agents, step) && After(middle, agents, step) == expected
    ensures more == steps + [step] && Run(w, agents, more) == Some(expected)
  {
    more := steps + [step];
    OneMoreStep(w, agents, steps, middle, step);
  }
}
