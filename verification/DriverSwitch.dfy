/** Replacing the browser driver under open pages (daemon/browser_service.py:1046-1116): its two loops over the registry,
    started in any state that other requests may have left, and the whole change when none of them comes in between.
    TabOwnership has its steps among those of other requests. */
module DriverSwitch {
  import opened Options
  import CommandDepth
  import Sets
  import StaleRefs
  import opened TabOwnership
  import opened TabRegistries

  type Driver = CommandDepth.Driver

  /** What the new driver makes of a page it is asked to open again. */
  datatype Reopened = Opened(url: string, title: string) | Failed

  /** Same pages with the same owners, holders and closers, and the same page active for each agent. */
  ghost predicate Conserved(s: Registry, t: Registry) {
    RecordsKept(s, t) && s.active == t.active
  }

  ghost predicate NoSnapshots(s: Registry) {
    forall p :: p in s.tabs ==> s.tabs[p].snapshotId == None
  }

  /** The page shows what the new driver opened. */
  ghost predicate Shows(s: Registry, page: PageId, opens: PageId -> Reopened) {
    page in s.tabs && opens(page).Opened? && s.tabs[page].url == opens(page).url && s.tabs[page].title == opens(page).title
  }

  function RefreshOf(page: Reopened): Refresh
    requires page.Opened?
  {
    Refresh(Some(page.url), Some(page.title), None)
  }

  method PagesInSomeOrder(tabs: TabRegistry) returns (pages: seq<PageId>)
    ensures forall p :: p in pages <==> p in tabs.tabs
  {
    pages := [];
    var rest := tabs.tabs.Keys;
    while rest != {}
      invariant rest <= tabs.tabs.Keys
      invariant forall p :: p in pages <==> p in tabs.tabs && p !in rest
      decreases rest
    {
      var page := Sets.Any(rest);
      pages := pages + [page];
      rest := rest - {page};
    }
  }

  method ReopenPages(pages: seq<PageId>, opens: PageId -> Reopened) returns (ok: bool)
    ensures ok <==> forall p :: p in pages ==> opens(p).Opened?
  {
    for i := 0 to |pages|
      invariant forall j :: 0 <= j < i ==> opens(pages[j]).Opened?
    {
      if opens(pages[i]).Failed? {
        return false;
      }
    }
    ok := true;
  }

  lemma UpdateConserves(s: Registry, page: PageId, refresh: Refresh, now: int)
    ensures Conserved(s, Updated(s, page, refresh, now).0)
    ensures NoSnapshots(s) && refresh.snapshotId.None? ==> NoSnapshots(Updated(s, page, refresh, now).0)
  {
  }

  lemma ConservedTwice(s: Registry, t: Registry, u: Registry)
    requires Conserved(s, t) && Conserved(t, u)
    ensures Conserved(s, u)
  {
  }

  /** The first page that is being closed stops the update, and with it the whole change of driver. */
  function UpdatedAll(s: Registry, pages: seq<PageId>, opens: PageId -> Reopened, now: int): (Registry, bool)
    requires forall p :: p in pages ==> opens(p).Opened?
    decreases |pages|
  {
    if pages == [] then (s, true)
    else
      var (next, answer) := Updated(s, pages[0], RefreshOf(opens(pages[0])), now);
      if answer != Done then (next, false) else UpdatedAll(next, pages[1..], opens, now)
  }

  lemma {:induction false} UpdatedAllConserves(s: Registry, pages: seq<PageId>, opens: PageId -> Reopened, now: int)
    requires forall p :: p in pages ==> opens(p).Opened?
    ensures var (t, ok) := UpdatedAll(s, pages, opens, now);
            && Conserved(s, t) && (NoSnapshots(s) ==> NoSnapshots(t))
            && (ok <==> forall p :: p in pages ==> p in s.tabs && s.tabs[p].closing.None?)
    decreases |pages|
  {
    if pages != [] {
      var page, next := pages[0], Updated(s, pages[0], RefreshOf(opens(pages[0])), now).0;
      UpdateConserves(s, page, RefreshOf(opens(page)), now);
      assert next.tabs.Keys == s.tabs.Keys;
      if page in s.tabs && s.tabs[page].closing.None? {
        UpdatedAllConserves(next, pages[1..], opens, now);
        ConservedTwice(s, next, UpdatedAll(s, pages, opens, now).0);
        assert forall p :: p in pages <==> p == page || p in pages[1..];
        hide Updated, NoSnapshots;
      }
    }
  }

  lemma {:induction false} UpdatedAllShows(s: Registry, pages: seq<PageId>, opens: PageId -> Reopened, now: int)
    requires forall p :: p in pages ==> opens(p).Opened?
    requires UpdatedAll(s, pages, opens, now).1
    ensures var t := UpdatedAll(s, pages, opens, now).0;
            forall p :: p in pages || Shows(s, p, opens) ==> Shows(t, p, opens)
    decreases |pages|
  {
    if pages != [] {
      var page, next := pages[0], Updated(s, pages[0], RefreshOf(opens(pages[0])), now).0;
      UpdatedAllShows(next, pages[1..], opens, now);
      assert forall p :: p in pages <==> p == page || p in pages[1..];
    }
  }

  method UpdatePages(tabs: TabRegistry, pages: seq<PageId>, opens: PageId -> Reopened, now: int) returns (ok: bool)
    requires forall p :: p in pages ==> opens(p).Opened?
    modifies tabs
    ensures (tabs.State(), ok) == UpdatedAll(old(tabs.State()), pages, opens, now)
  {
    for i := 0 to |pages|
      invariant UpdatedAll(old(tabs.State()), pages, opens, now) == UpdatedAll(tabs.State(), pages[i..], opens, now)
    {
      var answer := tabs.UpdateTab(pages[i], RefreshOf(opens(pages[i])), now);
      if answer != Done {
        return false;
      }
      assert pages[i..][1..] == pages[i + 1..];
    }
    ok := true;
  }

  /** Each agent's page is activated in turn. Errors are ignored here, as when the page is being closed. */
  function RestoredAll(s: Registry, agents: seq<Agent>, active: map<Agent, PageId>, now: int): Registry
    requires forall a :: a in agents ==> a in active
    decreases |agents|
  {
    if agents == [] then s
    else RestoredAll(Activated(s, agents[0], active[agents[0]], now).0, agents[1..], active, now)
  }

  /** The page can be activated for this agent, as things are now. */
  predicate CanActivate(s: Registry, agent: Agent, page: PageId) {
    Owns(s, agent, page) && s.tabs[page].closing.None?
  }

  lemma OneActivation(s: Registry, agent: Agent, page: PageId, now: int, opens: PageId -> Reopened)
    ensures var t := Activated(s, agent, page, now).0;
            && RecordsKept(s, t) && (NoSnapshots(s) ==> NoSnapshots(t))
            && t.active == (if CanActivate(s, agent, page) then s.active[agent := page] else s.active)
            && (forall a, p :: CanActivate(t, a, p) <==> CanActivate(s, a, p))
            && forall p :: Shows(s, p, opens) ==> Shows(t, p, opens)
  {
  }

  lemma RecordsKeptTwice(s: Registry, t: Registry, u: Registry)
    requires RecordsKept(s, t) && RecordsKept(t, u)
    ensures RecordsKept(s, u)
  {
  }

  /** Whatever the registry has become since the active pages were read, the loop keeps all records, and each agent ends up
      with the page that was read for it, if that can still be activated, and otherwise with the page it has. */
  lemma {:induction false} RestoredAllFacts(s: Registry, agents: seq<Agent>, active: map<Agent, PageId>, now: int,
                                            opens: PageId -> Reopened)
    requires forall a :: a in agents ==> a in active
    ensures var t := RestoredAll(s, agents, active, now);
            && RecordsKept(s, t) && (NoSnapshots(s) ==> NoSnapshots(t))
            && (forall p :: Shows(s, p, opens) ==> Shows(t, p, opens))
            && (forall a :: a in agents && CanActivate(s, a, active[a]) ==> a in t.active && t.active[a] == active[a])
            && (forall a :: !(a in agents && CanActivate(s, a, active[a])) ==>
                              (a in t.active <==> a in s.active) && (a in t.active ==> t.active[a] == s.active[a]))
    decreases |agents|
  {
    hide RecordsKept, NoSnapshots, Shows, CanActivate, Activated;
    if agents != [] {
      var agent := agents[0];
      var next := Activated(s, agent, active[agent], now).0;
      OneActivation(s, agent, active[agent], now, opens);
      RestoredAllFacts(next, agents[1..], active, now, opens);
      RecordsKeptTwice(s, next, RestoredAll(s, agents, active, now));
      assert forall a :: a in agents <==> a == agent || a in agents[1..];
    } else {
      KeepsItself(s);
    }
  }

  /** So the active pages stay as they are if and only if every page that was read and can be activated still is the active
      one: an agent that has moved on to another page in the meantime is set back. */
  lemma RestoringKeepsActiveIff(s: Registry, agents: seq<Agent>, active: map<Agent, PageId>, now: int)
    requires forall a :: a in agents ==> a in active
    ensures RestoredAll(s, agents, active, now).active == s.active
            <==> forall a :: a in agents && CanActivate(s, a, active[a]) ==> a in s.active && s.active[a] == active[a]
  {
    RestoredAllFacts(s, agents, active, now, _ => Failed);
    hide RestoredAll, CanActivate, RecordsKept;
  }

  method RestoreActivePages(tabs: TabRegistry, agents: seq<Agent>, active: map<Agent, PageId>, now: int)
    requires forall a :: a in agents ==> a in active
    modifies tabs
    ensures tabs.State() == RestoredAll(old(tabs.State()), agents, active, now)
  {
    for i := 0 to |agents|
      invariant RestoredAll(old(tabs.State()), agents, active, now) == RestoredAll(tabs.State(), agents[i..], active, now)
    {
      var _ := tabs.SetActiveTab(agents[i], active[agents[i]], now);
      assert agents[i..][1..] == agents[i + 1..];
    }
  }

  method AgentsInSomeOrder(active: map<Agent, PageId>) returns (agents: seq<Agent>)
    ensures forall a :: a in agents <==> a in active
  {
    agents := [];
    var rest := active.Keys;
    while rest != {}
      invariant rest <= active.Keys
      invariant forall a :: a in agents <==> a in active && a !in rest
      decreases rest
    {
      var agent := Sets.Any(rest);
      agents := agents + [agent];
      rest := rest - {agent};
    }
  }

  lemma ClearingConserves(s: Registry)
    ensures Conserved(s, SnapshotsCleared(s)) && NoSnapshots(SnapshotsCleared(s))
  {
  }

  /** When no other request comes in between, a change of driver keeps every page, owner, claim and active page, whether it
      succeeds or fails half-way. Once the new driver runs, no snapshot is left, neither in the registry nor on a page. It
      succeeds exactly if the new driver starts, opens every page again and no page is being closed; then each page shows
      what was opened. */
  method ActivateDriver(tabs: TabRegistry, snapshots: StaleRefs.SnapshotRegistry, driver: Option<Driver>, target: Driver,
                        starts: bool, opens: PageId -> Reopened, now: int)
    returns (current: Option<Driver>, ok: bool)
    modifies tabs, snapshots
    ensures Conserved(old(tabs.State()), tabs.State())
    ensures driver == Some(target) || !starts ==>
              tabs.State() == old(tabs.State()) && snapshots.latestByPage == old(snapshots.latestByPage)
    ensures driver != Some(target) && starts ==> snapshots.latestByPage == map[] && NoSnapshots(tabs.State())
    ensures current == if driver == Some(target) || starts then Some(target) else None
    ensures ok <==> driver == Some(target)
                    || (starts && forall p :: p in old(tabs.tabs) ==> opens(p).Opened? && old(tabs.tabs)[p].closing.None?)
    ensures ok && driver != Some(target) ==> forall p :: p in tabs.tabs ==> Shows(tabs.State(), p, opens)
  {
    if driver == Some(target) {
      return driver, true;
    }
    var pages := PagesInSomeOrder(tabs);
    var active := tabs.activeTabByAgent;
    if !starts {
      return None, false;
    }
    current := Some(target);
    snapshots.Clear();
    ClearingConserves(tabs.State());
    tabs.ClearSnapshotState();
    ghost var cleared := tabs.State();
    var reopened := ReopenPages(pages, opens);
    if !reopened {
      return current, false;
    }
    ok := UpdatePages(tabs, pages, opens, now);
    ghost var updated := tabs.State();
    UpdatedAllConserves(cleared, pages, opens, now);
    ConservedTwice(old(tabs.State()), cleared, updated);
    if ok {
      UpdatedAllShows(cleared, pages, opens, now);
      var agents := AgentsInSomeOrder(active);
      RestoringKeepsActiveIff(updated, agents, active, now);
      RestoredAllFacts(updated, agents, active, now, opens);
      RestoreActivePages(tabs, agents, active, now);
      ConservedTwice(old(tabs.State()), updated, tabs.State());
    }
  }
}
