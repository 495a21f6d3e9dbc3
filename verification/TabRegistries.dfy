/** Which agent owns which page, who is working on it and who is closing it (tabs/registry.py). Every method body
    runs under the registry's lock, so each is one step for everybody else. */
module TabRegistries {
  import opened Options
  import Sets

  type Agent = string
  type PageId = string
  type RequestId = string
  type Task = nat

  /** Who holds a page, for what (`BusyState`). */
  datatype Claim = Claim(request: RequestId, command: string, agent: Agent)

  datatype Tab = Tab(owner: Agent, lastUsedAt: int, url: string, title: string, busy: Option<Claim>, closing: Option<Claim>,
                     snapshotId: Option<string>)

  /** What `update_tab` is given; what is left out stays. */
  datatype Refresh = Refresh(url: Option<string>, title: Option<string>, snapshotId: Option<string>)

  datatype Registry = Registry(tabs: map<PageId, Tab>, active: map<Agent, PageId>, tasks: map<(PageId, RequestId), Task>)

  datatype Answer = Done | TabNotFound | NoActiveTab | BusyTab(blockedBy: Claim) | OperationCancelled

  // ----- the steps as functions

  predicate Owns(s: Registry, agent: Agent, page: PageId) {
    page in s.tabs && s.tabs[page].owner == agent
  }

  function Blocker(t: Tab): Option<Claim> {
    if t.closing.Some? then t.closing else t.busy
  }

  function Added(s: Registry, page: PageId, agent: Agent, url: string, title: string, now: int): Registry {
    s.(tabs := s.tabs[page := Tab(agent, now, url, title, None, None, None)], active := s.active[agent := page])
  }

  function WithTab(s: Registry, page: PageId, t: Tab): Registry {
    s.(tabs := s.tabs[page := t])
  }

  /** Taking a page that exists: refused only while somebody else holds or closes it. */
  function Take(s: Registry, page: PageId, claim: Claim, task: Task, now: int): (Registry, Answer)
    requires page in s.tabs
  {
    var t := s.tabs[page];
    if Blocker(t).Some? && Blocker(t).value.request != claim.request then (s, BusyTab(Blocker(t).value))
    else
      (WithTab(s, page, t.(busy := Some(claim), lastUsedAt := now)).(tasks := s.tasks[(page, claim.request) := task]), Done)
  }

  function ClaimedPage(s: Registry, page: PageId, claim: Claim, task: Task, now: int): (Registry, Answer) {
    if !Owns(s, claim.agent, page) then (s, TabNotFound) else Take(s, page, claim, task, now)
  }

  function ClaimedActive(s: Registry, claim: Claim, task: Task, now: int): (Registry, Answer) {
    if claim.agent !in s.active || s.active[claim.agent] == "" || !Owns(s, claim.agent, s.active[claim.agent])
    then (s, NoActiveTab)
    else Take(s, s.active[claim.agent], claim, task, now)
  }

  function Activated(s: Registry, agent: Agent, page: PageId, now: int): (Registry, Answer) {
    if !Owns(s, agent, page) then (s, TabNotFound)
    else if s.tabs[page].closing.Some? then (s, OperationCancelled)
    else (WithTab(s, page, s.tabs[page].(lastUsedAt := now)).(active := s.active[agent := page]), Done)
  }

  function Refreshed(t: Tab, refresh: Refresh, now: int): Tab {
    t.(lastUsedAt := now,
       url := if refresh.url.Some? then refresh.url.value else t.url,
       title := if refresh.title.Some? then refresh.title.value else t.title,
       snapshotId := if refresh.snapshotId.Some? then refresh.snapshotId else t.snapshotId)
  }

  function Updated(s: Registry, page: PageId, refresh: Refresh, now: int): (Registry, Answer) {
    if page !in s.tabs then (s, TabNotFound)
    else if s.tabs[page].closing.Some? then (s, OperationCancelled)
    else (WithTab(s, page, Refreshed(s.tabs[page], refresh, now)), Done)
  }

  /** A page of the agent that no other page of the agent was used after; nothing when it has no page. */
  ghost predicate IsLatest(s: Registry, agent: Agent, latest: Option<PageId>) {
    match latest
    case None => forall p :: p in s.tabs ==> s.tabs[p].owner != agent
    case Some(page) =>
      && Owns(s, agent, page)
      && forall p :: p in s.tabs && s.tabs[p].owner == agent ==> s.tabs[p].lastUsedAt <= s.tabs[page].lastUsedAt
  }

  function WithoutTab(s: Registry, page: PageId): Registry {
    s.(tabs := s.tabs - {page})
  }

  /** The registry after an owned page is removed; `latest` takes over if the page was the active one. */
  function Removed(s: Registry, agent: Agent, page: PageId, latest: Option<PageId>): (Registry, Answer) {
    if !Owns(s, agent, page) then (s, TabNotFound)
    else if agent in s.active && s.active[agent] == page then
      (WithoutTab(s, page).(active := if latest.Some? then s.active[agent := latest.value] else s.active - {agent}), Done)
    else (WithoutTab(s, page), Done)
  }

  /** Reserving an owned page for closing, busy or not; the answer carries the asyncio task to interrupt. */
  function CloseBegun(s: Registry, page: PageId, claim: Claim): (Registry, Answer, Option<Task>) {
    if !Owns(s, claim.agent, page) then (s, TabNotFound, None)
    else if s.tabs[page].closing.Some? then (s, BusyTab(s.tabs[page].closing.value), None)
    else (WithTab(s, page, s.tabs[page].(closing := Some(claim))), Done, RunningTask(s, page))
  }

  function RunningTask(s: Registry, page: PageId): Option<Task>
    requires page in s.tabs
  {
    var busy := s.tabs[page].busy;
    if busy.Some? && (page, busy.value.request) in s.tasks then Some(s.tasks[(page, busy.value.request)]) else None
  }

  function CloseEnded(s: Registry, page: PageId, request: RequestId): Registry {
    if page in s.tabs && s.tabs[page].closing.Some? && s.tabs[page].closing.value.request == request
    then WithTab(s, page, s.tabs[page].(closing := None))
    else s
  }

  /** A result may be handed out: its page exists, nobody is closing it and the request holds it. */
  predicate MayPass(s: Registry, page: PageId, request: RequestId) {
    && page in s.tabs && s.tabs[page].closing.None?
    && s.tabs[page].busy.Some? && s.tabs[page].busy.value.request == request
  }

  function Released(s: Registry, page: PageId, request: RequestId): Registry {
    var rest := s.(tasks := s.tasks - {(page, request)});
    if page in s.tabs && s.tabs[page].busy.Some? && s.tabs[page].busy.value.request == request
    then WithTab(rest, page, s.tabs[page].(busy := None))
    else rest
  }

  function Cleared(s: Registry): Registry {
    s.(tabs := map[], active := map[])
  }

  /** Every page forgets its snapshot. */
  function SnapshotsCleared(s: Registry): Registry {
    s.(tabs := map p | p in s.tabs :: s.tabs[p].(snapshotId := None))
  }

  // ----- the object that is updated in place

  class TabRegistry {
    var tabs: map<PageId, Tab>
    var activeTabByAgent: map<Agent, PageId>
    var claimTasks: map<(PageId, RequestId), Task>

    ghost function State(): Registry
      reads this
    {
      Registry(tabs, activeTabByAgent, claimTasks)
    }

    constructor ()
      ensures State() == Registry(map[], map[], map[])
    {
      tabs, activeTabByAgent, claimTasks := map[], map[], map[];
    }

    method AddTab(page: PageId, agent: Agent, url: string, title: string, now: int)
      modifies this
      ensures State() == Added(old(State()), page, agent, url, title, now)
    {
      tabs := tabs[page := Tab(agent, now, url, title, None, None, None)];
      activeTabByAgent := activeTabByAgent[agent := page];
    }

    method UpdateTab(page: PageId, refresh: Refresh, now: int) returns (answer: Answer)
      modifies this
      ensures (State(), answer) == Updated(old(State()), page, refresh, now)
    {
      if page !in tabs {
        return TabNotFound;
      }
      var record := tabs[page];
      if record.closing.Some? {
        return OperationCancelled;
      }
      record := record.(lastUsedAt := now);
      if refresh.url.Some? {
        record := record.(url := refresh.url.value);
      }
      if refresh.title.Some? {
        record := record.(title := refresh.title.value);
      }
      if refresh.snapshotId.Some? {
        record := record.(snapshotId := refresh.snapshotId);
      }
      tabs := tabs[page := record];
      answer := Done;
    }

    method SetActiveTab(agent: Agent, page: PageId, now: int) returns (answer: Answer)
      modifies this
      ensures (State(), answer) == Activated(old(State()), agent, page, now)
    {
      if page !in tabs || tabs[page].owner != agent {
        return TabNotFound;
      }
      if tabs[page].closing.Some? {
        return OperationCancelled;
      }
      activeTabByAgent := activeTabByAgent[agent := page];
      tabs := tabs[page := tabs[page].(lastUsedAt := now)];
      answer := Done;
    }

    /** Which of several equally recent pages is taken is left open. */
    method FindLatestPageId(agent: Agent) returns (latest: Option<PageId>)
      ensures IsLatest(State(), agent, latest)
    {
      latest := None;
      var rest := tabs.Keys;
      while rest != {}
        invariant rest <= tabs.Keys
        invariant latest.None? ==> forall p :: p in tabs && p !in rest ==> tabs[p].owner != agent
        invariant latest.Some? ==>
                    && latest.value in tabs && tabs[latest.value].owner == agent
                    && forall p :: p in tabs && p !in rest && tabs[p].owner == agent ==>
                                     tabs[p].lastUsedAt <= tabs[latest.value].lastUsedAt
        decreases rest
      {
        var page := Sets.Any(rest);
        if tabs[page].owner == agent && (latest.None? || tabs[latest.value].lastUsedAt < tabs[page].lastUsedAt) {
          latest := Some(page);
        }
        rest := rest - {page};
      }
    }

    method RemoveTab(agent: Agent, page: PageId) returns (answer: Answer, ghost latest: Option<PageId>)
      modifies this
      ensures (State(), answer) == Removed(old(State()), agent, page, latest)
      ensures answer == Done ==> IsLatest(WithoutTab(old(State()), page), agent, latest)
      ensures answer == Done <==> Owns(old(State()), agent, page)
      ensures answer == Done ==> HandedOver(old(State()), State(), agent, page)
    {
      latest := None;
      if page !in tabs || tabs[page].owner != agent {
        return TabNotFound, latest;
      }
      ghost var before := State();
      tabs := tabs - {page};
      var replacement := FindLatestPageId(agent);
      latest := replacement;
      if agent in activeTabByAgent && activeTabByAgent[agent] == page {
        if replacement.None? {
          activeTabByAgent := activeTabByAgent - {agent};
        } else {
          activeTabByAgent := activeTabByAgent[agent := replacement.value];
        }
      }
      answer := Done;
      RemovalHandsOver(before, agent, page, latest);
    }

    method ClaimActiveTab(agent: Agent, request: RequestId, command: string, task: Task, now: int) returns (answer: Answer)
      modifies this
      ensures (State(), answer) == ClaimedActive(old(State()), Claim(request, command, agent), task, now)
    {
      var page := if agent in activeTabByAgent then activeTabByAgent[agent] else "";
      if page == "" {
        return NoActiveTab;
      }
      if page !in tabs || tabs[page].owner != agent {
        return NoActiveTab;
      }
      answer := TakePage(page, Claim(request, command, agent), task, now);
    }

    method ClaimPage(agent: Agent, page: PageId, request: RequestId, command: string, task: Task, now: int)
      returns (answer: Answer)
      modifies this
      ensures (State(), answer) == ClaimedPage(old(State()), page, Claim(request, command, agent), task, now)
    {
      if page !in tabs || tabs[page].owner != agent {
        return TabNotFound;
      }
      answer := TakePage(page, Claim(request, command, agent), task, now);
    }

    method TakePage(page: PageId, claim: Claim, task: Task, now: int) returns (answer: Answer)
      requires page in tabs
      modifies this
      ensures (State(), answer) == Take(old(State()), page, claim, task, now)
    {
      var record := tabs[page];
      var blocker := if record.closing.Some? then record.closing else record.busy;
      if blocker.Some? && blocker.value.request != claim.request {
        return BusyTab(blocker.value);
      }
      tabs := tabs[page := record.(busy := Some(claim), lastUsedAt := now)];
      claimTasks := claimTasks[(page, claim.request) := task];
      answer := Done;
    }

    method BeginClose(agent: Agent, page: PageId, request: RequestId) returns (answer: Answer, running: Option<Task>)
      modifies this
      ensures (State(), answer, running) == CloseBegun(old(State()), page, Claim(request, "close-tab", agent))
    {
      if page !in tabs || tabs[page].owner != agent {
        return TabNotFound, None;
      }
      var record := tabs[page];
      if record.closing.Some? {
        return BusyTab(record.closing.value), None;
      }
      tabs := tabs[page := record.(closing := Some(Claim(request, "close-tab", agent)))];
      running := None;
      if record.busy.Some? && (page, record.busy.value.request) in claimTasks {
        running := Some(claimTasks[(page, record.busy.value.request)]);
      }
      answer := Done;
    }

    method EndClose(page: PageId, request: RequestId)
      modifies this
      ensures State() == CloseEnded(old(State()), page, request)
    {
      if page in tabs && tabs[page].closing.Some? && tabs[page].closing.value.request == request {
        tabs := tabs[page := tabs[page].(closing := None)];
      }
    }

    method CheckClaim(page: PageId, request: RequestId) returns (answer: Answer)
      ensures answer == if MayPass(State(), page, request) then Done else OperationCancelled
    {
      if page !in tabs || tabs[page].closing.Some? || tabs[page].busy.None? || tabs[page].busy.value.request != request {
        return OperationCancelled;
      }
      answer := Done;
    }

    method ReleaseTab(page: PageId, request: RequestId)
      modifies this
      ensures State() == Released(old(State()), page, request)
    {
      claimTasks := claimTasks - {(page, request)};
      if page !in tabs {
        return;
      }
      if tabs[page].busy.Some? && tabs[page].busy.value.request == request {
        tabs := tabs[page := tabs[page].(busy := None)];
      }
    }

    method ClearSnapshotState()
      modifies this
      ensures State() == SnapshotsCleared(old(State()))
    {
      var rest := tabs.Keys;
      ghost var all := tabs.Keys;
      while rest != {}
        invariant rest <= tabs.Keys == all
        invariant activeTabByAgent == old(activeTabByAgent) && claimTasks == old(claimTasks)
        invariant forall p :: p in all ==> p in old(tabs)
                                           && tabs[p] == if p in rest then old(tabs)[p] else old(tabs)[p].(snapshotId := None)
        decreases rest
      {
        var page := Sets.Any(rest);
        tabs := tabs[page := tabs[page].(snapshotId := None)];
        rest := rest - {page};
      }
    }

    method Clear()
      modifies this
      ensures State() == Cleared(old(State()))
    {
      tabs, activeTabByAgent := map[], map[];
    }
  }

  // ----- ownership

  /** Every active entry names an existing page of its own agent. */
  ghost predicate ActiveIsOwned(s: Registry) {
    forall a :: a in s.active ==> Owns(s, a, s.active[a])
  }

  /** Nothing of agent b has changed: neither its pages nor its active page. */
  ghost predicate UntouchedFor(s: Registry, t: Registry, b: Agent) {
    && (forall p :: Owns(s, b, p) <==> Owns(t, b, p))
    && (forall p :: Owns(s, b, p) ==> s.tabs[p] == t.tabs[p])
    && (b in s.active <==> b in t.active)
    && (b in s.active ==> s.active[b] == t.active[b])
  }

  lemma TakeOwnership(s: Registry, page: PageId, claim: Claim, task: Task, now: int)
    requires ActiveIsOwned(s) && Owns(s, claim.agent, page)
    ensures var t := Take(s, page, claim, task, now).0;
            ActiveIsOwned(t) && forall b :: b != claim.agent ==> UntouchedFor(s, t, b)
  {
    var t := Take(s, page, claim, task, now).0;
    forall a | a in t.active ensures Owns(t, a, t.active[a]) {
      assert Owns(s, a, s.active[a]);
    }
  }

  /** No operation by one agent changes another agent's pages or active page, and every operation keeps the
      active entries sound. New pages are assumed to have new ids. */
  lemma OperationsRespectOwners(s: Registry, page: PageId, claim: Claim, task: Task, now: int, latest: Option<PageId>,
                                url: string, title: string)
    requires ActiveIsOwned(s)
    requires Owns(s, claim.agent, page) ==> IsLatest(WithoutTab(s, page), claim.agent, latest)
    ensures page !in s.tabs ==>
              var t := Added(s, page, claim.agent, url, title, now);
              ActiveIsOwned(t) && forall b :: b != claim.agent ==> UntouchedFor(s, t, b)
    ensures var t := ClaimedPage(s, page, claim, task, now).0;
            ActiveIsOwned(t) && forall b :: b != claim.agent ==> UntouchedFor(s, t, b)
    ensures var t := ClaimedActive(s, claim, task, now).0;
            ActiveIsOwned(t) && forall b :: b != claim.agent ==> UntouchedFor(s, t, b)
    ensures var t := Activated(s, claim.agent, page, now).0;
            ActiveIsOwned(t) && forall b :: b != claim.agent ==> UntouchedFor(s, t, b)
    ensures var t := CloseBegun(s, page, claim).0;
            ActiveIsOwned(t) && forall b :: b != claim.agent ==> UntouchedFor(s, t, b)
    ensures var t := Removed(s, claim.agent, page, latest).0;
            ActiveIsOwned(t) && forall b :: b != claim.agent ==> UntouchedFor(s, t, b)
  {
    AddOwnership(s, page, claim.agent, url, title, now);
    ActivateOwnership(s, claim.agent, page, now);
    CloseOwnership(s, page, claim);
    RemoveOwnership(s, claim.agent, page, latest);
    if Owns(s, claim.agent, page) {
      TakeOwnership(s, page, claim, task, now);
    }
    if claim.agent in s.active && Owns(s, claim.agent, s.active[claim.agent]) {
      TakeOwnership(s, s.active[claim.agent], claim, task, now);
    }
    hide ActiveIsOwned, UntouchedFor, Take;
  }

  lemma AddOwnership(s: Registry, page: PageId, agent: Agent, url: string, title: string, now: int)
    requires ActiveIsOwned(s)
    ensures page !in s.tabs ==>
              var t := Added(s, page, agent, url, title, now);
              ActiveIsOwned(t) && forall b :: b != agent ==> UntouchedFor(s, t, b)
  {
    if page !in s.tabs {
      var t := Added(s, page, agent, url, title, now);
      forall a | a in t.active ensures Owns(t, a, t.active[a]) {
        if a != agent {
          assert Owns(s, a, s.active[a]);
        }
      }
    }
  }

  lemma ActivateOwnership(s: Registry, agent: Agent, page: PageId, now: int)
    requires ActiveIsOwned(s)
    ensures var t := Activated(s, agent, page, now).0;
            ActiveIsOwned(t) && forall b :: b != agent ==> UntouchedFor(s, t, b)
  {
    var t := Activated(s, agent, page, now).0;
    forall a | a in t.active ensures Owns(t, a, t.active[a]) {
      if a in s.active {
        assert Owns(s, a, s.active[a]);
      }
    }
  }

  lemma CloseOwnership(s: Registry, page: PageId, claim: Claim)
    requires ActiveIsOwned(s)
    ensures var t := CloseBegun(s, page, claim).0;
            ActiveIsOwned(t) && forall b :: b != claim.agent ==> UntouchedFor(s, t, b)
  {
    var t := CloseBegun(s, page, claim).0;
    forall a | a in t.active ensures Owns(t, a, t.active[a]) {
      assert Owns(s, a, s.active[a]);
    }
  }

  lemma RemoveOwnership(s: Registry, agent: Agent, page: PageId, latest: Option<PageId>)
    requires ActiveIsOwned(s)
    requires Owns(s, agent, page) ==> IsLatest(WithoutTab(s, page), agent, latest)
    ensures var t := Removed(s, agent, page, latest).0;
            ActiveIsOwned(t) && forall b :: b != agent ==> UntouchedFor(s, t, b)
  {
    var t := Removed(s, agent, page, latest).0;
    forall a | a in t.active ensures Owns(t, a, t.active[a]) {
      if a in s.active {
        assert Owns(s, a, s.active[a]);
      }
    }
  }

  /** What becomes of the active pages when an agent's page goes: if it was the active one, the agent's latest remaining page
      is, or none exactly if the agent has no page left; otherwise the agent's active page stays. */
  ghost predicate HandedOver(s: Registry, t: Registry, agent: Agent, page: PageId) {
    && t.tabs == s.tabs - {page} && t.tasks == s.tasks
    && (forall b :: b != agent ==> (b in t.active <==> b in s.active) && (b in s.active ==> t.active[b] == s.active[b]))
    && if agent in s.active && s.active[agent] == page then
         && (agent in t.active <==> exists p :: Owns(t, agent, p))
         && (agent in t.active ==> IsLatest(t, agent, Some(t.active[agent])))
       else (agent in t.active <==> agent in s.active) && (agent in s.active ==> t.active[agent] == s.active[agent])
  }

  lemma RemovalHandsOver(s: Registry, agent: Agent, page: PageId, latest: Option<PageId>)
    requires Owns(s, agent, page) && IsLatest(WithoutTab(s, page), agent, latest)
    ensures Removed(s, agent, page, latest).1 == Done && HandedOver(s, Removed(s, agent, page, latest).0, agent, page)
  {
    var t := Removed(s, agent, page, latest).0;
    if latest.Some? {
      assert Owns(t, agent, latest.value);
    }
  }

  /** An agent gets a page that it owns and that no other request closes or, failing that, holds; then the record and the
      table of tasks name the request. A refusal tells who is in the way and changes nothing. */
  lemma ClaimsSucceedIff(s: Registry, page: PageId, claim: Claim, task: Task, now: int)
    ensures var (t, answer) := ClaimedPage(s, page, claim, task, now);
            var blocker := if !Owns(s, claim.agent, page) then None
                           else if s.tabs[page].closing.Some? then s.tabs[page].closing else s.tabs[page].busy;
            && (answer == Done <==> Owns(s, claim.agent, page) && (blocker.Some? ==> blocker.value.request == claim.request))
            && (answer == TabNotFound <==> !Owns(s, claim.agent, page))
            && (answer != Done ==> t == s && (Owns(s, claim.agent, page) ==> answer == BusyTab(blocker.value)))
            && (answer == Done ==>
                  && t.tabs == s.tabs[page := s.tabs[page].(busy := Some(claim), lastUsedAt := now)]
                  && t.tasks == s.tasks[(page, claim.request) := task] && t.active == s.active)
    ensures var (t, answer) := ClaimedActive(s, claim, task, now);
            if claim.agent in s.active && s.active[claim.agent] != "" && Owns(s, claim.agent, s.active[claim.agent])
            then (t, answer) == ClaimedPage(s, s.active[claim.agent], claim, task, now)
            else t == s && answer == NoActiveTab
  {
  }

  /** A page can be reserved for closing, made active or refreshed exactly while nobody closes it, whoever holds it. */
  lemma OthersSucceedIff(s: Registry, page: PageId, claim: Claim, refresh: Refresh, now: int)
    ensures var (t, answer, running) := CloseBegun(s, page, claim);
            && (answer == Done <==> Owns(s, claim.agent, page) && s.tabs[page].closing.None?)
            && (answer == TabNotFound <==> !Owns(s, claim.agent, page))
            && t == (if answer == Done then s.(tabs := s.tabs[page := s.tabs[page].(closing := Some(claim))]) else s)
    ensures var (t, answer) := Activated(s, claim.agent, page, now);
            && (answer == Done <==> Owns(s, claim.agent, page) && s.tabs[page].closing.None?)
            && (answer == Done ==> t.active == s.active[claim.agent := page] && t.tabs.Keys == s.tabs.Keys)
            && (answer != Done ==> t == s)
    ensures var (t, answer) := Updated(s, page, refresh, now);
            && (answer == Done <==> page in s.tabs && s.tabs[page].closing.None?)
            && (answer != Done ==> t == s)
            && (answer == Done ==>
                  && t.tabs[page].url == (if refresh.url.Some? then refresh.url.value else s.tabs[page].url)
                  && t.tabs[page].title == (if refresh.title.Some? then refresh.title.value else s.tabs[page].title)
                  && t.tabs[page].snapshotId == if refresh.snapshotId.Some? then refresh.snapshotId else s.tabs[page].snapshotId)
  {
  }

  /** Opening, claiming, activating or refreshing a page makes it its owner's latest one, as long as the clock does not go
      back. */
  lemma UsedLastIsLatest(s: Registry, page: PageId, claim: Claim, task: Task, refresh: Refresh, now: int)
    requires forall p :: p in s.tabs ==> s.tabs[p].lastUsedAt <= now
    ensures IsLatest(Added(s, page, claim.agent, "", "", now), claim.agent, Some(page))
    ensures var (t, answer) := ClaimedPage(s, page, claim, task, now); answer == Done ==> IsLatest(t, claim.agent, Some(page))
    ensures var (t, answer) := Activated(s, claim.agent, page, now); answer == Done ==> IsLatest(t, claim.agent, Some(page))
    ensures var (t, answer) := Updated(s, page, refresh, now);
            answer == Done ==> IsLatest(t, s.tabs[page].owner, Some(page))
  {
  }
}
