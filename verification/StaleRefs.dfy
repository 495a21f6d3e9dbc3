/** When a ref may still be used: the latest snapshot of each page and what makes the service forget it
    (refs/registry.py:29-51, daemon/browser_service.py:379-398, 531-607, 997-1007, 1057). */
module StaleRefs {
  import opened Options
  import PageClosing
  import opened RefTables
  import SnapshotLines
  import RefResolver
  import TabRegistries

  type PageId = TabRegistries.PageId

  /** A stored snapshot, with the number of the capture that read its page. */
  datatype Snapshot = Snapshot(capture: nat, refs: RefTable)

  datatype LocatorAnswer = Found(spec: RefResolver.LocatorSpec) | NoSnapshotContext | InvalidRef | RefNotFound

  class SnapshotRegistry {
    var latestByPage: map<PageId, Snapshot>

    constructor ()
      ensures latestByPage == map[]
    {
      latestByPage := map[];
    }

    method Store(page: PageId, snapshot: Snapshot)
      modifies this
      ensures latestByPage == old(latestByPage)[page := snapshot]
    {
      latestByPage := latestByPage[page := snapshot];
    }

    method ClearPage(page: PageId)
      modifies this
      ensures latestByPage == old(latestByPage) - {page}
    {
      latestByPage := latestByPage - {page};
    }

    method Clear()
      modifies this
      ensures latestByPage == map[]
    {
      latestByPage := map[];
    }

    method RequireLocator(roles: SnapshotLines.Roles, page: PageId, ref: string) returns (answer: LocatorAnswer)
      ensures answer == Answer(latestByPage, roles, page, ref)
    {
      if page !in latestByPage {
        return NoSnapshotContext;
      }
      var locator := RefResolver.BuildLocatorSpec(roles, ref, latestByPage[page].refs);
      if locator == None {
        var normalized := RefResolver.ParseRef(ref);
        if normalized == None {
          return InvalidRef;
        }
        return RefNotFound;
      }
      answer := Found(locator.value);
    }
  }

  function Answer(latest: map<PageId, Snapshot>, roles: SnapshotLines.Roles, page: PageId, ref: string): LocatorAnswer {
    if page !in latest then NoSnapshotContext
    else
      var locator := RefResolver.BuildLocatorSpec(roles, ref, latest[page].refs);
      if locator.Some? then Found(locator.value)
      else if RefResolver.ParseRef(ref) == None then InvalidRef
      else RefNotFound
  }

  /** What an agent is told: to take a snapshot first if the page has none, that it has typed no ref, that the ref is not of
      the snapshot, or where to find what it means. */
  lemma AnswerTells(latest: map<PageId, Snapshot>, roles: SnapshotLines.Roles, page: PageId, ref: string)
    ensures var answer := Answer(latest, roles, page, ref);
            && (answer == NoSnapshotContext <==> page !in latest)
            && (answer == InvalidRef <==> page in latest && RefResolver.ParseRef(ref) == None)
            && (answer == RefNotFound <==>
                  page in latest && RefResolver.ParseRef(ref).Some? && RefResolver.ParseRef(ref).value !in latest[page].refs.data)
            && (answer.Found? <==>
                  page in latest && RefResolver.ParseRef(ref).Some? && RefResolver.ParseRef(ref).value in latest[page].refs.data)
            && (answer.Found? ==> answer.spec.ref == RefResolver.ParseRef(ref).value)
  {
    hide RefResolver.ParseRef, RefResolver.ChildText, RefResolver.Normalized;
  }

  // ----- histories

  datatype PageChange = Navigated | Reloaded | WentBack | WentForward | Closed

  datatype GlobalChange = DriverSwitched | WorkspaceRebuilt | Stopped

  /** A capture reads its page through the driver and stores the snapshot later, after an await. */
  datatype Event =
      Reads(page: PageId, capture: nat)
    | Stores(page: PageId, snapshot: Snapshot)
    | Forgets(page: PageId, why: PageChange)
    | ForgetsAll(reason: GlobalChange)

  predicate Invalidates(event: Event, page: PageId) {
    event.ForgetsAll? || (event.Forgets? && event.page == page)
  }

  ghost function Held(events: seq<Event>): map<PageId, Snapshot> {
    if events == [] then map[]
    else
      var before := Held(events[..|events| - 1]);
      match events[|events| - 1]
      case Reads(_, _) => before
      case Stores(page, snapshot) => before[page := snapshot]
      case Forgets(page, _) => before - {page}
      case ForgetsAll(_) => map[]
  }

  /** Event i stored a snapshot of the page, and no later one stored another or made it invalid. */
  ghost predicate IsLatestStore(events: seq<Event>, page: PageId, i: nat) {
    && i < |events| && events[i].Stores? && events[i].page == page
    && forall j :: i < j < |events| ==> !Invalidates(events[j], page) && !(events[j].Stores? && events[j].page == page)
  }

  /** Over every history the registry holds, for each page, exactly the snapshot of its latest store that nothing has
      invalidated since, and nothing when there is none. */
  lemma {:induction false} RegistryHoldsTheLatestStore(events: seq<Event>, page: PageId)
    ensures page in Held(events) <==> exists i: nat :: IsLatestStore(events, page, i)
    ensures forall i: nat :: IsLatestStore(events, page, i) ==> page in Held(events) && Held(events)[page] == events[i].snapshot
  {
    if events != [] {
      var before, last := events[..|events| - 1], events[|events| - 1];
      RegistryHoldsTheLatestStore(before, page);
      assert forall j :: 0 <= j < |before| ==> events[j] == before[j];
      if last.Stores? && last.page == page {
        var i: nat := |events| - 1;
        assert IsLatestStore(events, page, i);
      } else if Invalidates(last, page) {
        assert page !in Held(events);
      } else {
        if page in Held(before) {
          var i: nat :| IsLatestStore(before, page, i);
          assert IsLatestStore(events, page, i);
        }
      }
    }
  }

  /** Event i stores what event r read. */
  ghost predicate Completes(events: seq<Event>, r: nat, i: nat) {
    r < i < |events| && events[i].Stores? && events[r] == Reads(events[i].page, events[i].snapshot.capture)
  }

  ghost predicate ReadsPage(event: Event, page: PageId) {
    event.Reads? && event.page == page
  }

  /** Every store completes a capture that had read the same page before. Captures have numbers of their own, each
      stores at most once, and those of one page do not overlap, because of the claims (ClaimsOrderCaptures). */
  ghost predicate CapturesInOrder(events: seq<Event>) {
    && (forall i: nat :: i < |events| && events[i].Stores? ==> exists r: nat :: Completes(events, r, i))
    && (forall r, q :: 0 <= r < q < |events| && events[r].Reads? && events[q].Reads? ==>
          events[r].capture != events[q].capture)
    && (forall i, j :: 0 <= i < j < |events| && events[i].Stores? && events[j].Stores? ==>
          events[i].snapshot.capture != events[j].snapshot.capture)
    && (forall r: nat, q: nat, i: nat :: Completes(events, r, i) && r < q < i ==> !ReadsPage(events[q], events[i].page))
  }

  /** From turn j to turn k of a run of requests, h holds the page. */
  ghost predicate HoldsUntil(run: seq<PageClosing.Turn>, j: nat, k: nat, h: TabRegistries.RequestId, page: PageId) {
    && j <= k < |run| && PageClosing.Holds(PageClosing.PhaseOf(run[j].before, h), page)
    && forall m :: j <= m < k ==> run[m].step != PageClosing.Releases(h)
  }

  lemma {:induction false} HoldsBetween(run: seq<PageClosing.Turn>, j: nat, m: nat, k: nat, h: TabRegistries.RequestId,
                                        page: PageId)
    requires PageClosing.IsRun(run) && j <= m <= k && HoldsUntil(run, j, k, h, page)
    ensures PageClosing.Holds(PageClosing.PhaseOf(run[m].before, h), page)
    decreases m
  {
    hide PageClosing.Enabled, PageClosing.Next, PageClosing.PhaseOf, PageClosing.Holds;
    if j < m {
      HoldsBetween(run, j, m - 1, k, h, page);
      PageClosing.HolderStays(run[m - 1].before, run[m - 1].step, h, page);
    }
  }

  /** How a history lies on a run of requests: event i happens at turn at[i], and request maker(c) makes capture c. An action
      captures the page it has claimed, and stores before it releases it (daemon/app.py:1108-1125); `read` captures a page of
      its own that no other request knows, one of `hidden`. A request makes one capture after the other. */
  ghost predicate MadeUnderClaims(events: seq<Event>, run: seq<PageClosing.Turn>, at: seq<nat>,
                                  maker: nat -> TabRegistries.RequestId, hidden: map<PageId, TabRegistries.RequestId>)
  {
    && |at| == |events| && (forall i, j :: 0 <= i <= j < |at| ==> at[i] <= at[j])
    && (forall q :: 0 <= q < |events| && events[q].Reads? ==> MadeByOwner(events[q], run, at[q], maker, hidden))
    && (forall r: nat, i: nat :: Completes(events, r, i) && events[i].page !in hidden ==>
          HoldsUntil(run, at[r], at[i], maker(events[r].capture), events[i].page))
    && (forall r: nat, q: nat, i: nat :: Completes(events, r, i) && r < q < i && events[q].Reads? ==>
          maker(events[q].capture) != maker(events[r].capture))
  }

  ghost predicate MadeByOwner(event: Event, run: seq<PageClosing.Turn>, at: nat, maker: nat -> TabRegistries.RequestId,
                              hidden: map<PageId, TabRegistries.RequestId>)
    requires event.Reads?
  {
    if event.page in hidden then maker(event.capture) == hidden[event.page]
    else HoldsUntil(run, at, at, maker(event.capture), event.page)
  }

  /** The claims keep captures of one page apart: nothing reads a page between the two halves of a capture of it. */
  lemma ClaimsOrderCaptures(events: seq<Event>, run: seq<PageClosing.Turn>, at: seq<nat>,
                            maker: nat -> TabRegistries.RequestId, hidden: map<PageId, TabRegistries.RequestId>,
                            r: nat, q: nat, i: nat)
    requires PageClosing.IsRun(run) && MadeUnderClaims(events, run, at, maker, hidden)
    requires Completes(events, r, i) && r < q < i
    ensures !ReadsPage(events[q], events[i].page)
  {
    hide PageClosing.IsRun, HoldsUntil;
    var page := events[i].page;
    if ReadsPage(events[q], page) {
      var first, second := maker(events[r].capture), maker(events[q].capture);
      assert MadeByOwner(events[q], run, at[q], maker, hidden) && MadeByOwner(events[r], run, at[r], maker, hidden);
      if page !in hidden {
        HoldsBetween(run, at[r], at[q], at[i], first, page);
        HoldsBetween(run, at[q], at[q], at[q], second, page);
        assert at[q] < |run| by { assert HoldsUntil(run, at[q], at[q], second, page); HoldsInRun(run, at[q], second, page); }
        PageClosing.OneHolderPerPage(run, at[q], first, second, page);
      }
      assert false;
    }
  }

  lemma HoldsInRun(run: seq<PageClosing.Turn>, j: nat, h: TabRegistries.RequestId, page: PageId)
    requires HoldsUntil(run, j, j, h, page)
    ensures j < |run|
  {
  }

  /** A ref is answered from the page's latest capture or not at all: no capture that read the page later has stored
      anything. The document may have been replaced since that capture read it only if that happened before the capture
      could store what it had read: then, and only then, the answer is stale. */
  lemma LocatorsAreFreshUnlessOvertaken(events: seq<Event>, roles: SnapshotLines.Roles, page: PageId, ref: string)
    returns (r: nat, i: nat)
    requires CapturesInOrder(events) && Answer(Held(events), roles, page, ref).Found?
    ensures Completes(events, r, i) && IsLatestStore(events, page, i)
    ensures RefResolver.BuildLocatorSpec(roles, ref, events[i].snapshot.refs)
            == Some(Answer(Held(events), roles, page, ref).spec)
    ensures forall q: nat :: r < q < |events| && ReadsPage(events[q], page) ==>
                               i < q && forall j: nat :: !Completes(events, q, j)
    ensures (forall j :: r < j < |events| ==> !Invalidates(events[j], page))
            <==> (forall j :: r < j < i ==> !Invalidates(events[j], page))
  {
    RegistryHoldsTheLatestStore(events, page);
    var k: nat :| IsLatestStore(events, page, k);
    i := k;
    var q :| Completes(events, q, i);
    r := q;
    hide Held, CapturesInOrder, Answer;
    hide RefResolver.BuildLocatorSpec;
    forall j | r < j < |events| && (forall m :: r < m < i ==> !Invalidates(events[m], page))
      ensures !Invalidates(events[j], page)
    {
      if j == i {
        assert events[j].Stores?;
      }
    }
  }

  /** After a navigation, a reload, a move through the history, a close, a rebuild of the workspace or a change of
      driver, no ref of the page is answered until a snapshot of it is stored again. */
  lemma NoAnswerUntilTheNextStore(events: seq<Event>, roles: SnapshotLines.Roles, page: PageId, ref: string, k: nat)
    requires k < |events| && Invalidates(events[k], page)
    requires forall j :: k < j < |events| && events[j].Stores? ==> events[j].page != page
    ensures Answer(Held(events), roles, page, ref) == NoSnapshotContext
  {
    RegistryHoldsTheLatestStore(events, page);
    assert forall i: nat :: i < k ==> !IsLatestStore(events, page, i);
    assert forall i: nat :: k <= i ==> !IsLatestStore(events, page, i);
  }

  /** A change of driver between the two halves of a capture goes unnoticed: its refs are answered afterwards. */
  lemma ASwitchCanOvertakeACapture(snapshot: Snapshot, page: PageId)
    ensures var events := [Reads(page, snapshot.capture), ForgetsAll(DriverSwitched), Stores(page, snapshot)];
            CapturesInOrder(events) && page in Held(events) && Held(events)[page] == snapshot
  {
    var events := [Reads(page, snapshot.capture), ForgetsAll(DriverSwitched), Stores(page, snapshot)];
    assert events[..2] == [Reads(page, snapshot.capture), ForgetsAll(DriverSwitched)];
    assert Completes(events, 0, 2);
  }
}
