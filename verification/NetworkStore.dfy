/** A bounded buffer of recent network records, a second one for an explicit capture, and requests that wait for a
    record (network.py:56-147). A filter is taken as the predicate it stands for. */
module NetworkStore {
  import opened Options

  datatype Record = Record(url: string, method_: string, status: int, resourceType: string, mimeType: string)

  type Filter = Record -> bool

  type WaitId = nat

  datatype Waiter = Waiter(id: WaitId, wants: Filter)

  /** What a waiting request's future holds. */
  datatype Future = Pending | Resolved(record: Record) | Cancelled

  datatype Store = Store(recent: seq<Record>, captured: seq<Record>, waiters: seq<Waiter>, capturing: bool,
                         futures: map<WaitId, Future>)

  /** A deque with a maximal length keeps its last entries. */
  function Last<T>(s: seq<T>, limit: nat): (r: seq<T>)
    ensures |r| == (if |s| <= limit then |s| else limit) && r == s[|s| - |r|..]
  {
    if |s| <= limit then s else s[|s| - limit..]
  }

  function Matching(records: seq<Record>, filter: Filter): seq<Record> {
    if records == [] then []
    else
      var last := records[|records| - 1];
      Matching(records[..|records| - 1], filter) + if filter(last) then [last] else []
  }

  function Retained(records: seq<Record>, filter: Filter): seq<Record> {
    if records == [] then []
    else
      var last := records[|records| - 1];
      Retained(records[..|records| - 1], filter) + if filter(last) then [] else [last]
  }

  predicate IsPending(futures: map<WaitId, Future>, id: WaitId) {
    id in futures && futures[id] == Pending
  }

  /** The waiters that stay in the list when a record arrives: the pending ones that do not want it. */
  function Remaining(waiters: seq<Waiter>, futures: map<WaitId, Future>, record: Record): seq<Waiter> {
    if waiters == [] then []
    else
      var last := waiters[|waiters| - 1];
      Remaining(waiters[..|waiters| - 1], futures, record)
      + if IsPending(futures, last.id) && !last.wants(record) then [last] else []
  }

  function Answered(waiters: seq<Waiter>, futures: map<WaitId, Future>, record: Record): map<WaitId, Future> {
    if waiters == [] then futures
    else
      var last := waiters[|waiters| - 1];
      var before := Answered(waiters[..|waiters| - 1], futures, record);
      if IsPending(futures, last.id) && last.wants(record) then before[last.id := Resolved(record)] else before
  }

  function Aborted(waiters: seq<Waiter>, futures: map<WaitId, Future>): map<WaitId, Future> {
    if waiters == [] then futures
    else
      var last := waiters[|waiters| - 1];
      var before := Aborted(waiters[..|waiters| - 1], futures);
      if IsPending(futures, last.id) then before[last.id := Cancelled] else before
  }

  function Without(waiters: seq<Waiter>, id: WaitId): seq<Waiter> {
    if waiters == [] then []
    else
      var last := waiters[|waiters| - 1];
      Without(waiters[..|waiters| - 1], id) + if last.id != id then [last] else []
  }

  ghost predicate IsLastMatch(records: seq<Record>, filter: Filter, k: nat) {
    k < |records| && filter(records[k]) && forall j :: k < j < |records| ==> !filter(records[j])
  }

  lemma NoWaiters(futures: map<WaitId, Future>, record: Record)
    ensures Remaining([], futures, record) == [] && Answered([], futures, record) == futures
  {
  }

  lemma OneMoreWaiter(waiters: seq<Waiter>, i: nat, futures: map<WaitId, Future>, record: Record)
    requires i < |waiters|
    ensures Remaining(waiters[..i + 1], futures, record)
            == Remaining(waiters[..i], futures, record)
               + if IsPending(futures, waiters[i].id) && !waiters[i].wants(record) then [waiters[i]] else []
    ensures Answered(waiters[..i + 1], futures, record)
            == (if IsPending(futures, waiters[i].id) && waiters[i].wants(record)
                then Answered(waiters[..i], futures, record)[waiters[i].id := Resolved(record)]
                else Answered(waiters[..i], futures, record))
  {
    assert waiters[..i + 1][..i] == waiters[..i];
  }

  /** The waiters have their own futures. */
  ghost predicate Sound(waiters: seq<Waiter>, futures: map<WaitId, Future>) {
    && DistinctIds(waiters)
    && forall i :: 0 <= i < |waiters| ==> waiters[i].id in futures
  }

  lemma AddIsSound(waiters: seq<Waiter>, futures: map<WaitId, Future>, record: Record)
    requires Sound(waiters, futures)
    ensures Sound(Remaining(waiters, futures, record), Answered(waiters, futures, record))
  {
    RemainingFacts(waiters, futures, record);
    var rest := Remaining(waiters, futures, record);
    forall i | 0 <= i < |rest|
      ensures rest[i].id in Answered(waiters, futures, record)
    {
      assert rest[i] in waiters;
      AnsweredAt(waiters, futures, record, rest[i].id);
    }
  }

  lemma EndIsSound(waiters: seq<Waiter>, futures: map<WaitId, Future>, more: map<WaitId, Future>, id: WaitId)
    requires Sound(waiters, futures) && futures.Keys <= more.Keys
    ensures Sound(Without(waiters, id), more)
  {
    WithoutFacts(waiters, id);
    var rest := Without(waiters, id);
    forall i | 0 <= i < |rest|
      ensures rest[i].id in more
    {
      assert rest[i] in waiters;
    }
  }

  class NetworkRecordStore {
    const recentLimit: nat
    const captureLimit: nat
    var recentRecords: seq<Record>
    var capturedRecords: seq<Record>
    var waiters: seq<Waiter>
    var capturing: bool
    var futures: map<WaitId, Future>

    ghost function State(): Store
      reads this
    {
      Store(recentRecords, capturedRecords, waiters, capturing, futures)
    }

    ghost predicate Valid()
      reads this
    {
      Sound(waiters, futures)
    }

    constructor (recentLimit: nat, captureLimit: nat)
      ensures State() == Store([], [], [], false, map[])
      ensures this.recentLimit == recentLimit && this.captureLimit == captureLimit && Valid()
    {
      this.recentLimit, this.captureLimit := recentLimit, captureLimit;
      recentRecords, capturedRecords, waiters, capturing, futures := [], [], [], false, map[];
    }

    method StartCapture()
      requires Valid()
      modifies this
      ensures Valid()
      ensures State() == old(State()).(captured := [], capturing := true)
    {
      capturedRecords := [];
      capturing := true;
    }

    method StopCapture()
      requires Valid()
      modifies this
      ensures Valid()
      ensures State() == old(State()).(capturing := false)
    {
      capturing := false;
    }

    method Clear()
      requires Valid()
      modifies this
      ensures Valid()
      ensures State() == Store([], [], [], old(capturing), Aborted(old(waiters), old(futures)))
    {
      recentRecords, capturedRecords := [], [];
      for i := 0 to |waiters|
        invariant waiters == old(waiters) && capturing == old(capturing)
        invariant recentRecords == [] && capturedRecords == []
        invariant futures == Aborted(waiters[..i], old(futures))
        invariant forall j :: i <= j < |waiters| ==> (IsPending(futures, waiters[j].id) <==> IsPending(old(futures), waiters[j].id))
      {
        assert waiters[..i + 1][..i] == waiters[..i];
        if IsPending(futures, waiters[i].id) {
          futures := futures[waiters[i].id := Cancelled];
        }
      }
      assert waiters[..|waiters|] == waiters;
      waiters := [];
    }

    method AddRecord(record: Record)
      requires Valid()
      modifies this
      ensures Valid()
      ensures State() == Added(old(State()), recentLimit, captureLimit, record)
    {
      recentRecords := Last(recentRecords + [record], recentLimit);
      if capturing {
        capturedRecords := Last(capturedRecords + [record], captureLimit);
      }
      DeliverToWaiters(record);
    }

    /** The loop over the waiters: the first to want a record, and every other that does, is answered with it. */
    method DeliverToWaiters(record: Record)
      requires Valid()
      modifies this`waiters, this`futures
      ensures Valid()
      ensures waiters == Remaining(old(waiters), old(futures), record)
      ensures futures == Answered(old(waiters), old(futures), record)
    {
      hide Remaining, Answered;
      AddIsSound(waiters, futures, record);
      NoWaiters(futures, record);
      var remaining := [];
      for i := 0 to |waiters|
        invariant waiters == old(waiters)
        invariant remaining == Remaining(waiters[..i], old(futures), record)
        invariant futures == Answered(waiters[..i], old(futures), record)
        invariant forall j :: i <= j < |waiters| ==> (IsPending(futures, waiters[j].id) <==> IsPending(old(futures), waiters[j].id))
      {
        OneMoreWaiter(waiters, i, old(futures), record);
        var waiter := waiters[i];
        if IsPending(futures, waiter.id) {
          if waiter.wants(record) {
            futures := futures[waiter.id := Resolved(record)];
          } else {
            remaining := remaining + [waiter];
          }
        }
      }
      assert waiters[..|waiters|] == waiters;
      waiters := remaining;
    }

    method GetCapturedRecords(filter: Filter, clear: bool) returns (matched: seq<Record>)
      requires Valid()
      modifies this
      ensures Valid()
      ensures matched == Matching(old(capturedRecords), filter)
      ensures State() == if clear then old(State()).(captured := Retained(old(capturedRecords), filter)) else old(State())
    {
      matched := [];
      var retained := [];
      var records := capturedRecords;
      for i := 0 to |records|
        invariant matched == Matching(records[..i], filter)
        invariant retained == Retained(records[..i], filter)
      {
        assert records[..i + 1][..i] == records[..i];
        if filter(records[i]) {
          matched := matched + [records[i]];
        } else {
          retained := retained + [records[i]];
        }
      }
      assert records[..|records|] == records;
      if clear {
        capturedRecords := retained;
      }
    }

    /** The most recent record that matches, or a place in the list of waiters. */
    method WaitForRecord(id: WaitId, filter: Filter) returns (found: Option<Record>, ghost k: nat)
      requires Valid() && id !in futures
      modifies this
      ensures Valid()
      ensures found.Some? ==> k < |old(recentRecords)| && IsLastMatch(old(recentRecords), filter, k) && found.value == old(recentRecords)[k]
                              && State() == old(State())
      ensures found.None? ==> (forall r :: r in old(recentRecords) ==> !filter(r))
                              && State() == old(State()).(waiters := old(waiters) + [Waiter(id, filter)],
                                                          futures := old(futures)[id := Pending])
    {
      found, k := None, 0;
      var i := |recentRecords|;
      while i > 0
        invariant 0 <= i <= |recentRecords|
        invariant forall j :: i <= j < |recentRecords| ==> !filter(recentRecords[j])
      {
        i := i - 1;
        if filter(recentRecords[i]) {
          return Some(recentRecords[i]), i;
        }
      }
      futures := futures[id := Pending];
      waiters := waiters + [Waiter(id, filter)];
    }

    /** A wait is over, answered or not: it times out or is cancelled if it is still pending. */
    method EndWait(id: WaitId)
      requires Valid()
      modifies this
      ensures Valid()
      ensures State() == Ended(old(State()), id)
    {
      EndIsSound(waiters, futures, if IsPending(futures, id) then futures[id := Cancelled] else futures, id);
      if IsPending(futures, id) {
        futures := futures[id := Cancelled];
      }
      var remaining := [];
      for i := 0 to |waiters|
        invariant waiters == old(waiters) && State() == old(State()).(futures := futures)
        invariant futures == if IsPending(old(futures), id) then old(futures)[id := Cancelled] else old(futures)
        invariant remaining == Without(waiters[..i], id)
      {
        assert waiters[..i + 1][..i] == waiters[..i];
        if waiters[i].id != id {
          remaining := remaining + [waiters[i]];
        }
      }
      assert waiters[..|waiters|] == waiters;
      waiters := remaining;
    }
  }

  function Added(s: Store, recentLimit: nat, captureLimit: nat, record: Record): Store {
    Store(Last(s.recent + [record], recentLimit),
          if s.capturing then Last(s.captured + [record], captureLimit) else s.captured,
          Remaining(s.waiters, s.futures, record), s.capturing, Answered(s.waiters, s.futures, record))
  }

  function Ended(s: Store, id: WaitId): Store {
    s.(waiters := Without(s.waiters, id), futures := if IsPending(s.futures, id) then s.futures[id := Cancelled] else s.futures)
  }

  // ----- where captured records go

  /** A captured record is held, or was returned by a clearing read, dropped by the limit, or discarded by a clear or a
      new capture. */
  datatype Place = Held | Returned | Dropped | Discarded

  ghost function Holding(log: seq<Record>, places: seq<Place>): seq<Record>
    requires |log| == |places|
  {
    if log == [] then []
    else
      var last := |log| - 1;
      Holding(log[..last], places[..last]) + if places[last] == Held then [log[last]] else []
  }

  ghost function DropOldest(places: seq<Place>): (r: seq<Place>)
    ensures |r| == |places|
  {
    if places == [] then []
    else
      var before, last := places[..|places| - 1], places[|places| - 1];
      if Held in before then DropOldest(before) + [last] else before + [if last == Held then Dropped else last]
  }

  ghost function Taken(log: seq<Record>, places: seq<Place>, filter: Filter): seq<Place>
    requires |log| == |places|
  {
    seq(|places|, i requires 0 <= i < |places| => if places[i] == Held && filter(log[i]) then Returned else places[i])
  }

  ghost function AllDiscarded(places: seq<Place>): seq<Place> {
    seq(|places|, i requires 0 <= i < |places| => if places[i] == Held then Discarded else places[i])
  }

  /** The records that left the buffer for this place from one moment to the next, in order. */
  ghost function Moved(log: seq<Record>, before: seq<Place>, after: seq<Place>, to: Place): seq<Record>
    requires |log| == |before| == |after|
  {
    if log == [] then []
    else
      var last := |log| - 1;
      Moved(log[..last], before[..last], after[..last], to)
      + if before[last] == Held && after[last] == to then [log[last]] else []
  }

  lemma {:induction false} NothingHeld(log: seq<Record>, places: seq<Place>)
    requires |log| == |places|
    ensures Held !in places <==> Holding(log, places) == []
  {
    if log != [] {
      NothingHeld(log[..|log| - 1], places[..|log| - 1]);
      assert places == places[..|log| - 1] + [places[|log| - 1]];
    }
  }

  lemma {:induction false} DropOldestDrops(log: seq<Record>, places: seq<Place>)
    requires |log| == |places| && Held in places
    ensures Holding(log, places) != [] && Holding(log, DropOldest(places)) == Holding(log, places)[1..]
    ensures forall i :: 0 <= i < |places| && places[i] != Held ==> DropOldest(places)[i] == places[i]
  {
    var last := |log| - 1;
    NothingHeld(log[..last], places[..last]);
    if Held in places[..last] {
      assert DropOldest(places)[..last] == DropOldest(places[..last]);
      DropOldestDrops(log[..last], places[..last]);
    } else {
      assert DropOldest(places)[..last] == places[..last];
      assert places == places[..last] + [places[last]];
    }
  }

  lemma {:induction false} OldestIsDropped(log: seq<Record>, places: seq<Place>)
    requires |log| == |places| && Held in places
    ensures Holding(log, places) != [] && Moved(log, places, DropOldest(places), Dropped) == [Holding(log, places)[0]]
  {
    var last := |log| - 1;
    NothingHeld(log[..last], places[..last]);
    if Held in places[..last] {
      assert DropOldest(places)[..last] == DropOldest(places[..last]);
      OldestIsDropped(log[..last], places[..last]);
    } else {
      assert DropOldest(places)[..last] == places[..last];
      assert places == places[..last] + [places[last]];
      NothingMoved(log[..last], places[..last], Dropped);
    }
  }

  lemma {:induction false} NothingMoved(log: seq<Record>, places: seq<Place>, to: Place)
    requires |log| == |places| && to != Held
    ensures Moved(log, places, places, to) == []
  {
    if log != [] {
      NothingMoved(log[..|log| - 1], places[..|log| - 1], to);
    }
  }

  lemma {:induction false} TakenMoves(log: seq<Record>, places: seq<Place>, filter: Filter)
    requires |log| == |places|
    ensures Holding(log, Taken(log, places, filter)) == Retained(Holding(log, places), filter)
    ensures Moved(log, places, Taken(log, places, filter), Returned) == Matching(Holding(log, places), filter)
  {
    if log != [] {
      var last := |log| - 1;
      var held := Holding(log[..last], places[..last]);
      TakenMoves(log[..last], places[..last], filter);
      assert Taken(log, places, filter)[..last] == Taken(log[..last], places[..last], filter);
      if places[last] == Held {
        assert Holding(log, places) == held + [log[last]];
      } else {
        assert Holding(log, places) == held + [];
        assert held + [] == held;
      }
    }
  }

  lemma {:induction false} DiscardedHoldsNothing(log: seq<Record>, places: seq<Place>)
    requires |log| == |places|
    ensures Holding(log, AllDiscarded(places)) == []
  {
    if log != [] {
      DiscardedHoldsNothing(log[..|log| - 1], places[..|log| - 1]);
      assert AllDiscarded(places)[..|log| - 1] == AllDiscarded(places[..|log| - 1]);
    }
  }

  // ----- runs

  datatype Event = Starts | Stops | Clears | Adds(record: Record) | Reads(filter: Filter, clear: bool)
    | Waits(id: WaitId, wants: Filter) | Ends(id: WaitId)

  /** When a request began to wait, counted in records added, and for what. */
  datatype Registration = Registration(since: nat, wants: Filter)

  datatype Limits = Limits(recent: nat, capture: nat)

  /** `log` is what was added while capturing, `added` everything. */
  datatype World = World(store: Store, added: seq<Record>, log: seq<Record>, places: seq<Place>,
                         registered: map<WaitId, Registration>)

  ghost predicate HasMatch(records: seq<Record>, filter: Filter) {
    exists k: nat :: IsLastMatch(records, filter, k)
  }

  ghost predicate Enabled(w: World, event: Event) {
    && |w.log| == |w.places|
    && (event.Waits? ==> event.id !in w.store.futures)
  }

  ghost function Next(w: World, limits: Limits, event: Event): World
    requires Enabled(w, event)
  {
    var s := w.store;
    match event
    case Starts => World(s.(captured := [], capturing := true), w.added, w.log, AllDiscarded(w.places), w.registered)
    case Stops => World(s.(capturing := false), w.added, w.log, w.places, w.registered)
    case Clears =>
      World(Store([], [], [], s.capturing, Aborted(s.waiters, s.futures)), w.added, w.log, AllDiscarded(w.places), w.registered)
    case Adds(record) =>
      World(Added(s, limits.recent, limits.capture, record), w.added + [record],
            if s.capturing then w.log + [record] else w.log,
            if !s.capturing then w.places
            else if |s.captured| < limits.capture then w.places + [Held]
            else DropOldest(w.places + [Held]), w.registered)
    case Reads(filter, clear) =>
      if clear then World(s.(captured := Retained(s.captured, filter)), w.added, w.log, Taken(w.log, w.places, filter), w.registered)
      else w
    case Waits(id, filter) =>
      if HasMatch(s.recent, filter) then w
      else World(s.(waiters := s.waiters + [Waiter(id, filter)], futures := s.futures[id := Pending]), w.added, w.log, w.places,
                 w.registered[id := Registration(|w.added|, filter)])
    case Ends(id) => World(Ended(s, id), w.added, w.log, w.places, w.registered)
  }

  /** The buffer is what is held, in the order of arrival, and no more than the limit. */
  ghost predicate Tallies(w: World, limits: Limits) {
    && |w.log| == |w.places| && w.store.captured == Holding(w.log, w.places) && |w.store.captured| <= limits.capture
  }

  lemma AddTallies(w: World, limits: Limits, record: Record)
    requires Tallies(w, limits) && w.store.capturing
    ensures Tallies(Next(w, limits, Adds(record)), limits)
    ensures |w.store.captured| >= limits.capture ==>
              Moved(w.log + [record], w.places + [Held], Next(w, limits, Adds(record)).places, Dropped)
              == [(w.store.captured + [record])[0]]
    ensures forall i :: 0 <= i < |w.log| && w.places[i] != Held ==> Next(w, limits, Adds(record)).places[i] == w.places[i]
  {
    hide Remaining, Answered;
    var log, places := w.log + [record], w.places + [Held];
    assert log[..|w.log|] == w.log && places[..|w.log|] == w.places;
    assert Holding(log, places) == w.store.captured + [record];
    if |w.store.captured| >= limits.capture {
      assert places[|w.log|] == Held;
      DropOldestDrops(log, places);
      OldestIsDropped(log, places);
      assert forall i :: 0 <= i < |w.log| ==> places[i] == w.places[i];
    }
  }

  lemma ReadTallies(w: World, limits: Limits, filter: Filter)
    requires Tallies(w, limits)
    ensures Tallies(Next(w, limits, Reads(filter, true)), limits)
    ensures var next := Next(w, limits, Reads(filter, true));
            && (forall i :: 0 <= i < |w.log| && w.places[i] != Held ==> next.places[i] == w.places[i])
            && Matching(w.store.captured, filter) == Moved(w.log, w.places, next.places, Returned)
  {
    hide Holding, Moved, Matching, Retained;
    TakenMoves(w.log, w.places, filter);
    FewerRetained(w.store.captured, filter);
  }

  /** Whatever is added, read, cleared or captured anew: each record added while capturing is held, in the order of
      arrival, or has left the buffer for one place, for good. A clearing read returns exactly what it takes out. */
  lemma CaptureLosesNothing(w: World, limits: Limits, event: Event)
    requires Tallies(w, limits) && Enabled(w, event)
    ensures Tallies(Next(w, limits, event), limits)
    ensures w.log <= Next(w, limits, event).log
    ensures forall i :: 0 <= i < |w.log| && w.places[i] != Held ==> Next(w, limits, event).places[i] == w.places[i]
    ensures event.Reads? && event.clear ==>
              Matching(w.store.captured, event.filter) == Moved(w.log, w.places, Next(w, limits, event).places, Returned)
  {
    hide Remaining, Answered, Aborted, Without, HasMatch, Last, Taken, Matching, Retained, Moved, DropOldest;
    match event
    case Adds(record) => if w.store.capturing { AddTallies(w, limits, record); }
    case Reads(filter, clear) => if clear { ReadTallies(w, limits, filter); }
    case Starts => DiscardedHoldsNothing(w.log, w.places);
    case Clears => DiscardedHoldsNothing(w.log, w.places);
    case Stops =>
    case Waits(_, _) =>
    case Ends(_) =>
  }

  lemma {:induction false} FewerRetained(records: seq<Record>, filter: Filter)
    ensures |Retained(records, filter)| <= |records|
  {
    if records != [] {
      FewerRetained(records[..|records| - 1], filter);
    }
  }

  // ----- waiting requests

  /** The first record that matches, among those added since the request began to wait. */
  ghost predicate IsFirstMatch(added: seq<Record>, r: Registration, k: nat) {
    r.since <= k < |added| && r.wants(added[k]) && forall j :: r.since <= j < k ==> !r.wants(added[j])
  }

  ghost predicate NoMatchYet(added: seq<Record>, r: Registration) {
    r.since <= |added| && forall j :: r.since <= j < |added| ==> !r.wants(added[j])
  }

  /** A wait is pending only while nothing it wants has been added; once answered, it has the first such record. */
  ghost predicate Promised(added: seq<Record>, r: Registration, future: Future) {
    match future
    case Pending => NoMatchYet(added, r)
    case Resolved(record) => exists k: nat :: IsFirstMatch(added, r, k) && added[k] == record
    case Cancelled => true
  }

  ghost predicate Listed(waiters: seq<Waiter>, id: WaitId, filter: Filter) {
    exists i :: 0 <= i < |waiters| && waiters[i] == Waiter(id, filter)
  }

  ghost predicate DistinctIds(waiters: seq<Waiter>) {
    forall i, j :: 0 <= i < j < |waiters| ==> waiters[i].id != waiters[j].id
  }

  /** Every listed waiter is pending, under its own number and filter. */
  ghost predicate AllPending(waiters: seq<Waiter>, futures: map<WaitId, Future>, registered: map<WaitId, Registration>) {
    && DistinctIds(waiters)
    && forall i :: 0 <= i < |waiters| ==>
         && IsPending(futures, waiters[i].id) && waiters[i].id in registered
         && registered[waiters[i].id].wants == waiters[i].wants
  }

  ghost predicate AllListed(waiters: seq<Waiter>, futures: map<WaitId, Future>, registered: map<WaitId, Registration>) {
    forall id :: id in registered && IsPending(futures, id) ==> Listed(waiters, id, registered[id].wants)
  }

  ghost predicate AllPromised(added: seq<Record>, futures: map<WaitId, Future>, registered: map<WaitId, Registration>) {
    && registered.Keys == futures.Keys
    && forall id :: id in registered ==> Promised(added, registered[id], futures[id])
  }

  ghost predicate WaitersKept(w: World) {
    && AllPending(w.store.waiters, w.store.futures, w.registered)
    && AllListed(w.store.waiters, w.store.futures, w.registered)
    && AllPromised(w.added, w.store.futures, w.registered)
  }

  lemma {:induction false} RemainingFacts(waiters: seq<Waiter>, futures: map<WaitId, Future>, record: Record)
    requires DistinctIds(waiters)
    ensures var rest := Remaining(waiters, futures, record);
            && DistinctIds(rest)
            && forall w :: w in rest <==> w in waiters && IsPending(futures, w.id) && !w.wants(record)
  {
    if waiters != [] {
      var before, last := waiters[..|waiters| - 1], waiters[|waiters| - 1];
      RemainingFacts(before, futures, record);
      assert waiters == before + [last];
      var rest := Remaining(before, futures, record);
      assert forall i :: 0 <= i < |rest| ==> rest[i] in before;
    }
  }

  ghost predicate Wanted(waiters: seq<Waiter>, id: WaitId, record: Record) {
    exists i :: 0 <= i < |waiters| && waiters[i].id == id && waiters[i].wants(record)
  }

  lemma {:induction false} AnsweredAt(waiters: seq<Waiter>, futures: map<WaitId, Future>, record: Record, id: WaitId)
    ensures var after := Answered(waiters, futures, record);
            && (id in after <==> id in futures)
            && (id in futures ==>
                  after[id] == if IsPending(futures, id) && Wanted(waiters, id, record) then Resolved(record) else futures[id])
  {
    if waiters != [] {
      var before, last := waiters[..|waiters| - 1], waiters[|waiters| - 1];
      AnsweredAt(before, futures, record, id);
      assert Wanted(waiters, id, record) <==> Wanted(before, id, record) || (last.id == id && last.wants(record)) by {
        assert waiters == before + [last];
        assert forall i :: 0 <= i < |before| ==> waiters[i] == before[i];
      }
      hide Wanted;
    }
  }

  ghost predicate IsListed(waiters: seq<Waiter>, id: WaitId) {
    exists i :: 0 <= i < |waiters| && waiters[i].id == id
  }

  lemma {:induction false} AbortedAt(waiters: seq<Waiter>, futures: map<WaitId, Future>, id: WaitId)
    ensures var after := Aborted(waiters, futures);
            && (id in after <==> id in futures)
            && (id in futures ==> after[id] == if IsPending(futures, id) && IsListed(waiters, id) then Cancelled else futures[id])
  {
    if waiters != [] {
      var before, last := waiters[..|waiters| - 1], waiters[|waiters| - 1];
      AbortedAt(before, futures, id);
      assert IsListed(waiters, id) <==> IsListed(before, id) || last.id == id by {
        assert waiters == before + [last];
        assert forall i :: 0 <= i < |before| ==> waiters[i] == before[i];
      }
      hide IsListed;
    }
  }

  lemma {:induction false} WithoutFacts(waiters: seq<Waiter>, id: WaitId)
    requires DistinctIds(waiters)
    ensures DistinctIds(Without(waiters, id)) && forall w :: w in Without(waiters, id) <==> w in waiters && w.id != id
  {
    if waiters != [] {
      var before, last := waiters[..|waiters| - 1], waiters[|waiters| - 1];
      WithoutFacts(before, id);
      assert waiters == before + [last];
      var rest := Without(before, id);
      assert forall i :: 0 <= i < |rest| ==> rest[i] in before;
    }
  }

  lemma PromiseAfterAdd(added: seq<Record>, record: Record, r: Registration, future: Future)
    requires Promised(added, r, future)
    requires future != Pending || !r.wants(record)
    ensures Promised(added + [record], r, future)
  {
    if future.Resolved? {
      var k: nat :| IsFirstMatch(added, r, k) && added[k] == future.record;
      assert IsFirstMatch(added + [record], r, k) && (added + [record])[k] == future.record;
    }
  }

  lemma PromiseFulfilled(added: seq<Record>, record: Record, r: Registration)
    requires Promised(added, r, Pending) && r.wants(record)
    ensures Promised(added + [record], r, Resolved(record))
  {
    var k: nat := |added|;
    assert IsFirstMatch(added + [record], r, k) && (added + [record])[k] == record;
  }

  lemma ListedMeansIn(waiters: seq<Waiter>, id: WaitId, filter: Filter)
    ensures Listed(waiters, id, filter) <==> Waiter(id, filter) in waiters
  {
  }

  lemma AddKeepsPromises(w: World, record: Record)
    requires WaitersKept(w)
    ensures AllPromised(w.added + [record], Answered(w.store.waiters, w.store.futures, record), w.registered)
  {
    var s := w.store;
    var after := Answered(s.waiters, s.futures, record);
    forall id
      ensures id in after <==> id in s.futures
      ensures id in w.registered ==> Promised(w.added + [record], w.registered[id], after[id])
    {
      AnsweredAt(s.waiters, s.futures, record, id);
      if id in w.registered {
        PromiseKeptAt(w, record, id);
      }
    }
    hide Answered, Promised;
  }

  lemma PromiseKeptAt(w: World, record: Record, id: WaitId)
    requires WaitersKept(w) && id in w.registered
    ensures var after := Answered(w.store.waiters, w.store.futures, record);
            id in after && Promised(w.added + [record], w.registered[id], after[id])
  {
    var s, r := w.store, w.registered[id];
    AnsweredAt(s.waiters, s.futures, record, id);
    hide Answered, Promised, Wanted;
    if s.futures[id] == Pending {
      if r.wants(record) {
        PromiseFulfilled(w.added, record, r);
      } else {
        PromiseAfterAdd(w.added, record, r, Pending);
      }
    } else {
      PromiseAfterAdd(w.added, record, r, s.futures[id]);
    }
  }

  lemma AddKeepsList(w: World, record: Record)
    requires WaitersKept(w)
    ensures var rest, after := Remaining(w.store.waiters, w.store.futures, record), Answered(w.store.waiters, w.store.futures, record);
            AllPending(rest, after, w.registered) && AllListed(rest, after, w.registered)
  {
    var s := w.store;
    var rest, after := Remaining(s.waiters, s.futures, record), Answered(s.waiters, s.futures, record);
    RemainingFacts(s.waiters, s.futures, record);
    forall i | 0 <= i < |rest|
      ensures IsPending(after, rest[i].id) && rest[i].id in w.registered && w.registered[rest[i].id].wants == rest[i].wants
    {
      assert rest[i] in s.waiters;
      AnsweredAt(s.waiters, s.futures, record, rest[i].id);
    }
    forall id | id in w.registered && IsPending(after, id)
      ensures Listed(rest, id, w.registered[id].wants)
    {
      AnsweredAt(s.waiters, s.futures, record, id);
      ListedMeansIn(s.waiters, id, w.registered[id].wants);
      ListedMeansIn(rest, id, w.registered[id].wants);
    }
  }

  lemma StepKeepsWaiters(w: World, limits: Limits, event: Event)
    requires WaitersKept(w) && Enabled(w, event)
    ensures WaitersKept(Next(w, limits, event))
  {
    hide Remaining, Answered, Aborted, Without, HasMatch, Last, Holding, DropOldest, Taken, AllDiscarded;
    match event
    case Adds(record) =>
      AddKeepsPromises(w, record);
      AddKeepsList(w, record);
      hide AllPending, AllListed, AllPromised;
    case Clears =>
      ClearKeepsWaiters(w);
      hide AllPending, AllListed, AllPromised;
    case Waits(id, filter) =>
      if !HasMatch(w.store.recent, filter) {
        WaitKeepsWaiters(w, id, filter);
      }
      hide AllPending, AllListed, AllPromised;
    case Ends(id) =>
      EndKeepsWaiters(w, id);
      hide AllPending, AllListed, AllPromised;
    case Starts =>
    case Stops =>
    case Reads(_, _) =>
  }

  lemma ClearKeepsWaiters(w: World)
    requires WaitersKept(w)
    ensures var after := Aborted(w.store.waiters, w.store.futures);
            && AllPending([], after, w.registered) && AllListed([], after, w.registered)
            && AllPromised(w.added, after, w.registered)
  {
    var after := Aborted(w.store.waiters, w.store.futures);
    forall id
      ensures id in after <==> id in w.store.futures
      ensures id in w.registered ==> Promised(w.added, w.registered[id], after[id]) && after[id] != Pending
    {
      AbortedAt(w.store.waiters, w.store.futures, id);
    }
    hide Aborted, Promised;
  }

  lemma WaitKeepsWaiters(w: World, id: WaitId, filter: Filter)
    requires WaitersKept(w) && id !in w.store.futures
    ensures var waiters, futures := w.store.waiters + [Waiter(id, filter)], w.store.futures[id := Pending];
            var registered := w.registered[id := Registration(|w.added|, filter)];
            && AllPending(waiters, futures, registered) && AllListed(waiters, futures, registered)
            && AllPromised(w.added, futures, registered)
  {
    var waiters, futures := w.store.waiters + [Waiter(id, filter)], w.store.futures[id := Pending];
    var registered := w.registered[id := Registration(|w.added|, filter)];
    assert AllListed(waiters, futures, registered) by {
      forall u | u in registered && IsPending(futures, u)
        ensures Listed(waiters, u, registered[u].wants)
      {
        ListedMeansIn(w.store.waiters, u, registered[u].wants);
        ListedMeansIn(waiters, u, registered[u].wants);
      }
    }
    hide Listed, AllListed;
  }

  lemma EndKeepsWaiters(w: World, id: WaitId)
    requires WaitersKept(w)
    ensures var t := Ended(w.store, id);
            && AllPending(t.waiters, t.futures, w.registered) && AllListed(t.waiters, t.futures, w.registered)
            && AllPromised(w.added, t.futures, w.registered)
  {
    var t := Ended(w.store, id);
    WithoutFacts(w.store.waiters, id);
    assert AllListed(t.waiters, t.futures, w.registered) by {
      forall u | u in w.registered && IsPending(t.futures, u)
        ensures Listed(t.waiters, u, w.registered[u].wants)
      {
        ListedMeansIn(w.store.waiters, u, w.registered[u].wants);
        ListedMeansIn(t.waiters, u, w.registered[u].wants);
      }
    }
    assert AllPending(t.waiters, t.futures, w.registered) by {
      forall i | 0 <= i < |t.waiters|
        ensures IsPending(t.futures, t.waiters[i].id) && t.waiters[i].id in w.registered
        ensures w.registered[t.waiters[i].id].wants == t.waiters[i].wants
      {
        assert t.waiters[i] in w.store.waiters;
      }
    }
    hide Listed, AllListed, AllPending, Without;
  }

  // ----- theorems over runs

  ghost function Run(limits: Limits, events: seq<Event>): Option<World> {
    if events == [] then Some(World(Store([], [], [], false, map[]), [], [], [], map[]))
    else
      var before := Run(limits, events[..|events| - 1]);
      var event := events[|events| - 1];
      if before.Some? && Enabled(before.value, event) then Some(Next(before.value, limits, event)) else None
  }

  /** After any sequence of operations: the capture buffer is what is held of all that was captured, and every wait is
      either pending with nothing to answer it, or cancelled, or answered with the first record to match since it began. */
  lemma {:induction false} EveryRunKeepsItsPromises(limits: Limits, events: seq<Event>)
    requires Run(limits, events).Some?
    ensures Tallies(Run(limits, events).value, limits) && WaitersKept(Run(limits, events).value)
    decreases |events|
  {
    if events != [] {
      var before, event := Run(limits, events[..|events| - 1]).value, events[|events| - 1];
      EveryRunKeepsItsPromises(limits, events[..|events| - 1]);
      CaptureLosesNothing(before, limits, event);
      StepKeepsWaiters(before, limits, event);
    }
  }

  // ----- what a history of calls amounts to

  /** Capturing goes on from each start to the next stop. */
  ghost predicate IsCapturing(events: seq<Event>) {
    events != [] && var last := events[|events| - 1];
                    last.Starts? || (!last.Stops? && IsCapturing(events[..|events| - 1]))
  }

  ghost function AllAdded(events: seq<Event>): seq<Record> {
    if events == [] then []
    else
      var last := events[|events| - 1];
      AllAdded(events[..|events| - 1]) + if last.Adds? then [last.record] else []
  }

  /** The records added between a start and the next stop. */
  ghost function AllCaptured(events: seq<Event>): seq<Record> {
    if events == [] then []
    else
      var before, last := events[..|events| - 1], events[|events| - 1];
      AllCaptured(before) + if last.Adds? && IsCapturing(before) then [last.record] else []
  }

  /** What is captured is what was added between a start and the next stop; a clear does not end a capture. */
  lemma {:induction false} LogIsWhatWasCaptured(limits: Limits, events: seq<Event>)
    requires Run(limits, events).Some?
    ensures var w := Run(limits, events).value;
            (w.store.capturing <==> IsCapturing(events)) && w.log == AllCaptured(events) && w.added == AllAdded(events)
    decreases |events|
  {
    if events != [] {
      LogIsWhatWasCaptured(limits, events[..|events| - 1]);
      StepLogs(Run(limits, events[..|events| - 1]).value, limits, events[|events| - 1]);
    }
    hide Next, Enabled;
  }

  lemma StepLogs(w: World, limits: Limits, event: Event)
    requires Enabled(w, event)
    ensures var next := Next(w, limits, event);
            && (next.store.capturing <==> event.Starts? || (!event.Stops? && w.store.capturing))
            && next.log == w.log + (if event.Adds? && w.store.capturing then [event.record] else [])
            && next.added == w.added + (if event.Adds? then [event.record] else [])
  {
    hide Remaining, Answered, Aborted, Without, HasMatch, Last, Taken, Retained, DropOldest, AllDiscarded;
  }

  /** A new capture and a clear begin with an empty buffer; a clear also forgets the recent records, and nobody goes on
      waiting. */
  lemma NothingIsLeftOver(w: World, limits: Limits, event: Event)
    requires Enabled(w, event)
    ensures event.Starts? ==> Next(w, limits, event).store == w.store.(captured := [], capturing := true)
    ensures event.Clears? ==>
              var next := Next(w, limits, event).store;
              && next.captured == [] && next.recent == [] && next.waiters == []
              && forall i :: 0 <= i < |w.store.waiters| && w.store.waiters[i].id in w.store.futures ==>
                             var id := w.store.waiters[i].id;
                             id in next.futures
                             && next.futures[id] == if w.store.futures[id] == Pending then Cancelled else w.store.futures[id]
  {
    if event.Clears? {
      var s := w.store;
      forall i | 0 <= i < |s.waiters| && s.waiters[i].id in s.futures
        ensures var id := s.waiters[i].id;
                id in Aborted(s.waiters, s.futures)
                && Aborted(s.waiters, s.futures)[id] == if s.futures[id] == Pending then Cancelled else s.futures[id]
      {
        AbortedAt(s.waiters, s.futures, s.waiters[i].id);
        assert IsListed(s.waiters, s.waiters[i].id);
      }
    }
  }

  /** An answer is final. */
  lemma AnsweredOnce(w: World, limits: Limits, event: Event, id: WaitId)
    requires Enabled(w, event) && id in w.store.futures && w.store.futures[id] != Pending
    ensures id in Next(w, limits, event).store.futures && Next(w, limits, event).store.futures[id] == w.store.futures[id]
  {
    hide Remaining, Without, HasMatch, Last, DropOldest, Taken, AllDiscarded;
    match event
    case Adds(record) => AnsweredAt(w.store.waiters, w.store.futures, record, id);
    case Clears => AbortedAt(w.store.waiters, w.store.futures, id);
    case Starts =>
    case Stops =>
    case Reads(_, _) =>
    case Waits(_, _) =>
    case Ends(_) =>
  }

  ghost predicate LeavesBufferAlone(event: Event) {
    event.Stops? || event.Adds? || event.Waits? || event.Ends? || (event.Reads? && !event.clear)
  }

  /** Without a clear, a new capture or a clearing read, the buffer is the end of everything captured. */
  lemma BufferStepsToTheEnd(w: World, limits: Limits, event: Event, log: seq<Record>)
    requires Enabled(w, event) && LeavesBufferAlone(event) && w.store.captured == Last(log, limits.capture)
    ensures var next := Next(w, limits, event);
            w.log <= next.log && next.store.captured == Last(log + next.log[|w.log|..], limits.capture)
  {
    hide Holding, DropOldest, Remaining, Answered, Without, HasMatch, Taken, AllDiscarded, Last;
    if event.Adds? && w.store.capturing {
      var more := Next(w, limits, event).log[|w.log|..];
      assert more == [event.record];
      LastOfLast(log, event.record, limits.capture);
    } else {
      assert log + [] == log;
    }
  }

  lemma LastOfLast(log: seq<Record>, record: Record, limit: nat)
    ensures Last(Last(log, limit) + [record], limit) == Last(log + [record], limit)
  {
    if |log| > limit {
      assert Last(log, limit) + [record] == (log + [record])[|log| - limit..];
      assert (log + [record])[|log| - limit..][1..] == (log + [record])[|log| + 1 - limit..];
    }
  }

  ghost function RunFrom(w: World, limits: Limits, events: seq<Event>): Option<World>
    decreases |events|
  {
    if events == [] then Some(w)
    else if Enabled(w, events[0]) then RunFrom(Next(w, limits, events[0]), limits, events[1..])
    else None
  }

  lemma TwoSteps(log: seq<Record>, a: seq<Record>, b: seq<Record>, c: seq<Record>)
    requires a <= b <= c
    ensures log + c[|a|..] == log + b[|a|..] + c[|b|..]
  {
    assert c[|a|..] == b[|a|..] + c[|b|..];
  }

  /** From any moment at which the capture buffer is the end of a log, until the next clear, new capture or clearing
      read, it is the end of that log and all that has been captured since. */
  lemma {:induction false} BufferIsTheEndOfTheLog(w: World, limits: Limits, events: seq<Event>, log: seq<Record>)
    requires RunFrom(w, limits, events).Some? && forall e :: e in events ==> LeavesBufferAlone(e)
    requires w.store.captured == Last(log, limits.capture)
    ensures var after := RunFrom(w, limits, events).value;
            w.log <= after.log && after.store.captured == Last(log + after.log[|w.log|..], limits.capture)
    decreases |events|
  {
    hide Holding, DropOldest, Remaining, Answered, Without, HasMatch, Taken, AllDiscarded, Last;
    if events == [] {
      assert log + [] == log;
    } else {
      var next := Next(w, limits, events[0]);
      BufferStepsToTheEnd(w, limits, events[0], log);
      BufferIsTheEndOfTheLog(next, limits, events[1..], log + next.log[|w.log|..]);
      TwoSteps(log, w.log, next.log, RunFrom(w, limits, events).value.log);
      hide Next;
    }
  }

  /** The recent buffer, until the next clear, is the end of everything added. */
  lemma {:induction false} RecentIsTheEndOfAll(w: World, limits: Limits, events: seq<Event>, all: seq<Record>)
    requires RunFrom(w, limits, events).Some? && forall e :: e in events ==> !e.Clears?
    requires w.store.recent == Last(all, limits.recent)
    ensures var after := RunFrom(w, limits, events).value;
            w.added <= after.added && after.store.recent == Last(all + after.added[|w.added|..], limits.recent)
    decreases |events|
  {
    hide Holding, DropOldest, Remaining, Answered, Without, HasMatch, Taken, AllDiscarded, Last;
    if events == [] {
      assert all + [] == all;
    } else {
      var next := Next(w, limits, events[0]);
      assert w.added <= next.added;
      var more := next.added[|w.added|..];
      if events[0].Adds? {
        assert more == [events[0].record];
        LastOfLast(all, events[0].record, limits.recent);
      } else {
        assert all + more == all;
      }
      RecentIsTheEndOfAll(next, limits, events[1..], all + more);
      TwoSteps(all, w.added, next.added, RunFrom(w, limits, events).value.added);
      hide Next;
    }
  }
}
