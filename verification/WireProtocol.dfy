/** What holds over every interleaving of requests on one extension socket. */
module WireProtocol {
  import opened Options
  import opened Texts
  import opened Wire
  import opened ExtensionSessions
  import Base64

  datatype Event =
    | Opens(id: Id)
    | Closes(id: Id)
    | TimesOut(id: Id)
    | Disconnects
    | Receives(message: Message)

  ghost function Step(s: Session, parse: Parser, e: Event): Session {
    match e
    case Opens(id) => OpenRequest(s, id)
    case Closes(id) => CloseRequest(s, id)
    case TimesOut(id) => AbandonRequest(s, id)
    case Disconnects => FailAll(s)
    case Receives(m) => Deliver(s, parse, m)
  }

  ghost function Run(s: Session, parse: Parser, es: seq<Event>): Session {
    if es == [] then s else Step(Run(s, parse, es[..|es| - 1]), parse, es[|es| - 1])
  }

  /** The event ends the connection and with it every request. */
  ghost predicate Breaks(s: Session, parse: Parser, e: Event) {
    match e
    case Disconnects => true
    case Receives(Response(text)) => !parse(text).Reply?
    case Receives(ArtifactEnd(r, a, _)) => (r, a) in s.buffers && Base64.Decode(Flatten(s.buffers[(r, a)].chunks)).None?
    case _ => false
  }

  ghost predicate ConnectionLasts(s: Session, parse: Parser, es: seq<Event>) {
    es != [] ==>
      && ConnectionLasts(s, parse, es[..|es| - 1])
      && !Breaks(Run(s, parse, es[..|es| - 1]), parse, es[|es| - 1])
  }

  /** The event is about request r. */
  ghost predicate Concerns(parse: Parser, e: Event, r: Id) {
    match e
    case Opens(id) => id == r
    case Closes(id) => id == r
    case TimesOut(id) => id == r
    case Disconnects => true
    case Receives(m) =>
      match m
      case Response(text) => !parse(text).Reply? || parse(text).id == r
      case ResponseChunk(id, _, _, _) => id == r
      case ArtifactBegin(d) => d.requestId == r
      case ArtifactChunk(id, _, _, _, _) => id == r
      case ArtifactEnd(id, _, _) => id == r
  }

  // ----- the session invariant

  ghost predicate Inv(s: Session) {
    && s.eventKeys == s.pending
    && s.pending <= s.futures.Keys && s.pending <= s.flags.Keys
    && s.responses.Keys <= s.pending && s.completed.Keys <= s.pending
    && (forall k :: k in s.buffers ==> k.0 in s.pending)
    && (forall id :: id in s.pending ==> (s.flags[id] <==> !HasOpenBuffer(s, id)))
  }

  lemma CompleteKeepsInv(s: Session, r: Id, a: Id)
    requires Inv(s)
    ensures Inv(CompleteArtifact(s, r, a))
  {
    var t := CompleteArtifact(s, r, a);
    if (r, a) in s.buffers && Base64.Decode(Flatten(s.buffers[(r, a)].chunks)).Some? {
      forall id | id in t.pending ensures t.flags[id] <==> !HasOpenBuffer(t, id) {
        if id != r && HasOpenBuffer(s, id) {
          var k :| k in s.buffers && k.0 == id;
          assert k in t.buffers;
        }
      }
    }
  }

  lemma BeginKeepsInv(s: Session, d: Descriptor)
    requires Inv(s)
    ensures Inv(BeginArtifact(s, d))
  {
    var t := BeginArtifact(s, d);
    if d.requestId in s.pending {
      assert (d.requestId, d.artifactId) in t.buffers;
      forall id | id in t.pending ensures t.flags[id] <==> !HasOpenBuffer(t, id) {
        if id != d.requestId && HasOpenBuffer(s, id) {
          var k :| k in s.buffers && k.0 == id;
          assert k in t.buffers;
        }
      }
    }
  }

  lemma AppendKeepsInv(s: Session, r: Id, a: Id, chunk: Text)
    requires Inv(s)
    ensures Inv(AppendArtifactChunk(s, r, a, chunk))
  {
    var t := AppendArtifactChunk(s, r, a, chunk);
    assert t.buffers.Keys == s.buffers.Keys;
    forall id ensures HasOpenBuffer(t, id) == HasOpenBuffer(s, id) {
      assert forall k :: k in t.buffers <==> k in s.buffers;
    }
  }

  lemma CloseKeepsInv(s: Session, r: Id)
    requires Inv(s)
    ensures Inv(CloseRequest(s, r))
  {
    var t := CloseRequest(s, r);
    forall id | id in t.pending ensures t.flags[id] <==> !HasOpenBuffer(t, id) {
      if HasOpenBuffer(s, id) {
        var k :| k in s.buffers && k.0 == id;
        assert k in t.buffers;
      }
    }
  }

  lemma OpenKeepsInv(s: Session, r: Id)
    requires Inv(s) && r !in s.pending
    ensures Inv(OpenRequest(s, r))
  {
    var t := OpenRequest(s, r);
    forall id | id in t.pending ensures t.flags[id] <==> !HasOpenBuffer(t, id) {
      assert HasOpenBuffer(t, id) == HasOpenBuffer(s, id);
    }
  }

  lemma SameBuffersKeepInv(s: Session, t: Session)
    requires Inv(s) && t.buffers == s.buffers && t.flags == s.flags && t.pending == s.pending && t.eventKeys == s.eventKeys
    requires t.pending <= t.futures.Keys && t.responses.Keys <= t.pending && t.completed.Keys <= t.pending
    ensures Inv(t)
  {
    forall id ensures HasOpenBuffer(t, id) == HasOpenBuffer(s, id) {
    }
  }

  lemma ChunkKeepsInv(s: Session, parse: Parser, id: Id, raw: RawIndex, final: bool, chunk: Text)
    requires Inv(s)
    ensures Inv(AppendResponseChunk(s, parse, id, raw, final, chunk))
  {
    hide ChunkEffect, HasOpenBuffer;
    if id != "" {
      SameBuffersKeepInv(s, AppendResponseChunk(s, parse, id, raw, final, chunk));
    }
  }

  /** Whatever arrives, an event is set exactly while its request has no open artifact, and nothing is kept
      for a request that is not pending. Only the ids of new requests are assumed to be new. */
  lemma StepKeepsInv(s: Session, parse: Parser, e: Event)
    requires Inv(s) && (e.Opens? ==> e.id !in s.pending)
    ensures Inv(Step(s, parse, e))
  {
    match e
    case Opens(id) => OpenKeepsInv(s, id);
    case Closes(id) => CloseKeepsInv(s, id);
    case TimesOut(id) =>
      assert AbandonRequest(s, id).buffers == s.buffers;
    case Disconnects =>
    case Receives(m) =>
      match m
      case Response(text) =>
      case ResponseChunk(id, raw, final, chunk) => ChunkKeepsInv(s, parse, id, raw, final, chunk);
      case ArtifactBegin(d) => BeginKeepsInv(s, d);
      case ArtifactChunk(r, a, _, _, chunk) => AppendKeepsInv(s, r, a, chunk);
      case ArtifactEnd(r, a, _) => CompleteKeepsInv(s, r, a);
  }

  /** After `send_request` leaves, no map of the session holds its id, and messages that come late change
      nothing at all. */
  lemma ClosedRequestsStayClosed(s: Session, parse: Parser, r: Id, m: Message)
    requires Inv(s) && Concerns(parse, Receives(m), r) && !Breaks(CloseRequest(s, r), parse, Receives(m))
    ensures var t := CloseRequest(s, r);
            && r !in t.pending && r !in t.eventKeys && r !in t.responses && r !in t.completed
            && (forall k :: k in t.buffers ==> k.0 != r)
            && Step(t, parse, Receives(m)) == t
  {
    var t := CloseRequest(s, r);
    assert t.responses - {r} == t.responses;
  }

  /** A future that is done keeps its result: a request resolves at most once. */
  lemma SettledOnce(s: Session, parse: Parser, e: Event, r: Id)
    requires r in s.futures && s.futures[r] != Waiting && e != Opens(r)
    ensures r in Step(s, parse, e).futures && Step(s, parse, e).futures[r] == s.futures[r]
  {
    hide ChunkEffect, Base64.Decode, HasOpenBuffer;
    match e
    case Receives(ResponseChunk(id, raw, final, chunk)) =>
      assert id != r || !Live(s, id);
    case _ =>
  }

  /** When the connection is lost, or a frame cannot be read, every request that waits fails at once and none goes on waiting
      for artifacts; nothing is kept. */
  lemma LostConnectionFailsAll(s: Session, parse: Parser, e: Event, r: Id)
    requires Inv(s) && Breaks(s, parse, e)
    ensures var t := Step(s, parse, e);
            && t.pending == {} && t.eventKeys == {} && t.buffers == map[] && t.completed == map[] && t.responses == map[]
            && (r in s.pending ==>
                  && r in t.futures && r in t.flags && t.flags[r]
                  && t.futures[r] == if s.futures[r] == Waiting then Failed(Disconnected) else s.futures[r])
  {
    hide Base64.Decode, HasOpenBuffer;
  }

  /** A timeout gives up a request that waits, and only that one. */
  lemma TimeoutAbandons(s: Session, parse: Parser, r: Id)
    requires Inv(s) && r in s.pending
    ensures var t := Step(s, parse, TimesOut(r));
            && t.futures.Keys == s.futures.Keys && (s.futures[r] == Waiting ==> t.futures[r] == Abandoned)
            && (s.futures[r] != Waiting ==> t.futures[r] == s.futures[r])
            && forall id :: id in s.futures && id != r ==> t.futures[id] == s.futures[id]
  {
  }

  // ----- a request sees only its own messages

  datatype View = View(pending: bool, future: Option<Future>, eventKey: bool, flag: Option<bool>,
                       open: map<(Id, Id), Buffer>, completed: seq<Artifact>, chunks: Option<map<int, Text>>)

  ghost function ViewOf(s: Session, r: Id): View {
    View(r in s.pending, if r in s.futures then Some(s.futures[r]) else None,
         r in s.eventKeys, if r in s.flags then Some(s.flags[r]) else None,
         map k | k in s.buffers && k.0 == r :: s.buffers[k], Completed(s, r),
         if r in s.responses then Some(s.responses[r]) else None)
  }

  lemma ViewFrame(s: Session, t: Session, r: Id)
    requires (r in t.pending <==> r in s.pending) && (r in t.eventKeys <==> r in s.eventKeys)
    requires (r in t.futures <==> r in s.futures) && (r in t.flags <==> r in s.flags)
    requires r in s.futures ==> t.futures[r] == s.futures[r]
    requires r in s.flags ==> t.flags[r] == s.flags[r]
    requires forall a: Id :: (r, a) in s.buffers <==> (r, a) in t.buffers
    requires forall a: Id :: (r, a) in s.buffers ==> t.buffers[(r, a)] == s.buffers[(r, a)]
    requires r in s.completed <==> r in t.completed
    requires r in s.completed ==> t.completed[r] == s.completed[r]
    requires r in s.responses <==> r in t.responses
    requires r in s.responses ==> t.responses[r] == s.responses[r]
    ensures ViewOf(t, r) == ViewOf(s, r)
  {
    var a, b := ViewOf(s, r).open, ViewOf(t, r).open;
    forall k: (Id, Id) ensures k in a <==> k in b {
      assert k == (k.0, k.1);
    }
    forall k: (Id, Id) | k in a ensures a[k] == b[k] {
      assert k == (k.0, k.1);
    }
    assert a == b;
  }

  /** Messages of other requests change nothing that request r can see. */
  lemma ForeignChangesNothing(s: Session, parse: Parser, e: Event, r: Id)
    requires !Concerns(parse, e, r) && !Breaks(s, parse, e)
    ensures ViewOf(Step(s, parse, e), r) == ViewOf(s, r)
  {
    hide ViewOf, AppendResponseChunk, CompleteArtifact, BeginArtifact, AppendArtifactChunk, ResolveResponse, AbandonRequest,
      OpenRequest, CloseRequest, FailAll, Base64.Decode;
    match e
    case Opens(id) => OtherOpen(s, id, r);
    case Closes(id) => OtherClose(s, id, r);
    case TimesOut(id) => OtherSettles(s, id, [], r);
    case Receives(m) =>
      match m
      case Response(text) => OtherSettles(s, parse(text).id, parse(text).body, r);
      case ResponseChunk(id, raw, final, chunk) => OtherChunk(s, parse, id, raw, final, chunk, r);
      case ArtifactBegin(d) => OtherBegin(s, d, r);
      case ArtifactChunk(id, a, _, _, chunk) => OtherAppend(s, id, a, chunk, r);
      case ArtifactEnd(id, a, _) => OtherEnd(s, id, a, r);
  }

  lemma OtherSettles(s: Session, id: Id, body: Text, r: Id)
    requires id != r
    ensures ViewOf(AbandonRequest(s, id), r) == ViewOf(s, r)
    ensures ViewOf(ResolveResponse(s, id, body), r) == ViewOf(s, r)
  {
    hide ViewOf;
    ViewFrame(s, AbandonRequest(s, id), r);
    ViewFrame(s, ResolveResponse(s, id, body), r);
  }

  lemma OtherBegin(s: Session, d: Descriptor, r: Id)
    requires d.requestId != r
    ensures ViewOf(BeginArtifact(s, d), r) == ViewOf(s, r)
  {
    hide ViewOf;
    ViewFrame(s, BeginArtifact(s, d), r);
  }

  lemma OtherAppend(s: Session, id: Id, a: Id, chunk: Text, r: Id)
    requires id != r
    ensures ViewOf(AppendArtifactChunk(s, id, a, chunk), r) == ViewOf(s, r)
  {
    hide ViewOf;
    ViewFrame(s, AppendArtifactChunk(s, id, a, chunk), r);
  }

  lemma OtherChunk(s: Session, parse: Parser, id: Id, raw: RawIndex, final: bool, chunk: Text, r: Id)
    requires id != r
    ensures ViewOf(AppendResponseChunk(s, parse, id, raw, final, chunk), r) == ViewOf(s, r)
  {
    hide ChunkEffect, ViewOf, ApplyChunk;
    if id != "" {
      if Live(s, id) {
        OtherApplies(s, id, ChunkEffect(parse, id, if id in s.responses then s.responses[id] else map[], raw, final, chunk), r);
      } else {
        ViewFrame(s, s.(responses := s.responses - {id}), r);
      }
    }
  }

  lemma OtherApplies(s: Session, id: Id, step: ChunkStep, r: Id)
    requires id != r
    ensures ViewOf(ApplyChunk(s, id, step), r) == ViewOf(s, r)
  {
    hide ViewOf;
    ViewFrame(s, ApplyChunk(s, id, step), r);
  }

  lemma OtherEnd(s: Session, id: Id, a: Id, r: Id)
    requires id != r
    requires (id, a) in s.buffers ==> Base64.Decode(Flatten(s.buffers[(id, a)].chunks)).Some?
    ensures ViewOf(CompleteArtifact(s, id, a), r) == ViewOf(s, r)
  {
    hide Base64.Decode, HasOpenBuffer, ViewOf;
    ViewFrame(s, CompleteArtifact(s, id, a), r);
  }

  lemma OtherOpen(s: Session, id: Id, r: Id)
    requires id != r
    ensures ViewOf(OpenRequest(s, id), r) == ViewOf(s, r)
  {
  }

  lemma OtherClose(s: Session, id: Id, r: Id)
    requires id != r
    ensures ViewOf(CloseRequest(s, id), r) == ViewOf(s, r)
  {
    assert ViewOf(CloseRequest(s, id), r).open == ViewOf(s, r).open;
  }

  lemma OpenBufferInView(s: Session, r: Id)
    ensures HasOpenBuffer(s, r) <==> ViewOf(s, r).open != map[]
  {
    if HasOpenBuffer(s, r) {
      var k :| k in s.buffers && k.0 == r;
      assert k in ViewOf(s, r).open;
    } else {
      assert ViewOf(s, r).open == map[];
    }
  }

  // What a message does to the request it is about, in terms of what that request sees.

  ghost function BeginView(v: View, d: Descriptor): View {
    if !v.pending then v
    else
      v.(open := v.open[(d.requestId, d.artifactId) := Buffer(d, [])],
         flag := if v.eventKey then Some(false) else v.flag)
  }

  ghost function ChunkArtifactView(v: View, r: Id, a: Id, chunk: Text): View {
    if (r, a) !in v.open then v
    else v.(open := v.open[(r, a) := v.open[(r, a)].(chunks := v.open[(r, a)].chunks + [chunk])])
  }

  ghost function EndView(v: View, r: Id, a: Id): View {
    if (r, a) !in v.open then v
    else
      match Base64.Decode(Flatten(v.open[(r, a)].chunks))
      case None => v
      case Some(content) =>
        var rest := v.open - {(r, a)};
        v.(open := rest, completed := v.completed + [Artifact(v.open[(r, a)].descriptor, content)],
           flag := if rest == map[] && v.eventKey then Some(true) else v.flag)
  }

  ghost function ResolveView(v: View, body: Text): View {
    if v.pending && v.future == Some(Waiting) then v.(future := Some(Resolved(body))) else v
  }

  ghost function ChunkView(v: View, parse: Parser, r: Id, raw: RawIndex, final: bool, chunk: Text): View {
    if r == "" then v
    else if !(v.pending && v.future == Some(Waiting)) then v.(chunks := None)
    else
      match ChunkEffect(parse, r, if v.chunks.Some? then v.chunks.value else map[], raw, final, chunk)
      case More(chunks) => v.(chunks := Some(chunks))
      case Done(f) => v.(chunks := None, future := Some(f))
  }

  ghost function Feed(v: View, parse: Parser, r: Id, m: Message): View {
    match m
    case Response(text) => if parse(text).Reply? then ResolveView(v, parse(text).body) else v
    case ResponseChunk(_, raw, final, chunk) => ChunkView(v, parse, r, raw, final, chunk)
    case ArtifactBegin(d) => BeginView(v, d)
    case ArtifactChunk(_, a, _, _, chunk) => ChunkArtifactView(v, r, a, chunk)
    case ArtifactEnd(_, a, _) => EndView(v, r, a)
  }

  lemma BeginInView(s: Session, d: Descriptor)
    ensures ViewOf(BeginArtifact(s, d), d.requestId) == BeginView(ViewOf(s, d.requestId), d)
  {
    var v := BeginView(ViewOf(s, d.requestId), d);
    assert ViewOf(BeginArtifact(s, d), d.requestId).open == v.open;
  }

  lemma ChunkArtifactInView(s: Session, r: Id, a: Id, chunk: Text)
    ensures ViewOf(AppendArtifactChunk(s, r, a, chunk), r) == ChunkArtifactView(ViewOf(s, r), r, a, chunk)
  {
    assert ViewOf(AppendArtifactChunk(s, r, a, chunk), r).open == ChunkArtifactView(ViewOf(s, r), r, a, chunk).open;
  }

  lemma EndInView(s: Session, r: Id, a: Id)
    requires (r, a) in s.buffers ==> Base64.Decode(Flatten(s.buffers[(r, a)].chunks)).Some?
    ensures ViewOf(CompleteArtifact(s, r, a), r) == EndView(ViewOf(s, r), r, a)
  {
    hide Base64.Decode, HasOpenBuffer;
    if (r, a) in s.buffers {
      var rest := s.(buffers := s.buffers - {(r, a)});
      assert ViewOf(rest, r).open == ViewOf(s, r).open - {(r, a)};
      OpenBufferInView(rest, r);
      assert ViewOf(CompleteArtifact(s, r, a), r).open == ViewOf(rest, r).open;
    }
  }

  lemma ResolveInView(s: Session, r: Id, body: Text)
    ensures ViewOf(ResolveResponse(s, r, body), r) == ResolveView(ViewOf(s, r), body)
  {
  }

  lemma ApplyChunkInView(s: Session, r: Id, step: ChunkStep)
    requires r in s.futures
    ensures var v := ViewOf(s, r);
            ViewOf(ApplyChunk(s, r, step), r)
            == if step.More? then v.(chunks := Some(step.chunks)) else v.(chunks := None, future := Some(step.outcome))
  {
    assert ViewOf(ApplyChunk(s, r, step), r).open == ViewOf(s, r).open;
  }

  lemma ChunkInView(s: Session, parse: Parser, r: Id, raw: RawIndex, final: bool, chunk: Text)
    ensures ViewOf(AppendResponseChunk(s, parse, r, raw, final, chunk), r) == ChunkView(ViewOf(s, r), parse, r, raw, final, chunk)
  {
    hide ChunkEffect, ApplyChunk;
    if r != "" && Live(s, r) {
      ApplyChunkInView(s, r, ChunkEffect(parse, r, if r in s.responses then s.responses[r] else map[], raw, final, chunk));
    } else {
      assert ViewOf(s.(responses := s.responses - {r}), r).open == ViewOf(s, r).open;
    }
  }

  /** What a message of request r does to r depends on what r sees and on nothing else. */
  lemma OwnDependsOnView(s: Session, parse: Parser, m: Message, r: Id)
    requires Concerns(parse, Receives(m), r) && !Breaks(s, parse, Receives(m))
    ensures ViewOf(Deliver(s, parse, m), r) == Feed(ViewOf(s, r), parse, r, m)
  {
    hide ViewOf, Base64.Decode, BeginView, ChunkArtifactView, EndView, ResolveView, ChunkView;
    match m
    case ArtifactEnd(_, a, _) => EndInView(s, r, a);
    case ArtifactChunk(_, a, _, _, chunk) => ChunkArtifactInView(s, r, a, chunk);
    case ArtifactBegin(d) => BeginInView(s, d);
    case Response(text) => ResolveInView(s, r, parse(text).body);
    case ResponseChunk(id, raw, final, chunk) => ChunkInView(s, parse, r, raw, final, chunk);
  }

  ghost function FeedAll(v: View, parse: Parser, r: Id, ms: seq<Message>): View {
    if ms == [] then v else Feed(FeedAll(v, parse, r, ms[..|ms| - 1]), parse, r, ms[|ms| - 1])
  }

  /** The messages about r among the events, in the order they came. */
  ghost function MessagesOf(parse: Parser, es: seq<Event>, r: Id): seq<Message> {
    if es == [] then []
    else
      MessagesOf(parse, es[..|es| - 1], r)
      + if es[|es| - 1].Receives? && Concerns(parse, es[|es| - 1], r) then [es[|es| - 1].message] else []
  }

  /** Request r is neither opened, closed nor timed out in these events. */
  ghost predicate Awaits(es: seq<Event>, r: Id) {
    forall k :: 0 <= k < |es| ==> es[k] != Opens(r) && es[k] != Closes(r) && es[k] != TimesOut(r)
  }

  /** However the messages of all requests interleave, what request r sees is what its own messages alone,
      in their order, would have shown it. */
  lemma {:induction false} InterleavingIsInvisible(s: Session, parse: Parser, es: seq<Event>, r: Id)
    requires ConnectionLasts(s, parse, es) && Awaits(es, r)
    ensures ViewOf(Run(s, parse, es), r) == FeedAll(ViewOf(s, r), parse, r, MessagesOf(parse, es, r))
    decreases |es|
  {
    hide ViewOf, Breaks, Feed;
    if es != [] {
      var before, e := es[..|es| - 1], es[|es| - 1];
      InterleavingIsInvisible(s, parse, before, r);
      var ms := MessagesOf(parse, before, r);
      if Concerns(parse, e, r) {
        NotDisconnected(Run(s, parse, before), parse, e);
        assert e != Opens(r) && e != Closes(r) && e != TimesOut(r);
        OwnDependsOnView(Run(s, parse, before), parse, e.message, r);
        assert (ms + [e.message])[..|ms|] == ms;
      } else {
        ForeignChangesNothing(Run(s, parse, before), parse, e, r);
        assert MessagesOf(parse, es, r) == ms;
      }
    }
  }

  lemma NotDisconnected(s: Session, parse: Parser, e: Event)
    requires !Breaks(s, parse, e)
    ensures e != Disconnects
  {
  }
}
