/** The daemon's end of the extension socket (extension/session.py): requests wait for one response each,
    while the responses and artifacts of all of them arrive interleaved on the one socket. */
module ExtensionSessions {
  import opened Options
  import opened Texts
  import opened Wire
  import Base64
  import Sets

  datatype ErrorCode = ChunkInvalid | ChunkIncomplete | Disconnected

  /** What `json.loads` and the response constructor make of a text. */
  datatype Parsed = Malformed | NotAnObject | Reply(id: Id, body: Text)

  type Parser = Text -> Parsed

  /** The future a request awaits; `Abandoned` is one cancelled by its timeout. */
  datatype Future = Waiting | Resolved(body: Text) | Failed(code: ErrorCode) | Abandoned

  datatype Buffer = Buffer(descriptor: Descriptor, chunks: seq<Text>)

  /** `pending` and `eventKeys` are the keys of `_pending` and `_artifact_events`; the futures and event flags
      behind them live on for the request that holds them. */
  datatype Session = Session(pending: set<Id>, futures: map<Id, Future>, eventKeys: set<Id>, flags: map<Id, bool>,
                             buffers: map<(Id, Id), Buffer>, completed: map<Id, seq<Artifact>>,
                             responses: map<Id, map<int, Text>>)

  // ----- numbered chunks

  function ParseIndex(raw: RawIndex): Option<nat> {
    if raw.Integer? && 0 <= raw.value <= MAX_RESPONSE_CHUNK_INDEX then Some(raw.value) else None
  }

  ghost predicate Contiguous(chunks: map<int, Text>) {
    forall k :: k in chunks <==> 0 <= k < |chunks|
  }

  ghost function JoinFirst(chunks: map<int, Text>, n: nat): Text
    requires forall k :: 0 <= k < n ==> k in chunks
  {
    if n == 0 then [] else JoinFirst(chunks, n - 1) + chunks[n - 1]
  }

  /** The text of a chunk buffer, if its indexes are 0, 1, ... without a gap. */
  ghost function Assembled(chunks: map<int, Text>): Option<Text> {
    if Contiguous(chunks) then Some(JoinFirst(chunks, |chunks|)) else None
  }

  ghost function Range(lo: int, hi: int): (s: set<int>)
    requires lo <= hi
    ensures |s| == hi - lo
    ensures forall k :: k in s <==> lo <= k < hi
    decreases hi - lo
  {
    if lo == hi then {} else Range(lo, hi - 1) + {hi - 1}
  }

  /** The test in the code, least index 0 and greatest index one less than the count, is contiguity. */
  lemma ContiguousByEnds(keys: set<int>, min: int, max: int)
    requires min in keys && max in keys && forall k :: k in keys ==> min <= k <= max
    ensures min == 0 && |keys| == max + 1 <==> forall k :: k in keys <==> 0 <= k < |keys|
  {
    var range := Range(min, max + 1);
    Sets.SubsetCount(keys, range);
    if forall k :: k in keys <==> 0 <= k < |keys| {
      assert 0 in keys;
      assert |keys| - 1 in keys;
    }
  }

  /** `_ResponseChunkBuffer.assemble` (session.py:63-76). */
  method Assemble(chunks: map<int, Text>) returns (text: Option<Text>)
    ensures text == Assembled(chunks)
  {
    if chunks == map[] {
      return Some([]);
    }
    var rest := chunks.Keys;
    assert |rest| == |chunks|;
    var min := Sets.Any(rest);
    var max := min;
    while rest != {}
      invariant rest <= chunks.Keys && min in chunks && max in chunks
      invariant forall k :: k in chunks && k !in rest ==> min <= k <= max
      decreases rest
    {
      var k := Sets.Any(rest);
      min := if k < min then k else min;
      max := if k > max then k else max;
      rest := rest - {k};
    }
    ContiguousByEnds(chunks.Keys, min, max);
    assert |chunks.Keys| == |chunks|;
    if min != 0 || |chunks| != max + 1 {
      return None;
    }
    var joined: Text := [];
    for k := 0 to |chunks|
      invariant joined == JoinFirst(chunks, k)
    {
      joined := joined + chunks[k];
    }
    text := Some(joined);
  }

  // ----- one step of the session

  predicate Live(s: Session, id: Id) {
    id in s.pending && id in s.futures && s.futures[id] == Waiting
  }

  function Settle(s: Session, id: Id, f: Future): Session {
    s.(futures := s.futures[id := f])
  }

  function OpenRequest(s: Session, id: Id): Session {
    s.(pending := s.pending + {id}, futures := s.futures[id := Waiting],
       eventKeys := s.eventKeys + {id}, flags := s.flags[id := true])
  }

  ghost function CloseRequest(s: Session, id: Id): Session {
    s.(pending := s.pending - {id}, eventKeys := s.eventKeys - {id}, responses := s.responses - {id},
       completed := s.completed - {id}, buffers := map k | k in s.buffers && k.0 != id :: s.buffers[k])
  }

  function AbandonRequest(s: Session, id: Id): Session {
    if Live(s, id) then Settle(s, id, Abandoned) else s
  }

  function ResolveResponse(s: Session, id: Id, body: Text): Session {
    if Live(s, id) then Settle(s, id, Resolved(body)) else s
  }

  ghost function AppendResponseChunk(s: Session, parse: Parser, id: Id, raw: RawIndex, final: bool, chunk: Text): Session {
    if id == "" then s
    else if !Live(s, id) then s.(responses := s.responses - {id})
    else ApplyChunk(s, id, ChunkEffect(parse, id, if id in s.responses then s.responses[id] else map[], raw, final, chunk))
  }

  /** What one chunk does to a live request: it joins the buffer, or it decides the outcome. */
  datatype ChunkStep = More(chunks: map<int, Text>) | Done(outcome: Future)

  function ApplyChunk(s: Session, id: Id, step: ChunkStep): Session {
    if step.More? then s.(responses := s.responses[id := step.chunks])
    else s.(responses := s.responses - {id}, futures := s.futures[id := step.outcome])
  }

  ghost function ChunkEffect(parse: Parser, id: Id, had: map<int, Text>, raw: RawIndex, final: bool, chunk: Text): ChunkStep {
    match ParseIndex(raw)
    case None => Done(Failed(ChunkInvalid))
    case Some(index) =>
      var chunks := had[index as int := chunk];
      if final then Done(ChunkedOutcome(parse, id, chunks)) else More(chunks)
  }

  ghost function ChunkedOutcome(parse: Parser, id: Id, chunks: map<int, Text>): Future {
    match Assembled(chunks)
    case None => Failed(ChunkIncomplete)
    case Some(text) => if parse(text).Reply? && parse(text).id == id then Resolved(parse(text).body) else Failed(ChunkInvalid)
  }

  function BeginArtifact(s: Session, d: Descriptor): Session {
    if d.requestId !in s.pending then s
    else
      s.(buffers := s.buffers[(d.requestId, d.artifactId) := Buffer(d, [])],
         flags := if d.requestId in s.eventKeys then s.flags[d.requestId := false] else s.flags)
  }

  function AppendArtifactChunk(s: Session, r: Id, a: Id, chunk: Text): Session {
    if (r, a) !in s.buffers then s
    else s.(buffers := s.buffers[(r, a) := s.buffers[(r, a)].(chunks := s.buffers[(r, a)].chunks + [chunk])])
  }

  /** Artifacts of one request in the order their last messages came. */
  function Completed(s: Session, r: Id): seq<Artifact> {
    if r in s.completed then s.completed[r] else []
  }

  predicate HasOpenBuffer(s: Session, r: Id) {
    exists k | k in s.buffers :: k.0 == r
  }

  /** An artifact whose content is not base64 raises, which ends the connection. */
  function CompleteArtifact(s: Session, r: Id, a: Id): Session {
    if (r, a) !in s.buffers then s
    else
      var rest := s.(buffers := s.buffers - {(r, a)});
      match Base64.Decode(Flatten(s.buffers[(r, a)].chunks))
      case None => FailAll(rest)
      case Some(content) =>
        rest.(completed := s.completed[r := Completed(s, r) + [Artifact(s.buffers[(r, a)].descriptor, content)]],
              flags := if !HasOpenBuffer(rest, r) && r in s.eventKeys then s.flags[r := true] else s.flags)
  }

  function FailAll(s: Session): Session {
    Session({}, map id | id in s.futures :: if Live(s, id) then Failed(Disconnected) else s.futures[id],
            {}, map id | id in s.flags :: if id in s.eventKeys then true else s.flags[id],
            map[], map[], map[])
  }

  /** What the socket loop does with one message; a frame that is no JSON object ends the connection. */
  ghost function Deliver(s: Session, parse: Parser, m: Message): Session {
    match m
    case Response(text) =>
      if parse(text).Reply? then ResolveResponse(s, parse(text).id, parse(text).body) else FailAll(s)
    case ResponseChunk(id, index, final, chunk) => AppendResponseChunk(s, parse, id, index, final, chunk)
    case ArtifactBegin(d) => BeginArtifact(s, d)
    case ArtifactChunk(r, a, _, _, chunk) => AppendArtifactChunk(s, r, a, chunk)
    case ArtifactEnd(r, a, _) => CompleteArtifact(s, r, a)
  }

  // ----- the object that is updated in place

  class ExtensionSession {
    var pending: set<Id>
    var futures: map<Id, Future>
    var artifactEvents: set<Id>
    var flags: map<Id, bool>
    var artifactBuffers: map<(Id, Id), Buffer>
    var completedArtifacts: map<Id, seq<Artifact>>
    var responseBuffers: map<Id, map<int, Text>>

    ghost function State(): Session
      reads this
    {
      Session(pending, futures, artifactEvents, flags, artifactBuffers, completedArtifacts, responseBuffers)
    }

    constructor ()
      ensures State() == Session({}, map[], {}, map[], map[], map[], map[])
    {
      pending, futures, artifactEvents, flags := {}, map[], {}, map[];
      artifactBuffers, completedArtifacts, responseBuffers := map[], map[], map[];
    }

    /** Entry of `send_request`. */
    method Open(id: Id)
      modifies this
      ensures State() == OpenRequest(old(State()), id)
    {
      pending := pending + {id};
      futures := futures[id := Waiting];
      artifactEvents := artifactEvents + {id};
      flags := flags[id := true];
    }

    /** The `finally` of `send_request`. */
    method Close(id: Id)
      modifies this
      ensures State() == CloseRequest(old(State()), id)
    {
      pending := pending - {id};
      artifactEvents := artifactEvents - {id};
      responseBuffers := responseBuffers - {id};
      completedArtifacts := completedArtifacts - {id};
      var keys := artifactBuffers.Keys;
      while keys != {}
        invariant keys <= old(artifactBuffers).Keys
        invariant artifactBuffers ==
                  map k | k in old(artifactBuffers) && (k in keys || k.0 != id) :: old(artifactBuffers)[k]
        invariant pending == old(pending) - {id} && artifactEvents == old(artifactEvents) - {id}
        invariant responseBuffers == old(responseBuffers) - {id} && completedArtifacts == old(completedArtifacts) - {id}
        invariant futures == old(futures) && flags == old(flags)
        decreases keys
      {
        var key := Sets.Any(keys);
        if key.0 == id {
          artifactBuffers := artifactBuffers - {key};
        }
        keys := keys - {key};
      }
    }

    method Resolve(id: Id, body: Text)
      modifies this
      ensures State() == ResolveResponse(old(State()), id, body)
    {
      if id !in pending || id !in futures || futures[id] != Waiting {
        return;
      }
      futures := futures[id := Resolved(body)];
    }

    method AppendChunk(parse: Parser, id: Id, raw: RawIndex, final: bool, chunk: Text)
      modifies this
      ensures State() == AppendResponseChunk(old(State()), parse, id, raw, final, chunk)
    {
      if id == "" {
        return;
      }
      if id !in pending || id !in futures || futures[id] != Waiting {
        responseBuffers := responseBuffers - {id};
        return;
      }
      var buffer := if id in responseBuffers then responseBuffers[id] else map[];
      ghost var effect := ChunkEffect(parse, id, buffer, raw, final, chunk);
      var index := ParseIndex(raw);
      if index.None? {
        responseBuffers := responseBuffers - {id};
        futures := futures[id := Failed(ChunkInvalid)];
        return;
      }
      buffer := buffer[index.value as int := chunk];
      responseBuffers := responseBuffers[id := buffer];
      if !final {
        return;
      }
      var outcome := ChunkOutcome(parse, id, buffer);
      assert effect == Done(outcome);
      assert responseBuffers - {id} == old(responseBuffers) - {id};
      responseBuffers := responseBuffers - {id};
      futures := futures[id := outcome];
    }

    /** What the last chunk makes of the buffer (session.py:194-225). */
    static method ChunkOutcome(parse: Parser, id: Id, buffer: map<int, Text>) returns (outcome: Future)
      ensures outcome == ChunkedOutcome(parse, id, buffer)
    {
      var assembled := Assemble(buffer);
      if assembled.None? {
        return Failed(ChunkIncomplete);
      }
      var message := parse(assembled.value);
      if !message.Reply? || message.id != id {
        return Failed(ChunkInvalid);
      }
      return Resolved(message.body);
    }

    method Begin(d: Descriptor)
      modifies this
      ensures State() == BeginArtifact(old(State()), d)
    {
      if d.requestId !in pending {
        return;
      }
      artifactBuffers := artifactBuffers[(d.requestId, d.artifactId) := Buffer(d, [])];
      if d.requestId in artifactEvents {
        flags := flags[d.requestId := false];
      }
    }

    method AppendArtifact(r: Id, a: Id, chunk: Text)
      modifies this
      ensures State() == AppendArtifactChunk(old(State()), r, a, chunk)
    {
      if (r, a) in artifactBuffers {
        var buffer := artifactBuffers[(r, a)];
        artifactBuffers := artifactBuffers[(r, a) := buffer.(chunks := buffer.chunks + [chunk])];
      }
    }

    method Complete(r: Id, a: Id)
      modifies this
      ensures State() == CompleteArtifact(old(State()), r, a)
    {
      if (r, a) !in artifactBuffers {
        return;
      }
      var buffer := artifactBuffers[(r, a)];
      artifactBuffers := artifactBuffers - {(r, a)};
      var content := Base64.Decode(Flatten(buffer.chunks));
      if content.None? {
        Disconnect();
        return;
      }
      var before := if r in completedArtifacts then completedArtifacts[r] else [];
      completedArtifacts := completedArtifacts[r := before + [Artifact(buffer.descriptor, content.value)]];
      if !(exists k | k in artifactBuffers :: k.0 == r) {
        if r in artifactEvents {
          flags := flags[r := true];
        }
      }
    }

    /** `fail_all` (session.py:231-244). */
    method Disconnect()
      modifies this
      ensures State() == FailAll(old(State()))
    {
      FailFutures();
      pending := {};
      artifactBuffers, completedArtifacts, responseBuffers := map[], map[], map[];
      SetEvents();
      artifactEvents := {};
    }

    method FailFutures()
      modifies this`futures
      ensures futures == FailAll(old(State())).futures
    {
      var ids := pending;
      while ids != {}
        invariant ids <= pending
        invariant futures == map id | id in old(futures) ::
                               if id !in ids && Live(old(State()), id) then Failed(Disconnected) else old(futures)[id]
        decreases ids
      {
        var id := Sets.Any(ids);
        if id in futures && futures[id] == Waiting {
          futures := futures[id := Failed(Disconnected)];
        }
        ids := ids - {id};
      }
    }

    method SetEvents()
      modifies this`flags
      ensures flags == map id | id in old(flags) :: if id in artifactEvents then true else old(flags)[id]
    {
      var ids := artifactEvents;
      while ids != {}
        invariant ids <= artifactEvents
        invariant flags == map id | id in old(flags) ::
                             if id in artifactEvents && id !in ids then true else old(flags)[id]
        decreases ids
      {
        var id := Sets.Any(ids);
        if id in flags {
          flags := flags[id := true];
        }
        ids := ids - {id};
      }
    }

    /** One turn of the socket loop (session.py:407-429). */
    method Receive(parse: Parser, m: Message)
      modifies this
      ensures State() == Deliver(old(State()), parse, m)
    {
      match m
      case Response(text) =>
        var message := parse(text);
        if message.Reply? {
          Resolve(message.id, message.body);
        } else {
          Disconnect();
        }
      case ResponseChunk(id, index, final, chunk) => AppendChunk(parse, id, index, final, chunk);
      case ArtifactBegin(d) => Begin(d);
      case ArtifactChunk(r, a, _, _, chunk) => AppendArtifact(r, a, chunk);
      case ArtifactEnd(r, a, _) => Complete(r, a);
    }
  }
}
