/** What a request receives from the messages the extension sends for it: its artifacts one after the other,
    then its response (background.js:286-288, artifact_actions.js:140-179, response_framing.js:7-31). */
module WireDelivery {
  import opened Options
  import opened Texts
  import opened Wire
  import opened ExtensionSessions
  import opened WireProtocol
  import Base64

  ghost function EmittedAll(arts: seq<Artifact>, size: nat): seq<Message>
    requires size > 0
  {
    if arts == [] then [] else Emitted(arts[0], size) + EmittedAll(arts[1..], size)
  }

  /** Everything the extension sends for one request. */
  ghost function RequestStream(r: Id, arts: seq<Artifact>, text: Text, artifactSize: nat, responseSize: nat): seq<Message>
    requires artifactSize > 0 && responseSize > 0
  {
    EmittedAll(arts, artifactSize) + Framed(r, text, responseSize)
  }

  /** A request that waits and has no artifact under way. */
  ghost predicate Idle(v: View) {
    v.pending && v.future == Some(Waiting) && v.eventKey && v.flag == Some(true) && v.open == map[] && v.chunks == None
  }

  lemma {:induction false} FeedAllConcat(v: View, parse: Parser, r: Id, a: seq<Message>, b: seq<Message>)
    ensures FeedAll(v, parse, r, a + b) == FeedAll(FeedAll(v, parse, r, a), parse, r, b)
  {
    hide Feed;
    if b == [] {
      assert a + b == a;
    } else {
      var b', m := b[..|b| - 1], b[|b| - 1];
      FeedAllConcat(v, parse, r, a, b');
      assert a + b == (a + b') + [m];
    }
  }

  // ----- artifacts

  /** What the request sees after k of an artifact's messages. */
  ghost function PartOfArtifact(v: View, a: Artifact, size: nat, k: nat): View
    requires size > 0 && k <= |Emitted(a, size)|
  {
    var d := a.descriptor;
    if k == 0 then v
    else if k == |Emitted(a, size)| then v.(completed := v.completed + [a])
    else
      v.(open := map[(d.requestId, d.artifactId) := Buffer(d, Slices(Base64.Encode(a.content), size)[..k - 1])],
         flag := Some(false))
  }

  lemma ArtifactStep(v: View, parse: Parser, a: Artifact, size: nat, k: nat)
    requires size > 0 && Idle(v) && k < |Emitted(a, size)|
    ensures Feed(PartOfArtifact(v, a, size, k), parse, a.descriptor.requestId, Emitted(a, size)[k])
            == PartOfArtifact(v, a, size, k + 1)
  {
    hide Base64.Encode, Base64.Decode, Slices;
    var d := a.descriptor;
    var key := (d.requestId, d.artifactId);
    var chunks := Slices(Base64.Encode(a.content), size);
    var before, m := PartOfArtifact(v, a, size, k), Emitted(a, size)[k];
    if k == 0 {
      assert before.open[key := Buffer(d, [])] == map[key := Buffer(d, chunks[..0])];
    } else if k <= |chunks| {
      assert m == ArtifactPiece(d, chunks, k - 1);
      assert chunks[..k - 1] + [chunks[k - 1]] == chunks[..k];
      assert before.open[key := Buffer(d, chunks[..k])] == map[key := Buffer(d, chunks[..k])];
    } else {
      assert m == ArtifactEnd(d.requestId, d.artifactId, |a.content|);
      assert chunks[..k - 1] == chunks;
      FlattenSlices(Base64.Encode(a.content), size);
      Base64.RoundTrip(a.content);
      assert before.open - {key} == map[];
      assert Artifact(d, a.content) == a;
    }
  }

  lemma {:induction false} ArtifactArrives(v: View, parse: Parser, a: Artifact, size: nat, k: nat)
    requires size > 0 && Idle(v) && k <= |Emitted(a, size)|
    ensures FeedAll(v, parse, a.descriptor.requestId, Emitted(a, size)[..k]) == PartOfArtifact(v, a, size, k)
  {
    hide Emitted, Feed;
    if k > 0 {
      var ms := Emitted(a, size);
      ArtifactArrives(v, parse, a, size, k - 1);
      assert ms[..k] == ms[..k - 1] + [ms[k - 1]];
      ArtifactStep(v, parse, a, size, k - 1);
    }
  }

  // ----- the response

  ghost function FirstChunks(chunks: seq<Text>, n: nat): map<int, Text>
    requires n <= |chunks|
  {
    if n == 0 then map[] else FirstChunks(chunks, n - 1)[n - 1 := chunks[n - 1]]
  }

  lemma {:induction false} FirstChunksFacts(chunks: seq<Text>, n: nat)
    requires n <= |chunks|
    ensures |FirstChunks(chunks, n)| == n
    ensures forall k :: k in FirstChunks(chunks, n) <==> 0 <= k < n
    ensures forall k :: 0 <= k < n ==> FirstChunks(chunks, n)[k] == chunks[k]
  {
    if n > 0 {
      FirstChunksFacts(chunks, n - 1);
    }
  }

  lemma {:induction false} JoinIsFlatten(chunks: seq<Text>, n: nat, m: map<int, Text>)
    requires n <= |chunks| && forall k :: 0 <= k < n ==> k in m && m[k] == chunks[k]
    ensures JoinFirst(m, n) == Flatten(chunks[..n])
  {
    if n > 0 {
      JoinIsFlatten(chunks, n - 1, m);
      assert chunks[..n] == chunks[..n - 1] + [chunks[n - 1]];
      FlattenLast(chunks[..n - 1], chunks[n - 1]);
    }
  }

  lemma AllChunksAssemble(text: Text, size: nat)
    requires size > 0
    ensures Assembled(FirstChunks(Slices(text, size), |Slices(text, size)|)) == Some(text)
  {
    var chunks := Slices(text, size);
    FirstChunksFacts(chunks, |chunks|);
    JoinIsFlatten(chunks, |chunks|, FirstChunks(chunks, |chunks|));
    assert chunks[..|chunks|] == chunks;
    FlattenSlices(text, size);
  }

  /** The outcome of a response that arrives in full: chunk indexes above the limit are refused. */
  ghost function Outcome(text: Text, size: nat, body: Text): Future
    requires size > 0
  {
    if |text| > size && |Slices(text, size)| > MAX_RESPONSE_CHUNK_INDEX + 1 then Failed(ChunkInvalid) else Resolved(body)
  }

  /** What the request sees after k of its response chunks, the last one excepted. */
  ghost function PartOfResponse(v: View, text: Text, size: nat, k: nat): View
    requires size > 0 && k < |Slices(text, size)|
  {
    if k > MAX_RESPONSE_CHUNK_INDEX + 1 then v.(future := Some(Failed(ChunkInvalid)))
    else if k == 0 then v
    else v.(chunks := Some(FirstChunks(Slices(text, size), k)))
  }

  lemma ChunkStepMiddle(v: View, parse: Parser, r: Id, text: Text, size: nat, k: nat)
    requires r != "" && size > 0 && Idle(v) && k < |Slices(text, size)| - 1
    ensures ChunkView(PartOfResponse(v, text, size, k), parse, r, Integer(k), false, Slices(text, size)[k])
            == PartOfResponse(v, text, size, k + 1)
  {
    hide Slices;
    assert FirstChunks(Slices(text, size), 0) == map[];
  }

  lemma ChunkStepLast(v: View, parse: Parser, r: Id, text: Text, size: nat, body: Text)
    requires r != "" && size > 0 && Idle(v) && |text| > size && parse(text) == Reply(r, body)
    ensures Slices(text, size) != []
    ensures var k := |Slices(text, size)| - 1;
            ChunkView(PartOfResponse(v, text, size, k), parse, r, Integer(k), true, Slices(text, size)[k])
            == v.(future := Some(Outcome(text, size, body)))
  {
    var chunks := Slices(text, size);
    AllChunksAssemble(text, size);
    hide Slices, Assembled;
    assert FirstChunks(chunks, 0) == map[];
  }

  lemma {:induction false} ResponsePartArrives(v: View, parse: Parser, r: Id, text: Text, size: nat, k: nat)
    requires r != "" && size > 0 && Idle(v) && |text| > size && k < |Slices(text, size)|
    ensures FeedAll(v, parse, r, Framed(r, text, size)[..k]) == PartOfResponse(v, text, size, k)
  {
    hide Slices, ChunkView;
    if k > 0 {
      var ms := Framed(r, text, size);
      ResponsePartArrives(v, parse, r, text, size, k - 1);
      assert ms[..k] == ms[..k - 1] + [ms[k - 1]];
      ChunkStepMiddle(v, parse, r, text, size, k - 1);
    }
  }

  lemma ResponseArrives(v: View, parse: Parser, r: Id, text: Text, size: nat, body: Text)
    requires r != "" && size > 0 && Idle(v) && parse(text) == Reply(r, body)
    ensures FeedAll(v, parse, r, Framed(r, text, size)) == v.(future := Some(Outcome(text, size, body)))
  {
    hide Slices, ChunkView;
    var ms := Framed(r, text, size);
    if |text| <= size {
      assert ms == [] + [Response(text)];
    } else {
      ChunkStepLast(v, parse, r, text, size, body);
      var n := |ms| - 1;
      ResponsePartArrives(v, parse, r, text, size, n);
      assert ms == ms[..n] + [ms[n]];
    }
  }

  // ----- the whole stream

  ghost predicate AllFor(arts: seq<Artifact>, r: Id) {
    forall k :: 0 <= k < |arts| ==> arts[k].descriptor.requestId == r
  }

  lemma {:induction false} StreamArrives(v: View, parse: Parser, r: Id, arts: seq<Artifact>, text: Text,
                                         artifactSize: nat, responseSize: nat, body: Text)
    requires r != "" && artifactSize > 0 && responseSize > 0 && Idle(v) && AllFor(arts, r) && parse(text) == Reply(r, body)
    ensures FeedAll(v, parse, r, RequestStream(r, arts, text, artifactSize, responseSize))
            == v.(completed := v.completed + arts, future := Some(Outcome(text, responseSize, body)))
    decreases |arts|
  {
    hide Feed, Emitted, Framed, RequestStream, Outcome;
    var stream := RequestStream(r, arts, text, artifactSize, responseSize);
    StreamSplits(r, arts, text, artifactSize, responseSize);
    if arts == [] {
      ResponseArrives(v, parse, r, text, responseSize, body);
      assert v.completed + arts == v.completed;
    } else {
      var first, rest := Emitted(arts[0], artifactSize), RequestStream(r, arts[1..], text, artifactSize, responseSize);
      FeedAllConcat(v, parse, r, first, rest);
      assert first[..|first|] == first;
      ArtifactArrives(v, parse, arts[0], artifactSize, |first|);
      SomeMessages(arts[0], artifactSize);
      var v' := v.(completed := v.completed + [arts[0]]);
      StreamArrives(v', parse, r, arts[1..], text, artifactSize, responseSize, body);
      assert v.completed + [arts[0]] + arts[1..] == v.completed + arts;
    }
  }

  lemma StreamSplits(r: Id, arts: seq<Artifact>, text: Text, artifactSize: nat, responseSize: nat)
    requires artifactSize > 0 && responseSize > 0
    ensures RequestStream(r, arts, text, artifactSize, responseSize)
            == if arts == [] then Framed(r, text, responseSize)
               else Emitted(arts[0], artifactSize) + RequestStream(r, arts[1..], text, artifactSize, responseSize)
  {
    hide Emitted, Framed;
  }

  lemma SomeMessages(a: Artifact, size: nat)
    requires size > 0
    ensures |Emitted(a, size)| >= 2
  {
  }

  lemma {:induction false} PartDoesNotResolve(v: View, parse: Parser, r: Id, arts: seq<Artifact>, text: Text,
                                              artifactSize: nat, responseSize: nat, ms: seq<Message>)
    requires r != "" && artifactSize > 0 && responseSize > 0 && Idle(v) && AllFor(arts, r)
    requires ms < RequestStream(r, arts, text, artifactSize, responseSize)
    ensures FeedAll(v, parse, r, ms).future in {Some(Waiting), Some(Failed(ChunkInvalid))}
    decreases |arts|
  {
    hide Feed, Slices, Emitted;
    var stream := RequestStream(r, arts, text, artifactSize, responseSize);
    if arts == [] {
      assert stream == Framed(r, text, responseSize);
      if |text| > responseSize {
        ResponsePartArrives(v, parse, r, text, responseSize, |ms|);
        assert ms == Framed(r, text, responseSize)[..|ms|];
      } else {
        assert ms == [];
      }
    } else {
      hide Framed;
      var first, rest := Emitted(arts[0], artifactSize), RequestStream(r, arts[1..], text, artifactSize, responseSize);
      assert stream == first + rest;
      if |ms| <= |first| {
        assert ms == first[..|ms|];
        ArtifactArrives(v, parse, arts[0], artifactSize, |ms|);
      } else {
        var ms' := ms[|first|..];
        assert ms == first + ms';
        assert ms' < rest;
        FeedAllConcat(v, parse, r, first, ms');
        assert first[..|first|] == first;
        ArtifactArrives(v, parse, arts[0], artifactSize, |first|);
        SomeMessages(arts[0], artifactSize);
        PartDoesNotResolve(v.(completed := v.completed + [arts[0]]), parse, r, arts[1..], text, artifactSize, responseSize, ms');
      }
    }
  }

  // ----- the protocol

  /** A request that has just been opened in a sound session waits and has nothing yet. */
  lemma OpenedIsIdle(s: Session, r: Id)
    requires Inv(s) && r !in s.pending
    ensures Idle(ViewOf(OpenRequest(s, r), r)) && ViewOf(OpenRequest(s, r), r).completed == []
  {
    var t := OpenRequest(s, r);
    assert ViewOf(t, r).open == map[];
  }

  /** The theorem of the protocol. Let a request open in any sound session, and let any messages of any
      requests follow while the connection lasts. If those about it are a part of what the extension sends for
      it, it is not resolved; if they are all of it, it holds exactly its own artifacts, in order and with their
      own bytes, its event is set, nothing of it is left half received, and it is resolved with its own
      response, or failed when the response has more than the permitted number of chunks. */
  lemma RequestsGetTheirOwnAnswer(s: Session, parse: Parser, es: seq<Event>, r: Id, arts: seq<Artifact>, text: Text,
                                  artifactSize: nat, responseSize: nat, body: Text)
    requires Inv(s) && r !in s.pending && r != "" && artifactSize > 0 && responseSize > 0
    requires AllFor(arts, r) && parse(text) == Reply(r, body)
    requires ConnectionLasts(OpenRequest(s, r), parse, es) && Awaits(es, r)
    requires MessagesOf(parse, es, r) <= RequestStream(r, arts, text, artifactSize, responseSize)
    ensures var v := ViewOf(Run(OpenRequest(s, r), parse, es), r);
            if MessagesOf(parse, es, r) == RequestStream(r, arts, text, artifactSize, responseSize) then
              && v.future == Some(Outcome(text, responseSize, body)) && v.completed == arts
              && v.flag == Some(true) && v.open == map[] && v.chunks == None
            else v.future in {Some(Waiting), Some(Failed(ChunkInvalid))}
  {
    hide Feed, RequestStream, Outcome, ViewOf;
    var v := ViewOf(OpenRequest(s, r), r);
    OpenedIsIdle(s, r);
    InterleavingIsInvisible(OpenRequest(s, r), parse, es, r);
    var ms := MessagesOf(parse, es, r);
    if ms == RequestStream(r, arts, text, artifactSize, responseSize) {
      StreamArrives(v, parse, r, arts, text, artifactSize, responseSize, body);
      assert [] + arts == arts;
    } else {
      PartDoesNotResolve(v, parse, r, arts, text, artifactSize, responseSize, ms);
    }
  }

  /** Exactly the responses of at most 16385 chunks' length get through. */
  lemma LongResponsesFail(text: Text, size: nat, body: Text)
    requires size > 0
    ensures Outcome(text, size, body) == Resolved(body) <==> |text| <= (MAX_RESPONSE_CHUNK_INDEX + 1) * size
  {
    SlicesBounds(text, size, MAX_RESPONSE_CHUNK_INDEX + 1);
  }

  // ----- chunks of any kind, in any order

  /** A chunk whose index is missing, no number, negative or above 16384 fails its request, whatever came before. */
  lemma ABadIndexFails(v: View, parse: Parser, r: Id, raw: RawIndex, final: bool, chunk: Text)
    requires v.pending && v.future == Some(Waiting) && r != ""
    requires raw.Integer? ==> raw.value < 0 || raw.value > 16384
    ensures Feed(v, parse, r, ResponseChunk(r, raw, final, chunk)) == v.(chunks := None, future := Some(Failed(ChunkInvalid)))
  {
  }

  /** The chunk messages for r with these indexes and texts, the last one marked. */
  ghost function Numbered(r: Id, indexes: seq<nat>, texts: seq<Text>): seq<Message>
    requires |indexes| == |texts|
  {
    seq(|texts|, k requires 0 <= k < |texts| => ResponseChunk(r, Integer(indexes[k]), k == |texts| - 1, texts[k]))
  }

  /** Of several chunks with one index the last one counts. */
  ghost function Placed(indexes: seq<nat>, texts: seq<Text>, n: nat): map<int, Text>
    requires n <= |indexes| == |texts|
  {
    if n == 0 then map[] else Placed(indexes, texts, n - 1)[indexes[n - 1] := texts[n - 1]]
  }

  lemma {:induction false} ChunksAreCollected(v: View, parse: Parser, r: Id, indexes: seq<nat>, texts: seq<Text>, n: nat)
    requires r != "" && Idle(v) && n < |indexes| == |texts| && forall k :: 0 <= k < |indexes| ==> indexes[k] <= 16384
    ensures FeedAll(v, parse, r, Numbered(r, indexes, texts)[..n])
            == if n == 0 then v else v.(chunks := Some(Placed(indexes, texts, n)))
  {
    if n > 0 {
      var ms := Numbered(r, indexes, texts);
      ChunksAreCollected(v, parse, r, indexes, texts, n - 1);
      assert ms[..n] == ms[..n - 1] + [ms[n - 1]];
      assert Placed(indexes, texts, 0) == map[];
      hide Placed;
      CollectOne(v, parse, r, indexes[n - 1], texts[n - 1], if n == 1 then map[] else Placed(indexes, texts, n - 1));
    }
  }

  lemma CollectOne(v: View, parse: Parser, r: Id, index: nat, chunk: Text, had: map<int, Text>)
    requires r != "" && Idle(v) && index <= 16384
    ensures had == map[] ==> ChunkView(v, parse, r, Integer(index), false, chunk) == v.(chunks := Some(map[index as int := chunk]))
    ensures ChunkView(v.(chunks := Some(had)), parse, r, Integer(index), false, chunk)
            == v.(chunks := Some(had[index as int := chunk]))
  {
    assert map[][index as int := chunk] == map[index as int := chunk];
  }

  ghost predicate Gapless(chunks: map<int, Text>, n: nat) {
    forall k :: k in chunks <==> 0 <= k < n
  }

  lemma GaplessIsContiguous(chunks: map<int, Text>, n: nat)
    ensures Gapless(chunks, n) ==> |chunks| == n && Contiguous(chunks)
    ensures Contiguous(chunks) ==> Gapless(chunks, |chunks|)
  {
    if Gapless(chunks, n) {
      assert chunks.Keys == Range(0, n);
      assert |chunks| == |chunks.Keys|;
    }
  }

  lemma LastChunkDecides(v: View, parse: Parser, r: Id, indexes: seq<nat>, texts: seq<Text>)
    requires r != "" && Idle(v) && 0 < |indexes| == |texts| && forall k :: 0 <= k < |indexes| ==> indexes[k] <= 16384
    ensures FeedAll(v, parse, r, Numbered(r, indexes, texts)).future
            == Some(ChunkedOutcome(parse, r, Placed(indexes, texts, |indexes|)))
  {
    var last := |indexes| - 1;
    var ms := Numbered(r, indexes, texts);
    ChunksAreCollected(v, parse, r, indexes, texts, last);
    assert ms == ms[..last] + [ms[last]];
    assert Placed(indexes, texts, 0) == map[];
    var before := FeedAll(v, parse, r, ms[..last]);
    assert FeedAll(v, parse, r, ms) == Feed(before, parse, r, ms[last]);
    hide FeedAll;
    LastOfChunks(v, parse, r, indexes[last], texts[last], if last == 0 then map[] else Placed(indexes, texts, last), before);
    hide Feed, ChunkedOutcome;
  }

  lemma LastOfChunks(v: View, parse: Parser, r: Id, index: nat, chunk: Text, had: map<int, Text>, before: View)
    requires r != "" && Idle(v) && index <= 16384
    requires before == v.(chunks := Some(had)) || (before == v && had == map[])
    ensures ChunkView(before, parse, r, Integer(index), true, chunk).future
            == Some(ChunkedOutcome(parse, r, had[index as int := chunk]))
  {
    hide ChunkedOutcome;
  }

  /** What a request is told when its last chunk has come, for any chunks with any valid indexes: that they are incomplete if
      their indexes are not 0, 1, ... without a gap; otherwise the response in the joined text, if that is one with the same
      id, and that it is invalid if it is not. */
  lemma ChunkedOutcomeIs(v: View, parse: Parser, r: Id, indexes: seq<nat>, texts: seq<Text>, n: nat)
    requires r != "" && Idle(v) && 0 < |indexes| == |texts| && forall k :: 0 <= k < |indexes| ==> indexes[k] <= 16384
    ensures var future := FeedAll(v, parse, r, Numbered(r, indexes, texts)).future;
            var all := Placed(indexes, texts, |indexes|);
            && ((forall m: nat :: !Gapless(all, m)) ==> future == Some(Failed(ChunkIncomplete)))
            && (Gapless(all, n) ==>
                  var text := JoinFirst(all, n);
                  future == Some(if parse(text).Reply? && parse(text).id == r then Resolved(parse(text).body)
                                 else Failed(ChunkInvalid)))
  {
    var all := Placed(indexes, texts, |indexes|);
    LastChunkDecides(v, parse, r, indexes, texts);
    GaplessIsContiguous(all, n);
    hide FeedAll, Numbered, Placed;
  }

  lemma {:induction false} PlacedSlices(indexes: seq<nat>, texts: seq<Text>, n: nat, chunks: seq<Text>)
    requires n <= |indexes| == |texts|
    requires forall k :: 0 <= k < |indexes| ==> indexes[k] < |chunks| && texts[k] == chunks[indexes[k]]
    ensures forall i :: i in Placed(indexes, texts, n) <==> i in indexes[..n]
    ensures forall i :: i in Placed(indexes, texts, n) ==> 0 <= i < |chunks| && Placed(indexes, texts, n)[i] == chunks[i]
  {
    if n > 0 {
      PlacedSlices(indexes, texts, n - 1, chunks);
      assert indexes[..n] == indexes[..n - 1] + [indexes[n - 1]];
    }
  }

  /** The order in which the chunks of a response come does not matter, nor does a chunk that comes twice: once each slice
      of the text has come, marked or not, the last chunk resolves the request with the response. */
  lemma ChunksInAnyOrder(v: View, parse: Parser, r: Id, indexes: seq<nat>, texts: seq<Text>, text: Text, size: nat, body: Text)
    requires r != "" && Idle(v) && size > 0 && parse(text) == Reply(r, body) && 0 < |indexes| == |texts|
    requires |Slices(text, size)| <= 16385
    requires forall k :: 0 <= k < |indexes| ==>
                           indexes[k] < |Slices(text, size)| && texts[k] == Slices(text, size)[indexes[k]]
    requires forall i: nat :: i < |Slices(text, size)| ==> i in indexes
    ensures FeedAll(v, parse, r, Numbered(r, indexes, texts)).future == Some(Resolved(body))
  {
    var chunks := Slices(text, size);
    hide Slices, FeedAll, Numbered;
    var all := Placed(indexes, texts, |indexes|);
    PlacedSlices(indexes, texts, |indexes|, chunks);
    assert indexes[..|indexes|] == indexes;
    assert Gapless(all, |chunks|);
    JoinIsFlatten(chunks, |chunks|, all);
    assert chunks[..|chunks|] == chunks;
    FlattenSlices(text, size);
    ChunkedOutcomeIs(v, parse, r, indexes, texts, |chunks|);
  }

  // ----- losing the connection after everything has arrived

  /** What `send_request` hands to its caller. */
  ghost predicate MayReturn(s: Session, r: Id) {
    r in s.futures && s.futures[r].Resolved? && r in s.flags && s.flags[r]
  }

  /** The promise that a request which returns has all its artifacts holds only while the connection does.
      A request whose response and artifacts have all arrived can still return after a disconnect, and then it
      returns its response without them. */
  lemma DisconnectDropsArtifacts(s: Session, r: Id)
    requires Inv(s) && r in s.pending && MayReturn(s, r)
    ensures MayReturn(FailAll(s), r)
    ensures FailAll(s).futures[r] == s.futures[r]
    ensures Completed(FailAll(s), r) == []
    ensures Completed(FailAll(s), r) == Completed(s, r) <==> Completed(s, r) == []
  {
    assert Completed(FailAll(s), r) == [];
  }

  /** While it lasts, nothing that concerns other requests can take them away. */
  lemma ArtifactsStayUntilDisconnect(s: Session, parse: Parser, es: seq<Event>, r: Id)
    requires ConnectionLasts(s, parse, es) && Awaits(es, r) && MessagesOf(parse, es, r) == []
    ensures Completed(Run(s, parse, es), r) == Completed(s, r)
    ensures MayReturn(Run(s, parse, es), r) == MayReturn(s, r)
  {
    InterleavingIsInvisible(s, parse, es, r);
    var t := Run(s, parse, es);
    assert ViewOf(t, r) == ViewOf(s, r);
    assert ViewOf(t, r).future == ViewOf(s, r).future && ViewOf(t, r).flag == ViewOf(s, r).flag;
  }
}
