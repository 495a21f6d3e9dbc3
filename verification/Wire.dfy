/** The messages between the browser extension and the daemon, and the extension's side of sending them
    (extension/protocol.py, background/response_framing.js, background/artifact_actions.js). */
module Wire {
  import opened Options
  import opened Texts
  import Base64

  type Id = string

  const RESPONSE_CHUNK_SIZE: nat := 256 * 1024
  const ARTIFACT_CHUNK_SIZE: nat := 256 * 1024
  const MAX_RESPONSE_CHUNK_INDEX: nat := 16384

  /** What a chunk message may carry as its index: JSON null or a boolean, an integer, or something that
      Python's `int` rejects. */
  datatype RawIndex = NoIndex | Integer(value: int) | NotANumber

  datatype Descriptor = Descriptor(requestId: Id, artifactId: Id, details: string)

  datatype Message =
    | Response(text: Text)
    | ResponseChunk(id: Id, index: RawIndex, final: bool, chunk: Text)
    | ArtifactBegin(descriptor: Descriptor)
    | ArtifactChunk(requestId: Id, artifactId: Id, number: nat, final: bool, chunk: Text)
    | ArtifactEnd(requestId: Id, artifactId: Id, size: nat)

  datatype Artifact = Artifact(descriptor: Descriptor, content: seq<byte>)

  // ----- what is sent

  function ChunkMessage(id: Id, chunks: seq<Text>, k: nat): Message
    requires k < |chunks|
  {
    ResponseChunk(id, Integer(k), k == |chunks| - 1, chunks[k])
  }

  /** A response as it goes over the socket: whole if it fits, otherwise numbered pieces, the last marked. */
  function Framed(id: Id, text: Text, size: nat): seq<Message>
    requires size > 0
  {
    if |text| <= size then [Response(text)]
    else
      var chunks := Slices(text, size);
      seq(|chunks|, k requires 0 <= k < |chunks| => ChunkMessage(id, chunks, k))
  }

  function ArtifactPiece(d: Descriptor, chunks: seq<Text>, k: nat): Message
    requires k < |chunks|
  {
    ArtifactChunk(d.requestId, d.artifactId, k, k == |chunks| - 1, chunks[k])
  }

  /** An artifact as it goes over the socket: numbered pieces, the last marked, between a beginning and an end. */
  function Emitted(a: Artifact, size: nat): seq<Message>
    requires size > 0
  {
    var chunks := Slices(Base64.Encode(a.content), size);
    var d := a.descriptor;
    [ArtifactBegin(d)]
    + seq(|chunks|, k requires 0 <= k < |chunks| => ArtifactPiece(d, chunks, k))
    + [ArtifactEnd(d.requestId, d.artifactId, |a.content|)]
  }

  /** A response goes whole exactly if it is no longer than a slice, and otherwise in pieces that join to it, numbered from 0
      with the last one marked. */
  lemma FramedIs(id: Id, text: Text, size: nat)
    requires size > 0
    ensures |text| <= size <==> Framed(id, text, size) == [Response(text)]
    ensures |text| > size ==>
              var ms := Framed(id, text, size);
              && (forall k :: 0 <= k < |ms| ==> ms[k] == ResponseChunk(id, Integer(k), k == |ms| - 1, Slices(text, size)[k]))
              && |ms| == |Slices(text, size)| && Flatten(Slices(text, size)) == text
  {
    FlattenSlices(text, size);
    if |text| > size {
      assert Framed(id, text, size)[0] == ChunkMessage(id, Slices(text, size), 0);
    }
  }

  /** What is sent for an artifact: its description, pieces that join to the encoding of its bytes, numbered from 0 with the
      last one marked, and the number of its bytes. */
  lemma EmittedIs(a: Artifact, size: nat)
    requires size > 0
    ensures var ms, n := Emitted(a, size), |Emitted(a, size)| - 2;
            && n >= 0 && ms[0] == ArtifactBegin(a.descriptor)
            && ms[n + 1] == ArtifactEnd(a.descriptor.requestId, a.descriptor.artifactId, |a.content|)
            && (forall k :: 1 <= k <= n ==>
                  && ms[k].ArtifactChunk? && ms[k].requestId == a.descriptor.requestId && ms[k].artifactId == a.descriptor.artifactId
                  && ms[k].number == k - 1 && (ms[k].final <==> k == n))
            && Flatten(seq(n, k requires 0 <= k < n => if ms[k + 1].ArtifactChunk? then ms[k + 1].chunk else []))
               == Base64.Encode(a.content)
  {
    var ms, chunks := Emitted(a, size), Slices(Base64.Encode(a.content), size);
    FlattenSlices(Base64.Encode(a.content), size);
    hide Base64.Encode, Slices, Flatten;
    assert seq(|chunks|, k requires 0 <= k < |chunks| => if ms[k + 1].ArtifactChunk? then ms[k + 1].chunk else []) == chunks;
  }

  /** Where a loop that has cut `index` pieces stands: at `offset`, with the remaining pieces ahead. */
  ghost predicate CutUpTo<T>(s: seq<T>, size: nat, index: nat, offset: nat)
    requires size > 0
  {
    && index <= |Slices(s, size)|
    && (if offset < |s| then Slices(s[offset..], size) == Slices(s, size)[index..] else index == |Slices(s, size)|)
  }

  lemma CutOne<T>(s: seq<T>, size: nat, index: nat, offset: nat)
    requires size > 0 && CutUpTo(s, size, index, offset) && offset < |s|
    ensures index < |Slices(s, size)|
    ensures Slices(s, size)[index] == s[offset..if offset + size < |s| then offset + size else |s|]
    ensures offset + size >= |s| <==> index == |Slices(s, size)| - 1
    ensures CutUpTo(s, size, index + 1, offset + size)
  {
    var all, rest := Slices(s, size), s[offset..];
    hide Slices;
    assert all[index] == all[index..][0];
    assert all[index + 1..] == all[index..][1..];
    if |rest| > size {
      assert rest[..size] == s[offset..offset + size];
      assert rest[size..] == s[offset + size..];
    }
  }

  /** response_framing.js:7-31; an unusable chunk size falls back to the default. */
  method SendFramedMessage(id: Id, encoded: Text, chunkSize: int) returns (sent: seq<Message>)
    ensures sent == Framed(id, encoded, if chunkSize > 0 then chunkSize else RESPONSE_CHUNK_SIZE)
  {
    var size := if chunkSize > 0 then chunkSize else RESPONSE_CHUNK_SIZE;
    if |encoded| <= size {
      return [Response(encoded)];
    }
    sent := [];
    var index, offset := 0, 0;
    ghost var chunks := Slices(encoded, size);
    hide CutUpTo;
    while offset < |encoded|
      invariant 0 <= index <= |chunks| && 0 <= offset
      invariant CutUpTo(encoded, size, index, offset)
      invariant |sent| == index && forall k :: 0 <= k < index ==> sent[k] == ChunkMessage(id, chunks, k)
      decreases |encoded| - offset
    {
      CutOne(encoded, size, index, offset);
      var chunk := encoded[offset..if offset + size < |encoded| then offset + size else |encoded|];
      sent := sent + [ResponseChunk(id, Integer(index), offset + size >= |encoded|, chunk)];
      index := index + 1;
      offset := offset + size;
    }
  }

  /** artifact_actions.js:140-179. */
  method EmitArtifact(a: Artifact) returns (sent: seq<Message>)
    ensures sent == Emitted(a, ARTIFACT_CHUNK_SIZE)
  {
    var d := a.descriptor;
    var base64 := Base64.Encode(a.content);
    var size := ARTIFACT_CHUNK_SIZE;
    sent := [ArtifactBegin(d)];
    var index, offset := 0, 0;
    ghost var chunks := Slices(base64, size);
    hide CutUpTo;
    while offset < |base64|
      invariant 0 <= index <= |chunks| && 0 <= offset
      invariant CutUpTo(base64, size, index, offset)
      invariant |sent| == index + 1 && sent[0] == ArtifactBegin(d)
      invariant forall k :: 0 <= k < index ==> sent[k + 1] == ArtifactPiece(d, chunks, k)
      decreases |base64| - offset
    {
      CutOne(base64, size, index, offset);
      var chunk := base64[offset..if offset + size < |base64| then offset + size else |base64|];
      sent := sent + [ArtifactChunk(d.requestId, d.artifactId, index, offset + size >= |base64|, chunk)];
      index := index + 1;
      offset := offset + size;
    }
    sent := sent + [ArtifactEnd(d.requestId, d.artifactId, |a.content|)];
  }

  /** The browser's own base64 call sees the bytes as one text, built in pieces of 0x8000 (artifact_actions.js:50-56). */
  method BytesToText(bytes: seq<byte>) returns (text: Text)
    ensures text == bytes
  {
    text := [];
    var index := 0;
    while index < |bytes|
      invariant 0 <= index
      invariant text == if index <= |bytes| then bytes[..index] else bytes
      decreases |bytes| - index
    {
      var end := if index + 0x8000 < |bytes| then index + 0x8000 else |bytes|;
      assert bytes[..end] == bytes[..index] + bytes[index..end];
      text := text + bytes[index..end];
      index := index + 0x8000;
    }
  }
}
