/** Giving a clipped screenshot the colour metadata of an unclipped one (browser-cli-extension/src/debugger.js:639-669).
    Chunks are laid out as in section 5.3 of the W3C PNG specification: a length, a type, a body and a checksum. */
module PngSplice {
  import opened Options
  import opened Texts

  const SIGNATURE: seq<byte> := [137, 80, 78, 71, 13, 10, 26, 10]

  /** iCCP, sRGB, gAMA, cHRM and cICP. */
  const COLOR_TYPES: seq<seq<byte>> :=
    [[105, 67, 67, 80], [115, 82, 71, 66], [103, 65, 77, 65], [99, 72, 82, 77], [99, 73, 67, 80]]

  /** A whole chunk, as its bytes. */
  type Chunk = seq<byte>

  function BigEndian(bytes: seq<byte>, at: nat): nat
    requires at + 4 <= |bytes|
  {
    var b0: nat, b1: nat, b2: nat, b3: nat := bytes[at], bytes[at + 1], bytes[at + 2], bytes[at + 3];
    ((b0 * 256 + b1) * 256 + b2) * 256 + b3
  }

  predicate IsChunk(c: Chunk) {
    |c| >= 12 && BigEndian(c, 0) == |c| - 12
  }

  predicate IsColor(c: Chunk)
    requires |c| >= 12
  {
    c[4..8] in COLOR_TYPES
  }

  /** The type of a chunk, read as text. */
  function TypeName(c: Chunk): string
    requires |c| >= 12
  {
    [c[4] as char, c[5] as char, c[6] as char, c[7] as char]
  }

  /** The chunks that count are those that tell how colours are meant, by the names the specification gives them, and a
      chunk is as long as its first four bytes say, highest first. */
  lemma ColorChunksAre(c: Chunk)
    requires |c| >= 12
    ensures IsColor(c) <==> TypeName(c) in {"iCCP", "sRGB", "gAMA", "cHRM", "cICP"}
    ensures var a: nat, b: nat, d: nat, e: nat := c[0], c[1], c[2], c[3];
            IsChunk(c) <==> |c| == 12 + 0x1000000 * a + 0x10000 * b + 0x100 * d + e
  {
    var t := c[4..8];
    assert t[0] == c[4] && t[1] == c[5] && t[2] == c[6] && t[3] == c[7];
    ColorTypesAre(t);
    assert TypeName(c) == [t[0] as char, t[1] as char, t[2] as char, t[3] as char];
  }

  lemma ColorTypesAre(t: seq<byte>)
    requires |t| == 4
    ensures t in COLOR_TYPES <==> [t[0] as char, t[1] as char, t[2] as char, t[3] as char] in {"iCCP", "sRGB", "gAMA", "cHRM", "cICP"}
  {
    var name := [t[0] as char, t[1] as char, t[2] as char, t[3] as char];
    assert name == "iCCP" <==> t == [105, 67, 67, 80] by { SameName(t, "iCCP"); }
    assert name == "sRGB" <==> t == [115, 82, 71, 66] by { SameName(t, "sRGB"); }
    assert name == "gAMA" <==> t == [103, 65, 77, 65] by { SameName(t, "gAMA"); }
    assert name == "cHRM" <==> t == [99, 72, 82, 77] by { SameName(t, "cHRM"); }
    assert name == "cICP" <==> t == [99, 73, 67, 80] by { SameName(t, "cICP"); }
    assert t in COLOR_TYPES
      <==> t == COLOR_TYPES[0] || t == COLOR_TYPES[1] || t == COLOR_TYPES[2] || t == COLOR_TYPES[3] || t == COLOR_TYPES[4];
  }

  lemma SameName(t: seq<byte>, name: string)
    requires |t| == |name| == 4 && forall k :: 0 <= k < 4 ==> name[k] as int < 256
    ensures [t[0] as char, t[1] as char, t[2] as char, t[3] as char] == name
            <==> t == [name[0] as int, name[1] as int, name[2] as int, name[3] as int]
  {
  }

  predicate AllChunks(chunks: seq<Chunk>) {
    forall i :: 0 <= i < |chunks| ==> IsChunk(chunks[i])
  }

  function Colors(chunks: seq<Chunk>): seq<Chunk>
    requires AllChunks(chunks)
  {
    if chunks == [] then []
    else
      var last := chunks[|chunks| - 1];
      Colors(chunks[..|chunks| - 1]) + if IsColor(last) then [last] else []
  }

  /** An image file: the signature, its chunks, and fewer bytes than a chunk needs. */
  ghost predicate IsImage(bytes: seq<byte>, chunks: seq<Chunk>, tail: seq<byte>) {
    |bytes| >= 33 && AllChunks(chunks) && |tail| < 12 && bytes == SIGNATURE + Flatten(chunks) + tail
  }

  /** The chunks from an offset on, as they are read one after the other. */
  function Walk(bytes: seq<byte>, offset: nat): Option<seq<Chunk>>
    requires offset <= |bytes|
    decreases |bytes| - offset
  {
    if offset + 12 > |bytes| then Some([])
    else
      var size := BigEndian(bytes, offset);
      if offset + size + 12 > |bytes| then None
      else
        match Walk(bytes, offset + size + 12)
        case None => None
        case Some(rest) => Some([bytes[offset..offset + size + 12]] + rest)
  }

  lemma SameLength(bytes: seq<byte>, at: nat, c: seq<byte>)
    requires |c| >= 4 && at + |c| <= |bytes| && bytes[at..at + |c|] == c
    ensures BigEndian(bytes, at) == BigEndian(c, 0)
  {
    assert c[0] == bytes[at] && c[1] == bytes[at + 1] && c[2] == bytes[at + 2] && c[3] == bytes[at + 3];
  }

  lemma {:induction false} WalkIsSound(bytes: seq<byte>, offset: nat)
    requires offset <= |bytes| && Walk(bytes, offset).Some?
    ensures AllChunks(Walk(bytes, offset).value)
    ensures var n := offset + |Flatten(Walk(bytes, offset).value)|;
            n <= |bytes| < n + 12 && bytes[offset..n] == Flatten(Walk(bytes, offset).value)
    decreases |bytes| - offset
  {
    if offset + 12 <= |bytes| {
      var next := offset + BigEndian(bytes, offset) + 12;
      WalkIsSound(bytes, next);
      var rest := Walk(bytes, next).value;
      assert Walk(bytes, offset).value[1..] == rest;
      assert bytes[offset..next + |Flatten(rest)|] == bytes[offset..next] + bytes[next..next + |Flatten(rest)|];
    }
  }

  lemma {:induction false} WalkReads(before: seq<byte>, chunks: seq<Chunk>, tail: seq<byte>)
    requires AllChunks(chunks) && |tail| < 12
    ensures Walk(before + Flatten(chunks) + tail, |before|) == Some(chunks)
    decreases |chunks|
  {
    hide BigEndian;
    var bytes := before + Flatten(chunks) + tail;
    if chunks != [] {
      var c := chunks[0];
      assert IsChunk(c) && AllChunks(chunks[1..]);
      WalkReads(before + c, chunks[1..], tail);
      assert bytes == before + c + Flatten(chunks[1..]) + tail;
      hide Flatten;
      assert bytes[|before|..|before| + |c|] == c;
      SameLength(bytes, |before|, c);
      WalkStep(bytes, |before|, c);
      hide Walk;
      assert [c] + chunks[1..] == chunks;
    }
  }

  lemma WalkStep(bytes: seq<byte>, offset: nat, c: Chunk)
    requires IsChunk(c) && offset + |c| <= |bytes| && bytes[offset..offset + |c|] == c && BigEndian(bytes, offset) == BigEndian(c, 0)
    ensures Walk(bytes, offset)
            == match Walk(bytes, offset + |c|) case None => None case Some(rest) => Some([c] + rest)
  {
    hide BigEndian;
  }

  predicate HasSignature(bytes: seq<byte>) {
    |bytes| >= 33 && bytes[..8] == SIGNATURE
  }

  function ColorChunks(bytes: seq<byte>): Option<seq<Chunk>> {
    if !HasSignature(bytes) || Walk(bytes, 8) == None then None
    else
      assert AllChunks(Walk(bytes, 8).value) by { WalkIsSound(bytes, 8); }
      Some(Colors(Walk(bytes, 8).value))
  }

  lemma ImageIsReadBack(bytes: seq<byte>, chunks: seq<Chunk>, tail: seq<byte>)
    requires IsImage(bytes, chunks, tail)
    ensures Walk(bytes, 8) == Some(chunks) && ColorChunks(bytes) == Some(Colors(chunks))
  {
    WalkReads(SIGNATURE, chunks, tail);
    assert bytes[..8] == SIGNATURE;
  }

  /** Bytes are an image exactly if the walk gets through them, and an image has one reading only. */
  lemma ImagesAreReadBack(bytes: seq<byte>)
    ensures ColorChunks(bytes).Some? <==> exists chunks, tail :: IsImage(bytes, chunks, tail)
    ensures forall chunks, tail :: IsImage(bytes, chunks, tail) ==>
              Walk(bytes, 8) == Some(chunks) && ColorChunks(bytes) == Some(Colors(chunks))
  {
    forall chunks, tail | IsImage(bytes, chunks, tail)
      ensures Walk(bytes, 8) == Some(chunks) && ColorChunks(bytes) == Some(Colors(chunks))
    {
      ImageIsReadBack(bytes, chunks, tail);
    }
    if ColorChunks(bytes).Some? {
      WalkIsSound(bytes, 8);
      var chunks := Walk(bytes, 8).value;
      var n := 8 + |Flatten(chunks)|;
      assert bytes == bytes[..8] + bytes[8..n] + bytes[n..];
      assert IsImage(bytes, chunks, bytes[n..]);
    }
  }

  lemma OneMoreChunk(bytes: seq<byte>, offset: nat, seen: seq<Chunk>)
    requires offset + 12 <= |bytes| && offset + BigEndian(bytes, offset) + 12 <= |bytes|
    requires AllChunks(seen) && LeadsTo(bytes, seen, offset)
    ensures var next := offset + BigEndian(bytes, offset) + 12;
            var chunk := bytes[offset..next];
            && IsChunk(chunk) && AllChunks(seen + [chunk]) && LeadsTo(bytes, seen + [chunk], next)
            && Colors(seen + [chunk]) == if IsColor(chunk) then Colors(seen) + [chunk] else Colors(seen)
  {
    var next := offset + BigEndian(bytes, offset) + 12;
    var chunk := bytes[offset..next];
    hide BigEndian, IsColor, IsChunk;
    assert (seen + [chunk])[..|seen|] == seen;
    if Walk(bytes, next).Some? {
      assert seen + ([chunk] + Walk(bytes, next).value) == seen + [chunk] + Walk(bytes, next).value;
    }
  }

  /** The chunks seen so far are the first that the walk reads, up to this offset. */
  ghost predicate LeadsTo(bytes: seq<byte>, seen: seq<Chunk>, offset: nat) {
    && 8 <= offset <= |bytes|
    && Walk(bytes, 8) == match Walk(bytes, offset) case None => None case Some(rest) => Some(seen + rest)
  }

  method PngColorChunks(bytes: seq<byte>) returns (colors: Option<seq<Chunk>>)
    ensures colors == ColorChunks(bytes)
  {
    if !HasSignature(bytes) {
      return None;
    }
    var found: seq<Chunk> := [];
    ghost var seen: seq<Chunk> := [];
    var offset: nat := 8;
    WalkStarts(bytes);
    hide BigEndian, Colors, AllChunks, LeadsTo, Walk, ColorChunks, IsColor, IsChunk, HasSignature;
    while offset + 12 <= |bytes|
      invariant AllChunks(seen) && found == Colors(seen) && LeadsTo(bytes, seen, offset)
      decreases |bytes| - offset
    {
      var size := BigEndian(bytes, offset);
      if offset + size + 12 > |bytes| {
        WalkStops(bytes, seen, offset);
        return None;
      }
      OneMoreChunk(bytes, offset, seen);
      var next := offset + size + 12;
      var chunk := bytes[offset..next];
      if IsColor(chunk) {
        found := found + [chunk];
      }
      seen, offset := seen + [chunk], next;
    }
    WalkStops(bytes, seen, offset);
    colors := Some(found);
  }

  lemma WalkStarts(bytes: seq<byte>)
    requires |bytes| >= 8
    ensures LeadsTo(bytes, [], 8) && AllChunks([]) && Colors([]) == []
  {
    assert Walk(bytes, 8).Some? ==> [] + Walk(bytes, 8).value == Walk(bytes, 8).value;
  }

  lemma WalkStops(bytes: seq<byte>, seen: seq<Chunk>, offset: nat)
    requires HasSignature(bytes) && LeadsTo(bytes, seen, offset) && AllChunks(seen)
    ensures offset + 12 > |bytes| ==> ColorChunks(bytes) == Some(Colors(seen))
    ensures offset + 12 <= |bytes| && offset + BigEndian(bytes, offset) + 12 > |bytes| ==> ColorChunks(bytes) == None
  {
    assert seen + [] == seen;
    hide BigEndian, Colors, AllChunks;
  }

  // ----- the splice

  /** `Uint8Array.set`. */
  method Set(target: array<byte>, source: seq<byte>, offset: nat)
    requires offset + |source| <= target.Length
    modifies target
    ensures target[..] == old(target[..offset]) + source + old(target[offset + |source|..])
  {
    for i := 0 to |source|
      invariant target[..offset] == old(target[..offset])
      invariant target[offset..offset + i] == source[..i]
      invariant target[offset + |source|..] == old(target[offset + |source|..])
    {
      target[offset + i] := source[i];
      assert target[offset..offset + i + 1] == target[offset..offset + i] + [source[i]];
      assert source[..i + 1] == source[..i] + [source[i]];
    }
    assert source[..|source|] == source;
    assert target[..] == target[..offset] + target[offset..offset + |source|] + target[offset + |source|..];
  }

  function Spliced(bytes: seq<byte>, reference: seq<Chunk>): seq<byte>
    requires |bytes| >= 33
  {
    bytes[..33] + Flatten(reference) + bytes[33..]
  }

  function Preserved(bytes: seq<byte>, native: seq<byte>): seq<byte> {
    if ColorChunks(bytes) != Some([]) then bytes
    else
      match ColorChunks(native)
      case None => bytes
      case Some(reference) => if reference == [] then bytes else Spliced(bytes, reference)
  }

  method SumOfLengths(chunks: seq<Chunk>) returns (sum: nat)
    ensures sum == |Flatten(chunks)|
  {
    sum := 0;
    for i := 0 to |chunks|
      invariant sum == |Flatten(chunks[..i])|
    {
      assert chunks[..i + 1] == chunks[..i] + [chunks[i]];
      FlattenLast(chunks[..i], chunks[i]);
      sum := sum + |chunks[i]|;
    }
    assert chunks[..|chunks|] == chunks;
  }

  method Splice(bytes: seq<byte>, reference: seq<Chunk>) returns (restored: array<byte>)
    requires |bytes| >= 33
    ensures fresh(restored) && restored[..] == Spliced(bytes, reference)
  {
    var sum := SumOfLengths(reference);
    restored := new byte[|bytes| + sum](_ => 0);
    Set(restored, bytes[..33], 0);
    var offset: nat := 33;
    for i := 0 to |reference|
      invariant offset == 33 + |Flatten(reference[..i])| && restored.Length == |bytes| + sum
      invariant offset <= 33 + sum
      invariant restored[..offset] == bytes[..33] + Flatten(reference[..i])
    {
      PrefixFits(reference, i);
      ghost var done := restored[..offset];
      Set(restored, reference[i], offset);
      offset := offset + |reference[i]|;
      assert reference[..i + 1] == reference[..i] + [reference[i]];
      FlattenLast(reference[..i], reference[i]);
      assert restored[..offset] == done + reference[i];
    }
    assert reference[..|reference|] == reference;
    ghost var done := restored[..offset];
    Set(restored, bytes[33..], offset);
    assert restored[..] == done + bytes[33..];
  }

  lemma PrefixFits(chunks: seq<Chunk>, i: nat)
    requires i < |chunks|
    ensures |Flatten(chunks[..i])| + |chunks[i]| <= |Flatten(chunks)|
  {
    assert chunks == chunks[..i] + ([chunks[i]] + chunks[i + 1..]);
    FlattenAppend(chunks[..i], [chunks[i]] + chunks[i + 1..]);
    assert ([chunks[i]] + chunks[i + 1..])[1..] == chunks[i + 1..];
  }

  method PreserveCaptureColorProfile(bytes: seq<byte>, native: seq<byte>) returns (result: seq<byte>)
    ensures result == Preserved(bytes, native)
  {
    var colors := PngColorChunks(bytes);
    if colors != Some([]) {
      return bytes;
    }
    var reference := PngColorChunks(native);
    if reference == None || reference == Some([]) {
      return bytes;
    }
    var restored := Splice(bytes, reference.value);
    result := restored[..];
  }

  // ----- what the splice means

  lemma {:induction false} ColorsOfAppend(a: seq<Chunk>, b: seq<Chunk>)
    requires AllChunks(a) && AllChunks(b)
    ensures AllChunks(a + b) && Colors(a + b) == Colors(a) + Colors(b)
  {
    if b == [] {
      assert a + b == a;
    } else {
      var before, last := b[..|b| - 1], b[|b| - 1];
      ColorsOfAppend(a, before);
      assert (a + b)[..|a + b| - 1] == a + before && (a + b)[|a + b| - 1] == last;
      assert AllChunks(a + b);
      if !IsColor(last) {
        assert Colors(before) + [] == Colors(before);
      }
    }
  }

  lemma {:induction false} ColorsAreColors(chunks: seq<Chunk>)
    requires AllChunks(chunks)
    ensures AllChunks(Colors(chunks)) && Colors(Colors(chunks)) == Colors(chunks)
  {
    if chunks != [] {
      var before, last := chunks[..|chunks| - 1], chunks[|chunks| - 1];
      ColorsAreColors(before);
      if IsColor(last) {
        assert (Colors(before) + [last])[..|Colors(before)|] == Colors(before);
      } else {
        assert Colors(before) + [] == Colors(before);
      }
    }
  }

  lemma SplicedBytes(header: seq<Chunk>, reference: seq<Chunk>, rest: seq<Chunk>, tail: seq<byte>)
    requires |Flatten(header)| == 25 && |SIGNATURE + Flatten(header + rest) + tail| >= 33
    ensures Spliced(SIGNATURE + Flatten(header + rest) + tail, reference)
            == SIGNATURE + Flatten(header + reference + rest) + tail
  {
    FlattenAppend(header, rest);
    FlattenAppend(header, reference);
    FlattenAppend(header + reference, rest);
    var bytes := SIGNATURE + Flatten(header + rest) + tail;
    assert bytes[..33] == SIGNATURE + Flatten(header);
    assert bytes[33..] == Flatten(rest) + tail;
  }

  lemma ColorsOfThree(header: seq<Chunk>, reference: seq<Chunk>, rest: seq<Chunk>)
    requires AllChunks(header + rest) && AllChunks(reference)
    requires Colors(header + rest) == [] && Colors(reference) == reference
    ensures AllChunks(header + reference + rest) && Colors(header + reference + rest) == reference
  {
    AllOfParts(header, rest);
    ColorsOfAppend(header, rest);
    ColorsOfAppend(header, reference);
    ColorsOfAppend(header + reference, rest);
  }

  /** An image without colour chunks that begins with 25 bytes of whole chunks, as every header of 13 bytes does, gets the
      colour chunks of the reference right behind them: it reads as the header, those chunks, and the rest unchanged. */
  lemma RestoredImageHasTheReferenceColors(bytes: seq<byte>, header: seq<Chunk>, rest: seq<Chunk>, tail: seq<byte>,
                                           native: seq<byte>)
    requires IsImage(bytes, header + rest, tail) && |Flatten(header)| == 25
    requires ColorChunks(bytes) == Some([]) && ColorChunks(native).Some?
    ensures var reference := ColorChunks(native).value;
            && IsImage(Preserved(bytes, native), header + reference + rest, tail)
            && ColorChunks(Preserved(bytes, native)) == Some(reference)
  {
    var reference := ColorChunks(native).value;
    ReferenceIsColors(native);
    ImageIsReadBack(bytes, header + rest, tail);
    RestoredBytes(bytes, header, rest, tail, native);
    hide Walk, Colors, ColorChunks, Spliced, Preserved, IsColor, IsChunk, Flatten;
    ColorsOfThree(header, reference, rest);
    LongerFile(header, reference, rest);
    ImageIsReadBack(Preserved(bytes, native), header + reference + rest, tail);
  }

  /** An image is returned as it is exactly if it is none that can be read, or has colour chunks of its own, or the reference
      has none to give. */
  lemma ReturnedAsItIsIff(bytes: seq<byte>, native: seq<byte>)
    ensures Preserved(bytes, native) == bytes
            <==> ColorChunks(bytes).None? || ColorChunks(bytes).value != [] || ColorChunks(native).None?
                 || ColorChunks(native).value == []
  {
    if ColorChunks(bytes) == Some([]) && ColorChunks(native).Some? && ColorChunks(native).value != [] {
      var reference := ColorChunks(native).value;
      ReferenceIsColors(native);
      assert IsChunk(reference[0]);
      assert |Flatten(reference)| >= 12;
      hide ColorChunks;
      assert |Preserved(bytes, native)| == |bytes| + |Flatten(reference)|;
    }
  }

  lemma LongerFile(header: seq<Chunk>, reference: seq<Chunk>, rest: seq<Chunk>)
    ensures |Flatten(header + reference + rest)| >= |Flatten(header)|
  {
    FlattenAppend(header, reference + rest);
    assert header + (reference + rest) == header + reference + rest;
  }

  lemma ReferenceIsColors(native: seq<byte>)
    requires ColorChunks(native).Some?
    ensures AllChunks(ColorChunks(native).value) && Colors(ColorChunks(native).value) == ColorChunks(native).value
  {
    WalkIsSound(native, 8);
    ColorsAreColors(Walk(native, 8).value);
  }

  lemma RestoredBytes(bytes: seq<byte>, header: seq<Chunk>, rest: seq<Chunk>, tail: seq<byte>, native: seq<byte>)
    requires |bytes| >= 33 && bytes == SIGNATURE + Flatten(header + rest) + tail && |Flatten(header)| == 25
    requires ColorChunks(bytes) == Some([]) && ColorChunks(native).Some?
    ensures Preserved(bytes, native) == SIGNATURE + Flatten(header + ColorChunks(native).value + rest) + tail
  {
    var reference := ColorChunks(native).value;
    SplicedBytes(header, reference, rest, tail);
    hide Walk, Colors, AllChunks, ColorChunks, Flatten, Spliced;
    if reference == [] {
      assert header + reference == header;
    }
  }

  lemma AllOfParts(a: seq<Chunk>, b: seq<Chunk>)
    requires AllChunks(a + b)
    ensures AllChunks(a) && AllChunks(b)
  {
    assert forall i :: 0 <= i < |a| ==> a[i] == (a + b)[i];
    assert forall i :: 0 <= i < |b| ==> b[i] == (a + b)[|a| + i];
  }
}
