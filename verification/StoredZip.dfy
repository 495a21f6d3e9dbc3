/** The archive writer of the extension (background/artifact_actions.js:6-25, 58-121) and a reader that follows
    PKWARE APPNOTE.TXT sections 4.3.7, 4.3.12 and 4.3.16: from the end record to the central directory, and from
    each of its headers to the local header it points at. */
module StoredZip {
  import opened Options
  import opened Texts
  import Crc32

  /** The name is already encoded as UTF-8. */
  datatype Entry = Entry(name: seq<byte>, data: seq<byte>)

  // ----- little-endian fields

  datatype Field = Field(value: nat, width: nat)

  function BytesOf(value: nat, width: nat): (bytes: seq<byte>)
    ensures |bytes| == width
    decreases width
  {
    if width == 0 then [] else [value % 256] + BytesOf(value / 256, width - 1)
  }

  /** A number as `toLittleEndian` writes it: first reduced to 32 bits. */
  function LittleEndian(value: nat, width: nat): seq<byte> {
    BytesOf(value % 0x1_0000_0000, width)
  }

  function Number(bytes: seq<byte>): nat {
    if bytes == [] then 0 else bytes[0] + 256 * Number(bytes[1..])
  }

  function Encoded(fields: seq<Field>): seq<byte> {
    if fields == [] then [] else LittleEndian(fields[0].value, fields[0].width) + Encoded(fields[1..])
  }

  /** Numbers of the given widths from the front of s, and what follows them. */
  function Decoded(s: seq<byte>, widths: seq<nat>): Option<(seq<nat>, seq<byte>)> {
    if widths == [] then Some(([], s))
    else if |s| < widths[0] then None
    else
      match Decoded(s[widths[0]..], widths[1..])
      case None => None
      case Some(tail) => Some(([Number(s[..widths[0]])] + tail.0, tail.1))
  }

  /** What a field holds once it is cut to its width. */
  function Held(f: Field): nat {
    if f.width == 2 then f.value % 0x1_0000 else f.value % 0x1_0000_0000
  }

  ghost predicate Widths(fields: seq<Field>, widths: seq<nat>) {
    && |fields| == |widths|
    && forall k :: 0 <= k < |fields| ==> fields[k].width == widths[k] && widths[k] in {2, 4}
  }

  lemma NumberStep(v: nat, width: nat)
    ensures Number(BytesOf(v, width + 1)) == v % 256 + 256 * Number(BytesOf(v / 256, width))
  {
    assert BytesOf(v, width + 1)[1..] == BytesOf(v / 256, width);
  }

  lemma SplitRemainders(v: nat)
    ensures v % 256 + 256 * (v / 256 % 0x100) == v % 0x1_0000
    ensures v % 256 + 256 * (v / 256 % 0x1_0000) == v % 0x100_0000
    ensures v % 256 + 256 * (v / 256 % 0x100_0000) == v % 0x1_0000_0000
  {
    var r, q := v % 256, v / 256;
    assert v == 256 * q + r;
    var a, b, c := q / 0x100, q / 0x1_0000, q / 0x100_0000;
    assert q == 0x100 * a + q % 0x100;
    assert q == 0x1_0000 * b + q % 0x1_0000;
    assert q == 0x100_0000 * c + q % 0x100_0000;
    Remainder16(v, a, r + 256 * (q % 0x100));
    Remainder24(v, b, r + 256 * (q % 0x1_0000));
  }

  lemma Remainder16(v: nat, q: nat, r: nat)
    requires v == 0x1_0000 * q + r && r < 0x1_0000
    ensures v % 0x1_0000 == r
  {
  }

  lemma Remainder24(v: nat, q: nat, r: nat)
    requires v == 0x100_0000 * q + r && r < 0x100_0000
    ensures v % 0x100_0000 == r
  {
  }

  lemma NumberOf(v: nat)
    ensures Number(BytesOf(v, 1)) == v % 0x100
    ensures Number(BytesOf(v, 2)) == v % 0x1_0000
  {
    NumberStep(v, 0);
    NumberStep(v, 1);
    NumberStep(v / 256, 0);
    SplitRemainders(v);
    hide BytesOf;
    assert BytesOf(v / 256, 0) == [] && BytesOf(v / 256 / 256, 0) == [];
  }

  lemma NumberOfTwo(v: nat)
    ensures Number(BytesOf(v, 2)) == v % 0x1_0000
  {
    NumberOf(v);
  }

  lemma NumberOfFour(v: nat)
    ensures Number(BytesOf(v, 4)) == v % 0x1_0000_0000
  {
    hide BytesOf, Number;
    NumberStep(v, 3);
    NumberStep(v / 256, 2);
    NumberOf(v / 256 / 256);
    SplitRemainders(v);
    SplitRemainders(v / 256);
  }

  lemma HeldNumber(f: Field)
    requires f.width in {2, 4}
    ensures Number(LittleEndian(f.value, f.width)) == Held(f)
  {
    hide BytesOf, Number;
    if f.width == 2 {
      NumberOfTwo(f.value % 0x1_0000_0000);
    } else {
      NumberOfFour(f.value % 0x1_0000_0000);
    }
  }

  /** Reading fields back gives what each of them holds, and leaves what follows. */
  lemma {:induction false} FieldsRoundTrip(fields: seq<Field>, widths: seq<nat>, rest: seq<byte>)
    requires Widths(fields, widths)
    ensures var d := Decoded(Encoded(fields) + rest, widths);
            && d.Some? && d.value.1 == rest && |d.value.0| == |fields|
            && forall k :: 0 <= k < |fields| ==> d.value.0[k] == Held(fields[k])
  {
    hide LittleEndian, Held, Number;
    if fields == [] {
      assert Encoded(fields) + rest == rest;
    } else {
      var first := LittleEndian(fields[0].value, fields[0].width);
      LittleEndianLength(fields[0]);
      var s := Encoded(fields) + rest;
      assert s == first + (Encoded(fields[1..]) + rest);
      assert s[..widths[0]] == first;
      assert s[widths[0]..] == Encoded(fields[1..]) + rest;
      HeldNumber(fields[0]);
      FieldsRoundTrip(fields[1..], widths[1..], rest);
      DecodedStep(s, widths, first, Encoded(fields[1..]) + rest);
      hide Decoded, Encoded;
    }
  }

  lemma DecodedStep(s: seq<byte>, widths: seq<nat>, first: seq<byte>, rest: seq<byte>)
    requires widths != [] && |s| >= widths[0] && s[..widths[0]] == first && s[widths[0]..] == rest
    ensures Decoded(s, widths)
            == match Decoded(rest, widths[1..]) case None => None case Some(tail) => Some(([Number(first)] + tail.0, tail.1))
  {
    hide Number;
  }

  lemma LittleEndianLength(f: Field)
    ensures |LittleEndian(f.value, f.width)| == f.width
  {
  }

  // ----- the layout

  const LOCAL_SIGNATURE: nat := 0x04034b50
  const CENTRAL_SIGNATURE: nat := 0x02014b50
  const END_SIGNATURE: nat := 0x06054b50

  /** As bytes, the signatures are the letters PK and two digits. */
  lemma SignaturesAre()
    ensures LittleEndian(LOCAL_SIGNATURE, 4) == ['P' as int, 'K' as int, 3, 4]
    ensures LittleEndian(CENTRAL_SIGNATURE, 4) == ['P' as int, 'K' as int, 1, 2]
    ensures LittleEndian(END_SIGNATURE, 4) == ['P' as int, 'K' as int, 5, 6]
  {
    hide LittleEndian;
    FourBytes(0x50, 0x4b, 3, 4);
    FourBytes(0x50, 0x4b, 1, 2);
    FourBytes(0x50, 0x4b, 5, 6);
  }

  lemma FourBytes(a: byte, b: byte, c: byte, d: byte)
    ensures LittleEndian(a + 256 * (b + 256 * (c + 256 * d)), 4) == [a, b, c, d]
  {
    hide BytesOf;
    var third := c + 256 * d;
    var second := b + 256 * third;
    assert 0 <= third < 0x1_0000 && 0 <= second < 0x100_0000;
    Unreduced(a + 256 * second);
    LowByte(a, second, 3);
    LowByte(b, third, 2);
    LowByte(c, d, 1);
    LowByte(d, 0, 0);
    hide LittleEndian;
  }

  lemma Unreduced(value: nat)
    requires value < 0x1_0000_0000
    ensures LittleEndian(value, 4) == BytesOf(value, 4)
  {
    hide BytesOf;
  }

  lemma LowByte(low: byte, rest: nat, width: nat)
    ensures BytesOf(low + 256 * rest, width + 1) == [low] + BytesOf(rest, width)
    ensures BytesOf(rest, 0) == []
  {
    assert (low + 256 * rest) % 256 == low && (low + 256 * rest) / 256 == rest;
  }

  function LocalFields(crc: nat, size: nat, nameSize: nat): seq<Field> {
    [Field(LOCAL_SIGNATURE, 4), Field(20, 2), Field(0, 2), Field(0, 2), Field(0, 2), Field(0, 2),
     Field(crc, 4), Field(size, 4), Field(size, 4), Field(nameSize, 2), Field(0, 2)]
  }

  function CentralFields(crc: nat, size: nat, nameSize: nat, offset: nat): seq<Field> {
    [Field(CENTRAL_SIGNATURE, 4), Field(20, 2), Field(20, 2), Field(0, 2), Field(0, 2), Field(0, 2), Field(0, 2),
     Field(crc, 4), Field(size, 4), Field(size, 4), Field(nameSize, 2), Field(0, 2), Field(0, 2), Field(0, 2), Field(0, 2),
     Field(0, 4), Field(offset, 4)]
  }

  function EndFields(count: nat, centralSize: nat, localSize: nat): seq<Field> {
    [Field(END_SIGNATURE, 4), Field(0, 2), Field(0, 2), Field(count, 2), Field(count, 2),
     Field(centralSize, 4), Field(localSize, 4), Field(0, 2)]
  }

  function CrcOf(data: seq<byte>): nat {
    Crc32.Checksum(data) as nat
  }

  function LocalPart(e: Entry): seq<byte> {
    Encoded(LocalFields(CrcOf(e.data), |e.data|, |e.name|)) + e.name + e.data
  }

  function CentralPart(e: Entry, offset: nat): seq<byte> {
    Encoded(CentralFields(CrcOf(e.data), |e.data|, |e.name|, offset)) + e.name
  }

  function Locals(entries: seq<Entry>): seq<byte> {
    if entries == [] then [] else Locals(entries[..|entries| - 1]) + LocalPart(entries[|entries| - 1])
  }

  function Centrals(entries: seq<Entry>): seq<byte> {
    if entries == [] then []
    else
      var before := entries[..|entries| - 1];
      Centrals(before) + CentralPart(entries[|entries| - 1], |Locals(before)|)
  }

  function EndRecord(entries: seq<Entry>): seq<byte> {
    Encoded(EndFields(|entries|, |Centrals(entries)|, |Locals(entries)|))
  }

  function Archive(entries: seq<Entry>): seq<byte> {
    Locals(entries) + Centrals(entries) + EndRecord(entries)
  }

  // ----- the reader

  const LOCAL_WIDTHS: seq<nat> := [4, 2, 2, 2, 2, 2, 4, 4, 4, 2, 2]
  const CENTRAL_WIDTHS: seq<nat> := [4, 2, 2, 2, 2, 2, 2, 4, 4, 4, 2, 2, 2, 2, 2, 4, 4]
  const END_WIDTHS: seq<nat> := [4, 2, 2, 2, 2, 4, 4, 2]

  /** The version of the format that plain stored entries need. */
  const PLAIN_VERSION: nat := 20

  /** The local file header at `offset`, which must agree with what the directory says about it. An entry that needs a later
      version of the format, or that is encrypted or otherwise special by its flags, is refused. */
  function ReadLocal(s: seq<byte>, offset: nat, crc: nat, size: nat, name: seq<byte>): Option<Entry> {
    if offset > |s| then None
    else
      match Decoded(s[offset..], LOCAL_WIDTHS)
      case None => None
      case Some(header) =>
        var v, rest := header.0, header.1;
        if |v| != 11 || v[0] != LOCAL_SIGNATURE || v[1] > PLAIN_VERSION || v[2] != 0 || v[3] != 0 || v[6] != crc || v[7] != size || v[8] != size
           || v[9] != |name| || |rest| < v[9] + v[10] + size || rest[..v[9]] != name
        then None
        else
          var data := rest[v[9] + v[10]..][..size];
          if CrcOf(data) == crc then Some(Entry(name, data)) else None
  }

  /** `count` headers of the central directory, which must fill s up to `end`. */
  function ReadCentral(s: seq<byte>, at: nat, end: nat, count: nat): Option<seq<Entry>>
    requires end <= |s|
    decreases count
  {
    if count == 0 then if at == end then Some([]) else None
    else if at > end then None
    else
      match Decoded(s[at..end], CENTRAL_WIDTHS)
      case None => None
      case Some(header) =>
        var v, rest := header.0, header.1;
        if |v| != 17 || v[0] != CENTRAL_SIGNATURE || v[2] > PLAIN_VERSION || v[3] != 0 || v[4] != 0 || v[8] != v[9] || v[13] != 0
           || |rest| < v[10] + v[11] + v[12]
        then None
        else
          match ReadLocal(s, v[16], v[7], v[9], rest[..v[10]])
          case None => None
          case Some(entry) =>
            match ReadCentral(s, at + 46 + v[10] + v[11] + v[12], end, count - 1)
            case None => None
            case Some(tail) => Some([entry] + tail)
  }

  /** An archive on one disk without a comment: its directory ends where the end record starts. */
  function ReadArchive(s: seq<byte>): Option<seq<Entry>> {
    if |s| < 22 then None
    else
      var end := |s| - 22;
      match Decoded(s[end..], END_WIDTHS)
      case None => None
      case Some(header) =>
        var v := header.0;
        if |v| != 8 || v[0] != END_SIGNATURE || v[1] != 0 || v[2] != 0 || v[3] != v[4] || v[6] + v[5] != end || v[7] != 0 then None
        else ReadCentral(s, v[6], end, v[3])
  }

  // ----- the archive reads back

  /** Everything the format's 16- and 32-bit fields have to hold fits into them. */
  ghost predicate Fits(entries: seq<Entry>) {
    && |entries| < 0x1_0000
    && (forall k :: 0 <= k < |entries| ==> |entries[k].name| < 0x1_0000)
    && |Locals(entries)| < 0x1_0000_0000
    && |Centrals(entries)| < 0x1_0000_0000
  }

  lemma CrcFits(data: seq<byte>)
    ensures CrcOf(data) < 0x1_0000_0000
  {
  }

  /** The bytes that the first n widths take. */
  ghost function SumTo(widths: seq<nat>, n: nat): nat
    requires n <= |widths|
  {
    if n == 0 then 0 else SumTo(widths, n - 1) + widths[n - 1]
  }

  lemma {:induction false} SumFromFront(widths: seq<nat>, n: nat)
    requires 0 < n <= |widths|
    ensures SumTo(widths, n) == widths[0] + SumTo(widths[1..], n - 1)
  {
    if n > 1 {
      SumFromFront(widths, n - 1);
    }
  }

  lemma {:induction false} EncodedLength(fields: seq<Field>, widths: seq<nat>)
    requires Widths(fields, widths)
    ensures |Encoded(fields)| == SumTo(widths, |widths|)
  {
    hide LittleEndian;
    if fields != [] {
      LittleEndianLength(fields[0]);
      EncodedLength(fields[1..], widths[1..]);
      SumFromFront(widths, |widths|);
    }
  }

  lemma LocalSize(w: seq<nat>)
    requires w == LOCAL_WIDTHS
    ensures |w| == 11 && SumTo(w, 11) == 30
  {
    assert SumTo(w, 1) == 4;
    assert SumTo(w, 3) == 8;
    assert SumTo(w, 5) == 12;
    assert SumTo(w, 7) == 18;
    assert SumTo(w, 9) == 26;
  }

  lemma CentralSize(w: seq<nat>)
    requires w == CENTRAL_WIDTHS
    ensures |w| == 17 && SumTo(w, 17) == 46
  {
    assert SumTo(w, 1) == 4;
    assert SumTo(w, 3) == 8;
    assert SumTo(w, 5) == 12;
    assert SumTo(w, 7) == 16;
    assert SumTo(w, 9) == 24;
    assert SumTo(w, 11) == 30;
    assert SumTo(w, 13) == 34;
    assert SumTo(w, 15) == 38;
  }

  lemma EndSize(w: seq<nat>)
    requires w == END_WIDTHS
    ensures |w| == 8 && SumTo(w, 8) == 22
  {
    assert SumTo(w, 2) == 6;
    assert SumTo(w, 4) == 10;
    assert SumTo(w, 6) == 16;
  }

  lemma HeaderSizes(crc: nat, size: nat, nameSize: nat, offset: nat, count: nat)
    ensures |Encoded(LocalFields(crc, size, nameSize))| == 30
    ensures |Encoded(CentralFields(crc, size, nameSize, offset))| == 46
    ensures |Encoded(EndFields(count, size, offset))| == 22
  {
    hide Encoded, SumTo;
    LocalSize(LOCAL_WIDTHS);
    CentralSize(CENTRAL_WIDTHS);
    EndSize(END_WIDTHS);
    EncodedLength(LocalFields(crc, size, nameSize), LOCAL_WIDTHS);
    EncodedLength(CentralFields(crc, size, nameSize, offset), CENTRAL_WIDTHS);
    EncodedLength(EndFields(count, size, offset), END_WIDTHS);
  }

  // ----- where the parts are

  lemma {:induction false} PrefixParts(entries: seq<Entry>, n: nat)
    requires n <= |entries|
    ensures Locals(entries[..n]) <= Locals(entries) && Centrals(entries[..n]) <= Centrals(entries)
    decreases |entries|
  {
    hide LocalPart, CentralPart;
    if n == |entries| {
      assert entries[..n] == entries;
    } else {
      var m := |entries| - 1;
      PrefixParts(entries[..m], n);
      assert entries[..m][..n] == entries[..n];
    }
  }

  /** Entry k's local part starts where the parts before it end, and so does its central part. */
  lemma PartAt(entries: seq<Entry>, k: nat)
    requires k < |entries|
    ensures var at, cat := |Locals(entries[..k])|, |Centrals(entries[..k])|;
            var local, central := LocalPart(entries[k]), CentralPart(entries[k], at);
            && at + |local| <= |Locals(entries)| && Locals(entries)[at..at + |local|] == local
            && cat + |central| <= |Centrals(entries)| && Centrals(entries)[cat..cat + |central|] == central
            && |Centrals(entries[..k + 1])| == cat + |central|
  {
    hide LocalPart, CentralPart;
    PrefixParts(entries, k + 1);
    assert entries[..k + 1][..k] == entries[..k];
    assert Locals(entries[..k + 1]) == Locals(entries[..k]) + LocalPart(entries[k]);
    assert Centrals(entries[..k + 1]) == Centrals(entries[..k]) + CentralPart(entries[k], |Locals(entries[..k])|);
  }

  lemma LocalHeader(crc: nat, size: nat, nameSize: nat, rest: seq<byte>)
    requires crc < 0x1_0000_0000 && size < 0x1_0000_0000 && nameSize < 0x1_0000
    ensures var d := Decoded(Encoded(LocalFields(crc, size, nameSize)) + rest, LOCAL_WIDTHS);
            && d.Some? && d.value.1 == rest && |d.value.0| == 11
            && d.value.0[0] == LOCAL_SIGNATURE && d.value.0[1] == 20 && d.value.0[2] == 0 && d.value.0[3] == 0 && d.value.0[6] == crc && d.value.0[7] == size
            && d.value.0[8] == size && d.value.0[9] == nameSize && d.value.0[10] == 0
            && d.value.0[4] == d.value.0[5] == 0
  {
    hide Encoded, Decoded;
    FieldsRoundTrip(LocalFields(crc, size, nameSize), LOCAL_WIDTHS, rest);
  }

  lemma CentralHeader(crc: nat, size: nat, nameSize: nat, offset: nat, rest: seq<byte>)
    requires crc < 0x1_0000_0000 && size < 0x1_0000_0000 && nameSize < 0x1_0000 && offset < 0x1_0000_0000
    ensures var d := Decoded(Encoded(CentralFields(crc, size, nameSize, offset)) + rest, CENTRAL_WIDTHS);
            && d.Some? && d.value.1 == rest && |d.value.0| == 17
            && d.value.0[0] == CENTRAL_SIGNATURE && d.value.0[1] == 20 && d.value.0[2] == 20 && d.value.0[3] == 0
            && d.value.0[4] == 0 && d.value.0[13] == 0 && d.value.0[7] == crc && d.value.0[8] == size
            && d.value.0[9] == size && d.value.0[10] == nameSize && d.value.0[11] == 0 && d.value.0[12] == 0
            && d.value.0[16] == offset
            && d.value.0[5] == d.value.0[6] == d.value.0[14] == d.value.0[15] == 0
  {
    hide Encoded, Decoded;
    FieldsRoundTrip(CentralFields(crc, size, nameSize, offset), CENTRAL_WIDTHS, rest);
  }

  /** A part of s, spelled out as what it starts with and what comes after. */
  lemma SplitPart(s: seq<byte>, at: nat, end: nat, head: seq<byte>, tail: seq<byte>)
    requires at + |head| + |tail| <= end <= |s| && s[at..at + |head| + |tail|] == head + tail
    ensures s[at..end] == head + (tail + s[at + |head| + |tail|..end])
  {
    assert s[at..end] == s[at..at + |head| + |tail|] + s[at + |head| + |tail|..end];
  }

  lemma LocalReads(s: seq<byte>, e: Entry, at: nat)
    requires at + |LocalPart(e)| <= |s| && s[at..at + |LocalPart(e)|] == LocalPart(e)
    requires |e.name| < 0x1_0000 && |e.data| < 0x1_0000_0000
    ensures ReadLocal(s, at, CrcOf(e.data), |e.data|, e.name) == Some(e)
  {
    hide Encoded, Decoded, CrcOf, LocalFields;
    var header := Encoded(LocalFields(CrcOf(e.data), |e.data|, |e.name|));
    assert LocalPart(e) == header + (e.name + e.data);
    SplitPart(s, at, |s|, header, e.name + e.data);
    var after := s[at + |LocalPart(e)|..|s|];
    var rest := e.name + e.data + after;
    assert s[at..] == s[at..|s|];
    CrcFits(e.data);
    LocalHeader(CrcOf(e.data), |e.data|, |e.name|, rest);
    assert rest[..|e.name|] == e.name;
    assert rest[|e.name|..][..|e.data|] == e.data;
  }

  lemma CentralStep(s: seq<byte>, at: nat, end: nat, count: nat, v: seq<nat>, rest: seq<byte>, e: Entry)
    requires at <= end <= |s| && Decoded(s[at..end], CENTRAL_WIDTHS) == Some((v, rest))
    requires |v| == 17 && v[0] == CENTRAL_SIGNATURE && v[2] == 20 && v[3] == 0 && v[13] == 0 && v[4] == 0 && v[8] == v[9] && v[11] == v[12] == 0
    requires v[10] <= |rest| && ReadLocal(s, v[16], v[7], v[9], rest[..v[10]]) == Some(e)
    ensures ReadCentral(s, at, end, count + 1)
            == var tail := ReadCentral(s, at + 46 + v[10], end, count);
               if tail.Some? then Some([e] + tail.value) else None
  {
    hide Decoded, ReadLocal;
  }

  lemma PartSizes(e: Entry, offset: nat)
    ensures |LocalPart(e)| == 30 + |e.name| + |e.data| && |CentralPart(e, offset)| == 46 + |e.name|
  {
    hide Encoded, LocalFields, CentralFields;
    HeaderSizes(CrcOf(e.data), |e.data|, |e.name|, offset, 0);
  }

  lemma PartSlice(s: seq<byte>, at: nat, end: nat, header: seq<byte>, name: seq<byte>) returns (rest: seq<byte>)
    requires at + |header| + |name| <= end <= |s| && s[at..at + |header| + |name|] == header + name
    ensures s[at..end] == header + rest && |rest| >= |name| && rest[..|name|] == name
  {
    SplitPart(s, at, end, header, name);
    rest := name + s[at + |header| + |name|..end];
  }

  lemma CentralSlice(s: seq<byte>, e: Entry, at: nat, end: nat, offset: nat) returns (rest: seq<byte>)
    requires at + |CentralPart(e, offset)| <= end <= |s|
    requires s[at..at + |CentralPart(e, offset)|] == CentralPart(e, offset)
    ensures s[at..end] == Encoded(CentralFields(CrcOf(e.data), |e.data|, |e.name|, offset)) + rest
    ensures |CentralPart(e, offset)| == 46 + |e.name| && |rest| >= |e.name| && rest[..|e.name|] == e.name
  {
    PartSizes(e, offset);
    var header := Encoded(CentralFields(CrcOf(e.data), |e.data|, |e.name|, offset));
    hide Encoded, CrcOf, CentralFields;
    assert CentralPart(e, offset) == header + e.name;
    hide CentralPart;
    rest := PartSlice(s, at, end, header, e.name);
  }

  /** One header of the directory leads to its entry and to the next header. */
  lemma CentralReads(s: seq<byte>, e: Entry, at: nat, end: nat, offset: nat, count: nat)
    requires at + |CentralPart(e, offset)| <= end <= |s|
    requires s[at..at + |CentralPart(e, offset)|] == CentralPart(e, offset)
    requires offset + |LocalPart(e)| <= |s| && s[offset..offset + |LocalPart(e)|] == LocalPart(e)
    requires |e.name| < 0x1_0000 && |e.data| < 0x1_0000_0000 && offset < 0x1_0000_0000
    ensures ReadCentral(s, at, end, count + 1)
            == var tail := ReadCentral(s, at + |CentralPart(e, offset)|, end, count);
               if tail.Some? then Some([e] + tail.value) else None
  {
    hide Encoded, Decoded, CrcOf, ReadLocal, LocalPart, CentralPart, CentralFields, ReadCentral;
    var rest := CentralSlice(s, e, at, end, offset);
    LocalReads(s, e, offset);
    CrcFits(e.data);
    CentralHeader(CrcOf(e.data), |e.data|, |e.name|, offset, rest);
    CentralStep(s, at, end, count, Decoded(s[at..end], CENTRAL_WIDTHS).value.0, rest, e);
  }

  lemma ArchiveParts(entries: seq<Entry>)
    ensures var s, l, c := Archive(entries), Locals(entries), Centrals(entries);
            && |s| == |l| + |c| + 22
            && s[..|l|] == l && s[|l|..|l| + |c|] == c && s[|l| + |c|..] == EndRecord(entries)
  {
    HeaderSizes(0, |Centrals(entries)|, 0, |Locals(entries)|, |entries|);
    hide Locals, Centrals, EndRecord;
    EndRecordSize(entries);
    ThreeParts(Locals(entries), Centrals(entries), EndRecord(entries));
  }

  lemma EndRecordSize(entries: seq<Entry>)
    ensures |EndRecord(entries)| == 22
  {
    HeaderSizes(0, |Centrals(entries)|, 0, |Locals(entries)|, |entries|);
    hide Locals, Centrals, Encoded;
  }

  lemma ThreeParts(a: seq<byte>, b: seq<byte>, c: seq<byte>)
    ensures var s := a + b + c; s[..|a|] == a && s[|a|..|a| + |b|] == b && s[|a| + |b|..] == c
  {
  }

  lemma {:induction false} DirectoryReads(entries: seq<Entry>, k: nat)
    requires k <= |entries| && Fits(entries)
    ensures |Archive(entries)| >= 22
    ensures ReadCentral(Archive(entries), |Locals(entries)| + |Centrals(entries[..k])|, |Archive(entries)| - 22, |entries| - k)
            == Some(entries[k..])
    decreases |entries| - k
  {
    hide Encoded, LocalPart, CentralPart, Locals, Centrals, ReadCentral, Archive;
    var s, l, c := Archive(entries), Locals(entries), Centrals(entries);
    ArchiveParts(entries);
    if k == |entries| {
      assert entries[..k] == entries;
      DirectoryEnds(s, |l| + |c|);
    } else {
      DirectoryReads(entries, k + 1);
      PartAt(entries, k);
      var e, offset, at := entries[k], |Locals(entries[..k])|, |l| + |Centrals(entries[..k])|;
      var local, central := LocalPart(e), CentralPart(e, offset);
      SubSlice(s, 0, |l|, offset, offset + |local|);
      SubSlice(s, |l|, |l| + |c|, at - |l|, at - |l| + |central|);
      LocalPartHolds(e);
      assert |e.name| < 0x1_0000;
      CentralReads(s, e, at, |l| + |c|, offset, |entries| - k - 1);
      assert entries[k..] == [e] + entries[k + 1..];
    }
  }

  lemma SubSlice(s: seq<byte>, lo: nat, hi: nat, p: nat, q: nat)
    requires lo <= hi <= |s| && p <= q <= hi - lo
    ensures s[lo..hi][p..q] == s[lo + p..lo + q]
  {
    var a, b := s[lo..hi][p..q], s[lo + p..lo + q];
    assert |a| == |b|;
    assert forall k :: 0 <= k < |a| ==> a[k] == b[k];
  }

  lemma DirectoryEnds(s: seq<byte>, end: nat)
    requires end <= |s|
    ensures ReadCentral(s, end, end, 0) == Some([])
  {
  }

  lemma LocalPartHolds(e: Entry)
    ensures |LocalPart(e)| >= |e.data| && |LocalPart(e)| > 0
  {
    HeaderSizes(CrcOf(e.data), |e.data|, |e.name|, 0, 0);
  }

  lemma EndHeader(count: nat, centralSize: nat, localSize: nat)
    ensures var d := Decoded(Encoded(EndFields(count, centralSize, localSize)), END_WIDTHS);
            && d.Some? && |d.value.0| == 8 && d.value.0[0] == END_SIGNATURE && d.value.0[7] == 0
            && d.value.0[1] == d.value.0[2] == 0
            && d.value.0[3] == d.value.0[4] == count % 0x1_0000
            && d.value.0[5] == centralSize % 0x1_0000_0000 && d.value.0[6] == localSize % 0x1_0000_0000
  {
    hide Encoded, Decoded;
    var fields := EndFields(count, centralSize, localSize);
    FieldsRoundTrip(fields, END_WIDTHS, []);
    assert Encoded(fields) + [] == Encoded(fields);
  }

  lemma EndReads(entries: seq<Entry>)
    ensures var d := Decoded(EndRecord(entries), END_WIDTHS);
            && d.Some? && |d.value.0| == 8 && d.value.0[0] == END_SIGNATURE && d.value.0[7] == 0
            && d.value.0[1] == d.value.0[2] == 0
            && d.value.0[3] == d.value.0[4] == |entries| % 0x1_0000
            && d.value.0[5] == |Centrals(entries)| % 0x1_0000_0000
            && d.value.0[6] == |Locals(entries)| % 0x1_0000_0000
  {
    hide Encoded, Decoded, Locals, Centrals, EndFields;
    EndHeader(|entries|, |Centrals(entries)|, |Locals(entries)|);
  }

  lemma {:induction false} CentralCounts(s: seq<byte>, at: nat, end: nat, count: nat)
    requires end <= |s| && ReadCentral(s, at, end, count).Some?
    ensures var entries := ReadCentral(s, at, end, count).value;
            |entries| == count && forall k :: 0 <= k < count ==> |entries[k].name| < 0x1_0000
    decreases count
  {
    hide Decoded, ReadLocal;
    if count > 0 {
      var header := Decoded(s[at..end], CENTRAL_WIDTHS).value;
      var v, rest := header.0, header.1;
      DecodedIsSmall(s[at..end], CENTRAL_WIDTHS, 10);
      LocalKeepsName(s, v[16], v[7], v[9], rest[..v[10]]);
      CentralCounts(s, at + 46 + v[10] + v[11] + v[12], end, count - 1);
    }
  }

  lemma LocalKeepsName(s: seq<byte>, offset: nat, crc: nat, size: nat, name: seq<byte>)
    ensures ReadLocal(s, offset, crc, size, name).Some? ==> ReadLocal(s, offset, crc, size, name).value.name == name
  {
  }

  lemma {:induction false} DecodedIsSmall(s: seq<byte>, widths: seq<nat>, k: nat)
    requires Decoded(s, widths).Some?
    ensures |Decoded(s, widths).value.0| == |widths|
    ensures k < |widths| && widths[k] == 2 ==> Decoded(s, widths).value.0[k] < 0x1_0000
  {
    if widths != [] {
      DecodedIsSmall(s[widths[0]..], widths[1..], if k == 0 then 0 else k - 1);
      if k == 0 && widths[0] == 2 {
        var two := s[..2];
        assert Number(two) == two[0] + 256 * Number(two[1..]);
        assert Number(two[1..]) == two[1] + 256 * Number(two[1..][1..]);
      }
    }
  }

  /** An archive reads back as the entries it was built from exactly when its counts, names, offsets and sizes
      fit into the fields that record them. */
  lemma ArchiveReadsBackIff(entries: seq<Entry>)
    ensures ReadArchive(Archive(entries)) == Some(entries) <==> Fits(entries)
  {
    hide Locals, Centrals, ReadCentral, Decoded, Archive;
    var s := Archive(entries);
    var l, c := |Locals(entries)|, |Centrals(entries)|;
    ArchiveParts(entries);
    EndReads(entries);
    if Fits(entries) {
      DirectoryReads(entries, 0);
      NoPartsYet(entries);
    }
    if ReadArchive(s) == Some(entries) {
      assert l % 0x1_0000_0000 + c % 0x1_0000_0000 == l + c;
      CentralCounts(s, l, |s| - 22, |entries| % 0x1_0000);
    }
  }

  lemma {:induction false} SizesOfLongNames(entries: seq<Entry>)
    requires forall k :: 0 <= k < |entries| ==> |entries[k].name| == 65500 && entries[k].data == []
    ensures |Locals(entries)| == 65530 * |entries| && |Centrals(entries)| == 65546 * |entries|
  {
    hide LocalPart, CentralPart;
    if entries != [] {
      var before, last := entries[..|entries| - 1], entries[|entries| - 1];
      SizesOfLongNames(before);
      PartSizes(last, |Locals(before)|);
    }
  }

  /** The central directory needs a bound of its own: with 65535 empty entries whose names have 65500 bytes, count, names
      and local part all fit their fields, and the directory does not. */
  lemma DirectoryNeedsItsOwnBound(name: seq<byte>) returns (entries: seq<Entry>)
    requires |name| == 65500
    ensures |entries| == 65535 && (forall k :: 0 <= k < |entries| ==> entries[k] == Entry(name, []))
    ensures |Locals(entries)| < 0x1_0000_0000 <= |Centrals(entries)|
    ensures !Fits(entries) && ReadArchive(Archive(entries)) != Some(entries)
  {
    entries := seq(65535, _ => Entry(name, []));
    SizesOfLongNames(entries);
    ArchiveReadsBackIff(entries);
    hide Locals, Centrals, ReadArchive, Archive;
  }

  lemma NoPartsYet(entries: seq<Entry>)
    ensures |Centrals(entries[..0])| == 0 && entries[0..] == entries
  {
  }

  // ----- the writer

  method ToLittleEndian(value: nat, width: nat) returns (bytes: array<byte>)
    ensures fresh(bytes) && bytes[..] == LittleEndian(value, width)
  {
    bytes := new byte[width](_ => 0);
    var current: nat := value % 0x1_0000_0000;
    for index := 0 to width
      invariant bytes[..index] + BytesOf(current, width - index) == LittleEndian(value, width)
    {
      ghost var done := bytes[..index];
      bytes[index] := current % 256;
      assert bytes[..index + 1] == done + [current % 256];
      assert done + BytesOf(current, width - index)
          == done + [current % 256] + BytesOf(current / 256, width - index - 1);
      current := current / 256;
    }
    assert bytes[..] == bytes[..width] + BytesOf(current, 0);
  }

  /** All parts copied behind one another into one buffer. */
  method ConcatBytes(parts: seq<seq<byte>>) returns (output: array<byte>)
    ensures fresh(output) && output[..] == Flatten(parts)
  {
    var total := 0;
    for k := 0 to |parts|
      invariant total == |Flatten(parts[..k])|
    {
      FlattenPrefix(parts, k);
      total := total + |parts[k]|;
    }
    assert parts[..|parts|] == parts;
    output := new byte[total](_ => 0);
    var offset := 0;
    for k := 0 to |parts|
      invariant offset == |Flatten(parts[..k])| && offset <= total
      invariant output[..offset] == Flatten(parts[..k])
    {
      FlattenPrefix(parts, k);
      FlattenWithin(parts, k + 1);
      ghost var before := output[..offset];
      forall j | 0 <= j < |parts[k]| {
        output[offset + j] := parts[k][j];
      }
      assert output[..offset] == before;
      assert output[offset..offset + |parts[k]|] == parts[k];
      assert output[..offset + |parts[k]|] == output[..offset] + output[offset..offset + |parts[k]|];
      offset := offset + |parts[k]|;
    }
    assert output[..] == output[..offset];
  }

  lemma FlattenPrefix(parts: seq<seq<byte>>, k: nat)
    requires k < |parts|
    ensures Flatten(parts[..k + 1]) == Flatten(parts[..k]) + parts[k]
  {
    assert parts[..k + 1] == parts[..k] + [parts[k]];
    FlattenLast(parts[..k], parts[k]);
  }

  lemma FlattenWithin(parts: seq<seq<byte>>, k: nat)
    requires k <= |parts|
    ensures |Flatten(parts[..k])| <= |Flatten(parts)|
  {
    assert parts == parts[..k] + parts[k..];
    FlattenAppend(parts[..k], parts[k..]);
  }

  lemma EncodedStep(fields: seq<Field>, k: nat)
    requires k < |fields|
    ensures Encoded(fields[k..]) == LittleEndian(fields[k].value, fields[k].width) + Encoded(fields[k + 1..])
  {
    assert fields[k..][1..] == fields[k + 1..];
    hide LittleEndian;
  }

  lemma NoHeaderYet(fields: seq<Field>)
    ensures Flatten<byte>([]) + Encoded(fields[0..]) == Encoded(fields)
  {
    assert fields[0..] == fields;
  }

  lemma WholeHeader(fields: seq<Field>, bytes: seq<byte>)
    requires bytes + Encoded(fields[|fields|..]) == Encoded(fields)
    ensures bytes == Encoded(fields)
  {
    assert fields[|fields|..] == [] && bytes + [] == bytes;
  }

  /** The header fields followed by the given parts, as one buffer. */
  method HeaderBytes(fields: seq<Field>, more: seq<seq<byte>>) returns (bytes: seq<byte>)
    ensures bytes == Encoded(fields) + Flatten(more)
  {
    hide Encoded, LittleEndian, Flatten;
    var parts: seq<seq<byte>> := [];
    NoHeaderYet(fields);
    for k := 0 to |fields|
      invariant Flatten(parts) + Encoded(fields[k..]) == Encoded(fields)
    {
      var field := ToLittleEndian(fields[k].value, fields[k].width);
      FlattenLast(parts, field[..]);
      EncodedStep(fields, k);
      assert Flatten(parts) + (field[..] + Encoded(fields[k + 1..])) == (Flatten(parts) + field[..]) + Encoded(fields[k + 1..]);
      parts := parts + [field[..]];
    }
    WholeHeader(fields, Flatten(parts));
    FlattenAppend(parts, more);
    var output := ConcatBytes(parts + more);
    bytes := output[..];
  }

  lemma FlattenFew(a: seq<byte>, b: seq<byte>)
    ensures Flatten([a]) == a && Flatten([a, b]) == a + b
  {
    FlattenLast([], a);
    FlattenLast([a], b);
    assert [] + [a] == [a];
    assert [a] + [b] == [a, b];
  }

  /** buildStoredZip (artifact_actions.js:58-121). */
  method BuildStoredZip(entries: seq<Entry>) returns (archive: seq<byte>)
    ensures archive == Archive(entries)
  {
    hide Encoded, CrcOf;
    var localParts: seq<seq<byte>>, centralParts: seq<seq<byte>> := [], [];
    var offset: nat := 0;
    for k := 0 to |entries|
      invariant Flatten(localParts) == Locals(entries[..k]) && Flatten(centralParts) == Centrals(entries[..k])
      invariant offset == |Locals(entries[..k])|
    {
      var e := entries[k];
      assert entries[..k + 1][..k] == entries[..k];
      var crc := Crc(e.data);
      FlattenFew(e.name, e.data);
      var local := HeaderBytes(LocalFields(crc, |e.data|, |e.name|), [e.name, e.data]);
      assert local == LocalPart(e);
      FlattenLast(localParts, local);
      localParts := localParts + [local];
      FlattenFew(e.name, []);
      var central := HeaderBytes(CentralFields(crc, |e.data|, |e.name|, offset), [e.name]);
      assert central == CentralPart(e, offset);
      FlattenLast(centralParts, central);
      centralParts := centralParts + [central];
      offset := offset + |local|;
    }
    assert entries[..|entries|] == entries;
    var centralDirectory := ConcatBytes(centralParts);
    var localDirectory := ConcatBytes(localParts);
    var end := HeaderBytes(EndFields(|entries|, centralDirectory.Length, localDirectory.Length), []);
    assert end == EndRecord(entries);
    var output := ConcatBytes([localDirectory[..], centralDirectory[..], end]);
    FlattenThree(localDirectory[..], centralDirectory[..], end);
    archive := output[..];
  }

  lemma FlattenThree(a: seq<byte>, b: seq<byte>, c: seq<byte>)
    ensures Flatten([a, b, c]) == a + b + c
  {
    FlattenFew(a, b);
    FlattenLast([a, b], c);
    assert [a, b] + [c] == [a, b, c];
  }

  method Crc(data: seq<byte>) returns (crc: nat)
    ensures crc == CrcOf(data)
  {
    var register := Crc32.Compute(data);
    crc := register as nat;
  }
}
