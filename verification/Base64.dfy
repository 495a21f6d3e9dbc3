/** Base64 with padding, as in section 4 of RFC 4648, over code units. */
module Base64 {
  import opened Options
  import opened Texts

  const PAD: CodeUnit := 61

  type Sextet = v: int | 0 <= v < 64

  function Symbol(v: Sextet): CodeUnit {
    if v < 26 then 65 + v
    else if v < 52 then 71 + v
    else if v < 62 then v - 4
    else if v == 62 then 43
    else 47
  }

  function Value(c: CodeUnit): Option<Sextet> {
    if 65 <= c <= 90 then Some(c - 65)
    else if 97 <= c <= 122 then Some(c - 71)
    else if 48 <= c <= 57 then Some(c + 4)
    else if c == 43 then Some(62)
    else if c == 47 then Some(63)
    else None
  }

  function EncodeGroup(a: byte, b: byte, c: byte): Text {
    [Symbol(a / 4), Symbol(a % 4 * 16 + b / 16), Symbol(b % 16 * 4 + c / 64), Symbol(c % 64)]
  }

  /** The alphabet of the standard. */
  lemma SymbolsAre(v: Sextet)
    ensures Symbol(v) == if v < 26 then 'A' as int + v else if v < 52 then 'a' as int + v - 26
                         else if v < 62 then '0' as int + v - 52 else if v == 62 then '+' as int else '/' as int
    ensures PAD == '=' as int
  {
  }

  /** The packing of the standard: four symbols hold the 24 bits of three bytes, highest first. */
  lemma GroupHoldsBits(a: byte, b: byte, c: byte) returns (p: Sextet, q: Sextet, r: Sextet, s: Sextet)
    ensures EncodeGroup(a, b, c) == [Symbol(p), Symbol(q), Symbol(r), Symbol(s)]
    ensures ((p * 64 + q) * 64 + r) * 64 + s == (a * 256 + b) * 256 + c
  {
    p, q, r, s := a / 4, a % 4 * 16 + b / 16, b % 16 * 4 + c / 64, c % 64;
    assert p * 64 + q == a * 16 + b / 16;
    assert (a * 16 + b / 16) * 64 + r == a * 1024 + b * 4 + c / 64;
    hide Symbol;
  }

  function Encode(bytes: seq<byte>): Text {
    if bytes == [] then []
    else if |bytes| == 1 then EncodeGroup(bytes[0], 0, 0)[..2] + [PAD, PAD]
    else if |bytes| == 2 then EncodeGroup(bytes[0], bytes[1], 0)[..3] + [PAD]
    else EncodeGroup(bytes[0], bytes[1], bytes[2]) + Encode(bytes[3..])
  }

  function DecodeGroup(p: Sextet, q: Sextet, r: Sextet, s: Sextet): (byte, byte, byte) {
    (p * 4 + q / 16, q % 16 * 16 + r / 4, r % 4 * 64 + s)
  }

  /** Nothing for a text that is not whole groups over the alphabet with padding at the end only. */
  function Decode(text: Text): Option<seq<byte>> {
    if text == [] then Some([])
    else if |text| < 4 || Value(text[0]).None? || Value(text[1]).None? then None
    else
      var p, q := Value(text[0]).value, Value(text[1]).value;
      if |text| == 4 && text[2] == PAD && text[3] == PAD then Some([DecodeGroup(p, q, 0, 0).0])
      else if Value(text[2]).None? then None
      else
        var r := Value(text[2]).value;
        if |text| == 4 && text[3] == PAD then
          var g := DecodeGroup(p, q, r, 0);
          Some([g.0, g.1])
        else if Value(text[3]).None? then None
        else
          match Decode(text[4..])
          case None => None
          case Some(rest) =>
            var g := DecodeGroup(p, q, r, Value(text[3]).value);
            Some([g.0, g.1, g.2] + rest)
  }

  lemma GroupRoundTrip(a: byte, b: byte, c: byte)
    ensures DecodeGroup(a / 4, a % 4 * 16 + b / 16, b % 16 * 4 + c / 64, c % 64) == (a, b, c)
  {
    var q, r := a % 4 * 16 + b / 16, b % 16 * 4 + c / 64;
    assert q / 16 == a % 4 && q % 16 == b / 16;
    assert r / 4 == b % 16 && r % 4 == c / 64;
  }

  lemma GroupSymbols(a: byte, b: byte, c: byte)
    ensures var g := EncodeGroup(a, b, c);
            && |g| == 4 && (forall k :: 0 <= k < 4 ==> g[k] != PAD)
            && Value(g[0]) == Some(a / 4) && Value(g[1]) == Some(a % 4 * 16 + b / 16)
            && Value(g[2]) == Some(b % 16 * 4 + c / 64) && Value(g[3]) == Some(c % 64)
  {
  }

  lemma DecodeStep(text: Text, p: Sextet, q: Sextet, r: Sextet, t: Sextet)
    requires |text| >= 4 && text[2] != PAD && text[3] != PAD && Decode(text[4..]).Some?
    requires Value(text[0]) == Some(p) && Value(text[1]) == Some(q) && Value(text[2]) == Some(r) && Value(text[3]) == Some(t)
    ensures var g := DecodeGroup(p, q, r, t); Decode(text) == Some([g.0, g.1, g.2] + Decode(text[4..]).value)
  {
    hide Value, DecodeGroup;
  }

  lemma DecodeFullGroup(a: byte, b: byte, c: byte, rest: Text)
    requires Decode(rest).Some?
    ensures Decode(EncodeGroup(a, b, c) + rest) == Some([a, b, c] + Decode(rest).value)
  {
    GroupSymbols(a, b, c);
    GroupRoundTrip(a, b, c);
    hide Symbol, Value, Decode, DecodeGroup, EncodeGroup;
    var g := EncodeGroup(a, b, c);
    var text := g + rest;
    assert text[4..] == rest;
    assert text[0] == g[0] && text[1] == g[1] && text[2] == g[2] && text[3] == g[3];
    DecodeStep(text, a / 4, a % 4 * 16 + b / 16, b % 16 * 4 + c / 64, c % 64);
  }

  lemma DecodeLastGroup(a: byte, b: byte)
    ensures Decode(EncodeGroup(a, 0, 0)[..2] + [PAD, PAD]) == Some([a])
    ensures Decode(EncodeGroup(a, b, 0)[..3] + [PAD]) == Some([a, b])
  {
    GroupSymbols(a, 0, 0);
    GroupRoundTrip(a, 0, 0);
    GroupSymbols(a, b, 0);
    GroupRoundTrip(a, b, 0);
    hide Symbol, Value, DecodeGroup;
    var one, two := EncodeGroup(a, 0, 0)[..2] + [PAD, PAD], EncodeGroup(a, b, 0)[..3] + [PAD];
    assert one[0] == EncodeGroup(a, 0, 0)[0] && one[1] == EncodeGroup(a, 0, 0)[1];
    assert two[0] == EncodeGroup(a, b, 0)[0] && two[1] == EncodeGroup(a, b, 0)[1] && two[2] == EncodeGroup(a, b, 0)[2];
  }

  /** Whatever decodes is whole groups over the alphabet, with padding at the end only. */
  lemma {:induction false} OnlyGroupsDecode(text: Text, k: nat)
    requires Decode(text).Some? && k < |text|
    ensures |text| % 4 == 0
    ensures Value(text[k]).Some? || (text[k] == PAD && k >= |text| - 2)
    ensures |text| >= 2 && text[|text| - 2] == PAD ==> text[|text| - 1] == PAD
    decreases |text|
  {
    hide Decode, Value;
    if |text| > 4 {
      FirstGroupDecodes(text);
      OnlyGroupsDecode(text[4..], if k < 4 then 0 else k - 4);
    } else {
      LastGroupDecodes(text);
    }
  }

  lemma FirstGroupDecodes(text: Text)
    requires Decode(text).Some? && |text| > 4
    ensures Value(text[0]).Some? && Value(text[1]).Some? && Value(text[2]).Some? && Value(text[3]).Some?
    ensures Decode(text[4..]).Some?
  {
    hide Value, DecodeGroup;
    var tail := Decode(text[4..]);
  }

  lemma LastGroupDecodes(text: Text)
    requires Decode(text).Some? && 0 < |text| <= 4
    ensures |text| == 4 && Value(text[0]).Some? && Value(text[1]).Some?
    ensures Value(text[2]).Some? || (text[2] == PAD && text[3] == PAD)
    ensures Value(text[3]).Some? || text[3] == PAD
    ensures text[2] == PAD ==> text[3] == PAD
  {
    assert Value(PAD) == None;
    hide Value, DecodeGroup;
  }

  /** Decoding an encoding gives the bytes back. */
  lemma {:induction false} RoundTrip(bytes: seq<byte>)
    ensures Decode(Encode(bytes)) == Some(bytes)
  {
    hide EncodeGroup;
    if |bytes| == 1 {
      DecodeLastGroup(bytes[0], 0);
      assert bytes == [bytes[0]];
    } else if |bytes| == 2 {
      DecodeLastGroup(bytes[0], bytes[1]);
      assert bytes == [bytes[0], bytes[1]];
    } else if |bytes| > 2 {
      RoundTrip(bytes[3..]);
      DecodeFullGroup(bytes[0], bytes[1], bytes[2], Encode(bytes[3..]));
      assert bytes == [bytes[0], bytes[1], bytes[2]] + bytes[3..];
    }
  }

  /** How an encoding ends tells how many bytes the last group holds. */
  function Padding(text: Text): nat {
    if |text| >= 2 && text[|text| - 2..] == [PAD, PAD] then 2
    else if |text| >= 1 && text[|text| - 1] == PAD then 1
    else 0
  }

  /** `base64ByteLength` (browser-cli-extension/src/debugger.js:67-79). */
  function ByteLength(text: Text): int {
    if text == [] then 0 else |text| * 3 / 4 - Padding(text)
  }

  /** The number of groups for n bytes, and the padding of the last one. */
  ghost function Groups(n: nat): nat {
    if n == 0 then 0 else if n < 3 then 1 else 1 + Groups(n - 3)
  }

  ghost function TailPadding(n: nat): nat {
    if n == 0 then 0 else if n < 3 then 3 - n else TailPadding(n - 3)
  }

  lemma {:induction false} GroupsHoldBytes(n: nat)
    ensures 3 * Groups(n) - TailPadding(n) == n
  {
    if n >= 3 {
      GroupsHoldBytes(n - 3);
    }
  }

  lemma {:induction false} EncodingShape(bytes: seq<byte>)
    ensures |Encode(bytes)| == 4 * Groups(|bytes|)
    ensures Padding(Encode(bytes)) == TailPadding(|bytes|)
  {
    hide Symbol, Value;
    var text := Encode(bytes);
    if |bytes| == 1 {
      assert text[2..] == [PAD, PAD];
    } else if |bytes| == 2 {
      GroupSymbols(bytes[0], bytes[1], 0);
      hide EncodeGroup;
      assert text[2..] == [EncodeGroup(bytes[0], bytes[1], 0)[2], PAD];
    } else if |bytes| > 2 {
      EncodingShape(bytes[3..]);
      var g, rest := EncodeGroup(bytes[0], bytes[1], bytes[2]), Encode(bytes[3..]);
      GroupSymbols(bytes[0], bytes[1], bytes[2]);
      assert text == g + rest;
      PaddingOfTail(g, rest);
    }
  }

  lemma PaddingOfTail(g: Text, rest: Text)
    requires |g| == 4 && |rest| != 1 && forall k :: 0 <= k < 4 ==> g[k] != PAD
    ensures Padding(g + rest) == Padding(rest)
  {
    var text := g + rest;
    if rest == [] {
      assert text[|text| - 2..][1] == g[3];
    } else {
      assert text[|text| - 2..] == rest[|rest| - 2..];
    }
  }

  /** The length computed from the text alone is the length of what was encoded. */
  lemma ByteLengthOfEncoding(bytes: seq<byte>)
    ensures ByteLength(Encode(bytes)) == |bytes|
  {
    hide Encode, Padding;
    EncodingShape(bytes);
    GroupsHoldBytes(|bytes|);
    assert Encode(bytes) == [] ==> |Encode(bytes)| == 0;
  }
}
