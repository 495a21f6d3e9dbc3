/** The bitwise CRC-32 of the archive writer (background/artifact_actions.js:27-36), proved to be the remainder of
    a division of polynomials over GF(2) (PKWARE APPNOTE.TXT section 4.4.7).
    A polynomial is the sequence of its coefficients, highest power first. */
module Crc32 {
  import opened Texts

  type Bits = seq<bool>

  function Zeros(n: nat): Bits {
    seq(n, _ => false)
  }

  function Ones(n: nat): Bits {
    seq(n, _ => true)
  }

  function Plus(a: Bits, b: Bits): (sum: Bits)
    requires |a| == |b|
    ensures |sum| == |a|
  {
    seq(|a|, i requires 0 <= i < |a| => a[i] != b[i])
  }

  /** The terms of x^32 + x^26 + x^23 + ... + 1 below x^32. */
  function LowTerms(): (terms: Bits)
    ensures |terms| == 32
  {
    [false, false, false, false, false, true, false, false] + [true, true, false, false, false, false, false, true]
    + [false, false, false, true, true, true, false, true] + [true, false, true, true, false, true, true, true]
  }

  /** The divisor of CRC-32, of degree 32. */
  function Divisor(): (d: Bits)
    ensures |d| == 33 && d[0]
  {
    [true] + LowTerms()
  }

  /** The divisor times x^n, or nothing, in n + 33 coefficients. */
  ghost function Multiple(bit: bool, n: nat): (m: Bits)
    ensures |m| == n + 33
  {
    if bit then Zeros(n) + Divisor() else Zeros(n + 33)
  }

  /** q times the divisor: long multiplication, one coefficient of q after the other. */
  ghost function TimesDivisor(q: Bits): (p: Bits)
    ensures |p| == |q| + 32
  {
    if q == [] then Zeros(32)
    else
      var n := |q| - 1;
      Plus(TimesDivisor(q[..n]) + [false], Multiple(q[n], n))
  }

  /** What is divided: the message times x^32, with the 32 highest coefficients inverted. */
  ghost function Dividend(message: Bits): Bits {
    Plus(message + Zeros(32), Ones(32) + Zeros(|message|))
  }

  /** rem is the remainder of the message's dividend, with quotient q. */
  ghost predicate Divides(message: Bits, q: Bits, rem: Bits) {
    && |q| == |message| && |rem| == 32
    && Dividend(message) == Plus(TimesDivisor(q), Zeros(|message|) + rem)
  }

  // ----- the remainder is unique

  lemma {:induction false} LeadingTerm(q: Bits, k: nat)
    requires k < |q| && forall j :: 0 <= j < k ==> !q[j]
    ensures TimesDivisor(q)[k] == q[k]
    decreases |q|
  {
    var n := |q| - 1;
    if k < n {
      LeadingTerm(q[..n], k);
    } else {
      ZeroQuotient(q[..n]);
    }
  }

  lemma {:induction false} ZeroQuotient(q: Bits)
    requires forall j :: 0 <= j < |q| ==> !q[j]
    ensures TimesDivisor(q) == Zeros(|q| + 32)
    decreases |q|
  {
    if q != [] {
      ZeroQuotient(q[..|q| - 1]);
    }
  }

  lemma PlusSwap(a: Bits, b: Bits, c: Bits, d: Bits)
    requires |a| == |b| == |c| == |d|
    ensures Plus(Plus(a, b), Plus(c, d)) == Plus(Plus(a, c), Plus(b, d))
  {
  }

  lemma PlusLonger(a: Bits, b: Bits)
    requires |a| == |b|
    ensures Plus(a, b) + [false] == Plus(a + [false], b + [false])
  {
  }

  lemma MultipleAdds(a: bool, b: bool, n: nat)
    ensures Plus(Multiple(a, n), Multiple(b, n)) == Multiple(a != b, n)
  {
    hide LowTerms;
  }

  lemma TimesDivisorStep(q: Bits, bit: bool)
    ensures TimesDivisor(q + [bit]) == Plus(TimesDivisor(q) + [false], Multiple(bit, |q|))
  {
    var longer := q + [bit];
    assert longer[..|longer| - 1] == q && longer[|q|] == bit;
    hide Plus, Multiple, LowTerms, Divisor, Zeros;
  }

  lemma PlusStep(p: Bits, q: Bits, a: bool, b: bool)
    requires |p| == |q|
    ensures Plus(p + [a], q + [b]) == Plus(p, q) + [a != b]
  {
  }

  lemma {:induction false} TimesDivisorAdds(p: Bits, q: Bits)
    requires |p| == |q|
    ensures TimesDivisor(Plus(p, q)) == Plus(TimesDivisor(p), TimesDivisor(q))
    decreases |p|
  {
    if p == [] {
      assert Plus(p, q) == [] && Plus(Zeros(32), Zeros(32)) == Zeros(32);
    } else {
      hide TimesDivisor, Plus, Multiple;
      var n := |p| - 1;
      var p', q', a, b := p[..n], q[..n], p[n], q[n];
      assert p == p' + [a] && q == q' + [b];
      TimesDivisorAdds(p', q');
      TimesDivisorStep(p', a);
      TimesDivisorStep(q', b);
      TimesDivisorStep(Plus(p', q'), a != b);
      PlusStep(p', q', a, b);
      PlusLonger(TimesDivisor(p'), TimesDivisor(q'));
      MultipleAdds(a, b, n);
      PlusSwap(TimesDivisor(p') + [false], TimesDivisor(q') + [false], Multiple(a, n), Multiple(b, n));
    }
  }

  lemma ZeroProduct(q: Bits)
    requires forall i :: 0 <= i < |q| ==> !TimesDivisor(q)[i]
    ensures forall j :: 0 <= j < |q| ==> !q[j]
  {
    hide TimesDivisor;
    var k := 0;
    while k < |q|
      invariant k <= |q| && forall j :: 0 <= j < k ==> !q[j]
    {
      LeadingTerm(q, k);
      k := k + 1;
    }
  }

  /** Division leaves one quotient and one remainder only. */
  lemma RemainderIsUnique(message: Bits, q: Bits, rem: Bits, q': Bits, rem': Bits)
    requires Divides(message, q, rem) && Divides(message, q', rem')
    ensures q == q' && rem == rem'
  {
    hide TimesDivisor;
    var n := |message|;
    TimesDivisorAdds(q, q');
    var p, p', r, r' := TimesDivisor(q), TimesDivisor(q'), Zeros(n) + rem, Zeros(n) + rem';
    forall i | 0 <= i < n + 32 ensures (p[i] != r[i]) == (p'[i] != r'[i]) {
      assert Plus(p, r)[i] == Plus(p', r')[i];
    }
    forall i | 0 <= i < n ensures !Plus(p, p')[i] {
    }
    ZeroProduct(Plus(q, q'));
    forall j | 0 <= j < n ensures q[j] == q'[j] {
      assert !Plus(q, q')[j];
    }
    assert q == q';
    forall i | 0 <= i < 32 ensures rem[i] == rem'[i] {
      assert r[n + i] == rem[i] && r'[n + i] == rem'[i];
    }
  }

  // ----- one bit at a time

  /** The remainder register after one more message bit. */
  function NextRemainder(rem: Bits, bit: bool): (next: Bits)
    requires |rem| == 32
    ensures |next| == 32
  {
    var shifted := rem[1..] + [false];
    if rem[0] != bit then Plus(shifted, LowTerms()) else shifted
  }

  lemma DividendOfLonger(message: Bits, bit: bool)
    ensures |Dividend(message)| == |message| + 32
    ensures Dividend(message + [bit])
            == Plus(Dividend(message) + [false], Zeros(|message|) + [bit] + Zeros(32))
  {
  }

  /** What one more bit adds to the dividend beside the old register is a multiple of the divisor and the new one. */
  lemma OneDigit(n: nat, rem: Bits, bit: bool)
    requires |rem| == 32
    ensures Plus((Zeros(n) + rem) + [false], Zeros(n) + [bit] + Zeros(32))
         == Plus(Multiple(rem[0] != bit, n), Zeros(n + 1) + NextRemainder(rem, bit))
  {
    var next, top := NextRemainder(rem, bit), rem[0] != bit;
    hide Plus, Multiple, NextRemainder, Zeros;
  }

  /** Taking in one bit keeps the register equal to the remainder of what has been read. */
  lemma OneMoreBit(message: Bits, q: Bits, rem: Bits, bit: bool)
    requires Divides(message, q, rem)
    ensures Divides(message + [bit], q + [rem[0] != bit], NextRemainder(rem, bit))
  {
    var n, top := |message|, rem[0] != bit;
    var t, r, d := TimesDivisor(q) + [false], (Zeros(n) + rem) + [false], Zeros(n) + [bit] + Zeros(32);
    DividendOfLonger(message, bit);
    PlusLonger(TimesDivisor(q), Zeros(n) + rem);
    OneDigit(n, rem, bit);
    PlusRegroups(t, r, d);
    PlusRegroups(t, Multiple(top, n), Zeros(n + 1) + NextRemainder(rem, bit));
    TimesDivisorStep(q, top);
    hide Plus, Dividend, Multiple, NextRemainder, TimesDivisor;
  }

  lemma PlusRegroups(a: Bits, b: Bits, c: Bits)
    requires |a| == |b| == |c|
    ensures Plus(Plus(a, b), c) == Plus(a, Plus(b, c))
  {
  }

  // ----- the reflected register

  function Halved(c: bv32): bv32 {
    c >> 1
  }

  function LowBit(c: bv32): bool {
    c & 1 != 0
  }

  function Xor(a: bv32, b: bv32): bv32 {
    a ^ b
  }

  /** Bit i of a register, bit 0 being the lowest. */
  function BitAt(c: bv32, i: nat): bool
    decreases i
  {
    if i == 0 then LowBit(c) else BitAt(Halved(c), i - 1)
  }

  /** The bits of a register, lowest first: the coefficients of x^31 down to x^0. */
  function RegisterBits(c: bv32): (bits: Bits)
    ensures |bits| == 32
  {
    seq(32, i requires 0 <= i < 32 => BitAt(c, i))
  }

  /** The bits of one byte in the order they enter: lowest first. */
  function ByteBits(b: byte): (bits: Bits)
    ensures |bits| == 8
  {
    seq(8, i requires 0 <= i < 8 => BitAt(b as bv32, i))
  }

  function MessageBits(bytes: seq<byte>): Bits {
    if bytes == [] then [] else MessageBits(bytes[..|bytes| - 1]) + ByteBits(bytes[|bytes| - 1])
  }

  lemma XorStep(a: bv32, b: bv32)
    ensures Halved(Xor(a, b)) == Xor(Halved(a), Halved(b))
    ensures LowBit(Xor(a, b)) <==> LowBit(a) != LowBit(b)
  {
  }

  lemma {:induction false} XorBitAt(a: bv32, b: bv32, i: nat)
    ensures BitAt(Xor(a, b), i) == (BitAt(a, i) != BitAt(b, i))
    decreases i
  {
    hide Halved, LowBit, Xor;
    XorStep(a, b);
    if i > 0 {
      XorBitAt(Halved(a), Halved(b), i - 1);
    }
  }

  lemma XorBits(a: bv32, b: bv32)
    ensures RegisterBits(Xor(a, b)) == Plus(RegisterBits(a), RegisterBits(b))
  {
    hide BitAt, Xor;
    forall i: nat | i < 32 ensures BitAt(Xor(a, b), i) == (BitAt(a, i) != BitAt(b, i)) {
      XorBitAt(a, b, i);
    }
  }

  // The register taken apart byte by byte.

  function HighBytes(c: bv32): bv32 {
    c >> 8
  }

  /** The register after i halvings. */
  function Shifted(c: bv32, i: nat): bv32
    decreases i
  {
    if i == 0 then c else Shifted(Halved(c), i - 1)
  }

  lemma {:induction false} BitOfShifted(c: bv32, i: nat, j: nat)
    ensures BitAt(c, i + j) == BitAt(Shifted(c, i), j)
    ensures BitAt(c, i) == LowBit(Shifted(c, i))
    ensures Shifted(c, i + 1) == Halved(Shifted(c, i))
    decreases i
  {
    hide Halved, LowBit;
    if i > 0 {
      BitOfShifted(Halved(c), i - 1, j);
    }
  }

  /** The first eight bits and what is left after them, one halving at a time. */
  lemma EightHalvings(c: bv32, c1: bv32, c2: bv32, c3: bv32, c4: bv32, c5: bv32, c6: bv32, c7: bv32)
    requires c1 == Halved(c) && c2 == Halved(c1) && c3 == Halved(c2) && c4 == Halved(c3)
    requires c5 == Halved(c4) && c6 == Halved(c5) && c7 == Halved(c6)
    ensures BitAt(c, 0) == LowBit(c) && BitAt(c, 1) == LowBit(c1) && BitAt(c, 2) == LowBit(c2) && BitAt(c, 3) == LowBit(c3)
    ensures BitAt(c, 4) == LowBit(c4) && BitAt(c, 5) == LowBit(c5) && BitAt(c, 6) == LowBit(c6) && BitAt(c, 7) == LowBit(c7)
    ensures Shifted(c, 8) == Halved(c7)
  {
    assert Shifted(c, 0) == c && BitAt(c, 0) == LowBit(c);
    hide Halved, LowBit, BitAt, Shifted;
    BitOfShifted(c, 0, 0);
    BitOfShifted(c, 1, 0);
    BitOfShifted(c, 2, 0);
    BitOfShifted(c, 3, 0);
    BitOfShifted(c, 4, 0);
    BitOfShifted(c, 5, 0);
    BitOfShifted(c, 6, 0);
    BitOfShifted(c, 7, 0);
  }

  lemma LowByteByMasks(c: bv32)
    ensures BitAt(c, 0) == (c & 1 != 0) && BitAt(c, 1) == (c & 2 != 0) && BitAt(c, 2) == (c & 4 != 0) && BitAt(c, 3) == (c & 8 != 0)
    ensures BitAt(c, 4) == (c & 16 != 0) && BitAt(c, 5) == (c & 32 != 0)
    ensures BitAt(c, 6) == (c & 64 != 0) && BitAt(c, 7) == (c & 128 != 0)
    ensures Shifted(c, 8) == HighBytes(c)
  {
    hide BitAt, Shifted;
    var c1 := Halved(c);
    var c2 := Halved(c1);
    var c3 := Halved(c2);
    var c4 := Halved(c3);
    var c5 := Halved(c4);
    var c6 := Halved(c5);
    var c7 := Halved(c6);
    EightHalvings(c, c1, c2, c3, c4, c5, c6, c7);
    hide Halved, LowBit, HighBytes;
  }

  lemma LaterByte(c: bv32, i: nat)
    ensures BitAt(c, i + 8) == BitAt(HighBytes(c), i)
  {
    hide HighBytes, BitAt, Shifted;
    LowByteByMasks(c);
    BitOfShifted(c, 8, i);
  }

  lemma LaterBytes(c: bv32, i: nat)
    ensures BitAt(c, i + 16) == BitAt(HighBytes(HighBytes(c)), i)
    ensures BitAt(c, i + 24) == BitAt(HighBytes(HighBytes(HighBytes(c))), i)
  {
    hide HighBytes, BitAt;
    LaterByte(c, i + 8);
    LaterByte(c, i + 16);
    LaterByte(HighBytes(c), i);
    LaterByte(HighBytes(c), i + 8);
    LaterByte(HighBytes(HighBytes(c)), i);
  }

  lemma NoThirtyThirdBit(c: bv32)
    ensures !BitAt(c, 32)
  {
    LaterBytes(c, 8);
    LaterByte(HighBytes(HighBytes(HighBytes(c))), 0);
  }

  /** The eight bits that start at bit `at` are those of the byte d. */
  ghost predicate ByteIs(c: bv32, at: nat, d: bv32) {
    && BitAt(c, at) == (d & 1 != 0) && BitAt(c, at + 1) == (d & 2 != 0)
    && BitAt(c, at + 2) == (d & 4 != 0) && BitAt(c, at + 3) == (d & 8 != 0)
    && BitAt(c, at + 4) == (d & 16 != 0) && BitAt(c, at + 5) == (d & 32 != 0)
    && BitAt(c, at + 6) == (d & 64 != 0) && BitAt(c, at + 7) == (d & 128 != 0)
  }

  lemma RegisterBytes(c: bv32)
    ensures ByteIs(c, 0, c) && ByteIs(c, 8, HighBytes(c)) && ByteIs(c, 16, HighBytes(HighBytes(c)))
    ensures ByteIs(c, 24, HighBytes(HighBytes(HighBytes(c))))
  {
    hide BitAt, Shifted, HighBytes;
    LowByteByMasks(c);
    LowByteByMasks(HighBytes(c));
    LowByteByMasks(HighBytes(HighBytes(c)));
    LowByteByMasks(HighBytes(HighBytes(HighBytes(c))));
    LaterEight(c);
  }

  lemma LaterEight(c: bv32)
    ensures forall i: nat :: i < 8 ==> BitAt(c, i + 8) == BitAt(HighBytes(c), i)
    ensures forall i: nat :: i < 8 ==> BitAt(c, i + 16) == BitAt(HighBytes(HighBytes(c)), i)
    ensures forall i: nat :: i < 8 ==> BitAt(c, i + 24) == BitAt(HighBytes(HighBytes(HighBytes(c))), i)
  {
    hide BitAt, HighBytes;
    forall i: nat | i < 8
      ensures BitAt(c, i + 8) == BitAt(HighBytes(c), i) && BitAt(c, i + 16) == BitAt(HighBytes(HighBytes(c)), i)
      ensures BitAt(c, i + 24) == BitAt(HighBytes(HighBytes(HighBytes(c))), i)
    {
      LaterByte(c, i);
      LaterBytes(c, i);
    }
  }

  /** The eight coefficients from `at` on are the bits of the byte d. */
  ghost predicate TermsAre(terms: Bits, at: nat, d: bv32)
    requires at + 8 <= |terms|
  {
    && terms[at] == (d & 1 != 0) && terms[at + 1] == (d & 2 != 0)
    && terms[at + 2] == (d & 4 != 0) && terms[at + 3] == (d & 8 != 0)
    && terms[at + 4] == (d & 16 != 0) && terms[at + 5] == (d & 32 != 0)
    && terms[at + 6] == (d & 64 != 0) && terms[at + 7] == (d & 128 != 0)
  }

  lemma SameByte(c: bv32, terms: Bits, at: nat, d: bv32)
    requires at + 8 <= |terms| && ByteIs(c, at, d) && TermsAre(terms, at, d)
    ensures forall i: nat :: at <= i < at + 8 ==> BitAt(c, i) == terms[i]
  {
    hide BitAt;
  }

  lemma SameBytes(c: bv32, terms: Bits)
    requires |terms| == 32 && TermsAre(terms, 0, c) && TermsAre(terms, 8, HighBytes(c))
    requires TermsAre(terms, 16, HighBytes(HighBytes(c))) && TermsAre(terms, 24, HighBytes(HighBytes(HighBytes(c))))
    ensures RegisterBits(c) == terms
  {
    RegisterBytes(c);
    hide BitAt, HighBytes;
    SameByte(c, terms, 0, c);
    SameByte(c, terms, 8, HighBytes(c));
    SameByte(c, terms, 16, HighBytes(HighBytes(c)));
    SameByte(c, terms, 24, HighBytes(HighBytes(HighBytes(c))));
    hide ByteIs, TermsAre;
  }

  lemma PolynomialBytes()
    ensures HighBytes(0xedb88320) == 0xedb883 && HighBytes(0xedb883) == 0xedb8 && HighBytes(0xedb8) == 0xed
    ensures HighBytes(0xffffffff) == 0xffffff && HighBytes(0xffffff) == 0xffff && HighBytes(0xffff) == 0xff
  {
  }

  lemma DivisorTerms()
    ensures TermsAre(LowTerms(), 0, 0xedb88320) && TermsAre(LowTerms(), 8, 0xedb883)
    ensures TermsAre(LowTerms(), 16, 0xedb8) && TermsAre(LowTerms(), 24, 0xed)
  {
  }

  lemma AllOnes(at: nat, d: bv32)
    requires at + 8 <= 32 && d & 0xff == 0xff
    ensures TermsAre(Ones(32), at, d)
  {
  }

  lemma PolynomialBits()
    ensures RegisterBits(0xedb88320) == LowTerms()
    ensures RegisterBits(0xffffffff) == Ones(32)
  {
    hide RegisterBits, HighBytes, TermsAre, LowTerms, Ones;
    PolynomialBytes();
    DivisorTerms();
    AllOnes(0, 0xffffffff);
    AllOnes(8, 0xffffff);
    AllOnes(16, 0xffff);
    AllOnes(24, 0xff);
    OnesHaveLength();
    SameBytes(0xedb88320, LowTerms());
    SameBytes(0xffffffff, Ones(32));
  }

  lemma OnesHaveLength()
    ensures |Ones(32)| == 32
  {
  }

  /** Halving drops the lowest bit and brings in a zero at the top. */
  lemma HalvedBits(c: bv32)
    ensures RegisterBits(Halved(c)) == RegisterBits(c)[1..] + [false]
  {
    NoThirtyThirdBit(c);
    hide Halved, LowBit;
    assert forall i: nat :: i < 32 ==> BitAt(Halved(c), i) == BitAt(c, i + 1);
  }

  /** The body of the inner loop; `-(crc & 1)` is all ones or zero. */
  function ShiftOnce(c: bv32): bv32 {
    (c >> 1) ^ (0xedb88320 & (0 - (c & 1)))
  }

  lemma ShiftOnceOdd(c: bv32)
    requires LowBit(c)
    ensures ShiftOnce(c) == Xor(Halved(c), 0xedb88320)
  {
    XorIs(c >> 1, 0xedb88320);
    hide Xor;
  }

  lemma ShiftOnceEven(c: bv32)
    requires !LowBit(c)
    ensures ShiftOnce(c) == Halved(c)
  {
  }

  lemma ShiftOnceCases(c: bv32)
    ensures ShiftOnce(c) == if LowBit(c) then Xor(Halved(c), 0xedb88320) else Halved(c)
  {
    hide ShiftOnce, Halved, LowBit, Xor;
    if LowBit(c) {
      ShiftOnceOdd(c);
    } else {
      ShiftOnceEven(c);
    }
  }

  /** The register after one more message bit, taken in by itself. */
  ghost function TakeBit(c: bv32, bit: bool): bv32 {
    if LowBit(c) != bit then Xor(Halved(c), 0xedb88320) else Halved(c)
  }

  lemma TakeBitBits(c: bv32, bit: bool)
    ensures RegisterBits(TakeBit(c, bit)) == NextRemainder(RegisterBits(c), bit)
  {
    PolynomialBits();
    HalvedBits(c);
    XorBits(Halved(c), 0xedb88320);
    hide Halved, LowTerms, Xor;
    assert RegisterBits(c)[0] == LowBit(c);
  }

  /** Adding a whole byte before shifting is the same as adding its bits one by one: what is still to come
      stays on top of the register that has taken the bits so far. */
  lemma ByteAhead(taken: bv32, ahead: bv32)
    ensures ShiftOnce(Xor(taken, ahead)) == Xor(TakeBit(taken, LowBit(ahead)), Halved(ahead))
  {
    ShiftOnceCases(Xor(taken, ahead));
    XorStep(taken, ahead);
    XorSwap(Halved(taken), Halved(ahead), 0xedb88320);
    hide ShiftOnce, Halved, LowBit, Xor;
  }

  lemma XorSwap(a: bv32, b: bv32, c: bv32)
    ensures Xor(Xor(a, b), c) == Xor(Xor(a, c), b)
  {
    var p, r := a ^ b, a ^ c;
    XorIs(a, b);
    XorIs(a, c);
    XorIs(p, c);
    XorIs(r, b);
    hide Xor;
  }

  lemma XorIs(a: bv32, b: bv32)
    ensures Xor(a, b) == a ^ b
  {
  }

  lemma EmptyAhead(b: byte)
    ensures Shifted(b as bv32, 8) == 0
  {
    LowByteByMasks(b as bv32);
  }

  lemma XorFacts(a: bv32)
    ensures Xor(a, 0) == a && Xor(Xor(a, 0xffffffff), 0xffffffff) == a
  {
  }

  /** The register after n turns of the inner loop. */
  function ShiftTimes(c: bv32, n: nat): bv32
    decreases n
  {
    if n == 0 then c else ShiftOnce(ShiftTimes(c, n - 1))
  }

  /** The register after all bytes. */
  function Register(bytes: seq<byte>): bv32 {
    if bytes == [] then 0xffffffff
    else ShiftTimes(Xor(Register(bytes[..|bytes| - 1]), bytes[|bytes| - 1] as bv32), 8)
  }

  function Checksum(bytes: seq<byte>): bv32 {
    Xor(Register(bytes), 0xffffffff)
  }

  lemma OneShift(before: Bits, q: Bits, taken: bv32, b: byte, bit: nat) returns (q': Bits, taken': bv32)
    requires bit < 8 && Divides(before + ByteBits(b)[..bit], q, RegisterBits(taken))
    ensures Divides(before + ByteBits(b)[..bit + 1], q', RegisterBits(taken'))
    ensures ShiftOnce(Xor(taken, Shifted(b as bv32, bit))) == Xor(taken', Shifted(b as bv32, bit + 1))
  {
    hide Divides, RegisterBits, BitAt, Shifted, Halved, LowBit, TakeBit, ShiftOnce, Xor, NextRemainder;
    var w := b as bv32;
    var next := LowBit(Shifted(w, bit));
    ByteAhead(taken, Shifted(w, bit));
    BitOfShifted(w, bit, 0);
    OneMoreBit(before + ByteBits(b)[..bit], q, RegisterBits(taken), next);
    TakeBitBits(taken, next);
    q' := q + [RegisterBits(taken)[0] != next];
    taken' := TakeBit(taken, next);
    assert ByteBits(b)[bit] == next;
    assert before + ByteBits(b)[..bit + 1] == (before + ByteBits(b)[..bit]) + [next];
  }

  lemma {:induction false} BitsOfByte(before: Bits, q: Bits, c: bv32, b: byte, n: nat) returns (q': Bits, taken: bv32)
    requires n <= 8 && Divides(before, q, RegisterBits(c))
    ensures Divides(before + ByteBits(b)[..n], q', RegisterBits(taken))
    ensures ShiftTimes(Xor(c, b as bv32), n) == Xor(taken, Shifted(b as bv32, n))
    decreases n
  {
    hide Divides, RegisterBits, Shifted, ByteBits, Xor, ShiftOnce;
    if n == 0 {
      q', taken := q, c;
      NothingTaken(b as bv32);
      assert before + ByteBits(b)[..0] == before;
    } else {
      q', taken := BitsOfByte(before, q, c, b, n - 1);
      q', taken := OneShift(before, q', taken, b, n - 1);
    }
  }

  lemma NothingTaken(w: bv32)
    ensures Shifted(w, 0) == w
  {
  }

  lemma OneByte(before: Bits, q: Bits, c: bv32, b: byte) returns (q': Bits)
    requires Divides(before, q, RegisterBits(c))
    ensures Divides(before + ByteBits(b), q', RegisterBits(ShiftTimes(Xor(c, b as bv32), 8)))
  {
    hide Divides, RegisterBits, Shifted, ByteBits, Xor, ShiftTimes;
    var taken;
    q', taken := BitsOfByte(before, q, c, b, 8);
    assert ByteBits(b)[..8] == ByteBits(b);
    EmptyAhead(b);
    XorFacts(taken);
  }

  lemma {:induction false} RegisterHoldsRemainder(bytes: seq<byte>) returns (q: Bits)
    ensures Divides(MessageBits(bytes), q, RegisterBits(Register(bytes)))
  {
    hide Divides, RegisterBits, ByteBits, Xor, ShiftTimes;
    if bytes == [] {
      StartRegister(0xffffffff);
      q := [];
    } else {
      var n := |bytes| - 1;
      q := RegisterHoldsRemainder(bytes[..n]);
      q := OneByte(MessageBits(bytes[..n]), q, Register(bytes[..n]), bytes[n]);
    }
  }

  lemma StartRegister(c: bv32)
    requires c == 0xffffffff
    ensures Divides([], [], RegisterBits(c))
  {
    hide BitAt, LowTerms;
    PolynomialBits();
  }

  /** The checksum, inverted back and read from its lowest bit, is the remainder of the message divided by the
      CRC-32 polynomial; RemainderIsUnique says that there is no other. */
  lemma ChecksumIsRemainder(bytes: seq<byte>)
    ensures exists q :: Divides(MessageBits(bytes), q, RegisterBits(Xor(Checksum(bytes), 0xffffffff)))
  {
    hide Divides, RegisterBits, Register, Xor;
    var q := RegisterHoldsRemainder(bytes);
    XorFacts(Register(bytes));
    assert Divides(MessageBits(bytes), q, RegisterBits(Xor(Checksum(bytes), 0xffffffff)));
  }

  /** crc32 (artifact_actions.js:27-36). */
  method Compute(bytes: seq<byte>) returns (crc: bv32)
    ensures crc == Checksum(bytes)
  {
    hide Xor, ShiftTimes;
    crc := 0xffffffff;
    for index := 0 to |bytes|
      invariant crc == Register(bytes[..index])
    {
      assert bytes[..index + 1][..index] == bytes[..index];
      crc := TakeByte(crc, bytes[index]);
    }
    assert bytes[..|bytes|] == bytes;
    crc := Xor(crc, 0xffffffff);
  }

  method TakeByte(c: bv32, b: byte) returns (crc: bv32)
    ensures crc == ShiftTimes(Xor(c, b as bv32), 8)
  {
    crc := c ^ (b as bv32);
    for bit := 0 to 8
      invariant crc == ShiftTimes(Xor(c, b as bv32), bit)
    {
      crc := (crc >> 1) ^ (0xedb88320 & (0 - (crc & 1)));
    }
  }
}
