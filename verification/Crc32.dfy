/** Bytes as bit-vectors and back. */
module ByteBits {
  lemma ByteOfBits(b: int)
    requires 0 <= b < 0x100
    ensures ((b as bv8) as int) == b
  {
  }

  lemma BitsOfByte(x: bv8)
    ensures ((x as int) as bv8) == x
  {
  }
}

/** CRC-32 (ITU-T V.42 section 8.1.1.6.2, reflected, polynomial 0xEDB88320) one bit at a time, and the
    reason it catches short bursts: the register step loses no information. The bit-vector facts are
    proved one operator at a time; the inductions hide the operators behind Xor, Double and Up. */
module Crc32 {
  import opened Bytes
  import opened ByteBits

  const POLYNOMIAL: bv32 := 0xEDB88320
  const ALL_ONES: bv32 := 0xFFFFFFFF

  function BitStep(r: bv32): bv32 {
    if r & 1 == 1 then (r >> 1) ^ POLYNOMIAL else r >> 1
  }

  function EightSteps(r: bv32): bv32 {
    BitStep(BitStep(BitStep(BitStep(BitStep(BitStep(BitStep(BitStep(r))))))))
  }

  function Xor(a: bv32, b: bv32): bv32 {
    a ^ b
  }

  function Word(b: byte): bv32 {
    (b as bv8) as bv32
  }

  /** The register after `data`, started at r. */
  function Update(r: bv32, data: seq<byte>): bv32
    decreases |data|
  {
    if data == [] then r else Update(EightSteps(Xor(r, Word(data[0]))), data[1..])
  }

  /** The checksum of crc32fast::hash. */
  function Hash(data: seq<byte>): bv32 {
    Xor(Update(ALL_ONES, data), ALL_ONES)
  }

  function LowByte(h: bv32): byte {
    ((h & 0xFF) as bv8) as int
  }

  /** u32::to_le_bytes on a checksum. */
  function ChecksumBytes(h: bv32): (s: seq<byte>)
    ensures |s| == 4
  {
    [LowByte(h), LowByte(h >> 8), LowByte(h >> 16), LowByte(h >> 24)]
  }

  function Join(a: bv32, b: bv32, c: bv32, d: bv32): bv32 {
    a | (b << 8) | (c << 16) | (d << 24)
  }

  /** u32::from_le_bytes on a stored checksum. */
  function Checksum(s: seq<byte>): bv32
    requires |s| == 4
  {
    Join(Word(s[0]), Word(s[1]), Word(s[2]), Word(s[3]))
  }

  // ---- bytes and words ----

  lemma WidenInjective(x: bv8, y: bv8)
    requires x as bv32 == y as bv32
    ensures x == y
  {
  }

  lemma WordInjective(b: byte, c: byte)
    requires Word(b) == Word(c)
    ensures b == c
  {
    WidenInjective(b as bv8, c as bv8);
    ByteOfBits(b);
    ByteOfBits(c);
  }

  predicate Narrow(z: bv32) {
    z < 0x100
  }

  lemma WordBound(b: byte)
    ensures Narrow(Word(b))
  {
  }

  lemma LowByteWord(h: bv32)
    ensures Word(LowByte(h)) == h & 0xFF
  {
    BitsOfByte((h & 0xFF) as bv8);
  }

  lemma Reassemble(h: bv32)
    ensures Join(h & 0xFF, (h >> 8) & 0xFF, (h >> 16) & 0xFF, (h >> 24) & 0xFF) == h
  {
  }

  lemma ChecksumRoundTrip(h: bv32)
    ensures Checksum(ChecksumBytes(h)) == h
  {
    LowByteWord(h);
    LowByteWord(h >> 8);
    LowByteWord(h >> 16);
    LowByteWord(h >> 24);
    Reassemble(h);
  }

  lemma JoinInjective(a: bv32, b: bv32, c: bv32, d: bv32, w: bv32, x: bv32, y: bv32, z: bv32)
    requires Narrow(a) && Narrow(b) && Narrow(c) && Narrow(d) && Narrow(w) && Narrow(x) && Narrow(y) && Narrow(z)
    requires Join(a, b, c, d) == Join(w, x, y, z)
    ensures a == w && b == x && c == y && d == z
  {
  }

  lemma ChecksumInjective(s: seq<byte>, t: seq<byte>)
    requires |s| == |t| == 4 && Checksum(s) == Checksum(t)
    ensures s == t
  {
    hide Word, Join, Narrow;
    forall i | 0 <= i < 4
      ensures Narrow(Word(s[i])) && Narrow(Word(t[i]))
    {
      WordBound(s[i]);
      WordBound(t[i]);
    }
    JoinInjective(Word(s[0]), Word(s[1]), Word(s[2]), Word(s[3]), Word(t[0]), Word(t[1]), Word(t[2]), Word(t[3]));
    forall i | 0 <= i < 4
      ensures s[i] == t[i]
    {
      WordInjective(s[i], t[i]);
    }
  }

  // ---- the algebra of the register ----

  lemma XorCancels(r: bv32, q: bv32, w: bv32)
    requires Xor(r, w) == Xor(q, w)
    ensures r == q
  {
  }

  lemma XorLaws(r: bv32, b: bv32, z: bv32)
    ensures Xor(r, Xor(b, z)) == Xor(Xor(r, b), z) && Xor(r, 0) == r && Xor(r, b) == Xor(b, r)
  {
  }

  lemma BitStepInjective(a: bv32, b: bv32)
    requires BitStep(a) == BitStep(b)
    ensures a == b
  {
  }

  lemma EightStepsInjective(a: bv32, b: bv32)
    requires EightSteps(a) == EightSteps(b)
    ensures a == b
  {
    hide BitStep;
    var a1, b1 := BitStep(a), BitStep(b);
    var a2, b2 := BitStep(a1), BitStep(b1);
    var a3, b3 := BitStep(a2), BitStep(b2);
    var a4, b4 := BitStep(a3), BitStep(b3);
    var a5, b5 := BitStep(a4), BitStep(b4);
    var a6, b6 := BitStep(a5), BitStep(b5);
    var a7, b7 := BitStep(a6), BitStep(b6);
    BitStepInjective(a7, b7);
    BitStepInjective(a6, b6);
    BitStepInjective(a5, b5);
    BitStepInjective(a4, b4);
    BitStepInjective(a3, b3);
    BitStepInjective(a2, b2);
    BitStepInjective(a1, b1);
    BitStepInjective(a, b);
  }

  function Double(z: bv32): bv32 {
    z << 1
  }

  function Up(z: bv32): bv32 {
    z << 8
  }

  predicate TopBitClear(z: bv32) {
    z & 0x80000000 == 0
  }

  predicate TopByteClear(z: bv32) {
    z & 0xFF000000 == 0
  }

  function Half(r: bv32): bv32 {
    r >> 1
  }

  predicate Odd(r: bv32) {
    r & 1 == 1
  }

  lemma BitStepIs(r: bv32)
    ensures BitStep(r) == if Odd(r) then Xor(Half(r), POLYNOMIAL) else Half(r)
  {
  }

  lemma OddStays(r: bv32, z: bv32)
    ensures Odd(Xor(r, Double(z))) == Odd(r)
  {
  }

  lemma HalfBack(r: bv32, z: bv32)
    requires TopBitClear(z)
    ensures Half(Xor(r, Double(z))) == Xor(Half(r), z)
  {
  }

  lemma XorSwaps(a: bv32, b: bv32, c: bv32)
    ensures Xor(Xor(a, b), c) == Xor(Xor(a, c), b)
  {
    hide Xor;
    XorLaws(a, b, c);
    XorLaws(a, c, b);
    XorLaws(b, c, 0);
  }

  lemma BitStepShifts(r: bv32, z: bv32)
    requires TopBitClear(z)
    ensures BitStep(Xor(r, Double(z))) == Xor(BitStep(r), z)
  {
    hide BitStep, Xor, Double, Half, Odd, TopBitClear;
    BitStepIs(r);
    BitStepIs(Xor(r, Double(z)));
    OddStays(r, z);
    HalfBack(r, z);
    XorSwaps(Half(r), z, POLYNOMIAL);
  }

  lemma Doublings(z: bv32)
    requires TopByteClear(z)
    ensures TopBitClear(z) && TopBitClear(Double(z)) && TopBitClear(Double(Double(z)))
    ensures TopBitClear(Double(Double(Double(z))))
    ensures Up(z) == Double(Double(Double(Double(Double(Double(Double(Double(z))))))))
  {
  }

  lemma MoreDoublings(z: bv32)
    requires TopByteClear(z)
    ensures TopBitClear(Double(Double(Double(Double(z)))))
    ensures TopBitClear(Double(Double(Double(Double(Double(z))))))
    ensures TopBitClear(Double(Double(Double(Double(Double(Double(z)))))))
    ensures TopBitClear(Double(Double(Double(Double(Double(Double(Double(z))))))))
  {
  }

  /** What is xored in above the low byte only moves down: it can as well be xored in a byte later. */
  lemma EightStepsShift(r: bv32, z: bv32)
    requires TopByteClear(z)
    ensures EightSteps(Xor(r, Up(z))) == Xor(EightSteps(r), z)
  {
    Doublings(z);
    MoreDoublings(z);
    hide BitStep, Xor, Double, Up, TopBitClear;
    var z1 := Double(z);
    var z2 := Double(z1);
    var z3 := Double(z2);
    var z4 := Double(z3);
    var z5 := Double(z4);
    var z6 := Double(z5);
    var z7 := Double(z6);
    var r1 := BitStep(r);
    var r2 := BitStep(r1);
    var r3 := BitStep(r2);
    var r4 := BitStep(r3);
    var r5 := BitStep(r4);
    var r6 := BitStep(r5);
    var r7 := BitStep(r6);
    BitStepShifts(r, z7);
    BitStepShifts(r1, z6);
    BitStepShifts(r2, z5);
    BitStepShifts(r3, z4);
    BitStepShifts(r4, z3);
    BitStepShifts(r5, z2);
    BitStepShifts(r6, z1);
    BitStepShifts(r7, z);
  }

  lemma {:induction false} UpdateConcat(r: bv32, a: seq<byte>, b: seq<byte>)
    ensures Update(r, a + b) == Update(Update(r, a), b)
    decreases |a|
  {
    hide EightSteps, Xor, Word;
    if a == [] {
      assert a + b == b;
    } else {
      UpdateConcat(EightSteps(Xor(r, Word(a[0]))), a[1..], b);
      assert (a + b)[1..] == a[1..] + b;
    }
  }

  /** Two registers that the same bytes bring together were already the same. */
  lemma {:induction false} UpdateInjective(r: bv32, q: bv32, data: seq<byte>)
    requires Update(r, data) == Update(q, data)
    ensures r == q
    decreases |data|
  {
    hide EightSteps, Xor, Word;
    if data != [] {
      var x, y := Xor(r, Word(data[0])), Xor(q, Word(data[0]));
      UpdateInjective(EightSteps(x), EightSteps(y), data[1..]);
      EightStepsInjective(x, y);
      XorCancels(r, q, Word(data[0]));
    }
  }

  // ---- windows of at most four bytes ----

  /** A window as one word, first byte lowest. */
  function Window(w: seq<byte>): bv32 {
    if w == [] then 0 else Xor(Word(w[0]), Up(Window(w[1..])))
  }

  /** What n zero bytes do to the register. */
  function Shifted(r: bv32, n: nat): bv32
    decreases n
  {
    if n == 0 then r else Shifted(EightSteps(r), n - 1)
  }

  /** z fits in `width` bytes. */
  predicate FitsIn(z: bv32, width: nat) {
    if width == 0 then z == 0
    else if width == 1 then z < 0x100
    else if width == 2 then z < 0x10000
    else if width == 3 then z < 0x1000000
    else true
  }

  lemma FitsStep(b: bv32, z: bv32)
    requires Narrow(b)
    ensures FitsIn(z, 0) ==> FitsIn(Xor(b, Up(z)), 1)
    ensures FitsIn(z, 1) ==> FitsIn(Xor(b, Up(z)), 2)
    ensures FitsIn(z, 2) ==> FitsIn(Xor(b, Up(z)), 3)
  {
  }

  lemma FitsClear(z: bv32)
    ensures FitsIn(z, 0) || FitsIn(z, 1) || FitsIn(z, 2) || FitsIn(z, 3) ==> TopByteClear(z)
  {
  }

  lemma {:induction false} WindowFits(w: seq<byte>)
    requires |w| <= 3
    ensures FitsIn(Window(w), |w|) && TopByteClear(Window(w))
  {
    if w == [] {
      FitsClear(0);
    } else {
      WindowFits(w[1..]);
      WordBound(w[0]);
      FitsStep(Word(w[0]), Window(w[1..]));
      FitsClear(Window(w));
      hide Word, Up, Xor, FitsIn, Narrow, TopByteClear;
      assert |w| == 1 || |w| == 2 || |w| == 3;
    }
  }

  /** At most four bytes act on the register as if xored in all at once, up front. */
  lemma {:induction false} UpdateIsWindow(r: bv32, w: seq<byte>)
    requires |w| <= 4
    ensures Update(r, w) == Shifted(Xor(r, Window(w)), |w|)
    decreases |w|
  {
    hide EightSteps, Word, Xor, Up, TopByteClear;
    if w == [] {
      XorLaws(r, 0, 0);
    } else {
      var rest := w[1..];
      WindowFits(rest);
      UpdateIsWindow(EightSteps(Xor(r, Word(w[0]))), rest);
      EightStepsShift(Xor(r, Word(w[0])), Window(rest));
      XorLaws(r, Word(w[0]), Up(Window(rest)));
    }
  }

  lemma {:induction false} ShiftedInjective(a: bv32, b: bv32, n: nat)
    requires Shifted(a, n) == Shifted(b, n)
    ensures a == b
    decreases n
  {
    hide EightSteps;
    if n > 0 {
      ShiftedInjective(EightSteps(a), EightSteps(b), n - 1);
      EightStepsInjective(a, b);
    }
  }

  lemma LaneSplit(b: bv32, c: bv32, y: bv32, z: bv32)
    requires Narrow(b) && Narrow(c) && TopByteClear(y) && TopByteClear(z)
    requires Xor(b, Up(y)) == Xor(c, Up(z))
    ensures b == c && y == z
  {
  }

  lemma {:induction false} WindowInjective(v: seq<byte>, w: seq<byte>)
    requires |v| == |w| <= 4 && Window(v) == Window(w)
    ensures v == w
  {
    hide Word, Up, Xor, Narrow, TopByteClear;
    if v != [] {
      WindowFits(v[1..]);
      WindowFits(w[1..]);
      WordBound(v[0]);
      WordBound(w[0]);
      LaneSplit(Word(v[0]), Word(w[0]), Window(v[1..]), Window(w[1..]));
      WordInjective(v[0], w[0]);
      WindowInjective(v[1..], w[1..]);
      assert v == [v[0]] + v[1..] && w == [w[0]] + w[1..];
    }
  }

  /** Burst detection: strings that differ, but only inside four consecutive bytes, hash differently. */
  lemma BurstDetected(before: seq<byte>, v: seq<byte>, w: seq<byte>, after: seq<byte>)
    requires |v| == |w| <= 4 && v != w
    ensures Hash(before + v + after) != Hash(before + w + after)
  {
    hide Update, Shifted, Window, Xor;
    if Hash(before + v + after) == Hash(before + w + after) {
      XorCancels(Update(ALL_ONES, before + v + after), Update(ALL_ONES, before + w + after), ALL_ONES);
      var r := Update(ALL_ONES, before);
      UpdateConcat(ALL_ONES, before + v, after);
      UpdateConcat(ALL_ONES, before + w, after);
      UpdateConcat(ALL_ONES, before, v);
      UpdateConcat(ALL_ONES, before, w);
      UpdateInjective(Update(r, v), Update(r, w), after);
      UpdateIsWindow(r, v);
      UpdateIsWindow(r, w);
      ShiftedInjective(Xor(r, Window(v)), Xor(r, Window(w)), |v|);
      XorLaws(r, Window(v), 0);
      XorLaws(r, Window(w), 0);
      XorCancels(Window(v), Window(w), r);
      WindowInjective(v, w);
    }
  }

  /** A list of registers in which every byte takes one to the next ends at the final register. */
  lemma {:induction false} UpdateTrace(data: seq<byte>, trace: seq<bv32>)
    requires |trace| == |data| + 1
    requires forall i :: 0 <= i < |data| ==> EightSteps(Xor(trace[i], Word(data[i]))) == trace[i + 1]
    ensures Update(trace[0], data) == trace[|data|]
    decreases |data|
  {
    hide EightSteps, Word, Xor;
    if data != [] {
      assert trace[1..][0] == trace[1];
      UpdateTrace(data[1..], trace[1..]);
    }
  }

  lemma FirstSteps()
    ensures EightSteps(Xor(0xFFFFFFFF, Word(0x31))) == 0x7C231048
    ensures EightSteps(Xor(0x7C231048, Word(0x32))) == 0xB0ACBB32
    ensures EightSteps(Xor(0xB0ACBB32, Word(0x33))) == 0x77B79C2D
    ensures EightSteps(Xor(0x77B79C2D, Word(0x34))) == 0x641C1F5C
  {
  }

  lemma MiddleSteps()
    ensures EightSteps(Xor(0x641C1F5C, Word(0x35))) == 0x340AC5E3
    ensures EightSteps(Xor(0x340AC5E3, Word(0x36))) == 0xF68D2C9E
  {
  }

  lemma LastSteps()
    ensures EightSteps(Xor(0xF68D2C9E, Word(0x37))) == 0xAFFC9660
    ensures EightSteps(Xor(0xAFFC9660, Word(0x38))) == 0x651F2550
    ensures EightSteps(Xor(0x651F2550, Word(0x39))) == 0x340BC6D9
    ensures Xor(0x340BC6D9, ALL_ONES) == 0xCBF43926
  {
  }

  /** The check value published with this CRC: the hash of the ASCII digits 1 to 9. */
  lemma CheckValue(digits: seq<byte>)
    requires digits == [0x31, 0x32, 0x33, 0x34, 0x35, 0x36, 0x37, 0x38, 0x39]
    ensures Hash(digits) == 0xCBF43926
  {
    FirstSteps();
    MiddleSteps();
    LastSteps();
    hide EightSteps, Word, Xor, Update;
    UpdateTrace(digits, [0xFFFFFFFF, 0x7C231048, 0xB0ACBB32, 0x77B79C2D, 0x641C1F5C,
                         0x340AC5E3, 0xF68D2C9E, 0xAFFC9660, 0x651F2550, 0x340BC6D9]);
  }
}
