// CRC-16, polynomial 0x1021, initial value 0xFFFF, most significant bit first, no final
// exclusive-or. The same register is computed on the target, by the host proxy, by the log
// decoder and, one octet at a time, by the broker's topic log.
module Crc16 {
  import opened Bytes

  const INIT: bv16 := 0xFFFF

  function Xor(c: bv16, d: bv16): (r: bv16) { c ^ d }

  // An octet in the high and in the low half of a word.
  function High(b: byte): (r: bv16) { (b as bv16) << 8 }

  function Low(b: byte): (r: bv16) { b as bv16 }

  // One bit of the division.
  function ShiftBit(c: bv16): (r: bv16) {
    if c & 0x8000 != 0 then (c << 1) ^ 0x1021 else c << 1
  }

  function ShiftBits(c: bv16, n: nat): (r: bv16) {
    if n == 0 then c else ShiftBit(ShiftBits(c, n - 1))
  }

  function Step(c: bv16, b: byte): (r: bv16) {
    ShiftBits(Xor(c, High(b)), 8)
  }

  // The register after the octets of `s`, read left to right.
  function CrcFrom(c: bv16, s: seq<byte>): (r: bv16) {
    if s == [] then c else Step(CrcFrom(c, s[..|s| - 1]), s[|s| - 1])
  }

  function Crc(s: seq<byte>): (r: bv16) {
    CrcFrom(INIT, s)
  }

  function HighOctet(c: bv16): (r: byte) { (c >> 8) as byte }

  function LowOctet(c: bv16): (r: byte) { (c & 0xFF) as byte }

  function Word(hi: byte, lo: byte): (r: bv16) { High(hi) | Low(lo) }

  // What every sender puts between its flags: the payload and its CRC, high octet first.
  function WithCrc(payload: seq<byte>): (r: seq<byte>) {
    payload + [HighOctet(Crc(payload)), LowOctet(Crc(payload))]
  }

  lemma CrcFromAppend(c: bv16, s: seq<byte>, t: seq<byte>)
    ensures CrcFrom(c, s + t) == CrcFrom(CrcFrom(c, s), t)
  {
    if t == [] {
      assert s + t == s;
    } else {
      assert (s + t)[..|s + t| - 1] == s + t[..|t| - 1];
      CrcFromAppend(c, s, t[..|t| - 1]);
    }
  }

  // ---- exclusive-or -----------------------------------------------------------------

  lemma XorZero(c: bv16)
    ensures Xor(0, c) == c
    ensures Xor(c, c) == 0
  {
  }

  lemma XorTwice(c: bv16, d: bv16)
    ensures Xor(Xor(c, d), d) == c
  {
  }

  lemma XorSelf(c: bv16, d: bv16)
    ensures Xor(c, d) == 0 <==> c == d
  {
    XorTwice(c, d);
    XorZero(d);
  }

  lemma XorCommon(c: bv16, d: bv16, m: bv16)
    ensures Xor(Xor(c, m), Xor(d, m)) == Xor(c, d)
    ensures Xor(Xor(m, c), Xor(m, d)) == Xor(c, d)
  {
  }

  lemma XorAssociates(a: bv16, b: bv16, c: bv16)
    ensures Xor(Xor(a, b), c) == Xor(a, Xor(b, c))
  {
  }

  lemma XorCommutes(a: bv16, b: bv16)
    ensures Xor(a, b) == Xor(b, a)
  {
  }

  lemma XorMedial(a: bv16, b: bv16, c: bv16, d: bv16)
    ensures Xor(Xor(a, c), Xor(b, d)) == Xor(Xor(a, b), Xor(c, d))
  {
    XorAssociates(a, c, Xor(b, d));
    XorAssociates(c, b, d);
    XorCommutes(c, b);
    XorAssociates(b, c, d);
    XorAssociates(a, b, Xor(c, d));
  }

  lemma XorSwap(a: bv16, b: bv16, c: bv16, d: bv16)
    requires Xor(a, c) == Xor(b, d)
    ensures Xor(a, b) == Xor(c, d)
  {
    XorMedial(a, b, c, d);
    XorSelf(Xor(a, c), Xor(b, d));
    XorSelf(Xor(a, b), Xor(c, d));
  }

  lemma HighXor(a: byte, b: byte)
    ensures Xor(High(a), High(b)) == High(a ^ b)
  {
  }

  lemma XorZeroOctet(a: byte, b: byte)
    ensures a ^ b == 0 <==> a == b
  {
  }

  lemma HighIsNotLow(e: byte, f: byte)
    requires High(e) == Low(f)
    ensures e == 0 && f == 0
  {
  }

  // ---- the shift register as a linear map -------------------------------------------

  lemma ShiftBothSet(c: bv16, d: bv16)
    requires c & 0x8000 != 0 && d & 0x8000 != 0
    ensures ShiftBit(c ^ d) == ShiftBit(c) ^ ShiftBit(d)
  {
  }

  lemma ShiftOneSet(c: bv16, d: bv16)
    requires c & 0x8000 != 0 && d & 0x8000 == 0
    ensures ShiftBit(c ^ d) == ShiftBit(c) ^ ShiftBit(d)
    ensures ShiftBit(d ^ c) == ShiftBit(d) ^ ShiftBit(c)
  {
  }

  lemma ShiftNoneSet(c: bv16, d: bv16)
    requires c & 0x8000 == 0 && d & 0x8000 == 0
    ensures ShiftBit(c ^ d) == ShiftBit(c) ^ ShiftBit(d)
  {
  }

  lemma ShiftBitXor(c: bv16, d: bv16)
    ensures ShiftBit(c ^ d) == ShiftBit(c) ^ ShiftBit(d)
  {
    if c & 0x8000 != 0 {
      if d & 0x8000 != 0 {
        ShiftBothSet(c, d);
      } else {
        ShiftOneSet(c, d);
      }
    } else {
      if d & 0x8000 != 0 {
        ShiftOneSet(d, c);
      } else {
        ShiftNoneSet(c, d);
      }
    }
  }

  lemma ShiftBitLinear(c: bv16, d: bv16)
    ensures ShiftBit(Xor(c, d)) == Xor(ShiftBit(c), ShiftBit(d))
  {
    ShiftBitXor(c, d);
  }

  lemma {:induction false} ShiftBitsLinear(c: bv16, d: bv16, n: nat)
    ensures ShiftBits(Xor(c, d), n) == Xor(ShiftBits(c, n), ShiftBits(d, n))
  {
    if n != 0 {
      ShiftBitsLinear(c, d, n - 1);
      ShiftBitLinear(ShiftBits(c, n - 1), ShiftBits(d, n - 1));
    }
  }

  // The polynomial has a constant term, so a shift never turns a non-zero register to zero.
  lemma ShiftBitKernel(c: bv16)
    ensures ShiftBit(c) == 0 <==> c == 0
  {
  }

  lemma {:induction false} ShiftBitsKernel(c: bv16, n: nat)
    ensures ShiftBits(c, n) == 0 <==> c == 0
  {
    if n != 0 {
      ShiftBitsKernel(c, n - 1);
      ShiftBitKernel(ShiftBits(c, n - 1));
    }
  }

  lemma ShiftBitsInjective(c: bv16, d: bv16, n: nat)
    requires ShiftBits(c, n) == ShiftBits(d, n)
    ensures c == d
  {
    ShiftBitsLinear(c, d, n);
    XorSelf(ShiftBits(c, n), ShiftBits(d, n));
    ShiftBitsKernel(Xor(c, d), n);
    XorSelf(c, d);
  }

  // Eight shifts of a register that only holds a low octet do not reach the polynomial.
  lemma ShiftLow(b: byte)
    ensures ShiftBits(Low(b), 8) == High(b)
  {
    var x := b as bv16;
    assert ShiftBits(x, 1) == x << 1;
    assert ShiftBits(x, 2) == x << 2;
    assert ShiftBits(x, 3) == x << 3;
    assert ShiftBits(x, 4) == x << 4;
    assert ShiftBits(x, 5) == x << 5;
    assert ShiftBits(x, 6) == x << 6;
    assert ShiftBits(x, 7) == x << 7;
  }

  lemma StepInjective(c: bv16, d: bv16, b: byte)
    requires Step(c, b) == Step(d, b)
    ensures c == d
  {
    ShiftBitsInjective(Xor(c, High(b)), Xor(d, High(b)), 8);
    XorTwice(c, High(b));
    XorTwice(d, High(b));
  }

  lemma {:induction false} CrcFromInjective(c: bv16, d: bv16, s: seq<byte>)
    requires CrcFrom(c, s) == CrcFrom(d, s)
    ensures c == d
  {
    if s != [] {
      var t := s[..|s| - 1];
      StepInjective(CrcFrom(c, t), CrcFrom(d, t), s[|s| - 1]);
      CrcFromInjective(c, d, t);
    }
  }

  // ---- what the trailer detects -----------------------------------------------------

  lemma TwoSteps(c: bv16, a: byte, b: byte)
    ensures CrcFrom(c, [a, b]) == Step(Step(c, a), b)
  {
    assert [a, b][..1] == [a];
    assert [a][..0] == [];
    assert CrcFrom(c, [a]) == Step(c, a);
  }

  // A step brings the register to zero exactly when the octet equals it.
  lemma StepToZero(c: bv16, b: byte)
    ensures Step(c, b) == 0 <==> c == High(b)
  {
    ShiftBitsKernel(Xor(c, High(b)), 8);
    XorSelf(c, High(b));
  }

  // A step leaves only a high octet exactly when the register spells the two octets.
  lemma StepToHigh(c: bv16, a: byte, b: byte)
    ensures Step(c, a) == High(b) <==> Xor(c, High(a)) == Low(b)
  {
    ShiftLow(b);
    if Step(c, a) == High(b) {
      ShiftBitsInjective(Xor(c, High(a)), Low(b), 8);
    }
  }

  lemma WordIsXor(hi: byte, lo: byte)
    ensures Word(hi, lo) == Xor(High(hi), Low(lo))
  {
  }

  lemma WordXor(c: bv16, hi: byte, lo: byte)
    ensures Xor(c, High(hi)) == Low(lo) <==> Word(hi, lo) == c
  {
    WordIsXor(hi, lo);
    XorCommutes(High(hi), Low(lo));
    XorTwice(c, High(hi));
    XorTwice(Low(lo), High(hi));
  }

  lemma WordSplit(c: bv16)
    ensures Word(HighOctet(c), LowOctet(c)) == c
  {
  }

  // A buffer of any length carries a correct trailer exactly when its residue is zero.
  lemma ResidueZeroIff(payload: seq<byte>, hi: byte, lo: byte)
    ensures Crc(payload + [hi, lo]) == 0 <==> Word(hi, lo) == Crc(payload)
  {
    var c := Crc(payload);
    CrcFromAppend(INIT, payload, [hi, lo]);
    TwoSteps(c, hi, lo);
    StepToZero(Step(c, hi), lo);
    StepToHigh(c, hi, lo);
    WordXor(c, hi, lo);
  }

  lemma WithCrcResidue(payload: seq<byte>)
    ensures Crc(WithCrc(payload)) == 0
  {
    WordSplit(Crc(payload));
    ResidueZeroIff(payload, HighOctet(Crc(payload)), LowOctet(Crc(payload)));
  }

  // Two consecutive octets can be changed in only one way without changing the register.
  lemma TwoOctetsInjective(c: bv16, a: byte, b: byte, a': byte, b': byte)
    requires CrcFrom(c, [a, b]) == CrcFrom(c, [a', b'])
    ensures a == a' && b == b'
  {
    TwoSteps(c, a, b);
    TwoSteps(c, a', b');
    var y, y' := Step(c, a), Step(c, a');
    ShiftBitsInjective(Xor(y, High(b)), Xor(y', High(b')), 8);
    XorSwap(y, y', High(b), High(b'));
    HighXor(b, b');
    StepDifference(c, a, a');
    ShiftLow(b ^ b');
    ShiftBitsInjective(High(a ^ a'), Low(b ^ b'), 8);
    HighIsNotLow(a ^ a', b ^ b');
    XorZeroOctet(a, a');
    XorZeroOctet(b, b');
  }

  lemma StepDifference(c: bv16, a: byte, a': byte)
    ensures Xor(Step(c, a), Step(c, a')) == ShiftBits(High(a ^ a'), 8)
  {
    ShiftBitsLinear(Xor(c, High(a)), Xor(c, High(a')), 8);
    XorCommon(High(a), High(a'), c);
    HighXor(a, a');
  }

  // An error confined to two consecutive octets, in the payload or in the trailer, is always
  // detected: of all buffers that differ only there, one alone has residue zero.
  lemma BurstDetected(pre: seq<byte>, a: byte, b: byte, a': byte, b': byte, post: seq<byte>)
    requires Crc(pre + [a, b] + post) == 0
    ensures Crc(pre + [a', b'] + post) == 0 <==> (a == a' && b == b')
  {
    CrcFromAppend(INIT, pre + [a, b], post);
    CrcFromAppend(INIT, pre, [a, b]);
    CrcFromAppend(INIT, pre + [a', b'], post);
    CrcFromAppend(INIT, pre, [a', b']);
    if Crc(pre + [a', b'] + post) == 0 {
      CrcFromInjective(Crc(pre + [a, b]), Crc(pre + [a', b']), post);
      TwoOctetsInjective(Crc(pre), a, b, a', b');
    }
  }

  // The set bits of three consecutive octets span at most sixteen places: those of the first
  // are in its low n bits and those of the last above its low n bits.
  predicate ShortBurst(e0: byte, e1: byte, e2: byte) {
    || e0 == 0 || e2 == 0
    || (e0 & 0xFE == 0 && e2 & 0x01 == 0) || (e0 & 0xFC == 0 && e2 & 0x03 == 0)
    || (e0 & 0xF8 == 0 && e2 & 0x07 == 0) || (e0 & 0xF0 == 0 && e2 & 0x0F == 0)
    || (e0 & 0xE0 == 0 && e2 & 0x1F == 0) || (e0 & 0xC0 == 0 && e2 & 0x3F == 0)
    || (e0 & 0x80 == 0 && e2 & 0x7F == 0)
  }

  // Eight shifts of a high octet, one by one.
  lemma EightShifts(c: bv16)
    ensures ShiftBits(c, 8) ==
            ShiftBit(ShiftBit(ShiftBit(ShiftBit(ShiftBit(ShiftBit(ShiftBit(ShiftBit(c))))))))
  {
    hide ShiftBit;
    assert ShiftBits(c, 2) == ShiftBit(ShiftBits(c, 1));
    assert ShiftBits(c, 4) == ShiftBit(ShiftBit(ShiftBits(c, 2)));
    assert ShiftBits(c, 6) == ShiftBit(ShiftBit(ShiftBits(c, 4)));
  }

  // No such pattern but the empty one is a multiple of the polynomial.
  lemma ShortBurstKernel(e0: byte, e1: byte, e2: byte)
    requires ShortBurst(e0, e1, e2)
    requires Xor(ShiftBits(High(e0), 8), High(e1)) == Low(e2)
    ensures e0 == 0 && e1 == 0 && e2 == 0
  {
    EightShifts(High(e0));
    hide ShiftBits;
  }

  lemma ThreeSteps(c: bv16, a: byte, b: byte, d: byte)
    ensures CrcFrom(c, [a, b, d]) == Step(Step(Step(c, a), b), d)
  {
    TwoSteps(c, a, b);
    assert [a, b, d][..2] == [a, b];
  }

  // The difference of two registers after one more octet each.
  lemma StepXor(y: bv16, y': bv16, b: byte, b': byte)
    ensures Xor(Step(y, b), Step(y', b')) == ShiftBits(Xor(Xor(y, y'), High(b ^ b')), 8)
  {
    ShiftBitsLinear(Xor(y, High(b)), Xor(y', High(b')), 8);
    XorMedial(y, y', High(b), High(b'));
    HighXor(b, b');
  }

  // Three consecutive octets changed within sixteen bits leave the register changed.
  lemma ThreeOctetsInjective(c: bv16, a: byte, b: byte, d: byte, a': byte, b': byte, d': byte)
    requires ShortBurst(a ^ a', b ^ b', d ^ d')
    requires CrcFrom(c, [a, b, d]) == CrcFrom(c, [a', b', d'])
    ensures a == a' && b == b' && d == d'
  {
    hide ShiftBits, ShiftBit, High, Low, Step, Xor, ShortBurst;
    ThreeSteps(c, a, b, d);
    ThreeSteps(c, a', b', d');
    var e0, e1, e2 := a ^ a', b ^ b', d ^ d';
    var s, s' := Step(c, a), Step(c, a');
    var y, y' := Step(s, b), Step(s', b');
    StepDifference(c, a, a');
    StepXor(s, s', b, b');
    StepXor(y, y', d, d');
    XorSelf(Step(y, d), Step(y', d'));
    ShiftBitsKernel(Xor(Xor(y, y'), High(e2)), 8);
    XorSelf(Xor(y, y'), High(e2));
    ShiftLow(e2);
    ShiftBitsInjective(Xor(ShiftBits(High(e0), 8), High(e1)), Low(e2), 8);
    ShortBurstKernel(e0, e1, e2);
    XorZeroOctet(a, a');
    XorZeroOctet(b, b');
    XorZeroOctet(d, d');
  }

  // Any error of at most sixteen consecutive bits, wherever it starts in three octets of the
  // payload or the trailer, is always detected.
  lemma ShortBurstDetected(pre: seq<byte>, a: byte, b: byte, d: byte, a': byte, b': byte, d': byte, post: seq<byte>)
    requires Crc(pre + [a, b, d] + post) == 0 && ShortBurst(a ^ a', b ^ b', d ^ d')
    ensures Crc(pre + [a', b', d'] + post) == 0 <==> (a == a' && b == b' && d == d')
  {
    hide ShortBurst, Step;
    CrcFromAppend(INIT, pre + [a, b, d], post);
    CrcFromAppend(INIT, pre, [a, b, d]);
    CrcFromAppend(INIT, pre + [a', b', d'], post);
    CrcFromAppend(INIT, pre, [a', b', d']);
    if Crc(pre + [a', b', d'] + post) == 0 {
      CrcFromInjective(Crc(pre + [a, b, d]), Crc(pre + [a', b', d']), post);
      ThreeOctetsInjective(Crc(pre), a, b, d, a', b', d');
    }
  }

  // One bit more is too many: the polynomial itself spans seventeen.
  lemma LongerBurstMissed(pre: seq<byte>, post: seq<byte>)
    ensures !ShortBurst(1, 0x10, 0x21)
    ensures Crc(pre + [1, 0x10, 0x21] + post) == Crc(pre + [0, 0, 0] + post)
  {
    var c := Crc(pre);
    PolynomialVanishes(c);
    CrcFromAppend(INIT, pre + [1, 0x10, 0x21], post);
    CrcFromAppend(INIT, pre, [1, 0x10, 0x21]);
    CrcFromAppend(INIT, pre + [0, 0, 0], post);
    CrcFromAppend(INIT, pre, [0, 0, 0]);
  }

  lemma PolynomialVanishes(c: bv16)
    ensures CrcFrom(c, [1, 0x10, 0x21]) == CrcFrom(c, [0, 0, 0])
  {
    hide ShiftBits, ShiftBit, High, Step, Xor;
    ThreeSteps(c, 1, 0x10, 0x21);
    ThreeSteps(c, 0, 0, 0);
    assert (1 as byte) ^ 0 == 1 && (0x10 as byte) ^ 0 == 0x10 && (0x21 as byte) ^ 0 == 0x21;
    var s, s' := Step(c, 1), Step(c, 0);
    var y, y' := Step(s, 0x10), Step(s', 0);
    StepDifference(c, 1, 0);
    StepXor(s, s', 0x10, 0);
    StepXor(y, y', 0x21, 0);
    PolynomialOctets();
    XorSelf(Step(y, 0x21), Step(y', 0));
  }

  lemma PolynomialOctets()
    ensures ShiftBits(Xor(ShiftBits(Xor(ShiftBits(High(1), 8), High(0x10)), 8), High(0x21)), 8) == 0
  {
    EightShifts(High(1));
    assert Xor(ShiftBits(High(1), 8), High(0x10)) == Low(0x21);
    ShiftLow(0x21);
    XorZero(High(0x21));
    ShiftBitsKernel(0, 8);
  }

  // A register that is not zero stays so on zero octets, and INIT is not zero.
  lemma {:induction false} ZerosKeepRegister(c: bv16, n: nat)
    requires c != 0
    ensures CrcFrom(c, Zeros(n)) != 0
  {
    if n != 0 {
      var s := Zeros(n);
      assert s[..|s| - 1] == Zeros(n - 1);
      ZerosKeepRegister(c, n - 1);
      StepZeroOctet(CrcFrom(c, Zeros(n - 1)));
    }
  }

  lemma StepZeroOctet(c: bv16)
    ensures Step(c, 0) == 0 <==> c == 0
  {
    StepToZero(c, 0);
  }

  // ---- the loops of the sources -----------------------------------------------------

  // One octet into the register, as an eight-iteration shift loop.
  method UpdateCrc(crc: bv16, b: byte) returns (r: bv16)
    ensures r == Step(crc, b)
  {
    r := Xor(crc, High(b));
    for i := 0 to 8
      invariant r == ShiftBits(Xor(crc, High(b)), i)
    {
      r := ShiftBit(r);
    }
  }

  // crc16_ccitt over the first `len` octets of a buffer.
  method Crc16Ccitt(data: array<byte>, len: nat) returns (crc: bv16)
    requires len <= data.Length
    ensures crc == Crc(data[..len])
  {
    crc := INIT;
    for i := 0 to len
      invariant crc == Crc(data[..i])
    {
      assert data[..i + 1][..i] == data[..i];
      crc := UpdateCrc(crc, data[i]);
    }
  }
}
