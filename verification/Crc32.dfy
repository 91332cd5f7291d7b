/** The reflected CRC-32 of section 8 of RFC 1952, bit by bit, and what it is able to detect.

    Bit operations are wrapped in small named functions, so that the algebra above them is done with a few
    named laws. */
module Crc32 {
  import opened Bytes

  function Xor(a: bv32, b: bv32): bv32 { a ^ b }
  function Half(c: bv32): bv32 { c >> 1 }
  predicate Odd(c: bv32) { c & 1 != 0 }
  function Poly(odd: bool): bv32 { if odd then 0xedb88320 else 0 }
  function Feedback(c: bv32): bv32 { Poly(Odd(c)) }
  function Wide(b: Byte): bv32 { b as bv32 }

  const INITIAL: bv32 := 0xffffffff

  function BitStep(c: bv32): bv32 {
    Xor(Half(c), Feedback(c))
  }

  function Steps(c: bv32, n: nat): bv32
    decreases n
  {
    if n == 0 then c else Steps(BitStep(c), n - 1)
  }

  function ByteStep(c: bv32, b: Byte): bv32 {
    Steps(Xor(c, Wide(b)), 8)
  }

  /** The register after feeding it s. */
  function Register(c: bv32, s: seq<Byte>): bv32
    decreases s
  {
    if s == [] then c else Register(ByteStep(c, s[0]), s[1..])
  }

  function Not(c: bv32): bv32 { !c }

  function Checksum(s: seq<Byte>): bv32 {
    Not(Register(INITIAL, s))
  }

  /** The mask form of the source, which spreads the low bit over the word, is the branch. */
  lemma FeedbackByMask(c: bv32)
    ensures 0xedb88320 & (0 - (c & 1)) == Feedback(c)
  {
    LowBit(c);
    if c & 1 == 0 {
      assert 0xedb88320 & (c & 1) == 0;
    } else {
      var mask: bv32 := 0 - 1;
      assert mask == 0xffffffff && 0xedb88320 & mask == 0xedb88320;
    }
  }

  lemma LowBit(c: bv32)
    ensures c & 1 == 0 || c & 1 == 1
  {
  }

  method Compute(input: seq<Byte>) returns (crc: bv32)
    ensures crc == Checksum(input)
  {
    hide Xor, Half, Feedback, Wide;
    crc := INITIAL;
    for i := 0 to |input|
      invariant Register(crc, input[i..]) == Register(INITIAL, input)
    {
      ghost var before := crc;
      assert input[i..][1..] == input[i + 1..];
      crc := Xor(crc, Wide(input[i]));
      for bit := 0 to 8
        invariant Steps(crc, 8 - bit) == ByteStep(before, input[i])
      {
        FeedbackByMask(crc);
        var mask: bv32 := 0 - (crc & 1);
        crc := Xor(Half(crc), 0xedb88320 & mask);
      }
    }
    crc := Not(crc);
  }

  // ----- laws of xor -----

  lemma XorComm(a: bv32, b: bv32)
    ensures Xor(a, b) == Xor(b, a)
  {
  }

  lemma XorAssoc(a: bv32, b: bv32, c: bv32)
    ensures Xor(Xor(a, b), c) == Xor(a, Xor(b, c))
  {
  }

  lemma XorUndo(a: bv32, b: bv32)
    ensures Xor(a, Xor(a, b)) == b
  {
  }

  lemma XorExchange(a: bv32, b: bv32, p: bv32, q: bv32)
    ensures Xor(Xor(a, b), Xor(p, q)) == Xor(Xor(a, p), Xor(b, q))
  {
    hide Xor;
    XorAssoc(a, b, Xor(p, q));
    XorAssoc(b, p, q);
    XorComm(b, p);
    XorAssoc(p, b, q);
    XorAssoc(a, p, Xor(b, q));
  }

  // ----- the step is linear and loses nothing -----

  lemma HalfLinear(a: bv32, b: bv32)
    ensures Half(Xor(a, b)) == Xor(Half(a), Half(b))
  {
  }

  lemma OddXor(a: bv32, b: bv32)
    ensures Odd(Xor(a, b)) <==> Odd(a) != Odd(b)
  {
  }

  lemma PolyXor(p: bool, q: bool)
    ensures Xor(Poly(p), Poly(q)) == Poly(p != q)
  {
  }

  lemma FeedbackLinear(a: bv32, b: bv32)
    ensures Feedback(Xor(a, b)) == Xor(Feedback(a), Feedback(b))
  {
    hide Xor, Odd, Poly;
    OddXor(a, b);
    PolyXor(Odd(a), Odd(b));
  }

  lemma BitStepLinear(a: bv32, b: bv32)
    ensures BitStep(Xor(a, b)) == Xor(BitStep(a), BitStep(b))
  {
    hide Xor, Half, Feedback;
    HalfLinear(a, b);
    FeedbackLinear(a, b);
    XorExchange(Half(a), Half(b), Feedback(a), Feedback(b));
  }

  /** The inverse of the bit step: the top bit of the polynomial tells which branch was taken. */
  function UndoBit(c: bv32): bv32 {
    if c & 0x80000000 == 0 then c << 1 else ((c ^ 0xedb88320) << 1) | 1
  }

  lemma UndoBitStep(c: bv32)
    ensures UndoBit(BitStep(c)) == c
  {
  }

  lemma {:induction false} StepsInjective(a: bv32, b: bv32, n: nat)
    requires Steps(a, n) == Steps(b, n)
    ensures a == b
    decreases n
  {
    hide BitStep, UndoBit;
    if n > 0 {
      StepsInjective(BitStep(a), BitStep(b), n - 1);
      UndoBitStep(a);
      UndoBitStep(b);
    }
  }

  lemma {:induction false} StepsLinear(a: bv32, b: bv32, n: nat)
    ensures Steps(Xor(a, b), n) == Xor(Steps(a, n), Steps(b, n))
    decreases n
  {
    hide BitStep, Xor;
    if n > 0 {
      BitStepLinear(a, b);
      StepsLinear(BitStep(a), BitStep(b), n - 1);
    }
  }

  lemma {:induction false} StepsAdd(c: bv32, m: nat, n: nat)
    ensures Steps(c, m + n) == Steps(Steps(c, m), n)
    decreases m
  {
    hide BitStep;
    if m > 0 {
      StepsAdd(BitStep(c), m - 1, n);
    }
  }

  // ----- four bytes are one word -----

  function Up(c: bv32): bv32 { c << 8 }
  function Down(c: bv32): bv32 { c >> 8 }

  /** One byte below the rest of a word. */
  function Join(b: Byte, rest: bv32): bv32 {
    Xor(Wide(b), Up(rest))
  }

  function Word(s: seq<Byte>): bv32
    requires |s| == 4
  {
    Join(s[0], Join(s[1], Join(s[2], Join(s[3], 0))))
  }

  function WordBytes(c: bv32): (s: seq<Byte>)
    ensures |s| == 4
  {
    [LowByte(c), LowByte(Down(c)), LowByte(Down(Down(c))), LowByte(Down(Down(Down(c))))]
  }

  function LowByte(c: bv32): Byte { (c & 0xff) as Byte }

  lemma EightSteps(c: bv32)
    ensures Steps(c, 8) == BitStep(BitStep(BitStep(BitStep(BitStep(BitStep(BitStep(BitStep(c))))))))
  {
    hide BitStep;
  }

  /** Eight steps on a register whose low byte is clear only move the other three bytes down. */
  lemma EightStepsDown(c: bv32)
    ensures BitStep(BitStep(BitStep(BitStep(BitStep(BitStep(BitStep(BitStep(Up(c))))))))) == Down(Up(c))
  {
  }

  lemma JoinSplit(b: Byte, rest: bv32)
    requires rest < 0x1000000
    ensures LowByte(Join(b, rest)) == b
    ensures Down(Join(b, rest)) == rest
  {
  }

  lemma SplitJoin(c: bv32)
    ensures Down(c) < 0x1000000
    ensures Join(LowByte(c), Down(c)) == c
  {
  }

  lemma DownUp(rest: bv32)
    requires rest < 0x1000000
    ensures Down(Up(rest)) == rest
  {
  }

  lemma JoinBounds(b: Byte, rest: bv32)
    ensures rest == 0 ==> Join(b, rest) < 0x100
    ensures rest < 0x100 ==> Join(b, rest) < 0x10000
    ensures rest < 0x10000 ==> Join(b, rest) < 0x1000000
  {
  }

  lemma TopIsLast(c: bv32)
    ensures Down(Down(Down(Down(c)))) == 0
    ensures Down(Down(Down(c))) < 0x100
  {
  }

  lemma WordOfBytes(c: bv32)
    ensures Word(WordBytes(c)) == c
  {
    hide Join, Down, LowByte;
    var c1, c2, c3 := Down(c), Down(Down(c)), Down(Down(Down(c)));
    TopIsLast(c);
    SplitJoin(c3);
    SplitJoin(c2);
    SplitJoin(c1);
    SplitJoin(c);
  }

  lemma BytesOfWord(s: seq<Byte>)
    requires |s| == 4
    ensures WordBytes(Word(s)) == s
  {
    hide Join, Down, LowByte;
    WordBounds(s);
    JoinSplit(s[3], 0);
    JoinSplit(s[2], Join(s[3], 0));
    JoinSplit(s[1], Join(s[2], Join(s[3], 0)));
    JoinSplit(s[0], Join(s[1], Join(s[2], Join(s[3], 0))));
  }

  lemma WordBounds(s: seq<Byte>)
    requires |s| == 4
    ensures Join(s[3], 0) < 0x1000000
    ensures Join(s[2], Join(s[3], 0)) < 0x1000000
    ensures Join(s[1], Join(s[2], Join(s[3], 0))) < 0x1000000
  {
    hide Join;
    JoinBounds(s[3], 0);
    JoinBounds(s[2], Join(s[3], 0));
    JoinBounds(s[1], Join(s[2], Join(s[3], 0)));
  }

  /** One byte of a word enters the register; the rest of the word waits above it. */
  lemma PeelByte(c: bv32, b: Byte, rest: bv32)
    requires rest < 0x1000000
    ensures Steps(Xor(c, Join(b, rest)), 8) == Xor(ByteStep(c, b), rest)
  {
    hide Xor, Wide, Up, Down, BitStep;
    XorAssoc(c, Wide(b), Up(rest));
    StepsLinear(Xor(c, Wide(b)), Up(rest), 8);
    EightSteps(Up(rest));
    EightStepsDown(rest);
    DownUp(rest);
  }

  lemma RegisterOfFour(c: bv32, s: seq<Byte>)
    requires |s| == 4
    ensures Register(c, s) == ByteStep(ByteStep(ByteStep(ByteStep(c, s[0]), s[1]), s[2]), s[3])
  {
    hide ByteStep;
    assert s[1..][1..] == s[2..] && s[2..][1..] == s[3..] && s[3..][1..] == [];
    var c1 := ByteStep(c, s[0]);
    var c2 := ByteStep(c1, s[1]);
    var c3 := ByteStep(c2, s[2]);
    assert Register(c, s) == Register(c1, s[1..]) == Register(c2, s[2..]) == Register(c3, s[3..]);
    assert Register(c3, s[3..]) == Register(ByteStep(c3, s[3]), []);
  }

  lemma XorZero(c: bv32)
    ensures Xor(c, 0) == c
  {
  }

  /** Feeding four bytes is xoring their word into the register and stepping 32 times. */
  lemma RegisterOfWord(c: bv32, s: seq<Byte>)
    requires |s| == 4
    ensures Register(c, s) == Steps(Xor(c, Word(s)), 32)
  {
    hide Xor, Join, ByteStep, Steps, Register;
    WordBounds(s);
    var r3 := Join(s[3], 0);
    var r2 := Join(s[2], r3);
    var r1 := Join(s[1], r2);
    var c1 := ByteStep(c, s[0]);
    var c2 := ByteStep(c1, s[1]);
    var c3 := ByteStep(c2, s[2]);
    PeelByte(c, s[0], r1);
    PeelByte(c1, s[1], r2);
    PeelByte(c2, s[2], r3);
    PeelByte(c3, s[3], 0);
    XorZero(ByteStep(c3, s[3]));
    StepsAdd(Xor(c, Word(s)), 8, 24);
    StepsAdd(Xor(c1, r1), 8, 16);
    StepsAdd(Xor(c2, r2), 8, 8);
    RegisterOfFour(c, s);
  }

  // ----- detection -----

  lemma {:induction false} RegisterConcat(c: bv32, a: seq<Byte>, b: seq<Byte>)
    ensures Register(c, a + b) == Register(Register(c, a), b)
    decreases a
  {
    hide ByteStep;
    if a == [] {
      assert a + b == b;
    } else {
      RegisterConcat(ByteStep(c, a[0]), a[1..], b);
      assert (a + b)[1..] == a[1..] + b;
    }
  }

  lemma ByteStepInjective(c: bv32, d: bv32, b: Byte)
    requires ByteStep(c, b) == ByteStep(d, b)
    ensures c == d
  {
    hide Xor, Wide, Steps;
    StepsInjective(Xor(c, Wide(b)), Xor(d, Wide(b)), 8);
    XorComm(c, Wide(b));
    XorComm(d, Wide(b));
    XorUndo(Wide(b), c);
    XorUndo(Wide(b), d);
  }

  lemma {:induction false} RegisterInjective(c: bv32, d: bv32, s: seq<Byte>)
    requires Register(c, s) == Register(d, s)
    ensures c == d
    decreases s
  {
    hide ByteStep;
    if s != [] {
      RegisterInjective(ByteStep(c, s[0]), ByteStep(d, s[0]), s[1..]);
      ByteStepInjective(c, d, s[0]);
    }
  }

  lemma WordInjective(c: bv32, s: seq<Byte>, t: seq<Byte>)
    requires |s| == |t| == 4 && Register(c, s) == Register(c, t)
    ensures s == t
  {
    hide Xor, Steps, Register, Word, WordBytes;
    RegisterOfWord(c, s);
    RegisterOfWord(c, t);
    StepsInjective(Xor(c, Word(s)), Xor(c, Word(t)), 32);
    XorUndo(c, Word(s));
    XorUndo(c, Word(t));
    BytesOfWord(s);
    BytesOfWord(t);
  }

  /** Two different strings of at most four bytes never leave the register alike. */
  lemma BurstInjective(c: bv32, a: seq<Byte>, b: seq<Byte>)
    requires |a| == |b| <= 4 && Register(c, a) == Register(c, b)
    ensures a == b
  {
    hide Register;
    var zeros: seq<Byte> := seq(4 - |a|, _ => 0);
    RegisterConcat(c, a, zeros);
    RegisterConcat(c, b, zeros);
    WordInjective(c, a + zeros, b + zeros);
    assert a == (a + zeros)[..|a|] && b == (b + zeros)[..|a|];
  }

  /** Any change confined to four consecutive bytes changes the register, whatever surrounds it. */
  lemma BurstDetected(before: seq<Byte>, a: seq<Byte>, b: seq<Byte>, after: seq<Byte>)
    requires |a| == |b| <= 4 && a != b
    ensures Register(INITIAL, before + a + after) != Register(INITIAL, before + b + after)
  {
    hide Register;
    var c := Register(INITIAL, before);
    RegisterConcat(INITIAL, before, a);
    RegisterConcat(INITIAL, before, b);
    RegisterConcat(INITIAL, before + a, after);
    RegisterConcat(INITIAL, before + b, after);
    if Register(INITIAL, before + a + after) == Register(INITIAL, before + b + after) {
      RegisterInjective(Register(c, a), Register(c, b), after);
      BurstInjective(c, a, b);
    }
  }

  function Residue(): bv32 {
    Steps(0xffffffff, 32)
  }

  lemma XorNot(c: bv32)
    ensures Xor(c, Not(c)) == 0xffffffff
  {
  }

  /** A body followed by four bytes carries its own checksum exactly when the register ends in one fixed
      residue; so the checksum field itself takes part in the detection above. */
  lemma ChecksumIsResidue(body: seq<Byte>, stored: seq<Byte>)
    requires |stored| == 4
    ensures stored == WordBytes(Checksum(body)) <==> Register(INITIAL, body + stored) == Residue()
  {
    hide Xor, Steps, Register, Word, WordBytes, Not;
    var c := Register(INITIAL, body);
    RegisterConcat(INITIAL, body, stored);
    RegisterOfWord(c, stored);
    XorNot(c);
    WordOfBytes(Not(c));
    if Register(INITIAL, body + stored) == Residue() {
      StepsInjective(Xor(c, Word(stored)), Xor(c, Not(c)), 32);
      XorUndo(c, Word(stored));
      XorUndo(c, Not(c));
      BytesOfWord(stored);
    }
  }

  // ----- known answers -----

  lemma FirstByte()
    ensures ByteStep(0xffffffff, 0x31) == 0x7c231048
  {
  }

  lemma SecondByte()
    ensures ByteStep(0x7c231048, 0x32) == 0xb0acbb32
  {
  }

  lemma ThirdByte()
    ensures ByteStep(0xb0acbb32, 0x33) == 0x77b79c2d
  {
  }

  lemma FourthByte()
    ensures ByteStep(0x77b79c2d, 0x34) == 0x641c1f5c
  {
  }

  lemma FifthByte()
    ensures ByteStep(0x641c1f5c, 0x35) == 0x340ac5e3
  {
  }

  lemma SixthByte()
    ensures ByteStep(0x340ac5e3, 0x36) == 0xf68d2c9e
  {
  }

  lemma SeventhByte()
    ensures ByteStep(0xf68d2c9e, 0x37) == 0xaffc9660
  {
  }

  lemma EighthByte()
    ensures ByteStep(0xaffc9660, 0x38) == 0x651f2550
  {
  }

  lemma NinthByte()
    ensures ByteStep(0x651f2550, 0x39) == 0x340bc6d9
  {
  }

  lemma ThreeBytes(c: bv32, x: Byte, y: Byte, z: Byte)
    ensures Register(c, [x, y, z]) == ByteStep(ByteStep(ByteStep(c, x), y), z)
  {
    hide ByteStep;
    assert [x, y, z][1..] == [y, z] && [y, z][1..] == [z] && [z][1..] == [];
    var d := ByteStep(c, x);
    var e := ByteStep(d, y);
    assert Register(d, [y, z]) == Register(e, [z]);
    assert Register(e, [z]) == Register(ByteStep(e, z), []);
  }

  lemma Threes(c: bv32, s: seq<Byte>)
    requires |s| == 9
    ensures Register(c, s) == Register(Register(Register(c, s[0..3]), s[3..6]), s[6..9])
  {
    hide Register;
    assert s == (s[0..3] + s[3..6]) + s[6..9];
    RegisterConcat(c, s[0..3] + s[3..6], s[6..9]);
    RegisterConcat(c, s[0..3], s[3..6]);
  }

  /** The check value by which CRC-32 is known: the checksum of the digits 1 to 9; and that of nothing is 0. */
  lemma CheckValue()
    ensures Checksum([0x31, 0x32, 0x33, 0x34, 0x35, 0x36, 0x37, 0x38, 0x39]) == 0xcbf43926
    ensures Checksum([]) == 0
  {
    hide ByteStep, Register;
    var s: seq<Byte> := [0x31, 0x32, 0x33, 0x34, 0x35, 0x36, 0x37, 0x38, 0x39];
    Threes(INITIAL, s);
    assert Register(INITIAL, s[0..3]) == 0x77b79c2d by {
      FirstThree();
      assert s[0..3] == [s[0], s[1], s[2]];
    }
    assert Register(0x77b79c2d, s[3..6]) == 0xf68d2c9e by {
      NextThree();
      assert s[3..6] == [s[3], s[4], s[5]];
    }
    assert Register(0xf68d2c9e, s[6..9]) == 0x340bc6d9 by {
      LastThree();
      assert s[6..9] == [s[6], s[7], s[8]];
    }
    EmptyRegister(INITIAL);
    NotValues();
  }

  lemma FirstThree()
    ensures Register(0xffffffff, [0x31, 0x32, 0x33]) == 0x77b79c2d
  {
    hide ByteStep, Register;
    FirstByte();
    SecondByte();
    ThirdByte();
    ThreeBytes(0xffffffff, 0x31, 0x32, 0x33);
  }

  lemma NextThree()
    ensures Register(0x77b79c2d, [0x34, 0x35, 0x36]) == 0xf68d2c9e
  {
    hide ByteStep, Register;
    FourthByte();
    FifthByte();
    SixthByte();
    ThreeBytes(0x77b79c2d, 0x34, 0x35, 0x36);
  }

  lemma LastThree()
    ensures Register(0xf68d2c9e, [0x37, 0x38, 0x39]) == 0x340bc6d9
  {
    hide ByteStep, Register;
    SeventhByte();
    EighthByte();
    NinthByte();
    ThreeBytes(0xf68d2c9e, 0x37, 0x38, 0x39);
  }

  lemma NotValues()
    ensures Not(0x340bc6d9) == 0xcbf43926 && Not(0xffffffff) == 0
  {
  }

  lemma EmptyRegister(c: bv32)
    ensures Register(c, []) == c
  {
  }
}
