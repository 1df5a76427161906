/** The bitwise CRC-32 that guards every journal body (IEEE 802.3, reflected polynomial).
  *
  * Words are naturals below 2^32 and xor is defined bit by bit. One step of the register is linear over
  * xor and injective on 32-bit words; the error-detection theorem follows from these two facts alone. */
module Crc32 {
  import opened Bytes

  const POLYNOMIAL := 0xEDB88320
  const SEED := 0xFFFFFFFF

  /** Bitwise exclusive or of two naturals. */
  function Xor(a: nat, b: nat): (r: nat)
    decreases a + b
  {
    if a == 0 && b == 0 then 0 else (a % 2 + b % 2) % 2 + 2 * Xor(a / 2, b / 2)
  }

  function Pow2(n: nat): (p: nat)
    ensures p >= 1
  {
    if n == 0 then 1 else 2 * Pow2(n - 1)
  }

  lemma {:induction false} XorZero(a: nat)
    ensures Xor(a, 0) == a && Xor(0, a) == a
  {
    if a != 0 {
      XorZero(a / 2);
    }
  }

  lemma {:induction false} XorSelf(a: nat)
    ensures Xor(a, a) == 0
  {
    if a != 0 {
      XorSelf(a / 2);
    }
  }

  lemma {:induction false} XorCommutes(a: nat, b: nat)
    ensures Xor(a, b) == Xor(b, a)
    decreases a + b
  {
    if a + b != 0 {
      XorCommutes(a / 2, b / 2);
    }
  }

  lemma {:induction false} XorAssociates(a: nat, b: nat, c: nat)
    ensures Xor(Xor(a, b), c) == Xor(a, Xor(b, c))
    decreases a + b + c
  {
    hide Xor;
    if a + b + c == 0 {
      XorZero(0);
    } else {
      var ab, bc := Xor(a, b), Xor(b, c);
      XorHalves(a, b);
      XorHalves(b, c);
      XorHalves(ab, c);
      XorHalves(a, bc);
      XorAssociates(a / 2, b / 2, c / 2);
      SameHalves(Xor(ab, c), Xor(a, bc));
    }
  }

  lemma SameHalves(x: nat, y: nat)
    requires x / 2 == y / 2 && x % 2 == y % 2
    ensures x == y
  {
  }

  lemma XorHalves(a: nat, b: nat)
    ensures Xor(a, b) / 2 == Xor(a / 2, b / 2)
    ensures Xor(a, b) % 2 == (a % 2 + b % 2) % 2
  {
  }

  lemma {:induction false} XorBound(a: nat, b: nat, n: nat)
    requires a < Pow2(n) && b < Pow2(n)
    ensures Xor(a, b) < Pow2(n)
  {
    if n != 0 {
      XorBound(a / 2, b / 2, n - 1);
      XorHalves(a, b);
    }
  }

  lemma XorCancels(a: nat, b: nat, c: nat)
    requires Xor(a, c) == Xor(b, c)
    ensures a == b
  {
    XorAssociates(a, c, c);
    XorAssociates(b, c, c);
    XorSelf(c);
    XorZero(a);
    XorZero(b);
  }

  /** Swaps the inner operands of two xors: (a+b)+(c+d) == (a+c)+(b+d). */
  lemma XorExchange(a: nat, b: nat, c: nat, d: nat)
    ensures Xor(Xor(a, b), Xor(c, d)) == Xor(Xor(a, c), Xor(b, d))
  {
    calc {
      Xor(Xor(a, b), Xor(c, d));
      { XorAssociates(a, b, Xor(c, d)); XorAssociates(b, c, d); }
      Xor(a, Xor(Xor(b, c), d));
      { XorCommutes(b, c); XorAssociates(c, b, d); }
      Xor(a, Xor(c, Xor(b, d)));
      { XorAssociates(a, c, Xor(b, d)); }
      Xor(Xor(a, c), Xor(b, d));
    }
  }

  /** The masked polynomial of one register step. */
  function Feedback(crc: nat): nat {
    if crc % 2 == 1 then POLYNOMIAL else 0
  }

  /** One bit of the register: shift right, xor the polynomial when a one fell out. */
  function Step(crc: nat): (r: nat) {
    Xor(crc / 2, Feedback(crc))
  }

  function StepN(crc: nat, n: nat): (r: nat)
    decreases n
  {
    if n == 0 then crc else StepN(Step(crc), n - 1)
  }

  /** The register after feeding every byte of `s`, least significant bit first. */
  function Update(crc: nat, s: bytes): (r: nat)
    decreases |s|
  {
    if s == [] then crc else Update(StepN(Xor(crc, s[0] as int), 8), s[1..])
  }

  function Crc(s: bytes): (r: nat)
    ensures r < U32_BOUND
  {
    UpdateBound(SEED, s);
    SEED - Update(SEED, s)
  }

  lemma Pow32()
    ensures Pow2(32) == U32_BOUND && Pow2(31) == U32_BOUND / 2
  {
    assert Pow2(8) == 256;
    assert Pow2(16) == 65536 by { assert Pow2(12) == 4096; }
    assert Pow2(24) == 16777216 by { assert Pow2(20) == 1048576; }
    assert Pow2(28) == 268435456;
  }

  lemma StepBound(crc: nat)
    requires crc < U32_BOUND
    ensures Step(crc) < U32_BOUND
  {
    Pow32();
    XorBound(crc / 2, Feedback(crc), 32);
  }

  lemma {:induction false} StepNBound(crc: nat, n: nat)
    requires crc < U32_BOUND
    ensures StepN(crc, n) < U32_BOUND
    decreases n
  {
    if n != 0 {
      StepBound(crc);
      StepNBound(Step(crc), n - 1);
    }
  }

  lemma {:induction false} UpdateBound(crc: nat, s: bytes)
    requires crc < U32_BOUND
    ensures Update(crc, s) < U32_BOUND
    decreases |s|
  {
    if s != [] {
      Pow32();
      XorBound(crc, s[0] as int, 32);
      StepNBound(Xor(crc, s[0] as int), 8);
      UpdateBound(StepN(Xor(crc, s[0] as int), 8), s[1..]);
    }
  }

  /** crc32(data, length, seed): the nested loops over bytes and bits; the final complement of a 32-bit word. */
  method ComputeCrc(data: bytes) returns (r: nat)
    ensures r == Crc(data)
  {
    var crc: nat := SEED;
    for i := 0 to |data|
      invariant crc < U32_BOUND
      invariant Update(crc, data[i..]) == Update(SEED, data)
    {
      ghost var before := crc;
      crc := XorWord(crc, data[i] as int);
      ghost var mixed := crc;
      for bit := 0 to 8
        invariant crc < U32_BOUND
        invariant StepN(crc, 8 - bit) == StepN(mixed, 8)
      {
        var mask := if crc % 2 == 1 then POLYNOMIAL else 0;
        StepBound(crc);
        crc := Xor(crc / 2, mask);
      }
      assert data[i..][1..] == data[i + 1..];
    }
    assert data[|data|..] == [];
    r := SEED - crc;
  }

  function XorWord(crc: nat, b: nat): (r: nat)
    requires crc < U32_BOUND && b < U32_BOUND
    ensures r == Xor(crc, b) && r < U32_BOUND
  {
    Pow32();
    XorBound(crc, b, 32);
    Xor(crc, b)
  }

  /** The step is linear over xor. */
  lemma StepLinear(a: nat, b: nat)
    ensures Step(Xor(a, b)) == Xor(Step(a), Step(b))
  {
    XorHalves(a, b);
    FeedbackLinear(a, b);
    XorExchange(a / 2, b / 2, Feedback(a), Feedback(b));
  }

  lemma MaskLinear(p: nat, a: bool, b: bool)
    ensures Xor(if a then p else 0, if b then p else 0) == if a != b then p else 0
  {
    XorZero(p);
    XorSelf(p);
  }

  lemma FeedbackLinear(a: nat, b: nat)
    ensures Feedback(Xor(a, b)) == Xor(Feedback(a), Feedback(b))
  {
    hide Xor;
    XorHalves(a, b);
    MaskLinear(POLYNOMIAL, a % 2 == 1, b % 2 == 1);
  }

  lemma {:induction false} StepNLinear(a: nat, b: nat, n: nat)
    ensures StepN(Xor(a, b), n) == Xor(StepN(a, n), StepN(b, n))
    decreases n
  {
    if n != 0 {
      StepLinear(a, b);
      StepNLinear(Step(a), Step(b), n - 1);
    }
  }

  /** On 32-bit words the step loses nothing: the polynomial's top bit records the bit that fell out. */
  lemma StepInjective(a: nat, b: nat)
    requires a < U32_BOUND && b < U32_BOUND
    requires Step(a) == Step(b)
    ensures a == b
  {
    TopBit(a);
    TopBit(b);
    XorCancels(a / 2, b / 2, Feedback(a));
  }

  lemma TopBit(a: nat)
    requires a < U32_BOUND
    ensures Step(a) >= Pow2(31) <==> a % 2 == 1
  {
    Pow32();
    if a % 2 == 0 {
      XorZero(a / 2);
    } else if Step(a) < Pow2(31) {
      XorBound(Step(a), a / 2, 31);
      XorCommutes(a / 2, POLYNOMIAL);
      XorAssociates(POLYNOMIAL, a / 2, a / 2);
      XorSelf(a / 2);
      XorZero(POLYNOMIAL);
      assert false;
    }
  }

  lemma {:induction false} StepNInjective(a: nat, b: nat, n: nat)
    requires a < U32_BOUND && b < U32_BOUND
    requires StepN(a, n) == StepN(b, n)
    ensures a == b
    decreases n
  {
    if n != 0 {
      StepBound(a);
      StepBound(b);
      StepNInjective(Step(a), Step(b), n - 1);
      StepInjective(a, b);
    }
  }

  lemma {:induction false} StepNAdds(a: nat, m: nat, n: nat)
    ensures StepN(a, m + n) == StepN(StepN(a, m), n)
    decreases m
  {
    if m != 0 {
      StepNAdds(Step(a), m - 1, n);
    }
  }

  /** The little-endian number spelled by a byte string. */
  function Word(s: bytes): (w: nat)
    decreases |s|
  {
    if s == [] then 0 else Xor(s[0] as int, 256 * Word(s[1..]))
  }

  lemma ShiftOne(w: nat)
    ensures Step(2 * w) == w
  {
    XorZero(w);
  }

  lemma {:induction false} ShiftMany(w: nat, n: nat)
    ensures StepN(Pow2(n) * w, n) == w
    decreases n
  {
    hide Step;
    if n != 0 {
      var half := Pow2(n - 1) * w;
      assert Pow2(n) * w == 2 * half;
      ShiftOne(half);
      ShiftMany(w, n - 1);
    }
  }

  /** Feeding the bytes one at a time equals xoring in the whole number at once and stepping 8 times a byte. */
  lemma {:induction false} UpdateIsDivision(crc: nat, s: bytes)
    ensures Update(crc, s) == StepN(Xor(crc, Word(s)), 8 * |s|)
    decreases |s|
  {
    if s == [] {
      XorZero(crc);
    } else {
      hide Xor;
      hide StepN;
      var b, rest := s[0] as int, Word(s[1..]);
      calc {
        Update(crc, s);
        Update(StepN(Xor(crc, b), 8), s[1..]);
        { UpdateIsDivision(StepN(Xor(crc, b), 8), s[1..]); }
        StepN(Xor(StepN(Xor(crc, b), 8), rest), 8 * |s[1..]|);
        { ShiftMany(rest, 8); assert Pow2(8) == 256; StepNLinear(Xor(crc, b), 256 * rest, 8); }
        StepN(StepN(Xor(Xor(crc, b), 256 * rest), 8), 8 * |s[1..]|);
        { XorAssociates(crc, b, 256 * rest); }
        StepN(StepN(Xor(crc, Word(s)), 8), 8 * |s[1..]|);
        { StepNAdds(Xor(crc, Word(s)), 8, 8 * |s[1..]|); }
        StepN(Xor(crc, Word(s)), 8 * |s|);
      }
    }
  }

  lemma {:induction false} WordBound(s: bytes)
    ensures Word(s) < Pow2(8 * |s|)
    decreases |s|
  {
    if s != [] {
      WordBound(s[1..]);
      var n := 8 * |s[1..]|;
      Pow2Eight(n);
      XorBound(s[0] as int, 256 * Word(s[1..]), n + 8);
    }
  }

  lemma Pow2Eight(n: nat)
    ensures Pow2(n + 8) == 256 * Pow2(n)
  {
    Pow2Four(n);
    Pow2Four(n + 4);
  }

  lemma Pow2Four(n: nat)
    ensures Pow2(n + 4) == 16 * Pow2(n)
  {
    calc {
      Pow2(n + 4);
      2 * Pow2(n + 3);
      4 * Pow2(n + 2);
      8 * Pow2(n + 1);
      16 * Pow2(n);
    }
  }

  lemma {:induction false} WordInjective(s: bytes, t: bytes)
    requires |s| == |t| && Word(s) == Word(t)
    ensures s == t
    decreases |s|
  {
    if s != [] {
      LowByte(s);
      LowByte(t);
      WordInjective(s[1..], t[1..]);
      assert s == [s[0]] + s[1..] && t == [t[0]] + t[1..];
    }
  }

  lemma LowByte(s: bytes)
    requires s != []
    ensures Word(s) % 256 == s[0] as int && Word(s) / 256 == Word(s[1..])
  {
    assert Pow2(8) == 256;
    XorDisjoint(s[0] as int, Word(s[1..]), 8);
    assert Word(s) == s[0] as int + 256 * Word(s[1..]);
  }

  lemma {:induction false} XorDisjoint(low: nat, high: nat, n: nat)
    requires low < Pow2(n)
    ensures Xor(low, Pow2(n) * high) == low + Pow2(n) * high
    decreases n
  {
    hide Xor;
    if n == 0 {
      assert Pow2(n) * high == high;
      XorZero(high);
    } else {
      var half := Pow2(n - 1) * high;
      assert Pow2(n) * high == 2 * half;
      XorDisjoint(low / 2, high, n - 1);
      EvenXor(low, half);
    }
  }

  lemma EvenXor(low: nat, half: nat)
    ensures Xor(low, 2 * half) == low % 2 + 2 * Xor(low / 2, half)
  {
  }

  lemma {:induction false} UpdateAppend(crc: nat, s: bytes, t: bytes)
    ensures Update(crc, s + t) == Update(Update(crc, s), t)
    decreases |s|
  {
    if s == [] {
      assert s + t == t;
    } else {
      assert (s + t)[1..] == s[1..] + t;
      UpdateAppend(StepN(Xor(crc, s[0] as int), 8), s[1..], t);
    }
  }

  lemma {:induction false} UpdateInjective(a: nat, b: nat, s: bytes)
    requires a < U32_BOUND && b < U32_BOUND
    requires Update(a, s) == Update(b, s)
    ensures a == b
    decreases |s|
  {
    if s != [] {
      var c := s[0] as int;
      var ma, mb := XorWord(a, c), XorWord(b, c);
      StepNBound(ma, 8);
      StepNBound(mb, 8);
      UpdateInjective(StepN(ma, 8), StepN(mb, 8), s[1..]);
      StepNInjective(ma, mb, 8);
      XorCancels(a, b, c);
    }
  }

  /** Any change confined to at most four adjacent bytes (a burst of up to 32 bits) changes the CRC. */
  lemma BurstDetected(before: bytes, window: bytes, changed: bytes, after: bytes)
    requires |window| == |changed| <= 4
    requires window != changed
    ensures Crc(before + window + after) != Crc(before + changed + after)
  {
    if Crc(before + window + after) == Crc(before + changed + after) {
      UpdateBound(SEED, before);
      var c := Update(SEED, before);
      UpdateBound(c, window);
      UpdateBound(c, changed);
      UpdateBound(SEED, before + window + after);
      UpdateBound(SEED, before + changed + after);
      UpdateAppend(SEED, before + window, after);
      UpdateAppend(SEED, before, window);
      UpdateAppend(SEED, before + changed, after);
      UpdateAppend(SEED, before, changed);
      UpdateInjective(Update(c, window), Update(c, changed), after);
      UpdateIsDivision(c, window);
      UpdateIsDivision(c, changed);
      FourByteWord(window);
      FourByteWord(changed);
      var w, x := XorWord(c, Word(window)), XorWord(c, Word(changed));
      StepNInjective(w, x, 8 * |window|);
      XorCommutes(c, Word(window));
      XorCommutes(c, Word(changed));
      XorCancels(Word(window), Word(changed), c);
      WordInjective(window, changed);
    }
  }

  lemma FourByteWord(s: bytes)
    requires |s| <= 4
    ensures Word(s) < U32_BOUND
  {
    WordBound(s);
    Pow32();
    Pow2Monotone(8 * |s|, 32);
  }

  lemma {:induction false} Pow2Monotone(m: nat, n: nat)
    requires m <= n
    ensures Pow2(m) <= Pow2(n)
    decreases n - m
  {
    if m < n {
      Pow2Monotone(m, n - 1);
    }
  }

  // --- The remainder ---

  /** The generator polynomial of IEEE 802.3 in reflected form, all 33 coefficients of it. */
  const GENERATOR := 0x1_DB71_0641

  /** Long division of a reflected dividend: `n` coefficients are taken off, each cancelled by the generator. */
  function Remainder(w: nat, n: nat): (r: nat)
    decreases n
  {
    if n == 0 then w else Remainder((if w % 2 == 0 then w else Xor(w, GENERATOR)) / 2, n - 1)
  }

  lemma {:induction false} StepNIsRemainder(w: nat, n: nat)
    ensures StepN(w, n) == Remainder(w, n)
    decreases n
  {
    if n != 0 {
      StepNIsRemainder(Step(w), n - 1);
      XorZero(w / 2);
      XorHalves(w, GENERATOR);
      assert GENERATOR / 2 == POLYNOMIAL;
      hide Xor;
    }
  }

  /** The CRC of any bytes is the complement of the remainder of their number, preset with 32 ones, by the generator. */
  lemma CrcIsRemainder(s: bytes)
    ensures Crc(s) == 0xFFFF_FFFF - Remainder(Xor(0xFFFF_FFFF, Word(s)), 8 * |s|)
  {
    UpdateIsDivision(SEED, s);
    StepNIsRemainder(Xor(SEED, Word(s)), 8 * |s|);
    hide Xor;
    hide StepN;
  }

  lemma {:induction false} XorComplement(r: nat, n: nat)
    requires r < Pow2(n)
    ensures Xor(r, Pow2(n) - 1 - r) == Pow2(n) - 1
    decreases n
  {
    if n != 0 {
      XorComplement(r / 2, n - 1);
      XorHalves(r, Pow2(n) - 1 - r);
      assert (Pow2(n) - 1 - r) / 2 == Pow2(n - 1) - 1 - r / 2;
      hide Xor;
    } else {
      XorZero(0);
    }
  }

  /** Bytes followed by their own CRC, as it stands in a frame, leave the register in one and the same state. */
  lemma Residue(s: bytes)
    ensures Update(0xFFFF_FFFF, s + U32ToBytes(Crc(s))) == Remainder(0xFFFF_FFFF, 32)
  {
    CrcParts(s);
    var r, tail := Update(SEED, s), U32ToBytes(Crc(s));
    assert |tail| == 4;
    hide *;
    UpdateAppend(SEED, s, tail);
    UpdateIsDivision(r, tail);
    WordOfBytes(Crc(s));
    StepNIsRemainder(0xFFFF_FFFF, 32);
  }

  lemma CrcParts(s: bytes)
    ensures var r := Update(SEED, s); SEED == 0xFFFF_FFFF && Crc(s) < U32_BOUND && Xor(r, Crc(s)) == SEED
  {
    UpdateBound(SEED, s);
    Pow32();
    assert Pow2(32) - 1 == SEED;
    hide Pow2;
    hide Xor;
    hide Update;
    XorComplement(Update(SEED, s), 32);
  }

  lemma WordOfBytes(v: nat)
    requires v < U32_BOUND
    ensures Word(U32ToBytes(v)) == v
  {
    var s := U32ToBytes(v);
    U32RoundTrip(v);
    var none: bytes := [];
    assert Word(none) == 0;
    LowByte(s);
    LowByte(s[1..]);
    LowByte(s[2..]);
    LowByte(s[3..]);
    assert s[1..][1..] == s[2..] && s[2..][1..] == s[3..] && s[3..][1..] == none;
    hide Word;
  }
}
