/** The A64 instructions that the CanDo loop-trace backend emits: their 32-bit encodings, a decoder,
    and a small-step machine (Arm Architecture Reference Manual DDI 0487, sections C6.2 and C7.2).

    Registers hold either plain 64-bit patterns or pointers into one of the memory regions that
    the trace function is given, so that an access outside its region is a fault rather than a
    silent read of something else. */
module A64 {

  const TWO16: int := 0x1_0000
  const TWO26: int := 0x400_0000
  const TWO32: int := 0x1_0000_0000
  const TWO64: int := 0x1_0000_0000_0000_0000

  type U64 = n: int | 0 <= n < TWO64

  // ----- instructions -----

  datatype Insn =
    | LdrX(rt: nat, rn: nat, imm12: nat)
    | StrX(rt: nat, rn: nat, imm12: nat)
    | LdrD(rt: nat, rn: nat, imm12: nat)
    | StrD(rt: nat, rn: nat, imm12: nat)
    | Stp(rt: nat, rt2: nat, rn: nat, imm7: nat)
    | Ldp(rt: nat, rt2: nat, rn: nat, imm7: nat)
    | AddImm(rd: nat, rn: nat, imm12: nat)
    | SubImm(rd: nat, rn: nat, imm12: nat)
    | SubsImmW(rd: nat, rn: nat, imm12: nat)
    | Movz(rd: nat, hw: nat, imm16: nat)
    | Movk(rd: nat, hw: nat, imm16: nat)
    | MovzW(rd: nat, imm16: nat)
    | OrrReg(rd: nat, rn: nat, rm: nat)
    | AndReg(rd: nat, rn: nat, rm: nat)
    | AddReg(rd: nat, rn: nat, rm: nat)
    | SubsReg(rd: nat, rn: nat, rm: nat)
    | Fadd(rd: nat, rn: nat, rm: nat)
    | Fsub(rd: nat, rn: nat, rm: nat)
    | Fmul(rd: nat, rn: nat, rm: nat)
    | Fdiv(rd: nat, rn: nat, rm: nat)
    | Fneg(rd: nat, rn: nat)
    | Fcmp(rn: nat, rm: nat)
    | FcmpZero(rn: nat)
    | Csinc(rd: nat, rn: nat, rm: nat, cond: nat)
    | Scvtf(rd: nat, rn: nat)
    | B(imm26: nat)
    | BCond(cond: nat, imm19: nat)
    | Ret(rn: nat)
    | Blr(rn: nat)
    | Undefined

  /** Every field fits the bits the encoding gives it. */
  predicate Encodable(i: Insn) {
    match i
    case LdrX(t, n, m) => t < 32 && n < 32 && m < 4096
    case StrX(t, n, m) => t < 32 && n < 32 && m < 4096
    case LdrD(t, n, m) => t < 32 && n < 32 && m < 4096
    case StrD(t, n, m) => t < 32 && n < 32 && m < 4096
    case Stp(t, u, n, m) => t < 32 && u < 32 && n < 32 && m < 128
    case Ldp(t, u, n, m) => t < 32 && u < 32 && n < 32 && m < 128
    case AddImm(d, n, m) => d < 32 && n < 32 && m < 4096
    case SubImm(d, n, m) => d < 32 && n < 32 && m < 4096
    case SubsImmW(d, n, m) => d < 32 && n < 32 && m < 4096
    case Movz(d, h, m) => d < 32 && h < 4 && m < TWO16
    case Movk(d, h, m) => d < 32 && h < 4 && m < TWO16
    case MovzW(d, m) => d < 32 && m < TWO16
    case OrrReg(d, n, m) => d < 32 && n < 32 && m < 32
    case AndReg(d, n, m) => d < 32 && n < 32 && m < 32
    case AddReg(d, n, m) => d < 32 && n < 32 && m < 32
    case SubsReg(d, n, m) => d < 32 && n < 32 && m < 32
    case Fadd(d, n, m) => d < 32 && n < 32 && m < 32
    case Fsub(d, n, m) => d < 32 && n < 32 && m < 32
    case Fmul(d, n, m) => d < 32 && n < 32 && m < 32
    case Fdiv(d, n, m) => d < 32 && n < 32 && m < 32
    case Fneg(d, n) => d < 32 && n < 32
    case Fcmp(n, m) => n < 32 && m < 32
    case FcmpZero(n) => n < 32
    case Csinc(d, n, m, c) => d < 32 && n < 32 && m < 32 && c < 16
    case Scvtf(d, n) => d < 32 && n < 32
    case B(m) => m < TWO26
    case BCond(c, m) => c < 16 && m < 0x8_0000
    case Ret(n) => n < 32
    case Blr(n) => n < 32
    case Undefined => false
  }

  /** The fixed bits of each encoding plus its fields at their positions.  The fields never
      overlap, so the sum is the bitwise-or that the emitters write (EmittedIsEncode). */
  function Encode(i: Insn): nat {
    match i
    case LdrX(t, n, m) => 0xF940_0000 + m * 1024 + n * 32 + t
    case StrX(t, n, m) => 0xF900_0000 + m * 1024 + n * 32 + t
    case LdrD(t, n, m) => 0xFD40_0000 + m * 1024 + n * 32 + t
    case StrD(t, n, m) => 0xFD00_0000 + m * 1024 + n * 32 + t
    case Stp(t, u, n, m) => 0xA900_0000 + m * 32768 + u * 1024 + n * 32 + t
    case Ldp(t, u, n, m) => 0xA940_0000 + m * 32768 + u * 1024 + n * 32 + t
    case AddImm(d, n, m) => 0x9100_0000 + m * 1024 + n * 32 + d
    case SubImm(d, n, m) => 0xD100_0000 + m * 1024 + n * 32 + d
    case SubsImmW(d, n, m) => 0x7100_0000 + m * 1024 + n * 32 + d
    case Movz(d, h, m) => 0xD280_0000 + h * 0x20_0000 + m * 32 + d
    case Movk(d, h, m) => 0xF280_0000 + h * 0x20_0000 + m * 32 + d
    case MovzW(d, m) => 0x5280_0000 + m * 32 + d
    case OrrReg(d, n, m) => 0xAA00_0000 + m * TWO16 + n * 32 + d
    case AndReg(d, n, m) => 0x8A00_0000 + m * TWO16 + n * 32 + d
    case AddReg(d, n, m) => 0x8B00_0000 + m * TWO16 + n * 32 + d
    case SubsReg(d, n, m) => 0xEB00_0000 + m * TWO16 + n * 32 + d
    case Fadd(d, n, m) => 0x1E60_2800 + m * TWO16 + n * 32 + d
    case Fsub(d, n, m) => 0x1E60_3800 + m * TWO16 + n * 32 + d
    case Fmul(d, n, m) => 0x1E60_0800 + m * TWO16 + n * 32 + d
    case Fdiv(d, n, m) => 0x1E60_1800 + m * TWO16 + n * 32 + d
    case Fneg(d, n) => 0x1E61_4000 + n * 32 + d
    case Fcmp(n, m) => 0x1E60_2000 + m * TWO16 + n * 32
    case FcmpZero(n) => 0x1E60_2008 + n * 32
    case Csinc(d, n, m, c) => 0x1A80_0400 + m * TWO16 + c * 4096 + n * 32 + d
    case Scvtf(d, n) => 0x1E62_0000 + n * 32 + d
    case B(m) => 0x1400_0000 + m
    case BCond(c, m) => 0x5400_0000 + m * 32 + c
    case Ret(n) => 0xD65F_0000 + n * 32
    case Blr(n) => 0xD63F_0000 + n * 32
    case Undefined => 0
  }

  // ----- the emitters' bitwise-or -----

  /** Bitwise-or of natural numbers. */
  function Or(a: nat, b: nat): nat {
    if a == 0 && b == 0 then 0 else 2 * Or(a / 2, b / 2) + (if a % 2 == 1 || b % 2 == 1 then 1 else 0)
  }

  function Pow2(k: nat): (p: nat)
    ensures p > 0
  {
    if k == 0 then 1 else 2 * Pow2(k - 1)
  }

  /** Bit k of a number. */
  predicate Bit(a: nat, k: nat)
    decreases k
  {
    if k == 0 then a % 2 == 1 else Bit(a / 2, k - 1)
  }

  lemma {:induction false} OrBit(a: nat, b: nat, k: nat)
    ensures Bit(Or(a, b), k) <==> Bit(a, k) || Bit(b, k)
    decreases k
  {
    assert Or(a, b) % 2 == 1 <==> a % 2 == 1 || b % 2 == 1;
    assert Or(a, b) / 2 == Or(a / 2, b / 2);
    if k > 0 { OrBit(a / 2, b / 2, k - 1); }
  }

  lemma {:induction false} OrZero(a: nat)
    ensures Or(a, 0) == a && Or(0, a) == a
  {
    if a > 0 { OrZero(a / 2); }
  }

  /** Low and high bits do not meet. */
  lemma {:induction false} OrSplit(a: nat, x: nat, b: nat, y: nat, k: nat)
    requires x < Pow2(k) && y < Pow2(k)
    ensures Or(a * Pow2(k) + x, b * Pow2(k) + y) == Or(a, b) * Pow2(k) + Or(x, y)
    decreases k
  {
    hide Or, Pow2;
    if k == 0 {
      assert Pow2(k) == 1 by { PowZero(); }
      OrNothing();
    } else {
      var p, u, v := Pow2(k - 1), a * Pow2(k) + x, b * Pow2(k) + y;
      PowStep(k);
      Halve(a, x, p);
      Halve(b, y, p);
      OrSplit(a, x / 2, b, y / 2, k - 1);
      OrStep(u, v);
      OrStep(x, y);
      Doubled(Or(a, b), p, Or(x / 2, y / 2));
    }
  }

  lemma PowZero()
    ensures Pow2(0) == 1
  {}

  lemma PowStep(k: nat)
    requires k > 0
    ensures Pow2(k) == 2 * Pow2(k - 1)
  {}

  lemma OrNothing()
    ensures Or(0, 0) == 0
  {}

  lemma OrStep(a: nat, b: nat)
    ensures Or(a, b) == 2 * Or(a / 2, b / 2) + (if a % 2 == 1 || b % 2 == 1 then 1 else 0)
  {}

  lemma Halve(a: nat, x: nat, p: nat)
    ensures (a * (2 * p) + x) / 2 == a * p + x / 2 && (a * (2 * p) + x) % 2 == x % 2
  {
    assert a * (2 * p) == 2 * (a * p);
  }

  lemma Doubled(c: nat, p: nat, r: nat)
    ensures 2 * (c * p + r) == c * (2 * p) + 2 * r
  {}

  /** A field below bit k joins a number whose bits are above it. */
  lemma OrBelow(a: nat, y: nat, k: nat)
    requires y < Pow2(k)
    ensures Or(a * Pow2(k), y) == a * Pow2(k) + y
  {
    hide Or, Pow2;
    OrSplit(a, 0, 0, y, k);
    OrZero(a);
    OrZero(y);
  }

  lemma Powers()
    ensures Pow2(5) == 32 && Pow2(10) == 1024 && Pow2(12) == 4096 && Pow2(15) == 32768 && Pow2(16) == TWO16
    ensures Pow2(21) == 0x20_0000 && Pow2(22) == 0x40_0000 && Pow2(23) == 0x80_0000 && Pow2(24) == 0x100_0000
    ensures Pow2(26) == TWO26
  {
    assert Pow2(5) == 32;
    assert Pow2(10) == 1024;
    assert Pow2(16) == TWO16;
    assert Pow2(21) == 0x20_0000;
  }

  /** The word an emitter forms: opcode and shifted fields joined by bitwise-or, in the emitters' order. */
  function Emitted(i: Insn): nat {
    match i
    case LdrX(t, n, m) => Or(Or(Or(0xF940_0000, m * 1024), n * 32), t)
    case StrX(t, n, m) => Or(Or(Or(0xF900_0000, m * 1024), n * 32), t)
    case LdrD(t, n, m) => Or(Or(Or(0xFD40_0000, m * 1024), n * 32), t)
    case StrD(t, n, m) => Or(Or(Or(0xFD00_0000, m * 1024), n * 32), t)
    case Stp(t, u, n, m) => Or(Or(Or(Or(0xA900_0000, m * 32768), u * 1024), n * 32), t)
    case Ldp(t, u, n, m) => Or(Or(Or(Or(0xA940_0000, m * 32768), u * 1024), n * 32), t)
    case AddImm(d, n, m) => Or(Or(Or(0x9100_0000, m * 1024), n * 32), d)
    case SubImm(d, n, m) => Or(Or(Or(0xD100_0000, m * 1024), n * 32), d)
    case SubsImmW(d, n, m) => Or(Or(Or(0x7100_0000, m * 1024), n * 32), d)
    case Movz(d, h, m) => Or(Or(Or(0xD280_0000, h * 0x20_0000), m * 32), d)
    case Movk(d, h, m) => Or(Or(Or(0xF280_0000, h * 0x20_0000), m * 32), d)
    case MovzW(d, m) => Or(Or(0x5280_0000, m * 32), d)
    case OrrReg(d, n, m) => Or(Or(Or(0xAA00_0000, m * TWO16), n * 32), d)
    case AndReg(d, n, m) => Or(Or(Or(0x8A00_0000, m * TWO16), n * 32), d)
    case AddReg(d, n, m) => Or(Or(Or(0x8B00_0000, m * TWO16), n * 32), d)
    case SubsReg(d, n, m) => Or(Or(Or(0xEB00_0000, m * TWO16), n * 32), d)
    case Fadd(d, n, m) => Or(Or(Or(0x1E60_2800, m * TWO16), n * 32), d)
    case Fsub(d, n, m) => Or(Or(Or(0x1E60_3800, m * TWO16), n * 32), d)
    case Fmul(d, n, m) => Or(Or(Or(0x1E60_0800, m * TWO16), n * 32), d)
    case Fdiv(d, n, m) => Or(Or(Or(0x1E60_1800, m * TWO16), n * 32), d)
    case Fneg(d, n) => Or(Or(0x1E61_4000, n * 32), d)
    case Fcmp(n, m) => Or(Or(0x1E60_2000, m * TWO16), n * 32)
    case FcmpZero(n) => Or(0x1E60_2008, n * 32)
    case Csinc(d, n, m, c) => Or(Or(Or(Or(0x1A80_0400, m * TWO16), c * 4096), n * 32), d)
    case Scvtf(d, n) => Or(Or(0x1E62_0000, n * 32), d)
    case B(m) => Or(0x1400_0000, m)
    case BCond(c, m) => Or(Or(0x5400_0000, m * 32), c)
    case Ret(n) => Or(0xD65F_0000, n * 32)
    case Blr(n) => Or(0xD63F_0000, n * 32)
    case Undefined => 0
  }

  /** Registers in bits 9..5 and 4..0 below anything that keeps those bits clear. */
  lemma OrRegs(w: nat, q: nat, n: nat, d: nat)
    requires w == q * 1024 && n < 32 && d < 32
    ensures Or(w, n * 32) == w + n * 32 && Or(w + n * 32, d) == w + n * 32 + d
  {
    Powers();
    hide Pow2, Or;
    OrBelow(q, n * 32, 10);
    OrBelow(q * 32 + n, d, 5);
    assert (q * 32 + n) * 32 == w + n * 32;
  }

  lemma OrImm12(op: nat, q: nat, m: nat)
    requires op == q * 0x40_0000 && m < 4096
    ensures Or(op, m * 1024) == op + m * 1024 == (q * 4096 + m) * 1024
  {
    Powers();
    hide Pow2, Or;
    OrBelow(q, m * 1024, 22);
  }

  lemma OrPair(op: nat, q: nat, m: nat, u: nat)
    requires op == q * 0x40_0000 && m < 128 && u < 32
    ensures Or(Or(op, m * 32768), u * 1024) == op + m * 32768 + u * 1024 == (q * 4096 + m * 32 + u) * 1024
  {
    Powers();
    hide Pow2, Or;
    OrBelow(q, m * 32768, 22);
    OrBelow(q * 128 + m, u * 1024, 15);
    assert (q * 128 + m) * 32768 == op + m * 32768;
  }

  lemma OrMove(op: nat, q: nat, h: nat, m: nat, d: nat)
    requires op == q * 0x80_0000 && h < 4 && m < TWO16 && d < 32
    ensures Or(Or(Or(op, h * 0x20_0000), m * 32), d) == op + h * 0x20_0000 + m * 32 + d
  {
    Powers();
    hide Pow2, Or;
    OrBelow(q, h * 0x20_0000, 23);
    OrBelow(q * 4 + h, m * 32, 21);
    assert (q * 4 + h) * 0x20_0000 == op + h * 0x20_0000;
    OrBelow((q * 4 + h) * TWO16 + m, d, 5);
    assert ((q * 4 + h) * TWO16 + m) * 32 == op + h * 0x20_0000 + m * 32;
  }

  /** The third register in bits 20..16, above fixed bits of the opcode. */
  lemma OrRm(op: nat, q: nat, low: nat, m: nat)
    requires op == q * 0x20_0000 + low * 1024 && low < 64 && m < 32
    ensures Or(op, m * TWO16) == op + m * TWO16 == (q * 2048 + m * 64 + low) * 1024
  {
    Powers();
    hide Pow2, Or;
    OrSplit(q * 32, low * 1024, m, 0, 16);
    OrBelow(q, m, 5);
    OrZero(low * 1024);
    assert q * 32 * TWO16 + low * 1024 == op;
  }

  /** The condition of csinc in bits 15..12, above the fixed bit 10. */
  lemma OrCond(w: nat, q: nat, c: nat)
    requires w == q * TWO16 + 1024 && c < 16
    ensures Or(w, c * 4096) == w + c * 4096 == (q * 64 + c * 4 + 1) * 1024
  {
    Powers();
    hide Pow2, Or;
    OrSplit(q * 16, 1024, c, 0, 12);
    Nibble(q, c);
    OrZero(1024);
  }

  lemma Nibble(q: nat, c: nat)
    requires c < 16
    ensures Or(q * 16, c) == q * 16 + c
  {
    assert Pow2(4) == 16;
    hide Or;
    OrBelow(q, c, 4);
  }

  /** fcmp with zero has fixed bits below its register. */
  lemma OrAbove(n: nat)
    requires n < 32
    ensures Or(0x1E60_2008, n * 32) == 0x1E60_2008 + n * 32
  {
    Powers();
    hide Pow2, Or;
    OrSplit(0x7_9808, 8, 0, n * 32, 10);
    OrZero(0x7_9808);
    OrSplit(0, 8, n, 0, 5);
    OrZero(n);
    OrZero(8);
  }

  lemma OrBranch(n: nat, c: nat)
    requires n < 0x8_0000 && c < 16
    ensures Or(Or(0x5400_0000, n * 32), c) == 0x5400_0000 + n * 32 + c
  {
    Powers();
    hide Pow2, Or;
    OrBelow(0x54, n * 32, 24);
    OrBelow(0x2A0_0000 + n, c, 5);
  }

  lemma OrJump(m: nat)
    requires m < TWO26
    ensures Or(0x1400_0000, m) == 0x1400_0000 + m
  {
    Powers();
    hide Pow2, Or;
    OrBelow(5, m, 26);
  }

  /** The formats with a 12-bit immediate, and the pairs that share their opcodes' shape. */
  lemma ImmWord(op: nat, q: nat, m: nat, n: nat, d: nat)
    requires op == q * 0x40_0000 && m < 4096 && n < 32 && d < 32
    ensures Or(Or(Or(op, m * 1024), n * 32), d) == op + m * 1024 + n * 32 + d
  {
    hide Or;
    OrImm12(op, q, m);
    OrRegs(op + m * 1024, q * 4096 + m, n, d);
  }

  lemma PairWord(op: nat, q: nat, m: nat, u: nat, n: nat, d: nat)
    requires op == q * 0x40_0000 && m < 128 && u < 32 && n < 32 && d < 32
    ensures Or(Or(Or(Or(op, m * 32768), u * 1024), n * 32), d) == op + m * 32768 + u * 1024 + n * 32 + d
  {
    hide Or;
    OrPair(op, q, m, u);
    OrRegs(op + m * 32768 + u * 1024, q * 4096 + m * 32 + u, n, d);
  }

  lemma RegWord(op: nat, q: nat, low: nat, m: nat, n: nat, d: nat)
    requires op == q * 0x20_0000 + low * 1024 && low < 64 && m < 32 && n < 32 && d < 32
    ensures Or(Or(op, m * TWO16), n * 32) == op + m * TWO16 + n * 32
    ensures Or(Or(Or(op, m * TWO16), n * 32), d) == op + m * TWO16 + n * 32 + d
  {
    hide Or;
    OrRm(op, q, low, m);
    OrRegs(op + m * TWO16, q * 2048 + m * 64 + low, n, d);
  }

  lemma CsincWord(m: nat, c: nat, n: nat, d: nat)
    requires m < 32 && c < 16 && n < 32 && d < 32
    ensures Or(Or(Or(Or(0x1A80_0400, m * TWO16), c * 4096), n * 32), d)
            == 0x1A80_0400 + m * TWO16 + c * 4096 + n * 32 + d
  {
    hide Or;
    OrRm(0x1A80_0400, 0x0D4, 1, m);
    OrCond(0x1A80_0400 + m * TWO16, 0x1A80 + m, c);
    OrRegs(0x1A80_0400 + m * TWO16 + c * 4096, 0x6A000 + m * 64 + c * 4 + 1, n, d);
  }

  lemma EmittedImm(i: Insn)
    requires Encodable(i) && IsImm(i)
    ensures Emitted(i) == Encode(i)
  {
    hide Or;
    match i {
      case LdrX(t, n, m) => ImmWord(0xF940_0000, 0x3E5, m, n, t);
      case StrX(t, n, m) => ImmWord(0xF900_0000, 0x3E4, m, n, t);
      case LdrD(t, n, m) => ImmWord(0xFD40_0000, 0x3F5, m, n, t);
      case StrD(t, n, m) => ImmWord(0xFD00_0000, 0x3F4, m, n, t);
      case Stp(t, u, n, m) => PairWord(0xA900_0000, 0x2A4, m, u, n, t);
      case Ldp(t, u, n, m) => PairWord(0xA940_0000, 0x2A5, m, u, n, t);
      case AddImm(d, n, m) => ImmWord(0x9100_0000, 0x244, m, n, d);
      case SubImm(d, n, m) => ImmWord(0xD100_0000, 0x344, m, n, d);
      case SubsImmW(d, n, m) => ImmWord(0x7100_0000, 0x1C4, m, n, d);
    }
  }

  lemma EmittedReg(i: Insn)
    requires Encodable(i) && IsReg(i)
    ensures Emitted(i) == Encode(i)
  {
    hide Or;
    match i {
      case OrrReg(d, n, m) => RegWord(0xAA00_0000, 0x550, 0, m, n, d);
      case AndReg(d, n, m) => RegWord(0x8A00_0000, 0x450, 0, m, n, d);
      case AddReg(d, n, m) => RegWord(0x8B00_0000, 0x458, 0, m, n, d);
      case SubsReg(d, n, m) => RegWord(0xEB00_0000, 0x758, 0, m, n, d);
    }
  }

  lemma EmittedFloat(i: Insn)
    requires Encodable(i) && IsFloat(i)
    ensures Emitted(i) == Encode(i)
  {
    hide Or;
    match i {
      case Fadd(d, n, m) => RegWord(0x1E60_2800, 0xF3, 10, m, n, d);
      case Fsub(d, n, m) => RegWord(0x1E60_3800, 0xF3, 14, m, n, d);
      case Fmul(d, n, m) => RegWord(0x1E60_0800, 0xF3, 2, m, n, d);
      case Fdiv(d, n, m) => RegWord(0x1E60_1800, 0xF3, 6, m, n, d);
      case Fneg(d, n) => OrRegs(0x1E61_4000, 0x7_9850, n, d);
      case Fcmp(n, m) => RegWord(0x1E60_2000, 0xF3, 8, m, n, 0);
      case FcmpZero(n) => OrAbove(n);
      case Scvtf(d, n) => OrRegs(0x1E62_0000, 0x7_9880, n, d);
    }
  }

  lemma EmittedOther(i: Insn)
    requires Encodable(i) && !IsImm(i) && !IsReg(i) && !IsFloat(i)
    ensures Emitted(i) == Encode(i)
  {
    hide Or;
    match i {
      case Movz(d, h, m) => OrMove(0xD280_0000, 0x1A5, h, m, d);
      case Movk(d, h, m) => OrMove(0xF280_0000, 0x1E5, h, m, d);
      case MovzW(d, m) =>
        OrMove(0x5280_0000, 0x0A5, 0, m, d);
        OrZero(0x5280_0000);
      case Csinc(d, n, m, c) => CsincWord(m, c, n, d);
      case B(m) => OrJump(m);
      case BCond(c, m) => OrBranch(m, c);
      case Ret(n) => OrRegs(0xD65F_0000, 0x35_97C0, n, 0);
      case Blr(n) => OrRegs(0xD63F_0000, 0x35_8FC0, n, 0);
    }
  }

  /** In every encoding the parts share no bit: what the emitters form is the sum that Encode takes. */
  lemma EmittedIsEncode(i: Insn)
    requires Encodable(i)
    ensures Emitted(i) == Encode(i)
  {
    hide Emitted, Encode, Encodable;
    if IsImm(i) {
      EmittedImm(i);
    } else if IsReg(i) {
      EmittedReg(i);
    } else if IsFloat(i) {
      EmittedFloat(i);
    } else {
      EmittedOther(i);
    }
  }

  /** Opcodes into which the emitters fold a fixed register: mov from xzr, cmp with 0, cset, ret. */
  lemma FoldedWords(d: nat, n: nat, m: nat, c: nat)
    requires d < 32 && n < 32 && m < 32 && c < 16
    ensures Or(Or(0xAA00_03E0, m * TWO16), d) == Encode(OrrReg(d, 31, m))
    ensures Or(0x7100_001F, n * 32) == Encode(SubsImmW(31, n, 0))
    ensures Or(Or(0x1A9F_07E0, c * 4096), d) == Encode(Csinc(d, 31, 31, c))
    ensures 0xD65F_03C0 == Encode(Ret(30))
  {
    hide Or;
    FoldedMov(d, m);
    FoldedCmp(n);
    FoldedCset(d, c);
  }

  lemma FoldedMov(d: nat, m: nat)
    requires d < 32 && m < 32
    ensures Or(Or(0xAA00_03E0, m * TWO16), d) == 0xAA00_03E0 + m * TWO16 + d
  {
    Powers();
    hide Pow2, Or;
    OrSplit(0xAA00, 0x3E0, m, 0, 16);
    OrBelow(0x550, m, 5);
    OrZero(0x3E0);
    OrBelow(0x550_001F + m * 2048, d, 5);
  }

  lemma FoldedCmp(n: nat)
    requires n < 32
    ensures Or(0x7100_001F, n * 32) == 0x7100_001F + n * 32
  {
    Powers();
    hide Pow2, Or;
    OrSplit(0x1C_4000, 0x1F, 0, n * 32, 10);
    OrZero(0x1C_4000);
    OrSplit(0, 0x1F, n, 0, 5);
    OrZero(n);
    OrZero(0x1F);
  }

  lemma FoldedCset(d: nat, c: nat)
    requires d < 32 && c < 16
    ensures Or(Or(0x1A9F_07E0, c * 4096), d) == 0x1A9F_07E0 + c * 4096 + d
  {
    Powers();
    hide Pow2, Or;
    OrSplit(0x1_A9F0, 0x7E0, c, 0, 12);
    Nibble(0x1A9F, c);
    OrZero(0x7E0);
    OrBelow(0xD4_F83F + c * 128, d, 5);
  }

  /** A word cut at bits 31..21, 20..16, 15..10, 9..5 and 4..0. */
  function Pack(hi: nat, rm: nat, op6: nat, rn: nat, rd: nat): nat {
    hi * 0x20_0000 + rm * TWO16 + op6 * 1024 + rn * 32 + rd
  }

  function Decode(w: nat): Insn {
    DecodeFields(w / 0x20_0000, w / TWO16 % 32, w / 1024 % 64, w / 32 % 32, w % 32)
  }

  function DecodeFields(hi: nat, rm: nat, op6: nat, rn: nat, rd: nat): Insn {
    var imm12 := hi % 2 * 2048 + rm * 64 + op6;
    var imm16 := rm * 2048 + op6 * 32 + rn;
    if IsImmOp(hi / 2) then DecodeImm(hi / 2, imm12, rn, rd)
    else if hi / 4 == 0x1A5 then Movz(rd, hi % 4, imm16)
    else if hi / 4 == 0x1E5 then Movk(rd, hi % 4, imm16)
    else if hi == 0x294 then MovzW(rd, imm16)
    else if (hi == 0x550 || hi == 0x450 || hi == 0x458 || hi == 0x758) && op6 == 0 then DecodeReg(hi, rm, rn, rd)
    else if hi == 0x0F3 then DecodeFloat(rd, rn, rm, op6)
    else if hi == 0x0D4 && op6 % 4 == 1 then Csinc(rd, rn, rm, op6 / 4)
    else if hi / 32 == 5 then B(Pack(hi % 32, rm, op6, rn, rd))
    else if hi / 8 == 0x54 && rd < 16 then BCond(rd, hi % 8 * TWO16 + imm16)
    else if hi == 0x6B2 && rm == 31 && op6 == 0 && rd == 0 then Ret(rn)
    else if hi == 0x6B1 && rm == 31 && op6 == 0 && rd == 0 then Blr(rn)
    else Undefined
  }

  predicate IsImmOp(op: nat) {
    || op == 0x3E5 || op == 0x3E4 || op == 0x3F5 || op == 0x3F4
    || op == 0x2A4 || op == 0x2A5 || op == 0x244 || op == 0x344 || op == 0x1C4
  }

  function DecodeImm(op: nat, imm12: nat, rn: nat, rd: nat): Insn {
    if op == 0x3E5 then LdrX(rd, rn, imm12)
    else if op == 0x3E4 then StrX(rd, rn, imm12)
    else if op == 0x3F5 then LdrD(rd, rn, imm12)
    else if op == 0x3F4 then StrD(rd, rn, imm12)
    else if op == 0x2A4 then Stp(rd, imm12 % 32, rn, imm12 / 32)
    else if op == 0x2A5 then Ldp(rd, imm12 % 32, rn, imm12 / 32)
    else if op == 0x244 then AddImm(rd, rn, imm12)
    else if op == 0x344 then SubImm(rd, rn, imm12)
    else SubsImmW(rd, rn, imm12)
  }

  function DecodeReg(hi: nat, rm: nat, rn: nat, rd: nat): Insn {
    if hi == 0x550 then OrrReg(rd, rn, rm)
    else if hi == 0x450 then AndReg(rd, rn, rm)
    else if hi == 0x458 then AddReg(rd, rn, rm)
    else SubsReg(rd, rn, rm)
  }

  function DecodeFloat(rd: nat, rn: nat, rm: nat, op6: nat): Insn {
    if op6 == 0x0A then Fadd(rd, rn, rm)
    else if op6 == 0x0E then Fsub(rd, rn, rm)
    else if op6 == 0x02 then Fmul(rd, rn, rm)
    else if op6 == 0x06 then Fdiv(rd, rn, rm)
    else if op6 == 0x10 && rm == 1 then Fneg(rd, rn)
    else if op6 == 0x08 && rd == 0 then Fcmp(rn, rm)
    else if op6 == 0x08 && rd == 8 && rm == 0 then FcmpZero(rn)
    else if op6 == 0 && rm == 2 then Scvtf(rd, rn)
    else Undefined
  }

  lemma Cut(hi: nat, rm: nat, op6: nat, rn: nat, rd: nat, w: nat)
    requires rm < 32 && op6 < 64 && rn < 32 && rd < 32
    requires w == hi * 0x20_0000 + rm * TWO16 + op6 * 1024 + rn * 32 + rd
    ensures w / 0x20_0000 == hi && w / TWO16 % 32 == rm && w / 1024 % 64 == op6
    ensures w / 32 % 32 == rn && w % 32 == rd
  {
    assert w / 32 == hi * TWO16 + rm * 2048 + op6 * 32 + rn;
    assert w / 1024 == hi * 2048 + rm * 64 + op6;
    assert w / TWO16 == hi * 32 + rm;
  }

  lemma DecodePack(hi: nat, rm: nat, op6: nat, rn: nat, rd: nat)
    requires hi < 2048 && rm < 32 && op6 < 64 && rn < 32 && rd < 32
    ensures Pack(hi, rm, op6, rn, rd) < TWO32
    ensures Decode(Pack(hi, rm, op6, rn, rd)) == DecodeFields(hi, rm, op6, rn, rd)
  {
    Cut(hi, rm, op6, rn, rd, Pack(hi, rm, op6, rn, rd));
  }

  /** The cut of an encoded word, for the formats with a 12-bit immediate. */
  lemma CutImm(i: Insn, op: nat, imm12: nat, rn: nat, rd: nat) returns (hi: nat, rm: nat, op6: nat)
    requires IsImmOp(op) && imm12 < 4096 && rn < 32 && rd < 32
    requires DecodeImm(op, imm12, rn, rd) == i && Encode(i) == op * 0x40_0000 + imm12 * 1024 + rn * 32 + rd
    ensures hi < 2048 && rm < 32 && op6 < 64
    ensures Encode(i) == Pack(hi, rm, op6, rn, rd) && DecodeFields(hi, rm, op6, rn, rd) == i
  {
    hi, rm, op6 := op * 2 + imm12 / 2048, imm12 / 64 % 32, imm12 % 64;
    assert imm12 == imm12 / 2048 * 2048 + rm * 64 + op6;
    assert hi / 2 == op && hi % 2 == imm12 / 2048;
  }

  lemma SplitImm16(m: nat)
    requires m < TWO16
    ensures m / 2048 < 32 && m == m / 2048 * 2048 + m / 32 % 64 * 32 + m % 32
  {
    assert m / 32 == m / 2048 * 64 + m / 32 % 64;
  }

  lemma CutMove(i: Insn) returns (hi: nat, rm: nat, op6: nat, rn: nat)
    requires Encodable(i) && (i.Movz? || i.Movk? || i.MovzW?)
    ensures hi < 2048 && rm < 32 && op6 < 64 && rn < 32
    ensures Encode(i) == Pack(hi, rm, op6, rn, i.rd) && DecodeFields(hi, rm, op6, rn, i.rd) == i
  {
    var m := i.imm16;
    hi := if i.Movz? then 0x694 + i.hw else if i.Movk? then 0x794 + i.hw else 0x294;
    rm, op6, rn := m / 2048, m / 32 % 64, m % 32;
    SplitImm16(m);
  }

  lemma CutB(i: Insn) returns (hi: nat, rm: nat, op6: nat, rn: nat, rd: nat)
    requires Encodable(i) && i.B?
    ensures hi < 2048 && rm < 32 && op6 < 64 && rn < 32 && rd < 32
    ensures Encode(i) == Pack(hi, rm, op6, rn, rd) && DecodeFields(hi, rm, op6, rn, rd) == i
  {
    var lo := i.imm26 % 0x20_0000;
    var m := lo / 32;
    hi, rm, op6, rn, rd := 160 + i.imm26 / 0x20_0000, m / 2048, m / 32 % 64, m % 32, lo % 32;
    SplitImm16(m);
    assert i.imm26 == Pack(hi - 160, rm, op6, rn, rd);
  }

  lemma CutBCond(i: Insn) returns (hi: nat, rm: nat, op6: nat, rn: nat)
    requires Encodable(i) && i.BCond?
    ensures hi < 2048 && rm < 32 && op6 < 64 && rn < 32
    ensures Encode(i) == Pack(hi, rm, op6, rn, i.cond) && DecodeFields(hi, rm, op6, rn, i.cond) == i
  {
    var m := i.imm19 % TWO16;
    hi, rm, op6, rn := 0x2A0 + i.imm19 / TWO16, m / 2048, m / 32 % 64, m % 32;
    SplitImm16(m);
  }

  predicate IsImm(i: Insn) {
    i.LdrX? || i.StrX? || i.LdrD? || i.StrD? || i.Stp? || i.Ldp? || i.AddImm? || i.SubImm? || i.SubsImmW?
  }

  lemma ImmParts(i: Insn) returns (op: nat, imm12: nat, rd: nat)
    requires Encodable(i) && IsImm(i)
    ensures IsImmOp(op) && imm12 < 4096 && rd < 32 && DecodeImm(op, imm12, i.rn, rd) == i
    ensures Encode(i) == op * 0x40_0000 + imm12 * 1024 + i.rn * 32 + rd
  {
    match i {
      case LdrX(t, n, m) => op, imm12, rd := 0x3E5, m, t;
      case StrX(t, n, m) => op, imm12, rd := 0x3E4, m, t;
      case LdrD(t, n, m) => op, imm12, rd := 0x3F5, m, t;
      case StrD(t, n, m) => op, imm12, rd := 0x3F4, m, t;
      case Stp(t, u, n, m) => op, imm12, rd := 0x2A4, m * 32 + u, t;
      case Ldp(t, u, n, m) => op, imm12, rd := 0x2A5, m * 32 + u, t;
      case AddImm(d, n, m) => op, imm12, rd := 0x244, m, d;
      case SubImm(d, n, m) => op, imm12, rd := 0x344, m, d;
      case SubsImmW(d, n, m) => op, imm12, rd := 0x1C4, m, d;
    }
  }

  predicate IsReg(i: Insn) {
    i.OrrReg? || i.AndReg? || i.AddReg? || i.SubsReg?
  }

  lemma CutReg(i: Insn) returns (hi: nat)
    requires Encodable(i) && IsReg(i)
    ensures hi < 2048
    ensures Encode(i) == Pack(hi, i.rm, 0, i.rn, i.rd) && DecodeFields(hi, i.rm, 0, i.rn, i.rd) == i
  {
    hi := if i.OrrReg? then 0x550 else if i.AndReg? then 0x450 else if i.AddReg? then 0x458 else 0x758;
  }

  predicate IsMisc(i: Insn) {
    i.Csinc? || i.Ret? || i.Blr?
  }

  lemma CutMisc(i: Insn) returns (hi: nat, rm: nat, op6: nat, rd: nat)
    requires Encodable(i) && IsMisc(i)
    ensures hi < 2048 && rm < 32 && op6 < 64 && rd < 32
    ensures Encode(i) == Pack(hi, rm, op6, i.rn, rd) && DecodeFields(hi, rm, op6, i.rn, rd) == i
  {
    match i {
      case Csinc(d, n, m, c) => hi, rm, op6, rd := 0x0D4, m, c * 4 + 1, d;
      case Ret(n) => hi, rm, op6, rd := 0x6B2, 31, 0, 0;
      case Blr(n) => hi, rm, op6, rd := 0x6B1, 31, 0, 0;
    }
  }

  predicate IsFloat(i: Insn) {
    i.Fadd? || i.Fsub? || i.Fmul? || i.Fdiv? || i.Fneg? || i.Fcmp? || i.FcmpZero? || i.Scvtf?
  }

  lemma CutFloat(i: Insn) returns (hi: nat, rm: nat, op6: nat, rn: nat, rd: nat)
    requires Encodable(i) && IsFloat(i)
    ensures hi < 2048 && rm < 32 && op6 < 64 && rn < 32 && rd < 32
    ensures Encode(i) == Pack(hi, rm, op6, rn, rd) && DecodeFields(hi, rm, op6, rn, rd) == i
  {
    hi := 0x0F3;
    match i {
      case Fadd(d, n, m) => rm, op6, rn, rd := m, 0x0A, n, d;
      case Fsub(d, n, m) => rm, op6, rn, rd := m, 0x0E, n, d;
      case Fmul(d, n, m) => rm, op6, rn, rd := m, 0x02, n, d;
      case Fdiv(d, n, m) => rm, op6, rn, rd := m, 0x06, n, d;
      case Fneg(d, n) => rm, op6, rn, rd := 1, 0x10, n, d;
      case Fcmp(n, m) => rm, op6, rn, rd := m, 0x08, n, 0;
      case FcmpZero(n) => rm, op6, rn, rd := 0, 0x08, n, 8;
      case Scvtf(d, n) => rm, op6, rn, rd := 2, 0, n, d;
    }
  }

  lemma Rejoin(i: Insn, hi: nat, rm: nat, op6: nat, rn: nat, rd: nat)
    requires hi < 2048 && rm < 32 && op6 < 64 && rn < 32 && rd < 32
    requires Encode(i) == Pack(hi, rm, op6, rn, rd) && DecodeFields(hi, rm, op6, rn, rd) == i
    ensures Encode(i) < TWO32 && Decode(Encode(i)) == i
  {
    DecodePack(hi, rm, op6, rn, rd);
  }

  /** Decoding undoes encoding for every instruction whose fields fit, so no two emitted
      instructions share a word and no field leaks into another. */
  lemma DecodeEncode(i: Insn)
    requires Encodable(i)
    ensures Encode(i) < TWO32 && Decode(Encode(i)) == i
  {
    hide Decode, DecodeFields, Encode;
    var hi, rm, op6, rn, rd: nat;
    if i.Movz? || i.Movk? || i.MovzW? {
      hi, rm, op6, rn := CutMove(i);
      rd := i.rd;
    } else if i.B? {
      hi, rm, op6, rn, rd := CutB(i);
    } else if i.BCond? {
      hi, rm, op6, rn := CutBCond(i);
      rd := i.cond;
    } else if IsReg(i) {
      rm, op6, rn, rd := i.rm, 0, i.rn, i.rd;
      hi := CutReg(i);
    } else if IsMisc(i) {
      rn := i.rn;
      hi, rm, op6, rd := CutMisc(i);
    } else if IsFloat(i) {
      hi, rm, op6, rn, rd := CutFloat(i);
    } else {
      var op, imm12;
      op, imm12, rd := ImmParts(i);
      rn := i.rn;
      hi, rm, op6 := CutImm(i, op, imm12, rn, rd);
    }
    Rejoin(i, hi, rm, op6, rn, rd);
  }
}
