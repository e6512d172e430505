/** The machine that runs the emitted code: general and floating-point registers, the flags, the
    stack, the two arrays the trace function is handed (vals and frame_slots) and an opaque
    `world` for everything the runtime helpers can see.

    Doubles are 64-bit patterns; their arithmetic is whatever `Env` says it is, so that every
    statement below holds for any IEEE implementation. */
module A64Machine {
  import opened Basics
  import opened A64

  const ONE_BITS: U64 := 0x3FF0_0000_0000_0000
  const TWO48: int := 0x1_0000_0000_0000
  const SIGN_BIT: int := 0x8000_0000_0000_0000

  datatype Region = VmR | TraceR | ValsR | SlotsR | StackR
  datatype Word = Bits(b: U64) | Ptr(region: Region, off: int)
  datatype Order = Less | Equal | Greater | Unordered
  datatype Flags = Flags(n: bool, z: bool, c: bool, v: bool)

  /** What a call target is, for the addresses the emitter embeds. */
  datatype Callee = CFmod | CGload | CGstore | CReplay | CNative | CUnknown

  /** The addresses the emitter embeds; a zero native address is an empty table slot. */
  datatype Linkage = Linkage(fmod: U64, gload: U64, gstore: U64, replay: U64, natives: seq<U64>)

  type Regs = x: seq<Word> | |x| == 31 witness seq(31, _ => Bits(0))
  type Floats = d: seq<U64> | |d| == 32 witness seq(32, _ => 0)

  datatype State<W> = State(
    pc: nat,
    x: Regs,
    d: Floats,
    sp: int,
    flags: Flags,
    stack: map<int, Word>,
    vals: seq<U64>,
    slots: seq<U64>,
    world: W,
    replayed: Option<nat>)

  datatype Env<!W> = Env(
    link: Linkage,
    callee: U64 -> Callee,
    add: (U64, U64) -> U64,
    sub: (U64, U64) -> U64,
    mul: (U64, U64) -> U64,
    div: (U64, U64) -> U64,
    fmod: (U64, U64) -> U64,
    cmp: (U64, U64) -> Order,
    ofInt: nat -> U64,                             // signed 32-bit integer to double
    gload: (W, U64) -> (nat, U64),                 // status, value written on status 0
    gstore: (W, U64, U64) -> (nat, W),             // status, world afterwards
    native: (U64, W, U64) -> (W, U64),             // the f64(f64) function at an address
    replay: (W, seq<U64>, seq<U64>, nat) -> (W, seq<U64>),
    callX: State<W> -> Regs,                       // registers as a callee leaves them
    callD: State<W> -> Floats,
    callFlags: State<W> -> Flags)

  // ----- doubles as bit patterns -----

  predicate IsNaN(v: U64) {
    v / 0x10_0000_0000_0000 % 2048 == 2047 && v % 0x10_0000_0000_0000 != 0
  }

  function Negate(v: U64): U64 {
    if v >= SIGN_BIT then v - SIGN_BIT else v + SIGN_BIT
  }

  /** Bitwise-and of natural numbers. */
  function And(a: nat, b: nat): (r: nat)
    ensures r <= a
  {
    if a == 0 || b == 0 then 0 else 2 * And(a / 2, b / 2) + (if a % 2 == 1 && b % 2 == 1 then 1 else 0)
  }

  function BitAnd(a: U64, b: U64): U64 { And(a, b) }

  lemma AndStep(a: nat, b: nat)
    ensures And(a, b) == 2 * And(a / 2, b / 2) + (if a % 2 == 1 && b % 2 == 1 then 1 else 0)
  {}

  lemma {:induction false} AndBit(a: nat, b: nat, k: nat)
    ensures Bit(And(a, b), k) <==> Bit(a, k) && Bit(b, k)
    decreases k
  {
    AndStep(a, b);
    if k > 0 { AndBit(a / 2, b / 2, k - 1); }
  }

  lemma AndZero(a: nat)
    ensures And(a, 0) == 0 && And(0, a) == 0
  {}

  /** Low and high bits do not meet. */
  lemma {:induction false} AndSplit(a: nat, x: nat, b: nat, y: nat, k: nat)
    requires x < Pow2(k) && y < Pow2(k)
    ensures And(a * Pow2(k) + x, b * Pow2(k) + y) == And(a, b) * Pow2(k) + And(x, y)
    decreases k
  {
    hide And, Pow2;
    if k == 0 {
      assert Pow2(k) == 1 by { PowZero(); }
      AndZero(0);
    } else {
      var p, u, v := Pow2(k - 1), a * Pow2(k) + x, b * Pow2(k) + y;
      PowStep(k);
      Halve(a, x, p);
      Halve(b, y, p);
      AndSplit(a, x / 2, b, y / 2, k - 1);
      AndStep(u, v);
      AndStep(x, y);
      Doubled(And(a, b), p, And(x / 2, y / 2));
    }
  }

  lemma {:induction false} AndOnes(w: nat, k: nat)
    requires w < Pow2(k)
    ensures And(w, Pow2(k) - 1) == w
  {
    if k > 0 {
      AndStep(w, Pow2(k) - 1);
      AndOnes(w / 2, k - 1);
    } else {
      AndZero(0);
    }
  }

  /** IEEE comparison and conversion, AAPCS64 section 6.1.1 (callee-saved x19..x29 and d8..d15), and
      every embedded address being the function it was taken from. */
  ghost predicate EnvOk<W(!new)>(env: Env<W>) {
    && (forall a: U64, b: U64 :: env.cmp(a, b) == Unordered <==> IsNaN(a) || IsNaN(b))
    && env.ofInt(0) == 0 && env.ofInt(1) == ONE_BITS
    && (forall s: State<W>, r: nat :: 19 <= r <= 29 ==> RegOf(env.callX(s), r) == RegOf(s.x, r))
    && (forall s: State<W>, r: nat :: 8 <= r <= 15 ==> FloatOf(env.callD(s), r) == FloatOf(s.d, r))
    && env.callee(env.link.fmod) == CFmod
    && env.callee(env.link.gload) == CGload
    && env.callee(env.link.gstore) == CGstore
    && env.callee(env.link.replay) == CReplay
    && (forall k :: 0 <= k < |env.link.natives| && env.link.natives[k] != 0 ==>
       env.callee(env.link.natives[k]) == CNative)
  }

  // ----- registers and memory -----

  function RegOf(x: Regs, r: nat): Word {
    if r < 31 then x[r] else Bits(0)
  }

  function FloatOf(d: Floats, r: nat): U64 {
    if r < 32 then d[r] else 0
  }

  /** Register 31 reads as zero and swallows writes in these instructions. */
  function X<W>(s: State<W>, r: nat): Word {
    RegOf(s.x, r)
  }

  function SetX<W>(s: State<W>, r: nat, v: Word): State<W> {
    if r < 31 then s.(x := s.x[r := v]) else s
  }

  /** Register 31 is the stack pointer in these. */
  function XorSp<W>(s: State<W>, r: nat): Word {
    if r == 31 then Ptr(StackR, s.sp) else RegOf(s.x, r)
  }

  function D<W>(s: State<W>, r: nat): U64 {
    FloatOf(s.d, r)
  }

  function SetD<W>(s: State<W>, r: nat, v: U64): State<W> {
    if r < 32 then s.(d := s.d[r := v]) else s
  }

  predicate InArray(off: int, len: nat) {
    off % 8 == 0 && 0 <= off / 8 < len
  }

  function Load<W>(s: State<W>, base: Word, off: int): Option<Word> {
    match base
    case Bits(_) => None
    case Ptr(region, o) =>
      match region
      case VmR => None
      case TraceR => None
      case ValsR => if InArray(o + off, |s.vals|) then Some(Bits(s.vals[(o + off) / 8])) else None
      case SlotsR => if InArray(o + off, |s.slots|) then Some(Bits(s.slots[(o + off) / 8])) else None
      case StackR => if o + off in s.stack then Some(s.stack[o + off]) else None
  }

  function Store<W>(s: State<W>, base: Word, off: int, v: Word): Option<State<W>> {
    match base
    case Bits(_) => None
    case Ptr(region, o) =>
      match region
      case VmR => None
      case TraceR => None
      case ValsR =>
        if InArray(o + off, |s.vals|) && v.Bits? then Some(s.(vals := s.vals[(o + off) / 8 := v.b])) else None
      case SlotsR =>
        if InArray(o + off, |s.slots|) && v.Bits? then Some(s.(slots := s.slots[(o + off) / 8 := v.b])) else None
      case StackR => Some(s.(stack := s.stack[o + off := v]))
  }

  // ----- one instruction -----

  datatype Result<W> = Go(s: State<W>) | Returned(s: State<W>, target: Word) | Fault

  function Next<W>(s: State<W>): Result<W> {
    Go(s.(pc := s.pc + 1))
  }

  function Signed(v: nat, width: nat): int {
    if v >= width / 2 then v - width else v
  }

  /** Flags of a - b on `width`-bounded operands. */
  function SubFlags(a: nat, b: nat, width: nat): Flags
    requires width > 0
  {
    var diff := Signed(a, width) - Signed(b, width);
    Flags((a - b) % width >= width / 2, a == b, a >= b, diff < -(width / 2) || diff >= width / 2)
  }

  function FloatFlags(o: Order): Flags {
    match o
    case Less => Flags(true, false, false, false)
    case Equal => Flags(false, true, true, false)
    case Greater => Flags(false, false, true, false)
    case Unordered => Flags(false, false, true, true)
  }

  predicate Holds(cond: nat, f: Flags) {
    if cond == 0 then f.z
    else if cond == 1 then !f.z
    else if cond == 2 then f.c
    else if cond == 3 then !f.c
    else if cond == 4 then f.n
    else if cond == 5 then !f.n
    else if cond == 6 then f.v
    else if cond == 7 then !f.v
    else if cond == 8 then f.c && !f.z
    else if cond == 9 then !(f.c && !f.z)
    else if cond == 10 then f.n == f.v
    else if cond == 11 then f.n != f.v
    else if cond == 12 then !f.z && f.n == f.v
    else if cond == 13 then !(!f.z && f.n == f.v)
    else true
  }

  function Plus(a: Word, b: Word): Option<Word> {
    match (a, b)
    case (Bits(m), Bits(n)) => Some(Bits((m + n) % TWO64))
    case (Ptr(r, o), Bits(n)) => Some(Ptr(r, o + n))
    case (Bits(m), Ptr(r, o)) => Some(Ptr(r, o + m))
    case (Ptr(_, _), Ptr(_, _)) => None
  }

  type U16 = n: int | 0 <= n < TWO16

  function Join(a: U16, b: U16, c: U16, d: U16): U64 {
    a + b * TWO16 + c * TWO32 + d * TWO48
  }

  function Lane(v: U64, hw: nat): U16
    requires hw < 4
  {
    if hw == 0 then v % TWO16
    else if hw == 1 then v / TWO16 % TWO16
    else if hw == 2 then v / TWO16 / TWO16 % TWO16
    else v / TWO16 / TWO16 / TWO16 % TWO16
  }

  lemma LaneJoin(a: U16, b: U16, c: U16, d: U16)
    ensures var v := Join(a, b, c, d);
            Lane(v, 0) == a && Lane(v, 1) == b && Lane(v, 2) == c && Lane(v, 3) == d
  {
    var v := Join(a, b, c, d);
    var v1, v2 := b + c * TWO16 + d * TWO32, c + d * TWO16;
    LowLane(v, v1, a);
    LowLane(v1, v2, b);
    LowLane(v2, d, c);
  }

  lemma LowLane(v: nat, rest: nat, low: U16)
    requires v == rest * TWO16 + low
    ensures v / TWO16 == rest && v % TWO16 == low
  {}

  lemma JoinLanes(v: U64)
    ensures Join(Lane(v, 0), Lane(v, 1), Lane(v, 2), Lane(v, 3)) == v
  {
    var v1 := v / TWO16;
    var v2 := v1 / TWO16;
    assert v == v1 * TWO16 + Lane(v, 0) && v1 == v2 * TWO16 + Lane(v, 1);
    assert v2 == v2 / TWO16 * TWO16 + Lane(v, 2);
  }

  /** movk: replaces one 16-bit lane and keeps the other three. */
  function Insert16(v: U64, hw: nat, imm: U16): U64
    requires hw < 4
  {
    Join(if hw == 0 then imm else Lane(v, 0), if hw == 1 then imm else Lane(v, 1),
         if hw == 2 then imm else Lane(v, 2), if hw == 3 then imm else Lane(v, 3))
  }

  function Branch<W>(s: State<W>, imm: nat, width: nat): Result<W> {
    var target: int := s.pc + Signed(imm, width);
    if target < 0 then Fault else Go(s.(pc := target))
  }

  function Exec<W>(env: Env<W>, i: Insn, s: State<W>): Result<W> {
    match i
    case LdrX(t, n, m) =>
      (match Load(s, XorSp(s, n), m * 8)
       case None => Fault
       case Some(v) => Next(SetX(s, t, v)))
    case StrX(t, n, m) =>
      (match Store(s, XorSp(s, n), m * 8, X(s, t))
       case None => Fault
       case Some(s') => Next(s'))
    case LdrD(t, n, m) =>
      (match Load(s, XorSp(s, n), m * 8)
       case None => Fault
       case Some(v) => if v.Bits? then Next(SetD(s, t, v.b)) else Fault)
    case StrD(t, n, m) =>
      (match Store(s, XorSp(s, n), m * 8, Bits(D(s, t)))
       case None => Fault
       case Some(s') => Next(s'))
    case Stp(t, u, n, m) =>
      (match Store(s, XorSp(s, n), Signed(m, 128) * 8, X(s, t))
       case None => Fault
       case Some(s') =>
         match Store(s', XorSp(s, n), Signed(m, 128) * 8 + 8, X(s, u))
         case None => Fault
         case Some(s'') => Next(s''))
    case Ldp(t, u, n, m) =>
      (match (Load(s, XorSp(s, n), Signed(m, 128) * 8), Load(s, XorSp(s, n), Signed(m, 128) * 8 + 8))
       case (Some(v), Some(w)) => Next(SetX(SetX(s, t, v), u, w))
       case (_, _) => Fault)
    case AddImm(d, n, m) => ExecAddImm(s, d, XorSp(s, n), m)
    case SubImm(d, n, m) => ExecAddImm(s, d, XorSp(s, n), 0 - m)
    case SubsImmW(d, n, m) =>
      if X(s, n).Bits? then
        var w := X(s, n).b % TWO32;
        Next(SetX(s.(flags := SubFlags(w, m, TWO32)), d, Bits((w - m) % TWO32)))
      else Fault
    case Movz(d, h, m) =>
      if h < 4 && m < TWO16 then Next(SetX(s, d, Bits(Insert16(0, h, m)))) else Fault
    case Movk(d, h, m) =>
      if X(s, d).Bits? && h < 4 && m < TWO16 then Next(SetX(s, d, Bits(Insert16(X(s, d).b, h, m)))) else Fault
    case MovzW(d, m) => if m < TWO16 then Next(SetX(s, d, Bits(m))) else Fault
    case OrrReg(d, n, m) => if n == 31 then Next(SetX(s, d, X(s, m))) else Fault
    case AndReg(d, n, m) =>
      if X(s, n).Bits? && X(s, m).Bits? then Next(SetX(s, d, Bits(BitAnd(X(s, n).b, X(s, m).b)))) else Fault
    case AddReg(d, n, m) =>
      (match Plus(X(s, n), X(s, m))
       case None => Fault
       case Some(v) => Next(SetX(s, d, v)))
    case SubsReg(d, n, m) =>
      if X(s, n).Bits? && X(s, m).Bits? then
        var (a, b) := (X(s, n).b, X(s, m).b);
        Next(SetX(s.(flags := SubFlags(a, b, TWO64)), d, Bits((a - b) % TWO64)))
      else Fault
    case Fadd(d, n, m) => Next(SetD(s, d, env.add(D(s, n), D(s, m))))
    case Fsub(d, n, m) => Next(SetD(s, d, env.sub(D(s, n), D(s, m))))
    case Fmul(d, n, m) => Next(SetD(s, d, env.mul(D(s, n), D(s, m))))
    case Fdiv(d, n, m) => Next(SetD(s, d, env.div(D(s, n), D(s, m))))
    case Fneg(d, n) => Next(SetD(s, d, Negate(D(s, n))))
    case Fcmp(n, m) => Next(s.(flags := FloatFlags(env.cmp(D(s, n), D(s, m)))))
    case FcmpZero(n) => Next(s.(flags := FloatFlags(env.cmp(D(s, n), 0))))
    case Csinc(d, n, m, c) =>
      if X(s, n).Bits? && X(s, m).Bits? then
        Next(SetX(s, d, Bits(if Holds(c, s.flags) then X(s, n).b % TWO32 else (X(s, m).b + 1) % TWO32)))
      else Fault
    case Scvtf(d, n) => if X(s, n).Bits? then Next(SetD(s, d, env.ofInt(X(s, n).b % TWO32))) else Fault
    case B(m) => Branch(s, m, TWO26)
    case BCond(c, m) => if Holds(c, s.flags) then Branch(s, m, 0x8_0000) else Next(s)
    case Ret(n) => Returned(s, X(s, n))
    case Blr(n) => if X(s, n).Bits? && s.sp % 16 == 0 then Call(env, X(s, n).b, s) else Fault
    case Undefined => Fault
  }

  function ExecAddImm<W>(s: State<W>, d: nat, base: Word, m: int): Result<W> {
    match base
    case Bits(b) => if d == 31 then Fault else Next(SetX(s, d, Bits((b + m) % TWO64)))
    case Ptr(r, o) =>
      if d != 31 then Next(SetX(s, d, Ptr(r, o + m)))
      else if r == StackR then Next(s.(sp := o + m))
      else Fault
  }

  // ----- calls -----

  function Clobbered<W>(env: Env<W>, s: State<W>): State<W> {
    s.(pc := s.pc + 1, x := env.callX(s), d := env.callD(s), flags := env.callFlags(s))
  }

  /** A 32-bit status in w0; the upper half of x0 is whatever the callee left there. */
  function StatusWord<W>(env: Env<W>, s: State<W>, status: nat): Word {
    var junk := match RegOf(env.callX(s), 0) case Bits(b) => b / TWO32 case Ptr(_, _) => 0;
    Bits(junk * TWO32 + status % TWO32)
  }

  /** What each callee requires of its argument registers and does to the state. */
  function Call<W>(env: Env<W>, addr: U64, s: State<W>): Result<W> {
    var t := Clobbered(env, s);
    match env.callee(addr)
    case CFmod => Go(SetD(t, 0, env.fmod(D(s, 0), D(s, 1))))
    case CNative =>
      var (world, r) := env.native(addr, s.world, D(s, 0));
      Go(SetD(t.(world := world), 0, r))
    case CGload =>
      if X(s, 0) == Ptr(VmR, 0) && X(s, 1).Bits? then
        var (status, value) := env.gload(s.world, X(s, 1).b);
        var done := SetX(t, 0, StatusWord(env, s, status));
        if status % TWO32 != 0 then Go(done)
        else match Store(done, X(s, 2), 0, Bits(value)) case None => Fault case Some(s') => Go(s')
      else Fault
    case CGstore =>
      if X(s, 0) == Ptr(VmR, 0) && X(s, 1).Bits? then
        var (status, world) := env.gstore(s.world, X(s, 1).b, D(s, 0));
        Go(SetX(t.(world := world), 0, StatusWord(env, s, status)))
      else Fault
    case CReplay =>
      if && X(s, 0) == Ptr(VmR, 0) && X(s, 1) == Ptr(TraceR, 0)
         && X(s, 2) == Ptr(ValsR, 0) && X(s, 3) == Ptr(SlotsR, 0) && X(s, 4).Bits?
      then
        var snap := X(s, 4).b % TWO32;
        var (world, slots) := env.replay(s.world, s.vals, s.slots, snap);
        Go(t.(world := world, slots := slots, replayed := Some(snap)))
      else Fault
    case CUnknown => Fault
  }

  // ----- running a program -----

  function Step<W>(env: Env<W>, code: seq<Insn>, s: State<W>): Result<W> {
    if s.pc < |code| then Exec(env, code[s.pc], s) else Fault
  }

  /** The result of at most n steps; a returned or faulted machine stays as it is. */
  function Iterate<W>(step: State<W> -> Result<W>, s: State<W>, n: nat): Result<W>
    decreases n
  {
    if n == 0 then Go(s)
    else match step(s)
      case Go(s') => Iterate(step, s', n - 1)
      case Returned(s', target) => Returned(s', target)
      case Fault => Fault
  }

  function Stepper<W>(env: Env<W>, code: seq<Insn>): State<W> -> Result<W> {
    (s: State<W>) => Step(env, code, s)
  }

  function Run<W>(env: Env<W>, code: seq<Insn>, s: State<W>, n: nat): Result<W> {
    Iterate(Stepper(env, code), s, n)
  }

  lemma {:induction false} IterateAdd<W>(step: State<W> -> Result<W>, s: State<W>, m: nat, n: nat)
    ensures match Iterate(step, s, m)
            case Go(s') => Iterate(step, s, m + n) == Iterate(step, s', n)
            case Returned(_, _) => Iterate(step, s, m + n) == Iterate(step, s, m)
            case Fault => Iterate(step, s, m + n) == Iterate(step, s, m)
    decreases m
  {
    if m > 0 {
      match step(s)
      case Go(s') => IterateAdd(step, s', m - 1, n);
      case _ =>
    }
  }
}
