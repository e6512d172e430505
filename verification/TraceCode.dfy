/** What the backend emits, as lists of instructions: the block of each IR instruction, the layout
    of a whole trace function, and the forward branches resolved by backpatching. */
module TraceCode {
  import opened Basics
  import opened A64
  import opened A64Machine
  import opened TraceIr

  const R_VM: nat := 19
  const R_T: nat := 20
  const R_FS: nat := 21
  const R_VALS: nat := 22
  const R_SKIP: nat := 23
  const FP: nat := 29
  const LR: nat := 30
  const SP: nat := 31
  const ZR: nat := 31

  const CC_EQ: nat := 0
  const CC_NE: nat := 1
  const CC_MI: nat := 4
  const CC_VC: nat := 7
  const CC_LS: nat := 9
  const CC_GE: nat := 10
  const CC_GT: nat := 12

  const FRAME: nat := 64
  const MAX_GUARDS: nat := 1024
  const MAX_INDEX: nat := 4095

  // ----- instruction sequences -----

  function MovReg(d: nat, n: nat): Insn { OrrReg(d, ZR, n) }

  function MovkIf(d: nat, hw: nat, v: U64): seq<Insn>
    requires hw < 4
  {
    if Lane(v, hw) != 0 then [Movk(d, hw, Lane(v, hw))] else []
  }

  /** movz, then a movk for each further non-zero 16-bit lane. */
  function MovImm64(d: nat, v: U64): seq<Insn> {
    [Movz(d, 0, Lane(v, 0))] + MovkIf(d, 1, v) + MovkIf(d, 2, v) + MovkIf(d, 3, v)
  }

  const Prologue: seq<Insn> := [
    SubImm(SP, SP, FRAME),
    Stp(FP, LR, SP, 0), Stp(R_VM, R_T, SP, 2), Stp(R_FS, R_VALS, SP, 4), StrX(R_SKIP, SP, 6),
    AddImm(FP, SP, 0),
    MovReg(R_VM, 0), MovReg(R_T, 1), MovReg(R_SKIP, 2), MovReg(R_FS, 3), MovReg(R_VALS, 4)]

  const Epilogue: seq<Insn> := [
    Ldp(FP, LR, SP, 0), Ldp(R_VM, R_T, SP, 2), Ldp(R_FS, R_VALS, SP, 4), LdrX(R_SKIP, SP, 6),
    AddImm(SP, SP, FRAME), Ret(LR)]

  /** cset: csinc on the inverted condition. */
  function Cset(d: nat, cond: nat): Insn {
    Csinc(d, ZR, ZR, if cond % 2 == 0 then cond + 1 else cond - 1)
  }

  function CondOf(op: Op): nat
    requires IsCompare(op)
  {
    match op
    case Eq => CC_EQ
    case Neq => CC_NE
    case Lt => CC_MI
    case Le => CC_LS
    case Gt => CC_GT
    case Ge => CC_GE
  }

  function ArithInsn(op: Op): Insn
    requires IsArith(op)
  {
    match op
    case Add => Fadd(0, 0, 1)
    case Sub => Fsub(0, 0, 1)
    case Mul => Fmul(0, 0, 1)
    case Div => Fdiv(0, 0, 1)
  }

  /** vals and slot indices that the scaled 12-bit offset can reach. */
  predicate Near(k: nat) { k <= MAX_INDEX }

  function SLoadCode(slot: nat, i: nat): seq<Insn> {
    [LdrX(9, R_FS, slot)] + MovImm64(10, NB_MASK) +
    [AndReg(11, 9, 10), SubsReg(ZR, 11, 10), BCond(CC_EQ, 0), StrX(9, R_VALS, i)]
  }

  /** Both inner branches are patched as soon as their targets are known. */
  function SStoreCode(slot: nat, b: nat): seq<Insn> {
    [LdrD(0, R_VALS, b), Fcmp(0, 0), BCond(CC_VC, 5)] + MovImm64(9, NB_CANON_NAN) +
    [StrX(9, R_FS, slot), B(2), StrD(0, R_FS, slot)]
  }

  function GLoadCode(link: Linkage, name: U64, i: nat): seq<Insn>
    requires i < TWO32
  {
    [MovReg(0, R_VM)] + MovImm64(1, name) + MovImm64(9, i * 8) + [AddReg(2, R_VALS, 9)] +
    MovImm64(9, link.gload) + [Blr(9), SubsImmW(ZR, 0, 0), BCond(CC_NE, 0)]
  }

  function GStoreCode(link: Linkage, name: U64, b: nat): seq<Insn> {
    [MovReg(0, R_VM)] + MovImm64(1, name) + [LdrD(0, R_VALS, b)] +
    MovImm64(9, link.gstore) + [Blr(9), SubsImmW(ZR, 0, 0), BCond(CC_NE, 0)]
  }

  /** The block of one IR instruction with its guard or loop branch still unpatched; None where the
      backend gives the trace up. */
  function Block(link: Linkage, tr: Trace, i: nat): Option<seq<Insn>>
    requires i < |tr.ir|
  {
    var ins := tr.ir[i];
    var a, b := ins.op1, ins.op2;
    if IsArith(ins.op) then
      if Near(a) && Near(b) && Near(i)
      then Some([LdrD(0, R_VALS, a), LdrD(1, R_VALS, b), ArithInsn(ins.op), StrD(0, R_VALS, i)]) else None
    else if IsCompare(ins.op) then
      if Near(a) && Near(b) && Near(i)
      then Some([LdrD(0, R_VALS, a), LdrD(1, R_VALS, b), Fcmp(0, 1), Cset(9, CondOf(ins.op)), Scvtf(0, 9),
                 StrD(0, R_VALS, i)]) else None
    else match ins.op
    case Nop => Some([])
    case GuardNum => Some([])
    case Loop => Some([B(0)])
    case KNum =>
      if a in tr.consts && tr.consts[a].Number? && Near(i)
      then Some(MovImm64(9, tr.consts[a].bits) + [StrX(9, R_VALS, i)]) else None
    case KBool =>
      if Near(i) then Some(MovImm64(9, if a != 0 then ONE_BITS else 0) + [StrX(9, R_VALS, i)]) else None
    case SLoad => if ins.isNum && Near(a) && Near(i) then Some(SLoadCode(a, i)) else None
    case SStore => if !ins.sunk && Near(a) && Near(b) then Some(SStoreCode(a, b)) else None
    case Mod =>
      if Near(a) && Near(b) && Near(i)
      then Some([LdrD(0, R_VALS, a), LdrD(1, R_VALS, b)] + MovImm64(9, link.fmod) + [Blr(9), StrD(0, R_VALS, i)])
      else None
    case Neg => if Near(a) && Near(i) then Some([LdrD(0, R_VALS, a), Fneg(0, 0), StrD(0, R_VALS, i)]) else None
    case GLoad =>
      if ins.isNum && a in tr.consts && tr.consts[a].Name? && i < TWO32
      then Some(GLoadCode(link, tr.consts[a].addr, i)) else None
    case GStore =>
      if a in tr.consts && tr.consts[a].Name? && Near(b)
      then Some(GStoreCode(link, tr.consts[a].addr, b)) else None
    case CallF1 =>
      if a < |link.natives| && link.natives[a] != 0 && Near(b) && Near(i)
      then Some([LdrD(0, R_VALS, b)] + MovImm64(9, link.natives[a]) + [Blr(9), StrD(0, R_VALS, i)]) else None
    case GuardTrue => if Near(a) then Some([LdrD(0, R_VALS, a), FcmpZero(0), BCond(CC_EQ, 0)]) else None
    case GuardFalse => if Near(a) then Some([LdrD(0, R_VALS, a), FcmpZero(0), BCond(CC_NE, 0)]) else None
    case _ => None
  }

  /** Ops whose block holds a side-exit branch. */
  predicate HasGuard(op: Op) { op.SLoad? || op.GLoad? || op.GStore? || op.GuardTrue? || op.GuardFalse? }

  /** Where in the block: SLOAD still stores after its type check, the others end with the branch. */
  function GuardOffset(op: Op, block: seq<Insn>): int {
    if op.SLoad? then |block| - 2 else |block| - 1
  }

  // ----- a whole trace -----

  datatype Guard = Guard(pos: nat, snap: nat)

  /** Code so far, the recorded guard and loop branches, and the latest guard's snapshot. */
  datatype Draft = Draft(code: seq<Insn>, guards: seq<Guard>, loops: seq<nat>, snap: nat)

  function AddOp(link: Linkage, tr: Trace, i: nat, g: Draft): Option<Draft>
    requires i < |tr.ir|
  {
    var ins := tr.ir[i];
    match Block(link, tr, i)
    case None => None
    case Some(block) =>
      var boolGuard := ins.op.GuardTrue? || ins.op.GuardFalse?;
      var snap := if boolGuard then ins.op2 % TWO16 else g.snap;
      if HasGuard(ins.op) then
        if |g.guards| >= MAX_GUARDS || |block| < 2 then None
        else Some(Draft(g.code + block, g.guards + [Guard(|g.code| + GuardOffset(ins.op, block), snap)], g.loops, snap))
      else if ins.op.Loop? then
        if |g.loops| >= MAX_GUARDS then None
        else Some(Draft(g.code + block, g.guards, g.loops + [|g.code|], snap))
      else Some(Draft(g.code + block, g.guards, g.loops, snap))
  }

  /** The draft after instructions 1..n-1; instruction 0 is reserved and never compiled. */
  function Body(link: Linkage, tr: Trace, n: nat): Option<Draft>
    requires 1 <= n <= |tr.ir|
  {
    if n == 1 then Some(Draft(Prologue, [], [], 0))
    else match Body(link, tr, n - 1)
      case None => None
      case Some(g) => AddOp(link, tr, n - 1, g)
  }

  /** Positions of the parts behind the body. */
  function StubPos(g: Draft, k: nat): nat { |g.code| + 7 + 2 * k }

  function CommonPos(g: Draft): nat { StubPos(g, |g.guards|) }

  const LoopDoneCode: seq<Insn> := [MovzW(0, 0)] + Epilogue

  function Stubs(guards: seq<Guard>): seq<Insn> {
    if guards == [] then []
    else Stubs(guards[..|guards| - 1]) + [MovzW(9, guards[|guards| - 1].snap % TWO16), B(0)]
  }

  function CommonCode(link: Linkage): seq<Insn> {
    [MovReg(0, R_VM), MovReg(1, R_T), MovReg(2, R_VALS), MovReg(3, R_FS), MovReg(4, 9)] +
    MovImm64(9, link.replay) + [Blr(9), MovzW(0, 1)] + Epilogue
  }

  /** Everything in place, branches still zero. */
  function Unpatched(link: Linkage, g: Draft): seq<Insn> {
    g.code + LoopDoneCode + Stubs(g.guards) + CommonCode(link)
  }

  /** The displacement field a patch writes: the low bits of the two's-complement word count. */
  function Imm26(from: nat, to: nat): nat { (to - from) % TWO26 }

  function Imm19(from: nat, to: nat): nat { (to - from) % 0x8_0000 }

  function PatchB(code: seq<Insn>, pos: nat, target: nat): seq<Insn> {
    if pos < |code| then code[pos := B(Imm26(pos, target))] else code
  }

  /** Keeps the condition that is already in the low bits of the word. */
  function PatchBCond(code: seq<Insn>, pos: nat, target: nat): seq<Insn> {
    if pos < |code| && code[pos].BCond? then code[pos := BCond(code[pos].cond, Imm19(pos, target))] else code
  }

  function PatchLoops(code: seq<Insn>, loops: seq<nat>, target: nat): seq<Insn>
    decreases |loops|
  {
    if loops == [] then code
    else PatchB(PatchLoops(code, loops[..|loops| - 1], target), loops[|loops| - 1], target)
  }

  /** Patches guard k and its stub, for every k < n. */
  function PatchGuards(code: seq<Insn>, g: Draft, n: nat): seq<Insn>
    requires n <= |g.guards|
  {
    if n == 0 then code
    else PatchB(PatchBCond(PatchGuards(code, g, n - 1), g.guards[n - 1].pos, StubPos(g, n - 1)),
                StubPos(g, n - 1) + 1, CommonPos(g))
  }

  /** The finished trace function. */
  function Linked(link: Linkage, g: Draft): seq<Insn> {
    PatchGuards(PatchLoops(Unpatched(link, g), g.loops, |g.code|), g, |g.guards|)
  }
}
