/** Loop-trace IR and the one-iteration contract that the interpreter and the compiled code share:
    every result lives in vals[i], frame slots are read and written in place, a failed guard first
    replays a snapshot, and IR_LOOP closes the iteration. */
module TraceIr {
  import opened A64
  import opened A64Machine

  const NB_MASK: U64 := 0xFFF8_0000_0000_0000
  const NB_CANON_NAN: U64 := 0x7FF8_0000_0000_0000

  datatype Op =
    | Nop | Loop | KNum | KBool | SLoad | SStore
    | Add | Sub | Mul | Div | Mod | Neg
    | Eq | Neq | Lt | Le | Gt | Ge
    | GLoad | GStore | CallF1 | GuardNum | GuardTrue | GuardFalse
    | Unsupported

  datatype Ins = Ins(op: Op, isNum: bool, sunk: bool, op1: nat, op2: nat)

  /** A constant-table entry; a reference is a constant reference when the table has it. */
  datatype Const = Number(bits: U64) | Name(addr: U64) | OtherConst

  datatype Trace = Trace(ir: seq<Ins>, consts: map<nat, Const>)

  datatype VmState<W> = VmState(vals: seq<U64>, slots: seq<U64>, world: W, snap: nat)

  /** Crash stands for an access outside vals or frame_slots, where the original has no behaviour. */
  datatype Outcome<W> =
    | Running(st: VmState<W>)
    | LoopDone(st: VmState<W>)
    | GuardFailed(st: VmState<W>, replayed: nat)
    | Crash

  predicate IsArith(op: Op) { op.Add? || op.Sub? || op.Mul? || op.Div? }

  predicate IsCompare(op: Op) { op.Eq? || op.Neq? || op.Lt? || op.Le? || op.Gt? || op.Ge? }

  /** A value is a number unless all the tag bits are set. */
  predicate IsNumber(v: U64) {
    BitAnd(v, NB_MASK) != NB_MASK
  }

  /** Any NaN is boxed as the one canonical NaN. */
  function Box(v: U64): U64 {
    if IsNaN(v) then NB_CANON_NAN else v
  }

  function Arith<W>(env: Env<W>, op: Op, a: U64, b: U64): U64
    requires IsArith(op)
  {
    match op
    case Add => env.add(a, b)
    case Sub => env.sub(a, b)
    case Mul => env.mul(a, b)
    case Div => env.div(a, b)
  }

  /** Comparisons with a NaN are false, except inequality. */
  predicate Compare(op: Op, o: Order)
    requires IsCompare(op)
  {
    match op
    case Eq => o.Equal?
    case Neq => !o.Equal?
    case Lt => o.Less?
    case Le => o.Less? || o.Equal?
    case Gt => o.Greater?
    case Ge => o.Greater? || o.Equal?
  }

  function SetVal<W>(st: VmState<W>, i: nat, v: U64): Outcome<W> {
    if i < |st.vals| then Running(st.(vals := st.vals[i := v])) else Crash
  }

  /** Replays a snapshot and leaves the trace. */
  function Exit<W>(env: Env<W>, st: VmState<W>, snap: nat): Outcome<W> {
    var (world, slots) := env.replay(st.world, st.vals, st.slots, snap);
    GuardFailed(st.(world := world, slots := slots), snap)
  }

  /** One IR instruction. */
  function Eval<W>(env: Env<W>, tr: Trace, i: nat, st: VmState<W>): Outcome<W>
    requires i < |tr.ir|
  {
    var ins := tr.ir[i];
    var a, b := ins.op1, ins.op2;
    if IsArith(ins.op) then
      if a < |st.vals| && b < |st.vals| then SetVal(st, i, Arith(env, ins.op, st.vals[a], st.vals[b])) else Crash
    else if IsCompare(ins.op) then
      if a < |st.vals| && b < |st.vals|
      then SetVal(st, i, if Compare(ins.op, env.cmp(st.vals[a], st.vals[b])) then ONE_BITS else 0) else Crash
    else match ins.op
    case Nop => Running(st)
    case GuardNum => Running(st)
    case Loop => LoopDone(st)
    case KNum => if a in tr.consts && tr.consts[a].Number? then SetVal(st, i, tr.consts[a].bits) else Crash
    case KBool => SetVal(st, i, if a != 0 then ONE_BITS else 0)
    case SLoad =>
      if a >= |st.slots| then Crash
      else if !IsNumber(st.slots[a]) then Exit(env, st, st.snap)
      else SetVal(st, i, st.slots[a])
    case SStore =>
      if b < |st.vals| && a < |st.slots| then Running(st.(slots := st.slots[a := Box(st.vals[b])])) else Crash
    case Mod =>
      if a < |st.vals| && b < |st.vals| then SetVal(st, i, env.fmod(st.vals[a], st.vals[b])) else Crash
    case Neg => if a < |st.vals| then SetVal(st, i, Negate(st.vals[a])) else Crash
    case GLoad =>
      if a in tr.consts && tr.consts[a].Name? then
        var (status, value) := env.gload(st.world, tr.consts[a].addr);
        if status % TWO32 != 0 then Exit(env, st, st.snap) else SetVal(st, i, value)
      else Crash
    case GStore =>
      if a in tr.consts && tr.consts[a].Name? && b < |st.vals| then
        var (status, world) := env.gstore(st.world, tr.consts[a].addr, st.vals[b]);
        var st' := st.(world := world);
        if status % TWO32 != 0 then Exit(env, st', st'.snap) else Running(st')
      else Crash
    case CallF1 =>
      if a < |env.link.natives| && b < |st.vals| then
        var (world, r) := env.native(env.link.natives[a], st.world, st.vals[b]);
        SetVal(st.(world := world), i, r)
      else Crash
    case GuardTrue => EvalGuard(env, st, a, b, true)
    case GuardFalse => EvalGuard(env, st, a, b, false)
    case _ => Crash
  }

  /** The lane must compare unequal to 0.0 (`want`) or equal to it; the guard's snapshot becomes
      the current one when it passes. */
  function EvalGuard<W>(env: Env<W>, st: VmState<W>, a: nat, snap: nat, want: bool): Outcome<W> {
    if a >= |st.vals| then Crash
    else if env.cmp(st.vals[a], 0).Equal? == want then Exit(env, st, snap % TWO16)
    else Running(st.(snap := snap % TWO16))
  }

  /** One loop iteration from instruction i on; running off the end closes the iteration. */
  function Interpret<W>(env: Env<W>, tr: Trace, i: nat, st: VmState<W>): Outcome<W>
    decreases |tr.ir| - i
  {
    if i >= |tr.ir| then LoopDone(st)
    else match Eval(env, tr, i, st)
      case Running(st') => Interpret(env, tr, i + 1, st')
      case o => o
  }
}
