/** Compiler correctness: the finished trace function does what one interpreted iteration does. */
module TraceCorrect {
  import opened Basics
  import opened A64
  import opened A64Machine
  import opened TraceIr
  import opened TraceCode
  import opened TraceRun
  import opened TraceFrame
  import opened TraceBlocks
  import opened TraceCalls
  import opened TraceLink

  /** Instruction i sits between drafts g and h of the finished draft f, all branches in range. */
  ghost predicate Within(link: Linkage, tr: Trace, i: nat, g: Draft, h: Draft, f: Draft) {
    && i < |tr.ir| && AddOp(link, tr, i, g) == Some(h)
    && DraftOk(g) && DraftOk(h) && DraftOk(f) && Extends(g, h) && Extends(h, f) && InRange(f)
  }

  /** Where a block that records no branch ends up. */
  lemma BlockPlaced(link: Linkage, tr: Trace, i: nat, g: Draft, h: Draft, f: Draft)
    requires Within(link, tr, i, g, h, f) && h.guards == g.guards && h.loops == g.loops
    ensures h.code == g.code + Block(link, tr, i).value
    ensures Placed(Linked(link, f), |g.code|, Block(link, tr, i).value)
  {
    hide Block, Linked, InRange;
    var block := Block(link, tr, i).value;
    UnpatchedLen(link, f);
    LinkedLen(link, f);
    forall k | 0 <= k < |block| ensures |g.code| + k < |Linked(link, f)| && Linked(link, f)[|g.code| + k] == block[k] {
      LinkedPlain(link, g, h, f, |g.code| + k);
      assert h.code[|g.code| + k] == block[k];
    }
  }

  /** A place in the code between g and h that is not a branch recorded between them is untouched. */
  lemma LinkedPlain(link: Linkage, g: Draft, h: Draft, f: Draft, p: nat)
    requires DraftOk(g) && DraftOk(f) && Extends(g, h) && Extends(h, f) && |g.code| <= p < |h.code|
    requires forall k :: |g.guards| <= k < |h.guards| ==> h.guards[k].pos != p
    requires forall k :: |g.loops| <= k < |h.loops| ==> h.loops[k] != p
    ensures p < |Linked(link, f)| && Linked(link, f)[p] == h.code[p]
  {
    hide Linked;
    forall k | 0 <= k < |f.guards| ensures p != f.guards[k].pos && p != StubPos(f, k) + 1 {
      if k < |g.guards| {
        assert GuardSlot(g, k);
        assert f.guards[k] == h.guards[k] == g.guards[k];
      } else if k < |h.guards| {
        assert f.guards[k] == h.guards[k];
      }
    }
    forall k | 0 <= k < |f.loops| ensures p != f.loops[k] {
      if k < |g.loops| {
        assert f.loops[k] == h.loops[k] == g.loops[k];
      } else if k < |h.loops| {
        assert f.loops[k] == h.loops[k];
      }
    }
    UnpatchedLen(link, f);
    UnpatchedAt(link, f);
    assert Unpatched(link, f)[0 + p] == f.code[p];
    hide Unpatched, Placed;
    LinkedAt(link, f, p);
  }

  /** Where a guarded block ends up, with its branch on the way to its own stub. */
  lemma GuardPlaced(link: Linkage, tr: Trace, i: nat, g: Draft, h: Draft, f: Draft) returns (hop: nat, out: nat)
    requires Within(link, tr, i, g, h, f) && HasGuard(tr.ir[i].op)
    ensures var op, block := tr.ir[i].op, Block(link, tr, i).value;
            var cond := if op.SLoad? || op.GuardTrue? then CC_EQ else CC_NE;
            && |block| >= 3 && h.code == g.code + block && |h.code| <= |Linked(link, f)|
            && PlacedButOne(Linked(link, f), |g.code|, block, GuardOffset(op, block))
            && GuardLinked(link, Linked(link, f), |g.code| + GuardOffset(op, block), cond, h.snap, hop, out)
  {
    hide Block, Linked, PlacedButOne, CommonCode, Extends, Unpatched, GuardOffset;
    var op, block := tr.ir[i].op, Block(link, tr, i).value;
    var off, k := GuardOffset(op, block), |g.guards|;
    var p := |g.code| + off;
    GuardRecorded(link, tr, i, g, h, f);
    LinkedGuard(link, f, k);
    LinkedTail(link, f);
    hop, out := StubPos(f, k) - p, CommonPos(f) - (StubPos(f, k) + 1);
    assert GuardLinked(link, Linked(link, f), p, f.code[p].cond, h.snap, hop, out);
    BlockAround(link, tr, i, g, h, f);
  }

  /** The finished draft has the guard of instruction i where its block says. */
  lemma GuardRecorded(link: Linkage, tr: Trace, i: nat, g: Draft, h: Draft, f: Draft)
    requires Within(link, tr, i, g, h, f) && HasGuard(tr.ir[i].op)
    ensures var op, block := tr.ir[i].op, Block(link, tr, i).value;
            var off, k := GuardOffset(op, block), |g.guards|;
            var cond := if op.SLoad? || op.GuardTrue? then CC_EQ else CC_NE;
            && |block| >= 3 && off < |block| && h.code == g.code + block && block[off] == BCond(cond, 0)
            && k < |f.guards| && f.guards[k] == Guard(|g.code| + off, h.snap) && |g.code| + off < |f.code|
            && f.code[|g.code| + off] == block[off] && GuardSlot(f, k) && DraftOk(f) && InRange(f)
            && |h.code| <= |f.code|
  {
    hide Block, InRange, Unpatched, Linked;
    var op, block := tr.ir[i].op, Block(link, tr, i).value;
    BlockGuard(link, tr, i);
    var off, k := GuardOffset(op, block), |g.guards|;
    var p := |g.code| + off;
    assert f.guards[k] == h.guards[k] == Guard(p, h.snap);
    assert f.code[p] == h.code[p] == block[off];
    assert GuardSlot(f, k);
  }

  lemma BlockAround(link: Linkage, tr: Trace, i: nat, g: Draft, h: Draft, f: Draft)
    requires Within(link, tr, i, g, h, f) && HasGuard(tr.ir[i].op) && |Block(link, tr, i).value| >= 3
    ensures var op, block := tr.ir[i].op, Block(link, tr, i).value;
            PlacedButOne(Linked(link, f), |g.code|, block, GuardOffset(op, block))
  {
    hide Block, Linked, InRange, DraftOk;
    var op, block := tr.ir[i].op, Block(link, tr, i).value;
    assert |h.guards| == |g.guards| + 1 && h.guards[|g.guards|].pos == |g.code| + GuardOffset(op, block)
      && h.loops == g.loops;
    forall k | 0 <= k < |block| && k != GuardOffset(op, block)
      ensures |g.code| + k < |Linked(link, f)| && Linked(link, f)[|g.code| + k] == block[k]
    {
      LinkedPlain(link, g, h, f, |g.code| + k);
      assert h.code[|g.code| + k] == block[k];
    }
    UnpatchedLen(link, f);
    LinkedLen(link, f);
  }

  lemma LoopPlaced(link: Linkage, tr: Trace, i: nat, g: Draft, h: Draft, f: Draft) returns (hop: nat)
    requires Within(link, tr, i, g, h, f) && tr.ir[i].op.Loop?
    ensures h.code == g.code + [B(0)] && 1 <= hop < TWO26 / 2
    ensures |g.code| < |Linked(link, f)| && Linked(link, f)[|g.code|] == B(hop)
    ensures Placed(Linked(link, f), |g.code| + hop, LoopDoneCode)
  {
    hide Block, Linked;
    BlockLoop(link, tr, i);
    var k := |g.loops|;
    assert f.loops[k] == h.loops[k] == |g.code|;
    LinkedLoop(link, f, k);
    LinkedTail(link, f);
    hop := |f.code| - |g.code|;
  }

  // ----- one IR instruction -----

  /** What running the block of instruction i must do: at most as many steps as there are
      instructions left, and none is executed twice when the trace goes on. */
  ghost predicate StepOk<W>(env: Env<W>, code: seq<Insn>, s0: State<W>, s: State<W>, o: Outcome<W>, next: nat, m: nat) {
    && s.pc + m <= |code| && next <= |code|
    && Matches(env, code, s0, s, o, next, m)
    && (o.Running? ==> s.pc + m <= next)
  }

  /** Common context of the per-instruction lemmas. */
  ghost predicate Ready<W(!new)>(env: Env<W>, tr: Trace, i: nat, g: Draft, h: Draft, f: Draft, s0: State<W>,
          s: State<W>, st: VmState<W>) {
    && EnvOk(env) && Within(env.link, tr, i, g, h, f)
    && s0.replayed == None && s.pc == |g.code| && Sim(s0, s, st) && st.snap == g.snap
  }

  lemma StepNothing<W(!new)>(env: Env<W>, tr: Trace, i: nat, g: Draft, h: Draft, f: Draft, s0: State<W>, s: State<W>,
          st: VmState<W>)
    returns (m: nat)
    requires Ready(env, tr, i, g, h, f, s0, s, st) && (tr.ir[i].op.Nop? || tr.ir[i].op.GuardNum?)
    ensures StepOk(env, Linked(env.link, f), s0, s, Eval(env, tr, i, st), |h.code|, m)
  {
    hide Linked, EnvOk, Held;
    BlockPlaced(env.link, tr, i, g, h, f);
    m := 0;
    Start(env, Linked(env.link, f), s);
    MatchRunning(env, Linked(env.link, f), s0, s, s, st, 0);
    hide Run;
  }

  lemma StepConst<W(!new)>(env: Env<W>, tr: Trace, i: nat, g: Draft, h: Draft, f: Draft, s0: State<W>, s: State<W>,
          st: VmState<W>)
    returns (m: nat)
    requires Ready(env, tr, i, g, h, f, s0, s, st) && (tr.ir[i].op.KNum? || tr.ir[i].op.KBool?)
    ensures StepOk(env, Linked(env.link, f), s0, s, Eval(env, tr, i, st), |h.code|, m)
  {
    hide Linked, EnvOk, Held, MovImm64, Matches, Run, InRange, DraftOk;
    BlockPlaced(env.link, tr, i, g, h, f);
    var ins := tr.ir[i];
    var v := if ins.op.KNum? then tr.consts[ins.op1].bits else if ins.op1 != 0 then ONE_BITS else 0;
    assert Block(env.link, tr, i) == Some(MovImm64(9, v) + [StrX(9, R_VALS, i)]);
    KBlock(env, Linked(env.link, f), s0, s, st, i, v);
    m := |MovImm64(9, v)| + 1;
  }

  lemma StepArith<W(!new)>(env: Env<W>, tr: Trace, i: nat, g: Draft, h: Draft, f: Draft, s0: State<W>, s: State<W>,
          st: VmState<W>)
    returns (m: nat)
    requires Ready(env, tr, i, g, h, f, s0, s, st) && IsArith(tr.ir[i].op)
    ensures StepOk(env, Linked(env.link, f), s0, s, Eval(env, tr, i, st), |h.code|, m)
  {
    hide Linked, EnvOk, Held, Matches, Run, InRange, DraftOk, Arith, ArithInsn;
    BlockPlaced(env.link, tr, i, g, h, f);
    var ins := tr.ir[i];
    m := ArithBlock(env, Linked(env.link, f), s0, s, st, ins.op, ins.op1, ins.op2, i);
    MatchCrash(env, Linked(env.link, f), s0, s, |h.code|, m);
  }

  lemma MatchCrash<W>(env: Env<W>, code: seq<Insn>, s0: State<W>, s: State<W>, next: nat, m: nat)
    ensures Run(env, code, s, m) == Fault ==> Matches(env, code, s0, s, Crash, next, m)
  {}

  lemma StepCompare<W(!new)>(env: Env<W>, tr: Trace, i: nat, g: Draft, h: Draft, f: Draft, s0: State<W>, s: State<W>,
          st: VmState<W>)
    returns (m: nat)
    requires Ready(env, tr, i, g, h, f, s0, s, st) && IsCompare(tr.ir[i].op)
    ensures StepOk(env, Linked(env.link, f), s0, s, Eval(env, tr, i, st), |h.code|, m)
  {
    hide Linked, EnvOk, Held, Matches, Run, InRange, DraftOk, Compare, CondOf, Cset;
    BlockPlaced(env.link, tr, i, g, h, f);
    var ins := tr.ir[i];
    m := CompareBlock(env, Linked(env.link, f), s0, s, st, ins.op, ins.op1, ins.op2, i);
    MatchCrash(env, Linked(env.link, f), s0, s, |h.code|, m);
  }

  lemma StepFloat<W(!new)>(env: Env<W>, tr: Trace, i: nat, g: Draft, h: Draft, f: Draft, s0: State<W>, s: State<W>,
          st: VmState<W>)
    returns (m: nat)
    requires Ready(env, tr, i, g, h, f, s0, s, st)
    requires (tr.ir[i].op.Neg? || tr.ir[i].op.Mod? || tr.ir[i].op.CallF1? || tr.ir[i].op.SStore?)
    ensures StepOk(env, Linked(env.link, f), s0, s, Eval(env, tr, i, st), |h.code|, m)
  {
    hide Linked, EnvOk, Held, Matches, Run, InRange, DraftOk, MovImm64, Negate, SStoreCode, Box;
    BlockPlaced(env.link, tr, i, g, h, f);
    var ins, code := tr.ir[i], Linked(env.link, f);
    match ins.op {
      case Neg => m := NegBlock(env, code, s0, s, st, ins.op1, i);
      case Mod => m := ModBlock(env, code, s0, s, st, ins.op1, ins.op2, i);
      case CallF1 => m := CallBlock(env, code, s0, s, st, ins.op1, ins.op2, i);
      case SStore => m := SStoreBlock(env, code, s0, s, st, ins.op1, ins.op2);
    }
    MatchCrash(env, code, s0, s, |h.code|, m);
  }

  lemma StepSlot<W(!new)>(env: Env<W>, tr: Trace, i: nat, g: Draft, h: Draft, f: Draft, s0: State<W>, s: State<W>,
          st: VmState<W>)
    returns (m: nat)
    requires Ready(env, tr, i, g, h, f, s0, s, st) && tr.ir[i].op.SLoad?
    ensures StepOk(env, Linked(env.link, f), s0, s, Eval(env, tr, i, st), |h.code|, m)
  {
    hide Linked, EnvOk, Held, Matches, Run, InRange, DraftOk, SLoadCode, IsNumber, PlacedButOne, GuardLinked;
    var hop, out := GuardPlaced(env.link, tr, i, g, h, f);
    var ins, code := tr.ir[i], Linked(env.link, f);
    m := SLoadBlock(env, code, s0, s, st, ins.op1, i, hop, out);
    MatchCrash(env, code, s0, s, |h.code|, m);
  }

  lemma StepGuard<W(!new)>(env: Env<W>, tr: Trace, i: nat, g: Draft, h: Draft, f: Draft, s0: State<W>, s: State<W>,
          st: VmState<W>)
    returns (m: nat)
    requires Ready(env, tr, i, g, h, f, s0, s, st) && (tr.ir[i].op.GuardTrue? || tr.ir[i].op.GuardFalse?)
    ensures StepOk(env, Linked(env.link, f), s0, s, Eval(env, tr, i, st), |h.code|, m)
  {
    hide Linked, EnvOk, Held, Matches, Run, InRange, DraftOk, GuardLinked;
    var hop, out := GuardPlaced(env.link, tr, i, g, h, f);
    var ins, code, block := tr.ir[i], Linked(env.link, f), Block(env.link, tr, i).value;
    assert code[s.pc + 0] == block[0] && code[s.pc + 1] == block[1];
    m := GuardBlock(env, code, s0, s, st, ins.op1, ins.op2, ins.op.GuardTrue?, hop, out);
  }

  lemma StepGlobal<W(!new)>(env: Env<W>, tr: Trace, i: nat, g: Draft, h: Draft, f: Draft, s0: State<W>, s: State<W>,
          st: VmState<W>)
    returns (m: nat)
    requires Ready(env, tr, i, g, h, f, s0, s, st) && (tr.ir[i].op.GLoad? || tr.ir[i].op.GStore?)
    ensures StepOk(env, Linked(env.link, f), s0, s, Eval(env, tr, i, st), |h.code|, m)
  {
    hide Linked, EnvOk, Held, Matches, Run, InRange, DraftOk, GuardLinked, PlacedButOne, GLoadCode, GStoreCode;
    var hop, out := GuardPlaced(env.link, tr, i, g, h, f);
    var ins, code := tr.ir[i], Linked(env.link, f);
    if ins.op.GLoad? {
      m := GLoadBlock(env, code, s0, s, st, tr.consts[ins.op1].addr, i, hop, out);
    } else {
      m := GStoreBlock(env, code, s0, s, st, tr.consts[ins.op1].addr, ins.op2, hop, out);
    }
    MatchCrash(env, code, s0, s, |h.code|, m);
  }

  lemma StepLoop<W(!new)>(env: Env<W>, tr: Trace, i: nat, g: Draft, h: Draft, f: Draft, s0: State<W>, s: State<W>,
          st: VmState<W>)
    returns (m: nat)
    requires Ready(env, tr, i, g, h, f, s0, s, st) && tr.ir[i].op.Loop?
    ensures StepOk(env, Linked(env.link, f), s0, s, Eval(env, tr, i, st), |h.code|, m)
  {
    hide Linked, EnvOk, Run, InRange, DraftOk, Saved, Reaches;
    var code := Linked(env.link, f);
    var hop := LoopPlaced(env.link, tr, i, g, h, f);
    assert |LoopDoneCode| == 7;
    Start(env, code, s);
    var t := RunB(env, code, s, s, 0, hop);
    RunLoopDone(env, code, s0, s, t, 1, st);
    m := 8;
  }

  /** Every compiled instruction does what the interpreter does with it. */
  lemma StepAny<W(!new)>(env: Env<W>, tr: Trace, i: nat, g: Draft, h: Draft, f: Draft, s0: State<W>, s: State<W>,
          st: VmState<W>)
    returns (m: nat)
    requires Ready(env, tr, i, g, h, f, s0, s, st)
    ensures StepOk(env, Linked(env.link, f), s0, s, Eval(env, tr, i, st), |h.code|, m)
    ensures Eval(env, tr, i, st).Running? ==> Eval(env, tr, i, st).st.snap == h.snap
  {
    hide Linked, EnvOk, Run, InRange, DraftOk, StepOk, Sim, Extends, MovImm64, SLoadCode, SStoreCode, GLoadCode,
      GStoreCode;
    var op := tr.ir[i].op;
    if IsArith(op) {
      m := StepArith(env, tr, i, g, h, f, s0, s, st);
    } else if IsCompare(op) {
      m := StepCompare(env, tr, i, g, h, f, s0, s, st);
    } else if op.Nop? || op.GuardNum? {
      m := StepNothing(env, tr, i, g, h, f, s0, s, st);
    } else if op.KNum? || op.KBool? {
      m := StepConst(env, tr, i, g, h, f, s0, s, st);
    } else if op.Neg? || op.Mod? || op.CallF1? || op.SStore? {
      m := StepFloat(env, tr, i, g, h, f, s0, s, st);
    } else if op.SLoad? {
      m := StepSlot(env, tr, i, g, h, f, s0, s, st);
    } else if op.GuardTrue? || op.GuardFalse? {
      m := StepGuard(env, tr, i, g, h, f, s0, s, st);
    } else if op.GLoad? || op.GStore? {
      m := StepGlobal(env, tr, i, g, h, f, s0, s, st);
    } else {
      m := StepLoop(env, tr, i, g, h, f, s0, s, st);
    }
  }

  // ----- a whole iteration -----

  /** The machine's result agrees with an iteration's outcome. */
  ghost predicate Agrees<W>(s0: State<W>, r: Result<W>, o: Outcome<W>) {
    match o
    case Running(_) => false
    case Crash => r.Fault?
    case LoopDone(st) => Left(s0, r, 0, st, None)
    case GuardFailed(st, snap) => Left(s0, r, 1, st, Some(snap))
  }

  lemma {:induction false} SimulateFrom<W(!new)>(env: Env<W>, tr: Trace, i: nat, s0: State<W>, s: State<W>,
          st: VmState<W>) returns (m: nat)
    requires EnvOk(env) && s0.replayed == None && 1 <= i <= |tr.ir|
    requires Body(env.link, tr, |tr.ir|).Some? && InRange(Body(env.link, tr, |tr.ir|).value)
    requires Body(env.link, tr, i).Some? && s.pc == |Body(env.link, tr, i).value.code|
    requires Sim(s0, s, st) && st.snap == Body(env.link, tr, i).value.snap
    ensures var code := Linked(env.link, Body(env.link, tr, |tr.ir|).value);
            s.pc + m <= |code| && Agrees(s0, Run(env, code, s, m), Interpret(env, tr, i, st))
    decreases |tr.ir| - i
  {
    hide EnvOk, InRange, Sim, Linked, AddOp, Run, Eval, Left;
    var f := Body(env.link, tr, |tr.ir|).value;
    var code := Linked(env.link, f);
    if i == |tr.ir| {
      m := SimulateEnd(env, tr, s0, s, st);
    } else {
      var g := Body(env.link, tr, i).value;
      BodyExtends(env.link, tr, i + 1, |tr.ir|);
      var h := Body(env.link, tr, i + 1).value;
      BodyOk(env.link, tr, i);
      BodyOk(env.link, tr, i + 1);
      BodyOk(env.link, tr, |tr.ir|);
      BodyExtends(env.link, tr, i, i + 1);
      hide DraftOk, Extends;
      m := StepAny(env, tr, i, g, h, f, s0, s, st);
      var o := Eval(env, tr, i, st);
      if o.Running? {
        var t := Run(env, code, s, m).s;
        var n := SimulateFrom(env, tr, i + 1, s0, t, o.st);
        Chain(env, code, s, t, m, n);
        m := m + n;
      }
    }
  }

  lemma SimulateEnd<W(!new)>(env: Env<W>, tr: Trace, s0: State<W>, s: State<W>, st: VmState<W>) returns (m: nat)
    requires s0.replayed == None && 1 <= |tr.ir|
    requires Body(env.link, tr, |tr.ir|).Some? && s.pc == |Body(env.link, tr, |tr.ir|).value.code|
    requires Sim(s0, s, st)
    ensures var code := Linked(env.link, Body(env.link, tr, |tr.ir|).value);
            s.pc + m <= |code| && Left(s0, Run(env, code, s, m), 0, st, None)
  {
    hide Sim, Linked, AddOp, Run, Left, Reaches;
    var f := Body(env.link, tr, |tr.ir|).value;
    BodyOk(env.link, tr, |tr.ir|);
    LinkedTail(env.link, f);
    assert |LoopDoneCode| == 7;
    Start(env, Linked(env.link, f), s);
    RunLoopDone(env, Linked(env.link, f), s0, s, s, 0, st);
    m := 7;
  }

  /** The finished code of an accepted trace. */
  function Compiled(link: Linkage, tr: Trace): seq<Insn>
    requires |tr.ir| >= 1 && Body(link, tr, |tr.ir|).Some?
  {
    Linked(link, Body(link, tr, |tr.ir|).value)
  }

  /** For every accepted trace whose branches fit, every environment and every entry state: after
      at most as many steps as there are instructions the compiled function has returned with
      the status, vals, slots, world and replayed snapshot of one interpreted iteration, SP and the
      callee-saved registers restored -- or faults exactly when the iteration does. */
  lemma CompiledCorrect<W(!new)>(env: Env<W>, tr: Trace, s: State<W>, n: nat)
    requires EnvOk(env) && Entry(s) && |tr.ir| >= 1
    requires Body(env.link, tr, |tr.ir|).Some? && InRange(Body(env.link, tr, |tr.ir|).value)
    requires n >= |Compiled(env.link, tr)|
    ensures Agrees(s, Run(env, Compiled(env.link, tr), s, n),
                   Interpret(env, tr, 1, VmState(s.vals, s.slots, s.world, 0)))
  {
    hide EnvOk, InRange, Linked, AddOp, Left, Interpret, Sim, Reaches;
    var f, code := Body(env.link, tr, |tr.ir|).value, Compiled(env.link, tr);
    BodyOk(env.link, tr, |tr.ir|);
    PrologueLinked(env.link, tr);
    var t := RunPrologue(env, code, s);
    assert Body(env.link, tr, 1) == Some(Draft(Prologue, [], [], 0)) && |Prologue| == 11;
    var m := SimulateFrom(env, tr, 1, s, t, VmState(s.vals, s.slots, s.world, 0));
    Chain(env, code, s, t, 11, m);
    AgreesStops(s, Run(env, code, s, 11 + m), Interpret(env, tr, 1, VmState(s.vals, s.slots, s.world, 0)));
    StaysStopped(env, code, s, 11 + m, n);
  }

  lemma AgreesStops<W>(s0: State<W>, r: Result<W>, o: Outcome<W>)
    requires Agrees(s0, r, o)
    ensures !r.Go?
  {}

  lemma StaysStopped<W>(env: Env<W>, code: seq<Insn>, s: State<W>, m: nat, n: nat)
    requires m <= n && !Run(env, code, s, m).Go?
    ensures Run(env, code, s, n) == Run(env, code, s, m)
  {
    hide Step;
    IterateAdd(Stepper(env, code), s, m, n - m);
  }

  lemma PrologueLinked(link: Linkage, tr: Trace)
    requires |tr.ir| >= 1 && Body(link, tr, |tr.ir|).Some?
    ensures Placed(Compiled(link, tr), 0, Prologue)
  {
    hide Linked, AddOp;
    var f := Body(link, tr, |tr.ir|).value;
    var start := Draft(Prologue, [], [], 0);
    BodyOk(link, tr, |tr.ir|);
    BodyExtends(link, tr, 1, |tr.ir|);
    assert |Prologue| == 11;
    assert Extends(Draft([], [], [], 0), start) && Extends(start, f);
    forall p | 0 <= p < 11 ensures p < |Linked(link, f)| && Linked(link, f)[0 + p] == Prologue[p] {
      PrologueUntouched(link, f, p);
    }
    assert |Linked(link, f)| >= 11 by { PrologueUntouched(link, f, 10); }
  }

  lemma PrologueUntouched(link: Linkage, f: Draft, p: nat)
    requires DraftOk(f) && Extends(Draft(Prologue, [], [], 0), f) && p < 11 && |Prologue| == 11
    ensures p < |Linked(link, f)| && Linked(link, f)[p] == Prologue[p]
  {
    hide Linked;
    UnpatchedLen(link, f);
    UnpatchedAt(link, f);
    assert Unpatched(link, f)[0 + p] == f.code[p];
    hide Unpatched, Placed;
    LinkedAt(link, f, p);
  }
}
