/** The parts every trace function shares: prologue, loop-done epilogue, guard stub and common side
    exit, and the relation between machine and interpreter states that holds in between. */
module TraceFrame {
  import opened Basics
  import opened A64
  import opened A64Machine
  import opened TraceIr
  import opened TraceCode
  import opened TraceRun

  /** AAPCS64 entry: x0 = vm, x1 = trace, x3 = frame_slots, x4 = vals, 16-byte aligned SP. */
  ghost predicate Entry<W>(s: State<W>) {
    && s.pc == 0 && s.sp % 16 == 0 && s.replayed == None
    && RegOf(s.x, 0) == Ptr(VmR, 0) && RegOf(s.x, 1) == Ptr(TraceR, 0)
    && RegOf(s.x, 3) == Ptr(SlotsR, 0) && RegOf(s.x, 4) == Ptr(ValsR, 0)
  }

  /** The stack with the 64-byte frame filled in. */
  function Saved<W>(s0: State<W>): map<int, Word> {
    var f := s0.sp - FRAME;
    s0.stack[f := RegOf(s0.x, 29)][f + 8 := RegOf(s0.x, 30)]
            [f + 16 := RegOf(s0.x, 19)][f + 16 + 8 := RegOf(s0.x, 20)]
            [f + 32 := RegOf(s0.x, 21)][f + 32 + 8 := RegOf(s0.x, 22)]
            [f + 48 := RegOf(s0.x, 23)]
  }

  lemma SavedAt<W>(s0: State<W>)
    ensures var f, m := s0.sp - FRAME, Saved(s0);
            && {f, f + 8, f + 16, f + 24, f + 32, f + 40, f + 48} <= m.Keys
            && m[f] == RegOf(s0.x, 29) && m[f + 8] == RegOf(s0.x, 30)
            && m[f + 16] == RegOf(s0.x, 19) && m[f + 24] == RegOf(s0.x, 20)
            && m[f + 32] == RegOf(s0.x, 21) && m[f + 40] == RegOf(s0.x, 22) && m[f + 48] == RegOf(s0.x, 23)
    ensures forall k :: k >= s0.sp ==>
            (k in Saved(s0) <==> k in s0.stack) && (k in s0.stack ==> Saved(s0)[k] == s0.stack[k])
  {}

  /** What the body of the trace function keeps: the pointers in x19..x22, the frame, and every
      callee-saved register that is not in the frame. */
  ghost predicate Held<W>(s0: State<W>, s: State<W>) {
    && s.sp == s0.sp - FRAME && s.sp % 16 == 0 && s.stack == Saved(s0) && s.replayed == s0.replayed
    && RegOf(s.x, R_VM) == Ptr(VmR, 0) && RegOf(s.x, R_T) == Ptr(TraceR, 0)
    && RegOf(s.x, R_FS) == Ptr(SlotsR, 0) && RegOf(s.x, R_VALS) == Ptr(ValsR, 0)
    && (forall r :: 24 <= r <= 28 ==> RegOf(s.x, r) == RegOf(s0.x, r))
    && (forall r :: 8 <= r <= 15 ==> FloatOf(s.d, r) == FloatOf(s0.d, r))
  }

  /** Between two instructions of the trace. */
  ghost predicate Sim<W>(s0: State<W>, s: State<W>, st: VmState<W>) {
    Held(s0, s) && s.vals == st.vals && s.slots == st.slots && s.world == st.world
  }

  /** After the return: status in x0, SP and the callee-saved registers restored, the caller's part
      of the stack untouched, control back at the caller. */
  ghost predicate Left<W>(s0: State<W>, r: Result<W>, status: nat, st: VmState<W>, replayed: Option<nat>) {
    && r.Returned? && r.target == RegOf(s0.x, LR)
    && RegOf(r.s.x, 0).Bits? && RegOf(r.s.x, 0).b == status
    && r.s.vals == st.vals && r.s.slots == st.slots && r.s.world == st.world && r.s.replayed == replayed
    && r.s.sp == s0.sp
    && (forall k :: 19 <= k <= 29 ==> RegOf(r.s.x, k) == RegOf(s0.x, k))
    && (forall k :: 8 <= k <= 15 ==> FloatOf(r.s.d, k) == FloatOf(s0.d, k))
    && (forall k :: k >= s0.sp && k in s0.stack ==> k in r.s.stack && r.s.stack[k] == s0.stack[k])
  }

  // ----- prologue -----

  lemma PrologueAt(code: seq<Insn>)
    requires Placed(code, 0, Prologue)
    ensures |code| >= 11
    ensures code[0] == SubImm(SP, SP, FRAME) && code[1] == Stp(FP, LR, SP, 0) && code[2] == Stp(R_VM, R_T, SP, 2)
         && code[3] == Stp(R_FS, R_VALS, SP, 4) && code[4] == StrX(R_SKIP, SP, 6) && code[5] == AddImm(FP, SP, 0)
         && code[6] == MovReg(R_VM, 0) && code[7] == MovReg(R_T, 1) && code[8] == MovReg(R_SKIP, 2)
         && code[9] == MovReg(R_FS, 3) && code[10] == MovReg(R_VALS, 4)
  {
    assert |Prologue| == 11;
    forall k | 0 <= k < 11 ensures code[k] == Prologue[k] {
      assert code[0 + k] == Prologue[k];
    }
    assert Prologue[6] == MovReg(R_VM, 0) && Prologue[7] == MovReg(R_T, 1);
  }

  lemma EpilogueAt(code: seq<Insn>, p: nat)
    requires Placed(code, p, Epilogue)
    ensures |code| >= p + 6
    ensures code[p] == Ldp(FP, LR, SP, 0) && code[p + 1] == Ldp(R_VM, R_T, SP, 2)
    ensures code[p + 2] == Ldp(R_FS, R_VALS, SP, 4)
         && code[p + 3] == LdrX(R_SKIP, SP, 6) && code[p + 4] == AddImm(SP, SP, FRAME) && code[p + 5] == Ret(LR)
  {
    assert |Epilogue| == 6;
    assert code[p + 0] == Epilogue[0] && code[p + 1] == Epilogue[1] && code[p + 2] == Epilogue[2]
        && code[p + 3] == Epilogue[3] && code[p + 4] == Epilogue[4] && code[p + 5] == Epilogue[5];
  }

  lemma RunSaves<W>(env: Env<W>, code: seq<Insn>, s0: State<W>) returns (t: State<W>)
    requires Entry(s0) && Placed(code, 0, Prologue)
    ensures t == s0.(pc := 5, sp := s0.sp - FRAME, stack := Saved(s0)) && Reaches(env, code, s0, t, 5)
  {
    hide Run, Reaches, RegOf, Placed;
    PrologueAt(code);
    Start(env, code, s0);
    var t1 := RunMoveSp(env, code, s0, s0, 0, -64);
    RunStp(env, code, s0, t1, 1, 29, 30, 0);
    var t2 := WithPair(t1, t1.sp + 0 * 8, RegOf(t1.x, 29), RegOf(t1.x, 30));
    RunStp(env, code, s0, t2, 2, 19, 20, 2);
    var t3 := WithPair(t2, t2.sp + 2 * 8, RegOf(t2.x, 19), RegOf(t2.x, 20));
    RunStp(env, code, s0, t3, 3, 21, 22, 4);
    var t4 := WithPair(t3, t3.sp + 4 * 8, RegOf(t3.x, 21), RegOf(t3.x, 22));
    t := RunPush(env, code, s0, t4, 4, 23, 6);
    assert t.stack == Saved(s0);
  }

  lemma RunPrologue<W>(env: Env<W>, code: seq<Insn>, s0: State<W>) returns (t: State<W>)
    requires Entry(s0) && Placed(code, 0, Prologue)
    ensures Reaches(env, code, s0, t, 11) && t.pc == 11
    ensures Sim(s0, t, VmState(s0.vals, s0.slots, s0.world, 0))
  {
    hide Run, Reaches, Placed, Saved;
    PrologueAt(code);
    var t5 := RunSaves(env, code, s0);
    RunAddImm(env, code, s0, t5, 5);
    var t6 := WithX(t5, 29, Ptr(StackR, t5.sp));
    RunMov(env, code, s0, t6, 6, 19, 0);
    var t7 := WithX(t6, 19, RegOf(t6.x, 0));
    RunMov(env, code, s0, t7, 7, 20, 1);
    var t8 := WithX(t7, 20, RegOf(t7.x, 1));
    RunMov(env, code, s0, t8, 8, 23, 2);
    var t9 := WithX(t8, 23, RegOf(t8.x, 2));
    RunMov(env, code, s0, t9, 9, 21, 3);
    var t10 := WithX(t9, 21, RegOf(t9.x, 3));
    RunMov(env, code, s0, t10, 10, 22, 4);
    t := WithX(t10, 22, RegOf(t10.x, 4));
  }

  // ----- epilogue -----

  lemma RunRestores<W>(env: Env<W>, code: seq<Insn>, s0: State<W>, s: State<W>, t: State<W>,
          n: nat) returns (u: State<W>)
    requires Reaches(env, code, s, t, n) && t.sp == s0.sp - FRAME && t.stack == Saved(s0)
    requires Placed(code, t.pc, Epilogue)
    ensures u == t.(pc := t.pc + 5, sp := s0.sp, x := u.x) && Reaches(env, code, s, u, n + 5)
    ensures forall k :: 19 <= k <= 23 || 29 <= k <= 30 ==> RegOf(u.x, k) == RegOf(s0.x, k)
    ensures forall k :: k < 19 || 24 <= k <= 28 ==> RegOf(u.x, k) == RegOf(t.x, k)
  {
    hide Run, Reaches, Placed, Saved;
    EpilogueAt(code, t.pc);
    SavedAt(s0);
    var t1 := RunLdp(env, code, s, t, n, 29, 30, 0);
    var t2 := RunLdp(env, code, s, t1, n + 1, 19, 20, 2);
    var t3 := RunLdp(env, code, s, t2, n + 2, 21, 22, 4);
    RunPop(env, code, s, t3, n + 3, 23, 6);
    var t4 := WithX(t3, 23, t3.stack[t3.sp + 48]);
    u := RunMoveSp(env, code, s, t4, n + 4, 64);
  }

  lemma RunEpilogue<W>(env: Env<W>, code: seq<Insn>, s0: State<W>, s: State<W>, t: State<W>, n: nat,
                       status: U16, st: VmState<W>, replayed: Option<nat>)
    requires Reaches(env, code, s, t, n) && Placed(code, t.pc, Epilogue)
    requires Held(s0, t.(replayed := s0.replayed)) && t.replayed == replayed
    requires t.vals == st.vals && t.slots == st.slots && t.world == st.world
    requires RegOf(t.x, 0) == Bits(status)
    ensures Left(s0, Run(env, code, s, n + 6), status, st, replayed)
  {
    hide Run, Reaches, Placed, Saved;
    EpilogueAt(code, t.pc);
    SavedAt(s0);
    var u := RunRestores(env, code, s0, s, t, n);
    assert Exec(env, Ret(30), u) == Returned(u, RegOf(u.x, 30));
    hide Exec;
    Stop(env, code, s, u, n + 5, Ret(30));
  }

  lemma RunLoopDone<W>(env: Env<W>, code: seq<Insn>, s0: State<W>, s: State<W>, t: State<W>, n: nat, st: VmState<W>)
    requires Reaches(env, code, s, t, n) && Sim(s0, t, st)
    requires Placed(code, t.pc, LoopDoneCode)
    ensures Left(s0, Run(env, code, s, n + 7), 0, st, s0.replayed)
  {
    hide Run, Reaches, Saved;
    assert LoopDoneCode == [MovzW(0, 0)] + Epilogue;
    PlacedSplit(code, t.pc, [MovzW(0, 0)], Epilogue);
    assert code[t.pc + 0] == [MovzW(0, 0)][0];
    hide Placed;
    RunMovzW(env, code, s, t, n, 0, 0);
    var u := WithX(t, 0, Bits(0));
    RunEpilogue(env, code, s0, s, u, n + 1, 0, st, s0.replayed);
  }

  // ----- side exit -----

  /** The five argument registers of the replay helper. */
  lemma RunExitArgs<W>(env: Env<W>, code: seq<Insn>, s0: State<W>, s: State<W>, t: State<W>, n: nat,
          snap: U16) returns (u: State<W>)
    requires Reaches(env, code, s, t, n) && Held(s0, t) && RegOf(t.x, 9) == Bits(snap)
    requires Placed(code, t.pc, [MovReg(0, R_VM), MovReg(1, R_T), MovReg(2, R_VALS), MovReg(3, R_FS), MovReg(4, 9)])
    ensures Reaches(env, code, s, u, n + 5) && Held(s0, u)
    ensures u == t.(x := u.x, pc := t.pc + 5)
    ensures RegOf(u.x, 0) == Ptr(VmR, 0) && RegOf(u.x, 1) == Ptr(TraceR, 0) && RegOf(u.x, 2) == Ptr(ValsR, 0)
    ensures RegOf(u.x, 3) == Ptr(SlotsR, 0) && RegOf(u.x, 4) == Bits(snap)
  {
    hide Run, Reaches, Saved;
    var args := [MovReg(0, R_VM), MovReg(1, R_T), MovReg(2, R_VALS), MovReg(3, R_FS), MovReg(4, 9)];
    assert code[t.pc + 0] == args[0] && code[t.pc + 1] == args[1] && code[t.pc + 2] == args[2]
        && code[t.pc + 3] == args[3] && code[t.pc + 4] == args[4];
    hide Placed;
    RunMov(env, code, s, t, n, 0, 19);
    var t1 := WithX(t, 0, RegOf(t.x, 19));
    RunMov(env, code, s, t1, n + 1, 1, 20);
    var t2 := WithX(t1, 1, RegOf(t1.x, 20));
    RunMov(env, code, s, t2, n + 2, 2, 22);
    var t3 := WithX(t2, 2, RegOf(t2.x, 22));
    RunMov(env, code, s, t3, n + 3, 3, 21);
    var t4 := WithX(t3, 3, RegOf(t3.x, 21));
    RunMov(env, code, s, t4, n + 4, 4, 9);
    u := WithX(t4, 4, RegOf(t4.x, 9));
  }

  /** A callee keeps what the body relies on. */
  lemma HeldAcrossCall<W(!new)>(env: Env<W>, s0: State<W>, s: State<W>)
    requires EnvOk(env) && Held(s0, s)
    ensures Held(s0, Clobbered(env, s))
  {
    hide Saved;
    var t := Clobbered(env, s);
    assert forall r :: 19 <= r <= 29 ==> RegOf(t.x, r) == RegOf(s.x, r);
    assert forall r :: 8 <= r <= 15 ==> FloatOf(t.d, r) == FloatOf(s.d, r);
    hide EnvOk;
  }

  lemma RunReplay<W(!new)>(env: Env<W>, code: seq<Insn>, s0: State<W>, s: State<W>, t: State<W>, n: nat,
          st: VmState<W>, snap: U16)
    returns (u: State<W>)
    requires EnvOk(env) && Reaches(env, code, s, t, n) && Sim(s0, t, st)
    requires t.pc < |code| && code[t.pc] == Blr(9) && RegOf(t.x, 9) == Bits(env.link.replay)
    requires RegOf(t.x, 0) == Ptr(VmR, 0) && RegOf(t.x, 1) == Ptr(TraceR, 0) && RegOf(t.x, 2) == Ptr(ValsR, 0)
    requires RegOf(t.x, 3) == Ptr(SlotsR, 0) && RegOf(t.x, 4) == Bits(snap)
    ensures Reaches(env, code, s, u, n + 1) && u.pc == t.pc + 1 && u.replayed == Some(snap)
    ensures Sim(s0, u.(replayed := s0.replayed), Exit(env, st, snap).st)
  {
    HeldAcrossCall(env, s0, t);
    var (world, slots) := env.replay(t.world, t.vals, t.slots, snap);
    u := Clobbered(env, t).(world := world, slots := slots, replayed := Some(snap));
    assert Exec(env, Blr(9), t) == Go(u);
    hide Exec, Saved;
    Advance(env, code, s, t, n, Blr(9), u);
  }

  /** From guard stub to return: the snapshot named by the stub is replayed, once, on the state at
      the failed guard. */
  lemma RunExit<W(!new)>(env: Env<W>, code: seq<Insn>, s0: State<W>, s: State<W>, t: State<W>, n: nat,
                         st: VmState<W>, snap: U16, hop: nat)
    returns (m: nat)
    requires EnvOk(env) && Reaches(env, code, s, t, n) && Sim(s0, t, st)
    requires t.pc + 1 < |code| && hop < TWO26 / 2
    requires code[t.pc] == MovzW(9, snap) && code[t.pc + 1] == B(hop)
    requires Placed(code, t.pc + 1 + hop, CommonCode(env.link))
    ensures m == |CommonCode(env.link)| + 2
    ensures Left(s0, Run(env, code, s, n + m), 1, Exit(env, st, snap).st, Some(snap))
  {
    hide Run, Reaches, Saved, Placed, EnvOk, MovImm64;
    var args := [MovReg(0, R_VM), MovReg(1, R_T), MovReg(2, R_VALS), MovReg(3, R_FS), MovReg(4, 9)];
    var imm := MovImm64(9, env.link.replay);
    m := |CommonCode(env.link)| + 2;
    PlacedCommon(code, t.pc + 1 + hop, env.link);
    RunMovzW(env, code, s, t, n, 9, snap);
    var t1 := WithX(t, 9, Bits(snap));
    var t2 := RunB(env, code, s, t1, n + 1, hop);
    var t3 := RunExitArgs(env, code, s0, s, t2, n + 2, snap);
    RunImm(env, code, s, t3, n + 7, 9, env.link.replay);
    var t4 := WithImm(t3, 9, env.link.replay);
    var t5 := RunReplay(env, code, s0, s, t4, n + 7 + |imm|, st, snap);
    RunMovzW(env, code, s, t5, n + 8 + |imm|, 0, 1);
    var t6 := WithX(t5, 0, Bits(1));
    RunEpilogue(env, code, s0, s, t6, n + 9 + |imm|, 1, Exit(env, st, snap).st, Some(snap));
  }

  lemma PlacedCommon(code: seq<Insn>, p: nat, link: Linkage)
    requires Placed(code, p, CommonCode(link))
    ensures Placed(code, p, [MovReg(0, R_VM), MovReg(1, R_T), MovReg(2, R_VALS), MovReg(3, R_FS), MovReg(4, 9)])
    ensures Placed(code, p + 5, MovImm64(9, link.replay))
    ensures var q := p + 5 + |MovImm64(9, link.replay)|;
            q + 8 <= |code| && code[q] == Blr(9) && code[q + 1] == MovzW(0, 1) && Placed(code, q + 2, Epilogue)
    ensures |CommonCode(link)| == 13 + |MovImm64(9, link.replay)|
  {
    hide MovImm64;
    var args := [MovReg(0, R_VM), MovReg(1, R_T), MovReg(2, R_VALS), MovReg(3, R_FS), MovReg(4, 9)];
    var imm, mid := MovImm64(9, link.replay), [Blr(9), MovzW(0, 1)];
    assert CommonCode(link) == args + imm + mid + Epilogue;
    PlacedSplit(code, p, args + imm + mid, Epilogue);
    PlacedSplit(code, p, args + imm, mid);
    PlacedSplit(code, p, args, imm);
    var q := p + 5 + |imm|;
    assert code[q + 0] == mid[0] && code[q + 1] == mid[1];
  }
}
