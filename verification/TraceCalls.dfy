/** Blocks that call the runtime: fmod, fast natives, numeric global load and store. */
module TraceCalls {
  import opened Basics
  import opened A64
  import opened A64Machine
  import opened TraceIr
  import opened TraceCode
  import opened TraceRun
  import opened TraceFrame
  import opened TraceBlocks

  lemma RunFmod<W(!new)>(env: Env<W>, code: seq<Insn>, s0: State<W>, s: State<W>, t: State<W>, n: nat,
          st: VmState<W>) returns (u: State<W>)
    requires EnvOk(env) && Reaches(env, code, s, t, n) && Sim(s0, t, st)
    requires t.pc < |code| && code[t.pc] == Blr(9) && RegOf(t.x, 9) == Bits(env.link.fmod)
    ensures Reaches(env, code, s, u, n + 1) && Sim(s0, u, st) && u.pc == t.pc + 1
    ensures FloatOf(u.d, 0) == env.fmod(FloatOf(t.d, 0), FloatOf(t.d, 1))
  {
    HeldAcrossCall(env, s0, t);
    var c := Clobbered(env, t);
    u := c.(d := c.d[0 := env.fmod(FloatOf(t.d, 0), FloatOf(t.d, 1))]);
    assert Exec(env, Blr(9), t) == Go(u);
    hide Exec, Saved, EnvOk;
    Advance(env, code, s, t, n, Blr(9), u);
  }

  lemma ModBlock<W(!new)>(env: Env<W>, code: seq<Insn>, s0: State<W>, s: State<W>, st: VmState<W>, a: nat, b: nat,
          i: nat) returns (m: nat)
    requires EnvOk(env) && Sim(s0, s, st)
    requires Placed(code, s.pc,
             [LdrD(0, R_VALS, a), LdrD(1, R_VALS, b)] + MovImm64(9, env.link.fmod) + [Blr(9), StrD(0, R_VALS, i)])
    ensures m <= 4 + |MovImm64(9, env.link.fmod)|
    ensures if a < |st.vals| && b < |st.vals|
            then m == 4 + |MovImm64(9, env.link.fmod)|
                 && Matches(env, code, s0, s, SetVal(st, i, env.fmod(st.vals[a], st.vals[b])), s.pc + m, m)
            else Run(env, code, s, m) == Fault
  {
    hide Run, Saved, Matches, Reaches, EnvOk, MovImm64, SetVal;
    var head, imm, tail := [LdrD(0, R_VALS, a), LdrD(1, R_VALS, b)], MovImm64(9, env.link.fmod),
      [Blr(9), StrD(0, R_VALS, i)];
    PlacedSplit(code, s.pc, head + imm, tail);
    PlacedSplit(code, s.pc, head, imm);
    assert code[s.pc + 0] == head[0] && code[s.pc + 1] == head[1];
    assert code[s.pc + 2 + |imm| + 0] == tail[0] && code[s.pc + 2 + |imm| + 1] == tail[1];
    hide Placed;
    var t;
    t, m := TwoLoads(env, code, s0, s, st, a, b);
    if a < |st.vals| && b < |st.vals| {
      RunImm(env, code, s, t, 2, 9, env.link.fmod);
      var u := RunFmod(env, code, s0, s, WithImm(t, 9, env.link.fmod), 2 + |imm|, st);
      RunSetVal(env, code, s0, s, u, 3 + |imm|, st, StrD(0, R_VALS, i), i, env.fmod(st.vals[a], st.vals[b]));
      m := 4 + |imm|;
    }
  }

  lemma RunNative<W(!new)>(env: Env<W>, code: seq<Insn>, s0: State<W>, s: State<W>, t: State<W>, n: nat,
          st: VmState<W>, k: nat) returns (u: State<W>)
    requires EnvOk(env) && Reaches(env, code, s, t, n) && Sim(s0, t, st)
    requires k < |env.link.natives| && env.link.natives[k] != 0
    requires t.pc < |code| && code[t.pc] == Blr(9) && RegOf(t.x, 9) == Bits(env.link.natives[k])
    ensures var r := env.native(env.link.natives[k], st.world, FloatOf(t.d, 0));
            Sim(s0, u, st.(world := r.0)) && FloatOf(u.d, 0) == r.1
    ensures Reaches(env, code, s, u, n + 1) && u.pc == t.pc + 1
  {
    HeldAcrossCall(env, s0, t);
    assert env.callee(env.link.natives[k]) == CNative;
    var r := env.native(env.link.natives[k], t.world, FloatOf(t.d, 0));
    var c := Clobbered(env, t);
    u := c.(d := c.d[0 := r.1], world := r.0);
    assert Exec(env, Blr(9), t) == Go(u);
    hide Exec, Saved, EnvOk;
    Advance(env, code, s, t, n, Blr(9), u);
  }

  lemma CallBlock<W(!new)>(env: Env<W>, code: seq<Insn>, s0: State<W>, s: State<W>, st: VmState<W>, k: nat, b: nat,
          i: nat) returns (m: nat)
    requires EnvOk(env) && Sim(s0, s, st)
    requires k < |env.link.natives| && env.link.natives[k] != 0
    requires Placed(code, s.pc, [LdrD(0, R_VALS, b)] + MovImm64(9, env.link.natives[k]) + [Blr(9), StrD(0, R_VALS, i)])
    ensures m <= 3 + |MovImm64(9, env.link.natives[k])|
    ensures if b < |st.vals|
            then var r := env.native(env.link.natives[k], st.world, st.vals[b]);
                 m == 3 + |MovImm64(9, env.link.natives[k])|
                 && Matches(env, code, s0, s, SetVal(st.(world := r.0), i, r.1), s.pc + m, m)
            else Run(env, code, s, m) == Fault
  {
    hide Run, Saved, Matches, Reaches, EnvOk, MovImm64, SetVal;
    var head, imm, tail := [LdrD(0, R_VALS, b)], MovImm64(9, env.link.natives[k]), [Blr(9), StrD(0, R_VALS, i)];
    PlacedSplit(code, s.pc, head + imm, tail);
    PlacedSplit(code, s.pc, head, imm);
    assert code[s.pc + 0] == head[0];
    assert code[s.pc + 1 + |imm| + 0] == tail[0] && code[s.pc + 1 + |imm| + 1] == tail[1];
    hide Placed;
    Start(env, code, s);
    RunLdrVal(env, code, s, s, 0, 0, b);
    m := 1;
    if b < |st.vals| {
      var t := WithD(s, 0, st.vals[b]);
      RunImm(env, code, s, t, 1, 9, env.link.natives[k]);
      var u := RunNative(env, code, s0, s, WithImm(t, 9, env.link.natives[k]), 1 + |imm|, st, k);
      var r := env.native(env.link.natives[k], st.world, st.vals[b]);
      RunSetVal(env, code, s0, s, u, 2 + |imm|, st.(world := r.0), StrD(0, R_VALS, i), i, r.1);
      m := 3 + |imm|;
    }
  }

  // ----- globals -----

  /** cmp w0, #0 looks at the 32-bit status only. */
  lemma RunStatusTest<W>(env: Env<W>, code: seq<Insn>, s: State<W>, t: State<W>, n: nat, junk: nat,
          status: nat) returns (u: State<W>)
    requires Reaches(env, code, s, t, n) && t.pc < |code| && code[t.pc] == SubsImmW(ZR, 0, 0)
    requires RegOf(t.x, 0).Bits? && RegOf(t.x, 0).b == junk * TWO32 + status % TWO32
    ensures Reaches(env, code, s, u, n + 1) && u == t.(flags := u.flags, pc := t.pc + 1)
    ensures Holds(CC_NE, u.flags) <==> status % TWO32 != 0
  {
    var w := RegOf(t.x, 0).b % TWO32;
    assert w == status % TWO32;
    u := t.(flags := SubFlags(w, 0, TWO32), pc := t.pc + 1);
    assert Exec(env, SubsImmW(31, 0, 0), t) == Go(u);
    hide Exec;
    Advance(env, code, s, t, n, SubsImmW(31, 0, 0), u);
  }

  lemma StatusWordBits<W>(env: Env<W>, s: State<W>, status: nat) returns (junk: nat)
    ensures StatusWord(env, s, status).Bits? && StatusWord(env, s, status).b == junk * TWO32 + status % TWO32
  {
    junk := match RegOf(env.callX(s), 0) case Bits(b) => b / TWO32 case Ptr(_, _) => 0;
  }

  lemma ExecGload<W(!new)>(env: Env<W>, t: State<W>, name: U64, i: nat) returns (u: State<W>)
    requires EnvOk(env) && t.sp % 16 == 0
    requires RegOf(t.x, 9) == Bits(env.link.gload) && RegOf(t.x, 0) == Ptr(VmR, 0) && RegOf(t.x, 1) == Bits(name)
    requires RegOf(t.x, 2) == Ptr(ValsR, i * 8)
    ensures var (status, value) := env.gload(t.world, name);
            var c := Clobbered(env, t);
            var done := c.(x := c.x[0 := StatusWord(env, t, status)]);
            if status % TWO32 != 0 then Exec(env, Blr(9), t) == Go(done) && u == done
            else if i < |t.vals| then Exec(env, Blr(9), t) == Go(u) && u == done.(vals := t.vals[i := value])
            else Exec(env, Blr(9), t) == Fault
  {
    assert env.callee(env.link.gload) == CGload;
    hide EnvOk, StatusWord;
    var (status, value) := env.gload(t.world, name);
    var c := Clobbered(env, t);
    u := c.(x := c.x[0 := StatusWord(env, t, status)]);
    if status % TWO32 == 0 && i < |t.vals| {
      u := u.(vals := t.vals[i := value]);
    }
  }

  /** The status test and the guard behind a helper call. */
  lemma RunStatusGuard<W(!new)>(env: Env<W>, code: seq<Insn>, s0: State<W>, s: State<W>, t: State<W>, n: nat,
                                st: VmState<W>, junk: nat, status: nat, hop: nat, out: nat)
    returns (m: nat)
    requires EnvOk(env) && Reaches(env, code, s, t, n) && Sim(s0, t, st) && s0.replayed == None
    requires t.pc + 1 < |code| && code[t.pc] == SubsImmW(ZR, 0, 0)
    requires GuardLinked(env.link, code, t.pc + 1, CC_NE, st.snap, hop, out)
    requires RegOf(t.x, 0).Bits? && RegOf(t.x, 0).b == junk * TWO32 + status % TWO32
    ensures m <= n + |code| - t.pc
    ensures if status % TWO32 != 0 then Matches(env, code, s0, s, Exit(env, st, st.snap), t.pc + 2, m)
            else m == n + 2 && Matches(env, code, s0, s, Running(st), t.pc + 2, m)
  {
    hide Exec, Run, Reaches, EnvOk, Saved, GuardLinked, Holds, Held;
    var u := RunStatusTest(env, code, s, t, n, junk, status);
    HeldScratch(s0, t, u);
    HeldScratch(s0, t, u.(pc := u.pc + 1));
    m := RunGuard(env, code, s0, s, u, n + 1, st, CC_NE, st.snap, hop, out);
    if status % TWO32 == 0 {
      hide Matches;
      MatchRunning(env, code, s0, s, u.(pc := u.pc + 1), st, n + 2);
    }
  }

  /** The call of the load helper: the state afterwards, or a fault on a bad out-pointer. */
  lemma RunGloadCall<W(!new)>(env: Env<W>, code: seq<Insn>, s0: State<W>, s: State<W>, t: State<W>, n: nat,
                              st: VmState<W>, name: U64, i: nat)
    returns (u: State<W>, junk: nat)
    requires EnvOk(env) && Reaches(env, code, s, t, n) && Sim(s0, t, st)
    requires t.pc < |code| && code[t.pc] == Blr(9)
    requires RegOf(t.x, 9) == Bits(env.link.gload) && RegOf(t.x, 0) == Ptr(VmR, 0) && RegOf(t.x, 1) == Bits(name)
    requires RegOf(t.x, 2) == Ptr(ValsR, i * 8)
    ensures var (status, value) := env.gload(st.world, name);
            if status % TWO32 == 0 && i >= |st.vals| then Run(env, code, s, n + 1) == Fault
            else && Reaches(env, code, s, u, n + 1) && u.pc == t.pc + 1
                 && Sim(s0, u, if status % TWO32 == 0 then st.(vals := st.vals[i := value]) else st)
                 && RegOf(u.x, 0).Bits? && RegOf(u.x, 0).b == junk * TWO32 + status % TWO32
  {
    u := ExecGload(env, t, name, i);
    HeldAcrossCall(env, s0, t);
    var (status, value) := env.gload(st.world, name);
    junk := StatusWordBits(env, t, status);
    hide Exec, Run, Reaches, EnvOk, Saved, StatusWord;
    if status % TWO32 == 0 && i >= |t.vals| {
      Stop(env, code, s, t, n, Blr(9));
    } else {
      Advance(env, code, s, t, n, Blr(9), u);
      HeldScratch(s0, Clobbered(env, t), u);
    }
  }

  lemma GLoadAt(link: Linkage, code: seq<Insn>, p: nat, name: U64, i: nat) returns (k1: nat, k2: nat, k3: nat)
    requires i < TWO32 && PlacedButOne(code, p, GLoadCode(link, name, i), |GLoadCode(link, name, i)| - 1)
    ensures k1 == |MovImm64(1, name)| && k2 == |MovImm64(9, i * 8)| && k3 == |MovImm64(9, link.gload)|
    ensures |GLoadCode(link, name, i)| == 5 + k1 + k2 + k3 && p + 5 + k1 + k2 + k3 <= |code|
    ensures code[p] == MovReg(0, R_VM) && Placed(code, p + 1, MovImm64(1, name))
    ensures Placed(code, p + 1 + k1, MovImm64(9, i * 8)) && code[p + 1 + k1 + k2] == AddReg(2, R_VALS, 9)
    ensures Placed(code, p + 2 + k1 + k2, MovImm64(9, link.gload)) && code[p + 2 + k1 + k2 + k3] == Blr(9)
    ensures code[p + 3 + k1 + k2 + k3] == SubsImmW(ZR, 0, 0)
  {
    hide MovImm64;
    var head, m1, m2, m3 := [MovReg(0, R_VM)], MovImm64(1, name), MovImm64(9, i * 8), MovImm64(9, link.gload);
    var add, tail := [AddReg(2, R_VALS, 9)], [Blr(9), SubsImmW(ZR, 0, 0)];
    k1, k2, k3 := |m1|, |m2|, |m3|;
    var block := GLoadCode(link, name, i);
    var most := head + m1 + m2 + add + m3 + tail;
    assert block == most + [BCond(CC_NE, 0)];
    forall k | 0 <= k < |most| ensures code[p + k] == most[k] {
      assert code[p + k] == block[k];
    }
    PlacedSplit(code, p, head + m1 + m2 + add + m3, tail);
    PlacedSplit(code, p, head + m1 + m2 + add, m3);
    PlacedSplit(code, p, head + m1 + m2, add);
    PlacedSplit(code, p, head + m1, m2);
    PlacedSplit(code, p, head, m1);
    assert code[p + 0] == head[0] && code[p + 1 + k1 + k2 + 0] == add[0];
    assert code[p + 2 + k1 + k2 + k3 + 0] == tail[0] && code[p + 2 + k1 + k2 + k3 + 1] == tail[1];
  }

  lemma ExecAddress<W>(env: Env<W>, t: State<W>, i: nat)
    requires i < TWO32 && RegOf(t.x, 22) == Ptr(ValsR, 0) && RegOf(t.x, 9) == Bits(i * 8)
    ensures Exec(env, AddReg(2, 22, 9), t) == Go(WithX(t, 2, Ptr(ValsR, i * 8)))
  {}

  /** x0 = vm, x1 = name, x2 = &vals[i], x9 = helper. */
  lemma RunGloadArgs<W>(env: Env<W>, code: seq<Insn>, s0: State<W>, s: State<W>, name: U64, i: nat, k1: nat, k2: nat,
          k3: nat)
    returns (t: State<W>)
    requires Held(s0, s) && i < TWO32
    requires k1 == |MovImm64(1, name)| && k2 == |MovImm64(9, i * 8)| && k3 == |MovImm64(9, env.link.gload)|
    requires s.pc + 5 + k1 + k2 + k3 <= |code|
    requires code[s.pc] == MovReg(0, R_VM) && Placed(code, s.pc + 1, MovImm64(1, name))
    requires Placed(code, s.pc + 1 + k1, MovImm64(9, i * 8)) && code[s.pc + 1 + k1 + k2] == AddReg(2, R_VALS, 9)
    requires Placed(code, s.pc + 2 + k1 + k2, MovImm64(9, env.link.gload))
    ensures Reaches(env, code, s, t, 2 + k1 + k2 + k3) && Held(s0, t)
    ensures t == s.(x := t.x, pc := s.pc + 2 + k1 + k2 + k3)
    ensures RegOf(t.x, 9) == Bits(env.link.gload) && RegOf(t.x, 0) == Ptr(VmR, 0)
    ensures RegOf(t.x, 1) == Bits(name) && RegOf(t.x, 2) == Ptr(ValsR, i * 8)
  {
    hide Exec, Run, Reaches, Saved, MovImm64, Placed;
    Start(env, code, s);
    RunMov(env, code, s, s, 0, 0, 19);
    var t1 := WithX(s, 0, RegOf(s.x, 19));
    RunImm(env, code, s, t1, 1, 1, name);
    var t2 := WithImm(t1, 1, name);
    RunImm(env, code, s, t2, 1 + k1, 9, i * 8);
    var t3 := WithImm(t2, 9, i * 8);
    ExecAddress(env, t3, i);
    var t4 := WithX(t3, 2, Ptr(ValsR, i * 8));
    Advance(env, code, s, t3, 1 + k1 + k2, AddReg(2, 22, 9), t4);
    RunImm(env, code, s, t4, 2 + k1 + k2, 9, env.link.gload);
    t := WithImm(t4, 9, env.link.gload);
  }

  lemma GLoadBlock<W(!new)>(env: Env<W>, code: seq<Insn>, s0: State<W>, s: State<W>, st: VmState<W>, name: U64, i: nat,
          hop: nat, out: nat)
    returns (m: nat)
    requires EnvOk(env) && Sim(s0, s, st) && s0.replayed == None && i < TWO32
    requires PlacedButOne(code, s.pc, GLoadCode(env.link, name, i), |GLoadCode(env.link, name, i)| - 1)
    requires |GLoadCode(env.link, name, i)| > 0
    requires GuardLinked(env.link, code, s.pc + |GLoadCode(env.link, name, i)| - 1, CC_NE, st.snap, hop, out)
    ensures m <= |code| - s.pc
    ensures var (status, value) := env.gload(st.world, name);
            var next := s.pc + |GLoadCode(env.link, name, i)|;
            if status % TWO32 != 0 then Matches(env, code, s0, s, Exit(env, st, st.snap), next, m)
            else Matches(env, code, s0, s, SetVal(st, i, value), next, m)
                 && (SetVal(st, i, value).Running? ==> s.pc + m == next)
  {
    hide Exec, Run, Reaches, Saved, MovImm64, Placed, PlacedButOne, GLoadCode, EnvOk, GuardLinked, Held;
    var k1, k2, k3 := GLoadAt(env.link, code, s.pc, name, i);
    var t := RunGloadArgs(env, code, s0, s, name, i, k1, k2, k3);
    var n := 2 + k1 + k2 + k3;
    var u, junk := RunGloadCall(env, code, s0, s, t, n, st, name, i);
    var (status, value) := env.gload(st.world, name);
    if status % TWO32 == 0 && i >= |st.vals| {
      m := n + 1;
    } else {
      var st' := if status % TWO32 == 0 then st.(vals := st.vals[i := value]) else st;
      m := RunStatusGuard(env, code, s0, s, u, n + 1, st', junk, status, hop, out);
    }
  }

  lemma ExecGstore<W(!new)>(env: Env<W>, t: State<W>, name: U64) returns (u: State<W>)
    requires EnvOk(env) && t.sp % 16 == 0
    requires RegOf(t.x, 9) == Bits(env.link.gstore) && RegOf(t.x, 0) == Ptr(VmR, 0) && RegOf(t.x, 1) == Bits(name)
    ensures var (status, world) := env.gstore(t.world, name, FloatOf(t.d, 0));
            var c := Clobbered(env, t);
            Exec(env, Blr(9), t) == Go(u) && u == c.(world := world, x := c.x[0 := StatusWord(env, t, status)])
  {
    assert env.callee(env.link.gstore) == CGstore;
    hide EnvOk, StatusWord;
    var (status, world) := env.gstore(t.world, name, FloatOf(t.d, 0));
    var c := Clobbered(env, t);
    u := c.(world := world, x := c.x[0 := StatusWord(env, t, status)]);
  }

  lemma GStoreAt(link: Linkage, code: seq<Insn>, p: nat, name: U64, b: nat) returns (k1: nat, k2: nat)
    requires PlacedButOne(code, p, GStoreCode(link, name, b), |GStoreCode(link, name, b)| - 1)
    ensures k1 == |MovImm64(1, name)| && k2 == |MovImm64(9, link.gstore)|
    ensures |GStoreCode(link, name, b)| == 5 + k1 + k2 && p + 5 + k1 + k2 <= |code|
    ensures code[p] == MovReg(0, R_VM) && Placed(code, p + 1, MovImm64(1, name))
    ensures code[p + 1 + k1] == LdrD(0, R_VALS, b)
    ensures Placed(code, p + 2 + k1, MovImm64(9, link.gstore)) && code[p + 2 + k1 + k2] == Blr(9)
    ensures code[p + 3 + k1 + k2] == SubsImmW(ZR, 0, 0)
  {
    hide MovImm64;
    var head, m1, m2 := [MovReg(0, R_VM)], MovImm64(1, name), MovImm64(9, link.gstore);
    var ldr, tail := [LdrD(0, R_VALS, b)], [Blr(9), SubsImmW(ZR, 0, 0)];
    k1, k2 := |m1|, |m2|;
    var block := GStoreCode(link, name, b);
    var most := head + m1 + ldr + m2 + tail;
    assert block == most + [BCond(CC_NE, 0)];
    forall k | 0 <= k < |most| ensures code[p + k] == most[k] {
      assert code[p + k] == block[k];
    }
    PlacedSplit(code, p, head + m1 + ldr + m2, tail);
    PlacedSplit(code, p, head + m1 + ldr, m2);
    PlacedSplit(code, p, head + m1, ldr);
    PlacedSplit(code, p, head, m1);
    assert code[p + 0] == head[0] && code[p + 1 + k1 + 0] == ldr[0];
    assert code[p + 2 + k1 + k2 + 0] == tail[0] && code[p + 2 + k1 + k2 + 1] == tail[1];
  }

  lemma GStoreBlock<W(!new)>(env: Env<W>, code: seq<Insn>, s0: State<W>, s: State<W>, st: VmState<W>, name: U64,
          b: nat, hop: nat, out: nat)
    returns (m: nat)
    requires EnvOk(env) && Sim(s0, s, st) && s0.replayed == None
    requires PlacedButOne(code, s.pc, GStoreCode(env.link, name, b), |GStoreCode(env.link, name, b)| - 1)
    requires |GStoreCode(env.link, name, b)| > 0
    requires GuardLinked(env.link, code, s.pc + |GStoreCode(env.link, name, b)| - 1, CC_NE, st.snap, hop, out)
    ensures m <= |code| - s.pc
    ensures if b >= |st.vals| then Run(env, code, s, m) == Fault
            else var (status, world) := env.gstore(st.world, name, st.vals[b]);
                 var next, st' := s.pc + |GStoreCode(env.link, name, b)|, st.(world := world);
                 if status % TWO32 != 0 then Matches(env, code, s0, s, Exit(env, st', st'.snap), next, m)
                 else s.pc + m == next && Matches(env, code, s0, s, Running(st'), next, m)
  {
    hide Exec, Run, Reaches, Saved, MovImm64, Placed, PlacedButOne, GStoreCode, EnvOk, GuardLinked, StatusWord, Matches;
    var k1, k2 := GStoreAt(env.link, code, s.pc, name, b);
    Start(env, code, s);
    RunMov(env, code, s, s, 0, 0, 19);
    var t1 := WithX(s, 0, RegOf(s.x, 19));
    RunImm(env, code, s, t1, 1, 1, name);
    var t2 := WithImm(t1, 1, name);
    RunLdrVal(env, code, s, t2, 1 + k1, 0, b);
    m := 2 + k1;
    if b < |st.vals| {
      var t3 := WithD(t2, 0, st.vals[b]);
      RunImm(env, code, s, t3, 2 + k1, 9, env.link.gstore);
      var t4 := WithImm(t3, 9, env.link.gstore);
      HeldScratch(s0, s, t4);
      m := GStoreTail(env, code, s0, s, t4, 2 + k1 + k2, st, name, st.vals[b], hop, out);
    }
  }

  lemma GStoreTail<W(!new)>(env: Env<W>, code: seq<Insn>, s0: State<W>, s: State<W>, t: State<W>, n: nat,
                            st: VmState<W>, name: U64, v: U64, hop: nat, out: nat)
    returns (m: nat)
    requires EnvOk(env) && Reaches(env, code, s, t, n) && Sim(s0, t, st) && s0.replayed == None
    requires t.pc + 2 < |code| && code[t.pc] == Blr(9) && code[t.pc + 1] == SubsImmW(ZR, 0, 0)
    requires GuardLinked(env.link, code, t.pc + 2, CC_NE, st.snap, hop, out)
    requires RegOf(t.x, 9) == Bits(env.link.gstore) && RegOf(t.x, 0) == Ptr(VmR, 0) && RegOf(t.x, 1) == Bits(name)
    requires FloatOf(t.d, 0) == v
    ensures m <= n + |code| - t.pc
    ensures var (status, world) := env.gstore(st.world, name, v);
            var st' := st.(world := world);
            if status % TWO32 != 0 then Matches(env, code, s0, s, Exit(env, st', st'.snap), t.pc + 3, m)
            else m == n + 3 && Matches(env, code, s0, s, Running(st'), t.pc + 3, m)
  {
    hide Run, Reaches, EnvOk, Saved, GuardLinked, StatusWord, Exec, Matches;
    assert t.sp % 16 == 0;
    var u := ExecGstore(env, t, name);
    HeldAcrossCall(env, s0, t);
    hide Held;
    var (status, world) := env.gstore(st.world, name, v);
    var junk := StatusWordBits(env, t, status);
    Advance(env, code, s, t, n, Blr(9), u);
    HeldScratch(s0, Clobbered(env, t), u);
    m := RunStatusGuard(env, code, s0, s, u, n + 1, st.(world := world), junk, status, hop, out);
  }
}
