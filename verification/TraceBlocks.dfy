/** Each emitted block does what its IR instruction does. */
module TraceBlocks {
  import opened Basics
  import opened A64
  import opened A64Machine
  import opened TraceIr
  import opened TraceCode
  import opened TraceRun
  import opened TraceFrame

  /** m steps from s do what outcome o says: go on at `next`, return, or fault. */
  ghost predicate Matches<W>(env: Env<W>, code: seq<Insn>, s0: State<W>, s: State<W>, o: Outcome<W>, next: nat,
          m: nat) {
    match o
    case Crash => Run(env, code, s, m) == Fault
    case Running(st) => Run(env, code, s, m).Go? && Run(env, code, s, m).s.pc == next
      && Sim(s0, Run(env, code, s, m).s, st)
    case LoopDone(st) => Left(s0, Run(env, code, s, m), 0, st, None)
    case GuardFailed(st, snap) => Left(s0, Run(env, code, s, m), 1, st, Some(snap))
  }

  /** The branch at p reaches a stub for `snap`, and the stub reaches the common side exit. */
  ghost predicate GuardLinked(link: Linkage, code: seq<Insn>, p: nat, cond: nat, snap: nat, hop: nat, out: nat) {
    && 1 <= hop < 0x4_0000 && 1 <= out < TWO26 / 2 && p + hop + 1 < |code| && snap < TWO16
    && code[p] == BCond(cond, hop)
    && code[p + hop] == MovzW(9, snap) && code[p + hop + 1] == B(out)
    && Placed(code, p + hop + 1 + out, CommonCode(link))
  }

  lemma RunGuard<W(!new)>(env: Env<W>, code: seq<Insn>, s0: State<W>, s: State<W>, t: State<W>, n: nat,
                          st: VmState<W>, cond: nat, snap: nat, hop: nat, out: nat)
    returns (m: nat)
    requires EnvOk(env) && Reaches(env, code, s, t, n) && Sim(s0, t, st)
    requires GuardLinked(env.link, code, t.pc, cond, snap, hop, out)
    ensures if Holds(cond, t.flags)
            then m <= n + |code| - t.pc && Left(s0, Run(env, code, s, m), 1, Exit(env, st, snap).st, Some(snap))
            else m == n + 1 && Reaches(env, code, s, t.(pc := t.pc + 1), m)
  {
    hide Run, Reaches, EnvOk, Saved, Holds, CommonCode;
    var u := RunBCond(env, code, s, t, n, cond, hop);
    if Holds(cond, t.flags) {
      m := RunExit(env, code, s0, s, u, n + 1, st, snap, out);
      m := n + 1 + m;
    } else {
      m := n + 1;
    }
  }

  /** Scratch registers and flags are free. */
  lemma HeldScratch<W>(s0: State<W>, t: State<W>, u: State<W>)
    requires Held(s0, t) && u.sp == t.sp && u.stack == t.stack && u.replayed == t.replayed
    requires forall r :: 19 <= r <= 28 ==> u.x[r] == t.x[r]
    requires forall r :: 8 <= r <= 15 ==> u.d[r] == t.d[r]
    ensures Held(s0, u)
  {
    hide Saved;
  }

  /** The last instruction of a block that writes vals[i]. */
  lemma RunSetVal<W>(env: Env<W>, code: seq<Insn>, s0: State<W>, s: State<W>, t: State<W>, n: nat, st: VmState<W>,
          ins: Insn, i: nat, v: U64)
    requires Reaches(env, code, s, t, n) && Sim(s0, t, st)
    requires || (ins == StrD(0, R_VALS, i) && FloatOf(t.d, 0) == v)
             || (ins == StrX(9, R_VALS, i) && RegOf(t.x, 9) == Bits(v))
    requires t.pc < |code| && code[t.pc] == ins
    ensures Matches(env, code, s0, s, SetVal(st, i, v), t.pc + 1, n + 1)
  {
    hide Run, Saved;
    RunStrVal(env, code, s, t, n, ins, i, v);
    if i < |t.vals| {
      assert Run(env, code, s, n + 1) == Go(WithVal(t, i, v));
    }
  }

  lemma KBlock<W>(env: Env<W>, code: seq<Insn>, s0: State<W>, s: State<W>, st: VmState<W>, i: nat, v: U64)
    requires Sim(s0, s, st) && Placed(code, s.pc, MovImm64(9, v) + [StrX(9, R_VALS, i)])
    ensures var m := |MovImm64(9, v)| + 1; Matches(env, code, s0, s, SetVal(st, i, v), s.pc + m, m)
  {
    hide Run, Reaches, Saved, MovImm64, Matches;
    var imm := MovImm64(9, v);
    PlacedSplit(code, s.pc, imm, [StrX(9, R_VALS, i)]);
    assert code[s.pc + |imm| + 0] == [StrX(9, R_VALS, i)][0];
    hide Placed;
    Start(env, code, s);
    RunImm(env, code, s, s, 0, 9, v);
    RunSetVal(env, code, s0, s, WithImm(s, 9, v), |imm|, st, StrX(9, R_VALS, i), i, v);
  }

  lemma TwoLoads<W>(env: Env<W>, code: seq<Insn>, s0: State<W>, s: State<W>, st: VmState<W>, a: nat,
          b: nat) returns (t: State<W>, m: nat)
    requires Sim(s0, s, st) && s.pc + 1 < |code|
    requires code[s.pc] == LdrD(0, R_VALS, a) && code[s.pc + 1] == LdrD(1, R_VALS, b)
    ensures m <= 2
    ensures if a < |st.vals| && b < |st.vals|
            then m == 2 && Reaches(env, code, s, t, 2) && Sim(s0, t, st) && t == s.(d := t.d, pc := s.pc + 2)
                 && FloatOf(t.d, 0) == st.vals[a] && FloatOf(t.d, 1) == st.vals[b]
            else Run(env, code, s, m) == Fault
  {
    hide Run, Reaches, Saved;
    Start(env, code, s);
    RunLdrVal(env, code, s, s, 0, 0, a);
    m := 1;
    t := s;
    if a < |st.vals| {
      var t1 := WithD(s, 0, st.vals[a]);
      RunLdrVal(env, code, s, t1, 1, 1, b);
      m := 2;
      if b < |st.vals| {
        t := WithD(t1, 1, st.vals[b]);
      }
    }
  }

  lemma ExecArith<W>(env: Env<W>, op: Op, t: State<W>)
    requires IsArith(op)
    ensures Exec(env, ArithInsn(op), t) == Go(WithD(t, 0, Arith(env, op, FloatOf(t.d, 0), FloatOf(t.d, 1))))
  {}

  lemma ArithBlock<W>(env: Env<W>, code: seq<Insn>, s0: State<W>, s: State<W>, st: VmState<W>, op: Op, a: nat, b: nat,
          i: nat)
    returns (m: nat)
    requires Sim(s0, s, st) && IsArith(op)
    requires Placed(code, s.pc, [LdrD(0, R_VALS, a), LdrD(1, R_VALS, b), ArithInsn(op), StrD(0, R_VALS, i)])
    ensures m <= 4
    ensures if a < |st.vals| && b < |st.vals|
            then m == 4 && Matches(env, code, s0, s, SetVal(st, i, Arith(env, op, st.vals[a], st.vals[b])), s.pc + 4, 4)
            else Run(env, code, s, m) == Fault
  {
    hide Run, Saved, Matches, Exec, Reaches, ArithInsn, Arith, Held, SetVal;
    var block := [LdrD(0, R_VALS, a), LdrD(1, R_VALS, b), ArithInsn(op), StrD(0, R_VALS, i)];
    assert code[s.pc + 0] == block[0] && code[s.pc + 1] == block[1] && code[s.pc + 2] == block[2]
      && code[s.pc + 3] == block[3];
    hide Placed;
    var t;
    t, m := TwoLoads(env, code, s0, s, st, a, b);
    if a < |st.vals| && b < |st.vals| {
      var v := Arith(env, op, st.vals[a], st.vals[b]);
      ExecArith(env, op, t);
      Advance(env, code, s, t, 2, ArithInsn(op), WithD(t, 0, v));
      HeldScratch(s0, t, WithD(t, 0, v));
      RunSetVal(env, code, s0, s, WithD(t, 0, v), 3, st, StrD(0, R_VALS, i), i, v);
      m := 4;
    }
  }

  lemma ExecNeg<W>(env: Env<W>, t: State<W>)
    ensures Exec(env, Fneg(0, 0), t) == Go(WithD(t, 0, Negate(FloatOf(t.d, 0))))
  {}

  lemma NegBlock<W>(env: Env<W>, code: seq<Insn>, s0: State<W>, s: State<W>, st: VmState<W>, a: nat,
          i: nat) returns (m: nat)
    requires Sim(s0, s, st)
    requires Placed(code, s.pc, [LdrD(0, R_VALS, a), Fneg(0, 0), StrD(0, R_VALS, i)])
    ensures m <= 3
    ensures if a < |st.vals|
            then m == 3 && Matches(env, code, s0, s, SetVal(st, i, Negate(st.vals[a])), s.pc + 3, 3)
            else Run(env, code, s, m) == Fault
  {
    hide Run, Saved, Matches, Exec, Reaches, Negate;
    var block := [LdrD(0, R_VALS, a), Fneg(0, 0), StrD(0, R_VALS, i)];
    assert code[s.pc + 0] == block[0] && code[s.pc + 1] == block[1] && code[s.pc + 2] == block[2];
    hide Placed;
    Start(env, code, s);
    RunLdrVal(env, code, s, s, 0, 0, a);
    m := 1;
    if a < |st.vals| {
      var t := WithD(s, 0, st.vals[a]);
      ExecNeg(env, t);
      var u := WithD(t, 0, Negate(st.vals[a]));
      Advance(env, code, s, t, 1, Fneg(0, 0), u);
      RunSetVal(env, code, s0, s, u, 2, st, StrD(0, R_VALS, i), i, Negate(st.vals[a]));
      m := 3;
    }
  }

  // ----- comparisons -----

  /** The condition code read from fcmp's flags is the IEEE comparison, NaNs included. */
  lemma CondMeansCompare(op: Op, o: Order)
    requires IsCompare(op)
    ensures Holds(CondOf(op), FloatFlags(o)) == Compare(op, o)
  {
    match o case Less => case Equal => case Greater => case Unordered =>
  }

  lemma ExecFcmp<W>(env: Env<W>, t: State<W>, m: nat)
    requires m < 2
    ensures Exec(env, Fcmp(0, m), t)
            == Go(t.(flags := FloatFlags(env.cmp(FloatOf(t.d, 0), FloatOf(t.d, m))), pc := t.pc + 1))
  {}

  lemma ExecCset<W>(env: Env<W>, t: State<W>, op: Op)
    requires IsCompare(op)
    ensures Exec(env, Cset(9, CondOf(op)), t) == Go(WithX(t, 9, Bits(if Holds(CondOf(op), t.flags) then 1 else 0)))
  {
    hide Exec;
    var c := CondOf(op);
    var not := if c % 2 == 0 then c + 1 else c - 1;
    ExecCsinc(env, t, not);
    assert Holds(not, t.flags) == !Holds(c, t.flags);
  }

  lemma ExecCsinc<W>(env: Env<W>, t: State<W>, c: nat)
    ensures Exec(env, Csinc(9, ZR, ZR, c), t) == Go(WithX(t, 9, Bits(if Holds(c, t.flags) then 0 else 1)))
  {
    hide Holds;
  }

  lemma ExecScvtf<W>(env: Env<W>, t: State<W>)
    requires RegOf(t.x, 9).Bits?
    ensures Exec(env, Scvtf(0, 9), t) == Go(WithD(t, 0, env.ofInt(RegOf(t.x, 9).b % TWO32)))
  {}

  lemma SixAt(code: seq<Insn>, p: nat, a: Insn, b: Insn, c: Insn, d: Insn, e: Insn, f: Insn)
    requires Placed(code, p, [a, b, c, d, e, f])
    ensures p + 6 <= |code| && code[p] == a && code[p + 1] == b && code[p + 2] == c
    ensures code[p + 3] == d && code[p + 4] == e && code[p + 5] == f
  {
    var s := [a, b, c, d, e, f];
    assert code[p + 0] == s[0] && code[p + 1] == s[1] && code[p + 2] == s[2]
        && code[p + 3] == s[3] && code[p + 4] == s[4] && code[p + 5] == s[5];
  }

  /** fcmp, cset and scvtf turn the two loaded doubles into 1.0 or 0.0. */
  lemma RunCompare<W(!new)>(env: Env<W>, code: seq<Insn>, s: State<W>, t: State<W>, n: nat,
          op: Op) returns (u: State<W>)
    requires EnvOk(env) && Reaches(env, code, s, t, n) && IsCompare(op) && t.pc + 2 < |code|
    requires code[t.pc] == Fcmp(0, 1) && code[t.pc + 1] == Cset(9, CondOf(op)) && code[t.pc + 2] == Scvtf(0, 9)
    ensures Reaches(env, code, s, u, n + 3)
    ensures var yes := Compare(op, env.cmp(FloatOf(t.d, 0), FloatOf(t.d, 1)));
            u == t.(x := t.x[9 := Bits(if yes then 1 else 0)], d := t.d[0 := if yes then ONE_BITS else 0],
                    flags := u.flags, pc := t.pc + 3)
  {
    hide Run, Exec, Reaches, Cset, CondOf, Compare, Holds, FloatFlags;
    assert env.ofInt(0) == 0 && env.ofInt(1) == ONE_BITS;
    hide EnvOk;
    var o := env.cmp(FloatOf(t.d, 0), FloatOf(t.d, 1));
    var yes := Compare(op, o);
    ExecFcmp(env, t, 1);
    var t1 := t.(flags := FloatFlags(o), pc := t.pc + 1);
    Advance(env, code, s, t, n, Fcmp(0, 1), t1);
    CondMeansCompare(op, o);
    ExecCset(env, t1, op);
    var t2 := WithX(t1, 9, Bits(if yes then 1 else 0));
    Advance(env, code, s, t1, n + 1, Cset(9, CondOf(op)), t2);
    ExecScvtf(env, t2);
    u := WithD(t2, 0, if yes then ONE_BITS else 0);
    Advance(env, code, s, t2, n + 2, Scvtf(0, 9), u);
  }

  lemma CompareBlock<W(!new)>(env: Env<W>, code: seq<Insn>, s0: State<W>, s: State<W>, st: VmState<W>, op: Op, a: nat,
          b: nat, i: nat)
    returns (m: nat)
    requires EnvOk(env) && Sim(s0, s, st) && IsCompare(op)
    requires Placed(code, s.pc,
             [LdrD(0, R_VALS, a), LdrD(1, R_VALS, b), Fcmp(0, 1), Cset(9, CondOf(op)), Scvtf(0, 9), StrD(0, R_VALS, i)])
    ensures m <= 6
    ensures if a < |st.vals| && b < |st.vals|
            then m == 6 && Matches(env, code, s0, s,
                             SetVal(st, i, if Compare(op, env.cmp(st.vals[a], st.vals[b])) then ONE_BITS else 0),
                               s.pc + 6, 6)
            else Run(env, code, s, m) == Fault
  {
    hide Run, Saved, Matches, Exec, Reaches, Cset, CondOf, Compare, EnvOk, Placed, Held, SetVal;
    SixAt(code, s.pc, LdrD(0, R_VALS, a), LdrD(1, R_VALS, b), Fcmp(0, 1), Cset(9, CondOf(op)), Scvtf(0, 9),
      StrD(0, R_VALS, i));
    var t;
    t, m := TwoLoads(env, code, s0, s, st, a, b);
    if a < |st.vals| && b < |st.vals| {
      var u := RunCompare(env, code, s, t, 2, op);
      HeldScratch(s0, t, u);
      RunSetVal(env, code, s0, s, u, 5, st, StrD(0, R_VALS, i), i,
                if Compare(op, env.cmp(st.vals[a], st.vals[b])) then ONE_BITS else 0);
      m := 6;
    }
  }

  // ----- slots -----

  lemma SStoreAt(code: seq<Insn>, p: nat, slot: nat, b: nat)
    requires Placed(code, p, SStoreCode(slot, b))
    ensures |SStoreCode(slot, b)| == 8 && p + 8 <= |code| && |MovImm64(9, NB_CANON_NAN)| == 2
    ensures code[p] == LdrD(0, R_VALS, b) && code[p + 1] == Fcmp(0, 0) && code[p + 2] == BCond(CC_VC, 5)
    ensures Placed(code, p + 3, MovImm64(9, NB_CANON_NAN))
    ensures code[p + 5] == StrX(9, R_FS, slot) && code[p + 6] == B(2) && code[p + 7] == StrD(0, R_FS, slot)
  {
    var head, imm, tail := [LdrD(0, R_VALS, b), Fcmp(0, 0), BCond(CC_VC, 5)], MovImm64(9, NB_CANON_NAN),
                           [StrX(9, R_FS, slot), B(2), StrD(0, R_FS, slot)];
    assert |imm| == 2;
    hide MovImm64;
    PlacedSplit(code, p, head + imm, tail);
    PlacedSplit(code, p, head, imm);
    assert code[p + 0] == head[0] && code[p + 1] == head[1] && code[p + 2] == head[2];
    assert code[p + 5 + 0] == tail[0] && code[p + 5 + 1] == tail[1] && code[p + 5 + 2] == tail[2];
  }

  /** b.vc after fcmp d0,d0 skips the canonicalisation exactly for the values that are not NaN. */
  lemma ClearVMeansOrdered<W(!new)>(env: Env<W>, v: U64)
    requires EnvOk(env)
    ensures Holds(CC_VC, FloatFlags(env.cmp(v, v))) <==> !IsNaN(v)
  {
    assert env.cmp(v, v) == Unordered <==> IsNaN(v);
    hide EnvOk, IsNaN;
  }

  lemma SStoreBlock<W(!new)>(env: Env<W>, code: seq<Insn>, s0: State<W>, s: State<W>, st: VmState<W>, slot: nat,
          b: nat) returns (m: nat)
    requires EnvOk(env) && Sim(s0, s, st) && Placed(code, s.pc, SStoreCode(slot, b))
    ensures m <= 8 && |SStoreCode(slot, b)| == 8
    ensures if b < |st.vals| && slot < |st.slots|
            then Matches(env, code, s0, s, Running(st.(slots := st.slots[slot := Box(st.vals[b])])), s.pc + 8, m)
            else Run(env, code, s, m) == Fault
  {
    hide Run, Saved, Exec, Reaches, FloatFlags, Holds, EnvOk, Placed, IsNaN, SStoreCode, MovImm64;
    SStoreAt(code, s.pc, slot, b);
    Start(env, code, s);
    RunLdrVal(env, code, s, s, 0, 0, b);
    m := 1;
    if b < |st.vals| {
      var v := st.vals[b];
      var t1 := WithD(s, 0, v);
      ExecFcmp(env, t1, 0);
      var t2 := t1.(flags := FloatFlags(env.cmp(v, v)), pc := t1.pc + 1);
      Advance(env, code, s, t1, 1, Fcmp(0, 0), t2);
      ClearVMeansOrdered(env, v);
      var t3 := RunBCond(env, code, s, t2, 2, CC_VC, 5);
      if IsNaN(v) {
        m := StoreCanonical(env, code, s0, s, t3, st, slot);
      } else {
        RunStrSlot(env, code, s, t3, 3, StrD(0, R_FS, slot), slot, v);
        m := 4;
        if slot < |st.slots| {
          MatchSlot(env, code, s0, s, WithSlot(t3, slot, v), st, slot, v, 4);
        }
      }
    }
  }

  lemma MatchSlot<W>(env: Env<W>, code: seq<Insn>, s0: State<W>, s: State<W>, t: State<W>, st: VmState<W>, slot: nat,
          v: U64, m: nat)
    requires Reaches(env, code, s, t, m) && slot < |st.slots| && Held(s0, t)
    requires t.vals == st.vals && t.slots == st.slots[slot := v] && t.world == st.world && t.pc == s.pc + 8
    ensures Matches(env, code, s0, s, Running(st.(slots := st.slots[slot := v])), s.pc + 8, m)
  {
    hide Run, Held;
  }

  lemma StoreCanonical<W>(env: Env<W>, code: seq<Insn>, s0: State<W>, s: State<W>, t: State<W>, st: VmState<W>,
          slot: nat) returns (m: nat)
    requires Reaches(env, code, s, t, 3) && Sim(s0, t, st) && t.pc == s.pc + 3 && s.pc + 8 <= |code|
    requires Placed(code, s.pc + 3, MovImm64(9, NB_CANON_NAN)) && |MovImm64(9, NB_CANON_NAN)| == 2
    requires code[s.pc + 5] == StrX(9, R_FS, slot) && code[s.pc + 6] == B(2)
    ensures m <= 8
    ensures if slot < |st.slots|
            then Matches(env, code, s0, s, Running(st.(slots := st.slots[slot := NB_CANON_NAN])), s.pc + 8, m)
            else Run(env, code, s, m) == Fault
  {
    hide Run, Saved, Exec, Reaches, Placed, MovImm64, Matches;
    RunImm(env, code, s, t, 3, 9, NB_CANON_NAN);
    var t5 := WithImm(t, 9, NB_CANON_NAN);
    RunStrSlot(env, code, s, t5, 5, StrX(9, R_FS, slot), slot, NB_CANON_NAN);
    m := 6;
    if slot < |st.slots| {
      var t6 := RunB(env, code, s, WithSlot(t5, slot, NB_CANON_NAN), 6, 2);
      MatchSlot(env, code, s0, s, t6, st, slot, NB_CANON_NAN, 7);
      m := 7;
    }
  }

  lemma ExecTypeCheck<W>(env: Env<W>, t: State<W>, v: U64, w: U64)
    requires RegOf(t.x, 10) == Bits(NB_MASK)
    ensures RegOf(t.x, 9) == Bits(v) ==> Exec(env, AndReg(11, 9, 10), t) == Go(WithX(t, 11, Bits(BitAnd(v, NB_MASK))))
    ensures RegOf(t.x, 11) == Bits(w) ==>
              Exec(env, SubsReg(31, 11, 10), t) == Go(t.(flags := SubFlags(w, NB_MASK, TWO64), pc := t.pc + 1))
  {
    hide BitAnd, SubFlags;
  }

  /** The type check of SLOAD: x11 = bits & NB_MASK, compared with NB_MASK. */
  lemma RunTypeCheck<W>(env: Env<W>, code: seq<Insn>, s: State<W>, t: State<W>, n: nat, v: U64) returns (u: State<W>)
    requires Reaches(env, code, s, t, n) && t.pc + 1 < |code|
    requires code[t.pc] == AndReg(11, 9, 10) && code[t.pc + 1] == SubsReg(ZR, 11, 10)
    requires RegOf(t.x, 9) == Bits(v) && RegOf(t.x, 10) == Bits(NB_MASK)
    ensures Reaches(env, code, s, u, n + 2)
    ensures u == t.(x := t.x[11 := Bits(BitAnd(v, NB_MASK))], flags := u.flags, pc := t.pc + 2)
    ensures Holds(CC_EQ, u.flags) <==> !IsNumber(v)
  {
    hide Exec, Run, Reaches, BitAnd;
    var w := BitAnd(v, NB_MASK);
    var t1 := WithX(t, 11, Bits(w));
    u := t1.(flags := SubFlags(w, NB_MASK, TWO64), pc := t1.pc + 1);
    ExecTypeCheck(env, t, v, w);
    ExecTypeCheck(env, t1, v, w);
    Advance(env, code, s, t, n, AndReg(11, 9, 10), t1);
    Advance(env, code, s, t1, n + 1, SubsReg(31, 11, 10), u);
  }

  /** A block whose guard branch has been patched. */
  ghost predicate PlacedButOne(code: seq<Insn>, p: nat, block: seq<Insn>, k: nat) {
    p + |block| <= |code| && forall j :: 0 <= j < |block| && j != k ==> code[p + j] == block[j]
  }

  lemma SLoadAt(code: seq<Insn>, p: nat, slot: nat, i: nat)
    requires PlacedButOne(code, p, SLoadCode(slot, i), |SLoadCode(slot, i)| - 2)
    ensures |SLoadCode(slot, i)| == 7 && p + 7 <= |code| && |MovImm64(10, NB_MASK)| == 2
    ensures code[p] == LdrX(9, R_FS, slot) && Placed(code, p + 1, MovImm64(10, NB_MASK))
    ensures code[p + 3] == AndReg(11, 9, 10) && code[p + 4] == SubsReg(ZR, 11, 10) && code[p + 6] == StrX(9, R_VALS, i)
  {
    var imm, block := MovImm64(10, NB_MASK), SLoadCode(slot, i);
    assert |imm| == 2;
    hide MovImm64;
    assert block == [LdrX(9, R_FS, slot)] + imm + [AndReg(11, 9, 10), SubsReg(ZR, 11, 10), BCond(CC_EQ, 0),
      StrX(9, R_VALS, i)];
    assert code[p + 0] == block[0] && code[p + 1] == block[1] && code[p + 2] == block[2] && code[p + 3] == block[3]
        && code[p + 4] == block[4] && code[p + 6] == block[6];
    assert block[1] == imm[0] && block[2] == imm[1];
  }

  lemma SLoadBlock<W(!new)>(env: Env<W>, code: seq<Insn>, s0: State<W>, s: State<W>, st: VmState<W>, slot: nat, i: nat,
          hop: nat, out: nat)
    returns (m: nat)
    requires EnvOk(env) && Sim(s0, s, st) && s0.replayed == None
    requires PlacedButOne(code, s.pc, SLoadCode(slot, i), |SLoadCode(slot, i)| - 2)
    requires GuardLinked(env.link, code, s.pc + |SLoadCode(slot, i)| - 2, CC_EQ, st.snap, hop, out)
    ensures s.pc + |SLoadCode(slot, i)| <= |code| && m <= |code| - s.pc
    ensures if slot >= |st.slots| then Run(env, code, s, m) == Fault
            else if !IsNumber(st.slots[slot]) then Matches(env, code, s0, s, Exit(env, st, st.snap),
              s.pc + |SLoadCode(slot, i)|, m)
            else m == |SLoadCode(slot, i)| && Matches(env, code, s0, s, SetVal(st, i, st.slots[slot]), s.pc + m, m)
  {
    hide Run, Saved, Exec, Reaches, Placed, PlacedButOne, EnvOk, SLoadCode, MovImm64, BitAnd, IsNumber, GuardLinked,
      Holds;
    SLoadAt(code, s.pc, slot, i);
    Start(env, code, s);
    RunLdrSlot(env, code, s, s, 0, slot);
    m := 1;
    if slot < |st.slots| {
      var v := st.slots[slot];
      var t1 := WithX(s, 9, Bits(v));
      RunImm(env, code, s, t1, 1, 10, NB_MASK);
      var t2 := WithImm(t1, 10, NB_MASK);
      var t3 := RunTypeCheck(env, code, s, t2, 3, v);
      m := RunGuard(env, code, s0, s, t3, 5, st, CC_EQ, st.snap, hop, out);
      if IsNumber(v) {
        RunSetVal(env, code, s0, s, t3.(pc := t3.pc + 1), 6, st, StrX(9, R_VALS, i), i, v);
        m := 7;
      }
    }
  }

  // ----- boolean guards -----

  lemma ExecFcmpZero<W>(env: Env<W>, t: State<W>)
    ensures Exec(env, FcmpZero(0), t) == Go(t.(flags := FloatFlags(env.cmp(FloatOf(t.d, 0), 0)), pc := t.pc + 1))
  {}

  lemma GuardBlock<W(!new)>(env: Env<W>, code: seq<Insn>, s0: State<W>, s: State<W>, st: VmState<W>, a: nat, snap: nat,
          want: bool, hop: nat, out: nat)
    returns (m: nat)
    requires EnvOk(env) && Sim(s0, s, st) && s0.replayed == None && s.pc + 3 <= |code|
    requires code[s.pc] == LdrD(0, R_VALS, a) && code[s.pc + 1] == FcmpZero(0)
    requires GuardLinked(env.link, code, s.pc + 2, if want then CC_EQ else CC_NE, snap % TWO16, hop, out)
    ensures m <= |code| - s.pc
    ensures Matches(env, code, s0, s, EvalGuard(env, st, a, snap, want), s.pc + 3, m)
    ensures EvalGuard(env, st, a, snap, want).Running? ==> m == 3
  {
    hide Run, Saved, Exec, Reaches, EnvOk, GuardLinked;
    Start(env, code, s);
    RunLdrVal(env, code, s, s, 0, 0, a);
    m := 1;
    if a < |st.vals| {
      var o := env.cmp(st.vals[a], 0);
      var t1 := WithD(s, 0, st.vals[a]);
      ExecFcmpZero(env, t1);
      var t2 := t1.(flags := FloatFlags(o), pc := t1.pc + 1);
      Advance(env, code, s, t1, 1, FcmpZero(0), t2);
      var cond := if want then CC_EQ else CC_NE;
      assert Holds(cond, FloatFlags(o)) == (o.Equal? == want);
      hide Holds, FloatFlags;
      m := RunGuard(env, code, s0, s, t2, 2, st, cond, snap % TWO16, hop, out);
      if o.Equal? != want {
        MatchRunning(env, code, s0, s, t2.(pc := t2.pc + 1), st.(snap := snap % TWO16), 3);
      }
    }
  }

  lemma MatchRunning<W>(env: Env<W>, code: seq<Insn>, s0: State<W>, s: State<W>, t: State<W>, st: VmState<W>, m: nat)
    requires Reaches(env, code, s, t, m) && Sim(s0, t, st)
    ensures Matches(env, code, s0, s, Running(st), t.pc, m)
  {
    hide Run, Held;
  }
}
