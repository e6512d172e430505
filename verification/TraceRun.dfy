/** Straight-line execution: how the fixed parts of a trace function (immediate loads, prologue,
    epilogue, side exit) run on the machine. */
module TraceRun {
  import opened A64
  import opened A64Machine
  import opened TraceCode

  /** n steps lead from s to t. */
  ghost predicate Reaches<W>(env: Env<W>, code: seq<Insn>, s: State<W>, t: State<W>, n: nat) {
    Run(env, code, s, n) == Go(t)
  }

  ghost predicate Placed(code: seq<Insn>, p: nat, block: seq<Insn>) {
    p + |block| <= |code| && forall k :: 0 <= k < |block| ==> code[p + k] == block[k]
  }

  lemma Start<W>(env: Env<W>, code: seq<Insn>, s: State<W>)
    ensures Reaches(env, code, s, s, 0)
  {}

  lemma Chain<W>(env: Env<W>, code: seq<Insn>, s: State<W>, t: State<W>, m: nat, n: nat)
    requires Reaches(env, code, s, t, m)
    ensures Run(env, code, s, m + n) == Run(env, code, t, n)
  {
    hide Step;
    IterateAdd(Stepper(env, code), s, m, n);
  }

  lemma OneStep<W>(env: Env<W>, code: seq<Insn>, t: State<W>)
    requires t.pc < |code|
    ensures Run(env, code, t, 1) == Exec(env, code[t.pc], t)
  {
    hide Exec;
    var step := Stepper(env, code);
    assert step(t) == Exec(env, code[t.pc], t);
    match step(t)
    case Go(u) => assert Iterate(step, u, 0) == Go(u);
    case _ =>
  }

  /** One more instruction. */
  lemma Advance<W>(env: Env<W>, code: seq<Insn>, s: State<W>, t: State<W>, n: nat, i: Insn, u: State<W>)
    requires Reaches(env, code, s, t, n)
    requires t.pc < |code| && code[t.pc] == i && Exec(env, i, t) == Go(u)
    ensures Reaches(env, code, s, u, n + 1)
  {
    hide Exec;
    Chain(env, code, s, t, n, 1);
    OneStep(env, code, t);
  }

  /** One more instruction, which faults or returns. */
  lemma Stop<W>(env: Env<W>, code: seq<Insn>, s: State<W>, t: State<W>, n: nat, i: Insn)
    requires Reaches(env, code, s, t, n)
    requires t.pc < |code| && code[t.pc] == i
    ensures Run(env, code, s, n + 1) == Exec(env, i, t)
  {
    hide Exec;
    Chain(env, code, s, t, n, 1);
    OneStep(env, code, t);
  }

  // ----- 64-bit immediates -----

  /** One optional movk. */
  lemma RunMovk<W>(env: Env<W>, code: seq<Insn>, s: State<W>, t: State<W>, n: nat, d: nat, hw: nat,
          v: U64) returns (u: State<W>)
    requires Reaches(env, code, s, t, n) && d < 31 && 1 <= hw < 4
    requires Placed(code, t.pc, MovkIf(d, hw, v)) && t.x[d].Bits? && Lane(t.x[d].b, hw) == 0
    ensures u == t.(x := t.x[d := Bits(Insert16(t.x[d].b, hw, Lane(v, hw)))], pc := t.pc + |MovkIf(d, hw, v)|)
    ensures Reaches(env, code, s, u, n + |MovkIf(d, hw, v)|)
  {
    var was := t.x[d].b;
    u := t.(x := t.x[d := Bits(Insert16(was, hw, Lane(v, hw)))], pc := t.pc + |MovkIf(d, hw, v)|);
    if Lane(v, hw) != 0 {
      assert code[t.pc + 0] == MovkIf(d, hw, v)[0];
      assert Exec(env, Movk(d, hw, Lane(v, hw)), t) == Go(u);
      hide Exec;
      Advance(env, code, s, t, n, Movk(d, hw, Lane(v, hw)), u);
    } else {
      JoinLanes(was);
      assert u == t;
    }
  }

  lemma PlacedSplit(code: seq<Insn>, p: nat, a: seq<Insn>, b: seq<Insn>)
    requires Placed(code, p, a + b)
    ensures Placed(code, p, a) && Placed(code, p + |a|, b)
  {
    forall k | 0 <= k < |a| ensures code[p + k] == a[k] {
      assert (a + b)[k] == a[k];
    }
    forall k | 0 <= k < |b| ensures code[p + |a| + k] == b[k] {
      assert (a + b)[|a| + k] == b[k];
    }
  }

  function WithImm<W>(t: State<W>, d: nat, v: U64): State<W>
    requires d < 31
  {
    t.(x := t.x[d := Bits(v)], pc := t.pc + |MovImm64(d, v)|)
  }

  lemma InsertLanes(v: U64, v0: U64, v1: U64, v2: U64)
    requires v0 == Insert16(0, 0, Lane(v, 0)) && v1 == Insert16(v0, 1, Lane(v, 1)) && v2 == Insert16(v1, 2, Lane(v, 2))
    ensures Lane(v0, 1) == 0 && Lane(v1, 2) == 0 && Lane(v2, 3) == 0
    ensures Insert16(v2, 3, Lane(v, 3)) == v
  {
    var a, b, c := Lane(v, 0), Lane(v, 1), Lane(v, 2);
    LaneJoin(0, 0, 0, 0);
    LaneJoin(a, 0, 0, 0);
    LaneJoin(a, b, 0, 0);
    LaneJoin(a, b, c, 0);
    JoinLanes(v);
    assert Lane(0, 0) == Lane(0, 1) == Lane(0, 2) == Lane(0, 3) == 0;
    hide Lane, Join;
  }

  lemma RunMovz<W>(env: Env<W>, code: seq<Insn>, s: State<W>, t: State<W>, n: nat, d: nat, m: U16) returns (u: State<W>)
    requires Reaches(env, code, s, t, n) && d < 31 && Placed(code, t.pc, [Movz(d, 0, m)])
    ensures u == t.(x := t.x[d := Bits(Insert16(0, 0, m))], pc := t.pc + 1)
    ensures Reaches(env, code, s, u, n + 1)
  {
    u := t.(x := t.x[d := Bits(Insert16(0, 0, m))], pc := t.pc + 1);
    assert code[t.pc + 0] == [Movz(d, 0, m)][0];
    assert Exec(env, Movz(d, 0, m), t) == Go(u);
    hide Exec;
    Advance(env, code, s, t, n, Movz(d, 0, m), u);
  }

  lemma PlacedImm(code: seq<Insn>, p: nat, d: nat, v: U64)
    requires Placed(code, p, MovImm64(d, v))
    ensures var k1, k2, k3 := MovkIf(d, 1, v), MovkIf(d, 2, v), MovkIf(d, 3, v);
            && |MovImm64(d, v)| == 1 + |k1| + |k2| + |k3|
            && Placed(code, p, [Movz(d, 0, Lane(v, 0))]) && Placed(code, p + 1, k1)
            && Placed(code, p + 1 + |k1|, k2) && Placed(code, p + 1 + |k1| + |k2|, k3)
  {
    hide MovkIf, Lane;
    var z := [Movz(d, 0, Lane(v, 0))];
    var k1, k2, k3 := MovkIf(d, 1, v), MovkIf(d, 2, v), MovkIf(d, 3, v);
    assert MovImm64(d, v) == z + k1 + k2 + k3;
    hide *;
    PlacedSplit(code, p, z + k1 + k2, k3);
    PlacedSplit(code, p, z + k1, k2);
    PlacedSplit(code, p, z, k1);
  }

  /** The movz/movk sequence leaves exactly v in register d. */
  lemma RunImm<W>(env: Env<W>, code: seq<Insn>, s: State<W>, t: State<W>, n: nat, d: nat, v: U64)
    requires Reaches(env, code, s, t, n) && d < 31
    requires Placed(code, t.pc, MovImm64(d, v))
    ensures Reaches(env, code, s, WithImm(t, d, v), n + |MovImm64(d, v)|)
  {
    hide *;
    var z := [Movz(d, 0, Lane(v, 0))];
    var k1, k2, k3 := MovkIf(d, 1, v), MovkIf(d, 2, v), MovkIf(d, 3, v);
    PlacedImm(code, t.pc, d, v);
    var v0 := Insert16(0, 0, Lane(v, 0));
    var v1 := Insert16(v0, 1, Lane(v, 1));
    var v2 := Insert16(v1, 2, Lane(v, 2));
    InsertLanes(v, v0, v1, v2);
    var t0 := RunMovz(env, code, s, t, n, d, Lane(v, 0));
    var t1 := RunMovk(env, code, s, t0, n + 1, d, 1, v);
    var t2 := RunMovk(env, code, s, t1, n + 1 + |k1|, d, 2, v);
    var t3 := RunMovk(env, code, s, t2, n + 1 + |k1| + |k2|, d, 3, v);
    assert t3.x == t.x[d := Bits(v)];
    SetImm(t, t3, d, v);
  }

  lemma SetImm<W>(t: State<W>, u: State<W>, d: nat, v: U64)
    requires d < 31 && u == t.(x := t.x[d := Bits(v)], pc := t.pc + |MovImm64(d, v)|)
    ensures u == WithImm(t, d, v)
  {}

  // ----- single instructions, as the blocks use them -----

  function WithX<W>(t: State<W>, d: nat, v: Word): State<W>
    requires d < 31
  {
    t.(x := t.x[d := v], pc := t.pc + 1)
  }

  function WithD<W>(t: State<W>, d: nat, v: U64): State<W>
    requires d < 32
  {
    t.(d := t.d[d := v], pc := t.pc + 1)
  }

  lemma RunMov<W>(env: Env<W>, code: seq<Insn>, s: State<W>, t: State<W>, n: nat, d: nat, m: nat)
    requires Reaches(env, code, s, t, n) && d < 31 && m < 31
    requires t.pc < |code| && code[t.pc] == MovReg(d, m)
    ensures Reaches(env, code, s, WithX(t, d, RegOf(t.x, m)), n + 1)
  {
    assert Exec(env, OrrReg(d, 31, m), t) == Go(WithX(t, d, RegOf(t.x, m)));
    hide Exec;
    Advance(env, code, s, t, n, OrrReg(d, 31, m), WithX(t, d, RegOf(t.x, m)));
  }

  lemma RunMovzW<W>(env: Env<W>, code: seq<Insn>, s: State<W>, t: State<W>, n: nat, d: nat, m: U16)
    requires Reaches(env, code, s, t, n) && d < 31
    requires t.pc < |code| && code[t.pc] == MovzW(d, m)
    ensures Reaches(env, code, s, WithX(t, d, Bits(m)), n + 1)
  {
    assert Exec(env, MovzW(d, m), t) == Go(WithX(t, d, Bits(m)));
    hide Exec;
    Advance(env, code, s, t, n, MovzW(d, m), WithX(t, d, Bits(m)));
  }

  lemma RunAddImm<W>(env: Env<W>, code: seq<Insn>, s: State<W>, t: State<W>, n: nat)
    requires Reaches(env, code, s, t, n)
    requires t.pc < |code| && code[t.pc] == AddImm(FP, SP, 0)
    ensures Reaches(env, code, s, WithX(t, FP, Ptr(StackR, t.sp)), n + 1)
  {
    assert Exec(env, AddImm(29, 31, 0), t) == Go(WithX(t, FP, Ptr(StackR, t.sp)));
    hide Exec;
    Advance(env, code, s, t, n, AddImm(29, 31, 0), WithX(t, FP, Ptr(StackR, t.sp)));
  }

  lemma RunMoveSp<W>(env: Env<W>, code: seq<Insn>, s: State<W>, t: State<W>, n: nat, delta: int) returns (u: State<W>)
    requires Reaches(env, code, s, t, n) && t.pc < |code|
    requires code[t.pc] == if delta < 0 then SubImm(SP, SP, -delta) else AddImm(SP, SP, delta)
    ensures u == t.(sp := t.sp + delta, pc := t.pc + 1) && Reaches(env, code, s, u, n + 1)
  {
    u := t.(sp := t.sp + delta, pc := t.pc + 1);
    assert Exec(env, code[t.pc], t) == Go(u);
    hide Exec;
    Advance(env, code, s, t, n, code[t.pc], u);
  }

  function WithPair<W>(t: State<W>, at: int, v: Word, w: Word): State<W> {
    t.(stack := t.stack[at := v][at + 8 := w], pc := t.pc + 1)
  }

  lemma RunStp<W>(env: Env<W>, code: seq<Insn>, s: State<W>, t: State<W>, n: nat, a: nat, b: nat, m: nat)
    requires Reaches(env, code, s, t, n) && a < 31 && b < 31 && m < 64
    requires t.pc < |code| && code[t.pc] == Stp(a, b, SP, m)
    ensures Reaches(env, code, s, WithPair(t, t.sp + m * 8, RegOf(t.x, a), RegOf(t.x, b)), n + 1)
  {
    var u := WithPair(t, t.sp + m * 8, RegOf(t.x, a), RegOf(t.x, b));
    assert Exec(env, Stp(a, b, 31, m), t) == Go(u);
    hide Exec;
    Advance(env, code, s, t, n, Stp(a, b, 31, m), u);
  }

  lemma RunLdp<W>(env: Env<W>, code: seq<Insn>, s: State<W>, t: State<W>, n: nat, a: nat, b: nat,
          m: nat) returns (u: State<W>)
    requires Reaches(env, code, s, t, n) && a < 31 && b < 31 && m < 64
    requires t.pc < |code| && code[t.pc] == Ldp(a, b, SP, m)
    requires t.sp + m * 8 in t.stack && t.sp + m * 8 + 8 in t.stack
    ensures u == t.(x := t.x[a := t.stack[t.sp + m * 8]][b := t.stack[t.sp + m * 8 + 8]], pc := t.pc + 1)
    ensures Reaches(env, code, s, u, n + 1)
  {
    u := t.(x := t.x[a := t.stack[t.sp + m * 8]][b := t.stack[t.sp + m * 8 + 8]], pc := t.pc + 1);
    assert Exec(env, Ldp(a, b, 31, m), t) == Go(u);
    hide Exec;
    Advance(env, code, s, t, n, Ldp(a, b, 31, m), u);
  }

  lemma RunPush<W>(env: Env<W>, code: seq<Insn>, s: State<W>, t: State<W>, n: nat, a: nat, m: nat) returns (u: State<W>)
    requires Reaches(env, code, s, t, n) && a < 31
    requires t.pc < |code| && code[t.pc] == StrX(a, SP, m)
    ensures u == t.(stack := t.stack[t.sp + m * 8 := RegOf(t.x, a)], pc := t.pc + 1)
    ensures Reaches(env, code, s, u, n + 1)
  {
    u := t.(stack := t.stack[t.sp + m * 8 := RegOf(t.x, a)], pc := t.pc + 1);
    assert Exec(env, StrX(a, 31, m), t) == Go(u);
    hide Exec;
    Advance(env, code, s, t, n, StrX(a, 31, m), u);
  }

  lemma RunPop<W>(env: Env<W>, code: seq<Insn>, s: State<W>, t: State<W>, n: nat, a: nat, m: nat)
    requires Reaches(env, code, s, t, n) && a < 31
    requires t.pc < |code| && code[t.pc] == LdrX(a, SP, m) && t.sp + m * 8 in t.stack
    ensures Reaches(env, code, s, WithX(t, a, t.stack[t.sp + m * 8]), n + 1)
  {
    var u := WithX(t, a, t.stack[t.sp + m * 8]);
    assert Exec(env, LdrX(a, 31, m), t) == Go(u);
    hide Exec;
    Advance(env, code, s, t, n, LdrX(a, 31, m), u);
  }

  /** vals[k] into a floating-point register, or a fault. */
  lemma RunLdrVal<W>(env: Env<W>, code: seq<Insn>, s: State<W>, t: State<W>, n: nat, d: nat, k: nat)
    requires Reaches(env, code, s, t, n) && RegOf(t.x, R_VALS) == Ptr(ValsR, 0) && d < 32
    requires t.pc < |code| && code[t.pc] == LdrD(d, R_VALS, k)
    ensures if k < |t.vals| then Reaches(env, code, s, WithD(t, d, t.vals[k]), n + 1)
            else Run(env, code, s, n + 1) == Fault
  {
    if k < |t.vals| {
      assert Exec(env, LdrD(d, 22, k), t) == Go(WithD(t, d, t.vals[k]));
      hide Exec;
      Advance(env, code, s, t, n, LdrD(d, 22, k), WithD(t, d, t.vals[k]));
    } else {
      assert Exec(env, LdrD(d, 22, k), t) == Fault;
      hide Exec;
      Stop(env, code, s, t, n, LdrD(d, 22, k));
    }
  }

  function WithVal<W>(t: State<W>, k: nat, v: U64): State<W>
    requires k < |t.vals|
  {
    t.(vals := t.vals[k := v], pc := t.pc + 1)
  }

  function WithSlot<W>(t: State<W>, k: nat, v: U64): State<W>
    requires k < |t.slots|
  {
    t.(slots := t.slots[k := v], pc := t.pc + 1)
  }

  /** A store of a floating-point or plain register into vals[k], or a fault. */
  lemma RunStrVal<W>(env: Env<W>, code: seq<Insn>, s: State<W>, t: State<W>, n: nat, i: Insn, k: nat, v: U64)
    requires Reaches(env, code, s, t, n) && RegOf(t.x, R_VALS) == Ptr(ValsR, 0)
    requires || (i == StrD(0, R_VALS, k) && FloatOf(t.d, 0) == v)
             || (i == StrX(9, R_VALS, k) && RegOf(t.x, 9) == Bits(v))
    requires t.pc < |code| && code[t.pc] == i
    ensures if k < |t.vals| then Reaches(env, code, s, WithVal(t, k, v), n + 1)
            else Run(env, code, s, n + 1) == Fault
  {
    if k < |t.vals| {
      assert Exec(env, i, t) == Go(WithVal(t, k, v));
      hide Exec;
      Advance(env, code, s, t, n, i, WithVal(t, k, v));
    } else {
      assert Exec(env, i, t) == Fault;
      hide Exec;
      Stop(env, code, s, t, n, i);
    }
  }

  lemma RunStrSlot<W>(env: Env<W>, code: seq<Insn>, s: State<W>, t: State<W>, n: nat, i: Insn, k: nat, v: U64)
    requires Reaches(env, code, s, t, n) && RegOf(t.x, R_FS) == Ptr(SlotsR, 0)
    requires || (i == StrD(0, R_FS, k) && FloatOf(t.d, 0) == v)
             || (i == StrX(9, R_FS, k) && RegOf(t.x, 9) == Bits(v))
    requires t.pc < |code| && code[t.pc] == i
    ensures if k < |t.slots| then Reaches(env, code, s, WithSlot(t, k, v), n + 1)
            else Run(env, code, s, n + 1) == Fault
  {
    if k < |t.slots| {
      assert Exec(env, i, t) == Go(WithSlot(t, k, v));
      hide Exec;
      Advance(env, code, s, t, n, i, WithSlot(t, k, v));
    } else {
      assert Exec(env, i, t) == Fault;
      hide Exec;
      Stop(env, code, s, t, n, i);
    }
  }

  lemma RunLdrSlot<W>(env: Env<W>, code: seq<Insn>, s: State<W>, t: State<W>, n: nat, k: nat)
    requires Reaches(env, code, s, t, n) && RegOf(t.x, R_FS) == Ptr(SlotsR, 0)
    requires t.pc < |code| && code[t.pc] == LdrX(9, R_FS, k)
    ensures if k < |t.slots| then Reaches(env, code, s, WithX(t, 9, Bits(t.slots[k])), n + 1)
            else Run(env, code, s, n + 1) == Fault
  {
    if k < |t.slots| {
      assert Exec(env, LdrX(9, 21, k), t) == Go(WithX(t, 9, Bits(t.slots[k])));
      hide Exec;
      Advance(env, code, s, t, n, LdrX(9, 21, k), WithX(t, 9, Bits(t.slots[k])));
    } else {
      assert Exec(env, LdrX(9, 21, k), t) == Fault;
      hide Exec;
      Stop(env, code, s, t, n, LdrX(9, 21, k));
    }
  }

  /** A branch that is not taken, or taken forward by `hop`. */
  lemma RunBCond<W>(env: Env<W>, code: seq<Insn>, s: State<W>, t: State<W>, n: nat, c: nat,
          hop: nat) returns (u: State<W>)
    requires Reaches(env, code, s, t, n) && hop < 0x4_0000
    requires t.pc < |code| && code[t.pc] == BCond(c, hop)
    ensures u == t.(pc := if Holds(c, t.flags) then t.pc + hop else t.pc + 1)
    ensures Reaches(env, code, s, u, n + 1)
  {
    u := t.(pc := if Holds(c, t.flags) then t.pc + hop else t.pc + 1);
    assert Exec(env, BCond(c, hop), t) == Go(u);
    hide Exec;
    Advance(env, code, s, t, n, BCond(c, hop), u);
  }

  lemma RunB<W>(env: Env<W>, code: seq<Insn>, s: State<W>, t: State<W>, n: nat, hop: nat) returns (u: State<W>)
    requires Reaches(env, code, s, t, n) && hop < TWO26 / 2
    requires t.pc < |code| && code[t.pc] == B(hop)
    ensures u == t.(pc := t.pc + hop)
    ensures Reaches(env, code, s, u, n + 1)
  {
    u := t.(pc := t.pc + hop);
    assert Exec(env, B(hop), t) == Go(u);
    hide Exec;
    Advance(env, code, s, t, n, B(hop), u);
  }
}
