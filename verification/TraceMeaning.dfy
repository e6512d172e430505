/** What the IR instructions do to doubles, on the bits: the meaning that interpreter and compiled code share. */
module TraceMeaning {
  import opened A64
  import opened A64Machine
  import opened TraceIr
  import opened TraceCode
  import opened TraceRun
  import opened TraceFrame
  import opened TraceBlocks

  const TWO63: nat := 0x8000_0000_0000_0000

  /** NaN: beyond infinity, the sign aside. */
  lemma NanExactly(v: U64)
    ensures IsNaN(v) <==> v % 0x8000_0000_0000_0000 > 0x7FF0_0000_0000_0000
  {
    var hi, lo := v / 0x10_0000_0000_0000, v % 0x10_0000_0000_0000;
    assert v == hi * 0x10_0000_0000_0000 + lo;
    assert v % TWO63 == hi % 2048 * 0x10_0000_0000_0000 + lo;
  }

  /** A boxed value is a number unless its top 13 bits are set. */
  lemma NumberExactly(v: U64)
    ensures IsNumber(v) <==> v < 0xFFF8_0000_0000_0000
  {
    var hi, lo := v / 0x8_0000_0000_0000, v % 0x8_0000_0000_0000;
    MaskPowers();
    hide And, Pow2;
    AndSplit(hi, lo, 8191, 0, 51);
    AndZero(lo);
    AndOnes(hi, 13);
  }

  lemma MaskPowers()
    ensures Pow2(13) == 8192 && Pow2(51) == 0x8_0000_0000_0000
  {
    PowAdd(13, 13);
    PowAdd(26, 13);
    PowAdd(39, 12);
    PowAdd(6, 6);
    PowAdd(6, 7);
    assert Pow2(6) == 64 && Pow2(7) == 128;
  }

  lemma {:induction false} PowAdd(m: nat, n: nat)
    ensures Pow2(m + n) == Pow2(m) * Pow2(n)
  {
    if n > 0 {
      PowAdd(m, n - 1);
      Doubles(Pow2(m), Pow2(n - 1));
    }
  }

  lemma Doubles(a: nat, b: nat)
    ensures 2 * (a * b) == a * (2 * b)
  {}

  /** One lane set, nothing else changed. */
  ghost predicate OnlySets<W>(st: VmState<W>, o: Outcome<W>, i: nat) {
    && o.Running? && |o.st.vals| == |st.vals| && o.st == st.(vals := o.st.vals)
    && forall k :: 0 <= k < |st.vals| && k != i ==> o.st.vals[k] == st.vals[k]
  }

  /** Negation flips the sign bit and keeps the other 63. */
  lemma NegEval<W>(env: Env<W>, tr: Trace, i: nat, st: VmState<W>)
    requires i < |tr.ir| && tr.ir[i].op.Neg? && tr.ir[i].op1 < |st.vals| && i < |st.vals|
    ensures var o, v := Eval(env, tr, i, st), st.vals[tr.ir[i].op1];
            && OnlySets(st, o, i) && o.st.vals[i] % 0x8000_0000_0000_0000 == v % 0x8000_0000_0000_0000
            && o.st.vals[i] / 0x8000_0000_0000_0000 == 1 - v / 0x8000_0000_0000_0000
  {}

  /** So does the block it is compiled to. */
  lemma NegRun<W>(env: Env<W>, code: seq<Insn>, s0: State<W>, s: State<W>, st: VmState<W>, a: nat, i: nat)
    requires Sim(s0, s, st) && a < |st.vals| && i < |st.vals|
    requires Placed(code, s.pc, [LdrD(0, R_VALS, a), Fneg(0, 0), StrD(0, R_VALS, i)])
    ensures var r := Run(env, code, s, 3);
            && r.Go? && |r.s.vals| == |s.vals|
            && r.s.vals[i] % 0x8000_0000_0000_0000 == s.vals[a] % 0x8000_0000_0000_0000
            && r.s.vals[i] / 0x8000_0000_0000_0000 == 1 - s.vals[a] / 0x8000_0000_0000_0000
            && forall k :: 0 <= k < |s.vals| && k != i ==> r.s.vals[k] == s.vals[k]
  {
    hide Run, Held, Placed;
    var m := NegBlock(env, code, s0, s, st, a, i);
  }

  /** Comparisons and boolean constants give the bits of 1.0 or of 0.0. */
  lemma TruthEval<W>(env: Env<W>, tr: Trace, i: nat, st: VmState<W>)
    requires i < |tr.ir| && i < |st.vals|
    requires (IsCompare(tr.ir[i].op) && tr.ir[i].op1 < |st.vals| && tr.ir[i].op2 < |st.vals|) || tr.ir[i].op.KBool?
    ensures var o, ins := Eval(env, tr, i, st), tr.ir[i];
            && OnlySets(st, o, i)
            && (o.st.vals[i] == 0x3FF0_0000_0000_0000 || o.st.vals[i] == 0)
            && (o.st.vals[i] != 0 <==>
                if ins.op.KBool? then ins.op1 != 0
                else
                  var c := env.cmp(st.vals[ins.op1], st.vals[ins.op2]);
                  if ins.op.Eq? then c == Equal else if ins.op.Neq? then c != Equal
                  else if ins.op.Lt? then c == Less else if ins.op.Le? then c == Less || c == Equal
                  else if ins.op.Gt? then c == Greater else c == Greater || c == Equal)
  {}

  /** A slot store writes the value, every NaN as the one canonical NaN, to its slot alone. */
  lemma StoreEval<W>(env: Env<W>, tr: Trace, i: nat, st: VmState<W>)
    requires i < |tr.ir| && tr.ir[i].op.SStore? && tr.ir[i].op2 < |st.vals| && tr.ir[i].op1 < |st.slots|
    ensures var o, v, a := Eval(env, tr, i, st), st.vals[tr.ir[i].op2], tr.ir[i].op1;
            && o.Running? && o.st == st.(slots := o.st.slots) && |o.st.slots| == |st.slots|
            && o.st.slots[a] == (if v % 0x8000_0000_0000_0000 > 0x7FF0_0000_0000_0000 then 0x7FF8_0000_0000_0000 else v)
            && forall k :: 0 <= k < |st.slots| && k != a ==> o.st.slots[k] == st.slots[k]
  {
    NanExactly(st.vals[tr.ir[i].op2]);
  }

  /** A slot load copies a number; anything else replays the current snapshot and leaves. */
  lemma LoadEval<W>(env: Env<W>, tr: Trace, i: nat, st: VmState<W>)
    requires i < |tr.ir| && tr.ir[i].op.SLoad? && tr.ir[i].op1 < |st.slots| && i < |st.vals|
    ensures var o, v := Eval(env, tr, i, st), st.slots[tr.ir[i].op1];
            if v < 0xFFF8_0000_0000_0000 then OnlySets(st, o, i) && o.st.vals[i] == v
            else o.GuardFailed? && o.replayed == st.snap
  {
    NumberExactly(st.slots[tr.ir[i].op1]);
  }
}
