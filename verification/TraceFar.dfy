/** Very long traces: where the size estimate and the branch fields give out, and what that does; and the
    whole way from a trace to the bytes that run. */
module TraceFar {
  import opened Basics
  import opened A64
  import opened A64Machine
  import opened TraceIr
  import opened TraceCode
  import opened TraceRun
  import opened TraceFrame
  import opened TraceBlocks
  import opened TraceLink
  import opened TraceEmitter
  import opened TraceCodegen
  import opened TraceCorrect

  // ----- branch range -----

  /** Up to 10917 IR instructions the whole function is below 1 MiB, so every branch reaches. */
  lemma ShortTraceInRange(link: Linkage, tr: Trace)
    requires 1 <= |tr.ir| <= 10_917 && Body(link, tr, |tr.ir|).Some?
    ensures InRange(Body(link, tr, |tr.ir|).value)
  {
    hide Body;
    BodySize(link, tr, |tr.ir|);
  }

  /** A guard followed by n numeric slot stores. */
  function FarTrace(n: nat): Trace {
    Trace([Ins(Nop, true, false, 0, 0), Ins(GuardTrue, true, false, 0, 0)]
          + seq(n, _ => Ins(SStore, true, false, 0, 0)), map[])
  }

  /** The draft of the guard and k stores. */
  ghost predicate FarDraft(g: Draft, k: nat) {
    && |g.code| == 14 + 8 * k && g.guards == [Guard(13, 0)] && g.loops == []
    && g.code[11] == LdrD(0, R_VALS, 0) && g.code[12] == FcmpZero(0) && g.code[13] == BCond(CC_EQ, 0)
  }

  lemma FarStart(link: Linkage, n: nat)
    ensures Body(link, FarTrace(n), 2).Some? && FarDraft(Body(link, FarTrace(n), 2).value, 0)
  {
    var tr := FarTrace(n);
    assert |tr.ir| == n + 2 && tr.ir[1] == Ins(GuardTrue, true, false, 0, 0);
    hide FarTrace;
    assert |Prologue| == 11;
    assert Body(link, tr, 1) == Some(Draft(Prologue, [], [], 0));
    assert Block(link, tr, 1) == Some([LdrD(0, R_VALS, 0), FcmpZero(0), BCond(CC_EQ, 0)]);
    hide Block;
    assert Body(link, tr, 2) == AddOp(link, tr, 1, Draft(Prologue, [], [], 0));
  }

  lemma {:induction false} FarBody(link: Linkage, n: nat, k: nat)
    requires k <= n
    ensures |FarTrace(n).ir| == n + 2
    ensures Body(link, FarTrace(n), k + 2).Some? && FarDraft(Body(link, FarTrace(n), k + 2).value, k)
  {
    var tr := FarTrace(n);
    assert |tr.ir| == n + 2;
    if k == 0 {
      FarStart(link, n);
    } else {
      assert tr.ir[k + 1] == Ins(SStore, true, false, 0, 0);
      FarBody(link, n, k - 1);
      hide FarTrace, FarDraft, AddOp;
      FarStep(link, tr, k + 1, Body(link, tr, k + 1).value, k - 1);
    }
  }

  lemma FarStep(link: Linkage, tr: Trace, i: nat, g: Draft, k: nat)
    requires i < |tr.ir| && tr.ir[i] == Ins(SStore, true, false, 0, 0) && FarDraft(g, k)
    ensures AddOp(link, tr, i, g).Some? && FarDraft(AddOp(link, tr, i, g).value, k + 1)
  {
    assert Block(link, tr, i) == Some(SStoreCode(0, 0));
    SStoreSize();
    hide Block, SStoreCode;
  }

  lemma SStoreSize()
    ensures |SStoreCode(0, 0)| == 8
  {
    assert |MovImm64(9, NB_CANON_NAN)| == 2;
    hide MovImm64;
  }

  /** From 32768 stores on, the guard's 19-bit displacement wraps and its branch misses the stub. */
  lemma FarGuardMisses(link: Linkage, n: nat)
    requires n >= 32_768
    ensures var g := Body(link, FarTrace(n), n + 2);
            g.Some? && !InRange(g.value) && |g.value.guards| == 1 && !GuardResolves(link, g.value, 0)
  {
    FarBody(link, n, n);
    BodyOk(link, FarTrace(n), n + 2);
    hide Body;
    var g := Body(link, FarTrace(n), n + 2).value;
    assert GuardSlot(g, 0);
    GuardResolution(link, g, 0);
    hide GuardResolves;
    assert StubPos(g, 0) - g.guards[0].pos >= 0x4_0000;
  }

  /** What such a trace compiles to. */
  ghost function FarCode(link: Linkage, n: nat): seq<Insn> {
    FarBody(link, n, n);
    Compiled(link, FarTrace(n))
  }

  /** On a failing guard the compiled code of such a trace branches below its first instruction and faults, where
      the interpreter leaves through the guard. */
  lemma FarGuardFaults<W(!new)>(env: Env<W>, n: nat, s: State<W>, k: nat)
    requires EnvOk(env) && Entry(s) && 32_768 <= n <= 65_533 && k >= 14
    requires |s.vals| >= 1 && env.cmp(s.vals[0], 0).Equal?
    ensures var r := Run(env, FarCode(env.link, n), s, k);
            var o := Interpret(env, FarTrace(n), 1, VmState(s.vals, s.slots, s.world, 0));
            r == Fault && o.GuardFailed? && !Agrees(s, r, o)
  {
    hide Run, Body, Linked, Exec, EnvOk, Reaches, Left, FarTrace, Interpret, Saved;
    FarBody(env.link, n, n);
    FarWords(env.link, n);
    PrologueLinked(env.link, FarTrace(n));
    var code := FarCode(env.link, n);
    var t := RunPrologue(env, code, s);
    RunLdrVal(env, code, s, t, 11, 0, 0);
    var t1 := WithD(t, 0, s.vals[0]);
    ExecFcmpZero(env, t1);
    var t2 := t1.(flags := FloatFlags(Equal), pc := t1.pc + 1);
    Advance(env, code, s, t1, 12, FcmpZero(0), t2);
    Stop(env, code, s, t2, 13, code[13]);
    BranchBelow(env, t2, n);
    StaysStopped(env, code, s, 14, k);
    var st := VmState(s.vals, s.slots, s.world, 0);
    FarInterpreted(env, n, st);
    var o := Interpret(env, FarTrace(n), 1, st);
    FaultIsNoReturn(s, 1, o.st, Some(o.replayed));
  }

  /** The words of the guard, after patching. */
  lemma FarWords(link: Linkage, n: nat)
    requires Body(link, FarTrace(n), n + 2).Some?
    ensures var code := Compiled(link, FarTrace(n));
            && |code| > 13 && code[11] == LdrD(0, R_VALS, 0) && code[12] == FcmpZero(0)
            && code[13] == BCond(CC_EQ, (8 + 8 * n) % 0x8_0000)
  {
    hide Linked, Unpatched, CommonCode, Body, FarTrace, DraftOk;
    FarBody(link, n, n);
    BodyOk(link, FarTrace(n), n + 2);
    FarLinked(link, Body(link, FarTrace(n), n + 2).value, n);
  }

  lemma FarLinked(link: Linkage, g: Draft, n: nat)
    requires DraftOk(g) && FarDraft(g, n)
    ensures var code := Linked(link, g);
            && |code| > 13 && code[11] == LdrD(0, R_VALS, 0) && code[12] == FcmpZero(0)
            && code[13] == BCond(CC_EQ, (8 + 8 * n) % 0x8_0000)
  {
    hide Linked, Unpatched, CommonCode, DraftOk;
    assert GuardSlot(g, 0);
    LinkedGuard(link, g, 0);
    UnpatchedLen(link, g);
    UnpatchedAt(link, g);
    assert Unpatched(link, g)[0 + 11] == g.code[11] && Unpatched(link, g)[0 + 12] == g.code[12];
    hide Placed;
    LinkedAt(link, g, 11);
    LinkedAt(link, g, 12);
  }

  lemma FaultIsNoReturn<W>(s0: State<W>, status: nat, st: VmState<W>, replayed: Option<nat>)
    ensures !Left(s0, Fault, status, st, replayed)
  {}

  lemma BranchBelow<W>(env: Env<W>, t: State<W>, n: nat)
    requires 32_768 <= n <= 65_533 && t.pc == 13 && t.flags == FloatFlags(Equal)
    ensures Exec(env, BCond(CC_EQ, (8 + 8 * n) % 0x8_0000), t) == Fault
  {
    assert Holds(CC_EQ, t.flags);
    hide Holds, FloatFlags;
    assert (8 + 8 * n) % 0x8_0000 == 8 + 8 * n;
  }

  lemma FarInterpreted<W>(env: Env<W>, n: nat, st: VmState<W>)
    requires |st.vals| >= 1 && env.cmp(st.vals[0], 0).Equal?
    ensures Interpret(env, FarTrace(n), 1, st).GuardFailed?
  {
    var tr := FarTrace(n);
    assert |tr.ir| == n + 2 && tr.ir[1] == Ins(GuardTrue, true, false, 0, 0);
    hide FarTrace;
    assert Eval(env, tr, 1, st).GuardFailed?;
  }

  // ----- room -----

  /** One instruction more than MAX_IR, and the estimate wraps to 64 bytes, in which no accepted trace has room. */
  lemma EstimateWraps(link: Linkage, tr: Trace)
    requires |tr.ir| == MAX_IR + 1 && Body(link, tr, |tr.ir|).Some?
    ensures Estimate(|tr.ir|) == 64 && !HasRoom(link, tr, Estimate(|tr.ir|))
  {
    hide Linked, Body;
    LinkedAtLeast(link, tr);
  }

  lemma LinkedAtLeast(link: Linkage, tr: Trace)
    requires |tr.ir| >= 1 && Body(link, tr, |tr.ir|).Some?
    ensures var g := Body(link, tr, |tr.ir|).value; |Linked(link, g)| >= |g.code| + 2 * |g.guards| + 21
  {
    hide Linked, CommonCode, Body;
    var g := Body(link, tr, |tr.ir|).value;
    BodyOk(link, tr, |tr.ir|);
    LinkedTail(link, g);
    CommonSize(link);
  }

  const PAGE: nat := 4096

  /** The arena that code buffers come from. */
  const ARENA: nat := 0x4_0000

  /** The buffer for n instructions: whole pages for the estimate. */
  function Granted(n: nat): nat { (Estimate(n) + PAGE - 1) / PAGE * PAGE }

  /** The longest function of n instructions, in bytes. */
  function Longest(n: nat): nat { 32 * n + 36_972 }

  /** Every accepted trace of n instructions has room in its buffer. */
  ghost predicate RoomAlways(n: nat)
    requires n >= 1
  {
    forall link: Linkage, tr: Trace {:trigger Body(link, tr, n)} ::
      |tr.ir| == n && Body(link, tr, n).Some? ==> HasRoom(link, tr, Granted(n))
  }

  /** There is always room if and only if the estimate has not wrapped, or is large enough nevertheless. */
  lemma RoomExactly(n: nat)
    requires n >= 1
    ensures RoomAlways(n) <==> n <= MAX_IR || Longest(n) <= Granted(n)
  {
    hide Body, HasRoom, Granted, Longest;
    if n <= MAX_IR || Longest(n) <= Granted(n) {
      forall link: Linkage, tr: Trace | |tr.ir| == n && Body(link, tr, n).Some? ensures HasRoom(link, tr, Granted(n)) {
        if n <= MAX_IR { FitsEstimate(link, tr); } else { FitsAgain(link, tr); }
      }
    } else {
      FullTooLarge(n);
      assert Body(FULL_LINKS, FullTrace(n), n).Some?;
    }
  }

  /** Of the buffers that the arena can hold, exactly those for at most 2725 instructions are always large enough. */
  lemma ArenaRoom(n: nat)
    requires n >= 1 && Granted(n) <= 262_144
    ensures RoomAlways(n) <==> n <= 2725
  {
    hide RoomAlways;
    RoomExactly(n);
  }

  /** In a buffer of up to 1 MiB, four times the arena, every branch reaches. */
  lemma ArenaInRange(link: Linkage, tr: Trace, size: nat)
    requires |tr.ir| >= 1 && Body(link, tr, |tr.ir|).Some? && HasRoom(link, tr, size) && size <= 4 * ARENA
    ensures InRange(Body(link, tr, |tr.ir|).value)
  {
    hide Linked, CommonCode, Body;
    BodyOk(link, tr, |tr.ir|);
    LinkedTail(link, Body(link, tr, |tr.ir|).value);
    CommonSize(link);
  }

  lemma FitsEstimate(link: Linkage, tr: Trace)
    requires 1 <= |tr.ir| <= MAX_IR && Body(link, tr, |tr.ir|).Some?
    ensures HasRoom(link, tr, Granted(|tr.ir|))
  {
    hide Linked, Body;
    SizeFits(link, tr);
  }

  // No block is longer than eight words, but for at most 1024 guarded ones, of up to fifteen and a stub of two.

  lemma ShortImm(d: nat, v: U64)
    requires v < TWO32
    ensures |MovImm64(d, v)| <= 2
  {
    assert v / TWO16 / TWO16 == 0;
  }

  lemma LongestBlock(link: Linkage, tr: Trace, i: nat)
    requires i < |tr.ir| && i < 0x2000_0000 && Block(link, tr, i).Some?
    ensures var b := |Block(link, tr, i).value|; if HasGuard(tr.ir[i].op) then b <= 15 else b <= 8
  {
    SStoreSize();
    ShortImm(9, i * 8);
    assert |MovImm64(9, NB_CANON_NAN)| == 2;
    hide MovImm64;
    forall d: nat, v: U64 ensures 1 <= |MovImm64(d, v)| <= 4 { ImmSize(d, v); }
  }

  lemma {:induction false} LongestBody(link: Linkage, tr: Trace, n: nat)
    requires 1 <= n <= |tr.ir| && n <= 0x2000_0000 && Body(link, tr, n).Some?
    ensures var g := Body(link, tr, n).value;
            |g.code| <= 11 + 8 * (n - 1) + 7 * |g.guards| && |g.guards| <= MAX_GUARDS
  {
    if n > 1 {
      LongestBody(link, tr, n - 1);
      LongestBlock(link, tr, n - 1);
      hide Block;
    }
  }

  lemma FitsAgain(link: Linkage, tr: Trace)
    requires |tr.ir| >= 1 && Longest(|tr.ir|) <= Granted(|tr.ir|) && Body(link, tr, |tr.ir|).Some?
    ensures HasRoom(link, tr, Granted(|tr.ir|))
  {
    hide Linked, CommonCode, Body;
    LongestBody(link, tr, |tr.ir|);
    BodyOk(link, tr, |tr.ir|);
    LinkedTail(link, Body(link, tr, |tr.ir|).value);
    CommonSize(link);
  }

  // A trace that reaches these bounds: 1024 global loads among slot stores, every address of four lanes.

  const FULL: U64 := 0x0001_0001_0001_0001
  const FULL_LINKS: Linkage := Linkage(FULL, FULL, FULL, FULL, [])
  const FIRST_LOAD: nat := 8192

  predicate IsLoad(i: nat) { FIRST_LOAD <= i < FIRST_LOAD + MAX_GUARDS }

  function FullTrace(n: nat): Trace {
    Trace(seq(n, (i: nat) => Ins(if IsLoad(i) then GLoad else SStore, true, false, 0, 0)), map[0 := Name(FULL)])
  }

  /** How many of the first k instructions are loads. */
  function Loads(k: nat): nat {
    if k <= FIRST_LOAD then 0 else if k <= FIRST_LOAD + MAX_GUARDS then k - FIRST_LOAD else MAX_GUARDS
  }

  lemma FullImm(d: nat)
    ensures |MovImm64(d, FULL)| == 4
  {}

  lemma FullBlock(n: nat, i: nat)
    requires i < n && |FullTrace(n).ir| == n
    ensures var b := Block(FULL_LINKS, FullTrace(n), i);
            b.Some? && |b.value| == if IsLoad(i) then 15 else 8
  {
    SStoreSize();
    if IsLoad(i) {
      assert Lane(i * 8, 1) != 0 && Lane(i * 8, 2) == 0 && Lane(i * 8, 3) == 0;
      assert |MovImm64(9, i * 8)| == 2;
      FullImm(1);
      FullImm(9);
    }
    hide MovImm64;
  }

  lemma {:induction false} FullBody(n: nat, k: nat)
    requires 1 <= k <= n && |FullTrace(n).ir| == n
    ensures var g := Body(FULL_LINKS, FullTrace(n), k);
            g.Some? && |g.value.guards| == Loads(k) && |g.value.code| == 11 + 8 * (k - 1) + 7 * Loads(k)
  {
    if k > 1 {
      FullBody(n, k - 1);
      FullBlock(n, k - 1);
      var tr := FullTrace(n);
      assert tr.ir[k - 1].op == if IsLoad(k - 1) then GLoad else SStore;
      hide Block, FullTrace;
      assert Body(FULL_LINKS, tr, k) == AddOp(FULL_LINKS, tr, k - 1, Body(FULL_LINKS, tr, k - 1).value);
    }
  }

  lemma FullTooLarge(n: nat)
    requires n > MAX_IR && Longest(n) > Granted(n)
    ensures |FullTrace(n).ir| == n && Body(FULL_LINKS, FullTrace(n), n).Some?
    ensures !HasRoom(FULL_LINKS, FullTrace(n), Granted(n))
  {
    hide Body, Linked, CommonCode;
    var tr := FullTrace(n);
    assert |tr.ir| == n;
    hide FullTrace;
    FullBody(n, n);
    BodyOk(FULL_LINKS, tr, n);
    LinkedTail(FULL_LINKS, Body(FULL_LINKS, tr, n).value);
    assert |CommonCode(FULL_LINKS)| == 17 by { FullCommon(); }
  }

  lemma FullCommon()
    ensures |CommonCode(FULL_LINKS)| == 17
  {
    FullImm(9);
    hide MovImm64;
  }

  // ----- from trace to bytes -----

  /** Code generation and execution together: from the bytes in the buffer to one interpreted iteration.  A buffer
      from the arena is small enough for every branch. */
  method CompileLoop<W(!new)>(ghost env: Env<W>, link: Linkage, tr: Trace, mem: array<Byte>) returns (ok: bool,
          written: nat)
    requires |tr.ir| < TWO32 && EnvOk(env) && env.link == link
    modifies mem
    ensures ok <==> |tr.ir| > 0 && Body(link, tr, |tr.ir|).Some? && HasRoom(link, tr, mem.Length)
    ensures ok ==> written <= mem.Length
    ensures ok && (mem.Length <= 262_144 || InRange(Body(link, tr, |tr.ir|).value)) ==>
              forall s: State<W>, n: nat {:trigger Run(env, Disassemble(mem[..written]), s, n)} ::
                Entry(s) && n >= written / 4 ==>
                  Agrees(s, Run(env, Disassemble(mem[..written]), s, n),
                         Interpret(env, tr, 1, VmState(s.vals, s.slots, s.world, 0)))
  {
    hide Run, Interpret, Body, Linked, EnvOk, InRange, Agrees, Entry, Disassemble, HasRoom;
    ok, written := CodegenLoopTrace(link, tr, mem);
    if ok && mem.Length <= ARENA { ArenaInRange(link, tr, mem.Length); }
    if ok && InRange(Body(link, tr, |tr.ir|).value) {
      assert |Disassemble(mem[..written])| == written / 4 by { DisassembledLen(mem[..written]); }
      forall s: State<W>, n: nat | Entry(s) && n >= written / 4
        ensures Agrees(s, Run(env, Disassemble(mem[..written]), s, n),
                       Interpret(env, tr, 1, VmState(s.vals, s.slots, s.world, 0)))
      {
        CompiledCorrect(env, tr, s, n);
      }
    }
  }

  lemma DisassembledLen(bytes: seq<Byte>)
    ensures |Disassemble(bytes)| == |bytes| / 4
  {}
}
