/** codegen_loop_trace: the buffer it fills, how large it has to be, and when it succeeds. */
module TraceCodegen {
  import opened Basics
  import opened A64
  import opened A64Machine
  import opened TraceIr
  import opened TraceCode
  import opened TraceLink
  import opened TraceEmitter

  const MAX_IR: nat := 44_739_237

  /** Buffer size asked of the allocator, in 32-bit arithmetic. */
  function Estimate(irCount: nat): nat {
    (512 + irCount * 96) % TWO32
  }

  lemma ImmSize(d: nat, v: U64)
    ensures 1 <= |MovImm64(d, v)| <= 4
  {}

  lemma BlockSize(link: Linkage, tr: Trace, i: nat)
    requires i < |tr.ir| && Block(link, tr, i).Some?
    ensures |Block(link, tr, i).value| <= 17
  {
    hide MovImm64;
    forall d: nat, v: U64 ensures 1 <= |MovImm64(d, v)| <= 4 { ImmSize(d, v); }
  }

  lemma {:induction false} BodySize(link: Linkage, tr: Trace, n: nat)
    requires 1 <= n <= |tr.ir| && Body(link, tr, n).Some?
    ensures var g := Body(link, tr, n).value; 4 * |g.code| + 8 * |g.guards| <= 44 + 96 * (n - 1)
  {
    if n > 1 {
      hide Block;
      BodySize(link, tr, n - 1);
      BlockSize(link, tr, n - 1);
    }
  }

  /** The finished function has room in `size` bytes. */
  predicate HasRoom(link: Linkage, tr: Trace, size: nat)
    requires |tr.ir| >= 1 && Body(link, tr, |tr.ir|).Some?
  {
    4 * |Linked(link, Body(link, tr, |tr.ir|).value)| <= size
  }

  /** The estimate is enough for prologue, body, stubs and both epilogues of every accepted trace of up to
      MAX_IR instructions. */
  lemma SizeFits(link: Linkage, tr: Trace)
    requires 1 <= |tr.ir| <= MAX_IR && Body(link, tr, |tr.ir|).Some?
    ensures HasRoom(link, tr, Estimate(|tr.ir|))
  {
    hide Linked;
    var g := Body(link, tr, |tr.ir|).value;
    BodySize(link, tr, |tr.ir|);
    BodyOk(link, tr, |tr.ir|);
    LinkedTail(link, g);
    CommonSize(link);
  }

  lemma CommonSize(link: Linkage)
    ensures 14 <= |CommonCode(link)| <= 17
  {
    ImmSize(9, link.replay);
    hide MovImm64;
  }

  /** Guards are still conditional branches when their turn to be patched comes. */
  lemma GuardStill(link: Linkage, g: Draft, k: nat)
    requires DraftOk(g) && k < |g.guards|
    ensures var c := PatchGuards(PatchLoops(Unpatched(link, g), g.loops, |g.code|), g, k);
            |c| == |Unpatched(link, g)| && (g.guards[k].pos < |c| ==> c[g.guards[k].pos].BCond?)
  {
    hide Unpatched;
    var u, p := Unpatched(link, g), g.guards[k].pos;
    UnpatchedLen(link, g);
    UnpatchedAt(link, g);
    GuardPositions(g, k);
    assert u[0 + p] == g.code[p];
    PatchLoopsAt(u, g.loops, |g.code|, p);
    PatchGuardsFrame(PatchLoops(u, g.loops, |g.code|), g, k, p);
  }

  method PatchLoopBranches(e: Emitter, target: nat)
    requires e.Valid()
    modifies e`code, e.buf
    ensures e.Valid() && e.code == PatchLoops(old(e.code), e.loops, target)
  {
    hide Emitter.Valid;
    var b := 0;
    while b < |e.loops|
      invariant 0 <= b <= |e.loops| && e.Valid() && e.code == PatchLoops(old(e.code), e.loops[..b], target)
    {
      assert e.loops[..b + 1][..b] == e.loops[..b];
      e.PatchBranch(e.loops[b], target);
      b := b + 1;
    }
    assert e.loops[..b] == e.loops;
  }

  method PatchAll(e: Emitter, link: Linkage, ghost g: Draft, loopDone: nat, stubs: seq<nat>, common: nat)
    requires e.Valid() && DraftOk(g) && e.code == Unpatched(link, g) && e.guards == g.guards && e.loops == g.loops
    requires loopDone == |g.code| && common == CommonPos(g)
    requires |stubs| == |g.guards| && forall k :: 0 <= k < |stubs| ==> stubs[k] == StubPos(g, k)
    modifies e`code, e.buf
    ensures e.Valid() && e.code == Linked(link, g)
  {
    hide Emitter.Valid, Unpatched, DraftOk, PatchLoops, PatchB, PatchBCond, CommonPos;
    PatchLoopBranches(e, loopDone);
    ghost var v := e.code;
    var k := 0;
    while k < |e.guards|
      invariant 0 <= k <= |g.guards| && e.Valid() && e.code == PatchGuards(v, g, k)
    {
      GuardStill(link, g, k);
      e.PatchCond(e.guards[k].pos, stubs[k]);
      e.PatchBranch(stubs[k] + 1, common);
      k := k + 1;
    }
  }

  /** The body: Body step by step, stopping at the first instruction that cannot be compiled or does not fit. */
  method CompileBody(e: Emitter, link: Linkage, tr: Trace)
    requires e.Valid() && !e.failed && e.View() == Draft([], [], [], 0)
    requires 1 <= |tr.ir| < TWO32
    modifies e, e.buf
    ensures e.Valid() && e.failed == !e.Added(Body(link, tr, |tr.ir|))
    ensures !e.failed ==> e.View() == Body(link, tr, |tr.ir|).value
  {
    hide AddOp;
    assert |Prologue| == 11;
    e.EmitPrologue();
    var i := 1;
    while i < |tr.ir| && !e.failed
      invariant 1 <= i <= |tr.ir| && e.Valid()
      invariant e.failed ==> !e.Added(Body(link, tr, i))
      invariant !e.failed ==> Body(link, tr, i) == Some(e.View())
      decreases |tr.ir| - i
    {
      e.CompileOp(link, tr, i);
      i := i + 1;
    }
    if e.failed { BodyGrows(link, tr, i, |tr.ir|); }
  }

  /** A body that is not there or does not fit does not come back. */
  lemma BodyGrows(link: Linkage, tr: Trace, i: nat, n: nat)
    requires 1 <= i <= n <= |tr.ir|
    ensures Body(link, tr, n).Some? ==>
              Body(link, tr, i).Some? && |Body(link, tr, i).value.code| <= |Body(link, tr, n).value.code|
  {
    hide AddOp;
    if Body(link, tr, i).None? {
      BodyNone(link, tr, i, n);
    } else if Body(link, tr, n).Some? {
      BodyExtends(link, tr, i, n);
    }
  }

  lemma {:induction false} BodyNone(link: Linkage, tr: Trace, i: nat, n: nat)
    requires 1 <= i <= n <= |tr.ir| && Body(link, tr, i).None?
    ensures Body(link, tr, n).None?
    decreases n
  {
    if i < n { BodyNone(link, tr, i, n - 1); }
  }

  /** Compiles a loop trace into `mem`.  Succeeds exactly on the traces that Body accepts and that have room, and
      then leaves the bytes of the linked trace function. */
  method CodegenLoopTrace(link: Linkage, tr: Trace, mem: array<Byte>) returns (ok: bool, written: nat)
    requires |tr.ir| < TWO32
    modifies mem
    ensures ok <==> |tr.ir| > 0 && Body(link, tr, |tr.ir|).Some? && HasRoom(link, tr, mem.Length)
    ensures ok ==> written <= mem.Length && Disassemble(mem[..written]) == Linked(link, Body(link, tr, |tr.ir|).value)
  {
    ok, written := false, 0;
    if |tr.ir| == 0 { return; }
    var e := new Emitter(mem);
    CompileBody(e, link, tr);
    if e.failed {
      if Body(link, tr, |tr.ir|).Some? { WholeIsLonger(link, tr); }
      return;
    }
    ghost var g := e.View();
    ok, written := Finish(e, link, tr, g);
    if ok { DisassembledCode(e, written); }
  }

  lemma WholeIsLonger(link: Linkage, tr: Trace)
    requires |tr.ir| >= 1 && Body(link, tr, |tr.ir|).Some?
    ensures var g := Body(link, tr, |tr.ir|).value; |g.code| <= |Linked(link, g)|
  {
    hide Linked, Unpatched;
    var g := Body(link, tr, |tr.ir|).value;
    BodyOk(link, tr, |tr.ir|);
    LinkedLen(link, g);
    UnpatchedLen(link, g);
  }

  /** Loop-done epilogue, stubs, common exit, then all patches. */
  method Finish(e: Emitter, link: Linkage, tr: Trace, ghost g: Draft) returns (ok: bool, written: nat)
    requires e.Valid() && !e.failed && e.View() == g
    requires 1 <= |tr.ir| && Body(link, tr, |tr.ir|) == Some(g)
    modifies e, e.buf
    ensures e.Valid() && (ok <==> 4 * |Linked(link, g)| <= e.buf.Length)
    ensures ok ==> e.code == Linked(link, g) && written == 4 * |e.code|
  {
    hide Body, Linked, CommonCode, Stubs;
    BodyOk(link, tr, |tr.ir|);
    LinkedLen(link, g);
    forall k | 0 <= k < |g.guards| ensures g.guards[k].snap < TWO16 { GuardPositions(g, k); }
    UnpatchedSize(link, g);
    hide DraftOk;
    var loopDone := e.cur / 4;
    assert |LoopDoneCode| == 7;
    e.EmitLoopDone();
    var stubs := e.EmitStubs();
    var common := e.cur / 4;
    e.EmitCommon(link);
    ok, written := !e.failed, e.cur;
    if ok { PatchAll(e, link, g, loopDone, stubs, common); }
  }

  lemma UnpatchedSize(link: Linkage, g: Draft)
    requires DraftOk(g)
    ensures |Unpatched(link, g)| == |g.code| + 7 + 2 * |g.guards| + |CommonCode(link)|
    ensures |Stubs(g.guards)| == 2 * |g.guards|
  {
    UnpatchedLen(link, g);
    hide CommonCode;
  }

  lemma DisassembledCode(e: Emitter, written: nat)
    requires e.Valid() && written == 4 * |e.code|
    ensures Disassemble(e.buf[..written]) == e.code
  {
    var bytes := e.buf[..written];
    forall k | 0 <= k < |e.code| ensures Disassemble(bytes)[k] == e.code[k] {
      assert WordAt(e.buf[..], 4 * k) == Encode(e.code[k]) && Encodable(e.code[k]);
      DecodeEncode(e.code[k]);
    }
  }
}
