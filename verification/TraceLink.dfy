/** Backpatching: where every branch of the finished trace function goes. */
module TraceLink {
  import opened Basics
  import opened A64
  import opened A64Machine
  import opened TraceIr
  import opened TraceCode
  import opened TraceRun

  /** Recorded branches lie in the code, in order, on placeholders of the right kind. */
  ghost predicate DraftOk(g: Draft) {
    && |g.code| >= 11 && g.snap < TWO16 && |g.guards| <= MAX_GUARDS && |g.loops| <= MAX_GUARDS
    && (forall k :: 0 <= k < |g.guards| ==> GuardSlot(g, k))
    && (forall k :: 0 <= k < |g.loops| ==> g.loops[k] < |g.code| && g.code[g.loops[k]] == B(0))
    && (forall j, k :: 0 <= j < k < |g.guards| ==> g.guards[j].pos < g.guards[k].pos)
    && (forall j, k :: 0 <= j < k < |g.loops| ==> g.loops[j] < g.loops[k])
  }

  ghost predicate GuardSlot(g: Draft, k: nat)
    requires k < |g.guards|
  {
    && g.guards[k].snap < TWO16 && g.guards[k].pos < |g.code|
    && g.code[g.guards[k].pos].BCond? && g.code[g.guards[k].pos] == BCond(g.code[g.guards[k].pos].cond, 0)
    && g.code[g.guards[k].pos].cond < 16
  }

  /** h extends g: nothing already emitted or recorded changes, and new branches lie in the new code. */
  ghost predicate Extends(g: Draft, h: Draft) {
    && g.code <= h.code && g.guards <= h.guards && g.loops <= h.loops
    && (forall k :: |g.guards| <= k < |h.guards| ==> h.guards[k].pos >= |g.code|)
    && (forall k :: |g.loops| <= k < |h.loops| ==> h.loops[k] >= |g.code|)
  }

  /** The placeholder each guarded block leaves. */
  lemma BlockGuard(link: Linkage, tr: Trace, i: nat)
    requires i < |tr.ir| && Block(link, tr, i).Some? && HasGuard(tr.ir[i].op)
    ensures var op, block := tr.ir[i].op, Block(link, tr, i).value;
            && |block| >= 3
            && block[GuardOffset(op, block)] == BCond(if op.SLoad? || op.GuardTrue? then CC_EQ else CC_NE, 0)
  {
    hide MovImm64;
    var ins, block := tr.ir[i], Block(link, tr, i).value;
    match ins.op
    case SLoad => assert block == SLoadCode(ins.op1, i);
    case GLoad => assert block == GLoadCode(link, tr.consts[ins.op1].addr, i);
    case GStore => assert block == GStoreCode(link, tr.consts[ins.op1].addr, ins.op2);
    case GuardTrue =>
    case GuardFalse =>
  }

  lemma BlockLoop(link: Linkage, tr: Trace, i: nat)
    requires i < |tr.ir| && tr.ir[i].op.Loop?
    ensures Block(link, tr, i) == Some([B(0)])
  {}

  lemma KeepGuards(g: Draft, code: seq<Insn>)
    requires DraftOk(g) && g.code <= code
    ensures DraftOk(g.(code := code))
  {
    var h := g.(code := code);
    forall k | 0 <= k < |g.guards| ensures GuardSlot(h, k) {
      assert GuardSlot(g, k);
    }
  }

  lemma KeepNewGuard(g: Draft, p: nat, snap: nat)
    requires DraftOk(g) && p < |g.code| && g.code[p].BCond? && g.code[p].imm19 == 0 && g.code[p].cond < 16
    requires snap < TWO16
    requires |g.guards| < MAX_GUARDS
    requires forall k :: 0 <= k < |g.guards| ==> g.guards[k].pos < p
    ensures DraftOk(g.(guards := g.guards + [Guard(p, snap)], snap := snap))
  {
    var h := g.(guards := g.guards + [Guard(p, snap)], snap := snap);
    forall k | 0 <= k < |h.guards| ensures GuardSlot(h, k) {
      if k < |g.guards| { assert GuardSlot(g, k); }
    }
  }

  lemma KeepNewLoop(g: Draft, p: nat)
    requires DraftOk(g) && p < |g.code| && g.code[p] == B(0) && |g.loops| < MAX_GUARDS
    requires forall k :: 0 <= k < |g.loops| ==> g.loops[k] < p
    ensures DraftOk(g.(loops := g.loops + [p]))
  {
    var h := g.(loops := g.loops + [p]);
    forall k | 0 <= k < |h.guards| ensures GuardSlot(h, k) {
      assert GuardSlot(g, k);
    }
  }

  lemma AddOpKeeps(link: Linkage, tr: Trace, i: nat, g: Draft)
    requires i < |tr.ir| && DraftOk(g) && AddOp(link, tr, i, g).Some?
    ensures DraftOk(AddOp(link, tr, i, g).value) && Extends(g, AddOp(link, tr, i, g).value)
  {
    hide Block, DraftOk;
    var op, block := tr.ir[i].op, Block(link, tr, i).value;
    KeepGuards(g, g.code + block);
    if HasGuard(op) {
      AddGuardKeeps(link, tr, i, g);
    } else if op.Loop? {
      AddLoopKeeps(link, tr, i, g);
    }
  }

  lemma AddGuardKeeps(link: Linkage, tr: Trace, i: nat, g: Draft)
    requires i < |tr.ir| && DraftOk(g) && AddOp(link, tr, i, g).Some? && HasGuard(tr.ir[i].op)
    ensures DraftOk(AddOp(link, tr, i, g).value) && Extends(g, AddOp(link, tr, i, g).value)
  {
    hide Block;
    var op, block := tr.ir[i].op, Block(link, tr, i).value;
    var h := g.(code := g.code + block);
    BlockGuard(link, tr, i);
    KeepGuards(g, g.code + block);
    var off := GuardOffset(op, block);
    var snap := if op.GuardTrue? || op.GuardFalse? then tr.ir[i].op2 % TWO16 else g.snap;
    assert h.code[|g.code| + off] == block[off];
    forall k | 0 <= k < |g.guards| ensures g.guards[k].pos < |g.code| + off {
      assert GuardSlot(g, k);
    }
    KeepNewGuard(h, |g.code| + off, snap);
  }

  lemma AddLoopKeeps(link: Linkage, tr: Trace, i: nat, g: Draft)
    requires i < |tr.ir| && DraftOk(g) && AddOp(link, tr, i, g).Some? && tr.ir[i].op.Loop?
    ensures DraftOk(AddOp(link, tr, i, g).value) && Extends(g, AddOp(link, tr, i, g).value)
  {
    hide Block;
    var block := Block(link, tr, i).value;
    var h := g.(code := g.code + block);
    BlockLoop(link, tr, i);
    KeepGuards(g, g.code + block);
    assert h.code[|g.code|] == block[0];
    KeepNewLoop(h, |g.code|);
  }

  lemma {:induction false} BodyOk(link: Linkage, tr: Trace, n: nat)
    requires 1 <= n <= |tr.ir| && Body(link, tr, n).Some?
    ensures DraftOk(Body(link, tr, n).value) && Prologue <= Body(link, tr, n).value.code
  {
    if n > 1 {
      BodyOk(link, tr, n - 1);
      AddOpKeeps(link, tr, n - 1, Body(link, tr, n - 1).value);
    }
  }

  /** Every shorter draft exists and is extended by the longer one. */
  lemma {:induction false} BodyExtends(link: Linkage, tr: Trace, i: nat, n: nat)
    requires 1 <= i <= n <= |tr.ir| && Body(link, tr, n).Some?
    ensures Body(link, tr, i).Some? && Extends(Body(link, tr, i).value, Body(link, tr, n).value)
    decreases n
  {
    hide Block, AddOp, DraftOk;
    if i < n {
      BodyExtends(link, tr, i, n - 1);
      BodyOk(link, tr, n - 1);
      AddOpKeeps(link, tr, n - 1, Body(link, tr, n - 1).value);
    }
  }

  // ----- the patched code -----

  lemma {:induction false} PatchLoopsAt(code: seq<Insn>, loops: seq<nat>, target: nat, p: nat)
    requires p < |code|
    requires forall k :: 0 <= k < |loops| ==> loops[k] < |code|
    ensures |PatchLoops(code, loops, target)| == |code|
    ensures PatchLoops(code, loops, target)[p] == if p in loops then B(Imm26(p, target)) else code[p]
    decreases |loops|
  {
    if loops != [] {
      var rest := loops[..|loops| - 1];
      assert loops == rest + [loops[|loops| - 1]];
      PatchLoopsAt(code, rest, target, p);
    }
  }

  lemma {:induction false} PatchGuardsLen(code: seq<Insn>, g: Draft, n: nat)
    requires n <= |g.guards|
    ensures |PatchGuards(code, g, n)| == |code|
  {
    if n > 0 { PatchGuardsLen(code, g, n - 1); }
  }

  lemma {:induction false} PatchGuardsFrame(code: seq<Insn>, g: Draft, n: nat, p: nat)
    requires n <= |g.guards| && p < |code|
    requires forall k :: 0 <= k < n ==> p != g.guards[k].pos && p != StubPos(g, k) + 1
    ensures |PatchGuards(code, g, n)| == |code| && PatchGuards(code, g, n)[p] == code[p]
  {
    PatchGuardsLen(code, g, n);
    if n > 0 {
      PatchGuardsLen(code, g, n - 1);
      PatchGuardsFrame(code, g, n - 1, p);
      assert p != g.guards[n - 1].pos;
    }
  }

  /** Guard k keeps its condition and gets its own stub; the stub gets the common exit. */
  lemma {:induction false} PatchGuardsAt(code: seq<Insn>, g: Draft, n: nat, k: nat, cond: nat)
    requires k < n <= |g.guards| && |code| >= CommonPos(g)
    requires forall j :: 0 <= j < |g.guards| ==>
             g.guards[j].pos < |g.code| && (j != k ==> g.guards[j].pos != g.guards[k].pos)
    requires code[g.guards[k].pos] == BCond(cond, 0)
    ensures |PatchGuards(code, g, n)| == |code|
    ensures PatchGuards(code, g, n)[g.guards[k].pos] == BCond(cond, Imm19(g.guards[k].pos, StubPos(g, k)))
    ensures PatchGuards(code, g, n)[StubPos(g, k) + 1] == B(Imm26(StubPos(g, k) + 1, CommonPos(g)))
  {
    hide Imm19, Imm26, PatchB, PatchBCond;
    PatchGuardsLen(code, g, n - 1);
    var c := PatchGuards(code, g, n - 1);
    var p, q := g.guards[n - 1].pos, StubPos(g, n - 1);
    if k < n - 1 {
      PatchGuardsAt(code, g, n - 1, k, cond);
      PatchOther(c, p, q, q + 1, CommonPos(g), g.guards[k].pos);
      PatchOther(c, p, q, q + 1, CommonPos(g), StubPos(g, k) + 1);
    } else {
      PatchGuardsFrame(code, g, n - 1, p);
      PatchHere(c, p, q, q + 1, CommonPos(g), cond);
    }
  }

  lemma PatchHere(c: seq<Insn>, p: nat, t: nat, q: nat, u: nat, cond: nat)
    requires p < q < |c| && c[p] == BCond(cond, 0)
    ensures |PatchB(PatchBCond(c, p, t), q, u)| == |c|
    ensures PatchB(PatchBCond(c, p, t), q, u)[p] == BCond(cond, Imm19(p, t))
    ensures PatchB(PatchBCond(c, p, t), q, u)[q] == B(Imm26(q, u))
  {}

  lemma PatchOther(c: seq<Insn>, p: nat, t: nat, q: nat, u: nat, r: nat)
    requires r < |c| && r != p && r != q
    ensures |PatchB(PatchBCond(c, p, t), q, u)| == |c| && PatchB(PatchBCond(c, p, t), q, u)[r] == c[r]
  {}

  lemma {:induction false} StubsAt(guards: seq<Guard>, k: nat)
    requires k < |guards|
    ensures |Stubs(guards)| == 2 * |guards|
    ensures Stubs(guards)[2 * k] == MovzW(9, guards[k].snap % TWO16) && Stubs(guards)[2 * k + 1] == B(0)
  {
    var rest := guards[..|guards| - 1];
    if k < |rest| {
      StubsAt(rest, k);
    } else if rest != [] {
      StubsAt(rest, 0);
    }
  }

  lemma StubsLen(guards: seq<Guard>)
    ensures |Stubs(guards)| == 2 * |guards|
  {
    if guards != [] { StubsAt(guards, 0); }
  }

  /** Length and the parts that no patch touches. */
  lemma LinkedAt(link: Linkage, g: Draft, p: nat)
    requires DraftOk(g) && p < |Unpatched(link, g)|
    requires p !in g.loops
    requires forall k :: 0 <= k < |g.guards| ==> p != g.guards[k].pos && p != StubPos(g, k) + 1
    ensures |Linked(link, g)| == |Unpatched(link, g)| && Linked(link, g)[p] == Unpatched(link, g)[p]
  {
    hide Unpatched, StubPos, CommonPos;
    var u := Unpatched(link, g);
    UnpatchedLen(link, g);
    PatchLoopsAt(u, g.loops, |g.code|, p);
    PatchGuardsFrame(PatchLoops(u, g.loops, |g.code|), g, |g.guards|, p);
  }

  lemma LinkedLen(link: Linkage, g: Draft)
    requires DraftOk(g)
    ensures |Linked(link, g)| == |Unpatched(link, g)|
  {
    hide Unpatched;
    UnpatchedLen(link, g);
    var u := Unpatched(link, g);
    PatchLoopsAt(u, g.loops, |g.code|, 0);
    PatchGuardsLen(PatchLoops(u, g.loops, |g.code|), g, |g.guards|);
  }

  lemma UnpatchedLen(link: Linkage, g: Draft)
    ensures |Unpatched(link, g)| == CommonPos(g) + |CommonCode(link)|
    ensures |Unpatched(link, g)| >= |g.code|
  {
    hide CommonCode;
    StubsLen(g.guards);
  }

  lemma UnpatchedAt(link: Linkage, g: Draft)
    ensures Placed(Unpatched(link, g), 0, g.code)
    ensures Placed(Unpatched(link, g), |g.code|, LoopDoneCode)
    ensures Placed(Unpatched(link, g), |g.code| + 7, Stubs(g.guards))
    ensures Placed(Unpatched(link, g), CommonPos(g), CommonCode(link))
  {
    hide CommonCode, Stubs;
    StubsLen(g.guards);
    var u := Unpatched(link, g);
    assert |LoopDoneCode| == 7;
    assert u == g.code + LoopDoneCode + Stubs(g.guards) + CommonCode(link);
  }

  // ----- where each branch goes -----

  /** The instruction a branch at p goes to when taken. */
  function Target(i: Insn, p: nat): int
    requires i.B? || i.BCond?
  {
    if i.B? then p + Signed(i.imm26, TWO26) else p + Signed(i.imm19, 0x8_0000)
  }

  /** A patched conditional branch reaches its target exactly when it is within 2^18 instructions
      (1 MiB); beyond, the 19-bit field silently wraps. */
  lemma BCondReach(from: nat, to: nat, cond: nat)
    requires from < to
    ensures Target(BCond(cond, Imm19(from, to)), from) == to <==> to - from < 0x4_0000
  {}

  lemma BReach(from: nat, to: nat)
    requires from < to
    ensures Target(B(Imm26(from, to)), from) == to <==> to - from < TWO26 / 2
  {}

  lemma GuardPositions(g: Draft, k: nat)
    requires DraftOk(g) && k < |g.guards|
    ensures GuardSlot(g, k) && g.guards[k].pos !in g.loops
    ensures forall j :: 0 <= j < |g.guards| ==>
            g.guards[j].pos < |g.code| && (j != k ==> g.guards[j].pos != g.guards[k].pos)
  {
    forall j | 0 <= j < |g.guards|
      ensures g.guards[j].pos < |g.code| && (j != k ==> g.guards[j].pos != g.guards[k].pos)
    {
      assert GuardSlot(g, j);
    }
    assert GuardSlot(g, k);
  }

  /** The three words that belong to guard k. */
  lemma LinkedGuard(link: Linkage, g: Draft, k: nat)
    requires DraftOk(g) && k < |g.guards| && GuardSlot(g, k)
    ensures |Linked(link, g)| == |Unpatched(link, g)| == CommonPos(g) + |CommonCode(link)|
    ensures Linked(link, g)[g.guards[k].pos]
            == BCond(g.code[g.guards[k].pos].cond, Imm19(g.guards[k].pos, StubPos(g, k)))
    ensures Linked(link, g)[StubPos(g, k)] == MovzW(9, g.guards[k].snap)
    ensures Linked(link, g)[StubPos(g, k) + 1] == B(Imm26(StubPos(g, k) + 1, CommonPos(g)))
  {
    hide Imm19, Imm26, Unpatched, CommonCode;
    var u, p := Unpatched(link, g), g.guards[k].pos;
    UnpatchedLen(link, g);
    GuardPositions(g, k);
    PatchLoopsAt(u, g.loops, |g.code|, p);
    UnpatchedAt(link, g);
    assert u[0 + p] == g.code[p];
    hide Placed;
    PatchGuardsAt(PatchLoops(u, g.loops, |g.code|), g, |g.guards|, k, g.code[p].cond);
    LinkedStub(link, g, k);
  }

  lemma LinkedStub(link: Linkage, g: Draft, k: nat)
    requires DraftOk(g) && k < |g.guards| && StubPos(g, k) < |Unpatched(link, g)|
    ensures StubPos(g, k) < |Linked(link, g)| && Linked(link, g)[StubPos(g, k)] == MovzW(9, g.guards[k].snap)
  {
    hide Unpatched, Linked, CommonCode;
    UnpatchedAt(link, g);
    StubsAt(g.guards, k);
    assert Unpatched(link, g)[|g.code| + 7 + 2 * k] == Stubs(g.guards)[2 * k];
    hide Placed;
    forall j | 0 <= j < |g.guards| ensures StubPos(g, k) != g.guards[j].pos && StubPos(g, k) != StubPos(g, j) + 1 {
      assert GuardSlot(g, j);
    }
    assert GuardSlot(g, k);
    LinkedAt(link, g, StubPos(g, k));
  }

  lemma LinkedLoop(link: Linkage, g: Draft, k: nat)
    requires DraftOk(g) && k < |g.loops|
    ensures g.loops[k] < |Linked(link, g)| && Linked(link, g)[g.loops[k]] == B(Imm26(g.loops[k], |g.code|))
  {
    hide Imm26, Unpatched;
    var u, p := Unpatched(link, g), g.loops[k];
    UnpatchedLen(link, g);
    PatchLoopsAt(u, g.loops, |g.code|, p);
    forall j | 0 <= j < |g.guards| ensures p != g.guards[j].pos && p != StubPos(g, j) + 1 {
      assert GuardSlot(g, j);
    }
    PatchGuardsFrame(PatchLoops(u, g.loops, |g.code|), g, |g.guards|, p);
  }

  /** The loop-done epilogue and the common exit are where the branches expect them. */
  lemma LinkedTail(link: Linkage, g: Draft)
    requires DraftOk(g)
    ensures |Linked(link, g)| == CommonPos(g) + |CommonCode(link)|
    ensures Placed(Linked(link, g), |g.code|, LoopDoneCode)
    ensures Placed(Linked(link, g), CommonPos(g), CommonCode(link))
  {
    hide Linked, Unpatched;
    UnpatchedLen(link, g);
    UnpatchedAt(link, g);
    assert |LoopDoneCode| == 7;
    assert |CommonCode(link)| > 0;
    hide CommonCode;
    forall p | |g.code| <= p < |g.code| + 7 || CommonPos(g) <= p < CommonPos(g) + |CommonCode(link)|
      ensures |Linked(link, g)| == |Unpatched(link, g)| && Linked(link, g)[p] == Unpatched(link, g)[p]
    {
      forall j | 0 <= j < |g.guards| ensures p != g.guards[j].pos && p != StubPos(g, j) + 1 {
        assert GuardSlot(g, j);
      }
      LinkedAt(link, g, p);
    }
    LinkedLen(link, g);
  }

  /** Every forward branch fits its field. */
  ghost predicate InRange(g: Draft) {
    && (forall k :: 0 <= k < |g.guards| ==> StubPos(g, k) - g.guards[k].pos < 0x4_0000)
    && (forall k :: 0 <= k < |g.loops| ==> |g.code| - g.loops[k] < TWO26 / 2)
  }

  /** After backpatching: each guard's branch goes to the stub that loads its own snapshot, with its
      original condition, each stub to the common exit and each loop branch to the loop-done
      epilogue -- for all of them at once exactly when every branch fits its field. */
  lemma BranchesResolve(link: Linkage, g: Draft)
    requires DraftOk(g)
    ensures InRange(g) <==>
            && (forall k :: 0 <= k < |g.guards| ==> GuardResolves(link, g, k))
            && (forall k :: 0 <= k < |g.loops| ==> LoopResolves(link, g, k))
  {
    forall k | 0 <= k < |g.guards| ensures StubPos(g, k) - g.guards[k].pos < 0x4_0000 <==> GuardResolves(link, g, k) {
      assert GuardSlot(g, k);
      GuardResolution(link, g, k);
    }
    forall k | 0 <= k < |g.loops| ensures |g.code| - g.loops[k] < TWO26 / 2 <==> LoopResolves(link, g, k) {
      LinkedLoop(link, g, k);
      BReach(g.loops[k], |g.code|);
    }
    hide Linked, GuardResolves, LoopResolves, DraftOk, StubPos;
  }

  lemma GuardResolution(link: Linkage, g: Draft, k: nat)
    requires DraftOk(g) && k < |g.guards| && GuardSlot(g, k)
    ensures StubPos(g, k) - g.guards[k].pos < 0x4_0000 <==> GuardResolves(link, g, k)
  {
    LinkedGuard(link, g, k);
    BCondReach(g.guards[k].pos, StubPos(g, k), g.code[g.guards[k].pos].cond);
    BReach(StubPos(g, k) + 1, CommonPos(g));
    hide Linked, Unpatched, CommonCode;
  }

  ghost predicate GuardResolves(link: Linkage, g: Draft, k: nat)
    requires k < |g.guards|
  {
    var code, p, stub := Linked(link, g), g.guards[k].pos, StubPos(g, k);
    && p < |code| && stub + 1 < |code| && p < |g.code|
    && code[p].BCond? && g.code[p].BCond? && code[p].cond == g.code[p].cond && Target(code[p], p) == stub
    && code[stub] == MovzW(9, g.guards[k].snap)
    && code[stub + 1].B? && Target(code[stub + 1], stub + 1) == CommonPos(g)
  }

  ghost predicate LoopResolves(link: Linkage, g: Draft, k: nat)
    requires k < |g.loops|
  {
    var code, p := Linked(link, g), g.loops[k];
    p < |code| && code[p].B? && Target(code[p], p) == |g.code|
  }
}
