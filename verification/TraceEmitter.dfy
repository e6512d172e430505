/** The emitter itself: a byte buffer that is appended to and then patched in place. */
module TraceEmitter {
  import opened Basics
  import opened A64
  import opened A64Machine
  import opened TraceIr
  import opened TraceCode
  import opened TraceLink

  type Byte = n: int | 0 <= n < 256

  function WordAt(bytes: seq<Byte>, p: nat): nat
    requires p + 4 <= |bytes|
  {
    (bytes[p] as int) + (bytes[p + 1] as int) * 256 + (bytes[p + 2] as int) * TWO16 + (bytes[p + 3] as int) * 0x100_0000
  }

  /** The instructions that a little-endian byte sequence holds. */
  function Disassemble(bytes: seq<Byte>): seq<Insn> {
    seq(|bytes| / 4, k requires 0 <= k < |bytes| / 4 => Decode(WordAt(bytes, 4 * k)))
  }

  lemma WordOfBytes(w: nat)
    requires w < TWO32
    ensures w % 256 + w / 256 % 256 * 256 + w / TWO16 % 256 * TWO16 + w / 0x100_0000 % 256 * 0x100_0000 == w
  {
    assert w / TWO16 == w / 256 / 256 && w / 0x100_0000 == w / TWO16 / 256;
  }

  class Emitter {
    const buf: array<Byte>
    var cur: nat
    var failed: bool
    var snap: nat
    var guards: seq<Guard>
    var loops: seq<nat>
    ghost var code: seq<Insn>

    /** The bytes before `cur` are the encodings of `code`, in order. */
    ghost predicate Valid()
      reads this, buf
    {
      && cur == 4 * |code| && cur <= buf.Length
      && (forall k :: 0 <= k < |code| ==> Encodable(code[k]))
      && (forall k :: 0 <= k < |code| ==> WordAt(buf[..], 4 * k) == Encode(code[k]))
    }

    ghost function View(): Draft
      reads this
    {
      Draft(code, guards, loops, snap)
    }

    /** n more instructions fit behind the first k. */
    ghost predicate Fits(k: nat, n: nat)
      reads this
    {
      4 * (k + n) <= buf.Length
    }

    lemma CursorIs()
      requires Valid()
      ensures cur == 4 * |code| <= buf.Length
    {}

    constructor (b: array<Byte>)
      ensures Valid() && buf == b && !failed && View() == Draft([], [], [], 0)
    {
      buf := b;
      cur, failed, snap, guards, loops, code := 0, false, 0, [], [], [];
    }

    method Put(p: nat, w: nat)
      requires p + 4 <= buf.Length && w < TWO32
      modifies buf
      ensures WordAt(buf[..], p) == w && buf[p] == w % 256
      ensures forall k :: 0 <= k < buf.Length && !(p <= k < p + 4) ==> buf[k] == old(buf[k])
    {
      buf[p], buf[p + 1] := w % 256, w / 256 % 256;
      buf[p + 2], buf[p + 3] := w / TWO16 % 256, w / 0x100_0000 % 256;
      WordOfBytes(w);
    }

    /** One instruction word, unless the emitter has failed or the buffer is full. */
    method Emit(i: Insn)
      requires Valid() && Encodable(i)
      modifies this`cur, this`failed, this`code, buf
      ensures Valid()
      ensures failed == (old(failed) || !Fits(|old(code)|, 1))
      ensures code == if failed then old(code) else old(code) + [i]
    {
      if failed { return; }
      if cur + 4 > buf.Length {
        failed := true;
        return;
      }
      DecodeEncode(i);
      Put(cur, Encode(i));
      cur := cur + 4;
      code := code + [i];
    }

    /** Loads and stores with a scaled index, which must fit 12 bits. */
    method EmitIndexed(i: Insn)
      requires Valid() && (i.LdrX? || i.StrX? || i.LdrD? || i.StrD?) && i.rt < 32 && i.rn < 32
      modifies this`cur, this`failed, this`code, buf
      ensures Valid()
      ensures failed == (old(failed) || i.imm12 > MAX_INDEX || !Fits(|old(code)|, 1))
      ensures code == if failed then old(code) else old(code) + [i]
    {
      if i.imm12 > MAX_INDEX {
        failed := true;
        return;
      }
      Emit(i);
    }

    method EmitMovkIf(d: nat, hw: nat, v: U64)
      requires Valid() && d < 32 && 1 <= hw < 4
      modifies this`cur, this`failed, this`code, buf
      ensures Valid() && failed == (old(failed) || !Fits(|old(code)|, |MovkIf(d, hw, v)|))
      ensures code == if failed then old(code) else old(code) + MovkIf(d, hw, v)
    {
      hide Valid;
      CursorIs();
      if Lane(v, hw) != 0 { Emit(Movk(d, hw, Lane(v, hw))); }
    }

    method EmitMovImm64(d: nat, v: U64)
      requires Valid() && d < 32
      modifies this`cur, this`failed, this`code, buf
      ensures Valid() && failed == (old(failed) || !Fits(|old(code)|, |MovImm64(d, v)|))
      ensures !failed ==> code == old(code) + MovImm64(d, v)
      ensures old(code) <= code && (old(failed) ==> code == old(code))
    {
      hide MovkIf, Lane, Valid, MovImm64, Encodable;
      assert Encodable(Movz(d, 0, Lane(v, 0))) by { MovzEncodable(d, v); }
      Emit(Movz(d, 0, Lane(v, 0)));
      EmitMovkIf(d, 1, v);
      EmitMovkIf(d, 2, v);
      EmitMovkIf(d, 3, v);
      MovImmSpliced(old(code), d, v);
    }

    method EmitGuard(cond: nat)
      requires Valid() && cond < 16
      modifies this`cur, this`failed, this`code, this`guards, buf
      ensures Valid()
      ensures failed == (old(failed) || |old(guards)| >= MAX_GUARDS || !Fits(|old(code)|, 1))
      ensures code == if failed then old(code) else old(code) + [BCond(cond, 0)]
      ensures !failed ==> guards == old(guards) + [Guard(|old(code)|, snap)]
    {
      if |guards| >= MAX_GUARDS {
        failed := true;
        return;
      }
      hide Valid;
      CursorIs();
      var br := cur / 4;
      Emit(BCond(cond, 0));
      guards := guards + [Guard(br, snap)];
    }

    // ----- patching -----

    /** Rewrites the word at instruction index p, or nothing if it lies outside the buffer. */
    method Patch(p: nat, i: Insn)
      requires Valid() && Encodable(i)
      modifies buf, this`code
      ensures Valid() && code == if p < |old(code)| then old(code)[p := i] else old(code)
    {
      if 4 * p + 4 > buf.Length { return; }
      DecodeEncode(i);
      Put(4 * p, Encode(i));
      if p < |code| {
        code := code[p := i];
      }
    }

    method PatchBranch(p: nat, target: nat)
      requires Valid()
      modifies buf, this`code
      ensures Valid() && code == PatchB(old(code), p, target)
    {
      Patch(p, B((target - p) % TWO26));
    }

    /** Reads the condition back from the low nibble of the placeholder.  A placeholder that did not fit is not
        there: then nothing is written, whatever is read. */
    method PatchCond(p: nat, target: nat)
      requires Valid() && (p < |code| ==> code[p].BCond?)
      modifies buf, this`code
      ensures Valid() && code == PatchBCond(old(code), p, target)
    {
      var cond := if 4 * p < buf.Length then buf[4 * p] % 16 else 0;
      if p < |code| {
        assert WordAt(buf[..], 4 * p) == Encode(code[p]) && Encodable(code[p]);
        NibbleIsCond(buf[..], 4 * p, code[p].cond, code[p].imm19);
      }
      Patch(p, BCond(cond, (target - p) % 0x8_0000));
    }

    // ----- one IR instruction -----

    method EmitConst(v: U64, i: nat)
      requires Valid() && !failed
      modifies this`cur, this`failed, this`code, buf
      ensures Valid() && failed == !(Near(i) && Fits(|old(code)|, |MovImm64(9, v)| + 1))
      ensures !failed ==> code == old(code) + (MovImm64(9, v) + [StrX(9, R_VALS, i)])
    {
      hide Valid, MovImm64;
      EmitMovImm64(9, v);
      EmitIndexed(StrX(9, R_VALS, i));
    }

    /** x11 = x9 & NB_MASK, compared with NB_MASK. */
    method EmitTypeCheck()
      requires Valid()
      modifies this`cur, this`failed, this`code, buf
      ensures Valid() && failed == (old(failed) || !Fits(|old(code)|, |MovImm64(10, NB_MASK)| + 2))
      ensures !failed ==> code == old(code) + (MovImm64(10, NB_MASK) + [AndReg(11, 9, 10), SubsReg(ZR, 11, 10)])
    {
      hide Valid, MovImm64;
      EmitMovImm64(10, NB_MASK);
      Emit(AndReg(11, 9, 10));
      Emit(SubsReg(ZR, 11, 10));
    }

    method EmitSLoad(slot: nat, i: nat)
      requires Valid() && !failed
      modifies this`cur, this`failed, this`code, this`guards, buf
      ensures Valid()
      ensures failed == !(Near(slot) && Near(i) && |old(guards)| < MAX_GUARDS
              && Fits(|old(code)|, |SLoadCode(slot, i)|))
      ensures !failed ==> code == old(code) + SLoadCode(slot, i)
      ensures !failed ==> guards == old(guards) + [Guard(|code| - 2, snap)]
    {
      hide Valid, MovImm64, SLoadCode;
      EmitIndexed(LdrX(9, R_FS, slot));
      EmitTypeCheck();
      EmitGuard(CC_EQ);
      EmitIndexed(StrX(9, R_VALS, i));
      SLoadSpliced(old(code), slot, i);
    }

    /** d0 = vals[b], compared with itself. */
    method EmitNanTest(b: nat)
      requires Valid()
      modifies this`cur, this`failed, this`code, buf
      ensures Valid() && failed == (old(failed) || !Near(b) || !Fits(|old(code)|, 3))
      ensures !failed ==> code == old(code) + [LdrD(0, R_VALS, b), Fcmp(0, 0), BCond(CC_VC, 0)]
    {
      hide Valid;
      EmitIndexed(LdrD(0, R_VALS, b));
      Emit(Fcmp(0, 0));
      Emit(BCond(CC_VC, 0));
    }

    /** The canonical NaN into the slot, and the branch over the plain store. */
    method EmitCanonical(slot: nat)
      requires Valid()
      modifies this`cur, this`failed, this`code, buf
      ensures Valid() && failed == (old(failed) || !Near(slot) || !Fits(|old(code)|, |MovImm64(9, NB_CANON_NAN)| + 2))
      ensures !failed ==> code == old(code) + (MovImm64(9, NB_CANON_NAN) + [StrX(9, R_FS, slot), B(0)])
      ensures old(code) <= code && (old(failed) ==> code == old(code))
    {
      hide Valid, MovImm64;
      EmitMovImm64(9, NB_CANON_NAN);
      EmitIndexed(StrX(9, R_FS, slot));
      Emit(B(0));
    }

    /** Both inner branches are patched as soon as their targets are known. */
    method EmitSStore(slot: nat, b: nat)
      requires Valid() && !failed
      modifies this`cur, this`failed, this`code, buf
      ensures Valid() && failed == !(Near(slot) && Near(b) && Fits(|old(code)|, |SStoreCode(slot, b)|))
      ensures !failed ==> code == old(code) + SStoreCode(slot, b)
    {
      hide MovImm64, PatchBCond, PatchB, SStoreCode, Valid;
      EmitNanTest(b);
      CursorIs();
      var br := if failed then cur / 4 else cur / 4 - 1;
      ghost var c1 := code;
      EmitCanonical(slot);
      CursorIs();
      var br2 := if failed then cur / 4 else cur / 4 - 1;
      assert br < |code| ==> code[br] == c1[br];
      FinishSStore(slot, br, br2);
      SStoreLen(slot, b);
      if !failed {
        SStoreSpliced(old(code), slot, b, c1 + (MovImm64(9, NB_CANON_NAN) + [StrX(9, R_FS, slot), B(0)]), code);
      }
    }

    method FinishSStore(slot: nat, br: nat, br2: nat)
      requires Valid() && (br < |code| ==> code[br].BCond?)
      modifies this`cur, this`failed, this`code, buf
      ensures Valid() && failed == (old(failed) || !Near(slot) || !Fits(|old(code)|, 1))
      ensures var c2 := old(code);
              !failed ==> code == PatchB(PatchBCond(c2, br, |c2|) + [StrD(0, R_FS, slot)], br2, |c2| + 1)
    {
      hide PatchBCond, PatchB, Valid;
      CursorIs();
      var normal := cur / 4;
      PatchBCondLen(code, br, normal);
      PatchCond(br, normal);
      EmitIndexed(StrD(0, R_FS, slot));
      PatchBranch(br2, if failed then normal else normal + 1);
    }

    method EmitTwoLoads(a: nat, b: nat)
      requires Valid()
      modifies this`cur, this`failed, this`code, buf
      ensures Valid() && failed == (old(failed) || !Near(a) || !Near(b) || !Fits(|old(code)|, 2))
      ensures !failed ==> code == old(code) + [LdrD(0, R_VALS, a), LdrD(1, R_VALS, b)]
    {
      hide Valid;
      EmitIndexed(LdrD(0, R_VALS, a));
      EmitIndexed(LdrD(1, R_VALS, b));
    }

    method EmitArith(op: Op, a: nat, b: nat, i: nat)
      requires Valid() && !failed && IsArith(op)
      modifies this`cur, this`failed, this`code, buf
      ensures Valid() && failed == !(Near(a) && Near(b) && Near(i) && Fits(|old(code)|, 4))
      ensures !failed ==>
              code == old(code) + [LdrD(0, R_VALS, a), LdrD(1, R_VALS, b), ArithInsn(op), StrD(0, R_VALS, i)]
    {
      hide Valid;
      EmitTwoLoads(a, b);
      match op {
        case Add => Emit(Fadd(0, 0, 1));
        case Sub => Emit(Fsub(0, 0, 1));
        case Mul => Emit(Fmul(0, 0, 1));
        case Div => Emit(Fdiv(0, 0, 1));
      }
      EmitIndexed(StrD(0, R_VALS, i));
    }

    method EmitNeg(a: nat, i: nat)
      requires Valid() && !failed
      modifies this`cur, this`failed, this`code, buf
      ensures Valid() && failed == !(Near(a) && Near(i) && Fits(|old(code)|, 3))
      ensures !failed ==> code == old(code) + [LdrD(0, R_VALS, a), Fneg(0, 0), StrD(0, R_VALS, i)]
    {
      hide Valid;
      EmitIndexed(LdrD(0, R_VALS, a));
      Emit(Fneg(0, 0));
      EmitIndexed(StrD(0, R_VALS, i));
    }

    /** fcmp, cset, scvtf. */
    method EmitTruth(op: Op)
      requires Valid() && IsCompare(op)
      modifies this`cur, this`failed, this`code, buf
      ensures Valid() && failed == (old(failed) || !Fits(|old(code)|, 3))
      ensures !failed ==> code == old(code) + [Fcmp(0, 1), Cset(9, CondOf(op)), Scvtf(0, 9)]
    {
      hide Valid;
      var cond := CondOf(op);
      assert cond <= 12;
      hide CondOf;
      Emit(Fcmp(0, 1));
      Emit(Cset(9, cond));
      Emit(Scvtf(0, 9));
    }

    method EmitCompare(op: Op, a: nat, b: nat, i: nat)
      requires Valid() && !failed && IsCompare(op)
      modifies this`cur, this`failed, this`code, buf
      ensures Valid() && failed == !(Near(a) && Near(b) && Near(i) && Fits(|old(code)|, 6))
      ensures !failed ==> code == old(code) + [LdrD(0, R_VALS, a), LdrD(1, R_VALS, b), Fcmp(0, 1), Cset(9, CondOf(op)),
                                               Scvtf(0, 9), StrD(0, R_VALS, i)]
    {
      hide Valid, CondOf, Cset;
      EmitTwoLoads(a, b);
      EmitTruth(op);
      EmitIndexed(StrD(0, R_VALS, i));
    }

    /** The address of a helper in x9, then the call. */
    method EmitCall(addr: U64)
      requires Valid()
      modifies this`cur, this`failed, this`code, buf
      ensures Valid() && failed == (old(failed) || !Fits(|old(code)|, |MovImm64(9, addr)| + 1))
      ensures !failed ==> code == old(code) + (MovImm64(9, addr) + [Blr(9)])
    {
      hide Valid, MovImm64;
      EmitMovImm64(9, addr);
      Emit(Blr(9));
    }

    method EmitMod(link: Linkage, a: nat, b: nat, i: nat)
      requires Valid() && !failed
      modifies this`cur, this`failed, this`code, buf
      ensures Valid() && failed == !(Near(a) && Near(b) && Near(i) && Fits(|old(code)|, |MovImm64(9, link.fmod)| + 4))
      ensures !failed ==> code == old(code) + ([LdrD(0, R_VALS, a), LdrD(1, R_VALS, b)] + MovImm64(9, link.fmod) +
                                               [Blr(9), StrD(0, R_VALS, i)])
    {
      hide Valid, MovImm64;
      EmitTwoLoads(a, b);
      EmitCall(link.fmod);
      EmitIndexed(StrD(0, R_VALS, i));
    }

    method Fail()
      requires Valid()
      modifies this`failed
      ensures Valid() && failed
    {
      failed := true;
    }

    method EmitCallF1(link: Linkage, k: nat, b: nat, i: nat)
      requires Valid() && !failed
      modifies this`cur, this`failed, this`code, buf
      ensures Valid()
      ensures failed == !(k < |link.natives| && link.natives[k] != 0 && Near(b) && Near(i)
                          && Fits(|old(code)|, |MovImm64(9, link.natives[k])| + 3))
      ensures !failed ==> code == old(code) + ([LdrD(0, R_VALS, b)] + MovImm64(9, link.natives[k]) +
                                               [Blr(9), StrD(0, R_VALS, i)])
    {
      hide Valid, MovImm64;
      if k >= |link.natives| || link.natives[k] == 0 {
        Fail();
        return;
      }
      EmitIndexed(LdrD(0, R_VALS, b));
      EmitCall(link.natives[k]);
      EmitIndexed(StrD(0, R_VALS, i));
    }

    /** cmp w0, #0 and the side exit on a non-zero status. */
    method EmitStatusGuard()
      requires Valid()
      modifies this`cur, this`failed, this`code, this`guards, buf
      ensures Valid() && failed == (old(failed) || |old(guards)| >= MAX_GUARDS || !Fits(|old(code)|, 2))
      ensures !failed ==> code == old(code) + [SubsImmW(ZR, 0, 0), BCond(CC_NE, 0)]
      ensures !failed ==> guards == old(guards) + [Guard(|code| - 1, snap)]
    {
      hide Valid;
      Emit(SubsImmW(ZR, 0, 0));
      EmitGuard(CC_NE);
    }

    /** x0 = vm, x1 = name. */
    method EmitNameArgs(name: U64)
      requires Valid()
      modifies this`cur, this`failed, this`code, buf
      ensures Valid() && failed == (old(failed) || !Fits(|old(code)|, |MovImm64(1, name)| + 1))
      ensures !failed ==> code == old(code) + ([MovReg(0, R_VM)] + MovImm64(1, name))
    {
      hide Valid, MovImm64;
      Emit(MovReg(0, R_VM));
      EmitMovImm64(1, name);
    }

    method EmitGLoad(link: Linkage, name: U64, i: nat)
      requires Valid() && !failed && i < TWO32
      modifies this`cur, this`failed, this`code, this`guards, buf
      ensures Valid() && failed == !(|old(guards)| < MAX_GUARDS && Fits(|old(code)|, |GLoadCode(link, name, i)|))
      ensures !failed ==> code == old(code) + GLoadCode(link, name, i)
      ensures !failed ==> guards == old(guards) + [Guard(|code| - 1, snap)]
    {
      hide Valid, MovImm64, GLoadCode;
      EmitNameArgs(name);
      EmitMovImm64(9, i * 8);
      Emit(AddReg(2, R_VALS, 9));
      EmitCall(link.gload);
      EmitStatusGuard();
      GLoadSpliced(old(code), link, name, i);
    }

    method EmitGStore(link: Linkage, name: U64, b: nat)
      requires Valid() && !failed
      modifies this`cur, this`failed, this`code, this`guards, buf
      ensures Valid()
      ensures failed == !(Near(b) && |old(guards)| < MAX_GUARDS && Fits(|old(code)|, |GStoreCode(link, name, b)|))
      ensures !failed ==> code == old(code) + GStoreCode(link, name, b)
      ensures !failed ==> guards == old(guards) + [Guard(|code| - 1, snap)]
    {
      hide Valid, MovImm64, GStoreCode;
      EmitNameArgs(name);
      EmitIndexed(LdrD(0, R_VALS, b));
      EmitCall(link.gstore);
      EmitStatusGuard();
      GStoreSpliced(old(code), link, name, b);
    }

    method SetSnap(s: nat)
      requires Valid()
      modifies this`snap
      ensures Valid() && snap == s
    {
      snap := s;
    }

    /** The guard carries its own snapshot, which then becomes the current one. */
    method EmitBoolGuard(want: bool, a: nat, s: nat)
      requires Valid() && !failed
      modifies this`cur, this`failed, this`code, this`guards, this`snap, buf
      ensures Valid() && failed == !(Near(a) && |old(guards)| < MAX_GUARDS && Fits(|old(code)|, 3)) && snap == s % TWO16
      ensures !failed ==> code == old(code) + [LdrD(0, R_VALS, a), FcmpZero(0), BCond(if want then CC_EQ else CC_NE, 0)]
      ensures !failed ==> guards == old(guards) + [Guard(|code| - 1, snap)]
    {
      hide Valid;
      EmitIndexed(LdrD(0, R_VALS, a));
      Emit(FcmpZero(0));
      SetSnap(s % TWO16);
      EmitGuard(if want then CC_EQ else CC_NE);
    }

    method EmitLoop()
      requires Valid() && !failed
      modifies this`cur, this`failed, this`code, this`loops, buf
      ensures Valid() && failed == !(|old(loops)| < MAX_GUARDS && Fits(|old(code)|, 1))
      ensures !failed ==> code == old(code) + [B(0)] && loops == old(loops) + [|old(code)|]
    {
      if |loops| >= MAX_GUARDS {
        failed := true;
        return;
      }
      hide Valid;
      CursorIs();
      var br := cur / 4;
      Emit(B(0));
      loops := loops + [br];
    }

    // ----- dispatch -----

    /** The draft exists and fits the buffer. */
    ghost predicate Added(g: Option<Draft>) { g.Some? && 4 * |g.value.code| <= buf.Length }

    /** One iteration of the compile loop: exactly AddOp, or failure where AddOp has no result or no room. */
    method CompileOp(link: Linkage, tr: Trace, i: nat)
      requires Valid() && !failed && i < |tr.ir| && i < TWO32
      modifies this`cur, this`failed, this`code, this`guards, this`loops, this`snap, buf
      ensures Valid() && failed == !Added(AddOp(link, tr, i, old(View())))
      ensures !failed ==> View() == AddOp(link, tr, i, old(View())).value
    {
      hide Valid, MovImm64, SLoadCode, SStoreCode, GLoadCode, GStoreCode, CondOf, Cset, ArithInsn;
      var ins := tr.ir[i];
      if IsArith(ins.op) {
        EmitArith(ins.op, ins.op1, ins.op2, i);
      } else if IsCompare(ins.op) {
        EmitCompare(ins.op, ins.op1, ins.op2, i);
      } else if HasGuard(ins.op) {
        CompileGuarded(link, tr, i);
      } else {
        CompilePlain(link, tr, i);
      }
    }

    method CompileGuarded(link: Linkage, tr: Trace, i: nat)
      requires Valid() && !failed && i < |tr.ir| && i < TWO32 && HasGuard(tr.ir[i].op)
      modifies this`cur, this`failed, this`code, this`guards, this`snap, buf
      ensures Valid() && failed == !Added(AddOp(link, tr, i, old(View())))
      ensures !failed ==> View() == AddOp(link, tr, i, old(View())).value
    {
      var op := tr.ir[i].op;
      if op.SLoad? {
        CompileSLoad(link, tr, i);
      } else if op.GLoad? {
        CompileGLoad(link, tr, i);
      } else if op.GStore? {
        CompileGStore(link, tr, i);
      } else {
        hide Valid;
        EmitBoolGuard(op.GuardTrue?, tr.ir[i].op1, tr.ir[i].op2);
      }
    }

    method CompileSLoad(link: Linkage, tr: Trace, i: nat)
      requires Valid() && !failed && i < |tr.ir| && tr.ir[i].op.SLoad?
      modifies this`cur, this`failed, this`code, this`guards, buf
      ensures Valid() && failed == !Added(AddOp(link, tr, i, old(View())))
      ensures !failed ==> View() == AddOp(link, tr, i, old(View())).value
    {
      hide SLoadCode, MovImm64, Encodable;
      if Block(link, tr, i).Some? { BlockGuard(link, tr, i); }
      var ins := tr.ir[i];
      if !ins.isNum {
        failed := true;
      } else {
        hide Valid;
        EmitSLoad(ins.op1, i);
      }
    }

    method CompileGLoad(link: Linkage, tr: Trace, i: nat)
      requires Valid() && !failed && i < |tr.ir| && i < TWO32 && tr.ir[i].op.GLoad?
      modifies this`cur, this`failed, this`code, this`guards, buf
      ensures Valid() && failed == !Added(AddOp(link, tr, i, old(View())))
      ensures !failed ==> View() == AddOp(link, tr, i, old(View())).value
    {
      hide GLoadCode, Valid, MovImm64, Encodable;
      if Block(link, tr, i).Some? { BlockGuard(link, tr, i); }
      var ins := tr.ir[i];
      if ins.op1 !in tr.consts || !tr.consts[ins.op1].Name? || !ins.isNum {
        Fail();
      } else {
        EmitGLoad(link, tr.consts[ins.op1].addr, i);
      }
    }

    method CompileGStore(link: Linkage, tr: Trace, i: nat)
      requires Valid() && !failed && i < |tr.ir| && tr.ir[i].op.GStore?
      modifies this`cur, this`failed, this`code, this`guards, buf
      ensures Valid() && failed == !Added(AddOp(link, tr, i, old(View())))
      ensures !failed ==> View() == AddOp(link, tr, i, old(View())).value
    {
      hide GStoreCode, Valid, MovImm64, Encodable;
      if Block(link, tr, i).Some? { BlockGuard(link, tr, i); }
      var ins := tr.ir[i];
      if ins.op1 !in tr.consts || !tr.consts[ins.op1].Name? {
        Fail();
      } else {
        EmitGStore(link, tr.consts[ins.op1].addr, ins.op2);
      }
    }

    method CompilePlain(link: Linkage, tr: Trace, i: nat)
      requires Valid() && !failed && i < |tr.ir|
      requires var op := tr.ir[i].op; !IsArith(op) && !IsCompare(op) && !HasGuard(op)
      modifies this`cur, this`failed, this`code, this`loops, buf
      ensures Valid() && failed == !Added(AddOp(link, tr, i, old(View())))
      ensures !failed ==> View() == AddOp(link, tr, i, old(View())).value
    {
      hide MovImm64, SStoreCode;
      var ins := tr.ir[i];
      if ins.op.Loop? {
        EmitLoop();
      } else if ins.op.KNum? {
        if ins.op1 !in tr.consts || !tr.consts[ins.op1].Number? { failed := true; }
        else { EmitConst(tr.consts[ins.op1].bits, i); }
      } else if ins.op.KBool? {
        EmitConst(if ins.op1 != 0 then ONE_BITS else 0, i);
      } else if ins.op.SStore? {
        if ins.sunk { failed := true; } else { EmitSStore(ins.op1, ins.op2); }
      } else if ins.op.Mod? {
        EmitMod(link, ins.op1, ins.op2, i);
      } else if ins.op.Neg? {
        EmitNeg(ins.op1, i);
      } else if ins.op.CallF1? {
        EmitCallF1(link, ins.op1, ins.op2, i);
      } else if ins.op.Unsupported? {
        failed := true;
      }
    }

    // ----- prologue, epilogues, stubs -----

    method EmitThree(a: Insn, b: Insn, c: Insn)
      requires Valid() && Encodable(a) && Encodable(b) && Encodable(c)
      modifies this`cur, this`failed, this`code, buf
      ensures Valid() && failed == (old(failed) || !Fits(|old(code)|, 3))
      ensures !failed ==> code == old(code) + [a, b, c]
    {
      hide Valid, Encodable;
      Emit(a);
      Emit(b);
      Emit(c);
    }

    method EmitEpilogue()
      requires Valid()
      modifies this`cur, this`failed, this`code, buf
      ensures Valid() && failed == (old(failed) || !Fits(|old(code)|, 6))
      ensures !failed ==> code == old(code) + Epilogue
    {
      hide Valid;
      EmitThree(Ldp(FP, LR, SP, 0), Ldp(R_VM, R_T, SP, 2), Ldp(R_FS, R_VALS, SP, 4));
      EmitThree(LdrX(R_SKIP, SP, 6), AddImm(SP, SP, FRAME), Ret(LR));
    }

    method EmitSaves()
      requires Valid() && !failed && code == []
      modifies this`cur, this`failed, this`code, buf
      ensures Valid() && failed == !Fits(0, 6)
      ensures !failed ==>
              code == [SubImm(SP, SP, FRAME), Stp(FP, LR, SP, 0), Stp(R_VM, R_T, SP, 2), Stp(R_FS, R_VALS, SP, 4),
                                   StrX(R_SKIP, SP, 6), AddImm(FP, SP, 0)]
    {
      hide Valid;
      EmitThree(SubImm(SP, SP, FRAME), Stp(FP, LR, SP, 0), Stp(R_VM, R_T, SP, 2));
      EmitThree(Stp(R_FS, R_VALS, SP, 4), StrX(R_SKIP, SP, 6), AddImm(FP, SP, 0));
    }

    method EmitPrologue()
      requires Valid() && !failed && code == []
      modifies this`cur, this`failed, this`code, buf
      ensures Valid() && failed == !Fits(0, 11)
      ensures !failed ==> code == Prologue
    {
      hide Valid;
      EmitSaves();
      EmitThree(MovReg(R_VM, 0), MovReg(R_T, 1), MovReg(R_SKIP, 2));
      Emit(MovReg(R_FS, 3));
      Emit(MovReg(R_VALS, 4));
    }

    method EmitLoopDone()
      requires Valid()
      modifies this`cur, this`failed, this`code, buf
      ensures Valid() && failed == (old(failed) || !Fits(|old(code)|, 7))
      ensures !failed ==> code == old(code) + LoopDoneCode
    {
      hide Valid, Epilogue;
      Emit(MovzW(0, 0));
      EmitEpilogue();
    }

    method EmitStub(snapshot: nat)
      requires Valid() && snapshot < TWO16
      modifies this`cur, this`failed, this`code, buf
      ensures Valid() && failed == (old(failed) || !Fits(|old(code)|, 2))
      ensures !failed ==> code == old(code) + [MovzW(9, snapshot), B(0)]
      ensures old(failed) ==> code == old(code)
    {
      hide Valid;
      Emit(MovzW(9, snapshot));
      Emit(B(0));
    }

    /** One stub per guard; returns where each starts. */
    method EmitStubs() returns (offs: seq<nat>)
      requires Valid() && (forall k :: 0 <= k < |guards| ==> guards[k].snap < TWO16)
      modifies this`cur, this`failed, this`code, buf
      ensures Valid() && failed == (old(failed) || !Fits(|old(code)|, 2 * |guards|))
      ensures !failed ==> code == old(code) + Stubs(guards)
      ensures !failed ==> |offs| == |guards| && forall k :: 0 <= k < |offs| ==> offs[k] == |old(code)| + 2 * k
    {
      hide Valid, Stubs;
      CursorIs();
      assert Stubs(guards[..0]) == [] by { StubsEmpty(guards); }
      offs := [];
      var k := 0;
      while k < |guards| && !failed
        invariant 0 <= k <= |guards| && Valid() && |offs| == k
        invariant failed == (old(failed) || !Fits(|old(code)|, 2 * k))
        invariant !failed ==> code == old(code) + Stubs(guards[..k]) && |code| == |old(code)| + 2 * k
        invariant !failed ==> forall j :: 0 <= j < k ==> offs[j] == |old(code)| + 2 * j
        decreases |guards| - k
      {
        CursorIs();
        offs := offs + [cur / 4];
        EmitStub(guards[k].snap);
        StubsSnoc(guards, k);
        k := k + 1;
      }
      assert guards[..|guards|] == guards;
    }

    method EmitCommon(link: Linkage)
      requires Valid()
      modifies this`cur, this`failed, this`code, buf
      ensures Valid() && failed == (old(failed) || !Fits(|old(code)|, |CommonCode(link)|))
      ensures !failed ==> code == old(code) + CommonCode(link)
    {
      hide Valid, MovImm64, Epilogue, CommonCode;
      EmitThree(MovReg(0, R_VM), MovReg(1, R_T), MovReg(2, R_VALS));
      Emit(MovReg(3, R_FS));
      Emit(MovReg(4, 9));
      EmitCall(link.replay);
      Emit(MovzW(0, 1));
      EmitEpilogue();
      assert |Epilogue| == 6 by { EpilogueLen(); }
      CommonSpliced(old(code), link);
    }
  }

  lemma EpilogueLen()
    ensures |Epilogue| == 6
  {}

  lemma SStoreLen(slot: nat, b: nat)
    ensures |MovImm64(9, NB_CANON_NAN)| == 2 && |SStoreCode(slot, b)| == 8
  {}

  lemma MovzEncodable(d: nat, v: U64)
    requires d < 32
    ensures Encodable(Movz(d, 0, Lane(v, 0)))
  {}

  lemma MovImmSpliced(c: seq<Insn>, d: nat, v: U64)
    ensures c + [Movz(d, 0, Lane(v, 0))] + MovkIf(d, 1, v) + MovkIf(d, 2, v) + MovkIf(d, 3, v) == c + MovImm64(d, v)
    ensures |MovImm64(d, v)| == 1 + |MovkIf(d, 1, v)| + |MovkIf(d, 2, v)| + |MovkIf(d, 3, v)|
  {
    hide MovkIf, Lane;
  }

  lemma StubsEmpty(guards: seq<Guard>)
    ensures Stubs(guards[..0]) == []
  {}

  lemma StubsSnoc(guards: seq<Guard>, k: nat)
    requires k < |guards| && guards[k].snap < TWO16
    ensures Stubs(guards[..k + 1]) == Stubs(guards[..k]) + [MovzW(9, guards[k].snap), B(0)]
  {
    assert guards[..k + 1][..k] == guards[..k];
  }

  lemma PatchBCondLen(c: seq<Insn>, p: nat, t: nat)
    ensures |PatchBCond(c, p, t)| == |c|
  {}

  lemma SLoadSpliced(c: seq<Insn>, slot: nat, i: nat)
    ensures c + [LdrX(9, R_FS, slot)] + (MovImm64(10, NB_MASK) + [AndReg(11, 9, 10), SubsReg(ZR, 11, 10)]) +
            [BCond(CC_EQ, 0)] + [StrX(9, R_VALS, i)] == c + SLoadCode(slot, i)
    ensures |SLoadCode(slot, i)| == |MovImm64(10, NB_MASK)| + 5
  {
    hide MovImm64;
  }

  lemma GStoreSpliced(c: seq<Insn>, link: Linkage, name: U64, b: nat)
    ensures c + ([MovReg(0, R_VM)] + MovImm64(1, name)) + [LdrD(0, R_VALS, b)] + (MovImm64(9, link.gstore) + [Blr(9)]) +
            [SubsImmW(ZR, 0, 0), BCond(CC_NE, 0)] == c + GStoreCode(link, name, b)
    ensures |GStoreCode(link, name, b)| == |MovImm64(1, name)| + |MovImm64(9, link.gstore)| + 5
  {
    hide MovImm64;
  }

  lemma GLoadSpliced(c: seq<Insn>, link: Linkage, name: U64, i: nat)
    requires i < TWO32
    ensures c + ([MovReg(0, R_VM)] + MovImm64(1, name)) + MovImm64(9, i * 8) + [AddReg(2, R_VALS, 9)] +
            (MovImm64(9, link.gload) + [Blr(9)]) + [SubsImmW(ZR, 0, 0), BCond(CC_NE, 0)] == c + GLoadCode(link, name, i)
    ensures |GLoadCode(link, name, i)| == |MovImm64(1, name)| + |MovImm64(9, i * 8)| + |MovImm64(9, link.gload)| + 5
  {
    hide MovImm64;
  }

  lemma CommonSpliced(c: seq<Insn>, link: Linkage)
    ensures c + [MovReg(0, R_VM), MovReg(1, R_T), MovReg(2, R_VALS)] + [MovReg(3, R_FS)] + [MovReg(4, 9)] +
            (MovImm64(9, link.replay) + [Blr(9)]) + [MovzW(0, 1)] + Epilogue == c + CommonCode(link)
    ensures |CommonCode(link)| == |MovImm64(9, link.replay)| + |Epilogue| + 7
  {
    hide MovImm64, Epilogue;
  }

  /** The two inner branches of SSTORE land on the plain store and behind it. */
  lemma SStoreSpliced(c0: seq<Insn>, slot: nat, b: nat, c2: seq<Insn>, c5: seq<Insn>)
    requires c2 == c0 + [LdrD(0, R_VALS, b), Fcmp(0, 0), BCond(CC_VC, 0)] +
                   (MovImm64(9, NB_CANON_NAN) + [StrX(9, R_FS, slot), B(0)])
    requires c5 == PatchB(PatchBCond(c2, |c0| + 2, |c2|) + [StrD(0, R_FS, slot)], |c2| - 1, |c2| + 1)
    ensures c5 == c0 + SStoreCode(slot, b)
  {
    var imm := MovImm64(9, NB_CANON_NAN);
    assert |imm| == 2;
    hide MovImm64;
    assert c2[|c0| + 2] == BCond(CC_VC, 0);
    assert c2[|c2| - 1] == B(0);
    assert c5 == c0 + ([LdrD(0, R_VALS, b), Fcmp(0, 0), BCond(CC_VC, 5)] + imm +
                       [StrX(9, R_FS, slot), B(2), StrD(0, R_FS, slot)]);
  }

  lemma NibbleIsCond(bytes: seq<Byte>, p: nat, cond: nat, imm19: nat)
    requires p + 4 <= |bytes| && cond < 16 && WordAt(bytes, p) == Encode(BCond(cond, imm19))
    ensures bytes[p] % 16 == cond
  {
    var w := WordAt(bytes, p);
    var rest := (bytes[p + 1] as int) + (bytes[p + 2] as int) * 256 + (bytes[p + 3] as int) * TWO16;
    LowNibble(w, bytes[p], rest, 0x54_0000 + imm19 / 8, imm19 % 8 * 32 + cond);
    assert (imm19 % 8 * 32 + cond) % 16 == cond;
  }

  lemma LowNibble(w: int, b: Byte, rest: int, high: int, low: Byte)
    requires w == b + rest * 256 && w == high * 256 + low
    ensures b == low
  {}
}
