/** What an operation leaves alone: a two-state frame, and the lookups it preserves. */
module FatTree {
  import opened Basics
  import opened FatChain
  import opened FatVolume
  import opened FatChange
  import opened FatGrow

  type Loc = (nat, nat, nat)

  /** From v to u only the slot `hole` is rewritten and only the chain `lost` is given up; new slots
      are invisible. */
  ghost predicate Frame(v: Vol, u: Vol, hole: Loc, lost: nat) {
    && u.root == v.root && u.bpc == v.bpc
    && (forall d: nat, j: nat, i: nat {:trigger InDir(v, d, j, i)} {:trigger InDir(u, d, j, i)} ::
          InDir(v, d, j, i) && (d, j, i) != hole && d != lost ==> InDir(u, d, j, i) && At(u, d, j, i) == At(v, d, j, i))
    && (forall d: nat, j: nat, i: nat {:trigger InDir(u, d, j, i)} ::
          InDir(u, d, j, i) && (d, j, i) != hole && d in v.lay.dirs && d != lost && !InDir(v, d, j, i) ==>
            !Visible(At(u, d, j, i)))
    && (forall f :: f in v.lay.files && f != lost ==>
       f in u.lay.files && Content(u.blk, u.lay.files[f]) == Content(v.blk, v.lay.files[f]))
    && (forall d :: d in v.lay.dirs && d != lost ==> d in u.lay.dirs)
  }

  lemma FrameTrans(v: Vol, w: Vol, u: Vol, hole: Loc, lost: nat)
    requires Frame(v, w, hole, lost) && Frame(w, u, hole, lost)
    ensures Frame(v, u, hole, lost)
  {
    hide InDir, At, Visible, Content;
    forall d: nat, j: nat, i: nat | InDir(u, d, j, i) && (d, j, i) != hole && d in v.lay.dirs && d != lost
      && !InDir(v, d, j, i)
      ensures !Visible(At(u, d, j, i))
    {
      assert d in w.lay.dirs;
      assert InDir(w, d, j, i) ==> !Visible(At(w, d, j, i));
    }
  }

  lemma FrameRefl(v: Vol, hole: Loc, lost: nat)
    ensures Frame(v, v, hole, lost)
  {}

  lemma FramePut(v: Vol, d: nat, j: nat, i: nat, e: Slot, lost: nat)
    requires Shaped(v) && InDir(v, d, j, i)
    ensures Frame(v, PutSlot(v, d, j, i, e), (d, j, i), lost)
  {
    PutSlotView(v, d, j, i, e);
    hide InDir, At, Visible, Content, Shaped;
  }

  lemma FrameDrop(v: Vol, h: nat, fat: Fat, hole: Loc)
    requires Shaped(v) && h != v.root && (h in v.lay.dirs || h in v.lay.files) && Cleared(v.fat, fat, ChainOf(v, h))
    ensures Frame(v, Drop(v, h, fat), hole, h)
  {
    hide InDir, At, Visible, Content, Shaped, Cleared, ChainOf;
    DropView(v, h, fat);
  }

  lemma FrameAddFile(v: Vol, chain: seq<nat>, fat: Fat, blk: seq<Block>, place: Loc, lost: nat)
    requires chain != [] && Shaped(v) && FileWritten(v, chain, fat, blk)
    ensures Frame(v, AddFile(v, chain, fat, blk, place), place, lost)
  {
    hide InDir, At, Visible, Content, FileWritten, BlocksOk, ChainsOk, FatChange.Place;
    AddFileView(v, chain, fat, blk, place);
    ZeroIsNoHead(v);
    forall d: nat, j: nat, i: nat | InDir(v, d, j, i) ensures d != 0 { InDirHead(v, d, j, i); }
  }

  lemma InDirHead(v: Vol, d: nat, j: nat, i: nat)
    requires InDir(v, d, j, i)
    ensures d in v.lay.dirs
  {}

  lemma FrameExtend(v: Vol, d: nat, nc: nat, hole: Loc, lost: nat)
    requires Shaped(v) && d in v.lay.dirs && nc in FreeSet(v.fat)
    ensures Frame(v, Extend(v, d, nc), hole, lost)
  {
    hide InDir, At, Content, BlocksOk, ChainsOk, Extend;
    ExtendView(v, d, nc);
    ExtendLayout(v, d, nc);
    assert !Visible(BLANK);
    hide Visible;
  }

  lemma FrameAddDir(v: Vol, dc: nat, slots: seq<Slot>, parent: nat, hole: Loc, lost: nat)
    requires Shaped(v) && dc in FreeSet(v.fat) && |slots| == PerCluster(v) && |v.fat| == |v.blk|
    ensures Frame(v, AddDir(v, dc, slots, parent), hole, lost)
  {
    hide InDir, At, Content, BlocksOk, ChainsOk, Visible;
    AddDirView(v, dc, slots, parent);
  }

  /** The node behind a slot that does not own the lost chain. */
  lemma NodeKept(v: Vol, u: Vol, d: nat, j: nat, i: nat, e: Slot, hole: Loc, lost: nat)
    requires Frame(v, u, hole, lost) && SlotOk(v, d, j, i, e) && Visible(e) && (IsDot(e) ==> IsDirEntry(e))
    requires (lost in v.lay.dirs || lost in v.lay.files) && lost in v.lay.owner ==> v.lay.owner[lost] != (d, j, i)
    requires 0 !in v.lay.files && 0 !in u.lay.files
    ensures NodeOf(u, e) == NodeOf(v, e)
  {
    hide InDir, At, Visible, IsDot, IsDirEntry, First, Content;
  }

  lemma DotIsDir(v: Vol, d: nat, j: nat, i: nat)
    requires DotsOk(v) && InDir(v, d, j, i) && Visible(At(v, d, j, i)) && IsDot(At(v, d, j, i))
    ensures IsDirEntry(At(v, d, j, i))
  {
    hide InDir, At, Visible, IsDot, IsDirEntry, First;
    assert DotOk(v, d, j, i, At(v, d, j, i));
  }

  /** A name that is not the rewritten slot's, in a directory that stays, looks up the same node. */
  lemma LookupFrame(v: Vol, u: Vol, hole: Loc, lost: nat, d: nat, t: Name)
    requires Frame(v, u, hole, lost) && DotsOk(v) && NamesOk(v) && NamesOk(u) && SlotsOk(v, NO_HOLE) && d in v.lay.dirs
    requires d != lost
    requires (lost in v.lay.dirs || lost in v.lay.files) ==> lost in v.lay.owner && v.lay.owner[lost] == hole
    requires 0 !in v.lay.files && 0 !in u.lay.files && 0 !in v.lay.dirs
    requires hole.0 == d ==> !Named(v, d, t, hole.1, hole.2) && !Named(u, d, t, hole.1, hole.2)
    ensures Lookup(u, d, t) == Lookup(v, d, t)
  {
    hide InDir, At, Visible, IsDot, IsDirEntry, First, Content, NodeOf, SlotOk, Lookup, NamesOk;
    if j: nat, i: nat :| Named(v, d, t, j, i) {
      var e := At(v, d, j, i);
      assert (d, j, i) != hole;
      assert Named(u, d, t, j, i) && At(u, d, j, i) == e;
      InDirHead(v, d, j, i);
      assert SlotOk(v, d, j, i, e);
      if IsDot(e) { DotIsDir(v, d, j, i); }
      NodeKept(v, u, d, j, i, e, hole, lost);
      LookupNamed(v, d, t, j, i);
      LookupNamed(u, d, t, j, i);
    } else {
      forall j: nat, i: nat ensures !Named(u, d, t, j, i) {
        assert !Named(v, d, t, j, i);
        assert (d, j, i) == hole ==> !Named(u, d, t, j, i);
      }
      LookupAbsent(v, d, t);
      LookupAbsent(u, d, t);
    }
  }

  lemma LookupAbsent(v: Vol, d: nat, t: Name)
    requires forall j: nat, i: nat :: !Named(v, d, t, j, i)
    ensures Lookup(v, d, t) == None
  {}
}
