/** The steps that the operations below the path walk share: completing a slot, releasing a chain, adding a
    chain; and what they say about the tree of names. */
module FatOps {
  import opened Basics
  import opened FatChain
  import opened FatVolume
  import opened FatChange
  import opened FatGrow
  import opened FatTree
  import opened FatDir
  import opened FatFile

  /** A packed name that is neither an end marker nor a dot entry. */
  predicate Proper(t: Name) { t[0] != 0 && t[0] != 46 }

  /** A packed name whose first byte is the deletion mark: an entry under it is invisible. */
  predicate Marked(t: Name) { t[0] == DELETED }

  ghost predicate Absent(v: Vol, d: nat, t: Name) { forall j: nat, i: nat :: !Named(v, d, t, j, i) }

  ghost predicate DirNamed(v: Vol, d: nat, t: Name) { exists j: nat,
          i: nat :: Named(v, d, t, j, i) && IsDirEntry(At(v, d, j, i)) }

  ghost predicate FreeSlot(v: Vol, d: nat) { exists j: nat, i: nat :: InDir(v, d, j, i) && IsUnused(At(v, d, j, i)) }

  /** dir_alloc_slot can serve directory d. */
  ghost predicate HasRoom(v: Vol, d: nat) { FreeSet(v.fat) != {} || FreeSlot(v, d) }

  ghost predicate NoEndBefore(v: Vol, d: nat, j: nat, i: nat) {
    forall j': nat, i': nat :: InDir(v, d, j', i') && Before(j', i', j, i) ==> !IsEnd(At(v, d, j', i'))
  }

  ghost predicate IsDotPlace(v: Vol, d: nat, j: nat, i: nat) { d != v.root && j == 0 && i < 2 }

  /** Well formed but for one slot. */
  ghost predicate Staged(v: Vol, hole: Loc) {
    Shaped(v) && EndsOk(v) && NamesOk(v) && DotsOk(v) && SlotsOk(v, hole)
  }

  /** Filling the hole with a suitable entry completes the volume. */
  lemma FillHole(v: Vol, d: nat, j: nat, i: nat, e: Slot)
    requires Staged(v, (d, j, i)) && InDir(v, d, j, i) && NoEndBefore(v, d, j, i) && !IsDotPlace(v, d, j, i)
    requires !IsEnd(e) && (Visible(e) ==> !IsDot(e)) && SlotOk(v, d, j, i, e)
    requires Visible(e) ==> forall j': nat, i': nat :: Named(v, d, e.name, j', i') ==> j' == j && i' == i
    ensures Wf(PutSlot(v, d, j, i, e))
  {
    var u := PutSlot(v, d, j, i, e);
    PutSlotView(v, d, j, i, e);
    hide At, InDir, SlotOk, BlocksOk, ChainsOk, PutSlot;
    assert u.root == v.root && u.lay == v.lay by { PutSlotRoot(v, d, j, i, e); }
    EndsPut(v, u, d, j, i, e);
    NamesPut(v, u, d, j, i, e);
    DotsPut(v, u, d, j, i, e);
    SlotsPut(v, u, d, j, i, e, NO_HOLE);
  }

  lemma PutSlotRoot(v: Vol, d: nat, j: nat, i: nat, e: Slot)
    requires Shaped(v) && InDir(v, d, j, i)
    ensures PutSlot(v, d, j, i, e).root == v.root && PutSlot(v, d, j, i, e).lay == v.lay
    ensures PutSlot(v, d, j, i, e).fat == v.fat
  {}

  lemma NotDotPlace(v: Vol, d: nat, j: nat, i: nat)
    requires DotsOk(v) && InDir(v, d, j, i) && !(Visible(At(v, d, j, i)) && IsDirEntry(At(v, d, j, i)))
    ensures !IsDotPlace(v, d, j, i)
  {
    assert DotOk(v, d, j, i, At(v, d, j, i));
  }

  lemma NoEndBeforeVisible(v: Vol, d: nat, j: nat, i: nat)
    requires EndsOk(v) && InDir(v, d, j, i) && Visible(At(v, d, j, i))
    ensures NoEndBefore(v, d, j, i)
  {}

  lemma WidenHole(v: Vol, hole: Loc)
    requires Wf(v)
    ensures Staged(v, hole)
  {
    assert ChainsOk(v);
    hide At, InDir, SlotOk, BlocksOk, ChainsOk;
    forall d: nat, j: nat, i: nat | InDir(v, d, j, i) && (d, j, i) != hole ensures SlotOk(v, d, j, i, At(v, d, j, i)) {
      NotHole(v, d, j, i);
    }
  }

  /** Releasing the chain that the hole owns. */
  lemma StageDrop(v: Vol, h: nat, fat: Fat, hole: Loc)
    requires Wf(v) && h != v.root && (h in v.lay.dirs || h in v.lay.files) && Cleared(v.fat, fat, ChainOf(v, h))
    requires h in v.lay.owner && v.lay.owner[h] == hole
    ensures Staged(Drop(v, h, fat), hole) && Frame(v, Drop(v, h, fat), hole, h)
  {
    hide At, InDir, SlotOk, BlocksOk, ChainsOk, ChainOf, Cleared, EndsOk, NamesOk, DotsOk;
    DropView(v, h, fat);
    SlotFactsKept(v, Drop(v, h, fat), h);
    DropSlots(v, h, fat, hole);
    FrameDrop(v, h, fat, hole);
  }

  /** Adding the chain that the hole will own. */
  lemma StageAddFile(v: Vol, chain: seq<nat>, fat: Fat, blk: seq<Block>, hole: Loc, lost: nat)
    requires chain != [] && Staged(v, hole) && FileWritten(v, chain, fat, blk)
    ensures Staged(AddFile(v, chain, fat, blk, hole), hole) && Frame(v, AddFile(v, chain, fat, blk, hole), hole, lost)
  {
    hide At, InDir, SlotOk, BlocksOk, ChainsOk, FileWritten, EndsOk, NamesOk, DotsOk, FatChange.Place;
    AddFileView(v, chain, fat, blk, hole);
    SlotFactsKept(v, AddFile(v, chain, fat, blk, hole), 0);
    AddFileSlots(v, chain, fat, blk, hole);
    FrameAddFile(v, chain, fat, blk, hole, lost);
  }

  // ----- releasing a file -----

  /** Clearing what a walk visits is clearing the chain. */
  lemma ClearedByWalk(v: Vol, h: nat, out: Fat)
    requires ChainsOk(v) && (h in v.lay.dirs || h in v.lay.files) && |out| == |v.fat|
    requires forall c :: 0 <= c < |v.fat| ==> out[c] == if Visited(v.fat, h, c) then 0 else v.fat[c]
    ensures Cleared(v.fat, out, ChainOf(v, h))
  {
    assert ChainAt(v, h, ChainOf(v, h));
    forall c | 0 <= c < |v.fat| ensures Visited(v.fat, h, c) <==> c in ChainOf(v, h) {
      VisitedChain(v.fat, h, ChainOf(v, h), c);
    }
  }

  lemma ZeroVisitsNothing(fat: Fat, c: nat)
    ensures !Visited(fat, 0, c)
  {
    if Visited(fat, 0, c) {
      var n: nat :| Nth(fat, 0, n) == c;
      ClosedHoldsWalk(fat, 0, {}, n);
      NthZero(fat, n);
    }
  }

  lemma {:induction false} NthZero(fat: Fat, n: nat)
    ensures Nth(fat, 0, n) == 0
  {
    if n > 0 { NthZero(fat, n - 1); }
  }

  lemma FileSlot(v: Vol, d: nat, j: nat, i: nat)
    requires Wf(v) && InDir(v, d, j, i) && Visible(At(v, d, j, i)) && !IsDirEntry(At(v, d, j, i))
    ensures var f := First(At(v, d, j, i));
            f == 0 || (f in v.lay.files && f in v.lay.owner && v.lay.owner[f] == (d, j, i) && f != v.root
              && 2 <= f < |v.fat|)
  {
    NotHole(v, d, j, i);
    assert SlotOk(v, d, j, i, At(v, d, j, i));
    if IsDot(At(v, d, j, i)) { DotIsDir(v, d, j, i); }
    var f := First(At(v, d, j, i));
    if f in v.lay.files { assert ChainAt(v, f, v.lay.files[f]); }
    hide ChainsOk, At, InDir, BlocksOk, First;
  }

  lemma FileWalk(v: Vol, d: nat, f: nat)
    requires ChainsOk(v) && d in v.lay.dirs && (f == 0 || f in v.lay.files)
    ensures |v.fat| <= EOC && StaysInTable(v.fat, f)
  {
    assert ChainAt(v, d, v.lay.dirs[d]);
    if f == 0 {
      forall n: nat ensures InTable(v.fat, Nth(v.fat, f, n)) { NthZero(v.fat, n); }
    } else {
      assert ChainAt(v, f, v.lay.files[f]);
      ChainInTable(v.fat, f, v.lay.files[f]);
    }
  }

  /** free_chain on a slot's chain: cluster 0 is no chain. */
  method ReleaseFile(fs: Volume, e: Slot, ghost d: nat, ghost j: nat, ghost i: nat) returns (ghost lost: nat)
    requires Wf(fs.V()) && InDir(fs.V(), d, j, i) && e == At(fs.V(), d, j, i) && Visible(e) && !IsDirEntry(e)
    modifies fs
    ensures lost == First(e)
    ensures Staged(fs.V(), (d, j, i)) && Frame(old(fs.V()), fs.V(), (d, j, i), lost)
    ensures lost == 0 ==> fs.V() == old(fs.V())
    ensures lost != 0 ==> lost in old(fs.lay).files && lost in old(fs.lay).owner && old(fs.lay).owner[lost] == (d, j, i)
                          && fs.V() == Drop(old(fs.V()), lost, fs.fat)
                          && Cleared(old(fs.fat), fs.fat, ChainOf(old(fs.V()), lost))
    ensures FreeSet(fs.fat) == old(FreeSet(fs.fat)) + (if lost == 0 then {} else Members(old(fs.lay).files[lost]))
  {
    ghost var v := fs.V();
    FileSlot(v, d, j, i);
    lost := First(e);
    FileWalk(v, d, First(e));
    var out := FreeChain(fs.fat, First(e));
    fs.fat := out;
    hide At, InDir, SlotOk, BlocksOk, First;
    if lost == 0 {
      forall c | 0 <= c < |v.fat| ensures out[c] == v.fat[c] { ZeroVisitsNothing(v.fat, c); }
      assert out == v.fat;
      WidenHole(v, (d, j, i));
      FrameRefl(v, (d, j, i), 0);
    } else {
      ClearedByWalk(v, lost, out);
      FreedSet(v, lost, out);
      fs.lay := fs.lay.(dirs := fs.lay.dirs - {lost}, files := fs.lay.files - {lost});
      StageDrop(v, lost, out, (d, j, i));
    }
  }

  lemma FreedSet(v: Vol, f: nat, out: Fat)
    requires ChainsOk(v) && f in v.lay.files && f !in v.lay.dirs && Cleared(v.fat, out, ChainOf(v, f))
    ensures FreeSet(out) == FreeSet(v.fat) + Members(v.lay.files[f])
  {
    assert ChainAt(v, f, v.lay.files[f]);
  }

  lemma NamedOnce(v: Vol, d: nat, t: Name, j: nat, i: nat)
    requires NamesOk(v) && Named(v, d, t, j, i)
    ensures forall j': nat, i': nat :: Named(v, d, t, j', i') ==> j' == j && i' == i
    ensures forall n: Name :: n != t ==> !Named(v, d, n, j, i)
  {
    hide At, InDir;
    forall j': nat, i': nat | Named(v, d, t, j', i') ensures j' == j && i' == i {
      assert SameName(At(v, d, j, i), At(v, d, j', i'));
    }
  }

  /** Releasing a file's chain does not touch directories. */
  lemma ReleasedSame(v: Vol, u: Vol, lost: nat)
    requires ChainsOk(v) && (if lost == 0 then u == v else lost in v.lay.files && u == Drop(v, lost, u.fat))
    ensures u.lay.dirs == v.lay.dirs && u.blk == v.blk && u.bpc == v.bpc && u.root == v.root && lost !in v.lay.dirs
    ensures 0 !in v.lay.files
  {
    ZeroIsNoHead(v);
    assert v.lay.dirs.Keys !! v.lay.files.Keys;
    hide ChainsOk;
  }

  lemma SameAt(v: Vol, u: Vol)
    requires u.lay.dirs == v.lay.dirs && u.blk == v.blk && u.bpc == v.bpc
    ensures forall d: nat, j: nat, i: nat {:trigger InDir(u, d, j, i)} :: InDir(u, d, j, i) == InDir(v, d, j, i)
    ensures forall d: nat, j: nat, i: nat {:trigger At(u, d, j, i)} :: At(u, d, j, i) == At(v, d, j, i)
  {}

  lemma UnusedFacts(v: Vol, u: Vol, d: nat, j: nat, i: nat, c: nat, grown: bool)
    requires Shaped(v) && d in v.lay.dirs && InDir(u, d, j, i) && IsUnused(At(u, d, j, i))
    requires if grown then c in FreeSet(v.fat) && j == |v.lay.dirs[d]| && u == Extend(v, d, c) else u == v
    ensures Frame(v, u, (d, j, i), 0) && u.lay.dirs.Keys == v.lay.dirs.Keys && u.root == v.root
    ensures forall n: Name :: !Named(v, d, n, j, i) && !Named(u, d, n, j, i)
  {
    hide ChainsOk, BlocksOk, Extend;
    if grown {
      FrameExtend(v, d, c, (d, j, i), 0);
      ExtendLayout(v, d, c);
    } else {
      FrameRefl(v, (d, j, i), 0);
    }
  }

  /** What a finished write does to the tree: one name, one node. */
  ghost predicate TreeSet(v: Vol, u: Vol, d: nat, t: Name, node: Option<Node>) {
    && Lookup(u, d, t) == node
    && forall d': nat, n: Name :: d' in v.lay.dirs && d' in u.lay.dirs && !(d' == d && n == t) ==>
       Lookup(u, d', n) == Lookup(v, d', n)
  }

  /** No lookup changes. */
  ghost predicate TreeSame(v: Vol, u: Vol) {
    forall d: nat, n: Name :: d in v.lay.dirs ==> Lookup(u, d, n) == Lookup(v, d, n)
  }

  /** An entry written under a marked name is not there at all. */
  ghost predicate TreePut(v: Vol, u: Vol, d: nat, t: Name, node: Node) {
    if Marked(t) then TreeSame(v, u) else TreeSet(v, u, d, t, Some(node))
  }

  lemma MarkedUnnamed(v: Vol, d: nat, t: Name, j: nat, i: nat)
    ensures Marked(t) ==> !Named(v, d, t, j, i)
  {}

  lemma StagedShaped(v: Vol, hole: Loc)
    requires Staged(v, hole)
    ensures Shaped(v)
  {}

  /** A fresh slot changes no lookup. */
  lemma AllocSame(v: Vol, w: Vol, d: nat, j: nat, i: nat, c: nat, grown: bool)
    requires Wf(v) && Wf(w) && d in v.lay.dirs && InDir(w, d, j, i) && IsUnused(At(w, d, j, i))
    requires if grown then c in FreeSet(v.fat) && j == |v.lay.dirs[d]| && w == Extend(v, d, c) else w == v
    ensures TreeSame(v, w) && Frame(v, w, (d, j, i), 0) && w.lay.dirs.Keys == v.lay.dirs.Keys
    ensures w.lay.up == v.lay.up && w.lay.owner == v.lay.owner && w.root == v.root
    ensures forall n: Name :: !Named(v, d, n, j, i) && !Named(w, d, n, j, i)
  {
    hide EndsOk, NamesOk, DotsOk, SlotsOk, BlocksOk, ChainsOk, At, InDir, Frame, FreeSet, Visible, Extend, Lookup,
      Named, IsUnused, LayoutKept;
    UnusedFacts(v, w, d, j, i, c, grown);
    if grown { ExtendLayout(v, d, c); }
    ZeroIsNoHead(v);
    ZeroIsNoHead(w);
    forall d': nat, n: Name | d' in v.lay.dirs ensures Lookup(w, d', n) == Lookup(v, d', n) {
      LookupFrame(v, w, (d, j, i), 0, d', n);
    }
  }

  // ----- what a fresh slot costs -----

  lemma FreshCount(v: Vol, u: Vol, d: nat, j: nat, i: nat, c: nat, grown: bool)
    requires Wf(v) && d in v.lay.dirs && InDir(u, d, j, i) && IsUnused(At(u, d, j, i))
    requires forall j': nat, i': nat :: InDir(u, d, j', i') && Before(j', i', j, i) ==> !IsUnused(At(u, d, j', i'))
    requires if grown then c in FreeSet(v.fat) && j == |v.lay.dirs[d]| && i == 0 && u == Extend(v, d, c) else u == v
    ensures |FreeSet(u.fat)| == |FreeSet(v.fat)| - (if FreeSlot(v, d) then 0 else 1) && ChainOf(v, 0) == []
    ensures !FreeSlot(v, d) ==> FreeSet(v.fat) != {}
  {
    hide EndsOk, NamesOk, DotsOk, SlotsOk, BlocksOk, ChainsOk, At, FreeSet, IsUnused, Extend, Frame, Named;
    ZeroIsNoHead(v);
    if grown {
      GrownFree(v, d, c);
      FrameExtend(v, d, c, (d, j, i), 0);
      GrownFull(v, u, d, j);
    }
  }

  lemma GrownFull(v: Vol, u: Vol, d: nat, j: nat)
    requires d in v.lay.dirs && d != 0 && j == |v.lay.dirs[d]| && Frame(v, u, (d, j, 0), 0)
    requires forall j': nat, i': nat :: InDir(u, d, j', i') && Before(j', i', j, 0) ==> !IsUnused(At(u, d, j', i'))
    ensures !FreeSlot(v, d)
  {
    assert forall j': nat, i': nat :: InDir(v, d, j', i') ==> j' < j;
    hide At, InDir, IsUnused;
    forall j': nat, i': nat | InDir(v, d, j', i') ensures !IsUnused(At(v, d, j', i')) {
      assert InDir(u, d, j', i') && At(u, d, j', i') == At(v, d, j', i');
    }
  }

  lemma GrownFree(v: Vol, d: nat, c: nat)
    requires ChainsOk(v) && d in v.lay.dirs && c in FreeSet(v.fat)
    ensures |FreeSet(Extend(v, d, c).fat)| == |FreeSet(v.fat)| - 1
  {
    var last := ExtendFacts(v, d, c);
    var u := Extend(v, d, c);
    assert last in v.lay.dirs[d] && v.fat[last] != 0 by {
      assert ChainAt(v, d, v.lay.dirs[d]);
      ChainNotFree(v.fat, d, v.lay.dirs[d], last);
    }
    hide Extend, ChainsOk;
    assert forall x :: 2 <= x < |v.fat| && x != c && x != last ==> Undisturbed(v, u, x);
    assert FreeSet(u.fat) == FreeSet(v.fat) - {c};
  }
}
