/** rename below the path walk, including the repair of a moved directory's "..". */
module FatRename {
  import opened Basics
  import opened FatChain
  import opened FatVolume
  import opened FatChange
  import opened FatGrow
  import opened FatTree
  import opened FatDir
  import opened FatOps
  import opened FatRemove
  import opened FatMake

  /** Rewriting a slot that has the name neither before nor after does not change a lookup. */
  lemma LookupPut(v: Vol, u: Vol, d: nat, j: nat, i: nat, e: Slot, d': nat, t: Name)
    requires SlotSet(v, u, d, j, i, e) && InDir(v, d, j, i) && SameFiles(v, u) && NamesOk(v) && NamesOk(u)
    requires d' == d ==> !Named(v, d, t, j, i) && !Named(u, d, t, j, i)
    ensures Lookup(u, d', t) == Lookup(v, d', t)
  {
    hide At, InDir, Visible, Content, Lookup, NamesOk;
    if j': nat, i': nat :| Named(v, d', t, j', i') {
      assert !(d' == d && j' == j && i' == i);
      assert Named(u, d', t, j', i') && At(u, d', j', i') == At(v, d', j', i');
      LookupNamed(v, d', t, j', i');
      LookupNamed(u, d', t, j', i');
      SameNode(v, u, At(v, d', j', i'));
    } else {
      forall j': nat, i': nat ensures !Named(u, d', t, j', i') {
        assert !Named(v, d', t, j', i');
      }
      LookupAbsent(v, d', t);
      LookupAbsent(u, d', t);
    }
  }

  lemma SameNode(v: Vol, u: Vol, e: Slot)
    requires SameFiles(v, u)
    ensures NodeOf(u, e) == NodeOf(v, e)
  {
    hide IsDirEntry, First, Content;
  }

  // ----- the new entry -----

  lemma NewNameSlot(w: Vol, nd: nat, nj: nat, ni: nat, e: Slot, nt: Name)
    requires Proper(nt) && Visible(e) && !IsDotPlace(w, nd, nj, ni)
    ensures var ne := e.(name := nt);
            Visible(ne) == !Marked(nt) && !IsDot(ne) && !IsEnd(ne) && First(ne) == First(e)
              && IsDirEntry(ne) == IsDirEntry(e) && DotOk(w, nd, nj, ni, ne)
  {}

  /** The entry appears under its new name; its slot does not own the chain yet. */
  lemma PutNew(w: Vol, nd: nat, nj: nat, ni: nat, e: Slot, nt: Name)
    requires Wf(w) && InDir(w, nd, nj, ni) && NoEndBefore(w, nd, nj, ni) && !IsDotPlace(w, nd, nj, ni)
    requires Visible(e) && Proper(nt) && Absent(w, nd, nt)
    ensures var x := PutSlot(w, nd, nj, ni, e.(name := nt));
            && Staged(x, (nd, nj, ni)) && SlotSet(w, x, nd, nj, ni, e.(name := nt)) && SameFiles(w, x)
            && x.lay == w.lay && x.root == w.root && x.bpc == w.bpc
  {
    var ne := e.(name := nt);
    var x := PutSlot(w, nd, nj, ni, ne);
    NewNameSlot(w, nd, nj, ni, e, nt);
    hide At, InDir, SlotOk, BlocksOk, ChainsOk, Visible, IsDirEntry, First, IsDot, IsDotPlace, EndsOk, NamesOk, DotsOk,
      PutSlot, Content;
    PutSlotView(w, nd, nj, ni, ne);
    PutSlotRoot(w, nd, nj, ni, ne);
    EndsPut(w, x, nd, nj, ni, ne);
    NamesPut(w, x, nd, nj, ni, ne);
    assert DotOk(x, nd, nj, ni, ne);
    DotsPut(w, x, nd, nj, ni, ne);
    WidenHole(w, (nd, nj, ni));
    SlotsPut(w, x, nd, nj, ni, ne, (nd, nj, ni));
    assert x.bpc == w.bpc by { PutSlotBpc(w, nd, nj, ni, ne); }
  }

  lemma PutSlotBpc(v: Vol, d: nat, j: nat, i: nat, e: Slot)
    requires Shaped(v) && InDir(v, d, j, i)
    ensures PutSlot(v, d, j, i, e).bpc == v.bpc
  {}

  lemma PutNewLookups(w: Vol, x: Vol, nd: nat, nj: nat, ni: nat, e: Slot, nt: Name)
    requires NamesOk(w) && NamesOk(x) && InDir(w, nd, nj, ni) && Visible(e) && Proper(nt)
    requires SlotSet(w, x, nd, nj, ni, e.(name := nt)) && SameFiles(w, x)
    requires forall n: Name :: !Named(w, nd, n, nj, ni)
    ensures TreePut(w, x, nd, nt, NodeOf(w, e))
  {
    var ne := e.(name := nt);
    assert Visible(ne) == !Marked(nt) && NodeOf(x, ne) == NodeOf(x, e);
    hide At, InDir, Visible, IsDirEntry, First, NamesOk, Content, NodeOf, Lookup;
    if !Marked(nt) {
      assert Named(x, nd, nt, nj, ni);
      LookupNamed(x, nd, nt, nj, ni);
    }
    SameNode(w, x, e);
    forall d': nat, n: Name | d' in w.lay.dirs && (Marked(nt) || !(d' == nd && n == nt))
      ensures Lookup(x, d', n) == Lookup(w, d', n)
    {
      LookupPut(w, x, nd, nj, ni, ne, d', n);
    }
  }

  // ----- ".." -----

  /** x1 is x with the ".." of directory h naming nd. */
  ghost predicate DotMoved(x: Vol, x1: Vol, h: nat, nd: nat) {
    && Shaped(x1) && EndsOk(x1) && NamesOk(x1) && x1.lay == x.lay && x1.root == x.root && SameFiles(x, x1)
    && InDir(x, h, 0, 1)
    && SlotSet(x, x1, h, 0, 1, At(x1, h, 0, 1)) && DotDotTo(x, At(x1, h, 0, 1), nd)
  }

  predicate DotDotTo(x: Vol, e: Slot, nd: nat) {
    Visible(e) && IsDirEntry(e) && e.name == DOTDOT && First(e) == ParentRef(x, nd)
  }

  lemma StagedDot(x: Vol, hole: Loc, h: nat)
    requires Staged(x, hole) && h in x.lay.dirs && h != x.root
    ensures InDir(x, h, 0, 1) && Named(x, h, DOTDOT, 0, 1) && h in x.lay.up && DotDotTo(x, At(x, h, 0, 1), x.lay.up[h])
  {
    assert ChainAt(x, h, x.lay.dirs[h]);
    assert InDir(x, h, 0, 1);
    hide ChainsOk, BlocksOk, At, Visible, IsDirEntry, First;
    assert DotOk(x, h, 0, 1, At(x, h, 0, 1));
  }

  lemma DotStays(x: Vol, hole: Loc, h: nat)
    requires Staged(x, hole) && h in x.lay.dirs && h != x.root
    ensures h in x.lay.up && DotMoved(x, x, h, x.lay.up[h])
  {
    hide ChainsOk, BlocksOk, At, Visible, EndsOk, NamesOk, DotsOk, SlotsOk, DotDotTo, Content;
    StagedDot(x, hole, h);
  }

  lemma DotRewritten(x: Vol, hole: Loc, h: nat, nd: nat, e: Slot)
    requires Staged(x, hole) && h in x.lay.dirs && h != x.root && DotDotTo(x, e, nd) && InDir(x, h, 0, 1)
    ensures DotMoved(x, PutSlot(x, h, 0, 1, e), h, nd)
  {
    var x1 := PutSlot(x, h, 0, 1, e);
    assert !IsEnd(e);
    hide ChainsOk, BlocksOk, At, Visible, EndsOk, NamesOk, DotsOk, SlotsOk, InDir, PutSlot, Content, First, IsDirEntry,
      Named;
    StagedDot(x, hole, h);
    PutSlotView(x, h, 0, 1, e);
    PutSlotRoot(x, h, 0, 1, e);
    assert NoEndBefore(x, h, 0, 1) by { NamedIn(x, h, DOTDOT, 0, 1); NoEndBeforeVisible(x, h, 0, 1); }
    EndsPut(x, x1, h, 0, 1, e);
    NamedOnce(x, h, DOTDOT, 0, 1);
    NamesPut(x, x1, h, 0, 1, e);
  }

  /** repoint: what rename stores in the old ".." entry. */
  function Repoint(dd: Slot, target: nat): Slot {
    dd.(hi := target / 0x1_0000 % 0x1_0000, lo := target % 0x1_0000)
  }

  lemma RepointTo(x: Vol, dd: Slot, nd: nat)
    requires Visible(dd) && IsDirEntry(dd) && dd.name == DOTDOT && nd < EOC
    ensures DotDotTo(x, Repoint(dd, ParentRef(x, nd)), nd)
  {
    var p := ParentRef(x, nd);
    assert p / 0x1_0000 % 0x1_0000 == p / 0x1_0000;
  }

  // ----- handing over the chain -----

  function Hand(v: Vol, h: nat, place: Loc, nd: nat, dir: bool): Vol {
    v.(lay := v.lay.(owner := v.lay.owner[h := place], up := if dir then v.lay.up[h := nd] else v.lay.up))
  }

  lemma HandView(x: Vol, h: nat, place: Loc, nd: nat, dir: bool)
    requires Shaped(x)
    ensures var y := Hand(x, h, place, nd, dir);
            Shaped(y) && SameFiles(x, y) && (EndsOk(x) ==> EndsOk(y)) && (NamesOk(x) ==> NamesOk(y))
    ensures NamesOk(x) ==> forall d: nat, t: Name :: Lookup(Hand(x, h, place, nd, dir), d, t) == Lookup(x, d, t)
  {
    var y := Hand(x, h, place, nd, dir);
    ChainsKept2(x, y);
    hide ChainsOk;
    BlocksRestrict(x, y);
    SameAt(x, y);
    hide BlocksOk, At, InDir, Visible, Content;
    if NamesOk(x) {
      forall d: nat, t: Name ensures Lookup(y, d, t) == Lookup(x, d, t) { SameLookup(x, y, d, t); }
    }
  }

  lemma SameLookup(x: Vol, y: Vol, d: nat, t: Name)
    requires y.lay.dirs == x.lay.dirs && SameFiles(x, y) && y.blk == x.blk && y.bpc == x.bpc && NamesOk(x) && NamesOk(y)
    ensures Lookup(y, d, t) == Lookup(x, d, t)
  {
    SameAt(x, y);
    hide NodeOf, At, InDir, NamesOk, Lookup, Content, Visible;
    if j: nat, i: nat :| Named(x, d, t, j, i) {
      LookupNamed(x, d, t, j, i);
      LookupNamed(y, d, t, j, i);
      SameNode(x, y, At(x, d, j, i));
    } else {
      forall j: nat, i: nat ensures !Named(y, d, t, j, i) { assert !Named(x, d, t, j, i); }
      LookupAbsent(x, d, t);
      LookupAbsent(y, d, t);
    }
  }

  /** A slot other than the chain's owner does not mind the hand-over. */
  lemma HandSlot(x: Vol, y: Vol, h: nat, was: Loc, d: nat, j: nat, i: nat, e: Slot)
    requires SlotOk(x, d, j, i, e) && (d, j, i) != was && (h != 0 ==> h in x.lay.owner && x.lay.owner[h] == was)
    requires 0 !in x.lay.dirs && 0 !in x.lay.files && y.root == x.root && y.lay.dirs == x.lay.dirs && SameFiles(x, y)
    requires forall g :: g != h && g in x.lay.owner ==> g in y.lay.owner && y.lay.owner[g] == x.lay.owner[g]
    requires forall g :: g != h && g in x.lay.up ==> g in y.lay.up && y.lay.up[g] == x.lay.up[g]
    ensures SlotOk(y, d, j, i, e)
  {
    hide Visible, IsDot, IsDirEntry, First, Content;
  }

  /** The dots stay right: only the ".." of a moved directory depends on its parent. */
  lemma HandDots(x: Vol, x1: Vol, y: Vol, h: nat, nd: nat, dir: bool)
    requires DotsOk(x) && y.root == x.root
    requires if dir then DotMoved(x, x1, h, nd) && h != x.root else x1 == x
    requires forall d: nat, j: nat, i: nat {:trigger InDir(y, d, j, i)} :: InDir(y, d, j, i) == InDir(x1, d, j, i)
    requires forall d: nat, j: nat, i: nat {:trigger At(y, d, j, i)} :: At(y, d, j, i) == At(x1, d, j, i)
    requires forall g :: g in x.lay.up && !(dir && g == h) ==> g in y.lay.up && y.lay.up[g] == x.lay.up[g]
    requires dir ==> h in y.lay.up && y.lay.up[h] == nd
    ensures DotsOk(y)
  {
    hide At, InDir, Visible, IsDot, IsDirEntry, First, Shaped, EndsOk, NamesOk, SameFiles;
    forall d: nat, j: nat, i: nat | InDir(y, d, j, i) ensures DotOk(y, d, j, i, At(y, d, j, i)) {
      assert InDir(x1, d, j, i);
      assert InDir(x, d, j, i);
      assert DotOk(x, d, j, i, At(x, d, j, i));
      assert At(y, d, j, i) == At(x1, d, j, i);
    }
  }

  /** The slots stay right, except the old one. */
  lemma HandSlots(x: Vol, x1: Vol, y: Vol, h: nat, was: Loc, now: Loc, nd: nat, dir: bool)
    requires SlotsOk(x, now) && 0 !in x.lay.dirs && 0 !in x.lay.files
    requires (h != 0 ==> h in x.lay.owner && x.lay.owner[h] == was)
    requires if dir then DotMoved(x, x1, h, nd) else x1 == x
    requires forall d: nat, j: nat, i: nat {:trigger InDir(y, d, j, i)} :: InDir(y, d, j, i) == InDir(x1, d, j, i)
    requires forall d: nat, j: nat, i: nat {:trigger At(y, d, j, i)} :: At(y, d, j, i) == At(x1, d, j, i)
    requires y.root == x.root && y.lay.dirs == x.lay.dirs && SameFiles(x, y)
    requires forall g :: g != h && g in x.lay.owner ==> g in y.lay.owner && y.lay.owner[g] == x.lay.owner[g]
    requires forall g :: g != h && g in x.lay.up ==> g in y.lay.up && y.lay.up[g] == x.lay.up[g]
    requires InDir(x, now.0, now.1, now.2) ==> SlotOk(y, now.0, now.1, now.2, At(y, now.0, now.1, now.2))
    ensures SlotsOk(y, was)
  {
    hide At, InDir, SlotOk, Shaped, EndsOk, NamesOk, SameFiles;
    forall d: nat, j: nat, i: nat | InDir(y, d, j, i) && (d, j, i) != was ensures SlotOk(y, d, j, i, At(y, d, j, i)) {
      assert InDir(x1, d, j, i);
      assert InDir(x, d, j, i);
      assert At(y, d, j, i) == At(x1, d, j, i);
      if (d, j, i) != now {
        if dir && (d, j, i) == (h, 0, 1) {
          DotTrivial(y, d, j, i, At(y, d, j, i));
        } else {
          assert SlotOk(x, d, j, i, At(x, d, j, i));
          HandSlot(x, y, h, was, d, j, i, At(x, d, j, i));
        }
      }
    }
  }

  lemma DotTrivial(y: Vol, d: nat, j: nat, i: nat, e: Slot)
    requires e.name == DOTDOT
    ensures SlotOk(y, d, j, i, e)
  {
    hide Visible, IsDirEntry, First, Content;
  }

  // ----- the whole operation -----

  /** w is ready for the new entry: a fresh slot for nt in nd, the old entry e for ot in od. */
  ghost predicate Renaming(w: Vol, e: Slot, od: nat, ot: Name, oj: nat, oi: nat, nd: nat, nt: Name, nj: nat, ni: nat) {
    && Wf(w) && od in w.lay.dirs && nd in w.lay.dirs && ot[0] != 46 && Proper(nt)
    && Named(w, od, ot, oj, oi) && At(w, od, oj, oi) == e && Absent(w, nd, nt)
    && InDir(w, nd, nj, ni) && IsUnused(At(w, nd, nj, ni)) && NoEndBefore(w, nd, nj, ni)
  }

  lemma StartRenaming(v: Vol, w: Vol, e: Slot, od: nat, ot: Name, oj: nat, oi: nat, nd: nat, nt: Name, nj: nat,
          ni: nat, c: nat, grown: bool)
    requires Wf(v) && Wf(w) && od in v.lay.dirs && nd in v.lay.dirs && ot[0] != 46 && Proper(nt)
    requires Named(v, od, ot, oj, oi) && At(v, od, oj, oi) == e && Absent(v, nd, nt)
    requires InDir(w, nd, nj, ni) && IsUnused(At(w, nd, nj, ni))
    requires forall j': nat, i': nat :: InDir(w, nd, j', i') && Before(j', i', nj, ni) ==> !IsUnused(At(w, nd, j', i'))
    requires if grown then c in FreeSet(v.fat) && nj == |v.lay.dirs[nd]| && w == Extend(v, nd, c) else w == v
    ensures Renaming(w, e, od, ot, oj, oi, nd, nt, nj, ni) && TreeSame(v, w) && w.lay.dirs.Keys == v.lay.dirs.Keys
    ensures w.root == v.root
    ensures oj < |v.lay.dirs[od]| && oj < |w.lay.dirs[od]| && w.lay.dirs[od][oj] == v.lay.dirs[od][oj]
    ensures nj < |w.lay.dirs[nd]|
  {
    hide EndsOk, NamesOk, DotsOk, SlotsOk, BlocksOk, ChainsOk, At, Frame, FreeSet, Visible, Extend, Lookup, TreeSame;
    AllocSame(v, w, nd, nj, ni, c, grown);
    if grown { ExtendLayout(v, nd, c); }
    hide InDir;
    ZeroIsNoHead(v);
    OnlyHoleNamed(v, w, nd, nt, nj, ni);
    StillThere(v, w, (nd, nj, ni), od, ot, oj, oi);
  }

  lemma StillThere(v: Vol, w: Vol, hole: Loc, d: nat, t: Name, j: nat, i: nat)
    requires Frame(v, w, hole, 0) && Named(v, d, t, j, i)
    requires (hole.0 == d ==> forall n: Name :: !Named(v, d, n, hole.1, hole.2)) && 0 !in v.lay.dirs
    ensures Named(w, d, t, j, i) && At(w, d, j, i) == At(v, d, j, i)
  {
    InDirHead(v, d, j, i);
    hide At, InDir, Visible;
    assert (d, j, i) != hole;
  }

  /** What the old entry refers to. */
  ghost predicate RefersTo(w: Vol, e: Slot, was: Loc, h: nat) {
    && First(e) == h && (h != 0 ==> h in w.lay.owner && w.lay.owner[h] == was)
    && if IsDirEntry(e) then h in w.lay.dirs && h != w.root && h in w.lay.up && w.lay.up[h] == was.0 && h != 0
       else (h == 0 && e.size == 0) || (h in w.lay.files && e.size <= |Content(w.blk, w.lay.files[h])|)
  }

  lemma OldRefers(w: Vol, e: Slot, d: nat, t: Name, j: nat, i: nat)
    requires Wf(w) && Named(w, d, t, j, i) && At(w, d, j, i) == e && t[0] != 46
    ensures RefersTo(w, e, (d, j, i), First(e)) && 0 !in w.lay.dirs && 0 !in w.lay.files
  {
    NamedIn(w, d, t, j, i);
    NotHole(w, d, j, i);
    ZeroIsNoHead(w);
    hide ChainsOk, BlocksOk, At, InDir, First, Visible, IsDirEntry, Content, EndsOk, NamesOk, DotsOk;
    assert SlotOk(w, d, j, i, e);
  }

  /** The entry e moves from `was` to `now` in x; x1 also has the ".." of a moved directory. */
  ghost predicate Moving(x: Vol, x1: Vol, e: Slot, h: nat, was: Loc, now: Loc) {
    && Staged(x, now) && InDir(x, now.0, now.1, now.2) && was != now && now.0 in x.lay.dirs
    && RefersTo(x, e, was, h) && !IsDot(e) && At(x, now.0, now.1, now.2) == e
    && if IsDirEntry(e) then DotMoved(x, x1, h, now.0) else x1 == x
  }

  lemma Handover(x: Vol, x1: Vol, e: Slot, h: nat, was: Loc, now: Loc)
    requires Moving(x, x1, e, h, was, now)
    ensures var y := Hand(x1, h, now, now.0, IsDirEntry(e));
            && Staged(y, was) && SameFiles(x, y) && y.lay.dirs == x.lay.dirs && y.root == x.root
            && (IsDirEntry(e) ==> h in y.lay.up && y.lay.up[h] == now.0)
  {
    hide ChainsOk, BlocksOk, At, InDir, Visible, EndsOk, NamesOk, DotsOk, SlotsOk, SlotOk, Content, First, IsDot;
    var dir := IsDirEntry(e);
    hide IsDirEntry;
    var y := Hand(x1, h, now, now.0, dir);
    ZeroIsNoHead(x);
    HandView(x1, h, now, now.0, dir);
    SameAt(x1, y);
    HandDots(x, x1, y, h, now.0, dir);
    NewOwner(x, x1, y, e, h, was, now);
    HandSlots(x, x1, y, h, was, now, now.0, dir);
  }

  lemma NewOwner(x: Vol, x1: Vol, y: Vol, e: Slot, h: nat, was: Loc, now: Loc)
    requires Moving(x, x1, e, h, was, now) && y == Hand(x1, h, now, now.0, IsDirEntry(e))
    ensures At(y, now.0, now.1, now.2) == e && SlotOk(y, now.0, now.1, now.2, e)
  {
    hide ChainsOk, BlocksOk, At, InDir, EndsOk, NamesOk, DotsOk, SlotsOk, Content, First, IsDirEntry, Visible;
    SameAt(x1, y);
    if IsDirEntry(e) {
      StagedDot(x, now, h);
      assert At(x, h, 0, 1).name == DOTDOT && now != (h, 0, 1);
    }
    assert At(x1, now.0, now.1, now.2) == e;
  }

  /** What rename does to the tree: the node moves from one name to the other (or out of sight, if the
      new name is marked), a moved directory's ".." names its new parent, and nothing else changes. */
  ghost predicate Renamed(v: Vol, u: Vol, od: nat, ot: Name, nd: nat, nt: Name) {
    && Lookup(v, od, ot).Some? && Lookup(u, nd, nt) == (if Marked(nt) then None else Lookup(v, od, ot))
    && Lookup(u, od, ot) == None
    && var node := Lookup(v, od, ot).value;
    && (forall d: nat, n: Name ::
          d in v.lay.dirs && (d, n) != (od, ot) && (d, n) != (nd, nt) && !(node == DirNode(d) && n == DOTDOT) ==>
            Lookup(u, d, n) == Lookup(v, d, n))
    && (node.DirNode? ==> Lookup(u, node.dir, DOTDOT) == Some(DirNode(ParentRef(u, nd))))
  }

  lemma MovedLookups(x: Vol, x1: Vol, e: Slot, h: nat, was: Loc, now: Loc, d: nat, n: Name)
    requires Moving(x, x1, e, h, was, now) && !(IsDirEntry(e) && d == h && n == DOTDOT)
    ensures Lookup(Hand(x1, h, now, now.0, IsDirEntry(e)), d, n) == Lookup(x, d, n)
  {
    hide ChainsOk, BlocksOk, At, InDir, Visible, EndsOk, NamesOk, DotsOk, SlotsOk, SlotOk, Content, First, IsDot,
      IsDirEntry, Lookup, Hand;
    HandView(x1, h, now, now.0, IsDirEntry(e));
    if IsDirEntry(e) {
      StagedDot(x, now, h);
      LookupPut(x, x1, h, 0, 1, At(x1, h, 0, 1), d, n);
    }
  }

  lemma RenameDone(w: Vol, x: Vol, x1: Vol, e: Slot, h: nat, od: nat, ot: Name, oj: nat, oi: nat, nd: nat, nt: Name,
          nj: nat, ni: nat)
    requires Renaming(w, e, od, ot, oj, oi, nd, nt, nj, ni) && x == PutSlot(w, nd, nj, ni, e.(name := nt))
    requires h == First(e)
    requires Moving(x, x1, e.(name := nt), h, (od, oj, oi), (nd, nj, ni))
    requires TreePut(w, x, nd, nt, NodeOf(w, e)) && x.lay == w.lay && x.root == w.root
    requires Named(x, od, ot, oj, oi) && At(x, od, oj, oi) == e
    ensures var y := Hand(x1, h, (nd, nj, ni), nd, IsDirEntry(e));
            && Shaped(y) && InDir(y, od, oj, oi) && y.lay.dirs == w.lay.dirs
            && var u := PutSlot(y, od, oj, oi, Deleted(At(y, od, oj, oi)));
               Wf(u) && Renamed(w, u, od, ot, nd, nt) && u.lay.dirs == w.lay.dirs
  {
    var was, now, ne := (od, oj, oi), (nd, nj, ni), e.(name := nt);
    assert IsDirEntry(ne) == IsDirEntry(e);
    hide ChainsOk, BlocksOk, At, InDir, Visible, EndsOk, NamesOk, DotsOk, SlotsOk, SlotOk, Content, First, IsDot,
      IsDirEntry, Lookup, Hand, PutSlot, Deleted, Moving;
    var y := Hand(x1, h, now, nd, IsDirEntry(e));
    Handover(x, x1, ne, h, was, now);
    assert Named(y, od, ot, oj, oi) by { StillOld(x, x1, y, ne, h, was, now, ot); }
    NamedIn(y, od, ot, oj, oi);
    DeleteFills(y, od, ot, oj, oi);
    var u := PutSlot(y, od, oj, oi, Deleted(At(y, od, oj, oi)));
    PutSlotRoot(y, od, oj, oi, Deleted(At(y, od, oj, oi)));
    RenamedTree(w, x, x1, y, u, e, h, od, ot, oj, oi, nd, nt, nj, ni);
  }

  lemma StillOld(x: Vol, x1: Vol, y: Vol, ne: Slot, h: nat, was: Loc, now: Loc, ot: Name)
    requires Moving(x, x1, ne, h, was, now) && y == Hand(x1, h, now, now.0, IsDirEntry(ne))
    requires Named(x, was.0, ot, was.1, was.2) && ot[0] != 46
    ensures Named(y, was.0, ot, was.1, was.2)
  {
    hide ChainsOk, BlocksOk, At, InDir, EndsOk, NamesOk, DotsOk, SlotsOk, Content, First, IsDirEntry, Visible;
    SameAt(x1, y);
    if IsDirEntry(ne) {
      StagedDot(x, now, h);
      assert At(x, h, 0, 1).name == DOTDOT && was != (h, 0, 1);
    }
    assert At(x1, was.0, was.1, was.2) == At(x, was.0, was.1, was.2);
  }

  /** Deleting the old entry, after the hand-over. */
  lemma AfterMove(x: Vol, x1: Vol, y: Vol, u: Vol, e: Slot, h: nat, od: nat, ot: Name, oj: nat, oi: nat, now: Loc)
    requires Moving(x, x1, e, h, (od, oj, oi), now) && y == Hand(x1, h, now, now.0, IsDirEntry(e))
    requires Staged(y, (od, oj, oi)) && Named(y, od, ot, oj, oi)
    requires InDir(y, od, oj, oi) && u == PutSlot(y, od, oj, oi, Deleted(At(y, od, oj, oi)))
    requires Wf(u) && (forall n: Name :: !Named(u, od, n, oj, oi))
    ensures forall d: nat, n: Name :: !(d == od && n == ot) && !(IsDirEntry(e) && d == h && n == DOTDOT) ==>
            Lookup(u, d, n) == Lookup(x, d, n)
  {
    hide ChainsOk, BlocksOk, At, InDir, Visible, EndsOk, NamesOk, DotsOk, SlotsOk, Content, IsDirEntry, Lookup, Hand,
      PutSlot, Deleted, Moving, Named;
    NamedOnce(y, od, ot, oj, oi);
    PutSlotView(y, od, oj, oi, Deleted(At(y, od, oj, oi)));
    forall d: nat, n: Name | !(d == od && n == ot) && !(IsDirEntry(e) && d == h && n == DOTDOT)
      ensures Lookup(u, d, n) == Lookup(x, d, n)
    {
      LookupPut(y, u, od, oj, oi, Deleted(At(y, od, oj, oi)), d, n);
      MovedLookups(x, x1, e, h, (od, oj, oi), now, d, n);
    }
  }

  lemma RenamedTree(w: Vol, x: Vol, x1: Vol, y: Vol, u: Vol, e: Slot, h: nat, od: nat, ot: Name, oj: nat, oi: nat,
          nd: nat, nt: Name, nj: nat, ni: nat)
    requires Wf(w) && Named(w, od, ot, oj, oi) && At(w, od, oj, oi) == e && h == First(e) && od in w.lay.dirs
    requires nd in w.lay.dirs && ot[0] != 46
    requires Absent(w, nd, nt) && Proper(nt)
    requires Moving(x, x1, e.(name := nt), h, (od, oj, oi), (nd, nj, ni))
    requires y == Hand(x1, h, (nd, nj, ni), nd, IsDirEntry(e))
    requires TreePut(w, x, nd, nt, NodeOf(w, e)) && x.lay == w.lay
    requires Staged(y, (od, oj, oi)) && Named(y, od, ot, oj, oi) && y.lay.dirs == w.lay.dirs && y.root == w.root
    requires IsDirEntry(e) ==> h in y.lay.up && y.lay.up[h] == nd
    requires InDir(y, od, oj, oi) && u == PutSlot(y, od, oj, oi, Deleted(At(y, od, oj, oi)))
    requires Wf(u) && u.lay == y.lay && u.root == y.root && (forall j: nat, i: nat :: !Named(u, od, ot, j, i))
    requires (forall n: Name :: !Named(u, od, n, oj, oi))
    ensures Renamed(w, u, od, ot, nd, nt)
  {
    hide Wf, Staged, At, InDir, Visible, NamesOk, Content, First, IsDirEntry, Lookup, Hand, PutSlot, Deleted, Moving,
      Named, NodeOf;
    var ne := e.(name := nt);
    SameKind(e, nt);
    assert NamesOk(w) by { WfNames(w); }
    LookupNamed(w, od, ot, oj, oi);
    LookupAbsent(u, od, ot);
    LookupAbsent(w, nd, nt);
    AfterMove(x, x1, y, u, ne, h, od, ot, oj, oi, (nd, nj, ni));
    NodeCases(w, e);
    assert (od, ot) != (nd, nt) && nt != DOTDOT;
    if IsDirEntry(e) {
      DirSlot(w, od, ot, oj, oi);
      DotLookup(u, h);
    }
  }

  lemma SameKind(e: Slot, nt: Name)
    ensures IsDirEntry(e.(name := nt)) == IsDirEntry(e) && First(e.(name := nt)) == First(e)
  {}

  lemma WfNames(w: Vol)
    requires Wf(w)
    ensures NamesOk(w)
  {}

  lemma NodeCases(w: Vol, e: Slot)
    ensures IsDirEntry(e) ==> NodeOf(w, e) == DirNode(First(e))
    ensures !IsDirEntry(e) ==> NodeOf(w, e).FileNode?
  {}

  /** x has the entry under its new name as well. */
  ghost predicate Doubled(w: Vol, x: Vol, e: Slot, h: nat, od: nat, ot: Name, oj: nat, oi: nat, nd: nat, nt: Name,
          nj: nat, ni: nat) {
    && Staged(x, (nd, nj, ni)) && x.lay == w.lay && x.root == w.root && TreePut(w, x, nd, nt, NodeOf(w, e))
    && Named(x, od, ot, oj, oi) && At(x, od, oj, oi) == e && (od, oj, oi) != (nd, nj, ni)
    && InDir(x, nd, nj, ni) && nd in x.lay.dirs && At(x, nd, nj, ni) == e.(name := nt)
    && RefersTo(x, e.(name := nt), (od, oj, oi), h) && !IsDot(e.(name := nt))
  }

  lemma Doubles(w: Vol, e: Slot, od: nat, ot: Name, oj: nat, oi: nat, nd: nat, nt: Name, nj: nat, ni: nat)
    requires Renaming(w, e, od, ot, oj, oi, nd, nt, nj, ni)
    ensures Doubled(w, PutSlot(w, nd, nj, ni, e.(name := nt)), e, First(e), od, ot, oj, oi, nd, nt, nj, ni)
  {
    hide ChainsOk, BlocksOk, EndsOk, NamesOk, DotsOk, SlotsOk, Content, First, IsDirEntry, Lookup, PutSlot, At, InDir,
      NodeOf, NoEndBefore;
    var x := PutSlot(w, nd, nj, ni, e.(name := nt));
    NotDotPlace(w, nd, nj, ni);
    NewNameSlot(w, nd, nj, ni, e, nt);
    PutNew(w, nd, nj, ni, e, nt);
    PutNewLookups(w, x, nd, nj, ni, e, nt);
    assert (od, oj, oi) != (nd, nj, ni);
    OldRefers(w, e, od, ot, oj, oi);
    RefersKept(w, x, e, nt, (od, oj, oi), First(e));
  }

  lemma RefersKept(w: Vol, x: Vol, e: Slot, nt: Name, was: Loc, h: nat)
    requires RefersTo(w, e, was, h) && x.lay == w.lay && x.root == w.root && SameFiles(w, x)
    ensures RefersTo(x, e.(name := nt), was, h)
  {
    SameKind(e, nt);
    hide First, IsDirEntry, Content;
  }

  /** Points the ".." of directory h at nd. */
  method MoveDots(fs: Volume, h: nat, nd: nat, ghost hole: Loc)
    requires Staged(fs.V(), hole) && h in fs.lay.dirs && h != fs.root && nd in fs.lay.dirs
    modifies fs`blk
    ensures DotMoved(old(fs.V()), fs.V(), h, nd)
  {
    ghost var x := fs.V();
    hide ChainsOk, BlocksOk, NamesOk, DotsOk, SlotsOk, First, IsDirEntry, PutSlot, At, InDir, Named, DotMoved, Repoint,
      Visible;
    var found, dd, c, i;
    ghost var j;
    found, dd, c, i, j := fs.DirFind(h, DOTDOT);
    assert fs.V() == x;
    StagedDot(x, hole, h);
    NamedOnce(x, h, DOTDOT, 0, 1);
    assert found;
    if found {
      assert j == 0 && i == 1;
      HeadSmall(x, nd);
      RepointTo(x, dd, nd);
      DotRewritten(x, hole, h, nd, Repoint(dd, ParentRef(x, nd)));
      fs.DirWriteEntry(c, i, Repoint(dd, if nd == fs.root then 0 else nd), h, j);
    }
  }

  /** canboot_fat32_rename below the path walks: succeeds exactly when the old name exists, the new
      one does not and its directory has room. */
  method Rename(fs: Volume, od: nat, ot: Name, nd: nat, nt: Name) returns (ok: bool)
    requires Wf(fs.V()) && od in fs.lay.dirs && nd in fs.lay.dirs && ot[0] != 46 && Proper(nt)
    modifies fs
    ensures ok <==> !Absent(old(fs.V()), od, ot) && Absent(old(fs.V()), nd, nt) && HasRoom(old(fs.V()), nd)
    ensures ok ==> Wf(fs.V()) && Renamed(old(fs.V()), fs.V(), od, ot, nd, nt)
    ensures ok ==> fs.lay.dirs.Keys == old(fs.lay).dirs.Keys
    ensures ok ==> |FreeSet(fs.fat)| == |old(FreeSet(fs.fat))| - (if FreeSlot(old(fs.V()), nd) then 0 else 1)
    ensures !ok ==> fs.V() == old(fs.V())
  {
    hide ChainsOk, BlocksOk, EndsOk, NamesOk, DotsOk, SlotsOk, First, IsDirEntry, PutSlot, At, InDir, Named, Visible,
      IsUnused, Extend, FreeSet, Renamed, Lookup;
    ghost var v := fs.V();
    var found, e, oc, oi;
    ghost var oj;
    found, e, oc, oi, oj := fs.DirFind(od, ot);
    assert fs.V() == v;
    if !found { return false; }
    var taken, e', c', i';
    ghost var j';
    taken, e', c', i', j' := fs.DirFind(nd, nt);
    assert fs.V() == v;
    if taken { return false; }
    var ec, ei;
    ghost var nj, grown;
    ok, ec, ei, nj, grown := fs.DirAllocSlot(nd);
    if !ok { return; }
    ghost var w := fs.V();
    RoomFound(v, w, nd, nj, ei, grown);
    FreshCount(v, w, nd, nj, ei, ec, grown);
    StartRenaming(v, w, e, od, ot, oj, oi, nd, nt, nj, ei, ec, grown);
    RenameEntry(fs, e, oc, oi, nd, nt, ec, ei, od, ot, oj, nj);
    RenamedFrom(v, w, fs.V(), od, ot, nd, nt);
  }

  lemma RenamedFrom(v: Vol, w: Vol, u: Vol, od: nat, ot: Name, nd: nat, nt: Name)
    requires TreeSame(v, w) && Renamed(w, u, od, ot, nd, nt) && w.lay.dirs.Keys == v.lay.dirs.Keys && od in v.lay.dirs
    requires nd in v.lay.dirs
    ensures Renamed(v, u, od, ot, nd, nt)
  {
    hide Lookup;
  }

  /** The second half of rename: new entry, "..", old entry. */
  method RenameEntry(fs: Volume, e: Slot, oc: nat, oi: nat, nd: nat, nt: Name, ec: nat, ei: nat, ghost od: nat,
          ghost ot: Name, ghost oj: nat, ghost nj: nat)
    requires Renaming(fs.V(), e, od, ot, oj, oi, nd, nt, nj, ei)
    requires oj < |fs.lay.dirs[od]| && oc == fs.lay.dirs[od][oj] && nj < |fs.lay.dirs[nd]| && ec == fs.lay.dirs[nd][nj]
    modifies fs
    ensures Wf(fs.V()) && Renamed(old(fs.V()), fs.V(), od, ot, nd, nt) && fs.lay.dirs == old(fs.lay).dirs
    ensures fs.fat == old(fs.fat)
  {
    hide ChainsOk, BlocksOk, EndsOk, NamesOk, DotsOk, SlotsOk, First, IsDirEntry, PutSlot, At, InDir, Named, Visible,
      IsUnused, Renamed, Lookup, Doubled, Moving;
    ghost var w, h := fs.V(), First(e);
    Doubles(w, e, od, ot, oj, oi, nd, nt, nj, ei);
    fs.DirWriteEntry(ec, ei, e.(name := nt), nd, nj);
    ghost var x := fs.V();
    if IsDirEntry(e) && nd != oc {
      DoubledDir(w, x, e, h, od, ot, oj, oi, nd, nt, nj, ei);
      MoveDots(fs, First(e), nd, (nd, nj, ei));
    } else {
      if IsDirEntry(e) {
        DoubledDir(w, x, e, h, od, ot, oj, oi, nd, nt, nj, ei);
        SameParent(w, od, oj, nd);
        DotStays(x, (nd, nj, ei), h);
      }
    }
    ghost var x1 := fs.V();
    StartMoving(w, x, x1, e, h, od, ot, oj, oi, nd, nt, nj, ei);
    RenameDone(w, x, x1, e, h, od, ot, oj, oi, nd, nt, nj, ei);
    fs.lay := fs.lay.(owner := fs.lay.owner[h := (nd, nj, ei)], up := if IsDirEntry(e) then fs.lay.up[h := nd]
      else fs.lay.up);
    fs.DirMarkDeleted(oc, oi, od, oj);
    assert fs.fat == w.fat;
  }

  /** The entry lies in the first cluster of nd only if nd is its directory. */
  lemma SameParent(w: Vol, od: nat, oj: nat, nd: nat)
    requires ChainsOk(w) && od in w.lay.dirs && nd in w.lay.dirs && oj < |w.lay.dirs[od]| && w.lay.dirs[od][oj] == nd
    ensures od == nd
  {
    assert ChainAt(w, nd, w.lay.dirs[nd]);
    DirApart(w, od, oj, nd, 0);
  }

  lemma DoubledDir(w: Vol, x: Vol, e: Slot, h: nat, od: nat, ot: Name, oj: nat, oi: nat, nd: nat, nt: Name, nj: nat,
          ni: nat)
    requires Doubled(w, x, e, h, od, ot, oj, oi, nd, nt, nj, ni) && IsDirEntry(e)
    ensures Staged(x, (nd, nj, ni)) && h == First(e) && h in x.lay.dirs && h != x.root && h in x.lay.up
    ensures x.lay.up[h] == od && nd in x.lay.dirs
  {
    SameKind(e, nt);
    hide First, IsDirEntry, Staged, Content;
  }

  lemma StartMoving(w: Vol, x: Vol, x1: Vol, e: Slot, h: nat, od: nat, ot: Name, oj: nat, oi: nat, nd: nat, nt: Name,
          nj: nat, ni: nat)
    requires Doubled(w, x, e, h, od, ot, oj, oi, nd, nt, nj, ni)
    requires if IsDirEntry(e) then DotMoved(x, x1, h, nd) else x1 == x
    ensures Moving(x, x1, e.(name := nt), h, (od, oj, oi), (nd, nj, ni))
    ensures TreePut(w, x, nd, nt, NodeOf(w, e)) && x.lay == w.lay && x.root == w.root && Named(x, od, ot, oj, oi)
    ensures At(x, od, oj, oi) == e
  {
    hide First, Staged, Content, DotMoved, RefersTo, Visible, At, InDir, Named, Lookup, NodeOf;
    SameKind(e, nt);
    hide IsDirEntry;
  }
}
