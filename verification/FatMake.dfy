/** mkdir below the path walk. */
module FatMake {
  import opened Basics
  import opened FatChain
  import opened FatVolume
  import opened FatChange
  import opened FatGrow
  import opened FatTree
  import opened FatDir
  import opened FatOps
  import opened FatRemove

  lemma DotSlotOf(v: Vol, h: nat, i: nat)
    requires Wf(v) && h in v.lay.dirs && h != v.root && i < 2
    ensures InDir(v, h, 0, i) && Visible(At(v, h, 0, i)) && IsDirEntry(At(v, h, 0, i))
    ensures Named(v, h, if i == 0 then DOT else DOTDOT, 0, i)
    ensures i == 0 ==> First(At(v, h, 0, i)) == h
    ensures i == 1 ==> h in v.lay.up && First(At(v, h, 0, i)) == ParentRef(v, v.lay.up[h])
  {
    assert ChainAt(v, h, v.lay.dirs[h]);
    assert InDir(v, h, 0, i);
    hide ChainsOk, BlocksOk, At, Visible, IsDirEntry, First;
    assert DotOk(v, h, 0, i, At(v, h, 0, i));
  }

  /** In a well-formed volume "." is the directory itself and ".." the parent that has its entry. */
  lemma DotLookup(v: Vol, h: nat)
    requires Wf(v) && h in v.lay.dirs && h != v.root
    ensures Lookup(v, h, DOT) == Some(DirNode(h))
    ensures h in v.lay.up && Lookup(v, h, DOTDOT) == Some(DirNode(ParentRef(v, v.lay.up[h])))
  {
    hide SlotsOk, DotsOk, EndsOk, NamesOk, ChainsOk, BlocksOk, At, InDir, First, IsDirEntry, Visible, Named, Lookup,
      NodeOf;
    DotSlotOf(v, h, 0);
    DotSlotOf(v, h, 1);
    LookupNamed(v, h, DOT, 0, 0);
    LookupNamed(v, h, DOTDOT, 0, 1);
    DirNodeOf(v, At(v, h, 0, 0));
    DirNodeOf(v, At(v, h, 0, 1));
  }

  /** Handing an unowned directory to a slot. */
  lemma StageRelabel(v: Vol, h: nat, hole: Loc, lost: nat)
    requires Wf(v) && h in v.lay.owner && (v.lay.owner[h] == NO_HOLE || v.lay.owner[h] == hole)
    ensures var u := Relabel(v, h, hole);
            Staged(u, hole) && Frame(v, u, hole, lost) && SlotsBut(v, u, 0) && SameFiles(v, u)
  {
    hide At, InDir, SlotOk, BlocksOk, ChainsOk, EndsOk, NamesOk, DotsOk, Content;
    RelabelView(v, h, hole);
    SlotFactsKept(v, Relabel(v, h, hole), 0);
    RelabelSlots(v, h, hole, hole);
    ZeroIsNoHead(v);
    forall d: nat, j: nat, i: nat | InDir(v, d, j, i) ensures d != 0 { InDirHead(v, d, j, i); }
  }

  /** The fresh directory holds no names but its dots. */
  lemma FreshNames(v: Vol, u: Vol, dc: nat, ref: nat, slots: seq<Slot>, hole: Loc)
    requires Frame(v, u, hole, 0) && hole.0 != dc && dc != 0 && dc in v.lay.dirs
    requires forall j: nat, i: nat :: InDir(v, dc, j, i) ==> i < |slots| && At(v, dc, j, i) == slots[i]
    requires |slots| >= 2 && slots == DotSlots(dc, ref, |slots|)
    ensures forall n: Name :: n[0] != 46 ==> Lookup(u, dc, n) == None
  {
    hide At, InDir;
    forall n: Name | n[0] != 46 ensures Lookup(u, dc, n) == None {
      forall j: nat, i: nat ensures !Named(u, dc, n, j, i) {
        if InDir(v, dc, j, i) && InDir(u, dc, j, i) {
          assert At(u, dc, j, i) == slots[i];
          assert i >= 2 ==> slots[i] == BLANK;
        }
      }
      LookupAbsent(u, dc, n);
    }
  }

  /** The directory entry goes into the hole. */
  lemma NewDirEntry(x: Vol, d: nat, j: nat, i: nat, t: Name, dc: nat)
    requires Proper(t) && dc in x.lay.dirs && dc != x.root && dc in x.lay.up && x.lay.up[dc] == d
    requires dc in x.lay.owner && x.lay.owner[dc] == (d, j, i) && dc < EOC
    ensures var e := MakeEntry(t, ATTR_DIRECTORY, dc, 0);
            Visible(e) == !Marked(t) && IsDirEntry(e) && !IsDot(e) && !IsEnd(e) && e.name == t && First(e) == dc
              && SlotOk(x, d, j, i, e)
  {
    MakeEntryFirst(t, ATTR_DIRECTORY, dc, 0);
    hide First, Content;
  }

  lemma MkdirDone(v: Vol, x: Vol, d: nat, t: Name, j: nat, i: nat, dc: nat)
    requires Wf(v) && Proper(t) && Absent(v, d, t) && d in v.lay.dirs && dc !in v.lay.dirs
    requires Staged(x, (d, j, i)) && Frame(v, x, (d, j, i), 0) && InDir(x, d, j, i) && NoEndBefore(x, d, j, i)
    requires !IsDotPlace(x, d, j, i)
    requires forall n: Name :: !Named(v, d, n, j, i)
    requires dc in x.lay.dirs && dc != x.root && dc in x.lay.up && x.lay.up[dc] == d
    requires dc in x.lay.owner && x.lay.owner[dc] == (d, j, i) && dc < EOC
    ensures var u := PutSlot(x, d, j, i, MakeEntry(t, ATTR_DIRECTORY, dc, 0));
            Wf(u) && TreePut(v, u, d, t, DirNode(dc)) && u.lay == x.lay && u.root == x.root && Frame(x, u, (d, j, i), 0)
  {
    var e, hole := MakeEntry(t, ATTR_DIRECTORY, dc, 0), (d, j, i);
    var u := PutSlot(x, d, j, i, e);
    NewDirEntry(x, d, j, i, t, dc);
    hide First, Visible, MakeEntry, SlotOk, BlocksOk, ChainsOk, PutSlot, At, InDir, IsDirEntry, EndsOk, NamesOk,
      DotsOk, SlotsOk, Frame, NoEndBefore, IsDotPlace, Lookup, Content;
    ZeroIsNoHead(v);
    OnlyHoleNamed(v, x, d, t, j, i);
    FillHole(x, d, j, i, e);
    PutSlotRoot(x, d, j, i, e);
    FramePut(x, d, j, i, e, 0);
    FrameTrans(v, x, u, hole, 0);
    ZeroIsNoHead(u);
    PutSlotView(x, d, j, i, e);
    assert At(u, d, j, i) == e;
    if !Marked(t) {
      assert Named(u, d, t, j, i);
      LookupNamed(u, d, t, j, i);
      DirNodeOf(u, e);
    }
    MarkedUnnamed(v, d, t, j, i);
    forall d': nat, n: Name | d' in v.lay.dirs && (Marked(t) || !(d' == d && n == t))
      ensures Lookup(u, d', n) == Lookup(v, d', n)
    {
      LookupFrame(v, u, hole, 0, d', n);
    }
  }

  lemma OnlyHoleNamed(v: Vol, x: Vol, d: nat, t: Name, j: nat, i: nat)
    requires Absent(v, d, t) && Frame(v, x, (d, j, i), 0) && d in v.lay.dirs && d != 0
    ensures forall j': nat, i': nat :: Named(x, d, t, j', i') ==> j' == j && i' == i
  {
    hide At, InDir, Visible;
    forall j': nat, i': nat ensures Named(x, d, t, j', i') ==> j' == j && i' == i {
      assert !Named(v, d, t, j', i');
    }
  }

  /** From the slot that dir_alloc_slot found to a volume that waits for the entry of dc. */
  lemma MkdirStage(a: Vol, w: Vol, d: nat, j: nat, i: nat, c: nat, grown: bool, dc: nat)
    requires Wf(a) && Wf(w) && d in a.lay.dirs && dc in a.lay.dirs && dc != a.root && dc in a.lay.up
    requires a.lay.up[dc] == d
    requires dc in a.lay.owner && a.lay.owner[dc] == NO_HOLE
    requires InDir(w, d, j, i) && IsUnused(At(w, d, j, i))
    requires forall j': nat, i': nat :: InDir(w, d, j', i') && Before(j', i', j, i) ==> !IsUnused(At(w, d, j', i'))
    requires if grown then c in FreeSet(a.fat) && j == |a.lay.dirs[d]| && w == Extend(a, d, c) else w == a
    ensures var x := Relabel(w, dc, (d, j, i));
            && Staged(x, (d, j, i)) && Frame(a, x, (d, j, i), 0) && InDir(x, d, j, i) && NoEndBefore(x, d, j, i)
            && !IsDotPlace(x, d, j, i)
            && dc in x.lay.dirs && x.root == a.root && dc in x.lay.up && x.lay.up[dc] == d
            && x.lay.dirs.Keys == a.lay.dirs.Keys
            && x.lay.dirs == w.lay.dirs
  {
    var x := Relabel(w, dc, (d, j, i));
    assert !Visible(At(w, d, j, i));
    hide ChainsOk, BlocksOk, SlotOk, EndsOk, NamesOk, DotsOk, SlotsOk, Extend, At, InDir, Content, Visible, Frame,
      Staged;
    UnusedFacts(a, w, d, j, i, c, grown);
    if grown { ExtendLayout(a, d, c); }
    StageRelabel(w, dc, (d, j, i), 0);
    FrameTrans(a, w, x, (d, j, i), 0);
    NotDotPlace(w, d, j, i);
    SameAt(w, x);
  }

  lemma AddedDir(v: Vol, dc: nat, slots: seq<Slot>, parent: nat)
    requires Shaped(v) && dc in FreeSet(v.fat) && |slots| == PerCluster(v)
    ensures var a := AddDir(v, dc, slots, parent);
            && dc !in v.lay.dirs && dc in a.lay.dirs && dc != a.root && a.root == v.root
            && a.lay.dirs.Keys == v.lay.dirs.Keys + {dc}
            && dc in a.lay.up && a.lay.up[dc] == parent && dc in a.lay.owner && a.lay.owner[dc] == NO_HOLE
            && 2 <= dc < EOC
            && FreeSet(a.fat) == FreeSet(v.fat) - {dc} && a.bpc == v.bpc
            && SlotsPlus(v, a, dc, 0, slots) && a.lay.dirs[dc] == [dc]
  {
    hide BlocksOk, Visible, Content, SlotsPlus, At, InDir, ChainAt;
    AddDirView(v, dc, slots, parent);
    assert |v.fat| == |v.blk| <= EOC;
    hide ChainsOk;
  }

  lemma AddedSlots(v: Vol, a: Vol, dc: nat, slots: seq<Slot>)
    requires SlotsPlus(v, a, dc, 0, slots) && a.bpc == v.bpc && |slots| == PerCluster(v)
    requires dc in a.lay.dirs && a.lay.dirs[dc] == [dc] && dc !in v.lay.dirs
    ensures forall j: nat, i: nat :: InDir(a, dc, j, i) ==> i < |slots| && At(a, dc, j, i) == slots[i]
    ensures forall d: nat, j: nat, i: nat :: d in v.lay.dirs && d != dc ==>
            InDir(a, d, j, i) == InDir(v, d, j, i) && At(a, d, j, i) == At(v, d, j, i)
  {}

  lemma UnreferencedDir(v: Vol, dc: nat, slots: seq<Slot>, parent: nat)
    requires Wf(v) && dc in FreeSet(v.fat) && |slots| == PerCluster(v) && |v.fat| == |v.blk|
    requires Wf(AddDir(v, dc, slots, parent))
    ensures TreeSame(v, AddDir(v, dc, slots, parent))
  {
    var a := AddDir(v, dc, slots, parent);
    hide ChainsOk, BlocksOk, SlotOk, EndsOk, NamesOk, DotsOk, SlotsOk, At, InDir, Content, Visible, Frame, AddDir,
      Lookup;
    FrameAddDir(v, dc, slots, parent, NO_HOLE, 0);
    ZeroIsNoHead(v);
    ZeroIsNoHead(a);
    forall d: nat, n: Name | d in v.lay.dirs ensures Lookup(a, d, n) == Lookup(v, d, n) {
      LookupFrame(v, a, NO_HOLE, 0, d, n);
    }
  }

  /** A cluster with its "." and "..", marked as a chain of one. */
  method NewDirCluster(fs: Volume, d: nat, dc: nat)
    requires Wf(fs.V()) && d in fs.lay.dirs && dc in FreeSet(fs.fat)
    modifies fs
    ensures fs.V() == AddDir(old(fs.V()), dc, DotSlots(dc, ParentRef(fs.V(), d), PerCluster(old(fs.V()))), d)
    ensures Wf(fs.V()) && TreeSame(old(fs.V()), fs.V())
  {
    ghost var v := fs.V();
    assert |v.fat| == |v.blk| && dc < |v.fat| && v.bpc >= 64;
    hide Wf, FreeSet, TreeSame;
    var slots := DotSlots(dc, if d == fs.root then 0 else d, fs.bpc / 32);
    AddDirKeeps(v, dc, d);
    DotSlotsLen(dc, ParentRef(v, d), fs.bpc / 32);
    UnreferencedDir(v, dc, slots, d);
    fs.fat := fs.fat[dc := END_MARK];
    fs.blk := fs.blk[dc := Dir(slots)];
    fs.lay := fs.lay.(dirs := fs.lay.dirs[dc := [dc]], at := fs.lay.at[dc := (dc, 0)], up := fs.lay.up[dc := d],
                      owner := fs.lay.owner[dc := NO_HOLE]);
  }

  /** u is v with an empty directory dc under the name t of directory d (which a marked name hides). */
  ghost predicate Made(v: Vol, u: Vol, d: nat, t: Name, dc: nat) {
    && Wf(u) && u.lay.dirs.Keys == v.lay.dirs.Keys + {dc} && dc !in v.lay.dirs && TreePut(v, u, d, t, DirNode(dc))
    && (forall n: Name :: n[0] != 46 ==> Lookup(u, dc, n) == None)
    && Lookup(u, dc, DOT) == Some(DirNode(dc)) && Lookup(u, dc, DOTDOT) == Some(DirNode(ParentRef(u, d)))
  }

  /** v has got an unreferenced directory dc, and w a slot for its entry. */
  ghost predicate Making(v: Vol, a: Vol, w: Vol, d: nat, j: nat, i: nat, c: nat, grown: bool, dc: nat) {
    && Wf(v) && dc in FreeSet(v.fat) && PerCluster(v) >= 2 && dc < |v.fat| && |v.fat| == |v.blk|
    && a == AddDir(v, dc, DotSlots(dc, ParentRef(v, d), PerCluster(v)), d)
    && Wf(a) && Wf(w) && d in a.lay.dirs
    && InDir(w, d, j, i) && IsUnused(At(w, d, j, i))
    && (forall j': nat, i': nat :: InDir(w, d, j', i') && Before(j', i', j, i) ==> !IsUnused(At(w, d, j', i')))
    && (if grown then c in FreeSet(a.fat) && j == |a.lay.dirs[d]| && w == Extend(a, d, c) else w == a)
  }

  lemma Makes(v: Vol, a: Vol, w: Vol, d: nat, t: Name, j: nat, i: nat, c: nat, grown: bool, dc: nat)
    requires Making(v, a, w, d, j, i, c, grown, dc) && d in v.lay.dirs && Proper(t) && Absent(v, d, t)
    ensures var x := Relabel(w, dc, (d, j, i));
            Shaped(x) && InDir(x, d, j, i) && x.lay.dirs == w.lay.dirs
              && Made(v, PutSlot(x, d, j, i, MakeEntry(t, ATTR_DIRECTORY, dc, 0)), d, t, dc)
  {
    hide EndsOk, NamesOk, DotsOk, SlotsOk, BlocksOk, ChainsOk, At, InDir, Frame, FreeSet, Visible, TreePut, IsUnused,
      AddDir, DotSlots, SlotsPlus, Extend, PutSlot, Absent, Lookup;
    var slots := DotSlots(dc, ParentRef(v, d), PerCluster(v));
    var x, hole := Relabel(w, dc, (d, j, i)), (d, j, i);
    DotSlotsLen(dc, ParentRef(v, d), PerCluster(v));
    AddedDir(v, dc, slots, d);
    AddedSlots(v, a, dc, slots);
    MkdirStage(a, w, d, j, i, c, grown, dc);
    NotNamedThere(v, a, w, d, j, i, c, grown);
    FrameAddDir(v, dc, slots, d, hole, 0);
    FrameTrans(v, a, x, hole, 0);
    MkdirDone(v, x, d, t, j, i, dc);
    var u := PutSlot(x, d, j, i, MakeEntry(t, ATTR_DIRECTORY, dc, 0));
    FrameTrans(a, x, u, hole, 0);
    FreshNames(a, u, dc, ParentRef(v, d), slots, hole);
    DotLookup(u, dc);
  }

  lemma NotNamedThere(v: Vol, a: Vol, w: Vol, d: nat, j: nat, i: nat, c: nat, grown: bool)
    requires Shaped(a) && d in a.lay.dirs && InDir(w, d, j, i) && IsUnused(At(w, d, j, i))
    requires if grown then c in FreeSet(a.fat) && j == |a.lay.dirs[d]| && w == Extend(a, d, c) else w == a
    requires forall j': nat, i': nat ::
               InDir(a, d, j', i') == InDir(v, d, j', i') && At(a, d, j', i') == At(v, d, j', i')
    ensures forall n: Name :: !Named(v, d, n, j, i)
  {
    hide BlocksOk, ChainsOk, At, InDir, Visible, Extend, Frame;
    UnusedFacts(a, w, d, j, i, c, grown);
    forall n: Name ensures !Named(v, d, n, j, i) { assert !Named(a, d, n, j, i); }
  }

  /** canboot_fat32_mkdir below the path walk: succeeds exactly when the name is new and there is room
      for the cluster and the entry; the new directory holds only its dots, and nothing else changed.
      A failed call may leave an unreferenced cluster behind, but no lookup changes. */
  method Mkdir(fs: Volume, d: nat, t: Name) returns (ok: bool, ghost dc: nat)
    requires Wf(fs.V()) && d in fs.lay.dirs && Proper(t)
    modifies fs
    ensures Wf(fs.V())
    ensures ok <==> Absent(old(fs.V()), d, t) && MkdirRoom(old(fs.V()), d)
    ensures ok ==> Made(old(fs.V()), fs.V(), d, t, dc) && Hollow(fs.V(), dc)
    ensures ok ==> exists j: nat, i: nat :: Entered(fs.V(), d, t, 0x10, 0, j, i)
    ensures ok ==> |FreeSet(fs.fat)| == |old(FreeSet(fs.fat))| - (if FreeSlot(old(fs.V()), d) then 1 else 2)
    ensures !ok ==> TreeSame(old(fs.V()), fs.V()) && fs.lay.dirs.Keys >= old(fs.lay).dirs.Keys
    ensures !ok ==> if Absent(old(fs.V()), d, t) then FreeSet(fs.fat) == {} else fs.V() == old(fs.V())
  {
    ghost var v := fs.V();
    hide EndsOk, NamesOk, DotsOk, SlotsOk, BlocksOk, ChainsOk, At, InDir, FreeSet, Visible, TreeSame, TreePut, Named,
      IsUnused, AddDir, DotSlots, Extend, Making, Made, MkdirRoom, Entered, Hollow;
    var found, e, c, i;
    ghost var j;
    found, e, c, i, j := fs.DirFind(d, t);
    assert fs.V() == v;
    dc := 0;
    TreeSameRefl(v);
    if found { return false, 0; }
    var free, nc := FindFree(fs.fat);
    NoRoom(v, d);
    if !free { return false, 0; }
    dc := nc;
    NewDirCluster(fs, d, nc);
    RoomLeft(v, fs.V(), d, nc);
    ok := MkdirEntry(fs, d, t, nc, v);
  }

  lemma DotsIgnored(dc: nat, parent: nat, n: nat, i: nat)
    requires n >= 2 && i < |DotSlots(dc, parent, n)|
    ensures Ignored(DotSlots(dc, parent, n)[i])
  {}

  lemma MadeOnlyDots(v: Vol, a: Vol, w: Vol, y: Vol, d: nat, j: nat, i: nat, c: nat, grown: bool, dc: nat, e: Slot)
    requires Making(v, a, w, d, j, i, c, grown, dc) && d in v.lay.dirs
    requires y == w.(lay := y.lay) && y.lay.dirs == w.lay.dirs && Shaped(y) && InDir(y, d, j, i)
    ensures Hollow(PutSlot(y, d, j, i, e), dc)
  {
    hide ChainsOk, BlocksOk, EndsOk, NamesOk, DotsOk, SlotsOk, PutSlot, Extend, AddDir, Ignored, DotSlots, FreeSet,
      SameFiles, IsUnused;
    var slots := DotSlots(dc, ParentRef(v, d), PerCluster(v));
    assert |slots| == PerCluster(v) by { DotLength(dc, ParentRef(v, d), PerCluster(v)); }
    AddDirView(v, dc, slots, d);
    if grown { ExtendView(a, d, c); }
    PutSlotView(y, d, j, i, e);
    var u := PutSlot(y, d, j, i, e);
    forall j': nat, i': nat | InDir(u, dc, j', i') ensures Ignored(At(u, dc, j', i')) {
      assert At(u, dc, j', i') == At(y, dc, j', i') == At(w, dc, j', i') == At(a, dc, j', i');
      DotsIgnored(dc, ParentRef(v, d), PerCluster(v), i');
    }
  }

  lemma DotLength(dc: nat, parent: nat, n: nat)
    requires n >= 2
    ensures |DotSlots(dc, parent, n)| == n
  {}

  /** The second half of mkdir: the entry for the directory that is already there. */
  method MkdirEntry(fs: Volume, d: nat, t: Name, nc: nat, ghost v: Vol) returns (ok: bool)
    requires Wf(v) && Wf(fs.V()) && d in v.lay.dirs && d in fs.lay.dirs && nc in FreeSet(v.fat) && Proper(t)
    requires Absent(v, d, t)
    requires PerCluster(v) >= 2 && nc < |v.fat| && |v.fat| == |v.blk|
    requires fs.V() == AddDir(v, nc, DotSlots(nc, ParentRef(v, d), PerCluster(v)), d)
    modifies fs
    ensures Wf(fs.V())
    ensures ok <==> HasRoom(old(fs.V()), d)
    ensures ok ==> Made(v, fs.V(), d, t, nc) && Hollow(fs.V(), nc)
    ensures ok ==> exists j: nat, i: nat :: Entered(fs.V(), d, t, 0x10, 0, j, i)
    ensures ok ==> |FreeSet(fs.fat)| == |old(FreeSet(fs.fat))| - (if FreeSlot(old(fs.V()), d) then 0 else 1)
    ensures !ok ==> fs.V() == old(fs.V()) && FreeSet(fs.fat) == {}
  {
    hide Wf, At, InDir, FreeSet, Named, IsUnused, AddDir, DotSlots, Extend, Making, Made, MakeEntry, PutSlot, Entered,
      Hollow;
    ghost var a := fs.V();
    var c, i;
    ghost var j, grown;
    ok, c, i, j, grown := fs.DirAllocSlot(d);
    if !ok { return; }
    ghost var w := fs.V();
    if grown { assert c in FreeSet(a.fat); }
    StartMaking(v, a, w, d, j, i, c, grown, nc);
    Makes(v, a, w, d, t, j, i, c, grown, nc);
    fs.lay := fs.lay.(owner := fs.lay.owner[nc := (d, j, i)]);
    EnteredAt(fs.V(), d, j, i, MakeEntry(t, ATTR_DIRECTORY, nc, 0));
    MadeOnlyDots(v, a, w, fs.V(), d, j, i, c, grown, nc, MakeEntry(t, ATTR_DIRECTORY, nc, 0));
    EntryParts(t, ATTR_DIRECTORY, nc, 0);
    fs.DirWriteEntry(c, i, MakeEntry(t, ATTR_DIRECTORY, nc, 0), d, j);
    MadeWf(v, fs.V(), d, t, nc);
    FreshCount(a, w, d, j, i, c, grown);
    RoomFound(a, w, d, j, i, grown);
  }

  lemma RoomFound(a: Vol, w: Vol, d: nat, j: nat, i: nat, grown: bool)
    requires if grown then FreeSet(a.fat) != {} else w == a && InDir(w, d, j, i) && IsUnused(At(w, d, j, i))
    ensures HasRoom(a, d)
  {}

  /** A cluster for the directory, and then room for its entry. */
  ghost predicate MkdirRoom(v: Vol, d: nat) {
    |FreeSet(v.fat)| >= 2 || (|FreeSet(v.fat)| == 1 && FreeSlot(v, d))
  }

  lemma TreeSameRefl(v: Vol)
    ensures TreeSame(v, v)
  {}

  lemma RoomAfter(v: Vol, a: Vol, d: nat, dc: nat)
    requires dc in FreeSet(v.fat) && FreeSet(a.fat) == FreeSet(v.fat) - {dc} && d in v.lay.dirs && d != dc
    requires forall j: nat, i: nat :: InDir(a, d, j, i) == InDir(v, d, j, i) && At(a, d, j, i) == At(v, d, j, i)
    ensures HasRoom(a, d) <==> MkdirRoom(v, d)
    ensures |FreeSet(a.fat)| == |FreeSet(v.fat)| - 1 && (FreeSlot(a, d) <==> FreeSlot(v, d))
  {
    hide At, InDir, FreeSet;
    Difference(FreeSet(v.fat), {dc});
    assert |FreeSet(v.fat)| >= 2 ==> |FreeSet(a.fat)| >= 1;
  }

  lemma NoRoom(v: Vol, d: nat)
    ensures FreeSet(v.fat) == {} ==> !MkdirRoom(v, d)
  {}

  lemma RoomLeft(v: Vol, a: Vol, d: nat, dc: nat)
    requires Wf(v) && dc in FreeSet(v.fat) && PerCluster(v) >= 2 && dc < |v.fat| && |v.fat| == |v.blk|
    requires d in v.lay.dirs
    requires a == AddDir(v, dc, DotSlots(dc, ParentRef(v, d), PerCluster(v)), d)
    ensures d in a.lay.dirs && (MkdirRoom(v, d) <==> HasRoom(a, d))
    ensures |FreeSet(a.fat)| == |FreeSet(v.fat)| - 1 && (FreeSlot(a, d) <==> FreeSlot(v, d))
    ensures a.lay.dirs.Keys >= v.lay.dirs.Keys
  {
    hide EndsOk, NamesOk, DotsOk, SlotsOk, BlocksOk, ChainsOk, At, InDir, FreeSet, DotSlots, MkdirRoom, HasRoom,
      AddDir, SlotsPlus;
    var slots := DotSlots(dc, ParentRef(v, d), PerCluster(v));
    DotSlotsLen(dc, ParentRef(v, d), PerCluster(v));
    AddedDir(v, dc, slots, d);
    AddedSlots(v, a, dc, slots);
    RoomAfter(v, a, d, dc);
  }

  lemma MadeWf(v: Vol, u: Vol, d: nat, t: Name, dc: nat)
    requires Made(v, u, d, t, dc)
    ensures Wf(u)
  {}

  lemma StartMaking(v: Vol, a: Vol, w: Vol, d: nat, j: nat, i: nat, c: nat, grown: bool, dc: nat)
    requires Wf(v) && Wf(a) && Wf(w) && d in a.lay.dirs && dc in FreeSet(v.fat)
    requires PerCluster(v) >= 2 && dc < |v.fat| && |v.fat| == |v.blk|
    requires a == AddDir(v, dc, DotSlots(dc, ParentRef(v, d), PerCluster(v)), d)
    requires InDir(w, d, j, i) && IsUnused(At(w, d, j, i))
    requires forall j': nat, i': nat :: InDir(w, d, j', i') && Before(j', i', j, i) ==> !IsUnused(At(w, d, j', i'))
    requires if grown then c in FreeSet(a.fat) && j == |a.lay.dirs[d]| && w == Extend(a, d, c) else w == a
    ensures Making(v, a, w, d, j, i, c, grown, dc)
  {
    hide Wf, AddDir, DotSlots, Extend;
  }
}
