/** unlink, rmdir and read below the path walk. */
module FatRemove {
  import opened Basics
  import opened FatChain
  import opened FatVolume
  import opened FatChange
  import opened FatTree
  import opened FatDir
  import opened FatFile
  import opened FatOps

  /** A visible entry whose name has no leading dot is not in a dot place. */
  lemma NamedNotDot(v: Vol, d: nat, t: Name, j: nat, i: nat)
    requires DotsOk(v) && Named(v, d, t, j, i) && t[0] != 46
    ensures !IsDotPlace(v, d, j, i)
  {
    assert DotOk(v, d, j, i, At(v, d, j, i));
  }

  /** The entry is deleted: the volume is complete again without it. */
  lemma DeleteFills(x: Vol, d: nat, t: Name, j: nat, i: nat)
    requires Staged(x, (d, j, i)) && Named(x, d, t, j, i) && t[0] != 46
    ensures var u := PutSlot(x, d, j, i, Deleted(At(x, d, j, i)));
            Wf(u) && (forall j': nat, i': nat :: !Named(u, d, t, j', i')) && (forall n: Name :: !Named(u, d, n, j, i))
  {
    var e := Deleted(At(x, d, j, i));
    var u := PutSlot(x, d, j, i, e);
    assert !Visible(e) && !IsEnd(e);
    NamedNotDot(x, d, t, j, i);
    assert SlotOk(x, d, j, i, e);
    PutSlotView(x, d, j, i, e);
    hide At, InDir, Visible, SlotOk, BlocksOk, ChainsOk, EndsOk, NamesOk, DotsOk, SlotsOk, IsDotPlace, Content,
      PutSlot, Deleted;
    assert NoEndBefore(x, d, j, i) by { NoEndBeforeVisible(x, d, j, i); }
    NamedOnce(x, d, t, j, i);
    FillHole(x, d, j, i, e);
    forall j': nat, i': nat ensures !Named(u, d, t, j', i') {
      assert !(j' == j && i' == i) && Named(u, d, t, j', i') ==> Named(x, d, t, j', i');
    }
  }

  /** Deleting the slot that owned the lost chain removes exactly that name. */
  lemma DeleteDone(v: Vol, x: Vol, d: nat, t: Name, j: nat, i: nat, lost: nat)
    requires Wf(v) && Named(v, d, t, j, i) && t[0] != 46 && d != lost
    requires Staged(x, (d, j, i)) && Frame(v, x, (d, j, i), lost) && Named(x, d, t, j, i)
    requires (lost in v.lay.dirs || lost in v.lay.files) ==> lost in v.lay.owner && v.lay.owner[lost] == (d, j, i)
    requires lost in v.lay.dirs ==> lost !in x.lay.dirs
    ensures var u := PutSlot(x, d, j, i, Deleted(At(x, d, j, i))); Wf(u) && TreeSet(v, u, d, t, None)
  {
    var e := Deleted(At(x, d, j, i));
    var u := PutSlot(x, d, j, i, e);
    hide At, InDir, Visible, SlotOk, BlocksOk, ChainsOk, EndsOk, NamesOk, DotsOk, SlotsOk, Content, PutSlot, Deleted,
      Frame, Lookup, Named;
    DeleteFills(x, d, t, j, i);
    assert InDir(x, d, j, i) by { NamedIn(x, d, t, j, i); }
    PutSlotRoot(x, d, j, i, e);
    FramePut(x, d, j, i, e, lost);
    FrameTrans(v, x, u, (d, j, i), lost);
    ZeroIsNoHead(v);
    ZeroIsNoHead(u);
    LookupAbsent(u, d, t);
    NamedOnce(v, d, t, j, i);
    forall d': nat, n: Name | d' in v.lay.dirs && d' in u.lay.dirs && !(d' == d && n == t)
      ensures Lookup(u, d', n) == Lookup(v, d', n)
    {
      LookupFrame(v, u, (d, j, i), lost, d', n);
    }
  }

  lemma NamedIn(x: Vol, d: nat, t: Name, j: nat, i: nat)
    requires Named(x, d, t, j, i)
    ensures InDir(x, d, j, i) && d in x.lay.dirs && Visible(At(x, d, j, i)) && At(x, d, j, i).name == t
  {}

  /** The entry of the name has this first cluster. */
  ghost predicate StartsAt(v: Vol, d: nat, t: Name, first: nat) {
    forall j: nat, i: nat :: Named(v, d, t, j, i) ==> First(At(v, d, j, i)) == first
  }

  /** canboot_fat32_unlink_path below the path walk: succeeds exactly on a file's name, removes that
      name and nothing else, and frees exactly the file's clusters. */
  method Unlink(fs: Volume, d: nat, t: Name) returns (ok: bool, ghost first: nat)
    requires Wf(fs.V()) && d in fs.lay.dirs && t[0] != 46
    modifies fs
    ensures ok <==> exists j: nat, i: nat :: Named(old(fs.V()), d, t, j, i) && !IsDirEntry(old(At(fs.V(), d, j, i)))
    ensures ok ==> Wf(fs.V()) && TreeSet(old(fs.V()), fs.V(), d, t, None) && fs.lay.dirs == old(fs.lay.dirs)
    ensures ok ==> FreeSet(fs.fat) == old(FreeSet(fs.fat)) + Members(ChainOf(old(fs.V()), first))
    ensures ok ==> StartsAt(old(fs.V()), d, t, first)
    ensures !ok ==> fs.V() == old(fs.V())
  {
    ghost var v := fs.V();
    var found, e, c, i;
    ghost var j;
    found, e, c, i, j := fs.DirFind(d, t);
    hide Wf, At, InDir, Staged, Frame, FreeSet, Visible, EndsOk;
    first := 0;
    if !found { return false, 0; }
    if IsDirEntry(e) {
      OneNamed(v, d, t, j, i);
      return false, 0;
    }
    NamedIn(v, d, t, j, i);
    OneNamed(v, d, t, j, i);
    first := ReleaseFile(fs, e, d, j, i);
    ghost var x := fs.V();
    ReleasedNamed(v, x, d, t, j, i, first);
    StagedShaped(x, (d, j, i));
    fs.DirMarkDeleted(c, i, d, j);
    DeleteDone(v, x, d, t, j, i, first);
    ok := true;
  }

  lemma OneNamed(v: Vol, d: nat, t: Name, j: nat, i: nat)
    requires Wf(v) && Named(v, d, t, j, i)
    ensures forall j': nat, i': nat :: Named(v, d, t, j', i') ==> j' == j && i' == i
  {
    hide At, InDir, SlotOk, BlocksOk, ChainsOk;
    NamedOnce(v, d, t, j, i);
  }

  lemma ReleasedNamed(v: Vol, x: Vol, d: nat, t: Name, j: nat, i: nat, lost: nat)
    requires Wf(v) && Named(v, d, t, j, i)
    requires (if lost == 0 then x == v else lost in v.lay.files && x == Drop(v, lost, x.fat))
    ensures Named(x, d, t, j, i) && x.lay.dirs == v.lay.dirs && lost !in v.lay.dirs && d != lost
    ensures (lost == 0 ==> 0 !in v.lay.files)
    ensures Members(ChainOf(v, lost)) == if lost == 0 then {} else Members(v.lay.files[lost])
  {
    NamedIn(v, d, t, j, i);
    ReleasedSame(v, x, lost);
    hide *;
    assert Named(x, d, t, j, i) && x.lay.dirs == v.lay.dirs by { SameNamed(v, x, d, t, j, i); }
    ChainOfLost(v, lost);
  }

  lemma SameNamed(v: Vol, x: Vol, d: nat, t: Name, j: nat, i: nat)
    requires Named(v, d, t, j, i) && x.lay.dirs == v.lay.dirs && x.blk == v.blk && x.bpc == v.bpc
    ensures Named(x, d, t, j, i)
  {}

  lemma ChainOfLost(v: Vol, lost: nat)
    requires lost !in v.lay.dirs && 0 !in v.lay.files && (lost == 0 || lost in v.lay.files)
    ensures Members(ChainOf(v, lost)) == if lost == 0 then {} else Members(v.lay.files[lost])
  {}

  // ----- rmdir -----

  lemma DirSlot(v: Vol, d: nat, t: Name, j: nat, i: nat)
    requires Wf(v) && Named(v, d, t, j, i) && IsDirEntry(At(v, d, j, i)) && t[0] != 46
    ensures var h := First(At(v, d, j, i));
            h in v.lay.dirs && h != v.root && h in v.lay.owner && v.lay.owner[h] == (d, j, i) && h in v.lay.up
              && v.lay.up[h] == d
  {
    NamedIn(v, d, t, j, i);
    NotHole(v, d, j, i);
    hide ChainsOk, BlocksOk, At, InDir, First, Visible, IsDirEntry;
    assert SlotOk(v, d, j, i, At(v, d, j, i));
  }

  /** A directory that dir_is_empty accepts has no name but "." and "..". */
  lemma EmptyHasNoNames(v: Vol, h: nat)
    requires forall j: nat, i: nat :: InDir(v, h, j, i) ==> Ignored(At(v, h, j, i))
    ensures forall n: Name, j: nat, i: nat :: n[0] != 46 ==> !Named(v, h, n, j, i)
    ensures forall n: Name :: n[0] != 46 ==> Lookup(v, h, n) == None
  {
    hide At, InDir;
    forall n: Name, j: nat, i: nat | n[0] != 46 ensures !Named(v, h, n, j, i) {
      assert InDir(v, h, j, i) ==> Ignored(At(v, h, j, i));
    }
    forall n: Name | n[0] != 46 ensures Lookup(v, h, n) == None { LookupAbsent(v, h, n); }
  }

  lemma DropNamed(v: Vol, h: nat, fat: Fat, d: nat, t: Name, j: nat, i: nat)
    requires Shaped(v) && h != v.root && h in v.lay.dirs && Cleared(v.fat, fat, ChainOf(v, h)) && d != h
    requires Named(v, d, t, j, i)
    ensures var u := Drop(v, h, fat); Named(u, d, t, j, i) && u.lay.dirs == v.lay.dirs - {h}
  {
    hide ChainsOk, BlocksOk, At, InDir, Visible, Cleared;
    DropView(v, h, fat);
  }

  lemma DroppedSet(v: Vol, h: nat, out: Fat)
    requires ChainsOk(v) && h in v.lay.dirs && Cleared(v.fat, out, ChainOf(v, h))
    ensures FreeSet(out) == FreeSet(v.fat) + Members(v.lay.dirs[h])
  {
    assert ChainAt(v, h, v.lay.dirs[h]);
  }

  /** canboot_fat32_rmdir below the path walk: succeeds exactly on a directory that holds nothing,
      removes that name and nothing else, and frees exactly the directory's clusters. */
  method Rmdir(fs: Volume, d: nat, t: Name) returns (ok: bool, ghost dc: nat)
    requires Wf(fs.V()) && d in fs.lay.dirs && t[0] != 46
    modifies fs
    ensures ok <==> exists j: nat, i: nat :: Named(old(fs.V()), d, t, j, i) && IsDirEntry(old(At(fs.V(), d, j, i)))
                      && Hollow(old(fs.V()), First(old(At(fs.V(), d, j, i))))
    ensures ok ==> Lookup(old(fs.V()), d, t) == Some(DirNode(dc)) && dc in old(fs.lay).dirs
    ensures ok ==> Wf(fs.V()) && TreeSet(old(fs.V()), fs.V(), d, t, None) && fs.lay.dirs == old(fs.lay).dirs - {dc}
    ensures ok ==> forall n: Name :: n[0] != 46 ==> Lookup(old(fs.V()), dc, n) == None
    ensures ok ==> FreeSet(fs.fat) == old(FreeSet(fs.fat)) + Members(old(fs.lay).dirs[dc])
    ensures !ok ==> fs.V() == old(fs.V())
  {
    hide EndsOk, NamesOk, DotsOk, SlotsOk, BlocksOk, ChainsOk, At, InDir, Staged, Frame, FreeSet, Members, Visible,
      Ignored, First, IsDirEntry, Cleared, Lookup, Named, NodeOf, Hollow;
    ghost var v := fs.V();
    var found, e, c, i;
    ghost var j;
    found, e, c, i, j := fs.DirFind(d, t);
    assert fs.V() == v;
    dc := 0;
    if !found { return false, 0; }
    OneNamed(v, d, t, j, i);
    if !IsDirEntry(e) { return false, 0; }
    DirSlot(v, d, t, j, i);
    NamedIn(v, d, t, j, i);
    dc := First(e);
    var empty := fs.DirIsEmpty(First(e));
    assert fs.V() == v;
    HollowMeans(v, dc);
    if !empty { return false, dc; }
    EmptyHasNoNames(v, dc);
    LookupNamed(v, d, t, j, i);
    assert NodeOf(v, e) == DirNode(dc) by { DirNodeOf(v, e); }
    DirWalk(v, dc);
    var out := FreeChain(fs.fat, First(e));
    ClearedByWalk(v, dc, out);
    fs.fat := out;
    fs.lay := fs.lay.(dirs := fs.lay.dirs - {dc}, files := fs.lay.files - {dc});
    StageDrop(v, dc, out, (d, j, i));
    assert d != dc by { EmptyHasNoNames(v, dc); }
    DropNamed(v, dc, out, d, t, j, i);
    DroppedSet(v, dc, out);
    ghost var x := fs.V();
    StagedShaped(x, (d, j, i));
    NamedIn(x, d, t, j, i);
    fs.DirMarkDeleted(c, i, d, j);
    DeleteDone(v, x, d, t, j, i, dc);
    ok := true;
  }

  ghost predicate Hollow(v: Vol, h: nat) {
    forall j: nat, i: nat :: InDir(v, h, j, i) ==> Ignored(At(v, h, j, i))
  }

  lemma HollowMeans(v: Vol, h: nat)
    ensures Hollow(v, h) <==> forall j: nat, i: nat :: InDir(v, h, j, i) ==> Ignored(At(v, h, j, i))
  {}

  lemma DirNodeOf(v: Vol, e: Slot)
    requires IsDirEntry(e)
    ensures NodeOf(v, e) == DirNode(First(e))
  {}

  lemma DirWalk(v: Vol, h: nat)
    requires ChainsOk(v) && h in v.lay.dirs
    ensures |v.fat| <= EOC && StaysInTable(v.fat, h)
  {
    assert ChainAt(v, h, v.lay.dirs[h]);
    ChainInTable(v.fat, h, v.lay.dirs[h]);
  }

  // ----- read -----

  lemma FileChain(v: Vol, f: nat)
    requires Shaped(v) && f in v.lay.files
    ensures IsChain(v.fat, f, v.lay.files[f]) && |v.blk| == |v.fat|
    ensures forall c :: c in v.lay.files[f] && c < |v.blk| ==> v.blk[c].Data?
  {
    assert ChainAt(v, f, v.lay.files[f]);
    var ch := v.lay.files[f];
    forall c | c in ch && c < |v.blk| ensures v.blk[c].Data? {
      var k: nat :| k < |ch| && ch[k] == c;
      assert IsDataBlock(v, ch[k]);
    }
  }

  lemma FileSize(v: Vol, d: nat, t: Name, j: nat, i: nat)
    requires Wf(v) && Named(v, d, t, j, i) && !IsDirEntry(At(v, d, j, i))
    ensures var e := At(v, d, j, i); var f := First(e);
            0 !in v.lay.files
              && ((f == 0 && e.size == 0) || (f in v.lay.files && e.size <= |Content(v.blk, v.lay.files[f])|))
  {
    NamedIn(v, d, t, j, i);
    NotHole(v, d, j, i);
    ZeroIsNoHead(v);
    if IsDot(At(v, d, j, i)) { DotIsDir(v, d, j, i); }
    hide ChainsOk, BlocksOk, At, InDir, First, Visible, IsDirEntry, IsDot, Content;
    assert SlotOk(v, d, j, i, At(v, d, j, i));
  }

  /** canboot_fat32_read_path below the path walk: the file's bytes, as many as the buffer takes. */
  method ReadFile(fs: Volume, d: nat, t: Name, cap: nat) returns (ok: bool, out: seq<nat>, size: nat)
    requires Wf(fs.V()) && d in fs.lay.dirs
    ensures ok <==> Lookup(fs.V(), d, t).Some? && Lookup(fs.V(), d, t).value.FileNode?
    ensures ok ==> size == |Lookup(fs.V(), d, t).value.bytes|
    ensures ok ==> out == Lookup(fs.V(), d, t).value.bytes[..Least(size, cap)]
  {
    hide EndsOk, NamesOk, DotsOk, SlotsOk, BlocksOk, ChainsOk, At, InDir, Visible, First, IsDirEntry, Lookup, Content,
      Named, Shaped, IsChain;
    ghost var v := fs.V();
    var found, e, c, i;
    ghost var j;
    found, e, c, i, j := fs.DirFind(d, t);
    out, size := [], 0;
    if !found {
      LookupAbsent(v, d, t);
      return false, [], 0;
    }
    LookupNamed(v, d, t, j, i);
    if IsDirEntry(e) { return false, [], 0; }
    FileSize(v, d, t, j, i);
    size := e.size;
    if First(e) != 0 {
      FileChain(v, First(e));
      out := ReadData(fs.fat, fs.blk, First(e), Least(size, cap), v.lay.files[First(e)]);
      ghost var all := Content(v.blk, v.lay.files[First(e)]);
      assert all[..size][..Least(size, cap)] == all[..Least(size, cap)];
    } else {
      assert NodeOf(v, e) == FileNode([]);
    }
    ok := true;
  }
}
