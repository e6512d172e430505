/** write below the path walk, and what a refused write leaves behind. */
module FatWrite {
  import opened FatChain
  import opened FatVolume
  import opened FatChange
  import opened FatGrow
  import opened FatTree
  import opened FatDir
  import opened FatFile
  import opened FatOps
  import opened FatRemove
  import opened FatFull

  /** The slot that a write of name t in directory d goes to, ready to be rewritten. */
  ghost predicate Claimed(v: Vol, u: Vol, d: nat, t: Name, j: nat, i: nat, lost: nat) {
    && Staged(u, (d, j, i)) && Frame(v, u, (d, j, i), lost) && d in v.lay.dirs && d in u.lay.dirs
    && InDir(u, d, j, i) && NoEndBefore(u, d, j, i) && !IsDotPlace(u, d, j, i)
    && (forall j': nat, i': nat :: Named(u, d, t, j', i') ==> j' == j && i' == i)
    && (forall n: Name :: n != t ==> !Named(v, d, n, j, i))
    && u.lay.dirs.Keys == v.lay.dirs.Keys && lost !in v.lay.dirs && lost != d
    && (lost in v.lay.files ==> lost in v.lay.owner && v.lay.owner[lost] == (d, j, i))
  }

  lemma ClaimExisting(v: Vol, u: Vol, d: nat, t: Name, j: nat, i: nat, lost: nat)
    requires Wf(v) && Named(v, d, t, j, i) && !IsDirEntry(At(v, d, j, i)) && lost == First(At(v, d, j, i))
    requires Staged(u, (d, j, i)) && Frame(v, u, (d, j, i), lost)
    requires lost == 0 ==> u == v
    requires lost != 0 ==> lost in v.lay.files && lost in v.lay.owner && v.lay.owner[lost] == (d, j, i)
    requires lost != 0 ==> u == Drop(v, lost, u.fat)
    ensures Claimed(v, u, d, t, j, i, lost)
  {
    hide ChainsOk, BlocksOk, SlotOk, Frame, First, EndsOk, NamesOk, DotsOk, SlotsOk, At, InDir, Drop, Visible;
    NoEndBeforeVisible(v, d, j, i);
    NotDotPlace(v, d, j, i);
    NamedOnce(v, d, t, j, i);
    ReleasedSame(v, u, lost);
    SameAt(v, u);
    InDirHead(v, d, j, i);
    forall j': nat, i': nat ensures Named(u, d, t, j', i') == Named(v, d, t, j', i') {}
  }

  lemma ClaimUnused(v: Vol, u: Vol, d: nat, t: Name, j: nat, i: nat, c: nat, grown: bool)
    requires Wf(v) && Wf(u) && d in v.lay.dirs && (forall j: nat, i: nat :: !Named(v, d, t, j, i))
    requires InDir(u, d, j, i) && IsUnused(At(u, d, j, i))
    requires forall j': nat, i': nat :: InDir(u, d, j', i') && Before(j', i', j, i) ==> !IsUnused(At(u, d, j', i'))
    requires if grown then c in FreeSet(v.fat) && j == |v.lay.dirs[d]| && u == Extend(v, d, c) else u == v
    ensures Claimed(v, u, d, t, j, i, 0)
  {
    hide ChainsOk, BlocksOk, SlotOk, EndsOk, NamesOk, DotsOk, SlotsOk, Extend;
    ZeroIsNoHead(v);
    WidenHole(u, (d, j, i));
    NotDotPlace(u, d, j, i);
    assert d != 0;
    UnusedFacts(v, u, d, j, i, c, grown);
    hide At, InDir, Visible, Staged;
    assert forall j': nat, i': nat :: Named(u, d, t, j', i') && (d, j', i') != (d, j, i) ==> Named(v, d, t, j', i') by {
      hide Staged;
    }
    hide Frame;
  }

  /** What a write to t in d gives up and takes before it stores data: the old chain, and a cluster
      for the directory if it has no slot left. */
  ghost predicate Cost(v: Vol, d: nat, t: Name, lost: nat, ext: nat) {
    && (forall j: nat, i: nat :: Named(v, d, t, j, i) ==> lost == First(At(v, d, j, i)) && ext == 0)
    && (Absent(v, d, t) ==> lost == 0 && ext == if FreeSlot(v, d) then 0 else 1)
  }

  /** Finds the file's slot and frees its old chain, or claims a fresh slot. */
  method ClaimSlot(fs: Volume, d: nat, t: Name) returns (ok: bool, c: nat, i: nat, ghost j: nat, ghost lost: nat,
          ghost ext: nat)
    requires Wf(fs.V()) && d in fs.lay.dirs && Proper(t)
    modifies fs
    ensures ok <==> !DirNamed(old(fs.V()), d, t) && ext <= |old(FreeSet(fs.fat))|
    ensures Cost(old(fs.V()), d, t, lost, ext)
    ensures ok ==> Claimed(old(fs.V()), fs.V(), d, t, j, i, lost) && c == fs.lay.dirs[d][j]
    ensures ok ==> |FreeSet(fs.fat)| == |old(FreeSet(fs.fat))| + |ChainOf(old(fs.V()), lost)| - ext
    ensures !ok ==> fs.V() == old(fs.V())
    ensures ok && lost == 0 ==> Wf(fs.V()) && TreeSame(old(fs.V()), fs.V())
    ensures ok && lost != 0 ==> Emptied(old(fs.V()), fs.V(), d, t, j, i, lost)
  {
    hide EndsOk, NamesOk, DotsOk, SlotsOk, BlocksOk, ChainsOk, Claimed, At, InDir, Visible, IsDirEntry, FreeSet, First,
      Frame, Staged, IsUnused, Extend, Cost, Cleared, Proper, TreeSame, Emptied;
    ghost var v := fs.V();
    var found, e;
    found, e, c, i, j := fs.DirFind(d, t);
    assert fs.V() == v;
    if found {
      CostExisting(v, d, t, j, i);
      if IsDirEntry(e) { return false, c, i, j, First(e), 0; }
      ClaimOne(v, d, t, j, i);
      lost := ReleaseFile(fs, e, d, j, i);
      ext := 0;
      ClaimExisting(v, fs.V(), d, t, j, i, lost);
      ReleasedSame(v, fs.V(), lost);
      FreedCount(v, fs.V(), lost);
      if lost == 0 { TreeRefl(v); } else { EmptiedSlot(v, fs.V(), d, t, j, i, lost); }
      ok := true;
    } else {
      ghost var grown;
      ok, c, i, j, grown := fs.DirAllocSlot(d);
      lost, ext := 0, if FreeSlot(v, d) then 0 else 1;
      CostFresh(v, d, t);
      ZeroIsNoHead(v);
      if ok {
        ClaimUnused(v, fs.V(), d, t, j, i, c, grown);
        FreshCount(v, fs.V(), d, j, i, c, grown);
        AllocSame(v, fs.V(), d, j, i, c, grown);
      }
    }
  }

  lemma TreeRefl(v: Vol)
    ensures TreeSame(v, v)
  {}

  lemma EmptiedSlot(v: Vol, w: Vol, d: nat, t: Name, j: nat, i: nat, lost: nat)
    requires Wf(v) && Proper(t) && Named(v, d, t, j, i) && !IsDirEntry(At(v, d, j, i)) && First(At(v, d, j, i)) == lost
    requires lost in v.lay.files && lost in v.lay.owner && v.lay.owner[lost] == (d, j, i)
    requires w == Drop(v, lost, w.fat) && Cleared(v.fat, w.fat, ChainOf(v, lost))
    requires Staged(w, (d, j, i)) && Frame(v, w, (d, j, i), lost)
    ensures Emptied(v, w, d, t, j, i, lost)
  {
    hide ChainAt, BlocksOk, EndsOk, NamesOk, DotsOk, SlotsOk, At, InDir, Frame, Cleared;
  }

  lemma CostExisting(v: Vol, d: nat, t: Name, j: nat, i: nat)
    requires Wf(v) && Named(v, d, t, j, i)
    ensures Cost(v, d, t, First(At(v, d, j, i)), 0)
  {
    hide At, InDir, SlotOk, BlocksOk, ChainsOk, First, Visible;
    NamedOnce(v, d, t, j, i);
  }

  lemma CostFresh(v: Vol, d: nat, t: Name)
    requires Absent(v, d, t)
    ensures Cost(v, d, t, 0, if FreeSlot(v, d) then 0 else 1)
  {
    hide At, InDir, FreeSlot;
  }

  lemma FreedCount(v: Vol, u: Vol, lost: nat)
    requires ChainsOk(v) && (lost != 0 ==> lost in v.lay.files)
    requires FreeSet(u.fat) == FreeSet(v.fat) + (if lost == 0 then {} else Members(v.lay.files[lost]))
    ensures |FreeSet(u.fat)| == |FreeSet(v.fat)| + |ChainOf(v, lost)|
    ensures FreeSet(u.fat) == FreeSet(v.fat) + Members(ChainOf(v, lost))
  {
    ZeroIsNoHead(v);
    if lost != 0 {
      var ch := v.lay.files[lost];
      assert ChainAt(v, lost, ch);
      DistinctCount(ch);
      forall c | c in ch ensures c !in FreeSet(v.fat) { ChainNotFree(v.fat, lost, ch, c); }
      Disjoint(FreeSet(v.fat), Members(ch));
    }
  }

  lemma Disjoint(a: set<nat>, b: set<nat>)
    requires a !! b
    ensures |a + b| == |a| + |b|
  {}

  lemma ClaimOne(v: Vol, d: nat, t: Name, j: nat, i: nat)
    requires Wf(v) && Named(v, d, t, j, i) && !IsDirEntry(At(v, d, j, i))
    ensures !DirNamed(v, d, t)
  {
    hide At, InDir, SlotOk, BlocksOk, ChainsOk;
    forall j': nat, i': nat | Named(v, d, t, j', i') ensures !IsDirEntry(At(v, d, j', i')) {
      assert SameName(At(v, d, j, i), At(v, d, j', i'));
    }
  }

  /** Data of a file in u, ready for the slot `hole`: first cluster and content. */
  ghost predicate Stored(u: Vol, hole: Loc, first: nat, data: seq<nat>) {
    if data == [] then first == 0
    else
      && first in u.lay.files && first in u.lay.owner && u.lay.owner[first] == hole && first < EOC
      && |data| <= |Content(u.blk, u.lay.files[first])| && Content(u.blk, u.lay.files[first])[..|data|] == data
  }

  /** alloc_chain refuses more than 256 clusters at once, and keeps what it has reserved when it runs out. */
  ghost predicate Spilled(w: Vol, x: Vol, n: nat) {
    && x == w.(fat := x.fat)
    && if n > MAX_CHAIN then x.fat == w.fat else Reserved(w.fat, x.fat, {}) && FreeSet(x.fat) == {}
  }

  /** Allocates and fills the chain for `data`; cluster 0 stands for the empty file. */
  method StoreData(fs: Volume, data: seq<nat>, ghost hole: Loc, ghost lost: nat) returns (ok: bool, first: nat)
    requires Staged(fs.V(), hole)
    modifies fs
    ensures fs.bpc > 0
    ensures ok <==> ClustersFor(|data|, fs.bpc) <= MAX_CHAIN && |old(FreeSet(fs.fat))| >= ClustersFor(|data|, fs.bpc)
    ensures ok ==> Staged(fs.V(), hole) && Frame(old(fs.V()), fs.V(), hole, lost) && Stored(fs.V(), hole, first, data)
    ensures ok ==> fs.lay.dirs == old(fs.lay).dirs && fs.lay.up == old(fs.lay).up
    ensures ok ==> |FreeSet(fs.fat)| == |old(FreeSet(fs.fat))| - ClustersFor(|data|, fs.bpc)
    ensures !ok ==> Spilled(old(fs.V()), fs.V(), ClustersFor(|data|, fs.bpc))
  {
    hide Staged, Frame;
    StagedSize(fs.V(), hole);
    first := 0;
    if data == [] {
      FrameRefl(fs.V(), hole, lost);
      ClustersForFits(0, fs.bpc);
      ok := true;
    } else {
      ok, first := StoreChain(fs, data, hole, lost);
    }
  }

  /** The non-empty case: alloc_chain, then the clusters. */
  method StoreChain(fs: Volume, data: seq<nat>, ghost hole: Loc, ghost lost: nat) returns (ok: bool, first: nat)
    requires Staged(fs.V(), hole) && data != [] && fs.bpc > 0
    modifies fs
    ensures ok <==> ClustersFor(|data|, fs.bpc) <= MAX_CHAIN && |old(FreeSet(fs.fat))| >= ClustersFor(|data|, fs.bpc)
    ensures ok ==> Staged(fs.V(), hole) && Frame(old(fs.V()), fs.V(), hole, lost) && Stored(fs.V(), hole, first, data)
    ensures ok ==> fs.lay.dirs == old(fs.lay).dirs && fs.lay.up == old(fs.lay).up
    ensures ok ==> |FreeSet(fs.fat)| == |old(FreeSet(fs.fat))| - ClustersFor(|data|, fs.bpc)
    ensures !ok ==> Spilled(old(fs.V()), fs.V(), ClustersFor(|data|, fs.bpc))
  {
    hide Staged, Frame, FatChange.Place, Content, IsChain;
    ghost var v := fs.V();
    ClustersForFits(|data|, fs.bpc);
    var n := ClustersFor(|data|, fs.bpc);
    assert n >= 1;
    hide ClustersFor;
    StagedSize(v, hole);
    var chain, fat;
    ok, fat, chain := AllocChain(fs.fat, n);
    if !ok {
      fs.fat, first := fat, 0;
      return;
    }
    FreeInRange(fs.fat, chain);
    var blk := WriteData(fs.blk, fs.bpc, chain, data);
    PaddedPrefix(data, Content(blk, chain), n * fs.bpc - |data|);
    DistinctCount(chain);
    Difference(FreeSet(v.fat), Members(chain));
    hide FreeSet, Members;
    first := chain[0];
    WrittenOk(v, chain, fat, blk);
    fs.fat, fs.blk := fat, blk;
    fs.lay := fs.lay.(files := fs.lay.files[first := chain], at := FatChange.Place(fs.lay.at, first, chain, n),
      owner := fs.lay.owner[first := hole]);
    hide FileWritten;
    StageAddFile(v, chain, fat, blk, hole, lost);
  }

  lemma PaddedPrefix(data: seq<nat>, all: seq<nat>, pad: nat)
    requires all == data + Zeros(pad)
    ensures |data| <= |all| && all[..|data|] == data
  {}

  lemma WrittenOk(v: Vol, chain: seq<nat>, fat: Fat, blk: seq<Block>)
    requires |fat| == |v.fat| && |blk| == |v.blk| && |v.fat| == |v.blk| && chain != [] && IsChain(fat, chain[0], chain)
    requires Distinct(chain)
    requires forall c :: c in chain ==> c in FreeSet(v.fat)
    requires forall c :: 0 <= c < |v.fat| && c !in chain ==> fat[c] == v.fat[c] && blk[c] == v.blk[c]
    requires forall c :: c in chain && c < |blk| ==> blk[c].Data? && |blk[c].bytes| == v.bpc
    ensures FileWritten(v, chain, fat, blk)
  {}

  lemma StagedSize(v: Vol, hole: Loc)
    requires Staged(v, hole)
    ensures |v.fat| <= EOC && |v.fat| == |v.blk| && v.bpc >= 64
  {}

  lemma FreeInRange(fat: Fat, chain: seq<nat>)
    requires forall c :: c in chain ==> c in FreeSet(fat)
    ensures forall k :: 0 <= k < |chain| ==> 2 <= chain[k] < |fat|
    ensures Members(chain) <= FreeSet(fat)
  {
    forall k | 0 <= k < |chain| ensures 2 <= chain[k] < |fat| { assert chain[k] in chain; }
  }

  lemma WriteDone(v: Vol, w: Vol, x: Vol, d: nat, t: Name, j: nat, i: nat, lost: nat, first: nat, data: seq<nat>)
    requires Wf(v) && Claimed(v, w, d, t, j, i, lost) && Proper(t)
    requires Staged(x, (d, j, i)) && Frame(w, x, (d, j, i), lost) && Stored(x, (d, j, i), first, data)
    requires x.lay.dirs == w.lay.dirs && x.lay.up == w.lay.up
    requires InDir(x, d, j, i)
    ensures var u := PutSlot(x, d, j, i, MakeEntry(t, ATTR_ARCHIVE, first, |data|));
            Wf(u) && TreePut(v, u, d, t, FileNode(data)) && u.lay.dirs.Keys == v.lay.dirs.Keys
  {
    var e, hole := MakeEntry(t, ATTR_ARCHIVE, first, |data|), (d, j, i);
    var u := PutSlot(x, d, j, i, e);
    NewFileEntry(x, d, j, i, t, first, data);
    hide First, Visible, MakeEntry, SlotOk, BlocksOk, ChainsOk, PutSlot, At, InDir, IsDirEntry, EndsOk, NamesOk,
      DotsOk, SlotsOk, Stored, Frame, NoEndBefore, IsDotPlace, Named;
    CarryClaim(w, x, d, t, j, i, lost);
    FillHole(x, d, j, i, e);
    PutSlotRoot(x, d, j, i, e);
    FramePut(x, d, j, i, e, lost);
    FrameTrans(v, w, x, hole, lost);
    FrameTrans(v, x, u, hole, lost);
    WriteLookups(v, u, x, d, t, j, i, lost, first, data, e);
  }

  lemma NewFileEntry(x: Vol, d: nat, j: nat, i: nat, t: Name, first: nat, data: seq<nat>)
    requires Stored(x, (d, j, i), first, data) && Proper(t)
    ensures var e := MakeEntry(t, ATTR_ARCHIVE, first, |data|);
            Visible(e) == !Marked(t) && !IsDirEntry(e) && !IsDot(e) && !IsEnd(e) && e.name == t && First(e) == first
              && e.size == |data| && SlotOk(x, d, j, i, e)
  {
    MakeEntryFirst(t, ATTR_ARCHIVE, first, |data|);
    hide First, Content;
  }

  /** What was claimed before the data went in still holds. */
  lemma CarryClaim(w: Vol, x: Vol, d: nat, t: Name, j: nat, i: nat, lost: nat)
    requires Frame(w, x, (d, j, i), lost) && d != lost && d in w.lay.dirs && x.lay.dirs == w.lay.dirs
    requires NoEndBefore(w, d, j, i) && !IsDotPlace(w, d, j, i)
    requires forall j': nat, i': nat :: Named(w, d, t, j', i') ==> j' == j && i' == i
    ensures NoEndBefore(x, d, j, i) && !IsDotPlace(x, d, j, i)
    ensures forall j': nat, i': nat :: Named(x, d, t, j', i') ==> j' == j && i' == i
  {
    assert forall j': nat, i': nat :: InDir(x, d, j', i') <==> InDir(w, d, j', i');
    hide At, InDir, Visible;
    forall j': nat, i': nat | Named(x, d, t, j', i') && (d, j', i') != (d, j, i) ensures j' == j && i' == i {
      assert Named(w, d, t, j', i');
    }
  }

  lemma WriteLookups(v: Vol, u: Vol, x: Vol, d: nat, t: Name, j: nat, i: nat, lost: nat, first: nat, data: seq<nat>,
          e: Slot)
    requires Wf(v) && Wf(u) && Shaped(x) && InDir(x, d, j, i) && u == PutSlot(x, d, j, i, e)
    requires Stored(x, (d, j, i), first, data)
    requires Frame(v, u, (d, j, i), lost) && lost !in v.lay.dirs
    requires lost in v.lay.files ==> lost in v.lay.owner && v.lay.owner[lost] == (d, j, i)
    requires forall n: Name :: n != t ==> !Named(v, d, n, j, i)
    requires e.name == t && Visible(e) == !Marked(t) && !IsDirEntry(e) && First(e) == first && e.size == |data|
    ensures TreePut(v, u, d, t, FileNode(data))
  {
    hide First, Visible, SlotOk, BlocksOk, ChainsOk, InDir, IsDirEntry, EndsOk, DotsOk, SlotsOk, NamesOk, Frame;
    PutSlotView(x, d, j, i, e);
    hide At, PutSlot;
    assert At(u, d, j, i) == e;
    ZeroIsNoHead(v);
    ZeroIsNoHead(u);
    if !Marked(t) {
      assert Named(u, d, t, j, i);
      LookupNamed(u, d, t, j, i);
    }
    assert NodeOf(u, e) == FileNode(data);
    MarkedUnnamed(v, d, t, j, i);
    hide NodeOf;
    forall d': nat, n: Name | d' in v.lay.dirs && (Marked(t) || !(d' == d && n == t))
      ensures Lookup(u, d', n) == Lookup(v, d', n)
    {
      LookupFrame(v, u, (d, j, i), lost, d', n);
    }
  }

  // ----- a refused write -----

  /** A write of n clusters that is refused for lack of clusters hurts the file it was to replace, unless that
      file has no chain, or fits the one cluster of it that the failed allocation has reserved again. */
  ghost predicate Survives(v: Vol, d: nat, t: Name, lost: nat, n: nat) {
    || lost == 0
    || (n <= MAX_CHAIN && Lookup(v, d, t).Some? && Lookup(v, d, t).value.FileNode?
        && |Lookup(v, d, t).value.bytes| <= v.bpc)
  }

  /** No layout with directory d makes the volume well formed. */
  ghost predicate Broken(u: Vol, d: nat) { forall lay: Layout :: d in lay.dirs ==> !Wf(u.(lay := lay)) }

  ghost function OverrunEntry(v: Vol, lost: nat, n: nat, c: nat): nat
    requires c < |v.fat|
  {
    if c in FreeSet(v.fat) || c in ChainOf(v, lost) then (if n > MAX_CHAIN then 0 else END_MARK) else v.fat[c]
  }

  /** The clusters are as before; the free ones and those of the chain are all free or all reserved. */
  ghost predicate Overrun(v: Vol, u: Vol, lost: nat, n: nat) {
    && u.blk == v.blk && |u.fat| == |v.fat|
    && forall c :: 0 <= c < |v.fat| ==> u.fat[c] == OverrunEntry(v, lost, n, c)
  }

  ghost predicate Refused(v: Vol, u: Vol, d: nat, t: Name, lost: nat, ext: nat, n: nat) {
    && |FreeSet(u.fat)| == (if n > MAX_CHAIN then |FreeSet(v.fat)| + |ChainOf(v, lost)| - ext else 0)
    && if Survives(v, d, t, lost, n) then Wf(u) && TreeSame(v, u) && u.lay.dirs.Keys == v.lay.dirs.Keys
       else Broken(u, d) && Overrun(v, u, lost, n) && DirsOnDisk(v, u)
  }

  lemma FileLength(v: Vol, d: nat, t: Name, j: nat, i: nat)
    requires Wf(v) && Named(v, d, t, j, i) && !IsDirEntry(At(v, d, j, i))
    ensures Lookup(v, d, t).Some? && Lookup(v, d, t).value.FileNode?
    ensures |Lookup(v, d, t).value.bytes| == At(v, d, j, i).size
  {
    hide ChainsOk, BlocksOk, EndsOk, DotsOk, SlotsOk, NamesOk, At, InDir, Visible, First, IsDirEntry, Lookup, Content;
    FileSize(v, d, t, j, i);
    LookupNamed(v, d, t, j, i);
  }

  lemma EmptiedParts(v: Vol, w: Vol, d: nat, t: Name, j: nat, i: nat, lost: nat)
    requires Emptied(v, w, d, t, j, i, lost)
    ensures Wf(v) && Proper(t) && Named(v, d, t, j, i) && !IsDirEntry(At(v, d, j, i)) && First(At(v, d, j, i)) == lost
    ensures w.blk == v.blk && w.bpc == v.bpc && w.root == v.root && w.lay.dirs == v.lay.dirs && Shaped(w)
    ensures Cleared(v.fat, w.fat, ChainOf(v, lost)) && lost < |v.fat| && lost in ChainOf(v, lost) && w.fat[lost] == 0
    ensures lost in FreeSet(w.fat) && d in v.lay.dirs
  {
    hide ChainsOk, BlocksOk, EndsOk, NamesOk, DotsOk, SlotsOk, Frame, At, InDir, First, IsDirEntry, Visible;
    FileHead(v, lost);
    NamedIn(v, d, t, j, i);
  }

  /** The table after the chain was freed and perhaps everything reserved. */
  lemma OverrunTable(v: Vol, w: Vol, x: Vol, lost: nat, n: nat)
    requires Spilled(w, x, n) && w.blk == v.blk && Cleared(v.fat, w.fat, ChainOf(v, lost))
    requires forall c :: c in ChainOf(v, lost) ==> 2 <= c
    ensures Overrun(v, x, lost, n)
  {
    hide ChainOf;
  }

  lemma ChainAboveOne(v: Vol, w: Vol, d: nat, t: Name, j: nat, i: nat, lost: nat)
    requires Emptied(v, w, d, t, j, i, lost)
    ensures forall c :: c in ChainOf(v, lost) ==> 2 <= c
  {
    assert ChainAt(v, lost, ChainOf(v, lost));
  }

  lemma SpilledDirs(v: Vol, w: Vol, x: Vol, n: nat)
    requires Shaped(w) && Spilled(w, x, n) && w.lay.dirs == v.lay.dirs && w.blk == v.blk && w.bpc == v.bpc
    requires w.root == v.root
    ensures DirsOnDisk(v, x)
  {
    hide BlocksOk;
    if n <= MAX_CHAIN { ReservedShaped(w, x.fat, {}); }
    forall d | d in v.lay.dirs ensures IsChain(x.fat, d, v.lay.dirs[d]) { assert ChainAt(x, d, x.lay.dirs[d]); }
  }

  /** The damage case. */
  lemma RefusedBreaks(v: Vol, w: Vol, x: Vol, d: nat, t: Name, j: nat, i: nat, lost: nat, n: nat)
    requires Emptied(v, w, d, t, j, i, lost) && Spilled(w, x, n) && lost != 0 && !Survives(v, d, t, lost, n)
    ensures Broken(x, d) && Overrun(v, x, lost, n) && DirsOnDisk(v, x)
  {
    hide Wf, Shaped, Emptied, Named, At, First, IsDirEntry, Lookup, ChainOf, Proper, Overrun;
    EmptiedParts(v, w, d, t, j, i, lost);
    ChainAboveOne(v, w, d, t, j, i, lost);
    FileLength(v, d, t, j, i);
    OverrunTable(v, w, x, lost, n);
    SpilledDirs(v, w, x, n);
    forall lay: Layout | d in lay.dirs ensures !Wf(x.(lay := lay)) {
      Dangling(v, x.(lay := lay), d, t, j, i, lost);
    }
  }

  /** The harmless case of a file with a chain. */
  lemma RefusedKeeps(v: Vol, w: Vol, x: Vol, d: nat, t: Name, j: nat, i: nat, lost: nat, n: nat)
    requires Emptied(v, w, d, t, j, i, lost) && Spilled(w, x, n) && lost != 0 && Survives(v, d, t, lost, n)
    ensures var u := Stump(w, x.fat, (d, j, i), lost);
            u == x.(lay := u.lay) && Wf(u) && TreeSame(v, u) && u.lay.dirs.Keys == v.lay.dirs.Keys
  {
    hide Wf, Emptied, Named, At, First, IsDirEntry, Lookup, Reserved, TreeSame, FatChange.Place;
    EmptiedParts(v, w, d, t, j, i, lost);
    FileLength(v, d, t, j, i);
    StumpKeeps(v, w, d, t, j, i, lost, x.fat);
  }

  /** The case of a name without a chain. */
  lemma RefusedSame(v: Vol, w: Vol, x: Vol, n: nat)
    requires Wf(w) && TreeSame(v, w) && w.lay.dirs.Keys == v.lay.dirs.Keys && Spilled(w, x, n)
    ensures Wf(x) && TreeSame(v, x) && x.lay.dirs.Keys == v.lay.dirs.Keys
  {
    hide Wf, Lookup, Reserved;
    if n <= MAX_CHAIN { ReserveSame(w, x.fat); }
  }

  /** The layout that fits what a refused write leaves, if one does. */
  ghost method AfterRefusal(fs: Volume, v: Vol, w: Vol, d: nat, t: Name, j: nat, i: nat, lost: nat, ext: nat, n: nat)
    requires Spilled(w, fs.V(), n) && w.lay.dirs.Keys == v.lay.dirs.Keys
    requires |FreeSet(w.fat)| == |FreeSet(v.fat)| + |ChainOf(v, lost)| - ext
    requires if lost == 0 then Wf(w) && TreeSame(v, w) else Emptied(v, w, d, t, j, i, lost)
    modifies fs`lay
    ensures Refused(v, fs.V(), d, t, lost, ext, n)
  {
    hide Wf, Emptied, Broken, Overrun, DirsOnDisk, TreeSame, FreeSet, ChainOf, Lookup, Reserved, FatChange.Place;
    var x := fs.V();
    if lost == 0 {
      RefusedSame(v, w, x, n);
    } else if Survives(v, d, t, lost, n) {
      RefusedKeeps(v, w, x, d, t, j, i, lost, n);
      fs.lay := Stump(w, x.fat, (d, j, i), lost).lay;
    } else {
      RefusedBreaks(v, w, x, d, t, j, i, lost, n);
    }
  }

  // ----- the whole write -----

  /** canboot_fat32_write_path below the path walk.  It succeeds exactly when the name is no directory
      and the clusters suffice; then the name holds exactly the data, nothing else changed, the volume
      is well formed, and the free count moved by what was freed and taken.  A write refused for lack of clusters
      leaves the volume well formed with every name as it was, or else (`Survives`) damaged beyond any layout. */
  method WriteFile(fs: Volume, d: nat, t: Name, data: seq<nat>) returns (ok: bool, ghost lost: nat, ghost ext: nat)
    requires Wf(fs.V()) && d in fs.lay.dirs && Proper(t)
    modifies fs
    ensures Cost(old(fs.V()), d, t, lost, ext) && fs.bpc > 0
    ensures var n, free := ClustersFor(|data|, fs.bpc), |old(FreeSet(fs.fat))|;
            && (ok <==> !DirNamed(old(fs.V()), d, t) && ext <= free && n <= MAX_CHAIN
                        && n <= free + |ChainOf(old(fs.V()), lost)| - ext)
            && (ok ==> |FreeSet(fs.fat)| == free + |ChainOf(old(fs.V()), lost)| - ext - n)
            && (!ok ==> if DirNamed(old(fs.V()), d, t) || ext > free then fs.V() == old(fs.V())
                        else Refused(old(fs.V()), fs.V(), d, t, lost, ext, n))
    ensures ok ==> Wf(fs.V()) && TreePut(old(fs.V()), fs.V(), d, t, FileNode(data))
    ensures ok ==> fs.lay.dirs.Keys == old(fs.lay).dirs.Keys
    ensures ok ==> exists j: nat, i: nat :: Entered(fs.V(), d, t, 0x20, |data|, j, i)
  {
    hide Entered, Wf, Claimed, Staged, Frame, Stored, At, FreeSet, ClustersFor, Cost, DirNamed, Absent, ChainOf,
      TreePut, Members, Emptied, TreeSame, Spilled, Refused;
    ghost var v := fs.V();
    assert fs.bpc > 0 by { WfSize(v); }
    var c, i;
    ghost var j;
    ok, c, i, j, lost, ext := ClaimSlot(fs, d, t);
    if !ok { return; }
    ghost var w := fs.V();
    ClaimedFacts(v, w, d, t, j, i, lost);
    var first;
    ok, first := StoreData(fs, data, (d, j, i), lost);
    if !ok {
      AfterRefusal(fs, v, w, d, t, j, i, lost, ext, ClustersFor(|data|, fs.bpc));
      return;
    }
    ghost var x := fs.V();
    assert InDir(x, d, j, i) by { hide *; SameInDir(w, x, d, j, i); }
    assert Shaped(x) by { StagedShaped(x, (d, j, i)); }
    fs.DirWriteEntry(c, i, MakeEntry(t, ATTR_ARCHIVE, first, |data|), d, j);
    WriteDone(v, w, x, d, t, j, i, lost, first, data);
    EnteredAt(x, d, j, i, MakeEntry(t, ATTR_ARCHIVE, first, |data|));
    assert fs.fat == x.fat;
  }

  lemma SameInDir(w: Vol, x: Vol, d: nat, j: nat, i: nat)
    requires InDir(w, d, j, i) && x.lay.dirs == w.lay.dirs && x.bpc == w.bpc
    ensures InDir(x, d, j, i)
  {}

  lemma WfSize(v: Vol)
    requires Wf(v)
    ensures v.bpc >= 64
  {}

  lemma ClaimedFacts(v: Vol, w: Vol, d: nat, t: Name, j: nat, i: nat, lost: nat)
    requires Claimed(v, w, d, t, j, i, lost)
    ensures Staged(w, (d, j, i)) && InDir(w, d, j, i) && w.bpc == v.bpc && w.lay.dirs.Keys == v.lay.dirs.Keys
  {}
}
