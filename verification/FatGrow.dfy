/** Growing a directory by a cluster, and creating a directory. */
module FatGrow {
  import opened FatChain
  import opened FatVolume
  import opened FatChange

  /** u has the slots of v and one more cluster of slots, the j-th of directory d. */
  ghost predicate SlotsPlus(v: Vol, u: Vol, d: nat, j: nat, slots: seq<Slot>) {
    && (forall d': nat, j': nat, i': nat {:trigger InDir(u, d', j', i')} ::
          InDir(u, d', j', i') <==> InDir(v, d', j', i') || (d' == d && j' == j && i' < |slots|))
    && (forall i': nat {:trigger InDir(v, d, j, i')} :: !InDir(v, d, j, i'))
    && (forall d': nat, j': nat, i': nat {:trigger At(u, d', j', i')} :: InDir(u, d', j', i') ==>
          At(u, d', j', i') == if d' == d && j' == j then slots[i'] else At(v, d', j', i'))
  }

  /** Everything but the new cluster of slots is as before. */
  lemma PlusKeeps(v: Vol, u: Vol, d: nat, j: nat, slots: seq<Slot>, hole: (nat, nat, nat))
    requires SlotsPlus(v, u, d, j, slots) && LayoutKept(v, u, 0) && 0 !in v.lay.dirs && 0 !in v.lay.files
    requires EndsOk(v) && NamesOk(v) && DotsOk(v) && SlotsOk(v, hole)
    requires forall h :: h in v.lay.dirs && h in v.lay.up ==> h in u.lay.up && u.lay.up[h] == v.lay.up[h]
    requires forall j': nat, i': nat :: InDir(v, d, j', i') ==> j' < j
    requires forall i, i' :: 0 <= i < i' < |slots| && IsEnd(slots[i]) ==> IsEnd(slots[i'])
    requires forall i, i' :: 0 <= i < i' < |slots| ==> !SameName(slots[i], slots[i'])
    requires forall j': nat, i': nat, i :: InDir(v, d, j', i') && 0 <= i < |slots| ==> IsEnd(slots[i])
    requires forall i: nat :: i < |slots| ==> DotOk(u, d, j, i, slots[i]) && SlotOk(u, d, j, i, slots[i])
    ensures EndsOk(u) && NamesOk(u) && DotsOk(u) && SlotsOk(u, hole)
  {
    hide At, InDir, SlotOk, LayoutKept, Visible, IsDot, IsDirEntry, First;
    PlusEnds(v, u, d, j, slots);
    PlusNames(v, u, d, j, slots);
    forall d': nat, j': nat, i': nat | InDir(u, d', j', i') ensures DotOk(u, d', j', i', At(u, d', j', i')) {
      if !(d' == d && j' == j) {
        assert InDir(v, d', j', i');
        assert DotOk(v, d', j', i', At(v, d', j', i'));
        DotCarry(v, u, d', j', i', At(v, d', j', i'));
      }
    }
    forall d': nat, j': nat, i': nat | InDir(u, d', j', i') && (d', j', i') != hole
      ensures SlotOk(u, d', j', i', At(u, d', j', i'))
    {
      if !(d' == d && j' == j) {
        assert InDir(v, d', j', i');
        SlotCarry(v, u, d', j', i', At(v, d', j', i'), 0);
      }
    }
  }

  lemma DotCarry(v: Vol, u: Vol, d: nat, j: nat, i: nat, e: Slot)
    requires DotOk(v, d, j, i, e) && InDir(v, d, j, i) && LayoutKept(v, u, 0)
    requires forall h :: h in v.lay.dirs && h in v.lay.up ==> h in u.lay.up && u.lay.up[h] == v.lay.up[h]
    ensures DotOk(u, d, j, i, e)
  {
    hide Visible, IsDot, IsDirEntry, First;
  }

  lemma PlusEnds(v: Vol, u: Vol, d: nat, j: nat, slots: seq<Slot>)
    requires SlotsPlus(v, u, d, j, slots) && EndsOk(v)
    requires forall j': nat, i': nat :: InDir(v, d, j', i') ==> j' < j
    requires forall i, i' :: 0 <= i < i' < |slots| && IsEnd(slots[i]) ==> IsEnd(slots[i'])
    requires forall j': nat, i': nat, i :: InDir(v, d, j', i') && 0 <= i < |slots| ==> IsEnd(slots[i])
    ensures EndsOk(u)
  {
    hide At, InDir, IsEnd;
    forall d': nat, j1: nat, i1: nat, j2: nat, i2: nat
      | InDir(u, d', j1, i1) && InDir(u, d', j2, i2) && Before(j1, i1, j2, i2) && IsEnd(At(u, d', j1, i1))
      ensures IsEnd(At(u, d', j2, i2))
    {
      assert d' == d && j1 == j && InDir(v, d', j2, i2) ==> j2 < j;
      assert InDir(v, d', j1, i1) && InDir(v, d', j2, i2) ==> IsEnd(At(v, d', j1, i1)) ==> IsEnd(At(v, d', j2, i2));
    }
  }

  lemma PlusNames(v: Vol, u: Vol, d: nat, j: nat, slots: seq<Slot>)
    requires SlotsPlus(v, u, d, j, slots) && NamesOk(v)
    requires forall i, i' :: 0 <= i < i' < |slots| ==> !SameName(slots[i], slots[i'])
    requires forall j': nat, i': nat, i :: InDir(v, d, j', i') && 0 <= i < |slots| ==> IsEnd(slots[i])
    ensures NamesOk(u)
  {
    hide At, InDir;
    forall d': nat, j1: nat, i1: nat, j2: nat, i2: nat
      | InDir(u, d', j1, i1) && InDir(u, d', j2, i2) && SameName(At(u, d', j1, i1), At(u, d', j2, i2))
      ensures j1 == j2 && i1 == i2
    {
    }
  }

  // ----- one more cluster for a directory -----

  function Blanks(n: nat): seq<Slot> { seq(n, _ => BLANK) }

  function Extend(v: Vol, d: nat, nc: nat): Vol
    requires ChainsOk(v) && d in v.lay.dirs && nc in FreeSet(v.fat)
  {
    assert ChainAt(v, d, v.lay.dirs[d]);
    var ch := v.lay.dirs[d];
    Vol(v.bpc, v.root, v.fat[nc := END_MARK][ch[|ch| - 1] := nc], v.blk[nc := Dir(Blanks(PerCluster(v)))],
        v.lay.(dirs := v.lay.dirs[d := ch + [nc]], at := v.lay.at[nc := (d, |ch|)]))
  }

  /** The one cluster taken and the one link added. */
  ghost predicate Extended(v: Vol, u: Vol, d: nat, nc: nat, last: nat) {
    && d in v.lay.dirs && |v.lay.dirs[d]| > 0 && last == v.lay.dirs[d][|v.lay.dirs[d]| - 1]
    && u.bpc == v.bpc && u.root == v.root && |u.fat| == |v.fat| && |u.blk| == |v.blk| == |v.fat|
    && 2 <= nc < |u.fat| && 2 <= last < |u.fat| && nc != last && u.fat[nc] == END_MARK && u.fat[last] == nc
    && u.blk[nc] == Dir(Blanks(PerCluster(v)))
    && u.lay == v.lay.(dirs := v.lay.dirs[d := v.lay.dirs[d] + [nc]], at := v.lay.at[nc := (d, |v.lay.dirs[d]|)])
    && (forall c :: 0 <= c < |v.fat| && c != nc && c != last ==> Undisturbed(v, u, c))
    && (forall c :: 0 <= c < |v.fat| && c != nc ==> u.blk[c] == v.blk[c])
    && (forall g :: g in v.lay.dirs ==> nc !in v.lay.dirs[g])
    && (forall g :: g in v.lay.files ==> nc !in v.lay.files[g])
  }

  lemma ExtendFacts(v: Vol, d: nat, nc: nat) returns (last: nat)
    requires ChainsOk(v) && d in v.lay.dirs && nc in FreeSet(v.fat)
    ensures Extended(v, Extend(v, d, nc), d, nc, last)
  {
    assert ChainAt(v, d, v.lay.dirs[d]);
    last := v.lay.dirs[d][|v.lay.dirs[d]| - 1];
    assert last in v.lay.dirs[d];
    FreeApart(v, nc);
    hide ChainsOk, ChainAt;
  }

  lemma ExtendOther(v: Vol, u: Vol, d: nat, nc: nat, last: nat, g: nat, ch: seq<nat>)
    requires Extended(v, u, d, nc, last) && g != d && ChainAt(v, g, ch) && ChainAt(v, d, v.lay.dirs[d]) && nc !in ch
    ensures ChainAt(u, g, ch) && Content(u.blk, ch) == Content(v.blk, ch)
  {
    assert last in v.lay.dirs[d];
    ChainsApart(v, d, v.lay.dirs[d], g, ch, last);
    forall j | 0 <= j < |ch| ensures Undisturbed(v, u, ch[j]) { assert ch[j] in ch; }
    ChainUndisturbed(v, u, g, ch);
    ContentFrame(v.blk, u.blk, ch);
  }

  lemma ExtendOwn(v: Vol, u: Vol, d: nat, nc: nat, last: nat)
    requires Extended(v, u, d, nc, last) && ChainAt(v, d, v.lay.dirs[d])
    ensures ChainAt(u, d, v.lay.dirs[d] + [nc])
  {
    var ch := v.lay.dirs[d];
    forall j | 0 <= j < |ch| ensures ch[j] != nc && (j < |ch| - 1 ==> ch[j] != last) { assert ch[j] in ch; }
    forall j | 0 <= j < |ch| - 1 ensures Undisturbed(v, u, ch[j]) {}
  }

  lemma ExtendChains(v: Vol, u: Vol, d: nat, nc: nat, last: nat)
    requires ChainsOk(v) && Extended(v, u, d, nc, last)
    ensures ChainsOk(u) && SameFiles(v, u)
  {
    assert ChainAt(v, d, v.lay.dirs[d]);
    ExtendOwn(v, u, d, nc, last);
    forall g | g in v.lay.dirs && g != d
      ensures ChainAt(u, g, v.lay.dirs[g])
    {
      ExtendOther(v, u, d, nc, last, g, v.lay.dirs[g]);
    }
    forall g | g in v.lay.files
      ensures ChainAt(u, g, v.lay.files[g]) && Content(u.blk, v.lay.files[g]) == Content(v.blk, v.lay.files[g])
    {
      ExtendOther(v, u, d, nc, last, g, v.lay.files[g]);
    }
    hide ChainAt;
  }

  lemma ExtendView(v: Vol, d: nat, nc: nat)
    requires Shaped(v) && d in v.lay.dirs && nc in FreeSet(v.fat)
    ensures var u := Extend(v, d, nc);
            Shaped(u) && SlotsPlus(v, u, d, |v.lay.dirs[d]|, Blanks(PerCluster(v))) && SameFiles(v, u)
  {
    hide Extend;
    var u, ch := Extend(v, d, nc), v.lay.dirs[d];
    var last := ExtendFacts(v, d, nc);
    ExtendChains(v, u, d, nc, last);
    ExtendBlocks(v, u, d, nc, last);
    hide Extended, ChainsOk;
  }

  lemma ExtendBlocks(v: Vol, u: Vol, d: nat, nc: nat, last: nat)
    requires ChainsOk(v) && ChainsOk(u) && BlocksOk(v) && Extended(v, u, d, nc, last)
    ensures BlocksOk(u) && SlotsPlus(v, u, d, |v.lay.dirs[d]|, Blanks(PerCluster(v)))
  {
    hide ChainsOk;
    var ch := v.lay.dirs[d];
    forall g, j | g in u.lay.dirs && 0 <= j < |u.lay.dirs[g]|
      ensures IsDirBlock(u, u.lay.dirs[g][j])
      ensures u.blk[u.lay.dirs[g][j]] == if g == d && j == |ch| then Dir(Blanks(PerCluster(v)))
              else v.blk[v.lay.dirs[g][j]]
    {
      if !(g == d && j == |ch|) { assert IsDirBlock(v, v.lay.dirs[g][j]) && v.lay.dirs[g][j] in v.lay.dirs[g]; }
    }
    forall g, j | g in u.lay.files && 0 <= j < |u.lay.files[g]| ensures IsDataBlock(u, u.lay.files[g][j]) {
      assert IsDataBlock(v, v.lay.files[g][j]) && v.lay.files[g][j] in v.lay.files[g];
    }
  }

  /** A directory that grows by a blank cluster stays well formed. */
  lemma ExtendKeeps(v: Vol, d: nat, nc: nat)
    requires Wf(v) && d in v.lay.dirs && nc in FreeSet(v.fat)
    ensures Wf(Extend(v, d, nc))
  {
    hide Extend, At, SlotOk, DotOk, ChainsOk, BlocksOk;
    var u := Extend(v, d, nc);
    ExtendView(v, d, nc);
    ZeroIsNoHead(v);
    ExtendLayout(v, d, nc);
    forall i: nat | i < PerCluster(v)
      ensures DotOk(u, d, |v.lay.dirs[d]|, i, BLANK) && SlotOk(u, d, |v.lay.dirs[d]|, i, BLANK)
    {
      BlankOk(u, d, |v.lay.dirs[d]|, i);
    }
    PlusKeeps(v, u, d, |v.lay.dirs[d]|, Blanks(PerCluster(v)), NO_HOLE);
  }

  lemma BlankOk(u: Vol, d: nat, j: nat, i: nat)
    requires j > 0
    ensures DotOk(u, d, j, i, BLANK) && SlotOk(u, d, j, i, BLANK)
  {
    assert BLANK.name[0] == 0;
    assert !Visible(BLANK);
    hide Visible, First, Content;
  }

  lemma ExtendLayout(v: Vol, d: nat, nc: nat)
    requires Shaped(v) && d in v.lay.dirs && nc in FreeSet(v.fat)
    ensures var u := Extend(v, d, nc);
            LayoutKept(v, u, 0) && u.lay.up == v.lay.up && u.lay.owner == v.lay.owner && u.root == v.root
              && u.bpc == v.bpc
            && u.lay.dirs == v.lay.dirs[d := v.lay.dirs[d] + [nc]] && |v.lay.dirs[d]| > 0
  {
    hide ChainsOk, BlocksOk, SlotsPlus, Content, Extend;
    ExtendView(v, d, nc);
    var last := ExtendFacts(v, d, nc);
    LayoutOfExtended(v, Extend(v, d, nc), d, nc, last);
  }

  lemma LayoutOfExtended(v: Vol, u: Vol, d: nat, nc: nat, last: nat)
    requires Extended(v, u, d, nc, last) && SameFiles(v, u)
    ensures LayoutKept(v, u, 0)
  {
    hide Content, Undisturbed;
  }

  // ----- a new directory -----

  function DotSlots(dc: nat, parent: nat, n: nat): seq<Slot>
    requires n >= 2
  {
    [MakeEntry(DOT, ATTR_DIRECTORY, dc, 0), MakeEntry(DOTDOT, ATTR_DIRECTORY, parent, 0)] + Blanks(n - 2)
  }

  function AddDir(v: Vol, dc: nat, slots: seq<Slot>, parent: nat): Vol
    requires dc < |v.fat| && dc < |v.blk|
  {
    Vol(v.bpc, v.root, v.fat[dc := END_MARK], v.blk[dc := Dir(slots)],
        v.lay.(dirs := v.lay.dirs[dc := [dc]], at := v.lay.at[dc := (dc, 0)], up := v.lay.up[dc := parent],
               owner := v.lay.owner[dc := NO_HOLE]))
  }

  lemma AddDirView(v: Vol, dc: nat, slots: seq<Slot>, parent: nat)
    requires Shaped(v) && dc in FreeSet(v.fat) && |slots| == PerCluster(v)
    ensures var u := AddDir(v, dc, slots, parent);
            Shaped(u) && SlotsPlus(v, u, dc, 0, slots) && SameFiles(v, u) && dc !in v.lay.dirs && dc !in v.lay.files
  {
    hide BlocksOk, At, InDir, Content, SlotsPlus, KeptDirBlock;
    var u := AddDir(v, dc, slots, parent);
    FreeApart(v, dc);
    assert ChainAt(u, dc, [dc]);
    TakenKeeps(v, u, [dc]);
    hide ChainAt;
    assert ChainsOk(u);
    AddDirBlocks(v, u, dc, slots);
    hide ChainsOk;
    AddDirFiles(v, u, dc, slots, parent);
  }

  lemma AddDirFiles(v: Vol, u: Vol, dc: nat, slots: seq<Slot>, parent: nat)
    requires ChainsOk(v) && OldChains(v, u) && u.lay.files == v.lay.files
    ensures SameFiles(v, u)
  {
    hide ChainsOk, ChainAt, Content, KeptDirBlock, IsDataBlock;
  }

  lemma AddDirBlocks(v: Vol, u: Vol, dc: nat, slots: seq<Slot>)
    requires ChainsOk(v) && ChainsOk(u) && OldChains(v, u) && dc !in v.lay.dirs && u.bpc == v.bpc
    requires |slots| == PerCluster(v)
    requires u.lay.dirs == v.lay.dirs[dc := [dc]] && u.lay.files == v.lay.files && dc < |u.blk|
    requires u.blk[dc] == Dir(slots)
    ensures BlocksOk(u) && SlotsPlus(v, u, dc, 0, slots)
  {
    hide ChainsOk, ChainAt;
    forall g, j | g in u.lay.dirs && 0 <= j < |u.lay.dirs[g]| ensures IsDirBlock(u, u.lay.dirs[g][j]) {
      if g != dc { assert KeptDirBlock(v, u, v.lay.dirs[g][j]); }
    }
    forall g, j | g in u.lay.files && 0 <= j < |u.lay.files[g]| ensures IsDataBlock(u, u.lay.files[g][j]) {
      assert IsDataBlock(u, v.lay.files[g][j]);
    }
    forall d: nat, j: nat, i: nat | InDir(u, d, j, i)
      ensures At(u, d, j, i) == if d == dc && j == 0 then slots[i] else At(v, d, j, i)
    {
      if d != dc { assert KeptDirBlock(v, u, v.lay.dirs[d][j]); }
    }
  }

  lemma AddDirLayout(v: Vol, dc: nat, slots: seq<Slot>, parent: nat)
    requires dc < |v.fat| && dc < |v.blk| && v.root in v.lay.dirs && dc !in v.lay.dirs && dc !in v.lay.files
    requires SameFiles(v, AddDir(v, dc, slots, parent))
    ensures var u := AddDir(v, dc, slots, parent);
            && LayoutKept(v, u, 0) && u.root == v.root && dc != v.root && PerCluster(u) == PerCluster(v)
            && (forall h :: h in v.lay.dirs && h in v.lay.up ==> h in u.lay.up && u.lay.up[h] == v.lay.up[h])
            && dc in u.lay.up && u.lay.up[dc] == parent
  {
    hide Content;
  }

  /** A new directory with its "." and ".." is well formed, though nothing refers to it yet. */
  lemma AddDirKeeps(v: Vol, dc: nat, parent: nat)
    requires Wf(v) && dc in FreeSet(v.fat) && parent in v.lay.dirs && |v.blk| == |v.fat|
    ensures Wf(AddDir(v, dc, DotSlots(dc, ParentRef(v, parent), PerCluster(v)), parent))
  {
    hide ChainsOk, BlocksOk, At, AddDir, SlotsPlus, DotSlots, DotOk, SlotOk, LayoutKept, EndsOk, NamesOk, DotsOk,
      SlotsOk;
    var ref := ParentRef(v, parent);
    HeadSmall(v, parent);
    var slots := DotSlots(dc, ref, PerCluster(v));
    var u := AddDir(v, dc, slots, parent);
    DotSlotsLen(dc, ref, PerCluster(v));
    AddDirView(v, dc, slots, parent);
    ZeroIsNoHead(v);
    AddDirLayout(v, dc, slots, parent);
    DotSlotsFacts(u, dc, ref, slots);
    NoSlots(v, u, dc, slots);
    PlusKeeps(v, u, dc, 0, slots, NO_HOLE);
  }

  lemma DotSlotsLen(dc: nat, ref: nat, n: nat)
    requires n >= 2
    ensures |DotSlots(dc, ref, n)| == n
  {}

  lemma NoSlots(v: Vol, u: Vol, dc: nat, slots: seq<Slot>)
    requires SlotsPlus(v, u, dc, 0, slots) && dc !in v.lay.dirs
    ensures forall j: nat, i: nat :: !InDir(v, dc, j, i)
  {}

  lemma HeadSmall(v: Vol, d: nat)
    requires ChainsOk(v) && d in v.lay.dirs
    ensures 2 <= d < |v.fat| <= EOC
  {
    assert ChainAt(v, d, v.lay.dirs[d]);
  }

  lemma DotSlotsFacts(u: Vol, dc: nat, ref: nat, slots: seq<Slot>)
    requires |slots| == PerCluster(u) >= 2 && slots == DotSlots(dc, ref, PerCluster(u)) && dc != u.root
    requires dc in u.lay.up && ref == ParentRef(u, u.lay.up[dc]) && dc < EOC && ref < EOC
    ensures forall i, i' :: 0 <= i < i' < |slots| && IsEnd(slots[i]) ==> IsEnd(slots[i'])
    ensures forall i, i' :: 0 <= i < i' < |slots| ==> !SameName(slots[i], slots[i'])
    ensures forall i: nat :: i < |slots| ==> DotOk(u, dc, 0, i, slots[i]) && SlotOk(u, dc, 0, i, slots[i])
  {
    var e, f := MakeEntry(DOT, ATTR_DIRECTORY, dc, 0), MakeEntry(DOTDOT, ATTR_DIRECTORY, ref, 0);
    DotEntries(dc, ref);
    assert slots[0] == e && slots[1] == f;
    assert forall i :: 2 <= i < |slots| ==> slots[i] == BLANK;
    assert BLANK.name[0] == 0 && !Visible(BLANK);
    hide First, Visible, MakeEntry, DotSlots, IsDirEntry, Content;
    forall i: nat | i < |slots| ensures DotOk(u, dc, 0, i, slots[i]) && SlotOk(u, dc, 0, i, slots[i]) {
      assert slots[i] == e || slots[i] == f || slots[i] == BLANK;
    }
  }

  lemma DotEntries(dc: nat, ref: nat)
    requires dc < EOC && ref < EOC
    ensures var e, f := MakeEntry(DOT, ATTR_DIRECTORY, dc, 0), MakeEntry(DOTDOT, ATTR_DIRECTORY, ref, 0);
            && First(e) == dc && First(f) == ref && Visible(e) && Visible(f) && IsDirEntry(e) && IsDirEntry(f)
            && IsDot(e) && IsDot(f) && !IsEnd(e) && !IsEnd(f) && e.name == DOT && f.name == DOTDOT && e.name != f.name
  {
    MakeEntryFirst(DOT, ATTR_DIRECTORY, dc, 0);
    MakeEntryFirst(DOTDOT, ATTR_DIRECTORY, ref, 0);
    hide First;
    assert DOT[1] != DOTDOT[1];
  }
}
