/** How allocating and releasing clusters changes a volume. */
module FatChange {
  import opened FatChain
  import opened FatVolume

  // ----- what stays -----

  /** u has only slots of v, except those of directory `gone`, unchanged. */
  ghost predicate SlotsBut(v: Vol, u: Vol, gone: nat) {
    && (forall d: nat, j: nat, i: nat {:trigger InDir(u, d, j, i)} :: InDir(u, d, j, i) <==>
       InDir(v, d, j, i) && d != gone)
    && (forall d: nat, j: nat, i: nat {:trigger At(u, d, j, i)} :: InDir(u, d, j, i) ==>
       At(u, d, j, i) == At(v, d, j, i))
  }

  lemma SlotFactsKept(v: Vol, u: Vol, gone: nat)
    requires SlotsBut(v, u, gone) && u.root == v.root && u.lay.up == v.lay.up
    ensures EndsOk(v) ==> EndsOk(u)
    ensures NamesOk(v) ==> NamesOk(u)
    ensures DotsOk(v) ==> DotsOk(u)
  {
    hide At, InDir, Visible, IsDot, IsDirEntry, First;
    if DotsOk(v) {
      forall d: nat, j: nat, i: nat | InDir(u, d, j, i) ensures DotOk(u, d, j, i, At(u, d, j, i)) {
        assert InDir(v, d, j, i);
        assert DotOk(v, d, j, i, At(v, d, j, i));
      }
    }
  }

  predicate Undisturbed(v: Vol, u: Vol, c: nat) {
    && c < |v.fat| && c < |u.fat| && c < |v.blk| && c < |u.blk|
    && u.fat[c] == v.fat[c] && u.blk[c] == v.blk[c]
    && (c in v.lay.at ==> c in u.lay.at && u.lay.at[c] == v.lay.at[c])
  }

  lemma ChainUndisturbed(v: Vol, u: Vol, h: nat, ch: seq<nat>)
    requires ChainAt(v, h, ch) && |u.fat| == |v.fat| && forall j :: 0 <= j < |ch| ==> Undisturbed(v, u, ch[j])
    ensures ChainAt(u, h, ch)
  {}

  /** A cluster that is free in the table is in no chain. */
  lemma FreeApart(v: Vol, c: nat)
    requires ChainsOk(v) && c in FreeSet(v.fat)
    ensures forall d :: d in v.lay.dirs ==> c !in v.lay.dirs[d]
    ensures forall f :: f in v.lay.files ==> c !in v.lay.files[f]
    ensures c !in v.lay.dirs && c !in v.lay.files
  {
    forall d | d in v.lay.dirs ensures c !in v.lay.dirs[d] && d in v.lay.dirs[d] {
      assert ChainAt(v, d, v.lay.dirs[d]);
      if c in v.lay.dirs[d] { ChainNotFree(v.fat, d, v.lay.dirs[d], c); }
    }
    forall f | f in v.lay.files ensures c !in v.lay.files[f] && f in v.lay.files[f] {
      assert ChainAt(v, f, v.lay.files[f]);
      if c in v.lay.files[f] { ChainNotFree(v.fat, f, v.lay.files[f], c); }
    }
  }

  lemma ZeroIsNoHead(v: Vol)
    requires ChainsOk(v)
    ensures 0 !in v.lay.dirs && 0 !in v.lay.files
  {
    forall d | d in v.lay.dirs ensures d != 0 { assert ChainAt(v, d, v.lay.dirs[d]); }
    forall f | f in v.lay.files ensures f != 0 { assert ChainAt(v, f, v.lay.files[f]); }
  }

  /** Two chains share no cluster. */
  lemma ChainsApart(v: Vol, h: nat, ch: seq<nat>, h': nat, ch': seq<nat>, c: nat)
    requires ChainAt(v, h, ch) && ChainAt(v, h', ch') && h != h' && c in ch
    ensures c !in ch'
  {}

  /** What well-formedness says about any two chains: in range, acyclic, ended, in use, and disjoint. */
  lemma ChainSafety(v: Vol, h: nat, h': nat)
    requires Wf(v) && (h in v.lay.dirs || h in v.lay.files) && (h' in v.lay.dirs || h' in v.lay.files)
    ensures var ch := ChainOf(v, h);
            && ch != [] && ch[0] == h && Distinct(ch) && Members(ch) !! FreeSet(v.fat)
            && (forall k :: 0 <= k < |ch| ==> 2 <= ch[k] < |v.fat|)
            && (forall k :: 0 <= k < |ch| - 1 ==> v.fat[ch[k]] == ch[k + 1]) && v.fat[ch[|ch| - 1]] >= EOC
    ensures h != h' ==> Members(ChainOf(v, h)) !! Members(ChainOf(v, h'))
  {
    assert ChainAt(v, h, ChainOf(v, h)) && ChainAt(v, h', ChainOf(v, h'));
    forall c | c in ChainOf(v, h) ensures c !in FreeSet(v.fat) { ChainNotFree(v.fat, h, ChainOf(v, h), c); }
  }

  // ----- releasing a chain -----

  function Drop(v: Vol, h: nat, fat: Fat): Vol {
    v.(fat := fat, lay := v.lay.(dirs := v.lay.dirs - {h}, files := v.lay.files - {h}))
  }

  function ChainOf(v: Vol, h: nat): seq<nat> {
    if h in v.lay.dirs then v.lay.dirs[h] else if h in v.lay.files then v.lay.files[h] else []
  }

  ghost predicate Cleared(fat: Fat, out: Fat, ch: seq<nat>) {
    |out| == |fat| && forall c :: 0 <= c < |fat| ==> out[c] == if c in ch then 0 else fat[c]
  }

  lemma DropOther(v: Vol, h: nat, fat: Fat, g: nat, ch: seq<nat>)
    requires ChainsOk(v) && ChainAt(v, h, ChainOf(v, h)) && Cleared(v.fat, fat, ChainOf(v, h)) && g != h
    requires ChainAt(v, g, ch)
    ensures ChainAt(Drop(v, h, fat), g, ch)
  {
    var u := Drop(v, h, fat);
    forall j | 0 <= j < |ch| ensures Undisturbed(v, u, ch[j]) {
      ChainsApart(v, g, ch, h, ChainOf(v, h), ch[j]);
    }
    ChainUndisturbed(v, u, g, ch);
  }

  lemma DropChains(v: Vol, h: nat, fat: Fat)
    requires ChainsOk(v) && (h in v.lay.dirs || h in v.lay.files) && Cleared(v.fat, fat, ChainOf(v, h))
    ensures ChainsOk(Drop(v, h, fat))
  {
    var u := Drop(v, h, fat);
    assert ChainAt(v, h, ChainOf(v, h));
    forall d | d in u.lay.dirs ensures ChainAt(u, d, u.lay.dirs[d]) {
      DropOther(v, h, fat, d, v.lay.dirs[d]);
    }
    forall g | g in u.lay.files ensures ChainAt(u, g, u.lay.files[g]) {
      DropOther(v, h, fat, g, v.lay.files[g]);
    }
    hide ChainAt, Cleared;
  }

  /** The chain is gone; every other directory and file is as before. */
  lemma DropView(v: Vol, h: nat, fat: Fat)
    requires Shaped(v) && h != v.root && (h in v.lay.dirs || h in v.lay.files) && Cleared(v.fat, fat, ChainOf(v, h))
    ensures var u := Drop(v, h, fat);
            && Shaped(u) && SlotsBut(v, u, h)
            && forall g :: g in u.lay.files ==> Content(u.blk, u.lay.files[g]) == Content(v.blk, v.lay.files[g])
  {
    hide ChainsOk, BlocksOk, Cleared, ChainOf;
    DropChains(v, h, fat);
    BlocksRestrict(v, Drop(v, h, fat));
  }

  lemma BlocksRestrict(v: Vol, u: Vol)
    requires ChainsOk(v) && BlocksOk(v) && ChainsOk(u) && u.blk == v.blk && u.bpc == v.bpc
    requires forall d :: d in u.lay.dirs ==> d in v.lay.dirs && u.lay.dirs[d] == v.lay.dirs[d]
    requires forall f :: f in u.lay.files ==> f in v.lay.files && u.lay.files[f] == v.lay.files[f]
    ensures BlocksOk(u)
  {
    hide ChainsOk;
    forall d, j | d in u.lay.dirs && 0 <= j < |u.lay.dirs[d]| ensures IsDirBlock(u, u.lay.dirs[d][j]) {
      assert IsDirBlock(v, v.lay.dirs[d][j]);
    }
    forall f, j | f in u.lay.files && 0 <= j < |u.lay.files[f]| ensures IsDataBlock(u, u.lay.files[f][j]) {
      assert IsDataBlock(v, v.lay.files[f][j]);
    }
  }

  /** The chains other than `lost` are still there, with the same owners, parents and sizes. */
  ghost predicate LayoutKept(v: Vol, u: Vol, lost: nat) {
    && u.root == v.root
    && (forall h :: h in v.lay.dirs && h != lost ==> h in u.lay.dirs)
    && (forall h :: h in v.lay.files && h != lost ==>
          h in u.lay.files && |Content(u.blk, u.lay.files[h])| == |Content(v.blk, v.lay.files[h])|)
    && (forall h :: (h in v.lay.dirs || h in v.lay.files) && h != lost && h in v.lay.owner ==>
          h in u.lay.owner && u.lay.owner[h] == v.lay.owner[h])
    && (forall h :: h in v.lay.dirs && h != lost && h in v.lay.up ==> h in u.lay.up && u.lay.up[h] == v.lay.up[h])
  }

  /** A slot that does not own the lost chain stays right. */
  lemma SlotCarry(v: Vol, u: Vol, d: nat, j: nat, i: nat, e: Slot, lost: nat)
    requires SlotOk(v, d, j, i, e) && LayoutKept(v, u, lost)
    requires (lost in v.lay.dirs || lost in v.lay.files) && lost in v.lay.owner ==> v.lay.owner[lost] != (d, j, i)
    ensures SlotOk(u, d, j, i, e)
  {
    hide Visible, IsDot, IsDirEntry, First, Content;
  }

  /** Only the slot that owned the chain is left dangling. */
  lemma DropSlots(v: Vol, h: nat, fat: Fat, hole: (nat, nat, nat))
    requires Shaped(v) && SlotsOk(v, NO_HOLE) && h != v.root && (h in v.lay.dirs || h in v.lay.files)
    requires Cleared(v.fat, fat, ChainOf(v, h)) && h in v.lay.owner && v.lay.owner[h] == hole
    ensures SlotsOk(Drop(v, h, fat), hole)
  {
    var u := Drop(v, h, fat);
    hide At, InDir, SlotOk, Cleared, ChainOf, BlocksOk, ChainsOk;
    DropView(v, h, fat);
    assert LayoutKept(v, u, h);
    forall d: nat, j: nat, i: nat | InDir(u, d, j, i) && (d, j, i) != hole ensures SlotOk(u, d, j, i, At(u, d, j, i)) {
      assert InDir(v, d, j, i);
      NotHole(v, d, j, i);
      SlotCarry(v, u, d, j, i, At(v, d, j, i), h);
    }
  }

  /** The place (0, 0, 0) is in no directory. */
  lemma NotHole(v: Vol, d: nat, j: nat, i: nat)
    requires ChainsOk(v) && InDir(v, d, j, i)
    ensures (d, j, i) != NO_HOLE
  {
    assert ChainAt(v, d, v.lay.dirs[d]);
  }

  // ----- taking clusters -----

  /** Records the places of a chain's first n clusters. */
  function Place(at: map<nat, (nat, nat)>, h: nat, ch: seq<nat>, n: nat): map<nat, (nat, nat)>
    requires n <= |ch|
  {
    if n == 0 then at else Place(at, h, ch, n - 1)[ch[n - 1] := (h, n - 1)]
  }

  lemma {:induction false} PlaceAt(at: map<nat, (nat, nat)>, h: nat, ch: seq<nat>, n: nat)
    requires n <= |ch| && Distinct(ch)
    ensures forall k :: 0 <= k < n ==> ch[k] in Place(at, h, ch, n) && Place(at, h, ch, n)[ch[k]] == (h, k)
    ensures forall c :: c !in ch && c in at ==> c in Place(at, h, ch, n) && Place(at, h, ch, n)[c] == at[c]
  {
    if n > 0 { PlaceAt(at, h, ch, n - 1); }
  }

  /** u uses the free clusters of `taken` and leaves the rest of the disk alone. */
  ghost predicate Taken(v: Vol, u: Vol, taken: seq<nat>) {
    && u.bpc == v.bpc && u.root == v.root && |u.fat| == |v.fat| && |u.blk| == |v.blk|
    && (forall c :: c in taken ==> c in FreeSet(v.fat))
    && (forall c :: 0 <= c < |v.fat| && c < |v.blk| && c !in taken ==> Undisturbed(v, u, c))
  }

  lemma OthersUndisturbed(v: Vol, u: Vol, taken: seq<nat>, h: nat, ch: seq<nat>)
    requires ChainsOk(v) && Taken(v, u, taken)
    requires (h in v.lay.dirs && v.lay.dirs[h] == ch) || (h in v.lay.files && v.lay.files[h] == ch)
    ensures ChainAt(u, h, ch) && Content(u.blk, ch) == Content(v.blk, ch)
    ensures forall j :: 0 <= j < |ch| ==> Undisturbed(v, u, ch[j])
  {
    assert ChainAt(v, h, ch);
    forall j | 0 <= j < |ch| ensures Undisturbed(v, u, ch[j]) {
      if ch[j] in taken { ChainNotFree(v.fat, h, ch, ch[j]); }
    }
    ChainUndisturbed(v, u, h, ch);
    ContentFrame(v.blk, u.blk, ch);
  }

  function AddFile(v: Vol, chain: seq<nat>, fat: Fat, blk: seq<Block>, place: (nat, nat, nat)): Vol
    requires chain != []
  {
    Vol(v.bpc, v.root, fat, blk, v.lay.(files := v.lay.files[chain[0] := chain],
                                       at := Place(v.lay.at, chain[0], chain, |chain|),
                                       owner := v.lay.owner[chain[0] := place]))
  }

  ghost predicate FileWritten(v: Vol, chain: seq<nat>, fat: Fat, blk: seq<Block>) {
    && chain != [] && Distinct(chain) && IsChain(fat, chain[0], chain) && |fat| == |v.fat| && |blk| == |v.blk|
    && (forall c :: c in chain ==> c in FreeSet(v.fat))
    && (forall c :: 0 <= c < |v.fat| && c !in chain ==> fat[c] == v.fat[c])
    && (forall c :: 0 <= c < |v.blk| && c !in chain ==> blk[c] == v.blk[c])
    && (forall c :: c in chain && c < |blk| ==> blk[c].Data? && |blk[c].bytes| == v.bpc)
  }

  lemma FileTaken(v: Vol, chain: seq<nat>, fat: Fat, blk: seq<Block>, place: (nat, nat, nat))
    requires ChainsOk(v) && FileWritten(v, chain, fat, blk)
    ensures var u := AddFile(v, chain, fat, blk, place);
            Taken(v, u, chain) && ChainAt(u, chain[0], chain)
            && chain[0] !in v.lay.dirs && chain[0] !in v.lay.files
  {
    var u := AddFile(v, chain, fat, blk, place);
    PlaceAt(v.lay.at, chain[0], chain, |chain|);
    assert chain[0] in chain;
    FreeApart(v, chain[0]);
  }

  /** The chains that were there are intact, with their blocks. */
  ghost predicate OldChains(v: Vol, u: Vol)
    requires ChainsOk(v)
  {
    && (forall d :: d in v.lay.dirs ==> ChainAt(u, d, v.lay.dirs[d]))
    && (forall f :: f in v.lay.files ==>
       ChainAt(u, f, v.lay.files[f]) && Content(u.blk, v.lay.files[f]) == Content(v.blk, v.lay.files[f]))
    && (forall d, j :: d in v.lay.dirs && 0 <= j < |v.lay.dirs[d]| ==> KeptDirBlock(v, u, v.lay.dirs[d][j]))
    && (forall f, j :: f in v.lay.files && 0 <= j < |v.lay.files[f]| ==> IsDataBlock(u, v.lay.files[f][j]))
  }

  predicate KeptDirBlock(v: Vol, u: Vol, c: nat) {
    IsDirBlock(v, c) && IsDirBlock(u, c) && u.blk[c] == v.blk[c]
  }

  lemma TakenKeeps(v: Vol, u: Vol, taken: seq<nat>)
    requires Shaped(v) && Taken(v, u, taken)
    ensures OldChains(v, u)
  {
    forall d | d in v.lay.dirs
      ensures ChainAt(u, d, v.lay.dirs[d]) && forall j :: 0 <= j < |v.lay.dirs[d]| ==>
              KeptDirBlock(v, u, v.lay.dirs[d][j])
    {
      OthersUndisturbed(v, u, taken, d, v.lay.dirs[d]);
      forall j | 0 <= j < |v.lay.dirs[d]| ensures KeptDirBlock(v, u, v.lay.dirs[d][j]) {
        assert IsDirBlock(v, v.lay.dirs[d][j]) && Undisturbed(v, u, v.lay.dirs[d][j]);
      }
    }
    forall f | f in v.lay.files
      ensures ChainAt(u, f, v.lay.files[f]) && Content(u.blk, v.lay.files[f]) == Content(v.blk, v.lay.files[f])
      ensures forall j :: 0 <= j < |v.lay.files[f]| ==> IsDataBlock(u, v.lay.files[f][j])
    {
      OthersUndisturbed(v, u, taken, f, v.lay.files[f]);
      forall j | 0 <= j < |v.lay.files[f]| ensures IsDataBlock(u, v.lay.files[f][j]) {
        assert IsDataBlock(v, v.lay.files[f][j]) && Undisturbed(v, u, v.lay.files[f][j]);
      }
    }
    hide ChainAt, Taken;
  }

  lemma KeptSlots(v: Vol, u: Vol)
    requires ChainsOk(v) && OldChains(v, u) && u.lay.dirs == v.lay.dirs && u.bpc == v.bpc
    requires 0 !in v.lay.dirs
    ensures SlotsBut(v, u, 0)
  {
    hide ChainsOk, ChainAt;
    forall d: nat, j: nat, i: nat | InDir(v, d, j, i) ensures At(u, d, j, i) == At(v, d, j, i) {
      assert KeptDirBlock(v, u, v.lay.dirs[d][j]);
    }
  }

  lemma AddFileShaped(v: Vol, u: Vol, chain: seq<nat>)
    requires Shaped(v) && OldChains(v, u) && u.bpc == v.bpc && u.root == v.root && |u.blk| == |u.fat|
    requires |u.fat| <= EOC
    requires chain != [] && chain[0] !in v.lay.dirs && ChainAt(u, chain[0], chain)
    requires u.lay.dirs == v.lay.dirs && u.lay.files == v.lay.files[chain[0] := chain]
    requires forall c :: c in chain ==> IsDataBlock(u, c)
    ensures Shaped(u)
  {
    hide ChainAt;
    assert ChainsOk(u);
    forall d, j | d in u.lay.dirs && 0 <= j < |u.lay.dirs[d]| ensures IsDirBlock(u, u.lay.dirs[d][j]) {
      assert KeptDirBlock(v, u, v.lay.dirs[d][j]);
    }
    forall g, j | g in u.lay.files && 0 <= j < |u.lay.files[g]| ensures IsDataBlock(u, u.lay.files[g][j]) {
      if g == chain[0] {
        assert chain[j] in chain;
      } else {
        assert IsDataBlock(u, v.lay.files[g][j]);
      }
    }
  }

  lemma AddFileView(v: Vol, chain: seq<nat>, fat: Fat, blk: seq<Block>, place: (nat, nat, nat))
    requires Shaped(v) && FileWritten(v, chain, fat, blk)
    ensures var u := AddFile(v, chain, fat, blk, place);
            && Shaped(u) && SlotsBut(v, u, 0) && chain[0] !in v.lay.dirs && chain[0] !in v.lay.files
            && forall g :: g in v.lay.files ==> Content(u.blk, u.lay.files[g]) == Content(v.blk, v.lay.files[g])
  {
    var u := AddFile(v, chain, fat, blk, place);
    FileTaken(v, chain, fat, blk, place);
    TakenKeeps(v, u, chain);
    hide ChainAt, Taken, Place, IsChain;
    forall c | c in chain ensures IsDataBlock(u, c) { assert c in FreeSet(v.fat); }
    AddFileShaped(v, u, chain);
    ZeroIsNoHead(v);
    KeptSlots(v, u);
    hide FileWritten, Shaped;
  }

  /** Slots carry over when they are the same slots and their chains are kept. */
  lemma SlotsCarry(v: Vol, u: Vol, hole: (nat, nat, nat))
    requires SlotsBut(v, u, 0) && LayoutKept(v, u, 0) && 0 !in v.lay.dirs && 0 !in v.lay.files && SlotsOk(v, hole)
    ensures SlotsOk(u, hole)
  {
    hide At, InDir, SlotOk, LayoutKept;
    forall d: nat, j: nat, i: nat | InDir(u, d, j, i) && (d, j, i) != hole ensures SlotOk(u, d, j, i, At(u, d, j, i)) {
      assert InDir(v, d, j, i);
      SlotCarry(v, u, d, j, i, At(v, d, j, i), 0);
    }
  }

  lemma AddFileSlots(v: Vol, chain: seq<nat>, fat: Fat, blk: seq<Block>, place: (nat, nat, nat))
    requires chain != [] && Shaped(v) && FileWritten(v, chain, fat, blk) && SlotsOk(v, place)
    ensures SlotsOk(AddFile(v, chain, fat, blk, place), place)
  {
    hide SlotsOk, BlocksOk, ChainsOk, FileWritten, Place, Content, SlotsBut;
    var u := AddFile(v, chain, fat, blk, place);
    ZeroIsNoHead(v);
    AddFileView(v, chain, fat, blk, place);
    assert LayoutKept(v, u, 0);
    SlotsCarry(v, u, place);
  }

  /** Hands chain h to another slot; only its previous owner may refer to it now. */
  function Relabel(v: Vol, h: nat, place: (nat, nat, nat)): Vol {
    v.(lay := v.lay.(owner := v.lay.owner[h := place]))
  }

  lemma RelabelView(v: Vol, h: nat, place: (nat, nat, nat))
    requires Shaped(v)
    ensures var u := Relabel(v, h, place); Shaped(u) && SlotsBut(v, u, 0) && SameFiles(v, u)
  {
    var u := Relabel(v, h, place);
    ChainsKept2(v, u);
    ZeroIsNoHead(v);
    hide ChainsOk;
    BlocksRestrict(v, u);
  }

  lemma ChainsKept2(v: Vol, u: Vol)
    requires ChainsOk(v) && u.fat == v.fat && |u.blk| == |v.blk|
    requires u.lay.dirs == v.lay.dirs && u.lay.files == v.lay.files && u.lay.at == v.lay.at
    ensures ChainsOk(u)
  {
    forall d | d in v.lay.dirs ensures ChainAt(u, d, u.lay.dirs[d]) { assert ChainAt(v, d, v.lay.dirs[d]); }
    forall f | f in v.lay.files ensures ChainAt(u, f, u.lay.files[f]) { assert ChainAt(v, f, v.lay.files[f]); }
  }

  lemma RelabelSlots(v: Vol, h: nat, place: (nat, nat, nat), hole: (nat, nat, nat))
    requires Shaped(v) && SlotsOk(v, NO_HOLE) && h in v.lay.owner
    requires (v.lay.owner[h] == hole || v.lay.owner[h] == NO_HOLE)
    ensures SlotsOk(Relabel(v, h, place), hole)
  {
    hide At, InDir, SlotOk, BlocksOk, ChainsOk;
    var u := Relabel(v, h, place);
    RelabelView(v, h, place);
    forall d: nat, j: nat, i: nat | InDir(u, d, j, i) && (d, j, i) != hole ensures SlotOk(u, d, j, i, At(u, d, j, i)) {
      assert InDir(v, d, j, i);
      NotHole(v, d, j, i);
      RelabelSlot(v, h, place, d, j, i, At(v, d, j, i));
    }
  }

  lemma RelabelSlot(v: Vol, h: nat, place: (nat, nat, nat), d: nat, j: nat, i: nat, e: Slot)
    requires SlotOk(v, d, j, i, e) && h in v.lay.owner && v.lay.owner[h] != (d, j, i)
    ensures SlotOk(Relabel(v, h, place), d, j, i, e)
  {
    hide Visible, IsDot, IsDirEntry, First, Content;
  }
}
