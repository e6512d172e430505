/** What a write that finds too few clusters leaves behind: the reservations of alloc_chain, and an entry
    whose chain is already gone. */
module FatFull {
  import opened FatChain
  import opened FatVolume
  import opened FatChange
  import opened FatTree
  import opened FatFile
  import opened FatOps
  import opened FatRemove

  // ----- reservations -----

  lemma ReservedChain(v: Vol, out: Fat, keep: set<nat>, h: nat, ch: seq<nat>)
    requires ChainAt(v, h, ch) && |v.blk| == |v.fat| && Reserved(v.fat, out, keep)
    ensures ChainAt(v.(fat := out), h, ch)
  {
    var u := v.(fat := out);
    forall j | 0 <= j < |ch| ensures Undisturbed(v, u, ch[j]) { ChainNotFree(v.fat, h, ch, ch[j]); }
    ChainUndisturbed(v, u, h, ch);
  }

  lemma ReservedShaped(v: Vol, out: Fat, keep: set<nat>)
    requires Shaped(v) && Reserved(v.fat, out, keep)
    ensures Shaped(v.(fat := out))
  {
    var u := v.(fat := out);
    hide BlocksOk;
    assert ChainsOk(u) by {
      forall d | d in v.lay.dirs ensures ChainAt(u, d, v.lay.dirs[d]) { ReservedChain(v, out, keep, d, v.lay.dirs[d]); }
      forall f | f in v.lay.files
        ensures ChainAt(u, f, v.lay.files[f])
      {
        ReservedChain(v, out, keep, f, v.lay.files[f]);
      }
    }
    BlocksRestrict(v, u);
  }

  /** Reserving free clusters is visible in the table only. */
  lemma ReserveKeeps(v: Vol, hole: Loc, out: Fat, keep: set<nat>, lost: nat)
    requires Staged(v, hole) && Reserved(v.fat, out, keep)
    ensures Staged(v.(fat := out), hole) && Frame(v, v.(fat := out), hole, lost)
  {
    var u := v.(fat := out);
    hide ChainsOk, BlocksOk, SlotOk, EndsOk, NamesOk, DotsOk, SlotsOk, Reserved;
    ReservedShaped(v, out, keep);
    ZeroIsNoHead(v);
    assert LayoutKept(v, u, 0);
    assert SlotsBut(v, u, 0);
    hide At, InDir, Content;
    SlotFactsKept(v, u, 0);
    SlotsCarry(v, u, hole);
  }

  /** No lookup notices. */
  lemma ReserveSame(v: Vol, out: Fat)
    requires Wf(v) && Reserved(v.fat, out, {})
    ensures Wf(v.(fat := out)) && TreeSame(v, v.(fat := out))
  {
    var u := v.(fat := out);
    hide ChainsOk, BlocksOk, SlotOk, EndsOk, NamesOk, DotsOk, SlotsOk, Reserved, At, InDir, Content, Lookup, Named,
      Frame;
    assert Staged(v, NO_HOLE);
    ReserveKeeps(v, NO_HOLE, out, {}, 0);
    ZeroIsNoHead(v);
    forall d: nat, n: Name | d in v.lay.dirs ensures Lookup(u, d, n) == Lookup(v, d, n) {
      LookupFrame(v, u, NO_HOLE, 0, d, n);
    }
  }

  // ----- a file whose chain was freed and reserved again -----

  /** The file under (d, j, i) has lost its chain, in w. */
  ghost predicate Emptied(v: Vol, w: Vol, d: nat, t: Name, j: nat, i: nat, lost: nat) {
    && Wf(v) && Proper(t) && Named(v, d, t, j, i) && !IsDirEntry(At(v, d, j, i)) && First(At(v, d, j, i)) == lost
    && lost in v.lay.files && lost !in v.lay.dirs && lost in v.lay.owner && v.lay.owner[lost] == (d, j, i)
    && w == Drop(v, lost, w.fat) && Cleared(v.fat, w.fat, ChainOf(v, lost))
    && Staged(w, (d, j, i)) && Frame(v, w, (d, j, i), lost)
  }

  /** The file's first cluster, reserved alone, as the chain of the file. */
  ghost function Stump(w: Vol, out: Fat, hole: Loc, lost: nat): Vol { AddFile(w, [lost], out, w.blk, hole) }

  lemma FileHead(v: Vol, f: nat)
    requires Shaped(v) && f in v.lay.files && f !in v.lay.dirs
    ensures 2 <= f < |v.fat| <= EOC && |v.fat| == |v.blk| && v.blk[f].Data? && |v.blk[f].bytes| == v.bpc
    ensures v.lay.files[f] != [] && v.lay.files[f][0] == f && f in ChainOf(v, f)
  {
    assert ChainAt(v, f, v.lay.files[f]);
    assert IsDataBlock(v, v.lay.files[f][0]);
  }

  lemma StumpStaged(v: Vol, w: Vol, d: nat, t: Name, j: nat, i: nat, lost: nat, out: Fat)
    requires Emptied(v, w, d, t, j, i, lost) && Reserved(w.fat, out, {})
    ensures Staged(Stump(w, out, (d, j, i), lost), (d, j, i))
    ensures Frame(v, Stump(w, out, (d, j, i), lost), (d, j, i), lost)
  {
    hide ChainsOk, BlocksOk, EndsOk, NamesOk, DotsOk, SlotsOk, At, InDir, Content, Frame, Staged, Named,
      FatChange.Place;
    var hole := (d, j, i);
    FileHead(v, lost);
    var fat := out[lost := 0];
    assert lost in FreeSet(w.fat);
    assert Reserved(w.fat, fat, {lost});
    var w1 := w.(fat := fat);
    ReserveKeeps(w, hole, fat, {lost}, lost);
    assert FileWritten(w1, [lost], out, w.blk);
    hide Reserved, Cleared, FileWritten;
    StageAddFile(w1, [lost], out, w.blk, hole, lost);
    FrameTrans(v, w, w1, hole, lost);
    FrameTrans(v, w1, Stump(w, out, hole, lost), hole, lost);
  }

  lemma CloseHole(u: Vol, d: nat, j: nat, i: nat)
    requires Staged(u, (d, j, i)) && InDir(u, d, j, i) && SlotOk(u, d, j, i, At(u, d, j, i))
    ensures Wf(u)
  {
    hide Shaped, EndsOk, NamesOk, DotsOk, At, InDir, SlotOk;
  }

  lemma StumpBytes(v: Vol, u: Vol, lost: nat, size: nat)
    requires Shaped(v) && lost in v.lay.files && lost !in v.lay.dirs && u.blk == v.blk && size <= v.bpc
    ensures |Content(u.blk, [lost])| == v.bpc && size <= |Content(v.blk, v.lay.files[lost])|
    ensures Content(u.blk, [lost])[..size] == Content(v.blk, v.lay.files[lost])[..size]
  {
    FileHead(v, lost);
    hide Shaped, Content;
    ContentHead(v.blk, v.lay.files[lost]);
    ContentHead(v.blk, [lost]);
    NoContent(v.blk);
    assert [lost][1..] == [];
  }

  /** A file that fits its first cluster is not hurt. */
  lemma StumpKeeps(v: Vol, w: Vol, d: nat, t: Name, j: nat, i: nat, lost: nat, out: Fat)
    requires Emptied(v, w, d, t, j, i, lost) && Reserved(w.fat, out, {}) && At(v, d, j, i).size <= v.bpc
    ensures var u := Stump(w, out, (d, j, i), lost); Wf(u) && TreeSame(v, u) && u.lay.dirs == v.lay.dirs
  {
    hide ChainsOk, BlocksOk, EndsOk, NamesOk, DotsOk, SlotsOk, At, InDir, Content, Frame, Lookup, First, IsDirEntry,
      Cleared,
      Reserved, FatChange.Place, Visible;
    var hole, u, e := (d, j, i), Stump(w, out, (d, j, i), lost), At(v, d, j, i);
    StumpStaged(v, w, d, t, j, i, lost, out);
    SameAt(v, u);
    StumpBytes(v, u, lost, e.size);
    assert SlotOk(u, d, j, i, e);
    CloseHole(u, d, j, i);
    ZeroIsNoHead(v);
    ZeroIsNoHead(u);
    LookupNamed(v, d, t, j, i);
    LookupNamed(u, d, t, j, i);
    assert NodeOf(u, e) == NodeOf(v, e);
    hide NodeOf, Wf;
    forall d': nat, n: Name | d' in v.lay.dirs && !(d' == d && n == t) ensures Lookup(u, d', n) == Lookup(v, d', n) {
      assert d' == d ==> !Named(v, d, n, j, i) && !Named(u, d, n, j, i);
      WfFrame(v, u, hole, lost, d', n);
    }
  }

  lemma WfFrame(v: Vol, u: Vol, hole: Loc, lost: nat, d: nat, t: Name)
    requires Wf(v) && Wf(u) && Frame(v, u, hole, lost) && d in v.lay.dirs && d != lost
    requires (lost in v.lay.dirs || lost in v.lay.files) ==> lost in v.lay.owner && v.lay.owner[lost] == hole
    requires hole.0 == d ==> !Named(v, d, t, hole.1, hole.2) && !Named(u, d, t, hole.1, hole.2)
    ensures Lookup(u, d, t) == Lookup(v, d, t)
  {
    hide BlocksOk, ChainsOk, EndsOk, NamesOk, DotsOk, SlotsOk, Frame, Named, Lookup;
    ZeroIsNoHead(v);
    ZeroIsNoHead(u);
    LookupFrame(v, u, hole, lost, d, t);
  }

  // ----- the damage -----

  lemma {:induction false} OneChain(fat: Fat, h: nat, a: seq<nat>, b: seq<nat>, k: nat)
    requires IsChain(fat, h, a) && IsChain(fat, h, b) && k < |a|
    ensures k < |b| && a[k] == b[k]
  {
    if k > 0 {
      OneChain(fat, h, a, b, k - 1);
      assert fat[a[k - 1]] == a[k] < EOC;
      assert k < |b| ==> fat[b[k - 1]] == b[k];
    }
  }

  lemma SameChain(fat: Fat, h: nat, a: seq<nat>, b: seq<nat>)
    requires IsChain(fat, h, a) && IsChain(fat, h, b)
    ensures a == b
  {
    OneChain(fat, h, a, b, |a| - 1);
    OneChain(fat, h, b, a, |b| - 1);
    forall k | 0 <= k < |a| ensures a[k] == b[k] { OneChain(fat, h, a, b, k); }
  }

  /** u has the directories of v on disk, whatever its layout says. */
  ghost predicate DirsOnDisk(v: Vol, u: Vol) {
    && u.bpc == v.bpc && u.root == v.root && u.blk == v.blk
    && forall d :: d in v.lay.dirs ==> IsChain(u.fat, d, v.lay.dirs[d])
  }

  /** Every layout that has directory d has it where it was. */
  lemma SlotOnDisk(v: Vol, u: Vol, d: nat)
    requires Shaped(v) && Shaped(u) && DirsOnDisk(v, u) && d in v.lay.dirs && d in u.lay.dirs
    ensures u.lay.dirs[d] == v.lay.dirs[d]
    ensures forall j: nat, i: nat :: InDir(u, d, j, i) == InDir(v, d, j, i) && At(u, d, j, i) == At(v, d, j, i)
  {
    assert ChainAt(u, d, u.lay.dirs[d]);
    SameChain(u.fat, d, u.lay.dirs[d], v.lay.dirs[d]);
  }

  /** After the chain of a file was freed and perhaps its clusters reserved, its entry needs a chain that
      the table does not have. */
  lemma Dangling(v: Vol, u: Vol, d: nat, t: Name, j: nat, i: nat, lost: nat)
    requires Wf(v) && Proper(t) && Named(v, d, t, j, i) && !IsDirEntry(At(v, d, j, i))
    requires First(At(v, d, j, i)) == lost != 0
    requires DirsOnDisk(v, u) && d in u.lay.dirs && lost < |u.fat|
    requires u.fat[lost] == 0 || (u.fat[lost] >= EOC && At(v, d, j, i).size > v.bpc)
    ensures !Wf(u)
  {
    hide EndsOk, NamesOk, DotsOk, Visible, IsDirEntry, First, Content, At, InDir;
    if Wf(u) {
      NamedIn(v, d, t, j, i);
      SlotOnDisk(v, u, d);
      hide DirsOnDisk;
      var e := At(u, d, j, i);
      NotHole(u, d, j, i);
      assert SlotOk(u, d, j, i, e);
      assert ChainAt(u, lost, u.lay.files[lost]);
      StumpChain(u, lost);
    }
  }

  lemma StumpChain(u: Vol, f: nat)
    requires Shaped(u) && f in u.lay.files
    ensures f < |u.fat| && u.fat[f] != 0
    ensures u.fat[f] >= EOC ==> |Content(u.blk, u.lay.files[f])| == u.bpc
  {
    var ch := u.lay.files[f];
    assert ChainAt(u, f, ch);
    assert IsDataBlock(u, ch[0]);
    if |ch| > 1 { assert u.fat[ch[0]] == ch[1]; }
    hide Shaped, Content;
    if u.fat[f] >= EOC {
      ContentHead(u.blk, ch);
      NoContent(u.blk);
      assert ch[1..] == [];
    }
  }
}
