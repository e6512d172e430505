/** Directory operations on a mounted volume: search, slot allocation, entry rewrite, emptiness. */
module FatDir {
  import opened FatChain
  import opened FatVolume
  import opened FatChange
  import opened FatGrow
  import opened FatTree

  class Volume {
    const bpc: nat
    const root: nat
    var fat: Fat
    var blk: seq<Block>
    ghost var lay: Layout

    ghost function V(): Vol
      reads this
    {
      Vol(bpc, root, fat, blk, lay)
    }

    constructor (bpc: nat, root: nat, fat: Fat, blk: seq<Block>, ghost lay: Layout)
      ensures V() == Vol(bpc, root, fat, blk, lay)
    {
      this.bpc, this.root, this.fat, this.blk, this.lay := bpc, root, fat, blk, lay;
    }

    /** The cluster after the j-th of directory d, as the table has it. */
    lemma NextCluster(d: nat, j: nat)
      requires ChainsOk(V()) && d in lay.dirs && j < |lay.dirs[d]|
      ensures lay.dirs[d][j] < |fat| && lay.dirs[d][j] < |blk| && IsCluster(lay.dirs[d][j])
      ensures if j + 1 < |lay.dirs[d]| then fat[lay.dirs[d][j]] == lay.dirs[d][j + 1] else fat[lay.dirs[d][j]] >= EOC
    {
      assert ChainAt(V(), d, lay.dirs[d]);
    }

    /** No slot up to (j, i) is an end marker or a visible entry named t. */
    ghost predicate Passed(d: nat, t: Name, j: nat, i: nat)
      reads this
    {
      forall j': nat, i': nat {:trigger InDir(V(), d, j', i')} :: InDir(V(), d, j', i') && Before(j', i', j, i) ==>
        !IsEnd(At(V(), d, j', i')) && !Named(V(), d, t, j', i')
    }

    /** dir_find: the visible entry named t, or proof that there is none. */
    method DirFind(d: nat, t: Name) returns (found: bool, e: Slot, c: nat, i: nat, ghost j: nat)
      requires Shaped(V()) && EndsOk(V()) && d in lay.dirs
      ensures found ==> Named(V(), d, t, j, i) && e == At(V(), d, j, i) && c == lay.dirs[d][j]
      ensures !found ==> forall j: nat, i: nat :: !Named(V(), d, t, j, i)
      ensures found <==> exists j: nat, i: nat :: Named(V(), d, t, j, i)
    {
      hide Visible, IsEnd;
      var cluster: nat := d;
      j := 0;
      e := BLANK;
      i := 0;
      c := d;
      assert d == lay.dirs[d][0] by { assert ChainAt(V(), d, lay.dirs[d]); }
      while 2 <= cluster < EOC
        invariant j <= |lay.dirs[d]| && (if j < |lay.dirs[d]| then cluster == lay.dirs[d][j] else cluster >= EOC)
        invariant Passed(d, t, j, 0)
        decreases |lay.dirs[d]| - j
      {
        assert IsDirBlock(V(), lay.dirs[d][j]);
        var slots := blk[cluster].slots;
        i := 0;
        while i < bpc / 32
          invariant 0 <= i <= bpc / 32 && Passed(d, t, j, i)
        {
          e := slots[i];
          assert InDir(V(), d, j, i) && e == At(V(), d, j, i);
          if IsEnd(e) {
            NothingBehind(d, t, j, i);
            return false, e, c, i, j;
          }
          if Visible(e) && e.name == t {
            return true, e, cluster, i, j;
          }
          i := i + 1;
        }
        NextCluster(d, j);
        cluster := fat[cluster];
        j := j + 1;
      }
      found := false;
      assert forall j': nat, i': nat :: InDir(V(), d, j', i') ==> Before(j', i', j, 0);
    }

    lemma NothingBehind(d: nat, t: Name, j: nat, i: nat)
      requires EndsOk(V()) && Passed(d, t, j, i) && InDir(V(), d, j, i) && IsEnd(At(V(), d, j, i))
      ensures forall j': nat, i': nat :: !Named(V(), d, t, j', i')
    {
      forall j': nat, i': nat ensures !Named(V(), d, t, j', i') {
        if InDir(V(), d, j', i') && !Before(j', i', j, i) {
          assert IsEnd(At(V(), d, j', i'));
        }
      }
    }

    /** dir_is_empty: nothing but deleted entries, long-name entries, "." and "..". */
    method DirIsEmpty(d: nat) returns (empty: bool)
      requires Shaped(V()) && EndsOk(V()) && d in lay.dirs
      ensures empty <==> forall j: nat, i: nat :: InDir(V(), d, j, i) ==> Ignored(At(V(), d, j, i))
    {
      hide IsEnd, Ignored;
      var cluster: nat := d;
      ghost var j: nat := 0;
      assert d == lay.dirs[d][0] by { assert ChainAt(V(), d, lay.dirs[d]); }
      while 2 <= cluster < EOC
        invariant j <= |lay.dirs[d]| && (if j < |lay.dirs[d]| then cluster == lay.dirs[d][j] else cluster >= EOC)
        invariant AllIgnored(d, j, 0)
        decreases |lay.dirs[d]| - j
      {
        assert IsDirBlock(V(), lay.dirs[d][j]);
        var i := 0;
        while i < bpc / 32
          invariant 0 <= i <= bpc / 32 && AllIgnored(d, j, i)
        {
          var e := blk[cluster].slots[i];
          assert InDir(V(), d, j, i) && e == At(V(), d, j, i);
          if IsEnd(e) {
            EmptyBehind(d, j, i);
            return true;
          }
          if !Ignored(e) { return false; }
          i := i + 1;
        }
        NextCluster(d, j);
        cluster := fat[cluster];
        j := j + 1;
      }
      assert forall j': nat, i': nat :: InDir(V(), d, j', i') ==> Before(j', i', j, 0);
      empty := true;
    }

    ghost predicate AllIgnored(d: nat, j: nat, i: nat)
      reads this
    {
      forall j': nat, i': nat {:trigger InDir(V(), d, j', i')} :: InDir(V(), d, j', i') && Before(j', i', j, i) ==>
        Ignored(At(V(), d, j', i'))
    }

    lemma EmptyBehind(d: nat, j: nat, i: nat)
      requires EndsOk(V()) && AllIgnored(d, j, i) && InDir(V(), d, j, i) && IsEnd(At(V(), d, j, i))
      ensures forall j': nat, i': nat :: InDir(V(), d, j', i') ==> Ignored(At(V(), d, j', i'))
    {
      forall j': nat, i': nat | InDir(V(), d, j', i') ensures Ignored(At(V(), d, j', i')) {
        if !Before(j', i', j, i) {
          assert IsEnd(At(V(), d, j', i'));
        }
      }
    }

    ghost predicate AllUsed(d: nat, j: nat, i: nat)
      reads this
    {
      forall j': nat, i': nat {:trigger InDir(V(), d, j', i')} :: InDir(V(), d, j', i') && Before(j', i', j, i) ==>
        !IsUnused(At(V(), d, j', i'))
    }

    /** dir_alloc_slot: the first unused slot, in a fresh cluster if every slot is in use.  Fails, with
        nothing changed, exactly when it would need a cluster and none is free. */
    method DirAllocSlot(d: nat) returns (ok: bool, c: nat, i: nat, ghost j: nat, ghost grown: bool)
      requires Wf(V()) && d in lay.dirs
      modifies this
      ensures !ok ==> V() == old(V()) && FreeSet(fat) == {} && forall j: nat, i: nat :: InDir(V(), d, j, i) ==>
              !IsUnused(At(V(), d, j, i))
      ensures ok ==> Wf(V()) && InDir(V(), d, j, i) && c == lay.dirs[d][j] && IsUnused(At(V(), d, j, i))
      ensures ok ==> AllUsed(d, j, i)
      ensures ok && !grown ==> V() == old(V())
      ensures ok && grown ==>
              i == 0 && j == |old(lay).dirs[d]| && c in FreeSet(old(fat)) && V() == Extend(old(V()), d, c)
    {
      hide IsUnused, EndsOk, NamesOk, DotsOk, SlotsOk;
      var cluster: nat, last: nat := d, d;
      j, i, c, grown := 0, 0, d, false;
      assert d == lay.dirs[d][0] && 0 < |lay.dirs[d]| by { assert ChainAt(V(), d, lay.dirs[d]); }
      while 2 <= cluster < EOC
        invariant V() == old(V())
        invariant j <= |lay.dirs[d]| && (if j < |lay.dirs[d]| then cluster == lay.dirs[d][j] else cluster >= EOC)
        invariant j > 0 ==> last == lay.dirs[d][j - 1]
        invariant AllUsed(d, j, 0)
        decreases |lay.dirs[d]| - j
      {
        assert IsDirBlock(V(), lay.dirs[d][j]);
        i := 0;
        while i < bpc / 32
          invariant 0 <= i <= bpc / 32 && AllUsed(d, j, i)
        {
          assert InDir(V(), d, j, i) && blk[cluster].slots[i] == At(V(), d, j, i);
          if IsUnused(blk[cluster].slots[i]) {
            return true, cluster, i, j, false;
          }
          i := i + 1;
        }
        NextCluster(d, j);
        last := cluster;
        cluster := fat[cluster];
        j := j + 1;
      }
      assert forall j': nat, i': nat :: InDir(V(), d, j', i') ==> Before(j', i', j, 0);
      i := 0;
      var free, nc := FindFree(fat);
      if !free { return false, c, i, j, false; }
      c := nc;
      Grow(d, nc, last);
      ok, grown := true, true;
    }

    /** Appends cluster nc to directory d, blank. */
    method Grow(d: nat, nc: nat, last: nat)
      requires Wf(V()) && d in lay.dirs && nc in FreeSet(fat) && |lay.dirs[d]| > 0
      requires last == lay.dirs[d][|lay.dirs[d]| - 1]
      requires forall j: nat, i: nat :: InDir(V(), d, j, i) ==> !IsUnused(At(V(), d, j, i))
      modifies this
      ensures V() == Extend(old(V()), d, nc) && Wf(V())
      ensures InDir(V(), d, |old(lay).dirs[d]|, 0) && lay.dirs[d][|old(lay).dirs[d]|] == nc
      ensures IsUnused(At(V(), d, |old(lay).dirs[d]|, 0)) && AllUsed(d, |old(lay).dirs[d]|, 0)
    {
      hide EndsOk, NamesOk, DotsOk, SlotsOk, BlocksOk, At, IsUnused, Visible, Content, SlotsPlus;
      ghost var v, n := V(), |lay.dirs[d]|;
      ExtendKeeps(v, d, nc);
      assert ChainAt(v, d, lay.dirs[d]);
      fat := fat[nc := END_MARK];
      fat := fat[last := nc];
      blk := blk[nc := Dir(Blanks(bpc / 32))];
      lay := lay.(dirs := lay.dirs[d := lay.dirs[d] + [nc]], at := lay.at[nc := (d, n)]);
      assert V() == Extend(v, d, nc);
      hide Extend, ChainsOk;
      FreshCluster(v, d, nc);
    }

    /** The slots of a cluster just appended. */
    lemma FreshCluster(v: Vol, d: nat, nc: nat)
      requires Wf(v) && d in v.lay.dirs && nc in FreeSet(v.fat) && V() == Extend(v, d, nc) && Shaped(V())
      requires forall j: nat, i: nat :: InDir(v, d, j, i) ==> !IsUnused(At(v, d, j, i))
      ensures var n := |v.lay.dirs[d]|;
              && InDir(V(), d, n, 0) && lay.dirs[d][n] == nc && IsUnused(At(V(), d, n, 0)) && AllUsed(d, n, 0)
    {
      hide EndsOk, NamesOk, DotsOk, SlotsOk, BlocksOk, ChainsOk, At, Visible, Content, Extend;
      ExtendView(v, d, nc);
      ExtendLayout(v, d, nc);
      var n := |v.lay.dirs[d]|;
      assert InDir(V(), d, n, 0);
      hide InDir;
      assert At(V(), d, n, 0) == Blanks(PerCluster(v))[0];
    }

    /** dir_write_entry: rewrites one slot in place. */
    method DirWriteEntry(c: nat, i: nat, e: Slot, ghost d: nat, ghost j: nat)
      requires Shaped(V()) && InDir(V(), d, j, i) && c == lay.dirs[d][j]
      modifies this`blk
      ensures V() == PutSlot(old(V()), d, j, i, e)
    {
      assert IsDirBlock(V(), lay.dirs[d][j]);
      blk := blk[c := Dir(blk[c].slots[i := e])];
    }

    /** dir_mark_deleted: the first name byte becomes 0xE5. */
    method DirMarkDeleted(c: nat, i: nat, ghost d: nat, ghost j: nat)
      requires Shaped(V()) && InDir(V(), d, j, i) && c == lay.dirs[d][j]
      modifies this`blk
      ensures V() == PutSlot(old(V()), d, j, i, Deleted(old(At(V(), d, j, i))))
    {
      assert IsDirBlock(V(), lay.dirs[d][j]);
      var e := blk[c].slots[i];
      DirWriteEntry(c, i, e.(name := e.name[0 := DELETED]), d, j);
    }
  }

  function Deleted(e: Slot): Slot {
    e.(name := e.name[0 := DELETED])
  }

  /** What dir_is_empty skips. */
  predicate Ignored(e: Slot) {
    || IsUnused(e) || e.attr == 0x0F
    || (e.name[0] == 46 && (e.name[1] == 32 || (e.name[1] == 46 && e.name[2] == 32)))
  }

  lemma IgnoredExactly(e: Slot)
    ensures Ignored(e) <==> || e.name[0] == 0 || e.name[0] == 0xE5 || e.attr == 15
                            || e.name[..2] == [46, 32] || e.name[..3] == [46, 46, 32]
  {
    assert e.name[..2] == [e.name[0], e.name[1]] && e.name[..3] == [e.name[0], e.name[1], e.name[2]];
  }
}
