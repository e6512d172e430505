/** A FAT32 volume: the table, the clusters (directory blocks or file data), and the ghost layout
    that says which chain is which directory or file.  Well-formedness, and the tree of names to
    nodes that it represents. */
module FatVolume {
  import opened Basics
  import opened FatChain

  /** A packed 8.3 name, eleven bytes. */
  type Name = n: seq<nat> | |n| == 11 witness [32, 32, 32, 32, 32, 32, 32, 32, 32, 32, 32]

  const ATTR_DIRECTORY: nat := 0x10
  const ATTR_ARCHIVE: nat := 0x20
  const DELETED: nat := 0xE5
  const DOT: Name := [46, 32, 32, 32, 32, 32, 32, 32, 32, 32, 32]
  const DOTDOT: Name := [46, 46, 32, 32, 32, 32, 32, 32, 32, 32, 32]

  /** A directory entry; the first cluster is kept in two halves. */
  datatype Slot = Slot(name: Name, attr: nat, hi: nat, lo: nat, size: nat)
  const BLANK: Slot := Slot([0, 0, 0, 0, 0, 0, 0, 0, 0, 0, 0], 0, 0, 0, 0)

  datatype Block = Dir(slots: seq<Slot>) | Data(bytes: seq<nat>)

  predicate IsEnd(e: Slot) { e.name[0] == 0 }
  predicate IsUnused(e: Slot) { e.name[0] == 0 || e.name[0] == DELETED }

  /** Long-name and volume-label entries have attribute bit 3 and are skipped. */
  predicate Visible(e: Slot) { !IsUnused(e) && e.attr / 8 % 2 == 0 }
  predicate IsDirEntry(e: Slot) { e.attr / 16 % 2 == 1 }
  predicate IsDot(e: Slot) { e.name[0] == 46 }

  function First(e: Slot): nat { e.hi * 0x1_0000 + e.lo }

  function MakeEntry(name: Name, attr: nat, first: nat, size: nat): Slot {
    Slot(name, attr, first / 0x1_0000 % 0x1_0000, first % 0x1_0000, size)
  }

  lemma MakeEntryFirst(name: Name, attr: nat, first: nat, size: nat)
    requires first < 0x1_0000_0000
    ensures First(MakeEntry(name, attr, first, size)) == first
  {}

  /** A new entry: the name, the attribute, the two halves of the first cluster, the size. */
  lemma EntryParts(name: Name, attr: nat, first: nat, size: nat)
    ensures var e := MakeEntry(name, attr, first, size);
            && e.name == name && e.attr == attr && e.size == size && e.hi < 0x1_0000 && e.lo < 0x1_0000
            && (first < 0x1_0000_0000 ==> e.hi * 0x1_0000 + e.lo == first)
  {}

  /** Which entries a search sees, and which of them are directories. */
  lemma EntryKinds(e: Slot)
    ensures Visible(e) <==> e.name[0] != 0 && e.name[0] != 0xE5 && e.attr % 16 < 8
    ensures IsDirEntry(e) <==> e.attr % 32 >= 16
    ensures (IsEnd(e) <==> e.name[0] == 0) && (IsUnused(e) <==> e.name[0] == 0 || e.name[0] == 0xE5)
  {}

  /** Slot i of cluster j of directory d holds an entry of this name, attribute and size. */
  ghost predicate Entered(v: Vol, d: nat, t: Name, attr: nat, size: nat, j: nat, i: nat) {
    InDir(v, d, j, i) && At(v, d, j, i).name == t && At(v, d, j, i).attr == attr && At(v, d, j, i).size == size
  }

  // ----- layout -----

  /** Directories and files by first cluster, the place of every chained cluster in its chain, the
      slot that refers to each chain, and each directory's parent. */
  datatype Layout = Layout(
    dirs: map<nat, seq<nat>>,
    files: map<nat, seq<nat>>,
    at: map<nat, (nat, nat)>,
    owner: map<nat, (nat, nat, nat)>,
    up: map<nat, nat>)

  datatype Vol = Vol(bpc: nat, root: nat, fat: Fat, blk: seq<Block>, lay: Layout)

  function PerCluster(v: Vol): nat { v.bpc / 32 }

  ghost predicate ChainAt(v: Vol, h: nat, ch: seq<nat>) {
    IsChain(v.fat, h, ch) && forall j :: 0 <= j < |ch| ==> ch[j] in v.lay.at && v.lay.at[ch[j]] == (h, j)
  }

  /** Every chain is acyclic, in range and ended, and no cluster is in two chains (its place is one
      place). */
  ghost predicate ChainsOk(v: Vol) {
    && |v.blk| == |v.fat| && |v.fat| <= EOC && v.lay.dirs.Keys !! v.lay.files.Keys
    && (forall d :: d in v.lay.dirs ==> ChainAt(v, d, v.lay.dirs[d]))
    && (forall f :: f in v.lay.files ==> ChainAt(v, f, v.lay.files[f]))
  }

  ghost predicate BlocksOk(v: Vol)
    requires ChainsOk(v)
  {
    && (forall d, j :: d in v.lay.dirs && 0 <= j < |v.lay.dirs[d]| ==> IsDirBlock(v, v.lay.dirs[d][j]))
    && (forall f, j :: f in v.lay.files && 0 <= j < |v.lay.files[f]| ==> IsDataBlock(v, v.lay.files[f][j]))
  }

  predicate IsDirBlock(v: Vol, c: nat) {
    c < |v.blk| && v.blk[c].Dir? && |v.blk[c].slots| == PerCluster(v)
  }

  predicate IsDataBlock(v: Vol, c: nat) {
    c < |v.blk| && v.blk[c].Data? && |v.blk[c].bytes| == v.bpc
  }

  ghost predicate Shaped(v: Vol) {
    64 <= v.bpc <= 8192 && v.root in v.lay.dirs && ChainsOk(v) && BlocksOk(v)
  }

  // ----- slots -----

  /** Slot i of the j-th cluster of directory d. */
  predicate InDir(v: Vol, d: nat, j: nat, i: nat) {
    d in v.lay.dirs && j < |v.lay.dirs[d]| && i < PerCluster(v)
  }

  function At(v: Vol, d: nat, j: nat, i: nat): Slot {
    if InDir(v, d, j, i) && IsDirBlock(v, v.lay.dirs[d][j]) then v.blk[v.lay.dirs[d][j]].slots[i] else BLANK
  }

  predicate Before(j: nat, i: nat, j': nat, i': nat) {
    j < j' || (j == j' && i < i')
  }

  /** Nothing but end markers behind the first end marker. */
  ghost predicate EndsOk(v: Vol) {
    forall d: nat, j: nat, i: nat, j': nat, i': nat :: InDir(v, d, j, i) && InDir(v, d, j', i') && Before(j, i, j', i')
      && IsEnd(At(v, d, j, i))
      ==> IsEnd(At(v, d, j', i'))
  }

  predicate SameName(e: Slot, f: Slot) { Visible(e) && Visible(f) && e.name == f.name }

  ghost predicate NamesOk(v: Vol) {
    forall d: nat, j: nat, i: nat, j': nat, i': nat ::
      InDir(v, d, j, i) && InDir(v, d, j', i') && SameName(At(v, d, j, i), At(v, d, j', i')) ==> j == j' && i == i'
  }

  /** Bytes of a chain of data clusters, in order. */
  function Content(blk: seq<Block>, ch: seq<nat>): seq<nat> {
    if ch == [] then []
    else (if ch[0] < |blk| && blk[ch[0]].Data? then blk[ch[0]].bytes else []) + Content(blk, ch[1..])
  }

  /** A visible entry other than "." and ".." refers to a chain of the right kind that no other slot
      refers to; a directory entry also makes this directory the parent. */
  ghost predicate SlotOk(v: Vol, d: nat, j: nat, i: nat, e: Slot) {
    Visible(e) && !IsDot(e) ==>
      if IsDirEntry(e) then
        && First(e) in v.lay.dirs && First(e) != v.root && First(e) in v.lay.up && v.lay.up[First(e)] == d
        && First(e) in v.lay.owner && v.lay.owner[First(e)] == (d, j, i)
      else
        || (First(e) == 0 && e.size == 0)
        || (First(e) in v.lay.files && First(e) in v.lay.owner && v.lay.owner[First(e)] == (d, j, i)
            && e.size <= |Content(v.blk, v.lay.files[First(e)])|)
  }

  /** All slots, except possibly one that is being rewritten. */
  ghost predicate SlotsOk(v: Vol, hole: (nat, nat, nat)) {
    forall d: nat, j: nat, i: nat :: InDir(v, d, j, i) && (d, j, i) != hole ==> SlotOk(v, d, j, i, At(v, d, j, i))
  }

  const NO_HOLE: (nat, nat, nat) := (0, 0, 0)

  /** "." and ".." are the first two slots of every directory but the root, name the directory and
      its parent (0 for the root), and occur nowhere else. */
  ghost predicate DotsOk(v: Vol) {
    forall d: nat, j: nat, i: nat :: InDir(v, d, j, i) ==> DotOk(v, d, j, i, At(v, d, j, i))
  }

  ghost predicate DotOk(v: Vol, d: nat, j: nat, i: nat, e: Slot) {
    if d != v.root && j == 0 && i < 2 then
      && Visible(e) && IsDirEntry(e) && e.name == (if i == 0 then DOT else DOTDOT)
      && (i == 0 ==> First(e) == d)
      && (i == 1 ==> d in v.lay.up && First(e) == ParentRef(v, v.lay.up[d]))
    else Visible(e) ==> !IsDot(e)
  }

  /** How ".." refers to directory p. */
  function ParentRef(v: Vol, p: nat): nat { if p == v.root then 0 else p }

  ghost predicate Wf(v: Vol) {
    Shaped(v) && EndsOk(v) && NamesOk(v) && DotsOk(v) && SlotsOk(v, NO_HOLE)
  }

  // ----- the tree of names -----

  datatype Node = FileNode(bytes: seq<nat>) | DirNode(dir: nat)

  function NodeOf(v: Vol, e: Slot): Node {
    if IsDirEntry(e) then DirNode(First(e))
    else if First(e) in v.lay.files && e.size <= |Content(v.blk, v.lay.files[First(e)])|
    then FileNode(Content(v.blk, v.lay.files[First(e)])[..e.size])
    else FileNode([])
  }

  ghost predicate Named(v: Vol, d: nat, t: Name, j: nat, i: nat) {
    InDir(v, d, j, i) && Visible(At(v, d, j, i)) && At(v, d, j, i).name == t
  }

  /** What directory d has under name t. */
  ghost function Lookup(v: Vol, d: nat, t: Name): Option<Node> {
    if exists j: nat, i: nat :: Named(v, d, t, j, i) then
      var j: nat, i: nat :| Named(v, d, t, j, i);
      Some(NodeOf(v, At(v, d, j, i)))
    else None
  }

  lemma LookupNamed(v: Vol, d: nat, t: Name, j: nat, i: nat)
    requires NamesOk(v) && Named(v, d, t, j, i)
    ensures Lookup(v, d, t) == Some(NodeOf(v, At(v, d, j, i)))
  {
    hide NodeOf;
  }

  // ----- rewriting one slot -----

  /** Two chained clusters are the same only at the same place of the same chain. */
  lemma DirApart(v: Vol, d: nat, j: nat, d': nat, j': nat)
    requires ChainsOk(v) && d in v.lay.dirs && d' in v.lay.dirs && j < |v.lay.dirs[d]| && j' < |v.lay.dirs[d']|
    requires v.lay.dirs[d][j] == v.lay.dirs[d'][j']
    ensures d == d' && j == j'
  {
    assert ChainAt(v, d, v.lay.dirs[d]) && ChainAt(v, d', v.lay.dirs[d']);
  }

  lemma FileApart(v: Vol, d: nat, j: nat, f: nat, c: nat)
    requires ChainsOk(v) && d in v.lay.dirs && f in v.lay.files && j < |v.lay.dirs[d]|
    requires c == v.lay.dirs[d][j]
    ensures c !in v.lay.files[f]
  {
    assert ChainAt(v, d, v.lay.dirs[d]) && ChainAt(v, f, v.lay.files[f]);
  }

  lemma {:induction false} ContentFrame(blk: seq<Block>, blk': seq<Block>, ch: seq<nat>)
    requires |blk'| == |blk| && forall c :: c in ch && c < |blk| ==> blk'[c] == blk[c]
    ensures Content(blk', ch) == Content(blk, ch)
  {
    if ch != [] {
      assert ch[0] in ch;
      ContentFrame(blk, blk', ch[1..]);
    }
  }

  function PutSlot(v: Vol, d: nat, j: nat, i: nat, e: Slot): Vol
    requires Shaped(v) && InDir(v, d, j, i)
  {
    assert IsDirBlock(v, v.lay.dirs[d][j]);
    var c := v.lay.dirs[d][j];
    v.(blk := v.blk[c := Dir(v.blk[c].slots[i := e])])
  }

  /** u has the slots of v, except that (d, j, i) now holds e. */
  ghost predicate SlotSet(v: Vol, u: Vol, d: nat, j: nat, i: nat, e: Slot) {
    && (forall d': nat, j': nat, i': nat {:trigger InDir(u, d', j', i')} :: InDir(u, d', j', i') <==>
       InDir(v, d', j', i'))
    && (forall d': nat, j': nat, i': nat {:trigger At(u, d', j', i')} :: InDir(v, d', j', i') ==>
          At(u, d', j', i') == if d' == d && j' == j && i' == i then e else At(v, d', j', i'))
  }

  ghost predicate SameFiles(v: Vol, u: Vol) {
    u.lay.files == v.lay.files && forall f :: f in v.lay.files ==>
      Content(u.blk, u.lay.files[f]) == Content(v.blk, v.lay.files[f])
  }

  lemma EnteredAt(v: Vol, d: nat, j: nat, i: nat, e: Slot)
    requires Shaped(v) && InDir(v, d, j, i)
    ensures Entered(PutSlot(v, d, j, i, e), d, e.name, e.attr, e.size, j, i)
  {
    hide Shaped, PutSlot, At, SameFiles;
    PutSlotView(v, d, j, i, e);
  }

  lemma PutSlotView(v: Vol, d: nat, j: nat, i: nat, e: Slot)
    requires Shaped(v) && InDir(v, d, j, i)
    ensures var u := PutSlot(v, d, j, i, e); Shaped(u) && SlotSet(v, u, d, j, i, e) && SameFiles(v, u)
  {
    var u, c := PutSlot(v, d, j, i, e), v.lay.dirs[d][j];
    assert IsDirBlock(v, c);
    forall d': nat, j': nat | d' in v.lay.dirs && j' < |v.lay.dirs[d']|
      ensures IsDirBlock(u, v.lay.dirs[d'][j'])
      ensures u.blk[v.lay.dirs[d'][j']] == if d' == d && j' == j then u.blk[c] else v.blk[v.lay.dirs[d'][j']]
    {
      assert IsDirBlock(v, v.lay.dirs[d'][j']);
      if v.lay.dirs[d'][j'] == c { DirApart(v, d', j', d, j); }
    }
    ChainsKept(v, u);
    FilesKept(v, u, d, j);
    hide ChainsOk;
  }

  /** Rewriting a directory block leaves every file's content alone. */
  lemma FilesKept(v: Vol, u: Vol, d: nat, j: nat)
    requires ChainsOk(v) && BlocksOk(v) && d in v.lay.dirs && j < |v.lay.dirs[d]| && u.lay == v.lay && u.bpc == v.bpc
    requires |u.blk| == |v.blk| && forall c :: 0 <= c < |v.blk| && c != v.lay.dirs[d][j] ==> u.blk[c] == v.blk[c]
    ensures SameFiles(v, u)
    ensures forall f, k :: f in v.lay.files && 0 <= k < |v.lay.files[f]| ==> IsDataBlock(u, v.lay.files[f][k])
  {
    forall f | f in v.lay.files
      ensures Content(u.blk, u.lay.files[f]) == Content(v.blk, v.lay.files[f]) && v.lay.dirs[d][j] !in v.lay.files[f]
    {
      FileApart(v, d, j, f, v.lay.dirs[d][j]);
      ContentFrame(v.blk, u.blk, v.lay.files[f]);
    }
    forall f, k | f in v.lay.files && 0 <= k < |v.lay.files[f]| ensures IsDataBlock(u, v.lay.files[f][k]) {
      assert IsDataBlock(v, v.lay.files[f][k]);
      assert v.lay.files[f][k] in v.lay.files[f];
    }
  }

  /** The chains do not depend on the clusters' contents. */
  lemma ChainsKept(v: Vol, u: Vol)
    requires ChainsOk(v) && u.fat == v.fat && u.lay == v.lay && |u.blk| == |v.blk|
    ensures ChainsOk(u)
  {
    forall d | d in v.lay.dirs ensures ChainAt(u, d, u.lay.dirs[d]) { assert ChainAt(v, d, v.lay.dirs[d]); }
    forall f | f in v.lay.files ensures ChainAt(u, f, u.lay.files[f]) { assert ChainAt(v, f, v.lay.files[f]); }
  }

  lemma EndsPut(v: Vol, u: Vol, d: nat, j: nat, i: nat, e: Slot)
    requires EndsOk(v) && SlotSet(v, u, d, j, i, e) && InDir(v, d, j, i) && !IsEnd(e)
    requires forall j': nat, i': nat :: InDir(v, d, j', i') && Before(j', i', j, i) ==> !IsEnd(At(v, d, j', i'))
    ensures EndsOk(u)
  {
    hide At, InDir, IsEnd;
    forall d': nat, j1: nat, i1: nat, j2: nat, i2: nat
      | InDir(u, d', j1, i1) && InDir(u, d', j2, i2) && Before(j1, i1, j2, i2) && IsEnd(At(u, d', j1, i1))
      ensures IsEnd(At(u, d', j2, i2))
    {
      assert InDir(v, d', j1, i1) && InDir(v, d', j2, i2);
      assert IsEnd(At(v, d', j1, i1));
    }
  }

  lemma NamesPut(v: Vol, u: Vol, d: nat, j: nat, i: nat, e: Slot)
    requires NamesOk(v) && SlotSet(v, u, d, j, i, e) && InDir(v, d, j, i)
    requires Visible(e) ==> forall j': nat, i': nat :: Named(v, d, e.name, j', i') ==> j' == j && i' == i
    ensures NamesOk(u)
  {
    hide At, InDir, Visible;
    forall d': nat, j1: nat, i1: nat, j2: nat, i2: nat
      | InDir(u, d', j1, i1) && InDir(u, d', j2, i2) && SameName(At(u, d', j1, i1), At(u, d', j2, i2))
      ensures j1 == j2 && i1 == i2
    {
      assert InDir(v, d', j1, i1) && InDir(v, d', j2, i2);
      assert Named(v, d, e.name, j1, i1) ==> Visible(At(v, d, j1, i1));
      assert Named(v, d, e.name, j2, i2) ==> Visible(At(v, d, j2, i2));
    }
  }

  lemma DotsPut(v: Vol, u: Vol, d: nat, j: nat, i: nat, e: Slot)
    requires DotsOk(v) && SlotSet(v, u, d, j, i, e) && InDir(v, d, j, i) && DotOk(u, d, j, i, e)
    requires u.root == v.root && u.lay.up == v.lay.up
    ensures DotsOk(u)
  {
    hide At, InDir, Visible, IsDot, IsDirEntry, First;
    forall d': nat, j': nat, i': nat | InDir(u, d', j', i') ensures DotOk(u, d', j', i', At(u, d', j', i')) {
      assert InDir(v, d', j', i');
      assert DotOk(v, d', j', i', At(v, d', j', i'));
    }
  }

  lemma SlotsPut(v: Vol, u: Vol, d: nat, j: nat, i: nat, e: Slot, hole: (nat, nat, nat))
    requires SlotSet(v, u, d, j, i, e) && InDir(v, d, j, i) && SameFiles(v, u) && u.root == v.root && u.lay == v.lay
    requires forall d': nat, j': nat, i': nat ::
               InDir(v, d', j', i') && (d', j', i') != hole && (d', j', i') != (d, j, i) ==>
                 SlotOk(v, d', j', i', At(v, d', j', i'))
    requires (d, j, i) != hole ==> SlotOk(v, d, j, i, e)
    ensures SlotsOk(u, hole)
  {
    hide At, InDir, Visible, IsDot, IsDirEntry, First;
    forall d': nat, j': nat, i': nat | InDir(u, d', j', i') && (d', j', i') != hole
      ensures SlotOk(u, d', j', i', At(u, d', j', i'))
    {
      assert InDir(v, d', j', i');
      if d' == d && j' == j && i' == i {
        assert SlotOk(v, d, j, i, e);
      } else {
        assert SlotOk(v, d', j', i', At(v, d', j', i'));
      }
    }
  }
}
