/** Runs on a fresh volume that end badly: a refused write that ruins the volume, and a rename that loses a
    directory. */
module FatRuns {
  import opened Basics
  import opened FatChain
  import opened FatVolume
  import opened FatChange
  import opened FatDir
  import opened FatFile
  import opened FatOps
  import opened FatWrite
  import opened FatRemove
  import opened FatRename
  import opened FatMake
  import opened FatGrow
  import opened FatName
  import opened FatPath
  import opened FatReach
  import opened FatMoved
  import opened FatFormat

  const CLUSTER: nat := 512
  const A: Text := [65]
  const A_B: Text := [65, 47, 66]

  /** An empty volume with `free` free clusters. */
  method FreshVolume(free: nat) returns (fs: Volume)
    requires free < EOC - 3
    ensures fresh(fs) && fs.bpc == CLUSTER && fs.root == 2 && Wf(fs.V()) && |FreeSet(fs.fat)| == free
    ensures forall t: Name :: Lookup(fs.V(), 2, t) == None
  {
    var fat := [0, 0, EOC] + seq(free, _ => 0);
    FreeCount(fat);
    hide Wf, Lookup;
    fs := new Volume(CLUSTER, 2, fat, seq(|fat|, c => if c == 2 then Dir(Blanks(CLUSTER / 32)) else Data([])),
                     Layout(map[2 := [2]], map[], map[2 := (2, 0)], map[], map[]));
    EmptyRootWf(fs.V());
  }

  lemma SplitA()
    ensures IsText(A) && Split(A) == Some(([SLASH], A)) && Comps([SLASH], 0) == []
  {
    assert StripLen(A, 1) == 1 && AfterSlash(A, 1) == 0 && A[0..1] == A;
    assert SkipSlashes([SLASH], 0) == 1;
  }

  lemma SplitAB()
    ensures IsText(A_B) && Split(A_B) == Some((A, [66])) && Comps(A, 0) == [A]
  {
    assert StripLen(A_B, 3) == 3 && AfterSlash(A_B, 3) == 2;
    assert A_B[2..3] == [66] && A_B[..1] == A;
    assert SkipSlashes(A, 0) == 0 && CompEnd(A, 0, 15) == 1 && A[0..1] == A;
    assert Comps(A, 1) == [];
  }

  lemma TargetA(v: Vol)
    ensures Target(v, A) == Some((v.root, Pack(A)))
  {
    hide Pack, Lookup, Split, Comps;
    SplitA();
    WalkEnd(v, v.root);
  }

  lemma TargetAB(v: Vol, h: nat)
    requires PathNode(v, A) == Some(DirNode(h)) && h != 0
    ensures Target(v, A_B) == Some((h, Pack([66])))
  {
    hide Pack, Lookup, Split, Comps;
    SplitAB();
    TargetA(v);
    OneComp(v, v.root, A, h);
  }

  lemma FileHasChain(v: Vol, d: nat, t: Name, lost: nat, ext: nat)
    requires Wf(v) && Cost(v, d, t, lost, ext) && Lookup(v, d, t).Some? && Lookup(v, d, t).value.FileNode?
    requires Lookup(v, d, t).value.bytes != []
    ensures lost != 0 && ext == 0 && !DirNamed(v, d, t)
  {
    hide Wf, Lookup, NodeOf, At;
    FileOrNone(v, d, t);
    var j, i := NamedBy(v, d, t);
    NodeCases(v, At(v, d, j, i));
    FileLength(v, d, t, j, i);
    FileSize(v, d, t, j, i);
  }

  /** Writing more than 256 clusters over a file of one byte. */
  method OverwriteRuins() returns (fs: Volume, ghost before: Vol, stored: bool, again: bool)
    ensures stored && PathNode(before, A) == Some(FileNode([7])) && Wf(before)
    ensures !again && fs.V() == before.(fat := fs.fat, lay := fs.lay) && Ruined(fs.V())
  {
    hide Wf, Lookup, Target, Pack, DirNamed, ChainOf, FreeSet, Cost, PathsPut, Ruined, FreeSlot;
    fs := FreshVolume(9);
    ghost var lost, ext;
    SplitA();
    TargetA(fs.V());
    FileOrNone(fs.V(), 2, Pack(A));
    assert !Marked(Pack(A)) by { PackProper(A); }
    ghost var v := fs.V();
    assert ClustersFor(1, CLUSTER) == 1;
    stored, lost, ext := WritePath(fs, A, [7]);
    NewFileCost(v, 2, Pack(A), lost, ext);
    assert stored;
    before := fs.V();
    TargetA(before);
    assert PathNode(before, A) == Some(FileNode([7])) by { PutLeads(v, before, Pack(A), FileNode([7])); }
    assert ClustersFor(257 * CLUSTER, CLUSTER) == 257;
    again, lost, ext := WritePath(fs, A, seq(257 * CLUSTER, _ => 7));
    FileHasChain(before, 2, Pack(A), lost, ext);
  }

  lemma NewFileCost(v: Vol, d: nat, t: Name, lost: nat, ext: nat)
    requires Absent(v, d, t) && Cost(v, d, t, lost, ext)
    ensures lost == 0 && ext <= 1
  {
    hide FreeSlot;
  }

  lemma PutLeads(v: Vol, u: Vol, t: Name, node: Node)
    requires t == Pack(A) && PathsPut(v, u, v.root, t, node) && !Marked(t)
    ensures PathNode(u, A) == Some(node)
  {
    hide Pack, Lookup, Target, Marked;
    SplitA();
    TargetA(v);
  }

  /** Renaming /A to /A/B. */
  method RenameLoses() returns (fs: Volume, ghost before: Vol, ghost h: nat, made: bool, renamed: bool)
    ensures made && PathNode(before, A) == Some(DirNode(h)) && Wf(before) && Reaches(before, h)
    ensures renamed && Wf(fs.V()) && !Reaches(fs.V(), h)
    ensures forall q: Text :: IsText(q) ==> PathNode(fs.V(), q) != Some(DirNode(h))
  {
    hide Wf, Lookup, Target, Pack, FreeSet, PathsPut, FreeSlot, Made, Reaches, PathsMoved, Renames;
    fs := FreshVolume(9);
    SplitA();
    SplitAB();
    TargetA(fs.V());
    assert Proper(Pack(A)) && !Marked(Pack(A)) by { PackProper(A); }
    assert Proper(Pack([66])) && !Marked(Pack([66])) by { PackProper([66]); }
    ghost var v := fs.V();
    made, h := MkdirPath(fs, A);
    assert made;
    before := fs.V();
    assert PathNode(before, A) == Some(DirNode(h)) by { PutLeads(v, before, Pack(A), DirNode(h)); }
    TargetA(before);
    ProperNotDot(Pack(A));
    LookupDirIn(before, 2, Pack(A), h);
    TargetAB(before, h);
    MadeEmpty(v, before, 2, Pack(A), h, Pack([66]));
    PathReaches(before, A, h);
    assert HasRoom(before, h) by { SomeFree(before.fat); }
    renamed := RenamePath(fs, A, A_B);
    assert renamed;
    RenamesMoves(before, fs.V(), 2, Pack(A), h, Pack([66]), h);
    IntoItself(before, fs.V(), 2, Pack(A), [66], h);
    forall q: Text | IsText(q) ensures PathNode(fs.V(), q) != Some(DirNode(h)) {
      if PathNode(fs.V(), q) == Some(DirNode(h)) { PathReaches(fs.V(), q, h); }
    }
  }

  lemma SomeFree(fat: Fat)
    ensures |FreeSet(fat)| > 0 ==> FreeSet(fat) != {}
  {}

  lemma MadeEmpty(v: Vol, u: Vol, d: nat, t: Name, h: nat, n: Name)
    requires Made(v, u, d, t, h) && Proper(n)
    ensures Lookup(u, h, n) == None
  {
    hide Wf, Lookup;
  }

  lemma RenamesMoves(v: Vol, u: Vol, od: nat, ot: Name, nd: nat, nt: Name, h: nat)
    requires Renames(v, u, od, ot, nd, nt) && Lookup(v, od, ot) == Some(DirNode(h)) && !Marked(nt)
    ensures Moved(v, u, od, ot, nd, nt, h)
  {
    hide Wf, Lookup, Reaches;
  }

  /** A directory that a path names can be reached. */
  lemma PathReaches(v: Vol, q: Text, h: nat)
    requires Wf(v) && IsText(q) && PathNode(v, q) == Some(DirNode(h))
    ensures Reaches(v, h)
  {
    hide Wf, Lookup, Pack, Comps, Split, CompOk, Walk;
    SplitText(q);
    var parent, leaf := Split(q).value.0, Split(q).value.1;
    CompsText(parent, 0);
    var cs := Comps(parent, 0);
    var d := Walk(v, v.root, cs).value;
    PackProper(leaf);
    ProperNotDot(Pack(leaf));
    LookupDirIn(v, d, Pack(leaf), h);
    WalkSnoc(v, v.root, cs, leaf);
    OneComp(v, d, leaf, h);
    assert CompsOk(cs + [leaf]);
  }
}
