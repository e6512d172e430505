/** The path API: walking a path over the tree of names, and the operations by path. */
module FatPath {
  import opened Basics
  import opened FatChain
  import opened FatVolume
  import opened FatChange
  import opened FatTree
  import opened FatDir
  import opened FatFile
  import opened FatOps
  import opened FatRemove
  import opened FatFull
  import opened FatWrite
  import opened FatMake
  import opened FatRename
  import opened FatName

  predicate CompOk(c: Text) { c != [] && IsText(c) }

  predicate CompsOk(cs: seq<Text>) { forall k :: 0 <= k < |cs| ==> CompOk(cs[k]) }

  /** The directory that components lead to from d. */
  ghost function Walk(v: Vol, d: nat, cs: seq<Text>): Option<nat>
    decreases |cs|
  {
    if cs == [] then Some(d)
    else match Lookup(v, d, Pack(cs[0]))
      case Some(DirNode(h)) => Walk(v, if h == 0 then v.root else h, cs[1..])
      case _ => None
  }

  /** What the last of some components names. */
  ghost function NodeAt(v: Vol, cs: seq<Text>): Option<Node>
    requires cs != []
  {
    match Walk(v, v.root, cs[..|cs| - 1])
    case Some(d) => Lookup(v, d, Pack(cs[|cs| - 1]))
    case None => None
  }

  /** The components lead to the name t of directory d. */
  ghost predicate Hits(v: Vol, cs: seq<Text>, d: nat, t: Name) {
    cs != [] && Walk(v, v.root, cs[..|cs| - 1]) == Some(d) && Pack(cs[|cs| - 1]) == t
  }

  // ----- directories by name -----

  lemma NamedBy(v: Vol, d: nat, n: Name) returns (j: nat, i: nat)
    requires Wf(v) && Lookup(v, d, n).Some?
    ensures Named(v, d, n, j, i) && Lookup(v, d, n) == Some(NodeOf(v, At(v, d, j, i)))
  {
    hide NodeOf, At, Wf, InDir, Visible;
    j, i :| Named(v, d, n, j, i);
    assert NamesOk(v) by { WfNames(v); }
    LookupNamed(v, d, n, j, i);
  }

  lemma LookupDirIn(v: Vol, d: nat, n: Name, h: nat)
    requires Wf(v) && n[0] != 46 && Lookup(v, d, n) == Some(DirNode(h))
    ensures h in v.lay.dirs && h != v.root && h != 0 && d in v.lay.dirs
  {
    hide NodeOf, At, EndsOk, NamesOk, DotsOk, SlotsOk, BlocksOk, ChainsOk, InDir, Visible, IsDirEntry, First, Lookup,
      Named;
    var j, i := NamedBy(v, d, n);
    NodeCases(v, At(v, d, j, i));
    DirSlot(v, d, n, j, i);
    NamedIn(v, d, n, j, i);
    ZeroIsNoHead(v);
  }

  /** A directory has one entry. */
  lemma DirOnce(v: Vol, d: nat, n: Name, d': nat, n': Name, h: nat)
    requires Wf(v) && n[0] != 46 && n'[0] != 46 && Lookup(v, d, n) == Some(DirNode(h))
    requires Lookup(v, d', n') == Some(DirNode(h))
    ensures d == d' && n == n'
  {
    hide NodeOf, At, Wf, InDir, Visible, IsDirEntry, First, Lookup;
    var j, i := NamedBy(v, d, n);
    var j', i' := NamedBy(v, d', n');
    NodeCases(v, At(v, d, j, i));
    NodeCases(v, At(v, d', j', i'));
    DirSlot(v, d, n, j, i);
    DirSlot(v, d', n', j', i');
  }

  lemma FileOrNone(v: Vol, d: nat, t: Name)
    requires Wf(v)
    ensures DirNamed(v, d, t) <==> Lookup(v, d, t).Some? && Lookup(v, d, t).value.DirNode?
    ensures Absent(v, d, t) <==> Lookup(v, d, t) == None
  {
    hide NodeOf, At, Wf, InDir, Visible, IsDirEntry, First, Lookup, Named;
    if Lookup(v, d, t).Some? {
      var j, i := NamedBy(v, d, t);
      NodeCases(v, At(v, d, j, i));
      OneNamed(v, d, t, j, i);
    } else if !Absent(v, d, t) {
      var j: nat, i: nat :| Named(v, d, t, j, i);
      assert NamesOk(v) by { WfNames(v); }
      LookupNamed(v, d, t, j, i);
    }
  }

  // ----- how walks change -----

  lemma PackProper(c: Text)
    requires CompOk(c)
    ensures Proper(Pack(c)) && (Marked(Pack(c)) <==> c[0] == DELETED)
  {
    hide Pack;
    PackFirst(c);
  }

  /** The same directories under the same names. */
  ghost predicate SameDirs(v: Vol, u: Vol) {
    forall d: nat, n: Name, h: nat :: d in v.lay.dirs && Proper(n) ==>
      (Lookup(u, d, n) == Some(DirNode(h)) <==> Lookup(v, d, n) == Some(DirNode(h)))
  }

  lemma {:induction false} WalkSame(v: Vol, u: Vol, d: nat, cs: seq<Text>)
    requires Wf(v) && SameDirs(v, u) && u.root == v.root && d in v.lay.dirs && CompsOk(cs)
    ensures Walk(u, d, cs) == Walk(v, d, cs)
    decreases |cs|
  {
    hide Lookup, Wf, Pack, Proper;
    if cs != [] {
      var n := Pack(cs[0]);
      PackProper(cs[0]);
      if Lookup(v, d, n).Some? && Lookup(v, d, n).value.DirNode? {
        var h := Lookup(v, d, n).value.dir;
        assert n[0] != 46 by { assert Proper(n); ProperNotDot(n); }
        LookupDirIn(v, d, n, h);
        assert Lookup(u, d, n) == Some(DirNode(h));
        WalkSame(v, u, h, cs[1..]);
      } else {
        var o := Lookup(u, d, n);
        assert o.Some? && o.value.DirNode? ==> o == Some(DirNode(o.value.dir));
      }
    }
  }

  lemma ProperNotDot(n: Name)
    requires Proper(n)
    ensures n[0] != 46
  {}

  lemma WalkIn(v: Vol, d: nat, cs: seq<Text>)
    requires Wf(v) && d in v.lay.dirs && CompsOk(cs)
    ensures Walk(v, d, cs).Some? ==> Walk(v, d, cs).value in v.lay.dirs
    decreases |cs|
  {
    hide Lookup, Wf, Pack;
    if cs != [] {
      var n := Pack(cs[0]);
      PackProper(cs[0]);
      if Lookup(v, d, n).Some? && Lookup(v, d, n).value.DirNode? {
        LookupDirIn(v, d, n, Lookup(v, d, n).value.dir);
        WalkIn(v, Lookup(v, d, n).value.dir, cs[1..]);
      }
    }
  }

  /** Setting one name to something that is not a directory, from something that was not one. */
  lemma PutKeepsDirs(v: Vol, u: Vol, d: nat, t: Name, node: Option<Node>)
    requires TreeSet(v, u, d, t, node) && u.lay.dirs.Keys == v.lay.dirs.Keys
    requires node == None || node.value.FileNode?
    requires Lookup(v, d, t) == None || Lookup(v, d, t).value.FileNode?
    ensures SameDirs(v, u)
  {
    hide Lookup, Proper;
  }

  /** u has the nodes of v, except that every path to the name t of d now leads to `node`. */
  ghost predicate PathSet(v: Vol, u: Vol, d: nat, t: Name, node: Option<Node>) {
    forall cs: seq<Text> :: cs != [] && CompsOk(cs) ==>
      NodeAt(u, cs) == if Hits(v, cs, d, t) then node else NodeAt(v, cs)
  }

  lemma FilePathSet(v: Vol, u: Vol, d: nat, t: Name, node: Option<Node>)
    requires Wf(v) && TreeSet(v, u, d, t, node) && SameDirs(v, u) && u.root == v.root
    requires u.lay.dirs.Keys == v.lay.dirs.Keys
    ensures PathSet(v, u, d, t, node)
  {
    hide Lookup, Wf, Pack, SameDirs, NodeAt, Hits;
    forall cs: seq<Text> | cs != [] && CompsOk(cs)
      ensures NodeAt(u, cs) == if Hits(v, cs, d, t) then node else NodeAt(v, cs)
    {
      FileNodeSet(v, u, d, t, node, cs);
    }
  }

  lemma FileNodeSet(v: Vol, u: Vol, d: nat, t: Name, node: Option<Node>, cs: seq<Text>)
    requires Wf(v) && TreeSet(v, u, d, t, node) && SameDirs(v, u) && u.root == v.root
    requires u.lay.dirs.Keys == v.lay.dirs.Keys
    requires cs != [] && CompsOk(cs)
    ensures NodeAt(u, cs) == if Hits(v, cs, d, t) then node else NodeAt(v, cs)
  {
    hide Lookup, Wf, Pack, SameDirs, Walk;
    assert v.root in v.lay.dirs by { WfRoot(v); }
    WalkSame(v, u, v.root, cs[..|cs| - 1]);
    WalkIn(v, v.root, cs[..|cs| - 1]);
  }

  lemma WfRoot(v: Vol)
    requires Wf(v)
    ensures v.root in v.lay.dirs
  {}

  // ----- a directory more or less -----

  lemma WalkSplit(v: Vol, d: nat, c: Text, cs: seq<Text>)
    ensures Walk(v, d, [c] + cs) == match Lookup(v, d, Pack(c))
              case Some(DirNode(h)) => Walk(v, if h == 0 then v.root else h, cs)
              case _ => None
  {
    assert ([c] + cs)[1..] == cs;
    hide Lookup, Pack;
  }

  /** From d0, the components end exactly with the name t of d. */
  ghost predicate Ends(v: Vol, d0: nat, cs: seq<Text>, d: nat, t: Name) {
    cs != [] && Walk(v, d0, cs[..|cs| - 1]) == Some(d) && Pack(cs[|cs| - 1]) == t
  }

  lemma EndsStep(v: Vol, d0: nat, cs: seq<Text>, d: nat, t: Name)
    requires |cs| > 1
    ensures Ends(v, d0, cs, d, t) <==>
            match Lookup(v, d0, Pack(cs[0]))
            case Some(DirNode(h)) => Ends(v, if h == 0 then v.root else h, cs[1..], d, t)
            case _ => false
  {
    hide Lookup, Pack;
    var rest := cs[1..];
    assert cs[..|cs| - 1] == [cs[0]] + rest[..|rest| - 1];
    WalkSplit(v, d0, cs[0], rest[..|rest| - 1]);
    assert cs[|cs| - 1] == rest[|rest| - 1];
  }

  /** u has an empty directory dc under the name t of d, where v has nothing. */
  ghost predicate OneMoreDir(v: Vol, u: Vol, d: nat, t: Name, dc: nat) {
    && Wf(v) && Wf(u) && u.root == v.root && dc != 0 && dc != v.root && d in v.lay.dirs && Proper(t)
    && dc !in v.lay.dirs
    && Lookup(v, d, t) == None && Lookup(u, d, t) == Some(DirNode(dc))
    && (forall n: Name :: Proper(n) ==> Lookup(u, dc, n) == None)
    && (forall d': nat, n: Name :: d' in v.lay.dirs && Proper(n) && !(d' == d && n == t) ==>
       Lookup(u, d', n) == Lookup(v, d', n))
  }

  /** A walk in u is a walk in v, unless it ends at the extra directory. */
  lemma {:induction false} WalkOneMore(v: Vol, u: Vol, d0: nat, cs: seq<Text>, d: nat, t: Name, dc: nat)
    requires OneMoreDir(v, u, d, t, dc) && d0 in v.lay.dirs && CompsOk(cs)
    ensures Walk(u, d0, cs) == if Ends(v, d0, cs, d, t) then Some(dc) else Walk(v, d0, cs)
    decreases |cs|
  {
    hide Lookup, Wf, Pack, Proper, Ends;
    if cs == [] {
      assert !Ends(v, d0, cs, d, t) by { EndsEmpty(v, d0, d, t); }
    } else {
      var n, rest := Pack(cs[0]), cs[1..];
      PackProper(cs[0]);
      ProperNotDot(n);
      assert cs == [cs[0]] + rest;
      WalkSplit(v, d0, cs[0], rest);
      WalkSplit(u, d0, cs[0], rest);
      if |cs| == 1 { EndsOne(v, d0, cs, d, t); } else { EndsStep(v, d0, cs, d, t); }
      if d0 == d && n == t {
        if rest != [] {
          PackProper(rest[0]);
          assert rest == [rest[0]] + rest[1..];
          WalkSplit(u, dc, rest[0], rest[1..]);
        }
      } else if Lookup(v, d0, n).Some? && Lookup(v, d0, n).value.DirNode? {
        var h := Lookup(v, d0, n).value.dir;
        LookupDirIn(v, d0, n, h);
        WalkOneMore(v, u, h, rest, d, t, dc);
        if rest == [] { EndsEmpty(v, h, d, t); }
      }
    }
  }

  lemma EndsEmpty(v: Vol, d0: nat, d: nat, t: Name)
    ensures !Ends(v, d0, [], d, t)
  {}

  lemma EndsOne(v: Vol, d0: nat, cs: seq<Text>, d: nat, t: Name)
    requires |cs| == 1
    ensures Ends(v, d0, cs, d, t) <==> d0 == d && Pack(cs[0]) == t
  {
    hide Lookup, Pack;
    assert cs[..0] == [];
  }

  /** What the extra directory means for nodes by path. */
  lemma NodesOneMore(v: Vol, u: Vol, cs: seq<Text>, d: nat, t: Name, dc: nat)
    requires OneMoreDir(v, u, d, t, dc) && CompsOk(cs) && cs != []
    ensures NodeAt(u, cs) == if Hits(v, cs, d, t) then Some(DirNode(dc)) else NodeAt(v, cs)
  {
    assert v.root in v.lay.dirs;
    hide Lookup, Wf, Pack, Proper, Ends;
    var init, last := cs[..|cs| - 1], cs[|cs| - 1];
    WalkOneMore(v, u, v.root, init, d, t, dc);
    WalkIn(v, v.root, init);
    PackProper(last);
    if Ends(v, v.root, init, d, t) { BeyondEnd(v, init, d, t); }
  }

  lemma BeyondEnd(v: Vol, cs: seq<Text>, d: nat, t: Name)
    requires Ends(v, v.root, cs, d, t) && Lookup(v, d, t) == None
    ensures Walk(v, v.root, cs) == None
  {
    hide Lookup, Pack;
    WalkSnoc(v, v.root, cs[..|cs| - 1], cs[|cs| - 1]);
    assert cs == cs[..|cs| - 1] + [cs[|cs| - 1]];
  }

  lemma {:induction false} WalkSnoc(v: Vol, d0: nat, cs: seq<Text>, c: Text)
    ensures Walk(v, d0, cs + [c]) == match Walk(v, d0, cs) case Some(d) => Walk(v, d, [c]) case None => None
    decreases |cs|
  {
    hide Lookup, Pack;
    if cs == [] {
      assert cs + [c] == [c];
    } else {
      var rest := cs[1..];
      assert cs + [c] == [cs[0]] + (rest + [c]);
      WalkSplit(v, d0, cs[0], rest + [c]);
      assert cs == [cs[0]] + rest;
      WalkSplit(v, d0, cs[0], rest);
      if Lookup(v, d0, Pack(cs[0])).Some? && Lookup(v, d0, Pack(cs[0])).value.DirNode? {
        var h := Lookup(v, d0, Pack(cs[0])).value.dir;
        WalkSnoc(v, if h == 0 then v.root else h, rest, c);
      }
    }
  }

  /** Taking the extra directory away again. */
  lemma NodesOneLess(v: Vol, u: Vol, cs: seq<Text>, d: nat, t: Name, dc: nat)
    requires OneMoreDir(u, v, d, t, dc) && CompsOk(cs) && cs != []
    ensures NodeAt(u, cs) == if Hits(v, cs, d, t) then None else NodeAt(v, cs)
  {
    NodesOneMore(u, v, cs, d, t, dc);
    assert u.root in u.lay.dirs;
    hide Lookup, Wf, Pack, Proper, Ends;
    var init := cs[..|cs| - 1];
    WalkOneMore(u, v, u.root, init, d, t, dc);
    if Ends(u, u.root, init, d, t) { BeyondEnd(u, init, d, t); }
  }

  // ----- resolve_dir -----

  lemma {:induction false} CompsText(path: Text, p: nat)
    requires p <= |path| && IsText(path)
    ensures CompsOk(Comps(path, p))
    decreases |path| - p
  {
    var q := SkipSlashes(path, p);
    if q < |path| { CompsText(path, CompEnd(path, q, 15)); }
  }

  lemma {:induction false} CompsSkip(path: Text, p: nat)
    requires p <= |path|
    ensures Comps(path, SkipSlashes(path, p)) == Comps(path, p)
    decreases |path| - p
  {
    if p < |path| && path[p] == SLASH { CompsSkip(path, p + 1); }
  }

  method SkipOver(path: Text, from: nat) returns (p: nat)
    requires from <= |path|
    ensures p == SkipSlashes(path, from)
  {
    p := from;
    while p < |path| && path[p] == SLASH
      invariant from <= p <= |path| && SkipSlashes(path, p) == SkipSlashes(path, from)
    {
      p := p + 1;
    }
  }

  method TakeComp(path: Text, from: nat) returns (comp: Text, p: nat)
    requires from <= |path|
    ensures p == CompEnd(path, from, 15) && comp == path[from..p]
  {
    comp, p := [], from;
    var n := 0;
    while p < |path| && path[p] != SLASH && n < 15
      invariant from <= p <= |path| && n == p - from <= 15 && comp == path[from..p]
      invariant CompEnd(path, p, 15 - n) == CompEnd(path, from, 15)
    {
      comp := comp + [path[p]];
      n := n + 1;
      p := p + 1;
    }
  }

  /** One component of a walk: the directory behind the name, or failure. */
  method Enter(fs: Volume, cluster: nat, comp: Text) returns (ok: bool, next: nat)
    requires Wf(fs.V()) && cluster in fs.lay.dirs && CompOk(comp)
    ensures ok ==> next in fs.lay.dirs && next != 0 && Lookup(fs.V(), cluster, Pack(comp)) == Some(DirNode(next))
    ensures !ok ==> !(Lookup(fs.V(), cluster, Pack(comp)).Some? && Lookup(fs.V(), cluster, Pack(comp)).value.DirNode?)
  {
    hide NodeOf, At, EndsOk, NamesOk, DotsOk, SlotsOk, BlocksOk, ChainsOk, InDir, Visible, IsDirEntry, First, Lookup,
      Named, Pack;
    var t := To83(comp);
    var root := fs.root;
    PackProper(comp);
    var found, e, c, i;
    ghost var j;
    found, e, c, i, j := fs.DirFind(cluster, t);
    next := 0;
    if !found {
      LookupAbsent(fs.V(), cluster, t);
      return false, 0;
    }
    LookupNamed(fs.V(), cluster, t, j, i);
    NodeCases(fs.V(), e);
    if !IsDirEntry(e) { return false, 0; }
    next := First(e);
    LookupDirIn(fs.V(), cluster, t, next);
    if next == 0 { next := root; }
    ok := true;
  }

  /** resolve_dir: the directory the components of the path lead to from the root. */
  method ResolveDir(fs: Volume, path: Text) returns (ok: bool, cluster: nat)
    requires Wf(fs.V()) && IsText(path)
    ensures Walk(fs.V(), fs.root, Comps(path, 0)) == if ok then Some(cluster) else None
    ensures ok ==> cluster in fs.lay.dirs
  {
    hide Lookup, Pack, Walk, Comps, CompEnd, SkipSlashes, EndsOk, NamesOk, DotsOk, SlotsOk, BlocksOk, ChainsOk, CompOk,
      IsText;
    cluster := fs.root;
    var p := SkipOver(path, 0);
    CompsSkip(path, 0);
    while p < |path|
      invariant p <= |path| && (p < |path| ==> path[p] != SLASH) && cluster in fs.lay.dirs
      invariant Walk(fs.V(), fs.root, Comps(path, 0)) == Walk(fs.V(), cluster, Comps(path, p))
      decreases |path| - p
    {
      var comp, e := TakeComp(path, p);
      WalkStep(fs.V(), cluster, path, p, e);
      var found, next := Enter(fs, cluster, comp);
      p := SkipOver(path, e);
      if !found { return false, 0; }
      cluster := next;
    }
    CompsEnd(path);
    WalkEnd(fs.V(), cluster);
    ok := true;
  }

  lemma WalkEnd(v: Vol, d: nat)
    ensures Walk(v, d, []) == Some(d)
  {}

  lemma WalkStep(v: Vol, d: nat, path: Text, p: nat, e: nat)
    requires p < |path| && path[p] != SLASH && e == CompEnd(path, p, 15) && IsText(path)
    ensures p < e <= |path| && CompOk(path[p..e])
    ensures Walk(v, d, Comps(path, p)) == match Lookup(v, d, Pack(path[p..e]))
              case Some(DirNode(h)) => Walk(v, if h == 0 then v.root else h, Comps(path, SkipSlashes(path, e)))
              case _ => None
  {
    assert SkipSlashes(path, p) == p;
    assert e > p;
    assert Comps(path, p) == [path[p..e]] + Comps(path, e);
    hide Lookup, Pack, Walk, Comps;
    CompsSkip(path, e);
    WalkSplit(v, d, path[p..e], Comps(path, e));
  }

  /** The directory and packed name a path stands for. */
  ghost function Target(v: Vol, path: Text): Option<(nat, Name)> {
    match Split(path)
    case None => None
    case Some((parent, leaf)) =>
      match Walk(v, v.root, Comps(parent, 0))
      case None => None
      case Some(d) => Some((d, Pack(leaf)))
  }

  lemma {:induction false} SameWalk(v: Vol, d: nat, cs: seq<Text>, ds: seq<Text>)
    requires SameNames(cs, ds)
    ensures Walk(v, d, cs) == Walk(v, d, ds)
    decreases |cs|
  {
    hide Lookup, Pack, SameLetters;
    if cs != [] {
      CaseBlind(cs[0], ds[0]);
      match Lookup(v, d, Pack(cs[0]))
      case Some(DirNode(h)) => SameWalk(v, if h == 0 then v.root else h, cs[1..], ds[1..]);
      case _ =>
    }
  }

  /** Paths that differ in case only stand for the same name in the same directory. */
  lemma SamePath(v: Vol, p: Text, q: Text)
    requires SameLetters(p, q)
    ensures Target(v, p) == Target(v, q)
  {
    hide Pack, SameLetters, Split, Comps, Walk;
    SameSplit(p, q);
    if Split(p).Some? {
      SameComps(Split(p).value.0, Split(q).value.0, 0);
      SameWalk(v, v.root, Comps(Split(p).value.0, 0), Comps(Split(q).value.0, 0));
      CaseBlind(Split(p).value.1, Split(q).value.1);
    }
  }

  lemma SplitText(path: Text)
    requires IsText(path)
    ensures Split(path).Some? ==> IsText(Split(path).value.0) && CompOk(Split(path).value.1)
  {
    hide StripLen, AfterSlash;
  }

  /** split_last, resolve_dir and to_83 together. */
  method Locate(fs: Volume, path: Text) returns (r: Option<(nat, Name)>)
    requires Wf(fs.V()) && IsText(path)
    ensures r == Target(fs.V(), path)
    ensures r.Some? ==> r.value.0 in fs.lay.dirs && Proper(r.value.1)
  {
    hide Wf, Lookup, Pack, Split, Comps, Proper, Walk;
    var parts := SplitLast(path);
    if parts == None { return None; }
    SplitText(path);
    var ok, d := ResolveDir(fs, parts.value.0);
    if !ok { return None; }
    var t := To83(parts.value.1);
    PackProper(parts.value.1);
    r := Some((d, t));
  }

  // ----- the operations by path -----

  ghost function PathNode(v: Vol, path: Text): Option<Node> {
    match Target(v, path)
    case Some((d, t)) => Lookup(v, d, t)
    case None => None
  }

  /** Every path to the name t of d leads to `node`, every other path to what it led to. */
  ghost predicate PathsSet(v: Vol, u: Vol, d: nat, t: Name, node: Option<Node>) {
    forall q: Text :: IsText(q) ==> PathNode(u, q) == if Target(v, q) == Some((d, t)) then node else PathNode(v, q)
  }

  ghost predicate PathsSame(v: Vol, u: Vol) {
    forall q: Text :: IsText(q) ==> PathNode(u, q) == PathNode(v, q)
  }

  lemma PathComps(v: Vol, q: Text) returns (cs: seq<Text>)
    requires IsText(q) && Split(q).Some?
    ensures cs == Comps(Split(q).value.0, 0) + [Split(q).value.1] && CompsOk(cs)
    ensures PathNode(v, q) == NodeAt(v, cs)
    ensures forall d: nat, t: Name :: Target(v, q) == Some((d, t)) <==> Hits(v, cs, d, t)
  {
    hide Lookup, Pack, Walk, Comps, Split, CompOk;
    SplitText(q);
    var init, leaf := Comps(Split(q).value.0, 0), Split(q).value.1;
    CompsText(Split(q).value.0, 0);
    cs := init + [leaf];
    assert cs[..|cs| - 1] == init;
  }

  lemma PathsFollow(v: Vol, u: Vol, d: nat, t: Name, node: Option<Node>)
    requires PathSet(v, u, d, t, node)
    ensures PathsSet(v, u, d, t, node)
  {
    hide NodeAt, Hits, CompsOk, PathNode, Target, IsText;
    forall q: Text | IsText(q) ensures PathNode(u, q) == if Target(v, q) == Some((d, t)) then node else PathNode(v, q) {
      if Split(q).Some? {
        var cs := PathComps(v, q);
        var cs' := PathComps(u, q);
        assert NodeAt(u, cs) == if Hits(v, cs, d, t) then node else NodeAt(v, cs);
      } else {
        NoTarget(v, q);
        NoTarget(u, q);
      }
    }
  }

  lemma NoTarget(v: Vol, q: Text)
    requires Split(q) == None
    ensures Target(v, q) == None && PathNode(v, q) == None
  {}

  lemma PathsFollowSame(v: Vol, u: Vol)
    requires Wf(v) && TreeSame(v, u) && u.root == v.root
    ensures PathsSame(v, u)
  {
    hide Lookup, Pack, Walk, Comps, Split, Wf, IsText, CompsOk;
    assert SameDirs(v, u);
    WfRoot(v);
    hide SameDirs;
    forall q: Text | IsText(q) ensures PathNode(u, q) == PathNode(v, q) {
      if Split(q).Some? {
        SplitText(q);
        CompsText(Split(q).value.0, 0);
        WalkSame(v, u, v.root, Comps(Split(q).value.0, 0));
        WalkIn(v, v.root, Comps(Split(q).value.0, 0));
      }
    }
  }

  /** canboot_fat32_read_path: the bytes of the file that the path names. */
  method ReadPath(fs: Volume, path: Text, cap: nat) returns (ok: bool, out: seq<nat>, size: nat)
    requires Wf(fs.V()) && IsText(path)
    ensures ok <==> PathNode(fs.V(), path).Some? && PathNode(fs.V(), path).value.FileNode?
    ensures ok ==> size == |PathNode(fs.V(), path).value.bytes|
    ensures ok ==> out == PathNode(fs.V(), path).value.bytes[..Least(size, cap)]
  {
    hide Wf, Lookup, Target;
    var at := Locate(fs, path);
    if at == None { return false, [], 0; }
    ok, out, size := ReadFile(fs, at.value.0, at.value.1, cap);
  }

  /** What storing a file or directory under the name t of d does to all paths. */
  ghost predicate PathsPut(v: Vol, u: Vol, d: nat, t: Name, node: Node) {
    if Marked(t) then PathsSame(v, u) else PathsSet(v, u, d, t, Some(node))
  }

  lemma WritePaths(v: Vol, u: Vol, d: nat, t: Name, data: seq<nat>)
    requires Wf(v) && TreePut(v, u, d, t, FileNode(data)) && u.root == v.root && u.lay.dirs.Keys == v.lay.dirs.Keys
    requires !DirNamed(v, d, t)
    ensures PathsPut(v, u, d, t, FileNode(data))
  {
    hide Wf, Lookup, DirNamed, PathsSame, PathsSet, PathSet, SameDirs, TreeSet, TreeSame;
    FileOrNone(v, d, t);
    if Marked(t) {
      PathsFollowSame(v, u);
    } else {
      PutKeepsDirs(v, u, d, t, Some(FileNode(data)));
      FilePathSet(v, u, d, t, Some(FileNode(data)));
      PathsFollow(v, u, d, t, Some(FileNode(data)));
    }
  }

  /** A directory that a walk reached is in every layout that makes the disk well formed. */
  lemma {:induction false} WalkOnDisk(v: Vol, u: Vol, d0: nat, cs: seq<Text>)
    requires Wf(v) && Wf(u) && DirsOnDisk(v, u) && d0 in v.lay.dirs && d0 in u.lay.dirs && CompsOk(cs)
    requires Walk(v, d0, cs).Some?
    ensures Walk(v, d0, cs).value in u.lay.dirs
    decreases |cs|
  {
    hide Lookup, Wf, Pack, DirsOnDisk;
    if cs != [] {
      var n := Pack(cs[0]);
      PackProper(cs[0]);
      ProperNotDot(n);
      var h := Lookup(v, d0, n).value.dir;
      LookupDirIn(v, d0, n, h);
      EntryOnDisk(v, u, d0, n, h);
      WalkOnDisk(v, u, h, cs[1..]);
    }
  }

  lemma EntryOnDisk(v: Vol, u: Vol, d: nat, n: Name, h: nat)
    requires Wf(v) && Wf(u) && DirsOnDisk(v, u) && d in v.lay.dirs && d in u.lay.dirs && n[0] != 46
    requires Lookup(v, d, n) == Some(DirNode(h))
    ensures h in u.lay.dirs
  {
    hide NodeOf, At, EndsOk, NamesOk, DotsOk, SlotsOk, BlocksOk, ChainsOk, InDir, Visible, IsDirEntry, First, Lookup,
      DirsOnDisk;
    var j, i := NamedBy(v, d, n);
    NodeCases(v, At(v, d, j, i));
    SlotOnDisk(v, u, d);
    DirSlot(u, d, n, j, i);
  }

  /** No layout at all makes the volume well formed. */
  ghost predicate Ruined(u: Vol) { forall lay: Layout :: !Wf(u.(lay := lay)) }

  lemma BrokenRuins(v: Vol, u: Vol, d: nat, cs: seq<Text>)
    requires Wf(v) && Broken(u, d) && DirsOnDisk(v, u) && CompsOk(cs) && Walk(v, v.root, cs) == Some(d)
    ensures Ruined(u)
  {
    hide Lookup, Wf, Walk, CompsOk;
    WfRoot(v);
    forall lay: Layout ensures !Wf(u.(lay := lay)) {
      var z := u.(lay := lay);
      assert DirsOnDisk(v, z);
      hide DirsOnDisk;
      if Wf(z) {
        WfRoot(z);
        WalkOnDisk(v, z, v.root, cs);
      }
    }
  }

  /** What a write refused for lack of clusters leaves: every path as it was, or a volume beyond repair. */
  ghost predicate PathRefused(v: Vol, u: Vol, d: nat, t: Name, lost: nat, ext: nat, n: nat) {
    && |FreeSet(u.fat)| == (if n > MAX_CHAIN then |FreeSet(v.fat)| + |ChainOf(v, lost)| - ext else 0)
    && if Survives(v, d, t, lost, n) then Wf(u) && PathsSame(v, u) else Ruined(u) && Overrun(v, u, lost, n)
  }

  lemma RefusedPaths(v: Vol, u: Vol, path: Text, d: nat, t: Name, lost: nat, ext: nat, n: nat)
    requires Wf(v) && u.root == v.root && IsText(path) && Target(v, path) == Some((d, t))
    requires Refused(v, u, d, t, lost, ext, n)
    ensures PathRefused(v, u, d, t, lost, ext, n)
  {
    hide Wf, Lookup, Pack, Walk, Comps, Split, CompOk, IsText, TreeSame, Broken, DirsOnDisk, Overrun, FreeSet, ChainOf,
      Ruined,
      PathsSame;
    if Survives(v, d, t, lost, n) {
      PathsFollowSame(v, u);
    } else {
      SplitText(path);
      var parent := Split(path).value.0;
      CompsText(parent, 0);
      BrokenRuins(v, u, d, Comps(parent, 0));
    }
  }

  /** canboot_fat32_write_path. */
  method WritePath(fs: Volume, path: Text, data: seq<nat>) returns (ok: bool, ghost lost: nat, ghost ext: nat)
    requires Wf(fs.V()) && IsText(path)
    modifies fs
    ensures Target(old(fs.V()), path) == None ==> !ok && fs.V() == old(fs.V())
    ensures Target(old(fs.V()), path).Some? ==> fs.bpc > 0
    ensures Target(old(fs.V()), path).Some? && fs.bpc > 0 ==>
              var (d, t) := Target(old(fs.V()), path).value;
              var n, free := ClustersFor(|data|, fs.bpc), |old(FreeSet(fs.fat))|;
              && Cost(old(fs.V()), d, t, lost, ext)
              && (ok <==> !DirNamed(old(fs.V()), d, t) && ext <= free && n <= MAX_CHAIN
                          && n <= free + |ChainOf(old(fs.V()), lost)| - ext)
              && (ok ==> PathsPut(old(fs.V()), fs.V(), d, t, FileNode(data)))
              && (ok ==> |FreeSet(fs.fat)| == free + |ChainOf(old(fs.V()), lost)| - ext - n)
              && (!ok ==> if DirNamed(old(fs.V()), d, t) || ext > free then fs.V() == old(fs.V())
                          else PathRefused(old(fs.V()), fs.V(), d, t, lost, ext, n))
    ensures ok ==> Wf(fs.V()) && fs.bpc > 0
  {
    hide Wf, Lookup, Target, TreePut, PathsPut, DirNamed, Cost, ChainOf, ClustersFor, FreeSet, Proper, Refused,
      PathRefused;
    ghost var v := fs.V();
    var at := Locate(fs, path);
    lost, ext := 0, 0;
    if at == None { return false, 0, 0; }
    ghost var d, t := at.value.0, at.value.1;
    ok, lost, ext := WriteFile(fs, at.value.0, at.value.1, data);
    if ok {
      WritePaths(v, fs.V(), d, t, data);
    } else if !DirNamed(v, d, t) && ext <= |FreeSet(v.fat)| {
      RefusedPaths(v, fs.V(), path, d, t, lost, ext, ClustersFor(|data|, fs.bpc));
    }
  }

  lemma MarkedAbsent(v: Vol, d: nat, t: Name)
    requires Marked(t)
    ensures Lookup(v, d, t) == None
  {
    hide At, InDir;
    forall j: nat, i: nat ensures !Named(v, d, t, j, i) { MarkedUnnamed(v, d, t, j, i); }
    LookupAbsent(v, d, t);
  }

  /** Reading a path just written gives the data back, as much as the buffer takes, exactly if the name does not
      start with the deletion mark. */
  method WriteThenRead(fs: Volume, path: Text, data: seq<nat>, cap: nat) returns (ok: bool, found: bool, out: seq<nat>)
    requires Wf(fs.V()) && IsText(path)
    modifies fs
    ensures ok ==> Wf(fs.V()) && Target(old(fs.V()), path).Some?
    ensures ok ==> (found <==> !Marked(Target(old(fs.V()), path).value.1))
    ensures ok && found ==> out == data[..Least(|data|, cap)]
  {
    hide Wf, Lookup, Target, DirNamed, Cost, ChainOf, ClustersFor, FreeSet, Marked, PathRefused;
    ghost var lost, ext;
    ghost var v := fs.V();
    ok, lost, ext := WritePath(fs, path, data);
    found, out := false, [];
    if !ok { return; }
    ghost var at := Target(v, path).value;
    if Marked(at.1) { MarkedAbsent(v, at.0, at.1); }
    assert PathNode(fs.V(), path) == if Marked(at.1) then None else Some(FileNode(data));
    var size;
    found, out, size := ReadPath(fs, path, cap);
  }

  /** canboot_fat32_unlink_path. */
  method UnlinkPath(fs: Volume, path: Text) returns (ok: bool, ghost first: nat)
    requires Wf(fs.V()) && IsText(path)
    modifies fs
    ensures ok <==> PathNode(old(fs.V()), path).Some? && PathNode(old(fs.V()), path).value.FileNode?
    ensures ok ==> Wf(fs.V()) && FreeSet(fs.fat) == old(FreeSet(fs.fat)) + Members(ChainOf(old(fs.V()), first))
    ensures ok ==> var (d, t) := Target(old(fs.V()), path).value;
                   StartsAt(old(fs.V()), d, t, first) && PathsSet(old(fs.V()), fs.V(), d, t, None)
    ensures !ok ==> fs.V() == old(fs.V())
  {
    hide Wf, Lookup, Target, PathsSet, DirNamed, Absent, ChainOf, FreeSet, Members, Proper, TreeSet, IsDirEntry, At,
      Named, StartsAt;
    ghost var v := fs.V();
    var at := Locate(fs, path);
    first := 0;
    if at == None { return false, 0; }
    ghost var d, t := at.value.0, at.value.1;
    ProperNotDot(at.value.1);
    FileOrNone(v, d, t);
    FileNamed(v, d, t);
    ok, first := Unlink(fs, at.value.0, at.value.1);
    if ok { UnlinkPaths(v, fs.V(), d, t); }
  }

  lemma FileNamed(v: Vol, d: nat, t: Name)
    requires Wf(v)
    ensures (exists j: nat, i: nat :: Named(v, d, t, j, i) && !IsDirEntry(At(v, d, j, i))) <==>
            !Absent(v, d, t) && !DirNamed(v, d, t)
  {
    hide Wf, Named, IsDirEntry, At;
    if j: nat, i: nat :| Named(v, d, t, j, i) { OneNamed(v, d, t, j, i); }
  }

  lemma UnlinkPaths(v: Vol, u: Vol, d: nat, t: Name)
    requires Wf(v) && TreeSet(v, u, d, t, None) && u.root == v.root && u.lay.dirs.Keys == v.lay.dirs.Keys
    requires !DirNamed(v, d, t)
    ensures PathsSet(v, u, d, t, None)
  {
    hide Wf, Lookup, DirNamed, PathsSet, PathSet, SameDirs, TreeSet;
    FileOrNone(v, d, t);
    PutKeepsDirs(v, u, d, t, None);
    FilePathSet(v, u, d, t, None);
    PathsFollow(v, u, d, t, None);
  }

  lemma MkdirPaths(v: Vol, u: Vol, d: nat, t: Name, dc: nat)
    requires Wf(v) && d in v.lay.dirs && Made(v, u, d, t, dc) && Absent(v, d, t) && Proper(t) && u.root == v.root
    ensures PathsPut(v, u, d, t, DirNode(dc))
  {
    hide Wf, Lookup, PathsSet, PathsSame, PathSet, Absent, Hits, NodeAt, CompsOk;
    FileOrNone(v, d, t);
    if Marked(t) {
      PathsFollowSame(v, u);
    } else {
      assert dc != 0 && dc != v.root by { WfRoot(v); DirsNonzero(u); assert dc in u.lay.dirs; }
      assert OneMoreDir(v, u, d, t, dc);
      hide OneMoreDir, Made, TreePut;
      assert PathSet(v, u, d, t, Some(DirNode(dc))) by { PathSetOneMore(v, u, d, t, dc); }
      PathsFollow(v, u, d, t, Some(DirNode(dc)));
    }
  }

  lemma DirsNonzero(u: Vol)
    requires Wf(u)
    ensures 0 !in u.lay.dirs
  {
    ZeroIsNoHead(u);
  }

  lemma PathSetOneMore(v: Vol, u: Vol, d: nat, t: Name, dc: nat)
    requires OneMoreDir(v, u, d, t, dc)
    ensures PathSet(v, u, d, t, Some(DirNode(dc)))
  {
    hide OneMoreDir, Hits, NodeAt, CompsOk;
    forall cs: seq<Text> | cs != [] && CompsOk(cs)
      ensures NodeAt(u, cs) == if Hits(v, cs, d, t) then Some(DirNode(dc)) else NodeAt(v, cs)
    {
      NodesOneMore(v, u, cs, d, t, dc);
    }
  }

  lemma PathSetOneLess(v: Vol, u: Vol, d: nat, t: Name, dc: nat)
    requires OneMoreDir(u, v, d, t, dc)
    ensures PathSet(v, u, d, t, None)
  {
    hide OneMoreDir, Hits, NodeAt, CompsOk;
    forall cs: seq<Text> | cs != [] && CompsOk(cs)
      ensures NodeAt(u, cs) == if Hits(v, cs, d, t) then None else NodeAt(v, cs)
    {
      NodesOneLess(v, u, cs, d, t, dc);
    }
  }

  /** canboot_fat32_mkdir. */
  method MkdirPath(fs: Volume, path: Text) returns (ok: bool, ghost dc: nat)
    requires Wf(fs.V()) && IsText(path)
    modifies fs
    ensures Wf(fs.V())
    ensures ok <==> Target(old(fs.V()), path).Some? && PathNode(old(fs.V()), path) == None
                      && MkdirRoom(old(fs.V()), Target(old(fs.V()), path).value.0)
    ensures ok ==> var (d, t) := Target(old(fs.V()), path).value;
                   && PathsPut(old(fs.V()), fs.V(), d, t, DirNode(dc)) && Made(old(fs.V()), fs.V(), d, t, dc)
                   && Hollow(fs.V(), dc)
                   && |FreeSet(fs.fat)| == |old(FreeSet(fs.fat))| - (if FreeSlot(old(fs.V()), d) then 1 else 2)
    ensures !ok ==> PathsSame(old(fs.V()), fs.V())
    ensures !ok ==> if Target(old(fs.V()), path).Some? && PathNode(old(fs.V()), path) == None then FreeSet(fs.fat) == {}
                    else fs.V() == old(fs.V())
  {
    hide Wf, Lookup, Target, PathsPut, PathsSame, Absent, Made, MkdirRoom, Proper, TreeSame, FreeSet, FreeSlot, Hollow,
      Entered;
    ghost var v := fs.V();
    var at := Locate(fs, path);
    dc := 0;
    if at == None {
      SamePaths(v);
      return false, 0;
    }
    ghost var d, t := at.value.0, at.value.1;
    FileOrNone(v, d, t);
    ok, dc := Mkdir(fs, at.value.0, at.value.1);
    if ok { MkdirPaths(v, fs.V(), d, t, dc); } else { PathsFollowSame(v, fs.V()); }
  }

  lemma SamePaths(v: Vol)
    ensures PathsSame(v, v)
  {}

  lemma RmdirPaths(v: Vol, u: Vol, d: nat, t: Name, dc: nat)
    requires Wf(v) && Wf(u) && d in v.lay.dirs && Proper(t) && u.root == v.root && TreeSet(v, u, d, t, None)
    requires Lookup(v, d, t) == Some(DirNode(dc)) && dc in v.lay.dirs && u.lay.dirs == v.lay.dirs - {dc}
    requires forall n: Name :: n[0] != 46 ==> Lookup(v, dc, n) == None
    ensures PathsSet(v, u, d, t, None)
  {
    hide Wf, Lookup, PathsSet, PathSet;
    ProperNotDot(t);
    LookupDirIn(v, d, t, dc);
    assert d != dc;
    assert OneMoreDir(u, v, d, t, dc);
    hide OneMoreDir, TreeSet;
    PathSetOneLess(v, u, d, t, dc);
    PathsFollow(v, u, d, t, None);
  }

  /** canboot_fat32_rmdir. */
  method RmdirPath(fs: Volume, path: Text) returns (ok: bool, ghost dc: nat)
    requires Wf(fs.V()) && IsText(path)
    modifies fs
    ensures ok ==> PathNode(old(fs.V()), path) == Some(DirNode(dc)) && Hollow(old(fs.V()), dc)
    ensures var p := PathNode(old(fs.V()), path); p.Some? && p.value.DirNode? && Hollow(old(fs.V()), p.value.dir) ==> ok
    ensures ok ==> Wf(fs.V()) && dc in old(fs.lay).dirs
    ensures ok ==> FreeSet(fs.fat) == old(FreeSet(fs.fat)) + Members(old(fs.lay).dirs[dc])
    ensures ok ==> var (d, t) := Target(old(fs.V()), path).value; PathsSet(old(fs.V()), fs.V(), d, t, None)
    ensures !ok ==> fs.V() == old(fs.V())
  {
    hide Wf, Lookup, Target, PathsSet, Hollow, FreeSet, Members, Proper, TreeSet, IsDirEntry, At, Named, First;
    ghost var v := fs.V();
    var at := Locate(fs, path);
    dc := 0;
    if at == None { return false, 0; }
    ghost var d, t := at.value.0, at.value.1;
    ProperNotDot(at.value.1);
    HollowNamed(v, d, t);
    ok, dc := Rmdir(fs, at.value.0, at.value.1);
    if ok { RmdirPaths(v, fs.V(), d, t, dc); }
  }

  lemma HollowNamed(v: Vol, d: nat, t: Name)
    requires Wf(v)
    ensures (Lookup(v, d, t).Some? && Lookup(v, d, t).value.DirNode? && Hollow(v, Lookup(v, d, t).value.dir)) <==>
              exists j: nat, i: nat ::
                Named(v, d, t, j, i) && IsDirEntry(At(v, d, j, i)) && Hollow(v, First(At(v, d, j, i)))
  {
    hide Wf, Named, IsDirEntry, At, Hollow, First, Lookup, NodeOf;
    FileOrNone(v, d, t);
    if Lookup(v, d, t).Some? {
      var j, i := NamedBy(v, d, t);
      OneNamed(v, d, t, j, i);
      NodeCases(v, At(v, d, j, i));
    }
  }

  lemma WfParts(v: Vol)
    requires Wf(v)
    ensures Shaped(v) && EndsOk(v)
  {}

  /** A directory just made can be removed, exactly if its name does not start with the deletion mark. */
  method MakeThenRemove(fs: Volume, path: Text) returns (made: bool, removed: bool)
    requires Wf(fs.V()) && IsText(path)
    modifies fs
    ensures Wf(fs.V()) && (made ==> Target(old(fs.V()), path).Some?)
    ensures made ==> (removed <==> !Marked(Target(old(fs.V()), path).value.1))
    ensures removed ==> made && PathNode(fs.V(), path) == None
  {
    hide Wf, Lookup, Target, Made, MkdirRoom, FreeSet, FreeSlot, Hollow, Marked, PathsSame;
    ghost var v := fs.V();
    ghost var dc, gone;
    removed := false;
    made, dc := MkdirPath(fs, path);
    if !made { return; }
    ghost var at := Target(v, path).value;
    if Marked(at.1) { assert PathsSame(v, fs.V()); SamePathNode(v, fs.V(), path); }
    assert PathNode(fs.V(), path) == if Marked(at.1) then None else Some(DirNode(dc));
    removed, gone := RmdirPath(fs, path);
  }

  lemma SamePathNode(v: Vol, u: Vol, q: Text)
    requires PathsSame(v, u) && IsText(q)
    ensures PathNode(u, q) == PathNode(v, q)
  {}
}
