/** rename does not look whether a directory moves into itself: exactly when a moved directory stays
    reachable from the root. */
module FatReach {
  import opened Basics
  import opened FatVolume
  import opened FatOps
  import opened FatRename
  import opened FatName
  import opened FatPath

  function Child(v: Vol, h: nat): nat { if h == 0 then v.root else h }

  /** The walk from d never stands in directory h. */
  ghost predicate Avoids(v: Vol, d: nat, cs: seq<Text>, h: nat)
    decreases |cs|
  {
    && d != h
    && (cs != [] ==> match Lookup(v, d, Pack(cs[0]))
                     case Some(DirNode(g)) => Avoids(v, Child(v, g), cs[1..], h)
                     case _ => true)
  }

  ghost predicate Reaches(v: Vol, h: nat) { exists cs: seq<Text> :: CompsOk(cs) && Walk(v, v.root, cs) == Some(h) }

  ghost predicate ReachesAround(v: Vol, d: nat, h: nat) {
    exists cs: seq<Text> :: CompsOk(cs) && Walk(v, v.root, cs) == Some(d) && Avoids(v, v.root, cs, h)
  }

  /** u is v after directory h moved from name ot of od to name nt of nd. */
  ghost predicate Moved(v: Vol, u: Vol, od: nat, ot: Name, nd: nat, nt: Name, h: nat) {
    && Wf(v) && Wf(u) && u.root == v.root && u.lay.dirs.Keys == v.lay.dirs.Keys && Proper(ot) && Proper(nt)
    && !Marked(nt)
    && Renamed(v, u, od, ot, nd, nt) && Lookup(v, od, ot) == Some(DirNode(h)) && Lookup(v, nd, nt) == None
  }

  /** Away from h both volumes have the same directories. */
  lemma SameAway(v: Vol, u: Vol, od: nat, ot: Name, nd: nat, nt: Name, h: nat, d: nat, n: Name)
    requires Moved(v, u, od, ot, nd, nt, h) && d in v.lay.dirs && Proper(n)
    ensures Lookup(v, d, n).Some? && Lookup(v, d, n).value.DirNode? && Lookup(v, d, n) != Some(DirNode(h)) ==>
            Lookup(u, d, n) == Lookup(v, d, n)
    ensures Lookup(u, d, n).Some? && Lookup(u, d, n).value.DirNode? && Lookup(u, d, n) != Some(DirNode(h)) ==>
            Lookup(v, d, n) == Lookup(u, d, n)
  {
    hide Lookup, Wf;
    assert n != DOTDOT;
  }

  /** A walk that avoids h is the same walk in both. */
  lemma {:induction false} AroundSame(v: Vol, u: Vol, od: nat, ot: Name, nd: nat, nt: Name, h: nat, d: nat,
          cs: seq<Text>)
    requires Moved(v, u, od, ot, nd, nt, h) && d in v.lay.dirs && CompsOk(cs)
    ensures Avoids(v, d, cs, h) && Walk(v, d, cs).Some? ==> Avoids(u, d, cs, h) && Walk(u, d, cs) == Walk(v, d, cs)
    ensures Avoids(u, d, cs, h) && Walk(u, d, cs).Some? ==> Avoids(v, d, cs, h) && Walk(v, d, cs) == Walk(u, d, cs)
    decreases |cs|
  {
    hide Lookup, Wf, Pack, Proper, Moved;
    MovedParts(v, u, od, ot, nd, nt, h);
    if cs != [] {
      var n := Pack(cs[0]);
      PackProper(cs[0]);
      ProperNotDot(n);
      SameAway(v, u, od, ot, nd, nt, h, d, n);
      ProperNotDot(ot);
      LookupDirIn(v, od, ot, h);
      Entered(v, d, cs, h);
      Entered(u, d, cs, h);
      if Lookup(v, d, n).Some? && Lookup(v, d, n).value.DirNode? {
        LookupDirIn(v, d, n, Lookup(v, d, n).value.dir);
        AroundSame(v, u, od, ot, nd, nt, h, Lookup(v, d, n).value.dir, cs[1..]);
      }
      if Lookup(u, d, n).Some? && Lookup(u, d, n).value.DirNode? {
        LookupDirIn(u, d, n, Lookup(u, d, n).value.dir);
        AroundSame(v, u, od, ot, nd, nt, h, Lookup(u, d, n).value.dir, cs[1..]);
      }
    }
  }

  lemma MovedParts(v: Vol, u: Vol, od: nat, ot: Name, nd: nat, nt: Name, h: nat)
    requires Moved(v, u, od, ot, nd, nt, h)
    ensures u.root == v.root && Wf(v) && Wf(u) && u.lay.dirs.Keys == v.lay.dirs.Keys
    ensures Lookup(u, nd, nt) == Some(DirNode(h)) && Proper(nt) && Proper(ot) && Lookup(v, od, ot) == Some(DirNode(h))
  {
    hide Lookup, Wf;
  }

  /** Where a walk that avoids h goes first is not h. */
  lemma Entered(v: Vol, d: nat, cs: seq<Text>, h: nat)
    requires cs != [] && h != 0
    ensures Avoids(v, d, cs, h) ==> Lookup(v, d, Pack(cs[0])) != Some(DirNode(h))
  {
    hide Lookup, Pack;
    assert !Avoids(v, h, cs[1..], h);
  }

  /** A walk to h comes to h for the first time through one of its names. */
  lemma {:induction false} FirstVisit(v: Vol, d: nat, cs: seq<Text>, h: nat) returns (pre: seq<Text>, c: Text, g: nat)
    requires Wf(v) && d in v.lay.dirs && CompsOk(cs) && Walk(v, d, cs) == Some(h) && d != h && h != 0
    ensures CompsOk(pre) && CompOk(c) && Walk(v, d, pre) == Some(g) && Avoids(v, d, pre, h)
    ensures Lookup(v, g, Pack(c)) == Some(DirNode(h))
    decreases |cs|
  {
    hide Lookup, Wf, Pack, Proper;
    var n := Pack(cs[0]);
    PackProper(cs[0]);
    ProperNotDot(n);
    var next := Lookup(v, d, n).value.dir;
    LookupDirIn(v, d, n, next);
    if next == h {
      pre, c, g := [], cs[0], d;
    } else {
      var p;
      p, c, g := FirstVisit(v, next, cs[1..], h);
      pre := [cs[0]] + p;
      WalkSplit(v, d, cs[0], p);
      assert pre[1..] == p;
    }
  }

  /** A directory that rename moves stays reachable exactly if its new parent can be reached without it;
      moved into its own subtree, it is cut off. */
  lemma StaysReachable(v: Vol, u: Vol, od: nat, ot: Name, nd: nat, leaf: Text, h: nat)
    requires CompOk(leaf) && Moved(v, u, od, ot, nd, Pack(leaf), h)
    ensures Reaches(u, h) <==> ReachesAround(v, nd, h)
  {
    hide Lookup, Wf, Pack, Proper, Moved, Walk, Avoids;
    var nt := Pack(leaf);
    MovedParts(v, u, od, ot, nd, nt, h);
    ProperNotDot(ot);
    ProperNotDot(nt);
    LookupDirIn(v, od, ot, h);
    WfRoot(v);
    if cs: seq<Text> :| CompsOk(cs) && Walk(v, v.root, cs) == Some(nd) && Avoids(v, v.root, cs, h) {
      AroundSame(v, u, od, ot, nd, nt, h, v.root, cs);
      WalkSnoc(u, u.root, cs, leaf);
      OneComp(u, nd, leaf, h);
      assert CompsOk(cs + [leaf]);
    }
    if cs: seq<Text> :| CompsOk(cs) && Walk(u, u.root, cs) == Some(h) {
      var pre, c, g := FirstVisit(u, u.root, cs, h);
      PackProper(c);
      ProperNotDot(Pack(c));
      DirOnce(u, g, Pack(c), nd, nt, h);
      AroundSame(v, u, od, ot, nd, nt, h, v.root, pre);
    }
  }

  /** A walk that ends in h does not avoid it. */
  lemma {:induction false} EndNotAvoided(v: Vol, d: nat, cs: seq<Text>, h: nat)
    requires Walk(v, d, cs) == Some(h)
    ensures !Avoids(v, d, cs, h)
    decreases |cs|
  {
    hide Lookup, Pack;
    if cs != [] { EndNotAvoided(v, Child(v, Lookup(v, d, Pack(cs[0])).value.dir), cs[1..], h); }
  }

  /** A directory renamed to a name inside itself cannot be reached any more. */
  lemma IntoItself(v: Vol, u: Vol, od: nat, ot: Name, leaf: Text, h: nat)
    requires CompOk(leaf) && Moved(v, u, od, ot, h, Pack(leaf), h)
    ensures !Reaches(u, h)
  {
    hide Lookup, Wf, Pack, Proper, Moved, Walk, Avoids;
    StaysReachable(v, u, od, ot, h, leaf, h);
    forall cs: seq<Text> | CompsOk(cs) && Walk(v, v.root, cs) == Some(h) ensures !Avoids(v, v.root, cs, h) {
      EndNotAvoided(v, v.root, cs, h);
    }
  }

  lemma OneComp(u: Vol, d: nat, c: Text, h: nat)
    requires Lookup(u, d, Pack(c)) == Some(DirNode(h)) && h != 0
    ensures Walk(u, d, [c]) == Some(h)
  {
    hide Lookup, Pack;
    assert [c][1..] == [];
  }
}
