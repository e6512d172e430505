/** rename by path: what every path leads to afterwards, files and whole directories alike. */
module FatMoved {
  import opened Basics
  import opened FatChain
  import opened FatVolume
  import opened FatTree
  import opened FatDir
  import opened FatOps
  import opened FatRename
  import opened FatName
  import opened FatPath
  import opened FatReach

  /** What components name from a node. */
  ghost function Below(v: Vol, node: Option<Node>, cs: seq<Text>): Option<Node>
    decreases |cs|
  {
    if cs == [] then node
    else match node
      case Some(DirNode(h)) => Below(v, Lookup(v, Child(v, h), Pack(cs[0])), cs[1..])
      case _ => None
  }

  /** The components left when a walk from d0 first comes to the name t of directory d. */
  ghost function Through(v: Vol, d0: nat, cs: seq<Text>, d: nat, t: Name): Option<seq<Text>>
    decreases |cs|
  {
    if cs == [] then None
    else if d0 == d && Pack(cs[0]) == t then Some(cs[1..])
    else match Lookup(v, d0, Pack(cs[0]))
      case Some(DirNode(h)) => Through(v, Child(v, h), cs[1..], d, t)
      case _ => None
  }

  /** What components name, from directory d0, after the name ot of od became the name nt of nd: nothing through
      the old name; through the new name what followed the old one, unless the new name is hidden; and what they
      named before otherwise. */
  ghost function MovedFrom(v: Vol, d0: nat, cs: seq<Text>, od: nat, ot: Name, nd: nat, nt: Name): Option<Node> {
    match Through(v, d0, cs, od, ot)
    case Some(_) => None
    case None =>
      match Through(v, d0, cs, nd, nt)
      case Some(rest) => if Marked(nt) then None else Below(v, Lookup(v, od, ot), rest)
      case None => Below(v, Some(DirNode(d0)), cs)
  }

  lemma NoneBelow(v: Vol, cs: seq<Text>)
    ensures Below(v, None, cs) == None
  {}

  lemma FileBelow(v: Vol, u: Vol, bytes: seq<nat>, cs: seq<Text>)
    ensures Below(u, Some(FileNode(bytes)), cs) == Below(v, Some(FileNode(bytes)), cs)
  {}

  lemma ChildBelow(v: Vol, h: nat, cs: seq<Text>)
    requires cs != [] && v.root != 0
    ensures Below(v, Some(DirNode(h)), cs) == Below(v, Some(DirNode(Child(v, h))), cs)
  {
    hide Lookup, Pack;
  }

  lemma {:induction false} BelowWalk(v: Vol, d0: nat, cs: seq<Text>)
    requires cs != [] && d0 != 0 && v.root != 0
    ensures Below(v, Some(DirNode(d0)), cs) ==
            match Walk(v, d0, cs[..|cs| - 1]) case Some(d) => Lookup(v, d, Pack(cs[|cs| - 1])) case None => None
    decreases |cs|
  {
    hide Lookup, Pack;
    var first, rest, node := cs[0], cs[1..], Lookup(v, d0, Pack(cs[0]));
    if |cs| == 1 {
      assert cs[..0] == [];
    } else {
      assert cs[..|cs| - 1] == [first] + rest[..|rest| - 1];
      WalkSplit(v, d0, first, rest[..|rest| - 1]);
      assert cs[|cs| - 1] == rest[|rest| - 1];
      if node.Some? && node.value.DirNode? {
        ChildBelow(v, node.value.dir, rest);
        BelowWalk(v, Child(v, node.value.dir), rest);
      }
    }
  }

  lemma BelowRoot(v: Vol, cs: seq<Text>)
    requires Wf(v) && cs != []
    ensures Below(v, Some(DirNode(v.root)), cs) == NodeAt(v, cs)
  {
    hide Lookup, Pack, Wf, Below, Walk;
    WfRoot(v);
    DirsNonzero(v);
    BelowWalk(v, v.root, cs);
  }

  // ----- no way back -----

  /** A walk that avoids h and goes somewhere does so up to its last step. */
  lemma {:induction false} AvoidsInit(v: Vol, d: nat, cs: seq<Text>, c: Text, h: nat)
    requires Avoids(v, d, cs + [c], h) && Walk(v, d, cs + [c]).Some?
    ensures Avoids(v, d, cs, h) && Walk(v, d, cs + [c]) != Some(h)
    decreases |cs|
  {
    hide Lookup, Pack;
    if cs == [] {
      assert (cs + [c])[1..] == [];
    } else {
      assert (cs + [c])[1..] == cs[1..] + [c];
      AvoidsInit(v, Child(v, Lookup(v, d, Pack(cs[0])).value.dir), cs[1..], c, h);
    }
  }

  lemma {:induction false} AvoidsSnoc(v: Vol, d: nat, cs: seq<Text>, c: Text, h: nat)
    requires Avoids(v, d, cs, h) && Walk(v, d, cs).Some? && Walk(v, d, cs + [c]).Some?
    requires Walk(v, d, cs + [c]) != Some(h)
    ensures Avoids(v, d, cs + [c], h)
    decreases |cs|
  {
    hide Lookup, Pack;
    if cs == [] {
      assert (cs + [c])[1..] == [];
    } else {
      assert (cs + [c])[1..] == cs[1..] + [c];
      AvoidsSnoc(v, Child(v, Lookup(v, d, Pack(cs[0])).value.dir), cs[1..], c, h);
    }
  }

  /** The last step of a walk. */
  lemma LastStep(v: Vol, d: nat, cs: seq<Text>, g: nat) returns (init: seq<Text>, c: Text, p: nat)
    requires Wf(v) && d in v.lay.dirs && cs != [] && CompsOk(cs) && Walk(v, d, cs) == Some(g)
    ensures cs == init + [c] && CompsOk(init) && CompOk(c) && Walk(v, d, init) == Some(p) && p in v.lay.dirs
    ensures Lookup(v, p, Pack(c)) == Some(DirNode(g)) && g != v.root && Proper(Pack(c))
  {
    hide Lookup, Pack, Wf, Proper;
    init, c := cs[..|cs| - 1], cs[|cs| - 1];
    assert cs == init + [c];
    WalkSnoc(v, d, init, c);
    p := Walk(v, d, init).value;
    WalkIn(v, d, init);
    PackProper(c);
    ProperNotDot(Pack(c));
    assert [c][1..] == [];
    LookupDirIn(v, p, Pack(c), Lookup(v, p, Pack(c)).value.dir);
  }

  /** From h no walk leads to a directory that can be reached without h: a directory has one entry. */
  lemma {:induction false} NoReturn(v: Vol, p: seq<Text>, g: nat, h: nat, q: seq<Text>)
    requires Wf(v) && CompsOk(p) && CompsOk(q) && h in v.lay.dirs
    requires Walk(v, v.root, p) == Some(g) && Avoids(v, v.root, p, h)
    ensures Walk(v, h, q) != Some(g)
    decreases |p|
  {
    hide Lookup, Pack, Wf, Walk, Avoids, Proper;
    WfRoot(v);
    if Walk(v, h, q) == Some(g) {
      if p == [] {
        WalkEnd(v, v.root);
        AvoidsStart(v, v.root, p, h);
        WalkEnd(v, h);
        var init, c, b := LastStep(v, h, q, g);
      } else {
        var init, c, a := LastStep(v, v.root, p, g);
        AvoidsInit(v, v.root, init, c, h);
        WalkEnd(v, h);
        var init', c', b := LastStep(v, h, q, g);
        ProperNotDot(Pack(c));
        ProperNotDot(Pack(c'));
        DirOnce(v, a, Pack(c), b, Pack(c'), g);
        NoReturn(v, init, a, h, init');
      }
    }
  }

  lemma AvoidsStart(v: Vol, d: nat, cs: seq<Text>, h: nat)
    requires Avoids(v, d, cs, h)
    ensures d != h
  {}

  // ----- the moved tree -----

  /** v after a successful rename is u; the old name can be reached. */
  ghost predicate Renames(v: Vol, u: Vol, od: nat, ot: Name, nd: nat, nt: Name) {
    && Wf(v) && Wf(u) && u.root == v.root && u.lay.dirs.Keys == v.lay.dirs.Keys && Proper(ot) && Proper(nt)
    && Renamed(v, u, od, ot, nd, nt) && Lookup(v, nd, nt) == None && Reaches(v, od)
  }

  /** The directory that moves; 0 if a file moves. */
  ghost function Mover(v: Vol, od: nat, ot: Name): nat {
    match Lookup(v, od, ot) case Some(DirNode(h)) => h case _ => 0
  }

  lemma StepSame(v: Vol, u: Vol, od: nat, ot: Name, nd: nat, nt: Name, d: nat, n: Name)
    requires Renames(v, u, od, ot, nd, nt) && d in v.lay.dirs && Proper(n) && (d, n) != (od, ot) && (d, n) != (nd, nt)
    ensures Lookup(u, d, n) == Lookup(v, d, n)
  {
    hide Lookup, Wf, Reaches;
    assert n != DOTDOT;
  }

  /** Inside the moved directory nothing changes. */
  lemma {:induction false} InsideSame(v: Vol, u: Vol, od: nat, ot: Name, nd: nat, nt: Name, h: nat, q: seq<Text>,
          g: nat,
          rest: seq<Text>)
    requires Renames(v, u, od, ot, nd, nt) && h in v.lay.dirs && CompsOk(q) && CompsOk(rest)
    requires Walk(v, h, q) == Some(g) && ReachesAround(v, od, h) && ReachesAround(v, nd, h)
    ensures Below(u, Some(DirNode(g)), rest) == Below(v, Some(DirNode(g)), rest)
    decreases |rest|
  {
    hide Lookup, Wf, Pack, Proper, Renames, Walk, Avoids;
    if rest != [] {
      assert Wf(v) && u.root == v.root by { RenamesParts(v, u, od, ot, nd, nt); }
      WalkIn(v, h, q);
      DirsNonzero(v);
      NotInside(v, od, h, q, g);
      NotInside(v, nd, h, q, g);
      var n := Pack(rest[0]);
      PackProper(rest[0]);
      ProperNotDot(n);
      StepSame(v, u, od, ot, nd, nt, g, n);
      var node := Lookup(v, g, n);
      if node.Some? && node.value.DirNode? {
        LookupDirIn(v, g, n, node.value.dir);
        WalkSnoc(v, h, q, rest[0]);
        OneComp(v, g, rest[0], node.value.dir);
        InsideSame(v, u, od, ot, nd, nt, h, q + [rest[0]], node.value.dir, rest[1..]);
      }
    }
  }

  lemma NotInside(v: Vol, d: nat, h: nat, q: seq<Text>, g: nat)
    requires Wf(v) && h in v.lay.dirs && CompsOk(q) && Walk(v, h, q) == Some(g) && ReachesAround(v, d, h)
    ensures g != d
  {
    hide Wf, Walk, Avoids, CompsOk;
    var p: seq<Text> :| CompsOk(p) && Walk(v, v.root, p) == Some(d) && Avoids(v, v.root, p, h);
    NoReturn(v, p, d, h, q);
  }

  lemma RenamesParts(v: Vol, u: Vol, od: nat, ot: Name, nd: nat, nt: Name)
    requires Renames(v, u, od, ot, nd, nt)
    ensures Wf(v) && Wf(u) && u.root == v.root && u.lay.dirs.Keys == v.lay.dirs.Keys && Proper(ot) && Proper(nt)
    ensures Lookup(v, od, ot).Some? && Lookup(u, od, ot) == None && Lookup(v, nd, nt) == None && Reaches(v, od)
    ensures Lookup(u, nd, nt) == if Marked(nt) then None else Lookup(v, od, ot)
  {
    hide Lookup, Wf, Reaches;
  }

  /** A walk that does not avoid h passes it. */
  lemma {:induction false} PassesBy(v: Vol, d: nat, cs: seq<Text>, h: nat) returns (p: seq<Text>)
    requires CompsOk(cs) && Walk(v, d, cs).Some? && !Avoids(v, d, cs, h)
    ensures CompsOk(p) && Walk(v, d, p) == Some(h)
    decreases |cs|
  {
    hide Lookup, Pack;
    if d == h {
      p := [];
    } else {
      var g := Lookup(v, d, Pack(cs[0])).value.dir;
      var q := PassesBy(v, Child(v, g), cs[1..], h);
      p := [cs[0]] + q;
      WalkSplit(v, d, cs[0], q);
    }
  }

  /** The parent of h can be reached without h. */
  lemma ParentAround(v: Vol, od: nat, ot: Name, h: nat)
    requires Wf(v) && Proper(ot) && Lookup(v, od, ot) == Some(DirNode(h)) && Reaches(v, od)
    ensures ReachesAround(v, od, h)
  {
    hide Lookup, Pack, Wf, Walk, Avoids, Proper;
    var cs: seq<Text> :| CompsOk(cs) && Walk(v, v.root, cs) == Some(od);
    if !Avoids(v, v.root, cs, h) {
      WfRoot(v);
      ProperNotDot(ot);
      LookupDirIn(v, od, ot, h);
      var p := PassesBy(v, v.root, cs, h);
      var pre, c, g := FirstVisit(v, v.root, p, h);
      PackProper(c);
      ProperNotDot(Pack(c));
      DirOnce(v, g, Pack(c), od, ot, h);
    }
  }

  /** Behind the new name. */
  lemma NewNameBelow(v: Vol, u: Vol, od: nat, ot: Name, nd: nat, nt: Name, rest: seq<Text>)
    requires Renames(v, u, od, ot, nd, nt) && CompsOk(rest) && ReachesAround(v, nd, Mover(v, od, ot))
    ensures Below(u, Lookup(u, nd, nt), rest) == if Marked(nt) then None else Below(v, Lookup(v, od, ot), rest)
  {
    hide Lookup, Pack, Wf, Walk, Avoids, Proper, Below, Renames, ReachesAround, Reaches, CompsOk, Marked;
    RenamesParts(v, u, od, ot, nd, nt);
    NoneBelow(u, rest);
    if Lookup(v, od, ot).value.FileNode? {
      FileBelow(v, u, Lookup(v, od, ot).value.bytes, rest);
    } else {
      var h := Lookup(v, od, ot).value.dir;
      ProperNotDot(ot);
      LookupDirIn(v, od, ot, h);
      ParentAround(v, od, ot, h);
      WalkEnd(v, h);
      NoComps();
      InsideSame(v, u, od, ot, nd, nt, h, [], h, rest);
    }
  }

  lemma NoComps()
    ensures CompsOk([])
  {}

  lemma AroundStep(v: Vol, d: nat, c: Text, g: nat, h: nat)
    requires Wf(v) && CompOk(c) && ReachesAround(v, d, h) && Lookup(v, d, Pack(c)) == Some(DirNode(g)) && g != h
    requires g != 0
    ensures ReachesAround(v, g, h)
  {
    hide Lookup, Pack, Wf, Walk, Avoids;
    var p: seq<Text> :| CompsOk(p) && Walk(v, v.root, p) == Some(d) && Avoids(v, v.root, p, h);
    WalkSnoc(v, v.root, p, c);
    OneComp(v, d, c, g);
    AvoidsSnoc(v, v.root, p, c, h);
    assert CompsOk(p + [c]);
  }

  /** Only the old name leads to the moved directory. */
  lemma OnlyEntry(v: Vol, od: nat, ot: Name, d: nat, n: Name, g: nat)
    requires Wf(v) && Proper(ot) && Proper(n) && Lookup(v, d, n) == Some(DirNode(g)) && Lookup(v, od, ot).Some?
    requires (d, n) != (od, ot)
    ensures g != Mover(v, od, ot) && g != 0 && g in v.lay.dirs
  {
    hide Lookup, Wf;
    LookupDirIn(v, d, n, g);
    if g == Mover(v, od, ot) { DirOnce(v, d, n, od, ot, g); }
  }

  /** One component of a path, away from both names. */
  lemma MovedStep(v: Vol, d0: nat, cs: seq<Text>, od: nat, ot: Name, nd: nat, nt: Name)
    requires cs != [] && d0 != 0 && (d0, Pack(cs[0])) != (od, ot) && (d0, Pack(cs[0])) != (nd, nt)
    ensures var node := Lookup(v, d0, Pack(cs[0]));
            node.Some? && node.value.DirNode? && node.value.dir != 0 ==>
              MovedFrom(v, d0, cs, od, ot, nd, nt) == MovedFrom(v, node.value.dir, cs[1..], od, ot, nd, nt)
    ensures var node := Lookup(v, d0, Pack(cs[0]));
            !(node.Some? && node.value.DirNode?) ==> MovedFrom(v, d0, cs, od, ot, nd, nt) == Below(v, node, cs[1..])
  {
    hide Lookup, Pack;
  }

  /** Every path from a directory outside the moved one. */
  lemma {:induction false} OutsideMoved(v: Vol, u: Vol, od: nat, ot: Name, nd: nat, nt: Name, d0: nat, cs: seq<Text>)
    requires Renames(v, u, od, ot, nd, nt) && d0 in v.lay.dirs && CompsOk(cs) && ReachesAround(v, d0, Mover(v, od, ot))
    ensures Below(u, Some(DirNode(d0)), cs) == MovedFrom(v, d0, cs, od, ot, nd, nt)
    decreases |cs|
  {
    hide Lookup, Wf, Pack, Proper, Renames, ReachesAround, Reaches, Marked, Mover;
    if cs != [] {
      RenamesParts(v, u, od, ot, nd, nt);
      DirsNonzero(v);
      var n := Pack(cs[0]);
      PackProper(cs[0]);
      if (d0, n) == (od, ot) {
        NoneBelow(u, cs[1..]);
      } else if (d0, n) == (nd, nt) {
        NewNameBelow(v, u, od, ot, nd, nt, cs[1..]);
      } else {
        hide MovedFrom;
        MovedStep(v, d0, cs, od, ot, nd, nt);
        StepSame(v, u, od, ot, nd, nt, d0, n);
        var node := Lookup(v, d0, n);
        if node.Some? && node.value.DirNode? {
          var g := node.value.dir;
          OnlyEntry(v, od, ot, d0, n, g);
          AroundStep(v, d0, cs[0], g, Mover(v, od, ot));
          OutsideMoved(v, u, od, ot, nd, nt, g, cs[1..]);
        }
      }
    }
  }

  lemma RootAround(v: Vol, od: nat, ot: Name)
    requires Wf(v) && Proper(ot)
    ensures ReachesAround(v, v.root, Mover(v, od, ot))
  {
    hide Lookup, Wf;
    WfRoot(v);
    DirsNonzero(v);
    var h := Mover(v, od, ot);
    if h != 0 { LookupDirIn(v, od, ot, h); }
    var cs: seq<Text> := [];
    assert CompsOk(cs) && Walk(v, v.root, cs) == Some(v.root) && Avoids(v, v.root, cs, h);
  }

  /** After a rename every list of components names what MovedFrom says. */
  lemma NodesMoved(v: Vol, u: Vol, od: nat, ot: Name, nd: nat, nt: Name, cs: seq<Text>)
    requires Renames(v, u, od, ot, nd, nt) && CompsOk(cs) && cs != []
    ensures NodeAt(u, cs) == MovedFrom(v, v.root, cs, od, ot, nd, nt)
  {
    hide Lookup, Wf, Proper, Renames, ReachesAround, Reaches, MovedFrom, Below, NodeAt, CompsOk, Mover;
    RenamesParts(v, u, od, ot, nd, nt);
    WfRoot(v);
    RootAround(v, od, ot);
    OutsideMoved(v, u, od, ot, nd, nt, v.root, cs);
    BelowRoot(u, cs);
  }

  // ----- the old and the new name -----

  lemma {:induction false} BelowConcat(v: Vol, node: Option<Node>, a: seq<Text>, b: seq<Text>)
    ensures Below(v, node, a + b) == Below(v, Below(v, node, a), b)
    decreases |a|
  {
    hide Lookup, Pack;
    if a == [] {
      assert a + b == b;
    } else if node.Some? && node.value.DirNode? {
      assert (a + b)[1..] == a[1..] + b;
      BelowConcat(v, Lookup(v, Child(v, node.value.dir), Pack(a[0])), a[1..], b);
    } else {
      NoneBelow(v, b);
    }
  }

  /** A list that ends with a name passes it, whatever follows. */
  lemma {:induction false} EndsThrough(v: Vol, d0: nat, cs: seq<Text>, d: nat, t: Name, rest: seq<Text>)
    requires Ends(v, d0, cs, d, t)
    ensures Through(v, d0, cs + rest, d, t).Some?
    ensures !(Lookup(v, d, t).Some? && Lookup(v, d, t).value.DirNode?) ==> Through(v, d0, cs + rest, d, t) == Some(rest)
    decreases |cs|
  {
    hide Lookup, Pack;
    var all := cs + rest;
    assert all[0] == cs[0] && all[1..] == cs[1..] + rest;
    if |cs| == 1 {
      EndsOne(v, d0, cs, d, t);
      assert cs[1..] + rest == rest;
    } else {
      EndsStep(v, d0, cs, d, t);
      EndsThrough(v, Child(v, Lookup(v, d0, Pack(cs[0])).value.dir), cs[1..], d, t, rest);
    }
  }

  /** A list that ends with a name that is not there passes no other name behind it. */
  lemma {:induction false} StopsAt(v: Vol, d0: nat, cs: seq<Text>, d: nat, t: Name, rest: seq<Text>, d': nat, t': Name)
    requires Ends(v, d0, cs, d, t) && Lookup(v, d, t) == None && (d, t) != (d', t')
    ensures Through(v, d0, cs + rest, d', t').Some? <==> Through(v, d0, cs, d', t').Some?
    decreases |cs|
  {
    hide Lookup, Pack;
    var all := cs + rest;
    assert all[0] == cs[0] && all[1..] == cs[1..] + rest;
    if |cs| == 1 {
      EndsOne(v, d0, cs, d, t);
    } else {
      EndsStep(v, d0, cs, d, t);
      StopsAt(v, Child(v, Lookup(v, d0, Pack(cs[0])).value.dir), cs[1..], d, t, rest, d', t');
    }
  }

  /** Nothing is left under the old name. */
  lemma OldNameGone(v: Vol, u: Vol, od: nat, ot: Name, nd: nat, nt: Name, from: seq<Text>, rest: seq<Text>)
    requires Renames(v, u, od, ot, nd, nt) && CompsOk(from) && CompsOk(rest) && Hits(v, from, od, ot)
    ensures NodeAt(u, from + rest) == None
  {
    hide Lookup, Wf, Renames, NodeAt, Walk, Through, CompOk;
    EndsThrough(v, v.root, from, od, ot, rest);
    NodesMoved(v, u, od, ot, nd, nt, from + rest);
  }

  /** The new name leads to everything the old one led to, provided the way to it does not pass the old name. */
  lemma NewNameLeads(v: Vol, u: Vol, od: nat, ot: Name, nd: nat, nt: Name, from: seq<Text>, to: seq<Text>,
          rest: seq<Text>)
    requires Renames(v, u, od, ot, nd, nt) && CompsOk(from) && CompsOk(to) && CompsOk(rest)
    requires Hits(v, from, od, ot) && Hits(v, to, nd, nt) && !Marked(nt)
    ensures NodeAt(u, to + rest) == if Through(v, v.root, to, od, ot).Some? then None else NodeAt(v, from + rest)
  {
    hide Lookup, Wf, Renames, Walk, Through, CompOk, Below, Proper, Reaches;
    RenamesParts(v, u, od, ot, nd, nt);
    assert NodeAt(v, from) == Lookup(v, od, ot);
    hide NodeAt;
    StopsAt(v, v.root, to, nd, nt, rest, od, ot);
    EndsThrough(v, v.root, to, nd, nt, rest);
    NodesMoved(v, u, od, ot, nd, nt, to + rest);
    BelowRoot(v, from + rest);
    BelowRoot(v, from);
    BelowConcat(v, Some(DirNode(v.root)), from, rest);
  }

  // ----- into its own subtree -----

  lemma {:induction false} ThroughAround(v: Vol, od: nat, ot: Name, nd: nat, nt: Name, d0: nat, cs: seq<Text>)
    requires Wf(v) && Proper(ot) && CompsOk(cs) && d0 in v.lay.dirs && Lookup(v, od, ot).Some?
    requires ReachesAround(v, d0, Mover(v, od, ot))
    requires Through(v, d0, cs, od, ot) == None && Through(v, d0, cs, nd, nt).Some?
    ensures ReachesAround(v, nd, Mover(v, od, ot))
    decreases |cs|
  {
    hide Lookup, Wf, Pack, Proper, ReachesAround, Mover;
    var n := Pack(cs[0]);
    PackProper(cs[0]);
    if !(d0 == nd && n == nt) {
      var g := Lookup(v, d0, n).value.dir;
      OnlyEntry(v, od, ot, d0, n, g);
      AroundStep(v, d0, cs[0], g, Mover(v, od, ot));
      ThroughAround(v, od, ot, nd, nt, g, cs[1..]);
    }
  }

  lemma {:induction false} BehindOld(v: Vol, od: nat, ot: Name, nd: nat, nt: Name, d0: nat,
          cs: seq<Text>) returns (q: seq<Text>)
    requires Wf(v) && CompsOk(cs) && (od, ot) != (nd, nt) && Ends(v, d0, cs, nd, nt) && Mover(v, od, ot) != 0
    requires Through(v, d0, cs, od, ot).Some?
    ensures CompsOk(q) && Walk(v, Mover(v, od, ot), q) == Some(nd)
    decreases |cs|
  {
    hide Lookup, Wf, Pack, Walk, CompOk;
    if |cs| == 1 {
      EndsOne(v, d0, cs, nd, nt);
    } else {
      EndsStep(v, d0, cs, nd, nt);
    }
    var rest := cs[1..];
    if d0 == od && Pack(cs[0]) == ot {
      q := rest[..|rest| - 1];
    } else {
      q := BehindOld(v, od, ot, nd, nt, Child(v, Lookup(v, d0, Pack(cs[0])).value.dir), rest);
    }
  }

  /** The way to the new name passes the old one exactly if the new parent cannot be reached without the
      directory that moves. */
  lemma PassesExactly(v: Vol, od: nat, ot: Name, nd: nat, nt: Name, h: nat, to: seq<Text>)
    requires Wf(v) && Proper(ot) && Lookup(v, od, ot) == Some(DirNode(h)) && Lookup(v, nd, nt) == None
    requires CompsOk(to) && Hits(v, to, nd, nt)
    ensures Through(v, v.root, to, od, ot).Some? <==> !ReachesAround(v, nd, h)
  {
    hide Lookup, Wf, Pack, Walk, CompsOk, Through, Avoids, Proper;
    ProperNotDot(ot);
    LookupDirIn(v, od, ot, h);
    WfRoot(v);
    if Through(v, v.root, to, od, ot).Some? {
      var q := BehindOld(v, od, ot, nd, nt, v.root, to);
      if ReachesAround(v, nd, h) { NotInside(v, nd, h, q, nd); }
    } else {
      RootAround(v, od, ot);
      assert to + [] == to;
      EndsThrough(v, v.root, to, nd, nt, []);
      ThroughAround(v, od, ot, nd, nt, v.root, to);
    }
  }

  /** A directory renamed into itself or below disappears with all it holds; every other path stays. */
  lemma CutOff(v: Vol, u: Vol, od: nat, ot: Name, nd: nat, nt: Name, cs: seq<Text>)
    requires Renames(v, u, od, ot, nd, nt) && CompsOk(cs) && cs != [] && !ReachesAround(v, nd, Mover(v, od, ot))
    ensures NodeAt(u, cs) == if Through(v, v.root, cs, od, ot).Some? then None else NodeAt(v, cs)
  {
    hide Lookup, Wf, Renames, Walk, Through, CompsOk, Below, Proper, Reaches, NodeAt, ReachesAround, Mover;
    RenamesParts(v, u, od, ot, nd, nt);
    NodesMoved(v, u, od, ot, nd, nt, cs);
    BelowRoot(v, cs);
    WfRoot(v);
    RootAround(v, od, ot);
    if Through(v, v.root, cs, od, ot) == None && Through(v, v.root, cs, nd, nt).Some? {
      ThroughAround(v, od, ot, nd, nt, v.root, cs);
    }
  }

  // ----- path strings -----

  /** The components of a path that can be split. */
  function Parts(q: Text): seq<Text>
    requires Split(q).Some?
  {
    Comps(Split(q).value.0, 0) + [Split(q).value.1]
  }

  /** Every path leads to what MovedFrom says. */
  ghost predicate PathsMoved(v: Vol, u: Vol, od: nat, ot: Name, nd: nat, nt: Name) {
    forall q: Text :: IsText(q) ==>
      PathNode(u, q) == if Split(q).Some? then MovedFrom(v, v.root, Parts(q), od, ot, nd, nt) else None
  }

  lemma PathMoves(v: Vol, u: Vol, od: nat, ot: Name, nd: nat, nt: Name)
    requires Renames(v, u, od, ot, nd, nt)
    ensures PathsMoved(v, u, od, ot, nd, nt)
  {
    hide Renames, IsText, PathNode, Split, Comps, MovedFrom, NodeAt, CompsOk, Hits, Target;
    forall q: Text | IsText(q)
      ensures PathNode(u, q) == if Split(q).Some? then MovedFrom(v, v.root, Parts(q), od, ot, nd, nt) else None
    {
      if Split(q).Some? {
        var cs := PathComps(u, q);
        NodesMoved(v, u, od, ot, nd, nt, cs);
      } else {
        NoTarget(u, q);
      }
    }
  }

  lemma TargetReached(v: Vol, path: Text, d: nat, t: Name)
    requires IsText(path) && Target(v, path) == Some((d, t))
    ensures Reaches(v, d)
  {
    hide Walk, Comps, Split, CompOk;
    SplitText(path);
    CompsText(Split(path).value.0, 0);
  }

  /** canboot_fat32_rename: succeeds exactly when the old path names something, the new one nothing, and the new
      directory has room; then every path leads to what the move says. */
  method RenamePath(fs: Volume, from: Text, to: Text) returns (ok: bool)
    requires Wf(fs.V()) && IsText(from) && IsText(to)
    modifies fs
    ensures ok <==> PathNode(old(fs.V()), from).Some? && Target(old(fs.V()), to).Some?
                      && PathNode(old(fs.V()), to) == None && HasRoom(old(fs.V()), Target(old(fs.V()), to).value.0)
    ensures ok ==> Wf(fs.V())
    ensures ok ==> var (od, ot) := Target(old(fs.V()), from).value;
                   var (nd, nt) := Target(old(fs.V()), to).value;
                   && Renames(old(fs.V()), fs.V(), od, ot, nd, nt)
                   && PathsMoved(old(fs.V()), fs.V(), od, ot, nd, nt)
                   && |FreeSet(fs.fat)| == |old(FreeSet(fs.fat))| - (if FreeSlot(old(fs.V()), nd) then 0 else 1)
    ensures !ok ==> fs.V() == old(fs.V())
  {
    hide Wf, Lookup, Target, HasRoom, Proper, Renamed, PathsMoved, Named, Reaches, FreeSet, FreeSlot;
    ghost var v := fs.V();
    var src := Locate(fs, from);
    if src == None { return false; }
    ghost var od, ot := src.value.0, src.value.1;
    ProperNotDot(src.value.1);
    FileOrNone(v, od, ot);
    var found, e, oc, oi;
    ghost var oj;
    assert Shaped(fs.V()) && EndsOk(fs.V()) by { WfParts(v); }
    found, e, oc, oi, oj := fs.DirFind(src.value.0, src.value.1);
    assert fs.V() == v;
    if !found { return false; }
    var dst := Locate(fs, to);
    if dst == None { return false; }
    ghost var nd, nt := dst.value.0, dst.value.1;
    FileOrNone(v, nd, nt);
    ok := Rename(fs, src.value.0, src.value.1, dst.value.0, dst.value.1);
    if ok {
      TargetReached(v, from, od, ot);
      assert Renames(v, fs.V(), od, ot, nd, nt);
      PathMoves(v, fs.V(), od, ot, nd, nt);
    }
  }

  /** The two paths of a rename afterwards. */
  lemma RenamedEnds(v: Vol, u: Vol, from: Text, to: Text, od: nat, ot: Name, nd: nat, nt: Name)
    requires Renames(v, u, od, ot, nd, nt) && IsText(from) && IsText(to)
    requires Target(v, from) == Some((od, ot)) && Target(v, to) == Some((nd, nt)) && !Marked(nt)
    ensures PathNode(u, from) == None
    ensures Split(to).Some?
    ensures PathNode(u, to) == if Through(v, v.root, Parts(to), od, ot).Some? then None else PathNode(v, from)
  {
    hide Renames, PathNode, Split, Comps, NodeAt, Hits, Through, IsText, Marked, CompOk, Target;
    assert Split(from).Some? && Split(to).Some? by { TargetSplit(v, from); TargetSplit(v, to); }
    var a := PathComps(v, from);
    var b := PathComps(u, from);
    var c := PathComps(v, to);
    var e := PathComps(u, to);
    OldNameGone(v, u, od, ot, nd, nt, a, []);
    NewNameLeads(v, u, od, ot, nd, nt, a, c, []);
    assert a + [] == a && c + [] == c;
  }

  lemma TargetSplit(v: Vol, q: Text)
    requires Target(v, q).Some?
    ensures Split(q).Some?
  {}
}
