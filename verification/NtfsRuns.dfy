/** NTFS mapping pairs: decoding run lists and reading a byte range through them. */
module NtfsRuns {
  import opened Basics
  import opened Bytes
  import Cyclic

  const W64: nat := 0x1_0000_0000_0000_0000
  const HALF: nat := 0x8000_0000_0000_0000
  const SCRATCH: nat := 16384
  const CLUSTERS: nat := 0x8000_0000_0000
  const MAX_CLUSTER: nat := 65536

  type Octets = seq<nat>

  predicate AreBytes(s: Octets) { forall k :: 0 <= k < |s| ==> s[k] < 256 }

  // ----- signed little-endian numbers -----

  /** Two's complement of |s| bytes, lowest first. */
  function Signed(s: Octets): int {
    if s == [] then 0 else if s[|s| - 1] >= 128 then Num(s) - Pow256(|s|) else Num(s)
  }

  lemma {:induction false} NumBound(s: Octets)
    requires AreBytes(s)
    ensures Num(s) < Pow256(|s|)
  {
    if s != [] { NumBound(s[1..]); }
  }

  lemma {:induction false} NumTop(s: Octets)
    requires s != [] && AreBytes(s)
    ensures Num(s) == Num(s[..|s| - 1]) + Pow256(|s| - 1) * s[|s| - 1]
  {
    if |s| == 1 {
      assert s[1..] == [] && s[..0] == [];
    } else {
      NumTop(s[1..]);
      assert s[1..][..|s| - 2] == s[..|s| - 1][1..];
      TopStep(Num(s[..|s| - 1][1..]), Pow256(|s| - 2), s[|s| - 1], s[0]);
    }
  }

  lemma TopStep(rest: nat, p: nat, top: nat, low: nat)
    ensures low + 256 * (rest + p * top) == low + 256 * rest + (256 * p) * top
  {}

  lemma {:induction false} PowMono(m: nat, n: nat)
    requires m <= n
    ensures Pow256(m) <= Pow256(n)
  {
    if m < n { PowMono(m, n - 1); }
  }

  /** Shifting in bytes from the top gives the number. */
  lemma ShiftIn(s: Octets, i: nat)
    requires i < |s|
    ensures Num(s[i..]) == 256 * Num(s[i + 1..]) + s[i]
  {
    assert s[i..][1..] == s[i + 1..];
  }

  /** The value sread gives an n-byte field: bytes beyond the eighth are shifted out of the word. */
  function Field(s: Octets): int { Signed(if |s| > 8 then s[..8] else s) }

  lemma {:induction false} NumConcat(a: Octets, b: Octets)
    ensures Num(a + b) == Num(a) + Pow256(|a|) * Num(b)
  {
    if a == [] {
      assert a + b == b;
    } else {
      NumConcat(a[1..], b);
      assert (a + b)[1..] == a[1..] + b;
      TopStep(Num(a[1..]), Pow256(|a| - 1), Num(b), a[0]);
    }
  }

  lemma ModStep(x: nat, b: nat)
    ensures (x % W64 * 256 + b) % W64 == (256 * x + b) % W64
  {
    var q, r := x / W64, x % W64;
    assert 256 * x + b == (r * 256 + b) + W64 * (256 * q);
    Cyclic.AddMultiple(r * 256 + b, W64, 256 * q);
  }

  /** In a 64-bit word only the first eight bytes are left. */
  lemma LowEight(s: Octets)
    requires AreBytes(s)
    ensures Num(s) % W64 == Num(if |s| > 8 then s[..8] else s)
  {
    Pow8();
    var low := if |s| > 8 then s[..8] else s;
    NumBound(low);
    PowMono(|low|, 8);
    if |s| > 8 {
      assert s == s[..8] + s[8..];
      NumConcat(s[..8], s[8..]);
      Cyclic.AddMultiple(Num(low), W64, Num(s[8..]));
    }
    Cyclic.DivUnique(Num(low), W64, 0, Num(low));
  }

  /** sread, on a 64-bit word: the value of a field of any length, sign-extended. */
  method SRead(p: Octets, n: nat) returns (r: int)
    requires n <= |p| && AreBytes(p)
    ensures r == Field(p[..n])
  {
    ghost var s := p[..n];
    ghost var low := if n > 8 then s[..8] else s;
    assert AreBytes(s) && AreBytes(low);
    Pow8();
    hide Pow256;
    var v, i := 0, n;
    while i > 0
      invariant 0 <= i <= n && v == Num(s[i..]) % W64
    {
      i := i - 1;
      ShiftIn(s, i);
      ModStep(Num(s[i + 1..]), p[i]);
      v := (v * 256 + p[i]) % W64;
    }
    assert s[0..] == s;
    LowEight(s);
    NumBound(low);
    if n > 0 { TopHalf(low); }
    if n > 0 && n <= 8 && p[n - 1] >= 128 { v := SignExtend(v, n); }
    PowMono(|low|, 8);
    if n == 0 { assert s == []; }
    r := if v >= HALF then v - W64 else v;
  }

  /** Sets bytes n to 7 of a word whose bytes from n on are clear. */
  method SignExtend(low: nat, n: nat) returns (v: nat)
    requires n <= 8 && low < Pow256(n)
    ensures v == low + Pow256(8) - Pow256(n)
  {
    hide Pow256;
    v := low;
    var i := n;
    while i < 8
      invariant n <= i <= 8 && v == low + Pow256(i) - Pow256(n)
    {
      v := v + 255 * Pow256(i);
      PowStep(i);
      i := i + 1;
    }
  }

  lemma PowStep(i: nat)
    ensures Pow256(i + 1) == 256 * Pow256(i)
  {}

  /** The sign bit says which half of its range a number is in. */
  lemma TopHalf(s: Octets)
    requires s != [] && AreBytes(s) && |s| <= 8
    ensures s[|s| - 1] >= 128 ==> 2 * Num(s) >= Pow256(|s|) && Num(s) + W64 - Pow256(|s|) >= HALF
    ensures s[|s| - 1] < 128 ==> 2 * Num(s) < Pow256(|s|) && Num(s) < HALF
  {
    var n, top := |s|, s[|s| - 1];
    NumTop(s);
    NumBound(s[..n - 1]);
    PowStep(n - 1);
    PowMono(n, 8);
    Pow8();
    HalfStep(Num(s[..n - 1]), Pow256(n - 1), top);
  }

  lemma HalfStep(low: nat, p: nat, top: nat)
    requires low < p && top < 256
    ensures top >= 128 ==> 2 * (low + p * top) >= 256 * p
    ensures top < 128 ==> 2 * (low + p * top) < 256 * p
  {
    if top >= 128 { assert p * top >= p * 128; } else { assert p * top <= p * 127; }
  }

  // ----- the cluster map -----

  /** `length` clusters, on disk from `lcn` on or sparse. */
  datatype Run = Run(length: int, lcn: int, sparse: bool)

  function Low(h: nat): nat { h % 16 }
  function High(h: nat): nat { h / 16 }

  /** The list ends at p: at its zero byte, or at a header without a length. */
  predicate Stops(runs: Octets, p: nat)
    requires p < |runs|
  {
    runs[p] == 0 || Low(runs[p]) == 0
  }

  function LengthAt(runs: Octets, p: nat): int
    requires p < |runs| && p + 1 + Low(runs[p]) <= |runs|
  {
    Field(runs[p + 1..p + 1 + Low(runs[p])])
  }

  function NextAt(runs: Octets, p: nat): nat
    requires p < |runs|
  {
    p + 1 + Low(runs[p]) + High(runs[p])
  }

  function DeltaAt(runs: Octets, p: nat): int
    requires p < |runs| && NextAt(runs, p) <= |runs|
  {
    Field(runs[p + 1 + Low(runs[p])..NextAt(runs, p)])
  }

  /** Pairs with lengths and cluster numbers in the range of a volume, up to the end of the list or until
      `enough` clusters are mapped; what follows is never looked at. */
  predicate Good(runs: Octets, p: nat, vcn: int, lcn: int, enough: int)
    decreases |runs| - p
  {
    && p < |runs| && 0 <= vcn && 0 <= lcn
    && (Stops(runs, p) || vcn >= enough ||
        (&& NextAt(runs, p) < |runs|
         && 0 <= LengthAt(runs, p) && vcn + LengthAt(runs, p) <= CLUSTERS
         && 0 <= lcn + DeltaAt(runs, p) && lcn + DeltaAt(runs, p) + LengthAt(runs, p) <= CLUSTERS
         && Good(runs, NextAt(runs, p), vcn + LengthAt(runs, p), lcn + DeltaAt(runs, p), enough)))
  }

  /** The runs from p on, as far as they are needed, with absolute cluster numbers. */
  function Decode(runs: Octets, p: nat, vcn: int, lcn: int, enough: int): seq<Run>
    requires Good(runs, p, vcn, lcn, enough)
    decreases |runs| - p
  {
    if Stops(runs, p) || vcn >= enough then []
    else
      var at := lcn + DeltaAt(runs, p);
      [Run(LengthAt(runs, p), at, High(runs[p]) == 0)] + Decode(runs, NextAt(runs, p), vcn + LengthAt(runs, p), at,
        enough)
  }

  /** Clusters that the range reaches into, from the first one on. */
  function Enough(bpc: nat, voff: nat, vlen: nat): int
    requires bpc > 0
  {
    if vlen == 0 then 0 else (voff + vlen + bpc - 1) / bpc
  }

  lemma EnoughIs(bpc: nat, voff: nat, vlen: nat, vcn: int)
    requires bpc > 0 && vcn >= 0
    ensures vlen > 0 ==> (vcn >= Enough(bpc, voff, vlen) <==> Off(vcn, bpc) >= voff + vlen)
  {
    if vlen > 0 {
      var e, w := Enough(bpc, voff, vlen), voff + vlen + bpc - 1;
      assert w == bpc * e + w % bpc;
      var d := vcn - e;
      assert Off(vcn, bpc) == bpc * e + bpc * d;
      Cyclic.Times(bpc, d);
    }
  }

  /** The fully expanded map: the disk cluster of every cluster of the attribute, or none. */
  datatype Source = Hole | OnDisk(lcn: int)

  function Expand(rs: seq<Run>): seq<Source> {
    if rs == [] then [] else Sources(rs[0], rs[0].length) + Expand(rs[1..])
  }

  function Sources(r: Run, n: int): (s: seq<Source>)
    ensures |s| == if n < 0 then 0 else n
  {
    seq(if n < 0 then 0 else n, i => if r.sparse then Hole else OnDisk(r.lcn + i))
  }

  /** Byte v of the attribute. */
  function ByteAt(m: seq<Source>, bpc: nat, disk: Octets, v: nat): nat
    requires bpc > 0 && v / bpc < |m|
  {
    match m[v / bpc]
    case Hole => 0
    case OnDisk(c) =>
      var a := c * bpc + v % bpc;
      if 0 <= a < |disk| then disk[a] else 0
  }

  lemma DeltaNone(runs: Octets, p: nat)
    requires p < |runs| && NextAt(runs, p) <= |runs| && High(runs[p]) == 0
    ensures DeltaAt(runs, p) == 0
  {
    assert runs[p + 1 + Low(runs[p])..NextAt(runs, p)] == [];
  }

  // ----- mapping pairs of given runs -----

  /** A run as a mapping pair with eight-byte fields: its length and how far its cluster is from the one before; a
      hole has no second field. */
  function PairBytes(r: Run, lcn: int): Octets {
    if r.sparse then [0x08] + Le(r.length % W64, 8) else [0x88] + Le(r.length % W64, 8) + Le((r.lcn - lcn) % W64, 8)
  }

  function ListBytes(rs: seq<Run>, lcn: int): Octets {
    if rs == [] then [0] else PairBytes(rs[0], lcn) + ListBytes(rs[1..], rs[0].lcn)
  }

  /** Runs of a volume: holes keep the cluster before them. */
  predicate AreRuns(rs: seq<Run>, vcn: int, lcn: int) {
    rs == [] || (&& 0 <= rs[0].length && vcn + rs[0].length <= CLUSTERS && 0 <= rs[0].lcn
                 && rs[0].lcn + rs[0].length <= CLUSTERS && (rs[0].sparse ==> rs[0].lcn == lcn)
                 && AreRuns(rs[1..], vcn + rs[0].length, rs[0].lcn))
  }

  lemma FieldBack(v: int)
    requires -(CLUSTERS as int) <= v <= CLUSTERS
    ensures Field(Le(v % W64, 8)) == v
  {
    var n, b := v % W64, Le(v % W64, 8);
    Pow8();
    LeBytes(n, 8);
    hide Le, Pow256;
    NumLe(n, 8);
    TopHalf(b);
  }

  lemma {:induction false} LeBytes(v: nat, n: nat)
    ensures AreBytes(Le(v, n))
  {
    if n > 0 { LeBytes(v / 256, n - 1); }
  }

  lemma PairAt(pre: Octets, r: Run, lcn: int, rest: Octets)
    requires 0 <= r.length <= CLUSTERS && 0 <= r.lcn <= CLUSTERS && 0 <= lcn <= CLUSTERS && (r.sparse ==> r.lcn == lcn)
    requires rest != []
    ensures var runs, p := pre + PairBytes(r, lcn) + rest, |pre|;
            && !Stops(runs, p) && NextAt(runs, p) == |pre + PairBytes(r, lcn)| < |runs|
            && LengthAt(runs, p) == r.length && lcn + DeltaAt(runs, p) == r.lcn && (High(runs[p]) == 0 <==> r.sparse)
  {
    var runs, p := pre + PairBytes(r, lcn) + rest, |pre|;
    hide Le, Field;
    assert runs[p] == if r.sparse then 0x08 else 0x88;
    assert runs[p + 1..p + 9] == Le(r.length % W64, 8);
    FieldBack(r.length);
    if r.sparse {
      assert DeltaAt(runs, p) == 0 by { DeltaNone(runs, p); }
    } else {
      assert runs[p + 9..p + 17] == Le((r.lcn - lcn) % W64, 8);
      FieldBack(r.lcn - lcn);
    }
  }

  /** The mapping pairs of a list of runs decode to the list. */
  lemma {:induction false} PairsBack(pre: Octets, rs: seq<Run>, vcn: int, lcn: int, enough: int)
    requires AreRuns(rs, vcn, lcn) && 0 <= vcn <= CLUSTERS < enough && 0 <= lcn <= CLUSTERS
    ensures var runs, p := pre + ListBytes(rs, lcn), |pre|;
            Good(runs, p, vcn, lcn, enough) && Decode(runs, p, vcn, lcn, enough) == rs
    decreases |rs|
  {
    hide PairBytes, ListBytes, Good, Decode, LengthAt, DeltaAt, Stops, NextAt;
    var runs, p := pre + ListBytes(rs, lcn), |pre|;
    if rs == [] {
      EndOfList(pre, vcn, lcn, enough);
    } else {
      var r, rest := rs[0], ListBytes(rs[1..], rs[0].lcn);
      ListStep(rs, lcn);
      assert runs == pre + PairBytes(r, lcn) + rest;
      PairAt(pre, r, lcn, rest);
      PairsBack(pre + PairBytes(r, lcn), rs[1..], vcn + r.length, r.lcn, enough);
      DecodeStep(runs, p, vcn, lcn, enough, r);
      assert rs == [r] + rs[1..];
    }
  }

  lemma EndOfList(pre: Octets, vcn: int, lcn: int, enough: int)
    requires 0 <= vcn && 0 <= lcn
    ensures var runs, p := pre + ListBytes([], lcn), |pre|;
            Good(runs, p, vcn, lcn, enough) && Decode(runs, p, vcn, lcn, enough) == []
  {
    assert (pre + [0])[|pre|] == 0;
  }

  lemma DecodeStep(runs: Octets, p: nat, vcn: int, lcn: int, enough: int, r: Run)
    requires p < |runs| && !Stops(runs, p) && NextAt(runs, p) < |runs| && 0 <= vcn < enough && 0 <= lcn
    requires r == Run(LengthAt(runs, p), lcn + DeltaAt(runs, p), High(runs[p]) == 0)
    requires 0 <= r.length && vcn + r.length <= CLUSTERS && 0 <= r.lcn && r.lcn + r.length <= CLUSTERS
    requires Good(runs, NextAt(runs, p), vcn + r.length, r.lcn, enough)
    ensures Good(runs, p, vcn, lcn, enough)
    ensures Decode(runs, p, vcn, lcn, enough) == [r] + Decode(runs, NextAt(runs, p), vcn + r.length, r.lcn, enough)
  {
    hide LengthAt, DeltaAt, Stops, NextAt;
  }

  lemma ListStep(rs: seq<Run>, lcn: int)
    requires rs != []
    ensures ListBytes(rs, lcn) == PairBytes(rs[0], lcn) + ListBytes(rs[1..], rs[0].lcn)
    ensures ListBytes(rs[1..], rs[0].lcn) != []
  {}

  // ----- reading -----

  /** The first byte of cluster c. */
  function Off(c: int, bpc: nat): int { c * bpc }

  lemma OffAdd(a: int, b: int, bpc: nat)
    ensures Off(a + b, bpc) == Off(a, bpc) + Off(b, bpc)
  {}

  lemma OffSign(a: int, bpc: nat)
    requires bpc > 0
    ensures (a >= 0 ==> Off(a, bpc) >= 0) && (a <= 0 ==> Off(a, bpc) <= 0)
  {}

  lemma Clustered(v: nat, vcn: nat, x: nat, bpc: nat)
    requires bpc > 0 && v == Off(vcn, bpc) + x
    ensures v / bpc == vcn + x / bpc && v % bpc == x % bpc && Off(x / bpc, bpc) + x % bpc == x
  {
    var q := x / bpc;
    assert x == bpc * q + x % bpc;
    assert v == bpc * (vcn + q) + x % bpc;
    Cyclic.DivUnique(v, bpc, vcn + q, x % bpc);
  }

  lemma InsideRun(x: nat, n: nat, bpc: nat)
    requires bpc > 0 && x < Off(n, bpc)
    ensures x / bpc < n
  {
    var d := x / bpc - n;
    assert x == bpc * (x / bpc) + x % bpc;
    assert Off(d, bpc) + x % bpc < 0;
    OffSign(d, bpc);
  }

  /** A byte inside a run of the map. */
  lemma RunByte(m: seq<Source>, vcn: nat, r: Run, bpc: nat, disk: Octets, v: nat)
    requires bpc > 0 && 0 <= r.length && vcn + r.length <= |m| && m[vcn..vcn + r.length] == Sources(r, r.length)
    requires Off(vcn, bpc) <= v < Off(vcn, bpc) + Off(r.length, bpc)
    ensures v / bpc < |m|
    ensures ByteAt(m, bpc, disk, v) ==
            if r.sparse then 0 else var a := Off(r.lcn, bpc) + (v - Off(vcn, bpc));
              if 0 <= a < |disk| then disk[a] else 0
  {
    var x := v - Off(vcn, bpc);
    Clustered(v, vcn, x, bpc);
    InsideRun(x, r.length, bpc);
    var k := x / bpc;
    assert m[vcn + k] == m[vcn..vcn + r.length][k] == Sources(r, r.length)[k];
    OffAdd(r.lcn, k, bpc);
    hide Sources;
  }

  /** Sectors that hold `take` bytes from `at` on. */
  function SectorsFor(at: nat, take: nat, bps: nat): nat
    requires bps > 0
  {
    (take + at % bps + bps - 1) / bps
  }

  /** The whole sectors around `take` bytes from `at` on fit the scratch buffer and the disk. */
  predicate PieceOk(at: nat, take: nat, bps: nat, size: nat)
    requires bps > 0
  {
    var n := SectorsFor(at, take, bps);
    Off(n, bps) <= 16384 && Off(at / bps + n, bps) <= size
  }

  /** Whole sectors around the piece, then the piece; too long for the scratch buffer or off the disk fails. */
  method ReadPiece(disk: Octets, bps: nat, at: nat, take: nat) returns (ok: bool, data: Octets)
    requires bps > 0
    ensures ok <==> PieceOk(at, take, bps, |disk|)
    ensures ok ==> at + take <= |disk| && data == disk[at..at + take]
    ensures take + 2 * bps <= SCRATCH && at + take <= |disk| && |disk| % bps == 0 ==> ok
  {
    hide Off, SectorsFor;
    SectorEnd(at, take, bps, |disk|);
    SectorCover(at, take, bps);
    var first, sector, n := at % bps, at / bps, SectorsFor(at, take, bps);
    data := [];
    if Off(n, bps) > SCRATCH { return false, []; }
    var lo, hi := Off(sector, bps), Off(sector + n, bps);
    if hi > |disk| { return false, []; }
    var scratch := disk[lo..hi];
    Resliced(disk, lo, hi, first, first + take);
    data := scratch[first..first + take];
    ok := true;
  }

  /** The sectors around a piece end with the disk at the latest, and add less than two sectors. */
  lemma SectorEnd(at: nat, take: nat, bps: nat, size: nat)
    requires bps > 0
    ensures var n := SectorsFor(at, take, bps);
            && Off(n, bps) < take + 2 * bps
            && (at + take <= size && size % bps == 0 ==> Off(at / bps + n, bps) <= size)
  {
    var s, n := at / bps, SectorsFor(at, take, bps);
    var w := take + at % bps + bps - 1;
    assert w == bps * n + w % bps;
    assert at == bps * s + at % bps;
    if at + take <= size && size % bps == 0 {
      var q := size / bps;
      assert size == bps * q;
      var d := s + n - q;
      assert bps * d == bps * s + bps * n - bps * q;
      assert bps * d < bps;
      Cyclic.Times(bps, d);
    }
  }

  lemma SectorCover(at: nat, take: nat, bps: nat)
    requires bps > 0
    ensures var sector, n := at / bps, SectorsFor(at, take, bps);
            0 <= Off(sector, bps) && at == Off(sector, bps) + at % bps && at + take <= Off(sector + n, bps)
  {
    var n, w := SectorsFor(at, take, bps), take + at % bps + bps - 1;
    assert w == bps * n + w % bps;
    assert at == bps * (at / bps) + at % bps;
    OffAdd(at / bps, n, bps);
  }

  ghost predicate Sound(m: seq<Source>, bpc: nat, disk: Octets, voff: nat, out: Octets)
    requires bpc > 0
  {
    forall i: nat :: i < |out| ==> IsByte(m, bpc, disk, voff + i, out[i])
  }

  /** b is byte v of the attribute. */
  predicate IsByte(m: seq<Source>, bpc: nat, disk: Octets, v: nat, b: nat)
    requires bpc > 0
  {
    v / bpc < |m| && b == ByteAt(m, bpc, disk, v)
  }

  /** How much of the range the map covers. */
  function Covered(total: int, voff: nat, vlen: nat): int {
    if voff >= total then 0 else Least(total - voff, vlen)
  }

  /** What the walk knows at a pair: the clusters before it, and that reading has caught up with them. */
  ghost predicate Walking(m: seq<Source>, runs: Octets, p: nat, vcn: int, lcn: int, bpc: nat, voff: nat, vlen: nat,
          out: Octets)
    requires bpc > 0
  {
    && Good(runs, p, vcn, lcn, Enough(bpc, voff, vlen)) && 0 <= vcn <= |m|
    && m[vcn..] == Expand(Decode(runs, p, vcn, lcn, Enough(bpc, voff, vlen))) && |out| <= vlen
    && (|out| < vlen ==> Off(vcn, bpc) <= voff + |out|) && (|out| > 0 ==> voff + |out| <= Off(vcn, bpc))
  }

  lemma Start(runs: Octets, bpc: nat, voff: nat, vlen: nat)
    requires bpc > 0 && Good(runs, 0, 0, 0, Enough(bpc, voff, vlen))
    ensures var m := Expand(Decode(runs, 0, 0, 0, Enough(bpc, voff, vlen)));
            Walking(m, runs, 0, 0, 0, bpc, voff, vlen, [])
  {
    var m := Expand(Decode(runs, 0, 0, 0, Enough(bpc, voff, vlen)));
    assert m[0..] == m;
    hide Expand, Decode, Good;
  }

  /** The run at p is the next stretch of the map. */
  lemma NextRun(m: seq<Source>, runs: Octets, p: nat, vcn: int, lcn: int, bpc: nat, voff: nat, vlen: nat, out: Octets)
    requires bpc > 0 && Walking(m, runs, p, vcn, lcn, bpc, voff, vlen, out) && p < |runs| && !Stops(runs, p)
    requires |out| < vlen
    ensures NextAt(runs, p) < |runs|
    ensures var n, at := LengthAt(runs, p), lcn + DeltaAt(runs, p);
            && 0 <= n && 0 <= at && vcn + n <= |m| && m[vcn..vcn + n] == Sources(Run(n, at, High(runs[p]) == 0), n)
            && Good(runs, NextAt(runs, p), vcn + n, at, Enough(bpc, voff, vlen))
            && m[vcn + n..] == Expand(Decode(runs, NextAt(runs, p), vcn + n, at, Enough(bpc, voff, vlen)))
  {
    EnoughIs(bpc, voff, vlen, vcn);
    hide Enough;
    var n, at := LengthAt(runs, p), lcn + DeltaAt(runs, p);
    var r, rest := Run(n, at, High(runs[p]) == 0), Decode(runs, NextAt(runs, p), vcn + n, at, Enough(bpc, voff, vlen));
    var ds := Decode(runs, p, vcn, lcn, Enough(bpc, voff, vlen));
    assert ds == [r] + rest;
    assert ds[1..] == rest;
    assert Expand(ds) == Sources(r, n) + Expand(rest);
    hide Decode, Expand, Good, Sources, LengthAt, DeltaAt;
    assert m[vcn..][..n] == Sources(r, n) && m[vcn..][n..] == Expand(rest);
  }

  /** At the end of the list the whole range that the map covers has been read. */
  lemma Finished(m: seq<Source>, runs: Octets, p: nat, vcn: int, lcn: int, bpc: nat, voff: nat, vlen: nat, out: Octets)
    requires bpc > 0 && Walking(m, runs, p, vcn, lcn, bpc, voff, vlen, out)
    requires (|out| < vlen ==> p < |runs| && Stops(runs, p))
    ensures |out| == Covered(Off(|m|, bpc), voff, vlen)
  {
    if |out| < vlen {
      assert Expand(Decode(runs, p, vcn, lcn, Enough(bpc, voff, vlen))) == [];
      assert vcn == |m|;
    }
    hide Decode, Expand, Good;
    OffAdd(vcn, |m| - vcn, bpc);
    OffSign(|m| - vcn, bpc);
  }

  /** Bytes taken from a run extend what was read. */
  lemma Extended(m: seq<Source>, bpc: nat, disk: Octets, voff: nat, out: Octets, vcn: nat, r: Run, data: Octets)
    requires bpc > 0 && Sound(m, bpc, disk, voff, out) && 0 <= r.length && vcn + r.length <= |m|
    requires m[vcn..vcn + r.length] == Sources(r, r.length)
    requires Off(vcn, bpc) <= voff + |out| && voff + |out| + |data| <= Off(vcn, bpc) + Off(r.length, bpc)
    requires r.sparse ==> forall i :: 0 <= i < |data| ==> data[i] == 0
    requires !r.sparse ==> var a := Off(r.lcn, bpc) + (voff + |out| - Off(vcn, bpc));
             0 <= a && a + |data| <= |disk| && data == disk[a..a + |data|]
    ensures Sound(m, bpc, disk, voff, out + data)
  {
    hide Off, Sources, IsByte;
    forall i: nat | i < |out + data| ensures IsByte(m, bpc, disk, voff + i, (out + data)[i]) {
      if i >= |out| {
        var k := i - |out|;
        assert (out + data)[i] == data[k];
        assert !r.sparse ==> data[k] == disk[Off(r.lcn, bpc) + (voff + |out| - Off(vcn, bpc)) + k];
        RunIsByte(m, vcn, r, bpc, disk, voff + i, data[k]);
      } else {
        assert (out + data)[i] == out[i];
      }
    }
  }

  lemma RunIsByte(m: seq<Source>, vcn: nat, r: Run, bpc: nat, disk: Octets, v: nat, b: nat)
    requires bpc > 0 && 0 <= r.length && vcn + r.length <= |m| && m[vcn..vcn + r.length] == Sources(r, r.length)
    requires Off(vcn, bpc) <= v < Off(vcn, bpc) + Off(r.length, bpc)
    requires if r.sparse then b == 0 else var a := Off(r.lcn, bpc) + (v - Off(vcn, bpc));
             0 <= a < |disk| && b == disk[a]
    ensures IsByte(m, bpc, disk, v, b)
  {
    hide Off, Sources, ByteAt;
    RunByte(m, vcn, r, bpc, disk, v);
  }

  /** The header, the length and the cluster of the pair at p. */
  method ReadPair(runs: Octets, p: nat, lcn: int) returns (length: int, at: int, sparse: bool, next: nat)
    requires AreBytes(runs) && p < |runs| && NextAt(runs, p) < |runs|
    ensures length == LengthAt(runs, p) && at == lcn + DeltaAt(runs, p) && sparse == (High(runs[p]) == 0)
    ensures next == NextAt(runs, p)
  {
    hide Field;
    var lo, hi := runs[p] % 16, runs[p] / 16;
    next := p + 1;
    assert runs[next..][..lo] == runs[next..next + lo];
    length := SRead(runs[next..], lo);
    next := next + lo;
    at := lcn;
    if hi != 0 {
      assert runs[next..][..hi] == runs[next..next + hi];
      var delta := SRead(runs[next..], hi);
      next := next + hi;
      at := at + delta;
    } else {
      DeltaNone(runs, p);
    }
    sparse := hi == 0;
  }

  /** The bytes of a run that the range asks for. */
  method ReadShare(disk: Octets, bpc: nat, bps: nat, sparse: bool, lcn: nat, inRun: nat, take: nat) returns (ok: bool,
          data: Octets)
    requires bpc > 0 && bps > 0
    ensures ok <==> sparse || PieceOk(Off(lcn, bpc) + inRun, take, bps, |disk|)
    ensures ok ==> |data| == take
    ensures ok && sparse ==> forall i :: 0 <= i < |data| ==> data[i] == 0
    ensures ok && !sparse ==> var a := Off(lcn, bpc) + inRun; 0 <= a && a + take <= |disk| && data == disk[a..a + take]
    ensures sparse || (take + 2 * bps <= SCRATCH && Off(lcn, bpc) + inRun + take <= |disk| && |disk| % bps == 0) ==> ok
  {
    hide SectorsFor, PieceOk;
    if sparse {
      ok, data := true, Zeroes(take);
    } else {
      OffSign(lcn, bpc);
      ok, data := ReadPiece(disk, bps, lcn * bpc + inRun, take);
    }
  }

  lemma NothingRead(m: seq<Source>, bpc: nat, disk: Octets, voff: nat)
    requires bpc > 0
    ensures Sound(m, bpc, disk, voff, [])
  {}

  lemma WalkingBounds(m: seq<Source>, runs: Octets, p: nat, vcn: int, lcn: int, bpc: nat, voff: nat, vlen: nat,
          out: Octets)
    requires bpc > 0 && Walking(m, runs, p, vcn, lcn, bpc, voff, vlen, out)
    ensures p < |runs| && 0 <= vcn && |out| <= vlen && (|out| < vlen ==> Off(vcn, bpc) <= voff + |out|)
    ensures 0 <= Off(vcn, bpc) && (|out| > 0 ==> voff + |out| <= Off(vcn, bpc))
  {
    OffSign(vcn, bpc);
  }

  lemma WalkOn(m: seq<Source>, runs: Octets, p: nat, vcn: int, lcn: int, bpc: nat, voff: nat, vlen: nat, out: Octets,
          take: nat)
    requires bpc > 0 && Walking(m, runs, p, vcn, lcn, bpc, voff, vlen, out) && p < |runs| && !Stops(runs, p)
    requires |out| < vlen
    requires NextAt(runs, p) < |runs| && 0 <= LengthAt(runs, p)
    requires var end := Off(vcn, bpc) + Off(LengthAt(runs, p), bpc);
             take == if voff + |out| < end then Least(end - (voff + |out|), vlen - |out|) else 0
    ensures forall out': Octets :: |out'| == |out| + take ==>
              Walking(m, runs, NextAt(runs, p), vcn + LengthAt(runs, p), lcn + DeltaAt(runs, p), bpc, voff, vlen, out')
  {
    hide Good, Expand, Decode, Off, Sources, LengthAt, DeltaAt;
    NextRun(m, runs, p, vcn, lcn, bpc, voff, vlen, out);
    OffAdd(vcn, LengthAt(runs, p), bpc);
    OffSign(LengthAt(runs, p), bpc);
  }

  // ----- when reading succeeds -----

  /** The cluster of the attribute that run k starts with. */
  function Vcn(rs: seq<Run>, k: nat): int
    requires k <= |rs|
  {
    if k == 0 then 0 else Vcn(rs, k - 1) + rs[k - 1].length
  }

  /** The part of the range from voff on that run k holds, if any, can be read in one piece. */
  predicate ShareOk(rs: seq<Run>, k: nat, bpc: nat, bps: nat, size: nat, voff: nat, vlen: nat)
    requires k < |rs| && bps > 0
  {
    RunOk(rs[k], Off(Vcn(rs, k), bpc), bpc, bps, size, voff, vlen)
  }

  predicate RunOk(r: Run, start: int, bpc: nat, bps: nat, size: nat, voff: nat, vlen: nat)
    requires bps > 0
  {
    var lo, hi := if voff > start then voff else start, Lesser(start + Off(r.length, bpc), voff + vlen);
    var at := Off(r.lcn, bpc) + (lo - start);
    lo < hi && !r.sparse && at >= 0 ==> PieceOk(at, hi - lo, bps, size)
  }

  function Lesser(a: int, b: int): int { if a <= b then a else b }

  predicate SharesOk(rs: seq<Run>, bpc: nat, bps: nat, size: nat, voff: nat, vlen: nat)
    requires bps > 0
  {
    forall k :: 0 <= k < |rs| ==> ShareOk(rs, k, bpc, bps, size, voff, vlen)
  }

  /** The walk has come to run k. */
  ghost predicate AtRun(rs: seq<Run>, k: nat, runs: Octets, p: nat, vcn: int, lcn: int, enough: int) {
    k <= |rs| && Good(runs, p, vcn, lcn, enough) && rs[k..] == Decode(runs, p, vcn, lcn, enough) && vcn == Vcn(rs, k)
  }

  lemma RunHere(rs: seq<Run>, k: nat, runs: Octets, p: nat, vcn: int, lcn: int, enough: int)
    requires AtRun(rs, k, runs, p, vcn, lcn, enough) && p < |runs| && !Stops(runs, p) && vcn < enough
    ensures k < |rs| && NextAt(runs, p) < |runs|
    ensures rs[k] == Run(LengthAt(runs, p), lcn + DeltaAt(runs, p), High(runs[p]) == 0)
    ensures AtRun(rs, k + 1, runs, NextAt(runs, p), vcn + LengthAt(runs, p), lcn + DeltaAt(runs, p), enough)
  {
    hide LengthAt, DeltaAt;
    assert rs[k..][0] == rs[k] && rs[k..][1..] == rs[k + 1..];
    hide Vcn;
    VcnNext(rs, k);
  }

  lemma VcnNext(rs: seq<Run>, k: nat)
    requires k < |rs|
    ensures Vcn(rs, k + 1) == Vcn(rs, k) + rs[k].length
  {}

  lemma {:induction false} RestLengths(rs: seq<Run>, k: nat, j: nat, runs: Octets, p: nat, vcn: int, lcn: int,
          enough: int)
    requires AtRun(rs, k, runs, p, vcn, lcn, enough) && k <= j <= |rs|
    ensures Vcn(rs, j) >= vcn
    decreases j - k
  {
    if k < j {
      assert rs[k..] != [];
      RunHere(rs, k, runs, p, vcn, lcn, enough);
      RestLengths(rs, k + 1, j, runs, NextAt(runs, p), vcn + LengthAt(runs, p), lcn + DeltaAt(runs, p), enough);
    }
  }

  /** When the range has been read, or the list has ended, no run is left with a share in it. */
  lemma RestOk(rs: seq<Run>, k: nat, runs: Octets, p: nat, vcn: int, lcn: int, bpc: nat, bps: nat, size: nat,
          voff: nat, vlen: nat)
    requires bpc > 0 && bps > 0 && AtRun(rs, k, runs, p, vcn, lcn, Enough(bpc, voff, vlen))
    requires (p < |runs| && Stops(runs, p)) || Off(vcn, bpc) >= voff + vlen || vlen == 0
    ensures forall j :: k <= j < |rs| ==> ShareOk(rs, j, bpc, bps, size, voff, vlen)
  {
    if p < |runs| && Stops(runs, p) {
      assert rs[k..] == [];
    } else {
      hide Good, Decode, AtRun, Enough, PieceOk;
      forall j | k <= j < |rs| ensures ShareOk(rs, j, bpc, bps, size, voff, vlen) {
        RestLengths(rs, k, j, runs, p, vcn, lcn, Enough(bpc, voff, vlen));
        OffAdd(vcn, Vcn(rs, j) - vcn, bpc);
        OffSign(Vcn(rs, j) - vcn, bpc);
        hide Vcn, Off;
      }
    }
  }

  /** Where the walk has caught up with run k, its share is what the code takes next. */
  lemma ShareIs(rs: seq<Run>, k: nat, vcn: nat, bpc: nat, bps: nat, size: nat, voff: nat, vlen: nat, got: nat)
    requires bpc > 0 && bps > 0 && k < |rs| && vcn == Vcn(rs, k) && got < vlen && rs[k].length >= 0 && rs[k].lcn >= 0
    requires Off(vcn, bpc) <= voff + got && (got > 0 ==> voff + got <= Off(vcn, bpc))
    ensures var r, pos, end := rs[k], voff + got, Off(vcn, bpc) + Off(rs[k].length, bpc);
            var at := Off(r.lcn, bpc) + (pos - Off(vcn, bpc));
            && at >= 0
            && (ShareOk(rs, k, bpc, bps, size, voff, vlen) <==>
                pos >= end || r.sparse || PieceOk(at, Lesser(end - pos, vlen - got), bps, size))
  {
    hide PieceOk, Vcn;
    OffSign(rs[k].lcn, bpc);
    hide Off;
  }

  lemma AtVcn(rs: seq<Run>, k: nat, runs: Octets, p: nat, vcn: int, lcn: int, enough: int)
    requires AtRun(rs, k, runs, p, vcn, lcn, enough)
    ensures k <= |rs| && vcn == Vcn(rs, k)
  {}

  lemma StartRun(runs: Octets, enough: int)
    requires Good(runs, 0, 0, 0, enough)
    ensures AtRun(Decode(runs, 0, 0, 0, enough), 0, runs, 0, 0, 0, enough)
  {
    var rs := Decode(runs, 0, 0, 0, enough);
    assert rs[0..] == rs;
  }

  /** read_runs: it returns exactly the bytes that the expanded map gives for the range, zeros for holes, cut at
      the end of the runs, if and only if every run's share of the range can be read in one piece. */
  method ReadRuns(disk: Octets, bpc: nat, bps: nat, runs: Octets, voff: nat, vlen: nat) returns (ok: bool, out: Octets)
    requires 0 < bpc <= MAX_CLUSTER && bps > 0 && vlen < 0x8000_0000
    requires AreBytes(runs) && Good(runs, 0, 0, 0, Enough(bpc, voff, vlen))
    ensures ok ==> var m := Expand(Decode(runs, 0, 0, 0, Enough(bpc, voff, vlen)));
                   |out| == Covered(Off(|m|, bpc), voff, vlen) && Sound(m, bpc, disk, voff, out)
    ensures ok <==> SharesOk(Decode(runs, 0, 0, 0, Enough(bpc, voff, vlen)), bpc, bps, |disk|, voff, vlen)
    ensures Readable(Expand(Decode(runs, 0, 0, 0, Enough(bpc, voff, vlen))), bpc, bps, disk, vlen) ==> ok
  {
    hide AtRun, ShareOk, PieceOk, Vcn, Good, Expand, Decode, Off, Sources, ByteAt, Field, Walking, Enough, Sound;
    hide LengthAt, DeltaAt, Readable;
    ghost var m := Expand(Decode(runs, 0, 0, 0, Enough(bpc, voff, vlen)));
    ghost var rs, enough := Decode(runs, 0, 0, 0, Enough(bpc, voff, vlen)), Enough(bpc, voff, vlen);
    ghost var k: nat := 0;
    Start(runs, bpc, voff, vlen);
    StartRun(runs, enough);
    NothingRead(m, bpc, disk, voff);
    out := [];
    var p, vcn, lcn := 0, 0, 0;
    WalkingBounds(m, runs, p, vcn, lcn, bpc, voff, vlen, out);
    while runs[p] != 0 && |out| < vlen
      invariant 0 <= p < |runs| && Walking(m, runs, p, vcn, lcn, bpc, voff, vlen, out) && Sound(m, bpc, disk, voff, out)
      invariant AtRun(rs, k, runs, p, vcn, lcn, enough)
      invariant k <= |rs| && forall j :: 0 <= j < k ==> ShareOk(rs, j, bpc, bps, |disk|, voff, vlen)
      decreases |runs| - p
    {
      if runs[p] % 16 == 0 { break; }
      NextRun(m, runs, p, vcn, lcn, bpc, voff, vlen, out);
      WalkingBounds(m, runs, p, vcn, lcn, bpc, voff, vlen, out);
      var length, at, sparse, next := ReadPair(runs, p, lcn);
      OffSign(length, bpc);
      EnoughIs(bpc, voff, vlen, vcn);
      RunHere(rs, k, runs, p, vcn, lcn, enough);
      AtVcn(rs, k, runs, p, vcn, lcn, enough);
      ShareIs(rs, k, vcn, bpc, bps, |disk|, voff, vlen, |out|);
      var pos, start, bytes := voff + |out|, vcn * bpc, length * bpc;
      assert start == Off(vcn, bpc) && bytes == Off(length, bpc) by { OffIs(vcn, bpc); OffIs(length, bpc); }
      if pos + (vlen - |out|) <= start { break; }
      ghost var was := out;
      ghost var take := 0;
      if pos < start + bytes {
        var inRun := if pos > start then pos - start else 0;
        var share := if bytes - inRun > vlen - |out| then vlen - |out| else bytes - inRun;
        var data;
        ok, data := ReadShare(disk, bpc, bps, sparse, at, inRun, share);
        if !sparse && Readable(m, bpc, bps, disk, vlen) {
          ReadableFits(m, bpc, bps, disk, vlen);
          RunOnDisk(m, vcn, Run(length, at, sparse), bpc, bps, disk, vlen, inRun, share);
        }
        if !ok { return; }
        Extended(m, bpc, disk, voff, out, vcn, Run(length, at, sparse), data);
        out := out + data;
        take := share;
      }
      WalkOn(m, runs, p, vcn, lcn, bpc, voff, vlen, was, take);
      k := k + 1;
      vcn, lcn, p := vcn + length, at, next;
      WalkingBounds(m, runs, p, vcn, lcn, bpc, voff, vlen, out);
    }
    WalkingBounds(m, runs, p, vcn, lcn, bpc, voff, vlen, out);
    Finished(m, runs, p, vcn, lcn, bpc, voff, vlen, out);
    RestOk(rs, k, runs, p, vcn, lcn, bpc, bps, |disk|, voff, vlen);
    ok := true;
  }

  /** Every mapped cluster lies on the disk, which ends with a sector, and the request fits the scratch buffer. */
  predicate Readable(m: seq<Source>, bpc: nat, bps: nat, disk: Octets, vlen: nat)
    requires bps > 0
  {
    && vlen + 2 * bps <= SCRATCH && |disk| % bps == 0
    && forall k :: 0 <= k < |m| && m[k].OnDisk? ==> Off(m[k].lcn + 1, bpc) <= |disk|
  }

  lemma ReadableFits(m: seq<Source>, bpc: nat, bps: nat, disk: Octets, vlen: nat)
    requires bps > 0 && Readable(m, bpc, bps, disk, vlen)
    ensures vlen + 2 * bps <= SCRATCH && |disk| % bps == 0
  {}

  lemma RunOnDisk(m: seq<Source>, vcn: nat, r: Run, bpc: nat, bps: nat, disk: Octets, vlen: nat, inRun: nat, take: nat)
    requires bpc > 0 && bps > 0 && 0 <= r.length && vcn + r.length <= |m|
    requires m[vcn..vcn + r.length] == Sources(r, r.length)
    requires Readable(m, bpc, bps, disk, vlen) && !r.sparse && inRun < Off(r.length, bpc)
    requires inRun + take <= Off(r.length, bpc)
    ensures Off(r.lcn, bpc) + inRun + take <= |disk|
  {
    OffSign(r.length, bpc);
    assert r.length > 0;
    var k := r.length - 1;
    assert m[vcn + k] == m[vcn..vcn + r.length][k] == OnDisk(r.lcn + k);
    OffAdd(r.lcn, r.length, bpc);
  }

  lemma OffIs(c: int, bpc: nat)
    ensures Off(c, bpc) == c * bpc
  {}
}
