/** Little-endian numbers and fields in byte strings. */
module Bytes {

  function Pow256(n: nat): nat { if n == 0 then 1 else 256 * Pow256(n - 1) }

  /** The n low bytes of v, lowest first. */
  function Le(v: nat, n: nat): (b: seq<nat>)
    ensures |b| == n
  {
    if n == 0 then [] else [v % 256] + Le(v / 256, n - 1)
  }

  function Num(b: seq<nat>): nat { if b == [] then 0 else b[0] + 256 * Num(b[1..]) }

  lemma {:induction false} NumLe(v: nat, n: nat)
    requires v < Pow256(n)
    ensures Num(Le(v, n)) == v
  {
    if n > 0 {
      NumLe(v / 256, n - 1);
      assert Le(v, n)[1..] == Le(v / 256, n - 1);
    }
  }

  lemma Widths()
    ensures Pow256(1) == 0x100 && Pow256(2) == 0x1_0000 && Pow256(4) == 0x1_0000_0000
  {
    assert Pow256(3) == 256 * Pow256(2);
  }

  lemma Pow8()
    ensures Pow256(8) == 0x1_0000_0000_0000_0000
  {
    assert Pow256(2) == 65536;
    assert Pow256(4) == 256 * Pow256(3) && Pow256(3) == 256 * Pow256(2);
    assert Pow256(6) == 256 * Pow256(5) && Pow256(5) == 256 * Pow256(4);
    assert Pow256(8) == 256 * Pow256(7) && Pow256(7) == 256 * Pow256(6);
  }

  datatype Field = Field(off: nat, bytes: seq<nat>)

  function End(f: Field): nat { f.off + |f.bytes| }

  predicate Fit(fs: seq<Field>, n: nat) { forall k :: 0 <= k < |fs| ==> End(fs[k]) <= n }

  predicate InOrder(fs: seq<Field>) { forall i, j :: 0 <= i < j < |fs| ==> End(fs[i]) <= fs[j].off }

  function Put(s: seq<nat>, f: Field): (r: seq<nat>)
    requires End(f) <= |s|
    ensures |r| == |s|
  {
    s[..f.off] + f.bytes + s[End(f)..]
  }

  /** Stores the fields one after another. */
  function PutAll(s: seq<nat>, fs: seq<Field>): (r: seq<nat>)
    requires Fit(fs, |s|)
    ensures |r| == |s|
    decreases |fs|
  {
    if fs == [] then s else Put(PutAll(s, fs[..|fs| - 1]), fs[|fs| - 1])
  }

  lemma PutKeeps(s: seq<nat>, f: Field, off: nat, n: nat)
    requires End(f) <= |s| && off + n <= |s| && (off + n <= f.off || End(f) <= off)
    ensures Put(s, f)[off..off + n] == s[off..off + n]
  {
    var r, part, was := Put(s, f), Put(s, f)[off..off + n], s[off..off + n];
    forall k | 0 <= k < n ensures part[k] == was[k] {
      PutElement(s, f, off + k);
    }
  }

  lemma PutElement(s: seq<nat>, f: Field, k: nat)
    requires End(f) <= |s| && k < |s|
    ensures Put(s, f)[k] == if f.off <= k < End(f) then f.bytes[k - f.off] else s[k]
  {}

  lemma PutHolds(s: seq<nat>, f: Field)
    requires End(f) <= |s|
    ensures Put(s, f)[f.off..End(f)] == f.bytes
  {
    var part := Put(s, f)[f.off..End(f)];
    forall k | 0 <= k < |f.bytes| ensures part[k] == f.bytes[k] {
      PutElement(s, f, f.off + k);
    }
  }

  /** Fields in order do not disturb each other. */
  lemma {:induction false} PutAllHolds(s: seq<nat>, fs: seq<Field>, k: nat)
    requires Fit(fs, |s|) && InOrder(fs) && k < |fs|
    ensures PutAll(s, fs)[fs[k].off..End(fs[k])] == fs[k].bytes
    decreases |fs|
  {
    hide Put;
    var n := |fs| - 1;
    var before := PutAll(s, fs[..n]);
    if k == n {
      PutHolds(before, fs[n]);
    } else {
      PutAllHolds(s, fs[..n], k);
      assert fs[..n][k] == fs[k];
      PutKeeps(before, fs[n], fs[k].off, |fs[k].bytes|);
    }
  }

  lemma {:induction false} PutAllKeeps(s: seq<nat>, fs: seq<Field>, off: nat, n: nat)
    requires Fit(fs, |s|) && off + n <= |s| && forall k :: 0 <= k < |fs| ==> off + n <= fs[k].off || End(fs[k]) <= off
    ensures PutAll(s, fs)[off..off + n] == s[off..off + n]
    decreases |fs|
  {
    if fs != [] {
      hide Put;
      var m := |fs| - 1;
      PutAllKeeps(s, fs[..m], off, n);
      PutKeeps(PutAll(s, fs[..m]), fs[m], off, n);
    }
  }

  /** A little-endian number somewhere in a sector. */
  datatype Number = Number(off: nat, len: nat, value: nat)

  predicate HasNumber(b: seq<nat>, n: Number) { n.off + n.len <= |b| && Num(b[n.off..n.off + n.len]) == n.value }

  predicate HasNumbers(b: seq<nat>, ns: seq<Number>) { forall k :: 0 <= k < |ns| ==> HasNumber(b, ns[k]) }

  predicate HasFields(b: seq<nat>, fs: seq<Field>) { forall k :: 0 <= k < |fs| ==> HasField(b, fs[k]) }

  predicate HasField(b: seq<nat>, f: Field) { End(f) <= |b| && b[f.off..End(f)] == f.bytes }

  /** Byte k is part of none of the fields. */
  predicate Outside(fs: seq<Field>, k: nat) { forall i :: 0 <= i < |fs| ==> k < fs[i].off || End(fs[i]) <= k }

  /** Fields stored in order are there, and all other bytes are what they were. */
  lemma PutFields(s: seq<nat>, fs: seq<Field>)
    requires Fit(fs, |s|) && InOrder(fs)
    ensures HasFields(PutAll(s, fs), fs)
    ensures forall k :: 0 <= k < |s| && Outside(fs, k) ==> PutAll(s, fs)[k] == s[k]
  {
    hide PutAll;
    var b := PutAll(s, fs);
    forall k | 0 <= k < |fs| ensures HasField(b, fs[k]) { PutAllHolds(s, fs, k); }
    forall k | 0 <= k < |s| && Outside(fs, k) ensures b[k] == s[k] {
      PutAllKeeps(s, fs, k, 1);
      assert b[k..k + 1][0] == b[k] && s[k..k + 1][0] == s[k];
    }
  }

  function Zeroes(n: nat): (z: seq<nat>)
    ensures |z| == n && forall k :: 0 <= k < n ==> z[k] == 0
  {
    seq(n, _ => 0)
  }

  lemma {:induction false} NumZero(b: seq<nat>)
    requires forall k :: 0 <= k < |b| ==> b[k] == 0
    ensures Num(b) == 0
  {
    if b != [] { NumZero(b[1..]); }
  }

  /** A slice of a slice. */
  lemma Resliced(s: seq<nat>, lo: nat, hi: nat, a: nat, b: nat)
    requires lo <= hi <= |s| && a <= b <= hi - lo
    ensures s[lo..hi][a..b] == s[lo + a..lo + b]
  {
    var x, y := s[lo..hi][a..b], s[lo + a..lo + b];
    forall k | 0 <= k < b - a ensures x[k] == y[k] { assert x[k] == s[lo..hi][a + k]; }
  }
}
