/** Byte strings as sequences of equal blocks. */
module Blocks {

  type Octets = seq<nat>

  /** Blocks laid end to end. */
  function Flat(blocks: seq<Octets>): Octets {
    if blocks == [] then [] else Flat(blocks[..|blocks| - 1]) + blocks[|blocks| - 1]
  }

  /** The bytes of n blocks. */
  function Span(n: nat, b: nat): nat { n * b }

  lemma SpanZero(b: nat)
    ensures Span(0, b) == 0
  {}

  lemma MulStep(n: nat, b: nat)
    requires n > 0
    ensures Span(n, b) == Span(n - 1, b) + b
  {}

  /** A byte string cut into n blocks of b bytes. */
  function Cut(s: Octets, b: nat, n: nat): (r: seq<Octets>)
    requires |s| == Span(n, b)
    ensures |r| == n
    decreases n
  {
    if n == 0 then [] else MulStep(n, b); Cut(s[..|s| - b], b, n - 1) + [s[|s| - b..]]
  }

  predicate Uniform(blocks: seq<Octets>, b: nat) { forall k :: 0 <= k < |blocks| ==> |blocks[k]| == b }

  lemma {:induction false} FlatLen(blocks: seq<Octets>, b: nat)
    requires Uniform(blocks, b)
    ensures |Flat(blocks)| == Span(|blocks|, b)
  {
    if blocks != [] {
      FlatLen(blocks[..|blocks| - 1], b);
      MulStep(|blocks|, b);
    }
  }

  lemma {:induction false} FlatConcat(x: seq<Octets>, y: seq<Octets>)
    ensures Flat(x + y) == Flat(x) + Flat(y)
  {
    if y == [] {
      assert x + y == x;
    } else {
      FlatConcat(x, y[..|y| - 1]);
      assert (x + y)[..|x + y| - 1] == x + y[..|y| - 1];
    }
  }

  /** Cutting undoes laying end to end. */
  lemma {:induction false} FlatCut(s: Octets, b: nat, n: nat)
    requires |s| == Span(n, b)
    ensures Flat(Cut(s, b, n)) == s && Uniform(Cut(s, b, n), b)
    decreases n
  {
    if n > 0 {
      MulStep(n, b);
      var head := s[..|s| - b];
      FlatCut(head, b, n - 1);
      var cut := Cut(s, b, n);
      assert cut[..|cut| - 1] == Cut(head, b, n - 1);
      assert s == head + s[|s| - b..];
    } else {
      assert |s| == 0;
    }
  }

  /** Cutting a concatenation. */
  lemma {:induction false} CutConcat(s: Octets, t: Octets, b: nat, n: nat, m: nat)
    requires |s| == Span(n, b) && |t| == Span(m, b)
    ensures |s + t| == Span(n + m, b) && Cut(s + t, b, n + m) == Cut(s, b, n) + Cut(t, b, m)
    decreases m
  {
    Distribute(n, m, b);
    if m == 0 {
      assert |t| == 0 && s + t == s;
    } else {
      MulStep(m, b);
      MulStep(n + m, b);
      var head := t[..|t| - b];
      CutConcat(s, head, b, n, m - 1);
      assert (s + t)[..|s + t| - b] == s + head;
      assert (s + t)[|s + t| - b..] == t[|t| - b..];
    }
  }

  lemma Distribute(n: nat, m: nat, b: nat)
    ensures Span(n + m, b) == Span(n, b) + Span(m, b)
  {}

  /** Laying end to end undoes cutting. */
  lemma {:induction false} CutFlat(blocks: seq<Octets>, b: nat)
    requires Uniform(blocks, b)
    ensures |Flat(blocks)| == Span(|blocks|, b) && Cut(Flat(blocks), b, |blocks|) == blocks
    decreases |blocks|
  {
    FlatLen(blocks, b);
    if blocks != [] {
      var n := |blocks| - 1;
      var init := blocks[..n];
      CutFlat(init, b);
      MulStep(|blocks|, b);
      var s := Flat(blocks);
      assert s[..|s| - b] == Flat(init) && s[|s| - b..] == blocks[n];
    }
  }

  /** Byte i of block k. */
  lemma {:induction false} FlatAt(blocks: seq<Octets>, b: nat, k: nat, i: nat)
    requires Uniform(blocks, b) && k < |blocks| && i < b
    ensures |Flat(blocks)| == Span(|blocks|, b) && Span(k, b) + i < |Flat(blocks)|
    ensures Flat(blocks)[Span(k, b) + i] == blocks[k][i]
    decreases |blocks|
  {
    hide Span;
    var n := |blocks| - 1;
    var init := blocks[..n];
    FlatLen(blocks, b);
    FlatLen(init, b);
    MulStep(|blocks|, b);
    if k < n {
      FlatAt(init, b, k, i);
      assert init[k] == blocks[k];
    }
  }
}
