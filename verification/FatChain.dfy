/** The file allocation table: linked cluster chains, the first-fit allocator and chain release. */
module FatChain {

  const EOC: nat := 0x0FFF_FFF8
  const END_MARK: nat := 0x0FFF_FFFF

  /** Entries 0 and 1 are reserved; a cluster number at or above EOC ends a chain. */
  type Fat = seq<nat>

  predicate IsCluster(c: nat) { 2 <= c < EOC }

  /** ch is the chain that starts at `first` and ends with an end mark. */
  ghost predicate IsChain(fat: Fat, first: nat, ch: seq<nat>) {
    && |fat| <= EOC && ch != [] && ch[0] == first
    && (forall k :: 0 <= k < |ch| ==> 2 <= ch[k] < |fat|)
    && (forall k :: 0 <= k < |ch| - 1 ==> fat[ch[k]] == ch[k + 1])
    && fat[ch[|ch| - 1]] >= EOC
  }

  function FreeSet(fat: Fat): set<nat> {
    set c | 2 <= c < |fat| && fat[c] == 0
  }

  // ----- find_free_cluster -----

  method FindFree(fat: Fat) returns (ok: bool, c: nat)
    ensures ok <==> FreeSet(fat) != {}
    ensures ok ==> c in FreeSet(fat) && forall d :: 2 <= d < c ==> fat[d] != 0
  {
    c := 2;
    while c < |fat|
      invariant 2 <= c && forall d :: 2 <= d < c && d < |fat| ==> fat[d] != 0
    {
      if fat[c] == 0 {
        assert c in FreeSet(fat);
        return true, c;
      }
      c := c + 1;
    }
    ok := false;
  }

  // ----- free_chain -----

  /** The cluster n links behind c; a walk stays where it stops. */
  function Nth(fat: Fat, c: nat, n: nat): nat {
    if n == 0 then c
    else var p := Nth(fat, c, n - 1); if 2 <= p < |fat| && p < EOC then fat[p] else p
  }

  /** The clusters a walk from `first` visits, on any table, cyclic or not. */
  ghost predicate Visited(fat: Fat, first: nat, c: nat) {
    2 <= c < |fat| && exists n: nat :: Nth(fat, first, n) == c
  }

  /** The walk from `first` never leaves the table. */
  ghost predicate StaysInTable(fat: Fat, first: nat) {
    forall n: nat :: InTable(fat, Nth(fat, first, n))
  }

  predicate InTable(fat: Fat, c: nat) { c < |fat| || c >= EOC }

  /** A set that holds the start and is closed under links holds every visited cluster. */
  lemma {:induction false} ClosedHoldsWalk(fat: Fat, first: nat, s: set<nat>, n: nat)
    requires IsCluster(first) ==> first in s
    requires forall c :: c in s ==> 2 <= c < |fat| && (IsCluster(fat[c]) ==> fat[c] in s)
    ensures IsCluster(Nth(fat, first, n)) ==> Nth(fat, first, n) in s
  {
    if n > 0 { ClosedHoldsWalk(fat, first, s, n - 1); }
  }

  function Outside(fat: Fat, gone: set<nat>): set<nat> {
    set c: nat | c < |fat| && c !in gone
  }

  lemma OutsideShrinks(fat: Fat, gone: set<nat>, c: nat)
    requires c < |fat| && c !in gone
    ensures |Outside(fat, gone + {c})| < |Outside(fat, gone)|
  {
    assert Outside(fat, gone) == Outside(fat, gone + {c}) + {c};
  }

  /** What has been cleared so far is on the walk, and its links lead back into it or to `cur`. */
  ghost predicate Swept(fat: Fat, first: nat, gone: set<nat>, cur: nat) {
    && (forall c :: c in gone ==> 2 <= c < |fat| && Visited(fat, first, c))
    && (forall c :: c in gone && IsCluster(fat[c]) ==> fat[c] in gone || fat[c] == cur)
    && (IsCluster(first) ==> first in gone || first == cur)
  }

  lemma SweptAll(fat: Fat, first: nat, gone: set<nat>, cur: nat, c: nat)
    requires Swept(fat, first, gone, cur) && !IsCluster(cur) && |fat| <= EOC
    ensures Visited(fat, first, c) <==> c in gone
  {
    if Visited(fat, first, c) && IsCluster(c) {
      var m: nat :| Nth(fat, first, m) == c;
      ClosedHoldsWalk(fat, first, gone, m);
    }
  }

  /** Clears the chain from `first`.  Terminates whenever the walk stays in the table, cyclic or not, because
      a cluster met again reads as free, and clears exactly the clusters the walk visits. */
  method FreeChain(fat: Fat, first: nat) returns (out: Fat)
    requires |fat| <= EOC && StaysInTable(fat, first)
    ensures |out| == |fat|
    ensures forall c :: 0 <= c < |fat| ==> out[c] == if Visited(fat, first, c) then 0 else fat[c]
  {
    hide Outside;
    out := fat;
    var cur: nat := first;
    ghost var n: nat := 0;
    ghost var gone: set<nat> := {};
    assert Nth(fat, first, 0) == first && InTable(fat, Nth(fat, first, 0));
    while 2 <= cur < EOC
      invariant |out| == |fat| && InTable(fat, cur)
      invariant Swept(fat, first, gone, cur) && (IsCluster(cur) ==> Nth(fat, first, n) == cur)
      invariant forall c :: 0 <= c < |fat| ==> out[c] == if c in gone then 0 else fat[c]
      decreases |Outside(fat, gone)|, if !IsCluster(cur) then 0 else if cur in gone then 1 else 2
    {
      var next := out[cur];
      out := out[cur := 0];
      if cur !in gone {
        assert Visited(fat, first, cur);
        OutsideShrinks(fat, gone, cur);
        gone := gone + {cur};
        assert Nth(fat, first, n + 1) == next && InTable(fat, Nth(fat, first, n + 1));
        n := n + 1;
      }
      cur := next;
    }
    forall c | 0 <= c < |fat| ensures Visited(fat, first, c) <==> c in gone {
      SweptAll(fat, first, gone, cur, c);
    }
  }

  /** On a well-formed chain the walk visits exactly the chain. */
  lemma VisitedChain(fat: Fat, first: nat, ch: seq<nat>, c: nat)
    requires IsChain(fat, first, ch)
    ensures Visited(fat, first, c) <==> c in ch
  {
    if c in ch {
      var k: nat :| k < |ch| && ch[k] == c;
      NthOnChain(fat, first, ch, k);
    }
    if Visited(fat, first, c) {
      var n: nat :| Nth(fat, first, n) == c;
      var s := set d | d in ch;
      forall d | d in s ensures 2 <= d < |fat| && (IsCluster(fat[d]) ==> fat[d] in s) {
        var k: nat :| k < |ch| && ch[k] == d;
        if k < |ch| - 1 { assert fat[d] == ch[k + 1]; }
      }
      ClosedHoldsWalk(fat, first, s, n);
    }
  }

  /** The walk along a chain ends with the chain. */
  lemma {:induction false} NthOnChain(fat: Fat, first: nat, ch: seq<nat>, n: nat)
    requires IsChain(fat, first, ch)
    ensures if n < |ch| then Nth(fat, first, n) == ch[n] else Nth(fat, first, n) >= EOC
  {
    if n > 0 { NthOnChain(fat, first, ch, n - 1); }
  }

  lemma ChainInTable(fat: Fat, first: nat, ch: seq<nat>)
    requires IsChain(fat, first, ch)
    ensures StaysInTable(fat, first)
  {
    forall n: nat ensures InTable(fat, Nth(fat, first, n)) { NthOnChain(fat, first, ch, n); }
  }

  // ----- alloc_chain -----

  const MAX_CHAIN: nat := 256

  function Members(ch: seq<nat>): set<nat> {
    set c | c in ch
  }

  ghost predicate Distinct(ch: seq<nat>) {
    forall j, k :: 0 <= j < k < |ch| ==> ch[j] != ch[k]
  }

  lemma {:induction false} DistinctCount(ch: seq<nat>)
    requires Distinct(ch)
    ensures |Members(ch)| == |ch|
  {
    if ch != [] {
      var rest := ch[..|ch| - 1];
      DistinctCount(rest);
      assert Members(ch) == Members(rest) + {ch[|ch| - 1]};
    }
  }

  /** The free clusters of lowest number, in ascending order. */
  ghost predicate Lowest(fat: Fat, chain: seq<nat>) {
    && (forall j, k :: 0 <= j < k < |chain| ==> chain[j] < chain[k])
    && forall c, k :: c in FreeSet(fat) && c !in chain && 0 <= k < |chain| ==> chain[k] < c
  }

  lemma LowestNext(fat: Fat, out: Fat, chain: seq<nat>, c: nat)
    requires Lowest(fat, chain) && |out| == |fat| && c in FreeSet(out) && (forall d :: 2 <= d < c ==> out[d] != 0)
    requires forall k :: 0 <= k < |fat| ==> out[k] == if k in chain then END_MARK else fat[k]
    ensures Lowest(fat, chain + [c])
  {
    var next := chain + [c];
    assert c in FreeSet(fat) && c !in chain;
    forall d, k | d in FreeSet(fat) && d !in next && 0 <= k < |next| ensures next[k] < d {
      assert d in FreeSet(out) && d != c;
    }
  }

  /** Reserves n clusters one by one, each the lowest that is still free. */
  method Reserve(fat: Fat, n: nat) returns (ok: bool, out: Fat, chain: seq<nat>)
    requires |fat| <= EOC
    ensures ok <==> |FreeSet(fat)| >= n
    ensures |out| == |fat| && |chain| <= n && (ok ==> |chain| == n)
    ensures Distinct(chain) && forall c :: c in chain ==> c in FreeSet(fat)
    ensures forall c :: 0 <= c < |fat| ==> out[c] == if c in chain then END_MARK else fat[c]
    ensures !ok ==> Members(chain) == FreeSet(fat)
    ensures Lowest(fat, chain)
  {
    out, chain := fat, [];
    assert Lowest(fat, chain);
    hide Lowest;
    var i := 0;
    while i < n
      invariant 0 <= i <= n && |chain| == i && |out| == |fat| && i <= |FreeSet(fat)|
      invariant Distinct(chain) && forall c :: c in chain ==> c in FreeSet(fat)
      invariant forall c :: 0 <= c < |fat| ==> out[c] == if c in chain then END_MARK else fat[c]
      invariant Lowest(fat, chain)
    {
      DistinctCount(chain);
      assert FreeSet(out) == FreeSet(fat) - Members(chain);
      assert |FreeSet(out)| == |FreeSet(fat)| - i by {
        assert Members(chain) <= FreeSet(fat);
        Difference(FreeSet(fat), Members(chain));
      }
      var found, c := FindFree(out);
      if !found {
        assert |FreeSet(out)| == 0;
        return false, out, chain;
      }
      assert c !in chain;
      assert |FreeSet(out)| > 0;
      LowestNext(fat, out, chain, c);
      out := out[c := END_MARK];
      chain := chain + [c];
      i := i + 1;
    }
    ok := true;
  }

  /** Every free cluster but those of `keep` is reserved, the rest of the table unchanged. */
  ghost predicate Reserved(fat: Fat, out: Fat, keep: set<nat>) {
    |out| == |fat| && forall c :: 0 <= c < |fat| ==>
      out[c] == if c in FreeSet(fat) && c !in keep then END_MARK else fat[c]
  }

  lemma Difference(a: set<nat>, b: set<nat>)
    requires b <= a
    ensures |a - b| == |a| - |b|
  {
    assert a == (a - b) + b;
  }

  /** Links reserved clusters in order. */
  method LinkChain(fat: Fat, chain: seq<nat>) returns (out: Fat)
    requires |fat| <= EOC && chain != [] && Distinct(chain) && forall k :: 0 <= k < |chain| ==> 2 <= chain[k] < |fat|
    ensures |out| == |fat| && IsChain(out, chain[0], chain) && out[chain[|chain| - 1]] == 0x0FFF_FFFF
    ensures forall c :: 0 <= c < |fat| && c !in chain ==> out[c] == fat[c]
  {
    out := fat;
    var i, n := 0, |chain|;
    while i < n
      invariant 0 <= i <= n && |out| == |fat|
      invariant forall k :: 0 <= k < i && k < n - 1 ==> out[chain[k]] == chain[k + 1]
      invariant i == n ==> out[chain[n - 1]] == END_MARK
      invariant forall c :: 0 <= c < |fat| && c !in chain ==> out[c] == fat[c]
    {
      out := out[chain[i] := if i + 1 < n then chain[i + 1] else END_MARK];
      i := i + 1;
    }
  }

  lemma ChainNotFree(fat: Fat, h: nat, ch: seq<nat>, c: nat)
    requires IsChain(fat, h, ch) && c in ch
    ensures c < |fat| && fat[c] != 0
  {
    var k: nat :| k < |ch| && ch[k] == c;
    if k < |ch| - 1 { assert fat[c] == ch[k + 1]; }
  }

  /** Allocates a chain of n clusters.  Succeeds exactly for 1..256 clusters that are free; a call that runs out
      of clusters leaves all of them reserved. */
  method AllocChain(fat: Fat, n: nat) returns (ok: bool, out: Fat, chain: seq<nat>)
    requires |fat| <= EOC
    ensures |out| == |fat|
    ensures ok <==> 1 <= n <= 256 && |FreeSet(fat)| >= n
    ensures ok ==> |chain| == n && IsChain(out, chain[0], chain) && Distinct(chain)
    ensures ok ==> out[chain[n - 1]] == 0x0FFF_FFFF && Lowest(fat, chain)
    ensures ok ==> forall c :: c in chain ==> c in FreeSet(fat)
    ensures ok ==> forall c :: 0 <= c < |fat| && c !in chain ==> out[c] == fat[c]
    ensures ok ==> FreeSet(out) == FreeSet(fat) - Members(chain)
    ensures n == 0 || n > MAX_CHAIN ==> out == fat
    ensures !ok && 1 <= n <= MAX_CHAIN ==> Reserved(fat, out, {}) && FreeSet(out) == {}
  {
    if n == 0 || n > MAX_CHAIN { return false, fat, []; }
    ok, out, chain := Reserve(fat, n);
    if !ok {
      assert forall c :: c in chain <==> c in Members(chain);
      return;
    }
    forall k | 0 <= k < n ensures 2 <= chain[k] < |fat| { assert chain[k] in chain; }
    out := LinkChain(out, chain);
    forall c | c in chain ensures out[c] != 0 { ChainNotFree(out, chain[0], chain, c); }
  }
}
