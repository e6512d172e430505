/** File data: writing a byte string over a chain of clusters and reading it back. */
module FatFile {
  import opened Basics
  import opened FatChain
  import opened FatVolume

  function Piece(blk: seq<Block>, c: nat): seq<nat> { if c < |blk| && blk[c].Data? then blk[c].bytes else [] }

  lemma NoContent(blk: seq<Block>)
    ensures Content(blk, []) == []
  {}

  lemma ContentHead(blk: seq<Block>, ch: seq<nat>)
    requires ch != []
    ensures Content(blk, ch) == Piece(blk, ch[0]) + Content(blk, ch[1..])
  {}

  lemma {:induction false} ContentConcat(blk: seq<Block>, a: seq<nat>, b: seq<nat>)
    ensures Content(blk, a + b) == Content(blk, a) + Content(blk, b)
  {
    hide Content, Piece;
    if a == [] {
      NoContent(blk);
      assert a + b == b;
    } else {
      ContentConcat(blk, a[1..], b);
      ContentHead(blk, a);
      ContentHead(blk, a + b);
      assert (a + b)[1..] == a[1..] + b;
      Associative(Piece(blk, a[0]), Content(blk, a[1..]), Content(blk, b));
    }
  }

  lemma Associative(x: seq<nat>, y: seq<nat>, z: seq<nat>)
    ensures (x + y) + z == x + (y + z)
  {}

  lemma ContentSnoc(blk: seq<Block>, ch: seq<nat>, c: nat)
    requires c < |blk| && blk[c].Data?
    ensures Content(blk, ch + [c]) == Content(blk, ch) + blk[c].bytes
  {
    hide Content;
    ContentConcat(blk, ch, [c]);
    ContentHead(blk, [c]);
    NoContent(blk);
    assert [c][1..] == [];
  }

  function ClustersFor(len: nat, bpc: nat): nat
    requires bpc > 0
  {
    (len + bpc - 1) / bpc
  }

  /** Enough clusters, and none too many. */
  lemma ClustersForFits(len: nat, bpc: nat)
    requires bpc > 0
    ensures len <= ClustersFor(len, bpc) * bpc < len + bpc
  {
    var n := ClustersFor(len, bpc);
    assert len + bpc - 1 == n * bpc + (len + bpc - 1) % bpc;
  }

  function Zeros(n: nat): (z: seq<nat>)
    ensures |z| == n && forall k :: 0 <= k < n ==> z[k] == 0
  {
    seq(n, _ => 0)
  }

  /** One cluster's worth of data, zero-filled. */
  function Chunk(data: seq<nat>, off: nat, bpc: nat): seq<nat>
    requires off <= |data|
  {
    var n := Least(|data| - off, bpc);
    data[off..off + n] + Zeros(bpc - n)
  }

  /** Writes data over the clusters of the chain, the last one zero-filled. */
  method WriteData(blk: seq<Block>, bpc: nat, chain: seq<nat>, data: seq<nat>) returns (out: seq<Block>)
    requires bpc > 0 && Distinct(chain) && (forall k :: 0 <= k < |chain| ==> chain[k] < |blk|)
    requires |chain| == ClustersFor(|data|, bpc)
    ensures |out| == |blk| && forall c :: 0 <= c < |blk| && c !in chain ==> out[c] == blk[c]
    ensures forall c :: c in chain ==> out[c].Data? && |out[c].bytes| == bpc
    ensures |data| <= |chain| * bpc && Content(out, chain) == data + Zeros(|chain| * bpc - |data|)
  {
    hide Content, ClustersFor, Chunk, Distinct;
    NoContent(blk);
    out := blk;
    var i, off := 0, 0;
    while i < |chain|
      invariant 0 <= i <= |chain| && off == Least(i * bpc, |data|) && |out| == |blk|
      invariant forall c :: 0 <= c < |blk| && c !in chain[..i] ==> out[c] == blk[c]
      invariant forall k :: 0 <= k < i ==> out[chain[k]].Data? && |out[chain[k]].bytes| == bpc
      invariant off <= i * bpc && Content(out, chain[..i]) == data[..off] + Zeros(i * bpc - off)
    {
      ghost var before := out;
      var bytes := Chunk(data, off, bpc);
      out := out[chain[i] := Data(bytes)];
      StoreOne(before, out, chain, i, bytes);
      StepBytes(i, bpc, off, data, Content(before, chain[..i]), bytes);
      off := off + Least(|data| - off, bpc);
      i := i + 1;
    }
    assert chain[..i] == chain;
    ClustersForFits(|data|, bpc);
    assert off == |data| && data[..off] == data;
    forall c | c in chain ensures out[c].Data? && |out[c].bytes| == bpc {
      var k: nat :| k < |chain| && chain[k] == c;
    }
  }

  lemma StoreOne(blk: seq<Block>, out: seq<Block>, chain: seq<nat>, i: nat, bytes: seq<nat>)
    requires i < |chain| && Distinct(chain) && (forall k :: 0 <= k < |chain| ==> chain[k] < |blk|)
    requires out == blk[chain[i] := Data(bytes)]
    ensures Content(out, chain[..i + 1]) == Content(blk, chain[..i]) + bytes
  {
    assert chain[..i + 1] == chain[..i] + [chain[i]];
    ContentSnoc(out, chain[..i], chain[i]);
    ContentFrame(blk, out, chain[..i]);
  }

  lemma StepBytes(i: nat, bpc: nat, off: nat, data: seq<nat>, soFar: seq<nat>, bytes: seq<nat>)
    requires off == Least(i * bpc, |data|) && soFar == data[..off] + Zeros(i * bpc - off)
    requires bytes == Chunk(data, off, bpc)
    ensures var off' := off + Least(|data| - off, bpc);
            off' == Least((i + 1) * bpc, |data|) && soFar + bytes == data[..off'] + Zeros((i + 1) * bpc - off')
  {
    assert (i + 1) * bpc == i * bpc + bpc;
    var n := Least(|data| - off, bpc);
    assert data[..off + n] == data[..off] + data[off..off + n];
    if off < i * bpc { assert n == 0; }
  }

  lemma ChainStep(fat: Fat, first: nat, ch: seq<nat>, k: nat)
    requires IsChain(fat, first, ch) && k < |ch|
    ensures ch[k] < |fat| && IsCluster(ch[k]) && ch[0] == first
    ensures if k + 1 < |ch| then fat[ch[k]] == ch[k + 1] else fat[ch[k]] >= EOC
  {}

  lemma NonEmpty(fat: Fat, first: nat, ch: seq<nat>)
    requires IsChain(fat, first, ch)
    ensures ch != []
  {}

  lemma CopyStep(soFar: seq<nat>, bytes: seq<nat>, want: nat, out: seq<nat>)
    requires |out| == Least(|soFar|, want) < want && out == soFar[..|out|]
    ensures var next := out + bytes[..Least(want - |out|, |bytes|)];
            |next| == Least(|soFar + bytes|, want) && next == (soFar + bytes)[..|next|]
  {}

  lemma ContentTake(blk: seq<Block>, ch: seq<nat>, k: nat)
    requires k < |ch| && ch[k] < |blk| && blk[ch[k]].Data?
    ensures Content(blk, ch[..k + 1]) == Content(blk, ch[..k]) + blk[ch[k]].bytes
  {
    assert ch[..k + 1] == ch[..k] + [ch[k]];
    ContentSnoc(blk, ch[..k], ch[k]);
  }

  /** Copies at most `want` bytes along a chain. */
  method ReadData(fat: Fat, blk: seq<Block>, first: nat, want: nat, ghost ch: seq<nat>) returns (out: seq<nat>)
    requires IsChain(fat, first, ch) && |blk| == |fat| && (forall c :: c in ch && c < |blk| ==> blk[c].Data?)
    requires want <= |Content(blk, ch)|
    ensures out == Content(blk, ch)[..want]
  {
    hide Content, IsChain;
    NonEmpty(fat, first, ch);
    ChainStep(fat, first, ch, 0);
    assert ch[..0] == [];
    NoContent(blk);
    out := [];
    var cluster: nat := first;
    ghost var k: nat := 0;
    while |out| < want && 2 <= cluster < EOC
      invariant k <= |ch| && (if k < |ch| then cluster == ch[k] else cluster >= EOC)
      invariant |out| == Least(|Content(blk, ch[..k])|, want) && out == Content(blk, ch[..k])[..|out|]
      decreases |ch| - k
    {
      ChainStep(fat, first, ch, k);
      assert ch[k] in ch;
      var bytes := blk[cluster].bytes;
      ContentTake(blk, ch, k);
      CopyStep(Content(blk, ch[..k]), bytes, want, out);
      out := out + bytes[..Least(want - |out|, |bytes|)];
      cluster := fat[cluster];
      k := k + 1;
    }
    assert ch == ch[..k] + ch[k..];
    ContentConcat(blk, ch[..k], ch[k..]);
    if k < |ch| { ChainStep(fat, first, ch, k); } else { assert ch[..k] == ch; }
  }
}
