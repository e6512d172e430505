/** Names and paths as byte strings: 8.3 packing, splitting a path, its components. */
module FatName {
  import opened Basics
  import opened FatVolume

  const SLASH: nat := 47
  const PERIOD: nat := 46
  const SPACE: nat := 32
  const LEAF_CAP: nat := 16
  const PARENT_CAP: nat := 256

  type Text = seq<nat>

  predicate IsText(s: Text) { forall k :: 0 <= k < |s| ==> s[k] != 0 }

  function Upper(c: nat): nat { if 97 <= c <= 122 then c - 32 else c }

  function Uppers(s: Text): Text { seq(|s|, k requires 0 <= k < |s| => Upper(s[k])) }

  // ----- to_83 and name_from_83 -----

  function FirstDot(s: Text): (n: nat)
    ensures n <= |s| && (n < |s| ==> s[n] == PERIOD) && forall k :: 0 <= k < n ==> s[k] != PERIOD
  {
    if s == [] || s[0] == PERIOD then 0 else 1 + FirstDot(s[1..])
  }

  function Extension(s: Text): Text {
    if FirstDot(s) < |s| then s[FirstDot(s) + 1..] else []
  }

  function Cell(s: Text, k: nat): nat { if k < |s| then Upper(s[k]) else SPACE }

  function PackedByte(s: Text, k: nat): nat {
    if k < 8 then Cell(s[..FirstDot(s)], k) else Cell(Extension(s), k - 8)
  }

  /** The base up to the first dot and the extension behind it, upper-cased, cut to 8 and 3, padded. */
  function Pack(s: Text): Name {
    [PackedByte(s, 0), PackedByte(s, 1), PackedByte(s, 2), PackedByte(s, 3), PackedByte(s, 4), PackedByte(s, 5),
     PackedByte(s, 6), PackedByte(s, 7), PackedByte(s, 8), PackedByte(s, 9), PackedByte(s, 10)]
  }

  method To83(s: Text) returns (out: Name)
    ensures out == Pack(s)
  {
    out := [SPACE, SPACE, SPACE, SPACE, SPACE, SPACE, SPACE, SPACE, SPACE, SPACE, SPACE];
    var dot := 0;
    while dot < |s| && s[dot] != PERIOD
      invariant 0 <= dot <= FirstDot(s)
    {
      dot := dot + 1;
    }
    assert dot == FirstDot(s);
    var ext := if dot == |s| then [] else s[dot + 1..];
    assert ext == Extension(s);
    hide FirstDot, Extension, Pack;
    out := CopyCells(out, 0, s[..dot], Least(dot, 8));
    ghost var half := out;
    out := CopyCells(out, 8, ext, Least(|ext|, 3));
    forall k: nat | k < 11 ensures out[k] == PackedByte(s, k) {
      assert half[k] == if k < 8 then Cell(s[..dot], k) else SPACE;
      if k >= 8 { assert out[8 + (k - 8)] == Cell(ext, k - 8); }
    }
    PackAt(s);
  }

  /** Copies n bytes, upper-cased, to the cells from `at` on. */
  method CopyCells(cells: Name, at: nat, s: Text, n: nat) returns (out: Name)
    requires n <= |s| && at + n <= 11
    ensures forall k: nat :: k < 11 ==> out[k] == if at <= k < at + n then Upper(s[k - at]) else cells[k]
  {
    out := cells;
    var i := 0;
    while i < n
      invariant 0 <= i <= n && |out| == 11
      invariant forall k: nat :: k < 11 ==> out[k] == if at <= k < at + i then Upper(s[k - at]) else cells[k]
    {
      out := out[at + i := Upper(s[i])];
      i := i + 1;
    }
  }

  /** No packed name starts like a dot entry or an end marker, so paths never name "." or "..". */
  lemma PackFirst(s: Text)
    requires s != [] && IsText(s)
    ensures Pack(s)[0] != PERIOD && Pack(s)[0] != 0
    ensures Pack(s)[0] == DELETED <==> s[0] == DELETED
  {}

  /** Byte x of a name as it is packed: small letters become capitals, all else stays. */
  predicate Capital(x: nat, y: nat) { if 97 <= x <= 122 then y == x - 32 else y == x }

  /** What a packed name holds: the capitals of up to eight bytes before the first dot and of up to three behind it,
      and spaces. */
  lemma PackBytes(s: Text, dot: nat)
    requires dot <= |s| && (dot < |s| ==> s[dot] == 46) && forall k :: 0 <= k < dot ==> s[k] != 46
    ensures forall k: nat :: k < 8 ==> if k < dot then Capital(s[k], Pack(s)[k]) else Pack(s)[k] == 32
    ensures forall k: nat :: 8 <= k < 11 ==>
              if dot + k - 7 < |s| then Capital(s[dot + k - 7], Pack(s)[k]) else Pack(s)[k] == 32
    ensures forall k: nat :: k < 11 ==> !(97 <= Pack(s)[k] <= 122)
  {
    hide Pack;
    assert FirstDot(s) == dot;
    PackAt(s);
    hide FirstDot;
  }

  /** Equal up to case. */
  predicate SameLetter(x: nat, y: nat) {
    x == y || (65 <= x <= 90 && y == x + 32) || (65 <= y <= 90 && x == y + 32)
  }

  predicate SameLetters(s: Text, t: Text) {
    |s| == |t| && forall k :: 0 <= k < |s| ==> SameLetter(s[k], t[k])
  }

  lemma SameUppers(s: Text, t: Text)
    ensures Uppers(s) == Uppers(t) <==> SameLetters(s, t)
  {
    if Uppers(s) == Uppers(t) {
      assert forall k :: 0 <= k < |s| ==> Upper(s[k]) == Uppers(s)[k] == Uppers(t)[k] == Upper(t[k]);
    }
  }

  function UntilSpace(s: Text): (n: nat)
    ensures n <= |s| && (n < |s| ==> s[n] == SPACE) && forall k :: 0 <= k < n ==> s[k] != SPACE
  {
    if s == [] || s[0] == SPACE then 0 else 1 + UntilSpace(s[1..])
  }

  function Unpack(raw: Name): Text {
    raw[..UntilSpace(raw[..8])] +
    if raw[8] != SPACE || raw[9] != SPACE || raw[10] != SPACE then [PERIOD] + raw[8..][..UntilSpace(raw[8..])] else []
  }

  method NameFrom83(raw: Name) returns (out: Text)
    ensures out == Unpack(raw)
  {
    out := [];
    var k := 0;
    while k < 8 && raw[k] != SPACE
      invariant 0 <= k <= UntilSpace(raw[..8]) && out == raw[..k]
    {
      out := out + [raw[k]];
      k := k + 1;
    }
    var has := false;
    k := 8;
    while k < 11
      invariant 8 <= k <= 11 && has == exists m :: 8 <= m < k && raw[m] != SPACE
    {
      if raw[k] != SPACE { has := true; }
      k := k + 1;
    }
    if has {
      out := out + [PERIOD];
      ghost var base := out;
      k := 8;
      while k < 11 && raw[k] != SPACE
        invariant 8 <= k <= 11 && k - 8 <= UntilSpace(raw[8..]) && out == base + raw[8..k]
      {
        out := out + [raw[k]];
        k := k + 1;
      }
      assert raw[8..][..UntilSpace(raw[8..])] == raw[8..k];
    }
  }

  /** An 8.3 name: 1 to 8 bytes, then nothing or a dot and 1 to 3 bytes, no spaces. */
  predicate Is83(s: Text) {
    var dot := FirstDot(s);
    1 <= dot <= 8 && (dot < |s| ==> 1 <= |s| - dot - 1 <= 3) && forall k :: 0 <= k < |s| ==> s[k] != SPACE
  }

  lemma SpaceAt(s: Text, n: nat)
    requires n <= |s| && (n < |s| ==> s[n] == SPACE) && forall k :: 0 <= k < n ==> s[k] != SPACE
    ensures UntilSpace(s) == n
  {}

  lemma PackAt(s: Text)
    ensures forall k: nat :: k < 11 ==> Pack(s)[k] == PackedByte(s, k)
  {
    hide PackedByte;
  }

  /** Cells of a short text without spaces, read up to the first space, give the text. */
  lemma CellsBack(cells: Text, s: Text)
    requires |s| <= |cells| && (forall k :: 0 <= k < |s| ==> s[k] != SPACE) && forall k: nat :: k < |cells| ==>
             cells[k] == Cell(s, k)
    ensures UntilSpace(cells) == |s| && cells[..|s|] == Uppers(s) && forall k: nat :: |s| <= k < |cells| ==>
            cells[k] == SPACE
  {
    SpaceAt(cells, |s|);
  }

  /** Packing an 8.3 name loses only its case: it comes back in capitals. */
  lemma PackRoundTrip(s: Text)
    requires Is83(s)
    ensures Unpack(Pack(s)) == Uppers(s)
    ensures |Unpack(Pack(s))| == |s| && forall k :: 0 <= k < |s| ==> Capital(s[k], Unpack(Pack(s))[k])
  {
    hide Pack, FirstDot, UntilSpace, Cell;
    var dot, raw, ext := FirstDot(s), Pack(s), Extension(s);
    PackAt(s);
    assert forall k: nat :: k < 8 ==> raw[..8][k] == raw[k];
    CellsBack(raw[..8], s[..dot]);
    assert forall k: nat :: k < 3 ==> raw[8..][k] == raw[8 + k];
    CellsBack(raw[8..], ext);
    HasExtension(raw, ext);
    assert raw[..dot] == raw[..8][..dot];
    assert Uppers(s) == Uppers(s[..dot]) + (if ext == [] then [] else [PERIOD] + Uppers(ext));
  }

  lemma HasExtension(raw: Name, ext: Text)
    requires UntilSpace(raw[8..]) == |ext| <= 3 && (ext == [] ==> forall k: nat :: k < 3 ==> raw[8..][k] == SPACE)
    ensures ext == [] <==> raw[8] == SPACE && raw[9] == SPACE && raw[10] == SPACE
  {
    assert raw[8..][0] == raw[8] && raw[8..][1] == raw[9] && raw[8..][2] == raw[10];
  }

  /** So names that differ in more than case stay different on disk. */
  lemma PackInjective(s: Text, t: Text)
    requires Is83(s) && Is83(t)
    ensures Pack(s) == Pack(t) <==> SameLetters(s, t)
  {
    hide Unpack, Pack, Is83, Uppers;
    PackRoundTrip(s);
    PackRoundTrip(t);
    SameUppers(s, t);
    if Uppers(s) == Uppers(t) { CaseBlind(s, t); }
  }

  lemma CaseBlind(s: Text, t: Text)
    requires SameLetters(s, t)
    ensures Pack(s) == Pack(t)
  {
    SameUppers(s, t);
    hide Pack;
    assert forall k :: 0 <= k < |s| ==> Uppers(s)[k] == Upper(s[k]) && Uppers(t)[k] == Upper(t[k]);
    assert FirstDot(s) == FirstDot(t);
    PackAt(s);
    PackAt(t);
    hide FirstDot;
    assert forall k: nat :: k < 11 ==> PackedByte(s, k) == PackedByte(t, k);
  }

  // ----- split_last -----

  /** The length without trailing slashes; a lone slash stays. */
  function StripLen(path: Text, n: nat): (r: nat)
    requires n <= |path|
    ensures r <= n && (r > 1 ==> path[r - 1] != SLASH) && (forall k :: r <= k < n ==> path[k] == SLASH)
    ensures (n > 0 ==> r > 0)
  {
    if n > 1 && path[n - 1] == SLASH then StripLen(path, n - 1) else n
  }

  /** One past the last slash among the first n bytes, or 0. */
  function AfterSlash(path: Text, n: nat): (r: nat)
    requires n <= |path|
    ensures r <= n && (r > 0 ==> path[r - 1] == SLASH) && (forall k :: r <= k < n ==> path[k] != SLASH)
  {
    if n == 0 then 0 else if path[n - 1] == SLASH then n else AfterSlash(path, n - 1)
  }

  /** Parent and leaf of a path, as far as they fit their buffers. */
  function Split(path: Text): Option<(Text, Text)> {
    var len := StripLen(path, |path|);
    var cut := AfterSlash(path, len);
    var leaf := path[cut..len];
    if leaf == [] || |leaf| + 1 > LEAF_CAP then None
    else if cut <= 1 then Some(([SLASH], leaf))
    else if cut > PARENT_CAP then None
    else Some((path[..cut - 1], leaf))
  }

  method SplitLast(path: Text) returns (r: Option<(Text, Text)>)
    ensures r == Split(path)
  {
    var len := |path|;
    while len > 1 && path[len - 1] == SLASH
      invariant 0 <= len <= |path| && StripLen(path, len) == StripLen(path, |path|)
    {
      len := len - 1;
    }
    var cut, i := 0, 0;
    while i < len
      invariant 0 <= i <= len && cut == AfterSlash(path, i)
    {
      if path[i] == SLASH { cut := i + 1; }
      i := i + 1;
    }
    if cut == 0 {
      if len + 1 > LEAF_CAP || len == 0 { return None; }
      assert path[0..len] == path[..len];
      return Some(([SLASH], path[..len]));
    }
    var llen := len - cut;
    if llen == 0 || llen + 1 > LEAF_CAP { return None; }
    if cut == 1 { return Some(([SLASH], path[cut..len])); }
    if cut > PARENT_CAP { return None; }
    r := Some((path[..cut - 1], path[cut..len]));
  }

  function Slashes(n: nat): Text { seq(n, _ => SLASH) }

  /** The parts put back together give the path, up to slashes at the end and a missing one in front. */
  lemma SplitJoins(path: Text)
    ensures Split(path).Some? ==>
              var (parent, leaf) := Split(path).value;
              && 1 <= |leaf| < LEAF_CAP && SLASH !in leaf && 1 <= |parent| < PARENT_CAP
              && exists n: nat ::
                   || path == parent + [SLASH] + leaf + Slashes(n)
                   || (parent == [SLASH] && (path == leaf + Slashes(n) || path == [SLASH] + leaf + Slashes(n)))
  {
    var len := StripLen(path, |path|);
    var cut := AfterSlash(path, len);
    Pieces(path, cut, len);
    hide StripLen, AfterSlash, Slashes;
  }

  /** A parent and a leaf joined by a slash split again, exactly if they fit 255 and 15 bytes. */
  lemma SplitBack(parent: Text, leaf: Text)
    requires parent != [] && leaf != [] && 47 !in leaf
    ensures Split(parent + [47] + leaf) ==
              if |parent| <= 255 && |leaf| <= 15 then Some((parent, leaf)) else None
  {
    var path := parent + [47] + leaf;
    assert path[|path| - 1] == leaf[|leaf| - 1] && path[|path| - 1] in leaf;
    assert StripLen(path, |path|) == |path|;
    var cut := AfterSlash(path, |path|);
    assert path[|parent|] == 47;
    assert forall k :: |parent| < k < |path| ==> path[k] == leaf[k - |parent| - 1] && path[k] in leaf;
    assert cut == |parent| + 1;
    hide StripLen, AfterSlash;
    assert path[cut..|path|] == leaf && path[..cut - 1] == parent;
  }

  lemma Pieces(path: Text, cut: nat, len: nat)
    requires cut <= len <= |path| && (forall k :: len <= k < |path| ==> path[k] == SLASH)
    requires (cut > 0 ==> path[cut - 1] == SLASH)
    ensures var leaf, n := path[cut..len], |path| - len;
            && (cut == 0 ==> path == leaf + Slashes(n)) && (cut == 1 ==> path == [SLASH] + leaf + Slashes(n))
            && (cut > 1 ==> path == path[..cut - 1] + [SLASH] + leaf + Slashes(n))
  {
    assert path[len..] == Slashes(|path| - len);
  }

  // ----- components -----

  function SkipSlashes(path: Text, p: nat): (q: nat)
    requires p <= |path|
    ensures p <= q <= |path| && (q < |path| ==> path[q] != SLASH) && forall k :: p <= k < q ==> path[k] == SLASH
    decreases |path| - p
  {
    if p < |path| && path[p] == SLASH then SkipSlashes(path, p + 1) else p
  }

  /** The end of the component that starts at p: the next slash, the end, or 15 bytes on. */
  function CompEnd(path: Text, p: nat, n: nat): (q: nat)
    requires p <= |path|
    ensures p <= q <= |path| && q - p <= n && (forall k :: p <= k < q ==> path[k] != SLASH)
    ensures q < |path| && q - p < n ==> path[q] == SLASH
    decreases |path| - p
  {
    if p < |path| && path[p] != SLASH && n > 0 then CompEnd(path, p + 1, n - 1) else p
  }

  /** The components a walk from position p takes; a stretch of more than 15 bytes is cut. */
  function Comps(path: Text, p: nat): seq<Text>
    requires p <= |path|
    decreases |path| - p
  {
    var q := SkipSlashes(path, p);
    if q == |path| then [] else var e := CompEnd(path, q, 15); [path[q..e]] + Comps(path, e)
  }

  function Join(names: seq<Text>): Text {
    if names == [] then [] else [SLASH] + names[0] + Join(names[1..])
  }

  predicate IsComp(s: Text) { 1 <= |s| <= 15 && SLASH !in s }

  lemma {:induction false} CompEndAt(path: Text, p: nat, n: nat, q: nat)
    requires p <= q <= |path| && q - p <= n && (forall k :: p <= k < q ==> path[k] != SLASH)
    requires (q < |path| ==> path[q] == SLASH)
    ensures CompEnd(path, p, n) == q
  {}

  lemma FirstComp(path: Text, p: nat, s: Text)
    requires IsComp(s) && p + 1 + |s| <= |path| && path[p] == SLASH && path[p + 1..p + 1 + |s|] == s
    requires p + 1 + |s| < |path| ==> path[p + 1 + |s|] == SLASH
    ensures Comps(path, p) == [s] + Comps(path, p + 1 + |s|)
  {
    assert forall k :: p + 1 <= k < p + 1 + |s| ==> path[k] == s[k - p - 1] && s[k - p - 1] in s;
    CompEndAt(path, p + 1, 15, p + 1 + |s|);
    assert SkipSlashes(path, p) == p + 1 by { assert path[p + 1] != SLASH; assert SkipSlashes(path, p + 1) == p + 1; }
  }

  lemma JoinStep(pre: Text, names: seq<Text>)
    requires names != []
    ensures var s, path := names[0], pre + Join(names);
            && path == pre + [SLASH] + s + Join(names[1..]) && |pre| + 1 + |s| <= |path|
            && path[|pre|] == SLASH && path[|pre| + 1..|pre| + 1 + |s|] == s
            && (|pre| + 1 + |s| < |path| ==> path[|pre| + 1 + |s|] == SLASH)
  {
    var rest := Join(names[1..]);
    assert rest != [] ==> rest[0] == SLASH;
    hide Join;
    assert Join(names) == [SLASH] + names[0] + rest by { JoinDef(names); }
    var next := pre + [SLASH] + names[0];
    assert pre + Join(names) == next + rest;
    assert (next + rest)[|pre| + 1..|next|] == names[0];
  }

  lemma JoinDef(names: seq<Text>)
    requires names != []
    ensures Join(names) == [SLASH] + names[0] + Join(names[1..])
  {}

  lemma CompsEnd(path: Text)
    ensures Comps(path, |path|) == []
  {}

  /** Joining components with slashes and walking the result gives the components back. */
  lemma {:induction false} CompsJoin(pre: Text, names: seq<Text>)
    requires forall k :: 0 <= k < |names| ==> IsComp(names[k])
    ensures Comps(pre + Join(names), |pre|) == names
    decreases |names|
  {
    hide Comps, IsComp;
    if names == [] {
      assert pre + Join(names) == pre;
      CompsEnd(pre);
    } else {
      hide Join;
      var s := names[0];
      JoinStep(pre, names);
      FirstComp(pre + Join(names), |pre|, s);
      CompsJoin(pre + [SLASH] + s, names[1..]);
    }
  }

  // ----- paths that differ in case only -----

  lemma {:induction false} SameStrip(p: Text, q: Text, n: nat)
    requires SameLetters(p, q) && n <= |p|
    ensures StripLen(p, n) == StripLen(q, n) && AfterSlash(p, n) == AfterSlash(q, n)
  {
    if n > 0 { SameStrip(p, q, n - 1); }
  }

  lemma SameSlice(p: Text, q: Text, i: nat, j: nat)
    requires SameLetters(p, q) && i <= j <= |p|
    ensures SameLetters(p[i..j], q[i..j])
  {}

  lemma {:induction false} SameSkip(p: Text, q: Text, i: nat)
    requires SameLetters(p, q) && i <= |p|
    ensures SkipSlashes(p, i) == SkipSlashes(q, i)
    decreases |p| - i
  {
    if i < |p| { SameSkip(p, q, i + 1); }
  }

  lemma {:induction false} SameCompEnd(p: Text, q: Text, i: nat, n: nat)
    requires SameLetters(p, q) && i <= |p|
    ensures CompEnd(p, i, n) == CompEnd(q, i, n)
    decreases n
  {
    if i < |p| && n > 0 { SameCompEnd(p, q, i + 1, n - 1); }
  }

  predicate SameNames(cs: seq<Text>, ds: seq<Text>) {
    |cs| == |ds| && forall k :: 0 <= k < |cs| ==> SameLetters(cs[k], ds[k])
  }

  lemma {:induction false} SameComps(p: Text, q: Text, i: nat)
    requires SameLetters(p, q) && i <= |p|
    ensures SameNames(Comps(p, i), Comps(q, i))
    decreases |p| - i
  {
    SameSkip(p, q, i);
    var k := SkipSlashes(p, i);
    if k < |p| {
      SameCompEnd(p, q, k, 15);
      var e := CompEnd(p, k, 15);
      SameSlice(p, q, k, e);
      hide SameLetters;
      SameComps(p, q, e);
    }
  }

  lemma SameSplit(p: Text, q: Text)
    requires SameLetters(p, q)
    ensures Split(p).Some? <==> Split(q).Some?
    ensures Split(p).Some? ==>
              SameLetters(Split(p).value.0, Split(q).value.0) && SameLetters(Split(p).value.1, Split(q).value.1)
  {
    SameStrip(p, q, |p|);
    var len := StripLen(p, |p|);
    SameStrip(p, q, len);
    var cut := AfterSlash(p, len);
    SameSlice(p, q, cut, len);
    if cut > 1 { SameSlice(p, q, 0, cut - 1); }
    hide StripLen, AfterSlash;
  }
}
