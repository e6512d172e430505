/** GPT partition entries: 128 bytes each, 128 to a table. */
module GptTable {
  import opened Basics
  import opened Bytes
  import opened Blocks

  const ENTRY: nat := 128
  const ENTRIES: nat := 128
  const NAME_AT: nat := 56
  const NAME_BYTES: nat := 72
  const NAME_KEPT: nat := 35
  const W64: nat := 0x1_0000_0000_0000_0000
  const SEED: nat := 0x7061_7274_2D31_2300
  const BASIC_DATA: Octets := [0xA2, 0xA0, 0xD0, 0xEB, 0xE5, 0xB9, 0x33, 0x44, 0x87, 0xC0, 0x68, 0xB6, 0xB7, 0x26,
      0x99, 0xC7]

  type Entry = e: Octets | |e| == ENTRY witness Zeroes(ENTRY)
  const EMPTY: Entry := Zeroes(ENTRY)


  // ----- names -----

  function NameByte(name: Octets, i: nat): nat {
    if i % 2 == 0 && i / 2 < NAME_KEPT && i / 2 < |name| then name[i / 2] else 0
  }

  /** Up to 35 characters as UTF-16 little-endian, padded with zeros. */
  function NameField(name: Octets): (b: Octets)
    ensures |b| == NAME_BYTES && forall i: nat :: i < NAME_BYTES ==> b[i] == NameByte(name, i)
  {
    seq(NAME_BYTES, i requires 0 <= i => NameByte(name, i))
  }

  function Unit(b: Octets, k: nat): nat
    requires 2 * k + 1 < |b|
  {
    b[2 * k] + 256 * b[2 * k + 1]
  }

  /** The characters from unit k on, up to a zero; anything beyond ASCII reads as a question mark. */
  function NameFrom(b: Octets, k: nat): Octets
    requires |b| == NAME_BYTES
    decreases NAME_BYTES - k
  {
    if 2 * k + 1 >= NAME_BYTES || Unit(b, k) == 0 then []
    else [if Unit(b, k) < 0x80 then Unit(b, k) else 63] + NameFrom(b, k + 1)
  }

  /** What a stored name reads as: its 16-bit units up to the first zero, as they are below 128 and as question marks
      from there on. */
  lemma {:induction false} NameChars(b: Octets, k: nat)
    requires |b| == 72 && k <= 36
    ensures var s := NameFrom(b, k);
            && k + |s| <= 36 && (k + |s| < 36 ==> b[2 * (k + |s|)] + 256 * b[2 * (k + |s|) + 1] == 0)
            && forall i: nat :: i < |s| ==> ReadsAs(b, k + i, s[i])
    decreases 36 - k
  {
    if k < 36 && Unit(b, k) != 0 {
      NameChars(b, k + 1);
      var s, rest := NameFrom(b, k), NameFrom(b, k + 1);
      forall i: nat | i < |s| ensures ReadsAs(b, k + i, s[i]) {
        if i > 0 { assert ReadsAs(b, k + 1 + (i - 1), rest[i - 1]); }
      }
    }
  }

  predicate ReadsAs(b: Octets, k: nat, c: nat) {
    && 2 * k + 1 < |b|
    && var u := b[2 * k] + 256 * b[2 * k + 1];
       u != 0 && c == if u < 128 then u else 63
  }

  predicate IsAscii(name: Octets) { forall k :: 0 <= k < |name| ==> 0 < name[k] < 0x80 }

  lemma UnitOf(name: Octets, k: nat)
    requires IsAscii(name) && 2 * k + 1 < NAME_BYTES
    ensures Unit(NameField(name), k) == if k < NAME_KEPT && k < |name| then name[k] else 0
  {
    assert NameByte(name, 2 * k + 1) == 0;
    assert (2 * k) / 2 == k;
  }

  lemma {:induction false} NameBackFrom(name: Octets, k: nat)
    requires IsAscii(name) && k <= Least(|name|, NAME_KEPT)
    ensures NameFrom(NameField(name), k) == name[k..Least(|name|, NAME_KEPT)]
    decreases Least(|name|, NAME_KEPT) - k
  {
    hide NameField, Unit;
    var n := Least(|name|, NAME_KEPT);
    UnitOf(name, k);
    if k < n {
      NameBackFrom(name, k + 1);
      assert name[k..n] == [name[k]] + name[k + 1..n];
    }
  }

  /** An ASCII name comes back, cut at 35 characters. */
  lemma NameBack(name: Octets)
    requires IsAscii(name)
    ensures NameFrom(NameField(name), 0) == name[..Least(|name|, NAME_KEPT)]
  {
    NameBackFrom(name, 0);
  }

  // ----- entries -----

  /** A slot is in use if its type is not all zeros. */
  predicate Live(e: Entry) { exists k :: 0 <= k < 16 && e[k] != 0 }

  /** What listing reports of an entry; the size is taken in 64 bits. */
  datatype Part = Part(start: nat, end: nat, size: nat, kind: Octets, name: Octets)

  function Extends(start: nat, end: nat): nat { (end - start + 1) % W64 }

  function PartOf(e: Entry): Part {
    var start, end := Num(e[32..40]), Num(e[40..48]);
    Part(start, end, Extends(start, end), e[..16], NameFrom(e[NAME_AT..], 0))
  }

  function Head(slot: nat, start: nat): (b: Octets)
    ensures |b| == 32
  {
    BASIC_DATA + Le((SEED + slot) % W64, 8) + Le(start, 8)
  }

  function Extent(start: nat, end: nat): (b: Octets)
    ensures |b| == 24
  {
    Le(start, 8) + Le(end, 8) + Le(0, 8)
  }

  /** The entry that create writes into a slot. */
  function NewEntry(slot: nat, start: nat, end: nat, name: Octets): Entry {
    Head(slot, start) + Extent(start, end) + NameField(name)
  }

  /** Resizing rewrites the end of the range. */
  function Resized(e: Entry, end: nat): Entry {
    e[..40] + Le(end, 8) + e[48..]
  }

  lemma NewEntryParts(slot: nat, start: nat, end: nat, name: Octets)
    ensures var e := NewEntry(slot, start, end, name);
            e[..16] == BASIC_DATA && e[0] == BASIC_DATA[0] && e[32..40] == Le(start, 8) && e[40..48] == Le(end, 8)
              && e[NAME_AT..] == NameField(name)
  {
    var head, extent, field := Head(slot, start), Extent(start, end), NameField(name);
    var e := NewEntry(slot, start, end, name);
    assert head[..16] == BASIC_DATA && head[0] == BASIC_DATA[0];
    hide Head, NameField;
    assert e[..16] == head[..16];
    assert e[32..56] == extent;
    assert extent[..8] == Le(start, 8) && extent[8..16] == Le(end, 8);
    Resliced(e, 32, 56, 0, 8);
    Resliced(e, 32, 56, 8, 16);
  }

  /** A new entry byte by byte: basic data; a GUID of a fixed part, the slot and the start; the range; no attributes;
      the name in 16-bit units. */
  lemma NewEntryBytes(slot: nat, start: nat, end: nat, name: Octets)
    requires slot < ENTRIES && start < W64 && end < W64
    ensures var e := NewEntry(slot, start, end, name);
            && |e| == 128
            && e[..8] == [0xA2, 0xA0, 0xD0, 0xEB, 0xE5, 0xB9, 0x33, 0x44]
            && e[8..16] == [0x87, 0xC0, 0x68, 0xB6, 0xB7, 0x26, 0x99, 0xC7]
            && Num(e[16..24]) == 0x7061_7274_2D31_2300 + slot && Num(e[24..32]) == start
            && Num(e[32..40]) == start && Num(e[40..48]) == end && Num(e[48..56]) == 0
            && forall k: nat :: k < 72 ==>
                 e[56 + k] == if k % 2 == 0 && k < 70 && k / 2 < |name| then name[k / 2] else 0
  {
    var head, extent, field := Head(slot, start), Extent(start, end), NameField(name);
    var e := NewEntry(slot, start, end, name);
    hide Le, Num, NameField;
    assert head[16..24] == Le(SEED + slot, 8) && head[24..32] == Le(start, 8);
    assert extent[..8] == Le(start, 8) && extent[8..16] == Le(end, 8) && extent[16..24] == Le(0, 8);
    hide Head, Extent;
    NewEntryParts(slot, start, end, name);
    assert e[..32] == head && e[32..56] == extent;
    hide NewEntry;
    assert e[..8] == e[..16][..8] && e[8..16] == e[..16][8..];
    Resliced(e, 0, 32, 16, 24);
    Resliced(e, 0, 32, 24, 32);
    Resliced(e, 32, 56, 16, 24);
    NumLe8(SEED + slot);
    NumLe8(start);
    NumLe8(end);
    NumLe8(0);
    assert forall k: nat :: k < 72 ==> e[56 + k] == e[NAME_AT..][k];
  }

  /** The partition that create is asked for. */
  function Asked(start: nat, end: nat, name: Octets): Part {
    Part(start, end, Extends(start, end), BASIC_DATA, name[..Least(|name|, NAME_KEPT)])
  }

  /** A created partition lists with the range, the type and the name it was given. */
  lemma CreatedPart(slot: nat, start: nat, end: nat, name: Octets)
    requires start < W64 && end < W64 && IsAscii(name)
    ensures var e := NewEntry(slot, start, end, name); Live(e) && PartOf(e) == Asked(start, end, name)
    ensures start <= end && end - start < 0xFFFF_FFFF_FFFF_FFFF ==> Asked(start, end, name).size == end - start + 1
  {
    hide NewEntry, Le, Num, Pow256, NameField;
    NewEntryParts(slot, start, end, name);
    assert BASIC_DATA[0] != 0;
    NumLe8(start);
    NumLe8(end);
    NameBack(name);
  }

  /** Entries of different slots have different partition GUIDs. */
  lemma GuidsDiffer(slot: nat, start: nat, end: nat, name: Octets, slot': nat, start': nat, end': nat, name': Octets)
    requires slot < ENTRIES && slot' < ENTRIES && slot != slot'
    ensures NewEntry(slot, start, end, name)[16..32] != NewEntry(slot', start', end', name')[16..32]
  {
    GuidStart(slot, start, end, name);
    GuidStart(slot', start', end', name');
    hide NewEntry, Le, Num;
    NumLe8(SEED + slot);
    NumLe8(SEED + slot');
    var g, g' := NewEntry(slot, start, end, name)[16..32], NewEntry(slot', start', end', name')[16..32];
    assert g[..8] != g'[..8];
  }

  lemma GuidStart(slot: nat, start: nat, end: nat, name: Octets)
    requires slot < ENTRIES
    ensures NewEntry(slot, start, end, name)[16..32][..8] == Le(SEED + slot, 8)
  {
    hide Le, NameField, Extent;
    var head := Head(slot, start);
    assert (SEED + slot) % W64 == SEED + slot;
    assert head[16..24] == Le(SEED + slot, 8);
    var e := NewEntry(slot, start, end, name);
    assert e[..32] == head;
    Resliced(e, 0, 32, 16, 24);
    Resliced(e, 16, 32, 0, 8);
  }

  lemma NumLe8(v: nat)
    requires v < W64
    ensures Num(Le(v, 8)) == v
  {
    Pow8();
    NumLe(v, 8);
  }

  lemma EmptyNotLive()
    ensures !Live(EMPTY)
  {}

  /** Resizing changes the end, and the size with it, and nothing else. */
  lemma ResizedPart(e: Entry, end: nat)
    requires end < W64
    ensures Live(Resized(e, end)) == Live(e)
    ensures PartOf(Resized(e, end)) == PartOf(e).(end := end, size := Extends(PartOf(e).start, end))
  {
    var r := Resized(e, end);
    assert r[..40] == e[..40];
    assert forall k :: 0 <= k < 16 ==> r[k] == r[..40][k] && e[k] == e[..40][k];
    Resliced(r, 0, 40, 32, 40);
    Resliced(e, 0, 40, 32, 40);
    assert r[40..48] == Le(end, 8);
    assert r[..16] == r[..40][..16] == e[..16];
    assert r[NAME_AT..] == e[NAME_AT..];
    hide Resized, Le, Num;
    NumLe8(end);
  }

  // ----- tables -----

  /** The live entries in slot order. */
  function Listing(t: seq<Entry>): seq<Part> {
    if t == [] then [] else Listing(t[..|t| - 1]) + (if Live(t[|t| - 1]) then [PartOf(t[|t| - 1])] else [])
  }

  predicate FirstFree(t: seq<Entry>, i: nat) {
    i < |t| && !Live(t[i]) && forall k :: 0 <= k < i ==> Live(t[k])
  }

  lemma {:induction false} ListingConcat(a: seq<Entry>, b: seq<Entry>)
    ensures Listing(a + b) == Listing(a) + Listing(b)
  {
    hide Live, PartOf;
    if b == [] {
      assert a + b == a;
    } else {
      var c := b[..|b| - 1];
      ListingConcat(a, c);
      assert (a + b)[..|a + b| - 1] == a + c;
    }
  }

  function Shown(e: Entry): seq<Part> { if Live(e) then [PartOf(e)] else [] }

  /** Changing one slot changes its part of the listing only. */
  lemma ListingSet(t: seq<Entry>, i: nat, e: Entry)
    requires i < |t|
    ensures Listing(t) == Listing(t[..i]) + Shown(t[i]) + Listing(t[i + 1..])
    ensures Listing(t[i := e]) == Listing(t[..i]) + Shown(e) + Listing(t[i + 1..])
  {
    hide Live, PartOf;
    ListingAround(t[..i], t[i], t[i + 1..]);
    assert t == t[..i] + [t[i]] + t[i + 1..];
    ListingAround(t[..i], e, t[i + 1..]);
    assert t[i := e] == t[..i] + [e] + t[i + 1..];
  }

  lemma ListingAround(a: seq<Entry>, e: Entry, b: seq<Entry>)
    ensures Listing(a + [e] + b) == Listing(a) + Shown(e) + Listing(b)
  {
    hide Live, PartOf;
    ListingConcat(a + [e], b);
    ListingConcat(a, [e]);
    assert [e][..0] == [] && Listing([e]) == Shown(e);
  }

  /** The scan for sixteen zero bytes. */
  method IsEmpty(e: Entry) returns (empty: bool)
    ensures empty == !Live(e)
  {
    empty := true;
    var k := 0;
    while k < 16
      invariant 0 <= k <= 16 && empty == forall j :: 0 <= j < k ==> e[j] == 0
    {
      if e[k] != 0 { empty := false; }
      k := k + 1;
    }
  }

  /** At most `max` of them. */
  function UpTo(parts: seq<Part>, max: nat): seq<Part> { if |parts| <= max then parts else parts[..max] }

  /** list_gpt on a table: the live entries in slot order, at most `max` of them. */
  method List(t: seq<Entry>, max: nat) returns (out: seq<Part>)
    ensures out == UpTo(Listing(t), max)
  {
    hide Live, PartOf;
    out := [];
    var i := 0;
    assert t[..0] == [];
    while i < |t| && |out| < max
      invariant 0 <= i <= |t| && out == Listing(t[..i]) && |out| <= max
    {
      assert t[..i + 1][..i] == t[..i];
      var empty := IsEmpty(t[i]);
      if !empty { out := out + [PartOf(t[i])]; }
      i := i + 1;
    }
    assert t == t[..i] + t[i..];
    ListingConcat(t[..i], t[i..]);
    if i == |t| { assert t[..i] == t; }
  }

  /** The first free slot, if any. */
  method FindFree(t: seq<Entry>) returns (found: bool, i: nat)
    ensures found ==> FirstFree(t, i)
    ensures !found ==> forall k :: 0 <= k < |t| ==> Live(t[k])
  {
    hide Live;
    i := 0;
    while i < |t|
      invariant 0 <= i <= |t| && forall k :: 0 <= k < i ==> Live(t[k])
    {
      var empty := IsEmpty(t[i]);
      if empty { return true, i; }
      i := i + 1;
    }
    found := false;
  }
}
