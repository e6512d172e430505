/** mkfs and mount: the FAT-size iteration, the sectors that format writes, and what open recovers. */
module FatFormat {
  import opened Basics
  import opened Bytes
  import opened FatChain
  import opened FatVolume
  import opened FatGrow

  const SECTOR: nat := 512
  const RESERVED: nat := 32
  const NUM_FATS: nat := 2
  const FLOOR: nat := 65525
  const LIMIT: nat := 0x1_0000_0000

  /** Below this size the FAT-size arithmetic stays inside 32 bits. */
  const HUGE: nat := 0xFFF_FFFF_E000

  /** Below this size mounting counts the clusters that formatting laid out. */
  const MOUNTABLE: nat := 0x1_0000_0020

  /** Sectors per cluster by volume size; 0 rejects. */
  function PickSpc(size: nat): nat {
    if size < 16384 then 0
    else if size < 532480 then 1
    else if size < 16777216 then 8
    else if size < 33554432 then 16
    else if size < 67108864 then 32
    else 64
  }

  function Clusters(size: nat, spc: nat, fat: nat): nat
    requires RESERVED + NUM_FATS * fat <= size && spc > 0
  {
    (size - RESERVED - NUM_FATS * fat) / spc
  }

  /** FAT sectors that `clusters` entries of four bytes take. */
  function Need(clusters: nat): nat { (clusters + 127) / 128 }

  /** As many as they need, and no more. */
  lemma NeedLeast(clusters: nat)
    ensures 512 * Need(clusters) >= 4 * clusters && (clusters > 0 ==> 512 * (Need(clusters) - 1) < 4 * clusters)
  {}

  /** The size the iteration stops at. */
  function FatSectors(size: nat): nat
    requires PickSpc(size) != 0
  {
    var first := Need(Clusters(size, PickSpc(size), 32));
    if first <= 32 then 32 else first
  }

  /** The first correction is final: a larger table leaves fewer clusters. */
  lemma FixedPoint(size: nat)
    requires PickSpc(size) != 0 && size < HUGE
    ensures var fat := FatSectors(size);
            RESERVED + NUM_FATS * fat <= size && Need(Clusters(size, PickSpc(size), fat)) <= fat && 32 <= fat
              && NUM_FATS * fat < LIMIT
  {
    var spc := PickSpc(size);
    assert spc == 1 || spc == 8 || spc == 16 || spc == 32 || spc == 64;
  }

  /** Although only `clusters` entries are asked for, the two reserved entries fit too. */
  lemma TwoMoreEntries(size: nat)
    requires PickSpc(size) != 0 && size < HUGE
    ensures var fat := FatSectors(size); RESERVED + NUM_FATS * fat <= size
    ensures var clusters := Clusters(size, PickSpc(size), FatSectors(size));
            clusters >= FLOOR ==> clusters + 2 <= 128 * FatSectors(size) && (size < MOUNTABLE ==> clusters + 2 < EOC)
  {
    FixedPoint(size);
    var spc := PickSpc(size);
    assert spc == 1 || spc == 8 || spc == 16 || spc == 32 || spc == 64;
  }

  /** The iteration of canboot_fat32_format; it leaves by its break, at the latest in the second round. */
  method SizeFat(size: nat, spc: nat) returns (fat: nat, ghost rounds: nat)
    requires spc == PickSpc(size) != 0 && size < HUGE
    ensures fat == FatSectors(size) && Need(Clusters(size, spc, fat)) <= fat && rounds <= 2
  {
    FixedPoint(size);
    fat, rounds := 32, 0;
    var iter := 0;
    while iter < 32
      invariant 0 <= iter == rounds <= 1 && (if iter == 0 then fat == 32 else fat == FatSectors(size))
      invariant RESERVED + NUM_FATS * fat <= size
    {
      rounds := rounds + 1;
      var need := Need(Clusters(size, spc, fat));
      if need <= fat { break; }
      fat := need;
      iter := iter + 1;
    }
  }

  // ----- the boot sector -----

  const SERIAL: nat := 0xCA17_B007
  const OEM: seq<nat> := [77, 83, 87, 73, 78, 52, 46, 49]
  const FS_TYPE: seq<nat> := [70, 65, 84, 51, 50, 32, 32, 32]

  function ShapeFields(spc: nat): seq<Field> {
    [Field(0, [0xEB, 0x58, 0x90]), Field(3, OEM),
     Field(11, Le(SECTOR, 2)), Field(13, [spc]), Field(14, Le(RESERVED, 2)), Field(16, [NUM_FATS]),
     Field(17, Le(0, 2)), Field(19, Le(0, 2)), Field(21, [0xF8]), Field(22, Le(0, 2))]
  }

  function Total32(size: nat): nat { if size >= LIMIT then 0 else size }

  function SizeFields(start: nat, size: nat, fat: nat): seq<Field> {
    [Field(24, Le(63, 2)), Field(26, Le(255, 2)), Field(28, Le(start % LIMIT, 4)),
     Field(32, Le(Total32(size), 4)), Field(36, Le(fat, 4)),
     Field(40, Le(0, 2)), Field(42, Le(0, 2)), Field(44, Le(2, 4))]
  }

  function TailFields(tag: Name): seq<Field> {
    [Field(48, Le(1, 2)), Field(50, Le(6, 2)), Field(64, [0x80]), Field(66, [0x29]), Field(67, Le(SERIAL, 4)),
     Field(71, tag), Field(82, FS_TYPE), Field(510, [0x55, 0xAA])]
  }

  function BootFields(spc: nat, start: nat, size: nat, fat: nat, tag: Name): seq<Field> {
    ShapeFields(spc) + SizeFields(start, size, fat) + TailFields(tag)
  }

  predicate Adjacent(fs: seq<Field>) { forall i :: 0 <= i < |fs| - 1 ==> End(fs[i]) <= fs[i + 1].off }

  lemma {:induction false} AdjacentOrder(fs: seq<Field>, i: nat, j: nat)
    requires Adjacent(fs) && i < j < |fs|
    ensures End(fs[i]) <= fs[j].off
  {
    if i + 1 < j { AdjacentOrder(fs, i, j - 1); }
  }

  lemma BootLayout(spc: nat, start: nat, size: nat, fat: nat, tag: Name)
    ensures var fs := BootFields(spc, start, size, fat, tag);
            |fs| == 26 && Adjacent(fs) && InOrder(fs) && Fit(fs, SECTOR)
  {
    var fs, a, b, c := BootFields(spc, start, size, fat, tag), ShapeFields(spc), SizeFields(start, size, fat),
      TailFields(tag);
    ShapeLayout(spc);
    SizeLayout(start, size, fat);
    TailLayout(tag);
    hide Le, ShapeFields, SizeFields, TailFields;
    assert forall k :: 0 <= k < 26 ==> fs[k] == if k < 10 then a[k] else if k < 18 then b[k - 10] else c[k - 18];
    hide BootFields;
    assert Adjacent(fs);
    forall i, j | 0 <= i < j < |fs| ensures End(fs[i]) <= fs[j].off { AdjacentOrder(fs, i, j); }
    assert End(fs[25]) == SECTOR;
    forall k | 0 <= k < |fs| ensures End(fs[k]) <= SECTOR { assert k < 25 ==> End(fs[k]) <= fs[25].off; }
  }

  lemma ShapeLayout(spc: nat)
    ensures var f := ShapeFields(spc); |f| == 10 && Adjacent(f) && End(f[9]) == 24
    ensures var f := ShapeFields(spc);
            && f[2] == Field(11, Le(SECTOR, 2)) && f[3] == Field(13, [spc]) && f[4] == Field(14, Le(RESERVED, 2))
            && f[5] == Field(16, [NUM_FATS]) && f[6] == Field(17, Le(0, 2)) && f[7] == Field(19, Le(0, 2))
            && f[9] == Field(22, Le(0, 2))
  {
    hide Le;
  }

  lemma SizeLayout(start: nat, size: nat, fat: nat)
    ensures var f := SizeFields(start, size, fat); |f| == 8 && Adjacent(f) && f[0].off == 24 && End(f[7]) == 48
    ensures var f := SizeFields(start, size, fat);
            f[3] == Field(32, Le(Total32(size), 4)) && f[4] == Field(36, Le(fat, 4)) && f[7] == Field(44, Le(2, 4))
  {
    hide Le;
  }

  lemma TailLayout(tag: Name)
    ensures var f := TailFields(tag); |f| == 8 && Adjacent(f) && f[0].off == 48 && End(f[7]) == SECTOR
  {
    hide Le;
  }

  function Boot(spc: nat, start: nat, size: nat, fat: nat, tag: Name): (s: seq<nat>)
    ensures |s| == SECTOR
  {
    BootLayout(spc, start, size, fat, tag);
    PutAll(Zeroes(SECTOR), BootFields(spc, start, size, fat, tag))
  }

  lemma BootHolds(spc: nat, start: nat, size: nat, fat: nat, tag: Name, k: nat)
    requires k < 26
    ensures var f := BootFields(spc, start, size, fat, tag)[k];
            End(f) <= SECTOR && Boot(spc, start, size, fat, tag)[f.off..End(f)] == f.bytes
  {
    BootLayout(spc, start, size, fat, tag);
    hide BootFields;
    PutAllHolds(Zeroes(SECTOR), BootFields(spc, start, size, fat, tag), k);
  }

  /** What open keeps of a boot sector. */
  datatype Geometry = Geometry(bps: nat, spc: nat, reserved: nat, fats: nat, spf: nat, root: nat, clusters: nat)

  datatype Bpb = Bpb(bps: nat, spc: nat, reserved: nat, fats: nat, entries: nat, total16: nat, spf16: nat,
      total32: nat, spf: nat, root: nat)

  function Field16(b: seq<nat>, off: nat): nat
    requires off + 2 <= |b|
  {
    Num(b[off..off + 2])
  }

  function Field32(b: seq<nat>, off: nat): nat
    requires off + 4 <= |b|
  {
    Num(b[off..off + 4])
  }

  function ReadBpb(b: seq<nat>): Bpb
    requires |b| == SECTOR
  {
    Bpb(Field16(b, 11), b[13], Field16(b, 14), b[16], Field16(b, 17), Field16(b, 19), Field16(b, 22), Field32(b, 32),
      Field32(b, 36), Field32(b, 44))
  }

  /** canboot_fat32_open on its first sector; a zero cluster size has no cluster count. */
  function Mount(p: Bpb): Option<Geometry> {
    if p.bps == 0 || p.spf16 != 0 || p.entries != 0 || p.spc == 0 then None
    else
      var total := if p.total32 != 0 then p.total32 else p.total16;
      Some(Geometry(p.bps, p.spc, p.reserved, p.fats, p.spf, p.root,
        ((total - (p.reserved + p.fats * p.spf)) % LIMIT) / p.spc))
  }

  /** Mounting refuses a boot sector that is not FAT32, and takes everything else from its fields. */
  lemma MountExactly(p: Bpb)
    ensures Mount(p) == None <==> p.bps == 0 || p.spf16 != 0 || p.entries != 0 || p.spc == 0
    ensures Mount(p).Some? ==>
              var g := Mount(p).value;
              && g.bps == p.bps && g.spc == p.spc && g.reserved == p.reserved && g.fats == p.fats && g.spf == p.spf
              && g.root == p.root
              && (p.reserved + p.fats * p.spf <= p.total32 && 0 < p.total32 < 0x1_0000_0000 ==>
                  g.clusters == (p.total32 - p.reserved - p.fats * p.spf) / p.spc)
  {
    if 0 < p.total32 < 0x1_0000_0000 && p.reserved + p.fats * p.spf <= p.total32 {
      SmallCount(p.total32, p.reserved + p.fats * p.spf);
    }
  }

  lemma BootNumbers(spc: nat, start: nat, size: nat, fat: nat, tag: Name)
    requires fat < LIMIT
    ensures ReadBpb(Boot(spc, start, size, fat, tag))
            == Bpb(SECTOR, spc, RESERVED, NUM_FATS, 0, 0, 0, Total32(size), fat, 2)
  {
    hide Boot, Le, Pow256, BootFields, Num;
    Widths();
    BootKnown(spc, start, size, fat, tag);
    BootNumber(spc, start, size, fat, tag, 2, SECTOR, 2);
    BootByte(spc, start, size, fat, tag, 3);
    BootNumber(spc, start, size, fat, tag, 4, RESERVED, 2);
    BootByte(spc, start, size, fat, tag, 5);
    BootNumber(spc, start, size, fat, tag, 6, 0, 2);
    BootNumber(spc, start, size, fat, tag, 7, 0, 2);
    BootNumber(spc, start, size, fat, tag, 9, 0, 2);
    BootNumber(spc, start, size, fat, tag, 13, Total32(size), 4);
    BootNumber(spc, start, size, fat, tag, 14, fat, 4);
    BootNumber(spc, start, size, fat, tag, 17, 2, 4);
  }

  lemma BootByte(spc: nat, start: nat, size: nat, fat: nat, tag: Name, k: nat)
    requires k < |BootFields(spc, start, size, fat, tag)| == 26
    requires |BootFields(spc, start, size, fat, tag)[k].bytes| == 1
    ensures var f := BootFields(spc, start, size, fat, tag)[k];
            f.off < SECTOR && Boot(spc, start, size, fat, tag)[f.off] == f.bytes[0]
  {
    hide Boot, BootFields;
    BootHolds(spc, start, size, fat, tag, k);
  }

  lemma BootKnown(spc: nat, start: nat, size: nat, fat: nat, tag: Name)
    ensures var f := BootFields(spc, start, size, fat, tag);
            && |f| == 26 && f[2] == Field(11, Le(SECTOR, 2)) && f[3] == Field(13, [spc])
            && f[4] == Field(14, Le(RESERVED, 2))
            && f[5] == Field(16, [NUM_FATS]) && f[6] == Field(17, Le(0, 2)) && f[7] == Field(19, Le(0, 2))
            && f[9] == Field(22, Le(0, 2))
            && f[13] == Field(32, Le(Total32(size), 4)) && f[14] == Field(36, Le(fat, 4))
            && f[17] == Field(44, Le(2, 4))
  {
    hide Le, ShapeFields, SizeFields, TailFields;
    ShapeLayout(spc);
    SizeLayout(start, size, fat);
    TailLayout(tag);
  }

  lemma BootNumber(spc: nat, start: nat, size: nat, fat: nat, tag: Name, k: nat, v: nat, n: nat)
    requires k < |BootFields(spc, start, size, fat, tag)| == 26
    requires BootFields(spc, start, size, fat, tag)[k].bytes == Le(v, n) && v < Pow256(n)
    ensures var off := BootFields(spc, start, size, fat, tag)[k].off;
            off + n <= SECTOR && Num(Boot(spc, start, size, fat, tag)[off..off + n]) == v
  {
    hide Boot, BootFields, Num, Pow256;
    BootHolds(spc, start, size, fat, tag, k);
    NumLe(v, n);
  }

  /** The geometry that formatting lays out. */
  function Laid(size: nat): Geometry
    requires PickSpc(size) != 0 && size < HUGE
  {
    FixedPoint(size);
    Geometry(SECTOR, PickSpc(size), RESERVED, NUM_FATS, FatSectors(size), 2,
      Clusters(size, PickSpc(size), FatSectors(size)))
  }

  /** What open computes from a boot sector that format wrote. */
  lemma MountFrom(p: Bpb)
    requires p == Bpb(SECTOR, p.spc, RESERVED, NUM_FATS, 0, 0, 0, p.total32, p.spf, 2) && 0 < p.spc
    ensures Mount(p) == Some(Geometry(SECTOR, p.spc, RESERVED, NUM_FATS, p.spf, 2,
                                      ((p.total32 - (RESERVED + NUM_FATS * p.spf)) % LIMIT) / p.spc))
  {}

  /** Sizes whose total fits its field. */
  lemma SmallCount(size: nat, used: nat)
    requires used <= size < LIMIT
    ensures (size - used) % LIMIT == size - used
  {}

  /** From 2^32 sectors on the stored total is 0; the count is right for the 32 sizes whose clusters end
      where those of 2^32 sectors do. */
  lemma LargeCount(size: nat)
    requires LIMIT <= size < HUGE
    ensures PickSpc(size) == 64 && RESERVED + NUM_FATS * FatSectors(size) <= size
    ensures var used := RESERVED + NUM_FATS * FatSectors(size);
            ((0 - used) % LIMIT) / 64 == (size - used) / 64 <==> size < MOUNTABLE
  {
    FixedPoint(size);
    var fat := FatSectors(size);
    var used := RESERVED + NUM_FATS * fat;
    if size < LIMIT + 64 {
      assert fat == 0x8_0000;
    } else {
      assert (0 - used) % LIMIT <= LIMIT - used || used > LIMIT;
    }
  }

  /** Mounting a fresh volume gives the geometry it was formatted with, exactly below 2^32 + 32 sectors. */
  lemma OpenExactly(start: nat, size: nat, tag: Name)
    requires PickSpc(size) != 0 && size < HUGE
    ensures Mount(ReadBpb(Boot(PickSpc(size), start, size, FatSectors(size), tag))) == Some(Laid(size)) <==>
            size < MOUNTABLE
  {
    hide Boot, Num, FatSectors, PickSpc, ReadBpb, Mount;
    FixedPoint(size);
    var fat := FatSectors(size);
    BootNumbers(PickSpc(size), start, size, fat, tag);
    MountFrom(ReadBpb(Boot(PickSpc(size), start, size, fat, tag)));
    if size < LIMIT { SmallCount(size, RESERVED + NUM_FATS * fat); } else { LargeCount(size); }
  }

  // ----- the label -----

  /** Up to eleven bytes of the text, small letters as capitals, padded with spaces; "CANBOOT" without a text. */
  predicate IsLabel(text: Option<seq<nat>>, tag: Name) {
    match text
    case None => tag == [67, 65, 78, 66, 79, 79, 84, 32, 32, 32, 32]
    case Some(s) =>
      forall k: nat :: k < 11 ==>
        tag[k] == if k >= |s| then 32 else if 97 <= s[k] <= 122 then s[k] - 32 else s[k]
  }

  method PadLabel(text: Option<seq<nat>>) returns (tag: Name)
    ensures IsLabel(text, tag)
  {
    tag := [32, 32, 32, 32, 32, 32, 32, 32, 32, 32, 32];
    if text == None { return [67, 65, 78, 66, 79, 79, 84, 32, 32, 32, 32]; }
    var s, i := text.value, 0;
    while i < 11 && i < |s|
      invariant 0 <= i <= 11 && i <= |s|
      invariant forall k: nat :: k < 11 ==>
        tag[k] == if k >= i then 32 else if 97 <= s[k] <= 122 then s[k] - 32 else s[k]
    {
      var c := s[i];
      if c >= 97 && c <= 122 { c := c - 32; }
      tag := tag[i := c];
      i := i + 1;
    }
  }

  // ----- writing the volume -----

  type Block512 = b: seq<nat> | |b| == SECTOR witness Zeroes(SECTOR)

  class Disk {
    const writable: bool
    const blockSize: nat
    var blocks: seq<Block512>

    constructor (writable: bool, blockSize: nat, blocks: seq<Block512>)
      ensures this.writable == writable && this.blockSize == blockSize && this.blocks == blocks
    {
      this.writable, this.blockSize, this.blocks := writable, blockSize, blocks;
    }

    /** Fails beyond the end. */
    method Write(lba: nat, b: Block512) returns (ok: bool)
      modifies this`blocks
      ensures ok <==> lba < |old(blocks)|
      ensures blocks == if ok then old(blocks)[lba := b] else old(blocks)
    {
      ok := lba < |blocks|;
      if ok { blocks := blocks[lba := b]; }
    }

    /** Boot sector and information sector, each with its backup. */
    method WriteHeads(start: nat, boot: Block512, info: Block512) returns (ok: bool)
      modifies this`blocks
      ensures |blocks| == |old(blocks)| && (ok <==> start + 7 < |blocks|)
      ensures ok ==> blocks[start] == boot && blocks[start + 6] == boot
      ensures ok ==> blocks[start + 1] == info && blocks[start + 7] == info
      ensures forall k :: 0 <= k < |blocks| && !(start <= k < start + 8) ==> blocks[k] == old(blocks)[k]
    {
      ok := Write(start, boot);
      if !ok { return; }
      ok := Write(start + 6, boot);
      if !ok { return; }
      ok := Write(start + 1, info);
      if !ok { return; }
      ok := Write(start + 7, info);
    }

    /** Both copies of the table: a first sector, then zeros. */
    method WriteFats(fat0: nat, n: nat, head: Block512) returns (ok: bool)
      requires n >= 1
      modifies this`blocks
      ensures |blocks| == |old(blocks)| && (ok <==> fat0 + 2 * n <= |blocks|)
      ensures ok ==> FatAt(blocks, fat0, n, head) && FatAt(blocks, fat0 + n, n, head)
      ensures forall k :: 0 <= k < |blocks| && !(fat0 <= k < fat0 + 2 * n) ==> blocks[k] == old(blocks)[k]
    {
      ok := Write(fat0, head);
      if !ok { return; }
      ok := Write(fat0 + n, head);
      if !ok { return; }
      var off := 1;
      while off < n
        invariant 1 <= off <= n && |blocks| == |old(blocks)| && fat0 + n + off <= |blocks|
        invariant FatAt(blocks, fat0, off, head) && FatAt(blocks, fat0 + n, off, head)
        invariant forall k :: 0 <= k < |blocks| && !(fat0 <= k < fat0 + 2 * n) ==> blocks[k] == old(blocks)[k]
      {
        ok := Write(fat0 + off, Zeroes(SECTOR));
        if !ok { return; }
        ok := Write(fat0 + n + off, Zeroes(SECTOR));
        if !ok { return; }
        off := off + 1;
      }
    }

    method WriteZeros(lba: nat, n: nat) returns (ok: bool)
      modifies this`blocks
      ensures |blocks| == |old(blocks)| && (ok <==> n == 0 || lba + n <= |blocks|)
      ensures ok ==> forall k :: lba <= k < lba + n ==> blocks[k] == Zeroes(SECTOR)
      ensures forall k :: 0 <= k < |blocks| && !(lba <= k < lba + n) ==> blocks[k] == old(blocks)[k]
    {
      ok := true;
      var i := 0;
      while i < n
        invariant 0 <= i <= n && |blocks| == |old(blocks)| && (i > 0 ==> lba + i <= |blocks|)
        invariant forall k :: lba <= k < lba + i ==> blocks[k] == Zeroes(SECTOR)
        invariant forall k :: 0 <= k < |blocks| && !(lba <= k < lba + i) ==> blocks[k] == old(blocks)[k]
      {
        ok := Write(lba + i, Zeroes(SECTOR));
        if !ok { return; }
        i := i + 1;
      }
      ok := true;
    }

    /** canboot_fat32_format.  It accepts exactly the writable 512-byte disks that hold the structures of
        a volume with enough clusters, counted in 32 bits, and writes only inside the volume. */
    method Format(start: nat, size: nat, text: Option<seq<nat>>) returns (ok: bool, ghost tag: Name)
      requires size < HUGE
      modifies this`blocks
      ensures IsLabel(text, tag)
      ensures ok <==> writable && blockSize == SECTOR && Accepted(size) && start + Used(size) <= |old(blocks)|
      ensures |blocks| == |old(blocks)|
      ensures ok ==> Formatted(blocks, start, size, tag)
      ensures forall k :: 0 <= k < |blocks| && !(Accepted(size) && start <= k < start + Used(size)) ==>
              blocks[k] == old(blocks)[k]
      ensures Accepted(size) ==> Used(size) <= size
    {
      var padded := PadLabel(text);
      ok, tag := false, padded;
      if !writable || blockSize != SECTOR { return; }
      var spc := PickSpc(size);
      if spc == 0 { return; }
      FixedPoint(size);
      TwoMoreEntries(size);
      var fat, _ := SizeFat(size, spc);
      var clusters := Clusters(size, spc, fat) % LIMIT;
      if clusters < FLOOR { return; }
      UsedFits(size);
      ok := WriteVolume(start, size, padded, spc, fat, clusters);
    }

    method WriteVolume(start: nat, size: nat, tag: Name, spc: nat, fat: nat, clusters: nat) returns (ok: bool)
      requires size < HUGE && Accepted(size) && spc == PickSpc(size) && fat == FatSectors(size) >= 1
      requires RESERVED + NUM_FATS * fat <= size && spc > 0 && clusters == Laid(size).clusters % LIMIT >= 1
      modifies this`blocks
      ensures |blocks| == |old(blocks)| && (ok <==> start + Used(size) <= |blocks|)
      ensures ok ==> Formatted(blocks, start, size, tag)
      ensures forall k :: 0 <= k < |blocks| && !(start <= k < start + Used(size)) ==> blocks[k] == old(blocks)[k]
    {
      hide Boot, Info, FatHead, PickSpc, FatSectors, Laid, FatSector, Accepted;
      ok := WriteHeads(start, Boot(spc, start, size, fat, tag), Info(clusters));
      if !ok { return; }
      ok := WriteFats(start + RESERVED, fat, FatHead());
      if !ok { return; }
      ok := WriteZeros(start + RESERVED + NUM_FATS * fat, spc);
    }
  }

  function FatSector(head: Block512, k: nat): Block512 { if k == 0 then head else Zeroes(SECTOR) }

  /** The first n sectors of a fresh table at fat0. */
  predicate FatAt(blocks: seq<Block512>, fat0: nat, n: nat, head: Block512)
    requires fat0 + n <= |blocks|
  {
    forall k: nat :: fat0 <= k < fat0 + n ==> blocks[k] == FatSector(head, k - fat0)
  }

  predicate Accepted(size: nat)
    requires size < HUGE
  {
    PickSpc(size) != 0 && Laid(size).clusters % LIMIT >= FLOOR
  }

  /** Counting clusters in 32 bits turns away a volume of more than 2^32 clusters. */
  lemma LargeTurnedAway()
    ensures Laid(0x40_0410_0000).clusters > LIMIT && !Accepted(0x40_0410_0000)
  {}

  /** Sectors that format writes or leaves reserved: everything up to the end of the root cluster. */
  function Used(size: nat): nat
    requires size < HUGE && Accepted(size)
  {
    RESERVED + NUM_FATS * FatSectors(size) + PickSpc(size)
  }

  lemma UsedFits(size: nat)
    requires size < HUGE && Accepted(size)
    ensures Used(size) <= size && FatSectors(size) >= 1 && PickSpc(size) >= 1
  {
    FixedPoint(size);
    var spc := PickSpc(size);
    assert spc == 1 || spc == 8 || spc == 16 || spc == 32 || spc == 64;
    hide FatSectors;
  }

  const HEAD_FIELDS: seq<Field> := [Field(0, Le(0x0FFF_FFF8, 4)), Field(4, Le(0x0FFF_FFFF, 4)),
      Field(8, Le(0x0FFF_FFF8, 4))]

  function FatHead(): Block512 {
    PutAll(Zeroes(SECTOR), HEAD_FIELDS)
  }

  function InfoFields(clusters: nat): seq<Field>
    requires clusters >= 1
  {
    [Field(0, Le(0x4161_5252, 4)), Field(484, Le(0x6141_7272, 4)), Field(488, Le(clusters - 1, 4)),
     Field(492, Le(3, 4)), Field(510, [0x55, 0xAA])]
  }

  function Info(clusters: nat): Block512
    requires clusters >= 1
  {
    PutAll(Zeroes(SECTOR), InfoFields(clusters))
  }

  /** A freshly formatted volume at `start`. */
  ghost predicate Formatted(blocks: seq<Block512>, start: nat, size: nat, tag: Name)
    requires size < HUGE && Accepted(size)
  {
    var spc, fat := PickSpc(size), FatSectors(size);
    && start + Used(size) <= |blocks|
    && blocks[start] == Boot(spc, start, size, fat, tag) && blocks[start + 6] == blocks[start]
    && blocks[start + 1] == Info(Laid(size).clusters % LIMIT) && blocks[start + 7] == blocks[start + 1]
    && FatAt(blocks, start + RESERVED, fat, FatHead()) && FatAt(blocks, start + RESERVED + fat, fat, FatHead())
    && (forall k :: start + RESERVED + NUM_FATS * fat <= k < start + Used(size) ==> blocks[k] == Zeroes(SECTOR))
  }

  // ----- the fresh table -----

  /** read_fat_entry on copy 0 or 1 of the table. */
  function FatEntry(blocks: seq<Block512>, g: Geometry, copy: nat, c: nat): nat
    requires g.bps == SECTOR && g.reserved + copy * g.spf + c * 4 / SECTOR < |blocks|
  {
    assert c * 4 % SECTOR + 4 <= SECTOR;
    Field32(blocks[g.reserved + copy * g.spf + c * 4 / SECTOR], c * 4 % SECTOR) % 0x1000_0000
  }

  lemma ZeroSector(off: nat)
    requires off + 4 <= SECTOR
    ensures Field32(Zeroes(SECTOR), off) == 0
  {
    NumZero(Zeroes(SECTOR)[off..off + 4]);
  }

  lemma HeadSector(c: nat)
    requires 2 <= c < 128
    ensures c * 4 + 4 <= SECTOR && Field32(FatHead(), c * 4) == if c == 2 then EOC else 0
  {
    assert |HEAD_FIELDS| == 3 && Fit(HEAD_FIELDS, SECTOR) && InOrder(HEAD_FIELDS);
    var b := FatHead();
    if c == 2 {
      PutAllHolds(Zeroes(SECTOR), HEAD_FIELDS, 2);
      Widths();
      NumLe(EOC, 4);
    } else {
      PutAllKeeps(Zeroes(SECTOR), HEAD_FIELDS, c * 4, 4);
      NumZero(Zeroes(SECTOR)[c * 4..c * 4 + 4]);
    }
  }

  /** In both copies the root's cluster ends its chain and every other cluster is free. */
  lemma FreshEntry(blocks: seq<Block512>, size: nat, tag: Name, copy: nat, c: nat)
    requires size < MOUNTABLE && Accepted(size) && Formatted(blocks, 0, size, tag) && copy < 2
    requires 2 <= c < Laid(size).clusters + 2
    ensures Laid(size).reserved + copy * Laid(size).spf + c * 4 / SECTOR < |blocks|
    ensures FatEntry(blocks, Laid(size), copy, c) == if c == 2 then EOC else 0
  {
    hide FatHead, PickSpc, Boot, Info, Num, FatSectors;
    TwoMoreEntries(size);
    hide Clusters;
    var fat, k := FatSectors(size), c * 4 / SECTOR;
    SectorOf(c, fat);
    if copy == 0 {
      SectorAt(blocks, RESERVED, fat, FatHead(), k);
    } else {
      SectorAt(blocks, RESERVED + fat, fat, FatHead(), k);
    }
    if k == 0 { HeadSector(c); } else { ZeroSector(c * 4 % SECTOR); }
  }

  lemma SectorOf(c: nat, fat: nat)
    requires c < 128 * fat
    ensures c * 4 / SECTOR < fat && c * 4 % SECTOR == 4 * (c % 128)
    ensures (c * 4 / SECTOR == 0 ==> c < 128 && c * 4 % SECTOR == c * 4)
  {
    assert c * 4 / SECTOR == c / 128;
  }

  lemma SectorAt(blocks: seq<Block512>, fat0: nat, n: nat, head: Block512, k: nat)
    requires fat0 + n <= |blocks| && FatAt(blocks, fat0, n, head) && k < n
    ensures blocks[fat0 + k] == FatSector(head, k)
  {}

  /** The table as find_free_cluster sees it. */
  ghost predicate IsTable(fat: Fat, blocks: seq<Block512>, g: Geometry)
    requires g.bps == SECTOR
  {
    |fat| == g.clusters + 2 && forall c: nat :: 2 <= c < |fat| ==>
      g.reserved + c * 4 / SECTOR < |blocks| && fat[c] == FatEntry(blocks, g, 0, c)
  }

  lemma {:induction false} FreeCount(fat: Fat)
    requires |fat| > 2 && fat[2] != 0 && forall c :: 3 <= c < |fat| ==> fat[c] == 0
    ensures |FreeSet(fat)| == |fat| - 3
  {
    if |fat| == 3 {
      assert FreeSet(fat) == {};
    } else {
      var n := |fat| - 1;
      FreeCount(fat[..n]);
      assert FreeSet(fat) == FreeSet(fat[..n]) + {n};
    }
  }

  /** A count that mounting gets right is not cut to 32 bits. */
  lemma FreshCount(size: nat)
    requires size < MOUNTABLE && Accepted(size)
    ensures FLOOR <= Laid(size).clusters < EOC - 2 && Laid(size).clusters + 2 <= 128 * Laid(size).spf
    ensures Laid(size).bps == SECTOR
  {
    TwoMoreEntries(size);
    hide FatSectors;
  }

  lemma InfoAt(blocks: seq<Block512>, size: nat, tag: Name)
    requires size < MOUNTABLE && Accepted(size) && Formatted(blocks, 0, size, tag)
    ensures 1 <= Laid(size).clusters && |blocks| > 1 && blocks[1] == Info(Laid(size).clusters)
  {
    hide Boot, FatHead, FatSectors, PickSpc, Laid, FatAt, Info, Zeroes;
    FreshCount(size);
  }

  /** All clusters but the root's are free, as the information sector says. */
  lemma FreshFree(blocks: seq<Block512>, size: nat, tag: Name, fat: Fat)
    requires size < MOUNTABLE && Accepted(size) && Formatted(blocks, 0, size, tag) && IsTable(fat, blocks, Laid(size))
    ensures |fat| > 2 && fat[2] == EOC && forall c :: 3 <= c < |fat| ==> fat[c] == 0
    ensures |FreeSet(fat)| == Laid(size).clusters - 1 && |fat| <= EOC
    ensures Field32(blocks[1], 488) == |FreeSet(fat)|
  {
    assert PickSpc(size) != 0;
    hide Formatted, Accepted, Laid, FatEntry, Info, Num;
    var g := Laid(size);
    FreshCount(size);
    InfoAt(blocks, size, tag);
    forall c: nat | 2 <= c < |fat| ensures fat[c] == if c == 2 then EOC else 0 { FreshEntry(blocks, size, tag, 0, c); }
    FreeCount(fat);
    InfoCount(g.clusters);
  }

  lemma InfoLayout(clusters: nat)
    requires clusters >= 1
    ensures var fs := InfoFields(clusters);
            |fs| == 5 && Fit(fs, SECTOR) && InOrder(fs) && fs[2] == Field(488, Le(clusters - 1, 4))
  {
    hide Le;
  }

  lemma InfoCount(clusters: nat)
    requires 1 <= clusters < EOC
    ensures Field32(Info(clusters), 488) == clusters - 1
  {
    hide Le, Num, InfoFields, Pow256;
    InfoLayout(clusters);
    PutAllHolds(Zeroes(SECTOR), InfoFields(clusters), 2);
    Widths();
    NumLe(clusters - 1, 4);
  }

  // ----- the fresh volume -----

  /** The directory entry in 32 bytes of a sector. */
  function ReadSlot(b: Block512, off: nat): Slot
    requires off + 32 <= SECTOR
  {
    Slot(b[off..off + 11], b[off + 11], Field16(b, off + 20), Field16(b, off + 26), Field32(b, off + 28))
  }

  /** First sector of a cluster. */
  function ClusterLba(g: Geometry, c: nat): nat
    requires c >= 2
  {
    g.reserved + g.fats * g.spf + (c - 2) * g.spc
  }

  /** Entry i of cluster c; entries do not straddle sectors. */
  function SlotOnDisk(blocks: seq<Block512>, g: Geometry, c: nat, i: nat): Slot
    requires c >= 2 && ClusterLba(g, c) + i / 16 < |blocks|
  {
    ReadSlot(blocks[ClusterLba(g, c) + i / 16], i % 16 * 32)
  }

  /** The root directory's cluster. */
  function RootBlock(blocks: seq<Block512>, g: Geometry): Block
    requires g.root >= 2 && ClusterLba(g, g.root) + g.spc <= |blocks|
  {
    Dir(seq(16 * g.spc, i requires 0 <= i < 16 * g.spc => SlotOnDisk(blocks, g, g.root, i)))
  }

  /** The volume that the path engine sees on a disk whose only chain is the root's cluster: table and root
      directory are read off the sectors, clusters in no chain are left blank. */
  function RootVolume(blocks: seq<Block512>, g: Geometry): Vol
    requires g.bps == SECTOR && g.root >= 2 && ClusterLba(g, g.root) + g.spc <= |blocks|
    requires g.clusters == 0 || g.reserved + (g.clusters + 1) * 4 / SECTOR < |blocks|
  {
    var n := g.clusters + 2;
    Vol(SECTOR * g.spc, g.root,
        seq(n, c requires 0 <= c < n => if c < 2 then 0 else InTableRange(g, c); FatEntry(blocks, g, 0, c)),
        seq(n, c => if c == g.root then RootBlock(blocks, g) else Data([])),
        Layout(map[g.root := [g.root]], map[], map[g.root := (g.root, 0)], map[], map[]))
  }

  lemma InTableRange(g: Geometry, c: nat)
    requires 2 <= c < g.clusters + 2
    ensures c * 4 / SECTOR <= (g.clusters + 1) * 4 / SECTOR
  {}

  lemma ZeroSlot(off: nat)
    requires off + 32 <= SECTOR
    ensures ReadSlot(Zeroes(SECTOR), off) == BLANK
  {
    var b := Zeroes(SECTOR);
    NumZero(b[off + 20..off + 22]);
    NumZero(b[off + 26..off + 28]);
    NumZero(b[off + 28..off + 32]);
    assert b[off..off + 11] == BLANK.name;
  }

  /** What the sectors of a fresh volume give. */
  lemma FreshReads(blocks: seq<Block512>, size: nat, tag: Name)
    requires size < MOUNTABLE && Accepted(size) && Formatted(blocks, 0, size, tag)
    ensures var g := Laid(size);
            && g.bps == SECTOR && g.root == 2 && g.spc == PickSpc(size) >= 1 && ClusterLba(g, 2) + g.spc <= |blocks|
            && g.reserved + (g.clusters + 1) * 4 / SECTOR < |blocks|
            && (forall i: nat :: i < 16 * g.spc ==> SlotOnDisk(blocks, g, 2, i) == BLANK)
  {
    hide Boot, Info, FatHead, Num, FatSectors, ReadSlot;
    FreshCount(size);
    hide Clusters;
    var g := Laid(size);
    forall i: nat | i < 16 * g.spc ensures SlotOnDisk(blocks, g, 2, i) == BLANK {
      assert blocks[ClusterLba(g, 2) + i / 16] == Zeroes(SECTOR);
      ZeroSlot(i % 16 * 32);
    }
  }

  /** The invariant of a volume with an empty root and nothing else. */
  lemma EmptyRootWf(v: Vol)
    requires 2 < |v.fat| <= EOC && |v.blk| == |v.fat| && v.fat[2] == EOC && v.root == 2 && 64 <= v.bpc
    requires v.blk[2] == Dir(Blanks(v.bpc / 32))
    requires v.lay == Layout(map[2 := [2]], map[], map[2 := (2, 0)], map[], map[])
    ensures (Wf(v) <==> v.bpc <= 8192) && forall t: Name :: Lookup(v, 2, t) == None
  {
    assert ChainAt(v, 2, [2]);
    assert v.bpc <= 8192 <==> Shaped(v);
    assert forall d: nat, j: nat, i: nat :: InDir(v, d, j, i) ==> d == 2 && j == 0 && At(v, d, j, i) == BLANK;
    assert BLANK.name[0] == 0 && !Visible(BLANK);
    hide InDir, At, Shaped, Visible;
  }

  /** A disk just formatted mounts with the geometry laid out, and its volume is empty; it is well formed, which
      includes that a cluster fits the 8192-byte buffers, exactly below 16 GiB. */
  lemma FreshWf(blocks: seq<Block512>, size: nat, tag: Name)
    requires size < MOUNTABLE && Accepted(size) && Formatted(blocks, 0, size, tag)
    ensures |blocks| > 0 && Mount(ReadBpb(blocks[0])) == Some(Laid(size))
    ensures var g := Laid(size);
            && g.bps == SECTOR && g.root == 2 && ClusterLba(g, 2) + g.spc <= |blocks|
            && g.reserved + (g.clusters + 1) * 4 / SECTOR < |blocks|
            && var v := RootVolume(blocks, g);
               && (Wf(v) <==> size < 33554432) && (forall t: Name :: Lookup(v, 2, t) == None)
               && |FreeSet(v.fat)| == g.clusters - 1
  {
    hide Boot, Info, Num, Mount, ReadBpb, Wf, Lookup, SlotOnDisk, FatEntry, FatSectors, Clusters, ClusterLba;
    OpenExactly(0, size, tag);
    FreshReads(blocks, size, tag);
    ClusterFits(size);
    hide Formatted, PickSpc, Accepted, Laid;
    var g := Laid(size);
    var v := RootVolume(blocks, g);
    assert IsTable(v.fat, blocks, g) by { RootTable(blocks, g); }
    FreshFree(blocks, size, tag, v.fat);
    assert RootBlock(blocks, g).slots == Blanks(v.bpc / 32);
    EmptyRootWf(v);
  }

  lemma RootTable(blocks: seq<Block512>, g: Geometry)
    requires g.bps == SECTOR && g.root >= 2 && ClusterLba(g, g.root) + g.spc <= |blocks|
    requires g.reserved + (g.clusters + 1) * 4 / SECTOR < |blocks|
    ensures IsTable(RootVolume(blocks, g).fat, blocks, g)
  {
    hide SlotOnDisk, ClusterLba, Num;
    forall c: nat | 2 <= c < g.clusters + 2 ensures g.reserved + c * 4 / SECTOR < |blocks| { InTableRange(g, c); }
  }

  /** The buffers of 8192 bytes hold a cluster exactly on volumes below 16 GiB. */
  lemma ClusterFits(size: nat)
    requires size < HUGE && Accepted(size)
    ensures 64 <= SECTOR * PickSpc(size) && (SECTOR * PickSpc(size) <= 8192 <==> size < 33554432)
  {}
}
