/** What formatting leaves on the disk, byte by byte, and which volumes it accepts. */
module FatImage {
  import opened Basics
  import opened Bytes
  import opened FatVolume
  import opened FatFormat

  /** A sector that holds the fields, and zeros elsewhere. */
  predicate IsImage(b: seq<nat>, fs: seq<Field>) {
    |b| == 512 && HasFields(b, fs) && forall k :: 0 <= k < 512 && Outside(fs, k) ==> b[k] == 0
  }

  lemma PutImage(fs: seq<Field>)
    requires Fit(fs, 512) && InOrder(fs)
    ensures IsImage(PutAll(Zeroes(512), fs), fs)
  {
    hide PutAll, HasFields, Outside;
    PutFields(Zeroes(512), fs);
  }

  /** The boot sector: jump and "MSWIN4.1"; 512-byte sectors, the cluster size, 32 reserved sectors, two tables, media
      0xF8; the legacy geometry; offset and size of the volume, sectors per table, root cluster 2; information
      sector 1, backup 6; drive, extended signature, serial, label, "FAT32   ", 55 AA. */
  function BootBytes(spc: nat, start: nat, size: nat, fat: nat, tag: Name): seq<Field> {
    [Field(0, [0xEB, 0x58, 0x90]), Field(3, [0x4D, 0x53, 0x57, 0x49, 0x4E, 0x34, 0x2E, 0x31]), Field(11, Le(512, 2)),
     Field(13, [spc]), Field(14, Le(32, 2)), Field(16, [2]), Field(17, Le(0, 2)), Field(19, Le(0, 2)),
     Field(21, [0xF8]), Field(22, Le(0, 2)), Field(24, Le(63, 2)), Field(26, Le(255, 2)),
     Field(28, Le(start % 0x1_0000_0000, 4)), Field(32, Le(if size > 0xFFFF_FFFF then 0 else size, 4)),
     Field(36, Le(fat, 4)), Field(40, Le(0, 2)), Field(42, Le(0, 2)), Field(44, Le(2, 4)), Field(48, Le(1, 2)),
     Field(50, Le(6, 2)), Field(64, [0x80]), Field(66, [0x29]), Field(67, Le(0xCA17_B007, 4)), Field(71, tag),
     Field(82, [0x46, 0x41, 0x54, 0x33, 0x32, 0x20, 0x20, 0x20]), Field(510, [0x55, 0xAA])]
  }

  lemma BootImage(spc: nat, start: nat, size: nat, fat: nat, tag: Name)
    ensures IsImage(Boot(spc, start, size, fat, tag), BootBytes(spc, start, size, fat, tag))
  {
    BootLayout(spc, start, size, fat, tag);
    hide Le, PutAll, IsImage;
    var fs, ref := BootFields(spc, start, size, fat, tag), BootBytes(spc, start, size, fat, tag);
    assert fs == ref;
    hide BootFields, BootBytes;
    PutImage(fs);
  }

  /** The information sector: its two signatures, the free clusters, the first one to try, 55 AA. */
  function InfoBytes(free: nat): seq<Field> {
    [Field(0, Le(0x4161_5252, 4)), Field(484, Le(0x6141_7272, 4)), Field(488, Le(free, 4)), Field(492, Le(3, 4)),
     Field(510, [0x55, 0xAA])]
  }

  lemma InfoImage(clusters: nat)
    requires clusters >= 1
    ensures IsImage(Info(clusters), InfoBytes(clusters - 1))
  {
    hide Le, PutAll, IsImage;
    PutImage(InfoFields(clusters));
  }

  /** The first sector of a table: media, end of chain, end of chain for the root. */
  function HeadBytes(): seq<Field> {
    [Field(0, Le(0x0FFF_FFF8, 4)), Field(4, Le(0x0FFF_FFFF, 4)), Field(8, Le(0x0FFF_FFF8, 4))]
  }

  lemma HeadImage()
    ensures IsImage(FatHead(), HeadBytes())
  {
    hide Le, PutAll, IsImage;
    PutImage(HEAD_FIELDS);
  }

  /** The sectors of a fresh volume: boot sector at 0 and 6, information sector at 1 and 7, two tables from 32 on, a
      zeroed root cluster behind them. */
  ghost predicate VolumeImage(blocks: seq<seq<nat>>, start: nat, size: nat, spc: nat, fat: nat, free: nat, tag: Name) {
    && start + 32 + 2 * fat + spc <= |blocks| && fat >= 1
    && IsImage(blocks[start], BootBytes(spc, start, size, fat, tag)) && blocks[start + 6] == blocks[start]
    && IsImage(blocks[start + 1], InfoBytes(free)) && blocks[start + 7] == blocks[start + 1]
    && IsImage(blocks[start + 32], HeadBytes()) && blocks[start + 32 + fat] == blocks[start + 32]
    && forall k :: start + 32 < k < start + 32 + 2 * fat + spc && k != start + 32 + fat ==> blocks[k] == Zeroes(512)
  }

  lemma FormattedImage(blocks: seq<Block512>, start: nat, size: nat, tag: Name)
    requires size < HUGE && Accepted(size) && Formatted(blocks, start, size, tag)
    ensures var g := Laid(size); VolumeImage(blocks, start, size, g.spc, g.spf, g.clusters % 0x1_0000_0000 - 1, tag)
  {
    hide Boot, Info, FatHead, PickSpc, FatSectors, IsImage, BootBytes, InfoBytes, HeadBytes, Clusters;
    FixedPoint(size);
    var g := Laid(size);
    BootImage(g.spc, start, size, g.spf, tag);
    InfoImage(g.clusters % LIMIT);
    HeadImage();
    forall k | start + 32 < k < start + 32 + 2 * g.spf + g.spc && k != start + 32 + g.spf
      ensures blocks[k] == Zeroes(512)
    {
      if k < start + 32 + g.spf {
        assert blocks[k] == FatSector(FatHead(), k - (start + 32));
      } else if k < start + 32 + 2 * g.spf {
        assert blocks[k] == FatSector(FatHead(), k - (start + 32 + g.spf));
      }
    }
    assert blocks[start + 32] == FatSector(FatHead(), 0) && blocks[start + 32 + g.spf] == FatSector(FatHead(), 0);
  }

  // ----- sizes -----

  /** Bytes per cluster of a mounted fresh volume: 512 below 260 MiB, 4 KiB below 8 GiB, 8 KiB below 16 GiB, 16 KiB
      below 32 GiB, then 32 KiB. */
  lemma ClusterBytes(start: nat, size: nat, tag: Name)
    requires 16384 <= size < MOUNTABLE
    ensures PickSpc(size) != 0
    ensures var g := Mount(ReadBpb(Boot(PickSpc(size), start, size, FatSectors(size), tag)));
            && g.Some?
            && g.value.bps * g.value.spc ==
                 if size < 532_480 then 512 else if size < 16_777_216 then 4096 else if size < 33_554_432 then 8192
                 else if size < 67_108_864 then 16384 else 32768
  {
    hide Boot, Mount, ReadBpb, FatSectors, Clusters;
    OpenExactly(start, size, tag);
  }

  /** Up to 128 TiB, formatting accepts exactly the sizes from 66597 sectors on, 32.5 MiB. */
  lemma AcceptedExactly(size: nat)
    requires size < 0x40_0000_0000
    ensures Accepted(size) <==> size >= 66_597
  {
    if size >= 16384 {
      var spc := PickSpc(size);
      FixedPoint(size);
      assert spc == 1 || spc == 8 || spc == 16 || spc == 32 || spc == 64;
    }
  }

  // ----- directory entries -----

  /** The 32 bytes of a directory entry; times are left zero. */
  function SlotBytes(e: Slot): (s: seq<nat>)
    ensures |s| == 32
  {
    e.name + [e.attr] + Zeroes(8) + Le(e.hi, 2) + Zeroes(4) + Le(e.lo, 2) + Le(e.size, 4)
  }

  /** They read back as the entry. */
  lemma SlotBack(b: Block512, off: nat, e: Slot)
    requires off + 32 <= 512 && b[off..off + 32] == SlotBytes(e)
    requires e.hi < 0x1_0000 && e.lo < 0x1_0000 && e.size < 0x1_0000_0000
    ensures ReadSlot(b, off) == e
  {
    var s := SlotBytes(e);
    hide Le, Num;
    assert s[0..11] == e.name && s[11] == e.attr && s[20..22] == Le(e.hi, 2) && s[26..28] == Le(e.lo, 2);
    assert s[28..32] == Le(e.size, 4);
    hide SlotBytes;
    Resliced(b, off, off + 32, 0, 11);
    Resliced(b, off, off + 32, 20, 22);
    Resliced(b, off, off + 32, 26, 28);
    Resliced(b, off, off + 32, 28, 32);
    assert b[off + 11] == b[off..off + 32][11];
    Widths();
    hide Pow256;
    NumLe(e.hi, 2);
    NumLe(e.lo, 2);
    NumLe(e.size, 4);
  }
}
