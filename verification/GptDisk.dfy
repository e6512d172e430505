/** GPT on disk: two headers with checksums, two copies of the table, and the operations that keep them. */
module GptDisk {
  import opened Basics
  import opened Bytes
  import opened Blocks
  import opened GptTable
  import Crc32

  const SECTOR: nat := 512
  const TABLE_SECTORS: nat := 32
  const TABLE_BYTES: nat := 16384
  const HEADER: nat := 92
  const SIGNATURE: nat := 0x5452_4150_2049_4645
  const REVISION: nat := 0x0001_0000
  const GUID_SEED: nat := 0x6361_6E62_6F6F_742D
  const W32: nat := 0x1_0000_0000

  // ----- headers -----

  datatype Header = Header(current: nat, backup: nat, first: nat, last: nat, guid: Octets, table: nat, count: nat,
      size: nat, sum: nat)

  predicate HeaderOk(h: Header) {
    && h.current < W64 && h.backup < W64 && h.first < W64 && h.last < W64 && |h.guid| == 16 && h.table < W64
    && h.count < W32 && h.size < W32 && h.sum < W32
  }

  function Lead(): (b: Octets)
    ensures |b| == 16
  {
    Le(SIGNATURE, 8) + Le(REVISION, 4) + Le(HEADER, 4)
  }

  function PlaceFields(h: Header): seq<Field> {
    [Field(0, Le(0, 4)), Field(4, Le(h.current, 8)), Field(12, Le(h.backup, 8)), Field(20, Le(h.first, 8)),
     Field(28, Le(h.last, 8)), Field(36, h.guid), Field(52, Le(h.table, 8)), Field(60, Le(h.count, 4)),
     Field(64, Le(h.size, 4)), Field(68, Le(h.sum, 4))]
  }

  lemma PlaceLayout(h: Header)
    requires |h.guid| == 16
    ensures |PlaceFields(h)| == 10 && InOrder(PlaceFields(h)) && Fit(PlaceFields(h), 72)
  {
    hide Le;
  }

  /** Everything behind the header's own checksum. */
  function Rest(h: Header): (b: Octets)
    requires |h.guid| == 16
    ensures |b| == 72
  {
    PlaceLayout(h);
    PutAll(Zeroes(72), PlaceFields(h))
  }

  function HeaderBytes(h: Header, crc: nat): (b: Octets)
    requires |h.guid| == 16
    ensures |b| == HEADER
  {
    Lead() + Le(crc, 4) + Rest(h)
  }

  /** The header sector with its checksum, taken over the header with that field zero. */
  function Sealed(h: Header): (b: Octets)
    requires |h.guid| == 16
    ensures |b| == SECTOR
  {
    HeaderBytes(h, Crc32.Sum(HeaderBytes(h, 0))) + Zeroes(SECTOR - HEADER)
  }

  /** read_gpt_header: signature, size and checksum must be right. */
  function ReadHeader(b: Octets): Option<Header>
    requires |b| == SECTOR
  {
    var size := Num(b[12..16]);
    if Num(b[0..8]) != SIGNATURE || size < HEADER || size > SECTOR then None
    else if Crc32.Sum(b[..16] + Zeroes(4) + b[20..size]) != Num(b[16..20]) then None
    else Some(Header(Num(b[24..32]), Num(b[32..40]), Num(b[40..48]), Num(b[48..56]), b[56..72], Num(b[72..80]),
      Num(b[80..84]), Num(b[84..88]), Num(b[88..92])))
  }

  lemma SealedParts(h: Header)
    requires |h.guid| == 16
    ensures var s := Sealed(h);
            && s[..16] == Lead() && s[16..20] == Le(Crc32.Sum(HeaderBytes(h, 0)), 4) && s[20..92] == Rest(h)
            && s[..16] + Zeroes(4) + s[20..92] == HeaderBytes(h, 0)
  {
    hide Lead, Rest, Crc32.Sum;
    var crc := Crc32.Sum(HeaderBytes(h, 0));
    var s, b := Sealed(h), HeaderBytes(h, crc);
    assert s[..92] == b;
    assert b[..16] == Lead() && b[16..20] == Le(crc, 4) && b[20..] == Rest(h);
    Resliced(s, 0, 92, 0, 16);
    Resliced(s, 0, 92, 16, 20);
    Resliced(s, 0, 92, 20, 92);
    assert Le(0, 4) == Zeroes(4) by { ZeroLe(); }
  }

  lemma ZeroLe()
    ensures Le(0, 4) == Zeroes(4)
  {
    assert Le(0, 1) == [0] + Le(0, 0) && Le(0, 2) == [0] + Le(0, 1) && Le(0, 3) == [0] + Le(0, 2);
  }

  lemma LeadParts()
    ensures Num(Lead()[0..8]) == SIGNATURE && Num(Lead()[12..16]) == HEADER
  {
    hide Le, Num, Pow256;
    Widths();
    NumLe8(SIGNATURE);
    NumLe(HEADER, 4);
    assert Lead()[0..8] == Le(SIGNATURE, 8) && Lead()[12..16] == Le(HEADER, 4);
  }

  lemma RestNumber(h: Header, k: nat, v: nat, n: nat)
    requires |h.guid| == 16 && k < |PlaceFields(h)| == 10 && PlaceFields(h)[k].bytes == Le(v, n) && v < Pow256(n)
    ensures var off := PlaceFields(h)[k].off; off + n <= 72 && Num(Rest(h)[off..off + n]) == v
  {
    PlaceLayout(h);
    hide PlaceFields, Num, Pow256;
    PutAllHolds(Zeroes(72), PlaceFields(h), k);
    NumLe(v, n);
  }

  lemma PlaceKnown(h: Header)
    ensures var f := PlaceFields(h);
            && |f| == 10 && f[1] == Field(4, Le(h.current, 8)) && f[2] == Field(12, Le(h.backup, 8))
            && f[3] == Field(20, Le(h.first, 8))
            && f[4] == Field(28, Le(h.last, 8)) && f[5] == Field(36, h.guid) && f[6] == Field(52, Le(h.table, 8))
            && f[7] == Field(60, Le(h.count, 4)) && f[8] == Field(64, Le(h.size, 4)) && f[9] == Field(68, Le(h.sum, 4))
  {
    hide Le;
  }

  lemma RestParts(h: Header)
    requires HeaderOk(h)
    ensures var r := Rest(h);
            && Num(r[4..12]) == h.current && Num(r[12..20]) == h.backup && Num(r[20..28]) == h.first
            && Num(r[28..36]) == h.last
            && r[36..52] == h.guid && Num(r[52..60]) == h.table && Num(r[60..64]) == h.count
            && Num(r[64..68]) == h.size && Num(r[68..72]) == h.sum
  {
    hide Le, Num, Pow256, PlaceFields, Rest;
    Widths();
    Pow8();
    PlaceKnown(h);
    RestNumber(h, 1, h.current, 8);
    RestNumber(h, 2, h.backup, 8);
    RestNumber(h, 3, h.first, 8);
    RestNumber(h, 4, h.last, 8);
    RestGuid(h);
    RestNumber(h, 6, h.table, 8);
    RestNumber(h, 7, h.count, 4);
    RestNumber(h, 8, h.size, 4);
    RestNumber(h, 9, h.sum, 4);
  }

  lemma RestGuid(h: Header)
    requires |h.guid| == 16
    ensures Rest(h)[36..52] == h.guid
  {
    PlaceLayout(h);
    PlaceKnown(h);
    hide PlaceFields;
    PutAllHolds(Zeroes(72), PlaceFields(h), 5);
  }

  /** A sealed header reads back. */
  lemma SealedReads(h: Header)
    requires HeaderOk(h)
    ensures ReadHeader(Sealed(h)) == Some(h)
  {
    hide Sealed, Lead, Rest, HeaderBytes, Crc32.Sum, Num, Le;
    SealedParts(h);
    LeadParts();
    RestParts(h);
    var s := Sealed(h);
    var lead, rest, crc := s[..16], s[20..92], Crc32.Sum(HeaderBytes(h, 0));
    Resliced(s, 0, 16, 0, 8);
    Resliced(s, 0, 16, 12, 16);
    Widths();
    NumLe(crc, 4);
    Resliced(s, 20, 92, 4, 12);
    Resliced(s, 20, 92, 12, 20);
    Resliced(s, 20, 92, 20, 28);
    Resliced(s, 20, 92, 28, 36);
    Resliced(s, 20, 92, 36, 52);
    Resliced(s, 20, 92, 52, 60);
    Resliced(s, 20, 92, 60, 64);
    Resliced(s, 20, 92, 64, 68);
    Resliced(s, 20, 92, 68, 72);
  }

  // ----- the bytes of a header -----

  /** Signature "EFI PART", revision, size, reserved; places; the usable range; the disk's GUID; the table. */
  function HeaderNumbers(total: nat, current: nat, backup: nat, table: nat, sum: nat): seq<Number>
    requires total >= 64
  {
    [Number(0, 8, 0x5452_4150_2049_4645), Number(8, 4, 0x10000), Number(12, 4, 92), Number(20, 4, 0),
     Number(24, 8, current), Number(32, 8, backup), Number(40, 8, 34), Number(48, 8, total - 34),
     Number(56, 8, 0x6361_6E62_6F6F_742D), Number(64, 8, total), Number(72, 8, table), Number(80, 4, 128),
     Number(84, 4, 128), Number(88, 4, sum)]
  }

  /** A header sector as the UEFI specification lays it out, for a disk of `total` sectors whose table has the
      checksum `sum`. */
  predicate HeaderImage(b: Octets, total: nat, current: nat, backup: nat, table: nat, sum: nat)
    requires total >= 64
  {
    && |b| == 512 && HasNumbers(b, HeaderNumbers(total, current, backup, table, sum))
    && Num(b[16..20]) == Crc32.Sum(b[..16] + [0, 0, 0, 0] + b[20..92])
    && forall k :: 92 <= k < 512 ==> b[k] == 0
  }

  lemma LeadBytes()
    ensures var b := Lead();
            Num(b[0..8]) == 0x5452_4150_2049_4645 && Num(b[8..12]) == 0x10000 && Num(b[12..16]) == 92
  {
    assert Lead()[0..8] == Le(SIGNATURE, 8) && Lead()[8..12] == Le(REVISION, 4) && Lead()[12..16] == Le(HEADER, 4);
    hide Le, Num, Pow256;
    Widths();
    NumLe8(0x5452_4150_2049_4645);
    NumLe(0x10000, 4);
    NumLe(92, 4);
  }

  lemma GuidBytes(total: nat)
    requires total < W64
    ensures Num(Guid(total)[0..8]) == 0x6361_6E62_6F6F_742D && Num(Guid(total)[8..16]) == total
  {
    assert Guid(total)[0..8] == Le(GUID_SEED, 8) && Guid(total)[8..16] == Le(total, 8);
    hide Le, Num;
    NumLe8(0x6361_6E62_6F6F_742D);
    NumLe8(total);
  }

  /** What a sealed header of the pair holds, byte by byte. */
  lemma SealedImage(h: Header, total: nat)
    requires HeaderOk(h) && 64 <= total < W64 && h.first == 34 && h.last == total - 34 && h.guid == Guid(total)
    requires h.count == 128 && h.size == 128
    ensures HeaderImage(Sealed(h), total, h.current, h.backup, h.table, h.sum)
  {
    hide Sealed, Crc32.Sum, Num, Guid, HasNumber;
    var s := Sealed(h);
    SealedSum(h);
    SealedTail(h);
    SealedLead(h);
    SealedRest(h);
    SealedGuid(h, total);
    var ns := HeaderNumbers(total, h.current, h.backup, h.table, h.sum);
    forall k | 0 <= k < |ns| ensures HasNumber(s, ns[k]) {}
  }

  lemma SealedTail(h: Header)
    requires HeaderOk(h)
    ensures forall k :: 92 <= k < 512 ==> Sealed(h)[k] == 0
  {
    hide HeaderBytes, Crc32.Sum;
  }

  lemma SealedSum(h: Header)
    requires HeaderOk(h)
    ensures var s := Sealed(h); Num(s[16..20]) == Crc32.Sum(s[..16] + [0, 0, 0, 0] + s[20..92])
  {
    hide Sealed, Lead, Rest, HeaderBytes, Crc32.Sum, Num, Le;
    SealedParts(h);
    assert Zeroes(4) == [0, 0, 0, 0];
    Widths();
    NumLe(Crc32.Sum(HeaderBytes(h, 0)), 4);
  }

  lemma SealedLead(h: Header)
    requires HeaderOk(h)
    ensures var s := Sealed(h);
            && HasNumber(s, Number(0, 8, 0x5452_4150_2049_4645)) && HasNumber(s, Number(8, 4, 0x10000))
            && HasNumber(s, Number(12, 4, 92)) && HasNumber(s, Number(20, 4, 0))
  {
    hide Sealed, Lead, Rest, HeaderBytes, Crc32.Sum, Num, Le;
    SealedParts(h);
    LeadBytes();
    RestReserved(h);
    var s := Sealed(h);
    Resliced(s, 0, 16, 0, 8);
    Resliced(s, 0, 16, 8, 12);
    Resliced(s, 0, 16, 12, 16);
    Resliced(s, 20, 92, 0, 4);
  }

  lemma SealedRest(h: Header)
    requires HeaderOk(h)
    ensures var s := Sealed(h);
            && HasNumber(s, Number(24, 8, h.current)) && HasNumber(s, Number(32, 8, h.backup))
            && HasNumber(s, Number(40, 8, h.first)) && HasNumber(s, Number(48, 8, h.last))
            && HasNumber(s, Number(72, 8, h.table)) && HasNumber(s, Number(80, 4, h.count))
            && HasNumber(s, Number(84, 4, h.size)) && HasNumber(s, Number(88, 4, h.sum)) && s[56..72] == h.guid
  {
    hide Sealed, Lead, Rest, HeaderBytes, Crc32.Sum, Num, Le;
    SealedParts(h);
    RestParts(h);
    var s := Sealed(h);
    Resliced(s, 20, 92, 4, 12);
    Resliced(s, 20, 92, 12, 20);
    Resliced(s, 20, 92, 20, 28);
    Resliced(s, 20, 92, 28, 36);
    Resliced(s, 20, 92, 36, 52);
    Resliced(s, 20, 92, 52, 60);
    Resliced(s, 20, 92, 60, 64);
    Resliced(s, 20, 92, 64, 68);
    Resliced(s, 20, 92, 68, 72);
  }

  lemma SealedGuid(h: Header, total: nat)
    requires HeaderOk(h) && total < W64 && h.guid == Guid(total)
    ensures var s := Sealed(h);
            HasNumber(s, Number(56, 8, 0x6361_6E62_6F6F_742D)) && HasNumber(s, Number(64, 8, total))
  {
    hide Sealed, Num, Guid;
    SealedRest(h);
    GuidBytes(total);
    var s := Sealed(h);
    Resliced(s, 56, 72, 0, 8);
    Resliced(s, 56, 72, 8, 16);
  }

  lemma RestReserved(h: Header)
    requires |h.guid| == 16
    ensures Num(Rest(h)[0..4]) == 0
  {
    PlaceLayout(h);
    assert PlaceFields(h)[0] == Field(0, Le(0, 4));
    Widths();
    hide PlaceFields, Num, Pow256;
    PutAllHolds(Zeroes(72), PlaceFields(h), 0);
    NumLe(0, 4);
  }

  // ----- tables on disk -----

  lemma Sizes()
    ensures Span(ENTRIES, ENTRY) == TABLE_BYTES && Span(TABLE_SECTORS, SECTOR) == TABLE_BYTES
  {}

  predicate IsTable(t: seq<Entry>) { |t| == ENTRIES }

  function TableBytes(t: seq<Entry>): (b: Octets)
    requires IsTable(t)
    ensures |b| == TABLE_BYTES
  {
    Sizes();
    FlatLen(t, ENTRY);
    Flat(t)
  }

  /** The table's 32 sectors. */
  function TableSectors(t: seq<Entry>): (r: seq<Octets>)
    requires IsTable(t)
    ensures |r| == TABLE_SECTORS && Uniform(r, SECTOR)
  {
    Sizes();
    FlatCut(TableBytes(t), SECTOR, TABLE_SECTORS);
    Cut(TableBytes(t), SECTOR, TABLE_SECTORS)
  }

  function PutTable(blocks: seq<Octets>, lba: nat, t: seq<Entry>): (r: seq<Octets>)
    requires IsTable(t) && lba + TABLE_SECTORS <= |blocks|
    ensures |r| == |blocks|
  {
    blocks[..lba] + TableSectors(t) + blocks[lba + TABLE_SECTORS..]
  }

  /** The table read from 32 sectors, as 128 entries. */
  function GetTable(blocks: seq<Octets>, lba: nat): (t: seq<Octets>)
    requires lba + TABLE_SECTORS <= |blocks| && Uniform(blocks, SECTOR)
    ensures |t| == ENTRIES
  {
    Sizes();
    FlatLen(blocks[lba..lba + TABLE_SECTORS], SECTOR);
    Cut(Flat(blocks[lba..lba + TABLE_SECTORS]), ENTRY, ENTRIES)
  }

  /** 32 sectors that hold a table read as that table. */
  lemma TableBack(blocks: seq<Octets>, lba: nat, t: seq<Entry>)
    requires IsTable(t) && lba + TABLE_SECTORS <= |blocks| && Uniform(blocks, SECTOR)
    ensures GetTable(blocks, lba) == t <==> blocks[lba..lba + TABLE_SECTORS] == TableSectors(t)
  {
    hide Flat, Cut, Span;
    Sizes();
    var part := blocks[lba..lba + TABLE_SECTORS];
    FlatCut(TableBytes(t), SECTOR, TABLE_SECTORS);
    CutFlat(t, ENTRY);
    CutFlat(part, SECTOR);
    FlatCut(Flat(part), ENTRY, ENTRIES);
  }

  // ----- the pair of headers and tables -----

  function Guid(total: nat): Octets { Le(GUID_SEED, 8) + Le(total, 8) }

  /** The primary header of a disk of `total` sectors with table t. */
  function Primary(total: nat, t: seq<Entry>): Header
    requires IsTable(t) && total >= 64
  {
    Header(1, total - 1, 2 + TABLE_SECTORS, total - 1 - TABLE_SECTORS - 1, Guid(total), 2, ENTRIES, ENTRY,
      Crc32.Sum(TableBytes(t)))
  }

  /** The usable range lies strictly between the primary structures and their mirror, and every sector between
      them is usable. */
  lemma UsableApart(total: nat, t: seq<Entry>)
    requires IsTable(t) && total >= 67
    ensures var h := Primary(total, t);
            h.first == h.table + TABLE_SECTORS && h.last + 1 == Mirror(h).table && h.first <= h.last + 1
  {
    hide Le, Crc32.Sum, TableBytes;
  }

  /** Its mirror at the end of the disk. */
  function Mirror(h: Header): Header
    requires h.backup >= TABLE_SECTORS
  {
    h.(current := h.backup, backup := h.current, table := h.backup - TABLE_SECTORS)
  }

  /** Both headers have the bytes and the checksums they should have and point at each other, and both tables
      are t. */
  ghost predicate Consistent(blocks: seq<Octets>, t: seq<Entry>) {
    && IsTable(t) && Uniform(blocks, SECTOR) && 67 <= |blocks| < W64
    && Images(blocks, Crc32.Sum(TableBytes(t)))
    && var h := Primary(|blocks|, t);
       && ReadHeader(blocks[1]) == Some(h) && ReadHeader(blocks[|blocks| - 1]) == Some(Mirror(h))
       && GetTable(blocks, h.table) == t && GetTable(blocks, Mirror(h).table) == t
  }

  predicate Images(blocks: seq<Octets>, sum: nat)
    requires |blocks| >= 67
  {
    var total := |blocks|;
    && HeaderImage(blocks[1], total, 1, total - 1, 2, sum)
    && HeaderImage(blocks[total - 1], total, total - 1, 1, total - 33, sum)
  }

  /** What write_gpt_pair leaves on the disk. */
  function PairWritten(blocks: seq<Octets>, h: Header, t: seq<Entry>): (r: seq<Octets>)
    requires IsTable(t) && |h.guid| == 16 && h.table + TABLE_SECTORS <= |blocks| && h.current < |blocks|
    requires TABLE_SECTORS <= h.backup < |blocks|
    ensures |r| == |blocks|
  {
    var m := Mirror(h);
    var a := PutTable(blocks, h.table, t)[h.current := Sealed(h)];
    PutTable(a, m.table, t)[m.current := Sealed(m)]
  }

  lemma PutUniform(blocks: seq<Octets>, lba: nat, t: seq<Entry>)
    requires IsTable(t) && lba + TABLE_SECTORS <= |blocks| && Uniform(blocks, SECTOR)
    ensures Uniform(PutTable(blocks, lba, t), SECTOR)
  {
    hide TableSectors;
  }

  lemma PutAt(blocks: seq<Octets>, lba: nat, t: seq<Entry>)
    requires IsTable(t) && lba + TABLE_SECTORS <= |blocks|
    ensures var r := PutTable(blocks, lba, t);
            && r[lba..lba + TABLE_SECTORS] == TableSectors(t)
            && forall k :: 0 <= k < |blocks| && !(lba <= k < lba + TABLE_SECTORS) ==> r[k] == blocks[k]
  {
    hide TableSectors;
  }

  lemma PrimaryOk(total: nat, t: seq<Entry>)
    requires IsTable(t) && 64 <= total < W64
    ensures HeaderOk(Primary(total, t)) && HeaderOk(Mirror(Primary(total, t)))
  {
    hide Le, Crc32.Sum, TableBytes;
  }

  /** From 67 sectors on nothing overlaps, and writing the pair makes the disk consistent. */
  lemma PairConsistent(blocks: seq<Octets>, t: seq<Entry>)
    requires IsTable(t) && Uniform(blocks, SECTOR) && 67 <= |blocks| < W64
    ensures var d := PairWritten(blocks, Primary(|blocks|, t), t); Consistent(d, t) && Kept(blocks, d)
  {
    hide Sealed, TableSectors, ReadHeader, GetTable, Primary, PairWritten, HeaderImage, TableBytes, Crc32.Sum;
    var total := |blocks|;
    PrimaryOk(total, t);
    PrimaryPlaces(total, t);
    PrimaryImages(total, t);
    var h := Primary(total, t);
    var m := Mirror(h);
    var d := PairWritten(blocks, h, t);
    PairSectors(blocks, h, t);
    SealedReads(h);
    SealedReads(m);
    TableBack(d, 2, t);
    TableBack(d, total - 33, t);
  }

  /** The boot sector and all sectors between the copies are as they were. */
  predicate Kept(blocks: seq<Octets>, d: seq<Octets>) {
    && |d| == |blocks| > 0 && d[0] == blocks[0]
    && forall k :: 34 <= k < |blocks| - 33 ==> d[k] == blocks[k]
  }

  lemma PrimaryImages(total: nat, t: seq<Entry>)
    requires IsTable(t) && 67 <= total < W64
    ensures var h, sum := Primary(total, t), Crc32.Sum(TableBytes(t));
            && h.backup >= TABLE_SECTORS && |h.guid| == 16 && HeaderImage(Sealed(h), total, 1, total - 1, 2, sum)
            && HeaderImage(Sealed(Mirror(h)), total, total - 1, 1, total - 33, sum)
  {
    PrimaryOk(total, t);
    hide Sealed, HeaderImage, TableBytes, Crc32.Sum, Guid, HeaderOk;
    SealedImage(Primary(total, t), total);
    SealedImage(Mirror(Primary(total, t)), total);
  }

  lemma PrimaryPlaces(total: nat, t: seq<Entry>)
    requires IsTable(t) && total >= 64
    ensures var h := Primary(total, t); h.current == 1 && h.backup == total - 1 && h.table == 2 && |h.guid| == 16
  {
    hide Le, Crc32.Sum, TableBytes;
  }

  lemma PairSectors(blocks: seq<Octets>, h: Header, t: seq<Entry>)
    requires IsTable(t) && Uniform(blocks, SECTOR) && |blocks| >= 67 && |h.guid| == 16
    requires h.current == 1 && h.backup == |blocks| - 1 && h.table == 2
    ensures var d, total := PairWritten(blocks, h, t), |blocks|;
            && Uniform(d, SECTOR) && d[1] == Sealed(h) && d[total - 1] == Sealed(Mirror(h))
            && d[2..34] == TableSectors(t) && d[total - 33..total - 1] == TableSectors(t)
            && Kept(blocks, d)
  {
    hide Sealed, TableSectors, PutTable;
    var total, m := |blocks|, Mirror(h);
    var a := PutTable(blocks, 2, t);
    PutAt(blocks, 2, t);
    PutUniform(blocks, 2, t);
    var b := a[1 := Sealed(h)];
    var c := PutTable(b, total - 33, t);
    PutAt(b, total - 33, t);
    PutUniform(b, total - 33, t);
    var d := c[total - 1 := Sealed(m)];
    assert d == PairWritten(blocks, h, t);
    assert d[total - 33..total - 1] == c[total - 33..total - 1];
    assert d[2..34] == a[2..34];
  }

  /** Below 67 sectors the copies overlap: the mirror lands on the end of the primary table. */
  lemma PairOverlaps(blocks: seq<Octets>, t: seq<Entry>)
    requires IsTable(t) && Uniform(blocks, SECTOR) && 64 <= |blocks| < 67
    requires TableSectors(t)[0] != TableSectors(t)[|blocks| - 35]
    ensures var d := PairWritten(blocks, Primary(|blocks|, t), t); Uniform(d, SECTOR) && GetTable(d, 2) != t
  {
    hide Sealed, TableSectors, PutTable, Primary, GetTable;
    var total := |blocks|;
    PrimaryPlaces(total, t);
    var h := Primary(total, t);
    var a := PutTable(blocks, 2, t);
    PutUniform(blocks, 2, t);
    var b := a[1 := Sealed(h)];
    var c := PutTable(b, total - 33, t);
    PutAt(b, total - 33, t);
    PutUniform(b, total - 33, t);
    var d := c[total - 1 := Sealed(Mirror(h))];
    assert d == PairWritten(blocks, h, t);
    assert c[total - 33] == c[total - 33..total - 33 + TABLE_SECTORS][0] == TableSectors(t)[0];
    assert d[2..2 + TABLE_SECTORS][total - 35] == d[total - 33];
    TableBack(d, 2, t);
  }

  // ----- schemes -----

  datatype Kind = Gpt | Mbr | NoScheme

  /** A boot signature, and a partition type that is not zero. */
  predicate IsMbr(b: Octets)
    requires |b| == SECTOR
  {
    b[510] == 0x55 && b[511] == 0xAA && exists i :: 0 <= i < 4 && b[450 + 16 * i] != 0
  }

  /** The types of the four entries are at 450, 466, 482 and 498. */
  lemma MbrExactly(b: Octets)
    requires |b| == 512
    ensures IsMbr(b) <==> b[510..512] == [0x55, 0xAA] && (b[450] != 0 || b[466] != 0 || b[482] != 0 || b[498] != 0)
  {
    assert b[510..512] == [b[510], b[511]];
    assert b[450] == b[450 + 16 * 0] && b[466] == b[450 + 16 * 1] && b[482] == b[450 + 16 * 2];
    assert b[498] == b[450 + 16 * 3];
  }

  /** canboot_part_detect. */
  function Scheme(blocks: seq<Octets>): Kind
    requires Uniform(blocks, SECTOR)
  {
    if |blocks| > 1 && ReadHeader(blocks[1]).Some? then Gpt
    else if |blocks| > 0 && IsMbr(blocks[0]) then Mbr
    else NoScheme
  }

  /** A disk without partitions, and not one of those on which a fresh GPT overlaps itself. */
  predicate Blank(blocks: seq<Octets>) {
    Uniform(blocks, SECTOR) && |blocks| < W64 && !(64 <= |blocks| < 67) && Scheme(blocks) == NoScheme
  }

  /** A zeroed disk is blank. */
  lemma ZeroedIsBlank(blocks: seq<Octets>)
    requires 67 <= |blocks| < W64 && forall k :: 0 <= k < |blocks| ==> blocks[k] == Zeroes(512)
    ensures Blank(blocks)
  {
    assert Uniform(blocks, SECTOR);
    var b := blocks[1];
    assert Num(b[0..8]) == 0 by { NumZero(b[0..8]); }
    hide Crc32.Sum, Num;
  }

  /** A disk made by CanBoot that has lost its primary header is taken for an MBR disk. */
  lemma LostHeader(blocks: seq<Octets>)
    requires Uniform(blocks, SECTOR) && |blocks| >= 67 && IsProtective(blocks[0], |blocks|)
    requires ReadHeader(blocks[1]) == None
    ensures Scheme(blocks) == Mbr && !Blank(blocks)
  {
    hide ReadHeader, Num;
    var b := blocks[0];
    assert b[510] == b[510..512][0] && b[511] == b[510..512][1] && b[450 + 16 * 0] != 0;
  }

  // ----- the operations -----

  const NO_ENTRIES: seq<Entry> := seq<Entry>(ENTRIES, _ => EMPTY)

  lemma NoEntriesEmpty()
    ensures IsTable(NO_ENTRIES) && Listing(NO_ENTRIES) == []
  {
    EmptyListing(NO_ENTRIES);
  }

  lemma {:induction false} EmptyListing(t: seq<Entry>)
    requires forall k :: 0 <= k < |t| ==> !Live(t[k])
    ensures Listing(t) == []
  {
    hide Live, PartOf;
    if t != [] { EmptyListing(t[..|t| - 1]); }
  }

  function ProtectiveFields(total: nat): seq<Field>
    requires total >= 1
  {
    [Field(450, [0xEE]), Field(454, Le(1, 4)), Field(458, Le(if total - 1 >= W32 then W32 - 1 else total - 1, 4)),
      Field(510, [0x55, 0xAA])]
  }

  function Protective(total: nat): (b: Octets)
    requires total >= 1
    ensures |b| == SECTOR
  {
    assert Fit(ProtectiveFields(total), SECTOR) by { hide Le; }
    PutAll(Zeroes(SECTOR), ProtectiveFields(total))
  }

  /** The boot sector of a GPT disk of `total` sectors: one entry of type 0xEE over the whole disk, as far as 32 bits
      go, the signature, and zeros. */
  predicate IsProtective(b: Octets, total: nat) {
    && |b| == 512 && b[510..512] == [0x55, 0xAA] && b[450] == 0xEE && Num(b[454..458]) == 1
    && Num(b[458..462]) == (if total - 1 > 0xFFFF_FFFF then 0xFFFF_FFFF else total - 1)
    && forall k :: 0 <= k < 510 && k != 450 && !(454 <= k < 462) ==> b[k] == 0
  }

  lemma ProtectiveBytes(total: nat)
    requires total >= 1
    ensures IsProtective(Protective(total), total)
  {
    var fs, b, z := ProtectiveFields(total), Protective(total), Zeroes(SECTOR);
    var count := if total - 1 >= W32 then W32 - 1 else total - 1;
    assert |fs| == 4 && fs[0] == Field(450, [0xEE]) && fs[1] == Field(454, Le(1, 4)) by { hide Le; }
    assert fs[2] == Field(458, Le(count, 4)) && fs[3] == Field(510, [0x55, 0xAA]) by { hide Le; }
    assert Fit(fs, SECTOR) && b == PutAll(z, fs) by { hide Le; }
    Widths();
    hide ProtectiveFields, Protective, Le, Num, PutAll, Pow256, Zeroes;
    assert InOrder(fs);
    PutAllHolds(z, fs, 0);
    assert b[450..451][0] == b[450];
    PutAllHolds(z, fs, 1);
    PutAllHolds(z, fs, 2);
    PutAllHolds(z, fs, 3);
    NumLe(1, 4);
    NumLe(count, 4);
    forall k | 0 <= k < 510 && k != 450 && !(454 <= k < 462) ensures b[k] == 0 {
      PutAllKeeps(z, fs, k, 1);
      assert b[k..k + 1][0] == b[k] && z[k..k + 1][0] == z[k];
    }
  }

  class Disk {
    const writable: bool
    const blockSize: nat
    var blocks: seq<Octets>

    constructor (writable: bool, blockSize: nat, blocks: seq<Octets>)
      ensures this.writable == writable && this.blockSize == blockSize && this.blocks == blocks
    {
      this.writable, this.blockSize, this.blocks := writable, blockSize, blocks;
    }

    /** write_gpt_pair: checksums, primary table, primary header, mirror table, mirror header. */
    method WritePair(h: Header, t: seq<Entry>) returns (ok: bool)
      requires IsTable(t) && HeaderOk(h) && h.table + TABLE_SECTORS <= |blocks| && h.current < |blocks|
      requires TABLE_SECTORS <= h.backup < |blocks|
      modifies this`blocks
      ensures ok == writable
      ensures ok ==> blocks == PairWritten(old(blocks), h.(sum := Crc32.Sum(TableBytes(t))), t)
      ensures !ok ==> blocks == old(blocks)
    {
      hide Sealed, PutTable, Crc32.Sum, TableBytes;
      if !writable { return false; }
      var p := h.(sum := Crc32.Sum(TableBytes(t)));
      blocks := PutTable(blocks, p.table, t);
      blocks := blocks[p.current := Sealed(p)];
      var m := p.(current := p.backup, backup := p.current, table := p.backup - TABLE_SECTORS);
      blocks := PutTable(blocks, m.table, t);
      blocks := blocks[m.current := Sealed(m)];
      ok := true;
    }

    /** canboot_part_init_gpt: accepts writable 512-byte disks of 64 sectors and more; from 67 on the result
        is a consistent, empty GPT. */
    method InitGpt() returns (ok: bool)
      requires Uniform(blocks, SECTOR) && |blocks| < W64
      modifies this`blocks
      ensures ok <==> writable && blockSize == SECTOR && |old(blocks)| >= 64
      ensures |blocks| == |old(blocks)|
      ensures ok && |blocks| >= 67 ==> Consistent(blocks, NO_ENTRIES) && Listing(NO_ENTRIES) == []
      ensures ok && |blocks| >= 67 ==>
              IsProtective(blocks[0], |blocks|) && forall k :: 34 <= k < |blocks| - 33 ==> blocks[k] == old(blocks)[k]
      ensures !ok ==> blocks == old(blocks)
    {
      hide Sealed, PutTable, Crc32.Sum, TableBytes, ReadHeader, GetTable, Consistent, Protective, Le, Live, HeaderOk;
      hide IsProtective;
      if !writable || blockSize != SECTOR { return false; }
      var total := |blocks|;
      if total < 64 { return false; }
      NoEntriesEmpty();
      ProtectiveBytes(total);
      blocks := blocks[0 := Protective(total)];
      ghost var before := blocks;
      var h := Header(1, total - 1, 2 + TABLE_SECTORS, total - 1 - TABLE_SECTORS - 1, Guid(total), 2, ENTRIES, ENTRY,
        0);
      PrimaryOk(total, NO_ENTRIES);
      assert HeaderOk(h) by { SumFree(Primary(total, NO_ENTRIES), 0); }
      ok := WritePair(h, NO_ENTRIES);
      if total >= 67 { PairConsistent(before, NO_ENTRIES); }
    }

    /** read_gpt_header and read_gpt_table on a consistent disk. */
    method Load(ghost t: seq<Entry>) returns (h: Header, tbl: seq<Entry>)
      requires Consistent(blocks, t)
      ensures tbl == t && h == Primary(|blocks|, t)
    {
      hide Sealed, ReadHeader, GetTable, Primary;
      PrimaryPlaces(|blocks|, t);
      h := ReadHeader(blocks[1]).value;
      tbl := GetTable(blocks, h.table);
    }

    /** Writes the pair back with one slot changed. */
    method Update(ghost t: seq<Entry>, h: Header, tbl: seq<Entry>, i: nat, e: Entry) returns (ok: bool)
      requires Consistent(blocks, t) && tbl == t && h == Primary(|blocks|, t) && i < ENTRIES
      modifies this`blocks
      ensures ok == writable && |blocks| == |old(blocks)|
      ensures ok ==> Consistent(blocks, t[i := e]) && Kept(old(blocks), blocks)
      ensures !ok ==> blocks == old(blocks)
    {
      hide Sealed, PutTable, Crc32.Sum, TableBytes, ReadHeader, GetTable, HeaderOk, Le;
      PrimaryOk(|blocks|, t);
      PrimaryPlaces(|blocks|, t);
      PairConsistent(blocks, t[i := e]);
      hide Consistent;
      ok := WritePair(h, tbl[i := e]);
    }

    /** canboot_part_create on a GPT disk or one without partitions, which gets an empty GPT first: the first
        free slot gets the range and the name. */
    method Create(start: nat, end: nat, name: Octets, ghost t: seq<Entry>) returns (slot: int)
      requires Consistent(blocks, t) || (Blank(blocks) && t == NO_ENTRIES)
      requires start < W64 && end < W64
      modifies this`blocks
      ensures slot >= 0 ==>
              slot < ENTRIES && FirstFree(t, slot) && Consistent(blocks, t[slot := NewEntry(slot, start, end, name)])
      ensures slot < 0 <==> || !writable || end < start || (forall k :: 0 <= k < ENTRIES ==> Live(t[k]))
                            || (Blank(old(blocks)) && (blockSize != SECTOR || |old(blocks)| < 64))
      ensures slot < 0 ==> blocks == old(blocks)
      ensures slot >= 0 && Consistent(old(blocks), t) ==> Kept(old(blocks), blocks)
      ensures slot >= 0 && !Consistent(old(blocks), t) ==>
              && |blocks| == |old(blocks)| >= 67 && IsProtective(blocks[0], |blocks|)
              && forall k :: 34 <= k < |blocks| - 33 ==> blocks[k] == old(blocks)[k]
    {
      hide Consistent, Live, NewEntry, Primary, Scheme, Listing, IsProtective;
      if Consistent(blocks, t) { ConsistentScheme(blocks, t); } else { NoEntriesFree(); }
      if !writable || end < start { return -1; }
      if Scheme(blocks) == NoScheme {
        var ok := InitGpt();
        if !ok { return -1; }
      }
      var h, tbl := Load(t);
      assert |t| == ENTRIES by { ConsistentSize(blocks, t); }
      var found, i := FindFree(tbl);
      if !found { return -1; }
      var ok := Update(t, h, tbl, i, NewEntry(i, start, end, name));
      slot := i;
    }

    /** canboot_part_delete on a GPT disk: the slot is cleared. */
    method Delete(idx: nat, ghost t: seq<Entry>) returns (ok: bool)
      requires Consistent(blocks, t)
      modifies this`blocks
      ensures ok <==> writable && idx < ENTRIES
      ensures ok ==> |t| == ENTRIES && Consistent(blocks, t[idx := EMPTY]) && Kept(old(blocks), blocks)
      ensures !ok ==> blocks == old(blocks)
    {
      hide Consistent;
      assert |t| == ENTRIES by { ConsistentSize(blocks, t); }
      if !writable { return false; }
      var h, tbl := Load(t);
      if idx >= h.count { return false; }
      ok := Update(t, h, tbl, idx, EMPTY);
    }

    /** canboot_part_resize on a GPT disk: a live slot gets a new end, not before its start. */
    method Resize(idx: nat, newEnd: nat, ghost t: seq<Entry>) returns (ok: bool)
      requires Consistent(blocks, t) && newEnd < W64
      modifies this`blocks
      ensures |t| == ENTRIES && (ok <==> writable && idx < ENTRIES && Live(t[idx]) && PartOf(t[idx]).start <= newEnd)
      ensures ok ==> Consistent(blocks, t[idx := Resized(t[idx], newEnd)]) && Kept(old(blocks), blocks)
      ensures !ok ==> blocks == old(blocks)
    {
      hide Consistent, Live, PartOf, Resized;
      assert |t| == ENTRIES by { ConsistentSize(blocks, t); }
      if !writable { return false; }
      var h, tbl := Load(t);
      if idx >= h.count { return false; }
      var empty := IsEmpty(tbl[idx]);
      if empty { return false; }
      if newEnd < PartOf(tbl[idx]).start { return false; }
      ok := Update(t, h, tbl, idx, Resized(tbl[idx], newEnd));
    }

    /** canboot_part_list on a GPT disk: the live slots in slot order, at most `max`. */
    method ListParts(max: nat, ghost t: seq<Entry>) returns (out: seq<Part>)
      requires Consistent(blocks, t)
      ensures out == UpTo(Listing(t), max)
    {
      hide Consistent, Listing;
      var h, tbl := Load(t);
      out := List(tbl, max);
    }
  }

  /** A blank disk has 128 free slots. */
  lemma NoEntriesFree()
    ensures |NO_ENTRIES| == ENTRIES && !Live(NO_ENTRIES[0])
  {
    EmptyNotLive();
  }

  lemma ConsistentScheme(blocks: seq<Octets>, t: seq<Entry>)
    requires Consistent(blocks, t)
    ensures Uniform(blocks, SECTOR) && Scheme(blocks) == Gpt && !Blank(blocks)
  {
    hide ReadHeader, GetTable, Primary;
  }

  lemma ConsistentSize(blocks: seq<Octets>, t: seq<Entry>)
    requires Consistent(blocks, t)
    ensures |t| == ENTRIES && 67 <= |blocks|
  {}

  lemma SumFree(h: Header, sum: nat)
    requires HeaderOk(h) && sum < W32
    ensures HeaderOk(h.(sum := sum))
  {}

  /** Create, seen through the listing: one more partition, with its range and its name, in slot order. */
  lemma CreateLists(t: seq<Entry>, slot: nat, start: nat, end: nat, name: Octets)
    requires FirstFree(t, slot) && start < W64 && end < W64 && IsAscii(name)
    ensures Listing(t) == Listing(t[..slot]) + Listing(t[slot + 1..])
    ensures Listing(t[slot := NewEntry(slot, start, end, name)])
            == Listing(t[..slot]) + [Asked(start, end, name)] + Listing(t[slot + 1..])
    ensures |Listing(t[..slot])| == slot
  {
    hide Live, PartOf, NewEntry, Listing;
    CreatedPart(slot, start, end, name);
    ListingSet(t, slot, NewEntry(slot, start, end, name));
    FullListing(t[..slot]);
  }

  lemma {:induction false} FullListing(t: seq<Entry>)
    requires forall k :: 0 <= k < |t| ==> Live(t[k])
    ensures |Listing(t)| == |t|
  {
    hide Live, PartOf;
    if t != [] { FullListing(t[..|t| - 1]); }
  }

  /** Delete, seen through the listing. */
  lemma DeleteLists(t: seq<Entry>, idx: nat)
    requires idx < |t|
    ensures Listing(t[idx := EMPTY]) == Listing(t[..idx]) + Listing(t[idx + 1..])
  {
    hide Live, PartOf, Listing;
    EmptyNotLive();
    ListingSet(t, idx, EMPTY);
  }

  /** Resize, seen through the listing: the end of one partition. */
  lemma ResizeLists(t: seq<Entry>, idx: nat, newEnd: nat)
    requires idx < |t| && Live(t[idx]) && newEnd < W64
    ensures Listing(t) == Listing(t[..idx]) + [PartOf(t[idx])] + Listing(t[idx + 1..])
    ensures var p := PartOf(t[idx]);
            Listing(t[idx := Resized(t[idx], newEnd)])
            == Listing(t[..idx]) + [p.(end := newEnd, size := Extends(p.start, newEnd))] + Listing(t[idx + 1..])
  {
    hide Live, PartOf, Listing, Resized;
    ResizedPart(t[idx], newEnd);
    ListingSet(t, idx, Resized(t[idx], newEnd));
  }

  // ----- how large a disk must be -----

  /** Writing the pair leaves the table readable where the primary header says it is. */
  ghost predicate KeepsTable(blocks: seq<Octets>, t: seq<Entry>)
    requires IsTable(t) && Uniform(blocks, SECTOR) && |blocks| >= 64
  {
    PrimaryPlaces(|blocks|, t);
    var d := PairWritten(blocks, Primary(|blocks|, t), t);
    Uniform(d, SECTOR) && GetTable(d, 2) == t
  }

  ghost predicate LargeEnough(n: nat) {
    forall blocks: seq<Octets>, t: seq<Entry> {:trigger KeepsTable(blocks, t)} ::
      IsTable(t) && Uniform(blocks, SECTOR) && |blocks| == n && n >= 64 ==> KeepsTable(blocks, t)
  }

  /** Sector k of a table starts with entry 4k. */
  lemma SectorStart(t: seq<Entry>, k: nat)
    requires IsTable(t) && k < TABLE_SECTORS
    ensures TableSectors(t)[k][0] == t[4 * k][0]
  {
    hide Flat, Cut;
    Sizes();
    var sectors := TableSectors(t);
    FlatCut(TableBytes(t), SECTOR, TABLE_SECTORS);
    FlatAt(sectors, SECTOR, k, 0);
    FlatAt(t, ENTRY, 4 * k, 0);
    assert Span(k, SECTOR) == 512 * k && Span(4 * k, ENTRY) == 512 * k;
  }

  /** A table survives being written, on every disk of n sectors, exactly if n is at least 67, although
      initialisation accepts 64. */
  lemma LargeExactly(n: nat)
    requires 64 <= n < W64
    ensures LargeEnough(n) <==> n >= 67
  {
    hide Sealed, TableSectors, PairWritten, Primary, GetTable, ReadHeader;
    if n >= 67 {
      forall blocks: seq<Octets>, t: seq<Entry> | IsTable(t) && Uniform(blocks, SECTOR) && |blocks| == n
        ensures KeepsTable(blocks, t)
      {
        PairConsistent(blocks, t);
        PrimaryPlaces(n, t);
      }
    } else {
      var e: Entry := [1] + Zeroes(ENTRY - 1);
      var t: seq<Entry> := NO_ENTRIES[0 := e];
      var blocks := seq(n, _ => Zeroes(SECTOR));
      SectorStart(t, 0);
      SectorStart(t, n - 35);
      PairOverlaps(blocks, t);
      assert !KeepsTable(blocks, t);
    }
  }
}
