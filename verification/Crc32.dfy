/** The table-driven CRC-32 and its bit-at-a-time definition. */
module Crc32 {

  const POLY: bv32 := 0xEDB8_8320
  const ONES: bv32 := 0xFFFF_FFFF

  function Xor(a: bv32, b: bv32): bv32 { a ^ b }
  function Half(b: bv32): bv32 { b >> 1 }
  predicate Even(b: bv32) { b & 1 == 0 }

  /** One bit of the reflected CRC. */
  function Bit(c: bv32): bv32 { if Even(c) then Half(c) else Xor(POLY, Half(c)) }

  function Bits(c: bv32, n: nat): bv32
    decreases n
  {
    if n == 0 then c else Bits(Bit(c), n - 1)
  }

  /** The CRC register after a byte string, bit by bit. */
  function Register(c: bv32, data: seq<bv8>): bv32 {
    if data == [] then c else Bits(Xor(Register(c, data[..|data| - 1]), data[|data| - 1] as bv32), 8)
  }

  function Crc(data: seq<bv8>): bv32 { Last(Register(ONES, data)) }

  /** A part whose low bit is clear only shifts. */
  lemma BitSplit(a: bv32, b: bv32)
    requires Even(b)
    ensures Bit(Xor(a, b)) == Xor(Bit(a), Half(b))
  {
    hide Xor, Half, Even;
    LowBit(a, b);
    ShiftXor(a, b);
    XorAssoc(POLY, Half(a), Half(b));
  }

  lemma LowBit(a: bv32, b: bv32)
    requires Even(b)
    ensures Even(Xor(a, b)) == Even(a)
  {}

  lemma ShiftXor(a: bv32, b: bv32)
    ensures Half(Xor(a, b)) == Xor(Half(a), Half(b))
  {}

  lemma XorAssoc(a: bv32, b: bv32, c: bv32)
    ensures Xor(a, Xor(b, c)) == Xor(Xor(a, b), c)
  {}

  predicate Clear(b: bv32, n: nat)
    decreases n
  {
    n == 0 || (Even(b) && Clear(Half(b), n - 1))
  }

  function Down(b: bv32, n: nat): bv32
    decreases n
  {
    if n == 0 then b else Down(Half(b), n - 1)
  }

  lemma {:induction false} BitsSplit(a: bv32, b: bv32, n: nat)
    requires Clear(b, n)
    ensures Bits(Xor(a, b), n) == Xor(Bits(a, n), Down(b, n))
    decreases n
  {
    hide Bit, Xor, Half, Even;
    if n > 0 {
      BitSplit(a, b);
      BitsSplit(Bit(a), Half(b), n - 1);
    }
  }

  function Low(c: bv32): bv32 { c & 0xFF }
  function Upper(c: bv32): bv32 { c & 0xFFFF_FF00 }
  function Shift8(c: bv32): bv32 { c >> 8 }

  lemma HighPart(c: bv32)
    ensures c == Xor(Low(c), Upper(c)) && Clear(Upper(c), 8) && Down(Upper(c), 8) == Shift8(c)
  {
    hide Half, Even, Xor, Low, Shift8;
    var b := Upper(c);
    HighXor(c);
    HighHalf(c);
    var b1 := Half(b);
    var b2 := Half(b1);
    var b3 := Half(b2);
    var b4 := Half(b3);
    var b5 := Half(b4);
    var b6 := Half(b5);
    var b7 := Half(b6);
    hide Upper;
    assert Down(b, 8) == Down(b2, 6) && Down(b2, 6) == Down(b4, 4) && Down(b4, 4) == Down(b6, 2);
    assert Clear(b6, 2);
    assert Clear(b4, 4);
    assert Clear(b2, 6);
  }

  lemma HighXor(c: bv32)
    ensures c == Xor(Low(c), Upper(c))
  {}

  lemma HighHalf(c: bv32)
    ensures var b := Upper(c); var b1 := Half(b); var b2 := Half(b1); var b3 := Half(b2); var b4 := Half(b3);
            var b5 := Half(b4); var b6 := Half(b5); var b7 := Half(b6);
            && Even(b) && Even(b1) && Even(b2) && Even(b3) && Even(b4) && Even(b5) && Even(b6) && Even(b7)
            && Half(b7) == Shift8(c)
  {}

  /** Eight bits of a register: its low byte decides, the rest moves down. */
  lemma ByteSplit(c: bv32)
    ensures Bits(c, 8) == Xor(Bits(Low(c), 8), Shift8(c))
  {
    hide Bit, Bits, Clear, Down, Xor, Low, Upper, Shift8;
    HighPart(c);
    BitsSplit(Low(c), Upper(c), 8);
  }

  // ----- the table -----

  function Entry(i: nat): bv32
    requires i < 256
  {
    Bits(i as bv32, 8)
  }

  lemma BitIs(c: bv32)
    ensures Bit(c) == if c & 1 == 1 then POLY ^ (c >> 1) else c >> 1
  {
    assert c & 1 == 0 || c & 1 == 1;
  }

  lemma LowIndex(c: bv32)
    ensures Low(c) as int < 256 && (Low(c) as int) as bv32 == Low(c)
  {}

  /** One byte by table is eight bits. */
  lemma TableStep(c: bv32, b: bv8)
    ensures Low(Xor(c, b as bv32)) as int < 256
    ensures Xor(Entry(Low(Xor(c, b as bv32)) as int), Shift8(c)) == Bits(Xor(c, b as bv32), 8)
  {
    hide Bits, Xor, Low, Shift8;
    var x := Xor(c, b as bv32);
    LowIndex(x);
    ByteSplit(x);
    SameHigh(c, b);
  }

  lemma SameHigh(c: bv32, b: bv8)
    ensures Shift8(Xor(c, b as bv32)) == Shift8(c)
  {}

  /** crc32_buf with its lazily built table. */
  class Table {
    const entries: array<bv32>
    var built: bool

    ghost predicate Valid()
      reads this, entries
    {
      entries.Length == 256 && (built ==> forall i: nat :: i < 256 ==> entries[i] == Entry(i))
    }

    constructor ()
      ensures Valid() && !built && fresh(entries)
    {
      entries, built := new bv32[256], false;
    }

    method Build()
      requires Valid()
      modifies this`built, entries
      ensures Valid() && built
    {
      hide Bits;
      var i := 0;
      while i < 256
        invariant 0 <= i <= 256 && forall j: nat :: j < i ==> entries[j] == Entry(j)
      {
        entries[i] := EightBits(i as bv32);
        i := i + 1;
      }
      built := true;
    }

    /** The CRC-32 of the data, whether or not the table was there before. */
    method Checksum(data: seq<bv8>) returns (r: bv32)
      requires Valid()
      modifies this`built, entries
      ensures Valid() && built && r == Crc(data)
    {
      hide Bits, Entry, Xor, Low, Shift8;
      if !built { Build(); }
      var c, i := ONES, 0;
      assert data[..0] == [];
      while i < |data|
        invariant 0 <= i <= |data| && built && Valid() && c == Register(ONES, data[..i])
      {
        TableStep(c, data[i]);
        var k := Low(Xor(c, data[i] as bv32)) as int;
        NextByte(c, data, i);
        c := Xor(entries[k], Shift8(c));
        i := i + 1;
      }
      assert data[..i] == data;
      r := Last(c);
    }
  }

  function Last(c: bv32): bv32 { c ^ ONES }

  lemma NextByte(c: bv32, data: seq<bv8>, i: nat)
    requires i < |data| && c == Register(ONES, data[..i])
    ensures Register(ONES, data[..i + 1]) == Bits(Xor(c, data[i] as bv32), 8)
  {
    assert data[..i + 1][..i] == data[..i];
    hide Bits;
  }

  method EightBits(start: bv32) returns (c: bv32)
    ensures c == Bits(start, 8)
  {
    hide Bit;
    c := start;
    var k := 0;
    while k < 8
      invariant 0 <= k <= 8 && Bits(c, 8 - k) == Bits(start, 8)
    {
      BitIs(c);
      c := if c & 1 == 1 then POLY ^ (c >> 1) else c >> 1;
      k := k + 1;
    }
  }

  // ----- what the checksum is -----

  /** Eight bit steps, spelled out. */
  predicate EightSteps(c: bv32, s: seq<bv32>) {
    && |s| == 8 && s[0] == Bit(c) && s[1] == Bit(s[0]) && s[2] == Bit(s[1]) && s[3] == Bit(s[2]) && s[4] == Bit(s[3])
    && s[5] == Bit(s[4]) && s[6] == Bit(s[5]) && s[7] == Bit(s[6])
  }

  lemma Stepped(c: bv32, s: seq<bv32>)
    requires EightSteps(c, s)
    ensures Bits(c, 8) == s[7]
  {
    hide Bit;
    assert Bits(c, 8) == Bits(s[1], 6) && Bits(s[1], 6) == Bits(s[3], 4) && Bits(s[3], 4) == Bits(s[5], 2);
  }

  lemma {:induction false} BitsAdd(c: bv32, m: nat, n: nat)
    ensures Bits(c, m + n) == Bits(Bits(c, m), n)
    decreases m
  {
    if m > 0 { BitsAdd(Bit(c), m - 1, n); }
  }

  /** A register of ones after 32 bit steps: the residue that every message with its checksum leaves. */
  lemma OnesStepped()
    ensures Bits(ONES, 32) == 0xDEBB_20E3
  {
    hide Bits;
    Stepped(0xFFFF_FFFF, [0x9247_7CDF, 0xA49B_3D4F, 0xBFF5_1D87, 0xB242_0DE3,
      0xB499_85D1, 0xB7F4_41C8, 0x5BFA_20E4, 0x2DFD_1072]);
    Stepped(0x2DFD_1072, [0x16FE_8839, 0xE6C7_C73C, 0x7363_E39E, 0x39B1_F1CF,
      0xF160_7BC7, 0x9508_BEC3, 0xA73C_DC41, 0xBE26_ED00]);
    Stepped(0xBE26_ED00, [0x5F13_7680, 0x2F89_BB40, 0x17C4_DDA0, 0x0BE2_6ED0,
      0x05F1_3768, 0x02F8_9BB4, 0x017C_4DDA, 0x00BE_26ED]);
    Stepped(0x00BE_26ED, [0xEDE7_9056, 0x76F3_C82B, 0xD6C1_6735, 0x86D8_30BA,
      0x436C_185D, 0xCC0E_8F0E, 0x6607_4787, 0xDEBB_20E3]);
    BitsAdd(ONES, 8, 24);
    BitsAdd(0x2DFD_1072, 8, 16);
    BitsAdd(0xBE26_ED00, 8, 8);
  }

  /** The bytes of a checksum, lowest first. */
  function ByteOf(c: bv32, n: nat): bv8
    requires n < 4
  {
    if n == 0 then (c & 0xFF) as bv8
    else if n == 1 then ((c >> 8) & 0xFF) as bv8
    else if n == 2 then ((c >> 16) & 0xFF) as bv8
    else (c >> 24) as bv8
  }

  function Trailer(c: bv32): seq<bv8> { [ByteOf(c, 0), ByteOf(c, 1), ByteOf(c, 2), ByteOf(c, 3)] }

  /** A byte in its place in the word. */
  function Part(c: bv32, n: nat): bv32 {
    if n == 0 then c & 0xFF else if n == 1 then c & 0xFF00 else if n == 2 then c & 0xFF_0000 else c & 0xFF00_0000
  }

  lemma LowClear(b: bv32)
    requires Low(b) == 0
    ensures Clear(b, 8) && Down(b, 8) == Shift8(b)
  {
    assert Upper(b) == b by { NoLow(b); }
    hide Low, Upper, Clear, Down, Shift8;
    HighPart(b);
  }

  lemma NoLow(b: bv32)
    requires Low(b) == 0
    ensures Upper(b) == b
  {}

  lemma {:induction false} ClearAdd(b: bv32, m: nat, n: nat)
    requires Clear(b, m) && Clear(Down(b, m), n)
    ensures Clear(b, m + n) && Down(b, m + n) == Down(Down(b, m), n)
    decreases m
  {
    if m > 0 { ClearAdd(Half(b), m - 1, n); }
  }

  lemma PartZero(c: bv32)
    ensures Part(c, 0) == ByteOf(c, 0) as bv32
  {}

  lemma PartOne(c: bv32)
    ensures var p := Part(c, 1); Low(p) == 0 && Shift8(p) == ByteOf(c, 1) as bv32
  {}

  lemma PartTwo(c: bv32)
    ensures var p := Part(c, 2); Low(p) == 0 && Low(Shift8(p)) == 0 && Shift8(Shift8(p)) == ByteOf(c, 2) as bv32
  {}

  lemma PartThree(c: bv32)
    ensures var p := Part(c, 3);
            && Low(p) == 0 && Low(Shift8(p)) == 0 && Low(Shift8(Shift8(p))) == 0
            && Shift8(Shift8(Shift8(p))) == ByteOf(c, 3) as bv32
  {}

  lemma Parts(c: bv32)
    ensures c == Xor(Xor(Xor(Part(c, 0), Part(c, 1)), Part(c, 2)), Part(c, 3))
  {}

  lemma PartClear(c: bv32)
    ensures Clear(Part(c, 1), 8) && Down(Part(c, 1), 8) == ByteOf(c, 1) as bv32
    ensures Clear(Part(c, 2), 16) && Down(Part(c, 2), 16) == ByteOf(c, 2) as bv32
    ensures Clear(Part(c, 3), 24) && Down(Part(c, 3), 24) == ByteOf(c, 3) as bv32
  {
    hide Part, ByteOf, Low, Shift8, Clear, Down;
    PartOne(c);
    PartTwo(c);
    PartThree(c);
    LowClear(Part(c, 1));
    var p := Part(c, 2);
    LowClear(p);
    LowClear(Shift8(p));
    ClearAdd(p, 8, 8);
    var q := Part(c, 3);
    LowClear(q);
    LowClear(Shift8(q));
    LowClear(Shift8(Shift8(q)));
    ClearAdd(q, 8, 8);
    ClearAdd(q, 16, 8);
  }

  /** A byte fed n bits later is the byte n bits higher up. */
  lemma FedLater(x: bv32, p: bv32, b: bv32, n: nat)
    requires Clear(p, n) && Down(p, n) == b
    ensures Bits(Xor(Bits(x, n), b), 8) == Bits(Xor(x, p), n + 8)
  {
    hide Bits, Xor, Clear, Down;
    BitsSplit(x, p, n);
    BitsAdd(Xor(x, p), n, 8);
  }

  /** Four bytes in a row are one word. */
  lemma FedWord(r: bv32, c: bv32)
    ensures var r1 := Bits(Xor(r, ByteOf(c, 0) as bv32), 8);
            var r2 := Bits(Xor(r1, ByteOf(c, 1) as bv32), 8);
            var r3 := Bits(Xor(r2, ByteOf(c, 2) as bv32), 8);
            Bits(Xor(r3, ByteOf(c, 3) as bv32), 8) == Bits(Xor(r, c), 32)
  {
    hide Bits, Xor, Clear, Down, Part, ByteOf;
    PartZero(c);
    PartClear(c);
    Parts(c);
    var x0 := Xor(r, Part(c, 0));
    var x1 := Xor(x0, Part(c, 1));
    var x2 := Xor(x1, Part(c, 2));
    FedLater(x0, Part(c, 1), ByteOf(c, 1) as bv32, 8);
    FedLater(x1, Part(c, 2), ByteOf(c, 2) as bv32, 16);
    FedLater(x2, Part(c, 3), ByteOf(c, 3) as bv32, 24);
    XorAssoc(r, Part(c, 0), Part(c, 1));
    XorAssoc(r, Xor(Part(c, 0), Part(c, 1)), Part(c, 2));
    XorAssoc(r, Xor(Xor(Part(c, 0), Part(c, 1)), Part(c, 2)), Part(c, 3));
  }

  lemma {:induction false} RegisterConcat(c: bv32, a: seq<bv8>, b: seq<bv8>)
    ensures Register(c, a + b) == Register(Register(c, a), b)
    decreases |b|
  {
    hide Bits;
    if b == [] {
      assert a + b == a;
    } else {
      var n := |b| - 1;
      RegisterConcat(c, a, b[..n]);
      assert (a + b)[..|a + b| - 1] == a + b[..n];
    }
  }

  lemma FourFed(r: bv32, b: seq<bv8>)
    requires |b| == 4
    ensures var r1 := Bits(Xor(r, b[0] as bv32), 8);
            var r2 := Bits(Xor(r1, b[1] as bv32), 8);
            var r3 := Bits(Xor(r2, b[2] as bv32), 8);
            Register(r, b) == Bits(Xor(r3, b[3] as bv32), 8)
  {
    hide Bits, Xor, Register;
    RegisterLast(r, b);
    RegisterLast(r, b[..3]);
    RegisterLast(r, b[..2]);
    RegisterLast(r, b[..1]);
    assert b[..3][..2] == b[..2] && b[..2][..1] == b[..1] && b[..1][..0] == [];
    assert Register(r, []) == r by { RegisterNone(r); }
  }

  lemma RegisterLast(c: bv32, d: seq<bv8>)
    requires d != []
    ensures Register(c, d) == Bits(Xor(Register(c, d[..|d| - 1]), d[|d| - 1] as bv32), 8)
  {}

  lemma RegisterNone(c: bv32)
    ensures Register(c, []) == c
  {}

  /** Every message followed by its checksum leaves the same residue. */
  lemma Residue(data: seq<bv8>)
    ensures Register(ONES, data + Trailer(Crc(data))) == 0xDEBB_20E3
  {
    hide Bits, Xor, ByteOf, Last, Register;
    var r, c := Register(ONES, data), Crc(data);
    Complement(r);
    RegisterConcat(ONES, data, Trailer(c));
    FourFed(r, Trailer(c));
    FedWord(r, c);
    OnesStepped();
  }

  lemma Complement(r: bv32)
    ensures Xor(r, Last(r)) == ONES
  {}

  const DIGITS: seq<bv8> := [49, 50, 51, 52, 53, 54, 55, 56, 57]

  lemma FirstDigits()
    ensures Register(ONES, DIGITS[..3]) == 0x77B7_9C2D
  {
    hide Bits;
    assert DIGITS[..0] == [];
    Fed(DIGITS, 0, 0xFFFF_FFFF, 0xFFFF_FFCE, [0x7FFF_FFE7, 0xD247_7CD3, 0x849B_3D49, 0xAFF5_1D84,
      0x57FA_8EC2, 0x2BFD_4761, 0xF846_2090, 0x7C23_1048]);
    Fed(DIGITS, 1, 0x7C23_1048, 0x7C23_107A, [0x3E11_883D, 0xF2B0_473E, 0x7958_239F, 0xD114_92EF,
      0x8532_CA57, 0xAF21_E60B, 0xBA28_7025, 0xB0AC_BB32]);
    Fed(DIGITS, 2, 0xB0AC_BB32, 0xB0AC_BB01, [0xB5EE_DEA0, 0x5AF7_6F50, 0x2D7B_B7A8, 0x16BD_DBD4,
      0x0B5E_EDEA, 0x05AF_76F5, 0xEF6F_385A, 0x77B7_9C2D]);
  }

  lemma MiddleDigits()
    requires Register(ONES, DIGITS[..3]) == 0x77B7_9C2D
    ensures Register(ONES, DIGITS[..6]) == 0xF68D_2C9E
  {
    hide Bits;
    Fed(DIGITS, 3, 0x77B7_9C2D, 0x77B7_9C19, [0xD663_4D2C, 0x6B31_A696, 0x3598_D34B, 0xF774_EA85,
      0x9602_F662, 0x4B01_7B31, 0xC838_3EB8, 0x641C_1F5C]);
    Fed(DIGITS, 4, 0x641C_1F5C, 0x641C_1F69, [0xDFB6_8C94, 0x6FDB_464A, 0x37ED_A325, 0xF64E_52B2,
      0x7B27_2959, 0xD02B_178C, 0x6815_8BC6, 0x340A_C5E3]);
    Fed(DIGITS, 5, 0x340A_C5E3, 0x340A_C5D5, [0xF7BD_E1CA, 0x7BDE_F0E5, 0xD057_FB52, 0x682B_FDA9,
      0xD9AD_7DF4, 0x6CD6_BEFA, 0x366B_5F7D, 0xF68D_2C9E]);
  }

  lemma LastDigits()
    requires Register(ONES, DIGITS[..6]) == 0xF68D_2C9E
    ensures Register(ONES, DIGITS[..9]) == 0x340B_C6D9
  {
    hide Bits;
    Fed(DIGITS, 6, 0xF68D_2C9E, 0xF68D_2CA9, [0x96FE_1574, 0x4B7F_0ABA, 0x25BF_855D, 0xFF67_418E,
      0x7FB3_A0C7, 0xD261_5343, 0x8488_2A81, 0xAFFC_9660]);
    Fed(DIGITS, 7, 0xAFFC_9660, 0xAFFC_9658, [0x57FE_4B2C, 0x2BFF_2596, 0x15FF_92CB, 0xE747_4A45,
      0x9E1B_2602, 0x4F0D_9301, 0xCA3E_4AA0, 0x651F_2550]);
    Fed(DIGITS, 8, 0x651F_2550, 0x651F_2569, [0xDF37_1194, 0x6F9B_88CA, 0x37CD_C465, 0xF65E_6112,
      0x7B2F_3089, 0xD02F_1B64, 0x6817_8DB2, 0x340B_C6D9]);
  }

  /** The check value of CRC-32: the checksum of the digits 1 to 9. */
  lemma CheckValue()
    ensures Crc([49, 50, 51, 52, 53, 54, 55, 56, 57]) == 0xCBF4_3926
  {
    hide Register;
    FirstDigits();
    MiddleDigits();
    LastDigits();
    assert DIGITS[..9] == DIGITS;
  }

  lemma Fed(data: seq<bv8>, i: nat, c: bv32, x: bv32, s: seq<bv32>)
    requires i < |data| && c == Register(ONES, data[..i]) && x == c ^ (data[i] as bv32) && EightSteps(x, s)
    ensures Register(ONES, data[..i + 1]) == s[7]
  {
    hide Bits, EightSteps;
    Stepped(x, s);
    NextByte(c, data, i);
  }

  // ----- on plain numbers -----

  function Octet(b: nat): bv8 { (b % 256) as bv8 }

  /** The checksum of a byte string as a 32-bit number. */
  function Sum(data: seq<nat>): (r: nat)
    ensures r < 0x1_0000_0000
  {
    Crc(seq(|data|, k requires 0 <= k < |data| => Octet(data[k]))) as nat
  }

  lemma SumOf(data: seq<nat>, bytes: seq<bv8>)
    requires |data| == |bytes| && forall k :: 0 <= k < |data| ==> data[k] == bytes[k] as nat
    ensures Sum(data) == Crc(bytes) as nat
  {
    hide Crc, Octet;
    var all := seq(|data|, k requires 0 <= k < |data| => Octet(data[k]));
    forall k | 0 <= k < |data| ensures all[k] == bytes[k] { OctetBack(bytes[k]); }
    assert all == bytes;
  }

  lemma OctetBack(b: bv8)
    ensures Octet(b as nat) == b
  {
    var n := b as nat;
    assert n % 256 == n;
  }
}
