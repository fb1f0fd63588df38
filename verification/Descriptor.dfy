// Segment descriptors of the global descriptor table: eight bytes that scatter
// a 32-bit base, a 20-bit limit and the access byte (Intel 64 and IA-32
// Software Developer's Manual, volume 3A, section 3.4.5).
//
// The words are unsigned, so a right shift by k is a quotient by 2^k, a mask of
// the k low bits a remainder by 2^k, and joining bit fields that do not overlap
// a sum.  Ranges are part of the types: no shift or sum below leaves its word.

module Descriptor {

  import opened Words

  // ----- the packing as a function -----------------------------------------

  /** The 20-bit field the constructor stores: limits above 64K are kept in units of 4K. */
  function Squeeze(limit: uint32): (field: uint32)
    ensures field < 0x10_0000
  {
    if limit <= 65536 then limit
    else if limit % 0x1000 != 0xFFF then limit / 0x1000 - 1
    else limit / 0x1000
  }

  function LowByte(word: uint32): uint8 {
    (word % 0x100) as uint8
  }

  function LowNibble(word: uint32): (nibble: uint8)
    ensures nibble < 0x10
  {
    (word % 0x10) as uint8
  }

  function Pack(base: uint32, limit: uint32, access: uint8): (bytes: seq<uint8>)
    ensures |bytes| == 8
  {
    var field := Squeeze(limit);
    var flags: uint8 := if limit <= 65536 then 0x40 else 0xC0;
    [LowByte(field), LowByte(field / 0x100),
     LowByte(base), LowByte(base / 0x100), LowByte(base / 0x1_0000),
     access,
     flags + LowNibble(field / 0x1_0000),
     LowByte(base / 0x100_0000)]
  }

  function UnpackBase(bytes: seq<uint8>): uint32
    requires |bytes| == 8
  {
    ((bytes[7] as uint32 * 0x100 + bytes[4] as uint32) * 0x100 + bytes[3] as uint32) * 0x100
    + bytes[2] as uint32
  }

  function UnpackField(bytes: seq<uint8>): (field: uint32)
    requires |bytes| == 8
    ensures field < 0x10_0000
  {
    ((bytes[6] % 0x10) as uint32 * 0x100 + bytes[1] as uint32) * 0x100 + bytes[0] as uint32
  }

  /** Both of the two top flag bits of byte 6 are set. */
  predicate PageUnits(bytes: seq<uint8>)
    requires |bytes| == 8
  {
    bytes[6] >= 0xC0
  }

  function UnpackLimit(bytes: seq<uint8>): uint32
    requires |bytes| == 8
  {
    if PageUnits(bytes) then UnpackField(bytes) * 0x1000 + 0xFFF else UnpackField(bytes)
  }

  /** What the processor makes of the bytes: the granularity bit alone, bit 7 of
      byte 6, decides the unit of the limit. */
  function ProcessorLimit(bytes: seq<uint8>): uint32
    requires |bytes| == 8
  {
    if bytes[6] >= 0x80 then UnpackField(bytes) * 0x1000 + 0xFFF else UnpackField(bytes)
  }

  /** A limit that ends on a page boundary. */
  predicate Granular(limit: uint32) {
    limit % 0x1000 == 0xFFF
  }

  // ----- what packing keeps -------------------------------------------------

  lemma PiecesRejoin(word: uint32)
    ensures word == (word / 0x100) * 0x100 + LowByte(word) as uint32
    ensures word / 0x1_0000 == word / 0x100 / 0x100
    ensures word / 0x100_0000 == word / 0x100 / 0x100 / 0x100
    ensures word / 0x100_0000 < 0x100
    ensures word < 0x10 ==> LowNibble(word) as uint32 == word
    ensures word < 0x100 ==> LowByte(word) as uint32 == word
  {
  }

  lemma FlagsKeepApart(flags: uint8, nibble: uint8)
    requires flags == 0x40 || flags == 0xC0
    requires nibble < 0x10
    ensures (flags + nibble) % 0x10 == nibble
    ensures flags + nibble >= 0xC0 <==> flags == 0xC0
    ensures flags + nibble >= 0x80 <==> flags == 0xC0
  {
  }

  /** Unpacking finds the stored field and the unit. */
  lemma FieldRoundTrip(base: uint32, limit: uint32, access: uint8)
    ensures UnpackField(Pack(base, limit, access)) == Squeeze(limit)
    ensures PageUnits(Pack(base, limit, access)) <==> limit > 65536
  {
    hide LowByte;
    hide LowNibble;
    hide Squeeze;
    var field := Squeeze(limit);
    PiecesRejoin(field);
    PiecesRejoin(field / 0x100);
    PiecesRejoin(field / 0x1_0000);
    FlagsKeepApart(if limit <= 65536 then 0x40 else 0xC0, LowNibble(field / 0x1_0000));
  }

  lemma BaseRoundTrip(base: uint32, limit: uint32, access: uint8)
    ensures UnpackBase(Pack(base, limit, access)) == base
    ensures Pack(base, limit, access)[5] == access
  {
    hide LowByte;
    PiecesRejoin(base);
    PiecesRejoin(base / 0x100);
    PiecesRejoin(base / 0x1_0000);
    PiecesRejoin(base / 0x100_0000);
  }

  /** The rounding law.  A limit of at most 64K comes back unchanged; a larger
      one comes back as the greatest page-granular limit not above it, so the
      decoded segment never reaches beyond the requested one and gives up at
      most 4095 bytes. */
  predicate Rounded(limit: uint32, got: uint32) {
    && (limit <= 65536 ==> got == limit)
    && (limit > 65536 ==> got as int == 4096 * ((limit as int + 1) / 4096) - 1)
    && got <= limit && limit - got <= 4095
  }

  lemma LimitRoundsDown(base: uint32, limit: uint32, access: uint8)
    ensures Rounded(limit, UnpackLimit(Pack(base, limit, access)))
  {
    FieldRoundTrip(base, limit, access);
  }

  lemma NothingCloserBelow(base: uint32, limit: uint32, access: uint8, other: uint32)
    requires limit > 65536 && Granular(other) && other <= limit
    ensures Granular(UnpackLimit(Pack(base, limit, access)))
    ensures other <= UnpackLimit(Pack(base, limit, access))
  {
    LimitRoundsDown(base, limit, access);
    hide Pack, UnpackLimit;
  }

  /** Exactly the limits that survive packing. */
  lemma LimitRoundTripExactly(base: uint32, limit: uint32, access: uint8)
    ensures UnpackLimit(Pack(base, limit, access)) == limit <==> limit <= 65536 || Granular(limit)
  {
    LimitRoundsDown(base, limit, access);
    if limit > 65536 {
      NothingCloserBelow(base, limit, access, 0xFFF);
    }
  }

  /** Packing a decoded limit again decodes to the same limit. */
  lemma RepackingIsStable(base: uint32, limit: uint32, access: uint8, base': uint32, access': uint8)
    ensures var got := UnpackLimit(Pack(base, limit, access));
            UnpackLimit(Pack(base', got, access')) == got
  {
    hide Pack;
    hide UnpackLimit;
    var got := UnpackLimit(Pack(base, limit, access));
    LimitRoundsDown(base, limit, access);
    if limit > 65536 {
      NothingCloserBelow(base, limit, access, 0xFFF);
    }
    LimitRoundTripExactly(base', got, access');
  }

  /** The bytes say neither less nor more than base, access byte, decoded limit
      and unit. */
  lemma BytesDetermine(base: uint32, limit: uint32, access: uint8,
                       base': uint32, limit': uint32, access': uint8)
    ensures Pack(base, limit, access) == Pack(base', limit', access')
       <==> (&& base == base' && access == access'
             && UnpackLimit(Pack(base, limit, access)) == UnpackLimit(Pack(base', limit', access'))
             && (limit <= 65536 <==> limit' <= 65536))
  {
    FieldRoundTrip(base, limit, access);
    FieldRoundTrip(base', limit', access');
    if Pack(base, limit, access) == Pack(base', limit', access') {
      BaseRoundTrip(base, limit, access);
      BaseRoundTrip(base', limit', access');
    }
  }

  /** The decoder tests two flag bits where the processor tests one; on every
      descriptor the constructor can build they agree. */
  lemma ProcessorAgrees(base: uint32, limit: uint32, access: uint8)
    ensures ProcessorLimit(Pack(base, limit, access)) == UnpackLimit(Pack(base, limit, access))
  {
    var bytes := Pack(base, limit, access);
    assert bytes[6] >= 0x80 <==> bytes[6] >= 0xC0;
  }

  /** The two doublewords of a descriptor in memory, least significant byte first. */
  function LowWord(bytes: seq<uint8>): int
    requires |bytes| == 8
  {
    bytes[0] as int + 0x100 * bytes[1] as int + 0x1_0000 * bytes[2] as int + 0x100_0000 * bytes[3] as int
  }

  function HighWord(bytes: seq<uint8>): int
    requires |bytes| == 8
  {
    bytes[4] as int + 0x100 * bytes[5] as int + 0x1_0000 * bytes[6] as int + 0x100_0000 * bytes[7] as int
  }

  /** Bits `from` on, `width` as a power of two, of a doubleword. */
  function Bits(word: int, from: nat, width: nat): int
    requires from > 0 && width > 0
  {
    word / from % width
  }

  /**
   * The layout of the manual: base in bits 31:16 of the low doubleword, 7:0 and 31:24 of the high one; limit in bits
   * 15:0 of the low one and 19:16 of the high one; the access byte in 15:8; of the flags, granularity (bit 23) is
   * set above 64K, the default operand size (22) always, and the two below, L (21) and AVL (20), never.
   */
  lemma LaidOut(base: uint32, limit: uint32, access: uint8)
    ensures var low, high := LowWord(Pack(base, limit, access)), HighWord(Pack(base, limit, access));
            && low / 0x1_0000 + high % 0x100 * 0x1_0000 + high / 0x100_0000 * 0x100_0000 == base as int
            && Bits(high, 0x100, 0x100) == access as int
            && Bits(high, 0x80_0000, 2) == (if limit > 65536 then 1 else 0)
            && Bits(high, 0x40_0000, 2) == 1 && Bits(high, 0x20_0000, 2) == 0 && Bits(high, 0x10_0000, 2) == 0
            && var field := low % 0x1_0000 + Bits(high, 0x1_0000, 0x10) * 0x1_0000;
               if limit > 65536 then field * 4096 + 4095 == 4096 * ((limit as int + 1) / 4096) - 1
               else field == limit as int
  {
    var bytes := Pack(base, limit, access);
    BaseRoundTrip(base, limit, access);
    LimitRoundsDown(base, limit, access);
    FieldRoundTrip(base, limit, access);
    FlagBits(base, limit, access);
    hide Pack, Squeeze, LowByte, LowNibble;
    LowSplits(bytes);
    HighSplits(bytes);
  }

  lemma FlagBits(base: uint32, limit: uint32, access: uint8)
    ensures Pack(base, limit, access)[6] / 0x10 == if limit > 65536 then 0xC else 0x4
  {
    hide LowByte, Squeeze;
  }

  lemma LowSplits(bytes: seq<uint8>)
    requires |bytes| == 8
    ensures LowWord(bytes) % 0x1_0000 == bytes[0] as int + 0x100 * bytes[1] as int
    ensures LowWord(bytes) / 0x1_0000 == bytes[2] as int + 0x100 * bytes[3] as int
  {
  }

  lemma HighSplits(bytes: seq<uint8>)
    requires |bytes| == 8
    ensures var high, flags := HighWord(bytes), bytes[6] as int / 0x10;
            && high % 0x100 == bytes[4] as int && Bits(high, 0x100, 0x100) == bytes[5] as int
            && Bits(high, 0x1_0000, 0x10) == bytes[6] as int % 0x10 && high / 0x100_0000 == bytes[7] as int
            && Bits(high, 0x10_0000, 2) == flags % 2 && Bits(high, 0x20_0000, 2) == flags / 2 % 2
            && Bits(high, 0x40_0000, 2) == flags / 4 % 2 && Bits(high, 0x80_0000, 2) == flags / 8
  {
    var high, flags := HighWord(bytes), bytes[6] as int / 0x10;
    var upper := bytes[6] as int + 0x100 * bytes[7] as int;
    WordSplits(bytes[4] as int, bytes[5] as int, upper, high);
    UpperSplits(bytes[6] as int, bytes[7] as int);
    NibbleOf(high, upper);
    FlagsOf(upper / 0x10, flags, bytes[7] as int);
    hide HighWord;
  }

  lemma WordSplits(a: int, b: int, c: int, word: int)
    requires 0 <= a < 0x100 && 0 <= b < 0x100 && 0 <= c && word == a + 0x100 * b + 0x1_0000 * c
    ensures word % 0x100 == a && word / 0x100 % 0x100 == b && word / 0x1_0000 == c
  {
    assert word / 0x100 == b + 0x100 * c;
  }

  lemma UpperSplits(a: int, b: int)
    requires 0 <= a < 0x100 && 0 <= b
    ensures (a + 0x100 * b) % 0x10 == a % 0x10 && (a + 0x100 * b) / 0x10 == a / 0x10 + 0x10 * b
    ensures (a + 0x100 * b) / 0x100 == b
  {
  }

  lemma NibbleOf(high: int, upper: int)
    requires high >= 0 && high / 0x1_0000 == upper
    ensures high / 0x10_0000 == upper / 0x10 && high / 0x20_0000 == upper / 0x10 / 2
    ensures high / 0x40_0000 == upper / 0x10 / 4 && high / 0x80_0000 == upper / 0x10 / 8
    ensures high / 0x100_0000 == upper / 0x100
  {
  }

  lemma FlagsOf(nibbles: int, flags: int, top: int)
    requires 0 <= flags < 0x10 && nibbles == flags + 0x10 * top
    ensures nibbles % 2 == flags % 2 && nibbles / 2 % 2 == flags / 2 % 2
    ensures nibbles / 4 % 2 == flags / 4 % 2 && nibbles / 8 % 2 == flags / 8
  {
    assert nibbles / 2 == flags / 2 + 2 * (4 * top);
    assert nibbles / 4 == flags / 4 + 2 * (2 * top);
    assert nibbles / 8 == flags / 8 + 2 * top;
    EvenAdds(flags, 8 * top);
    EvenAdds(flags / 2, 4 * top);
    EvenAdds(flags / 4, 2 * top);
    EvenAdds(flags / 8, top);
  }

  lemma EvenAdds(x: int, y: int)
    ensures (x + 2 * y) % 2 == x % 2
  {
  }

  /** Asking for one byte more than 64K yields a smaller segment: the switch to
      page units is not monotone there. */
  lemma OneByteMoreIsLess(base: uint32, access: uint8)
    ensures UnpackLimit(Pack(base, 65537, access)) < UnpackLimit(Pack(base, 65536, access))
  {
    LimitRoundsDown(base, 65536, access);
    LimitRoundsDown(base, 65537, access);
  }

  /** That is the only place: a larger request yields a smaller segment exactly
      when it leaves 65536 without reaching the next page end. */
  lemma MonotoneExactly(base: uint32, small: uint32, large: uint32, access: uint8)
    requires small <= large
    ensures UnpackLimit(Pack(base, small, access)) <= UnpackLimit(Pack(base, large, access))
       <==> !(small == 65536 && 65536 < large < 69631)
  {
    hide Pack;
    hide UnpackLimit;
    LimitRoundsDown(base, small, access);
    LimitRoundsDown(base, large, access);
  }

  // ----- the object ---------------------------------------------------------

  /** The packed class, seen as the eight bytes its methods work on. */
  class SegmentDescriptor {
    const target: array<uint8>

    constructor (base: uint32, limit: uint32, access: uint8)
      ensures fresh(target) && target.Length == 8
      ensures target[..] == Pack(base, limit, access)
    {
      target := new uint8[8];
      new;
      var field := limit;
      if limit <= 65536 {
        target[6] := 0x40;
      } else {
        if limit % 0x1000 != 0xFFF {
          field := limit / 0x1000 - 1;
        } else {
          field := limit / 0x1000;
        }
        target[6] := 0xC0;
      }
      target[0] := LowByte(field);
      target[1] := LowByte(field / 0x100);
      target[6] := target[6] + LowNibble(field / 0x1_0000);

      target[2] := LowByte(base);
      target[3] := LowByte(base / 0x100);
      target[4] := LowByte(base / 0x1_0000);
      target[7] := LowByte(base / 0x100_0000);

      target[5] := access;
    }

    method Base() returns (result: uint32)
      requires target.Length == 8
      ensures result == UnpackBase(target[..])
      ensures forall base, limit, access :: target[..] == Pack(base, limit, access) ==> result == base
    {
      forall base, limit, access | target[..] == Pack(base, limit, access) ensures UnpackBase(target[..]) == base {
        BaseRoundTrip(base, limit, access);
      }
      hide Pack;
      result := target[7] as uint32;
      result := result * 0x100 + target[4] as uint32;
      result := result * 0x100 + target[3] as uint32;
      result := result * 0x100 + target[2] as uint32;
    }

    method Limit() returns (result: uint32)
      requires target.Length == 8
      ensures result == UnpackLimit(target[..])
      ensures forall base, limit, access :: target[..] == Pack(base, limit, access) ==> Rounded(limit, result)
    {
      forall base, limit, access | target[..] == Pack(base, limit, access)
        ensures Rounded(limit, UnpackLimit(target[..]))
      {
        LimitRoundsDown(base, limit, access);
      }
      hide Pack, Rounded;
      result := (target[6] % 0x10) as uint32;
      result := result * 0x100 + target[1] as uint32;
      result := result * 0x100 + target[0] as uint32;
      if target[6] >= 0xC0 {
        result := result * 0x1000 + 0xFFF;
      }
    }
  }
}
