/** The CRC-32 of zlib and gzip (`binascii.crc32`), as section 8 of RFC 1952
    defines it: reflected polynomial 0xEDB88320, register preset to all ones
    and complemented at the end. The bit-at-a-time form is used; the table
    of the RFC's sample code is a cache of the same eight steps per byte. */
module Crc32 {
  import opened Base

  const Polynomial: bv32 := 0xEDB8_8320
  const AllOnes: bv32 := 0xFFFF_FFFF

  /** One shift of the reflected register. */
  function ShiftBit(c: bv32): bv32 {
    if c & 1 == 1 then Polynomial ^ (c >> 1) else c >> 1
  }

  /** Folds one byte into the register (the loop body of `update_crc`). */
  function ShiftByte(c: bv32, b: byte): bv32 {
    var x := c ^ (b as bv32);
    ShiftBit(ShiftBit(ShiftBit(ShiftBit(ShiftBit(ShiftBit(ShiftBit(ShiftBit(x))))))))
  }

  /** The register after folding in every byte of `data`, first byte first. */
  function Register(c: bv32, data: seq<byte>): bv32
    decreases |data|
  {
    if data == [] then c else Register(ShiftByte(c, data[0]), data[1..])
  }

  /** `update_crc(crc, buf)` of RFC 1952: continue a running CRC over more bytes. */
  function Update(crc: bv32, data: seq<byte>): bv32 {
    Register(crc ^ AllOnes, data) ^ AllOnes
  }

  /** `binascii.crc32(data)`: an unsigned 32-bit value. */
  function Checksum(data: seq<byte>): (r: nat)
    ensures r < 0x1_0000_0000
  {
    Update(0, data) as nat
  }

  /** Folding in `a + b` is folding in `a`, then `b`. */
  lemma {:induction false} RegisterAppend(c: bv32, a: seq<byte>, b: seq<byte>)
    ensures Register(c, a + b) == Register(Register(c, a), b)
    decreases |a|
  {
    if a == [] {
      assert a + b == b;
    } else {
      assert (a + b)[0] == a[0];
      assert (a + b)[1..] == a[1..] + b;
      RegisterAppend(ShiftByte(c, a[0]), a[1..], b);
    }
  }

  /** A running CRC can be continued: the CRC of `a + b` is the CRC of `a`
      updated with `b`, as `binascii.crc32(b, crc32(a))` promises. */
  lemma UpdateAppend(crc: bv32, a: seq<byte>, b: seq<byte>)
    ensures Update(crc, a + b) == Update(Update(crc, a), b)
  {
    var mid := Register(crc ^ AllOnes, a);
    RegisterAppend(crc ^ AllOnes, a, b);
    assert Update(crc, a) == mid ^ AllOnes;
    ComplementTwice(mid);
    assert Update(crc, a) ^ AllOnes == mid;
  }

  lemma ComplementTwice(x: bv32)
    ensures (x ^ AllOnes) ^ AllOnes == x
  {
  }

  /** The register values while "123456789" is folded in, one byte per clause. */
  lemma CheckValueSteps()
    ensures ShiftByte(0xFFFF_FFFF, 0x31) == 0x7C23_1048
    ensures ShiftByte(0x7C23_1048, 0x32) == 0xB0AC_BB32
    ensures ShiftByte(0xB0AC_BB32, 0x33) == 0x77B7_9C2D
    ensures ShiftByte(0x77B7_9C2D, 0x34) == 0x641C_1F5C
    ensures ShiftByte(0x641C_1F5C, 0x35) == 0x340A_C5E3
    ensures ShiftByte(0x340A_C5E3, 0x36) == 0xF68D_2C9E
    ensures ShiftByte(0xF68D_2C9E, 0x37) == 0xAFFC_9660
    ensures ShiftByte(0xAFFC_9660, 0x38) == 0x651F_2550
    ensures ShiftByte(0x651F_2550, 0x39) == 0x340B_C6D9
  {
  }

  /** One step of `Register`, stated for a known shift. */
  lemma RegisterCons(c: bv32, b: byte, rest: seq<byte>, next: bv32)
    requires ShiftByte(c, b) == next
    ensures Register(c, [b] + rest) == Register(next, rest)
  {
    assert ([b] + rest)[0] == b && ([b] + rest)[1..] == rest;
  }

  /** The standard check value: CRC-32 of the ASCII text "123456789" is 0xCBF43926. */
  lemma CheckValue()
    ensures Checksum([0x31, 0x32, 0x33, 0x34, 0x35, 0x36, 0x37, 0x38, 0x39]) == 0xCBF4_3926
  {
    CheckValueSteps();
    RegisterCons(0x651F_2550, 0x39, [], 0x340B_C6D9);
    RegisterCons(0xAFFC_9660, 0x38, [0x39], 0x651F_2550);
    RegisterCons(0xF68D_2C9E, 0x37, [0x38, 0x39], 0xAFFC_9660);
    RegisterCons(0x340A_C5E3, 0x36, [0x37, 0x38, 0x39], 0xF68D_2C9E);
    RegisterCons(0x641C_1F5C, 0x35, [0x36, 0x37, 0x38, 0x39], 0x340A_C5E3);
    RegisterCons(0x77B7_9C2D, 0x34, [0x35, 0x36, 0x37, 0x38, 0x39], 0x641C_1F5C);
    RegisterCons(0xB0AC_BB32, 0x33, [0x34, 0x35, 0x36, 0x37, 0x38, 0x39], 0x77B7_9C2D);
    RegisterCons(0x7C23_1048, 0x32, [0x33, 0x34, 0x35, 0x36, 0x37, 0x38, 0x39], 0xB0AC_BB32);
    RegisterCons(0xFFFF_FFFF, 0x31, [0x32, 0x33, 0x34, 0x35, 0x36, 0x37, 0x38, 0x39], 0x7C23_1048);
    assert Register(0x340B_C6D9, []) == 0x340B_C6D9;
    assert Register(0xFFFF_FFFF, [0x31, 0x32, 0x33, 0x34, 0x35, 0x36, 0x37, 0x38, 0x39]) == 0x340B_C6D9;
    assert 0x340B_C6D9 ^ AllOnes == 0xCBF4_3926;
  }
}
