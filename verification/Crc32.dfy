/**
  The CRC of a PNG chunk (png_crc in src/artist_background_image.cpp; annex D
  of the W3C PNG Specification), bit by bit on a 32-bit register. What holds of
  it needs only that neither mixing a byte in nor shifting loses anything.
*/
module Crc32 {
  const POLYNOMIAL: bv32 := 0xedb8_8320
  const START: bv32 := 0xffff_ffff

  function Mix(register: bv32, b: bv8): bv32 { register ^ (b as bv32) }

  function ShiftOne(register: bv32): bv32 {
    (register >> 1) ^ (if register & 1 == 1 then POLYNOMIAL else 0)
  }

  function Shift<R>(one: R -> R, register: R, bits: nat): R {
    if bits == 0 then register else one(Shift(one, register, bits - 1))
  }

  /** A register run over a text: every byte is mixed in, then shifted through. */
  function Fold<R>(mix: (R, bv8) -> R, one: R -> R, bits: nat, start: R, bytes: seq<bv8>): R {
    if bytes == [] then start
    else Shift(one, mix(Fold(mix, one, bits, start, bytes[..|bytes| - 1]), bytes[|bytes| - 1]), bits)
  }

  function Crc(bytes: seq<bv8>): bv32 { !Fold(Mix, ShiftOne, 8, START, bytes) }

  /** One byte through the register, bit by bit. */
  lemma ByteThrough(r: bv32, b: bv8)
    ensures var r1 := ShiftOne(ShiftOne(Mix(r, b)));
            var r2 := ShiftOne(ShiftOne(r1));
            var r3 := ShiftOne(ShiftOne(r2));
            Shift(ShiftOne, Mix(r, b), 8) == ShiftOne(ShiftOne(r3))
  {
    var m := Mix(r, b);
    assert Shift(ShiftOne, m, 2) == ShiftOne(ShiftOne(m));
    assert Shift(ShiftOne, m, 4) == ShiftOne(ShiftOne(Shift(ShiftOne, m, 2)));
    assert Shift(ShiftOne, m, 6) == ShiftOne(ShiftOne(Shift(ShiftOne, m, 4)));
  }

  lemma FoldOne(bytes: seq<bv8>, b: bv8, was: bv32, now: bv32)
    requires Fold(Mix, ShiftOne, 8, START, bytes) == was && Shift(ShiftOne, Mix(was, b), 8) == now
    ensures Fold(Mix, ShiftOne, 8, START, bytes + [b]) == now
  {
    assert (bytes + [b])[..|bytes|] == bytes;
  }

  lemma ByteI()
    ensures Shift(ShiftOne, Mix(0xffff_ffff, 0x49), 8) == 0x22fd_e946
  {
    ByteThrough(0xffff_ffff, 0x49);
    assert Mix(0xffff_ffff, 0x49) == 0xffff_ffb6;
    assert ShiftOne(0xffff_ffb6) == 0x7fff_ffdb && ShiftOne(0x7fff_ffdb) == 0xd247_7ccd;
    assert ShiftOne(0xd247_7ccd) == 0x849b_3d46 && ShiftOne(0x849b_3d46) == 0x424d_9ea3;
    assert ShiftOne(0x424d_9ea3) == 0xcc9e_4c71 && ShiftOne(0xcc9e_4c71) == 0x8bf7_a518;
    assert ShiftOne(0x8bf7_a518) == 0x45fb_d28c && ShiftOne(0x45fb_d28c) == 0x22fd_e946;
  }

  lemma ByteE()
    ensures Shift(ShiftOne, Mix(0x22fd_e946, 0x45), 8) == 0x992b_ac53
  {
    ByteThrough(0x22fd_e946, 0x45);
    assert Mix(0x22fd_e946, 0x45) == 0x22fd_e903;
    assert ShiftOne(0x22fd_e903) == 0xfcc6_77a1 && ShiftOne(0xfcc6_77a1) == 0x93db_b8f0;
    assert ShiftOne(0x93db_b8f0) == 0x49ed_dc78 && ShiftOne(0x49ed_dc78) == 0x24f6_ee3c;
    assert ShiftOne(0x24f6_ee3c) == 0x127b_771e && ShiftOne(0x127b_771e) == 0x093d_bb8f;
    assert ShiftOne(0x093d_bb8f) == 0xe926_5ee7 && ShiftOne(0xe926_5ee7) == 0x992b_ac53;
  }

  lemma ByteN()
    ensures Shift(ShiftOne, Mix(0x992b_ac53, 0x4e), 8) == 0x639f_4775
  {
    ByteThrough(0x992b_ac53, 0x4e);
    assert Mix(0x992b_ac53, 0x4e) == 0x992b_ac1d;
    assert ShiftOne(0x992b_ac1d) == 0xa12d_552e && ShiftOne(0xa12d_552e) == 0x5096_aa97;
    assert ShiftOne(0x5096_aa97) == 0xc5f3_d66b && ShiftOne(0xc5f3_d66b) == 0x8f41_6815;
    assert ShiftOne(0x8f41_6815) == 0xaa18_372a && ShiftOne(0xaa18_372a) == 0x550c_1b95;
    assert ShiftOne(0x550c_1b95) == 0xc73e_8eea && ShiftOne(0xc73e_8eea) == 0x639f_4775;
  }

  lemma ByteD()
    ensures Shift(ShiftOne, Mix(0x639f_4775, 0x44), 8) == 0x51bd_9f7d
  {
    ByteThrough(0x639f_4775, 0x44);
    assert Mix(0x639f_4775, 0x44) == 0x639f_4731;
    assert ShiftOne(0x639f_4731) == 0xdc77_20b8 && ShiftOne(0xdc77_20b8) == 0x6e3b_905c;
    assert ShiftOne(0x6e3b_905c) == 0x371d_c82e && ShiftOne(0x371d_c82e) == 0x1b8e_e417;
    assert ShiftOne(0x1b8e_e417) == 0xe07f_f12b && ShiftOne(0xe07f_f12b) == 0x9d87_7bb5;
    assert ShiftOne(0x9d87_7bb5) == 0xa37b_3efa && ShiftOne(0xa37b_3efa) == 0x51bd_9f7d;
  }

  /** The checksum every PNG image ends with: that of the empty IEND chunk. */
  lemma CrcOfEnd()
    ensures Crc([0x49, 0x45, 0x4e, 0x44]) == 0xae42_6082
  {
    ByteI();
    FoldOne([], 0x49, START, 0x22fd_e946);
    ByteE();
    FoldOne([] + [0x49], 0x45, 0x22fd_e946, 0x992b_ac53);
    ByteN();
    FoldOne([] + [0x49] + [0x45], 0x4e, 0x992b_ac53, 0x639f_4775);
    ByteD();
    FoldOne([] + [0x49] + [0x45] + [0x4e], 0x44, 0x639f_4775, 0x51bd_9f7d);
    var text: seq<bv8> := [0x49, 0x45, 0x4e, 0x44];
    assert [] + [0x49] + [0x45] + [0x4e] + [0x44] == text;
    var register: bv32 := 0x51bd_9f7d;
    assert Crc(text) == !register;
  }

  ghost predicate ShiftLossless<R(!new)>(one: R -> R) {
    forall x, y :: one(x) == one(y) ==> x == y
  }

  ghost predicate MixLossless<R(!new)>(mix: (R, bv8) -> R) {
    && (forall x, y, b :: mix(x, b) == mix(y, b) ==> x == y)
    && (forall x, a, b :: mix(x, a) == mix(x, b) ==> a == b)
  }

  /** The polynomial's top bit gives away the bit shifted out. */
  lemma ShiftOneLossless()
    ensures ShiftLossless(ShiftOne)
  {
    forall x, y | ShiftOne(x) == ShiftOne(y) ensures x == y {
      ShiftOneInjective(x, y);
    }
  }

  lemma ShiftOneInjective(x: bv32, y: bv32)
    requires ShiftOne(x) == ShiftOne(y)
    ensures x == y
  {
  }

  lemma MixIsLossless()
    ensures MixLossless(Mix)
  {
  }

  lemma {:induction false} ShiftInjective<R(!new)>(one: R -> R, x: R, y: R, bits: nat)
    requires ShiftLossless(one) && Shift(one, x, bits) == Shift(one, y, bits)
    ensures x == y
  {
    if bits != 0 { ShiftInjective(one, x, y, bits - 1); }
  }

  predicate OneByteDiffers(a: seq<bv8>, b: seq<bv8>, p: nat) {
    p < |a| == |b| && a[p] != b[p] && forall i :: 0 <= i < |a| && i != p ==> a[i] == b[i]
  }

  lemma {:induction false} FoldSeesOneByte<R(!new)>(mix: (R, bv8) -> R, one: R -> R, bits: nat, start: R,
                                                   a: seq<bv8>, b: seq<bv8>, p: nat)
    requires MixLossless(mix) && ShiftLossless(one) && OneByteDiffers(a, b, p)
    ensures Fold(mix, one, bits, start, a) != Fold(mix, one, bits, start, b)
    decreases |a|
  {
    var last := |a| - 1;
    var x, y := Fold(mix, one, bits, start, a[..last]), Fold(mix, one, bits, start, b[..last]);
    if p == last {
      assert a[..last] == b[..last];
    } else {
      FoldSeesOneByte(mix, one, bits, start, a[..last], b[..last], p);
    }
    if Shift(one, mix(x, a[last]), bits) == Shift(one, mix(y, b[last]), bits) {
      ShiftInjective(one, mix(x, a[last]), mix(y, b[last]), bits);
    }
  }

  /** Texts of one length that differ in exactly one byte have different checksums. */
  lemma CrcSeesOneByte(a: seq<bv8>, b: seq<bv8>, p: nat)
    requires OneByteDiffers(a, b, p)
    ensures Crc(a) != Crc(b)
  {
    ShiftOneLossless();
    MixIsLossless();
    FoldSeesOneByte(Mix, ShiftOne, 8, START, a, b, p);
    ComplementInjective(Fold(Mix, ShiftOne, 8, START, a), Fold(Mix, ShiftOne, 8, START, b));
  }

  lemma ComplementInjective(x: bv32, y: bv32)
    ensures !x == !y ==> x == y
  {
  }

  /** The checksum as a number. */
  function CrcValue(bytes: seq<bv8>): int { Crc(bytes) as int }

  lemma CrcValueSeesOneByte(a: seq<bv8>, b: seq<bv8>, p: nat)
    requires OneByteDiffers(a, b, p)
    ensures CrcValue(a) != CrcValue(b)
  {
    CrcSeesOneByte(a, b, p);
    AsIntInjective(Crc(a), Crc(b));
  }

  lemma AsIntInjective(x: bv32, y: bv32)
    ensures x as int == y as int ==> x == y
  {
    assert (x as int) as bv32 == x;
    assert (y as int) as bv32 == y;
  }

  method AbsorbByte(register: bv32, b: bv8, bits: nat) returns (r: bv32)
    ensures r == Shift(ShiftOne, Mix(register, b), bits)
  {
    r := register ^ (b as bv32);
    for bit := 0 to bits
      invariant r == Shift(ShiftOne, Mix(register, b), bit)
    {
      r := (r >> 1) ^ (if r & 1 == 1 then POLYNOMIAL else 0);
    }
  }

  /** The register loop of the source. */
  method ComputeRegister(bytes: seq<bv8>, bits: nat) returns (register: bv32)
    ensures register == Fold(Mix, ShiftOne, bits, START, bytes)
  {
    register := START;
    for i := 0 to |bytes|
      invariant register == Fold(Mix, ShiftOne, bits, START, bytes[..i])
    {
      assert bytes[..i + 1][..i] == bytes[..i];
      register := AbsorbByte(register, bytes[i], bits);
    }
    assert bytes[..|bytes|] == bytes;
  }

  method ComputeCrc(bytes: seq<bv8>) returns (crc: int)
    ensures crc == CrcValue(bytes)
  {
    var register := ComputeRegister(bytes, 8);
    crc := (!register) as int;
  }
}
