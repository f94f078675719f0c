/*
 * Closed-form descriptions ("images") of the tables of libdes/f_tables.c and
 * of the recipes that use them, and their agreement with the bit-by-bit
 * definitions of FIPS PUB 46-3.  Lemmas over a table parameter carry a fact
 * about the images over to any table that has the images as its entries.
 */
module DesImages {
  import opened DesTables
  import Fips46

  /** The 64-bit block held in two halves, left half in the high-order bits. */
  function Join(b: Block): bv64
  {
    ((b.left as bv64) << 32) | (b.right as bv64)
  }

  /** Where des_IP_table sends each bit of its index: bit 0 of the index to bit 4
      of the entry, bit 1 to bit 0, bit 2 to bit 12, bit 3 to bit 8, bit 4 to
      bit 20, bit 5 to bit 16, bit 6 to bit 28 and bit 7 to bit 24, one index bit
      to the low bit of each nibble.  An entry is the OR of the images of its
      index's set bits. */
  function IpImage(b: bv8): bv32
  {
    var x := b as bv32;
    ((x & 0x01) << 4) | ((x & 0x02) >> 1) | ((x & 0x04) << 10) | ((x & 0x08) << 5) |
    ((x & 0x10) << 16) | ((x & 0x20) << 11) | ((x & 0x40) << 22) | ((x & 0x80) << 17)
  }

  /** t has the entries of des_IP_table. */
  ghost predicate IsIpTable(t: seq<seq<bv32>>)
  {
    IsByteTable(t) && forall b: bv8 :: ByteEntry(t, b) == IpImage(b)
  }

  /** The half-block recipe over the images instead of the table. */
  function IpHalfImage(w: bv32): bv32
  {
    IpImage((w >> 24) as bv8) |
    (IpImage(((w >> 16) & 0xFF) as bv8) << 1) |
    (IpImage(((w >> 8) & 0xFF) as bv8) << 2) |
    (IpImage((w & 0xFF) as bv8) << 3)
  }

  lemma IpHalfIsImage(t: seq<seq<bv32>>, w: bv32)
    requires IsIpTable(t)
    ensures IpHalfWith(t, w) == IpHalfImage(w)
  {
    assert ByteEntry(t, (w >> 24) as bv8) == IpImage((w >> 24) as bv8);
    assert ByteEntry(t, ((w >> 16) & 0xFF) as bv8) == IpImage(((w >> 16) & 0xFF) as bv8);
    assert ByteEntry(t, ((w >> 8) & 0xFF) as bv8) == IpImage(((w >> 8) & 0xFF) as bv8);
    assert ByteEntry(t, (w & 0xFF) as bv8) == IpImage((w & 0xFF) as bv8);
  }

  /** Where des_FP_table sends each bit of its index: bits 0..7 of the index to
      bits 25, 17, 9, 1, 24, 16, 8 and 0 of the entry, the bits of 0x03030303.
      An entry is the OR of the images of its index's set bits. */
  function FpImage(b: bv8): bv32
  {
    var x := b as bv32;
    ((x & 0x01) << 25) | ((x & 0x02) << 16) | ((x & 0x04) << 7) | ((x & 0x08) >> 2) |
    ((x & 0x10) << 20) | ((x & 0x20) << 11) | ((x & 0x40) << 2) | ((x & 0x80) >> 7)
  }

  /** t has the entries of des_FP_table. */
  ghost predicate IsFpTable(t: seq<seq<bv32>>)
  {
    IsByteTable(t) && forall b: bv8 :: ByteEntry(t, b) == FpImage(b)
  }

  /** The half-block recipe over the images instead of the table. */
  function FpHalfImage(w: bv32): bv32
  {
    (FpImage((w >> 24) as bv8) << 6) |
    (FpImage(((w >> 16) & 0xFF) as bv8) << 4) |
    (FpImage(((w >> 8) & 0xFF) as bv8) << 2) |
    FpImage((w & 0xFF) as bv8)
  }

  lemma FpHalfIsImage(t: seq<seq<bv32>>, w: bv32)
    requires IsFpTable(t)
    ensures FpHalfWith(t, w) == FpHalfImage(w)
  {
    assert ByteEntry(t, (w >> 24) as bv8) == FpImage((w >> 24) as bv8);
    assert ByteEntry(t, ((w >> 16) & 0xFF) as bv8) == FpImage(((w >> 16) & 0xFF) as bv8);
    assert ByteEntry(t, ((w >> 8) & 0xFF) as bv8) == FpImage(((w >> 8) & 0xFF) as bv8);
    assert ByteEntry(t, (w & 0xFF) as bv8) == FpImage((w & 0xFF) as bv8);
  }

  /** The initial permutation over the images. */
  function InitialPermutationImage(b: Block): Block
  {
    Block(IpHalfImage(IpLeftWord(b)), IpHalfImage(IpRightWord(b)))
  }

  /** The final permutation over the images. */
  function FinalPermutationImage(b: Block): Block
  {
    Block(FpHalfImage(FpLeftWord(b)), FpHalfImage(FpRightWord(b)))
  }

  lemma InitialPermutationImageBits1To8(b: Block)
    ensures Fips46.Bit64(Join(InitialPermutationImage(b)), 1) == Fips46.Bit64(Join(b), 58)
    ensures Fips46.Bit64(Join(InitialPermutationImage(b)), 2) == Fips46.Bit64(Join(b), 50)
    ensures Fips46.Bit64(Join(InitialPermutationImage(b)), 3) == Fips46.Bit64(Join(b), 42)
    ensures Fips46.Bit64(Join(InitialPermutationImage(b)), 4) == Fips46.Bit64(Join(b), 34)
    ensures Fips46.Bit64(Join(InitialPermutationImage(b)), 5) == Fips46.Bit64(Join(b), 26)
    ensures Fips46.Bit64(Join(InitialPermutationImage(b)), 6) == Fips46.Bit64(Join(b), 18)
    ensures Fips46.Bit64(Join(InitialPermutationImage(b)), 7) == Fips46.Bit64(Join(b), 10)
    ensures Fips46.Bit64(Join(InitialPermutationImage(b)), 8) == Fips46.Bit64(Join(b), 2)
  {
  }

  lemma InitialPermutationImageBits9To16(b: Block)
    ensures Fips46.Bit64(Join(InitialPermutationImage(b)), 9) == Fips46.Bit64(Join(b), 60)
    ensures Fips46.Bit64(Join(InitialPermutationImage(b)), 10) == Fips46.Bit64(Join(b), 52)
    ensures Fips46.Bit64(Join(InitialPermutationImage(b)), 11) == Fips46.Bit64(Join(b), 44)
    ensures Fips46.Bit64(Join(InitialPermutationImage(b)), 12) == Fips46.Bit64(Join(b), 36)
    ensures Fips46.Bit64(Join(InitialPermutationImage(b)), 13) == Fips46.Bit64(Join(b), 28)
    ensures Fips46.Bit64(Join(InitialPermutationImage(b)), 14) == Fips46.Bit64(Join(b), 20)
    ensures Fips46.Bit64(Join(InitialPermutationImage(b)), 15) == Fips46.Bit64(Join(b), 12)
    ensures Fips46.Bit64(Join(InitialPermutationImage(b)), 16) == Fips46.Bit64(Join(b), 4)
  {
  }

  lemma InitialPermutationImageBits17To24(b: Block)
    ensures Fips46.Bit64(Join(InitialPermutationImage(b)), 17) == Fips46.Bit64(Join(b), 62)
    ensures Fips46.Bit64(Join(InitialPermutationImage(b)), 18) == Fips46.Bit64(Join(b), 54)
    ensures Fips46.Bit64(Join(InitialPermutationImage(b)), 19) == Fips46.Bit64(Join(b), 46)
    ensures Fips46.Bit64(Join(InitialPermutationImage(b)), 20) == Fips46.Bit64(Join(b), 38)
    ensures Fips46.Bit64(Join(InitialPermutationImage(b)), 21) == Fips46.Bit64(Join(b), 30)
    ensures Fips46.Bit64(Join(InitialPermutationImage(b)), 22) == Fips46.Bit64(Join(b), 22)
    ensures Fips46.Bit64(Join(InitialPermutationImage(b)), 23) == Fips46.Bit64(Join(b), 14)
    ensures Fips46.Bit64(Join(InitialPermutationImage(b)), 24) == Fips46.Bit64(Join(b), 6)
  {
  }

  lemma InitialPermutationImageBits25To32(b: Block)
    ensures Fips46.Bit64(Join(InitialPermutationImage(b)), 25) == Fips46.Bit64(Join(b), 64)
    ensures Fips46.Bit64(Join(InitialPermutationImage(b)), 26) == Fips46.Bit64(Join(b), 56)
    ensures Fips46.Bit64(Join(InitialPermutationImage(b)), 27) == Fips46.Bit64(Join(b), 48)
    ensures Fips46.Bit64(Join(InitialPermutationImage(b)), 28) == Fips46.Bit64(Join(b), 40)
    ensures Fips46.Bit64(Join(InitialPermutationImage(b)), 29) == Fips46.Bit64(Join(b), 32)
    ensures Fips46.Bit64(Join(InitialPermutationImage(b)), 30) == Fips46.Bit64(Join(b), 24)
    ensures Fips46.Bit64(Join(InitialPermutationImage(b)), 31) == Fips46.Bit64(Join(b), 16)
    ensures Fips46.Bit64(Join(InitialPermutationImage(b)), 32) == Fips46.Bit64(Join(b), 8)
  {
  }

  lemma InitialPermutationImageBits33To40(b: Block)
    ensures Fips46.Bit64(Join(InitialPermutationImage(b)), 33) == Fips46.Bit64(Join(b), 57)
    ensures Fips46.Bit64(Join(InitialPermutationImage(b)), 34) == Fips46.Bit64(Join(b), 49)
    ensures Fips46.Bit64(Join(InitialPermutationImage(b)), 35) == Fips46.Bit64(Join(b), 41)
    ensures Fips46.Bit64(Join(InitialPermutationImage(b)), 36) == Fips46.Bit64(Join(b), 33)
    ensures Fips46.Bit64(Join(InitialPermutationImage(b)), 37) == Fips46.Bit64(Join(b), 25)
    ensures Fips46.Bit64(Join(InitialPermutationImage(b)), 38) == Fips46.Bit64(Join(b), 17)
    ensures Fips46.Bit64(Join(InitialPermutationImage(b)), 39) == Fips46.Bit64(Join(b), 9)
    ensures Fips46.Bit64(Join(InitialPermutationImage(b)), 40) == Fips46.Bit64(Join(b), 1)
  {
  }

  lemma InitialPermutationImageBits41To48(b: Block)
    ensures Fips46.Bit64(Join(InitialPermutationImage(b)), 41) == Fips46.Bit64(Join(b), 59)
    ensures Fips46.Bit64(Join(InitialPermutationImage(b)), 42) == Fips46.Bit64(Join(b), 51)
    ensures Fips46.Bit64(Join(InitialPermutationImage(b)), 43) == Fips46.Bit64(Join(b), 43)
    ensures Fips46.Bit64(Join(InitialPermutationImage(b)), 44) == Fips46.Bit64(Join(b), 35)
    ensures Fips46.Bit64(Join(InitialPermutationImage(b)), 45) == Fips46.Bit64(Join(b), 27)
    ensures Fips46.Bit64(Join(InitialPermutationImage(b)), 46) == Fips46.Bit64(Join(b), 19)
    ensures Fips46.Bit64(Join(InitialPermutationImage(b)), 47) == Fips46.Bit64(Join(b), 11)
    ensures Fips46.Bit64(Join(InitialPermutationImage(b)), 48) == Fips46.Bit64(Join(b), 3)
  {
  }

  lemma InitialPermutationImageBits49To56(b: Block)
    ensures Fips46.Bit64(Join(InitialPermutationImage(b)), 49) == Fips46.Bit64(Join(b), 61)
    ensures Fips46.Bit64(Join(InitialPermutationImage(b)), 50) == Fips46.Bit64(Join(b), 53)
    ensures Fips46.Bit64(Join(InitialPermutationImage(b)), 51) == Fips46.Bit64(Join(b), 45)
    ensures Fips46.Bit64(Join(InitialPermutationImage(b)), 52) == Fips46.Bit64(Join(b), 37)
    ensures Fips46.Bit64(Join(InitialPermutationImage(b)), 53) == Fips46.Bit64(Join(b), 29)
    ensures Fips46.Bit64(Join(InitialPermutationImage(b)), 54) == Fips46.Bit64(Join(b), 21)
    ensures Fips46.Bit64(Join(InitialPermutationImage(b)), 55) == Fips46.Bit64(Join(b), 13)
    ensures Fips46.Bit64(Join(InitialPermutationImage(b)), 56) == Fips46.Bit64(Join(b), 5)
  {
  }

  lemma InitialPermutationImageBits57To64(b: Block)
    ensures Fips46.Bit64(Join(InitialPermutationImage(b)), 57) == Fips46.Bit64(Join(b), 63)
    ensures Fips46.Bit64(Join(InitialPermutationImage(b)), 58) == Fips46.Bit64(Join(b), 55)
    ensures Fips46.Bit64(Join(InitialPermutationImage(b)), 59) == Fips46.Bit64(Join(b), 47)
    ensures Fips46.Bit64(Join(InitialPermutationImage(b)), 60) == Fips46.Bit64(Join(b), 39)
    ensures Fips46.Bit64(Join(InitialPermutationImage(b)), 61) == Fips46.Bit64(Join(b), 31)
    ensures Fips46.Bit64(Join(InitialPermutationImage(b)), 62) == Fips46.Bit64(Join(b), 23)
    ensures Fips46.Bit64(Join(InitialPermutationImage(b)), 63) == Fips46.Bit64(Join(b), 15)
    ensures Fips46.Bit64(Join(InitialPermutationImage(b)), 64) == Fips46.Bit64(Join(b), 7)
  {
  }

  lemma FinalPermutationImageBits1To8(b: Block)
    ensures Fips46.Bit64(Join(FinalPermutationImage(b)), 1) == Fips46.Bit64(Join(b), 40)
    ensures Fips46.Bit64(Join(FinalPermutationImage(b)), 2) == Fips46.Bit64(Join(b), 8)
    ensures Fips46.Bit64(Join(FinalPermutationImage(b)), 3) == Fips46.Bit64(Join(b), 48)
    ensures Fips46.Bit64(Join(FinalPermutationImage(b)), 4) == Fips46.Bit64(Join(b), 16)
    ensures Fips46.Bit64(Join(FinalPermutationImage(b)), 5) == Fips46.Bit64(Join(b), 56)
    ensures Fips46.Bit64(Join(FinalPermutationImage(b)), 6) == Fips46.Bit64(Join(b), 24)
    ensures Fips46.Bit64(Join(FinalPermutationImage(b)), 7) == Fips46.Bit64(Join(b), 64)
    ensures Fips46.Bit64(Join(FinalPermutationImage(b)), 8) == Fips46.Bit64(Join(b), 32)
  {
  }

  lemma FinalPermutationImageBits9To16(b: Block)
    ensures Fips46.Bit64(Join(FinalPermutationImage(b)), 9) == Fips46.Bit64(Join(b), 39)
    ensures Fips46.Bit64(Join(FinalPermutationImage(b)), 10) == Fips46.Bit64(Join(b), 7)
    ensures Fips46.Bit64(Join(FinalPermutationImage(b)), 11) == Fips46.Bit64(Join(b), 47)
    ensures Fips46.Bit64(Join(FinalPermutationImage(b)), 12) == Fips46.Bit64(Join(b), 15)
    ensures Fips46.Bit64(Join(FinalPermutationImage(b)), 13) == Fips46.Bit64(Join(b), 55)
    ensures Fips46.Bit64(Join(FinalPermutationImage(b)), 14) == Fips46.Bit64(Join(b), 23)
    ensures Fips46.Bit64(Join(FinalPermutationImage(b)), 15) == Fips46.Bit64(Join(b), 63)
    ensures Fips46.Bit64(Join(FinalPermutationImage(b)), 16) == Fips46.Bit64(Join(b), 31)
  {
  }

  lemma FinalPermutationImageBits17To24(b: Block)
    ensures Fips46.Bit64(Join(FinalPermutationImage(b)), 17) == Fips46.Bit64(Join(b), 38)
    ensures Fips46.Bit64(Join(FinalPermutationImage(b)), 18) == Fips46.Bit64(Join(b), 6)
    ensures Fips46.Bit64(Join(FinalPermutationImage(b)), 19) == Fips46.Bit64(Join(b), 46)
    ensures Fips46.Bit64(Join(FinalPermutationImage(b)), 20) == Fips46.Bit64(Join(b), 14)
    ensures Fips46.Bit64(Join(FinalPermutationImage(b)), 21) == Fips46.Bit64(Join(b), 54)
    ensures Fips46.Bit64(Join(FinalPermutationImage(b)), 22) == Fips46.Bit64(Join(b), 22)
    ensures Fips46.Bit64(Join(FinalPermutationImage(b)), 23) == Fips46.Bit64(Join(b), 62)
    ensures Fips46.Bit64(Join(FinalPermutationImage(b)), 24) == Fips46.Bit64(Join(b), 30)
  {
  }

  lemma FinalPermutationImageBits25To32(b: Block)
    ensures Fips46.Bit64(Join(FinalPermutationImage(b)), 25) == Fips46.Bit64(Join(b), 37)
    ensures Fips46.Bit64(Join(FinalPermutationImage(b)), 26) == Fips46.Bit64(Join(b), 5)
    ensures Fips46.Bit64(Join(FinalPermutationImage(b)), 27) == Fips46.Bit64(Join(b), 45)
    ensures Fips46.Bit64(Join(FinalPermutationImage(b)), 28) == Fips46.Bit64(Join(b), 13)
    ensures Fips46.Bit64(Join(FinalPermutationImage(b)), 29) == Fips46.Bit64(Join(b), 53)
    ensures Fips46.Bit64(Join(FinalPermutationImage(b)), 30) == Fips46.Bit64(Join(b), 21)
    ensures Fips46.Bit64(Join(FinalPermutationImage(b)), 31) == Fips46.Bit64(Join(b), 61)
    ensures Fips46.Bit64(Join(FinalPermutationImage(b)), 32) == Fips46.Bit64(Join(b), 29)
  {
  }

  lemma FinalPermutationImageBits33To40(b: Block)
    ensures Fips46.Bit64(Join(FinalPermutationImage(b)), 33) == Fips46.Bit64(Join(b), 36)
    ensures Fips46.Bit64(Join(FinalPermutationImage(b)), 34) == Fips46.Bit64(Join(b), 4)
    ensures Fips46.Bit64(Join(FinalPermutationImage(b)), 35) == Fips46.Bit64(Join(b), 44)
    ensures Fips46.Bit64(Join(FinalPermutationImage(b)), 36) == Fips46.Bit64(Join(b), 12)
    ensures Fips46.Bit64(Join(FinalPermutationImage(b)), 37) == Fips46.Bit64(Join(b), 52)
    ensures Fips46.Bit64(Join(FinalPermutationImage(b)), 38) == Fips46.Bit64(Join(b), 20)
    ensures Fips46.Bit64(Join(FinalPermutationImage(b)), 39) == Fips46.Bit64(Join(b), 60)
    ensures Fips46.Bit64(Join(FinalPermutationImage(b)), 40) == Fips46.Bit64(Join(b), 28)
  {
  }

  lemma FinalPermutationImageBits41To48(b: Block)
    ensures Fips46.Bit64(Join(FinalPermutationImage(b)), 41) == Fips46.Bit64(Join(b), 35)
    ensures Fips46.Bit64(Join(FinalPermutationImage(b)), 42) == Fips46.Bit64(Join(b), 3)
    ensures Fips46.Bit64(Join(FinalPermutationImage(b)), 43) == Fips46.Bit64(Join(b), 43)
    ensures Fips46.Bit64(Join(FinalPermutationImage(b)), 44) == Fips46.Bit64(Join(b), 11)
    ensures Fips46.Bit64(Join(FinalPermutationImage(b)), 45) == Fips46.Bit64(Join(b), 51)
    ensures Fips46.Bit64(Join(FinalPermutationImage(b)), 46) == Fips46.Bit64(Join(b), 19)
    ensures Fips46.Bit64(Join(FinalPermutationImage(b)), 47) == Fips46.Bit64(Join(b), 59)
    ensures Fips46.Bit64(Join(FinalPermutationImage(b)), 48) == Fips46.Bit64(Join(b), 27)
  {
  }

  lemma FinalPermutationImageBits49To56(b: Block)
    ensures Fips46.Bit64(Join(FinalPermutationImage(b)), 49) == Fips46.Bit64(Join(b), 34)
    ensures Fips46.Bit64(Join(FinalPermutationImage(b)), 50) == Fips46.Bit64(Join(b), 2)
    ensures Fips46.Bit64(Join(FinalPermutationImage(b)), 51) == Fips46.Bit64(Join(b), 42)
    ensures Fips46.Bit64(Join(FinalPermutationImage(b)), 52) == Fips46.Bit64(Join(b), 10)
    ensures Fips46.Bit64(Join(FinalPermutationImage(b)), 53) == Fips46.Bit64(Join(b), 50)
    ensures Fips46.Bit64(Join(FinalPermutationImage(b)), 54) == Fips46.Bit64(Join(b), 18)
    ensures Fips46.Bit64(Join(FinalPermutationImage(b)), 55) == Fips46.Bit64(Join(b), 58)
    ensures Fips46.Bit64(Join(FinalPermutationImage(b)), 56) == Fips46.Bit64(Join(b), 26)
  {
  }

  lemma FinalPermutationImageBits57To64(b: Block)
    ensures Fips46.Bit64(Join(FinalPermutationImage(b)), 57) == Fips46.Bit64(Join(b), 33)
    ensures Fips46.Bit64(Join(FinalPermutationImage(b)), 58) == Fips46.Bit64(Join(b), 1)
    ensures Fips46.Bit64(Join(FinalPermutationImage(b)), 59) == Fips46.Bit64(Join(b), 41)
    ensures Fips46.Bit64(Join(FinalPermutationImage(b)), 60) == Fips46.Bit64(Join(b), 9)
    ensures Fips46.Bit64(Join(FinalPermutationImage(b)), 61) == Fips46.Bit64(Join(b), 49)
    ensures Fips46.Bit64(Join(FinalPermutationImage(b)), 62) == Fips46.Bit64(Join(b), 17)
    ensures Fips46.Bit64(Join(FinalPermutationImage(b)), 63) == Fips46.Bit64(Join(b), 57)
    ensures Fips46.Bit64(Join(FinalPermutationImage(b)), 64) == Fips46.Bit64(Join(b), 25)
  {
  }

  lemma InitialPermutationImageIsStandard(b: Block)
    ensures Fips46.IsInitialPermutation(Join(b), Join(InitialPermutationImage(b)))
  {
    InitialPermutationImageBits1To8(b);
    InitialPermutationImageBits9To16(b);
    InitialPermutationImageBits17To24(b);
    InitialPermutationImageBits25To32(b);
    InitialPermutationImageBits33To40(b);
    InitialPermutationImageBits41To48(b);
    InitialPermutationImageBits49To56(b);
    InitialPermutationImageBits57To64(b);
  }

  lemma FinalPermutationImageIsStandard(b: Block)
    ensures Fips46.IsInverseInitialPermutation(Join(b), Join(FinalPermutationImage(b)))
  {
    FinalPermutationImageBits1To8(b);
    FinalPermutationImageBits9To16(b);
    FinalPermutationImageBits17To24(b);
    FinalPermutationImageBits25To32(b);
    FinalPermutationImageBits33To40(b);
    FinalPermutationImageBits41To48(b);
    FinalPermutationImageBits49To56(b);
    FinalPermutationImageBits57To64(b);
  }

  lemma FinalImageUndoesInitialImage(b: Block)
    ensures FinalPermutationImage(InitialPermutationImage(b)) == b
  {
  }

  lemma InitialImageUndoesFinalImage(b: Block)
    ensures InitialPermutationImage(FinalPermutationImage(b)) == b
  {
  }

  // ---------------------------------------------------------------------------
  // des_SP_table

  /** Where the permutation P sends the four output bits of S-box k: the word
      P makes of Place(k, n), written out bit by bit. */
  function BoxImage(k: nat, n: bv4): bv32
    requires 1 <= k <= 8
  {
    var x := n as bv32;
    match k
    case 1 => ((x & 8) << 20) | ((x & 4) << 13) | ((x & 2) << 8) | ((x & 1) << 1)
    case 2 => ((x & 8) << 16) | ((x & 4) << 2) | ((x & 2) << 29) | ((x & 1) << 14)
    case 3 => ((x & 8) << 5) | ((x & 4) << 14) | ((x & 2) << 1) | ((x & 1) << 26)
    case 4 => ((x & 8) << 3) | ((x & 4) << 10) | ((x & 2) << 21) | ((x & 1) << 31)
    case 5 => ((x & 8) << 21) | ((x & 4) << 16) | ((x & 2) << 6) | ((x & 1) << 29)
    case 6 => ((x & 8) << 25) | ((x & 4) << 1) | ((x & 2) << 20) | ((x & 1) << 13)
    case 7 => ((x & 8) >> 3) | ((x & 4) << 18) | ((x & 2) << 9) | ((x & 1) << 25)
    case 8 => ((x & 8) << 24) | ((x & 4) << 3) | ((x & 2) << 16) | ((x & 1) << 11)
  }

  /** The output bits P gives to S-box k. */
  function BoxMask(k: nat): bv32
    requires 1 <= k <= 8
  {
    BoxImage(k, 0xF)
  }

  /** The S-box output that BoxImage(k, _) turns into v (for v within BoxMask(k)). */
  function BoxGather(k: nat, v: bv32): bv4
    requires 1 <= k <= 8
  {
    var g: bv32 :=
      match k
        case 1 => ((v >> 20) & 8) | ((v >> 13) & 4) | ((v >> 8) & 2) | ((v >> 1) & 1)
        case 2 => ((v >> 16) & 8) | ((v >> 2) & 4) | ((v >> 29) & 2) | ((v >> 14) & 1)
        case 3 => ((v >> 5) & 8) | ((v >> 14) & 4) | ((v >> 1) & 2) | ((v >> 26) & 1)
        case 4 => ((v >> 3) & 8) | ((v >> 10) & 4) | ((v >> 21) & 2) | ((v >> 31) & 1)
        case 5 => ((v >> 21) & 8) | ((v >> 16) & 4) | ((v >> 6) & 2) | ((v >> 29) & 1)
        case 6 => ((v >> 25) & 8) | ((v >> 1) & 4) | ((v >> 20) & 2) | ((v >> 13) & 1)
        case 7 => ((v << 3) & 8) | ((v >> 18) & 4) | ((v >> 9) & 2) | ((v >> 25) & 1)
        case 8 => ((v >> 24) & 8) | ((v >> 3) & 4) | ((v >> 16) & 2) | ((v >> 11) & 1);
    (g & 0xF) as bv4
  }

  lemma BoxImage1IsP(n: bv4)
    ensures Fips46.IsPermutationP(Fips46.Place(1, n), BoxImage(1, n))
  {
  }

  lemma BoxImage2IsP(n: bv4)
    ensures Fips46.IsPermutationP(Fips46.Place(2, n), BoxImage(2, n))
  {
  }

  lemma BoxImage3IsP(n: bv4)
    ensures Fips46.IsPermutationP(Fips46.Place(3, n), BoxImage(3, n))
  {
  }

  lemma BoxImage4IsP(n: bv4)
    ensures Fips46.IsPermutationP(Fips46.Place(4, n), BoxImage(4, n))
  {
  }

  lemma BoxImage5IsP(n: bv4)
    ensures Fips46.IsPermutationP(Fips46.Place(5, n), BoxImage(5, n))
  {
  }

  lemma BoxImage6IsP(n: bv4)
    ensures Fips46.IsPermutationP(Fips46.Place(6, n), BoxImage(6, n))
  {
  }

  lemma BoxImage7IsP(n: bv4)
    ensures Fips46.IsPermutationP(Fips46.Place(7, n), BoxImage(7, n))
  {
  }

  lemma BoxImage8IsP(n: bv4)
    ensures Fips46.IsPermutationP(Fips46.Place(8, n), BoxImage(8, n))
  {
  }

  /** BoxImage is P applied to S-box k's output in its place. */
  lemma BoxImageIsP(k: nat, n: bv4)
    requires 1 <= k <= 8
    ensures Fips46.IsPermutationP(Fips46.Place(k, n), BoxImage(k, n))
  {
    match k
    case 1 => BoxImage1IsP(n);
    case 2 => BoxImage2IsP(n);
    case 3 => BoxImage3IsP(n);
    case 4 => BoxImage4IsP(n);
    case 5 => BoxImage5IsP(n);
    case 6 => BoxImage6IsP(n);
    case 7 => BoxImage7IsP(n);
    case 8 => BoxImage8IsP(n);
  }

  /** The image of an S-box output lies within the box's mask ... */
  lemma BoxImageWithinMask(k: nat, n: bv4)
    requires 1 <= k <= 8
    ensures BoxImage(k, n) & !BoxMask(k) == 0
  {
  }

  /** ... distinct outputs have distinct images ... */
  lemma BoxImageInjective(k: nat, n1: bv4, n2: bv4)
    requires 1 <= k <= 8
    ensures BoxImage(k, n1) == BoxImage(k, n2) ==> n1 == n2
  {
  }

  /** ... and every combination of the mask's bits is the image of one output. */
  lemma BoxGatherInverts(k: nat, v: bv32)
    requires 1 <= k <= 8 && v & !BoxMask(k) == 0
    ensures BoxImage(k, BoxGather(k, v)) == v
  {
  }

  /** ... and the S-box output can be read back from its spread bits. */
  lemma BoxGatherReadsBack(k: nat, n: bv4)
    requires 1 <= k <= 8
    ensures BoxGather(k, BoxImage(k, n)) == n
  {
  }

  /** x has exactly one bit set. */
  predicate IsSingleBit(x: bv32)
  {
    x != 0 && x & (x - 1) == 0
  }

  /** a, b, c and d are single bits, no two of them the same. */
  predicate FourDistinctBits(a: bv32, b: bv32, c: bv32, d: bv32)
  {
    && IsSingleBit(a) && IsSingleBit(b) && IsSingleBit(c) && IsSingleBit(d)
    && a != b && a != c && a != d && b != c && b != d && c != d
  }

  /** The mask of S-box k is made of four distinct single bits, one for each bit
      of the S-box output. */
  lemma BoxMaskHasFourBits(k: nat)
    requires 1 <= k <= 8
    ensures BoxMask(k) == BoxImage(k, 8) | BoxImage(k, 4) | BoxImage(k, 2) | BoxImage(k, 1)
    ensures FourDistinctBits(BoxImage(k, 8), BoxImage(k, 4), BoxImage(k, 2), BoxImage(k, 1))
  {
  }

  /** The masks of two different S-boxes share no bit ... */
  lemma BoxMasksDisjoint(k1: nat, k2: nat)
    requires 1 <= k1 <= 8 && 1 <= k2 <= 8 && k1 != k2
    ensures BoxMask(k1) & BoxMask(k2) == 0
  {
  }

  /** ... and together the eight masks cover all 32 bits. */
  lemma BoxMasksCover()
    ensures BoxMask(1) | BoxMask(2) | BoxMask(3) | BoxMask(4) |
            BoxMask(5) | BoxMask(6) | BoxMask(7) | BoxMask(8) == 0xFFFF_FFFF
  {
  }

  /** The entry des_SP_table holds for box and six when it is the S-box the
      box is labelled with, followed by P. */
  function SpImage(box: nat, six: bv6): bv32
    requires box < 8
  {
    var k := SP_BOX_LABEL[box];
    BoxImage(k, Fips46.SBox(k, six))
  }

  /** t has the entries of des_SP_table. */
  ghost predicate IsSpImageTable(t: seq<seq<seq<bv32>>>)
  {
    IsSpTable(t) &&
    forall box: nat, six: bv6 | box < 8 :: SpEntry(t, box, six) == SpImage(box, six)
  }

  /** The output bits of the S-box held in row box of des_SP_table. */
  function SpBoxMask(box: nat): bv32
    requires box < 8
  {
    BoxMask(SP_BOX_LABEL[box])
  }

  lemma SpImageWithinMask(box: nat, six: bv6)
    requires box < 8
    ensures SpImage(box, six) & !SpBoxMask(box) == 0
  {
    var k := SP_BOX_LABEL[box];
    BoxImageWithinMask(k, Fips46.SBox(k, six));
  }

  /** Along one row of S-box k the image takes every combination of the mask
      bits ... */
  lemma BoxRowOnto(k: nat, r: bv2, v: bv32)
    requires 1 <= k <= 8 && v & !BoxMask(k) == 0
    ensures exists c: bv4 :: BoxImage(k, Fips46.SBox(k, Fips46.Group(r, c))) == v
  {
    var n := BoxGather(k, v);
    BoxGatherInverts(k, v);
    Fips46.SBoxRowIsPermutation(k, r as int);
    Fips46.PermutationRowHas(Fips46.S_BOXES[k - 1][r as int], n);
    var c: bv4 :| Fips46.At(Fips46.S_BOXES[k - 1][r as int], c) == n;
    Fips46.SBoxAtGroup(k, r, c);
  }

  /** ... and no combination twice. */
  lemma BoxRowInjective(k: nat, r: bv2, c1: bv4, c2: bv4)
    requires 1 <= k <= 8
    ensures (BoxImage(k, Fips46.SBox(k, Fips46.Group(r, c1))) ==
             BoxImage(k, Fips46.SBox(k, Fips46.Group(r, c2)))) ==> c1 == c2
  {
    Fips46.SBoxRowIsPermutation(k, r as int);
    Fips46.SBoxAtGroup(k, r, c1);
    Fips46.SBoxAtGroup(k, r, c2);
    BoxImageInjective(k, Fips46.SBox(k, Fips46.Group(r, c1)), Fips46.SBox(k, Fips46.Group(r, c2)));
  }

  /** Along one S-box row the image takes every combination of the mask bits ... */
  lemma SpImageRowOnto(box: nat, r: bv2, v: bv32)
    requires box < 8 && v & !SpBoxMask(box) == 0
    ensures exists c: bv4 :: SpImage(box, Fips46.Group(r, c)) == v
  {
    BoxRowOnto(SP_BOX_LABEL[box], r, v);
    var c: bv4 :| BoxImage(SP_BOX_LABEL[box], Fips46.SBox(SP_BOX_LABEL[box], Fips46.Group(r, c))) == v;
    assert SpImage(box, Fips46.Group(r, c)) == v;
  }

  /** ... and no combination twice. */
  lemma SpImageRowInjective(box: nat, r: bv2, c1: bv4, c2: bv4)
    requires box < 8
    ensures SpImage(box, Fips46.Group(r, c1)) == SpImage(box, Fips46.Group(r, c2)) ==> c1 == c2
  {
    BoxRowInjective(SP_BOX_LABEL[box], r, c1, c2);
  }

  // Facts about any table whose entries are the SP images.

  lemma SpTableWithinMask(t: seq<seq<seq<bv32>>>, box: nat, six: bv6)
    requires IsSpImageTable(t) && box < 8
    ensures SpEntry(t, box, six) & !SpBoxMask(box) == 0
  {
    SpImageWithinMask(box, six);
  }

  lemma SpTableRowOnto(t: seq<seq<seq<bv32>>>, box: nat, r: bv2, v: bv32)
    requires IsSpImageTable(t) && box < 8 && v & !SpBoxMask(box) == 0
    ensures exists c: bv4 :: SpEntry(t, box, Fips46.Group(r, c)) == v
  {
    SpImageRowOnto(box, r, v);
    var c: bv4 :| SpImage(box, Fips46.Group(r, c)) == v;
    assert SpEntry(t, box, Fips46.Group(r, c)) == SpImage(box, Fips46.Group(r, c));
  }

  lemma SpTableRowInjective(t: seq<seq<seq<bv32>>>, box: nat, r: bv2, c1: bv4, c2: bv4)
    requires IsSpImageTable(t) && box < 8
    ensures SpEntry(t, box, Fips46.Group(r, c1)) == SpEntry(t, box, Fips46.Group(r, c2)) ==> c1 == c2
  {
    assert SpEntry(t, box, Fips46.Group(r, c1)) == SpImage(box, Fips46.Group(r, c1));
    assert SpEntry(t, box, Fips46.Group(r, c2)) == SpImage(box, Fips46.Group(r, c2));
    SpImageRowInjective(box, r, c1, c2);
  }

  /** Along each S-box row, box of t holds no value twice. */
  ghost predicate RowsInjective(t: seq<seq<seq<bv32>>>, box: nat)
    requires IsSpTable(t) && box < 8
  {
    forall r: bv2, c1: bv4, c2: bv4 ::
      SpEntry(t, box, Fips46.Group(r, c1)) == SpEntry(t, box, Fips46.Group(r, c2)) ==> c1 == c2
  }

  /** Every entry of box of t lies within the box's mask. */
  ghost predicate EntriesWithinMask(t: seq<seq<seq<bv32>>>, box: nat)
    requires IsSpTable(t) && box < 8
  {
    forall six: bv6 :: SpEntry(t, box, six) & !SpBoxMask(box) == 0
  }

  lemma SpTableRowsInjective(t: seq<seq<seq<bv32>>>, box: nat)
    requires IsSpImageTable(t) && box < 8
    ensures RowsInjective(t, box)
  {
    forall r: bv2, c1: bv4, c2: bv4
      ensures SpEntry(t, box, Fips46.Group(r, c1)) == SpEntry(t, box, Fips46.Group(r, c2)) ==> c1 == c2
    {
      SpTableRowInjective(t, box, r, c1, c2);
    }
  }

  lemma SpTableEntriesWithinMask(t: seq<seq<seq<bv32>>>, box: nat)
    requires IsSpImageTable(t) && box < 8
    ensures EntriesWithinMask(t, box)
  {
    forall six: bv6
      ensures SpEntry(t, box, six) & !SpBoxMask(box) == 0
    {
      SpTableWithinMask(t, box, six);
    }
  }

  /** For a combination of the mask bits, the column of each row that holds it. */
  lemma SpTableRowsOnto(t: seq<seq<seq<bv32>>>, box: nat, v: bv32) returns (c0: bv4, c1: bv4, c2: bv4, c3: bv4)
    requires IsSpImageTable(t) && box < 8 && v & !SpBoxMask(box) == 0
    ensures SpEntry(t, box, Fips46.Group(0, c0)) == v && SpEntry(t, box, Fips46.Group(1, c1)) == v
    ensures SpEntry(t, box, Fips46.Group(2, c2)) == v && SpEntry(t, box, Fips46.Group(3, c3)) == v
  {
    SpTableRowOnto(t, box, 0, v);
    c0 :| SpEntry(t, box, Fips46.Group(0, c0)) == v;
    SpTableRowOnto(t, box, 1, v);
    c1 :| SpEntry(t, box, Fips46.Group(1, c1)) == v;
    SpTableRowOnto(t, box, 2, v);
    c2 :| SpEntry(t, box, Fips46.Group(2, c2)) == v;
    SpTableRowOnto(t, box, 3, v);
    c3 :| SpEntry(t, box, Fips46.Group(3, c3)) == v;
  }

  /** In box of t, v is held exactly at the six-bit groups in s. */
  ghost predicate HeldExactlyAt(t: seq<seq<seq<bv32>>>, box: nat, v: bv32, s: set<bv6>)
    requires IsSpTable(t) && box < 8
  {
    forall six: bv6 :: SpEntry(t, box, six) == v <==> six in s
  }

  /** If each row holds v in the given column and no row holds a value twice,
      v is held there and nowhere else. */
  lemma HeldAtRowColumns(t: seq<seq<seq<bv32>>>, box: nat, v: bv32, c0: bv4, c1: bv4, c2: bv4, c3: bv4)
    requires IsSpTable(t) && box < 8 && RowsInjective(t, box)
    requires SpEntry(t, box, Fips46.Group(0, c0)) == v && SpEntry(t, box, Fips46.Group(1, c1)) == v
    requires SpEntry(t, box, Fips46.Group(2, c2)) == v && SpEntry(t, box, Fips46.Group(3, c3)) == v
    ensures HeldExactlyAt(t, box, v, {Fips46.Group(0, c0), Fips46.Group(1, c1), Fips46.Group(2, c2), Fips46.Group(3, c3)})
  {
    var cs := [c0, c1, c2, c3];
    forall six: bv6 | SpEntry(t, box, six) == v
      ensures six == Fips46.Group(Fips46.Row(six), cs[Fips46.Row(six) as int])
    {
      var r := Fips46.Row(six);
      Fips46.GroupOfRowColumn(six);
      assert SpEntry(t, box, Fips46.Group(r, Fips46.Column(six))) == SpEntry(t, box, Fips46.Group(r, cs[r as int]));
    }
  }

  /** Groups in different rows are different. */
  lemma FourRowGroups(c0: bv4, c1: bv4, c2: bv4, c3: bv4)
    ensures |{Fips46.Group(0, c0), Fips46.Group(1, c1), Fips46.Group(2, c2), Fips46.Group(3, c3)}| == 4
  {
  }
}
