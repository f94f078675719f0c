/*
 * What the round code of the table-driven DES relies on in the tables of
 * libdes/f_tables.c: their bit structure, and their agreement with the
 * bit-by-bit definitions of FIPS PUB 46-3.  Each table is shown equal, entry
 * by entry, to its image in DesImages, and the facts about the images are
 * carried over to the table.
 */
module DesTableFacts {
  import opened DesTables
  import opened DesImages
  import Fips46

  lemma IpTableLowHalf()
    ensures forall b: bv8 | b < 0x80 :: ByteEntry(IP_TABLE, b) == IpImage(b)
  {
  }

  lemma IpTableHighHalf()
    ensures forall b: bv8 | b >= 0x80 :: ByteEntry(IP_TABLE, b) == IpImage(b)
  {
  }

  /** Every one of the 256 entries of des_IP_table is the image of its index. */
  lemma IpTableIsImage()
    ensures IsIpTable(IP_TABLE)
  {
    IpTableLowHalf();
    IpTableHighHalf();
  }

  /** Each entry of des_IP_table has bits only within 0x11111111, so at most one
      bit per nibble. */
  lemma IpEntriesWithinMask(b: bv8)
    ensures IpLookup(b) & !0x1111_1111 == 0
  {
    IpTableIsImage();
    assert IpLookup(b) == IpImage(b);
  }

  /** des_IP_table is OR-homomorphic: the entry for a | b is the OR of the entries
      for a and b (for disjoint a and b, and in fact for all). */
  lemma IpTableOrHomomorphic(a: bv8, b: bv8)
    ensures IpLookup(a | b) == IpLookup(a) | IpLookup(b)
  {
    IpTableIsImage();
    assert IpLookup(a | b) == IpImage(a | b);
    assert IpLookup(a) == IpImage(a);
    assert IpLookup(b) == IpImage(b);
  }

  /** Distinct bytes have distinct entries in des_IP_table. */
  lemma IpTableInjective(a: bv8, b: bv8)
    ensures IpLookup(a) == IpLookup(b) ==> a == b
  {
    IpTableIsImage();
    assert IpLookup(a) == IpImage(a);
    assert IpLookup(b) == IpImage(b);
  }

  /** The four lookups of IpHalf, shifted left by 0, 1, 2 and 3, never share a bit. */
  lemma IpHalfLookupsDisjoint(x: bv8, y: bv8)
    ensures IpLookup(x) & (IpLookup(y) << 1) == 0
    ensures IpLookup(x) & (IpLookup(y) << 2) == 0
    ensures IpLookup(x) & (IpLookup(y) << 3) == 0
    ensures (IpLookup(x) << 1) & (IpLookup(y) << 2) == 0
    ensures (IpLookup(x) << 1) & (IpLookup(y) << 3) == 0
    ensures (IpLookup(x) << 2) & (IpLookup(y) << 3) == 0
  {
    IpEntriesWithinMask(x);
    IpEntriesWithinMask(y);
  }

  /** So combining them loses nothing: IpHalf is injective on 32-bit words. */
  lemma IpHalfInjective(v: bv32, w: bv32)
    ensures IpHalf(v) == IpHalf(w) ==> v == w
  {
    IpTableIsImage();
    IpHalfIsImage(IP_TABLE, v);
    IpHalfIsImage(IP_TABLE, w);
  }

  lemma FpTableLowHalf()
    ensures forall b: bv8 | b < 0x80 :: ByteEntry(FP_TABLE, b) == FpImage(b)
  {
  }

  lemma FpTableHighHalf()
    ensures forall b: bv8 | b >= 0x80 :: ByteEntry(FP_TABLE, b) == FpImage(b)
  {
  }

  /** Every one of the 256 entries of des_FP_table is the image of its index. */
  lemma FpTableIsImage()
    ensures IsFpTable(FP_TABLE)
  {
    FpTableLowHalf();
    FpTableHighHalf();
  }

  /** Each entry of des_FP_table has bits only within 0x03030303. */
  lemma FpEntriesWithinMask(b: bv8)
    ensures FpLookup(b) & !0x0303_0303 == 0
  {
    FpTableIsImage();
    assert FpLookup(b) == FpImage(b);
  }

  /** des_FP_table is OR-homomorphic. */
  lemma FpTableOrHomomorphic(a: bv8, b: bv8)
    ensures FpLookup(a | b) == FpLookup(a) | FpLookup(b)
  {
    FpTableIsImage();
    assert FpLookup(a | b) == FpImage(a | b);
    assert FpLookup(a) == FpImage(a);
    assert FpLookup(b) == FpImage(b);
  }

  /** Distinct bytes have distinct entries in des_FP_table. */
  lemma FpTableInjective(a: bv8, b: bv8)
    ensures FpLookup(a) == FpLookup(b) ==> a == b
  {
    FpTableIsImage();
    assert FpLookup(a) == FpImage(a);
    assert FpLookup(b) == FpImage(b);
  }

  /** The four lookups of FpHalf, shifted left by 6, 4, 2 and 0, never share a bit. */
  lemma FpHalfLookupsDisjoint(x: bv8, y: bv8)
    ensures (FpLookup(x) << 6) & (FpLookup(y) << 4) == 0
    ensures (FpLookup(x) << 6) & (FpLookup(y) << 2) == 0
    ensures (FpLookup(x) << 6) & FpLookup(y) == 0
    ensures (FpLookup(x) << 4) & (FpLookup(y) << 2) == 0
    ensures (FpLookup(x) << 4) & FpLookup(y) == 0
    ensures (FpLookup(x) << 2) & FpLookup(y) == 0
  {
    FpEntriesWithinMask(x);
    FpEntriesWithinMask(y);
  }

  /** So FpHalf is injective on 32-bit words. */
  lemma FpHalfInjective(v: bv32, w: bv32)
    ensures FpHalf(v) == FpHalf(w) ==> v == w
  {
    FpTableIsImage();
    FpHalfIsImage(FP_TABLE, v);
    FpHalfIsImage(FP_TABLE, w);
  }

  lemma InitialPermutationWithIsImage(t: seq<seq<bv32>>, b: Block)
    requires IsIpTable(t)
    ensures InitialPermutationWith(t, b) == InitialPermutationImage(b)
  {
    IpHalfIsImage(t, IpLeftWord(b));
    IpHalfIsImage(t, IpRightWord(b));
  }

  lemma FinalPermutationWithIsImage(t: seq<seq<bv32>>, b: Block)
    requires IsFpTable(t)
    ensures FinalPermutationWith(t, b) == FinalPermutationImage(b)
  {
    FpHalfIsImage(t, FpLeftWord(b));
    FpHalfIsImage(t, FpRightWord(b));
  }

  lemma InitialPermutationIsImage(b: Block)
    ensures InitialPermutation(b) == InitialPermutationImage(b)
  {
    IpTableIsImage();
    InitialPermutationWithIsImage(IP_TABLE, b);
  }

  lemma FinalPermutationIsImage(b: Block)
    ensures FinalPermutation(b) == FinalPermutationImage(b)
  {
    FpTableIsImage();
    FinalPermutationWithIsImage(FP_TABLE, b);
  }

  /** The table-driven initial permutation is IP of FIPS PUB 46-3, bit for bit. */
  lemma InitialPermutationIsStandard(b: Block)
    ensures Fips46.IsInitialPermutation(Join(b), Join(InitialPermutation(b)))
  {
    InitialPermutationIsImage(b);
    InitialPermutationImageIsStandard(b);
  }

  /** The table-driven final permutation is IP^-1 of FIPS PUB 46-3, bit for bit. */
  lemma FinalPermutationIsStandard(b: Block)
    ensures Fips46.IsInverseInitialPermutation(Join(b), Join(FinalPermutation(b)))
  {
    FinalPermutationIsImage(b);
    FinalPermutationImageIsStandard(b);
  }

  /** The final permutation undoes the initial one ... */
  lemma FinalUndoesInitial(b: Block)
    ensures FinalPermutation(InitialPermutation(b)) == b
  {
    InitialPermutationIsImage(b);
    FinalPermutationIsImage(InitialPermutation(b));
    FinalImageUndoesInitialImage(b);
  }

  /** ... and the initial permutation undoes the final one. */
  lemma InitialUndoesFinal(b: Block)
    ensures InitialPermutation(FinalPermutation(b)) == b
  {
    FinalPermutationIsImage(b);
    InitialPermutationIsImage(FinalPermutation(b));
    InitialImageUndoesFinalImage(b);
  }


  // ---------------------------------------------------------------------------
  // des_SP_table

  lemma SpTableBox0Low()
    ensures forall six: bv6 | six < 32 :: SpEntry(SP_TABLE, 0, six) == BoxImage(7, Fips46.SBox(7, six))
  {
  }

  lemma SpTableBox0High()
    ensures forall six: bv6 | six >= 32 :: SpEntry(SP_TABLE, 0, six) == BoxImage(7, Fips46.SBox(7, six))
  {
  }

  lemma SpTableBox1Low()
    ensures forall six: bv6 | six < 32 :: SpEntry(SP_TABLE, 1, six) == BoxImage(1, Fips46.SBox(1, six))
  {
  }

  lemma SpTableBox1High()
    ensures forall six: bv6 | six >= 32 :: SpEntry(SP_TABLE, 1, six) == BoxImage(1, Fips46.SBox(1, six))
  {
  }

  lemma SpTableBox2Low()
    ensures forall six: bv6 | six < 32 :: SpEntry(SP_TABLE, 2, six) == BoxImage(3, Fips46.SBox(3, six))
  {
  }

  lemma SpTableBox2High()
    ensures forall six: bv6 | six >= 32 :: SpEntry(SP_TABLE, 2, six) == BoxImage(3, Fips46.SBox(3, six))
  {
  }

  lemma SpTableBox3Low()
    ensures forall six: bv6 | six < 32 :: SpEntry(SP_TABLE, 3, six) == BoxImage(5, Fips46.SBox(5, six))
  {
  }

  lemma SpTableBox3High()
    ensures forall six: bv6 | six >= 32 :: SpEntry(SP_TABLE, 3, six) == BoxImage(5, Fips46.SBox(5, six))
  {
  }

  lemma SpTableBox4Low()
    ensures forall six: bv6 | six < 32 :: SpEntry(SP_TABLE, 4, six) == BoxImage(4, Fips46.SBox(4, six))
  {
  }

  lemma SpTableBox4High()
    ensures forall six: bv6 | six >= 32 :: SpEntry(SP_TABLE, 4, six) == BoxImage(4, Fips46.SBox(4, six))
  {
  }

  lemma SpTableBox5Low()
    ensures forall six: bv6 | six < 32 :: SpEntry(SP_TABLE, 5, six) == BoxImage(6, Fips46.SBox(6, six))
  {
  }

  lemma SpTableBox5High()
    ensures forall six: bv6 | six >= 32 :: SpEntry(SP_TABLE, 5, six) == BoxImage(6, Fips46.SBox(6, six))
  {
  }

  lemma SpTableBox6Low()
    ensures forall six: bv6 | six < 32 :: SpEntry(SP_TABLE, 6, six) == BoxImage(8, Fips46.SBox(8, six))
  {
  }

  lemma SpTableBox6High()
    ensures forall six: bv6 | six >= 32 :: SpEntry(SP_TABLE, 6, six) == BoxImage(8, Fips46.SBox(8, six))
  {
  }

  lemma SpTableBox7Low()
    ensures forall six: bv6 | six < 32 :: SpEntry(SP_TABLE, 7, six) == BoxImage(2, Fips46.SBox(2, six))
  {
  }

  lemma SpTableBox7High()
    ensures forall six: bv6 | six >= 32 :: SpEntry(SP_TABLE, 7, six) == BoxImage(2, Fips46.SBox(2, six))
  {
  }

  /** Every one of the 512 entries of des_SP_table is the image of its S-box
      output under P. */
  lemma SpTableIsImage()
    ensures IsSpImageTable(SP_TABLE)
  {
    forall box: nat, six: bv6 | box < 8
      ensures SpEntry(SP_TABLE, box, six) == SpImage(box, six)
    {
      if box == 0 {
        SpTableBox0Low();
        SpTableBox0High();
      } else if box == 1 {
        SpTableBox1Low();
        SpTableBox1High();
      } else if box == 2 {
        SpTableBox2Low();
        SpTableBox2High();
      } else if box == 3 {
        SpTableBox3Low();
        SpTableBox3High();
      } else if box == 4 {
        SpTableBox4Low();
        SpTableBox4High();
      } else if box == 5 {
        SpTableBox5Low();
        SpTableBox5High();
      } else if box == 6 {
        SpTableBox6Low();
        SpTableBox6High();
      } else {
        SpTableBox7Low();
        SpTableBox7High();
      }
    }
  }

  lemma SpLookupIsImage(box: nat, six: bv6)
    requires box < 8
    ensures SpLookup(box, six) == SpImage(box, six)
  {
    SpTableIsImage();
  }

  /** Each entry of des_SP_table is P applied to the output of the S-box its box
      is labelled with, placed in that S-box's nibble, as FIPS PUB 46-3 defines
      the cipher function before the XOR. */
  lemma SpEntryIsStandard(box: nat, six: bv6)
    requires box < 8
    ensures Fips46.IsPermutationP(Fips46.SBoxWord(SP_BOX_LABEL[box], six), SpLookup(box, six))
  {
    SpLookupIsImage(box, six);
    BoxImageIsP(SP_BOX_LABEL[box], Fips46.SBox(SP_BOX_LABEL[box], six));
  }

  /** Each entry of a box has bits only within the box's mask. */
  lemma SpEntryWithinMask(box: nat, six: bv6)
    requires box < 8
    ensures SpLookup(box, six) & !SpBoxMask(box) == 0
  {
    SpLookupIsImage(box, six);
    SpImageWithinMask(box, six);
  }

  /** The masks of two different boxes share no bit ... */
  lemma SpBoxMasksDisjoint(b1: nat, b2: nat)
    requires b1 < 8 && b2 < 8 && b1 != b2
    ensures SpBoxMask(b1) & SpBoxMask(b2) == 0
  {
    BoxMasksDisjoint(SP_BOX_LABEL[b1], SP_BOX_LABEL[b2]);
  }

  /** ... the eight masks together are all 32 bits ... */
  lemma SpBoxMasksCover()
    ensures SpBoxMask(0) | SpBoxMask(1) | SpBoxMask(2) | SpBoxMask(3) |
            SpBoxMask(4) | SpBoxMask(5) | SpBoxMask(6) | SpBoxMask(7) == 0xFFFF_FFFF
  {
    BoxMasksCover();
  }

  /** ... and each mask is four distinct single bits, one per S-box output bit. */
  lemma SpBoxMaskHasFourBits(box: nat)
    requires box < 8
    ensures SpBoxMask(box) == BoxImage(SP_BOX_LABEL[box], 8) | BoxImage(SP_BOX_LABEL[box], 4) |
                              BoxImage(SP_BOX_LABEL[box], 2) | BoxImage(SP_BOX_LABEL[box], 1)
    ensures FourDistinctBits(BoxImage(SP_BOX_LABEL[box], 8), BoxImage(SP_BOX_LABEL[box], 4),
                             BoxImage(SP_BOX_LABEL[box], 2), BoxImage(SP_BOX_LABEL[box], 1))
  {
    BoxMaskHasFourBits(SP_BOX_LABEL[box]);
  }

  /** Along each S-box row (the 16 six-bit groups with the same outer bits) a box
      takes every combination of its mask bits ... */
  lemma SpRowOnto(box: nat, r: bv2, v: bv32)
    requires box < 8 && v & !SpBoxMask(box) == 0
    ensures exists c: bv4 :: SpLookup(box, Fips46.Group(r, c)) == v
  {
    SpTableIsImage();
    SpTableRowOnto(SP_TABLE, box, r, v);
  }

  /** ... and none twice. */
  lemma SpRowInjective(box: nat, r: bv2, c1: bv4, c2: bv4)
    requires box < 8
    ensures SpLookup(box, Fips46.Group(r, c1)) == SpLookup(box, Fips46.Group(r, c2)) ==> c1 == c2
  {
    SpTableIsImage();
    SpTableRowInjective(SP_TABLE, box, r, c1, c2);
  }

  /** Each combination of a box's mask bits is held by exactly four of its 64
      entries, one in each S-box row, and no other value occurs in the box. */
  lemma SpCombinationCount(box: nat, v: bv32)
    requires box < 8
    ensures v & !SpBoxMask(box) == 0 ==>
      exists s: set<bv6> :: |s| == 4 && forall six: bv6 :: SpLookup(box, six) == v <==> six in s
    ensures v & !SpBoxMask(box) != 0 ==> forall six: bv6 :: SpLookup(box, six) != v
  {
    SpTableIsImage();
    if v & !SpBoxMask(box) == 0 {
      var c0, c1, c2, c3 := SpTableRowsOnto(SP_TABLE, box, v);
      SpTableRowsInjective(SP_TABLE, box);
      HeldAtRowColumns(SP_TABLE, box, v, c0, c1, c2, c3);
      FourRowGroups(c0, c1, c2, c3);
    } else {
      SpTableEntriesWithinMask(SP_TABLE, box);
    }
  }
}
