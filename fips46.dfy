/*
 * Reference definitions from FIPS PUB 46-3 (the Data Encryption Standard) that
 * the tables of the table-driven implementation are checked against.  Bits are
 * numbered from 1 at the most significant end, as the standard numbers them.
 */
module Fips46 {

  /** Bit n (1 = most significant) of a 64-bit block is set; there is no bit 0. */
  predicate Bit64(x: bv64, n: bv8)
  {
    1 <= n <= 64 && (x >> (64 - n)) & 1 == 1
  }

  /** Bit n (1 = most significant) of a 32-bit word is set; there is no bit 0. */
  predicate Bit32(x: bv32, n: bv8)
  {
    1 <= n <= 32 && (x >> (32 - n)) & 1 == 1
  }

  /** y is the initial permutation IP of x: bit i of y is bit IP(i) of x
      (the IP table of the standard, read row by row). */
  predicate IsInitialPermutation(x: bv64, y: bv64)
  {
    Bit64(y, 1) == Bit64(x, 58) && Bit64(y, 2) == Bit64(x, 50) && Bit64(y, 3) == Bit64(x, 42) && Bit64(y, 4) == Bit64(x, 34) &&
    Bit64(y, 5) == Bit64(x, 26) && Bit64(y, 6) == Bit64(x, 18) && Bit64(y, 7) == Bit64(x, 10) && Bit64(y, 8) == Bit64(x, 2) &&
    Bit64(y, 9) == Bit64(x, 60) && Bit64(y, 10) == Bit64(x, 52) && Bit64(y, 11) == Bit64(x, 44) && Bit64(y, 12) == Bit64(x, 36) &&
    Bit64(y, 13) == Bit64(x, 28) && Bit64(y, 14) == Bit64(x, 20) && Bit64(y, 15) == Bit64(x, 12) && Bit64(y, 16) == Bit64(x, 4) &&
    Bit64(y, 17) == Bit64(x, 62) && Bit64(y, 18) == Bit64(x, 54) && Bit64(y, 19) == Bit64(x, 46) && Bit64(y, 20) == Bit64(x, 38) &&
    Bit64(y, 21) == Bit64(x, 30) && Bit64(y, 22) == Bit64(x, 22) && Bit64(y, 23) == Bit64(x, 14) && Bit64(y, 24) == Bit64(x, 6) &&
    Bit64(y, 25) == Bit64(x, 64) && Bit64(y, 26) == Bit64(x, 56) && Bit64(y, 27) == Bit64(x, 48) && Bit64(y, 28) == Bit64(x, 40) &&
    Bit64(y, 29) == Bit64(x, 32) && Bit64(y, 30) == Bit64(x, 24) && Bit64(y, 31) == Bit64(x, 16) && Bit64(y, 32) == Bit64(x, 8) &&
    Bit64(y, 33) == Bit64(x, 57) && Bit64(y, 34) == Bit64(x, 49) && Bit64(y, 35) == Bit64(x, 41) && Bit64(y, 36) == Bit64(x, 33) &&
    Bit64(y, 37) == Bit64(x, 25) && Bit64(y, 38) == Bit64(x, 17) && Bit64(y, 39) == Bit64(x, 9) && Bit64(y, 40) == Bit64(x, 1) &&
    Bit64(y, 41) == Bit64(x, 59) && Bit64(y, 42) == Bit64(x, 51) && Bit64(y, 43) == Bit64(x, 43) && Bit64(y, 44) == Bit64(x, 35) &&
    Bit64(y, 45) == Bit64(x, 27) && Bit64(y, 46) == Bit64(x, 19) && Bit64(y, 47) == Bit64(x, 11) && Bit64(y, 48) == Bit64(x, 3) &&
    Bit64(y, 49) == Bit64(x, 61) && Bit64(y, 50) == Bit64(x, 53) && Bit64(y, 51) == Bit64(x, 45) && Bit64(y, 52) == Bit64(x, 37) &&
    Bit64(y, 53) == Bit64(x, 29) && Bit64(y, 54) == Bit64(x, 21) && Bit64(y, 55) == Bit64(x, 13) && Bit64(y, 56) == Bit64(x, 5) &&
    Bit64(y, 57) == Bit64(x, 63) && Bit64(y, 58) == Bit64(x, 55) && Bit64(y, 59) == Bit64(x, 47) && Bit64(y, 60) == Bit64(x, 39) &&
    Bit64(y, 61) == Bit64(x, 31) && Bit64(y, 62) == Bit64(x, 23) && Bit64(y, 63) == Bit64(x, 15) && Bit64(y, 64) == Bit64(x, 7)
  }

  /** y is the inverse initial permutation IP^-1 of x. */
  predicate IsInverseInitialPermutation(x: bv64, y: bv64)
  {
    Bit64(y, 1) == Bit64(x, 40) && Bit64(y, 2) == Bit64(x, 8) && Bit64(y, 3) == Bit64(x, 48) && Bit64(y, 4) == Bit64(x, 16) &&
    Bit64(y, 5) == Bit64(x, 56) && Bit64(y, 6) == Bit64(x, 24) && Bit64(y, 7) == Bit64(x, 64) && Bit64(y, 8) == Bit64(x, 32) &&
    Bit64(y, 9) == Bit64(x, 39) && Bit64(y, 10) == Bit64(x, 7) && Bit64(y, 11) == Bit64(x, 47) && Bit64(y, 12) == Bit64(x, 15) &&
    Bit64(y, 13) == Bit64(x, 55) && Bit64(y, 14) == Bit64(x, 23) && Bit64(y, 15) == Bit64(x, 63) && Bit64(y, 16) == Bit64(x, 31) &&
    Bit64(y, 17) == Bit64(x, 38) && Bit64(y, 18) == Bit64(x, 6) && Bit64(y, 19) == Bit64(x, 46) && Bit64(y, 20) == Bit64(x, 14) &&
    Bit64(y, 21) == Bit64(x, 54) && Bit64(y, 22) == Bit64(x, 22) && Bit64(y, 23) == Bit64(x, 62) && Bit64(y, 24) == Bit64(x, 30) &&
    Bit64(y, 25) == Bit64(x, 37) && Bit64(y, 26) == Bit64(x, 5) && Bit64(y, 27) == Bit64(x, 45) && Bit64(y, 28) == Bit64(x, 13) &&
    Bit64(y, 29) == Bit64(x, 53) && Bit64(y, 30) == Bit64(x, 21) && Bit64(y, 31) == Bit64(x, 61) && Bit64(y, 32) == Bit64(x, 29) &&
    Bit64(y, 33) == Bit64(x, 36) && Bit64(y, 34) == Bit64(x, 4) && Bit64(y, 35) == Bit64(x, 44) && Bit64(y, 36) == Bit64(x, 12) &&
    Bit64(y, 37) == Bit64(x, 52) && Bit64(y, 38) == Bit64(x, 20) && Bit64(y, 39) == Bit64(x, 60) && Bit64(y, 40) == Bit64(x, 28) &&
    Bit64(y, 41) == Bit64(x, 35) && Bit64(y, 42) == Bit64(x, 3) && Bit64(y, 43) == Bit64(x, 43) && Bit64(y, 44) == Bit64(x, 11) &&
    Bit64(y, 45) == Bit64(x, 51) && Bit64(y, 46) == Bit64(x, 19) && Bit64(y, 47) == Bit64(x, 59) && Bit64(y, 48) == Bit64(x, 27) &&
    Bit64(y, 49) == Bit64(x, 34) && Bit64(y, 50) == Bit64(x, 2) && Bit64(y, 51) == Bit64(x, 42) && Bit64(y, 52) == Bit64(x, 10) &&
    Bit64(y, 53) == Bit64(x, 50) && Bit64(y, 54) == Bit64(x, 18) && Bit64(y, 55) == Bit64(x, 58) && Bit64(y, 56) == Bit64(x, 26) &&
    Bit64(y, 57) == Bit64(x, 33) && Bit64(y, 58) == Bit64(x, 1) && Bit64(y, 59) == Bit64(x, 41) && Bit64(y, 60) == Bit64(x, 9) &&
    Bit64(y, 61) == Bit64(x, 49) && Bit64(y, 62) == Bit64(x, 17) && Bit64(y, 63) == Bit64(x, 57) && Bit64(y, 64) == Bit64(x, 25)
  }

  /** y is the permutation P of x (P is applied to the 32-bit S-box output). */
  predicate IsPermutationP(x: bv32, y: bv32)
  {
    Bit32(y, 1) == Bit32(x, 16) && Bit32(y, 2) == Bit32(x, 7) && Bit32(y, 3) == Bit32(x, 20) && Bit32(y, 4) == Bit32(x, 21) &&
    Bit32(y, 5) == Bit32(x, 29) && Bit32(y, 6) == Bit32(x, 12) && Bit32(y, 7) == Bit32(x, 28) && Bit32(y, 8) == Bit32(x, 17) &&
    Bit32(y, 9) == Bit32(x, 1) && Bit32(y, 10) == Bit32(x, 15) && Bit32(y, 11) == Bit32(x, 23) && Bit32(y, 12) == Bit32(x, 26) &&
    Bit32(y, 13) == Bit32(x, 5) && Bit32(y, 14) == Bit32(x, 18) && Bit32(y, 15) == Bit32(x, 31) && Bit32(y, 16) == Bit32(x, 10) &&
    Bit32(y, 17) == Bit32(x, 2) && Bit32(y, 18) == Bit32(x, 8) && Bit32(y, 19) == Bit32(x, 24) && Bit32(y, 20) == Bit32(x, 14) &&
    Bit32(y, 21) == Bit32(x, 32) && Bit32(y, 22) == Bit32(x, 27) && Bit32(y, 23) == Bit32(x, 3) && Bit32(y, 24) == Bit32(x, 9) &&
    Bit32(y, 25) == Bit32(x, 19) && Bit32(y, 26) == Bit32(x, 13) && Bit32(y, 27) == Bit32(x, 30) && Bit32(y, 28) == Bit32(x, 6) &&
    Bit32(y, 29) == Bit32(x, 22) && Bit32(y, 30) == Bit32(x, 11) && Bit32(y, 31) == Bit32(x, 4) && Bit32(y, 32) == Bit32(x, 25)
  }

  /** The eight S-boxes S1..S8, each as its four rows of sixteen columns. */
  const S_BOXES: seq<seq<seq<bv4>>> := [
    // S1
    [
      [14,  4, 13,  1,  2, 15, 11,  8,  3, 10,  6, 12,  5,  9,  0,  7],
      [ 0, 15,  7,  4, 14,  2, 13,  1, 10,  6, 12, 11,  9,  5,  3,  8],
      [ 4,  1, 14,  8, 13,  6,  2, 11, 15, 12,  9,  7,  3, 10,  5,  0],
      [15, 12,  8,  2,  4,  9,  1,  7,  5, 11,  3, 14, 10,  0,  6, 13]
    ],
    // S2
    [
      [15,  1,  8, 14,  6, 11,  3,  4,  9,  7,  2, 13, 12,  0,  5, 10],
      [ 3, 13,  4,  7, 15,  2,  8, 14, 12,  0,  1, 10,  6,  9, 11,  5],
      [ 0, 14,  7, 11, 10,  4, 13,  1,  5,  8, 12,  6,  9,  3,  2, 15],
      [13,  8, 10,  1,  3, 15,  4,  2, 11,  6,  7, 12,  0,  5, 14,  9]
    ],
    // S3
    [
      [10,  0,  9, 14,  6,  3, 15,  5,  1, 13, 12,  7, 11,  4,  2,  8],
      [13,  7,  0,  9,  3,  4,  6, 10,  2,  8,  5, 14, 12, 11, 15,  1],
      [13,  6,  4,  9,  8, 15,  3,  0, 11,  1,  2, 12,  5, 10, 14,  7],
      [ 1, 10, 13,  0,  6,  9,  8,  7,  4, 15, 14,  3, 11,  5,  2, 12]
    ],
    // S4
    [
      [ 7, 13, 14,  3,  0,  6,  9, 10,  1,  2,  8,  5, 11, 12,  4, 15],
      [13,  8, 11,  5,  6, 15,  0,  3,  4,  7,  2, 12,  1, 10, 14,  9],
      [10,  6,  9,  0, 12, 11,  7, 13, 15,  1,  3, 14,  5,  2,  8,  4],
      [ 3, 15,  0,  6, 10,  1, 13,  8,  9,  4,  5, 11, 12,  7,  2, 14]
    ],
    // S5
    [
      [ 2, 12,  4,  1,  7, 10, 11,  6,  8,  5,  3, 15, 13,  0, 14,  9],
      [14, 11,  2, 12,  4,  7, 13,  1,  5,  0, 15, 10,  3,  9,  8,  6],
      [ 4,  2,  1, 11, 10, 13,  7,  8, 15,  9, 12,  5,  6,  3,  0, 14],
      [11,  8, 12,  7,  1, 14,  2, 13,  6, 15,  0,  9, 10,  4,  5,  3]
    ],
    // S6
    [
      [12,  1, 10, 15,  9,  2,  6,  8,  0, 13,  3,  4, 14,  7,  5, 11],
      [10, 15,  4,  2,  7, 12,  9,  5,  6,  1, 13, 14,  0, 11,  3,  8],
      [ 9, 14, 15,  5,  2,  8, 12,  3,  7,  0,  4, 10,  1, 13, 11,  6],
      [ 4,  3,  2, 12,  9,  5, 15, 10, 11, 14,  1,  7,  6,  0,  8, 13]
    ],
    // S7
    [
      [ 4, 11,  2, 14, 15,  0,  8, 13,  3, 12,  9,  7,  5, 10,  6,  1],
      [13,  0, 11,  7,  4,  9,  1, 10, 14,  3,  5, 12,  2, 15,  8,  6],
      [ 1,  4, 11, 13, 12,  3,  7, 14, 10, 15,  6,  8,  0,  5,  9,  2],
      [ 6, 11, 13,  8,  1,  4, 10,  7,  9,  5,  0, 15, 14,  2,  3, 12]
    ],
    // S8
    [
      [13,  2,  8,  4,  6, 15, 11,  1, 10,  9,  3, 14,  5,  0, 12,  7],
      [ 1, 15, 13,  8, 10,  3,  7,  4, 12,  5,  6, 11,  0, 14,  9,  2],
      [ 7, 11,  4,  1,  9, 12, 14,  2,  0,  6, 10, 13, 15,  3,  5,  8],
      [ 2,  1, 14,  7,  4, 10,  8, 13, 15, 12,  9,  0,  3,  5,  6, 11]
    ]
  ]

  /** The row an S-box reads from a 6-bit group b1..b6: the two outer bits b1 b6. */
  function Row(six: bv6): bv2
  {
    (((six >> 4) & 2) | (six & 1)) as bv2
  }

  /** The column an S-box reads from a 6-bit group b1..b6: the inner bits b2..b5. */
  function Column(six: bv6): bv4
  {
    ((six >> 1) & 0xF) as bv4
  }

  /** The 6-bit group that selects row r and column c. */
  function Group(r: bv2, c: bv4): (six: bv6)
    ensures Row(six) == r && Column(six) == c
  {
    (((r as bv6) & 2) << 4) | ((c as bv6) << 1) | ((r as bv6) & 1)
  }

  /** Every 6-bit group is the group of its own row and column. */
  lemma GroupOfRowColumn(six: bv6)
    ensures Group(Row(six), Column(six)) == six
  {
  }

  /** Sk (k = 1..8) applied to one 6-bit group. */
  function SBox(k: nat, six: bv6): bv4
    requires 1 <= k <= 8
  {
    S_BOXES[k - 1][Row(six) as int][Column(six) as int]
  }

  /** A 4-bit S-box output placed in positions 4k-3..4k of the 32-bit word that
      P permutes (S1 in the most significant nibble, S8 in the least). */
  function Place(k: nat, n: bv4): bv32
    requires 1 <= k <= 8
  {
    var w := n as bv32;
    match k
    case 1 => w << 28
    case 2 => w << 24
    case 3 => w << 20
    case 4 => w << 16
    case 5 => w << 12
    case 6 => w << 8
    case 7 => w << 4
    case 8 => w
  }

  /** The 32-bit S-box output word in which only Sk has contributed. */
  function SBoxWord(k: nat, six: bv6): bv32
    requires 1 <= k <= 8
  {
    Place(k, SBox(k, six))
  }

  /** Column c of an S-box row. */
  function At(row: seq<bv4>, c: bv4): bv4
    requires |row| == 16
  {
    row[c as int]
  }

  /** The row holds each of the values 0..15 exactly once. */
  ghost predicate RowIsPermutation(row: seq<bv4>)
  {
    |row| == 16 &&
    (forall n: bv4 :: n in row) &&
    (forall c1: bv4, c2: bv4 :: c1 != c2 ==> At(row, c1) != At(row, c2))
  }

  lemma S1Row0IsPermutation()
    ensures RowIsPermutation(S_BOXES[0][0])
  {
  }

  lemma S1Row1IsPermutation()
    ensures RowIsPermutation(S_BOXES[0][1])
  {
  }

  lemma S1Row2IsPermutation()
    ensures RowIsPermutation(S_BOXES[0][2])
  {
  }

  lemma S1Row3IsPermutation()
    ensures RowIsPermutation(S_BOXES[0][3])
  {
  }

  lemma S2Row0IsPermutation()
    ensures RowIsPermutation(S_BOXES[1][0])
  {
  }

  lemma S2Row1IsPermutation()
    ensures RowIsPermutation(S_BOXES[1][1])
  {
  }

  lemma S2Row2IsPermutation()
    ensures RowIsPermutation(S_BOXES[1][2])
  {
  }

  lemma S2Row3IsPermutation()
    ensures RowIsPermutation(S_BOXES[1][3])
  {
  }

  lemma S3Row0IsPermutation()
    ensures RowIsPermutation(S_BOXES[2][0])
  {
  }

  lemma S3Row1IsPermutation()
    ensures RowIsPermutation(S_BOXES[2][1])
  {
  }

  lemma S3Row2IsPermutation()
    ensures RowIsPermutation(S_BOXES[2][2])
  {
  }

  lemma S3Row3IsPermutation()
    ensures RowIsPermutation(S_BOXES[2][3])
  {
  }

  lemma S4Row0IsPermutation()
    ensures RowIsPermutation(S_BOXES[3][0])
  {
  }

  lemma S4Row1IsPermutation()
    ensures RowIsPermutation(S_BOXES[3][1])
  {
  }

  lemma S4Row2IsPermutation()
    ensures RowIsPermutation(S_BOXES[3][2])
  {
  }

  lemma S4Row3IsPermutation()
    ensures RowIsPermutation(S_BOXES[3][3])
  {
  }

  lemma S5Row0IsPermutation()
    ensures RowIsPermutation(S_BOXES[4][0])
  {
  }

  lemma S5Row1IsPermutation()
    ensures RowIsPermutation(S_BOXES[4][1])
  {
  }

  lemma S5Row2IsPermutation()
    ensures RowIsPermutation(S_BOXES[4][2])
  {
  }

  lemma S5Row3IsPermutation()
    ensures RowIsPermutation(S_BOXES[4][3])
  {
  }

  lemma S6Row0IsPermutation()
    ensures RowIsPermutation(S_BOXES[5][0])
  {
  }

  lemma S6Row1IsPermutation()
    ensures RowIsPermutation(S_BOXES[5][1])
  {
  }

  lemma S6Row2IsPermutation()
    ensures RowIsPermutation(S_BOXES[5][2])
  {
  }

  lemma S6Row3IsPermutation()
    ensures RowIsPermutation(S_BOXES[5][3])
  {
  }

  lemma S7Row0IsPermutation()
    ensures RowIsPermutation(S_BOXES[6][0])
  {
  }

  lemma S7Row1IsPermutation()
    ensures RowIsPermutation(S_BOXES[6][1])
  {
  }

  lemma S7Row2IsPermutation()
    ensures RowIsPermutation(S_BOXES[6][2])
  {
  }

  lemma S7Row3IsPermutation()
    ensures RowIsPermutation(S_BOXES[6][3])
  {
  }

  lemma S8Row0IsPermutation()
    ensures RowIsPermutation(S_BOXES[7][0])
  {
  }

  lemma S8Row1IsPermutation()
    ensures RowIsPermutation(S_BOXES[7][1])
  {
  }

  lemma S8Row2IsPermutation()
    ensures RowIsPermutation(S_BOXES[7][2])
  {
  }

  lemma S8Row3IsPermutation()
    ensures RowIsPermutation(S_BOXES[7][3])
  {
  }

  /** A permutation row holds every value in some column. */
  lemma PermutationRowHas(row: seq<bv4>, n: bv4)
    requires RowIsPermutation(row)
    ensures exists c: bv4 :: At(row, c) == n
  {
    assert n in row;
    var j :| 0 <= j < |row| && row[j] == n;
    assert At(row, j as bv4) == n;
  }

  /** Sk at the group of row r and column c is column c of row r of Sk. */
  lemma SBoxAtGroup(k: nat, r: bv2, c: bv4)
    requires 1 <= k <= 8
    ensures |S_BOXES[k - 1][r as int]| == 16
    ensures SBox(k, Group(r, c)) == At(S_BOXES[k - 1][r as int], c)
  {
  }

  /** Every row of every S-box is a permutation of 0..15. */
  lemma SBoxRowIsPermutation(k: nat, r: nat)
    requires 1 <= k <= 8 && r < 4
    ensures RowIsPermutation(S_BOXES[k - 1][r])
  {
    if k == 1 && r == 0 {
      S1Row0IsPermutation();
    } else if k == 1 && r == 1 {
      S1Row1IsPermutation();
    } else if k == 1 && r == 2 {
      S1Row2IsPermutation();
    } else if k == 1 && r == 3 {
      S1Row3IsPermutation();
    } else if k == 2 && r == 0 {
      S2Row0IsPermutation();
    } else if k == 2 && r == 1 {
      S2Row1IsPermutation();
    } else if k == 2 && r == 2 {
      S2Row2IsPermutation();
    } else if k == 2 && r == 3 {
      S2Row3IsPermutation();
    } else if k == 3 && r == 0 {
      S3Row0IsPermutation();
    } else if k == 3 && r == 1 {
      S3Row1IsPermutation();
    } else if k == 3 && r == 2 {
      S3Row2IsPermutation();
    } else if k == 3 && r == 3 {
      S3Row3IsPermutation();
    } else if k == 4 && r == 0 {
      S4Row0IsPermutation();
    } else if k == 4 && r == 1 {
      S4Row1IsPermutation();
    } else if k == 4 && r == 2 {
      S4Row2IsPermutation();
    } else if k == 4 && r == 3 {
      S4Row3IsPermutation();
    } else if k == 5 && r == 0 {
      S5Row0IsPermutation();
    } else if k == 5 && r == 1 {
      S5Row1IsPermutation();
    } else if k == 5 && r == 2 {
      S5Row2IsPermutation();
    } else if k == 5 && r == 3 {
      S5Row3IsPermutation();
    } else if k == 6 && r == 0 {
      S6Row0IsPermutation();
    } else if k == 6 && r == 1 {
      S6Row1IsPermutation();
    } else if k == 6 && r == 2 {
      S6Row2IsPermutation();
    } else if k == 6 && r == 3 {
      S6Row3IsPermutation();
    } else if k == 7 && r == 0 {
      S7Row0IsPermutation();
    } else if k == 7 && r == 1 {
      S7Row1IsPermutation();
    } else if k == 7 && r == 2 {
      S7Row2IsPermutation();
    } else if k == 7 && r == 3 {
      S7Row3IsPermutation();
    } else if k == 8 && r == 0 {
      S8Row0IsPermutation();
    } else if k == 8 && r == 1 {
      S8Row1IsPermutation();
    } else if k == 8 && r == 2 {
      S8Row2IsPermutation();
    } else {
      S8Row3IsPermutation();
    }
  }
}
