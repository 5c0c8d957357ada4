/** The firmware's sine table is one of the tables the audio proofs are about. */
module SineTableData {
  import opened Oscillator

  // round(32767 * sin(2 pi i / 256)), i = 0..256, sixteen values a row.
  function Row0(): seq<int> { [0, 804, 1608, 2410, 3212, 4011, 4808, 5602, 6393, 7179, 7962, 8739, 9512, 10278, 11039, 11793] }
  function Row1(): seq<int> { [12539, 13279, 14010, 14732, 15446, 16151, 16846, 17530, 18204, 18868, 19519, 20159, 20787, 21403, 22005, 22594] }
  function Row2(): seq<int> { [23170, 23731, 24279, 24811, 25329, 25832, 26319, 26790, 27245, 27683, 28105, 28510, 28898, 29268, 29621, 29956] }
  function Row3(): seq<int> { [30273, 30571, 30852, 31113, 31356, 31580, 31785, 31971, 32137, 32285, 32412, 32521, 32609, 32678, 32728, 32757] }
  function Row4(): seq<int> { [32767, 32757, 32728, 32678, 32609, 32521, 32412, 32285, 32137, 31971, 31785, 31580, 31356, 31113, 30852, 30571] }
  function Row5(): seq<int> { [30273, 29956, 29621, 29268, 28898, 28510, 28105, 27683, 27245, 26790, 26319, 25832, 25329, 24811, 24279, 23731] }
  function Row6(): seq<int> { [23170, 22594, 22005, 21403, 20787, 20159, 19519, 18868, 18204, 17530, 16846, 16151, 15446, 14732, 14010, 13279] }
  function Row7(): seq<int> { [12539, 11793, 11039, 10278, 9512, 8739, 7962, 7179, 6393, 5602, 4808, 4011, 3212, 2410, 1608, 804] }
  function Row8(): seq<int> { [0, -804, -1608, -2410, -3212, -4011, -4808, -5602, -6393, -7179, -7962, -8739, -9512, -10278, -11039, -11793] }
  function Row9(): seq<int> { [-12539, -13279, -14010, -14732, -15446, -16151, -16846, -17530, -18204, -18868, -19519, -20159, -20787, -21403, -22005, -22594] }
  function Row10(): seq<int> { [-23170, -23731, -24279, -24811, -25329, -25832, -26319, -26790, -27245, -27683, -28105, -28510, -28898, -29268, -29621, -29956] }
  function Row11(): seq<int> { [-30273, -30571, -30852, -31113, -31356, -31580, -31785, -31971, -32137, -32285, -32412, -32521, -32609, -32678, -32728, -32757] }
  function Row12(): seq<int> { [-32767, -32757, -32728, -32678, -32609, -32521, -32412, -32285, -32137, -31971, -31785, -31580, -31356, -31113, -30852, -30571] }
  function Row13(): seq<int> { [-30273, -29956, -29621, -29268, -28898, -28510, -28105, -27683, -27245, -26790, -26319, -25832, -25329, -24811, -24279, -23731] }
  function Row14(): seq<int> { [-23170, -22594, -22005, -21403, -20787, -20159, -19519, -18868, -18204, -17530, -16846, -16151, -15446, -14732, -14010, -13279] }
  function Row15(): seq<int> { [-12539, -11793, -11039, -10278, -9512, -8739, -7962, -7179, -6393, -5602, -4808, -4011, -3212, -2410, -1608, -804] }

  /** The rows in order; the last entry repeats the first. */
  function Table(): seq<int> {
    Quarter0() + Quarter1() + Quarter2() + Quarter3() + [0]
  }

  function Quarter0(): seq<int> { Row0() + Row1() + Row2() + Row3() }
  function Quarter1(): seq<int> { Row4() + Row5() + Row6() + Row7() }
  function Quarter2(): seq<int> { Row8() + Row9() + Row10() + Row11() }
  function Quarter3(): seq<int> { Row12() + Row13() + Row14() + Row15() }

  predicate Smooth(t: seq<int>) {
    && (forall i :: 0 <= i < |t| ==> -32767 <= t[i] <= 32767)
    && (forall i {:trigger t[i]} :: 0 <= i < |t| - 1 ==> -804 <= t[i + 1] - t[i] <= 804)
  }

  predicate Piece(t: seq<int>, len: nat, first: int, last: int) {
    0 < len == |t| && Smooth(t) && t[0] == first && t[len - 1] == last
  }

  lemma Join(a: seq<int>, m: nat, first: int, left: int, b: seq<int>, n: nat, right: int, last: int)
    requires Piece(a, m, first, left) && Piece(b, n, right, last) && -804 <= right - left <= 804
    ensures Piece(a + b, m + n, first, last)
  {
  }

  lemma Row0Smooth() ensures Piece(Row0(), 16, 0, 11793) {}
  lemma Row1Smooth() ensures Piece(Row1(), 16, 12539, 22594) {}
  lemma Row2Smooth() ensures Piece(Row2(), 16, 23170, 29956) {}
  lemma Row3Smooth() ensures Piece(Row3(), 16, 30273, 32757) {}
  lemma Row4Smooth() ensures Piece(Row4(), 16, 32767, 30571) {}
  lemma Row5Smooth() ensures Piece(Row5(), 16, 30273, 23731) {}
  lemma Row6Smooth() ensures Piece(Row6(), 16, 23170, 13279) {}
  lemma Row7Smooth() ensures Piece(Row7(), 16, 12539, 804) {}
  lemma Row8Smooth() ensures Piece(Row8(), 16, 0, -11793) {}
  lemma Row9Smooth() ensures Piece(Row9(), 16, -12539, -22594) {}
  lemma Row10Smooth() ensures Piece(Row10(), 16, -23170, -29956) {}
  lemma Row11Smooth() ensures Piece(Row11(), 16, -30273, -32757) {}
  lemma Row12Smooth() ensures Piece(Row12(), 16, -32767, -30571) {}
  lemma Row13Smooth() ensures Piece(Row13(), 16, -30273, -23731) {}
  lemma Row14Smooth() ensures Piece(Row14(), 16, -23170, -13279) {}
  lemma Row15Smooth() ensures Piece(Row15(), 16, -12539, -804) {}

  lemma Quarter0Smooth()
    ensures Piece(Quarter0(), 64, 0, 32757)
  {
    hide Row0, Row1, Row2, Row3, Smooth;
    Row0Smooth(); Row1Smooth(); Row2Smooth(); Row3Smooth();
    Join(Row0(), 16, 0, 11793, Row1(), 16, 12539, 22594);
    Join(Row0() + Row1(), 32, 0, 22594, Row2(), 16, 23170, 29956);
    Join(Row0() + Row1() + Row2(), 48, 0, 29956, Row3(), 16, 30273, 32757);
  }

  lemma Quarter1Smooth()
    ensures Piece(Quarter1(), 64, 32767, 804)
  {
    hide Row4, Row5, Row6, Row7, Smooth;
    Row4Smooth(); Row5Smooth(); Row6Smooth(); Row7Smooth();
    Join(Row4(), 16, 32767, 30571, Row5(), 16, 30273, 23731);
    Join(Row4() + Row5(), 32, 32767, 23731, Row6(), 16, 23170, 13279);
    Join(Row4() + Row5() + Row6(), 48, 32767, 13279, Row7(), 16, 12539, 804);
  }

  lemma Quarter2Smooth()
    ensures Piece(Quarter2(), 64, 0, -32757)
  {
    hide Row8, Row9, Row10, Row11, Smooth;
    Row8Smooth(); Row9Smooth(); Row10Smooth(); Row11Smooth();
    Join(Row8(), 16, 0, -11793, Row9(), 16, -12539, -22594);
    Join(Row8() + Row9(), 32, 0, -22594, Row10(), 16, -23170, -29956);
    Join(Row8() + Row9() + Row10(), 48, 0, -29956, Row11(), 16, -30273, -32757);
  }

  lemma Quarter3Smooth()
    ensures Piece(Quarter3(), 64, -32767, -804)
  {
    hide Row12, Row13, Row14, Row15, Smooth;
    Row12Smooth(); Row13Smooth(); Row14Smooth(); Row15Smooth();
    Join(Row12(), 16, -32767, -30571, Row13(), 16, -30273, -23731);
    Join(Row12() + Row13(), 32, -32767, -23731, Row14(), 16, -23170, -13279);
    Join(Row12() + Row13() + Row14(), 48, -32767, -13279, Row15(), 16, -12539, -804);
  }

  lemma FirmwareTableIsASineTable()
    ensures IsSineTable(Table())
  {
    hide Quarter0, Quarter1, Quarter2, Quarter3;
    Quarter0Smooth(); Quarter1Smooth(); Quarter2Smooth(); Quarter3Smooth();
    Join(Quarter0(), 64, 0, 32757, Quarter1(), 64, 32767, 804);
    Join(Quarter0() + Quarter1(), 128, 0, 804, Quarter2(), 64, 0, -32757);
    Join(Quarter0() + Quarter1() + Quarter2(), 192, 0, -32757, Quarter3(), 64, -32767, -804);
    Join(Quarter0() + Quarter1() + Quarter2() + Quarter3(), 256, 0, -804, [0], 1, 0, 0);
  }
}
