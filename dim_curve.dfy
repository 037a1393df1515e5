/**
  The dim curve `dc[256]` of RGBMoodLifx.cpp: a brightness lookup table that
  makes linear dimming look natural to the eye. The firmware declares it as
  data that no code writes (the code that read it is commented out), so the model
  keeps it as data and proves the facts about its entries.

  The table is written, as in the source, in sixteen rows of sixteen entries.
 */
module DimCurve {
  import opened LifxBytes

  const Row0: seq<u8> := [0,   1,   1,   2,   2,   2,   2,   2,   2,   3,   3,   3,   3,   3,   3,   3]
  const Row1: seq<u8> := [3,   3,   3,   3,   3,   3,   3,   4,   4,   4,   4,   4,   4,   4,   4,   4]
  const Row2: seq<u8> := [4,   4,   4,   5,   5,   5,   5,   5,   5,   5,   5,   5,   5,   6,   6,   6]
  const Row3: seq<u8> := [6,   6,   6,   6,   6,   7,   7,   7,   7,   7,   7,   7,   8,   8,   8,   8]
  const Row4: seq<u8> := [8,   8,   9,   9,   9,   9,   9,   9,  10,  10,  10,  10,  10,  11,  11,  11]
  const Row5: seq<u8> := [11,  11,  12,  12,  12,  12,  12,  13,  13,  13,  13,  14,  14,  14,  14,  15]
  const Row6: seq<u8> := [15,  15,  16,  16,  16,  16,  17,  17,  17,  18,  18,  18,  19,  19,  19,  20]
  const Row7: seq<u8> := [20,  20,  21,  21,  22,  22,  22,  23,  23,  24,  24,  25,  25,  25,  26,  26]
  const Row8: seq<u8> := [27,  27,  28,  28,  29,  29,  30,  30,  31,  32,  32,  33,  33,  34,  35,  35]
  const Row9: seq<u8> := [36,  36,  37,  38,  38,  39,  40,  40,  41,  42,  43,  43,  44,  45,  46,  47]
  const Row10: seq<u8> := [48,  48,  49,  50,  51,  52,  53,  54,  55,  56,  57,  58,  59,  60,  61,  62]
  const Row11: seq<u8> := [63,  64,  65,  66,  68,  69,  70,  71,  73,  74,  75,  76,  78,  79,  81,  82]
  const Row12: seq<u8> := [83,  85,  86,  88,  90,  91,  93,  94,  96,  98,  99, 101, 103, 105, 107, 109]
  const Row13: seq<u8> := [110, 112, 114, 116, 118, 121, 123, 125, 127, 129, 132, 134, 136, 139, 141, 144]
  const Row14: seq<u8> := [146, 149, 151, 154, 157, 159, 162, 165, 168, 171, 174, 177, 180, 183, 186, 190]
  const Row15: seq<u8> := [193, 196, 200, 203, 207, 211, 214, 218, 222, 226, 230, 234, 238, 242, 248, 255]

  /** The whole table, `dc[0]` to `dc[255]`. */
  const Dc: seq<u8> :=
    Row0 + Row1 + Row2 + Row3 + Row4 + Row5 + Row6 + Row7 +
    Row8 + Row9 + Row10 + Row11 + Row12 + Row13 + Row14 + Row15

  /** Every entry is at most its successor. */
  predicate StepsUp(s: seq<int>)
  {
    forall i :: 0 <= i < |s| - 1 ==> s[i] <= s[i + 1]
  }

  /** Every entry is at most every later entry. */
  predicate NonDecreasing(s: seq<int>)
  {
    forall i, j :: 0 <= i <= j < |s| ==> s[i] <= s[j]
  }

  lemma JoinStepsUp(a: seq<int>, b: seq<int>)
    requires StepsUp(a) && StepsUp(b) && a != [] && b != [] && a[|a| - 1] <= b[0]
    ensures StepsUp(a + b)
  {
  }

  lemma {:induction false} StepsUpIsNonDecreasing(s: seq<int>)
    requires StepsUp(s)
    ensures NonDecreasing(s)
  {
    if |s| > 1 {
      assert StepsUp(s[1..]);
      StepsUpIsNonDecreasing(s[1..]);
      forall i, j | 0 <= i <= j < |s| ensures s[i] <= s[j] {
        if 0 < i {
          assert s[i] == s[1..][i - 1] && s[j] == s[1..][j - 1];
        } else if 0 < j {
          assert s[1] <= s[1..][j - 1];
        }
      }
    }
  }

  lemma RowsStepUp()
    ensures StepsUp(Row0) && StepsUp(Row1) && StepsUp(Row2) && StepsUp(Row3)
    ensures StepsUp(Row4) && StepsUp(Row5) && StepsUp(Row6) && StepsUp(Row7)
    ensures StepsUp(Row8) && StepsUp(Row9) && StepsUp(Row10) && StepsUp(Row11)
    ensures StepsUp(Row12) && StepsUp(Row13) && StepsUp(Row14) && StepsUp(Row15)
  {
  }

  /** The rows join without a step down. */
  lemma {:induction false} DcStepsUp()
    ensures StepsUp(Dc)
  {
    RowsStepUp();
    var acc: seq<int> := Row0;
    JoinStepsUp(acc, Row1); acc := acc + Row1;
    JoinStepsUp(acc, Row2); acc := acc + Row2;
    JoinStepsUp(acc, Row3); acc := acc + Row3;
    JoinStepsUp(acc, Row4); acc := acc + Row4;
    JoinStepsUp(acc, Row5); acc := acc + Row5;
    JoinStepsUp(acc, Row6); acc := acc + Row6;
    JoinStepsUp(acc, Row7); acc := acc + Row7;
    JoinStepsUp(acc, Row8); acc := acc + Row8;
    JoinStepsUp(acc, Row9); acc := acc + Row9;
    JoinStepsUp(acc, Row10); acc := acc + Row10;
    JoinStepsUp(acc, Row11); acc := acc + Row11;
    JoinStepsUp(acc, Row12); acc := acc + Row12;
    JoinStepsUp(acc, Row13); acc := acc + Row13;
    JoinStepsUp(acc, Row14); acc := acc + Row14;
    JoinStepsUp(acc, Row15); acc := acc + Row15;
  }

  /** The table has 256 entries, starts at 0, ends at 255, and never decreases. */
  lemma {:induction false} DcShape()
    ensures |Dc| == 256 && Dc[0] == 0 && Dc[255] == 255
    ensures NonDecreasing(Dc)
  {
    DcStepsUp();
    StepsUpIsNonDecreasing(Dc);
  }
}
