/** The constant wavetables of lfo.cpp (`TBL_*`, lengths from lfo.h) and the shapes they are
    meant to have. */
module LfoTables {
  import opened Lfo

  // The 60-entry tables are written as four rows of 15, as in the C++ source.
  const TblSquare: seq<int> :=
    [255, 255, 255, 255, 255, 255, 255, 255, 255, 255, 255, 255, 255, 255, 255] +
    [255, 255, 255, 255, 255, 255, 255, 255, 255, 255, 255, 255, 255, 255, 255] +
    [0,   0,   0,   0,   0,   0,   0,   0,   0,   0,   0,   0,   0,   0,   0] +
    [0,   0,   0,   0,   0,   0,   0,   0,   0,   0,   0,   0,   0,   0,   0]

  const TblRamp: seq<int> := [0, 51, 102, 153, 204, 255]

  const TblWobble: seq<int> := WobbleRow0 + WobbleRow1 + WobbleRow2 + WobbleRow3
  const WobbleRow0: seq<int> := [0,   5,   10,  35,  75,  130, 185, 225, 240, 250, 255, 255, 200, 160, 130]
  const WobbleRow1: seq<int> := [105, 85,  70,  60,  50,  40,  32,  31,  30,  31,  32,  37,  50,  80,  110]
  const WobbleRow2: seq<int> := [130, 140, 145, 145, 100, 70,  45,  32,  25,  21,  19,  17,  16,  15,  14]
  const WobbleRow3: seq<int> := [13,  13,  12,  11,  10,  25,  50,  37,  16,  8,   4,   3,   2,   1,   0]

  const TblTri: seq<int> := [0, 51, 102, 153, 204, 255, 204, 153, 102, 51, 0]

  const TblRevWobble: seq<int> := RevWobbleRow0 + RevWobbleRow1 + RevWobbleRow2 + RevWobbleRow3
  const RevWobbleRow0: seq<int> := [0,   1,   2,   3,   4,   8,   16,  37,  50,  25,  10,  11,  12,  13,  13]
  const RevWobbleRow1: seq<int> := [14,  15,  16,  17,  19,  21,  25,  32,  45,  70,  100, 145, 145, 140, 130]
  const RevWobbleRow2: seq<int> := [110, 80,  50,  37,  32,  31,  30,  31,  32,  40,  50,  60,  70,  85,  105]
  const RevWobbleRow3: seq<int> := [130, 160, 200, 255, 255, 250, 240, 225, 185, 130, 75,  35,  10,  5,   0]

  const TblSaw: seq<int> := [255, 204, 153, 102, 51, 0]

  /** `s` read back to front. */
  function Reverse(s: seq<int>): (r: seq<int>)
    ensures |r| == |s|
    ensures forall i :: 0 <= i < |s| ==> r[i] == s[|s| - 1 - i]
    decreases |s|
  {
    if |s| == 0 then [] else [s[|s| - 1]] + Reverse(s[..|s| - 1])
  }

  /** The table lengths of lfo.h. */
  lemma TableLengths()
    ensures |TblSquare| == 60 && |TblRamp| == 6 && |TblWobble| == 60
    ensures |TblTri| == 11 && |TblRevWobble| == 60 && |TblSaw| == 6
  {
  }

  /** Every entry is a byte value, so every LFO over these tables produces `byte_value` in
      `[0, 255]`. */
  lemma TablesAreBytes()
    ensures Bounded(TblSquare, 60, 0, 255) && Bounded(TblRamp, 6, 0, 255)
    ensures Bounded(TblWobble, 60, 0, 255) && Bounded(TblTri, 11, 0, 255)
    ensures Bounded(TblRevWobble, 60, 0, 255) && Bounded(TblSaw, 6, 0, 255)
  {
    SquareHalves();
    WobbleIsBytes();
    RevWobbleIsBytes();
  }

  lemma WobbleIsBytes()
    ensures |TblWobble| == 60 && forall k :: 0 <= k < 60 ==> 0 <= TblWobble[k] <= 255
  {
  }

  lemma RevWobbleIsBytes()
    ensures |TblRevWobble| == 60 && forall k :: 0 <= k < 60 ==> 0 <= TblRevWobble[k] <= 255
  {
  }

  /** The square wave is high for the first half of the period and low for the second. */
  lemma SquareHalves()
    ensures |TblSquare| == 60
    ensures forall i :: 0 <= i < 30 ==> TblSquare[i] == 255
    ensures forall i :: 30 <= i < 60 ==> TblSquare[i] == 0
  {
  }

  /** Reversing a concatenation reverses the order of its parts. */
  lemma {:induction false} ReverseAppend(a: seq<int>, b: seq<int>)
    ensures Reverse(a + b) == Reverse(b) + Reverse(a)
    decreases |b|
  {
    if |b| == 0 {
      assert a + b == a;
    } else {
      var b' := b[..|b| - 1];
      assert a + b == (a + b') + [b[|b| - 1]];
      assert (a + b)[..|a + b| - 1] == a + b';
      ReverseAppend(a, b');
      assert Reverse(b) == [b[|b| - 1]] + Reverse(b');
    }
  }

  /** Each row of the reversed wobble mirrors the matching row of the wobble. */
  lemma WobbleRowsMirrored()
    ensures RevWobbleRow0 == Reverse(WobbleRow3) && RevWobbleRow1 == Reverse(WobbleRow2)
    ensures RevWobbleRow2 == Reverse(WobbleRow1) && RevWobbleRow3 == Reverse(WobbleRow0)
  {
    assert forall k :: 0 <= k < 15 ==> RevWobbleRow0[k] == WobbleRow3[14 - k];
    assert forall k :: 0 <= k < 15 ==> RevWobbleRow1[k] == WobbleRow2[14 - k];
    assert forall k :: 0 <= k < 15 ==> RevWobbleRow2[k] == WobbleRow1[14 - k];
    assert forall k :: 0 <= k < 15 ==> RevWobbleRow3[k] == WobbleRow0[14 - k];
  }

  /** The reversed wobble is the exact mirror image of the wobble. */
  lemma WobbleMirrored()
    ensures TblRevWobble == Reverse(TblWobble)
  {
    WobbleRowsMirrored();
    ReverseAppend(WobbleRow0 + WobbleRow1 + WobbleRow2, WobbleRow3);
    ReverseAppend(WobbleRow0 + WobbleRow1, WobbleRow2);
    ReverseAppend(WobbleRow0, WobbleRow1);
  }

  /** The saw is the ramp played backwards, and the triangle is symmetric. */
  lemma SawAndTriMirrored()
    ensures TblSaw == Reverse(TblRamp)
    ensures TblTri == Reverse(TblTri)
  {
    assert forall k :: 0 <= k < 6 ==> TblSaw[k] == TblRamp[5 - k];
    assert forall k :: 0 <= k < 11 ==> TblTri[k] == TblTri[10 - k];
  }
}
