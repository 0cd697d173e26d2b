/** The wavetable LFO of lfo.cpp: a 16.16 fixed-point table lookup with linear interpolation, and
    a phase clock driven by the millisecond counter. `unsigned long` and `uint32_t` are both 32
    bits on the target. */
module Lfo {
  import opened FixedPoint

  /** The first `len` entries of `input` lie in `[lo, hi]`. */
  ghost predicate Bounded(input: seq<int>, len: int, lo: int, hi: int)
    requires 0 <= len <= |input|
  {
    forall k :: 0 <= k < len ==> lo <= input[k] <= hi
  }

  /** `interpolate(input, len, index)`: the integer part of the 16.16 `index` selects an entry,
      the fraction weights it against the next one, and the weighted sum is shifted right by 16
      (an arithmetic shift, that is a floor). At or past the last entry the last entry itself is
      returned. The products are not reduced to 32 bits: for entries of magnitude below 32768,
      as in every table of lfo.cpp, they cannot overflow. */
  function Interpolate(input: seq<int>, len: int, index: int): (r: int)
    requires 1 <= len <= |input| && IsUint32(index)
    ensures index / Pow16 >= len - 1 ==> r == input[len - 1]
    ensures index / Pow16 < len - 1 ==>
      var i, w := index / Pow16, index % Pow16;
      r * Pow16 <= input[i] * (Pow16 - w) + input[i + 1] * w < (r + 1) * Pow16
    ensures index / Pow16 < len - 1 && index % Pow16 == 0 ==> r == input[index / Pow16]
    ensures index / Pow16 < len - 1 ==>
      Min(input[index / Pow16], input[index / Pow16 + 1]) <= r <= Max(input[index / Pow16], input[index / Pow16 + 1])
  {
    var i := index / Pow16;
    var weight := index % Pow16;
    if i >= len - 1 then input[len - 1]
    else
      WeightedMeanBetween(input[i], input[i + 1], weight);
      (input[i] * (Pow16 - weight) + input[i + 1] * weight) / Pow16
  }

  /** The floor of a weighted mean of two integers with weights summing to 65536 lies between
      them, and equals the first when its weight is the whole. */
  lemma WeightedMeanBetween(a: int, b: int, w: int)
    requires 0 <= w < Pow16
    ensures var m := (a * (Pow16 - w) + b * w) / Pow16;
            Min(a, b) <= m <= Max(a, b) && (w == 0 ==> m == a)
  {
    var x := a * (Pow16 - w) + b * w;
    assert x == a * Pow16 + (b - a) * w;
    if a <= b {
      MulMonotone(b - a, 0, w);
      MulMonotone(b - a, w, Pow16);
      assert a * Pow16 <= x <= b * Pow16;
    } else {
      MulMonotone(a - b, 0, w);
      MulMonotone(a - b, w, Pow16);
      assert b * Pow16 <= x <= a * Pow16;
    }
  }

  /** Whatever the index, the interpolated value lies within the bounds of the table. */
  lemma InterpolateWithinTable(input: seq<int>, len: int, index: int, lo: int, hi: int)
    requires 1 <= len <= |input| && IsUint32(index) && Bounded(input, len, lo, hi)
    ensures lo <= Interpolate(input, len, index) <= hi
  {
    var i := index / Pow16;
    if i < len - 1 {
      assert lo <= input[i] <= hi && lo <= input[i + 1] <= hi;
    } else {
      assert lo <= input[len - 1] <= hi;
    }
  }

  /** `_current_time * (_length - 1) * 65536 / _time` in uint32_t: the product wraps modulo 2^32
      before the division. */
  function PhaseIndex(currentTime: int, length: int, time: int): (index: int)
    requires IsUint32(currentTime) && time > 0 && IsUint32(time)
    ensures IsUint32(index)
  {
    U32(currentTime * (length - 1) * Pow16) / time
  }

  /** Without wrap-around the phase index is the elapsed fraction of the period scaled to the
      table: at the start of a period it selects the first entry, and at its end the last. */
  lemma PhaseEndpoints(length: int, time: int)
    requires 1 <= length && 1 <= time < Pow32 && time * (length - 1) * Pow16 < Pow32
    ensures PhaseIndex(0, length, time) == 0
    ensures PhaseIndex(time, length, time) == (length - 1) * Pow16
  {
    var p := time * (length - 1) * Pow16;
    assert p == time * ((length - 1) * Pow16);
    MulMonotone(time, 0, (length - 1) * Pow16);
    MulDivCancel((length - 1) * Pow16, time);
    assert ((length - 1) * Pow16) * time == p;
  }

  /** For a 60-entry table the 32-bit product wraps once `_current_time` reaches 1111 ms: with
      a 2000 ms period the phase then falls back to the start of the table instead of passing
      its middle. */
  lemma PhaseWrapsForLongPeriods()
    ensures PhaseIndex(1110, 60, 2000) / Pow16 == 32
    ensures PhaseIndex(1111, 60, 2000) / Pow16 == 0
  {
    assert U32(1110 * 59 * Pow16) == 4291952640;
    assert U32(1111 * 59 * Pow16) == 851968;
  }

  /** `WavetableLFO`: a phase clock over one wavetable. `_tbl` and `_length` are set once by the
      constructor. */
  class WavetableLfo {
    var value: real
    var byteValue: int
    var lastMs: int
    var time: int
    var currentTime: int
    var increment: int
    const tbl: seq<int>
    const length: int

    /** The 32-bit fields hold 32-bit values and `_length` entries of the table exist. */
    ghost predicate Valid()
      reads this
    {
      1 <= length <= |tbl| && IsUint32(lastMs) && IsUint32(time) && IsUint32(currentTime) &&
      IsUint32(increment)
    }

    /** `WavetableLFO(duration, length, tbl)`: the table and its length, and the period through
        `set_time`. The constructor leaves the other fields unassigned; the model starts them at
        zero. */
    constructor (duration: int, len: int, table: seq<int>)
      requires 1 <= len <= |table|
      ensures Valid() && tbl == table && length == len && time == U32(duration)
      ensures lastMs == 0 && currentTime == 0 && increment == 0 && byteValue == 0 && value == 0.0
    {
      tbl := table;
      length := len;
      value, byteValue, lastMs, currentTime, increment := 0.0, 0, 0, 0, 0;
      new;
      SetTime(duration);
    }

    /** `set_time(duration)`: only the period changes (an `int` stored into a uint32_t). */
    method SetTime(duration: int)
      requires 1 <= length <= |tbl| && IsUint32(lastMs) && IsUint32(currentTime) && IsUint32(increment)
      modifies this
      ensures Valid() && time == U32(duration)
      ensures value == old(value) && byteValue == old(byteValue) && lastMs == old(lastMs) &&
              currentTime == old(currentTime) && increment == old(increment)
    {
      time := U32(duration);
    }

    /** `reset()`: only the phase returns to the start of the period. */
    method Reset()
      requires Valid()
      modifies this
      ensures Valid() && currentTime == 0
      ensures value == old(value) && byteValue == old(byteValue) && lastMs == old(lastMs) &&
              time == old(time) && increment == old(increment)
    {
      currentTime := 0;
    }

    /** `loop(ms)`: the time since the last call moves the phase, the table is read at the phase,
        and the phase restarts once it reaches the period. The period must not be 0 (the C++
        divides by it). Afterwards the phase is inside the period and the value lies within the
        table's bounds. */
    method Loop(ms: int)
      requires Valid() && IsUint32(ms) && time > 0
      modifies this
      ensures Valid() && lastMs == ms && time == old(time)
      ensures var t := U32(old(currentTime) + Elapsed(old(lastMs), ms));
              increment == PhaseIndex(t, length, time) &&
              currentTime == (if t >= time then 0 else t)
      ensures byteValue == Interpolate(tbl, length, increment) && value == byteValue as real / 255.0
      ensures currentTime < time
      ensures forall lo, hi {:trigger Bounded(tbl, length, lo, hi)} ::
        Bounded(tbl, length, lo, hi) ==> lo <= byteValue <= hi
    {
      var duration := U32(ms - lastMs);
      lastMs := ms;
      var t := U32(currentTime + duration);
      currentTime := t;
      var index := U32(t * (length - 1) * Pow16) / time;
      assert index == PhaseIndex(t, length, time);
      increment := index;
      var b := Interpolate(tbl, length, index);
      byteValue := b;
      value := b as real / 255.0;
      if t >= time {
        currentTime := 0;
      }
      forall lo, hi | Bounded(tbl, length, lo, hi)
        ensures lo <= b <= hi
      {
        InterpolateWithinTable(tbl, length, index, lo, hi);
      }
    }
  }
}
