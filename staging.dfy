/** The parameter setters of circular.h as values: how a requested speed, start or length is
    clamped and converted before it is stored into the pending set. Floating-point values are
    modelled as reals; the conversions to int16_t/int32_t truncate toward zero. */
module Staging {
  import opened FixedPoint

  /** Shortest grain the length setters accept before falling back to the rest of the half. */
  const MinGrainLength: int := 50

  /** `length_ms`: the duration of one half, in milliseconds (circular.cpp:7), at the audio
      library's sample rate `AUDIO_SAMPLE_RATE_EXACT`, taken as 44100 Hz. The rate is written as a
      literal so that the arithmetic stays linear for the solver. */
  function LengthMs(maxSampleLen: int): (ms: real)
    ensures MsToSamples(ms) == maxSampleLen as real
    ensures 0 <= maxSampleLen ==> 0.0 <= ms
  {
    maxSampleLen as real / 44100.0 * 1000.0
  }

  /** `ms * AUDIO_SAMPLE_RATE_EXACT * 0.001`: a duration in samples. */
  function MsToSamples(ms: real): (samples: real)
    ensures samples / 44100.0 == ms / 1000.0
    ensures 0.0 <= ms ==> 0.0 <= samples
  {
    ms * 44100.0 * 0.001
  }

  /** `pos * max_sample_len`: a fraction of the half, in samples. */
  function FractionOfHalf(pos: real, maxSampleLen: int): (samples: real)
    ensures 0 <= maxSampleLen && 0.0 <= pos <= 1.0 ==> 0.0 <= samples <= maxSampleLen as real
  {
    if 0 <= maxSampleLen && 0.0 <= pos <= 1.0 then
      RealMulMonotone(maxSampleLen as real, pos, 1.0);
      RealMulMonotone(maxSampleLen as real, 0.0, pos);
      pos * maxSampleLen as real
    else
      pos * maxSampleLen as real
  }

  lemma MsToSamplesMonotone(a: real, b: real)
    requires a <= b
    ensures MsToSamples(a) <= MsToSamples(b)
  {
  }

  lemma MsToSamplesOfLengthMs(maxSampleLen: int)
    ensures MsToSamples(LengthMs(maxSampleLen)) == maxSampleLen as real
  {
  }

  // ---- setSpeed (circular.h:43-53)

  /** The speed clamp as written. Ratios above 4 become 4 and below -4 become -4; a ratio in
      `[-0.125, 0)` becomes -0.125 and one in `[0, 0.125)` becomes 0.125. Because the third test is
      `ratio < 0.125` with no lower bound, every ratio in `[-4, -0.125)` also becomes +0.125. */
  function ClampSpeed(ratio: real): (r: real)
    ensures r == -4.0 || r == -0.125 || 0.125 <= r <= 4.0
    ensures ratio > 4.0 ==> r == 4.0
    ensures ratio < -4.0 ==> r == -4.0
    ensures -0.125 <= ratio < 0.0 ==> r == -0.125
    ensures 0.0 <= ratio < 0.125 ==> r == 0.125
    ensures 0.125 <= ratio <= 4.0 ==> r == ratio
    ensures -4.0 <= ratio < -0.125 ==> r == 0.125
  {
    if ratio < -4.0 then -4.0
    else if ratio < 0.0 && ratio >= -0.125 then -0.125
    else if ratio < 0.125 then 0.125
    else if ratio > 4.0 then 4.0
    else ratio
  }

  /** `next_playback_rate = ratio * 65536.0 + 0.499`, truncated into an int32_t. For the positive
      clamped ratios this is the 16.16 value rounded to nearest; the two negative ones come out one
      short of their exact values. */
  function SpeedRate(ratio: real): (rate: int)
    ensures IsInt32(rate)
    ensures rate == -262143 || rate == -8191 || 8192 <= rate <= 262144
    ensures 0.125 <= ratio <= 4.0 ==>
      ratio * 65536.0 - 0.501 < rate as real <= ratio * 65536.0 + 0.499
  {
    TruncReal(ClampSpeed(ratio) * 65536.0 + 0.499)
  }

  /** `setSpeed(0.05)` stores the rate of 0.125, which is 8192. */
  lemma SlowSpeedSnapsToEighth()
    ensures SpeedRate(0.05) == 8192
  {
    assert ClampSpeed(0.05) == 0.125;
  }

  /** As written, a reverse speed between -4 and -0.125 is stored as the slow forward rate 8192,
      and the reverse speeds that survive the clamp are stored one unit short (-8191, -262143). */
  lemma NegativeSpeedsAsWritten(ratio: real)
    ensures -4.0 <= ratio < -0.125 ==> SpeedRate(ratio) == 8192
    ensures -0.125 <= ratio < 0.0 ==> SpeedRate(ratio) == -8191
    ensures ratio < -4.0 ==> SpeedRate(ratio) == -262143
  {
    if -4.0 <= ratio < -0.125 { assert ClampSpeed(ratio) == 0.125; }
    if -0.125 <= ratio < 0.0 { assert ClampSpeed(ratio) == -0.125; }
    if ratio < -4.0 { assert ClampSpeed(ratio) == -4.0; }
  }

  // ---- setStartMs / setStartPos (circular.h:67-100)

  /** The millisecond clamp of `setStartMs`: negative becomes 0, beyond `length_ms` becomes
      `length_ms - 1`. */
  function ClampStartMs(ms: real, lengthMs: real): (c: real)
    ensures ms < 0.0 ==> c == 0.0
    ensures 0.0 <= ms <= lengthMs ==> c == ms
    ensures ms >= 0.0 && ms > lengthMs ==> c == lengthMs - 1.0
    ensures c <= lengthMs || c == 0.0
  {
    if ms < 0.0 then 0.0 else if ms > lengthMs then lengthMs - 1.0 else ms
  }

  /** `new_offset` of `setStartMs`. It never passes the end of the half; it is non-negative once
      a half lasts at least a millisecond, and at worst -43 for the tiniest halves. */
  function StartOffsetMs(ms: real, maxSampleLen: int): (o: int)
    requires 0 <= maxSampleLen <= 16383
    ensures o <= maxSampleLen
    ensures -44 <= o
    ensures 1 <= maxSampleLen ==> -43 <= o
    ensures 44 <= maxSampleLen ==> 0 <= o
  {
    var c := ClampStartMs(ms, LengthMs(maxSampleLen));
    StartSamplesRange(c, ms, maxSampleLen);
    Wrap16(TruncReal(MsToSamples(c)))
  }

  lemma StartSamplesRange(c: real, ms: real, maxSampleLen: int)
    requires 0 <= maxSampleLen <= 16383 && c == ClampStartMs(ms, LengthMs(maxSampleLen))
    ensures -44.1 <= MsToSamples(c) <= maxSampleLen as real
    ensures 1 <= maxSampleLen ==> -43.1 <= MsToSamples(c)
    ensures 44 <= maxSampleLen ==> MsToSamples(c) > -1.0
  {
    MsToSamplesOfLengthMs(maxSampleLen);
    if c <= LengthMs(maxSampleLen) { MsToSamplesMonotone(c, LengthMs(maxSampleLen)); }
  }

  /** The fraction clamp of `setStartPos`: into `[0, 0.99]`. */
  function ClampStartPos(pos: real): (c: real)
    ensures 0.0 <= c <= 0.99
    ensures 0.0 <= pos <= 0.99 ==> c == pos
  {
    if pos < 0.0 then 0.0 else if pos > 0.99 then 0.99 else pos
  }

  /** `new_offset` of `setStartPos`: always a position inside the half (0 before `begin`). */
  function StartOffsetPos(pos: real, maxSampleLen: int): (o: int)
    requires 0 <= maxSampleLen <= 16383
    ensures 0 <= o <= maxSampleLen
    ensures 1 <= maxSampleLen ==> o < maxSampleLen
  {
    var c := ClampStartPos(pos);
    StartPosSamplesRange(c, maxSampleLen);
    Wrap16(TruncReal(FractionOfHalf(c, maxSampleLen)))
  }

  lemma StartPosSamplesRange(c: real, maxSampleLen: int)
    requires 0 <= maxSampleLen <= 16383 && 0.0 <= c <= 0.99
    ensures 0 <= TruncReal(FractionOfHalf(c, maxSampleLen)) <= maxSampleLen
    ensures 1 <= maxSampleLen ==> TruncReal(FractionOfHalf(c, maxSampleLen)) < maxSampleLen
  {
    FractionBelowHalf(c, maxSampleLen);
    TruncBelow(FractionOfHalf(c, maxSampleLen), maxSampleLen);
  }

  lemma FractionBelowHalf(c: real, maxSampleLen: int)
    requires 0 <= maxSampleLen && 0.0 <= c <= 0.99
    ensures 0.0 <= FractionOfHalf(c, maxSampleLen) <= maxSampleLen as real
    ensures 1 <= maxSampleLen ==> FractionOfHalf(c, maxSampleLen) < maxSampleLen as real
  {
    var k := maxSampleLen as real;
    RealMulMonotone(k, c, 0.99);
    RealMulMonotone(k, 0.0, c);
    assert FractionOfHalf(c, maxSampleLen) == c * k;
    if 1 <= maxSampleLen {
      assert 1.0 <= k;
    }
  }

  lemma TruncBelow(x: real, n: int)
    requires 0.0 <= x <= n as real
    ensures 0 <= TruncReal(x) <= n
    ensures x < n as real ==> TruncReal(x) < n
  {
  }

  lemma RealMulMonotone(k: real, a: real, b: real)
    requires k >= 0.0 && a <= b
    ensures a * k <= b * k
  {
    assert b * k - a * k == (b - a) * k;
  }

  /** The length the start setters stage beside a new offset: the ideal length whenever it still
      fits after the offset, otherwise the room left in the half less `margin` (0 for
      `setStartMs`, 1 for `setStartPos`). The result never runs past the half. */
  function FitLength(offset: int, ideal: int, maxSampleLen: int, margin: int): (l: int)
    ensures ideal + offset <= maxSampleLen ==> l == ideal
    ensures ideal + offset > maxSampleLen && IsInt16(maxSampleLen - offset - margin) ==>
      l == maxSampleLen - offset - margin
    ensures IsInt16(maxSampleLen - offset - margin) && margin >= 0 ==> offset + l <= maxSampleLen
    ensures IsInt16(ideal) ==> IsInt16(l)
  {
    if ideal + offset > maxSampleLen then Wrap16(maxSampleLen - offset - margin) else ideal
  }

  /** After `setStartMs` the staged grain ends inside the half, and when the ideal length had to
      be cut it ends exactly at the end of the half. */
  lemma StartMsFits(ms: real, maxSampleLen: int, ideal: int)
    requires 0 <= maxSampleLen <= 16383
    ensures var o := StartOffsetMs(ms, maxSampleLen);
            var l := FitLength(o, ideal, maxSampleLen, 0);
            o + l <= maxSampleLen && (ideal + o > maxSampleLen ==> o + l == maxSampleLen)
  {
    var o := StartOffsetMs(ms, maxSampleLen);
    assert IsInt16(maxSampleLen - o);
  }

  /** After `setStartPos` the staged grain ends inside the half, one short of the end when the
      ideal length had to be cut (a cut length is never negative once `begin` has run). */
  lemma StartPosFits(pos: real, maxSampleLen: int, ideal: int)
    requires 0 <= maxSampleLen <= 16383
    ensures var o := StartOffsetPos(pos, maxSampleLen);
            var l := FitLength(o, ideal, maxSampleLen, 1);
            o + l <= maxSampleLen &&
            (ideal + o > maxSampleLen ==> o + l == maxSampleLen - 1) &&
            (ideal + o > maxSampleLen && 1 <= maxSampleLen ==> 0 <= l)
  {
    var o := StartOffsetPos(pos, maxSampleLen);
    assert IsInt16(maxSampleLen - o - 1);
  }

  // ---- setLengthMs / setLengthPos (circular.h:108-141)

  /** The millisecond clamp of `setLengthMs`: below 1 becomes 1, beyond `length_ms` becomes
      `length_ms`. */
  function ClampLengthMs(ms: real, lengthMs: real): (c: real)
    ensures ms < 1.0 ==> c == 1.0
    ensures 1.0 <= ms ==> c <= lengthMs || c == ms
    ensures 1.0 <= ms <= lengthMs ==> c == ms
    ensures c == 1.0 || c <= lengthMs
  {
    if ms < 1.0 then 1.0 else if ms > lengthMs then lengthMs else ms
  }

  /** The fraction clamp of `setLengthPos`: into `[0.01, 1.0]`. */
  function ClampLengthPos(pos: real): (c: real)
    ensures 0.01 <= c <= 1.0
    ensures 0.01 <= pos <= 1.0 ==> c == pos
  {
    if pos < 0.01 then 0.01 else if pos > 1.0 then 1.0 else pos
  }

  /** `new_length` of `setLengthMs` before the minimum test: the requested end converted to
      samples, minus the ACTIVE `offset` (not the pending one). It never reaches past the half,
      except a request under the 50-sample minimum, which the minimum test replaces. */
  function LengthSamplesMs(ms: real, maxSampleLen: int, offset: int): (l: int)
    ensures 1 <= maxSampleLen <= 16383 && 0 <= offset < maxSampleLen ==>
      -offset <= l && (offset + l <= maxSampleLen || l < MinGrainLength)
  {
    RequestedMsBounds(ms, maxSampleLen, offset);
    Wrap16(TruncReal(MsToSamples(ClampLengthMs(ms, LengthMs(maxSampleLen))) - offset as real))
  }

  /** `new_length` of `setLengthPos`: the requested fraction of the half, minus the active
      `offset`. It never reaches past the half. */
  function LengthSamplesPos(pos: real, maxSampleLen: int, offset: int): (l: int)
    ensures 1 <= maxSampleLen <= 16383 && 0 <= offset < maxSampleLen ==>
      -offset <= l && offset + l <= maxSampleLen
  {
    Wrap16(TruncReal(FractionOfHalf(ClampLengthPos(pos), maxSampleLen) - offset as real))
  }

  /** The requested end of `setLengthMs` lies inside the half, unless the 1 ms floor asks for
      more than a very short half holds; either way it is well inside the int16_t range. */
  lemma RequestedMsBounds(ms: real, maxSampleLen: int, offset: int)
    ensures var x := MsToSamples(ClampLengthMs(ms, LengthMs(maxSampleLen))) - offset as real;
            1 <= maxSampleLen <= 16383 && 0 <= offset < maxSampleLen ==>
              -offset as real <= x && (x <= (maxSampleLen - offset) as real || x < MinGrainLength as real)
  {
    var c := ClampLengthMs(ms, LengthMs(maxSampleLen));
    if c <= LengthMs(maxSampleLen) {
      MsToSamplesMonotone(c, LengthMs(maxSampleLen));
    }
  }

  /** The minimum test of both length setters: a length under 50 samples is replaced by the rest
      of the half after the active offset, less one. */
  function StageLength(newLength: int, offset: int, maxSampleLen: int): (l: int)
    ensures newLength >= MinGrainLength ==> l == newLength
    ensures newLength < MinGrainLength && IsInt16(maxSampleLen - offset - 1) ==>
      l == maxSampleLen - offset - 1
    ensures l >= MinGrainLength || l == Wrap16(maxSampleLen - offset - 1)
  {
    if newLength < MinGrainLength then Wrap16(maxSampleLen - offset - 1) else newLength
  }

  /** `setLengthMs` from an active offset inside the half stages a non-negative length that ends
      inside the half. */
  lemma LengthMsFits(ms: real, maxSampleLen: int, offset: int)
    requires 0 <= maxSampleLen <= 16383
    ensures var l := StageLength(LengthSamplesMs(ms, maxSampleLen, offset), offset, maxSampleLen);
            0 <= offset < maxSampleLen ==> 0 <= l && offset + l <= maxSampleLen
  {
    if 0 <= offset < maxSampleLen {
      LengthMsFitsInHalf(ms, maxSampleLen, offset);
    }
  }

  lemma LengthMsFitsInHalf(ms: real, maxSampleLen: int, offset: int)
    requires 1 <= maxSampleLen <= 16383 && 0 <= offset < maxSampleLen
    ensures var l := StageLength(LengthSamplesMs(ms, maxSampleLen, offset), offset, maxSampleLen);
            0 <= l && offset + l <= maxSampleLen
  {
    var lengthMs := LengthMs(maxSampleLen);
    var c := ClampLengthMs(ms, lengthMs);
    MsToSamplesOfLengthMs(maxSampleLen);
    var x := MsToSamples(c) - offset as real;
    if c <= lengthMs {
      MsToSamplesMonotone(c, lengthMs);
      assert x <= (maxSampleLen - offset) as real;
    } else {
      assert c == 1.0;
      assert x < 50.0;
    }
    assert -16384.0 < x;
  }

  /** `setLengthPos` from an active offset inside the half stages a non-negative length that ends
      inside the half. */
  lemma LengthPosFits(pos: real, maxSampleLen: int, offset: int)
    requires 0 <= maxSampleLen <= 16383
    ensures var l := StageLength(LengthSamplesPos(pos, maxSampleLen, offset), offset, maxSampleLen);
            0 <= offset < maxSampleLen ==> 0 <= l && offset + l <= maxSampleLen
  {
    if 0 <= offset < maxSampleLen {
      LengthPosFitsInHalf(pos, maxSampleLen, offset);
    }
  }

  lemma LengthPosFitsInHalf(pos: real, maxSampleLen: int, offset: int)
    requires 1 <= maxSampleLen <= 16383 && 0 <= offset < maxSampleLen
    ensures var l := StageLength(LengthSamplesPos(pos, maxSampleLen, offset), offset, maxSampleLen);
            0 <= l && offset + l <= maxSampleLen
  {
    var c := ClampLengthPos(pos);
    RealMulMonotone(maxSampleLen as real, c, 1.0);
    RealMulMonotone(maxSampleLen as real, 0.0, c);
    assert FractionOfHalf(c, maxSampleLen) == c * maxSampleLen as real;
    var x := FractionOfHalf(c, maxSampleLen) - offset as real;
    assert x <= (maxSampleLen - offset) as real;
    assert -16384.0 < x;
  }

  /** A half of 1000 samples lasts about 22.7 ms, so `setLengthMs(100)` is clamped to the whole
      half: with the active offset at 0 the staged length is 1000 samples. */
  lemma LengthMsClampsToHalf()
    ensures StageLength(LengthSamplesMs(100.0, 1000, 0), 0, 1000) == 1000
  {
    MsToSamplesOfLengthMs(1000);
    assert ClampLengthMs(100.0, LengthMs(1000)) == LengthMs(1000);
  }
}
